/** What the dispatcher propagates, replayed elsewhere, against what it did to its own store. */
module Propagation {
  import opened Text
  import opened Store
  import opened Commands
  import opened Blocking
  import opened Dispatcher
  import opened SaneStores
  import opened Handoffs
  import opened ClockIds
  import StreamIds
  import Resp

  /** A replica runs every command it receives through its own dispatcher, on which nobody waits. */
  function ReplayOn(env: Env, c: Conn, s: Store, ps: seq<Payload>): (Conn, Store)
    decreases ps
  {
    if ps == [] then (c, s)
    else
      var r := Dispatch(env, c, OPEN.(store := s), ps[0]);
      ReplayOn(env, r.conn, r.desk.store, ps[1..])
  }

  function Replay(env: Env, s: Store, ps: seq<Payload>): Store { ReplayOn(env, FRESH, s, ps).1 }

  /** Some clock, for stating what does not depend on it. */
  const ENV0 := Env(0, (s: Store, p: Payload) => "", 0)

  /** Replaying these commands from `s` ends in `t`, whatever clock each single command sees. */
  ghost predicate Lockstep(s: Store, ps: seq<Payload>, t: Store)
    decreases ps
  {
    if ps == [] then s == t
    else
      (forall env :: Replay(env, s, [ps[0]]) == Replay(ENV0, s, [ps[0]]))
      && Lockstep(Replay(ENV0, s, [ps[0]]), ps[1..], t)
  }

  // ---- commands whose effect depends on the clock ------------------------------------------------

  /** Some clock takes this span to a date that exists; another clock then takes it elsewhere. */
  predicate DatesVary(span: Option<int>) { span.Some? ==> -2 * MAX_DATE <= span.value <= MAX_DATE }

  predicate SetNeedsClock(s: Store, args: seq<string>) {
    |args| >= 2
    && match ParseOptions(args[2..], NO_OPTIONS)
       case None => false
       case Some(o) =>
         && ModeAllows(o.mode, args[0] in s.values)
         && !(o.keepTtl && args[0] in s.values)
         && o.time.Relative? && DatesVary(o.time.span)
  }

  predicate ExpireNeedsClock(s: Store, args: seq<string>) {
    |args| == 2 && args[0] in s.values && ParseInt(args[1]).Some?
    && DatesVary(Some(ParseInt(args[1]).value * 1000))
  }

  /** Under some clock `*` is accepted: a stream whose top ID comes after all of them as a string takes no more. */
  predicate XAddNeedsClock(s: Store, args: seq<string>) {
    |args| >= 4 && args[1] == "*" && (args[0] in s.values ==> s.values[args[0]].value.Stream?)
    && var top := TopId(EntriesAt(s, args[0])); top.Some? ==> !StreamIds.Less(LAST_CLOCK, StreamIds.Ms(top.value))
  }

  predicate NeedsClock(s: Store, name: string, args: seq<string>) {
    (name == "set" && SetNeedsClock(s, args))
    || (name == "expire" && ExpireNeedsClock(s, args))
    || (name == "xadd" && XAddNeedsClock(s, args))
  }

  lemma SetWithoutClock(now: Clock, later: Clock, s: Store, args: seq<string>)
    requires !SetNeedsClock(s, args)
    ensures Commands.Set(now, s, args) == Commands.Set(later, s, args)
  {
    hide ParseOptions, Error;
  }

  lemma XAddWithoutClock(now: Clock, later: Clock, s: Store, args: seq<string>)
    requires !XAddNeedsClock(s, args)
    ensures Commands.XAdd(now, s, args) == Commands.XAdd(later, s, args)
  {
    hide StreamIds.IsStreamId, StreamIds.Ms, StreamIds.Seq, StreamIds.Join, StreamIds.Less, Error, BulkReply, StreamIds.Successor;
    if |args| >= 4 && args[1] == "*" && TopId(EntriesAt(s, args[0])).Some? {
      var top := TopId(EntriesAt(s, args[0])).value;
      if StreamIds.Less(LAST_CLOCK, StreamIds.Ms(top)) {
        NoClockIsAccepted(top, now);
        NoClockIsAccepted(top, later);
      }
    }
  }

  /** Any other write gives the same store under every clock. */
  lemma SameUnderEveryClock(env: Env, other: Env, s: Store, name: string, args: seq<string>)
    requires IsWrite(name) && !NeedsClock(s, name, args)
    ensures Execute(env, s, name, args).store == Execute(other, s, name, args).store
  {
    hide Commands.Set, XAdd, IsWrite, DeleteAll, Error;
    SetNames(name);
    if name == "set" { SetWithoutClock(env.now, other.now, s, args); }
    if name == "xadd" { XAddWithoutClock(env.now, other.now, s, args); }
  }

  lemma SetNames(name: string)
    requires IsWrite(name)
    ensures name != "get" && name != "multi" && name != "exec" && |name| != 8
  {
  }

  // ---- commands that change the store without being propagated -------------------------------------

  /** GET deletes the key it finds expired. */
  predicate ReadDeletes(now: nat, s: Store, args: seq<string>) {
    |args| == 1 && args[0] in s.values && IsExpired(s.values[args[0]].expiration, now)
  }

  /** LPOP removes something. */
  predicate PopsSomething(s: Store, args: seq<string>) {
    1 <= |args| <= 2 && ListAt(s, args[0]) != []
    && (|args| == 2 && args[1] != "" ==> ParseInt(args[1]).Some? && ParseInt(args[1]).value > 0)
  }

  /** The store changes, and EXEC does not propagate it. */
  predicate ChangesUnseen(env: Env, s: Store, name: string, args: seq<string>) {
    (name == "get" && ReadDeletes(env.now, s, args)) || (name == "lpop" && PopsSomething(s, args))
  }

  lemma DeleteDiffers(s: Store, key: string)
    requires key in s.values
    ensures s.Delete(key) != s
  {
    assert s.Delete(key).Get(key) == None && s.Get(key) != None;
  }

  lemma PopChangesExactly(s: Store, args: seq<string>)
    ensures Commands.LPop(s, args).store != s <==> PopsSomething(s, args)
  {
    hide Error, Resp.ToRESP, BulkReply, ParseInt;
    if |args| > 0 && ListAt(s, args[0]) != [] {
      var key, items := args[0], ListAt(s, args[0]);
      DeleteDiffers(s, key);
      forall n | 0 <= n <= |items| ensures (UpdateStore(s, key, items[n..]) == s) <==> n == 0 {
        var t := UpdateStore(s, key, items[n..]);
        if n == 0 {
          assert items[0..] == items;
          assert t.values == s.values;
        } else if n < |items| {
          assert |ListAt(t, key)| != |items|;
        }
      }
    }
  }

  /** Exactly which simple commands that EXEC does not propagate change the store. */
  lemma UnseenExactly(env: Env, s: Store, name: string, args: seq<string>)
    requires KindOf(name) == Some(Simple) && !ExecPropagates(name)
    ensures Execute(env, s, name, args).store != s <==> ChangesUnseen(env, s, name, args)
  {
    hide Commands.LPop, Error, PopsSomething, Commands.Set, Incr, Del, Expire, Commands.RPush, Commands.LPush, XAdd;
    if name == "lpop" { PopChangesExactly(s, args); }
    if name == "get" && ReadDeletes(env.now, s, args) { DeleteDiffers(s, args[0]); }
  }

  // ---- replaying -----------------------------------------------------------------------------------

  lemma WritesAreSimple(p: Payload)
    requires IsWrite(NameOf(p))
    ensures p != [] && KindOf(NameOf(p)) == Some(Simple) && !IsAck(p)
  {
    hide Lower;
  }

  /** Where nobody waits, a simple command does what the command alone does. */
  lemma NobodyWaits(env: Env, d: Desk, name: string, args: seq<string>)
    requires IsPush(name) && |args| >= 2 ==> QueueOf(d.queues, args[0]) == [] || IsError(Execute(env, d.store, name, args).reply)
    ensures RunSimple(env, d, name, args).0.store == Execute(env, d.store, name, args).store
    ensures RunSimple(env, d, name, args).0.propagated == d.propagated
  {
    hide Execute, Taken, Tagged, TryLPop;
    if IsError(Execute(env, d.store, name, args).reply) { ErrorsChangeNothing(env, d.store, name, args); }
  }

  lemma ReplayOne(env: Env, s: Store, p: Payload)
    requires IsWrite(NameOf(p))
    ensures ReplayOn(env, FRESH, s, [p]) == (FRESH, Execute(env, s, NameOf(p), ArgsOf(p)).store)
    ensures Replay(env, s, [p]) == Execute(env, s, NameOf(p), ArgsOf(p)).store
  {
    hide Execute, IsWrite, KindOf, IsAck, NameOf, RunSimple, ArgsOf;
    WritesAreSimple(p);
    NobodyWaits(env, OPEN.(store := s), NameOf(p), ArgsOf(p));
    assert [p][1..] == [];
  }

  ghost predicate AllWrites(ps: seq<Payload>) { forall i :: 0 <= i < |ps| ==> IsWrite(NameOf(ps[i])) }

  lemma {:induction false} ReplayAppend(env: Env, s: Store, ps: seq<Payload>, more: seq<Payload>)
    requires AllWrites(ps)
    ensures Replay(env, s, ps + more) == Replay(env, Replay(env, s, ps), more)
    ensures ReplayOn(env, FRESH, s, ps).0 == FRESH
    decreases ps
  {
    hide Dispatcher.Dispatch, IsWrite, NameOf, Execute;
    if ps == [] {
      assert ps + more == more;
    } else {
      ReplayOne(env, s, ps[0]);
      assert [ps[0]][1..] == [];
      var t := Replay(env, s, [ps[0]]);
      assert AllWrites(ps[1..]) by { assert forall i :: 0 <= i < |ps[1..]| ==> ps[1..][i] == ps[i + 1]; }
      ReplayAppend(env, t, ps[1..], more);
      assert (ps + more)[1..] == ps[1..] + more;
    }
  }

  lemma OneInLockstep(s: Store, ps: seq<Payload>, t: Store)
    requires |ps| <= 1 && forall env :: Replay(env, s, ps) == t
    ensures Lockstep(s, ps, t)
  {
    hide Dispatcher.Dispatch, Replay;
    if ps == [] {
      NothingReplays(ENV0, s);
    } else {
      assert ps == [ps[0]] && ps[1..] == [];
    }
  }

  lemma {:induction false} LockstepAppend(s: Store, a: seq<Payload>, t: Store, b: seq<Payload>, u: Store)
    requires Lockstep(s, a, t) && Lockstep(t, b, u)
    ensures Lockstep(s, a + b, u)
    decreases a
  {
    hide Replay;
    if a == [] {
      assert a + b == b;
    } else {
      LockstepAppend(Replay(ENV0, s, [a[0]]), a[1..], t, b, u);
      assert (a + b)[1..] == a[1..] + b;
    }
  }

  lemma {:induction false} LockstepSplit(env: Env, s: Store, a: seq<Payload>, b: seq<Payload>, u: Store)
    requires Lockstep(s, a + b, u) && AllWrites(a)
    ensures Lockstep(Replay(env, s, a), b, u)
    decreases a
  {
    hide Replay, IsWrite, NameOf;
    if a == [] {
      assert a + b == b;
      NothingReplays(env, s);
    } else {
      assert (a + b)[1..] == a[1..] + b && (a + b)[0] == a[0];
      assert AllWrites(a[1..]) by { assert forall i :: 0 <= i < |a[1..]| ==> a[1..][i] == a[i + 1]; }
      var t := Replay(env, s, [a[0]]);
      assert t == Replay(ENV0, s, [a[0]]);
      LockstepSplit(env, t, a[1..], b, u);
      assert AllWrites([a[0]]);
      ReplayAppend(env, s, [a[0]], a[1..]);
      assert a == [a[0]] + a[1..];
    }
  }

  lemma {:induction false} LockstepPrefix(s: Store, a: seq<Payload>, b: seq<Payload>, u: Store)
    requires Lockstep(s, a + b, u) && AllWrites(a)
    ensures Lockstep(s, a, Replay(ENV0, s, a))
    decreases a
  {
    hide Replay, IsWrite, NameOf;
    if a == [] {
      NothingReplays(ENV0, s);
    } else {
      assert (a + b)[1..] == a[1..] + b && (a + b)[0] == a[0];
      assert AllWrites(a[1..]) by { assert forall i :: 0 <= i < |a[1..]| ==> a[1..][i] == a[i + 1]; }
      LockstepPrefix(Replay(ENV0, s, [a[0]]), a[1..], b, u);
      assert AllWrites([a[0]]);
      ReplayAppend(ENV0, s, [a[0]], a[1..]);
      assert a == [a[0]] + a[1..];
    }
  }

  /** In particular one replay of the whole list, under any clock, ends there. */
  lemma LockstepReplays(env: Env, s: Store, ps: seq<Payload>, t: Store)
    requires Lockstep(s, ps, t) && AllWrites(ps)
    ensures Replay(env, s, ps) == t
  {
    hide Replay, IsWrite, NameOf;
    assert ps + [] == ps;
    LockstepSplit(env, s, ps, [], t);
  }

  // ---- one dispatch --------------------------------------------------------------------------------

  /** e is d after some more commands, and replaying those commands on d's store gives e's store, whatever the
      clocks. */
  ghost predicate Faithful(d: Desk, e: Desk) {
    d.propagated <= e.propagated && Lockstep(d.store, e.propagated[|d.propagated|..], e.store)
  }

  lemma FaithfulBy(d: Desk, e: Desk, ps: seq<Payload>)
    requires e.propagated == d.propagated + ps && Lockstep(d.store, ps, e.store)
    ensures Faithful(d, e)
  {
    hide Lockstep;
  }

  lemma FaithfulTwice(d: Desk, e: Desk, f: Desk)
    requires Faithful(d, e) && Faithful(e, f)
    ensures Faithful(d, f)
  {
    hide Lockstep;
    var a, b := e.propagated[|d.propagated|..], f.propagated[|e.propagated|..];
    LockstepAppend(d.store, a, e.store, b, f.store);
    assert f.propagated[|d.propagated|..] == a + b;
  }

  lemma Unchanged(d: Desk, e: Desk)
    requires e.store == d.store && e.propagated == d.propagated
    ensures Faithful(d, e)
  {
    hide Replay;
  }

  /** A push that serves nobody, or whose handoff a replica reproduces; see the module Handoffs. */
  predicate PushLossless(d: Desk, name: string, args: seq<string>) {
    IsPush(name) && |args| >= 2 && !HoldsOther(d.store, args[0]) && QueueOf(d.queues, args[0]) != [] ==>
      Rebuilds(d.store, args[0]) && (name == "lpush" ==> AllAre(args[1..], ListAt(d.store, args[0])[0]))
  }

  predicate SimpleLossless(env: Env, d: Desk, name: string, args: seq<string>) {
    if IsWrite(name) then !NeedsClock(d.store, name, args) && PushLossless(d, name, args)
    else !ChangesUnseen(env, d.store, name, args)
  }

  /** A queued BLPOP answers at once. Otherwise EXEC would be suspended in the middle. */
  predicate AnswersAtOnce(d: Desk, args: seq<string>) {
    BlpopError(args) == None ==> PopAny(d, Keys(args)).1.Some?
  }

  predicate ItemLossless(env: Env, d: Desk, p: Payload) {
    var name, args := NameOf(p), ArgsOf(p);
    if KindOf(name) == Some(Simple) then
      if ExecPropagates(name) then !NeedsClock(d.store, name, args) && PushLossless(d, name, args)
      else !ChangesUnseen(env, d.store, name, args)
    else name == "blpop" ==> AnswersAtOnce(d, args)
  }

  predicate QueueLossless(env: Env, d: Desk, queue: seq<Payload>)
    decreases queue
  {
    queue == [] || (ItemLossless(env, d, queue[0]) && QueueLossless(env, ExecOne(env, d, queue[0]).desk, queue[1..]))
  }

  /** What a caller can check beforehand: the command needs no clock, a GET finds no expired key, a push does not
      hand an element over in a way the replica cannot reproduce, and an EXEC queue holds no effective LPOP and no
      BLPOP that blocks. A plain BLPOP, blocking or not, is always lossless. */
  predicate Lossless(env: Env, c: Conn, d: Desk, p: Payload) {
    var name, args := NameOf(p), ArgsOf(p);
    if c.inTransaction && !IsImmediate(name) then true
    else if name == "exec" then c.inTransaction && !c.transactionFailed ==> QueueLossless(env, d, c.queue)
    else KindOf(name) == Some(Simple) ==> SimpleLossless(env, d, name, args)
  }

  lemma LowerLPop(p: Payload)
    requires p != [] && p[0] == "LPOP"
    ensures NameOf(p) == "lpop"
  {
  }

  lemma PopReplays(env: Env, s: Store, key: string)
    ensures Replay(env, s, [["LPOP", key]]) == Commands.LPop(s, [key]).store
  {
    hide Dispatcher.Dispatch, Lower, Commands.LPop;
    LowerLPop(["LPOP", key]);
    ReplayOne(env, s, ["LPOP", key]);
    assert ArgsOf(["LPOP", key]) == [key];
  }

  /** One pop by the blocking manager is the LPOP it propagates. */
  lemma PopIsFaithful(d: Desk, key: string)
    requires Sane(d.store)
    ensures Faithful(d, PopAndPropagate(d, key).0)
  {
    hide Sane, Replay, UpdateStore, HoldsOther, Dispatcher.Dispatch, Lockstep;
    var e := PopAndPropagate(d, key).0;
    ListsAreSane(d.store, key);
    if ListAt(d.store, key) == [] {
      Unchanged(d, e);
    } else {
      var pop := [["LPOP", key]];
      forall env ensures Replay(env, d.store, pop) == e.store { PopReplays(env, d.store, key); PlainPop(d.store, key); }
      OneInLockstep(d.store, pop, e.store);
      FaithfulBy(d, e, pop);
    }
  }

  lemma PlainPop(s: Store, key: string)
    requires ListAt(s, key) != []
    ensures Commands.LPop(s, [key]).store == UpdateStore(s, key, ListAt(s, key)[1..]) == TryLPop(s, key).0
  {
    hide UpdateStore, Error, BulkReply, Resp.ToRESP;
  }

  lemma {:induction false} PopAnyIsFaithful(d: Desk, keys: seq<string>)
    requires Sane(d.store)
    ensures Faithful(d, PopAny(d, keys).0)
    decreases keys
  {
    hide Sane, Faithful, PopAndPropagate;
    if keys == [] {
      Unchanged(d, d);
    } else {
      PopKeepsSane(d, keys[0]);
      PopIsFaithful(d, keys[0]);
      var e := PopAndPropagate(d, keys[0]).0;
      if !Truthy(PopAndPropagate(d, keys[0]).1) {
        PopAnyIsFaithful(e, keys[1..]);
        FaithfulTwice(d, e, PopAny(e, keys[1..]).0);
      }
    }
  }

  lemma BlpopIsFaithful(env: Env, c: Conn, d: Desk, args: seq<string>)
    requires Sane(d.store)
    ensures Faithful(d, Blpop(env, c, d, args).desk)
  {
    hide Sane, BlpopError, PopAny, Enqueue, PairReply, Lockstep;
    Unchanged(d, d);
    if BlpopError(args) == None { PopAnyIsFaithful(d, Keys(args)); }
  }

  lemma PushIsExecuted(env: Env, s: Store, args: seq<string>)
    ensures Execute(env, s, "rpush", args) == Commands.RPush(s, args) && Execute(env, s, "lpush", args) == Commands.LPush(s, args)
  {
    hide Commands.RPush, Commands.LPush;
  }

  lemma PushSucceedsExactly(s: Store, args: seq<string>)
    ensures IsError(Commands.RPush(s, args).reply) <==> |args| < 2 || HoldsOther(s, args[0])
    ensures IsError(Commands.LPush(s, args).reply) <==> |args| < 2 || HoldsOther(s, args[0])
  {
    hide ListAt, StoreList, DecInt, Reverse;
  }

  /** A push that hands its head to a waiting client: LPOP first, the push second. */
  lemma HandoffReplays(env: Env, d: Desk, p: Payload)
    requires Sane(d.store) && NoneEmpty(p) && IsPush(NameOf(p)) && |ArgsOf(p)| >= 2
    requires !HoldsOther(d.store, ArgsOf(p)[0]) && QueueOf(d.queues, ArgsOf(p)[0]) != []
    requires PushLossless(d, NameOf(p), ArgsOf(p))
    ensures Faithful(d, Logged(RunSimple(env, d, NameOf(p), ArgsOf(p)).0, p))
  {
    hide Sane, Execute, PushAndServe, Commands.RPush, Commands.LPush, Commands.LPop, Rebuilds, AllAre, HoldsOther, Replay,
         NameOf, Lockstep, QueueOf;
    var name, args := NameOf(p), ArgsOf(p);
    var key, items := args[0], args[1..];
    assert args == [key] + items;
    ArgsAreParsed(p);
    if name == "rpush" { RPushHandoffReplaysExactly(d, key, items); } else { LPushHandoffReplaysExactly(d, key, items); }
    var popped := Commands.LPop(d.store, [key]).store;
    var e := RunSimple(env, d, name, args).0;
    PushIsExecuted(env, d.store, args);
    forall other ensures Replay(other, d.store, [["LPOP", key]]) == popped { PopReplays(other, d.store, key); }
    forall other ensures Replay(other, popped, [p]) == e.store {
      ReplayOne(other, popped, p);
      PushIsExecuted(other, popped, args);
    }
    OneInLockstep(d.store, [["LPOP", key]], popped);
    OneInLockstep(popped, [p], e.store);
    LockstepAppend(d.store, [["LPOP", key]], popped, [p], e.store);
    assert (d.propagated + [["LPOP", key]]) + [p] == d.propagated + ([["LPOP", key]] + [p]);
    FaithfulBy(d, Logged(e, p), [["LPOP", key]] + [p]);
  }

  /** A propagated write, plain or in EXEC, successful or not. */
  lemma WriteReplays(env: Env, d: Desk, p: Payload)
    requires Sane(d.store) && NoneEmpty(p) && IsWrite(NameOf(p))
    requires !NeedsClock(d.store, NameOf(p), ArgsOf(p)) && PushLossless(d, NameOf(p), ArgsOf(p))
    ensures Faithful(d, Logged(RunSimple(env, d, NameOf(p), ArgsOf(p)).0, p))
  {
    hide Sane, Execute, RunSimple, Commands.RPush, Commands.LPush, PushLossless, HoldsOther, Replay, NameOf, Lockstep, QueueOf, NeedsClock,
         IsWrite, NoneEmpty;
    var name, args := NameOf(p), ArgsOf(p);
    if IsPush(name) && |args| >= 2 && !HoldsOther(d.store, args[0]) && QueueOf(d.queues, args[0]) != [] {
      HandoffReplays(env, d, p);
    } else {
      if IsPush(name) && |args| >= 2 {
        PushIsExecuted(env, d.store, args);
        PushSucceedsExactly(d.store, args);
      }
      NobodyWaits(env, d, name, args);
      var e := RunSimple(env, d, name, args).0;
      forall other ensures Replay(other, d.store, [p]) == e.store {
        SameUnderEveryClock(env, other, d.store, name, args);
        ReplayOne(other, d.store, p);
      }
      OneInLockstep(d.store, [p], e.store);
      FaithfulBy(d, Logged(e, p), [p]);
    }
  }

  lemma SilentRepliesChangeNothing(env: Env, s: Store, name: string, args: seq<string>)
    requires Execute(env, s, name, args).reply == "" && IsWrite(name)
    ensures Execute(env, s, name, args).store == s
  {
    hide ParseOptions, StreamIds.IsStreamId, StreamIds.GenerateEntryId, ParseInt, DecInt, DeleteAll, Reverse, ListAt, IsWrite;
    SetNames(name);
  }

  lemma PushesAreNotSilent(env: Env, s: Store, name: string, args: seq<string>)
    requires IsPush(name)
    ensures Execute(env, s, name, args).reply != ""
  {
    hide ListAt, StoreList, DecInt, Reverse;
  }

  lemma SimpleReplays(env: Env, c: Conn, d: Desk, p: Payload)
    requires Sane(d.store) && NoneEmpty(p)
    requires KindOf(NameOf(p)) == Some(Simple) && !c.inTransaction && SimpleLossless(env, d, NameOf(p), ArgsOf(p))
    ensures Faithful(d, Serve(env, c, d, p).desk)
  {
    hide Sane, Execute, NeedsClock, PushLossless, ChangesUnseen, KindOf, Lower, NameOf, ArgsOf, RunSimple, Faithful, IsWrite, NoneEmpty;
    var name, args := NameOf(p), ArgsOf(p);
    var o := Execute(env, d.store, name, args);
    var (e, reply) := RunSimple(env, d, name, args);
    RunReplies(env, d, name, args);
    if Propagates(c, name, reply) {
      WriteReplays(env, d, p);
    } else {
      if IsWrite(name) {
        if IsPush(name) { PushesAreNotSilent(env, d.store, name, args); }
        if o.reply == "" { SilentRepliesChangeNothing(env, d.store, name, args); } else { ErrorsChangeNothing(env, d.store, name, args); }
      } else {
        PushesAreWrites(name);
        UnseenExactly(env, d.store, name, args);
      }
      NobodyWaits(env, d, name, args);
      Unchanged(d, e);
    }
  }

  lemma RunReplies(env: Env, d: Desk, name: string, args: seq<string>)
    ensures RunSimple(env, d, name, args).1 == Execute(env, d.store, name, args).reply
  {
    hide Execute, PushAndServe, Taken;
  }

  lemma PushesAreWrites(name: string)
    ensures IsPush(name) ==> ExecPropagates(name)
    ensures ExecPropagates(name) ==> IsWrite(name)
  {
  }

  lemma ItemReplays(env: Env, d: Desk, p: Payload)
    requires Sane(d.store) && NoneEmpty(p) && ItemLossless(env, d, p)
    ensures Faithful(d, ExecOne(env, d, p).desk)
  {
    hide Sane, Execute, NeedsClock, PushLossless, ChangesUnseen, NameOf, ArgsOf, RunSimple, Faithful, ItemsOf, Original, BlpopError, PopAny,
         PairReply, NoneEmpty;
    var name, args := NameOf(p), ArgsOf(p);
    Unchanged(d, d);
    if KindOf(name) == Some(Simple) {
      if ExecPropagates(name) {
        WriteReplays(env, d, p);
      } else {
        PushesAreWrites(name);
        UnseenExactly(env, d.store, name, args);
        NobodyWaits(env, d, name, args);
        Unchanged(d, RunSimple(env, d, name, args).0);
      }
    } else if name == "blpop" && BlpopError(args) == None {
      PopAnyIsFaithful(d, Keys(args));
    }
  }

  lemma {:induction false} QueueReplays(env: Env, d: Desk, queue: seq<Payload>)
    requires Sane(d.store) && AllParsed(queue) && QueueLossless(env, d, queue)
    ensures Faithful(d, ExecQueue(env, d, queue).desk)
    decreases queue
  {
    hide Sane, ExecOne, ItemLossless, Faithful, NoneEmpty;
    if queue == [] {
      Unchanged(d, d);
    } else {
      var first := ExecOne(env, d, queue[0]).desk;
      ItemReplays(env, d, queue[0]);
      ExecOneKeepsSane(env, d, queue[0]);
      QueueReplays(env, first, queue[1..]);
      FaithfulTwice(d, first, ExecQueue(env, first, queue[1..]).desk);
    }
  }

  /** A lossless dispatch: replaying what was propagated gives the same store, whatever the clocks. */
  lemma DispatchReplays(env: Env, c: Conn, d: Desk, p: Payload)
    requires Sane(d.store) && NoneEmpty(p) && AllParsed(c.queue) && Lossless(env, c, d, p)
    ensures Faithful(d, Dispatch(env, c, d, p).desk)
  {
    hide Sane, Serve, NameOf, IsImmediate, KindOf, Refusal, IsAck, AllowedWhenSubscribed, QUEUED, Lossless, Faithful, NoneEmpty, AllParsed;
    Unchanged(d, d);
    if c.inTransaction ==> IsImmediate(NameOf(p)) { ServeReplays(env, c, d, p); }
  }

  lemma ServeReplays(env: Env, c: Conn, d: Desk, p: Payload)
    requires Sane(d.store) && NoneEmpty(p) && AllParsed(c.queue) && Lossless(env, c, d, p)
    requires c.inTransaction ==> IsImmediate(NameOf(p))
    ensures Faithful(d, Serve(env, c, d, p).desk)
  {
    hide Sane, RunSimple, NameOf, ArgsOf, ExecQueue, QueueLossless, Blpop, SimpleLossless, FormatItems, Error, ArgumentError, Faithful, Ping,
         Subscriptions, NoneEmpty, AllParsed, WaitCommand;
    var name, args := NameOf(p), ArgsOf(p);
    Unchanged(d, d);
    WaitTouchesNothing(c, d, args);
    if name == "exec" {
      if c.inTransaction && !c.transactionFailed { QueueReplays(env, d, c.queue); }
    } else if name == "blpop" {
      BlpopIsFaithful(env, c, d, args);
    } else if KindOf(name) == Some(Simple) && !c.inTransaction {
      SimpleReplays(env, c, d, p);
    }
  }

  lemma WaitTouchesNothing(c: Conn, d: Desk, args: seq<string>)
    ensures WaitCommand(c, d, args).desk == d && WaitCommand(c, d, args).conn == c
  {
  }

  lemma NothingReplays(env: Env, s: Store)
    ensures Replay(env, s, []) == s && AllWrites([])
  {
  }

  // ---- what is propagated, lossless or not -----------------------------------------------------------

  ghost predicate AllPlainPayloads(ps: seq<Payload>) { forall i :: 0 <= i < |ps| ==> Resp.AllPlain(ps[i]) }

  /** Everything in the log is one of the write commands, with items the replica can parse back. */
  ghost predicate LogOk(d: Desk) { AllWrites(d.propagated) && AllPlainPayloads(d.propagated) }

  lemma LogGrows(d: Desk, p: Payload)
    requires LogOk(d) && IsWrite(NameOf(p)) && Resp.AllPlain(p)
    ensures LogOk(Logged(d, p))
  {
    hide IsWrite, NameOf, Resp.AllPlain;
  }

  lemma PopKeepsLog(d: Desk, key: string)
    requires LogOk(d) && Resp.Plain(key)
    ensures LogOk(PopAndPropagate(d, key).0)
  {
    hide TryLPop, LogOk, Lower;
    var e := PopAndPropagate(d, key).0;
    assert Resp.Plain("LPOP");
    LowerLPop(["LPOP", key]);
    LogGrows(d, ["LPOP", key]);
    assert LogOk(e) by { SameLog(e, d); SameLog(e, Logged(d, ["LPOP", key])); }
  }

  lemma SameLog(d: Desk, e: Desk)
    ensures LogOk(e) && d.propagated == e.propagated ==> LogOk(d)
  {
    hide AllWrites, AllPlainPayloads;
  }

  lemma {:induction false} PopAnyKeepsLog(d: Desk, keys: seq<string>)
    requires LogOk(d) && Resp.AllPlain(keys)
    ensures LogOk(PopAny(d, keys).0)
    decreases keys
  {
    hide LogOk, PopAndPropagate, Resp.Plain;
    if keys != [] {
      PopKeepsLog(d, keys[0]);
      PopAnyKeepsLog(PopAndPropagate(d, keys[0]).0, keys[1..]);
    }
  }

  lemma NotifyKeepsLog(d: Desk, key: string)
    requires LogOk(d) && Resp.Plain(key)
    ensures LogOk(Notify(d, key))
  {
    hide LogOk, PopAndPropagate, Resp.Plain, Blocking.RemoveWaiter;
    var queue := QueueOf(d.queues, key);
    if queue != [] {
      var shifted := d.(queues := d.queues[key := queue[1..]]);
      SameLog(shifted, d);
      PopKeepsLog(shifted, key);
      SameLog(Notify(d, key), PopAndPropagate(shifted, key).0);
    }
  }

  lemma RunSimpleKeepsLog(env: Env, d: Desk, name: string, args: seq<string>)
    requires LogOk(d) && Resp.AllPlain(args)
    ensures LogOk(RunSimple(env, d, name, args).0)
  {
    hide LogOk, Execute, Notify, Resp.Plain, Taken, Tagged;
    var o := Execute(env, d.store, name, args);
    SameLog(d.(store := o.store), d);
    if |args| >= 2 {
      var stored := d.(store := o.store, pushed := d.pushed + Tagged(args[0], args[1..]));
      SameLog(stored, d);
      NotifyKeepsLog(stored, args[0]);
    }
    if |args| >= 1 { SameLog(RunSimple(env, d, "lpop", args).0, d); }
  }

  lemma KeysArePlain(args: seq<string>)
    requires Resp.AllPlain(args) && BlpopError(args) == None
    ensures Resp.AllPlain(Keys(args))
  {
    hide Resp.Plain;
  }

  lemma ItemKeepsLog(env: Env, d: Desk, p: Payload)
    requires LogOk(d) && Resp.AllPlain(p)
    ensures LogOk(ExecOne(env, d, p).desk)
  {
    hide LogOk, RunSimple, NameOf, ItemsOf, Resp.Plain, KindOf, Original, PopAny, BlpopError, PairReply;
    var name, args := NameOf(p), ArgsOf(p);
    RunSimpleKeepsLog(env, d, name, args);
    if ExecPropagates(name) { LogGrows(RunSimple(env, d, name, args).0, p); }
    if BlpopError(args) == None {
      KeysArePlain(args);
      PopAnyKeepsLog(d, Keys(args));
    }
  }

  lemma {:induction false} QueueKeepsLog(env: Env, d: Desk, queue: seq<Payload>)
    requires LogOk(d) && AllPlainPayloads(queue)
    ensures LogOk(ExecQueue(env, d, queue).desk)
    decreases queue
  {
    hide LogOk, ExecOne, Resp.AllPlain;
    if queue != [] {
      ItemKeepsLog(env, d, queue[0]);
      QueueKeepsLog(env, ExecOne(env, d, queue[0]).desk, queue[1..]);
    }
  }

  lemma ServeKeepsLog(env: Env, c: Conn, d: Desk, p: Payload)
    requires LogOk(d) && Resp.AllPlain(p) && AllPlainPayloads(c.queue)
    ensures var r := Serve(env, c, d, p); LogOk(r.desk) && AllPlainPayloads(r.conn.queue)
  {
    hide LogOk, RunSimple, NameOf, ExecQueue, PopAny, Enqueue, BlpopError, PairReply, FormatItems, Error, ArgumentError, Ping, KindOf,
         Resp.Plain, Subscriptions, IsWrite, WaitCommand;
    var name, args := NameOf(p), ArgsOf(p);
    RunSimpleKeepsLog(env, d, name, args);
    if IsWrite(name) { LogGrows(RunSimple(env, d, name, args).0, p); }
    QueueKeepsLog(env, d, c.queue);
    if BlpopError(args) == None {
      KeysArePlain(args);
      PopAnyKeepsLog(d, Keys(args));
      SameLog(Block(d, Keys(args), env.connection).0, PopAny(d, Keys(args)).0);
    }
    SubscriptionsKeepQueue(c, name, args);
    WaitTouchesNothing(c, d, args);
  }

  lemma SubscriptionsKeepQueue(c: Conn, name: string, args: seq<string>)
    ensures Subscriptions(c, name, args).queue == c.queue
  {
  }

  /** Every propagated command is one of the write commands, with items the replica can parse back. */
  lemma DispatchPropagates(env: Env, c: Conn, d: Desk, p: Payload)
    requires LogOk(d) && Resp.AllPlain(p) && AllPlainPayloads(c.queue)
    ensures var r := Dispatch(env, c, d, p); LogOk(r.desk) && AllPlainPayloads(r.conn.queue)
  {
    hide Serve, LogOk, NameOf, IsImmediate, KindOf, Refusal, IsAck, AllowedWhenSubscribed, QUEUED, Resp.AllPlain;
    ServeKeepsLog(env, c, d, p);
  }
}
