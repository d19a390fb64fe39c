/** A pop that is propagated before commands that ran earlier: harmless when they write other keys. */
module Overtaking {
  import opened Text
  import opened Store
  import opened Commands
  import opened Dispatcher
  import opened Handoffs
  import opened Propagation
  import StreamIds
  import Resp

  /** The keys a write command can change. */
  function WrittenKeys(p: Payload): seq<string> {
    var name, args := NameOf(p), ArgsOf(p);
    if name == "del" then args else if name == "publish" || args == [] then [] else args[..1]
  }

  /** The pop is on a key that none of these commands writes. */
  predicate Apart(pop: Payload, ps: seq<Payload>) {
    |pop| == 2 && pop[0] == "LPOP" && forall i :: 0 <= i < |ps| ==> pop[1] !in WrittenKeys(ps[i])
  }

  // ---- what a command does to its key depends on that key alone -----------------------------------------------

  datatype Change = Keep | Put(v: StoreValue) | Remove

  function Changed(s: Store, key: string, c: Change): Store {
    match c
    case Keep => s
    case Put(v) => s.Set(key, v)
    case Remove => s.Delete(key)
  }

  lemma SetIsLocal(now: nat, s: Store, t: Store, args: seq<string>) returns (c: Change)
    requires |args| >= 1 && s.Get(args[0]) == t.Get(args[0])
    ensures Commands.Set(now, s, args).store == Changed(s, args[0], c) && Commands.Set(now, t, args).store == Changed(t, args[0], c)
  {
    hide ParseOptions, ExpiryOf, Error;
    c := Keep;
    if |args| >= 2 && ParseOptions(args[2..], NO_OPTIONS).Some? {
      var o, existing := ParseOptions(args[2..], NO_OPTIONS).value, s.Get(args[0]);
      if ModeAllows(o.mode, existing.Some?) {
        c := Put(StoreValue(Str(args[1]), if o.keepTtl && existing.Some? then existing.value.expiration else ExpiryOf(o.time, now)));
      }
    }
  }

  lemma IncrIsLocal(s: Store, t: Store, args: seq<string>) returns (c: Change)
    requires |args| >= 1 && s.Get(args[0]) == t.Get(args[0])
    ensures Incr(s, args).store == Changed(s, args[0], c) && Incr(t, args).store == Changed(t, args[0], c)
  {
    hide ParseInt, DecInt, Error;
    c := Keep;
    if |args| == 1 {
      match s.Get(args[0])
      case None => c := Put(StoreValue(Str("1"), Never));
      case Some(v) =>
        if v.value.Str? && ParseInt(v.value.text) != None {
          c := Put(StoreValue(Str(DecInt(ParseInt(v.value.text).value + 1)), v.expiration));
        }
    }
  }

  lemma ExpireIsLocal(now: nat, s: Store, t: Store, args: seq<string>) returns (c: Change)
    requires |args| >= 1 && s.Get(args[0]) == t.Get(args[0])
    ensures Expire(now, s, args).store == Changed(s, args[0], c) && Expire(now, t, args).store == Changed(t, args[0], c)
  {
    hide ParseInt, ExpirationDate, Error;
    c := Keep;
    if |args| == 2 && s.Get(args[0]).Some? && ParseInt(args[1]).Some? {
      var v := s.values[args[0]];
      c := Put(v.(expiration := ExpirationDate(Some(ParseInt(args[1]).value * 1000), now)));
    }
  }

  lemma SameList(s: Store, t: Store, key: string)
    requires s.Get(key) == t.Get(key)
    ensures ListAt(s, key) == ListAt(t, key) && HoldsOther(s, key) == HoldsOther(t, key) && ExpirationAt(s, key) == ExpirationAt(t, key)
    ensures EntriesAt(s, key) == EntriesAt(t, key) && (key in s.values <==> key in t.values)
    ensures key in s.values && key in t.values ==> s.values[key] == t.values[key]
  {
  }

  lemma PushesAreLocal(s: Store, t: Store, args: seq<string>) returns (c: Change, d: Change)
    requires |args| >= 1 && s.Get(args[0]) == t.Get(args[0])
    ensures Commands.RPush(s, args).store == Changed(s, args[0], c) && Commands.RPush(t, args).store == Changed(t, args[0], c)
    ensures Commands.LPush(s, args).store == Changed(s, args[0], d) && Commands.LPush(t, args).store == Changed(t, args[0], d)
  {
    hide DecInt, Error, ListAt, HoldsOther, ExpirationAt, Reverse;
    SameList(s, t, args[0]);
    c, d := Keep, Keep;
    if |args| >= 2 && !HoldsOther(s, args[0]) {
      var list, expiry := ListAt(s, args[0]), ExpirationAt(s, args[0]);
      c := Put(StoreValue(List(list + args[1..]), expiry));
      d := Put(StoreValue(List(Reverse(args[1..]) + list), expiry));
    }
  }

  lemma LPopIsLocal(s: Store, t: Store, args: seq<string>) returns (c: Change)
    requires |args| >= 1 && s.Get(args[0]) == t.Get(args[0])
    ensures Commands.LPop(s, args).store == Changed(s, args[0], c) && Commands.LPop(t, args).store == Changed(t, args[0], c)
  {
    hide ParseInt, Error, ListAt, HoldsOther, ExpirationAt, Resp.ToRESP, BulkReply;
    SameList(s, t, args[0]);
    c := Keep;
    var key, items := args[0], ListAt(s, args[0]);
    var counted := |args| == 2 && args[1] != "";
    var count := if counted then ParseInt(args[1]) else Some(1);
    if |args| <= 2 && count != None && count.value >= 0 && !HoldsOther(s, key) && items != [] {
      var left := items[if count.value <= |items| then count.value else |items|..];
      c := if left == [] then Remove else Put(StoreValue(List(left), ExpirationAt(s, key)));
    }
  }

  lemma XAddIsLocal(now: nat, s: Store, t: Store, args: seq<string>) returns (c: Change)
    requires |args| >= 1 && s.Get(args[0]) == t.Get(args[0])
    ensures XAdd(now, s, args).store == Changed(s, args[0], c) && XAdd(now, t, args).store == Changed(t, args[0], c)
  {
    hide Error, BulkReply, EntriesAt, ExpirationAt, StreamIds.IsStreamId, StreamIds.GenerateEntryId;
    SameList(s, t, args[0]);
    c := Keep;
    if |args| >= 4 && args[1] != "0-0" && StreamIds.IsStreamId(args[1]) && (args[0] in s.values ==> s.values[args[0]].value.Stream?) {
      var entries := EntriesAt(s, args[0]);
      var id := StreamIds.GenerateEntryId(args[1], TopId(entries), now);
      if id.Some? { c := Put(StoreValue(Stream(entries + [Entry(id.value, args[2..])]), ExpirationAt(s, args[0]))); }
    }
  }

  lemma WritesAreLocal(env: Env, s: Store, t: Store, name: string, args: seq<string>) returns (c: Change)
    requires IsWrite(name) && name != "del" && name != "publish" && |args| >= 1 && s.Get(args[0]) == t.Get(args[0])
    ensures Execute(env, s, name, args).store == Changed(s, args[0], c) && Execute(env, t, name, args).store == Changed(t, args[0], c)
  {
    hide Commands.Set, Incr, Expire, Commands.RPush, Commands.LPush, Commands.LPop, XAdd, Changed;
    if name == "set" { c := SetIsLocal(env.now, s, t, args); }
    else if name == "incr" { c := IncrIsLocal(s, t, args); }
    else if name == "expire" { c := ExpireIsLocal(env.now, s, t, args); }
    else if name == "xadd" { c := XAddIsLocal(env.now, s, t, args); }
    else if name == "lpop" { c := LPopIsLocal(s, t, args); }
    else {
      var d, e := PushesAreLocal(s, t, args);
      c := if name == "rpush" then d else e;
    }
  }

  // ---- pops commute with what happens elsewhere -----------------------------------------------------------------

  function Popped(s: Store, key: string): Store { TryLPop(s, key).0 }

  lemma WithoutHead(x: string, keys: seq<string>, key: string)
    ensures Without([x] + keys, key) == if x == key then Without(keys, key) else [x] + Without(keys, key)
  {
    assert ([x] + keys)[1..] == keys;
  }

  lemma {:induction false} WithoutTwice(keys: seq<string>, a: string, b: string)
    ensures Without(Without(keys, a), b) == Without(Without(keys, b), a)
    decreases keys
  {
    hide Without;
    if keys == [] {
      NothingWithout(a);
      NothingWithout(b);
    } else {
      var x, rest := keys[0], keys[1..];
      assert keys == [x] + rest;
      WithoutTwice(rest, a, b);
      WithoutHead(x, rest, a);
      WithoutHead(x, rest, b);
      WithoutHead(x, Without(rest, a), b);
      WithoutHead(x, Without(rest, b), a);
    }
  }

  lemma NothingWithout(key: string)
    ensures Without([], key) == []
  {
  }

  lemma DeleteCommutes(s: Store, key: string, other: string)
    ensures s.Delete(key).Delete(other) == s.Delete(other).Delete(key)
  {
    WithoutTwice(s.order, key, other);
    assert s.Delete(key).Delete(other).values == s.Delete(other).Delete(key).values;
  }

  lemma SetInPlaceThenDelete(s: Store, key: string, v: StoreValue, other: string)
    requires key != other && key in s.values
    ensures s.Set(key, v).Delete(other) == s.Delete(other).Set(key, v)
  {
    assert s.Set(key, v).Delete(other).values == s.Delete(other).Set(key, v).values;
  }

  lemma ChangesCommute(s: Store, key: string, c: Change, other: string)
    requires key != other
    ensures Popped(Changed(s, key, c), other) == Changed(Popped(s, other), key, c)
    ensures Popped(s, other).Get(key) == s.Get(key)
  {
    hide Without;
    var items := ListAt(s, other);
    SameList(Changed(s, key, c), s, other);
    if items != [] {
      var w := StoreValue(List(items[1..]), ExpirationAt(s, other));
      match c
      case Keep =>
      case Put(v) =>
        SetThenDelete(s, key, v, other);
        SetTwoKeys(s, key, v, other, w);
      case Remove =>
        DeleteCommutes(s, key, other);
        SetInPlaceThenDelete(s, other, w, key);
    }
  }

  lemma {:induction false} DeletionsCommute(s: Store, keys: seq<string>, other: string)
    requires other !in keys
    ensures Popped(DeleteAll(s, keys).0, other) == DeleteAll(Popped(s, other), keys).0
    decreases keys
  {
    hide Popped;
    if keys != [] {
      ChangesCommute(s, keys[0], Remove, other);
      DeletionsCommute(s.Delete(keys[0]), keys[1..], other);
    }
  }

  lemma EmptyWritesDoNothing(env: Env, s: Store, name: string)
    requires IsWrite(name)
    ensures Execute(env, s, name, []).store == s
  {
  }

  /** A write and a pop of a key it does not write. */
  lemma WriteCommutes(env: Env, s: Store, p: Payload, other: string)
    requires IsWrite(NameOf(p)) && other !in WrittenKeys(p)
    ensures Execute(env, Popped(s, other), NameOf(p), ArgsOf(p)).store == Popped(Execute(env, s, NameOf(p), ArgsOf(p)).store, other)
  {
    hide Popped, Commands.Set, Incr, Expire, Commands.RPush, Commands.LPush, Commands.LPop, XAdd, NameOf, ArgsOf, DeleteAll, Changed;
    var name, args := NameOf(p), ArgsOf(p);
    if name == "del" {
      DeletionsCommute(s, args, other);
    } else if args == [] {
      EmptyWritesDoNothing(env, s, name);
      EmptyWritesDoNothing(env, Popped(s, other), name);
    } else if name != "publish" {
      assert args[0] in args[..1];
      ChangesCommute(s, args[0], Keep, other);
      var c := WritesAreLocal(env, s, Popped(s, other), name, args);
      ChangesCommute(s, args[0], c, other);
    }
  }

  // ---- replaying ------------------------------------------------------------------------------------------------

  lemma {:induction false} PopMovesAhead(s: Store, ps: seq<Payload>, t: Store, other: string)
    requires Lockstep(s, ps, t) && AllWrites(ps) && forall i :: 0 <= i < |ps| ==> other !in WrittenKeys(ps[i])
    ensures Lockstep(Popped(s, other), ps, Popped(t, other))
    decreases ps
  {
    hide Replay, Execute, IsWrite, NameOf, ArgsOf, Popped, WrittenKeys;
    if ps != [] {
      var p, u := ps[0], Replay(ENV0, s, [ps[0]]);
      forall env ensures Replay(env, Popped(s, other), [p]) == Popped(u, other) {
        ReplayOne(env, s, p);
        ReplayOne(env, Popped(s, other), p);
        WriteCommutes(env, s, p, other);
        assert Replay(env, s, [p]) == u;
      }
      assert forall i :: 0 <= i < |ps[1..]| ==> ps[1..][i] == ps[i + 1];
      PopMovesAhead(u, ps[1..], t, other);
    }
  }

  lemma PopIsPopped(env: Env, s: Store, key: string)
    ensures Replay(env, s, [["LPOP", key]]) == Popped(s, key)
  {
    hide Replay, UpdateStore, Error, BulkReply, Resp.ToRESP;
    PopReplays(env, s, key);
  }

  /** A pop that overtakes pending commands on other keys: the replica ends where the master does, whatever the clocks. */
  lemma OvertakingIsFaithful(s: Store, pending: seq<Payload>, t: Store, pop: Payload, later: seq<Payload>, u: Store)
    requires Lockstep(s, pending, t) && AllWrites(pending) && Lockstep(t, [pop] + later, u) && Apart(pop, pending)
    ensures Lockstep(s, [pop] + (pending + later), u)
  {
    hide Replay, Lockstep, IsWrite, NameOf, Popped, WrittenKeys;
    var key := pop[1];
    assert pop == ["LPOP", key];
    forall env ensures Replay(env, s, [pop]) == Popped(s, key) { PopIsPopped(env, s, key); }
    OneInLockstep(s, [pop], Popped(s, key));
    PopMovesAhead(s, pending, t, key);
    PopIsPopped(ENV0, t, key);
    assert AllWrites([pop]) by { LowerLPop(pop); LPopIsWrite(); }
    LockstepSplit(ENV0, t, [pop], later, u);
    LockstepAppend(Popped(s, key), pending, Popped(t, key), later, u);
    LockstepAppend(s, [pop], Popped(s, key), pending + later, u);
  }

  lemma LPopIsWrite()
    ensures IsWrite("lpop")
  {
  }

  /** What goes out now does not get into the way of what is pending. */
  predicate InTurn(now: seq<Payload>, pending: seq<Payload>) {
    now == [] || pending == [] || (|now| == 1 && Apart(now[0], pending))
  }

  /** A replica from which some commands and the pending ones lead to the master's store: after a command that writes
      `now` at once and leaves `later` pending, it still leads there. */
  lemma InTurnIsFaithful(s: Store, unseen: seq<Payload>, pending: seq<Payload>, t: Store, now: seq<Payload>,
                         later: seq<Payload>, u: Store)
    requires Lockstep(s, unseen + pending, t) && AllWrites(unseen) && AllWrites(pending)
    requires Lockstep(t, now + later, u) && InTurn(now, pending)
    ensures Lockstep(s, unseen + (now + (pending + later)), u)
  {
    hide Replay, Lockstep, IsWrite, NameOf, Apart;
    if now == [] || pending == [] {
      LockstepAppend(s, unseen + pending, t, now + later, u);
      assert (unseen + pending) + (now + later) == unseen + (now + (pending + later));
    } else {
      LockstepPrefix(s, unseen, pending, t);
      LockstepSplit(ENV0, s, unseen, pending, t);
      var seen := Replay(ENV0, s, unseen);
      assert now == [now[0]];
      OvertakingIsFaithful(seen, pending, t, now[0], later, u);
      LockstepAppend(s, unseen, seen, now + (pending + later), u);
    }
  }
}
