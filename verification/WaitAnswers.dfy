/** Every WAIT is answered once, and its answer stays; what is answered at once counts everybody who has sent PSYNC. */
module WaitAnswers {
  import opened Text
  import opened Resp
  import opened Commands
  import opened Dispatcher
  import opened WaitListeners
  import opened ReplicaLink
  import opened Replication
  import opened Scripts
  import opened Overtaking
  import opened WireLaws
  import Blocking

  // ---- serial numbers -------------------------------------------------------------------------------------------------

  function Serials(ws: seq<Wait>): multiset<nat> {
    if ws == [] then multiset{} else multiset{ws[0].serial} + Serials(ws[1..])
  }

  /** 0, 1, ... n - 1. */
  function UpTo(n: nat): multiset<nat> { if n == 0 then multiset{} else UpTo(n - 1) + multiset{n - 1} }

  lemma {:induction false} UpToHoldsOnce(n: nat, k: nat)
    ensures UpTo(n)[k] == if k < n then 1 else 0
  {
    if n > 0 { UpToHoldsOnce(n - 1, k); }
  }

  lemma {:induction false} SerialsAppend(a: seq<Wait>, b: seq<Wait>)
    ensures Serials(a + b) == Serials(a) + Serials(b)
    decreases a
  {
    if a == [] {
      assert a + b == b;
    } else {
      assert (a + b)[1..] == a[1..] + b;
      SerialsAppend(a[1..], b);
    }
  }

  lemma {:induction false} SameSerials(a: seq<Wait>, b: seq<Wait>)
    requires |a| == |b| && forall i :: 0 <= i < |a| ==> a[i].serial == b[i].serial
    ensures Serials(a) == Serials(b)
    decreases a
  {
    if a != [] {
      assert forall i :: 0 <= i < |a[1..]| ==> a[1..][i] == a[i + 1] && b[1..][i] == b[i + 1];
      SameSerials(a[1..], b[1..]);
    }
  }

  lemma OneSerial(x: Wait)
    ensures Serials([x]) == multiset{x.serial}
  {
    assert [x][1..] == [];
  }

  lemma {:induction false} VotesMoveSerials(waits: seq<Wait>, who: Option<nat>, ack: Option<int>)
    ensures var still, now := StillWaiting(waits, who, ack), NowResolved(waits, who, ack);
            Serials(still) + Serials(now) == Serials(waits) && |still| + |now| == |waits|
    decreases waits
  {
    hide Resolves, Vote, Serials;
    if waits == [] {
      NoSerials();
    } else {
      VotesMoveSerials(waits[1..], who, ack);
      var x, still, now := Vote(waits[0], who, ack), StillWaiting(waits[1..], who, ack), NowResolved(waits[1..], who, ack);
      FirstSerial(waits[0], waits[1..]);
      VoteKeepsSerial(waits[0], who, ack);
      assert waits == [waits[0]] + waits[1..];
      if Resolves(waits[0].listener, ack) {
        FirstSerial(x, now);
        assert StillWaiting(waits, who, ack) == [] + still == still && NowResolved(waits, who, ack) == [x] + now;
      } else {
        FirstSerial(x, still);
        assert StillWaiting(waits, who, ack) == [x] + still && NowResolved(waits, who, ack) == [] + now == now;
      }
    }
  }

  lemma NoSerials()
    ensures Serials([]) == multiset{}
  {
  }

  lemma FirstSerial(x: Wait, ws: seq<Wait>)
    ensures Serials([x] + ws) == multiset{x.serial} + Serials(ws)
  {
    assert ([x] + ws)[1..] == ws;
  }

  lemma VoteKeepsSerial(x: Wait, who: Option<nat>, ack: Option<int>)
    ensures Vote(x, who, ack).serial == x.serial
  {
  }

  // ---- one step -------------------------------------------------------------------------------------------------------

  ghost predicate Numbered(s: System) { Serials(s.waits) + Serials(s.replies) == UpTo(|s.waits| + |s.replies|) }

  /** Running WAITs are numbered on, and answers are only added. */
  ghost predicate GoesOn(s: System, t: System) {
    (Numbered(s) ==> Numbered(t)) && s.replies <= t.replies && |s.waits| + |s.replies| <= |t.waits| + |t.replies|
  }

  lemma UntouchedGoesOn(s: System, t: System)
    requires t.waits == s.waits && t.replies == s.replies
    ensures GoesOn(s, t)
  {
    hide Serials, UpTo;
  }

  lemma VotesGoOn(s: System, who: Option<nat>, ack: Option<int>)
    ensures GoesOn(s, Votes(s, who, ack))
  {
    hide StillWaiting, NowResolved, Serials, UpTo;
    VotesMoveSerials(s.waits, who, ack);
    SerialsAppend(s.replies, NowResolved(s.waits, who, ack));
  }

  lemma AnsweredGoesOn(s: System, t: System, x: Wait)
    requires t.waits == s.waits && t.replies == s.replies + [x] && x.serial == |s.waits| + |s.replies|
    ensures GoesOn(s, t)
  {
    hide Serials;
    SerialsAppend(s.replies, [x]);
    OneSerial(x);
  }

  lemma AskedGoesOn(s: System, t: System, before: seq<Wait>, x: Wait)
    requires t.waits == before + [x] && t.replies == s.replies && x.serial == |s.waits| + |s.replies|
    requires |before| == |s.waits| && forall i :: 0 <= i < |before| ==> before[i].serial == s.waits[i].serial
    ensures GoesOn(s, t)
  {
    hide Serials;
    SerialsAppend(before, [x]);
    SameSerials(before, s.waits);
    OneSerial(x);
  }

  lemma WaitGoesOn(s: System, required: Option<int>)
    ensures GoesOn(s, WaitStep(s, required))
  {
    hide GoesOn, NoStaleAck, WriteAll, AttachedSet, ReplicaCount;
    var t := WaitStep(s, required);
    if ReplicaCount(s) == 0 || s.offset == 0 {
      AnsweredGoesOn(s, t, t.replies[|s.replies|]);
    } else {
      AskedGoesOn(s, t, Overlapped(s.waits), t.waits[|s.waits|]);
    }
  }

  lemma TimeoutGoesOn(s: System, k: nat)
    ensures GoesOn(s, TimeoutStep(s, k))
  {
    hide Serials, UpTo;
    if k < |s.waits| {
      var x := s.waits[k];
      assert s.waits == s.waits[..k] + ([x] + s.waits[k + 1..]);
      SerialsAppend(s.waits[..k], [x] + s.waits[k + 1..]);
      SerialsAppend([x], s.waits[k + 1..]);
      SerialsAppend(s.waits[..k], s.waits[k + 1..]);
      SerialsAppend(s.replies, [x]);
      var t := TimeoutStep(s, k);
      assert t.waits == s.waits[..k] + s.waits[k + 1..] && t.replies == s.replies + [x];
    }
  }

  lemma RunIsUntouched(s: System, e: Blocking.Desk, own: bool, lossless: bool)
    ensures var t := AfterRun(s, e, own, lossless); t.waits == s.waits && t.replies == s.replies && t.guests == s.guests
  {
    hide Split, InTurn, WriteAll, MarkIntact, Printed;
  }

  lemma NextGoesOn(w: World, s: System, step: Step)
    ensures GoesOn(s, Next(w, s, step))
  {
    hide GoesOn, AfterRun, Served, ReactionOf, Votes, WaitStep, TimeoutStep, Answer, Deliver, RunQueued, AwaitedBy, Propagate, Suspended,
         QueuedLossless, NextCommand, IsAck;
    match step
    case Client(id, env, bytes) =>
      UntouchedGoesOn(s, s);
      if NextCommand(bytes).Some? {
        var p := NextCommand(bytes).value.payload;
        ServedIsUntouched(s, id, env, p);
        ManageGoesOn(s, Served(s, id, env, p), ReactionOf(s, id, env, p).effect);
      }
    case ExecNext(k, env) => ExecIsUntouched(s, k, env); UntouchedGoesOn(s, ExecStep(s, k, env));
    case Flush => FlushIsUntouched(s); UntouchedGoesOn(s, FlushStep(s));
    case EndBlpop(waiter) => UntouchedGoesOn(s, Next(w, s, step));
    case Join(port, file, now) => UntouchedGoesOn(s, Next(w, s, step));
    case ReadFrom(i) => ReadGoesOn(w, s, i);
    case Arrive(i, k, env) => UntouchedGoesOn(s, ArriveStep(s, i, k, env));
    case EndWait(k) => TimeoutGoesOn(s, k);
  }

  lemma ServedIsUntouched(s: System, id: nat, env: Env, p: Payload)
    ensures var t := Served(s, id, env, p); t.waits == s.waits && t.replies == s.replies && t.guests == s.guests
  {
    hide AfterRun, ReactionOf, LosslessHere, PropagatesOwn, StartsScript;
    var r := ReactionOf(s, id, env, p);
    RunIsUntouched(s.(clients := s.clients[id := r.conn], running := s.running + Started(s, id, p)),
                   r.desk, PropagatesOwn(ConnOf(s, id), p, r.reply), LosslessHere(s, id, env, p));
  }

  lemma ManageGoesOn(s: System, t: System, e: Effect)
    requires t.waits == s.waits && t.replies == s.replies
    ensures GoesOn(s, Manage(t, e))
  {
    hide Votes, WaitStep, Serials, UpTo;
    match e
    case Nothing =>
    case Acked(ack) => VotesGoOn(t, None, ack);
    case Registers =>
    case Waits(required) => WaitGoesOn(t, required);
  }

  lemma ExecIsUntouched(s: System, k: nat, env: Env)
    ensures var t := ExecStep(s, k, env); t.waits == s.waits && t.replies == s.replies
  {
    hide AfterRun, RunQueued, AwaitedBy, QueuedLossless, ExecPropagates, Suspended;
    if k < |s.running| && !Suspended(s.desk, s.running[k]) && s.running[k].queue != [] {
      var x := s.running[k];
      var from, d, p := env.(connection := x.client), Cleared(s.desk), x.queue[0];
      RunIsUntouched(s.(running := s.running[k := Script(x.client, x.queue[1..], AwaitedBy(from, d, p))]), RunQueued(from, d, p),
                     ExecPropagates(NameOf(p)), QueuedLossless(from, d, p));
    }
  }

  lemma FlushIsUntouched(s: System)
    ensures FlushStep(s).waits == s.waits && FlushStep(s).replies == s.replies
  {
    hide WriteAll, Printed;
  }

  lemma ReadGoesOn(w: World, s: System, i: nat)
    ensures GoesOn(s, ReadStep(w, s, i))
  {
    hide Votes, Serials, UpTo, Answer, IsAck, Numbered;
    if i < |s.replicas| && s.replicas[i].read < |s.replicas[i].sent| {
      var r := s.replicas[i];
      var p := r.sent[r.read];
      var t := s.(replicas := s.replicas[i := Answer(w, s.desk.store, s.pending, s.offset, r)]);
      UntouchedGoesOn(s, t);
      if IsAck(p) { VotesGoOn(t, Some(i), AckValue(p)); }
    }
  }

  // ---- every run --------------------------------------------------------------------------------------------------------

  lemma {:induction false} ReachableIsNumbered(w: World, steps: seq<Step>)
    ensures Numbered(Reach(w, steps))
    decreases |steps|
  {
    hide Next, Numbered;
    if steps == [] {
      NothingIsNumbered(w);
    } else {
      ReachableIsNumbered(w, steps[..|steps| - 1]);
      NextGoesOn(w, Reach(w, steps[..|steps| - 1]), steps[|steps| - 1]);
    }
  }

  lemma NothingIsNumbered(w: World)
    ensures Numbered(Start(w))
  {
  }

  /** In every reachable state each WAIT started so far is either running or answered, and only once. */
  lemma EveryWaitIsAnsweredOnce(w: World, steps: seq<Step>, serial: nat)
    ensures var s := Reach(w, steps);
            Serials(s.waits)[serial] + Serials(s.replies)[serial] == if serial < |s.waits| + |s.replies| then 1 else 0
  {
    hide Reach, Serials, UpTo;
    ReachableIsNumbered(w, steps);
    var s := Reach(w, steps);
    UpToHoldsOnce(|s.waits| + |s.replies|, serial);
    assert (Serials(s.waits) + Serials(s.replies))[serial] == Serials(s.waits)[serial] + Serials(s.replies)[serial];
  }

  /** No answer is ever taken back or changed. */
  lemma {:induction false} AnswersStay(w: World, steps: seq<Step>, more: seq<Step>)
    ensures Reach(w, steps).replies <= Reach(w, steps + more).replies
    decreases |more|
  {
    hide Reach, Next, GoesOn;
    if more == [] {
      assert steps + more == steps;
    } else {
      var before := steps + more[..|more| - 1];
      AnswersStay(w, steps, more[..|more| - 1]);
      assert steps + more == before + [more[|more| - 1]];
      OneMoreStep(w, before, more[|more| - 1]);
    }
  }

  lemma OneMoreStep(w: World, steps: seq<Step>, step: Step)
    ensures Reach(w, steps).replies <= Reach(w, steps + [step]).replies
  {
    hide Next;
    assert (steps + [step])[..|steps|] == steps;
    NextGoesOn(w, Reach(w, steps), step);
  }

  // ---- what is answered at once -----------------------------------------------------------------------------------------

  lemma FreshIsServed(s: System, id: nat, env: Env, p: Payload)
    requires ConnOf(s, id) == FRESH
    ensures ReactionOf(s, id, env, p) == Dispatch(env.(connection := id), FRESH, Cleared(s.desk), p)
  {
    hide Dispatch;
  }

  /** PSYNC from a client makes it count as a replica. */
  lemma PsyncCounts(w: World, s: System, id: nat, env: Env, bytes: string, name: string, args: seq<string>)
    requires ConnOf(s, id) == FRESH && NextCommand(bytes).Some? && NextCommand(bytes).value.payload == [name] + args
    requires Lower(name) == "psync"
    ensures var t := Next(w, s, Client(id, env, bytes));
            t.guests == s.guests + 1 && t.waits == s.waits && t.replies == s.replies
  {
    hide Dispatch, NextCommand, Served, ReactionOf, Lower;
    var p := [name] + args;
    FreshIsServed(s, id, env, p);
    PsyncRegisters(env.(connection := id), Cleared(s.desk), name, args);
    ServedIsUntouched(s, id, env, p);
  }

  /** WAIT is answered at once if and only if nothing was written yet or nobody counts as a replica: with the number
      of all replicas that are registered and all clients that have sent PSYNC. Else it runs, with the offset of now
      and nobody counted. */
  lemma WaitAnswersAtOnceExactly(w: World, s: System, id: nat, env: Env, bytes: string, n: nat, timeout: string)
    requires ConnOf(s, id) == FRESH && NextCommand(bytes).Some? && NextCommand(bytes).value.payload == ["WAIT", Dec(n), timeout]
    ensures var t := Next(w, s, Client(id, env, bytes));
            var count := |set i: nat | 0 <= i < |s.replicas| && s.replicas[i].greeted == 5| + s.guests;
            if s.offset == 0 || count == 0 then
              t.waits == s.waits && |t.replies| == |s.replies| + 1 && t.replies[..|s.replies|] == s.replies
              && t.replies[|s.replies|].listener.count == count
            else
              t.replies == s.replies && |t.waits| == |s.waits| + 1
              && t.waits[|s.waits|].listener == Listener(s.offset, Some(n), 0)
  {
    hide Dispatch, NextCommand, Served, ReactionOf, Dec, NoStaleAck, WriteAll;
    var p := ["WAIT", Dec(n), timeout];
    FreshIsServed(s, id, env, p);
    WaitMeans(env.(connection := id), Cleared(s.desk), n, timeout, []);
    ServedIsUntouched(s, id, env, p);
    var u := Served(s, id, env, p);
    WritesNothing(s, id, env, p);
    assert (set i: nat | 0 <= i < |s.replicas| && s.replicas[i].greeted == 5) == AttachedSet(s.replicas);
  }

  lemma WritesNothing(s: System, id: nat, env: Env, p: Payload)
    requires ReactionOf(s, id, env, p).desk == Cleared(s.desk)
    ensures Served(s, id, env, p).offset == s.offset && AttachedSet(Served(s, id, env, p).replicas) == AttachedSet(s.replicas)
  {
    hide ReactionOf, LosslessHere, PropagatesOwn, StartsScript, InTurn;
    NothingPrinted();
  }

  lemma NothingPrinted()
    ensures Printed([]) == ""
  {
  }

  // ---- BLPOP that times out ----------------------------------------------------------------------------------------------

  /** A blocked BLPOP that times out is resolved with nothing; store, propagation and everybody else's keys stay. */
  lemma BlpopTimesOut(w: World, s: System, x: Blocking.Waiter)
    requires x in s.desk.live
    ensures var t := Next(w, s, EndBlpop(x));
            && t == s.(desk := t.desk) && x !in t.desk.live && t.desk.store == s.desk.store
            && t.desk.propagated == s.desk.propagated && t.desk.resolved == s.desk.resolved + [Blocking.Resolution(x, None)]
            && forall key :: key !in x.keys ==> Blocking.QueueOf(t.desk.queues, key) == Blocking.QueueOf(s.desk.queues, key)
  {
    OthersKeepTheirQueues(s.desk.queues, x.keys, x.connection);
  }

  lemma {:induction false} OthersKeepTheirQueues(queues: Blocking.Queues, keys: seq<string>, connection: int)
    ensures forall key :: key !in keys ==>
              Blocking.QueueOf(Blocking.RemoveWaiter(queues, keys, connection), key) == Blocking.QueueOf(queues, key)
    decreases keys
  {
    hide Blocking.RemoveFirst;
    if keys != [] {
      var rest := if keys[0] in queues then queues[keys[0] := Blocking.RemoveFirst(queues[keys[0]], connection)] else queues;
      OthersKeepTheirQueues(rest, keys[1..], connection);
      assert keys == [keys[0]] + keys[1..];
    }
  }
}
