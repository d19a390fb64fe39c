/** Progress: from every reachable state, delivering a replica's bytes and reading its messages is enough
    to complete its handshake and to bring it up to the master. */
module CatchingUp {
  import opened ReplicaStream
  import opened Messages
  import opened Store
  import opened Commands
  import opened Dispatcher
  import opened Propagation
  import opened ReplicaLink
  import opened Replication
  import Convergence

  // ---- one replica -----------------------------------------------------------------------------------------

  /** Once all its bytes have arrived, a replica has consumed every message written to it. */
  lemma DeliverAll(w: World, r: Replica)
    requires w.Valid() && Aligned(w, r)
    ensures var n := Deliver(r, |r.down|, ENV0);
            && Aligned(w, n) && n.consumed == n.greeted + |n.cmds|
            && n == r.(control := n.control, buf := n.buf, down := n.down, sent := n.sent, store := n.store, consumed := n.consumed)
            && (r.cmds == [] ==> n.store == r.store)
  {
    hide Wire, Wires, After, AllEffects, Pending, MessageAt, ControlAt, SentAt, Replay, Sends, Emitted, Drain, Terminates, AllSendable;
    var n := Deliver(r, |r.down|, ENV0);
    DeliverKeepsAligned(w, r, |r.down|, ENV0);
    DeliverDrains(w, r, |r.down|);
    NoWritesYet(ENV0, r.store);
    var ms := Pending(w, r.greeted, r.cmds, r.consumed);
    var d := Drain(r.control, r.buf + r.down[..|r.down|]);
    assert d.rest + r.down[|r.down|..] == d.rest;
    if d.turns < |ms| {
      FirstWireFits(ms[d.turns..]);
    }
    if r.cmds == [] {
      assert r.cmds[CommandsIn(r.consumed)..CommandsIn(n.consumed)] == [];
    }
  }

  lemma FirstWireFits(ms: seq<Message>)
    requires ms != []
    ensures |Wires(ms)| >= |Wire(ms[0])|
  {
  }

  /** With the greeting so far consumed, the replica's next request is there for the master to read, and the
      answer takes the greeting forward. */
  lemma AnswerGreets(w: World, s: Store, pending: seq<Payload>, offset: nat, r: Replica)
    requires Aligned(w, r) && !Attached(r) && r.consumed == r.greeted
    ensures r.read < |r.sent|
    ensures var n := Answer(w, s, pending, offset, r);
            && Aligned(w, n) && n.greeted > r.greeted && n.cmds == [] && n.store == r.store
            && (Attached(n) ==> (n.intact <==> Lockstep(r.store, pending, s)))
  {
    hide Wires, Pending, ControlAt, Answer, AllSendable;
    assert Acks([]) == [];
    assert r.cmds == [] && r.read == r.greeted <= 3;
    AnswerKeepsAligned(w, s, pending, offset, r);
  }

  // ---- the system ------------------------------------------------------------------------------------------

  function ArriveAll(s: System, i: nat): Step {
    Arrive(i, if i < |s.replicas| then |s.replicas[i].down| else 0, ENV0)
  }

  /** n rounds of delivering everything to replica i and reading one message of it, and a last delivery. */
  ghost function Rounds(w: World, steps: seq<Step>, i: nat, n: nat): seq<Step>
    decreases n
  {
    var delivered := steps + [ArriveAll(Reach(w, steps), i)];
    if n == 0 then delivered else Rounds(w, delivered + [ReadFrom(i)], i, n - 1)
  }

  lemma ReachNext(w: World, steps: seq<Step>, step: Step)
    ensures Reach(w, steps + [step]) == Replication.Next(w, Reach(w, steps), step)
  {
    assert (steps + [step])[..|steps|] == steps;
  }

  lemma AlignedReplica(w: World, steps: seq<Step>, i: nat)
    requires w.Valid() && i < |Reach(w, steps).replicas|
    ensures Aligned(w, Reach(w, steps).replicas[i])
  {
    hide Aligned, Linked, MasterOk, Reach;
    ReachableOk(w, steps);
    assert ReplicaOk(w, Reach(w, steps), Reach(w, steps).replicas[i]);
  }

  /** Nothing but replicas and WAITs has changed. */
  predicate SameMaster(s: System, t: System) {
    && t.desk == s.desk && t.offset == s.offset && t.pending == s.pending && t.running == s.running
    && t.clients == s.clients && t.guests == s.guests && |t.replicas| == |s.replicas|
  }

  /** What a delivery does to the system. */
  lemma Delivered(w: World, steps: seq<Step>, i: nat)
    requires w.Valid() && i < |Reach(w, steps).replicas|
    ensures var s, t := Reach(w, steps), Reach(w, steps + [ArriveAll(Reach(w, steps), i)]);
            && t == s.(replicas := s.replicas[i := Deliver(s.replicas[i], |s.replicas[i].down|, ENV0)])
            && Aligned(w, s.replicas[i])
  {
    hide Reach, Deliver, Aligned;
    ReachNext(w, steps, ArriveAll(Reach(w, steps), i));
    AlignedReplica(w, steps, i);
  }

  /** What reading does: the store and the offset stay, and the replica is answered if it has said something. */
  lemma WasRead(w: World, steps: seq<Step>, i: nat)
    requires w.Valid() && i < |Reach(w, steps).replicas|
    ensures var s, t := Reach(w, steps), Reach(w, steps + [ReadFrom(i)]);
            && SameMaster(s, t)
            && t.replicas[i] == (if s.replicas[i].read < |s.replicas[i].sent|
                                 then Answer(w, s.desk.store, s.pending, s.offset, s.replicas[i]) else s.replicas[i])
            && Aligned(w, s.replicas[i])
  {
    hide Reach, Answer, Aligned, NowResolved, StillWaiting, AckValue, IsAck;
    ReachNext(w, steps, ReadFrom(i));
    AlignedReplica(w, steps, i);
  }

  /** What rounds keep of a registered replica, and what becomes of one that is not registered yet. */
  ghost predicate KeepsFaith(s: System, r: Replica, n: Replica) {
    if Attached(r) then Attached(n) && n.cmds == r.cmds && n.intact == r.intact && (r.cmds == [] ==> n.store == r.store)
    else n.cmds == [] && n.store == r.store && (Attached(n) ==> (n.intact <==> Lockstep(r.store, s.pending, s.desk.store)))
  }

  lemma OneRound(w: World, steps: seq<Step>, i: nat)
    requires w.Valid() && i < |Reach(w, steps).replicas|
    ensures var s := Reach(w, steps);
            var t := Reach(w, steps + [ArriveAll(s, i)] + [ReadFrom(i)]);
            && SameMaster(s, t)
            && KeepsFaith(s, s.replicas[i], t.replicas[i])
            && (Attached(t.replicas[i]) || t.replicas[i].greeted > s.replicas[i].greeted)
  {
    hide Reach, Deliver, Answer, Wires, Pending, ControlAt, SentAt, AllSendable;
    var s := Reach(w, steps);
    var r, n := s.replicas[i], Deliver(s.replicas[i], |s.replicas[i].down|, ENV0);
    Delivered(w, steps, i);
    DeliverAll(w, r);
    WasRead(w, steps + [ArriveAll(s, i)], i);
    if Attached(r) {
      if n.read < |n.sent| { AnswerKeepsAligned(w, s.desk.store, s.pending, s.offset, n); }
    } else {
      AnswerGreets(w, s.desk.store, s.pending, s.offset, n);
    }
  }

  lemma {:induction false} RoundsComplete(w: World, steps: seq<Step>, i: nat, n: nat)
    requires w.Valid() && i < |Reach(w, steps).replicas|
    requires Attached(Reach(w, steps).replicas[i]) || Reach(w, steps).replicas[i].greeted + n >= 4
    ensures var s, t := Reach(w, steps), Reach(w, Rounds(w, steps, i, n));
            && SameMaster(s, t)
            && var r := t.replicas[i];
               Attached(r) && r.consumed == 5 + |r.cmds| && KeepsFaith(s, s.replicas[i], r)
    decreases n
  {
    hide Reach, Deliver, Wires, Pending, ControlAt, SentAt, AllSendable;
    var s := Reach(w, steps);
    if n == 0 {
      Delivered(w, steps, i);
      DeliverAll(w, s.replicas[i]);
    } else {
      OneRound(w, steps, i);
      RoundsComplete(w, steps + [ArriveAll(s, i)] + [ReadFrom(i)], i, n - 1);
    }
  }

  /** n pending propagations go out. */
  function Flushes(steps: seq<Step>, n: nat): seq<Step>
    decreases n
  {
    if n == 0 then steps else Flushes(steps + [Flush], n - 1)
  }

  lemma FlushWrites(s: System, i: nat)
    requires i < |s.replicas| && s.pending != []
    ensures var t := FlushStep(s);
            && t.pending == s.pending[1..] && t.desk == s.desk && i < |t.replicas|
            && t.replicas[i].intact == s.replicas[i].intact && (Attached(t.replicas[i]) <==> Attached(s.replicas[i]))
            && (!Attached(s.replicas[i]) ==> t.replicas[i] == s.replicas[i])
  {
    hide Printed;
  }

  lemma {:induction false} FlushesEmpty(w: World, steps: seq<Step>, i: nat, n: nat)
    requires i < |Reach(w, steps).replicas| && n == |Reach(w, steps).pending|
    ensures var s, t := Reach(w, steps), Reach(w, Flushes(steps, n));
            && t.pending == [] && t.desk == s.desk && i < |t.replicas|
            && t.replicas[i].intact == s.replicas[i].intact && (Attached(t.replicas[i]) <==> Attached(s.replicas[i]))
            && (!Attached(s.replicas[i]) ==> t.replicas[i] == s.replicas[i])
    decreases n
  {
    hide Reach, FlushStep;
    if n > 0 {
      ReachNext(w, steps, Flush);
      FlushWrites(Reach(w, steps), i);
      FlushesEmpty(w, steps + [Flush], i, n - 1);
    }
  }

  /** What is pending goes out, and then four rounds with replica i. */
  ghost function Settling(w: World, steps: seq<Step>, i: nat): seq<Step> {
    Rounds(w, Flushes(steps, |Reach(w, steps).pending|), i, 4)
  }

  /** Every replica can catch up. From any reachable state, let the pending propagations go out, and then let four rounds
      with this replica and a last delivery happen, without anyone else moving. The master's store is left alone, and the
      replica ends up registered with every command consumed. If it was registered and intact, it equals the master; if
      it was not registered yet, it equals the master exactly when its store did before. */
  lemma EveryReplicaCatchesUp(w: World, steps: seq<Step>, i: nat)
    requires w.Valid() && i < |Reach(w, steps).replicas|
    ensures var s, t := Reach(w, steps), Reach(w, Settling(w, steps, i));
            && t.desk.store == s.desk.store && i < |t.replicas|
            && var before, after := s.replicas[i], t.replicas[i];
               && Attached(after) && after.consumed == 5 + |after.cmds|
               && (Attached(before) && before.intact ==> after.store == s.desk.store)
               && (!Attached(before) ==> (after.store == s.desk.store <==> before.store == s.desk.store))
               && (!Attached(before) ==> (after.intact <==> before.store == s.desk.store))
  {
    hide Reach, Rounds, Flushes, Aligned, Linked;
    var flushed := Flushes(steps, |Reach(w, steps).pending|);
    FlushesEmpty(w, steps, i, |Reach(w, steps).pending|);
    RoundsComplete(w, flushed, i, 4);
    if Attached(Reach(w, steps).replicas[i]) && Reach(w, steps).replicas[i].intact {
      Convergence.CaughtUpReplicaIsEqual(w, Settling(w, steps, i), i);
    }
  }
}
