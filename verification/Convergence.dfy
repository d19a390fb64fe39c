/** Replication, over every run: convergence, offsets, handshake alignment; and where they end. */
module Convergence {
  import opened Text
  import opened Resp
  import opened ReplicaStream
  import opened Messages
  import opened Commands
  import opened Dispatcher
  import opened Propagation
  import opened ReplicaLink
  import opened Offsets
  import opened WaitListeners
  import opened SaneStores
  import opened Overtaking
  import opened Scripts
  import opened Replication
  import Blocking
  import Persistence = Rdb

  /** Replica i of a reachable state. */
  ghost function ReplicaOf(w: World, steps: seq<Step>, i: nat): Replica
    requires i < |Reach(w, steps).replicas|
  {
    Reach(w, steps).replicas[i]
  }

  /** Convergence. In every reachable state, however the bytes have been cut so far: let a replica whose store equalled
      the master's when it registered drain all bytes that are buffered or under way, and then run what the master
      has still to propagate. If every command since was lossless, its store becomes the master's, insertion order
      included. */
  lemma ReplicasConverge(w: World, steps: seq<Step>, i: nat, env: Env)
    requires w.Valid() && i < |Reach(w, steps).replicas|
    requires Attached(ReplicaOf(w, steps, i)) && ReplicaOf(w, steps, i).intact
    ensures var s, r := Reach(w, steps), ReplicaOf(w, steps, i);
            && Terminates(r.control, r.buf + r.down)
            && var d := Drain(r.control, r.buf + r.down);
               d.rest == "" && Replay(env, r.store, Emitted(d.events) + s.pending) == s.desk.store
  {
    hide Aligned, Lockstep, Replay, Emitted, Writes, Reach, WriteBytes, Drain, Terminates, Sane, ClientsOk;
    ReachableOk(w, steps);
    var s, r := Reach(w, steps), ReplicaOf(w, steps, i);
    assert ReplicaOk(w, s, r);
    DrainingAllEmits(w, r);
    AlignedSendable(w, r);
    SendableWrites(r.cmds, CommandsIn(r.consumed), |r.cmds|);
    assert r.cmds[CommandsIn(r.consumed)..|r.cmds|] == Unseen(r);
    LockstepReplays(env, r.store, Writes(Unseen(r)) + s.pending, s.desk.store);
  }

  lemma AlignedSendable(w: World, r: Replica)
    requires Aligned(w, r)
    ensures AllSendable(r.cmds)
  {
  }

  /** A caught-up intact replica holds the master's store now, if no propagation is pending. */
  lemma CaughtUpReplicaIsEqual(w: World, steps: seq<Step>, i: nat)
    requires w.Valid() && i < |Reach(w, steps).replicas| && Reach(w, steps).pending == []
    requires var r := ReplicaOf(w, steps, i);
             Attached(r) && r.intact && CommandsIn(r.consumed) == |r.cmds|
    ensures ReplicaOf(w, steps, i).store == Reach(w, steps).desk.store
  {
    hide Aligned, Reach, WriteBytes, MasterOk;
    ReachableOk(w, steps);
    var s, r := Reach(w, steps), ReplicaOf(w, steps, i);
    assert ReplicaOk(w, s, r);
    assert Unseen(r) == [];
    assert Writes([]) + [] == [];
  }

  // ---- offsets ----------------------------------------------------------------------------------------------

  /** Offset accounting. The master has counted the propagated bytes sent since registration; the
      replica has counted the propagated bytes it consumed and 37 for each GETACK it consumed. */
  lemma OffsetsAccountForEveryByte(w: World, steps: seq<Step>, i: nat)
    requires w.Valid() && i < |Reach(w, steps).replicas| && Attached(ReplicaOf(w, steps, i))
    ensures var s, r := Reach(w, steps), ReplicaOf(w, steps, i);
            && CommandsIn(r.consumed) <= |r.cmds|
            && s.offset == r.baseOffset + WriteBytes(r.cmds)
            && var done := r.cmds[..CommandsIn(r.consumed)];
               r.control.offset == WriteBytes(done) + 37 * |Acks(done)|
  {
    hide Reach, WriteBytes, Lockstep, CommandBytes, Acks, Sendable;
    ReachableOk(w, steps);
    var s, r := Reach(w, steps), ReplicaOf(w, steps, i);
    assert ReplicaOk(w, s, r);
    var done := r.cmds[..CommandsIn(r.consumed)];
    BytesSplit(done);
    NoCommandsNoBytes(r.cmds);
  }

  lemma NoCommandsNoBytes(cmds: seq<Payload>)
    ensures WriteBytes(cmds[..0]) == 0 && Acks(cmds[..0]) == []
  {
  }

  /** The ACK to a WAIT's GETACK is counted exactly when the replica's head start in GETACK bytes makes up for
      the offset at which it registered: always for a replica registered at offset 0, and for the first
      WAITs never for a replica that registered later, however far it has caught up. */
  lemma AckCountsExactly(w: World, steps: seq<Step>, i: nat, required: Option<int>)
    requires w.Valid() && i < |Reach(w, steps).replicas|
    requires Attached(ReplicaOf(w, steps, i)) && Reach(w, steps).offset > 0
    ensures var s, r := Reach(w, steps), ReplicaOf(w, steps, i);
            var t := WaitStep(s, required);
            var ack := ["REPLCONF", "ACK", DecInt(CommandBytes(r.cmds))];
            && i < |t.replicas| && Acks(t.replicas[i].cmds) == Acks(r.cmds) + [ack]
            && |t.waits| == |s.waits| + 1 && t.waits[|s.waits|].listener == Listener(s.offset, required, 0)
            && (Reaches(s.offset, AckValue(ack)) <==> r.baseOffset <= 37 * |Acks(r.cmds)|)
  {
    hide Reach, WriteBytes, Lockstep, CommandBytes, Acks, Sendable, Printed, ParseAnyInt, DecInt, NoStaleAck;
    ReachableOk(w, steps);
    var s, r := Reach(w, steps), ReplicaOf(w, steps, i);
    assert ReplicaOk(w, s, r);
    assert i in AttachedSet(s.replicas);
    AckAfter(r.cmds);
    BytesSplit(r.cmds);
    ParseAnyDecInt(CommandBytes(r.cmds));
  }

  // ---- handshake ----------------------------------------------------------------------------------------------

  /** Handshake alignment. The bytes not yet consumed are exactly the unconsumed messages of the script
      PONG, OK, OK, FULLRESYNC, RDB, command, command, ...; so the replica stands at a message boundary,
      and its handshake step is the number of greeting messages behind it. */
  lemma HandshakeIsAligned(w: World, steps: seq<Step>, i: nat)
    requires w.Valid() && i < |Reach(w, steps).replicas|
    ensures var r := ReplicaOf(w, steps, i);
            && InOrder(r.greeted, r.cmds) && r.consumed <= r.greeted + |r.cmds|
            && r.buf + r.down == Wires(Pending(w, r.greeted, r.cmds, r.consumed))
            && r.control.step == (if r.consumed < 4 then r.consumed else 4)
            && (r.control.rdbExpected <==> r.consumed == 4)
  {
    hide Reach, Linked, Sendable;
    ReachableOk(w, steps);
    assert ReplicaOk(w, Reach(w, steps), ReplicaOf(w, steps, i));
  }

  /** Nobody's handler or store has moved, and no registration is lost. */
  ghost predicate AllStay(rs: seq<Replica>, ns: seq<Replica>) {
    |rs| == |ns|
    && forall i :: 0 <= i < |rs| ==>
         && ns[i].control == rs[i].control && ns[i].consumed == rs[i].consumed && ns[i].store == rs[i].store
         && (Attached(rs[i]) ==> Attached(ns[i]))
  }

  lemma WritingMovesNobody(rs: seq<Replica>, ps: seq<Payload>)
    ensures AllStay(rs, WriteAll(rs, ps))
  {
    hide Printed;
  }

  lemma RunsMoveNobody(s: System, e: Blocking.Desk, own: bool, lossless: bool)
    ensures AllStay(s.replicas, AfterRun(s, e, own, lossless).replicas)
  {
    hide WriteAll, Printed, Split, InTurn;
    var (now, later) := Split(e.propagated, own);
    WritingMovesNobody(MarkIntact(s.replicas, lossless && InTurn(now, s.pending)), now);
  }

  lemma ClientsMoveNobody(s: System, id: nat, env: Env, bytes: string)
    ensures AllStay(s.replicas, ClientStep(s, id, env, bytes).replicas)
  {
    hide NextCommand, ReactionOf, LosslessHere, WriteAll, AfterRun, NowResolved, StillWaiting, NoStaleAck, StartsScript, PropagatesOwn;
    if NextCommand(bytes).Some? {
      var p := NextCommand(bytes).value.payload;
      var r := ReactionOf(s, id, env, p);
      RunsMoveNobody(s.(clients := s.clients[id := r.conn], running := s.running + Started(s, id, p)),
                     r.desk, PropagatesOwn(ConnOf(s, id), p, r.reply), LosslessHere(s, id, env, p));
      WritingMovesNobody(Served(s, id, env, p).replicas, [GETACK]);
    }
  }

  lemma ExecsMoveNobody(s: System, k: nat, env: Env)
    ensures AllStay(s.replicas, ExecStep(s, k, env).replicas)
  {
    hide AfterRun, RunQueued, AwaitedBy, QueuedLossless, ExecPropagates;
    if k < |s.running| && s.running[k].queue != [] {
      var x := s.running[k];
      var from, d, p := env.(connection := x.client), Cleared(s.desk), x.queue[0];
      RunsMoveNobody(s.(running := s.running[k := Script(x.client, x.queue[1..], AwaitedBy(from, d, p))]),
                     RunQueued(from, d, p), ExecPropagates(NameOf(p)), QueuedLossless(from, d, p));
    }
  }

  lemma FlushesMoveNobody(s: System)
    ensures AllStay(s.replicas, FlushStep(s).replicas)
  {
    hide WriteAll, Printed;
    if s.pending != [] { WritingMovesNobody(s.replicas, [s.pending[0]]); }
  }

  lemma AnswersMoveNobody(w: World, s: System, i: nat)
    requires ReplicasOk(w, s)
    ensures AllStay(s.replicas, ReadStep(w, s, i).replicas)
  {
    hide Answer, Aligned, Linked, IsAck, NowResolved, StillWaiting, AckValue;
    if i < |s.replicas| && s.replicas[i].read < |s.replicas[i].sent| {
      assert ReplicaOk(w, s, s.replicas[i]);
      AnswerKeepsAligned(w, s.desk.store, s.pending, s.offset, s.replicas[i]);
      AnswersKeepControl(w, s, s.replicas[i]);
    }
  }

  lemma AnswersKeepControl(w: World, s: System, r: Replica)
    requires r.read < |r.sent|
    ensures Answer(w, s.desk.store, s.pending, s.offset, r).control == r.control
  {
    hide Dispatch, IsAck, NameOf, Wire;
  }

  lemma OnlyArrivalsMoveAReplica(w: World, s: System, step: Step, i: nat)
    requires ReplicasOk(w, s) && i < |s.replicas| && !(step.Arrive? && step.i == i)
    ensures var t := Replication.Next(w, s, step);
            && i < |t.replicas|
            && t.replicas[i].control == s.replicas[i].control && t.replicas[i].consumed == s.replicas[i].consumed
            && t.replicas[i].store == s.replicas[i].store && (Attached(s.replicas[i]) ==> Attached(t.replicas[i]))
  {
    hide ReplicaOk, ClientStep, ExecStep, FlushStep, ReadStep, Deliver, Blocking.TimeOut, Persistence.Load;
    match step
    case Client(id, env, bytes) => ClientsMoveNobody(s, id, env, bytes);
    case ExecNext(k, env) => ExecsMoveNobody(s, k, env);
    case Flush => FlushesMoveNobody(s);
    case ReadFrom(j) => AnswersMoveNobody(w, s, j);
    case _ =>
  }

  /** Only a join adds a replica, with what its dump file gave it. */
  lemma OnlyJoinsAddAReplica(w: World, s: System, step: Step)
    requires ReplicasOk(w, s)
    ensures var rs, ns := s.replicas, Replication.Next(w, s, step).replicas;
            if step.Join? then ns == rs + [Fresh(step.port, step.file, step.now)] else |ns| == |rs|
  {
    hide ReplicaOk, ClientStep, ExecStep, FlushStep, ReadStep, Deliver, Blocking.TimeOut, Persistence.Load;
    match step
    case Client(id, env, bytes) => ClientsMoveNobody(s, id, env, bytes);
    case ExecNext(k, env) => ExecsMoveNobody(s, k, env);
    case Flush => FlushesMoveNobody(s);
    case ReadFrom(j) => AnswersMoveNobody(w, s, j);
    case _ =>
  }

  /** Commands reach a replica only after it has registered. */
  lemma UnregisteredStoresStay(w: World, s: System, step: Step, i: nat)
    requires w.Valid() && ReplicasOk(w, s) && i < |s.replicas|
    requires i < |Replication.Next(w, s, step).replicas| && !Attached(Replication.Next(w, s, step).replicas[i])
    ensures !Attached(s.replicas[i]) && Replication.Next(w, s, step).replicas[i].store == s.replicas[i].store
  {
    hide ClientStep, ExecStep, FlushStep, ReadStep, Deliver, Linked, ControlAt, SentAt, Replay;
    if !(step.Arrive? && step.i == i) {
      OnlyArrivalsMoveAReplica(w, s, step, i);
    } else if step.k <= |s.replicas[i].down| {
      var r := s.replicas[i];
      assert ReplicaOk(w, s, r);
      DeliverKeepsAligned(w, r, step.k, step.env);
      DeliverChangesOnly(w, r, step.k, step.env);
      assert r.cmds[CommandsIn(r.consumed)..CommandsIn(Deliver(r, step.k, step.env).consumed)] == [];
      NoWritesYet(step.env, r.store);
    }
  }

  /** The joins of a run: replica i made the i-th. */
  function Joins(steps: seq<Step>): (joins: seq<Step>)
    ensures forall i :: 0 <= i < |joins| ==> joins[i].Join?
  {
    if steps == [] then []
    else
      var last := steps[|steps| - 1];
      Joins(steps[..|steps| - 1]) + if last.Join? then [last] else []
  }

  /** Until it registers, a replica holds what it loaded when it started, whatever the master does meanwhile. So whether it
      starts out equal to the master is decided by its dump file alone. */
  lemma {:induction false} UnregisteredHoldsItsFile(w: World, steps: seq<Step>)
    requires w.Valid()
    ensures var rs, joins := Reach(w, steps).replicas, Joins(steps);
            && |joins| == |rs|
            && forall i :: 0 <= i < |rs| && !Attached(rs[i]) ==> rs[i].store == Persistence.Load(joins[i].file, joins[i].now)
  {
    hide Replication.Next, ReplicasOk, MasterOk, Persistence.Load;
    if steps != [] {
      var before, step := steps[..|steps| - 1], steps[|steps| - 1];
      var s, rs, joins := Reach(w, before), Reach(w, steps).replicas, Joins(steps);
      ReachableOk(w, before);
      UnregisteredHoldsItsFile(w, before);
      OnlyJoinsAddAReplica(w, s, step);
      forall i | 0 <= i < |rs| && !Attached(rs[i]) ensures rs[i].store == Persistence.Load(joins[i].file, joins[i].now) {
        if i < |s.replicas| { UnregisteredStoresStay(w, s, step, i); }
      }
    }
  }

  /** No step makes a replica's handshake go back. */
  lemma HandshakeNeverGoesBack(w: World, steps: seq<Step>, step: Step, i: nat)
    requires w.Valid() && i < |Reach(w, steps).replicas|
    ensures var s := Reach(w, steps);
            && i < |Replication.Next(w, s, step).replicas|
            && s.replicas[i].control.step <= Replication.Next(w, s, step).replicas[i].control.step
            && s.replicas[i].consumed <= Replication.Next(w, s, step).replicas[i].consumed
  {
    hide Reach, Linked, Sendable, Answer, Pending, Deliver, ClientStep, ExecStep, FlushStep, TimeoutStep, ReadStep, SentAt, MasterOk;
    ReachableOk(w, steps);
    var s := Reach(w, steps);
    assert ReplicaOk(w, s, s.replicas[i]);
    if !(step.Arrive? && step.i == i) {
      OnlyArrivalsMoveAReplica(w, s, step, i);
    } else if step.k <= |s.replicas[i].down| {
      DeliverKeepsAligned(w, s.replicas[i], step.k, step.env);
    }
  }

  // ---- the way back --------------------------------------------------------------------------------------------

  lemma AckIsPlain(n: nat)
    ensures AllPlain(["REPLCONF", "ACK", DecInt(n)])
    ensures AckValue(["REPLCONF", "ACK", DecInt(n)]) == Some(n) && IsAck(["REPLCONF", "ACK", DecInt(n)])
  {
    hide ParseInt, ParseAnyInt;
    ParseAnyDecInt(n);
    assert Lower("REPLCONF") == "replconf" && Lower("ACK") == "ack";
    assert IsDigit(DecInt(n)[0]);
    DigitsAreOneLine(DecInt(n));
  }

  /** An ACK a replica prints is read by the master as the ACK of the same offset, whatever follows it. */
  lemma AckSurvivesTheWire(n: nat, rest: string)
    ensures var ack := ["REPLCONF", "ACK", DecInt(n)];
            && NextCommand(ToRESP(ack) + rest) == Some(Parsed(ack, |ToRESP(ack)|))
            && IsAck(ack) && AckValue(ack) == Some(n)
  {
    hide AllPlain, ToRESP, NextCommand, DecInt, IsAck, AckValue;
    AckIsPlain(n);
    PrintThenParse(["REPLCONF", "ACK", DecInt(n)], rest);
  }

  // ---- where propagation ends -----------------------------------------------------------------------------------

  /** A GET is never propagated: replaying nothing matches its effect exactly when the key it reads has
      not expired. */
  lemma GetReplaysExactlyWhenNotExpired(env: Env, other: Env, d: Blocking.Desk, key: string)
    ensures var r := Dispatch(env, FRESH, d, ["GET", key]);
            && r.desk.propagated == d.propagated
            && (Replay(other, d.store, []) == r.desk.store <==> !ReadDeletes(env.now, d.store, [key]))
  {
    hide Replay, Execute;
    assert Lower("GET") == "get" && ["GET", key][1..] == [key];
    UnseenExactly(env, d.store, "get", [key]);
    NothingReplays(other, d.store);
  }

  /** EXEC does not propagate LPOP: for a queue of one LPOP, replaying matches exactly when it pops
      nothing. */
  lemma ExecPopReplaysExactlyWhenNothingPopped(env: Env, other: Env, d: Blocking.Desk, args: seq<string>)
    ensures var e := ExecQueue(env, d, [["LPOP"] + args]).desk;
            && e.propagated == d.propagated
            && (Replay(other, d.store, []) == e.store <==> !PopsSomething(d.store, args))
  {
    hide Replay, Execute, ItemsOf, PopsSomething, Taken, Blocking.Tagged;
    var p := ["LPOP"] + args;
    assert NameOf(p) == "lpop" by { LowerLPop(p); }
    assert ArgsOf(p) == args && [p][1..] == [];
    assert KindOf("lpop") == Some(Simple) && !ExecPropagates("lpop");
    assert ExecOne(env, d, p).desk == RunSimple(env, d, "lpop", args).0;
    UnseenExactly(env, d.store, "lpop", args);
    NothingReplays(other, d.store);
  }
}
