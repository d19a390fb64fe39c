/** The whole system: a master with its clients, some of them blocked by BLPOP or in the middle of an EXEC, its replicas,
    and WAIT. Every message may be delayed and cut anywhere, and between running a command and propagating it anything
    else may happen. */
module Replication {
  import opened Text
  import opened Resp
  import opened ReplicaStream
  import opened Store
  import opened Commands
  import opened Dispatcher
  import opened SaneStores
  import opened Propagation
  import opened Overtaking
  import opened Scripts
  import opened WaitListeners
  import Blocking
  import Persistence = Rdb
  import opened ReplicaLink
  import opened Offsets

  /** One WAIT: its listener, and history: how many WAITs came before it, who was counted, how many commands each
      registered replica had been sent when the GETACKs went out, and whether it is `clean`: no ACK that was under way
      when it started reaches the offset it captured, and since then no other WAIT has asked and no other client's ACK
      has been counted. */
  datatype Wait = Wait(serial: nat, listener: Listener, clean: bool, voters: set<nat>, marks: map<nat, nat>)

  /** `pending`: commands that have run and whose propagation, behind an await, is still to come, in order. `running`:
      EXECs under way. `guests` counts the registrations of ordinary clients that sent PSYNC. */
  datatype System = System(desk: Blocking.Desk, offset: nat, pending: seq<Payload>, running: seq<Script>, clients: map<nat, Conn>,
                           guests: nat, replicas: seq<Replica>, waits: seq<Wait>, replies: seq<Wait>)

  /** The master has loaded its dump file. */
  function Start(w: World): System {
    System(Blocking.OPEN.(store := Persistence.Load(w.file, w.loadedAt)), 0, [], [], map[], 0, [], [], [])
  }

  datatype Step =
    | Client(id: nat, env: Env, bytes: string)    // a client's buffer, dispatched if it holds a command
    | ExecNext(k: nat, env: Env)                  // an EXEC runs its next command, or ends
    | Flush                                       // the oldest pending propagation
    | EndBlpop(waiter: Blocking.Waiter)           // a blocked BLPOP times out
    | Join(port: nat, file: string, now: int)     // a replica loads its dump file, connects and sends PING
    | ReadFrom(i: nat)                            // the master reads the next message of a replica
    | Arrive(i: nat, k: nat, env: Env)            // up to k bytes reach a replica
    | EndWait(k: nat)                             // a WAIT times out

  // ---- the steps -------------------------------------------------------------------------------------

  function ConnOf(s: System, id: nat): Conn { if id in s.clients then s.clients[id] else FRESH }

  function AttachedSet(rs: seq<Replica>): set<nat> { set i: nat | 0 <= i < |rs| && Attached(rs[i]) }

  function WriteAll(rs: seq<Replica>, ps: seq<Payload>): seq<Replica> {
    seq(|rs|, i requires 0 <= i < |rs| => if Attached(rs[i]) then Write(rs[i], ps) else rs[i])
  }

  function ReplicaCount(s: System): nat { |AttachedSet(s.replicas)| + s.guests }

  /** propagate, once for each command: nothing is counted while there are no replicas. */
  function Propagate(s: System, ps: seq<Payload>): System {
    if ReplicaCount(s) == 0 then s
    else s.(replicas := WriteAll(s.replicas, ps), offset := s.offset + |Printed(ps)|)
  }

  function MarkIntact(rs: seq<Replica>, lossless: bool): seq<Replica> {
    seq(|rs|, i requires 0 <= i < |rs| => rs[i].(intact := rs[i].intact && lossless))
  }

  /** A listener hears an ACK of replica `who`, or of a connection that is none of the replicas. */
  function Vote(w: Wait, who: Option<nat>, ack: Option<int>): Wait {
    var heard := w.(listener := Hear(w.listener, ack));
    if !Reaches(w.listener.captured, ack) then heard
    else if who.Some? then heard.(voters := w.voters + {who.value})
    else heard.(clean := false)
  }

  function StillWaiting(waits: seq<Wait>, who: Option<nat>, ack: Option<int>): seq<Wait> {
    if waits == [] then []
    else (if Resolves(waits[0].listener, ack) then [] else [Vote(waits[0], who, ack)]) + StillWaiting(waits[1..], who, ack)
  }

  function NowResolved(waits: seq<Wait>, who: Option<nat>, ack: Option<int>): seq<Wait> {
    if waits == [] then []
    else (if Resolves(waits[0].listener, ack) then [Vote(waits[0], who, ack)] else []) + NowResolved(waits[1..], who, ack)
  }

  function Votes(s: System, who: Option<nat>, ack: Option<int>): System {
    s.(waits := StillWaiting(s.waits, who, ack), replies := s.replies + NowResolved(s.waits, who, ack))
  }

  function AcksRead(r: Replica): nat { if r.read < 4 then 0 else r.read - 4 }

  /** ACKs of this replica that answer earlier GETACKs and have not been read yet. */
  function Outstanding(r: Replica): seq<Payload> {
    if AcksRead(r) <= |Acks(r.cmds)| then Acks(r.cmds)[AcksRead(r)..] else []
  }

  predicate NoneReaches(captured: nat, acks: seq<Payload>) {
    forall j :: 0 <= j < |acks| ==> !Reaches(captured, AckValue(acks[j]))
  }

  predicate NoStaleAck(rs: seq<Replica>, captured: nat) {
    forall i :: 0 <= i < |rs| && Attached(rs[i]) ==> NoneReaches(captured, Outstanding(rs[i]))
  }

  function Overlapped(waits: seq<Wait>): seq<Wait> {
    seq(|waits|, i requires 0 <= i < |waits| => waits[i].(clean := false))
  }

  function WaitStep(s: System, required: Option<int>): System {
    var attached := AttachedSet(s.replicas);
    var marks := map i | i in attached :: |s.replicas[i].cmds|;
    var serial := |s.waits| + |s.replies|;
    if ReplicaCount(s) == 0 || s.offset == 0 then
      s.(replies := s.replies + [Wait(serial, Listener(s.offset, required, ReplicaCount(s)), s.guests == 0, attached, marks)])
    else
      var asked := Wait(serial, Listener(s.offset, required, 0), NoStaleAck(s.replicas, s.offset), {}, marks);
      s.(replicas := WriteAll(s.replicas, [GETACK]), waits := Overlapped(s.waits) + [asked])
  }

  /** What a dispatch leaves to the replication manager. */
  function Manage(s: System, e: Effect): System {
    match e
    case Nothing => s
    case Acked(ack) => Votes(s, None, ack)
    case Registers => s.(guests := s.guests + 1)
    case Waits(required) => WaitStep(s, required)
  }

  /** The desk on which a dispatch starts: its log holds what this dispatch propagates. */
  function Cleared(d: Blocking.Desk): Blocking.Desk { d.(propagated := []) }

  /** An EXEC that starts only takes the queue off the connection. */
  function ReactionOf(s: System, id: nat, env: Env, p: Payload): Reaction {
    var c := ConnOf(s, id);
    if StartsScript(c, p) then Reaction(Reset(c), Cleared(s.desk), None, Nothing)
    else Dispatch(env.(connection := id), c, Cleared(s.desk), p)
  }

  predicate LosslessHere(s: System, id: nat, env: Env, p: Payload) {
    StartsScript(ConnOf(s, id), p) || Lossless(env.(connection := id), ConnOf(s, id), Cleared(s.desk), p)
  }

  /** What goes out while the command runs, and what only afterwards: the command's own propagation, last in the log. */
  function Split(log: seq<Payload>, own: bool): (seq<Payload>, seq<Payload>) {
    if own && log != [] then (log[..|log| - 1], [log[|log| - 1]]) else (log, [])
  }

  /** A command has run and left this desk. A pop goes out at once and overtakes everything pending. */
  function AfterRun(s: System, e: Blocking.Desk, own: bool, lossless: bool): System {
    var (now, later) := Split(e.propagated, own);
    var replicas := MarkIntact(s.replicas, lossless && InTurn(now, s.pending));
    Propagate(s.(desk := e, pending := s.pending + later, replicas := replicas), now)
  }

  function Started(s: System, id: nat, p: Payload): seq<Script> {
    if StartsScript(ConnOf(s, id), p) then [Script(id, ConnOf(s, id).queue, None)] else []
  }

  function Served(s: System, id: nat, env: Env, p: Payload): System {
    var r := ReactionOf(s, id, env, p);
    AfterRun(s.(clients := s.clients[id := r.conn], running := s.running + Started(s, id, p)),
        r.desk, PropagatesOwn(ConnOf(s, id), p, r.reply), LosslessHere(s, id, env, p))
  }

  function ClientStep(s: System, id: nat, env: Env, bytes: string): System {
    match NextCommand(bytes)
    case None => s
    case Some(parsed) => Manage(Served(s, id, env, parsed.payload), ReactionOf(s, id, env, parsed.payload).effect)
  }

  function ExecStep(s: System, k: nat, env: Env): System {
    if k >= |s.running| || Suspended(s.desk, s.running[k]) then s
    else
      var x := s.running[k];
      if x.queue == [] then s.(running := s.running[..k] + s.running[k + 1..])
      else
        var from, d, p := env.(connection := x.client), Cleared(s.desk), x.queue[0];
        AfterRun(s.(running := s.running[k := Script(x.client, x.queue[1..], AwaitedBy(from, d, p))]),
            RunQueued(from, d, p), ExecPropagates(NameOf(p)), QueuedLossless(from, d, p))
  }

  function FlushStep(s: System): System {
    if s.pending == [] then s else Propagate(s.(pending := s.pending[1..]), [s.pending[0]])
  }

  ghost function ReadStep(w: World, s: System, i: nat): System {
    if i >= |s.replicas| || s.replicas[i].read >= |s.replicas[i].sent| then s
    else
      var r := s.replicas[i];
      var p := r.sent[r.read];
      var t := s.(replicas := s.replicas[i := Answer(w, s.desk.store, s.pending, s.offset, r)]);
      if IsAck(p) then Votes(t, Some(i), AckValue(p)) else t
  }

  function ArriveStep(s: System, i: nat, k: nat, env: Env): System {
    if i >= |s.replicas| || k > |s.replicas[i].down| then s
    else s.(replicas := s.replicas[i := Deliver(s.replicas[i], k, env)])
  }

  function TimeoutStep(s: System, k: nat): System {
    if k >= |s.waits| then s
    else s.(waits := s.waits[..k] + s.waits[k + 1..], replies := s.replies + [s.waits[k]])
  }

  ghost function Next(w: World, s: System, step: Step): System {
    match step
    case Client(id, env, bytes) => ClientStep(s, id, env, bytes)
    case ExecNext(k, env) => ExecStep(s, k, env)
    case Flush => FlushStep(s)
    case EndBlpop(waiter) => s.(desk := Blocking.TimeOut(s.desk, waiter))
    case Join(port, file, now) => s.(replicas := s.replicas + [Fresh(port, file, now)])
    case ReadFrom(i) => ReadStep(w, s, i)
    case Arrive(i, k, env) => ArriveStep(s, i, k, env)
    case EndWait(k) => TimeoutStep(s, k)
  }

  ghost function Reach(w: World, steps: seq<Step>): System {
    if steps == [] then Start(w) else Next(w, Reach(w, steps[..|steps| - 1]), steps[|steps| - 1])
  }

  // ---- invariants of one replica against the master -----------------------------------------------------

  /** The commands not yet consumed. */
  function Unseen(r: Replica): seq<Payload>
    requires CommandsIn(r.consumed) <= |r.cmds|
  {
    r.cmds[CommandsIn(r.consumed)..]
  }

  /** Replaying what has been written to the replica and not been consumed, and then `ps`, gives this store. */
  ghost predicate Behind(r: Replica, ps: seq<Payload>, store: Store) {
    CommandsIn(r.consumed) <= |r.cmds| && Lockstep(r.store, Writes(Unseen(r)) + ps, store)
  }

  /** Registered replicas: the byte counters agree, and an intact replica is the master minus the writes that are still
      on their way or pending. */
  ghost predicate Linked(store: Store, pending: seq<Payload>, offset: nat, r: Replica) {
    CommandsIn(r.consumed) <= |r.cmds|
    && (Attached(r) ==> offset == r.baseOffset + WriteBytes(r.cmds))
    && (Attached(r) && r.intact ==> Behind(r, pending, store))
    && (!Attached(r) ==> !r.intact)
  }

  ghost predicate ReplicaOk(w: World, s: System, r: Replica) {
    Aligned(w, r) && Linked(s.desk.store, s.pending, s.offset, r)
  }

  ghost predicate ReplicasOk(w: World, s: System) {
    forall i :: 0 <= i < |s.replicas| ==> ReplicaOk(w, s, s.replicas[i])
  }

  ghost predicate ClientsOk(s: System) {
    (forall id :: id in s.clients ==> AllPlainPayloads(s.clients[id].queue))
    && (forall k :: 0 <= k < |s.running| ==> AllPlainPayloads(s.running[k].queue))
  }

  ghost predicate PendingOk(s: System) { AllWrites(s.pending) && AllPlainPayloads(s.pending) }

  /** The master: its store is sane, and everything queued or pending can be written to a replica. */
  ghost predicate MasterOk(s: System) { Sane(s.desk.store) && ClientsOk(s) && PendingOk(s) }

  lemma WriteKeepsLinked(store: Store, pending: seq<Payload>, offset: nat, r: Replica, ps: seq<Payload>,
                         rest: seq<Payload>, after: Store)
    requires Linked(store, pending, offset, r) && Attached(r) && AllWrites(ps)
    requires r.intact ==> Behind(r, ps + rest, after)
    ensures Linked(after, rest, offset + |Printed(ps)|, Write(r, ps))
  {
    hide WriteBytes, Lockstep, Writes, Printed, IsWrite, NameOf;
    WriteBytesAppend(r.cmds, ps);
    WritesHaveNoAcks(ps);
    var n := Write(r, ps);
    assert Unseen(n) == Unseen(r) + ps;
    WritesAppend(Unseen(r), ps);
    assert (Writes(Unseen(r)) + ps) + rest == Writes(Unseen(r)) + (ps + rest);
  }

  lemma GetAckKeepsLinked(store: Store, pending: seq<Payload>, offset: nat, r: Replica)
    requires Linked(store, pending, offset, r) && Attached(r)
    ensures Linked(store, pending, offset, Write(r, [GETACK]))
  {
    hide Lockstep, Printed, IsGetAck;
    GetAckIsGetAck();
    var n := Write(r, [GETACK]);
    assert n.cmds[..|r.cmds|] == r.cmds;
    assert Unseen(n) == Unseen(r) + [GETACK];
    WritesAppend(Unseen(r), [GETACK]);
    assert [GETACK][1..] == [];
    assert Writes(Unseen(r)) + [] == Writes(Unseen(r));
  }

  lemma SeenKeepsLockstep(env: Env, s: Store, cmds: seq<Payload>, from: nat, to: nat, ps: seq<Payload>, store: Store)
    requires AllSendable(cmds) && from <= to <= |cmds| && Lockstep(s, Writes(cmds[from..]) + ps, store)
    ensures Lockstep(Replay(env, s, Writes(cmds[from..to])), Writes(cmds[to..]) + ps, store)
  {
    hide Lockstep, Writes, Sendable, Replay;
    assert cmds[from..] == cmds[from..to] + cmds[to..];
    WritesAppend(cmds[from..to], cmds[to..]);
    SendableWrites(cmds, from, to);
    assert Writes(cmds[from..]) + ps == Writes(cmds[from..to]) + (Writes(cmds[to..]) + ps);
    LockstepSplit(env, s, Writes(cmds[from..to]), Writes(cmds[to..]) + ps, store);
  }

  lemma ArriveKeepsLinked(w: World, store: Store, pending: seq<Payload>, offset: nat, r: Replica, k: nat, env: Env)
    requires w.Valid() && Aligned(w, r) && Linked(store, pending, offset, r) && k <= |r.down|
    ensures Linked(store, pending, offset, Deliver(r, k, env))
  {
    hide Lockstep, Writes, Replay, Aligned, AllSendable, Deliver;
    DeliverKeepsAligned(w, r, k, env);
    var n := Deliver(r, k, env);
    DeliverChangesOnly(w, r, k, env);
    AlignedFacts(w, n);
    if Attached(r) && r.intact {
      SeenKeepsLockstep(env, r.store, r.cmds, CommandsIn(r.consumed), CommandsIn(n.consumed), pending, store);
    }
  }

  lemma AlignedFacts(w: World, r: Replica)
    requires Aligned(w, r)
    ensures AllSendable(r.cmds) && CommandsIn(r.consumed) <= |r.cmds|
  {
  }

  lemma DeliverChangesOnly(w: World, r: Replica, k: nat, env: Env)
    requires k <= |r.down|
    ensures var n := Deliver(r, k, env);
            n.cmds == r.cmds && n.greeted == r.greeted && n.intact == r.intact && n.baseOffset == r.baseOffset
  {
    hide Replay;
  }

  lemma SendableWrites(cmds: seq<Payload>, i: nat, j: nat)
    requires AllSendable(cmds) && i <= j <= |cmds|
    ensures AllWrites(Writes(cmds[i..j]))
    decreases j - i
  {
    hide IsWrite, NameOf, AllPlain, IsGetAck;
    if i < j {
      SendableWrites(cmds, i + 1, j);
      assert cmds[i..j][1..] == cmds[i + 1..j];
      assert Sendable(cmds[i]);
      GetAckIsGetAck();
    }
  }

  /** Before any command has been written, nothing is on its way. */
  lemma NothingUnseen(r: Replica, ps: seq<Payload>, store: Store)
    requires r.cmds == [] && CommandsIn(r.consumed) <= |r.cmds|
    ensures Behind(r, ps, store) <==> Lockstep(r.store, ps, store)
    ensures WriteBytes(r.cmds) == 0
  {
    hide Lockstep, Writes, WriteBytes;
    NothingIsWritten();
    assert Unseen(r) == [];
    assert [] + ps == ps;
  }

  lemma NothingIsWritten()
    ensures Writes([]) == [] && WriteBytes([]) == 0
  {
  }

  lemma AnswerKeepsLinked(w: World, store: Store, pending: seq<Payload>, offset: nat, r: Replica)
    requires Aligned(w, r) && Linked(store, pending, offset, r) && r.read < |r.sent|
    ensures Linked(store, pending, offset, Answer(w, store, pending, offset, r))
  {
    hide Answer, Aligned, Behind, Lockstep, WriteBytes;
    AnswerKeepsAligned(w, store, pending, offset, r);
    var n := Answer(w, store, pending, offset, r);
    AlignedFacts(w, n);
    if Attached(r) {
      SameBehind(r, n, pending, store);
    } else if Attached(n) {
      NothingUnseen(n, pending, store);
    }
  }

  lemma SameBehind(r: Replica, n: Replica, ps: seq<Payload>, store: Store)
    requires n.cmds == r.cmds && n.consumed == r.consumed && n.store == r.store
    ensures Behind(n, ps, store) <==> Behind(r, ps, store)
  {
    hide Lockstep, Writes;
  }

  // ---- every step keeps the replicas in order ---------------------------------------------------------

  lemma WriteAllKeeps(w: World, s: System, rs: seq<Replica>, ps: seq<Payload>, t: System)
    requires AllSendable(ps) && |t.replicas| == |rs| == |s.replicas|
    requires forall i :: 0 <= i < |rs| ==> Aligned(w, rs[i])
    requires t.replicas == WriteAll(rs, ps)
    requires forall i :: 0 <= i < |rs| ==> Linked(t.desk.store, t.pending, t.offset, if Attached(rs[i]) then Write(rs[i], ps) else rs[i])
    ensures ReplicasOk(w, t)
  {
    hide Aligned, Linked, AllSendable, Write;
    forall i | 0 <= i < |rs| ensures ReplicaOk(w, t, t.replicas[i]) {
      if Attached(rs[i]) { WriteKeepsAligned(w, rs[i], ps); }
    }
  }

  lemma UnattachedKeepLinked(store: Store, pending: seq<Payload>, offset: nat, r: Replica, after: Store,
                             rest: seq<Payload>, later: nat)
    requires Linked(store, pending, offset, r) && !Attached(r)
    ensures Linked(after, rest, later, r)
  {
  }

  lemma WritesAreSendable(ps: seq<Payload>)
    requires AllWrites(ps) && AllPlainPayloads(ps)
    ensures AllSendable(ps)
  {
    hide IsWrite, NameOf, AllPlain;
  }

  /** The master has this desk, writes ps to its replicas, and keeps `rest` pending. */
  lemma PropagateKeeps(w: World, s: System, ps: seq<Payload>, rest: seq<Payload>, after: Blocking.Desk)
    requires ReplicasOk(w, s) && AllWrites(ps) && AllPlainPayloads(ps)
    requires forall i :: 0 <= i < |s.replicas| && s.replicas[i].intact ==> Behind(s.replicas[i], ps + rest, after.store)
    ensures ReplicasOk(w, Propagate(s.(desk := after, pending := rest), ps))
  {
    hide Aligned, Linked, Behind, Write, AllSendable, IsWrite, NameOf, AllPlain, Printed;
    WritesAreSendable(ps);
    var rs, t := s.replicas, Propagate(s.(desk := after, pending := rest), ps);
    if ReplicaCount(s) == 0 {
      forall i | 0 <= i < |rs| ensures ReplicaOk(w, t, rs[i]) {
        assert i !in AttachedSet(rs);
        UnattachedKeepLinked(s.desk.store, s.pending, s.offset, rs[i], t.desk.store, rest, t.offset);
      }
    } else {
      forall i | 0 <= i < |rs|
        ensures Linked(t.desk.store, t.pending, t.offset, if Attached(rs[i]) then Write(rs[i], ps) else rs[i])
      {
        if Attached(rs[i]) { WriteKeepsLinked(s.desk.store, s.pending, s.offset, rs[i], ps, rest, after.store); }
        else { UnattachedKeepLinked(s.desk.store, s.pending, s.offset, rs[i], t.desk.store, rest, t.offset); }
      }
      WriteAllKeeps(w, s, rs, ps, t);
    }
  }

  lemma MarkIntactKeeps(w: World, s: System, lossless: bool)
    requires ReplicasOk(w, s)
    ensures ReplicasOk(w, s.(replicas := MarkIntact(s.replicas, lossless)))
  {
    hide ControlAt, SentAt, Pending, AllSendable, WriteBytes, Lockstep, Writes;
    var t := s.(replicas := MarkIntact(s.replicas, lossless));
    forall i | 0 <= i < |t.replicas| ensures ReplicaOk(w, t, t.replicas[i]) {
      var r := s.replicas[i];
      assert ReplicaOk(w, s, r);
      assert Unseen(r) == Unseen(t.replicas[i]);
    }
  }

  lemma RunningKeepsBehind(w: World, s: System, r: Replica, e: Blocking.Desk, own: bool)
    requires ReplicaOk(w, s, r) && r.intact && AllWrites(s.pending) && Lockstep(s.desk.store, e.propagated, e.store)
    requires InTurn(Split(e.propagated, own).0, s.pending)
    ensures Behind(r, Split(e.propagated, own).0 + (s.pending + Split(e.propagated, own).1), e.store)
  {
    hide Aligned, Lockstep, Writes, IsWrite, NameOf, InTurn, AllSendable;
    var (now, later) := Split(e.propagated, own);
    assert now + later == e.propagated;
    AlignedFacts(w, r);
    SendableWrites(r.cmds, CommandsIn(r.consumed), |r.cmds|);
    assert r.cmds[CommandsIn(r.consumed)..|r.cmds|] == Unseen(r);
    InTurnIsFaithful(r.store, Writes(Unseen(r)), s.pending, s.desk.store, now, later, e.store);
  }

  lemma SplitKeepsLog(log: seq<Payload>, own: bool)
    requires AllWrites(log) && AllPlainPayloads(log)
    ensures var (now, later) := Split(log, own);
            AllWrites(now) && AllPlainPayloads(now) && AllWrites(later) && AllPlainPayloads(later)
  {
    hide IsWrite, NameOf, AllPlain;
  }

  /** A command that has run, lossless or not, keeps every replica linked to the master. */
  lemma RanKeeps(w: World, s: System, e: Blocking.Desk, own: bool, lossless: bool)
    requires ReplicasOk(w, s) && PendingOk(s) && LogOk(e) && Sane(e.store)
    requires lossless ==> Lockstep(s.desk.store, e.propagated, e.store)
    ensures ReplicasOk(w, AfterRun(s, e, own, lossless)) && PendingOk(AfterRun(s, e, own, lossless))
    ensures var t := AfterRun(s, e, own, lossless); t.desk == e && t.clients == s.clients && t.running == s.running
  {
    hide ReplicaOk, Lockstep, Behind, Printed, WriteAll, Sane, IsWrite, NameOf, AllPlain, Split, InTurn;
    var (now, later) := Split(e.propagated, own);
    SplitKeepsLog(e.propagated, own);
    var here := lossless && InTurn(now, s.pending);
    var t := s.(replicas := MarkIntact(s.replicas, here));
    MarkIntactKeeps(w, s, here);
    forall i | 0 <= i < |t.replicas| && t.replicas[i].intact
      ensures Behind(t.replicas[i], now + (t.pending + later), e.store)
    {
      assert ReplicaOk(w, t, t.replicas[i]);
      RunningKeepsBehind(w, t, t.replicas[i], e, own);
    }
    PropagateKeeps(w, t, now, t.pending + later, e);
  }

  /** Serving a client keeps every replica linked to the master. */
  lemma ServedKeeps(w: World, s: System, id: nat, env: Env, p: Payload)
    requires ReplicasOk(w, s) && MasterOk(s) && AllPlain(p)
    ensures ReplicasOk(w, Served(s, id, env, p)) && MasterOk(Served(s, id, env, p))
  {
    hide ReplicaOk, AfterRun, Dispatch, Lossless, Lockstep, AllWrites, AllPlainPayloads, Sane, AllPlain, StartsScript, PropagatesOwn;
    var r := ReactionOf(s, id, env, p);
    ReactionIsOk(s, id, env, p);
    var t := s.(clients := s.clients[id := r.conn], running := s.running + Started(s, id, p));
    SameForOtherClients(w, s, t);
    RanKeeps(w, t, r.desk, PropagatesOwn(ConnOf(s, id), p, r.reply), LosslessHere(s, id, env, p));
    NoPlainPayloads();
  }

  lemma ReactionIsOk(s: System, id: nat, env: Env, p: Payload)
    requires MasterOk(s) && AllPlain(p)
    ensures var r := ReactionOf(s, id, env, p);
            && LogOk(r.desk) && Sane(r.desk.store) && AllPlainPayloads(r.conn.queue) && AllPlainPayloads(ConnOf(s, id).queue)
            && (LosslessHere(s, id, env, p) ==> Lockstep(s.desk.store, r.desk.propagated, r.desk.store))
  {
    hide Dispatch, Lossless, Lockstep, AllWrites, AllPlainPayloads, Sane, AllPlain, StartsScript;
    var d, c, from := Cleared(s.desk), ConnOf(s, id), env.(connection := id);
    NoPlainPayloads();
    ClearedLogIsOk(s.desk);
    DispatchPropagates(from, c, d, p);
    PlainIsParsed(p);
    PlainAreParsed(c.queue);
    DispatchKeepsSane(from, c, d, p);
    Unchanged(d, d);
    if Lossless(from, c, d, p) { DispatchReplays(from, c, d, p); }
    var r := ReactionOf(s, id, env, p);
    assert r.desk.propagated[|d.propagated|..] == r.desk.propagated;
  }

  /** So does every queued command of an EXEC, whatever has happened since the one before. */
  lemma ExecKeeps(w: World, s: System, k: nat, env: Env)
    requires ReplicasOk(w, s) && MasterOk(s)
    ensures ReplicasOk(w, ExecStep(s, k, env)) && MasterOk(ExecStep(s, k, env))
  {
    hide ReplicaOk, AfterRun, RunQueued, Lockstep, AllWrites, AllPlain, Sane, AwaitedBy, QueuedLossless, ExecPropagates, NameOf;
    if k < |s.running| && !Suspended(s.desk, s.running[k]) {
      var x := s.running[k];
      assert AllPlainPayloads(x.queue);
      if x.queue == [] {
        SameForOtherClients(w, s, ExecStep(s, k, env));
      } else {
        var from, d, p := env.(connection := x.client), Cleared(s.desk), x.queue[0];
        var e, t := RunQueued(from, d, p), s.(running := s.running[k := Script(x.client, x.queue[1..], AwaitedBy(from, d, p))]);
        SameForOtherClients(w, s, t);
        QueuedIsOk(from, s.desk, p);
        RanKeeps(w, t, e, ExecPropagates(NameOf(p)), QueuedLossless(from, d, p));
      }
    }
  }

  lemma QueuedIsOk(env: Env, desk: Blocking.Desk, p: Payload)
    requires Sane(desk.store) && AllPlain(p)
    ensures var d := Cleared(desk); var e := RunQueued(env, d, p);
            && LogOk(e) && Sane(e.store)
            && (QueuedLossless(env, d, p) ==> Lockstep(desk.store, e.propagated, e.store))
  {
    hide RunQueued, Lockstep, AllWrites, AllPlain, Sane, QueuedLossless, AllPlainPayloads;
    var d := Cleared(desk);
    ClearedLogIsOk(desk);
    PlainIsParsed(p);
    QueuedKeepsLog(env, d, p);
    QueuedKeepsSane(env, d, p);
    var e := RunQueued(env, d, p);
    if QueuedLossless(env, d, p) { QueuedReplays(env, d, p); }
    assert e.propagated[|d.propagated|..] == e.propagated;
  }

  /** A pending propagation that goes out, in turn, leaves the store alone. */
  lemma FlushKeeps(w: World, s: System)
    requires ReplicasOk(w, s) && MasterOk(s)
    ensures ReplicasOk(w, FlushStep(s)) && MasterOk(FlushStep(s)) && FlushStep(s).desk == s.desk
  {
    hide ReplicaOk, Behind, WriteAll, Printed, Sane, IsWrite, NameOf, AllPlain;
    if s.pending != [] {
      var ps, rest := [s.pending[0]], s.pending[1..];
      assert ps + rest == s.pending;
      forall i | 0 <= i < |s.replicas| && s.replicas[i].intact ensures Behind(s.replicas[i], ps + rest, s.desk.store) {
        IntactIsBehind(w, s, s.replicas[i]);
      }
      PropagateKeeps(w, s, ps, rest, s.desk);
    }
  }

  lemma IntactIsBehind(w: World, s: System, r: Replica)
    requires ReplicaOk(w, s, r) && r.intact
    ensures Attached(r) && Behind(r, s.pending, s.desk.store)
  {
    hide Aligned, Behind;
  }

  lemma ClearedLogIsOk(d: Blocking.Desk)
    ensures LogOk(Cleared(d))
  {
  }

  lemma PlainIsParsed(p: Payload)
    requires AllPlain(p)
    ensures NoneEmpty(p)
  {
    assert forall i :: 0 <= i < |p| ==> Plain(p[i]);
  }

  lemma PlainAreParsed(ps: seq<Payload>)
    requires AllPlainPayloads(ps)
    ensures AllParsed(ps)
  {
    hide AllPlain, NoneEmpty;
    forall i | 0 <= i < |ps| ensures NoneEmpty(ps[i]) { PlainIsParsed(ps[i]); }
  }

  /** WAITs, ACKs and registrations leave the store alone, and GETACKs keep the replicas in order. */
  lemma ManageKeeps(w: World, s: System, e: Effect)
    requires ReplicasOk(w, s)
    ensures ReplicasOk(w, Manage(s, e))
    ensures var t := Manage(s, e); t.clients == s.clients && t.running == s.running && t.pending == s.pending && t.desk == s.desk
  {
    hide ReplicasOk, StillWaiting, NowResolved, Overlapped, WriteAll, NoStaleAck;
    var t := Manage(s, e);
    GetAckKeeps(w, s);
    if t.replicas != s.replicas { SameForOtherClients(w, s.(replicas := WriteAll(s.replicas, [GETACK])), t); }
    else { SameForOtherClients(w, s, t); }
  }

  lemma ClientKeeps(w: World, s: System, id: nat, env: Env, bytes: string)
    requires ReplicasOk(w, s) && MasterOk(s)
    ensures ReplicasOk(w, ClientStep(s, id, env, bytes)) && MasterOk(ClientStep(s, id, env, bytes))
  {
    hide ReplicasOk, Served, ReactionOf, Manage, Sane, AllPlain, AllPlainPayloads, AllWrites;
    if NextCommand(bytes).Some? {
      var p := NextCommand(bytes).value.payload;
      ServedKeeps(w, s, id, env, p);
      ManageKeeps(w, Served(s, id, env, p), ReactionOf(s, id, env, p).effect);
    }
  }

  lemma NoPlainPayloads()
    ensures AllPlainPayloads([])
  {
  }

  /** The replicas' invariant looks only at the store, what is pending, the offset and the replicas. */
  lemma SameForOtherClients(w: World, s: System, t: System)
    requires ReplicasOk(w, s) && t.replicas == s.replicas
    requires t.desk.store == s.desk.store && t.pending == s.pending && t.offset == s.offset
    ensures ReplicasOk(w, t)
  {
    hide Aligned, Linked;
    forall i | 0 <= i < |t.replicas| ensures ReplicaOk(w, t, t.replicas[i]) { assert ReplicaOk(w, s, s.replicas[i]); }
  }

  lemma ReplaceKeeps(w: World, s: System, i: nat, r: Replica)
    requires ReplicasOk(w, s) && i < |s.replicas| && ReplicaOk(w, s, r)
    ensures ReplicasOk(w, s.(replicas := s.replicas[i := r]))
  {
    hide Aligned, Linked;
  }

  lemma JoinKeeps(w: World, s: System, port: nat, file: string, now: int)
    requires ReplicasOk(w, s)
    ensures ReplicasOk(w, s.(replicas := s.replicas + [Fresh(port, file, now)]))
  {
    hide Aligned, Persistence.Load;
    FreshIsAligned(w, port, file, now);
    var t := s.(replicas := s.replicas + [Fresh(port, file, now)]);
    forall i | 0 <= i < |t.replicas| ensures ReplicaOk(w, t, t.replicas[i]) {
      if i < |s.replicas| { assert ReplicaOk(w, s, s.replicas[i]); }
    }
  }

  lemma GetAckKeeps(w: World, s: System)
    requires ReplicasOk(w, s)
    ensures ReplicasOk(w, s.(replicas := WriteAll(s.replicas, [GETACK])))
  {
    hide Aligned, Linked, Write, AllPlain, IsGetAck;
    GetAckIsGetAck();
    var rs, t := s.replicas, s.(replicas := WriteAll(s.replicas, [GETACK]));
    forall i | 0 <= i < |rs| ensures Linked(t.desk.store, t.pending, t.offset, if Attached(rs[i]) then Write(rs[i], [GETACK]) else rs[i]) {
      if Attached(rs[i]) { GetAckKeepsLinked(s.desk.store, s.pending, s.offset, rs[i]); }
    }
    WriteAllKeeps(w, s, rs, [GETACK], t);
  }

  lemma NextKeeps(w: World, s: System, step: Step)
    requires w.Valid() && ReplicasOk(w, s) && MasterOk(s)
    ensures ReplicasOk(w, Next(w, s, step)) && MasterOk(Next(w, s, step))
  {
    hide ReplicasOk, ReplicaOk, ClientStep, ExecStep, FlushStep, Deliver, Answer, NowResolved, StillWaiting, AllPlainPayloads,
         AllWrites, Sane, IsAck, AckValue;
    var t := Next(w, s, step);
    match step
    case Client(id, env, bytes) => ClientKeeps(w, s, id, env, bytes);
    case ExecNext(k, env) => ExecKeeps(w, s, k, env);
    case Flush => FlushKeeps(w, s);
    case EndBlpop(waiter) =>
      TimeOutKeepsStore(s.desk, waiter);
      SameForOtherClients(w, s, t);
    case Join(port, file, now) => JoinKeeps(w, s, port, file, now);
    case ReadFrom(i) =>
      if i < |s.replicas| && s.replicas[i].read < |s.replicas[i].sent| {
        AnswerKeepsOk(w, s, i);
        SameForOtherClients(w, s.(replicas := s.replicas[i := Answer(w, s.desk.store, s.pending, s.offset, s.replicas[i])]), t);
      }
    case Arrive(i, k, env) =>
      if i < |s.replicas| && k <= |s.replicas[i].down| { ArriveKeepsOk(w, s, i, k, env); }
    case EndWait(k) => SameForOtherClients(w, s, t);
  }

  lemma AnswerKeepsOk(w: World, s: System, i: nat)
    requires ReplicasOk(w, s) && i < |s.replicas| && s.replicas[i].read < |s.replicas[i].sent|
    ensures ReplicasOk(w, s.(replicas := s.replicas[i := Answer(w, s.desk.store, s.pending, s.offset, s.replicas[i])]))
  {
    hide Aligned, Linked, Answer;
    assert ReplicaOk(w, s, s.replicas[i]);
    AnswerKeepsAligned(w, s.desk.store, s.pending, s.offset, s.replicas[i]);
    AnswerKeepsLinked(w, s.desk.store, s.pending, s.offset, s.replicas[i]);
    ReplaceKeeps(w, s, i, Answer(w, s.desk.store, s.pending, s.offset, s.replicas[i]));
  }

  lemma ArriveKeepsOk(w: World, s: System, i: nat, k: nat, env: Env)
    requires w.Valid() && ReplicasOk(w, s) && i < |s.replicas| && k <= |s.replicas[i].down|
    ensures ReplicasOk(w, s.(replicas := s.replicas[i := Deliver(s.replicas[i], k, env)]))
  {
    hide Aligned, Linked, Deliver;
    assert ReplicaOk(w, s, s.replicas[i]);
    DeliverKeepsAligned(w, s.replicas[i], k, env);
    ArriveKeepsLinked(w, s.desk.store, s.pending, s.offset, s.replicas[i], k, env);
    ReplaceKeeps(w, s, i, Deliver(s.replicas[i], k, env));
  }

  /** In every reachable state every replica is aligned with, and linked to, the master, whose store is sane. */
  lemma {:induction false} ReachableOk(w: World, steps: seq<Step>)
    requires w.Valid()
    ensures ReplicasOk(w, Reach(w, steps)) && MasterOk(Reach(w, steps))
  {
    hide ReplicasOk, MasterOk, Next;
    if steps == [] {
      StartOk(w);
    } else {
      ReachableOk(w, steps[..|steps| - 1]);
      NextKeeps(w, Reach(w, steps[..|steps| - 1]), steps[|steps| - 1]);
    }
  }

  lemma StartOk(w: World)
    ensures ReplicasOk(w, Start(w)) && MasterOk(Start(w))
  {
    hide Persistence.Load, Sane;
    LoadedIsSane(w.file, w.loadedAt);
  }
}
