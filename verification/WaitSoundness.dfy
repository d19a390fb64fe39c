/** WAIT: whom its reply counts. */
module WaitSoundness {
  import opened Text
  import opened Resp
  import opened Store
  import opened Commands
  import opened Dispatcher
  import opened SaneStores
  import opened Propagation
  import opened ReplicaLink
  import opened Offsets
  import opened WaitListeners
  import opened Overtaking
  import opened Scripts
  import opened Replication
  import Blocking
  import Persistence = Rdb

  /** The replica has consumed every write byte among its first `mark` commands. */
  ghost predicate CaughtUp(r: Replica, mark: nat) {
    mark <= |r.cmds| && CommandsIn(r.consumed) <= |r.cmds|
    && WriteBytes(r.cmds[..CommandsIn(r.consumed)]) >= WriteBytes(r.cmds[..mark])
  }

  /** The replicas that had consumed every write sent to them before this WAIT's GETACK. */
  ghost function CaughtUpSet(rs: seq<Replica>, w: Wait): set<nat> {
    set i | i in w.marks && i < |rs| && CaughtUp(rs[i], w.marks[i])
  }

  ghost predicate Sound(rs: seq<Replica>, w: Wait) {
    w.clean ==>
      && w.listener.count == |w.voters| && w.voters <= w.marks.Keys
      && forall i :: i in w.voters ==> i < |rs| && CaughtUp(rs[i], w.marks[i])
  }

  /** While a clean WAIT runs: no GETACK has gone out after its own, none of the ACKs that answer earlier ones and
      are still unread reaches its offset, and a replica it has counted has nothing left to say. */
  ghost predicate Asked(r: Replica, i: nat, w: Wait) {
    if i in w.marks then
      && Attached(r) && w.marks[i] < |r.cmds|
      && var own := |Acks(r.cmds[..w.marks[i]])|;
      && |Acks(r.cmds)| == own + 1
      && (forall j :: AcksRead(r) <= j < own ==> !Reaches(w.listener.captured, AckValue(Acks(r.cmds)[j])))
      && (i in w.voters ==> AcksRead(r) == |Acks(r.cmds)|)
    else Acks(r.cmds) == []
  }

  ghost predicate Running(rs: seq<Replica>, w: Wait) {
    Sound(rs, w)
    && (w.clean ==> (forall i :: i in w.marks ==> i < |rs|) && forall i :: 0 <= i < |rs| ==> Asked(rs[i], i, w))
  }

  ghost predicate WaitsOk(s: System) {
    (forall k :: 0 <= k < |s.waits| ==> Running(s.replicas, s.waits[k]))
    && (forall k :: 0 <= k < |s.replies| ==> Sound(s.replicas, s.replies[k]))
  }

  // ---- what the other steps leave alone -----------------------------------------------------------------

  ghost predicate Grows(r: Replica, n: Replica) {
    r.cmds <= n.cmds && r.consumed <= n.consumed && CommandsIn(n.consumed) <= |n.cmds|
  }

  ghost predicate GrowsQuietly(r: Replica, n: Replica) {
    Grows(r, n) && Acks(n.cmds) == Acks(r.cmds) && AcksRead(n) == AcksRead(r) && (Attached(r) ==> Attached(n))
  }

  ghost predicate AllGrow(rs: seq<Replica>, ns: seq<Replica>) {
    |rs| <= |ns| && forall i :: 0 <= i < |rs| ==> Grows(rs[i], ns[i])
  }

  ghost predicate AllGrowQuietly(rs: seq<Replica>, ns: seq<Replica>) {
    |rs| <= |ns|
    && (forall i :: 0 <= i < |rs| ==> GrowsQuietly(rs[i], ns[i]))
    && (forall i :: |rs| <= i < |ns| ==> ns[i].cmds == [])
  }

  lemma CaughtUpStays(r: Replica, n: Replica, mark: nat)
    requires Grows(r, n) && CaughtUp(r, mark)
    ensures CaughtUp(n, mark)
  {
    hide WriteBytes, Acks;
    assert n.cmds[..mark] == r.cmds[..mark];
    assert n.cmds[..CommandsIn(r.consumed)] == r.cmds[..CommandsIn(r.consumed)];
    PrefixCounts(n.cmds, CommandsIn(r.consumed), CommandsIn(n.consumed));
  }

  lemma SoundStays(rs: seq<Replica>, ns: seq<Replica>, w: Wait)
    requires AllGrow(rs, ns) && Sound(rs, w)
    ensures Sound(ns, w)
  {
    hide CaughtUp, Grows;
    if w.clean {
      forall i | i in w.voters ensures i < |ns| && CaughtUp(ns[i], w.marks[i]) { CaughtUpStays(rs[i], ns[i], w.marks[i]); }
    }
  }

  lemma RunningStays(rs: seq<Replica>, ns: seq<Replica>, w: Wait)
    requires AllGrowQuietly(rs, ns) && Running(rs, w)
    ensures Running(ns, w)
  {
    hide Sound, Acks;
    assert AllGrow(rs, ns);
    SoundStays(rs, ns, w);
    if w.clean {
      NoAcksInNothing();
      forall i | 0 <= i < |ns| ensures Asked(ns[i], i, w) {
        if i < |rs| {
          assert Asked(rs[i], i, w) && GrowsQuietly(rs[i], ns[i]);
          if i in w.marks { assert ns[i].cmds[..w.marks[i]] == rs[i].cmds[..w.marks[i]]; }
        }
      }
    }
  }

  lemma NoAcksInNothing()
    ensures Acks([]) == []
  {
  }

  lemma QuietStep(s: System, t: System)
    requires WaitsOk(s) && AllGrowQuietly(s.replicas, t.replicas) && t.waits == s.waits && t.replies == s.replies
    ensures WaitsOk(t)
  {
    hide Running, Sound, AllGrowQuietly;
    forall k | 0 <= k < |t.waits| ensures Running(t.replicas, t.waits[k]) { RunningStays(s.replicas, t.replicas, s.waits[k]); }
    assert AllGrow(s.replicas, t.replicas) by { QuietIsGrowth(s.replicas, t.replicas); }
    forall k | 0 <= k < |t.replies| ensures Sound(t.replicas, t.replies[k]) { SoundStays(s.replicas, t.replicas, s.replies[k]); }
  }

  lemma QuietIsGrowth(rs: seq<Replica>, ns: seq<Replica>)
    requires AllGrowQuietly(rs, ns)
    ensures AllGrow(rs, ns)
  {
  }

  ghost predicate InBounds(rs: seq<Replica>) { forall i :: 0 <= i < |rs| ==> CommandsIn(rs[i].consumed) <= |rs[i].cmds| }

  lemma OkInBounds(w: World, s: System)
    requires ReplicasOk(w, s)
    ensures InBounds(s.replicas)
  {
    hide Aligned, WriteBytes, Lockstep;
    forall i | 0 <= i < |s.replicas| ensures CommandsIn(s.replicas[i].consumed) <= |s.replicas[i].cmds| {
      assert ReplicaOk(w, s, s.replicas[i]);
    }
  }

  lemma PropagateIsQuiet(s: System, ps: seq<Payload>, lossless: bool)
    requires InBounds(s.replicas) && AllWrites(ps)
    ensures AllGrowQuietly(s.replicas, Propagate(s.(replicas := MarkIntact(s.replicas, lossless)), ps).replicas)
  {
    hide Acks, AllWrites, Printed;
    var ns := Propagate(s.(replicas := MarkIntact(s.replicas, lossless)), ps).replicas;
    forall i | 0 <= i < |ns| ensures GrowsQuietly(s.replicas[i], ns[i]) { NoAcksAfter(s.replicas[i].cmds, ps); }
  }

  lemma RanIsQuiet(s: System, e: Blocking.Desk, own: bool, lossless: bool)
    requires InBounds(s.replicas) && LogOk(e)
    ensures var t := AfterRun(s, e, own, lossless);
            AllGrowQuietly(s.replicas, t.replicas) && t.waits == s.waits && t.replies == s.replies
  {
    hide GrowsQuietly, AllWrites, Printed, AllPlainPayloads, WriteAll, Split, InTurn;
    SplitKeepsLog(e.propagated, own);
    var (now, later) := Split(e.propagated, own);
    PropagateIsQuiet(s.(desk := e, pending := s.pending + later), now, lossless && InTurn(now, s.pending));
  }

  lemma ServedIsQuiet(s: System, id: nat, env: Env, p: Payload)
    requires InBounds(s.replicas) && MasterOk(s) && AllPlain(p)
    ensures var t := Served(s, id, env, p);
            AllGrowQuietly(s.replicas, t.replicas) && t.waits == s.waits && t.replies == s.replies
  {
    hide AfterRun, ReactionOf, LosslessHere, AllGrowQuietly, LogOk, PropagatesOwn, StartsScript, MasterOk;
    ReactionIsOk(s, id, env, p);
    var r := ReactionOf(s, id, env, p);
    RanIsQuiet(s.(clients := s.clients[id := r.conn], running := s.running + Started(s, id, p)),
               r.desk, PropagatesOwn(ConnOf(s, id), p, r.reply), LosslessHere(s, id, env, p));
  }

  lemma ExecIsQuiet(s: System, k: nat, env: Env)
    requires InBounds(s.replicas) && MasterOk(s)
    ensures var t := ExecStep(s, k, env);
            AllGrowQuietly(s.replicas, t.replicas) && t.waits == s.waits && t.replies == s.replies
  {
    hide AfterRun, RunQueued, AllGrowQuietly, LogOk, AwaitedBy, QueuedLossless, AllPlain, InBounds, ExecPropagates, Sane;
    SameIsQuiet(s.replicas);
    if k < |s.running| && !Suspended(s.desk, s.running[k]) && s.running[k].queue != [] {
      var x := s.running[k];
      var from, d, p := env.(connection := x.client), Cleared(s.desk), x.queue[0];
      QueuedIsOk(from, s.desk, p);
      RanIsQuiet(s.(running := s.running[k := Script(x.client, x.queue[1..], AwaitedBy(from, d, p))]), RunQueued(from, d, p),
                 ExecPropagates(NameOf(p)), QueuedLossless(from, d, p));
    }
  }

  lemma FlushIsQuiet(s: System)
    requires InBounds(s.replicas) && MasterOk(s)
    ensures var t := FlushStep(s);
            AllGrowQuietly(s.replicas, t.replicas) && t.waits == s.waits && t.replies == s.replies
  {
    hide AllGrowQuietly, InBounds, Printed, WriteAll, IsWrite, NameOf, Sane;
    SameIsQuiet(s.replicas);
    if s.pending != [] {
      AllStayMarked(s.replicas);
      PropagateIsQuiet(s.(pending := s.pending[1..]), [s.pending[0]], true);
    }
  }

  lemma AllStayMarked(rs: seq<Replica>)
    ensures MarkIntact(rs, true) == rs
  {
  }

  lemma SameIsQuiet(rs: seq<Replica>)
    requires InBounds(rs)
    ensures AllGrowQuietly(rs, rs)
  {
    hide Acks;
  }

  lemma OneChanges(rs: seq<Replica>, i: nat, n: Replica)
    requires InBounds(rs) && i < |rs| && GrowsQuietly(rs[i], n)
    ensures AllGrowQuietly(rs, rs[i := n])
  {
    hide Acks;
  }

  // ---- counting an ACK -------------------------------------------------------------------------------------

  lemma NextAck(w: World, r: Replica)
    requires Aligned(w, r) && 4 <= r.read < |r.sent|
    ensures AcksRead(r) < |Acks(r.cmds[..CommandsIn(r.consumed)])| <= |Acks(r.cmds)|
    ensures r.sent[r.read] == Acks(r.cmds)[AcksRead(r)]
    ensures AcksRead(r) < |Acks(r.cmds)|
  {
    hide Acks, WriteBytes, Pending, ControlAt, AllSendable;
    var done := CommandsIn(r.consumed);
    assert r.cmds == r.cmds[..done] + r.cmds[done..];
    AcksAppend(r.cmds[..done], r.cmds[done..]);
    assert r.sent[r.read] == Acks(r.cmds[..done])[r.read - 4];
  }

  /** An ACK that a clean WAIT counts answers this WAIT's own GETACK, from a replica not counted before that has
      consumed every earlier write. */
  lemma AckAnswersThisWait(w: World, r: Replica, i: nat, wait: Wait)
    requires Aligned(w, r) && 4 <= r.read < |r.sent|
    requires wait.clean && Asked(r, i, wait)
    ensures i in wait.marks && i !in wait.voters
    ensures Reaches(wait.listener.captured, AckValue(r.sent[r.read])) ==>
              AcksRead(r) == |Acks(r.cmds[..wait.marks[i]])| && CaughtUp(r, wait.marks[i])
  {
    hide Acks, WriteBytes, Pending, ControlAt, AllSendable, AckValue;
    NextAck(w, r);
    if Reaches(wait.listener.captured, AckValue(r.sent[r.read])) {
      var done := CommandsIn(r.consumed);
      if done <= wait.marks[i] {
        PrefixCounts(r.cmds, done, wait.marks[i]);
      } else {
        PrefixCounts(r.cmds, wait.marks[i], done);
      }
    }
  }

  lemma VoteKeeps(w: World, rs: seq<Replica>, i: nat, wait: Wait)
    requires i < |rs| && Aligned(w, rs[i]) && 4 <= rs[i].read < |rs[i].sent|
    requires InBounds(rs) && Running(rs, wait)
    ensures Running(rs[i := rs[i].(read := rs[i].read + 1)], Vote(wait, Some(i), AckValue(rs[i].sent[rs[i].read])))
  {
    hide Acks, Aligned, CaughtUp, Reaches, AckValue;
    var r, ns := rs[i], rs[i := rs[i].(read := rs[i].read + 1)];
    var v := Vote(wait, Some(i), AckValue(r.sent[r.read]));
    if wait.clean {
      NextAck(w, r);
      AckAnswersThisWait(w, r, i, wait);
      forall j | j in v.voters ensures j < |ns| && CaughtUp(ns[j], v.marks[j]) {
        CaughtUpStays(rs[j], ns[j], v.marks[j]);
      }
      forall j | 0 <= j < |ns| ensures Asked(ns[j], j, v) {
        assert Asked(rs[j], j, wait);
      }
    }
  }

  /** An ACK from elsewhere either is not counted or ends the WAIT's cleanness. */
  lemma StrangerKeeps(rs: seq<Replica>, ack: Option<int>, wait: Wait)
    requires Running(rs, wait)
    ensures Running(rs, Vote(wait, None, ack))
  {
    hide Acks, CaughtUp, Asked;
    var v := Vote(wait, None, ack);
    if v.clean {
      assert v == wait;
    }
  }

  lemma {:induction false} StrangersKeep(rs: seq<Replica>, ack: Option<int>, waits: seq<Wait>)
    requires forall k :: 0 <= k < |waits| ==> Running(rs, waits[k])
    ensures forall k :: 0 <= k < |StillWaiting(waits, None, ack)| ==> Running(rs, StillWaiting(waits, None, ack)[k])
    ensures forall k :: 0 <= k < |NowResolved(waits, None, ack)| ==> Sound(rs, NowResolved(waits, None, ack)[k])
    decreases waits
  {
    hide Vote, Resolves, Sound, Asked;
    if waits != [] {
      StrangerKeeps(rs, ack, waits[0]);
      StrangersKeep(rs, ack, waits[1..]);
    }
  }

  lemma {:induction false} VotesKeep(w: World, rs: seq<Replica>, i: nat, waits: seq<Wait>)
    requires i < |rs| && Aligned(w, rs[i]) && 4 <= rs[i].read < |rs[i].sent| && InBounds(rs)
    requires forall k :: 0 <= k < |waits| ==> Running(rs, waits[k])
    ensures var ns, ack := rs[i := rs[i].(read := rs[i].read + 1)], AckValue(rs[i].sent[rs[i].read]);
            && (forall k :: 0 <= k < |StillWaiting(waits, Some(i), ack)| ==> Running(ns, StillWaiting(waits, Some(i), ack)[k]))
            && (forall k :: 0 <= k < |NowResolved(waits, Some(i), ack)| ==> Sound(ns, NowResolved(waits, Some(i), ack)[k]))
    decreases waits
  {
    hide Aligned, Vote, Resolves, Sound, Asked, AckValue;
    if waits != [] {
      VoteKeeps(w, rs, i, waits[0]);
      VotesKeep(w, rs, i, waits[1..]);
    }
  }

  lemma AckStepKeeps(w: World, s: System, i: nat)
    requires ReplicasOk(w, s) && WaitsOk(s)
    requires i < |s.replicas| && 4 <= s.replicas[i].read < |s.replicas[i].sent|
    ensures WaitsOk(ReadStep(w, s, i))
  {
    hide Aligned, Linked, Running, Sound, StillWaiting, NowResolved, IsAck, AckValue, Answer;
    var r := s.replicas[i];
    assert ReplicaOk(w, s, r);
    OkInBounds(w, s);
    LateMessagesAreAcks(w, r);
    AnswerKeepsAligned(w, s.desk.store, s.pending, s.offset, r);
    var ns := s.replicas[i := r.(read := r.read + 1)];
    VotesKeep(w, s.replicas, i, s.waits);
    assert AllGrow(s.replicas, ns);
    forall k | 0 <= k < |s.replies| ensures Sound(ns, s.replies[k]) { SoundStays(s.replicas, ns, s.replies[k]); }
  }

  lemma LateMessagesAreAcks(w: World, r: Replica)
    requires Aligned(w, r) && 4 <= r.read < |r.sent|
    ensures IsAck(r.sent[r.read]) && Attached(r)
  {
    hide Acks, Pending, ControlAt, AllSendable, IsAck;
    AcksAreAcks(r.cmds[..CommandsIn(r.consumed)]);
    assert r.sent[r.read] == Acks(r.cmds[..CommandsIn(r.consumed)])[r.read - 4];
  }

  lemma GreetingStepKeeps(w: World, s: System, i: nat)
    requires ReplicasOk(w, s) && WaitsOk(s)
    requires i < |s.replicas| && s.replicas[i].read < |s.replicas[i].sent| && s.replicas[i].read < 4
    ensures WaitsOk(ReadStep(w, s, i))
  {
    hide Aligned, Linked, Running, Sound, IsAck, Answer, Acks, AllGrowQuietly;
    var r := s.replicas[i];
    assert ReplicaOk(w, s, r);
    OkInBounds(w, s);
    EarlyMessagesAreRequests(w, r);
    AnswerKeepsAligned(w, s.desk.store, s.pending, s.offset, r);
    var n := Answer(w, s.desk.store, s.pending, s.offset, r);
    assert GrowsQuietly(r, n);
    OneChanges(s.replicas, i, n);
    QuietStep(s, s.(replicas := s.replicas[i := n]));
  }

  lemma EarlyMessagesAreRequests(w: World, r: Replica)
    requires Aligned(w, r) && r.read < |r.sent| && r.read < 4
    ensures !IsAck(r.sent[r.read]) && !Attached(r)
  {
    hide Acks, Pending, ControlAt, AllSendable, IsAck, Requests, Dispatcher.Dispatch;
    assert r.sent[r.read] == Requests(r.port)[r.read];
    if r.read < 3 { HandshakeReplies(EMPTY, r.port, r.read); } else { PsyncIsPsync(r.port); }
  }

  // ---- starting a WAIT ---------------------------------------------------------------------------------------

  lemma NewWaitRuns(w: World, s: System, wait: Wait)
    requires ReplicasOk(w, s)
    requires wait.listener.count == 0 && wait.voters == {} && (wait.clean ==> NoStaleAck(s.replicas, wait.listener.captured))
    requires wait.marks == map i | i in AttachedSet(s.replicas) :: |s.replicas[i].cmds|
    ensures Running(WriteAll(s.replicas, [GETACK]), wait)
  {
    hide Aligned, Linked, Asked, Printed, NoStaleAck;
    var ns := WriteAll(s.replicas, [GETACK]);
    if wait.clean {
      forall i | 0 <= i < |ns| ensures Asked(ns[i], i, wait) {
        assert ReplicaOk(w, s, s.replicas[i]);
        NewWaitAsks(w, s.replicas, i, wait);
      }
    }
  }

  lemma NewWaitAsks(w: World, rs: seq<Replica>, i: nat, wait: Wait)
    requires i < |rs| && Aligned(w, rs[i]) && NoStaleAck(rs, wait.listener.captured) && wait.voters == {}
    requires wait.marks == map i | i in AttachedSet(rs) :: |rs[i].cmds|
    ensures Asked(WriteAll(rs, [GETACK])[i], i, wait)
  {
    hide Aligned, Acks, Printed, AckValue, Reaches;
    var r, n := rs[i], WriteAll(rs, [GETACK])[i];
    if Attached(r) {
      assert i in AttachedSet(rs);
      AckAfter(r.cmds);
      assert n.cmds[..|r.cmds|] == r.cmds;
      forall j | AcksRead(n) <= j < |Acks(r.cmds)| ensures !Reaches(wait.listener.captured, AckValue(Acks(n.cmds)[j])) {
        assert Acks(n.cmds)[j] == Outstanding(r)[j - AcksRead(r)];
      }
    } else {
      UnattachedHasNoCommands(w, r);
      assert i !in AttachedSet(rs);
    }
  }

  lemma UnattachedHasNoCommands(w: World, r: Replica)
    requires Aligned(w, r) && !Attached(r)
    ensures r.cmds == [] && Acks(r.cmds) == []
  {
  }

  lemma ImmediateReplyIsSound(w: World, s: System, wait: Wait)
    requires ReplicasOk(w, s) && (AttachedSet(s.replicas) == {} || s.offset == 0)
    requires wait.voters == AttachedSet(s.replicas) && wait.listener.count == |wait.voters|
    requires wait.marks == map i | i in AttachedSet(s.replicas) :: |s.replicas[i].cmds|
    ensures Sound(s.replicas, wait)
  {
    hide Aligned, WriteBytes, Lockstep;
    forall i | i in wait.voters ensures CaughtUp(s.replicas[i], wait.marks[i]) {
      var r := s.replicas[i];
      assert ReplicaOk(w, s, r);
      assert r.cmds[..|r.cmds|] == r.cmds;
    }
  }

  lemma WaitStepKeeps(w: World, s: System, required: Option<int>)
    requires ReplicasOk(w, s) && WaitsOk(s)
    ensures WaitsOk(WaitStep(s, required))
  {
    hide Aligned, Linked, Asked, CaughtUp, ReplicaOk, WriteAll, NoStaleAck;
    var t := WaitStep(s, required);
    if ReplicaCount(s) == 0 || s.offset == 0 {
      if s.guests == 0 { ImmediateReplyIsSound(w, s, t.replies[|s.replies|]); }
    } else {
      NewWaitRuns(w, s, t.waits[|s.waits|]);
      GetAcksGrow(w, s);
      forall k | 0 <= k < |s.replies| ensures Sound(t.replicas, s.replies[k]) { SoundStays(s.replicas, t.replicas, s.replies[k]); }
    }
  }

  lemma ManageKeepsWaits(w: World, s: System, e: Effect)
    requires ReplicasOk(w, s) && WaitsOk(s)
    ensures WaitsOk(Manage(s, e))
  {
    hide ReplicaOk, WaitStep, Running, Sound, StillWaiting, NowResolved;
    match e
    case Nothing =>
    case Acked(ack) => StrangersKeep(s.replicas, ack, s.waits);
    case Registers =>
    case Waits(required) => WaitStepKeeps(w, s, required);
  }

  lemma ClientKeepsWaits(w: World, s: System, id: nat, env: Env, bytes: string)
    requires ReplicasOk(w, s) && MasterOk(s) && WaitsOk(s)
    ensures WaitsOk(ClientStep(s, id, env, bytes))
  {
    hide ReplicasOk, WaitsOk, Served, ReactionOf, Manage, MasterOk, AllGrowQuietly;
    if NextCommand(bytes).Some? {
      var p := NextCommand(bytes).value.payload;
      OkInBounds(w, s);
      ServedIsQuiet(s, id, env, p);
      QuietStep(s, Served(s, id, env, p));
      ServedKeeps(w, s, id, env, p);
      ManageKeepsWaits(w, Served(s, id, env, p), ReactionOf(s, id, env, p).effect);
    }
  }

  lemma GetAcksGrow(w: World, s: System)
    requires ReplicasOk(w, s)
    ensures AllGrow(s.replicas, WriteAll(s.replicas, [GETACK]))
  {
    hide Printed;
    OkInBounds(w, s);
  }

  // ---- every run ------------------------------------------------------------------------------------------------

  lemma NextKeepsWaits(w: World, s: System, step: Step)
    requires w.Valid() && ReplicasOk(w, s) && MasterOk(s) && WaitsOk(s)
    ensures WaitsOk(Next(w, s, step))
  {
    hide ReplicaOk, ClientStep, ExecStep, FlushStep, Deliver, Answer, ReadStep, Running, Sound, AllGrowQuietly, MasterOk, Persistence.Load;
    OkInBounds(w, s);
    var t := Next(w, s, step);
    match step
    case Client(id, env, bytes) => ClientKeepsWaits(w, s, id, env, bytes);
    case ExecNext(k, env) =>
      ExecIsQuiet(s, k, env);
      QuietStep(s, t);
    case Flush =>
      FlushIsQuiet(s);
      QuietStep(s, t);
    case EndBlpop(waiter) =>
      SameIsQuiet(s.replicas);
      QuietStep(s, t);
    case Join(port, file, now) =>
      JoinIsQuiet(s, port, file, now);
      QuietStep(s, t);
    case ReadFrom(i) =>
      if i < |s.replicas| && s.replicas[i].read < |s.replicas[i].sent| {
        if s.replicas[i].read < 4 { GreetingStepKeeps(w, s, i); } else { AckStepKeeps(w, s, i); }
      } else {
        NoMessage(w, s, i);
      }
    case Arrive(i, k, env) =>
      if i < |s.replicas| && k <= |s.replicas[i].down| {
        ArriveIsQuiet(w, s, i, k, env);
        QuietStep(s, t);
      }
    case EndWait(k) => TimeoutKeeps(s, k);
  }

  lemma NoMessage(w: World, s: System, i: nat)
    requires i >= |s.replicas| || s.replicas[i].read >= |s.replicas[i].sent|
    ensures ReadStep(w, s, i) == s
  {
  }

  lemma JoinIsQuiet(s: System, port: nat, file: string, now: int)
    requires InBounds(s.replicas)
    ensures AllGrowQuietly(s.replicas, s.replicas + [Fresh(port, file, now)])
  {
    hide Acks;
  }

  lemma ArriveIsQuiet(w: World, s: System, i: nat, k: nat, env: Env)
    requires w.Valid() && ReplicasOk(w, s) && i < |s.replicas| && k <= |s.replicas[i].down|
    ensures AllGrowQuietly(s.replicas, s.replicas[i := Deliver(s.replicas[i], k, env)])
  {
    hide Aligned, Linked, Acks, Replay, Writes, AllGrowQuietly;
    var r := s.replicas[i];
    assert ReplicaOk(w, s, r);
    OkInBounds(w, s);
    DeliverKeepsAligned(w, r, k, env);
    ArriveKeepsLinked(w, s.desk.store, s.pending, s.offset, r, k, env);
    LinkedInBounds(s.desk.store, s.pending, s.offset, Deliver(r, k, env));
    OneChanges(s.replicas, i, Deliver(r, k, env));
  }

  lemma LinkedInBounds(store: Store, pending: seq<Payload>, offset: nat, r: Replica)
    requires Linked(store, pending, offset, r)
    ensures CommandsIn(r.consumed) <= |r.cmds|
  {
  }

  lemma TimeoutKeeps(s: System, k: nat)
    requires WaitsOk(s)
    ensures WaitsOk(TimeoutStep(s, k))
  {
    hide Sound, Asked;
    if k < |s.waits| {
      assert Running(s.replicas, s.waits[k]);
    }
  }

  lemma {:induction false} ReachableWaitsOk(w: World, steps: seq<Step>)
    requires w.Valid()
    ensures WaitsOk(Reach(w, steps))
  {
    hide ReplicasOk, MasterOk, WaitsOk, Next;
    if steps == [] {
      StartWaitsOk(w);
    } else {
      var before := steps[..|steps| - 1];
      ReachableOk(w, before);
      ReachableWaitsOk(w, before);
      NextKeepsWaits(w, Reach(w, before), steps[|steps| - 1]);
    }
  }

  lemma StartWaitsOk(w: World)
    ensures WaitsOk(Start(w))
  {
    hide Persistence.Load;
  }

  lemma SubsetSize(a: set<nat>, b: set<nat>)
    requires a <= b
    ensures |a| <= |b|
  {
    if a != {} {
      var x :| x in a;
      SubsetSize(a - {x}, b - {x});
    }
  }

  /** WAIT is sound: in every reachable state, the reply of a clean WAIT is at most the number of replicas that have
      consumed every write sent to them before its GETACK; each replica it counts is such a replica, and is
      counted once. */
  lemma WaitRepliesAreSound(w: World, steps: seq<Step>, k: nat)
    requires w.Valid() && k < |Reach(w, steps).replies| && Reach(w, steps).replies[k].clean
    ensures var s := Reach(w, steps);
            var reply := s.replies[k];
            && reply.listener.count == |reply.voters| <= |CaughtUpSet(s.replicas, reply)|
            && reply.voters <= CaughtUpSet(s.replicas, reply)
  {
    hide Reach, CaughtUp;
    ReachableWaitsOk(w, steps);
    var s := Reach(w, steps);
    assert Sound(s.replicas, s.replies[k]);
    SubsetSize(s.replies[k].voters, CaughtUpSet(s.replicas, s.replies[k]));
  }
}
