/** WAIT over whole runs: what may happen between its start and its answer for the answer to be right. */
module UndisturbedWaits {
  import opened Text
  import opened Resp
  import opened Commands
  import opened Dispatcher
  import opened WaitListeners
  import opened ReplicaLink
  import opened Replication
  import opened WaitSoundness
  import opened WaitExactness
  import opened WaitAnswers
  import opened Scripts
  import opened CatchingUp

  /** A client starts another WAIT, or sends an ACK itself. */
  predicate Disturbs(step: Step) {
    step.Client? && NextCommand(step.bytes).Some?
    && (NameOf(NextCommand(step.bytes).value.payload) == "wait" || IsAck(NextCommand(step.bytes).value.payload))
  }

  /** Whoever has this number is undisturbed and remembers these commands sent. */
  ghost predicate Tell(ws: seq<Wait>, serial: nat, marks: map<nat, nat>) {
    forall k :: 0 <= k < |ws| && ws[k].serial == serial ==> ws[k].clean && ws[k].marks == marks
  }

  ghost predicate BothTell(s: System, serial: nat, marks: map<nat, nat>) {
    Tell(s.waits, serial, marks) && Tell(s.replies, serial, marks)
  }

  // ---- steps that disturb nobody ------------------------------------------------------------------------------------------

  lemma {:induction false} VotesTell(waits: seq<Wait>, i: nat, ack: Option<int>, serial: nat, marks: map<nat, nat>)
    requires Tell(waits, serial, marks)
    ensures Tell(StillWaiting(waits, Some(i), ack), serial, marks) && Tell(NowResolved(waits, Some(i), ack), serial, marks)
    decreases waits
  {
    hide Resolves, Vote;
    if waits != [] {
      assert forall k :: 0 <= k < |waits[1..]| ==> waits[1..][k] == waits[k + 1];
      VotesTell(waits[1..], i, ack, serial, marks);
      VoteKeeps(waits[0], i, ack);
    }
  }

  lemma VoteKeeps(x: Wait, i: nat, ack: Option<int>)
    ensures var v := Vote(x, Some(i), ack); v.serial == x.serial && v.clean == x.clean && v.marks == x.marks
  {
  }

  lemma QuietEffects(env: Env, c: Conn, d: Blocking.Desk, p: Payload)
    requires NameOf(p) != "wait" && !IsAck(p)
    ensures Dispatch(env, c, d, p).effect == Nothing || Dispatch(env, c, d, p).effect == Registers
  {
    hide RunSimple, Lower, ExecQueue, FormatItems, Error, ArgumentError, Blocking.Block, BlpopError,
         PairReply, Ping, Subscriptions, Refusal, QUEUED;
  }

  lemma ClientTells(s: System, id: nat, env: Env, bytes: string, serial: nat, marks: map<nat, nat>)
    requires BothTell(s, serial, marks) && !Disturbs(Client(id, env, bytes))
    ensures BothTell(ClientStep(s, id, env, bytes), serial, marks)
  {
    hide Served, Dispatch, NextCommand, Tell, NameOf, IsAck, StartsScript;
    if NextCommand(bytes).Some? {
      var p := NextCommand(bytes).value.payload;
      ServedIsUntouched(s, id, env, p);
      QuietEffects(env.(connection := id), ConnOf(s, id), Cleared(s.desk), p);
    }
  }

  lemma NextTells(w: World, s: System, step: Step, serial: nat, marks: map<nat, nat>)
    requires BothTell(s, serial, marks) && !Disturbs(step)
    ensures BothTell(Next(w, s, step), serial, marks)
  {
    hide AfterRun, ClientStep, ExecStep, FlushStep, Answer, Deliver, StillWaiting, NowResolved, IsAck, Disturbs;
    match step
    case Client(id, env, bytes) => ClientTells(s, id, env, bytes, serial, marks);
    case ExecNext(k, env) => ExecIsUntouched(s, k, env);
    case Flush => FlushIsUntouched(s);
    case EndBlpop(waiter) =>
    case Join(port, file, now) =>
    case ReadFrom(i) =>
      if i < |s.replicas| && s.replicas[i].read < |s.replicas[i].sent| {
        VotesTell(s.waits, i, AckValue(s.replicas[i].sent[s.replicas[i].read]), serial, marks);
      }
    case Arrive(i, k, env) =>
    case EndWait(k) =>
  }

  // ---- from the start of a WAIT on ----------------------------------------------------------------------------------------

  lemma {:induction false} HoldersAreCounted(ws: seq<Wait>, k: nat)
    requires k < |ws|
    ensures Serials(ws)[ws[k].serial] > 0
    decreases ws
  {
    if k > 0 {
      HoldersAreCounted(ws[1..], k - 1);
      assert ws[1..][k - 1] == ws[k];
    }
  }

  /** Nobody has the next number yet. */
  lemma NextNumberIsFree(w: World, steps: seq<Step>)
    ensures var s := Reach(w, steps);
            var n := |s.waits| + |s.replies|;
            && (forall k :: 0 <= k < |s.waits| ==> s.waits[k].serial != n)
            && (forall k :: 0 <= k < |s.replies| ==> s.replies[k].serial != n)
  {
    hide Reach, Serials;
    var s := Reach(w, steps);
    EveryWaitIsAnsweredOnce(w, steps, |s.waits| + |s.replies|);
    forall k | 0 <= k < |s.waits| ensures s.waits[k].serial != |s.waits| + |s.replies| { HoldersAreCounted(s.waits, k); }
    forall k | 0 <= k < |s.replies| ensures s.replies[k].serial != |s.waits| + |s.replies| { HoldersAreCounted(s.replies, k); }
  }

  /** How many commands each registered replica has been sent. */
  function MarksOf(rs: seq<Replica>): map<nat, nat> { map i: nat | 0 <= i < |rs| && rs[i].greeted == 5 :: |rs[i].cmds| }

  lemma NothingIsStaler(rs: seq<Replica>, ns: seq<Replica>, captured: nat)
    requires NothingWritten(rs, ns) && NoStaleAck(rs, captured)
    ensures NoStaleAck(ns, captured)
  {
    hide NoneReaches, Acks;
    forall i | 0 <= i < |ns| && Attached(ns[i]) ensures NoneReaches(captured, Outstanding(ns[i])) {
      assert Outstanding(ns[i]) == Outstanding(rs[i]);
    }
  }

  lemma AskingTells(u: System, required: Option<int>)
    requires ReplicaCount(u) > 0 && u.offset > 0 && NoStaleAck(u.replicas, u.offset)
    requires var n := |u.waits| + |u.replies|;
             && (forall k :: 0 <= k < |u.waits| ==> u.waits[k].serial != n)
             && (forall k :: 0 <= k < |u.replies| ==> u.replies[k].serial != n)
    ensures BothTell(WaitStep(u, required), |u.waits| + |u.replies|, MarksOf(u.replicas))
  {
    hide NoStaleAck, WriteAll, ReplicaCount;
    assert (map i | i in AttachedSet(u.replicas) :: |u.replicas[i].cmds|) == MarksOf(u.replicas);
  }

  lemma StartTells(w: World, steps: seq<Step>, step: Step, required: Option<int>)
    requires StartsWait(Reach(w, steps), step, required)
    requires NoStaleAck(Reach(w, steps).replicas, Reach(w, steps).offset)
    ensures var s := Reach(w, steps);
            BothTell(Reach(w, steps + [step]), |s.waits| + |s.replies|, MarksOf(s.replicas))
  {
    hide Reach, Served, ReactionOf, Printed, NextCommand, NoStaleAck, BothTell, WaitStep;
    var s := Reach(w, steps);
    var p := NextCommand(step.bytes).value.payload;
    ReachNext(w, steps, step);
    WaitIsServed(s, step.id, step.env, p, required);
    NextNumberIsFree(w, steps);
    var u := Served(s, step.id, step.env, p);
    NothingIsStaler(s.replicas, u.replicas, s.offset);
    AskingTells(u, required);
    assert MarksOf(u.replicas) == MarksOf(s.replicas);
  }

  lemma {:induction false} RunTells(w: World, steps: seq<Step>, more: seq<Step>, serial: nat, marks: map<nat, nat>)
    requires BothTell(Reach(w, steps), serial, marks) && forall j :: 0 <= j < |more| ==> !Disturbs(more[j])
    ensures BothTell(Reach(w, steps + more), serial, marks)
    decreases more
  {
    hide Reach, Next, BothTell, Disturbs;
    if more == [] {
      assert steps + more == steps;
    } else {
      NextTells(w, Reach(w, steps), more[0], serial, marks);
      ReachNext(w, steps, more[0]);
      assert forall j :: 0 <= j < |more[1..]| ==> more[1..][j] == more[j + 1];
      RunTells(w, steps + [more[0]], more[1..], serial, marks);
      assert steps + more == steps + [more[0]] + more[1..];
    }
  }

  /** Safety of WAIT over whole runs. In any reachable state let a client start a WAIT while no ACK that is still on
      its way reaches the offset of the master, and let anything happen from then on but another WAIT and ACKs sent by
      clients. When this WAIT is answered, its answer is at most the number of replicas that were registered when it
      started and have consumed every write sent to them by then. */
  lemma UndisturbedWaitIsSound(w: World, steps: seq<Step>, step: Step, required: Option<int>, more: seq<Step>, k: nat)
    requires w.Valid() && StartsWait(Reach(w, steps), step, required)
    requires NoStaleAck(Reach(w, steps).replicas, Reach(w, steps).offset)
    requires forall j :: 0 <= j < |more| ==> !Disturbs(more[j])
    requires var s, end := Reach(w, steps), Reach(w, steps + [step] + more);
             k < |end.replies| && end.replies[k].serial == |s.waits| + |s.replies|
    ensures var s, end := Reach(w, steps), Reach(w, steps + [step] + more);
            end.replies[k].listener.count
            <= |set i: nat | i < |s.replicas| && s.replicas[i].greeted == 5
                             && i < |end.replicas| && CaughtUp(end.replicas[i], |s.replicas[i].cmds|)|
  {
    hide Reach, StartsWait, NoStaleAck, CaughtUp, Disturbs;
    StartTells(w, steps, step, required);
    var s, end := Reach(w, steps), Reach(w, steps + [step] + more);
    RunTells(w, steps + [step], more, |s.waits| + |s.replies|, MarksOf(s.replicas));
    WaitRepliesAreSound(w, steps + [step] + more, k);
    assert CaughtUpSet(end.replicas, end.replies[k])
        == set i: nat | i < |s.replicas| && s.replicas[i].greeted == 5
                        && i < |end.replicas| && CaughtUp(end.replicas[i], |s.replicas[i].cmds|);
  }
}
