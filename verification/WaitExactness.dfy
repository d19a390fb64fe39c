/** Exactly when a WAIT counts a replica twice, and runs on which it does. */
module WaitExactness {
  import opened Text
  import opened Resp
  import opened ReplicaStream
  import opened Commands
  import opened Dispatcher
  import opened Propagation
  import opened ReplicaLink
  import opened Offsets
  import opened WaitListeners
  import opened Scripts
  import opened Replication
  import opened WaitSoundness
  import opened CatchingUp
  import Blocking

  // ---- one listener hears the ACKs of one replica --------------------------------------------------------------

  /** The listener after these ACKs; once it has resolved it hears no more. */
  function Tallied(l: Listener, acks: seq<Payload>): Listener
    decreases acks
  {
    if acks == [] then l
    else if Resolves(l, AckValue(acks[0])) then Hear(l, AckValue(acks[0]))
    else Tallied(Hear(l, AckValue(acks[0])), acks[1..])
  }

  predicate Settles(l: Listener, acks: seq<Payload>)
    decreases acks
  {
    acks != [] && (Resolves(l, AckValue(acks[0])) || Settles(Hear(l, AckValue(acks[0])), acks[1..]))
  }

  lemma {:induction false} TalliedOneMore(l: Listener, acks: seq<Payload>, p: Payload)
    ensures Settles(l, acks) ==> Settles(l, acks + [p]) && Tallied(l, acks + [p]) == Tallied(l, acks)
    ensures !Settles(l, acks) ==>
              && Tallied(l, acks + [p]) == Hear(Tallied(l, acks), AckValue(p))
              && (Settles(l, acks + [p]) <==> Resolves(Tallied(l, acks), AckValue(p)))
    decreases acks
  {
    hide AckValue, Resolves, Hear;
    if acks == [] {
      assert acks + [p] == [p] && [p][1..] == [];
    } else {
      TalliedOneMore(Hear(l, AckValue(acks[0])), acks[1..], p);
      assert (acks + [p])[1..] == acks[1..] + [p];
    }
  }

  /** A replica's ACKs tell ascending offsets, none above all the bytes it was sent. */
  lemma {:induction false} AcksAscend(ps: seq<Payload>)
    ensures forall j :: 0 <= j < |Acks(ps)| ==> AckValue(Acks(ps)[j]).Some? && AckValue(Acks(ps)[j]).value <= CommandBytes(ps)
    ensures forall j, k :: 0 <= j <= k < |Acks(ps)| ==> AckValue(Acks(ps)[j]).value <= AckValue(Acks(ps)[k]).value
  {
    hide ParseAnyInt, DecInt, IsGetAck, ToRESP;
    if ps != [] {
      var before := ps[..|ps| - 1];
      AcksAscend(before);
      ParseAnyDecInt(CommandBytes(before));
    }
  }

  predicate WantsMoreThanOne(l: Listener) { l.required.Some? ==> l.required.value > 1 }

  /** The stale ACKs first, the WAIT's own last: more than one is counted exactly when a stale one reaches the
      captured offset and the WAIT does not already end with the first. */
  lemma {:induction false} CountsTwiceExactly(l: Listener, stale: seq<Payload>, own: Payload)
    requires l.count == 0
    requires forall j :: 0 <= j < |stale| ==>
               AckValue(stale[j]).Some? && AckValue(own).Some? && AckValue(stale[j]).value <= AckValue(own).value
    ensures Tallied(l, stale + [own]).count > 1 <==> !NoneReaches(l.captured, stale) && WantsMoreThanOne(l)
    decreases stale
  {
    hide AckValue;
    if stale == [] {
      assert stale + [own] == [own] && [own][1..] == [];
    } else {
      assert (stale + [own])[1..] == stale[1..] + [own];
      var next := Hear(l, AckValue(stale[0]));
      if !Reaches(l.captured, AckValue(stale[0])) {
        CountsTwiceExactly(l, stale[1..], own);
        assert NoneReaches(l.captured, stale) <==> NoneReaches(l.captured, stale[1..]) by { NoneReachesTail(l.captured, stale); }
      } else if !Resolves(l, AckValue(stale[0])) {
        OwnIsHeard(next, stale[1..], own);
      }
    }
  }

  lemma NoneReachesTail(captured: nat, acks: seq<Payload>)
    requires acks != []
    ensures NoneReaches(captured, acks) <==> !Reaches(captured, AckValue(acks[0])) && NoneReaches(captured, acks[1..])
  {
    hide Reaches, AckValue;
    assert forall j :: 0 <= j < |acks[1..]| ==> acks[1..][j] == acks[j + 1];
    if !Reaches(captured, AckValue(acks[0])) && NoneReaches(captured, acks[1..]) {
      forall j | 0 <= j < |acks| ensures !Reaches(captured, AckValue(acks[j])) {
        if j > 0 { assert acks[j] == acks[1..][j - 1]; }
      }
    }
  }

  lemma {:induction false} OwnIsHeard(l: Listener, stale: seq<Payload>, own: Payload)
    requires Reaches(l.captured, AckValue(own))
    ensures Tallied(l, stale + [own]).count >= l.count + 1
    decreases stale
  {
    hide AckValue;
    if stale == [] {
      assert stale + [own] == [own] && [own][1..] == [];
    } else {
      assert (stale + [own])[1..] == stale[1..] + [own];
      OwnIsHeard(Hear(l, AckValue(stale[0])), stale[1..], own);
    }
  }

  // ---- the same on runs ------------------------------------------------------------------------------------------

  /** The WAIT of this number, which asked these replicas, with this listener. */
  predicate IsWait(wait: Wait, serial: nat, asked: set<nat>, l: Listener) {
    wait.serial == serial && wait.marks.Keys == asked && wait.listener == l
  }

  /** That WAIT has heard these ACKs: it is still the last one waiting, or has answered. */
  ghost predicate Tells(s: System, serial: nat, asked: set<nat>, l: Listener, heard: seq<Payload>) {
    if Settles(l, heard) then
      exists k :: 0 <= k < |s.replies| && IsWait(s.replies[k], serial, asked, Tallied(l, heard))
    else
      s.waits != [] && IsWait(s.waits[|s.waits| - 1], serial, asked, Tallied(l, heard))
  }

  lemma {:induction false} LastHears(waits: seq<Wait>, who: Option<nat>, ack: Option<int>)
    requires waits != []
    ensures var last := waits[|waits| - 1];
            var still, done := StillWaiting(waits, who, ack), NowResolved(waits, who, ack);
            if Resolves(last.listener, ack) then done != [] && done[|done| - 1] == Vote(last, who, ack)
            else still != [] && still[|still| - 1] == Vote(last, who, ack)
    decreases waits
  {
    hide Vote, Resolves;
    if |waits| > 1 {
      LastHears(waits[1..], who, ack);
    } else {
      assert waits[1..] == [];
    }
  }

  lemma VotesTell(s: System, t: System, i: nat, serial: nat, asked: set<nat>, l: Listener, heard: seq<Payload>, p: Payload)
    requires Tells(s, serial, asked, l, heard)
    requires t.waits == Votes(s, Some(i), AckValue(p)).waits && t.replies == Votes(s, Some(i), AckValue(p)).replies
    ensures Tells(t, serial, asked, l, heard + [p])
  {
    hide AckValue, StillWaiting, NowResolved, Tallied, Settles, Resolves, Hear;
    TalliedOneMore(l, heard, p);
    if Settles(l, heard) {
      var k :| 0 <= k < |s.replies| && IsWait(s.replies[k], serial, asked, Tallied(l, heard));
      assert t.replies[k] == s.replies[k];
    } else {
      LastHears(s.waits, Some(i), AckValue(p));
      var done := NowResolved(s.waits, Some(i), AckValue(p));
      if Settles(l, heard + [p]) { assert t.replies[|s.replies| + |done| - 1] == done[|done| - 1]; }
    }
  }

  /** A registered replica that has received everything has answered every GETACK. */
  lemma DeliveredAcks(w: World, r: Replica)
    requires w.Valid() && Aligned(w, r) && Attached(r)
    ensures var n := Deliver(r, |r.down|, ENV0);
            && Aligned(w, n) && Attached(n) && n.cmds == r.cmds && n.read == r.read >= 4 && |n.sent| == 4 + |Acks(r.cmds)|
  {
    hide Deliver, Pending, ControlAt, AllSendable, Acks;
    DeliverAll(w, r);
    assert r.cmds[..|r.cmds|] == r.cmds;
  }

  /** The master reads a message of such a replica: its next ACK, if there is one. */
  lemma ReadVotes(w: World, s: System, i: nat)
    requires i < |s.replicas| && Aligned(w, s.replicas[i]) && Attached(s.replicas[i])
    requires s.replicas[i].read >= 4 && |s.replicas[i].sent| == 4 + |Acks(s.replicas[i].cmds)|
    ensures var r, t := s.replicas[i], ReadStep(w, s, i);
            && i < |t.replicas| && Attached(t.replicas[i]) && t.replicas[i].cmds == r.cmds
            && if AcksRead(r) < |Acks(r.cmds)| then
                 && AcksRead(t.replicas[i]) == AcksRead(r) + 1
                 && t.waits == Votes(s, Some(i), AckValue(Acks(r.cmds)[AcksRead(r)])).waits
                 && t.replies == Votes(s, Some(i), AckValue(Acks(r.cmds)[AcksRead(r)])).replies
               else AcksRead(t.replicas[i]) == AcksRead(r) && t.waits == s.waits && t.replies == s.replies
  {
    hide Answer, Aligned, Acks, AckValue, IsAck, StillWaiting, NowResolved;
    var r := s.replicas[i];
    if r.read < |r.sent| {
      AnswerKeepsAligned(w, s.desk.store, s.pending, s.offset, r);
      LateMessagesAreAcks(w, r);
      NextAck(w, r);
    }
  }

  /** One round with a registered replica. */
  lemma RoundVotes(w: World, steps: seq<Step>, i: nat)
    requires w.Valid() && i < |Reach(w, steps).replicas| && Attached(Reach(w, steps).replicas[i])
    ensures var s := Reach(w, steps);
            var t := Reach(w, steps + [ArriveAll(s, i)] + [ReadFrom(i)]);
            var r := s.replicas[i];
            && i < |t.replicas| && Attached(t.replicas[i]) && t.replicas[i].cmds == r.cmds
            && if AcksRead(r) < |Acks(r.cmds)| then
                 && AcksRead(t.replicas[i]) == AcksRead(r) + 1
                 && t.waits == Votes(s, Some(i), AckValue(Acks(r.cmds)[AcksRead(r)])).waits
                 && t.replies == Votes(s, Some(i), AckValue(Acks(r.cmds)[AcksRead(r)])).replies
               else AcksRead(t.replicas[i]) == AcksRead(r) && t.waits == s.waits && t.replies == s.replies
  {
    hide Reach, ReadStep, Deliver, Aligned, Acks, AckValue, StillWaiting, NowResolved;
    var s := Reach(w, steps);
    var mid := steps + [ArriveAll(s, i)];
    Delivered(w, steps, i);
    DeliveredAcks(w, s.replicas[i]);
    ReachNext(w, mid, ReadFrom(i));
    ReadVotes(w, Reach(w, mid), i);
  }

  /** Rounds with this replica alone make the WAIT hear exactly its ACKs, in order. */
  lemma {:induction false} RoundsTell(w: World, steps: seq<Step>, i: nat, n: nat, serial: nat, asked: set<nat>, l: Listener,
                                   from: nat)
    requires w.Valid() && i < |Reach(w, steps).replicas| && Attached(Reach(w, steps).replicas[i])
    requires var s, r := Reach(w, steps), Reach(w, steps).replicas[i];
             from <= AcksRead(r) <= |Acks(r.cmds)| <= AcksRead(r) + n && Tells(s, serial, asked, l, Acks(r.cmds)[from..AcksRead(r)])
    ensures Tells(Reach(w, Rounds(w, steps, i, n)), serial, asked, l, Acks(Reach(w, steps).replicas[i].cmds)[from..])
    decreases n
  {
    hide Reach, Deliver, Acks, Tells, AckValue, StillWaiting, NowResolved;
    var s := Reach(w, steps);
    var acks, read := Acks(s.replicas[i].cmds), AcksRead(s.replicas[i]);
    if n == 0 {
      Delivered(w, steps, i);
      assert acks[from..read] == acks[from..];
      SameWaits(s, Reach(w, steps + [ArriveAll(s, i)]), serial, asked, l, acks[from..]);
    } else {
      var next := steps + [ArriveAll(s, i)] + [ReadFrom(i)];
      RoundVotes(w, steps, i);
      if read < |acks| {
        VotesTell(s, Reach(w, next), i, serial, asked, l, acks[from..read], acks[read]);
        assert acks[from..read] + [acks[read]] == acks[from..read + 1];
      } else {
        SameWaits(s, Reach(w, next), serial, asked, l, acks[from..read]);
      }
      RoundsTell(w, next, i, n - 1, serial, asked, l, from);
    }
  }

  lemma SameWaits(s: System, t: System, serial: nat, asked: set<nat>, l: Listener, heard: seq<Payload>)
    requires Tells(s, serial, asked, l, heard) && t.waits == s.waits && t.replies == s.replies
    ensures Tells(t, serial, asked, l, heard)
  {
    hide Settles, Tallied;
  }

  /** The step is a client's WAIT that does not answer at once. */
  predicate StartsWait(s: System, step: Step, required: Option<int>) {
    && step.Client? && NextCommand(step.bytes).Some?
    && ReactionOf(s, step.id, step.env, NextCommand(step.bytes).value.payload).effect == Waits(required)
    && ReplicaCount(s) > 0 && s.offset > 0
  }

  lemma WaitsChangeNothing(env: Env, c: Conn, d: Blocking.Desk, p: Payload, required: Option<int>)
    requires Dispatch(env, c, d, p).effect == Waits(required)
    ensures Dispatch(env, c, d, p).desk == d
  {
    hide RunSimple, ExecQueue, Blocking.Block, BlpopError, PairReply, FormatItems, Refusal, Ping, IsAck, KindOf;
  }

  /** The same connections, with the same commands written to them and the same messages read. */
  ghost predicate NothingWritten(rs: seq<Replica>, ns: seq<Replica>) {
    |rs| == |ns|
    && forall i :: 0 <= i < |rs| ==>
         ns[i].cmds == rs[i].cmds && ns[i].read == rs[i].read && (Attached(ns[i]) <==> Attached(rs[i]))
  }

  /** A command that propagates nothing while it runs. */
  lemma NothingGoesOut(s: System, e: Blocking.Desk, own: bool, lossless: bool)
    requires Split(e.propagated, own).0 == []
    ensures var t := AfterRun(s, e, own, lossless);
            && t == s.(desk := e, pending := s.pending + Split(e.propagated, own).1, replicas := t.replicas)
            && NothingWritten(s.replicas, t.replicas)
  {
    hide Split;
    assert Printed([]) == "";
    assert forall cmds: seq<Payload> :: cmds + [] == cmds;
  }

  /** Dispatching a WAIT writes nothing, runs nothing, and leaves the store alone. */
  lemma WaitIsServed(s: System, id: nat, env: Env, p: Payload, required: Option<int>)
    requires ReactionOf(s, id, env, p).effect == Waits(required)
    ensures var t := Served(s, id, env, p);
            && t == s.(desk := t.desk, clients := t.clients, replicas := t.replicas) && t.desk.store == s.desk.store
            && NothingWritten(s.replicas, t.replicas) && AttachedSet(t.replicas) == AttachedSet(s.replicas)
  {
    hide Dispatch, Lossless, AfterRun, PropagatesOwn;
    WaitsChangeNothing(env.(connection := id), ConnOf(s, id), Cleared(s.desk), p, required);
    var r := ReactionOf(s, id, env, p);
    NothingGoesOut(s.(clients := s.clients[id := r.conn], running := s.running + Started(s, id, p)),
                   r.desk, PropagatesOwn(ConnOf(s, id), p, r.reply), LosslessHere(s, id, env, p));
    assert s.running + [] == s.running && s.pending + [] == s.pending;
  }

  /** What starting a WAIT does: every registered replica gets a GETACK behind the same commands. */
  lemma WaitStarts(w: World, steps: seq<Step>, step: Step, i: nat, required: Option<int>)
    requires w.Valid() && i < |Reach(w, steps).replicas| && Attached(Reach(w, steps).replicas[i])
    requires StartsWait(Reach(w, steps), step, required)
    ensures var s, t := Reach(w, steps), Reach(w, steps + [step]);
            && i < |t.replicas| && Attached(t.replicas[i]) && t.replicas[i].cmds == s.replicas[i].cmds + [GETACK]
            && AcksRead(t.replicas[i]) == AcksRead(s.replicas[i])
            && t.waits != []
            && IsWait(t.waits[|t.waits| - 1], |s.waits| + |s.replies|, AttachedSet(s.replicas), Listener(s.offset, required, 0))
            && SameMaster(s, t.(desk := s.desk, clients := s.clients)) && t.desk.store == s.desk.store
  {
    hide Reach, Served, ReactionOf, Printed, NoStaleAck, Overlapped, NextCommand;
    var s := Reach(w, steps);
    ReachNext(w, steps, step);
    var p := NextCommand(step.bytes).value.payload;
    WaitIsServed(s, step.id, step.env, p, required);
    var served := Served(s, step.id, step.env, p);
    assert i in AttachedSet(served.replicas);
  }

  /** Counted at most once, exactly. From any reachable state let a client start a WAIT, and then let one registered
      replica be served alone until all its ACKs have been read. The WAIT has then counted it more than
      once if and only if an ACK that was still unread when the WAIT started reaches the captured offset, and the
      WAIT wants more than one replica. */
  lemma CountedAtMostOnceExactly(w: World, steps: seq<Step>, step: Step, i: nat, required: Option<int>, n: nat)
    requires w.Valid() && i < |Reach(w, steps).replicas| && Attached(Reach(w, steps).replicas[i])
    requires StartsWait(Reach(w, steps), step, required) && n > |Outstanding(Reach(w, steps).replicas[i])|
    ensures var s, end := Reach(w, steps), Reach(w, Rounds(w, steps + [step], i, n));
            var r, l := s.replicas[i], Listener(s.offset, required, 0);
            var own := ["REPLCONF", "ACK", DecInt(CommandBytes(r.cmds))];
            && Tells(end, |s.waits| + |s.replies|, AttachedSet(s.replicas), l, Outstanding(r) + [own])
            && (Tallied(l, Outstanding(r) + [own]).count <= 1
                <==> NoneReaches(s.offset, Outstanding(r)) || (required.Some? && required.value <= 1))
  {
    hide Reach, Acks, AckValue, DecInt, CommandBytes, Tells, Rounds, StartsWait, Tallied, ParseAnyInt, Aligned, AttachedSet;
    var s, t := Reach(w, steps), Reach(w, steps + [step]);
    var r, l := s.replicas[i], Listener(s.offset, required, 0);
    var own := ["REPLCONF", "ACK", DecInt(CommandBytes(r.cmds))];
    WaitStarts(w, steps, step, i, required);
    AlignedReplica(w, steps, i);
    ReadIsBounded(w, r);
    AckAfter(r.cmds);
    var acks, from := Acks(t.replicas[i].cmds), AcksRead(r);
    assert acks[from..] == Outstanding(r) + [own];
    var serial := |s.waits| + |s.replies|;
    NothingHeard(t, serial, AttachedSet(s.replicas), l);
    assert acks[from..from] == [];
    RoundsTell(w, steps + [step], i, n, serial, AttachedSet(s.replicas), l, from);
    AcksAscend(t.replicas[i].cmds);
    forall j | 0 <= j < |Outstanding(r)|
      ensures AckValue(Outstanding(r)[j]).Some? && AckValue(own).Some? && AckValue(Outstanding(r)[j]).value <= AckValue(own).value
    {
      assert Outstanding(r)[j] == acks[from + j] && own == acks[|acks| - 1];
    }
    CountsTwiceExactly(l, Outstanding(r), own);
  }

  lemma NothingHeard(s: System, serial: nat, asked: set<nat>, l: Listener)
    requires s.waits != [] && IsWait(s.waits[|s.waits| - 1], serial, asked, l)
    ensures Tells(s, serial, asked, l, [])
  {
  }

  lemma ReadIsBounded(w: World, r: Replica)
    requires Aligned(w, r)
    ensures AcksRead(r) <= |Acks(r.cmds)|
  {
    hide Aligned, Acks;
    AlignedFacts(w, r);
    AnsweredAcks(w, r);
    var done := CommandsIn(r.consumed);
    assert r.cmds == r.cmds[..done] + r.cmds[done..];
    AcksAppend(r.cmds[..done], r.cmds[done..]);
  }

  lemma AnsweredAcks(w: World, r: Replica)
    requires Aligned(w, r)
    ensures CommandsIn(r.consumed) <= |r.cmds| && AcksRead(r) <= |Acks(r.cmds[..CommandsIn(r.consumed)])|
  {
    hide Acks, Pending, ControlAt, AllSendable;
  }
}
