/** Runs on which a WAIT answers with more than the replicas that have caught up. */
module WaitRuns {
  import opened Text
  import opened Resp
  import opened Commands
  import opened Dispatcher
  import opened Propagation
  import opened ReplicaLink
  import opened Offsets
  import opened WaitListeners
  import opened Scripts
  import opened Replication
  import opened WaitSoundness
  import opened CatchingUp
  import opened WaitExactness
  import Blocking
  import Convergence
  import Persistence = Rdb

  const WRITE: Payload := ["SET", "k", "v"]
  const WAIT2: Payload := ["WAIT", "2", "0"]

  /** One replica has registered at offset 0, and these commands have been sent to it; nothing is pending, and the clients
      1 and 2 have no open transaction. */
  ghost predicate OneReplica(s: System, cmds: seq<Payload>) {
    && |s.replicas| == 1 && Attached(s.replicas[0]) && s.replicas[0].cmds == cmds && AcksRead(s.replicas[0]) == 0
    && s.pending == [] && ConnOf(s, 1) == FRESH && ConnOf(s, 2) == FRESH
  }

  /** One replica joins and registers. */
  ghost function Joined(w: World, port: nat): seq<Step> { Rounds(w, [Join(port, "", 0)], 0, 4) }

  lemma Registered(w: World, port: nat)
    requires w.Valid()
    ensures var s := Reach(w, Joined(w, port)); OneReplica(s, []) && s.offset == 0
  {
    hide Deliver, Aligned, Rounds, Linked, Persistence.Load;
    var join := Join(port, "", 0);
    var joined := Reach(w, [join]);
    assert [join] == [] + [join];
    ReachNext(w, [], join);
    assert joined == Start(w).(replicas := [Fresh(port, "", 0)]) by { assert Reach(w, []) == Start(w); }
    RoundsComplete(w, [join], 0, 4);
    AlignedReplica(w, Joined(w, port), 0);
    NothingAcked(w, Reach(w, Joined(w, port)).replicas[0]);
  }

  lemma NothingAcked(w: World, r: Replica)
    requires Aligned(w, r) && r.cmds == []
    ensures AcksRead(r) == 0
  {
    hide ControlAt, Pending;
    assert Acks([]) == [];
    ReadIsBounded(w, r);
  }

  lemma PlainCommands()
    ensures AllPlain(WRITE) && AllPlain(WAIT2)
  {
    hide ParseInt;
    assert WAIT2[1] == Dec(2) && WAIT2[2] == Dec(0);
  }

  lemma Parses(p: Payload)
    requires AllPlain(p)
    ensures NextCommand(ToRESP(p)) == Some(Parsed(p, |ToRESP(p)|))
  {
    hide AllPlain, NextCommand, ToRESP;
    PrintThenParse(p, "");
    assert ToRESP(p) + "" == ToRESP(p);
  }

  lemma WriteReaction(env: Env, d: Blocking.Desk)
    ensures var r := Dispatch(env, FRESH, d, WRITE);
            && r.conn == FRESH && r.effect == Nothing && r.desk.propagated == d.propagated + [WRITE]
            && PropagatesOwn(FRESH, WRITE, r.reply)
  {
    assert Lower("SET") == "set" && WRITE[1..] == ["k", "v"] && ["k", "v"][2..] == [];
    assert OK[0] == '+';
  }

  lemma WaitReaction(env: Env, d: Blocking.Desk)
    ensures Dispatch(env, FRESH, d, WAIT2) == Reaction(FRESH, d, None, Waits(Some(2)))
  {
    hide ParseInt;
    ParseDec(2);
    assert WAIT2[1] == Dec(2) && WAIT2[1..][0] == WAIT2[1];
    assert Lower("WAIT") == "wait" && |WAIT2[1..]| == 2;
  }

  /** A client's SET, and its propagation. */
  function Writing(id: nat): seq<Step> { [Client(id, ENV0, ToRESP(WRITE)), Flush] }

  lemma WriteIsServed(s: System, id: nat)
    requires (id == 1 || id == 2) && OneReplica(s, []) && s.offset == 0
    ensures var t := ClientStep(s, id, ENV0, ToRESP(WRITE));
            && t == s.(desk := t.desk, clients := s.clients[id := FRESH], pending := [WRITE], replicas := t.replicas)
            && |t.replicas| == 1 && Attached(t.replicas[0]) && t.replicas[0].cmds == [] && AcksRead(t.replicas[0]) == 0
  {
    hide Dispatch, Lossless, ToRESP, WRITE, NextCommand, AllPlain, PropagatesOwn, AfterRun;
    PlainCommands();
    Parses(WRITE);
    WriteReaction(ENV0.(connection := id), Cleared(s.desk));
    var r := ReactionOf(s, id, ENV0, WRITE);
    assert r.desk.propagated == [WRITE] && [WRITE][..0] == [];
    NothingGoesOut(s.(clients := s.clients[id := r.conn], running := s.running + Started(s, id, WRITE)),
                   r.desk, PropagatesOwn(ConnOf(s, id), WRITE, r.reply), LosslessHere(s, id, ENV0, WRITE));
    assert s.running + [] == s.running && [] + [WRITE] == [WRITE];
  }

  lemma Wrote(w: World, steps: seq<Step>, id: nat)
    requires w.Valid() && (id == 1 || id == 2) && OneReplica(Reach(w, steps), []) && Reach(w, steps).offset == 0
    ensures var s := Reach(w, steps + Writing(id));
            OneReplica(s, [WRITE]) && s.offset == CommandBytes([WRITE]) > 0
  {
    hide Reach, ClientStep, ToRESP, WRITE;
    var s, step := Reach(w, steps), Client(id, ENV0, ToRESP(WRITE));
    ReachNext(w, steps, step);
    WriteIsServed(s, id);
    ReachNext(w, steps + [step], Flush);
    assert steps + Writing(id) == (steps + [step]) + [Flush];
    var t := Reach(w, steps + [step]);
    assert 0 in AttachedSet(t.replicas);
    assert [] + [WRITE] == [WRITE];
    OneCommandBytes(WRITE);
  }

  lemma OneCommandBytes(p: Payload)
    ensures CommandBytes([p]) == |ToRESP(p)| == |Printed([p])| > 0
  {
    hide ToRESP;
    assert [p][..0] == [] && [p][1..] == [];
    assert ToRESP(p) + "" == ToRESP(p);
  }

  /** A WAIT for two replicas, from a client without a transaction. */
  lemma Asks(w: World, steps: seq<Step>, cmds: seq<Payload>)
    requires w.Valid() && OneReplica(Reach(w, steps), cmds) && Reach(w, steps).offset > 0
    ensures var step := Client(1, ENV0, ToRESP(WAIT2));
            && StartsWait(Reach(w, steps), step, Some(2))
            && OneReplica(Reach(w, steps + [step]), cmds + [GETACK])
            && Reach(w, steps + [step]).offset == Reach(w, steps).offset
            && AttachedSet(Reach(w, steps).replicas) == {0}
  {
    hide Reach, Dispatch, Lossless, ToRESP, NextCommand, AllPlain, NoStaleAck, Printed;
    var s, step := Reach(w, steps), Client(1, ENV0, ToRESP(WAIT2));
    PlainCommands();
    Parses(WAIT2);
    WaitReaction(ENV0.(connection := 1), Cleared(s.desk));
    assert AttachedSet(s.replicas) == {0};
    WaitStarts(w, steps, step, 0, Some(2));
    ReachNext(w, steps, step);
    ClientsAfterWait(s, step);
  }

  lemma ClientsAfterWait(s: System, step: Step)
    requires step == Client(1, ENV0, ToRESP(WAIT2)) && NextCommand(step.bytes) == Some(Parsed(WAIT2, |ToRESP(WAIT2)|))
    requires ReactionOf(s, 1, ENV0, WAIT2).effect == Waits(Some(2)) && ReactionOf(s, 1, ENV0, WAIT2).conn == FRESH
    requires ConnOf(s, 2) == FRESH
    ensures ConnOf(ClientStep(s, 1, ENV0, step.bytes), 1) == FRESH && ConnOf(ClientStep(s, 1, ENV0, step.bytes), 2) == FRESH
  {
    hide Dispatch, Lossless, ToRESP, NextCommand, NoStaleAck, Printed, WriteAll, ReactionOf;
  }

  lemma TwoReachingAcksSettle(captured: nat, a: Payload, b: Payload)
    requires Reaches(captured, AckValue(a)) && Reaches(captured, AckValue(b))
    ensures var l := Listener(captured, Some(2), 0); Settles(l, [a] + [b]) && Tallied(l, [a] + [b]).count == 2
  {
    hide AckValue;
    var l := Listener(captured, Some(2), 0);
    assert [a][1..] == [];
    TalliedOneMore(l, [a], b);
  }

  lemma FewAsked(rs: seq<Replica>, wait: Wait)
    requires wait.marks.Keys == {0}
    ensures |CaughtUpSet(rs, wait)| <= 1
  {
    hide CaughtUp;
    SubsetSize(CaughtUpSet(rs, wait), {0});
  }

  /** Two overlapping WAITs and one replica: the replica answers both GETACKs, and the second WAIT, which asked for
      two replicas, counts both answers. */
  lemma OverlapExceeds(w: World, port: nat) returns (steps: seq<Step>, k: nat)
    requires w.Valid()
    ensures var s := Reach(w, steps);
            k < |s.replies| && s.replies[k].listener.count > |CaughtUpSet(s.replicas, s.replies[k])|
  {
    hide Reach, Dispatch, ToRESP, WRITE, WAIT2, Acks, AckValue, CommandBytes, DecInt, Rounds, Settles, Tallied, CaughtUpSet, StartsWait, ParseAnyInt;
    var step := Client(1, ENV0, ToRESP(WAIT2));
    var ready := Joined(w, port);
    Registered(w, port);
    Wrote(w, ready, 1);
    var wrote := ready + Writing(1);
    Asks(w, wrote, [WRITE]);
    var first := wrote + [step];
    Asks(w, first, [WRITE] + [GETACK]);

    var s, captured := Reach(w, first), Reach(w, first).offset;
    var stale, own := ["REPLCONF", "ACK", DecInt(CommandBytes([WRITE]))], ["REPLCONF", "ACK", DecInt(CommandBytes([WRITE] + [GETACK]))];
    NoAcksInNothing();
    WritesHaveNoAck();
    AckAfter([WRITE]);
    assert Outstanding(s.replicas[0]) == [stale];
    StaleReaches([WRITE], captured);
    CountedAtMostOnceExactly(w, first, step, 0, Some(2), 2);
    TwoReachingAcksSettle(captured, stale, own);
    steps := Rounds(w, first + [step], 0, 2);
    k :| 0 <= k < |Reach(w, steps).replies|
         && Reach(w, steps).replies[k].listener.count == 2 && Reach(w, steps).replies[k].marks.Keys == {0};
    FewAsked(Reach(w, steps).replicas, Reach(w, steps).replies[k]);
  }

  lemma WritesHaveNoAck()
    ensures Acks([WRITE]) == []
  {
    hide CommandBytes, DecInt;
    assert Lower("SET") == "set";
    assert [WRITE][..0] == [];
  }

  /** The answers to a GETACK that follows these commands, and to the next one. */
  lemma StaleReaches(cmds: seq<Payload>, captured: nat)
    requires captured == CommandBytes(cmds)
    ensures Reaches(captured, AckValue(["REPLCONF", "ACK", DecInt(CommandBytes(cmds))]))
    ensures Reaches(captured, AckValue(["REPLCONF", "ACK", DecInt(CommandBytes(cmds + [GETACK]))]))
  {
    hide CommandBytes, ParseAnyInt, DecInt;
    ParseAnyDecInt(CommandBytes(cmds));
    ParseAnyDecInt(CommandBytes(cmds + [GETACK]));
    MoreBytes(cmds);
  }

  lemma MoreBytes(cmds: seq<Payload>)
    ensures CommandBytes(cmds + [GETACK]) >= CommandBytes(cmds)
  {
    assert (cmds + [GETACK])[..|cmds|] == cmds;
  }

  // ---- ACKs that no replica sent -------------------------------------------------------------------------------

  /** An ACK that an ordinary client sends is heard by every running WAIT. */
  lemma ClientAckIsHeard(s: System, id: nat, n: nat)
    ensures var t := ClientStep(s, id, ENV0, ToRESP(["REPLCONF", "ACK", DecInt(n)]));
            && t.waits == StillWaiting(s.waits, None, Some(n))
            && t.replies == s.replies + NowResolved(s.waits, None, Some(n))
  {
    hide ToRESP, NextCommand, DecInt, AckValue, IsAck, StillWaiting, NowResolved, Lossless, Printed, WriteAll;
    Convergence.AckSurvivesTheWire(n, "");
    var ack := ["REPLCONF", "ACK", DecInt(n)];
    assert ToRESP(ack) + "" == ToRESP(ack);
  }

  /** So a client that sends the captured offset twice makes `WAIT 2` answer 2 although there is one replica. */
  lemma ForgedAcksExceed(w: World, port: nat) returns (steps: seq<Step>, k: nat)
    requires w.Valid()
    ensures var s := Reach(w, steps);
            k < |s.replies| && s.replies[k].listener.count > |CaughtUpSet(s.replicas, s.replies[k])|
  {
    hide Reach, Dispatch, ToRESP, WRITE, WAIT2, CommandBytes, DecInt, Rounds, CaughtUpSet, StartsWait, ClientStep, StillWaiting, NowResolved;
    var ready := Joined(w, port);
    Registered(w, port);
    Wrote(w, ready, 1);
    var wrote := ready + Writing(1);
    Asks(w, wrote, [WRITE]);
    var asked := wrote + [Client(1, ENV0, ToRESP(WAIT2))];
    WaitStarts(w, wrote, Client(1, ENV0, ToRESP(WAIT2)), 0, Some(2));
    var n := Reach(w, wrote).offset;
    var forged := Client(2, ENV0, ToRESP(["REPLCONF", "ACK", DecInt(n)]));

    var once := asked + [forged];
    ReachNext(w, asked, forged);
    ClientAckIsHeard(Reach(w, asked), 2, n);
    LastHears(Reach(w, asked).waits, None, Some(n));
    steps := once + [forged];
    ReachNext(w, once, forged);
    ClientAckIsHeard(Reach(w, once), 2, n);
    LastHears(Reach(w, once).waits, None, Some(n));
    k := |Reach(w, steps).replies| - 1;
    FewAsked(Reach(w, steps).replicas, Reach(w, steps).replies[k]);
  }
}
