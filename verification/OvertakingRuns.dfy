/** A run on which every command is lossless by itself, nobody's bytes are lost, and the replica still ends up different. */
module OvertakingRuns {
  import opened Text
  import opened Resp
  import opened Store
  import opened Commands
  import opened Dispatcher
  import opened Handoffs
  import opened Propagation
  import opened ReplicaLink
  import opened Overtaking
  import opened Scripts
  import opened Replication
  import opened CatchingUp
  import opened WaitRuns
  import Blocking
  import ReplicaStream

  const PUSH: Payload := ["RPUSH", "k", "a"]
  const BLPOP: Payload := ["BLPOP", "k", "0"]
  const POP: Payload := ["LPOP", "k"]

  const PUSHED := Store(["k"], map["k" := StoreValue(List(["a"]), Never)])

  lemma PushIsPlain()
    ensures AllPlain(PUSH) && AllPlain(BLPOP) && AllPlain(POP)
  {
  }

  lemma PushReaction(env: Env, d: Blocking.Desk)
    requires d.store == EMPTY && d.queues == map[]
    ensures var r := Dispatch(env, FRESH, d, PUSH);
            && r.conn == FRESH && r.effect == Nothing && PropagatesOwn(FRESH, PUSH, r.reply)
            && r.desk.store == PUSHED && r.desk.queues == map[] && r.desk.propagated == d.propagated + [PUSH]
  {
    assert Lower("RPUSH") == "rpush" && PUSH[1..] == ["k", "a"] && ["k", "a"][1..] == ["a"];
    assert [] + ["a"] == ["a"];
  }

  lemma BlpopArguments()
    ensures NameOf(BLPOP) == "blpop" && ArgsOf(BLPOP) == ["k", "0"] && BlpopError(["k", "0"]) == None && Keys(["k", "0"]) == ["k"]
  {
    ParseDec(0);
    assert Dec(0) == "0";
    assert Lower("BLPOP") == "blpop" && ["k", "0"][..1] == ["k"];
  }

  lemma BlpopReaction(env: Env, d: Blocking.Desk)
    requires d.store == PUSHED
    ensures var r := Dispatch(env, FRESH, d, BLPOP);
            && r.conn == FRESH && r.effect == Nothing && !PropagatesOwn(FRESH, BLPOP, r.reply)
            && r.desk.store == EMPTY && r.desk.propagated == d.propagated + [POP]
  {
    hide ParseInt, BlpopError, NameOf, ArgsOf;
    BlpopArguments();
  }

  lemma BothAreLossless(env: Env, d: Blocking.Desk)
    ensures d.queues == map[] ==> Lossless(env, FRESH, d, PUSH)
    ensures Lossless(env, FRESH, d, BLPOP)
  {
    hide Rebuilds, AllAre;
    assert Lower("RPUSH") == "rpush" && PUSH[1..] == ["k", "a"] && Lower("BLPOP") == "blpop";
  }

  // ---- the run ------------------------------------------------------------------------------------------------

  /** Client 1 pushes; client 2, which an XADD has just woken, pops; then the push is propagated and everything arrives. */
  ghost function OvertakingRun(w: World, port: nat): seq<Step> {
    Rounds(w, Joined(w, port) + [Client(1, ENV0, ToRESP(PUSH))] + [Client(2, ENV0, ToRESP(BLPOP))] + [Flush], 0, 0)
  }

  /** The replica has consumed its greeting and nothing else. */
  ghost predicate Waiting(s: System, store: Store, pending: seq<Payload>, cmds: seq<Payload>) {
    && s.desk.store == store && s.pending == pending && ConnOf(s, 2) == FRESH
    && |s.replicas| == 1 && Attached(s.replicas[0]) && s.replicas[0].cmds == cmds
    && s.replicas[0].store == EMPTY && s.replicas[0].consumed == 5
  }

  lemma StartsEmpty(w: World, port: nat)
    requires w.Valid() && w.file == ""
    ensures var s := Reach(w, Joined(w, port));
            Waiting(s, EMPTY, [], []) && s.desk.queues == map[] && ConnOf(s, 1) == FRESH
  {
    hide Deliver, Aligned, Rounds, Linked;
    var join := Join(port, "", 0);
    assert [join] == [] + [join];
    ReachNext(w, [], join);
    assert Reach(w, [join]) == Start(w).(replicas := [Fresh(port, "", 0)]) by { assert Reach(w, []) == Start(w); }
    RoundsComplete(w, [join], 0, 4);
  }

  lemma OnlyPendingGrows(s: System, e: Blocking.Desk, own: bool, lossless: bool)
    requires Split(e.propagated, own).0 == [] && |s.replicas| == 1
    ensures var t := AfterRun(s, e, own, lossless);
            && t == s.(desk := e, pending := s.pending + Split(e.propagated, own).1, replicas := t.replicas) && |t.replicas| == 1
            && var r, n := s.replicas[0], t.replicas[0];
               n.cmds == r.cmds && n.store == r.store && n.consumed == r.consumed && (Attached(n) <==> Attached(r))
  {
    hide Split, InTurn;
    assert Printed([]) == "";
    assert s.replicas[0].cmds + [] == s.replicas[0].cmds;
  }

  lemma PushIsServed(s: System)
    requires s.desk.store == EMPTY && s.desk.queues == map[] && ConnOf(s, 1) == FRESH
    ensures var r := ReactionOf(s, 1, ENV0, PUSH);
            && r.conn == FRESH && r.effect == Nothing && r.desk.store == PUSHED && Started(s, 1, PUSH) == []
            && Split(r.desk.propagated, PropagatesOwn(ConnOf(s, 1), PUSH, r.reply)) == ([], [PUSH])
  {
    hide Dispatch, PUSH, PUSHED, PropagatesOwn;
    PushReaction(ENV0.(connection := 1), Cleared(s.desk));
    assert [] + [PUSH] == [PUSH] && [PUSH][..0] == [];
  }

  lemma Pushes(s: System)
    requires Waiting(s, EMPTY, [], []) && s.desk.queues == map[] && ConnOf(s, 1) == FRESH
    ensures Waiting(ClientStep(s, 1, ENV0, ToRESP(PUSH)), PUSHED, [PUSH], [])
  {
    hide ReactionOf, Started, LosslessHere, Split, ToRESP, PUSH, PUSHED, NextCommand, AllPlain, PropagatesOwn, AfterRun;
    PushIsPlain();
    Parses(PUSH);
    PushIsServed(s);
    var r := ReactionOf(s, 1, ENV0, PUSH);
    OnlyPendingGrows(s.(clients := s.clients[1 := r.conn], running := s.running + Started(s, 1, PUSH)),
                     r.desk, PropagatesOwn(ConnOf(s, 1), PUSH, r.reply), LosslessHere(s, 1, ENV0, PUSH));
    assert [] + [PUSH] == [PUSH];
  }

  lemma Pops(s: System)
    requires Waiting(s, PUSHED, [PUSH], [])
    ensures Waiting(ClientStep(s, 2, ENV0, ToRESP(BLPOP)), EMPTY, [PUSH], [POP])
  {
    hide Dispatch, Lossless, ToRESP, BLPOP, PUSH, POP, NextCommand, AllPlain, PropagatesOwn, Printed, InTurn;
    PushIsPlain();
    Parses(BLPOP);
    BlpopReaction(ENV0.(connection := 2), Cleared(s.desk));
    var r := ReactionOf(s, 2, ENV0, BLPOP);
    assert r.desk.propagated == [POP] && [] + [POP] == [POP];
    assert forall lossless: bool :: 0 in AttachedSet(MarkIntact(s.replicas, lossless));
  }

  lemma PropagatesLate(s: System)
    requires Waiting(s, EMPTY, [PUSH], [POP])
    ensures Waiting(FlushStep(s), EMPTY, [], [POP, PUSH])
  {
    hide Printed, PUSH, POP;
    assert 0 in AttachedSet(s.replicas);
    assert [POP] + [PUSH] == [POP, PUSH];
  }

  lemma ReplicaRuns(env: Env)
    ensures NameOf(POP) == "lpop" && ArgsOf(POP) == ["k"] && Execute(env, EMPTY, "lpop", ["k"]).store == EMPTY
    ensures !ReplicaStream.IsGetAck(POP) && !ReplicaStream.IsGetAck(PUSH)
    ensures NameOf(PUSH) == "rpush" && ArgsOf(PUSH) == ["k", "a"] && Execute(env, EMPTY, "rpush", ["k", "a"]).store == PUSHED
  {
    assert Lower("RPUSH") == "rpush" && Lower("LPOP") == "lpop";
    assert ["k", "a"][1..] == ["a"] && [] + ["a"] == ["a"];
    assert |Lower("k")| == 1;
  }

  lemma ReplicaKeepsThePush(env: Env, cmds: seq<Payload>)
    requires cmds == [POP, PUSH]
    ensures Writes(cmds) == cmds && Replay(env, EMPTY, cmds) == PUSHED
  {
    hide Dispatch, Replay, Execute, NameOf, ArgsOf, PUSHED, ReplicaStream.IsGetAck;
    ReplicaRuns(env);
    assert cmds[1..] == [PUSH] && [PUSH][1..] == [];
    assert Writes([PUSH]) == [PUSH];
    ReplayAppend(env, EMPTY, [POP], [PUSH]);
    assert [POP] + [PUSH] == cmds;
    ReplayOne(env, EMPTY, POP);
    ReplayOne(env, EMPTY, PUSH);
  }

  /** Both commands are lossless. At the end the replica is registered, nothing is pending or under way, and the replica
      holds the element that the master has given away. */
  lemma OvertakingDiverges(w: World, port: nat)
    requires w.Valid() && w.file == ""
    ensures LosslessHere(Reach(w, Joined(w, port)), 1, ENV0, PUSH)
    ensures LosslessHere(Reach(w, Joined(w, port) + [Client(1, ENV0, ToRESP(PUSH))]), 2, ENV0, BLPOP)
    ensures var s := Reach(w, OvertakingRun(w, port));
            && |s.replicas| == 1 && s.pending == [] && Attached(s.replicas[0]) && s.replicas[0].consumed == 5 + |s.replicas[0].cmds|
            && s.desk.store == EMPTY && s.replicas[0].store == PUSHED
  {
    hide Reach, ClientStep, ToRESP, PUSH, BLPOP, POP, FlushStep, Deliver, Aligned, Writes, Replay, PUSHED, Joined, Lossless, StartsScript;
    StartsEmpty(w, port);
    var ready := Joined(w, port);
    ReachNext(w, ready, Client(1, ENV0, ToRESP(PUSH)));
    BothAreLossless(ENV0.(connection := 1), Cleared(Reach(w, ready).desk));
    Pushes(Reach(w, ready));
    var pushed := ready + [Client(1, ENV0, ToRESP(PUSH))];
    ReachNext(w, pushed, Client(2, ENV0, ToRESP(BLPOP)));
    BothAreLossless(ENV0.(connection := 2), Cleared(Reach(w, pushed).desk));
    Pops(Reach(w, pushed));
    var popped := pushed + [Client(2, ENV0, ToRESP(BLPOP))];
    ReachNext(w, popped, Flush);
    PropagatesLate(Reach(w, popped));
    var flushed := popped + [Flush];
    Delivered(w, flushed, 0);
    var r := Reach(w, flushed).replicas[0];
    DeliverAll(w, r);
    DeliverKeepsAligned(w, r, |r.down|, ENV0);
    assert r.cmds[0..2] == r.cmds;
    ReplicaKeepsThePush(ENV0, r.cmds);
  }
}
