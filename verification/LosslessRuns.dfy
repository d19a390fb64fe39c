/** A replica from its registration on: which runs it follows to the letter. */
module LosslessRuns {
  import opened Text
  import opened Resp
  import opened ReplicaStream
  import opened Store
  import opened Commands
  import opened Dispatcher
  import opened Propagation
  import opened Overtaking
  import opened Scripts
  import opened ReplicaLink
  import opened Replication
  import opened WaitSoundness
  import opened CatchingUp
  import opened Convergence
  import Blocking

  // ---- one step -----------------------------------------------------------------------------------------------------------

  /** Nothing gets lost, and what goes out at once overtakes nothing that is pending. */
  predicate Reproducible(s: System, e: Blocking.Desk, own: bool, lossless: bool) {
    lossless && InTurn(Split(e.propagated, own).0, s.pending)
  }

  /** The step runs no command, or one that replicas reproduce. */
  predicate RunsLosslessly(s: System, step: Step) {
    match step
    case Client(id, env, bytes) =>
      (match NextCommand(bytes)
       case None => true
       case Some(parsed) =>
         var p, r := parsed.payload, ReactionOf(s, id, env, parsed.payload);
         Reproducible(s, r.desk, PropagatesOwn(ConnOf(s, id), p, r.reply), LosslessHere(s, id, env, p)))
    case ExecNext(k, env) =>
      k < |s.running| && !Suspended(s.desk, s.running[k]) && s.running[k].queue != [] ==>
        var from, d, p := env.(connection := s.running[k].client), Cleared(s.desk), s.running[k].queue[0];
        Reproducible(s, RunQueued(from, d, p), ExecPropagates(NameOf(p)), QueuedLossless(from, d, p))
    case _ => true
  }

  /** Registered before and after, and intact as long as this holds. */
  ghost predicate LastsIf(s: System, t: System, i: nat, kept: bool) {
    && |s.replicas| <= |t.replicas|
    && (i < |s.replicas| && Attached(s.replicas[i]) ==>
          Attached(t.replicas[i]) && (t.replicas[i].intact <==> s.replicas[i].intact && kept))
  }

  lemma RunLasts(s: System, e: Blocking.Desk, own: bool, lossless: bool, i: nat)
    ensures LastsIf(s, AfterRun(s, e, own, lossless), i, Reproducible(s, e, own, lossless))
  {
    hide Split, InTurn, Printed;
  }

  lemma ServedLasts(s: System, id: nat, env: Env, p: Payload, i: nat)
    ensures var r := ReactionOf(s, id, env, p);
            LastsIf(s, Served(s, id, env, p), i,
                    Reproducible(s, r.desk, PropagatesOwn(ConnOf(s, id), p, r.reply), LosslessHere(s, id, env, p)))
  {
    hide AfterRun, ReactionOf, LosslessHere, PropagatesOwn, StartsScript, LastsIf, Split, InTurn;
    var r := ReactionOf(s, id, env, p);
    var u := s.(clients := s.clients[id := r.conn], running := s.running + Started(s, id, p));
    RunLasts(u, r.desk, PropagatesOwn(ConnOf(s, id), p, r.reply), LosslessHere(s, id, env, p), i);
    SameReplicasLast(s, u, Served(s, id, env, p), i,
                     Reproducible(u, r.desk, PropagatesOwn(ConnOf(s, id), p, r.reply), LosslessHere(s, id, env, p)));
  }

  lemma SameReplicasLast(s: System, u: System, t: System, i: nat, kept: bool)
    requires u.replicas == s.replicas && LastsIf(u, t, i, kept)
    ensures LastsIf(s, t, i, kept)
  {
  }

  lemma ManagingLasts(s: System, t: System, e: Effect, i: nat, kept: bool)
    requires LastsIf(s, t, i, kept)
    ensures LastsIf(s, Manage(t, e), i, kept)
  {
    hide StillWaiting, NowResolved, NoStaleAck, Printed, ReplicaCount;
  }

  lemma GreetingIsRead(w: World, r: Replica)
    requires Aligned(w, r) && Attached(r)
    ensures r.read >= 4
  {
    hide Pending, ControlAt, AllSendable, SentAt;
  }

  lemma ReadLasts(w: World, s: System, j: nat, i: nat)
    requires i < |s.replicas| ==> Aligned(w, s.replicas[i])
    ensures LastsIf(s, ReadStep(w, s, j), i, true)
  {
    hide Aligned, StillWaiting, NowResolved, AckValue, IsAck, Lockstep, Dispatch;
    if j < |s.replicas| && s.replicas[j].read < |s.replicas[j].sent| && j == i && Attached(s.replicas[i]) {
      GreetingIsRead(w, s.replicas[i]);
      LateMessagesAreAcks(w, s.replicas[i]);
    }
  }

  /** A registered replica stays intact over a step exactly if the step runs nothing that replicas do not reproduce. */
  lemma IntactLastsExactly(w: World, s: System, step: Step, i: nat)
    requires i < |s.replicas| ==> Aligned(w, s.replicas[i])
    ensures LastsIf(s, Next(w, s, step), i, RunsLosslessly(s, step))
  {
    hide AfterRun, Served, ReactionOf, Manage, RunQueued, Suspended, AwaitedBy, Deliver, NextCommand, Aligned, Reproducible, PropagatesOwn,
         LosslessHere, QueuedLossless, TimeoutStep, ReadStep, Printed;
    match step
    case Client(id, env, bytes) =>
      if NextCommand(bytes).Some? {
        var p := NextCommand(bytes).value.payload;
        var r := ReactionOf(s, id, env, p);
        ServedLasts(s, id, env, p, i);
        ManagingLasts(s, Served(s, id, env, p), r.effect, i,
                      Reproducible(s, r.desk, PropagatesOwn(ConnOf(s, id), p, r.reply), LosslessHere(s, id, env, p)));
      }
    case ExecNext(k, env) =>
      if k < |s.running| && !Suspended(s.desk, s.running[k]) && s.running[k].queue != [] {
        var x := s.running[k];
        var from, d, p := env.(connection := x.client), Cleared(s.desk), x.queue[0];
        var u := s.(running := s.running[k := Script(x.client, x.queue[1..], AwaitedBy(from, d, p))]);
        RunLasts(u, RunQueued(from, d, p), ExecPropagates(NameOf(p)), QueuedLossless(from, d, p), i);
        SameReproducible(s, u, RunQueued(from, d, p), ExecPropagates(NameOf(p)), QueuedLossless(from, d, p));
      }
    case Flush =>
    case EndBlpop(waiter) =>
    case Join(port, file, now) =>
    case ReadFrom(j) => ReadLasts(w, s, j, i);
    case Arrive(j, k, env) => if j < |s.replicas| && k <= |s.replicas[j].down| { DeliverChangesOnly(w, s.replicas[j], k, env); }
    case EndWait(k) => TimeoutLasts(s, k, i);
  }

  lemma SameReproducible(s: System, u: System, e: Blocking.Desk, own: bool, lossless: bool)
    requires u.pending == s.pending
    ensures Reproducible(u, e, own, lossless) <==> Reproducible(s, e, own, lossless)
  {
  }

  lemma TimeoutLasts(s: System, k: nat, i: nat)
    ensures LastsIf(s, TimeoutStep(s, k), i, true)
  {
  }

  // ---- whole runs -----------------------------------------------------------------------------------------------------------

  ghost predicate AllLossless(w: World, steps: seq<Step>, more: seq<Step>) {
    forall j :: 0 <= j < |more| ==> RunsLosslessly(Reach(w, steps + more[..j]), more[j])
  }

  lemma AllLosslessUnfolds(w: World, steps: seq<Step>, more: seq<Step>)
    requires more != []
    ensures AllLossless(w, steps, more)
            <==> AllLossless(w, steps, more[..|more| - 1]) && RunsLosslessly(Reach(w, steps + more[..|more| - 1]), more[|more| - 1])
  {
    hide Reach, RunsLosslessly;
    var before := more[..|more| - 1];
    assert forall j :: 0 <= j < |before| ==> before[j] == more[j] && before[..j] == more[..j];
  }

  /** A registered replica is intact after any number of steps exactly if it was before and all steps were lossless. */
  lemma {:induction false} IntactExactly(w: World, steps: seq<Step>, more: seq<Step>, i: nat)
    requires w.Valid() && i < |Reach(w, steps).replicas| && Attached(Reach(w, steps).replicas[i])
    ensures var s, t := Reach(w, steps), Reach(w, steps + more);
            && i < |t.replicas| && Attached(t.replicas[i])
            && (t.replicas[i].intact <==> s.replicas[i].intact && AllLossless(w, steps, more))
    decreases |more|
  {
    hide Reach, RunsLosslessly, Aligned, AllLossless, Next;
    if more == [] {
      assert steps + more == steps;
      NothingIsLossless(w, steps);
    } else {
      var before, last := steps + more[..|more| - 1], more[|more| - 1];
      IntactExactly(w, steps, more[..|more| - 1], i);
      AllLosslessUnfolds(w, steps, more);
      AlignedReplica(w, before, i);
      ReachNext(w, before, last);
      assert steps + more == before + [last];
      IntactLastsExactly(w, Reach(w, before), last, i);
    }
  }

  lemma NothingIsLossless(w: World, steps: seq<Step>)
    ensures AllLossless(w, steps, [])
  {
  }

  /** The step in which the master reads the PSYNC of replica i. */
  ghost predicate Registers(w: World, steps: seq<Step>, i: nat) {
    && i < |Reach(w, steps).replicas| && !Attached(Reach(w, steps).replicas[i])
    && i < |Reach(w, steps + [ReadFrom(i)]).replicas| && Attached(Reach(w, steps + [ReadFrom(i)]).replicas[i])
  }

  lemma RegisteringIsIntactExactly(w: World, steps: seq<Step>, i: nat)
    requires w.Valid() && Registers(w, steps, i)
    ensures var s, t := Reach(w, steps), Reach(w, steps + [ReadFrom(i)]);
            t.replicas[i].intact <==> Lockstep(s.replicas[i].store, s.pending, s.desk.store)
  {
    hide Reach, Aligned, Lockstep, Dispatch, IsAck;
    var r := Reach(w, steps).replicas[i];
    AlignedReplica(w, steps, i);
    WasRead(w, steps, i);
    if r.read < |r.sent| { AnswerRegisters(w, r); }
  }

  lemma AnswerRegisters(w: World, r: Replica)
    requires Aligned(w, r) && !Attached(r) && r.read < |r.sent|
    ensures !IsAck(r.sent[r.read]) && r.greeted <= 3 && (r.greeted < 3 ==> NameOf(r.sent[r.read]) != "psync")
  {
    hide Pending, ControlAt, AllSendable;
    EarlyMessagesAreRequests(w, r);
  }

  /** Convergence over whole runs. Let a replica register in any reachable state when replaying what is pending leads
      from its store to that of the master. If from then on only lossless steps are taken, whatever is delivered when,
      then draining all bytes that are buffered or under way, and running what is pending, takes it to the store of
      the master, insertion order included. */
  lemma LosslessRunConverges(w: World, steps: seq<Step>, i: nat, more: seq<Step>, env: Env)
    requires w.Valid() && Registers(w, steps, i)
    requires var s := Reach(w, steps); Lockstep(s.replicas[i].store, s.pending, s.desk.store)
    requires AllLossless(w, steps + [ReadFrom(i)], more)
    ensures var s := Reach(w, steps + [ReadFrom(i)] + more);
            && i < |s.replicas|
            && var r := s.replicas[i];
               && Terminates(r.control, r.buf + r.down)
               && var d := Drain(r.control, r.buf + r.down);
                  d.rest == "" && Replay(env, r.store, Emitted(d.events) + s.pending) == s.desk.store
  {
    hide Reach, Lockstep, AllLossless, Drain, Terminates, Replay;
    RegisteringIsIntactExactly(w, steps, i);
    IntactExactly(w, steps + [ReadFrom(i)], more, i);
    ReplicasConverge(w, steps + [ReadFrom(i)] + more, i, env);
  }

  // ---- everyday commands ------------------------------------------------------------------------------------------------------

  /** On a connection of its own each of these is lossless: reading, counting, deleting, popping, SET without options
      or with a deadline, XADD under an ID of the client, GET of what has not expired, and pushes to a list nobody
      waits for. */
  lemma EverydayCommandsAreLossless(env: Env, d: Blocking.Desk, p: Payload, args: seq<string>)
    requires p != [] && args == p[1..]
    requires NameOf(p) in {"echo", "info", "config", "lrange", "llen", "exists", "type", "keys", "save", "xrange", "xrevrange", "xread",
                           "publish", "del", "incr", "lpop", "ping", "multi", "discard", "blpop", "subscribe", "unsubscribe", "wait"}
             || (NameOf(p) == "set" && (|args| == 2 || (|args| == 4 && Upper(args[2]) in {"EXAT", "PXAT"})))
             || (NameOf(p) == "xadd" && (|args| < 2 || args[1] != "*"))
             || (NameOf(p) == "get"
                 && (|args| == 1 && args[0] in d.store.values ==> !IsExpired(d.store.values[args[0]].expiration, env.now)))
             || (NameOf(p) in {"rpush", "lpush"} && (|args| >= 2 ==> Blocking.QueueOf(d.queues, args[0]) == []))
    ensures Lossless(env, FRESH, d, p)
  {
    hide Lower, ParseInt, ParseOptions, Upper;
    if NameOf(p) == "set" && |args| == 2 { NoOptions(args); }
    if NameOf(p) == "set" && |args| == 4 && Upper(args[2]) in {"EXAT", "PXAT"} { DeadlineOption(args); }
  }

  lemma NoOptions(args: seq<string>)
    requires |args| == 2
    ensures ParseOptions(args[2..], NO_OPTIONS) == Some(NO_OPTIONS)
  {
  }

  lemma DeadlineOption(args: seq<string>)
    requires |args| == 4 && Upper(args[2]) in {"EXAT", "PXAT"}
    ensures ParseOptions(args[2..], NO_OPTIONS).Some? ==> ParseOptions(args[2..], NO_OPTIONS).value.time.Absolute?
  {
    hide Upper, ParseInt;
    assert args[2..] == [args[2], args[3]] && [args[2], args[3]][2..] == [];
  }
}
