/** Sane stores over every run of the system, at the master and at every replica, and what SAVE makes of them. */
module SaneSystems {
  import opened Text
  import opened Resp
  import opened ReplicaStream
  import opened Store
  import opened Commands
  import opened Dispatcher
  import opened SaneStores
  import opened Propagation
  import opened ReplicaLink
  import opened Replication
  import CatchingUp
  import Convergence
  import Rdb
  import RdbRoundTrip

  lemma {:induction false} ReplayKeepsSane(env: Env, s: Store, ps: seq<Payload>)
    requires Sane(s) && AllWrites(ps) && AllParsed(ps)
    ensures Sane(Replay(env, s, ps))
    decreases ps
  {
    hide Sane, Replay, Execute, IsWrite, NameOf, ArgsOf, NoneEmpty;
    if ps == [] {
      NothingReplays(env, s);
    } else {
      var first, rest := [ps[0]], ps[1..];
      assert ps == first + rest;
      assert AllWrites(rest) && AllParsed(rest) by { assert forall i :: 0 <= i < |rest| ==> rest[i] == ps[i + 1]; }
      ReplayOne(env, s, ps[0]);
      ArgsAreParsed(ps[0]);
      ExecuteKeepsSane(env, s, NameOf(ps[0]), ArgsOf(ps[0]));
      ReplayKeepsSane(env, Replay(env, s, first), rest);
      ReplayAppend(env, s, first, rest);
    }
  }

  lemma {:induction false} WritesAreParsed(ps: seq<Payload>)
    requires AllSendable(ps)
    ensures AllWrites(Writes(ps)) && AllParsed(Writes(ps))
    decreases ps
  {
    hide IsWrite, NameOf, AllPlain, NoneEmpty, IsGetAck;
    if ps != [] {
      assert AllSendable(ps[1..]) by { assert forall i :: 0 <= i < |ps[1..]| ==> ps[1..][i] == ps[i + 1]; }
      WritesAreParsed(ps[1..]);
      assert Sendable(ps[0]);
      PlainIsParsed(ps[0]);
      GetAckIsSkipped();
    }
  }

  lemma GetAckIsSkipped()
    ensures IsGetAck(GETACK)
  {
    assert Lower("REPLCONF") == "replconf" && Lower("GETACK") == "getack";
  }

  ghost predicate ReplicasSane(s: System) { forall i :: 0 <= i < |s.replicas| ==> Sane(s.replicas[i].store) }

  lemma DeliveryKeepsSane(w: World, r: Replica, k: nat, env: Env)
    requires w.Valid() && Aligned(w, r) && k <= |r.down| && Sane(r.store)
    ensures Sane(Deliver(r, k, env).store)
  {
    hide Sane, Deliver, Replay, Writes, Sendable, Aligned;
    AlignedFacts(w, r);
    DeliverKeepsAligned(w, r, k, env);
    DeliverChangesOnly(w, r, k, env);
    AlignedFacts(w, Deliver(r, k, env));
    var from, to := CommandsIn(r.consumed), CommandsIn(Deliver(r, k, env).consumed);
    WritesAreParsed(r.cmds[from..to]);
    ReplayKeepsSane(env, r.store, Writes(r.cmds[from..to]));
  }

  lemma NextKeepsReplicasSane(w: World, s: System, step: Step)
    requires w.Valid() && ReplicasOk(w, s) && ReplicasSane(s)
    ensures ReplicasSane(Replication.Next(w, s, step))
  {
    hide ReplicaOk, Sane, Deliver, ClientStep, ExecStep, FlushStep, ReadStep, Rdb.Load;
    var t := Replication.Next(w, s, step);
    Convergence.OnlyJoinsAddAReplica(w, s, step);
    forall i | 0 <= i < |t.replicas| ensures Sane(t.replicas[i].store) {
      if i >= |s.replicas| {
        LoadedIsSane(step.file, step.now);
      } else if step.Arrive? && step.i == i {
        assert ReplicaOk(w, s, s.replicas[i]);
        if step.k <= |s.replicas[i].down| { OkDeliveryKeepsSane(w, s, s.replicas[i], step.k, step.env); }
      } else {
        Convergence.OnlyArrivalsMoveAReplica(w, s, step, i);
      }
    }
  }

  lemma OkDeliveryKeepsSane(w: World, s: System, r: Replica, k: nat, env: Env)
    requires w.Valid() && ReplicaOk(w, s, r) && k <= |r.down| && Sane(r.store)
    ensures Sane(Deliver(r, k, env).store)
  {
    hide Aligned, Linked, Sane, Deliver;
    DeliveryKeepsSane(w, r, k, env);
  }

  /** In every reachable state, whatever dump files the servers started from, the store of the master and that of every
      replica are sane. */
  lemma {:induction false} ReachableStoresAreSane(w: World, steps: seq<Step>)
    requires w.Valid()
    ensures Sane(Reach(w, steps).desk.store) && ReplicasSane(Reach(w, steps))
  {
    hide ReplicasOk, Sane, Next, ClientsOk, PendingOk;
    ReachableOk(w, steps);
    if steps != [] {
      var before := steps[..|steps| - 1];
      ReachableStoresAreSane(w, before);
      ReachableOk(w, before);
      NextKeepsReplicasSane(w, Reach(w, before), steps[|steps| - 1]);
    }
  }

  /** So SAVE and start are a round trip for every reachable master and replica: a server that starts at t2 >= t1 from what
      was saved at t1 holds exactly the strings alive at t2. */
  lemma ReachableStoreSavesAndLoads(w: World, steps: seq<Step>, s: Store, t1: int, t2: int)
    requires w.Valid() && t1 <= t2 && Rdb.Build(s, t1).Some?
    requires s == Reach(w, steps).desk.store || exists i :: 0 <= i < |Reach(w, steps).replicas| && s == Reach(w, steps).replicas[i].store
    ensures var t := Rdb.Load(Rdb.Build(s, t1).value, t2);
            && t.order == RdbRoundTrip.Surviving(s, s.order, t2)
            && forall k :: t.Get(k) == if RdbRoundTrip.Survives(s, k, t2) then s.Get(k) else None
  {
    hide Reach, Rdb.Build, Rdb.Parse, RdbRoundTrip.Surviving, RdbRoundTrip.Survives;
    ReachableStoresAreSane(w, steps);
    assert Sane(s);
    RdbRoundTrip.SaveThenLoad(s, t1, t2);
    RdbRoundTrip.BuiltIsNotEmpty(s, t1);
  }

  lemma {:induction false} AllSurvive(s: Store, keys: seq<string>, now: int)
    requires forall i :: 0 <= i < |keys| ==> RdbRoundTrip.Survives(s, keys[i], now)
    ensures RdbRoundTrip.Surviving(s, keys, now) == keys
    decreases keys
  {
    hide RdbRoundTrip.Survives;
    if keys != [] {
      assert forall i :: 0 <= i < |keys[1..]| ==> keys[1..][i] == keys[i + 1];
      AllSurvive(s, keys[1..], now);
    }
  }

  lemma LoadedIsEqualExactly(s: Store, t: Store, now: int)
    requires Sane(s) && t.order == RdbRoundTrip.Surviving(s, s.order, now)
    requires forall k :: t.Get(k) == if RdbRoundTrip.Survives(s, k, now) then s.Get(k) else None
    ensures t == s <==> forall k :: k in s.values ==> RdbRoundTrip.Survives(s, k, now)
  {
    hide RdbRoundTrip.Survives, SaneValue;
    if t == s {
      forall k | k in s.values ensures RdbRoundTrip.Survives(s, k, now) { assert t.Get(k) == s.Get(k) != None; }
    }
    if forall k :: k in s.values ==> RdbRoundTrip.Survives(s, k, now) {
      AllSurvive(s, s.order, now);
      forall k ensures (k in t.values <==> k in s.values) && (k in s.values ==> t.values[k] == s.values[k]) {
        assert t.Get(k) == s.Get(k) || (k !in s.values && t.Get(k) == None);
      }
      assert t.values == s.values;
    }
  }

  /** A new replica that starts from the file that the master's SAVE has just written, and then catches up, ends equal to the
      master exactly when every key of the master is a string still alive at the start of the replica. */
  lemma SeededReplicaConvergesExactly(w: World, steps: seq<Step>, port: nat, t1: int, t2: int)
    requires w.Valid() && t1 <= t2 && Rdb.Build(Reach(w, steps).desk.store, t1).Some?
    ensures var s := Reach(w, steps);
            var joined := steps + [Join(port, Rdb.Build(s.desk.store, t1).value, t2)];
            && |Reach(w, joined).replicas| == |s.replicas| + 1
            && var t := Reach(w, CatchingUp.Settling(w, joined, |s.replicas|));
               && t.desk.store == s.desk.store && |s.replicas| < |t.replicas|
               && (t.replicas[|s.replicas|].store == t.desk.store
                   <==> forall k :: k in s.desk.store.values ==> RdbRoundTrip.Survives(s.desk.store, k, t2))
  {
    hide Reach, Rdb.Build, Rdb.Load, RdbRoundTrip.Surviving, RdbRoundTrip.Survives, CatchingUp.Settling, Sane;
    var s := Reach(w, steps);
    var file := Rdb.Build(s.desk.store, t1).value;
    var joined := steps + [Join(port, file, t2)];
    CatchingUp.ReachNext(w, steps, Join(port, file, t2));
    CatchingUp.EveryReplicaCatchesUp(w, joined, |s.replicas|);
    ReachableStoresAreSane(w, steps);
    ReachableStoreSavesAndLoads(w, steps, s.desk.store, t1, t2);
    LoadedIsEqualExactly(s.desk.store, Rdb.Load(file, t2), t2);
  }
}
