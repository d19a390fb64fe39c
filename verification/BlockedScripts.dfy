/** An EXEC that reaches a BLPOP with nothing to pop: it stands still until somebody serves the BLPOP or it times out. */
module BlockedScripts {
  import opened Text
  import opened Commands
  import opened Dispatcher
  import opened Propagation
  import opened Overtaking
  import opened Scripts
  import opened Replication
  import opened ReplicaLink
  import opened WireLaws
  import Blocking

  lemma BlpopIsAwaited(env: Env, d: Blocking.Desk, keys: seq<string>, timeout: nat) returns (x: Blocking.Waiter)
    requires keys != [] && forall j :: 0 <= j < |keys| ==> ListAt(d.store, keys[j]) == []
    ensures x.keys == keys && x.connection == env.connection
    ensures var p, e := ["BLPOP"] + keys + [Dec(timeout)], RunQueued(env, d, ["BLPOP"] + keys + [Dec(timeout)]);
            && AwaitedBy(env, d, p) == Some(x) && x in e.live && e.store == d.store && e.propagated == d.propagated
            && forall key :: key in keys ==> x in Blocking.QueueOf(e.queues, key)
  {
    hide Dec, ParseInt, Blocking.PopAny, ListAt, Blocking.Enqueue;
    var p, args := ["BLPOP"] + keys + [Dec(timeout)], keys + [Dec(timeout)];
    assert Lower("BLPOP") == "blpop" && p[0] == "BLPOP" && |Lower(p[0])| == 5;
    assert p[1..] == args && args[..|args| - 1] == keys;
    ParseDec(timeout);
    NothingIsPopped(d, keys);
    x := Blocking.Waiter(d.nextId, keys, env.connection);
    JoinsEveryQueue(d.queues, keys, x);
  }

  lemma LeavesDesk(s: System, e: Blocking.Desk, own: bool, lossless: bool)
    ensures var t := AfterRun(s, e, own, lossless); t.desk == e && t.running == s.running
  {
    hide Split, WriteAll, MarkIntact, Printed, InTurn;
  }

  /** A queued BLPOP whose lists are all empty suspends its EXEC: the client waits in the queues of the keys, and running the EXEC on
      does nothing, as long as it waits. */
  lemma QueuedBlpopSuspends(w: World, s: System, k: nat, env: Env, later: Env, keys: seq<string>, timeout: nat)
      returns (x: Blocking.Waiter)
    requires k < |s.running| && !Suspended(s.desk, s.running[k]) && s.running[k].queue != []
    requires s.running[k].queue[0] == ["BLPOP"] + keys + [Dec(timeout)]
    requires keys != [] && forall j :: 0 <= j < |keys| ==> ListAt(s.desk.store, keys[j]) == []
    ensures var t := Next(w, s, ExecNext(k, env));
            && t.desk.store == s.desk.store && x in t.desk.live && x.keys == keys && x.connection == s.running[k].client
            && (forall key :: key in keys ==> x in Blocking.QueueOf(t.desk.queues, key))
            && |t.running| == |s.running| && t.running[k] == Script(s.running[k].client, s.running[k].queue[1..], Some(x))
            && Next(w, t, ExecNext(k, later)) == t
  {
    hide AfterRun, RunQueued, AwaitedBy, QueuedLossless, ExecPropagates, NameOf, Dec, ListAt;
    var y := s.running[k];
    var from, d, p := env.(connection := y.client), Cleared(s.desk), y.queue[0];
    x := BlpopIsAwaited(from, d, keys, timeout);
    LeavesDesk(s.(running := s.running[k := Script(y.client, y.queue[1..], AwaitedBy(from, d, p))]), RunQueued(from, d, p),
               ExecPropagates(NameOf(p)), QueuedLossless(from, d, p));
  }

  /** Once its client has been served, or has timed out, the EXEC goes on: it runs its next command, or ends. */
  lemma ServedScriptGoesOn(w: World, s: System, k: nat, env: Env)
    requires k < |s.running| && s.running[k].waiter.Some? && s.running[k].waiter.value !in s.desk.live
    ensures var t := Next(w, s, ExecNext(k, env));
            if s.running[k].queue == [] then t.running == s.running[..k] + s.running[k + 1..]
            else |t.running| == |s.running| && t.running[k].client == s.running[k].client
                 && t.running[k].queue == s.running[k].queue[1..]
  {
    hide AfterRun, RunQueued, AwaitedBy, QueuedLossless, ExecPropagates, NameOf;
    var y := s.running[k];
    if y.queue != [] {
      var from, d, p := env.(connection := y.client), Cleared(s.desk), y.queue[0];
      LeavesDesk(s.(running := s.running[k := Script(y.client, y.queue[1..], AwaitedBy(from, d, p))]), RunQueued(from, d, p),
                 ExecPropagates(NameOf(p)), QueuedLossless(from, d, p));
    }
  }

  /** Serving or timing out is what ends the waiting: a push to one of the keys, at the head of whose queue the client is, or the
      timeout. */
  lemma WaitingEnds(w: World, s: System, x: Blocking.Waiter, key: string, items: seq<string>, o: Outcome)
    requires x in s.desk.live && Blocking.QueueOf(s.desk.queues, key) != [] && Blocking.QueueOf(s.desk.queues, key)[0] == x
    requires !IsError(o.reply) && ListAt(o.store, key) != [] && ListAt(o.store, key)[0] != ""
    ensures x !in Next(w, s, EndBlpop(x)).desk.live
    ensures x !in Blocking.PushAndServe(s.desk, key, items, o).live
  {
    hide UpdateStore, ListAt, Blocking.RemoveWaiter;
  }
}
