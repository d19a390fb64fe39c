/** EXEC, one queued command at a time. The source awaits every queued command before it propagates it and goes on, so
    anything else may happen in between; and a queued BLPOP that finds nothing suspends the rest of the queue. */
module Scripts {
  import opened Text
  import opened Store
  import opened Commands
  import opened Dispatcher
  import opened SaneStores
  import opened Propagation
  import Blocking
  import Resp

  /** What is left of an EXEC, and the waiter of the BLPOP it waits for. */
  datatype Script = Script(client: nat, queue: seq<Payload>, waiter: Option<Blocking.Waiter>)

  predicate Suspended(d: Blocking.Desk, x: Script) { x.waiter.Some? && x.waiter.value in d.live }

  /** EXEC on an open transaction that has not failed. */
  predicate StartsScript(c: Conn, p: Payload) {
    c.inTransaction && !c.transactionFailed && c.channels == {} && |p| == 1 && NameOf(p) == "exec"
  }

  /** EXEC hands every queued command a fresh connection state, so BLPOP blocks as usual. The log of the new desk holds
      what goes out at once and, last, the command itself if EXEC propagates it. */
  function RunQueued(env: Env, d: Blocking.Desk, p: Payload): Blocking.Desk {
    if NameOf(p) == "blpop" then Blpop(env, FRESH, d, ArgsOf(p)).desk else ExecOne(env, d, p).desk
  }

  function AwaitedBy(env: Env, d: Blocking.Desk, p: Payload): Option<Blocking.Waiter> {
    if NameOf(p) == "blpop" && !AnswersAtOnce(d, ArgsOf(p))
    then Some(Blocking.Waiter(d.nextId, Keys(ArgsOf(p)), env.connection)) else None
  }

  /** A queued BLPOP is always lossless. */
  predicate QueuedLossless(env: Env, d: Blocking.Desk, p: Payload) { NameOf(p) == "blpop" || ItemLossless(env, d, p) }

  lemma QueuedReplays(env: Env, d: Blocking.Desk, p: Payload)
    requires Sane(d.store) && NoneEmpty(p) && QueuedLossless(env, d, p)
    ensures Faithful(d, RunQueued(env, d, p))
  {
    hide Sane, NoneEmpty, Faithful, ExecOne, Blpop, ItemLossless, NameOf;
    if NameOf(p) == "blpop" { BlpopIsFaithful(env, FRESH, d, ArgsOf(p)); } else { ItemReplays(env, d, p); }
  }

  lemma QueuedKeepsSane(env: Env, d: Blocking.Desk, p: Payload)
    requires Sane(d.store) && NoneEmpty(p)
    ensures Sane(RunQueued(env, d, p).store)
  {
    hide Sane, NoneEmpty, ExecOne, BlpopError, Blocking.PopAny, NameOf, PairReply;
    ExecOneKeepsSane(env, d, p);
    if BlpopError(ArgsOf(p)) == None { PopAnyKeepsSane(d, Keys(ArgsOf(p))); }
  }

  lemma QueuedKeepsLog(env: Env, d: Blocking.Desk, p: Payload)
    requires LogOk(d) && Resp.AllPlain(p)
    ensures LogOk(RunQueued(env, d, p))
  {
    hide LogOk, ExecOne, BlpopError, Blocking.PopAny, NameOf, PairReply, Resp.Plain, Blocking.Enqueue;
    ItemKeepsLog(env, d, p);
    var args := ArgsOf(p);
    if BlpopError(args) == None {
      KeysArePlain(args);
      PopAnyKeepsLog(d, Keys(args));
      SameLog(Blocking.Block(d, Keys(args), env.connection).0, Blocking.PopAny(d, Keys(args)).0);
    }
  }

  // ---- a script that nobody interrupts ---------------------------------------------------------------------

  function RunAll(env: Env, d: Blocking.Desk, queue: seq<Payload>): Blocking.Desk
    decreases queue
  {
    if queue == [] then d else RunAll(env, RunQueued(env, d, queue[0]), queue[1..])
  }

  predicate NeverSuspends(env: Env, d: Blocking.Desk, queue: seq<Payload>)
    decreases queue
  {
    queue == []
    || (AwaitedBy(env, d, queue[0]) == None && NeverSuspends(env, RunQueued(env, d, queue[0]), queue[1..]))
  }

  lemma AnsweredIsExecOne(env: Env, d: Blocking.Desk, p: Payload)
    requires AwaitedBy(env, d, p) == None
    ensures RunQueued(env, d, p) == ExecOne(env, d, p).desk
  {
    hide ItemsOf, Blocking.PopAny, BlpopError, RunSimple, PairReply, Blocking.Enqueue, Original, NameOf;
  }

  /** If no BLPOP of it blocks and nothing comes in between, the script leaves the desk of EXEC run in one go. */
  lemma {:induction false} UninterruptedScriptIsExec(env: Env, d: Blocking.Desk, queue: seq<Payload>)
    requires NeverSuspends(env, d, queue)
    ensures RunAll(env, d, queue) == ExecQueue(env, d, queue).desk
    decreases queue
  {
    hide RunQueued, ExecOne, AwaitedBy;
    if queue != [] {
      AnsweredIsExecOne(env, d, queue[0]);
      UninterruptedScriptIsExec(env, RunQueued(env, d, queue[0]), queue[1..]);
    }
  }

  // ---- a dispatch ------------------------------------------------------------------------------------------

  /** The dispatcher propagates the command itself, after everything that went out while it ran. */
  predicate PropagatesOwn(c: Conn, p: Payload, reply: Option<string>) { reply.Some? && Propagates(c, NameOf(p), reply.value) }

  lemma OwnComesLast(env: Env, c: Conn, d: Blocking.Desk, p: Payload)
    requires PropagatesOwn(c, p, Dispatch(env, c, d, p).reply)
    ensures Dispatch(env, c, d, p).desk == Logged(RunSimple(env, d, NameOf(p), ArgsOf(p)).0, p)
  {
    hide RunSimple, RunStateful, WaitCommand, Subscriptions, IsAck, IsWrite, KindOf, IsImmediate, AllowedWhenSubscribed, NameOf;
    WritesAreSimple(p);
    RefusalsAreErrors(p);
  }

  lemma RefusalsAreErrors(p: Payload)
    requires p != []
    ensures IsError(Refusal(p[0]))
  {
  }
}
