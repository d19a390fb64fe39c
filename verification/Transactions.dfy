/** MULTI, EXEC and DISCARD over whole runs of one connection. */
module Transactions {
  import opened Text
  import opened Store
  import opened Commands
  import opened Blocking
  import opened Dispatcher
  import Resp

  /** The dispatcher would put this command into an open transaction. */
  predicate Queueable(p: Payload) { p != [] && !IsAck(p) && !IsImmediate(NameOf(p)) }

  predicate Unknown(p: Payload) { KindOf(NameOf(p)) == None }

  predicate IsMulti(p: Payload) { |p| == 1 && NameOf(p) == "multi" }

  // ---- what is in the queue --------------------------------------------------------------------

  /** The reference: the queueable commands sent since the latest MULTI. */
  function SinceMulti(sent: seq<Payload>): seq<Payload> {
    if sent == [] then []
    else
      var last := sent[|sent| - 1];
      if IsMulti(last) then []
      else SinceMulti(sent[..|sent| - 1]) + if Queueable(last) then [last] else []
  }

  ghost predicate HasUnknown(ps: seq<Payload>) { exists i :: 0 <= i < |ps| && Unknown(ps[i]) }

  /** While a transaction is open, its queue and its failure flag are determined by what was sent. */
  ghost predicate Tracks(c: Conn, sent: seq<Payload>) {
    c.inTransaction ==>
      c.channels == {} && c.queue == SinceMulti(sent) && (c.transactionFailed <==> HasUnknown(c.queue))
  }

  lemma QueueingTracks(env: Env, c: Conn, d: Desk, sent: seq<Payload>, p: Payload)
    requires Tracks(c, sent) && c.inTransaction && Queueable(p) && !IsMulti(p)
    ensures Tracks(Dispatch(env, c, d, p).conn, sent + [p])
  {
    hide Serve, KindOf, NameOf, IsImmediate, IsAck, IsMulti, QUEUED;
    assert (sent + [p])[..|sent|] == sent;
    var q := c.queue + [p];
    assert q[|c.queue|] == p;
    assert forall i :: 0 <= i < |c.queue| ==> q[i] == c.queue[i];
  }

  lemma DispatchTracks(env: Env, c: Conn, d: Desk, sent: seq<Payload>, p: Payload)
    requires Tracks(c, sent)
    ensures Tracks(Dispatch(env, c, d, p).conn, sent + [p])
  {
    hide RunSimple, ExecQueue, KindOf, FormatItems, Resp.Header, Lower, HasUnknown, Block, BlpopError, PairReply, Ping, Error, ArgumentError, QUEUED, Refusal;
    TransactionCommands();
    assert (sent + [p])[..|sent|] == sent;
    if c.inTransaction && Queueable(p) {
      QueueingTracks(env, c, d, sent, p);
    } else {
      assert !HasUnknown([]) by { NoneUnknown(); }
    }
  }

  lemma NoneUnknown()
    ensures !HasUnknown([])
  {
  }

  /** A run: commands of one connection, each on whatever desk the server has by then. */
  datatype Sent = Sent(env: Env, desk: Desk, payload: Payload)

  function Payloads(run: seq<Sent>): seq<Payload> {
    seq(|run|, i requires 0 <= i < |run| => run[i].payload)
  }

  function ConnAfter(run: seq<Sent>): Conn {
    if run == [] then FRESH
    else
      var last := run[|run| - 1];
      var c := ConnAfter(run[..|run| - 1]);
      Dispatch(last.env, c, last.desk, last.payload).conn
  }

  lemma {:induction false} RunTracks(run: seq<Sent>)
    ensures Tracks(ConnAfter(run), Payloads(run))
  {
    hide Dispatch;
    if run == [] {
      assert Payloads(run) == [];
    } else {
      var last, before := run[|run| - 1], run[..|run| - 1];
      RunTracks(before);
      DispatchTracks(last.env, ConnAfter(before), last.desk, Payloads(before), last.payload);
      assert Payloads(run) == Payloads(before) + [last.payload];
    }
  }

  /** After any run, whatever MULTIs and DISCARDs it held: EXEC aborts exactly when an unknown command
      was queued since the latest MULTI, and otherwise runs exactly the commands sent since then. */
  lemma ExecAbortsExactlyOnUnknown(run: seq<Sent>, env: Env, d: Desk)
    requires ConnAfter(run).inTransaction
    ensures var since := SinceMulti(Payloads(run));
            var r := Dispatch(env, ConnAfter(run), d, ["EXEC"]);
            && (HasUnknown(since) ==> r.reply == Some(EXEC_ABORT) && r.desk == d)
            && (!HasUnknown(since) ==> r.desk == ExecQueue(env, d, since).desk && r.reply != Some(EXEC_ABORT))
            && !r.conn.inTransaction && r.conn.queue == []
  {
    hide FormatItems, ExecQueue, SinceMulti, HasUnknown, ConnAfter, Dispatch;
    RunTracks(run);
    var c := ConnAfter(run);
    DispatchExec(env, c, d);
    var ran := ExecQueue(env, d, c.queue);
    var text := Resp.Header('*', |ran.items|) + CRLF + FormatItems(ran.items);
    assert text[0] == '*' && EXEC_ABORT[0] == '-';
  }

  lemma DispatchExec(env: Env, c: Conn, d: Desk)
    requires c.inTransaction && c.channels == {}
    ensures Dispatch(env, c, d, ["EXEC"]) == Exec(env, c, d, [])
  {
    hide Exec, KindOf;
    TransactionCommands();
    assert Lower("EXEC") == "exec" && ["EXEC"][1..] == [];
  }

  // ---- what a transaction does ---------------------------------------------------------------------

  /** Commands of one connection run one after the other on a desk nobody else touches. */
  function Play(env: Env, c: Conn, d: Desk, ps: seq<Payload>): (Conn, Desk)
    decreases ps
  {
    if ps == [] then (c, d)
    else
      var r := Dispatch(env, c, d, ps[0]);
      Play(env, r.conn, r.desk, ps[1..])
  }

  /** Queued commands leave the store, the waiting clients and the log of propagated commands alone. */
  lemma {:induction false} QueueingIsInvisible(env: Env, c: Conn, d: Desk, ps: seq<Payload>)
    requires c.inTransaction
    requires forall i :: 0 <= i < |ps| ==> Queueable(ps[i])
    ensures Play(env, c, d, ps)
         == (c.(queue := c.queue + ps, transactionFailed := c.transactionFailed || HasUnknown(ps)), d)
    decreases ps
  {
    hide Serve, KindOf, Lower, IsImmediate, IsAck, NameOf;
    if ps == [] {
      assert c.queue + ps == c.queue;
    } else {
      var r := Dispatch(env, c, d, ps[0]);
      QueueingIsInvisible(env, r.conn, r.desk, ps[1..]);
      assert c.queue + ps == (c.queue + [ps[0]]) + ps[1..];
      assert HasUnknown(ps) <==> Unknown(ps[0]) || HasUnknown(ps[1..]) by {
        assert forall i :: 0 <= i < |ps[1..]| ==> ps[1..][i] == ps[i + 1];
        assert ps == [ps[0]] + ps[1..];
      }
    }
  }

  /** An XREAD with BLOCK can wait for an XADD, and EXEC then waits with it. */
  predicate AsksToBlock(p: Payload) { NameOf(p) == "xread" && exists i :: 0 <= i < |p| && Lower(p[i]) == "block" }

  /** Simple commands that answer at once. */
  ghost predicate AllSimple(ps: seq<Payload>) {
    forall i :: 0 <= i < |ps| ==>
      ps[i] != [] && !IsAck(ps[i]) && KindOf(NameOf(ps[i])) == Some(Simple) && !AsksToBlock(ps[i])
  }

  /** The same desk, but for the log of propagated commands. */
  predicate SameButLog(d: Desk, e: Desk) { d.(propagated := e.propagated) == e }

  lemma ServingIgnoresLog(d: Desk, e: Desk, key: string)
    requires SameButLog(d, e)
    ensures SameButLog(Notify(d, key), Notify(e, key))
  {
    hide TryLPop, Blocking.RemoveWaiter;
  }

  lemma RunningIgnoresLog(env: Env, d: Desk, e: Desk, name: string, args: seq<string>)
    requires SameButLog(d, e)
    ensures SameButLog(RunSimple(env, d, name, args).0, RunSimple(env, e, name, args).0)
    ensures RunSimple(env, d, name, args).1 == RunSimple(env, e, name, args).1
  {
    hide Execute, Notify, Taken;
    if |args| >= 2 {
      var o, pushed := Execute(env, d.store, name, args), d.pushed + Tagged(args[0], args[1..]);
      ServingIgnoresLog(d.(store := o.store, pushed := pushed), e.(store := o.store, pushed := pushed), args[0]);
    }
  }

  /** EXEC on simple commands does to the store and to the waiting clients what the same commands do one
      by one; only the logs of propagated commands can differ. */
  lemma {:induction false} ExecIsSequential(env: Env, d: Desk, e: Desk, ps: seq<Payload>)
    requires AllSimple(ps) && SameButLog(d, e)
    ensures Play(env, FRESH, d, ps).0 == FRESH
    ensures SameButLog(Play(env, FRESH, d, ps).1, ExecQueue(env, e, ps).desk)
    decreases ps
  {
    hide Dispatch, ExecOne, KindOf, Lower, IsAck, AsksToBlock;
    if ps != [] {
      assert ps == [ps[0]] + ps[1..];
      var r := Dispatch(env, FRESH, d, ps[0]);
      SimpleDispatch(env, d, e, ps[0]);
      assert AllSimple(ps[1..]) by { assert forall i :: 0 <= i < |ps[1..]| ==> ps[1..][i] == ps[i + 1]; }
      ExecIsSequential(env, r.desk, ExecOne(env, e, ps[0]).desk, ps[1..]);
    }
  }

  lemma SimpleDispatch(env: Env, d: Desk, e: Desk, p: Payload)
    requires p != [] && !IsAck(p) && KindOf(NameOf(p)) == Some(Simple) && SameButLog(d, e)
    ensures var r := Dispatch(env, FRESH, d, p);
            && r.conn == FRESH && r.effect == Nothing
            && SameButLog(r.desk, ExecOne(env, e, p).desk)
            && SameButLog(r.desk, RunSimple(env, d, NameOf(p), ArgsOf(p)).0)
  {
    hide RunSimple, KindOf, Lower, IsAck, ItemsOf;
    RunningIgnoresLog(env, d, e, NameOf(p), ArgsOf(p));
  }

  lemma SimpleIsQueueable(p: Payload)
    requires p != [] && !IsAck(p) && KindOf(NameOf(p)) == Some(Simple)
    ensures Queueable(p) && !Unknown(p)
  {
    hide Lower, IsAck;
  }

  /** MULTI, any simple commands, EXEC: the desk ends up as if the commands had been sent plainly,
      and until EXEC it has not changed at all. */
  lemma TransactionIsSequential(env: Env, d: Desk, ps: seq<Payload>)
    requires AllSimple(ps)
    ensures var queued := Play(env, Multi(FRESH, d, []).conn, d, ps);
            && queued.1 == d
            && SameButLog(Play(env, FRESH, d, ps).1, Exec(env, queued.0, d, []).desk)
            && Exec(env, queued.0, d, []).conn == FRESH
  {
    hide KindOf, Lower, IsAck, ItemsOf, FormatItems, Dispatch, Play, ExecQueue, Queueable, Unknown, AsksToBlock;
    forall i | 0 <= i < |ps| ensures Queueable(ps[i]) && !Unknown(ps[i]) { SimpleIsQueueable(ps[i]); }
    var open := Multi(FRESH, d, []).conn;
    QueueingIsInvisible(env, open, d, ps);
    ExecIsSequential(env, d, d, ps);
    assert open.queue + ps == ps;
  }

  // ---- what EXEC answers -----------------------------------------------------------------------------

  /** EXEC's array has room for these replies only: an array reply is dropped. */
  predicate Answerable(raw: string) { raw == "" || raw[0] == '-' || raw[0] == ':' || raw[0] == '+' || raw[0] == '$' }

  /** The reference: how many of the plain replies can be put into EXEC's array. */
  function AnswerCount(env: Env, d: Desk, ps: seq<Payload>): nat
    decreases ps
  {
    if ps == [] then 0
    else
      var (e, reply) := RunSimple(env, d, NameOf(ps[0]), ArgsOf(ps[0]));
      (if Answerable(reply) then 1 else 0) + AnswerCount(env, e, ps[1..])
  }

  /** One element for each reply that starts with -, :, + or $, and none for the others. */
  lemma {:induction false} ExecAnswersCount(env: Env, d: Desk, e: Desk, ps: seq<Payload>)
    requires AllSimple(ps) && SameButLog(d, e)
    ensures |ExecQueue(env, e, ps).items| == AnswerCount(env, d, ps)
    decreases ps
  {
    hide RunSimple, KindOf, Lower, IsAck, Trim, AsksToBlock;
    if ps != [] {
      var name, args := NameOf(ps[0]), ArgsOf(ps[0]);
      RunningIgnoresLog(env, d, e, name, args);
      assert AllSimple(ps[1..]) by { assert forall i :: 0 <= i < |ps[1..]| ==> ps[1..][i] == ps[i + 1]; }
      ExecAnswersCount(env, RunSimple(env, d, name, args).0, ExecOne(env, e, ps[0]).desk, ps[1..]);
    }
  }

  /** So two queued commands can get one answer: LPOP with a count replies with an array. */
  lemma CountedPopIsNotAnswered(env: Env, key: string, item: string)
    ensures var s := EMPTY.Set(key, StoreValue(List([item]), Never));
            !Answerable(LPopCount(s, key, 1).reply)
  {
  }
}
