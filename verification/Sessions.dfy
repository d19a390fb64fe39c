/** What a connection has been sent decides whether it is in a transaction and what it is subscribed to. */
module Sessions {
  import opened Text
  import opened Commands
  import opened Blocking
  import opened Dispatcher
  import opened Transactions

  /** EXEC or DISCARD without arguments. */
  predicate Ends(p: Payload) { |p| == 1 && (NameOf(p) == "exec" || NameOf(p) == "discard") }

  /** The reference, from the payloads alone: some MULTI came while nothing was subscribed, and nothing has ended the
      transaction since. */
  ghost predicate Open(sent: seq<Payload>)
    decreases |sent|, 0
  {
    exists i :: 0 <= i < |sent| && IsMulti(sent[i]) && Channels(sent[..i]) == {} && forall j :: i < j < |sent| ==> !Ends(sent[j])
  }

  /** The reference for the subscriptions: SUBSCRIBE and UNSUBSCRIBE count outside transactions. */
  ghost function Channels(sent: seq<Payload>): set<string>
    decreases |sent|, 1
  {
    if sent == [] then {}
    else
      var before, p := sent[..|sent| - 1], sent[|sent| - 1];
      var named := set i | 1 <= i < |p| :: p[i];
      if Open(before) then Channels(before)
      else if NameOf(p) == "subscribe" then Channels(before) + named
      else if NameOf(p) == "unsubscribe" then Channels(before) - named
      else Channels(before)
  }

  lemma OpenOneMore(sent: seq<Payload>, p: Payload)
    ensures Open(sent + [p]) <==> (IsMulti(p) && Channels(sent) == {}) || (Open(sent) && !Ends(p))
  {
    hide IsMulti, Ends, Channels;
    var more := sent + [p];
    assert more[..|sent|] == sent;
    assert forall i :: 0 <= i < |sent| ==> more[i] == sent[i] && more[..i] == sent[..i];
    if Open(more) {
      var i :| 0 <= i < |more| && IsMulti(more[i]) && Channels(more[..i]) == {} && forall j :: i < j < |more| ==> !Ends(more[j]);
      if i < |sent| { assert Open(sent) && !Ends(more[|sent|]); }
    }
    if IsMulti(p) && Channels(sent) == {} { assert IsMulti(more[|sent|]); }
    if Open(sent) && !Ends(p) {
      var i :| 0 <= i < |sent| && IsMulti(sent[i]) && Channels(sent[..i]) == {} && forall j :: i < j < |sent| ==> !Ends(sent[j]);
      assert IsMulti(more[i]) && Channels(more[..i]) == {};
    }
  }

  lemma ChannelsOneMore(sent: seq<Payload>, p: Payload)
    ensures var named := set i | 1 <= i < |p| :: p[i];
            Channels(sent + [p]) ==
              if Open(sent) then Channels(sent)
              else if NameOf(p) == "subscribe" then Channels(sent) + named
              else if NameOf(p) == "unsubscribe" then Channels(sent) - named
              else Channels(sent)
  {
    hide NameOf, Open;
    assert (sent + [p])[..|sent|] == sent;
  }

  /** The connection is where its payloads say; outside transactions nothing is queued. */
  ghost predicate InStep(c: Conn, sent: seq<Payload>) {
    (c.inTransaction <==> Open(sent)) && c.channels == Channels(sent) && (c.inTransaction ==> c.channels == {})
    && (!c.inTransaction ==> c.queue == [])
  }

  lemma MultiAndEnds(p: Payload)
    requires IsMulti(p) || Ends(p)
    ensures KindOf(NameOf(p)) == Some(Stateful) && IsImmediate(NameOf(p)) && !IsAck(p) && p != [] && ArgsOf(p) == []
    ensures !AllowedWhenSubscribed(NameOf(p)) && NameOf(p) != "subscribe" && NameOf(p) != "unsubscribe"
  {
    hide Lower;
  }

  lemma AcksAreNothing(p: Payload)
    requires IsAck(p)
    ensures !IsMulti(p) && !Ends(p) && NameOf(p) != "subscribe" && NameOf(p) != "unsubscribe"
  {
    hide Lower;
  }

  lemma NamedIsArgs(p: Payload)
    requires p != []
    ensures (set i | 1 <= i < |p| :: p[i]) == (set i | 0 <= i < |ArgsOf(p)| :: ArgsOf(p)[i])
  {
    var a, b := set i | 1 <= i < |p| :: p[i], set i | 0 <= i < |ArgsOf(p)| :: ArgsOf(p)[i];
    forall x | x in a ensures x in b { var i :| 1 <= i < |p| && p[i] == x; assert ArgsOf(p)[i - 1] == x; }
    forall x | x in b ensures x in a { var i :| 0 <= i < |ArgsOf(p)| && ArgsOf(p)[i] == x; assert p[i + 1] == x; }
  }

  /** Serving a command that is neither queued nor refused. */
  lemma ServeKeepsStep(env: Env, c: Conn, d: Desk, p: Payload)
    requires p != [] && (c.inTransaction ==> IsImmediate(NameOf(p)) && c.channels == {}) && (!c.inTransaction ==> c.queue == [])
    requires c.channels != {} ==> AllowedWhenSubscribed(NameOf(p))
    ensures var n := Serve(env, c, d, p).conn;
            && (n.inTransaction <==> IsMulti(p) || (c.inTransaction && !Ends(p)))
            && (!n.inTransaction ==> n.queue == [])
            && n.channels == (if c.inTransaction then c.channels
                              else if NameOf(p) == "subscribe" then c.channels + set i | 1 <= i < |p| :: p[i]
                              else if NameOf(p) == "unsubscribe" then c.channels - set i | 1 <= i < |p| :: p[i]
                              else c.channels)
  {
    hide RunSimple, ExecQueue, FormatItems, Lower, Blocking.Block, BlpopError, PairReply, Ping, Error, ArgumentError, WaitCommand;
    NamedIsArgs(p);
    WaitKeepsConn(c, d, ArgsOf(p));
  }

  lemma WaitKeepsConn(c: Conn, d: Desk, args: seq<string>)
    ensures WaitCommand(c, d, args).conn == c
  {
  }

  lemma DispatchInStep(env: Env, c: Conn, d: Desk, sent: seq<Payload>, p: Payload)
    requires InStep(c, sent)
    ensures InStep(Dispatch(env, c, d, p).conn, sent + [p])
  {
    hide Serve, Open, Channels, NameOf, KindOf, IsMulti, Ends, IsImmediate, AllowedWhenSubscribed, IsAck, Refusal;
    OpenOneMore(sent, p);
    ChannelsOneMore(sent, p);
    if IsMulti(p) || Ends(p) { MultiAndEnds(p); }
    if p == [] {
      NothingIsNothing();
    } else if IsAck(p) {
      AcksAreNothing(p);
    } else if c.inTransaction && !IsImmediate(NameOf(p)) {
    } else if c.channels != {} && !AllowedWhenSubscribed(NameOf(p)) {
      SubscribingIsAllowed();
    } else {
      ServeKeepsStep(env, c, d, p);
    }
  }

  lemma SubscribingIsAllowed()
    ensures AllowedWhenSubscribed("subscribe") && AllowedWhenSubscribed("unsubscribe")
  {
  }

  lemma NothingIsNothing()
    ensures !IsMulti([]) && !Ends([]) && NameOf([]) == ""
  {
  }

  lemma NothingSent()
    ensures !Open([]) && Channels([]) == {}
  {
  }

  /** Over every run of one connection: it is in a transaction if and only if a MULTI was sent that nothing has ended
      since; its channels are what it subscribed to outside transactions; and outside transactions nothing is queued.
      */
  lemma {:induction false} RunIsInStep(run: seq<Sent>)
    ensures InStep(ConnAfter(run), Payloads(run))
  {
    hide Dispatch, InStep;
    if run == [] {
      assert Payloads(run) == [];
      NothingSent();
      FreshIsInStep();
    } else {
      var last, before := run[|run| - 1], run[..|run| - 1];
      RunIsInStep(before);
      DispatchInStep(last.env, ConnAfter(before), last.desk, Payloads(before), last.payload);
      assert Payloads(run) == Payloads(before) + [last.payload];
    }
  }

  lemma FreshIsInStep()
    requires !Open([]) && Channels([]) == {}
    ensures InStep(FRESH, [])
  {
  }

  // ---- DISCARD and what comes after -----------------------------------------------------------------------------

  lemma EndNames()
    ensures NameOf(["DISCARD"]) == "discard" && NameOf(["EXEC"]) == "exec" && NameOf(["MULTI"]) == "multi"
    ensures Ends(["DISCARD"]) && Ends(["EXEC"]) && IsMulti(["MULTI"])
  {
    assert Lower("DISCARD") == "discard" && Lower("EXEC") == "exec" && Lower("MULTI") == "multi";
  }

  lemma ErrorTexts()
    ensures Error("EXEC without MULTI") == "-ERR " + "EXEC without MULTI" + "\r\n"
    ensures Error("DISCARD without MULTI") == "-ERR " + "DISCARD without MULTI" + "\r\n"
  {
  }

  /** EXEC on a connection that is not in a transaction answers an error and does nothing. */
  lemma ClosedExecFails(env: Env, c: Conn, d: Desk)
    requires !c.inTransaction && c.channels == {}
    ensures Dispatch(env, c, d, ["EXEC"]) == Reaction(c, d, Some("-ERR " + "EXEC without MULTI" + "\r\n"), Nothing)
  {
    hide NameOf, KindOf, Error;
    EndNames();
    ErrorTexts();
    MultiAndEnds(["EXEC"]);
  }

  /** EXEC of a transaction with an unknown command answers an error, runs nothing, and closes the transaction. */
  lemma FailedExecAborts(env: Env, c: Conn, d: Desk)
    requires c.inTransaction && c.transactionFailed && c.channels == {}
    ensures Dispatch(env, c, d, ["EXEC"])
         == Reaction(FRESH, d, Some("-ERR " + "EXECABORT Transaction discarded because of previous errors." + "\r\n"), Nothing)
  {
    DispatchExec(env, c, d);
  }

  /** DISCARD drops everything queued since MULTI: it answers OK, the desk is as it was, nothing is queued any more,
      and an EXEC after it, on whatever desk, answers an error and changes nothing. Without a transaction DISCARD is
      an error. */
  lemma DiscardDropsTheQueue(run: seq<Sent>, env: Env, d: Desk, later: Env, e: Desk)
    requires ConnAfter(run).channels == {}
    ensures var r := Dispatch(env, ConnAfter(run), d, ["DISCARD"]);
            && r.desk == d && r.effect == Nothing && r.conn.queue == [] && !r.conn.inTransaction
            && r.reply == Some(if Open(Payloads(run)) then "+OK\r\n" else "-ERR " + "DISCARD without MULTI" + "\r\n")
            && Dispatch(later, r.conn, e, ["EXEC"]) == Reaction(r.conn, e, Some("-ERR " + "EXEC without MULTI" + "\r\n"), Nothing)
  {
    hide NameOf, KindOf, Open, Channels, ConnAfter, Error;
    RunIsInStep(run);
    EndNames();
    ErrorTexts();
    MultiAndEnds(["DISCARD"]);
    ClosedExecFails(later, Dispatch(env, ConnAfter(run), d, ["DISCARD"]).conn, e);
  }

  // ---- what is queued -------------------------------------------------------------------------------------------------

  /** In a transaction everything but EXEC, DISCARD, MULTI and WATCH is queued, without any effect; WATCH is no known
      command, and the transaction goes on. ACKs are heard as always. */
  lemma OthersAreQueued(env: Env, c: Conn, d: Desk, p: Payload)
    requires c.inTransaction && c.channels == {} && p != [] && !IsAck(p)
    ensures NameOf(p) !in {"exec", "discard", "multi", "watch"} ==>
              var r := Dispatch(env, c, d, p);
              && r.reply == Some("+QUEUED\r\n") && r.desk == d && r.effect == Nothing
              && r.conn.inTransaction && r.conn.queue == c.queue + [p] && r.conn.channels == {}
              && (c.transactionFailed ==> r.conn.transactionFailed)
    ensures NameOf(p) == "watch" ==>
              Dispatch(env, c, d, p) == Reaction(c, d, Some("-ERR " + ("unknown command '" + p[0] + "'") + "\r\n"), Nothing)
  {
    hide NameOf, IsAck;
  }

  /** A command without any item is answered with an error, whatever the connection, and does nothing. */
  lemma NothingIsAnError(env: Env, c: Conn, d: Desk)
    ensures Dispatch(env, c, d, []) == Reaction(c, d, Some("-ERR internal server error\r\n"), Nothing)
  {
  }

  // ---- while subscribed ----------------------------------------------------------------------------------------------

  /** A subscribed connection runs nothing but the commands about subscriptions, PING and QUIT: everything else is
      refused and has no effect, except that ACKs are always heard. */
  lemma SubscribedIsRefused(env: Env, c: Conn, d: Desk, p: Payload)
    requires c.channels != {} && !c.inTransaction && p != [] && !IsAck(p)
    requires NameOf(p) !in {"subscribe", "unsubscribe", "psubscribe", "punsubscribe", "ping", "quit"}
    ensures Dispatch(env, c, d, p) == Reaction(c, d, Some("-ERR " + ("Can't execute '" + p[0] + "': only "
              + "(P|S)SUBSCRIBE / (P|S)UNSUBSCRIBE / PING / QUIT / RESET are allowed in this context") + "\r\n"), Nothing)
  {
    hide NameOf, Serve, KindOf, IsAck;
  }

  /** PSUBSCRIBE, PUNSUBSCRIBE and QUIT get through to be unknown; PING, SUBSCRIBE and UNSUBSCRIBE work. */
  lemma SubscribedIsServed(env: Env, c: Conn, d: Desk, p: Payload)
    requires c.channels != {} && !c.inTransaction && p != []
    ensures NameOf(p) in {"psubscribe", "punsubscribe", "quit"} ==>
              Dispatch(env, c, d, p) == Reaction(c, d, Some("-ERR " + ("unknown command '" + p[0] + "'") + "\r\n"), Nothing)
    ensures NameOf(p) == "subscribe" ==>
              Dispatch(env, c, d, p) == Reaction(c.(channels := c.channels + set i | 1 <= i < |p| :: p[i]), d, None, Nothing)
    ensures NameOf(p) == "unsubscribe" ==>
              Dispatch(env, c, d, p) == Reaction(c.(channels := c.channels - set i | 1 <= i < |p| :: p[i]), d, None, Nothing)
  {
    hide Lower;
    NamedIsArgs(p);
  }
}
