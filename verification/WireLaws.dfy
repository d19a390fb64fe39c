/** What a client gets back, and what the replicas get, for each command it sends: dispatching means running the
    command of that name, in any case, on the arguments behind it. */
module WireLaws {
  import opened Text
  import opened Store
  import opened Commands
  import opened Blocking
  import opened Dispatcher
  import Resp

  /** The reaction is this outcome; the log has grown by this, and nobody's waiting has changed. */
  ghost predicate ServedAs(r: Reaction, d: Desk, o: Outcome, log: seq<Payload>) {
    && r.conn == FRESH && r.effect == Nothing && r.reply == Some(o.reply) && r.desk.store == o.store
    && r.desk.propagated == d.propagated + log && r.desk.queues == d.queues
  }

  /** A write is propagated as it came, unless it failed. */
  function IfDone(p: Payload, o: Outcome): seq<Payload> { if o.reply != "" && o.reply[0] != '-' then [p] else [] }

  lemma SimpleIsServed(env: Env, d: Desk, name: string, args: seq<string>)
    requires KindOf(Lower(name)) == Some(Simple) && Lower(name) != "replconf" && !IsPush(Lower(name)) && Lower(name) != "lpop"
    ensures var p, o := [name] + args, Execute(env, d.store, Lower(name), args);
            ServedAs(Dispatch(env, FRESH, d, p), d, o, if IsWrite(Lower(name)) then IfDone(p, o) else [])
  {
    hide Lower, KindOf, Execute, IsWrite;
    var p := [name] + args;
    assert p[1..] == args;
    assert d.propagated + [] == d.propagated;
  }

  lemma IsServedByName(name: string)
    ensures Lower(name) in {"set", "get", "del", "incr", "expire", "xadd", "rpush", "lpush", "lpop"} ==>
              KindOf(Lower(name)) == Some(Simple) && Lower(name) != "replconf"
    ensures Lower(name) in {"set", "del", "incr", "expire", "xadd", "rpush", "lpush", "lpop"} ==> IsWrite(Lower(name))
    ensures Lower(name) in {"set", "get", "del", "incr", "expire", "xadd"} ==> !IsPush(Lower(name)) && Lower(name) != "lpop"
    ensures !IsWrite("get")
  {
    hide Lower;
  }

  /** SET, DEL, INCR, EXPIRE and XADD run on the master's clock, answer, and are propagated unless they fail; GET runs
      and is not propagated. */
  lemma CommandsAreServed(env: Env, d: Desk, name: string, args: seq<string>)
    ensures var r, p, s := Dispatch(env, FRESH, d, [name] + args), [name] + args, d.store;
            && (Lower(name) == "set" ==> ServedAs(r, d, Commands.Set(env.now, s, args), IfDone(p, Commands.Set(env.now, s, args))))
            && (Lower(name) == "del" ==> ServedAs(r, d, Del(s, args), IfDone(p, Del(s, args))))
            && (Lower(name) == "incr" ==> ServedAs(r, d, Incr(s, args), IfDone(p, Incr(s, args))))
            && (Lower(name) == "expire" ==> ServedAs(r, d, Expire(env.now, s, args), IfDone(p, Expire(env.now, s, args))))
            && (Lower(name) == "xadd" ==> ServedAs(r, d, XAdd(env.now, s, args), IfDone(p, XAdd(env.now, s, args))))
            && (Lower(name) == "get" ==> ServedAs(r, d, Commands.Get(env, s, args), []))
  {
    hide Lower, Dispatch, ServedAs, Commands.Set, Del, Incr, Expire, XAdd, Commands.Get, IsWrite, KindOf, IfDone;
    IsServedByName(name);
    if Lower(name) in {"set", "get", "del", "incr", "expire", "xadd"} { SimpleIsServed(env, d, name, args); }
  }

  /** So are RPUSH and LPUSH while nobody waits on the key; and whoever waits, the answer is the length before anybody
      is served. */
  lemma PushesAreServed(env: Env, d: Desk, name: string, key: string, items: seq<string>)
    requires Lower(name) == "rpush" || Lower(name) == "lpush"
    ensures var r, p := Dispatch(env, FRESH, d, [name, key] + items), [name, key] + items;
            var o := if Lower(name) == "rpush" then Commands.RPush(d.store, [key] + items) else Commands.LPush(d.store, [key] + items);
            && r.reply == Some(o.reply) && r.conn == FRESH && r.effect == Nothing
            && (QueueOf(d.queues, key) == [] && items != [] ==> ServedAs(r, d, o, IfDone(p, o)))
  {
    hide Lower, Commands.RPush, Commands.LPush, IsWrite, KindOf, Notify, Tagged;
    IsServedByName(name);
    var p, args := [name, key] + items, [key] + items;
    assert p[1..] == args && args[1..] == items;
    assert d.propagated + [] == d.propagated;
    if QueueOf(d.queues, key) == [] { NobodyIsNotified(d, key); }
    FailedPushes(d.store, args);
  }

  lemma FailedPushes(s: Store, args: seq<string>)
    ensures IsError(Commands.RPush(s, args).reply) ==> Commands.RPush(s, args).store == s
    ensures IsError(Commands.LPush(s, args).reply) ==> Commands.LPush(s, args).store == s
  {
    hide ListAt, StoreList, DecInt, Reverse;
  }

  lemma NobodyIsNotified(d: Desk, key: string)
    requires QueueOf(d.queues, key) == []
    ensures forall e: Desk :: e.queues == d.queues ==> Notify(e, key) == e
  {
  }

  /** LPOP. */
  lemma PopIsServed(env: Env, d: Desk, name: string, args: seq<string>)
    requires Lower(name) == "lpop"
    ensures var p, o := [name] + args, Commands.LPop(d.store, args); ServedAs(Dispatch(env, FRESH, d, p), d, o, IfDone(p, o))
  {
    hide Lower, Commands.LPop, IsWrite, KindOf, Taken, Tagged;
    IsServedByName(name);
    var p := [name] + args;
    assert p[1..] == args;
    assert d.propagated + [] == d.propagated;
  }

  // ---- BLPOP ----------------------------------------------------------------------------------------------------------

  lemma {:induction false} FirstListIsPopped(d: Desk, keys: seq<string>, i: nat)
    requires i < |keys| && (forall j :: 0 <= j < i ==> ListAt(d.store, keys[j]) == [])
    requires ListAt(d.store, keys[i]) != [] && ListAt(d.store, keys[i])[0] != ""
    ensures PopAny(d, keys) == (PopAndPropagate(d, keys[i]).0, Some((keys[i], ListAt(d.store, keys[i])[0])))
    decreases keys
  {
    hide ListAt, UpdateStore;
    if i > 0 {
      assert d.delivered + [] == d.delivered && d.propagated + [] == d.propagated;
      assert PopAndPropagate(d, keys[0]) == (d, None);
      FirstListIsPopped(d, keys[1..], i - 1);
    }
  }

  /** BLPOP takes the head of the first listed key whose list is not empty, answers the key and then the element, and
      is propagated as an LPOP of that key; nobody waits. */
  lemma BlpopAnswers(env: Env, d: Desk, keys: seq<string>, timeout: nat, i: nat)
    requires i < |keys| && (forall j :: 0 <= j < i ==> ListAt(d.store, keys[j]) == [])
    requires ListAt(d.store, keys[i]) != [] && ListAt(d.store, keys[i])[0] != ""
    ensures var r := Dispatch(env, FRESH, d, ["BLPOP"] + keys + [Dec(timeout)]);
            var head := ListAt(d.store, keys[i])[0];
            && r.reply == Some("*2\r\n" + Resp.Bulk(keys[i]) + Resp.Bulk(head))
            && r.desk.store == Commands.LPop(d.store, [keys[i]]).store
            && r.desk.propagated == d.propagated + [["LPOP", keys[i]]] && r.desk.queues == d.queues && r.desk.live == d.live
  {
    hide Dec, ParseInt, PopAny, ListAt, UpdateStore, HoldsOther, Resp.Bulk, BulkReply;
    var p := ["BLPOP"] + keys + [Dec(timeout)];
    var args := keys + [Dec(timeout)];
    assert Lower("BLPOP") == "blpop" && p[0] == "BLPOP" && |Lower(p[0])| == 5;
    assert p[1..] == args && args[..|args| - 1] == keys;
    ParseDec(timeout);
    FirstListIsPopped(d, keys, i);
    PairText(keys[i], ListAt(d.store, keys[i])[0]);
    ListIsNoOtherType(d.store, keys[i]);
  }

  lemma ListIsNoOtherType(s: Store, key: string)
    requires ListAt(s, key) != []
    ensures !HoldsOther(s, key)
  {
  }

  lemma PairText(a: string, b: string)
    ensures Resp.ToRESP([a, b]) == "*2\r\n" + Resp.Bulk(a) + Resp.Bulk(b)
  {
    hide Resp.Bulk;
    assert [a, b][1..] == [b] && [b][1..] == [];
    assert Dec(2) == "2" && Resp.Header('*', 2) + CRLF == "*2\r\n";
    assert Resp.Bulks([b]) == Resp.Bulk(b) + "" == Resp.Bulk(b);
    assert Resp.Bulks([a, b]) == Resp.Bulk(a) + Resp.Bulk(b);
    assert "*2\r\n" + (Resp.Bulk(a) + Resp.Bulk(b)) == "*2\r\n" + Resp.Bulk(a) + Resp.Bulk(b);
  }

  /** If all listed lists are empty it answers nothing yet, and the client waits in the queue of each of its
      keys. */
  lemma BlpopWaits(env: Env, d: Desk, keys: seq<string>, timeout: nat)
    requires keys != [] && forall j :: 0 <= j < |keys| ==> ListAt(d.store, keys[j]) == []
    ensures var r := Dispatch(env, FRESH, d, ["BLPOP"] + keys + [Dec(timeout)]);
            && r.reply == None && r.desk.store == d.store && r.desk.propagated == d.propagated
            && (forall k :: k in keys ==> QueueOf(r.desk.queues, k) != []
                                          && QueueOf(r.desk.queues, k)[|QueueOf(r.desk.queues, k)| - 1].connection == env.connection)
            && forall k :: k !in keys ==> QueueOf(r.desk.queues, k) == QueueOf(d.queues, k)
  {
    hide Dec, ParseInt, PopAny, ListAt, Enqueue;
    var p := ["BLPOP"] + keys + [Dec(timeout)];
    var args := keys + [Dec(timeout)];
    assert Lower("BLPOP") == "blpop" && p[0] == "BLPOP" && |Lower(p[0])| == 5;
    assert p[1..] == args && args[..|args| - 1] == keys;
    ParseDec(timeout);
    NothingIsPopped(d, keys);
    JoinsEveryQueue(d.queues, keys, Waiter(d.nextId, keys, env.connection));
  }

  /** With too few arguments, or a timeout that is no number or negative, BLPOP answers an error and does nothing. */
  lemma BlpopRefuses(env: Env, d: Desk, args: seq<string>)
    requires |args| < 2 || ParseInt(args[|args| - 1]) == None || ParseInt(args[|args| - 1]).value < 0
    ensures Dispatch(env, FRESH, d, ["BLPOP"] + args)
         == Reaction(FRESH, d, Some(if |args| < 2 then "-ERR " + "wrong number of arguments for 'blpop' command" + "\r\n"
                                    else "-ERR " + "timeout is not an integer or out of range" + "\r\n"), Nothing)
  {
    hide ParseInt, PopAny, Enqueue;
    var p := ["BLPOP"] + args;
    assert Lower("BLPOP") == "blpop" && p[0] == "BLPOP" && |Lower(p[0])| == 5 && p[1..] == args;
    BlpopText();
  }

  lemma BlpopText()
    ensures ArgumentError("blpop") == "-ERR " + "wrong number of arguments for 'blpop' command" + "\r\n"
  {
  }

  lemma {:induction false} NothingIsPopped(d: Desk, keys: seq<string>)
    requires forall j :: 0 <= j < |keys| ==> ListAt(d.store, keys[j]) == []
    ensures PopAny(d, keys) == (d, None)
    decreases keys
  {
    hide ListAt, UpdateStore;
    if keys != [] {
      assert d.delivered + [] == d.delivered && d.propagated + [] == d.propagated;
      assert PopAndPropagate(d, keys[0]) == (d, None);
      NothingIsPopped(d, keys[1..]);
    }
  }

  lemma {:induction false} JoinsEveryQueue(queues: Queues, keys: seq<string>, w: Waiter)
    ensures var after := Enqueue(queues, keys, w);
            forall k :: if k in keys then QueueOf(after, k) != [] && QueueOf(after, k)[|QueueOf(after, k)| - 1] == w
                        else QueueOf(after, k) == QueueOf(queues, k)
    decreases keys
  {
    if keys != [] {
      var next := queues[keys[0] := QueueOf(queues, keys[0]) + [w]];
      JoinsEveryQueue(next, keys[1..], w);
      assert keys == [keys[0]] + keys[1..];
    }
  }

  // ---- the rest -------------------------------------------------------------------------------------------------------

  /** PING, plain and on a subscribed connection. */
  lemma PingMeans(env: Env, c: Conn, d: Desk, text: string)
    requires !c.inTransaction
    ensures var bare, said := Dispatch(env, c, d, ["PING"]), Dispatch(env, c, d, ["PING", text]);
            && bare.desk == said.desk == d && bare.conn == said.conn == c
            && (c.channels == {} ==> bare.reply == Some("+PONG\r\n") && said.reply == Some("+" + text + "\r\n"))
            && (c.channels != {} ==> said.reply == Some("*2\r\n" + Resp.Bulk("pong") + Resp.Bulk(text))
                                     && bare.reply == Some("*2\r\n" + Resp.Bulk("pong") + Resp.Bulk("")))
  {
    hide Resp.Bulk, Resp.ToRESP;
    assert Lower("PING") == "ping" && ["PING"][1..] == [] && ["PING", text][1..] == [text];
    PairText("pong", text);
    PairText("pong", "");
  }

  /** WAIT hands the number of replicas it wants to the replication manager; with any other number of arguments it
      answers an error. */
  lemma WaitMeans(env: Env, d: Desk, n: nat, timeout: string, args: seq<string>)
    ensures |args| != 2 ==>
              var r := Dispatch(env, FRESH, d, ["WAIT"] + args);
              r.conn == FRESH && r.desk == d && r.effect == Nothing && r.reply.Some? && IsError(r.reply.value)
    ensures Dispatch(env, FRESH, d, ["WAIT", Dec(n), timeout]) == Reaction(FRESH, d, None, Waits(Some(n)))
  {
    hide Dec, ParseInt;
    ParseDec(n);
    var p := ["WAIT", Dec(n), timeout];
    assert Lower("WAIT") == "wait" && |Lower("WAIT")| == 4 && p[1..] == [Dec(n), timeout];
    var q := ["WAIT"] + args;
    assert q[0] == "WAIT" && q[1..] == args;
  }

  /** A name that is none of these, in any case, is answered with an error that repeats it, and does nothing. */
  lemma UnknownIsRefused(env: Env, d: Desk, p: Payload)
    requires p != [] && !IsAck(p)
    requires Lower(p[0]) !in {"echo", "info", "replconf", "config", "get", "set", "rpush", "lrange", "lpush", "llen", "lpop", "expire",
                              "exists", "del", "type", "incr", "keys", "save", "xrange", "xrevrange", "xadd", "xread", "publish",
                              "multi", "discard", "exec", "blpop", "ping", "psync", "subscribe", "unsubscribe", "wait"}
    ensures Dispatch(env, FRESH, d, p) == Reaction(FRESH, d, Some("-ERR " + ("unknown command '" + p[0] + "'") + "\r\n"), Nothing)
  {
    hide IsAck, Lower;
  }

  /** The commands that only read are answered from the store; PUBLISH is so too, and is propagated; REPLCONF is
      answered OK. */
  lemma ReadersAreServed(env: Env, d: Desk, name: string, args: seq<string>)
    requires !IsAck([name] + args)
    ensures var r, p := Dispatch(env, FRESH, d, [name] + args), [name] + args;
            var o := Outcome(d.store, env.answer(d.store, [Lower(name)] + args));
            && (Lower(name) in {"echo", "info", "config", "lrange", "llen", "exists", "type", "keys", "save", "xrange", "xrevrange", "xread"}
                ==> ServedAs(r, d, o, []))
            && (Lower(name) == "publish" ==> ServedAs(r, d, o, IfDone(p, o)))
            && (Lower(name) == "replconf" ==> ServedAs(r, d, Outcome(d.store, "+OK\r\n"), []))
  {
    hide Lower, IsAck;
    var p := [name] + args;
    assert p[0] == name && p[1..] == args;
    assert d.propagated + [] == d.propagated;
  }

  /** REPLCONF ACK, in any case and on any connection, is never answered: its number goes to the running WAITs. PSYNC
      registers a replica. */
  lemma AcksAreHeard(env: Env, c: Conn, d: Desk, p: Payload, n: nat)
    requires |p| >= 2 && Lower(p[0]) == "replconf" && Lower(p[1]) == "ack"
    ensures Dispatch(env, c, d, p).conn == c && Dispatch(env, c, d, p).desk == d && Dispatch(env, c, d, p).reply == None
    ensures |p| >= 3 && p[2] == Dec(n) ==> Dispatch(env, c, d, p).effect == Acked(Some(n))
    ensures |p| == 2 || p[2] == "" ==> Dispatch(env, c, d, p).effect == Acked(None)
  {
    hide Lower, Dec, ParseInt;
    ParseAnyDecInt(n);
    NothingIsNaN();
  }

  lemma NothingIsNaN()
    ensures ParseInt("") == None
  {
  }

  lemma PsyncRegisters(env: Env, d: Desk, name: string, args: seq<string>)
    requires Lower(name) == "psync"
    ensures Dispatch(env, FRESH, d, [name] + args) == Reaction(FRESH, d, None, Registers)
  {
    hide Lower;
  }
}
