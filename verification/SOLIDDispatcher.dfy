/** The dispatcher and EXEC as they run: they call the commands, the blocking manager and the replication manager,
    which all work on shared objects. */
module SOLIDDispatchers {
  import opened Text
  import opened Store
  import opened Commands
  import opened CommandMethods
  import opened Blocking
  import opened Dispatcher
  import opened ReplicationManagers
  import opened BlockingManagers
  import WaitListeners
  import Resp

  class ConnectionState {
    var inTransaction: bool
    var transactionFailed: bool
    var commandQueue: seq<Payload>
    var subscribedChannels: set<string>

    constructor ()
      ensures View() == FRESH
    {
      inTransaction, transactionFailed, commandQueue, subscribedChannels := false, false, [], {};
    }

    function View(): Conn
      reads this
    {
      Conn(inTransaction, transactionFailed, commandQueue, subscribedChannels)
    }
  }

  /** formatArrayOfResponsesWithErrors. */
  method FormatArray(items: seq<Item>) returns (resp: string)
    ensures resp == Resp.Header('*', |items|) + CRLF + FormatItems(items)
  {
    hide FormatItem, Resp.Header;
    resp := Resp.Header('*', |items|) + CRLF;
    for i := 0 to |items|
      invariant resp + FormatItems(items[i..]) == Resp.Header('*', |items|) + CRLF + FormatItems(items)
    {
      assert items[i..][0] == items[i] && items[i..][1..] == items[i + 1..];
      resp := resp + FormatItem(items[i]);
    }
  }

  /** What a dispatch with this effect does to the replication manager, and what WAIT answers at once. */
  ghost predicate Managed(before: Board, after: Board, e: Effect, connection: Socket, reply: Option<string>) {
    match e
    case Nothing => after == before
    case Acked(offset) =>
      after == before.(listeners := WaitListeners.Unresolved(before.listeners, offset),
                       answered := before.answered + WaitListeners.Resolved(before.listeners, offset))
    case Registers => after == before.(replicas := before.replicas + [connection])
    case Waits(required) =>
      if before.replicas == [] || before.offset == 0 then reply == Some(IntReply(|before.replicas|)) && after == before
      else
        reply == None
        && after == before.(listeners := before.listeners + [WaitListeners.Listener(before.offset, required, 0)])
  }

  /** The offset grows with what is propagated; the effects say what happens to the rest. */
  ghost predicate ManagedButOffset(before: Board, after: Board, e: Effect, connection: Socket, reply: Option<string>) {
    Managed(before, after.(offset := before.offset), e, connection, reply) && (e != Nothing ==> after.offset == before.offset)
  }

  class SOLIDDispatcher {
    const redisStore: RedisStore
    const manager: ReplicationManager
    const blocking: BlockingManager
    const replid: string  // what PSYNC answers with
    const rdb: string

    constructor (blocking: BlockingManager, replid: string, rdb: string)
      ensures Wired() && this.blocking == blocking && this.replid == replid && this.rdb == rdb
    {
      this.redisStore, this.manager, this.blocking := blocking.redisStore, blocking.replicationManager, blocking;
      this.replid, this.rdb := replid, rdb;
    }

    predicate Wired() { blocking.redisStore == redisStore && blocking.replicationManager == manager }

    /** execute of a simple command. */
    method ExecuteSimple(env: Env, name: string, args: seq<string>) returns (reply: string)
      requires Wired()
      modifies blocking, redisStore, manager`masterReplOffset, manager`propagated, manager.Sockets()`written
      ensures (blocking.View(), reply) == RunSimple(env, old(blocking.View()), name, args)
    {
      hide Commands.Set, Commands.Get, Incr, Del, Expire, Commands.RPush, Commands.LPush, Commands.LPop, XAdd, Taken, Notify, IsError, Tagged;
      if name == "set" {
        reply := SetCommand(redisStore, env.now, args);
      } else if name == "get" {
        reply := GetCommand(redisStore, env, args);
      } else if name == "del" {
        reply := DelCommand(redisStore, args);
      } else if name == "incr" {
        reply := IncrCommand(redisStore, args);
      } else if name == "expire" {
        reply := ExpireCommand(redisStore, env.now, args);
      } else if name == "rpush" {
        if |args| < 2 { ShortPushesFail(redisStore.store, args); }
        reply := blocking.RPushCommand(args);
      } else if name == "lpush" {
        if |args| < 2 { ShortPushesFail(redisStore.store, args); }
        reply := blocking.LPushCommand(args);
      } else if name == "lpop" {
        ghost var before := redisStore.store;
        reply := LPopCommand(redisStore, args);
        if |args| >= 1 {
          blocking.delivered := blocking.delivered + Tagged(args[0], Taken(before, redisStore.store, args[0]));
        }
      } else if name == "xadd" {
        reply := XAddCommand(redisStore, env.now, args);
      } else if name == "replconf" {
        reply := OK;
      } else {
        reply := env.answer(redisStore.store, [name] + args);
      }
    }

    /** EXEC: reset the state, then run the queue one command after the other. */
    method ExecCommand(env: Env, args: seq<string>, state: ConnectionState) returns (reply: string)
      requires Wired()
      modifies state, blocking, redisStore, manager`masterReplOffset, manager`propagated, manager.Sockets()`written
      ensures var r := Exec(env, old(state.View()), old(blocking.View()), args);
              state.View() == r.conn && blocking.View() == r.desk && r.reply == Some(reply) && r.effect == Nothing
    {
      hide ExecOne, Resp.Header, FormatItems, ArgumentError, Error;
      if args != [] { return ArgumentError("exec"); }
      if !state.inTransaction { return Error("EXEC without MULTI"); }
      var queuedCommands, transactionFailed := state.commandQueue, state.transactionFailed;
      state.inTransaction, state.commandQueue, state.transactionFailed := false, [], false;
      if transactionFailed { return EXEC_ABORT; }

      var responses: seq<Item> := [];
      ghost var ran := ExecQueue(env, blocking.View(), queuedCommands);
      assert queuedCommands[0..] == queuedCommands;
      for i := 0 to |queuedCommands|
        invariant var rest := ExecQueue(env, blocking.View(), queuedCommands[i..]);
                  rest.desk == ran.desk && responses + rest.items == ran.items
        invariant state.View() == Conn(false, false, [], old(state.subscribedChannels))
      {
        var payload := queuedCommands[i];
        assert queuedCommands[i..][0] == payload && queuedCommands[i..][1..] == queuedCommands[i + 1..];
        ghost var one := ExecOne(env, blocking.View(), payload);
        var items := RunQueued(env, payload);
        assert (responses + items) + ExecQueue(env, one.desk, queuedCommands[i + 1..]).items
            == responses + (items + ExecQueue(env, one.desk, queuedCommands[i + 1..]).items);
        responses := responses + items;
      }
      assert queuedCommands[|queuedCommands|..] == [];
      assert responses + [] == responses;
      reply := FormatArray(responses);
    }

    /** One queued command of EXEC. */
    method RunQueued(env: Env, payload: Payload) returns (items: seq<Item>)
      requires Wired()
      modifies blocking, redisStore, manager`masterReplOffset, manager`propagated, manager.Sockets()`written
      ensures var one := ExecOne(env, old(blocking.View()), payload); blocking.View() == one.desk && items == one.items
    {
      hide KindOf, ExecPropagates, RunSimple, ItemsOf, PopAny, BlpopError;
      var name, args := NameOf(payload), ArgsOf(payload);
      var kind := KindOf(name);
      if kind == None { return [Line(Thrown("unknown command '" + Original(payload) + "' during EXEC"))]; }
      match kind.value
      case Simple =>
        var rawResponse := ExecuteSimple(env, name, args);
        if ExecPropagates(name) { manager.Propagate(payload); }
        items := ItemsOf(rawResponse);
      case Stateful =>
        if name == "ping" {
          items := ItemsOf(if args == [] then "+PONG\r\n" else "+" + args[0] + CRLF);
        } else if name == "blpop" {
          var failure := BlpopError(args);
          if failure.Some? { return ItemsOf(failure.value); }
          var found := blocking.PopFirstOf(Keys(args));
          items := ItemsOf(if found.Some? then PairReply(found).value else NIL);
        } else {
          items := [Null];
        }
      case Replication => items := [Line(Thrown("Command type 'replication' not supported inside EXEC."))];
      case Orchestration => items := [Line(Thrown("Command type 'orchestration' not supported inside EXEC."))];
    }

    /** dispatch. A blocked BLPOP and a running WAIT answer later. */
    method Dispatch(env: Env, connection: Socket, payload: Payload, state: ConnectionState) returns (reply: Option<string>)
      requires Wired()
      modifies state, blocking, redisStore, manager, manager.Sockets()`written, connection`written
      ensures var r := Dispatcher.Dispatch(env, old(state.View()), old(blocking.View()), payload);
              && state.View() == r.conn && blocking.View() == r.desk
              && (!r.effect.Waits? ==> reply == r.reply) && ManagedButOffset(old(manager.ViewBoard()), manager.ViewBoard(), r.effect, connection, reply)
    {
      hide Serve, KindOf, Refusal, IsAck, IsImmediate, AllowedWhenSubscribed;
      if payload == [] { return Some("-ERR internal server error\r\n"); }
      var commandLower := NameOf(payload);
      if IsAck(payload) {
        manager.ReceiveAck(AckValue(payload));
        return None;
      }
      if state.inTransaction && !IsImmediate(commandLower) {
        if KindOf(commandLower) == None { state.transactionFailed := true; }
        state.commandQueue := state.commandQueue + [payload];
        return Some(QUEUED);
      }
      if state.subscribedChannels != {} && !AllowedWhenSubscribed(commandLower) {
        return Some(Refusal(payload[0]));
      }
      reply := ServeCommand(env, connection, payload, state);
    }

    method ServeCommand(env: Env, connection: Socket, payload: Payload, state: ConnectionState) returns (reply: Option<string>)
      requires Wired()
      modifies state, blocking, redisStore, manager, manager.Sockets()`written, connection`written
      ensures var r := Serve(env, old(state.View()), old(blocking.View()), payload);
              && state.View() == r.conn && blocking.View() == r.desk
              && (!r.effect.Waits? ==> reply == r.reply) && ManagedButOffset(old(manager.ViewBoard()), manager.ViewBoard(), r.effect, connection, reply)
    {
      hide NameOf, ArgsOf, Original, KindOf, RunSimple, RunStateful, Error, ArgumentError, IntReply, ParseInt, Subscriptions,
           IsWrite, Propagates, WaitListeners.Unresolved, WaitListeners.Resolved, Logged;
      var name, args := NameOf(payload), ArgsOf(payload);
      var kind := KindOf(name);
      if kind == None { return Some(Error("unknown command '" + Original(payload) + "'")); }
      match kind.value
      case Simple =>
        var response := ServeSimple(env, payload, state);
        reply := Some(response);
      case Stateful => reply := ServeStateful(env, name, args, state);
      case Replication => reply := ServeReplication(connection, name, args, state);
      case Orchestration => reply := ServeWait(args);
    }

    /** The propagation rule. */
    method ServeSimple(env: Env, payload: Payload, state: ConnectionState) returns (response: string)
      requires Wired()
      modifies blocking, redisStore, manager`masterReplOffset, manager`propagated, manager.Sockets()`written
      ensures var (e, raw) := RunSimple(env, old(blocking.View()), NameOf(payload), ArgsOf(payload));
              && response == raw
              && blocking.View() == if Propagates(old(state.View()), NameOf(payload), raw) then Logged(e, payload) else e
      ensures state.View() == old(state.View())
    {
      hide RunSimple, IsWrite;
      var name := NameOf(payload);
      response := ExecuteSimple(env, name, ArgsOf(payload));
      if response != "" && !state.inTransaction && IsWrite(name) && response[0] != '-' {
        manager.Propagate(payload);
      }
    }

    method ServeReplication(connection: Socket, name: string, args: seq<string>, state: ConnectionState) returns (reply: Option<string>)
      modifies state, manager`replicas, connection`written
      ensures reply == None
      ensures name == "psync" ==>
                state.View() == old(state.View()) && manager.ViewBoard() == old(manager.ViewBoard()).(replicas := old(manager.replicas) + [connection])
      ensures name != "psync" ==>
                state.View() == Subscriptions(old(state.View()), name, args) && manager.ViewBoard() == old(manager.ViewBoard())
    {
      if name == "psync" {
        manager.Psync(connection, replid, rdb);
      } else {
        state.subscribedChannels := Subscriptions(state.View(), name, args).channels;
      }
      reply := None;
    }

    method ServeWait(args: seq<string>) returns (reply: Option<string>)
      modifies manager`listeners, manager.Sockets()`written
      ensures |args| != 2 ==>
                reply == Some(ArgumentError("wait")) && manager.ViewBoard() == old(manager.ViewBoard())
      ensures |args| == 2 ==>
                forall connection :: Managed(old(manager.ViewBoard()), manager.ViewBoard(), Waits(ParseInt(args[0])), connection, reply)
    {
      hide ParseInt, IntReply;
      if |args| != 2 { return Some(ArgumentError("wait")); }
      var count := manager.WaitForAcks(ParseInt(args[0]));
      reply := if count.Some? then Some(IntReply(count.value)) else None;
    }

    method ServeStateful(env: Env, name: string, args: seq<string>, state: ConnectionState) returns (reply: Option<string>)
      requires Wired()
      modifies state, blocking, redisStore, manager`masterReplOffset, manager`propagated, manager.Sockets()`written
      ensures var r := RunStateful(env, old(state.View()), old(blocking.View()), name, args);
              state.View() == r.conn && blocking.View() == r.desk && reply == r.reply && r.effect == Nothing
    {
      hide Exec, Ping, Block, BlpopError, Error, ArgumentError;
      if name == "multi" {
        if args != [] { return Some(ArgumentError("multi")); }
        state.inTransaction, state.commandQueue, state.transactionFailed := true, [], false;
        reply := Some(OK);
      } else if name == "discard" {
        if args != [] { return Some(ArgumentError("discard")); }
        if !state.inTransaction { return Some(Error("DISCARD without MULTI")); }
        state.inTransaction, state.commandQueue := false, [];
        reply := Some(OK);
      } else if name == "exec" {
        var answer := ExecCommand(env, args, state);
        reply := Some(answer);
      } else if name == "blpop" {
        var failure := BlpopError(args);
        if failure.Some? { return failure; }
        var found := blocking.BlockOnLists(Keys(args), env.connection);
        reply := PairReply(found);
      } else {
        reply := Some(Ping(state.View(), args));
      }
    }
  }

  lemma ShortPushesFail(s: Store, args: seq<string>)
    requires |args| < 2
    ensures Commands.RPush(s, args).store == s && Commands.LPush(s, args).store == s
  {
  }
}
