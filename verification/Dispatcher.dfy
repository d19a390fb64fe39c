/** The dispatcher: transactions, the propagation rule, and EXEC. All connections share one desk: the store, the
    queues of clients blocked by BLPOP, and the log of what has been propagated. */
module Dispatcher {
  import opened Text
  import opened Store
  import opened Commands
  import opened Blocking
  import Resp

  /** The command's name in lower case; a payload without one is answered at once and never queued. */
  function NameOf(p: Payload): string { if p == [] then "" else Lower(p[0]) }

  function Original(p: Payload): string { if p == [] then "" else p[0] }

  function ArgsOf(p: Payload): seq<string> { if p == [] then [] else p[1..] }

  // ---- the registry ----------------------------------------------------------------------------

  datatype Kind = Simple | Stateful | Replication | Orchestration

  predicate IsSimple(name: string) {
    name in {"echo", "info", "replconf", "config", "get", "set", "rpush", "lrange", "lpush", "llen", "lpop", "expire",
             "exists", "del", "type", "incr", "keys", "save", "xrange", "xrevrange", "xadd", "xread", "publish"}
  }

  function KindOf(name: string): Option<Kind> {
    if IsSimple(name) then Some(Simple)
    else if name in {"multi", "discard", "exec", "blpop", "ping"} then Some(Stateful)
    else if name in {"psync", "subscribe", "unsubscribe"} then Some(Replication)
    else if name == "wait" then Some(Orchestration)
    else None
  }

  predicate ExecPropagates(name: string) { name in {"set", "del", "incr", "expire", "xadd", "rpush", "lpush"} }

  predicate IsWrite(name: string) { ExecPropagates(name) || name == "lpop" || name == "publish" }

  predicate IsImmediate(name: string) { name in {"exec", "discard", "multi", "watch"} }

  predicate AllowedWhenSubscribed(name: string) {
    name in {"subscribe", "unsubscribe", "psubscribe", "punsubscribe", "ping", "quit"}
  }

  // ---- simple commands on the shared desk -------------------------------------------------------------

  function Logged(d: Desk, p: Payload): Desk { d.(propagated := d.propagated + [p]) }

  predicate IsPush(name: string) { name == "rpush" || name == "lpush" }

  /** What LPOP took from the front. */
  function Taken(s: Store, t: Store, key: string): seq<string> {
    var before, after := ListAt(s, key), ListAt(t, key);
    if |after| <= |before| then before[..|before| - |after|] else []
  }

  /** A simple command: pushes serve a waiting client before they reply. */
  function RunSimple(env: Env, d: Desk, name: string, args: seq<string>): (Desk, string) {
    var o := Execute(env, d.store, name, args);
    if IsPush(name) && |args| >= 2 then (PushAndServe(d, args[0], args[1..], o), o.reply)
    else if name == "lpop" && |args| >= 1 then
      (d.(store := o.store, delivered := d.delivered + Tagged(args[0], Taken(d.store, o.store, args[0]))), o.reply)
    else (d.(store := o.store), o.reply)
  }

  // ---- BLPOP -----------------------------------------------------------------------------------------------

  /** The error replies of BLPOP. */
  function BlpopError(args: seq<string>): Option<string> {
    if |args| < 2 then Some(ArgumentError("blpop"))
    else
      var timeout := ParseInt(args[|args| - 1]);
      if timeout == None || timeout.value < 0 then Some(Error("timeout is not an integer or out of range")) else None
  }

  function Keys(args: seq<string>): seq<string>
    requires BlpopError(args) == None
  {
    args[..|args| - 1]
  }

  function PairReply(found: Option<(string, string)>): Option<string> {
    match found
    case None => None
    case Some((key, item)) => Some(Resp.ToRESP([key, item]))
  }

  // ---- EXEC's answer ---------------------------------------------------------------------------

  /** An element of EXEC's answer. Number(None) is NaN. */
  datatype Item = Number(n: Option<int>) | Null | Line(text: string)

  function ItemsOf(raw: string): seq<Item> {
    if raw == "" then [Null]
    else if raw[0] == '-' then [Line(Trim(raw))]
    else if raw[0] == ':' then [Number(ParseInt(raw[1..]))]
    else if raw[0] == '+' then [Line(Trim(raw[1..]))]
    else if "$-1" <= raw then [Null]
    else if raw[0] == '$' then
      var lines := Resp.SplitLines(Trim(raw));
      [if |lines| > 1 then Line(lines[1]) else Null]
    else []
  }

  function FormatItem(item: Item): string {
    match item
    case Number(n) => ":" + (if n.Some? then DecInt(n.value) else "NaN") + CRLF
    case Null => NIL
    case Line(text) => if text != "" && text[0] == '-' then text + CRLF else BulkReply(text)
  }

  function FormatItems(items: seq<Item>): string {
    if items == [] then "" else FormatItem(items[0]) + FormatItems(items[1..])
  }

  // ---- EXEC ------------------------------------------------------------------------------------------

  datatype Ran = Ran(desk: Desk, items: seq<Item>)

  /** Only PING and BLPOP are ever queued. A BLPOP that blocks inside EXEC is taken to time out. */
  function ExecStateful(d: Desk, name: string, args: seq<string>): Ran {
    if name == "ping" then Ran(d, ItemsOf(if args == [] then "+PONG\r\n" else "+" + args[0] + CRLF))
    else if name == "blpop" then
      match BlpopError(args)
      case Some(reply) => Ran(d, ItemsOf(reply))
      case None =>
        var (e, found) := PopAny(d, Keys(args));
        Ran(e, ItemsOf(if found.Some? then PairReply(found).value else NIL))
    else Ran(d, [Null])
  }

  /** What EXEC makes of an exception while it runs a command. */
  function Thrown(message: string): string { "-ERR " + message }

  function ExecOne(env: Env, d: Desk, payload: Payload): Ran {
    var name, args := NameOf(payload), ArgsOf(payload);
    match KindOf(name)
    case None => Ran(d, [Line(Thrown("unknown command '" + Original(payload) + "' during EXEC"))])
    case Some(Simple) =>
      var (e, reply) := RunSimple(env, d, name, args);
      Ran(if ExecPropagates(name) then Logged(e, payload) else e, ItemsOf(reply))
    case Some(Stateful) =>
      ExecStateful(d, name, args)
    case Some(Replication) => Ran(d, [Line(Thrown("Command type 'replication' not supported inside EXEC."))])
    case Some(Orchestration) => Ran(d, [Line(Thrown("Command type 'orchestration' not supported inside EXEC."))])
  }

  function ExecQueue(env: Env, d: Desk, queue: seq<Payload>): Ran
    decreases queue
  {
    if queue == [] then Ran(d, [])
    else
      var first := ExecOne(env, d, queue[0]);
      var rest := ExecQueue(env, first.desk, queue[1..]);
      Ran(rest.desk, first.items + rest.items)
  }

  // ---- the dispatcher ----------------------------------------------------------------------------------

  datatype Conn = Conn(inTransaction: bool, transactionFailed: bool, queue: seq<Payload>, channels: set<string>)

  const FRESH := Conn(false, false, [], {})

  /** What is left for the replication manager: an ACK for the WAIT listeners, a connection to register as a
      replica, or a WAIT to start. None is NaN. */
  datatype Effect = Nothing | Acked(offset: Option<int>) | Registers | Waits(required: Option<int>)

  /** Everything one dispatch does; no reply means that the command answers in its own way, or later. */
  datatype Reaction = Reaction(conn: Conn, desk: Desk, reply: Option<string>, effect: Effect)

  const QUEUED := "+QUEUED\r\n"
  const EXEC_ABORT := Error("EXECABORT Transaction discarded because of previous errors.")

  function Just(c: Conn, d: Desk, reply: string): Reaction { Reaction(c, d, Some(reply), Nothing) }

  function Multi(c: Conn, d: Desk, args: seq<string>): Reaction {
    if args != [] then Just(c, d, ArgumentError("multi"))
    else Just(c.(inTransaction := true, queue := [], transactionFailed := false), d, OK)
  }

  /** DISCARD leaves transactionFailed as it is. */
  function Discard(c: Conn, d: Desk, args: seq<string>): Reaction {
    if args != [] then Just(c, d, ArgumentError("discard"))
    else if !c.inTransaction then Just(c, d, Error("DISCARD without MULTI"))
    else Just(c.(inTransaction := false, queue := []), d, OK)
  }

  function Reset(c: Conn): Conn { c.(inTransaction := false, queue := [], transactionFailed := false) }

  function Exec(env: Env, c: Conn, d: Desk, args: seq<string>): Reaction {
    if args != [] then Just(c, d, ArgumentError("exec"))
    else if !c.inTransaction then Just(c, d, Error("EXEC without MULTI"))
    else
      var after := Reset(c);
      if c.transactionFailed then Just(after, d, EXEC_ABORT)
      else
        var ran := ExecQueue(env, d, c.queue);
        Just(after, ran.desk, Resp.Header('*', |ran.items|) + CRLF + FormatItems(ran.items))
  }

  /** BLPOP on a connection. No reply: the client waits in the queues of its keys. */
  function Blpop(env: Env, c: Conn, d: Desk, args: seq<string>): Reaction {
    match BlpopError(args)
    case Some(reply) => Just(c, d, reply)
    case None =>
      var (e, found) := Block(d, Keys(args), env.connection);
      Reaction(c, e, PairReply(found), Nothing)
  }

  function Ping(c: Conn, args: seq<string>): string {
    if c.channels != {} then Resp.ToRESP(["pong", if args == [] then "" else args[0]])
    else if args == [] then "+PONG\r\n"
    else "+" + args[0] + CRLF
  }

  function Subscriptions(c: Conn, name: string, args: seq<string>): Conn {
    var named := set i | 0 <= i < |args| :: args[i];
    if name == "subscribe" then c.(channels := c.channels + named)
    else if name == "unsubscribe" then c.(channels := c.channels - named)
    else c
  }

  function WaitCommand(c: Conn, d: Desk, args: seq<string>): Reaction {
    if |args| != 2 then Just(c, d, ArgumentError("wait"))
    else Reaction(c, d, None, Waits(ParseInt(args[0])))
  }

  predicate Propagates(c: Conn, name: string, reply: string) {
    reply != "" && !c.inTransaction && IsWrite(name) && reply[0] != '-'
  }

  function RunStateful(env: Env, c: Conn, d: Desk, name: string, args: seq<string>): Reaction {
    if name == "multi" then Multi(c, d, args)
    else if name == "discard" then Discard(c, d, args)
    else if name == "exec" then Exec(env, c, d, args)
    else if name == "blpop" then Blpop(env, c, d, args)
    else Just(c, d, Ping(c, args))
  }

  function Serve(env: Env, c: Conn, d: Desk, payload: Payload): Reaction {
    var name, args := NameOf(payload), ArgsOf(payload);
    match KindOf(name)
    case None => Just(c, d, Error("unknown command '" + Original(payload) + "'"))
    case Some(Simple) =>
      var (e, reply) := RunSimple(env, d, name, args);
      Just(c, if Propagates(c, name, reply) then Logged(e, payload) else e, reply)
    case Some(Stateful) => RunStateful(env, c, d, name, args)
    case Some(Replication) =>
      if name == "psync" then Reaction(c, d, None, Registers)
      else Reaction(Subscriptions(c, name, args), d, None, Nothing)
    case Some(Orchestration) => WaitCommand(c, d, args)
  }

  /** An ACK goes to the WAIT listeners, whoever sent it, and never gets a reply. */
  predicate IsAck(payload: Payload) {
    |payload| >= 2 && Lower(payload[0]) == "replconf" && Lower(payload[1]) == "ack"
  }

  /** The source gives parseInt no radix here. */
  function AckValue(payload: Payload): Option<int> { if |payload| >= 3 then ParseAnyInt(payload[2]) else None }

  function Refusal(command: string): string {
    Error("Can't execute '" + command + "': only "
          + "(P|S)SUBSCRIBE / (P|S)UNSUBSCRIBE / PING / QUIT / RESET are allowed in this context")
  }

  function Dispatch(env: Env, c: Conn, d: Desk, payload: Payload): Reaction {
    var name := NameOf(payload);
    if payload == [] then Just(c, d, "-ERR internal server error\r\n")
    else if IsAck(payload) then Reaction(c, d, None, Acked(AckValue(payload)))
    else if c.inTransaction && !IsImmediate(name) then
      Just(c.(transactionFailed := c.transactionFailed || KindOf(name) == None, queue := c.queue + [payload]), d, QUEUED)
    else if c.channels != {} && !AllowedWhenSubscribed(name) then
      Just(c, d, Refusal(payload[0]))
    else Serve(env, c, d, payload)
  }

  lemma TransactionCommands()
    ensures KindOf("multi") == KindOf("exec") == KindOf("discard") == Some(Stateful)
  {
  }
}
