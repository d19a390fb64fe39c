/** What each store command does: the new store and the raw reply. */
module Commands {
  import opened Text
  import Resp
  import opened Store
  import opened StreamIds

  type Payload = seq<string>

  /** Where a command comes from: the clock, the sender's connection, and the replies of the read-only
      commands this model does not spell out. */
  datatype Env = Env(now: Clock, answer: (Store, seq<string>) -> string, connection: nat)

  datatype Outcome = Outcome(store: Store, reply: string)

  // ---- replies -------------------------------------------------------------------------------

  function Error(message: string): string { "-ERR " + message + CRLF }

  function ArgumentError(command: string): string {
    Error("wrong number of arguments for '" + command + "' command")
  }

  const WRONG_TYPE := Error("WRONGTYPE Operation against a key holding the wrong kind of value")
  const NOT_AN_INTEGER := Error("value is not an integer or out of range")
  const NIL := "$-1\r\n"
  const OK := "+OK\r\n"

  /** bulkStringResponse: the empty string counts as no reply. */
  function BulkReply(text: string): string { if text == "" then NIL else Resp.Bulk(text) }

  function IntReply(n: int): string { ":" + DecInt(n) + CRLF }

  predicate IsError(reply: string) { reply != "" && reply[0] == '-' }

  lemma IntRepliesAreNoErrors(n: int)
    ensures !IsError(IntReply(n)) && IsError(WRONG_TYPE)
  {
  }

  // ---- SET -----------------------------------------------------------------------------------

  datatype Mode = Always | IfAbsent | IfPresent

  /** An expiry option: absolute, or relative to the clock of the server that runs the command. */
  datatype Time = Untimed | Absolute(until: Option<int>) | Relative(span: Option<int>)

  datatype Options = Options(time: Time, mode: Mode, keepTtl: bool)

  const NO_OPTIONS := Options(Untimed, Always, false)

  function Seconds(n: Option<int>): Option<int> { if n.Some? then Some(n.value * 1000) else None }

  function TimeOption(option: string, n: Option<int>): Time {
    if option == "EX" then Relative(Seconds(n))
    else if option == "PX" then Relative(n)
    else if option == "EXAT" then Absolute(Seconds(n))
    else Absolute(n)
  }

  predicate TakesTime(option: string) { option == "EX" || option == "PX" || option == "EXAT" || option == "PXAT" }

  /** The option loop; None is a syntax error. A later option overrides an earlier one. */
  function ParseOptions(args: seq<string>, o: Options): Option<Options> {
    if args == [] then Some(o)
    else
      var option := Upper(args[0]);
      if TakesTime(option) then
        if |args| < 2 || args[1] == "" then None
        else ParseOptions(args[2..], o.(time := TimeOption(option, ParseInt(args[1]))))
      else if option == "NX" then ParseOptions(args[1..], o.(mode := IfAbsent))
      else if option == "XX" then ParseOptions(args[1..], o.(mode := IfPresent))
      else if option == "KEEPTTL" then ParseOptions(args[1..], o.(keepTtl := true))
      else None
  }

  /** createExpirationDate: no number, and zero, mean now. */
  function ExpirationDate(span: Option<int>, now: int): Expiry {
    DateOf(Some(if span.Some? then now + span.value else now))
  }

  function ExpiryOf(time: Time, now: int): Expiry {
    match time
    case Untimed => Never
    case Absolute(until) => DateOf(until)
    case Relative(span) => ExpirationDate(span, now)
  }

  predicate ModeAllows(mode: Mode, exists_: bool) {
    !(mode.IfAbsent? && exists_) && !(mode.IfPresent? && !exists_)
  }

  function SetWith(now: nat, s: Store, key: string, text: string, o: Options): Outcome {
    var existing := s.Get(key);
    if !ModeAllows(o.mode, existing.Some?) then Outcome(s, NIL)
    else
      var expiration := if o.keepTtl && existing.Some? then existing.value.expiration else ExpiryOf(o.time, now);
      Outcome(s.Set(key, StoreValue(Str(text), expiration)), OK)
  }

  function Set(now: nat, s: Store, args: seq<string>): Outcome {
    if |args| < 2 then Outcome(s, ArgumentError("set"))
    else
      match ParseOptions(args[2..], NO_OPTIONS)
      case None => Outcome(s, Error("syntax error"))
      case Some(o) => SetWith(now, s, args[0], args[1], o)
  }

  // ---- the other string commands ---------------------------------------------------------------

  function Get(env: Env, s: Store, args: seq<string>): Outcome {
    if |args| != 1 then Outcome(s, "-ERR Wrong number of arguments for GET\r\n")
    else
      match s.Get(args[0])
      case None => Outcome(s, NIL)
      case Some(v) =>
        if IsExpired(v.expiration, env.now) then Outcome(s.Delete(args[0]), NIL)
        else if v.value.Str? then Outcome(s, BulkReply(v.value.text))
        else Outcome(s, env.answer(s, ["get", args[0]]))
  }

  /** Lists and streams are stored as JSON text, which never reads as an integer. */
  function Incr(s: Store, args: seq<string>): Outcome {
    if |args| != 1 then Outcome(s, ArgumentError("incr"))
    else
      match s.Get(args[0])
      case None => Outcome(s.Set(args[0], StoreValue(Str("1"), Never)), IntReply(1))
      case Some(v) =>
        if !v.value.Str? || ParseInt(v.value.text) == None then Outcome(s, NOT_AN_INTEGER)
        else
          var n := ParseInt(v.value.text).value + 1;
          Outcome(s.Set(args[0], StoreValue(Str(DecInt(n)), v.expiration)), IntReply(n))
  }

  function DeleteAll(s: Store, keys: seq<string>): (Store, nat)
    decreases keys
  {
    if keys == [] then (s, 0)
    else
      var (t, n) := DeleteAll(s.Delete(keys[0]), keys[1..]);
      (t, n + if keys[0] in s.values then 1 else 0)
  }

  function Del(s: Store, args: seq<string>): Outcome {
    if args == [] then Outcome(s, ArgumentError("del"))
    else
      var (t, n) := DeleteAll(s, args);
      Outcome(t, IntReply(n))
  }

  function Expire(now: nat, s: Store, args: seq<string>): Outcome {
    if |args| != 2 then Outcome(s, ArgumentError("expire"))
    else
      match s.Get(args[0])
      case None => Outcome(s, IntReply(0))
      case Some(v) =>
        match ParseInt(args[1])
        case None => Outcome(s, NOT_AN_INTEGER)
        case Some(n) =>
          Outcome(s.Set(args[0], v.(expiration := ExpirationDate(Some(n * 1000), now))), IntReply(1))
  }

  // ---- lists -----------------------------------------------------------------------------------

  predicate HoldsOther(s: Store, key: string) { key in s.values && !s.values[key].value.List? }

  function ListAt(s: Store, key: string): seq<string> {
    if key in s.values && s.values[key].value.List? then s.values[key].value.items else []
  }

  function ExpirationAt(s: Store, key: string): Expiry {
    if key in s.values then s.values[key].expiration else Never
  }

  /** Storing a list back; LPOP deletes the key when nothing is left. */
  function StoreList(s: Store, key: string, items: seq<string>): Store {
    s.Set(key, StoreValue(List(items), ExpirationAt(s, key)))
  }

  function UpdateStore(s: Store, key: string, items: seq<string>): Store {
    if items == [] then s.Delete(key) else StoreList(s, key, items)
  }

  function Reverse<T>(items: seq<T>): (r: seq<T>)
    ensures |r| == |items|
    ensures forall i :: 0 <= i < |r| ==> r[i] == items[|items| - 1 - i]
  {
    seq(|items|, i requires 0 <= i < |items| => items[|items| - 1 - i])
  }

  function RPush(s: Store, args: seq<string>): Outcome {
    if |args| < 2 then Outcome(s, ArgumentError("rpush"))
    else if HoldsOther(s, args[0]) then Outcome(s, WRONG_TYPE)
    else
      var items := ListAt(s, args[0]) + args[1..];
      Outcome(StoreList(s, args[0], items), IntReply(|items|))
  }

  function LPush(s: Store, args: seq<string>): Outcome {
    if |args| < 2 then Outcome(s, ArgumentError("lpush"))
    else if HoldsOther(s, args[0]) then Outcome(s, WRONG_TYPE)
    else
      var items := Reverse(args[1..]) + ListAt(s, args[0]);
      Outcome(StoreList(s, args[0], items), IntReply(|items|))
  }

  function LPopCount(s: Store, key: string, count: nat): Outcome {
    var items := ListAt(s, key);
    var n := if count <= |items| then count else |items|;
    if items == [] then Outcome(s, Resp.ToRESP([]))
    else Outcome(UpdateStore(s, key, items[n..]), Resp.ToRESP(items[..n]))
  }

  function LPop(s: Store, args: seq<string>): Outcome {
    if |args| < 1 || |args| > 2 then Outcome(s, ArgumentError("lpop"))
    else
      var key := args[0];
      var counted := |args| == 2 && args[1] != "";
      var count := if counted then ParseInt(args[1]) else Some(1);
      if count == None || count.value < 0 then Outcome(s, NOT_AN_INTEGER)
      else if HoldsOther(s, key) then Outcome(s, WRONG_TYPE)
      else if counted then LPopCount(s, key, count.value)
      else
        var items := ListAt(s, key);
        if items == [] then Outcome(s, NIL)
        else Outcome(UpdateStore(s, key, items[1..]), BulkReply(items[0]))
  }

  /** tryLPop: the pop BLPOP and woken clients use. It has no WRONGTYPE answer. */
  function TryLPop(s: Store, key: string): (Store, Option<string>) {
    var items := ListAt(s, key);
    if items == [] then (s, None) else (UpdateStore(s, key, items[1..]), Some(items[0]))
  }

  // ---- streams ---------------------------------------------------------------------------------

  const NOT_ABOVE_ZERO := Error("The ID specified in XADD must be greater than 0-0")
  const NOT_ABOVE_TOP := Error("The ID specified in XADD is equal or smaller than the target stream top item")

  function EntriesAt(s: Store, key: string): seq<Entry> {
    if key in s.values && s.values[key].value.Stream? then s.values[key].value.entries else []
  }

  function TopId(entries: seq<Entry>): Option<string> {
    if entries == [] then None else Some(entries[|entries| - 1].id)
  }

  function XAdd(now: nat, s: Store, args: seq<string>): Outcome {
    if |args| < 4 then Outcome(s, ArgumentError("xadd"))
    else
      var key, requested, fields := args[0], args[1], args[2..];
      if requested == "0-0" || !IsStreamId(requested) then Outcome(s, NOT_ABOVE_ZERO)
      else if key in s.values && !s.values[key].value.Stream? then Outcome(s, WRONG_TYPE)
      else
        match GenerateEntryId(requested, TopId(EntriesAt(s, key)), now)
        case None => Outcome(s, NOT_ABOVE_TOP)
        case Some(id) =>
          var entries := EntriesAt(s, key) + [Entry(id, fields)];
          Outcome(s.Set(key, StoreValue(Stream(entries), ExpirationAt(s, key))), BulkReply(id))
  }

  // ---- all simple commands -----------------------------------------------------------------------

  /** The reply of a command that only reads the store. */
  function Read(env: Env, s: Store, payload: seq<string>): Outcome { Outcome(s, env.answer(s, payload)) }

  function Execute(env: Env, s: Store, name: string, args: seq<string>): Outcome {
    if name == "set" then Set(env.now, s, args)
    else if name == "get" then Get(env, s, args)
    else if name == "del" then Del(s, args)
    else if name == "incr" then Incr(s, args)
    else if name == "expire" then Expire(env.now, s, args)
    else if name == "rpush" then RPush(s, args)
    else if name == "lpush" then LPush(s, args)
    else if name == "lpop" then LPop(s, args)
    else if name == "xadd" then XAdd(env.now, s, args)
    else if name == "replconf" then Outcome(s, OK)
    else Read(env, s, [name] + args)
  }

  /** A command that is answered with an error has changed nothing. */
  lemma ErrorsChangeNothing(env: Env, s: Store, name: string, args: seq<string>)
    requires IsError(Execute(env, s, name, args).reply)
    ensures Execute(env, s, name, args).store == s
  {
    hide ParseOptions, IsStreamId, GenerateEntryId, ParseInt, DecInt, DeleteAll, Upper, Reverse, ListAt;
  }
}
