/** The commands as they run: they read and update one shared RedisStore object. */
module CommandMethods {
  import opened Text
  import opened Store
  import opened Commands
  import Resp
  import StreamIds

  /** The option loop shifts its arguments away one by one. */
  method SetCommand(redisStore: RedisStore, now: nat, args: seq<string>) returns (reply: string)
    modifies redisStore
    ensures Outcome(redisStore.store, reply) == Commands.Set(now, old(redisStore.store), args)
  {
    if |args| < 2 { return ArgumentError("set"); }
    var key, value, rest := args[0], args[1], args[2..];
    var time, mode, keepTtl := Untimed, Always, false;
    while rest != []
      invariant ParseOptions(rest, Options(time, mode, keepTtl)) == ParseOptions(args[2..], NO_OPTIONS)
      decreases |rest|
    {
      var option := Upper(rest[0]);
      rest := rest[1..];
      if TakesTime(option) {
        if rest == [] || rest[0] == "" { return Error("syntax error"); }
        time := TimeOption(option, ParseInt(rest[0]));
        rest := rest[1..];
      } else if option == "NX" {
        mode := IfAbsent;
      } else if option == "XX" {
        mode := IfPresent;
      } else if option == "KEEPTTL" {
        keepTtl := true;
      } else {
        return Error("syntax error");
      }
    }
    var existing := redisStore.Get(key);
    if mode == IfAbsent && existing.Some? { return NIL; }
    if mode == IfPresent && existing == None { return NIL; }
    var expiration := ExpiryOf(time, now);
    if keepTtl && existing.Some? { expiration := existing.value.expiration; }
    redisStore.Set(key, Str(value), expiration);
    reply := OK;
  }

  method DelCommand(redisStore: RedisStore, args: seq<string>) returns (reply: string)
    modifies redisStore
    ensures Outcome(redisStore.store, reply) == Commands.Del(old(redisStore.store), args)
  {
    if args == [] { return ArgumentError("del"); }
    var deletedCount := 0;
    for i := 0 to |args|
      invariant var (t, n) := DeleteAll(redisStore.store, args[i..]);
                (t, deletedCount + n) == DeleteAll(old(redisStore.store), args)
    {
      var found := redisStore.Delete(args[i]);
      if found { deletedCount := deletedCount + 1; }
      assert args[i..][1..] == args[i + 1..];
    }
    reply := IntReply(deletedCount);
  }

  method IncrCommand(redisStore: RedisStore, args: seq<string>) returns (reply: string)
    modifies redisStore
    ensures Outcome(redisStore.store, reply) == Commands.Incr(old(redisStore.store), args)
  {
    if |args| != 1 { return ArgumentError("incr"); }
    var existing := redisStore.Get(args[0]);
    if existing == None {
      redisStore.Set(args[0], Str("1"), Never);
      return IntReply(1);
    }
    var numericValue := if existing.value.value.Str? then ParseInt(existing.value.value.text) else None;
    if numericValue == None { return NOT_AN_INTEGER; }
    var newValue := numericValue.value + 1;
    redisStore.Set(args[0], Str(DecInt(newValue)), existing.value.expiration);
    reply := IntReply(newValue);
  }

  method LPopCommand(redisStore: RedisStore, args: seq<string>) returns (reply: string)
    modifies redisStore
    ensures Outcome(redisStore.store, reply) == Commands.LPop(old(redisStore.store), args)
  {
    if |args| < 1 || |args| > 2 { return ArgumentError("lpop"); }
    var key := args[0];
    var counted, count := false, 1;
    if |args| == 2 && args[1] != "" {
      var n := ParseInt(args[1]);
      if n == None || n.value < 0 { return NOT_AN_INTEGER; }
      counted, count := true, n.value;
    }
    var existing := redisStore.Get(key);
    if existing == None { return if counted then Resp.ToRESP([]) else NIL; }
    if !existing.value.value.List? { return WRONG_TYPE; }
    var list := existing.value.value.items;
    if list == [] { return if counted then Resp.ToRESP([]) else NIL; }
    var taken := if count <= |list| then count else |list|;
    if taken == |list| {
      var _ := redisStore.Delete(key);
    } else {
      redisStore.Set(key, List(list[taken..]), existing.value.expiration);
    }
    reply := if counted then Resp.ToRESP(list[..taken]) else BulkReply(list[0]);
  }

  method XAddCommand(redisStore: RedisStore, now: nat, args: seq<string>) returns (reply: string)
    modifies redisStore
    ensures Outcome(redisStore.store, reply) == Commands.XAdd(now, old(redisStore.store), args)
  {
    hide StreamIds.IsStreamId, StreamIds.GenerateEntryId, BulkReply, Error;
    if |args| < 4 { return ArgumentError("xadd"); }
    var streamKey, entryId, fields := args[0], args[1], args[2..];
    if entryId == "0-0" || !StreamIds.IsStreamId(entryId) { return NOT_ABOVE_ZERO; }
    var oldStream := redisStore.Get(streamKey);
    var entries: seq<Entry>, expiration := [], Never;
    if oldStream.Some? {
      if !oldStream.value.value.Stream? { return WRONG_TYPE; }
      entries, expiration := oldStream.value.value.entries, oldStream.value.expiration;
    }
    var newEntryId := StreamIds.GenerateEntryId(entryId, TopId(entries), now);
    if newEntryId == None { return NOT_ABOVE_TOP; }
    redisStore.Set(streamKey, Stream(entries + [Entry(newEntryId.value, fields)]), expiration);
    reply := BulkReply(newEntryId.value);
  }

  /** GET deletes the key it finds expired. */
  method GetCommand(redisStore: RedisStore, env: Env, args: seq<string>) returns (reply: string)
    modifies redisStore
    ensures Outcome(redisStore.store, reply) == Commands.Get(env, old(redisStore.store), args)
  {
    if |args| != 1 { return "-ERR Wrong number of arguments for GET\r\n"; }
    var value := redisStore.Get(args[0]);
    if value == None { return NIL; }
    if IsExpired(value.value.expiration, env.now) {
      var _ := redisStore.Delete(args[0]);
      return NIL;
    }
    reply := if value.value.value.Str? then BulkReply(value.value.value.text) else env.answer(redisStore.store, ["get", args[0]]);
  }

  method ExpireCommand(redisStore: RedisStore, now: nat, args: seq<string>) returns (reply: string)
    modifies redisStore
    ensures Outcome(redisStore.store, reply) == Commands.Expire(now, old(redisStore.store), args)
  {
    if |args| != 2 { return ArgumentError("expire"); }
    var existing := redisStore.Get(args[0]);
    if existing == None { return IntReply(0); }
    var seconds := ParseInt(args[1]);
    if seconds == None { return NOT_AN_INTEGER; }
    redisStore.Set(args[0], existing.value.value, ExpirationDate(Some(seconds.value * 1000), now));
    reply := IntReply(1);
  }
}
