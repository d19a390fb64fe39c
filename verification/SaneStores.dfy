/** What every command keeps of the store: a duplicate-free insertion order in step with the contents, and no
    list that is empty or holds an empty item, because parsed items are never empty. */
module SaneStores {
  import opened Text
  import opened Store
  import opened Commands
  import opened Blocking
  import opened Dispatcher
  import Persistence = Rdb
  import Resp

  ghost predicate SaneValue(v: Value) { v.List? ==> v.items != [] && NoneEmpty(v.items) }

  ghost predicate Sane(s: Store) { s.Valid() && forall k :: k in s.values ==> SaneValue(s.values[k].value) }

  // ---- loading a dump file -----------------------------------------------------------------------------------

  lemma PairKeepsSane(buf: string, cursor: nat, s: Store, now: int)
    requires cursor < |buf| && Sane(s) && Persistence.PairAt(buf, cursor, s, now).Got?
    ensures Sane(Persistence.PairAt(buf, cursor, s, now).value)
  {
    hide Sane, Persistence.ExpiryAt, Persistence.StringAt, Persistence.Alive;
    forall key, text, e ensures Sane(s.Set(key, StoreValue(Str(text), e))) { SetKeepsSane(s, key, StoreValue(Str(text), e)); }
  }

  lemma {:induction false} PairsKeepSane(buf: string, cursor: nat, s: Store, now: int)
    requires Sane(s)
    ensures Sane(Persistence.Pairs(buf, cursor, s, now).store)
    decreases if cursor <= |buf| then |buf| - cursor else 0
  {
    hide Sane, Persistence.PairAt;
    if cursor < |buf| && !Persistence.EndsDatabase(Persistence.ByteAt(buf, cursor)) && Persistence.PairAt(buf, cursor, s, now).Got? {
      PairKeepsSane(buf, cursor, s, now);
      var read := Persistence.PairAt(buf, cursor, s, now);
      PairsKeepSane(buf, read.cursor, read.value, now);
    }
  }

  lemma {:induction false} SectionsKeepSane(buf: string, cursor: nat, s: Store, now: int)
    requires Sane(s)
    ensures Sane(Persistence.Sections(buf, cursor, s, now).store)
    decreases if cursor <= |buf| then |buf| - cursor else 0
  {
    hide Sane, Persistence.Pairs, Persistence.LengthAt, Persistence.SkipHints, Persistence.StringAt;
    if cursor < |buf| {
      var opcode := Persistence.ByteAt(buf, cursor);
      if opcode == 0xfa {
        var read := Persistence.Auxiliary(buf, cursor);
        if read.Got? { SectionsKeepSane(buf, read.cursor, s, now); }
      } else if opcode == 0xfe {
        forall start { PairsKeepSane(buf, start, s, now); }
        var p := Persistence.Database(buf, cursor, s, now);
        if p.ok { SectionsKeepSane(buf, p.cursor, p.store, now); }
      }
    }
  }

  /** Whatever is in the file, and however far the parser gets. */
  lemma LoadedIsSane(file: string, now: int)
    ensures Sane(Persistence.Load(file, now))
  {
    hide Persistence.Sections;
    SectionsKeepSane(file, 9, EMPTY, now);
  }

  // ---- commands ------------------------------------------------------------------------------------------------

  lemma SetKeepsSane(s: Store, key: string, v: StoreValue)
    requires Sane(s) && SaneValue(v.value)
    ensures Sane(s.Set(key, v))
  {
    hide SaneValue;
    SetStaysValid(s, key, v);
  }

  lemma DeleteKeepsSane(s: Store, key: string)
    requires Sane(s)
    ensures Sane(s.Delete(key))
  {
    hide SaneValue;
    DeleteStaysValid(s, key);
  }

  lemma {:induction false} DeleteAllKeepsSane(s: Store, keys: seq<string>)
    requires Sane(s)
    ensures Sane(DeleteAll(s, keys).0)
    decreases keys
  {
    hide Sane;
    if keys != [] {
      DeleteKeepsSane(s, keys[0]);
      DeleteAllKeepsSane(s.Delete(keys[0]), keys[1..]);
    }
  }

  lemma ListsAreSane(s: Store, key: string)
    requires Sane(s)
    ensures NoneEmpty(ListAt(s, key))
    ensures ListAt(s, key) == [] ==> key !in s.values || HoldsOther(s, key)
  {
    assert key in s.values ==> SaneValue(s.values[key].value);
  }

  /** Storing a list back, or deleting the key of an emptied one. */
  lemma UpdateKeepsSane(s: Store, key: string, items: seq<string>)
    requires Sane(s) && NoneEmpty(items)
    ensures Sane(UpdateStore(s, key, items))
    ensures items != [] ==> Sane(StoreList(s, key, items))
  {
    hide Sane;
    if items == [] { DeleteKeepsSane(s, key); } else { SetKeepsSane(s, key, StoreValue(List(items), ExpirationAt(s, key))); }
  }

  lemma SetCommandKeepsSane(now: nat, s: Store, args: seq<string>)
    requires Sane(s)
    ensures Sane(Commands.Set(now, s, args).store)
  {
    hide Sane, ExpiryOf, Error, ParseOptions;
    if |args| >= 2 {
      forall e ensures Sane(s.Set(args[0], StoreValue(Str(args[1]), e))) {
        SetKeepsSane(s, args[0], StoreValue(Str(args[1]), e));
      }
    }
  }

  lemma IncrKeepsSane(s: Store, args: seq<string>)
    requires Sane(s)
    ensures Sane(Incr(s, args).store)
  {
    hide Sane, Error, ParseInt, DecInt;
    if |args| == 1 {
      forall text, e ensures Sane(s.Set(args[0], StoreValue(Str(text), e))) {
        SetKeepsSane(s, args[0], StoreValue(Str(text), e));
      }
    }
  }

  lemma ExpireKeepsSane(now: nat, s: Store, args: seq<string>)
    requires Sane(s)
    ensures Sane(Expire(now, s, args).store)
  {
    hide SaneValue, Error, ParseInt, ExpirationDate;
    if |args| == 2 && args[0] in s.values {
      forall e ensures Sane(s.Set(args[0], s.values[args[0]].(expiration := e))) {
        SetKeepsSane(s, args[0], s.values[args[0]].(expiration := e));
      }
    }
  }

  lemma PushesKeepSane(s: Store, args: seq<string>)
    requires Sane(s) && NoneEmpty(args)
    ensures Sane(Commands.RPush(s, args).store) && Sane(Commands.LPush(s, args).store)
  {
    hide Sane, Error, DecInt, StoreList, UpdateStore;
    if |args| >= 2 {
      ListsAreSane(s, args[0]);
      UpdateKeepsSane(s, args[0], ListAt(s, args[0]) + args[1..]);
      UpdateKeepsSane(s, args[0], Reverse(args[1..]) + ListAt(s, args[0]));
    }
  }

  lemma LPopKeepsSane(s: Store, args: seq<string>)
    requires Sane(s)
    ensures Sane(Commands.LPop(s, args).store)
  {
    hide Sane, Error, ParseInt, UpdateStore, Resp.ToRESP, BulkReply;
    if |args| >= 1 {
      ListsAreSane(s, args[0]);
      forall n | 0 <= n <= |ListAt(s, args[0])| ensures Sane(UpdateStore(s, args[0], ListAt(s, args[0])[n..])) {
        UpdateKeepsSane(s, args[0], ListAt(s, args[0])[n..]);
      }
    }
  }

  lemma XAddKeepsSane(now: nat, s: Store, args: seq<string>)
    requires Sane(s)
    ensures Sane(XAdd(now, s, args).store)
  {
    hide Sane, Error, BulkReply;
    if |args| >= 4 {
      forall entries, e ensures Sane(s.Set(args[0], StoreValue(Stream(entries), e))) {
        SetKeepsSane(s, args[0], StoreValue(Stream(entries), e));
      }
    }
  }

  /** Every command keeps the store sane. */
  lemma ExecuteKeepsSane(env: Env, s: Store, name: string, args: seq<string>)
    requires Sane(s) && NoneEmpty(args)
    ensures Sane(Execute(env, s, name, args).store)
  {
    hide Sane, Commands.Set, Incr, DeleteAll, Expire, Commands.RPush, Commands.LPush, Commands.LPop, XAdd, Error;
    SetCommandKeepsSane(env.now, s, args);
    IncrKeepsSane(s, args);
    DeleteAllKeepsSane(s, args);
    ExpireKeepsSane(env.now, s, args);
    PushesKeepSane(s, args);
    LPopKeepsSane(s, args);
    XAddKeepsSane(env.now, s, args);
    if |args| == 1 { DeleteKeepsSane(s, args[0]); }
  }

  // ---- the desk ----------------------------------------------------------------------------------------------

  lemma PopKeepsSane(d: Desk, key: string)
    requires Sane(d.store)
    ensures Sane(PopAndPropagate(d, key).0.store)
  {
    hide Sane, UpdateStore;
    ListsAreSane(d.store, key);
    if ListAt(d.store, key) != [] { UpdateKeepsSane(d.store, key, ListAt(d.store, key)[1..]); }
  }

  lemma NotifyKeepsSane(d: Desk, key: string)
    requires Sane(d.store)
    ensures Sane(Notify(d, key).store)
  {
    hide Sane, TryLPop, Blocking.RemoveWaiter;
    var queue := QueueOf(d.queues, key);
    if queue != [] { PopKeepsSane(d.(queues := d.queues[key := queue[1..]]), key); }
  }

  lemma {:induction false} PopAnyKeepsSane(d: Desk, keys: seq<string>)
    requires Sane(d.store)
    ensures Sane(PopAny(d, keys).0.store)
    decreases keys
  {
    hide Sane, PopAndPropagate;
    if keys != [] {
      PopKeepsSane(d, keys[0]);
      PopAnyKeepsSane(PopAndPropagate(d, keys[0]).0, keys[1..]);
    }
  }

  lemma RunSimpleKeepsSane(env: Env, d: Desk, name: string, args: seq<string>)
    requires Sane(d.store) && NoneEmpty(args)
    ensures Sane(RunSimple(env, d, name, args).0.store)
  {
    hide Sane, Execute, Notify, Taken;
    var o := Execute(env, d.store, name, args);
    ExecuteKeepsSane(env, d.store, name, args);
    if |args| >= 2 { NotifyKeepsSane(d.(store := o.store, pushed := d.pushed + Tagged(args[0], args[1..])), args[0]); }
  }

  ghost predicate AllParsed(ps: seq<Payload>) { forall i :: 0 <= i < |ps| ==> NoneEmpty(ps[i]) }

  lemma ExecOneKeepsSane(env: Env, d: Desk, p: Payload)
    requires Sane(d.store) && NoneEmpty(p)
    ensures Sane(ExecOne(env, d, p).desk.store)
  {
    hide Sane, RunSimple, ItemsOf, KindOf, Original, PairReply, PopAny, BlpopError, NameOf;
    RunSimpleKeepsSane(env, d, NameOf(p), ArgsOf(p));
    if BlpopError(ArgsOf(p)) == None { PopAnyKeepsSane(d, Keys(ArgsOf(p))); }
  }

  lemma {:induction false} ExecQueueKeepsSane(env: Env, d: Desk, queue: seq<Payload>)
    requires Sane(d.store) && AllParsed(queue)
    ensures Sane(ExecQueue(env, d, queue).desk.store)
    decreases queue
  {
    hide Sane, ExecOne, NoneEmpty;
    if queue != [] {
      ExecOneKeepsSane(env, d, queue[0]);
      ExecQueueKeepsSane(env, ExecOne(env, d, queue[0]).desk, queue[1..]);
    }
  }

  /** Every dispatch keeps the store sane, whoever sends it and whatever is queued. */
  lemma DispatchKeepsSane(env: Env, c: Conn, d: Desk, p: Payload)
    requires Sane(d.store) && NoneEmpty(p) && AllParsed(c.queue)
    ensures Sane(Dispatch(env, c, d, p).desk.store)
  {
    hide Sane, RunSimple, KindOf, NameOf, ExecQueue, PopAny, BlpopError, FormatItems, Error, ArgumentError, Refusal, IsAck,
         IsImmediate, AllowedWhenSubscribed, PairReply, Ping, Resp.Header, NoneEmpty;
    RunSimpleKeepsSane(env, d, NameOf(p), ArgsOf(p)) by { assert NoneEmpty(ArgsOf(p)) by { ArgsAreParsed(p); } }
    ExecQueueKeepsSane(env, d, c.queue);
    if BlpopError(ArgsOf(p)) == None { PopAnyKeepsSane(d, Keys(ArgsOf(p))); }
  }

  lemma ArgsAreParsed(p: Payload)
    requires NoneEmpty(p)
    ensures NoneEmpty(ArgsOf(p))
  {
  }

  lemma TimeOutKeepsStore(d: Desk, w: Waiter)
    ensures TimeOut(d, w).store == d.store
  {
    hide Blocking.RemoveWaiter;
  }
}
