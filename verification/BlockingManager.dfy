/** The blocking manager as an object on the shared store, and the pushes that notify it. */
module BlockingManagers {
  import opened Text
  import opened Store
  import opened Commands
  import opened Blocking
  import opened ReplicationManagers

  class BlockingManager {
    const redisStore: RedisStore
    const replicationManager: ReplicationManager
    var waitingQueues: Queues
    var nextId: nat
    ghost var resolved: seq<Resolution>
    ghost var live: set<Waiter>
    ghost var pushed: seq<(string, string)>
    ghost var delivered: seq<(string, string)>

    constructor (redisStore: RedisStore, replicationManager: ReplicationManager)
      ensures this.redisStore == redisStore && this.replicationManager == replicationManager
      ensures View() == OPEN.(store := redisStore.store, propagated := replicationManager.propagated)
    {
      this.redisStore, this.replicationManager := redisStore, replicationManager;
      waitingQueues, nextId, resolved, live, pushed, delivered := map[], 0, [], {}, [], [];
    }

    ghost function View(): Desk
      reads this, redisStore, replicationManager
    {
      Desk(redisStore.store, waitingQueues, nextId, replicationManager.propagated, resolved, live, pushed, delivered)
    }

    method TryLPop(key: string) returns (popped: Option<string>)
      modifies redisStore
      ensures (redisStore.store, popped) == Commands.TryLPop(old(redisStore.store), key)
    {
      var existing := redisStore.Get(key);
      if existing == None || !existing.value.value.List? { return None; }
      var list := existing.value.value.items;
      if list == [] { return None; }
      popped := Some(list[0]);
      if list[1..] == [] {
        var _ := redisStore.Delete(key);
      } else {
        redisStore.Set(key, List(list[1..]), existing.value.expiration);
      }
    }

    method PopAndPropagate(key: string) returns (popped: Option<string>)
      modifies this`delivered, redisStore, replicationManager`masterReplOffset, replicationManager`propagated,
               replicationManager.Sockets()`written
      ensures (View(), popped) == Blocking.PopAndPropagate(old(View()), key)
    {
      popped := TryLPop(key);
      assert replicationManager.propagated + [] == replicationManager.propagated;
      delivered := delivered + DeliveredBy(key, popped);
      if popped.Some? && popped.value != "" {
        replicationManager.Propagate(["LPOP", key]);
      }
    }

    method RemoveWaiter(waiter: Waiter)
      modifies this`waitingQueues
      ensures waitingQueues == Blocking.RemoveWaiter(old(waitingQueues), waiter.keys, waiter.connection)
    {
      for i := 0 to |waiter.keys|
        invariant Blocking.RemoveWaiter(waitingQueues, waiter.keys[i..], waiter.connection)
               == Blocking.RemoveWaiter(old(waitingQueues), waiter.keys, waiter.connection)
      {
        var key := waiter.keys[i];
        assert waiter.keys[i..][0] == key && waiter.keys[i..][1..] == waiter.keys[i + 1..];
        if key in waitingQueues {
          waitingQueues := waitingQueues[key := RemoveFirst(waitingQueues[key], waiter.connection)];
        }
      }
    }

    /** waiter.resolve: clean the queues up and answer the client. */
    method Resolve(waiter: Waiter, result: Option<(string, string)>)
      modifies this`waitingQueues, this`resolved, this`live
      ensures View() == Settle(old(View()), waiter, result)
    {
      RemoveWaiter(waiter);
      resolved := resolved + [Resolution(waiter, result)];
      live := live - {waiter};
    }

    /** The immediate attempts on all keys. */
    method PopFirstOf(keys: seq<string>) returns (result: Option<(string, string)>)
      modifies this`delivered, redisStore, replicationManager`masterReplOffset, replicationManager`propagated,
               replicationManager.Sockets()`written
      ensures (View(), result) == PopAny(old(View()), keys)
    {
      hide Blocking.PopAndPropagate;
      ghost var start := View();
      assert keys[0..] == keys;
      for i := 0 to |keys|
        invariant PopAny(View(), keys[i..]) == PopAny(start, keys)
      {
        assert keys[i..][0] == keys[i] && keys[i..][1..] == keys[i + 1..];
        var popped := PopAndPropagate(keys[i]);
        if popped.Some? && popped.value != "" { return Some((keys[i], popped.value)); }
      }
      assert keys[|keys|..] == [];
      result := None;
    }

    method BlockOnLists(keys: seq<string>, connection: int) returns (result: Option<(string, string)>)
      modifies this, redisStore, replicationManager`masterReplOffset, replicationManager`propagated,
               replicationManager.Sockets()`written
      ensures (View(), result) == Block(old(View()), keys, connection)
    {
      hide PopAny;
      result := PopFirstOf(keys);
      if result.Some? { return; }
      var waiter := Waiter(nextId, keys, connection);
      ghost var after := View();
      nextId := nextId + 1;
      live := live + {waiter};
      assert keys[0..] == keys;
      for i := 0 to |keys|
        invariant Enqueue(waitingQueues, keys[i..], waiter) == Enqueue(after.queues, keys, waiter)
        invariant View() == after.(queues := waitingQueues, nextId := nextId, live := live)
        invariant nextId == after.nextId + 1 && live == after.live + {waiter}
      {
        assert keys[i..][0] == keys[i] && keys[i..][1..] == keys[i + 1..];
        var queue := QueueOf(waitingQueues, keys[i]);
        waitingQueues := waitingQueues[keys[i] := queue + [waiter]];
      }
      assert keys[|keys|..] == [];
    }

    method NotifyListPush(key: string)
      modifies this, redisStore, replicationManager`masterReplOffset, replicationManager`propagated,
               replicationManager.Sockets()`written
      ensures View() == Notify(old(View()), key)
    {
      hide Blocking.PopAndPropagate;
      var queue := QueueOf(waitingQueues, key);
      if queue != [] {
        var waiter := queue[0];
        waitingQueues := waitingQueues[key := queue[1..]];
        var popped := PopAndPropagate(key);
        if popped.Some? && popped.value != "" {
          Resolve(waiter, Some((key, popped.value)));
        } else {
          waitingQueues := waitingQueues[key := queue];
        }
      }
    }

    /** The timer of a waiter that is still unresolved; resolving it earlier has cleared the timer. */
    method OnTimeout(waiter: Waiter)
      requires waiter in live
      modifies this`waitingQueues, this`resolved, this`live
      ensures View() == TimeOut(old(View()), waiter)
    {
      Resolve(waiter, None);
    }

    /** RPUSH: append, store, serve a waiting client, reply with the length before that. */
    method RPushCommand(args: seq<string>) returns (reply: string)
      modifies this, redisStore, replicationManager`masterReplOffset, replicationManager`propagated,
               replicationManager.Sockets()`written
      ensures reply == Commands.RPush(old(redisStore.store), args).reply
      ensures View() == if |args| < 2 then old(View())
                        else PushAndServe(old(View()), args[0], args[1..], Commands.RPush(old(redisStore.store), args))
    {
      hide Notify, IntReply, Error;
      if |args| < 2 { return ArgumentError("rpush"); }
      IntRepliesAreNoErrors(0);
      var key, elements := args[0], args[1..];
      var existing := redisStore.Get(key);
      var list: seq<string>, expiration := [], Never;
      if existing.Some? {
        if !existing.value.value.List? { return WRONG_TYPE; }
        list, expiration := existing.value.value.items, existing.value.expiration;
      }
      list := list + elements;
      redisStore.Set(key, List(list), expiration);
      pushed := pushed + Tagged(key, elements);
      NotifyListPush(key);
      reply := IntReply(|list|);
      assert !IsError(reply) by { IntRepliesAreNoErrors(|list|); }
    }

    /** LPUSH: the elements end up reversed in front of the list. */
    method LPushCommand(args: seq<string>) returns (reply: string)
      modifies this, redisStore, replicationManager`masterReplOffset, replicationManager`propagated,
               replicationManager.Sockets()`written
      ensures reply == Commands.LPush(old(redisStore.store), args).reply
      ensures View() == if |args| < 2 then old(View())
                        else PushAndServe(old(View()), args[0], args[1..], Commands.LPush(old(redisStore.store), args))
    {
      hide Notify, IntReply, Error, Reverse;
      if |args| < 2 { return ArgumentError("lpush"); }
      IntRepliesAreNoErrors(0);
      var key, elements := args[0], args[1..];
      var existing := redisStore.Get(key);
      var list: seq<string>, expiration := [], Never;
      if existing.Some? {
        if !existing.value.value.List? { return WRONG_TYPE; }
        list, expiration := existing.value.value.items, existing.value.expiration;
      }
      list := Reverse(elements) + list;
      redisStore.Set(key, List(list), expiration);
      pushed := pushed + Tagged(key, elements);
      NotifyListPush(key);
      reply := IntReply(|list|);
      assert !IsError(reply) by { IntRepliesAreNoErrors(|list|); }
    }
  }
}
