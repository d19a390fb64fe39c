/** Blocking lists refine a plain queue: nothing is lost, duplicated or reordered. */
module BlockingQueue {
  import opened Text
  import opened Store
  import opened Commands
  import opened Blocking

  /** The elements of one key, in log order. */
  function On(log: seq<(string, string)>, key: string): seq<string> {
    if log == [] then []
    else On(log[..|log| - 1], key) + if log[|log| - 1].0 == key then [log[|log| - 1].1] else []
  }

  lemma {:induction false} OnAppend(a: seq<(string, string)>, b: seq<(string, string)>, key: string)
    ensures On(a + b, key) == On(a, key) + On(b, key)
    decreases b
  {
    if b == [] {
      assert a + b == a;
    } else {
      OnAppend(a, b[..|b| - 1], key);
      assert (a + b)[..|a + b| - 1] == a + b[..|b| - 1];
    }
  }

  lemma {:induction false} OnTagged(key: string, items: seq<string>, k: string)
    ensures On(Tagged(key, items), k) == if key == k then items else []
    decreases items
  {
    if items != [] {
      var init := items[..|items| - 1];
      OnTagged(key, init, k);
      assert Tagged(key, items)[..|items| - 1] == Tagged(key, init);
      assert items == init + [items[|items| - 1]];
    } else {
      assert Tagged(key, items) == [];
    }
  }

  // ---- a list key of the store ---------------------------------------------------------------------------

  /** The key holds a list without empty elements, or nothing. */
  ghost predicate ListKey(s: Store, key: string) {
    !HoldsOther(s, key) && NoneEmpty(ListAt(s, key))
  }

  lemma StoreListAt(s: Store, key: string, items: seq<string>, k: string)
    ensures var t := StoreList(s, key, items);
            ListAt(t, k) == (if k == key then items else ListAt(s, k)) && (HoldsOther(t, k) ==> HoldsOther(s, k))
  {
    var t := StoreList(s, key, items);
    assert t.Get(k) == if k == key then t.Get(key) else s.Get(k);
  }

  lemma UpdateStoreAt(s: Store, key: string, items: seq<string>, k: string)
    ensures var t := UpdateStore(s, key, items);
            ListAt(t, k) == (if k == key then items else ListAt(s, k)) && (HoldsOther(t, k) ==> HoldsOther(s, k))
  {
    hide StoreList;
    var t := UpdateStore(s, key, items);
    if items == [] {
      assert t.Get(k) == if k == key then None else s.Get(k);
    } else {
      StoreListAt(s, key, items, k);
    }
  }

  // ---- the refinement --------------------------------------------------------------------------------------

  /** Delivered so far, then what is still in the list: exactly what was pushed, in order. */
  ghost predicate QueueLaw(d: Desk, k: string) { On(d.delivered, k) + ListAt(d.store, k) == On(d.pushed, k) }

  ghost predicate IsQueue(d: Desk, k: string) { ListKey(d.store, k) && QueueLaw(d, k) }

  /** The same, counting only how often each element occurs. */
  ghost predicate IsBag(d: Desk, k: string) {
    ListKey(d.store, k) && multiset(On(d.delivered, k)) + multiset(ListAt(d.store, k)) == multiset(On(d.pushed, k))
  }

  /** From d to e, elements of k only moved from the front of the list to the end of the delivered ones. */
  ghost predicate Moves(d: Desk, e: Desk, k: string) {
    && (HoldsOther(e.store, k) ==> HoldsOther(d.store, k))
    && |ListAt(e.store, k)| <= |ListAt(d.store, k)|
    && ListAt(e.store, k) == ListAt(d.store, k)[|ListAt(d.store, k)| - |ListAt(e.store, k)|..]
    && On(e.delivered, k) + ListAt(e.store, k) == On(d.delivered, k) + ListAt(d.store, k)
    && e.pushed == d.pushed
  }

  lemma MovesKeep(d: Desk, e: Desk, k: string)
    requires Moves(d, e, k)
    ensures IsQueue(d, k) ==> IsQueue(e, k)
    ensures IsBag(d, k) ==> IsBag(e, k)
  {
    hide On, ListAt, HoldsOther;
    assert multiset(On(e.delivered, k) + ListAt(e.store, k)) == multiset(On(d.delivered, k) + ListAt(d.store, k));
  }

  lemma MovesCompose(d: Desk, e: Desk, f: Desk, k: string)
    requires Moves(d, e, k) && Moves(e, f, k)
    ensures Moves(d, f, k)
  {
    hide On, ListAt, HoldsOther;
  }

  lemma PopMoves(d: Desk, key: string, n: nat, k: string)
    requires n <= |ListAt(d.store, key)|
    ensures var items := ListAt(d.store, key);
            Moves(d, d.(store := UpdateStore(d.store, key, items[n..]), delivered := d.delivered + Tagged(key, items[..n])), k)
  {
    hide On, ListAt, HoldsOther, UpdateStore, Tagged;
    var items := ListAt(d.store, key);
    UpdateStoreAt(d.store, key, items[n..], k);
    OnAppend(d.delivered, Tagged(key, items[..n]), k);
    OnTagged(key, items[..n], k);
    assert items[..n] + items[n..] == items;
    assert On(d.delivered, k) + [] == On(d.delivered, k);
    if k == key { assert (On(d.delivered, k) + items[..n]) + items[n..] == On(d.delivered, k) + (items[..n] + items[n..]); }
  }

  lemma PopAndPropagateMoves(d: Desk, key: string, k: string)
    requires ListKey(d.store, k)
    ensures Moves(d, PopAndPropagate(d, key).0, k)
  {
    hide On, HoldsOther, UpdateStore;
    var items := ListAt(d.store, key);
    assert d.delivered + [] == d.delivered;
    if items != [] {
      PopMoves(d, key, 1, k);
      UpdateStoreAt(d.store, key, items[1..], k);
      assert Tagged(key, items[..1]) == [(key, items[0])];
    }
  }

  lemma MovesKeepListKey(d: Desk, e: Desk, k: string)
    requires Moves(d, e, k) && ListKey(d.store, k)
    ensures ListKey(e.store, k)
  {
    hide On, ListAt, HoldsOther;
  }

  lemma NotifyMoves(d: Desk, key: string, k: string)
    requires ListKey(d.store, k)
    ensures Moves(d, Notify(d, key), k)
  {
    hide On, ListAt, HoldsOther, RemoveWaiter, PopAndPropagate;
    var queue := QueueOf(d.queues, key);
    if queue != [] {
      PopAndPropagateMoves(d.(queues := d.queues[key := queue[1..]]), key, k);
    }
  }

  lemma {:induction false} PopAnyMoves(d: Desk, keys: seq<string>, k: string)
    requires ListKey(d.store, k)
    ensures Moves(d, PopAny(d, keys).0, k)
    decreases keys
  {
    hide On, ListAt, HoldsOther, PopAndPropagate;
    if keys != [] {
      PopAndPropagateMoves(d, keys[0], k);
      var after := PopAndPropagate(d, keys[0]).0;
      MovesKeepListKey(d, after, k);
      PopAnyMoves(after, keys[1..], k);
      MovesCompose(d, after, PopAny(after, keys[1..]).0, k);
    }
  }

  /** Pushed items come out of the parser, so none is empty; SET and DEL leave the key alone. */
  ghost predicate ListStep(step: Step, k: string) {
    match step
    case RPush(_, items) => NoneEmpty(items)
    case LPush(_, items) => NoneEmpty(items)
    case Overwrite(key, _) => key != k
    case Remove(key) => key != k
    case _ => true
  }

  /** Storing a longer list and recording the push; nobody has been served yet. */
  function Stored(d: Desk, key: string, items: seq<string>, list: seq<string>): Desk {
    d.(store := StoreList(d.store, key, list), pushed := d.pushed + Tagged(key, items))
  }

  lemma StoredAt(d: Desk, key: string, items: seq<string>, list: seq<string>, k: string)
    ensures var e := Stored(d, key, items, list);
            && ListAt(e.store, k) == (if k == key then list else ListAt(d.store, k))
            && (HoldsOther(e.store, k) ==> HoldsOther(d.store, k))
            && On(e.pushed, k) == On(d.pushed, k) + (if k == key then items else [])
            && On(e.delivered, k) == On(d.delivered, k)
  {
    hide On, StoreList, Tagged, HoldsOther;
    StoreListAt(d.store, key, list, k);
    OnAppend(d.pushed, Tagged(key, items), k);
    OnTagged(key, items, k);
  }

  lemma AppendKeepsQueue(d: Desk, key: string, items: seq<string>, k: string)
    requires NoneEmpty(items)
    ensures IsQueue(d, k) ==> IsQueue(Stored(d, key, items, ListAt(d.store, key) + items), k)
    ensures IsBag(d, k) ==> IsBag(Stored(d, key, items, ListAt(d.store, key) + items), k)
  {
    hide On, ListAt, HoldsOther, Stored;
    var list := ListAt(d.store, key);
    StoredAt(d, key, items, list + items, k);
    assert (On(d.delivered, k) + list) + items == On(d.delivered, k) + (list + items);
    assert multiset(list + items) == multiset(list) + multiset(items);
    assert multiset(On(d.pushed, k) + items) == multiset(On(d.pushed, k)) + multiset(items);
    assert On(d.pushed, k) + [] == On(d.pushed, k);
  }

  lemma PrependKeepsBag(d: Desk, key: string, items: seq<string>, k: string)
    requires NoneEmpty(items)
    ensures IsBag(d, k) ==> IsBag(Stored(d, key, items, Reverse(items) + ListAt(d.store, key)), k)
    ensures IsQueue(d, k) && key != k ==> IsQueue(Stored(d, key, items, Reverse(items) + ListAt(d.store, key)), k)
  {
    hide On, ListAt, HoldsOther, Stored, Reverse;
    var list := ListAt(d.store, key);
    ReverseBag(items);
    StoredAt(d, key, items, Reverse(items) + list, k);
    assert multiset(Reverse(items) + list) == multiset(items) + multiset(list);
    assert multiset(On(d.pushed, k) + items) == multiset(On(d.pushed, k)) + multiset(items);
    assert On(d.pushed, k) + [] == On(d.pushed, k);
  }

  lemma RPushIsStored(d: Desk, key: string, items: seq<string>)
    requires items != [] && !HoldsOther(d.store, key)
    ensures var served := Notify(Stored(d, key, items, ListAt(d.store, key) + items), key);
            Next(d, Step.RPush(key, items)) == served.(propagated := served.propagated + [["RPUSH", key] + items])
  {
    hide Notify, StoreList, Tagged, HoldsOther;
    assert ([key] + items)[1..] == items;
    PushReplies(d.store, key, items);
  }

  lemma LPushIsStored(d: Desk, key: string, items: seq<string>)
    requires items != [] && !HoldsOther(d.store, key)
    ensures var served := Notify(Stored(d, key, items, Reverse(items) + ListAt(d.store, key)), key);
            Next(d, Step.LPush(key, items)) == served.(propagated := served.propagated + [["LPUSH", key] + items])
  {
    hide Notify, StoreList, Tagged, Reverse, HoldsOther;
    assert ([key] + items)[1..] == items;
    PushReplies(d.store, key, items);
  }

  lemma FailedPush(d: Desk, key: string, items: seq<string>)
    requires items == [] || HoldsOther(d.store, key)
    ensures Next(d, Step.RPush(key, items)) == d == Next(d, Step.LPush(key, items))
  {
    hide Notify, StoreList, Tagged, Reverse, HoldsOther;
    PushReplies(d.store, key, items);
  }

  lemma PushReplies(s: Store, key: string, items: seq<string>)
    ensures IsError(Commands.RPush(s, [key] + items).reply) <==> items == [] || HoldsOther(s, key)
    ensures IsError(Commands.LPush(s, [key] + items).reply) <==> items == [] || HoldsOther(s, key)
  {
    hide DecInt;
  }

  lemma {:induction false} ReverseBag(items: seq<string>)
    ensures multiset(Reverse(items)) == multiset(items)
    decreases items
  {
    if items != [] {
      var init, last := items[..|items| - 1], items[|items| - 1];
      ReverseBag(init);
      assert items == init + [last] && Reverse(items) == [last] + Reverse(init);
    }
  }

  lemma ServedKeeps(stored: Desk, key: string, k: string, propagated: seq<Payload>)
    ensures IsQueue(stored, k) ==> IsQueue(Notify(stored, key).(propagated := propagated), k)
    ensures IsBag(stored, k) ==> IsBag(Notify(stored, key).(propagated := propagated), k)
  {
    hide Notify, On, ListAt, HoldsOther;
    if ListKey(stored.store, k) {
      NotifyMoves(stored, key, k);
      MovesKeep(stored, Notify(stored, key), k);
    }
  }

  lemma RPushKeeps(d: Desk, key: string, items: seq<string>, k: string)
    requires NoneEmpty(items)
    ensures IsQueue(d, k) ==> IsQueue(Next(d, Step.RPush(key, items)), k)
    ensures IsBag(d, k) ==> IsBag(Next(d, Step.RPush(key, items)), k)
  {
    hide Notify, Stored, IsQueue, IsBag, Next, HoldsOther, ListAt;
    if items == [] || HoldsOther(d.store, key) {
      FailedPush(d, key, items);
    } else {
      var stored := Stored(d, key, items, ListAt(d.store, key) + items);
      RPushIsStored(d, key, items);
      AppendKeepsQueue(d, key, items, k);
      ServedKeeps(stored, key, k, Notify(stored, key).propagated + [["RPUSH", key] + items]);
    }
  }

  lemma LPushKeeps(d: Desk, key: string, items: seq<string>, k: string)
    requires NoneEmpty(items)
    ensures IsBag(d, k) ==> IsBag(Next(d, Step.LPush(key, items)), k)
    ensures IsQueue(d, k) && key != k ==> IsQueue(Next(d, Step.LPush(key, items)), k)
  {
    hide Notify, Stored, IsQueue, IsBag, Next, HoldsOther, ListAt, Reverse;
    if items == [] || HoldsOther(d.store, key) {
      FailedPush(d, key, items);
    } else {
      var stored := Stored(d, key, items, Reverse(items) + ListAt(d.store, key));
      LPushIsStored(d, key, items);
      PrependKeepsBag(d, key, items, k);
      ServedKeeps(stored, key, k, Notify(stored, key).propagated + [["LPUSH", key] + items]);
    }
  }

  lemma OtherStepMoves(d: Desk, step: Step, k: string)
    requires ListStep(step, k) && !step.RPush? && !step.LPush? && ListKey(d.store, k)
    ensures Moves(d, Next(d, step), k)
  {
    hide On, ListAt, HoldsOther, PopAny, UpdateStore, Tagged, RemoveWaiter, Enqueue;
    match step
    case LPop(key, count) =>
      var items := ListAt(d.store, key);
      var n := if count.Some? then count.value else 1;
      PopMoves(d, key, if n <= |items| then n else |items|, k);
      assert ListAt(d.store, k)[0..] == ListAt(d.store, k);
    case BLPop(keys, _) => PopAnyMoves(d, keys, k);
    case Overwrite(key, text) => OtherKeyMoves(d, key, d.store.Set(key, StoreValue(Str(text), Never)), k);
    case Remove(key) => OtherKeyMoves(d, key, d.store.Delete(key), k);
    case Timeout(_) =>
      assert ListAt(d.store, k)[0..] == ListAt(d.store, k);
  }

  lemma OtherKeyMoves(d: Desk, key: string, s: Store, k: string)
    requires key != k && s.Get(k) == d.store.Get(k)
    ensures Moves(d, d.(store := s), k)
  {
    assert ListAt(s, k) == ListAt(d.store, k);
  }

  /** Over every interleaving of RPUSH, LPOP, BLPOP, timeouts, and any use of other keys, the elements
      delivered from a key so far followed by its current list are exactly the elements pushed to it. */
  lemma {:induction false} BlockingListIsAQueue(steps: seq<Step>, k: string)
    requires forall i :: 0 <= i < |steps| ==> ListStep(steps[i], k) && (steps[i].LPush? ==> steps[i].key != k)
    ensures IsQueue(Reach(steps), k)
  {
    hide Next, IsQueue, ListStep;
    if steps == [] {
      OpenIsQueue(k);
    } else {
      var d, step := Reach(steps[..|steps| - 1]), steps[|steps| - 1];
      BlockingListIsAQueue(steps[..|steps| - 1], k);
      StepKeeps(d, step, k);
    }
  }

  lemma OpenIsQueue(k: string)
    ensures IsQueue(OPEN, k) && IsBag(OPEN, k)
  {
  }

  lemma StepKeeps(d: Desk, step: Step, k: string)
    requires ListStep(step, k)
    ensures IsBag(d, k) ==> IsBag(Next(d, step), k)
    ensures IsQueue(d, k) && (step.LPush? ==> step.key != k) ==> IsQueue(Next(d, step), k)
  {
    hide Next, On, ListAt, HoldsOther;
    match step
    case RPush(key, items) => RPushKeeps(d, key, items, k);
    case LPush(key, items) => LPushKeeps(d, key, items, k);
    case _ =>
      if ListKey(d.store, k) {
        OtherStepMoves(d, step, k);
        MovesKeep(d, Next(d, step), k);
      }
  }

  /** With LPUSH on the key as well, nothing is lost or duplicated. */
  lemma {:induction false} BlockingListIsABag(steps: seq<Step>, k: string)
    requires forall i :: 0 <= i < |steps| ==> ListStep(steps[i], k)
    ensures IsBag(Reach(steps), k)
  {
    hide Next, IsBag;
    if steps == [] {
      OpenIsQueue(k);
    } else {
      var d, step := Reach(steps[..|steps| - 1]), steps[|steps| - 1];
      BlockingListIsABag(steps[..|steps| - 1], k);
      StepKeeps(d, step, k);
    }
  }

  /** Why items must not be empty: handing the head of a list to a waiting client keeps the law exactly
      when that head is not the empty string, which is popped but counts as nothing. */
  lemma ServingKeepsTheLawExactly(d: Desk, key: string)
    requires QueueOf(d.queues, key) != [] && ListAt(d.store, key) != [] && QueueLaw(d, key)
    ensures QueueLaw(Notify(d, key), key) <==> ListAt(d.store, key)[0] != ""
  {
    hide UpdateStore, RemoveWaiter;
    var items, e := ListAt(d.store, key), Notify(d, key);
    UpdateStoreAt(d.store, key, items[1..], key);
    assert d.delivered + [] == d.delivered;
    if items[0] == "" {
      assert |On(e.delivered, key) + ListAt(e.store, key)| + 1 == |On(d.delivered, key) + items|;
    } else {
      assert e.delivered[..|d.delivered|] == d.delivered;
      assert (On(d.delivered, key) + [items[0]]) + items[1..] == On(d.delivered, key) + items;
    }
  }
}
