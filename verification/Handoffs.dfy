/** A push that hands an element to a waiting client, against what a replica makes of it: the master pushes and
    pops at once, the replica receives the LPOP first and then the push. */
module Handoffs {
  import opened Text
  import opened Store
  import opened Commands
  import opened Blocking
  import opened SaneStores
  import Resp

  // ---- storing a list twice, and after a deletion ------------------------------------------------------------

  lemma StoreTwice(s: Store, key: string, a: seq<string>, b: seq<string>)
    ensures StoreList(StoreList(s, key, a), key, b) == StoreList(s, key, b)
  {
    var t, u := StoreList(StoreList(s, key, a), key, b), StoreList(s, key, b);
    assert t.values == u.values;
  }

  lemma StoredListIsThere(s: Store, key: string, a: seq<string>)
    ensures ListAt(StoreList(s, key, a), key) == a && key in StoreList(s, key, a).values
    ensures !HoldsOther(StoreList(s, key, a), key) && ExpirationAt(StoreList(s, key, a), key) == ExpirationAt(s, key)
  {
  }

  lemma WithoutLast(keys: seq<string>, key: string)
    requires Distinct(keys) && key in keys
    ensures Without(keys, key) + [key] == keys <==> keys[|keys| - 1] == key
  {
    hide Without;
    var front, last := keys[..|keys| - 1], keys[|keys| - 1];
    assert keys == front + [last];
    if last == key {
      WithoutAbsent(front, key);
    } else {
      assert (Without(keys, key) + [key])[|Without(keys, key)|] == key;
    }
  }

  /** Deleting a key and storing it again restores the store exactly when the key was the last one and had no
      expiry. */
  lemma DeleteThenStore(s: Store, key: string, a: seq<string>)
    requires s.Valid() && key in s.values
    ensures StoreList(s.Delete(key), key, a) == StoreList(s, key, a)
            <==> s.values[key].expiration == Never && s.order[|s.order| - 1] == key
  {
    WithoutLast(s.order, key);
    var t, u := StoreList(s.Delete(key), key, a), StoreList(s, key, a);
    assert t.order == Without(s.order, key) + [key] && u.order == s.order;
    assert t.values[key] == StoreValue(List(a), Never) && u.values[key] == StoreValue(List(a), s.values[key].expiration);
    if s.values[key].expiration == Never { assert t.values == u.values; }
  }

  // ---- the two orders of events ------------------------------------------------------------------------------

  /** Deleting the key and creating it again, which the replica does to a list of one element, would go unnoticed. */
  predicate Rebuilds(s: Store, key: string) {
    |ListAt(s, key)| >= 2
    || (|ListAt(s, key)| == 1 && ExpirationAt(s, key) == Never && s.order != [] && s.order[|s.order| - 1] == key)
  }

  predicate AllAre(items: seq<string>, x: string) { forall i :: 0 <= i < |items| ==> items[i] == x }

  /** The pop first, then `list`, built on what is left. */
  function PopThen(s: Store, key: string, list: seq<string>): Store {
    StoreList(if ListAt(s, key) == [] then s else UpdateStore(s, key, ListAt(s, key)[1..]), key, list)
  }

  /** `list` first, then the pop. */
  function ThenPop(s: Store, key: string, list: seq<string>): Store
    requires list != []
  {
    UpdateStore(StoreList(s, key, list), key, list[1..])
  }

  lemma OrdersAgreeExactly(s: Store, key: string, whole: seq<string>, left: seq<string>)
    requires Sane(s) && !HoldsOther(s, key) && whole != [] && left != []
    requires ListAt(s, key) == [] ==> left == whole
    ensures ThenPop(s, key, whole) == PopThen(s, key, left)
            <==> ListAt(s, key) != [] && left == whole[1..] && Rebuilds(s, key)
  {
    hide Sane, StoreList, Store.Delete;
    var list := ListAt(s, key);
    StoredListIsThere(s, key, whole);
    StoreTwice(s, key, whole, whole[1..]);
    ListsAreSane(s, key);
    assert s.Valid() by { SaneIsValid(s); }
    var base := if list == [] then s else UpdateStore(s, key, list[1..]);
    StoredListIsThere(base, key, left);
    if whole[1..] == [] {
      assert ThenPop(s, key, whole) == StoreList(s, key, whole).Delete(key);
      assert ListAt(ThenPop(s, key, whole), key) == [] by { DeletedIsGone(StoreList(s, key, whole), key); }
    } else {
      StoredListIsThere(s, key, whole[1..]);
      assert ThenPop(s, key, whole) == StoreList(s, key, whole[1..]);
      if list != [] && left == whole[1..] {
        if |list| == 1 {
          DeleteThenStore(s, key, left);
        } else {
          StoreTwice(s, key, list[1..], left);
        }
      }
    }
  }

  lemma SaneIsValid(s: Store)
    requires Sane(s)
    ensures s.Valid()
  {
  }

  lemma DeletedIsGone(s: Store, key: string)
    ensures ListAt(s.Delete(key), key) == []
  {
  }

  // ---- RPUSH and LPUSH -----------------------------------------------------------------------------------------

  /** Taking the head of a pushed-on list is pushing on the list without its head, exactly when: for RPUSH
      there was a head; for LPUSH there was one and all new elements equal it. */
  lemma HeadsAgree(list: seq<string>, items: seq<string>)
    requires items != []
    ensures (list + items)[1..] == (if list == [] then [] else list[1..]) + items <==> list != []
    ensures list != [] ==>
              ((Reverse(items) + list)[1..] == Reverse(items) + list[1..] <==> AllAre(items, list[0]))
  {
    if list != [] {
      assert (list + items)[1..] == list[1..] + items;
      var r := Reverse(items);
      var a, b := (r + list)[1..], r + list[1..];
      assert forall i :: 0 <= i < |items| ==> items[i] == r[|items| - 1 - i];
      if a == b {
        LastFirst(r, list);
        forall i | 0 <= i < |items| ensures items[i] == list[0] { assert r[|items| - 1 - i] == list[0]; }
      }
      if AllAre(items, list[0]) {
        forall i | 0 <= i < |a| ensures a[i] == b[i] {
          assert a[i] == (r + list)[i + 1];
          assert i < |r| ==> r[i] == items[|items| - 1 - i];
          assert i + 1 < |r| ==> r[i + 1] == items[|items| - 2 - i];
        }
      }
    } else {
      assert |(list + items)[1..]| != |[] + items|;
    }
  }

  lemma {:induction false} LastFirst(r: seq<string>, list: seq<string>)
    requires list != [] && (r + list)[1..] == r + list[1..]
    ensures forall i :: 0 <= i < |r| ==> r[i] == list[0]
    decreases r
  {
    if r != [] {
      var a, b := (r + list)[1..], r + list[1..];
      assert a == r[1..] + list && a[0] == b[0] == r[0];
      assert r[1..] + list == [r[0]] + (r[1..] + list[1..]);
      assert (r[1..] + list)[1..] == r[1..] + list[1..];
      LastFirst(r[1..], list);
      assert a[0] == (r[1..] + list)[0];
      forall i | 0 <= i < |r| ensures r[i] == list[0] { assert i > 0 ==> r[i] == r[1..][i - 1]; }
    }
  }

  /** The waiter takes the head of what the push left. */
  lemma ServedStore(d: Desk, key: string, items: seq<string>, list: seq<string>)
    requires QueueOf(d.queues, key) != [] && list != [] && list[0] != ""
    ensures Notify(d.(store := StoreList(d.store, key, list), pushed := d.pushed + Tagged(key, items)), key).store
         == ThenPop(d.store, key, list)
    ensures Notify(d.(store := StoreList(d.store, key, list), pushed := d.pushed + Tagged(key, items)), key).propagated
         == d.propagated + [["LPOP", key]]
  {
    hide StoreList, UpdateStore, Blocking.RemoveWaiter, Tagged;
    StoredListIsThere(d.store, key, list);
  }

  lemma PopElsewhere(s: Store, key: string)
    requires !HoldsOther(s, key)
    ensures Commands.LPop(s, [key]).store == if ListAt(s, key) == [] then s else UpdateStore(s, key, ListAt(s, key)[1..])
  {
    hide UpdateStore, Error, BulkReply, Resp.ToRESP;
  }

  lemma PopLeaves(s: Store, key: string)
    requires !HoldsOther(s, key)
    ensures var t := Commands.LPop(s, [key]).store;
            !HoldsOther(t, key) && ListAt(t, key) == if ListAt(s, key) == [] then [] else ListAt(s, key)[1..]
  {
    hide Error, BulkReply;
    PopElsewhere(s, key);
  }

  /** Pushing and then popping against popping and then pushing, for RPUSH and LPUSH on one key. */
  lemma PopFirstAgreesExactly(s: Store, key: string, items: seq<string>)
    requires Sane(s) && !HoldsOther(s, key) && items != [] && NoneEmpty(items)
    ensures var list, popped := ListAt(s, key), Commands.LPop(s, [key]).store;
            && (ThenPop(s, key, list + items) == Commands.RPush(popped, [key] + items).store <==> Rebuilds(s, key))
            && (ThenPop(s, key, Reverse(items) + list) == Commands.LPush(popped, [key] + items).store
                <==> Rebuilds(s, key) && AllAre(items, list[0]))
  {
    hide StoreList, UpdateStore, Error, DecInt, Commands.LPop, Sane, ListAt, HoldsOther, ExpirationAt, Reverse, AllAre;
    var list, new_ := ListAt(s, key), Reverse(items);
    var rest := if list == [] then [] else list[1..];
    assert ([key] + items)[1..] == items;
    ListsAreSane(s, key);
    PopElsewhere(s, key);
    PopLeaves(s, key);
    OrdersAgreeExactly(s, key, list + items, rest + items);
    OrdersAgreeExactly(s, key, new_ + list, new_ + rest);
    HeadsAgree(list, items);
    if list == [] { assert [] + items == items && new_ + [] == new_; }
  }

  /** RPUSH with a waiting client: the replica, given LPOP and then RPUSH, ends with the master's store, insertion
      order and expiry included, exactly when the list had two elements or more, or one element without expiry
      under the last key. */
  lemma RPushHandoffReplaysExactly(d: Desk, key: string, items: seq<string>)
    requires Sane(d.store) && QueueOf(d.queues, key) != [] && !HoldsOther(d.store, key) && items != [] && NoneEmpty(items)
    ensures var master := PushAndServe(d, key, items, Commands.RPush(d.store, [key] + items));
            && master.propagated == d.propagated + [["LPOP", key]]
            && (master.store == Commands.RPush(Commands.LPop(d.store, [key]).store, [key] + items).store
                <==> Rebuilds(d.store, key))
  {
    hide StoreList, UpdateStore, Notify, Error, DecInt, Commands.LPop, Sane, ListAt, HoldsOther, ExpirationAt, Tagged;
    var list := ListAt(d.store, key);
    assert ([key] + items)[1..] == items;
    IntRepliesAreNoErrors(|list + items|);
    ListsAreSane(d.store, key);
    ServedStore(d, key, items, list + items);
    PopFirstAgreesExactly(d.store, key, items);
  }

  /** LPUSH with a waiting client: all of that, and every pushed element must equal the old head. */
  lemma LPushHandoffReplaysExactly(d: Desk, key: string, items: seq<string>)
    requires Sane(d.store) && QueueOf(d.queues, key) != [] && !HoldsOther(d.store, key) && items != [] && NoneEmpty(items)
    ensures var master := PushAndServe(d, key, items, Commands.LPush(d.store, [key] + items));
            && master.propagated == d.propagated + [["LPOP", key]]
            && (master.store == Commands.LPush(Commands.LPop(d.store, [key]).store, [key] + items).store
                <==> Rebuilds(d.store, key) && AllAre(items, ListAt(d.store, key)[0]))
  {
    hide StoreList, UpdateStore, Notify, Error, DecInt, Commands.LPop, Sane, ListAt, HoldsOther, ExpirationAt, Tagged, Reverse;
    var list := ListAt(d.store, key);
    assert ([key] + items)[1..] == items;
    IntRepliesAreNoErrors(|Reverse(items) + list|);
    ListsAreSane(d.store, key);
    ServedStore(d, key, items, Reverse(items) + list);
    PopFirstAgreesExactly(d.store, key, items);
  }

  // ---- a BLPOP that overtakes a push -------------------------------------------------------------------------------

  lemma {:induction false} WithoutAppended(keys: seq<string>, key: string, other: string)
    requires key != other
    ensures Without(keys + [other], key) == Without(keys, key) + [other]
    decreases keys
  {
    if keys == [] {
      assert [other][1..] == [];
    } else {
      WithoutAppended(keys[1..], key, other);
      assert (keys + [other])[1..] == keys[1..] + [other];
    }
  }

  lemma SetThenDelete(s: Store, key: string, v: StoreValue, other: string)
    requires key != other
    ensures s.Set(key, v).Delete(other) == s.Delete(other).Set(key, v)
  {
    hide Without;
    WithoutAppended(s.order, other, key);
    assert s.Set(key, v).Delete(other).values == s.Delete(other).Set(key, v).values;
  }

  lemma SetTwoKeys(s: Store, key: string, v: StoreValue, other: string, u: StoreValue)
    requires key != other && other in s.values
    ensures s.Set(key, v).Set(other, u) == s.Set(other, u).Set(key, v)
  {
    assert s.Set(key, v).Set(other, u).values == s.Set(other, u).Set(key, v).values;
  }

  /** Storing a list under one key and taking the head of another's commute. */
  lemma PopsElsewhereCommute(s: Store, key: string, list: seq<string>, other: string)
    requires Sane(s) && key != other && ListAt(s, other) != []
    ensures var left := ListAt(s, other)[1..];
            && UpdateStore(StoreList(s, key, list), other, left) == StoreList(UpdateStore(s, other, left), key, list)
            && ListAt(UpdateStore(s, other, left), key) == ListAt(s, key)
            && HoldsOther(UpdateStore(s, other, left), key) == HoldsOther(s, key)
  {
    hide Sane;
    SaneIsValid(s);
    var left := ListAt(s, other)[1..];
    SetThenDelete(s, key, StoreValue(List(list), ExpirationAt(s, key)), other);
    SetTwoKeys(s, key, StoreValue(List(list), ExpirationAt(s, key)), other, StoreValue(List(left), ExpirationAt(s, other)));
  }

  /** A push with nobody waiting, and then a pop. */
  lemma PushThenPop(d: Desk, key: string, items: seq<string>, o: Outcome, whole: seq<string>, other: string)
    requires QueueOf(d.queues, key) == [] && !IsError(o.reply) && o.store == StoreList(d.store, key, whole)
    ensures var pushed := PushAndServe(d, key, items, o);
            && pushed.store == o.store && pushed.propagated == d.propagated
            && var list := ListAt(o.store, other);
               if list != [] && list[0] != "" then
                 && PopAndPropagate(pushed, other).0.propagated == d.propagated + [["LPOP", other]]
                 && PopAndPropagate(pushed, other).0.store == UpdateStore(o.store, other, list[1..])
               else PopAndPropagate(pushed, other).0.propagated == d.propagated
  {
    hide StoreList, UpdateStore, ListAt, Tagged;
  }

  /** The dispatcher propagates a push behind an await, BLPOP propagates its pop at once. So when a BLPOP pops `other`
      while the propagation of a push on `key` is pending, the replica sees the pop first. It ends with the master's store
      exactly when the keys differ or the conditions of a handoff hold. */
  lemma OvertakenPushReplaysExactly(d: Desk, key: string, items: seq<string>, other: string)
    requires Sane(d.store) && QueueOf(d.queues, key) == [] && !HoldsOther(d.store, key) && items != [] && NoneEmpty(items)
    ensures var pushed := PushAndServe(d, key, items, Commands.RPush(d.store, [key] + items));
            var popped := PopAndPropagate(pushed, other).0;
            popped.propagated != d.propagated ==>
              (popped.store == Commands.RPush(Commands.LPop(d.store, [other]).store, [key] + items).store
               <==> key != other || Rebuilds(d.store, key))
    ensures var pushed := PushAndServe(d, key, items, Commands.LPush(d.store, [key] + items));
            var popped := PopAndPropagate(pushed, other).0;
            popped.propagated != d.propagated ==>
              (popped.store == Commands.LPush(Commands.LPop(d.store, [other]).store, [key] + items).store
               <==> key != other || (Rebuilds(d.store, key) && AllAre(items, ListAt(d.store, key)[0])))
  {
    hide StoreList, UpdateStore, Error, DecInt, Commands.LPop, Sane, ListAt, HoldsOther, ExpirationAt, Tagged, Reverse, AllAre,
         PushAndServe, PopAndPropagate;
    var s, list, new_ := d.store, ListAt(d.store, key), Reverse(items);
    assert ([key] + items)[1..] == items;
    IntRepliesAreNoErrors(|list + items|);
    IntRepliesAreNoErrors(|new_ + list|);
    PushThenPop(d, key, items, Commands.RPush(s, [key] + items), list + items, other);
    PushThenPop(d, key, items, Commands.LPush(s, [key] + items), new_ + list, other);
    if key == other {
      StoredListIsThere(s, key, list + items);
      StoredListIsThere(s, key, new_ + list);
      PopFirstAgreesExactly(s, key, items);
    } else {
      PopsElsewhereAreStored(s, key, list + items, other);
      PopsElsewhereAreStored(s, key, new_ + list, other);
    }
  }

  /** With a pop on another key, the replica stores the same list. */
  lemma PopsElsewhereAreStored(s: Store, key: string, whole: seq<string>, other: string)
    requires Sane(s) && key != other && !HoldsOther(s, key)
    ensures ListAt(StoreList(s, key, whole), other) == ListAt(s, other)
    ensures ListAt(s, other) != [] ==>
              var popped := Commands.LPop(s, [other]).store;
              && ListAt(popped, key) == ListAt(s, key) && !HoldsOther(popped, key)
              && UpdateStore(StoreList(s, key, whole), other, ListAt(s, other)[1..]) == StoreList(popped, key, whole)
  {
    hide StoreList, UpdateStore, Commands.LPop, Sane, ListAt, HoldsOther;
    StoredElsewhere(s, key, whole, other);
    if ListAt(s, other) != [] {
      ListIsNoOther(s, other);
      PopElsewhere(s, other);
      PopsElsewhereCommute(s, key, whole, other);
    }
  }

  lemma ListIsNoOther(s: Store, key: string)
    requires ListAt(s, key) != []
    ensures !HoldsOther(s, key)
  {
  }

  lemma StoredElsewhere(s: Store, key: string, list: seq<string>, other: string)
    requires key != other
    ensures ListAt(StoreList(s, key, list), other) == ListAt(s, other)
  {
  }
}
