/** The life of a waiting client: in exactly the right queues, served in order, resolved once. */
module Waiters {
  import opened Text
  import opened Store
  import opened Commands
  import opened Blocking
  import opened BlockingQueue

  // ---- removing a waiter from its queues -------------------------------------------------------------------

  function Entries(q: seq<Waiter>, connection: int): nat {
    if q == [] then 0 else (if q[0].connection == connection then 1 else 0) + Entries(q[1..], connection)
  }

  function Listed(keys: seq<string>, key: string): nat {
    if keys == [] then 0 else (if keys[0] == key then 1 else 0) + Listed(keys[1..], key)
  }

  /** The queue without this connection; the others keep their order. */
  function Others(q: seq<Waiter>, connection: int): (r: seq<Waiter>)
    ensures forall w :: w in r <==> w in q && w.connection != connection
  {
    if q == [] then []
    else (if q[0].connection == connection then [] else [q[0]]) + Others(q[1..], connection)
  }

  lemma OthersUnfolds(q: seq<Waiter>, connection: int)
    ensures q == [] ==> Others(q, connection) == []
    ensures q != [] ==>
              Others(q, connection) == (if q[0].connection == connection then [] else [q[0]]) + Others(q[1..], connection)
    ensures q != [] && q[0].connection == connection ==> Others(q, connection) == Others(q[1..], connection)
  {
    if q != [] { assert [] + Others(q[1..], connection) == Others(q[1..], connection); }
  }

  lemma EntriesOfCons(w: Waiter, rest: seq<Waiter>, c: int)
    ensures Entries([w] + rest, c) == (if w.connection == c then 1 else 0) + Entries(rest, c)
  {
    assert ([w] + rest)[1..] == rest;
  }

  lemma {:induction false} OthersEntries(q: seq<Waiter>, connection: int, c: int)
    ensures Entries(Others(q, connection), c) == if c == connection then 0 else Entries(q, c)
    ensures Entries(q, connection) == 0 ==> Others(q, connection) == q
    decreases q
  {
    hide Others;
    OthersUnfolds(q, connection);
    if q != [] {
      OthersEntries(q[1..], connection, c);
      EntriesOfCons(q[0], Others(q[1..], connection), c);
      assert q == [q[0]] + q[1..];
    }
  }

  lemma {:induction false} RemoveFirstEntries(q: seq<Waiter>, connection: int)
    ensures var r := RemoveFirst(q, connection);
            && Others(r, connection) == Others(q, connection)
            && Entries(r, connection) == if Entries(q, connection) == 0 then 0 else Entries(q, connection) - 1
    decreases q
  {
    if q != [] && q[0].connection != connection {
      RemoveFirstEntries(q[1..], connection);
      var rest := RemoveFirst(q[1..], connection);
      assert ([q[0]] + rest)[1..] == rest;
    }
  }

  /** removeWaiter takes the connection out of each of its queues completely, when it has no more
      entries there than its key list has. */
  lemma {:induction false} RemoveWaiterIsOthers(queues: Queues, keys: seq<string>, connection: int, key: string)
    requires Entries(QueueOf(queues, key), connection) <= Listed(keys, key)
    ensures QueueOf(RemoveWaiter(queues, keys, connection), key) == Others(QueueOf(queues, key), connection)
    decreases keys
  {
    if keys == [] {
      OthersEntries(QueueOf(queues, key), connection, connection);
    } else {
      var first := keys[0];
      var rest := if first in queues then queues[first := RemoveFirst(queues[first], connection)] else queues;
      RemoveFirstEntries(QueueOf(queues, first), connection);
      RemoveWaiterIsOthers(rest, keys[1..], connection, key);
    }
  }

  // ---- the invariant ---------------------------------------------------------------------------------------------

  ghost predicate Distinct(live: set<Waiter>) {
    forall v, w :: v in live && w in live && v.connection == w.connection ==> v == w
  }

  function Times(q: seq<Waiter>, w: Waiter): nat {
    if q == [] then 0 else (if q[0] == w then 1 else 0) + Times(q[1..], w)
  }

  /** Every queue entry is an unresolved waiter, and an unresolved waiter is in the queue of a key
      exactly as often as its command listed that key. */
  ghost predicate InRightQueues(queues: Queues, live: set<Waiter>) {
    && (forall key, w :: w in QueueOf(queues, key) ==> w in live)
    && (forall key, w :: w in live ==> Times(QueueOf(queues, key), w) == Listed(w.keys, key))
  }

  /** The same, counted by connection, as the source searches its queues. */
  ghost predicate ByConnection(queues: Queues, live: set<Waiter>) {
    && (forall key, w :: w in QueueOf(queues, key) ==> w in live)
    && (forall key, w :: w in live ==> Entries(QueueOf(queues, key), w.connection) == Listed(w.keys, key))
  }

  lemma {:induction false} TimesByConnection(q: seq<Waiter>, live: set<Waiter>, w: Waiter)
    requires Distinct(live) && w in live && forall v :: v in q ==> v in live
    ensures Entries(q, w.connection) == Times(q, w)
    decreases q
  {
    if q != [] {
      assert q[0] in live && (q[0].connection == w.connection <==> q[0] == w);
      TimesByConnection(q[1..], live, w);
    }
  }

  /** With distinct connections the two ways of counting are the same. */
  lemma ConnectionsTell(queues: Queues, live: set<Waiter>)
    requires Distinct(live)
    ensures InRightQueues(queues, live) <==> ByConnection(queues, live)
  {
    hide Times, Entries, Listed, Distinct;
    if forall key, w :: w in QueueOf(queues, key) ==> w in live {
      forall key, w | w in live ensures Times(QueueOf(queues, key), w) == Entries(QueueOf(queues, key), w.connection) {
        TimesByConnection(QueueOf(queues, key), live, w);
      }
    }
  }

  /** Each waiter is resolved at most once. */
  ghost predicate ResolvedOnce(d: Desk) {
    && (forall w :: w in d.live ==> w.id < d.nextId)
    && (forall i :: 0 <= i < |d.resolved| ==> d.resolved[i].waiter.id < d.nextId)
    && (forall i, w :: 0 <= i < |d.resolved| && w in d.live ==> d.resolved[i].waiter.id != w.id)
    && (forall v, w :: v in d.live && w in d.live && v.id == w.id ==> v == w)
    && (forall i, j :: 0 <= i < j < |d.resolved| ==> d.resolved[i].waiter.id != d.resolved[j].waiter.id)
  }

  ghost predicate WaitersOk(d: Desk) { Distinct(d.live) && InRightQueues(d.queues, d.live) && ResolvedOnce(d) }

  lemma SettleKeeps(d: Desk, queues: Queues, w: Waiter, result: Option<(string, string)>)
    requires WaitersOk(d) && w in d.live
    requires forall key :: Others(QueueOf(queues, key), w.connection) == Others(QueueOf(d.queues, key), w.connection)
    requires forall key :: Entries(QueueOf(queues, key), w.connection) <= Listed(w.keys, key)
    ensures WaitersOk(Settle(d.(queues := queues), w, result))
    ensures forall key :: QueueOf(Settle(d.(queues := queues), w, result).queues, key) == Others(QueueOf(d.queues, key), w.connection)
  {
    hide Others, Entries, Listed, RemoveWaiter, InRightQueues;
    var e := Settle(d.(queues := queues), w, result);
    ConnectionsTell(d.queues, d.live);
    forall key ensures QueueOf(e.queues, key) == Others(QueueOf(d.queues, key), w.connection) {
      RemoveWaiterIsOthers(queues, w.keys, w.connection, key);
    }
    forall key, v | v in e.live
      ensures Entries(QueueOf(e.queues, key), v.connection) == Listed(v.keys, key)
    {
      OthersEntries(QueueOf(d.queues, key), w.connection, v.connection);
    }
    assert ByConnection(e.queues, e.live);
    ConnectionsTell(e.queues, e.live);
  }

  lemma OthersSkipHead(q: seq<Waiter>)
    requires q != []
    ensures Others(q[1..], q[0].connection) == Others(q, q[0].connection)
    ensures Entries(q, q[0].connection) == Entries(q[1..], q[0].connection) + 1
  {
  }

  /** Notify only touches the queue of its key, before it settles the head. */
  lemma NotifyKeeps(d: Desk, key: string)
    requires WaitersOk(d)
    ensures WaitersOk(Notify(d, key))
  {
    hide Others, Entries, Listed, RemoveWaiter, TryLPop;
    var queue := QueueOf(d.queues, key);
    if queue != [] {
      var w := queue[0];
      assert w in d.live;
      var shifted := d.queues[key := queue[1..]];
      OthersSkipHead(queue);
      var (popped, item) := PopAndPropagate(d.(queues := shifted), key);
      ConnectionsTell(d.queues, d.live);
      SettleKeeps(popped.(queues := d.queues), shifted, w, Some((key, if item.Some? then item.value else "")));
      assert Truthy(item) ==> Notify(d, key) == Settle(popped, w, Some((key, item.value)));
      assert popped.(queues := shifted) == popped;
      SameQueues(d.queues, key);
    }
  }

  lemma SameQueues(queues: Queues, key: string)
    requires QueueOf(queues, key) != []
    ensures queues[key := QueueOf(queues, key)] == queues
    ensures queues[key := QueueOf(queues, key)[1..]][key := QueueOf(queues, key)] == queues
  {
  }

  lemma {:induction false} PopAnyKeepsWaiters(d: Desk, keys: seq<string>)
    ensures var e := PopAny(d, keys).0;
            e.queues == d.queues && e.live == d.live && e.resolved == d.resolved && e.nextId == d.nextId
    decreases keys
  {
    hide TryLPop;
    if keys != [] { PopAnyKeepsWaiters(PopAndPropagate(d, keys[0]).0, keys[1..]); }
  }

  lemma {:induction false} EnqueueTimes(queues: Queues, keys: seq<string>, w: Waiter, key: string, v: Waiter)
    ensures Times(QueueOf(Enqueue(queues, keys, w), key), v)
         == Times(QueueOf(queues, key), v) + if v == w then Listed(keys, key) else 0
    ensures v in QueueOf(Enqueue(queues, keys, w), key) ==> v == w || v in QueueOf(queues, key)
    decreases keys
  {
    if keys != [] {
      var next := queues[keys[0] := QueueOf(queues, keys[0]) + [w]];
      EnqueueTimes(next, keys[1..], w, key, v);
      TimesAppend(QueueOf(queues, keys[0]), w, v);
    }
  }

  lemma {:induction false} TimesAppend(q: seq<Waiter>, w: Waiter, v: Waiter)
    ensures Times(q + [w], v) == Times(q, v) + if w == v then 1 else 0
    decreases q
  {
    if q != [] {
      TimesAppend(q[1..], w, v);
      assert (q + [w])[1..] == q[1..] + [w];
    } else {
      assert [w][1..] == [];
    }
  }

  lemma {:induction false} TimesOfAbsent(q: seq<Waiter>, w: Waiter)
    ensures Times(q, w) > 0 <==> w in q
    decreases q
  {
    if q != [] {
      TimesOfAbsent(q[1..], w);
      assert w in q <==> q[0] == w || w in q[1..];
    }
  }

  /** A new waiter joins the queues of its keys, and nobody else is disturbed, whoever it is. */
  lemma EnqueueKeepsRight(queues: Queues, live: set<Waiter>, w: Waiter)
    requires InRightQueues(queues, live) && w !in live
    ensures InRightQueues(Enqueue(queues, w.keys, w), live + {w})
  {
    hide Times, Listed, Enqueue;
    var after := Enqueue(queues, w.keys, w);
    forall key, v | v in QueueOf(after, key) ensures v in live + {w} { EnqueueTimes(queues, w.keys, w, key, v); }
    forall key, v | v in live + {w} ensures Times(QueueOf(after, key), v) == Listed(v.keys, key) {
      EnqueueTimes(queues, w.keys, w, key, v);
      TimesOfAbsent(QueueOf(queues, key), v);
    }
  }

  lemma BlockKeeps(d: Desk, keys: seq<string>, connection: int)
    requires WaitersOk(d) && forall w :: w in d.live ==> w.connection != connection
    ensures WaitersOk(Block(d, keys, connection).0)
  {
    hide Enqueue, PopAny, InRightQueues;
    PopAnyKeepsWaiters(d, keys);
    var (after, result) := PopAny(d, keys);
    if result == None { EnqueueKeepsRight(d.queues, d.live, Waiter(after.nextId, keys, connection)); }
  }

  // ---- every run -----------------------------------------------------------------------------------------------------

  /** A connection does not wait twice at the same time. */
  ghost predicate OneWaitEach(d: Desk, step: Step) {
    step.BLPop? ==> forall w :: w in d.live ==> w.connection != step.connection
  }

  lemma PushKeeps(d: Desk, name: string, key: string, items: seq<string>, o: Outcome)
    requires WaitersOk(d)
    ensures WaitersOk(Push(d, name, key, items, o))
  {
    hide Notify, InRightQueues, Distinct, Tagged;
    var stored := d.(store := o.store, pushed := d.pushed + Tagged(key, items));
    NotifyKeeps(stored, key);
  }

  lemma NextKeepsWaiters(d: Desk, step: Step)
    requires WaitersOk(d) && OneWaitEach(d, step)
    ensures WaitersOk(Next(d, step))
  {
    hide Push, Block, Commands.RPush, Commands.LPush, UpdateStore, ListAt, InRightQueues, Settle, Distinct;
    match step
    case RPush(key, items) => PushKeeps(d, "RPUSH", key, items, Commands.RPush(d.store, [key] + items));
    case LPush(key, items) => PushKeeps(d, "LPUSH", key, items, Commands.LPush(d.store, [key] + items));
    case BLPop(keys, connection) => BlockKeeps(d, keys, connection);
    case Timeout(w) => TimeoutKeeps(d, w);
    case _ =>
  }

  lemma TimeoutKeeps(d: Desk, w: Waiter)
    requires WaitersOk(d)
    ensures WaitersOk(TimeOut(d, w))
  {
    hide Others, Entries, Listed, RemoveWaiter;
    ConnectionsTell(d.queues, d.live);
    if w in d.live { SettleKeeps(d, d.queues, w, None); }
  }

  ghost predicate Orderly(steps: seq<Step>) {
    forall i :: 0 <= i < |steps| ==> OneWaitEach(Reach(steps[..i]), steps[i])
  }

  /** Waiter lifecycle: in every run in which no connection waits twice at once, an unresolved waiter is in
      each key's queue exactly as often as it asked for that key, nobody else is in a queue, and no
      waiter is resolved twice. */
  lemma {:induction false} WaitersAreInRightQueues(steps: seq<Step>)
    requires Orderly(steps)
    ensures WaitersOk(Reach(steps))
  {
    hide Next, WaitersOk, OneWaitEach;
    if steps == [] {
      OpenOk();
    } else {
      var before := steps[..|steps| - 1];
      forall i | 0 <= i < |before| ensures OneWaitEach(Reach(before[..i]), before[i]) { assert before[..i] == steps[..i]; }
      WaitersAreInRightQueues(before);
      NextKeepsWaiters(Reach(before), steps[|steps| - 1]);
    }
  }

  lemma OpenOk()
    ensures WaitersOk(OPEN)
  {
  }

  // ---- service -----------------------------------------------------------------------------------------------------------

  /** FIFO service: a push that finds a waiter gives the head of the list to the head of the queue; the other
      waiters keep their order, and the list ends up exactly one element shorter. */
  lemma PushServesHead(d: Desk, key: string)
    requires WaitersOk(d) && QueueOf(d.queues, key) != [] && ListAt(d.store, key) != [] && ListAt(d.store, key)[0] != ""
    ensures var e, w := Notify(d, key), QueueOf(d.queues, key)[0];
            && e.resolved == d.resolved + [Resolution(w, Some((key, ListAt(d.store, key)[0])))]
            && w !in e.live
            && (forall k :: QueueOf(e.queues, k) == Others(QueueOf(d.queues, k), w.connection))
            && ListAt(e.store, key) == ListAt(d.store, key)[1..]
  {
    hide Others, Entries, Listed, RemoveWaiter, UpdateStore;
    var queue, items := QueueOf(d.queues, key), ListAt(d.store, key);
    var w := queue[0];
    assert w in d.live;
    var shifted := d.queues[key := queue[1..]];
    OthersSkipHead(queue);
    UpdateStoreAt(d.store, key, items[1..], key);
    var (popped, item) := PopAndPropagate(d.(queues := shifted), key);
    ConnectionsTell(d.queues, d.live);
    SettleKeeps(popped.(queues := d.queues), shifted, w, Some((key, items[0])));
    assert popped.(queues := shifted) == popped;
  }

  /** An RPUSH of n elements to a list with a waiter lengthens it by exactly n - 1. */
  lemma PushLengthensByOneLess(d: Desk, key: string, items: seq<string>)
    requires WaitersOk(d) && QueueOf(d.queues, key) != [] && ListKey(d.store, key) && items != [] && NoneEmpty(items)
    ensures |ListAt(Next(d, Step.RPush(key, items)).store, key)| == |ListAt(d.store, key)| + |items| - 1
  {
    hide Notify, Stored, InRightQueues, ResolvedOnce, Next, ListAt, HoldsOther;
    var list := ListAt(d.store, key);
    var stored := Stored(d, key, items, list + items);
    RPushIsStored(d, key, items);
    StoredAt(d, key, items, list + items, key);
    StoredKeepsWaiters(d, key, items, list + items);
    PushServesHead(stored, key);
  }

  lemma StoredKeepsWaiters(d: Desk, key: string, items: seq<string>, list: seq<string>)
    ensures var e := Stored(d, key, items, list);
            e.queues == d.queues && e.propagated == d.propagated && (WaitersOk(d) ==> WaitersOk(e))
  {
  }

  // ---- no lost wake-up -----------------------------------------------------------------------------------------------------

  /** A key with a waiter has no element. */
  ghost predicate NoneIdle(d: Desk) { forall k :: QueueOf(d.queues, k) != [] ==> ListAt(d.store, k) == [] }

  ghost predicate NoEmpties(d: Desk) { forall k, i :: 0 <= i < |ListAt(d.store, k)| ==> ListAt(d.store, k)[i] != "" }

  ghost predicate SinglePush(step: Step) {
    match step
    case RPush(_, items) => |items| == 1 && items[0] != ""
    case LPush(_, items) => |items| == 1 && items[0] != ""
    case _ => true
  }

  ghost predicate Awake(d: Desk) { WaitersOk(d) && NoneIdle(d) && NoEmpties(d) }

  lemma PushOfOneKeepsAwake(d: Desk, key: string, item: string)
    requires Awake(d) && item != "" && !HoldsOther(d.store, key)
    ensures Awake(Notify(Stored(d, key, [item], ListAt(d.store, key) + [item]), key))
    ensures Awake(Notify(Stored(d, key, [item], [item] + ListAt(d.store, key)), key))
  {
    hide Stored, Notify, ListAt, HoldsOther, InRightQueues, ResolvedOnce, Distinct;
    OneMore(d, key, item, ListAt(d.store, key) + [item]);
    OneMore(d, key, item, [item] + ListAt(d.store, key));
  }

  lemma OneMore(d: Desk, key: string, item: string, list: seq<string>)
    requires Awake(d) && item != ""
    requires list == ListAt(d.store, key) + [item] || list == [item] + ListAt(d.store, key)
    ensures Awake(Notify(Stored(d, key, [item], list), key))
  {
    hide Stored, Notify, ListAt, HoldsOther, InRightQueues, ResolvedOnce, Distinct, Others;
    var stored := Stored(d, key, [item], list);
    StoredKeepsWaiters(d, key, [item], list);
    forall k ensures ListAt(stored.store, k) == if k == key then list else ListAt(d.store, k) {
      StoredAt(d, key, [item], list, k);
    }
    NotifyKeeps(stored, key);
    var e := Notify(stored, key);
    if QueueOf(d.queues, key) == [] {
      assert e == stored by { NoWaiterNoChange(stored, key); }
    } else {
      PushServesHead(stored, key);
      forall k | k != key ensures ListAt(e.store, k) == ListAt(stored.store, k) { NotifyElsewhere(stored, key, k); }
      forall k | QueueOf(e.queues, k) != [] ensures ListAt(e.store, k) == [] {
        assert QueueOf(e.queues, k)[0] in QueueOf(d.queues, k);
      }
    }
  }

  lemma NoWaiterNoChange(d: Desk, key: string)
    requires QueueOf(d.queues, key) == []
    ensures Notify(d, key) == d
  {
  }

  lemma NotifyElsewhere(d: Desk, key: string, k: string)
    requires k != key
    ensures ListAt(Notify(d, key).store, k) == ListAt(d.store, k)
  {
    hide UpdateStore, RemoveWaiter;
    var items := ListAt(d.store, key);
    if items != [] { UpdateStoreAt(d.store, key, items[1..], k); }
  }

  /** From d to e lists only lost elements at the front, and queues only lost entries. */
  ghost predicate Shrinks(d: Desk, e: Desk) {
    && (forall k :: |ListAt(e.store, k)| <= |ListAt(d.store, k)|
                    && ListAt(e.store, k) == ListAt(d.store, k)[|ListAt(d.store, k)| - |ListAt(e.store, k)|..])
    && (forall k, w :: w in QueueOf(e.queues, k) ==> w in QueueOf(d.queues, k))
  }

  lemma ShrinkingKeepsAwake(d: Desk, e: Desk)
    requires Awake(d) && Shrinks(d, e) && WaitersOk(e)
    ensures Awake(e)
  {
    hide ListAt, InRightQueues, ResolvedOnce, Distinct;
    forall k | QueueOf(e.queues, k) != [] ensures ListAt(e.store, k) == [] {
      assert QueueOf(e.queues, k)[0] in QueueOf(d.queues, k);
    }
  }

  lemma {:induction false} PopAnyFindsNothing(d: Desk, keys: seq<string>)
    requires NoEmpties(d)
    ensures PopAny(d, keys).1 == None ==> PopAny(d, keys).0.store == d.store && forall k :: k in keys ==> ListAt(d.store, k) == []
    decreases keys
  {
    hide ListAt, UpdateStore;
    if keys != [] && ListAt(d.store, keys[0]) == [] {
      assert d.delivered + [] == d.delivered && d.propagated + [] == d.propagated;
      assert PopAndPropagate(d, keys[0]).0 == d;
      PopAnyFindsNothing(d, keys[1..]);
    }
  }

  lemma {:induction false} EnqueueOnlyListed(queues: Queues, keys: seq<string>, w: Waiter, k: string)
    requires k !in keys
    ensures QueueOf(Enqueue(queues, keys, w), k) == QueueOf(queues, k)
    decreases keys
  {
    if keys != [] { EnqueueOnlyListed(queues[keys[0] := QueueOf(queues, keys[0]) + [w]], keys[1..], w, k); }
  }

  lemma BlockKeepsAwake(d: Desk, keys: seq<string>, connection: int)
    requires Awake(d) && forall w :: w in d.live ==> w.connection != connection
    ensures Awake(Block(d, keys, connection).0)
  {
    hide ListAt, InRightQueues, ResolvedOnce, Distinct, PopAny, Enqueue;
    BlockKeeps(d, keys, connection);
    PopAnyKeepsWaiters(d, keys);
    PopAnyFindsNothing(d, keys);
    var (after, result) := PopAny(d, keys);
    var e := Block(d, keys, connection).0;
    if result == None {
      forall k | QueueOf(e.queues, k) != [] ensures ListAt(e.store, k) == [] {
        if k !in keys { EnqueueOnlyListed(d.queues, keys, Waiter(after.nextId, keys, connection), k); }
      }
    } else {
      forall k ensures |ListAt(e.store, k)| <= |ListAt(d.store, k)|
                    && ListAt(e.store, k) == ListAt(d.store, k)[|ListAt(d.store, k)| - |ListAt(e.store, k)|..] {
        PopAnyOnlyPops(d, keys, k);
      }
      ShrinkingKeepsAwake(d, e);
    }
  }

  lemma {:induction false} PopAnyOnlyPops(d: Desk, keys: seq<string>, k: string)
    ensures var before, after := ListAt(d.store, k), ListAt(PopAny(d, keys).0.store, k);
            |after| <= |before| && after == before[|before| - |after|..]
    decreases keys
  {
    hide ListAt, UpdateStore;
    if keys != [] {
      var items := ListAt(d.store, keys[0]);
      if items != [] { UpdateStoreAt(d.store, keys[0], items[1..], k); }
      PopAnyOnlyPops(PopAndPropagate(d, keys[0]).0, keys[1..], k);
    }
  }

  lemma OtherStepShrinks(d: Desk, step: Step)
    requires step.LPop? || step.Timeout? || step.Overwrite? || step.Remove?
    requires WaitersOk(d)
    ensures Shrinks(d, Next(d, step))
  {
    hide InRightQueues, ResolvedOnce, Distinct, UpdateStore, Others;
    var e := Next(d, step);
    forall k
      ensures |ListAt(e.store, k)| <= |ListAt(d.store, k)|
           && ListAt(e.store, k) == ListAt(d.store, k)[|ListAt(d.store, k)| - |ListAt(e.store, k)|..]
      ensures forall w :: w in QueueOf(e.queues, k) ==> w in QueueOf(d.queues, k)
    {
      match step
      case LPop(key, count) =>
        var items := ListAt(d.store, key);
        var n := if count.Some? then count.value else 1;
        UpdateStoreAt(d.store, key, items[if n <= |items| then n else |items|..], k);
      case Timeout(w) => TimeoutShrinks(d, w, k);
      case Overwrite(key, text) =>
        assert e.store.Get(k) == if k == key then Some(StoreValue(Str(text), Never)) else d.store.Get(k);
      case Remove(key) =>
        assert e.store.Get(k) == if k == key then None else d.store.Get(k);
    }
  }

  lemma TimeoutShrinks(d: Desk, w: Waiter, k: string)
    requires WaitersOk(d)
    ensures TimeOut(d, w).store == d.store
    ensures forall v :: v in QueueOf(TimeOut(d, w).queues, k) ==> v in QueueOf(d.queues, k)
  {
    hide Entries, Listed, RemoveWaiter;
    ConnectionsTell(d.queues, d.live);
    if w in d.live { RemoveWaiterIsOthers(d.queues, w.keys, w.connection, k); }
  }

  lemma NextKeepsAwake(d: Desk, step: Step)
    requires Awake(d) && OneWaitEach(d, step) && SinglePush(step)
    ensures Awake(Next(d, step))
  {
    hide Stored, Notify, ListAt, HoldsOther, WaitersOk, NoneIdle, NoEmpties, Shrinks, Next, Reverse;
    NextKeepsWaiters(d, step);
    match step
    case RPush(key, items) =>
      if HoldsOther(d.store, key) {
        FailedPush(d, key, items);
      } else {
        RPushIsStored(d, key, items);
        assert items == [items[0]];
        PushOfOneKeepsAwake(d, key, items[0]);
        SameDesk(Notify(Stored(d, key, items, ListAt(d.store, key) + items), key), Next(d, step));
      }
    case LPush(key, items) =>
      if HoldsOther(d.store, key) {
        FailedPush(d, key, items);
      } else {
        LPushIsStored(d, key, items);
        assert items == [items[0]] == Reverse(items);
        PushOfOneKeepsAwake(d, key, items[0]);
        SameDesk(Notify(Stored(d, key, items, Reverse(items) + ListAt(d.store, key)), key), Next(d, step));
      }
    case BLPop(keys, connection) => NextBlock(d, keys, connection); BlockKeepsAwake(d, keys, connection);
    case _ =>
      OtherStepShrinks(d, step);
      ShrinkingKeepsAwake(d, Next(d, step));
  }

  lemma NextBlock(d: Desk, keys: seq<string>, connection: int)
    ensures Next(d, Step.BLPop(keys, connection)) == Block(d, keys, connection).0
  {
  }

  lemma SameDesk(d: Desk, e: Desk)
    requires Awake(d) && WaitersOk(e) && e.store == d.store && e.queues == d.queues
    ensures Awake(e)
  {
    hide ListAt, WaitersOk;
  }

  /** No lost wake-up: if every push has one element, then in every reachable state a key on which a client
      waits has no element left. */
  lemma {:induction false} NoLostWakeUp(steps: seq<Step>)
    requires Orderly(steps) && forall i :: 0 <= i < |steps| ==> SinglePush(steps[i])
    ensures Awake(Reach(steps))
  {
    hide Next, Awake, OneWaitEach, SinglePush;
    if steps == [] {
      OpenAwake();
    } else {
      var before := steps[..|steps| - 1];
      forall i | 0 <= i < |before| ensures OneWaitEach(Reach(before[..i]), before[i]) { assert before[..i] == steps[..i]; }
      NoLostWakeUp(before);
      NextKeepsAwake(Reach(before), steps[|steps| - 1]);
    }
  }

  lemma OpenAwake()
    ensures Awake(OPEN)
  {
  }

  /** Each push wakes at most one client: where a second client waits, the push leaves it next to a
      non-empty list exactly when it has more than one element. */
  lemma LongPushLeavesAWaiterIdle(d: Desk, key: string, items: seq<string>)
    requires Awake(d) && !HoldsOther(d.store, key) && items != [] && NoneEmpty(items)
    requires QueueOf(d.queues, key) != [] && Others(QueueOf(d.queues, key), QueueOf(d.queues, key)[0].connection) != []
    ensures var e := Next(d, Step.RPush(key, items));
            QueueOf(e.queues, key) != [] && (ListAt(e.store, key) != [] <==> |items| > 1)
  {
    hide Notify, Stored, InRightQueues, ResolvedOnce, Next, ListAt, HoldsOther, Others;
    var list := ListAt(d.store, key);
    var stored := Stored(d, key, items, list + items);
    RPushIsStored(d, key, items);
    StoredAt(d, key, items, list + items, key);
    StoredKeepsWaiters(d, key, items, list + items);
    PushServesHead(stored, key);
  }
}
