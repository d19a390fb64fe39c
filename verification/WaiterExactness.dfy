/** Exactly when the queues of blocked clients stay right, although they are searched by connection. */
module WaiterExactness {
  import opened Text
  import opened Store
  import opened Commands
  import opened Blocking
  import opened BlockingQueue
  import opened Waiters

  // ---- what removeWaiter takes out --------------------------------------------------------------------------

  /** The first n entries of this connection, which removeWaiter removes for n listings, and what it leaves. */
  function FirstOf(q: seq<Waiter>, connection: int, n: nat): seq<Waiter> {
    if q == [] || n == 0 then []
    else if q[0].connection == connection then [q[0]] + FirstOf(q[1..], connection, n - 1)
    else FirstOf(q[1..], connection, n)
  }

  function DropFirst(q: seq<Waiter>, connection: int, n: nat): seq<Waiter> {
    if q == [] || n == 0 then q
    else if q[0].connection == connection then DropFirst(q[1..], connection, n - 1)
    else [q[0]] + DropFirst(q[1..], connection, n)
  }

  lemma {:induction false} DropOneMore(q: seq<Waiter>, connection: int, n: nat)
    ensures DropFirst(RemoveFirst(q, connection), connection, n) == DropFirst(q, connection, n + 1)
    decreases q
  {
    if q != [] && q[0].connection != connection {
      DropOneMore(q[1..], connection, n);
      var rest := RemoveFirst(q[1..], connection);
      assert ([q[0]] + rest)[1..] == rest;
      if n == 0 { assert DropFirst(q, connection, 1) == [q[0]] + DropFirst(q[1..], connection, 1); }
    }
  }

  lemma {:induction false} RemoveWaiterDrops(queues: Queues, keys: seq<string>, connection: int, key: string)
    ensures QueueOf(RemoveWaiter(queues, keys, connection), key) == DropFirst(QueueOf(queues, key), connection, Listed(keys, key))
    decreases keys
  {
    if keys != [] {
      var first := keys[0];
      var rest := if first in queues then queues[first := RemoveFirst(queues[first], connection)] else queues;
      RemoveWaiterDrops(rest, keys[1..], connection, key);
      if first == key { DropOneMore(QueueOf(queues, key), connection, Listed(keys[1..], key)); }
    }
  }

  lemma TimesOfCons(w: Waiter, rest: seq<Waiter>, v: Waiter)
    ensures Times([w] + rest, v) == (if w == v then 1 else 0) + Times(rest, v)
  {
    assert ([w] + rest)[1..] == rest;
  }

  lemma {:induction false} DropAndFirst(q: seq<Waiter>, connection: int, n: nat, v: Waiter)
    ensures Times(DropFirst(q, connection, n), v) + Times(FirstOf(q, connection, n), v) == Times(q, v)
    ensures v in FirstOf(q, connection, n) ==> v in q && v.connection == connection
    decreases q
  {
    if q != [] && n > 0 {
      if q[0].connection == connection {
        DropAndFirst(q[1..], connection, n - 1, v);
        TimesOfCons(q[0], FirstOf(q[1..], connection, n - 1), v);
      } else {
        DropAndFirst(q[1..], connection, n, v);
        TimesOfCons(q[0], DropFirst(q[1..], connection, n), v);
      }
    }
  }

  /** If only w's own entries are removed, and as many as there are, none is left. */
  lemma {:induction false} OwnAllGone(q: seq<Waiter>, n: nat, w: Waiter)
    requires Times(q, w) <= n && forall v :: v in FirstOf(q, w.connection, n) ==> v == w
    ensures Times(DropFirst(q, w.connection, n), w) == 0
    decreases q
  {
    if q != [] && n > 0 {
      if q[0].connection == w.connection {
        var rest := FirstOf(q[1..], w.connection, n - 1);
        assert FirstOf(q, w.connection, n) == [q[0]] + rest;
        assert q[0] in FirstOf(q, w.connection, n) && forall v :: v in rest ==> v in FirstOf(q, w.connection, n);
        OwnAllGone(q[1..], n - 1, w);
      } else {
        assert FirstOf(q, w.connection, n) == FirstOf(q[1..], w.connection, n);
        OwnAllGone(q[1..], n, w);
        TimesOfCons(q[0], DropFirst(q[1..], w.connection, n), w);
      }
    }
  }

  // ---- settling one waiter -----------------------------------------------------------------------------------

  /** In every queue the entries that removeWaiter takes out for w are w's own. */
  ghost predicate Owned(queues: Queues, w: Waiter) {
    forall key, v :: v in FirstOf(QueueOf(queues, key), w.connection, Listed(w.keys, key)) ==> v == w
  }

  /** Right for everybody but w, who may have been shifted out of a queue already. */
  ghost predicate RightBut(queues: Queues, live: set<Waiter>, w: Waiter) {
    && w in live
    && (forall key, v :: v in QueueOf(queues, key) ==> v in live)
    && (forall key, v :: v in live && v != w ==> Times(QueueOf(queues, key), v) == Listed(v.keys, key))
    && (forall key :: Times(QueueOf(queues, key), w) <= Listed(w.keys, key))
  }

  /** Settling a waiter leaves the queues right exactly when removeWaiter finds only its own entries. */
  lemma SettlingKeepsRightExactly(queues: Queues, live: set<Waiter>, w: Waiter)
    requires RightBut(queues, live, w)
    ensures InRightQueues(RemoveWaiter(queues, w.keys, w.connection), live - {w}) <==> Owned(queues, w)
  {
    hide Times, Listed, RemoveWaiter, FirstOf, DropFirst;
    var after := RemoveWaiter(queues, w.keys, w.connection);
    forall key, v
      ensures Times(QueueOf(after, key), v)
              == Times(QueueOf(queues, key), v) - Times(FirstOf(QueueOf(queues, key), w.connection, Listed(w.keys, key)), v)
    {
      RemoveWaiterDrops(queues, w.keys, w.connection, key);
      DropAndFirst(QueueOf(queues, key), w.connection, Listed(w.keys, key), v);
    }
    if Owned(queues, w) {
      OwnedIsEnough(queues, live, w);
    } else {
      var key, v :| v in FirstOf(QueueOf(queues, key), w.connection, Listed(w.keys, key)) && v != w;
      DropAndFirst(QueueOf(queues, key), w.connection, Listed(w.keys, key), v);
      TimesOfAbsent(FirstOf(QueueOf(queues, key), w.connection, Listed(w.keys, key)), v);
      assert v in live - {w} && Times(QueueOf(after, key), v) < Listed(v.keys, key);
    }
  }

  lemma OwnedIsEnough(queues: Queues, live: set<Waiter>, w: Waiter)
    requires RightBut(queues, live, w) && Owned(queues, w)
    ensures InRightQueues(RemoveWaiter(queues, w.keys, w.connection), live - {w})
  {
    hide Times, Listed, RemoveWaiter, FirstOf, DropFirst;
    var after := RemoveWaiter(queues, w.keys, w.connection);
    forall key, v
      ensures v in QueueOf(after, key) ==> v in live - {w}
      ensures v in live - {w} ==> Times(QueueOf(after, key), v) == Listed(v.keys, key)
    {
      var q, n := QueueOf(queues, key), Listed(w.keys, key);
      RemoveWaiterDrops(queues, w.keys, w.connection, key);
      DropAndFirst(q, w.connection, n, v);
      TimesOfAbsent(QueueOf(after, key), v);
      TimesOfAbsent(q, v);
      TimesOfAbsent(FirstOf(q, w.connection, n), v);
      if v == w { OwnAllGone(q, n, w); }
    }
  }

  // ---- steps and runs ------------------------------------------------------------------------------------------

  /** The pop that notifyListPush tries finds an element. */
  predicate Pops(d: Desk, key: string) { ListAt(d.store, key) != [] && ListAt(d.store, key)[0] != "" }

  /** If this notification serves the head of the queue, the entries removed on its behalf are its own. */
  ghost predicate ServesOwn(d: Desk, key: string) {
    QueueOf(d.queues, key) != [] && Pops(d, key) ==>
      Owned(d.queues[key := QueueOf(d.queues, key)[1..]], QueueOf(d.queues, key)[0])
  }

  lemma ShiftedTimes(queues: Queues, key: string, k: string, v: Waiter)
    requires QueueOf(queues, key) != []
    ensures var queue := QueueOf(queues, key);
            var shifted := queues[key := queue[1..]];
            && (v in QueueOf(shifted, k) ==> v in QueueOf(queues, k))
            && Times(QueueOf(shifted, k), v) == Times(QueueOf(queues, k), v) - if k == key && v == queue[0] then 1 else 0
  {
    var queue := QueueOf(queues, key);
    assert queue == [queue[0]] + queue[1..];
    TimesOfCons(queue[0], queue[1..], v);
  }

  lemma ShiftingIsRight(queues: Queues, live: set<Waiter>, key: string)
    requires InRightQueues(queues, live) && QueueOf(queues, key) != []
    ensures RightBut(queues[key := QueueOf(queues, key)[1..]], live, QueueOf(queues, key)[0])
  {
    hide Times, Listed;
    var w, shifted := QueueOf(queues, key)[0], queues[key := QueueOf(queues, key)[1..]];
    assert w in QueueOf(queues, key);
    forall k, v | v in QueueOf(shifted, k) ensures v in live { ShiftedTimes(queues, key, k, v); }
    forall k, v | v in live && v != w ensures Times(QueueOf(shifted, k), v) == Listed(v.keys, k) { ShiftedTimes(queues, key, k, v); }
    forall k ensures Times(QueueOf(shifted, k), w) <= Listed(w.keys, k) { ShiftedTimes(queues, key, k, w); }
  }

  lemma NotifyKeepsRightExactly(d: Desk, key: string)
    requires InRightQueues(d.queues, d.live)
    ensures InRightQueues(Notify(d, key).queues, Notify(d, key).live) <==> ServesOwn(d, key)
  {
    hide Times, Listed, RemoveWaiter, FirstOf, UpdateStore, Owned;
    var queue := QueueOf(d.queues, key);
    if queue != [] {
      var w := queue[0];
      var shifted := d.queues[key := queue[1..]];
      assert w in QueueOf(d.queues, key);
      ShiftingIsRight(d.queues, d.live, key);
      if Pops(d, key) {
        SettlingKeepsRightExactly(shifted, d.live, w);
      } else {
        SameQueues(d.queues, key);
      }
    }
  }

  lemma TimeOutKeepsRightExactly(d: Desk, w: Waiter)
    requires InRightQueues(d.queues, d.live)
    ensures InRightQueues(TimeOut(d, w).queues, TimeOut(d, w).live) <==> (w in d.live ==> Owned(d.queues, w))
  {
    hide Times, Listed, RemoveWaiter, Owned;
    if w in d.live { SettlingKeepsRightExactly(d.queues, d.live, w); }
  }

  /** IDs are not reused. */
  ghost predicate FreshIds(d: Desk) { forall w :: w in d.live ==> w.id < d.nextId }

  lemma BlockKeepsRight(d: Desk, keys: seq<string>, connection: int)
    requires InRightQueues(d.queues, d.live) && FreshIds(d)
    ensures var e := Block(d, keys, connection).0; InRightQueues(e.queues, e.live)
  {
    hide Enqueue, PopAny, InRightQueues;
    PopAnyKeepsWaiters(d, keys);
    if PopAny(d, keys).1 == None { EnqueueKeepsRight(d.queues, d.live, Waiter(d.nextId, keys, connection)); }
  }

  /** What each step has to meet, seen from the state before it. */
  ghost predicate StepOwns(d: Desk, step: Step) {
    match step
    case RPush(key, items) => PushOwns(d, key, items, Commands.RPush(d.store, [key] + items))
    case LPush(key, items) => PushOwns(d, key, items, Commands.LPush(d.store, [key] + items))
    case Timeout(w) => w in d.live ==> Owned(d.queues, w)
    case _ => true
  }

  ghost predicate PushOwns(d: Desk, key: string, items: seq<string>, o: Outcome) {
    !IsError(o.reply) ==> ServesOwn(d.(store := o.store, pushed := d.pushed + Tagged(key, items)), key)
  }

  lemma PushKeepsRightExactly(d: Desk, name: string, key: string, items: seq<string>, o: Outcome)
    requires InRightQueues(d.queues, d.live)
    ensures var e := Push(d, name, key, items, o); InRightQueues(e.queues, e.live) <==> PushOwns(d, key, items, o)
  {
    hide InRightQueues, Notify, ServesOwn, Tagged;
    NotifyKeepsRightExactly(d.(store := o.store, pushed := d.pushed + Tagged(key, items)), key);
  }

  /** One step, exactly. */
  lemma NextKeepsRightExactly(d: Desk, step: Step)
    requires InRightQueues(d.queues, d.live) && FreshIds(d)
    ensures var e := Next(d, step); InRightQueues(e.queues, e.live) <==> StepOwns(d, step)
  {
    hide InRightQueues, Push, PushOwns, Block, Commands.RPush, Commands.LPush, TimeOut, Owned, FreshIds, UpdateStore, ListAt;
    match step
    case RPush(key, items) => PushKeepsRightExactly(d, "RPUSH", key, items, Commands.RPush(d.store, [key] + items));
    case LPush(key, items) => PushKeepsRightExactly(d, "LPUSH", key, items, Commands.LPush(d.store, [key] + items));
    case BLPop(keys, connection) => BlockKeepsRight(d, keys, connection);
    case Timeout(w) => TimeOutKeepsRightExactly(d, w);
    case _ =>
  }

  lemma NotifyKeepsIds(d: Desk, key: string)
    requires FreshIds(d)
    ensures FreshIds(Notify(d, key))
  {
    hide TryLPop, RemoveWaiter;
  }

  lemma NextKeepsIds(d: Desk, step: Step)
    requires FreshIds(d)
    ensures FreshIds(Next(d, step))
  {
    hide Notify, PopAny, Commands.RPush, Commands.LPush, UpdateStore, ListAt, RemoveWaiter, Enqueue, Tagged;
    match step
    case RPush(key, items) =>
      NotifyKeepsIds(d.(store := Commands.RPush(d.store, [key] + items).store, pushed := d.pushed + Tagged(key, items)), key);
    case LPush(key, items) =>
      NotifyKeepsIds(d.(store := Commands.LPush(d.store, [key] + items).store, pushed := d.pushed + Tagged(key, items)), key);
    case BLPop(keys, connection) => PopAnyKeepsWaiters(d, keys);
    case _ =>
  }

  lemma {:induction false} ReachableIds(steps: seq<Step>)
    ensures FreshIds(Reach(steps))
  {
    hide Next;
    if steps != [] {
      ReachableIds(steps[..|steps| - 1]);
      NextKeepsIds(Reach(steps[..|steps| - 1]), steps[|steps| - 1]);
    }
  }

  ghost predicate RightAfter(steps: seq<Step>) { InRightQueues(Reach(steps).queues, Reach(steps).live) }

  ghost predicate AlwaysRight(steps: seq<Step>) { forall n :: 0 <= n <= |steps| ==> RightAfter(steps[..n]) }

  ghost predicate AlwaysOwn(steps: seq<Step>) { forall n :: 0 <= n < |steps| ==> StepOwns(Reach(steps[..n]), steps[n]) }

  lemma AlwaysUnfolds(steps: seq<Step>)
    requires steps != []
    ensures var before, last := steps[..|steps| - 1], steps[|steps| - 1];
            && (AlwaysRight(steps) <==> AlwaysRight(before) && RightAfter(steps))
            && (AlwaysOwn(steps) <==> AlwaysOwn(before) && StepOwns(Reach(before), last))
  {
    hide RightAfter, StepOwns, Reach;
    var m := |steps| - 1;
    var before := steps[..m];
    assert steps[..|steps|] == steps;
    assert forall n :: 0 <= n <= m ==> before[..n] == steps[..n];
    assert forall n :: 0 <= n < m ==> before[n] == steps[n];
    if AlwaysRight(before) && RightAfter(steps) {
      forall n | 0 <= n <= |steps| ensures RightAfter(steps[..n]) { if n <= m { assert RightAfter(before[..n]); } }
    }
    if AlwaysRight(steps) {
      forall n | 0 <= n <= m ensures RightAfter(before[..n]) { assert RightAfter(steps[..n]); }
      assert RightAfter(steps[..|steps|]);
    }
    if AlwaysOwn(before) && StepOwns(Reach(before), steps[m]) {
      forall n | 0 <= n < |steps| ensures StepOwns(Reach(steps[..n]), steps[n]) {
        if n < m { assert StepOwns(Reach(before[..n]), before[n]); }
      }
    }
    if AlwaysOwn(steps) {
      forall n | 0 <= n < m ensures StepOwns(Reach(before[..n]), before[n]) { assert StepOwns(Reach(steps[..n]), steps[n]); }
      assert StepOwns(Reach(steps[..m]), steps[m]);
    }
  }

  /** Over whole runs: in all states of a run every unresolved waiter is in each key's queue exactly as often as it
      listed that key, and nobody else is in a queue, if and only if every service and every timeout of the
      run removes only entries of the waiter it settles. */
  lemma {:induction false} QueuesStayRightExactly(steps: seq<Step>)
    ensures AlwaysRight(steps) <==> AlwaysOwn(steps)
    decreases steps
  {
    hide Next, InRightQueues, StepOwns, AlwaysRight, AlwaysOwn;
    if steps == [] {
      NothingHappened();
    } else {
      var before := steps[..|steps| - 1];
      AlwaysUnfolds(steps);
      QueuesStayRightExactly(before);
      if AlwaysRight(before) {
        AlwaysRightNow(before);
        ReachableIds(before);
        NextKeepsRightExactly(Reach(before), steps[|steps| - 1]);
      }
    }
  }

  lemma AlwaysRightNow(steps: seq<Step>)
    requires AlwaysRight(steps)
    ensures RightAfter(steps)
  {
    hide RightAfter;
    assert steps[..|steps|] == steps;
  }

  lemma NothingHappened()
    ensures AlwaysRight([]) && AlwaysOwn([])
  {
    OpenIsRight();
    var none: seq<Step> := [];
    assert none[..0] == none;
  }

  lemma OpenIsRight()
    ensures RightAfter([])
  {
  }

  // ---- a run on which they do not -------------------------------------------------------------------------------

  /** Two waits of one connection, then a push: the first wait is served, and the second one is unresolved but in no
      queue any more, so that no push can ever serve it. */
  lemma SharedConnectionLosesAWaiter(key: string, item: string, connection: int)
    requires item != ""
    ensures var d := Reach([BLPop([key], connection), BLPop([key], connection), RPush(key, [item])]);
            Waiter(1, [key], connection) in d.live && QueueOf(d.queues, key) == []
  {
    hide Next, Waiters.Listed;
    var wait, push := BLPop([key], connection), RPush(key, [item]);
    var a, b := Waiter(0, [key], connection), Waiter(1, [key], connection);
    EmptyHoldsNothing(key);
    WaitsForOne(OPEN, key, connection);
    var one := OPEN.(queues := map[key := [a]], nextId := 1, live := {a});
    assert [] + [a] == [a] && [a] + [b] == [a, b];
    assert OPEN.queues[key := [a]] == map[key := [a]];
    assert Next(OPEN, wait) == one;
    WaitsForOne(one, key, connection);
    var two := OPEN.(queues := map[key := [a, b]], nextId := 2, live := {a, b});
    assert map[key := [a]][key := [a, b]] == map[key := [a, b]];
    assert QueueOf(one.queues, key) == [a] && {a} + {b} == {a, b};
    assert Next(one, wait) == two;
    ReachThree(wait, wait, push);
    ServesTheFirst(two, key, item, a, b);
  }

  lemma WaitsForOne(d: Desk, key: string, connection: int)
    requires ListAt(d.store, key) == []
    ensures var w := Waiter(d.nextId, [key], connection);
            Next(d, BLPop([key], connection))
            == d.(queues := d.queues[key := QueueOf(d.queues, key) + [w]], nextId := d.nextId + 1, live := d.live + {w})
  {
    hide ListAt;
    NothingToPop(d, key);
    assert [key][1..] == [];
    assert PopAny(d, [key]) == PopAny(d, []) == (d, None);
    var w := Waiter(d.nextId, [key], connection);
    assert Enqueue(d.queues, [key], w) == Enqueue(d.queues[key := QueueOf(d.queues, key) + [w]], [], w);
  }

  lemma NothingToPop(d: Desk, key: string)
    requires ListAt(d.store, key) == []
    ensures PopAndPropagate(d, key) == (d, None)
  {
    assert d.delivered + [] == d.delivered && d.propagated + [] == d.propagated;
  }

  lemma ReachThree(x: Step, y: Step, z: Step)
    ensures Reach([x, y, z]) == Next(Next(Next(OPEN, x), y), z)
  {
    hide Next;
    assert [x][..0] == [] && Reach([x]) == Next(OPEN, x);
    assert [x, y][..1] == [x] && Reach([x, y]) == Next(Reach([x]), y);
    assert [x, y, z][..2] == [x, y];
  }

  lemma ServesTheFirst(d: Desk, key: string, item: string, a: Waiter, b: Waiter)
    requires d.store == EMPTY && d.queues == map[key := [a, b]] && d.live == {a, b} && a != b && item != ""
    requires a.keys == [key] && a.connection == b.connection
    ensures var e := Next(d, RPush(key, [item])); b in e.live && QueueOf(e.queues, key) == []
  {
    hide Next, UpdateStore, StoreList, Tagged, DecInt, ListAt, HoldsOther;
    EmptyHoldsNothing(key);
    RPushIsStored(d, key, [item]);
    var list := ListAt(d.store, key) + [item];
    assert list == [item];
    var stored := Stored(d, key, [item], list);
    StoredAt(d, key, [item], list, key);
    assert [a, b][1..] == [b] && [key][1..] == [] && [b][1..] == [];
    var shifted := d.queues[key := [b]];
    var removed := RemoveWaiter(shifted, [key], a.connection);
    assert removed == RemoveWaiter(shifted[key := []], [], a.connection) == shifted[key := []];
    assert QueueOf(removed, key) == [];
    assert ListAt(stored.store, key) == [item];
    assert Notify(stored, key).queues == removed && Notify(stored, key).live == {a, b} - {a};
    assert Next(d, RPush(key, [item])).queues == removed;
    assert Next(d, RPush(key, [item])).live == {a, b} - {a};
  }

  lemma EmptyHoldsNothing(key: string)
    ensures ListAt(EMPTY, key) == [] && !HoldsOther(EMPTY, key)
  {
  }
}
