/** BLPOP: waiting clients, one queue for each key they wait on, and the pushes that serve them. */
module Blocking {
  import opened Text
  import opened Store
  import opened Commands

  /** The id stands for object identity; the queues are searched by connection. */
  datatype Waiter = Waiter(id: nat, keys: seq<string>, connection: int)

  datatype Resolution = Resolution(waiter: Waiter, result: Option<(string, string)>)

  type Queues = map<string, seq<Waiter>>

  /** The manager's queues with the store they serve. The last five fields are history: what was
      propagated, which waiters were resolved, which are unresolved, and the elements pushed and delivered. */
  datatype Desk = Desk(store: Store, queues: Queues, nextId: nat, propagated: seq<Payload>,
                       resolved: seq<Resolution>, live: set<Waiter>,
                       pushed: seq<(string, string)>, delivered: seq<(string, string)>)

  const OPEN := Desk(EMPTY, map[], 0, [], [], {}, [], [])

  function QueueOf(queues: Queues, key: string): seq<Waiter> { if key in queues then queues[key] else [] }

  function RemoveFirst(q: seq<Waiter>, connection: int): seq<Waiter> {
    if q == [] then []
    else if q[0].connection == connection then q[1..]
    else [q[0]] + RemoveFirst(q[1..], connection)
  }

  /** removeWaiter: one entry of this connection leaves the queue for each time the key is listed. */
  function RemoveWaiter(queues: Queues, keys: seq<string>, connection: int): Queues
    decreases keys
  {
    if keys == [] then queues
    else
      var rest := if keys[0] in queues then queues[keys[0] := RemoveFirst(queues[keys[0]], connection)] else queues;
      RemoveWaiter(rest, keys[1..], connection)
  }

  function Enqueue(queues: Queues, keys: seq<string>, w: Waiter): Queues
    decreases keys
  {
    if keys == [] then queues
    else Enqueue(queues[keys[0] := QueueOf(queues, keys[0]) + [w]], keys[1..], w)
  }

  predicate Truthy(popped: Option<string>) { popped.Some? && popped.value != "" }

  function Tagged(key: string, items: seq<string>): seq<(string, string)> {
    seq(|items|, i requires 0 <= i < |items| => (key, items[i]))
  }

  function DeliveredBy(key: string, popped: Option<string>): seq<(string, string)> {
    if Truthy(popped) then [(key, popped.value)] else []
  }

  function PopAndPropagate(d: Desk, key: string): (Desk, Option<string>) {
    var (store, popped) := TryLPop(d.store, key);
    (d.(store := store, delivered := d.delivered + DeliveredBy(key, popped),
        propagated := d.propagated + if Truthy(popped) then [["LPOP", key]] else []), popped)
  }

  function Settle(d: Desk, w: Waiter, result: Option<(string, string)>): Desk {
    d.(queues := RemoveWaiter(d.queues, w.keys, w.connection),
       resolved := d.resolved + [Resolution(w, result)], live := d.live - {w})
  }

  /** notifyListPush: the head of the queue gets the head of the list; without an element it goes back. */
  function Notify(d: Desk, key: string): Desk {
    var queue := QueueOf(d.queues, key);
    if queue == [] then d
    else
      var (popped, item) := PopAndPropagate(d.(queues := d.queues[key := queue[1..]]), key);
      if Truthy(item) then Settle(popped, queue[0], Some((key, item.value)))
      else popped.(queues := popped.queues[key := queue])
  }

  /** The first attempt of blockOnLists; an empty element is popped and passed over. */
  function PopAny(d: Desk, keys: seq<string>): (Desk, Option<(string, string)>)
    decreases keys
  {
    if keys == [] then (d, None)
    else
      var (after, item) := PopAndPropagate(d, keys[0]);
      if Truthy(item) then (after, Some((keys[0], item.value))) else PopAny(after, keys[1..])
  }

  function Block(d: Desk, keys: seq<string>, connection: int): (Desk, Option<(string, string)>) {
    var (after, result) := PopAny(d, keys);
    if result.Some? then (after, result)
    else
      var w := Waiter(after.nextId, keys, connection);
      (after.(queues := Enqueue(after.queues, keys, w), nextId := after.nextId + 1, live := after.live + {w}), None)
  }

  function TimeOut(d: Desk, w: Waiter): Desk { if w in d.live then Settle(d, w, None) else d }

  // ---- the commands that meet at the desk ----------------------------------------------------------------

  datatype Step =
    | RPush(key: string, items: seq<string>)
    | LPush(key: string, items: seq<string>)
    | LPop(key: string, count: Option<nat>)
    | BLPop(keys: seq<string>, connection: int)
    | Timeout(waiter: Waiter)
    | Overwrite(key: string, text: string)  // SET
    | Remove(key: string)                   // DEL

  /** A successful push stores the longer list and notifies. */
  function PushAndServe(d: Desk, key: string, items: seq<string>, o: Outcome): Desk {
    if IsError(o.reply) then d else Notify(d.(store := o.store, pushed := d.pushed + Tagged(key, items)), key)
  }

  /** With the propagation by the dispatcher, which comes after that of the waiter's LPOP. */
  function Push(d: Desk, name: string, key: string, items: seq<string>, o: Outcome): Desk {
    if IsError(o.reply) then d
    else
      var served := PushAndServe(d, key, items, o);
      served.(propagated := served.propagated + [[name, key] + items])
  }

  function PopCount(d: Desk, key: string, count: nat): Desk {
    var items := ListAt(d.store, key);
    var n := if count <= |items| then count else |items|;
    if items == [] then d
    else d.(store := UpdateStore(d.store, key, items[n..]), delivered := d.delivered + Tagged(key, items[..n]))
  }

  function Next(d: Desk, step: Step): Desk {
    match step
    case RPush(key, items) => Push(d, "RPUSH", key, items, Commands.RPush(d.store, [key] + items))
    case LPush(key, items) => Push(d, "LPUSH", key, items, Commands.LPush(d.store, [key] + items))
    case LPop(key, count) => PopCount(d, key, if count.Some? then count.value else 1)
    case BLPop(keys, connection) => Block(d, keys, connection).0
    case Timeout(w) => TimeOut(d, w)
    case Overwrite(key, text) => d.(store := d.store.Set(key, StoreValue(Str(text), Never)))
    case Remove(key) => d.(store := d.store.Delete(key))
  }

  function Reach(steps: seq<Step>): Desk {
    if steps == [] then OPEN else Next(Reach(steps[..|steps| - 1]), steps[|steps| - 1])
  }

  /** The counted and the plain LPOP are both PopCount. */
  lemma LPopIsPopCount(d: Desk, key: string, count: Option<nat>)
    ensures var args := if count.Some? then [key, Dec(count.value)] else [key];
            Commands.LPop(d.store, args).store == PopCount(d, key, if count.Some? then count.value else 1).store
  {
    hide BulkReply, Dec, ParseInt, Error;
    if count.Some? { ParseDec(count.value); }
  }
}
