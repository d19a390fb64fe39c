/** The keyed store every command shares: a JavaScript Map, which remembers insertion order. */
module Store {
  import opened Text

  const MAX_DATE := 8640000000000000

  /** The milliseconds of a valid Date. */
  type Instant = ms: int | -MAX_DATE <= ms <= MAX_DATE

  /** What Date.now() can tell. */
  type Clock = now: nat | now <= MAX_DATE

  /** An `expiration?: Date`; a Date outside JavaScript's range is invalid. */
  datatype Expiry = Never | Until(ms: Instant) | InvalidDate

  function DateOf(ms: Option<int>): Expiry {
    if ms.Some? && -MAX_DATE <= ms.value <= MAX_DATE then Until(ms.value) else InvalidDate
  }

  predicate IsExpired(e: Expiry, now: int) { e.Until? && now > e.ms }

  datatype Entry = Entry(id: string, fields: seq<string>)

  datatype Value = Str(text: string) | List(items: seq<string>) | Stream(entries: seq<Entry>)

  datatype StoreValue = StoreValue(value: Value, expiration: Expiry)

  datatype Store = Store(order: seq<string>, values: map<string, StoreValue>) {

    ghost predicate Valid() {
      && Distinct(order)
      && (forall k :: k in order <==> k in values)
    }

    function Get(key: string): Option<StoreValue> {
      if key in values then Some(values[key]) else None
    }

    function Set(key: string, value: StoreValue): (s: Store)
      ensures s.Get(key) == Some(value)
      ensures forall k :: k != key ==> s.Get(k) == Get(k)
    {
      Store(if key in values then order else order + [key], values[key := value])
    }

    function Delete(key: string): (s: Store)
      ensures s.Get(key) == None
      ensures forall k :: k != key ==> s.Get(k) == Get(k)
    {
      Store(Without(order, key), values - {key})
    }
  }

  ghost predicate Distinct(keys: seq<string>) {
    forall i, j :: 0 <= i < j < |keys| ==> keys[i] != keys[j]
  }

  const EMPTY := Store([], map[])

  ghost predicate NoneEmpty(items: seq<string>) { forall i :: 0 <= i < |items| ==> items[i] != "" }

  function Without(keys: seq<string>, key: string): (r: seq<string>)
    ensures forall k :: k in r <==> k in keys && k != key
  {
    if keys == [] then []
    else (if keys[0] == key then [] else [keys[0]]) + Without(keys[1..], key)
  }

  lemma {:induction false} WithoutAbsent(keys: seq<string>, key: string)
    requires key !in keys
    ensures Without(keys, key) == keys && Without(keys + [key], key) == keys
    decreases keys
  {
    if keys != [] {
      WithoutAbsent(keys[1..], key);
      assert (keys + [key])[1..] == keys[1..] + [key];
    }
  }

  lemma {:induction false} WithoutStaysDistinct(keys: seq<string>, key: string)
    requires Distinct(keys)
    ensures Distinct(Without(keys, key))
  {
    if keys != [] {
      var rest := Without(keys[1..], key);
      WithoutStaysDistinct(keys[1..], key);
      forall i | 0 <= i < |rest| ensures rest[i] != keys[0] {
        assert rest[i] in rest;
        var j :| 0 <= j < |keys[1..]| && keys[1..][j] == rest[i];
        assert keys[j + 1] == rest[i];
      }
    }
  }

  lemma SetStaysValid(s: Store, key: string, value: StoreValue)
    requires s.Valid()
    ensures s.Set(key, value).Valid()
  {
  }

  lemma DeleteStaysValid(s: Store, key: string)
    requires s.Valid()
    ensures s.Delete(key).Valid()
  {
    WithoutStaysDistinct(s.order, key);
    assert forall k :: k in s.Delete(key).order <==> k in s.order && k != key;
  }

  class RedisStore {
    var store: Store

    constructor ()
      ensures store == EMPTY
    {
      store := EMPTY;
    }

    method Get(key: string) returns (v: Option<StoreValue>)
      ensures v == store.Get(key)
    {
      v := if key in store.values then Some(store.values[key]) else None;
    }

    method Set(key: string, value: Value, expiration: Expiry)
      modifies this
      ensures store == old(store).Set(key, StoreValue(value, expiration))
    {
      store := Store(if key in store.values then store.order else store.order + [key],
                     store.values[key := StoreValue(value, expiration)]);
    }

    method Delete(key: string) returns (found: bool)
      modifies this
      ensures found <==> key in old(store).values
      ensures store == old(store).Delete(key)
    {
      found := key in store.values;
      store := store.Delete(key);
    }
  }
}
