/** Saving and loading: which stores can be saved, and what is loaded back at a later time. */
module RdbRoundTrip {
  import opened Text
  import opened Store
  import opened Rdb

  // ---- numbers -----------------------------------------------------------------------------------------------

  function Pow256(k: nat): nat { if k == 0 then 1 else 256 * Pow256(k - 1) }

  lemma {:induction false} LittleEndianInverts(buf: string, at: nat, n: nat, k: nat)
    requires n < Pow256(k) && At(buf, at, EncodeLE(n, k))
    ensures LittleEndian(buf, at, k) == n
    decreases k
  {
    if k > 0 {
      var rest := EncodeLE(n / 256, k - 1);
      AtSplit(buf, at, [ByteChar(n % 256)], rest);
      assert buf[at + 0] == [ByteChar(n % 256)][0];
      LittleEndianInverts(buf, at + 1, n / 256, k - 1);
    }
  }

  lemma DatesFitEightBytes()
    ensures MAX_DATE < Pow256(8)
  {
    assert Pow256(4) == 0x1_0000_0000;
    assert Pow256(6) == 0x1_0000_0000_0000;
  }

  /** The three plain length encodings of the format, section "Length encoding"; only the first is written here. */
  function Encode14(n: nat): string
    requires n < 0x4000
  {
    [ByteChar(64 + n / 256), ByteChar(n % 256)]
  }

  function EncodeBE(n: nat, k: nat): (s: string)
    ensures |s| == k
  {
    if k == 0 then "" else EncodeBE(n / 256, k - 1) + [ByteChar(n % 256)]
  }

  function Encode32(n: nat): string { [ByteChar(128)] + EncodeBE(n, 4) }

  lemma {:induction false} BigEndianInverts(buf: string, at: nat, n: nat, k: nat)
    requires n < Pow256(k) && At(buf, at, EncodeBE(n, k))
    ensures BigEndian(buf, at, k) == n
    decreases k
  {
    if k > 0 {
      var rest := EncodeBE(n / 256, k - 1);
      AtSplit(buf, at, rest, [ByteChar(n % 256)]);
      assert buf[at + (k - 1) + 0] == [ByteChar(n % 256)][0];
      BigEndianInverts(buf, at, n / 256, k - 1);
    }
  }

  /** The length decoder inverts all three encodings and advances by 1, 2 and 5 bytes. */
  lemma LengthDecoderInverts(buf: string, at: nat, n: nat)
    ensures n < 64 && At(buf, at, [ByteChar(n)]) ==> LengthAt(buf, at) == Got(n, at + 1)
    ensures n < 0x4000 && At(buf, at, Encode14(n)) ==> LengthAt(buf, at) == Got(n, at + 2)
    ensures n < 0x1_0000_0000 && At(buf, at, Encode32(n)) ==> LengthAt(buf, at) == Got(n, at + 5)
  {
    hide EncodeBE, BigEndian;
    if n < 64 && At(buf, at, [ByteChar(n)]) { assert buf[at + 0] == [ByteChar(n)][0]; }
    if n < 0x4000 && At(buf, at, Encode14(n)) {
      assert buf[at + 0] == Encode14(n)[0] && buf[at + 1] == Encode14(n)[1];
    }
    if n < 0x1_0000_0000 && At(buf, at, Encode32(n)) {
      AtSplit(buf, at, [ByteChar(128)], EncodeBE(n, 4));
      assert buf[at + 0] == [ByteChar(128)][0];
      assert Pow256(4) == 0x1_0000_0000;
      BigEndianInverts(buf, at + 1, n, 4);
    }
  }

  /** Two's complement in k bytes. */
  function Wrapped(n: int, k: nat): nat
    requires 0 <= n + Pow256(k)
  {
    if n < 0 then n + Pow256(k) else n
  }

  /** The special string formats 0, 1 and 2 read back every integer of 8, 16 and 32 bits, as its decimal text. */
  lemma IntegersInvert(buf: string, at: nat, n: int, format: nat, k: nat)
    requires (format == 0 && k == 1) || (format == 1 && k == 2) || (format == 2 && k == 4)
    requires 0 <= 2 * n + Pow256(k) < 2 * Pow256(k) && At(buf, at, [ByteChar(0xc0 + format)] + EncodeLE(Wrapped(n, k), k))
    ensures StringAt(buf, at) == Got(DecInt(n), at + 1 + k)
  {
    hide DecInt, EncodeLE, LittleEndian;
    assert Pow256(1) == 0x100 && Pow256(2) == 0x1_0000 && Pow256(4) == 0x1_0000_0000;
    AtSplit(buf, at, [ByteChar(0xc0 + format)], EncodeLE(Wrapped(n, k), k));
    assert buf[at + 0] == [ByteChar(0xc0 + format)][0];
    LittleEndianInverts(buf, at + 1, Wrapped(n, k), k);
  }

  /** An expiry in seconds, which this writer does not write, is read as that many thousand milliseconds. */
  lemma SecondsExpiryReads(buf: string, at: nat, seconds: nat)
    requires seconds < 0x1_0000_0000 && At(buf, at, [ByteChar(0xfd)] + EncodeLE(seconds, 4))
    ensures ExpiryAt(buf, at) == Got(Until(seconds * 1000), at + 5)
  {
    hide EncodeLE, LittleEndian;
    AtSplit(buf, at, [ByteChar(0xfd)], EncodeLE(seconds, 4));
    assert buf[at + 0] == [ByteChar(0xfd)][0];
    assert Pow256(4) == 0x1_0000_0000;
    LittleEndianInverts(buf, at + 1, seconds, 4);
  }

  // ---- one key ---------------------------------------------------------------------------------------------------

  lemma StringInverts(buf: string, at: nat, text: string)
    requires |text| < 64 && At(buf, at, [ByteChar(|text|)] + text)
    ensures StringAt(buf, at) == Got(text, at + 1 + |text|)
  {
    AtSplit(buf, at, [ByteChar(|text|)], text);
    LengthDecoderInverts(buf, at, |text|);
    assert buf[at + 1..at + 1 + |text|] == text;
  }

  lemma ExpiryInverts(buf: string, at: nat, e: Expiry)
    requires EncodeExpiry(e).Some?
    requires At(buf, at, EncodeExpiry(e).value + [ByteChar(0)])
    ensures ExpiryAt(buf, at) == Got(e, at + |EncodeExpiry(e).value|)
    ensures at + |EncodeExpiry(e).value| < |buf| && ByteAt(buf, at + |EncodeExpiry(e).value|) == 0
    ensures !EndsDatabase(ByteAt(buf, at))
  {
    var text := EncodeExpiry(e).value;
    AtSplit(buf, at, text, [ByteChar(0)]);
    assert buf[at + |text| + 0] == [ByteChar(0)][0];
    if e.Until? {
      AtSplit(buf, at, [ByteChar(0xfc)], EncodeLE(e.ms, 8));
      assert buf[at + 0] == [ByteChar(0xfc)][0];
      DatesFitEightBytes();
      LittleEndianInverts(buf, at + 1, e.ms, 8);
    }
  }

  lemma PairInverts(buf: string, at: nat, key: string, v: StoreValue, s: Store, now: int)
    requires v.value.Str? && EncodePair(key, v).Some?
    requires At(buf, at, EncodePair(key, v).value)
    ensures at < |buf| && !EndsDatabase(ByteAt(buf, at))
    ensures PairAt(buf, at, s, now)
         == Got(if Alive(v.expiration, now) then s.Set(key, v) else s, at + |EncodePair(key, v).value|)
  {
    hide EncodeExpiry, ExpiryAt, StringAt, EndsDatabase;
    var expiry, name, text := EncodeExpiry(v.expiration).value, EncodeString(key).value, EncodeString(v.value.text).value;
    assert expiry + ([ByteChar(0)] + (name + text)) == (expiry + [ByteChar(0)]) + (name + text);
    AtSplit(buf, at, expiry + [ByteChar(0)], name + text);
    AtSplit(buf, at + |expiry| + 1, name, text);
    ExpiryInverts(buf, at, v.expiration);
    StringInverts(buf, at + |expiry| + 1, key);
    StringInverts(buf, at + |expiry| + 1 + |name|, v.value.text);
  }

  // ---- all keys --------------------------------------------------------------------------------------------------

  /** A string that is still alive at that time. */
  predicate Survives(s: Store, key: string, now: int) {
    key in s.values && s.values[key].value.Str?
    && match s.values[key].expiration
       case Never => true
       case Until(ms) => now < ms
       case InvalidDate => false
  }

  function Loading(loaded: Store, s: Store, keys: seq<string>, now: int): Store
    decreases keys
  {
    if keys == [] then loaded
    else Loading(if Survives(s, keys[0], now) then loaded.Set(keys[0], s.values[keys[0]]) else loaded, s, keys[1..], now)
  }

  lemma {:induction false} PairsInvert(buf: string, at: nat, s: Store, keys: seq<string>, loaded: Store, t1: int, t2: int)
    requires t1 <= t2 && EncodePairs(s, keys, t1).Some?
    requires var text := EncodePairs(s, keys, t1).value;
             At(buf, at, text) && at + |text| < |buf| && ByteAt(buf, at + |text|) == 0xff
    ensures var text := EncodePairs(s, keys, t1).value;
            Pairs(buf, at, loaded, t2) == Progress(true, at + |text|, Loading(loaded, s, keys, t2))
    decreases keys
  {
    hide EncodePair, PairAt;
    if keys != [] {
      var key, rest := keys[0], EncodePairs(s, keys[1..], t1).value;
      if key !in s.values || !Written(s.values[key], t1) {
        PairsInvert(buf, at, s, keys[1..], loaded, t1, t2);
      } else {
        var v := s.values[key];
        var pair := EncodePair(key, v).value;
        AtSplit(buf, at, pair, rest);
        PairInverts(buf, at, key, v, loaded, t2);
        NoInvalidDates(key, v);
        PairsInvert(buf, at + |pair|, s, keys[1..], if Alive(v.expiration, t2) then loaded.Set(key, v) else loaded, t1, t2);
      }
    }
  }

  lemma NoInvalidDates(key: string, v: StoreValue)
    requires v.value.Str? && EncodePair(key, v).Some?
    ensures v.expiration != InvalidDate
  {
  }

  lemma PrologueReads(buf: string, at: nat, keys: nat, s: Store, now: int)
    requires keys < 64 && At(buf, at, Prologue(keys))
    ensures at + 5 <= |buf| && ByteAt(buf, at) == 0xfe
    ensures Database(buf, at, s, now) == Pairs(buf, at + 5, s, now)
  {
    hide Pairs;
    var p := Prologue(keys);
    assert buf[at + 0] == p[0] && buf[at + 1] == p[1] && buf[at + 2] == p[2] && buf[at + 3] == p[3] && buf[at + 4] == p[4];
  }

  lemma MagicReads(buf: string)
    requires At(buf, 0, Magic())
    ensures HasMagic(buf)
  {
    forall i | 0 <= i < 5 ensures ByteAt(buf, i) % 128 == "REDIS"[i] as int {
      assert buf[0 + i] == Magic()[i] == "REDIS"[i];
    }
  }

  // ---- the theorems ------------------------------------------------------------------------------------------------

  lemma {:induction false} LoadIsFilter(loaded: Store, s: Store, keys: seq<string>, now: int)
    requires Distinct(keys) && forall k :: k in keys ==> k !in loaded.values
    ensures Loading(loaded, s, keys, now).order == loaded.order + Surviving(s, keys, now)
    ensures forall k :: Loading(loaded, s, keys, now).Get(k)
                        == if k in keys && Survives(s, k, now) then s.Get(k) else loaded.Get(k)
    decreases keys
  {
    if keys != [] {
      var key, rest := keys[0], keys[1..];
      var next := if Survives(s, key, now) then loaded.Set(key, s.values[key]) else loaded;
      forall j | 0 <= j < |rest| ensures rest[j] != key { assert keys[j + 1] == rest[j]; }
      assert forall k :: k in rest ==> k in keys;
      assert forall k :: k in keys <==> k == key || k in rest by { assert keys == [key] + rest; }
      assert forall k :: k in rest ==> next.Get(k) == loaded.Get(k) == None;
      LoadIsFilter(next, s, rest, now);
      assert (loaded.order + [key]) + Surviving(s, rest, now) == loaded.order + ([key] + Surviving(s, rest, now));
    }
  }

  function Surviving(s: Store, keys: seq<string>, now: int): seq<string> {
    if keys == [] then []
    else (if Survives(s, keys[0], now) then [keys[0]] else []) + Surviving(s, keys[1..], now)
  }

  lemma FourPieces(a: string, b: string, c: string, d: string)
    ensures var buf := a + (b + (c + d));
            At(buf, 0, a) && At(buf, |a|, b) && At(buf, |a| + |b|, c) && At(buf, |a| + |b| + |c|, d)
  {
    var buf := a + (b + (c + d));
    assert At(buf, 0, buf);
    AtSplit(buf, 0, a, b + (c + d));
    AtSplit(buf, |a|, b, c + d);
    AtSplit(buf, |a| + |b|, c, d);
  }

  lemma BuildLayout(s: Store, t1: int)
    requires Build(s, t1).Some?
    ensures |s.order| < 64 && EncodePairs(s, s.order, t1).Some?
    ensures var buf, pairs := Build(s, t1).value, EncodePairs(s, s.order, t1).value;
            && At(buf, 0, Magic()) && At(buf, 9, Prologue(|s.order|)) && At(buf, 14, pairs)
            && 14 + |pairs| < |buf| && ByteAt(buf, 14 + |pairs|) == 0xff
  {
    hide EncodePairs, Prologue, EncodeLE, At, Magic;
    var buf, pairs := Build(s, t1).value, EncodePairs(s, s.order, t1).value;
    var end := [ByteChar(0xff)] + EncodeLE(0, 8);
    FiveBytes(|s.order|);
    FourPieces(Magic(), Prologue(|s.order|), pairs, end);
    AtFirst(buf, 14 + |pairs|, end);
  }

  lemma AtFirst(buf: string, at: nat, x: string)
    requires At(buf, at, x) && x != ""
    ensures at < |buf| && buf[at] == x[0]
  {
    assert buf[at + 0] == x[0];
  }

  lemma FiveBytes(keys: nat)
    requires keys < 64
    ensures |Prologue(keys)| == 5
  {
  }

  /** RDB round trip. What is built at t1 and parsed into an empty store at t2 >= t1 is exactly the string
      entries that are alive at t2, with the same values and expiries, in the same order. */
  lemma SaveThenLoad(s: Store, t1: int, t2: int)
    requires s.Valid() && t1 <= t2 && Build(s, t1).Some?
    ensures var p := Parse(Build(s, t1).value, EMPTY, t2);
            && p.ok
            && p.store.order == Surviving(s, s.order, t2)
            && forall k :: p.store.Get(k) == if Survives(s, k, t2) then s.Get(k) else None
  {
    hide Build, Pairs, Database, EncodePairs, Loading, Surviving, HasMagic, Prologue, Survives, At;
    BuildLayout(s, t1);
    var buf, pairs := Build(s, t1).value, EncodePairs(s, s.order, t1).value;
    MagicReads(buf);
    PrologueReads(buf, 9, |s.order|, EMPTY, t2);
    PairsInvert(buf, 14, s, s.order, EMPTY, t1, t2);
    var p := Pairs(buf, 14, EMPTY, t2);
    assert Sections(buf, p.cursor, p.store, t2) == p;
    assert Sections(buf, 9, EMPTY, t2) == p;
    LoadIsFilter(EMPTY, s, s.order, t2);
    assert [] + Surviving(s, s.order, t2) == Surviving(s, s.order, t2);
    forall k | Survives(s, k, t2) ensures k in s.order { SurvivorsAreKeys(s, k, t2); }
  }

  lemma BuiltIsNotEmpty(s: Store, now: int)
    requires Build(s, now).Some?
    ensures Build(s, now).value != ""
  {
    hide EncodePairs, Prologue;
  }

  lemma SurvivorsAreKeys(s: Store, k: string, now: int)
    requires Survives(s, k, now)
    ensures k in s.values
  {
  }

  /** One key the writer has to write fits the one-byte lengths and has a writable date. */
  predicate Fits(s: Store, key: string, now: int) {
    key in s.values && Written(s.values[key], now) ==>
      |key| < 64 && |s.values[key].value.text| < 64 && s.values[key].expiration != InvalidDate
  }

  lemma {:induction false} PairsFitExactly(s: Store, keys: seq<string>, now: nat)
    ensures EncodePairs(s, keys, now).Some? <==> forall i :: 0 <= i < |keys| ==> Fits(s, keys[i], now)
    decreases keys
  {
    if keys != [] {
      PairsFitExactly(s, keys[1..], now);
      assert forall i :: 0 <= i < |keys[1..]| ==> keys[1..][i] == keys[i + 1];
      assert forall i :: 0 < i < |keys| ==> keys[i] == keys[1..][i - 1];
    }
  }

  /** Exactly when SAVE does not throw: fewer than 64 keys of any type, and every string that has not expired
      has a key and a value under 64 bytes and a real date. */
  lemma BuildSucceedsExactly(s: Store, now: nat)
    ensures Build(s, now).Some? <==> |s.order| < 64 && forall i :: 0 <= i < |s.order| ==> Fits(s, s.order[i], now)
  {
    hide EncodePairs, Fits, Prologue;
    PairsFitExactly(s, s.order, now);
  }
}
