/** Dump files in general, not only those of the writer: any metadata fields, any number of databases, every spelling of
    a string, and expiries in seconds or milliseconds. */
module RdbFiles {
  import opened Text
  import opened Store
  import opened Rdb
  import opened RdbRoundTrip

  // ---- what a file says ---------------------------------------------------------------------------------------------

  /** A string with its length in 6, 14 or 32 bits, or a number in 8, 16 or 32 bits. */
  datatype Spelling = Short(text: string) | Medium(text: string) | Long(text: string) | Int8(n: int) | Int16(n: int) | Int32(n: int)

  datatype Stamp = NoStamp | Seconds(n: nat) | Millis(n: nat)

  datatype Pair = Pair(stamp: Stamp, key: Spelling, value: Spelling)

  datatype Section =
    | Metadata(name: Spelling, value: Spelling)
    | Database(number: nat, hints: Option<(nat, nat)>, pairs: seq<Pair>)

  function TextOf(x: Spelling): string {
    match x
    case Short(text) => text
    case Medium(text) => text
    case Long(text) => text
    case Int8(n) => DecInt(n)
    case Int16(n) => DecInt(n)
    case Int32(n) => DecInt(n)
  }

  /** When the key expires, in milliseconds. */
  function Deadline(t: Stamp): int {
    match t
    case NoStamp => 0
    case Seconds(n) => 1000 * n
    case Millis(n) => n
  }

  /** A pair is loaded unless its expiry has come or is no date. */
  predicate Lives(t: Stamp, now: int) { t == NoStamp || (now < Deadline(t) && Deadline(t) <= MAX_DATE) }

  /** The expiry a stamp stands for. */
  function ExpiryOfStamp(t: Stamp): Expiry {
    if t == NoStamp then Never else if 0 <= Deadline(t) <= MAX_DATE then Until(Deadline(t)) else InvalidDate
  }

  /** The reference: the living pairs of all databases, in order; a later pair replaces an earlier one of the same
      key. */
  function LoadPairs(s: Store, pairs: seq<Pair>, now: int): Store
    decreases pairs
  {
    if pairs == [] then s
    else
      var p := pairs[0];
      var v := StoreValue(Str(TextOf(p.value)), ExpiryOfStamp(p.stamp));
      LoadPairs(if Lives(p.stamp, now) then s.Set(TextOf(p.key), v) else s, pairs[1..], now)
  }

  function LoadSections(s: Store, sections: seq<Section>, now: int): Store
    decreases sections
  {
    if sections == [] then s
    else LoadSections(if sections[0].Database? then LoadPairs(s, sections[0].pairs, now) else s, sections[1..], now)
  }

  // ---- how it is written ----------------------------------------------------------------------------------------------

  predicate SpellingFits(x: Spelling) {
    match x
    case Short(text) => |text| < 64
    case Medium(text) => |text| < 0x4000
    case Long(text) => |text| < 0x1_0000_0000
    case Int8(n) => -0x80 <= n < 0x80
    case Int16(n) => -0x8000 <= n < 0x8000
    case Int32(n) => -0x8000_0000 <= n < 0x8000_0000
  }

  function Spelt(x: Spelling): string
    requires SpellingFits(x)
  {
    assert Pow256(1) == 0x100 && Pow256(2) == 0x1_0000 && Pow256(4) == 0x1_0000_0000;
    match x
    case Short(text) => [ByteChar(|text|)] + text
    case Medium(text) => Encode14(|text|) + text
    case Long(text) => Encode32(|text|) + text
    case Int8(n) => [ByteChar(0xc0)] + EncodeLE(Wrapped(n, 1), 1)
    case Int16(n) => [ByteChar(0xc1)] + EncodeLE(Wrapped(n, 2), 2)
    case Int32(n) => [ByteChar(0xc2)] + EncodeLE(Wrapped(n, 4), 4)
  }

  predicate StampFits(t: Stamp) {
    match t
    case NoStamp => true
    case Seconds(n) => n < 0x1_0000_0000
    case Millis(n) => n < 0x1_0000_0000_0000_0000
  }

  function Stamped(t: Stamp): string {
    match t
    case NoStamp => ""
    case Seconds(n) => [ByteChar(0xfd)] + EncodeLE(n, 4)
    case Millis(n) => [ByteChar(0xfc)] + EncodeLE(n, 8)
  }

  predicate PairFits(p: Pair) { StampFits(p.stamp) && SpellingFits(p.key) && SpellingFits(p.value) }

  function PairBytes(p: Pair): string
    requires PairFits(p)
  {
    Stamped(p.stamp) + ([ByteChar(0)] + (Spelt(p.key) + Spelt(p.value)))
  }

  function PairsBytes(pairs: seq<Pair>): string
    requires forall i :: 0 <= i < |pairs| ==> PairFits(pairs[i])
  {
    if pairs == [] then "" else PairBytes(pairs[0]) + PairsBytes(pairs[1..])
  }

  /** The shortest spelling of a length. */
  function Length(n: nat): string
    requires n < 0x1_0000_0000
  {
    if n < 64 then [ByteChar(n)] else if n < 0x4000 then Encode14(n) else Encode32(n)
  }

  predicate SectionFits(x: Section) {
    match x
    case Metadata(name, value) => SpellingFits(name) && SpellingFits(value)
    case Database(number, hints, pairs) =>
      && number < 0x1_0000_0000 && (hints.Some? ==> hints.value.0 < 0x1_0000_0000 && hints.value.1 < 0x1_0000_0000)
      && forall i :: 0 <= i < |pairs| ==> PairFits(pairs[i])
  }

  function HintBytes(hints: Option<(nat, nat)>): string
    requires hints.Some? ==> hints.value.0 < 0x1_0000_0000 && hints.value.1 < 0x1_0000_0000
  {
    if hints.Some? then [ByteChar(0xfb)] + (Length(hints.value.0) + Length(hints.value.1)) else ""
  }

  function SectionBytes(x: Section): string
    requires SectionFits(x)
  {
    match x
    case Metadata(name, value) => [ByteChar(0xfa)] + (Spelt(name) + Spelt(value))
    case Database(number, hints, pairs) => [ByteChar(0xfe)] + (Length(number) + (HintBytes(hints) + PairsBytes(pairs)))
  }

  predicate AllFit(sections: seq<Section>) { forall i :: 0 <= i < |sections| ==> SectionFits(sections[i]) }

  function SectionsBytes(sections: seq<Section>): string
    requires AllFit(sections)
  {
    if sections == [] then "" else SectionBytes(sections[0]) + SectionsBytes(sections[1..])
  }

  /** The sections, and the byte that ends them. */
  function BodyBytes(sections: seq<Section>): string
    requires AllFit(sections)
  {
    SectionsBytes(sections) + [ByteChar(0xff)]
  }

  /** Numbers are written with the lowest byte first. */
  lemma LowestByteFirst(a: nat, b: nat, c: nat, d: nat, rest: nat, k: nat)
    requires a < 256 && b < 256 && c < 256 && d < 256
    ensures EncodeLE(a + 0x100 * b + 0x1_0000 * c + 0x100_0000 * d + 0x1_0000_0000 * rest, k + 4)
         == [a as char, b as char, c as char, d as char] + EncodeLE(rest, k)
  {
    hide EncodeLE;
    OneByte(a, b + 0x100 * c + 0x1_0000 * d + 0x100_0000 * rest, k + 3);
    OneByte(b, c + 0x100 * d + 0x1_0000 * rest, k + 2);
    OneByte(c, d + 0x100 * rest, k + 1);
    OneByte(d, rest, k);
  }

  lemma OneByte(a: nat, rest: nat, k: nat)
    requires a < 256
    ensures EncodeLE(a + 256 * rest, k + 1) == [a as char] + EncodeLE(rest, k)
  {
    var n := a + 256 * rest;
    Halves(a, rest);
    assert EncodeLE(n, k + 1) == [ByteChar(n % 256)] + EncodeLE(n / 256, k);
  }

  lemma Halves(a: nat, rest: nat)
    requires a < 256
    ensures (a + 256 * rest) % 256 == a && (a + 256 * rest) / 256 == rest
  {
  }

  // ---- reading it -----------------------------------------------------------------------------------------------------

  lemma FirstByte(buf: string, at: nat, b: nat, rest: string)
    requires b < 256 && At(buf, at, [ByteChar(b)] + rest)
    ensures at < |buf| && ByteAt(buf, at) == b && At(buf, at + 1, rest)
  {
    AtSplit(buf, at, [ByteChar(b)], rest);
    assert buf[at + 0] == [ByteChar(b)][0];
  }

  lemma TextReads(buf: string, at: nat, head: string, text: string)
    requires At(buf, at, head + text) && LengthAt(buf, at) == Got(|text|, at + |head|)
    ensures StringAt(buf, at) == Got(text, at + |head| + |text|)
  {
    AtSplit(buf, at, head, text);
    assert buf[at + |head|..at + |head| + |text|] == text;
  }

  lemma SpellingReads(buf: string, at: nat, x: Spelling)
    requires SpellingFits(x) && At(buf, at, Spelt(x))
    ensures StringAt(buf, at) == Got(TextOf(x), at + |Spelt(x)|)
  {
    hide StringAt, LengthAt, EncodeBE, EncodeLE, DecInt;
    assert Pow256(1) == 0x100 && Pow256(2) == 0x1_0000 && Pow256(4) == 0x1_0000_0000;
    match x
    case Short(text) =>
      AtSplit(buf, at, [ByteChar(|text|)], text);
      LengthDecoderInverts(buf, at, |text|);
      TextReads(buf, at, [ByteChar(|text|)], text);
    case Medium(text) =>
      AtSplit(buf, at, Encode14(|text|), text);
      LengthDecoderInverts(buf, at, |text|);
      TextReads(buf, at, Encode14(|text|), text);
    case Long(text) =>
      AtSplit(buf, at, Encode32(|text|), text);
      LengthDecoderInverts(buf, at, |text|);
      TextReads(buf, at, Encode32(|text|), text);
    case Int8(n) => IntegersInvert(buf, at, n, 0, 1);
    case Int16(n) => IntegersInvert(buf, at, n, 1, 2);
    case Int32(n) => IntegersInvert(buf, at, n, 2, 4);
  }

  lemma LengthReads(buf: string, at: nat, n: nat)
    requires n < 0x1_0000_0000 && At(buf, at, Length(n))
    ensures LengthAt(buf, at) == Got(n, at + |Length(n)|)
  {
    hide LengthAt, EncodeBE;
    LengthDecoderInverts(buf, at, n);
  }

  lemma StampReads(buf: string, at: nat, t: Stamp, kind: nat)
    requires StampFits(t) && kind < 0xfa && At(buf, at, Stamped(t) + [ByteChar(kind)])
    ensures var after := at + |Stamped(t)|;
            && after < |buf| && ByteAt(buf, after) == kind && ExpiryAt(buf, at) == Got(ExpiryOfStamp(t), after)
            && !EndsDatabase(ByteAt(buf, at)) && ByteAt(buf, at) != 0xfb
  {
    hide EncodeLE, LittleEndian;
    AtSplit(buf, at, Stamped(t), [ByteChar(kind)]);
    FirstByte(buf, at + |Stamped(t)|, kind, "");
    Powers();
    match t
    case NoStamp =>
    case Seconds(n) =>
      FirstByte(buf, at, 0xfd, EncodeLE(n, 4));
      LittleEndianInverts(buf, at + 1, n, 4);
    case Millis(n) =>
      FirstByte(buf, at, 0xfc, EncodeLE(n, 8));
      LittleEndianInverts(buf, at + 1, n, 8);
  }

  lemma Powers()
    ensures Pow256(4) == 0x1_0000_0000 && Pow256(8) == 0x1_0000_0000_0000_0000
  {
    assert Pow256(4) == 0x1_0000_0000;
    assert Pow256(6) == 0x1_0000_0000_0000;
  }

  lemma PairReads(buf: string, at: nat, p: Pair, s: Store, now: int)
    requires PairFits(p) && At(buf, at, PairBytes(p))
    ensures at < |buf| && !EndsDatabase(ByteAt(buf, at)) && ByteAt(buf, at) != 0xfb
    ensures PairAt(buf, at, s, now) == Got(LoadPairs(s, [p], now), at + |PairBytes(p)|)
  {
    hide Stamped, ExpiryAt, StringAt, EndsDatabase, Spelt, TextOf;
    var stamp, name, text := Stamped(p.stamp), Spelt(p.key), Spelt(p.value);
    assert stamp + ([ByteChar(0)] + (name + text)) == (stamp + [ByteChar(0)]) + (name + text);
    AtSplit(buf, at, stamp + [ByteChar(0)], name + text);
    AtSplit(buf, at + |stamp| + 1, name, text);
    StampReads(buf, at, p.stamp, 0);
    SpellingReads(buf, at + |stamp| + 1, p.key);
    SpellingReads(buf, at + |stamp| + 1 + |name|, p.value);
    assert [p][1..] == [];
  }

  lemma {:induction false} PairsRead(buf: string, at: nat, pairs: seq<Pair>, s: Store, now: int)
    requires forall i :: 0 <= i < |pairs| ==> PairFits(pairs[i])
    requires At(buf, at, PairsBytes(pairs)) && at + |PairsBytes(pairs)| < |buf|
    ensures Pairs(buf, at, s, now) == Pairs(buf, at + |PairsBytes(pairs)|, LoadPairs(s, pairs, now), now)
    ensures pairs != [] ==> ByteAt(buf, at) != 0xfb
    decreases pairs
  {
    hide PairAt, PairBytes, TextOf, EndsDatabase, PairFits;
    if pairs != [] {
      AtSplit(buf, at, PairBytes(pairs[0]), PairsBytes(pairs[1..]));
      PairReads(buf, at, pairs[0], s, now);
      PairsRead(buf, at + |PairBytes(pairs[0])|, pairs[1..], LoadPairs(s, [pairs[0]], now), now);
      assert [pairs[0]][1..] == [];
    }
  }

  lemma HintsRead(buf: string, at: nat, hints: Option<(nat, nat)>)
    requires hints.Some? ==> hints.value.0 < 0x1_0000_0000 && hints.value.1 < 0x1_0000_0000
    requires At(buf, at, HintBytes(hints)) && at < |buf| && (hints == None ==> ByteAt(buf, at) != 0xfb)
    ensures SkipHints(buf, at) == Got((), at + |HintBytes(hints)|)
  {
    hide LengthAt, Length;
    if hints.Some? {
      var a, b := Length(hints.value.0), Length(hints.value.1);
      FirstByte(buf, at, 0xfb, a + b);
      AtSplit(buf, at + 1, a, b);
      LengthReads(buf, at + 1, hints.value.0);
      LengthReads(buf, at + 1 + |a|, hints.value.1);
    }
  }

  lemma NoBytes(hints: Option<(nat, nat)>, pairs: seq<Pair>)
    requires hints == None && forall i :: 0 <= i < |pairs| ==> PairFits(pairs[i])
    ensures HintBytes(hints) == "" && (pairs == [] ==> PairsBytes(pairs) == "")
  {
  }

  /** The head of a database section: its number and the hints. */
  lemma HeadReads(buf: string, at: nat, x: Section)
    requires x.Database? && SectionFits(x) && At(buf, at, SectionBytes(x)) && at + |SectionBytes(x)| < |buf|
    requires ByteAt(buf, at + |SectionBytes(x)|) != 0xfb
    requires x.pairs != [] ==> ByteAt(buf, at + |SectionBytes(x)| - |PairsBytes(x.pairs)|) != 0xfb
    ensures at < |buf| && ByteAt(buf, at) == 0xfe
    ensures var middle := at + 1 + |Length(x.number)|;
            LengthAt(buf, at + 1) == Got(x.number, middle) && SkipHints(buf, middle) == Got((), middle + |HintBytes(x.hints)|)
  {
    hide LengthAt, Length, HintBytes, PairsBytes, SkipHints, PairFits, ByteAt;
    var number, hints, pairs := Length(x.number), HintBytes(x.hints), PairsBytes(x.pairs);
    FirstByte(buf, at, 0xfe, number + (hints + pairs));
    AtSplit(buf, at + 1, number, hints + pairs);
    AtSplit(buf, at + 1 + |number|, hints, pairs);
    LengthReads(buf, at + 1, x.number);
    if x.hints == None { NoBytes(x.hints, x.pairs); }
    HintsRead(buf, at + 1 + |number|, x.hints);
  }

  /** A database section, up to whatever follows its pairs. */
  lemma DatabaseReads(buf: string, at: nat, x: Section, s: Store, now: int)
    requires x.Database? && SectionFits(x) && At(buf, at, SectionBytes(x)) && at + |SectionBytes(x)| < |buf|
    requires ByteAt(buf, at + |SectionBytes(x)|) != 0xfb
    ensures at < |buf| && ByteAt(buf, at) == 0xfe
    ensures Rdb.Database(buf, at, s, now) == Pairs(buf, at + |SectionBytes(x)|, LoadPairs(s, x.pairs, now), now)
  {
    hide LengthAt, Length, HintBytes, PairsBytes, LoadPairs, Pairs, SkipHints, PairFits, ByteAt;
    PairsStand(buf, at, x);
    PairsRead(buf, at + |SectionBytes(x)| - |PairsBytes(x.pairs)|, x.pairs, s, now);
    HeadReads(buf, at, x);
  }

  lemma PairsStand(buf: string, at: nat, x: Section)
    requires x.Database? && SectionFits(x) && At(buf, at, SectionBytes(x))
    ensures var from := at + 1 + |Length(x.number)| + |HintBytes(x.hints)|;
            At(buf, from, PairsBytes(x.pairs)) && from + |PairsBytes(x.pairs)| == at + |SectionBytes(x)|
  {
    hide Length, HintBytes, PairsBytes, PairFits;
    var number, hints, pairs := Length(x.number), HintBytes(x.hints), PairsBytes(x.pairs);
    AtSplit(buf, at, [ByteChar(0xfe)], number + (hints + pairs));
    AtSplit(buf, at + 1, number, hints + pairs);
    AtSplit(buf, at + 1 + |number|, hints, pairs);
  }

  lemma MetadataReads(buf: string, at: nat, x: Section)
    requires x.Metadata? && SectionFits(x) && At(buf, at, SectionBytes(x))
    ensures at < |buf| && ByteAt(buf, at) == 0xfa
    ensures Auxiliary(buf, at) == Got((), at + |SectionBytes(x)|)
  {
    hide StringAt, Spelt, TextOf;
    var name, value := Spelt(x.name), Spelt(x.value);
    FirstByte(buf, at, 0xfa, name + value);
    AtSplit(buf, at + 1, name, value);
    SpellingReads(buf, at + 1, x.name);
    SpellingReads(buf, at + 1 + |name|, x.value);
  }

  lemma SectionStarts(buf: string, at: nat, x: Section)
    requires SectionFits(x) && At(buf, at, SectionBytes(x))
    ensures at < |buf| && EndsDatabase(ByteAt(buf, at))
  {
    hide Spelt, Length, PairsBytes, HintBytes, SpellingFits, PairFits;
    match x
    case Metadata(name, value) => FirstByte(buf, at, 0xfa, Spelt(name) + Spelt(value));
    case Database(number, hints, pairs) => FirstByte(buf, at, 0xfe, Length(number) + (HintBytes(hints) + PairsBytes(pairs)));
  }

  predicate EndsWithDatabase(sections: seq<Section>) { sections != [] && sections[|sections| - 1].Database? }

  /** Sections are read one by one; behind a database there must be the start of another section, or the end. */
  lemma {:induction false} SectionsRead(buf: string, at: nat, sections: seq<Section>, s: Store, now: int)
    requires AllFit(sections) && At(buf, at, SectionsBytes(sections)) && at + |SectionsBytes(sections)| < |buf|
    requires EndsWithDatabase(sections) ==> EndsDatabase(ByteAt(buf, at + |SectionsBytes(sections)|))
    ensures sections != [] ==> EndsDatabase(ByteAt(buf, at))
    ensures Sections(buf, at, s, now) == Sections(buf, at + |SectionsBytes(sections)|, LoadSections(s, sections, now), now)
    decreases sections
  {
    hide SectionBytes, Auxiliary, Rdb.Database, LoadPairs, SectionFits, ByteAt;
    if sections != [] {
      var x, rest := sections[0], sections[1..];
      var next := at + |SectionBytes(x)|;
      AtSplit(buf, at, SectionBytes(x), SectionsBytes(rest));
      SectionStarts(buf, at, x);
      if x.Metadata? {
        SectionsRead(buf, next, rest, s, now);
        MetadataReads(buf, at, x);
      } else {
        var t := LoadPairs(s, x.pairs, now);
        SectionsRead(buf, next, rest, t, now);
        DatabaseReads(buf, at, x, s, now);
        assert Pairs(buf, next, t, now) == Progress(true, next, t);
      }
    }
  }

  lemma StartReads(buf: string, version: string, rest: string)
    requires |version| == 4 && buf == "REDIS" + version + rest
    ensures HasMagic(buf) && At(buf, 9, rest)
  {
    assert forall k :: 0 <= k < |rest| ==> buf[9 + k] == rest[k];
    forall i | 0 <= i < 5 ensures ByteAt(buf, i) % 128 == "REDIS"[i] as int { assert buf[i] == "REDIS"[i]; }
  }

  /** Loading a dump file: the living pairs of its databases, in order, whatever metadata fields and trailing bytes it
      has, however its strings are spelt, and whatever its version says. */
  lemma FileLoads(version: string, sections: seq<Section>, trailing: string, s: Store, now: int)
    requires |version| == 4 && AllFit(sections)
    ensures Parse("REDIS" + version + BodyBytes(sections) + trailing, s, now)
         == Progress(true, 9 + |BodyBytes(sections)| - 1, LoadSections(s, sections, now))
  {
    hide Sections, LoadSections, SectionsBytes, HasMagic;
    var bytes := SectionsBytes(sections);
    var buf := "REDIS" + version + BodyBytes(sections) + trailing;
    assert buf == "REDIS" + version + (bytes + ([ByteChar(0xff)] + trailing));
    StartReads(buf, version, bytes + ([ByteChar(0xff)] + trailing));
    AtSplit(buf, 9, bytes, [ByteChar(0xff)] + trailing);
    FirstByte(buf, 9 + |bytes|, 0xff, trailing);
    SectionsRead(buf, 9, sections, s, now);
    EndReads(buf, 9 + |bytes|, LoadSections(s, sections, now), now);
  }

  lemma EndReads(buf: string, at: nat, s: Store, now: int)
    requires at < |buf| && ByteAt(buf, at) in {0xff}
    ensures Sections(buf, at, s, now) == Progress(true, at, s)
  {
  }

  /** An entry of another type than string stops the parser: what was loaded before stays. */
  lemma OtherTypesStop(version: string, sections: seq<Section>, x: Section, stamp: Stamp, kind: nat, rest: string, s: Store, now: int)
    requires |version| == 4 && AllFit(sections) && x.Database? && SectionFits(x) && StampFits(stamp) && 0 < kind < 0xfa
    ensures var bad := Stamped(stamp) + [ByteChar(kind)];
            var p := Parse("REDIS" + version + SectionsBytes(sections) + SectionBytes(x) + bad + rest, s, now);
            !p.ok && p.store == LoadPairs(LoadSections(s, sections, now), x.pairs, now)
            && (s == EMPTY ==> Load("REDIS" + version + SectionsBytes(sections) + SectionBytes(x) + bad + rest, now) == p.store)
  {
    hide Sections, LoadSections, SectionsBytes, SectionBytes, SectionFits, HasMagic, Rdb.Database,
         LoadPairs, Stamped, EndsDatabase, ByteAt, Pairs;
    var front, middle, bad := SectionsBytes(sections), SectionBytes(x), Stamped(stamp) + [ByteChar(kind)];
    var buf := "REDIS" + version + front + middle + bad + rest;
    assert buf == "REDIS" + version + (front + (middle + (bad + rest)));
    StartReads(buf, version, front + (middle + (bad + rest)));
    AtSplit(buf, 9, front, middle + (bad + rest));
    AtSplit(buf, 9 + |front|, middle, bad + rest);
    var at := 9 + |front| + |middle|;
    AtSplit(buf, at, bad, rest);
    var t := LoadSections(s, sections, now);
    SectionStarts(buf, 9 + |front|, x);
    SectionsRead(buf, 9, sections, s, now);
    OtherTypeFails(buf, at, stamp, kind, LoadPairs(t, x.pairs, now), now);
    DatabaseReads(buf, 9 + |front|, x, t, now);
    DatabaseFails(buf, 9 + |front|, t, now);
  }

  lemma OtherTypeFails(buf: string, at: nat, stamp: Stamp, kind: nat, s: Store, now: int)
    requires StampFits(stamp) && 0 < kind < 0xfa && At(buf, at, Stamped(stamp) + [ByteChar(kind)])
    ensures at < |buf| && ByteAt(buf, at) != 0xfb && !Pairs(buf, at, s, now).ok && Pairs(buf, at, s, now).store == s
  {
    hide EncodeLE, LittleEndian;
    AtSplit(buf, at, Stamped(stamp), [ByteChar(kind)]);
    FirstByte(buf, at + |Stamped(stamp)|, kind, "");
    StampReads(buf, at, stamp, kind);
  }

  lemma DatabaseFails(buf: string, at: nat, s: Store, now: int)
    requires at < |buf| && ByteAt(buf, at) == 0xfe && !Rdb.Database(buf, at, s, now).ok
    ensures Sections(buf, at, s, now) == Rdb.Database(buf, at, s, now)
  {
    hide Rdb.Database;
  }

  /** So does a section of another kind. */
  lemma OtherSectionsStop(version: string, sections: seq<Section>, kind: nat, rest: string, s: Store, now: int)
    requires |version| == 4 && AllFit(sections) && !EndsWithDatabase(sections) && kind < 256 && kind !in {0xfa, 0xfe, 0xff}
    ensures Parse("REDIS" + version + SectionsBytes(sections) + [ByteChar(kind)] + rest, s, now)
         == Progress(false, 9 + |SectionsBytes(sections)|, LoadSections(s, sections, now))
  {
    hide LoadSections, SectionsBytes, HasMagic, Rdb.Database, Auxiliary, EndsDatabase;
    var front := SectionsBytes(sections);
    var buf := "REDIS" + version + front + [ByteChar(kind)] + rest;
    assert buf == "REDIS" + version + (front + ([ByteChar(kind)] + rest));
    StartReads(buf, version, front + ([ByteChar(kind)] + rest));
    AtSplit(buf, 9, front, [ByteChar(kind)] + rest);
    FirstByte(buf, 9 + |front|, kind, rest);
    SectionsRead(buf, 9, sections, s, now);
  }

  function WithoutMetadata(sections: seq<Section>): seq<Section> {
    if sections == [] then []
    else (if sections[0].Metadata? then [] else [sections[0]]) + WithoutMetadata(sections[1..])
  }

  /** Metadata fields, wherever they stand, change nothing of what is loaded. */
  lemma {:induction false} MetadataIsSkipped(sections: seq<Section>, s: Store, now: int)
    ensures LoadSections(s, sections, now) == LoadSections(s, WithoutMetadata(sections), now)
    decreases sections
  {
    hide LoadPairs;
    if sections != [] {
      var x, rest := sections[0], WithoutMetadata(sections[1..]);
      MetadataIsSkipped(sections[1..], if x.Database? then LoadPairs(s, x.pairs, now) else s, now);
      if x.Database? {
        assert WithoutMetadata(sections) == [x] + rest && ([x] + rest)[1..] == rest;
      } else {
        assert WithoutMetadata(sections) == [] + rest == rest;
      }
    }
  }

  /** A file without the magic word loads nothing. */
  lemma OtherFilesLoadNothing(file: string, now: int)
    requires |file| < 5 || exists i :: 0 <= i < 5 && file[i] as int % 128 != "REDIS"[i] as int
    ensures Load(file, now) == EMPTY
  {
    hide Sections, HasMagic, ByteAt;
    NoMagic(file);
  }

  lemma NoMagic(file: string)
    requires |file| < 5 || exists i :: 0 <= i < 5 && file[i] as int % 128 != "REDIS"[i] as int
    ensures !HasMagic(file)
  {
    if |file| >= 5 {
      var i :| 0 <= i < 5 && file[i] as int % 128 != "REDIS"[i] as int;
      SevenBits(file[i] as int);
    }
  }

  lemma SevenBits(n: nat)
    ensures n % 256 % 128 == n % 128
  {
  }

  // ---- what SAVE writes is such a file --------------------------------------------------------------------------------

  /** The strings that have not expired by t, with their expiries in milliseconds. */
  function SavedPairs(s: Store, keys: seq<string>, now: int): seq<Pair> {
    if keys == [] then []
    else
      (if keys[0] in s.values && s.values[keys[0]].value.Str? && !IsDue(s.values[keys[0]].expiration, now)
       then [SavedPair(keys[0], s.values[keys[0]])] else []) + SavedPairs(s, keys[1..], now)
  }

  predicate IsDue(e: Expiry, now: int) { e.Until? && e.ms <= now }

  function SavedPair(key: string, v: StoreValue): Pair
    requires v.value.Str?
  {
    Pair(if v.expiration.Until? && v.expiration.ms >= 0 then Millis(v.expiration.ms) else NoStamp, Short(key), Short(v.value.text))
  }

  lemma OnePairIsSaved(key: string, v: StoreValue)
    requires v.value.Str? && EncodePair(key, v).Some?
    ensures PairFits(SavedPair(key, v)) && PairBytes(SavedPair(key, v)) == EncodePair(key, v).value
  {
    hide EncodeLE;
  }

  lemma {:induction false} PairsAreSaved(s: Store, keys: seq<string>, now: int)
    requires EncodePairs(s, keys, now).Some?
    ensures var pairs := SavedPairs(s, keys, now);
            && (forall i :: 0 <= i < |pairs| ==> PairFits(pairs[i])) && PairsBytes(pairs) == EncodePairs(s, keys, now).value
    decreases keys
  {
    hide EncodePair, PairBytes, PairFits, SavedPair;
    if keys != [] {
      PairsAreSaved(s, keys[1..], now);
      var rest := SavedPairs(s, keys[1..], now);
      if keys[0] in s.values && Written(s.values[keys[0]], now) {
        OnePairIsSaved(keys[0], s.values[keys[0]]);
        var p := SavedPair(keys[0], s.values[keys[0]]);
        assert SavedPairs(s, keys, now) == [p] + rest && ([p] + rest)[1..] == rest;
      } else {
        assert SavedPairs(s, keys, now) == [] + rest == rest;
      }
    }
  }

  /** SAVE writes version 11, one database with number 0 whose first hint counts all keys, the strings alive, and a
      checksum of eight zero bytes. */
  lemma SavedFile(s: Store, now: int)
    requires Build(s, now).Some?
    ensures var x := Database(0, Some((|s.order|, 0)), SavedPairs(s, s.order, now));
            && AllFit([x])
            && Build(s, now).value == "REDIS" + "0011" + BodyBytes([x]) + seq(8, i => 0 as char)
  {
    hide EncodePairs, SavedPairs, PairsBytes, PairFits, SectionBytes, Prologue, EncodeLE;
    PairsAreSaved(s, s.order, now);
    var pairs := SavedPairs(s, s.order, now);
    var x := Database(0, Some((|s.order|, 0)), pairs);
    assert [x][1..] == [];
    EightZeros();
    HeadIsPrologue(|s.order|, pairs);
    assert SectionsBytes([x]) == SectionBytes(x) + "" == SectionBytes(x);
    assert "REDIS" + "0011" == Magic();
    var head, text := Prologue(|s.order|), PairsBytes(pairs);
    assert Magic() + (head + (text + ([ByteChar(0xff)] + EncodeLE(0, 8))))
        == Magic() + ((head + text) + [ByteChar(0xff)]) + EncodeLE(0, 8);
  }

  lemma HeadIsPrologue(keys: nat, pairs: seq<Pair>)
    requires keys < 64 && forall i :: 0 <= i < |pairs| ==> PairFits(pairs[i])
    ensures SectionBytes(Database(0, Some((keys, 0)), pairs)) == Prologue(keys) + PairsBytes(pairs)
  {
    hide PairsBytes, PairFits, Encode14, Encode32, SectionFits;
    var text := PairsBytes(pairs);
    assert HintBytes(Some((keys, 0))) == [ByteChar(0xfb)] + ([ByteChar(keys)] + [ByteChar(0)]);
    Regrouped([ByteChar(0xfe)], [ByteChar(0)], [ByteChar(0xfb)], [ByteChar(keys)], text);
  }

  lemma Regrouped(a: string, b: string, c: string, d: string, e: string)
    ensures a + (b + ((c + (d + b)) + e)) == (a + b + c + d + b) + e
  {
  }

  lemma EightZeros()
    ensures EncodeLE(0, 8) == seq(8, i => 0 as char)
  {
    assert EncodeLE(0, 4) == seq(4, i => 0 as char);
    assert EncodeLE(0, 6) == seq(6, i => 0 as char);
  }
}
