/** The RDB file: what the writer produces and what the parser makes of any bytes. */
module Rdb {
  import opened Text
  import opened Store

  /** The byte at a position; a char stands for one byte. */
  function ByteAt(buf: string, i: nat): (b: nat)
    requires i < |buf|
    ensures b < 256
  {
    buf[i] as int % 256
  }

  function ByteChar(b: nat): (c: char)
    requires b < 256
    ensures c as int == b
  {
    b as char
  }

  // ---- reading -------------------------------------------------------------------------------------------

  /** A successful read with the cursor behind it, or an exception. */
  datatype Read<T> = Got(value: T, cursor: nat) | Failed

  function LittleEndian(buf: string, at: nat, k: nat): nat
    requires at + k <= |buf|
    decreases k
  {
    if k == 0 then 0 else ByteAt(buf, at) + 256 * LittleEndian(buf, at + 1, k - 1)
  }

  function BigEndian(buf: string, at: nat, k: nat): nat
    requires at + k <= |buf|
    decreases k
  {
    if k == 0 then 0 else 256 * BigEndian(buf, at, k - 1) + ByteAt(buf, at + k - 1)
  }

  /** Two's complement of `half + half` values. */
  function Signed(n: nat, half: nat): int { if n < half then n else n - 2 * half }

  /** -1 announces a special string format; its byte is not consumed. */
  function LengthAt(buf: string, cursor: nat): (r: Read<int>)
    ensures r.Got? ==> cursor < |buf| && cursor <= r.cursor <= |buf| && (r.value == -1 || r.value >= 0)
    ensures r.Got? ==> (r.cursor == cursor <==> r.value == -1)
  {
    if cursor >= |buf| then Failed
    else
      var first := ByteAt(buf, cursor);
      if first < 64 then Got(first, cursor + 1)
      else if first < 128 then
        if cursor + 2 > |buf| then Failed else Got(first % 64 * 256 + ByteAt(buf, cursor + 1), cursor + 2)
      else if first < 192 then
        if cursor + 5 > |buf| then Failed else Got(BigEndian(buf, cursor + 1, 4), cursor + 5)
      else Got(-1, cursor)
  }

  function SpecialAt(buf: string, cursor: nat): (r: Read<string>)
    requires cursor < |buf|
    ensures r.Got? ==> cursor < r.cursor <= |buf|
  {
    var format, at := ByteAt(buf, cursor) % 64, cursor + 1;
    if format == 0 && at + 1 <= |buf| then Got(DecInt(Signed(LittleEndian(buf, at, 1), 0x80)), at + 1)
    else if format == 1 && at + 2 <= |buf| then Got(DecInt(Signed(LittleEndian(buf, at, 2), 0x8000)), at + 2)
    else if format == 2 && at + 4 <= |buf| then Got(DecInt(Signed(LittleEndian(buf, at, 4), 0x8000_0000)), at + 4)
    else Failed
  }

  function StringAt(buf: string, cursor: nat): (r: Read<string>)
    ensures r.Got? ==> cursor < r.cursor <= |buf|
  {
    match LengthAt(buf, cursor)
    case Failed => Failed
    case Got(length, at) =>
      if length == -1 then SpecialAt(buf, at)
      else if at + length > |buf| then Failed
      else Got(buf[at..at + length], at + length)
  }

  function ExpiryAt(buf: string, cursor: nat): (r: Read<Expiry>)
    requires cursor < |buf|
    ensures r.Got? ==> cursor <= r.cursor <= |buf|
  {
    var opcode := ByteAt(buf, cursor);
    if opcode == 0xfd then
      if cursor + 5 > |buf| then Failed else Got(DateOf(Some(LittleEndian(buf, cursor + 1, 4) * 1000)), cursor + 5)
    else if opcode == 0xfc then
      if cursor + 9 > |buf| then Failed else Got(DateOf(Some(LittleEndian(buf, cursor + 1, 8))), cursor + 9)
    else Got(Never, cursor)
  }

  /** A key is loaded unless its expiry has passed. */
  predicate Alive(e: Expiry, now: int) { e == Never || (e.Until? && e.ms > now) }

  function PairAt(buf: string, cursor: nat, s: Store, now: int): (r: Read<Store>)
    requires cursor < |buf|
    ensures r.Got? ==> cursor < r.cursor <= |buf|
  {
    match ExpiryAt(buf, cursor)
    case Failed => Failed
    case Got(expiry, at) =>
      if at >= |buf| || ByteAt(buf, at) != 0 then Failed
      else
        match StringAt(buf, at + 1)
        case Failed => Failed
        case Got(key, middle) =>
          match StringAt(buf, middle)
          case Failed => Failed
          case Got(value, end) => Got(if Alive(expiry, now) then s.Set(key, StoreValue(Str(value), expiry)) else s, end)
  }

  /** How far a loop came; keys loaded before an exception stay in the store. */
  datatype Progress = Progress(ok: bool, cursor: nat, store: Store)

  predicate EndsDatabase(opcode: nat) { opcode == 0xfe || opcode == 0xff || opcode == 0xfa }

  function Pairs(buf: string, cursor: nat, s: Store, now: int): (p: Progress)
    ensures p.ok && cursor <= |buf| ==> cursor <= p.cursor <= |buf|
    decreases if cursor <= |buf| then |buf| - cursor else 0
  {
    if cursor >= |buf| || EndsDatabase(ByteAt(buf, cursor)) then Progress(true, cursor, s)
    else
      match PairAt(buf, cursor, s, now)
      case Failed => Progress(false, cursor, s)
      case Got(t, next) => Pairs(buf, next, t, now)
  }

  /** The two resize hints, if their opcode is there. */
  function SkipHints(buf: string, cursor: nat): (r: Read<()>)
    requires cursor <= |buf|
    ensures r.Got? ==> cursor <= r.cursor <= |buf|
  {
    if cursor == |buf| || ByteAt(buf, cursor) != 0xfb then Got((), cursor)
    else
      match LengthAt(buf, cursor + 1)
      case Failed => Failed
      case Got(_, middle) =>
        match LengthAt(buf, middle)
        case Failed => Failed
        case Got(_, end) => Got((), end)
  }

  function Database(buf: string, cursor: nat, s: Store, now: int): (p: Progress)
    requires cursor < |buf|
    ensures p.ok ==> cursor < p.cursor <= |buf|
  {
    match LengthAt(buf, cursor + 1)
    case Failed => Progress(false, cursor, s)
    case Got(_, at) =>
      match SkipHints(buf, at)
      case Failed => Progress(false, cursor, s)
      case Got(_, start) => Pairs(buf, start, s, now)
  }

  function Auxiliary(buf: string, cursor: nat): (r: Read<()>)
    requires cursor < |buf|
    ensures r.Got? ==> cursor < r.cursor <= |buf|
  {
    match StringAt(buf, cursor + 1)
    case Failed => Failed
    case Got(_, middle) =>
      match StringAt(buf, middle)
      case Failed => Failed
      case Got(_, end) => Got((), end)
  }

  function Sections(buf: string, cursor: nat, s: Store, now: int): (p: Progress)
    ensures p.ok && cursor <= |buf| ==> cursor <= p.cursor <= |buf|
    decreases if cursor <= |buf| then |buf| - cursor else 0
  {
    if cursor >= |buf| then Progress(true, cursor, s)
    else
      var opcode := ByteAt(buf, cursor);
      if opcode == 0xfa then
        match Auxiliary(buf, cursor)
        case Failed => Progress(false, cursor, s)
        case Got(_, next) => Sections(buf, next, s, now)
      else if opcode == 0xfe then
        var p := Database(buf, cursor, s, now);
        if p.ok then Sections(buf, p.cursor, p.store, now) else p
      else Progress(opcode == 0xff, cursor, s)
  }

  /** Only the low seven bits of the magic string are looked at. */
  predicate HasMagic(buf: string) {
    |buf| >= 5 && forall i :: 0 <= i < 5 ==> ByteAt(buf, i) % 128 == "REDIS"[i] as int
  }

  function Parse(buf: string, s: Store, now: int): (p: Progress)
    ensures p.ok && |buf| >= 9 ==> 9 <= p.cursor <= |buf|
  {
    if HasMagic(buf) then Sections(buf, 9, s, now) else Progress(false, 0, s)
  }

  /** loadRDB, at the start of a server of either role: whatever the file is, what was loaded before an exception
      stays. A missing file is an empty one. */
  function Load(file: string, now: int): Store { if file == "" then EMPTY else Parse(file, EMPTY, now).store }

  // ---- writing ---------------------------------------------------------------------------------------------

  /** encodeLength: None is the exception for lengths of 64 and more. */
  function EncodeLength(n: nat): Option<string> { if n < 64 then Some([ByteChar(n)]) else None }

  function EncodeLE(n: nat, k: nat): (s: string)
    ensures |s| == k
  {
    if k == 0 then "" else [ByteChar(n % 256)] + EncodeLE(n / 256, k - 1)
  }

  function EncodeString(text: string): Option<string> {
    if |text| < 64 then Some([ByteChar(|text|)] + text) else None
  }

  /** A date that is no date cannot be written. */
  function EncodeExpiry(e: Expiry): Option<string> {
    match e
    case Never => Some("")
    case Until(ms) => if ms < 0 then None else Some([ByteChar(0xfc)] + EncodeLE(ms, 8))
    case InvalidDate => None
  }

  /** The entries the writer writes: strings that have not expired by its clock. */
  predicate Written(v: StoreValue, now: int) { v.value.Str? && !(v.expiration.Until? && v.expiration.ms <= now) }

  function EncodePair(key: string, v: StoreValue): Option<string>
    requires v.value.Str?
  {
    var expiry, name, text := EncodeExpiry(v.expiration), EncodeString(key), EncodeString(v.value.text);
    if expiry.Some? && name.Some? && text.Some? then
      Some(expiry.value + ([ByteChar(0)] + (name.value + text.value)))
    else None
  }

  function EncodePairs(s: Store, keys: seq<string>, now: int): Option<string> {
    if keys == [] then Some("")
    else
      var rest := EncodePairs(s, keys[1..], now);
      if keys[0] !in s.values || !Written(s.values[keys[0]], now) then rest
      else
        var pair := EncodePair(keys[0], s.values[keys[0]]);
        if pair.Some? && rest.Some? then Some(pair.value + rest.value) else None
  }

  function Magic(): (s: string)
    ensures |s| == 9
  {
    "REDIS0011"
  }

  function Prologue(keys: nat): string
    requires keys < 64
  {
    [ByteChar(0xfe)] + [ByteChar(0)] + [ByteChar(0xfb)] + [ByteChar(keys)] + [ByteChar(0)]
  }

  /** buildRDB. The hint counts all keys, also those that are not written. */
  function Build(s: Store, now: int): Option<string> {
    var pairs := EncodePairs(s, s.order, now);
    if |s.order| < 64 && pairs.Some? then
      Some(Magic() + (Prologue(|s.order|) + (pairs.value + ([ByteChar(0xff)] + EncodeLE(0, 8)))))
    else None
  }
}
