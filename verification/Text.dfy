/** Text as the server sees it: one `char` per byte, decimal numbers, and CRLF-separated lines. */
module Text {

  datatype Option<+T> = None | Some(value: T)

  // ---- decimal numbers ---------------------------------------------------------------------

  predicate IsDigit(c: char) { '0' <= c <= '9' }

  predicate AllDigits(s: string) { forall i :: 0 <= i < |s| ==> IsDigit(s[i]) }

  function DigitValue(c: char): nat
    requires IsDigit(c)
  {
    c as int - '0' as int
  }

  function DigitChar(d: nat): (c: char)
    requires d < 10
    ensures IsDigit(c) && DigitValue(c) == d
  {
    ('0' as int + d) as char
  }

  /** The canonical decimal spelling: what JavaScript's toString prints for a natural number. */
  function Dec(n: nat): (s: string)
    ensures |s| > 0 && AllDigits(s)
    ensures n > 0 ==> s[0] != '0'
  {
    if n < 10 then [DigitChar(n)] else Dec(n / 10) + [DigitChar(n % 10)]
  }

  function DecInt(n: int): string {
    if n < 0 then "-" + Dec(-n) else Dec(n)
  }

  function NumberOf(s: string): nat
    requires AllDigits(s)
  {
    if s == "" then 0 else NumberOf(s[..|s| - 1]) * 10 + DigitValue(s[|s| - 1])
  }

  lemma {:induction false} ValueOfDec(n: nat)
    ensures NumberOf(Dec(n)) == n
  {
    if n >= 10 {
      ValueOfDec(n / 10);
      assert Dec(n)[..|Dec(n)| - 1] == Dec(n / 10);
    }
  }

  /** The end of the run of digits that starts at `i`. */
  function DigitEnd(s: string, i: nat): (r: nat)
    requires i <= |s|
    ensures i <= r <= |s|
    ensures forall j :: i <= j < r ==> IsDigit(s[j])
    ensures r < |s| ==> !IsDigit(s[r])
    decreases |s| - i
  {
    if i < |s| && IsDigit(s[i]) then DigitEnd(s, i + 1) else i
  }

  predicate IsSpace(c: char) { c == ' ' || '\t' <= c <= '\r' }

  function SpaceEnd(s: string, i: nat): (r: nat)
    requires i <= |s|
    ensures i <= r <= |s|
    ensures i < |s| && !IsSpace(s[i]) ==> r == i
    decreases |s| - i
  {
    if i < |s| && IsSpace(s[i]) then SpaceEnd(s, i + 1) else i
  }

  /** JavaScript's parseInt(s, 10): leading blanks, an optional sign, then the longest run of
      digits; None stands for NaN. */
  function ParseInt(s: string): Option<int> {
    var i := SpaceEnd(s, 0);
    var signed := i < |s| && (s[i] == '-' || s[i] == '+');
    var from := if signed then i + 1 else i;
    var to := DigitEnd(s, from);
    var n: int := NumberOf(s[from..to]);
    if to == from then None else if signed && s[i] == '-' then Some(-n) else Some(n)
  }

  lemma ParseDigits(s: string)
    requires s != "" && AllDigits(s)
    ensures ParseInt(s) == Some(NumberOf(s))
  {
    assert IsDigit(s[0]);
    assert DigitEnd(s, 0) == |s|;
    assert s[0..|s|] == s;
  }

  /** parseInt reads back exactly what toString printed. */
  lemma ParseDec(n: nat)
    ensures ParseInt(Dec(n)) == Some(n)
  {
    ParseDigits(Dec(n));
    ValueOfDec(n);
  }

  lemma ParseDecInt(n: int)
    ensures ParseInt(DecInt(n)) == Some(n)
  {
    if n >= 0 {
      ParseDec(n);
    } else {
      var s, d := DecInt(n), Dec(-n);
      ValueOfDec(-n);
      assert IsDigit(d[0]) && s[0] == '-';
      assert forall j :: 1 <= j < |s| ==> s[j] == d[j - 1];
      assert DigitEnd(s, 1) == |s|;
      assert s[1..|s|] == d;
    }
  }

  // ---- numbers without a given radix ---------------------------------------------------------------

  predicate IsHexDigit(c: char) { IsDigit(c) || 'a' <= c <= 'f' || 'A' <= c <= 'F' }

  function HexValue(c: char): nat
    requires IsHexDigit(c)
  {
    if IsDigit(c) then DigitValue(c) else if 'a' <= c then c as int - 'a' as int + 10 else c as int - 'A' as int + 10
  }

  function HexEnd(s: string, i: nat): (r: nat)
    requires i <= |s|
    ensures i <= r <= |s|
    ensures forall j :: i <= j < r ==> IsHexDigit(s[j])
    decreases |s| - i
  {
    if i < |s| && IsHexDigit(s[i]) then HexEnd(s, i + 1) else i
  }

  function HexNumber(s: string): nat
    requires forall i :: 0 <= i < |s| ==> IsHexDigit(s[i])
  {
    if s == "" then 0 else HexNumber(s[..|s| - 1]) * 16 + HexValue(s[|s| - 1])
  }

  /** JavaScript's parseInt(s): as with radix 10, but 0x announces hexadecimal digits. */
  function ParseAnyInt(s: string): Option<int> {
    var i := SpaceEnd(s, 0);
    var signed := i < |s| && (s[i] == '-' || s[i] == '+');
    var from := if signed then i + 1 else i;
    if from + 1 < |s| && s[from] == '0' && (s[from + 1] == 'x' || s[from + 1] == 'X') then
      var to := HexEnd(s, from + 2);
      var n: int := HexNumber(s[from + 2..to]);
      if to == from + 2 then None else if signed && s[i] == '-' then Some(-n) else Some(n)
    else ParseInt(s)
  }

  lemma ParseAnyDecInt(n: int)
    ensures ParseAnyInt(DecInt(n)) == Some(n)
  {
    hide ParseInt;
    ParseDecInt(n);
    var s := DecInt(n);
    if n >= 0 {
      assert IsDigit(s[0]) && (|s| > 1 ==> IsDigit(s[1]));
    } else {
      assert s[0] == '-' && IsDigit(Dec(-n)[0]) && (|s| > 2 ==> IsDigit(Dec(-n)[1]) && s[2] == Dec(-n)[1]);
    }
  }

  // ---- letters -----------------------------------------------------------------------------

  function LowerChar(c: char): char {
    if 'A' <= c <= 'Z' then (c as int + 32) as char else c
  }

  function Lower(s: string): (r: string)
    ensures |r| == |s|
  {
    seq(|s|, i requires 0 <= i < |s| => LowerChar(s[i]))
  }

  function UpperChar(c: char): char {
    if 'a' <= c <= 'z' then (c as int - 32) as char else c
  }

  function Upper(s: string): (r: string)
    ensures |r| == |s|
  {
    seq(|s|, i requires 0 <= i < |s| => UpperChar(s[i]))
  }

  /** JavaScript's trim. */
  function Trim(s: string): string {
    TrimEnd(s[SpaceEnd(s, 0)..])
  }

  function TrimEnd(s: string): string {
    if s != "" && IsSpace(s[|s| - 1]) then TrimEnd(s[..|s| - 1]) else s
  }

  // ---- positions ---------------------------------------------------------------------------

  /** The text `x` stands in the buffer at position `at`. */
  ghost predicate At(buf: string, at: int, x: string) {
    0 <= at && at + |x| <= |buf| && forall k :: 0 <= k < |x| ==> buf[at + k] == x[k]
  }

  lemma AtSplit(buf: string, at: int, a: string, b: string)
    requires At(buf, at, a + b)
    ensures At(buf, at, a) && At(buf, at + |a|, b)
  {
    forall k | 0 <= k < |a| ensures buf[at + k] == a[k] { assert (a + b)[k] == a[k]; }
    forall k | 0 <= k < |b| ensures buf[at + |a| + k] == b[k] { assert (a + b)[|a| + k] == b[k]; }
  }

  // ---- lines -------------------------------------------------------------------------------

  const CRLF := "\r\n"

  predicate CrlfAt(s: string, i: int) {
    0 <= i && i + 1 < |s| && s[i] == '\r' && s[i + 1] == '\n'
  }

  ghost predicate OneLine(s: string) { forall i :: !CrlfAt(s, i) }

  /** Buffer.indexOf("\r\n", from). */
  function IndexOfCRLF(s: string, from: nat): (i: int)
    ensures i != -1 ==> from <= i && CrlfAt(s, i)
    ensures forall j :: from <= j && (i == -1 || j < i) ==> !CrlfAt(s, j)
    decreases |s| - from
  {
    if from + 1 >= |s| then -1
    else if CrlfAt(s, from) then from
    else IndexOfCRLF(s, from + 1)
  }

  lemma IndexIs(s: string, from: nat, i: nat)
    requires from <= i && CrlfAt(s, i)
    requires forall j :: from <= j < i ==> !CrlfAt(s, j)
    ensures IndexOfCRLF(s, from) == i
  {
    var k := IndexOfCRLF(s, from);
    assert k != -1 ==> !(k < i);
  }

  /** A line end that has been seen does not move when more bytes arrive. */
  lemma IndexStable(s: string, more: string, from: nat)
    requires IndexOfCRLF(s, from) != -1
    ensures IndexOfCRLF(s + more, from) == IndexOfCRLF(s, from)
  {
    var i := IndexOfCRLF(s, from);
    forall j | from <= j < i ensures !CrlfAt(s + more, j) { assert !CrlfAt(s, j); }
    IndexIs(s + more, from, i);
  }

  lemma DigitsAreOneLine(s: string)
    requires AllDigits(s)
    ensures OneLine(s)
  {
  }

  /** A line without CRLF, placed at `at`, ends exactly where its own text ends. */
  lemma LineEnd(s: string, at: nat, line: string)
    requires OneLine(line)
    requires At(s, at, line + CRLF)
    ensures IndexOfCRLF(s, at) == at + |line|
  {
    var t := line + CRLF;
    assert s[at + |line|] == t[|line|] == '\r' && s[at + (|line| + 1)] == t[|line| + 1] == '\n';
    forall j | at <= j < at + |line| ensures !CrlfAt(s, j) {
      assert !CrlfAt(line, j - at);
      assert s[at + (j - at)] == t[j - at] && s[at + (j - at + 1)] == t[j - at + 1];
    }
    IndexIs(s, at, at + |line|);
  }
}
