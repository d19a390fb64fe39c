/** What parseInt makes of any text at all, what the letter functions do, and which texts get through a RESP frame,
    all in terms of how texts are spelt. */
module TextLaws {
  import opened Text
  import Resp

  /** Blank, tab, line feed, vertical tab, form feed, carriage return. */
  predicate IsBlank(c: char) { c as int in {32, 9, 10, 11, 12, 13} }

  ghost predicate AllBlanks(s: string) { forall i :: 0 <= i < |s| ==> IsBlank(s[i]) }

  ghost predicate AllZeros(s: string) { forall i :: 0 <= i < |s| ==> s[i] == '0' }

  predicate StartsWithDigit(s: string) { s != "" && s[0] in {'0', '1', '2', '3', '4', '5', '6', '7', '8', '9'} }

  // ---- parseInt -----------------------------------------------------------------------------------------------------

  lemma {:induction false} BlanksEnd(blanks: string, rest: string, from: nat)
    requires AllBlanks(blanks) && from <= |blanks| && (rest == "" || !IsBlank(rest[0]))
    ensures SpaceEnd(blanks + rest, from) == |blanks|
    decreases |blanks| - from
  {
    if from < |blanks| {
      assert (blanks + rest)[from] == blanks[from] && IsBlank(blanks[from]);
      BlanksEnd(blanks, rest, from + 1);
    } else if rest != "" {
      assert (blanks + rest)[from] == rest[0];
    }
  }

  lemma {:induction false} DigitsEnd(digits: string, rest: string, from: nat)
    requires from <= |digits| && (forall i :: from <= i < |digits| ==> IsDigit(digits[i])) && !StartsWithDigit(rest)
    ensures DigitEnd(digits + rest, from) == |digits|
    decreases |digits| - from
  {
    if from < |digits| {
      assert (digits + rest)[from] == digits[from];
      DigitsEnd(digits, rest, from + 1);
    } else if rest != "" {
      assert (digits + rest)[from] == rest[0];
    }
  }

  lemma {:induction false} ZerosDoNotCount(zeros: string, digits: string)
    requires AllZeros(zeros) && AllDigits(digits)
    ensures AllDigits(zeros + digits) && NumberOf(zeros + digits) == NumberOf(digits)
    decreases |zeros| + |digits|
  {
    var s := zeros + digits;
    if digits != "" {
      assert s[..|s| - 1] == zeros + digits[..|digits| - 1];
      ZerosDoNotCount(zeros, digits[..|digits| - 1]);
    } else if zeros != "" {
      assert s == zeros && s[..|s| - 1] == zeros[..|zeros| - 1] + "" && IsDigit('0');
      ZerosDoNotCount(zeros[..|zeros| - 1], "");
    }
  }

  function SignedBy(sign: string, n: int): int { if sign == "-" then -n else n }

  /** Blanks, a sign, digits, and what stops them: the digits are taken for all there are. */
  ghost predicate Parts(blanks: string, sign: string, digits: string, rest: string) {
    && AllBlanks(blanks) && sign in {"", "+", "-"} && AllDigits(digits) && !StartsWithDigit(rest)
    && (sign == "" && digits == "" && rest != "" ==> !IsBlank(rest[0]) && rest[0] != '+' && rest[0] != '-')
  }

  lemma BlanksOfParts(blanks: string, sign: string, digits: string, rest: string)
    requires Parts(blanks, sign, digits, rest)
    ensures var s := blanks + sign + digits + rest;
            && SpaceEnd(s, 0) == |blanks|
            && (sign != "" ==> s[|blanks|] == sign[0])
            && (sign == "" && |blanks| < |s| ==> s[|blanks|] != '+' && s[|blanks|] != '-')
  {
    var tail := sign + digits + rest;
    assert blanks + sign + digits + rest == blanks + tail;
    assert tail != "" ==> tail[0] == if sign != "" then sign[0] else if digits != "" then digits[0] else rest[0];
    assert digits != "" ==> IsDigit(digits[0]);
    BlanksEnd(blanks, tail, 0);
  }

  lemma DigitsOfParts(blanks: string, sign: string, digits: string, rest: string)
    requires AllDigits(digits) && !StartsWithDigit(rest)
    ensures var s, from := blanks + sign + digits + rest, |blanks| + |sign|;
            DigitEnd(s, from) == from + |digits| && s[from..from + |digits|] == digits
  {
    var front, from := blanks + sign + digits, |blanks| + |sign|;
    assert forall k :: from <= k < |front| ==> front[k] == digits[k - from];
    DigitsEnd(front, rest, from);
  }

  lemma PartsRead(blanks: string, sign: string, digits: string, rest: string)
    requires Parts(blanks, sign, digits, rest)
    ensures ParseInt(blanks + sign + digits + rest) == if digits == "" then None else Some(SignedBy(sign, NumberOf(digits)))
  {
    hide NumberOf, SpaceEnd, DigitEnd;
    BlanksOfParts(blanks, sign, digits, rest);
    DigitsOfParts(blanks, sign, digits, rest);
  }

  /** parseInt reads a number whatever blanks stand before it, with or without a sign and leading zeros, and stops at
      the first character that is no digit. */
  lemma ParseIntReads(blanks: string, sign: string, zeros: string, n: nat, rest: string)
    requires AllBlanks(blanks) && sign in {"", "+", "-"} && AllZeros(zeros) && !StartsWithDigit(rest)
    ensures ParseInt(blanks + sign + (zeros + Dec(n)) + rest) == Some(SignedBy(sign, n))
  {
    hide ParseInt, Dec, NumberOf;
    ZerosDoNotCount(zeros, Dec(n));
    ValueOfDec(n);
    PartsRead(blanks, sign, zeros + Dec(n), rest);
  }

  lemma {:induction false} DigitsSpellANumber(digits: string) returns (zeros: string, n: nat)
    requires AllDigits(digits) && digits != ""
    ensures AllZeros(zeros) && digits == zeros + Dec(n)
    decreases |digits|
  {
    var k := |digits| - 1;
    assert IsDigit(digits[k]) && digits == digits[..k] + [digits[k]];
    var d := DigitValue(digits[k]);
    assert DigitChar(d) == digits[k];
    if k == 0 {
      zeros, n := "", d;
      assert digits[..0] == "" && Dec(n) == [digits[k]];
    } else {
      zeros, n := DigitsSpellANumber(digits[..k]);
      if n == 0 {
        assert Dec(0) == "0" && digits == (zeros + "0") + Dec(d);
        zeros, n := zeros + "0", d;
      } else {
        assert Dec(10 * n + d) == Dec(n) + [digits[k]];
        n := 10 * n + d;
      }
    }
  }

  /** Every text either spells a number for parseInt, as in ParseIntReads, or is NaN: behind blanks and a sign there
      is no digit. */
  lemma ParseIntReadsNothingElse(s: string) returns (blanks: string, sign: string, zeros: string, n: nat, rest: string)
    ensures AllBlanks(blanks) && sign in {"", "+", "-"} && AllZeros(zeros) && !StartsWithDigit(rest)
    ensures if ParseInt(s) == None then s == blanks + sign + rest else s == blanks + sign + (zeros + Dec(n)) + rest
  {
    hide Dec, NumberOf, ParseInt, Parts;
    var digits: string;
    blanks, sign, digits, rest := EveryTextHasParts(s);
    zeros, n := "", 0;
    PartsRead(blanks, sign, digits, rest);
    PartsAre(blanks, sign, digits, rest);
    if digits == "" {
      assert blanks + sign + "" + rest == blanks + sign + rest;
    } else {
      zeros, n := DigitsSpellANumber(digits);
    }
  }

  lemma PartsAre(blanks: string, sign: string, digits: string, rest: string)
    requires Parts(blanks, sign, digits, rest)
    ensures AllBlanks(blanks) && sign in {"", "+", "-"} && AllDigits(digits) && !StartsWithDigit(rest)
  {
  }

  lemma EveryTextHasParts(s: string) returns (blanks: string, sign: string, digits: string, rest: string)
    ensures Parts(blanks, sign, digits, rest) && s == blanks + sign + digits + rest
  {
    var i := BlanksOf(s, 0);
    sign := if i < |s| && s[i] == '+' then "+" else if i < |s| && s[i] == '-' then "-" else "";
    var from := i + |sign|;
    var to := DigitEnd(s, from);
    blanks, digits, rest := s[..i], s[from..to], s[to..];
    assert s == blanks + sign + digits + rest;
    assert forall k :: 0 <= k < |digits| ==> digits[k] == s[from + k];
    assert rest != "" ==> rest[0] == s[to];
  }

  /** How far the blanks reach. */
  lemma {:induction false} BlanksOf(s: string, from: nat) returns (i: nat)
    requires from <= |s| && AllBlanks(s[..from])
    ensures from <= i <= |s| && AllBlanks(s[..i]) && (i < |s| ==> !IsBlank(s[i]))
    decreases |s| - from
  {
    i := from;
    if from < |s| && IsBlank(s[from]) {
      assert s[..from + 1] == s[..from] + [s[from]];
      i := BlanksOf(s, from + 1);
    }
  }

  /** Numbers as toString prints them are read back from in front of anything but a digit. */
  lemma NumberReads(n: int, rest: string)
    requires !StartsWithDigit(rest)
    ensures ParseInt(DecInt(n) + rest) == Some(n)
  {
    hide ParseInt, Dec;
    if n < 0 {
      ParseIntReads("", "-", "", -n, rest);
      assert "" + "-" + ("" + Dec(-n)) + rest == DecInt(n) + rest;
    } else {
      ParseIntReads("", "", "", n, rest);
      assert "" + "" + ("" + Dec(n)) + rest == DecInt(n) + rest;
    }
  }

  // ---- letters ------------------------------------------------------------------------------------------------------

  const CAPITALS := "ABCDEFGHIJKLMNOPQRSTUVWXYZ"
  const SMALLS := "abcdefghijklmnopqrstuvwxyz"

  /** Letters change their case and nothing else changes. */
  lemma LettersChangeCase(s: string, i: nat)
    requires i < |s|
    ensures forall k :: 0 <= k < 26 ==> (s[i] == CAPITALS[k] ==> Lower(s)[i] == SMALLS[k])
    ensures forall k :: 0 <= k < 26 ==> (s[i] == SMALLS[k] ==> Upper(s)[i] == CAPITALS[k])
    ensures s[i] !in CAPITALS ==> Lower(s)[i] == s[i]
    ensures s[i] !in SMALLS ==> Upper(s)[i] == s[i]
  {
    hide CAPITALS, SMALLS;
    AlphabetIsAscii();
    if 'A' <= s[i] <= 'Z' { assert s[i] == CAPITALS[s[i] as int - 'A' as int]; }
    if 'a' <= s[i] <= 'z' { assert s[i] == SMALLS[s[i] as int - 'a' as int]; }
  }

  lemma AlphabetIsAscii()
    ensures |CAPITALS| == |SMALLS| == 26
    ensures forall k :: 0 <= k < 26 ==> CAPITALS[k] == ('A' as int + k) as char && SMALLS[k] == ('a' as int + k) as char
  {
  }

  // ---- parseInt without a radix -------------------------------------------------------------------------------------

  const HEX := "0123456789abcdef"

  /** The hexadecimal spelling in small letters. */
  function HexText(n: nat): (s: string)
    ensures s != ""
  {
    if n < 16 then [HEX[n]] else HexText(n / 16) + [HEX[n % 16]]
  }

  lemma HexDigitMeans(c: char, d: nat)
    requires d < 16 && LowerChar(c) == HEX[d]
    ensures IsHexDigit(c) && HexValue(c) == d
  {
  }

  lemma {:induction false} HexReads(s: string, n: nat)
    requires Lower(s) == HexText(n)
    ensures (forall i :: 0 <= i < |s| ==> IsHexDigit(s[i])) && HexNumber(s) == n
    decreases n
  {
    var k := |s| - 1;
    assert LowerChar(s[k]) == Lower(s)[k] == HexText(n)[k];
    if n < 16 {
      HexDigitMeans(s[k], n);
      assert s[..k] == "";
    } else {
      assert HexText(n)[..k] == HexText(n / 16);
      assert Lower(s[..k]) == HexText(n / 16);
      HexReads(s[..k], n / 16);
      HexDigitMeans(s[k], n % 16);
    }
  }

  lemma {:induction false} HexEnds(s: string, i: nat)
    requires i <= |s| && forall j :: i <= j < |s| ==> IsHexDigit(s[j])
    ensures HexEnd(s, i) == |s|
    decreases |s| - i
  {
    if i < |s| { HexEnds(s, i + 1); }
  }

  /** 0x announces a hexadecimal number, in letters of either case. */
  lemma ParseAnyIntReadsHex(sign: string, digits: string, n: nat, capital: bool)
    requires sign in {"", "+", "-"} && Lower(digits) == HexText(n)
    ensures ParseAnyInt(sign + (if capital then "0X" else "0x") + digits) == Some(SignedBy(sign, n))
  {
    hide Lower, HexNumber, HexText;
    var s := sign + (if capital then "0X" else "0x") + digits;
    var from := |sign|;
    HexReads(digits, n);
    assert s[from] == '0' && (s[from + 1] == 'x' || s[from + 1] == 'X') && |digits| == |HexText(n)|;
    assert forall j :: from + 2 <= j < |s| ==> s[j] == digits[j - from - 2];
    HexEnds(s, from + 2);
    assert s[from + 2..|s|] == digits;
    assert sign != "" ==> s[0] == sign[0];
  }

  /** Without 0x it is parseInt with radix 10. */
  lemma ParseAnyIntReadsDecimals(s: string)
    requires forall i :: 0 <= i && i + 1 < |s| && s[i] == '0' ==> s[i + 1] != 'x' && s[i + 1] != 'X'
    ensures ParseAnyInt(s) == ParseInt(s)
  {
  }

  // ---- texts in a RESP frame ------------------------------------------------------------------------------------------

  lemma OtherTextsAreKept(item: string)
    requires item != "" && item[0] != '*' && item[0] != '$'
    ensures Resp.Kept(item)
  {
  }

  lemma MarkedTextsAreKept(item: string)
    requires |item| == 1 || (|item| > 1 && !IsBlank(item[1]) && !StartsWithDigit(item[1..]) && item[1] != '+' && item[1] != '-')
    ensures Resp.Kept(item)
  {
    hide ParseInt;
    if |item| > 1 {
      PartsRead("", "", "", item[1..]);
      assert "" + "" + "" + item[1..] == item[1..];
    }
  }

  /** A command of one-line texts gets through as it is, unless a text is empty or looks like the start of a header: a
      star or a dollar sign with a digit, a sign or a blank behind it. */
  lemma TextsGetThrough(items: seq<string>, rest: string)
    requires forall i :: 0 <= i < |items| ==>
               && items[i] != "" && (forall j :: 0 <= j && j + 1 < |items[i]| ==> !(items[i][j] == '\r' && items[i][j + 1] == '\n'))
               && (|items[i]| > 1 && items[i][0] in {'*', '$'} ==>
                     !StartsWithDigit(items[i][1..]) && items[i][1] as int !in {32, 9, 10, 11, 12, 13} && items[i][1] !in {'+', '-'})
    ensures Resp.NextCommand(Resp.ToRESP(items) + rest) == Some(Resp.Parsed(items, |Resp.ToRESP(items)|))
  {
    hide Resp.ToRESP, Resp.NextCommand, Resp.Kept;
    forall i | 0 <= i < |items| ensures Resp.Plain(items[i]) {
      if items[i][0] in {'*', '$'} { MarkedTextsAreKept(items[i]); } else { OtherTextsAreKept(items[i]); }
    }
    Resp.PrintThenParse(items, rest);
  }

  /** The empty text, and a header with any number, get lost between two texts that get through. */
  lemma HeadersGetLost(a: string, b: string, mark: char, blanks: string, sign: string, n: nat, tail: string)
    requires Resp.Plain(a) && Resp.Plain(b) && (mark == '*' || mark == '$') && AllBlanks(blanks) && sign in {"", "+", "-"}
    requires !StartsWithDigit(tail) && OneLine([mark] + (blanks + sign + ("" + Dec(n)) + tail))
    ensures Resp.PayloadOf(Resp.ToRESP([a, "", b])) == [a, b]
         == Resp.PayloadOf(Resp.ToRESP([a, [mark] + (blanks + sign + ("" + Dec(n)) + tail), b]))
  {
    hide Dec, ParseInt, Resp.ToRESP, Resp.PayloadOf, OneLine;
    ParseIntReads(blanks, sign, "", n, tail);
    var header := [mark] + (blanks + sign + ("" + Dec(n)) + tail);
    assert header[1..] == blanks + sign + ("" + Dec(n)) + tail;
    assert |Dec(n)| > 0;
    NothingIsOneLine();
    OneGetsLost(a, "", b);
    OneGetsLost(a, header, b);
  }

  lemma NothingIsOneLine()
    ensures OneLine("") && !Resp.Kept("")
  {
  }

  lemma OneGetsLost(a: string, lost: string, b: string)
    requires Resp.Plain(a) && Resp.Plain(b) && OneLine(lost) && !Resp.Kept(lost)
    ensures Resp.PayloadOf(Resp.ToRESP([a, lost, b])) == [a, b]
  {
    hide Resp.Kept, OneLine, Resp.ToRESP, Resp.PayloadOf;
    Resp.PayloadOfPrinted([a, lost, b]);
    assert [a, lost, b][1..] == [lost, b] && [lost, b][1..] == [b] && [b][1..] == [];
    assert Resp.Keep([b]) == [b] + Resp.Keep([]) == [b];
    assert Resp.Keep([lost, b]) == [] + [b] == [b];
    assert Resp.Keep([a, lost, b]) == [a] + [b];
  }
}
