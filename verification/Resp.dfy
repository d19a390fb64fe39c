/** RESP framing: cutting one command out of a byte buffer, and printing one. */
module Resp {
  import opened Text

  // ---- cutting a frame ---------------------------------------------------------------------

  /** Where the cursor stands after `n` more bulk strings; None when the buffer does not hold them.
      A declared length may be negative, so the cursor may move backwards. */
  function BulksEnd(buf: string, cursor: int, n: int): Option<int>
    decreases if n < 0 then 0 else n
  {
    if n <= 0 then Some(cursor)
    else if cursor < 0 || cursor >= |buf| || buf[cursor] != '$' then None
    else
      var header := IndexOfCRLF(buf, cursor);
      if header == -1 then None
      else
        match ParseInt(buf[cursor + 1..header])
        case None => None
        case Some(length) =>
          var end := header + 2 + length + 2;
          if |buf| < end then None else BulksEnd(buf, end, n - 1)
  }

  /** Where the first command of the buffer ends; None when it is not complete. */
  function FrameEnd(buf: string): Option<int> {
    if buf == "" || buf[0] != '*' then None
    else
      var line := IndexOfCRLF(buf, 0);
      if line == -1 then None
      else
        match ParseInt(buf[1..line])
        case None => None
        case Some(length) => BulksEnd(buf, line + 2, length)
  }

  /** Buffer.slice(0, end): a negative end counts from the back. */
  function SliceTo(buf: string, end: int): string {
    if end >= 0 then buf[..if end <= |buf| then end else |buf|]
    else if |buf| + end >= 0 then buf[..|buf| + end]
    else ""
  }

  /** Buffer.slice(start): a negative start counts from the back. */
  function SliceFrom(buf: string, start: int): string {
    if start >= 0 then buf[if start <= |buf| then start else |buf|..]
    else if |buf| + start >= 0 then buf[|buf| + start..]
    else buf
  }

  function SplitLines(s: string): (r: seq<string>)
    ensures r != [] && forall i :: 0 <= i < |r| ==> OneLine(r[i])
    decreases |s|
  {
    var i := IndexOfCRLF(s, 0);
    if i == -1 then [s]
    else
      assert forall j :: CrlfAt(s[..i], j) ==> CrlfAt(s, j);
      [s[..i]] + SplitLines(s[i + 2..])
  }

  /** Lines such as `*3` or `$5`: two characters or more that start a RESP header. */
  predicate IsRespMetadata(item: string) {
    |item| >= 2 && (item[0] == '*' || item[0] == '$') && ParseInt(item[1..]).Some?
  }

  predicate Kept(item: string) { item != "" && !IsRespMetadata(item) }

  function Keep(items: seq<string>): (r: seq<string>)
    ensures forall i :: 0 <= i < |r| ==> r[i] in items && Kept(r[i])
  {
    if items == [] then []
    else (if Kept(items[0]) then [items[0]] else []) + Keep(items[1..])
  }

  /** What the parser can put in a payload: a non-empty line that does not look like a header. */
  ghost predicate Plain(item: string) { Kept(item) && OneLine(item) }

  ghost predicate AllPlain(items: seq<string>) { forall i :: 0 <= i < |items| ==> Plain(items[i]) }

  function PayloadOf(command: string): (r: seq<string>)
    ensures AllPlain(r)
  {
    Keep(SplitLines(command))
  }

  datatype Parsed = Parsed(payload: seq<string>, bytesConsumed: int)

  function NextCommand(buf: string): Option<Parsed> {
    match FrameEnd(buf)
    case None => None
    case Some(end) => Some(Parsed(PayloadOf(SliceTo(buf, end)), end))
  }

  // ---- printing a frame --------------------------------------------------------------------

  function Header(mark: char, n: nat): string { [mark] + Dec(n) }

  function Bulk(item: string): string { Header('$', |item|) + CRLF + item + CRLF }

  function Bulks(items: seq<string>): string {
    if items == [] then "" else Bulk(items[0]) + Bulks(items[1..])
  }

  function ToRESP(items: seq<string>): (s: string)
    ensures |s| > 0 && s[0] == '*'
  {
    Header('*', |items|) + CRLF + Bulks(items)
  }

  // ---- more bytes do not disturb a complete frame --------------------------------------------

  lemma {:induction false} BulksEndBounds(buf: string, cursor: int, n: int)
    requires cursor <= |buf|
    ensures BulksEnd(buf, cursor, n).Some? ==> BulksEnd(buf, cursor, n).value <= |buf|
    decreases if n < 0 then 0 else n
  {
    if n > 0 && 0 <= cursor < |buf| {
      var header := IndexOfCRLF(buf, cursor);
      if header > cursor && ParseInt(buf[cursor + 1..header]).Some? {
        var end := header + 4 + ParseInt(buf[cursor + 1..header]).value;
        if end <= |buf| { BulksEndBounds(buf, end, n - 1); }
      }
    }
  }

  lemma {:induction false} BulksEndStable(buf: string, more: string, cursor: int, n: int)
    requires BulksEnd(buf, cursor, n).Some?
    ensures BulksEnd(buf + more, cursor, n) == BulksEnd(buf, cursor, n)
    decreases if n < 0 then 0 else n
  {
    if n > 0 {
      IndexStable(buf, more, cursor);
      var header := IndexOfCRLF(buf, cursor);
      assert (buf + more)[cursor + 1..header] == buf[cursor + 1..header];
      BulksEndStable(buf, more, header + 4 + ParseInt(buf[cursor + 1..header]).value, n - 1);
    }
  }

  /** A complete command stays the same command, of the same size, when bytes are appended. */
  lemma CompleteFrameIsStable(buf: string, more: string)
    requires FrameEnd(buf).Some?
    ensures FrameEnd(buf).value <= |buf|
    ensures FrameEnd(buf + more) == FrameEnd(buf)
    ensures FrameEnd(buf).value >= 0 ==> NextCommand(buf + more) == NextCommand(buf)
  {
    hide ParseInt, IndexOfCRLF, BulksEnd, PayloadOf;
    IndexStable(buf, more, 0);
    var line := IndexOfCRLF(buf, 0);
    assert (buf + more)[1..line] == buf[1..line];
    var n := ParseInt(buf[1..line]).value;
    BulksEndStable(buf, more, line + 2, n);
    BulksEndBounds(buf, line + 2, n);
    if FrameEnd(buf).value >= 0 {
      assert SliceTo(buf + more, FrameEnd(buf).value) == SliceTo(buf, FrameEnd(buf).value);
    }
  }

  /** Cutting a complete command short anywhere makes it incomplete. */
  lemma ProperPrefixIsIncomplete(frame: string, k: nat)
    requires FrameEnd(frame) == Some(|frame|) && k < |frame|
    ensures NextCommand(frame[..k]) == None
  {
    if FrameEnd(frame[..k]).Some? {
      assert frame[..k] + frame[k..] == frame;
      CompleteFrameIsStable(frame[..k], frame[k..]);
    }
  }

  // ---- print, then parse ---------------------------------------------------------------------

  lemma SplitLinesOf(line: string, rest: string)
    requires OneLine(line)
    ensures SplitLines(line + CRLF + rest) == [line] + SplitLines(rest)
  {
    var s := line + CRLF + rest;
    LineEnd(s, 0, line);
    assert s[..|line|] == line && s[|line| + 2..] == rest;
  }

  lemma Regroup(header: string, item: string, rest: string)
    ensures header + CRLF + item + CRLF + rest == header + CRLF + (item + CRLF + rest)
  {
  }

  lemma HeaderIsDropped(mark: char, n: nat)
    requires mark == '*' || mark == '$'
    ensures OneLine(Header(mark, n)) && !Kept(Header(mark, n))
  {
    var h := Header(mark, n);
    assert h[1..] == Dec(n);
    ParseDec(n);
    assert forall i :: 0 <= i < |h| ==> h[i] != '\r';
  }

  lemma {:induction false} PayloadOfBulks(items: seq<string>)
    requires forall i :: 0 <= i < |items| ==> OneLine(items[i])
    ensures Keep(SplitLines(Bulks(items))) == Keep(items)
  {
    hide ParseInt, Dec, Kept, OneLine, IndexOfCRLF;
    if items == [] {
      NothingIsKept();
    } else {
      var item, rest := items[0], Bulks(items[1..]);
      var header := Header('$', |item|);
      HeaderIsDropped('$', |item|);
      Regroup(header, item, rest);
      SplitLinesOf(header, item + CRLF + rest);
      SplitLinesOf(item, rest);
      PayloadOfBulks(items[1..]);
      var lines := SplitLines(Bulks(items));
      assert lines[1..] == [item] + SplitLines(rest);
      assert lines[1..][1..] == SplitLines(rest);
    }
  }

  lemma NothingIsKept()
    ensures SplitLines("") == [""] && Keep([""]) == []
  {
    assert [""][1..] == [];
  }

  lemma {:induction false} PlainIsKept(items: seq<string>)
    requires AllPlain(items)
    ensures Keep(items) == items
  {
    hide Kept, OneLine;
    if items != [] {
      PlainIsKept(items[1..]);
      assert Plain(items[0]) && items == [items[0]] + items[1..];
    }
  }

  /** Reading a printed header line back, wherever it stands in the buffer. */
  lemma HeaderLine(buf: string, at: int, mark: char, n: nat)
    requires mark == '*' || mark == '$'
    requires At(buf, at, Header(mark, n) + CRLF)
    ensures var end := at + |Header(mark, n)|;
            && buf[at] == mark
            && IndexOfCRLF(buf, at) == end
            && ParseInt(buf[at + 1..end]) == Some(n)
  {
    hide ParseInt, Dec;
    HeaderIsDropped(mark, n);
    LineEnd(buf, at, Header(mark, n));
    AtSplit(buf, at, Header(mark, n), CRLF);
    AtSplit(buf, at, [mark], Dec(n));
    assert buf[at + 0] == mark;
    assert buf[at + 1..at + 1 + |Dec(n)|] == Dec(n);
    ParseDec(n);
  }

  lemma OneBulkEnd(buf: string, at: int, item: string, n: nat)
    requires At(buf, at, Bulk(item))
    ensures BulksEnd(buf, at, n + 1) == BulksEnd(buf, at + |Bulk(item)|, n)
  {
    hide ParseInt, Dec, IndexOfCRLF, Header;
    var header := Header('$', |item|) + CRLF;
    assert Bulk(item) == header + (item + CRLF);
    AtSplit(buf, at, header, item + CRLF);
    HeaderLine(buf, at, '$', |item|);
  }

  lemma {:induction false} BulksEndOfPrinted(buf: string, at: int, items: seq<string>)
    requires At(buf, at, Bulks(items))
    ensures BulksEnd(buf, at, |items|) == Some(at + |Bulks(items)|)
    decreases items
  {
    hide ParseInt, IndexOfCRLF, Bulk;
    if items != [] {
      AtSplit(buf, at, Bulk(items[0]), Bulks(items[1..]));
      OneBulkEnd(buf, at, items[0], |items| - 1);
      BulksEndOfPrinted(buf, at + |Bulk(items[0])|, items[1..]);
    }
  }

  lemma FrameEndOfPrinted(buf: string, items: seq<string>)
    requires At(buf, 0, ToRESP(items))
    ensures FrameEnd(buf) == Some(|ToRESP(items)|)
  {
    hide ParseInt, IndexOfCRLF, BulksEnd, Bulks, Header, Dec;
    var head := Header('*', |items|) + CRLF;
    AtSplit(buf, 0, head, Bulks(items));
    HeaderLine(buf, 0, '*', |items|);
    BulksEndOfPrinted(buf, |head|, items);
  }

  /** Of a printed command of one-line items, the parser keeps those that are not empty and look like no header. */
  lemma PayloadOfPrinted(items: seq<string>)
    requires forall i :: 0 <= i < |items| ==> OneLine(items[i])
    ensures PayloadOf(ToRESP(items)) == Keep(items)
  {
    hide Kept, OneLine, SplitLines;
    var header := Header('*', |items|);
    HeaderIsDropped('*', |items|);
    SplitLinesOf(header, Bulks(items));
    PayloadOfBulks(items);
    assert SplitLines(ToRESP(items))[1..] == SplitLines(Bulks(items));
  }

  /** Round trip: a printed command, whatever follows it, parses back to itself and takes exactly
      the bytes that were printed. */
  lemma PrintThenParse(items: seq<string>, rest: string)
    requires AllPlain(items)
    ensures NextCommand(ToRESP(items) + rest) == Some(Parsed(items, |ToRESP(items)|))
  {
    hide ToRESP, FrameEnd, PayloadOf;
    var frame := ToRESP(items);
    FrameEndOfPrinted(frame + rest, items);
    PayloadOfPrinted(items);
    PlainIsKept(items);
    assert SliceTo(frame + rest, |frame|) == frame;
  }

  /** Whatever the parser produced, from any bytes at all, survives being printed again. */
  lemma ParsePrintParse(buf: string, rest: string)
    requires NextCommand(buf).Some?
    ensures var p := NextCommand(buf).value.payload;
            NextCommand(ToRESP(p) + rest) == Some(Parsed(p, |ToRESP(p)|))
  {
    PrintThenParse(NextCommand(buf).value.payload, rest);
  }

  /** Exactly which payloads survive printing and parsing: those whose items are all plain. */
  lemma RoundTripExactlyWhenPlain(items: seq<string>)
    ensures NextCommand(ToRESP(items)) == Some(Parsed(items, |ToRESP(items)|)) <==> AllPlain(items)
  {
    assert ToRESP(items) + "" == ToRESP(items);
    if AllPlain(items) {
      PrintThenParse(items, "");
    }
  }
}
