/** IDs are compared as strings; when this is the numeric order, and what XADD accepts. */
module StreamOrder {
  import opened Text
  import opened Store
  import opened Commands
  import opened StreamIds

  // ---- string order and numeric order ----------------------------------------------------------------------

  function Pow10(k: nat): nat { if k == 0 then 1 else 10 * Pow10(k - 1) }

  lemma {:induction false} ValueBelow(s: string)
    requires AllDigits(s)
    ensures NumberOf(s) < Pow10(|s|)
    decreases |s|
  {
    if s != "" { ValueBelow(s[..|s| - 1]); }
  }

  lemma {:induction false} ValueFrom(s: string)
    requires AllDigits(s) && s != "" && s[0] != '0'
    ensures NumberOf(s) >= Pow10(|s| - 1)
    decreases |s|
  {
    if |s| > 1 {
      ValueFrom(s[..|s| - 1]);
    } else {
      assert IsDigit(s[0]) && s[..0] == "";
    }
  }

  /** Digits as toString prints them. */
  predicate Canonical(s: string) { s != "" && AllDigits(s) && (s[0] == '0' ==> |s| == 1) }

  lemma LongerIsGreater(a: string, b: string)
    requires AllDigits(a) && Canonical(b) && 0 < |a| < |b|
    ensures NumberOf(a) < NumberOf(b)
  {
    ValueBelow(a);
    ValueFrom(b);
    PowGrows(|a|, |b| - 1);
  }

  lemma PowGrows(i: nat, j: nat)
    requires i <= j
    ensures Pow10(i) <= Pow10(j)
    decreases j
  {
    if i < j { PowGrows(i, j - 1); }
  }

  lemma {:induction false} LessSnoc(a: string, x: char, b: string, y: char)
    requires |a| == |b|
    ensures Less(a + [x], b + [y]) <==> Less(a, b) || (a == b && x < y)
    decreases |a|
  {
    if a == "" {
      assert a + [x] == [x] && b + [y] == [y] && [x][1..] == "" && [y][1..] == "";
    } else {
      LessSnoc(a[1..], x, b[1..], y);
      assert (a + [x])[1..] == a[1..] + [x] && (b + [y])[1..] == b[1..] + [y];
      assert a == [a[0]] + a[1..] && b == [b[0]] + b[1..];
    }
  }

  lemma {:induction false} SameWidthIsNumeric(a: string, b: string)
    requires AllDigits(a) && AllDigits(b) && |a| == |b|
    ensures Less(a, b) <==> NumberOf(a) < NumberOf(b)
    ensures NumberOf(a) == NumberOf(b) <==> a == b
    decreases |a|
  {
    if a != "" {
      var n := |a| - 1;
      assert a == a[..n] + [a[n]] && b == b[..n] + [b[n]];
      assert IsDigit(a[n]) && IsDigit(b[n]);
      SameWidthIsNumeric(a[..n], b[..n]);
      LessSnoc(a[..n], a[n], b[..n], b[n]);
    }
  }

  /** Strings of different lengths: the longer one is cut to the shorter one's length. */
  lemma {:induction false} LessCuts(a: string, b: string)
    ensures |a| < |b| ==> (Less(a, b) <==> !Less(b[..|a|], a))
    ensures |a| > |b| ==> (Less(a, b) <==> Less(a[..|b|], b))
    decreases |a|
  {
    if a != "" && b != "" {
      LessCuts(a[1..], b[1..]);
      if |a| < |b| { assert b[..|a|][1..] == b[1..][..|a| - 1]; }
      if |a| > |b| { assert a[..|b|][1..] == a[1..][..|b| - 1]; }
    }
  }

  /** Equal widths; or the shorter number does not cross the leading digits of the longer one. */
  predicate WidthsAgree(a: string, b: string)
    requires AllDigits(a) && AllDigits(b)
  {
    |a| == |b|
    || (|a| < |b| && NumberOf(a) <= NumberOf(b[..|a|]))
    || (|a| > |b| && NumberOf(a[..|b|]) >= NumberOf(b))
  }

  /** Exactly when comparing two numbers as strings gives their numeric order. */
  lemma StringOrderIsNumericExactly(a: string, b: string)
    requires Canonical(a) && Canonical(b)
    ensures (Less(a, b) <==> NumberOf(a) < NumberOf(b)) <==> WidthsAgree(a, b)
  {
    LessCuts(a, b);
    if |a| == |b| {
      SameWidthIsNumeric(a, b);
    } else if |a| < |b| {
      LongerIsGreater(a, b);
      SameWidthIsNumeric(b[..|a|], a);
    } else {
      LongerIsGreater(b, a);
      SameWidthIsNumeric(a[..|b|], b);
    }
  }

  lemma CanonicalIsUnique(a: string, b: string)
    requires Canonical(a) && Canonical(b) && a != b
    ensures NumberOf(a) != NumberOf(b)
  {
    if |a| == |b| { SameWidthIsNumeric(a, b); }
    else if |a| < |b| { LongerIsGreater(a, b); }
    else { LongerIsGreater(b, a); }
  }

  // ---- IDs as pairs of numbers ----------------------------------------------------------------------------------

  predicate IsId(id: string) { DashAt(id) < |id| && Canonical(Ms(id)) && Canonical(Seq(id)) }

  ghost predicate Above(a: string, b: string)
    requires IsId(a) && IsId(b)
  {
    NumberOf(Ms(a)) > NumberOf(Ms(b)) || (NumberOf(Ms(a)) == NumberOf(Ms(b)) && NumberOf(Seq(a)) > NumberOf(Seq(b)))
  }

  lemma JoinIsId(ms: string, sequence: string)
    requires Canonical(ms) && Canonical(sequence)
    ensures IsId(Join(ms, sequence)) && Ms(Join(ms, sequence)) == ms && Seq(Join(ms, sequence)) == sequence
  {
    forall j | 0 <= j < |ms| ensures ms[j] != '-' { assert IsDigit(ms[j]); }
    SplitJoin(ms, sequence);
  }

  lemma DecIsCanonical(n: nat)
    ensures Canonical(Dec(n)) && NumberOf(Dec(n)) == n
  {
    ValueOfDec(n);
    if n == 0 { assert |Dec(0)| == 1; }
  }

  /** What a client may ask for: an explicit ID, or a sequence left to the server. */
  predicate IsRequest(r: string) {
    DashAt(r) < |r| && Canonical(Ms(r)) && (Seq(r) == "*" || Canonical(Seq(r)))
  }

  /** The comparison that XADD makes of this request and the top ID is one in which the widths agree. */
  predicate Comparable(r: string, top: string)
    requires IsRequest(r) && IsId(top)
  {
    if Ms(r) != Ms(top) then WidthsAgree(Ms(r), Ms(top))
    else Seq(r) == "*" || WidthsAgree(Seq(top), Seq(r))
  }

  /** What is asked for lies numerically above the top ID; for `ms-*`, not below it. */
  ghost predicate Fresh(r: string, top: string)
    requires IsRequest(r) && IsId(top)
  {
    if Seq(r) == "*" then NumberOf(Ms(r)) >= NumberOf(Ms(top)) else Above(r, top)
  }

  /** Exactly when XADD decides numerically: an explicit ID is accepted if and only if it is above the top one,
      and `ms-*` if and only if ms is not below, precisely for the comparable requests. */
  lemma DecidesNumericallyExactly(r: string, top: string, now: nat)
    requires IsRequest(r) && IsId(top)
    ensures (GenerateEntryId(r, Some(top), now).Some? <==> Fresh(r, top)) <==> Comparable(r, top)
  {
    hide NumberOf, Less, DashAt, Dec, AllDigits, Canonical, WidthsAgree;
    StarIsNoRequest();
    if Ms(r) != Ms(top) {
      StringOrderIsNumericExactly(Ms(r), Ms(top));
      CanonicalIsUnique(Ms(r), Ms(top));
    } else if Seq(r) != "*" {
      StringOrderIsNumericExactly(Seq(top), Seq(r));
    }
  }

  /** And what XADD then stores is a canonical ID above the top one, with the milliseconds asked for. */
  lemma AcceptsOnlyAbove(r: string, top: string, now: nat)
    requires IsRequest(r) && IsId(top) && Comparable(r, top)
    ensures var id := GenerateEntryId(r, Some(top), now);
            && (Seq(r) != "*" ==> IsId(r) && (id == if Above(r, top) then Some(r) else None))
            && (id.Some? ==> IsId(id.value) && Above(id.value, top) && Ms(id.value) == Ms(r))
  {
    hide NumberOf, Less, DashAt, Dec, AllDigits, WidthsAgree, Canonical, Join, Ms, Seq;
    DecidesNumericallyExactly(r, top, now);
    assert r != "*" by { StarIsNoRequest(); }
    if Seq(r) == "*" {
      NextSequence(r, top);
      if Ms(r) != Ms(top) { CanonicalIsUnique(Ms(r), Ms(top)); }
    }
  }

  /** The two IDs that `ms-*` can become. */
  lemma NextSequence(r: string, top: string)
    requires IsRequest(r) && IsId(top)
    ensures Successor(Seq(top)) == Dec(NumberOf(Seq(top)) + 1)
    ensures forall sequence :: sequence == Successor(Seq(top)) || sequence == "0" ==>
              IsId(Join(Ms(r), sequence)) && Ms(Join(Ms(r), sequence)) == Ms(r) && Seq(Join(Ms(r), sequence)) == sequence
    ensures NumberOf(Successor(Seq(top))) == NumberOf(Seq(top)) + 1
  {
    hide NumberOf, DashAt, Dec, AllDigits, Join, Ms, Seq;
    var next := NumberOf(Seq(top)) + 1;
    DecIsCanonical(next);
    DecIsCanonical(0);
    ZeroIsZero();
    JoinIsId(Ms(r), Dec(next));
    JoinIsId(Ms(r), Dec(0));
  }

  lemma ZeroIsZero()
    ensures Dec(0) == "0"
  {
  }

  lemma StarIsNoRequest()
    ensures !IsRequest("*")
  {
    assert DashAt("*") == 1;
  }

  /** Where the widths do not agree the order is lost in both directions. */
  lemma WidthsMatter(now: nat)
    ensures GenerateEntryId("10-0", Some("9-0"), now) == None
    ensures GenerateEntryId("9-0", Some("10-0"), now) == Some("9-0")
    ensures GenerateEntryId("1-10", Some("1-9"), now) == None
  {
    assert Ms("10-0") == "10" && Ms("9-0") == "9" && Ms("1-10") == "1" && Ms("1-9") == "1" by {
      assert DashAt("10-0") == 2 && DashAt("9-0") == 1 && DashAt("1-10") == 1 && DashAt("1-9") == 1;
    }
    assert Seq("1-10") == "10" && Seq("1-9") == "9" && Seq("10-0") == "0" && Seq("9-0") == "0";
  }

  // ---- runs of XADD -------------------------------------------------------------------------------------------------

  ghost predicate Increasing(entries: seq<Entry>) {
    && (forall i :: 0 <= i < |entries| ==> IsId(entries[i].id))
    && (forall i, j :: 0 <= i < j < |entries| ==> Above(entries[j].id, entries[i].id))
  }

  /** One XADD: the ID asked for, the fields, and the clock. */
  datatype Add = Add(request: string, fields: seq<string>, now: nat)

  /** `*` stands for the current millisecond. */
  function Expanded(a: Add): string { if a.request == "*" then Join(Dec(a.now), "*") else a.request }

  function Adds(s: Store, key: string, adds: seq<Add>): Store {
    if adds == [] then s
    else
      var last := adds[|adds| - 1];
      XAdd(last.now, Adds(s, key, adds[..|adds| - 1]), [key, last.request] + last.fields).store
  }

  /** XADD does not refuse the request. */
  predicate Accepted(a: Add, s: Store, key: string) {
    && |a.fields| >= 2 && a.request != "0-0" && IsStreamId(a.request) && (key in s.values ==> s.values[key].value.Stream?)
    && GenerateEntryId(a.request, TopId(EntriesAt(s, key)), a.now).Some?
  }

  /** If XADD accepts the request, it is canonical, and numerically above the top ID. */
  ghost predicate WellFormed(a: Add, s: Store, key: string) {
    var entries, r := EntriesAt(s, key), Expanded(a);
    Accepted(a, s, key) ==>
      IsRequest(r) && (entries != [] && IsId(entries[|entries| - 1].id) ==> Fresh(r, entries[|entries| - 1].id))
  }

  lemma FirstId(r: string, now: nat)
    requires IsRequest(r)
    ensures GenerateEntryId(r, None, now).Some? && IsId(GenerateEntryId(r, None, now).value)
  {
    hide NumberOf, Less, DashAt, Dec, AllDigits;
    StarIsNoRequest();
    if Seq(r) == "*" {
      assert Canonical("0") && Canonical("1") by { ZeroAndOne(); }
      JoinIsId(Ms(r), "0");
      JoinIsId(Ms(r), "1");
    }
  }

  lemma ZeroAndOne()
    ensures Canonical("0") && Canonical("1")
  {
  }

  lemma ExpansionIsHarmless(a: Add, top: Option<string>)
    requires IsRequest(Expanded(a))
    ensures GenerateEntryId(a.request, top, a.now) == GenerateEntryId(Expanded(a), top, a.now)
  {
    StarIsNoRequest();
  }

  lemma AppendIncreasing(entries: seq<Entry>, e: Entry)
    requires Increasing(entries) && IsId(e.id)
    requires entries != [] ==> Above(e.id, entries[|entries| - 1].id)
    ensures Increasing(entries + [e])
  {
    hide NumberOf, IsId, Ms, Seq;
    var longer := entries + [e];
    forall i, j | 0 <= i < j < |longer| ensures Above(longer[j].id, longer[i].id) {
      if j == |entries| && i < |entries| - 1 { assert Above(entries[|entries| - 1].id, entries[i].id); }
    }
  }

  /** What one XADD does to a stream: an accepted one appends one entry, a refused one changes nothing. */
  lemma XAddAppends(s: Store, key: string, a: Add)
    ensures var t := XAdd(a.now, s, [key, a.request] + a.fields).store;
            if Accepted(a, s, key) then
              EntriesAt(t, key) == EntriesAt(s, key)
                + [Entry(GenerateEntryId(a.request, TopId(EntriesAt(s, key)), a.now).value, a.fields)]
            else t == s
  {
    hide GenerateEntryId, IsStreamId, BulkReply, Error;
    var args := [key, a.request] + a.fields;
    var t := XAdd(a.now, s, args).store;
    assert args[2..] == a.fields;
    if Accepted(a, s, key) { assert t.Get(key).Some?; }
  }

  lemma NowIsARequest(now: nat)
    ensures IsRequest(Join(Dec(now), "*")) && Seq(Join(Dec(now), "*")) == "*"
  {
    hide Dec, NumberOf, DashAt, Join;
    DecIsCanonical(now);
    forall j | 0 <= j < |Dec(now)| ensures Dec(now)[j] != '-' { assert IsDigit(Dec(now)[j]); }
    SplitJoin(Dec(now), "*");
    assert DashAt(Join(Dec(now), "*")) < |Join(Dec(now), "*")| by { JoinHasDash(Dec(now), "*"); }
  }

  lemma JoinHasDash(ms: string, sequence: string)
    ensures DashAt(Join(ms, sequence)) < |Join(ms, sequence)|
  {
    assert Join(ms, sequence)[|ms|] == '-';
  }

  /** An ID that is canonical was asked for canonically. */
  lemma CanonicalRequest(a: Add, top: Option<string>)
    requires IsStreamId(a.request) && GenerateEntryId(a.request, top, a.now).Some?
    requires IsId(GenerateEntryId(a.request, top, a.now).value)
    ensures IsRequest(Expanded(a)) && Ms(GenerateEntryId(a.request, top, a.now).value) == Ms(Expanded(a))
    ensures Seq(Expanded(a)) != "*" ==> GenerateEntryId(a.request, top, a.now) == Some(Expanded(a))
  {
    hide Less, DashAt, Dec, AllDigits, Canonical, NumberOf, Join, Successor;
    var r := Expanded(a);
    if a.request == "*" { NowIsARequest(a.now); }
    forall sequence ensures Ms(Join(Ms(r), sequence)) == Ms(r) { MsOfJoin(Ms(r), sequence); }
  }

  lemma IncreasesWhenWellFormed(s: Store, key: string, a: Add)
    requires Increasing(EntriesAt(s, key))
    ensures Increasing(EntriesAt(XAdd(a.now, s, [key, a.request] + a.fields).store, key)) <==> WellFormed(a, s, key)
  {
    hide XAdd, EntriesAt, GenerateEntryId, IsRequest, IsId, Expanded, Above, Fresh, IsStreamId, Increasing;
    XAddAppends(s, key, a);
    if Accepted(a, s, key) {
      var entries := EntriesAt(s, key);
      var id := GenerateEntryId(a.request, TopId(entries), a.now).value;
      LastOfIncreasing(entries, Entry(id, a.fields));
      if WellFormed(a, s, key) {
        WellFormedIsAbove(s, key, a);
        AppendIncreasing(entries, Entry(id, a.fields));
      } else if IsId(id) {
        CanonicalRequest(a, TopId(entries));
        if entries != [] && Above(id, entries[|entries| - 1].id) { AboveIsFresh(a, entries[|entries| - 1].id); }
      }
    }
  }

  lemma LastOfIncreasing(entries: seq<Entry>, e: Entry)
    requires Increasing(entries)
    ensures entries != [] ==> IsId(entries[|entries| - 1].id)
    ensures Increasing(entries + [e]) ==> IsId(e.id) && (entries != [] ==> Above(e.id, entries[|entries| - 1].id))
  {
    hide NumberOf, IsId, Ms, Seq;
    assert (entries + [e])[|entries|] == e;
    if entries != [] { assert (entries + [e])[|entries| - 1] == entries[|entries| - 1]; }
  }

  lemma WellFormedIsAbove(s: Store, key: string, a: Add)
    requires Increasing(EntriesAt(s, key)) && Accepted(a, s, key) && WellFormed(a, s, key)
    ensures var entries := EntriesAt(s, key);
            var id := GenerateEntryId(a.request, TopId(entries), a.now).value;
            IsId(id) && (entries != [] ==> IsId(entries[|entries| - 1].id) && Above(id, entries[|entries| - 1].id))
  {
    hide EntriesAt, GenerateEntryId, IsRequest, IsId, Expanded, Above, Fresh, IsStreamId, Comparable;
    var entries := EntriesAt(s, key);
    ExpansionIsHarmless(a, TopId(entries));
    if entries == [] {
      FirstId(Expanded(a), a.now);
    } else {
      DecidesNumericallyExactly(Expanded(a), entries[|entries| - 1].id, a.now);
      AcceptsOnlyAbove(Expanded(a), entries[|entries| - 1].id, a.now);
    }
  }

  lemma AboveIsFresh(a: Add, top: string)
    requires IsStreamId(a.request) && IsId(top) && GenerateEntryId(a.request, Some(top), a.now).Some?
    requires IsId(GenerateEntryId(a.request, Some(top), a.now).value) && Above(GenerateEntryId(a.request, Some(top), a.now).value, top)
    ensures IsRequest(Expanded(a)) && Fresh(Expanded(a), top)
  {
    hide GenerateEntryId, IsStreamId, IsRequest, Expanded, NumberOf, Ms, Seq, IsId;
    CanonicalRequest(a, Some(top));
  }

  // ---- when a request does no harm, told before XADD decides ------------------------------------------------------

  /** XADD refuses the request for its form or for the type of the key, whatever the stream holds. */
  predicate Malformed(a: Add, s: Store, key: string) {
    |a.fields| < 2 || a.request == "0-0" || !IsStreamId(a.request) || (key in s.values && !s.values[key].value.Stream?)
  }

  /** The string comparison with the top ID refuses: for IDs that are not written canonically there is nothing better to
      look at. */
  predicate BelowAsText(r: string, top: string) {
    if Ms(r) == Ms(top) then Seq(r) != "*" && !Less(Seq(top), Seq(r)) else Less(Ms(r), Ms(top))
  }

  /** A canonical request does no harm to a stream with this top ID: its digits are as many as those it is compared with, or do
      not cross them, or it lies numerically above the top anyway. */
  ghost predicate Safe(r: string, top: string)
    requires IsRequest(r) && IsId(top)
  {
    Comparable(r, top) || Fresh(r, top)
  }

  ghost predicate Harmless(a: Add, s: Store, key: string) {
    var entries, r := EntriesAt(s, key), Expanded(a);
    Malformed(a, s, key)
    || (if entries == [] then IsRequest(r)
        else if IsRequest(r) then IsId(entries[|entries| - 1].id) && Safe(r, entries[|entries| - 1].id)
        else BelowAsText(r, entries[|entries| - 1].id))
  }

  lemma AcceptedByText(a: Add, top: string)
    requires IsStreamId(a.request)
    ensures GenerateEntryId(a.request, Some(top), a.now).Some? <==> !BelowAsText(Expanded(a), top)
  {
    hide Less, DashAt, Dec, Join, Successor;
    if a.request == "*" { NowIsARequest(a.now); }
  }

  lemma HarmlessIsWellFormed(s: Store, key: string, a: Add)
    requires Increasing(EntriesAt(s, key))
    ensures Harmless(a, s, key) <==> WellFormed(a, s, key)
  {
    hide EntriesAt, GenerateEntryId, IsRequest, IsId, Expanded, Fresh, Comparable, IsStreamId, Increasing, BelowAsText;
    var entries, r := EntriesAt(s, key), Expanded(a);
    if !Malformed(a, s, key) {
      if entries == [] {
        FirstIsAccepted(a);
      } else {
        var top := entries[|entries| - 1].id;
        LastOfIncreasing(entries, Entry(top, []));
        AcceptedByText(a, top);
        if IsRequest(r) {
          ExpansionIsHarmless(a, Some(top));
          DecidesNumericallyExactly(r, top, a.now);
        }
      }
    }
  }

  lemma FirstIsAccepted(a: Add)
    ensures GenerateEntryId(a.request, None, a.now).Some?
  {
    hide DashAt, Dec, Join;
  }

  /** One XADD keeps the IDs increasing exactly when it is harmless: for a canonical request to a stream, exactly when the
      widths of what is compared agree or the request lies numerically above the top ID. */
  lemma AddKeepsIncreasingExactly(s: Store, key: string, a: Add)
    requires Increasing(EntriesAt(s, key))
    ensures Increasing(EntriesAt(XAdd(a.now, s, [key, a.request] + a.fields).store, key)) <==> Harmless(a, s, key)
  {
    hide XAdd, EntriesAt, Increasing, WellFormed, Harmless;
    IncreasesWhenWellFormed(s, key, a);
    HarmlessIsWellFormed(s, key, a);
  }

  /** IDs of a live stream strictly increase as pairs of numbers, over a run of XADDs, exactly when every single request is
      harmless to the stream of its moment. */
  lemma {:induction false} IdsStrictlyIncreaseExactly(s: Store, key: string, adds: seq<Add>)
    requires Increasing(EntriesAt(s, key))
    ensures Increasing(EntriesAt(Adds(s, key, adds), key))
            <==> forall i :: 0 <= i < |adds| ==> Harmless(adds[i], Adds(s, key, adds[..i]), key)
    decreases adds
  {
    hide Increasing, XAdd, EntriesAt, Harmless, Adds;
    if adds == [] {
      NothingAdded(s, key);
    } else {
      var before, last := adds[..|adds| - 1], adds[|adds| - 1];
      var t := Adds(s, key, before);
      IdsStrictlyIncreaseExactly(s, key, before);
      AddsOneMore(s, key, before, last);
      assert adds == before + [last];
      AllAndLast(s, key, before, last);
      if Increasing(EntriesAt(t, key)) { AddKeepsIncreasingExactly(t, key, last); } else { NeverIncreasesAgain(t, key, last); }
    }
  }

  lemma NothingAdded(s: Store, key: string)
    ensures Adds(s, key, []) == s
  {
  }

  lemma AddsOneMore(s: Store, key: string, before: seq<Add>, last: Add)
    ensures Adds(s, key, before + [last]) == XAdd(last.now, Adds(s, key, before), [key, last.request] + last.fields).store
  {
    hide XAdd;
    assert (before + [last])[..|before|] == before;
  }

  lemma AllAndLast(s: Store, key: string, before: seq<Add>, last: Add)
    ensures var adds := before + [last];
            (forall i :: 0 <= i < |adds| ==> Harmless(adds[i], Adds(s, key, adds[..i]), key))
            <==> (forall i :: 0 <= i < |before| ==> Harmless(before[i], Adds(s, key, before[..i]), key))
                 && Harmless(last, Adds(s, key, before), key)
  {
    hide Harmless, Adds;
    var adds := before + [last];
    assert adds[..|before|] == before;
    assert forall i :: 0 <= i < |before| ==> adds[i] == before[i] && adds[..i] == before[..i];
  }

  /** The request is canonical, and comparing it with the top ID of this stream compares numbers whose widths agree. */
  predicate WidthsFit(a: Add, s: Store, key: string) {
    var entries := EntriesAt(s, key);
    IsRequest(Expanded(a))
    && (entries != [] && IsId(entries[|entries| - 1].id) ==> Comparable(Expanded(a), entries[|entries| - 1].id))
  }

  /** So while the widths agree, accepted or not, the IDs strictly increase over every run. */
  lemma {:induction false} AgreeingWidthsIncrease(s: Store, key: string, adds: seq<Add>)
    requires Increasing(EntriesAt(s, key))
    requires forall i :: 0 <= i < |adds| ==> WidthsFit(adds[i], Adds(s, key, adds[..i]), key)
    ensures Increasing(EntriesAt(Adds(s, key, adds), key))
    decreases adds
  {
    hide Increasing, XAdd, EntriesAt, Harmless, Adds, WidthsFit;
    if adds == [] {
      NothingAdded(s, key);
    } else {
      var before, last := adds[..|adds| - 1], adds[|adds| - 1];
      assert adds == before + [last];
      AllFitSoFar(s, key, before, last);
      AgreeingWidthsIncrease(s, key, before);
      AddsOneMore(s, key, before, last);
      FittingIsHarmless(last, Adds(s, key, before), key);
      AddKeepsIncreasingExactly(Adds(s, key, before), key, last);
    }
  }

  lemma AllFitSoFar(s: Store, key: string, before: seq<Add>, last: Add)
    requires var adds := before + [last]; forall i :: 0 <= i < |adds| ==> WidthsFit(adds[i], Adds(s, key, adds[..i]), key)
    ensures forall i :: 0 <= i < |before| ==> WidthsFit(before[i], Adds(s, key, before[..i]), key)
    ensures WidthsFit(last, Adds(s, key, before), key)
  {
    hide WidthsFit, Adds;
    var adds := before + [last];
    assert adds[|before|] == last && adds[..|before|] == before;
    forall i | 0 <= i < |before| ensures WidthsFit(before[i], Adds(s, key, before[..i]), key) {
      assert adds[i] == before[i] && adds[..i] == before[..i];
    }
  }

  lemma FittingIsHarmless(a: Add, s: Store, key: string)
    requires Increasing(EntriesAt(s, key)) && WidthsFit(a, s, key)
    ensures Harmless(a, s, key)
  {
    hide EntriesAt, IsRequest, IsId, Expanded, Fresh, Comparable, Malformed, BelowAsText, Increasing;
    var entries := EntriesAt(s, key);
    if entries != [] { LastOfIncreasing(entries, Entry(entries[|entries| - 1].id, [])); }
  }

  predicate TopHasWidth(s: Store, key: string, width: nat) {
    var entries := EntriesAt(s, key);
    entries != [] ==> |Ms(entries[|entries| - 1].id)| == width
  }

  lemma ServerIdKeepsWidth(s: Store, key: string, a: Add, width: nat)
    requires Increasing(EntriesAt(s, key)) && TopHasWidth(s, key, width) && a.request == "*" && |Dec(a.now)| == width
    ensures var t := XAdd(a.now, s, [key, a.request] + a.fields).store;
            Increasing(EntriesAt(t, key)) && TopHasWidth(t, key, width)
  {
    hide XAdd, EntriesAt, GenerateEntryId, Harmless, Increasing, DashAt, Dec, Join, NumberOf, Canonical, AllDigits;
    NowIsARequest(a.now);
    WidthOfNow(a.now);
    var entries := EntriesAt(s, key);
    if entries != [] { LastOfIncreasing(entries, Entry(entries[|entries| - 1].id, [])); }
    FittingIsHarmless(a, s, key);
    AddKeepsIncreasingExactly(s, key, a);
    XAddAppends(s, key, a);
    if Accepted(a, s, key) {
      LastOfIncreasing(entries, Entry(GenerateEntryId(a.request, TopId(entries), a.now).value, a.fields));
      CanonicalRequest(a, TopId(entries));
    }
  }

  lemma WidthOfNow(now: nat)
    ensures Ms(Join(Dec(now), "*")) == Dec(now)
  {
    hide Dec, DashAt, Join;
    forall j | 0 <= j < |Dec(now)| ensures Dec(now)[j] != '-' { assert IsDigit(Dec(now)[j]); }
    MsOfJoin(Dec(now), "*");
  }

  /** IDs left to the server strictly increase as long as the millisecond clock keeps its number of digits, which it does
      from 2001 to 2286; the clock may even go back. */
  lemma {:induction false} ServerIdsIncrease(s: Store, key: string, adds: seq<Add>, width: nat)
    requires Increasing(EntriesAt(s, key)) && TopHasWidth(s, key, width)
    requires forall i :: 0 <= i < |adds| ==> adds[i].request == "*" && |Dec(adds[i].now)| == width
    ensures Increasing(EntriesAt(Adds(s, key, adds), key)) && TopHasWidth(Adds(s, key, adds), key, width)
    decreases adds
  {
    hide Increasing, XAdd, EntriesAt, Adds, TopHasWidth, Dec;
    if adds == [] {
      NothingAdded(s, key);
    } else {
      var before, last := adds[..|adds| - 1], adds[|adds| - 1];
      assert adds == before + [last];
      ServerIdsIncrease(s, key, before, width);
      AddsOneMore(s, key, before, last);
      ServerIdKeepsWidth(Adds(s, key, before), key, last, width);
    }
  }

  lemma NeverIncreasesAgain(s: Store, key: string, a: Add)
    requires !Increasing(EntriesAt(s, key))
    ensures !Increasing(EntriesAt(XAdd(a.now, s, [key, a.request] + a.fields).store, key))
  {
    hide XAdd, EntriesAt, GenerateEntryId, Accepted, Increasing;
    XAddAppends(s, key, a);
    var entries, longer := EntriesAt(s, key), EntriesAt(XAdd(a.now, s, [key, a.request] + a.fields).store, key);
    if longer != entries && Increasing(longer) {
      assert longer[..|entries|] == entries;
      PrefixIncreasing(longer, |entries|);
    }
  }

  lemma PrefixIncreasing(entries: seq<Entry>, n: nat)
    requires Increasing(entries) && n <= |entries|
    ensures Increasing(entries[..n])
  {
  }
}
