/** Ranges over a stream: one filter serves XRANGE, XREVRANGE and XREAD. */
module StreamRanges {
  import opened Text
  import opened Store
  import opened Commands
  import opened StreamIds
  import opened StreamOrder

  // ---- the filter ---------------------------------------------------------------------------------------------

  /** The first two parts of `id.split("-").map(Number)`; None is NaN or undefined, and every comparison with
      it is false. */
  datatype Point = Point(ms: Option<nat>, sequence: Option<nat>)

  function PointOf(id: string): Point {
    var i := DashAt(id);
    Point(Number(Ms(id)), if i < |id| then Number(Ms(id[i + 1..])) else None)
  }

  predicate Over(a: Option<nat>, b: Option<nat>) { a.Some? && b.Some? && a.value > b.value }

  predicate Same(a: Option<nat>, b: Option<nat>) { a.Some? && b.Some? && a.value == b.value }

  predicate Beyond(p: Point, q: Point) { Over(p.ms, q.ms) || (Same(p.ms, q.ms) && Over(p.sequence, q.sequence)) }

  predicate AtOrBeyond(p: Point, q: Point) {
    Over(p.ms, q.ms) || (Same(p.ms, q.ms) && (Over(p.sequence, q.sequence) || Same(p.sequence, q.sequence)))
  }

  /** What "+" stands for. */
  function Sentinel(): string { "9999999999999-9999999" }

  predicate InRange(id: string, startId: string, endId: Option<string>) {
    var p := PointOf(id);
    if endId.Some? && endId.value != "" then
      var start := PointOf(if startId == "-" then "0-0" else startId);
      var end := PointOf(if endId.value == "+" then Sentinel() else endId.value);
      AtOrBeyond(p, start) && AtOrBeyond(end, p)
    else Beyond(p, PointOf(startId))
  }

  function GetEntryRange(entries: seq<Entry>, startId: string, endId: Option<string>): seq<Entry> {
    if entries == [] then []
    else (if InRange(entries[0].id, startId, endId) then [entries[0]] else []) + GetEntryRange(entries[1..], startId, endId)
  }

  function After(entries: seq<Entry>, id: string): seq<Entry> { GetEntryRange(entries, id, None) }

  // ---- slices ----------------------------------------------------------------------------------------------------

  lemma {:induction false} RangeOfSlice(entries: seq<Entry>, startId: string, endId: Option<string>, lo: nat, hi: nat)
    requires lo <= hi <= |entries|
    requires forall i :: 0 <= i < |entries| ==> (InRange(entries[i].id, startId, endId) <==> lo <= i < hi)
    ensures GetEntryRange(entries, startId, endId) == entries[lo..hi]
    decreases entries
  {
    hide InRange;
    if entries != [] {
      var rest := entries[1..];
      assert forall i :: 0 <= i < |rest| ==> rest[i] == entries[i + 1];
      if lo > 0 {
        RangeOfSlice(rest, startId, endId, lo - 1, hi - 1);
        assert entries[lo..hi] == rest[lo - 1..hi - 1];
      } else if hi > 0 {
        RangeOfSlice(rest, startId, endId, 0, hi - 1);
        assert entries[0..hi] == [entries[0]] + rest[0..hi - 1];
      } else {
        RangeOfSlice(rest, startId, endId, 0, 0);
      }
    }
  }

  lemma PointOfId(id: string)
    requires IsId(id)
    ensures PointOf(id) == Point(Some(NumberOf(Ms(id))), Some(NumberOf(Seq(id))))
  {
    hide NumberOf;
    var tail := Seq(id);
    forall j | 0 <= j < |tail| ensures tail[j] != '-' { assert IsDigit(tail[j]); }
    assert DashAt(tail) == |tail|;
    assert tail[..|tail|] == tail;
  }

  /** What the filter means for canonical IDs: inclusive numeric bounds with an end, and strictly above the
      start without one. */
  lemma InRangeIsNumeric(id: string, startId: string, endId: string)
    requires IsId(id) && IsId(startId) && IsId(endId)
    ensures InRange(id, startId, Some(endId)) <==> !Above(startId, id) && !Above(id, endId)
    ensures InRange(id, startId, None) <==> Above(id, startId)
  {
    hide NumberOf, PointOf;
    PointOfId(id);
    PointOfId(startId);
    PointOfId(endId);
    assert startId != "-" && endId != "+" && endId != "";
  }

  /** Going up the stream, an entry at or beyond a point is followed only by such entries, and likewise
      down the stream. */
  lemma BoundsAreMonotone(entries: seq<Entry>, i: nat, j: nat, q: Point)
    requires Increasing(entries) && i < j < |entries|
    ensures AtOrBeyond(PointOf(entries[i].id), q) ==> AtOrBeyond(PointOf(entries[j].id), q)
    ensures Beyond(PointOf(entries[i].id), q) ==> Beyond(PointOf(entries[j].id), q)
    ensures AtOrBeyond(q, PointOf(entries[j].id)) ==> AtOrBeyond(q, PointOf(entries[i].id))
  {
    hide PointOf, NumberOf, Ms, Seq, IsId;
    PointOfId(entries[i].id);
    PointOfId(entries[j].id);
    assert Above(entries[j].id, entries[i].id);
  }

  /** The first entry at or beyond the start, and the first one past the end. */
  ghost predicate IsSlice(entries: seq<Entry>, startId: string, endId: Option<string>, lo: nat, hi: nat) {
    lo <= hi <= |entries|
    && forall i :: 0 <= i < |entries| ==> (InRange(entries[i].id, startId, endId) <==> lo <= i < hi)
  }

  ghost predicate Convex(entries: seq<Entry>, startId: string, endId: Option<string>) {
    forall i, j, k :: 0 <= i <= j <= k < |entries| && InRange(entries[i].id, startId, endId) && InRange(entries[k].id, startId, endId)
                      ==> InRange(entries[j].id, startId, endId)
  }

  lemma RangesAreConvex(entries: seq<Entry>, startId: string, endId: Option<string>)
    requires Increasing(entries)
    ensures Convex(entries, startId, endId)
  {
    hide PointOf, AtOrBeyond, Beyond, Increasing;
    forall i, j, k | 0 <= i <= j <= k < |entries| && InRange(entries[i].id, startId, endId) && InRange(entries[k].id, startId, endId)
      ensures InRange(entries[j].id, startId, endId)
    {
      if endId.Some? && endId.value != "" {
        var start := PointOf(if startId == "-" then "0-0" else startId);
        var end := PointOf(if endId.value == "+" then Sentinel() else endId.value);
        if i < j { BoundsAreMonotone(entries, i, j, start); }
        if j < k { BoundsAreMonotone(entries, j, k, end); }
      } else if i < j {
        BoundsAreMonotone(entries, i, j, PointOf(startId));
      }
    }
  }

  lemma {:induction false} ConvexIsSlice(entries: seq<Entry>, startId: string, endId: Option<string>)
    requires Convex(entries, startId, endId)
    ensures exists lo: nat, hi: nat :: IsSlice(entries, startId, endId, lo, hi)
    decreases entries
  {
    hide InRange;
    if entries == [] {
      assert IsSlice(entries, startId, endId, 0, 0);
    } else {
      var n := |entries| - 1;
      ConvexIsSlice(entries[..n], startId, endId);
      var lo: nat, hi: nat :| IsSlice(entries[..n], startId, endId, lo, hi);
      if !InRange(entries[n].id, startId, endId) {
        assert IsSlice(entries, startId, endId, lo, hi);
      } else if lo == hi {
        assert IsSlice(entries, startId, endId, n, n + 1);
      } else {
        assert InRange(entries[..n][lo].id, startId, endId);
        assert forall j :: lo <= j <= n ==> InRange(entries[j].id, startId, endId);
        assert InRange(entries[..n][n - 1].id, startId, endId);
        assert IsSlice(entries, startId, endId, lo, n + 1);
      }
    }
  }

  /** Ranges are contiguous: on an increasing stream a range is one slice, which holds all the entries within the
      bounds and no other. */
  lemma RangeIsContiguous(entries: seq<Entry>, startId: string, endId: Option<string>)
    requires Increasing(entries)
    ensures exists lo: nat, hi: nat ::
              IsSlice(entries, startId, endId, lo, hi) && GetEntryRange(entries, startId, endId) == entries[lo..hi]
  {
    hide InRange, Increasing, Convex;
    RangesAreConvex(entries, startId, endId);
    ConvexIsSlice(entries, startId, endId);
    var lo: nat, hi: nat :| IsSlice(entries, startId, endId, lo, hi);
    RangeOfSlice(entries, startId, endId, lo, hi);
  }

  lemma {:induction false} NinesMean(s: string)
    requires forall i :: 0 <= i < |s| ==> s[i] == '9'
    ensures AllDigits(s) && NumberOf(s) + 1 == Pow10(|s|)
    decreases |s|
  {
    if s != "" { NinesMean(s[..|s| - 1]); }
  }

  lemma SentinelPoint()
    ensures PointOf(Sentinel()) == Point(Some(9999999999999), Some(9999999))
  {
    hide NumberOf;
    var ms, sequence := "9999999999999", "9999999";
    NinesMean(ms);
    NinesMean(sequence);
    assert Pow10(7) == 10000000;
    assert Pow10(10) == 10000000000;
    assert Pow10(13) == 10000000000000;
    assert Sentinel() == Join(ms, sequence);
    JoinIsId(ms, sequence);
    PointOfId(Sentinel());
  }

  /** Not above what "+" stands for. */
  ghost predicate UpToSentinel(id: string)
    requires IsId(id)
  {
    NumberOf(Ms(id)) < 9999999999999 || (NumberOf(Ms(id)) == 9999999999999 && NumberOf(Seq(id)) <= 9999999)
  }

  lemma UpToSentinelIsPoints(id: string)
    requires IsId(id)
    ensures UpToSentinel(id) <==> AtOrBeyond(PointOf(Sentinel()), PointOf(id))
  {
    hide NumberOf, PointOf, Sentinel;
    SentinelPoint();
    PointOfId(id);
  }

  /** "-" is a start from which everything follows, and "+" an end above all IDs up to a fixed one; an empty end asks
      for all above the start. The other way round they are no IDs: nothing lies beyond "+", and nothing but 0-0
      before "-". */
  lemma EndsOfStreams(id: string, bound: string)
    requires IsId(id) && IsId(bound)
    ensures InRange(id, "-", Some(bound)) <==> !Above(id, bound)
    ensures InRange(id, bound, Some("+")) <==> !Above(bound, id) && UpToSentinel(id)
    ensures !InRange(id, "+", Some(bound))
    ensures InRange(id, bound, Some("")) <==> Above(id, bound)
    ensures InRange(id, bound, Some("-")) ==> NumberOf(Ms(id)) == NumberOf(Seq(id)) == 0
  {
    hide NumberOf, PointOf, Sentinel, UpToSentinel;
    PointOfId(id);
    PointOfId(bound);
    ZeroPoint();
    SignPoints();
    UpToSentinelIsPoints(id);
    NotSigns(bound);
  }

  lemma NotSigns(id: string)
    requires IsId(id)
    ensures id != "-" && id != "+" && id != ""
  {
  }

  lemma SignPoints()
    ensures PointOf("-") == Point(Some(0), Some(0)) && PointOf("+").ms == None
  {
    assert DashAt("-") == 0 && "-"[..0] == "" && "-"[1..] == "";
    assert DashAt("+") == 1 && "+"[..1] == "+" && !IsDigit("+"[0]);
  }

  /** A bound without a sequence number leaves out every entry of its own millisecond, on either side. */
  lemma HalfIdsExclude(id: string, ms: nat, bound: string)
    requires IsId(id) && IsId(bound)
    ensures InRange(id, Dec(ms), Some(bound)) <==> NumberOf(Ms(id)) > ms && !Above(id, bound)
    ensures InRange(id, bound, Some(Dec(ms))) <==> NumberOf(Ms(id)) < ms && !Above(bound, id)
  {
    hide NumberOf, PointOf, Sentinel, Dec;
    PointOfId(id);
    PointOfId(bound);
    HalfPoint(ms);
    NotSigns(bound);
    assert IsDigit(Dec(ms)[0]);
  }

  lemma HalfPoint(ms: nat)
    ensures PointOf(Dec(ms)) == Point(Some(ms), None)
  {
    hide Dec;
    var s := Dec(ms);
    forall j | 0 <= j < |s| ensures s[j] != '-' { assert IsDigit(s[j]); }
    assert DashAt(s) == |s| && s[..|s|] == s;
    ValueOfDec(ms);
  }

  /** "- +" is the whole stream exactly when its top ID is not above the fixed one that stands for "+". */
  lemma FullRangeExactly(entries: seq<Entry>)
    requires Increasing(entries)
    ensures GetEntryRange(entries, "-", Some("+")) == entries
            <==> entries == [] || (IsId(entries[|entries| - 1].id) && UpToSentinel(entries[|entries| - 1].id))
  {
    hide PointOf, NumberOf, Sentinel, GetEntryRange, Increasing, Ms, Seq, IsId, UpToSentinel;
    ZeroPoint();
    var n := |entries|;
    if n > 0 { IdsOfIncreasing(entries, n - 1); UpToSentinelIsPoints(entries[n - 1].id); }
    forall i | 0 <= i < n
      ensures InRange(entries[i].id, "-", Some("+")) <==> AtOrBeyond(PointOf(Sentinel()), PointOf(entries[i].id))
    {
      IdsOfIncreasing(entries, i);
      PointOfId(entries[i].id);
    }
    if n == 0 {
      assert GetEntryRange(entries, "-", Some("+")) == entries by { NothingInRange(); }
    } else {
      if AtOrBeyond(PointOf(Sentinel()), PointOf(entries[n - 1].id)) {
        forall i | 0 <= i < n ensures InRange(entries[i].id, "-", Some("+")) {
          if i < n - 1 { BoundsAreMonotone(entries, i, n - 1, PointOf(Sentinel())); }
        }
        RangeOfSlice(entries, "-", Some("+"), 0, n);
        assert entries[0..n] == entries;
      } else {
        RangeKeepsOnlyMembers(entries, "-", Some("+"));
        assert entries[n - 1] in entries;
      }
    }
  }

  lemma NothingInRange()
    ensures GetEntryRange([], "-", Some("+")) == []
  {
  }

  lemma IdsOfIncreasing(entries: seq<Entry>, i: nat)
    requires Increasing(entries) && i < |entries|
    ensures IsId(entries[i].id)
  {
  }

  lemma {:induction false} RangeKeepsOnlyMembers(entries: seq<Entry>, startId: string, endId: Option<string>)
    ensures forall e :: e in GetEntryRange(entries, startId, endId) ==> e in entries && InRange(e.id, startId, endId)
    decreases entries
  {
    hide InRange;
    if entries != [] { RangeKeepsOnlyMembers(entries[1..], startId, endId); }
  }

  lemma ZeroPoint()
    ensures PointOf("0-0") == Point(Some(0), Some(0))
  {
    assert DashAt("0-0") == 1;
    assert Ms("0-0") == "0" && "0-0"[2..] == "0" && DashAt("0") == 1 && Ms("0") == "0";
    assert NumberOf("0") == 0 by { assert "0"[..0] == ""; }
  }

  // ---- XRANGE and XREVRANGE ---------------------------------------------------------------------------------------

  /** XRANGE on a stream key, or on none; None is an error reply. */
  function XRange(s: Store, args: seq<string>): Option<seq<Entry>> {
    if |args| < 3 then None else Some(GetEntryRange(EntriesAt(s, args[0]), args[1], Some(args[2])))
  }

  /** XREVRANGE key end start [COUNT n]. */
  function XRevRange(s: Store, args: seq<string>): Option<seq<Entry>> {
    if |args| < 3 then None
    else
      var reversed := Reverse(GetEntryRange(EntriesAt(s, args[0]), args[2], Some(args[1])));
      if |args| == 3 then Some(reversed)
      else if |args| < 5 || Upper(args[3]) != "COUNT" || args[4] == "" then None
      else
        match ParseInt(args[4])
        case None => None
        case Some(n) => if n < 0 then None else Some(reversed[..if n <= |reversed| then n else |reversed|])
  }

  /** XREVRANGE with COUNT n is the reverse of the last n entries of what XRANGE gives; with a COUNT not
      below the size of the range, and without COUNT, the reverse of all of it. */
  lemma XRevRangeMirrorsXRange(s: Store, key: string, startId: string, endId: string, count: nat)
    ensures var range := XRange(s, [key, startId, endId]).value;
            && XRevRange(s, [key, endId, startId]) == Some(Reverse(range))
            && XRevRange(s, [key, endId, startId, "COUNT", Dec(count)])
               == Some(Reverse(range[if count <= |range| then |range| - count else 0..]))
  {
    hide GetEntryRange, Reverse, EntriesAt, Dec, ParseInt;
    var range := XRange(s, [key, startId, endId]).value;
    assert Upper("COUNT") == "COUNT";
    ParseDec(count);
    var reversed := Reverse(range);
    var n := if count <= |range| then count else |range|;
    assert reversed[..n] == Reverse(range[|range| - n..]);
  }

  /** XREVRANGE is refused exactly when arguments are missing, or what follows the bounds is not COUNT, in any case,
      with a number that is not negative; XRANGE exactly when arguments are missing. */
  lemma RangesAreRefusedExactly(s: Store, args: seq<string>)
    ensures XRange(s, args) == None <==> |args| < 3
    ensures XRevRange(s, args) == None <==>
              |args| < 3 || |args| == 4
              || (|args| >= 5 && (Upper(args[3]) != "COUNT" || args[4] == "" || ParseInt(args[4]) == None || ParseInt(args[4]).value < 0))
    ensures XRevRange(s, args).Some? && |args| >= 5 ==>
              XRevRange(s, args) == XRevRange(s, args[..3] + ["COUNT", Dec(ParseInt(args[4]).value)])
  {
    hide GetEntryRange, EntriesAt, Dec, ParseInt, Reverse, Upper;
    if XRevRange(s, args).Some? && |args| >= 5 {
      var again := args[..3] + ["COUNT", Dec(ParseInt(args[4]).value)];
      ParseDec(ParseInt(args[4]).value);
      CountIsCount();
      assert |Dec(ParseInt(args[4]).value)| > 0;
      assert again[0] == args[0] && again[1] == args[1] && again[2] == args[2] && again[3] == "COUNT";
    }
  }

  lemma CountIsCount()
    ensures Upper("COUNT") == "COUNT"
  {
  }
}
