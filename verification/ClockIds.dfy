/** IDs made from the clock, among all IDs as strings: which streams still take one. */
module ClockIds {
  import opened Text
  import opened Store
  import opened StreamIds
  import opened StreamOrder

  /** Of all clocks, the one that comes last as a string. */
  const LAST_CLOCK := "999999999999999"

  /** The clock written with k nines. */
  function Nines(k: nat): nat { if k == 0 then 0 else 10 * Nines(k - 1) + 9 }

  lemma {:induction false} DecNines(k: nat)
    requires k > 0
    ensures |Dec(Nines(k))| == k && forall i :: 0 <= i < k ==> Dec(Nines(k))[i] == '9'
    ensures Nines(k) + 1 == Pow10(k)
  {
    if k > 1 {
      DecNines(k - 1);
      assert Dec(Nines(k)) == Dec(Nines(k - 1)) + [DigitChar(9)];
    } else {
      assert Dec(9) == [DigitChar(9)];
      assert Pow10(1) == 10;
    }
  }

  lemma LastClockIsOne()
    ensures Dec(Nines(15)) == LAST_CLOCK && Nines(15) <= MAX_DATE
  {
    hide Dec, Nines, Pow10;
    DecNines(15);
    Powers();
  }

  lemma {:induction false} NothingAboveNines(nines: string, digits: string)
    requires (forall i :: 0 <= i < |nines| ==> nines[i] == '9') && AllDigits(digits) && |digits| <= |nines|
    ensures !Less(nines, digits)
    decreases |digits|
  {
    if digits != "" {
      assert IsDigit(digits[0]);
      NothingAboveNines(nines[1..], digits[1..]);
    }
  }

  /** The first digit tells how large a number at least is. */
  lemma {:induction false} FirstDigitCounts(s: string)
    requires AllDigits(s) && s != ""
    ensures NumberOf(s) >= DigitValue(s[0]) * Pow10(|s| - 1)
    decreases |s|
  {
    hide Pow10;
    var front := s[..|s| - 1];
    if |s| == 1 {
      assert front == "" && s[0] == s[|s| - 1];
      assert NumberOf(front) == 0;
      TenTimes(0);
    } else {
      FirstDigitCounts(front);
      TenTimes(|s| - 1);
      TimesTen(DigitValue(s[0]), Pow10(|s| - 2));
    }
  }

  lemma TenTimes(k: nat)
    ensures Pow10(k) == if k == 0 then 1 else 10 * Pow10(k - 1)
  {
  }

  lemma TimesTen(a: nat, b: nat)
    ensures (a * b) * 10 == a * (10 * b)
  {
  }

  lemma Powers()
    ensures Pow10(15) == 1000000000000000
  {
    assert Pow10(5) == 100000;
    assert Pow10(10) == 10000000000;
  }

  /** No clock comes after LAST_CLOCK: those with sixteen digits start with 8 or less. */
  lemma ClocksComeBefore(now: Clock)
    ensures !Less(LAST_CLOCK, Dec(now))
  {
    hide Less, Dec, NumberOf, Pow10;
    var d := Dec(now);
    ValueOfDec(now);
    Powers();
    FirstDigitCounts(d);
    if |d| <= 15 {
      NothingAboveNines(LAST_CLOCK, d);
    } else {
      PowGrows(15, |d| - 1);
      assert DigitValue(d[0]) <= 8 by { Bounded(DigitValue(d[0]), Pow10(|d| - 1), now); }
      FirstDecides(LAST_CLOCK, d);
    }
  }

  lemma Bounded(d: nat, power: nat, now: Clock)
    requires now >= d * power && power >= 1000000000000000
    ensures d <= 8
  {
    if d >= 9 { Multiplied(9, d, power); }
  }

  lemma Multiplied(a: nat, b: nat, power: nat)
    requires a <= b
    ensures a * power <= b * power
  {
  }

  lemma FirstDecides(a: string, b: string)
    requires a != "" && b != "" && b[0] < a[0]
    ensures !Less(a, b)
  {
  }

  /** Anything not after `last` is before everything that is after it. */
  lemma {:induction false} LessSkips(d: string, last: string, top: string)
    requires !Less(last, d) && Less(last, top)
    ensures Less(d, top) && d != top
    decreases |last|
  {
    if last != "" && d != "" && d[0] == last[0] == top[0] { LessSkips(d[1..], last[1..], top[1..]); }
  }

  lemma NowSplits(now: nat)
    ensures Ms(Join(Dec(now), "*")) == Dec(now) && Seq(Join(Dec(now), "*")) == "*"
  {
    hide Dec, DashAt, Join;
    NowIsARequest(now);
    WidthOfNow(now);
  }

  lemma NoClockIsAccepted(top: string, now: Clock)
    requires Less(LAST_CLOCK, Ms(top))
    ensures GenerateEntryId("*", Some(top), now) == None
  {
    hide Less, Dec, DashAt, Join, Ms, Seq, Successor;
    NowSplits(now);
    ClocksComeBefore(now);
    LessSkips(Dec(now), LAST_CLOCK, Ms(top));
  }

  /** The last clock is accepted by every other stream, with an ID that tells it. */
  lemma LastClockIsAccepted(top: string)
    requires !Less(LAST_CLOCK, Ms(top))
    ensures Nines(15) <= MAX_DATE
    ensures var id := GenerateEntryId("*", Some(top), Nines(15)); id.Some? && Ms(id.value) == LAST_CLOCK
  {
    hide Less, Dec, DashAt, Join, Ms, Seq, Successor, Nines;
    LastClockIsOne();
    NowSplits(Nines(15));
    forall sequence ensures Ms(Join(LAST_CLOCK, sequence)) == LAST_CLOCK { MsOfJoin(LAST_CLOCK, sequence); }
  }

  /** The ID of another clock tells that clock, if it is accepted at all. */
  lemma AcceptedTellsClock(top: Option<string>, now: Clock)
    requires GenerateEntryId("*", top, now).Some?
    ensures Ms(GenerateEntryId("*", top, now).value) == Dec(now)
  {
    hide Less, Dec, DashAt, Join, Ms, Seq, Successor;
    NowSplits(now);
    forall j | 0 <= j < |Dec(now)| ensures Dec(now)[j] != '-' { assert IsDigit(Dec(now)[j]); }
    forall sequence ensures Ms(Join(Dec(now), sequence)) == Dec(now) { MsOfJoin(Dec(now), sequence); }
  }
}
