/** Stream entry IDs, which the server generates and compares as strings. */
module StreamIds {
  import opened Text

  // ---- strings -------------------------------------------------------------------------------

  /** JavaScript's `a < b` on strings. */
  predicate Less(a: string, b: string) {
    if b == "" then false
    else if a == "" then true
    else a[0] < b[0] || (a[0] == b[0] && Less(a[1..], b[1..]))
  }

  function DashAt(s: string): (i: nat)
    ensures i <= |s|
    ensures i < |s| ==> s[i] == '-'
    ensures forall j :: 0 <= j < i ==> s[j] != '-'
  {
    if s == "" || s[0] == '-' then 0
    else
      var i := 1 + DashAt(s[1..]);
      assert forall j :: 0 <= j < i ==> s[j] != '-' by {
        forall j | 0 <= j < i ensures s[j] != '-' { assert j > 0 ==> s[j] == s[1..][j - 1]; }
      }
      i
  }

  /** The two halves of `id.split("-")`. */
  function Ms(id: string): string { id[..DashAt(id)] }

  function Seq(id: string): string {
    var i := DashAt(id);
    if i < |id| then id[i + 1..] else ""
  }

  function Join(ms: string, sequence: string): string { ms + "-" + sequence }

  /** Joining two halves without a dash, and splitting again. */
  lemma SplitJoin(ms: string, sequence: string)
    requires '-' !in ms && '-' !in sequence
    ensures Ms(Join(ms, sequence)) == ms && Seq(Join(ms, sequence)) == sequence
  {
    var id := Join(ms, sequence);
    assert id[|ms|] == '-';
    assert forall j :: 0 <= j < |ms| ==> id[j] == ms[j];
    assert DashAt(id) == |ms|;
  }

  lemma MsOfJoin(ms: string, sequence: string)
    requires '-' !in ms
    ensures Ms(Join(ms, sequence)) == ms
  {
    var id := Join(ms, sequence);
    assert id[|ms|] == '-';
    assert forall j :: 0 <= j < |ms| ==> id[j] == ms[j];
    assert DashAt(id) == |ms|;
  }

  /** The pattern `^(?:\d+)-(?:\d+|[*])$|^[*]$`. */
  predicate IsStreamId(s: string) {
    s == "*"
    || (DashAt(s) < |s| && Ms(s) != "" && AllDigits(Ms(s)) && Seq(s) != "" && (Seq(s) == "*" || AllDigits(Seq(s))))
  }

  /** JavaScript's Number on digits; None is NaN. */
  function Number(s: string): Option<nat> {
    if AllDigits(s) then Some(NumberOf(s)) else None
  }

  function Successor(sequence: string): string {
    match Number(sequence)
    case Some(n) => Dec(n + 1)
    case None => "NaN"
  }

  /** generateEntryId. The clock matters only for a bare `*`. */
  function GenerateEntryId(requested: string, last: Option<string>, now: nat): Option<string> {
    var id := if requested == "*" then Join(Dec(now), "*") else requested;
    var ms, sequence := Ms(id), Seq(id);
    match last
    case None =>
      Some(if sequence != "*" then id else Join(ms, if ms == "0" then "1" else "0"))
    case Some(top) =>
      if Ms(top) == ms then
        if sequence == "*" then
          Some(Join(ms, Successor(Seq(top))))
        else if Less(Seq(top), sequence) then Some(id)
        else None
      else if Less(ms, Ms(top)) then None
      else if sequence == "*" then Some(Join(ms, "0"))
      else Some(id)
  }
}
