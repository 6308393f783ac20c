/** The order PHP's `>` uses when it compares two non-numeric strings: byte-wise
    lexicographic order (characters compared by code point here). */
module StringOrder {

  /** True iff `a` sorts strictly before `b`: a proper prefix sorts first, otherwise
      the first differing character decides. */
  predicate Less(a: string, b: string): (r: bool)
    ensures r ==> b != ""
    ensures a == "" ==> (r <==> b != "")
    decreases |a|
  {
    if |a| == 0 then |b| > 0
    else if |b| == 0 then false
    else a[0] < b[0] || (a[0] == b[0] && Less(a[1..], b[1..]))
  }

  /** The empty string sorts before every other string and nothing sorts before it. */
  lemma EmptyIsLeast(s: string)
    ensures Less("", s) <==> s != ""
    ensures !Less(s, "")
  {
  }

  lemma {:induction false} LessIrreflexive(a: string)
    ensures !Less(a, a)
  {
    if |a| > 0 {
      LessIrreflexive(a[1..]);
    }
  }

  lemma {:induction false} LessTransitive(a: string, b: string, c: string)
    requires Less(a, b) && Less(b, c)
    ensures Less(a, c)
    decreases |a|
  {
    if |a| > 0 && |b| > 0 && |c| > 0 && a[0] == b[0] && b[0] == c[0] {
      LessTransitive(a[1..], b[1..], c[1..]);
    }
  }

  /** Two different strings are always ordered one way or the other. */
  lemma {:induction false} LessTotal(a: string, b: string)
    requires a != b
    ensures Less(a, b) || Less(b, a)
    decreases |a|
  {
    if |a| > 0 && |b| > 0 && a[0] == b[0] {
      assert a == [a[0]] + a[1..] && b == [b[0]] + b[1..];
      LessTotal(a[1..], b[1..]);
    }
  }
}
