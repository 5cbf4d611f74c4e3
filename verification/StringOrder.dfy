/** The byte order of strings and sorting by it (sort.Strings). */
module StringOrder {
  import opened SqlText

  predicate StringLeq(a: string, b: string) {
    a == "" || (b != "" && (a[0] < b[0] || (a[0] == b[0] && StringLeq(a[1..], b[1..]))))
  }

  lemma {:induction false} LeqTotal(a: string, b: string)
    ensures StringLeq(a, b) || StringLeq(b, a)
  {
    if a != "" && b != "" { LeqTotal(a[1..], b[1..]); }
  }

  lemma {:induction false} LeqAntisymmetric(a: string, b: string)
    requires StringLeq(a, b) && StringLeq(b, a)
    ensures a == b
  {
    if a != "" {
      LeqAntisymmetric(a[1..], b[1..]);
      assert a == [a[0]] + a[1..] && b == [b[0]] + b[1..];
    }
  }

  lemma {:induction false} LeqTransitive(a: string, b: string, c: string)
    requires StringLeq(a, b) && StringLeq(b, c)
    ensures StringLeq(a, c)
  {
    if a != "" && a[0] == b[0] && b[0] == c[0] { LeqTransitive(a[1..], b[1..], c[1..]); }
  }

  lemma FirstAgrees<T>(a: seq<T>, b: seq<T>, k: nat)
    requires 0 < k <= |a| && k <= |b| && a[..k] == b[..k]
    ensures a[0] == b[0]
  {
    assert a[..k][0] == a[0] && b[..k][0] == b[0];
  }

  /** The order is that of the first difference, a beginning before the whole. */
  lemma {:induction false} LeqMeans(a: string, b: string)
    ensures StringLeq(a, b) <==> a <= b || exists k :: 0 <= k < |a| && k < |b| && a[..k] == b[..k] && a[k] < b[k]
  {
    if a != "" && b != "" {
      if a[0] == b[0] {
        LeqMeans(a[1..], b[1..]);
        LaterDifference(a, b);
      } else if k :| 0 <= k < |a| && k < |b| && a[..k] == b[..k] && a[k] < b[k] {
        if k > 0 { FirstAgrees(a, b, k); }
      }
      assert a[..0] == b[..0];
    }
  }

  lemma LaterDifference(a: string, b: string)
    requires a != "" && b != "" && a[0] == b[0]
    ensures a[1..] <= b[1..] <==> a <= b
    ensures (exists k :: 0 <= k < |a[1..]| && k < |b[1..]| && a[1..][..k] == b[1..][..k] && a[1..][k] < b[1..][k])
            <==> exists k :: 0 <= k < |a| && k < |b| && a[..k] == b[..k] && a[k] < b[k]
  {
    assert a == [a[0]] + a[1..] && b == [b[0]] + b[1..];
    if k :| 0 <= k < |a[1..]| && k < |b[1..]| && a[1..][..k] == b[1..][..k] && a[1..][k] < b[1..][k] {
      assert a[..k + 1] == [a[0]] + a[1..][..k] && b[..k + 1] == [b[0]] + b[1..][..k];
      assert a[k + 1] < b[k + 1];
    }
    if k :| 0 <= k < |a| && k < |b| && a[..k] == b[..k] && a[k] < b[k] {
      assert k > 0;
      assert a[1..][..k - 1] == a[..k][1..] && b[1..][..k - 1] == b[..k][1..];
      assert a[1..][k - 1] < b[1..][k - 1];
    }
  }

  lemma {:induction false} NumberIsBelow(a: string)
    requires AllDigits(a)
    ensures Number(a) < Pow10(|a|)
  {
    if a != "" { NumberIsBelow(a[..|a| - 1]); }
  }

  lemma LeadingDigit(a: string)
    requires AllDigits(a) && a != ""
    ensures Number(a) == (a[0] as int - '0' as int) * Pow10(|a| - 1) + Number(a[1..]) && Number(a[1..]) < Pow10(|a| - 1)
  {
    var first := [a[0]];
    assert a == first + a[1..];
    OneDigit(a[0]);
    NumberConcat(first, a[1..]);
    NumberIsBelow(a[1..]);
  }

  lemma OneDigit(c: char)
    requires IsDigit(c)
    ensures AllDigits([c]) && Number([c]) == c as int - '0' as int
  {
    assert [c][..0] == "";
  }

  lemma DigitDecides(x: nat, y: nat, p: nat, m: nat, n: nat)
    requires x < y && m < p && n < p
    ensures x * p + m < y * p + n
  {
    Distributes(x, y - x, p);
    AtLeastOnce(y - x, p);
  }

  lemma Distributes(x: nat, d: nat, p: nat)
    ensures (x + d) * p == x * p + d * p
  {}

  lemma AtLeastOnce(d: nat, p: nat)
    requires d >= 1
    ensures d * p >= p
  {}

  /** Numbers of equal length, such as timestamps, are ordered as numbers. */
  lemma {:induction false} LeqOfNumbers(a: string, b: string)
    requires AllDigits(a) && AllDigits(b) && |a| == |b|
    ensures StringLeq(a, b) <==> Number(a) <= Number(b)
  {
    if a != "" {
      LeadingDigit(a);
      LeadingDigit(b);
      var x, y: int := a[0] as int - '0' as int, b[0] as int - '0' as int;
      if a[0] == b[0] {
        LeqOfNumbers(a[1..], b[1..]);
      } else if a[0] < b[0] {
        DigitDecides(x, y, Pow10(|a| - 1), Number(a[1..]), Number(b[1..]));
      } else {
        DigitDecides(y, x, Pow10(|a| - 1), Number(b[1..]), Number(a[1..]));
      }
    }
  }

  predicate SortedStrings(s: seq<string>) {
    forall i, j :: 0 <= i < j < |s| ==> StringLeq(s[i], s[j])
  }

  function Insert(s: seq<string>, x: string): seq<string> {
    if s == [] || StringLeq(x, s[0]) then [x] + s else [s[0]] + Insert(s[1..], x)
  }

  lemma {:induction false} InsertAdds(s: seq<string>, x: string)
    ensures multiset(Insert(s, x)) == multiset(s) + multiset{x}
  {
    if s != [] && !StringLeq(x, s[0]) {
      InsertAdds(s[1..], x);
      assert s == [s[0]] + s[1..];
    }
  }

  lemma InsertMembers(s: seq<string>, x: string)
    ensures forall y :: y in Insert(s, x) <==> y in s || y == x
  {
    InsertAdds(s, x);
    forall y ensures y in Insert(s, x) <==> y in s || y == x {
      assert y in Insert(s, x) <==> y in multiset(Insert(s, x));
    }
  }

  lemma SortedFromHead(x: string, s: seq<string>)
    requires SortedStrings(s) && forall y :: y in s ==> StringLeq(x, y)
    ensures SortedStrings([x] + s)
  {
    assert forall j :: 0 <= j < |s| ==> s[j] in s;
  }

  lemma {:induction false} InsertSorts(s: seq<string>, x: string)
    requires SortedStrings(s)
    ensures SortedStrings(Insert(s, x))
  {
    if s == [] {
    } else if StringLeq(x, s[0]) {
      forall y | y in s ensures StringLeq(x, y) {
        var j :| 0 <= j < |s| && s[j] == y;
        if j > 0 { LeqTransitive(x, s[0], s[j]); }
      }
      SortedFromHead(x, s);
    } else {
      LeqTotal(x, s[0]);
      InsertSorts(s[1..], x);
      InsertMembers(s[1..], x);
      forall y | y in Insert(s[1..], x) ensures StringLeq(s[0], y) {
        if y != x {
          var j :| 0 <= j < |s[1..]| && s[1..][j] == y;
          assert s[j + 1] == y;
        }
      }
      SortedFromHead(s[0], Insert(s[1..], x));
    }
  }

  /** sort.Strings. */
  function SortStrings(s: seq<string>): seq<string> {
    if s == [] then [] else Insert(SortStrings(s[1..]), s[0])
  }

  /** A sorted permutation. */
  lemma {:induction false} SortStringsSorts(s: seq<string>)
    ensures SortedStrings(SortStrings(s)) && multiset(SortStrings(s)) == multiset(s)
  {
    if s != [] {
      SortStringsSorts(s[1..]);
      InsertSorts(SortStrings(s[1..]), s[0]);
      InsertAdds(SortStrings(s[1..]), s[0]);
      assert s == [s[0]] + s[1..];
    }
  }

  /** Lexicographic order on lists of strings. */
  predicate ListLeq(a: seq<string>, b: seq<string>) {
    a == [] || (b != [] && ((a[0] != b[0] && StringLeq(a[0], b[0])) || (a[0] == b[0] && ListLeq(a[1..], b[1..]))))
  }

  /** The order of lists is that of the first difference too. */
  lemma {:induction false} ListLeqMeans(a: seq<string>, b: seq<string>)
    ensures ListLeq(a, b) <==> a <= b || exists k :: DiffersAt(a, b, k) && StringLeq(a[k], b[k])
  {
    if a != [] && b != [] {
      assert a == [a[0]] + a[1..] && b == [b[0]] + b[1..];
      if a[0] == b[0] {
        ListLeqMeans(a[1..], b[1..]);
        if k :| DiffersAt(a[1..], b[1..], k) && StringLeq(a[1..][k], b[1..][k]) {
          assert a[..k + 1] == [a[0]] + a[1..][..k] && b[..k + 1] == [b[0]] + b[1..][..k];
          assert DiffersAt(a, b, k + 1);
        }
        if k :| DiffersAt(a, b, k) && StringLeq(a[k], b[k]) {
          assert a[1..][..k - 1] == a[..k][1..] && b[1..][..k - 1] == b[..k][1..];
          assert DiffersAt(a[1..], b[1..], k - 1);
        }
      } else {
        assert DiffersAt(a, b, 0);
        if k :| DiffersAt(a, b, k) && k > 0 { FirstAgrees(a, b, k); }
      }
    }
  }

  predicate DiffersAt(a: seq<string>, b: seq<string>, k: int) {
    0 <= k < |a| && k < |b| && a[..k] == b[..k] && a[k] != b[k]
  }

  /** Enough to compare at the first difference. */
  lemma {:induction false} FirstDifferenceDecides(a: seq<string>, b: seq<string>, k: nat)
    requires k < |a| && k < |b| && a[..k] == b[..k] && a[k] != b[k] && StringLeq(a[k], b[k])
    ensures ListLeq(a, b)
  {
    if k > 0 {
      assert a[0] == a[..k][0] == b[..k][0] == b[0];
      assert a[1..][..k - 1] == a[..k][1..] == b[..k][1..] == b[1..][..k - 1];
      FirstDifferenceDecides(a[1..], b[1..], k - 1);
    }
  }

  lemma {:induction false} ListLeqReflexive(a: seq<string>)
    ensures ListLeq(a, a)
  {
    if a != [] { ListLeqReflexive(a[1..]); }
  }
}
