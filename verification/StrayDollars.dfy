/** Exactly which texts survive renumbering (query/subquery.go:115-126).

    A dollar sign is hit by the step for k when its digits begin with those of
    k. The first wrong step puts a larger number in place of k behind some
    dollar sign; from then on the digits there only grow, by amounts that never
    add up to what was meant.
 */
module StrayDollars {
  import opened Options
  import opened SqlText
  import opened Renumbering
  import opened QueryTree
  import opened QueryMeaning

  function Dollars(s: string): nat {
    if s == "" then 0 else (if s[0] == '$' then 1 else 0) + Dollars(s[1..])
  }

  /** The digits a string begins with. */
  function Lead(s: string): string {
    if s == "" || !IsDigit(s[0]) then "" else [s[0]] + Lead(s[1..])
  }

  lemma {:induction false} DollarsConcat(a: string, b: string)
    ensures Dollars(a + b) == Dollars(a) + Dollars(b)
  {
    if a == "" {
      assert a + b == b;
    } else {
      assert (a + b)[1..] == a[1..] + b;
      DollarsConcat(a[1..], b);
    }
  }

  lemma {:induction false} DigitsHoldNoDollar(s: string)
    requires AllDigits(s)
    ensures Dollars(s) == 0
  {
    if s != "" { DigitsHoldNoDollar(s[1..]); }
  }

  lemma {:induction false} LeadOf(digits: string, rest: string)
    requires AllDigits(digits)
    ensures Lead(digits + rest) == digits + Lead(rest)
  {
    if digits == "" {
      assert digits + rest == rest;
    } else {
      assert (digits + rest)[1..] == digits[1..] + rest;
      LeadOf(digits[1..], rest);
      assert digits == [digits[0]] + digits[1..];
    }
  }

  // --------------------------------------------------- numbers

  lemma PrefixIsNoLarger(a: string, b: string)
    requires AllDigits(a) && AllDigits(b)
    ensures Number(a) <= Number(a + b)
  {
    NumberConcat(a, b);
    AtLeast(Number(a), Pow10(|b|));
  }

  lemma AtLeast(a: nat, p: nat)
    requires p >= 1
    ensures a * p >= a
  {}

  // --------------------------------------------------- one replacement

  /** A pattern with one dollar sign, in front. */
  predicate DollarFirst(pat: string) {
    pat != "" && pat[0] == '$' && forall i :: 1 <= i < |pat| ==> pat[i] != '$'
  }

  /** A replacement either stays before a dollar sign or leaves what is before
      it alone. */
  lemma {:induction false} ReplaceBeforeOrBehind(l: string, m: string, pat: string, new_: string)
    requires DollarFirst(pat) && m != "" && m[0] == '$'
    ensures ReplaceFirst(l + m, pat, new_) == ReplaceFirst(l, pat, new_) + m || ReplaceFirst(l + m, pat, new_) == l + ReplaceFirst(m, pat, new_)
  {
    if l == "" {
      assert l + m == m && l + ReplaceFirst(m, pat, new_) == ReplaceFirst(m, pat, new_);
    } else if pat <= l + m {
      HitsFit(l, m, pat);
      assert (l + m)[|pat|..] == l[|pat|..] + m;
    } else {
      ReplaceBeforeOrBehind(l[1..], m, pat, new_);
      PrefixStays(l, m, pat);
      FirstStays(l, m, pat, new_);
    }
  }

  lemma FirstStays(l: string, m: string, pat: string, new_: string)
    requires l != "" && !(pat <= l + m) && !(pat <= l)
    ensures ReplaceFirst(l + m, pat, new_) == [l[0]] + ReplaceFirst(l[1..] + m, pat, new_)
    ensures ReplaceFirst(l, pat, new_) + m == [l[0]] + (ReplaceFirst(l[1..], pat, new_) + m)
    ensures l + ReplaceFirst(m, pat, new_) == [l[0]] + (l[1..] + ReplaceFirst(m, pat, new_))
  {
    assert (l + m)[1..] == l[1..] + m && (l + m)[0] == l[0];
  }

  lemma PrefixStays(l: string, m: string, pat: string)
    ensures pat <= l ==> pat <= l + m
  {}

  lemma HitsFit(l: string, m: string, pat: string)
    requires l != "" && m != "" && m[0] == '$' && pat <= l + m && DollarFirst(pat)
    ensures pat <= l
  {
    assert (l + m)[|l|] == '$';
  }

  lemma {:induction false} ReplaceKeepsDollars(s: string, digits: string, newDigits: string)
    requires AllDigits(digits) && AllDigits(newDigits)
    ensures Dollars(ReplaceFirst(s, "$" + digits, "$" + newDigits)) == Dollars(s)
  {
    var pat, new_ := "$" + digits, "$" + newDigits;
    if pat <= s {
      assert s == pat + s[|pat|..];
      SameDollars(digits, newDigits, s[|pat|..]);
    } else if s != "" {
      ReplaceKeepsDollars(s[1..], digits, newDigits);
      DollarsConcat([s[0]], s[1..]);
      DollarsConcat([s[0]], ReplaceFirst(s[1..], pat, new_));
      assert s == [s[0]] + s[1..];
    }
  }

  lemma SameDollars(digits: string, newDigits: string, rest: string)
    requires AllDigits(digits) && AllDigits(newDigits)
    ensures Dollars("$" + digits + rest) == Dollars("$" + newDigits + rest)
  {
    DigitsHoldNoDollar(digits);
    DigitsHoldNoDollar(newDigits);
    DollarsConcat("$" + digits, rest);
    DollarsConcat("$" + newDigits, rest);
    DollarsConcat("$", digits);
    DollarsConcat("$", newDigits);
  }

  lemma {:induction false} ReplaceKeepsLead(s: string, digits: string, newDigits: string)
    ensures Lead(ReplaceFirst(s, "$" + digits, "$" + newDigits)) == Lead(s)
  {
    if !("$" + digits <= s) && s != "" {
      ReplaceKeepsLead(s[1..], digits, newDigits);
    }
  }

  // --------------------------------------------------- wrong once, wrong for ever

  /** Digits that were k and became k + x by a wrong step: k + x + 10xm. */
  predicate Off(run: string, m: nat, k: nat, x: nat) {
    AllDigits(run) && Number(run) == k + x + 10 * x * m
  }

  lemma GrownIsOff(run: string, k: nat, x: nat, m: nat, hit: nat) returns (rest: string, m': nat)
    requires Off(run, m, k, x) && hit < k && Decimal(hit) <= run && |Decimal(hit)| < |run|
    ensures run == Decimal(hit) + rest && Off(Decimal(hit + x) + rest, m', k, x)
  {
    rest := run[|Decimal(hit)|..];
    NumberConcat(Decimal(hit), rest);
    NumberConcat(Decimal(hit + x), rest);
    NumberOfDecimal(hit);
    NumberOfDecimal(hit + x);
    var p := Pow10(|rest| - 1);
    m' := m + p;
    assert run == Decimal(hit) + rest;
    Grows(hit, x, Pow10(|rest|), p, m);
  }

  lemma Grows(hit: nat, x: nat, q: nat, p: nat, m: nat)
    requires q == 10 * p
    ensures (hit + x) * q == hit * q + 10 * x * p && 10 * x * (m + p) == 10 * x * m + 10 * x * p
  {}

  /** Smaller numbers do not reach beyond the digits that are off. */
  lemma HitIsShort(run: string, rest: string, hit: nat)
    requires AllDigits(run) && Number(run) > hit && Decimal(hit) <= run + rest
    ensures |Decimal(hit)| < |run| && Decimal(hit) <= run
  {
    if |Decimal(hit)| >= |run| {
      var d := Decimal(hit);
      assert d == run + d[|run|..];
      PrefixIsNoLarger(run, d[|run|..]);
      NumberOfDecimal(hit);
    }
  }

  lemma OffHere(run: string, rest: string, m: nat, k: nat, x: nat, hit: nat) returns (run': string, rest': string, m': nat)
    requires Off(run, m, k, x) && hit < k && x >= 1
    ensures Off(run', m', k, x) && Lead(rest') == Lead(rest)
    ensures ReplaceFirst("$" + (run + rest), "$" + Decimal(hit), "$" + Decimal(hit + x)) == "$" + (run' + rest')
  {
    var pat, new_ := "$" + Decimal(hit), "$" + Decimal(hit + x);
    var s := "$" + (run + rest);
    assert s[1..] == run + rest && pat[1..] == Decimal(hit);
    if pat <= s {
      assert pat[1..] <= s[1..];
      AtLeast(10 * x, 1);
      HitIsShort(run, rest, hit);
      var tail;
      tail, m' := GrownIsOff(run, k, x, m, hit);
      run', rest' := Decimal(hit + x) + tail, rest;
      Regroup("$", Decimal(hit), tail, rest);
      Regroup("$", Decimal(hit + x), tail, rest);
      ReplaceAtFront(pat, tail + rest, new_);
    } else {
      run', rest', m' := run, ReplaceFirst(rest, pat, new_), m;
      ReplaceSkips(run, rest, pat, new_);
      ReplaceKeepsLead(rest, Decimal(hit), Decimal(hit + x));
    }
  }

  /** A text whose digits behind one dollar sign are off. */
  ghost predicate OffAt(s: string, front: string, run: string, rest: string, m: nat, k: nat, x: nat) {
    s == front + ("$" + (run + rest)) && Off(run, m, k, x)
  }

  lemma StepStaysOff(front: string, run: string, rest: string, m: nat, k: nat, x: nat, hit: nat)
    returns (front': string, run': string, rest': string, m': nat)
    requires Off(run, m, k, x) && hit < k && x >= 1
    ensures OffAt(ReplaceFirst(front + ("$" + (run + rest)), "$" + Decimal(hit), "$" + Decimal(hit + x)), front', run', rest', m', k, x)
    ensures Dollars(front') == Dollars(front) && Lead(rest') == Lead(rest)
  {
    var pat, new_ := "$" + Decimal(hit), "$" + Decimal(hit + x);
    var behind := "$" + (run + rest);
    ReplaceBeforeOrBehind(front, behind, pat, new_);
    if ReplaceFirst(front + behind, pat, new_) == ReplaceFirst(front, pat, new_) + behind {
      ReplaceKeepsDollars(front, Decimal(hit), Decimal(hit + x));
      return ReplaceFirst(front, pat, new_), run, rest, m;
    }
    front' := front;
    run', rest', m' := OffHere(run, rest, m, k, x, hit);
  }

  lemma {:induction false} StaysOff(front: string, run: string, rest: string, m: nat, k: nat, start: nat, left: nat)
    returns (front': string, run': string, rest': string, m': nat)
    requires start >= 2 && Off(run, m, k, start - 1) && left < k
    ensures OffAt(Renumber(Postgres, front + ("$" + (run + rest)), left, start), front', run', rest', m', k, start - 1)
    ensures Dollars(front') == Dollars(front) && Lead(rest') == Lead(rest)
    decreases left
  {
    if left == 0 {
      return front, run, rest, m;
    }
    var f, r, e, n := StepStaysOff(front, run, rest, m, k, start - 1, left);
    assert start - 1 + left == start + left - 1;
    front', run', rest', m' := StaysOff(f, r, e, n, k, start, left - 1);
  }

  // --------------------------------------------------- the first wrong hit

  /** The step for k replaces what stands between these two. */
  ghost predicate Hits(s: string, k: nat, front: string, rest: string) {
    && s == front + ("$" + (Decimal(k) + rest))
    && forall new_ :: ReplaceFirst(s, "$" + Decimal(k), new_) == front + (new_ + rest)
  }

  /** What is meant to stand there: the k is followed by as many digits, but it
      is k itself, or the digits of a placeholder that were raised by x. */
  ghost predicate Meant(s: string, front: string, run: string, rest: string, k: nat, x: nat, gap: nat) {
    s == front + ("$" + (run + rest)) && AllDigits(run) && Number(run) == k + x * (10 * gap)
  }

  lemma Joined(a: string, b: string)
    ensures ("$" + a) + b == "$" + (a + b)
  {}

  lemma HitAtFront(k: nat, rest: string)
    ensures Hits("$" + (Decimal(k) + rest), k, "", rest)
  {
    ReplacedAtFront("$" + Decimal(k), rest);
    Joined(Decimal(k), rest);
    assert "" + ("$" + (Decimal(k) + rest)) == "$" + (Decimal(k) + rest);
  }

  lemma ReplacedAtFront(pat: string, rest: string)
    ensures forall new_ :: ReplaceFirst(pat + rest, pat, new_) == "" + (new_ + rest)
  {
    forall new_ ensures ReplaceFirst(pat + rest, pat, new_) == "" + (new_ + rest) {
      ReplaceAtFront(pat, rest, new_);
      assert "" + (new_ + rest) == new_ + rest;
    }
  }

  lemma HitBehind(before: string, s: string, k: nat, front: string, rest: string)
    requires Hits(s, k, front, rest)
    requires forall new_ :: ReplaceFirst(before + s, "$" + Decimal(k), new_) == before + ReplaceFirst(s, "$" + Decimal(k), new_)
    ensures Hits(before + s, k, before + front, rest)
  {
    forall new_ ensures ReplaceFirst(before + s, "$" + Decimal(k), new_) == before + front + (new_ + rest) {
      assert before + (front + (new_ + rest)) == before + front + (new_ + rest);
    }
    assert before + (front + ("$" + (Decimal(k) + rest))) == before + front + ("$" + (Decimal(k) + rest));
  }

  lemma MeantBehind(before: string, s: string, front: string, run: string, rest: string, k: nat, x: nat, gap: nat)
    requires Meant(s, front, run, rest, k, x, gap)
    ensures Meant(before + s, before + front, run, rest, k, x, gap)
  {
    assert before + (front + ("$" + (run + rest))) == before + front + ("$" + (run + rest));
  }

  /** Digits k printed behind a dollar sign, of which the first belong to a
      placeholder or to none. */
  lemma SplitDigits(digits: string, lead: string, k: nat) returns (own: string, more: string)
    requires AllDigits(digits) && AllDigits(lead) && Decimal(k) <= digits + lead && |digits| <= |Decimal(k)|
    ensures Decimal(k) == digits + own && lead == own + more && AllDigits(own) && AllDigits(more)
  {
    own := Decimal(k)[|digits|..];
    more := lead[|own|..];
    assert (digits + lead)[..|digits|] == digits && (digits + lead)[|digits|..|Decimal(k)|] == lead[..|own|];
    assert Decimal(k) == (digits + lead)[..|Decimal(k)|];
    assert own == lead[..|own|];
  }

  lemma FourPieces(digits: string, own: string, more: string, rest: string)
    ensures "$" + digits + ((own + more) + rest) == "$" + ((digits + own) + (more + rest))
  {}

  lemma SameLead(more: string, a: string, b: string)
    requires AllDigits(more) && !StartsWithDigit(a) && !StartsWithDigit(b)
    ensures Lead(more + a) == Lead(more + b)
  {
    LeadOf(more, a);
    LeadOf(more, b);
  }

  /** The digits begin right here. */
  lemma HitHere(digits: string, raised: string, t: Inline, nums: seq<nat>, p: nat, k: nat, x: nat, gap: nat)
    returns (rest: string, run: string, tail: string)
    requires |nums| == |Values(t)| && AllDigits(digits) && AllDigits(raised)
    requires Decimal(k) <= digits + LeadingDigits(t) && |digits| <= |Decimal(k)|
    requires Number(raised + Decimal(k)[|digits|..]) == k + x * (10 * gap)
    ensures Hits("$" + digits + FillWith(Postgres, t, nums), k, "", rest)
    ensures Meant("$" + raised + Fill(Postgres, t, p), "", run, tail, k, x, gap) && Lead(tail) == Lead(rest)
  {
    var own, more := SplitDigits(digits, LeadingDigits(t), k);
    var now := DigitsLead(t, nums);
    FillIsConsecutive(Postgres, t, p);
    var later := DigitsLead(t, Consecutive(p, |Values(t)|));
    rest, run, tail := more + now, raised + own, more + later;
    FourPieces(digits, own, more, now);
    FourPieces(raised, own, more, later);
    HitAtFront(k, rest);
    SameLead(more, now, later);
    assert own == Decimal(k)[|digits|..];
    assert "" + ("$" + (run + tail)) == "$" + (run + tail);
  }

  /** A placeholder's own digits, raised by x, and those behind it. */
  lemma RaisedNumber(p: nat, k: nat, x: nat) returns (gap: nat)
    requires p < k && Decimal(p) <= Decimal(k)
    ensures Number(Decimal(p + x) + Decimal(k)[|Decimal(p)|..]) == k + x * (10 * gap)
  {
    var own := Decimal(k)[|Decimal(p)|..];
    assert Decimal(k) == Decimal(p) + own;
    NumberOfDecimal(p);
    NumberOfDecimal(k);
    NumberOfDecimal(p + x);
    NumberConcat(Decimal(p), own);
    NumberConcat(Decimal(p + x), own);
    assert own != "";
    gap := Pow10(|own| - 1);
    Raises(p, x, Pow10(|own|));
  }

  lemma Raises(p: nat, x: nat, q: nat)
    ensures (p + x) * q == p * q + x * q
  {}

  lemma PlaceholderHit(t: Inline, nums: seq<nat>, p: nat, k: nat, x: nat)
    returns (rest: string, run: string, tail: string, gap: nat)
    requires |nums| == |Values(t)| && p < k && Decimal(k) <= Decimal(p) + LeadingDigits(t)
    ensures Hits("$" + Decimal(p) + FillWith(Postgres, t, nums), k, "", rest)
    ensures Meant("$" + Decimal(p + x) + Fill(Postgres, t, p + x + 1), "", run, tail, k, x, gap) && Lead(tail) == Lead(rest)
  {
    DecimalLengthIsMonotone(p, k);
    assert Decimal(p) <= Decimal(k) by { assert (Decimal(p) + LeadingDigits(t))[..|Decimal(p)|] == Decimal(p); }
    gap := RaisedNumber(p, k, x);
    rest, run, tail := HitHere(Decimal(p), Decimal(p + x), t, nums, p + x + 1, k, x, gap);
  }

  lemma StrayHit(t: Inline, nums: seq<nat>, p: nat, k: nat, x: nat) returns (rest: string, run: string, tail: string)
    requires |nums| == |Values(t)| && Decimal(k) <= LeadingDigits(t)
    ensures Hits("$" + FillWith(Postgres, t, nums), k, "", rest)
    ensures Meant("$" + Fill(Postgres, t, p), "", run, tail, k, x, 0) && Lead(tail) == Lead(rest)
  {
    NumberOfDecimal(k);
    assert "" + LeadingDigits(t) == LeadingDigits(t) && "" + Decimal(k)[0..] == Decimal(k);
    rest, run, tail := HitHere("", "", t, nums, p, k, x, 0);
    assert "$" + "" == "$";
  }

  /** The first dollar sign before placeholder k that is followed by its digits:
      what the step for k does to it, and what is meant to stand there. */
  lemma {:induction false} WrongHit(t: Inline, nums: seq<nat>, p: nat, k: nat, x: nat)
    returns (front: string, rest: string, meant: string, run: string, tail: string, gap: nat)
    requires |nums| == |Values(t)| && p <= k < p + |nums| && !Unhit(t, p, k)
    requires forall i :: 0 <= i <= k - p ==> nums[i] == p + i
    ensures Hits(FillWith(Postgres, t, nums), k, front, rest)
    ensures Meant(Fill(Postgres, t, p + x), meant, run, tail, k, x, gap)
    ensures Dollars(meant) == Dollars(front) && Lead(tail) == Lead(rest)
  {
    front, meant, gap := "", "", 0;
    if t[0].Chr? {
      if t[0].c == '$' && Decimal(k) <= LeadingDigits(t[1..]) {
        rest, run, tail := StrayHit(t[1..], nums, p + x, k, x);
      } else {
        front, rest, meant, run, tail, gap := WrongHit(t[1..], nums, p, k, x);
        CharIsPassed(t, nums, p, k, front, rest);
        MeantBehind([t[0].c], Fill(Postgres, t[1..], p + x), meant, run, tail, k, x, gap);
        DollarsConcat([t[0].c], front);
        DollarsConcat([t[0].c], meant);
        front, meant := [t[0].c] + front, [t[0].c] + meant;
      }
    } else if Decimal(k) <= Decimal(p) + LeadingDigits(t[1..]) {
      rest, run, tail, gap := PlaceholderHit(t[1..], nums[1..], p, k, x);
    } else {
      front, rest, meant, run, tail, gap := WrongHit(t[1..], nums[1..], p + 1, k, x);
      ValueIsPassed(t, nums, p, k, front, rest);
      MeantBehind("$" + Decimal(p + x), Fill(Postgres, t[1..], p + x + 1), meant, run, tail, k, x, gap);
      PlaceholderDollars(p, p + x, front, meant);
      front, meant := "$" + Decimal(p) + front, "$" + Decimal(p + x) + meant;
    }
  }

  lemma PlaceholderDollars(p: nat, q: nat, a: string, b: string)
    requires Dollars(a) == Dollars(b)
    ensures Dollars("$" + Decimal(p) + a) == Dollars("$" + Decimal(q) + b)
  {
    DollarsConcat("$" + Decimal(p), a);
    DollarsConcat("$" + Decimal(q), b);
    SameDollars(Decimal(p), Decimal(q), "");
    assert "$" + Decimal(p) + "" == "$" + Decimal(p) && "$" + Decimal(q) + "" == "$" + Decimal(q);
  }

  lemma CharIsPassed(t: Inline, nums: seq<nat>, p: nat, k: nat, front: string, rest: string)
    requires |nums| == |Values(t)| && t != [] && t[0].Chr? && (t[0].c == '$' ==> !(Decimal(k) <= LeadingDigits(t[1..])))
    requires Hits(FillWith(Postgres, t[1..], nums), k, front, rest)
    ensures Hits(FillWith(Postgres, t, nums), k, [t[0].c] + front, rest)
  {
    var s, pat := FillWith(Postgres, t[1..], nums), "$" + Decimal(k);
    forall new_ ensures ReplaceFirst([t[0].c] + s, pat, new_) == [t[0].c] + ReplaceFirst(s, pat, new_) {
      if t[0].c == '$' {
        assert "" + LeadingDigits(t[1..]) == LeadingDigits(t[1..]) && "$" + "" == "$";
        PrintedDollarIsSkipped("", t[1..], nums, k, new_);
      } else {
        ReplaceSkips([t[0].c], s, pat, new_);
      }
    }
    HitBehind([t[0].c], s, k, front, rest);
  }

  lemma ValueIsPassed(t: Inline, nums: seq<nat>, p: nat, k: nat, front: string, rest: string)
    requires |nums| == |Values(t)| && t != [] && t[0].Val? && nums[0] == p && !(Decimal(k) <= Decimal(p) + LeadingDigits(t[1..]))
    requires Hits(FillWith(Postgres, t[1..], nums[1..]), k, front, rest)
    ensures Hits(FillWith(Postgres, t, nums), k, "$" + Decimal(p) + front, rest)
  {
    var s, pat := FillWith(Postgres, t[1..], nums[1..]), "$" + Decimal(k);
    forall new_ ensures ReplaceFirst("$" + Decimal(p) + s, pat, new_) == "$" + Decimal(p) + ReplaceFirst(s, pat, new_) {
      PrintedDollarIsSkipped(Decimal(p), t[1..], nums[1..], k, new_);
    }
    HitBehind("$" + Decimal(p), s, k, front, rest);
  }

  // --------------------------------------------------- what is off is wrong

  /** With as many dollar signs before it and the same digits behind it, a run of
      digits has one place in a text. */
  lemma {:induction false} SamePlace(front: string, run: string, rest: string, front': string, run': string, rest': string)
    requires front + ("$" + (run + rest)) == front' + ("$" + (run' + rest')) && Dollars(front) == Dollars(front')
    requires AllDigits(run) && AllDigits(run') && Lead(rest) == Lead(rest')
    ensures run == run'
    decreases |front|
  {
    if front == "" || front' == "" {
      var s, s' := "$" + (run + rest), "$" + (run' + rest');
      if front == "" {
        assert front + s == s;
        NothingBefore(front', s', s);
      } else {
        assert front' + s' == s';
        NothingBefore(front, s, s');
      }
      assert front + s == s && front' + s' == s';
      assert ("$" + (run + rest))[1..] == run + rest && ("$" + (run' + rest'))[1..] == run' + rest';
      SameRun(run, rest, run', rest');
    } else {
      var s, s' := front + ("$" + (run + rest)), front' + ("$" + (run' + rest'));
      assert s[0] == front[0] && s'[0] == front'[0];
      assert s[1..] == front[1..] + ("$" + (run + rest)) && s'[1..] == front'[1..] + ("$" + (run' + rest'));
      SamePlace(front[1..], run, rest, front'[1..], run', rest');
    }
  }

  lemma NothingBefore(front: string, s: string, whole: string)
    requires whole == front + s && whole != "" && whole[0] == '$' && s != "" && Dollars(front) == 0
    ensures front == ""
  {
    assert (front + s)[0] == '$';
  }

  lemma SameRun(run: string, rest: string, run': string, rest': string)
    requires run + rest == run' + rest' && AllDigits(run) && AllDigits(run') && Lead(rest) == Lead(rest')
    ensures run == run'
  {
    LeadOf(run, rest);
    LeadOf(run', rest');
    var a, b := run + Lead(rest), run' + Lead(rest');
    assert |run| == |run'|;
    assert a[..|run|] == run && b[..|run'|] == run';
  }

  /** Amounts that are off never add up to what is meant. */
  lemma OffIsNotMeant(x: nat, m: nat, gap: nat)
    requires x >= 1
    ensures x + 10 * x * m != x * (10 * gap)
  {
    assert x + 10 * x * m == x * (1 + 10 * m) by { assert 10 * x * m == x * (10 * m); }
    if 1 + 10 * m < 10 * gap { Ordered(x, 1 + 10 * m, 10 * gap); } else { Ordered(x, 10 * gap, 1 + 10 * m); }
  }

  lemma Ordered(x: nat, a: nat, b: nat)
    requires x >= 1 && a < b
    ensures x * a < x * b
  {
    assert x * b == x * a + x * (b - a);
  }

  /** The first step, counting down, that hits something else. */
  lemma {:induction false} FirstWrongStep(t: Inline, k: nat) returns (wrong: nat)
    requires exists j :: 1 <= j <= k && !Unhit(t, 1, j)
    ensures 1 <= wrong <= k && !Unhit(t, 1, wrong) && forall j :: wrong < j <= k ==> Unhit(t, 1, j)
  {
    if !Unhit(t, 1, k) { wrong := k; } else { wrong := FirstWrongStep(t, k - 1); }
  }

  /** The wrong step itself. */
  lemma StepGoesWrong(s: string, front: string, rest: string, k: nat, start: nat)
    requires k >= 1 && start >= 1 && Hits(s, k, front, rest)
    ensures Renumber(Postgres, s, k, start) == Renumber(Postgres, front + ("$" + (Decimal(start + k - 1) + rest)), k - 1, start)
  {
    var after := Decimal(start + k - 1);
    assert ReplaceFirst(s, "$" + Decimal(k), "$" + after) == front + (("$" + after) + rest);
    Joined(after, rest);
  }

  lemma OffIsElsewhere(now: string, f: string, r: string, e: string, m: nat, whole: string, meant: string, run: string, tail: string, k: nat, x: nat, gap: nat)
    requires OffAt(now, f, r, e, m, k, x) && Meant(whole, meant, run, tail, k, x, gap) && x >= 1
    requires Dollars(f) == Dollars(meant) && Lead(e) == Lead(tail)
    ensures now != whole
  {
    OffIsNotMeant(x, m, gap);
    if now == whole { SamePlace(f, r, e, meant, run, tail); }
  }

  /** From there the text never becomes what is meant. */
  lemma NeverAsMeant(front: string, rest: string, meant: string, run: string, tail: string, k: nat, start: nat, gap: nat, whole: string)
    requires k >= 1 && start >= 2 && Meant(whole, meant, run, tail, k, start - 1, gap)
    requires Dollars(meant) == Dollars(front) && Lead(tail) == Lead(rest)
    ensures Renumber(Postgres, front + ("$" + (Decimal(start + k - 1) + rest)), k - 1, start) != whole
  {
    NumberOfDecimal(start + k - 1);
    var after := Decimal(start + k - 1);
    var f, r, e, m := StaysOff(front, after, rest, 0, k, start, k - 1);
    OffIsElsewhere(Renumber(Postgres, front + ("$" + (after + rest)), k - 1, start), f, r, e, m, whole, meant, run, tail, k, start - 1, gap);
  }

  lemma WrongStepIsFinal(t: Inline, k: nat, start: nat)
    requires 1 <= k <= |Values(t)| && start >= 2 && !Unhit(t, 1, k)
    ensures Renumber(Postgres, FillWith(Postgres, t, HalfRenumbered(k, |Values(t)|, start)), k, start) != Fill(Postgres, t, start)
  {
    var nums := HalfRenumbered(k, |Values(t)|, start);
    var front, rest, meant, run, tail, gap := WrongHit(t, nums, 1, k, start - 1);
    StepGoesWrong(FillWith(Postgres, t, nums), front, rest, k, start);
    NeverAsMeant(front, rest, meant, run, tail, k, start, gap, Fill(Postgres, t, start));
  }

  lemma {:induction false} FromOneIsIdentity(sql: string, k: nat)
    ensures Renumber(Postgres, sql, k, 1) == sql
  {
    if k > 0 {
      ReplaceByItself(sql, "$" + Decimal(k));
      FromOneIsIdentity(sql, k - 1);
    }
  }

  /** Main result: a text of any kind, with values 1..n, becomes the same text
      with values from startFrom on exactly when placeholders have no numbers,
      or keep theirs, or nothing that looks like a placeholder comes before it. */
  lemma RenumberedExactly(d: Dialect, t: Inline, startFrom: nat)
    requires startFrom >= 1
    ensures Renumber(d, Fill(d, t, 1), |Values(t)|, startFrom) == Fill(d, t, startFrom)
            <==> !Numbered(d) || startFrom == 1 || SparesDollars(t)
  {
    if !Numbered(d) || SparesDollars(t) {
      DollarsAreSpared(d, t, startFrom);
    } else if startFrom == 1 {
      FromOneIsIdentity(Fill(d, t, 1), |Values(t)|);
    } else {
      var n := |Values(t)|;
      var k := FirstWrongStep(t, n);
      HalfAtStart(t, startFrom);
      RenumberFrom(t, n, k, startFrom);
      WrongStepIsFinal(t, k, startFrom);
    }
  }

  // --------------------------------------------------- a statement it happens to

  /** SELECT * FROM t WHERE '$1' = ?, with a raw condition. */
  function DollarStatement(v: Value): Select {
    Select(false, [], [], "t", "", [], [Raw("'$1' = ?", [v])], [], [], [], [], [], 0, 0, None)
  }

  lemma RawDollar(v: Value)
    ensures Render(Postgres, Raw("'$1' = ?", [v]), 1) == Rendered("'$1' = $1", [v], 2)
  {
    var before := "'$1' = ";
    assert before + ("?" + "") == "'$1' = ?" && before + ("$1" + "") == "'$1' = $1" && "?" + "" == "?" && "$1" + "" == "$1";
    ReplaceSkips(before, "?" + "", "?", "$1");
    ReplaceAtFront("?", "", "$1");
    assert Placeholder(Postgres, 1) == "$1";
    assert FillRaw(Postgres, "'$1' = $1", 2, 0) == "'$1' = $1";
  }

  lemma DollarConditions(v: Value)
    ensures RenderAll(Postgres, [Raw("'$1' = ?", [v])], 1) == Pieces(["'$1' = $1"], [v], 2)
  {
    RawDollar(v);
    assert [Raw("'$1' = ?", [v])][1..] == [];
    assert RenderAll(Postgres, [], 2) == NoPieces(2);
  }

  /** The statement up to its condition. */
  function DollarFront(): string {
    "SELECT *" + " " + ("FROM " + TableText(Postgres, "t", "")) + " " + "WHERE "
  }

  lemma DollarClauses(v: Value, conditions: Pieces)
    requires conditions == Pieces(["'$1' = $1"], [v], 2)
    ensures
      var none, later := NoPieces(1), NoPieces(2);
      var pieces := Statement(Postgres, DollarStatement(v), none, none, conditions, later, later, later);
      pieces.parts == ["SELECT *", "FROM " + TableText(Postgres, "t", ""), "WHERE " + "'$1' = $1"] && pieces.args == [v]
  {
    var s := DollarStatement(v);
    assert SelectKeyword(s) + " *" == "SELECT *";
    assert "WHERE " + "'$1' = $1" + "" == "WHERE " + "'$1' = $1";
    assert Section("WHERE ", conditions, " AND ") == Pieces(["WHERE " + "'$1' = $1"], [v], 2);
    assert QualifiedTexts(Postgres, []) == [] && OrderTexts(Postgres, []) == [];
    assert LimitTexts(s) == [];
  }

  lemma DollarPieces(v: Value)
    ensures
      var pieces := SelectPieces(Postgres, DollarStatement(v));
      pieces.parts == ["SELECT *", "FROM " + TableText(Postgres, "t", ""), "WHERE " + "'$1' = $1"] && pieces.args == [v]
  {
    DollarConditions(v);
    DollarClauses(v, RenderAll(Postgres, [Raw("'$1' = ?", [v])], 1));
    assert RenderAll(Postgres, [], 1) == NoPieces(1) && RenderAll(Postgres, [], 2) == NoPieces(2);
  }

  lemma DollarIsAccepted(v: Value)
    ensures SelectError(DollarStatement(v)).None?
  {
    var s := DollarStatement(v);
    var raw := s.conditions[0];
    assert s.columnExprs + s.conditions + s.groupByExprs + s.having + s.orderByExprs == [raw] && [raw][1..] == [];
    assert FirstInvalid([raw]) == FirstInvalid([]);
  }

  lemma BuiltFrom(s: Select, parts: seq<string>, args: seq<Value>)
    requires SelectError(s).None? && SelectPieces(Postgres, s).parts == parts && SelectPieces(Postgres, s).args == args
    ensures Build(Postgres, s) == Built(Join(parts, " "), args)
  {}

  lemma JoinThree(a: string, b: string, keyword: string, c: string)
    ensures Join([a, b, keyword + c], " ") == a + " " + b + " " + keyword + c
  {
    assert [a, b, keyword + c][1..] == [b, keyword + c] && [b, keyword + c][1..] == [keyword + c];
    assert Join([keyword + c], " ") == keyword + c;
    assert Join([b, keyword + c], " ") == b + " " + (keyword + c);
  }

  lemma DollarIsBuilt(v: Value)
    ensures Build(Postgres, DollarStatement(v)) == Built(DollarFront() + "'$1' = $1", [v])
  {
    DollarIsAccepted(v);
    DollarPieces(v);
    BuiltFrom(DollarStatement(v), ["SELECT *", "FROM " + TableText(Postgres, "t", ""), "WHERE " + "'$1' = $1"], [v]);
    JoinThree("SELECT *", "FROM " + TableText(Postgres, "t", ""), "WHERE ", "'$1' = $1");
  }

  lemma ExistsIs(s: Select, sql: string, args: seq<Value>, p: nat)
    requires p >= 1 && Build(Postgres, s) == Built(sql, args)
    ensures Render(Postgres, Exists(s, false), p) ==
            Wrap(ExistsOpen(false), Rendered(Renumber(Postgres, sql, |args|, p), args, p + |args|), ")")
  {}

  lemma OneStep(before: string, p: nat)
    requires p >= 1 && Plain(before)
    ensures Renumber(Postgres, before + "'$1' = $1", 1, p) == before + ("'$" + Decimal(p) + "' = $1")
  {
    var pat, new_, rest := "$" + Decimal(1), "$" + Decimal(p), "' = $1";
    ReplaceAtFront(pat, rest, new_);
    ReplaceSkips("'", pat + rest, pat, new_);
    ReplaceSkips(before, "'" + (pat + rest), pat, new_);
    assert "'" + (pat + rest) == "'$1' = $1";
    assert "'" + (new_ + rest) == "'$" + Decimal(p) + "' = $1";
    OneStepIs(before + "'$1' = $1", p);
  }

  lemma OneStepIs(sql: string, p: nat)
    requires p >= 1
    ensures Renumber(Postgres, sql, 1, p) == ReplaceFirst(sql, "$" + Decimal(1), "$" + Decimal(p))
  {}

  lemma FrontIsPlain()
    ensures Plain(DollarFront())
  {
    TableIsPlain(Postgres, "t", "");
  }

  /** A dollar sign in front of the placeholder is rewritten in its stead: nested
      in a host, from whatever counter, the value's placeholder keeps number 1,
      which is bound to another value. */
  lemma LiteralDollarIsRewritten(v: Value, p: nat)
    requires p >= 1
    ensures SelectError(DollarStatement(v)).None?
    ensures Render(Postgres, Exists(DollarStatement(v), false), p) ==
            Rendered("EXISTS (" + (DollarFront() + ("'$" + Decimal(p) + "' = $1")) + ")", [v], p + 1)
  {
    DollarIsAccepted(v);
    DollarIsBuilt(v);
    FrontIsPlain();
    ExistsIs(DollarStatement(v), DollarFront() + "'$1' = $1", [v], p);
    OneStep(DollarFront(), p);
  }
}
