/** Renumbering of embedded statements (query/subquery.go, query/cte.go).

    A nested SELECT is built on its own, with placeholders from 1, and then
    renumbered by replacing the first occurrence of each old placeholder's
    text, highest number first. That is a plain text search in which "$1" also
    begins "$10"; the theorem here says why it is still right.
 */
module Renumbering {
  import opened SqlText

  /** The digits a text begins with. */
  function LeadingDigits(t: Inline): (s: string)
    ensures AllDigits(s)
  {
    if t == [] || t[0].Val? || !IsDigit(t[0].c) then "" else [t[0].c] + LeadingDigits(t[1..])
  }

  /** In the text printed from number p, no dollar sign before placeholder k is
      followed by the digits of k. */
  predicate Unhit(t: Inline, p: nat, k: nat) {
    if t == [] then true
    else if t[0].Val? then
      p == k || (!(Decimal(k) <= Decimal(p) + LeadingDigits(t[1..])) && Unhit(t[1..], p + 1, k))
    else
      (t[0].c == '$' ==> !(Decimal(k) <= LeadingDigits(t[1..]))) && Unhit(t[1..], p, k)
  }

  /** A dollar sign that looks like a placeholder stands behind it. */
  predicate SparesDollars(t: Inline) {
    forall k :: 1 <= k <= |Values(t)| ==> Unhit(t, 1, k)
  }

  lemma {:induction false} CleanIsUnhit(t: Inline, p: nat, k: nat)
    requires Clean(t) && p <= k
    ensures Unhit(t, p, k)
  {
    if t != [] {
      if t[0].Chr? {
        CleanIsUnhit(t[1..], p, k);
      } else if p < k {
        LargerIsNoPrefixOfSmaller(p, k);
        assert |t| > 1 ==> t[1..][0] == t[1];
        assert Decimal(p) + LeadingDigits(t[1..]) == Decimal(p);
        CleanIsUnhit(t[1..], p + 1, k);
      }
    }
  }

  lemma CleanSparesDollars(t: Inline)
    requires Clean(t)
    ensures SparesDollars(t)
  {
    forall k | 1 <= k <= |Values(t)| ensures Unhit(t, 1, k) { CleanIsUnhit(t, 1, k); }
  }

  /** The inline text printed with the given number for each of its values. */
  function FillWith(d: Dialect, t: Inline, nums: seq<nat>): string
    requires |nums| == |Values(t)|
  {
    if t == [] then ""
    else if t[0].Val? then Placeholder(d, nums[0]) + FillWith(d, t[1..], nums[1..])
    else [t[0].c] + FillWith(d, t[1..], nums)
  }

  lemma ConsecutiveTail(p: nat, n: nat)
    requires n > 0
    ensures Consecutive(p, n)[1..] == Consecutive(p + 1, n - 1)
  {}

  lemma {:induction false} FillIsConsecutive(d: Dialect, t: Inline, p: nat)
    ensures Fill(d, t, p) == FillWith(d, t, Consecutive(p, |Values(t)|))
  {
    if t != [] {
      FillIsConsecutive(d, t[1..], if t[0].Val? then p + 1 else p);
      if t[0].Val? {
        ConsecutiveTail(p, |Values(t)|);
      }
    }
  }

  lemma {:induction false} DigitPrefix(a: string, b: string, rest: string)
    requires AllDigits(b) && !StartsWithDigit(rest) && b <= a + rest
    ensures b <= a
  {
    if b != "" {
      assert b[0] == (a + rest)[0] && IsDigit(b[0]);
      assert a != "";
      assert b[1..] <= (a + rest)[1..] && (a + rest)[1..] == a[1..] + rest;
      DigitPrefix(a[1..], b[1..], rest);
    }
  }

  /** The digits behind a dollar sign, and the rest of the text. */
  lemma {:induction false} DigitsLead(t: Inline, nums: seq<nat>) returns (rest: string)
    requires |nums| == |Values(t)|
    ensures FillWith(Postgres, t, nums) == LeadingDigits(t) + rest && !StartsWithDigit(rest)
  {
    if t == [] || t[0].Val? || !IsDigit(t[0].c) {
      rest := FillWith(Postgres, t, nums);
    } else {
      rest := DigitsLead(t[1..], nums);
    }
  }

  /** A dollar sign whose digits do not begin with the target's is passed by. */
  lemma DollarIsSkipped(run: string, rest: string, target: nat, new_: string)
    requires AllDigits(run) && !StartsWithDigit(rest) && !(Decimal(target) <= run)
    ensures ReplaceFirst("$" + (run + rest), "$" + Decimal(target), new_) == "$" + (run + ReplaceFirst(rest, "$" + Decimal(target), new_))
  {
    var s, pat := "$" + (run + rest), "$" + Decimal(target);
    assert s[1..] == run + rest && pat[1..] == Decimal(target);
    if pat <= s {
      assert pat[1..] <= s[1..];
      DigitPrefix(run, Decimal(target), rest);
      assert false;
    }
    ReplaceSkips(run, rest, pat, new_);
  }

  lemma Regroup(a: string, b: string, c: string, d: string)
    ensures a + b + (c + d) == a + ((b + c) + d)
  {}

  lemma DigitsAreSkipped(digits: string, lead: string, rest: string, target: nat, new_: string)
    requires AllDigits(digits) && AllDigits(lead) && !StartsWithDigit(rest) && !(Decimal(target) <= digits + lead)
    ensures ReplaceFirst("$" + digits + (lead + rest), "$" + Decimal(target), new_) ==
            "$" + digits + ReplaceFirst(lead + rest, "$" + Decimal(target), new_)
  {
    var pat := "$" + Decimal(target);
    DollarIsSkipped(digits + lead, rest, target, new_);
    ReplaceSkips(lead, rest, pat, new_);
    Regroup("$", digits, lead, rest);
    Regroup("$", digits, lead, ReplaceFirst(rest, pat, new_));
  }

  /** The same for a dollar sign printed before a text. */
  lemma PrintedDollarIsSkipped(digits: string, t: Inline, nums: seq<nat>, target: nat, new_: string)
    requires AllDigits(digits) && |nums| == |Values(t)| && !(Decimal(target) <= digits + LeadingDigits(t))
    ensures
      var s := FillWith(Postgres, t, nums);
      ReplaceFirst("$" + digits + s, "$" + Decimal(target), new_) == "$" + digits + ReplaceFirst(s, "$" + Decimal(target), new_)
  {
    var rest := DigitsLead(t, nums);
    DigitsAreSkipped(digits, LeadingDigits(t), rest, target, new_);
  }

  /** Replacing the target's text rewrites exactly its placeholder, provided no
      dollar sign before that is followed by the target's digits. */
  lemma {:induction false} ReplaceRewritesOneHole(t: Inline, nums: seq<nat>, p: nat, k: nat, fresh_: nat)
    requires |nums| == |Values(t)| && p <= k < p + |nums| && Unhit(t, p, k)
    requires forall i :: 0 <= i <= k - p ==> nums[i] == p + i
    ensures ReplaceFirst(FillWith(Postgres, t, nums), "$" + Decimal(k), "$" + Decimal(fresh_)) ==
            FillWith(Postgres, t, nums[k - p := fresh_])
  {
    var pat, new_ := "$" + Decimal(k), "$" + Decimal(fresh_);
    if t[0].Chr? {
      ReplaceRewritesOneHole(t[1..], nums, p, k, fresh_);
      if t[0].c == '$' {
        assert "" + LeadingDigits(t[1..]) == LeadingDigits(t[1..]);
        PrintedDollarIsSkipped("", t[1..], nums, k, new_);
        assert "$" + "" == "$";
      } else {
        ReplaceSkips([t[0].c], FillWith(Postgres, t[1..], nums), pat, new_);
      }
    } else if k == p {
      ReplaceAtFront(pat, FillWith(Postgres, t[1..], nums[1..]), new_);
      assert nums[0 := fresh_][1..] == nums[1..];
    } else {
      ReplaceRewritesOneHole(t[1..], nums[1..], p + 1, k, fresh_);
      PrintedDollarIsSkipped(Decimal(p), t[1..], nums[1..], k, new_);
      assert nums[k - p := fresh_][1..] == nums[1..][k - p - 1 := fresh_];
    }
  }

  /** renumberParameters as a fold: placeholders argCount, ..., 1 in turn. */
  function Renumber(d: Dialect, sql: string, argCount: nat, startFrom: nat): string
    requires startFrom >= 1
    decreases argCount
  {
    if argCount == 0 then sql
    else Renumber(d, ReplaceFirst(sql, Placeholder(d, argCount), Placeholder(d, startFrom + argCount - 1)),
                  argCount - 1, startFrom)
  }

  method RenumberParameters(d: Dialect, sql: string, argCount: nat, startFrom: nat) returns (result: string)
    requires startFrom >= 1
    ensures result == Renumber(d, sql, argCount, startFrom)
  {
    result := sql;
    var i := argCount;
    while i >= 1
      invariant Renumber(d, result, i, startFrom) == Renumber(d, sql, argCount, startFrom)
    {
      result := ReplaceFirst(result, Placeholder(d, i), Placeholder(d, startFrom + i - 1));
      i := i - 1;
    }
  }

  lemma {:induction false} RenumberKeepsUnnumbered(d: Dialect, sql: string, argCount: nat, startFrom: nat)
    requires startFrom >= 1 && !Numbered(d)
    ensures Renumber(d, sql, argCount, startFrom) == sql
  {
    if argCount > 0 {
      ReplaceByItself(sql, "?");
      RenumberKeepsUnnumbered(d, sql, argCount - 1, startFrom);
    }
  }

  /** cte.go has its own copy, which returns early for `?` placeholders. */
  method RenumberQueryParameters(d: Dialect, sql: string, argCount: nat, startFrom: nat) returns (result: string)
    requires startFrom >= 1
    ensures result == Renumber(d, sql, argCount, startFrom)
  {
    result := sql;
    if Placeholder(d, 1) == "?" {
      RenumberKeepsUnnumbered(d, sql, argCount, startFrom);
      return;
    }
    var i := argCount;
    while i >= 1
      invariant Renumber(d, result, i, startFrom) == Renumber(d, sql, argCount, startFrom)
    {
      result := ReplaceFirst(result, Placeholder(d, i), Placeholder(d, startFrom + i - 1));
      i := i - 1;
    }
  }

  /** State after rewriting placeholders n, ..., k + 1: 1..k stand, the rest
      already carry their final numbers. */
  function HalfRenumbered(k: nat, n: nat, startFrom: nat): (nums: seq<nat>)
    requires k <= n && startFrom >= 1
    ensures |nums| == n
  {
    seq(n, i requires 0 <= i < n => if i < k then i + 1 else startFrom + i)
  }

  /** Steps k, ..., to + 1 that hit nothing but their placeholders. */
  lemma {:induction false} RenumberFrom(t: Inline, k: nat, until: nat, startFrom: nat)
    requires until <= k <= |Values(t)| && startFrom >= 1 && forall j :: until < j <= k ==> Unhit(t, 1, j)
    ensures Renumber(Postgres, FillWith(Postgres, t, HalfRenumbered(k, |Values(t)|, startFrom)), k, startFrom) ==
            Renumber(Postgres, FillWith(Postgres, t, HalfRenumbered(until, |Values(t)|, startFrom)), until, startFrom)
    decreases k
  {
    if until < k {
      var n := |Values(t)|;
      var nums := HalfRenumbered(k, n, startFrom);
      ReplaceRewritesOneHole(t, nums, 1, k, startFrom + k - 1);
      assert nums[k - 1 := startFrom + k - 1] == HalfRenumbered(k - 1, n, startFrom);
      RenumberFrom(t, k - 1, until, startFrom);
    }
  }

  lemma HalfAtStart(t: Inline, startFrom: nat)
    requires startFrom >= 1
    ensures Fill(Postgres, t, 1) == FillWith(Postgres, t, HalfRenumbered(|Values(t)|, |Values(t)|, startFrom))
    ensures Fill(Postgres, t, startFrom) == FillWith(Postgres, t, HalfRenumbered(0, |Values(t)|, startFrom))
  {
    var n := |Values(t)|;
    FillIsConsecutive(Postgres, t, 1);
    FillIsConsecutive(Postgres, t, startFrom);
    assert Consecutive(1, n) == HalfRenumbered(n, n, startFrom);
    assert Consecutive(startFrom, n) == HalfRenumbered(0, n, startFrom);
  }

  /** Main theorem: a clean text with placeholders 1..n becomes the same text
      with placeholders startFrom..startFrom + n - 1, for every n and start. */
  lemma RenumberShifts(d: Dialect, t: Inline, startFrom: nat)
    requires Clean(t) && startFrom >= 1
    ensures Renumber(d, Fill(d, t, 1), |Values(t)|, startFrom) == Fill(d, t, startFrom)
  {
    CleanSparesDollars(t);
    DollarsAreSpared(d, t, startFrom);
  }

  /** Dollar signs and digits of the text's own do no harm unless something that
      looks like a placeholder comes before that placeholder; without numbers
      nothing does. */
  lemma DollarsAreSpared(d: Dialect, t: Inline, startFrom: nat)
    requires (Numbered(d) ==> SparesDollars(t)) && startFrom >= 1
    ensures Renumber(d, Fill(d, t, 1), |Values(t)|, startFrom) == Fill(d, t, startFrom)
  {
    if Numbered(d) {
      HalfAtStart(t, startFrom);
      RenumberFrom(t, |Values(t)|, 0, startFrom);
    } else {
      RenumberKeepsUnnumbered(d, Fill(d, t, 1), |Values(t)|, startFrom);
      UnnumberedFill(d, t, 1, startFrom);
    }
  }

  lemma {:induction false} UnnumberedFill(d: Dialect, t: Inline, p: nat, q: nat)
    requires !Numbered(d)
    ensures Fill(d, t, p) == Fill(d, t, q)
  {
    if t != [] {
      UnnumberedFill(d, t[1..], if t[0].Val? then p + 1 else p, if t[0].Val? then q + 1 else q);
    }
  }

  /** Ascending order would be wrong: shifting "$1 $2" by one that way gives
      "$3 $2". */
  lemma AscendingOrderWouldFail()
    ensures
      var step := ReplaceFirst("$1 $2", "$1", "$2");
      ReplaceFirst(step, "$2", "$3") == "$3 $2"
  {
    ReplaceAtFront("$1", " $2", "$2");
    assert "$1" + " $2" == "$1 $2";
    ReplaceAtFront("$2", " $2", "$3");
    assert "$2" + " $2" == "$2 $2";
  }
}
