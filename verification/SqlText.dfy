/** SQL text, placeholders and first-occurrence replacement.

    A statement the builders produce is a text with placeholders plus an
    argument list. Its meaning is the text with the arguments written in place,
    an `Inline`: a sequence of characters and values. `Fill` prints an inline
    text with placeholders numbered from a start; `Bind` is how a database reads
    such a text and its arguments back.
 */
module SqlText {
  import opened Options

  /** A bound argument. */
  datatype Value = IntValue(int) | StringValue(string) | BoolValue(bool) | NullValue

  datatype Frag = Chr(c: char) | Val(value: Value)
  type Inline = seq<Frag>

  datatype Dialect = Postgres | MySQL | SQLite

  // ---------------------------------------------------------------- decimals

  predicate IsDigit(c: char) {
    '0' <= c <= '9'
  }

  predicate AllDigits(s: string) {
    forall i :: 0 <= i < |s| ==> IsDigit(s[i])
  }

  function Digit(d: nat): (c: char)
    requires d < 10
    ensures IsDigit(c) && (c as int) - ('0' as int) == d
  {
    '0' + d as char
  }

  /** Decimal rendering of a number, as strconv.Itoa and %d print it. */
  function Decimal(n: nat): (s: string)
    ensures |s| > 0 && AllDigits(s)
  {
    if n < 10 then [Digit(n)] else Decimal(n / 10) + [Digit(n % 10)]
  }

  function Number(s: string): nat
    requires AllDigits(s)
  {
    if s == "" then 0 else 10 * Number(s[..|s| - 1]) + (s[|s| - 1] as int - '0' as int)
  }

  lemma {:induction false} NumberOfDecimal(n: nat)
    ensures Number(Decimal(n)) == n
  {
    if n >= 10 {
      NumberOfDecimal(n / 10);
      assert Decimal(n)[..|Decimal(n)| - 1] == Decimal(n / 10);
    }
  }

  function Pow10(n: nat): (r: nat)
    ensures r >= 1
  {
    if n == 0 then 1 else 10 * Pow10(n - 1)
  }

  lemma {:induction false} NumberConcat(a: string, b: string)
    requires AllDigits(a) && AllDigits(b)
    ensures Number(a + b) == Number(a) * Pow10(|b|) + Number(b)
    decreases |b|
  {
    if b == "" {
      assert a + b == a;
    } else {
      var n := |b| - 1;
      NumberConcat(a, b[..n]);
      LastDigit(a, b);
      TimesTen(Number(a), Pow10(n));
    }
  }

  lemma LastDigit(a: string, b: string)
    requires AllDigits(a) && AllDigits(b) && b != ""
    ensures AllDigits(a + b[..|b| - 1]) && Number(a + b) == 10 * Number(a + b[..|b| - 1]) + (b[|b| - 1] as int - '0' as int)
  {
    assert (a + b)[..|a + b| - 1] == a + b[..|b| - 1];
  }

  lemma TimesTen(a: nat, p: nat)
    ensures a * (10 * p) == 10 * (a * p)
  {}

  lemma {:induction false} DecimalLengthIsMonotone(m: nat, n: nat)
    requires m <= n
    ensures |Decimal(m)| <= |Decimal(n)|
  {
    if m >= 10 {
      DecimalLengthIsMonotone(m / 10, n / 10);
    }
  }

  /** A smaller number never has a larger one as a textual prefix, although
      a larger one may have a smaller one ("1" begins "10"). */
  lemma LargerIsNoPrefixOfSmaller(small: nat, large: nat)
    requires small < large
    ensures !(Decimal(large) <= Decimal(small))
  {
    DecimalLengthIsMonotone(small, large);
    NumberOfDecimal(small);
    NumberOfDecimal(large);
  }

  // ------------------------------------------------------ search and replace

  /** strings.Replace(s, pat, new_, 1): the leftmost occurrence only. */
  function ReplaceFirst(s: string, pat: string, new_: string): string {
    if pat <= s then new_ + s[|pat|..]
    else if s == "" then s
    else [s[0]] + ReplaceFirst(s[1..], pat, new_)
  }

  predicate OccursAt(s: string, pat: string, i: nat)
    requires i <= |s|
  {
    pat <= s[i..]
  }

  /** What leftmost means: everything before the replaced occurrence is kept,
      and no occurrence starts earlier. */
  lemma {:induction false} ReplaceFirstIsLeftmost(s: string, pat: string, new_: string, i: nat)
    requires i <= |s| && OccursAt(s, pat, i)
    requires forall j: nat :: j < i ==> !OccursAt(s, pat, j)
    ensures ReplaceFirst(s, pat, new_) == s[..i] + new_ + s[i..][|pat|..]
  {
    if i == 0 {
      assert s[0..] == s;
    } else {
      assert !OccursAt(s, pat, 0) && s[0..] == s;
      forall j: nat | j <= i - 1 ensures OccursAt(s[1..], pat, j) <==> OccursAt(s, pat, j + 1) {
        OccursInTail(s, pat, j);
      }
      ReplaceFirstIsLeftmost(s[1..], pat, new_, i - 1);
      TailPieces(s, i);
      assert [s[0]] + (s[1..][..i - 1] + new_ + s[i..][|pat|..]) == s[..i] + new_ + s[i..][|pat|..];
    }
  }

  lemma OccursInTail(s: string, pat: string, j: nat)
    requires j < |s|
    ensures OccursAt(s[1..], pat, j) <==> OccursAt(s, pat, j + 1)
  {
    assert s[1..][j..] == s[j + 1..];
  }

  lemma TailPieces(s: string, i: nat)
    requires 0 < i <= |s|
    ensures s[1..][i - 1..] == s[i..] && s[..i] == [s[0]] + s[1..][..i - 1]
  {}

  lemma {:induction false} ReplaceAbsent(s: string, pat: string, new_: string)
    requires forall j: nat :: j <= |s| ==> !OccursAt(s, pat, j)
    ensures ReplaceFirst(s, pat, new_) == s
  {
    assert !OccursAt(s, pat, 0) && s[0..] == s;
    if s != "" {
      forall j: nat | j <= |s[1..]| ensures !OccursAt(s[1..], pat, j) {
        assert !OccursAt(s, pat, j + 1) && s[1..][j..] == s[j + 1..];
      }
      ReplaceAbsent(s[1..], pat, new_);
    }
  }

  lemma ReplaceAtFront(pat: string, rest: string, new_: string)
    ensures ReplaceFirst(pat + rest, pat, new_) == new_ + rest
  {
    assert (pat + rest)[|pat|..] == rest;
  }

  /** Replacement looks past a beginning without the pattern's first character. */
  lemma {:induction false} ReplaceSkips(before: string, rest: string, pat: string, new_: string)
    requires pat != "" && forall i :: 0 <= i < |before| ==> before[i] != pat[0]
    ensures ReplaceFirst(before + rest, pat, new_) == before + ReplaceFirst(rest, pat, new_)
  {
    if before == "" {
      assert before + rest == rest;
    } else {
      assert (before + rest)[1..] == before[1..] + rest;
      ReplaceSkips(before[1..], rest, pat, new_);
      assert before == [before[0]] + before[1..];
    }
  }

  lemma {:induction false} ReplaceByItself(s: string, pat: string)
    ensures ReplaceFirst(s, pat, pat) == s
  {
    if !(pat <= s) && s != "" {
      ReplaceByItself(s[1..], pat);
    }
  }

  // ---------------------------------------------------- placeholders and fill

  predicate Numbered(d: Dialect) {
    d.Postgres?
  }

  function Placeholder(d: Dialect, n: nat): string {
    if Numbered(d) then "$" + Decimal(n) else "?"
  }

  function Lit(s: string): Inline {
    seq(|s|, i requires 0 <= i < |s| => Chr(s[i]))
  }

  function Values(t: Inline): seq<Value> {
    if t == [] then []
    else if t[0].Val? then [t[0].value] + Values(t[1..])
    else Values(t[1..])
  }

  /** The inline text printed with placeholders p, p+1, ... for its values. */
  function Fill(d: Dialect, t: Inline, p: nat): string {
    if t == [] then ""
    else if t[0].Val? then Placeholder(d, p) + Fill(d, t[1..], p + 1)
    else [t[0].c] + Fill(d, t[1..], p)
  }

  /** No character that could be taken for a placeholder. */
  predicate PlainChar(c: char) {
    c != '$' && c != '?'
  }

  predicate Plain(s: string) {
    forall i :: 0 <= i < |s| ==> PlainChar(s[i])
  }

  /** Every `$` and `?` printed is a placeholder, and no digit stands straight
      after one. */
  predicate Clean(t: Inline) {
    && (forall i :: 0 <= i < |t| && t[i].Chr? ==> PlainChar(t[i].c))
    && (forall i :: 0 <= i < |t| - 1 && t[i].Val? && t[i + 1].Chr? ==> !IsDigit(t[i + 1].c))
  }

  predicate StartsWithDigit(s: string) {
    |s| > 0 && IsDigit(s[0])
  }

  lemma LitConcat(a: string, b: string)
    ensures Lit(a + b) == Lit(a) + Lit(b)
  {}

  lemma {:induction false} ValuesConcat(a: Inline, b: Inline)
    ensures Values(a + b) == Values(a) + Values(b)
  {
    if a == [] {
      assert a + b == b;
    } else {
      ValuesConcat(a[1..], b);
      assert (a + b)[1..] == a[1..] + b;
    }
  }

  /** What one piece prints. */
  function Printed(d: Dialect, f: Frag, p: nat): string {
    if f.Val? then Placeholder(d, p) else [f.c]
  }

  lemma FillFirst(d: Dialect, f: Frag, t: Inline, p: nat)
    ensures Fill(d, [f] + t, p) == Printed(d, f, p) + Fill(d, t, p + |Values([f])|)
    ensures |Values([f] + t)| == |Values([f])| + |Values(t)|
  {
    assert ([f] + t)[1..] == t && [f][1..] == [];
  }

  lemma {:induction false} FillConcat(d: Dialect, a: Inline, b: Inline, p: nat)
    ensures Fill(d, a + b, p) == Fill(d, a, p) + Fill(d, b, p + |Values(a)|)
    decreases |a|
  {
    if a == [] {
      assert a + b == b;
    } else {
      var f, t := a[0], a[1..];
      assert a == [f] + t && a + b == [f] + (t + b);
      FillConcat(d, t, b, p + |Values([f])|);
      FillFirst(d, f, t + b, p);
      FillFirst(d, f, t, p);
      InThree(Printed(d, f, p), Fill(d, t, p + |Values([f])|), Fill(d, b, p + |Values(a)|));
    }
  }

  lemma InThree(x: string, y: string, z: string)
    ensures x + (y + z) == x + y + z
  {}

  lemma {:induction false} LitFacts(d: Dialect, s: string, p: nat)
    ensures Values(Lit(s)) == [] && Fill(d, Lit(s), p) == s
    ensures Plain(s) ==> Clean(Lit(s))
  {
    if s != "" {
      assert Lit(s)[1..] == Lit(s[1..]);
      LitFacts(d, s[1..], p);
    }
  }

  lemma CleanConcat(a: Inline, b: Inline)
    requires Clean(a) && Clean(b)
    requires |b| > 0 && b[0].Chr? ==> !IsDigit(b[0].c) || (|a| > 0 && a[|a| - 1].Chr?) || a == []
    ensures Clean(a + b)
  {}

  lemma {:induction false} FillStart(d: Dialect, t: Inline, p: nat)
    requires Clean(t) && |t| > 0 && (t[0].Chr? ==> !IsDigit(t[0].c))
    ensures !StartsWithDigit(Fill(d, t, p))
  {}

  // ------------------------------------------------------------- reading back

  function DigitRun(s: string): (k: nat)
    ensures k <= |s| && AllDigits(s[..k]) && (k < |s| ==> !IsDigit(s[k]))
  {
    if s == "" || !IsDigit(s[0]) then 0 else
      var k := DigitRun(s[1..]);
      assert s[..k + 1] == [s[0]] + s[1..][..k];
      k + 1
  }

  lemma {:induction false} DigitRunOf(digits: string, rest: string)
    requires AllDigits(digits) && !StartsWithDigit(rest)
    ensures DigitRun(digits + rest) == |digits|
  {
    if digits == "" {
      assert digits + rest == rest;
    } else {
      assert (digits + rest)[1..] == digits[1..] + rest;
      DigitRunOf(digits[1..], rest);
    }
  }

  /** How a database reads a statement text with its argument list. With
      numbered placeholders `$k` stands for argument number k, the first one
      being number base; otherwise each `?` takes the next argument. None when
      a placeholder has no argument. */
  function Bind(d: Dialect, s: string, args: seq<Value>, base: nat): Option<Inline> {
    if Numbered(d) then BindNumbered(s, args, base) else BindInOrder(s, args)
  }

  function BindNumbered(s: string, args: seq<Value>, base: nat): Option<Inline>
    decreases |s|
  {
    if s == "" then Some([])
    else if s[0] != '$' then Prepend(Chr(s[0]), BindNumbered(s[1..], args, base))
    else
      var k := DigitRun(s[1..]);
      var n := Number(s[1..][..k]);
      if base <= n < base + |args| then Prepend(Val(args[n - base]), BindNumbered(s[1..][k..], args, base)) else None
  }

  function BindInOrder(s: string, args: seq<Value>): Option<Inline> {
    if s == "" then Some([])
    else if s[0] != '?' then Prepend(Chr(s[0]), BindInOrder(s[1..], args))
    else if args == [] then None
    else Prepend(Val(args[0]), BindInOrder(s[1..], args[1..]))
  }

  function Prepend(f: Frag, rest: Option<Inline>): Option<Inline> {
    match rest case None => None case Some(t) => Some([f] + t)
  }

  lemma BindOnePlaceholder(n: nat, rest: string, args: seq<Value>, base: nat)
    requires base <= n < base + |args| && !StartsWithDigit(rest)
    ensures BindNumbered("$" + Decimal(n) + rest, args, base) ==
            Prepend(Val(args[n - base]), BindNumbered(rest, args, base))
  {
    var s := "$" + Decimal(n) + rest;
    assert s[1..] == Decimal(n) + rest;
    DigitRunOf(Decimal(n), rest);
    NumberOfDecimal(n);
    assert s[1..][..|Decimal(n)|] == Decimal(n);
    assert s[1..][|Decimal(n)|..] == rest;
  }

  lemma {:induction false} NumberedReadsBack(t: Inline, p: nat, args: seq<Value>, base: nat)
    requires Clean(t) && base <= p && p - base + |Values(t)| <= |args|
    requires forall i :: 0 <= i < |Values(t)| ==> args[p - base + i] == Values(t)[i]
    ensures BindNumbered(Fill(Postgres, t, p), args, base) == Some(t)
  {
    if t != [] {
      assert t == [t[0]] + t[1..];
      if t[0].Chr? {
        NumberedReadsBack(t[1..], p, args, base);
        assert Fill(Postgres, t, p)[1..] == Fill(Postgres, t[1..], p);
      } else {
        assert args[p - base + 0] == Values(t)[0];
        forall i | 0 <= i < |Values(t[1..])| ensures args[p + 1 - base + i] == Values(t[1..])[i] {
          assert args[p - base + (i + 1)] == Values(t)[i + 1];
        }
        NumberedReadsBack(t[1..], p + 1, args, base);
        if |t| > 1 && t[1].Chr? { FillStart(Postgres, t[1..], p + 1); }
        BindOnePlaceholder(p, Fill(Postgres, t[1..], p + 1), args, base);
      }
    }
  }

  lemma {:induction false} InOrderReadsBack(d: Dialect, t: Inline, p: nat)
    requires Clean(t) && !Numbered(d)
    ensures BindInOrder(Fill(d, t, p), Values(t)) == Some(t)
  {
    if t != [] {
      assert t == [t[0]] + t[1..];
      InOrderReadsBack(d, t[1..], if t[0].Chr? then p else p + 1);
      assert Fill(d, t, p)[1..] == Fill(d, t[1..], if t[0].Chr? then p else p + 1);
      if t[0].Val? { assert Values(t)[1..] == Values(t[1..]); }
    }
  }

  /** Reading back what `Fill` printed, with the values as arguments, gives the
      inline text again, whatever the first number was. */
  lemma FillReadsBack(d: Dialect, t: Inline, p: nat)
    requires Clean(t)
    ensures Bind(d, Fill(d, t, p), Values(t), p) == Some(t)
  {
    if Numbered(d) { NumberedReadsBack(t, p, Values(t), p); } else { InOrderReadsBack(d, t, p); }
  }

  /** The numbers of all `$k` in a text, from left to right. */
  function PlaceholderNumbers(s: string): seq<nat>
    decreases |s|
  {
    if s == "" then []
    else if s[0] != '$' then PlaceholderNumbers(s[1..])
    else
      var k := DigitRun(s[1..]);
      [Number(s[1..][..k])] + PlaceholderNumbers(s[1..][k..])
  }

  /** p, p + 1, ..., p + n - 1. */
  function Consecutive(p: nat, n: nat): seq<nat> {
    seq(n, i requires 0 <= i < n => p + i)
  }

  lemma ConsecutiveStep(p: nat, n: nat)
    ensures Consecutive(p, n + 1) == [p] + Consecutive(p + 1, n)
  {}

  lemma OneNumber(n: nat, rest: string)
    requires !StartsWithDigit(rest)
    ensures PlaceholderNumbers("$" + Decimal(n) + rest) == [n] + PlaceholderNumbers(rest)
  {
    var s := "$" + Decimal(n) + rest;
    assert s[1..] == Decimal(n) + rest;
    DigitRunOf(Decimal(n), rest);
    NumberOfDecimal(n);
    assert s[1..][..|Decimal(n)|] == Decimal(n);
    assert s[1..][|Decimal(n)|..] == rest;
  }

  lemma {:induction false} FillNumbers(t: Inline, p: nat)
    requires Clean(t)
    ensures PlaceholderNumbers(Fill(Postgres, t, p)) == Consecutive(p, |Values(t)|)
  {
    if t != [] {
      if t[0].Chr? {
        FillNumbers(t[1..], p);
        assert Fill(Postgres, t, p)[1..] == Fill(Postgres, t[1..], p);
      } else {
        FillNumbers(t[1..], p + 1);
        if |t| > 1 && t[1].Chr? { FillStart(Postgres, t[1..], p + 1); }
        OneNumber(p, Fill(Postgres, t[1..], p + 1));
        ConsecutiveStep(p, |Values(t[1..])|);
      }
    }
  }
}
