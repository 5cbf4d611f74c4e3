/** Which names and column references the builder accepts, told without the
    order of its checks (query/validation.go:23-112). */
module NameRules {
  import opened SqlText
  import opened QueryTree
  import opened Validation

  /** A letter or underscore, then letters, digits and underscores. */
  predicate Spelled(name: string) {
    && name != "" && !('0' <= name[0] <= '9')
    && forall c :: c in name ==> 'a' <= c <= 'z' || 'A' <= c <= 'Z' || '0' <= c <= '9' || c == '_'
  }

  /** The same word, in capitals or not. */
  predicate SameWord(capitals: string, name: string) {
    |capitals| == |name| && forall i :: 0 <= i < |name| ==> SameLetter(capitals[i], name[i])
  }

  predicate SameLetter(capital: char, c: char) {
    !('a' <= capital <= 'z') && (c == capital || ('A' <= capital <= 'Z' && c as int == capital as int + 32))
  }

  predicate SafeName(name: string) {
    Spelled(name) && |name| <= 63 && forall w :: w in SQL_RESERVED_WORDS ==> !SameWord(w, name)
  }

  // --------------------------------------------------- identifiers

  lemma PatternMeans(name: string)
    ensures MatchesIdentifierPattern(name) <==> Spelled(name)
  {
    if name != "" { assert name[0] in name; }
    if Spelled(name) {
      forall i | 0 <= i < |name| ensures IsLetter(name[i]) || IsDigit(name[i]) { assert name[i] in name; }
    }
  }

  lemma LetterMeans(capital: char, c: char)
    ensures (if 'a' <= c <= 'z' then 'A' + (c - 'a') else c) == capital <==> SameLetter(capital, c)
  {}

  lemma UpperMeans(w: string, name: string)
    ensures Upper(name) == w <==> SameWord(w, name)
  {
    if |w| == |name| {
      forall i | 0 <= i < |name| ensures Upper(name)[i] == w[i] <==> SameLetter(w[i], name[i]) { LetterMeans(w[i], name[i]); }
      if Upper(name) == w {
        forall i | 0 <= i < |name| ensures SameLetter(w[i], name[i]) { assert Upper(name)[i] == w[i]; }
      }
    }
  }

  lemma IdentifierMeans(name: string)
    ensures ValidateIdentifier(name).None? <==> SafeName(name)
  {
    PatternMeans(name);
    forall w | w in SQL_RESERVED_WORDS ensures Upper(name) == w <==> SameWord(w, name) {
      UpperMeans(w, name);
    }
  }

  // --------------------------------------------------- column references

  predicate PartOk(part: string) {
    part == "*" || SafeName(part)
  }

  /** An expression, a star, a name, or two parts with a dot between them. */
  ghost predicate IsReference(name: string) {
    '(' in name || PartOk(name) || exists a, b :: name == a + "." + b && PartOk(a) && PartOk(b)
  }

  lemma SplitAtOneDot(a: string, b: string)
    requires '.' !in a && '.' !in b
    ensures SplitAtDots(a + "." + b) == [a, b]
    decreases a
  {
    var name := a + "." + b;
    if a == "" {
      NoDots(b);
      assert name[1..] == b;
    } else {
      assert a == [a[0]] + a[1..] && a[0] in a;
      assert name[0] == a[0] && name[1..] == a[1..] + "." + b;
      SplitAtOneDot(a[1..], b);
    }
  }

  lemma {:induction false} NoDots(s: string)
    requires '.' !in s
    ensures SplitAtDots(s) == [s]
  {
    if s != "" {
      assert s == [s[0]] + s[1..] && s[0] in s;
      NoDots(s[1..]);
    }
  }

  lemma PartHasNoDot(part: string)
    requires PartOk(part)
    ensures '.' !in part && '(' !in part && part != ""
  {}

  lemma TwoPartsMean(name: string, a: string, b: string)
    requires '.' in name && '(' !in name && SplitAtDots(name) == [a, b]
    ensures ValidateColumnReference(name).None? <==> PartOk(a) && PartOk(b)
  {
    IdentifierMeans(a);
    IdentifierMeans(b);
  }

  /** A dotted name is accepted when it is two good parts, and only then. */
  lemma DottedMeans(name: string)
    requires '.' in name && '(' !in name
    ensures ValidateColumnReference(name).None? <==> exists a, b :: name == a + "." + b && PartOk(a) && PartOk(b)
  {
    var parts := SplitAtDots(name);
    if a, b :| name == a + "." + b && PartOk(a) && PartOk(b) {
      PartHasNoDot(a);
      PartHasNoDot(b);
      SplitAtOneDot(a, b);
      TwoPartsMean(name, a, b);
    } else if |parts| == 2 {
      SplitRejoins(name);
      TwoPartsMean(name, parts[0], parts[1]);
    }
  }

  lemma DotInside(name: string)
    ensures (exists a, b :: name == a + "." + b && PartOk(a) && PartOk(b)) ==> '.' in name
  {
    if a, b :| name == a + "." + b && PartOk(a) && PartOk(b) { assert name[|a|] == '.'; }
  }

  /** Main result: what is accepted as a column. */
  lemma ColumnReferenceMeans(name: string)
    ensures ValidateColumnReference(name).None? <==> IsReference(name)
  {
    if '(' !in name && name != "" {
      if '.' in name {
        DottedMeans(name);
        if PartOk(name) { PartHasNoDot(name); }
      } else {
        IdentifierMeans(name);
      }
    }
    DotInside(name);
  }

  ghost predicate AreReferences(names: seq<string>) {
    forall i :: 0 <= i < |names| ==> IsReference(names[i])
  }

  lemma FirstAndOthers(names: seq<string>)
    requires names != []
    ensures AreReferences(names) <==> IsReference(names[0]) && AreReferences(names[1..])
  {
    if AreReferences(names) {
      forall i | 0 <= i < |names[1..]| ensures IsReference(names[1..][i]) { assert names[1..][i] == names[i + 1]; }
    }
    if IsReference(names[0]) && AreReferences(names[1..]) {
      forall i | 0 <= i < |names| ensures IsReference(names[i]) { if i > 0 { assert names[i] == names[1..][i - 1]; } }
    }
  }

  lemma {:induction false} NoneBadMeans(names: seq<string>)
    ensures FirstBadColumn(names).None? <==> AreReferences(names)
  {
    if names != [] {
      ColumnReferenceMeans(names[0]);
      NoneBadMeans(names[1..]);
      FirstAndOthers(names);
    }
  }

  /** The error kept is that of the first column that is not accepted. */
  lemma {:induction false} FirstBadMeans(names: seq<string>, k: nat)
    requires k < |names| && AreReferences(names[..k]) && !IsReference(names[k])
    ensures FirstBadColumn(names) == ValidateColumnReference(names[k])
  {
    ColumnReferenceMeans(names[0]);
    if k > 0 {
      FirstAndOthers(names[..k]);
      assert names[..k][1..] == names[1..][..k - 1];
      FirstBadMeans(names[1..], k - 1);
    }
  }
}
