/**
 * The `Comparable` conformance of `Version`: `==`, `===`, `!==`, `<` and
 * `isPrerelease(_:lessThan:)`, with the order laws they satisfy and the
 * inputs on which they do not.
 */
module Ordering {
  import opened Wrappers
  import opened Text
  import opened Scanning
  import opened Versions

  /** The index of the first position where two sequences differ, within their common length. */
  function FirstDifference<T(==)>(xs: seq<T>, ys: seq<T>): (r: Option<nat>)
    ensures r.Some? ==> r.value < |xs| && r.value < |ys| && xs[r.value] != ys[r.value]
    ensures r.Some? ==> forall j :: 0 <= j < r.value ==> xs[j] == ys[j]
    ensures r.None? <==> forall j :: 0 <= j < |xs| && j < |ys| ==> xs[j] == ys[j]
    decreases |xs|
  {
    if |xs| == 0 || |ys| == 0 then None
    else if xs[0] != ys[0] then Some(0)
    else
      var rest := FirstDifference(xs[1..], ys[1..]);
      if rest.None? then None else Some(rest.value + 1)
  }

  /**
   * The value `isPrerelease(_:lessThan:)` gives an identifier: its `Int`
   * value when it converts, and `Int.max` when it does not.
   */
  function NumericOrMax(id: string): (r: Int64)
    ensures ParseInt(id).Some? ==> r == ParseInt(id).value
    ensures ParseInt(id).None? ==> r == IntMax
    ensures |id| > 0 && !IsDigit(id[0]) && id[0] != '-' && id[0] != '+' ==> r == IntMax
    ensures |id| > 0 && AllDigits(id) && DigitsValue(id) <= IntMax ==> r == DigitsValue(id)
    ensures |id| > 0 && AllDigits(id) && DigitsValue(id) > IntMax ==> r == IntMax
    ensures |id| == 0 ==> r == IntMax
  {
    var number := ParseInt(id);
    if number.Some? then number.value else IntMax
  }

  /**
   * How `isPrerelease(_:lessThan:)` orders the first pair of identifiers
   * that differ: by `Int(_:)` value with non-numbers as `Int.max`, and by
   * string order when those values agree.
   */
  function IdentifierLess(x: string, y: string): (r: bool)
    ensures ParseInt(x).Some? && ParseInt(y).Some? && ParseInt(x).value != ParseInt(y).value ==>
              (r <==> ParseInt(x).value < ParseInt(y).value)
    ensures ParseInt(x).Some? && ParseInt(x).value < IntMax && ParseInt(y).None? ==> r
    ensures ParseInt(x).None? && ParseInt(y).Some? && ParseInt(y).value < IntMax ==> !r
    ensures ParseInt(x).None? && ParseInt(y).None? ==> (r <==> LexLess(x, y))
    ensures ParseInt(x).Some? && ParseInt(y).Some? && ParseInt(x).value == ParseInt(y).value ==> (r <==> LexLess(x, y))
  {
    var left, right := NumericOrMax(x), NumericOrMax(y);
    if left != right then left < right else LexLess(x, y)
  }

  /**
   * `Version.isPrerelease(_:lessThan:)`: the identifiers of both strings are
   * compared pair by pair; when one list is a prefix of the other, the
   * shorter raw string is less.
   */
  function IsPrereleaseLessThan(lhs: string, rhs: string): (r: bool)
    ensures Split(lhs) == Split(rhs) ==> (r <==> |lhs| < |rhs|)
    ensures |Split(lhs)| < |Split(rhs)| && Split(lhs) == Split(rhs)[..|Split(lhs)|] ==> (r <==> |lhs| < |rhs|)
    ensures |Split(rhs)| < |Split(lhs)| && Split(rhs) == Split(lhs)[..|Split(rhs)|] ==> (r <==> |lhs| < |rhs|)
    ensures FirstDifference(Split(lhs), Split(rhs)).Some? ==> r == IdentifiersLess(Split(lhs), Split(rhs))
  {
    var left, right := Split(lhs), Split(rhs);
    var difference := FirstDifference(left, right);
    if difference.None? then |lhs| < |rhs|
    else
      IdentifiersLessAtDifference(left, right);
      IdentifierLess(left[difference.value], right[difference.value])
  }

  /** The major, minor and patch numbers, compared lexicographically. */
  predicate NumbersLess(lhs: Version, rhs: Version) {
    lhs.major < rhs.major
    || (lhs.major == rhs.major && lhs.minor < rhs.minor)
    || (lhs.major == rhs.major && lhs.minor == rhs.minor && lhs.patch < rhs.patch)
  }

  predicate SameNumbers(lhs: Version, rhs: Version) {
    lhs.major == rhs.major && lhs.minor == rhs.minor && lhs.patch == rhs.patch
  }

  /**
   * `<`: the first differing number decides; with equal numbers a
   * pre-release is less than a release, and two pre-releases compare with
   * `isPrerelease(_:lessThan:)`. Metadata plays no part.
   */
  function Less(lhs: Version, rhs: Version): (r: bool)
    ensures r <==>
              NumbersLess(lhs, rhs) ||
              (SameNumbers(lhs, rhs) && IsPrerelease(lhs) &&
               (!IsPrerelease(rhs) ||
                IsPrereleaseLessThan(lhs.prereleaseString.value, rhs.prereleaseString.value)))
  {
    var left, right := [lhs.major, lhs.minor, lhs.patch], [rhs.major, rhs.minor, rhs.patch];
    var difference := FirstDifference(left, right);
    if difference.Some? then
      assert left[0] == lhs.major && left[1] == lhs.minor && left[2] == lhs.patch;
      assert right[0] == rhs.major && right[1] == rhs.minor && right[2] == rhs.patch;
      assert difference.value > 0 ==> left[0] == right[0];
      assert difference.value > 1 ==> left[1] == right[1];
      left[difference.value] < right[difference.value]
    else
      assert left[0] == right[0] && left[1] == right[1] && left[2] == right[2];
      if IsPrerelease(lhs) && IsPrerelease(rhs) then
        IsPrereleaseLessThan(lhs.prereleaseString.value, rhs.prereleaseString.value)
      else IsPrerelease(lhs) && !IsPrerelease(rhs)
  }

  /** `==`: the numbers and the pre-release strings agree; metadata is ignored. */
  function Equal(lhs: Version, rhs: Version): (r: bool)
    ensures r <==> lhs.(metadataString := None) == rhs.(metadataString := None)
  {
    lhs.major == rhs.major && lhs.minor == rhs.minor && lhs.patch == rhs.patch
    && lhs.prereleaseString == rhs.prereleaseString
  }

  /** `===`: `==` and the same metadata string. */
  function Identical(lhs: Version, rhs: Version): (r: bool)
    ensures r <==> lhs == rhs
  {
    Equal(lhs, rhs) && lhs.metadataString == rhs.metadataString
  }

  /** `!==`. */
  function NotIdentical(lhs: Version, rhs: Version): (r: bool)
    ensures r <==> lhs != rhs
  {
    !Identical(lhs, rhs)
  }

  // ---------------------------------------------------------------------
  // Order laws
  // ---------------------------------------------------------------------

  /** No version is less than itself. */
  lemma {:induction false} LessIrreflexive(v: Version)
    ensures !Less(v, v)
  {
    if IsPrerelease(v) {
      var p := v.prereleaseString.value;
      assert FirstDifference(Split(p), Split(p)).None?;
    }
  }

  lemma {:induction false} FirstDifferenceSymmetric<T>(xs: seq<T>, ys: seq<T>)
    ensures FirstDifference(ys, xs) == FirstDifference(xs, ys)
  {
  }

  /** Two versions are never each less than the other. */
  lemma {:induction false} LessAsymmetric(a: Version, b: Version)
    ensures Less(a, b) ==> !Less(b, a)
  {
    if SameNumbers(a, b) && IsPrerelease(a) && IsPrerelease(b) {
      var p, q := a.prereleaseString.value, b.prereleaseString.value;
      FirstDifferenceSymmetric(Split(p), Split(q));
      var d := FirstDifference(Split(p), Split(q));
      if d.Some? {
        LexLessAsymmetric(Split(p)[d.value], Split(q)[d.value]);
      }
    }
  }

  // ---------------------------------------------------------------------
  // A reference order: lexicographic order on identifier lists
  // ---------------------------------------------------------------------

  /** Lists of identifiers in lexicographic order of `IdentifierLess`; a proper prefix is less. */
  function IdentifiersLess(xs: seq<string>, ys: seq<string>): bool
    decreases |xs|
  {
    if |xs| == 0 then |ys| > 0
    else if |ys| == 0 then false
    else if xs[0] != ys[0] then IdentifierLess(xs[0], ys[0])
    else IdentifiersLess(xs[1..], ys[1..])
  }

  /** At the first differing pair, the reference order is the order of that pair. */
  lemma {:induction false} IdentifiersLessAtDifference(xs: seq<string>, ys: seq<string>)
    requires FirstDifference(xs, ys).Some?
    ensures var i := FirstDifference(xs, ys).value;
            IdentifiersLess(xs, ys) == IdentifierLess(xs[i], ys[i])
    decreases |xs|
  {
    if xs[0] == ys[0] {
      IdentifiersLessAtDifference(xs[1..], ys[1..]);
    }
  }

  /** Without a differing pair, the reference order is the order of the lengths. */
  lemma {:induction false} IdentifiersLessPrefix(xs: seq<string>, ys: seq<string>)
    requires FirstDifference(xs, ys).None?
    ensures IdentifiersLess(xs, ys) == (|xs| < |ys|)
    decreases |xs|
  {
    if |xs| > 0 && |ys| > 0 {
      assert xs[0] == ys[0];
      IdentifiersLessPrefix(xs[1..], ys[1..]);
    }
  }

  /** The text of a pre-release, as a parse produces it: its identifiers joined with '.'. */
  predicate Canonical(p: string) {
    |Split(p)| > 0 && Join(Split(p)) == p
  }

  /**
   * On canonical pre-release strings, `isPrerelease(_:lessThan:)` is the
   * lexicographic order of their identifier lists: the raw-length tie-break
   * then agrees with the number of identifiers.
   */
  lemma {:induction false} PrereleaseLessIsLexicographic(p: string, q: string)
    requires Canonical(p) && Canonical(q)
    ensures IsPrereleaseLessThan(p, q) == IdentifiersLess(Split(p), Split(q))
  {
    var xs, ys := Split(p), Split(q);
    if FirstDifference(xs, ys).Some? {
      IdentifiersLessAtDifference(xs, ys);
    } else {
      IdentifiersLessPrefix(xs, ys);
      if |xs| < |ys| {
        assert xs == ys[..|xs|];
        JoinPrefixShorter(xs, ys);
      } else if |ys| < |xs| {
        assert ys == xs[..|ys|];
        JoinPrefixShorter(ys, xs);
      } else {
        assert xs == ys;
      }
    }
  }

  lemma {:induction false} IdentifierLessTransitive(x: string, y: string, z: string)
    requires IdentifierLess(x, y) && IdentifierLess(y, z)
    ensures IdentifierLess(x, z)
  {
    if NumericOrMax(x) == NumericOrMax(y) == NumericOrMax(z) {
      LexLessTransitive(x, y, z);
    }
  }

  lemma {:induction false} IdentifierLessTotal(x: string, y: string)
    requires x != y
    ensures IdentifierLess(x, y) || IdentifierLess(y, x)
  {
    LexLessTotal(x, y);
  }

  lemma {:induction false} IdentifierLessIrreflexive(x: string)
    ensures !IdentifierLess(x, x)
  {
    LexLessIrreflexive(x);
  }

  lemma {:induction false} IdentifiersLessTransitive(xs: seq<string>, ys: seq<string>, zs: seq<string>)
    requires IdentifiersLess(xs, ys) && IdentifiersLess(ys, zs)
    ensures IdentifiersLess(xs, zs)
    decreases |xs|
  {
    if |xs| > 0 {
      if xs[0] == ys[0] && ys[0] == zs[0] {
        IdentifiersLessTransitive(xs[1..], ys[1..], zs[1..]);
      } else if xs[0] != ys[0] && ys[0] != zs[0] {
        IdentifierLessTransitive(xs[0], ys[0], zs[0]);
        if xs[0] == zs[0] {
          IdentifierLessIrreflexive(xs[0]);
        }
      }
    }
  }

  lemma {:induction false} IdentifiersLessTotal(xs: seq<string>, ys: seq<string>)
    requires xs != ys
    ensures IdentifiersLess(xs, ys) || IdentifiersLess(ys, xs)
    decreases |xs|
  {
    if |xs| > 0 && |ys| > 0 {
      if xs[0] == ys[0] {
        assert xs == [xs[0]] + xs[1..] && ys == [ys[0]] + ys[1..];
        IdentifiersLessTotal(xs[1..], ys[1..]);
      } else {
        IdentifierLessTotal(xs[0], ys[0]);
      }
    }
  }

  /** A version whose pre-release string, if any, is the canonical text of a non-empty identifier list. */
  predicate CanonicalVersion(v: Version) {
    v.prereleaseString.None? || Canonical(v.prereleaseString.value)
  }

  /** On canonical versions `<` is transitive. */
  lemma {:induction false} LessTransitive(a: Version, b: Version, c: Version)
    requires CanonicalVersion(a) && CanonicalVersion(b) && CanonicalVersion(c)
    requires Less(a, b) && Less(b, c)
    ensures Less(a, c)
  {
    if SameNumbers(a, b) && SameNumbers(b, c) && IsPrerelease(a) && IsPrerelease(b) && IsPrerelease(c) {
      var p, q, r := a.prereleaseString.value, b.prereleaseString.value, c.prereleaseString.value;
      PrereleaseLessIsLexicographic(p, q);
      PrereleaseLessIsLexicographic(q, r);
      PrereleaseLessIsLexicographic(p, r);
      IdentifiersLessTransitive(Split(p), Split(q), Split(r));
    }
  }

  /** On canonical versions exactly one of `<`, `==`, `>` holds. */
  lemma {:induction false} LessTrichotomous(a: Version, b: Version)
    requires CanonicalVersion(a) && CanonicalVersion(b)
    ensures Less(a, b) || Equal(a, b) || Less(b, a)
    ensures Equal(a, b) ==> !Less(a, b) && !Less(b, a)
  {
    if Equal(a, b) {
      LessIrreflexive(a);
      assert Less(a, b) == Less(a, a) && Less(b, a) == Less(a, a);
    } else if SameNumbers(a, b) && IsPrerelease(a) && IsPrerelease(b) {
      var p, q := a.prereleaseString.value, b.prereleaseString.value;
      PrereleaseLessIsLexicographic(p, q);
      PrereleaseLessIsLexicographic(q, p);
      assert Split(p) != Split(q);
      IdentifiersLessTotal(Split(p), Split(q));
    }
  }

  // ---------------------------------------------------------------------
  // Where the order laws stop: inputs the discrete initialiser accepts
  // ---------------------------------------------------------------------

  /** An empty pre-release string is no pre-release for `<`, yet `==` still tells it from nil. */
  lemma {:induction false} EmptyPrereleaseIncomparable()
    ensures var a, b := Version(1, 0, 0, Some(""), None), Version(1, 0, 0, None, None);
            Make(1, 0, 0, Some(""), None) == Ok(a) &&
            !Less(a, b) && !Less(b, a) && !Equal(a, b)
  {
    var a := Version(1, 0, 0, Some(""), None);
    assert Split("") == [];
    assert !IsPrerelease(a);
  }

  /**
   * With empty identifiers the raw-length tie-break makes `<` cyclic: for
   * identifiers x < y, padding with dots gives
   * x + "." + dots1 < x + "." + (x + "." + dots2) < x + "." + y < x + "." + dots1
   * whenever the lengths grow in that order, for example
   * "a........." < "a.a........" < "a.b" < "a.........".
   */
  lemma {:induction false} PrereleaseCycle(x: string, y: string, dots1: string, dots2: string)
    requires |x| > 0 && '.' !in x && |y| > 0 && '.' !in y && IdentifierLess(x, y)
    requires forall i :: 0 <= i < |dots1| ==> dots1[i] == '.'
    requires forall i :: 0 <= i < |dots2| ==> dots2[i] == '.'
    requires |y| < |dots1| && |dots1| < |x| + 1 + |dots2|
    ensures var p, q, r := x + "." + dots1, x + "." + (x + "." + dots2), x + "." + y;
            IsPrereleaseLessThan(p, q) && IsPrereleaseLessThan(q, r) && IsPrereleaseLessThan(r, p)
  {
    var p, q, r := x + "." + dots1, x + "." + (x + "." + dots2), x + "." + y;
    CycleSplits(x, y, dots1, dots2);
    assert IsPrereleaseLessThan(p, q) by {
      assert FirstDifference([x], [x, x]).None?;
    }
    assert IsPrereleaseLessThan(q, r) by {
      IdentifierLessIrreflexive(x);
      assert [x, x][1..] == [x] && [x, y][1..] == [y];
      assert FirstDifference([x, x], [x, y]) == Some(1);
    }
    assert IsPrereleaseLessThan(r, p) by {
      assert FirstDifference([x, y], [x]).None?;
    }
  }

  lemma {:induction false} CycleSplits(x: string, y: string, dots1: string, dots2: string)
    requires |x| > 0 && '.' !in x && |y| > 0 && '.' !in y
    requires forall i :: 0 <= i < |dots1| ==> dots1[i] == '.'
    requires forall i :: 0 <= i < |dots2| ==> dots2[i] == '.'
    ensures Split(x + "." + dots1) == [x]
    ensures Split(x + "." + (x + "." + dots2)) == [x, x]
    ensures Split(x + "." + y) == [x, y]
  {
    SplitPieceThenDots(x, dots1);
    SplitPieceTwiceThenDots(x, dots2);
    SplitTwoPieces(x, y);
  }

  lemma {:induction false} SplitPieceTwiceThenDots(x: string, dots: string)
    requires |x| > 0 && '.' !in x
    requires forall i :: 0 <= i < |dots| ==> dots[i] == '.'
    ensures Split(x + "." + (x + "." + dots)) == [x, x]
  {
    SplitPiece(x, x + "." + dots);
    SplitPieceThenDots(x, dots);
    assert [x] + [x] == [x, x];
  }

  lemma {:induction false} SplitPieceThenDots(x: string, dots: string)
    requires |x| > 0 && '.' !in x
    requires forall i :: 0 <= i < |dots| ==> dots[i] == '.'
    ensures Split(x + "." + dots) == [x]
  {
    SplitPiece(x, dots);
    assert Split(dots) == [];
  }

  lemma {:induction false} SplitTwoPieces(x: string, y: string)
    requires |x| > 0 && '.' !in x && |y| > 0 && '.' !in y
    ensures Split(x + "." + y) == [x, y]
  {
    SplitPiece(x, y);
    SplitJoin([y]);
    assert Join([y]) == y;
  }

  /**
   * The cycle on versions: for identifiers x < y made of identifier
   * characters, the discrete initialiser accepts all three pre-release
   * strings, and `<` runs round in a circle.
   */
  lemma {:induction false} VersionCycle(x: string, y: string, dots1: string, dots2: string)
    requires IsIdentifier(x) && IsIdentifier(y) && IdentifierLess(x, y)
    requires forall i :: 0 <= i < |dots1| ==> dots1[i] == '.'
    requires forall i :: 0 <= i < |dots2| ==> dots2[i] == '.'
    requires |y| < |dots1| && |dots1| < |x| + 1 + |dots2|
    ensures var a, b, c := Version(0, 0, 0, Some(x + "." + dots1), None),
                           Version(0, 0, 0, Some(x + "." + (x + "." + dots2)), None),
                           Version(0, 0, 0, Some(x + "." + y), None);
            Make(0, 0, 0, a.prereleaseString, None) == Ok(a) &&
            Make(0, 0, 0, b.prereleaseString, None) == Ok(b) &&
            Make(0, 0, 0, c.prereleaseString, None) == Ok(c) &&
            Less(a, b) && Less(b, c) && Less(c, a)
  {
    assert '.' !in x && '.' !in y by {
      assert forall i :: 0 <= i < |x| ==> IsIdentifierChar(x[i]);
      assert forall i :: 0 <= i < |y| ==> IsIdentifierChar(y[i]);
    }
    PrereleaseCycle(x, y, dots1, dots2);
    CycleStringsAccepted(x, y, dots1, dots2);
  }

  /** The three pre-release strings of `VersionCycle` are identifier text that starts with an identifier. */
  lemma {:induction false} CycleStringsAccepted(x: string, y: string, dots1: string, dots2: string)
    requires IsIdentifier(x) && IsIdentifier(y)
    requires forall i :: 0 <= i < |dots1| ==> dots1[i] == '.'
    requires forall i :: 0 <= i < |dots2| ==> dots2[i] == '.'
    ensures IdentifiersText(Some(x + "." + dots1)) && IdentifiersText(Some(x + "." + (x + "." + dots2)))
    ensures IdentifiersText(Some(x + "." + y))
  {
    IdentifierCharsThenDots(x, dots1);
    IdentifierCharsThenDots(x, dots2);
    assert IdentifiersText(Some(x + "." + dots2));
    IdentifierCharsThen(x, x + "." + dots2);
    IdentifierCharsThen(x, y);
  }

  lemma {:induction false} IdentifierCharsThen(x: string, t: string)
    requires IsIdentifier(x) && IdentifiersText(Some(t))
    ensures IdentifiersText(Some(x + "." + t))
  {
    var s := x + "." + t;
    forall i | 0 <= i < |s|
      ensures InSet(IdentifiersString, s[i])
    {
      if i > |x| {
        assert s[i] == t[i - |x| - 1];
      }
    }
  }

  lemma {:induction false} IdentifierCharsThenDots(x: string, dots: string)
    requires IsIdentifier(x)
    requires forall i :: 0 <= i < |dots| ==> dots[i] == '.'
    ensures IdentifiersText(Some(x + "." + dots))
  {
    IdentifierCharsThen(x, dots);
  }

  // ---------------------------------------------------------------------
  // How single identifiers compare
  // ---------------------------------------------------------------------

  /** `Int(_:)` reads the decimal text of every `Int` back. */
  lemma {:induction false} ParseDecimal(n: NonNegativeInt)
    ensures ParseInt(Decimal(n)) == Some(n)
  {
    assert Decimal(n)[0] != '-' && Decimal(n)[0] != '+';
  }

  /** A numeric identifier below `Int.max` comes before every identifier `Int(_:)` rejects. */
  lemma {:induction false} NumericBeforeNonNumeric(n: NonNegativeInt, x: string)
    requires n < IntMax && ParseInt(x).None?
    ensures IdentifierLess(Decimal(n), x) && !IdentifierLess(x, Decimal(n))
  {
    ParseDecimal(n);
  }

  /** Numeric identifiers compare by value, not as text: "9" comes before "10". */
  lemma {:induction false} NumericByValue(m: NonNegativeInt, n: NonNegativeInt)
    ensures IdentifierLess(Decimal(m), Decimal(n)) <==> m < n
  {
    ParseDecimal(m);
    ParseDecimal(n);
    if m == n {
      LexLessIrreflexive(Decimal(m));
    }
  }

  /**
   * The decimal text of `Int.max` takes the value non-numeric identifiers
   * are given, so against those it is compared as a string.
   */
  lemma {:induction false} IntMaxCollision(x: string)
    requires ParseInt(x).None?
    ensures IdentifierLess(Decimal(IntMax), x) <==> LexLess(Decimal(IntMax), x)
    ensures IdentifierLess(x, Decimal(IntMax)) <==> LexLess(x, Decimal(IntMax))
  {
    ParseDecimal(IntMax);
  }

  /** `Int(_:)` accepts a sign, so "-1" is a number and comes before "0". */
  lemma {:induction false} NegativeIdentifier(n: nat)
    requires 0 < n <= IntMax
    ensures ParseInt("-" + Decimal(n)) == Some(-(n as int))
    ensures IdentifierLess("-" + Decimal(n), Decimal(0))
  {
    assert ("-" + Decimal(n))[1..] == Decimal(n);
    ParseDecimal(0);
  }

  /**
   * "01" and "1" have the same `Int(_:)` value, so their text decides: "01"
   * comes first. The discrete initialiser accepts both as pre-release strings.
   */
  lemma {:induction false} SameValueByText()
    ensures ParseInt("01") == Some(1) && ParseInt("1") == Some(1)
    ensures IdentifierLess("01", "1") && !IdentifierLess("1", "01")
  {
    assert "01"[..1] == "0" && DigitsValue("01") == 1;
    assert "1"[..0] == "" && DigitsValue("1") == 1;
    assert LexLess("01", "1");
  }

  // ---------------------------------------------------------------------
  // The pre-release precedence example of Semantic Versioning 2.0.0
  // ---------------------------------------------------------------------

  /** Version 1.0.0 with the pre-release string `p`. */
  function OneZeroZero(p: string): Version {
    Version(1, 0, 0, Some(p), None)
  }

  /** A piece without dots splits into itself alone. */
  lemma {:induction false} SplitOnePiece(x: string)
    requires |x| > 0 && '.' !in x
    ensures Split(x) == [x]
  {
    SplitJoin([x]);
    assert Join([x]) == x;
  }

  /** Two versions that differ only in their pre-release strings compare as those strings do. */
  lemma {:induction false} SamePrereleaseNumbers(p: string, q: string)
    requires |Split(p)| > 0 && |Split(q)| > 0
    ensures Less(OneZeroZero(p), OneZeroZero(q)) == IsPrereleaseLessThan(p, q)
  {
  }

  /** A single identifier comes before itself followed by more. */
  lemma {:induction false} PrefixFirst(x: string, y: string)
    requires |x| > 0 && '.' !in x && |y| > 0 && '.' !in y
    ensures Less(OneZeroZero(x), OneZeroZero(x + "." + y))
  {
    SplitOnePiece(x);
    SplitTwoPieces(x, y);
    assert [x, y][..1] == [x];
    SamePrereleaseNumbers(x, x + "." + y);
  }

  /** With the same first identifier, the second decides. */
  lemma {:induction false} SecondDecides(x: string, y: string, z: string)
    requires |x| > 0 && '.' !in x && |y| > 0 && '.' !in y && |z| > 0 && '.' !in z
    requires y != z && IdentifierLess(y, z)
    ensures Less(OneZeroZero(x + "." + y), OneZeroZero(x + "." + z))
  {
    SplitTwoPieces(x, y);
    SplitTwoPieces(x, z);
    assert FirstDifference([x, y], [x, z]) == Some(1);
    SamePrereleaseNumbers(x + "." + y, x + "." + z);
  }

  /** With different first identifiers, the first decides, whatever follows. */
  lemma {:induction false} FirstDecides(x: string, y: string, u: string, w: Option<string>)
    requires |x| > 0 && '.' !in x && |y| > 0 && '.' !in y && |u| > 0 && '.' !in u
    requires w.Some? ==> |w.value| > 0 && '.' !in w.value
    requires x != u && IdentifierLess(x, u)
    ensures Less(OneZeroZero(x + "." + y), OneZeroZero(if w.Some? then u + "." + w.value else u))
  {
    SplitTwoPieces(x, y);
    var q := if w.Some? then u + "." + w.value else u;
    if w.Some? {
      SplitTwoPieces(u, w.value);
      assert FirstDifference([x, y], [u, w.value]) == Some(0);
    } else {
      SplitOnePiece(u);
      assert FirstDifference([x, y], [u]) == Some(0);
    }
    SamePrereleaseNumbers(x + "." + y, q);
  }

  /** The identifier comparisons the example relies on. */
  lemma {:induction false} OneBeforeBeta()
    ensures "1" != "beta" && IdentifierLess("1", "beta")
  {
    assert Decimal(1) == "1";
    assert "beta"[0] == 'b' && ParseInt("beta").None?;
    NumericBeforeNonNumeric(1, "beta");
  }

  lemma {:induction false} AlphaBeforeBeta()
    ensures "alpha" != "beta" && IdentifierLess("alpha", "beta")
  {
    assert "alpha"[0] == 'a' && ParseInt("alpha").None?;
    assert "beta"[0] == 'b' && ParseInt("beta").None?;
    assert LexLess("alpha", "beta");
  }

  lemma {:induction false} TwoBeforeEleven()
    ensures "2" != "11" && IdentifierLess("2", "11")
  {
    assert Decimal(2) == "2" && Decimal(11) == "11";
    NumericByValue(2, 11);
  }

  lemma {:induction false} BetaBeforeRc()
    ensures "beta" != "rc" && IdentifierLess("beta", "rc")
  {
    assert "beta"[0] == 'b' && ParseInt("beta").None?;
    assert "rc"[0] == 'r' && ParseInt("rc").None?;
    assert LexLess("beta", "rc");
  }

  /** The dotted pre-releases of the example, each as its identifiers joined by '.'. */
  lemma {:induction false} DottedExamples()
    ensures "alpha" + "." + "1" == "alpha.1" && "alpha" + "." + "beta" == "alpha.beta"
    ensures "beta" + "." + "2" == "beta.2" && "beta" + "." + "11" == "beta.11"
    ensures "rc" + "." + "1" == "rc.1"
  {
  }

  /** "1.0.0-alpha" < "1.0.0-alpha.1": a proper prefix of the identifiers comes first. */
  lemma {:induction false} AlphaBeforeAlphaOne()
    ensures Less(OneZeroZero("alpha"), OneZeroZero("alpha.1"))
  {
    PrefixFirst("alpha", "1");
    DottedExamples();
  }

  /** "1.0.0-alpha.1" < "1.0.0-alpha.beta": a numeric identifier comes before a non-numeric one. */
  lemma {:induction false} AlphaOneBeforeAlphaBeta()
    ensures Less(OneZeroZero("alpha.1"), OneZeroZero("alpha.beta"))
  {
    OneBeforeBeta();
    SecondDecides("alpha", "1", "beta");
    DottedExamples();
  }

  /** "1.0.0-alpha.beta" < "1.0.0-beta": non-numeric identifiers compare as strings. */
  lemma {:induction false} AlphaBetaBeforeBeta()
    ensures Less(OneZeroZero("alpha.beta"), OneZeroZero("beta"))
  {
    AlphaBeforeBeta();
    FirstDecides("alpha", "beta", "beta", None);
    DottedExamples();
  }

  /** "1.0.0-beta" < "1.0.0-beta.2". */
  lemma {:induction false} BetaBeforeBetaTwo()
    ensures Less(OneZeroZero("beta"), OneZeroZero("beta.2"))
  {
    PrefixFirst("beta", "2");
    DottedExamples();
  }

  /** "1.0.0-beta.2" < "1.0.0-beta.11": numeric identifiers compare by value. */
  lemma {:induction false} BetaTwoBeforeBetaEleven()
    ensures Less(OneZeroZero("beta.2"), OneZeroZero("beta.11"))
  {
    TwoBeforeEleven();
    SecondDecides("beta", "2", "11");
    DottedExamples();
  }

  /** "1.0.0-beta.11" < "1.0.0-rc.1". */
  lemma {:induction false} BetaElevenBeforeRcOne()
    ensures Less(OneZeroZero("beta.11"), OneZeroZero("rc.1"))
  {
    BetaBeforeRc();
    FirstDecides("beta", "11", "rc", Some("1"));
    DottedExamples();
  }

  /** "1.0.0-rc.1" < "1.0.0": a pre-release comes before the release. */
  lemma {:induction false} RcOneBeforeRelease()
    ensures Less(OneZeroZero("rc.1"), Version(1, 0, 0, None, None))
  {
    SplitTwoPieces("rc", "1");
    DottedExamples();
  }
}
