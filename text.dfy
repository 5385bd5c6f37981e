/**
 * The pieces of the Swift standard library that the version core relies on,
 * written out: the width of `Int`, `Int(_:)` on text, decimal rendering of an
 * integer, `String` ordering, and `split(separator:)` / `joined(separator:)`
 * with the separator ".".
 */
module Text {
  import opened Wrappers

  /** `Int.max` and `Int.min` of a 64-bit Swift `Int`. */
  const IntMax: int := 0x7FFF_FFFF_FFFF_FFFF
  const IntMin: int := -0x8000_0000_0000_0000

  /** A Swift `Int`. */
  type Int64 = x: int | IntMin <= x <= IntMax

  /** A Swift `Int` that is not negative. */
  type NonNegativeInt = x: int | 0 <= x <= IntMax

  predicate IsDigit(c: char) {
    '0' <= c <= '9'
  }

  predicate AllDigits(s: string) {
    forall i :: 0 <= i < |s| ==> IsDigit(s[i])
  }

  function DigitValue(c: char): nat
    requires IsDigit(c)
  {
    (c as int) - ('0' as int)
  }

  /** The value of a string of decimal digits, read most significant digit first. */
  function DigitsValue(s: string): nat
    requires AllDigits(s)
  {
    if |s| == 0 then 0 else 10 * DigitsValue(s[..|s| - 1]) + DigitValue(s[|s| - 1])
  }

  /** A string of digits has value zero exactly when every digit is '0'. */
  lemma {:induction false} DigitsValueZero(s: string)
    requires AllDigits(s)
    ensures DigitsValue(s) == 0 <==> forall i :: 0 <= i < |s| ==> s[i] == '0'
  {
    if |s| > 0 {
      var init := s[..|s| - 1];
      DigitsValueZero(init);
      assert forall i :: 0 <= i < |init| ==> init[i] == s[i];
    }
  }

  /**
   * Swift's `Int(_: String)`: an optional '+' or '-' followed by one or more
   * ASCII digits, whose value fits in an `Int`; anything else gives nil.
   */
  function ParseInt(s: string): (r: Option<Int64>)
    ensures |s| == 0 ==> r.None?
    ensures |s| > 0 && AllDigits(s) ==>
              r == if DigitsValue(s) <= IntMax then Some(DigitsValue(s)) else None
    ensures r.Some? && IsDigit(s[0]) ==> AllDigits(s) && r.value == DigitsValue(s)
  {
    if |s| > 0 && (s[0] == '-' || s[0] == '+') then
      var digits := s[1..];
      if |digits| > 0 && AllDigits(digits) then
        var magnitude: int := DigitsValue(digits);
        var v := if s[0] == '-' then -magnitude else magnitude;
        if IntMin <= v <= IntMax then Some(v) else None
      else None
    else if |s| > 0 && AllDigits(s) && DigitsValue(s) <= IntMax then Some(DigitsValue(s))
    else None
  }

  /** The decimal text of a non-negative integer, as `"\(n)"` renders it. */
  function Decimal(n: nat): (r: string)
    ensures |r| > 0 && AllDigits(r) && DigitsValue(r) == n
    ensures r[0] == '0' <==> n == 0
  {
    var last := [(('0' as int) + n % 10) as char];
    if n < 10 then last else Decimal(n / 10) + last
  }

  /** Swift's `<` on two strings: lexicographic order of their characters. */
  function LexLess(a: string, b: string): bool
  {
    if |b| == 0 then false
    else if |a| == 0 then true
    else if a[0] != b[0] then a[0] < b[0]
    else LexLess(a[1..], b[1..])
  }

  lemma {:induction false} LexLessIrreflexive(a: string)
    ensures !LexLess(a, a)
  {
    if |a| > 0 { LexLessIrreflexive(a[1..]); }
  }

  lemma {:induction false} LexLessAsymmetric(a: string, b: string)
    ensures LexLess(a, b) ==> !LexLess(b, a)
  {
    if |a| > 0 && |b| > 0 && a[0] == b[0] { LexLessAsymmetric(a[1..], b[1..]); }
  }

  lemma {:induction false} LexLessTransitive(a: string, b: string, c: string)
    requires LexLess(a, b) && LexLess(b, c)
    ensures LexLess(a, c)
  {
    if |a| > 0 && a[0] == b[0] && b[0] == c[0] {
      LexLessTransitive(a[1..], b[1..], c[1..]);
    }
  }

  lemma {:induction false} LexLessTotal(a: string, b: string)
    requires a != b
    ensures LexLess(a, b) || LexLess(b, a)
  {
    if |a| > 0 && |b| > 0 && a[0] == b[0] {
      assert a == [a[0]] + a[1..] && b == [b[0]] + b[1..];
      LexLessTotal(a[1..], b[1..]);
    }
  }

  /** The number of leading characters of `s` that are not '.'. */
  function PieceLength(s: string): (n: nat)
    ensures n <= |s|
    ensures forall i :: 0 <= i < n ==> s[i] != '.'
    ensures n < |s| ==> s[n] == '.'
  {
    if |s| == 0 || s[0] == '.' then 0 else 1 + PieceLength(s[1..])
  }

  /**
   * `s.split(separator: ".")`: the maximal runs of characters other than '.',
   * in order; empty pieces are dropped.
   */
  function Split(s: string): (r: seq<string>)
    ensures forall k :: 0 <= k < |r| ==> |r[k]| > 0 && '.' !in r[k]
    ensures |r| == 0 <==> forall i :: 0 <= i < |s| ==> s[i] == '.'
    decreases |s|
  {
    if |s| == 0 then []
    else if s[0] == '.' then Split(s[1..])
    else
      var n := PieceLength(s);
      [s[..n]] + Split(s[n..])
  }

  /** `ids.joined(separator: ".")`. */
  function Join(ids: seq<string>): string
  {
    if |ids| == 0 then ""
    else if |ids| == 1 then ids[0]
    else ids[0] + "." + Join(ids[1..])
  }

  /** Each of `ids` followed by '.': the text a list scan has read when it expects one more identifier. */
  function DotAfterEach(ids: seq<string>): string
  {
    if |ids| == 0 then "" else ids[0] + "." + DotAfterEach(ids[1..])
  }

  /** A join followed by '.' puts a '.' after each piece. */
  lemma {:induction false} JoinThenDot(ids: seq<string>)
    requires |ids| > 0
    ensures Join(ids) + "." == DotAfterEach(ids)
  {
    if |ids| > 1 {
      JoinThenDot(ids[1..]);
      assert Join(ids) + "." == ids[0] + "." + (Join(ids[1..]) + ".");
    }
  }

  predicate NoEmptyPieces(ids: seq<string>) {
    forall k :: 0 <= k < |ids| ==> |ids[k]| > 0 && '.' !in ids[k]
  }

  /** Splitting the join of non-empty, dot-free pieces gives the pieces back. */
  lemma {:induction false} SplitJoin(ids: seq<string>)
    requires NoEmptyPieces(ids)
    ensures Split(Join(ids)) == ids
  {
    if |ids| == 1 {
      var x := ids[0];
      assert PieceLength(x) == |x|;
      assert x[..|x|] == x && x[|x|..] == [];
      assert Split(x) == [x] + Split([]);
    } else if |ids| > 1 {
      var x, tail := ids[0], Join(ids[1..]);
      var s := Join(ids);
      assert s == x + "." + tail;
      assert s[|x|] == '.';
      assert forall i :: 0 <= i < |x| ==> s[i] == x[i];
      assert PieceLength(s) == |x|;
      assert s[..|x|] == x;
      assert s[|x|..] == "." + tail;
      assert Split("." + tail) == Split(tail) by {
        assert ("." + tail)[1..] == tail;
      }
      SplitJoin(ids[1..]);
      assert ids == [x] + ids[1..];
    }
  }

  /** A non-empty, dot-free piece followed by '.' splits off as the first identifier. */
  lemma {:induction false} SplitPiece(x: string, t: string)
    requires |x| > 0 && '.' !in x
    ensures Split(x + "." + t) == [x] + Split(t)
  {
    var s := x + "." + t;
    assert s[|x|] == '.';
    assert forall i :: 0 <= i < |x| ==> s[i] == x[i];
    assert PieceLength(s) == |x|;
    assert s[..|x|] == x;
    assert s[|x|..] == "." + t;
    assert ("." + t)[1..] == t;
  }

  /** The join of a non-empty list is at least as long as its first piece. */
  lemma {:induction false} JoinHeadLength(ids: seq<string>)
    requires |ids| > 0
    ensures |Join(ids)| >= |ids[0]|
  {
  }

  /**
   * With non-empty pieces, a list that is a proper prefix of another joins to
   * a strictly shorter string.
   */
  lemma {:induction false} JoinPrefixShorter(a: seq<string>, b: seq<string>)
    requires |a| < |b| && a == b[..|a|]
    requires NoEmptyPieces(b)
    ensures |Join(a)| < |Join(b)|
  {
    if |a| == 0 {
      JoinHeadLength(b);
    } else if |a| == 1 {
      assert |b| > 1;
      assert Join(b) == b[0] + "." + Join(b[1..]);
    } else {
      assert a[0] == b[0];
      assert a[1..] == b[1..][..|a| - 1];
      JoinPrefixShorter(a[1..], b[1..]);
    }
  }
}
