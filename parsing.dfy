/**
 * What `init(_:strict:)` accepts and what it builds: the description of a
 * well-formed version parses back to that version, the lenient parse fills
 * in a missing minor or patch number with 0 where the strict one fails,
 * leading zeros are refused in numbers and pre-release identifiers but not
 * in metadata, and trailing text, empty identifiers and a '.' without digits
 * are errors.
 */
module ParsingLaws {
  import opened Wrappers
  import opened Text
  import opened Scanning
  import opened Versions
  import opened Ordering

  /** Text that `nextIdentifiers(allowLeadingZeros:)` reads back exactly: allowed identifiers joined by '.'. */
  predicate DottedIdentifiers(s: string, allowLeadingZeros: bool) {
    AllowedList(Split(s), allowLeadingZeros) && Join(Split(s)) == s
  }

  /**
   * A version the string initialiser can produce: a pre-release string made
   * of identifiers without leading zeros, and a metadata string made of
   * identifiers.
   */
  predicate WellFormed(v: Version) {
    (v.prereleaseString.Some? ==> DottedIdentifiers(v.prereleaseString.value, false)) &&
    (v.metadataString.Some? ==> DottedIdentifiers(v.metadataString.value, true))
  }

  /** "-" or "+" and the string, as `description` appends it, or nothing. */
  function Rendered(lead: char, part: Option<string>): string {
    if part.Some? then [lead] + part.value else ""
  }

  /** The three numbers of a description, "major.minor.patch". */
  function Numbers(v: Version): string {
    Decimal(v.major) + "." + Decimal(v.minor) + "." + Decimal(v.patch)
  }

  /** The pre-release and metadata parts of a description. */
  function Suffixes(v: Version): string {
    Rendered('-', v.prereleaseString) + Rendered('+', v.metadataString)
  }

  /** A description is its numbers followed by its suffixes. */
  lemma {:induction false} DescriptionShape(v: Version, t: string)
    ensures Description(v) == Numbers(v) + Suffixes(v)
    ensures Description(v) + t == Numbers(v) + (Suffixes(v) + t)
  {
  }

  /** The text after which a description stops being read: the scan of its last part ends there. */
  predicate Stops(v: Version, t: string) {
    t == [] ||
    (!IsDigit(t[0]) &&
     (v.metadataString.None? ==> t[0] != '+') &&
     (v.prereleaseString.None? && v.metadataString.None? ==> t[0] != '-') &&
     (v.prereleaseString.Some? || v.metadataString.Some? ==> !IsIdentifierChar(t[0]) && t[0] != '.'))
  }

  // ---------------------------------------------------------------------
  // Reading back the pieces of a description
  // ---------------------------------------------------------------------

  /** `nextNumber()` reads the decimal text of a number back as that number. */
  lemma {:induction false} NumberTokenOfDecimal(n: NonNegativeInt, t: string)
    requires t == [] || !IsDigit(t[0])
    ensures NumberToken(Decimal(n) + t) == Ok(Scanned(n, |Decimal(n)|))
  {
    var d := Decimal(n);
    var s := d + t;
    assert forall i :: 0 <= i < |d| ==> s[i] == d[i];
    SpanLengthUnique(s, DecimalDigits, |d|);
    assert s[..|d|] == d;
  }

  /** The minor or patch step reads "." and a number back. */
  lemma {:induction false} ComponentOf(n: NonNegativeInt, t: string, strict: bool)
    requires t == [] || !IsDigit(t[0])
    ensures OptionalNumber("." + Decimal(n) + t, strict) == Ok(Scanned(n, |Decimal(n)| + 1))
  {
    var s := "." + Decimal(n) + t;
    assert s[1..] == Decimal(n) + t;
    NumberTokenOfDecimal(n, t);
  }

  /** The pre-release or metadata step from the outcome of its identifier-list scan. */
  lemma {:induction false} OptionalIdentifiersFrom(s: string, lead: char, allowLeadingZeros: bool, ids: seq<string>, n: nat)
    requires |s| > 0 && s[0] == lead
    requires IdentifierList(s[1..], allowLeadingZeros) == Ok(Scanned(ids, n))
    ensures OptionalIdentifiers(s, lead, allowLeadingZeros) == Ok(Scanned(Some(Join(ids)), n + 1))
  {
  }

  /** The same, with the text given as its lead character and the rest. */
  lemma {:induction false} OptionalIdentifiersAfterLead(lead: char, rest: string, allowLeadingZeros: bool, ids: seq<string>, n: nat)
    requires IdentifierList(rest, allowLeadingZeros) == Ok(Scanned(ids, n))
    ensures OptionalIdentifiers([lead] + rest, lead, allowLeadingZeros) == Ok(Scanned(Some(Join(ids)), n + 1))
  {
    assert ([lead] + rest)[1..] == rest;
    OptionalIdentifiersFrom([lead] + rest, lead, allowLeadingZeros, ids, n);
  }

  /** The pre-release or metadata step reads back its lead character and joined identifiers. */
  lemma {:induction false} PartOfIdentifiers(lead: char, ids: seq<string>, allowLeadingZeros: bool, t: string)
    requires AllowedList(ids, allowLeadingZeros)
    requires t == [] || (!IsIdentifierChar(t[0]) && t[0] != '.')
    ensures OptionalIdentifiers([lead] + (Join(ids) + t), lead, allowLeadingZeros)
         == Ok(Scanned(Some(Join(ids)), |Join(ids)| + 1))
  {
    IdentifierListOf(ids, t, allowLeadingZeros);
    OptionalIdentifiersAfterLead(lead, Join(ids) + t, allowLeadingZeros, ids, |Join(ids)|);
  }

  /** The same for a rendered string of dotted identifiers. */
  lemma {:induction false} PartOfSome(lead: char, x: string, allowLeadingZeros: bool, t: string)
    requires DottedIdentifiers(x, allowLeadingZeros)
    requires t == [] || (!IsIdentifierChar(t[0]) && t[0] != '.')
    ensures OptionalIdentifiers(Rendered(lead, Some(x)) + t, lead, allowLeadingZeros) == Ok(Scanned(Some(x), |x| + 1))
  {
    var ids := Split(x);
    assert Rendered(lead, Some(x)) + t == [lead] + (Join(ids) + t);
    PartOfIdentifiers(lead, ids, allowLeadingZeros, t);
  }

  /** An absent part renders as nothing, and the step reads nothing when `t` does not start with its lead. */
  lemma {:induction false} PartOfNone(lead: char, allowLeadingZeros: bool, t: string)
    requires t == [] || t[0] != lead
    ensures OptionalIdentifiers(Rendered(lead, None) + t, lead, allowLeadingZeros) == Ok(Scanned(None, 0))
  {
    assert Rendered(lead, None) + t == t;
  }

  /** The pre-release or metadata step reads a rendered part back. */
  lemma {:induction false} PartOf(lead: char, part: Option<string>, allowLeadingZeros: bool, t: string)
    requires part.Some? ==>
               DottedIdentifiers(part.value, allowLeadingZeros) &&
               (t == [] || (!IsIdentifierChar(t[0]) && t[0] != '.'))
    requires part.None? ==> t == [] || t[0] != lead
    ensures OptionalIdentifiers(Rendered(lead, part) + t, lead, allowLeadingZeros)
         == Ok(Scanned(part, |Rendered(lead, part)|))
  {
    if part.Some? {
      PartOfSome(lead, part.value, allowLeadingZeros, t);
    } else {
      PartOfNone(lead, allowLeadingZeros, t);
    }
  }

  /** The parse from the outcome of its major-number step. */
  lemma {:induction false} ParsedFromMajor(s: string, strict: bool, major: NonNegativeInt, n: nat)
    requires NumberToken(s) == Ok(Scanned(major, n))
    ensures n <= |s| && Parsed(s, strict) == AfterMajor(major, s[n..], strict)
  {
  }

  /** The parse after the major number from the outcome of its minor-number step. */
  lemma {:induction false} AfterMajorFromMinor(major: NonNegativeInt, s: string, strict: bool, minor: NonNegativeInt, n: nat)
    requires OptionalNumber(s, strict) == Ok(Scanned(minor, n))
    ensures n <= |s| && AfterMajor(major, s, strict) == AfterMinor(major, minor, s[n..], strict)
  {
  }

  /** The parse after the minor number from the outcome of its patch-number step. */
  lemma {:induction false} AfterMinorFromPatch(major: NonNegativeInt, minor: NonNegativeInt, s: string, strict: bool,
                                               patch: NonNegativeInt, n: nat)
    requires OptionalNumber(s, strict) == Ok(Scanned(patch, n))
    ensures n <= |s| && AfterMinor(major, minor, s, strict) == Suffix(major, minor, patch, s[n..])
  {
  }

  /** The major-number step reads a decimal back. */
  lemma {:induction false} MajorOf(major: NonNegativeInt, s: string, strict: bool)
    requires s == [] || !IsDigit(s[0])
    ensures Parsed(Decimal(major) + s, strict) == AfterMajor(major, s, strict)
  {
    NumberTokenOfDecimal(major, s);
    ParsedFromMajor(Decimal(major) + s, strict, major, |Decimal(major)|);
    assert (Decimal(major) + s)[|Decimal(major)|..] == s;
  }

  /** The minor-number step reads "." and a decimal back. */
  lemma {:induction false} MinorOf(major: NonNegativeInt, minor: NonNegativeInt, s: string, strict: bool)
    requires s == [] || !IsDigit(s[0])
    ensures AfterMajor(major, "." + Decimal(minor) + s, strict) == AfterMinor(major, minor, s, strict)
  {
    ComponentOf(minor, s, strict);
    AfterMajorFromMinor(major, "." + Decimal(minor) + s, strict, minor, |Decimal(minor)| + 1);
    assert ("." + Decimal(minor) + s)[|Decimal(minor)| + 1..] == s;
  }

  /** The patch-number step reads "." and a decimal back. */
  lemma {:induction false} PatchOf(major: NonNegativeInt, minor: NonNegativeInt, patch: NonNegativeInt, s: string, strict: bool)
    requires s == [] || !IsDigit(s[0])
    ensures AfterMinor(major, minor, "." + Decimal(patch) + s, strict) == Suffix(major, minor, patch, s)
  {
    ComponentOf(patch, s, strict);
    AfterMinorFromPatch(major, minor, "." + Decimal(patch) + s, strict, patch, |Decimal(patch)| + 1);
    assert ("." + Decimal(patch) + s)[|Decimal(patch)| + 1..] == s;
  }

  /** The three numbers of a description are read back, leaving its suffix and what follows. */
  lemma {:induction false} DescriptionNumbers(v: Version, tail: string, strict: bool)
    requires tail == [] || !IsDigit(tail[0])
    ensures Parsed(Numbers(v) + tail, strict) == Suffix(v.major, v.minor, v.patch, tail)
  {
    var s3 := "." + Decimal(v.patch) + tail;
    var s2 := "." + Decimal(v.minor) + s3;
    assert Numbers(v) + tail == Decimal(v.major) + s2;
    MajorOf(v.major, s2, strict);
    MinorOf(v.major, v.minor, s3, strict);
    PatchOf(v.major, v.minor, v.patch, tail, strict);
  }

  /** `Suffix` from the outcomes of its two steps. */
  lemma {:induction false} SuffixFromSteps(v: Version, s: string, preLength: nat, metaLength: nat)
    requires OptionalIdentifiers(s, '-', false) == Ok(Scanned(v.prereleaseString, preLength))
    requires preLength <= |s|
    requires OptionalIdentifiers(s[preLength..], '+', true) == Ok(Scanned(v.metadataString, metaLength))
    ensures Suffix(v.major, v.minor, v.patch, s)
         == if metaLength < |s| - preLength then Err(VersionFailure(MalformedVersionString)) else Ok(v)
  {
  }

  /** A rendered suffix followed by `t` is its pre-release part followed by the rest. */
  lemma {:induction false} SuffixesSplit(v: Version, t: string)
    ensures var pre, rest := Rendered('-', v.prereleaseString), Rendered('+', v.metadataString) + t;
            Suffixes(v) + t == pre + rest && (Suffixes(v) + t)[|pre|..] == rest
  {
  }

  /** The pre-release step reads the pre-release part of a rendered suffix, leaving the metadata part. */
  lemma {:induction false} PrereleaseStep(v: Version, t: string)
    requires WellFormed(v) && Stops(v, t)
    ensures var pre := Rendered('-', v.prereleaseString);
            |pre| <= |Suffixes(v) + t| &&
            OptionalIdentifiers(Suffixes(v) + t, '-', false) == Ok(Scanned(v.prereleaseString, |pre|)) &&
            (Suffixes(v) + t)[|pre|..] == Rendered('+', v.metadataString) + t
  {
    var pre, rest := Rendered('-', v.prereleaseString), Rendered('+', v.metadataString) + t;
    SuffixesSplit(v, t);
    PartOf('-', v.prereleaseString, false, rest);
  }

  /** The metadata step reads the metadata part of a rendered suffix. */
  lemma {:induction false} MetadataStep(v: Version, t: string)
    requires WellFormed(v) && Stops(v, t)
    ensures OptionalIdentifiers(Rendered('+', v.metadataString) + t, '+', true)
         == Ok(Scanned(v.metadataString, |Rendered('+', v.metadataString)|))
  {
    PartOf('+', v.metadataString, true, t);
  }

  /** The pre-release and metadata steps read a rendered suffix back, then check that nothing follows. */
  lemma {:induction false} SuffixParses(v: Version, t: string)
    requires WellFormed(v) && Stops(v, t)
    ensures Suffix(v.major, v.minor, v.patch, Suffixes(v) + t)
         == if t == [] then Ok(v) else Err(VersionFailure(MalformedVersionString))
  {
    PrereleaseStep(v, t);
    MetadataStep(v, t);
    SuffixFromSteps(v, Suffixes(v) + t, |Rendered('-', v.prereleaseString)|, |Rendered('+', v.metadataString)|);
  }

  /** What follows the numbers of a description does not start with a digit. */
  lemma {:induction false} SuffixesThenStops(v: Version, t: string)
    requires Stops(v, t)
    ensures Suffixes(v) + t == [] || !IsDigit((Suffixes(v) + t)[0])
  {
  }

  /**
   * The description of a well-formed version, followed by text the scan
   * stops at, parses back to the version when nothing follows, and fails
   * with `malformedVersionString` when something does.
   */
  lemma {:induction false} DescriptionParses(v: Version, t: string, strict: bool)
    requires WellFormed(v) && Stops(v, t)
    ensures Parsed(Description(v) + t, strict)
         == if t == [] then Ok(v) else Err(VersionFailure(MalformedVersionString))
  {
    DescriptionShape(v, t);
    SuffixesThenStops(v, t);
    DescriptionNumbers(v, Suffixes(v) + t, strict);
    SuffixParses(v, t);
  }

  // ---------------------------------------------------------------------
  // What a successful parse builds
  // ---------------------------------------------------------------------

  /** Allowed identifiers are non-empty and free of '.'. */
  lemma {:induction false} AllowedHasNoEmptyPieces(ids: seq<string>, allowLeadingZeros: bool)
    requires AllowedList(ids, allowLeadingZeros)
    ensures NoEmptyPieces(ids)
  {
    forall k | 0 <= k < |ids|
      ensures |ids[k]| > 0 && '.' !in ids[k]
    {
      assert IsIdentifier(ids[k]);
    }
  }

  /** Every identifier that `nextIdentifiers(allowLeadingZeros:)` returns is allowed. */
  lemma {:induction false} IdentifierListAllowed(s: string, allowLeadingZeros: bool)
    requires IdentifierList(s, allowLeadingZeros).Ok?
    ensures AllowedList(IdentifierList(s, allowLeadingZeros).value.item, allowLeadingZeros)
    decreases |s|
  {
    var first := IdentifierToken(s, allowLeadingZeros).value;
    IdentifierListStep(s, allowLeadingZeros);
    if "." <= s[first.consumed..] {
      var rest := s[first.consumed + 1..];
      IdentifierListAllowed(rest, allowLeadingZeros);
    }
  }

  /** A pre-release or metadata string that a parse stores is dotted identifiers. */
  lemma {:induction false} OptionalIdentifiersDotted(s: string, lead: char, allowLeadingZeros: bool)
    requires OptionalIdentifiers(s, lead, allowLeadingZeros).Ok?
    requires OptionalIdentifiers(s, lead, allowLeadingZeros).value.item.Some?
    ensures DottedIdentifiers(OptionalIdentifiers(s, lead, allowLeadingZeros).value.item.value, allowLeadingZeros)
  {
    var ids := IdentifierList(s[1..], allowLeadingZeros).value.item;
    IdentifierListAllowed(s[1..], allowLeadingZeros);
    AllowedHasNoEmptyPieces(ids, allowLeadingZeros);
    SplitJoin(ids);
  }

  /** Every version a parse returns is well-formed. */
  lemma {:induction false} ParsedWellFormed(s: string, strict: bool)
    requires Parsed(s, strict).Ok?
    ensures WellFormed(Parsed(s, strict).value)
  {
    var major := NumberToken(s).value;
    var s1 := s[major.consumed..];
    var minor := OptionalNumber(s1, strict).value;
    var s2 := s1[minor.consumed..];
    var patch := OptionalNumber(s2, strict).value;
    var s3 := s2[patch.consumed..];
    assert Parsed(s, strict) == Suffix(major.item, minor.item, patch.item, s3);
    var pre := OptionalIdentifiers(s3, '-', false).value;
    var s4 := s3[pre.consumed..];
    if pre.item.Some? {
      OptionalIdentifiersDotted(s3, '-', false);
    }
    if OptionalIdentifiers(s4, '+', true).value.item.Some? {
      OptionalIdentifiersDotted(s4, '+', true);
    }
  }

  /** `init(_:strict:)` inverts `description` exactly on the well-formed versions, metadata included. */
  lemma {:induction false} RoundTrip(v: Version, strict: bool)
    ensures Parsed(Description(v), strict) == Ok(v) <==> WellFormed(v)
    ensures WellFormed(v) ==> Identical(Parsed(Description(v), strict).value, v)
  {
    if WellFormed(v) {
      DescriptionParses(v, [], strict);
      assert Description(v) + [] == Description(v);
    } else if Parsed(Description(v), strict).Ok? {
      ParsedWellFormed(Description(v), strict);
    }
  }

  /** A well-formed version has a canonical pre-release string, so `<` is a strict total order on them. */
  lemma {:induction false} WellFormedIsCanonical(v: Version)
    requires WellFormed(v)
    ensures CanonicalVersion(v)
  {
  }

  /** Parsed versions are totally ordered by `<` up to `==`, and `<` is transitive on them. */
  lemma {:induction false} ParsedVersionsOrdered(s1: string, s2: string, s3: string, strict: bool)
    requires Parsed(s1, strict).Ok? && Parsed(s2, strict).Ok? && Parsed(s3, strict).Ok?
    ensures var a, b, c := Parsed(s1, strict).value, Parsed(s2, strict).value, Parsed(s3, strict).value;
            (Less(a, b) || Equal(a, b) || Less(b, a)) &&
            (Less(a, b) && Less(b, c) ==> Less(a, c))
  {
    var a, b, c := Parsed(s1, strict).value, Parsed(s2, strict).value, Parsed(s3, strict).value;
    ParsedWellFormed(s1, strict);
    ParsedWellFormed(s2, strict);
    ParsedWellFormed(s3, strict);
    LessTrichotomous(a, b);
    if Less(a, b) && Less(b, c) {
      LessTransitive(a, b, c);
    }
  }

  // ---------------------------------------------------------------------
  // Lenient and strict parsing
  // ---------------------------------------------------------------------

  /** A strict parse that succeeds agrees with the lenient parse. */
  lemma {:induction false} StrictAgreesWithLenient(s: string)
    requires Parsed(s, true).Ok?
    ensures Parsed(s, false) == Parsed(s, true)
  {
    var major := NumberToken(s).value;
    var s1 := s[major.consumed..];
    assert OptionalNumber(s1, false) == OptionalNumber(s1, true);
    var s2 := s1[OptionalNumber(s1, true).value.consumed..];
    assert OptionalNumber(s2, false) == OptionalNumber(s2, true);
  }

  /** After the major number, text without a '.' has no minor and no patch number. */
  lemma {:induction false} NoMinor(major: NonNegativeInt, t: string, strict: bool)
    requires t == [] || (t[0] != '.' && !IsDigit(t[0]))
    ensures Parsed(Decimal(major) + t, strict)
         == if strict then Err(VersionFailure(MalformedVersionString)) else Suffix(major, 0, 0, t)
  {
    NumberTokenOfDecimal(major, t);
    assert (Decimal(major) + t)[|Decimal(major)|..] == t;
    assert t[0..] == t;
  }

  /** After the minor number, text without a '.' has no patch number. */
  lemma {:induction false} NoPatch(major: NonNegativeInt, minor: NonNegativeInt, t: string, strict: bool)
    requires t == [] || (t[0] != '.' && !IsDigit(t[0]))
    ensures Parsed(Decimal(major) + "." + Decimal(minor) + t, strict)
         == if strict then Err(VersionFailure(MalformedVersionString)) else Suffix(major, minor, 0, t)
  {
    var s1 := "." + Decimal(minor) + t;
    assert Decimal(major) + "." + Decimal(minor) + t == Decimal(major) + s1;
    MajorOf(major, s1, strict);
    MinorOf(major, minor, t, strict);
    assert AfterMinor(major, minor, t, strict)
        == if strict then Err(VersionFailure(MalformedVersionString)) else Suffix(major, minor, 0, t) by {
      assert t[0..] == t;
    }
  }

  /** "." followed by the description of 0, once or twice, is ".0" or ".0.0". */
  lemma {:induction false} DottedZeros(x: string, t: string)
    ensures x + "." + Decimal(0) + t == x + ".0" + t
    ensures x + "." + Decimal(0) + "." + Decimal(0) + t == x + ".0.0" + t
  {
    var z := Decimal(0);
    assert z == "0";
    forall i | 0 <= i < |x + ".0" + t|
      ensures (x + "." + z + t)[i] == (x + ".0" + t)[i]
    {
      if i < |x| {} else if i == |x| {} else if i == |x| + 1 {} else {}
    }
    forall i | 0 <= i < |x + ".0.0" + t|
      ensures (x + "." + z + "." + z + t)[i] == (x + ".0.0" + t)[i]
    {
      if i < |x| {} else if i <= |x| + 3 {} else {}
    }
  }

  /**
   * A version given by its major number alone: the lenient parse reads it
   * as "major.0.0", the strict parse fails with `malformedVersionString`.
   */
  lemma {:induction false} MissingMinorAndPatch(major: NonNegativeInt, t: string)
    requires t == [] || (t[0] != '.' && !IsDigit(t[0]))
    ensures Parsed(Decimal(major) + t, false) == Parsed(Decimal(major) + ".0.0" + t, false)
    ensures Parsed(Decimal(major) + t, true) == Err(VersionFailure(MalformedVersionString))
  {
    NoMinor(major, t, false);
    NoMinor(major, t, true);
    assert Parsed(Decimal(major) + ".0.0" + t, false) == Suffix(major, 0, 0, t) by {
      DescriptionNumbers(Version(major, 0, 0, None, None), t, false);
      DottedZeros(Decimal(major), t);
    }
  }

  /**
   * A version given by its major and minor numbers: the lenient parse reads
   * it as "major.minor.0", the strict parse fails with `malformedVersionString`.
   */
  lemma {:induction false} MissingPatch(major: NonNegativeInt, minor: NonNegativeInt, t: string)
    requires t == [] || (t[0] != '.' && !IsDigit(t[0]))
    ensures Parsed(Decimal(major) + "." + Decimal(minor) + t, false)
         == Parsed(Decimal(major) + "." + Decimal(minor) + ".0" + t, false)
    ensures Parsed(Decimal(major) + "." + Decimal(minor) + t, true) == Err(VersionFailure(MalformedVersionString))
  {
    NoPatch(major, minor, t, false);
    NoPatch(major, minor, t, true);
    assert Parsed(Decimal(major) + "." + Decimal(minor) + ".0" + t, false) == Suffix(major, minor, 0, t) by {
      DescriptionNumbers(Version(major, minor, 0, None, None), t, false);
      DottedZeros(Decimal(major) + "." + Decimal(minor), t);
    }
  }

  // ---------------------------------------------------------------------
  // Leading zeros
  // ---------------------------------------------------------------------

  /** A run of zeros is the number 0: "0", "00" and "000" all read as 0. */
  lemma {:induction false} ZerosAreZero(zeros: string, t: string)
    requires |zeros| > 0 && forall i :: 0 <= i < |zeros| ==> zeros[i] == '0'
    requires t == [] || !IsDigit(t[0])
    ensures NumberToken(zeros + t) == Ok(Scanned(0, |zeros|))
  {
    var s := zeros + t;
    assert forall i :: 0 <= i < |zeros| ==> s[i] == zeros[i];
    SpanLengthUnique(s, DecimalDigits, |zeros|);
    assert s[..|zeros|] == zeros;
    DigitsValueZero(zeros);
  }

  /** A major number with a leading zero and a non-zero value makes the parse fail. */
  lemma {:induction false} LeadingZeroMajorFails(s: string, strict: bool)
    requires var n := SpanLength(s, DecimalDigits);
             n > 1 && s[0] == '0' && 0 < DigitsValue(s[..n]) <= IntMax
    ensures Parsed(s, strict) == Err(ScannerFailure(LeadingZerosProhibited))
  {
    var n := SpanLength(s, DecimalDigits);
    assert ParseInt(s[..n]) == Some(DigitsValue(s[..n]));
  }

  /** `nextNumber` refuses a digit run with a leading zero and a non-zero value. */
  lemma {:induction false} LeadingZeroNumberToken(s: string)
    requires var n := SpanLength(s, DecimalDigits);
             n > 1 && s[0] == '0' && 0 < DigitsValue(s[..n]) <= IntMax
    ensures NumberToken(s) == Err(LeadingZerosProhibited)
  {
    var n := SpanLength(s, DecimalDigits);
    assert ParseInt(s[..n]) == Some(DigitsValue(s[..n]));
  }

  /** A minor number with a leading zero and a non-zero value makes the parse fail. */
  lemma {:induction false} LeadingZeroMinorFails(major: NonNegativeInt, s: string, strict: bool)
    requires var n := SpanLength(s, DecimalDigits);
             n > 1 && s[0] == '0' && 0 < DigitsValue(s[..n]) <= IntMax
    ensures Parsed(Decimal(major) + "." + s, strict) == Err(ScannerFailure(LeadingZerosProhibited))
  {
    LeadingZeroNumberToken(s);
    assert Decimal(major) + "." + s == Decimal(major) + ("." + s);
    MajorOf(major, "." + s, strict);
    assert ("." + s)[1..] == s;
  }

  /** A patch number with a leading zero and a non-zero value makes the parse fail. */
  lemma {:induction false} LeadingZeroPatchFails(major: NonNegativeInt, minor: NonNegativeInt, s: string, strict: bool)
    requires var n := SpanLength(s, DecimalDigits);
             n > 1 && s[0] == '0' && 0 < DigitsValue(s[..n]) <= IntMax
    ensures Parsed(Decimal(major) + "." + Decimal(minor) + "." + s, strict) == Err(ScannerFailure(LeadingZerosProhibited))
  {
    LeadingZeroNumberToken(s);
    var s1 := "." + Decimal(minor) + ("." + s);
    assert Decimal(major) + "." + Decimal(minor) + "." + s == Decimal(major) + s1;
    MajorOf(major, s1, strict);
    MinorOf(major, minor, "." + s, strict);
    assert ("." + s)[1..] == s;
  }

  /** A single identifier that is allowed is dotted identifiers on its own. */
  lemma {:induction false} SingleIdentifierDotted(id: string, allowLeadingZeros: bool)
    requires Allowed(id, allowLeadingZeros)
    ensures DottedIdentifiers(id, allowLeadingZeros)
  {
    assert NoEmptyPieces([id]) by {
      assert '.' !in id by {
        assert forall i :: 0 <= i < |id| ==> IsIdentifierChar(id[i]);
      }
    }
    SplitJoin([id]);
  }

  /**
   * The discrete initialiser accepts a pre-release identifier with a leading
   * zero, whose description then does not parse; as metadata the same
   * identifier round-trips.
   */
  lemma {:induction false} LeadingZeroAsymmetry(major: NonNegativeInt, minor: NonNegativeInt, patch: NonNegativeInt, id: string, strict: bool)
    requires IsIdentifier(id) && LeadingZeroProhibited(id)
    ensures var v := Version(major, minor, patch, Some(id), None);
            Make(major, minor, patch, Some(id), None) == Ok(v) &&
            Parsed(Description(v), strict) == Err(ScannerFailure(LeadingZerosProhibited))
    ensures var w := Version(major, minor, patch, None, Some(id));
            Make(major, minor, patch, None, Some(id)) == Ok(w) &&
            Parsed(Description(w), strict) == Ok(w)
  {
    var v := Version(major, minor, patch, Some(id), None);
    assert IdentifiersText(Some(id));
    var tail := "-" + id;
    DescriptionShape(v, []);
    assert Suffixes(v) == tail;
    DescriptionNumbers(v, tail, strict);
    assert tail[1..] == id;
    SpanLengthUnique(id, Identifier, |id|);
    assert id[..|id|] == id;
    assert IdentifierList(id, false) == Err(LeadingZerosProhibited);
    var w := Version(major, minor, patch, None, Some(id));
    SingleIdentifierDotted(id, true);
    RoundTrip(w, strict);
  }

  // ---------------------------------------------------------------------
  // Malformed input
  // ---------------------------------------------------------------------

  /** A '.' that is not followed by a digit fails with `invalidNumber`, which is not caught. */
  lemma {:induction false} DotWithoutDigitsFails(major: NonNegativeInt, t: string, strict: bool)
    requires t == [] || !IsDigit(t[0])
    ensures Parsed(Decimal(major) + "." + t, strict) == Err(ScannerFailure(InvalidNumber))
  {
    var d := Decimal(major);
    NumberTokenOfDecimal(major, "." + t);
    assert d + "." + t == d + ("." + t);
    assert (d + ("." + t))[|d|..] == "." + t;
    assert ("." + t)[1..] == t;
  }

  /** The same for a '.' before the patch number. */
  lemma {:induction false} DotWithoutPatchDigitsFails(major: NonNegativeInt, minor: NonNegativeInt, t: string, strict: bool)
    requires t == [] || !IsDigit(t[0])
    ensures Parsed(Decimal(major) + "." + Decimal(minor) + "." + t, strict) == Err(ScannerFailure(InvalidNumber))
  {
    var s1 := "." + Decimal(minor) + ("." + t);
    assert Decimal(major) + "." + Decimal(minor) + "." + t == Decimal(major) + s1;
    MajorOf(major, s1, strict);
    MinorOf(major, minor, "." + t, strict);
    assert ("." + t)[1..] == t;
  }

  /** The pre-release or metadata step fails where its list scan meets text that `nextIdentifier` refuses. */
  lemma {:induction false} PartFails(lead: char, ids: seq<string>, t: string, allowLeadingZeros: bool)
    requires forall k :: 0 <= k < |ids| ==> Allowed(ids[k], allowLeadingZeros)
    requires IdentifierToken(t, allowLeadingZeros).Err?
    ensures OptionalIdentifiers([lead] + (DotAfterEach(ids) + t), lead, allowLeadingZeros)
         == Err(ScannerFailure(IdentifierToken(t, allowLeadingZeros).error))
  {
    assert ([lead] + (DotAfterEach(ids) + t))[1..] == DotAfterEach(ids) + t;
    IdentifierListFailsAfter(ids, t, allowLeadingZeros);
  }

  /** `Suffix` passes on an error of its pre-release step. */
  lemma {:induction false} SuffixFailsAtPrerelease(major: NonNegativeInt, minor: NonNegativeInt, patch: NonNegativeInt, s: string)
    requires OptionalIdentifiers(s, '-', false).Err?
    ensures Suffix(major, minor, patch, s) == Err(OptionalIdentifiers(s, '-', false).error)
  {
  }

  /** `Suffix` passes on an error of its metadata step. */
  lemma {:induction false} SuffixFailsAtMetadata(major: NonNegativeInt, minor: NonNegativeInt, patch: NonNegativeInt, s: string, n: nat)
    requires OptionalIdentifiers(s, '-', false).Ok? && OptionalIdentifiers(s, '-', false).value.consumed == n
    requires OptionalIdentifiers(s[n..], '+', true).Err?
    ensures Suffix(major, minor, patch, s) == Err(OptionalIdentifiers(s[n..], '+', true).error)
  {
  }

  /**
   * A pre-release list that, after any number of allowed identifiers each
   * followed by '.', meets text that `nextIdentifier` refuses fails the
   * parse with that error.
   */
  lemma {:induction false} PrereleaseListFails(v: Version, ids: seq<string>, t: string, strict: bool)
    requires forall k :: 0 <= k < |ids| ==> Allowed(ids[k], false)
    requires IdentifierToken(t, false).Err?
    ensures Parsed(Numbers(v) + "-" + DotAfterEach(ids) + t, strict) == Err(ScannerFailure(IdentifierToken(t, false).error))
  {
    var tail := ['-'] + (DotAfterEach(ids) + t);
    assert Numbers(v) + "-" + DotAfterEach(ids) + t == Numbers(v) + tail;
    DescriptionNumbers(v, tail, strict);
    PartFails('-', ids, t, false);
    SuffixFailsAtPrerelease(v.major, v.minor, v.patch, tail);
  }

  /** The text after the numbers in `MetadataListFails`: the pre-release part, then "+" and the list. */
  lemma {:induction false} MetadataTail(v: Version, ids: seq<string>, t: string)
    ensures var pre, rest := Rendered('-', v.prereleaseString), ['+'] + (DotAfterEach(ids) + t);
            Numbers(v) + pre + "+" + DotAfterEach(ids) + t == Numbers(v) + (pre + rest) &&
            (pre + rest)[|pre|..] == rest && !IsDigit((pre + rest)[0])
  {
  }

  /**
   * A metadata list that, after any number of identifiers each followed by
   * '.', meets no identifier fails the parse with `invalidIdentifier`, with
   * or without a pre-release part before it.
   */
  lemma {:induction false} MetadataListFails(v: Version, ids: seq<string>, t: string, strict: bool)
    requires v.prereleaseString.Some? ==> DottedIdentifiers(v.prereleaseString.value, false)
    requires forall k :: 0 <= k < |ids| ==> Allowed(ids[k], true)
    requires t == [] || !IsIdentifierChar(t[0])
    ensures Parsed(Numbers(v) + Rendered('-', v.prereleaseString) + "+" + DotAfterEach(ids) + t, strict)
         == Err(ScannerFailure(InvalidIdentifier))
  {
    var pre, rest := Rendered('-', v.prereleaseString), ['+'] + (DotAfterEach(ids) + t);
    MetadataTail(v, ids, t);
    DescriptionNumbers(v, pre + rest, strict);
    PartOf('-', v.prereleaseString, false, rest);
    assert SpanLength(t, Identifier) == 0;
    PartFails('+', ids, t, true);
    SuffixFailsAtMetadata(v.major, v.minor, v.patch, pre + rest, |pre|);
  }

  /** A "-" right after the numbers that no identifier follows fails with `invalidIdentifier`. */
  lemma {:induction false} EmptyPrereleaseFails(v: Version, t: string, strict: bool)
    requires v.prereleaseString.None? && v.metadataString.None?
    requires t == [] || !IsIdentifierChar(t[0])
    ensures Parsed(Description(v) + "-" + t, strict) == Err(ScannerFailure(InvalidIdentifier))
  {
    DescriptionShape(v, []);
    assert Description(v) + "-" + t == Numbers(v) + "-" + DotAfterEach([]) + t;
    assert SpanLength(t, Identifier) == 0;
    PrereleaseListFails(v, [], t, strict);
  }

  /**
   * A "+" right after the numbers or after the pre-release part that no
   * identifier follows fails with `invalidIdentifier`.
   */
  lemma {:induction false} EmptyMetadataFails(v: Version, t: string, strict: bool)
    requires WellFormed(v) && v.metadataString.None?
    requires t == [] || !IsIdentifierChar(t[0])
    ensures Parsed(Description(v) + "+" + t, strict) == Err(ScannerFailure(InvalidIdentifier))
  {
    DescriptionShape(v, []);
    assert Description(v) + "+" + t == Numbers(v) + Rendered('-', v.prereleaseString) + "+" + DotAfterEach([]) + t;
    MetadataListFails(v, [], t, strict);
  }

  /** The metadata case of `EmptyIdentifierAfterDotFails`. */
  lemma {:induction false} EmptyMetadataIdentifierAfterDot(v: Version, t: string, strict: bool)
    requires WellFormed(v) && v.metadataString.Some?
    requires t == [] || !IsIdentifierChar(t[0])
    ensures Parsed(Description(v) + "." + t, strict) == Err(ScannerFailure(InvalidIdentifier))
  {
    DescriptionShape(v, []);
    var ids := Split(v.metadataString.value);
    JoinThenDot(ids);
    assert Description(v) + "." + t == Numbers(v) + Rendered('-', v.prereleaseString) + "+" + DotAfterEach(ids) + t;
    MetadataListFails(v, ids, t, strict);
  }

  /** The pre-release case of `EmptyIdentifierAfterDotFails`. */
  lemma {:induction false} EmptyPrereleaseIdentifierAfterDot(v: Version, t: string, strict: bool)
    requires WellFormed(v) && v.prereleaseString.Some? && v.metadataString.None?
    requires t == [] || !IsIdentifierChar(t[0])
    ensures Parsed(Description(v) + "." + t, strict) == Err(ScannerFailure(InvalidIdentifier))
  {
    DescriptionShape(v, []);
    var ids := Split(v.prereleaseString.value);
    JoinThenDot(ids);
    assert Description(v) + "." + t == Numbers(v) + "-" + DotAfterEach(ids) + t;
    assert SpanLength(t, Identifier) == 0;
    PrereleaseListFails(v, ids, t, strict);
  }

  /**
   * A '.' after the last identifier of a description, that no identifier
   * follows, fails with `invalidIdentifier`: the list scan expects another one.
   */
  lemma {:induction false} EmptyIdentifierAfterDotFails(v: Version, t: string, strict: bool)
    requires WellFormed(v) && (v.prereleaseString.Some? || v.metadataString.Some?)
    requires t == [] || !IsIdentifierChar(t[0])
    ensures Parsed(Description(v) + "." + t, strict) == Err(ScannerFailure(InvalidIdentifier))
  {
    if v.metadataString.Some? {
      EmptyMetadataIdentifierAfterDot(v, t, strict);
    } else {
      EmptyPrereleaseIdentifierAfterDot(v, t, strict);
    }
  }

  /**
   * A pre-release identifier with a prohibited leading zero fails the parse
   * with `leadingZerosProhibited` wherever it stands in the list.
   */
  lemma {:induction false} LeadingZeroIdentifierFails(v: Version, ids: seq<string>, id: string, t: string, strict: bool)
    requires forall k :: 0 <= k < |ids| ==> Allowed(ids[k], false)
    requires IsIdentifier(id) && LeadingZeroProhibited(id)
    requires t == [] || !IsIdentifierChar(t[0])
    ensures Parsed(Numbers(v) + "-" + DotAfterEach(ids) + id + t, strict) == Err(ScannerFailure(LeadingZerosProhibited))
  {
    var s := id + t;
    SpanLengthUnique(s, Identifier, |id|);
    assert s[..|id|] == id;
    assert IdentifierToken(s, false) == Err(LeadingZerosProhibited);
    assert Numbers(v) + "-" + DotAfterEach(ids) + id + t == Numbers(v) + "-" + DotAfterEach(ids) + s;
    PrereleaseListFails(v, ids, s, strict);
  }

  // ---------------------------------------------------------------------
  // The short forms of the lenient parse
  // ---------------------------------------------------------------------

  /** The description of a version with minor and patch 0 spells them out as ".0.0". */
  lemma {:induction false} ZeroMinorDescription(v: Version)
    requires v.minor == 0 && v.patch == 0
    ensures Description(v) == Decimal(v.major) + ".0.0" + Suffixes(v)
  {
    var d := Decimal(v.major);
    assert Description(v) == d + "." + Decimal(0) + "." + Decimal(0) + Suffixes(v);
    DottedZeros(d, Suffixes(v));
  }

  /** The description of a version with patch 0 spells it out as ".0". */
  lemma {:induction false} ZeroPatchDescription(v: Version)
    requires v.patch == 0
    ensures Description(v) == Decimal(v.major) + "." + Decimal(v.minor) + ".0" + Suffixes(v)
  {
    var x := Decimal(v.major) + "." + Decimal(v.minor);
    assert Description(v) == x + "." + Decimal(0) + Suffixes(v);
    DottedZeros(x, Suffixes(v));
  }

  /** A version written with its major number only, then its pre-release and metadata parts. */
  lemma {:induction false} MajorOnlyParses(v: Version)
    requires WellFormed(v) && v.minor == 0 && v.patch == 0
    ensures Parsed(Decimal(v.major) + Suffixes(v), false) == Ok(v)
    ensures Parsed(Decimal(v.major) + Suffixes(v), true) == Err(VersionFailure(MalformedVersionString))
  {
    MissingMinorAndPatch(v.major, Suffixes(v));
    ZeroMinorDescription(v);
    RoundTrip(v, false);
  }

  /** A version written with its major and minor numbers only, then its pre-release and metadata parts. */
  lemma {:induction false} MajorMinorParses(v: Version)
    requires WellFormed(v) && v.patch == 0
    ensures Parsed(Decimal(v.major) + "." + Decimal(v.minor) + Suffixes(v), false) == Ok(v)
    ensures Parsed(Decimal(v.major) + "." + Decimal(v.minor) + Suffixes(v), true) == Err(VersionFailure(MalformedVersionString))
  {
    MissingPatch(v.major, v.minor, Suffixes(v));
    ZeroPatchDescription(v);
    RoundTrip(v, false);
  }

  /** Three of the malformed strings the literal initialiser turns into 0.0.0: "", "garbage" and "005". */
  lemma {:induction false} MalformedExamples()
    ensures Parsed("", false) == Err(ScannerFailure(InvalidNumber))
    ensures Parsed("garbage", false) == Err(ScannerFailure(InvalidNumber))
    ensures Parsed("005", false) == Err(ScannerFailure(LeadingZerosProhibited))
  {
    SpanLengthUnique("005", DecimalDigits, 3);
    assert "005"[..3] == "005";
    assert "005"[..2] == "00" && "00"[..1] == "0" && "0"[..0] == "";
    assert DigitsValue("005") == 5;
    LeadingZeroMajorFails("005", false);
  }

  /** The version "1.2.3" with no pre-release and no metadata: its numbers render as "1.2.3". */
  lemma {:induction false} OneTwoThree()
    ensures Numbers(Version(1, 2, 3, None, None)) == "1.2.3"
    ensures Description(Version(1, 2, 3, None, None)) == "1.2.3"
  {
    assert Decimal(1) == "1" && Decimal(2) == "2" && Decimal(3) == "3";
  }

  /** "1.2.3-beta.01" fails: the second pre-release identifier has a leading zero. */
  lemma {:induction false} LeadingZeroPrereleaseExample()
    ensures Parsed("1.2.3-beta.01", false) == Err(ScannerFailure(LeadingZerosProhibited))
  {
    var v := Version(1, 2, 3, None, None);
    OneTwoThree();
    assert DotAfterEach(["beta"]) == "beta.";
    assert "1.2.3-beta.01" == Numbers(v) + "-" + DotAfterEach(["beta"]) + "01" + "";
    assert "beta"[0] == 'b';
    assert "01"[..1] == "0" && DigitsValue("01") == 1;
    LeadingZeroIdentifierFails(v, ["beta"], "01", "", false);
  }

  /**
   * "1.2.3-" followed by "\U{CF}\U{192}" fails: the pre-release identifier is
   * empty, since U+00CF is outside the identifier set. These are the code
   * points the test file's bytes C3 8F C6 92 decode to, a garbled letter sigma.
   */
  lemma {:induction false} ForeignCharacterExample()
    ensures Parsed("1.2.3-\U{CF}\U{192}", false) == Err(ScannerFailure(InvalidIdentifier))
  {
    OneTwoThree();
    assert "1.2.3-\U{CF}\U{192}" == Description(Version(1, 2, 3, None, None)) + "-" + "\U{CF}\U{192}";
    EmptyPrereleaseFails(Version(1, 2, 3, None, None), "\U{CF}\U{192}", false);
  }

  /** "1.2.3garbage" fails: text is left after the version. */
  lemma {:induction false} TrailingGarbageExample()
    ensures Parsed("1.2.3garbage", false) == Err(VersionFailure(MalformedVersionString))
  {
    var v := Version(1, 2, 3, None, None);
    OneTwoThree();
    assert "1.2.3garbage" == Description(v) + "garbage";
    DescriptionParses(v, "garbage", false);
  }

  /** "1.2garbage" fails: the lenient parse takes patch 0, and text is left. */
  lemma {:induction false} MajorMinorGarbageExample()
    ensures Parsed("1.2garbage", false) == Err(VersionFailure(MalformedVersionString))
  {
    assert Decimal(1) == "1" && Decimal(2) == "2";
    assert "1.2garbage" == Decimal(1) + "." + Decimal(2) + "garbage";
    NoPatch(1, 2, "garbage", false);
  }

  /** "1garbage" fails: the lenient parse takes minor and patch 0, and text is left. */
  lemma {:induction false} MajorGarbageExample()
    ensures Parsed("1garbage", false) == Err(VersionFailure(MalformedVersionString))
  {
    assert Decimal(1) == "1";
    assert "1garbage" == Decimal(1) + "garbage";
    NoMinor(1, "garbage", false);
  }

  /** "1..2..3" fails: the first '.' has no digits after it. */
  lemma {:induction false} DoubleDotExample()
    ensures Parsed("1..2..3", false) == Err(ScannerFailure(InvalidNumber))
  {
    assert Decimal(1) == "1";
    assert "1..2..3" == Decimal(1) + "." + ".2..3";
    DotWithoutDigitsFails(1, ".2..3", false);
  }

  /** "01.2.3" fails: the major number has a leading zero. */
  lemma {:induction false} LeadingZeroMajorExample()
    ensures Parsed("01.2.3", false) == Err(ScannerFailure(LeadingZerosProhibited))
  {
    SpanLengthUnique("01.2.3", DecimalDigits, 2);
    assert "01.2.3"[..2] == "01" && "01"[..1] == "0" && DigitsValue("01") == 1;
    LeadingZeroMajorFails("01.2.3", false);
  }
}
