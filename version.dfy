/**
 * The `Version` value: its three numbers, its optional pre-release and
 * metadata strings, the discrete initialisers that validate them, the
 * `description` text, and the string initialisers that parse a version
 * with a `Scanner`.
 */
module Versions {
  import opened Wrappers
  import opened Text
  import opened Scanning

  /** A semantic version; `prereleaseString` and `metadataString` hold the dotted identifier text. */
  datatype Version = Version(
    major: NonNegativeInt,
    minor: NonNegativeInt,
    patch: NonNegativeInt,
    prereleaseString: Option<string>,
    metadataString: Option<string>)

  /** `Version.Error`. */
  datatype VersionError =
    | MalformedVersionString
    | InvalidPrereleaseString
    | InvalidMetadataString
    | IllegalNegativeVersionNumbers

  /** What the string initialiser can throw: a scanner error that escapes it, or a `Version.Error`. */
  datatype Failure =
    | ScannerFailure(scan: ScanError)
    | VersionFailure(version: VersionError)

  /** The version `try! Version(major: 0)` builds. */
  const Zero := Version(0, 0, 0, None, None)

  /** `prereleaseIdentifiers`: the pieces of the pre-release string between dots, or none. */
  function PrereleaseIdentifiers(v: Version): (r: seq<string>)
    ensures v.prereleaseString.None? ==> r == []
    ensures forall k :: 0 <= k < |r| ==> |r[k]| > 0 && '.' !in r[k]
  {
    if v.prereleaseString.Some? then Split(v.prereleaseString.value) else []
  }

  /** `metadataIdentifiers`: the pieces of the metadata string between dots, or none. */
  function MetadataIdentifiers(v: Version): (r: seq<string>)
    ensures v.metadataString.None? ==> r == []
    ensures forall k :: 0 <= k < |r| ==> |r[k]| > 0 && '.' !in r[k]
  {
    if v.metadataString.Some? then Split(v.metadataString.value) else []
  }

  /** `isPrerelease`: there is at least one pre-release identifier, so a string of dots does not count. */
  predicate IsPrerelease(v: Version)
    ensures IsPrerelease(v) <==>
              v.prereleaseString.Some? &&
              exists i :: 0 <= i < |v.prereleaseString.value| && v.prereleaseString.value[i] != '.'
  {
    |PrereleaseIdentifiers(v)| > 0
  }

  /** Every character of an optional string is from "-0-9A-Za-z."; an absent string passes. */
  predicate IdentifiersText(s: Option<string>) {
    s.None? || forall i :: 0 <= i < |s.value| ==> InSet(IdentifiersString, s.value[i])
  }

  /**
   * `init(major:minor:patch:prerelease:metadata:)`: negative numbers are
   * rejected first, then a pre-release string and then a metadata string
   * that a scan of `indentifiersString` does not consume to the end. The
   * strings are stored as given: the empty string, empty identifiers and
   * leading zeros are all accepted.
   */
  function Make(major: Int64, minor: Int64, patch: Int64, prerelease: Option<string>, metadata: Option<string>)
    : (r: Result<Version, VersionError>)
    ensures r.Ok? <==>
              0 <= major && 0 <= minor && 0 <= patch && IdentifiersText(prerelease) && IdentifiersText(metadata)
    ensures r.Ok? ==> r.value == Version(major, minor, patch, prerelease, metadata)
    ensures major < 0 || minor < 0 || patch < 0 ==> r == Err(IllegalNegativeVersionNumbers)
    ensures r == Err(InvalidPrereleaseString) <==>
              0 <= major && 0 <= minor && 0 <= patch && !IdentifiersText(prerelease)
    ensures r == Err(InvalidMetadataString) <==>
              0 <= major && 0 <= minor && 0 <= patch && IdentifiersText(prerelease) && !IdentifiersText(metadata)
  {
    if major < 0 || minor < 0 || patch < 0 then Err(IllegalNegativeVersionNumbers)
    else if prerelease.Some? && !ScansToEnd(prerelease.value) then Err(InvalidPrereleaseString)
    else if metadata.Some? && !ScansToEnd(metadata.value) then Err(InvalidMetadataString)
    else Ok(Version(major, minor, patch, prerelease, metadata))
  }

  /** A scan of `indentifiersString` over `value` leaves the scanner at its end. */
  predicate ScansToEnd(value: string)
    ensures ScansToEnd(value) <==> forall i :: 0 <= i < |value| ==> InSet(IdentifiersString, value[i])
  {
    SpanCoversAll(value, IdentifiersString);
    SpanLength(value, IdentifiersString) == |value|
  }

  /** The validity check of `init(major:...)`, run on a fresh `Scanner`. */
  method CheckIdentifiersText(value: string) returns (valid: bool)
    ensures valid <==> forall i :: 0 <= i < |value| ==> InSet(IdentifiersString, value[i])
  {
    var scanner := new Scanner(value);
    var _ := scanner.ScanCharacters(IdentifiersString);
    valid := scanner.IsAtEnd();
    SpanCoversAll(value, IdentifiersString);
  }

  /** `init(major:minor:patch:prerelease:metadata:)` as the source runs it. */
  method Init(major: Int64, minor: Int64, patch: Int64, prerelease: Option<string>, metadata: Option<string>)
    returns (r: Result<Version, VersionError>)
    ensures r == Make(major, minor, patch, prerelease, metadata)
  {
    if !(major >= 0 && minor >= 0 && patch >= 0) {
      return Err(IllegalNegativeVersionNumbers);
    }
    if prerelease.Some? {
      var valid := CheckIdentifiersText(prerelease.value);
      if !valid {
        return Err(InvalidPrereleaseString);
      }
    }
    if metadata.Some? {
      var valid := CheckIdentifiersText(metadata.value);
      if !valid {
        return Err(InvalidMetadataString);
      }
    }
    return Ok(Version(major, minor, patch, prerelease, metadata));
  }

  /** An identifier list as the initialiser stores it: nil when empty, else joined with '.'. */
  function JoinedOrNil(ids: seq<string>): Option<string>
  {
    if |ids| > 0 then Some(Join(ids)) else None
  }

  /** `init(major:minor:patch:prereleaseIdentifiers:metadataIdentifiers:)`. */
  function MakeFromIdentifiers(major: Int64, minor: Int64, patch: Int64, prerelease: seq<string>, metadata: seq<string>)
    : (r: Result<Version, VersionError>)
    ensures r == Make(major, minor, patch, JoinedOrNil(prerelease), JoinedOrNil(metadata))
    ensures r.Ok? ==> (r.value.prereleaseString.None? <==> |prerelease| == 0)
    ensures r.Ok? ==> (r.value.metadataString.None? <==> |metadata| == 0)
  {
    Make(major, minor, patch, JoinedOrNil(prerelease), JoinedOrNil(metadata))
  }

  /**
   * Identifiers given to the identifier-list initialiser come back from
   * `prereleaseIdentifiers` and `metadataIdentifiers` when none is empty or
   * holds a '.'.
   */
  lemma {:induction false} IdentifiersRoundTrip(major: Int64, minor: Int64, patch: Int64, prerelease: seq<string>, metadata: seq<string>)
    requires MakeFromIdentifiers(major, minor, patch, prerelease, metadata).Ok?
    requires NoEmptyPieces(prerelease) && NoEmptyPieces(metadata)
    ensures var v := MakeFromIdentifiers(major, minor, patch, prerelease, metadata).value;
            PrereleaseIdentifiers(v) == prerelease && MetadataIdentifiers(v) == metadata
  {
    SplitJoin(prerelease);
    SplitJoin(metadata);
  }

  /** `description`: "major.minor.patch", then "-" and the pre-release string, then "+" and the metadata. */
  function Description(v: Version): (r: string)
    ensures |r| > 0 && IsDigit(r[0]) && r[0] == Decimal(v.major)[0]
  {
    Decimal(v.major) + "." + Decimal(v.minor) + "." + Decimal(v.patch)
    + (if v.prereleaseString.Some? then "-" + v.prereleaseString.value else "")
    + (if v.metadataString.Some? then "+" + v.metadataString.value else "")
  }

  /** `description` as the source builds it, appending to a variable. */
  method Describe(v: Version) returns (text: string)
    ensures text == Description(v)
  {
    text := Decimal(v.major) + "." + Decimal(v.minor) + "." + Decimal(v.patch);
    if v.prereleaseString.Some? {
      text := text + "-" + v.prereleaseString.value;
    }
    if v.metadataString.Some? {
      text := text + "+" + v.metadataString.value;
    }
  }

  /**
   * The minor or patch step of `init(_:strict:)`: a '.' and then a number.
   * When the '.' is missing the number is 0, or the parse fails when strict;
   * an error while reading the number itself is passed on.
   */
  function OptionalNumber(s: string, strict: bool): (r: Result<Scanned<NonNegativeInt>, Failure>)
    ensures r.Ok? ==> r.value.consumed <= |s|
    ensures !(|s| > 0 && s[0] == '.') ==>
              r == if strict then Err(VersionFailure(MalformedVersionString)) else Ok(Scanned(0, 0))
    ensures |s| > 0 && s[0] == '.' ==>
              (r.Ok? <==> NumberToken(s[1..]).Ok?) &&
              (r.Ok? ==> r.value == Scanned(NumberToken(s[1..]).value.item, NumberToken(s[1..]).value.consumed + 1)) &&
              (r.Err? ==> r.error == ScannerFailure(NumberToken(s[1..]).error))
  {
    if |s| > 0 && s[0] == '.' then
      var number := NumberToken(s[1..]);
      if number.Err? then Err(ScannerFailure(number.error))
      else Ok(Scanned(number.value.item, number.value.consumed + 1))
    else if strict then Err(VersionFailure(MalformedVersionString))
    else Ok(Scanned(0, 0))
  }

  /**
   * The pre-release or metadata step of `init(_:strict:)`: when the text
   * starts with `lead`, the identifier list after it, stored joined by '.';
   * otherwise nil. An error of the list scan is passed on.
   */
  function OptionalIdentifiers(s: string, lead: char, allowLeadingZeros: bool): (r: Result<Scanned<Option<string>>, Failure>)
    ensures r.Ok? ==> r.value.consumed <= |s|
    ensures r.Ok? ==> (r.value.item.None? <==> r.value.consumed == 0)
    ensures !(|s| > 0 && s[0] == lead) ==> r == Ok(Scanned(None, 0))
    ensures |s| > 0 && s[0] == lead ==>
              var list := IdentifierList(s[1..], allowLeadingZeros);
              (r.Ok? <==> list.Ok?) &&
              (r.Ok? ==> r.value == Scanned(Some(Join(list.value.item)), list.value.consumed + 1)) &&
              (r.Err? ==> r.error == ScannerFailure(list.error))
  {
    if |s| > 0 && s[0] == lead then
      var list := IdentifierList(s[1..], allowLeadingZeros);
      if list.Err? then Err(ScannerFailure(list.error))
      else Ok(Scanned(Some(Join(list.value.item)), list.value.consumed + 1))
    else Ok(Scanned(None, 0))
  }

  /** `init(_:strict:)` on `value`: the major number, then the rest. */
  function Parsed(value: string, strict: bool): (r: Result<Version, Failure>)
    ensures !(|value| > 0 && IsDigit(value[0])) ==> r == Err(ScannerFailure(InvalidNumber))
  {
    var major := NumberToken(value);
    if major.Err? then Err(ScannerFailure(major.error))
    else AfterMajor(major.value.item, value[major.value.consumed..], strict)
  }

  /** The parse after the major number, on the unconsumed text `s`. */
  function AfterMajor(major: NonNegativeInt, s: string, strict: bool): (r: Result<Version, Failure>)
    ensures r.Ok? ==> r.value.major == major
    ensures strict && !(|s| > 0 && s[0] == '.') ==> r == Err(VersionFailure(MalformedVersionString))
  {
    var minor := OptionalNumber(s, strict);
    if minor.Err? then Err(minor.error)
    else AfterMinor(major, minor.value.item, s[minor.value.consumed..], strict)
  }

  /** The parse after the minor number. */
  function AfterMinor(major: NonNegativeInt, minor: NonNegativeInt, s: string, strict: bool): (r: Result<Version, Failure>)
    ensures r.Ok? ==> r.value.major == major && r.value.minor == minor
    ensures strict && !(|s| > 0 && s[0] == '.') ==> r == Err(VersionFailure(MalformedVersionString))
  {
    var patch := OptionalNumber(s, strict);
    if patch.Err? then Err(patch.error)
    else Suffix(major, minor, patch.value.item, s[patch.value.consumed..])
  }

  /** The parse after the patch number: pre-release, metadata, and nothing left over. */
  function Suffix(major: NonNegativeInt, minor: NonNegativeInt, patch: NonNegativeInt, s: string): (r: Result<Version, Failure>)
    ensures r.Ok? ==> r.value.major == major && r.value.minor == minor && r.value.patch == patch
    ensures r.Ok? ==> (r.value.prereleaseString.Some? <==> |s| > 0 && s[0] == '-')
    ensures |s| == 0 ==> r == Ok(Version(major, minor, patch, None, None))
    ensures |s| > 0 && s[0] != '-' && s[0] != '+' ==> r == Err(VersionFailure(MalformedVersionString))
  {
    var prerelease := OptionalIdentifiers(s, '-', false);
    if prerelease.Err? then Err(prerelease.error)
    else
      var t := s[prerelease.value.consumed..];
      var metadata := OptionalIdentifiers(t, '+', true);
      if metadata.Err? then Err(metadata.error)
      else if metadata.value.consumed < |t| then Err(VersionFailure(MalformedVersionString))
      else Ok(Version(major, minor, patch, prerelease.value.item, metadata.value.item))
  }

  /** The `advance(over: ".")` / `nextNumber()` step of `init(_:strict:)` for the minor or patch number. */
  method NextComponent(scanner: Scanner, strict: bool) returns (r: Result<NonNegativeInt, Failure>)
    requires scanner.Valid()
    modifies scanner
    ensures scanner.Valid()
    ensures Stepped(OptionalNumber(old(scanner.Rest()), strict), r, old(scanner.pos), scanner.pos)
  {
    var dot := scanner.Advance(".");
    if dot.Fail? {
      if strict {
        return Err(VersionFailure(MalformedVersionString));
      }
      return Ok(0);
    }
    var number := scanner.NextNumber();
    if number.Err? {
      return Err(ScannerFailure(number.error));
    }
    return Ok(number.value);
  }

  /** The pre-release or metadata step of `init(_:strict:)`. */
  method NextPart(scanner: Scanner, lead: char, allowLeadingZeros: bool) returns (r: Result<Option<string>, Failure>)
    requires scanner.Valid()
    modifies scanner
    ensures scanner.Valid()
    ensures Stepped(OptionalIdentifiers(old(scanner.Rest()), lead, allowLeadingZeros), r, old(scanner.pos), scanner.pos)
  {
    var found := scanner.Advance([lead]);
    if found.Fail? {
      return Ok(None);
    }
    var identifiers := scanner.NextIdentifiers(allowLeadingZeros);
    if identifiers.Err? {
      return Err(ScannerFailure(identifiers.error));
    }
    return Ok(Some(Join(identifiers.value)));
  }

  /** `init(_:strict:)`: parses `value` with a `Scanner`. */
  method Parse(value: string, strict: bool) returns (r: Result<Version, Failure>)
    ensures r == Parsed(value, strict)
  {
    var scanner := new Scanner(value);
    var major := scanner.NextNumber();
    if major.Err? {
      return Err(ScannerFailure(major.error));
    }
    r := ParseAfterMajor(scanner, major.value, strict);
  }

  /** The statements of `init(_:strict:)` after the major number. */
  method ParseAfterMajor(scanner: Scanner, major: NonNegativeInt, strict: bool) returns (r: Result<Version, Failure>)
    requires scanner.Valid()
    modifies scanner
    ensures r == AfterMajor(major, old(scanner.Rest()), strict)
  {
    ghost var rest := scanner.Rest();
    var minor := NextComponent(scanner, strict);
    if minor.Err? {
      return Err(minor.error);
    }
    ghost var skipped := OptionalNumber(rest, strict).value.consumed;
    assert scanner.Rest() == rest[skipped..];
    r := ParseAfterMinor(scanner, major, minor.value, strict);
  }

  /** The statements of `init(_:strict:)` after the minor number. */
  method ParseAfterMinor(scanner: Scanner, major: NonNegativeInt, minor: NonNegativeInt, strict: bool)
    returns (r: Result<Version, Failure>)
    requires scanner.Valid()
    modifies scanner
    ensures r == AfterMinor(major, minor, old(scanner.Rest()), strict)
  {
    ghost var rest := scanner.Rest();
    var patch := NextComponent(scanner, strict);
    if patch.Err? {
      return Err(patch.error);
    }
    ghost var skipped := OptionalNumber(rest, strict).value.consumed;
    assert scanner.Rest() == rest[skipped..];
    r := ParseSuffix(scanner, major, minor, patch.value);
  }

  /** The statements of `init(_:strict:)` after the patch number. */
  method ParseSuffix(scanner: Scanner, major: NonNegativeInt, minor: NonNegativeInt, patch: NonNegativeInt)
    returns (r: Result<Version, Failure>)
    requires scanner.Valid()
    modifies scanner
    ensures r == Suffix(major, minor, patch, old(scanner.Rest()))
  {
    ghost var rest := scanner.Rest();
    var prerelease := NextPart(scanner, '-', false);
    if prerelease.Err? {
      return Err(prerelease.error);
    }
    ghost var skipped := OptionalIdentifiers(rest, '-', false).value.consumed;
    assert scanner.Rest() == rest[skipped..];
    var metadata := NextPart(scanner, '+', true);
    if metadata.Err? {
      return Err(metadata.error);
    }
    if !scanner.IsAtEnd() {
      return Err(VersionFailure(MalformedVersionString));
    }
    return Ok(Version(major, minor, patch, prerelease.value, metadata.value));
  }

  /** `init(stringLiteral:)`: the lenient parse, or 0.0.0 when it throws. */
  method FromLiteral(value: string) returns (v: Version)
    ensures Parsed(value, false).Ok? ==> v == Parsed(value, false).value
    ensures Parsed(value, false).Err? ==> v == Zero
  {
    var parsed := Parse(value, false);
    v := if parsed.Ok? then parsed.value else Zero;
  }
}
