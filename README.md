# Version — a verified model of a Swift semantic-version type

`Version` is a Swift value type for semantic versions such as `1.2.3-beta.1+build.5`.
It holds three non-negative numbers plus an optional pre-release string and an optional metadata string.
This project models its core, `Sources/Version/Version.swift`, in Dafny and proves properties of the model.

What is modelled:

* **Discrete initialisers.**
  * `init(major:minor:patch:prerelease:metadata:)` rejects negative numbers.
  * It checks each string with a `Scanner` over the set "-0-9A-Za-z.".
  * Strings pass through verbatim, so the empty string, empty identifiers and leading zeros are all accepted.
  * `init(major:minor:patch:prereleaseIdentifiers:metadataIdentifiers:)` maps an empty list to nil and otherwise joins it with '.'.
* **`description`**, its textual form, built step by step.
* **Comparisons.**
  * `==` ignores metadata.
  * `===` and `!==` compare metadata as well.
  * `<` compares the numbers first, then puts a pre-release before a release.
  * Two pre-releases are ordered by `isPrerelease(_:lessThan:)`: the first differing pair of identifiers decides, by `Int(_:)` value, with non-numbers taking the value `Int.max`, then by string order. When one list of identifiers is a prefix of the other, the shorter raw string is less.
* **`init(_:strict:)`**, the string parser, which runs a class `Scanner` with a mutable scan position.
  * It reads a major number, then ".minor" and ".patch".
  * When "." is absent, minor and patch default to 0, or the parse fails in strict mode.
  * It then reads "-" with pre-release identifiers, "+" with metadata identifiers, and requires the end of the text.
* **`init(stringLiteral:)`** falls back to 0.0.0 on any error.
* **Scanner helpers.** The scanner extensions `nextNumber`, `nextIdentifier`, `nextIdentifiers` and `advance(over:)` are modelled over the two identifier character sets.

Each scanner step is a method on `Scanning.Scanner`. Each is proved against a pure function of the unconsumed text; that function returns the token and how many characters the step consumes. The parse is a method proved equal to the pure function `Versions.Parsed`. The laws are proved about those functions:

* the round trip `Parsed(Description(v)) == Ok(v)`, which holds exactly for the well-formed versions;
* lenient versus strict defaults;
* leading-zero rules;
* the failure cases;
* the order laws, together with the inputs where they break.

Modules, one per file:

* `Wrappers` (`wrappers.dfy`): `Option`, `Result`, `Outcome`.
* `Text` (`text.dfy`):
  * `Int(_:)` for 64-bit `Int`;
  * decimal rendering;
  * code-point string order;
  * `split(separator: ".")` and `joined(separator: ".")`.
* `Scanning` (`scanner.dfy`): the character sets, the scanner errors, the scanner class and its helper methods.
* `Versions` (`version.dfy`): the `Version` datatype, errors, initialisers, `description` and the string parser.
* `Ordering` (`ordering.dfy`): `==`, `===`, `!==`, `<` and the order laws.
* `ParsingLaws` (`parsing.dfy`): properties of the string parser.

## Model

| member | source | states |
|---|---|---|
| Text.ParseInt | Sources/Version/Version.swift:143-144 | `Int(_:)`: empty text is nil; a digit string gives its value when it fits in `Int` and nil otherwise; a result for text starting with a digit means all digits |
| Text.Decimal | Sources/Version/Version.swift:85 | the rendering of a number is a non-empty digit string whose value is the number and which starts with '0' only for 0 |
| Text.Split | Sources/Version/Version.swift:23 | `split(separator: ".")` yields non-empty pieces without '.', and yields none exactly when the text is all dots |
| Text.SplitJoin | Sources/Version/Version.swift:66 | splitting the join of non-empty, dot-free identifiers gives them back |
| Text.JoinPrefixShorter | Sources/Version/Version.swift:66 | a proper prefix of a list of non-empty identifiers joins into a shorter string |
| Text.JoinThenDot | Sources/Version/Version.swift:66 | a join followed by '.' is each identifier followed by '.' |
| Text.LexLessTransitive | Sources/Version/Version.swift:149 | the string order used as the last tie-break is transitive |
| Text.LexLessTotal | Sources/Version/Version.swift:149 | distinct strings are ordered one way or the other |
| Scanning.SpanLength | Sources/Version/Version.swift:204 | `scanCharacters(from:)` consumes a prefix lying in the set and stops at the first character outside it |
| Scanning.SpanCoversAll | Sources/Version/Version.swift:47-48 | the scan reaches the end exactly when every character lies in the set |
| Scanning.NumberToken | Sources/Version/Version.swift:202-212 | `nextNumber` succeeds iff the digit run is non-empty, fits in `Int`, and has no leading zero unless its value is 0; it returns the run's value and consumes the run |
| Scanning.LeadingZeroProhibited | Sources/Version/Version.swift:220 | an identifier is refused for a leading zero iff it has more than one character, starts with '0', is all digits and has a non-zero value that fits in `Int` |
| Scanning.IdentifierToken | Sources/Version/Version.swift:214-224 | `nextIdentifier` returns the full identifier-character run, which is allowed; it fails only on an empty run or on a prohibited leading zero |
| Scanning.IdentifierList | Sources/Version/Version.swift:226-233 | `nextIdentifiers` consumes at least one character and no more than the text; what it reads and where it fails are stated by `IdentifierListOf`, `IdentifierListFailsAfter` and `ParsingLaws.IdentifierListAllowed` |
| Scanning.IdentifierListOf | Sources/Version/Version.swift:226-233 | allowed identifiers joined by '.', followed by a character outside the set and not '.', read back as exactly that list |
| Scanning.IdentifierListFailsAfter | Sources/Version/Version.swift:226-233 | after any number of allowed identifiers each followed by '.', text `nextIdentifier` refuses fails the whole list scan with that same error |
| Scanning.InSetListed | Sources/Version/Version.swift:251-261 | the identifier set holds exactly the characters listed for it ("-", the digits, the lower-case and the upper-case letters), the identifiers-string set adds '.', and decimal digits are "0" to "9" |
| Scanning.Scanner.constructor | Sources/Version/Version.swift:45 | a new scanner is at the start of its text |
| Scanning.Scanner.IsAtEnd | Sources/Version/Version.swift:185 | `isAtEnd` holds iff nothing is left to scan |
| Scanning.Scanner.ScanCharacters | Sources/Version/Version.swift:204 | the loop advances over the longest run of the set and returns it, or nil when the run is empty |
| Scanning.Scanner.ScanString | Sources/Version/Version.swift:230 | the literal is consumed iff the rest starts with it; otherwise the position stays |
| Scanning.Scanner.Advance | Sources/Version/Version.swift:235-239 | passes and consumes the literal when present; otherwise throws `valueNotAtScanLocation` without moving |
| Scanning.Scanner.NextNumber | Sources/Version/Version.swift:202-212 | returns what `NumberToken` gives on the unconsumed text and advances past the digit run |
| Scanning.Scanner.NextIdentifier | Sources/Version/Version.swift:214-224 | returns what `IdentifierToken` gives and advances past the identifier run |
| Scanning.Scanner.NextListItem | Sources/Version/Version.swift:228-229 | one pass of the `repeat` body: the identifier `IdentifierToken` gives, then whether a '.' followed it, advancing over both |
| Scanning.Scanner.NextIdentifiers | Sources/Version/Version.swift:226-233 | the `repeat` loop returns what `IdentifierList` gives, and on success advances by what it consumes |
| Versions.IsPrerelease | Sources/Version/Version.swift:30-32 | a version is a pre-release iff it has a pre-release string with a character other than '.' |
| Versions.PrereleaseIdentifiers | Sources/Version/Version.swift:22-24 | no pre-release string gives no identifiers; each identifier is non-empty and contains no '.' |
| Versions.MetadataIdentifiers | Sources/Version/Version.swift:26-28 | no metadata string gives no identifiers; each identifier is non-empty and contains no '.' |
| Versions.Make | Sources/Version/Version.swift:34-62 | success iff all numbers are non-negative and both strings (when present) lie in the identifiers-string set, storing them verbatim; otherwise `illegalNegativeVersionNumbers` on a negative, then `invalidPrereleaseString` on a bad pre-release, then `invalidMetadataString` |
| Versions.ScansToEnd | Sources/Version/Version.swift:44-49 | the scan-to-end check holds iff every character is in the identifiers-string set |
| Versions.CheckIdentifiersText | Sources/Version/Version.swift:44-49 | the check run on a fresh `Scanner` gives the same verdict |
| Versions.Init | Sources/Version/Version.swift:34-62 | the initialiser's guards, run in order, give the result `Make` specifies |
| Versions.MakeFromIdentifiers | Sources/Version/Version.swift:64-70 | joins non-empty lists (empty lists become nil) and defers to the discrete initialiser; a stored string is nil iff its list was empty |
| Versions.IdentifiersRoundTrip | Sources/Version/Version.swift:64-70 | non-empty, dot-free identifiers passed as lists come back from `prereleaseIdentifiers` and `metadataIdentifiers` |
| Versions.Describe | Sources/Version/Version.swift:84-93 | building the text step by step gives "major.minor.patch", then "-pre" if present, then "+meta" if present |
| Versions.Description | Sources/Version/Version.swift:84-93 | the text form is non-empty and starts with the first digit of the major number, so the parser's first step reads a number |
| Versions.OptionalIdentifiers | Sources/Version/Version.swift:181-184 | without the lead character, nil and nothing consumed; after it, the identifier list joined by '.', or the list scan's error passed on uncaught; nil exactly when nothing was consumed |
| Versions.NextComponent | Sources/Version/Version.swift:165-171 | the scanner step of the minor or patch number agrees with `OptionalNumber` |
| Versions.NextPart | Sources/Version/Version.swift:181-184 | the scanner step of pre-release or metadata agrees with `OptionalIdentifiers` |
| Versions.Parse | Sources/Version/Version.swift:159-186 | the scanner-driven parse returns exactly `Parsed(value, strict)` |
| Versions.Parsed | Sources/Version/Version.swift:159-163 | text that does not start with a digit fails with `invalidNumber` |
| Versions.AfterMajor | Sources/Version/Version.swift:165-171 | the result keeps the major number already read; in strict mode a missing '.' fails with `malformedVersionString` |
| Versions.AfterMinor | Sources/Version/Version.swift:173-179 | the result keeps the major and minor numbers; in strict mode a missing '.' fails with `malformedVersionString` |
| Versions.Suffix | Sources/Version/Version.swift:181-185 | the result keeps the three numbers and has a pre-release iff the text starts with '-'; empty text gives neither part; text that starts with neither '-' nor '+' fails with `malformedVersionString` |
| Versions.ParseAfterMajor | Sources/Version/Version.swift:165-186 | the rest of the parse after the major number agrees with `AfterMajor` |
| Versions.ParseAfterMinor | Sources/Version/Version.swift:173-186 | the rest of the parse after the minor number agrees with `AfterMinor` |
| Versions.ParseSuffix | Sources/Version/Version.swift:181-185 | pre-release, metadata and the end-of-text guard agree with `Suffix` |
| Versions.FromLiteral | Sources/Version/Version.swift:188-195 | the literal is the lenient parse when that succeeds, and 0.0.0 otherwise |
| Ordering.FirstDifference | Sources/Version/Version.swift:120 | `zip(...).first(where: !=)` finds the first index where both sequences differ, and finds none iff they agree on their common length |
| Ordering.NumericOrMax | Sources/Version/Version.swift:143-144 | `Int(x) ?? Int.max`: the value `Int(_:)` gives, signed text included, and `Int.max` whenever it gives nil; so a digit string that fits gives its value, and the empty string, a digit string that overflows, or text starting with neither a digit nor a sign, such as "alpha", give `Int.max` |
| Ordering.IdentifierLess | Sources/Version/Version.swift:143-149 | two identifiers that `Int(_:)` reads as different numbers compare by value; the same number written differently, such as "01" and "1", compares in string order; one it reads as a number below `Int.max` comes before one it rejects; two it rejects compare in string order |
| Ordering.IsPrereleaseLessThan | Sources/Version/Version.swift:135-150 | on any strings, at a first differing pair of identifiers the result is the list order `IdentifiersLess`; when the identifier lists are equal, or either is a proper prefix of the other, the shorter raw string is less |
| Ordering.Less | Sources/Version/Version.swift:115-133 | `<` holds iff the numbers are lexicographically less, or they are equal and the left side is a pre-release and the right side either is not or is a larger pre-release |
| Ordering.Equal | Sources/Version/Version.swift:108-113 | `==` holds iff the versions agree once their metadata is dropped |
| Ordering.Identical | Sources/Version/Version.swift:98-100 | `===` holds iff all five fields agree |
| Ordering.NotIdentical | Sources/Version/Version.swift:102-104 | `!==` holds iff some field differs |
| Ordering.LessIrreflexive | Sources/Version/Version.swift:115-150 | no version is less than itself |
| Ordering.LessAsymmetric | Sources/Version/Version.swift:115-150 | `a < b` and `b < a` never both hold |
| Ordering.PrereleaseLessIsLexicographic | Sources/Version/Version.swift:135-150 | on canonical pre-release strings, `isPrerelease(_:lessThan:)` is the lexicographic order of identifier lists, with a proper prefix first |
| Ordering.IdentifierLessTransitive | Sources/Version/Version.swift:143-149 | the identifier order is transitive |
| Ordering.IdentifierLessTotal | Sources/Version/Version.swift:143-149 | distinct identifiers are ordered one way or the other |
| Ordering.IdentifierLessIrreflexive | Sources/Version/Version.swift:143-149 | no identifier is less than itself |
| Ordering.IdentifiersLessTransitive | Sources/Version/Version.swift:137-149 | the lexicographic order of identifier lists is transitive |
| Ordering.IdentifiersLessTotal | Sources/Version/Version.swift:137-149 | distinct identifier lists are ordered one way or the other |
| Ordering.LessTransitive | Sources/Version/Version.swift:115-150 | `<` is transitive on versions whose pre-release strings are canonical |
| Ordering.LessTrichotomous | Sources/Version/Version.swift:108-150 | on canonical versions exactly one of `a < b`, `a == b` and `b < a` holds |
| Ordering.EmptyPrereleaseIncomparable | Sources/Version/Version.swift:30-32 | 1.0.0 with pre-release "" is accepted, but is neither `<` nor `>` 1.0.0, and not `==` to it |
| Ordering.PrereleaseCycle | Sources/Version/Version.swift:135-141 | the raw-length tie-break makes `isPrerelease(_:lessThan:)` cyclic on pre-releases padded with dots |
| Ordering.VersionCycle | Sources/Version/Version.swift:115-150 | three versions the discrete initialiser accepts satisfy a < b < c < a |
| Ordering.ParseDecimal | Sources/Version/Version.swift:143 | `Int(_:)` reads back the rendering of every non-negative `Int` |
| Ordering.NumericBeforeNonNumeric | Sources/Version/Version.swift:143-147 | a numeric identifier below `Int.max` comes before any identifier that `Int(_:)` rejects |
| Ordering.NumericByValue | Sources/Version/Version.swift:143-149 | numeric identifiers compare by value, not as text |
| Ordering.SameValueByText | Sources/Version/Version.swift:143-149 | "01" and "1" both have `Int(_:)` value 1, and "01" comes first by string order |
| Ordering.IntMaxCollision | Sources/Version/Version.swift:143-149 | the rendering of `Int.max` is compared with non-numeric identifiers as a string |
| Ordering.NegativeIdentifier | Sources/Version/Version.swift:143-147 | `Int(_:)` reads "-n" as a negative number, so "-1" sorts before "0" |
| Ordering.PrefixFirst | Sources/Version/Version.swift:135-141 | a single identifier comes before itself followed by '.' and another identifier |
| Ordering.SecondDecides | Sources/Version/Version.swift:135-149 | two pre-releases with the same first identifier are ordered by their second |
| Ordering.FirstDecides | Sources/Version/Version.swift:135-149 | two pre-releases with different first identifiers are ordered by them, whatever follows |
| Ordering.AlphaBeforeAlphaOne | Sources/Version/Version.swift:135-141 | 1.0.0-alpha < 1.0.0-alpha.1 |
| Ordering.AlphaOneBeforeAlphaBeta | Sources/Version/Version.swift:135-149 | 1.0.0-alpha.1 < 1.0.0-alpha.beta |
| Ordering.AlphaBetaBeforeBeta | Sources/Version/Version.swift:135-149 | 1.0.0-alpha.beta < 1.0.0-beta |
| Ordering.BetaBeforeBetaTwo | Sources/Version/Version.swift:135-141 | 1.0.0-beta < 1.0.0-beta.2 |
| Ordering.BetaTwoBeforeBetaEleven | Sources/Version/Version.swift:135-149 | 1.0.0-beta.2 < 1.0.0-beta.11 |
| Ordering.BetaElevenBeforeRcOne | Sources/Version/Version.swift:135-149 | 1.0.0-beta.11 < 1.0.0-rc.1 |
| Ordering.RcOneBeforeRelease | Sources/Version/Version.swift:125-129 | 1.0.0-rc.1 < 1.0.0 |
| ParsingLaws.NumberTokenOfDecimal | Sources/Version/Version.swift:202-212 | `nextNumber` reads back the rendering of a number when a non-digit follows |
| ParsingLaws.ComponentOf | Sources/Version/Version.swift:165-171 | the minor or patch step reads back "." and a rendered number |
| ParsingLaws.PartOf | Sources/Version/Version.swift:181-184 | the pre-release or metadata step reads back a rendered part, or nil when it is absent |
| ParsingLaws.MajorOf | Sources/Version/Version.swift:163 | the major-number step reads a rendered number back and goes on with the text after it |
| ParsingLaws.MinorOf | Sources/Version/Version.swift:165-171 | the minor step reads "." and a rendered number back and goes on with the text after them |
| ParsingLaws.PatchOf | Sources/Version/Version.swift:173-179 | the patch step reads "." and a rendered number back and goes on with the text after them |
| ParsingLaws.DescriptionNumbers | Sources/Version/Version.swift:159-179 | the parse reads back the three rendered numbers and goes on with the text after them |
| ParsingLaws.SuffixParses | Sources/Version/Version.swift:181-185 | the rendered suffix of a well-formed version parses back; text after it fails with `malformedVersionString` |
| ParsingLaws.DescriptionParses | Sources/Version/Version.swift:159-186 | the description of a well-formed version parses back to it; any following text where the scan stops fails with `malformedVersionString` |
| ParsingLaws.IdentifierListAllowed | Sources/Version/Version.swift:226-233 | every identifier that `nextIdentifiers` returns is allowed, and there is at least one |
| ParsingLaws.OptionalIdentifiersDotted | Sources/Version/Version.swift:181-184 | a stored pre-release or metadata string is allowed identifiers joined by '.' that split back into themselves |
| ParsingLaws.ParsedWellFormed | Sources/Version/Version.swift:159-186 | every version the parser returns is well-formed |
| ParsingLaws.RoundTrip | Sources/Version/Version.swift:159-186 | the description parses back to the version, also under `===`, iff the version is well-formed |
| ParsingLaws.WellFormedIsCanonical | Sources/Version/Version.swift:135-141 | well-formed versions lie in the domain where the order laws hold |
| ParsingLaws.ParsedVersionsOrdered | Sources/Version/Version.swift:115-186 | parsed versions are totally ordered by `<` up to `==`, and `<` is transitive on them |
| ParsingLaws.StrictAgreesWithLenient | Sources/Version/Version.swift:165-179 | a strict parse that succeeds gives the same result as the lenient parse |
| ParsingLaws.NoMinor | Sources/Version/Version.swift:165-171 | a major number followed by no '.' has minor and patch 0 (lenient) or fails (strict) |
| ParsingLaws.NoPatch | Sources/Version/Version.swift:173-179 | "major.minor" not followed by '.' has patch 0 (lenient) or fails (strict) |
| ParsingLaws.MissingMinorAndPatch | Sources/Version/Version.swift:165-179 | "M" + rest parses leniently like "M.0.0" + rest, and fails with `malformedVersionString` when strict |
| ParsingLaws.MissingPatch | Sources/Version/Version.swift:173-179 | "M.m" + rest parses leniently like "M.m.0" + rest, and fails with `malformedVersionString` when strict |
| ParsingLaws.MajorOnlyParses | Sources/Version/Version.swift:165-179 | "M-pre+meta" is the version M.0.0-pre+meta when lenient and an error when strict |
| ParsingLaws.MajorMinorParses | Sources/Version/Version.swift:173-179 | "M.m-pre+meta" is the version M.m.0-pre+meta when lenient and an error when strict |
| ParsingLaws.ZerosAreZero | Sources/Version/Version.swift:208 | a run of zeros such as "00" is the number 0 and is accepted |
| ParsingLaws.LeadingZeroMajorFails | Sources/Version/Version.swift:208-210 | a major number such as "005", with a leading zero and a non-zero value, fails with `leadingZerosProhibited` |
| ParsingLaws.LeadingZeroNumberToken | Sources/Version/Version.swift:208-210 | `nextNumber` throws `leadingZerosProhibited` on a digit run with a leading zero and a non-zero value that fits in `Int` |
| ParsingLaws.LeadingZeroMinorFails | Sources/Version/Version.swift:165-171 | a minor number with a leading zero and a non-zero value, such as "1.02.3", fails the parse with `leadingZerosProhibited`, strict or lenient |
| ParsingLaws.LeadingZeroPatchFails | Sources/Version/Version.swift:173-179 | a patch number with a leading zero and a non-zero value, such as "1.2.03", fails the parse with `leadingZerosProhibited`, strict or lenient |
| ParsingLaws.LeadingZeroAsymmetry | Sources/Version/Version.swift:220-222 | a numeric identifier with a leading zero is accepted by the discrete initialiser, but as pre-release its description fails to parse; as metadata it round-trips |
| ParsingLaws.DotWithoutDigitsFails | Sources/Version/Version.swift:165-171 | a '.' not followed by a digit fails with `invalidNumber`, strict or lenient |
| ParsingLaws.DotWithoutPatchDigitsFails | Sources/Version/Version.swift:173-179 | a '.' before the patch number that no digit follows fails with `invalidNumber`, strict or lenient |
| ParsingLaws.EmptyPrereleaseFails | Sources/Version/Version.swift:217-219 | a "-" after the numbers with no identifier character after it fails with `invalidIdentifier`, strict or lenient |
| ParsingLaws.EmptyMetadataFails | Sources/Version/Version.swift:217-219 | a "+" after the numbers or after the pre-release part, with no identifier character after it, fails with `invalidIdentifier` |
| ParsingLaws.EmptyIdentifierAfterDotFails | Sources/Version/Version.swift:226-233 | a '.' after the last pre-release or metadata identifier, with no identifier after it, fails with `invalidIdentifier`, since the list scan then expects another identifier |
| ParsingLaws.PartFails | Sources/Version/Version.swift:181-184 | the pre-release or metadata step passes on the error `nextIdentifier` raises at any position of the list |
| ParsingLaws.SuffixFailsAtPrerelease | Sources/Version/Version.swift:181-182 | an error of the pre-release step is the parse's error |
| ParsingLaws.SuffixFailsAtMetadata | Sources/Version/Version.swift:183-184 | after a pre-release step that succeeds, an error of the metadata step is the parse's error |
| ParsingLaws.PrereleaseListFails | Sources/Version/Version.swift:181-182 | after any number of allowed pre-release identifiers each followed by '.', text `nextIdentifier` refuses fails the whole parse with that error |
| ParsingLaws.MetadataListFails | Sources/Version/Version.swift:183-184 | after any number of metadata identifiers each followed by '.', with or without a pre-release part before them, a missing identifier fails the parse with `invalidIdentifier` |
| ParsingLaws.LeadingZeroIdentifierFails | Sources/Version/Version.swift:220-222 | a pre-release identifier with a prohibited leading zero fails the parse with `leadingZerosProhibited` at any position of the list |
| ParsingLaws.MalformedExamples | Tests/VersionTests/VersionTests.swift:53-58 | "", "garbage" and "005" do not parse, so the literal initialiser gives 0.0.0 for them |
| ParsingLaws.MajorGarbageExample | Tests/VersionTests/VersionTests.swift:54 | "1garbage" fails with `malformedVersionString`: minor and patch default to 0 and text is left |
| ParsingLaws.DoubleDotExample | Tests/VersionTests/VersionTests.swift:54 | "1..2..3" fails with `invalidNumber`: no digit follows the first '.' |
| ParsingLaws.LeadingZeroMajorExample | Tests/VersionTests/VersionTests.swift:54 | "01.2.3" fails with `leadingZerosProhibited` |
| ParsingLaws.LeadingZeroPrereleaseExample | Tests/VersionTests/VersionTests.swift:54 | "1.2.3-beta.01" fails with `leadingZerosProhibited`, at the second pre-release identifier |
| ParsingLaws.MajorMinorGarbageExample | Tests/VersionTests/VersionTests.swift:54 | "1.2garbage" fails with `malformedVersionString`: the patch defaults to 0 and text is left |
| ParsingLaws.TrailingGarbageExample | Tests/VersionTests/VersionTests.swift:54 | "1.2.3garbage" fails with `malformedVersionString`: text is left after the version |
| ParsingLaws.ForeignCharacterExample | Tests/VersionTests/VersionTests.swift:54 | "1.2.3-" followed by U+00CF U+0192, the code points of the test literal's bytes C3 8F C6 92 (a garbled letter sigma), fails with `invalidIdentifier` |

Two order anomalies are proved about inputs the discrete initialiser accepts:

* **A `<` cycle.** Pre-release strings with empty identifiers (runs of dots) make `<` cyclic. For example, "a........." < "a.a........" < "a.b" < "a.........". `Ordering.VersionCycle` states the general case.
* **`==` finer than `<`.** An empty pre-release string is incomparable with no pre-release under `<`, yet the two are not `==`.

The parser never produces either: `ParsingLaws.WellFormedIsCanonical` and `ParsingLaws.ParsedVersionsOrdered` restrict the laws to parsed versions. Other anomalies, also proved:

* `Int(_:)` accepts a sign, so "-1" is a number and sorts before "0".
* The text of `Int.max` collides with the value that non-numeric identifiers are given.
* The discrete initialiser accepts leading zeros that `init(_:strict:)` rejects.

## Left out

- `Scanner`'s default skipping of whitespace before `scanCharacters`, `scanString` and `isAtEnd`: the model scans with no characters to skip, as if `charactersToBeSkipped` were empty. Three consequences follow.
  - The model reads " 1.2.3" and "1. 2.3" as malformed.
  - The source's discrete initialiser accepts " a" and "a " as pre-release or metadata strings, because the scan skips the space and `isAtEnd` skips trailing whitespace. `Versions.Make` rejects them.
  - The source's `init(_:strict:)` accepts "1.2.3 ", because `isAtEnd` skips trailing whitespace. The model fails it with `malformedVersionString`.
- Unicode digits and grapheme clusters: `CharacterSet.decimalDigits` is modelled as the ASCII digits. Strings are sequences of code points, so `count` is the number of code points and string `<` is code-point order, not Unicode-collated comparison.
- `Int` is modelled as an unbounded integer restricted to the 64-bit range at the points where the source converts (`Int(_:)` and the fields). No arithmetic overflows in the modelled code.
- The `print` call in `init(stringLiteral:)` is left out because it is output only.
- `Codable` and `Hashable` conformances are left out because they are synthesised by the compiler and hold no logic in this file.
- The `<=`, `>` and `>=` operators are left out because they are derived by the standard library from `<`.
- Scanning.Scanner.NextIdentifiers: after a thrown error the scan position is left unspecified; no caller reads it.
- The successful parses in `Tests/VersionTests/VersionTests.swift`, such as "1.2.3-prerelease+metadata", are not stated one by one. The general lemmas `ParsingLaws.RoundTrip`, `ParsingLaws.MajorOnlyParses` and `ParsingLaws.MajorMinorParses` cover them. Each malformed string of its line 54 is stated as its own lemma (the rows of lemmas whose names end in `Example` or `Examples`).
- The XCTest harness in `Tests/VersionTests/VersionTests.swift` is not part of this model.
