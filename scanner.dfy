/**
 * The Foundation `Scanner` as the version parser uses it: a cursor over the
 * input text, `scanCharacters(from:into:)`, `scanString(_:into:)`,
 * `isAtEnd`, and the parser's helpers `nextNumber`, `nextIdentifier`,
 * `nextIdentifiers` and `advance(over:)`.
 *
 * Each helper is specified by a pure function over the text that has not
 * been consumed yet; the function returns the token and how many characters
 * it consumes. The `Scanner` class runs the same steps on a mutable cursor
 * and is proved to agree with those functions.
 */
module Scanning {
  import opened Wrappers
  import opened Text

  /** The three character sets the parser scans with. */
  datatype CharSet =
    | DecimalDigits      // ASCII digits
    | Identifier         // "-0123456789abc...xyzABC...XYZ"
    | IdentifiersString  // the same plus '.'

  predicate IsIdentifierChar(c: char) {
    c == '-' || IsDigit(c) || 'a' <= c <= 'z' || 'A' <= c <= 'Z'
  }

  predicate InSet(cs: CharSet, c: char) {
    match cs
    case DecimalDigits => IsDigit(c)
    case Identifier => IsIdentifierChar(c)
    case IdentifiersString => IsIdentifierChar(c) || c == '.'
  }

  /** The characters the source lists for the identifier set, in its order, written as four runs. */
  const IdentifierCharacters: string :=
    "-" + "0123456789" + "abcdefghijklmnopqrstuvwxyz" + "ABCDEFGHIJKLMNOPQRSTUVWXYZ"

  /** The characters the source lists for the identifiers-string set: the same and '.'. */
  const IdentifiersStringCharacters: string := IdentifierCharacters + "."

  lemma {:induction false} InDigitRun(c: char)
    ensures c in "0123456789" <==> IsDigit(c)
  {
  }

  lemma {:induction false} InLowerRun(c: char)
    ensures c in "abcdefghijklmnopqrstuvwxyz" <==> 'a' <= c <= 'z'
  {
  }

  lemma {:induction false} InUpperRun(c: char)
    ensures c in "ABCDEFGHIJKLMNOPQRSTUVWXYZ" <==> 'A' <= c <= 'Z'
  {
  }

  /**
   * The character sets are exactly the character lists the source builds
   * them from; decimal digits are modelled as the ASCII digits.
   */
  lemma {:induction false} InSetListed(c: char)
    ensures InSet(DecimalDigits, c) <==> c in "0123456789"
    ensures InSet(Identifier, c) <==> c in IdentifierCharacters
    ensures InSet(IdentifiersString, c) <==> c in IdentifiersStringCharacters
  {
    InDigitRun(c);
    InLowerRun(c);
    InUpperRun(c);
  }

  /** The scanner's own error kinds. */
  datatype ScanError =
    | LeadingZerosProhibited
    | InvalidNumber
    | InvalidIdentifier
    | ValueNotAtScanLocation

  /** A token read at the front of the unconsumed text, and how many characters it took. */
  datatype Scanned<+T> = Scanned(item: T, consumed: nat)

  /** How many characters `scanCharacters(from: cs)` consumes at the front of `s`. */
  function SpanLength(s: string, cs: CharSet): (n: nat)
    ensures n <= |s|
    ensures forall i :: 0 <= i < n ==> InSet(cs, s[i])
    ensures n < |s| ==> !InSet(cs, s[n])
  {
    if |s| == 0 || !InSet(cs, s[0]) then 0 else 1 + SpanLength(s[1..], cs)
  }

  /** A run of characters from `cs` followed by the end or by another character is the whole span. */
  lemma {:induction false} SpanLengthUnique(s: string, cs: CharSet, k: nat)
    requires k <= |s|
    requires forall i :: 0 <= i < k ==> InSet(cs, s[i])
    requires k < |s| ==> !InSet(cs, s[k])
    ensures SpanLength(s, cs) == k
  {
  }

  /** The scanner-based character check of the discrete initializer: every character lies in `cs`. */
  lemma {:induction false} SpanCoversAll(s: string, cs: CharSet)
    ensures SpanLength(s, cs) == |s| <==> forall i :: 0 <= i < |s| ==> InSet(cs, s[i])
  {
    if forall i :: 0 <= i < |s| ==> InSet(cs, s[i]) {
      SpanLengthUnique(s, cs, |s|);
    }
  }

  /** `nextNumber()`: a run of digits that `Int(_:)` accepts and that has no leading zero unless it is zero. */
  function NumberToken(s: string): (r: Result<Scanned<NonNegativeInt>, ScanError>)
    ensures r.Ok? ==> 0 < r.value.consumed == SpanLength(s, DecimalDigits)
    ensures r.Ok? ==> r.value.item == DigitsValue(s[..r.value.consumed])
    ensures r.Ok? <==>
              var n := SpanLength(s, DecimalDigits);
              n > 0 && DigitsValue(s[..n]) <= IntMax && (s[0] == '0' ==> DigitsValue(s[..n]) == 0)
  {
    var n := SpanLength(s, DecimalDigits);
    var digits := s[..n];
    var number := ParseInt(digits);
    if n == 0 || number.None? then Err(InvalidNumber)
    else if number.value != 0 && digits[0] == '0' then Err(LeadingZerosProhibited)
    else Ok(Scanned(number.value, n))
  }

  /**
   * The leading-zero test of `nextIdentifier`: the identifier converts with
   * `Int(_:)`, the value is not zero, and the first character is '0'.
   */
  predicate LeadingZeroProhibited(id: string)
    ensures LeadingZeroProhibited(id) <==>
              |id| > 1 && id[0] == '0' && AllDigits(id) && 0 < DigitsValue(id) <= IntMax
  {
    var number := ParseInt(id);
    assert |id| == 1 && AllDigits(id) ==> DigitsValue(id) == DigitValue(id[0]) by {
      if |id| == 1 { assert id[..0] == []; }
    }
    number.Some? && number.value != 0 && id[0] == '0'
  }

  /** A non-empty string of identifier characters. */
  predicate IsIdentifier(id: string) {
    |id| > 0 && forall i :: 0 <= i < |id| ==> IsIdentifierChar(id[i])
  }

  /** An identifier that `nextIdentifier(allowLeadingZero:)` returns. */
  predicate Allowed(id: string, allowLeadingZero: bool) {
    IsIdentifier(id) && (allowLeadingZero || !LeadingZeroProhibited(id))
  }

  /** A list that `nextIdentifiers(allowLeadingZeros:)` returns. */
  predicate AllowedList(ids: seq<string>, allowLeadingZeros: bool) {
    |ids| > 0 && forall k :: 0 <= k < |ids| ==> Allowed(ids[k], allowLeadingZeros)
  }

  /** `nextIdentifier(allowLeadingZero:)`: the maximal run of identifier characters, which must not be empty. */
  function IdentifierToken(s: string, allowLeadingZero: bool): (r: Result<Scanned<string>, ScanError>)
    ensures r.Ok? ==> var n := r.value.consumed;
              n == SpanLength(s, Identifier) && r.value.item == s[..n] && Allowed(r.value.item, allowLeadingZero)
    ensures r.Err? ==> var n := SpanLength(s, Identifier);
              n == 0 || (!allowLeadingZero && LeadingZeroProhibited(s[..n]))
  {
    var n := SpanLength(s, Identifier);
    var id := s[..n];
    if n == 0 then Err(InvalidIdentifier)
    else if !allowLeadingZero && LeadingZeroProhibited(id) then Err(LeadingZerosProhibited)
    else Ok(Scanned(id, n))
  }

  /**
   * `nextIdentifiers(allowLeadingZeros:)`: one identifier, then another after
   * each '.' that follows. It stops at the first character after an
   * identifier that is not '.'.
   */
  function IdentifierList(s: string, allowLeadingZeros: bool): (r: Result<Scanned<seq<string>>, ScanError>)
    ensures r.Ok? ==> 0 < r.value.consumed <= |s|
    decreases |s|
  {
    var first := IdentifierToken(s, allowLeadingZeros);
    if first.Err? then Err(first.error)
    else
      var n := first.value.consumed;
      if n < |s| && s[n] == '.' then
        Prepend([first.value.item], n + 1, IdentifierList(s[n + 1..], allowLeadingZeros))
      else Ok(Scanned([first.value.item], n))
  }

  /** The rest of a list scan, after `ids` have been read with `n` characters consumed. */
  function Prepend(ids: seq<string>, n: nat, r: Result<Scanned<seq<string>>, ScanError>): Result<Scanned<seq<string>>, ScanError>
  {
    if r.Err? then r else Ok(Scanned(ids + r.value.item, n + r.value.consumed))
  }

  /** One identifier followed by the end or by a character that stops the list. */
  lemma {:induction false} IdentifierListLast(id: string, t: string, allowLeadingZeros: bool)
    requires Allowed(id, allowLeadingZeros)
    requires t == [] || (!IsIdentifierChar(t[0]) && t[0] != '.')
    ensures IdentifierList(id + t, allowLeadingZeros) == Ok(Scanned([id], |id|))
  {
    var s := id + t;
    SpanLengthUnique(s, Identifier, |id|);
    assert s[..|id|] == id && s[|id|..] == t;
    assert IdentifierToken(s, allowLeadingZeros) == Ok(Scanned(id, |id|));
  }

  /** One identifier followed by '.': the list goes on after the dot. */
  lemma {:induction false} IdentifierListNext(id: string, t: string, allowLeadingZeros: bool)
    requires Allowed(id, allowLeadingZeros)
    ensures IdentifierList(id + "." + t, allowLeadingZeros)
         == Prepend([id], |id| + 1, IdentifierList(t, allowLeadingZeros))
  {
    var s := id + "." + t;
    SpanLengthUnique(s, Identifier, |id|);
    assert s[..|id|] == id;
    assert s[|id|] == '.' && s[|id| + 1..] == t;
    assert IdentifierToken(s, allowLeadingZeros) == Ok(Scanned(id, |id|));
  }

  /**
   * A list scan that has read allowed identifiers, each followed by '.', and
   * then meets text that `nextIdentifier` refuses (an empty identifier, or a
   * prohibited leading zero) fails with that error.
   */
  lemma {:induction false} IdentifierListFailsAfter(ids: seq<string>, t: string, allowLeadingZeros: bool)
    requires forall k :: 0 <= k < |ids| ==> Allowed(ids[k], allowLeadingZeros)
    requires IdentifierToken(t, allowLeadingZeros).Err?
    ensures IdentifierList(DotAfterEach(ids) + t, allowLeadingZeros) == Err(IdentifierToken(t, allowLeadingZeros).error)
  {
    if |ids| == 0 {
      assert DotAfterEach(ids) + t == t;
    } else {
      var x, more := ids[0], DotAfterEach(ids[1..]);
      assert DotAfterEach(ids) + t == x + "." + (more + t);
      IdentifierListNext(x, more + t, allowLeadingZeros);
      IdentifierListFailsAfter(ids[1..], t, allowLeadingZeros);
    }
  }

  /**
   * A text that starts with the join of allowed identifiers, followed by the
   * end or by a character that neither continues an identifier nor is '.',
   * scans as exactly that list.
   */
  lemma {:induction false} IdentifierListOf(ids: seq<string>, t: string, allowLeadingZeros: bool)
    requires AllowedList(ids, allowLeadingZeros)
    requires t == [] || (!IsIdentifierChar(t[0]) && t[0] != '.')
    ensures IdentifierList(Join(ids) + t, allowLeadingZeros) == Ok(Scanned(ids, |Join(ids)|))
  {
    var x := ids[0];
    if |ids| == 1 {
      assert ids == [x] && Join(ids) == x;
      IdentifierListLast(x, t, allowLeadingZeros);
    } else {
      var tail := Join(ids[1..]);
      assert AllowedList(ids[1..], allowLeadingZeros);
      calc {
        IdentifierList(Join(ids) + t, allowLeadingZeros);
        { assert Join(ids) + t == x + "." + (tail + t); }
        IdentifierList(x + "." + (tail + t), allowLeadingZeros);
        { IdentifierListNext(x, tail + t, allowLeadingZeros); }
        Prepend([x], |x| + 1, IdentifierList(tail + t, allowLeadingZeros));
        { IdentifierListOf(ids[1..], t, allowLeadingZeros); }
        Prepend([x], |x| + 1, Ok(Scanned(ids[1..], |tail|)));
        { assert [x] + ids[1..] == ids; }
        Ok(Scanned(ids, |Join(ids)|));
      }
    }
  }

  /**
   * Ties a scanner step to the function that specifies it: on success the
   * step returns the token and the cursor moves past what the function
   * consumes; on failure it throws the same error.
   */
  predicate Stepped<T(==), E(==)>(spec: Result<Scanned<T>, E>, r: Result<T, E>, before: nat, after: nat) {
    if spec.Ok? then r == Ok(spec.value.item) && after == before + spec.value.consumed
    else r == Err(spec.error)
  }

  /** A Foundation `Scanner` over `text`, with its scan location `pos`. */
  class Scanner {
    const text: string
    var pos: nat

    ghost predicate Valid()
      reads this
    {
      pos <= |text|
    }

    /** The text the scanner has not consumed yet. */
    function Rest(): string
      reads this
      requires Valid()
    {
      text[pos..]
    }

    constructor (text: string)
      ensures Valid() && this.text == text && pos == 0
    {
      this.text := text;
      pos := 0;
    }

    /** `isAtEnd`. */
    function IsAtEnd(): (atEnd: bool)
      reads this
      requires Valid()
      ensures atEnd <==> Rest() == []
    {
      pos == |text|
    }

    /** `scanCharacters(from: cs, into:)`: consumes the longest run of characters from `cs`. */
    method ScanCharacters(cs: CharSet) returns (scanned: Option<string>)
      requires Valid()
      modifies this
      ensures Valid()
      ensures var n := SpanLength(old(Rest()), cs);
              pos == old(pos) + n && scanned == if n == 0 then None else Some(old(Rest())[..n])
    {
      var start := pos;
      while pos < |text| && InSet(cs, text[pos])
        invariant start <= pos <= |text|
        invariant forall i :: start <= i < pos ==> InSet(cs, text[i])
        decreases |text| - pos
      {
        pos := pos + 1;
      }
      SpanLengthUnique(text[start..], cs, pos - start);
      assert text[start..][..pos - start] == text[start..pos];
      scanned := if pos == start then None else Some(text[start..pos]);
    }

    /** `scanString(literal, into: nil)`: consumes `literal` when the rest starts with it. */
    method ScanString(literal: string) returns (found: bool)
      requires Valid()
      modifies this
      ensures Valid()
      ensures found <==> literal <= old(Rest())
      ensures pos == if found then old(pos) + |literal| else old(pos)
    {
      found := pos + |literal| <= |text| && text[pos..pos + |literal|] == literal;
      assert found ==> text[pos..][..|literal|] == literal;
      assert literal <= text[pos..] ==> text[pos..pos + |literal|] == text[pos..][..|literal|];
      if found {
        pos := pos + |literal|;
      }
    }

    /** `advance(over:)`: like `scanString`, but throws `valueNotAtScanLocation` when the literal is absent. */
    method Advance(literal: string) returns (r: Outcome<ScanError>)
      requires Valid()
      modifies this
      ensures Valid()
      ensures r == if literal <= old(Rest()) then Pass else Fail(ValueNotAtScanLocation)
      ensures pos == if r.Pass? then old(pos) + |literal| else old(pos)
    {
      var found := ScanString(literal);
      r := if found then Pass else Fail(ValueNotAtScanLocation);
    }

    /** `nextNumber()`. */
    method NextNumber() returns (r: Result<NonNegativeInt, ScanError>)
      requires Valid()
      modifies this
      ensures Valid()
      ensures Stepped(NumberToken(old(Rest())), r, old(pos), pos)
      ensures pos == old(pos) + SpanLength(old(Rest()), DecimalDigits)
    {
      var component := ScanCharacters(DecimalDigits);
      if component.None? {
        return Err(InvalidNumber);
      }
      var number := ParseInt(component.value);
      if number.None? {
        return Err(InvalidNumber);
      }
      if number.value != 0 && component.value[0] == '0' {
        return Err(LeadingZerosProhibited);
      }
      return Ok(number.value);
    }

    /** `nextIdentifier(allowLeadingZero:)`. */
    method NextIdentifier(allowLeadingZero: bool) returns (r: Result<string, ScanError>)
      requires Valid()
      modifies this
      ensures Valid()
      ensures Stepped(IdentifierToken(old(Rest()), allowLeadingZero), r, old(pos), pos)
      ensures pos == old(pos) + SpanLength(old(Rest()), Identifier)
    {
      var identifier := ScanCharacters(Identifier);
      if identifier.None? {
        return Err(InvalidIdentifier);
      }
      if !allowLeadingZero && LeadingZeroProhibited(identifier.value) {
        return Err(LeadingZerosProhibited);
      }
      return Ok(identifier.value);
    }

    /**
     * The body of the `repeat` loop of `nextIdentifiers(allowLeadingZeros:)`:
     * an identifier, then `scanString(".")`, which ends the loop when it fails.
     */
    method NextListItem(allowLeadingZeros: bool) returns (identifier: Result<string, ScanError>, dot: bool)
      requires Valid()
      modifies this
      ensures Valid()
      ensures var token := IdentifierToken(old(Rest()), allowLeadingZeros);
              if token.Err? then identifier == Err(token.error)
              else
                var step := token.value.consumed + (if dot then 1 else 0);
                identifier == Ok(token.value.item) &&
                (dot <==> "." <= old(Rest())[token.value.consumed..]) &&
                step <= |old(Rest())| && Rest() == old(Rest())[step..] && pos == old(pos) + step
    {
      ghost var start := pos;
      identifier := NextIdentifier(allowLeadingZeros);
      if identifier.Err? {
        return identifier, false;
      }
      ghost var n := pos - start;
      RestAfter(text, start, n);
      dot := ScanString(".");
      RestAfter(text, start, n + (if dot then 1 else 0));
    }

    /**
     * `nextIdentifiers(allowLeadingZeros:)`: the `repeat` loop that appends
     * identifiers while a '.' follows. After a thrown error the scan
     * location is left unspecified: no caller reads it.
     */
    method NextIdentifiers(allowLeadingZeros: bool) returns (r: Result<seq<string>, ScanError>)
      requires Valid()
      modifies this
      ensures Valid()
      ensures Stepped(IdentifierList(old(Rest()), allowLeadingZeros), r, old(pos), pos)
    {
      ghost var whole := IdentifierList(Rest(), allowLeadingZeros);
      ghost var done, rest := 0, Rest();
      var identifiers: seq<string> := [];
      PrependNothing(whole);
      while true
        invariant Valid() && pos == old(pos) + done && rest == Rest()
        invariant whole == Prepend(identifiers, done, IdentifierList(rest, allowLeadingZeros))
        decreases |rest|
      {
        var identifier, dot := NextListItem(allowLeadingZeros);
        if identifier.Err? {
          ListLoopError(whole, identifiers, done, rest, allowLeadingZeros);
          return Err(identifier.error);
        }
        ghost var n := IdentifierToken(rest, allowLeadingZeros).value.consumed;
        ghost var done', rest' := done + n + (if dot then 1 else 0), Rest();
        ListLoopStep(whole, identifiers, done, rest, allowLeadingZeros, done', rest', dot);
        identifiers := identifiers + [identifier.value];
        done, rest := done', rest';
        if !dot {
          break;
        }
      }
      return Ok(identifiers);
    }
  }

  /**
   * One turn of the `nextIdentifiers` loop on values: after one more
   * identifier, the list read so far grows by it, and either the scan goes
   * on after the following '.' or the list is complete.
   */
  lemma {:induction false} ListLoopStep(whole: Result<Scanned<seq<string>>, ScanError>, ids: seq<string>, done: nat, here: string,
                     allowLeadingZeros: bool, done': nat, here': string, dot: bool)
    requires IdentifierToken(here, allowLeadingZeros).Ok?
    requires whole == Prepend(ids, done, IdentifierList(here, allowLeadingZeros))
    requires var n := IdentifierToken(here, allowLeadingZeros).value.consumed;
             (dot <==> "." <= here[n..]) &&
             done' == done + n + (if dot then 1 else 0) && here' == here[n + (if dot then 1 else 0)..]
    ensures var item := IdentifierToken(here, allowLeadingZeros).value.item;
            if dot then whole == Prepend(ids + [item], done', IdentifierList(here', allowLeadingZeros))
            else whole == Ok(Scanned(ids + [item], done'))
  {
    if dot {
      ListLoopMore(whole, ids, done, here, allowLeadingZeros);
    } else {
      ListLoopLast(whole, ids, done, here, allowLeadingZeros);
    }
  }

  /** A turn of the loop that finds a '.' after the identifier. */
  lemma {:induction false} ListLoopMore(whole: Result<Scanned<seq<string>>, ScanError>, ids: seq<string>, done: nat, here: string,
                                        allowLeadingZeros: bool)
    requires IdentifierToken(here, allowLeadingZeros).Ok?
    requires whole == Prepend(ids, done, IdentifierList(here, allowLeadingZeros))
    requires "." <= here[IdentifierToken(here, allowLeadingZeros).value.consumed..]
    ensures var token := IdentifierToken(here, allowLeadingZeros).value;
            token.consumed + 1 <= |here| &&
            whole == Prepend(ids + [token.item], done + token.consumed + 1, IdentifierList(here[token.consumed + 1..], allowLeadingZeros))
  {
    var token := IdentifierToken(here, allowLeadingZeros).value;
    var n := token.consumed;
    IdentifierListStep(here, allowLeadingZeros);
    PrependPrepend(ids, [token.item], done, n + 1, IdentifierList(here[n + 1..], allowLeadingZeros));
  }

  /** A turn of the loop that finds no '.' after the identifier. */
  lemma {:induction false} ListLoopLast(whole: Result<Scanned<seq<string>>, ScanError>, ids: seq<string>, done: nat, here: string,
                                        allowLeadingZeros: bool)
    requires IdentifierToken(here, allowLeadingZeros).Ok?
    requires whole == Prepend(ids, done, IdentifierList(here, allowLeadingZeros))
    requires !("." <= here[IdentifierToken(here, allowLeadingZeros).value.consumed..])
    ensures var token := IdentifierToken(here, allowLeadingZeros).value;
            whole == Ok(Scanned(ids + [token.item], done + token.consumed))
  {
    IdentifierListStep(here, allowLeadingZeros);
  }

  /** The error of the first identifier is the error of the whole list. */
  lemma {:induction false} ListLoopError(whole: Result<Scanned<seq<string>>, ScanError>, ids: seq<string>, done: nat, here: string,
                                         allowLeadingZeros: bool)
    requires IdentifierToken(here, allowLeadingZeros).Err?
    requires whole == Prepend(ids, done, IdentifierList(here, allowLeadingZeros))
    ensures whole == Err(IdentifierToken(here, allowLeadingZeros).error)
  {
  }

  /** Consuming `k` more characters from position `p` leaves the suffix from `p + k`. */
  lemma {:induction false} RestAfter(text: string, p: nat, k: nat)
    requires p + k <= |text|
    ensures text[p..][k..] == text[p + k..]
  {
  }

  lemma {:induction false} PrependNothing(r: Result<Scanned<seq<string>>, ScanError>)
    ensures Prepend([], 0, r) == r
  {
    if r.Ok? {
      assert [] + r.value.item == r.value.item;
    }
  }

  lemma {:induction false} PrependPrepend(a: seq<string>, b: seq<string>, k: nat, j: nat, r: Result<Scanned<seq<string>>, ScanError>)
    ensures Prepend(a, k, Prepend(b, j, r)) == Prepend(a + b, k + j, r)
  {
    if r.Ok? {
      assert a + (b + r.value.item) == (a + b) + r.value.item;
    }
  }

  /** One step of `nextIdentifiers`: an identifier, then either a '.' and more, or the end of the list. */
  lemma {:induction false} IdentifierListStep(s: string, allowLeadingZeros: bool)
    requires IdentifierToken(s, allowLeadingZeros).Ok?
    ensures var first := IdentifierToken(s, allowLeadingZeros).value;
            var n := first.consumed;
            IdentifierList(s, allowLeadingZeros) ==
              if "." <= s[n..] then Prepend([first.item], n + 1, IdentifierList(s[n + 1..], allowLeadingZeros))
              else Ok(Scanned([first.item], n))
  {
  }
}
