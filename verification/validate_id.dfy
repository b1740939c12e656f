/**
 * `validateId` of the posts API client: the id must read as a positive
 * integer under `parseInt(id, 10)`, and its string form must not contain
 * "..", "/" or "\".
 */
module PostsClient {
  import opened Wrappers
  import opened Decimal
  import opened JsParseInt

  /** The two errors `validateId` throws. */
  datatype IdError =
    | NotPositiveInteger   // "Invalid ID: must be a positive integer"
    | PathTraversal        // "Invalid ID: contains path traversal characters"

  predicate HasDotDot(s: string) {
    exists i :: 0 <= i < |s| - 1 && s[i] == '.' && s[i + 1] == '.'
  }

  predicate HasTraversalChars(s: string) {
    HasDotDot(s) || '/' in s || '\\' in s
  }

  /** `isNaN(n) || n <= 0 || !Number.isInteger(n)`: only a finite positive value passes. */
  predicate RejectsNumber(n: JsNumber) {
    match n
    case NaN => true
    case Finite(v) => v <= 0
    case PosInfinity => true
    case NegInfinity => true
  }

  /** `validateId(id)` for a string id: the parsed number, or the error thrown. */
  function ValidateId(id: string): (r: Result<int, IdError>)
    ensures r.Ok? <==> ParseInt10(id).Finite? && ParseInt10(id).value > 0 && !HasTraversalChars(id)
    ensures r.Ok? ==> r.value > 0 && ParseInt10(id) == Finite(r.value)
    ensures ParseInt10(id).NaN? ==> r == Err(NotPositiveInteger)
    ensures ParseInt10(id).Finite? && ParseInt10(id).value <= 0 ==> r == Err(NotPositiveInteger)
    ensures r == Err(PathTraversal) <==>
      ParseInt10(id).Finite? && ParseInt10(id).value > 0 && HasTraversalChars(id)
  {
    var n := ParseInt10(id);
    if RejectsNumber(n) then Err(NotPositiveInteger)
    else if HasTraversalChars(id) then Err(PathTraversal)
    else Ok(n.value)
  }

  /** Digits carry no traversal sequence, so a digit run adds none to a tail free of them. */
  lemma NoTraversalBehindDigits(digits: string, rest: string)
    requires AllDigits(digits)
    requires rest == [] || !IsDigit(rest[0])
    requires !HasTraversalChars(rest)
    ensures !HasTraversalChars(digits + rest)
  {
  }

  /**
   * A positive digit run followed by any tail that neither starts with a
   * digit nor holds a traversal sequence is accepted as the run's value:
   * the trailing text is ignored.
   */
  lemma ValidateIdOfDigitPrefix(digits: string, rest: string)
    requires |digits| > 0 && AllDigits(digits)
    requires 0 < DigitsValue(digits) < OverflowThreshold
    requires rest == [] || !IsDigit(rest[0])
    requires !HasTraversalChars(rest)
    ensures ValidateId(digits + rest) == Ok(DigitsValue(digits))
  {
    ParseInt10OfDigitPrefix(digits, rest);
    NoTraversalBehindDigits(digits, rest);
  }

  /** The decimal rendering of every positive id is accepted as that id. */
  lemma ValidateIdOfCanonical(n: nat)
    requires 0 < n < OverflowThreshold
    ensures ValidateId(NatToString(n)) == Ok(n)
  {
    DigitsValueOfNatToString(n);
    ValidateIdOfDigitPrefix(NatToString(n), "");
    assert NatToString(n) + "" == NatToString(n);
  }

  /** A traversal sequence anywhere rejects the id, even when its prefix reads as a positive number. */
  lemma ValidateIdRejectsTraversal(id: string)
    requires HasTraversalChars(id)
    ensures ValidateId(id).Err?
  {
  }

  /** Trailing text is ignored: "12abc" reads as 12. */
  lemma ValidateIdTrailingText()
    ensures ValidateId("12abc") == Ok(12)
  {
    assert "12" + "abc" == "12abc";
    ValidateIdOfDigitPrefix("12", "abc");
  }

  /** "1/2" reads as 1 but is refused for its slash. */
  lemma ValidateIdSlash()
    ensures ValidateId("1/2") == Err(PathTraversal)
  {
  }

  /** Zero is refused, and so is "0x1A": radix 10 has no hexadecimal prefix, so it reads as 0. */
  lemma ValidateIdZero()
    ensures ValidateId("0") == Err(NotPositiveInteger)
    ensures ValidateId("0x1A") == Err(NotPositiveInteger)
  {
  }

  /** A negative number is refused. */
  lemma ValidateIdNegative()
    ensures ValidateId("-3") == Err(NotPositiveInteger)
  {
  }

  /** A string with no leading digits reads as NaN and is refused. */
  lemma ValidateIdNoDigits()
    ensures ValidateId("abc") == Err(NotPositiveInteger)
  {
  }
}
