/** The serial-number check of a warranty query: the pattern `^[A-Z0-9]{8,20}`
    followed by an end anchor, and the 422 answer when it fails.

    Python's `re` lets `$` match at the end of the string and also just
    before a newline that ends it. The pattern as written therefore also
    accepts a well-formed serial number followed by one "\n". The anchor the
    message and the data model intend is the end of the string (`\Z`, or
    `re.fullmatch`), and that is the validator the rest of the model uses. */
module SerialNumbers {
  import opened Common

  const MinLength: nat := 8
  const MaxLength: nat := 20

  const InvalidSerialMessage: string := "Serial number must be 8-20 alphanumeric characters"

  /** What the pattern's end anchor accepts: `$` in Python, or the end of
      the string only. */
  datatype EndAnchor = Dollar | EndOfString

  /** The character class `[A-Z0-9]`. */
  predicate InClass(c: char)
  {
    'A' <= c <= 'Z' || '0' <= c <= '9'
  }

  /** Does the end anchor match at position `i` of `v`? */
  predicate AnchorMatches(v: string, i: nat, anchor: EndAnchor)
    requires i <= |v|
  {
    i == |v| || (anchor == Dollar && i + 1 == |v| && v[i] == '\n')
  }

  /** The matcher for `[A-Z0-9]{8,20}` followed by the end anchor, started at
      position `i` after `count` repetitions of the class: either take one
      more class character (at most 20 in all) or stop (at least 8 taken)
      and try the anchor. Backtracking is the disjunction. */
  predicate MatchFrom(v: string, i: nat, count: nat, anchor: EndAnchor)
    requires i <= |v|
    ensures MatchFrom(v, i, count, anchor) ==> MinLength <= count + (|v| - i)
    ensures MatchFrom(v, i, count, anchor) && count <= MaxLength ==> count + (|v| - i) <= MaxLength + 1
    decreases |v| - i
  {
    || (count < MaxLength && i < |v| && InClass(v[i]) && MatchFrom(v, i + 1, count + 1, anchor))
    || (MinLength <= count && AnchorMatches(v, i, anchor))
  }

  /** `re.match` of the whole pattern from the start of `v`. */
  predicate PatternMatches(v: string, anchor: EndAnchor)
    ensures PatternMatches(v, anchor) ==> MinLength <= |v| <= MaxLength + 1
  {
    MatchFrom(v, 0, 0, anchor)
  }

  /** A well-formed serial number: 8 to 20 characters, each an upper-case
      ASCII letter or a decimal digit. */
  predicate WellFormedSerial(v: string)
  {
    MinLength <= |v| <= MaxLength && forall j :: 0 <= j < |v| ==> InClass(v[j])
  }

  /** From position `i` with `count` characters taken, the end-of-string
      matcher succeeds exactly when the rest of `v` is class characters and
      brings the total to between 8 and 20. */
  lemma {:induction false} MatchFromEndOfString(v: string, i: nat, count: nat)
    requires i <= |v| && count <= MaxLength
    ensures MatchFrom(v, i, count, EndOfString) <==>
      MinLength <= count + |v| - i <= MaxLength && forall j :: i <= j < |v| ==> InClass(v[j])
    decreases |v| - i
  {
    if i < |v| && count < MaxLength {
      MatchFromEndOfString(v, i + 1, count + 1);
    }
  }

  /** With Python's `$`, the matcher also succeeds when the class characters
      stop one short of the end and the last character is a newline. */
  lemma {:induction false} MatchFromDollar(v: string, i: nat, count: nat)
    requires i <= |v| && count <= MaxLength
    ensures MatchFrom(v, i, count, Dollar) <==>
      || (MinLength <= count + |v| - i <= MaxLength && forall j :: i <= j < |v| ==> InClass(v[j]))
      || (i < |v| && v[|v| - 1] == '\n' && MinLength <= count + |v| - 1 - i <= MaxLength
          && forall j :: i <= j < |v| - 1 ==> InClass(v[j]))
    decreases |v| - i
  {
    if i < |v| && count < MaxLength {
      MatchFromDollar(v, i + 1, count + 1);
    }
  }

  /** The anchored pattern accepts exactly the well-formed serial numbers. */
  lemma PatternEndOfStringIsWellFormed(v: string)
    ensures PatternMatches(v, EndOfString) <==> WellFormedSerial(v)
  {
    MatchFromEndOfString(v, 0, 0);
  }

  /** The pattern as written accepts the well-formed serial numbers and the
      well-formed serial numbers followed by one newline, and nothing else. */
  lemma PatternDollarAcceptsTrailingNewline(v: string)
    ensures PatternMatches(v, Dollar) <==>
      WellFormedSerial(v) || (|v| > 0 && v[|v| - 1] == '\n' && WellFormedSerial(v[..|v| - 1]))
  {
    MatchFromDollar(v, 0, 0);
  }

  /** The field validator as written: `re.match` with `$`. */
  function ValidateSerialNumberAsWritten(v: string): (r: Result<string>)
    ensures r.Ok? <==> WellFormedSerial(v) || (|v| > 0 && v[|v| - 1] == '\n' && WellFormedSerial(v[..|v| - 1]))
    ensures r.Ok? ==> r.value == v
    ensures r.Err? ==> r.error == HttpError(422, InvalidSerialMessage)
  {
    PatternDollarAcceptsTrailingNewline(v);
    if PatternMatches(v, Dollar) then Ok(v) else Err(HttpError(422, InvalidSerialMessage))
  }

  /** A concrete input on which the validator as written and the intended
      rule disagree: a seeded serial number with a newline appended. */
  lemma TrailingNewlineAccepted()
    ensures ValidateSerialNumberAsWritten("SN20240001\n").Ok?
    ensures !WellFormedSerial("SN20240001\n")
  {
    var v := "SN20240001\n";
    assert v[..|v| - 1] == "SN20240001";
    assert v[10] == '\n' && !InClass(v[10]);
  }

  /** The field validator with the pattern anchored at the end of the
      string: the value is returned unchanged when it is a well-formed serial
      number, and the request is refused with 422 otherwise. */
  function ValidateSerialNumber(v: string): (r: Result<string>)
    ensures r.Ok? <==> WellFormedSerial(v)
    ensures r.Ok? ==> r.value == v
    ensures r.Err? ==> r.error == HttpError(422, InvalidSerialMessage)
  {
    PatternEndOfStringIsWellFormed(v);
    if PatternMatches(v, EndOfString) then Ok(v) else Err(HttpError(422, InvalidSerialMessage))
  }

  /** The two validators agree on every input that has no trailing newline. */
  lemma ValidatorsAgreeWithoutTrailingNewline(v: string)
    requires |v| == 0 || v[|v| - 1] != '\n'
    ensures ValidateSerialNumberAsWritten(v) == ValidateSerialNumber(v)
  {
  }
}
