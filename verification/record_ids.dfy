/** Service-record identifiers: "SRV" followed by a sequence number written
    in decimal and zero-padded to at least three digits, the Python format
    `f"SRV{n:03d}"`. */
module RecordIdentifiers {

  const Prefix: string := "SRV"
  const MinWidth: nat := 3

  /** The character of a decimal digit. */
  function DigitChar(d: nat): (c: char)
    requires d < 10
    ensures '0' <= c <= '9'
  {
    ('0' as int + d) as char
  }

  /** The value of a decimal digit character. */
  function DigitValue(c: char): int
  {
    c as int - '0' as int
  }

  /** The decimal digits of `n`, most significant first, with no leading
      zero (`str(n)`). */
  function Digits(n: nat): (s: string)
    ensures |s| >= 1
  {
    if n < 10 then [DigitChar(n)] else Digits(n / 10) + [DigitChar(n % 10)]
  }

  /** `s` left-padded with '0' to at least `width` characters. */
  function ZeroPad(s: string, width: nat): (r: string)
    ensures |r| == if |s| < width then width else |s|
  {
    seq(if |s| < width then width - |s| else 0, _ => '0') + s
  }

  /** The identifier given to the `n`-th service record. */
  function RecordId(n: nat): (id: string)
    ensures |id| >= |Prefix| + MinWidth && id[..|Prefix|] == Prefix
  {
    Prefix + ZeroPad(Digits(n), MinWidth)
  }

  /** Every character of `str(n)` is a decimal digit. */
  lemma {:induction false} DigitsAreDigits(n: nat)
    ensures forall j :: 0 <= j < |Digits(n)| ==> '0' <= Digits(n)[j] <= '9'
  {
    if n >= 10 {
      DigitsAreDigits(n / 10);
    }
  }

  /** After the prefix, a generated identifier consists of decimal digits
      only (the zero padding and the digits of the number). */
  lemma RecordIdDigits(n: nat)
    ensures forall j :: |Prefix| <= j < |RecordId(n)| ==> '0' <= RecordId(n)[j] <= '9'
  {
    DigitsAreDigits(n);
  }

  /** The identifiers of the first `n` records, in creation order. */
  function RecordIds(n: nat): (ids: seq<string>)
    ensures |ids| == n
    ensures forall i :: 0 <= i < n ==> ids[i] == RecordId(i + 1)
  {
    seq(n, i requires 0 <= i < n => RecordId(i + 1))
  }

  /** The number a string of decimal digits denotes (leading zeros allowed). */
  function DecimalValue(s: string): int
  {
    if s == [] then 0 else DecimalValue(s[..|s| - 1]) * 10 + DigitValue(s[|s| - 1])
  }

  /** The sequence number an identifier carries, read back from its digits. */
  function RecordNumber(id: string): int
    requires |id| >= |Prefix|
  {
    DecimalValue(id[|Prefix|..])
  }

  /** Reading the decimal digits of `n` back gives `n`. */
  lemma {:induction false} DigitsValue(n: nat)
    ensures DecimalValue(Digits(n)) == n
  {
    if n >= 10 {
      var s := Digits(n);
      assert s[..|s| - 1] == Digits(n / 10);
      DigitsValue(n / 10);
    }
  }

  /** A leading zero does not change the value of a digit string. */
  lemma {:induction false} LeadingZeroValue(s: string)
    ensures DecimalValue(['0'] + s) == DecimalValue(s)
  {
    if s != [] {
      assert (['0'] + s)[..|s|] == ['0'] + s[..|s| - 1];
      LeadingZeroValue(s[..|s| - 1]);
    }
  }

  /** Any number of leading zeros does not change the value. */
  lemma {:induction false} ZerosValue(k: nat, s: string)
    ensures DecimalValue(seq(k, _ => '0') + s) == DecimalValue(s)
  {
    if k > 0 {
      var rest := seq(k - 1, _ => '0') + s;
      assert seq(k, _ => '0') + s == ['0'] + rest;
      ZerosValue(k - 1, s);
      LeadingZeroValue(rest);
    } else {
      assert seq(k, _ => '0') + s == s;
    }
  }

  /** Reading the number back out of a generated identifier gives the
      number it was generated from. */
  lemma RecordNumberOfRecordId(n: nat)
    ensures RecordNumber(RecordId(n)) == n
  {
    var d := Digits(n);
    var k := if |d| < MinWidth then MinWidth - |d| else 0;
    assert RecordId(n)[|Prefix|..] == seq(k, _ => '0') + d;
    ZerosValue(k, d);
    DigitsValue(n);
  }

  /** Distinct sequence numbers give distinct identifiers. */
  lemma RecordIdInjective(a: nat, b: nat)
    ensures RecordId(a) == RecordId(b) ==> a == b
  {
    RecordNumberOfRecordId(a);
    RecordNumberOfRecordId(b);
  }

  /** The identifiers of the first `n` records are pairwise distinct. */
  lemma RecordIdsDistinct(n: nat)
    ensures forall i, j :: 0 <= i < j < n ==> RecordIds(n)[i] != RecordIds(n)[j]
  {
    forall i, j | 0 <= i < j < n
      ensures RecordIds(n)[i] != RecordIds(n)[j]
    {
      RecordIdInjective(i + 1, j + 1);
    }
  }

  /** When the table holds the identifiers of records 1..n, the identifier
      generated from its size, n + 1, is not yet a key, and appending it
      gives the identifiers of records 1..n+1. */
  lemma NextRecordIdFresh(keys: seq<string>)
    requires keys == RecordIds(|keys|)
    ensures RecordId(|keys| + 1) !in keys
    ensures keys + [RecordId(|keys| + 1)] == RecordIds(|keys| + 1)
  {
    var n := |keys|;
    forall i | 0 <= i < n
      ensures keys[i] != RecordId(n + 1)
    {
      RecordIdInjective(i + 1, n + 1);
    }
  }

  /** A one-digit sequence number is padded with two zeros. */
  lemma SingleDigitRecordId(n: nat)
    requires 1 <= n <= 9
    ensures RecordId(n) == "SRV00" + [DigitChar(n)]
  {
    var pad := seq(2, _ => '0');
    assert pad == "00";
    assert ZeroPad(Digits(n), MinWidth) == pad + [DigitChar(n)];
  }

  /** The identifiers of the two seeded records. */
  lemma SeedRecordIds()
    ensures RecordId(1) == "SRV001" && RecordId(2) == "SRV002"
    ensures RecordIds(2) == ["SRV001", "SRV002"]
  {
    SingleDigitRecordId(1);
    SingleDigitRecordId(2);
    var ids := RecordIds(2);
    assert ids[0] == RecordId(1) && ids[1] == RecordId(2);
  }
}
