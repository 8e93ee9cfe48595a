/** Lower case, digits and decimal numerals, shared by the parsers of
    configuration values, cron fields and ports. */
module Ascii {
  import opened Int64

  function Lower(s: string): string {
    seq(|s|, i requires 0 <= i < |s| => if 'A' <= s[i] <= 'Z' then s[i] - 'A' + 'a' else s[i])
  }

  predicate IsSpace(r: char) { r == ' ' || '\t' <= r <= '\r' }
  predicate IsDigit(r: char) { '0' <= r <= '9' }

  /** `strings.TrimSpace`. */
  function Trim(s: string): string
    decreases |s|
  {
    if s != "" && IsSpace(s[0]) then Trim(s[1..])
    else if s != "" && IsSpace(s[|s| - 1]) then Trim(s[..|s| - 1])
    else s
  }

  predicate AllDigits(s: string) { forall i :: 0 <= i < |s| ==> IsDigit(s[i]) }

  datatype Parsed = Natural(value: nat) | NotNatural

  /** The number that digits denote; none denote zero. */
  function ValueOf(s: string): Parsed
    decreases |s|
  {
    if s == "" then Natural(0)
    else if !IsDigit(s[|s| - 1]) then NotNatural
    else
      match ValueOf(s[..|s| - 1])
      case Natural(v) => Natural(10 * v + (s[|s| - 1] - '0') as nat)
      case NotNatural => NotNatural
  }

  function NatNumeral(n: nat): (s: string)
    ensures s != "" && AllDigits(s)
  {
    (if n < 10 then "" else NatNumeral(n / 10)) + ['0' + (n % 10) as char]
  }

  lemma {:induction false} NumeralReads(n: nat)
    ensures ValueOf(NatNumeral(n)) == Natural(n)
    decreases n
  {
    var s := NatNumeral(n);
    if n < 10 {
      assert s[..|s| - 1] == "";
    } else {
      NumeralReads(n / 10);
      assert s[..|s| - 1] == NatNumeral(n / 10);
    }
  }

  datatype Signed = Int(value: int) | NotInt

  /** `strconv.Atoi` and `strconv.ParseInt` in base ten: an optional sign and
      digits, within 64 bits. */
  function ParseInt64(s: string): Signed {
    var sign := s != "" && (s[0] == '-' || s[0] == '+');
    var digits := if sign then s[1..] else s;
    if digits == "" then NotInt
    else match ValueOf(digits)
      case Natural(n) =>
        var value := if sign && s[0] == '-' then 0 - n as int else n as int;
        if -MAX_INT64 - 1 <= value <= MAX_INT64 then Int(value) else NotInt
      case NotNatural => NotInt
  }

  lemma ParsesNumeral(n: nat)
    requires n <= MAX_INT64
    ensures ParseInt64(NatNumeral(n)) == Int(n)
  {
    hide NatNumeral, ValueOf;
    NumeralReads(n);
    assert IsDigit(NatNumeral(n)[0]);
  }

  lemma ParsesNegative(n: nat)
    requires n <= MAX_INT64 + 1
    ensures ParseInt64("-" + NatNumeral(n)) == Int(0 - n as int)
  {
    hide NatNumeral, ValueOf;
    NumeralReads(n);
    assert ("-" + NatNumeral(n))[1..] == NatNumeral(n);
  }
}
