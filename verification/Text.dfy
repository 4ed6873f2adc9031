/** The string handling the passes rely on: decimal numbers, splitting and trimming. */
module Text {

  datatype Option<+T> = None | Some(value: T)

  predicate IsDigit(c: char) {
    '0' <= c <= '9'
  }

  function DigitValue(c: char): nat
    requires IsDigit(c)
  {
    (c as int) - ('0' as int)
  }

  function DigitChar(d: nat): char
    requires d < 10
  {
    (('0' as int) + d) as char
  }

  /** `std::to_string` on a non-negative number. */
  function Decimal(n: nat): string
    decreases n
  {
    if n < 10 then [DigitChar(n)] else Decimal(n / 10) + [DigitChar(n % 10)]
  }

  /** The value of a string of digits, read from the left. */
  function DigitsValue(s: string): Option<nat> {
    if s == [] then Some(0)
    else
      match DigitsValue(s[..|s| - 1])
      case None => None
      case Some(v) =>
        if IsDigit(s[|s| - 1]) then Some(10 * v + DigitValue(s[|s| - 1])) else None
  }

  const TWO_TO_THE_64: nat := 0x1_0000_0000_0000_0000

  /** `getAsUnsignedInteger(s, 10, unsigned long long&)`: empty, non-digit and overflowing input is an error. */
  function ParseUnsigned(s: string): Option<nat> {
    if s == [] then None
    else
      match DigitsValue(s)
      case None => None
      case Some(v) => if v < TWO_TO_THE_64 then Some(v) else None
  }

  /** Parsing undoes printing, for every number that fits the parser's 64 bits and only for those. */
  lemma {:induction false} ParseOfDecimal(n: nat)
    ensures Decimal(n) != []
    ensures DigitsValue(Decimal(n)) == Some(n)
    ensures ParseUnsigned(Decimal(n)) == if n < TWO_TO_THE_64 then Some(n) else None
  {
    if n < 10 {
      var s := Decimal(n);
      assert s[..|s| - 1] == [];
    } else {
      ParseOfDecimal(n / 10);
      var s := Decimal(n);
      assert s[..|s| - 1] == Decimal(n / 10);
      assert s[|s| - 1] == DigitChar(n % 10);
    }
  }

  /** Distinct numbers print differently. */
  lemma DecimalInjective(m: nat, n: nat)
    ensures Decimal(m) == Decimal(n) <==> m == n
  {
    ParseOfDecimal(m);
    ParseOfDecimal(n);
  }

  /** `StringRef::startswith`. */
  predicate StartsWith(s: string, prefix: string) {
    prefix <= s
  }

  predicate IsSpace(c: char) {
    c == ' ' || c == '\t' || c == '\n' || c == '\r' || c == 11 as char || c == 12 as char
  }

  function TrimLeft(s: string): string {
    if s != [] && IsSpace(s[0]) then TrimLeft(s[1..]) else s
  }

  function TrimRight(s: string): string {
    if s != [] && IsSpace(s[|s| - 1]) then TrimRight(s[..|s| - 1]) else s
  }

  /** `StringRef::trim`. */
  function Trim(s: string): string {
    TrimRight(TrimLeft(s))
  }

  /** `StringRef::split(tokens, separator, limit, KeepEmpty = true)`: at most `limit` cuts, from the left. */
  function Split(s: string, separator: char, limit: nat): (tokens: seq<string>)
    ensures |tokens| >= 1
    decreases limit, |s|
  {
    if limit == 0 then [s]
    else
      match IndexOf(s, separator)
      case None => [s]
      case Some(i) => [s[..i]] + Split(s[i + 1..], separator, limit - 1)
  }

  function IndexOf(s: string, c: char): (r: Option<nat>)
    ensures r.None? <==> c !in s
    ensures r.Some? ==> r.value < |s| && s[r.value] == c && c !in s[..r.value]
  {
    if s == [] then None
    else if s[0] == c then Some(0)
    else
      match IndexOf(s[1..], c)
      case None => None
      case Some(i) => assert s[..i + 1] == [s[0]] + s[1..][..i]; Some(i + 1)
  }
}
