/** The numeric conversions the parser applies to a `Num` token's text:
    Rust's `str::parse::<i64>` (base 10) and the syntax `str::parse::<f64>`
    accepts. Floating-point values themselves are not modelled. */
module Numbers {
  import opened QueryError

  newtype I64 = x: int | -0x8000_0000_0000_0000 <= x < 0x8000_0000_0000_0000
  newtype U64 = x: int | 0 <= x < 0x1_0000_0000_0000_0000

  predicate IsDigit(c: char) {
    '0' <= c <= '9'
  }

  predicate AllDigits(s: string) {
    forall i | 0 <= i < |s| :: IsDigit(s[i])
  }

  /** The value of a run of decimal digits. */
  function DigitsValue(s: string): nat
    requires AllDigits(s)
  {
    if s == [] then 0 else DigitsValue(s[..|s| - 1]) * 10 + (s[|s| - 1] as int - '0' as int)
  }

  /** The text after an optional leading `+` or `-`. */
  function Unsigned(s: string): string {
    if |s| > 0 && (s[0] == '+' || s[0] == '-') then s[1..] else s
  }

  /** `s.parse::<i64>()`: an optional sign, then at least one decimal digit
      and nothing else, with a value that fits in 64 bits. */
  function ParseI64(s: string): Option<I64> {
    var digits := Unsigned(s);
    if |digits| == 0 || !AllDigits(digits) then None
    else
      var v: int := if s[0] == '-' then -(DigitsValue(digits) as int) else DigitsValue(digits);
      if -0x8000_0000_0000_0000 <= v < 0x8000_0000_0000_0000 then Some(v as I64) else None
  }

  /** Index of the first occurrence of `c1` or `c2` in `s`, or `|s|`. */
  function Find(s: string, c1: char, c2: char): (k: nat)
    ensures k <= |s|
    ensures forall j | 0 <= j < k :: s[j] != c1 && s[j] != c2
    ensures k < |s| ==> s[k] == c1 || s[k] == c2
  {
    if s == [] then 0
    else if s[0] == c1 || s[0] == c2 then 0
    else 1 + Find(s[1..], c1, c2)
  }

  /** `Digit+ | Digit+ '.' Digit* | Digit* '.' Digit+` */
  predicate Mantissa(m: string) {
    var d := Find(m, '.', '.');
    AllDigits(m[..d]) &&
    if d == |m| then |m| > 0 else AllDigits(m[d + 1..]) && |m| > 1
  }

  /** A mantissa, optionally followed by `e` or `E`, a sign and digits. */
  predicate DecimalFloat(s: string) {
    var e := Find(s, 'e', 'E');
    Mantissa(s[..e]) &&
    (e == |s| || (var x := Unsigned(s[e + 1..]); |x| > 0 && AllDigits(x)))
  }

  function AsciiLower(s: string): string {
    seq(|s|, i requires 0 <= i < |s| => if 'A' <= s[i] <= 'Z' then (s[i] as int + 32) as char else s[i])
  }

  /** The text `s.parse::<f64>()` accepts: an optional sign, then `inf`,
      `infinity` or `nan` in any case, or a decimal number. */
  predicate FloatSyntax(s: string) {
    var body := Unsigned(s);
    |body| > 0 && (AsciiLower(body) in {"inf", "infinity", "nan"} || DecimalFloat(body))
  }

  /** A digit run has no `.`, `e` or `E` in it. */
  lemma FindInDigits(s: string, c1: char, c2: char)
    requires AllDigits(s) && !IsDigit(c1) && !IsDigit(c2)
    ensures Find(s, c1, c2) == |s|
  {
  }

  /** Every text that parses as an `i64` is also float syntax, so the order of
      the two attempts in the parser decides which literal is produced. */
  lemma IntTextIsFloatText(s: string)
    requires ParseI64(s).Some?
    ensures FloatSyntax(s)
  {
    var body := Unsigned(s);
    FindInDigits(body, 'e', 'E');
    assert body[..|body|] == body;
    FindInDigits(body, '.', '.');
    assert DecimalFloat(body);
  }

  function DigitChar(d: nat): char
    requires d < 10
  {
    ('0' as int + d) as char
  }

  /** Decimal digits of `n`, most significant first, without leading zeros. */
  function Digits(n: nat): string {
    if n < 10 then [DigitChar(n)] else Digits(n / 10) + [DigitChar(n % 10)]
  }

  /** `i.to_string()`: the decimal text of an `i64`. */
  function Decimal(i: I64): string {
    if i < 0 then "-" + Digits(-(i as int)) else Digits(i as int)
  }

  lemma {:induction false} DigitsRoundTrip(n: nat)
    ensures |Digits(n)| > 0 && AllDigits(Digits(n)) && DigitsValue(Digits(n)) == n
  {
    if n >= 10 {
      DigitsRoundTrip(n / 10);
      var s := Digits(n);
      assert s[..|s| - 1] == Digits(n / 10);
    }
  }

  /** Parsing the decimal text of an `i64` gives it back. */
  lemma ParseDecimal(i: I64)
    ensures ParseI64(Decimal(i)) == Some(i)
  {
    if i < 0 {
      DigitsRoundTrip(-(i as int));
      assert Unsigned(Decimal(i)) == Digits(-(i as int));
    } else {
      DigitsRoundTrip(i as int);
    }
  }
}
