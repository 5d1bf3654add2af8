/**
 * Rust's `i64` as the interpreter uses it: its range, its truncating
 * division, its decimal rendering (`Display`) and `str::parse::<i64>`.
 */
module Int64 {
  import opened Wrappers

  const MIN: int := -0x8000_0000_0000_0000
  const MAX: int := 0x7FFF_FFFF_FFFF_FFFF

  predicate InRange(x: int) { MIN <= x <= MAX }

  type i64 = x: int | InRange(x)

  /** Rust's `/` on integers rounds toward zero. */
  function TruncDiv(a: int, b: int): int
    requires b != 0
  {
    var q := (if a < 0 then -a else a) / (if b < 0 then -b else b);
    if (a < 0) == (b < 0) then q else -q
  }

  /** Rust's `%` on integers: the remainder takes the sign of the dividend. */
  function TruncRem(a: int, b: int): int
    requires b != 0
  {
    a - b * TruncDiv(a, b)
  }

  lemma DivRemLaws(a: int, b: int)
    requires b != 0
    ensures TruncDiv(a, b) * b + TruncRem(a, b) == a
    ensures a >= 0 ==> 0 <= TruncRem(a, b) < (if b < 0 then -b else b)
    ensures a < 0 ==> -(if b < 0 then -b else b) < TruncRem(a, b) <= 0
  {
    var ab := if b < 0 then -b else b;
    var aa := if a < 0 then -a else a;
    assert aa == (aa / ab) * ab + aa % ab;
  }

  predicate IsDigit(c: char) { '0' <= c <= '9' }

  predicate AllDigits(s: string) { forall i | 0 <= i < |s| :: IsDigit(s[i]) }

  function DigitValue(c: char): nat
    requires IsDigit(c)
  {
    c as int - '0' as int
  }

  function DigitChar(d: nat): (c: char)
    requires d < 10
    ensures IsDigit(c) && DigitValue(c) == d
  {
    ('0' as int + d) as char
  }

  /** The number a run of decimal digits denotes, most significant first. */
  function DigitsValue(ds: string): nat
    requires AllDigits(ds)
    decreases |ds|
  {
    if ds == [] then 0 else 10 * DigitsValue(ds[..|ds| - 1]) + DigitValue(ds[|ds| - 1])
  }

  /** The decimal digits of a natural number, without leading zeros. */
  function NatDigits(n: nat): (r: string)
    ensures |r| > 0 && AllDigits(r)
    ensures |r| > 1 ==> r[0] != '0'
  {
    if n < 10 then [DigitChar(n)] else NatDigits(n / 10) + [DigitChar(n % 10)]
  }

  lemma {:induction false} DigitsValueOfNatDigits(n: nat)
    ensures DigitsValue(NatDigits(n)) == n
  {
    if n >= 10 {
      var ds := NatDigits(n);
      assert ds[..|ds| - 1] == NatDigits(n / 10);
      DigitsValueOfNatDigits(n / 10);
    }
  }

  /** `Display` for an integer: an optional minus sign, then the digits. */
  function Decimal(n: int): (r: string)
  {
    if n < 0 then "-" + NatDigits(-n) else NatDigits(n)
  }

  /**
   * `str::parse::<i64>`: an optional `+` or `-`, then at least one ASCII
   * digit and nothing else, denoting a value inside the `i64` range.
   */
  function ParseI64(s: string): (r: Option<i64>)
    ensures r.Some? ==> |s| > 0
  {
    if |s| == 0 then None
    else
      var digits := if s[0] == '-' || s[0] == '+' then s[1..] else s;
      if |digits| == 0 || !AllDigits(digits) then None
      else
        var m: int := if s[0] == '-' then 0 - (DigitsValue(digits) as int) else DigitsValue(digits);
        if InRange(m) then Some(m) else None
  }

  /** Parsing an integer's own rendering gives the integer back. */
  lemma ParseDecimal(n: i64)
    ensures ParseI64(Decimal(n)) == Some(n)
  {
    var k: int := n;
    if k < 0 {
      assert Decimal(k)[1..] == NatDigits(-k);
      DigitsValueOfNatDigits(-k);
    } else {
      DigitsValueOfNatDigits(n);
    }
  }
}
