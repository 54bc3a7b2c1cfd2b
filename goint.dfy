/** Go's fixed-width integers and byte strings as the interpreter uses them: `int64` arithmetic
    wraps around on overflow and `/` truncates toward zero; `uint64(v)` reinterprets the
    two's-complement bits; `strconv.ParseInt(lit, 0, 64)` reads the digit runs the lexer produces;
    `%d` writes decimal. */
module GoInt {
  import opened Wrappers

  /** Go strings are byte strings: in this model every char of a string stands for one byte. */
  predicate IsByteString(s: string) {
    forall i :: 0 <= i < |s| ==> s[i] < 256 as char
  }

  const TWO_64: int := 0x1_0000_0000_0000_0000
  const MIN_INT64: int := -0x8000_0000_0000_0000
  const MAX_INT64: int := 0x7FFF_FFFF_FFFF_FFFF

  type Int64 = x: int | MIN_INT64 <= x <= MAX_INT64
  type Uint64 = x: int | 0 <= x < TWO_64

  /** The int64 value whose two's-complement bits are those of x's low 64 bits. */
  function Wrap(x: int): (r: Int64)
    ensures (r - x) % TWO_64 == 0
    ensures MIN_INT64 <= x <= MAX_INT64 ==> r == x
  {
    var m := x % TWO_64;
    if m > MAX_INT64 then m - TWO_64 else m
  }

  /** int64 `+`, `-`, `*` and unary `-`: the exact result when it fits, and otherwise the value
      that agrees with it modulo 2^64. */
  function Add(a: Int64, b: Int64): (r: Int64)
    ensures (r - (a + b)) % TWO_64 == 0
    ensures MIN_INT64 <= a + b <= MAX_INT64 ==> r == a + b
  {
    Wrap(a + b)
  }

  function Sub(a: Int64, b: Int64): (r: Int64)
    ensures (r - (a - b)) % TWO_64 == 0
    ensures MIN_INT64 <= a - b <= MAX_INT64 ==> r == a - b
  {
    Wrap(a - b)
  }

  function Mul(a: Int64, b: Int64): (r: Int64)
    ensures (r - a * b) % TWO_64 == 0
    ensures MIN_INT64 <= a * b <= MAX_INT64 ==> r == a * b
  {
    Wrap(a * b)
  }

  /** Negation overflows only on the most negative value, which it leaves unchanged. */
  function Neg(a: Int64): (r: Int64)
    ensures a != MIN_INT64 ==> r == -a
    ensures a == MIN_INT64 ==> r == MIN_INT64
  {
    Wrap(-(a as int))
  }

  function Abs(x: int): nat { if x < 0 then -x else x }

  /** Go's `a / b` on int64: the quotient rounded toward zero; the one overflowing case,
      the most negative value divided by -1, wraps back to the most negative value. */
  function Quot(a: Int64, b: Int64): (q: Int64)
    requires b != 0
    ensures !(a == MIN_INT64 && b == -1) ==>
              var rem := a - q * b;
              Abs(rem) < Abs(b) && (rem == 0 || (rem < 0) == (a < 0))
    ensures a == MIN_INT64 && b == -1 ==> q == MIN_INT64
  {
    var n := Abs(a) / Abs(b);
    var r := Abs(a) % Abs(b);
    assert Abs(a) == n * Abs(b) + r;
    var signed := if (a < 0) == (b < 0) then n else -n;
    if a == MIN_INT64 && b == -1 then MIN_INT64
    else
      assert signed * b == (if a < 0 then -(n * Abs(b)) else n * Abs(b));
      signed
  }

  /** `uint64(v)`: the same 64 bits read as an unsigned number. */
  function ToUint64(v: Int64): (u: Uint64)
    ensures v >= 0 ==> u == v
    ensures v < 0 ==> u == v + TWO_64
  {
    v % TWO_64
  }

  /** Distinct int64 values have distinct unsigned readings. */
  lemma ToUint64Injective(a: Int64, b: Int64)
    ensures ToUint64(a) == ToUint64(b) <==> a == b
  {
  }

  predicate IsDigitChar(c: char) { '0' <= c <= '9' }

  predicate IsDigitString(s: string) {
    forall i :: 0 <= i < |s| ==> IsDigitChar(s[i])
  }

  /** The value of a digit string read in the given base (digits need not be below the base). */
  function DigitsValue(s: string, base: nat): nat
    requires IsDigitString(s)
  {
    if s == [] then 0
    else DigitsValue(s[..|s| - 1], base) * base + (s[|s| - 1] - '0') as nat
  }

  predicate AllBelow(s: string, bound: char) {
    forall i :: 0 <= i < |s| ==> s[i] < bound
  }

  /** strconv.ParseInt(lit, 0, 64) on a non-empty digit string, the only literals the lexer
      produces: a leading 0 followed by more digits selects base 8 (so 8 and 9 are then syntax
      errors), anything else is decimal; a value beyond the int64 range is an error. */
  function ParseIntLiteral(lit: string): (r: Option<Int64>)
    requires |lit| > 0 && IsDigitString(lit)
    ensures r.Some? <==> (if lit[0] == '0' && |lit| > 1 then AllBelow(lit, '8') && DigitsValue(lit, 8) <= MAX_INT64
                          else DigitsValue(lit, 10) <= MAX_INT64)
    ensures r.Some? ==> r.value == DigitsValue(lit, if lit[0] == '0' && |lit| > 1 then 8 else 10)
  {
    if lit[0] == '0' && |lit| > 1 then
      if !AllBelow(lit, '8') then None
      else
        var v := DigitsValue(lit, 8);
        if v <= MAX_INT64 then Some(v) else None
    else
      var v := DigitsValue(lit, 10);
      if v <= MAX_INT64 then Some(v) else None
  }

  /** The decimal digits of a natural number, without leading zeros. */
  function NatToDecimal(n: nat): (s: string)
    ensures |s| > 0 && IsDigitString(s)
    ensures s[0] == '0' ==> n == 0
  {
    if n < 10 then [('0' as int + n) as char]
    else NatToDecimal(n / 10) + [('0' as int + n % 10) as char]
  }

  /** fmt's `%d`: a minus sign for negative values, then the decimal digits. */
  function IntToDecimal(n: int): (s: string)
    ensures |s| > 0
    ensures n >= 0 <==> s[0] != '-'
  {
    if n < 0 then "-" + NatToDecimal(-n) else NatToDecimal(n)
  }

  lemma {:induction false} DecimalDigitsValue(n: nat)
    ensures DigitsValue(NatToDecimal(n), 10) == n
  {
    var s := NatToDecimal(n);
    if n >= 10 {
      DecimalDigitsValue(n / 10);
      assert s[..|s| - 1] == NatToDecimal(n / 10);
    }
  }

  /** Writing a non-negative int64 with `%d` and reading it back as an integer literal gives it
      back: the literal the lexer sees for a printed number denotes that number. */
  lemma DecimalRoundTrip(n: Int64)
    requires n >= 0
    ensures ParseIntLiteral(IntToDecimal(n)) == Some(n)
  {
    DecimalDigitsValue(n);
  }
}
