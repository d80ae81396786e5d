/**
 * The JavaScript number behaviour the components depend on, with exact rational
 * arithmetic in place of IEEE doubles: division that yields Infinity or NaN on a
 * zero divisor, `Math.min`, `>=` against NaN, `Math.round`, `parseInt` and `Number`.
 */
module JsNumber {
  import opened Wrappers
  import opened Strings

  /** A JavaScript number: finite (kept exact), an infinity, or NaN. */
  datatype Num = Finite(value: real) | PosInf | NegInf | NaN

  /** `a / b` on integers; a zero divisor gives Infinity, -Infinity or NaN. */
  function Div(a: int, b: int): (r: Num)
    ensures b != 0 ==> r == Finite(a as real / b as real)
    ensures b == 0 ==> (r == PosInf <==> a > 0) && (r == NegInf <==> a < 0) && (r == NaN <==> a == 0)
  {
    if b != 0 then Finite(a as real / b as real)
    else if a > 0 then PosInf
    else if a < 0 then NegInf
    else NaN
  }

  /** `x * k` for a positive constant `k`. */
  function Scale(x: Num, k: real): (r: Num)
    requires k > 0.0
    ensures x.Finite? <==> r.Finite?
    ensures x.Finite? ==> r.value == x.value * k
    ensures !x.Finite? ==> r == x
  {
    match x
    case Finite(v) => Finite(v * k)
    case _ => x
  }

  /** `Math.min(x, y)` with a finite `y`: NaN stays NaN. */
  function Min(x: Num, y: real): (r: Num)
    ensures x == NaN <==> r == NaN
    ensures r != NaN ==> r.Finite? || r == NegInf
    ensures r.Finite? ==> r.value <= y && (r.value == y || (x.Finite? && r.value == x.value))
  {
    match x
    case Finite(v) => Finite(if v <= y then v else y)
    case PosInf => Finite(y)
    case NegInf => NegInf
    case NaN => NaN
  }

  /** `x >= k` for a finite `k`: false whenever `x` is NaN. */
  predicate AtLeast(x: Num, k: real) {
    match x
    case Finite(v) => v >= k
    case PosInf => true
    case NegInf => false
    case NaN => false
  }

  /** `(a / b) * 100` for a non-zero divisor. */
  function Percent(a: int, b: int): (p: real)
    requires b != 0
    ensures p * b as real == 100.0 * a as real
  {
    (a as real / b as real) * 100.0
  }

  /** Against a positive divisor, `(a / b) * 100 >= k` is the integer comparison `100 * a >= k * b`. */
  lemma PercentAtLeast(a: int, b: int, k: int)
    requires b > 0
    ensures Percent(a, b) >= k as real <==> 100 * a >= k * b
  {
    var p := Percent(a, b);
    var m := b as real;
    assert (k * b) as real == k as real * m;
    assert (p - k as real) * m == (100 * a - k * b) as real;
  }

  /** Against a negative divisor the comparison turns round. */
  lemma PercentAtLeastNegative(a: int, b: int, k: int)
    requires b < 0
    ensures Percent(a, b) >= k as real <==> 100 * a <= k * b
  {
    var p := Percent(a, b);
    var m := b as real;
    assert (k * b) as real == k as real * m;
    assert (p - k as real) * m == (100 * a - k * b) as real;
  }

  /** Against a positive divisor the percentage lies in 0..100 exactly when `0 <= a <= b`. */
  lemma PercentRange(a: int, b: int)
    requires b > 0
    ensures Percent(a, b) >= 0.0 <==> a >= 0
    ensures Percent(a, b) <= 100.0 <==> a <= b
  {
    PercentAtLeast(a, b, 0);
    var p := Percent(a, b);
    var m := b as real;
    assert (100.0 - p) * m == 100.0 * (b - a) as real;
    if p <= 100.0 {
      assert (100.0 - p) * m >= 0.0;
    } else {
      assert (100.0 - p) * m < 0.0;
    }
  }

  /** `Math.round(x)` for a finite `x`: halves round up. */
  function Round(x: real): (n: int)
    ensures n as real - 0.5 <= x < n as real + 0.5
  {
    (x + 0.5).Floor
  }

  // ---------------------------------------------------------------------
  // parseInt(text) with no radix, and Number(text)
  // ---------------------------------------------------------------------

  predicate IsHexDigit(c: char) {
    IsDigit(c) || ('a' <= c <= 'f') || ('A' <= c <= 'F')
  }

  function HexDigitValue(c: char): (d: nat)
    requires IsHexDigit(c)
    ensures d < 16
  {
    if IsDigit(c) then DigitValue(c)
    else if 'a' <= c <= 'f' then c as int - 'a' as int + 10
    else c as int - 'A' as int + 10
  }

  function HexValue(s: string): nat
    requires forall i :: 0 <= i < |s| ==> IsHexDigit(s[i])
  {
    if s == [] then 0 else HexValue(s[..|s| - 1]) * 16 + HexDigitValue(s[|s| - 1])
  }

  /** The longest prefix of `s` made of characters satisfying `p`. */
  function LongestPrefix(s: string, p: char -> bool): (r: string)
    ensures |r| <= |s| && r == s[..|r|]
    ensures forall i :: 0 <= i < |r| ==> p(r[i])
    ensures |r| < |s| ==> !p(s[|r|])
  {
    if s != [] && p(s[0]) then [s[0]] + LongestPrefix(s[1..], p) else []
  }

  /** The sign `parseInt` and `Number` accept before the digits, and what follows it. */
  function SplitSign(t: string): (r: (int, string))
    ensures r.0 == 1 || r.0 == -1
    ensures r.1 == t || (t != [] && r.1 == t[1..])
  {
    if t != [] && t[0] == '-' then (-1, t[1..])
    else if t != [] && t[0] == '+' then (1, t[1..])
    else (1, t)
  }

  /**
   * `parseInt(s)`: leading white space is skipped, a sign is read, a `0x`/`0X`
   * prefix selects base 16, and the longest run of digits that follows is the
   * value; `None` stands for NaN (no digit at all).
   */
  function ParseInt(s: string): (r: Option<int>)
  {
    var (sign, u) := SplitSign(TrimStart(s));
    if |u| >= 2 && u[0] == '0' && (u[1] == 'x' || u[1] == 'X') then
      var ds := LongestPrefix(u[2..], IsHexDigit);
      if ds == [] then None else Some(sign * HexValue(ds))
    else
      var ds := LongestPrefix(u, IsDigit);
      if ds == [] then None else Some(sign * DigitsValue(ds))
  }

  /** `parseInt(s) || 0`: NaN (and 0) become 0. */
  function ParseIntOrZero(s: string): (n: int)
    ensures ParseInt(s).None? ==> n == 0
    ensures ParseInt(s).Some? ==> n == ParseInt(s).value
  {
    match ParseInt(s)
    case Some(v) => v
    case None => 0
  }

  /** `parseInt(String(n))` gives back `n`. */
  lemma ParseIntOfIntToString(n: int)
    ensures ParseInt(IntToString(n)) == Some(n)
  {
    var m: nat := if n < 0 then -n else n;
    var digits := NatToString(m);
    var s := IntToString(n);
    assert TrimStart(s) == s by {
      assert !IsJsSpace(s[0]);
    }
    DigitsValueOfNatToString(m);
    LongestPrefixWhole(digits, IsDigit);
    if n < 0 {
      assert s[1..] == digits;
      assert SplitSign(s) == (-1, digits);
    } else {
      assert SplitSign(s) == (1, digits);
    }
    assert !(|digits| >= 2 && digits[0] == '0');
  }

  lemma {:induction false} LongestPrefixWhole(s: string, p: char -> bool)
    requires forall i :: 0 <= i < |s| ==> p(s[i])
    ensures LongestPrefix(s, p) == s
  {
    if s != [] {
      LongestPrefixWhole(s[1..], p);
    }
  }

  /**
   * `Number(s)` for the integer forms: surrounding white space is ignored, the
   * empty string is 0, and an optional sign followed by decimal digits is read as
   * an integer; anything else is NaN (`None`).
   */
  function NumberOf(s: string): (r: Option<int>)
    ensures Trim(s) == [] ==> r == Some(0)
  {
    var t := Trim(s);
    if t == [] then Some(0)
    else
      var (sign, u) := SplitSign(t);
      if u != [] && AllDigits(u) then Some(sign * DigitsValue(u)) else None
  }

  /** `Number(s) || 0`: NaN and 0 become 0. */
  function NumberOrZero(s: string): int {
    match NumberOf(s)
    case Some(v) => v
    case None => 0
  }

  /** A string of decimal digits reads as its value under `Number`. */
  lemma NumberOfDigits(s: string)
    requires s != [] && AllDigits(s)
    ensures NumberOf(s) == Some(DigitsValue(s))
  {
    assert !IsJsSpace(s[0]) && !IsJsSpace(s[|s| - 1]);
    assert TrimStart(s) == s;
    assert TrimEnd(s) == s;
  }
}
