/** IEEE-754 doubles as the client uses them: a finite value (taken as an
    exact real), the two infinities, or NaN; Rust's `f64` text parser,
    rounding and the saturating `as u64` cast. */
module Float {
  import opened Wrappers
  import opened Text

  datatype F64 = Finite(value: real) | PosInf | NegInf | NaN

  /** `f64::is_finite`. */
  predicate IsFinite(x: F64) { x.Finite? }

  /** `x > 0.0`: false for NaN, true for +inf. */
  predicate Positive(x: F64) { x.PosInf? || (x.Finite? && x.value > 0.0) }

  /** `x <= bound` for a finite bound: false for NaN and +inf. */
  predicate AtMost(x: F64, bound: real) { x.NegInf? || (x.Finite? && x.value <= bound) }

  /** `x < c` for a finite constant: true for -inf, false for NaN. */
  predicate Below(x: F64, c: real) { x.NegInf? || (x.Finite? && x.value < c) }

  /** `x > c` for a finite constant: true for +inf, false for NaN. */
  predicate Above(x: F64, c: real) { x.PosInf? || (x.Finite? && x.value > c) }

  /** `x > y` between two doubles: false whenever either is NaN. */
  predicate Greater(x: F64, y: F64)
  {
    (x.Finite? && y.Finite? && x.value > y.value) ||
    (x.PosInf? && (y.Finite? || y.NegInf?)) ||
    (x.Finite? && y.NegInf?)
  }

  function Pow10(e: nat): (r: nat)
    ensures r >= 1
  {
    if e == 0 then 1 else 10 * Pow10(e - 1)
  }

  /** Value of the digits before and after a decimal point. */
  function MantissaValue(ip: string, fp: string): (v: real)
    requires AllDigits(ip) && AllDigits(fp)
    ensures v >= 0.0
  {
    DigitsValue(ip) as real + DigitsValue(fp) as real / Pow10(|fp|) as real
  }

  /** The mantissa: digits with at most one '.', at least one digit. */
  function ParseMantissa(m: string): (r: Option<real>)
    ensures r.Some? ==> r.value >= 0.0
  {
    match SplitOnce(m, '.')
    case None => if m != [] && AllDigits(m) then Some(DigitsValue(m) as real) else None
    case Some((ip, fp)) =>
      if AllDigits(ip) && AllDigits(fp) && |ip| + |fp| >= 1 then Some(MantissaValue(ip, fp)) else None
  }

  /** The decimal exponent after `e`/`E`: an optional sign and digits. */
  function ParseExponent(x: string): (r: Option<int>)
  {
    if x != [] && (x[0] == '+' || x[0] == '-') then
      var d := x[1..];
      if d != [] && AllDigits(d) then Some(if x[0] == '-' then -(DigitsValue(d) as int) else DigitsValue(d) as int) else None
    else if x != [] && AllDigits(x) then Some(DigitsValue(x))
    else None
  }

  function Scale(v: real, e: int): real
  {
    if e >= 0 then v * Pow10(e) as real else v / Pow10(-e) as real
  }

  /** An unsigned decimal number with optional fraction and exponent. */
  function ParseUnsignedDecimal(t: string): (r: Option<real>)
    ensures r.Some? ==> r.value >= 0.0
  {
    match IndexOfAny(t, {'e', 'E'})
    case None => ParseMantissa(t)
    case Some(i) =>
      match (ParseMantissa(t[..i]), ParseExponent(t[i + 1..]))
      case (Some(v), Some(e)) =>
        var w := Scale(v, e);
        assert w >= 0.0;
        Some(w)
      case _ => None
  }

  /** `str::parse::<f64>`: an optional sign, then `inf`, `infinity` or `nan`
      in any case, or a decimal number. No surrounding whitespace is
      allowed. */
  function ParseF64(s: string): (r: Option<F64>)
    ensures r.Some? ==> s != []
  {
    var neg := s != [] && s[0] == '-';
    var body := if s != [] && (s[0] == '+' || s[0] == '-') then s[1..] else s;
    var lower := AsciiLower(body);
    if lower == "inf" || lower == "infinity" then Some(if neg then NegInf else PosInf)
    else if lower == "nan" then Some(NaN)
    else match ParseUnsignedDecimal(body)
      case None => None
      case Some(v) => Some(Finite(if neg then -v else v))
  }

  /** Whole numbers written in decimal parse to themselves. */
  lemma ParseF64OfNat(n: nat)
    ensures ParseF64(NatToString(n)) == Some(Finite(n as real))
  {
    ParseF64OfDigits(NatToString(n));
  }

  /** A non-empty run of decimal digits parses to its value. */
  lemma ParseF64OfDigits(s: string)
    requires s != [] && AllDigits(s)
    ensures ParseF64(s) == Some(Finite(DigitsValue(s) as real))
  {
    assert s[0] != '-' && s[0] != '+';
    assert AsciiLower(s) == s by { AsciiLowerFixed(s); }
    assert s != "inf" && s != "infinity" && s != "nan" by {
      assert IsAsciiDigit(s[0]);
    }
    assert ParseUnsignedDecimal(s) == Some(DigitsValue(s) as real) by {
      assert IndexOfAny(s, {'e', 'E'}).None? by {
        assert forall j :: 0 <= j < |s| ==> s[j] !in {'e', 'E'};
      }
      assert SplitOnce(s, '.').None? by {
        assert '.' !in s;
      }
    }
  }

  /** `f64::floor` over the reals. */
  function Floor(x: real): (r: int)
    ensures r as real <= x < r as real + 1.0
  {
    x.Floor
  }

  /** `f64::ceil` over the reals. */
  function Ceil(x: real): (r: int)
    ensures x <= r as real < x + 1.0
  {
    -Floor(-x)
  }

  /** `f64::round`: to the nearest integer, halves away from zero. */
  function Round(x: real): (r: int)
    ensures x - 0.5 <= r as real <= x + 0.5
    ensures x >= 0.0 ==> r >= 0 && x - 0.5 < r as real
    ensures x < 0.0 ==> r <= 0 && r as real < x + 0.5
  {
    if x >= 0.0 then Floor(x + 0.5) else -Floor(-x + 0.5)
  }

  /** `as u64` on a finite value: truncation toward zero, saturating at
      both ends. */
  function RealToU64(x: real): (r: nat)
    ensures r <= U64Max
    ensures 0.0 <= x < U64Max as real ==> r == Floor(x)
    ensures x <= 0.0 ==> r == 0
  {
    if x <= 0.0 then 0 else if x >= U64Max as real then U64Max else Floor(x)
  }

  /** `as u64` on any double: NaN becomes 0 and the infinities saturate. */
  function F64ToU64(x: F64): (r: nat)
    ensures r <= U64Max
    ensures x.NaN? || x.NegInf? ==> r == 0
    ensures x.PosInf? ==> r == U64Max
  {
    match x
    case Finite(v) => RealToU64(v)
    case PosInf => U64Max
    case _ => 0
  }

  function MinReal(a: real, b: real): (r: real)
    ensures r <= a && r <= b && (r == a || r == b)
  {
    if a <= b then a else b
  }

  function MaxReal(a: real, b: real): (r: real)
    ensures r >= a && r >= b && (r == a || r == b)
  {
    if a >= b then a else b
  }

  function MinInt(a: int, b: int): (r: int)
    ensures r <= a && r <= b && (r == a || r == b)
  {
    if a <= b then a else b
  }

  function MaxInt(a: int, b: int): (r: int)
    ensures r >= a && r >= b && (r == a || r == b)
  {
    if a >= b then a else b
  }

  /** `Ord::clamp`. */
  function ClampInt(x: int, lo: int, hi: int): (r: int)
    requires lo <= hi
    ensures lo <= r <= hi
    ensures lo <= x <= hi ==> r == x
    ensures x < lo ==> r == lo
    ensures x > hi ==> r == hi
  {
    if x < lo then lo else if x > hi then hi else x
  }

  function ClampReal(x: real, lo: real, hi: real): (r: real)
    requires lo <= hi
    ensures lo <= r <= hi
    ensures lo <= x <= hi ==> r == x
  {
    if x < lo then lo else if x > hi then hi else x
  }

  /** Rust's integer `/` on signed values: truncation toward zero, unlike
      Dafny's Euclidean division. */
  function TruncDiv(a: int, b: int): (q: int)
    requires b > 0
    ensures a >= 0 ==> q == a / b
    ensures a < 0 ==> q == -((-a) / b)
  {
    if a >= 0 then a / b else -((-a) / b)
  }
}
