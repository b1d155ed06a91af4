/**
 * JavaScript numbers as the dashboard uses them, and `parseFloat`.
 *
 * A number is NaN, one of the two infinities, or a finite value. Finite values
 * are exact reals: IEEE-754 rounding is not modelled, so every finite result
 * here is the exact value that double arithmetic approximates.
 */
module JsNumber {
  import opened JsString

  datatype Num = NaN | PosInf | NegInf | Fin(v: real)

  /** JavaScript `a + b`: NaN is absorbing and opposite infinities give NaN. */
  function Add(a: Num, b: Num): Num {
    match (a, b)
    case (Fin(x), Fin(y)) => Fin(x + y)
    case (NaN, _) => NaN
    case (_, NaN) => NaN
    case (PosInf, NegInf) => NaN
    case (NegInf, PosInf) => NaN
    case (PosInf, _) => PosInf
    case (_, PosInf) => PosInf
    case (NegInf, _) => NegInf
    case (_, NegInf) => NegInf
  }

  /** JavaScript unary `-a`. */
  function Negate(a: Num): Num {
    match a
    case Fin(x) => Fin(-x)
    case PosInf => NegInf
    case NegInf => PosInf
    case NaN => NaN
  }

  /** JavaScript `a - b`. */
  function Sub(a: Num, b: Num): Num {
    Add(a, Negate(b))
  }

  /**
   * JavaScript `a / d` for a positive whole divisor (an array length): the
   * quotient is of the same kind as `a` (NaN, an infinity of the same sign,
   * or finite), and a finite quotient times `d` gives back `a`.
   */
  function DivBy(a: Num, d: nat): (r: Num)
    requires d > 0
    ensures r.Fin? <==> a.Fin?
    ensures r.NaN? <==> a.NaN?
    ensures r.PosInf? <==> a.PosInf?
    ensures a.Fin? ==> r.v * d as real == a.v
    ensures a.Fin? ==> (0.0 <= r.v <==> 0.0 <= a.v)
  {
    if a.Fin? then Fin(a.v / d as real) else a
  }

  /**
   * JavaScript `a * k` for a positive constant factor: the product is of the
   * same kind as `a`, and a finite product divided by `k` gives back `a`.
   */
  function Scale(a: Num, k: real): (r: Num)
    requires k > 0.0
    ensures r.Fin? <==> a.Fin?
    ensures r.NaN? <==> a.NaN?
    ensures r.PosInf? <==> a.PosInf?
    ensures a.Fin? ==> r.v / k == a.v
    ensures a.Fin? ==> (0.0 <= r.v <==> 0.0 <= a.v)
  {
    if a.Fin? then Fin(a.v * k) else a
  }

  /** JavaScript truthiness of a number: NaN and zero are falsy. */
  predicate Truthy(a: Num) {
    !(a.NaN? || a == Fin(0.0))
  }

  /** JavaScript `a || 0` on a number: a falsy number becomes zero. */
  function OrZero(a: Num): (r: Num)
    ensures r != NaN
    ensures a != NaN ==> r == a
    ensures a == NaN ==> r == Fin(0.0)
  {
    if Truthy(a) then a else Fin(0.0)
  }

  /** JavaScript `a >= x` for a finite `x`: false for NaN. */
  predicate AtLeast(a: Num, x: real) {
    match a
    case Fin(y) => y >= x
    case PosInf => true
    case NegInf => false
    case NaN => false
  }

  /** JavaScript `a <= x` for a finite `x`: false for NaN. */
  predicate AtMost(a: Num, x: real) {
    match a
    case Fin(y) => y <= x
    case PosInf => false
    case NegInf => true
    case NaN => false
  }

  /** `!isNaN(a) && a >= 0 && a <= 1`: exactly the finite numbers of [0, 1]. */
  predicate InUnitInterval(a: Num)
    ensures InUnitInterval(a) <==> a.Fin? && 0.0 <= a.v <= 1.0
  {
    !a.NaN? && AtLeast(a, 0.0) && AtMost(a, 1.0)
  }

  // ---------------------------------------------------------------------
  // Decimal digits

  predicate IsDigit(c: char) {
    '0' <= c <= '9'
  }

  predicate AllDigits(s: string) {
    forall i :: 0 <= i < |s| ==> IsDigit(s[i])
  }

  function DigitValue(c: char): (d: nat)
    requires IsDigit(c)
    ensures d < 10
  {
    (c as int) - ('0' as int)
  }

  function DigitChar(d: nat): (c: char)
    requires d < 10
    ensures IsDigit(c) && DigitValue(c) == d
  {
    (('0' as int) + d) as char
  }

  /** The value of a string of decimal digits, most significant first. */
  function DigitsValue(s: string): nat
    requires AllDigits(s)
  {
    if s == [] then 0 else 10 * DigitsValue(s[..|s| - 1]) + DigitValue(s[|s| - 1])
  }

  /** The length of the longest prefix of `s` made of decimal digits. */
  function DigitRun(s: string): (n: nat)
    ensures n <= |s|
    ensures n < |s| ==> !IsDigit(s[n])
  {
    if s != [] && IsDigit(s[0]) then 1 + DigitRun(s[1..]) else 0
  }

  /** Every character of the run is a digit. */
  lemma {:induction false} DigitRunDigits(s: string)
    ensures AllDigits(s[..DigitRun(s)])
  {
    if s != [] && IsDigit(s[0]) {
      var m := DigitRun(s[1..]);
      DigitRunDigits(s[1..]);
      assert s[..1 + m] == [s[0]] + s[1..][..m];
    }
  }

  /** `m` times ten to the power `e`, for a whole exponent of either sign. */
  function Scaled(m: real, e: int): real
    decreases if e >= 0 then e else -e
  {
    if e == 0 then m
    else if e > 0 then 10.0 * Scaled(m, e - 1)
    else Scaled(m, e + 1) / 10.0
  }

  /** The plain decimal spelling of a whole number: its digits, with no leading zero. */
  function NatToString(n: nat): (s: string)
    ensures s != [] && AllDigits(s) && DigitsValue(s) == n
    ensures |s| > 1 ==> s[0] != '0'
  {
    if n < 10 then [DigitChar(n)]
    else
      var s := NatToString(n / 10) + [DigitChar(n % 10)];
      assert s[..|s| - 1] == NatToString(n / 10);
      s
  }

  // ---------------------------------------------------------------------
  // parseFloat

  predicate StartsWith(s: string, p: string) {
    |p| <= |s| && s[..|p|] == p
  }

  /**
   * The power of ten contributed by an optional ExponentPart at the start of
   * `s` (`e` or `E`, an optional sign, at least one digit); 0 when there is
   * none, since the longest valid prefix then stops before the `e`.
   */
  function ExponentValue(s: string): int {
    if s != [] && (s[0] == 'e' || s[0] == 'E') then
      var t := s[1..];
      var negative := t != [] && t[0] == '-';
      var u := if t != [] && (t[0] == '+' || t[0] == '-') then t[1..] else t;
      var k := DigitRun(u);
      DigitRunDigits(u);
      if k == 0 then 0
      else if negative then 0 - DigitsValue(u[..k]) as int
      else DigitsValue(u[..k])
    else 0
  }

  /**
   * The value of the longest prefix of `s` that is a StrUnsignedDecimalLiteral
   * (`Infinity`, or digits with an optional fraction and exponent), NaN when
   * no prefix is one.
   */
  function ParseUnsigned(s: string): Num {
    if StartsWith(s, "Infinity") then PosInf
    else
      var i := DigitRun(s);
      DigitRunDigits(s);
      var rest := s[i..];
      var hasDot := rest != [] && rest[0] == '.';
      var j := if hasDot then DigitRun(rest[1..]) else 0;
      if i == 0 && j == 0 then NaN
      else
        DigitRunDigits(if hasDot then rest[1..] else []);
        var frac := if hasDot then rest[1..][..j] else [];
        var tail := if hasDot then rest[1 + j..] else rest;
        var e := ExponentValue(tail);
        Fin(Scaled(DigitsValue(s[..i]) as real, e) + Scaled(DigitsValue(frac) as real, e - j))
  }

  /**
   * The global `parseFloat` applied to a string: leading white space is
   * skipped, an optional sign is read, then the longest decimal literal.
   */
  function ParseFloat(s: string): Num {
    var t := TrimStart(s);
    var signed := t != [] && (t[0] == '-' || t[0] == '+');
    var n := ParseUnsigned(if signed then t[1..] else t);
    if signed && t[0] == '-' then Negate(n) else n
  }

  /** Reading a string of digits that is followed by no fraction or exponent gives its whole value. */
  lemma ParseDigitsThen(d: string, tail: string)
    requires d != [] && AllDigits(d)
    requires tail == [] || !(IsDigit(tail[0]) || tail[0] == '.' || tail[0] == 'e' || tail[0] == 'E')
    ensures ParseFloat(d + tail) == Fin(DigitsValue(d) as real)
  {
    var s := d + tail;
    assert s[0] == d[0];
    ParseUnsignedOnly(s);
    ParseUnsignedDigits(d, tail);
  }

  /** Text that starts with neither white space nor a sign is read as an unsigned literal. */
  lemma ParseUnsignedOnly(s: string)
    requires s == [] || !(IsWhitespace(s[0]) || s[0] == '-' || s[0] == '+')
    ensures ParseFloat(s) == ParseUnsigned(s)
  {
    TrimStartKeeps(s);
  }

  lemma ParseUnsignedDigits(d: string, tail: string)
    requires d != [] && AllDigits(d)
    requires tail == [] || !(IsDigit(tail[0]) || tail[0] == '.' || tail[0] == 'e' || tail[0] == 'E')
    ensures ParseUnsigned(d + tail) == Fin(DigitsValue(d) as real)
  {
    var s := d + tail;
    assert s[0] == d[0];
    NotInfinity(s);
    assert s[..|d|] == d && s[|d|..] == tail;
    DigitRunFrom(s, |d|);
    assert ExponentValue(tail) == 0;
    assert DigitsValue([]) == 0;
  }

  lemma NotInfinity(s: string)
    requires s != [] && IsDigit(s[0])
    ensures !StartsWith(s, "Infinity")
  {
    assert "Infinity"[0] == 'I';
    assert |s| >= 8 ==> s[..8][0] == s[0];
  }

  /** DigitRun stops exactly at the first non-digit. */
  lemma {:induction false} DigitRunFrom(s: string, n: nat)
    requires n <= |s| && AllDigits(s[..n]) && (n < |s| ==> !IsDigit(s[n]))
    ensures DigitRun(s) == n
  {
    if n > 0 {
      assert s[..n][0] == s[0];
      var t := s[1..];
      assert t[..n - 1] == s[..n][1..];
      assert n - 1 < |t| ==> t[n - 1] == s[n];
      DigitRunFrom(t, n - 1);
    }
  }

  /** `parseFloat` reads back the decimal spelling of every whole number. */
  lemma ParseNatToString(n: nat)
    ensures ParseFloat(NatToString(n)) == Fin(n as real)
  {
    var s := NatToString(n);
    assert s + [] == s;
    ParseDigitsThen(s, []);
  }

  /** The text `"0"` that `x || 0` substitutes for a missing or empty field reads as zero. */
  lemma ParseZero()
    ensures ParseFloat("0") == Fin(0.0)
  {
    var z := "0";
    assert AllDigits(z) && z + [] == z;
    assert DigitsValue(z) == 0;
    ParseDigitsThen(z, []);
  }

  /** The text `"undefined"` that a missing field turns into reads as NaN. */
  lemma ParseUndefined()
    ensures ParseFloat("undefined") == NaN
  {
    var s := "undefined";
    assert s[0] == 'u' && !IsWhitespace('u');
    ParseUnsignedOnly(s);
    assert DigitRun(s) == 0;
  }

  /** The empty string reads as NaN. */
  lemma ParseEmpty()
    ensures ParseFloat("") == NaN
  {
  }

  /** Leading white space does not change what `parseFloat` reads. */
  lemma {:induction false} ParseSkipsWhitespace(w: string, s: string)
    requires AllWhitespace(w)
    ensures ParseFloat(w + s) == ParseFloat(s)
  {
    TrimStartSkips(w, s);
  }

  lemma {:induction false} TrimStartSkips(w: string, s: string)
    requires AllWhitespace(w)
    ensures TrimStart(w + s) == TrimStart(s)
  {
    if w != [] {
      assert (w + s)[1..] == w[1..] + s;
      TrimStartSkips(w[1..], s);
    } else {
      assert w + s == s;
    }
  }

  /** A leading minus sign negates what follows it. */
  lemma ParseMinus(s: string)
    requires s == [] || !(IsWhitespace(s[0]) || s[0] == '-' || s[0] == '+')
    ensures ParseFloat("-" + s) == Negate(ParseUnsigned(s))
  {
    var t := "-" + s;
    assert t[0] == '-' && !IsWhitespace('-');
    TrimStartKeeps(t);
    assert t[1..] == s;
  }
}

/**
 * The fold `xs.reduce((a, b) => a + b, 0)` over JavaScript numbers and its
 * relation to the mathematical sum, shared by the KPI averages and the health
 * score.
 */
module NumberSums {
  import opened JsNumber

  /** Left fold from 0 with JavaScript addition. */
  function SumLeft(xs: seq<Num>): Num {
    if xs == [] then Fin(0.0) else Add(SumLeft(xs[..|xs| - 1]), xs[|xs| - 1])
  }

  predicate AllFinite(xs: seq<Num>) {
    forall i :: 0 <= i < |xs| ==> xs[i].Fin?
  }

  /** The mathematical sum, taken from the front: the reference for the fold. */
  function RealSum(xs: seq<Num>): real
    requires AllFinite(xs)
  {
    if xs == [] then 0.0 else xs[0].v + RealSum(xs[1..])
  }

  lemma {:induction false} RealSumSnoc(xs: seq<Num>, x: Num)
    requires AllFinite(xs) && x.Fin?
    ensures AllFinite(xs + [x])
    ensures RealSum(xs + [x]) == RealSum(xs) + x.v
  {
    if xs != [] {
      assert (xs + [x])[1..] == xs[1..] + [x];
      RealSumSnoc(xs[1..], x);
    } else {
      assert (xs + [x])[1..] == [];
    }
  }

  /** When every number is finite the fold is exactly their sum. */
  lemma {:induction false} SumLeftExact(xs: seq<Num>)
    requires AllFinite(xs)
    ensures SumLeft(xs) == Fin(RealSum(xs))
  {
    if xs != [] {
      var init := xs[..|xs| - 1];
      assert xs == init + [xs[|xs| - 1]];
      RealSumSnoc(init, xs[|xs| - 1]);
      SumLeftExact(init);
    }
  }

  /** One NaN anywhere makes the whole fold NaN. */
  lemma {:induction false} SumLeftNaN(xs: seq<Num>, k: nat)
    requires k < |xs| && xs[k] == NaN
    ensures SumLeft(xs) == NaN
  {
    if k < |xs| - 1 {
      assert xs[..|xs| - 1][k] == xs[k];
      SumLeftNaN(xs[..|xs| - 1], k);
    }
  }

  /** A sum of n values in [lo, hi] lies in [n * lo, n * hi]. */
  lemma {:induction false} RealSumBounds(xs: seq<Num>, lo: real, hi: real)
    requires AllFinite(xs)
    requires forall i :: 0 <= i < |xs| ==> lo <= xs[i].v <= hi
    ensures |xs| as real * lo <= RealSum(xs) <= |xs| as real * hi
  {
    if xs != [] {
      var rest := xs[1..];
      var m := |rest| as real;
      assert forall i :: 0 <= i < |rest| ==> rest[i] == xs[i + 1];
      RealSumBounds(rest, lo, hi);
      assert lo <= xs[0].v <= hi;
      assert RealSum(xs) == xs[0].v + RealSum(rest);
      assert |xs| as real == m + 1.0;
      assert (m + 1.0) * lo == m * lo + lo;
      assert (m + 1.0) * hi == m * hi + hi;
    }
  }

  /** The mean of values in [lo, hi] lies in [lo, hi]. */
  lemma MeanBounds(xs: seq<Num>, lo: real, hi: real)
    requires |xs| > 0 && AllFinite(xs)
    requires forall i :: 0 <= i < |xs| ==> lo <= xs[i].v <= hi
    ensures lo <= RealSum(xs) / |xs| as real <= hi
  {
    RealSumBounds(xs, lo, hi);
    DivBetween(RealSum(xs), |xs| as real, lo, hi);
  }

  lemma DivBetween(t: real, n: real, lo: real, hi: real)
    requires n > 0.0 && n * lo <= t <= n * hi
    ensures lo <= t / n <= hi
  {
    assert (t - n * lo) / n >= 0.0;
    assert (n * hi - t) / n >= 0.0;
    assert (t - n * lo) / n == t / n - lo;
    assert (n * hi - t) / n == hi - t / n;
  }

  /** A finite value between `d * lo` and `d * hi`, divided by `d`, lies between `lo` and `hi`. */
  lemma DivByBounds(a: Num, d: nat, lo: real, hi: real)
    requires d > 0 && a.Fin? && d as real * lo <= a.v <= d as real * hi
    ensures DivBy(a, d).Fin? && lo <= DivBy(a, d).v <= hi
  {
  }

  /** Scaling a finite value between `lo` and `hi` by `k` gives a value between `k * lo` and `k * hi`. */
  lemma ScaleBounds(a: Num, k: real, lo: real, hi: real)
    requires k > 0.0 && a.Fin? && lo <= a.v <= hi
    ensures Scale(a, k).Fin? && k * lo <= Scale(a, k).v <= k * hi
  {
  }
}
