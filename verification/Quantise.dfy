/**
 The range-checked quantisers of the CAN commands and the matching decoders, in exact arithmetic.
 A floating-point argument is either a real number or not finite.
 */
module Quantise {
  import opened Fleet

  datatype Float = NonFinite | Finite(value: real)

  const LLONG_MIN: real := -9223372036854775808.0
  const LLONG_MAX: real := 9223372036854775808.0

  /** `llround`, `std::round`: to the nearest integer, halves away from zero. */
  function Round(x: real): int {
    if x >= 0.0 then (x + 0.5).Floor else -((-x + 0.5).Floor)
  }

  /** The position of a symmetric quantity on its code scale. */
  function SymmetricScale(value: real, range: real, center: nat): real
    requires range > 0.0
  {
    value / range * center as real + center as real
  }

  /** Rounds a position on a code scale of 0 to `max`. */
  function RoundedCode(scaled: real, max: nat): (r: Result<nat>)
    ensures if r.Success? then r.value <= max else r.error == InvalidArgument
  {
    if scaled < LLONG_MIN || scaled > LLONG_MAX then Failure(InvalidArgument)
    else if Round(scaled) < 0 || Round(scaled) > max then Failure(InvalidArgument)
    else Success(Round(scaled))
  }

  function CheckedSymmetric(value: Float, range: Float, center: nat, max: nat): (r: Result<nat>)
    ensures if r.Success? then r.value <= max else r.error == InvalidArgument
  {
    if value.NonFinite? || range.NonFinite? || range.value <= 0.0 then Failure(InvalidArgument)
    else RoundedCode(SymmetricScale(value.value, range.value, center), max)
  }

  function GainScale(value: real, maxValue: real, maxRaw: nat): real
    requires maxValue > 0.0
  {
    value / maxValue * maxRaw as real
  }

  function CheckedPvtGain(value: Float, maxValue: Float, maxRaw: nat): (r: Result<nat>)
    ensures if r.Success? then r.value <= maxRaw else r.error == InvalidArgument
  {
    if value.NonFinite? || maxValue.NonFinite? || maxValue.value <= 0.0 then Failure(InvalidArgument)
    else RoundedCode(GainScale(value.value, maxValue.value, maxRaw), maxRaw)
  }

  function Scaled(value: real, scale: real): real {
    value * scale
  }

  function CheckedU16Scaled(value: Float, scale: real, max: nat): (r: Result<nat>)
    ensures if r.Success? then r.value <= max else r.error == InvalidArgument
  {
    if value.NonFinite? then Failure(InvalidArgument)
    else
      var rounded := Round(Scaled(value.value, scale));
      if rounded < 0 || rounded > max then Failure(InvalidArgument) else Success(rounded)
  }

  function CheckedI16Scaled(value: Float, scale: real): (r: Result<int>)
    ensures if r.Success? then -0x8000 <= r.value < 0x8000 else r.error == InvalidArgument
  {
    if value.NonFinite? then Failure(InvalidArgument)
    else
      var rounded := Round(Scaled(value.value, scale));
      if rounded < -0x8000 || rounded > 0x7FFF then Failure(InvalidArgument) else Success(rounded)
  }

  /** A signed 16-bit value on the wire (two's complement), and back. */
  function ToU16(n: int): (u: nat)
    requires -0x8000 <= n < 0x8000
    ensures u < 0x1_0000
  {
    if n < 0 then n + 0x1_0000 else n
  }

  function FromU16(u: nat): (n: int)
    requires u < 0x1_0000
    ensures -0x8000 <= n < 0x8000
  {
    if u < 0x8000 then u else u - 0x1_0000
  }

  lemma SignedRoundTrip(n: int)
    requires -0x8000 <= n < 0x8000
    ensures FromU16(ToU16(n)) == n
  {
  }

  function DecodeSymmetric(raw: nat, range: real, maxRaw: nat): real
    requires maxRaw > 0
  {
    raw as real / maxRaw as real * (2.0 * range) - range
  }

  function DecodeLinear(raw: nat, min: real, max: real, maxRaw: nat): real
    requires maxRaw > 0
  {
    min + raw as real / maxRaw as real * (max - min)
  }

  // ---------------------------------------------------------------------------------------------
  // Rounding
  // ---------------------------------------------------------------------------------------------

  lemma RoundNear(x: real)
    ensures -0.5 <= Round(x) as real - x <= 0.5
  {
  }

  lemma RoundMonotone(x: real, y: real)
    requires x <= y
    ensures Round(x) <= Round(y)
  {
  }

  /** Rounding stays in [0, max] exactly for arguments strictly within half a step of the interval. */
  lemma RoundInRange(x: real, max: nat)
    ensures 0 <= Round(x) <= max <==> -0.5 < x < max as real + 0.5
  {
  }

  lemma RoundInSignedRange(x: real, low: int, max: int)
    requires low <= 0 <= max
    ensures low <= Round(x) <= max <==> low as real - 0.5 < x < max as real + 0.5
  {
  }

  /** A number strictly within half a step of an integer rounds to it. */
  lemma RoundTo(x: real, k: nat)
    requires k as real - 0.5 < x < k as real + 0.5
    ensures Round(x) == k
  {
  }

  // ---------------------------------------------------------------------------------------------
  // Symmetric quantities: position, velocity, torque
  // ---------------------------------------------------------------------------------------------

  /** Exactly which values are accepted: half a code step below the range and up to half a step above
      the largest code. */
  lemma SymmetricAccepts(v: real, range: real, center: nat, max: nat)
    requires range > 0.0 && max < 0x1_0000
    ensures CheckedSymmetric(Finite(v), Finite(range), center, max).Success? <==>
            -0.5 < SymmetricScale(v, range, center) < max as real + 0.5
  {
    CodeAccepts(SymmetricScale(v, range, center), max);
  }

  /** The `long long` guard before the rounding never decides anything for 16-bit codes. */
  lemma CodeAccepts(x: real, max: nat)
    requires max < 0x1_0000
    ensures RoundedCode(x, max).Success? <==> -0.5 < x < max as real + 0.5
    ensures RoundedCode(x, max).Success? ==> RoundedCode(x, max).value == Round(x)
  {
    RoundInRange(x, max);
  }

  /** The whole nominal range is accepted. */
  lemma SymmetricTotal(v: real, range: real, center: nat, max: nat)
    requires range > 0.0 && -range <= v <= range && 2 * center <= max < 0x1_0000
    ensures CheckedSymmetric(Finite(v), Finite(range), center, max).Success?
  {
    var s := v / range;
    DivBounds(v, range);
    var c := center as real;
    MulMonotone(s, 1.0, c);
    MulMonotone(-1.0, s, c);
    var p := s * c;
    Units(c);
    assert SymmetricScale(v, range, center) == p + c;
    Doubled(p, center, max);
    SymmetricAccepts(v, range, center, max);
  }

  lemma Units(c: real)
    ensures 1.0 * c == c && -1.0 * c == -c
  {
  }

  lemma Doubled(p: real, center: nat, max: nat)
    requires -(center as real) <= p <= center as real && 2 * center <= max
    ensures 0.0 <= p + center as real <= max as real
  {
  }

  lemma DivBounds(v: real, range: real)
    requires range > 0.0 && -range <= v <= range
    ensures -1.0 <= v / range <= 1.0
  {
    var s := v / range;
    assert s * range == v;
    Cancel(s, 1.0, range);
    Cancel(-1.0, s, range);
  }

  lemma Cancel(a: real, b: real, c: real)
    requires c > 0.0 && a * c <= b * c
    ensures a <= b
  {
    var x := (b - a) * c;
    assert x >= 0.0;
    assert b - a == x / c;
  }

  /** Larger values never get smaller codes. */
  lemma SymmetricMonotone(v: real, w: real, range: real, center: nat, max: nat)
    requires range > 0.0 && v <= w
    requires CheckedSymmetric(Finite(v), Finite(range), center, max).Success?
    requires CheckedSymmetric(Finite(w), Finite(range), center, max).Success?
    ensures CheckedSymmetric(Finite(v), Finite(range), center, max).value <=
            CheckedSymmetric(Finite(w), Finite(range), center, max).value
  {
    DivMonotone(v, w, range);
    MulMonotone(v / range, w / range, center as real);
    RoundMonotone(SymmetricScale(v, range, center), SymmetricScale(w, range, center));
  }

  lemma DivMonotone(v: real, w: real, range: real)
    requires range > 0.0 && v <= w
    ensures v / range <= w / range
  {
    assert v / range * range == v && w / range * range == w;
    Cancel(v / range, w / range, range);
  }

  lemma MulMonotone(a: real, b: real, c: real)
    requires a <= b && c >= 0.0
    ensures a * c <= b * c
  {
    assert (b - a) * c >= 0.0;
  }

  /** The decoder spreads 2 * center + 2 codes where the encoder uses 2 * center steps: a decoded code
      sits k / max below the code itself on the encoder's scale. */
  lemma DecodedScale(k: nat, range: real, center: nat, max: nat)
    requires range > 0.0 && max == 2 * center + 1
    ensures SymmetricScale(DecodeSymmetric(k, range, max), range, center) == k as real - k as real / max as real
  {
    var t := k as real / max as real;
    var c := center as real;
    assert t * max as real == k as real;
    var v := DecodeSymmetric(k, range, max);
    assert v == (2.0 * t - 1.0) * range;
    Quotient(2.0 * t - 1.0, range);
    assert (2.0 * t - 1.0) * c + c == t * (2.0 * c);
    assert 2.0 * c == max as real - 1.0;
    assert t * (max as real - 1.0) == k as real - t;
  }

  lemma Quotient(a: real, b: real)
    requires b > 0.0
    ensures a * b / b == a
  {
  }

  /** The error of one encode and decode is at most one and a half encoder steps, for every accepted value. */
  lemma SymmetricError(v: real, range: real, center: nat, max: nat)
    requires range > 0.0 && center > 0 && max == 2 * center + 1
    requires CheckedSymmetric(Finite(v), Finite(range), center, max).Success?
    ensures var k := CheckedSymmetric(Finite(v), Finite(range), center, max).value;
            var bound := 1.5 * range / center as real;
            -bound <= DecodeSymmetric(k, range, max) - v <= bound
  {
    var k := CheckedSymmetric(Finite(v), Finite(range), center, max).value;
    var w := DecodeSymmetric(k, range, max);
    var x, y := SymmetricScale(v, range, center), SymmetricScale(w, range, center);
    DecodedScale(k, range, center, max);
    RoundNear(x);
    Fraction(k, max);
    assert -1.5 <= y - x <= 1.5;
    ScaleBack(v, w, range, center);
  }

  lemma Fraction(k: nat, max: nat)
    requires k <= max && max > 0
    ensures 0.0 <= k as real / max as real <= 1.0
  {
    var t := k as real / max as real;
    assert t * max as real == k as real;
    Cancel(t, 1.0, max as real);
  }

  /** A distance of 1.5 on the code scale is 1.5 * range / center in the quantity. */
  lemma ScaleBack(v: real, w: real, range: real, center: nat)
    requires range > 0.0 && center > 0
    requires -1.5 <= SymmetricScale(w, range, center) - SymmetricScale(v, range, center) <= 1.5
    ensures var bound := 1.5 * range / center as real; -bound <= w - v <= bound
  {
    var c := center as real;
    var d := w / range - v / range;
    var b := 1.5 / c;
    assert d * c == SymmetricScale(w, range, center) - SymmetricScale(v, range, center);
    assert b * c == 1.5;
    Cancel(d, b, c);
    Cancel(-b, d, c);
    assert d * range == w - v;
    MulMonotone(d, b, range);
    MulMonotone(-b, d, range);
    assert b * range == 1.5 * range / c;
  }

  /** Encoding a decoded code gives the code back exactly in the lower half of the scale; in the upper
      half it comes back one lower. */
  lemma CodeRoundTrip(k: nat, range: real, center: nat, max: nat)
    requires range > 0.0 && max == 2 * center + 1 && k <= max < 0x1_0000
    ensures var r := CheckedSymmetric(Finite(DecodeSymmetric(k, range, max)), Finite(range), center, max);
            r == Success(if k <= center then k else k - 1)
  {
    var v := DecodeSymmetric(k, range, max);
    var t := k as real / max as real;
    DecodedScale(k, range, center, max);
    Fraction(k, max);
    assert t * max as real == k as real;
    if k <= center {
      HalfBelow(k, max);
      RoundTo(SymmetricScale(v, range, center), k);
      CodeAccepts(SymmetricScale(v, range, center), max);
    } else {
      HalfAbove(k, max);
      RoundTo(SymmetricScale(v, range, center), k - 1);
      CodeAccepts(SymmetricScale(v, range, center), max);
    }
  }

  lemma HalfBelow(k: nat, max: nat)
    requires 2 * k < max
    ensures k as real / max as real < 0.5
  {
    var t := k as real / max as real;
    assert t * max as real == k as real;
    if t >= 0.5 {
      MulMonotone(0.5, t, max as real);
    }
  }

  lemma HalfAbove(k: nat, max: nat)
    requires 0 < max < 2 * k
    ensures k as real / max as real > 0.5
  {
    var t := k as real / max as real;
    assert t * max as real == k as real;
    if t <= 0.5 {
      MulMonotone(t, 0.5, max as real);
    }
  }

  // ---------------------------------------------------------------------------------------------
  // Scaled integers
  // ---------------------------------------------------------------------------------------------

  /** A scaled value is recovered to within half a step. */
  lemma ScaledError(v: real, scale: real, n: int)
    requires scale > 0.0 && n == Round(Scaled(v, scale))
    ensures -(0.5 / scale) <= n as real / scale - v <= 0.5 / scale
  {
    RoundNear(v * scale);
    var d := n as real / scale - v;
    assert d * scale == n as real - v * scale;
    var h := 0.5 / scale;
    assert h * scale == 0.5;
    Cancel(d, h, scale);
    Cancel(-h, d, scale);
  }

  /** Exactly which values the unsigned scaler accepts. */
  lemma U16Accepts(v: real, scale: real, max: nat)
    ensures CheckedU16Scaled(Finite(v), scale, max).Success? <==> -0.5 < v * scale < max as real + 0.5
  {
    RoundInRange(Scaled(v, scale), max);
  }

  /** Exactly which values the signed scaler accepts. */
  lemma I16Accepts(v: real, scale: real)
    ensures CheckedI16Scaled(Finite(v), scale).Success? <==> -32768.5 < v * scale < 32767.5
  {
    RoundInSignedRange(Scaled(v, scale), -0x8000, 0x7FFF);
  }

  /** A gain is recovered from its code to within half a step. */
  lemma GainError(v: real, maxValue: real, maxRaw: nat)
    requires maxValue > 0.0 && maxRaw > 0
    requires CheckedPvtGain(Finite(v), Finite(maxValue), maxRaw).Success?
    ensures var k := CheckedPvtGain(Finite(v), Finite(maxValue), maxRaw).value;
            var half := 0.5 / (maxRaw as real / maxValue);
            k <= maxRaw && -half <= k as real / (maxRaw as real / maxValue) - v <= half
  {
    var scale := maxRaw as real / maxValue;
    assert scale > 0.0 by {
      assert scale * maxValue == maxRaw as real;
    }
    assert GainScale(v, maxValue, maxRaw) == Scaled(v, scale);
    ScaledError(v, scale, CheckedPvtGain(Finite(v), Finite(maxValue), maxRaw).value);
  }
}
