// Block floating point: the packer's encoding of sixteen values with a shared exponent, and the unpacker's decoding
// (src/tensix.cpp).
module Bfp {
  import opened FloatRounding

  // ---------- Values ----------

  // A bfloat16. Exponent 255 is an extended normal here.
  datatype Bf16 = Bf16(neg: bool, e: nat, m: nat)

  predicate Bf16Ok(x: Bf16) {
    x.e < 256 && x.m < 128
  }

  function Sign(neg: bool, n: nat): int {
    if neg then 0 - n else n
  }

  function Mantissa(x: Bf16): nat {
    if x.e != 0 then 128 + x.m else x.m
  }

  // The value in units of 2^-134. A subnormal has the exponent of the least normal.
  function Magnitude(x: Bf16): nat {
    Mantissa(x) * Pow2(if x.e != 0 then x.e else 1)
  }

  function Value(x: Bf16): int {
    Sign(x.neg, Magnitude(x))
  }

  // What a 7-bit magnitude q means under shared exponent E, in the same units.
  function Scaled(q: nat, E: nat): nat {
    q * Pow2(E + 1)
  }

  // ---------- What reaches the encoder ----------

  // The conversions with a block-floating-point destination: from 16-bit Dest as fp16, bf16 or bfp8, and from 32-bit
  // Dest as fp32 (cut to bf16 late) or bfp8 (rounded early). A datum the edge mask drops is zero.
  datatype Route = Half | Plain | Rounded | Late | Early | Masked

  // STACC_RELU_ApplyRelu: off, zero, zero at or below the threshold, clip at the threshold.
  datatype Relu = Off | Zero | Below(threshold: nat) | Clip(threshold: nat)

  const SIGN16: nat := 0x8000
  const SIGN32: nat := 0x8000_0000

  // ReLU on a 16-bit value.
  function Relu16(v: nat, relu: Relu): nat {
    match relu
    case Off => v
    case Zero => if v >= SIGN16 then 0 else v
    case Below(t) => if v >= SIGN16 || v <= t then 0 else v
    case Clip(t) => if v >= SIGN16 then 0 else if v > t then t else v
  }

  function Relu32(v: nat, relu: Relu): nat {
    match relu
    case Off => v
    case Zero => if v >= SIGN32 then 0 else v
    case Below(t) => if v >= SIGN32 || v <= 0x1_0000 * t then 0 else v
    case Clip(t) => if v >= SIGN32 then 0 else if v / 0x2000 > 0x1_0000 * t / 0x2000 then 0x1_0000 * t else v
  }

  // A NaN becomes the infinity of its sign.
  function NoNan(v: nat, sign: nat, most: nat, inf: nat): nat
    requires sign > 0
  {
    if v % sign > most then v / sign * sign + inf else v
  }

  // What is below the least normal becomes +0.
  function NoSubnormal(v: nat, least: nat): nat {
    if v % SIGN16 < least then 0 else v
  }

  // A nonzero half keeps its sign and its fraction's top seven bits, with the exponent rebiased.
  function FromHalf(v: nat): nat {
    if v / 1024 % 32 == 0 then 0
    else (if v >= SIGN16 then SIGN16 else 0) + (v / 1024 % 32 + 112) * 128 + v % 1024 / 8
  }

  // A threshold the packer takes: not negative, and for a clip not subnormal, unless the flush comes after it.
  predicate ReluOk(route: Route, relu: Relu) {
    match relu
    case Off => true
    case Zero => true
    case Below(t) => t < SIGN16
    case Clip(t) => t < SIGN16 && (route.Late? || t == 0 || t >= if route.Half? then 0x400 else 0x80)
  }

  // The word one datum leaves in the encoder's buffer, or nothing where the packer refuses the configuration.
  function Buffered(route: Route, v: nat, raw: bool, relu: Relu): (r: Option<nat>)
    requires v < if route.Late? || route.Early? then 0x1_0000_0000 else 0x1_0000
  {
    if route.Masked? then Some(0)
    else if (raw && !route.Late?) || !ReluOk(route, relu) then None
    else
      Some(match route
           case Half => FromHalf(Relu16(NoSubnormal((NoNan(v, SIGN16, 0x7FF7, 0x7FF0) + 8) / 16 * 16, 0x400), relu))
           case Plain => Relu16(NoSubnormal(NoNan(v, SIGN16, 0x7F80, 0x7F80), 0x80), relu)
           case Rounded => Relu16(NoSubnormal((NoNan(v, SIGN16, 0x7F80, 0x7F80) + 1) / 2 * 2, 0x80), relu)
           case Late => NoSubnormal(Relu32(v, relu) / 0x1_0000, 0x80)
           case Early => Relu16(NoSubnormal((NoNan(v, SIGN32, 0x7F80_0000, 0x7F80_0000) / 0x1_0000 + 1) / 2 * 2, 0x80), relu)
           case Masked => 0)
  }

  datatype Option<T> = None | Some(value: T)

  function Fields(v: nat): Bf16 {
    Bf16(v / SIGN16 % 2 == 1, v / 128 % 256, v % 128)
  }

  // A normal number or +0.
  predicate Flushed(x: Bf16) {
    Bf16Ok(x) && (x.e == 0 ==> x == Bf16(false, 0, 0))
  }

  // Whatever the Dest word, the route and the ReLU, the encoder gets no subnormal and no negative zero.
  lemma EncoderGetsNoSubnormal(route: Route, v: nat, raw: bool, relu: Relu)
    requires v < if route.Late? || route.Early? then 0x1_0000_0000 else 0x1_0000
    ensures var b := Buffered(route, v, raw, relu); b.Some? ==> b.value < 0x1_0000 && Flushed(Fields(b.value))
  {
    var b := Buffered(route, v, raw, relu);
    BufferedBig(route, v, raw, relu);
    hide Buffered, Flushed, Fields, Big;
    if b.Some? {
      BigIsFlushed(b.value);
    }
  }

  // Zero, or a word with a nonzero exponent.
  predicate Big(w: nat) {
    w == 0 || 0x80 <= w % 0x8000 <= w < 0x1_0000
  }

  lemma BufferedBig(route: Route, v: nat, raw: bool, relu: Relu)
    requires v < if route.Late? || route.Early? then 0x1_0000_0000 else 0x1_0000
    ensures var b := Buffered(route, v, raw, relu); b.Some? ==> Big(b.value)
  {
    hide Big, FromHalf, Relu16, Relu32, NoSubnormal, NoNan, ReluOk;
    match route
    case Half => HalfBig(v, relu);
    case Plain => FullBig(NoNan(v, SIGN16, 0x7F80, 0x7F80), route, relu) by { NoNanFits(v); }
    case Rounded => FullBig((NoNan(v, SIGN16, 0x7F80, 0x7F80) + 1) / 2 * 2, route, relu) by { NoNanFits(v); }
    case Late => LateBig(v, relu);
    case Early =>
      FullBig((NoNan(v, SIGN32, 0x7F80_0000, 0x7F80_0000) / 0x1_0000 + 1) / 2 * 2, route, relu) by { EarlyFits(v); }
    case Masked => ZeroBig();
  }

  lemma ZeroBig()
    ensures Big(0)
  {
  }

  lemma NoNanFits(v: nat)
    requires v < 0x1_0000
    ensures (NoNan(v, SIGN16, 0x7F80, 0x7F80) + 1) / 2 * 2 < 0x1_0000 && NoNan(v, SIGN16, 0x7F80, 0x7F80) < 0x1_0000
  {
  }

  lemma EarlyFits(v: nat)
    requires v < 0x1_0000_0000
    ensures (NoNan(v, SIGN32, 0x7F80_0000, 0x7F80_0000) / 0x1_0000 + 1) / 2 * 2 < 0x1_0000
  {
  }

  lemma FullBig(w: nat, route: Route, relu: Relu)
    requires w < 0x1_0000 && !route.Half? && !route.Late?
    ensures ReluOk(route, relu) ==> Big(Relu16(NoSubnormal(w, 0x80), relu))
  {
  }

  lemma LateBig(v: nat, relu: Relu)
    requires v < 0x1_0000_0000
    ensures ReluOk(Late, relu) ==> Big(NoSubnormal(Relu32(v, relu) / 0x1_0000, 0x80))
  {
  }

  lemma HalfBig(v: nat, relu: Relu)
    requires v < 0x1_0000
    ensures ReluOk(Half, relu) ==>
      Big(FromHalf(Relu16(NoSubnormal((NoNan(v, SIGN16, 0x7FF7, 0x7FF0) + 8) / 16 * 16, 0x400), relu)))
  {
  }

  lemma BigIsFlushed(w: nat)
    requires Big(w)
    ensures w < 0x1_0000 && Flushed(Fields(w))
  {
  }

  // ---------- Encoding ----------

  // The magnitude rounded to 7 bits, half up, and saturated.
  function Round7(x: Bf16, E: nat): (q: nat)
    requires Bf16Ok(x) && x.e <= E
    ensures q < 128
  {
    var shift := E - x.e;
    if shift >= 8 then 0
    else
      var q := Shifted(Mantissa(x), shift);
      if q == 128 then 127 else q
  }

  function Shifted(m: nat, shift: nat): (q: nat)
    requires m < 256
    ensures q <= 128
  {
    assert (m + Pow2(shift)) / Pow2(shift + 1) <= 128 by { ShiftedBound(m, shift); }
    (m + Pow2(shift)) / Pow2(shift + 1)
  }

  lemma ShiftedBound(m: nat, shift: nat)
    requires m < 256
    ensures 0 <= (m + Pow2(shift)) / Pow2(shift + 1) <= 128
  {
    var w := Pow2(shift);
    assert Pow2(shift + 1) == 2 * w;
    DivBelow(m + w, 129, 2 * w);
  }

  // The code: the magnitude cut to bits - 1 bits under the sign, which a zero magnitude does not take.
  predicate BitsOk(bits: nat) {
    bits == 8 || bits == 4 || bits == 2
  }

  function SignBit(bits: nat): nat {
    if bits == 8 then 128 else if bits == 4 then 8 else 2
  }

  // A 7-bit magnitude cut to bits - 1 bits, and a code shifted up to eight.
  function Narrow(q: nat, bits: nat): nat {
    if bits == 8 then q else if bits == 4 then q / 16 else q / 64
  }

  function Widen(code: nat, bits: nat): nat {
    if bits == 8 then code else if bits == 4 then 16 * code else 64 * code
  }

  function Pack(x: Bf16, E: nat, bits: nat): (code: nat)
    requires Bf16Ok(x) && x.e <= E && BitsOk(bits)
    ensures code < Pow2(bits)
  {
    var q := Narrow(Round7(x, E), bits);
    CodeFits(bits);
    if x.neg && q != 0 then q + SignBit(bits) else q
  }

  lemma CodeFits(bits: nat)
    requires BitsOk(bits)
    ensures Pow2(bits) == 2 * SignBit(bits)
  {
    assert Pow2(2) == 4 && Pow2(4) == 16;
    assert Pow2(8) == 256;
  }

  // The code of a value: its significand, with the hidden bit of a normal one, shifted to the shared exponent, rounded
  // half up and held at 127; cut to 7, 3 or 1 bits; and the sign above them if any is set.
  lemma PackMeaning(x: Bf16, E: nat, bits: nat)
    requires Bf16Ok(x) && x.e <= E && BitsOk(bits)
    ensures var m, w, q := if x.e == 0 then x.m else 128 + x.m, Pow2(E - x.e), Round7(x, E);
      var cut := if bits == 8 then q else if bits == 4 then q / 16 else q / 64;
      && (E - x.e >= 8 ==> q == 0)
      && (E - x.e < 8 ==> q <= 127 && 2 * w * q <= m + w && (q == 127 || m + w < 2 * w * (q + 1)))
      && Pack(x, E, bits) == cut + if x.neg && cut > 0 then (if bits == 8 then 128 else if bits == 4 then 8 else 2) else 0
  {
    hide Shifted, Pow2;
    if E - x.e < 8 {
      ShiftedIs(Mantissa(x), E - x.e);
    }
  }

  lemma ShiftedIs(m: nat, shift: nat)
    requires m < 256
    ensures var w, q := Pow2(shift), Shifted(m, shift);
      && 2 * w * q <= m + w < 2 * w * (q + 1)
      && 2 * w * 127 <= 2 * w * 128
  {
    assert Pow2(shift + 1) == 2 * Pow2(shift);
    hide Pow2;
    Quotients(m + Pow2(shift), 2 * Pow2(shift));
  }

  lemma Quotients(x: nat, d: nat)
    requires d > 0
    ensures d * (x / d) <= x < d * (x / d + 1) && d * 127 <= d * 128
  {
  }

  // ---------- Decoding ----------

  // Leading zeros of a magnitude of 8 bits.
  function Lz(mag: nat): nat
    requires 1 <= mag < 256
    decreases 256 - mag
  {
    if mag >= 128 then 0 else 1 + Lz(2 * mag)
  }

  lemma LzNormal(mag: nat)
    requires 1 <= mag < 256
    ensures 128 <= mag * Pow2(Lz(mag)) < 256
    ensures mag >= 2 ==> Lz(mag) <= 6
  {
    LzShifts(mag);
    if 2 <= mag < 128 {
      LzAtMost(mag);
    }
  }

  lemma {:induction false} LzShifts(mag: nat)
    requires 1 <= mag < 256
    ensures 128 <= mag * Pow2(Lz(mag)) < 256
    decreases 256 - mag
  {
    if mag < 128 {
      LzShifts(2 * mag);
      var n := Lz(2 * mag);
      assert Lz(mag) == n + 1 && Pow2(n + 1) == 2 * Pow2(n);
      hide *;
      assert mag * (2 * Pow2(n)) == 2 * mag * Pow2(n);
    } else {
      assert Pow2(0) == 1;
    }
  }

  lemma LzAtMost(mag: nat)
    requires 2 <= mag < 128
    ensures Lz(mag) <= 6
  {
    if mag < 64 {
      if mag < 32 {
        if mag < 16 {
          if mag < 8 {
            assert mag < 4 ==> Lz(4 * mag) == 1 + Lz(8 * mag);
            assert Lz(2 * mag) == 1 + Lz(4 * mag);
          }
        }
      }
    }
  }

  // A BFP8 code (narrower ones are shifted up to it). The exponent wraps; magnitude zero is +0, or -inf with the sign.
  function Unpack8(code: nat, E: nat): (x: Bf16)
    requires code < 256 && E < 256
    ensures Bf16Ok(x)
  {
    var neg, q := code >= 128, code % 128;
    if q == 0 then Bf16(neg, if neg then 255 else 0, 0)
    else
      LzNormal(2 * q);
      var lz := Lz(2 * q);
      Bf16(neg, (E - lz) % 256, 2 * q * Pow2(lz) - 128)
  }

  function Unpack(code: nat, E: nat, bits: nat): (x: Bf16)
    requires BitsOk(bits) && code < 2 * SignBit(bits) && E < 256
    ensures Bf16Ok(x)
  {
    Unpack8(Widen(code, bits), E)
  }

  // A zero magnitude is zero, or with the sign bit minus infinity.
  lemma ZeroMeaning(E: nat, bits: nat)
    requires BitsOk(bits) && E < 256
    ensures Unpack(0, E, bits) == Bf16(false, 0, 0)
    ensures Unpack(if bits == 8 then 128 else if bits == 4 then 8 else 2, E, bits) == Bf16(true, 255, 0)
  {
  }

  // ---------- Decoding is exact above the wrap ----------

  lemma NormalizedValue(q: nat, lz: nat, E: nat)
    requires lz <= E
    ensures 2 * q * Pow2(lz) * Pow2(E - lz) == Scaled(q, E)
  {
    Pow2Add(lz, E - lz);
    assert Pow2(E + 1) == 2 * Pow2(E);
    hide Pow2;
    Assoc(2 * q, Pow2(lz), Pow2(E - lz));
    Assoc(q, 2, Pow2(E));
  }

  lemma Assoc(a: nat, b: nat, c: nat)
    ensures a * b * c == a * (b * c)
  {
  }

  // A nonzero magnitude decodes to what it means exactly when the shared exponent exceeds its leading zeros; with
  // less the exponent wraps or the result turns subnormal.
  lemma UnpackExactly(code: nat, E: nat)
    requires code < 256 && E < 256 && code % 128 != 0
    ensures Value(Unpack8(code, E)) == Sign(code >= 128, Scaled(code % 128, E)) <==> E > Lz(2 * (code % 128))
  {
    var q := code % 128;
    var lz := Lz(2 * q);
    var x := Unpack8(code, E);
    LzNormal(2 * q);
    var mant := 2 * q * Pow2(lz);
    if lz < E {
      assert x.e == E - lz && Mantissa(x) == mant;
      NormalizedValue(q, lz, E);
    } else if lz == E {
      NormalizedValue(q, lz, E);
      assert Pow2(0) == 1 && Pow2(1) == 2;
      assert x.e == 0 && Magnitude(x) == 2 * (mant - 128) && Scaled(q, E) == mant;
    } else {
      assert x.e == 256 + E - lz;
      WrappedIsLarge(q, lz, E, mant, x);
    }
  }

  lemma WrappedIsLarge(q: nat, lz: nat, E: nat, mant: nat, x: Bf16)
    requires 1 <= q < 128 && E < lz <= 6 && 128 <= mant < 256 && x.e == 256 + E - lz && Mantissa(x) == mant
    ensures Magnitude(x) > Scaled(q, E)
  {
    Pow2Mono(E + 1, x.e);
    hide Pow2, Mantissa;
    LessTimes(q, Pow2(E + 1), mant, Pow2(x.e));
  }

  lemma LessTimes(a: nat, x: nat, b: nat, y: nat)
    requires a < b && 0 < x <= y
    ensures a * x < b * y
  {
    assert a * x <= a * y;
    assert a * y < b * y;
  }

  // ---------- Rounding error ----------

  function Apart(a: nat, b: nat): nat {
    if a < b then b - a else a - b
  }

  // Half-up rounding is within half a unit, and saturating 127.5 to 127 is too.
  lemma RoundHalf(m: nat, shift: nat, q: nat)
    requires m < 256 && (q == Shifted(m, shift) || (Shifted(m, shift) == 128 && q == 127))
    ensures Apart(m, q * Pow2(shift + 1)) <= Pow2(shift)
  {
    var w := Pow2(shift);
    assert Pow2(shift + 1) == 2 * w;
    var r := Shifted(m, shift);
    assert m + w == 2 * w * r + (m + w) % (2 * w);
    assert r * (2 * w) == 2 * w * r;
    if r == 128 {
      assert 255 * w <= m;
      assert w == 1;
    }
  }

  lemma ScaleApart(m: nat, n: nat, w: nat, c: nat)
    requires Apart(m, n) <= c
    ensures Apart(m * w, n * w) <= c * w
  {
    if m < n {
      assert (n - m) * w == n * w - m * w;
      assert (n - m) * w <= c * w;
    } else {
      assert (m - n) * w == m * w - n * w;
      assert (m - n) * w <= c * w;
    }
  }

  lemma NearError(m: nat, q: nat, shift: nat, e: nat)
    requires Apart(m, q * Pow2(shift + 1)) <= Pow2(shift)
    ensures Apart(m * Pow2(e), Scaled(q, shift + e)) <= Pow2(shift + e)
  {
    Pow2Add(shift, e);
    Pow2Add(shift + 1, e);
    ScaleApart(m, q * Pow2(shift + 1), Pow2(e), Pow2(shift));
    Assoc(q, Pow2(shift + 1), Pow2(e));
    hide Pow2, Apart;
    assert shift + 1 + e == shift + e + 1;
  }

  lemma FarError(m: nat, shift: nat, e: nat)
    requires m < 256 && shift >= 8
    ensures Apart(m * Pow2(e), Scaled(0, shift + e)) <= Pow2(shift + e)
  {
    Pow2Add(shift, e);
    Pow2Mono(8, shift);
    assert Pow2(8) == 256;
    hide Pow2;
    LessTimes(m, Pow2(e), Pow2(shift), Pow2(e));
    assert Scaled(0, shift + e) == 0;
  }

  // A normal number is within 2^E of what its 7-bit code means.
  lemma NormalError(x: Bf16, E: nat)
    requires Bf16Ok(x) && 0 < x.e <= E
    ensures Apart(Magnitude(x), Scaled(Round7(x, E), E)) <= Pow2(E)
  {
    var shift := E - x.e;
    hide Pow2, Scaled, Shifted, Apart;
    if shift < 8 {
      RoundHalf(Mantissa(x), shift, Round7(x, E));
      NearError(Mantissa(x), Round7(x, E), shift, x.e);
    } else {
      FarError(Mantissa(x), shift, x.e);
    }
  }

  lemma {:induction false} LzMost(mag: nat, n: nat)
    requires 1 <= mag < 256 && 128 <= mag * Pow2(n)
    ensures Lz(mag) <= n
    decreases 256 - mag
  {
    if mag < 128 {
      assert n > 0 && Pow2(n) == 2 * Pow2(n - 1);
      assert 2 * mag * Pow2(n - 1) == mag * (2 * Pow2(n - 1));
      LzMost(2 * mag, n - 1);
    }
  }

  // A normal mantissa that is not shifted out keeps its top bit within the shift.
  lemma SurvivorIsHigh(m: nat, shift: nat)
    requires 128 <= m < 256 && shift < 8
    ensures Shifted(m, shift) >= 1 && 128 <= 2 * Shifted(m, shift) * Pow2(shift)
  {
    var w := Pow2(shift);
    assert Pow2(shift + 1) == 2 * w;
    if shift == 7 {
      assert Pow2(7) == 128;
      hide Pow2;
      assert w == 128 && Shifted(m, shift) == (m + 128) / 256 == 1;
    } else {
      var k := Pow2(6 - shift);
      Pow2Add(6 - shift, shift);
      assert Pow2(6) == 64;
      hide Pow2;
      AtLeast(m, w, k, Shifted(m, shift));
    }
  }

  lemma AtLeast(m: nat, w: nat, k: nat, q: nat)
    requires w > 0 && k > 0 && k * w == 64 && m >= 128 && q == (m + w) / (2 * w)
    ensures q >= 1 && 128 <= 2 * q * w
  {
    assert m + w == 2 * w * q + (m + w) % (2 * w);
    assert q >= k;
    assert q * w >= k * w;
  }

  // A nonzero code of a normal number has fewer leading zeros than the shared exponent.
  lemma CodeIsHigh(x: Bf16, E: nat)
    requires Bf16Ok(x) && 0 < x.e <= E && Round7(x, E) > 0
    ensures Lz(2 * Round7(x, E)) < E
  {
    var shift := E - x.e;
    SurvivorIsHigh(Mantissa(x), shift);
    if Round7(x, E) == 127 {
      assert Lz(254) == 0;
    } else {
      hide Shifted;
      LzMost(2 * Round7(x, E), shift);
    }
  }

  lemma ZeroRounds(E: nat)
    ensures Round7(Bf16(false, 0, 0), E) == 0
  {
    if E < 8 {
      assert Pow2(E + 1) == 2 * Pow2(E);
      DivBelow(Pow2(E), 1, 2 * Pow2(E));
    }
  }

  // Packing and unpacking one value: zero stays zero, and a nonzero code decodes exactly, under any shared exponent.
  lemma RoundTripValue(x: Bf16, E: nat)
    requires Flushed(x) && x.e <= E < 256
    ensures Value(Unpack(Pack(x, E, 8), E, 8)) == Sign(x.neg, Scaled(Round7(x, E), E))
  {
    var q := Round7(x, E);
    PackedCode(x, E);
    ZeroRounds(E);
    hide Round7, Unpack8, Value, Scaled, Lz, Pow2, Pack, Unpack;
    if q != 0 {
      CodeIsHigh(x, E);
      UnpackExactly(Pack(x, E, 8), E);
    } else {
      ZeroCode(E);
    }
  }

  lemma PackedCode(x: Bf16, E: nat)
    requires Bf16Ok(x) && x.e <= E < 256
    ensures var q, code := Round7(x, E), Pack(x, E, 8);
            code < 256 && code % 128 == q && (code >= 128 <==> x.neg && q != 0) && Unpack(code, E, 8) == Unpack8(code, E)
  {
    hide Round7, Unpack8, Pow2;
  }

  lemma ZeroCode(E: nat)
    requires E < 256
    ensures Value(Unpack8(0, E)) == 0 && Scaled(0, E) == 0
  {
    assert Mantissa(Unpack8(0, E)) == 0;
    assert 0 * Pow2(1) == 0;
  }

  function Distance(a: int, b: int): nat {
    if a < b then b - a else a - b
  }

  // BFP8 unpack after pack is within 2^(E - 134) of each value the encoder gets, saturation included.
  lemma Bfp8Error(x: Bf16, E: nat)
    requires Flushed(x) && x.e <= E < 256
    ensures Distance(Value(x), Value(Unpack(Pack(x, E, 8), E, 8))) <= Pow2(E)
  {
    RoundTripValue(x, E);
    if x.e > 0 {
      NormalError(x, E);
      hide *;
      SignedDistance(x.neg, Magnitude(x), Scaled(Round7(x, E), E));
      ValueOf(x);
    } else {
      ZeroRounds(E);
      hide Unpack, Pack, Round7, Pow2;
      assert Value(x) == 0 && Scaled(0, E) == 0;
    }
  }

  lemma ValueOf(x: Bf16)
    ensures Value(x) == Sign(x.neg, Magnitude(x))
  {
  }

  lemma SignedDistance(neg: bool, a: nat, b: nat)
    ensures Distance(Sign(neg, a), Sign(neg, b)) == Apart(a, b)
  {
  }

  // Pack never emits a negative zero, which decodes as -inf.
  lemma NoNegativeZero(x: Bf16, E: nat, bits: nat)
    requires Bf16Ok(x) && x.e <= E && BitsOk(bits)
    ensures Pack(x, E, bits) != SignBit(bits)
  {
    var q := Narrow(Round7(x, E), bits);
    assert q < SignBit(bits);
  }

  // ---------- Packing an unpacked block ----------

  // The magnitude of a code, as a 7-bit one.
  function Mag7(code: nat, bits: nat): nat
    requires BitsOk(bits) && code < 2 * SignBit(bits)
  {
    Widen(code, bits) % 128
  }

  predicate Codes(block: seq<nat>, bits: nat) {
    BitsOk(bits) && forall j :: 0 <= j < |block| ==> block[j] < 2 * SignBit(bits)
  }

  // A code as pack leaves it under shared exponent E: no negative zero, and no more leading zeros than E can make up for.
  predicate Fits(code: nat, E: nat, bits: nat)
    requires BitsOk(bits) && code < 2 * SignBit(bits)
  {
    code != SignBit(bits) && (Mag7(code, bits) != 0 ==> Lz(2 * Mag7(code, bits)) < E)
  }

  // A block as pack leaves it: some magnitude has its top bit set, unless the shared exponent is zero.
  predicate Packed(block: seq<nat>, E: nat, bits: nat) {
    && Codes(block, bits)
    && (forall j :: 0 <= j < |block| ==> Fits(block[j], E, bits))
    && (E == 0 || exists j :: 0 <= j < |block| && Mag7(block[j], bits) >= 64)
  }

  function MaxExp(xs: seq<Bf16>): (E: nat)
    requires forall j :: 0 <= j < |xs| ==> Bf16Ok(xs[j])
    ensures E < 256 && forall j :: 0 <= j < |xs| ==> xs[j].e <= E
    ensures if xs == [] then E == 0 else exists j :: 0 <= j < |xs| && xs[j].e == E
  {
    if xs == [] then 0
    else
      var rest := MaxExp(xs[1..]);
      assert Bf16Ok(xs[0]);
      assert forall j :: 1 <= j < |xs| ==> xs[j] == xs[1..][j - 1];
      if xs[0].e > rest then xs[0].e
      else
        assert |xs| == 1 ==> xs[0].e == rest;
        rest
  }

  function PackBlock(xs: seq<Bf16>, bits: nat): (block: seq<nat>)
    requires BitsOk(bits) && forall j :: 0 <= j < |xs| ==> Bf16Ok(xs[j])
    ensures |block| == |xs|
  {
    var E := MaxExp(xs);
    seq(|xs|, j requires 0 <= j < |xs| => Pack(xs[j], E, bits))
  }

  function UnpackBlock(block: seq<nat>, E: nat, bits: nat): (xs: seq<Bf16>)
    requires Codes(block, bits) && E < 256
    ensures |xs| == |block| && forall j :: 0 <= j < |xs| ==> Bf16Ok(xs[j])
  {
    seq(|block|, j requires 0 <= j < |block| => Unpack(block[j], E, bits))
  }

  // From a shared exponent of 7 on, every code without a negative zero fits.
  lemma HighExponentFits(code: nat, E: nat, bits: nat)
    requires BitsOk(bits) && code < 2 * SignBit(bits) && code != SignBit(bits) && E >= 7
    ensures Fits(code, E, bits)
  {
    if Mag7(code, bits) != 0 {
      LzNormal(2 * Mag7(code, bits));
    }
  }

  predicate FlushedBlock(xs: seq<Bf16>) {
    forall j :: 0 <= j < |xs| ==> Flushed(xs[j])
  }

  // Cutting a magnitude to fewer bits adds no leading zeros.
  lemma {:induction false} CutFits(q: nat, cut: nat, E: nat)
    requires 1 <= q < 128 && (cut == q || cut == q / 16 * 16 || cut == q / 64 * 64) && cut > 0
    ensures Lz(2 * cut) <= Lz(2 * q)
  {
    if cut == q {
      return;
    }
    LzNormal(2 * q);
    var n := Lz(2 * q);
    assert Pow2(0) == 1 && Pow2(1) == 2 && Pow2(2) == 4 && Pow2(3) == 8 && Pow2(4) == 16 && Pow2(5) == 32 && Pow2(6) == 64;
    assert 128 <= 2 * cut * Pow2(n) by {
      if n == 0 {
        assert q >= 64;
      } else if n == 1 {
        assert q >= 32;
      } else if n == 2 {
        assert q >= 16;
      } else {
        Pow2Mono(3, n);
        assert cut >= 16;
        assert 2 * cut * Pow2(n) >= 2 * 16 * 8;
      }
    }
    LzMost(2 * cut, n);
  }

  lemma PackFits(x: Bf16, E: nat, bits: nat)
    requires Flushed(x) && x.e <= E && BitsOk(bits)
    ensures Pack(x, E, bits) < 2 * SignBit(bits) && Fits(Pack(x, E, bits), E, bits)
  {
    CodeFits(bits);
    NoNegativeZero(x, E, bits);
    var q := Round7(x, E);
    CutMag(x, E, bits);
    var cut := Mag7(Pack(x, E, bits), bits);
    if cut != 0 {
      ZeroRounds(E);
      CodeIsHigh(x, E);
      CutFits(q, cut, E);
    }
  }

  lemma CutMag(x: Bf16, E: nat, bits: nat)
    requires Bf16Ok(x) && x.e <= E && BitsOk(bits) && Pack(x, E, bits) < 2 * SignBit(bits)
    ensures var q, cut := Round7(x, E), Mag7(Pack(x, E, bits), bits);
      cut == q || cut == q / 16 * 16 || cut == q / 64 * 64
  {
    hide Round7, Pow2, Narrow, Mag7;
    CutOf(Round7(x, E), x.neg, bits);
  }

  lemma CutOf(q: nat, neg: bool, bits: nat)
    requires BitsOk(bits) && q < 128
    ensures var n := Narrow(q, bits);
      var code := if neg && n != 0 then n + SignBit(bits) else n;
      code < 2 * SignBit(bits) && (Mag7(code, bits) == q || Mag7(code, bits) == q / 16 * 16 || Mag7(code, bits) == q / 64 * 64)
  {
    if bits == 8 {
    } else if bits == 4 {
    } else {
    }
  }

  // What pack leaves is a packed block, whatever the shared exponent.
  lemma PackedBlock(xs: seq<Bf16>, bits: nat)
    requires BitsOk(bits) && FlushedBlock(xs)
    ensures Packed(PackBlock(xs, bits), MaxExp(xs), bits)
  {
    var E := MaxExp(xs);
    var block := PackBlock(xs, bits);
    forall j | 0 <= j < |block|
      ensures block[j] < 2 * SignBit(bits) && Fits(block[j], E, bits)
    {
      PackFits(xs[j], E, bits);
    }
    if E > 0 {
      var k :| 0 <= k < |xs| && xs[k].e == E;
      TopBit(xs[k], E, bits);
      assert Mag7(block[k], bits) >= 64;
    }
  }

  lemma TopBit(x: Bf16, E: nat, bits: nat)
    requires Bf16Ok(x) && x.e == E && E > 0 && BitsOk(bits)
    ensures Pack(x, E, bits) < 2 * SignBit(bits) && Mag7(Pack(x, E, bits), bits) >= 64
  {
    TopRound(x, E);
    hide Round7, Pow2, Widen, Narrow;
    TopCut(Round7(x, E), bits);
    MagIs(Narrow(Round7(x, E), bits), bits);
  }

  lemma TopCut(q: nat, bits: nat)
    requires 64 <= q < 128 && BitsOk(bits)
    ensures 0 < Narrow(q, bits) < SignBit(bits) && Widen(Narrow(q, bits), bits) >= 64
  {
  }

  // The sign bit is no part of a magnitude.
  lemma MagIs(cut: nat, bits: nat)
    requires BitsOk(bits) && cut < SignBit(bits)
    ensures Mag7(cut, bits) == Mag7(cut + SignBit(bits), bits) == Widen(cut, bits)
  {
  }

  lemma TopRound(x: Bf16, E: nat)
    requires Bf16Ok(x) && x.e == E && E > 0
    ensures Round7(x, E) >= 64
  {
    assert Pow2(0) == 1 && Pow2(1) == 2;
    assert Shifted(Mantissa(x), 0) == (Mantissa(x) + 1) / 2;
  }

  lemma Halved(q: nat, w: nat)
    requires w > 0
    ensures (2 * q * w + w) / (2 * w) == q
  {
    assert 2 * w * q == 2 * q * w;
    DivModUnique(2 * q * w + w, 2 * w, q, w);
  }

  // A normalized magnitude repacks to itself.
  lemma RepackMagnitude(q: nat, neg: bool, E: nat)
    requires 1 <= q < 128 && Lz(2 * q) < E < 256
    ensures var x := Unpack8(q + if neg then 128 else 0, E);
            x.neg == neg && x.e <= E && Round7(x, E) == q && (q >= 64 ==> x.e == E)
  {
    var lz := Lz(2 * q);
    var x := Unpack8(q + if neg then 128 else 0, E);
    NormalFields(q, neg, E);
    hide *;
    RoundOf(x, E, lz);
    ShiftBack(q, lz);
    TopIsNormal(q);
  }

  lemma NormalFields(q: nat, neg: bool, E: nat)
    requires 1 <= q < 128 && Lz(2 * q) < E < 256
    ensures var x := Unpack8(q + if neg then 128 else 0, E);
            && Lz(2 * q) <= 6 && x.neg == neg && x.e == E - Lz(2 * q) && Bf16Ok(x)
            && Mantissa(x) == 2 * q * Pow2(Lz(2 * q)) < 256
  {
    LzNormal(2 * q);
    UnpackFields(q, neg, E);
    hide *;
    MantissaOf(Unpack8(q + if neg then 128 else 0, E));
  }

  lemma MantissaOf(x: Bf16)
    ensures x.e != 0 ==> Mantissa(x) == 128 + x.m
  {
  }

  lemma UnpackFields(q: nat, neg: bool, E: nat)
    requires 1 <= q < 128 && Lz(2 * q) < E < 256
    ensures Unpack8(q + if neg then 128 else 0, E) == Bf16(neg, E - Lz(2 * q), 2 * q * Pow2(Lz(2 * q)) - 128)
  {
    hide Lz, Pow2;
    assert (q + if neg then 128 else 0) % 128 == q;
  }

  lemma RoundOf(x: Bf16, E: nat, shift: nat)
    requires Bf16Ok(x) && x.e + shift == E && shift < 8
    ensures Mantissa(x) < 256
    ensures Shifted(Mantissa(x), shift) < 128 ==> Round7(x, E) == Shifted(Mantissa(x), shift)
  {
    hide Shifted;
  }

  lemma ShiftBack(q: nat, lz: nat)
    requires 2 * q * Pow2(lz) < 256
    ensures Shifted(2 * q * Pow2(lz), lz) == q
  {
    assert Pow2(lz + 1) == 2 * Pow2(lz);
    Halved(q, Pow2(lz));
    hide Pow2;
  }

  lemma TopIsNormal(q: nat)
    requires 1 <= q < 128
    ensures q >= 64 ==> Lz(2 * q) == 0
  {
  }

  // A code is its magnitude over its sign bit.
  lemma CodeParts(code: nat, bits: nat)
    requires BitsOk(bits) && code < 2 * SignBit(bits)
    ensures var q := Mag7(code, bits);
            var neg := Widen(code, bits) >= 128;
            && Widen(code, bits) == q + (if neg then 128 else 0)
            && code == Narrow(q, bits) + (if neg then SignBit(bits) else 0)
            && (q == 0 ==> code == 0 || code == SignBit(bits)) && (q != 0 ==> Narrow(q, bits) != 0)
  {
    if bits == 8 {
    } else if bits == 4 {
    } else {
    }
  }

  lemma RepackOne(code: nat, E: nat, bits: nat)
    requires BitsOk(bits) && code < 2 * SignBit(bits) && Fits(code, E, bits) && E < 256
    ensures var x := Unpack(code, E, bits);
            x.e <= E && Pack(x, E, bits) == code && (Mag7(code, bits) >= 64 ==> x.e == E)
  {
    CodeParts(code, bits);
    var q := Mag7(code, bits);
    if q == 0 {
      ZeroRounds(E);
      hide Round7, Mag7;
      assert Unpack(code, E, bits) == Bf16(false, 0, 0);
    } else {
      RepackMagnitude(q, Widen(code, bits) >= 128, E);
      hide Unpack8, Round7, Mag7;
    }
  }

  // Packing the values of a packed block gives the block and its exponent back, bit for bit, in all three widths.
  lemma RepackBlock(block: seq<nat>, E: nat, bits: nat)
    requires Packed(block, E, bits) && E < 256
    ensures MaxExp(UnpackBlock(block, E, bits)) == E
    ensures PackBlock(UnpackBlock(block, E, bits), bits) == block
  {
    var xs := UnpackBlock(block, E, bits);
    forall j | 0 <= j < |block|
      ensures xs[j].e <= E && Pack(xs[j], E, bits) == block[j] && (Mag7(block[j], bits) >= 64 ==> xs[j].e == E)
    {
      RepackOne(block[j], E, bits);
    }
    hide Pack, Unpack, Mag7, Fits;
    TopIsMax(xs, E);
    if E > 0 {
      var k :| 0 <= k < |block| && Mag7(block[k], bits) >= 64;
      assert xs[k].e == E;
    }
  }

  lemma TopIsMax(xs: seq<Bf16>, E: nat)
    requires forall j :: 0 <= j < |xs| ==> Bf16Ok(xs[j]) && xs[j].e <= E
    ensures MaxExp(xs) <= E && forall j :: 0 <= j < |xs| ==> xs[j].e <= MaxExp(xs)
  {
  }

  // So whatever the encoder gets: its block unpacks and repacks to itself, and in BFP8 every value is within half a unit.
  lemma BlockRoundTrip(xs: seq<Bf16>, bits: nat)
    requires BitsOk(bits) && FlushedBlock(xs)
    ensures var E, block := MaxExp(xs), PackBlock(xs, bits);
      && Codes(block, bits)
      && PackBlock(UnpackBlock(block, E, bits), bits) == block && MaxExp(UnpackBlock(block, E, bits)) == E
      && (bits == 8 ==> forall j :: 0 <= j < |xs| ==> Distance(Value(xs[j]), Value(UnpackBlock(block, E, bits)[j])) <= Pow2(E))
  {
    var E, block := MaxExp(xs), PackBlock(xs, bits);
    PackedBlock(xs, bits);
    RepackBlock(block, E, bits);
    if bits == 8 {
      hide Value, Distance, Packed, Pack, Unpack, Pow2;
      forall j | 0 <= j < |xs|
        ensures Distance(Value(xs[j]), Value(UnpackBlock(block, E, bits)[j])) <= Pow2(E)
      {
        Bfp8Error(xs[j], E);
      }
    }
  }

  // The packer's two loops over the sixteen values it has buffered: the greatest exponent, then the codes.
  method EncodeBlock(xs: seq<Bf16>, bits: nat) returns (E: nat, block: seq<nat>)
    requires BitsOk(bits) && forall j :: 0 <= j < |xs| ==> Bf16Ok(xs[j])
    ensures E == MaxExp(xs) && block == PackBlock(xs, bits)
  {
    E := 0;
    for j := 0 to |xs|
      invariant E < 256 && forall k :: 0 <= k < j ==> xs[k].e <= E
      invariant E == 0 || exists k :: 0 <= k < j && xs[k].e == E
    {
      if xs[j].e > E {
        E := xs[j].e;
      }
    }
    block := [];
    for j := 0 to |xs|
      invariant |block| == j && forall k :: 0 <= k < j ==> block[k] == Pack(xs[k], E, bits)
    {
      var x := xs[j];
      var m := Mantissa(x);
      var shift := E - x.e;
      if shift >= 8 {
        m := 0;
      } else {
        m := Shifted(m, shift);
        if m == 128 {
          m := 127;
        }
      }
      m := Narrow(m, bits);
      if m != 0 && x.neg {
        m := m + SignBit(bits);
      }
      block := block + [m];
    }
  }

  // ---------- Placement in SRAM ----------

  // A byte holds one, two or four codes, the first one lowest. Place i weighs Weight(i, bits).
  function PerByte(bits: nat): nat
    requires BitsOk(bits)
  {
    if bits == 8 then 1 else if bits == 4 then 2 else 4
  }

  function Weight(i: nat, bits: nat): (w: nat)
    requires BitsOk(bits) && i < PerByte(bits)
    ensures w > 0
  {
    if i == 0 then 1 else if bits == 4 then 16 else if i == 1 then 4 else if i == 2 then 16 else 64
  }

  function GetCode(byte: nat, i: nat, bits: nat): nat
    requires BitsOk(bits) && i < PerByte(bits)
  {
    byte / Weight(i, bits) % (2 * SignBit(bits))
  }

  function PutCode(byte: nat, i: nat, bits: nat, code: nat): (r: int)
    requires BitsOk(bits) && i < PerByte(bits)
  {
    byte - GetCode(byte, i, bits) * Weight(i, bits) + code * Weight(i, bits)
  }

  function Quads(c: seq<nat>): nat
    requires |c| == 4
  {
    c[0] + 4 * c[1] + 16 * c[2] + 64 * c[3]
  }

  lemma QuadPlaces(c: seq<nat>, k: nat)
    requires |c| == 4 && k < 4 && forall i :: 0 <= i < 4 ==> c[i] < 4
    ensures Quads(c) < 256 && GetCode(Quads(c), k, 2) == c[k]
  {
    var b := Quads(c);
    assert b / 4 == c[1] + 4 * c[2] + 16 * c[3] && b / 16 == c[2] + 4 * c[3] && b / 64 == c[3];
  }

  lemma QuadsOf(byte: nat) returns (c: seq<nat>)
    requires byte < 256
    ensures |c| == 4 && byte == Quads(c) && forall i :: 0 <= i < 4 ==> c[i] < 4
  {
    c := [byte % 4, byte / 4 % 4, byte / 16 % 4, byte / 64 % 4];
    assert byte / 16 == byte / 4 / 4 && byte / 64 == byte / 16 / 4;
  }

  lemma PutQuad(c: seq<nat>, i: nat, code: nat)
    requires |c| == 4 && i < 4 && GetCode(Quads(c), i, 2) == c[i]
    ensures PutCode(Quads(c), i, 2, code) == Quads(c[i := code])
  {
    hide GetCode;
    if i == 0 {
    } else if i == 1 {
    } else if i == 2 {
    } else {
    }
  }

  lemma NibblePlaces(lo: nat, hi: nat)
    requires lo < 16 && hi < 16
    ensures GetCode(lo + 16 * hi, 0, 4) == lo && GetCode(lo + 16 * hi, 1, 4) == hi && lo + 16 * hi < 256
  {
    assert (lo + 16 * hi) / 16 == hi;
  }

  lemma PutNibble(byte: nat, i: nat, code: nat, k: nat)
    requires i < 2 && k < 2 && byte < 256 && code < 16
    ensures 0 <= PutCode(byte, i, 4, code) < 256
    ensures GetCode(PutCode(byte, i, 4, code), k, 4) == if k == i then code else GetCode(byte, k, 4)
  {
    var lo, hi := byte % 16, byte / 16;
    NibblePlaces(lo, hi);
    NibblePlaces(if i == 0 then code else lo, if i == 0 then hi else code);
    hide GetCode;
    assert byte == lo + 16 * hi;
  }

  lemma PutGetQuad(byte: nat, i: nat, code: nat, k: nat)
    requires i < 4 && k < 4 && byte < 256 && code < 4
    ensures 0 <= PutCode(byte, i, 2, code) < 256
    ensures GetCode(PutCode(byte, i, 2, code), k, 2) == if k == i then code else GetCode(byte, k, 2)
  {
    hide GetCode, PutCode, Quads;
    var c := QuadsOf(byte);
    QuadPlaces(c, i);
    QuadPlaces(c, k);
    QuadPlaces(c[i := code], k);
    PutQuad(c, i, code);
  }

  // Setting a place changes that code and no other of the byte.
  lemma PutGet(byte: nat, i: nat, bits: nat, code: nat, k: nat)
    requires BitsOk(bits) && i < PerByte(bits) && k < PerByte(bits) && byte < 256 && code < 2 * SignBit(bits)
    ensures 0 <= PutCode(byte, i, bits, code) < 256
    ensures GetCode(PutCode(byte, i, bits, code), k, bits) == if k == i then code else GetCode(byte, k, bits)
  {
    hide GetCode, PutCode;
    if bits == 2 {
      PutGetQuad(byte, i, code, k);
    } else if bits == 4 {
      PutNibble(byte, i, code, k);
    } else {
      PutWhole(byte, code);
    }
  }

  lemma PutWhole(byte: nat, code: nat)
    requires byte < 256 && code < 256
    ensures PutCode(byte, 0, 8, code) == code && GetCode(code, 0, 8) == code
  {
  }

  // The byte of element j of a block, from its first, and the place in it.
  function ByteOf(j: nat, bits: nat): nat
    requires BitsOk(bits)
  {
    if bits == 8 then j else if bits == 4 then j / 2 else j / 4
  }

  function PlaceOf(j: nat, bits: nat): (i: nat)
    requires BitsOk(bits)
    ensures i < PerByte(bits)
  {
    if bits == 8 then 0 else if bits == 4 then j % 2 else j % 4
  }

  lemma PlacesApart(j: nat, k: nat, bits: nat)
    requires BitsOk(bits) && k < j
    ensures ByteOf(k, bits) <= ByteOf(j, bits) && (ByteOf(k, bits) == ByteOf(j, bits) ==> PlaceOf(k, bits) != PlaceOf(j, bits))
  {
  }

  // Element j of the block that starts at byte `at` reads back as its code.
  predicate Holds(sram: seq<nat>, at: nat, block: seq<nat>, bits: nat, j: nat)
    requires BitsOk(bits) && j < |block|
  {
    at + ByteOf(j, bits) < |sram| && GetCode(sram[at + ByteOf(j, bits)], PlaceOf(j, bits), bits) == block[j]
  }

  lemma StoresOne(was: seq<nat>, at: nat, block: seq<nat>, bits: nat, j: nat, k: nat)
    requires Codes(block, bits) && j < |block| && k <= j && at + ByteOf(j, bits) < |was|
    requires was[at + ByteOf(j, bits)] < 256 && (k < j ==> Holds(was, at, block, bits, k))
    ensures var n, i := at + ByteOf(j, bits), PlaceOf(j, bits);
      0 <= PutCode(was[n], i, bits, block[j]) < 256 && Holds(was[n := PutCode(was[n], i, bits, block[j])], at, block, bits, k)
  {
    hide GetCode, PutCode, PerByte, SignBit, ByteOf, PlaceOf;
    var n, i := at + ByteOf(j, bits), PlaceOf(j, bits);
    if k < j {
      PlacesApart(j, k, bits);
    }
    PutGet(was[n], i, bits, block[j], i);
    PutGet(was[n], i, bits, block[j], PlaceOf(k, bits));
  }

  // The bytes of a block: in 4 and 2 bits the first code is lowest.
  predicate LaidOut(sram: seq<nat>, at: nat, block: seq<nat>, bits: nat) {
    match bits
    case 8 => at + |block| <= |sram| && forall n :: at <= n < at + |block| ==> sram[n] == block[n - at]
    case 4 => at + |block| / 2 <= |sram| && forall n :: at <= n < at + |block| / 2 ==>
      sram[n] == block[2 * (n - at)] + 16 * block[2 * (n - at) + 1]
    case _ => at + |block| / 4 <= |sram| && forall n :: at <= n < at + |block| / 4 ==>
      sram[n] == block[4 * (n - at)] + 4 * block[4 * (n - at) + 1] + 16 * block[4 * (n - at) + 2] + 64 * block[4 * (n - at) + 3]
  }

  lemma ByteParts(byte: nat)
    requires byte < 256
    ensures byte == GetCode(byte, 0, 8)
    ensures byte == GetCode(byte, 0, 4) + 16 * GetCode(byte, 1, 4)
  {
    NibblePlaces(byte % 16, byte / 16);
    PutWhole(byte, byte);
    hide GetCode, PutCode;
    assert byte % 16 + 16 * (byte / 16) == byte;
  }

  lemma QuadParts(byte: nat)
    requires byte < 256
    ensures byte == GetCode(byte, 0, 2) + 4 * GetCode(byte, 1, 2) + 16 * GetCode(byte, 2, 2) + 64 * GetCode(byte, 3, 2)
  {
    var a := byte / 4;
    var b := a / 4;
    assert byte / 16 == b && byte / 64 == b / 4;
  }

  lemma HoldsLaysOut(sram: seq<nat>, at: nat, block: seq<nat>, bits: nat)
    requires Codes(block, bits) && (|block| > 0 ==> at + ByteOf(|block| - 1, bits) < |sram|) && at <= |sram|
    requires forall k :: 0 <= k < |sram| ==> sram[k] < 256
    requires forall j: nat :: j < |block| ==> Holds(sram, at, block, bits, j)
    ensures LaidOut(sram, at, block, bits)
  {
    var per := if bits == 8 then 1 else if bits == 4 then 2 else 4;
    forall n, i: nat | at <= n < at + |block| / per && i < per
      ensures per * (n - at) + i < |block| && n < |sram| && GetCode(sram[n], i, bits) == block[per * (n - at) + i]
    {
      PlaceIs(n - at, i, bits);
      assert Holds(sram, at, block, bits, per * (n - at) + i);
    }
    if |block| / per > 0 {
      var n := at + |block| / per - 1;
      assert GetCode(sram[n], 0, bits) == block[per * (n - at) + 0];
    }
    LaysOut(sram, at, block, bits);
  }

  lemma PlaceIs(b: nat, i: nat, bits: nat)
    requires BitsOk(bits) && i < if bits == 8 then 1 else if bits == 4 then 2 else 4
    ensures var j := (if bits == 8 then 1 else if bits == 4 then 2 else 4) * b + i; ByteOf(j, bits) == b && PlaceOf(j, bits) == i
  {
  }

  lemma LaysOut(sram: seq<nat>, at: nat, block: seq<nat>, bits: nat)
    requires BitsOk(bits) && at <= |sram| && forall k :: 0 <= k < |sram| ==> sram[k] < 256
    requires var per := if bits == 8 then 1 else if bits == 4 then 2 else 4;
      && at + |block| / per <= |sram|
      && forall n, i: nat :: at <= n < at + |block| / per && i < per ==>
           per * (n - at) + i < |block| && GetCode(sram[n], i, bits) == block[per * (n - at) + i]
    ensures LaidOut(sram, at, block, bits)
  {
    hide GetCode;
    if bits == 8 {
      forall n | at <= n < at + |block| ensures sram[n] == block[n - at] {
        ByteParts(sram[n]);
        assert GetCode(sram[n], 0, 8) == block[n - at];
      }
    } else if bits == 4 {
      forall n | at <= n < at + |block| / 2 ensures sram[n] == block[2 * (n - at)] + 16 * block[2 * (n - at) + 1] {
        ByteParts(sram[n]);
        assert GetCode(sram[n], 0, 4) == block[2 * (n - at)] && GetCode(sram[n], 1, 4) == block[2 * (n - at) + 1];
      }
    } else {
      forall n | at <= n < at + |block| / 4
        ensures sram[n] == block[4 * (n - at)] + 4 * block[4 * (n - at) + 1] + 16 * block[4 * (n - at) + 2]
                           + 64 * block[4 * (n - at) + 3]
      {
        QuadParts(sram[n]);
        assert GetCode(sram[n], 0, 2) == block[4 * (n - at)] && GetCode(sram[n], 1, 2) == block[4 * (n - at) + 1];
        assert GetCode(sram[n], 2, 2) == block[4 * (n - at) + 2] && GetCode(sram[n], 3, 2) == block[4 * (n - at) + 3];
      }
    }
  }

  // The store loop: each code goes into its place of its byte. Afterwards the block reads back whole, and no byte
  // outside it has changed.
  method StoreBlock(sram: array<nat>, at: nat, block: seq<nat>, bits: nat)
    requires Codes(block, bits) && (|block| > 0 ==> at + ByteOf(|block| - 1, bits) < sram.Length)
    requires forall k :: 0 <= k < sram.Length ==> sram[k] < 256
    modifies sram
    ensures forall k :: 0 <= k < sram.Length ==> sram[k] < 256
    ensures forall j: nat :: j < |block| ==> Holds(sram[..], at, block, bits, j)
    ensures at <= sram.Length ==> LaidOut(sram[..], at, block, bits)
    ensures forall k :: 0 <= k < sram.Length && (k < at || |block| == 0 || k > at + ByteOf(|block| - 1, bits)) ==>
      sram[k] == old(sram[k])
  {
    hide Holds, PutCode, ByteOf, PlaceOf, GetCode, LaidOut;
    for j := 0 to |block|
      invariant forall k :: 0 <= k < sram.Length ==> sram[k] < 256
      invariant forall i: nat :: i < j ==> Holds(sram[..], at, block, bits, i)
      invariant forall k :: 0 <= k < sram.Length && (k < at || |block| == 0 || k > at + ByteOf(|block| - 1, bits)) ==>
        sram[k] == old(sram[k])
    {
      if j < |block| - 1 {
        PlacesApart(|block| - 1, j, bits);
      }
      var n := at + ByteOf(j, bits);
      ghost var was := sram[..];
      StoresOne(was, at, block, bits, j, j);
      sram[n] := PutCode(sram[n], PlaceOf(j, bits), bits, block[j]);
      assert sram[..] == was[n := sram[n]];
      forall k: nat | k <= j
        ensures Holds(sram[..], at, block, bits, k)
      {
        StoresOne(was, at, block, bits, j, k);
      }
    }
    if at <= sram.Length {
      HoldsLaysOut(sram[..], at, block, bits);
    }
  }
}
