// Conversions between floats and integers (src/rv64_fpu.cpp, src/riscv_float.h).
module FloatInteger {
  import opened FloatRounding

  // ---------- Which reals are floats ----------

  ghost predicate Float(f: Fmt, x: real) {
    exists neg, b: nat :: b < Inf(f) && x == Value(f, neg, b)
  }

  lemma ScaleHalve(m: nat, e: int)
    ensures Scale(2 * m, e - 1) == Scale(m, e)
  {
    PNext(e - 1);
    hide P;
    Regroup(2.0, m as real, P(e - 1));
    assert (2 * m) as real == 2.0 * m as real;
  }

  // Any m of at most mb + 1 bits at an exponent of the format is a float.
  lemma {:induction false} Representable(f: Fmt, m: nat, e: int) returns (b: nat)
    requires m < Pow2(f.mb + 1) && 1 - f.bias - f.mb <= e <= f.bias - f.mb && f.bias > 0
    ensures b < Inf(f) && Val(f, b) == Scale(m, e)
    ensures m >= Pow2(f.mb) ==> b == (e + f.bias + f.mb) * Pow2(f.mb) + (m - Pow2(f.mb))
    decreases e - (1 - f.bias - f.mb)
  {
    var M := Pow2(f.mb);
    if m >= M {
      b := NormalPattern(f, m, e);
    } else if e == 1 - f.bias - f.mb {
      b := m;
      DivModUnique(b, M, 0, m);
      InfAbove(f, b, 0);
    } else {
      b := Representable(f, 2 * m, e - 1);
      ScaleHalve(m, e);
    }
  }

  lemma InfAbove(f: Fmt, b: nat, k: nat)
    requires k <= 2 * f.bias && b < k * Pow2(f.mb) + Pow2(f.mb)
    ensures b < Inf(f)
  {
    var M := Pow2(f.mb);
    assert k * M <= 2 * f.bias * M;
    assert (2 * f.bias + 1) * M == 2 * f.bias * M + M;
  }

  lemma NormalPattern(f: Fmt, m: nat, e: int) returns (b: nat)
    requires Pow2(f.mb) <= m < Pow2(f.mb + 1) && 1 - f.bias - f.mb <= e <= f.bias - f.mb
    ensures b == (e + f.bias + f.mb) * Pow2(f.mb) + (m - Pow2(f.mb)) < Inf(f)
    ensures Mant(f, b) == m && Exp(f, b) == e && Val(f, b) == Scale(m, e)
  {
    var M := Pow2(f.mb);
    var k: nat := e + f.bias + f.mb;
    b := k * M + (m - M);
    assert k * M == M * k;
    DivModUnique(b, M, k, m - M);
    InfAbove(f, b, k);
    hide Pow2, Scale;
  }

  lemma PatternIsFloat(f: Fmt, neg: bool, b: nat)
    requires b < Inf(f)
    ensures Float(f, Value(f, neg, b))
  {
  }

  lemma ScaleIsFloat(f: Fmt, m: nat, e: int, neg: bool)
    requires m < Pow2(f.mb + 1) && 1 - f.bias - f.mb <= e <= f.bias - f.mb && f.bias > 0
    ensures Float(f, Signed(neg, Scale(m, e)))
  {
    var b := Representable(f, m, e);
    PatternIsFloat(f, neg, b);
    hide Pow2, Scale, Inf, Val;
  }

  lemma ScaleInt(n: int)
    ensures Scale(n, 0) == n as real
  {
  }

  lemma Pow2Of52()
    ensures Pow2(52) == 0x10_0000_0000_0000 && Pow2(53) == 0x20_0000_0000_0000
    ensures Pow2(23) == 0x80_0000 && Pow2(24) == 0x100_0000
  {
    assert Pow2(13) == 0x2000;
    assert Pow2(12) == 0x1000 && Pow2(11) == 0x800;
    Pow2Add(13, 13);
    Pow2Add(26, 26);
    Pow2Add(12, 11);
  }

  lemma IntIsDouble(n: int)
    requires -0x20_0000_0000_0000 < n < 0x20_0000_0000_0000
    ensures Float(BINARY64, n as real)
  {
    Pow2Of52();
    var m: nat := if n < 0 then -n else n;
    ScaleInt(m);
    ScaleIsFloat(BINARY64, m, 0, n < 0);
    hide Pow2, Scale, Float;
  }

  // The fields of a float: at most mb + 1 bits, at an exponent no lower than the format's least.
  lemma Fields(f: Fmt, x: real) returns (neg: bool, m: nat, e: int)
    requires FmtOk(f) && Float(f, x)
    ensures x == Signed(neg, Scale(m, e)) && m < Pow2(f.mb + 1) && 1 - f.bias - f.mb <= e <= f.bias - f.mb
  {
    hide *;
    var n, b := FloatPattern(f, x);
    MantBound(f, b);
    ExpRange(f, b);
    ValueFields(f, n, b);
    neg, m, e := n, Mant(f, b), Exp(f, b);
  }

  lemma FloatPattern(f: Fmt, x: real) returns (neg: bool, b: nat)
    requires Float(f, x)
    ensures b < Inf(f) && x == Value(f, neg, b)
  {
    hide Inf, Value;
    neg, b :| b < Inf(f) && x == Value(f, neg, b);
  }

  lemma ValueFields(f: Fmt, neg: bool, b: nat)
    ensures Value(f, neg, b) == Signed(neg, Scale(Mant(f, b), Exp(f, b)))
  {
    hide Scale, Mant, Exp;
  }

  lemma ExpRange(f: Fmt, b: nat)
    requires FmtOk(f) && b < Inf(f)
    ensures 1 - f.bias - f.mb <= Exp(f, b) <= f.bias - f.mb
  {
    FieldBelow(f, b);
    hide Pow2, Inf;
    var k := b / Pow2(f.mb);
    assert Exp(f, b) == (if k != 0 then k else 1) - f.bias - f.mb;
  }

  lemma FieldBelow(f: Fmt, b: nat)
    requires b < Inf(f)
    ensures 0 <= b / Pow2(f.mb) < 2 * f.bias + 1
  {
    DivBelow(b, 2 * f.bias + 1, Pow2(f.mb));
  }

  // At exponents from 0 up a float is an integer; below, it is less than 2^mb.
  lemma ScaleSplit(m: nat, e: int, n: nat)
    requires m < Pow2(n + 1)
    ensures e >= 0 ==> Scale(m, e) == Shl(m, e) as real
    ensures e < 0 ==> Scale(m, e) < Pow2(n) as real
    ensures e < 0 ==> Scale(m, e) == Scale(m / Pow2(-e), 0) + Scale(m % Pow2(-e), e)
  {
    if e >= 0 {
      ShlScale(m, e, 0);
      ScaleInt(Shl(m, e));
    } else {
      ScaleBelow(m, e, n);
      var w := Pow2(-e);
      ShlScale(m / w, -e, e);
      assert m == Shl(m / w, -e) + m % w;
      ScaleSum(Shl(m / w, -e), m % w, e);
    }
  }

  lemma ScaleBelow(m: nat, e: int, n: nat)
    requires m < Pow2(n + 1) && e < 0
    ensures Scale(m, e) < Pow2(n) as real
  {
    POrder(e, -1);
    PNext(-1);
    PZero();
    hide P;
    assert P(-1) == 0.5;
    assert m < 2 * Pow2(n);
    hide Pow2;
    HalfOf(m as real, P(e), Pow2(n) as real);
  }

  lemma HalfOf(x: real, p: real, h: real)
    requires x >= 0.0 && 0.0 < p <= 0.5 && x < 2.0 * h
    ensures x * p < h
  {
    assert x * p <= x * 0.5;
  }

  lemma {:induction false} POrder(a: int, b: int)
    requires a <= b
    ensures P(a) <= P(b)
    decreases b - a
  {
    if a < b {
      POrder(a, b - 1);
      PNext(b - 1);
    }
  }

  const TWO52 := 4503599627370496.0

  lemma ScaleNonNegative(m: nat, e: int)
    ensures Scale(m, e) >= 0.0
  {
    if m > 0 {
      ScalePositive(m, e);
    } else {
      assert 0.0 * P(e) == 0.0;
    }
  }

  // A float of 2^mb or more is an integer.
  lemma BigIsWhole(f: Fmt, x: real) returns (n: int)
    requires FmtOk(f) && Float(f, x) && (x <= -(Pow2(f.mb) as real) || x >= Pow2(f.mb) as real)
    ensures x == n as real
  {
    hide Pow2, Scale, Shl, Float, FmtOk;
    var neg, m, e := Fields(f, x);
    ScaleSplit(m, e, f.mb);
    ScaleNonNegative(m, e);
    assert e >= 0;
    n := if neg then 0 - Shl(m, e) else Shl(m, e);
  }

  lemma BigIsInteger(x: real) returns (n: int)
    requires Float(BINARY64, x) && (x <= -TWO52 || x >= TWO52)
    ensures x == n as real
  {
    Pow2Of52();
    n := BigIsWhole(BINARY64, x);
  }

  // The fraction left by truncation is a double, so the subtraction is exact.
  lemma FractionIsDouble(x: real, t: int)
    requires Float(BINARY64, x) && IsTrunc(x, t)
    ensures Float(BINARY64, x - t as real)
  {
    assert FmtOk(BINARY64);
    hide *;
    var neg, m, e := Fields(BINARY64, x);
    assert BINARY64.mb == 52 && BINARY64.bias == 1023 by { Binary64(); }
    if e >= 0 {
      WholeFraction(neg, m, e, x, t);
      IntIsDouble(0);
    } else {
      PartFraction(neg, m, e, x, t);
      PartBelow(m, Pow2(-e));
      ScaleIsFloat(BINARY64, m % Pow2(-e), e, neg);
    }
  }

  lemma Binary64()
    ensures BINARY64.mb == 52 && BINARY64.bias == 1023
  {
  }

  lemma PartBelow(m: nat, w: nat)
    requires w > 0
    ensures 0 <= m % w <= m && m / w >= 0
  {
  }

  lemma WholeFraction(neg: bool, m: nat, e: int, x: real, t: int)
    requires x == Signed(neg, Scale(m, e)) && IsTrunc(x, t) && e >= 0
    ensures x - t as real == 0 as real
  {
    ShlScale(m, e, 0);
    ScaleInt(Shl(m, e));
    hide Shl, Scale;
    TruncOfInt(if neg then 0 - Shl(m, e) else Shl(m, e), t);
  }

  lemma TruncOfInt(n: int, t: int)
    requires IsTrunc(n as real, t)
    ensures t == n
  {
  }

  lemma PartFraction(neg: bool, m: nat, e: int, x: real, t: int)
    requires x == Signed(neg, Scale(m, e)) && IsTrunc(x, t) && e < 0 && m < Pow2(53)
    ensures x - t as real == Signed(neg, Scale(m % Pow2(-e), e))
  {
    ScaleSplit(m, e, 52);
    ScaleInt(m / Pow2(-e));
    FractionBelow(m % Pow2(-e), e);
    PartBelow(m, Pow2(-e));
    hide *;
    TruncUnique(neg, x, m / Pow2(-e), Scale(m % Pow2(-e), e), t);
  }

  lemma TruncUnique(neg: bool, x: real, whole: nat, part: real, t: int)
    requires 0.0 <= part < 1.0 && x == Signed(neg, whole as real + part) && IsTrunc(x, t)
    ensures x - t as real == Signed(neg, part)
  {
    if x == 0.0 {
      assert whole == 0;
    }
    assert t == if neg then 0 - whole else whole;
  }

  lemma FractionBelow(m: nat, e: int)
    requires e < 0 && m < Pow2(-e)
    ensures 0.0 <= Scale(m, e) < 1.0
  {
    PShift(e, -e);
    PZero();
    var x := m as real;
    assert x * P(e) < Pow2(-e) as real * P(e);
  }

  // The conversion of a real to an integer, which drops the fraction.
  predicate IsTrunc(x: real, t: int) {
    if x >= 0.0 then t as real <= x < t as real + 1.0 && t >= 0 else t as real - 1.0 < x <= t as real && t <= 0
  }

  function Trunc(x: real): (t: int)
    ensures IsTrunc(x, t)
  {
    if x >= 0.0 then x.Floor else -((-x).Floor)
  }

  // ---------- Float to integer ----------

  datatype Num = NaN | Infinity(neg: bool) | Finite(x: real)
  datatype Mode = Rne | Rtz | Rdn | Rup | Away

  // n is x rounded to an integer, the rounding modes of section 11.2 of the unprivileged RISC-V specification.
  predicate Rounds(mode: Mode, x: real, n: int) {
    var d := x - n as real;
    match mode
    case Rne => -0.5 <= d <= 0.5 && (d == 0.5 || d == -0.5 ==> n % 2 == 0)
    case Rtz => IsTrunc(x, n)
    case Rdn => 0.0 <= d < 1.0
    case Rup => -1.0 < d <= 0.0
    case Away => -0.5 <= d <= 0.5 && (d == 0.5 ==> x < 0.0) && (d == -0.5 ==> x > 0.0)
  }

  // The rounding is one integer.
  lemma RoundsUnique(mode: Mode, x: real, m: int, n: int)
    requires Rounds(mode, x, m) && Rounds(mode, x, n)
    ensures m == n
  {
    var d := (m - n) as real;
    assert d == m as real - n as real;
  }

  const WORD: nat := 0x1_0000_0000_0000_0000

  function Least(bits: nat, signed: bool): int {
    if !signed then 0 else if bits == 32 then -0x8000_0000 else -0x8000_0000_0000_0000
  }

  function Greatest(bits: nat, signed: bool): int {
    match (bits, signed)
    case (32, true) => 0x7FFF_FFFF
    case (32, false) => 0xFFFF_FFFF
    case (_, true) => 0x7FFF_FFFF_FFFF_FFFF
    case (_, false) => 0xFFFF_FFFF_FFFF_FFFF
  }

  // The register that holds n: two's complement, and a 32-bit result is sign-extended even if unsigned.
  function Register(n: int, bits: nat): nat {
    (if bits == 32 && n >= 0x8000_0000 then n - 0x1_0000_0000 else n) % WORD
  }

  // The result and flags that section 11.7 asks for when the exact rounding is n.
  predicate Converted(x: real, n: int, bits: nat, signed: bool, r: nat, nv: bool, nx: bool) {
    if n < Least(bits, signed) then r == Register(Least(bits, signed), bits) && nv && !nx
    else if n > Greatest(bits, signed) then r == Register(Greatest(bits, signed), bits) && nv && !nx
    else r == Register(n, bits) && !nv && nx == (x != n as real)
  }

  // A 64-bit word cut to 32 bits and sign-extended.
  function Narrowed(v: nat): nat {
    if v % 0x1_0000_0000 >= 0x8000_0000 then v % 0x1_0000_0000 + (WORD - 0x1_0000_0000) else v % 0x1_0000_0000
  }

  function Saturated(bits: nat, signed: bool, neg: bool): nat {
    var sat := if !signed then WORD - 1 else if bits == 32 then 0x7FFF_FFFF else 0x7FFF_FFFF_FFFF_FFFF;
    if neg then WORD - 1 - sat else sat
  }

  lemma SaturatedIsClip(bits: nat, signed: bool)
    requires bits == 32 || bits == 64
    ensures Saturated(bits, signed, true) == Register(Least(bits, signed), bits)
    ensures Saturated(bits, signed, false) == Register(Greatest(bits, signed), bits)
  {
  }

  function Whole(x: real): (n: int)
    requires x == x.Floor as real
    ensures n as real == x
  {
    x.Floor
  }

  lemma IntFloor(n: int)
    ensures (n as real).Floor == n
  {
  }

  // The value rounded to an integer that is still a double. Each operation on doubles here is exact.
  method RoundDouble(x: real, mode: Mode) returns (r: real, frac: real)
    requires Float(BINARY64, x)
    ensures r == r.Floor as real && Rounds(mode, x, r.Floor)
    ensures frac != 0.0 <==> x != r
    ensures x < 0.0 ==> r <= 0.0
    ensures x > 0.0 ==> r >= 0.0
  {
    hide Float, Scale, Pow2;
    r, frac := x, 0.0;
    if -TWO52 < x < TWO52 {
      var t := Trunc(x);
      frac := x - t as real;
      assert Float(BINARY64, frac) by { FractionIsDouble(x, t); }
      r := r - frac;
      assert r == t as real;
      assert Float(BINARY64, r) by { IntIsDouble(t); }
      IntFloor(t);
      var mag := if frac < 0.0 then -frac else frac;
      var away := match mode
        case Rne => mag > 0.5 || (mag == 0.5 && t % 2 == 1)
        case Rdn => frac < 0.0
        case Rup => frac > 0.0
        case Away => mag >= 0.5
        case Rtz => false;
      if away {
        r := r + if frac < 0.0 then -1.0 else 1.0;
        var s := if frac < 0.0 then t - 1 else t + 1;
        assert r == s as real;
        assert Float(BINARY64, r) by { IntIsDouble(s); }
        IntFloor(s);
      }
    } else {
      var n := BigIsInteger(x);
      IntFloor(n);
    }
  }

  method ToInt(v: Num, mode: Mode, bits: nat, signed: bool) returns (r: nat, nv: bool, nx: bool)
    requires v.Finite? ==> Float(BINARY64, v.x)
    requires bits == 32 || bits == 64
    ensures v.Finite? ==> exists n :: Rounds(mode, v.x, n) && Converted(v.x, n, bits, signed, r, nv, nx)
    ensures v.NaN? ==> r == Register(Greatest(bits, signed), bits) && nv && !nx
    ensures v.Infinity? ==> nv && !nx
    ensures v.Infinity? ==> r == Register(if v.neg then Least(bits, signed) else Greatest(bits, signed), bits)
  {
    hide Float;
    nv, nx := false, false;
    SaturatedIsClip(bits, signed);
    if !v.Finite? {
      return Saturated(bits, signed, v.Infinity? && v.neg), true, false;
    }
    var y, frac := RoundDouble(v.x, mode);
    var n := Whole(y);
    var limit := if signed then (if bits == 32 then 2147483648.0 else 9223372036854775808.0)
                 else (if bits == 32 then 4294967296.0 else 18446744073709551616.0);
    if !(y < limit && if signed then y >= -limit else y > -1.0) {
      r, nv := Saturated(bits, signed, y < 0.0), true;
    } else {
      nx := frac != 0.0;
      var word := n % WORD;
      r := if bits == 32 then Narrowed(word) else word;
      if bits == 32 {
        NarrowedIs(n);
      }
    }
    assert Converted(v.x, n, bits, signed, r, nv, nx);
  }

  lemma NarrowedIs(n: int)
    requires -0x8000_0000 <= n < 0x1_0000_0000
    ensures Narrowed(n % WORD) == Register(n, 32)
  {
    assert n % WORD == if n < 0 then n + WORD else n;
  }

  // ---------- Integer to float ----------

  // x lies between two neighbours: the nearer one is the rounding, and the upper one at the midpoint.
  lemma Bracketed(f: Fmt, x: real, b: nat)
    requires Val(f, b) <= x < Val(f, b + 1) && b < Inf(f)
    ensures NearestAway(f, x, if x < Mid(f, b) then b else b + 1)
  {
    hide Val, Inf;
    var r := if x < Mid(f, b) then b else b + 1;
    forall c: nat | c <= Inf(f) && c != r
      ensures FloatRounding.Abs(x - Val(f, r)) < FloatRounding.Abs(x - Val(f, c))
              || (FloatRounding.Abs(x - Val(f, r)) == FloatRounding.Abs(x - Val(f, c)) && c < r)
    {
      if c < b {
        ValMono(f, c, b);
      } else if c > b + 1 {
        ValMono(f, b + 1, c);
      }
    }
  }

  // The operand is the low word or the whole register, read as two's complement or as unsigned.
  lemma SourceMeaning(xr: nat, r2: nat)
    requires xr < WORD && r2 < 4
    ensures var n := Source(xr, r2);
      && (r2 == 0 ==> (n - xr) % 0x1_0000_0000 == 0 && -0x8000_0000 <= n < 0x8000_0000)
      && (r2 == 1 ==> (n - xr) % 0x1_0000_0000 == 0 && 0 <= n < 0x1_0000_0000)
      && (r2 == 2 ==> (n - xr) % 0x1_0000_0000_0000_0000 == 0 && -0x8000_0000_0000_0000 <= n < 0x8000_0000_0000_0000)
      && (r2 == 3 ==> n == xr)
  {
  }

  // The integer operand of FCVT.{S,D}.{W,WU,L,LU}, by the two bits r2 that choose the source type.
  function Source(xr: nat, r2: nat): int
    requires xr < WORD
  {
    var low := xr % 0x1_0000_0000;
    match r2
    case 0 => if low >= 0x8000_0000 then low - 0x1_0000_0000 else low
    case 1 => low
    case 2 => if xr >= 0x8000_0000_0000_0000 then xr - WORD else xr
    case _ => xr
  }

  // x with the bits below the unit cleared.
  function Masked(x: nat, ulp: nat): nat
    requires ulp > 0
  {
    x / ulp * ulp
  }

  // Adding half a unit and clearing the bits below it.
  lemma HalfUp(m: nat, ulp: nat, half: nat, low: nat)
    requires half > 0 && ulp == 2 * half && low == Masked(m, ulp)
    ensures low <= m < low + ulp && m % ulp == m - low
    ensures Masked(m + half, ulp) == if 2 * (m - low) < ulp then low else low + ulp
  {
    var q := m / ulp;
    assert m == ulp * q + m % ulp && ulp * q == q * ulp;
    if m % ulp < half {
      DivModUnique(m + half, ulp, q, m % ulp + half);
    } else {
      assert ulp * (q + 1) == ulp * q + ulp == (q + 1) * ulp;
      DivModUnique(m + half, ulp, q + 1, m % ulp - half);
    }
  }

  lemma WrapIsTop(sum: nat, ulp: nat, k: nat)
    requires 0 < ulp && WORD <= sum < WORD + ulp && WORD == k * ulp
    ensures Masked(sum, ulp) == WORD
  {
    assert ulp * k == k * ulp;
    DivModUnique(sum, ulp, k, sum - WORD);
  }

  // The bits of m from bit drop up.
  function Kept(m: nat, drop: nat): nat {
    Quotient(m, Pow2(drop))
  }

  function Quotient(m: nat, w: nat): nat
    requires w > 0
  {
    m / w
  }

  lemma KeptBounds(m: nat, mb: nat, drop: nat)
    requires Len(m) == mb + 1 + drop
    ensures Pow2(mb) <= Kept(m, drop) < Pow2(mb + 1)
    ensures Shl(Kept(m, drop), drop) <= m < Shl(Kept(m, drop), drop) + Pow2(drop)
    ensures m - Shl(Kept(m, drop), drop) == m % Pow2(drop)
  {
    assert m > 0 by { assert Len(0) == 0; }
    LenBounds(m);
    Pow2Add(mb, drop);
    Pow2Add(mb + 1, drop);
    hide Len, Pow2;
    QuotientBounds(m, Pow2(mb), Pow2(mb + 1), Pow2(drop));
    DivSplit(m, Pow2(drop));
  }

  lemma DivSplit(m: nat, w: nat)
    requires w > 0
    ensures m == m / w * w + m % w && 0 <= m % w < w
  {
  }

  // The two floats around m are its kept bits and one unit more.
  lemma KeptBits(f: Fmt, m: nat, drop: nat) returns (b: nat)
    requires FmtOk(f) && 0 < drop <= 64 && Len(m) == f.mb + 1 + drop
    ensures b < Inf(f) && Val(f, b) == Shl(Kept(m, drop), drop) as real
    ensures Val(f, b + 1) == (Shl(Kept(m, drop), drop) + Pow2(drop)) as real
  {
    KeptBounds(m, f.mb, drop);
    hide Kept, Len, Pow2, Shl, Inf, Mant, Exp;
    var q := Kept(m, drop);
    b := NormalPattern(f, q, drop);
    NextUp(f, b);
    ShlScale(q, drop, 0);
    ScaleInt(Shl(q, drop));
    UnitScale(drop);
    hide Scale;
  }

  lemma UnitScale(n: nat)
    ensures P(n) == Pow2(n) as real
  {
    PShift(0, n);
    PZero();
  }

  lemma QuotientBounds(m: nat, lo: nat, hi: nat, w: nat)
    requires w > 0 && lo * w <= m < hi * w
    ensures lo <= m / w < hi
  {
    assert m == w * (m / w) + m % w;
    MulBound(w, m / w - hi);
    MulBound(w, lo - m / w);
    assert w * (m / w - hi) == w * (m / w) - hi * w;
    assert w * (lo - m / w) == lo * w - w * (m / w);
    if m / w == hi {
      assert false;
    }
  }

  // A magnitude that needs no more than mb + 1 bits is a float as it is.
  lemma ShortIsFloat(f: Fmt, m: nat) returns (b: nat)
    requires FmtOk(f) && Len(m) <= f.mb + 1
    ensures b < Inf(f) && Val(f, b) == m as real
  {
    if m > 0 {
      LenBounds(m);
      Pow2Mono(Len(m), f.mb + 1);
    }
    b := Representable(f, m, 0);
    ScaleInt(m);
    hide Pow2, Val, Inf, Len;
  }

  lemma ExactIsNearest(f: Fmt, x: real, b: nat)
    requires b < Inf(f) && Val(f, b) == x
    ensures NearestAway(f, x, b)
  {
    ValMono(f, b, b + 1);
    Bracketed(f, x, b);
  }

  // Result r is the float nearest to the magnitude m, ties away.
  ghost predicate RoundedTo(f: Fmt, m: nat, r: nat) {
    exists b: nat :: b <= Inf(f) && Val(f, b) == r as real && NearestAway(f, m as real, b)
  }

  lemma RoundedBy(f: Fmt, m: nat, r: nat, b: nat)
    requires b <= Inf(f) && Val(f, b) == r as real && NearestAway(f, m as real, b)
    ensures RoundedTo(f, m, r)
  {
  }

  lemma HalfTest(f: Fmt, m: nat, low: nat, ulp: nat, b: nat)
    requires b < Inf(f) && low <= m < low + ulp
    requires Val(f, b) == low as real && Val(f, b + 1) == (low + ulp) as real
    ensures RoundedTo(f, m, if 2 * (m - low) < ulp then low else low + ulp)
  {
    hide Val, Inf;
    assert (low + ulp) as real == low as real + ulp as real;
    assert 2.0 * m as real - 2.0 * low as real == (2 * (m - low)) as real;
    assert m as real < Mid(f, b) <==> 2 * (m - low) < ulp;
    Bracketed(f, m as real, b);
    hide NearestAway, Mid;
    RoundedBy(f, m, if 2 * (m - low) < ulp then low else low + ulp, if m as real < Mid(f, b) then b else b + 1);
  }

  // Rounds an integer to a float of f, ties away: the sign, the magnitude as the integer it is, and the inexact flag.
  method FromInt(f: Fmt, xr: nat, r2: nat) returns (neg: bool, r: nat, nx: bool)
    requires FmtOk(f) && xr < WORD
    ensures neg == (Source(xr, r2) < 0) && (r2 % 2 == 1 && r2 < 4 ==> !neg)
    ensures RoundedTo(f, if Source(xr, r2) < 0 then -Source(xr, r2) else Source(xr, r2), r)
    ensures nx <==> (r != if Source(xr, r2) < 0 then -Source(xr, r2) else Source(xr, r2))
  {
    var x := Source(xr, r2);
    neg := x < 0;
    var m: nat := if neg then -x else x;
    hide Inf, Val, RoundedTo;
    var len := Len(m);
    LenOfMagnitude(m);
    r, nx := m, false;
    if len > f.mb + 1 {
      var drop: nat := len - (f.mb + 1);
      r, nx := DropBits(f, m, drop);
    } else {
      var b := ShortIsFloat(f, m);
      ExactIsNearest(f, m as real, b);
      RoundedBy(f, m, m, b);
    }
  }

  lemma LenOfMagnitude(m: nat)
    requires m < WORD
    ensures Len(m) <= 64
  {
    WordIsPow2();
    LenAtMost(m, 64);
  }

  lemma WordIsPow2()
    ensures WORD == Pow2(64)
  {
    assert Pow2(8) == 256;
    Pow2Add(8, 8);
    Pow2Add(16, 16);
    Pow2Add(32, 32);
  }

  // The magnitude with its low drop bits rounded off. The sum wraps at 2^64; one that does stands for 2^64.
  method DropBits(f: Fmt, m: nat, drop: nat) returns (r: nat, nx: bool)
    requires FmtOk(f) && m < WORD && 0 < drop && Len(m) == f.mb + 1 + drop
    ensures RoundedTo(f, m, r) && (nx <==> r != m)
  {
    hide *;
    LenOfMagnitude(m);
    UlpIsEven(drop);
    TopMultiple(drop);
    var b := KeptBits(f, m, drop);
    var ulp := Pow2(drop);
    ghost var low := Shl(Kept(m, drop), drop);
    var half := ulp / 2;
    var sum := (m + half) % WORD;
    r := if sum < m then WORD else Masked(sum, ulp);
    nx := m % ulp != 0;
    assert low == Masked(m, ulp) by { LowIs(m, drop); }
    HalfUp(m, ulp, half, low);
    HalfTest(f, m, low, ulp, b);
    WordSum(m, half, ulp, Pow2(64 - drop), sum, r);
  }

  lemma UlpIsEven(drop: nat)
    requires drop > 0
    ensures Pow2(drop) / 2 > 0 && Pow2(drop) == 2 * (Pow2(drop) / 2)
  {
    assert Pow2(drop) == 2 * Pow2(drop - 1);
    hide Pow2;
    Halves(Pow2(drop), Pow2(drop - 1));
  }

  lemma Halves(u: nat, k: nat)
    requires u == 2 * k
    ensures u / 2 == k
  {
  }

  lemma LowIs(m: nat, drop: nat)
    ensures Shl(Kept(m, drop), drop) == Masked(m, Pow2(drop))
  {
  }

  lemma WordSum(m: nat, half: nat, ulp: nat, k: nat, sum: nat, r: nat)
    requires m < WORD && half > 0 && ulp == 2 * half && WORD == k * ulp
    requires sum == (m + half) % WORD && r == if sum < m then WORD else Masked(sum, ulp)
    ensures r == Masked(m + half, ulp)
  {
    assert ulp <= WORD by {
      if k == 0 {
        assert false;
      }
      assert k * ulp >= ulp;
    }
    if m + half >= WORD {
      WrapIsTop(m + half, ulp, k);
    }
  }

  lemma TopMultiple(drop: nat)
    requires drop <= 64
    ensures WORD == Pow2(64 - drop) * Pow2(drop)
  {
    WordIsPow2();
    Pow2Add(64 - drop, drop);
  }

  // ---------- Rounding by adding 1.5 * 2^52 ----------

  const MAGIC := 6755399441055744.0
  const TWO51 := 2251799813685248.0

  // Doubles from 2^52 to 2^53 are the integers, and their patterns have the integers' parity.
  lemma UnitSpacing(n: nat) returns (b: nat)
    requires 0x10_0000_0000_0000 <= n < 0x20_0000_0000_0000
    ensures b < Inf(BINARY64) && Val(BINARY64, b) == n as real && Val(BINARY64, b + 1) == (n + 1) as real
    ensures b % 2 == n % 2
  {
    Pow2Of52();
    b := NormalPattern(BINARY64, n, 0);
    NextUp(BINARY64, b);
    ScaleInt(n);
    PZero();
    hide Pow2, Val, Scale, Inf, Mant, Exp;
    assert b == 1075 * 0x10_0000_0000_0000 + (n - 0x10_0000_0000_0000);
  }

  // The nearest-even float to a y between two neighbours is one of them.
  lemma NearestBetween(f: Fmt, y: real, c: nat, b: nat)
    requires c < Inf(f) && Val(f, c) <= y < Val(f, c + 1) && NearestEven(f, y, b)
    ensures b == c || b == c + 1
    ensures b == c ==> y - Val(f, c) <= Val(f, c + 1) - y && (y - Val(f, c) == Val(f, c + 1) - y ==> b % 2 == 0)
    ensures b == c + 1 ==> y - Val(f, c) >= Val(f, c + 1) - y && (y - Val(f, c) == Val(f, c + 1) - y ==> b % 2 == 0)
  {
    hide Val, Inf;
    if b < c {
      ValMono(f, b, c);
    } else if b > c + 1 {
      ValMono(f, c + 1, b);
    }
    assert b != c ==> FloatRounding.Abs(y - Val(f, b)) <= FloatRounding.Abs(y - Val(f, c));
    assert b != c + 1 ==> FloatRounding.Abs(y - Val(f, b)) <= FloatRounding.Abs(y - Val(f, c + 1));
  }

  // The double nearest to x + 1.5 * 2^52 is an integer; less 1.5 * 2^52 it is x rounded half to even.
  lemma MagicRounds(x: real, b: nat) returns (n: int)
    requires -TWO51 < x < TWO51 && NearestEven(BINARY64, x + MAGIC, b)
    ensures Val(BINARY64, b) - MAGIC == n as real && Rounds(Rne, x, n)
    ensures Float(BINARY64, n as real)
  {
    hide Val, Inf, NearestEven, Float;
    var y := x + MAGIC;
    var k: nat := y.Floor;
    var w: int := NearerDouble(y, k, b);
    n := w - 6755399441055744;
    assert n as real == w as real - MAGIC;
    MagicShift(x, k, w, n);
    IntIsDouble(n);
  }

  lemma NearerDouble(y: real, k: nat, b: nat) returns (w: nat)
    requires 0x10_0000_0000_0000 <= k < 0x20_0000_0000_0000 && k as real <= y < (k + 1) as real
    requires NearestEven(BINARY64, y, b)
    ensures NearerOf(y, k, w) && Val(BINARY64, b) == w as real
  {
    hide Val, Inf, NearestEven;
    var c := UnitSpacing(k);
    NearestBetween(BINARY64, y, c, b);
    w := if b == c then k else k + 1;
    assert b % 2 == w % 2;
    assert (k + 1) as real == k as real + 1.0;
  }

  // Of the integers k and k + 1 around y, w is the nearer one, even at the midpoint.
  predicate NearerOf(y: real, k: int, w: int) {
    var d := y - w as real;
    (w == k || w == k + 1) && -0.5 <= d <= 0.5 && (d == 0.5 || d == -0.5 ==> w % 2 == 0)
  }

  lemma MagicShift(x: real, k: int, w: int, n: int)
    requires NearerOf(x + MAGIC, k, w) && n == w - 6755399441055744 && n as real == w as real - MAGIC
    ensures Rounds(Rne, x, n)
  {
  }

  // What the host adds: the sum is the double nearest to the exact one.
  ghost function RoundToInteger(sum: nat): int {
    Trunc(Val(BINARY64, sum) - MAGIC)
  }

  ghost function Fp32ToI32(v: Num, sum: nat): nat {
    if v.NaN? || v == Infinity(false) || (v.Finite? && v.x >= 2147483648.0) then 0x7FFF_FFFF
    else if v.Infinity? || v.x <= -2147483648.0 then 0x8000_0000
    else RoundToInteger(sum) % 0x1_0000_0000
  }

  // A sign bit on a finite v is x < 0 or a negative zero, which rounds to 0 either way.
  ghost function Fp32ToU32(v: Num, sum: nat): nat {
    if v.NaN? || v == Infinity(false) || (v.Finite? && v.x >= 4294967296.0) then 0xFFFF_FFFF
    else if v.Infinity? || v.x < 0.0 then 0
    else RoundToInteger(sum) % 0x1_0000_0000
  }

  function Clip(n: int, lo: int, hi: int): int {
    if n < lo then lo else if n > hi then hi else n
  }

  lemma TruncOfMagic(x: real, sum: nat) returns (n: int)
    requires -TWO51 < x < TWO51 && NearestEven(BINARY64, x + MAGIC, sum)
    ensures RoundToInteger(sum) == n && Rounds(Rne, x, n)
  {
    n := MagicRounds(x, sum);
    hide Val, NearestEven;
    TruncOfInt(n, Trunc(Val(BINARY64, sum) - MAGIC));
  }

  // A single below an integer bound cannot round up to it.
  lemma SingleBelow(x: real, n: int, top: int)
    requires Float(BINARY32, x) && Rounds(Rne, x, n) && x < top as real && top > 0x80_0000
    ensures n < top
  {
    if x >= 8388608.0 {
      Pow2Of52();
      var w := BigIsWhole(BINARY32, x);
      hide Float, Pow2;
      RoundsUnique(Rne, x, n, w);
    }
  }

  // The conversions clip the nearest-even integer.
  lemma Fp32ToI32Clips(x: real, sum: nat, n: int)
    requires Float(BINARY32, x) && Rounds(Rne, x, n)
    requires -TWO51 < x < TWO51 ==> NearestEven(BINARY64, x + MAGIC, sum)
    ensures Fp32ToI32(Finite(x), sum) == Clip(n, -0x8000_0000, 0x7FFF_FFFF) % 0x1_0000_0000
  {
    hide Float, NearestEven, Val;
    if -2147483648.0 < x < 2147483648.0 {
      var m := TruncOfMagic(x, sum);
      RoundsUnique(Rne, x, m, n);
      SingleBelow(x, n, 0x8000_0000);
    }
  }

  lemma Fp32ToU32Clips(x: real, sum: nat, n: int)
    requires Float(BINARY32, x) && Rounds(Rne, x, n)
    requires -TWO51 < x < TWO51 ==> NearestEven(BINARY64, x + MAGIC, sum)
    ensures Fp32ToU32(Finite(x), sum) == Clip(n, 0, 0xFFFF_FFFF)
  {
    hide Float, NearestEven, Val;
    if 0.0 <= x < 4294967296.0 {
      var m := TruncOfMagic(x, sum);
      RoundsUnique(Rne, x, m, n);
      SingleBelow(x, n, 0x1_0000_0000);
    }
  }
}