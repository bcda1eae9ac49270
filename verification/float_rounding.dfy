// Ties-away rounding out of a host that only rounds to nearest even (src/rv64_fpu.cpp).
//
// A finite float is a sign and a magnitude, the bit pattern without the sign bit. Values are exact reals. The one
// thing taken on trust is that the host's result is the exact value rounded to nearest even.
module FloatRounding {
  // ---------- Powers of two ----------

  function Pow2(n: nat): (r: nat)
    ensures r >= 1
  {
    if n == 0 then 1 else 2 * Pow2(n - 1)
  }

  lemma {:induction false} Pow2Add(a: nat, b: nat)
    ensures Pow2(a + b) == Pow2(a) * Pow2(b)
  {
    if b > 0 {
      Pow2Add(a, b - 1);
      calc {
        Pow2(a + b);
        2 * Pow2(a + (b - 1));
        2 * (Pow2(a) * Pow2(b - 1));
        Pow2(a) * (2 * Pow2(b - 1));
      }
    }
  }

  lemma {:induction false} Pow2Mono(a: nat, b: nat)
    requires a <= b
    ensures Pow2(a) <= Pow2(b) && (a < b ==> 2 * Pow2(a) <= Pow2(b))
  {
    if a < b {
      Pow2Mono(a, b - 1);
    }
  }

  // 2^e for any integer e.
  ghost function P(e: int): (r: real)
    ensures r > 0.0
    decreases if e < 0 then -e else e
  {
    if e == 0 then 1.0 else if e > 0 then 2.0 * P(e - 1) else P(e + 1) / 2.0
  }

  lemma PNext(e: int)
    ensures P(e + 1) == 2.0 * P(e)
  {
  }

  lemma Regroup(x: real, y: real, z: real)
    ensures x * (y * z) == (x * y) * z == y * (x * z)
  {
  }

  lemma {:induction false} PShift(e: int, n: nat)
    ensures P(e + n) == Pow2(n) as real * P(e)
  {
    hide P;
    if n == 0 {
      assert Pow2(n) as real * P(e) == P(e);
    } else {
      PShift(e, n - 1);
      PNext(e + n - 1);
      Regroup(2.0, Pow2(n - 1) as real, P(e));
      assert Pow2(n) as real == 2.0 * Pow2(n - 1) as real;
    }
  }

  lemma {:induction false} PAdd(a: int, b: int)
    ensures P(a + b) == P(a) * P(b)
    decreases if b < 0 then -b else b
  {
    PZero();
    hide P;
    if b > 0 {
      PAdd(a, b - 1);
      PNext(a + b - 1);
      PNext(b - 1);
      Regroup(2.0, P(a), P(b - 1));
    } else if b < 0 {
      PAdd(a, b + 1);
      PNext(a + b);
      PNext(b);
      Regroup(2.0, P(a), P(b));
    }
  }

  lemma PZero()
    ensures P(0) == 1.0
  {
  }

  // m * 2^e.
  ghost function Scale(m: int, e: int): real {
    m as real * P(e)
  }

  // ---------- Formats and values ----------

  datatype Fmt = Fmt(mb: nat, bias: nat)

  const BINARY32 := Fmt(23, 127)
  const BINARY64 := Fmt(52, 1023)

  predicate FmtOk(f: Fmt) {
    f == BINARY32 || f == BINARY64
  }

  function Inf(f: Fmt): nat {
    (2 * f.bias + 1) * Pow2(f.mb)
  }

  // All magnitudes, infinity and the NaNs above it included.
  function Patterns(f: Fmt): nat {
    (2 * f.bias + 2) * Pow2(f.mb)
  }

  function Mant(f: Fmt, b: nat): nat {
    b % Pow2(f.mb) + if b / Pow2(f.mb) != 0 then Pow2(f.mb) else 0
  }

  function Exp(f: Fmt, b: nat): int {
    (if b / Pow2(f.mb) != 0 then b / Pow2(f.mb) else 1) - f.bias - f.mb
  }

  ghost function Val(f: Fmt, b: nat): real {
    Scale(Mant(f, b), Exp(f, b))
  }

  lemma MulBound(d: int, k: int)
    requires d > 0
    ensures k >= 1 ==> d * k >= d
    ensures k <= -1 ==> d * k <= -d
  {
  }

  lemma DivModUnique(x: nat, d: nat, q: nat, r: nat)
    requires d > 0 && x == d * q + r && r < d
    ensures x / d == q && x % d == r
  {
    var k := x / d - q;
    assert x == d * (x / d) + x % d;
    assert d * (x / d) - d * q == d * k;
    MulBound(d, k);
  }

  lemma UnitUp(m: nat, p: real, m': nat, p': real)
    requires (p' == p && m' == m + 1) || (p' == 2.0 * p && 2 * m' == m + 1)
    ensures m' as real * p' == m as real * p + p
  {
    var x, y := m as real, m' as real;
    if p' == p {
      assert (x + 1.0) * p == x * p + p;
    } else {
      assert y == (x + 1.0) / 2.0;
      Regroup(2.0, y, p);
      assert (2.0 * y) * p == (x + 1.0) * p;
      assert (x + 1.0) * p == x * p + p;
    }
  }

  // How the fields of a pattern change at the next one: within a binade, out of the subnormals, at a carry.
  lemma NextFields(f: Fmt, b: nat)
    ensures var m, e, m', e' := Mant(f, b), Exp(f, b), Mant(f, b + 1), Exp(f, b + 1);
            (e' == e && m' == m + 1) || (e' == e + 1 && 2 * m' == m + 1)
  {
    var M := Pow2(f.mb);
    if b % M + 1 < M {
      DivModUnique(b + 1, M, b / M, b % M + 1);
    } else {
      assert M * (b / M + 1) == M * (b / M) + M;
      DivModUnique(b + 1, M, b / M + 1, 0);
    }
  }

  // A pattern of exponent field e and fraction: 1.fraction times 2 to the e less the bias, or 0.fraction times 2 to the
  // one less the bias. Below infinity, the all-ones field, it is an IEEE 754 number.
  lemma ValMeaning(f: Fmt, e: nat, fraction: nat)
    requires fraction < Pow2(f.mb)
    ensures var b := e * Pow2(f.mb) + fraction;
      && Val(f, b) == (if e == 0 then Scale(fraction, 1 - f.bias - f.mb) else Scale(Pow2(f.mb) + fraction, e - f.bias - f.mb))
      && (b < Inf(f) <==> e < 2 * f.bias + 1)
  {
    var w := Pow2(f.mb);
    assert w * e == e * w;
    DivModUnique(e * w + fraction, w, e, fraction);
    FieldBelow(e, 2 * f.bias + 1, w, fraction);
    hide Scale, Pow2;
  }

  lemma FieldBelow(e: nat, k: nat, w: nat, r: nat)
    requires r < w
    ensures e * w + r < k * w <==> e < k
  {
    MulBound(w, k - e);
    FieldDiff(e, k, w);
    var d, x, y := w * (k - e), e * w, k * w;
    hide *;
    if e < k {
      assert d >= w && y - x == d;
    } else if e == k {
      assert x == y;
    } else {
      assert d <= 0 - w && y - x == d;
    }
  }

  lemma FieldDiff(e: int, k: int, w: int)
    ensures w * (k - e) == k * w - e * w && (e == k ==> e * w == k * w)
  {
  }

  // The two formats: 8 and 11 exponent bits, 23 and 52 fraction bits.
  lemma Formats()
    ensures Pow2(23) == 0x80_0000 && Pow2(52) == 0x10_0000_0000_0000
    ensures Inf(BINARY32) == 0x7F80_0000 && Inf(BINARY64) == 0x7FF0_0000_0000_0000
  {
    assert Pow2(4) == 16;
    assert Pow2(13) == 8192;
    assert Pow2(10) == 1024;
    Pow2Add(13, 10);
    Pow2Add(13, 13);
    Pow2Add(26, 26);
  }

  // The next bit pattern is the next value away from zero, one unit in the last place up: within a binade, from the
  // subnormals into the normals, and across an exponent carry.
  lemma NextUp(f: Fmt, b: nat)
    ensures Val(f, b + 1) == Val(f, b) + P(Exp(f, b))
  {
    NextFields(f, b);
    PNext(Exp(f, b));
    hide P, Mant, Exp;
    UnitUp(Mant(f, b), P(Exp(f, b)), Mant(f, b + 1), P(Exp(f, b + 1)));
  }

  lemma {:induction false} ValMono(f: Fmt, b: nat, c: nat)
    requires b < c
    ensures Val(f, b) < Val(f, b + 1) <= Val(f, c)
    decreases c
  {
    NextUp(f, b);
    if b + 1 < c {
      ValMono(f, b, c - 1);
      NextUp(f, c - 1);
    }
  }

  ghost function Mid(f: Fmt, b: nat): real {
    (Val(f, b) + Val(f, b + 1)) / 2.0
  }

  // ---------- Rounding to nearest ----------

  function Abs(x: real): real {
    if x < 0.0 then -x else x
  }

  // Magnitude b is the nearest to x >= 0; of two equally near, the even one. The infinity stands for the value after
  // the largest finite one, as IEEE 754-2008 section 4.3.1 has it for overflow.
  ghost predicate NearestEven(f: Fmt, x: real, b: nat) {
    && b <= Inf(f)
    && forall c: nat | c <= Inf(f) && c != b ::
         Abs(x - Val(f, b)) < Abs(x - Val(f, c)) || (Abs(x - Val(f, b)) == Abs(x - Val(f, c)) && b % 2 == 0)
  }

  // Of two equally near, the larger.
  ghost predicate NearestAway(f: Fmt, x: real, b: nat) {
    && b <= Inf(f)
    && forall c: nat | c <= Inf(f) && c != b ::
         Abs(x - Val(f, b)) < Abs(x - Val(f, c)) || (Abs(x - Val(f, b)) == Abs(x - Val(f, c)) && c < b)
  }

  // Ties-away differs from ties-even only when x is the midpoint above the even result; then it is the next pattern.
  lemma AwayFromEven(f: Fmt, x: real, b: nat)
    requires x >= 0.0 && NearestEven(f, x, b) && b < Inf(f)
    ensures NearestAway(f, x, if x == Mid(f, b) then b + 1 else b)
  {
    var r := if x == Mid(f, b) then b + 1 else b;
    ValMono(f, b, b + 1);
    assert Abs(x - Val(f, b)) <= Abs(x - Val(f, b + 1));
    if b > 0 {
      ValMono(f, b - 1, b);
      assert Abs(x - Val(f, b)) <= Abs(x - Val(f, b - 1));
    }
    forall c: nat | c <= Inf(f) && c != r
      ensures Abs(x - Val(f, r)) < Abs(x - Val(f, c)) || (Abs(x - Val(f, r)) == Abs(x - Val(f, c)) && c < r)
    {
      if c > r {
        ValMono(f, r, c);
        if r == b + 1 {
          ValMono(f, b, b + 1);
        }
      } else {
        ValMono(f, c, r);
        if r == b + 1 && c < b {
          ValMono(f, c, b);
        } else if r == b && c < b - 1 {
          ValMono(f, c, b - 1);
        }
      }
    }
  }

  // At infinity, and where the result is exact, the two roundings agree.
  lemma AwayAtInf(f: Fmt, x: real, b: nat)
    requires x >= 0.0 && NearestEven(f, x, b) && (b == Inf(f) || x == Val(f, b))
    ensures NearestAway(f, x, b)
  {
    forall c: nat | c <= Inf(f) && c != b
      ensures Abs(x - Val(f, b)) < Abs(x - Val(f, c)) || (Abs(x - Val(f, b)) == Abs(x - Val(f, c)) && c < b)
    {
      if c < b {
        ValMono(f, c, b);
      } else {
        ValMono(f, b, c);
      }
    }
  }

  // ---------- Dyadics ----------

  // The value is m * 2^e, negated if neg; m is odd or 0.
  datatype Dyadic = Dyadic(neg: bool, m: nat, e: int)

  function Signed(neg: bool, x: real): real {
    if neg then -x else x
  }

  ghost function Real(d: Dyadic): real {
    Signed(d.neg, Scale(d.m, d.e))
  }

  function Tz(m: nat): nat {
    if m == 0 || m % 2 == 1 then 0 else 1 + Tz(m / 2)
  }

  lemma {:induction false} TzOdd(m: nat)
    ensures m == m / Pow2(Tz(m)) * Pow2(Tz(m))
    ensures m > 0 ==> m / Pow2(Tz(m)) % 2 == 1
  {
    if m == 0 || m % 2 == 1 {
      assert Pow2(0) == 1;
    } else {
      var z := Tz(m / 2);
      TzOdd(m / 2);
      var q := m / 2 / Pow2(z);
      assert m == q * Pow2(z + 1) by {
        assert m == 2 * (q * Pow2(z));
      }
      DivModUnique(m, Pow2(z + 1), q, 0) by {
        assert Pow2(z + 1) * q == q * Pow2(z + 1);
      }
    }
  }

  function OddPart(m: nat): nat {
    m / Pow2(Tz(m))
  }

  // f, or with half = 1 the midpoint between f and the next value away from zero.
  function FromFloat(f: Fmt, neg: bool, b: nat, half: nat): Dyadic {
    var m := 2 * Mant(f, b) + half;
    Dyadic(neg, OddPart(m), Exp(f, b) - 1 + Tz(m))
  }

  function DMul(a: Dyadic, b: Dyadic): Dyadic {
    Dyadic(a.neg != b.neg, a.m * b.m, a.e + b.e)
  }

  predicate Term(d: Dyadic, bits: nat) {
    (d.m == 0 || d.m % 2 == 1) && d.m < Pow2(bits)
  }

  lemma HalfUnitsVal(f: Fmt, b: nat, half: nat)
    requires half <= 1
    ensures Scale(2 * Mant(f, b) + half, Exp(f, b) - 1) == if half == 0 then Val(f, b) else Mid(f, b)
  {
    var e := Exp(f, b) - 1;
    PNext(e);
    NextUp(f, b);
    hide P, Mant, Exp;
    HalfUnits(Mant(f, b), half, P(e));
    assert 0.0 * P(e) == 0.0 && 1.0 * P(e) == P(e);
  }

  lemma FromFloatReal(f: Fmt, neg: bool, b: nat, half: nat)
    requires half <= 1
    ensures Real(FromFloat(f, neg, b, half)) == Signed(neg, if half == 0 then Val(f, b) else Mid(f, b))
  {
    var m := 2 * Mant(f, b) + half;
    HalfUnitsVal(f, b, half);
    OddUnits(m, Exp(f, b) - 1);
    hide Scale, Mant, Exp, Tz, Val, Mid, OddPart;
  }

  function Shl(m: nat, n: nat): nat {
    m * Pow2(n)
  }

  lemma ShlScale(m: nat, n: nat, e: int)
    ensures Scale(m, e + n) == Scale(Shl(m, n), e)
  {
    PShift(e, n);
    hide P, Pow2;
    Regather(m, Pow2(n), Shl(m, n), P(e));
  }

  lemma OddUnits(m: nat, e: int)
    ensures Scale(OddPart(m), e + Tz(m)) == Scale(m, e)
  {
    TzOdd(m);
    assert m == Shl(OddPart(m), Tz(m));
    hide Tz, OddPart, Pow2, Scale, Shl;
    ShlScale(OddPart(m), Tz(m), e);
  }

  lemma Regather(q: nat, w: nat, m: nat, x: real)
    requires m == q * w
    ensures q as real * (w as real * x) == m as real * x
  {
    Regroup(q as real, w as real, x);
    assert m as real == q as real * w as real;
  }

  lemma HalfUnits(m: nat, half: nat, p: real)
    ensures (2 * m + half) as real * p == m as real * (2.0 * p) + half as real * p
  {
    var x, h := m as real, half as real;
    assert (2.0 * x + h) * p == x * (2.0 * p) + h * p;
  }

  lemma MantBound(f: Fmt, b: nat)
    ensures Mant(f, b) < Pow2(f.mb + 1)
  {
  }

  lemma FromFloatTerm(f: Fmt, neg: bool, b: nat, half: nat)
    requires half <= 1
    ensures Term(FromFloat(f, neg, b, half), f.mb + 1 + half)
    ensures half == 1 ==> FromFloat(f, neg, b, half).m > 0
    ensures FromFloat(f, neg, b, half).m == 0 <==> Mant(f, b) == 0 && half == 0
  {
    var m := 2 * Mant(f, b) + half;
    OddPartSize(m);
    MantBound(f, b);
    assert Pow2(f.mb + 2) == 2 * Pow2(f.mb + 1);
    hide Mant, Exp, OddPart, Tz;
  }

  lemma OddPartSize(m: nat)
    ensures m == 0 ==> OddPart(m) == 0
    ensures m > 0 ==> OddPart(m) % 2 == 1
    ensures OddPart(m) <= if m % 2 == 1 then m else m / 2
  {
    TzOdd(m);
    if m % 2 == 1 {
      assert Pow2(0) == 1;
    } else if m > 0 {
      assert m == OddPart(m) * Pow2(Tz(m)) && OddPart(m) % 2 == 1;
      hide Tz, OddPart;
      HalfBelow(m, OddPart(m), Tz(m));
    }
  }

  lemma HalfBelow(m: nat, q: nat, z: nat)
    requires m == q * Pow2(z) && m % 2 == 0 && q % 2 == 1
    ensures q <= m / 2
  {
    assert z == 0 ==> m == q * 1;
    var w := Pow2(z - 1);
    assert m == q * (2 * w);
    assert m == 2 * (q * w);
    assert q <= q * w;
  }

  lemma DMulReal(a: Dyadic, b: Dyadic)
    ensures Real(DMul(a, b)) == Real(a) * Real(b)
  {
    PAdd(a.e, b.e);
    Interchange(a.m, P(a.e), b.m, P(b.e));
    hide P;
    SignedTimes(a.neg, Scale(a.m, a.e), b.neg, Scale(b.m, b.e));
  }

  lemma SignedTimes(n: bool, x: real, m: bool, y: real)
    ensures Signed(n, x) * Signed(m, y) == Signed(n != m, x * y)
  {
    assert (-x) * y == -(x * y);
    assert x * (-y) == -(x * y);
    assert (-x) * (-y) == x * y;
  }

  lemma Interchange(m: nat, p: real, n: nat, q: real)
    ensures (m as real * p) * (n as real * q) == (m * n) as real * (p * q)
  {
    var x, y := m as real, n as real;
    assert (m * n) as real == x * y;
    Regroup(x, p, y * q);
    Regroup(p, y, q);
    Regroup(y, p, q);
    Regroup(x, y, p * q);
  }

  lemma DMulTerm(a: Dyadic, b: Dyadic, m: nat, n: nat)
    requires Term(a, m) && Term(b, n)
    ensures Term(DMul(a, b), m + n)
  {
    Pow2Add(m, n);
    Below(a.m, Pow2(m), b.m, Pow2(n));
    OddTimes(a.m, b.m);
    hide Pow2;
  }

  lemma OddTimes(a: nat, b: nat)
    ensures a % 2 == 1 && b % 2 == 1 ==> a * b % 2 == 1
    ensures a == 0 || b == 0 ==> a * b == 0
  {
    var k := a / 2;
    assert (2 * k + 1) * b == 2 * (k * b) + b;
  }

  lemma Below(a: nat, x: nat, b: nat, y: nat)
    requires a < x && b < y
    ensures a * b < x * y
  {
    assert a * b <= a * y;
    assert a * y < x * y;
  }

  // ---------- The window ----------

  // Bits of m up to its highest set bit.
  function Len(m: nat): nat {
    if m == 0 then 0 else 1 + Len(m / 2)
  }

  lemma {:induction false} LenBounds(m: nat)
    requires m > 0
    ensures Len(m) >= 1 && Pow2(Len(m) - 1) <= m < Pow2(Len(m))
  {
    if m > 1 {
      var n := Len(m / 2);
      LenBounds(m / 2);
      assert Len(m) == n + 1 && Pow2(n + 1) == 2 * Pow2(n) && Pow2(n) == 2 * Pow2(n - 1);
    } else {
      assert Len(1) == 1 && Pow2(0) == 1 && Pow2(1) == 2;
    }
  }

  lemma LenAtMost(m: nat, bits: nat)
    requires m < Pow2(bits)
    ensures Len(m) <= bits
  {
    if m > 0 && Len(m) > bits {
      LenBounds(m);
      Pow2Mono(bits, Len(m) - 1);
      assert false;
    }
  }

  // The length of a wide word, read off its high part.
  lemma {:induction false} LenHigh(m: nat, k: nat)
    requires m / Pow2(k) > 0
    ensures Len(m) == k + Len(m / Pow2(k))
  {
    if k == 0 {
      assert Pow2(0) == 1;
    } else {
      HalveDiv(m, Pow2(k - 1));
      LenHigh(m / 2, k - 1);
    }
  }

  lemma HalveDiv(m: nat, w: nat)
    requires w > 0
    ensures m / 2 / w == m / (2 * w)
    ensures m / (2 * w) > 0 ==> m >= 2
  {
    var q := m / 2 / w;
    var r := 2 * (m / 2 % w) + m % 2;
    assert m / 2 == w * q + m / 2 % w;
    assert m == (2 * w) * q + r by { assert 2 * (w * q) == (2 * w) * q; }
    DivModUnique(m, 2 * w, q, r);
  }

  // A term in units of 2^lo.
  function Units(d: Dyadic, lo: int): int
    requires d.m != 0 ==> lo <= d.e
  {
    if d.m == 0 then 0 else if d.neg then 0 - Shl(d.m, d.e - lo) else Shl(d.m, d.e - lo)
  }

  lemma UnitsReal(d: Dyadic, lo: int)
    requires d.m != 0 ==> lo <= d.e
    ensures Real(d) == Scale(Units(d, lo), lo)
  {
    if d.m == 0 {
      assert Scale(0, d.e) == 0.0 && Scale(0, lo) == 0.0;
    } else {
      ShlScale(d.m, d.e - lo, lo);
      hide Shl;
      SignedScale(d.neg, Shl(d.m, d.e - lo), lo);
    }
  }

  lemma SignedScale(neg: bool, u: nat, e: int)
    ensures Signed(neg, Scale(u, e)) == Scale(if neg then 0 - u else u, e)
  {
    hide P;
    var x := u as real;
    assert (0 - u) as real == -x;
    assert (-x) * P(e) == -(x * P(e));
  }

  function Size(x: int): nat {
    if x < 0 then -x else x
  }

  lemma Between(a: nat, m: nat, b: nat, w: nat)
    requires a <= m < b && w > 0
    ensures a * w <= m * w < b * w
  {
  }

  lemma ShlBounds(m: nat, n: nat)
    requires m > 0
    ensures Len(m) + n >= 1 && Pow2(Len(m) + n - 1) <= Shl(m, n) < Pow2(Len(m) + n)
  {
    LenBounds(m);
    Pow2Add(Len(m) - 1, n);
    Pow2Add(Len(m), n);
    hide Pow2, Len;
    Between(Pow2(Len(m) - 1), m, Pow2(Len(m)), Pow2(n));
  }

  // A term that ends at bit hi lies between 2^(hi - 1) and 2^hi.
  lemma UnitsBounds(d: Dyadic, lo: int)
    requires d.m != 0 && lo <= d.e
    ensures d.e + Len(d.m) - lo >= 1
    ensures Pow2(d.e + Len(d.m) - lo - 1) <= Size(Units(d, lo)) < Pow2(d.e + Len(d.m) - lo)
  {
    ShlBounds(d.m, d.e - lo);
  }

  lemma ShlParity(m: nat, n: nat)
    requires m % 2 == 1
    ensures Shl(m, n) % 2 == 1 <==> n == 0
    ensures n == 0 ==> Shl(m, n) == m
  {
    if n == 0 {
      assert Pow2(0) == 1;
    } else {
      assert Shl(m, n) == 2 * Shl(m, n - 1) by {
        assert m * (2 * Pow2(n - 1)) == 2 * (m * Pow2(n - 1));
      }
    }
  }

  // An odd term has its lowest set bit at its exponent.
  lemma UnitsParity(d: Dyadic, lo: int, bits: nat)
    requires Term(d, bits) && (d.m != 0 ==> lo <= d.e)
    ensures Units(d, lo) % 2 == 1 <==> d.m != 0 && d.e == lo
    ensures d.m != 0 && d.e == lo ==> Size(Units(d, lo)) < Pow2(bits)
  {
    hide Pow2;
    if d.m != 0 {
      ShlParity(d.m, d.e - lo);
      hide Shl;
      NegParity(Shl(d.m, d.e - lo));
    }
  }

  lemma NegParity(u: nat)
    ensures (0 - u) % 2 == u % 2
  {
  }

  predicate Above(t: seq<Dyadic>, lo: int) {
    forall k :: 0 <= k < |t| && t[k].m != 0 ==> lo <= t[k].e
  }

  lemma EvenBelow(x: int, y: int, z: int, w: nat)
    requires x + y + z == 0 && x % 2 == 1 && Size(x) < w && y % 2 != 1 && (z % 2 == 1 ==> Size(z) < w)
    ensures Size(y) < 2 * w
  {
    assert z % 2 == 1;
  }

  lemma Pow2Below(x: nat, h: nat, n: nat)
    requires Pow2(h) <= x < Pow2(n)
    ensures h < n
  {
    if h >= n {
      Pow2Mono(n, h);
      assert false;
    }
  }

  lemma CancelThree(a: Dyadic, b: Dyadic, c: Dyadic, n: nat, lo: int)
    requires Term(a, n) && Term(b, n) && Term(c, n) && a.m != 0 && b.m != 0
    requires a.e == lo <= b.e && (c.m != 0 ==> lo <= c.e) && Units(a, lo) + Units(b, lo) + Units(c, lo) == 0
    ensures b.e + Len(b.m) - lo <= n + 1
  {
    LenAtMost(b.m, n);
    UnitsParity(a, lo, n);
    UnitsParity(b, lo, n);
    UnitsParity(c, lo, n);
    UnitsBounds(b, lo);
    hide Units, Len, Term;
    if b.e != lo {
      EvenBelow(Units(a, lo), Units(b, lo), Units(c, lo), Pow2(n));
      assert Pow2(n + 1) == 2 * Pow2(n);
      hide Pow2;
      Pow2Below(Size(Units(b, lo)), b.e + Len(b.m) - lo - 1, n + 1);
    }
  }

  // Three terms of n bits that cancel lie within n + 1 bits: a second one shares the lowest set bit with the first, so
  // both are below 2^n there and the third is below their sum.
  lemma CancelWithin(t: seq<Dyadic>, n: nat, lo: int, i: nat, j: nat)
    requires |t| == 3 && Above(t, lo) && forall k :: 0 <= k < 3 ==> Term(t[k], n)
    requires i < 3 && t[i].m != 0 && t[i].e == lo
    requires j < 3 && t[j].m != 0
    requires Units(t[0], lo) + Units(t[1], lo) + Units(t[2], lo) == 0
    ensures t[j].e + Len(t[j].m) - lo <= n + 1
  {
    if i == j {
      LenAtMost(t[j].m, n);
    } else {
      hide Units, Len;
      var k := 3 - i - j;
      assert (i == 0 || i == 1 || i == 2) && (j == 0 || j == 1 || j == 2);
      CancelThree(t[i], t[j], t[k], n, lo);
    }
  }

  // Within a window of w bits every shifted term is below 2^w.
  lemma WindowFits(d: Dyadic, lo: int, hi: int, w: nat)
    requires d.m != 0 && lo <= d.e && d.e + Len(d.m) <= hi && hi - lo <= w
    ensures Size(Units(d, lo)) < Pow2(w)
  {
    UnitsBounds(d, lo);
    Pow2Mono(d.e + Len(d.m) - lo, w);
  }

  // ---------- Ties away from ties even ----------

  // The exact result of the operation the host rounded.
  ghost function Exact(x0: Dyadic, x1: Dyadic, y: Dyadic): real
    requires Real(y) != 0.0
  {
    (Real(x0) + Real(x1)) / Real(y)
  }

  // What is assumed of the host: the magnitude is the nearest-even rounding, the sign is the exact value's, and the
  // inexact flag is up if the two differ. (It may be up otherwise.)
  ghost predicate HostRounded(f: Fmt, x: real, neg: bool, b: nat, nx: bool) {
    NearestEven(f, Abs(x), b) && (x != 0.0 ==> neg == (x < 0.0)) && (!nx ==> Abs(x) == Val(f, b))
  }

  lemma ScalePositive(m: nat, e: int)
    requires m > 0
    ensures Scale(m, e) > 0.0
  {
  }

  lemma MidPositive(f: Fmt, b: nat)
    ensures Mid(f, b) > 0.0
  {
    ValMono(f, b, b + 1);
    assert Mant(f, b) as real * P(Exp(f, b)) >= 0.0;
  }

  // The host's result fixed up: one pattern further out exactly at a tie.
  lemma AwayResult(f: Fmt, x: real, neg: bool, b: nat, nx: bool)
    requires HostRounded(f, x, neg, b, nx)
    ensures b >= Inf(f) || !nx ==> NearestAway(f, Abs(x), b)
    ensures b < Inf(f) ==> NearestAway(f, Abs(x), if x == Signed(neg, Mid(f, b)) then b + 1 else b)
  {
    MidPositive(f, b);
    if b >= Inf(f) || !nx {
      AwayAtInf(f, Abs(x), b);
    }
    if b < Inf(f) {
      assert x == Signed(neg, Mid(f, b)) <==> Abs(x) == Mid(f, b);
      AwayFromEven(f, Abs(x), b);
    }
  }

  function Negated(d: Dyadic): Dyadic {
    Dyadic(!d.neg, d.m, d.e)
  }

  // The operation's result is the midpoint exactly when the three terms cancel.
  lemma TieCancels(f: Fmt, neg: bool, b: nat, x0: Dyadic, x1: Dyadic, y: Dyadic)
    requires Real(y) != 0.0
    ensures Exact(x0, x1, y) == Signed(neg, Mid(f, b)) <==>
            Real(x0) + Real(x1) + Real(Negated(DMul(FromFloat(f, neg, b, 1), y))) == 0.0
  {
    hide *;
    var d := FromFloat(f, neg, b, 1);
    assert Real(d) == Signed(neg, Mid(f, b)) by { FromFloatReal(f, neg, b, 1); }
    assert Real(Negated(DMul(d, y))) == -(Real(d) * Real(y)) by {
      NegatedReal(DMul(d, y));
      DMulReal(d, y);
    }
    ExactTie(x0, x1, y, Real(d), Real(Negated(DMul(d, y))));
  }

  lemma ExactTie(x0: Dyadic, x1: Dyadic, y: Dyadic, m: real, n: real)
    requires Real(y) != 0.0 && n == -(m * Real(y))
    ensures Exact(x0, x1, y) == m <==> Real(x0) + Real(x1) + n == 0.0
  {
    hide Real;
    Quotient(Real(x0), Real(x1), Real(y), m, n);
  }

  lemma NegatedReal(d: Dyadic)
    ensures Real(Negated(d)) == -Real(d)
  {
  }

  lemma Quotient(s: real, t: real, y: real, m: real, n: real)
    requires y != 0.0 && n == -(m * y)
    ensures (s + t) / y == m <==> s + t + n == 0.0
  {
    assert s + t == (s + t) / y * y;
    if s + t == m * y {
      assert (m * y) / y == m;
    }
  }

  // The terms of the operation, and the exponents the host's formats allow them.
  predicate TermOk(d: Dyadic) {
    Term(d, 107) && -0x1000_0000 < d.e < 0x1000_0000
  }

  lemma MidTermOk(f: Fmt, neg: bool, b: nat, y: Dyadic)
    requires FmtOk(f) && b < Inf(f) && Term(y, 53) && y.m != 0 && -0x100_0000 < y.e < 0x100_0000
    ensures TermOk(DMul(FromFloat(f, neg, b, 1), y)) && DMul(FromFloat(f, neg, b, 1), y).m != 0
  {
    var d := FromFloat(f, neg, b, 1);
    FromFloatTerm(f, neg, b, 1);
    MidExp(f, neg, b);
    TermWeaken(d, f.mb + 2, 54);
    DMulTerm(d, y, 54, 53);
    hide FromFloat, Inf, Term;
    Positive(d.m, y.m);
  }

  lemma FiniteFits(f: Fmt)
    ensures Inf(f) < Patterns(f)
  {
  }

  lemma MidExp(f: Fmt, neg: bool, b: nat)
    requires FmtOk(f) && b < Inf(f)
    ensures -2000 < FromFloat(f, neg, b, 1).e < 2000
  {
    FiniteFits(f);
    hide Inf, Patterns, Exp, Mant;
    ExpBound(f, b);
    assert Tz(2 * Mant(f, b) + 1) == 0;
  }

  lemma TermWeaken(d: Dyadic, m: nat, n: nat)
    requires m <= n && Term(d, m)
    ensures Term(d, n)
  {
    Pow2Mono(m, n);
  }

  lemma Positive(m: nat, n: nat)
    requires m > 0 && n > 0
    ensures m * n > 0
  {
  }

  lemma ExpBound(f: Fmt, b: nat)
    requires FmtOk(f) && b < Patterns(f)
    ensures -1999 < Exp(f, b) < 1999
  {
    DivBelow(b, 2 * f.bias + 2, Pow2(f.mb));
    hide Pow2;
  }

  lemma DivBelow(b: nat, k: nat, w: nat)
    requires w > 0 && b < k * w
    ensures b / w < k
  {
    assert b == w * (b / w) + b % w;
    MulBound(w, b / w - k);
    assert w * (b / w - k) == w * (b / w) - k * w;
    if b / w == k {
      assert false;
    }
  }

  // Zero units in sum is zero in sum.
  lemma UnitsCancel(x0: Dyadic, x1: Dyadic, x2: Dyadic, lo: int)
    requires (x0.m != 0 ==> lo <= x0.e) && (x1.m != 0 ==> lo <= x1.e) && (x2.m != 0 ==> lo <= x2.e)
    ensures Units(x0, lo) + Units(x1, lo) + Units(x2, lo) == 0 <==> Real(x0) + Real(x1) + Real(x2) == 0.0
  {
    UnitsReal(x0, lo);
    UnitsReal(x1, lo);
    UnitsReal(x2, lo);
    ScaleSum(Units(x0, lo), Units(x1, lo), lo);
    ScaleSum(Units(x0, lo) + Units(x1, lo), Units(x2, lo), lo);
    ScaleZero(Units(x0, lo) + Units(x1, lo) + Units(x2, lo), lo);
    hide Units, Scale, Real;
  }

  lemma ScaleSum(a: int, b: int, e: int)
    ensures Scale(a + b, e) == Scale(a, e) + Scale(b, e)
  {
    hide P;
    assert (a + b) as real == a as real + b as real;
    assert (a as real + b as real) * P(e) == a as real * P(e) + b as real * P(e);
  }

  lemma ScaleZero(a: int, e: int)
    ensures Scale(a, e) == 0.0 <==> a == 0
  {
    hide P;
    if a > 0 {
      assert a as real > 0.0;
    } else if a < 0 {
      assert (-a) as real > 0.0;
      assert a as real * P(e) == -((-a) as real * P(e));
    }
  }

  // A word split at bit 64: the length comes from the high half if there is one.
  lemma LenOfWord(m: nat)
    ensures Len(m) == if m / 0x1_0000_0000_0000_0000 != 0 then 64 + Len(m / 0x1_0000_0000_0000_0000)
                      else Len(m % 0x1_0000_0000_0000_0000)
  {
    assert Pow2(8) == 256;
    Pow2Add(8, 8);
    Pow2Add(16, 16);
    Pow2Add(32, 32);
    assert Pow2(64) == 0x1_0000_0000_0000_0000;
    if m / Pow2(64) > 0 {
      LenHigh(m, 64);
    }
  }

  const WINDOW := 108

  predicate Terms(t: seq<Dyadic>) {
    |t| == 3 && TermOk(t[0]) && TermOk(t[1]) && TermOk(t[2]) && t[2].m != 0
  }

  lemma TieTermsOk(f: Fmt, neg: bool, b: nat, x0: Dyadic, x1: Dyadic, y: Dyadic)
    requires FmtOk(f) && b < Inf(f) && TermOk(x0) && TermOk(x1)
    requires Term(y, 53) && y.m != 0 && -0x100_0000 < y.e < 0x100_0000
    ensures Terms([x0, x1, Negated(DMul(FromFloat(f, neg, b, 1), y))])
  {
    MidTermOk(f, neg, b, y);
    NegatedOk(DMul(FromFloat(f, neg, b, 1), y));
    hide Inf, DMul, FromFloat, Negated, TermOk, Term;
  }

  lemma NegatedOk(d: Dyadic)
    ensures (TermOk(d) ==> TermOk(Negated(d))) && Negated(d).m == d.m
  {
    hide Pow2;
  }

  predicate Within(t: seq<Dyadic>, lo: int, hi: int) {
    Above(t, lo) && forall k :: 0 <= k < |t| && t[k].m != 0 ==> t[k].e + Len(t[k].m) <= hi
  }

  predicate IsSpan(t: seq<Dyadic>, lo: int, hi: int, i: nat, j: nat) {
    && Within(t, lo, hi)
    && i < |t| && t[i].m != 0 && t[i].e == lo
    && j < |t| && t[j].m != 0 && t[j].e + Len(t[j].m) == hi
  }

  // Outside the window there is no tie, and inside it the shifted sum tells.
  lemma WindowDecides(t: seq<Dyadic>, lo: int, hi: int, i: nat, j: nat)
    requires Terms(t) && IsSpan(t, lo, hi, i, j)
    ensures Units(t[0], lo) + Units(t[1], lo) + Units(t[2], lo) == 0 <==> Real(t[0]) + Real(t[1]) + Real(t[2]) == 0.0
    ensures Real(t[0]) + Real(t[1]) + Real(t[2]) == 0.0 ==> hi - lo <= WINDOW
  {
    UnitsCancel(t[0], t[1], t[2], lo);
    hide Units, Real, Len, Pow2;
    if Real(t[0]) + Real(t[1]) + Real(t[2]) == 0.0 {
      CancelWithin(t, 107, lo, i, j);
    }
  }

  // The lowest bit and one past the highest bit of the terms that are not zero.
  method Span(t: seq<Dyadic>) returns (lo: int, hi: int)
    requires Terms(t)
    ensures exists i, j :: IsSpan(t, lo, hi, i, j)
  {
    hide Len, Pow2;
    lo, hi := 0x4000_0000, -0x4000_0000;
    ghost var i, j := 0, 0;
    LenAtMost(t[2].m, 107);
    for k := 0 to |t|
      invariant forall n :: 0 <= n < k && t[n].m != 0 ==> lo <= t[n].e
      invariant forall n :: 0 <= n < k && t[n].m != 0 ==> t[n].e + Len(t[n].m) <= hi
      invariant lo < 0x4000_0000 ==> i < k && t[i].m != 0 && t[i].e == lo
      invariant hi > -0x4000_0000 ==> j < k && t[j].m != 0 && t[j].e + Len(t[j].m) == hi
    {
      var d := t[k];
      var top := d.m / 0x1_0000_0000_0000_0000;
      var h := d.e + if top != 0 then 64 + Len(top) else Len(d.m % 0x1_0000_0000_0000_0000);
      LenOfWord(d.m);
      if d.m != 0 && d.e < lo {
        lo, i := d.e, k;
      }
      if d.m != 0 && h > hi {
        hi, j := h, k;
      }
    }
    assert IsSpan(t, lo, hi, i, j);
  }

  lemma WordRoom(k: nat, w: nat, n: nat)
    requires k <= 3 && w + 2 <= n
    ensures k * Pow2(w) < Pow2(n)
  {
    Pow2Mono(w + 2, n);
    assert Pow2(w + 2) == 2 * Pow2(w + 1) == 4 * Pow2(w);
  }

  // The exact sum of the terms in units of 2^lo. Each partial sum fits a signed 128-bit word.
  method Sum(t: seq<Dyadic>, lo: int, hi: int) returns (sum: int)
    requires Terms(t) && Within(t, lo, hi) && hi - lo <= WINDOW
    ensures sum == Units(t[0], lo) + Units(t[1], lo) + Units(t[2], lo)
  {
    hide Pow2, Len, Shl;
    sum := 0;
    var w := WINDOW;
    for k := 0 to 3
      invariant k == 0 ==> sum == 0
      invariant k == 1 ==> sum == Units(t[0], lo)
      invariant k == 2 ==> sum == Units(t[0], lo) + Units(t[1], lo)
      invariant k == 3 ==> sum == Units(t[0], lo) + Units(t[1], lo) + Units(t[2], lo)
      invariant Size(sum) <= k * Pow2(w)
    {
      var d := t[k];
      if d.m != 0 {
        WindowFits(d, lo, hi, w);
        var shifted := Shl(d.m, d.e - lo);
        sum := if d.neg then sum - shifted else sum + shifted;
      }
      assert Size(sum) <= (k + 1) * Pow2(w) by { assert (k + 1) * Pow2(w) == k * Pow2(w) + Pow2(w); }
      assert Size(sum) < Pow2(127) by { WordRoom(k + 1, w, 127); }
    }
  }

  // Rounds a host result away from zero at ties.
  method Rmm(f: Fmt, neg: bool, b: nat, nx: bool, x0: Dyadic, x1: Dyadic, y: Dyadic) returns (r: nat)
    requires FmtOk(f) && TermOk(x0) && TermOk(x1) && Term(y, 53) && -0x100_0000 < y.e < 0x100_0000
    requires b < Inf(f) ==> y.m != 0
    ensures b >= Inf(f) || !nx ==> r == b
    ensures Real(y) != 0.0 && HostRounded(f, Exact(x0, x1, y), neg, b, nx) ==> NearestAway(f, Abs(Exact(x0, x1, y)), r)
  {
    hide *;
    if Real(y) != 0.0 && HostRounded(f, Exact(x0, x1, y), neg, b, nx) {
      AwayResult(f, Exact(x0, x1, y), neg, b, nx);
    }
    if !nx || b >= Inf(f) {
      return b;
    }
    var m := DMul(FromFloat(f, neg, b, 1), y);
    var t := [x0, x1, Negated(m)];
    assert Terms(t) by { TieTermsOk(f, neg, b, x0, x1, y); }
    var lo, hi := Span(t);
    ghost var i, j :| IsSpan(t, lo, hi, i, j);
    WindowDecides(t, lo, hi, i, j);
    if Real(y) != 0.0 {
      TieCancels(f, neg, b, x0, x1, y);
    }
    if hi - lo > WINDOW {
      return b;
    }
    var sum := Sum(t, lo, hi) by { SpanWithin(t, lo, hi, i, j); }
    r := if sum != 0 then b else b + 1;
  }

  lemma SpanWithin(t: seq<Dyadic>, lo: int, hi: int, i: nat, j: nat)
    requires IsSpan(t, lo, hi, i, j)
    ensures Within(t, lo, hi)
  {
  }

  // ---------- The operations ----------

  ghost function Value(f: Fmt, neg: bool, b: nat): real {
    Signed(neg, Val(f, b))
  }

  const ONE := Dyadic(false, 1, 0)
  const ZERO := Dyadic(false, 0, 0)

  lemma Constants()
    ensures Real(ONE) == 1.0 && Real(ZERO) == 0.0
    ensures Term(ONE, 53) && TermOk(ZERO) && ONE.m == 1 && ONE.e == 0
  {
    assert 1.0 * P(0) == 1.0;
    Pow2Mono(1, 53);
    assert Pow2(1) == 2;
  }

  // An operand: its value, its size, and its exponent. An infinity's or a NaN's dyadic is within the same bounds.
  lemma Operand(f: Fmt, neg: bool, b: nat)
    requires FmtOk(f) && b < Patterns(f)
    ensures var d := FromFloat(f, neg, b, 0);
            Real(d) == Value(f, neg, b) && Term(d, 53) && TermOk(d) && -2000 < d.e < 2100
    ensures FromFloat(f, neg, b, 0).m == 0 <==> Mant(f, b) == 0
  {
    var d := FromFloat(f, neg, b, 0);
    FromFloatReal(f, neg, b, 0);
    FromFloatTerm(f, neg, b, 0);
    OperandExp(f, neg, b);
    TermWeaken(d, f.mb + 1, 53);
    TermWeaken(d, 53, 107);
    hide Pow2, FromFloat, Real, Val, Term, Patterns, Mant;
  }

  lemma {:induction false} TzSmall(m: nat, n: nat)
    requires m < Pow2(n)
    ensures Tz(m) <= n
  {
    if m != 0 && m % 2 == 0 {
      assert n > 0 by {
        assert n == 0 ==> Pow2(n) == 1;
      }
      TzSmall(m / 2, n - 1);
    }
  }

  lemma OperandExp(f: Fmt, neg: bool, b: nat)
    requires FmtOk(f) && b < Patterns(f)
    ensures -2000 < FromFloat(f, neg, b, 0).e < 2100
  {
    ExpBound(f, b);
    MantBound(f, b);
    assert Pow2(f.mb + 2) == 2 * Pow2(f.mb + 1);
    TzSmall(2 * Mant(f, b), f.mb + 2);
    hide Exp, Mant, Tz, Pow2, OddPart, Patterns;
  }

  // Operands are any patterns. With an infinite or NaN one the host's result is an infinity, a NaN, or an exact zero,
  // and comes back as it is.
  method RmmAdd(f: Fmt, na: bool, a: nat, nb: bool, b: nat, neg: bool, host: nat, nx: bool) returns (r: nat)
    requires FmtOk(f) && a < Patterns(f) && b < Patterns(f)
    ensures a < Inf(f) && b < Inf(f) && HostRounded(f, Value(f, na, a) + Value(f, nb, b), neg, host, nx) ==>
              NearestAway(f, Abs(Value(f, na, a) + Value(f, nb, b)), r)
    ensures host >= Inf(f) || !nx ==> r == host
  {
    hide *;
    Operand(f, na, a);
    Operand(f, nb, b);
    Constants();
    r := Rmm(f, neg, host, nx, FromFloat(f, na, a, 0), FromFloat(f, nb, b, 0), ONE);
    ExactOver(FromFloat(f, na, a, 0), FromFloat(f, nb, b, 0), ONE);
  }

  lemma ExactOver(x0: Dyadic, x1: Dyadic, y: Dyadic)
    requires Real(y) != 0.0
    ensures Exact(x0, x1, y) == (Real(x0) + Real(x1)) / Real(y)
    ensures Real(y) == 1.0 ==> Exact(x0, x1, y) == Real(x0) + Real(x1)
  {
  }

  // A product and an addend.
  method RmmProduct(f: Fmt, na: bool, a: nat, nb: bool, b: nat, c: Dyadic, neg: bool, host: nat, nx: bool)
    returns (r: nat)
    requires FmtOk(f) && a < Patterns(f) && b < Patterns(f) && TermOk(c)
    ensures HostRounded(f, Value(f, na, a) * Value(f, nb, b) + Real(c), neg, host, nx) ==>
              NearestAway(f, Abs(Value(f, na, a) * Value(f, nb, b) + Real(c)), r)
    ensures host >= Inf(f) || !nx ==> r == host
  {
    hide *;
    Operand(f, na, a);
    Operand(f, nb, b);
    Constants();
    var p := DMul(FromFloat(f, na, a, 0), FromFloat(f, nb, b, 0));
    ProductOk(FromFloat(f, na, a, 0), FromFloat(f, nb, b, 0));
    r := Rmm(f, neg, host, nx, p, c, ONE);
    ExactOver(p, c, ONE);
    assert Real(p) == Value(f, na, a) * Value(f, nb, b);
  }

  lemma ProductOk(a: Dyadic, b: Dyadic)
    requires Term(a, 53) && Term(b, 53) && -2000 < a.e < 2100 && -2000 < b.e < 2100
    ensures TermOk(DMul(a, b)) && Real(DMul(a, b)) == Real(a) * Real(b)
  {
    DMulTerm(a, b, 53, 53);
    DMulReal(a, b);
    TermWeaken(DMul(a, b), 106, 107);
    hide Term, Real;
  }

  method RmmFma(f: Fmt, na: bool, a: nat, nb: bool, b: nat, nc: bool, c: nat, neg: bool, host: nat, nx: bool)
    returns (r: nat)
    requires FmtOk(f) && a < Patterns(f) && b < Patterns(f) && c < Patterns(f)
    ensures a < Inf(f) && b < Inf(f) && c < Inf(f) &&
            HostRounded(f, Value(f, na, a) * Value(f, nb, b) + Value(f, nc, c), neg, host, nx) ==>
              NearestAway(f, Abs(Value(f, na, a) * Value(f, nb, b) + Value(f, nc, c)), r)
    ensures host >= Inf(f) || !nx ==> r == host
  {
    hide *;
    Operand(f, nc, c);
    r := RmmProduct(f, na, a, nb, b, FromFloat(f, nc, c, 0), neg, host, nx);
  }

  method RmmMul(f: Fmt, na: bool, a: nat, nb: bool, b: nat, neg: bool, host: nat, nx: bool) returns (r: nat)
    requires FmtOk(f) && a < Patterns(f) && b < Patterns(f)
    ensures a < Inf(f) && b < Inf(f) && HostRounded(f, Value(f, na, a) * Value(f, nb, b), neg, host, nx) ==>
              NearestAway(f, Abs(Value(f, na, a) * Value(f, nb, b)), r)
    ensures host >= Inf(f) || !nx ==> r == host
  {
    hide *;
    Constants();
    r := RmmProduct(f, na, a, nb, b, ZERO, neg, host, nx);
  }

  // A zero divisor gives an infinity or a NaN.
  method RmmDiv(f: Fmt, na: bool, a: nat, nb: bool, b: nat, neg: bool, host: nat, nx: bool) returns (r: nat)
    requires FmtOk(f) && a < Patterns(f) && b < Patterns(f) && (Mant(f, b) == 0 ==> host >= Inf(f))
    ensures a < Inf(f) && b < Inf(f) && Value(f, nb, b) != 0.0 &&
            HostRounded(f, Value(f, na, a) / Value(f, nb, b), neg, host, nx) ==>
              NearestAway(f, Abs(Value(f, na, a) / Value(f, nb, b)), r)
    ensures host >= Inf(f) || !nx ==> r == host
  {
    hide *;
    Operand(f, na, a);
    Operand(f, nb, b);
    Constants();
    r := Rmm(f, neg, host, nx, FromFloat(f, na, a, 0), ZERO, FromFloat(f, nb, b, 0));
    if Value(f, nb, b) != 0.0 {
      ExactOver(FromFloat(f, na, a, 0), ZERO, FromFloat(f, nb, b, 0));
    }
  }

  // FCVT.S.D: a double rounded to a single.
  method RmmNarrow(na: bool, a: nat, neg: bool, host: nat, nx: bool) returns (r: nat)
    requires a < Patterns(BINARY64)
    ensures a < Inf(BINARY64) && HostRounded(BINARY32, Value(BINARY64, na, a), neg, host, nx) ==>
              NearestAway(BINARY32, Abs(Value(BINARY64, na, a)), r)
    ensures host >= Inf(BINARY32) || !nx ==> r == host
  {
    assert FmtOk(BINARY32) && FmtOk(BINARY64);
    hide *;
    Operand(BINARY64, na, a);
    Constants();
    r := Rmm(BINARY32, neg, host, nx, FromFloat(BINARY64, na, a, 0), ZERO, ONE);
    ExactOver(FromFloat(BINARY64, na, a, 0), ZERO, ONE);
  }

  // ---------- Square root needs no fixing ----------

  lemma ScaleInjective(m: int, n: int, e: int)
    requires Scale(m, e) == Scale(n, e)
    ensures m == n
  {
    ScaleSum(m - n, n, e);
    ScaleZero(m - n, e);
    hide Scale;
  }

  lemma ScaleSquare(h: nat, e: int)
    ensures Scale(h, e) * Scale(h, e) == Scale(h * h, 2 * e)
  {
    PAdd(e, e);
    Interchange(h, P(e), h, P(e));
    hide P;
  }

  lemma MidSquare(f: Fmt, b: nat)
    ensures var h := 2 * Mant(f, b) + 1;
            Mid(f, b) * Mid(f, b) == Scale(h * h, 2 * (Exp(f, b) - 1))
  {
    hide *;
    HalfUnitsVal(f, b, 1);
    ScaleSquare(2 * Mant(f, b) + 1, Exp(f, b) - 1);
  }

  lemma OddSquare(h: nat, w: nat)
    requires h % 2 == 1 && w > 0 && h > w
    ensures h * h % 2 == 1 && h * h > w
  {
    var k := h / 2;
    assert h * h == 2 * (k * h + k) + 1 by {
      assert h * h == (2 * k + 1) * h;
      assert (2 * k + 1) * h == 2 * (k * h) + h;
    }
    assert h * h >= h;
  }

  lemma ShlAtLeast(m: nat, n: nat)
    ensures Shl(m, n) >= m
    ensures n > 0 ==> Shl(m, n) % 2 == 0
  {
    if n > 0 {
      var w := Pow2(n - 1);
      assert m * (2 * w) == 2 * (m * w);
      assert m * w >= m;
    } else {
      assert Pow2(0) == 1;
    }
  }

  // An odd sq at exponent e differs from any m at a higher exponent, and from a smaller m at one no higher.
  lemma OddDiffers(m: nat, ea: int, sq: nat, e: int)
    requires sq % 2 == 1 && (ea <= e ==> m < sq)
    ensures Scale(m, ea) != Scale(sq, e)
  {
    if ea > e {
      ShlScale(m, ea - e, e);
      ShlAtLeast(m, ea - e);
      hide Shl, Scale;
      if Scale(m, ea) == Scale(sq, e) {
        ScaleInjective(Shl(m, ea - e), sq, e);
        assert false;
      }
    } else {
      ShlScale(sq, e - ea, ea);
      ShlAtLeast(sq, e - ea);
      hide Shl, Scale;
      if Scale(m, ea) == Scale(sq, e) {
        ScaleInjective(m, Shl(sq, e - ea), ea);
        assert false;
      }
    }
  }

  lemma TooManyBits(f: Fmt, a: nat, b: nat)
    ensures var h := 2 * Mant(f, b) + 1;
      h * h % 2 == 1 && (Exp(f, a) <= 2 * (Exp(f, b) - 1) ==> Mant(f, a) < h * h)
  {
    hide Mant, Exp, Pow2;
    var h := 2 * Mant(f, b) + 1;
    MantBound(f, a);
    if Exp(f, a) <= 2 * (Exp(f, b) - 1) {
      NormalAbove(f, a, b);
      OddSquare(h, Pow2(f.mb + 1));
    } else if h > 1 {
      OddSquare(h, h - 1);
    }
  }

  // No float is the square of a midpoint: the square has too many bits, or too low a last one.
  lemma SqrtNeverTies(f: Fmt, a: nat, b: nat)
    ensures Val(f, a) != Mid(f, b) * Mid(f, b)
  {
    MidSquare(f, b);
    TooManyBits(f, a, b);
    hide Mant, Exp, Scale, Mid, Pow2;
    var h := 2 * Mant(f, b) + 1;
    OddDiffers(Mant(f, a), Exp(f, a), h * h, 2 * (Exp(f, b) - 1));
  }

  // Below the lowest exponent there is no float, so b is a normal number.
  lemma NormalAbove(f: Fmt, a: nat, b: nat)
    requires Exp(f, a) <= 2 * (Exp(f, b) - 1)
    ensures 2 * Mant(f, b) + 1 > Pow2(f.mb + 1)
  {
  }

  lemma NearestAtMostInf(f: Fmt, x: real, b: nat)
    requires NearestEven(f, x, b)
    ensures b <= Inf(f)
  {
    hide Inf, Val;
  }

  // So the host's nearest-even square root is already the ties-away one.
  lemma SqrtAway(f: Fmt, a: nat, x: real, b: nat)
    requires x >= 0.0 && x * x == Val(f, a) && NearestEven(f, x, b)
    ensures NearestAway(f, x, b)
  {
    hide *;
    assert b <= Inf(f) by { NearestAtMostInf(f, x, b); }
    if b < Inf(f) {
      assert x != Mid(f, b) by { SqrtNeverTies(f, a, b); }
      AwayFromEven(f, x, b);
    } else {
      AwayAtInf(f, x, b);
    }
  }
}