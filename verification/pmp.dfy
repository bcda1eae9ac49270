// Physical memory protection: the sixteen pmpcfg/pmpaddr entries flattened into a sorted list of segments
// (src/rv64_system.cpp). An access is checked with one lookup instead of a scan of the entries.
module Pmp {
  const PMP_N := 16
  const TOP: int := 0x1_0000_0000_0000_0000 // one past the last physical address

  datatype Access = Fetch | Load | Store
  datatype Mode = Off | Tor | Na4 | Napot
  datatype Perm = Perm(r: bool, w: bool, x: bool)
  datatype Cfg = Cfg(perm: Perm, mode: Mode, locked: bool)

  // pmpaddr holds bits 55:2 of a physical address.
  datatype Entries = Entries(cfg: seq<Cfg>, addr: seq<nat>)

  ghost predicate EntriesOk(e: Entries) {
    && |e.cfg| == |e.addr| == PMP_N
    && forall i :: 0 <= i < PMP_N ==> e.addr[i] < 0x40_0000_0000_0000
  }

  function Grants(p: Perm, acc: Access): bool {
    match acc
    case Fetch => p.x
    case Load => p.r
    case Store => p.w
  }

  // ---------- What an entry matches ----------

  function Pow2(n: nat): (p: nat)
    ensures p > 0
  {
    if n == 0 then 1 else 2 * Pow2(n - 1)
  }

  // The trailing ones of a NAPOT pmpaddr give the size of its range.
  function TrailingOnes(a: nat): nat {
    if a % 2 == 1 then 1 + TrailingOnes(a / 2) else 0
  }

  function NapotSize(a: nat): nat {
    8 * Pow2(TrailingOnes(a))
  }

  datatype Range = Range(lo: int, hi: int)

  // The range entry i names, empty when it matches nothing.
  function RangeOf(e: Entries, i: nat): Range
    requires i < |e.cfg| && |e.addr| == |e.cfg|
  {
    var a := 4 * e.addr[i];
    match e.cfg[i].mode
    case Off => Range(0, 0)
    case Tor => Range(if i == 0 then 0 else 4 * e.addr[i - 1], a)
    case Na4 => Range(a, a + 4)
    case Napot => Range(a - a % NapotSize(e.addr[i]), a - a % NapotSize(e.addr[i]) + NapotSize(e.addr[i]))
  }

  predicate In(r: Range, b: int) {
    r.lo <= b < r.hi
  }

  lemma {:induction false} TrailingOnesBits(a: nat)
    ensures (a + 1) % Pow2(TrailingOnes(a)) == 0 && a % Pow2(TrailingOnes(a) + 1) == Pow2(TrailingOnes(a)) - 1
    ensures Pow2(TrailingOnes(a)) <= a + 1
    decreases a
  {
    if a % 2 == 1 {
      var t := TrailingOnes(a / 2);
      TrailingOnesBits(a / 2);
      var p, q := Pow2(t), a / 2;
      assert a == 2 * q + 1 && Pow2(t + 1) == 2 * p;
      assert (q + 1) % p == 0;
      DoubleMod(q + 1, p);
      DoubleMod(q, 2 * p);
      assert (2 * q) % (4 * p) == 2 * (q % (2 * p)) == 2 * (p - 1);
      OddMod(q, 2 * p);
    } else {
      assert Pow2(1) == 2 * Pow2(0) == 2;
    }
  }

  lemma DoubleMod(x: nat, m: nat)
    requires m > 0
    ensures (2 * x) % (2 * m) == 2 * (x % m)
  {
    var q, r := x / m, x % m;
    assert x == q * m + r;
    assert 2 * x == q * (2 * m) + 2 * r;
    ModUnique(2 * x, 2 * m, q, 2 * r);
  }

  lemma OddMod(x: nat, m: nat)
    requires m > 0
    ensures (2 * x + 1) % (2 * m) == 2 * (x % m) + 1
  {
    var q, r := x / m, x % m;
    assert x == q * m + r;
    assert 2 * x + 1 == q * (2 * m) + (2 * r + 1);
    ModUnique(2 * x + 1, 2 * m, q, 2 * r + 1);
  }

  lemma MulAtLeast(d: int, m: int)
    requires d >= 1 && m > 0
    ensures d * m >= m
  {
    assert (d - 1) * m >= 0;
  }

  lemma ModUnique(x: int, m: int, q: int, r: int)
    requires m > 0 && x == q * m + r && 0 <= r < m
    ensures x % m == r && x / m == q
  {
    var q', r' := x / m, x % m;
    assert x == q' * m + r';
    assert (q - q') * m == r' - r;
    if q' < q {
      MulAtLeast(q - q', m);
    } else if q' > q {
      MulAtLeast(q' - q, m);
    }
  }

  // Section 3.7.1 of the privileged specification: a NAPOT entry whose pmpaddr ends in a zero and t ones matches
  // the naturally aligned 2^(t+3)-byte range that holds 4 * pmpaddr.
  lemma NapotRange(e: Entries, i: nat)
    requires EntriesOk(e) && i < PMP_N && e.cfg[i].mode.Napot?
    ensures var r := RangeOf(e, i);
      && e.addr[i] % (2 * Pow2(TrailingOnes(e.addr[i]))) == Pow2(TrailingOnes(e.addr[i])) - 1
      && r.hi - r.lo == 8 * Pow2(TrailingOnes(e.addr[i]))
      && r.lo % (r.hi - r.lo) == 0
      && In(r, 4 * e.addr[i])
      && r.lo == 4 * (e.addr[i] - (Pow2(TrailingOnes(e.addr[i])) - 1))
      && 0 <= r.lo && r.hi <= 16 * 0x40_0000_0000_0000
  {
    var a, p := e.addr[i], Pow2(TrailingOnes(e.addr[i]));
    TrailingOnesBits(a);
    Aligned(a, p);
  }

  lemma Aligned(a: nat, p: nat)
    requires p > 0 && a % (2 * p) == p - 1
    ensures (4 * a) % (8 * p) == 4 * (p - 1)
    ensures (4 * a - 4 * (p - 1)) % (8 * p) == 0
  {
    var q := a / (2 * p);
    assert a == q * (2 * p) + (p - 1);
    assert q * (8 * p) == 4 * (q * (2 * p));
    ModUnique(4 * a, 8 * p, q, 4 * (p - 1));
    ModUnique(q * (8 * p), 8 * p, q, 0);
  }

  // The same specification in words: TOR compares word addresses with the two pmpaddrs, NA4 wants the word itself, and
  // NAPOT ignores the trailing ones and the zero after them.
  lemma EntryMatches(e: Entries, i: nat, b: nat)
    requires EntriesOk(e) && i < PMP_N
    ensures In(RangeOf(e, i), b) <==> match e.cfg[i].mode
      case Off => false
      case Tor => (i > 0 ==> e.addr[i - 1] <= b / 4) && b / 4 < e.addr[i]
      case Na4 => b / 4 == e.addr[i]
      case Napot => b / NapotSize(e.addr[i]) == 4 * e.addr[i] / NapotSize(e.addr[i])
  {
    if e.cfg[i].mode.Napot? {
      SameBlock(4 * e.addr[i], NapotSize(e.addr[i]), b);
    }
  }

  lemma SameBlock(a: nat, size: nat, b: nat)
    requires size > 0
    ensures a - a % size <= b < a - a % size + size <==> b / size == a / size
  {
    var q := a / size;
    assert a == q * size + a % size;
    assert b == b / size * size + b % size;
    if q * size <= b < q * size + size {
      ModUnique(b, size, q, b - q * size);
    }
  }

  lemma RangeBounds(e: Entries, i: nat)
    requires EntriesOk(e) && i < PMP_N
    ensures 0 <= RangeOf(e, i).lo < TOP && RangeOf(e, i).hi < TOP
  {
    if e.cfg[i].mode.Napot? {
      NapotRange(e, i);
    }
  }

  // ---------- The rule of the specification ----------

  ghost predicate MatchesAny(r: Range, pa: int, len: int) {
    exists b :: pa <= b < pa + len && In(r, b)
  }

  ghost predicate MatchesAll(r: Range, pa: int, len: int) {
    forall b :: pa <= b < pa + len ==> In(r, b)
  }

  predicate Permits(cfg: Cfg, acc: Access, machine: bool) {
    (machine && !cfg.locked) || Grants(cfg.perm, acc)
  }

  // The lowest-numbered entry, from i on, that matches any byte of the access decides, and must match every byte
  // of it. With none, M-mode may and S- and U-mode may not.
  ghost predicate Allowed(e: Entries, i: nat, pa: int, len: int, acc: Access, machine: bool)
    requires |e.cfg| == |e.addr| == PMP_N && i <= PMP_N
    decreases PMP_N - i
  {
    if i == PMP_N then machine
    else if MatchesAny(RangeOf(e, i), pa, len) then
      MatchesAll(RangeOf(e, i), pa, len) && Permits(e.cfg[i], acc, machine)
    else Allowed(e, i + 1, pa, len, acc, machine)
  }

  predicate Byte(pa: int, len: int, b: int) {
    pa <= b < pa + len
  }

  // Entry i matches a byte of the access and none before it does.
  ghost predicate Lowest(e: Entries, i: nat, pa: int, len: int)
    requires |e.cfg| == |e.addr| == PMP_N && i < PMP_N
  {
    && (exists b :: Byte(pa, len, b) && In(RangeOf(e, i), b))
    && (forall k, b :: 0 <= k < i && Byte(pa, len, b) ==> !In(RangeOf(e, k), b))
  }

  // Section 3.7.1: with no matching entry M-mode may; else the lowest decides. It must match all bytes, and ask the
  // permission of the access, except of M-mode unless it is locked.
  lemma AllowedMeaning(e: Entries, pa: int, len: int, acc: Access, machine: bool)
    requires |e.cfg| == |e.addr| == PMP_N
    ensures (forall i :: 0 <= i < PMP_N ==> !Lowest(e, i, pa, len)) ==> (Allowed(e, 0, pa, len, acc, machine) <==> machine)
    ensures forall i :: 0 <= i < PMP_N && Lowest(e, i, pa, len) ==>
      (Allowed(e, 0, pa, len, acc, machine) <==>
         && (forall b :: Byte(pa, len, b) ==> In(RangeOf(e, i), b))
         && ((machine && !e.cfg[i].locked) || Has(e.cfg[i].perm, acc)))
  {
    hide RangeOf, In, Permits, Lowest, Allowed;
    if forall i :: 0 <= i < PMP_N ==> !Lowest(e, i, pa, len) {
      NoLowest(e, 0, pa, len, acc, machine);
    }
    forall i | 0 <= i < PMP_N && Lowest(e, i, pa, len)
      ensures Allowed(e, 0, pa, len, acc, machine) <==> MatchesAll(RangeOf(e, i), pa, len) && Permits(e.cfg[i], acc, machine)
      ensures Permits(e.cfg[i], acc, machine) <==> (machine && !e.cfg[i].locked) || Has(e.cfg[i].perm, acc)
    {
      LowestDecides(e, 0, i, pa, len, acc, machine);
      PermitsIs(e.cfg[i], acc, machine);
    }
  }

  predicate Has(p: Perm, acc: Access) {
    (acc == Fetch && p.x) || (acc == Load && p.r) || (acc == Store && p.w)
  }

  lemma PermitsIs(cfg: Cfg, acc: Access, machine: bool)
    ensures Permits(cfg, acc, machine) <==> (machine && !cfg.locked) || Has(cfg.perm, acc)
  {
  }

  lemma {:induction false} LowestDecides(e: Entries, n: nat, i: nat, pa: int, len: int, acc: Access, machine: bool)
    requires |e.cfg| == |e.addr| == PMP_N && n <= i < PMP_N && Lowest(e, i, pa, len)
    ensures Allowed(e, n, pa, len, acc, machine) <==> MatchesAll(RangeOf(e, i), pa, len) && Permits(e.cfg[i], acc, machine)
    decreases i - n
  {
    hide RangeOf, In, Permits;
    if n < i {
      LowestDecides(e, n + 1, i, pa, len, acc, machine);
      forall b | pa <= b < pa + len ensures !In(RangeOf(e, n), b) {
        assert Byte(pa, len, b);
      }
    }
  }

  lemma {:induction false} NoLowest(e: Entries, n: nat, pa: int, len: int, acc: Access, machine: bool)
    requires |e.cfg| == |e.addr| == PMP_N && n <= PMP_N && forall i :: 0 <= i < PMP_N ==> !Lowest(e, i, pa, len)
    requires forall k, b :: 0 <= k < n && Byte(pa, len, b) ==> !In(RangeOf(e, k), b)
    ensures Allowed(e, n, pa, len, acc, machine) == machine
    decreases PMP_N - n
  {
    hide RangeOf, In, Permits;
    if n < PMP_N {
      assert !Lowest(e, n, pa, len);
      NoLowest(e, n + 1, pa, len, acc, machine);
    }
  }

  // ---------- Rules: the entries that can match ----------

  datatype Rule = Rule(range: Range, cfg: Cfg)

  // The rules of entries 0 to i - 1, in order.
  function Rules(e: Entries, i: nat): seq<Rule>
    requires |e.cfg| == |e.addr| == PMP_N && i <= PMP_N
  {
    if i == 0 then []
    else
      var r := RangeOf(e, i - 1);
      Rules(e, i - 1) + (if r.lo < r.hi then [Rule(r, e.cfg[i - 1])] else [])
  }

  ghost predicate AllowedBy(rules: seq<Rule>, pa: int, len: int, acc: Access, machine: bool) {
    if rules == [] then machine
    else if MatchesAny(rules[0].range, pa, len) then
      MatchesAll(rules[0].range, pa, len) && Permits(rules[0].cfg, acc, machine)
    else AllowedBy(rules[1..], pa, len, acc, machine)
  }

  // Entries before i match no byte, so the rules of all entries say what the entries from i on say.
  lemma {:induction false} RulesDecide(e: Entries, i: nat, pa: int, len: int, acc: Access, machine: bool)
    requires |e.cfg| == |e.addr| == PMP_N && i <= PMP_N
    ensures AllowedBy(Rules(e, PMP_N), pa, len, acc, machine) ==
      (if NoneMatches(Rules(e, i), pa, len) then Allowed(e, i, pa, len, acc, machine)
       else AllowedBy(Rules(e, i), pa, len, acc, machine))
    decreases PMP_N - i
  {
    if i == PMP_N {
      if NoneMatches(Rules(e, i), pa, len) {
        NoneDecides(Rules(e, i), pa, len, acc, machine);
      }
    } else {
      RulesDecide(e, i + 1, pa, len, acc, machine);
      AppendDecides(Rules(e, i), Rules(e, i + 1)[|Rules(e, i)|..], pa, len, acc, machine);
      assert Rules(e, i + 1) == Rules(e, i) + Rules(e, i + 1)[|Rules(e, i)|..];
    }
  }

  ghost predicate NoneMatches(rules: seq<Rule>, pa: int, len: int) {
    forall k :: 0 <= k < |rules| ==> !MatchesAny(rules[k].range, pa, len)
  }

  lemma {:induction false} NoneDecides(rules: seq<Rule>, pa: int, len: int, acc: Access, machine: bool)
    requires NoneMatches(rules, pa, len)
    ensures AllowedBy(rules, pa, len, acc, machine) == machine
  {
    if rules != [] {
      NoneDecides(rules[1..], pa, len, acc, machine);
    }
  }

  lemma {:induction false} AppendDecides(rules: seq<Rule>, more: seq<Rule>, pa: int, len: int, acc: Access, machine: bool)
    ensures AllowedBy(rules + more, pa, len, acc, machine) ==
      (if NoneMatches(rules, pa, len) then AllowedBy(more, pa, len, acc, machine)
       else AllowedBy(rules, pa, len, acc, machine))
  {
    if rules == [] {
      assert rules + more == more;
    } else {
      assert (rules + more)[1..] == rules[1..] + more;
      AppendDecides(rules[1..], more, pa, len, acc, machine);
      if NoneMatches(rules[1..], pa, len) && !MatchesAny(rules[0].range, pa, len) {
        assert NoneMatches(rules, pa, len);
      }
    }
  }

  // ---------- First matching rule of a byte ----------

  // The first rule that matches byte b, or |rules|.
  function First(rules: seq<Rule>, b: int): (f: nat)
    ensures f <= |rules|
    ensures f < |rules| ==> In(rules[f].range, b)
    ensures forall k :: 0 <= k < f ==> !In(rules[k].range, b)
  {
    if rules == [] then 0 else if In(rules[0].range, b) then 0 else 1 + First(rules[1..], b)
  }

  predicate Decision(rules: seq<Rule>, f: nat, acc: Access, machine: bool) {
    if f < |rules| then Permits(rules[f].cfg, acc, machine) else machine
  }

  // An access all of whose bytes have the same first rule is decided by that rule.
  lemma {:induction false} UniformDecides(rules: seq<Rule>, f: nat, pa: int, len: int, acc: Access, machine: bool)
    requires len > 0 && forall b :: pa <= b < pa + len ==> First(rules, b) == f
    ensures AllowedBy(rules, pa, len, acc, machine) == Decision(rules, f, acc, machine)
  {
    assert First(rules, pa) == f;
    if rules != [] {
      if MatchesAny(rules[0].range, pa, len) {
        var b :| pa <= b < pa + len && In(rules[0].range, b);
        assert First(rules, b) == f;
        forall c | pa <= c < pa + len ensures In(rules[0].range, c) {
          assert First(rules, c) == f;
        }
      } else {
        forall b | pa <= b < pa + len ensures First(rules[1..], b) == f - 1 {
          assert !In(rules[0].range, b);
          assert First(rules, b) == f;
        }
        assert !In(rules[0].range, pa);
        UniformDecides(rules[1..], f - 1, pa, len, acc, machine);
      }
    }
  }

  // An access whose bytes have different first rules fails: the lowest rule matching any of them misses another.
  lemma {:induction false} MixedFails(rules: seq<Rule>, pa: int, len: int, b: int, c: int, acc: Access, machine: bool)
    requires pa <= b < pa + len && pa <= c < pa + len && First(rules, b) != First(rules, c)
    ensures !AllowedBy(rules, pa, len, acc, machine)
  {
    if !MatchesAny(rules[0].range, pa, len) {
      MixedFails(rules[1..], pa, len, b, c, acc, machine);
    }
  }

  // ---------- The flattened segments ----------

  // Physical addresses lo to last, and what S/U and M may do with each byte of them.
  datatype Seg = Seg(lo: int, last: int, su: Perm, m: Perm)

  const ALL := Perm(true, true, true)
  const NOTHING := Perm(false, false, false)

  function SuPerm(rules: seq<Rule>, f: nat): Perm {
    if f < |rules| then rules[f].cfg.perm else NOTHING
  }

  function MPerm(rules: seq<Rule>, f: nat): Perm {
    if f < |rules| && rules[f].cfg.locked then rules[f].cfg.perm else ALL
  }

  // Every byte of the segment has the same first rule, and the segment grants what that rule does.
  ghost predicate SegOk(rules: seq<Rule>, s: Seg) {
    && 0 <= s.lo <= s.last < TOP
    && (forall b :: s.lo <= b <= s.last ==> First(rules, b) == First(rules, s.lo))
    && s.su == SuPerm(rules, First(rules, s.lo))
    && s.m == MPerm(rules, First(rules, s.lo))
  }

  // The segments tile the address space, and neighbours have different first rules.
  ghost predicate Flat(rules: seq<Rule>, segs: seq<Seg>) {
    && |segs| > 0 && segs[0].lo == 0 && segs[|segs| - 1].last == TOP - 1
    && (forall k :: 0 <= k < |segs| ==> SegOk(rules, segs[k]))
    && (forall k :: 0 < k < |segs| ==> Joined(rules, segs[k - 1], segs[k]))
  }

  ghost predicate Joined(rules: seq<Rule>, s: Seg, t: Seg) {
    t.lo == s.last + 1 && First(rules, s.lo) != First(rules, t.lo)
  }

  ghost predicate Increasing(bs: seq<int>) {
    forall i, j :: 0 <= i < j < |bs| ==> bs[i] < bs[j]
  }

  // The interval bounds[b] opens.
  function End(bs: seq<int>, b: nat): int
    requires b < |bs|
  {
    if b + 1 < |bs| then bs[b + 1] else TOP
  }

  // No rule starts or ends strictly between two bounds, so every byte between them has the same first rule.
  lemma {:induction false} SameBetween(rules: seq<Rule>, bs: seq<int>, b: nat, x: int)
    requires Increasing(bs) && b < |bs| && bs[b] <= x < End(bs, b)
    requires forall k :: 0 <= k < |rules| ==> rules[k].range.lo in bs && rules[k].range.hi in bs
    ensures First(rules, x) == First(rules, bs[b])
    decreases |rules|
  {
    if rules != [] {
      Apart(bs, b, x, rules[0].range.lo);
      Apart(bs, b, x, rules[0].range.hi);
      forall k | 0 <= k < |rules[1..]| ensures rules[1..][k].range.lo in bs && rules[1..][k].range.hi in bs {
        assert rules[1..][k] == rules[k + 1];
      }
      SameBetween(rules[1..], bs, b, x);
    }
  }

  lemma Apart(bs: seq<int>, b: nat, x: int, y: int)
    requires Increasing(bs) && b < |bs| && bs[b] <= x < End(bs, b) && y in bs
    ensures y <= x <==> y <= bs[b]
  {
    var i :| 0 <= i < |bs| && bs[i] == y;
  }

  // std::sort and std::unique.
  method SortUnique(a: seq<int>) returns (bs: seq<int>)
    ensures Increasing(bs) && |bs| <= |a|
    ensures forall x :: x in bs <==> x in a
  {
    bs := [];
    for n := 0 to |a|
      invariant Increasing(bs) && |bs| <= n
      invariant forall x :: x in bs <==> x in a[..n]
    {
      var k := 0;
      while k < |bs| && bs[k] < a[n]
        invariant 0 <= k <= |bs|
        invariant forall i :: 0 <= i < k ==> bs[i] < a[n]
      {
        k := k + 1;
      }
      assert a[..n + 1] == a[..n] + [a[n]];
      if k == |bs| || bs[k] != a[n] {
        bs := InsertAt(bs, k, a[n]);
      }
    }
    assert a[..|a|] == a;
  }

  function InsertAt(bs: seq<int>, k: nat, x: int): (r: seq<int>)
    requires Increasing(bs) && k <= |bs|
    requires (forall i :: 0 <= i < k ==> bs[i] < x) && (k < |bs| ==> x < bs[k])
    ensures Increasing(r) && |r| == |bs| + 1 && forall y :: y in r <==> y in bs || y == x
  {
    bs[..k] + [x] + bs[k..]
  }

  lemma {:induction false} RulesLength(e: Entries, i: nat)
    requires |e.cfg| == |e.addr| == PMP_N && i <= PMP_N
    ensures |Rules(e, i)| <= i
  {
    if i > 0 {
      RulesLength(e, i - 1);
    }
  }

  lemma {:induction false} RulesInRange(e: Entries, i: nat)
    requires EntriesOk(e) && i <= PMP_N
    ensures forall k :: 0 <= k < |Rules(e, i)| ==>
      0 <= Rules(e, i)[k].range.lo < Rules(e, i)[k].range.hi < TOP
  {
    if i > 0 {
      RulesInRange(e, i - 1);
      RangeBounds(e, i - 1);
    }
  }

  // ---------- The hart's PMP state ----------

  class PmpUnit {
    const cfg: array<Cfg>
    const addr: array<nat>
    var segs: seq<Seg>
    var hint: nat    // pmp_seg_last: the segment the last check found
    var nrules: nat
    var mFast: bool

    constructor ()
      ensures cfg.Length == addr.Length == PMP_N && fresh(cfg) && fresh(addr)
      ensures forall i :: 0 <= i < PMP_N ==> cfg[i].mode.Off? && addr[i] == 0
    {
      cfg := new Cfg[PMP_N](_ => Cfg(NOTHING, Off, false));
      addr := new nat[PMP_N](_ => 0);
      segs, hint, nrules, mFast := [], 0, 0, true;
    }

    function Current(): Entries
      reads this, cfg, addr
    {
      Entries(cfg[..], addr[..])
    }

    // The segments are those of the current entries.
    ghost predicate Valid()
      reads this, cfg, addr
    {
      && EntriesOk(Current())
      && Flat(Rules(Current(), PMP_N), segs)
      && |segs| <= 2 * PMP_N + 1
      && hint < |segs|
      && nrules == |Rules(Current(), PMP_N)|
      && (mFast <==> FastRules(Rules(Current(), PMP_N)))
    }

    // The rules loop of pmp_update.
    method CollectRules() returns (rules: seq<Rule>, fast: bool)
      requires EntriesOk(Current())
      ensures rules == Rules(Current(), PMP_N) && (fast <==> FastRules(rules))
    {
      rules, fast := [], true;
      var i := 0;
      while i < PMP_N
        invariant 0 <= i <= PMP_N
        invariant rules == Rules(Current(), i) && (fast <==> FastRules(rules))
      {
        var r := RangeOf(Current(), i);
        FastAppend(rules, Rule(r, cfg[i]));
        if r.lo < r.hi {
          rules := rules + [Rule(r, cfg[i])];
          if cfg[i].locked || r.lo % 8 != 0 || r.hi % 8 != 0 {
            fast := false;
          }
        }
        i := i + 1;
      }
    }

    // pmp_update, up to the TLB flush.
    method Update()
      requires EntriesOk(Current())
      modifies this
      ensures Valid() && Current() == old(Current())
    {
      var rules, fast := CollectRules();
      RulesLength(Current(), PMP_N);
      RulesInRange(Current(), PMP_N);
      var bounds := Bounds(rules);
      var flat := Flatten(rules, bounds);
      nrules, mFast, segs, hint := |rules|, fast, flat, 0;
    }

    // pmp_seg: the segment that holds pa, wherever the hint points.
    method Find(pa: int) returns (s: Seg)
      requires Valid() && 0 <= pa < TOP
      modifies this`hint
      ensures Valid() && s in segs && s.lo <= pa <= s.last
    {
      s := segs[hint];
      if pa < s.lo || pa > s.last {
        var i := 0;
        assert SegOk(Rules(Current(), PMP_N), segs[|segs| - 1]);
        while pa > segs[i].last
          invariant 0 <= i < |segs|
          invariant segs[i].lo <= pa
          decreases |segs| - i
        {
          assert Joined(Rules(Current(), PMP_N), segs[i], segs[i + 1]);
          i := i + 1;
        }
        hint := i;
        s := segs[i];
      }
    }

    // pmp_ok: the one-lookup check gives the answer of the entries, whatever the hint.
    method Check(pa: int, len: int, acc: Access, machine: bool) returns (ok: bool)
      requires Valid() && 0 <= pa && len > 0 && pa + len <= TOP
      modifies this`hint
      ensures Valid() && (ok <==> Allowed(Current(), 0, pa, len, acc, machine))
    {
      var s := Find(pa);
      ghost var k :| 0 <= k < |segs| && segs[k] == s;
      SegmentDecides(Current(), segs, k, pa, len, acc, machine);
      ok := pa + len - 1 <= s.last && Grants(if machine then s.m else s.su, acc);
    }

    // pmp_page_allow_su: what S/U may do on the whole page, nothing if that varies in it.
    method PageAllow(page: int) returns (p: Perm)
      requires Valid() && 0 <= page && page + 4096 <= TOP
      modifies this`hint
      ensures Valid() && forall acc ::
        Grants(p, acc) <==> Allowed(Current(), 0, page, 4096, acc, false)
    {
      var s := Find(page);
      ghost var k :| 0 <= k < |segs| && segs[k] == s;
      forall acc ensures Allowed(Current(), 0, page, 4096, acc, false) <==> page + 4095 <= s.last && Grants(s.su, acc) {
        SegmentDecides(Current(), segs, k, page, 4096, acc, false);
      }
      p := if page + 4095 <= s.last then s.su else NOTHING;
    }

    // translate's shortcuts for an untranslated access: no entries at all, or fast rules and an access inside an
    // aligned 8-byte block. They give the answer of the full check.
    method CheckBare(pa: int, len: int, acc: Access, machine: bool) returns (ok: bool)
      requires Valid() && 0 <= pa && len > 0 && pa + len <= TOP
      modifies this`hint
      ensures Valid() && (ok <==> Allowed(Current(), 0, pa, len, acc, machine))
    {
      RulesDecide(Current(), 0, pa, len, acc, machine);
      if machine && nrules == 0 {
        ok := true;
      } else if machine && mFast && pa % 8 + len <= 8 {
        FastDecides(Rules(Current(), PMP_N), pa, len, acc);
        ok := true;
      } else {
        ok := Check(pa, len, acc, machine);
      }
    }
  }

  // No rule is locked and every bound is 8-byte aligned.
  ghost predicate FastRules(rules: seq<Rule>) {
    forall k :: 0 <= k < |rules| ==> !rules[k].cfg.locked && rules[k].range.lo % 8 == 0 && rules[k].range.hi % 8 == 0
  }

  method FirstRule(rules: seq<Rule>, b: int) returns (f: nat)
    ensures f == First(rules, b)
  {
    f := 0;
    while f < |rules| && !(rules[f].range.lo <= b < rules[f].range.hi)
      invariant f <= |rules|
      invariant forall k :: 0 <= k < f ==> !In(rules[k].range, b)
    {
      f := f + 1;
    }
  }

  lemma FastAppend(rules: seq<Rule>, r: Rule)
    ensures FastRules(rules + [r]) <==>
      FastRules(rules) && !r.cfg.locked && r.range.lo % 8 == 0 && r.range.hi % 8 == 0
  {
    if FastRules(rules + [r]) {
      forall k | 0 <= k < |rules|
        ensures !rules[k].cfg.locked && rules[k].range.lo % 8 == 0 && rules[k].range.hi % 8 == 0
      {
        assert (rules + [r])[k] == rules[k];
      }
      assert (rules + [r])[|rules|] == r;
    }
  }

  // The segments built so far are right, the last one up to `end`.
  ghost predicate Built(rules: seq<Rule>, segs: seq<Seg>, end: int) {
    && |segs| > 0 && segs[0].lo == 0 && segs[|segs| - 1].lo < end <= TOP && segs[|segs| - 1].last == TOP - 1
    && (forall k :: 0 <= k < |segs| - 1 ==> SegOk(rules, segs[k]))
    && SegOk(rules, segs[|segs| - 1].(last := end - 1))
    && (forall k :: 0 < k < |segs| ==> Joined(rules, segs[k - 1], segs[k]))
  }

  lemma GrowLast(rules: seq<Rule>, segs: seq<Seg>, end: int, next: int)
    requires Built(rules, segs, end) && end < next <= TOP
    requires forall x :: end <= x < next ==> First(rules, x) == First(rules, segs[|segs| - 1].lo)
    ensures Built(rules, segs, next)
  {
  }

  // The segment that opens at lo, whose first rule is f.
  function NewSeg(rules: seq<Rule>, lo: int, f: nat): Seg {
    Seg(lo, TOP - 1, SuPerm(rules, f), MPerm(rules, f))
  }

  // Closes the last segment before lo and opens a new one.
  function Split(rules: seq<Rule>, segs: seq<Seg>, lo: int, f: nat): (r: seq<Seg>)
    requires |segs| > 0
  {
    segs[|segs| - 1 := segs[|segs| - 1].(last := lo - 1)] + [NewSeg(rules, lo, f)]
  }

  lemma AddSeg(rules: seq<Rule>, segs: seq<Seg>, end: int, f: nat, next: int)
    requires Built(rules, segs, end) && end < next <= TOP
    requires forall x :: end <= x < next ==> First(rules, x) == f
    requires f != First(rules, segs[|segs| - 1].lo)
    ensures Built(rules, Split(rules, segs, end, f), next)
    ensures First(rules, Split(rules, segs, end, f)[|segs|].lo) == f
  {
    var n, t := |segs|, Split(rules, segs, end, f);
    assert First(rules, end) == f;
    forall k | 0 < k < |t| ensures Joined(rules, t[k - 1], t[k]) {
      if k < n {
        assert Joined(rules, segs[k - 1], segs[k]);
      }
    }
    forall k | 0 <= k < |t| - 1 ensures SegOk(rules, t[k]) {
      assert k < n - 1 ==> SegOk(rules, segs[k]);
    }
  }

  lemma EndOk(bounds: seq<int>, b: nat)
    requires Increasing(bounds) && b < |bounds| && forall x :: x in bounds ==> 0 <= x < TOP
    ensures bounds[b] < End(bounds, b) <= TOP
  {
    assert bounds[b] in bounds;
    if b + 1 < |bounds| {
      assert bounds[b + 1] in bounds;
    }
  }

  lemma FirstSegment(rules: seq<Rule>, next: int)
    requires 0 < next <= TOP && forall x :: 0 <= x < next ==> First(rules, x) == First(rules, 0)
    ensures Built(rules, [NewSeg(rules, 0, First(rules, 0))], next)
  {
  }

  lemma BetweenBounds(rules: seq<Rule>, bounds: seq<int>, b: nat)
    requires Increasing(bounds) && b < |bounds|
    requires forall k :: 0 <= k < |rules| ==> rules[k].range.lo in bounds && rules[k].range.hi in bounds
    ensures forall x :: bounds[b] <= x < End(bounds, b) ==> First(rules, x) == First(rules, bounds[b])
  {
    forall x | bounds[b] <= x < End(bounds, b) ensures First(rules, x) == First(rules, bounds[b]) {
      SameBetween(rules, bounds, b, x);
    }
  }

  ghost predicate Bounding(rules: seq<Rule>, bounds: seq<int>) {
    && Increasing(bounds) && |bounds| > 0 && bounds[0] == 0
    && (forall b :: b in bounds ==> 0 <= b < TOP)
    && (forall k :: 0 <= k < |rules| ==> rules[k].range.lo in bounds && rules[k].range.hi in bounds)
  }

  // The segment-building loop of pmp_update.
  method Flatten(rules: seq<Rule>, bounds: seq<int>) returns (segs: seq<Seg>)
    requires Bounding(rules, bounds)
    ensures Flat(rules, segs) && |segs| <= |bounds|
  {
    var prev := FirstRule(rules, 0);
    segs := [NewSeg(rules, 0, prev)];
    EndOk(bounds, 0);
    BetweenBounds(rules, bounds, 0);
    FirstSegment(rules, End(bounds, 0));
    for b := 1 to |bounds|
      invariant |segs| <= b
      invariant Built(rules, segs, End(bounds, b - 1)) && prev == First(rules, segs[|segs| - 1].lo)
    {
      var first := FirstRule(rules, bounds[b]);
      EndOk(bounds, b);
      BetweenBounds(rules, bounds, b);
      if first == prev {
        GrowLast(rules, segs, bounds[b], End(bounds, b));
      } else {
        AddSeg(rules, segs, bounds[b], first, End(bounds, b));
        segs, prev := Split(rules, segs, bounds[b], first), first;
      }
    }
    BuiltIsFlat(rules, segs);
  }

  lemma BuiltIsFlat(rules: seq<Rule>, segs: seq<Seg>)
    requires Built(rules, segs, TOP)
    ensures Flat(rules, segs)
  {
    assert segs[|segs| - 1].(last := TOP - 1) == segs[|segs| - 1];
  }

  // The bounds array of pmp_update: zero and both ends of every rule.
  method Bounds(rules: seq<Rule>) returns (bounds: seq<int>)
    requires forall k :: 0 <= k < |rules| ==> 0 <= rules[k].range.lo < rules[k].range.hi < TOP
    ensures Bounding(rules, bounds) && |bounds| <= 2 * |rules| + 1
  {
    var all := [0];
    for k := 0 to |rules|
      invariant |all| == 2 * k + 1 && 0 in all
      invariant forall j :: 0 <= j < k ==> rules[j].range.lo in all && rules[j].range.hi in all
      invariant forall b :: b in all ==> 0 <= b < TOP
    {
      all := all + [rules[k].range.lo, rules[k].range.hi];
    }
    bounds := SortUnique(all);
    assert 0 in bounds;
    assert bounds[0] in bounds;
  }

  // ---------- Lookups ----------

  // The segment that holds pa; tiling makes it unique.
  lemma {:induction false} OneSegment(rules: seq<Rule>, segs: seq<Seg>, j: nat, k: nat, pa: int)
    requires Flat(rules, segs) && j < |segs| && k < |segs|
    requires segs[j].lo <= pa <= segs[j].last && segs[k].lo <= pa <= segs[k].last
    ensures j == k
  {
    if j < k {
      Before(rules, segs, j, k);
    } else if k < j {
      Before(rules, segs, k, j);
    }
  }

  lemma {:induction false} Before(rules: seq<Rule>, segs: seq<Seg>, j: nat, k: nat)
    requires Flat(rules, segs) && j < k < |segs|
    ensures segs[j].last < segs[k].lo
    decreases k - j
  {
    assert Joined(rules, segs[k - 1], segs[k]) && SegOk(rules, segs[k - 1]);
    if j < k - 1 {
      Before(rules, segs, j, k - 1);
    }
  }

  // What the segment that holds pa says of an access is what the entries say.
  lemma SegmentDecides(e: Entries, segs: seq<Seg>, k: nat, pa: int, len: int, acc: Access, machine: bool)
    requires |e.cfg| == |e.addr| == PMP_N && Flat(Rules(e, PMP_N), segs) && k < |segs|
    requires segs[k].lo <= pa <= segs[k].last && len > 0 && pa + len <= TOP
    ensures Allowed(e, 0, pa, len, acc, machine) <==>
      pa + len - 1 <= segs[k].last && Grants(if machine then segs[k].m else segs[k].su, acc)
  {
    var rules := Rules(e, PMP_N);
    RulesDecide(e, 0, pa, len, acc, machine);
    assert SegOk(rules, segs[k]);
    var f := First(rules, segs[k].lo);
    if pa + len - 1 <= segs[k].last {
      UniformDecides(rules, f, pa, len, acc, machine);
    } else {
      assert Joined(rules, segs[k], segs[k + 1]);
      MixedFails(rules, pa, len, pa, segs[k].last + 1, acc, machine);
    }
  }

  // An M-mode access inside an aligned 8-byte block cannot fail when the rules are fast.
  lemma {:induction false} FastDecides(rules: seq<Rule>, pa: int, len: int, acc: Access)
    requires FastRules(rules) && pa >= 0 && len > 0 && pa % 8 + len <= 8
    ensures AllowedBy(rules, pa, len, acc, true)
  {
    if rules != [] {
      assert rules[0] in rules && FastRules(rules[1..]);
      if MatchesAny(rules[0].range, pa, len) {
        assert MatchesAll(rules[0].range, pa, len);
      } else {
        FastDecides(rules[1..], pa, len, acc);
      }
    }
  }
}
