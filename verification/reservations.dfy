// LR/SC reservations across harts (src/riscv_impl.h, src/rv64_system.cpp).
//
// A store that hits a hart's store DTLB goes straight to memory and tells nobody. Reservations stay sound because
// no store DTLB ever maps a page that holds one: LR evicts the page everywhere and a refill is refused while it
// is reserved. Every other store clears the reservations of the other harts it overlaps.
module Reservations {
  newtype byte = x | 0 <= x < 256

  const DTLB_N := 16
  const PAGE := 4096

  datatype Line = Empty | Line(vpn: nat, page: nat)
  datatype Resv = Resv(valid: bool, va: nat, size: nat, value: seq<byte>, pa: nat)
  datatype Hart = Hart(store: seq<Line>, resv: Resv)
  datatype Board = Board(base: nat, dram: seq<byte>, harts: seq<Hart>)

  // What a translation found: the physical address, what becomes of the store DTLB line (a bare or M-mode access
  // leaves it alone), and the A/D update of the page-table entry, if one was due.
  datatype Fill = Bare | Cacheable | Uncacheable
  datatype Ad = NoAd | Ad(pa: nat, pte: seq<byte>)
  datatype Xlat = Xlat(pa: nat, fill: Fill, ad: Ad)

  datatype Event =
    | Walk(h: nat, ad: Ad)                                       // any translation for a load or a fetch
    | FillStore(h: nat, va: nat, x: Xlat)                        // a store translation before an AMO or an SC
    | Write(h: nat, va: nat, data: seq<byte>, x: Xlat)           // a store instruction within a page
    | SlowWrite(h: nat, va: nat, data: seq<byte>, x: Xlat)       // an AMO's store, or a part of a page-crossing one
    | LoadReserve(h: nat, va: nat, size: nat, x: Xlat)
    | StoreCond(h: nat, va: nat, data: seq<byte>, xl: Xlat, xs: Xlat)
    | Flush(h: nat)                                              // a satp, PMP or mstatus write: reservations stay
    | Fence(h: nat)                                              // sfence.vma
    | Trap(h: nat, flush: bool)                                  // a trap or an xret
    | Dma(pa: nat, data: seq<byte>)                              // a PCIe or virtio write

  // ---------- Memory ----------

  predicate InDram(b: Board, pa: nat, len: nat) {
    b.base <= pa && pa + len <= b.base + |b.dram|
  }

  function Read(b: Board, pa: nat, len: nat): seq<byte>
    requires InDram(b, pa, len)
  {
    b.dram[pa - b.base..pa - b.base + len]
  }

  function Poked(dram: seq<byte>, at: nat, data: seq<byte>): (r: seq<byte>)
    requires at + |data| <= |dram|
    ensures |r| == |dram|
  {
    dram[..at] + data + dram[at + |data|..]
  }

  predicate SameShape(b: Board, b': Board) {
    b'.base == b.base && |b'.dram| == |b.dram| && |b'.harts| == |b.harts|
  }

  function Poke(b: Board, pa: nat, data: seq<byte>): (r: Board)
    requires InDram(b, pa, |data|)
    ensures SameShape(b, r)
  {
    b.(dram := Poked(b.dram, pa - b.base, data))
  }

  predicate Overlap(pa: nat, len: nat, qa: nat, qlen: nat) {
    pa < qa + qlen && qa < pa + len
  }

  // ---------- The harts' lines and reservations ----------

  function Drop(k: Hart): Hart {
    k.(resv := k.resv.(valid := false))
  }

  function Hit(k: Hart, pa: nat, len: nat): bool {
    k.resv.valid && Overlap(pa, len, k.resv.pa, k.resv.size)
  }

  function ClearedAt(k: Hart, pa: nat, len: nat): Hart {
    if Hit(k, pa, len) then Drop(k) else k
  }

  function Cleared(harts: seq<Hart>, storer: nat, pa: nat, len: nat): (r: seq<Hart>)
    ensures |r| == |harts|
  {
    seq(|harts|, i requires 0 <= i < |harts| => if i != storer then ClearedAt(harts[i], pa, len) else harts[i])
  }

  predicate PageReserved(harts: seq<Hart>, page: nat) {
    exists g :: 0 <= g < |harts| && harts[g].resv.valid && harts[g].resv.pa / PAGE == page
  }

  function WithoutPage(store: seq<Line>, page: nat): (r: seq<Line>)
    ensures |r| == |store|
  {
    seq(|store|, e requires 0 <= e < |store| => if store[e].Line? && store[e].page == page then Empty else store[e])
  }

  function Evicted(harts: seq<Hart>, page: nat): (r: seq<Hart>)
    ensures |r| == |harts|
  {
    seq(|harts|, i requires 0 <= i < |harts| => harts[i].(store := WithoutPage(harts[i].store, page)))
  }

  function Emptied(): seq<Line> {
    seq(DTLB_N, e => Empty)
  }

  // ---------- The operations ----------

  predicate Many(b: Board) {
    |b.harts| > 1
  }

  // A store that takes the slow path: other harts' reservations on its bytes are cleared.
  function CpuWrite(b: Board, h: nat, pa: nat, data: seq<byte>): (r: Board)
    requires InDram(b, pa, |data|)
    ensures SameShape(b, r)
  {
    var b' := Poke(b, pa, data);
    if Many(b) then b'.(harts := Cleared(b'.harts, h, pa, |data|)) else b'
  }

  predicate AdOk(b: Board, ad: Ad) {
    ad.Ad? ==> |ad.pte| == 8 && InDram(b, ad.pa, 8)
  }

  function AdWrite(b: Board, h: nat, ad: Ad): (r: Board)
    requires AdOk(b, ad)
    ensures SameShape(b, r)
  {
    if ad.Ad? then CpuWrite(b, h, ad.pa, ad.pte) else b
  }

  function SetLine(harts: seq<Hart>, h: nat, slot: nat, line: Line): (r: seq<Hart>)
    requires h < |harts| && slot < |harts[h].store|
    ensures |r| == |harts|
  {
    harts[h := harts[h].(store := harts[h].store[slot := line])]
  }

  function LineFor(va: nat, x: Xlat): Line {
    if x.fill.Cacheable? then Line(va / PAGE, x.pa / PAGE) else Empty
  }

  function FillLine(b: Board, h: nat, va: nat, x: Xlat): (r: Board)
    requires h < |b.harts| && |b.harts[h].store| == DTLB_N
    ensures SameShape(b, r)
  {
    if x.fill.Bare? then b
    else if Many(b) && PageReserved(b.harts, x.pa / PAGE) then b
    else b.(harts := SetLine(b.harts, h, va / PAGE % DTLB_N, LineFor(va, x)))
  }

  predicate Shaped(b: Board) {
    forall h :: 0 <= h < |b.harts| ==> |b.harts[h].store| == DTLB_N
  }

  function StoreXlat(b: Board, h: nat, va: nat, x: Xlat): (r: Board)
    requires h < |b.harts| && Shaped(b) && AdOk(b, x.ad)
    ensures SameShape(b, r)
  {
    FillLine(AdWrite(b, h, x.ad), h, va, x)
  }

  function Slow(b: Board, h: nat, va: nat, data: seq<byte>, x: Xlat): (r: Board)
    requires h < |b.harts| && Shaped(b) && AdOk(b, x.ad)
    ensures SameShape(b, r)
  {
    var b' := StoreXlat(b, h, va, x);
    if InDram(b', x.pa, |data|) then CpuWrite(b', h, x.pa, data) else b'
  }

  // The store DTLB answers an aligned access whose page it maps.
  predicate Fast(k: Hart, va: nat, size: nat)
    requires |k.store| == DTLB_N && size > 0
  {
    && va % size == 0 && va % PAGE + size <= PAGE
    && k.store[va / PAGE % DTLB_N].Line?
    && k.store[va / PAGE % DTLB_N].vpn == va / PAGE
  }

  function FastPa(k: Hart, va: nat): nat
    requires |k.store| == DTLB_N && k.store[va / PAGE % DTLB_N].Line?
  {
    k.store[va / PAGE % DTLB_N].page * PAGE + va % PAGE
  }

  // What LR loads, after its own translation.
  function Loaded(b: Board, h: nat, size: nat, x: Xlat): seq<byte>
    requires AdOk(b, x.ad) && InDram(b, x.pa, size)
  {
    Read(AdWrite(b, h, x.ad), x.pa, size)
  }

  function Reserve(b: Board, h: nat, va: nat, size: nat, x: Xlat): (r: Board)
    requires h < |b.harts| && AdOk(b, x.ad) && InDram(b, x.pa, size)
    ensures SameShape(b, r)
  {
    var b' := AdWrite(b, h, x.ad);
    var k := b'.harts[h];
    if !Many(b) then
      b'.(harts := b'.harts[h := k.(resv := Resv(true, va, size, Loaded(b, h, size, x), k.resv.pa))])
    else
      var resv := Resv(true, va, size, Loaded(b, h, size, x), x.pa);
      b'.(harts := Evicted(b'.harts[h := k.(resv := resv)], x.pa / PAGE))
  }

  predicate Armed(k: Hart, va: nat, size: nat) {
    k.resv.valid && k.resv.va == va && k.resv.size == size
  }

  predicate Succeeds(b: Board, h: nat, va: nat, data: seq<byte>, xl: Xlat)
    requires h < |b.harts| && AdOk(b, xl.ad) && InDram(b, xl.pa, |data|)
  {
    Armed(b.harts[h], va, |data|) && Loaded(b, h, |data|, xl) == b.harts[h].resv.value
  }

  function DropAt(b: Board, h: nat): (r: Board)
    requires h < |b.harts|
    ensures SameShape(b, r)
  {
    b.(harts := b.harts[h := Drop(b.harts[h])])
  }

  function Conditional(b: Board, h: nat, va: nat, data: seq<byte>, xl: Xlat, xs: Xlat): (r: Board)
    requires h < |b.harts| && Shaped(b) && AdOk(b, xl.ad) && AdOk(b, xs.ad) && InDram(b, xl.pa, |data|)
    ensures SameShape(b, r)
  {
    var b' := if Armed(b.harts[h], va, |data|) then AdWrite(b, h, xl.ad) else b;
    if Succeeds(b, h, va, data, xl) then Slow(DropAt(b', h), h, va, data, xs) else DropAt(b', h)
  }

  function FlushAt(b: Board, h: nat): (r: Board)
    requires h < |b.harts|
    ensures SameShape(b, r)
  {
    b.(harts := b.harts[h := b.harts[h].(store := Emptied())])
  }

  // ---------- Events ----------

  // A translation keeps the page offset, and only a page wholly in DRAM is cacheable.
  predicate XlatOk(b: Board, va: nat, x: Xlat) {
    && AdOk(b, x.ad) && x.pa % PAGE == va % PAGE
    && (x.fill.Cacheable? ==> InDram(b, x.pa / PAGE * PAGE, PAGE))
  }

  predicate AccessOk(va: nat, size: nat) {
    0 < size && va % PAGE + size <= PAGE
  }

  predicate AtomicOk(va: nat, size: nat) {
    (size == 4 || size == 8) && va % size == 0
  }

  predicate EventOk(b: Board, ev: Event) {
    match ev
    case Walk(h, ad) => h < |b.harts| && AdOk(b, ad)
    case FillStore(h, va, x) => h < |b.harts| && XlatOk(b, va, x)
    case Write(h, va, data, x) => h < |b.harts| && XlatOk(b, va, x) && AccessOk(va, |data|)
    case SlowWrite(h, va, data, x) => h < |b.harts| && XlatOk(b, va, x) && AccessOk(va, |data|)
    case LoadReserve(h, va, size, x) => h < |b.harts| && XlatOk(b, va, x) && AtomicOk(va, size) && InDram(b, x.pa, size)
    case StoreCond(h, va, data, xl, xs) =>
      && h < |b.harts| && XlatOk(b, va, xl) && XlatOk(b, va, xs) && AtomicOk(va, |data|)
      && InDram(b, xl.pa, |data|) && InDram(b, xs.pa, |data|)
    case Flush(h) => h < |b.harts|
    case Fence(h) => h < |b.harts|
    case Trap(h, _) => h < |b.harts|
    case Dma(pa, data) => InDram(b, pa, |data|)
  }

  function Do(b: Board, ev: Event): (r: Board)
    requires Inv(b) && EventOk(b, ev)
    ensures SameShape(b, r)
  {
    match ev
    case Walk(h, ad) => AdWrite(b, h, ad)
    case FillStore(h, va, x) => StoreXlat(b, h, va, x)
    case Write(h, va, data, x) =>
      (if Fast(b.harts[h], va, |data|) then FastWrite(b, h, va, data) else Slow(b, h, va, data, x))
    case SlowWrite(h, va, data, x) => Slow(b, h, va, data, x)
    case LoadReserve(h, va, size, x) => Reserve(b, h, va, size, x)
    case StoreCond(h, va, data, xl, xs) => Conditional(b, h, va, data, xl, xs)
    case Flush(h) => FlushAt(b, h)
    case Fence(h) => DropAt(FlushAt(b, h), h)
    case Trap(h, flush) => DropAt(if flush then FlushAt(b, h) else b, h)
    case Dma(pa, data) => Poke(b, pa, data)
  }

  function FastWrite(b: Board, h: nat, va: nat, data: seq<byte>): (r: Board)
    requires Inv(b) && h < |b.harts| && |data| > 0 && Fast(b.harts[h], va, |data|)
    ensures SameShape(b, r)
  {
    FastFits(b, h, va / PAGE % DTLB_N);
    Poke(b, FastPa(b.harts[h], va), data)
  }

  // ---------- The invariant ----------

  predicate Unmapped(store: seq<Line>, page: nat) {
    forall e :: 0 <= e < |store| ==> !(store[e].Line? && store[e].page == page)
  }

  predicate LinesIn(b: Board, store: seq<Line>) {
    forall e :: 0 <= e < |store| && store[e].Line? ==> InDram(b, store[e].page * PAGE, PAGE)
  }

  predicate ResvOk(k: Hart) {
    k.resv.valid ==> AtomicOk(k.resv.pa, k.resv.size)
  }

  // No store DTLB maps a page that holds a valid reservation.
  predicate NoneMapped(harts: seq<Hart>) {
    forall g, h :: 0 <= g < |harts| && 0 <= h < |harts| && harts[g].resv.valid ==>
      Unmapped(harts[h].store, harts[g].resv.pa / PAGE)
  }

  predicate Inv(b: Board) {
    && Shaped(b)
    && (forall h :: 0 <= h < |b.harts| ==> LinesIn(b, b.harts[h].store))
    && (Many(b) ==> NoneMapped(b.harts) && forall h :: 0 <= h < |b.harts| ==> ResvOk(b.harts[h]))
  }

  lemma FastFits(b: Board, h: nat, e: nat)
    requires Inv(b) && h < |b.harts| && e < DTLB_N && b.harts[h].store[e].Line?
    ensures InDram(b, b.harts[h].store[e].page * PAGE, PAGE)
  {
    assert LinesIn(b, b.harts[h].store);
  }

  // Reservations may only have been dropped between two boards, and nothing else changed but bytes of DRAM.
  predicate SameOrDropped(k: Hart, k': Hart) {
    k' == k || k' == Drop(k)
  }

  predicate Weakened(b: Board, b': Board) {
    && b'.base == b.base && |b'.dram| == |b.dram| && |b'.harts| == |b.harts|
    && forall i :: 0 <= i < |b.harts| ==> SameOrDropped(b.harts[i], b'.harts[i])
  }

  lemma WeakenedInv(b: Board, b': Board)
    requires Inv(b) && Weakened(b, b')
    ensures Inv(b')
  {
    forall h | 0 <= h < |b'.harts|
      ensures |b'.harts[h].store| == DTLB_N && LinesIn(b', b'.harts[h].store)
      ensures Many(b) ==> ResvOk(b'.harts[h])
    {
      assert SameOrDropped(b.harts[h], b'.harts[h]) && LinesIn(b, b.harts[h].store);
      assert Many(b) ==> ResvOk(b.harts[h]);
    }
    if Many(b) {
      forall g, h | 0 <= g < |b'.harts| && 0 <= h < |b'.harts| && b'.harts[g].resv.valid
        ensures Unmapped(b'.harts[h].store, b'.harts[g].resv.pa / PAGE)
      {
        assert SameOrDropped(b.harts[g], b'.harts[g]) && SameOrDropped(b.harts[h], b'.harts[h]);
        assert Unmapped(b.harts[h].store, b.harts[g].resv.pa / PAGE);
      }
    }
  }

  lemma CpuWriteWeakens(b: Board, h: nat, pa: nat, data: seq<byte>)
    requires InDram(b, pa, |data|)
    ensures Weakened(b, CpuWrite(b, h, pa, data))
  {
  }

  lemma AdWriteWeakens(b: Board, h: nat, ad: Ad)
    requires AdOk(b, ad)
    ensures Weakened(b, AdWrite(b, h, ad))
  {
  }

  // Only a line of an unreserved page is ever written.
  lemma FillInv(b: Board, h: nat, va: nat, x: Xlat)
    requires Inv(b) && h < |b.harts| && (x.fill.Cacheable? ==> InDram(b, x.pa / PAGE * PAGE, PAGE))
    ensures Inv(FillLine(b, h, va, x))
  {
    var b' := FillLine(b, h, va, x);
    if b' != b {
      assert LinesIn(b, b.harts[h].store);
      forall i | 0 <= i < |b'.harts|
        ensures LinesIn(b', b'.harts[i].store) && (Many(b) ==> ResvOk(b'.harts[i]))
      {
        assert LinesIn(b, b.harts[i].store) && (Many(b) ==> ResvOk(b.harts[i]));
      }
      if Many(b) {
        forall g, i | 0 <= g < |b'.harts| && 0 <= i < |b'.harts| && b'.harts[g].resv.valid
          ensures Unmapped(b'.harts[i].store, b'.harts[g].resv.pa / PAGE)
        {
          assert b'.harts[g].resv == b.harts[g].resv;
          assert Unmapped(b.harts[i].store, b.harts[g].resv.pa / PAGE);
        }
      }
    }
  }

  lemma StoreXlatInv(b: Board, h: nat, va: nat, x: Xlat)
    requires Inv(b) && h < |b.harts| && XlatOk(b, va, x)
    ensures Inv(StoreXlat(b, h, va, x))
  {
    AdWriteWeakens(b, h, x.ad);
    WeakenedInv(b, AdWrite(b, h, x.ad));
    FillInv(AdWrite(b, h, x.ad), h, va, x);
  }

  lemma SlowInv(b: Board, h: nat, va: nat, data: seq<byte>, x: Xlat)
    requires Inv(b) && h < |b.harts| && XlatOk(b, va, x)
    ensures Inv(Slow(b, h, va, data, x))
  {
    StoreXlatInv(b, h, va, x);
    var b' := StoreXlat(b, h, va, x);
    if InDram(b', x.pa, |data|) {
      CpuWriteWeakens(b', h, x.pa, data);
      WeakenedInv(b', CpuWrite(b', h, x.pa, data));
    }
  }

  lemma EvictedUnmapped(store: seq<Line>, page: nat, other: nat)
    ensures Unmapped(WithoutPage(store, page), page)
    ensures Unmapped(store, other) ==> Unmapped(WithoutPage(store, page), other)
  {
  }

  // Reserving evicts the page everywhere, so the new reservation's page is mapped nowhere.
  lemma EvictedNoneMapped(harts: seq<Hart>, h: nat, r: Resv)
    requires NoneMapped(harts) && h < |harts|
    ensures NoneMapped(Evicted(harts[h := harts[h].(resv := r)], r.pa / PAGE))
  {
    var q := harts[h := harts[h].(resv := r)];
    var harts' := Evicted(q, r.pa / PAGE);
    forall g, i | 0 <= g < |harts'| && 0 <= i < |harts'| && harts'[g].resv.valid
      ensures Unmapped(harts'[i].store, harts'[g].resv.pa / PAGE)
    {
      EvictedUnmapped(q[i].store, r.pa / PAGE, harts'[g].resv.pa / PAGE);
      assert q[i].store == harts[i].store && harts'[i].store == WithoutPage(q[i].store, r.pa / PAGE);
      if g != h {
        assert harts'[g].resv == harts[g].resv;
      }
    }
  }

  lemma ReservedInv(b: Board, h: nat, r: Resv)
    requires Inv(b) && Many(b) && h < |b.harts| && AtomicOk(r.pa, r.size)
    ensures Inv(b.(harts := Evicted(b.harts[h := b.harts[h].(resv := r)], r.pa / PAGE)))
  {
    var b' := b.(harts := Evicted(b.harts[h := b.harts[h].(resv := r)], r.pa / PAGE));
    forall i | 0 <= i < |b'.harts|
      ensures LinesIn(b', b'.harts[i].store) && |b'.harts[i].store| == DTLB_N && ResvOk(b'.harts[i])
    {
      assert LinesIn(b, b.harts[i].store) && ResvOk(b.harts[i]);
    }
    EvictedNoneMapped(b.harts, h, r);
  }

  lemma SoloInv(b: Board, h: nat, r: Resv)
    requires Inv(b) && !Many(b) && h < |b.harts|
    ensures Inv(b.(harts := b.harts[h := b.harts[h].(resv := r)]))
  {
    assert LinesIn(b, b.harts[h].store);
    var b' := b.(harts := b.harts[h := b.harts[h].(resv := r)]);
    assert LinesIn(b', b'.harts[h].store);
  }

  lemma ReserveInv(b: Board, h: nat, va: nat, size: nat, x: Xlat)
    requires Inv(b) && h < |b.harts| && XlatOk(b, va, x) && AtomicOk(va, size) && InDram(b, x.pa, size)
    ensures Inv(Reserve(b, h, va, size, x))
  {
    hide Inv, CpuWrite, Evicted;
    var b1 := AdWrite(b, h, x.ad);
    AdWriteWeakens(b, h, x.ad);
    WeakenedInv(b, b1);
    var value := Loaded(b, h, size, x);
    if Many(b) {
      AlignedWithin(va, x.pa, size);
      ReservedInv(b1, h, Resv(true, va, size, value, x.pa));
    } else {
      SoloInv(b1, h, Resv(true, va, size, value, b1.harts[h].resv.pa));
    }
  }

  // A translation keeps the page offset, so it keeps the alignment of an atomic access.
  lemma AlignedWithin(va: nat, pa: nat, size: nat)
    requires AtomicOk(va, size) && pa % PAGE == va % PAGE
    ensures AtomicOk(pa, size)
  {
    var k := pa / PAGE - va / PAGE;
    assert pa == va + 4096 * k;
    if size == 4 {
      assert pa == 4 * (va / 4 + 1024 * k);
    } else {
      assert pa == 8 * (va / 8 + 512 * k);
    }
  }

  lemma FlushInv(b: Board, h: nat)
    requires Inv(b) && h < |b.harts|
    ensures Inv(FlushAt(b, h))
  {
    var b' := FlushAt(b, h);
    forall i | 0 <= i < |b'.harts|
      ensures LinesIn(b', b'.harts[i].store) && (Many(b) ==> ResvOk(b'.harts[i]))
    {
      assert LinesIn(b, b.harts[i].store) && (Many(b) ==> ResvOk(b.harts[i]));
    }
    if Many(b) {
      forall g, i | 0 <= g < |b'.harts| && 0 <= i < |b'.harts| && b'.harts[g].resv.valid
        ensures Unmapped(b'.harts[i].store, b'.harts[g].resv.pa / PAGE)
      {
        assert b'.harts[g].resv == b.harts[g].resv;
        assert Unmapped(b.harts[i].store, b.harts[g].resv.pa / PAGE);
      }
    }
  }

  lemma ConditionalInv(b: Board, h: nat, va: nat, data: seq<byte>, xl: Xlat, xs: Xlat)
    requires Inv(b) && EventOk(b, StoreCond(h, va, data, xl, xs))
    ensures Inv(Conditional(b, h, va, data, xl, xs))
  {
    AdWriteWeakens(b, h, xl.ad);
    WeakenedInv(b, AdWrite(b, h, xl.ad));
    var b' := if Armed(b.harts[h], va, |data|) then AdWrite(b, h, xl.ad) else b;
    WeakenedInv(b', DropAt(b', h));
    if Succeeds(b, h, va, data, xl) {
      SlowInv(DropAt(b', h), h, va, data, xs);
    }
  }

  // Every event keeps it.
  lemma EventKeepsInv(b: Board, ev: Event)
    requires Inv(b) && EventOk(b, ev)
    ensures Inv(Do(b, ev))
  {
    match ev
    case Walk(h, ad) =>
      AdWriteWeakens(b, h, ad);
      WeakenedInv(b, AdWrite(b, h, ad));
    case FillStore(h, va, x) => StoreXlatInv(b, h, va, x);
    case Write(h, va, data, x) =>
      if Fast(b.harts[h], va, |data|) {
        WeakenedInv(b, FastWrite(b, h, va, data));
      } else {
        SlowInv(b, h, va, data, x);
      }
    case SlowWrite(h, va, data, x) => SlowInv(b, h, va, data, x);
    case LoadReserve(h, va, size, x) => ReserveInv(b, h, va, size, x);
    case StoreCond(h, va, data, xl, xs) => ConditionalInv(b, h, va, data, xl, xs);
    case Flush(h) => FlushInv(b, h);
    case Fence(h) =>
      FlushInv(b, h);
      WeakenedInv(FlushAt(b, h), DropAt(FlushAt(b, h), h));
    case Trap(h, flush) =>
      FlushInv(b, h);
      var b' := if flush then FlushAt(b, h) else b;
      WeakenedInv(b', DropAt(b', h));
    case Dma(pa, data) => WeakenedInv(b, Poke(b, pa, data));
  }

  // ---------- Which bytes each event's hart writes ----------

  datatype Touch = Touch(h: nat, pa: nat, len: nat)

  function AdTouch(h: nat, ad: Ad): seq<Touch> {
    if ad.Ad? then [Touch(h, ad.pa, 8)] else []
  }

  function SlowTouches(b: Board, h: nat, data: seq<byte>, x: Xlat): seq<Touch> {
    AdTouch(h, x.ad) + if InDram(b, x.pa, |data|) then [Touch(h, x.pa, |data|)] else []
  }

  function Touches(b: Board, ev: Event): seq<Touch>
    requires Inv(b) && EventOk(b, ev)
  {
    match ev
    case Walk(h, ad) => AdTouch(h, ad)
    case FillStore(h, va, x) => AdTouch(h, x.ad)
    case Write(h, va, data, x) =>
      (if Fast(b.harts[h], va, |data|) then [Touch(h, FastPa(b.harts[h], va), |data|)] else SlowTouches(b, h, data, x))
    case SlowWrite(h, va, data, x) => SlowTouches(b, h, data, x)
    case LoadReserve(h, va, size, x) => AdTouch(h, x.ad)
    case StoreCond(h, va, data, xl, xs) =>
      (if !Armed(b.harts[h], va, |data|) then []
       else AdTouch(h, xl.ad) + if Succeeds(b, h, va, data, xl) then SlowTouches(b, h, data, xs) else [])
    case Flush(_) => []
    case Fence(_) => []
    case Trap(_, _) => []
    case Dma(_, _) => []
  }

  predicate Covers(t: Touch, pa: nat) {
    t.pa <= pa < t.pa + t.len
  }

  function At(b: Board, pa: nat): byte
    requires InDram(b, pa, 1)
  {
    b.dram[pa - b.base]
  }

  lemma FillKeepsResv(b: Board, h: nat, va: nat, x: Xlat, g: nat)
    requires h < |b.harts| && |b.harts[h].store| == DTLB_N && g < |b.harts|
    ensures |FillLine(b, h, va, x).harts| == |b.harts|
    ensures FillLine(b, h, va, x).harts[g].resv == b.harts[g].resv
    ensures FillLine(b, h, va, x).dram == b.dram && FillLine(b, h, va, x).base == b.base
  {
  }

  lemma PokeFrame(b: Board, at: nat, data: seq<byte>, pa: nat)
    requires InDram(b, at, |data|) && InDram(b, pa, 1)
    ensures !(at <= pa < at + |data|) ==> At(Poke(b, at, data), pa) == At(b, pa)
    ensures Read(Poke(b, at, data), at, |data|) == data
  {
  }

  lemma CpuFrame(b: Board, h: nat, at: nat, data: seq<byte>, pa: nat)
    requires InDram(b, at, |data|) && InDram(b, pa, 1) && !Covers(Touch(h, at, |data|), pa)
    ensures At(CpuWrite(b, h, at, data), pa) == At(b, pa)
  {
    PokeFrame(b, at, data, pa);
  }

  lemma AdFrame(b: Board, h: nat, ad: Ad, pa: nat)
    requires AdOk(b, ad) && InDram(b, pa, 1)
    requires forall t :: t in AdTouch(h, ad) ==> !Covers(t, pa)
    ensures At(AdWrite(b, h, ad), pa) == At(b, pa)
  {
    if ad.Ad? {
      assert AdTouch(h, ad)[0] == Touch(h, ad.pa, 8);
      CpuFrame(b, h, ad.pa, ad.pte, pa);
    }
  }

  lemma SlowFrame(b: Board, h: nat, va: nat, data: seq<byte>, x: Xlat, pa: nat)
    requires h < |b.harts| && Shaped(b) && AdOk(b, x.ad) && InDram(b, pa, 1)
    requires forall t :: t in SlowTouches(b, h, data, x) ==> !Covers(t, pa)
    ensures At(Slow(b, h, va, data, x), pa) == At(b, pa)
  {
    assert forall t :: t in AdTouch(h, x.ad) ==> t in SlowTouches(b, h, data, x);
    AdFrame(b, h, x.ad, pa);
    FillKeepsResv(AdWrite(b, h, x.ad), h, va, x, h);
    var b' := StoreXlat(b, h, va, x);
    assert At(b', pa) == At(b, pa);
    if InDram(b', x.pa, |data|) {
      var ts := SlowTouches(b, h, data, x);
      assert ts[|ts| - 1] == Touch(h, x.pa, |data|);
      assert InDram(b, x.pa, |data|);
      assert !Covers(Touch(h, x.pa, |data|), pa);
      CpuFrame(b', h, x.pa, data, pa);
      assert Slow(b, h, va, data, x) == CpuWrite(b', h, x.pa, data);
    }
  }

  lemma FastFrame(b: Board, h: nat, va: nat, data: seq<byte>, pa: nat)
    requires Inv(b) && h < |b.harts| && |data| > 0 && Fast(b.harts[h], va, |data|) && InDram(b, pa, 1)
    ensures !Covers(Touch(h, FastPa(b.harts[h], va), |data|), pa) ==> At(FastWrite(b, h, va, data), pa) == At(b, pa)
  {
    FastFits(b, h, va / PAGE % DTLB_N);
    PokeFrame(b, FastPa(b.harts[h], va), data, pa);
  }

  lemma StoreXlatFrame(b: Board, h: nat, va: nat, x: Xlat, pa: nat)
    requires h < |b.harts| && Shaped(b) && AdOk(b, x.ad) && InDram(b, pa, 1)
    requires forall t :: t in AdTouch(h, x.ad) ==> !Covers(t, pa)
    ensures At(StoreXlat(b, h, va, x), pa) == At(b, pa)
  {
    AdFrame(b, h, x.ad, pa);
    FillKeepsResv(AdWrite(b, h, x.ad), h, va, x, h);
  }

  lemma WriteFrame(b: Board, h: nat, va: nat, data: seq<byte>, x: Xlat, pa: nat)
    requires Inv(b) && EventOk(b, Write(h, va, data, x)) && InDram(b, pa, 1)
    requires forall t :: t in Touches(b, Write(h, va, data, x)) ==> !Covers(t, pa)
    ensures At(Do(b, Write(h, va, data, x)), pa) == At(b, pa)
  {
    if Fast(b.harts[h], va, |data|) {
      FastFrame(b, h, va, data, pa);
      assert Touches(b, Write(h, va, data, x))[0] == Touch(h, FastPa(b.harts[h], va), |data|);
    } else {
      SlowFrame(b, h, va, data, x, pa);
    }
  }

  // Touches misses nothing: a byte outside them changes only by DMA.
  lemma NothingElseWritten(b: Board, ev: Event, pa: nat)
    requires Inv(b) && EventOk(b, ev) && InDram(b, pa, 1)
    requires forall t :: t in Touches(b, ev) ==> !Covers(t, pa)
    requires ev.Dma? ==> !(ev.pa <= pa < ev.pa + |ev.data|)
    ensures At(Do(b, ev), pa) == At(b, pa)
  {
    hide Slow, Conditional, FillLine, Cleared, Poked, Fast;
    match ev
    case Walk(h, ad) => AdFrame(b, h, ad, pa);
    case FillStore(h, va, x) => StoreXlatFrame(b, h, va, x, pa);
    case Write(h, va, data, x) => WriteFrame(b, h, va, data, x, pa);
    case SlowWrite(h, va, data, x) => SlowFrame(b, h, va, data, x, pa);
    case LoadReserve(h, va, size, x) => AdFrame(b, h, x.ad, pa);
    case StoreCond(h, va, data, xl, xs) => ConditionalFrame(b, h, va, data, xl, xs, pa);
    case Flush(_) =>
    case Fence(_) =>
    case Trap(_, _) =>
    case Dma(at, data) => PokeFrame(b, at, data, pa);
  }

  lemma ConditionalFrame(b: Board, h: nat, va: nat, data: seq<byte>, xl: Xlat, xs: Xlat, pa: nat)
    requires Inv(b) && EventOk(b, StoreCond(h, va, data, xl, xs)) && InDram(b, pa, 1)
    requires forall t :: t in Touches(b, StoreCond(h, va, data, xl, xs)) ==> !Covers(t, pa)
    ensures At(Conditional(b, h, va, data, xl, xs), pa) == At(b, pa)
  {
    if Armed(b.harts[h], va, |data|) {
      var ts := Touches(b, StoreCond(h, va, data, xl, xs));
      assert forall t :: t in AdTouch(h, xl.ad) ==> t in ts;
      var b' := DropAt(AdWrite(b, h, xl.ad), h);
      AdFrame(b, h, xl.ad, pa);
      assert At(b', pa) == At(b, pa);
      if Succeeds(b, h, va, data, xl) {
        assert SlowTouches(b', h, data, xs) == SlowTouches(b, h, data, xs);
        forall t | t in SlowTouches(b, h, data, xs)
          ensures !Covers(t, pa)
        {
          assert t in ts;
        }
        SlowFrame(b', h, va, data, xs, pa);
        assert Conditional(b, h, va, data, xl, xs) == Slow(b', h, va, data, xs);
      }
    }
  }

  // ---------- Other harts' stores kill the reservations they overlap ----------

  // Hart g's reservation is the one it had, or was dropped.
  predicate Faded(b: Board, b': Board, g: nat) {
    && |b'.harts| == |b.harts| && g < |b.harts|
    && (b'.harts[g].resv == b.harts[g].resv || b'.harts[g].resv == b.harts[g].resv.(valid := false))
  }

  // Another hart's store writes a byte that hart g has reserved.
  ghost predicate Reaches(b: Board, t: Touch, g: nat) {
    g < |b.harts| && t.h != g && b.harts[g].resv.valid &&
    exists q: nat :: Covers(t, q) && b.harts[g].resv.pa <= q < b.harts[g].resv.pa + b.harts[g].resv.size
  }

  lemma CpuWriteKills(b: Board, h: nat, pa: nat, data: seq<byte>, g: nat)
    requires InDram(b, pa, |data|) && h < |b.harts| && g < |b.harts|
    ensures Faded(b, CpuWrite(b, h, pa, data), g)
    ensures Reaches(b, Touch(h, pa, |data|), g) ==> !CpuWrite(b, h, pa, data).harts[g].resv.valid
  {
  }

  lemma AdKills(b: Board, h: nat, ad: Ad, g: nat)
    requires AdOk(b, ad) && h < |b.harts| && g < |b.harts|
    ensures Faded(b, AdWrite(b, h, ad), g)
    ensures forall t :: t in AdTouch(h, ad) && Reaches(b, t, g) ==> !AdWrite(b, h, ad).harts[g].resv.valid
  {
    if ad.Ad? {
      CpuWriteKills(b, h, ad.pa, ad.pte, g);
    }
  }

  lemma SlowKills(b: Board, h: nat, va: nat, data: seq<byte>, x: Xlat, g: nat)
    requires h < |b.harts| && g < |b.harts| && Shaped(b) && AdOk(b, x.ad)
    ensures Faded(b, Slow(b, h, va, data, x), g)
    ensures forall t :: t in SlowTouches(b, h, data, x) && Reaches(b, t, g) ==> !Slow(b, h, va, data, x).harts[g].resv.valid
  {
    AdKills(b, h, x.ad, g);
    AdWriteWeakens(b, h, x.ad);
    var b1 := AdWrite(b, h, x.ad);
    FillKeepsResv(b1, h, va, x, g);
    var b2 := FillLine(b1, h, va, x);
    if InDram(b2, x.pa, |data|) {
      CpuWriteKills(b2, h, x.pa, data, g);
    }
    forall t | t in SlowTouches(b, h, data, x) && Reaches(b, t, g)
      ensures !Slow(b, h, va, data, x).harts[g].resv.valid
    {
      if t !in AdTouch(h, x.ad) {
        assert t == Touch(h, x.pa, |data|);
      }
    }
  }

  lemma SamePage(pa: nat, size: nat, i: nat)
    requires AtomicOk(pa, size) && i < size
    ensures (pa + i) / PAGE == pa / PAGE
  {
    assert pa % PAGE % size == 0;
  }

  // A store through the DTLB cannot reach a reservation: its page is mapped nowhere.
  lemma FastReachesNothing(b: Board, h: nat, va: nat, data: seq<byte>, g: nat)
    requires Inv(b) && h < |b.harts| && AccessOk(va, |data|) && Fast(b.harts[h], va, |data|)
    ensures !Reaches(b, Touch(h, FastPa(b.harts[h], va), |data|), g)
  {
    var pa := FastPa(b.harts[h], va);
    if Reaches(b, Touch(h, pa, |data|), g) {
      var r := b.harts[g].resv;
      assert ResvOk(b.harts[g]);
      assert Unmapped(b.harts[h].store, r.pa / PAGE);
      var page := b.harts[h].store[va / PAGE % DTLB_N].page;
      assert page != r.pa / PAGE;
      SamePage(r.pa, r.size, r.size - 1);
      assert false;
    }
  }

  lemma ConditionalKills(b: Board, h: nat, va: nat, data: seq<byte>, xl: Xlat, xs: Xlat, g: nat)
    requires Inv(b) && EventOk(b, StoreCond(h, va, data, xl, xs)) && g < |b.harts|
    ensures Faded(b, Conditional(b, h, va, data, xl, xs), g)
    ensures g == h ==> !Conditional(b, h, va, data, xl, xs).harts[g].resv.valid
    ensures forall t :: t in Touches(b, StoreCond(h, va, data, xl, xs)) && Reaches(b, t, g) ==>
              !Conditional(b, h, va, data, xl, xs).harts[g].resv.valid
  {
    if Armed(b.harts[h], va, |data|) {
      AdKills(b, h, xl.ad, g);
      AdWriteWeakens(b, h, xl.ad);
      var b' := DropAt(AdWrite(b, h, xl.ad), h);
      if Succeeds(b, h, va, data, xl) {
        SlowKills(b', h, va, data, xs, g);
        forall t | t in Touches(b, StoreCond(h, va, data, xl, xs)) && Reaches(b, t, g)
          ensures !Conditional(b, h, va, data, xl, xs).harts[g].resv.valid
        {
          if t !in AdTouch(h, xl.ad) {
            assert t in SlowTouches(b', h, data, xs);
            assert b'.harts[g].resv == b.harts[g].resv ==> Reaches(b', t, g);
          }
        }
      }
    }
  }

  lemma ReserveKills(b: Board, h: nat, va: nat, size: nat, x: Xlat, g: nat)
    requires h < |b.harts| && g < |b.harts| && g != h && AdOk(b, x.ad) && InDram(b, x.pa, size)
    ensures Faded(b, Reserve(b, h, va, size, x), g)
    ensures forall t :: t in AdTouch(h, x.ad) && Reaches(b, t, g) ==> !Reserve(b, h, va, size, x).harts[g].resv.valid
  {
    AdKills(b, h, x.ad, g);
  }

  // Any store by another hart that overlaps a reservation, A/D updates included, kills it; and only the hart's own
  // LR makes its reservation valid.
  lemma StoreKills(b: Board, ev: Event, g: nat)
    requires Inv(b) && EventOk(b, ev) && g < |b.harts| && !(ev.LoadReserve? && ev.h == g)
    ensures Faded(b, Do(b, ev), g)
    ensures forall t :: t in Touches(b, ev) && Reaches(b, t, g) ==> !Do(b, ev).harts[g].resv.valid
  {
    match ev
    case Walk(h, ad) => AdKills(b, h, ad, g);
    case FillStore(h, va, x) =>
      AdKills(b, h, x.ad, g);
      AdWriteWeakens(b, h, x.ad);
      FillKeepsResv(AdWrite(b, h, x.ad), h, va, x, g);
    case Write(h, va, data, x) =>
      if Fast(b.harts[h], va, |data|) {
        FastReachesNothing(b, h, va, data, g);
      } else {
        SlowKills(b, h, va, data, x, g);
      }
    case SlowWrite(h, va, data, x) => SlowKills(b, h, va, data, x, g);
    case LoadReserve(h, va, size, x) => ReserveKills(b, h, va, size, x, g);
    case StoreCond(h, va, data, xl, xs) => ConditionalKills(b, h, va, data, xl, xs, g);
    case Flush(h) =>
    case Fence(h) =>
    case Trap(h, flush) =>
    case Dma(pa, data) =>
  }

  // Only the other harts' reservations that share a byte with the store are dropped, and nothing else of a hart changes.
  lemma ClearedExactly(harts: seq<Hart>, storer: nat, pa: nat, len: nat, i: nat)
    requires len > 0 && i < |harts| && harts[i].resv.size > 0
    ensures var k, k' := harts[i], Cleared(harts, storer, pa, len)[i];
      && k' == k.(resv := k.resv.(valid := k'.resv.valid))
      && (k'.resv.valid <==>
            k.resv.valid && (i == storer ||
              forall q: nat :: k.resv.pa <= q < k.resv.pa + k.resv.size ==> !Covers(Touch(storer, pa, len), q)))
  {
    var r := harts[i].resv;
    if i != storer && r.valid && Overlap(pa, len, r.pa, r.size) {
      assert Covers(Touch(storer, pa, len), if pa < r.pa then r.pa else pa);
    }
  }

  // g's own stores aside, what a store does not reach it spares.
  ghost predicate Spared(b: Board, b': Board, g: nat) {
    |b'.harts| == |b.harts| && g < |b.harts| && b'.harts[g].resv == b.harts[g].resv
  }

  predicate Sized(b: Board, g: nat) {
    g < |b.harts| && (Many(b) && b.harts[g].resv.valid ==> b.harts[g].resv.size > 0)
  }

  lemma CpuSpares(b: Board, h: nat, pa: nat, data: seq<byte>, g: nat)
    requires InDram(b, pa, |data|) && |data| > 0 && Sized(b, g) && !Reaches(b, Touch(h, pa, |data|), g)
    ensures Spared(b, CpuWrite(b, h, pa, data), g)
  {
    var r := b.harts[g].resv;
    if Many(b) && r.valid {
      ClearedExactly(b.harts, h, pa, |data|, g);
    }
  }

  lemma AdSpares(b: Board, h: nat, ad: Ad, g: nat)
    requires AdOk(b, ad) && Sized(b, g) && forall t :: t in AdTouch(h, ad) ==> !Reaches(b, t, g)
    ensures Spared(b, AdWrite(b, h, ad), g)
  {
    if ad.Ad? {
      assert AdTouch(h, ad)[0] == Touch(h, ad.pa, 8);
      CpuSpares(b, h, ad.pa, ad.pte, g);
    }
  }

  lemma SlowSpares(b: Board, h: nat, va: nat, data: seq<byte>, x: Xlat, g: nat)
    requires h < |b.harts| && Shaped(b) && AdOk(b, x.ad) && |data| > 0 && Sized(b, g)
    requires forall t :: t in SlowTouches(b, h, data, x) ==> !Reaches(b, t, g)
    ensures Spared(b, Slow(b, h, va, data, x), g)
  {
    assert forall t :: t in AdTouch(h, x.ad) ==> t in SlowTouches(b, h, data, x);
    AdSpares(b, h, x.ad, g);
    var b1 := AdWrite(b, h, x.ad);
    AdWriteWeakens(b, h, x.ad);
    FillKeepsResv(b1, h, va, x, g);
    var b2 := FillLine(b1, h, va, x);
    if InDram(b2, x.pa, |data|) {
      var ts := SlowTouches(b, h, data, x);
      assert ts[|ts| - 1] == Touch(h, x.pa, |data|);
      assert !Reaches(b, Touch(h, x.pa, |data|), g);
      assert !Reaches(b2, Touch(h, x.pa, |data|), g);
      CpuSpares(b2, h, x.pa, data, g);
    }
  }

  lemma ConditionalSpares(b: Board, h: nat, va: nat, data: seq<byte>, xl: Xlat, xs: Xlat, g: nat)
    requires Inv(b) && EventOk(b, StoreCond(h, va, data, xl, xs)) && Sized(b, g) && g != h
    requires forall t :: t in Touches(b, StoreCond(h, va, data, xl, xs)) ==> !Reaches(b, t, g)
    ensures Spared(b, Conditional(b, h, va, data, xl, xs), g)
  {
    if Armed(b.harts[h], va, |data|) {
      var ts := Touches(b, StoreCond(h, va, data, xl, xs));
      assert forall t :: t in AdTouch(h, xl.ad) ==> t in ts;
      AdSpares(b, h, xl.ad, g);
      ConditionalShaped(b, h, xl.ad);
      var b' := DropAt(AdWrite(b, h, xl.ad), h);
      if Succeeds(b, h, va, data, xl) {
        forall t | t in SlowTouches(b', h, data, xs) ensures !Reaches(b', t, g) {
          assert t in ts && !Reaches(b, t, g);
        }
        SlowSpares(b', h, va, data, xs, g);
      }
    }
  }

  // What drops hart g's reservation by itself: its SC, its sfence.vma, its traps and returns.
  predicate Drops(ev: Event, g: nat) {
    (ev.StoreCond? || ev.Fence? || ev.Trap?) && ev.h == g
  }

  // A reservation goes only if another hart stores to one of its bytes, or its own hart drops it; and then it does.
  lemma DroppedExactly(b: Board, ev: Event, g: nat)
    requires Inv(b) && EventOk(b, ev) && Many(b) && g < |b.harts| && b.harts[g].resv.valid
    requires !(ev.LoadReserve? && ev.h == g)
    ensures Do(b, ev).harts[g].resv ==
      b.harts[g].resv.(valid := !Drops(ev, g) && forall t :: t in Touches(b, ev) ==> !Reaches(b, t, g))
  {
    StoreKills(b, ev, g);
    assert ResvOk(b.harts[g]) && Sized(b, g);
    if !Drops(ev, g) && forall t :: t in Touches(b, ev) ==> !Reaches(b, t, g) {
      match ev
      case Walk(h, ad) => AdSpares(b, h, ad, g);
      case FillStore(h, va, x) =>
        AdSpares(b, h, x.ad, g);
        AdWriteWeakens(b, h, x.ad);
        FillKeepsResv(AdWrite(b, h, x.ad), h, va, x, g);
      case Write(h, va, data, x) =>
        if !Fast(b.harts[h], va, |data|) {
          SlowSpares(b, h, va, data, x, g);
        }
      case SlowWrite(h, va, data, x) => SlowSpares(b, h, va, data, x, g);
      case LoadReserve(h, va, size, x) => AdSpares(b, h, x.ad, g);
      case StoreCond(h, va, data, xl, xs) => ConditionalSpares(b, h, va, data, xl, xs, g);
      case Flush(_) =>
      case Fence(_) =>
      case Trap(_, _) =>
      case Dma(_, _) =>
    }
  }

  // A store that is said to write bytes of DRAM leaves its data there.
  lemma StoreLands(b: Board, ev: Event)
    requires Inv(b) && EventOk(b, ev) && (ev.Write? || ev.SlowWrite?)
    ensures ev.Write? && Fast(b.harts[ev.h], ev.va, |ev.data|) ==>
      var pa := FastPa(b.harts[ev.h], ev.va); InDram(b, pa, |ev.data|) && Read(Do(b, ev), pa, |ev.data|) == ev.data
    ensures !(ev.Write? && Fast(b.harts[ev.h], ev.va, |ev.data|)) && InDram(b, ev.x.pa, |ev.data|) ==>
      Read(Do(b, ev), ev.x.pa, |ev.data|) == ev.data
  {
    if ev.Write? && Fast(b.harts[ev.h], ev.va, |ev.data|) {
      FastFits(b, ev.h, ev.va / PAGE % DTLB_N);
    } else {
      SlowLands(b, ev.h, ev.va, ev.data, ev.x);
    }
  }

  lemma SlowLands(b: Board, h: nat, va: nat, data: seq<byte>, x: Xlat)
    requires h < |b.harts| && Shaped(b) && AdOk(b, x.ad) && |data| > 0
    ensures InDram(b, x.pa, |data|) ==> Read(Slow(b, h, va, data, x), x.pa, |data|) == data
  {
    hide FillLine;
    var b' := StoreXlat(b, h, va, x);
    if InDram(b', x.pa, |data|) {
      PokeFrame(b', x.pa, data, x.pa);
    }
  }

  // An SC writes its data if it succeeds, and otherwise no byte but an A or D update's.
  lemma ConditionalLands(b: Board, h: nat, va: nat, data: seq<byte>, xl: Xlat, xs: Xlat)
    requires Inv(b) && EventOk(b, StoreCond(h, va, data, xl, xs))
    ensures var b' := Do(b, StoreCond(h, va, data, xl, xs));
      if b.harts[h].resv.valid && b.harts[h].resv.va == va && b.harts[h].resv.size == |data|
         && Read(AdWrite(b, h, xl.ad), xl.pa, |data|) == b.harts[h].resv.value
      then Read(b', xs.pa, |data|) == data
      else b'.dram == b.dram || b'.dram == AdWrite(b, h, xl.ad).dram
  {
    ConditionalShaped(b, h, xl.ad);
    if Succeeds(b, h, va, data, xl) {
      SlowLands(DropAt(AdWrite(b, h, xl.ad), h), h, va, data, xs);
    }
  }

  // ---------- Whole runs ----------

  function Front(evs: seq<Event>): (r: seq<Event>)
    requires evs != []
    ensures |r| == |evs| - 1
  {
    evs[..|evs| - 1]
  }

  ghost predicate Lawful(b: Board, evs: seq<Event>)
    decreases |evs|, 0
  {
    Inv(b) && (evs != [] ==> Lawful(b, Front(evs)) && EventOk(Run(b, Front(evs)), evs[|evs| - 1]))
  }

  ghost function Run(b: Board, evs: seq<Event>): (r: Board)
    requires Lawful(b, evs)
    ensures Inv(r) && SameShape(b, r)
    decreases |evs|, 1
  {
    if evs == [] then b
    else
      var r := Run(b, Front(evs));
      EventKeepsInv(r, evs[|evs| - 1]);
      Do(r, evs[|evs| - 1])
  }

  // The board that event i meets (after the whole run for i == |evs|).
  ghost function Before(b: Board, evs: seq<Event>, i: nat): (r: Board)
    requires Lawful(b, evs) && i <= |evs|
    ensures Inv(r) && SameShape(b, r)
    ensures i < |evs| ==> EventOk(r, evs[i])
    decreases |evs|
  {
    if i == |evs| then Run(b, evs) else Before(b, Front(evs), i)
  }

  // Event i holds no store of another hart to the bytes hart h reserved.
  ghost predicate QuietAt(b: Board, evs: seq<Event>, i: nat, h: nat, pa: nat, size: nat)
    requires Lawful(b, evs) && i < |evs|
  {
    forall t, q: nat :: t in Touches(Before(b, evs, i), evs[i]) && t.h != h && pa <= q < pa + size ==> !Covers(t, q)
  }

  ghost predicate Quiet(b: Board, evs: seq<Event>, j: nat, h: nat, pa: nat, size: nat)
    requires Lawful(b, evs)
  {
    forall i :: j <= i < |evs| ==> QuietAt(b, evs, i, h, pa, size)
  }

  // Event j is the LR that made the reservation r.
  ghost predicate MadeBy(b: Board, evs: seq<Event>, j: nat, h: nat, r: Resv)
    requires Lawful(b, evs) && j < |evs|
  {
    var ev := evs[j];
    && ev.LoadReserve? && ev.h == h && ev.va == r.va && ev.size == r.size
    && r.value == Loaded(Before(b, evs, j), h, ev.size, ev.x)
    && (Many(b) ==> r.pa == ev.x.pa)
  }

  predicate NoneReserved(b: Board) {
    forall h :: 0 <= h < |b.harts| ==> !b.harts[h].resv.valid
  }

  lemma ReserveMakes(b: Board, h: nat, va: nat, size: nat, x: Xlat)
    requires h < |b.harts| && AdOk(b, x.ad) && InDram(b, x.pa, size)
    ensures var r := Reserve(b, h, va, size, x).harts[h].resv;
            r.valid && r.va == va && r.size == size && r.value == Loaded(b, h, size, x) && (Many(b) ==> r.pa == x.pa)
  {
  }

  // A quiet prefix stays quiet when an event that spares the reservation follows.
  lemma QuietExtends(b: Board, evs: seq<Event>, j: nat, h: nat, pa: nat, size: nat)
    requires evs != [] && Lawful(b, evs) && Quiet(b, Front(evs), j, h, pa, size)
    requires QuietAt(b, evs, |evs| - 1, h, pa, size)
    ensures Quiet(b, evs, j, h, pa, size)
  {
    forall i | j <= i < |evs|
      ensures QuietAt(b, evs, i, h, pa, size)
    {
      if i < |evs| - 1 {
        assert QuietAt(b, Front(evs), i, h, pa, size);
      }
    }
  }

  // A valid reservation was made by an LR, and no other hart has stored to its bytes since.
  lemma {:induction false} Since(b: Board, evs: seq<Event>, h: nat) returns (j: nat)
    requires Lawful(b, evs) && NoneReserved(b) && h < |b.harts| && Run(b, evs).harts[h].resv.valid
    ensures j < |evs| && MadeBy(b, evs, j, h, Run(b, evs).harts[h].resv)
    ensures Many(b) ==> Quiet(b, evs, j + 1, h, Run(b, evs).harts[h].resv.pa, Run(b, evs).harts[h].resv.size)
    decreases |evs|
  {
    assert evs != [];
    var was := Run(b, Front(evs));
    var ev := evs[|evs| - 1];
    var r := Run(b, evs).harts[h].resv;
    assert Before(b, evs, |evs| - 1) == was;
    if ev.LoadReserve? && ev.h == h {
      j := |evs| - 1;
      ReserveMakes(was, h, ev.va, ev.size, ev.x);
    } else {
      StoreKills(was, ev, h);
      j := Since(b, Front(evs), h);
      assert was.harts[h].resv == r;
      if !Many(b) {
        return;
      }
      forall t, q: nat | t in Touches(was, ev) && t.h != h && r.pa <= q < r.pa + r.size
        ensures !Covers(t, q)
      {
        assert !Reaches(was, t, h);
      }
      assert QuietAt(b, evs, |evs| - 1, h, r.pa, r.size);
      QuietExtends(b, evs, j + 1, h, r.pa, r.size);
    }
  }

  // An SC that succeeds follows an LR of the same bytes: the bytes at its address are those the LR loaded, and no
  // other hart has stored to the reserved ones in between.
  lemma StoreConditionalAtomic(b: Board, evs: seq<Event>, h: nat, va: nat, data: seq<byte>, xl: Xlat, xs: Xlat)
    returns (j: nat)
    requires Lawful(b, evs) && NoneReserved(b) && EventOk(Run(b, evs), StoreCond(h, va, data, xl, xs))
    requires Succeeds(Run(b, evs), h, va, data, xl)
    ensures j < |evs| && evs[j].LoadReserve? && evs[j].h == h && evs[j].va == va && evs[j].size == |data|
    ensures Loaded(Run(b, evs), h, |data|, xl) == Loaded(Before(b, evs, j), h, |data|, evs[j].x)
    ensures Many(b) ==> Quiet(b, evs, j + 1, h, evs[j].x.pa, |data|)
  {
    j := Since(b, evs, h);
    assert MadeBy(b, evs, j, h, Run(b, evs).harts[h].resv);
  }

  // ---------- What the reservation does not cover ----------

  // Another hart stores to the bytes at pa, and h's SC there still succeeds.
  ghost predicate Fooled(b: Board, ev: Event, h: nat, pa: nat, data: seq<byte>)
    requires Inv(b) && h < |b.harts| && InDram(b, pa, |data|)
  {
    && EventOk(b, ev)
    && (exists t, q: nat :: t in Touches(b, ev) && t.h != h && Covers(t, q) && pa <= q < pa + |data|)
    && Succeeds(Do(b, ev), h, b.harts[h].resv.va, data, Xlat(pa, Bare, NoAd))
  }

  lemma AlignedApart(pa: nat, qa: nat, size: nat)
    requires AtomicOk(pa, size) && AtomicOk(qa, size) && pa != qa
    ensures pa + size <= qa || qa + size <= pa
  {
    assert pa == pa / size * size && qa == qa / size * size;
    if pa / size < qa / size {
      assert pa / size * size + size <= qa / size * size;
    } else if pa / size > qa / size {
      assert qa / size * size + size <= pa / size * size;
    }
  }

  // The reservation is of a physical address, but the SC's is compared by virtual address alone, and a satp write
  // leaves the reservation. So an SC can miss another hart's store to its target exactly when the target is no
  // longer the reserved address.
  lemma FooledExactly(b: Board, h: nat, pa: nat, data: seq<byte>)
    requires Inv(b) && Many(b) && h < |b.harts| && b.harts[h].resv.valid
    requires |data| == b.harts[h].resv.size == |b.harts[h].resv.value| && AtomicOk(pa, |data|) && InDram(b, pa, |data|)
    ensures (exists ev :: Fooled(b, ev, h, pa, data)) <==> pa != b.harts[h].resv.pa
  {
    var r := b.harts[h].resv;
    assert ResvOk(b.harts[h]);
    if pa != r.pa {
      var g := if h == 0 then 1 else 0;
      var x := Xlat(pa, Bare, NoAd);
      var ev := SlowWrite(g, pa, r.value, x);
      assert AccessOk(pa, r.size) by { SamePage(pa, r.size, r.size - 1); }
      AlignedApart(pa, r.pa, r.size);
      assert Touches(b, ev)[0] == Touch(g, pa, r.size) && Covers(Touch(g, pa, r.size), pa);
      PokeFrame(b, pa, r.value, pa);
      assert Do(b, ev).harts[h].resv == r;
      assert Fooled(b, ev, h, pa, data);
    } else {
      forall ev | EventOk(b, ev)
        ensures !Fooled(b, ev, h, pa, data)
      {
        if Fooled(b, ev, h, pa, data) {
          var t, q: nat :| t in Touches(b, ev) && t.h != h && Covers(t, q) && pa <= q < pa + |data|;
          assert Reaches(b, t, h);
          StoreKills(b, ev, h);
          assert false;
        }
      }
    }
  }

  ghost predicate OnlyDma(evs: seq<Event>) {
    forall i :: 0 <= i < |evs| ==> evs[i].Dma?
  }

  lemma {:induction false} DmaKeepsHarts(b: Board, evs: seq<Event>)
    requires Lawful(b, evs) && OnlyDma(evs)
    ensures Run(b, evs).harts == b.harts
    decreases |evs|
  {
    if evs != [] {
      assert evs[|evs| - 1].Dma?;
      DmaKeepsHarts(b, Front(evs));
    }
  }

  lemma ReserveArms(b: Board, h: nat, va: nat, size: nat, x: Xlat)
    requires Inv(b) && EventOk(b, LoadReserve(h, va, size, x))
    ensures var k := Do(b, LoadReserve(h, va, size, x)).harts[h];
            Armed(k, va, size) && k.resv.value == Loaded(b, h, size, x)
  {
  }

  // DMA leaves every reservation. After an LR and any DMA writes, an SC succeeds exactly when the bytes it reads are
  // those the LR loaded.
  lemma DmaUnseen(b: Board, evs: seq<Event>, h: nat, va: nat, data: seq<byte>, x: Xlat, xl: Xlat)
    requires Inv(b) && EventOk(b, LoadReserve(h, va, |data|, x))
    requires Lawful(Do(b, LoadReserve(h, va, |data|, x)), evs) && OnlyDma(evs)
    requires var b' := Run(Do(b, LoadReserve(h, va, |data|, x)), evs); AdOk(b', xl.ad) && InDram(b', xl.pa, |data|)
    ensures var b' := Run(Do(b, LoadReserve(h, va, |data|, x)), evs);
            Succeeds(b', h, va, data, xl) <==> Loaded(b', h, |data|, xl) == Loaded(b, h, |data|, x)
  {
    ReserveArms(b, h, va, |data|, x);
    DmaKeepsHarts(Do(b, LoadReserve(h, va, |data|, x)), evs);
  }

  // So DMA that changes the reserved bytes and puts them back goes unnoticed, whatever the LR.
  lemma DmaRestores(b: Board, h: nat, va: nat, data: seq<byte>, x: Xlat) returns (other: seq<byte>, back: seq<byte>)
    requires Inv(b) && EventOk(b, LoadReserve(h, va, |data|, x))
    ensures |other| == |back| == |data|
    ensures var b1 := Do(b, LoadReserve(h, va, |data|, x));
            && Inv(b1) && InDram(b1, x.pa, |data|)
            && Read(Do(b1, Dma(x.pa, other)), x.pa, |data|) != Loaded(b, h, |data|, x)
            && Inv(Do(b1, Dma(x.pa, other)))
            && Succeeds(Do(Do(b1, Dma(x.pa, other)), Dma(x.pa, back)), h, va, data, Xlat(x.pa, Bare, NoAd))
  {
    var b1 := Do(b, LoadReserve(h, va, |data|, x));
    EventKeepsInv(b, LoadReserve(h, va, |data|, x));
    ReserveArms(b, h, va, |data|, x);
    back := Loaded(b, h, |data|, x);
    other := back[0 := if back[0] == 0 then 1 else 0];
    EventKeepsInv(b1, Dma(x.pa, other));
    PokeFrame(b1, x.pa, other, x.pa);
    PokeFrame(Do(b1, Dma(x.pa, other)), x.pa, back, x.pa);
  }

  lemma ConditionalShaped(b: Board, h: nat, ad: Ad)
    requires Inv(b) && h < |b.harts| && AdOk(b, ad)
    ensures Shaped(b) && Shaped(AdWrite(b, h, ad))
    ensures Shaped(DropAt(b, h)) && Shaped(DropAt(AdWrite(b, h, ad), h))
  {
    AdWriteWeakens(b, h, ad);
    WeakenedInv(b, AdWrite(b, h, ad));
  }

  // ---------- The imperative board ----------

  // The hart records are embedded in the board, so an array of records holds them by value.
  class Machine {
    const base: nat
    const dram: array<byte>
    const harts: array<Hart>

    constructor (base: nat, size: nat, n: nat)
      ensures fresh(dram) && fresh(harts) && State().base == base && dram.Length == size && harts.Length == n
      ensures Inv(State()) && NoneReserved(State())
    {
      this.base := base;
      dram := new byte[size](_ => 0);
      harts := new Hart[n](_ => Hart(Emptied(), Resv(false, 0, 0, [], 0)));
    }

    function State(): Board
      reads dram, harts
    {
      Board(base, dram[..], harts[..])
    }

    method PageHasReservation(page: nat) returns (found: bool)
      ensures found == PageReserved(harts[..], page)
    {
      for i := 0 to harts.Length
        invariant !PageReserved(harts[..i], page)
      {
        if harts[i].resv.valid && harts[i].resv.pa / PAGE == page {
          assert harts[..][i] == harts[i];
          return true;
        }
        assert harts[..i + 1] == harts[..i] + [harts[i]];
      }
      assert harts[..harts.Length] == harts[..];
      return false;
    }

    method ClearOverlapping(storer: nat, pa: nat, len: nat)
      modifies harts
      ensures harts[..] == Cleared(old(harts[..]), storer, pa, len)
    {
      ghost var target := Cleared(harts[..], storer, pa, len);
      for i := 0 to harts.Length
        invariant forall k :: 0 <= k < i ==> harts[k] == target[k]
        invariant forall k :: i <= k < harts.Length ==> harts[k] == old(harts[k])
      {
        var k := harts[i];
        if i != storer && k.resv.valid && pa < k.resv.pa + k.resv.size && k.resv.pa < pa + len {
          harts[i] := k.(resv := k.resv.(valid := false));
        }
      }
    }

    method EvictPage(page: nat)
      requires Shaped(State())
      modifies harts
      ensures harts[..] == Evicted(old(harts[..]), page)
    {
      ghost var target := Evicted(harts[..], page);
      for i := 0 to harts.Length
        invariant forall k :: 0 <= k < i ==> harts[k] == target[k]
        invariant forall k :: i <= k < harts.Length ==> harts[k] == old(harts[k])
      {
        ghost var was := harts[i];
        assert was == old(harts[..])[i] && |was.store| == DTLB_N;
        for e := 0 to DTLB_N
          invariant harts[i].resv == was.resv && |harts[i].store| == DTLB_N
          invariant forall k :: 0 <= k < e ==> harts[i].store[k] == target[i].store[k]
          invariant forall k :: e <= k < DTLB_N ==> harts[i].store[k] == was.store[k]
          invariant forall k :: 0 <= k < i ==> harts[k] == target[k]
          invariant forall k :: i < k < harts.Length ==> harts[k] == old(harts[k])
        {
          var line := harts[i].store[e];
          if line.Line? && line.page == page {
            harts[i] := harts[i].(store := harts[i].store[e := Empty]);
          }
        }
        assert harts[i].store == target[i].store;
      }
    }

    method CopyIn(pa: nat, data: seq<byte>)
      requires InDram(State(), pa, |data|)
      modifies dram
      ensures State() == Poke(old(State()), pa, data)
    {
      var at := pa - base;
      for i := 0 to |data|
        invariant dram[..] == Poked(old(dram[..]), at, data[..i])
      {
        dram[at + i] := data[i];
        assert data[..i + 1] == data[..i] + [data[i]];
      }
      assert data[..|data|] == data;
    }

    method StoreBytes(h: nat, pa: nat, data: seq<byte>)
      requires InDram(State(), pa, |data|)
      modifies dram, harts
      ensures State() == CpuWrite(old(State()), h, pa, data)
    {
      CopyIn(pa, data);
      if harts.Length > 1 {
        ClearOverlapping(h, pa, |data|);
      }
    }

    method UpdateAd(h: nat, ad: Ad)
      requires h < harts.Length && AdOk(State(), ad)
      modifies dram, harts
      ensures State() == AdWrite(old(State()), h, ad)
    {
      if ad.Ad? {
        StoreBytes(h, ad.pa, ad.pte);
      }
    }

    // A store translation: its A/D update, then the DTLB line unless the page is reserved.
    method TranslateStore(h: nat, va: nat, x: Xlat)
      requires h < harts.Length && Shaped(State()) && AdOk(State(), x.ad)
      modifies dram, harts
      ensures State() == StoreXlat(old(State()), h, va, x)
    {
      UpdateAd(h, x.ad);
      if x.fill.Bare? {
        return;
      }
      var reserved := false;
      if harts.Length > 1 {
        reserved := PageHasReservation(x.pa / PAGE);
      }
      if !reserved {
        harts[h] := harts[h].(store := harts[h].store[va / PAGE % DTLB_N := LineFor(va, x)]);
      }
    }

    method SysStore(h: nat, va: nat, data: seq<byte>, x: Xlat)
      requires h < harts.Length && Shaped(State()) && AdOk(State(), x.ad)
      modifies dram, harts
      ensures State() == Slow(old(State()), h, va, data, x)
    {
      TranslateStore(h, va, x);
      if base <= x.pa && x.pa + |data| <= base + dram.Length {
        StoreBytes(h, x.pa, data);
      }
    }

    method Store(h: nat, va: nat, data: seq<byte>, x: Xlat)
      requires Inv(State()) && EventOk(State(), Write(h, va, data, x))
      modifies dram, harts
      ensures State() == Do(old(State()), Write(h, va, data, x))
    {
      var line := harts[h].store[va / PAGE % DTLB_N];
      if va % |data| == 0 && va % PAGE + |data| <= PAGE && line.Line? && line.vpn == va / PAGE {
        FastFits(State(), h, va / PAGE % DTLB_N);
        CopyIn(line.page * PAGE + va % PAGE, data);
      } else {
        SysStore(h, va, data, x);
      }
    }

    method LoadReserved(h: nat, va: nat, size: nat, x: Xlat) returns (value: seq<byte>)
      requires Inv(State()) && EventOk(State(), LoadReserve(h, va, size, x))
      modifies dram, harts
      ensures State() == Reserve(old(State()), h, va, size, x) && value == Loaded(old(State()), h, size, x)
    {
      hide CpuWrite, Poked, Inv;
      ConditionalShaped(State(), h, x.ad);
      UpdateAd(h, x.ad);
      value := dram[x.pa - base..x.pa - base + size];
      var r := harts[h].resv;
      if harts.Length <= 1 {
        harts[h] := harts[h].(resv := Resv(true, va, size, value, r.pa));
      } else {
        harts[h] := harts[h].(resv := Resv(true, va, size, value, x.pa));
        EvictPage(x.pa / PAGE);
      }
    }

    // The part of SC before its store: does memory still hold what LR loaded? The reservation goes either way.
    method TestReservation(h: nat, va: nat, size: nat, xl: Xlat) returns (ok: bool)
      requires h < harts.Length && AdOk(State(), xl.ad) && InDram(State(), xl.pa, size)
      modifies dram, harts
      ensures ok == (Armed(old(harts[h]), va, size) && Loaded(old(State()), h, size, xl) == old(harts[h]).resv.value)
      ensures State() == DropAt(if Armed(old(harts[h]), va, size) then AdWrite(old(State()), h, xl.ad) else old(State()), h)
    {
      var r := harts[h].resv;
      ok := r.valid && r.va == va && r.size == size;
      if ok {
        UpdateAd(h, xl.ad);
        ok := dram[xl.pa - base..xl.pa - base + size] == r.value;
      }
      harts[h] := harts[h].(resv := harts[h].resv.(valid := false));
    }

    method StoreConditional(h: nat, va: nat, data: seq<byte>, xl: Xlat, xs: Xlat) returns (ok: bool)
      requires Inv(State()) && EventOk(State(), StoreCond(h, va, data, xl, xs))
      modifies dram, harts
      ensures State() == Conditional(old(State()), h, va, data, xl, xs)
      ensures ok == Succeeds(old(State()), h, va, data, xl)
    {
      hide CpuWrite, Poked, Inv;
      ConditionalShaped(State(), h, xl.ad);
      ok := TestReservation(h, va, |data|, xl);
      if ok {
        SysStore(h, va, data, xs);
      }
    }
  }
}
