// Sv39 address translation with two levels of TLB (src/rv64_system.cpp, src/rv64_system.h).
//
// The reference is Fresh: a three-level walk of the page table and a PMP check on every access. The TLBs must
// never change its answer, and must never hide an A or D bit that is still to be set.
module Mmu {
  import opened Pmp

  // ---------- Page tables ----------

  // A page-table entry: V R W X U A D, the physical page number (bits 53:10), and bits 63:54.
  datatype Pte = Pte(v: bool, r: bool, w: bool, x: bool, u: bool, a: bool, d: bool, ppn: nat, reserved: nat)

  type Mem = map<int, Pte>  // the 8-byte slots of memory, read as page-table entries
  datatype Dram = Dram(base: int, size: int)

  datatype Priv = User | Supervisor | Machine

  // The control state translation depends on: satp, the privilege, and mstatus.
  datatype Ctl = Ctl(sv39: bool, root: nat, asid: nat, priv: Priv, mpp: Priv, mprv: bool, sum: bool, mxr: bool)

  function ReadPte(mem: Mem, addr: int): Pte {
    if addr in mem then mem[addr] else Pte(false, false, false, false, false, false, false, 0, 0)
  }

  predicate InDram(d: Dram, addr: int, len: int) {
    d.base <= addr && addr + len <= d.base + d.size
  }

  // Bits 63:39 of the address equal bit 38.
  predicate Canonical(vpn: nat) {
    vpn / 0x400_0000 == 0 || vpn / 0x400_0000 == 0x3FF_FFFF
  }

  // Pages a leaf at level lv spans.
  function Span(lv: nat): nat {
    if lv == 0 then 1 else if lv == 1 then 512 else 0x4_0000
  }

  function Index(vpn: nat, lv: nat): nat {
    (vpn / Span(lv)) % 512
  }

  // ---------- The walk ----------

  datatype Walk = Leaf(pte: Pte, addr: int, level: nat) | PageFault | AccessFault

  predicate IsLeaf(pte: Pte) {
    pte.r || pte.x
  }

  predicate Malformed(pte: Pte) {
    || !pte.v || (!pte.r && pte.w) || pte.reserved != 0
    || (!IsLeaf(pte) && (pte.d || pte.a || pte.u))
  }

  ghost function WalkFrom(d: Dram, e: Entries, mem: Mem, vpn: nat, table: nat, lv: nat): Walk
    requires |e.cfg| == |e.addr| == PMP_N
    decreases lv
  {
    var addr := 4096 * table + 8 * Index(vpn, lv);
    var pte := ReadPte(mem, addr);
    if !InDram(d, addr, 8) || !Allowed(e, 0, addr, 8, Load, false) then AccessFault
    else if Malformed(pte) then PageFault
    else if IsLeaf(pte) then (if pte.ppn % Span(lv) != 0 then PageFault else Leaf(pte, addr, lv))
    else if lv == 0 then PageFault
    else WalkFrom(d, e, mem, vpn, pte.ppn, lv - 1)
  }

  ghost function WalkTable(d: Dram, e: Entries, mem: Mem, root: nat, vpn: nat): Walk
    requires |e.cfg| == |e.addr| == PMP_N
  {
    if !Canonical(vpn) then PageFault else WalkFrom(d, e, mem, vpn, root, 2)
  }

  // The physical page a leaf maps vpn to: a superpage takes its low bits from vpn.
  function Compose(pte: Pte, lv: nat, vpn: nat): nat {
    (pte.ppn / Span(lv)) * Span(lv) + vpn % Span(lv)
  }

  // Loads and stores honor MPRV; fetches use the current privilege.
  function EffPriv(ctl: Ctl, acc: Access): Priv {
    if !acc.Fetch? && ctl.mprv then ctl.mpp else ctl.priv
  }

  predicate PermOk(ctl: Ctl, pte: Pte, acc: Access) {
    var eff := EffPriv(ctl, acc);
    && (match acc
        case Fetch => pte.x
        case Store => pte.w
        case Load => pte.r || (ctl.mxr && pte.x))
    && (eff.User? ==> pte.u)
    && (eff.Supervisor? && pte.u ==> !acc.Fetch? && ctl.sum)
  }

  function SetAD(pte: Pte, acc: Access): Pte {
    pte.(a := true, d := pte.d || acc.Store?)
  }

  // ---------- The reference translation ----------

  datatype Cause = PageFaultOf(acc: Access) | AccessFaultOf(acc: Access)
  datatype Out = Ok(pa: int) | Fault(cause: Cause)

  predicate Bare(ctl: Ctl, acc: Access) {
    EffPriv(ctl, acc).Machine? || !ctl.sv39
  }

  // What an access gives, and memory afterwards.
  ghost function Fresh(d: Dram, e: Entries, mem: Mem, ctl: Ctl, vaddr: nat, acc: Access, size: nat): (Out, Mem)
    requires |e.cfg| == |e.addr| == PMP_N
  {
    if Bare(ctl, acc) then
      (if Allowed(e, 0, vaddr, size, acc, EffPriv(ctl, acc).Machine?) then Ok(vaddr) else Fault(AccessFaultOf(acc)), mem)
    else
      match WalkTable(d, e, mem, ctl.root, vaddr / 4096)
      case AccessFault => (Fault(AccessFaultOf(acc)), mem)
      case PageFault => (Fault(PageFaultOf(acc)), mem)
      case Leaf(pte, addr, lv) =>
        if !PermOk(ctl, pte, acc) then (Fault(PageFaultOf(acc)), mem)
        else if SetAD(pte, acc) != pte && !Allowed(e, 0, addr, 8, Store, false) then (Fault(AccessFaultOf(acc)), mem)
        else
          var mem' := if SetAD(pte, acc) != pte then mem[addr := SetAD(pte, acc)] else mem;
          var pa := 4096 * Compose(pte, lv, vaddr / 4096) + vaddr % 4096;
          (if Allowed(e, 0, pa, size, acc, false) then Ok(pa) else Fault(AccessFaultOf(acc)), mem')
  }

  // ---------- TLB entries and what they promise ----------

  datatype Tag = NoTag | Tag(root: nat, asid: nat)
  datatype L1 = Empty | L1(vpn: nat, page: nat)
  datatype L2 = L2(vpn: nat, tag: Tag, page: nat, pte: Pte, allow: Perm)

  const DTLB_N := 16
  const L2TLB_N := 128

  datatype Tlbs = Tlbs(itlb: L1, load: seq<L1>, store: seq<L1>, l2: seq<L2>)

  predicate TlbsOk(t: Tlbs) {
    |t.load| == |t.store| == DTLB_N && |t.l2| == L2TLB_N
  }

  predicate PageInDram(d: Dram, page: nat) {
    InDram(d, 4096 * page, 4096)
  }

  const ROM_PAGE: nat := 1

  // Fetches reach DRAM and the reset ROM, which is one page.
  predicate PageExecutable(d: Dram, page: nat) {
    PageInDram(d, page) || page == ROM_PAGE
  }

  // Every access of this kind to the page goes to `page`, with no A or D bit to set.
  ghost predicate PageOk(d: Dram, e: Entries, mem: Mem, ctl: Ctl, vpn: nat, acc: Access, page: nat)
    requires |e.cfg| == |e.addr| == PMP_N
  {
    if Bare(ctl, acc) then
      page == vpn && Allowed(e, 0, 4096 * page, 4096, acc, EffPriv(ctl, acc).Machine?)
    else
      var w := WalkTable(d, e, mem, ctl.root, vpn);
      && Allowed(e, 0, 4096 * page, 4096, acc, false)
      && w.Leaf? && PermOk(ctl, w.pte, acc) && SetAD(w.pte, acc) == w.pte && Compose(w.pte, w.level, vpn) == page
  }

  ghost predicate L1Ok(d: Dram, e: Entries, mem: Mem, ctl: Ctl, acc: Access, l1: L1)
    requires |e.cfg| == |e.addr| == PMP_N
  {
    l1.Empty? || PageOk(d, e, mem, ctl, l1.vpn, acc, l1.page)
  }

  // A cached leaf is the leaf in memory, except that the A or D bit may have been set since.
  predicate Older(p: Pte, q: Pte) {
    p.(a := q.a, d := q.d) == q && (p.a ==> q.a) && (p.d ==> q.d)
  }

  ghost predicate L2Ok(d: Dram, e: Entries, mem: Mem, ctl: Ctl, l2: L2)
    requires |e.cfg| == |e.addr| == PMP_N
  {
    l2.tag == Tag(ctl.root, ctl.asid) ==>
      var w := WalkTable(d, e, mem, ctl.root, l2.vpn);
      && w.Leaf? && Older(l2.pte, w.pte) && Compose(w.pte, w.level, l2.vpn) == l2.page && PageInDram(d, l2.page)
      && forall acc :: Grants(l2.allow, acc) <==> Allowed(e, 0, 4096 * l2.page, 4096, acc, false)
  }

  // A data entry sits in the slot its page selects.
  predicate Slotted(l1: L1, i: nat) {
    l1.L1? ==> l1.vpn % DTLB_N == i
  }

  ghost predicate Sound(d: Dram, e: Entries, mem: Mem, ctl: Ctl, t: Tlbs) {
    && EntriesOk(e) && TlbsOk(t)
    && (forall i :: 0 <= i < DTLB_N ==> Slotted(t.load[i], i) && Slotted(t.store[i], i))
    && (t.itlb.L1? ==> PageExecutable(d, t.itlb.page))
    && L1Ok(d, e, mem, ctl, Fetch, t.itlb)
    && (forall i :: 0 <= i < DTLB_N ==> L1Ok(d, e, mem, ctl, Load, t.load[i]))
    && (forall i :: 0 <= i < DTLB_N ==> L1Ok(d, e, mem, ctl, Store, t.store[i]))
    && (forall i :: 0 <= i < L2TLB_N ==> L2Ok(d, e, mem, ctl, t.l2[i]))
  }

  function L1For(t: Tlbs, acc: Access, vpn: nat): L1
    requires TlbsOk(t)
  {
    match acc
    case Fetch => t.itlb
    case Load => t.load[vpn % DTLB_N]
    case Store => t.store[vpn % DTLB_N]
  }

  // ---------- Parts of an access ----------

  // PMP decides an access inside a page it allows whole.
  lemma {:induction false} WithinAllowed(e: Entries, i: nat, page: int, pa: int, len: int, acc: Access, machine: bool)
    requires |e.cfg| == |e.addr| == PMP_N && i <= PMP_N
    requires page <= pa && len > 0 && pa + len <= page + 4096 && Allowed(e, i, page, 4096, acc, machine)
    ensures Allowed(e, i, pa, len, acc, machine)
    decreases PMP_N - i
  {
    if i < PMP_N {
      var r := RangeOf(e, i);
      if MatchesAny(r, page, 4096) {
        assert In(r, pa);
        assert MatchesAny(r, pa, len);
      } else {
        assert !MatchesAny(r, pa, len);
        WithinAllowed(e, i + 1, page, pa, len, acc, machine);
      }
    }
  }

  // An L1 hit gives the reference answer and hides no A or D update.
  lemma L1Agrees(d: Dram, e: Entries, mem: Mem, ctl: Ctl, t: Tlbs, vaddr: nat, acc: Access, size: nat)
    requires Sound(d, e, mem, ctl, t) && size > 0 && vaddr % 4096 + size <= 4096
    requires L1For(t, acc, vaddr / 4096).L1? && L1For(t, acc, vaddr / 4096).vpn == vaddr / 4096
    ensures Fresh(d, e, mem, ctl, vaddr, acc, size)
         == (Ok(4096 * L1For(t, acc, vaddr / 4096).page + vaddr % 4096), mem)
  {
    hide Fresh, PageOk, L2Ok;
    var l1 := L1For(t, acc, vaddr / 4096);
    assert L1Ok(d, e, mem, ctl, acc, l1);
    PageAgrees(d, e, mem, ctl, vaddr, acc, size, l1.page);
  }

  lemma PageAgrees(d: Dram, e: Entries, mem: Mem, ctl: Ctl, vaddr: nat, acc: Access, size: nat, page: nat)
    requires |e.cfg| == |e.addr| == PMP_N && PageOk(d, e, mem, ctl, vaddr / 4096, acc, page)
    requires size > 0 && vaddr % 4096 + size <= 4096
    ensures Fresh(d, e, mem, ctl, vaddr, acc, size) == (Ok(4096 * page + vaddr % 4096), mem)
  {
    hide Allowed, WalkTable, PermOk, Compose, SetAD;
    WithinAllowed(e, 0, 4096 * page, 4096 * page + vaddr % 4096, size, acc, Bare(ctl, acc) && EffPriv(ctl, acc).Machine?);
  }

  // ---------- The walk that fills the TLBs ----------

  // pte_access_ok: whether a cached leaf lets the access through with no A or D bit to set.
  predicate AccessOk(ctl: Ctl, pte: Pte, acc: Access) {
    var s := EffPriv(ctl, acc).Supervisor?;
    if !pte.a || (acc.Store? && !pte.d) then false
    else match acc
      case Fetch => pte.x && (if s then !pte.u else pte.u)
      case Load => (pte.r || (ctl.mxr && pte.x)) && (if s then !pte.u || ctl.sum else pte.u)
      case Store => pte.w && (if s then !pte.u || ctl.sum else pte.u)
  }

  ghost function PageAllow(e: Entries, page: nat): Perm
    requires |e.cfg| == |e.addr| == PMP_N
  {
    Perm(Allowed(e, 0, 4096 * page, 4096, Load, false), Allowed(e, 0, 4096 * page, 4096, Store, false),
         Allowed(e, 0, 4096 * page, 4096, Fetch, false))
  }

  predicate L2Hit(ctl: Ctl, t: Tlbs, vpn: nat, acc: Access)
    requires |t.l2| == L2TLB_N
  {
    var l2 := t.l2[vpn % L2TLB_N];
    l2.tag == Tag(ctl.root, ctl.asid) && l2.vpn == vpn && AccessOk(ctl, l2.pte, acc)
  }

  function FillL1(t: Tlbs, acc: Access, vpn: nat, l1: L1): (r: Tlbs)
    requires |t.load| == |t.store| == DTLB_N
    ensures |r.load| == |r.store| == DTLB_N && r.l2 == t.l2
  {
    match acc
    case Fetch => t.(itlb := l1)
    case Load => t.(load := t.load[vpn % DTLB_N := l1])
    case Store => t.(store := t.store[vpn % DTLB_N := l1])
  }

  // The end of translate_slow: the PMP check of the access, and the L1 fill. Store fills of the pages in
  // `refused` (those that hold a reservation) are left out.
  ghost function Finish(d: Dram, e: Entries, mem: Mem, t: Tlbs, vaddr: nat, acc: Access, size: nat,
                        page: nat, allow: Perm, refused: set<nat>): (r: (Out, Mem, Tlbs))
    requires |e.cfg| == |e.addr| == PMP_N && TlbsOk(t)
    ensures TlbsOk(r.2)
  {
    var pa := 4096 * page + vaddr % 4096;
    var pageOk := Grants(allow, acc);
    if !pageOk && !Allowed(e, 0, pa, size, acc, false) then (Fault(AccessFaultOf(acc)), mem, t)
    else if acc.Store? && page in refused then (Ok(pa), mem, t)
    else (Ok(pa), mem, FillL1(t, acc, vaddr / 4096, if PageInDram(d, page) && pageOk then L1(vaddr / 4096, page) else Empty))
  }

  // The leaf just walked, cached in L2 if its page is in DRAM.
  ghost function Refill(d: Dram, e: Entries, ctl: Ctl, t: Tlbs, vpn: nat, pte: Pte, lv: nat): Tlbs
    requires |e.cfg| == |e.addr| == PMP_N && TlbsOk(t)
  {
    var i, page := vpn % L2TLB_N, Compose(pte, lv, vpn);
    t.(l2 := t.l2[i := if PageInDram(d, page) then L2(vpn, Tag(ctl.root, ctl.asid), page, pte, PageAllow(e, page))
                       else t.l2[i].(tag := NoTag)])
  }

  // What the walk of an access finds: a fault, or the leaf with its A and D bits set, and memory with them set.
  datatype Found = Missing(cause: Cause) | Found(pte: Pte, level: nat)

  ghost function LeafAccess(d: Dram, e: Entries, mem: Mem, ctl: Ctl, vpn: nat, acc: Access): (Found, Mem)
    requires |e.cfg| == |e.addr| == PMP_N
  {
    match WalkTable(d, e, mem, ctl.root, vpn)
    case AccessFault => (Missing(AccessFaultOf(acc)), mem)
    case PageFault => (Missing(PageFaultOf(acc)), mem)
    case Leaf(pte, addr, lv) =>
      var pte' := SetAD(pte, acc);
      if !PermOk(ctl, pte, acc) then (Missing(PageFaultOf(acc)), mem)
      else if pte' != pte && !Allowed(e, 0, addr, 8, Store, false) then (Missing(AccessFaultOf(acc)), mem)
      else (Found(pte', lv), if pte' != pte then mem[addr := pte'] else mem)
  }

  // translate_slow.
  ghost function Slow(d: Dram, e: Entries, mem: Mem, ctl: Ctl, t: Tlbs, vaddr: nat, acc: Access, size: nat,
                      refused: set<nat>): (r: (Out, Mem, Tlbs))
    requires |e.cfg| == |e.addr| == PMP_N && TlbsOk(t)
    ensures TlbsOk(r.2)
  {
    var vpn := vaddr / 4096;
    var l2 := t.l2[vpn % L2TLB_N];
    if L2Hit(ctl, t, vpn, acc) then Finish(d, e, mem, t, vaddr, acc, size, l2.page, l2.allow, refused)
    else
      var (f, mem') := LeafAccess(d, e, mem, ctl, vpn, acc);
      if f.Missing? then (Fault(f.cause), mem, t)
      else
        var page := Compose(f.pte, f.level, vpn);
        Finish(d, e, mem', Refill(d, e, ctl, t, vpn, f.pte, f.level), vaddr, acc, size, page, PageAllow(e, page), refused)
  }

  // ---------- Setting A and D bits moves no translation ----------

  ghost predicate Sets(mem: Mem, mem': Mem, addr: int, acc: Access) {
    && addr in mem && IsLeaf(mem[addr]) && !Malformed(mem[addr])
    && mem' == mem[addr := SetAD(mem[addr], acc)]
  }

  // A walk finds the same leaf, with the bits set if it is the one that changed.
  function Updated(w: Walk, addr: int, acc: Access): Walk {
    if w.Leaf? && w.addr == addr then w.(pte := SetAD(w.pte, acc)) else w
  }

  lemma {:induction false} WalkStable(d: Dram, e: Entries, mem: Mem, mem': Mem, addr: int, acc: Access,
                                      vpn: nat, table: nat, lv: nat)
    requires |e.cfg| == |e.addr| == PMP_N && Sets(mem, mem', addr, acc)
    ensures WalkFrom(d, e, mem', vpn, table, lv) == Updated(WalkFrom(d, e, mem, vpn, table, lv), addr, acc)
    decreases lv
  {
    var a := 4096 * table + 8 * Index(vpn, lv);
    if lv > 0 && a != addr {
      WalkStable(d, e, mem, mem', addr, acc, vpn, ReadPte(mem, a).ppn, lv - 1);
    }
  }

  lemma PageStable(d: Dram, e: Entries, mem: Mem, mem': Mem, addr: int, setter: Access,
                   ctl: Ctl, vpn: nat, acc: Access, page: nat)
    requires |e.cfg| == |e.addr| == PMP_N && Sets(mem, mem', addr, setter) && PageOk(d, e, mem, ctl, vpn, acc, page)
    ensures PageOk(d, e, mem', ctl, vpn, acc, page)
  {
    WalkStable(d, e, mem, mem', addr, setter, vpn, ctl.root, 2);
  }

  lemma L2Stable(d: Dram, e: Entries, mem: Mem, mem': Mem, addr: int, setter: Access, ctl: Ctl, l2: L2)
    requires |e.cfg| == |e.addr| == PMP_N && Sets(mem, mem', addr, setter) && L2Ok(d, e, mem, ctl, l2)
    ensures L2Ok(d, e, mem', ctl, l2)
  {
    WalkStable(d, e, mem, mem', addr, setter, l2.vpn, ctl.root, 2);
  }

  // Any hart's walk may set A and D bits: this hart's TLBs stay sound.
  lemma SoundStable(d: Dram, e: Entries, mem: Mem, mem': Mem, addr: int, setter: Access, ctl: Ctl, t: Tlbs)
    requires Sound(d, e, mem, ctl, t) && Sets(mem, mem', addr, setter)
    ensures Sound(d, e, mem', ctl, t)
  {
    if t.itlb.L1? {
      PageStable(d, e, mem, mem', addr, setter, ctl, t.itlb.vpn, Fetch, t.itlb.page);
    }
    forall i | 0 <= i < DTLB_N ensures L1Ok(d, e, mem', ctl, Load, t.load[i]) {
      assert L1Ok(d, e, mem, ctl, Load, t.load[i]);
      if t.load[i].L1? {
        PageStable(d, e, mem, mem', addr, setter, ctl, t.load[i].vpn, Load, t.load[i].page);
      }
    }
    forall i | 0 <= i < DTLB_N ensures L1Ok(d, e, mem', ctl, Store, t.store[i]) {
      assert L1Ok(d, e, mem, ctl, Store, t.store[i]);
      if t.store[i].L1? {
        PageStable(d, e, mem, mem', addr, setter, ctl, t.store[i].vpn, Store, t.store[i].page);
      }
    }
    forall i | 0 <= i < L2TLB_N ensures L2Ok(d, e, mem', ctl, t.l2[i]) {
      L2Stable(d, e, mem, mem', addr, setter, ctl, t.l2[i]);
    }
  }

  lemma {:induction false} LeafInMemory(d: Dram, e: Entries, mem: Mem, vpn: nat, table: nat, lv: nat)
    requires |e.cfg| == |e.addr| == PMP_N && WalkFrom(d, e, mem, vpn, table, lv).Leaf?
    ensures var w := WalkFrom(d, e, mem, vpn, table, lv);
      && InDram(d, w.addr, 8) && w.addr in mem && mem[w.addr] == w.pte
      && IsLeaf(w.pte) && !Malformed(w.pte) && w.level <= lv
    decreases lv
  {
    var a := 4096 * table + 8 * Index(vpn, lv);
    if !IsLeaf(ReadPte(mem, a)) {
      LeafInMemory(d, e, mem, vpn, ReadPte(mem, a).ppn, lv - 1);
    }
  }

  // ---------- The TLBs agree with a fresh walk ----------

  lemma FillSound(d: Dram, e: Entries, mem: Mem, ctl: Ctl, t: Tlbs, acc: Access, vpn: nat, l1: L1)
    requires Sound(d, e, mem, ctl, t) && L1Ok(d, e, mem, ctl, acc, l1)
    requires l1.L1? ==> l1.vpn == vpn && (acc.Fetch? ==> PageExecutable(d, l1.page))
    ensures Sound(d, e, mem, ctl, FillL1(t, acc, vpn, l1))
  {
  }

  // The walk's answer for vaddr is `page`, with no A or D bit to set.
  ghost predicate Maps(d: Dram, e: Entries, mem: Mem, ctl: Ctl, vpn: nat, acc: Access, page: nat)
    requires |e.cfg| == |e.addr| == PMP_N
  {
    var w := WalkTable(d, e, mem, ctl.root, vpn);
    w.Leaf? && PermOk(ctl, w.pte, acc) && SetAD(w.pte, acc) == w.pte && Compose(w.pte, w.level, vpn) == page
  }

  // The end of an access, for a page that the walk says is the right one.
  lemma FinishAnswer(d: Dram, e: Entries, mem: Mem, ctl: Ctl, t: Tlbs, vaddr: nat, acc: Access, size: nat,
                     page: nat, allow: Perm, refused: set<nat>)
    requires |e.cfg| == |e.addr| == PMP_N && TlbsOk(t) && !Bare(ctl, acc) && size > 0 && vaddr % 4096 + size <= 4096
    requires Grants(allow, acc) <==> Allowed(e, 0, 4096 * page, 4096, acc, false)
    requires Maps(d, e, mem, ctl, vaddr / 4096, acc, page)
    ensures var r := Finish(d, e, mem, t, vaddr, acc, size, page, allow, refused);
      (r.0, r.1) == Fresh(d, e, mem, ctl, vaddr, acc, size)
  {
    if Grants(allow, acc) {
      WithinAllowed(e, 0, 4096 * page, 4096 * page + vaddr % 4096, size, acc, false);
    }
  }

  lemma FinishOk(d: Dram, e: Entries, mem: Mem, ctl: Ctl, t: Tlbs, vaddr: nat, acc: Access, size: nat,
                 page: nat, allow: Perm, refused: set<nat>)
    requires Sound(d, e, mem, ctl, t) && !Bare(ctl, acc) && size > 0 && vaddr % 4096 + size <= 4096
    requires Grants(allow, acc) <==> Allowed(e, 0, 4096 * page, 4096, acc, false)
    requires Maps(d, e, mem, ctl, vaddr / 4096, acc, page)
    ensures var r := Finish(d, e, mem, t, vaddr, acc, size, page, allow, refused);
      && (r.0, r.1) == Fresh(d, e, mem, ctl, vaddr, acc, size)
      && Sound(d, e, mem, ctl, r.2)
  {
    FinishAnswer(d, e, mem, ctl, t, vaddr, acc, size, page, allow, refused);
    var l1 := if PageInDram(d, page) && Grants(allow, acc) then L1(vaddr / 4096, page) else Empty;
    FillSound(d, e, mem, ctl, t, acc, vaddr / 4096, l1);
  }

  lemma HitOk(d: Dram, e: Entries, mem: Mem, ctl: Ctl, t: Tlbs, vaddr: nat, acc: Access, size: nat, refused: set<nat>)
    requires Sound(d, e, mem, ctl, t) && !Bare(ctl, acc) && size > 0 && vaddr % 4096 + size <= 4096
    requires L2Hit(ctl, t, vaddr / 4096, acc)
    ensures var r := Slow(d, e, mem, ctl, t, vaddr, acc, size, refused);
      && (r.0, r.1) == Fresh(d, e, mem, ctl, vaddr, acc, size)
      && Sound(d, e, r.1, ctl, r.2)
  {
    var l2 := t.l2[(vaddr / 4096) % L2TLB_N];
    assert L2Ok(d, e, mem, ctl, l2);
    FinishOk(d, e, mem, ctl, t, vaddr, acc, size, l2.page, l2.allow, refused);
  }

  // The entry a walk caches is the leaf it found.
  lemma RefillSound(d: Dram, e: Entries, mem: Mem, ctl: Ctl, t: Tlbs, vpn: nat)
    requires Sound(d, e, mem, ctl, t) && WalkTable(d, e, mem, ctl.root, vpn).Leaf?
    ensures var w := WalkTable(d, e, mem, ctl.root, vpn);
      Sound(d, e, mem, ctl, Refill(d, e, ctl, t, vpn, w.pte, w.level))
  {
    var w := WalkTable(d, e, mem, ctl.root, vpn);
    var t' := Refill(d, e, ctl, t, vpn, w.pte, w.level);
    forall i | 0 <= i < L2TLB_N ensures L2Ok(d, e, mem, ctl, t'.l2[i]) {
      assert L2Ok(d, e, mem, ctl, t.l2[i]);
    }
  }

  lemma WalkAgain(d: Dram, e: Entries, mem: Mem, ctl: Ctl, vpn: nat, acc: Access, w: Walk, mem': Mem)
    requires |e.cfg| == |e.addr| == PMP_N && w == WalkTable(d, e, mem, ctl.root, vpn) && w.Leaf?
    requires mem' == (if SetAD(w.pte, acc) != w.pte then mem[w.addr := SetAD(w.pte, acc)] else mem)
    ensures WalkTable(d, e, mem', ctl.root, vpn) == w.(pte := SetAD(w.pte, acc))
    ensures mem' != mem ==> Sets(mem, mem', w.addr, acc)
  {
    LeafInMemory(d, e, mem, vpn, ctl.root, 2);
    if SetAD(w.pte, acc) != w.pte {
      WalkStable(d, e, mem, mem', w.addr, acc, vpn, ctl.root, 2);
    }
  }

  // Once the bits are set, the same access gives the same answer and sets nothing.
  lemma FreshAgain(d: Dram, e: Entries, mem: Mem, ctl: Ctl, vaddr: nat, acc: Access, size: nat, w: Walk, mem': Mem)
    requires |e.cfg| == |e.addr| == PMP_N && !Bare(ctl, acc)
    requires w == WalkTable(d, e, mem, ctl.root, vaddr / 4096) && w.Leaf? && PermOk(ctl, w.pte, acc)
    requires SetAD(w.pte, acc) != w.pte ==> Allowed(e, 0, w.addr, 8, Store, false)
    requires mem' == (if SetAD(w.pte, acc) != w.pte then mem[w.addr := SetAD(w.pte, acc)] else mem)
    requires WalkTable(d, e, mem', ctl.root, vaddr / 4096) == w.(pte := SetAD(w.pte, acc))
    ensures Fresh(d, e, mem', ctl, vaddr, acc, size) == Fresh(d, e, mem, ctl, vaddr, acc, size)
  {
  }

  // After a walk that succeeds, memory holds the leaf with its bits set, and L2 the leaf in memory.
  lemma LeafCached(d: Dram, e: Entries, mem: Mem, ctl: Ctl, t: Tlbs, vpn: nat, acc: Access, w: Walk, mem': Mem)
    requires Sound(d, e, mem, ctl, t)
    requires w == WalkTable(d, e, mem, ctl.root, vpn) && w.Leaf? && PermOk(ctl, w.pte, acc)
    requires WalkTable(d, e, mem', ctl.root, vpn) == w.(pte := SetAD(w.pte, acc))
    requires mem' == mem || Sets(mem, mem', w.addr, acc)
    ensures Sound(d, e, mem', ctl, Refill(d, e, ctl, t, vpn, SetAD(w.pte, acc), w.level))
    ensures Maps(d, e, mem', ctl, vpn, acc, Compose(SetAD(w.pte, acc), w.level, vpn))
  {
    if mem' != mem {
      SoundStable(d, e, mem, mem', w.addr, acc, ctl, t);
    }
    RefillSound(d, e, mem', ctl, t, vpn);
  }

  lemma LeafOk(d: Dram, e: Entries, mem: Mem, ctl: Ctl, t: Tlbs, vaddr: nat, acc: Access, size: nat, refused: set<nat>,
               w: Walk, mem': Mem, t': Tlbs, page: nat)
    requires Sound(d, e, mem, ctl, t) && !Bare(ctl, acc) && size > 0 && vaddr % 4096 + size <= 4096
    requires w == WalkTable(d, e, mem, ctl.root, vaddr / 4096) && w.Leaf? && PermOk(ctl, w.pte, acc)
    requires SetAD(w.pte, acc) != w.pte ==> Allowed(e, 0, w.addr, 8, Store, false)
    requires mem' == (if SetAD(w.pte, acc) != w.pte then mem[w.addr := SetAD(w.pte, acc)] else mem)
    requires t' == Refill(d, e, ctl, t, vaddr / 4096, SetAD(w.pte, acc), w.level)
    requires page == Compose(SetAD(w.pte, acc), w.level, vaddr / 4096)
    ensures var r := Finish(d, e, mem', t', vaddr, acc, size, page, PageAllow(e, page), refused);
      && (r.0, r.1) == Fresh(d, e, mem, ctl, vaddr, acc, size)
      && Sound(d, e, mem', ctl, r.2)
  {
    WalkAgain(d, e, mem, ctl, vaddr / 4096, acc, w, mem');
    FreshAgain(d, e, mem, ctl, vaddr, acc, size, w, mem');
    LeafCached(d, e, mem, ctl, t, vaddr / 4096, acc, w, mem');
    FinishOk(d, e, mem', ctl, t', vaddr, acc, size, page, PageAllow(e, page), refused);
  }

  lemma MissOk(d: Dram, e: Entries, mem: Mem, ctl: Ctl, t: Tlbs, vaddr: nat, acc: Access, size: nat, refused: set<nat>)
    requires Sound(d, e, mem, ctl, t) && !Bare(ctl, acc) && size > 0 && vaddr % 4096 + size <= 4096
    requires !L2Hit(ctl, t, vaddr / 4096, acc)
    ensures var r := Slow(d, e, mem, ctl, t, vaddr, acc, size, refused);
      && (r.0, r.1) == Fresh(d, e, mem, ctl, vaddr, acc, size)
      && Sound(d, e, r.1, ctl, r.2)
  {
    var w := WalkTable(d, e, mem, ctl.root, vaddr / 4096);
    if w.Leaf? && PermOk(ctl, w.pte, acc) && (SetAD(w.pte, acc) != w.pte ==> Allowed(e, 0, w.addr, 8, Store, false)) {
      var mem' := if SetAD(w.pte, acc) != w.pte then mem[w.addr := SetAD(w.pte, acc)] else mem;
      var pte', vpn := SetAD(w.pte, acc), vaddr / 4096;
      LeafOk(d, e, mem, ctl, t, vaddr, acc, size, refused, w, mem',
             Refill(d, e, ctl, t, vpn, pte', w.level), Compose(pte', w.level, vpn));
    }
  }

  // translate: untranslated accesses are checked by PMP alone.
  ghost function Translate(d: Dram, e: Entries, mem: Mem, ctl: Ctl, t: Tlbs, vaddr: nat, acc: Access, size: nat,
                           refused: set<nat>): (r: (Out, Mem, Tlbs))
    requires |e.cfg| == |e.addr| == PMP_N && TlbsOk(t)
    ensures TlbsOk(r.2)
  {
    if Bare(ctl, acc) then
      (if Allowed(e, 0, vaddr, size, acc, EffPriv(ctl, acc).Machine?) then Ok(vaddr) else Fault(AccessFaultOf(acc)), mem, t)
    else Slow(d, e, mem, ctl, t, vaddr, acc, size, refused)
  }

  // An access as the simulator makes it: the L1 TLB first, then translate.
  ghost function Cached(d: Dram, e: Entries, mem: Mem, ctl: Ctl, t: Tlbs, vaddr: nat, acc: Access, size: nat,
                        refused: set<nat>): (Out, Mem, Tlbs)
    requires |e.cfg| == |e.addr| == PMP_N && TlbsOk(t)
  {
    var l1 := L1For(t, acc, vaddr / 4096);
    if l1.L1? && l1.vpn == vaddr / 4096 then (Ok(4096 * l1.page + vaddr % 4096), mem, t)
    else Translate(d, e, mem, ctl, t, vaddr, acc, size, refused)
  }

  // Whatever the TLBs hold, an access gives the physical address or the fault of a fresh walk, leaves the same A
  // and D bits in memory, and keeps the TLBs sound.
  lemma CachedAgrees(d: Dram, e: Entries, mem: Mem, ctl: Ctl, t: Tlbs, vaddr: nat, acc: Access, size: nat, refused: set<nat>)
    requires Sound(d, e, mem, ctl, t) && size > 0 && vaddr % 4096 + size <= 4096
    ensures var r := Cached(d, e, mem, ctl, t, vaddr, acc, size, refused);
      && (r.0, r.1) == Fresh(d, e, mem, ctl, vaddr, acc, size)
      && Sound(d, e, r.1, ctl, r.2)
  {
    var l1 := L1For(t, acc, vaddr / 4096);
    if l1.L1? && l1.vpn == vaddr / 4096 {
      L1Agrees(d, e, mem, ctl, t, vaddr, acc, size);
    } else if !Bare(ctl, acc) {
      if L2Hit(ctl, t, vaddr / 4096, acc) {
        HitOk(d, e, mem, ctl, t, vaddr, acc, size, refused);
      } else {
        MissOk(d, e, mem, ctl, t, vaddr, acc, size, refused);
      }
    }
  }

  // ---------- The translation of section 4.3.2, written out ----------

  // One page-table entry on the way: a fault, the table of the next level, or a leaf.
  datatype Looked = Denied | Invalid | Pointer(table: nat) | Final(pte: Pte)

  ghost function LookAt(d: Dram, e: Entries, mem: Mem, table: nat, index: nat): Looked
    requires |e.cfg| == |e.addr| == PMP_N
  {
    var at := 4096 * table + 8 * index;
    if at < d.base || at + 8 > d.base + d.size || !Allowed(e, 0, at, 8, Load, false) then Denied
    else if at !in mem || !mem[at].v || (mem[at].w && !mem[at].r) || mem[at].reserved != 0 then Invalid
    else if mem[at].r || mem[at].x then Final(mem[at])
    else if mem[at].u || mem[at].a || mem[at].d then Invalid
    else Pointer(mem[at].ppn)
  }

  // Three levels of nine address bits, over 38 bits and a sign. A leaf above the last level maps an aligned superpage.
  ghost function Sv39(d: Dram, e: Entries, mem: Mem, root: nat, vaddr: nat): Walk
    requires |e.cfg| == |e.addr| == PMP_N
  {
    if 0x40_0000_0000 <= vaddr < 0xFFFF_FFC0_0000_0000 then PageFault
    else
      match LookAt(d, e, mem, root, vaddr / 0x4000_0000 % 512)
      case Denied => AccessFault
      case Invalid => PageFault
      case Final(pte) =>
        if pte.ppn % 0x4_0000 != 0 then PageFault else Leaf(pte, 4096 * root + 8 * (vaddr / 0x4000_0000 % 512), 2)
      case Pointer(table) => Level1(d, e, mem, table, vaddr)
  }

  ghost function Level1(d: Dram, e: Entries, mem: Mem, table: nat, vaddr: nat): Walk
    requires |e.cfg| == |e.addr| == PMP_N
  {
    match LookAt(d, e, mem, table, vaddr / 0x20_0000 % 512)
    case Denied => AccessFault
    case Invalid => PageFault
    case Final(pte) =>
      if pte.ppn % 512 != 0 then PageFault else Leaf(pte, 4096 * table + 8 * (vaddr / 0x20_0000 % 512), 1)
    case Pointer(next) => Level0(d, e, mem, next, vaddr)
  }

  ghost function Level0(d: Dram, e: Entries, mem: Mem, table: nat, vaddr: nat): Walk
    requires |e.cfg| == |e.addr| == PMP_N
  {
    match LookAt(d, e, mem, table, vaddr / 0x1000 % 512)
    case Denied => AccessFault
    case Final(pte) => Leaf(pte, 4096 * table + 8 * (vaddr / 0x1000 % 512), 0)
    case _ => PageFault
  }

  lemma LookStep(d: Dram, e: Entries, mem: Mem, vpn: nat, table: nat, lv: nat)
    requires |e.cfg| == |e.addr| == PMP_N && lv <= 2
    ensures var index := vpn / Span(lv) % 512;
      WalkFrom(d, e, mem, vpn, table, lv) ==
        match LookAt(d, e, mem, table, index)
        case Denied => AccessFault
        case Invalid => PageFault
        case Final(pte) => if pte.ppn % Span(lv) != 0 then PageFault else Leaf(pte, 4096 * table + 8 * index, lv)
        case Pointer(t) => if lv == 0 then PageFault else WalkFrom(d, e, mem, vpn, t, lv - 1)
  {
    hide Allowed;
  }

  lemma IndexParts(vaddr: nat)
    ensures vaddr / 4096 / 0x4_0000 == vaddr / 0x4000_0000 && vaddr / 4096 / 512 == vaddr / 0x20_0000
    ensures vaddr < 0x1_0000_0000_0000_0000 ==>
      (Canonical(vaddr / 4096) <==> vaddr < 0x40_0000_0000 || vaddr >= 0xFFFF_FFC0_0000_0000)
  {
  }

  lemma Level0Meaning(d: Dram, e: Entries, mem: Mem, table: nat, vaddr: nat)
    requires |e.cfg| == |e.addr| == PMP_N
    ensures WalkFrom(d, e, mem, vaddr / 4096, table, 0) == Level0(d, e, mem, table, vaddr)
  {
    LookStep(d, e, mem, vaddr / 4096, table, 0);
    hide WalkFrom, LookAt;
  }

  lemma Level1Meaning(d: Dram, e: Entries, mem: Mem, table: nat, vaddr: nat)
    requires |e.cfg| == |e.addr| == PMP_N
    ensures WalkFrom(d, e, mem, vaddr / 4096, table, 1) == Level1(d, e, mem, table, vaddr)
  {
    IndexParts(vaddr);
    LookStep(d, e, mem, vaddr / 4096, table, 1);
    hide WalkFrom, LookAt, Level0;
    match LookAt(d, e, mem, table, vaddr / 0x20_0000 % 512)
    case Pointer(next) => Level0Meaning(d, e, mem, next, vaddr);
    case _ =>
  }

  // The walk is the one of the standard.
  lemma WalkMeaning(d: Dram, e: Entries, mem: Mem, root: nat, vaddr: nat)
    requires |e.cfg| == |e.addr| == PMP_N && vaddr < 0x1_0000_0000_0000_0000
    ensures WalkTable(d, e, mem, root, vaddr / 4096) == Sv39(d, e, mem, root, vaddr)
  {
    IndexParts(vaddr);
    LookStep(d, e, mem, vaddr / 4096, root, 2);
    hide WalkFrom, LookAt, Level1, Canonical;
    match LookAt(d, e, mem, root, vaddr / 0x4000_0000 % 512)
    case Pointer(table) => Level1Meaning(d, e, mem, table, vaddr);
    case _ =>
  }

  // The bytes a leaf at each level maps.
  function Reach(lv: nat): nat {
    match lv
    case 0 => 0x1000
    case 1 => 0x20_0000
    case _ => 0x4000_0000
  }

  lemma ComposeMeaning(pte: Pte, lv: nat, vaddr: nat)
    requires lv <= 2 && pte.ppn % Span(lv) == 0
    ensures 4096 * Compose(pte, lv, vaddr / 4096) + vaddr % 4096 == 4096 * pte.ppn + vaddr % Reach(lv)
  {
  }

  // What the standard forbids of a leaf: S-mode may not fetch from user pages, and may use their data only under SUM;
  // U-mode may use no others; and each kind of access needs its bit, though MXR lets loads read executable pages.
  predicate Forbidden(ctl: Ctl, pte: Pte, acc: Access) {
    var eff := if ctl.mprv && !acc.Fetch? then ctl.mpp else ctl.priv;
    || (eff.Supervisor? && pte.u && (acc.Fetch? || !ctl.sum))
    || (eff.User? && !pte.u)
    || (acc.Fetch? && !pte.x)
    || (acc.Store? && !pte.w)
    || (acc.Load? && !pte.r && !(ctl.mxr && pte.x))
  }

  // What an access may give, case by case. Untranslated, only PMP stands in its way.
  ghost predicate Architected(d: Dram, e: Entries, mem: Mem, ctl: Ctl, vaddr: nat, acc: Access, size: nat, o: Out, mem': Mem)
    requires |e.cfg| == |e.addr| == PMP_N
  {
    var eff := if ctl.mprv && !acc.Fetch? then ctl.mpp else ctl.priv;
    if eff.Machine? || !ctl.sv39 then
      mem' == mem && o == if Allowed(e, 0, vaddr, size, acc, eff.Machine?) then Ok(vaddr) else Fault(AccessFaultOf(acc))
    else
      match Sv39(d, e, mem, ctl.root, vaddr)
      case AccessFault => mem' == mem && o == Fault(AccessFaultOf(acc))
      case PageFault => mem' == mem && o == Fault(PageFaultOf(acc))
      case Leaf(pte, at, lv) => LeafGives(e, mem, ctl, acc, size, pte, at, 4096 * pte.ppn + vaddr % Reach(lv), o, mem')
  }

  // With a leaf found: a page fault if the standard forbids the access; else A is set, and D by a store, if PMP lets
  // the entry be written; and then PMP has its say on the access itself.
  ghost predicate LeafGives(e: Entries, mem: Mem, ctl: Ctl, acc: Access, size: nat, pte: Pte, at: int, pa: nat,
                            o: Out, mem': Mem)
    requires |e.cfg| == |e.addr| == PMP_N
  {
    var marked := pte.a && (acc.Store? ==> pte.d);
    if Forbidden(ctl, pte, acc) then mem' == mem && o == Fault(PageFaultOf(acc))
    else if !marked && !Allowed(e, 0, at, 8, Store, false) then mem' == mem && o == Fault(AccessFaultOf(acc))
    else
      && mem' == (if marked then mem else mem[at := pte.(a := true, d := pte.d || acc.Store?)])
      && o == if Allowed(e, 0, pa, size, acc, false) then Ok(pa) else Fault(AccessFaultOf(acc))
  }

  lemma PermMeaning(ctl: Ctl, pte: Pte, acc: Access)
    ensures PermOk(ctl, pte, acc) <==> !Forbidden(ctl, pte, acc)
    ensures SetAD(pte, acc) == pte <==> pte.a && (acc.Store? ==> pte.d)
    ensures SetAD(pte, acc) == pte.(a := true, d := pte.d || acc.Store?)
  {
  }

  lemma LeafMeaning(d: Dram, e: Entries, mem: Mem, ctl: Ctl, vaddr: nat, acc: Access, size: nat, pte: Pte, at: int, lv: nat,
                    pa: nat)
    requires |e.cfg| == |e.addr| == PMP_N && !Bare(ctl, acc)
    requires WalkTable(d, e, mem, ctl.root, vaddr / 4096) == Leaf(pte, at, lv)
    requires pa == 4096 * Compose(pte, lv, vaddr / 4096) + vaddr % 4096
    ensures var r := Fresh(d, e, mem, ctl, vaddr, acc, size); LeafGives(e, mem, ctl, acc, size, pte, at, pa, r.0, r.1)
  {
    PermMeaning(ctl, pte, acc);
    hide Allowed, WalkTable, PermOk, Forbidden, SetAD, Compose;
  }

  lemma FaultMeaning(d: Dram, e: Entries, mem: Mem, ctl: Ctl, vaddr: nat, acc: Access, size: nat)
    requires |e.cfg| == |e.addr| == PMP_N
    ensures Bare(ctl, acc) ==>
      Fresh(d, e, mem, ctl, vaddr, acc, size)
      == (if Allowed(e, 0, vaddr, size, acc, EffPriv(ctl, acc).Machine?) then Ok(vaddr) else Fault(AccessFaultOf(acc)), mem)
    ensures !Bare(ctl, acc) && WalkTable(d, e, mem, ctl.root, vaddr / 4096).AccessFault? ==>
      Fresh(d, e, mem, ctl, vaddr, acc, size) == (Fault(AccessFaultOf(acc)), mem)
    ensures !Bare(ctl, acc) && WalkTable(d, e, mem, ctl.root, vaddr / 4096).PageFault? ==>
      Fresh(d, e, mem, ctl, vaddr, acc, size) == (Fault(PageFaultOf(acc)), mem)
  {
    hide Allowed, WalkTable, PermOk, SetAD, Compose;
  }

  lemma LeafFound(d: Dram, e: Entries, mem: Mem, ctl: Ctl, vaddr: nat, acc: Access, size: nat, pte: Pte, at: int, lv: nat)
    requires |e.cfg| == |e.addr| == PMP_N && !Bare(ctl, acc) && lv <= 2 && pte.ppn % Span(lv) == 0
    requires WalkTable(d, e, mem, ctl.root, vaddr / 4096) == Leaf(pte, at, lv)
    ensures var r := Fresh(d, e, mem, ctl, vaddr, acc, size);
      LeafGives(e, mem, ctl, acc, size, pte, at, 4096 * pte.ppn + vaddr % Reach(lv), r.0, r.1)
  {
    ComposeMeaning(pte, lv, vaddr);
    hide Fresh, WalkTable, LeafGives, Reach, Compose, Span, Bare;
    LeafMeaning(d, e, mem, ctl, vaddr, acc, size, pte, at, lv, 4096 * pte.ppn + vaddr % Reach(lv));
  }

  // The reference translation is the standard's.
  lemma FreshMeaning(d: Dram, e: Entries, mem: Mem, ctl: Ctl, vaddr: nat, acc: Access, size: nat)
    requires |e.cfg| == |e.addr| == PMP_N && vaddr < 0x1_0000_0000_0000_0000
    ensures var r := Fresh(d, e, mem, ctl, vaddr, acc, size); Architected(d, e, mem, ctl, vaddr, acc, size, r.0, r.1)
  {
    WalkMeaning(d, e, mem, ctl.root, vaddr);
    LeafAligned(d, e, mem, ctl.root, vaddr);
    FaultMeaning(d, e, mem, ctl, vaddr, acc, size);
    hide Fresh, Allowed, WalkTable, Sv39, LeafGives, Reach, Compose, Span;
    match Sv39(d, e, mem, ctl.root, vaddr)
    case Leaf(pte, at, lv) =>
      if !Bare(ctl, acc) {
        LeafFound(d, e, mem, ctl, vaddr, acc, size, pte, at, lv);
      }
    case _ =>
  }

  lemma LeafAligned(d: Dram, e: Entries, mem: Mem, root: nat, vaddr: nat)
    requires |e.cfg| == |e.addr| == PMP_N
    ensures var w := Sv39(d, e, mem, root, vaddr); w.Leaf? ==> w.level <= 2 && w.pte.ppn % Span(w.level) == 0
  {
    hide LookAt;
  }

  // So is the access through the TLBs, whatever they hold.
  lemma CachedMeaning(d: Dram, e: Entries, mem: Mem, ctl: Ctl, t: Tlbs, vaddr: nat, acc: Access, size: nat, refused: set<nat>)
    requires Sound(d, e, mem, ctl, t) && size > 0 && vaddr % 4096 + size <= 4096 && vaddr < 0x1_0000_0000_0000_0000
    ensures var r := Cached(d, e, mem, ctl, t, vaddr, acc, size, refused);
      Architected(d, e, mem, ctl, vaddr, acc, size, r.0, r.1)
  {
    CachedAgrees(d, e, mem, ctl, t, vaddr, acc, size, refused);
    FreshMeaning(d, e, mem, ctl, vaddr, acc, size);
    hide Cached, Fresh, Sound, Architected;
  }

  // What the walk of an access finds is a leaf the standard lets it use, with its A and D bits set.
  lemma LeafAccessMeaning(d: Dram, e: Entries, mem: Mem, ctl: Ctl, vpn: nat, acc: Access)
    requires |e.cfg| == |e.addr| == PMP_N && 4096 * vpn < 0x1_0000_0000_0000_0000
    ensures Finds(d, e, mem, ctl, vpn, acc, LeafAccess(d, e, mem, ctl, vpn, acc).0, LeafAccess(d, e, mem, ctl, vpn, acc).1)
  {
    WalkMeaning(d, e, mem, ctl.root, 4096 * vpn);
    assert 4096 * vpn / 4096 == vpn;
    hide Allowed, WalkTable, Sv39, PermOk, Forbidden, SetAD;
    match Sv39(d, e, mem, ctl.root, 4096 * vpn)
    case Leaf(pte, at, lv) => PermMeaning(ctl, pte, acc);
    case _ =>
  }

  ghost predicate Finds(d: Dram, e: Entries, mem: Mem, ctl: Ctl, vpn: nat, acc: Access, f: Found, mem': Mem)
    requires |e.cfg| == |e.addr| == PMP_N
  {
    match Sv39(d, e, mem, ctl.root, 4096 * vpn)
    case AccessFault => mem' == mem && f == Missing(AccessFaultOf(acc))
    case PageFault => mem' == mem && f == Missing(PageFaultOf(acc))
    case Leaf(pte, at, lv) =>
      var pte' := pte.(a := true, d := pte.d || acc.Store?);
      if Forbidden(ctl, pte, acc) then mem' == mem && f == Missing(PageFaultOf(acc))
      else if pte' != pte && !Allowed(e, 0, at, 8, Store, false) then mem' == mem && f == Missing(AccessFaultOf(acc))
      else f == Found(pte', lv) && mem' == if pte' == pte then mem else mem[at := pte']
  }

  // ---------- Instruction fetches ----------

  const TOP64: nat := 0x1_0000_0000_0000_0000

  // DRAM is whole pages.
  predicate WholePages(d: Dram) {
    d.base % 4096 == 0 && d.size % 4096 == 0
  }

  predicate Executable(d: Dram, pa: int) {
    pa >= 0 && (InDram(d, pa, 1) || pa / 4096 == ROM_PAGE)
  }

  // The physical addresses of an instruction's halfwords, or the fault of one of them.
  datatype Fetched = Insn(halves: seq<int>) | FetchFault(cause: Cause, at: nat)

  function NextHalf(vaddr: nat): nat {
    (vaddr + 2) % TOP64
  }

  // The reference: each halfword walked and checked on its own, in memory that can be fetched from.
  ghost function FreshHalf(d: Dram, e: Entries, mem: Mem, ctl: Ctl, vaddr: nat): (Out, Mem)
    requires |e.cfg| == |e.addr| == PMP_N
  {
    var (o, mem') := Fresh(d, e, mem, ctl, vaddr, Fetch, 2);
    (if o.Ok? && !Executable(d, o.pa) then Fault(AccessFaultOf(Fetch)) else o, mem')
  }

  ghost function FreshInsn(d: Dram, e: Entries, mem: Mem, ctl: Ctl, vaddr: nat, wide: bool): (Fetched, Mem)
    requires |e.cfg| == |e.addr| == PMP_N
  {
    var (o1, mem1) := FreshHalf(d, e, mem, ctl, vaddr);
    if o1.Fault? then (FetchFault(o1.cause, vaddr), mem1)
    else if !wide then (Insn([o1.pa]), mem1)
    else
      var (o2, mem2) := FreshHalf(d, e, mem1, ctl, NextHalf(vaddr));
      if o2.Fault? then (FetchFault(o2.cause, NextHalf(vaddr)), mem2) else (Insn([o1.pa, o2.pa]), mem2)
  }

  // A halfword is fetched where the standard translates its address to, from DRAM or the reset ROM at 0x1000 only.
  lemma HalfMeaning(d: Dram, e: Entries, mem: Mem, ctl: Ctl, vaddr: nat) returns (o: Out)
    requires |e.cfg| == |e.addr| == PMP_N && vaddr < TOP64
    ensures var r := FreshHalf(d, e, mem, ctl, vaddr);
      && Architected(d, e, mem, ctl, vaddr, Fetch, 2, o, r.1)
      && r.0 == if o.Ok? && !(d.base <= o.pa < d.base + d.size && o.pa >= 0) && !(0x1000 <= o.pa < 0x2000)
                then Fault(AccessFaultOf(Fetch)) else o
  {
    o := Fresh(d, e, mem, ctl, vaddr, Fetch, 2).0;
    FreshMeaning(d, e, mem, ctl, vaddr, Fetch, 2);
    hide Fresh, Architected;
  }

  // translate_host_cached: the fill, and whether the entry serves one instruction only, as it does when PMP does not
  // allow fetches from the whole page.
  ghost function FillFetch(d: Dram, e: Entries, mem: Mem, ctl: Ctl, t: Tlbs, vaddr: nat): (r: (Out, Mem, Tlbs, bool))
    requires |e.cfg| == |e.addr| == PMP_N && TlbsOk(t)
    ensures TlbsOk(r.2)
  {
    var (o, mem', t') := Translate(d, e, mem, ctl, t, vaddr, Fetch, 2, {});
    if o.Fault? then (o, mem', t', false)
    else if !Executable(d, o.pa) then (Fault(AccessFaultOf(Fetch)), mem', t'.(itlb := Empty), false)
    else (o, mem', t'.(itlb := L1(vaddr / 4096, o.pa / 4096)), !Allowed(e, 0, o.pa - o.pa % 4096, 4096, Fetch, ctl.priv.Machine?))
  }

  // The end of the instruction: an entry for one instruction goes.
  function Settled(t: Tlbs, once: bool): Tlbs {
    if once then t.(itlb := Empty) else t
  }

  // The first halfword: the ITLB entry, or a fill.
  ghost function FirstHalf(d: Dram, e: Entries, mem: Mem, ctl: Ctl, t: Tlbs, vaddr: nat): (r: (Out, Mem, Tlbs, bool))
    requires |e.cfg| == |e.addr| == PMP_N && TlbsOk(t)
    ensures TlbsOk(r.2)
  {
    if t.itlb.L1? && t.itlb.vpn == vaddr / 4096 then (Ok(4096 * t.itlb.page + vaddr % 4096), mem, t, false)
    else FillFetch(d, e, mem, ctl, t, vaddr)
  }

  // The second, after a first at pa: in the same page, or a fill of the next one.
  ghost function RestOf(d: Dram, e: Entries, mem: Mem, ctl: Ctl, t: Tlbs, vaddr: nat, pa: int, once: bool): (Fetched, Mem, Tlbs)
    requires |e.cfg| == |e.addr| == PMP_N && TlbsOk(t)
  {
    if vaddr % 4096 != 4094 then
      (if once && !Allowed(e, 0, pa + 2, 2, Fetch, ctl.priv.Machine?) then FetchFault(AccessFaultOf(Fetch), NextHalf(vaddr))
       else Insn([pa, pa + 2]), mem, Settled(t, once))
    else
      var (o, mem', t', once') := FillFetch(d, e, mem, ctl, t, NextHalf(vaddr));
      if o.Fault? then (FetchFault(o.cause, NextHalf(vaddr)), mem', Settled(t', once))
      else (Insn([pa, o.pa]), mem', Settled(t', once || once'))
  }

  // The fetch of an instruction, four bytes long if wide, as rv64_sys_run makes it.
  ghost function CachedInsn(d: Dram, e: Entries, mem: Mem, ctl: Ctl, t: Tlbs, vaddr: nat, wide: bool): (Fetched, Mem, Tlbs)
    requires |e.cfg| == |e.addr| == PMP_N && TlbsOk(t)
  {
    var (o, mem1, t1, once) := FirstHalf(d, e, mem, ctl, t, vaddr);
    if o.Fault? then (FetchFault(o.cause, vaddr), mem1, t1)
    else if !wide then (Insn([o.pa]), mem1, Settled(t1, once))
    else RestOf(d, e, mem1, ctl, t1, vaddr, o.pa, once)
  }

  // After a fetch that succeeds the page has its A bit set, and a fetch from it walks to the same page again.
  lemma FetchedMaps(d: Dram, e: Entries, mem: Mem, ctl: Ctl, vaddr: nat, pa: int, mem': Mem)
    requires |e.cfg| == |e.addr| == PMP_N && Fresh(d, e, mem, ctl, vaddr, Fetch, 2) == (Ok(pa), mem')
    ensures pa >= 0 && pa % 4096 == vaddr % 4096
    ensures if Bare(ctl, Fetch) then pa == vaddr && mem' == mem else Maps(d, e, mem', ctl, vaddr / 4096, Fetch, pa / 4096)
  {
    hide Allowed, WalkTable, Compose, PermOk, SetAD;
    if !Bare(ctl, Fetch) {
      var w := WalkTable(d, e, mem, ctl.root, vaddr / 4096);
      WalkAgain(d, e, mem, ctl, vaddr / 4096, Fetch, w, mem');
      SetADKeeps(ctl, w.pte, Fetch, w.level, vaddr / 4096);
    }
  }

  lemma SetADKeeps(ctl: Ctl, pte: Pte, acc: Access, lv: nat, vpn: nat)
    ensures var p := SetAD(pte, acc);
      PermOk(ctl, p, acc) == PermOk(ctl, pte, acc) && Compose(p, lv, vpn) == Compose(pte, lv, vpn) && SetAD(p, acc) == p
  {
  }

  lemma ExecutablePage(d: Dram, pa: nat)
    requires WholePages(d) && Executable(d, pa)
    ensures PageExecutable(d, pa / 4096) && (pa % 4096 < 4094 ==> Executable(d, pa + 2))
  {
    assert pa == 4096 * (pa / 4096) + pa % 4096;
  }

  // The other halfword of a page that a fetch maps.
  lemma OtherHalf(d: Dram, e: Entries, mem: Mem, ctl: Ctl, vaddr: nat, pa: nat)
    requires |e.cfg| == |e.addr| == PMP_N && WholePages(d) && Executable(d, pa) && pa % 4096 == vaddr % 4096 < 4094
    requires vaddr + 2 < TOP64
    requires if Bare(ctl, Fetch) then pa == vaddr else Maps(d, e, mem, ctl, vaddr / 4096, Fetch, pa / 4096)
    ensures FreshHalf(d, e, mem, ctl, NextHalf(vaddr))
         == (if Allowed(e, 0, pa + 2, 2, Fetch, ctl.priv.Machine?) then Ok(pa + 2) else Fault(AccessFaultOf(Fetch)), mem)
  {
    hide Allowed, Maps, Fresh, Executable;
    ExecutablePage(d, pa);
    assert (vaddr + 2) / 4096 == vaddr / 4096 && (vaddr + 2) % 4096 == vaddr % 4096 + 2;
    assert pa == 4096 * (pa / 4096) + pa % 4096;
    if Bare(ctl, Fetch) {
      BareFetch(d, e, mem, ctl, vaddr + 2);
    } else {
      MappedFetch(d, e, mem, ctl, vaddr + 2, pa / 4096);
    }
  }

  lemma BareFetch(d: Dram, e: Entries, mem: Mem, ctl: Ctl, vaddr: nat)
    requires |e.cfg| == |e.addr| == PMP_N && Bare(ctl, Fetch)
    ensures Fresh(d, e, mem, ctl, vaddr, Fetch, 2)
         == (if Allowed(e, 0, vaddr, 2, Fetch, ctl.priv.Machine?) then Ok(vaddr) else Fault(AccessFaultOf(Fetch)), mem)
  {
    hide Allowed;
  }

  lemma MappedFetch(d: Dram, e: Entries, mem: Mem, ctl: Ctl, vaddr: nat, page: nat)
    requires |e.cfg| == |e.addr| == PMP_N && !Bare(ctl, Fetch) && Maps(d, e, mem, ctl, vaddr / 4096, Fetch, page)
    ensures var pa := 4096 * page + vaddr % 4096;
      Fresh(d, e, mem, ctl, vaddr, Fetch, 2)
      == (if Allowed(e, 0, pa, 2, Fetch, ctl.priv.Machine?) then Ok(pa) else Fault(AccessFaultOf(Fetch)), mem)
  {
    hide Allowed, WalkTable, PermOk, Compose;
  }

  // A fill gives what the reference gives for the halfword. Its entry is good for every fetch from the page, or it is
  // for this instruction only.
  lemma FillAgrees(d: Dram, e: Entries, mem: Mem, ctl: Ctl, t: Tlbs, vaddr: nat)
    requires Sound(d, e, mem, ctl, t) && WholePages(d) && vaddr % 2 == 0
    requires t.itlb.L1? ==> t.itlb.vpn != vaddr / 4096
    ensures var (o, mem', t', once) := FillFetch(d, e, mem, ctl, t, vaddr);
      && (o, mem') == FreshHalf(d, e, mem, ctl, vaddr)
      && TlbsOk(t') && Sound(d, e, mem', ctl, Settled(t', once))
      && (o.Ok? ==> FetchedFrom(d, e, mem', ctl, vaddr, o.pa) && t'.itlb == L1(vaddr / 4096, o.pa / 4096)
                    && (once <==> !Allowed(e, 0, o.pa - o.pa % 4096, 4096, Fetch, ctl.priv.Machine?)))
      && (o.Fault? ==> !once)
  {
    hide Translate, Fresh, Maps, Executable, PageExecutable, Allowed, Sound, Bare;
    SoundParts(d, e, mem, ctl, t);
    var (o, mem', t') := Translate(d, e, mem, ctl, t, vaddr, Fetch, 2, {});
    CachedAgrees(d, e, mem, ctl, t, vaddr, Fetch, 2, {});
    SoundParts(d, e, mem', ctl, t');
    assert Fresh(d, e, mem, ctl, vaddr, Fetch, 2) == (o, mem');
    if o.Ok? {
      FetchedMaps(d, e, mem, ctl, vaddr, o.pa, mem');
      FillSound(d, e, mem', ctl, t', Fetch, vaddr / 4096, Empty);
      if Executable(d, o.pa) {
        ExecutablePage(d, o.pa);
        var l1 := L1(vaddr / 4096, o.pa / 4096);
        if Allowed(e, 0, o.pa - o.pa % 4096, 4096, Fetch, ctl.priv.Machine?) {
          EntryOk(d, e, mem', ctl, vaddr, o.pa);
          FillSound(d, e, mem', ctl, t', Fetch, vaddr / 4096, l1);
        }
      }
    }
  }

  // pa is where a fetch from vaddr goes, with no A bit left to set.
  ghost predicate FetchedFrom(d: Dram, e: Entries, mem: Mem, ctl: Ctl, vaddr: nat, pa: int)
    requires |e.cfg| == |e.addr| == PMP_N
  {
    && pa >= 0 && pa % 4096 == vaddr % 4096 && Executable(d, pa)
    && if Bare(ctl, Fetch) then pa == vaddr else Maps(d, e, mem, ctl, vaddr / 4096, Fetch, pa / 4096)
  }

  lemma EntryOk(d: Dram, e: Entries, mem: Mem, ctl: Ctl, vaddr: nat, pa: nat)
    requires |e.cfg| == |e.addr| == PMP_N && FetchedFrom(d, e, mem, ctl, vaddr, pa)
    requires Allowed(e, 0, pa - pa % 4096, 4096, Fetch, ctl.priv.Machine?)
    ensures L1Ok(d, e, mem, ctl, Fetch, L1(vaddr / 4096, pa / 4096))
  {
    assert pa - pa % 4096 == 4096 * (pa / 4096);
    hide Allowed, WalkTable;
  }

  // An ITLB hit.
  lemma HitFetches(d: Dram, e: Entries, mem: Mem, ctl: Ctl, t: Tlbs, vaddr: nat)
    requires Sound(d, e, mem, ctl, t) && vaddr % 2 == 0 && t.itlb.L1? && t.itlb.vpn == vaddr / 4096
    ensures var pa := 4096 * t.itlb.page + vaddr % 4096;
      && FreshHalf(d, e, mem, ctl, vaddr) == (Ok(pa), mem) && FetchedFrom(d, e, mem, ctl, vaddr, pa)
      && Allowed(e, 0, pa - pa % 4096, 4096, Fetch, ctl.priv.Machine?)
  {
    L1Agrees(d, e, mem, ctl, t, vaddr, Fetch, 2);
    assert L1Ok(d, e, mem, ctl, Fetch, t.itlb);
    var pa := 4096 * t.itlb.page + vaddr % 4096;
    assert pa / 4096 == t.itlb.page && pa % 4096 == vaddr % 4096;
    hide Allowed, WalkTable;
  }

  // Every instruction fetch gives what walking and checking each halfword gives, with the same A bits set, and keeps
  // the TLBs sound.
  lemma FetchAgrees(d: Dram, e: Entries, mem: Mem, ctl: Ctl, t: Tlbs, vaddr: nat, wide: bool)
    requires Sound(d, e, mem, ctl, t) && WholePages(d) && vaddr % 2 == 0 && vaddr < TOP64
    ensures var r := CachedInsn(d, e, mem, ctl, t, vaddr, wide);
      && (r.0, r.1) == FreshInsn(d, e, mem, ctl, vaddr, wide)
      && Sound(d, e, r.1, ctl, r.2)
  {
    hide Sound, FillFetch, FreshHalf, Allowed, FetchedFrom;
    SoundParts(d, e, mem, ctl, t);
    var (o, mem1, t1, once) := FirstHalf(d, e, mem, ctl, t, vaddr);
    if t.itlb.L1? && t.itlb.vpn == vaddr / 4096 {
      HitFetches(d, e, mem, ctl, t, vaddr);
    } else {
      FillAgrees(d, e, mem, ctl, t, vaddr);
    }
    if o.Ok? && wide {
      if vaddr % 4096 != 4094 {
        SecondHalf(d, e, mem1, ctl, vaddr, o.pa, once);
        EmptySound(d, e, mem1, ctl, t1, once);
      } else {
        SecondPage(d, e, mem1, ctl, t1, vaddr, once);
      }
    }
  }

  lemma SoundParts(d: Dram, e: Entries, mem: Mem, ctl: Ctl, t: Tlbs)
    requires Sound(d, e, mem, ctl, t)
    ensures EntriesOk(e) && TlbsOk(t)
  {
  }

  lemma EvenOffset(d: Dram, e: Entries, mem: Mem, ctl: Ctl, vaddr: nat, pa: int)
    requires |e.cfg| == |e.addr| == PMP_N && FetchedFrom(d, e, mem, ctl, vaddr, pa)
    requires vaddr % 2 == 0 && vaddr < TOP64 && vaddr % 4096 != 4094
    ensures pa >= 0 && pa % 4096 == vaddr % 4096 < 4094 && pa + 4 <= pa - pa % 4096 + 4096 && vaddr + 2 < TOP64
    ensures Executable(d, pa) && if Bare(ctl, Fetch) then pa == vaddr else Maps(d, e, mem, ctl, vaddr / 4096, Fetch, pa / 4096)
  {
    hide Executable, Maps, Bare;
    OddHalf(vaddr);
  }

  lemma OddHalf(vaddr: nat)
    requires vaddr % 2 == 0 && vaddr % 4096 != 4094
    ensures vaddr % 4096 <= 4092 && (vaddr < TOP64 ==> vaddr + 2 < TOP64)
  {
    assert vaddr % 4096 % 2 == 0;
  }

  // What an entry for one instruction checks of the second halfword, and an entry for the page need not.
  lemma SecondHalf(d: Dram, e: Entries, mem: Mem, ctl: Ctl, vaddr: nat, pa: int, once: bool)
    requires |e.cfg| == |e.addr| == PMP_N && WholePages(d) && vaddr % 2 == 0 && vaddr < TOP64 && vaddr % 4096 != 4094
    requires FetchedFrom(d, e, mem, ctl, vaddr, pa)
    requires once <==> !Allowed(e, 0, pa - pa % 4096, 4096, Fetch, ctl.priv.Machine?)
    ensures FreshHalf(d, e, mem, ctl, NextHalf(vaddr))
         == (if once && !Allowed(e, 0, pa + 2, 2, Fetch, ctl.priv.Machine?) then Fault(AccessFaultOf(Fetch)) else Ok(pa + 2), mem)
  {
    hide FreshHalf, Allowed, FetchedFrom;
    EvenOffset(d, e, mem, ctl, vaddr, pa);
    OtherHalf(d, e, mem, ctl, vaddr, pa);
    if !once {
      WithinAllowed(e, 0, pa - pa % 4096, pa + 2, 2, Fetch, ctl.priv.Machine?);
    }
  }

  lemma EmptySound(d: Dram, e: Entries, mem: Mem, ctl: Ctl, t: Tlbs, once: bool)
    requires TlbsOk(t) && Sound(d, e, mem, ctl, Settled(t, once))
    ensures Sound(d, e, mem, ctl, t.(itlb := Empty))
  {
  }

  // An instruction that crosses into the next page is filled anew, in the only ITLB entry.
  lemma SecondPage(d: Dram, e: Entries, mem: Mem, ctl: Ctl, t: Tlbs, vaddr: nat, once: bool)
    requires TlbsOk(t) && EntriesOk(e) && Sound(d, e, mem, ctl, Settled(t, once)) && WholePages(d)
    requires vaddr % 4096 == 4094 && vaddr < TOP64 && t.itlb.L1? && t.itlb.vpn == vaddr / 4096
    ensures var (o, mem', t', once') := FillFetch(d, e, mem, ctl, t, NextHalf(vaddr));
      && (o, mem') == FreshHalf(d, e, mem, ctl, NextHalf(vaddr))
      && Sound(d, e, mem', ctl, Settled(t', if o.Ok? then once || once' else once))
  {
    hide Sound, FreshHalf, Allowed, FetchedFrom;
    var next := NextHalf(vaddr);
    assert next / 4096 != vaddr / 4096 && next % 2 == 0;
    EmptySound(d, e, mem, ctl, t, once);
    IgnoresItlb(d, e, mem, ctl, t, next);
    var t0 := if once then t.(itlb := Empty) else t;
    FillAgrees(d, e, mem, ctl, t0, next);
    var (o, mem', t', once') := FillFetch(d, e, mem, ctl, t, next);
    var (o0, mem0, t0', once0) := FillFetch(d, e, mem, ctl, t0, next);
    if once || once' {
      EmptySound(d, e, mem', ctl, t0', once');
    }
  }

  // A fill does not look at the entry it replaces.
  lemma IgnoresItlb(d: Dram, e: Entries, mem: Mem, ctl: Ctl, t: Tlbs, vaddr: nat)
    requires |e.cfg| == |e.addr| == PMP_N && TlbsOk(t)
    ensures var (o, mem', t', once) := FillFetch(d, e, mem, ctl, t, vaddr);
      var (o0, mem0, t0, once0) := FillFetch(d, e, mem, ctl, t.(itlb := Empty), vaddr);
      o == o0 && mem' == mem0 && once == once0 && t'.(itlb := Empty) == t0.(itlb := Empty)
  {
    hide Allowed, LeafAccess, Compose, PageAllow, AccessOk, Grants, Executable, PageInDram, WalkTable;
  }

  // ---------- Whole runs of one hart among others ----------

  function FlushedL1(t: Tlbs): Tlbs
    requires TlbsOk(t)
  {
    Tlbs(Empty, seq(DTLB_N, _ => Empty), seq(DTLB_N, _ => Empty), t.l2)
  }

  const NO_L2 := L2(0, NoTag, 0, Pte(false, false, false, false, false, false, false, 0, 0), NOTHING)

  function Flushed(): Tlbs {
    Tlbs(Empty, seq(DTLB_N, _ => Empty), seq(DTLB_N, _ => Empty), seq(L2TLB_N, _ => NO_L2))
  }

  datatype HartState = HartState(mem: Mem, e: Entries, ctl: Ctl, t: Tlbs)

  datatype Event =
    | Use(vaddr: nat, acc: Access, size: nat, refused: set<nat>)          // a load or store of this hart
    | FetchInsn(vaddr: nat, wide: bool)                                   // an instruction fetch of this hart
    | Other(e: Entries, ctl: Ctl, vaddr: nat, acc: Access, size: nat)     // one of another hart
    | WriteSatp(sv39: bool, root: nat, asid: nat)
    | WriteStatus(mpp: Priv, mprv: bool, sum: bool, mxr: bool)            // mstatus or sstatus
    | WritePmp(entries: Entries)
    | Trap(delegated: bool)
    | Mret
    | Sret(spp: Priv)
    | GuestStore(mem: Mem)                                                // stores that change no translation
    | Remap(mem: Mem)                                                     // stores that may, then sfence.vma

  // take_trap: M-mode traps save the privilege in mpp; the L1 TLBs are flushed only when the privilege changes.
  function Trapped(ctl: Ctl, delegated: bool): Ctl {
    if delegated && !ctl.priv.Machine? then ctl.(priv := Supervisor) else ctl.(priv := Machine, mpp := ctl.priv)
  }

  // The hart after a trap.
  function AfterTrap(m: HartState, delegated: bool): HartState
    requires TlbsOk(m.t)
  {
    var ctl := Trapped(m.ctl, delegated);
    m.(ctl := ctl, t := if ctl.priv != m.ctl.priv then FlushedL1(m.t) else m.t)
  }

  ghost function Do(d: Dram, m: HartState, ev: Event): HartState
    requires EntriesOk(m.e) && TlbsOk(m.t) && Lawful(d, m, ev)
  {
    match ev
    case Use(vaddr, acc, size, refused) =>
      var r := Cached(d, m.e, m.mem, m.ctl, m.t, vaddr, acc, size, refused);
      m.(mem := r.1, t := r.2)
    case FetchInsn(vaddr, wide) =>
      var r := CachedInsn(d, m.e, m.mem, m.ctl, m.t, vaddr, wide);
      m.(mem := r.1, t := r.2)
    case Other(e, ctl, vaddr, acc, size) => m.(mem := Fresh(d, e, m.mem, ctl, vaddr, acc, size).1)
    case WriteSatp(sv39, root, asid) => m.(ctl := m.ctl.(sv39 := sv39, root := root, asid := asid), t := Flushed())
    case WriteStatus(mpp, mprv, sum, mxr) =>
      m.(ctl := m.ctl.(mpp := mpp, mprv := mprv, sum := sum, mxr := mxr), t := FlushedL1(m.t))
    case WritePmp(entries) => m.(e := entries, t := Flushed())
    case Trap(delegated) => AfterTrap(m, delegated)
    case Mret =>
      m.(ctl := m.ctl.(priv := m.ctl.mpp, mpp := User, mprv := m.ctl.mprv && m.ctl.mpp.Machine?), t := FlushedL1(m.t))
    case Sret(spp) => m.(ctl := m.ctl.(priv := spp, mprv := m.ctl.mprv && spp.Machine?), t := FlushedL1(m.t))
    case GuestStore(mem) => m.(mem := mem)
    case Remap(mem) => m.(mem := mem, t := Flushed())
  }

  predicate Identity(l1: L1) {
    l1.L1? ==> l1.page == l1.vpn
  }

  // An M-to-M trap with MPRV set turns data accesses from translated to untranslated without a flush. It asks that the
  // data TLBs hold only pages mapped to themselves.
  predicate TrapOk(m: HartState) {
    m.ctl.priv.Machine? && m.ctl.mprv && !m.ctl.mpp.Machine? && TlbsOk(m.t) ==>
      forall i :: 0 <= i < DTLB_N ==> Identity(m.t.load[i]) && Identity(m.t.store[i])
  }

  // What the translation scheme asks of the guest: accesses do not cross pages, stores move no translation
  // without a fence, and the trap case above does not arise.
  ghost predicate Lawful(d: Dram, m: HartState, ev: Event) {
    match ev
    case Use(vaddr, acc, size, _) => EntriesOk(m.e) && !acc.Fetch? && size > 0 && vaddr % 4096 + size <= 4096
    case FetchInsn(vaddr, _) => EntriesOk(m.e) && WholePages(d) && vaddr % 2 == 0 && vaddr < TOP64
    case Other(e, _, vaddr, _, size) => EntriesOk(e) && size > 0 && vaddr % 4096 + size <= 4096
    case WritePmp(entries) => EntriesOk(entries)
    case Trap(_) => TrapOk(m)
    case GuestStore(mem) => EntriesOk(m.e) && SameWalks(d, m.e, m.mem, mem, m.ctl.root)
    case _ => true
  }

  ghost predicate SameWalks(d: Dram, e: Entries, mem: Mem, mem': Mem, root: nat)
    requires |e.cfg| == |e.addr| == PMP_N
  {
    forall vpn {:trigger WalkTable(d, e, mem', root, vpn)} :: WalkTable(d, e, mem', root, vpn) == WalkTable(d, e, mem, root, vpn)
  }

  ghost predicate SoundHart(d: Dram, m: HartState) {
    Sound(d, m.e, m.mem, m.ctl, m.t)
  }

  lemma FlushL1Sound(d: Dram, e: Entries, mem: Mem, ctl: Ctl, ctl': Ctl, t: Tlbs)
    requires Sound(d, e, mem, ctl, t) && ctl'.root == ctl.root && ctl'.asid == ctl.asid
    ensures Sound(d, e, mem, ctl', FlushedL1(t))
  {
    forall i | 0 <= i < L2TLB_N ensures L2Ok(d, e, mem, ctl', t.l2[i]) {
      assert L2Ok(d, e, mem, ctl, t.l2[i]);
    }
  }

  lemma SameWalksSound(d: Dram, e: Entries, mem: Mem, mem': Mem, ctl: Ctl, t: Tlbs)
    requires Sound(d, e, mem, ctl, t) && SameWalks(d, e, mem, mem', ctl.root)
    ensures Sound(d, e, mem', ctl, t)
  {
    forall i | 0 <= i < DTLB_N ensures L1Ok(d, e, mem', ctl, Load, t.load[i]) && L1Ok(d, e, mem', ctl, Store, t.store[i]) {
      assert L1Ok(d, e, mem, ctl, Load, t.load[i]) && L1Ok(d, e, mem, ctl, Store, t.store[i]);
    }
    forall i | 0 <= i < L2TLB_N ensures L2Ok(d, e, mem', ctl, t.l2[i]) {
      assert L2Ok(d, e, mem, ctl, t.l2[i]);
    }
  }

  // Another hart's access changes memory only by setting A and D bits of leaves.
  lemma OtherSound(d: Dram, m: HartState, e: Entries, ctl: Ctl, vaddr: nat, acc: Access, size: nat)
    requires SoundHart(d, m) && |e.cfg| == |e.addr| == PMP_N
    ensures Sound(d, m.e, Fresh(d, e, m.mem, ctl, vaddr, acc, size).1, m.ctl, m.t)
  {
    var mem' := Fresh(d, e, m.mem, ctl, vaddr, acc, size).1;
    if mem' != m.mem {
      LeafInMemory(d, e, m.mem, vaddr / 4096, ctl.root, 2);
      SoundStable(d, m.e, m.mem, mem', WalkTable(d, e, m.mem, ctl.root, vaddr / 4096).addr, acc, m.ctl, m.t);
    }
  }

  // Every access inside a page gives what a fresh walk and PMP check give.
  ghost predicate Agrees(d: Dram, m: HartState)
    requires |m.e.cfg| == |m.e.addr| == PMP_N && TlbsOk(m.t)
  {
    forall vaddr: nat, acc, size: nat, refused | size > 0 && vaddr % 4096 + size <= 4096 ::
      AgreesAt(d, m, vaddr, acc, size, refused)
  }

  ghost predicate AgreesAt(d: Dram, m: HartState, vaddr: nat, acc: Access, size: nat, refused: set<nat>)
    requires |m.e.cfg| == |m.e.addr| == PMP_N && TlbsOk(m.t)
  {
    var c := Cached(d, m.e, m.mem, m.ctl, m.t, vaddr, acc, size, refused);
    (c.0, c.1) == Fresh(d, m.e, m.mem, m.ctl, vaddr, acc, size)
  }

  lemma SoundAgrees(d: Dram, m: HartState)
    requires SoundHart(d, m)
    ensures Agrees(d, m)
  {
    forall vaddr: nat, acc, size: nat, refused | size > 0 && vaddr % 4096 + size <= 4096
      ensures AgreesAt(d, m, vaddr, acc, size, refused)
    {
      CachedAgrees(d, m.e, m.mem, m.ctl, m.t, vaddr, acc, size, refused);
    }
  }

  // What S- or U-mode may do to a page, M-mode may.
  lemma {:induction false} MachineMay(e: Entries, i: nat, pa: int, len: int, acc: Access)
    requires |e.cfg| == |e.addr| == PMP_N && i <= PMP_N && Allowed(e, i, pa, len, acc, false)
    ensures Allowed(e, i, pa, len, acc, true)
    decreases PMP_N - i
  {
    if i < PMP_N && !MatchesAny(RangeOf(e, i), pa, len) {
      MachineMay(e, i + 1, pa, len, acc);
    }
  }

  // An identity-mapped data page is as good untranslated.
  lemma IdentityStays(d: Dram, e: Entries, mem: Mem, ctl: Ctl, ctl': Ctl, acc: Access, l1: L1)
    requires |e.cfg| == |e.addr| == PMP_N && L1Ok(d, e, mem, ctl, acc, l1) && Identity(l1) && !acc.Fetch?
    requires EffPriv(ctl', acc).Machine?
    ensures L1Ok(d, e, mem, ctl', acc, l1)
  {
    if l1.L1? {
      if !Bare(ctl, acc) || !EffPriv(ctl, acc).Machine? {
        MachineMay(e, 0, 4096 * l1.page, 4096, acc);
      }
    }
  }

  lemma TrapSound(d: Dram, m: HartState, delegated: bool)
    requires SoundHart(d, m) && TrapOk(m)
    ensures SoundHart(d, AfterTrap(m, delegated))
  {
    var ctl := Trapped(m.ctl, delegated);
    if ctl.priv != m.ctl.priv {
      FlushL1Sound(d, m.e, m.mem, m.ctl, ctl, m.t);
    } else {
      forall i | 0 <= i < L2TLB_N ensures L2Ok(d, m.e, m.mem, ctl, m.t.l2[i]) {
        assert L2Ok(d, m.e, m.mem, m.ctl, m.t.l2[i]);
      }
      forall i | 0 <= i < DTLB_N
        ensures L1Ok(d, m.e, m.mem, ctl, Load, m.t.load[i]) && L1Ok(d, m.e, m.mem, ctl, Store, m.t.store[i])
      {
        assert L1Ok(d, m.e, m.mem, m.ctl, Load, m.t.load[i]) && L1Ok(d, m.e, m.mem, m.ctl, Store, m.t.store[i]);
        if m.ctl.mprv && m.ctl.priv.Machine? && !m.ctl.mpp.Machine? {
          IdentityStays(d, m.e, m.mem, m.ctl, ctl, Load, m.t.load[i]);
          IdentityStays(d, m.e, m.mem, m.ctl, ctl, Store, m.t.store[i]);
        }
      }
    }
  }

  // A stale data entry answers with a page that an untranslated access does not go to.
  lemma StaleDiffers(d: Dram, m: HartState, acc: Access, i: nat)
    requires EntriesOk(m.e) && TlbsOk(m.t) && i < DTLB_N && !acc.Fetch? && Bare(m.ctl, acc)
    requires var l1 := if acc.Load? then m.t.load[i] else m.t.store[i]; Slotted(l1, i) && !Identity(l1)
    ensures var l1 := if acc.Load? then m.t.load[i] else m.t.store[i];
      !AgreesAt(d, m, 4096 * l1.vpn, acc, 1, {})
  {
    var l1 := if acc.Load? then m.t.load[i] else m.t.store[i];
    assert 4096 * l1.vpn / 4096 == l1.vpn && 4096 * l1.vpn % 4096 == 0;
    assert L1For(m.t, acc, l1.vpn) == l1;
  }

  // After a trap every access still gives what a fresh walk gives exactly when it is not an M-to-M trap that flips
  // the effective privilege of MPRV while a data TLB holds a page mapped elsewhere.
  lemma TrapExactly(d: Dram, m: HartState, delegated: bool)
    requires SoundHart(d, m)
    ensures Agrees(d, AfterTrap(m, delegated)) <==> TrapOk(m)
  {
    var m' := AfterTrap(m, delegated);
    if TrapOk(m) {
      TrapSound(d, m, delegated);
      SoundAgrees(d, m');
    } else {
      var i :| 0 <= i < DTLB_N && !(Identity(m.t.load[i]) && Identity(m.t.store[i]));
      var acc := if Identity(m.t.load[i]) then Store else Load;
      StaleDiffers(d, m', acc, i);
      var l1 := if acc.Load? then m.t.load[i] else m.t.store[i];
      assert !AgreesAt(d, m', 4096 * l1.vpn, acc, 1, {});
    }
  }

  lemma EventSound(d: Dram, m: HartState, ev: Event)
    requires SoundHart(d, m) && Lawful(d, m, ev)
    ensures SoundHart(d, Do(d, m, ev))
  {
    match ev
    case Use(vaddr, acc, size, refused) => CachedAgrees(d, m.e, m.mem, m.ctl, m.t, vaddr, acc, size, refused);
    case FetchInsn(vaddr, wide) => FetchAgrees(d, m.e, m.mem, m.ctl, m.t, vaddr, wide);
    case Other(e, ctl, vaddr, acc, size) => OtherSound(d, m, e, ctl, vaddr, acc, size);
    case WriteStatus(_, _, _, _) => FlushL1Sound(d, m.e, m.mem, m.ctl, Do(d, m, ev).ctl, m.t);
    case Trap(delegated) => TrapSound(d, m, delegated);
    case Mret => FlushL1Sound(d, m.e, m.mem, m.ctl, Do(d, m, ev).ctl, m.t);
    case Sret(_) => FlushL1Sound(d, m.e, m.mem, m.ctl, Do(d, m, ev).ctl, m.t);
    case GuestStore(mem) => SameWalksSound(d, m.e, m.mem, mem, m.ctl, m.t);
    case _ =>
  }

  // ---------- Runs ----------

  // A run that keeps the guest's side of the bargain at every event.
  ghost predicate LawfulRun(d: Dram, m: HartState, events: seq<Event>)
    requires SoundHart(d, m)
    decreases |events|
  {
    events == [] || (Lawful(d, m, events[0]) && (EventSound(d, m, events[0]); LawfulRun(d, Do(d, m, events[0]), events[1..])))
  }

  ghost function Run(d: Dram, m: HartState, events: seq<Event>): (r: HartState)
    requires SoundHart(d, m) && LawfulRun(d, m, events)
    ensures SoundHart(d, r)
    decreases |events|
  {
    if events == [] then m else (EventSound(d, m, events[0]); Run(d, Do(d, m, events[0]), events[1..]))
  }

  // At the end of any lawful run from reset, an access through the TLBs gives the physical address or the fault
  // of a fresh walk and PMP check, and sets the same A and D bits.
  lemma TlbAgreement(d: Dram, m: HartState, events: seq<Event>, vaddr: nat, acc: Access, size: nat, refused: set<nat>)
    requires EntriesOk(m.e) && m.t == Flushed() && LawfulRun(d, m, events)
    requires size > 0 && vaddr % 4096 + size <= 4096
    ensures var r := Run(d, m, events);
      var c := Cached(d, r.e, r.mem, r.ctl, r.t, vaddr, acc, size, refused);
      && (c.0, c.1) == Fresh(d, r.e, r.mem, r.ctl, vaddr, acc, size)
      && (vaddr < TOP64 ==> Architected(d, r.e, r.mem, r.ctl, vaddr, acc, size, c.0, c.1))
  {
    hide Fresh, Cached, Architected;
    var r := Run(d, m, events);
    CachedAgrees(d, r.e, r.mem, r.ctl, r.t, vaddr, acc, size, refused);
    if vaddr < TOP64 {
      CachedMeaning(d, r.e, r.mem, r.ctl, r.t, vaddr, acc, size, refused);
    }
  }

  // And so does an instruction fetch.
  lemma FetchAgreement(d: Dram, m: HartState, events: seq<Event>, vaddr: nat, wide: bool)
    requires EntriesOk(m.e) && m.t == Flushed() && LawfulRun(d, m, events)
    requires WholePages(d) && vaddr % 2 == 0 && vaddr < TOP64
    ensures var r := Run(d, m, events);
      var c := CachedInsn(d, r.e, r.mem, r.ctl, r.t, vaddr, wide);
      (c.0, c.1) == FreshInsn(d, r.e, r.mem, r.ctl, vaddr, wide)
  {
    var r := Run(d, m, events);
    FetchAgrees(d, r.e, r.mem, r.ctl, r.t, vaddr, wide);
  }

  // ---------- The trap the scheme does not survive ----------

  // One PMP entry that allows everything below 2^56, and a page table with one identity-breaking gigapage.
  function OpenEntries(): Entries {
    Entries(seq(PMP_N, i => Cfg(ALL, if i == 0 then Tor else Off, false)), seq(PMP_N, _ => 0x3F_FFFF_FFFF_FFFF))
  }

  lemma OpenAllows(e: Entries, pa: nat, len: nat, acc: Access, machine: bool)
    requires e == OpenEntries() && len > 0 && pa + len < 0x10_0000_0000
    ensures EntriesOk(e) && Allowed(e, 0, pa, len, acc, machine)
  {
    assert RangeOf(e, 0) == Range(0, 4 * 0x3F_FFFF_FFFF_FFFF);
    assert In(RangeOf(e, 0), pa);
  }

  const GIGAPAGE := Pte(true, true, true, true, false, true, true, 0x4_0000, 0)

  // M-mode, loads translated by MPRV as S-mode; load entry 5 was filled by such a load.
  function Translating(): HartState {
    HartState(map[4096 := GIGAPAGE], OpenEntries(), Ctl(true, 1, 0, Machine, Supervisor, true, false, false),
              Flushed().(load := seq(DTLB_N, i => if i == 5 then L1(5, 0x4_0005) else Empty)))
  }

  lemma GigapageWalk(d: Dram, e: Entries, mem: Mem)
    requires d == Dram(0, 0x1_0000_0000) && e == OpenEntries() && mem == map[4096 := GIGAPAGE]
    ensures EntriesOk(e) && WalkTable(d, e, mem, 1, 5) == Leaf(GIGAPAGE, 4096, 2)
  {
    OpenAllows(e, 4096, 8, Load, false);
    assert Index(5, 2) == 0;
  }

  lemma TranslatingPage(d: Dram)
    requires d == Dram(0, 0x1_0000_0000)
    ensures var m := Translating(); EntriesOk(m.e) && PageOk(d, m.e, m.mem, m.ctl, 5, Load, 0x4_0005)
  {
    var m := Translating();
    GigapageWalk(d, m.e, m.mem);
    OpenAllows(m.e, 4096 * 0x4_0005, 4096, Load, false);
    assert Compose(GIGAPAGE, 2, 5) == 0x4_0005;
  }

  lemma NoL2Ok(d: Dram, e: Entries, mem: Mem, ctl: Ctl)
    requires |e.cfg| == |e.addr| == PMP_N
    ensures L2Ok(d, e, mem, ctl, NO_L2)
  {
  }

  lemma TranslatingSound(d: Dram)
    requires d == Dram(0, 0x1_0000_0000)
    ensures SoundHart(d, Translating())
  {
    hide PageOk, L2Ok;
    var m := Translating();
    TranslatingPage(d);
    forall i | 0 <= i < DTLB_N ensures L1Ok(d, m.e, m.mem, m.ctl, Load, m.t.load[i]) && Slotted(m.t.load[i], i) {
    }
    forall i | 0 <= i < L2TLB_N ensures L2Ok(d, m.e, m.mem, m.ctl, m.t.l2[i]) {
      NoL2Ok(d, m.e, m.mem, m.ctl);
    }
  }

  // After the trap the load TLB still answers with the translated page, while the access is untranslated.
  lemma StaleAfterTrap(d: Dram)
    requires d == Dram(0, 0x1_0000_0000)
    ensures var m := Translating();
      && SoundHart(d, m) && !TrapOk(m)
      && var ctl := Trapped(m.ctl, false);
         && ctl.priv == m.ctl.priv
         && Cached(d, m.e, m.mem, ctl, m.t, 5 * 4096, Load, 8, {}).0 == Ok(4096 * 0x4_0005)
         && Fresh(d, m.e, m.mem, ctl, 5 * 4096, Load, 8).0 == Ok(4096 * 5)
  {
    var m := Translating();
    TranslatingSound(d);
    OpenAllows(m.e, 5 * 4096, 8, Load, true);
    assert m.t.load[5] == L1(5, 0x4_0005);
  }

  // ---------- The hart's translation unit ----------

  // A physical page number fits 44 bits, so the pages it composes are physical addresses.
  ghost predicate Fits(mem: Mem, vpn: nat) {
    vpn < 0x10_0000_0000_0000 && forall a :: a in mem ==> mem[a].ppn < 0x1000_0000_0000
  }

  class MmuUnit {
    const pmp: PmpUnit
    var ctl: Ctl
    var itlb: L1
    const load: array<L1>
    const store: array<L1>
    const l2: array<L2>

    constructor (ctl: Ctl)
      ensures fresh(pmp) && fresh(pmp.cfg) && fresh(pmp.addr) && fresh(load) && fresh(store) && fresh(l2)
      ensures this.ctl == ctl && Shape() && State() == Flushed()
      ensures EntriesOk(pmp.Current())
    {
      this.ctl := ctl;
      pmp := new PmpUnit();
      itlb := Empty;
      load := new L1[DTLB_N](_ => Empty);
      store := new L1[DTLB_N](_ => Empty);
      l2 := new L2[L2TLB_N](_ => NO_L2);
      new;
      assert load[..] == seq(DTLB_N, _ => Empty) && store[..] == seq(DTLB_N, _ => Empty);
      assert l2[..] == seq(L2TLB_N, _ => NO_L2);
    }

    predicate Shape() {
      load.Length == store.Length == DTLB_N && l2.Length == L2TLB_N && load != store
    }

    function State(): Tlbs
      reads this, load, store, l2
    {
      Tlbs(itlb, load[..], store[..], l2[..])
    }

    // tlb_flush_l1.
    method FlushL1()
      requires Shape()
      modifies this`itlb, load, store
      ensures State() == FlushedL1(old(State()))
    {
      itlb := Empty;
      for i := 0 to DTLB_N
        invariant forall k :: 0 <= k < i ==> load[k] == store[k] == Empty
        invariant itlb == Empty && l2[..] == old(l2[..])
      {
        load[i] := Empty;
        store[i] := Empty;
      }
      assert load[..] == seq(DTLB_N, _ => Empty) && store[..] == seq(DTLB_N, _ => Empty);
    }

    // tlb_flush.
    method Flush()
      requires Shape()
      modifies this`itlb, load, store, l2
      ensures State() == Flushed()
    {
      FlushL1();
      for i := 0 to L2TLB_N
        invariant forall k :: 0 <= k < i ==> l2[k] == NO_L2
        invariant itlb == Empty && load[..] == store[..] == seq(DTLB_N, _ => Empty)
      {
        l2[i] := NO_L2;
      }
      assert l2[..] == seq(L2TLB_N, _ => NO_L2);
    }

    // The level loop of translate_slow.
    method WalkLevels(d: Dram, mem: Mem, vpn: nat) returns (w: Walk)
      requires pmp.Valid() && 0 <= d.base && d.base + d.size <= TOP
      modifies pmp`hint
      ensures pmp.Valid() && w == WalkTable(d, pmp.Current(), mem, ctl.root, vpn)
    {
      hide Allowed, Malformed, Index, IsLeaf, ReadPte, Canonical, WalkFrom, Span;
      if !Canonical(vpn) {
        return PageFault;
      }
      var table: nat, lv := ctl.root, 2;
      while lv >= 0
        invariant pmp.Valid() && -1 <= lv <= 2
        invariant WalkTable(d, pmp.Current(), mem, ctl.root, vpn) ==
          if lv >= 0 then WalkFrom(d, pmp.Current(), mem, vpn, table, lv) else PageFault
      {
        WalkStep(d, pmp.Current(), mem, vpn, table, lv);
        var addr := 4096 * table + 8 * Index(vpn, lv);
        var ok := InDram(d, addr, 8);
        if ok {
          ok := pmp.Check(addr, 8, Load, false);
        }
        if !ok {
          return AccessFault;
        }
        var pte := ReadPte(mem, addr);
        if Malformed(pte) {
          return PageFault;
        }
        if IsLeaf(pte) {
          return if pte.ppn % Span(lv) != 0 then PageFault else Leaf(pte, addr, lv);
        }
        table, lv := pte.ppn, lv - 1;
      }
      return PageFault;
    }

    method StoreL1(acc: Access, vpn: nat, l1: L1)
      requires Shape()
      modifies this`itlb, load, store
      ensures State() == FillL1(old(State()), acc, vpn, l1)
    {
      match acc {
        case Fetch => itlb := l1;
        case Load => load[vpn % DTLB_N] := l1;
        case Store => store[vpn % DTLB_N] := l1;
      }
      assert acc.Load? ==> load[..] == old(load[..])[vpn % DTLB_N := l1];
      assert acc.Store? ==> store[..] == old(store[..])[vpn % DTLB_N := l1];
    }

    // The end of translate_slow.
    method FinishAccess(d: Dram, ghost mem: Mem, vaddr: nat, acc: Access, size: nat, page: nat, allow: Perm, refused: set<nat>)
      returns (out: Out)
      requires pmp.Valid() && Shape() && size > 0 && 4096 * page + vaddr % 4096 + size <= TOP
      modifies pmp`hint, this`itlb, load, store
      ensures pmp.Valid()
      ensures (out, mem, State()) == Finish(d, pmp.Current(), mem, old(State()), vaddr, acc, size, page, allow, refused)
    {
      hide Allowed, FillL1;
      var pa := 4096 * page + vaddr % 4096;
      var ok := Grants(allow, acc);
      var pageOk := ok;
      if !ok {
        ok := pmp.Check(pa, size, acc, false);
      }
      if !ok {
        out := Fault(AccessFaultOf(acc));
      } else {
        out := Ok(pa);
        if !(acc.Store? && page in refused) {
          StoreL1(acc, vaddr / 4096, if PageInDram(d, page) && pageOk then L1(vaddr / 4096, page) else Empty);
        }
      }
    }

    // The refill of translate_slow's miss path.
    method RefillL2(d: Dram, vpn: nat, pte: Pte, lv: nat) returns (allow: Perm)
      requires pmp.Valid() && Shape() && 4096 * Compose(pte, lv, vpn) + 4096 <= TOP
      modifies pmp`hint, l2
      ensures pmp.Valid() && allow == PageAllow(pmp.Current(), Compose(pte, lv, vpn))
      ensures State() == Refill(d, pmp.Current(), ctl, old(State()), vpn, pte, lv)
    {
      hide Allowed;
      var page, i := Compose(pte, lv, vpn), vpn % L2TLB_N;
      allow := pmp.PageAllow(4096 * page);
      assert Grants(allow, Load) == allow.r && Grants(allow, Store) == allow.w && Grants(allow, Fetch) == allow.x;
      l2[i] := if PageInDram(d, page) then L2(vpn, Tag(ctl.root, ctl.asid), page, pte, allow) else l2[i].(tag := NoTag);
      assert l2[..] == old(l2[..])[i := l2[i]];
    }

    // The walk of translate_slow, with the A and D update.
    method WalkAccess(d: Dram, mem: Mem, vpn: nat, acc: Access) returns (f: Found, mem': Mem)
      requires pmp.Valid() && Shape() && 0 <= d.base && d.base + d.size <= TOP && Fits(mem, vpn)
      modifies pmp`hint
      ensures pmp.Valid() && (f, mem') == LeafAccess(d, pmp.Current(), mem, ctl, vpn, acc)
      ensures 4096 * vpn < TOP ==> Finds(d, pmp.Current(), mem, ctl, vpn, acc, f, mem')
      ensures f.Found? ==> 4096 * Compose(f.pte, f.level, vpn) + 4096 <= TOP
    {
      if 4096 * vpn < TOP {
        LeafAccessMeaning(d, pmp.Current(), mem, ctl, vpn, acc);
      }
      hide Allowed, Finds;
      var w := WalkLevels(d, mem, vpn);
      mem' := mem;
      if w.AccessFault? {
        return Missing(AccessFaultOf(acc)), mem;
      }
      if w.PageFault? || !PermOk(ctl, w.pte, acc) {
        return Missing(PageFaultOf(acc)), mem;
      }
      LeafInMemory(d, pmp.Current(), mem, vpn, ctl.root, 2);
      var pte := SetAD(w.pte, acc);
      if pte != w.pte {
        var ok := pmp.Check(w.addr, 8, Store, false);
        if !ok {
          return Missing(AccessFaultOf(acc)), mem;
        }
        mem' := mem[w.addr := pte];
      }
      ComposeFits(pte, w.level, vpn);
      f := Found(pte, w.level);
    }

    // translate_slow.
    method TranslateSlow(d: Dram, mem: Mem, vaddr: nat, acc: Access, size: nat, refused: set<nat>)
      returns (out: Out, mem': Mem)
      requires pmp.Valid() && Shape() && 0 <= d.base && d.base + d.size <= TOP
      requires size > 0 && vaddr % 4096 + size <= 4096 && Fits(mem, vaddr / 4096)
      requires L2Hit(ctl, State(), vaddr / 4096, acc) ==> 4096 * l2[(vaddr / 4096) % L2TLB_N].page + 4096 <= TOP
      modifies pmp`hint, this`itlb, load, store, l2
      ensures pmp.Valid()
      ensures (out, mem', State()) == Slow(d, pmp.Current(), mem, ctl, old(State()), vaddr, acc, size, refused)
    {
      hide Allowed, Finish, Refill, LeafAccess, Compose;
      var vpn := vaddr / 4096;
      var i := vpn % L2TLB_N;
      mem' := mem;
      if l2[i].tag == Tag(ctl.root, ctl.asid) && l2[i].vpn == vpn && AccessOk(ctl, l2[i].pte, acc) {
        out := FinishAccess(d, mem, vaddr, acc, size, l2[i].page, l2[i].allow, refused);
      } else {
        var f;
        f, mem' := WalkAccess(d, mem, vpn, acc);
        if f.Missing? {
          out, mem' := Fault(f.cause), mem;
        } else {
          var allow := RefillL2(d, vpn, f.pte, f.level);
          out := FinishAccess(d, mem', vaddr, acc, size, Compose(f.pte, f.level, vpn), allow, refused);
        }
      }
    }

    // translate: no paging, or the L2 TLB and the walk.
    method TranslateMiss(d: Dram, mem: Mem, vaddr: nat, acc: Access, size: nat, refused: set<nat>)
      returns (out: Out, mem': Mem)
      requires pmp.Valid() && Shape() && 0 <= d.base && d.base + d.size <= TOP
      requires size > 0 && vaddr % 4096 + size <= 4096 && vaddr + size <= TOP && Fits(mem, vaddr / 4096)
      requires L2Hit(ctl, State(), vaddr / 4096, acc) ==> 4096 * l2[(vaddr / 4096) % L2TLB_N].page + 4096 <= TOP
      modifies pmp`hint, this`itlb, load, store, l2
      ensures pmp.Valid()
      ensures (out, mem', State()) == Translate(d, pmp.Current(), mem, ctl, old(State()), vaddr, acc, size, refused)
    {
      hide Allowed, Slow, L2Hit;
      mem' := mem;
      if Bare(ctl, acc) {
        var ok := pmp.CheckBare(vaddr, size, acc, EffPriv(ctl, acc).Machine?);
        out := if ok then Ok(vaddr) else Fault(AccessFaultOf(acc));
      } else {
        out, mem' := TranslateSlow(d, mem, vaddr, acc, size, refused);
      }
    }

    // Every access made through the TLBs gives what a fresh walk and PMP check would.
    method Access(d: Dram, mem: Mem, vaddr: nat, acc: Access, size: nat, refused: set<nat>) returns (out: Out, mem': Mem)
      requires pmp.Valid() && Shape() && 0 <= d.base && d.base + d.size <= TOP
      requires size > 0 && vaddr % 4096 + size <= 4096 && vaddr + size <= TOP && Fits(mem, vaddr / 4096)
      requires Sound(d, pmp.Current(), mem, ctl, State())
      modifies pmp`hint, this`itlb, load, store, l2
      ensures pmp.Valid() && pmp.Current() == old(pmp.Current()) && ctl == old(ctl)
      ensures (out, mem') == Fresh(d, pmp.Current(), mem, ctl, vaddr, acc, size)
      ensures Architected(d, pmp.Current(), mem, ctl, vaddr, acc, size, out, mem')
      ensures Sound(d, pmp.Current(), mem', ctl, State())
    {
      hide Translate, Sound, Fresh, L2Hit, Architected;
      FreshMeaning(d, pmp.Current(), mem, ctl, vaddr, acc, size);
      ghost var e, t := pmp.Current(), State();
      CachedAgrees(d, e, mem, ctl, t, vaddr, acc, size, refused);
      if L2Hit(ctl, t, vaddr / 4096, acc) {
        PagesFit(d, e, mem, ctl, t, vaddr / 4096, acc);
      }
      var l1 := match acc case Fetch => itlb case Load => load[(vaddr / 4096) % DTLB_N] case Store => store[(vaddr / 4096) % DTLB_N];
      mem' := mem;
      if l1.L1? && l1.vpn == vaddr / 4096 {
        out := Ok(4096 * l1.page + vaddr % 4096);
      } else {
        out, mem' := TranslateMiss(d, mem, vaddr, acc, size, refused);
      }
    }

    // The page_ok of translate, for the page just fetched from.
    method WholePage(d: Dram, pa: int) returns (whole: bool)
      requires pmp.Valid() && Executable(d, pa) && WholePages(d) && 0 <= d.base && d.base + d.size <= TOP
      modifies pmp`hint
      ensures pmp.Valid() && (whole <==> Allowed(pmp.Current(), 0, pa - pa % 4096, 4096, Fetch, ctl.priv.Machine?))
    {
      hide Allowed, Executable, WholePages;
      PageWithin(d, pa);
      whole := pmp.Check(pa - pa % 4096, 4096, Fetch, ctl.priv.Machine?);
    }

    // translate_host_cached, up to the check of the second halfword.
    method FillItlb(d: Dram, mem: Mem, vaddr: nat) returns (out: Out, mem': Mem, once: bool)
      requires pmp.Valid() && Shape() && 0 <= d.base && d.base + d.size <= TOP && WholePages(d)
      requires vaddr % 2 == 0 && vaddr + 2 <= TOP && Fits(mem, vaddr / 4096)
      requires L2Hit(ctl, State(), vaddr / 4096, Fetch) ==> 4096 * l2[(vaddr / 4096) % L2TLB_N].page + 4096 <= TOP
      modifies pmp`hint, this`itlb, load, store, l2
      ensures pmp.Valid()
      ensures (out, mem', State(), once) == FillFetch(d, pmp.Current(), mem, ctl, old(State()), vaddr)
    {
      hide Allowed, Translate, L2Hit, Executable, WholePages, Fits;
      once := false;
      out, mem' := TranslateMiss(d, mem, vaddr, Fetch, 2, {});
      if out.Ok? && !Executable(d, out.pa) {
        itlb := Empty;
        out := Fault(AccessFaultOf(Fetch));
      } else if out.Ok? {
        PageWithin(d, out.pa);
        itlb := L1(vaddr / 4096, out.pa / 4096);
        var whole := WholePage(d, out.pa);
        once := !whole;
      }
    }

    method FetchFirst(d: Dram, mem: Mem, vaddr: nat) returns (out: Out, mem': Mem, once: bool)
      requires pmp.Valid() && Shape() && 0 <= d.base && d.base + d.size <= TOP && WholePages(d)
      requires vaddr % 2 == 0 && vaddr + 2 <= TOP && Fits(mem, vaddr / 4096)
      requires L2Hit(ctl, State(), vaddr / 4096, Fetch) ==> 4096 * l2[(vaddr / 4096) % L2TLB_N].page + 4096 <= TOP
      modifies pmp`hint, this`itlb, load, store, l2
      ensures pmp.Valid()
      ensures (out, mem', State(), once) == FirstHalf(d, pmp.Current(), mem, ctl, old(State()), vaddr)
    {
      hide FillFetch, L2Hit, Fits, WholePages;
      if itlb.L1? && itlb.vpn == vaddr / 4096 {
        out, mem', once := Ok(4096 * itlb.page + vaddr % 4096), mem, false;
      } else {
        out, mem', once := FillItlb(d, mem, vaddr);
      }
    }

    method FetchRest(d: Dram, mem: Mem, vaddr: nat, pa: int, first: bool) returns (f: Fetched, mem': Mem)
      requires pmp.Valid() && Shape() && 0 <= d.base && d.base + d.size <= TOP && WholePages(d)
      requires vaddr % 2 == 0 && (first && vaddr % 4096 != 4094 ==> 0 <= pa && pa + 4 <= TOP)
      requires NextHalf(vaddr) % 2 == 0 && NextHalf(vaddr) + 2 <= TOP && Fits(mem, NextHalf(vaddr) / 4096)
      requires L2Hit(ctl, State(), NextHalf(vaddr) / 4096, Fetch) ==>
        4096 * l2[(NextHalf(vaddr) / 4096) % L2TLB_N].page + 4096 <= TOP
      modifies pmp`hint, this`itlb, load, store, l2
      ensures pmp.Valid()
      ensures (f, mem', State()) == RestOf(d, pmp.Current(), mem, ctl, old(State()), vaddr, pa, first)
    {
      hide FillFetch, L2Hit, Fits, WholePages, NextHalf, Allowed;
      var once := first;
      mem' := mem;
      if vaddr % 4096 != 4094 {
        f := Insn([pa, pa + 2]);
        if once {
          var ok := pmp.Check(pa + 2, 2, Fetch, ctl.priv.Machine?);
          if !ok {
            f := FetchFault(AccessFaultOf(Fetch), NextHalf(vaddr));
          }
        }
      } else {
        var out, again;
        out, mem', again := FillItlb(d, mem, NextHalf(vaddr));
        if out.Fault? {
          f := FetchFault(out.cause, NextHalf(vaddr));
        } else {
          f, once := Insn([pa, out.pa]), once || again;
        }
      }
      if once {
        itlb := Empty;
      }
    }

    // The fetch at the head of the instruction loop of rv64_sys_run, and the loss of an entry for one instruction at
    // its end.
    method FetchInsn(d: Dram, mem: Mem, vaddr: nat, wide: bool) returns (f: Fetched, mem': Mem)
      requires pmp.Valid() && Shape() && 0 <= d.base && d.base + d.size <= TOP && WholePages(d)
      requires vaddr % 2 == 0 && vaddr < TOP64 && Fits(mem, vaddr / 4096)
      requires Sound(d, pmp.Current(), mem, ctl, State())
      modifies pmp`hint, this`itlb, load, store, l2
      ensures pmp.Valid() && pmp.Current() == old(pmp.Current()) && ctl == old(ctl)
      ensures (f, mem') == FreshInsn(d, pmp.Current(), mem, ctl, vaddr, wide)
      ensures Sound(d, pmp.Current(), mem', ctl, State())
    {
      hide FirstHalf, RestOf, FreshInsn, Sound, Fits, L2Hit, WholePages, NextHalf;
      ghost var e, t := pmp.Current(), State();
      FetchAgrees(d, e, mem, ctl, t, vaddr, wide);
      FetchFits(d, e, mem, ctl, t, vaddr);
      var out, once;
      out, mem', once := FetchFirst(d, mem, vaddr);
      if out.Fault? {
        f := FetchFault(out.cause, vaddr);
      } else if wide {
        SecondFits(d, e, mem, ctl, t, vaddr);
        f, mem' := FetchRest(d, mem', vaddr, out.pa, once);
      } else {
        f := Insn([out.pa]);
        if once {
          itlb := Empty;
        }
      }
    }

    // take_trap, as far as translation goes.
    method TakeTrap(delegated: bool)
      requires Shape()
      modifies this`ctl, this`itlb, load, store
      ensures ctl == Trapped(old(ctl), delegated)
      ensures ctl == if delegated && old(ctl).priv != Machine then old(ctl).(priv := Supervisor)
                     else old(ctl).(priv := Machine, mpp := old(ctl).priv)
      ensures State() == if ctl.priv != old(ctl).priv then FlushedL1(old(State())) else old(State())
    {
      var from := ctl.priv;
      if delegated && !ctl.priv.Machine? {
        ctl := ctl.(priv := Supervisor);
      } else {
        ctl := ctl.(priv := Machine, mpp := ctl.priv);
      }
      if ctl.priv != from {
        FlushL1();
      }
    }

    // The satp write of rv64_sys_write_csr.
    method WriteSatp(sv39: bool, root: nat, asid: nat)
      requires Shape()
      modifies this`ctl, this`itlb, load, store, l2
      ensures ctl == old(ctl).(sv39 := sv39, root := root, asid := asid) && State() == Flushed()
    {
      ctl := ctl.(sv39 := sv39, root := root, asid := asid);
      Flush();
    }
  }

  // One level of the walk.
  lemma WalkStep(d: Dram, e: Entries, mem: Mem, vpn: nat, table: nat, lv: nat)
    requires |e.cfg| == |e.addr| == PMP_N
    ensures Span(lv) > 0
    ensures var addr := 4096 * table + 8 * Index(vpn, lv);
      var pte := ReadPte(mem, addr);
      WalkFrom(d, e, mem, vpn, table, lv) ==
      if !InDram(d, addr, 8) || !Allowed(e, 0, addr, 8, Load, false) then AccessFault
      else if Malformed(pte) then PageFault
      else if IsLeaf(pte) then (if pte.ppn % Span(lv) != 0 then PageFault else Leaf(pte, addr, lv))
      else if lv == 0 then PageFault else WalkFrom(d, e, mem, vpn, pte.ppn, lv - 1)
  {
    hide Allowed, Malformed, Index, IsLeaf, ReadPte;
  }

  lemma PageWithin(d: Dram, pa: int)
    requires Executable(d, pa) && WholePages(d) && 0 <= d.base && d.base + d.size <= TOP
    ensures 0 <= pa && 0 <= pa - pa % 4096 && pa - pa % 4096 + 4096 <= TOP
  {
  }

  lemma FetchFits(d: Dram, e: Entries, mem: Mem, ctl: Ctl, t: Tlbs, vaddr: nat)
    requires Sound(d, e, mem, ctl, t) && d.base + d.size <= TOP && vaddr % 2 == 0 && vaddr < TOP64
    ensures vaddr + 2 <= TOP && TlbsOk(t)
    ensures L2Hit(ctl, t, vaddr / 4096, Fetch) ==> 4096 * t.l2[(vaddr / 4096) % L2TLB_N].page + 4096 <= TOP
  {
    if L2Hit(ctl, t, vaddr / 4096, Fetch) {
      PagesFit(d, e, mem, ctl, t, vaddr / 4096, Fetch);
    }
  }

  // A fetch changes page-table entries only in their A bits.
  lemma FetchKeepsPpns(d: Dram, e: Entries, mem: Mem, ctl: Ctl, vaddr: nat)
    requires |e.cfg| == |e.addr| == PMP_N && forall a :: a in mem ==> mem[a].ppn < 0x1000_0000_0000
    ensures var mem' := FreshHalf(d, e, mem, ctl, vaddr).1; forall a :: a in mem' ==> mem'[a].ppn < 0x1000_0000_0000
  {
    if !Bare(ctl, Fetch) && WalkTable(d, e, mem, ctl.root, vaddr / 4096).Leaf? {
      LeafInMemory(d, e, mem, vaddr / 4096, ctl.root, 2);
    }
  }

  // What the second halfword's part of a fetch needs of the first's.
  lemma SecondFits(d: Dram, e: Entries, mem: Mem, ctl: Ctl, t: Tlbs, vaddr: nat)
    requires Sound(d, e, mem, ctl, t) && WholePages(d) && 0 <= d.base && d.base + d.size <= TOP
    requires vaddr % 2 == 0 && vaddr < TOP64 && Fits(mem, vaddr / 4096)
    ensures TlbsOk(t) && EntriesOk(e)
    ensures var (o, mem', t', once) := FirstHalf(d, e, mem, ctl, t, vaddr);
      var next := NextHalf(vaddr);
      && TlbsOk(t') && next % 2 == 0 && next + 2 <= TOP && Fits(mem', next / 4096)
      && (o.Ok? && once && vaddr % 4096 != 4094 ==> 0 <= o.pa && o.pa + 4 <= TOP)
      && (L2Hit(ctl, t', next / 4096, Fetch) ==> 4096 * t'.l2[(next / 4096) % L2TLB_N].page + 4096 <= TOP)
  {
    hide FillFetch, FreshHalf, Sound, FetchedFrom, L2Hit, WholePages;
    SoundParts(d, e, mem, ctl, t);
    var (o, mem', t', once) := FirstHalf(d, e, mem, ctl, t, vaddr);
    if !(t.itlb.L1? && t.itlb.vpn == vaddr / 4096) {
      FillAgrees(d, e, mem, ctl, t, vaddr);
      FetchKeepsPpns(d, e, mem, ctl, vaddr);
      if o.Ok? && vaddr % 4096 != 4094 {
        EvenOffset(d, e, mem', ctl, vaddr, o.pa);
        PageWithin(d, o.pa);
      }
    }
    EmptySound(d, e, mem', ctl, t', once);
    FetchFits(d, e, mem', ctl, t'.(itlb := Empty), NextHalf(vaddr));
    L2Only(ctl, t', NextHalf(vaddr) / 4096);
  }

  lemma L2Only(ctl: Ctl, t: Tlbs, vpn: nat)
    requires TlbsOk(t)
    ensures L2Hit(ctl, t.(itlb := Empty), vpn, Fetch) == L2Hit(ctl, t, vpn, Fetch)
  {
  }

  lemma PagesFit(d: Dram, e: Entries, mem: Mem, ctl: Ctl, t: Tlbs, vpn: nat, acc: Access)
    requires Sound(d, e, mem, ctl, t) && d.base + d.size <= TOP && L2Hit(ctl, t, vpn, acc)
    ensures 4096 * t.l2[vpn % L2TLB_N].page + 4096 <= TOP
  {
    assert L2Ok(d, e, mem, ctl, t.l2[vpn % L2TLB_N]);
  }

  lemma ComposeFits(pte: Pte, lv: nat, vpn: nat)
    requires pte.ppn < 0x1000_0000_0000 && vpn < 0x10_0000_0000_0000 && lv <= 2
    ensures 4096 * Compose(pte, lv, vpn) + 4096 <= TOP
  {
    var q, m := pte.ppn / Span(lv), Span(lv);
    assert q * m <= pte.ppn;
    assert vpn % m < m;
  }
}
