// Lazy interrupt checking, virtual time and the hart scheduler (src/rv64_system.cpp).
//
// A hart runs a slice of instructions without looking at interrupts, up to irq_next_check. The reference checks
// before every instruction. The two take the same traps at the same instructions.
module Interrupts {
  datatype Cause = Mei | Msi | Mti | Sei | Ssi | Sti
  datatype Option<T> = None | Some(value: T)

  const NEVER: nat := 0xFFFF_FFFF_FFFF_FFFF  // irq_next_check or mtimecmp when nothing is due

  // A trap taken: whether for an interrupt, its code, the instruction count, and the mode it went to.
  datatype Trap = Trap(interrupt: bool, code: int, count: nat, toS: bool)

  // What a program can observe of a hart. mip holds every bit but MTIP, which the code recomputes wherever it reads
  // it. arch stands for the registers; traps are those taken so far.
  datatype Hart = Hart(mip: set<Cause>, seipSw: bool, plicM: bool, plicS: bool, enabled: set<Cause>, mideleg: set<Cause>,
                       priv: nat, mie: bool, mpie: bool, mpp: nat, sie: bool, spie: bool, spp: nat,
                       arch: int, atReset: bool, traps: seq<Trap>, deliv: set<Cause>, sleeping: bool)

  datatype Vis = Vis(harts: seq<Hart>, now: nat, cmp: seq<nat>, msip: seq<bool>, tick: nat, insns: nat, quantum: nat,
                     cur: Option<nat>, rr: nat, yieldTo: Option<nat>)

  // ---------- Time ----------

  function Mtime(v: Vis, count: nat): nat
    requires v.tick > 0
  {
    count / v.tick
  }

  predicate TimerDue(v: Vis, g: nat, count: nat)
    requires v.tick > 0 && g < |v.cmp|
  {
    Mtime(v, count) >= v.cmp[g]
  }

  // The instruction count at which hart g's timer fires.
  function EventCount(v: Vis, g: nat): nat
    requires v.tick > 0 && g < |v.cmp|
  {
    if v.cmp[g] == NEVER then NEVER
    else if TimerDue(v, g, v.now) then v.now
    else if v.cmp[g] > NEVER / v.tick then NEVER
    else v.cmp[g] * v.tick
  }

  lemma DivAtLeast(c: nat, t: nat, m: nat)
    requires t > 0
    ensures c / t >= m <==> c >= m * t
  {
    assert c == t * (c / t) + c % t;
    if c / t >= m {
      assert t * (c / t) >= t * m;
    } else {
      assert t * (c / t + 1) <= t * m;
      assert t * (c / t + 1) == t * (c / t) + t;
    }
  }

  // It is the least count from now on at which mtime reaches mtimecmp.
  lemma EventCountLeast(v: Vis, g: nat, c: nat)
    requires v.tick > 0 && g < |v.cmp| && v.now <= c < NEVER
    ensures TimerDue(v, g, c) <==> c >= EventCount(v, g)
  {
    DivAtLeast(c, v.tick, v.cmp[g]);
    DivAtLeast(v.now, v.tick, v.cmp[g]);
    DivAtLeast(NEVER, v.tick, v.cmp[g]);
    if v.cmp[g] == NEVER {
      assert NEVER * v.tick >= NEVER;
    }
  }

  // ---------- What is deliverable ----------

  // The interrupts that would trap if pending, from the privilege and the enable bits.
  function Enabled(h: Hart): set<Cause> {
    set c | c in h.enabled &&
      (if c in h.mideleg then h.priv < 1 || (h.priv == 1 && h.sie) else h.priv < 3 || h.mie)
  }

  function Pending(v: Vis, g: nat, count: nat): set<Cause>
    requires VisOk(v) && g < |v.harts|
  {
    (if TimerDue(v, g, count) then v.harts[g].mip + {Mti} else v.harts[g].mip) * v.harts[g].deliv
  }

  const SUPERVISOR: set<Cause> := {Sei, Ssi, Sti}

  // A hart's own fields. mip.MSIP follows its msip register.
  predicate FieldsOk(h: Hart, msip: bool) {
    && Mti !in h.mip && (Msi in h.mip <==> msip) && h.mideleg <= SUPERVISOR
    && (h.priv == 0 || h.priv == 1 || h.priv == 3) && h.mpp in {0, 1, 3} && h.spp <= 1
  }

  predicate HartOk(v: Vis, g: nat)
    requires g < |v.harts| && g < |v.msip|
  {
    FieldsOk(v.harts[g], v.msip[g]) && v.harts[g].deliv == Enabled(v.harts[g])
  }

  predicate VisOk(v: Vis) {
    && |v.harts| > 0 && |v.cmp| == |v.msip| == |v.harts| && v.tick > 0
    && v.rr < |v.harts| && (v.cur.Some? ==> v.cur.value < |v.harts|)
    && (v.yieldTo.Some? ==> v.yieldTo.value < |v.harts|)
    && forall g :: 0 <= g < |v.harts| ==> HartOk(v, g)
  }

  // The cached count is exact: from now on, hart g has something to deliver just when the count reaches it.
  ghost predicate Exact(v: Vis, g: nat, next: nat)
    requires VisOk(v) && g < |v.harts|
  {
    forall c: nat | v.now <= c < NEVER :: c >= next <==> Pending(v, g, c) != {}
  }

  function NextCheck(v: Vis, g: nat): nat
    requires VisOk(v) && g < |v.harts|
  {
    var h := v.harts[g];
    if h.mip * h.deliv != {} then v.now
    else if Mti in h.deliv && EventCount(v, g) < NEVER then EventCount(v, g)
    else NEVER
  }

  lemma NextCheckExact(v: Vis, g: nat)
    requires VisOk(v) && g < |v.harts|
    ensures Exact(v, g, NextCheck(v, g))
  {
    forall c: nat | v.now <= c < NEVER
      ensures c >= NextCheck(v, g) <==> Pending(v, g, c) != {}
    {
      EventCountLeast(v, g, c);
      var h := v.harts[g];
      assert HartOk(v, g);
      if h.mip * h.deliv != {} {
        var k :| k in h.mip * h.deliv;
        assert k in Pending(v, g, c);
      } else if Mti in h.deliv && TimerDue(v, g, c) {
        assert Mti in Pending(v, g, c);
      } else {
        assert Pending(v, g, c) == {};
      }
    }
  }

  // What hart g's deliverable set depends on, besides the count.
  predicate SameIrq(v: Vis, v': Vis, g: nat)
    requires g < |v.harts| && g < |v.cmp| && g < |v'.harts| && g < |v'.cmp|
  {
    && v'.harts[g].mip == v.harts[g].mip && v'.harts[g].deliv == v.harts[g].deliv
    && v'.cmp[g] == v.cmp[g] && v'.tick == v.tick && v'.now >= v.now
  }

  lemma SameIrqExact(v: Vis, v': Vis, g: nat, next: nat)
    requires VisOk(v) && VisOk(v') && g < |v.harts| && g < |v'.harts| && SameIrq(v, v', g) && Exact(v, g, next)
    ensures Exact(v', g, next)
  {
    forall c: nat | v'.now <= c < NEVER
      ensures c >= next <==> Pending(v', g, c) != {}
    {
      assert Pending(v', g, c) == Pending(v, g, c);
    }
  }

  // ---------- What instructions do to interrupt state ----------

  datatype Op =
    | Local(arch: int, atReset: bool)                                    // registers and plain memory
    | SetEnable(on: set<Cause>)                                          // mie, or sie through its view
    | SetDelegation(to: set<Cause>)                                      // mideleg
    | SetStatus(mie: bool, mpie: bool, mpp: nat, sie: bool, spie: bool, spp: nat)
    | SetSoftS(soft: bool)                                                // sip
    | SetMip(ssi: bool, sti: bool, seip: bool)                           // mip
    | Exception(cause: int, delegated: bool)
    | Return(machine: bool)                                              // mret or sret
    | SetTimecmp(g: nat, val: nat)
    | SetMsip(g: nat, set_: bool)
    | SetPlic(g: nat, m: bool, s: bool)                                  // a PLIC change, as hart g's contexts see it
    | Device                                                             // any other device access
    | Yield(target: nat)

  // Retired and Waited instructions advance the visible count; a faulting one is executed but does not; a faulting
  // fetch executes nothing.
  datatype Kind = Retired | Waited | Faulted | FetchFaulted
  datatype Instr = Instr(ops: seq<Op>, kind: Kind)

  type Program = Vis -> Instr  // what the next instruction of the current hart does, from all it can observe

  function Bit(on: bool, c: Cause, m: set<Cause>): set<Cause> {
    if on then m + {c} else m - {c}
  }

  function SetHart(v: Vis, g: nat, h: Hart): Vis
    requires g < |v.harts|
  {
    v.(harts := v.harts[g := h])
  }

  function Recompute(h: Hart): Hart {
    h.(deliv := Enabled(h))
  }

  function Trapped(h: Hart, interrupt: bool, code: int, deleg: bool, count: nat): Hart {
    var toS := h.priv <= 1 && deleg;
    var h' := h.(traps := h.traps + [Trap(interrupt, code, count, toS)]);
    Recompute(if toS then h'.(spie := h.sie, sie := false, spp := h.priv, priv := 1)
              else h'.(mpie := h.mie, mie := false, mpp := h.priv, priv := 3))
  }

  function Returned(h: Hart, machine: bool): Hart {
    Recompute(if machine then h.(mie := h.mpie, mpie := true, priv := h.mpp, mpp := 0)
              else h.(sie := h.spie, spie := true, priv := h.spp, spp := 0))
  }

  // mip as the PLIC's outputs and the software bit make it.
  function PlicHart(h: Hart): Hart {
    h.(mip := Bit(h.plicS || h.seipSw, Sei, Bit(h.plicM, Mei, h.mip)))
  }

  function PlicAll(v: Vis): Vis {
    v.(harts := seq(|v.harts|, g requires 0 <= g < |v.harts| => PlicHart(v.harts[g])))
  }

  function LegalPriv(p: nat): nat {
    if p == 1 || p == 3 then p else 0
  }

  // The hart after an operation that touches only the current hart.
  function OwnOp(h: Hart, op: Op, count: nat): Hart
    requires op.Local? || op.SetEnable? || op.SetDelegation? || op.SetStatus? || op.SetSoftS? || op.Exception? || op.Return?
  {
    match op
    case Local(arch, atReset) => h.(arch := arch, atReset := atReset)
    case SetEnable(on) => Recompute(h.(enabled := on))
    case SetDelegation(to) => Recompute(h.(mideleg := to * SUPERVISOR))
    case SetStatus(mie, mpie, mpp, sie, spie, spp) =>
      Recompute(h.(mie := mie, mpie := mpie, mpp := LegalPriv(mpp), sie := sie, spie := spie, spp := spp % 2))
    case SetSoftS(on) => Recompute(h.(mip := if Ssi in h.mideleg then Bit(on, Ssi, h.mip) else h.mip))
    case Exception(cause, delegated) => Trapped(h, false, cause, delegated, count)
    case Return(machine) => Returned(h, machine)
  }

  predicate Own(op: Op) {
    op.Local? || op.SetEnable? || op.SetDelegation? || op.SetStatus? || op.SetSoftS? || op.Exception? || op.Return?
  }

  predicate Running(v: Vis) {
    VisOk(v) && v.cur.Some?
  }

  function OpV(v: Vis, op: Op): Vis
    requires Running(v)
  {
    var cur := v.cur.value;
    var h := v.harts[cur];
    if Own(op) then SetHart(v, cur, OwnOp(h, op, v.now))
    else
      match op
      case SetMip(ssi, sti, seip) =>
        PlicAll(SetHart(v, cur, h.(mip := Bit(ssi, Ssi, Bit(sti, Sti, h.mip)), seipSw := seip)))
      case SetTimecmp(g, val) => if g < |v.harts| then v.(cmp := v.cmp[g := val]) else v
      case SetMsip(g, on) => if g < |v.harts| then MsipV(v, cur, g, on) else v
      case SetPlic(g, m, s) =>
        PlicAll(if g < |v.harts| then SetHart(v, g, v.harts[g].(plicM := m, plicS := s)) else v)
      case Device => v
      case Yield(to) => if |v.harts| > 1 then v.(yieldTo := Some(to % |v.harts|)) else v
  }

  // An IPI to another hart yields to it.
  function MsipV(v: Vis, cur: nat, g: nat, on: bool): Vis
    requires VisOk(v) && g < |v.harts|
  {
    var v' := v.(msip := v.msip[g := on], yieldTo := if on && cur != g then Some(g) else v.yieldTo);
    SetHart(v', g, v.harts[g].(mip := Bit(on, Msi, v.harts[g].mip)))
  }

  lemma RecomputeOk(h: Hart)
    ensures Recompute(h).deliv == Enabled(Recompute(h))
    ensures forall msip :: FieldsOk(h, msip) ==> FieldsOk(Recompute(h), msip)
  {
  }

  lemma TrappedOk(h: Hart, interrupt: bool, code: int, deleg: bool, count: nat, msip: bool)
    requires FieldsOk(h, msip)
    ensures var h' := Trapped(h, interrupt, code, deleg, count); h'.deliv == Enabled(h') && FieldsOk(h', msip)
  {
    var toS := h.priv <= 1 && deleg;
    var h' := h.(traps := h.traps + [Trap(interrupt, code, count, toS)]);
    RecomputeOk(if toS then h'.(spie := h.sie, sie := false, spp := h.priv, priv := 1)
                else h'.(mpie := h.mie, mie := false, mpp := h.priv, priv := 3));
    hide Enabled;
  }

  lemma ReturnedOk(h: Hart, machine: bool, msip: bool)
    requires FieldsOk(h, msip)
    ensures var h' := Returned(h, machine); h'.deliv == Enabled(h') && FieldsOk(h', msip)
  {
    RecomputeOk(if machine then h.(mie := h.mpie, mpie := true, priv := h.mpp, mpp := 0)
                else h.(sie := h.spie, spie := true, priv := h.spp, spp := 0));
    hide Enabled;
  }

  lemma OwnOpOk(h: Hart, op: Op, count: nat, msip: bool)
    requires Own(op) && FieldsOk(h, msip) && h.deliv == Enabled(h)
    ensures var h' := OwnOp(h, op, count); h'.deliv == Enabled(h') && FieldsOk(h', msip)
  {
    match op
    case Local(arch, atReset) => assert Enabled(OwnOp(h, op, count)) == Enabled(h);
    case SetEnable(on) => SimpleOk(h, op, count, msip);
    case SetDelegation(to) => SimpleOk(h, op, count, msip);
    case SetStatus(mie, mpie, mpp, sie, spie, spp) => StatusOk(h, op, count, msip);
    case SetSoftS(on) => SimpleOk(h, op, count, msip);
    case Exception(cause, delegated) => TrappedOk(h, false, cause, delegated, count, msip);
    case Return(machine) => ReturnedOk(h, machine, msip);
  }

  lemma SimpleOk(h: Hart, op: Op, count: nat, msip: bool)
    requires (op.SetEnable? || op.SetDelegation? || op.SetSoftS?) && FieldsOk(h, msip)
    ensures var h' := OwnOp(h, op, count); h'.deliv == Enabled(h') && FieldsOk(h', msip)
  {
    var r := if op.SetEnable? then h.(enabled := op.on)
             else if op.SetDelegation? then h.(mideleg := op.to * SUPERVISOR)
             else h.(mip := if Ssi in h.mideleg then Bit(op.soft, Ssi, h.mip) else h.mip);
    RecomputeOk(r);
    hide Enabled, Recompute;
    assert OwnOp(h, op, count) == Recompute(r);
  }

  lemma StatusOk(h: Hart, op: Op, count: nat, msip: bool)
    requires op.SetStatus? && FieldsOk(h, msip)
    ensures var h' := OwnOp(h, op, count); h'.deliv == Enabled(h') && FieldsOk(h', msip)
  {
    RecomputeOk(h.(mie := op.mie, mpie := op.mpie, mpp := LegalPriv(op.mpp), sie := op.sie, spie := op.spie, spp := op.spp % 2));
    hide Enabled;
  }

  lemma PlicHartOk(h: Hart)
    ensures PlicHart(h).deliv == h.deliv && Enabled(PlicHart(h)) == Enabled(h)
    ensures (Mti in PlicHart(h).mip <==> Mti in h.mip) && (Msi in PlicHart(h).mip <==> Msi in h.mip)
  {
  }

  lemma PlicAllOk(v: Vis)
    requires VisOk(v)
    ensures VisOk(PlicAll(v))
  {
    forall g | 0 <= g < |v.harts|
      ensures HartOk(PlicAll(v), g)
    {
      assert HartOk(v, g);
      PlicHartOk(v.harts[g]);
    }
  }

  lemma SetHartOk(v: Vis, g: nat, h: Hart)
    requires VisOk(v) && g < |v.harts| && FieldsOk(h, v.msip[g]) && h.deliv == Enabled(h)
    ensures VisOk(SetHart(v, g, h))
  {
    forall k | 0 <= k < |v.harts|
      ensures HartOk(SetHart(v, g, h), k)
    {
      assert HartOk(v, k);
    }
  }

  lemma OwnOk(v: Vis, op: Op)
    requires Running(v) && Own(op)
    ensures Running(OpV(v, op))
  {
    var cur := v.cur.value;
    var h := v.harts[cur];
    assert HartOk(v, cur);
    OwnOpOk(h, op, v.now, v.msip[cur]);
    hide OwnOp, Enabled;
    SetHartOk(v, cur, OwnOp(h, op, v.now));
  }

  // An operation keeps the state well formed; each that changes what is deliverable recomputes the cached mask.
  lemma OpOk(v: Vis, op: Op)
    requires Running(v)
    ensures Running(OpV(v, op))
  {
    var cur := v.cur.value;
    var h := v.harts[cur];
    assert HartOk(v, cur);
    if Own(op) {
      OwnOk(v, op);
    } else {
      hide OwnOp;
      match op
      case SetMip(ssi, sti, seip) =>
        var h' := h.(mip := Bit(ssi, Ssi, Bit(sti, Sti, h.mip)), seipSw := seip);
        assert Enabled(h') == Enabled(h);
        SetHartOk(v, cur, h');
        PlicAllOk(SetHart(v, cur, h'));
      case SetTimecmp(g, val) =>
        forall k | 0 <= k < |v.harts|
          ensures HartOk(OpV(v, op), k)
        {
          assert HartOk(v, k);
        }
      case SetMsip(g, on) =>
        if g < |v.harts| {
          MsipOk(v, cur, g, on);
        }
      case SetPlic(g, m, s) =>
        if g < |v.harts| {
          assert HartOk(v, g);
          var h' := v.harts[g].(plicM := m, plicS := s);
          assert Enabled(h') == Enabled(v.harts[g]);
          SetHartOk(v, g, h');
          PlicAllOk(SetHart(v, g, h'));
        } else {
          PlicAllOk(v);
        }
      case Device =>
      case Yield(to) =>
        forall k | 0 <= k < |v.harts|
          ensures HartOk(OpV(v, op), k)
        {
          assert HartOk(v, k);
        }
    }
  }

  lemma MsipOk(v: Vis, cur: nat, g: nat, on: bool)
    requires VisOk(v) && g < |v.harts|
    ensures VisOk(MsipV(v, cur, g, on))
  {
    var v' := MsipV(v, cur, g, on);
    forall k | 0 <= k < |v.harts|
      ensures HartOk(v', k)
    {
      assert HartOk(v, k);
      assert k == g ==> Enabled(v'.harts[k]) == Enabled(v.harts[k]);
    }
  }

  // ---------- The reference: a check before every instruction ----------

  const PRIORITY: seq<Cause> := [Mei, Msi, Mti, Sei, Ssi, Sti]

  function FirstIn(order: seq<Cause>, all: set<Cause>): Option<Cause> {
    if order == [] then None else if order[0] in all then Some(order[0]) else FirstIn(order[1..], all)
  }

  // Interrupts to M-mode go first.
  function Candidates(all: set<Cause>, mideleg: set<Cause>): set<Cause> {
    if all - mideleg != {} then all - mideleg else all
  }

  function Number(c: Cause): int {
    match c
    case Mei => 11
    case Msi => 3
    case Mti => 7
    case Sei => 9
    case Ssi => 1
    case Sti => 5
  }

  lemma {:induction false} FirstInComplete(order: seq<Cause>, all: set<Cause>, c: Cause)
    requires c in order && c in all
    ensures FirstIn(order, all).Some? && FirstIn(order, all).value in all
  {
    if order[0] !in all {
      FirstInComplete(order[1..], all, c);
    }
  }

  lemma PriorityComplete(all: set<Cause>)
    requires all != {}
    ensures FirstIn(PRIORITY, all).Some? && FirstIn(PRIORITY, all).value in all
  {
    var c :| c in all;
    var i := match c
      case Mei => 0
      case Msi => 1
      case Mti => 2
      case Sei => 3
      case Ssi => 4
      case Sti => 5;
    assert PRIORITY[i] == c;
    FirstInComplete(PRIORITY, all, c);
  }

  function CheckV(v: Vis): Vis
    requires Running(v)
  {
    var cur := v.cur.value;
    var h := v.harts[cur];
    var all := Pending(v, cur, v.now);
    if all == {} then v
    else
      match FirstIn(PRIORITY, Candidates(all, h.mideleg))
      case None => v
      case Some(c) => SetHart(v, cur, Trapped(h, true, Number(c), c in h.mideleg, v.now))
  }

  // After a check nothing is deliverable: a trap to M-mode masks everything, and one to S-mode is taken only when
  // nothing for M-mode was pending.
  lemma CheckedClear(v: Vis)
    requires Running(v)
    ensures Running(CheckV(v)) && Pending(CheckV(v), v.cur.value, v.now) == {}
  {
    var cur := v.cur.value;
    var h := v.harts[cur];
    var all := Pending(v, cur, v.now);
    assert HartOk(v, cur);
    if all != {} {
      PriorityComplete(Candidates(all, h.mideleg));
      var c := FirstIn(PRIORITY, Candidates(all, h.mideleg)).value;
      assert c in all && c in Enabled(h);
      var h' := Trapped(h, true, Number(c), c in h.mideleg, v.now);
      TrappedOk(h, true, Number(c), c in h.mideleg, v.now, v.msip[cur]);
      SetHartOk(v, cur, h');
      TrapMasks(h, c, all, v.now);
      hide FirstIn, Trapped, Candidates, Enabled;
      var p := Pending(CheckV(v), cur, v.now);
      assert p <= Enabled(h') && p <= (if TimerDue(v, cur, v.now) then h.mip + {Mti} else h.mip);
      assert p <= Enabled(h) - all;
      assert p == {};
    }
  }

  // Section 3.1.9 of the Privileged ISA (20211203): external before software before timer, and M-mode's before S-mode's.
  function Rank(c: Cause): nat {
    match c
    case Mei => 0
    case Msi => 1
    case Mti => 2
    case Sei => 3
    case Ssi => 4
    case Sti => 5
  }

  // The check traps the interrupt that goes first among the deliverable ones: those not delegated come before those
  // that are, and then the rank decides.
  lemma FirstRanked(v: Vis) returns (c: Cause)
    requires Running(v) && Pending(v, v.cur.value, v.now) != {}
    ensures var h, all := v.harts[v.cur.value], Pending(v, v.cur.value, v.now);
      && c in all && CheckV(v) == SetHart(v, v.cur.value, Trapped(h, true, Number(c), c in h.mideleg, v.now))
      && (forall k :: k in all && k !in h.mideleg ==> c !in h.mideleg)
      && (forall k :: k in all && (k in h.mideleg <==> c in h.mideleg) ==> Rank(c) <= Rank(k))
  {
    var h, all := v.harts[v.cur.value], Pending(v, v.cur.value, v.now);
    var some := Candidates(all, h.mideleg);
    PriorityComplete(some);
    c := FirstIn(PRIORITY, some).value;
    forall k | k in all && k !in h.mideleg
      ensures c !in h.mideleg
    {
      assert k in all - h.mideleg;
    }
    forall k | k in some
      ensures Rank(c) <= Rank(k)
    {
      FirstInFirst(0, some, k);
    }
  }

  // The words of mip, mie and mideleg, as the sets of their bits that are one: software, timer and external interrupts
  // are bits 1, 5 and 9 at S-level and 3, 7 and 11 at M-level.
  predicate Spells(bits: set<nat>, s: set<Cause>) {
    && (1 in bits <==> Ssi in s) && (5 in bits <==> Sti in s) && (9 in bits <==> Sei in s)
    && (3 in bits <==> Msi in s) && (7 in bits <==> Mti in s) && (11 in bits <==> Mei in s)
  }

  // The words the current hart would read. MTIP is up from the tick at which mtime reaches mtimecmp.
  predicate Words(v: Vis, mip: set<nat>, mie: set<nat>, mideleg: set<nat>)
    requires Running(v)
  {
    var h := v.harts[v.cur.value];
    && Spells(mip - {7}, h.mip) && (7 in mip <==> v.now / v.tick >= v.cmp[v.cur.value])
    && Spells(mie, h.enabled) && Spells(mideleg, h.mideleg)
  }

  // Section 3.1.9 of the Privileged ISA (20211203): a pending and enabled interrupt is taken in any mode below the one
  // it goes to, and in that mode if its global enable is set.
  predicate Deliverable(h: Hart, mip: set<nat>, mie: set<nat>, mideleg: set<nat>, code: nat) {
    && code in {1, 3, 5, 7, 9, 11} && code in mip && code in mie
    && if code in mideleg then h.priv == 0 || (h.priv == 1 && h.sie) else h.priv == 0 || h.priv == 1 || h.mie
  }

  // MEI, MSI, MTI, SEI, SSI, STI, and what goes to M-mode before what goes to S-mode.
  predicate Goes(mideleg: set<nat>, code: nat, other: nat) {
    || (code !in mideleg && other in mideleg)
    || ((code in mideleg <==> other in mideleg) &&
          (code == 11 || (code == 3 && other != 11) || (code == 7 && other !in {11, 3}) ||
             (code == 9 && other in {1, 5}) || (code == 1 && other == 5)))
  }

  // Section 3.1.6.1: a trap stacks the interrupt enable and the privilege of the mode it goes to.
  predicate TookTrap(h: Hart, h': Hart, trap: Trap) {
    h' == if trap.toS
          then h.(traps := h.traps + [trap], spie := h.sie, sie := false, spp := h.priv, priv := 1, deliv := h'.deliv)
          else h.(traps := h.traps + [trap], mpie := h.mie, mie := false, mpp := h.priv, priv := 3, deliv := h'.deliv)
  }

  // v' is v after the current hart has looked at its interrupts.
  ghost predicate Looked(v: Vis, v': Vis, mip: set<nat>, mie: set<nat>, mideleg: set<nat>)
    requires Running(v)
  {
    var cur := v.cur.value;
    var h := v.harts[cur];
    if forall code :: !Deliverable(h, mip, mie, mideleg, code) then v' == v
    else
      && |v'.harts| == |v.harts| && v' == v.(harts := v.harts[cur := v'.harts[cur]])
      && exists code: nat :: Deliverable(h, mip, mie, mideleg, code)
           && (forall k :: Deliverable(h, mip, mie, mideleg, k) && k != code ==> Goes(mideleg, code, k))
           && TookTrap(h, v'.harts[cur], Trap(true, code, v.now, code in mideleg))
  }

  lemma DeliverableIs(v: Vis, mip: set<nat>, mie: set<nat>, mideleg: set<nat>, c: Cause)
    requires Running(v) && Words(v, mip, mie, mideleg)
    ensures Number(c) >= 0
    ensures Deliverable(v.harts[v.cur.value], mip, mie, mideleg, Number(c)) <==> c in Pending(v, v.cur.value, v.now)
    ensures Number(c) in mideleg <==> c in v.harts[v.cur.value].mideleg
  {
    assert HartOk(v, v.cur.value);
  }

  function CauseOf(code: nat): Cause {
    if code == 1 then Ssi else if code == 3 then Msi else if code == 5 then Sti
    else if code == 7 then Mti else if code == 9 then Sei else Mei
  }

  lemma GoesIs(v: Vis, mip: set<nat>, mie: set<nat>, mideleg: set<nat>, c: Cause, k: Cause)
    requires Running(v) && Words(v, mip, mie, mideleg) && c != k
    requires var d := v.harts[v.cur.value].mideleg; (k !in d ==> c !in d) && ((k in d <==> c in d) ==> Rank(c) <= Rank(k))
    ensures Number(c) >= 0 && Number(k) >= 0 && Goes(mideleg, Number(c), Number(k))
  {
    DeliverableIs(v, mip, mie, mideleg, c);
    DeliverableIs(v, mip, mie, mideleg, k);
    hide Pending, Running, Words, Deliverable;
  }

  // The check takes the trap the standard asks for, in terms of the words alone.
  lemma CheckTakesFirst(v: Vis, mip: set<nat>, mie: set<nat>, mideleg: set<nat>)
    requires Running(v) && Words(v, mip, mie, mideleg)
    ensures Looked(v, CheckV(v), mip, mie, mideleg)
  {
    var h, all := v.harts[v.cur.value], Pending(v, v.cur.value, v.now);
    hide Deliverable, Goes, Words, FirstIn, Candidates, Pending, HartOk, Enabled;
    if all == {} {
      forall code ensures !Deliverable(h, mip, mie, mideleg, code) {
        CodeIs(h, mip, mie, mideleg, code);
        DeliverableIs(v, mip, mie, mideleg, CauseOf(code));
      }
    } else {
      var c := FirstRanked(v);
      DeliverableIs(v, mip, mie, mideleg, c);
      forall k: nat | Deliverable(h, mip, mie, mideleg, k) && k != Number(c)
        ensures Goes(mideleg, Number(c), k)
      {
        CodeIs(h, mip, mie, mideleg, k);
        DeliverableIs(v, mip, mie, mideleg, CauseOf(k));
        GoesIs(v, mip, mie, mideleg, c, CauseOf(k));
      }
      TrapIs(v, mip, mie, mideleg, c);
    }
  }

  lemma CodeIs(h: Hart, mip: set<nat>, mie: set<nat>, mideleg: set<nat>, code: nat)
    ensures Deliverable(h, mip, mie, mideleg, code) ==> Number(CauseOf(code)) == code
  {
  }

  lemma TrapIs(v: Vis, mip: set<nat>, mie: set<nat>, mideleg: set<nat>, c: Cause)
    requires Running(v) && Words(v, mip, mie, mideleg) && c in Pending(v, v.cur.value, v.now)
    ensures var h := v.harts[v.cur.value];
      TookTrap(h, Trapped(h, true, Number(c), c in h.mideleg, v.now), Trap(true, Number(c), v.now, Number(c) in mideleg))
  {
    var h := v.harts[v.cur.value];
    DeliverableIs(v, mip, mie, mideleg, c);
    PrivOk(v, c);
    hide Words, Pending, Number, Trapped, TookTrap, Running;
    TrappedIs(h, true, Number(c), c in h.mideleg, v.now);
  }

  lemma PrivOk(v: Vis, c: Cause)
    requires Running(v) && c in Pending(v, v.cur.value, v.now)
    ensures var h := v.harts[v.cur.value];
      (h.priv == 0 || h.priv == 1 || h.priv == 3) && (c in h.mideleg ==> h.priv != 3)
  {
    assert HartOk(v, v.cur.value);
  }

  lemma {:induction false} FirstInFirst(i: nat, all: set<Cause>, k: Cause)
    requires i <= 6 && k in all && Rank(k) >= i
    ensures FirstIn(PRIORITY[i..], all).Some? && i <= Rank(FirstIn(PRIORITY[i..], all).value) <= Rank(k)
    decreases 6 - i
  {
    assert PRIORITY[i..][0] == PRIORITY[i] && PRIORITY[i..][1..] == PRIORITY[i + 1..];
    if PRIORITY[i] !in all {
      FirstInFirst(i + 1, all, k);
    }
  }

  lemma TrapMasks(h: Hart, c: Cause, all: set<Cause>, count: nat)
    requires c in Candidates(all, h.mideleg) && c in Enabled(h) && all <= Enabled(h)
    ensures Enabled(Trapped(h, true, Number(c), c in h.mideleg, count)) <= Enabled(h) - all
    ensures Trapped(h, true, Number(c), c in h.mideleg, count).mip == h.mip
  {
    var h' := Trapped(h, true, Number(c), c in h.mideleg, count);
    if c in h.mideleg {
      assert all - h.mideleg == {};
      forall k | k in Enabled(h')
        ensures k in Enabled(h) - all
      {
        assert k !in h.mideleg;
        assert k !in all - h.mideleg;
      }
    } else {
      assert Enabled(h') == {};
    }
  }

  lemma TrappedIs(h: Hart, interrupt: bool, code: int, deleg: bool, count: nat)
    requires h.priv == 0 || h.priv == 1 || h.priv == 3
    ensures TookTrap(h, Trapped(h, interrupt, code, deleg, count), Trap(interrupt, code, count, deleg && h.priv != 3))
  {
    hide Enabled;
  }

  lemma ReturnedIs(h: Hart, machine: bool)
    ensures var r := Returned(h, machine);
      r == if machine then h.(mie := h.mpie, mpie := true, priv := h.mpp, mpp := 0, deliv := r.deliv)
           else h.(sie := h.spie, spie := true, priv := h.spp, spp := 0, deliv := r.deliv)
  {
    hide Enabled;
  }

  // A return undoes the trap it returns from: privilege and interrupt enable are as they were, and the stacked ones
  // are left enabled and least privileged.
  lemma ReturnUndoes(h: Hart, interrupt: bool, code: int, deleg: bool, count: nat)
    requires h.priv == 0 || h.priv == 1 || h.priv == 3
    ensures var trap := Trap(interrupt, code, count, deleg && h.priv != 3);
      var r := Returned(Trapped(h, interrupt, code, deleg, count), !trap.toS);
      r == if trap.toS then h.(traps := h.traps + [trap], spie := true, spp := 0, deliv := r.deliv)
           else h.(traps := h.traps + [trap], mpie := true, mpp := 0, deliv := r.deliv)
  {
    var t := Trapped(h, interrupt, code, deleg, count);
    TrappedIs(h, interrupt, code, deleg, count);
    ReturnedIs(t, !(deleg && h.priv != 3));
    hide Trapped, Returned;
  }

  // A software interrupt reaches its hart alone, and with another hart it runs next.
  lemma SoftwareMeaning(v: Vis, op: Op, g: nat)
    requires Running(v) && g < |v.harts| && op.SetMsip?
    ensures var h := v.harts[g];
      && OpV(v, op).harts[g].mip == (if g != op.g then h.mip else if op.set_ then h.mip + {Msi} else h.mip - {Msi})
      && (op.g < |v.harts| ==>
            OpV(v, op).yieldTo == if op.set_ && op.g != v.cur.value then Some(op.g) else v.yieldTo)
  {
  }

  // The PLIC's outputs reach the external bits, the S-level one together with the software bit, and a write to mip the
  // current hart's other bits.
  lemma ExternalMeaning(v: Vis, op: Op, g: nat)
    requires Running(v) && g < |v.harts| && (op.SetPlic? || op.SetMip?)
    ensures var h, h' := v.harts[g], OpV(v, op).harts[g];
      && (Mei in h'.mip <==> h'.plicM) && (Sei in h'.mip <==> h'.plicS || h'.seipSw) && (Msi in h'.mip <==> Msi in h.mip)
      && (op.SetPlic? || g != v.cur.value ==> h'.mip - {Sei, Mei} == h.mip - {Sei, Mei} && h'.seipSw == h.seipSw)
      && (op.SetPlic? ==> (h'.plicM, h'.plicS) == if g == op.g then (op.m, op.s) else (h.plicM, h.plicS))
      && (op.SetMip? && g == v.cur.value ==>
            (Ssi in h'.mip <==> op.ssi) && (Sti in h'.mip <==> op.sti) && h'.seipSw == op.seip)
  {
  }

  lemma TimecmpMeaning(v: Vis, op: Op, g: nat)
    requires Running(v) && g < |v.harts| && op.SetTimecmp?
    ensures OpV(v, op).harts == v.harts && OpV(v, op).cmp[g] == if g == op.g then op.val else v.cmp[g]
  {
  }

  // What a write to the hart's own registers does, as a later read sees it.
  lemma OwnMeaning(v: Vis, op: Op)
    requires Running(v) && Own(op) && !op.Exception? && !op.Return?
    ensures var h, h' := v.harts[v.cur.value], OpV(v, op).harts[v.cur.value];
      && (op.SetEnable? ==> h' == h.(enabled := op.on, deliv := h'.deliv))
      && (op.SetDelegation? ==> h' == h.(mideleg := op.to * {Sei, Ssi, Sti}, deliv := h'.deliv))
      && (op.SetSoftS? ==> h'.mip - {Ssi} == h.mip - {Ssi} && (Ssi in h'.mip <==> if Ssi in h.mideleg then op.soft else Ssi in h.mip))
      && (op.SetStatus? ==> (h'.mie, h'.mpie, h'.sie, h'.spie) == (op.mie, op.mpie, op.sie, op.spie))
      && (op.SetStatus? ==> h'.mpp == (if op.mpp == 1 || op.mpp == 3 then op.mpp else 0) && h'.spp == op.spp % 2)
      && (op.SetStatus? || op.SetSoftS? ==> h'.priv == h.priv && h'.enabled == h.enabled && h'.mideleg == h.mideleg)
      && (op.Local? ==> h' == h.(arch := op.arch, atReset := op.atReset))
  {
  }

  // ---------- The scheduler ----------

  const PLATFORM: set<Cause> := {Msi, Sei, Mei}

  // An interrupt from the platform is pending, enabled or not.
  predicate Wakes(v: Vis, g: nat)
    requires VisOk(v) && g < |v.harts|
  {
    v.harts[g].mip * PLATFORM != {} || TimerDue(v, g, v.now)
  }

  datatype Scan = AfterYield | Free(allowReset: bool) | Woken

  predicate Ready(v: Vis, scan: Scan, g: nat)
    requires VisOk(v) && g < |v.harts|
  {
    match scan
    case AfterYield => !v.harts[g].sleeping || Wakes(v, g)
    case Free(allow) => !v.harts[g].sleeping || (allow && v.harts[g].atReset) || Wakes(v, g)
    case Woken => Wakes(v, g)
  }

  // The first ready hart in round-robin order from start.
  function FindReady(v: Vis, scan: Scan, start: nat, i: nat): (r: Option<nat>)
    requires VisOk(v) && start < |v.harts|
    ensures r.Some? ==> r.value < |v.harts| && Ready(v, scan, r.value)
    decreases |v.harts| - i
  {
    if i >= |v.harts| then None
    else
      var g := (start + i) % |v.harts|;
      if Ready(v, scan, g) then Some(g) else FindReady(v, scan, start, i + 1)
  }

  // Round robin reaches every hart.
  lemma {:induction false} FindReadyComplete(v: Vis, scan: Scan, start: nat, i: nat, g: nat)
    requires VisOk(v) && start < |v.harts| && g < |v.harts| && Ready(v, scan, g)
    requires i <= if g >= start then g - start else g + |v.harts| - start
    ensures FindReady(v, scan, start, i).Some?
    decreases |v.harts| - i
  {
    var k := if g >= start then g - start else g + |v.harts| - start;
    Wraps(start, |v.harts|, g);
    hide Ready, VisOk;
    if i < k && !Ready(v, scan, (start + i) % |v.harts|) {
      FindReadyComplete(v, scan, start, i + 1, g);
    }
  }

  // And it takes the first one: none between start and the hart found is ready. A sleeping hart is ready if a software
  // or external interrupt is pending or its timer is due, enabled or not; and a hart at reset, when a running one yields.
  lemma {:induction false} FindReadyFirst(v: Vis, scan: Scan, start: nat, i: nat) returns (n: nat)
    requires VisOk(v) && start < |v.harts| && FindReady(v, scan, start, i).Some?
    ensures i <= n < |v.harts| && FindReady(v, scan, start, i).value == Turn(v, start, n)
    ensures MayRun(v, scan, Turn(v, start, n)) && forall j :: i <= j < n ==> !MayRun(v, scan, Turn(v, start, j))
    decreases |v.harts| - i
  {
    var g := Turn(v, start, i);
    MayRunIs(v, scan, g);
    hide Ready, MayRun, VisOk;
    n := i;
    if !Ready(v, scan, g) {
      n := FindReadyFirst(v, scan, start, i + 1);
    }
  }

  function Turn(v: Vis, start: nat, j: nat): (g: nat)
    requires |v.harts| > 0
    ensures g < |v.harts|
  {
    (start + j) % |v.harts|
  }

  predicate MayRun(v: Vis, scan: Scan, g: nat)
    requires VisOk(v) && g < |v.harts|
  {
    || Msi in v.harts[g].mip || Sei in v.harts[g].mip || Mei in v.harts[g].mip || v.now / v.tick >= v.cmp[g]
    || (!scan.Woken? && !v.harts[g].sleeping)
    || (scan == Free(true) && v.harts[g].atReset)
  }

  lemma MayRunIs(v: Vis, scan: Scan, g: nat)
    requires VisOk(v) && g < |v.harts|
    ensures MayRun(v, scan, g) <==> Ready(v, scan, g)
  {
    var p := v.harts[g].mip * PLATFORM;
    assert forall c :: c in p <==> c in v.harts[g].mip && (c == Msi || c == Sei || c == Mei);
    assert p == {} <==> Msi !in p && Sei !in p && Mei !in p;
  }

  lemma Wraps(start: nat, n: nat, g: nat)
    requires start < n && g < n
    ensures (start + if g >= start then g - start else g + n - start) % n == g
  {
    if g < start {
      assert (g + n) % n == g;
    }
  }

  function ChosenV(v: Vis, g: nat): Vis
    requires VisOk(v) && g < |v.harts|
  {
    SetHart(v, g, v.harts[g].(sleeping := false)).(cur := Some(g), rr := (g + 1) % |v.harts|)
  }

  // The earliest timer event of harts i and up.
  function FirstEvent(v: Vis, i: nat): (r: nat)
    requires VisOk(v) && i <= |v.harts|
    ensures r <= NEVER && forall g :: i <= g < |v.harts| ==> r <= EventCount(v, g)
    ensures r == NEVER || exists g :: i <= g < |v.harts| && r == EventCount(v, g)
    decreases |v.harts| - i
  {
    if i == |v.harts| then NEVER
    else
      var rest := FirstEvent(v, i + 1);
      if EventCount(v, i) < rest then EventCount(v, i) else if rest < NEVER then rest else NEVER
  }

  // With every hart asleep, virtual time jumps to the first timer event.
  function JumpV(v: Vis): Vis
    requires VisOk(v)
  {
    var next := FirstEvent(v, 0);
    if next != NEVER && next > v.now then v.(now := next) else v
  }

  lemma TimeOk(v: Vis, now: nat)
    requires VisOk(v)
    ensures VisOk(v.(now := now))
  {
    forall g | 0 <= g < |v.harts|
      ensures HartOk(v.(now := now), g)
    {
      assert HartOk(v, g);
    }
  }

  function ChooseV(v: Vis): Option<Vis>
    requires VisOk(v)
  {
    var v1 := v.(yieldTo := None);
    NoYieldOk(v);
    if v.yieldTo.Some? && FindReady(v1, AfterYield, v.yieldTo.value, 0).Some? then
      Some(ChosenV(v1, FindReady(v1, AfterYield, v.yieldTo.value, 0).value))
    else if v.cur.Some? && !v.harts[v.cur.value].sleeping then Some(v1)
    else
      match FindReady(v1, Free(v.cur.Some?), v.rr, 0)
      case Some(g) => Some(ChosenV(v1, g))
      case None =>
        JumpOk(v1);
        match FindReady(JumpV(v1), Woken, v.rr, 0)
        case Some(g) => Some(ChosenV(JumpV(v1), g))
        case None => None
  }

  lemma NoYieldOk(v: Vis)
    requires VisOk(v)
    ensures VisOk(v.(yieldTo := None))
  {
    forall g | 0 <= g < |v.harts|
      ensures HartOk(v.(yieldTo := None), g)
    {
      assert HartOk(v, g);
    }
  }

  lemma JumpOk(v: Vis)
    requires VisOk(v)
    ensures VisOk(JumpV(v)) && JumpV(v).harts == v.harts && JumpV(v).now >= v.now && JumpV(v).cmp == v.cmp
  {
    TimeOk(v, FirstEvent(v, 0));
  }

  lemma ChosenOk(v: Vis, g: nat)
    requires VisOk(v) && g < |v.harts|
    ensures Running(ChosenV(v, g)) && !ChosenV(v, g).harts[g].sleeping
  {
    var h := v.harts[g].(sleeping := false);
    assert HartOk(v, g);
    assert Enabled(h) == Enabled(v.harts[g]);
    SetHartOk(v, g, h);
    forall k | 0 <= k < |v.harts|
      ensures HartOk(ChosenV(v, g), k)
    {
      assert HartOk(SetHart(v, g, h), k);
    }
  }

  // What is chosen is awake.
  lemma ChooseOk(v: Vis)
    requires VisOk(v)
    ensures ChooseV(v).Some? ==> Running(ChooseV(v).value) && !ChooseV(v).value.harts[ChooseV(v).value.cur.value].sleeping
    ensures ChooseV(v).Some? ==> ChooseV(v).value.now >= v.now && ChooseV(v).value.yieldTo == None
  {
    var v1 := v.(yieldTo := None);
    NoYieldOk(v);
    JumpOk(v1);
    forall g | 0 <= g < |v.harts|
      ensures Running(ChosenV(v1, g)) && !ChosenV(v1, g).harts[g].sleeping
      ensures Running(ChosenV(JumpV(v1), g)) && !ChosenV(JumpV(v1), g).harts[g].sleeping
    {
      ChosenOk(v1, g);
      ChosenOk(JumpV(v1), g);
    }
  }

  // Nothing will ever wake hart g.
  predicate Dead(v: Vis, g: nat)
    requires VisOk(v) && g < |v.harts|
  {
    && v.harts[g].sleeping && !Wakes(v, g) && EventCount(v, g) == NEVER
    && !(v.cur.Some? && v.harts[g].atReset)
  }

  lemma WakesIgnoresYield(v: Vis, g: nat)
    requires VisOk(v) && VisOk(v.(yieldTo := None)) && g < |v.harts|
    ensures Wakes(v.(yieldTo := None), g) == Wakes(v, g) && EventCount(v.(yieldTo := None), g) == EventCount(v, g)
  {
  }

  // The scheduler fails only if every hart is dead. While the count fits 64 bits, so does every timer event.
  lemma ChooseFailsExactly(v: Vis)
    requires VisOk(v) && v.now < NEVER
    ensures ChooseV(v).None? <==> forall g :: 0 <= g < |v.harts| ==> Dead(v, g)
  {
    var v1 := v.(yieldTo := None);
    NoYieldOk(v);
    JumpOk(v1);
    if g :| 0 <= g < |v.harts| && !Dead(v, g) {
      WakesIgnoresYield(v, g);
      if !v.harts[g].sleeping || Wakes(v, g) || (v.cur.Some? && v.harts[g].atReset) {
        FindReadyComplete(v1, Free(v.cur.Some?), v.rr, 0, g);
      } else {
        JumpWakes(v1);
      }
    } else {
      forall g | 0 <= g < |v.harts|
        ensures !Ready(v1, AfterYield, g) && !Ready(v1, Free(v.cur.Some?), g) && EventCount(v1, g) == NEVER
      {
        assert Dead(v, g);
        WakesIgnoresYield(v, g);
      }
      assert JumpV(v1) == v1;
      forall g | 0 <= g < |v.harts|
        ensures !Ready(v1, Woken, g)
      {
        assert !Ready(v1, AfterYield, g);
      }
      assert v.cur.Some? ==> Dead(v, v.cur.value);
    }
  }

  // The jump lands on the first timer event, and that timer's hart can run.
  lemma JumpWakes(v: Vis)
    requires VisOk(v) && v.now < NEVER && exists g :: 0 <= g < |v.harts| && EventCount(v, g) != NEVER
    ensures VisOk(JumpV(v)) && FindReady(JumpV(v), Woken, v.rr, 0).Some?
    ensures forall g, c: nat :: 0 <= g < |v.harts| && v.now <= c < JumpV(v).now ==> !TimerDue(v, g, c)
  {
    JumpOk(v);
    var next := FirstEvent(v, 0);
    var e :| 0 <= e < |v.harts| && EventCount(v, e) != NEVER;
    EventBounded(v, e);
    assert next < NEVER;
    var w :| 0 <= w < |v.harts| && next == EventCount(v, w);
    EventCountLeast(v, w, JumpV(v).now);
    assert TimerDue(JumpV(v), w, JumpV(v).now);
    FindReadyComplete(JumpV(v), Woken, v.rr, 0, w);
    forall g, c: nat | 0 <= g < |v.harts| && v.now <= c < JumpV(v).now
      ensures !TimerDue(v, g, c)
    {
      EventCountLeast(v, g, c);
    }
  }

  lemma EventBounded(v: Vis, g: nat)
    requires VisOk(v) && g < |v.harts| && v.now < NEVER
    ensures v.now <= EventCount(v, g) <= NEVER
  {
    if v.cmp[g] <= NEVER / v.tick {
      DivAtLeast(NEVER, v.tick, v.cmp[g]);
      DivAtLeast(v.now, v.tick, v.cmp[g]);
    }
  }

  // ---------- One instruction ----------

  function OpsV(v: Vis, ops: seq<Op>): (r: Vis)
    requires Running(v)
    ensures Running(r)
    decreases |ops|
  {
    if ops == [] then v
    else
      OpOk(v, ops[0]);
      OpsV(OpV(v, ops[0]), ops[1..])
  }

  // The counters, and a yield at the end of a quantum.
  function CountV(v: Vis, kind: Kind): Vis
    requires Running(v)
  {
    if kind.FetchFaulted? then v
    else
      var v' := v.(now := if kind.Faulted? then v.now else v.now + 1, insns := v.insns + 1);
      if |v.harts| > 1 && v.quantum != 0 && v'.insns % v.quantum == 0 then
        v'.(yieldTo := Some((v.cur.value + 1) % |v.harts|))
      else v'
  }

  // A single hart's WFI moves virtual time to its timer.
  function AdvanceV(v: Vis): Vis
    requires Running(v)
  {
    var cur := v.cur.value;
    if v.cmp[cur] == NEVER || TimerDue(v, cur, v.now) then v
    else
      var ticks := if v.cmp[cur] > NEVER / v.tick then NEVER / v.tick else v.cmp[cur];
      if ticks * v.tick > v.now then v.(now := ticks * v.tick) else v
  }

  function SleepV(v: Vis): Vis
    requires Running(v)
  {
    var cur := v.cur.value;
    SetHart(v, cur, v.harts[cur].(sleeping := true))
  }

  // A retired WFI sleeps unless something is deliverable.
  function WaitV(v: Vis): Vis
    requires Running(v)
  {
    if Pending(v, v.cur.value, v.now) != {} then v
    else if |v.harts| == 1 then
      AdvanceOk(v);
      SleepV(AdvanceV(v))
    else SleepV(v)
  }

  function ExecV(prog: Program, v: Vis): Vis
    requires Running(v)
  {
    var i := prog(v);
    var v1 := CountV(OpsV(v, i.ops), i.kind);
    CountOk(OpsV(v, i.ops), i.kind);
    if i.kind.Waited? then WaitV(v1) else v1
  }

  lemma CountOk(v: Vis, kind: Kind)
    requires Running(v)
    ensures Running(CountV(v, kind)) && CountV(v, kind).now >= v.now && CountV(v, kind).cur == v.cur
  {
    forall g | 0 <= g < |v.harts|
      ensures HartOk(CountV(v, kind), g)
    {
      assert HartOk(v, g);
    }
  }

  // The visible count advances for what retires, and the quantum counts what is executed.
  lemma CountMeaning(v: Vis, kind: Kind)
    requires Running(v)
    ensures var r := CountV(v, kind);
      && r.now == v.now + (if kind == Retired || kind == Waited then 1 else 0)
      && r.insns == v.insns + (if kind == FetchFaulted then 0 else 1)
      && r.yieldTo == (if |v.harts| > 1 && v.quantum > 0 && kind != FetchFaulted && (v.insns + 1) % v.quantum == 0
                       then Some((v.cur.value + 1) % |v.harts|) else v.yieldTo)
      && r == v.(now := r.now, insns := r.insns, yieldTo := r.yieldTo)
  {
  }

  // A lone hart's WFI moves time to the first count at which its timer is due, if there is one.
  lemma AdvanceMeaning(v: Vis)
    requires Running(v) && v.now < NEVER
    ensures var cur, now := v.cur.value, AdvanceV(v).now;
      && (forall c: nat :: v.now <= c < now ==> c / v.tick < v.cmp[cur])
      && (now == v.now || now / v.tick >= v.cmp[cur] || v.cmp[cur] > NEVER / v.tick)
      && (v.cmp[cur] < NEVER && v.cmp[cur] <= NEVER / v.tick ==> now / v.tick >= v.cmp[cur])
      && AdvanceV(v) == v.(now := now)
  {
    var cur, now := v.cur.value, AdvanceV(v).now;
    forall c: nat ensures (c / v.tick >= v.cmp[cur] <==> c >= v.cmp[cur] * v.tick) {
      DivAtLeast(c, v.tick, v.cmp[cur]);
    }
    if v.cmp[cur] > NEVER / v.tick {
      DivAtLeast(NEVER, v.tick, v.cmp[cur]);
      forall c: nat | v.now <= c < now ensures c / v.tick < v.cmp[cur] {
        TicksBound(c, v.tick, NEVER / v.tick);
      }
    }
  }

  lemma TicksBound(c: nat, t: nat, m: nat)
    requires t > 0 && c < m * t
    ensures c / t < m
  {
    DivAtLeast(c, t, m);
  }

  lemma AdvanceOk(v: Vis)
    requires Running(v)
    ensures Running(AdvanceV(v)) && AdvanceV(v).now >= v.now && AdvanceV(v).cur == v.cur
  {
    TimeOk(v, AdvanceV(v).now);
  }

  lemma SleepOk(v: Vis)
    requires Running(v)
    ensures Running(SleepV(v)) && SleepV(v).now == v.now
  {
    var cur := v.cur.value;
    var h := v.harts[cur].(sleeping := true);
    assert HartOk(v, cur);
    assert Enabled(h) == Enabled(v.harts[cur]);
    SetHartOk(v, cur, h);
  }

  lemma OpTime(v: Vis, op: Op)
    requires Running(v)
    ensures OpV(v, op).now == v.now && OpV(v, op).cur == v.cur && |OpV(v, op).harts| == |v.harts|
  {
    hide OwnOp, PlicHart;
  }

  lemma {:induction false} OpsTime(v: Vis, ops: seq<Op>)
    requires Running(v)
    ensures OpsV(v, ops).now == v.now && OpsV(v, ops).cur == v.cur && |OpsV(v, ops).harts| == |v.harts|
    decreases |ops|
  {
    if ops != [] {
      OpOk(v, ops[0]);
      OpTime(v, ops[0]);
      OpsTime(OpV(v, ops[0]), ops[1..]);
    }
  }

  lemma ExecOk(prog: Program, v: Vis)
    requires Running(v)
    ensures Running(ExecV(prog, v)) && ExecV(prog, v).now >= v.now
  {
    var i := prog(v);
    OpsTime(v, i.ops);
    CountOk(OpsV(v, i.ops), i.kind);
    var v1 := CountV(OpsV(v, i.ops), i.kind);
    if i.kind.Waited? {
      AdvanceOk(v1);
      SleepOk(v1);
      SleepOk(AdvanceV(v1));
    }
  }

  // The reference: choose a hart, check its interrupts, execute one instruction. No result if every hart is dead.
  function StepV(prog: Program, v: Vis): (r: Option<Vis>)
    requires VisOk(v)
    ensures r.Some? ==> Running(r.value) && r.value.now >= v.now
  {
    ChooseOk(v);
    match ChooseV(v)
    case None => None
    case Some(v1) =>
      CheckedClear(v1);
      ExecOk(prog, CheckV(v1));
      Some(ExecV(prog, CheckV(v1)))
  }

  function Eager(prog: Program, v: Vis, n: nat): (r: Option<Vis>)
    requires VisOk(v)
    ensures r.Some? ==> VisOk(r.value) && r.value.now >= v.now
  {
    if n == 0 then Some(v)
    else
      match Eager(prog, v, n - 1)
      case None => None
      case Some(v') => StepV(prog, v')
  }

  // ---------- The cached checks stay exact ----------

  // A hart is checked as soon as it runs, as after reset, or its cached count is exact.
  ghost predicate Armed(v: Vis, g: nat, next: nat)
    requires VisOk(v) && g < |v.harts|
  {
    next <= v.now || Exact(v, g, next)
  }

  ghost predicate ArmedAll(v: Vis, next: seq<nat>) {
    && VisOk(v) && |next| == |v.harts|
    && forall g :: 0 <= g < |v.harts| ==> Armed(v, g, next[g])
  }

  // next' is next with some harts rescheduled in v'; the others' interrupt state did not change.
  predicate Rescheduled(v: Vis, v': Vis, next: seq<nat>, next': seq<nat>)
    requires VisOk(v) && VisOk(v')
  {
    && |v'.harts| == |v.harts| == |next| == |next'|
    && forall g :: 0 <= g < |v.harts| ==> next'[g] == NextCheck(v', g) || (next'[g] == next[g] && SameIrq(v, v', g))
  }

  lemma RescheduledExact(v: Vis, v': Vis, next: seq<nat>, next': seq<nat>)
    requires VisOk(v) && VisOk(v') && Rescheduled(v, v', next, next') && ArmedAll(v, next) && v'.now >= v.now
    ensures ArmedAll(v', next')
    ensures forall g :: 0 <= g < |v.harts| && Exact(v, g, next[g]) ==> Exact(v', g, next'[g])
  {
    forall g | 0 <= g < |v'.harts|
      ensures Armed(v', g, next'[g]) && (Exact(v, g, next[g]) ==> Exact(v', g, next'[g]))
    {
      assert Armed(v, g, next[g]);
      if next'[g] == NextCheck(v', g) {
        NextCheckExact(v', g);
      } else if Exact(v, g, next[g]) {
        SameIrqExact(v, v', g, next[g]);
      }
    }
  }

  // While the count is below the cached one there is nothing to deliver, so checking would do nothing.
  lemma CheckIsIdle(v: Vis, next: seq<nat>)
    requires Running(v) && ArmedAll(v, next) && v.now < next[v.cur.value] && v.now < NEVER
    ensures CheckV(v) == v && Exact(v, v.cur.value, next[v.cur.value])
  {
    assert Armed(v, v.cur.value, next[v.cur.value]);
  }

  ghost predicate CurrentExact(v: Vis, next: seq<nat>) {
    ArmedAll(v, next) && v.cur.Some? && Exact(v, v.cur.value, next[v.cur.value])
  }

  lemma NextAhead(v: Vis, next: seq<nat>)
    requires CurrentExact(v, next) && v.now < NEVER
    ensures v.now < next[v.cur.value] <==> Pending(v, v.cur.value, v.now) == {}
  {
  }

  // The current hart goes on, unchecked.
  lemma StepGoesOn(prog: Program, v: Vis, next: seq<nat>)
    requires Running(v) && ArmedAll(v, next) && v.now < next[v.cur.value] && v.now < NEVER
    requires v.yieldTo == None && !v.harts[v.cur.value].sleeping
    ensures ChooseV(v) == Some(v) && CheckV(v) == v && StepV(prog, v) == Some(ExecV(prog, v))
  {
    CheckIsIdle(v, next);
    assert v.(yieldTo := None) == v;
  }

  lemma SameExact(v: Vis, v': Vis, next: seq<nat>)
    requires ArmedAll(v, next) && VisOk(v') && |v'.harts| == |v.harts|
    requires forall g :: 0 <= g < |v.harts| ==> SameIrq(v, v', g)
    ensures ArmedAll(v', next)
    ensures v'.cur == v.cur && CurrentExact(v, next) ==> CurrentExact(v', next)
  {
    assert SameIrq(v, v', 0);
    RescheduledExact(v, v', next, next);
  }

  lemma RescheduleExact(v: Vis, next: seq<nat>, g: nat)
    requires ArmedAll(v, next) && g < |v.harts|
    ensures ArmedAll(v, next[g := NextCheck(v, g)])
  {
    RescheduledExact(v, v, next, next[g := NextCheck(v, g)]);
  }

  lemma ChosenExact(v: Vis, next: seq<nat>, g: nat)
    requires ArmedAll(v, next) && g < |v.harts|
    ensures ArmedAll(ChosenV(v, g), next)
  {
    ChosenOk(v, g);
    SameExact(v, ChosenV(v, g), next);
  }

  lemma NoYieldExact(v: Vis, next: seq<nat>)
    requires ArmedAll(v, next)
    ensures ArmedAll(v.(yieldTo := None), next) && VisOk(v.(yieldTo := None))
  {
    NoYieldOk(v);
    SameExact(v, v.(yieldTo := None), next);
  }

  lemma JumpExact(v: Vis, next: seq<nat>)
    requires ArmedAll(v, next)
    ensures VisOk(v) && VisOk(JumpV(v)) && ArmedAll(JumpV(v), next) && |JumpV(v).harts| == |v.harts|
  {
    JumpOk(v);
    SameExact(v, JumpV(v), next);
  }

  // ---------- The imperative system ----------

  class Board {
    var v: Vis
    const next: array<nat>
    var left: nat

    // At reset nothing is cached: each hart's first slice starts with a check.
    constructor (v: Vis)
      requires VisOk(v)
      ensures Consistent() && this.v == v && fresh(next)
    {
      this.v := v;
      next := new nat[|v.harts|](_ => 0);
      left := 0;
    }

    predicate Valid()
      reads this, next
    {
      VisOk(v) && next.Length == |v.harts|
    }

    ghost predicate Consistent()
      reads this, next
    {
      Valid() && ArmedAll(v, next[..])
    }

    method Reschedule(g: nat)
      requires Valid() && g < |v.harts|
      modifies next, this`left
      ensures next[..] == old(next[..])[g := NextCheck(v, g)]
      ensures left == if v.cur == Some(g) then 0 else old(left)
    {
      var h := v.harts[g];
      var count := NEVER;
      if h.mip * h.deliv != {} {
        count := v.now;
      } else if Mti in h.deliv {
        var due := EventCount(v, g);
        if due < count {
          count := due;
        }
      }
      next[g] := count;
      if v.cur == Some(g) {
        left := 0;
      }
    }

    // Moves the PLIC's outputs into every hart's mip, rescheduling those that changed.
    method PlicUpdate()
      requires Valid()
      modifies this`v, next, this`left
      ensures v == PlicAll(old(v)) && Valid()
      ensures Rescheduled(old(v), v, old(next[..]), next[..])
      ensures left == 0 || left == old(left)
    {
      ghost var was := v;
      ghost var target := PlicAll(v);
      PlicAllOk(v);
      for g := 0 to |v.harts|
        invariant VisOk(v) && |v.harts| == |was.harts| == next.Length
        invariant v == was.(harts := v.harts)
        invariant forall k :: 0 <= k < g ==> v.harts[k] == target.harts[k]
        invariant forall k :: g <= k < |was.harts| ==> v.harts[k] == was.harts[k]
        invariant forall k :: g <= k < |was.harts| ==> next[k] == old(next[k])
        invariant forall k :: 0 <= k < g ==> next[k] == NextCheck(target, k) || (next[k] == old(next[k]) && SameIrq(was, target, k))
        invariant left == 0 || left == old(left)
      {
        var h := v.harts[g];
        var h' := PlicHart(h);
        assert HartOk(v, g);
        PlicHartOk(h);
        SetHartOk(v, g, h');
        v := SetHart(v, g, h');
        if h'.mip != h.mip {
          Reschedule(g);
          NextCheckLocal(v, target, g);
        }
      }
      assert v.harts == target.harts;
    }

    // What one operation of the current hart does.
    method Do(op: Op)
      requires Valid() && v.cur.Some?
      modifies this`v, next, this`left
      ensures v == OpV(old(v), op) && Valid() && v.cur == old(v).cur
      ensures Rescheduled(old(v), v, old(next[..]), next[..])
      ensures if op.Local? then left == old(left) && next[..] == old(next[..]) else left == 0
    {
      ghost var was := v;
      OpOk(v, op);
      OpTime(v, op);
      var cur := v.cur.value;
      if Own(op) {
        v := SetHart(v, cur, OwnOp(v.harts[cur], op, v.now));
        if !op.Local? {
          Reschedule(cur);
        }
      } else {
        match op {
          case SetMip(_, _, _) => DoMip(op);
          case SetTimecmp(g, val) =>
            if g < |v.harts| {
              v := v.(cmp := v.cmp[g := val]);
              Reschedule(g);
            }
          case SetMsip(g, on) =>
            if g < |v.harts| {
              v := MsipV(v, cur, g, on);
              Reschedule(g);
            }
          case SetPlic(g, m, s) => DoPlic(g, m, s);
          case Device =>
          case Yield(to) =>
            if |v.harts| > 1 {
              v := v.(yieldTo := Some(to % |v.harts|));
            }
        }
        left := 0;
      }
    }

    method DoMip(op: Op)
      requires Valid() && v.cur.Some? && op.SetMip?
      modifies this`v, next, this`left
      ensures v == OpV(old(v), op) && Valid()
      ensures Rescheduled(old(v), v, old(next[..]), next[..])
    {
      var cur := v.cur.value;
      var h := v.harts[cur];
      var h' := h.(mip := Bit(op.ssi, Ssi, Bit(op.sti, Sti, h.mip)), seipSw := op.seip);
      assert HartOk(v, cur);
      assert Enabled(h') == Enabled(h);
      SetHartOk(v, cur, h');
      v := SetHart(v, cur, h');
      PlicUpdate();
      Reschedule(cur);
    }

    method DoPlic(g: nat, m: bool, s: bool)
      requires Valid() && v.cur.Some?
      modifies this`v, next, this`left
      ensures v == OpV(old(v), SetPlic(g, m, s)) && Valid()
      ensures Rescheduled(old(v), v, old(next[..]), next[..])
    {
      if g < |v.harts| {
        var h' := v.harts[g].(plicM := m, plicS := s);
        assert HartOk(v, g);
        assert Enabled(h') == Enabled(v.harts[g]);
        SetHartOk(v, g, h');
        v := SetHart(v, g, h');
      }
      PlicUpdate();
    }

    // Takes the deliverable interrupt of the highest priority, if any.
    method CheckInterrupts()
      requires Valid() && v.cur.Some?
      modifies this`v, next, this`left
      ensures v == CheckV(old(v)) && Valid() && v.cur == old(v).cur
      ensures forall mip, mie, mideleg :: Words(old(v), mip, mie, mideleg) ==> Looked(old(v), v, mip, mie, mideleg)
      ensures next[..] == old(next[..])[v.cur.value := NextCheck(v, v.cur.value)]
    {
      var cur := v.cur.value;
      var h := v.harts[cur];
      CheckedClear(v);
      forall mip, mie, mideleg | Words(v, mip, mie, mideleg) ensures Looked(v, CheckV(v), mip, mie, mideleg) {
        CheckTakesFirst(v, mip, mie, mideleg);
      }
      hide Words, Looked;
      if h.deliv != {} {
        var all := Pending(v, cur, v.now);
        if all != {} {
          var c := FirstIn(PRIORITY, Candidates(all, h.mideleg));
          if c.Some? {
            v := SetHart(v, cur, Trapped(h, true, Number(c.value), c.value in h.mideleg, v.now));
          }
        }
      }
      Reschedule(cur);
    }

    // Looks for a hart that can run. Asking whether a hart wakes reschedules it.
    method Find(scan: Scan, start: nat) returns (r: Option<nat>)
      requires Consistent() && start < |v.harts|
      modifies next, this`left
      ensures r == FindReady(v, scan, start, 0) && Consistent()
    {
      hide NextCheck, ArmedAll, VisOk;
      var i := 0;
      while i < |v.harts|
        invariant Consistent() && 0 <= i <= |v.harts|
        invariant FindReady(v, scan, start, i) == FindReady(v, scan, start, 0)
      {
        var g := (start + i) % |v.harts|;
        if !v.harts[g].sleeping && !scan.Woken? {
          return Some(g);
        }
        if scan.Free? && scan.allowReset && v.harts[g].atReset {
          return Some(g);
        }
        RescheduleExact(v, next[..], g);
        Reschedule(g);
        if Wakes(v, g) {
          return Some(g);
        }
        i := i + 1;
      }
      return None;
    }

    method Choose(g: nat)
      requires Consistent() && g < |v.harts|
      modifies this`v
      ensures v == ChosenV(old(v), g) && Consistent() && v.cur.Some? && v.now == old(v).now
    {
      ChosenOk(v, g);
      ChosenExact(v, next[..], g);
      hide ArmedAll;
      v := v.(harts := v.harts[g := v.harts[g].(sleeping := false)], cur := Some(g), rr := (g + 1) % |v.harts|);
    }

    // Picks the hart to run. With all asleep, time jumps to the first timer event.
    method ChooseHart() returns (ok: bool)
      requires Consistent()
      modifies this`v, next, this`left
      ensures Consistent() && ok == ChooseV(old(v)).Some? && v.now >= old(v).now
      ensures ok ==> v == ChooseV(old(v)).value
    {
      hide FindReady, ArmedAll, HartOk, ChosenV, JumpV;
      NoYieldExact(v, next[..]);
      JumpExact(v.(yieldTo := None), next[..]);
      var start := v.yieldTo;
      v := v.(yieldTo := None);
      if start.Some? {
        var y := Find(AfterYield, start.value);
        if y.Some? {
          Choose(y.value);
          return true;
        }
      }
      if v.cur.Some? && !v.harts[v.cur.value].sleeping {
        return true;
      }
      var f := Find(Free(v.cur.Some?), v.rr);
      if f.Some? {
        Choose(f.value);
        return true;
      }
      ok := ChooseLater();
    }

    method ChooseLater() returns (ok: bool)
      requires Consistent()
      modifies this`v, next, this`left
      ensures VisOk(JumpV(old(v))) && |JumpV(old(v)).harts| == |old(v).harts|
      ensures Consistent() && ok == FindReady(JumpV(old(v)), Woken, old(v).rr, 0).Some? && v.now >= old(v).now
      ensures ok ==> v == ChosenV(JumpV(old(v)), FindReady(JumpV(old(v)), Woken, old(v).rr, 0).value)
    {
      Jump();
      hide FindReady, ArmedAll, HartOk, ChosenV, JumpV;
      var w := Find(Woken, v.rr);
      ok := w.Some?;
      if ok {
        Choose(w.value);
      }
    }

    method Jump()
      requires Consistent()
      modifies this`v
      ensures v == JumpV(old(v)) && Consistent() && |v.harts| == |old(v).harts| && v.rr == old(v).rr && v.now >= old(v).now
    {
      hide ArmedAll, HartOk, FirstEvent;
      JumpExact(v, next[..]);
      var first := MinEvent();
      if first != NEVER && first > v.now {
        v := v.(now := first);
      }
    }

    method MinEvent() returns (r: nat)
      requires Valid()
      ensures r == FirstEvent(v, 0)
    {
      hide EventCount, HartOk;
      r := NEVER;
      for g := 0 to |v.harts|
        invariant r <= NEVER && forall k :: 0 <= k < g ==> r <= EventCount(v, k)
        invariant r == NEVER || exists k :: 0 <= k < g && r == EventCount(v, k)
      {
        var count := EventCount(v, g);
        if count < r {
          r := count;
        }
      }
    }

    // Runs the operations of one instruction. Only register and memory effects let the slice go on.
    method Operate(ops: seq<Op>)
      requires Consistent() && CurrentExact(v, next[..])
      modifies this`v, next, this`left
      ensures v == OpsV(old(v), ops) && Consistent() && CurrentExact(v, next[..])
      ensures left == 0 || (left == old(left) && next[..] == old(next[..]) && GoesOn(old(v), v))
    {
      hide ArmedAll, OpV, VisOk, Rescheduled;
      ghost var was := v;
      CurrentIn(v);
      assert ops[0..] == ops;
      for i := 0 to |ops|
        invariant Consistent() && CurrentExact(v, next[..]) && v.cur.Some? && OpsV(v, ops[i..]) == OpsV(was, ops)
        invariant left == 0 || (left == old(left) && next[..] == old(next[..]) && GoesOn(was, v))
      {
        ghost var before, cached := v, next[..];
        OpsStep(v, ops, i);
        LocalGoesOn(v, ops[i]);
        OpTime(v, ops[i]);
        CurrentIn(v);
        Do(ops[i]);
        RescheduledExact(before, v, cached, next[..]);
      }
      assert ops[|ops|..] == [];
    }

    // One instruction: its operations, the counters, and the sleep of a WFI.
    method Execute(prog: Program)
      requires Consistent() && CurrentExact(v, next[..])
      modifies this`v, next, this`left
      ensures Consistent() && CurrentExact(v, next[..]) && v.now >= old(v).now && v.cur.Some?
      ensures v.now < NEVER ==> v == ExecV(prog, old(v))
      ensures left == 0 || (left == old(left) && next[..] == old(next[..]) && GoesOn(old(v), v) && v.now == old(v).now + 1)
    {
      hide ArmedAll, OpsV, VisOk, WaitV;
      var i := prog(v);
      OpsTime(v, i.ops);
      Operate(i.ops);
      Count(i.kind);
      if i.kind.Waited? {
        Wait();
      }
    }

    method Count(kind: Kind)
      requires Consistent() && CurrentExact(v, next[..])
      modifies this`v, this`left
      ensures v == CountV(old(v), kind) && Consistent() && CurrentExact(v, next[..]) && v.now >= old(v).now && v.cur == old(v).cur
      ensures left == 0 || (left == old(left) && kind.Retired? && GoesOn(old(v), v) && v.now == old(v).now + 1)
    {
      CountExact(v, kind, next[..]);
      hide ArmedAll, VisOk;
      if !kind.FetchFaulted? {
        var insns := v.insns + 1;
        v := v.(now := if kind.Faulted? then v.now else v.now + 1, insns := insns);
        if |v.harts| > 1 && v.quantum != 0 && insns % v.quantum == 0 {
          v := v.(yieldTo := Some((v.cur.value + 1) % |v.harts|));
          left := 0;
        }
      }
      if !kind.Retired? {
        left := 0;
      }
    }

    // A WFI retired. With nothing deliverable the hart sleeps; a lone hart first moves time to its timer.
    method Wait()
      requires Consistent() && CurrentExact(v, next[..])
      modifies this`v
      ensures Consistent() && CurrentExact(v, next[..]) && v.now >= old(v).now && v.cur == old(v).cur
      ensures v.now < NEVER ==> v == WaitV(old(v))
    {
      WaitExact(v, next[..]);
      if v.now < NEVER {
        NextAhead(v, next[..]);
      }
      hide ArmedAll, Pending, VisOk, AdvanceV, SleepV;
      if next[v.cur.value] <= v.now {
        return;
      }
      if |v.harts| == 1 {
        v := AdvanceV(v);
      }
      v := SleepV(v);
    }

    // Looks at the interrupts only when the count has reached the cached check.
    method CheckDue()
      requires Consistent() && v.cur.Some?
      modifies this`v, next, this`left
      ensures Consistent() && v.cur == old(v).cur && v.now == old(v).now && v.yieldTo == old(v).yieldTo
      ensures v.harts[v.cur.value].sleeping == old(v.harts[v.cur.value].sleeping)
      ensures v.now < NEVER ==> v == CheckV(old(v)) && v.now < next[v.cur.value]
      ensures CurrentExact(v, next[..])
    {
      hide ArmedAll, VisOk, CheckV;
      ghost var was, cached := v, next[..];
      CurrentIn(v);
      CheckKeeps(v);
      if v.now >= next[v.cur.value] {
        CheckInterrupts();
        CheckExact(was, cached);
      } else if v.now < NEVER {
        CheckIsIdle(v, next[..]);
      }
      if v.now < NEVER {
        CheckedClear(was);
        NextAhead(v, next[..]);
      }
    }

    // A slice: choose a hart, check its interrupts if they are due, then run without looking at them. It is n turns of
    // the reference, which looks before every instruction.
    method RunSlice(prog: Program, budget: nat) returns (ok: bool, ghost n: nat)
      requires Consistent() && budget > 0
      modifies this`v, next, this`left
      ensures Consistent() && v.now >= old(v).now
      ensures ok ==> n >= 1 && (v.now < NEVER ==> Eager(prog, old(v), n) == Some(v))
      ensures !ok ==> ChooseV(old(v)) == None
    {
      hide ArmedAll, VisOk, ChooseV, CheckV, ExecV;
      ghost var was := v;
      n := 0;
      ChooseOk(v);
      ok := ChooseHart();
      if !ok {
        return;
      }
      CurrentIn(v);
      CheckDue();
      CurrentIn(v);
      if next[v.cur.value] <= v.now {
        left := 1;
      } else {
        left := next[v.cur.value] - v.now;
        if budget < left {
          left := budget;
        }
      }
      while left > 0
        invariant Consistent() && CurrentExact(v, next[..]) && v.now >= was.now && (left == 0 ==> n >= 1)
        invariant v.cur.value < next.Length
        invariant v.now < NEVER && left > 0 ==> AboutTo(prog, was, n, v)
        invariant v.now < NEVER && left == 0 ==> Eager(prog, was, n) == Some(v)
        invariant v.now < NEVER && left > 0 ==> Unchecked(v, next[v.cur.value], left)
        decreases left
      {
        left := left - 1;
        Execute(prog);
        n := n + 1;
        CurrentIn(v);
        if v.now < NEVER && left > 0 {
          StepGoesOn(prog, v, next[..]);
        }
      }
    }

    // Any number of slices, up to max instructions in all.
    method Run(prog: Program, max: nat, slices: nat) returns (ok: bool, ghost n: nat)
      requires Consistent()
      modifies this`v, next, this`left
      ensures Consistent() && v.now >= old(v).now
      ensures v.now < NEVER ==> Eager(prog, old(v), n) == Some(v) || (!ok && Eager(prog, old(v), n) == None)
    {
      hide ArmedAll, VisOk, StepV;
      ghost var was := v;
      ok, n := true, 0;
      var k := 0;
      while k < slices && v.insns < max
        invariant Consistent() && v.now >= was.now
        invariant v.now < NEVER ==> Eager(prog, was, n) == Some(v)
      {
        ghost var from := v;
        ghost var m;
        ok, m := RunSlice(prog, max - v.insns);
        if !ok {
          NoStep(prog, from);
          n := n + 1;
          return;
        }
        EagerAdds(prog, was, n, m);
        n := n + m;
        k := k + 1;
      }
    }
  }

  // v is what the reference has after choosing and checking for its turn n.
  ghost predicate AboutTo(prog: Program, was: Vis, n: nat, v: Vis)
    requires VisOk(was)
  {
    var e := Eager(prog, was, n);
    e.Some? && ChooseV(e.value).Some? && Running(ChooseV(e.value).value) && v == CheckV(ChooseV(e.value).value)
  }

  // The rest of the slice lies before the cached check.
  predicate Unchecked(v: Vis, next: nat, left: nat) {
    && v.now + left <= next && v.yieldTo == None
    && v.cur.Some? && v.cur.value < |v.harts| && !v.harts[v.cur.value].sleeping
  }

  lemma {:induction false} EagerAdds(prog: Program, v: Vis, n: nat, m: nat)
    requires VisOk(v)
    ensures Eager(prog, v, n).Some? ==> Eager(prog, v, n + m) == Eager(prog, Eager(prog, v, n).value, m)
  {
    hide StepV, VisOk;
    if m > 0 {
      EagerAdds(prog, v, n, m - 1);
    }
  }

  lemma NoStep(prog: Program, v: Vis)
    requires VisOk(v) && ChooseV(v) == None
    ensures StepV(prog, v) == None
  {
  }

  lemma CheckKeeps(v: Vis)
    requires Running(v)
    ensures Running(CheckV(v)) && CheckV(v).now == v.now && CheckV(v).yieldTo == v.yieldTo && CheckV(v).cur == v.cur
    ensures |CheckV(v).harts| == |v.harts|
    ensures CheckV(v).harts[v.cur.value].sleeping == v.harts[v.cur.value].sleeping
  {
    CheckedClear(v);
    hide FirstIn, Candidates, Trapped, Running, HartOk;
    forall c, d
      ensures Trapped(v.harts[v.cur.value], true, c, d, v.now).sleeping == v.harts[v.cur.value].sleeping
    {
      TrappedKeeps(v.harts[v.cur.value], c, d, v.now);
    }
  }

  lemma TrappedKeeps(h: Hart, code: int, deleg: bool, count: nat)
    ensures Trapped(h, true, code, deleg, count).sleeping == h.sleeping
  {
  }

  lemma CurrentIn(v: Vis)
    requires Running(v)
    ensures v.cur.value < |v.harts|
  {
  }

  lemma CheckExact(v: Vis, next: seq<nat>)
    requires Running(v) && ArmedAll(v, next)
    ensures Running(CheckV(v)) && CurrentExact(CheckV(v), next[v.cur.value := NextCheck(CheckV(v), v.cur.value)])
  {
    CheckedClear(v);
    CheckElsewhere(v);
    NextCheckExact(CheckV(v), v.cur.value);
    RescheduledExact(v, CheckV(v), next, next[v.cur.value := NextCheck(CheckV(v), v.cur.value)]);
  }

  lemma CheckElsewhere(v: Vis)
    requires Running(v)
    ensures |CheckV(v).harts| == |v.harts| && CheckV(v).cmp == v.cmp
    ensures forall g :: 0 <= g < |v.harts| && g != v.cur.value ==> SameIrq(v, CheckV(v), g)
  {
    hide FirstIn, Candidates, Trapped, HartOk;
  }

  lemma OpsStep(v: Vis, ops: seq<Op>, i: nat)
    requires Running(v) && i < |ops|
    ensures Running(OpV(v, ops[i])) && OpsV(v, ops[i..]) == OpsV(OpV(v, ops[i]), ops[i + 1..])
  {
    OpOk(v, ops[i]);
    assert ops[i..][1..] == ops[i + 1..];
  }

  lemma LocalGoesOn(v: Vis, op: Op)
    requires Running(v)
    ensures op.Local? ==> GoesOn(v, OpV(v, op))
  {
  }

  lemma CountExact(v: Vis, kind: Kind, next: seq<nat>)
    requires Running(v) && ArmedAll(v, next)
    ensures Running(CountV(v, kind)) && ArmedAll(CountV(v, kind), next)
    ensures CurrentExact(v, next) ==> CurrentExact(CountV(v, kind), next)
  {
    CountOk(v, kind);
    SameExact(v, CountV(v, kind), next);
  }

  lemma WaitExact(v: Vis, next: seq<nat>)
    requires Running(v) && ArmedAll(v, next)
    ensures Running(AdvanceV(v)) && Running(SleepV(v)) && Running(SleepV(AdvanceV(v)))
    ensures ArmedAll(SleepV(v), next) && ArmedAll(SleepV(AdvanceV(v)), next)
    ensures CurrentExact(v, next) ==> CurrentExact(SleepV(v), next) && CurrentExact(SleepV(AdvanceV(v)), next)
    ensures SleepV(v).now == v.now && SleepV(AdvanceV(v)).now >= v.now && |AdvanceV(v).harts| == |v.harts|
    ensures SleepV(v).cur == v.cur && SleepV(AdvanceV(v)).cur == v.cur
  {
    AdvanceOk(v);
    SleepOk(v);
    SleepOk(AdvanceV(v));
    SameExact(v, SleepV(v), next);
    SameExact(v, SleepV(AdvanceV(v)), next);
  }

  // From v the same hart goes on, awake and with no yield asked for.
  predicate GoesOn(v: Vis, v': Vis) {
    && v.cur.Some? && v'.cur == v.cur && v'.yieldTo == v.yieldTo
    && v.cur.value < |v.harts| == |v'.harts|
    && v'.harts[v.cur.value].sleeping == v.harts[v.cur.value].sleeping
  }

  lemma NextCheckLocal(v: Vis, v': Vis, g: nat)
    requires VisOk(v) && VisOk(v') && g < |v.harts| && g < |v'.harts|
    requires v'.harts[g] == v.harts[g] && v'.cmp == v.cmp && v'.tick == v.tick && v'.now == v.now
    ensures NextCheck(v', g) == NextCheck(v, g)
  {
  }
}
