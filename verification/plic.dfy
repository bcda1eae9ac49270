// The platform-level interrupt controller (src/rv64_system.cpp).
//
// The bit masks of the source are sets of interrupt sources. Contexts 2h and 2h + 1 are hart h's M- and S-mode.
module Plic {
  const NDEV := 53
  const SOURCES := 64

  datatype Regs = Regs(priority: seq<nat>, pending: set<nat>, level: set<nat>, claimed: set<nat>,
                       enable: seq<set<nat>>, threshold: seq<nat>, software: seq<bool>)

  predicate RegsOk(p: Regs) {
    |p.priority| == SOURCES && |p.enable| == |p.threshold| == 2 * |p.software|
  }

  // The source may interrupt the context: pending, enabled, not in service, and above the threshold.
  predicate Eligible(p: Regs, ctx: nat, s: nat)
    requires RegsOk(p) && ctx < |p.enable|
  {
    && 1 <= s <= NDEV && s in p.pending && s in p.enable[ctx] && s !in p.claimed
    && p.priority[s] > p.threshold[ctx]
  }

  predicate AnyEligible(p: Regs, ctx: nat)
    requires RegsOk(p) && ctx < |p.enable|
  {
    exists s :: 1 <= s <= NDEV && Eligible(p, ctx, s)
  }

  // MEIP says that an M-mode source is eligible, SEIP that an S-mode one is or that software set it.
  predicate Drives(p: Regs, h: nat, meip: bool, seip: bool)
    requires RegsOk(p) && h < |p.software|
  {
    && (meip <==> AnyEligible(p, 2 * h))
    && (seip <==> p.software[h] || AnyEligible(p, 2 * h + 1))
  }

  // s goes before t: a higher priority, or the same and a lower id.
  predicate Before(p: Regs, s: nat, t: nat)
    requires RegsOk(p) && s < SOURCES && t < SOURCES
  {
    p.priority[s] > p.priority[t] || (p.priority[s] == p.priority[t] && s <= t)
  }

  // 0 if no source is eligible, else the eligible one that goes before all the others.
  predicate IsBest(p: Regs, ctx: nat, s: nat)
    requires RegsOk(p) && ctx < |p.enable|
  {
    if s == 0 then forall t :: 1 <= t <= NDEV ==> !Eligible(p, ctx, t)
    else Eligible(p, ctx, s) && forall t :: 1 <= t <= NDEV && Eligible(p, ctx, t) ==> Before(p, s, t)
  }

  lemma BestUnique(p: Regs, ctx: nat, s: nat, t: nat)
    requires RegsOk(p) && ctx < |p.enable| && IsBest(p, ctx, s) && IsBest(p, ctx, t)
    ensures s == t
  {
    if s != 0 && t != 0 {
      assert Before(p, s, t) && Before(p, t, s);
    }
  }

  lemma BestTells(p: Regs, ctx: nat, s: nat)
    requires RegsOk(p) && ctx < |p.enable| && IsBest(p, ctx, s)
    ensures AnyEligible(p, ctx) <==> s != 0
  {
  }

  // ---------- Operations ----------

  datatype Event =
    | SetIrq(s: nat, on: bool)
    | Claim(ctx: nat, got: nat)            // a read of the claim register that returned got
    | Complete(s: nat)
    | SetPriority(s: nat, val: nat)
    | SetEnable(ctx: nat, word: nat, bits: set<nat>)
    | SetThreshold(ctx: nat, val: nat)
    | SetSoftware(h: nat, on: bool)        // the software bit of a hart's mip.SEIP

  predicate InWord(s: nat, word: nat) {
    s / 32 == word
  }

  predicate EventOk(p: Regs, ev: Event)
    requires RegsOk(p)
  {
    match ev
    case SetIrq(s, _) => s < SOURCES
    case Claim(ctx, got) => ctx < |p.enable| && IsBest(p, ctx, got)
    case Complete(_) => true
    case SetPriority(_, _) => true
    case SetEnable(ctx, _, _) => true
    case SetThreshold(ctx, _) => true
    case SetSoftware(h, _) => h < |p.software|
  }

  function Do(p: Regs, ev: Event): (r: Regs)
    requires RegsOk(p) && EventOk(p, ev)
    ensures RegsOk(r) && |r.enable| == |p.enable|
  {
    match ev
    case SetIrq(s, on) =>
      (if on then p.(level := p.level + {s}, pending := p.pending + {s}) else p.(level := p.level - {s}))
    case Claim(_, got) =>
      (if got != 0 then p.(pending := p.pending - {got}, claimed := p.claimed + {got}) else p)
    case Complete(s) =>
      (if 1 <= s <= NDEV then
         p.(claimed := p.claimed - {s}, pending := if s in p.level then p.pending + {s} else p.pending)
       else p)
    case SetPriority(s, val) => (if s <= NDEV then p.(priority := p.priority[s := val]) else p)
    case SetEnable(ctx, word, on) =>
      (if ctx < |p.enable| && word < 2 then
         p.(enable := p.enable[ctx := set s | s in p.enable[ctx] + on && (if InWord(s, word) then s in on else s in p.enable[ctx])])
       else p)
    case SetThreshold(ctx, val) => (if ctx < |p.threshold| then p.(threshold := p.threshold[ctx := val]) else p)
    case SetSoftware(h, on) => p.(software := p.software[h := on])
  }

  // An asserted level is pending or in service, so it is never lost.
  predicate LevelsHeld(p: Regs) {
    p.level <= p.pending + p.claimed
  }

  lemma DoHoldsLevels(p: Regs, ev: Event)
    requires RegsOk(p) && EventOk(p, ev) && LevelsHeld(p)
    ensures LevelsHeld(Do(p, ev))
  {
  }

  // MEIP, the even context's output, is up exactly when one of sources 1 to 53 is pending, enabled there, not in
  // service, and above the threshold.
  lemma DrivesMeaning(p: Regs, h: nat, meip: bool, seip: bool)
    requires RegsOk(p) && h < |p.software| && Drives(p, h, meip, seip)
    ensures meip <==> exists s :: 1 <= s <= 53 && s in p.pending && s in p.enable[2 * h] && s !in p.claimed &&
                                  p.priority[s] > p.threshold[2 * h]
    ensures seip <==> p.software[h] ||
                      exists s :: 1 <= s <= 53 && s in p.pending && s in p.enable[2 * h + 1] && s !in p.claimed &&
                                  p.priority[s] > p.threshold[2 * h + 1]
  {
    forall ctx, s | 0 <= ctx < |p.enable| && 1 <= s <= 53
      ensures Eligible(p, ctx, s) <==>
        s in p.pending && s in p.enable[ctx] && s !in p.claimed && p.priority[s] > p.threshold[ctx]
    {
    }
  }

  // An enable word holds 32 sources, and writing it leaves the context's other sources and all other contexts alone.
  lemma EnableMeaning(p: Regs, ctx: nat, word: nat, on: set<nat>, c: nat, s: nat)
    requires RegsOk(p) && ctx < |p.enable| && word < 2 && c < |p.enable|
    ensures s in Do(p, SetEnable(ctx, word, on)).enable[c] <==>
      if c == ctx && 32 * word <= s < 32 * word + 32 then s in on else s in p.enable[c]
  {
  }

  // ---------- Whole runs ----------

  ghost predicate Lawful(p: Regs, evs: seq<Event>)
    requires RegsOk(p)
    decreases |evs|
  {
    evs != [] ==> EventOk(p, evs[0]) && Lawful(Do(p, evs[0]), evs[1..])
  }

  ghost function Run(p: Regs, evs: seq<Event>): (r: Regs)
    requires RegsOk(p) && Lawful(p, evs)
    ensures RegsOk(r)
    decreases |evs|
  {
    if evs == [] then p else Run(Do(p, evs[0]), evs[1..])
  }

  lemma {:induction false} LevelsAlwaysHeld(p: Regs, evs: seq<Event>)
    requires RegsOk(p) && Lawful(p, evs) && LevelsHeld(p)
    ensures LevelsHeld(Run(p, evs))
    decreases |evs|
  {
    if evs != [] {
      DoHoldsLevels(p, evs[0]);
      LevelsAlwaysHeld(Do(p, evs[0]), evs[1..]);
    }
  }

  predicate Completes(ev: Event, s: nat) {
    ev == Complete(s)
  }

  // What is pending stays so until a claim returns it, even if its line falls, and nothing becomes pending but by a
  // rising line or the completion of a source whose line is up.
  lemma {:induction false} PendingUntilClaimed(p: Regs, evs: seq<Event>, s: nat)
    requires RegsOk(p) && Lawful(p, evs)
    ensures s in p.pending && s !in Run(p, evs).pending ==> exists i :: 0 <= i < |evs| && Claims(evs[i], s)
    ensures s !in p.pending && s in Run(p, evs).pending ==> exists i :: 0 <= i < |evs| && Raises(evs[i], s)
    decreases |evs|
  {
    if evs != [] {
      var ev, rest := evs[0], evs[1..];
      PendingUntilClaimed(Do(p, ev), rest, s);
      if s in p.pending && s !in Run(p, evs).pending {
        if s in Do(p, ev).pending {
          var i :| 0 <= i < |rest| && Claims(rest[i], s);
          assert Claims(evs[i + 1], s);
        } else {
          assert Claims(evs[0], s);
        }
      }
      if s !in p.pending && s in Run(p, evs).pending {
        if s !in Do(p, ev).pending {
          var i :| 0 <= i < |rest| && Raises(rest[i], s);
          assert Raises(evs[i + 1], s);
        } else {
          assert Raises(evs[0], s);
        }
      }
    }
  }

  predicate Claims(ev: Event, s: nat) {
    ev.Claim? && ev.got == s
  }

  predicate Raises(ev: Event, s: nat) {
    ev == SetIrq(s, true) || ev == Complete(s)
  }

  // A source in service stays there, and no claim in any context returns it, until it is completed.
  lemma {:induction false} InService(p: Regs, evs: seq<Event>, s: nat)
    requires RegsOk(p) && Lawful(p, evs) && s in p.claimed
    requires forall i :: 0 <= i < |evs| ==> !Completes(evs[i], s)
    ensures s in Run(p, evs).claimed
    ensures forall i :: 0 <= i < |evs| && evs[i].Claim? ==> evs[i].got != s || s == 0
    decreases |evs|
  {
    if evs != [] {
      var ev, rest := evs[0], evs[1..];
      assert !Completes(ev, s);
      assert s in Do(p, ev).claimed;
      forall i | 0 <= i < |rest|
        ensures !Completes(rest[i], s)
      {
        assert !Completes(evs[i + 1], s);
      }
      InService(Do(p, ev), rest, s);
      forall i | 0 <= i < |evs| && evs[i].Claim?
        ensures evs[i].got != s || s == 0
      {
        if i > 0 {
          assert evs[i] == rest[i - 1];
        }
      }
    }
  }

  // A claimed source is handed out to one claimant only: between two claims of it there is a completion.
  lemma ClaimedOnce(p: Regs, ctx: nat, evs: seq<Event>, s: nat)
    requires RegsOk(p) && s != 0 && EventOk(p, Claim(ctx, s)) && Lawful(Do(p, Claim(ctx, s)), evs)
    requires forall i :: 0 <= i < |evs| ==> !Completes(evs[i], s)
    ensures forall i :: 0 <= i < |evs| && evs[i].Claim? ==> evs[i].got != s
  {
    InService(Do(p, Claim(ctx, s)), evs, s);
  }

  // ---------- The imperative controller ----------

  class Controller {
    var pending: set<nat>
    var level: set<nat>
    var claimed: set<nat>
    const priority: array<nat>
    const enable: array<set<nat>>
    const threshold: array<nat>
    const software: array<bool>
    const meip: array<bool>
    const seip: array<bool>

    predicate Shape()
      reads this
    {
      && priority.Length == SOURCES && enable.Length == threshold.Length == 2 * software.Length
      && meip.Length == seip.Length == software.Length && meip != seip && meip != software && seip != software
      && priority != threshold
    }

    function State(): Regs
      reads this, priority, enable, threshold, software
    {
      Regs(priority[..], pending, level, claimed, enable[..], threshold[..], software[..])
    }

    ghost predicate Driven()
      reads this, priority, enable, threshold, software, meip, seip
      requires Shape()
    {
      forall h :: 0 <= h < software.Length ==> Drives(State(), h, meip[h], seip[h])
    }

    constructor (harts: nat)
      ensures Shape() && LevelsHeld(State()) && Driven() && software.Length == harts
      ensures fresh(priority) && fresh(enable) && fresh(threshold) && fresh(software) && fresh(meip) && fresh(seip)
    {
      pending, level, claimed := {}, {}, {};
      priority := new nat[SOURCES](_ => 0);
      enable := new set<nat>[2 * harts](_ => {});
      threshold := new nat[2 * harts](_ => 0);
      software := new bool[harts](_ => false);
      meip := new bool[harts](_ => false);
      seip := new bool[harts](_ => false);
      new;
      assert forall ctx, s :: 0 <= ctx < enable.Length && 1 <= s <= NDEV ==> !Eligible(State(), ctx, s);
    }

    method Best(ctx: nat) returns (best: nat)
      requires Shape() && ctx < enable.Length
      ensures IsBest(State(), ctx, best)
    {
      best := 0;
      var bestPri := 0;
      for s := 1 to NDEV + 1
        invariant best == 0 <==> bestPri == 0
        invariant best == 0 ==> forall t :: 1 <= t < s ==> !Eligible(State(), ctx, t)
        invariant best != 0 ==> best < s && bestPri == priority[best] && Eligible(State(), ctx, best)
        invariant best != 0 ==> forall t :: 1 <= t < s && Eligible(State(), ctx, t) ==> Before(State(), best, t)
      {
        if s in pending && s in enable[ctx] && s !in claimed {
          var pri := priority[s];
          if pri > threshold[ctx] && pri > bestPri {
            best, bestPri := s, pri;
          }
        }
      }
    }

    method Update()
      requires Shape()
      modifies meip, seip
      ensures Driven() && State() == old(State())
    {
      ghost var p := State();
      for h := 0 to software.Length
        invariant State() == p
        invariant forall g :: 0 <= g < h ==> Drives(p, g, meip[g], seip[g])
      {
        var m := Best(2 * h);
        BestTells(p, 2 * h, m);
        var s := Best(2 * h + 1);
        BestTells(p, 2 * h + 1, s);
        meip[h], seip[h] := m != 0, s != 0 || software[h];
        assert State() == p;
      }
    }

    method SetIrqLine(s: nat, on: bool)
      requires Shape() && s < SOURCES
      modifies this, meip, seip
      ensures State() == Do(old(State()), SetIrq(s, on)) && Driven()
    {
      if on {
        level, pending := level + {s}, pending + {s};
      } else {
        level := level - {s};
      }
      Update();
    }

    method ReadClaim(ctx: nat) returns (s: nat)
      requires Shape() && ctx < enable.Length
      modifies this, meip, seip
      ensures EventOk(old(State()), Claim(ctx, s)) && State() == Do(old(State()), Claim(ctx, s)) && Driven()
    {
      s := Best(ctx);
      if s != 0 {
        pending, claimed := pending - {s}, claimed + {s};
      }
      Update();
    }

    method WriteComplete(s: nat)
      requires Shape()
      modifies this, meip, seip
      ensures State() == Do(old(State()), Complete(s)) && Driven()
    {
      if 1 <= s <= NDEV {
        claimed := claimed - {s};
        if s in level {
          pending := pending + {s};
        }
      }
      Update();
    }

    // The other registers: priorities, enables, thresholds, and a hart's software SEIP.
    method WriteReg(ev: Event)
      requires Shape() && EventOk(State(), ev) && (ev.SetPriority? || ev.SetEnable? || ev.SetThreshold? || ev.SetSoftware?)
      modifies priority, enable, threshold, software, meip, seip
      ensures State() == Do(old(State()), ev) && Driven()
    {
      match ev {
        case SetPriority(s, val) =>
          if s <= NDEV {
            priority[s] := val;
          }
        case SetEnable(ctx, word, on) =>
          if ctx < enable.Length && word < 2 {
            var was := enable[ctx];
            enable[ctx] := set s | s in was + on && if InWord(s, word) then s in on else s in was;
          }
        case SetThreshold(ctx, val) =>
          if ctx < threshold.Length {
            threshold[ctx] := val;
          }
        case SetSoftware(h, on) =>
          software[h] := on;
      }
      Update();
    }
  }
}
