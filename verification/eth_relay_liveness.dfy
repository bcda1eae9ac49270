// No command starves: in every infinite run in which all cores keep running, each command a host queues completes,
// though hosts go on queueing commands all the while.
module EthRelayLiveness {
  import opened EthRelay
  import opened EthRelaySafety
  import opened EthRelayProgress

  // ---------- Infinite runs ----------

  // What happens, one event after another, from a state on.
  datatype Play = Play(net: Net, start: State, events: nat -> Event)

  ghost predicate Playable(y: Play) {
    Inv(y.net, y.start) && forall i: nat :: y.events(i).c < |y.start|
  }

  ghost function At(y: Play, n: nat): (s: State)
    requires Playable(y)
    ensures Inv(y.net, s) && |s| == |y.start|
  {
    if n == 0 then y.start else Happens(y.net, At(y, n - 1), y.events(n - 1))
  }

  lemma NextAt(y: Play, n: nat)
    requires Playable(y)
    ensures At(y, n + 1) == Happens(y.net, At(y, n), y.events(n))
  {
  }

  predicate Takes(y: Play, n: nat, c: nat) {
    y.events(n).Go? && y.events(n).c == c
  }

  ghost predicate TakesLater(y: Play, n: nat, c: nat) {
    exists m :: m >= n && Takes(y, m, c)
  }

  // Hosts queue only what the hypotheses of progress allow, and every core takes a step again and again.
  ghost predicate Fair(y: Play) {
    && Playable(y) && Live(y.net, y.start)
    && (forall n: nat :: y.events(n).Queue? ==> Live(y.net, At(y, n + 1)))
    && (forall n: nat, c: nat :: c < |y.start| ==> TakesLater(y, n, c))
  }

  lemma {:induction false} LiveAt(y: Play, n: nat)
    requires Fair(y)
    ensures Live(y.net, At(y, n))
  {
    if n > 0 {
      LiveAt(y, n - 1);
      if y.events(n - 1).Go? {
        LiveStep(y.net, At(y, n - 1), y.events(n - 1).c, y.events(n - 1).r);
      }
    }
  }

  // ---------- What others' steps leave of a core ----------

  ghost predicate Other(a: Core, b: Core) {
    && b == a.(hist := b.hist, resp := b.resp, inbox := b.inbox, slots := b.slots, doorbell := b.doorbell,
               relayResp := b.relayResp, log := b.log)
    && a.hist <= b.hist && |a.slots| == |b.slots| == |a.last|
    && (a.doorbell ==> b.doorbell)
  }

  // What a core is waiting for stays once it is there, and so does what it has to serve.
  ghost predicate Kept(a: Core, b: Core) {
    && Other(a, b)
    && (a.pc.Spin? && a.resp.seqno == a.sendSeq ==> b.resp == a.resp)
    && (InFlight(a) && a.relayResp.seqno == a.relaySend ==> b.relayResp == a.relayResp)
    && (a.inbox.seqno != a.lastRecv ==> b.inbox == a.inbox)
    && (forall o :: 0 <= o < |a.slots| && a.slots[o].seqno != a.last[o] ==> b.slots[o] == a.slots[o])
  }

  lemma QueueOther(net: Net, s: State, c: nat, x: nat, t: State)
    requires Wf(net, s) && Wf(net, t) && c < |s| && x < |s| && x != c
    requires (s[c].pc.Drain? && t == StepDrain(net, s, c)) || (s[c].pc.LegStart? && t == StepLegStart(net, s, c))
    ensures Other(s[x], t[x]) && t[x].resp == s[x].resp && t[x].relayResp == s[x].relayResp
  {
  }

  lemma SendOther(net: Net, s: State, c: nat, x: nat, t: State)
    requires Wf(net, s) && Wf(net, t) && c < |s| && x < |s| && x != c && s[c].pc.Send? && t == StepSend(net, s, c)
    ensures Other(s[x], t[x]) && t[x].resp == s[x].resp
    ensures t[x].relayResp != s[x].relayResp ==> s[c].pc.who == For(x)
  {
  }

  lemma RestOther(net: Net, s: State, c: nat, r: Word, x: nat, t: State)
    requires Wf(net, s) && Wf(net, t) && c < |s| && x < |s| && x != c && t == Step(net, s, c, r)
    requires !s[c].pc.Drain? && !s[c].pc.LegStart? && !s[c].pc.Send?
    ensures Other(s[x], t[x]) && t[x].relayResp == s[x].relayResp
    ensures t[x].resp != s[x].resp ==> s[c].pc.Ack? && x == net.peer[c]
  {
  }

  lemma StepOther(net: Net, s: State, c: nat, r: Word, x: nat, t: State)
    requires Wf(net, s) && Wf(net, t) && c < |s| && x < |s| && x != c && t == Step(net, s, c, r)
    ensures Other(s[x], t[x])
    ensures t[x].resp != s[x].resp ==> s[c].pc.Ack? && x == net.peer[c]
    ensures t[x].relayResp != s[x].relayResp ==> s[c].pc.Send? && s[c].pc.who == For(x)
  {
    if s[c].pc.Drain? || s[c].pc.LegStart? {
      QueueOther(net, s, c, x, t);
    } else if s[c].pc.Send? {
      SendOther(net, s, c, x, t);
    } else {
      RestOther(net, s, c, r, x, t);
    }
  }

  lemma SlotsKept(net: Net, s: State, c: nat, r: Word, x: nat, t: State)
    requires Inv(net, s) && c < |s| && x < |s| && t == Step(net, s, c, r) && |t| == |s|
    requires |t[x].slots| == |s[x].slots| == |s[x].last| == |s|
    ensures forall o :: 0 <= o < |s| && s[x].slots[o].seqno != s[x].last[o] ==> t[x].slots[o] == s[x].slots[o]
  {
    forall o | 0 <= o < |s| && s[x].slots[o].seqno != s[x].last[o] ensures t[x].slots[o] == s[x].slots[o] {
      SlotNeverOverwritten(net, s, c, r, x, o, t);
    }
  }

  lemma StepKept(net: Net, s: State, c: nat, r: Word, x: nat)
    requires Inv(net, s) && c < |s| && x < |s| && x != c
    ensures Inv(net, Step(net, s, c, r)) && Kept(s[x], Step(net, s, c, r)[x])
  {
    var t := Step(net, s, c, r);
    StepOk(net, s, c, r);
    assert WfCore(net, t[x]) && WfCore(net, s[x]);
    StepOther(net, s, c, r, x, t);
    InboxNeverOverwritten(net, s, c, r, x, t);
    SlotsKept(net, s, c, r, x, t);
    assert LinkAt(net, s, x);
    if InFlight(s[x]) && s[x].relayResp.seqno == s[x].relaySend {
      IdleSlots(net, s, x, c);
    }
  }

  // Core x sees the event as someone else's, or takes a step of waiting.
  lemma EventKept(net: Net, s: State, e: Event, x: nat)
    requires Inv(net, s) && e.c < |s| && x < |s| && (e.Go? && e.c == x ==> Waiting(s[x]))
    ensures Kept(s[x], Happens(net, s, e)[x])
  {
    assert WfCore(net, s[x]);
    if e.Go? && e.c != x {
      StepKept(net, s, e.c, e.r, x);
    }
  }

  lemma KeptSelf(net: Net, a: Core)
    requires WfCore(net, a)
    ensures Kept(a, a)
  {
  }

  lemma KeptOn(a: Core, b: Core, c: Core)
    requires Kept(a, b) && Kept(b, c)
    ensures Kept(a, c)
  {
  }

  // ---------- Waiting for a core's own step ----------

  ghost predicate Still(y: Play, n: nat, m: nat, x: nat)
    requires Playable(y) && x < |y.start|
  {
    n <= m && forall i :: n <= i <= m ==> Kept(At(y, n)[x], At(y, i)[x])
  }

  lemma StillPlace(y: Play, n: nat, m: nat, x: nat)
    requires Playable(y) && x < |y.start| && Still(y, n, m, x)
    ensures At(y, m)[x].pc == At(y, n)[x].pc && Kept(At(y, n)[x], At(y, m)[x])
  {
  }

  lemma StillMore(y: Play, n: nat, k: nat, m: nat, x: nat)
    requires Playable(y) && x < |y.start| && Still(y, n, k, x) && Still(y, k, m, x)
    ensures Still(y, n, m, x)
  {
    hide Kept;
    forall i | n <= i <= m ensures Kept(At(y, n)[x], At(y, i)[x]) {
      if i > k {
        KeptOn(At(y, n)[x], At(y, k)[x], At(y, i)[x]);
      }
    }
  }

  lemma StillSelf(y: Play, n: nat, x: nat)
    requires Playable(y) && x < |y.start|
    ensures Still(y, n, n, x)
  {
    hide Kept;
    KeptSelf(y.net, At(y, n)[x]);
  }

  lemma StillNext(y: Play, n: nat, x: nat)
    requires Playable(y) && x < |y.start| && (Takes(y, n, x) ==> Waiting(At(y, n)[x]))
    ensures Still(y, n, n + 1, x)
  {
    hide Kept, Waiting, Step, Push;
    EventKept(y.net, At(y, n), y.events(n), x);
    NextAt(y, n);
    hide Happens;
    KeptSelf(y.net, At(y, n)[x]);
    hide Inv, At;
  }

  // The next step of x.
  lemma {:induction false} NextStep(y: Play, n: nat, x: nat, last: nat) returns (m: nat)
    requires Playable(y) && x < |y.start| && n <= last && Takes(y, last, x)
    ensures Still(y, n, m, x) && Takes(y, m, x)
    decreases last - n
  {
    hide Still;
    if Takes(y, n, x) {
      m := n;
      StillSelf(y, n, x);
    } else {
      StillNext(y, n, x);
      m := NextStep(y, n + 1, x, last);
      StillMore(y, n, n + 1, m, x);
    }
  }

  // ---------- A pass of the service loop ends ----------

  datatype Rank = Rank(part: nat, item: nat, leg: nat, stage: nat, hop: nat)

  predicate Below(p: Rank, q: Rank) {
    || p.part < q.part
    || (p.part == q.part && p.item < q.item)
    || (p.part == q.part && p.item == q.item && p.leg < q.leg)
    || (p.part == q.part && p.item == q.item && p.leg == q.leg && p.stage < q.stage)
    || (p.part == q.part && p.item == q.item && p.leg == q.leg && p.stage == q.stage && p.hop < q.hop)
  }

  function Minus(a: nat, b: nat): nat {
    if a > b then a - b else 0
  }

  ghost function OwnRank(a: Core, left: nat, leg: nat, stage: nat, hop: nat): Rank
    requires |a.done| < |a.hist|
  {
    Rank(5, left, Minus(|Legs(a.hist[|a.done|])|, leg), stage, hop)
  }

  ghost function HopRank(net: Net, a: Core, who: Who, hop: nat): Rank
    requires WfCore(net, a) && WfWho(net, a, who)
  {
    match who
    case Own(left, leg) => OwnRank(a, left, leg, 2, hop)
    case For(i) => Rank(1, |net.peer| - i, 0, 2, hop)
  }

  // How much of its pass a core has before it. A pass takes a snapshot of the host queue at its start.
  ghost function PassRank(net: Net, a: Core): Rank
    requires WfCore(net, a)
  {
    match a.pc
    case Top => Rank(6, 0, 0, 0, 0)
    case Drain(left) => Rank(5, left, if left == 0 then 0 else |Legs(a.hist[|a.done|])| + 1, 0, 0)
    case LegStart(left, leg) => OwnRank(a, left, leg, 3, 0)
    case Ring(left, leg, _, _) => OwnRank(a, left, leg, 1, 0)
    case Await(left, leg) => OwnRank(a, left, leg, 0, 0)
    case Send(who, chunk, _) => HopRank(net, a, who, 2 * Minus(HopsOf(a, who), chunk) + 1)
    case Spin(who, chunk, _) => HopRank(net, a, who, 2 * Minus(HopsOf(a, who), chunk))
    case Inbox => Rank(4, 0, 0, 0, 0)
    case Ack(_) => Rank(3, 0, 0, 0, 0)
    case Bell => Rank(2, 0, 0, 0, 0)
    case Clear => Rank(1, |net.peer| + 1, 0, 0, 0)
    case Scan(k) => Rank(1, |net.peer| - k, 0, 3, 0)
    case Halt => Rank(0, 0, 0, 0, 0)
  }

  lemma RankKept(net: Net, s: State, x: nat, b: Core)
    requires Inv(net, s) && x < |s| && WfCore(net, b) && Kept(s[x], b)
    ensures PassRank(net, b) == PassRank(net, s[x])
  {
    assert HopAt(net, s, x) && WfCore(net, s[x]);
    if Queued(s[x]) > 0 {
      assert b.hist[|b.done|] == s[x].hist[|s[x].done|];
    }
  }

  // A core that is not waiting comes nearer to the end of its pass by a step.
  ghost predicate Nearer(net: Net, a: Core, b: Core)
    requires WfCore(net, a) && WfCore(net, b)
  {
    b.pc.Top? || Below(PassRank(net, b), PassRank(net, a))
  }

  lemma QueueNearer(net: Net, s: State, c: nat, t: State)
    requires Inv(net, s) && Wf(net, t) && c < |s| && !t[c].pc.Halt?
    requires (s[c].pc.Drain? && t == StepDrain(net, s, c)) || (s[c].pc.LegStart? && t == StepLegStart(net, s, c))
    ensures Nearer(net, s[c], t[c])
  {
    assert RelayAt(net, s, c);
  }

  lemma SendNearer(net: Net, s: State, c: nat, t: State)
    requires Inv(net, s) && Wf(net, t) && c < |s| && s[c].pc.Send? && t == StepSend(net, s, c)
    ensures Nearer(net, s[c], t[c])
  {
    assert net.peer[c] != c && HopAt(net, s, c);
    if s[c].pc.who.For? {
      assert SlotAt(net, s, s[c].pc.who.i, c);
    }
  }

  lemma ScanNearer(net: Net, s: State, c: nat, r: Word, t: State)
    requires Inv(net, s) && Wf(net, t) && c < |s| && t == Step(net, s, c, r)
    requires s[c].pc.Scan? || s[c].pc.Clear? || s[c].pc.Bell?
    ensures Nearer(net, s[c], t[c])
  {
  }

  lemma RestNearer(net: Net, s: State, c: nat, r: Word, t: State)
    requires Inv(net, s) && Wf(net, t) && c < |s| && !Waiting(s[c]) && t == Step(net, s, c, r)
    requires s[c].pc.Top? || s[c].pc.Ring? || s[c].pc.Await? || s[c].pc.Inbox? || s[c].pc.Ack?
    ensures Nearer(net, s[c], t[c])
  {
    assert net.peer[c] != c && RelayAt(net, s, c);
  }

  lemma SpinNearer(net: Net, s: State, c: nat, t: State)
    requires Inv(net, s) && Wf(net, t) && c < |s| && s[c].pc.Spin? && s[c].resp.seqno == s[c].sendSeq
    requires t == s[c := s[c].(pc := Send(s[c].pc.who, s[c].pc.chunk + 1, s[c].pc.got + [s[c].resp.data]))]
    ensures Nearer(net, s[c], t[c])
  {
    assert HopAt(net, s, c);
  }

  lemma StepNearer(net: Net, s: State, c: nat, r: Word)
    requires Live(net, s) && c < |s| && !Waiting(s[c])
    ensures Inv(net, Step(net, s, c, r)) && Nearer(net, s[c], Step(net, s, c, r)[c])
  {
    var t := Step(net, s, c, r);
    LiveStep(net, s, c, r);
    if s[c].pc.Drain? || s[c].pc.LegStart? {
      QueueNearer(net, s, c, t);
    } else if s[c].pc.Send? {
      SendNearer(net, s, c, t);
    } else if s[c].pc.Scan? || s[c].pc.Clear? || s[c].pc.Bell? {
      ScanNearer(net, s, c, r, t);
    } else if s[c].pc.Spin? {
      SpinNearer(net, s, c, t);
    } else {
      RestNearer(net, s, c, r, t);
    }
  }

  // ---------- A wait for the link ends ----------

  ghost predicate SpinsFor(a: Core) {
    a.pc.Spin? && a.resp.seqno != a.sendSeq
  }

  lemma SlotHasHost(net: Net, s: State, o: nat, e: nat)
    requires Inv(net, s) && o < |s| && e < |s|
    ensures s[e].slots[o].seqno != s[e].last[o] ==> s[o].hist != [] && net.chip[o] == net.chip[e]
  {
    assert SlotAt(net, s, o, e);
  }

  // The receiver of a transfer in progress has nothing else to do.
  lemma ReceiverFree(net: Net, s: State, x: nat)
    requires Live(net, s) && x < |s| && SpinsFor(s[x])
    ensures var b := s[net.peer[x]]; b.pc.Ack? || (Calm(b.pc) && GoalOk(b, Serve) && (Working(b) ==> b.pc.Inbox?))
  {
    var p := net.peer[x];
    ReceiverHelps(net, s, x);
    var o := HopHasHost(net, s, x);
    assert LinkAt(net, s, x) && net.chip[p] == PeerChip(net, x);
    assert s[p].hist == [];
    if HopPc(s[p]) {
      var i := HopHasHost(net, s, p);
      assert false;
    }
    if s[p].pc.Scan? && s[p].pc.k < |s| {
      SlotHasHost(net, s, s[p].pc.k, p);
    }
  }

  function ServeRank(a: Core): nat {
    if a.pc.Ack? then 0 else if Working(a) then 1 else 2 + if Dist(a, Serve) > 0 then Dist(a, Serve) else 0
  }

  lemma ReceiverStep(net: Net, s: State, x: nat, r: Word)
    requires Live(net, s) && x < |s| && SpinsFor(s[x])
    ensures var p := net.peer[x]; var t := Step(net, s, p, r);
            !SpinsFor(t[x]) || ServeRank(t[p]) < ServeRank(s[p])
  {
    var p := net.peer[x];
    ReceiverFree(net, s, x);
    assert LinkAt(net, s, x) && p != x;
    if !s[p].pc.Ack? && !Working(s[p]) {
      IdleStep(net, s, p, r);
      GoalStep(net, s[p], Serve);
    }
  }

  lemma ReceiverKept(a: Core, b: Core)
    requires Kept(a, b) && (a.pc.Ack? || (Calm(a.pc) && GoalOk(a, Serve) && (Working(a) ==> a.pc.Inbox?)))
    requires b.pc.Ack? || (Calm(b.pc) && GoalOk(b, Serve) && (Working(b) ==> b.pc.Inbox?))
    ensures ServeRank(b) <= ServeRank(a)
  {
  }

  lemma ReceiverHappens(net: Net, s: State, e: Event, x: nat)
    requires Live(net, s) && e.c < |s| && x < |s| && SpinsFor(s[x])
    requires Live(net, Happens(net, s, e)) && SpinsFor(Happens(net, s, e)[x])
    ensures var p, t := net.peer[x], Happens(net, s, e);
            && ServeRank(t[p]) <= ServeRank(s[p])
            && (e.Go? && e.c == p ==> ServeRank(t[p]) < ServeRank(s[p]))
  {
    var p, t := net.peer[x], Happens(net, s, e);
    ReceiverFree(net, s, x);
    ReceiverFree(net, t, x);
    hide Live, SpinsFor, ServeRank, Step, Push, GoalOk, Working, Waiting, Kept;
    if e.Go? && e.c == p {
      ReceiverStep(net, s, x, e.r);
    } else {
      EventKept(net, s, e, p);
      ReceiverKept(s[p], t[p]);
    }
  }

  lemma ReceiverEvent(y: Play, n: nat, x: nat)
    requires Fair(y) && x < |y.start| && SpinsFor(At(y, n)[x]) && SpinsFor(At(y, n + 1)[x])
    ensures var p := y.net.peer[x];
            && ServeRank(At(y, n + 1)[p]) <= ServeRank(At(y, n)[p])
            && (Takes(y, n, p) ==> ServeRank(At(y, n + 1)[p]) < ServeRank(At(y, n)[p]))
  {
    LiveAt(y, n);
    LiveAt(y, n + 1);
    NextAt(y, n);
    hide Fair, Live, At, SpinsFor, ServeRank, Happens;
    ReceiverHappens(y.net, At(y, n), y.events(n), x);
  }

  lemma Soon(y: Play, n: nat, c: nat) returns (last: nat)
    requires Fair(y) && c < |y.start|
    ensures last >= n && Takes(y, last, c)
  {
    assert TakesLater(y, n, c);
    last :| last >= n && Takes(y, last, c);
  }

  // The reply to a transfer comes, and the core does not move meanwhile.
  lemma {:induction false} SpinEnds(y: Play, n: nat, x: nat, last: nat) returns (m: nat)
    requires Fair(y) && x < |y.start| && At(y, n)[x].pc.Spin? && last >= n && Takes(y, last, y.net.peer[x])
    ensures Still(y, n, m, x) && !SpinsFor(At(y, m)[x])
    decreases ServeRank(At(y, n)[y.net.peer[x]]), last - n
  {
    hide Playable, Live, Happens, TakesLater, ServeRank, Still, Takes;
    if !SpinsFor(At(y, n)[x]) {
      m := n;
      StillSelf(y, n, x);
    } else {
      StillNext(y, n, x);
      StillPlace(y, n, n + 1, x);
      m := n + 1;
      if SpinsFor(At(y, n + 1)[x]) {
        ReceiverEvent(y, n, x);
        var next := last;
        if Takes(y, n, y.net.peer[x]) {
          next := Soon(y, n + 1, y.net.peer[x]);
        }
        m := SpinEnds(y, n + 1, x, next);
        StillMore(y, n, n + 1, m, x);
      }
    }
  }

  // ---------- A relay is served ----------

  // The reply to a posted relay is still to come.
  predicate Pending(a: Core) {
    InFlight(a) && !a.pc.Ring? && a.relayResp.seqno != a.relaySend
  }

  ghost predicate Unserved(net: Net, s: State, o: nat, e: nat)
    requires Wf(net, s)
  {
    o < |s| && e < |s| && s[e].slots[o].seqno != s[e].last[o]
  }

  // The relay is the same one.
  ghost predicate Flown(a: Core, b: Core) {
    && InFlight(b) && !b.pc.Ring? && b.relaySend == a.relaySend && b.relayWait == a.relayWait
    && b.done == a.done && a.hist <= b.hist && (a.pc.Await? ==> Kept(a, b))
  }

  lemma FlownOn(a: Core, b: Core, c: Core)
    requires Flown(a, b) && Flown(b, c)
    ensures Flown(a, c)
  {
    if a.pc.Await? {
      KeptOn(a, b, c);
    }
  }

  lemma PollFlown(net: Net, s: State, o: nat, r: Word)
    requires Inv(net, s) && o < |s| && Pending(s[o]) && !Waiting(s[o])
    ensures Inv(net, Step(net, s, o, r)) && Flown(s[o], Step(net, s, o, r)[o])
  {
    StepOk(net, s, o, r);
    assert RelayAt(net, s, o) && WfCore(net, s[o]);
    assert net.peer[o] != o && HopAt(net, s, o);
    if s[o].pc.Send? && s[o].pc.who.For? {
      assert SlotAt(net, s, s[o].pc.who.i, o);
    }
  }

  lemma EventFlown(net: Net, s: State, e: Event, o: nat)
    requires Inv(net, s) && e.c < |s| && o < |s| && Pending(s[o])
    ensures Flown(s[o], Happens(net, s, e)[o])
  {
    if e.Go? && e.c == o && !Waiting(s[o]) {
      PollFlown(net, s, o, e.r);
    } else {
      EventKept(net, s, e, o);
    }
  }

  lemma UnservedPends(net: Net, s: State, o: nat, e: nat)
    requires Inv(net, s) && Unserved(net, s, o, e)
    ensures InFlight(s[o]) && s[o].relayResp.seqno != s[o].relaySend && FlightTo(net, o, s[o], e) && o != e
    ensures net.chip[o] == net.chip[e]
  {
    assert SlotAt(net, s, o, e) && RelayAt(net, s, o);
  }

  lemma UnservedKept(net: Net, s: State, t: State, o: nat, e: nat)
    requires Inv(net, s) && Inv(net, t) && |t| == |s| && Unserved(net, s, o, e) && Kept(s[e], t[e])
    ensures Unserved(net, t, o, e)
  {
    assert WfCore(net, s[e]) && WfCore(net, t[e]);
  }

  lemma FlownSelf(a: Core)
    requires Pending(a) && Kept(a, a)
    ensures Flown(a, a)
  {
  }

  lemma FlownPends(a: Core, b: Core)
    requires Flown(a, b) && b.relayResp.seqno != b.relaySend
    ensures Pending(b) && (a.pc.Await? ==> Kept(a, b))
  {
  }

  // While the egress does not move, the relay stays pending.
  lemma {:induction false} PendsWhileStill(y: Play, n: nat, m: nat, o: nat, e: nat)
    requires Playable(y) && o < |y.start| && e < |y.start| && Still(y, n, m, e)
    requires Unserved(y.net, At(y, n), o, e) && Pending(At(y, n)[o])
    ensures Flown(At(y, n)[o], At(y, m)[o]) && Pending(At(y, m)[o]) && Unserved(y.net, At(y, m), o, e)
    ensures At(y, n)[o].pc.Await? ==> Still(y, n, m, o)
    decreases m
  {
    hide At, Happens, Kept, Flown, Pending, InFlight, Unserved, Inv;
    StillPlace(y, n, m, e);
    UnservedKept(y.net, At(y, n), At(y, m), o, e);
    UnservedPends(y.net, At(y, m), o, e);
    if n == m {
      StillSelf(y, n, o);
      StillPlace(y, n, n, o);
      FlownSelf(At(y, n)[o]);
    } else {
      PendsWhileStill(y, n, m - 1, o, e);
      NextAt(y, m - 1);
      EventFlown(y.net, At(y, m - 1), y.events(m - 1), o);
      FlownOn(At(y, n)[o], At(y, m - 1)[o], At(y, m)[o]);
      FlownPends(At(y, n)[o], At(y, m)[o]);
    }
  }

  // The scan of a is past slot o.
  function Past(a: Core, o: nat): nat {
    if (a.pc.Scan? && a.pc.k > o) || (HopPc(a) && a.pc.who.For? && a.pc.who.i > o) then 1 else 0
  }

  lemma ServeSends(net: Net, s: State, o: nat, e: nat, t: State)
    requires Inv(net, s) && Inv(net, t) && Unserved(net, s, o, e) && s[e].pc.Send? && t == StepSend(net, s, e)
    requires t[e].pc.Spin? || s[e].pc.who.Own?
    ensures Unserved(net, t, o, e) && Past(t[e], o) <= Past(s[e], o) && !t[e].pc.Top?
  {
    assert net.peer[e] != e && HopAt(net, s, e);
  }

  lemma ServeReplies(net: Net, s: State, o: nat, e: nat, t: State)
    requires Inv(net, s) && Inv(net, t) && Unserved(net, s, o, e) && s[e].pc.Send? && t == StepSend(net, s, e)
    requires s[e].pc.who.For? && !t[e].pc.Spin?
    ensures s[e].pc.who.i == o ==> t[o].relayResp.seqno == s[o].relaySend
    ensures s[e].pc.who.i != o ==> Unserved(net, t, o, e)
    ensures Unserved(net, t, o, e) ==> Past(t[e], o) <= Past(s[e], o) && !t[e].pc.Top?
  {
    var i := s[e].pc.who.i;
    assert HopAt(net, s, e) && SlotAt(net, s, i, e) && SlotAt(net, s, o, e);
    UnservedPends(net, s, i, e);
  }

  lemma ServeQueues(net: Net, s: State, o: nat, e: nat, t: State)
    requires Inv(net, s) && Inv(net, t) && Unserved(net, s, o, e)
    requires (s[e].pc.Drain? && t == StepDrain(net, s, e)) || (s[e].pc.LegStart? && t == StepLegStart(net, s, e))
    ensures Unserved(net, t, o, e) && Past(t[e], o) <= Past(s[e], o) && !t[e].pc.Top?
  {
    assert RelayAt(net, s, e);
  }

  lemma ServeScans(net: Net, s: State, o: nat, e: nat, r: Word, t: State)
    requires Inv(net, s) && Inv(net, t) && Unserved(net, s, o, e) && !s[o].pc.Ring? && t == Step(net, s, e, r)
    requires s[e].pc.Scan? || s[e].pc.Clear? || s[e].pc.Bell?
    ensures Unserved(net, t, o, e) && Past(t[e], o) <= Past(s[e], o)
    ensures t[e].pc.Top? ==> Past(t[e], o) < Past(s[e], o)
  {
    assert BellAt(net, s, o, e);
  }

  lemma ServeRests(net: Net, s: State, o: nat, e: nat, r: Word, t: State)
    requires Inv(net, s) && Inv(net, t) && Unserved(net, s, o, e) && t == Step(net, s, e, r) && !Waiting(s[e])
    requires s[e].pc.Top? || s[e].pc.Ring? || s[e].pc.Await? || s[e].pc.Spin? || s[e].pc.Inbox? || s[e].pc.Ack?
    ensures Unserved(net, t, o, e) && Past(t[e], o) <= Past(s[e], o) && !t[e].pc.Top?
  {
    assert RelayAt(net, s, e) && net.peer[e] != e;
  }

  lemma ServePasses(net: Net, s: State, o: nat, e: nat, r: Word, t: State)
    requires Inv(net, s) && Inv(net, t) && Unserved(net, s, o, e) && Pending(s[o]) && t == Step(net, s, e, r)
    requires !Waiting(s[e])
    ensures Unserved(net, t, o, e) || t[o].relayResp.seqno == s[o].relaySend
    ensures Unserved(net, t, o, e) ==>
      Past(t[e], o) <= Past(s[e], o) && (t[e].pc.Top? ==> Past(t[e], o) < Past(s[e], o))
  {
    assert o < |s| && e < |s|;
    hide Unserved, Past;
    if s[e].pc.Drain? || s[e].pc.LegStart? {
      ServeQueues(net, s, o, e, t);
    } else if s[e].pc.Send? {
      if t[e].pc.Spin? || s[e].pc.who.Own? {
        ServeSends(net, s, o, e, t);
      } else {
        ServeReplies(net, s, o, e, t);
      }
    } else if s[e].pc.Scan? || s[e].pc.Clear? || s[e].pc.Bell? {
      ServeScans(net, s, o, e, r, t);
    } else {
      ServeRests(net, s, o, e, r, t);
    }
  }

  // Every step of the egress that is not a wait brings it nearer to serving the relay.
  lemma ServeNearer(net: Net, s: State, o: nat, e: nat, r: Word)
    requires Live(net, s) && Unserved(net, s, o, e) && Pending(s[o]) && !Waiting(s[e])
    ensures var t := Step(net, s, e, r);
            && Inv(net, t) && Flown(s[o], t[o])
            && (Pending(t[o]) ==>
                  && Unserved(net, t, o, e) && Past(t[e], o) <= Past(s[e], o)
                  && (Past(t[e], o) < Past(s[e], o) || Below(PassRank(net, t[e]), PassRank(net, s[e]))))
  {
    var t := Step(net, s, e, r);
    StepNearer(net, s, e, r);
    UnservedPends(net, s, o, e);
    EventFlown(net, s, Go(e, r), o);
    ServePasses(net, s, o, e, r, t);
  }

  lemma FreeKept(a: Core, b: Core)
    requires Kept(a, b) && !Waiting(a)
    ensures !Waiting(b)
  {
  }

  lemma AwaitsBroadcast(net: Net, a: Core)
    requires WfCore(net, a)
    ensures a.pc.Await? ==> HasBroadcast(a)
  {
    if a.pc.Await? {
      assert a.hist[|a.done|].Broadcast?;
    }
  }

  // Two cores of one chip do not both wait for a relay of a broadcast.
  lemma OneAwaits(net: Net, s: State, o: nat, e: nat)
    requires Live(net, s) && o < |s| && e < |s| && o != e && net.chip[o] == net.chip[e] && s[o].pc.Await?
    ensures !s[e].pc.Await?
  {
    AwaitsBroadcast(net, s[o]);
    AwaitsBroadcast(net, s[e]);
  }

  // Where a core that waits for a relay stands with its egress.
  lemma AwaitPends(net: Net, s: State, o: nat) returns (e: nat)
    requires Live(net, s) && o < |s| && Pending(s[o])
    ensures Unserved(net, s, o, e) && o != e
    ensures s[o].pc.Await? ==> !s[e].pc.Await?
  {
    e := FlightEgress(net, s, o);
    assert SlotAt(net, s, o, e);
    if s[o].pc.Await? {
      OneAwaits(net, s, o, e);
    }
  }

  // A core gets to a step that is not a wait. Only a core that waits for a relay needs another core to get there, and
  // that one, if it waits for a relay too, a third: d says how many may.
  lemma {:induction false} Advance(y: Play, n: nat, x: nat, d: nat) returns (m: nat)
    requires Fair(y) && x < |y.start| && d <= 1 && (d == 0 ==> !At(y, n)[x].pc.Await?)
    ensures Still(y, n, m, x) && Takes(y, m, x) && !Waiting(At(y, m)[x])
    decreases d, 0
  {
    LiveAt(y, n);
    var k := n;
    StillSelf(y, n, x);
    if At(y, n)[x].pc.Spin? {
      var last := Soon(y, n, y.net.peer[x]);
      k := SpinEnds(y, n, x, last);
    } else if At(y, n)[x].pc.Await? && Pending(At(y, n)[x]) {
      var e := AwaitPends(y.net, At(y, n), x);
      k := Served(y, n, x, e, d - 1);
    }
    StillPlace(y, n, k, x);
    var last := Soon(y, k, x);
    m := NextStep(y, k, x, last);
    StillPlace(y, k, m, x);
    StillMore(y, n, k, m, x);
    FreeKept(At(y, k)[x], At(y, m)[x]);
  }

  ghost function RankAt(y: Play, n: nat, x: nat): Rank
    requires Playable(y) && x < |y.start|
  {
    PassRank(y.net, At(y, n)[x])
  }

  // The egress serves the relay.
  lemma {:induction false} Served(y: Play, n: nat, o: nat, e: nat, d: nat) returns (m: nat)
    requires Fair(y) && d <= 1 && Unserved(y.net, At(y, n), o, e) && Pending(At(y, n)[o])
    requires o < |y.start| && e < |y.start| && (d == 0 ==> At(y, n)[o].pc.Await?)
    ensures n <= m && Flown(At(y, n)[o], At(y, m)[o]) && !Pending(At(y, m)[o])
    ensures At(y, n)[o].pc.Await? ==> Still(y, n, m, o)
    decreases d, 1, Past(At(y, n)[e], o), RankAt(y, n, e).part, RankAt(y, n, e).item, RankAt(y, n, e).leg,
              RankAt(y, n, e).stage, RankAt(y, n, e).hop
  {
    hide Live, Happens, TakesLater, Flown, Still, Kept, Waiting, Pending, Unserved, Inv, RankAt, Past, Takes, At, Playable;
    EgressFree(y, n, o, e);
    var k := Advance(y, n, e, d);
    PendsWhileStill(y, n, k, o, e);
    m := k + 1;
    ServeEvent(y, n, k, o, e);
    if Pending(At(y, m)[o]) {
      m := Served(y, k + 1, o, e, d);
      FlownOn(At(y, n)[o], At(y, k + 1)[o], At(y, m)[o]);
      if At(y, n)[o].pc.Await? {
        StillMore(y, n, k + 1, m, o);
      }
    }
  }

  lemma EgressFree(y: Play, n: nat, o: nat, e: nat)
    requires Fair(y) && o < |y.start| && e < |y.start| && Unserved(y.net, At(y, n), o, e)
    ensures At(y, n)[o].pc.Await? ==> !At(y, n)[e].pc.Await?
  {
    LiveAt(y, n);
    UnservedPends(y.net, At(y, n), o, e);
    if At(y, n)[o].pc.Await? {
      OneAwaits(y.net, At(y, n), o, e);
    }
  }

  lemma ServeEvent(y: Play, n: nat, k: nat, o: nat, e: nat)
    requires Fair(y) && Unserved(y.net, At(y, n), o, e) && Still(y, n, k, e) && Takes(y, k, e)
    requires Pending(At(y, n)[o]) && !Waiting(At(y, k)[e])
    requires Flown(At(y, n)[o], At(y, k)[o]) && Pending(At(y, k)[o]) && Unserved(y.net, At(y, k), o, e)
    requires At(y, n)[o].pc.Await? ==> Still(y, n, k, o)
    ensures Flown(At(y, n)[o], At(y, k + 1)[o])
    ensures At(y, n)[o].pc.Await? ==> Still(y, n, k + 1, o) && At(y, k + 1)[o].pc.Await?
    ensures Pending(At(y, k + 1)[o]) ==>
      && Unserved(y.net, At(y, k + 1), o, e) && Past(At(y, k + 1)[e], o) <= Past(At(y, n)[e], o)
      && (Past(At(y, k + 1)[e], o) < Past(At(y, n)[e], o) || Below(RankAt(y, k + 1, e), RankAt(y, n, e)))
  {
    LiveAt(y, k);
    NextAt(y, k);
    ServeNearer(y.net, At(y, k), o, e, y.events(k).r);
    StillPlace(y, n, k, e);
    RankKept(y.net, At(y, n), e, At(y, k)[e]);
    FlownOn(At(y, n)[o], At(y, k)[o], At(y, k + 1)[o]);
    if At(y, n)[o].pc.Await? {
      StillNext(y, k, o);
      StillMore(y, n, k, k + 1, o);
      StillPlace(y, n, k + 1, o);
    }
  }

  // ---------- The head command completes ----------

  predicate OnHead(a: Core) {
    a.pc.Top? || (a.pc.Drain? && a.pc.left > 0) || OwnPc(a) || a.pc.Ring? || a.pc.Await?
  }

  // What is left of the head command: 4, the pass in progress; 3, to work on it; 2, to be replied to by its egress;
  // 1, the pass in progress; 0, to take the reply.
  function Phase(a: Core): nat {
    if !a.relayWait then (if OnHead(a) then 3 else 4)
    else if a.relayResp.seqno != a.relaySend then 2
    else if a.pc.Top? || a.pc.Drain? then 0 else 1
  }

  // Closer to the head command's completion.
  ghost predicate Closer(net: Net, a: Core, b: Core)
    requires WfCore(net, a) && WfCore(net, b)
  {
    || |b.done| > |a.done|
    || Phase(b) < Phase(a)
    || (Phase(b) == Phase(a) && Below(PassRank(net, b), PassRank(net, a)))
  }

  lemma QueueCloser(net: Net, s: State, c: nat, t: State)
    requires Inv(net, s) && Inv(net, t) && c < |s| && Queued(s[c]) > 0 && Phase(s[c]) != 2 && !t[c].pc.Halt?
    requires (s[c].pc.Drain? && t == StepDrain(net, s, c)) || (s[c].pc.LegStart? && t == StepLegStart(net, s, c))
    ensures |t[c].done| > |s[c].done| || (Phase(t[c]) <= Phase(s[c]) && !t[c].pc.Top?)
  {
    assert RelayAt(net, s, c);
  }

  lemma SendCloser(net: Net, s: State, c: nat, t: State)
    requires Inv(net, s) && Inv(net, t) && c < |s| && Phase(s[c]) != 2 && s[c].pc.Send? && t == StepSend(net, s, c)
    ensures |t[c].done| > |s[c].done| || (Phase(t[c]) <= Phase(s[c]) && !t[c].pc.Top?)
  {
    assert net.peer[c] != c && HopAt(net, s, c) && RelayAt(net, s, c);
    if s[c].pc.who.For? {
      assert SlotAt(net, s, s[c].pc.who.i, c);
    }
  }

  lemma RestCloser(net: Net, s: State, c: nat, r: Word, t: State)
    requires Inv(net, s) && Inv(net, t) && c < |s| && Queued(s[c]) > 0 && Phase(s[c]) != 2 && !Waiting(s[c])
    requires !s[c].pc.Drain? && !s[c].pc.LegStart? && !s[c].pc.Send? && t == Step(net, s, c, r)
    ensures Phase(t[c]) <= Phase(s[c]) && (t[c].pc.Top? ==> Phase(t[c]) < Phase(s[c]))
  {
    assert net.peer[c] != c && RelayAt(net, s, c);
  }

  lemma StepCloser(net: Net, s: State, c: nat, r: Word)
    requires Live(net, s) && c < |s| && Queued(s[c]) > 0 && Phase(s[c]) != 2 && !Waiting(s[c])
    ensures var t := Step(net, s, c, r); Inv(net, t) && Grows(s[c], t[c]) && Closer(net, s[c], t[c])
  {
    var t := Step(net, s, c, r);
    LiveStep(net, s, c, r);
    StepHist(net, s, c, r, c, t);
    StepNearer(net, s, c, r);
    hide Phase, PassRank, Waiting;
    if s[c].pc.Drain? || s[c].pc.LegStart? {
      QueueCloser(net, s, c, t);
    } else if s[c].pc.Send? {
      SendCloser(net, s, c, t);
    } else {
      RestCloser(net, s, c, r, t);
    }
  }

  lemma PhaseKept(a: Core, b: Core)
    requires Kept(a, b) && Phase(a) != 2
    ensures Phase(b) == Phase(a)
  {
  }

  lemma HeadEvent(y: Play, n: nat, k: nat, c: nat)
    requires Fair(y) && c < |y.start| && Queued(At(y, n)[c]) > 0 && Phase(At(y, n)[c]) != 2
    requires Still(y, n, k, c) && Takes(y, k, c) && !Waiting(At(y, k)[c])
    ensures |At(y, k + 1)[c].hist| >= |At(y, n)[c].hist| && |At(y, k + 1)[c].done| >= |At(y, n)[c].done|
    ensures
      || |At(y, k + 1)[c].done| > |At(y, n)[c].done|
      || Phase(At(y, k + 1)[c]) < Phase(At(y, n)[c])
      || (Phase(At(y, k + 1)[c]) == Phase(At(y, n)[c]) && Below(RankAt(y, k + 1, c), RankAt(y, n, c)))
  {
    LiveAt(y, k);
    NextAt(y, k);
    StillPlace(y, n, k, c);
    PhaseKept(At(y, n)[c], At(y, k)[c]);
    RankKept(y.net, At(y, n), c, At(y, k)[c]);
    StepCloser(y.net, At(y, k), c, y.events(k).r);
  }

  lemma RelayServed(y: Play, n: nat, c: nat) returns (m: nat)
    requires Fair(y) && c < |y.start| && Phase(At(y, n)[c]) == 2
    ensures m >= n && At(y, m)[c].done == At(y, n)[c].done && |At(y, m)[c].hist| >= |At(y, n)[c].hist|
    ensures Phase(At(y, m)[c]) < 2
  {
    LiveAt(y, n);
    assert RelayAt(y.net, At(y, n), c);
    var e := AwaitPends(y.net, At(y, n), c);
    m := Served(y, n, c, e, 1);
  }

  // The oldest command outstanding completes.
  lemma {:induction false} HeadCompletes(y: Play, n: nat, c: nat) returns (m: nat)
    requires Fair(y) && c < |y.start| && Queued(At(y, n)[c]) > 0
    ensures m >= n && |At(y, m)[c].done| > |At(y, n)[c].done| && |At(y, m)[c].hist| >= |At(y, n)[c].hist|
    decreases Phase(At(y, n)[c]), RankAt(y, n, c).part, RankAt(y, n, c).item, RankAt(y, n, c).leg,
              RankAt(y, n, c).stage, RankAt(y, n, c).hop
  {
    hide Live, Happens, TakesLater, Still, Waiting, Phase, RankAt, Takes, At, Playable;
    if Phase(At(y, n)[c]) == 2 {
      var k := RelayServed(y, n, c);
      m := HeadCompletes(y, k, c);
    } else {
      var k := Advance(y, n, c, 1);
      HeadEvent(y, n, k, c);
      m := k + 1;
      if |At(y, m)[c].done| == |At(y, n)[c].done| {
        m := HeadCompletes(y, k + 1, c);
      }
    }
  }

  // Every command a host ever queues completes, whatever is queued after it, with all the host is promised of it.
  lemma {:induction false} NoCommandStarves(y: Play, n: nat, c: nat, k: nat) returns (m: nat)
    requires Fair(y) && c < |y.start| && k < |At(y, n)[c].hist|
    ensures m >= n && k < |At(y, m)[c].done| && ExactlyOnce(At(y, m)[c])
    decreases k + 1 - |At(y, n)[c].done|
  {
    if |At(y, n)[c].done| <= k {
      var i := HeadCompletes(y, n, c);
      m := NoCommandStarves(y, i, c, k);
    } else {
      m := n;
      assert CoreAt(y.net, At(y, m), c);
      InOrder(At(y, m)[c]);
    }
  }
}
