// What every step of the relay protocol keeps, and what that says about whole runs.
module EthRelaySafety {
  import opened EthRelay

  // ---------- The invariant ----------

  // c's own command or a posted relay is being worked on, and at which leg.
  predicate InFlight(a: Core) {
    a.relayWait || a.pc.Ring? || a.pc.Await?
  }

  function FlightLeg(a: Core): nat {
    if a.pc.Ring? || a.pc.Await? then a.pc.leg else 0
  }

  predicate HopPc(a: Core) {
    a.pc.Send? || a.pc.Spin?
  }

  predicate OwnPc(a: Core) {
    a.pc.LegStart? || (HopPc(a) && a.pc.who.Own?)
  }

  // c has started its head command (or halted in it).
  predicate Busy(a: Core) {
    InFlight(a) || OwnPc(a) || a.pc.Halt?
  }

  predicate ServesPc(a: Core, i: nat) {
    HopPc(a) && a.pc.who == For(i)
  }

  // Rank of the first transfer of the head command's leg l.
  function LegBase(a: Core, l: nat): nat
    requires |a.done| < |a.hist| && l <= |Legs(a.hist[|a.done|])|
  {
    Off(a.hist, |a.done|) + LegOff(Legs(a.hist[|a.done|]), l)
  }

  // Entry n is the n-th transfer of the host's program order, made on the chip its leg names.
  ghost predicate EntryOk(hist: seq<Cmd>, e: Entry, n: nat) {
    ValidTag(hist, e.tag) && Rank(hist, e.tag) == n && e.chip == Legs(hist[e.tag.idx])[e.tag.leg].target
  }

  ghost predicate LogOk(hist: seq<Cmd>, log: seq<Entry>) {
    forall n :: 0 <= n < |log| ==> EntryOk(hist, log[n], n)
  }

  // The host got back, for each completed command, the replies its transfers received.
  // No transfer of a later command has been made, and every transfer of every completed command has.
  ghost predicate WindowOk(hist: seq<Cmd>, done: seq<seq<Word>>, log: seq<Entry>) {
    && |done| <= |hist|
    && Off(hist, |done|) <= |log| <= Off(hist, if |done| < |hist| then |done| + 1 else |done|)
  }

  ghost predicate DoneOk(hist: seq<Cmd>, done: seq<seq<Word>>, log: seq<Entry>) {
    forall k :: 0 <= k < |done| ==> DoneAt(hist, done[k], log, k)
  }

  ghost predicate DoneAt(hist: seq<Cmd>, words: seq<Word>, log: seq<Entry>, k: nat) {
    && k < |hist|
    && Off(hist, k + 1) <= |log|
    && (hist[k].Single? ==> |words| == CmdHops(hist[k]) && Matches(words, log, Off(hist, k)))
  }

  ghost predicate Matches(got: seq<Word>, log: seq<Entry>, base: nat) {
    base + |got| <= |log| && forall j :: 0 <= j < |got| ==> got[j] == log[base + j].reply
  }

  // The link from c to its peer p: a transfer is pending in p's one-slot inbox, made but not acknowledged,
  // or acknowledged; and nothing is on the link unless c is spinning for it.
  ghost predicate LinkOk(a: Core, p: Core) {
    && p.inbox.seqno == a.sendSeq
    && if a.pc.Spin? then
         || (p.lastRecv + 1 == a.sendSeq && !p.pc.Ack? && a.resp.seqno == p.lastRecv)
         || (p.lastRecv == a.sendSeq && p.pc.Ack? && a.resp.seqno + 1 == a.sendSeq)
         || (p.lastRecv == a.sendSeq && !p.pc.Ack? && a.resp.seqno == a.sendSeq)
       else
         p.lastRecv == a.sendSeq && !p.pc.Ack? && a.resp.seqno == a.sendSeq
  }

  // The transfer c is making for origin o, whose peer is p.
  ghost predicate HopOk(net: Net, c: nat, a: Core, p: Core, o: Core)
    requires NetOk(net) && c < |net.peer| && WfCore(net, a) && HopPc(a)
  {
    var who, l := a.pc.who, LegOf(a, a.pc.who);
    && |o.done| < |o.hist|
    && IdxOf(a, who) == |o.done|
    && l < |Legs(o.hist[|o.done|])|
    && HopsOf(a, who) == Legs(o.hist[|o.done|])[l].hops
    && Legs(o.hist[|o.done|])[l].target == PeerChip(net, c)
    && a.pc.chunk <= HopsOf(a, who)
    && |a.pc.got| == a.pc.chunk
    && Matches(a.pc.got, o.log, LegBase(o, l))
    && (who.For? ==> a.slots[who.i].seqno != a.last[who.i])
    && (a.pc.Send? ==> |o.log| == LegBase(o, l) + a.pc.chunk)
    && (a.pc.Spin? ==>
          && a.pc.chunk < HopsOf(a, who)
          && p.inbox.tag == Tag(Origin(c, who), |o.done|, l, a.pc.chunk)
          && |o.log| == LegBase(o, l) + a.pc.chunk + (if p.lastRecv == a.sendSeq then 1 else 0)
          && (p.lastRecv == a.sendSeq ==>
                && (p.pc.Ack? ==> p.pc.reply == o.log[LegBase(o, l) + a.pc.chunk].reply)
                && (a.resp.seqno == a.sendSeq ==> a.resp.data == o.log[LegBase(o, l) + a.pc.chunk].reply)))
  }

  // o's slot in mailbox e: it is serviced unless it holds o's relay in flight.
  ghost predicate SlotOk(net: Net, o: nat, a: Core, e: nat, b: Core)
    requires NetOk(net) && o < |net.peer| && e < |net.peer| && WfCore(net, a) && WfCore(net, b)
  {
    && b.last[o] <= a.relaySend
    && (FlightTo(net, o, a, e) && a.relayResp.seqno != a.relaySend ==> b.slots[o].seqno != b.last[o])
    && (b.slots[o].seqno != b.last[o] ==>
          && FlightTo(net, o, a, e)
          && a.relayResp.seqno != a.relaySend
          && b.slots[o] == Slot(a.relaySend, |a.done|, FlightLeg(a), Legs(a.hist[|a.done|])[FlightLeg(a)].hops)
          && (!ServesPc(b, o) ==> |a.log| == LegBase(a, FlightLeg(a))))
  }

  // o has a relay in flight, and its egress is e.
  ghost predicate FlightTo(net: Net, o: nat, a: Core, e: nat)
    requires NetOk(net) && o < |net.peer|
  {
    && InFlight(a)
    && |a.done| < |a.hist|
    && FlightLeg(a) < |Legs(a.hist[|a.done|])|
    && Egress(net, o, Legs(a.hist[|a.done|])[FlightLeg(a)].target) == Some(e)
  }

  // o's relay state: which commands relay, and what o has when the reply is in.
  ghost predicate RelayOk(net: Net, o: nat, a: Core)
    requires NetOk(net) && o < |net.peer| && WfCore(net, a)
  {
    && a.relayResp.seqno <= a.relaySend
    && (!InFlight(a) ==> a.relayResp.seqno == a.relaySend)
    && (a.pc.Ring? && !a.pc.blocking ==> a.pc.leg == 0)
    && (InFlight(a) ==>
          && Queued(a) > 0
          && FlightLeg(a) < |Legs(a.hist[|a.done|])|
          && Legs(a.hist[|a.done|])[FlightLeg(a)].target != PeerChip(net, o)
          && Egress(net, o, Legs(a.hist[|a.done|])[FlightLeg(a)].target).Some?
          && (a.relayResp.seqno == a.relaySend ==>
                && |a.log| == LegBase(a, FlightLeg(a) + 1)
                && |a.relayResp.words| == Legs(a.hist[|a.done|])[FlightLeg(a)].hops
                && Matches(a.relayResp.words, a.log, LegBase(a, FlightLeg(a)))))
    && (a.relayWait ==>
          && a.hist[|a.done|].Single?
          && !OwnPc(a) && !a.pc.Ring? && !a.pc.Await?
          && (a.pc.Drain? ==> a.pc.left > 0 && a.relayResp.seqno == a.relaySend))
    && (a.pc.Ring? ==> Egress(net, o, Legs(a.hist[|a.done|])[a.pc.leg].target) == Some(a.pc.egress))
  }

  // Where the log of a core stands while none of its commands is on a link or in a mailbox.
  ghost predicate IdleOk(net: Net, a: Core)
    requires NetOk(net) && WfCore(net, a)
  {
    && (a.pc.LegStart? ==> |a.log| == LegBase(a, a.pc.leg))
    && (!Busy(a) ==> |a.log| == Off(a.hist, |a.done|))
  }

  // An unserviced slot o of mailbox e is announced: the doorbell is set or about to be rung, or the scan in
  // progress has not passed it.
  ghost predicate BellOk(net: Net, o: nat, a: Core, e: nat, b: Core)
    requires o < |net.peer| && WfCore(net, b)
  {
    b.slots[o].seqno != b.last[o] ==>
      || b.doorbell
      || (a.pc.Ring? && a.pc.egress == e)
      || b.pc.Clear?
      || (b.pc.Scan? && b.pc.k <= o)
      || (HopPc(b) && b.pc.who.For? && b.pc.who.i <= o)
  }

  // The invariant, one instance per core or pair of cores.

  ghost predicate CoreAt(net: Net, s: State, c: nat)
    requires Wf(net, s)
  {
    c < |s| ==>
      && LogOk(s[c].hist, s[c].log)
      && WindowOk(s[c].hist, s[c].done, s[c].log)
      && DoneOk(s[c].hist, s[c].done, s[c].log)
      && IdleOk(net, s[c])
  }

  ghost predicate RelayAt(net: Net, s: State, c: nat)
    requires Wf(net, s)
  {
    c < |s| ==> RelayOk(net, c, s[c])
  }

  ghost predicate LinkAt(net: Net, s: State, c: nat)
    requires Wf(net, s)
  {
    c < |s| ==> LinkOk(s[c], s[net.peer[c]])
  }

  ghost predicate HopAt(net: Net, s: State, c: nat)
    requires Wf(net, s)
  {
    c < |s| && HopPc(s[c]) ==> HopOk(net, c, s[c], s[net.peer[c]], s[Origin(c, s[c].pc.who)])
  }

  ghost predicate SlotAt(net: Net, s: State, o: nat, e: nat)
    requires Wf(net, s)
  {
    o < |s| && e < |s| ==> SlotOk(net, o, s[o], e, s[e])
  }

  ghost predicate BellAt(net: Net, s: State, o: nat, e: nat)
    requires Wf(net, s)
  {
    o < |s| && e < |s| ==> BellOk(net, o, s[o], e, s[e])
  }

  ghost predicate CoresOk(net: Net, s: State) requires Wf(net, s) { forall c {:trigger CoreAt(net, s, c)} :: CoreAt(net, s, c) }
  ghost predicate RelaysOk(net: Net, s: State) requires Wf(net, s) { forall c {:trigger RelayAt(net, s, c)} :: RelayAt(net, s, c) }
  ghost predicate LinksOk(net: Net, s: State) requires Wf(net, s) { forall c {:trigger LinkAt(net, s, c)} :: LinkAt(net, s, c) }
  ghost predicate HopsOk(net: Net, s: State) requires Wf(net, s) { forall c {:trigger HopAt(net, s, c)} :: HopAt(net, s, c) }
  ghost predicate SlotsOk(net: Net, s: State) requires Wf(net, s) { forall o, e {:trigger SlotAt(net, s, o, e)} :: SlotAt(net, s, o, e) }
  ghost predicate BellsOk(net: Net, s: State) requires Wf(net, s) { forall o, e {:trigger BellAt(net, s, o, e)} :: BellAt(net, s, o, e) }

  ghost predicate Inv(net: Net, s: State) {
    && Wf(net, s)
    && CoresOk(net, s)
    && RelaysOk(net, s)
    && LinksOk(net, s)
    && HopsOk(net, s)
    && SlotsOk(net, s)
    && BellsOk(net, s)
  }

  // ---------- Frames: what a step that touches cores c and e alone leaves as it was ----------

  ghost predicate Touch(net: Net, s: State, t: State, c: nat, e: nat) {
    && Wf(net, s) && Wf(net, t) && c < |s| && e < |s|
    && forall x {:trigger t[x]} :: 0 <= x < |s| && x != c && x != e ==> t[x] == s[x]
  }

  ghost predicate SameLink(a: Core, b: Core) {
    && a.sendSeq == b.sendSeq && a.resp == b.resp && a.inbox.seqno == b.inbox.seqno && a.lastRecv == b.lastRecv
    && (a.pc.Spin? <==> b.pc.Spin?) && (a.pc.Ack? <==> b.pc.Ack?)
  }

  lemma LinksFrame(net: Net, s: State, t: State, c: nat, e: nat)
    requires Touch(net, s, t, c, e) && LinksOk(net, s)
    requires SameLink(s[c], t[c]) && SameLink(s[e], t[e])
    ensures LinksOk(net, t)
  {
    forall x: nat ensures LinkAt(net, t, x) {
      assert LinkAt(net, s, x);
    }
  }

  // The two directions of one link change, and no other link does.
  lemma LinksPair(net: Net, s: State, t: State, c: nat, p: nat)
    requires Touch(net, s, t, c, p) && LinksOk(net, s) && p == net.peer[c]
    requires LinkOk(t[c], t[p]) && LinkOk(t[p], t[c])
    ensures LinksOk(net, t)
  {
    forall x: nat ensures LinkAt(net, t, x) {
      assert LinkAt(net, s, x);
      assert x < |s| ==> net.peer[net.peer[x]] == x;
    }
  }

  ghost predicate SameCore(a: Core, b: Core) {
    && a.hist == b.hist && a.done == b.done && a.log == b.log
    && (Busy(a) ==> Busy(b))
    && (b.pc.LegStart? ==> a.pc.LegStart? && a.pc.leg == b.pc.leg)
  }

  lemma CoresFrame(net: Net, s: State, t: State, c: nat, e: nat)
    requires Touch(net, s, t, c, e) && CoresOk(net, s)
    requires e != c ==> SameCore(s[e], t[e])
    requires SameCore(s[c], t[c]) || CoreAt(net, t, c)
    ensures CoresOk(net, t)
  {
    forall x: nat ensures CoreAt(net, t, x) {
      assert CoreAt(net, s, x);
    }
  }

  // What mailbox invariants see of the core that posts, and of slot o of the core that serves.
  ghost predicate SamePoster(a: Core, b: Core) {
    && a.relaySend == b.relaySend && a.relayResp.seqno == b.relayResp.seqno
    && a.hist == b.hist && a.done == b.done && a.log == b.log
    && (InFlight(a) <==> InFlight(b)) && (InFlight(a) ==> FlightLeg(a) == FlightLeg(b))
  }

  ghost predicate SameSlot(a: Core, b: Core, o: nat) {
    && |a.slots| == |b.slots| == |a.last| == |b.last|
    && (o < |a.slots| ==> a.slots[o] == b.slots[o] && a.last[o] == b.last[o])
    && (ServesPc(a, o) ==> ServesPc(b, o))
  }

  lemma SlotSame(net: Net, o: nat, a: Core, a': Core, e: nat, b: Core, b': Core)
    requires NetOk(net) && o < |net.peer| && e < |net.peer|
    requires WfCore(net, a) && WfCore(net, b) && WfCore(net, a') && WfCore(net, b')
    requires SlotOk(net, o, a, e, b) && SamePoster(a, a') && SameSlot(b, b', o)
    ensures SlotOk(net, o, a', e, b')
  {
  }

  lemma SlotsFrame(net: Net, s: State, t: State, c: nat, e: nat)
    requires Touch(net, s, t, c, e) && SlotsOk(net, s)
    requires SamePoster(s[c], t[c]) && SamePoster(s[e], t[e])
    requires forall o {:trigger SameSlot(s[c], t[c], o)} :: 0 <= o < |s| ==> SameSlot(s[c], t[c], o)
    requires forall o {:trigger SameSlot(s[e], t[e], o)} :: 0 <= o < |s| ==> SameSlot(s[e], t[e], o)
    ensures SlotsOk(net, t)
  {
    forall x: nat, y: nat ensures SlotAt(net, t, x, y) {
      assert SlotAt(net, s, x, y);
      if x < |s| && y < |s| {
        assert SameSlot(s[y], t[y], x);
        SlotSame(net, x, s[x], t[x], y, s[y], t[y]);
      }
    }
  }

  // What a transfer sees of the core at the other end of the link, of its origin, and of its own mailbox.
  ghost predicate SameEnd(a: Core, b: Core) {
    && a.inbox == b.inbox && a.lastRecv == b.lastRecv
    && (if a.pc.Ack? then b.pc == a.pc else !b.pc.Ack?)
  }

  ghost predicate SameWork(a: Core, b: Core) {
    a.hist == b.hist && a.done == b.done && a.log == b.log
  }

  ghost predicate SameHop(a: Core, b: Core) {
    && (HopPc(a) || HopPc(b) ==> a.pc == b.pc) && a.sendSeq == b.sendSeq && a.resp == b.resp && a.hist == b.hist && a.done == b.done
    && |a.slots| == |b.slots| == |a.last| == |b.last|
    && (HopPc(a) && a.pc.who.For? && a.pc.who.i < |a.slots| ==>
          a.slots[a.pc.who.i] == b.slots[a.pc.who.i] && a.last[a.pc.who.i] == b.last[a.pc.who.i])
  }

  lemma HopSame(net: Net, c: nat, a: Core, a': Core, p: Core, p': Core, o: Core, o': Core)
    requires NetOk(net) && c < |net.peer| && WfCore(net, a) && WfCore(net, a') && HopPc(a)
    requires HopOk(net, c, a, p, o)
    requires SameHop(a, a') && SameEnd(p, p') && SameWork(o, o')
    ensures HopOk(net, c, a', p', o')
  {
  }

  // All transfers but c's stay as they are.
  lemma HopsFrame(net: Net, s: State, t: State, c: nat, e: nat)
    requires Touch(net, s, t, c, e) && HopsOk(net, s)
    requires SameEnd(s[c], t[c]) && SameWork(s[c], t[c]) && SameWork(s[e], t[e])
    requires e != c ==> SameHop(s[e], t[e]) && (e != net.peer[c] ==> SameEnd(s[e], t[e]))
    requires HopAt(net, t, c)
    ensures HopsOk(net, t)
  {
    forall x: nat ensures HopAt(net, t, x) {
      if x != c && x < |s| && HopPc(s[x]) {
        assert HopAt(net, s, x);
        var p, o := net.peer[x], Origin(x, s[x].pc.who);
        assert net.peer[p] == x;
        HopSame(net, x, s[x], t[x], s[p], t[p], s[o], t[o]);
      }
    }
  }

  ghost predicate SameRelay(a: Core, b: Core) {
    && a.hist == b.hist && a.done == b.done && a.log == b.log && a.pc == b.pc
    && a.relaySend == b.relaySend && a.relayResp == b.relayResp && a.relayWait == b.relayWait
  }

  // All relay states but c's stay as they are.
  lemma RelaysFrame(net: Net, s: State, t: State, c: nat, e: nat)
    requires Touch(net, s, t, c, e) && RelaysOk(net, s)
    requires e != c ==> SameRelay(s[e], t[e])
    requires RelayAt(net, t, c)
    ensures RelaysOk(net, t)
  {
    forall x: nat ensures RelayAt(net, t, x) {
      assert RelayAt(net, s, x);
    }
  }

  // How c's place in the code may change without losing an announcement c is part of.
  ghost predicate BellKept(a: Core, b: Core) {
    && a.slots == b.slots && a.last == b.last && !a.pc.Ring?
    && (a.doorbell ==> b.doorbell || b.pc.Clear? || (b.pc.Scan? && b.pc.k == 0))
    && (a.pc.Clear? ==> b.pc.Clear? || (b.pc.Scan? && b.pc.k == 0))
    && (a.pc.Scan? ==>
          || (b.pc.Scan? && b.pc.k <= a.pc.k)
          || (b.pc.Scan? && b.pc.k == a.pc.k + 1 && a.pc.k < |a.slots| == |a.last| && a.slots[a.pc.k].seqno == a.last[a.pc.k])
          || (a.pc.k == |a.slots|)
          || (HopPc(b) && b.pc.who.For? && b.pc.who.i <= a.pc.k))
    && (HopPc(a) && a.pc.who.For? ==> HopPc(b) && b.pc.who == a.pc.who)
  }

  lemma BellsFrame(net: Net, s: State, t: State, c: nat)
    requires Touch(net, s, t, c, c) && BellsOk(net, s)
    requires BellKept(s[c], t[c])
    ensures BellsOk(net, t)
  {
    forall x: nat, y: nat ensures BellAt(net, t, x, y) {
      assert BellAt(net, s, x, y);
    }
  }

  // ---------- Steps that only poll, or start to use the link ----------

  // c moves on without touching what other cores see of it.
  ghost predicate Moves(net: Net, c: nat, a: Core, b: Core)
    requires NetOk(net) && c < |net.peer|
  {
    && WfCore(net, b) && b == a.(pc := b.pc, doorbell := b.doorbell) && !a.pc.Ack?
    && SameLink(a, b) && SamePoster(a, b) && BellKept(a, b) && IdleOk(net, b) && RelayOk(net, c, b)
  }

  lemma MoveOk(net: Net, s: State, c: nat, t: State)
    requires Inv(net, s) && c < |s| && |t| == |s| && t == s[c := t[c]] && Moves(net, c, s[c], t[c])
    requires Wf(net, t) ==> HopAt(net, t, c)
    ensures Inv(net, t)
  {
    assert CoreAt(net, s, c);
    CoresFrame(net, s, t, c, c);
    RelaysFrame(net, s, t, c, c);
    LinksFrame(net, s, t, c, c);
    HopsFrame(net, s, t, c, c);
    SlotsFrame(net, s, t, c, c);
    BellsFrame(net, s, t, c);
  }

  predicate Calm(pc: Pc) {
    pc.Top? || pc.Drain? || pc.Inbox? || pc.Bell? || pc.Clear? || pc.Scan? || pc.Halt?
  }

  lemma TopMoves(net: Net, c: nat, a: Core, b: Core)
    requires NetOk(net) && c < |net.peer| && WfCore(net, a) && a.pc.Top? && IdleOk(net, a) && RelayOk(net, c, a)
    requires b == a.(pc := if Queued(a) == 0 || (a.relayWait && a.relayResp.seqno != a.relaySend) then Inbox
                           else Drain(Queued(a)))
    ensures Moves(net, c, a, b)
  {
  }

  lemma TopOk(net: Net, s: State, c: nat, r: Word)
    requires Inv(net, s) && c < |s| && s[c].pc.Top?
    ensures Inv(net, Step(net, s, c, r))
  {
    var t := Step(net, s, c, r);
    assert RelayAt(net, s, c) && CoreAt(net, s, c);
    TopMoves(net, c, s[c], t[c]);
    MoveOk(net, s, c, t);
  }

  lemma BellMoves(net: Net, c: nat, a: Core, b: Core)
    requires NetOk(net) && c < |net.peer| && WfCore(net, a) && IdleOk(net, a) && RelayOk(net, c, a)
    requires (a.pc.Bell? && b == a.(pc := if a.doorbell then Clear else Top))
      || (a.pc.Clear? && b == a.(doorbell := false, pc := Scan(0)))
      || (a.pc.Inbox? && b == a.(pc := Bell))
      || (a.pc.Drain? && a.pc.left == 0 && b == a.(pc := Inbox))
    ensures Moves(net, c, a, b)
  {
  }

  lemma BellStepOk(net: Net, s: State, c: nat, r: Word)
    requires Inv(net, s) && c < |s| && (s[c].pc.Bell? || s[c].pc.Clear?)
    ensures Inv(net, Step(net, s, c, r))
  {
    var t := Step(net, s, c, r);
    assert RelayAt(net, s, c) && CoreAt(net, s, c);
    BellMoves(net, c, s[c], t[c]);
    MoveOk(net, s, c, t);
  }

  lemma ScanMoves(net: Net, c: nat, a: Core, b: Core)
    requires NetOk(net) && c < |net.peer| && WfCore(net, a) && IdleOk(net, a) && RelayOk(net, c, a) && a.pc.Scan?
    requires b == a.(pc := if a.pc.k == |net.peer| then Top
                           else if a.slots[a.pc.k].seqno != a.last[a.pc.k] then Send(For(a.pc.k), 0, [])
                           else Scan(a.pc.k + 1))
    ensures Moves(net, c, a, b)
  {
  }

  lemma ScanSkipOk(net: Net, s: State, c: nat, r: Word)
    requires Inv(net, s) && c < |s| && s[c].pc.Scan? && !Step(net, s, c, r)[c].pc.Send?
    ensures Inv(net, Step(net, s, c, r))
  {
    var t := Step(net, s, c, r);
    assert RelayAt(net, s, c) && CoreAt(net, s, c);
    ScanMoves(net, c, s[c], t[c]);
    MoveOk(net, s, c, t);
  }

  lemma InboxPollOk(net: Net, s: State, c: nat, r: Word)
    requires Inv(net, s) && c < |s| && s[c].pc.Inbox? && s[c].inbox.seqno == s[c].lastRecv
    ensures Inv(net, Step(net, s, c, r))
  {
    var t := Step(net, s, c, r);
    assert RelayAt(net, s, c) && CoreAt(net, s, c);
    BellMoves(net, c, s[c], t[c]);
    MoveOk(net, s, c, t);
  }

  lemma DrainEndOk(net: Net, s: State, c: nat, r: Word)
    requires Inv(net, s) && c < |s| && s[c].pc.Drain? && s[c].pc.left == 0
    ensures Inv(net, Step(net, s, c, r))
  {
    var t := Step(net, s, c, r);
    assert RelayAt(net, s, c) && CoreAt(net, s, c);
    BellMoves(net, c, s[c], t[c]);
    MoveOk(net, s, c, t);
  }

  // Slot k of mailbox c is unserviced, so c can make the transfers it asks for.
  lemma ServiceHop(net: Net, c: nat, b: Core, p: Core, k: nat, o: Core)
    requires NetOk(net) && c < |net.peer| && k < |net.peer| && WfCore(net, b) && WfCore(net, o)
    requires SlotOk(net, k, o, c, b) && RelayOk(net, k, o) && b.slots[k].seqno != b.last[k] && !ServesPc(b, k)
    requires WfCore(net, b.(pc := Send(For(k), 0, [])))
    ensures HopOk(net, c, b.(pc := Send(For(k), 0, [])), p, o)
  {
  }

  lemma ScanStartOk(net: Net, s: State, c: nat, r: Word)
    requires Inv(net, s) && c < |s| && s[c].pc.Scan? && Step(net, s, c, r)[c].pc.Send?
    ensures Inv(net, Step(net, s, c, r))
  {
    var t, k := Step(net, s, c, r), s[c].pc.k;
    assert CoreAt(net, s, c) && RelayAt(net, s, c) && RelayAt(net, s, k) && SlotAt(net, s, k, c);
    ScanMoves(net, c, s[c], t[c]);
    ServiceHop(net, c, s[c], t[net.peer[c]], k, s[k]);
    assert k != c ==> t[k] == s[k];
    MoveOk(net, s, c, t);
  }

  lemma DrainStartOk(net: Net, s: State, c: nat, r: Word)
    requires Inv(net, s) && c < |s| && s[c].pc.Drain?
    requires Step(net, s, c, r)[c].pc.Send? || Step(net, s, c, r)[c].pc.LegStart?
    ensures Inv(net, Step(net, s, c, r))
  {
    assert RelayAt(net, s, c) && CoreAt(net, s, c);
    MoveOk(net, s, c, Step(net, s, c, r));
  }

  lemma LegSendOk(net: Net, s: State, c: nat, r: Word)
    requires Inv(net, s) && c < |s| && s[c].pc.LegStart? && Step(net, s, c, r)[c].pc.Send?
    ensures Inv(net, Step(net, s, c, r))
  {
    assert RelayAt(net, s, c) && CoreAt(net, s, c);
    MoveOk(net, s, c, Step(net, s, c, r));
  }

  // ---------- Posting a relay, ringing the doorbell, taking the reply ----------

  // Whenever core c is not waiting for a relay reply, every slot it owns has been serviced.
  lemma IdleSlots(net: Net, s: State, c: nat, e: nat)
    requires Wf(net, s) && SlotsOk(net, s) && HopsOk(net, s) && c < |s| && e < |s|
    requires s[c].relayResp.seqno == s[c].relaySend
    ensures s[e].slots[c].seqno == s[e].last[c]
    ensures !ServesPc(s[e], c)
  {
    assert SlotAt(net, s, c, e) && HopAt(net, s, e);
  }

  // c posts leg `leg` of its head command into the mailbox of e.
  ghost predicate Posts(net: Net, s: State, c: nat, e: nat, leg: nat, t: State) {
    && Inv(net, s) && c < |s| && e < |s| && c != e
    && |s[c].done| < |s[c].hist| && leg < |Legs(s[c].hist[|s[c].done|])|
    && (s[c].pc.Drain? || s[c].pc.LegStart?) && 0 < s[c].pc.left
    && (if s[c].pc.Drain? then s[c].hist[|s[c].done|].Single? && leg == 0 && !s[c].relayWait
        else s[c].pc.LegStart? && s[c].pc.leg == leg)
    && Legs(s[c].hist[|s[c].done|])[leg].target != PeerChip(net, c)
    && Egress(net, c, Legs(s[c].hist[|s[c].done|])[leg].target) == Some(e)
    && t == Post(s, c, e, s[c].pc.left, leg, s[c].pc.LegStart?)
  }

  lemma PostLocal(net: Net, s: State, c: nat, e: nat, leg: nat, t: State)
    requires Posts(net, s, c, e, leg, t)
    ensures Touch(net, s, t, c, e)
    ensures CoreAt(net, t, c) && RelayAt(net, t, c) && HopAt(net, t, c)
    ensures s[c].relayResp.seqno == s[c].relaySend
  {
    assert RelayAt(net, s, c) && CoreAt(net, s, c) && RelayAt(net, s, e);
  }

  lemma PostHops(net: Net, s: State, c: nat, e: nat, leg: nat, t: State)
    requires Posts(net, s, c, e, leg, t) && Touch(net, s, t, c, e) && HopAt(net, t, c)
    requires s[c].relayResp.seqno == s[c].relaySend
    ensures HopsOk(net, t)
  {
    IdleSlots(net, s, c, e);
    HopsFrame(net, s, t, c, e);
  }

  lemma PostSlot(net: Net, s: State, c: nat, e: nat, leg: nat, t: State, y: nat)
    requires Posts(net, s, c, e, leg, t) && Touch(net, s, t, c, e) && y < |s|
    requires s[c].relayResp.seqno == s[c].relaySend
    ensures SlotAt(net, t, c, y)
  {
    IdleSlots(net, s, c, y);
    assert CoreAt(net, s, c) && RelayAt(net, s, c) && SlotAt(net, s, c, y);
  }

  lemma PostSlots(net: Net, s: State, c: nat, e: nat, leg: nat, t: State)
    requires Posts(net, s, c, e, leg, t) && Touch(net, s, t, c, e)
    requires s[c].relayResp.seqno == s[c].relaySend
    ensures SlotsOk(net, t)
  {
    forall x: nat, y: nat ensures SlotAt(net, t, x, y) {
      if x < |s| && y < |s| {
        if x == c {
          PostSlot(net, s, c, e, leg, t, y);
        } else {
          assert SlotAt(net, s, x, y);
          SlotSame(net, x, s[x], t[x], y, s[y], t[y]);
        }
      }
    }
  }

  lemma PostBells(net: Net, s: State, c: nat, e: nat, leg: nat, t: State)
    requires Posts(net, s, c, e, leg, t) && Touch(net, s, t, c, e)
    ensures BellsOk(net, t)
  {
    forall x: nat, y: nat ensures BellAt(net, t, x, y) {
      assert BellAt(net, s, x, y);
    }
  }

  lemma PostOk(net: Net, s: State, c: nat, e: nat, leg: nat, t: State)
    requires Posts(net, s, c, e, leg, t)
    ensures Inv(net, t)
  {
    PostLocal(net, s, c, e, leg, t);
    CoresFrame(net, s, t, c, e);
    RelaysFrame(net, s, t, c, e);
    LinksFrame(net, s, t, c, e);
    PostHops(net, s, c, e, leg, t);
    PostSlots(net, s, c, e, leg, t);
    PostBells(net, s, c, e, leg, t);
  }

  lemma RingBells(net: Net, s: State, c: nat, t: State)
    requires Inv(net, s) && c < |s| && s[c].pc.Ring? && t == StepRing(net, s, c) && Wf(net, t)
    ensures BellsOk(net, t)
  {
    forall x: nat, y: nat ensures BellAt(net, t, x, y) {
      assert BellAt(net, s, x, y);
    }
  }

  lemma RingShape(net: Net, s: State, c: nat, t: State)
    requires Inv(net, s) && c < |s| && s[c].pc.Ring? && t == StepRing(net, s, c)
    ensures s[c].pc.egress != c && Touch(net, s, t, c, s[c].pc.egress)
    ensures t[c] == (if s[c].pc.blocking then s[c].(pc := Await(s[c].pc.left, s[c].pc.leg))
                     else s[c].(relayWait := true, pc := Inbox))
  {
    assert RelayAt(net, s, c);
  }

  lemma RingLocal(net: Net, s: State, c: nat, t: State)
    requires Wf(net, s) && Wf(net, t) && CoreAt(net, s, c) && c < |s| && s[c].pc.Ring?
    requires s[c].pc.blocking || s[c].pc.leg == 0
    requires t[c] == (if s[c].pc.blocking then s[c].(pc := Await(s[c].pc.left, s[c].pc.leg))
                      else s[c].(relayWait := true, pc := Inbox))
    ensures CoreAt(net, t, c) && HopAt(net, t, c) && SamePoster(s[c], t[c])
  {
  }

  lemma RingRelay(net: Net, c: nat, a: Core, b: Core)
    requires NetOk(net) && c < |net.peer| && WfCore(net, a) && WfCore(net, b) && RelayOk(net, c, a) && a.pc.Ring?
    requires b == (if a.pc.blocking then a.(pc := Await(a.pc.left, a.pc.leg)) else a.(relayWait := true, pc := Inbox))
    ensures RelayOk(net, c, b)
  {
  }

  lemma RingOk(net: Net, s: State, c: nat, r: Word)
    requires Inv(net, s) && c < |s| && s[c].pc.Ring?
    ensures Inv(net, Step(net, s, c, r))
  {
    var t, e := StepRing(net, s, c), s[c].pc.egress;
    RingShape(net, s, c, t);
    assert CoreAt(net, s, c) && RelayAt(net, s, c);
    RingLocal(net, s, c, t);
    RingRelay(net, c, s[c], t[c]);
    CoresFrame(net, s, t, c, e);
    RelaysFrame(net, s, t, c, e);
    LinksFrame(net, s, t, c, e);
    HopsFrame(net, s, t, c, e);
    SlotsFrame(net, s, t, c, e);
    RingBells(net, s, c, t);
  }

  // c's relay is over: its reply is in, and no mailbox holds anything of c's.
  lemma EndSlots(net: Net, s: State, c: nat, t: State)
    requires Inv(net, s) && Touch(net, s, t, c, c) && s[c].relayResp.seqno == s[c].relaySend
    requires t[c].relayResp == s[c].relayResp && t[c].relaySend == s[c].relaySend
    requires t[c].slots == s[c].slots && t[c].last == s[c].last
    requires HopPc(s[c]) && s[c].pc.who.For? ==> t[c].pc == s[c].pc
    ensures SlotsOk(net, t)
  {
    forall x: nat, y: nat ensures SlotAt(net, t, x, y) {
      assert SlotAt(net, s, x, y);
      if x == c && y < |s| {
        IdleSlots(net, s, c, y);
      }
    }
  }

  lemma AwaitOk(net: Net, s: State, c: nat, r: Word)
    requires Inv(net, s) && c < |s| && s[c].pc.Await?
    ensures Inv(net, Step(net, s, c, r))
  {
    var t := Step(net, s, c, r);
    if s[c].relayResp.seqno == s[c].relaySend {
      assert RelayAt(net, s, c) && CoreAt(net, s, c);
      CoresFrame(net, s, t, c, c);
      RelaysFrame(net, s, t, c, c);
      LinksFrame(net, s, t, c, c);
      HopsFrame(net, s, t, c, c);
      EndSlots(net, s, c, t);
      BellsFrame(net, s, t, c);
    }
  }

  // ---------- Completing a command ----------

  lemma OneLeg(cmd: Cmd)
    requires cmd.Single?
    ensures CmdHops(cmd) == LegOff(Legs(cmd), 1) == cmd.leg.hops
  {
    assert LegOff(Legs(cmd), 0) == 0;
  }

  // c completes its head command, handing `words` to the host.
  ghost predicate Completes(net: Net, s: State, c: nat, words: seq<Word>, t: State) {
    && Inv(net, s) && Touch(net, s, t, c, c) && |s[c].done| < |s[c].hist|
    && t[c] == s[c].(done := s[c].done + [words], relayWait := false, pc := t[c].pc) && t[c].pc.Drain?
    && (s[c].pc.Drain? || s[c].pc.LegStart? || (s[c].pc.Send? && s[c].pc.who.Own?))
    && s[c].relayResp.seqno == s[c].relaySend
    && |s[c].log| == Off(s[c].hist, |s[c].done| + 1)
    && (s[c].hist[|s[c].done|].Single? ==>
          && |words| == CmdHops(s[c].hist[|s[c].done|])
          && Matches(words, s[c].log, Off(s[c].hist, |s[c].done|)))
  }

  lemma CompleteCores(net: Net, s: State, c: nat, words: seq<Word>, t: State)
    requires Completes(net, s, c, words, t)
    ensures CoresOk(net, t) && RelaysOk(net, t)
  {
    assert CoreAt(net, s, c) && RelayAt(net, s, c);
    CoresFrame(net, s, t, c, c);
    RelaysFrame(net, s, t, c, c);
  }

  lemma CompleteHops(net: Net, s: State, c: nat, words: seq<Word>, t: State)
    requires Completes(net, s, c, words, t)
    ensures HopsOk(net, t)
  {
    forall x: nat ensures HopAt(net, t, x) {
      if x != c && x < |s| && HopPc(s[x]) {
        assert HopAt(net, s, x);
        IdleSlots(net, s, c, x);
        var p, o := net.peer[x], Origin(x, s[x].pc.who);
        HopSame(net, x, s[x], t[x], s[p], t[p], s[o], t[o]);
      }
    }
  }

  lemma CompleteOk(net: Net, s: State, c: nat, words: seq<Word>, t: State)
    requires Completes(net, s, c, words, t)
    ensures Inv(net, t)
  {
    CompleteCores(net, s, c, words, t);
    CompleteHops(net, s, c, words, t);
    LinksFrame(net, s, t, c, c);
    EndSlots(net, s, c, t);
    BellsFrame(net, s, t, c);
  }

  lemma CollectOk(net: Net, s: State, c: nat, r: Word)
    requires Inv(net, s) && c < |s| && s[c].pc.Drain? && Step(net, s, c, r)[c].pc.Drain?
    ensures Inv(net, Step(net, s, c, r))
  {
    var t := Step(net, s, c, r);
    assert RelayAt(net, s, c);
    OneLeg(s[c].hist[|s[c].done|]);
    CompleteOk(net, s, c, s[c].relayResp.words, t);
  }

  lemma BroadcastEndOk(net: Net, s: State, c: nat, r: Word)
    requires Inv(net, s) && c < |s| && s[c].pc.LegStart? && Step(net, s, c, r)[c].pc.Drain?
    ensures Inv(net, Step(net, s, c, r))
  {
    var t := Step(net, s, c, r);
    assert RelayAt(net, s, c) && CoreAt(net, s, c);
    CompleteOk(net, s, c, [], t);
  }

  lemma OwnEndOk(net: Net, s: State, c: nat, r: Word)
    requires Inv(net, s) && c < |s| && s[c].pc.Send? && Step(net, s, c, r)[c].pc.Drain?
    ensures Inv(net, Step(net, s, c, r))
  {
    var t := Step(net, s, c, r);
    assert RelayAt(net, s, c) && HopAt(net, s, c);
    OneLeg(s[c].hist[|s[c].done|]);
    CompleteOk(net, s, c, s[c].pc.got, t);
  }

  lemma LegEndOk(net: Net, s: State, c: nat, r: Word)
    requires Inv(net, s) && c < |s| && s[c].pc.Send? && Step(net, s, c, r)[c].pc.LegStart?
    ensures Inv(net, Step(net, s, c, r))
  {
    assert RelayAt(net, s, c) && CoreAt(net, s, c) && HopAt(net, s, c);
    MoveOk(net, s, c, Step(net, s, c, r));
  }

  lemma HaltOk(net: Net, s: State, c: nat, t: State)
    requires Inv(net, s) && c < |s| && (s[c].pc.Drain? || s[c].pc.LegStart?) && t == s[c := s[c].(pc := Halt)]
    requires RelayAt(net, t, c)
    ensures Inv(net, t)
  {
    assert CoreAt(net, s, c);
    MoveOk(net, s, c, t);
  }

  // ---------- A transfer over the link ----------

  lemma SendLinks(net: Net, s: State, c: nat, t: State)
    requires Inv(net, s) && c < |s| && s[c].pc.Send? && t == StepSend(net, s, c) && t[c].pc.Spin?
    requires Touch(net, s, t, c, net.peer[c]) && net.peer[c] != c
    ensures LinksOk(net, t)
  {
    assert LinkAt(net, s, c) && LinkAt(net, s, net.peer[c]);
    LinksPair(net, s, t, c, net.peer[c]);
  }

  lemma SendOk(net: Net, s: State, c: nat, r: Word)
    requires Inv(net, s) && c < |s| && s[c].pc.Send? && Step(net, s, c, r)[c].pc.Spin?
    ensures Inv(net, Step(net, s, c, r))
  {
    var t, p := StepSend(net, s, c), net.peer[c];
    SendTouch(net, s, c, t);
    SendShape(net, s, c, t);
    SendLinks(net, s, c, t);
    CoresFrame(net, s, t, c, p);
    RelaysFrame(net, s, t, c, p);
    HopsFrame(net, s, t, c, p);
    SlotsFrame(net, s, t, c, p);
    SendBells(net, s, c, t);
  }

  lemma SendHop(net: Net, c: nat, a: Core, a': Core, p: Core, p': Core, o: Core, o': Core)
    requires NetOk(net) && c < |net.peer| && WfCore(net, a) && WfCore(net, a') && a.pc.Send?
    requires HopOk(net, c, a, p, o) && LinkOk(a, p) && SameWork(o, o') && a.pc.chunk < HopsOf(a, a.pc.who)
    requires a' == a.(sendSeq := a.sendSeq + 1, pc := Spin(a.pc.who, a.pc.chunk, a.pc.got))
    requires p' == p.(inbox := Packet(a.sendSeq + 1,
      Tag(Origin(c, a.pc.who), IdxOf(a, a.pc.who), LegOf(a, a.pc.who), a.pc.chunk)))
    ensures HopOk(net, c, a', p', o')
  {
  }

  lemma SendTouch(net: Net, s: State, c: nat, t: State)
    requires Wf(net, s) && c < |s| && s[c].pc.Send? && t == StepSend(net, s, c) && t[c].pc.Spin?
    ensures Touch(net, s, t, c, net.peer[c]) && net.peer[c] != c
  {
  }

  lemma SendShape(net: Net, s: State, c: nat, t: State)
    requires Inv(net, s) && c < |s| && s[c].pc.Send? && t == StepSend(net, s, c) && t[c].pc.Spin? && Wf(net, t)
    ensures RelayAt(net, t, c) && HopAt(net, t, c)
  {
    assert RelayAt(net, s, c) && HopAt(net, s, c) && LinkAt(net, s, c);
    var p, o := net.peer[c], Origin(c, s[c].pc.who);
    SendHop(net, c, s[c], t[c], s[p], t[p], s[o], t[o]);
  }

  lemma SendBells(net: Net, s: State, c: nat, t: State)
    requires Inv(net, s) && c < |s| && s[c].pc.Send? && t == StepSend(net, s, c) && t[c].pc.Spin? && Wf(net, t)
    ensures BellsOk(net, t)
  {
    forall x: nat, y: nat ensures BellAt(net, t, x, y) {
      assert BellAt(net, s, x, y);
    }
  }

  lemma SpinOk(net: Net, s: State, c: nat, r: Word)
    requires Inv(net, s) && c < |s| && s[c].pc.Spin?
    ensures Inv(net, Step(net, s, c, r))
  {
    var t := Step(net, s, c, r);
    if s[c].resp.seqno == s[c].sendSeq {
      SpinShape(net, s, c, t);
      SpinLinks(net, s, c, t);
      CoresFrame(net, s, t, c, c);
      RelaysFrame(net, s, t, c, c);
      HopsFrame(net, s, t, c, c);
      SlotsFrame(net, s, t, c, c);
      BellsFrame(net, s, t, c);
    }
  }

  ghost predicate Receives(net: Net, s: State, c: nat, t: State) {
    && Inv(net, s) && c < |s| && s[c].pc.Spin? && s[c].resp.seqno == s[c].sendSeq
    && t == s[c := s[c].(pc := Send(s[c].pc.who, s[c].pc.chunk + 1, s[c].pc.got + [s[c].resp.data]))]
  }

  lemma ReceiveHop(net: Net, c: nat, a: Core, a': Core, p: Core, o: Core, o': Core)
    requires NetOk(net) && c < |net.peer| && WfCore(net, a) && WfCore(net, a') && a.pc.Spin?
    requires HopOk(net, c, a, p, o) && LinkOk(a, p) && a.resp.seqno == a.sendSeq && SameWork(o, o')
    requires a' == a.(pc := Send(a.pc.who, a.pc.chunk + 1, a.pc.got + [a.resp.data]))
    ensures HopOk(net, c, a', p, o')
  {
  }

  lemma SpinShape(net: Net, s: State, c: nat, t: State)
    requires Receives(net, s, c, t)
    ensures Touch(net, s, t, c, c)
    ensures RelayAt(net, t, c) && HopAt(net, t, c)
  {
    assert RelayAt(net, s, c) && HopAt(net, s, c) && LinkAt(net, s, c);
    var p, o := net.peer[c], Origin(c, s[c].pc.who);
    ReceiveHop(net, c, s[c], t[c], s[p], s[o], t[o]);
  }

  lemma SpinLinks(net: Net, s: State, c: nat, t: State)
    requires Receives(net, s, c, t) && Wf(net, t)
    ensures LinksOk(net, t)
  {
    forall x: nat ensures LinkAt(net, t, x) {
      assert LinkAt(net, s, x);
    }
  }

  // The receiver c answers the core q at the other end of its link.
  lemma AckOk(net: Net, s: State, c: nat, r: Word)
    requires Inv(net, s) && c < |s| && s[c].pc.Ack?
    ensures Inv(net, Step(net, s, c, r))
  {
    var t, q := Step(net, s, c, r), net.peer[c];
    AckTouch(net, s, c, t);
    AckShape(net, s, c, t);
    AckLinks(net, s, c, t);
    CoresFrame(net, s, t, q, c);
    assert RelayAt(net, s, c);
    RelayMove(net, c, s[c], t[c]);
    RelaysFrame(net, s, t, c, q);
    HopsFrame(net, s, t, q, c);
    SlotsFrame(net, s, t, q, c);
    AckBells(net, s, c, t);
  }

  ghost predicate Acks(net: Net, s: State, c: nat, t: State) {
    && Inv(net, s) && c < |s| && s[c].pc.Ack? && net.peer[c] != c
    && t == s[c := s[c].(pc := Bell)][net.peer[c] := s[net.peer[c]].(resp := Reply(s[c].lastRecv, s[c].pc.reply))]
  }

  lemma AckHop(net: Net, q: nat, a: Core, a': Core, p: Core, p': Core, o: Core, o': Core)
    requires NetOk(net) && q < |net.peer| && WfCore(net, a) && WfCore(net, a') && HopPc(a)
    requires HopOk(net, q, a, p, o) && LinkOk(a, p) && p.pc.Ack? && SameWork(o, o')
    requires p' == p.(pc := Bell) && a' == a.(resp := Reply(p.lastRecv, p.pc.reply))
    ensures HopOk(net, q, a', p', o')
  {
  }

  lemma AckTouch(net: Net, s: State, c: nat, t: State)
    requires Wf(net, s) && c < |s| && s[c].pc.Ack? && t == Step(net, s, c, 0)
    ensures net.peer[c] != c && Touch(net, s, t, net.peer[c], c) && Touch(net, s, t, c, net.peer[c])
    ensures t == s[c := s[c].(pc := Bell)][net.peer[c] := s[net.peer[c]].(resp := Reply(s[c].lastRecv, s[c].pc.reply))]
  {
  }

  lemma AckShape(net: Net, s: State, c: nat, t: State)
    requires Acks(net, s, c, t) && Wf(net, t)
    ensures HopAt(net, t, net.peer[c])
  {
    var q := net.peer[c];
    assert HopAt(net, s, q) && LinkAt(net, s, q);
    var o := Origin(q, s[q].pc.who);
    AckHop(net, q, s[q], t[q], s[c], t[c], s[o], t[o]);
  }

  lemma AckLinks(net: Net, s: State, c: nat, t: State)
    requires Acks(net, s, c, t) && Touch(net, s, t, c, net.peer[c])
    ensures LinksOk(net, t)
  {
    assert LinkAt(net, s, c) && LinkAt(net, s, net.peer[c]);
    LinksPair(net, s, t, c, net.peer[c]);
  }

  lemma AckBells(net: Net, s: State, c: nat, t: State)
    requires Acks(net, s, c, t) && Wf(net, t)
    ensures BellsOk(net, t)
  {
    forall x: nat, y: nat ensures BellAt(net, t, x, y) {
      assert BellAt(net, s, x, y);
    }
  }

  // ---------- The receiver makes an access ----------

  // c makes the access its peer q asked for on behalf of core o.
  ghost predicate Serves(net: Net, s: State, c: nat, q: nat, o: nat, r: Word, t: State) {
    && Inv(net, s) && c < |s| && s[c].pc.Inbox? && s[c].inbox.seqno != s[c].lastRecv
    && q == net.peer[c] && o == s[c].inbox.tag.origin
    && t == StepInbox(net, s, c, r)
  }

  lemma ServeTouch(net: Net, s: State, c: nat, q: nat, o: nat, r: Word, t: State)
    requires Serves(net, s, c, q, o, r, t)
    ensures s[q].pc.Spin? && o == Origin(q, s[q].pc.who) && o < |s|
    ensures s[c].inbox.seqno == s[q].sendSeq && s[c].lastRecv + 1 == s[q].sendSeq
    ensures HopOk(net, q, s[q], s[c], s[o])
    ensures net.chip[o] == net.chip[q] && o != c && q != c
  {
    assert LinkAt(net, s, q) && HopAt(net, s, q) && net.peer[q] == c;
    if s[q].pc.who.For? {
      assert SlotAt(net, s, o, q);
    }
  }

  // No other core is making a transfer for o, and no mailbox but one being served holds a relay of o's.
  lemma OneServer(net: Net, s: State, q: nat, o: nat, x: nat)
    requires Inv(net, s) && q < |s| && s[q].pc.Spin? && o == Origin(q, s[q].pc.who) && x < |s|
    ensures HopPc(s[x]) && Origin(x, s[x].pc.who) == o ==> x == q
    ensures s[x].slots[o].seqno != s[x].last[o] ==> x == q && ServesPc(s[x], o)
    ensures Busy(s[o]) && !s[o].pc.LegStart?
  {
    assert HopAt(net, s, q) && HopAt(net, s, x) && RelayAt(net, s, o) && SlotAt(net, s, o, q) && SlotAt(net, s, o, x);
  }

  lemma DoneGrow(hist: seq<Cmd>, done: seq<seq<Word>>, log: seq<Entry>, e: Entry)
    requires DoneOk(hist, done, log)
    ensures DoneOk(hist, done, log + [e])
  {
    forall k | 0 <= k < |done| ensures DoneAt(hist, done[k], log + [e], k) {
      assert DoneAt(hist, done[k], log, k);
      if hist[k].Single? {
        OneLeg(hist[k]);
        assert Off(hist, k + 1) == Off(hist, k) + CmdHops(hist[k]);
      }
    }
  }

  lemma LogGrow(hist: seq<Cmd>, log: seq<Entry>, e: Entry)
    requires LogOk(hist, log) && EntryOk(hist, e, |log|)
    ensures LogOk(hist, log + [e])
  {
  }

  lemma ServeShape(net: Net, s: State, c: nat, q: nat, o: nat, r: Word, t: State)
    requires Serves(net, s, c, q, o, r, t) && o < |s| && o != c
    ensures t == s[c := s[c].(lastRecv := s[c].inbox.seqno, pc := Ack(r))]
                  [o := s[o].(log := s[o].log + [Entry(s[c].inbox.tag, r, net.chip[c])])]
    ensures Touch(net, s, t, c, o) && Touch(net, s, t, o, c)
  {
  }

  lemma ServeCores(net: Net, s: State, c: nat, q: nat, o: nat, r: Word, t: State)
    requires Serves(net, s, c, q, o, r, t) && Touch(net, s, t, o, c) && o != c
    ensures CoresOk(net, t)
  {
    ServeTouch(net, s, c, q, o, r, t);
    ServeShape(net, s, c, q, o, r, t);
    OneServer(net, s, q, o, q);
    assert CoreAt(net, s, o);
    var e := Entry(s[c].inbox.tag, r, net.chip[c]);
    DoneGrow(s[o].hist, s[o].done, s[o].log, e);
    LogGrow(s[o].hist, s[o].log, e);
    RankBound(s[o].hist, e.tag);
    CoresFrame(net, s, t, o, c);
  }

  // A core that is not in the middle of a command of its own may move freely.
  lemma RelayMove(net: Net, c: nat, a: Core, b: Core)
    requires NetOk(net) && c < |net.peer| && WfCore(net, a) && WfCore(net, b) && RelayOk(net, c, a)
    requires a.hist == b.hist && a.done == b.done && a.log == b.log
    requires a.relaySend == b.relaySend && a.relayResp == b.relayResp && a.relayWait == b.relayWait
    requires !a.pc.Ring? && !a.pc.Await? && !b.pc.Ring? && !b.pc.Await? && !OwnPc(b) && !b.pc.Drain?
    ensures RelayOk(net, c, b)
  {
  }

  lemma RelayLog(net: Net, o: nat, a: Core, e: Entry)
    requires NetOk(net) && o < |net.peer| && WfCore(net, a) && RelayOk(net, o, a)
    requires InFlight(a) ==> a.relayResp.seqno != a.relaySend
    ensures WfCore(net, a.(log := a.log + [e])) && RelayOk(net, o, a.(log := a.log + [e]))
  {
  }

  lemma ServeRelays(net: Net, s: State, c: nat, q: nat, o: nat, r: Word, t: State)
    requires Serves(net, s, c, q, o, r, t) && Touch(net, s, t, o, c) && o != c
    ensures RelaysOk(net, t)
  {
    ServeTouch(net, s, c, q, o, r, t);
    ServeShape(net, s, c, q, o, r, t);
    ServedFlight(net, s, q, o);
    assert RelayAt(net, s, o) && RelayAt(net, s, c);
    RelayLog(net, o, s[o], Entry(s[c].inbox.tag, r, net.chip[c]));
    RelayMove(net, c, s[c], t[c]);
    forall x: nat ensures RelayAt(net, t, x) {
      assert RelayAt(net, s, x);
    }
  }

  lemma ServedFlight(net: Net, s: State, q: nat, o: nat)
    requires Inv(net, s) && q < |s| && HopPc(s[q]) && o == Origin(q, s[q].pc.who)
    ensures o < |s| && (InFlight(s[o]) ==> s[o].relayResp.seqno != s[o].relaySend)
  {
    assert HopAt(net, s, q) && RelayAt(net, s, o) && SlotAt(net, s, o, q);
  }

  lemma ServeLinks(net: Net, s: State, c: nat, q: nat, o: nat, r: Word, t: State)
    requires Serves(net, s, c, q, o, r, t) && Touch(net, s, t, o, c) && o != c
    ensures LinksOk(net, t)
  {
    ServeTouch(net, s, c, q, o, r, t);
    ServeShape(net, s, c, q, o, r, t);
    forall x: nat ensures LinkAt(net, t, x) {
      assert LinkAt(net, s, x) && LinkAt(net, s, q);
      assert x < |s| ==> net.peer[net.peer[x]] == x;
    }
  }

  lemma ServeHop(net: Net, q: nat, a: Core, a': Core, p: Core, p': Core, o: Core, o': Core, r: Word, chip: nat)
    requires NetOk(net) && q < |net.peer| && WfCore(net, a) && WfCore(net, a') && a.pc.Spin?
    requires HopOk(net, q, a, p, o) && LinkOk(a, p) && p.pc.Inbox? && p.inbox.seqno != p.lastRecv
    requires p' == p.(lastRecv := p.inbox.seqno, pc := Ack(r))
    requires o' == o.(log := o.log + [Entry(p.inbox.tag, r, chip)])
    requires a' == a || a' == a.(log := a'.log)
    ensures HopOk(net, q, a', p', o')
  {
  }

  lemma ServeOtherHop(net: Net, s: State, c: nat, q: nat, o: nat, r: Word, t: State, x: nat)
    requires Serves(net, s, c, q, o, r, t) && Touch(net, s, t, o, c) && o != c && x != q && x < |s| && HopPc(t[x])
    requires t == s[c := s[c].(lastRecv := s[c].inbox.seqno, pc := Ack(r))]
                   [o := s[o].(log := s[o].log + [Entry(s[c].inbox.tag, r, net.chip[c])])]
    requires s[q].pc.Spin? && o == Origin(q, s[q].pc.who)
    ensures HopAt(net, t, x)
  {
    OneServer(net, s, q, o, x);
    assert HopAt(net, s, x);
    var p, o' := net.peer[x], Origin(x, s[x].pc.who);
    assert net.peer[p] == x;
    HopSame(net, x, s[x], t[x], s[p], t[p], s[o'], t[o']);
  }

  lemma ServeHops(net: Net, s: State, c: nat, q: nat, o: nat, r: Word, t: State)
    requires Serves(net, s, c, q, o, r, t) && Touch(net, s, t, o, c) && o != c
    requires t == s[c := s[c].(lastRecv := s[c].inbox.seqno, pc := Ack(r))]
                   [o := s[o].(log := s[o].log + [Entry(s[c].inbox.tag, r, net.chip[c])])]
    ensures HopsOk(net, t)
  {
    ServeTouch(net, s, c, q, o, r, t);
    forall x: nat ensures HopAt(net, t, x) {
      if x == q {
        assert LinkAt(net, s, q);
        ServeHop(net, q, s[q], t[q], s[c], t[c], s[o], t[o], r, net.chip[c]);
      } else if x < |s| && HopPc(t[x]) {
        ServeOtherHop(net, s, c, q, o, r, t, x);
      }
    }
  }

  lemma SlotLog(net: Net, o: nat, a: Core, e: nat, b: Core, b': Core, entry: Entry)
    requires NetOk(net) && o < |net.peer| && e < |net.peer| && WfCore(net, a) && WfCore(net, b) && WfCore(net, b')
    requires SlotOk(net, o, a, e, b) && SameSlot(b, b', o) && (b.slots[o].seqno != b.last[o] ==> ServesPc(b, o))
    requires WfCore(net, a.(log := a.log + [entry]))
    ensures SlotOk(net, o, a.(log := a.log + [entry]), e, b')
  {
  }

  lemma ServeSlots(net: Net, s: State, c: nat, q: nat, o: nat, r: Word, t: State)
    requires Serves(net, s, c, q, o, r, t) && Touch(net, s, t, o, c) && o != c
    requires t == s[c := s[c].(lastRecv := s[c].inbox.seqno, pc := Ack(r))]
                   [o := s[o].(log := s[o].log + [Entry(s[c].inbox.tag, r, net.chip[c])])]
    requires s[q].pc.Spin? && o == Origin(q, s[q].pc.who)
    ensures SlotsOk(net, t)
  {
    forall x: nat, y: nat ensures SlotAt(net, t, x, y) {
      if x < |s| && y < |s| {
        assert SlotAt(net, s, x, y);
        if x == o {
          OneServer(net, s, q, o, y);
          SlotLog(net, o, s[o], y, s[y], t[y], Entry(s[c].inbox.tag, r, net.chip[c]));
        } else {
          SlotSame(net, x, s[x], t[x], y, s[y], t[y]);
        }
      }
    }
  }

  lemma ServeBells(net: Net, s: State, c: nat, o: nat, r: Word, t: State)
    requires Wf(net, s) && Wf(net, t) && BellsOk(net, s) && c < |s| && o < |s| && o != c && s[c].pc.Inbox?
    requires t == s[c := s[c].(lastRecv := s[c].inbox.seqno, pc := Ack(r))]
                   [o := s[o].(log := s[o].log + [Entry(s[c].inbox.tag, r, net.chip[c])])]
    ensures BellsOk(net, t)
  {
    forall x: nat, y: nat ensures BellAt(net, t, x, y) {
      assert BellAt(net, s, x, y);
    }
  }

  lemma ServeOk(net: Net, s: State, c: nat, r: Word)
    requires Inv(net, s) && c < |s| && s[c].pc.Inbox? && s[c].inbox.seqno != s[c].lastRecv
    ensures Inv(net, Step(net, s, c, r))
  {
    var t, q, o := StepInbox(net, s, c, r), net.peer[c], s[c].inbox.tag.origin;
    ServeTouch(net, s, c, q, o, r, t);
    ServeShape(net, s, c, q, o, r, t);
    ServeCores(net, s, c, q, o, r, t);
    ServeRelays(net, s, c, q, o, r, t);
    ServeLinks(net, s, c, q, o, r, t);
    ServeHops(net, s, c, q, o, r, t);
    ServeSlots(net, s, c, q, o, r, t);
    ServeBells(net, s, c, o, r, t);
  }

  // ---------- The egress replies to the ingress ----------

  // c has made every transfer of sibling i's relay, and replies.
  ghost predicate Replies(net: Net, s: State, c: nat, i: nat, t: State) {
    && Inv(net, s) && c < |s| && s[c].pc.Send? && s[c].pc.who == For(i) && i < |s| && i < |s[c].slots|
    && s[c].pc.chunk == s[c].slots[i].hops
    && t == s[c := s[c].(last := s[c].last[i := s[c].slots[i].seqno], pc := Scan(i + 1))]
             [i := s[i].(relayResp := RelayReply(s[c].slots[i].seqno, s[c].pc.got))]
  }

  lemma ReplyShape(net: Net, s: State, c: nat, r: Word)
    requires Inv(net, s) && c < |s| && s[c].pc.Send? && Step(net, s, c, r)[c].pc.Scan?
    ensures s[c].pc.who.For? && s[c].pc.who.i != c
    ensures Replies(net, s, c, s[c].pc.who.i, Step(net, s, c, r))
    ensures Touch(net, s, Step(net, s, c, r), c, s[c].pc.who.i)
  {
    var i := s[c].pc.who.i;
    assert HopAt(net, s, c) && SlotAt(net, s, i, c) && RelayAt(net, s, i);
  }

  lemma ReplyIn(net: Net, o: nat, a: Core, reply: RelayReply)
    requires NetOk(net) && o < |net.peer| && WfCore(net, a) && RelayOk(net, o, a) && InFlight(a)
    requires reply.seqno == a.relaySend && a.relayResp.seqno != a.relaySend
    requires |reply.words| == Legs(a.hist[|a.done|])[FlightLeg(a)].hops && Matches(reply.words, a.log, LegBase(a, FlightLeg(a)))
    requires |a.log| == LegBase(a, FlightLeg(a)) + |reply.words|
    ensures WfCore(net, a.(relayResp := reply)) && RelayOk(net, o, a.(relayResp := reply))
  {
  }

  lemma ReplyRelay(net: Net, s: State, c: nat, i: nat, t: State)
    requires Replies(net, s, c, i, t) && i != c && Touch(net, s, t, c, i)
    ensures RelaysOk(net, t)
  {
    assert HopAt(net, s, c) && SlotAt(net, s, i, c) && RelayAt(net, s, i) && RelayAt(net, s, c);
    ReplyIn(net, i, s[i], t[i].relayResp);
    RelayMove(net, c, s[c], t[c]);
    forall x: nat ensures RelayAt(net, t, x) {
      assert RelayAt(net, s, x);
    }
  }

  lemma ReplySlots(net: Net, s: State, c: nat, i: nat, t: State)
    requires Replies(net, s, c, i, t) && i != c && Touch(net, s, t, c, i)
    ensures SlotsOk(net, t)
  {
    assert HopAt(net, s, c) && SlotAt(net, s, i, c) && RelayAt(net, s, i);
    forall x: nat, y: nat ensures SlotAt(net, t, x, y) {
      if x < |s| && y < |s| {
        assert SlotAt(net, s, x, y);
        if x != i {
          SlotSame(net, x, s[x], t[x], y, s[y], t[y]);
        }
      }
    }
  }

  lemma ReplyBells(net: Net, s: State, c: nat, i: nat, t: State)
    requires Replies(net, s, c, i, t) && i != c && Touch(net, s, t, c, i)
    ensures BellsOk(net, t)
  {
    forall x: nat, y: nat ensures BellAt(net, t, x, y) {
      assert BellAt(net, s, x, y);
    }
  }

  lemma ReplyOk(net: Net, s: State, c: nat, r: Word)
    requires Inv(net, s) && c < |s| && s[c].pc.Send? && Step(net, s, c, r)[c].pc.Scan?
    ensures Inv(net, Step(net, s, c, r))
  {
    var t, i := Step(net, s, c, r), s[c].pc.who.i;
    ReplyShape(net, s, c, r);
    assert CoreAt(net, s, c);
    CoresFrame(net, s, t, c, i);
    ReplyRelay(net, s, c, i, t);
    LinksFrame(net, s, t, c, i);
    HopsFrame(net, s, t, c, i);
    ReplySlots(net, s, c, i, t);
    ReplyBells(net, s, c, i, t);
  }

  // ---------- Whole runs ----------

  lemma LegStartOk(net: Net, s: State, c: nat, r: Word)
    requires Inv(net, s) && c < |s| && s[c].pc.LegStart?
    ensures Inv(net, Step(net, s, c, r))
  {
    var legs, l := s[c].hist[|s[c].done|].legs, s[c].pc.leg;
    if l == |legs| {
      BroadcastEndOk(net, s, c, r);
    } else if legs[l].target == PeerChip(net, c) {
      LegSendOk(net, s, c, r);
    } else {
      assert RelayAt(net, s, c);
      match Egress(net, c, legs[l].target)
      case None => HaltOk(net, s, c, Step(net, s, c, r));
      case Some(e) => PostOk(net, s, c, e, l, Step(net, s, c, r));
    }
  }

  lemma DrainOk(net: Net, s: State, c: nat, r: Word)
    requires Inv(net, s) && c < |s| && s[c].pc.Drain?
    ensures Inv(net, Step(net, s, c, r))
  {
    var a := s[c];
    if a.pc.left == 0 {
      DrainEndOk(net, s, c, r);
    } else {
      var cmd := a.hist[|a.done|];
      if cmd.Broadcast? || cmd.leg.target == PeerChip(net, c) {
        DrainStartOk(net, s, c, r);
      } else if a.relayWait {
        CollectOk(net, s, c, r);
      } else {
        assert RelayAt(net, s, c);
        match Egress(net, c, cmd.leg.target)
        case None => HaltOk(net, s, c, Step(net, s, c, r));
        case Some(e) => PostOk(net, s, c, e, 0, Step(net, s, c, r));
      }
    }
  }

  lemma SendStepOk(net: Net, s: State, c: nat, r: Word)
    requires Inv(net, s) && c < |s| && s[c].pc.Send?
    ensures Inv(net, Step(net, s, c, r))
  {
    var a := s[c];
    if a.pc.chunk < HopsOf(a, a.pc.who) {
      SendOk(net, s, c, r);
    } else if a.pc.who.For? {
      ReplyOk(net, s, c, r);
    } else if a.hist[|a.done|].Single? {
      OwnEndOk(net, s, c, r);
    } else {
      LegEndOk(net, s, c, r);
    }
  }

  lemma ScanOk(net: Net, s: State, c: nat, r: Word)
    requires Inv(net, s) && c < |s| && s[c].pc.Scan?
    ensures Inv(net, Step(net, s, c, r))
  {
    if Step(net, s, c, r)[c].pc.Send? {
      ScanStartOk(net, s, c, r);
    } else {
      ScanSkipOk(net, s, c, r);
    }
  }

  // Every step of every core keeps the invariant.
  lemma StepOk(net: Net, s: State, c: nat, r: Word)
    requires Inv(net, s) && c < |s|
    ensures Inv(net, Step(net, s, c, r))
  {
    match s[c].pc
    case Top => TopOk(net, s, c, r);
    case Drain(_) => DrainOk(net, s, c, r);
    case LegStart(_, _) => LegStartOk(net, s, c, r);
    case Ring(_, _, _, _) => RingOk(net, s, c, r);
    case Await(_, _) => AwaitOk(net, s, c, r);
    case Send(_, _, _) => SendStepOk(net, s, c, r);
    case Spin(_, _, _) => SpinOk(net, s, c, r);
    case Inbox =>
      if s[c].inbox.seqno == s[c].lastRecv {
        InboxPollOk(net, s, c, r);
      } else {
        ServeOk(net, s, c, r);
      }
    case Ack(_) => AckOk(net, s, c, r);
    case Bell => BellStepOk(net, s, c, r);
    case Clear => BellStepOk(net, s, c, r);
    case Scan(_) => ScanOk(net, s, c, r);
    case Halt =>
  }

  lemma OffPrefixes(hist: seq<Cmd>, cmd: Cmd)
    ensures forall k {:trigger Off(hist + [cmd], k)} :: 0 <= k <= |hist| ==> Off(hist + [cmd], k) == Off(hist, k)
    ensures forall t {:trigger ValidTag(hist + [cmd], t)} :: ValidTag(hist, t) ==>
      ValidTag(hist + [cmd], t) && Rank(hist + [cmd], t) == Rank(hist, t)
  {
    forall k | 0 <= k <= |hist| ensures Off(hist + [cmd], k) == Off(hist, k) {
      OffPrefix(hist, cmd, k);
    }
  }

  lemma PushCore(net: Net, a: Core, cmd: Cmd)
    requires NetOk(net) && WfCore(net, a)
    requires LogOk(a.hist, a.log) && WindowOk(a.hist, a.done, a.log) && DoneOk(a.hist, a.done, a.log) && IdleOk(net, a)
    ensures WfCore(net, a.(hist := a.hist + [cmd]))
    ensures LogOk(a.hist + [cmd], a.log) && WindowOk(a.hist + [cmd], a.done, a.log)
    ensures DoneOk(a.hist + [cmd], a.done, a.log) && IdleOk(net, a.(hist := a.hist + [cmd]))
  {
    OffPrefixes(a.hist, cmd);
    forall k | 0 <= k < |a.done| ensures DoneAt(a.hist + [cmd], a.done[k], a.log, k) {
      assert DoneAt(a.hist, a.done[k], a.log, k);
    }
  }

  lemma PushRelay(net: Net, c: nat, a: Core, cmd: Cmd)
    requires NetOk(net) && c < |net.peer| && WfCore(net, a) && RelayOk(net, c, a)
    ensures WfCore(net, a.(hist := a.hist + [cmd])) && RelayOk(net, c, a.(hist := a.hist + [cmd]))
  {
    OffPrefixes(a.hist, cmd);
  }

  // a is a core using its link, with its host's new command when it is core o that gets one.
  lemma PushHop(net: Net, c: nat, a: Core, a': Core, p: Core, p': Core, o: Core, cmd: Cmd)
    requires NetOk(net) && c < |net.peer| && WfCore(net, a) && HopPc(a) && HopOk(net, c, a, p, o)
    requires a' == a || a' == a.(hist := a.hist + [cmd])
    requires p' == p || p' == p.(hist := p.hist + [cmd])
    requires WfCore(net, a')
    ensures HopOk(net, c, a', p', o.(hist := o.hist + [cmd]))
  {
    OffPrefixes(o.hist, cmd);
  }

  lemma PushSlot(net: Net, o: nat, a: Core, e: nat, b: Core, cmd: Cmd)
    requires NetOk(net) && o < |net.peer| && e < |net.peer| && WfCore(net, a) && WfCore(net, b)
    requires SlotOk(net, o, a, e, b) && RelayOk(net, o, a)
    ensures WfCore(net, a.(hist := a.hist + [cmd])) && SlotOk(net, o, a.(hist := a.hist + [cmd]), e, b)
  {
    OffPrefixes(a.hist, cmd);
  }

  lemma PushParts(net: Net, s: State, c: nat, cmd: Cmd, t: State)
    requires Inv(net, s) && c < |s| && t == Push(s, c, cmd)
    ensures Touch(net, s, t, c, c) && CoresOk(net, t) && RelaysOk(net, t) && LinksOk(net, t)
  {
    assert CoreAt(net, s, c) && RelayAt(net, s, c);
    PushCore(net, s[c], cmd);
    PushRelay(net, c, s[c], cmd);
    CoresFrame(net, s, t, c, c);
    RelaysFrame(net, s, t, c, c);
    LinksFrame(net, s, t, c, c);
  }

  lemma PushHops(net: Net, s: State, c: nat, cmd: Cmd, t: State)
    requires Inv(net, s) && c < |s| && t == Push(s, c, cmd) && Wf(net, t)
    ensures HopsOk(net, t)
  {
    forall x: nat ensures HopAt(net, t, x) {
      if x < |s| && HopPc(t[x]) {
        assert HopAt(net, s, x);
        var p, o := net.peer[x], Origin(x, s[x].pc.who);
        if o == c {
          PushHop(net, x, s[x], t[x], s[p], t[p], s[o], cmd);
        }
      }
    }
  }

  lemma PushSlots(net: Net, s: State, c: nat, cmd: Cmd, t: State)
    requires Inv(net, s) && c < |s| && t == Push(s, c, cmd) && Wf(net, t)
    ensures SlotsOk(net, t)
  {
    assert RelayAt(net, s, c);
    forall x: nat, y: nat ensures SlotAt(net, t, x, y) {
      if x < |s| && y < |s| {
        assert SlotAt(net, s, x, y);
        if x == c {
          PushSlot(net, x, s[x], y, s[y], cmd);
          SlotSame(net, x, t[x], t[x], y, s[y], t[y]);
        } else {
          SlotSame(net, x, s[x], t[x], y, s[y], t[y]);
        }
      }
    }
  }

  // Queueing a command keeps the invariant.
  lemma PushOk(net: Net, s: State, c: nat, cmd: Cmd)
    requires Inv(net, s) && c < |s|
    ensures Inv(net, Push(s, c, cmd))
  {
    var t := Push(s, c, cmd);
    PushParts(net, s, c, cmd, t);
    PushHops(net, s, c, cmd, t);
    PushSlots(net, s, c, cmd, t);
    forall x: nat, y: nat ensures BellAt(net, t, x, y) {
      assert BellAt(net, s, x, y);
    }
  }

  lemma InitOk(net: Net)
    requires NetOk(net)
    ensures Inv(net, Init(net))
  {
    var s := Init(net);
    assert Wf(net, s);
    forall c: nat ensures CoreAt(net, s, c) && RelayAt(net, s, c) && LinkAt(net, s, c) && HopAt(net, s, c) {
    }
    forall x: nat, y: nat ensures SlotAt(net, s, x, y) && BellAt(net, s, x, y) {
    }
  }

  // The power-on state.
  ghost function PowerOn(net: Net): (s: State)
    requires NetOk(net)
    ensures Inv(net, s) && s == Init(net) && |s| == |net.peer|
  {
    InitOk(net);
    Init(net)
  }

  // What can happen: core c takes a step, or the host queues a command on it.
  datatype Event = Go(c: nat, r: Word) | Queue(c: nat, cmd: Cmd)

  ghost function Happens(net: Net, s: State, e: Event): (t: State)
    requires Inv(net, s) && e.c < |s|
    ensures Inv(net, t) && |t| == |s|
  {
    match e
    case Go(c, r) =>
      StepOk(net, s, c, r);
      Step(net, s, c, r)
    case Queue(c, cmd) =>
      PushOk(net, s, c, cmd);
      Push(s, c, cmd)
  }

  ghost function Run(net: Net, s: State, events: seq<Event>): (t: State)
    requires Inv(net, s) && forall i :: 0 <= i < |events| ==> events[i].c < |s|
    ensures Inv(net, t) && |t| == |s|
    decreases |events|
  {
    if events == [] then s else Run(net, Happens(net, s, events[0]), events[1..])
  }

  // ---------- What the invariant says ----------

  // Tag t is of a transfer the host has asked for, to `chip`: chunk t.chunk of a command, or of a leg of a broadcast.
  predicate Asked(hist: seq<Cmd>, t: Tag, chip: nat) {
    && t.idx < |hist|
    && match hist[t.idx]
       case Single(leg) => t.leg == 0 && t.chunk < leg.hops && chip == leg.target
       case Broadcast(legs) => t.leg < |legs| && t.chunk < legs[t.leg].hops && chip == legs[t.leg].target
  }

  // The host's program order: command after command, leg after leg, chunk after chunk.
  predicate Precedes(t: Tag, u: Tag) {
    t.idx < u.idx || (t.idx == u.idx && (t.leg < u.leg || (t.leg == u.leg && t.chunk < u.chunk)))
  }

  predicate SameTransfer(t: Tag, u: Tag) {
    t.idx == u.idx && t.leg == u.leg && t.chunk == u.chunk
  }

  ghost predicate Logged(log: seq<Entry>, t: Tag, chip: nat) {
    exists n :: 0 <= n < |log| && SameTransfer(log[n].tag, t) && log[n].chip == chip
  }

  // Receivers have made for a core's host only transfers it asked for, each on the chip it was to go to, once, in
  // program order and leaving none out; when a command has completed all of its transfers have been made, and none of
  // a command after the next; and the host got exactly the words the receivers read.
  ghost predicate ExactlyOnce(a: Core) {
    && (forall n :: 0 <= n < |a.log| ==> Asked(a.hist, a.log[n].tag, a.log[n].chip) && a.log[n].tag.idx <= |a.done|)
    && (forall n, m :: 0 <= n < m < |a.log| ==> Precedes(a.log[n].tag, a.log[m].tag))
    && (forall t, chip, n :: Asked(a.hist, t, chip) && 0 <= n < |a.log| && Precedes(t, a.log[n].tag) ==>
          Logged(a.log, t, chip))
    && |a.done| <= |a.hist|
    && (forall t, chip :: Asked(a.hist, t, chip) && t.idx < |a.done| ==> Logged(a.log, t, chip))
    && (forall k :: 0 <= k < |a.done| && a.hist[k].Single? ==> |a.done[k]| == a.hist[k].leg.hops)
    && (forall n :: 0 <= n < |a.log| ==> Answered(a, a.log[n]))
  }

  ghost predicate Answered(a: Core, e: Entry) {
    e.tag.idx < |a.done| && e.tag.idx < |a.hist| && a.hist[e.tag.idx].Single? ==>
      e.tag.chunk < |a.done[e.tag.idx]| && a.done[e.tag.idx][e.tag.chunk] == e.reply
  }

  lemma AskedValid(hist: seq<Cmd>, t: Tag, chip: nat)
    ensures Asked(hist, t, chip) <==> ValidTag(hist, t) && chip == Legs(hist[t.idx])[t.leg].target
  {
  }

  lemma RankOrder(hist: seq<Cmd>, t: Tag, u: Tag)
    requires ValidTag(hist, t) && ValidTag(hist, u)
    ensures Rank(hist, t) < Rank(hist, u) <==> Precedes(t, u)
  {
    PrecedesRank(hist, t, u);
    PrecedesRank(hist, u, t);
    hide Rank;
  }

  lemma PrecedesRank(hist: seq<Cmd>, t: Tag, u: Tag)
    requires ValidTag(hist, t) && ValidTag(hist, u)
    ensures Precedes(t, u) ==> Rank(hist, t) < Rank(hist, u)
    ensures SameTransfer(t, u) ==> Rank(hist, t) == Rank(hist, u)
  {
    RankBound(hist, t);
    RankBound(hist, u);
    if t.idx < u.idx {
      OffMonotone(hist, t.idx + 1, u.idx);
    } else if t.idx == u.idx && t.leg < u.leg {
      LegOffMonotone(Legs(hist[t.idx]), t.leg + 1, u.leg);
    }
  }

  // A transfer whose rank is below the log's length is the entry there.
  lemma LoggedAt(hist: seq<Cmd>, log: seq<Entry>, t: Tag, chip: nat)
    requires LogOk(hist, log) && Asked(hist, t, chip) && Rank(hist, t) < |log|
    ensures Logged(log, t, chip) && SameTransfer(log[Rank(hist, t)].tag, t) && log[Rank(hist, t)].chip == chip
  {
    var e := log[Rank(hist, t)];
    assert EntryOk(hist, e, Rank(hist, t));
    RankInjective(hist, e.tag, t);
  }

  lemma WindowTags(hist: seq<Cmd>, done: seq<seq<Word>>, log: seq<Entry>, n: nat)
    requires LogOk(hist, log) && WindowOk(hist, done, log) && n < |log|
    ensures log[n].tag.idx <= |done|
  {
    assert EntryOk(hist, log[n], n);
    RankBound(hist, log[n].tag);
    if log[n].tag.idx > |done| {
      OffMonotone(hist, |done| + 1, log[n].tag.idx);
    }
  }

  lemma AnswerOk(a: Core, n: nat)
    requires LogOk(a.hist, a.log) && DoneOk(a.hist, a.done, a.log) && n < |a.log|
    ensures Answered(a, a.log[n])
  {
    var t := a.log[n].tag;
    assert EntryOk(a.hist, a.log[n], n);
    if t.idx < |a.done| && a.hist[t.idx].Single? {
      assert DoneAt(a.hist, a.done[t.idx], a.log, t.idx);
      OneLeg(a.hist[t.idx]);
      assert LegOff(Legs(a.hist[t.idx]), 0) == 0;
    }
  }

  lemma InOrder(a: Core)
    requires LogOk(a.hist, a.log) && WindowOk(a.hist, a.done, a.log) && DoneOk(a.hist, a.done, a.log)
    ensures ExactlyOnce(a)
  {
    hide WindowOk, DoneOk, Rank, Precedes, ValidTag, Logged, Answered, Asked, SameTransfer;
    forall n | 0 <= n < |a.log|
      ensures Asked(a.hist, a.log[n].tag, a.log[n].chip) && a.log[n].tag.idx <= |a.done| && Answered(a, a.log[n])
    {
      assert EntryOk(a.hist, a.log[n], n);
      AskedValid(a.hist, a.log[n].tag, a.log[n].chip);
      WindowTags(a.hist, a.done, a.log, n);
      AnswerOk(a, n);
    }
    forall n, m | 0 <= n < m < |a.log| ensures Precedes(a.log[n].tag, a.log[m].tag) {
      assert EntryOk(a.hist, a.log[n], n) && EntryOk(a.hist, a.log[m], m);
      RankOrder(a.hist, a.log[n].tag, a.log[m].tag);
    }
    forall t, chip, n | Asked(a.hist, t, chip) && 0 <= n < |a.log| && Precedes(t, a.log[n].tag)
      ensures Logged(a.log, t, chip)
    {
      assert EntryOk(a.hist, a.log[n], n);
      AskedValid(a.hist, t, chip);
      RankOrder(a.hist, t, a.log[n].tag);
      LoggedAt(a.hist, a.log, t, chip);
    }
    DoneLogged(a);
  }

  lemma DoneLogged(a: Core)
    requires LogOk(a.hist, a.log) && WindowOk(a.hist, a.done, a.log) && DoneOk(a.hist, a.done, a.log)
    ensures |a.done| <= |a.hist|
    ensures forall t, chip :: Asked(a.hist, t, chip) && t.idx < |a.done| ==> Logged(a.log, t, chip)
    ensures forall k :: 0 <= k < |a.done| && a.hist[k].Single? ==> |a.done[k]| == a.hist[k].leg.hops
  {
    forall t, chip | Asked(a.hist, t, chip) && t.idx < |a.done| ensures Logged(a.log, t, chip) {
      AskedValid(a.hist, t, chip);
      RankBound(a.hist, t);
      OffMonotone(a.hist, t.idx + 1, |a.done|);
      LoggedAt(a.hist, a.log, t, chip);
    }
    forall k | 0 <= k < |a.done| && a.hist[k].Single? ensures |a.done[k]| == a.hist[k].leg.hops {
      assert DoneAt(a.hist, a.done[k], a.log, k);
      OneLeg(a.hist[k]);
    }
  }

  // In every run, whatever the interleaving, and whether commands are hopped directly or relayed.
  lemma ExactlyOnceInOrder(net: Net, events: seq<Event>, c: nat)
    requires NetOk(net) && c < |net.peer|
    requires forall i :: 0 <= i < |events| ==> events[i].c < |net.peer|
    ensures ExactlyOnce(Run(net, PowerOn(net), events)[c])
  {
    var s := Run(net, PowerOn(net), events);
    assert CoreAt(net, s, c);
    InOrder(s[c]);
  }

  // Every leg of a completed broadcast has been made whole, chunk after chunk on its chip, and nothing but its chunks
  // was made for it: a run of the log, from `at` on.
  lemma BroadcastMade(net: Net, s: State, c: nat, k: nat, l: nat) returns (at: nat)
    requires Inv(net, s) && c < |s| && k < |s[c].done| && k < |s[c].hist|
    requires s[c].hist[k].Broadcast? && l < |s[c].hist[k].legs|
    ensures var leg := s[c].hist[k].legs[l];
      && at + leg.hops <= |s[c].log|
      && (forall n :: at <= n < at + leg.hops ==>
            var e := s[c].log[n]; e.tag.idx == k && e.tag.leg == l && e.tag.chunk == n - at && e.chip == leg.target)
      && (forall n :: 0 <= n < |s[c].log| && s[c].log[n].tag.idx == k && s[c].log[n].tag.leg == l ==>
            at <= n < at + leg.hops)
  {
    assert CoreAt(net, s, c);
    var hist, log, leg := s[c].hist, s[c].log, s[c].hist[k].legs[l];
    at := Rank(hist, Tag(c, k, l, 0));
    MadeRoom(s[c], k, l);
    forall n | at <= n < at + leg.hops
      ensures SameTransfer(log[n].tag, Tag(c, k, l, n - at)) && log[n].chip == leg.target
    {
      LoggedAt(hist, log, Tag(c, k, l, n - at), leg.target);
    }
    forall n | 0 <= n < |log| && log[n].tag.idx == k && log[n].tag.leg == l ensures at <= n < at + leg.hops {
      assert EntryOk(hist, log[n], n);
    }
  }

  lemma MadeRoom(a: Core, k: nat, l: nat)
    requires WindowOk(a.hist, a.done, a.log) && k < |a.done| && k < |a.hist| && a.hist[k].Broadcast? && l < |a.hist[k].legs|
    ensures Rank(a.hist, Tag(0, k, l, 0)) + a.hist[k].legs[l].hops <= |a.log|
  {
    OffMonotone(a.hist, k + 1, |a.done|);
    LegOffMonotone(Legs(a.hist[k]), l + 1, |Legs(a.hist[k])|);
  }

  // When every command of c's host has completed, every transfer of every one of them has been made, on its chip.
  lemma DoneMeansMade(net: Net, s: State, c: nat, t: Tag, chip: nat) returns (n: nat)
    requires Inv(net, s) && c < |s| && |s[c].done| == |s[c].hist| && Asked(s[c].hist, t, chip)
    ensures n < |s[c].log| && SameTransfer(s[c].log[n].tag, t) && s[c].log[n].chip == chip
  {
    assert CoreAt(net, s, c);
    DoneLogged(s[c]);
    n :| 0 <= n < |s[c].log| && SameTransfer(s[c].log[n].tag, t) && s[c].log[n].chip == chip;
  }

  // Which steps write inboxes and relay slots.
  lemma QuietPoll(net: Net, s: State, c: nat, r: Word, x: nat, t: State)
    requires Wf(net, s) && c < |s| && x < |s| && t == Step(net, s, c, r) && |t| == |s|
    requires Calm(s[c].pc) && !s[c].pc.Drain?
    ensures t[x].inbox == s[x].inbox && t[x].slots == s[x].slots
  {
  }

  lemma QuietStep(net: Net, s: State, c: nat, r: Word, x: nat, t: State)
    requires Wf(net, s) && c < |s| && x < |s| && t == Step(net, s, c, r) && |t| == |s|
    requires !Calm(s[c].pc) && !s[c].pc.Send? && !s[c].pc.LegStart?
    ensures t[x].inbox == s[x].inbox && t[x].slots == s[x].slots
  {
  }

  lemma SendStep(net: Net, s: State, c: nat, x: nat, t: State)
    requires Wf(net, s) && c < |s| && x < |s| && s[c].pc.Send? && t == StepSend(net, s, c) && |t| == |s|
    ensures t[x].slots == s[x].slots && (t[x].inbox != s[x].inbox ==> x == net.peer[c])
  {
  }

  lemma QueueStep(net: Net, s: State, c: nat, x: nat, o: nat, t: State)
    requires Wf(net, s) && c < |s| && x < |s| && o < |s| && |t| == |s| && |t[x].slots| == |s|
    requires (s[c].pc.Drain? && t == StepDrain(net, s, c)) || (s[c].pc.LegStart? && t == StepLegStart(net, s, c))
    ensures t[x].inbox == s[x].inbox
    ensures t[x].slots[o] != s[x].slots[o] ==> o == c
    ensures t[x].slots != s[x].slots ==> t[c].pc.Ring? && !(s[c].pc.Drain? && s[c].relayWait)
  {
  }

  // A step writes an inbox only when the packet in it has been served and acknowledged.
  lemma InboxNeverOverwritten(net: Net, s: State, c: nat, r: Word, x: nat, t: State)
    requires Inv(net, s) && c < |s| && x < |s| && t == Step(net, s, c, r)
    ensures |t| == |s| && (t[x].inbox != s[x].inbox ==> s[x].inbox.seqno == s[x].lastRecv && !s[x].pc.Ack?)
  {
    StepOk(net, s, c, r);
    if s[c].pc.Send? {
      SendStep(net, s, c, x, t);
      assert LinkAt(net, s, c);
    } else if s[c].pc.Drain? || s[c].pc.LegStart? {
      QueueStep(net, s, c, x, c, t);
    } else if Calm(s[c].pc) {
      QuietPoll(net, s, c, r, x, t);
    } else {
      QuietStep(net, s, c, r, x, t);
    }
  }

  // A step writes a relay slot only when the relay in it has been served and answered.
  lemma SlotNeverOverwritten(net: Net, s: State, c: nat, r: Word, x: nat, o: nat, t: State)
    requires Inv(net, s) && c < |s| && x < |s| && o < |s| && t == Step(net, s, c, r)
    ensures |t| == |s| && |t[x].slots| == |s[x].slots| == |s[x].last| == |s|
    ensures t[x].slots[o] != s[x].slots[o] ==> s[x].slots[o].seqno == s[x].last[o] && !ServesPc(s[x], o)
  {
    StepOk(net, s, c, r);
    assert WfCore(net, t[x]) && WfCore(net, s[x]);
    if s[c].pc.Send? {
      SendStep(net, s, c, x, t);
    } else if s[c].pc.Drain? || s[c].pc.LegStart? {
      QueueStep(net, s, c, x, o, t);
      if t[x].slots[o] != s[x].slots[o] {
        assert RelayAt(net, s, c);
        IdleSlots(net, s, c, x);
      }
    } else if Calm(s[c].pc) {
      QuietPoll(net, s, c, r, x, t);
    } else {
      QuietStep(net, s, c, r, x, t);
    }
  }

  // No wakeup is lost: while a slot is unserviced its egress has the doorbell set or about to be rung, or its
  // scan has not passed the slot.
  lemma NoLostWakeup(net: Net, s: State, o: nat, e: nat)
    requires Inv(net, s) && o < |s| && e < |s| && s[e].slots[o].seqno != s[e].last[o]
    ensures
      || s[e].doorbell
      || (s[o].pc.Ring? && s[o].pc.egress == e)
      || s[e].pc.Clear?
      || (s[e].pc.Scan? && s[e].pc.k <= o)
      || ((s[e].pc.Send? || s[e].pc.Spin?) && s[e].pc.who.For? && s[e].pc.who.i <= o)
  {
    assert BellAt(net, s, o, e);
  }
}
