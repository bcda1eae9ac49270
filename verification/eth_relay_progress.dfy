// The relay protocol never gets stuck: as long as every core keeps running, every queued command completes,
// even when two siblings relay through each other. The two hypotheses this needs are both necessary.
module EthRelayProgress {
  import opened EthRelay
  import opened EthRelaySafety

  // ---------- Remaining work ----------

  function LegSum(hist: seq<Cmd>, k: nat): nat
    requires k <= |hist|
    decreases |hist| - k
  {
    if k == |hist| then 0 else |Legs(hist[k])| + 1 + LegSum(hist, k + 1)
  }

  function CurLeg(a: Core): nat {
    if a.pc.LegStart? || a.pc.Ring? || a.pc.Await? then a.pc.leg
    else if HopPc(a) && a.pc.who.Own? then a.pc.who.leg
    else 0
  }

  // How far the head command's current leg is, apart from its transfers.
  function Stage(a: Core): nat {
    if a.pc.LegStart? then 11
    else if a.pc.Ring? then (if a.relayResp.seqno == a.relaySend then 3 else 10)
    else if InFlight(a) then (if a.relayResp.seqno == a.relaySend then 2 else 9)
    else if HopPc(a) && a.pc.who.Own? then 9
    else if a.pc.Halt? then 1
    else 12
  }

  // How far the current transfer is; received is the last transfer the other end has served.
  function LinkStage(a: Core, received: nat): nat {
    if a.pc.Send? then 4
    else if a.pc.Spin? then (if received != a.sendSeq then 3 else if a.resp.seqno != a.sendSeq then 6 else 5)
    else 7
  }

  function Term(a: Core, received: nat): int
    requires |a.done| <= |a.hist|
  {
    16 * (LegSum(a.hist, |a.done|) - CurLeg(a)) + 4 * (Off(a.hist, |a.hist|) - |a.log|) + Stage(a) + LinkStage(a, received)
  }

  ghost function TermAt(net: Net, s: State, c: nat): int
    requires Wf(net, s) && c < |s|
  {
    Term(s[c], s[net.peer[c]].lastRecv)
  }

  ghost function Terms(net: Net, s: State): (r: seq<int>)
    requires Wf(net, s)
    ensures |r| == |s| && forall c :: 0 <= c < |s| ==> r[c] == TermAt(net, s, c)
  {
    seq(|s|, c requires 0 <= c < |s| => TermAt(net, s, c))
  }

  function Sum(r: seq<int>): int {
    if r == [] then 0 else r[0] + Sum(r[1..])
  }

  ghost function Total(net: Net, s: State): int
    requires Wf(net, s)
  {
    Sum(Terms(net, s))
  }

  lemma TermBound(net: Net, s: State, c: nat)
    requires Inv(net, s) && c < |s|
    ensures TermAt(net, s, c) >= 0
  {
    var a := s[c];
    assert CoreAt(net, s, c) && RelayAt(net, s, c);
    OffMonotone(a.hist, if |a.done| < |a.hist| then |a.done| + 1 else |a.done|, |a.hist|);
  }

  lemma {:induction false} SumBound(r: seq<int>)
    requires forall i :: 0 <= i < |r| ==> r[i] >= 0
    ensures Sum(r) >= 0
  {
    if r != [] {
      SumBound(r[1..]);
    }
  }

  lemma TotalBound(net: Net, s: State)
    requires Inv(net, s)
    ensures Total(net, s) >= 0
  {
    forall c | 0 <= c < |s| ensures TermAt(net, s, c) >= 0 {
      TermBound(net, s, c);
    }
    SumBound(Terms(net, s));
  }

  lemma {:induction false} SumUpdate(r: seq<int>, c: nat, v: int)
    requires c < |r|
    ensures Sum(r[c := v]) == Sum(r) - r[c] + v
  {
    if c > 0 {
      assert r[c := v][1..] == r[1..][c - 1 := v];
      SumUpdate(r[1..], c - 1, v);
    }
  }

  // ---------- Each step polls or gets work done ----------

  // What a polling step may change of a core.
  ghost predicate Polls(a: Core, b: Core) {
    && b == a.(pc := b.pc, doorbell := b.doorbell)
    && (b == a || (Calm(a.pc) && Calm(b.pc) && !a.pc.Halt? && !b.pc.Halt?))
  }

  ghost predicate Idles(net: Net, s: State, c: nat, t: State) {
    && Wf(net, s) && Wf(net, t) && c < |s|
    && t == s[c := t[c]] && Polls(s[c], t[c])
  }

  lemma IdleTotal(net: Net, s: State, c: nat, t: State)
    requires Idles(net, s, c, t)
    ensures Total(net, t) == Total(net, s)
  {
    assert net.peer[c] != c;
    assert Terms(net, t) == Terms(net, s);
  }

  // One or two terms change, and their sum falls.
  lemma LessTotal(net: Net, s: State, t: State, c: nat, e: nat)
    requires Touch(net, s, t, c, e)
    requires forall x :: 0 <= x < |s| && x != c && x != e ==> t[net.peer[x]].lastRecv == s[net.peer[x]].lastRecv
    requires TermAt(net, t, c) + (if e != c then TermAt(net, t, e) else 0)
           < TermAt(net, s, c) + (if e != c then TermAt(net, s, e) else 0)
    ensures Total(net, t) < Total(net, s)
  {
    var r := Terms(net, s);
    var v, w := TermAt(net, t, c), TermAt(net, t, e);
    assert Terms(net, t) == r[c := v][e := w];
    SumUpdate(r, c, v);
    SumUpdate(r[c := v], e, w);
  }

  lemma StartLess(net: Net, s: State, c: nat, who: Who, t: State)
    requires Inv(net, s) && c < |s| && (s[c].pc.Scan? || s[c].pc.Drain? || s[c].pc.LegStart?)
    requires t == s[c := s[c].(pc := Send(who, 0, []))] && Wf(net, t)
    requires who.Own? ==> !s[c].relayWait && !s[c].pc.Scan? && who.leg == CurLeg(s[c])
    requires who.For? ==> s[c].pc.Scan?
    ensures Total(net, t) < Total(net, s)
  {
    LessTotal(net, s, t, c, c);
  }

  lemma BroadcastLess(net: Net, s: State, c: nat, t: State)
    requires Inv(net, s) && c < |s| && s[c].pc.Drain? && !s[c].relayWait
    requires t == s[c := s[c].(pc := LegStart(s[c].pc.left, 0))] && Wf(net, t)
    ensures Total(net, t) < Total(net, s)
  {
    LessTotal(net, s, t, c, c);
  }

  // What a core's term depends on.
  lemma TermSame(a: Core, b: Core, received: nat)
    requires |a.done| <= |a.hist| && a.hist == b.hist && a.done == b.done && |a.log| == |b.log| && a.pc == b.pc
    requires a.relayWait == b.relayWait && a.relayResp == b.relayResp && a.relaySend == b.relaySend
    requires a.sendSeq == b.sendSeq && a.resp == b.resp
    ensures Term(a, received) == Term(b, received)
  {
  }

  lemma TermPost(a: Core, b: Core, received: nat, leg: nat)
    requires |a.done| <= |a.hist| && !a.relayWait && a.hist == b.hist && a.done == b.done && a.log == b.log
    requires (a.pc.Drain? && leg == 0) || (a.pc.LegStart? && a.pc.leg == leg)
    requires b.pc.Ring? && b.pc.leg == leg
    ensures Term(b, received) < Term(a, received)
  {
  }

  lemma TermRing(a: Core, b: Core, received: nat)
    requires |a.done| <= |a.hist| && a.pc.Ring? && a.hist == b.hist && a.done == b.done && a.log == b.log
    requires a.relayResp == b.relayResp && a.relaySend == b.relaySend
    requires b.pc == Await(a.pc.left, a.pc.leg) || (b.relayWait && b.pc.Inbox? && a.pc.leg == 0)
    ensures Term(b, received) < Term(a, received)
  {
  }

  lemma PostLess(net: Net, s: State, c: nat, e: nat, leg: nat, t: State)
    requires Posts(net, s, c, e, leg, t)
    ensures Wf(net, t) && Total(net, t) < Total(net, s)
  {
    PostLocal(net, s, c, e, leg, t);
    assert RelayAt(net, s, c);
    TermPost(s[c], t[c], s[net.peer[c]].lastRecv, leg);
    TermSame(s[e], t[e], s[net.peer[e]].lastRecv);
    LessTotal(net, s, t, c, e);
  }

  lemma RingLess(net: Net, s: State, c: nat, t: State)
    requires Inv(net, s) && c < |s| && s[c].pc.Ring? && t == StepRing(net, s, c)
    ensures Wf(net, t) && Total(net, t) < Total(net, s)
  {
    var e := s[c].pc.egress;
    RingShape(net, s, c, t);
    assert RelayAt(net, s, c);
    TermRing(s[c], t[c], s[net.peer[c]].lastRecv);
    TermSame(s[e], t[e], s[net.peer[e]].lastRecv);
    LessTotal(net, s, t, c, e);
  }

  lemma AwaitLess(net: Net, s: State, c: nat, r: Word)
    requires Inv(net, s) && c < |s| && s[c].pc.Await? && s[c].relayResp.seqno == s[c].relaySend
    ensures Wf(net, Step(net, s, c, r)) && Total(net, Step(net, s, c, r)) < Total(net, s)
  {
    StepOk(net, s, c, r);
    assert RelayAt(net, s, c);
    LessTotal(net, s, Step(net, s, c, r), c, c);
  }

  lemma CompleteLess(net: Net, s: State, c: nat, words: seq<Word>, t: State)
    requires Completes(net, s, c, words, t)
    ensures Total(net, t) < Total(net, s)
  {
    assert RelayAt(net, s, c);
    assert LegSum(s[c].hist, |s[c].done|) == |Legs(s[c].hist[|s[c].done|])| + 1 + LegSum(s[c].hist, |s[c].done| + 1);
    LessTotal(net, s, t, c, c);
  }

  lemma LegEndLess(net: Net, s: State, c: nat, t: State)
    requires Inv(net, s) && c < |s| && s[c].pc.Send? && s[c].pc.who.Own?
    requires t == s[c := s[c].(pc := LegStart(s[c].pc.who.left, s[c].pc.who.leg + 1))] && Wf(net, t)
    ensures Total(net, t) < Total(net, s)
  {
    assert RelayAt(net, s, c);
    LessTotal(net, s, t, c, c);
  }

  lemma TermSend(a: Core, b: Core, received: nat)
    requires |a.done| <= |a.hist| && a.pc.Send? && received == a.sendSeq
    requires b == a.(sendSeq := a.sendSeq + 1, pc := Spin(a.pc.who, a.pc.chunk, a.pc.got))
    ensures Term(b, received) < Term(a, received)
  {
  }

  lemma SendLess(net: Net, s: State, c: nat, t: State)
    requires Inv(net, s) && c < |s| && s[c].pc.Send? && t == StepSend(net, s, c) && t[c].pc.Spin?
    ensures Wf(net, t) && Total(net, t) < Total(net, s)
  {
    var p := net.peer[c];
    SendTouch(net, s, c, t);
    assert LinkAt(net, s, c);
    TermSend(s[c], t[c], s[p].lastRecv);
    TermSame(s[p], t[p], s[c].lastRecv);
    LessTotal(net, s, t, c, p);
  }

  lemma ReceiveLess(net: Net, s: State, c: nat, t: State)
    requires Receives(net, s, c, t)
    ensures Wf(net, t) && Total(net, t) < Total(net, s)
  {
    SpinShape(net, s, c, t);
    assert RelayAt(net, s, c) && LinkAt(net, s, c);
    LessTotal(net, s, t, c, c);
  }

  lemma AckLess(net: Net, s: State, c: nat, t: State)
    requires Acks(net, s, c, t) && Touch(net, s, t, net.peer[c], c)
    ensures Total(net, t) < Total(net, s)
  {
    var q := net.peer[c];
    assert RelayAt(net, s, c) && LinkAt(net, s, q);
    LessTotal(net, s, t, q, c);
  }

  lemma TermReplied(a: Core, b: Core, received: nat)
    requires |a.done| <= |a.hist| && InFlight(a) && a.relayResp.seqno != a.relaySend && !OwnPc(a)
    requires b == a.(relayResp := b.relayResp) && b.relayResp.seqno == b.relaySend
    ensures Term(b, received) == Term(a, received) - 7
  {
  }

  lemma TermScan(a: Core, b: Core, received: nat)
    requires |a.done| <= |a.hist| && a.pc.Send? && a.pc.who.For?
    requires b == a.(last := b.last, pc := b.pc) && b.pc.Scan?
    ensures Term(b, received) == Term(a, received) + 3
  {
  }

  lemma ReplyLess(net: Net, s: State, c: nat, i: nat, t: State)
    requires Replies(net, s, c, i, t) && i != c && Touch(net, s, t, c, i)
    ensures Total(net, t) < Total(net, s)
  {
    assert HopAt(net, s, c) && SlotAt(net, s, i, c) && RelayAt(net, s, i);
    TermScan(s[c], t[c], s[net.peer[c]].lastRecv);
    TermReplied(s[i], t[i], s[net.peer[i]].lastRecv);
    LessTotal(net, s, t, c, i);
  }

  lemma TermServed(a: Core, b: Core, received: nat, received': nat)
    requires |a.done| <= |a.hist| && a.pc.Spin? && received != a.sendSeq && received' == a.sendSeq && a.resp.seqno != a.sendSeq
    requires b == a.(log := b.log)
    ensures Term(b, received') == Term(a, received) + 3 - 4 * (|b.log| - |a.log|)
  {
  }

  lemma TermLogged(a: Core, b: Core, received: nat)
    requires |a.done| <= |a.hist| && b == a.(log := b.log)
    ensures Term(b, received) == Term(a, received) - 4 * (|b.log| - |a.log|)
  {
  }

  lemma ServeLess(net: Net, s: State, c: nat, q: nat, o: nat, r: Word, t: State)
    requires Serves(net, s, c, q, o, r, t)
    ensures Wf(net, t) && Total(net, t) < Total(net, s)
  {
    ServeTouch(net, s, c, q, o, r, t);
    ServeShape(net, s, c, q, o, r, t);
    assert LinkAt(net, s, q);
    ServeSum(net, s, c, q, o, r, t);
  }

  lemma ServeSum(net: Net, s: State, c: nat, q: nat, o: nat, r: Word, t: State)
    requires Touch(net, s, t, c, o) && q == net.peer[c] && c != o && q != c && LinkOk(s[q], s[c])
    requires s[q].pc.Spin? && s[c].inbox.seqno == s[q].sendSeq && s[c].lastRecv + 1 == s[q].sendSeq && s[c].pc.Inbox?
    requires t[c] == s[c].(lastRecv := s[c].inbox.seqno, pc := Ack(r))
    requires t[o] == s[o].(log := s[o].log + [Entry(s[c].inbox.tag, r, net.chip[c])])
    ensures Total(net, t) < Total(net, s)
  {
    var d := Terms(net, s);
    assert net.peer[q] == c;
    assert TermAt(net, t, c) == TermAt(net, s, c);
    TermServed(s[q], t[q], s[c].lastRecv, t[c].lastRecv);
    if o == q {
      assert Terms(net, t) == d[q := TermAt(net, t, q)];
      SumUpdate(d, q, TermAt(net, t, q));
    } else {
      TermLogged(s[o], t[o], s[net.peer[o]].lastRecv);
      assert net.peer[net.peer[o]] == o;
      assert Terms(net, t) == d[o := TermAt(net, t, o)][q := TermAt(net, t, q)];
      SumUpdate(d, o, TermAt(net, t, o));
      SumUpdate(d[o := TermAt(net, t, o)], q, TermAt(net, t, q));
    }
  }

  // ---------- Who gets work done ----------

  // Every chip a queued command names is the chip of my link peer or of a sibling's, and nothing has halted.
  ghost predicate Routable(net: Net, s: State)
    requires NetOk(net) && |s| == |net.peer|
  {
    && (forall c, k, l :: 0 <= c < |s| && 0 <= k < |s[c].hist| && 0 <= l < |Legs(s[c].hist[k])| ==>
          Legs(s[c].hist[k])[l].target == PeerChip(net, c) || Egress(net, c, Legs(s[c].hist[k])[l].target).Some?)
    && (forall c :: 0 <= c < |s| ==> !s[c].pc.Halt?)
  }

  // The next step of a gets work done, whatever the other cores do.
  predicate Working(a: Core) {
    match a.pc
    case Drain(left) => left > 0
    case LegStart(_, _) => true
    case Ring(_, _, _, _) => true
    case Await(_, _) => a.relayResp.seqno == a.relaySend
    case Send(_, _, _) => true
    case Spin(_, _, _) => a.resp.seqno == a.sendSeq
    case Inbox => a.inbox.seqno != a.lastRecv
    case Ack(_) => true
    case Scan(k) => k < |a.slots| && k < |a.last| && a.slots[k].seqno != a.last[k]
    case _ => false
  }

  predicate Waiting(a: Core) {
    || (a.pc.Spin? && a.resp.seqno != a.sendSeq)
    || (a.pc.Await? && a.relayResp.seqno != a.relaySend)
    || a.pc.Halt?
  }

  // One polling step.
  function Poll(a: Core): Core {
    match a.pc
    case Top =>
      if Queued(a) == 0 || (a.relayWait && a.relayResp.seqno != a.relaySend) then a.(pc := Inbox)
      else if Queued(a) < 0 then a
      else a.(pc := Drain(Queued(a)))
    case Drain(_) => a.(pc := Inbox)
    case Inbox => a.(pc := Bell)
    case Bell => a.(pc := if a.doorbell then Clear else Top)
    case Clear => a.(doorbell := false, pc := Scan(0))
    case Scan(k) => a.(pc := if k >= |a.slots| then Top else Scan(k + 1))
    case _ => a
  }

  lemma IdleStep(net: Net, s: State, c: nat, r: Word)
    requires Inv(net, s) && c < |s| && !Working(s[c])
    ensures Step(net, s, c, r) == s[c := Poll(s[c])]
    ensures Wf(net, Step(net, s, c, r)) && Total(net, Step(net, s, c, r)) == Total(net, s)
  {
    var t := Step(net, s, c, r);
    StepOk(net, s, c, r);
    assert t == s[c := Poll(s[c])];
    IdleTotal(net, s, c, t);
  }

  lemma DrainLess(net: Net, s: State, c: nat, r: Word, t: State)
    requires Inv(net, s) && Routable(net, s) && c < |s| && s[c].pc.Drain? && s[c].pc.left > 0
    requires t == Step(net, s, c, r) && Inv(net, t)
    ensures Total(net, t) < Total(net, s)
  {
    var a := s[c];
    var cmd := a.hist[|a.done|];
    assert RelayAt(net, s, c);
    if cmd.Broadcast? {
      BroadcastLess(net, s, c, t);
    } else if cmd.leg.target == PeerChip(net, c) {
      StartLess(net, s, c, Own(a.pc.left, 0), t);
    } else if a.relayWait {
      OneLeg(cmd);
      CompleteLess(net, s, c, a.relayResp.words, t);
    } else {
      assert Legs(cmd)[0] == cmd.leg;
      PostLess(net, s, c, Egress(net, c, cmd.leg.target).value, 0, t);
    }
  }

  lemma LegStartLess(net: Net, s: State, c: nat, r: Word, t: State)
    requires Inv(net, s) && Routable(net, s) && c < |s| && s[c].pc.LegStart?
    requires t == Step(net, s, c, r) && Inv(net, t)
    ensures Total(net, t) < Total(net, s)
  {
    var a := s[c];
    var legs, l := a.hist[|a.done|].legs, a.pc.leg;
    assert RelayAt(net, s, c) && CoreAt(net, s, c);
    if l == |legs| {
      CompleteLess(net, s, c, [], t);
    } else if legs[l].target == PeerChip(net, c) {
      StartLess(net, s, c, Own(a.pc.left, l), t);
    } else {
      assert Legs(a.hist[|a.done|])[l] == legs[l];
      PostLess(net, s, c, Egress(net, c, legs[l].target).value, l, t);
    }
  }

  lemma SendStepLess(net: Net, s: State, c: nat, r: Word, t: State)
    requires Inv(net, s) && c < |s| && s[c].pc.Send? && t == Step(net, s, c, r) && Inv(net, t)
    ensures Total(net, t) < Total(net, s)
  {
    var a := s[c];
    if a.pc.chunk < HopsOf(a, a.pc.who) {
      SendLess(net, s, c, t);
    } else if a.pc.who.For? {
      ReplyShape(net, s, c, r);
      ReplyLess(net, s, c, a.pc.who.i, t);
    } else if a.hist[|a.done|].Single? {
      assert RelayAt(net, s, c) && HopAt(net, s, c);
      OneLeg(a.hist[|a.done|]);
      CompleteLess(net, s, c, a.pc.got, t);
    } else {
      LegEndLess(net, s, c, t);
    }
  }

  lemma ScanLess(net: Net, s: State, c: nat, r: Word, t: State)
    requires Inv(net, s) && c < |s| && s[c].pc.Scan? && Working(s[c]) && t == Step(net, s, c, r) && Inv(net, t)
    ensures Total(net, t) < Total(net, s)
  {
    StartLess(net, s, c, For(s[c].pc.k), t);
  }

  lemma WorkingStep(net: Net, s: State, c: nat, r: Word)
    requires Inv(net, s) && Routable(net, s) && c < |s| && Working(s[c])
    ensures Wf(net, Step(net, s, c, r)) && Total(net, Step(net, s, c, r)) < Total(net, s)
  {
    var t := Step(net, s, c, r);
    StepOk(net, s, c, r);
    match s[c].pc
    case Drain(_) => DrainLess(net, s, c, r, t);
    case LegStart(_, _) => LegStartLess(net, s, c, r, t);
    case Ring(_, _, _, _) => RingLess(net, s, c, t);
    case Await(_, _) => AwaitLess(net, s, c, r);
    case Send(_, _, _) => SendStepLess(net, s, c, r, t);
    case Spin(_, _, _) => ReceiveLess(net, s, c, t);
    case Inbox => ServeLess(net, s, c, net.peer[c], s[c].inbox.tag.origin, r, t);
    case Ack(_) =>
      AckTouch(net, s, c, t);
      AckLess(net, s, c, t);
    case Scan(_) => ScanLess(net, s, c, r, t);
    case _ =>
  }

  // ---------- A core that will get work done, and how soon ----------

  datatype Goal = Serve | Start | Relay(o: nat)

  predicate GoalOk(a: Core, goal: Goal) {
    || Working(a)
    || (Calm(a.pc) && !a.pc.Halt? && match goal
        case Serve => a.inbox.seqno != a.lastRecv
        case Start => Queued(a) > 0 && (a.relayWait ==> a.relayResp.seqno == a.relaySend)
        case Relay(o) =>
          && o < |a.slots| == |a.last| && a.slots[o].seqno != a.last[o]
          && (a.doorbell || a.pc.Clear? || (a.pc.Scan? && a.pc.k <= o)))
  }

  function ToTop(n: nat, pc: Pc): int {
    match pc
    case Top => 0
    case Scan(k) => n - k + 1
    case Clear => n + 2
    case Bell => n + 3
    case Inbox => n + 4
    case _ => n + 5
  }

  // An upper bound on the polling steps a takes before it gets work done.
  function Dist(a: Core, goal: Goal): int {
    if Working(a) then 0 else
    match goal
    case Serve => if a.pc.Top? then 2 else if a.pc.Drain? || a.pc.Inbox? then 1 else ToTop(|a.slots|, a.pc) + 2
    case Start => ToTop(|a.slots|, a.pc) + 1
    case Relay(o) =>
      match a.pc
      case Scan(k) => if k <= o then o - k else ToTop(|a.slots|, a.pc) + o + 5
      case Clear => o + 1
      case Bell => o + 2
      case Inbox => o + 3
      case Drain(_) => o + 4
      case _ => o + 5
  }

  lemma ServeStep(net: Net, a: Core)
    requires WfCore(net, a) && GoalOk(a, Serve) && !Working(a)
    ensures GoalOk(Poll(a), Serve) && 0 <= Dist(Poll(a), Serve) < Dist(a, Serve) <= 2 * |net.peer| + 8
  {
  }

  lemma StartStep(net: Net, a: Core)
    requires WfCore(net, a) && GoalOk(a, Start) && !Working(a)
    ensures GoalOk(Poll(a), Start) && 0 <= Dist(Poll(a), Start) < Dist(a, Start) <= 2 * |net.peer| + 8
  {
  }

  lemma RelayStep(net: Net, a: Core, o: nat)
    requires WfCore(net, a) && GoalOk(a, Relay(o)) && !Working(a)
    ensures GoalOk(Poll(a), Relay(o)) && 0 <= Dist(Poll(a), Relay(o)) < Dist(a, Relay(o)) <= 2 * |net.peer| + 8
  {
  }

  // A core with a goal comes one step closer to it by polling.
  lemma GoalStep(net: Net, a: Core, goal: Goal)
    requires WfCore(net, a) && GoalOk(a, goal) && !Working(a)
    ensures GoalOk(Poll(a), goal) && 0 <= Dist(Poll(a), goal) < Dist(a, goal) <= 2 * |net.peer| + 8
  {
    match goal
    case Serve => ServeStep(net, a);
    case Start => StartStep(net, a);
    case Relay(o) => RelayStep(net, a, o);
  }

  // Chips with host queues are linked only to chips without any.
  ghost predicate Apart(net: Net, s: State)
    requires NetOk(net) && |s| == |net.peer|
  {
    forall c, d, x {:trigger s[c].hist, net.peer[d], net.chip[x]} ::
      && 0 <= c < |s| && 0 <= d < |s| && 0 <= x < |s|
      && s[c].hist != [] && net.chip[d] == net.chip[c] && net.chip[x] == PeerChip(net, d)
      ==> s[x].hist == []
  }

  ghost predicate HasBroadcast(a: Core) {
    exists k :: 0 <= |a.done| <= k < |a.hist| && a.hist[k].Broadcast?
  }

  // At most one broadcast is outstanding per chip.
  ghost predicate OneBroadcast(net: Net, s: State)
    requires NetOk(net) && |s| == |net.peer|
  {
    forall a, b :: 0 <= a < b < |s| && net.chip[a] == net.chip[b] ==> !HasBroadcast(s[a]) || !HasBroadcast(s[b])
  }

  ghost predicate Live(net: Net, s: State) {
    Inv(net, s) && Routable(net, s) && Apart(net, s) && OneBroadcast(net, s)
  }

  ghost predicate Outstanding(s: State) {
    exists c :: 0 <= c < |s| && Queued(s[c]) > 0
  }

  lemma Trichotomy(net: Net, a: Core)
    requires WfCore(net, a)
    ensures Working(a) || Waiting(a) || Calm(a.pc)
  {
  }

  // Only a chip with a host queue uses its links.
  lemma HopHasHost(net: Net, s: State, x: nat) returns (i: nat)
    requires Inv(net, s) && x < |s| && HopPc(s[x])
    ensures i < |s| && s[i].hist != [] && net.chip[i] == net.chip[x]
  {
    i := Origin(x, s[x].pc.who);
    assert HopAt(net, s, x);
    if s[x].pc.who.For? {
      assert SlotAt(net, s, i, x);
    }
  }

  // The receiver of a transfer that c is waiting for.
  lemma ReceiverHelps(net: Net, s: State, c: nat)
    requires Live(net, s) && c < |s| && s[c].pc.Spin? && s[c].resp.seqno != s[c].sendSeq
    ensures GoalOk(s[net.peer[c]], Serve)
  {
    var p := net.peer[c];
    assert LinkAt(net, s, c);
    var o := HopHasHost(net, s, c);
    assert net.chip[p] == PeerChip(net, c);
    if !Working(s[p]) {
      assert s[p].hist == [];
      if HopPc(s[p]) {
        var i := HopHasHost(net, s, p);
        assert false;
      }
      Trichotomy(net, s[p]);
    }
  }

  // The egress of a relay that o is waiting for, unless it is itself waiting.
  lemma EgressHelps(net: Net, s: State, o: nat, e: nat)
    requires Live(net, s) && o < |s| && e < |s| && !s[o].pc.Ring? && !Waiting(s[e])
    requires FlightTo(net, o, s[o], e) && s[o].relayResp.seqno != s[o].relaySend
    ensures GoalOk(s[e], Relay(o))
  {
    assert SlotAt(net, s, o, e) && BellAt(net, s, o, e);
    Trichotomy(net, s[e]);
  }

  lemma FlightEgress(net: Net, s: State, o: nat) returns (e: nat)
    requires Live(net, s) && o < |s| && InFlight(s[o])
    ensures e < |s| && e != o && net.chip[e] == net.chip[o] && FlightTo(net, o, s[o], e)
  {
    assert RelayAt(net, s, o);
    e := Egress(net, o, Legs(s[o].hist[|s[o].done|])[FlightLeg(s[o])].target).value;
  }

  // A core waiting for a relay of a broadcast has an egress that is not waiting for one too.
  lemma AwaitHelper(net: Net, s: State, o: nat) returns (h: nat, goal: Goal)
    requires Live(net, s) && o < |s| && s[o].pc.Await?
    requires forall x :: 0 <= x < |s| ==> !s[x].pc.Spin? && !Working(s[x])
    ensures h < |s| && GoalOk(s[h], goal)
  {
    h := FlightEgress(net, s, o);
    assert HasBroadcast(s[o]) by {
      assert s[o].hist[|s[o].done|].Broadcast?;
    }
    if s[h].pc.Await? {
      assert s[h].hist[|s[h].done|].Broadcast?;
      assert HasBroadcast(s[h]);
      assert false;
    }
    EgressHelps(net, s, o, h);
    goal := Relay(o);
  }

  // As long as a command is outstanding, some core is about to get work done.
  lemma SomeoneHelps(net: Net, s: State) returns (h: nat, goal: Goal)
    requires Live(net, s) && Outstanding(s)
    ensures h < |s| && GoalOk(s[h], goal)
  {
    if w: nat :| w < |s| && Working(s[w]) {
      h, goal := w, Serve;
    } else if c: nat :| c < |s| && s[c].pc.Spin? {
      ReceiverHelps(net, s, c);
      h, goal := net.peer[c], Serve;
    } else if o: nat :| o < |s| && s[o].pc.Await? {
      h, goal := AwaitHelper(net, s, o);
    } else {
      h :| h < |s| && Queued(s[h]) > 0;
      Trichotomy(net, s[h]);
      goal := Start;
      if s[h].relayWait && s[h].relayResp.seqno != s[h].relaySend {
        var o := h;
        h := FlightEgress(net, s, o);
        EgressHelps(net, s, o, h);
        goal := Relay(o);
      }
    }
  }

  // ---------- Fair runs complete every command ----------

  predicate Going(events: seq<Event>, n: nat) {
    forall i :: 0 <= i < |events| ==> events[i].Go? && events[i].c < n
  }

  function Count(events: seq<Event>, c: nat): nat {
    if events == [] then 0 else (if events[0].c == c then 1 else 0) + Count(events[1..], c)
  }

  // Steps never change what was queued, and never take a completion back.
  ghost predicate Grows(a: Core, b: Core) {
    a.hist == b.hist && |a.done| <= |b.done|
  }

  lemma QueueHist(net: Net, s: State, c: nat, x: nat, t: State)
    requires Wf(net, s) && c < |s| && x < |s| && |t| == |s|
    requires (s[c].pc.Drain? && t == StepDrain(net, s, c)) || (s[c].pc.LegStart? && t == StepLegStart(net, s, c))
    ensures Grows(s[x], t[x])
  {
  }

  lemma SendHist(net: Net, s: State, c: nat, x: nat, t: State)
    requires Wf(net, s) && c < |s| && x < |s| && |t| == |s| && s[c].pc.Send? && t == StepSend(net, s, c)
    ensures Grows(s[x], t[x])
  {
  }

  lemma OtherHist(net: Net, s: State, c: nat, r: Word, x: nat, t: State)
    requires Wf(net, s) && c < |s| && x < |s| && t == Step(net, s, c, r) && |t| == |s|
    requires !s[c].pc.Drain? && !s[c].pc.LegStart? && !s[c].pc.Send?
    ensures Grows(s[x], t[x])
  {
  }

  lemma StepHist(net: Net, s: State, c: nat, r: Word, x: nat, t: State)
    requires Wf(net, s) && c < |s| && x < |s| && t == Step(net, s, c, r) && |t| == |s|
    ensures Grows(s[x], t[x])
  {
    if s[c].pc.Drain? || s[c].pc.LegStart? {
      QueueHist(net, s, c, x, t);
    } else if s[c].pc.Send? {
      SendHist(net, s, c, x, t);
    } else {
      OtherHist(net, s, c, r, x, t);
    }
  }

  lemma StepRuns(net: Net, s: State, c: nat, r: Word, x: nat, t: State)
    requires Wf(net, s) && Routable(net, s) && c < |s| && x < |s| && t == Step(net, s, c, r) && |t| == |s|
    ensures !t[x].pc.Halt?
  {
    var a := s[c];
    if a.pc.Drain? && a.pc.left > 0 && a.hist[|a.done|].Single? {
      assert Legs(a.hist[|a.done|])[0] == a.hist[|a.done|].leg;
    } else if a.pc.LegStart? && a.pc.leg < |a.hist[|a.done|].legs| {
      assert Legs(a.hist[|a.done|])[a.pc.leg] == a.hist[|a.done|].legs[a.pc.leg];
    }
  }

  lemma LiveStep(net: Net, s: State, c: nat, r: Word)
    requires Live(net, s) && c < |s|
    ensures Live(net, Step(net, s, c, r))
    ensures !Outstanding(s) ==> !Outstanding(Step(net, s, c, r))
  {
    var t := Step(net, s, c, r);
    StepOk(net, s, c, r);
    forall x | 0 <= x < |s| ensures t[x].hist == s[x].hist && |s[x].done| <= |t[x].done| && !t[x].pc.Halt? {
      StepHist(net, s, c, r, x, t);
      StepRuns(net, s, c, r, x, t);
    }
    forall a, d, x | 0 <= a < |s| && 0 <= d < |s| && 0 <= x < |s| && t[a].hist != [] && net.chip[d] == net.chip[a]
        && net.chip[x] == PeerChip(net, d)
      ensures t[x].hist == []
    {
      assert s[a].hist != [];
      var p := net.peer[d];
    }
    forall x | 0 <= x < |s| && HasBroadcast(t[x]) ensures HasBroadcast(s[x]) {
    }
  }

  // Going on never adds work, and keeps a completed system complete.
  lemma {:induction false} RunKeeps(net: Net, s: State, events: seq<Event>)
    requires Live(net, s) && Going(events, |s|)
    ensures Live(net, Run(net, s, events)) && Total(net, Run(net, s, events)) <= Total(net, s)
    ensures !Outstanding(s) ==> !Outstanding(Run(net, s, events))
    decreases |events|
  {
    if events != [] {
      var c, r := events[0].c, events[0].r;
      LiveStep(net, s, c, r);
      if Working(s[c]) {
        WorkingStep(net, s, c, r);
      } else {
        IdleStep(net, s, c, r);
      }
      RunKeeps(net, Step(net, s, c, r), events[1..]);
    }
  }

  // Once a core has a goal, work gets done no later than its Dist-th next step, however the others interleave.
  lemma {:induction false} GoalReached(net: Net, s: State, events: seq<Event>, h: nat, goal: Goal)
    requires Live(net, s) && Going(events, |s|) && h < |s| && GoalOk(s[h], goal)
    requires Count(events, h) > Dist(s[h], goal)
    requires Dist(s[h], goal) >= 0
    ensures Total(net, Run(net, s, events)) < Total(net, s)
    decreases |events|
  {
    var c, r := events[0].c, events[0].r;
    var t := Step(net, s, c, r);
    LiveStep(net, s, c, r);
    if Working(s[c]) {
      WorkingStep(net, s, c, r);
      RunKeeps(net, t, events[1..]);
    } else {
      IdleStep(net, s, c, r);
      if c == h {
        GoalStep(net, s[h], goal);
      }
      GoalReached(net, t, events[1..], h, goal);
    }
  }

  // A stretch of a run in which every core takes enough steps.
  ghost predicate FairRound(events: seq<Event>, n: nat) {
    Going(events, n) && forall c :: 0 <= c < n ==> Count(events, c) > 2 * n + 8
  }

  lemma DistBound(net: Net, a: Core, goal: Goal)
    requires WfCore(net, a) && GoalOk(a, goal)
    ensures 0 <= Dist(a, goal) <= 2 * |net.peer| + 8
  {
    if !Working(a) {
      GoalStep(net, a, goal);
    }
  }

  lemma FairRoundWorks(net: Net, s: State, events: seq<Event>)
    requires Live(net, s) && FairRound(events, |s|) && Outstanding(s)
    ensures Total(net, Run(net, s, events)) < Total(net, s)
  {
    var h, goal := SomeoneHelps(net, s);
    DistBound(net, s[h], goal);
    GoalReached(net, s, events, h, goal);
  }

  ghost function RunRounds(net: Net, s: State, rounds: seq<seq<Event>>): (t: State)
    requires Live(net, s) && forall i :: 0 <= i < |rounds| ==> FairRound(rounds[i], |s|)
    ensures Live(net, t) && |t| == |s|
    decreases |rounds|
  {
    if rounds == [] then s
    else
      assert FairRound(rounds[0], |s|);
      RunKeeps(net, s, rounds[0]);
      RunRounds(net, Run(net, s, rounds[0]), rounds[1..])
  }

  // Every fair run long enough completes every command queued before it.
  lemma {:induction false} EverythingCompletes(net: Net, s: State, rounds: seq<seq<Event>>)
    requires Live(net, s) && |rounds| > Total(net, s)
    requires forall i :: 0 <= i < |rounds| ==> FairRound(rounds[i], |s|)
    ensures forall c :: 0 <= c < |s| ==> |RunRounds(net, s, rounds)[c].done| == |RunRounds(net, s, rounds)[c].hist|
    decreases |rounds|
  {
    TotalBound(net, s);
    var t := Run(net, s, rounds[0]);
    RunKeeps(net, s, rounds[0]);
    if Outstanding(s) {
      FairRoundWorks(net, s, rounds[0]);
      EverythingCompletes(net, t, rounds[1..]);
    } else {
      StaysComplete(net, s, rounds);
    }
  }

  lemma {:induction false} StaysComplete(net: Net, s: State, rounds: seq<seq<Event>>)
    requires Live(net, s) && !Outstanding(s)
    requires forall i :: 0 <= i < |rounds| ==> FairRound(rounds[i], |s|)
    ensures forall c :: 0 <= c < |s| ==> |RunRounds(net, s, rounds)[c].done| == |RunRounds(net, s, rounds)[c].hist|
    decreases |rounds|
  {
    if rounds == [] {
      forall c | 0 <= c < |s| ensures |s[c].done| == |s[c].hist| {
        assert WfCore(net, s[c]);
      }
    } else {
      RunKeeps(net, s, rounds[0]);
      StaysComplete(net, Run(net, s, rounds[0]), rounds[1..]);
    }
  }

  // ---------- Why the hypotheses are needed ----------

  // Two link peers that both wait for each other's receiver wait forever.
  ghost predicate PeersWait(net: Net, s: State, c: nat) {
    && Inv(net, s) && c < |s|
    && s[c].pc.Spin? && s[c].resp.seqno != s[c].sendSeq
    && s[net.peer[c]].pc.Spin? && s[net.peer[c]].resp.seqno != s[net.peer[c]].sendSeq
  }

  lemma PeersWaitStep(net: Net, s: State, c: nat, x: nat, r: Word)
    requires PeersWait(net, s, c) && x < |s|
    ensures PeersWait(net, Step(net, s, x, r), c)
  {
    StepOk(net, s, x, r);
    var p := net.peer[c];
    if x != c && x != p {
      assert net.peer[net.peer[x]] == x;
      SpinStays(net, s, x, r, c, Step(net, s, x, r));
      SpinStays(net, s, x, r, p, Step(net, s, x, r));
    }
  }

  // Only its link peer can end a core's wait.
  lemma SpinStays(net: Net, s: State, x: nat, r: Word, c: nat, t: State)
    requires Wf(net, s) && x < |s| && c < |s| && x != c && net.peer[x] != c && t == Step(net, s, x, r) && |t| == |s|
    requires s[c].pc.Spin? && s[c].resp.seqno != s[c].sendSeq
    ensures t[c].pc == s[c].pc && t[c].resp == s[c].resp && t[c].sendSeq == s[c].sendSeq
  {
  }

  lemma {:induction false} PeersWaitForever(net: Net, s: State, c: nat, events: seq<Event>)
    requires PeersWait(net, s, c) && Going(events, |s|)
    ensures PeersWait(net, Run(net, s, events), c)
    decreases |events|
  {
    if events != [] {
      PeersWaitStep(net, s, c, events[0].c, events[0].r);
      PeersWaitForever(net, Step(net, s, events[0].c, events[0].r), c, events[1..]);
    }
  }

  lemma {:induction false} RunSnoc(net: Net, s: State, events: seq<Event>, e: Event)
    requires Inv(net, s) && e.c < |s| && forall i :: 0 <= i < |events| ==> events[i].c < |s|
    ensures Run(net, s, events + [e]) == Happens(net, Run(net, s, events), e)
    decreases |events|
  {
    if events == [] {
      assert [e][1..] == [];
    } else {
      assert (events + [e])[1..] == events[1..] + [e];
      RunSnoc(net, Happens(net, s, events[0]), events[1..], e);
    }
  }

  // What a run of `events` from the start reaches.
  ghost predicate Reaches(net: Net, events: seq<Event>, s: State) {
    && NetOk(net)
    && (forall i :: 0 <= i < |events| ==> events[i].c < |net.peer|)
    && s == Run(net, PowerOn(net), events)
  }

  lemma Onwards(net: Net, events: seq<Event>, s: State, e: Event)
    requires Reaches(net, events, s) && e.c < |net.peer|
    ensures Reaches(net, events + [e], Happens(net, s, e))
  {
    RunSnoc(net, PowerOn(net), events, e);
  }

  lemma Then(net: Net, events: seq<Event>, s: State, e: Event) returns (events': seq<Event>, s': State)
    requires Reaches(net, events, s) && e.c < |net.peer|
    ensures Reaches(net, events', s') && s' == Happens(net, s, e)
  {
    Onwards(net, events, s, e);
    events', s' := events + [e], Happens(net, s, e);
  }

  ghost predicate AtRest(a: Core) {
    a.pc.Top? && a.hist == [] && a.done == [] && !a.relayWait
  }

  // The host of an idle core queues its first command, and the core starts to drain its queue.
  lemma FirstCommand(net: Net, events: seq<Event>, s: State, c: nat, cmd: Cmd) returns (events': seq<Event>, s': State)
    requires Reaches(net, events, s) && c < |s| && AtRest(s[c])
    ensures Reaches(net, events', s') && |s'| == |s|
    ensures s' == s[c := s[c].(hist := [cmd], pc := Drain(1))]
  {
    var events1, s1 := Then(net, events, s, Queue(c, cmd));
    assert s[c].hist + [cmd] == [cmd];
    assert s1 == s[c := s[c].(hist := [cmd])];
    events', s' := Then(net, events1, s1, Go(c, 0));
    assert s' == s1[c := s1[c].(pc := Drain(1))];
  }

  // ... which is one transfer to the chip of its link peer.
  lemma FirstSend(net: Net, events: seq<Event>, s: State, c: nat, cmd: Cmd) returns (events': seq<Event>, s': State)
    requires Reaches(net, events, s) && c < |s| && AtRest(s[c])
    requires cmd == Single(Leg(PeerChip(net, c), 1))
    ensures Reaches(net, events', s') && |s'| == |s|
    ensures s'[c].pc.Spin? && s'[c].resp.seqno != s'[c].sendSeq && s'[c].hist == [cmd]
    ensures forall x :: 0 <= x < |s| && x != c ==> s'[x] == s[x].(inbox := s'[x].inbox)
  {
    var events1, s1 := FirstCommand(net, events, s, c, cmd);
    var events2, s2 := Then(net, events1, s1, Go(c, 0));
    assert s2 == s1[c := s1[c].(pc := Send(Own(1, 0), 0, []))];
    events', s' := Then(net, events2, s2, Go(c, 0));
    assert s' == StepSend(net, s2, c);
    assert LinkAt(net, s', c) && LinkAt(net, s2, c);
  }

  // Hosts at both ends of a link: each core sends to the other's chip and waits.
  lemma LinkedHosts(net: Net, c: nat) returns (events: seq<Event>, s: State)
    requires NetOk(net) && c < |net.peer|
    ensures Reaches(net, events, s) && PeersWait(net, s, c)
    ensures var p := net.peer[c]; forall x :: 0 <= x < |s| ==>
      && (x == c || x == p || s[x].hist == []) && !s[x].pc.Halt?
      && (x == c || x == p ==> s[x].hist == [Single(Leg(PeerChip(net, x), 1))])
  {
    var p := net.peer[c];
    events, s := [], PowerOn(net);
    events, s := FirstSend(net, events, s, c, Single(Leg(PeerChip(net, c), 1)));
    events, s := FirstSend(net, events, s, p, Single(Leg(PeerChip(net, p), 1)));
  }

  // On any link they never serve their inboxes again, so the commands never complete.
  lemma LinkedHostsDeadlock(net: Net, c: nat) returns (events: seq<Event>, s: State)
    requires NetOk(net) && c < |net.peer|
    ensures Reaches(net, events, s) && Outstanding(s) && Routable(net, s) && OneBroadcast(net, s)
    ensures forall more :: Going(more, |s|) ==> Outstanding(Run(net, s, more))
  {
    events, s := LinkedHosts(net, c);
    PeersOutstanding(net, s, c);
    PeersNeverFinish(net, s, c);
  }

  lemma PeersNeverFinish(net: Net, s: State, c: nat)
    requires PeersWait(net, s, c)
    ensures forall more :: Going(more, |s|) ==> Outstanding(Run(net, s, more))
  {
    forall more | Going(more, |s|) ensures Outstanding(Run(net, s, more)) {
      PeersWaitForever(net, s, c, more);
      PeersOutstanding(net, Run(net, s, more), c);
    }
  }

  lemma PeersOutstanding(net: Net, s: State, c: nat)
    requires PeersWait(net, s, c)
    ensures Outstanding(s)
  {
    assert HopAt(net, s, c);
    var o := Origin(c, s[c].pc.who);
    assert o < |s| && Queued(s[o]) > 0;
  }

  // Two siblings whose broadcasts relay through each other wait forever: neither serves the other's relay.
  ghost predicate SiblingsWait(net: Net, s: State, a: nat, b: nat) {
    && Inv(net, s) && a < |s| && b < |s| && a != b
    && s[a].pc.Await? && s[a].relayResp.seqno != s[a].relaySend && FlightTo(net, a, s[a], b)
    && s[b].pc.Await? && s[b].relayResp.seqno != s[b].relaySend && FlightTo(net, b, s[b], a)
  }

  // Only its egress can end a core's wait for a relay.
  ghost predicate SameWait(a: Core, b: Core) {
    && a.pc == b.pc && a.relayResp == b.relayResp && a.relaySend == b.relaySend && a.hist == b.hist && a.done == b.done
  }

  lemma WaitKept(net: Net, s: State, x: nat, r: Word, o: nat, t: State)
    requires Wf(net, s) && x < |s| && o < |s| && x != o && t == Step(net, s, x, r) && |t| == |s|
    requires !s[x].pc.Send? && !s[x].pc.Drain? && !s[x].pc.LegStart?
    ensures SameWait(s[o], t[o])
  {
  }

  lemma WaitKeptSend(net: Net, s: State, x: nat, o: nat, t: State)
    requires Wf(net, s) && x < |s| && o < |s| && x != o && |t| == |s|
    requires s[x].pc.Send? && t == StepSend(net, s, x)
    ensures SameWait(s[o], t[o]) || s[x].pc.who == For(o)
  {
  }

  lemma WaitKeptQueue(net: Net, s: State, x: nat, o: nat, t: State)
    requires Wf(net, s) && x < |s| && o < |s| && x != o && |t| == |s|
    requires (s[x].pc.Drain? && t == StepDrain(net, s, x)) || (s[x].pc.LegStart? && t == StepLegStart(net, s, x))
    ensures SameWait(s[o], t[o])
  {
  }

  lemma AwaitStays(net: Net, s: State, x: nat, r: Word, o: nat, e: nat, t: State)
    requires Inv(net, s) && x < |s| && o < |s| && e < |s| && x != o && x != e && t == Step(net, s, x, r) && |t| == |s|
    requires FlightTo(net, o, s[o], e)
    ensures SameWait(s[o], t[o])
  {
    if s[x].pc.Send? {
      assert SlotAt(net, s, o, x) && HopAt(net, s, x);
      WaitKeptSend(net, s, x, o, t);
    } else if s[x].pc.Drain? || s[x].pc.LegStart? {
      WaitKeptQueue(net, s, x, o, t);
    } else {
      WaitKept(net, s, x, r, o, t);
    }
  }

  lemma SiblingsWaitStep(net: Net, s: State, a: nat, b: nat, x: nat, r: Word)
    requires SiblingsWait(net, s, a, b) && x < |s|
    ensures SiblingsWait(net, Step(net, s, x, r), a, b)
  {
    StepOk(net, s, x, r);
    if x != a && x != b {
      AwaitStays(net, s, x, r, a, b, Step(net, s, x, r));
      AwaitStays(net, s, x, r, b, a, Step(net, s, x, r));
    }
  }

  lemma {:induction false} SiblingsWaitForever(net: Net, s: State, a: nat, b: nat, events: seq<Event>)
    requires SiblingsWait(net, s, a, b) && Going(events, |s|)
    ensures SiblingsWait(net, Run(net, s, events), a, b)
    decreases |events|
  {
    if events != [] {
      SiblingsWaitStep(net, s, a, b, events[0].c, events[0].r);
      SiblingsWaitForever(net, Step(net, s, events[0].c, events[0].r), a, b, events[1..]);
    }
  }

  // An idle core starts a broadcast to the chip of its sibling e's link peer ...
  lemma FirstPost(net: Net, events: seq<Event>, s: State, c: nat, e: nat, cmd: Cmd)
    returns (events': seq<Event>, s': State)
    requires Reaches(net, events, s) && c < |s| && AtRest(s[c])
    requires cmd.Broadcast? && |cmd.legs| == 1 && cmd.legs[0].target != PeerChip(net, c)
    requires Egress(net, c, cmd.legs[0].target) == Some(e) && e != c
    ensures Reaches(net, events', s') && |s'| == |s|
    ensures s'[c].pc == Ring(1, 0, e, true) && s'[c].relayResp.seqno != s'[c].relaySend && s'[c].hist == [cmd] && s'[c].done == []
    ensures forall x :: 0 <= x < |s| && x != c ==> s'[x] == s[x].(slots := s'[x].slots)
  {
    var events1, s1 := FirstCommand(net, events, s, c, cmd);
    var events2, s2 := Then(net, events1, s1, Go(c, 0));
    assert s2 == s1[c := s1[c].(pc := LegStart(1, 0))];
    assert RelayAt(net, s2, c);
    events', s' := Then(net, events2, s2, Go(c, 0));
    assert s' == Post(s2, c, e, 1, 0, true);
  }

  // ... and waits.
  lemma FirstBroadcast(net: Net, events: seq<Event>, s: State, c: nat, e: nat, cmd: Cmd)
    returns (events': seq<Event>, s': State)
    requires Reaches(net, events, s) && c < |s| && AtRest(s[c])
    requires cmd.Broadcast? && |cmd.legs| == 1 && cmd.legs[0].target != PeerChip(net, c)
    requires Egress(net, c, cmd.legs[0].target) == Some(e) && e != c
    ensures Reaches(net, events', s') && |s'| == |s|
    ensures s'[c].pc.Await? && FlightTo(net, c, s'[c], e) && s'[c].relayResp.seqno != s'[c].relaySend && s'[c].hist == [cmd]
    ensures forall x :: 0 <= x < |s| && x != c ==>
      s'[x] == s[x].(slots := s'[x].slots, doorbell := s'[x].doorbell)
  {
    var events1, s1 := FirstPost(net, events, s, c, e, cmd);
    events', s' := Then(net, events1, s1, Go(c, 0));
    assert s' == StepRing(net, s1, c);
  }

  // Siblings that are each the other's egress to its peer's chip.
  ghost predicate Mutual(net: Net, a: nat, b: nat) {
    && NetOk(net) && a < |net.peer| && b < |net.peer| && a != b && net.chip[a] == net.chip[b]
    && Egress(net, a, PeerChip(net, b)) == Some(b) && Egress(net, b, PeerChip(net, a)) == Some(a)
    && PeerChip(net, a) != PeerChip(net, b)
  }

  // Two broadcasts in flight on one chip: the cores each relay through the other and wait.
  lemma TwoBroadcasts(net: Net, a: nat, b: nat) returns (events: seq<Event>, s: State)
    requires Mutual(net, a, b)
    ensures Reaches(net, events, s) && SiblingsWait(net, s, a, b)
    ensures s[a].hist == [Broadcast([Leg(PeerChip(net, b), 1)])] && s[b].hist == [Broadcast([Leg(PeerChip(net, a), 1)])]
    ensures forall x :: 0 <= x < |s| ==> (x == a || x == b || s[x].hist == []) && !s[x].pc.Halt?
  {
    events, s := [], PowerOn(net);
    events, s := FirstBroadcast(net, events, s, a, b, Broadcast([Leg(PeerChip(net, b), 1)]));
    events, s := FirstBroadcast(net, events, s, b, a, Broadcast([Leg(PeerChip(net, a), 1)]));
  }

  // They never serve each other's relays, so the broadcasts never complete.
  lemma TwoBroadcastsDeadlock(net: Net, a: nat, b: nat) returns (events: seq<Event>, s: State)
    requires Mutual(net, a, b)
    ensures Reaches(net, events, s) && Outstanding(s) && Routable(net, s) && Apart(net, s)
    ensures forall more :: Going(more, |s|) ==> Outstanding(Run(net, s, more))
  {
    events, s := TwoBroadcasts(net, a, b);
    BroadcastsRoutable(net, s, a, b);
    SiblingsNeverFinish(net, s, a, b);
    hide Routable, Apart, SiblingsWait;
    assert Going([], |s|) && Run(net, s, []) == s;
  }

  lemma BroadcastsRoutable(net: Net, s: State, a: nat, b: nat)
    requires Mutual(net, a, b) && |s| == |net.peer|
    requires s[a].hist == [Broadcast([Leg(PeerChip(net, b), 1)])] && s[b].hist == [Broadcast([Leg(PeerChip(net, a), 1)])]
    requires forall x :: 0 <= x < |s| ==> (x == a || x == b || s[x].hist == []) && !s[x].pc.Halt?
    ensures Routable(net, s) && Apart(net, s)
  {
    forall c, d, x | 0 <= c < |s| && 0 <= d < |s| && 0 <= x < |s| && s[c].hist != [] && net.chip[d] == net.chip[c]
        && net.chip[x] == PeerChip(net, d)
      ensures s[x].hist == []
    {
      var p := net.peer[d];
    }
  }

  // Such siblings exist: two cores of one chip linked to two others.
  lemma Siblings(net: Net)
    requires net == Net([2, 3, 0, 1], [0, 0, 1, 2])
    ensures Mutual(net, 0, 1)
  {
    assert EgressFrom(net, 0, 2, 0) == EgressFrom(net, 0, 2, 1) == Some(1);
  }

  lemma SiblingsNeverFinish(net: Net, s: State, a: nat, b: nat)
    requires SiblingsWait(net, s, a, b)
    ensures forall more :: Going(more, |s|) ==> Outstanding(Run(net, s, more))
  {
    forall more | Going(more, |s|) ensures Outstanding(Run(net, s, more)) {
      SiblingsWaitForever(net, s, a, b, more);
      assert Queued(Run(net, s, more)[a]) > 0;
    }
  }
}
