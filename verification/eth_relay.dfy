// The multi-hop relay protocol of the Ethernet base firmware (fw/eth/eth_fw.c).
//
// Every eth core runs the same service loop and plays three roles at once: ingress (drain my host queue),
// receiver (serve the one-slot inbox my link peer writes) and egress (serve the one-slot mailboxes my
// siblings write, woken by a doorbell). A core is a record of the L1 words that loop reads and writes plus
// its place in the code; a step runs the code of one core between two points at which another core could
// write one of its words. NOC and eth delivery is synchronous and in order (eth_fw.c:74).
module EthRelay {
  type Word = int

  // ---------- Topology and commands ----------

  // peer[c] is the core at the other end of c's link; chip[c] the chip c sits on.
  datatype Net = Net(peer: seq<nat>, chip: seq<nat>)

  ghost predicate NetOk(net: Net) {
    && |net.peer| == |net.chip|
    && forall c :: 0 <= c < |net.peer| ==> 
        net.peer[c] < |net.peer| && net.peer[net.peer[c]] == c && net.chip[net.peer[c]] != net.chip[c]
  }

  // One run of `hops` link transfers towards chip `target`. A word or L1-block command is one hop, a
  // host-DRAM block one hop per chunk (none for an empty block).
  datatype Leg = Leg(target: nat, hops: nat)

  // A broadcast visits every chip of the broadcast route table in turn; any other command has one leg.
  datatype Cmd = Single(leg: Leg) | Broadcast(legs: seq<Leg>)

  function Legs(cmd: Cmd): seq<Leg> {
    match cmd
    case Single(leg) => [leg]
    case Broadcast(legs) => legs
  }

  // Names one link transfer: transfer `chunk` of leg `leg` of the `idx`-th command of core `origin`.
  datatype Tag = Tag(origin: nat, idx: nat, leg: nat, chunk: nat)

  // ---------- Core state ----------

  datatype Packet = Packet(seqno: nat, tag: Tag)
  datatype Reply = Reply(seqno: nat, data: Word)
  datatype RelayReply = RelayReply(seqno: nat, words: seq<Word>)
  datatype Slot = Slot(seqno: nat, idx: nat, leg: nat, hops: nat)
  datatype Entry = Entry(tag: Tag, reply: Word, chip: nat)  // made by a receiver on `chip`

  // On whose behalf a core is using its link: its own head command, or sibling i's relay slot.
  datatype Who = Own(left: nat, leg: nat) | For(i: nat)

  datatype Pc =
    | Top                                            // eth_service: about to test the host queue
    | Drain(left: nat)                               // service_request_queue: `left` commands to its wrptr snapshot
    | LegStart(left: nat, leg: nat)                  // broadcast loop: about to start leg `leg`
    | Ring(left: nat, leg: nat, egress: nat, blocking: bool) // relay_post: slot written, doorbell not yet rung
    | Await(left: nat, leg: nat)                     // relay_wait: spinning for the egress's reply
    | Send(who: Who, chunk: nat, got: seq<Word>)     // chunk loop: about to send transfer `chunk`, or done
    | Spin(who: Who, chunk: nat, got: seq<Word>)     // spinning on RESP_INBOX for transfer `chunk`
    | Inbox                                          // eth_service: about to test the inbox
    | Ack(reply: Word)                               // service_inbox: access made, about to send the reply
    | Bell                                           // eth_service: about to test the doorbell
    | Clear                                          // doorbell seen, about to clear it
    | Scan(k: nat)                                   // scanning the relay slots, about to test slot k
    | Halt                                           // sim_error: the target is not routable

  datatype Core = Core(
    pc: Pc,
    hist: seq<Cmd>,            // every command the host has queued here; the first |done| have completed
    done: seq<seq<Word>>,      // what the host got back, in queue order
    sendSeq: nat, resp: Reply,       // my link transfers and their replies
    inbox: Packet, lastRecv: nat,    // my link peer's transfers, and the last one I served
    slots: seq<Slot>, last: seq<nat>, doorbell: bool,                // my siblings' relays to me
    relaySend: nat, relayWait: bool, relayResp: RelayReply,          // my relay to a sibling
    log: seq<Entry>            // the accesses receivers have made for my commands, in the order made
  )

  type State = seq<Core>

  function Queued(a: Core): int {
    |a.hist| - |a.done|
  }

  // The chip c's link peer sits on (route_my_peer).
  function PeerChip(net: Net, c: nat): nat
    requires NetOk(net) && c < |net.peer|
  {
    net.chip[net.peer[c]]
  }

  datatype Option<T> = None | Some(value: T)

  // The first core of c's chip, from index k on, whose link peer sits on chip tc (route_egress).
  function EgressFrom(net: Net, c: nat, tc: nat, k: nat): (r: Option<nat>)
    requires NetOk(net) && c < |net.peer| && k <= |net.peer|
    ensures r.Some? ==> k <= r.value < |net.peer| && net.chip[r.value] == net.chip[c] && PeerChip(net, r.value) == tc
    ensures r.Some? ==> forall e :: k <= e < r.value && net.chip[e] == net.chip[c] ==> PeerChip(net, e) != tc
    ensures r.None? ==> forall e :: k <= e < |net.peer| && net.chip[e] == net.chip[c] ==> PeerChip(net, e) != tc
    decreases |net.peer| - k
  {
    if k == |net.peer| then None
    else if net.chip[k] == net.chip[c] && PeerChip(net, k) == tc then Some(k)
    else EgressFrom(net, c, tc, k + 1)
  }

  function Egress(net: Net, c: nat, tc: nat): Option<nat>
    requires NetOk(net) && c < |net.peer|
  {
    EgressFrom(net, c, tc, 0)
  }

  // Indices held in a state are in range, so that every step is defined.
  ghost predicate Wf(net: Net, s: State) {
    && NetOk(net)
    && |s| == |net.peer|
    && forall c :: 0 <= c < |s| ==> WfCore(net, s[c])
  }

  ghost predicate WfCore(net: Net, a: Core) {
    && |a.done| <= |a.hist|
    && |a.slots| == |a.last| == |net.peer|
    && a.inbox.tag.origin < |net.peer|
    && match a.pc
       case Drain(left) => left <= Queued(a)
       case LegStart(left, leg) => 0 < left <= Queued(a) && a.hist[|a.done|].Broadcast? && leg <= |a.hist[|a.done|].legs|
       case Ring(left, leg, e, blocking) => e < |net.peer| && 0 < left <= Queued(a) && leg < |Legs(a.hist[|a.done|])|
            && a.hist[|a.done|].Broadcast? == blocking
       case Await(left, leg) => 0 < left <= Queued(a) && a.hist[|a.done|].Broadcast? && leg < |a.hist[|a.done|].legs|
       case Send(who, _, _) => WfWho(net, a, who)
       case Spin(who, _, _) => WfWho(net, a, who)
       case Scan(k) => k <= |net.peer|
       case _ => true
  }

  ghost predicate WfWho(net: Net, a: Core, who: Who)
    requires |a.done| <= |a.hist|
  {
    match who
    case Own(left, leg) => 0 < left <= Queued(a) && leg < |Legs(a.hist[|a.done|])|
    case For(i) => i < |net.peer|
  }

  // ---------- Steps ----------

  // Whose command a link transfer of core c serves, and which leg and how many hops it has.
  function Origin(c: nat, who: Who): nat {
    if who.Own? then c else who.i
  }

  function LegOf(a: Core, who: Who): nat
    requires who.For? ==> who.i < |a.slots|
  {
    if who.Own? then who.leg else a.slots[who.i].leg
  }

  function IdxOf(a: Core, who: Who): nat
    requires who.For? ==> who.i < |a.slots|
  {
    if who.Own? then |a.done| else a.slots[who.i].idx
  }

  function HopsOf(a: Core, who: Who): nat
    requires |a.done| <= |a.hist|
    requires who.Own? ==> 0 < Queued(a) && who.leg < |Legs(a.hist[|a.done|])|
    requires who.For? ==> who.i < |a.slots|
  {
    if who.Own? then Legs(a.hist[|a.done|])[who.leg].hops else a.slots[who.i].hops
  }

  // relay_post up to the slot write: a fresh sequence number and the slot at the egress.
  function Post(s: State, c: nat, e: nat, left: nat, leg: nat, blocking: bool): State
    requires c < |s| && e < |s| && c < |s[e].slots| && |s[c].done| < |s[c].hist| && leg < |Legs(s[c].hist[|s[c].done|])|
  {
    var a := s[c];
    var t := s[c := a.(relaySend := a.relaySend + 1, pc := Ring(left, leg, e, blocking))];
    var slot := Slot(a.relaySend + 1, |a.done|, leg, Legs(a.hist[|a.done|])[leg].hops);
    t[e := t[e].(slots := t[e].slots[c := slot])]
  }

  function StepDrain(net: Net, s: State, c: nat): State
    requires Wf(net, s) && c < |s| && s[c].pc.Drain?
  {
    var a := s[c];
    if a.pc.left == 0 then s[c := a.(pc := Inbox)]
    else
      var cmd := a.hist[|a.done|];
      if cmd.Broadcast? then s[c := a.(pc := LegStart(a.pc.left, 0))]
      else if cmd.leg.target == PeerChip(net, c) then s[c := a.(pc := Send(Own(a.pc.left, 0), 0, []))]
      else if a.relayWait then // the reply is in: finish the relayed command
        s[c := a.(relayWait := false, done := a.done + [a.relayResp.words], pc := Drain(a.pc.left - 1))]
      else
        match Egress(net, c, cmd.leg.target)
        case None => s[c := a.(pc := Halt)]
        case Some(e) => Post(s, c, e, a.pc.left, 0, false)
  }

  function StepLegStart(net: Net, s: State, c: nat): State
    requires Wf(net, s) && c < |s| && s[c].pc.LegStart?
  {
    var a := s[c];
    var legs := a.hist[|a.done|].legs;
    if a.pc.leg == |legs| then s[c := a.(done := a.done + [[]], pc := Drain(a.pc.left - 1))]
    else if legs[a.pc.leg].target == PeerChip(net, c) then s[c := a.(pc := Send(Own(a.pc.left, a.pc.leg), 0, []))]
    else
      match Egress(net, c, legs[a.pc.leg].target)
      case None => s[c := a.(pc := Halt)]
      case Some(e) => Post(s, c, e, a.pc.left, a.pc.leg, true)
  }

  function StepRing(net: Net, s: State, c: nat): State
    requires Wf(net, s) && c < |s| && s[c].pc.Ring?
  {
    var a := s[c];
    var t := s[c := if a.pc.blocking then a.(pc := Await(a.pc.left, a.pc.leg))
                    else a.(relayWait := true, pc := Inbox)];
    t[a.pc.egress := t[a.pc.egress].(doorbell := true)]
  }

  function StepSend(net: Net, s: State, c: nat): State
    requires Wf(net, s) && c < |s| && s[c].pc.Send?
  {
    var a := s[c];
    var who, chunk, got := a.pc.who, a.pc.chunk, a.pc.got;
    if chunk < HopsOf(a, who) then
      var p := net.peer[c];
      var t := s[c := a.(sendSeq := a.sendSeq + 1, pc := Spin(who, chunk, got))];
      t[p := t[p].(inbox := Packet(a.sendSeq + 1, Tag(Origin(c, who), IdxOf(a, who), LegOf(a, who), chunk)))]
    else
      match who
      case Own(left, leg) =>
        if a.hist[|a.done|].Single? then s[c := a.(done := a.done + [got], pc := Drain(left - 1))]
        else s[c := a.(pc := LegStart(left, leg + 1))]
      case For(i) =>
        var t := s[c := a.(last := a.last[i := a.slots[i].seqno], pc := Scan(i + 1))];
        t[i := t[i].(relayResp := RelayReply(a.slots[i].seqno, got))]
  }

  function StepInbox(net: Net, s: State, c: nat, r: Word): State
    requires Wf(net, s) && c < |s| && s[c].pc.Inbox?
  {
    var a := s[c];
    if a.inbox.seqno == a.lastRecv then s[c := a.(pc := Bell)]
    else
      var t := s[c := a.(lastRecv := a.inbox.seqno, pc := Ack(r))];
      var o := a.inbox.tag.origin;
      t[o := t[o].(log := t[o].log + [Entry(a.inbox.tag, r, net.chip[c])])]
  }

  // One step of core c. r is the word the receiver's NOC access returns, when the step makes one.
  function Step(net: Net, s: State, c: nat, r: Word): State
    requires Wf(net, s) && c < |s|
  {
    var a := s[c];
    match a.pc
    case Top =>
      if Queued(a) == 0 || (a.relayWait && a.relayResp.seqno != a.relaySend) then s[c := a.(pc := Inbox)]
      else s[c := a.(pc := Drain(Queued(a)))]
    case Drain(_) => StepDrain(net, s, c)
    case LegStart(_, _) => StepLegStart(net, s, c)
    case Ring(_, _, _, _) => StepRing(net, s, c)
    case Await(left, leg) =>
      if a.relayResp.seqno == a.relaySend then s[c := a.(pc := LegStart(left, leg + 1))] else s
    case Send(_, _, _) => StepSend(net, s, c)
    case Spin(who, chunk, got) =>
      if a.resp.seqno == a.sendSeq then s[c := a.(pc := Send(who, chunk + 1, got + [a.resp.data]))] else s
    case Inbox => StepInbox(net, s, c, r)
    case Ack(reply) =>
      var p := net.peer[c];
      var t := s[c := a.(pc := Bell)];
      t[p := t[p].(resp := Reply(a.lastRecv, reply))]
    case Bell => s[c := a.(pc := if a.doorbell then Clear else Top)]
    case Clear => s[c := a.(doorbell := false, pc := Scan(0))]
    case Scan(k) =>
      if k == |net.peer| then s[c := a.(pc := Top)]
      else if a.slots[k].seqno != a.last[k] then s[c := a.(pc := Send(For(k), 0, []))]
      else s[c := a.(pc := Scan(k + 1))]
    case Halt => s
  }

  // The host queues a command on core c.
  function Push(s: State, c: nat, cmd: Cmd): State
    requires c < |s|
  {
    s[c := s[c].(hist := s[c].hist + [cmd])]
  }

  function InitCore(n: nat): Core {
    Core(Top, [], [], 0, Reply(0, 0), Packet(0, Tag(0, 0, 0, 0)), 0,
         seq(n, _ => Slot(0, 0, 0, 0)), seq(n, _ => 0), false, 0, false, RelayReply(0, []), [])
  }

  function Init(net: Net): State {
    seq(|net.peer|, _ => InitCore(|net.peer|))
  }

  // ---------- Ranks: the order in which the host expects transfers to be made ----------

  function LegOff(legs: seq<Leg>, l: nat): nat
    requires l <= |legs|
  {
    if l == 0 then 0 else LegOff(legs, l - 1) + legs[l - 1].hops
  }

  function CmdHops(cmd: Cmd): nat {
    LegOff(Legs(cmd), |Legs(cmd)|)
  }

  function Off(hist: seq<Cmd>, k: nat): nat
    requires k <= |hist|
  {
    if k == 0 then 0 else Off(hist, k - 1) + CmdHops(hist[k - 1])
  }

  ghost predicate ValidTag(hist: seq<Cmd>, t: Tag) {
    t.idx < |hist| && t.leg < |Legs(hist[t.idx])| && t.chunk < Legs(hist[t.idx])[t.leg].hops
  }

  // The position of a transfer in the host's program order.
  function Rank(hist: seq<Cmd>, t: Tag): nat
    requires t.idx < |hist| && t.leg < |Legs(hist[t.idx])|
  {
    Off(hist, t.idx) + LegOff(Legs(hist[t.idx]), t.leg) + t.chunk
  }

  lemma {:induction false} LegOffMonotone(legs: seq<Leg>, l: nat, m: nat)
    requires l <= m <= |legs|
    ensures LegOff(legs, l) <= LegOff(legs, m)
    decreases m
  {
    if l < m {
      LegOffMonotone(legs, l, m - 1);
    }
  }

  lemma {:induction false} OffMonotone(hist: seq<Cmd>, k: nat, m: nat)
    requires k <= m <= |hist|
    ensures Off(hist, k) <= Off(hist, m)
    decreases m
  {
    if k < m {
      OffMonotone(hist, k, m - 1);
    }
  }

  lemma {:induction false} OffPrefix(hist: seq<Cmd>, cmd: Cmd, k: nat)
    requires k <= |hist|
    ensures Off(hist + [cmd], k) == Off(hist, k)
  {
    if k > 0 {
      OffPrefix(hist, cmd, k - 1);
      assert (hist + [cmd])[k - 1] == hist[k - 1];
    }
  }

  // Different transfers have different ranks, so a log in rank order repeats none.
  lemma RankInjective(hist: seq<Cmd>, t: Tag, u: Tag)
    requires ValidTag(hist, t) && ValidTag(hist, u) && Rank(hist, t) == Rank(hist, u)
    ensures t.idx == u.idx && t.leg == u.leg && t.chunk == u.chunk
  {
    RankBound(hist, t);
    RankBound(hist, u);
    if t.idx < u.idx {
      OffMonotone(hist, t.idx + 1, u.idx);
    } else if u.idx < t.idx {
      OffMonotone(hist, u.idx + 1, t.idx);
    } else {
      var legs := Legs(hist[t.idx]);
      if t.leg < u.leg {
        LegOffMonotone(legs, t.leg + 1, u.leg);
      } else if u.leg < t.leg {
        LegOffMonotone(legs, u.leg + 1, t.leg);
      }
    }
  }

  lemma RankBound(hist: seq<Cmd>, t: Tag)
    requires ValidTag(hist, t)
    ensures Off(hist, t.idx) <= Rank(hist, t) < Off(hist, t.idx + 1)
  {
    var legs := Legs(hist[t.idx]);
    LegOffMonotone(legs, t.leg + 1, |legs|);
  }
}
