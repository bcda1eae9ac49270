// The two banks of a Src register file, handed from an unpacker to the Matrix Unit and back (src/tensix.cpp).
//
// The code keeps two valid bits and two bank pointers. They are a queue of two slots: what the unpacker hands over the
// Matrix Unit takes in order, and neither overwrites what the other owns.
module SrcBanks {
  const WORDS := 1024  // 64 rows of 16 datums

  type Rows = seq<nat>

  // One side, SrcA or SrcB. The last four fields are history: which handover filled each bank, how many there were,
  // which were released, and what each handed over, with the Matrix Unit's own later moves into it applied.
  datatype Side = Side(valid: seq<bool>, unpack: nat, matrix: nat, banks: seq<Rows>,
                       tags: seq<nat>, handed: nat, taken: seq<nat>, sent: seq<Rows>)

  predicate Shape(s: Side) {
    && |s.valid| == |s.banks| == |s.tags| == 2 && s.unpack < 2 && s.matrix < 2
    && |s.banks[0]| == |s.banks[1]| == WORDS && |s.sent| == s.handed
  }

  // The handovers the valid banks hold, the Matrix Unit's bank first.
  function Queue(s: Side): seq<nat>
    requires Shape(s)
  {
    if !s.valid[s.matrix] then []
    else if !s.valid[1 - s.matrix] then [s.tags[s.matrix]]
    else [s.tags[s.matrix], s.tags[1 - s.matrix]]
  }

  function UpTo(n: nat): (r: seq<nat>)
    ensures |r| == n && forall i :: 0 <= i < n ==> r[i] == i
  {
    seq(n, i => i)
  }

  // The pointers and bits form a queue: equal pointers when it is empty or full, and with one bank valid it is the
  // Matrix Unit's. What is queued follows what was released.
  predicate TwoSlot(s: Side) {
    && Shape(s)
    && (if s.valid[0] == s.valid[1] then s.unpack == s.matrix else s.valid[s.matrix] && s.unpack == 1 - s.matrix)
    && s.taken + Queue(s) == UpTo(s.handed)
  }

  // The Matrix Unit finds in each valid bank what was handed over in it.
  predicate Delivered(s: Side) {
    Shape(s) && forall b :: 0 <= b < 2 && s.valid[b] ==> s.tags[b] < |s.sent| && s.banks[b] == s.sent[s.tags[b]]
  }

  // ---------- Operations ----------

  datatype Op =
    | Unpack(writes: seq<(nat, nat)>, handOver: bool)                         // UNPACR
    | Nop(clear: bool, waitUnpack: bool, value: nat, handOver: bool)          // UNPACR_NOP
    | HandOver                                                                // SETDVALID
    | Move(writes: seq<(nat, nat)>)                                           // the Matrix Unit's moves into Src
    | Release(disabled: bool)                                                 // CLEARDVALID, or a clear at the end of an op

  // An operation stalls, fails a check, or is done.
  datatype Outcome = Stall | Fault | Done(side: Side)

  function Written(rows: Rows, writes: seq<(nat, nat)>): (r: Rows)
    ensures |r| == |rows|
  {
    if writes == [] then rows
    else
      var (at, value) := writes[|writes| - 1];
      var front := Written(rows, writes[..|writes| - 1]);
      if at < |front| then front[at := value] else front
  }

  // Each datum is the last one written to its place, or what was there.
  lemma {:induction false} WrittenMeaning(rows: Rows, writes: seq<(nat, nat)>, at: nat)
    requires at < |rows|
    ensures (forall k :: 0 <= k < |writes| ==> writes[k].0 != at) ==> Written(rows, writes)[at] == rows[at]
    ensures forall k :: 0 <= k < |writes| && writes[k].0 == at && (forall j :: k < j < |writes| ==> writes[j].0 != at) ==>
      Written(rows, writes)[at] == writes[k].1
    decreases |writes|
  {
    if writes != [] {
      var front := writes[..|writes| - 1];
      WrittenMeaning(rows, front, at);
      if writes[|writes| - 1].0 != at {
        forall k | 0 <= k < |writes| && writes[k].0 == at && (forall j :: k < j < |writes| ==> writes[j].0 != at)
          ensures Written(rows, writes)[at] == writes[k].1
        {
          assert k < |front| && front[k] == writes[k];
          forall j | k < j < |front| ensures front[j].0 != at {
            assert front[j] == writes[j];
          }
        }
      }
    }
  }

  function Filled(value: nat): Rows {
    seq(WORDS, i => value)
  }

  function GiveBank(s: Side): Outcome
    requires Shape(s)
  {
    if s.valid[s.unpack] then Fault
    else Done(s.(valid := s.valid[s.unpack := true], unpack := 1 - s.unpack, tags := s.tags[s.unpack := s.handed],
                 handed := s.handed + 1, sent := s.sent + [s.banks[s.unpack]]))
  }

  function SetBank(s: Side, b: nat, rows: Rows): Side
    requires Shape(s) && b < 2
  {
    s.(banks := s.banks[b := rows])
  }

  function Do(s: Side, op: Op): (o: Outcome)
    requires Shape(s)
    ensures o.Done? ==> Shape(o.side)
  {
    match op
    case Unpack(writes, handOver) =>
      if s.valid[s.unpack] then Stall
      else
        var s' := SetBank(s, s.unpack, Written(s.banks[s.unpack], writes));
        if handOver then GiveBank(s') else Done(s')
    case Nop(clear, waitUnpack, value, handOver) =>
      if clear && s.valid[if waitUnpack then s.unpack else s.matrix] then Stall
      else
        var s' := if clear then SetBank(s, s.unpack, Filled(value)) else s;
        if handOver then GiveBank(s') else Done(s')
    case HandOver => GiveBank(s)
    case Move(writes) =>
      var rows := Written(s.banks[s.matrix], writes);
      var s' := SetBank(s, s.matrix, rows);
      var t := s.tags[s.matrix];
      Done(if s.valid[s.matrix] && t < |s.sent| then s'.(sent := s.sent[t := rows]) else s')
    case Release(disabled) =>
      if disabled then Done(s.(matrix := 1 - s.matrix))
      else if !s.valid[s.matrix] then Fault
      else Done(s.(valid := s.valid[s.matrix := false], matrix := 1 - s.matrix, taken := s.taken + [s.tags[s.matrix]]))
  }

  // ---------- They are a queue of two slots ----------

  // An unpacker stalls exactly when the queue is full; a clear that waits on the Matrix Unit's bank, when it is not
  // empty; and a handover without a wait fails exactly when the queue is full.
  lemma StallsExactly(s: Side, writes: seq<(nat, nat)>, handOver: bool, value: nat)
    requires TwoSlot(s)
    ensures Do(s, Unpack(writes, handOver)).Stall? <==> |Queue(s)| == 2
    ensures !Do(s, Unpack(writes, handOver)).Fault?
    ensures Do(s, Nop(true, true, value, handOver)).Stall? <==> |Queue(s)| == 2
    ensures Do(s, Nop(true, false, value, handOver)).Stall? <==> |Queue(s)| > 0
    ensures !Do(s, Nop(true, false, value, handOver)).Fault? && !Do(s, Nop(true, true, value, handOver)).Fault?
    ensures Do(s, HandOver).Fault? <==> |Queue(s)| == 2
    ensures Do(s, Release(false)).Fault? <==> |Queue(s)| == 0
  {
    assert s.matrix == 0 || s.matrix == 1;
  }

  predicate Gives(op: Op) {
    (op.Unpack? && op.handOver) || (op.Nop? && op.handOver) || op.HandOver?
  }

  // The fields the queue is made of.
  predicate SameQueue(s: Side, s': Side) {
    && s'.valid == s.valid && s'.unpack == s.unpack && s'.matrix == s.matrix && s'.tags == s.tags
    && s'.handed == s.handed && s'.taken == s.taken
  }

  lemma SameQueueTwoSlot(s: Side, s': Side)
    requires TwoSlot(s) && Shape(s') && SameQueue(s, s')
    ensures TwoSlot(s') && Queue(s') == Queue(s)
  {
  }

  lemma GiveSteps(s: Side)
    requires TwoSlot(s) && GiveBank(s).Done?
    ensures TwoSlot(GiveBank(s).side) && Queue(GiveBank(s).side) == Queue(s) + [s.handed]
    ensures GiveBank(s).side.taken == s.taken
  {
    var s' := GiveBank(s).side;
    assert (s.matrix == 0 || s.matrix == 1) && (s.unpack == 0 || s.unpack == 1);
    assert Queue(s') == Queue(s) + [s.handed];
    hide Queue;
    assert s.taken + (Queue(s) + [s.handed]) == s.taken + Queue(s) + [s.handed];
    assert UpTo(s.handed + 1) == UpTo(s.handed) + [s.handed];
  }

  lemma ReleaseSteps(s: Side)
    requires TwoSlot(s) && Do(s, Release(false)).Done?
    ensures var s' := Do(s, Release(false)).side;
            TwoSlot(s') && |Queue(s)| > 0 && Queue(s') == Queue(s)[1..] && s'.taken == s.taken + [Queue(s)[0]]
  {
    var s' := Do(s, Release(false)).side;
    assert s.matrix == 0 || s.matrix == 1;
    assert Queue(s) == [s.tags[s.matrix]] + Queue(s');
    hide Queue;
    assert s.taken + Queue(s) == s.taken + [s.tags[s.matrix]] + Queue(s');
  }

  // What an unpacker's operation does before any handover.
  function Prepared(s: Side, op: Op): Side
    requires Shape(s)
  {
    match op
    case Unpack(writes, _) => SetBank(s, s.unpack, Written(s.banks[s.unpack], writes))
    case Nop(clear, _, value, _) => if clear then SetBank(s, s.unpack, Filled(value)) else s
    case _ => s
  }

  lemma UnpackerParts(s: Side, op: Op)
    requires Shape(s) && Do(s, op).Done? && (op.Unpack? || op.Nop? || op.HandOver?)
    ensures Shape(Prepared(s, op)) && SameQueue(s, Prepared(s, op))
    ensures Do(s, op) == if Gives(op) then GiveBank(Prepared(s, op)) else Done(Prepared(s, op))
  {
  }

  // A handover joins the queue at its end, a release takes its head, and nothing else changes it.
  lemma QueueSteps(s: Side, op: Op)
    requires TwoSlot(s) && Do(s, op).Done? && op != Release(true)
    ensures var s' := Do(s, op).side;
            && TwoSlot(s')
            && (Gives(op) ==> Queue(s') == Queue(s) + [s.handed] && s'.taken == s.taken)
            && (op.Release? ==> |Queue(s)| > 0 && Queue(s') == Queue(s)[1..] && s'.taken == s.taken + [Queue(s)[0]])
            && (!Gives(op) && !op.Release? ==> Queue(s') == Queue(s) && s'.taken == s.taken)
  {
    if op.Release? {
      ReleaseSteps(s);
    } else if op.Move? {
      SameQueueTwoSlot(s, Do(s, op).side);
    } else {
      UnpackerParts(s, op);
      SameQueueTwoSlot(s, Prepared(s, op));
      hide Queue, TwoSlot, Prepared;
      if Gives(op) {
        GiveSteps(Prepared(s, op));
      }
    }
  }

  // Neither UNPACR nor UNPACR_NOP touches a valid bank.
  lemma ValidBanksKept(s: Side, op: Op, b: nat)
    requires TwoSlot(s) && Do(s, op).Done? && (op.Unpack? || op.Nop? || op.HandOver?) && b < 2 && s.valid[b]
    ensures var s' := Do(s, op).side; s'.valid[b] && s'.banks[b] == s.banks[b] && s'.tags[b] == s.tags[b]
    ensures |s.banks[b]| == 64 * 16
  {
    assert (s.matrix == 0 || s.matrix == 1) && (s.unpack == 0 || s.unpack == 1);
  }

  lemma MoveDelivers(s: Side, op: Op)
    requires TwoSlot(s) && Delivered(s) && op.Move?
    ensures Delivered(Do(s, op).side)
  {
    TagsDiffer(s);
    hide Queue;
    assert s.matrix == 0 || s.matrix == 1;
  }

  lemma PrepareDelivers(s: Side, op: Op)
    requires TwoSlot(s) && Delivered(s) && Do(s, op).Done? && (op.Unpack? || op.Nop? || op.HandOver?)
    ensures Shape(Prepared(s, op)) && Delivered(Prepared(s, op))
  {
    hide Written, Filled;
    assert (s.matrix == 0 || s.matrix == 1) && (s.unpack == 0 || s.unpack == 1);
  }

  lemma GiveDelivers(s: Side)
    requires Delivered(s) && GiveBank(s).Done?
    ensures Delivered(GiveBank(s).side)
  {
  }

  lemma DeliveredSteps(s: Side, op: Op)
    requires TwoSlot(s) && Delivered(s) && Do(s, op).Done? && op != Release(true)
    ensures Delivered(Do(s, op).side)
  {
    if op.Move? {
      MoveDelivers(s, op);
    } else if !op.Release? {
      UnpackerParts(s, op);
      PrepareDelivers(s, op);
      hide Delivered, Prepared, Do;
      if Gives(op) {
        GiveDelivers(Prepared(s, op));
      }
    }
  }

  lemma TagsDiffer(s: Side)
    requires TwoSlot(s)
    ensures s.valid[0] && s.valid[1] ==> s.tags[0] != s.tags[1]
  {
    if s.valid[0] && s.valid[1] {
      var q := s.taken + Queue(s);
      assert q[|s.taken|] == s.tags[s.matrix] && q[|s.taken| + 1] == s.tags[1 - s.matrix];
    }
  }

  // ---------- Disabled clears ----------

  // A clear with CLR_DVALID disabled moves the Matrix Unit's pointer and leaves the bit.
  function Flipped(s: Side): Side
    requires Shape(s)
  {
    s.(matrix := 1 - s.matrix)
  }

  // The side after an operation that neither stalls nor fails.
  function After(s: Side, op: Op): (r: Side)
    requires Shape(s)
    ensures Shape(r)
  {
    if Do(s, op).Done? then Do(s, op).side else s
  }

  function RunOps(s: Side, ops: seq<Op>): (r: Side)
    requires Shape(s)
    ensures Shape(r)
    decreases |ops|
  {
    if ops == [] then s else RunOps(After(s, ops[0]), ops[1..])
  }

  predicate InOrder(s: Side) {
    s.taken == UpTo(|s.taken|)
  }

  // The queue states, with an odd number of disabled clears standing or an even one.
  predicate Skewed(s: Side, odd: bool) {
    Shape(s) && TwoSlot(Straight(s, odd))
  }

  // No enabled release is done while an odd number of disabled clears stands.
  predicate ReleasesEven(s: Side, ops: seq<Op>, odd: bool)
    requires Shape(s)
    decreases |ops|
  {
    ops == [] ||
    ((ops[0] == Release(false) && Do(s, ops[0]).Done? ==> !odd) &&
     ReleasesEven(After(s, ops[0]), ops[1..], if ops[0] == Release(true) then !odd else odd))
  }

  // The side as it would be without the disabled clear that stands.
  function Straight(s: Side, odd: bool): (r: Side)
    requires Shape(s)
    ensures Shape(r)
  {
    if odd then Flipped(s) else s
  }

  // Operations other than releases go by the unpacker's pointer, or touch only the banks.
  lemma PartsStraight(s: Side, op: Op, odd: bool)
    requires Shape(s) && Do(s, op).Done? && !op.Release? && !Gives(op)
    ensures SameQueue(Straight(s, odd), Straight(Do(s, op).side, odd))
  {
    if !op.Move? {
      UnpackerParts(s, op);
    }
  }

  lemma PreparedStraight(s: Side, op: Op, odd: bool)
    requires Shape(s) && Do(s, op).Done? && Gives(op)
    ensures Shape(Prepared(s, op)) && Do(s, op) == GiveBank(Prepared(s, op))
    ensures SameQueue(Straight(s, odd), Straight(Prepared(s, op), odd))
  {
    UnpackerParts(s, op);
  }

  lemma GiveStraight(p: Side, odd: bool)
    requires Shape(p) && GiveBank(p).Done?
    ensures Shape(GiveBank(p).side) && GiveBank(p).side.taken == p.taken
    ensures GiveBank(Straight(p, odd)) == Done(Straight(GiveBank(p).side, odd))
  {
  }

  lemma SkewedSteps(s: Side, op: Op, odd: bool)
    requires Skewed(s, odd) && !op.Release?
    ensures Skewed(After(s, op), odd) && After(s, op).taken == s.taken
  {
    if Do(s, op).Done? {
      hide Do, TwoSlot, SameQueue, Prepared, GiveBank, Queue;
      var t := Do(s, op).side;
      if !Gives(op) {
        PartsStraight(s, op, odd);
        SameQueueTwoSlot(Straight(s, odd), Straight(t, odd));
      } else {
        PreparedStraight(s, op, odd);
        var p := Prepared(s, op);
        SameQueueTwoSlot(Straight(s, odd), Straight(p, odd));
        GiveStraight(p, odd);
        GiveSteps(Straight(p, odd));
      }
    }
  }

  // A release while the pointer is off takes the later of two banks.
  lemma OffRelease(s: Side)
    requires Skewed(s, true) && Do(s, Release(false)).Done?
    ensures !InOrder(Do(s, Release(false)).side)
  {
    var f, s' := Flipped(s), Do(s, Release(false)).side;
    assert s.matrix == 0 || s.matrix == 1;
    assert Queue(f) == [s.tags[1 - s.matrix], s.tags[s.matrix]];
    var all := f.taken + Queue(f);
    assert all[|s.taken| + 1] == s.tags[s.matrix];
    assert s'.taken[|s.taken|] == s.tags[s.matrix] == |s.taken| + 1;
  }

  lemma OutGrows(s: Side, t: Side)
    requires s.taken <= t.taken && InOrder(t)
    ensures InOrder(s)
  {
    assert s.taken == t.taken[..|s.taken|];
  }

  lemma {:induction false} StaysOut(s: Side, ops: seq<Op>)
    requires Shape(s) && !InOrder(s)
    ensures !InOrder(RunOps(s, ops))
    decreases |ops|
  {
    if ops != [] {
      var t := After(s, ops[0]);
      TakenGrows(s, ops[0]);
      if InOrder(t) {
        OutGrows(s, t);
      }
      StaysOut(t, ops[1..]);
    }
  }

  lemma TakenGrows(s: Side, op: Op)
    requires Shape(s)
    ensures s.taken <= After(s, op).taken
  {
  }

  // Banks are released in the order they were handed over exactly when no enabled release is done while an odd number
  // of disabled clears stands. Two in a row undo each other.
  lemma {:induction false} InOrderExactly(s: Side, ops: seq<Op>, odd: bool)
    requires Skewed(s, odd)
    ensures InOrder(RunOps(s, ops)) <==> ReleasesEven(s, ops, odd)
    decreases |ops|
  {
    if ops == [] {
      Ordered(Straight(s, odd));
    } else {
      var op, rest := ops[0], ops[1..];
      if op == Release(true) {
        assert Flipped(Flipped(s)) == s;
        InOrderExactly(After(s, op), rest, !odd);
      } else if op == Release(false) {
        if !Do(s, op).Done? {
          InOrderExactly(s, rest, odd);
        } else if odd {
          OffRelease(s);
          StaysOut(After(s, op), rest);
        } else {
          ReleaseSteps(s);
          InOrderExactly(After(s, op), rest, odd);
        }
      } else {
        SkewedSteps(s, op, odd);
        InOrderExactly(After(s, op), rest, odd);
      }
    }
  }

  // An empty side.
  function Empty(): (r: Side)
    ensures Shape(r)
  {
    Side([false, false], 0, 0, [Filled(0), Filled(0)], [0, 0], 0, [], [])
  }

  // Two handovers, a disabled clear and an enabled one: the second bank is released first.
  lemma OutOfOrder()
    ensures var ops := [HandOver, HandOver, Release(true), Release(false)];
      Skewed(Empty(), false) && RunOps(Empty(), ops).taken == [1] && !ReleasesEven(Empty(), ops, false)
  {
    var s0 := Empty();
    var ops := [HandOver, HandOver, Release(true), Release(false)];
    hide Filled;
    var s1 := After(s0, HandOver);
    var s2 := After(s1, HandOver);
    var s3 := After(s2, Release(true));
    var s4 := After(s3, Release(false));
    assert s2.tags == [0, 1] && s3.matrix == 1 && s4.taken == [1];
    assert ops[1..] == [HandOver, Release(true), Release(false)];
    assert ops[1..][1..] == [Release(true), Release(false)];
    assert ops[1..][1..][1..] == [Release(false)];
    assert [Release(false)][1..] == [];
    assert RunOps(s3, [Release(false)]) == RunOps(s4, []);
    assert RunOps(s2, [Release(true), Release(false)]) == s4;
    assert RunOps(s1, [HandOver, Release(true), Release(false)]) == s4;
    InOrderExactly(s0, ops, false);
  }

  // ---------- Whole runs of both sides ----------

  datatype Src = Src(a: Side, b: Side)

  datatype Event = OnA(op: Op) | OnB(op: Op) | Compute(clearA: bool, clearB: bool)  // an op that waits for both sides

  function Released(s: Side, clear: bool): Outcome
    requires Shape(s)
  {
    if clear then Do(s, Release(false)) else Done(s)
  }

  // The state after an event that neither stalls nor fails.
  function Next(x: Src, ev: Event): (r: Src)
    requires Shape(x.a) && Shape(x.b)
    ensures Shape(r.a) && Shape(r.b)
  {
    match ev
    case OnA(op) => if Do(x.a, op).Done? then x.(a := Do(x.a, op).side) else x
    case OnB(op) => if Do(x.b, op).Done? then x.(b := Do(x.b, op).side) else x
    case Compute(clearA, clearB) =>
      if !x.a.valid[x.a.matrix] || !x.b.valid[x.b.matrix] then x
      else Src(Released(x.a, clearA).side, Released(x.b, clearB).side)
  }

  function Run(x: Src, evs: seq<Event>): (r: Src)
    requires Shape(x.a) && Shape(x.b)
    ensures Shape(r.a) && Shape(r.b)
    decreases |evs|
  {
    if evs == [] then x else Run(Next(x, evs[0]), evs[1..])
  }

  predicate Good(s: Side) {
    TwoSlot(s) && Delivered(s)
  }

  predicate Enabled(ev: Event) {
    ev != OnA(Release(true)) && ev != OnB(Release(true))
  }

  lemma OpGood(s: Side, op: Op)
    requires Good(s) && op != Release(true)
    ensures Do(s, op).Done? ==> Good(Do(s, op).side)
  {
    if Do(s, op).Done? {
      QueueSteps(s, op);
      DeliveredSteps(s, op);
    }
  }

  lemma NextGood(x: Src, ev: Event)
    requires Good(x.a) && Good(x.b) && Enabled(ev)
    ensures Good(Next(x, ev).a) && Good(Next(x, ev).b)
  {
    match ev
    case OnA(op) => OpGood(x.a, op);
    case OnB(op) => OpGood(x.b, op);
    case Compute(clearA, clearB) =>
      OpGood(x.a, Release(false));
      OpGood(x.b, Release(false));
  }

  // With CLR_DVALID on, over any run the Matrix Unit releases banks in the order they were handed over, and what it
  // finds in them is what was handed over.
  lemma {:induction false} TakenInOrder(x: Src, evs: seq<Event>)
    requires Good(x.a) && Good(x.b) && forall i :: 0 <= i < |evs| ==> Enabled(evs[i])
    ensures var r := Run(x, evs);
            && r.a.taken == UpTo(|r.a.taken|) && r.b.taken == UpTo(|r.b.taken|)
            && Good(r.a) && Good(r.b)
    decreases |evs|
  {
    if evs == [] {
      Ordered(x.a);
      Ordered(x.b);
    } else {
      NextGood(x, evs[0]);
      forall i | 0 <= i < |evs| - 1
        ensures Enabled(evs[1..][i])
      {
        assert Enabled(evs[i + 1]);
      }
      TakenInOrder(Next(x, evs[0]), evs[1..]);
    }
  }

  lemma Ordered(s: Side)
    requires TwoSlot(s)
    ensures s.taken == UpTo(|s.taken|)
  {
    assert forall i :: 0 <= i < |s.taken| ==> s.taken[i] == (s.taken + Queue(s))[i];
  }

  // ---------- The imperative register file ----------

  // One side. The datums live in two arrays; valid, unpack and matrix are the fields the operations update.
  class SrcFile {
    var valid: seq<bool>
    var unpack: nat
    var matrix: nat
    const bank0: array<nat>
    const bank1: array<nat>
    ghost var tags: seq<nat>
    ghost var taken: seq<nat>
    ghost var sent: seq<Rows>

    constructor ()
      ensures Valid() && Good(State()) && fresh(bank0) && fresh(bank1)
    {
      valid, unpack, matrix := [false, false], 0, 0;
      bank0, bank1 := new nat[WORDS](_ => 0), new nat[WORDS](_ => 0);
      tags, taken, sent := [0, 0], [], [];
    }

    ghost predicate Valid()
      reads this, bank0, bank1
    {
      bank0 != bank1 && Shape(State())
    }

    ghost function State(): Side
      reads this, bank0, bank1
    {
      Side(valid, unpack, matrix, [bank0[..], bank1[..]], tags, |sent|, taken, sent)
    }

    // Writes datums into a bank, one at a time.
    method Write(b: nat, writes: seq<(nat, nat)>)
      requires Valid() && b < 2
      modifies if b == 0 then bank0 else bank1
      ensures Valid() && State() == SetBank(old(State()), b, Written(old(State()).banks[b], writes))
    {
      var bank := if b == 0 then bank0 else bank1;
      ghost var rows := bank[..];
      assert writes[..0] == [];
      for i := 0 to |writes|
        invariant bank[..] == Written(rows, writes[..i])
      {
        var (at, value) := writes[i];
        assert writes[..i + 1][..i] == writes[..i];
        if at < bank.Length {
          bank[at] := value;
        }
      }
      assert writes[..|writes|] == writes;
    }

    method Fill(b: nat, value: nat)
      requires Valid() && b < 2
      modifies if b == 0 then bank0 else bank1
      ensures Valid() && State() == SetBank(old(State()), b, Filled(value))
    {
      var bank := if b == 0 then bank0 else bank1;
      for i := 0 to bank.Length
        invariant forall k :: 0 <= k < i ==> bank[k] == value
      {
        bank[i] := value;
      }
      assert bank[..] == Filled(value);
    }

    // Hands the unpacker's bank to the Matrix Unit.
    method Give() returns (ok: bool)
      requires Valid()
      modifies this
      ensures Valid() && (if ok then GiveBank(old(State())) == Done(State()) else GiveBank(old(State())).Fault?)
      ensures !ok ==> State() == old(State())
    {
      if valid[unpack] {
        return false;
      }
      tags, sent := tags[unpack := |sent|], sent + [if unpack == 0 then bank0[..] else bank1[..]];
      valid := valid[unpack := true];
      unpack := 1 - unpack;
      return true;
    }

    // UNPACR: the reply is whether the instruction is done, or stalls to be tried again.
    method Unpacr(writes: seq<(nat, nat)>, handOver: bool) returns (done: bool, ok: bool)
      requires Valid()
      modifies this, bank0, bank1
      ensures Valid()
      ensures !done ==> Do(old(State()), Unpack(writes, handOver)).Stall? && State() == old(State())
      ensures done && ok ==> Do(old(State()), Unpack(writes, handOver)) == Done(State())
      ensures done && !ok ==> Do(old(State()), Unpack(writes, handOver)).Fault?
    {
      ok := true;
      if valid[unpack] {
        return false, ok;
      }
      done := true;
      Write(unpack, writes);
      if handOver {
        ok := Give();
      }
    }

    method UnpacrNop(clear: bool, waitUnpack: bool, value: nat, handOver: bool) returns (done: bool, ok: bool)
      requires Valid()
      modifies this, bank0, bank1
      ensures Valid()
      ensures !done ==> Do(old(State()), Nop(clear, waitUnpack, value, handOver)).Stall? && State() == old(State())
      ensures done && ok ==> Do(old(State()), Nop(clear, waitUnpack, value, handOver)) == Done(State())
      ensures done && !ok ==> Do(old(State()), Nop(clear, waitUnpack, value, handOver)).Fault?
    {
      ok, done := true, true;
      if clear {
        var waitBank := if waitUnpack then unpack else matrix;
        if valid[waitBank] {
          return false, ok;
        }
        Fill(unpack, value);
      }
      if handOver {
        ok := Give();
      }
    }

    // The Matrix Unit lets its bank go.
    method ClearValid(disabled: bool) returns (ok: bool)
      requires Valid()
      modifies this
      ensures Valid() && (if ok then Do(old(State()), Release(disabled)) == Done(State()) else Do(old(State()), Release(disabled)).Fault?)
    {
      if !disabled {
        if !valid[matrix] {
          return false;
        }
        taken := taken + [tags[matrix]];
        valid := valid[matrix := false];
      }
      matrix := 1 - matrix;
      return true;
    }
  }
}
