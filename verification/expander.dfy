// The MOP and REPLAY expanders in front of a Tensix thread's instruction FIFO (src/tensix.cpp, src/libttsim.cpp).
//
// A MOP stands for a nested loop of instructions and a REPLAY for a stretch of recorded ones. The simulator emits them
// one at a time as the FIFO has room. The meaning is eager: every push expands at once, into a FIFO with no bound.
module Expander {
  type Word = nat  // a 32-bit instruction or configuration word

  datatype Version = Wormhole | Blackhole | Later
  datatype Chip = Chip(version: Version, nop: Word, mop: Word, mopCfg: Word, replay: Word)
  datatype Option<T> = None | Some(value: T)

  const FIFO_SIZE := 512
  const REPLAY_ENTRIES := 32

  function Opcode(w: Word): Word {
    w / 0x100_0000
  }

  // Bits lo up to lo + n, where size is 2^n and unit is 2^lo.
  function Bits(w: Word, unit: nat, size: nat): nat
    requires unit > 0 && size > 0
  {
    w / unit % size
  }

  function Xor(a: nat, b: nat): nat
    decreases a + b
  {
    if a == 0 && b == 0 then 0 else 2 * Xor(a / 2, b / 2) + (a + b) % 2
  }

  lemma XorStep(a: nat, b: nat)
    ensures Xor(a, b) == 2 * Xor(a / 2, b / 2) + (a + b) % 2
  {
  }

  lemma {:induction false} XorTwice(a: nat, b: nat)
    ensures Xor(a, Xor(a, b)) == b && Xor(a, 0) == a
    decreases a + b
  {
    if a == 0 && b == 0 {
      assert Xor(0, 0) == 0;
    } else {
      hide Xor;
      XorTwice(a / 2, b / 2);
      XorStep(a, b);
      ParityBack(a, b, Xor(a / 2, b / 2), Xor(a, b));
      XorStep(a, Xor(a, b));
      XorStep(a, 0);
    }
  }

  lemma ParityBack(a: nat, b: nat, x: nat, y: nat)
    requires y == 2 * x + (a + b) % 2
    ensures y / 2 == x && (a + y) % 2 == b % 2
  {
  }

  predicate IsNop(c: Chip, w: Word) {
    Opcode(w) == c.nop
  }

  // The instructions that reach a FIFO: NOPs are eaten.
  function Live(c: Chip, ws: seq<Word>): seq<Word> {
    if ws == [] then []
    else if IsNop(c, ws[0]) then Live(c, ws[1..])
    else [ws[0]] + Live(c, ws[1..])
  }

  lemma {:induction false} LiveAppend(c: Chip, a: seq<Word>, b: seq<Word>)
    ensures Live(c, a + b) == Live(c, a) + Live(c, b)
  {
    if a == [] {
      assert a + b == b;
    } else {
      assert (a + b)[0] == a[0] && (a + b)[1..] == a[1..] + b;
      LiveAppend(c, a[1..], b);
    }
  }

  // ---------- What a MOP stands for ----------

  datatype Mop = Mop(inst: Word, zmask: Word, cfg: seq<Word>)

  predicate Looped(m: Mop) {
    Bits(m.inst, 0x80_0000, 2) == 1
  }

  function LoopCount(inst: Word): nat {
    Bits(inst, 0x1_0000, 0x80)
  }

  predicate MaskBit(zmask: nat, i: nat) {
    if i == 0 then zmask % 2 == 1 else MaskBit(zmask / 2, i - 1)
  }

  // What ingesting a MOP checks.
  predicate MopOk(c: Chip, m: Mop) {
    && |m.cfg| == 9
    && if !Looped(m) then LoopCount(m.inst) <= 31 && m.cfg[1] <= 3
       else
         && Bits(m.inst, 1, 0x1_0000) == 0 && LoopCount(m.inst) == 0
         && (c.version.Wormhole? ==> 1 <= m.cfg[0] <= 32 && 1 <= m.cfg[1] <= 127)
         && (!c.version.Wormhole? ==> 1 <= m.cfg[0] <= 0x3FF && 1 <= m.cfg[1] <= 0x3FF)
  }

  function Iterations(m: Mop): nat
    requires |m.cfg| == 9
  {
    if Looped(m) then m.cfg[0] else LoopCount(m.inst) + 1
  }

  function Unless(skip: bool, ws: seq<Word>): seq<Word> {
    if skip then [] else ws
  }

  // One iteration of a masked MOP: the short form where the mask bit is set, else the long one.
  function MaskedIteration(m: Mop, set_: bool): seq<Word>
    requires |m.cfg| == 9
  {
    var one, two := m.cfg[1] % 2 == 1, m.cfg[1] / 2 % 2 == 1;
    if set_ then [m.cfg[7]] + Unless(!one, [m.cfg[8]])
    else [m.cfg[3]] + Unless(!two, m.cfg[4..7]) + Unless(!one, [m.cfg[2]])
  }

  function Repeat(ws: seq<Word>, n: nat): (r: seq<Word>)
    ensures |r| == n * |ws|
  {
    if n == 0 then [] else ws + Repeat(ws, n - 1)
  }

  // The inner loop: its op or pair of ops, repeated, with the last instruction replaced.
  function Inner(c: Chip, m: Mop, last: bool): seq<Word>
    requires |m.cfg| == 9 && m.cfg[1] != 0
  {
    var ops := if IsNop(c, m.cfg[6]) then [m.cfg[5]] else [m.cfg[5], m.cfg[6]];
    var body := Repeat(ops, m.cfg[1]);
    body[..|body| - 1] + [m.cfg[if last then 7 else 8]]
  }

  // The ops that end an iteration. The second needs the first.
  function EndOps(c: Chip, m: Mop): seq<Word>
    requires |m.cfg| == 9
  {
    Unless(IsNop(c, m.cfg[3]), [m.cfg[3]] + Unless(IsNop(c, m.cfg[4]), [m.cfg[4]]))
  }

  // One iteration of the outer loop: start op, inner loop, end ops.
  function OuterIteration(c: Chip, m: Mop, last: bool): seq<Word>
    requires |m.cfg| == 9 && m.cfg[1] != 0
  {
    Unless(IsNop(c, m.cfg[2]), [m.cfg[2]]) + Inner(c, m, last) + EndOps(c, m)
  }

  function Iteration(c: Chip, m: Mop, i: nat): seq<Word>
    requires MopOk(c, m) && i < Iterations(m)
  {
    if Looped(m) then OuterIteration(c, m, i + 1 == Iterations(m)) else MaskedIteration(m, MaskBit(m.zmask, i))
  }

  // The whole nested loop from iteration i.
  function Expansion(c: Chip, m: Mop, i: nat): seq<Word>
    requires MopOk(c, m)
    decreases Iterations(m) - i
  {
    if i >= Iterations(m) then [] else Iteration(c, m, i) + Expansion(c, m, i + 1)
  }

  // ---------- The MOP expander ----------

  datatype Emission = End | Emit(w: Word) | Skip

  function InnerLen(c: Chip, m: Mop): nat
    requires |m.cfg| == 9
  {
    if IsNop(c, m.cfg[6]) then m.cfg[1] else 2 * m.cfg[1]
  }

  // What step s of iteration i does.
  function StepInst(c: Chip, m: Mop, i: nat, s: nat): Emission
    requires MopOk(c, m) && i < Iterations(m)
  {
    if Looped(m) then LoopedStep(c, m, i, s) else MaskedStep(m, MaskBit(m.zmask, i), s)
  }

  function MaskedStep(m: Mop, set_: bool, s: nat): Emission
    requires |m.cfg| == 9
  {
    var one, two := m.cfg[1] % 2 == 1, m.cfg[1] / 2 % 2 == 1;
    if set_ then
      (if s >= 1 + (if one then 1 else 0) then End else Emit(m.cfg[7 + s]))
    else if s >= 1 + (if two then 3 else 0) + (if one then 1 else 0) then End
    else Emit(if s == 0 then m.cfg[3] else if two && s <= 3 then m.cfg[3 + s] else m.cfg[2])
  }

  function LoopedStep(c: Chip, m: Mop, i: nat, s: nat): Emission
    requires |m.cfg| == 9 && Looped(m)
  {
    var len := InnerLen(c, m);
    var flip := if IsNop(c, m.cfg[6]) then 0 else Xor(m.cfg[5], m.cfg[6]);
    if s == 0 then (if IsNop(c, m.cfg[2]) then Skip else Emit(m.cfg[2]))
    else if s < len then Emit(Xor(m.cfg[5], if (s - 1) % 2 == 1 then flip else 0))
    else if s == len then Emit(if i + 1 < Iterations(m) then m.cfg[8] else m.cfg[7])
    else if s == len + 1 then (if IsNop(c, m.cfg[3]) then Skip else Emit(m.cfg[3]))
    else if s == len + 2 then (if IsNop(c, m.cfg[3]) || IsNop(c, m.cfg[4]) then Skip else Emit(m.cfg[4]))
    else End
  }

  function Steps(c: Chip, m: Mop): nat
    requires |m.cfg| == 9
  {
    if Looped(m) then InnerLen(c, m) + 3 else 5
  }

  lemma StepsEnd(c: Chip, m: Mop, i: nat, s: nat)
    requires MopOk(c, m) && i < Iterations(m) && s >= Steps(c, m)
    ensures StepInst(c, m, i, s) == End
  {
  }

  // What the expander still emits from step s of iteration i.
  function MopRest(c: Chip, m: Mop, i: nat, s: nat): seq<Word>
    requires MopOk(c, m)
    decreases Iterations(m) - i, Steps(c, m) - s
  {
    if i >= Iterations(m) then []
    else
      match StepInst(c, m, i, s)
      case End => MopRest(c, m, i + 1, 0)
      case Emit(w) => StepsBound(c, m, i, s); [w] + MopRest(c, m, i, s + 1)
      case Skip => StepsBound(c, m, i, s); MopRest(c, m, i, s + 1)
  }

  lemma StepsBound(c: Chip, m: Mop, i: nat, s: nat)
    requires MopOk(c, m) && i < Iterations(m) && StepInst(c, m, i, s) != End
    ensures s < Steps(c, m)
  {
    if s >= Steps(c, m) {
      StepsEnd(c, m, i, s);
    }
  }

  // ---------- The steps emit the nested loop ----------

  lemma {:induction false} RepeatAt(ws: seq<Word>, n: nat, k: nat)
    requires 1 <= |ws| <= 2 && k < n * |ws|
    ensures Repeat(ws, n)[k] == ws[k % |ws|]
  {
    if k >= |ws| {
      RepeatAt(ws, n - 1, k - |ws|);
    }
  }

  lemma InnerAt(c: Chip, m: Mop, i: nat, k: nat)
    requires MopOk(c, m) && Looped(m) && i < Iterations(m)
    requires k < InnerLen(c, m)
    ensures |Inner(c, m, i + 1 == Iterations(m))| == InnerLen(c, m)
    ensures StepInst(c, m, i, k + 1) == Emit(Inner(c, m, i + 1 == Iterations(m))[k])
  {
    XorTwice(m.cfg[5], m.cfg[6]);
    if k + 1 < InnerLen(c, m) {
      var ops := if IsNop(c, m.cfg[6]) then [m.cfg[5]] else [m.cfg[5], m.cfg[6]];
      RepeatAt(ops, m.cfg[1], k);
    }
  }

  // One step of the expander.
  lemma StepOnce(c: Chip, m: Mop, i: nat, s: nat)
    requires MopOk(c, m) && i < Iterations(m)
    ensures StepInst(c, m, i, s).End? ==> MopRest(c, m, i, s) == MopRest(c, m, i + 1, 0)
    ensures StepInst(c, m, i, s).Skip? ==> MopRest(c, m, i, s) == MopRest(c, m, i, s + 1)
    ensures StepInst(c, m, i, s).Emit? ==> MopRest(c, m, i, s) == [StepInst(c, m, i, s).w] + MopRest(c, m, i, s + 1)
  {
  }

  lemma EndStepInsts(c: Chip, m: Mop, i: nat)
    requires MopOk(c, m) && Looped(m) && i < Iterations(m)
    ensures var n := InnerLen(c, m);
            && StepInst(c, m, i, n + 1) == (if IsNop(c, m.cfg[3]) then Skip else Emit(m.cfg[3]))
            && StepInst(c, m, i, n + 2) == (if IsNop(c, m.cfg[3]) || IsNop(c, m.cfg[4]) then Skip else Emit(m.cfg[4]))
            && StepInst(c, m, i, n + 3) == End
  {
  }

  lemma EndSteps(c: Chip, m: Mop, i: nat)
    requires MopOk(c, m) && Looped(m) && i < Iterations(m)
    ensures MopRest(c, m, i, InnerLen(c, m) + 1) == EndOps(c, m) + MopRest(c, m, i + 1, 0)
  {
    var n := InnerLen(c, m);
    EndStepInsts(c, m, i);
    StepOnce(c, m, i, n + 1);
    StepOnce(c, m, i, n + 2);
    StepOnce(c, m, i, n + 3);
    hide MopRest, StepInst, InnerLen, MopOk;
  }

  lemma {:induction false} InnerSteps(c: Chip, m: Mop, i: nat, k: nat)
    requires MopOk(c, m) && Looped(m) && i < Iterations(m) && k <= InnerLen(c, m)
    ensures |Inner(c, m, i + 1 == Iterations(m))| == InnerLen(c, m)
    ensures MopRest(c, m, i, k + 1)
         == Inner(c, m, i + 1 == Iterations(m))[k..] + EndOps(c, m) + MopRest(c, m, i + 1, 0)
    decreases InnerLen(c, m) - k
  {
    hide MopRest, StepInst, Inner, EndOps;
    var inner := Inner(c, m, i + 1 == Iterations(m));
    InnerAt(c, m, i, 0);
    if k == InnerLen(c, m) {
      EndSteps(c, m, i);
      assert inner[k..] == [];
    } else {
      InnerAt(c, m, i, k);
      InnerSteps(c, m, i, k + 1);
      StepOnce(c, m, i, k + 1);
      assert inner[k..] == [inner[k]] + inner[k + 1..];
    }
  }

  lemma MaskedAt(c: Chip, m: Mop, i: nat, s: nat)
    requires MopOk(c, m) && !Looped(m) && i < Iterations(m)
    requires s <= |MaskedIteration(m, MaskBit(m.zmask, i))|
    ensures var ws := MaskedIteration(m, MaskBit(m.zmask, i));
            StepInst(c, m, i, s) == if s < |ws| then Emit(ws[s]) else End
  {
  }

  lemma {:induction false} MaskedSteps(c: Chip, m: Mop, i: nat, s: nat)
    requires MopOk(c, m) && !Looped(m) && i < Iterations(m)
    requires s <= |MaskedIteration(m, MaskBit(m.zmask, i))|
    ensures MopRest(c, m, i, s) == MaskedIteration(m, MaskBit(m.zmask, i))[s..] + MopRest(c, m, i + 1, 0)
    decreases |MaskedIteration(m, MaskBit(m.zmask, i))| - s
  {
    hide MopRest, StepInst, MaskedIteration, MaskBit;
    var ws := MaskedIteration(m, MaskBit(m.zmask, i));
    MaskedAt(c, m, i, s);
    StepOnce(c, m, i, s);
    if s < |ws| {
      MaskedSteps(c, m, i, s + 1);
      assert ws[s..] == [ws[s]] + ws[s + 1..];
    }
  }

  lemma IterationSteps(c: Chip, m: Mop, i: nat)
    requires MopOk(c, m) && i < Iterations(m)
    ensures MopRest(c, m, i, 0) == Iteration(c, m, i) + MopRest(c, m, i + 1, 0)
  {
    if Looped(m) {
      LoopedIteration(c, m, i);
    } else {
      hide MaskedIteration, StepInst, MopRest;
      MaskedSteps(c, m, i, 0);
      assert Iteration(c, m, i)[0..] == Iteration(c, m, i);
    }
  }

  lemma LoopedIteration(c: Chip, m: Mop, i: nat)
    requires MopOk(c, m) && Looped(m) && i < Iterations(m)
    ensures MopRest(c, m, i, 0) == Iteration(c, m, i) + MopRest(c, m, i + 1, 0)
  {
    hide Inner, EndOps, StepInst, MopRest, IsNop;
    InnerSteps(c, m, i, 0);
    StartStep(c, m, i);
    StepOnce(c, m, i, 0);
    var inner := Inner(c, m, i + 1 == Iterations(m));
    assert inner[0..] == inner;
  }

  lemma StartStep(c: Chip, m: Mop, i: nat)
    requires MopOk(c, m) && Looped(m) && i < Iterations(m)
    ensures StepInst(c, m, i, 0) == if IsNop(c, m.cfg[2]) then Skip else Emit(m.cfg[2])
  {
  }

  // The expander's steps, one after another, are the nested loop.
  lemma {:induction false} StepsAreExpansion(c: Chip, m: Mop, i: nat)
    requires MopOk(c, m)
    ensures MopRest(c, m, i, 0) == Expansion(c, m, i)
    decreases Iterations(m) - i
  {
    if i < Iterations(m) {
      IterationSteps(c, m, i);
      StepsAreExpansion(c, m, i + 1);
    }
  }

  // ---------- The same loop, written out ----------

  // The instructions of one iteration after another.
  function Joined(blocks: seq<seq<Word>>): seq<Word> {
    if blocks == [] then [] else blocks[0] + Joined(blocks[1..])
  }

  // A masked iteration by its flags: bit 0 adds the B instruction, bit 1 the three further A instructions.
  function Block(cfg: seq<Word>, masked: bool): seq<Word>
    requires |cfg| == 9 && cfg[1] <= 3
  {
    match cfg[1]
    case 0 => if masked then [cfg[7]] else [cfg[3]]
    case 1 => if masked then [cfg[7], cfg[8]] else [cfg[3], cfg[2]]
    case 2 => if masked then [cfg[7]] else [cfg[3], cfg[4], cfg[5], cfg[6]]
    case _ => if masked then [cfg[7], cfg[8]] else [cfg[3], cfg[4], cfg[5], cfg[6], cfg[2]]
  }

  function TwoTo(n: nat): (r: nat)
    ensures r > 0
  {
    if n == 0 then 1 else 2 * TwoTo(n - 1)
  }

  lemma {:induction false} MaskBitAt(zmask: nat, i: nat)
    ensures MaskBit(zmask, i) <==> zmask / TwoTo(i) % 2 == 1
  {
    if i > 0 {
      MaskBitAt(zmask / 2, i - 1);
      DivTwice(zmask, TwoTo(i - 1));
    } else {
      assert zmask / 1 == zmask;
    }
  }

  lemma DivTwice(z: nat, d: nat)
    requires d > 0
    ensures z / (2 * d) == z / 2 / d
  {
    var q := z / (2 * d);
    var h := z / 2;
    assert z == 2 * d * q + z % (2 * d);
    assert h == d * q + z % (2 * d) / 2 by {
      assert z == 2 * (d * q) + z % (2 * d);
    }
    assert z % (2 * d) / 2 < d;
    QuotientIs(h, d, q, z % (2 * d) / 2);
  }

  lemma QuotientIs(h: nat, d: nat, q: nat, r: nat)
    requires d > 0 && h == d * q + r && r < d
    ensures h / d == q
  {
    assert d * (h / d - q) == r - h % d;
    Multiple(d, h / d - q);
  }

  lemma Multiple(d: nat, k: int)
    ensures k >= 1 ==> d * k >= d
    ensures k <= -1 ==> d * k <= 0 - d
  {
  }

  lemma {:induction false} ExpansionJoins(c: Chip, m: Mop, i: nat, blocks: seq<seq<Word>>)
    requires MopOk(c, m) && i + |blocks| == Iterations(m)
    requires forall k :: 0 <= k < |blocks| ==> blocks[k] == Iteration(c, m, i + k)
    ensures Expansion(c, m, i) == Joined(blocks)
    decreases |blocks|
  {
    hide MopOk, Iteration;
    if blocks != [] {
      forall k | 0 <= k < |blocks[1..]| ensures blocks[1..][k] == Iteration(c, m, i + 1 + k) {
        assert blocks[1..][k] == blocks[k + 1];
      }
      ExpansionJoins(c, m, i + 1, blocks[1..]);
      assert blocks[0] == Iteration(c, m, i + 0);
    }
  }

  // A MOP of type 0 runs its count field plus one times, and its i-th mask bit chooses the form of iteration i.
  lemma MaskedMeaning(c: Chip, m: Mop)
    requires MopOk(c, m) && m.inst / 0x80_0000 % 2 == 0
    ensures m.cfg[1] <= 3
    ensures Expansion(c, m, 0) ==
      Joined(seq(m.inst / 0x1_0000 % 0x80 + 1, i requires i >= 0 => Block(m.cfg, m.zmask / TwoTo(i) % 2 == 1)))
  {
    var blocks := seq(m.inst / 0x1_0000 % 0x80 + 1, i requires i >= 0 => Block(m.cfg, m.zmask / TwoTo(i) % 2 == 1));
    forall k: nat | k < |blocks| ensures blocks[k] == Iteration(c, m, 0 + k) {
      MaskBitAt(m.zmask, k);
      BlockIs(m, MaskBit(m.zmask, k));
    }
    ExpansionJoins(c, m, 0, blocks);
  }

  lemma BlockIs(m: Mop, masked: bool)
    requires |m.cfg| == 9 && m.cfg[1] <= 3
    ensures MaskedIteration(m, masked) == Block(m.cfg, masked)
  {
  }

  lemma {:induction false} SinglesJoin(blocks: seq<seq<Word>>)
    requires forall k :: 0 <= k < |blocks| ==> |blocks[k]| == 1
    ensures |Joined(blocks)| == |blocks| && forall k :: 0 <= k < |blocks| ==> Joined(blocks)[k] == blocks[k][0]
  {
    if blocks != [] {
      SinglesJoin(blocks[1..]);
    }
  }

  // Without flags each iteration is one instruction.
  lemma PlainMeaning(c: Chip, m: Mop)
    requires MopOk(c, m) && m.inst / 0x80_0000 % 2 == 0 && m.cfg[1] == 0
    ensures |Expansion(c, m, 0)| == m.inst / 0x1_0000 % 0x80 + 1
    ensures forall i :: 0 <= i < |Expansion(c, m, 0)| ==>
      Expansion(c, m, 0)[i] == if m.zmask / TwoTo(i) % 2 == 1 then m.cfg[7] else m.cfg[3]
  {
    var n := m.inst / 0x1_0000 % 0x80 + 1;
    MaskedMeaning(c, m);
    hide Expansion, TwoTo, MopOk;
    SinglesJoin(seq(n, i requires i >= 0 => Block(m.cfg, m.zmask / TwoTo(i) % 2 == 1)));
  }

  // An iteration of a looped MOP: start op, then the inner op or the pair of them cfg[1] times over with the last
  // instruction replaced, then the end ops, of which the second needs the first.
  function Round(c: Chip, cfg: seq<Word>, last: bool): seq<Word>
    requires |cfg| == 9
  {
    var n := if cfg[6] / 0x100_0000 == c.nop then cfg[1] else 2 * cfg[1];
    (if cfg[2] / 0x100_0000 == c.nop then [] else [cfg[2]]) +
    seq(n, j requires j >= 0 => if j == n - 1 then (if last then cfg[7] else cfg[8])
                                else if cfg[6] / 0x100_0000 == c.nop || j % 2 == 0 then cfg[5] else cfg[6]) +
    (if cfg[3] / 0x100_0000 == c.nop then [] else if cfg[4] / 0x100_0000 == c.nop then [cfg[3]] else [cfg[3], cfg[4]])
  }

  lemma InnerIs(c: Chip, m: Mop, last: bool)
    requires |m.cfg| == 9 && m.cfg[1] != 0
    ensures var n := if m.cfg[6] / 0x100_0000 == c.nop then m.cfg[1] else 2 * m.cfg[1];
      Inner(c, m, last) ==
        seq(n, j requires j >= 0 => if j == n - 1 then (if last then m.cfg[7] else m.cfg[8])
                                    else if m.cfg[6] / 0x100_0000 == c.nop || j % 2 == 0 then m.cfg[5] else m.cfg[6])
  {
    var n := if m.cfg[6] / 0x100_0000 == c.nop then m.cfg[1] else 2 * m.cfg[1];
    var ops := if IsNop(c, m.cfg[6]) then [m.cfg[5]] else [m.cfg[5], m.cfg[6]];
    assert |Inner(c, m, last)| == n;
    forall j | 0 <= j < n - 1
      ensures Inner(c, m, last)[j] == if m.cfg[6] / 0x100_0000 == c.nop || j % 2 == 0 then m.cfg[5] else m.cfg[6]
    {
      RepeatAt(ops, m.cfg[1], j);
    }
  }

  lemma RoundIs(c: Chip, m: Mop, last: bool)
    requires |m.cfg| == 9 && m.cfg[1] != 0
    ensures OuterIteration(c, m, last) == Round(c, m.cfg, last)
  {
    InnerIs(c, m, last);
    hide Inner;
  }

  // A MOP of type 1 runs cfg[0] rounds.
  lemma LoopedMeaning(c: Chip, m: Mop)
    requires MopOk(c, m) && m.inst / 0x80_0000 % 2 == 1
    ensures Expansion(c, m, 0) == Joined(seq(m.cfg[0], i requires i >= 0 => Round(c, m.cfg, i + 1 == m.cfg[0])))
  {
    var blocks := seq(m.cfg[0], i requires i >= 0 => Round(c, m.cfg, i + 1 == m.cfg[0]));
    forall k: nat | k < |blocks| ensures blocks[k] == Iteration(c, m, 0 + k) {
      RoundIs(c, m, k + 1 == m.cfg[0]);
    }
    ExpansionJoins(c, m, 0, blocks);
  }

  // ---------- The replay recorder ----------

  // A recording in progress: the next slot, the slots left, and whether recorded instructions also run.
  datatype Recorder = Recorder(buf: seq<Word>, index: nat, left: nat, exec: bool)

  predicate RecorderOk(r: Recorder) {
    |r.buf| == REPLAY_ENTRIES && r.index + r.left <= REPLAY_ENTRIES
  }

  function ReplayLen(w: Word): nat {
    Bits(w, 0x10, 0x400)
  }

  function ReplayStart(w: Word): nat {
    Bits(w, 0x4000, 0x400)
  }

  predicate ReplayLoads(w: Word) {
    Bits(w, 1, 2) == 1
  }

  predicate ReplayExecutes(w: Word) {
    Bits(w, 2, 2) == 1
  }

  // What a REPLAY checks: no unused bit (mask 0xF83C0C), no execute flag without load, a nonzero count, no wrap.
  predicate ReplayOk(c: Chip, w: Word) {
    && Bits(w, 4, 4) == 0 && Bits(w, 0x400, 0x10) == 0 && Bits(w, 0x8_0000, 0x20) == 0
    && (ReplayExecutes(w) ==> ReplayLoads(w))
    && ReplayLen(w) > 0
    && (c.version.Wormhole? ==> ReplayLoads(w) || ReplayLen(w) != 33)
    && ReplayStart(w) + ReplayLen(w) <= REPLAY_ENTRIES
  }

  // What one instruction does at the replay expander: the recorder after it and the instructions it stands for, or
  // nothing if a check fails.
  datatype Played = Played(rec: Recorder, out: seq<Word>)

  function Play(c: Chip, r: Recorder, w: Word): (p: Option<Played>)
    requires RecorderOk(r)
    ensures p.Some? ==> RecorderOk(p.value.rec)
  {
    if r.left > 0 then
      (if Opcode(w) == c.replay then None
       else Some(Played(Recorder(r.buf[r.index := w], r.index + 1, r.left - 1, r.exec), Unless(!r.exec, [w]))))
    else if Opcode(w) == c.replay then
      (if !ReplayOk(c, w) then None
       else if ReplayLoads(w) then Some(Played(Recorder(r.buf, ReplayStart(w), ReplayLen(w), ReplayExecutes(w)), []))
       else Some(Played(r, r.buf[ReplayStart(w)..ReplayStart(w) + ReplayLen(w)])))
    else Some(Played(r, [w]))
  }

  // The instructions that reach the FIFO, and the recorder at the end; no recorder if a check failed on the way.
  datatype Outcome = Outcome(out: seq<Word>, rec: Option<Recorder>)

  function PlayAll(c: Chip, r: Recorder, ws: seq<Word>): (o: Outcome)
    requires RecorderOk(r)
    ensures o.rec.Some? ==> RecorderOk(o.rec.value)
    decreases |ws|
  {
    if ws == [] then Outcome([], Some(r))
    else
      match Play(c, r, ws[0])
      case None => Outcome([], None)
      case Some(p) => Before(Live(c, p.out), PlayAll(c, p.rec, ws[1..]))
  }

  function Before(ws: seq<Word>, o: Outcome): Outcome {
    Outcome(ws + o.out, o.rec)
  }

  // ---------- A recording replays ----------

  predicate NoReplay(c: Chip, ws: seq<Word>) {
    forall i :: 0 <= i < |ws| ==> Opcode(ws[i]) != c.replay
  }

  function Overlaid(buf: seq<Word>, at: nat, ws: seq<Word>): (r: seq<Word>)
    requires at + |ws| <= |buf|
    ensures |r| == |buf| && r[at..at + |ws|] == ws
  {
    buf[..at] + ws + buf[at + |ws|..]
  }

  lemma RecordsOne(c: Chip, r: Recorder, w: Word, rest: seq<Word>)
    requires RecorderOk(r) && r.left > 0 && Opcode(w) != c.replay
    ensures PlayAll(c, r, [w] + rest) ==
      Before(Live(c, if r.exec then [w] else []), PlayAll(c, Recorder(r.buf[r.index := w], r.index + 1, r.left - 1, r.exec), rest))
  {
    hide Play, Live, Before, Opcode;
    PlayRecords(c, r, w);
    assert ([w] + rest)[0] == w && ([w] + rest)[1..] == rest;
  }

  lemma PlayRecords(c: Chip, r: Recorder, w: Word)
    requires RecorderOk(r) && r.left > 0 && Opcode(w) != c.replay
    ensures Play(c, r, w) ==
      Some(Played(Recorder(r.buf[r.index := w], r.index + 1, r.left - 1, r.exec), if r.exec then [w] else []))
  {
    hide ReplayOk, Opcode;
  }

  lemma BeforeTwice(c: Chip, exec: bool, w: Word, more: seq<Word>, o: Outcome)
    ensures Before(Live(c, if exec then [w] else []), Before(Live(c, if exec then more else []), o))
         == Before(Live(c, if exec then [w] + more else []), o)
  {
    hide Live;
    var first, then_ := if exec then [w] else [], if exec then more else [];
    assert first + then_ == if exec then [w] + more else [];
    LiveAppend(c, first, then_);
    assert Live(c, first) + (Live(c, then_) + o.out) == (Live(c, first) + Live(c, then_)) + o.out;
  }

  // Recording stores the instructions, and passes them on if asked to.
  lemma {:induction false} Records(c: Chip, r: Recorder, ws: seq<Word>, rest: seq<Word>)
    requires RecorderOk(r) && r.left == |ws| && NoReplay(c, ws)
    ensures var r' := Recorder(Overlaid(r.buf, r.index, ws), r.index + |ws|, 0, r.exec);
      PlayAll(c, r, ws + rest) == Before(Live(c, if r.exec then ws else []), PlayAll(c, r', rest))
    decreases |ws|
  {
    hide PlayAll, Live, Before, Opcode;
    if ws == [] {
      assert ws + rest == rest && Overlaid(r.buf, r.index, ws) == r.buf;
      LiveNone(c, PlayAll(c, r, rest));
    } else {
      var w, more := ws[0], ws[1..];
      var r1 := Recorder(r.buf[r.index := w], r.index + 1, r.left - 1, r.exec);
      assert ws == [w] + more && ws + rest == [w] + (more + rest);
      RecordsOne(c, r, w, more + rest);
      Records(c, r1, more, rest);
      assert Overlaid(r1.buf, r.index + 1, more) == Overlaid(r.buf, r.index, ws);
      BeforeTwice(c, r.exec, w, more, PlayAll(c, Recorder(Overlaid(r.buf, r.index, ws), r.index + |ws|, 0, r.exec), rest));
    }
  }

  lemma LiveNone(c: Chip, o: Outcome)
    ensures Before(Live(c, []), o) == o
  {
    assert [] + o.out == o.out;
  }

  // A load, the instructions it counts, and a replay of the same slots issue the instructions: once if the load only
  // records, twice if it also executes.
  lemma ReplaysRecording(c: Chip, r: Recorder, load: Word, ws: seq<Word>, play: Word)
    requires RecorderOk(r) && r.left == 0 && NoReplay(c, ws)
    requires Opcode(load) == Opcode(play) == c.replay && ReplayOk(c, load) && ReplayOk(c, play)
    requires ReplayLoads(load) && !ReplayLoads(play)
    requires ReplayStart(play) == ReplayStart(load) && ReplayLen(play) == ReplayLen(load) == |ws|
    ensures PlayAll(c, r, [load] + (ws + [play])).out == Live(c, if ReplayExecutes(load) then ws else []) + Live(c, ws)
  {
    var start := ReplayStart(load);
    var r1 := Recorder(r.buf, start, |ws|, ReplayExecutes(load));
    assert ([load] + (ws + [play]))[1..] == ws + [play];
    Records(c, r1, ws, [play]);
    var r2 := Recorder(Overlaid(r.buf, start, ws), start + |ws|, 0, r1.exec);
    assert Play(c, r2, play) == Some(Played(r2, ws));
    assert [play][1..] == [];
    assert PlayAll(c, r2, [play]) == Before(Live(c, ws), Outcome([], Some(r2)));
    assert Live(c, ws) + [] == Live(c, ws);
    assert Live(c, []) == [];
  }

  // ---------- The eager meaning of a program ----------

  datatype Event =
    | Configure(i: nat, data: Word)       // a store to one of the nine MOP configuration words
    | Push(w: Word, bypass: bool)         // an instruction pushed, past the MOP expander or through it
    | Step                                // the clock loop moves instructions out of the expanders
    | Pop                                 // the next instruction issues

  // The state the meaning of the next push depends on.
  datatype Program = Program(rec: Recorder, zhi: nat, cfg: seq<Word>)

  predicate ProgramOk(p: Program) {
    RecorderOk(p.rec) && |p.cfg| == 9
  }

  function Sampled(p: Program, w: Word): Mop {
    Mop(w, Bits(w, 1, 0x1_0000) + 0x1_0000 * p.zhi, p.cfg)
  }

  // The instructions a push hands to the replay expander.
  function Words(c: Chip, p: Program, w: Word, bypass: bool): (r: Option<seq<Word>>)
    requires ProgramOk(p)
  {
    if !bypass && Opcode(w) == c.mop then
      (if MopOk(c, Sampled(p, w)) then Some(Expansion(c, Sampled(p, w), 0)) else None)
    else if !bypass && Opcode(w) == c.mopCfg then (if Bits(w, 0x1_0000, 0x100) == 0 then Some([]) else None)
    else Some([w])
  }

  function ZhiAfter(c: Chip, zhi: nat, w: Word, bypass: bool): nat {
    if !bypass && Opcode(w) != c.mop && Opcode(w) == c.mopCfg then Bits(w, 1, 0x1_0000) else zhi
  }

  function EagerPush(c: Chip, p: Program, w: Word, bypass: bool): Outcome
    requires ProgramOk(p)
  {
    match Words(c, p, w, bypass)
    case None => Outcome([], None)
    case Some(ws) => PlayAll(c, p.rec, ws)
  }

  // Everything a run's pushes stand for, and the state after them unless a check fails.
  datatype Meaning = Meaning(out: seq<Word>, program: Option<Program>)

  function Eager(c: Chip, p: Program, evs: seq<Event>): (m: Meaning)
    requires ProgramOk(p)
    ensures m.program.Some? ==> ProgramOk(m.program.value)
    decreases |evs|
  {
    if evs == [] then Meaning([], Some(p))
    else
      var m := Eager(c, p, evs[..|evs| - 1]);
      if m.program.None? then m else EagerEvent(c, m.out, m.program.value, evs[|evs| - 1])
  }

  function EagerEvent(c: Chip, out: seq<Word>, p: Program, ev: Event): (m: Meaning)
    requires ProgramOk(p)
    ensures m.program.Some? ==> ProgramOk(m.program.value)
  {
    match ev
    case Configure(i, data) => Meaning(out, Some(if i < 9 then p.(cfg := p.cfg[i := data]) else p))
    case Push(w, bypass) =>
      (var o := EagerPush(c, p, w, bypass);
       Meaning(out + o.out, if o.rec.None? then None else Some(p.(rec := o.rec.value, zhi := ZhiAfter(c, p.zhi, w, bypass)))))
    case Step => Meaning(out, Some(p))
    case Pop => Meaning(out, Some(p))
  }

  // ---------- The front end ----------

  datatype Cursor = Idle | At(mop: Mop, iter: nat, step: nat)

  datatype Front = Front(program: Program, playIndex: nat, playLeft: nat, mop: Cursor, queue: seq<Word>)

  predicate FrontOk(c: Chip, f: Front) {
    && ProgramOk(f.program)
    && f.playIndex + f.playLeft <= REPLAY_ENTRIES
    && (f.mop.At? ==> MopOk(c, f.mop.mop))
    && |f.queue| < FIFO_SIZE
  }

  predicate Expanding(f: Front) {
    f.mop.At? || f.playLeft > 0
  }

  function Enqueue(c: Chip, f: Front, w: Word): Front {
    if IsNop(c, w) then f else f.(queue := f.queue + [w])
  }

  // The front end after an operation, and whether every check held.
  datatype Did = Did(front: Front, ok: bool)

  function ReplayExpand(c: Chip, f: Front, w: Word): Did
    requires FrontOk(c, f)
  {
    var r := f.program.rec;
    if r.left > 0 then
      (if Opcode(w) == c.replay then Did(f, false)
       else
         var f' := f.(program := f.program.(rec := Recorder(r.buf[r.index := w], r.index + 1, r.left - 1, r.exec)));
         Did(if r.exec then Enqueue(c, f', w) else f', true))
    else if Opcode(w) == c.replay then
      (if !ReplayOk(c, w) then Did(f, false)
       else if ReplayLoads(w) then
         Did(f.(program := f.program.(rec := Recorder(r.buf, ReplayStart(w), ReplayLen(w), ReplayExecutes(w)))), true)
       else Did(f.(playIndex := ReplayStart(w), playLeft := ReplayLen(w)), true))
    else Did(Enqueue(c, f, w), true)
  }

  // The next instruction of the MOP, and the expander after it.
  function MopNext(c: Chip, m: Mop, i: nat, s: nat): (Option<Word>, Cursor)
    requires MopOk(c, m)
    decreases Iterations(m) - i, Steps(c, m) - s
  {
    if i >= Iterations(m) then (None, Idle)
    else
      match StepInst(c, m, i, s)
      case End => MopNext(c, m, i + 1, 0)
      case Emit(w) => (Some(w), At(m, i, s + 1))
      case Skip => StepsBound(c, m, i, s); MopNext(c, m, i, s + 1)
  }

  function CursorRest(c: Chip, u: Cursor): seq<Word>
    requires u.At? ==> MopOk(c, u.mop)
  {
    if u.Idle? then [] else MopRest(c, u.mop, u.iter, u.step)
  }

  // MopNext takes the first of the instructions still to come.
  lemma {:induction false} MopNextIsFirst(c: Chip, m: Mop, i: nat, s: nat)
    requires MopOk(c, m)
    ensures var (w, u) := MopNext(c, m, i, s);
            && (u.At? ==> MopOk(c, u.mop) && w.Some?) && (w.None? ==> u.Idle?)
            && MopRest(c, m, i, s) == (if w.Some? then [w.value] else []) + CursorRest(c, u)
    decreases Iterations(m) - i, Steps(c, m) - s
  {
    if i < Iterations(m) {
      StepOnce(c, m, i, s);
      match StepInst(c, m, i, s)
      case End => MopNextIsFirst(c, m, i + 1, 0);
      case Emit(w) =>
      case Skip =>
        StepsBound(c, m, i, s);
        MopNextIsFirst(c, m, i, s + 1);
    }
  }

  // ---------- The front-end step ----------

  predicate Room(f: Front) {
    |f.queue| < FIFO_SIZE - 1
  }

  lemma ReplayExpandOk(c: Chip, f: Front, w: Word)
    requires FrontOk(c, f) && Room(f)
    ensures FrontOk(c, ReplayExpand(c, f, w).front) && ReplayExpand(c, f, w).front.mop == f.mop
  {
  }

  function PlayOne(c: Chip, f: Front): (r: Front)
    requires FrontOk(c, f) && Room(f) && f.playLeft > 0
    ensures FrontOk(c, r) && r.mop == f.mop && r.playLeft == f.playLeft - 1
  {
    Enqueue(c, f, f.program.rec.buf[f.playIndex]).(playIndex := f.playIndex + 1, playLeft := f.playLeft - 1)
  }

  // The expanders emit while the FIFO has room; one entry of the ring stays empty.
  function FrontStep(c: Chip, f: Front): (d: Did)
    requires FrontOk(c, f)
    ensures FrontOk(c, d.front)
    decreases |CursorRest(c, f.mop)|, f.playLeft
  {
    if !Room(f) then Did(f, true)
    else if f.playLeft > 0 then FrontStep(c, PlayOne(c, f))
    else if f.mop.Idle? then Did(f, true)
    else
      MopNextIsFirst(c, f.mop.mop, f.mop.iter, f.mop.step);
      var (w, u) := MopNext(c, f.mop.mop, f.mop.iter, f.mop.step);
      if w.None? then Did(f.(mop := u), true)
      else
        ReplayExpandOk(c, f.(mop := u), w.value);
        var d := ReplayExpand(c, f.(mop := u), w.value);
        if d.ok then FrontStep(c, d.front) else d
  }

  // What the expanders have still to emit, eagerly.
  function Rest(c: Chip, f: Front): (o: Outcome)
    requires FrontOk(c, f)
    ensures o.rec.Some? ==> RecorderOk(o.rec.value)
  {
    Before(Live(c, f.program.rec.buf[f.playIndex..f.playIndex + f.playLeft]),
           PlayAll(c, f.program.rec, CursorRest(c, f.mop)))
  }

  // The FIFO's contents and all that is to come.
  function Total(c: Chip, f: Front): Outcome
    requires FrontOk(c, f)
  {
    Before(f.queue, Rest(c, f))
  }

  lemma BeforeBefore(a: seq<Word>, b: seq<Word>, o: Outcome)
    ensures Before(a, Before(b, o)) == Before(a + b, o)
    ensures Before([], o) == o
  {
    assert a + (b + o.out) == a + b + o.out;
    assert [] + o.out == o.out;
  }

  lemma LiveOne(c: Chip, w: Word)
    ensures Live(c, [w]) == if IsNop(c, w) then [] else [w]
  {
  }

  // Playing one recorded instruction keeps the total.
  lemma PlayOneKeeps(c: Chip, f: Front)
    requires FrontOk(c, f) && Room(f) && f.playLeft > 0
    ensures Total(c, PlayOne(c, f)) == Total(c, f)
  {
    var r := PlayOne(c, f);
    var buf := f.program.rec.buf;
    var w := buf[f.playIndex];
    var played := buf[f.playIndex..f.playIndex + f.playLeft];
    assert played == [w] + played[1..] && buf[r.playIndex..r.playIndex + r.playLeft] == played[1..];
    LiveAppend(c, [w], played[1..]);
    LiveOne(c, w);
    var rest := PlayAll(c, f.program.rec, CursorRest(c, f.mop));
    hide Live, PlayAll, CursorRest, MopOk;
    assert r.queue == f.queue + Live(c, [w]);
    BeforeBefore(r.queue, Live(c, played[1..]), rest);
    BeforeBefore(f.queue, Live(c, played), rest);
    assert f.queue + Live(c, played) == r.queue + Live(c, played[1..]);
  }

  // The replay expander does to the total what the eager player does.
  lemma ReplayExpandKeeps(c: Chip, f: Front, w: Word)
    requires FrontOk(c, f) && Room(f) && f.playLeft == 0
    ensures var d := ReplayExpand(c, f, w);
            var p := Play(c, f.program.rec, w);
            && FrontOk(c, d.front) && (d.ok <==> p.Some?) && (!d.ok ==> d.front == f)
            && (d.ok ==>
                  Total(c, d.front) == Before(f.queue + Live(c, p.value.out), PlayAll(c, p.value.rec, CursorRest(c, f.mop))))
  {
    ReplayExpandOk(c, f, w);
    var d := ReplayExpand(c, f, w);
    var p := Play(c, f.program.rec, w);
    if d.ok {
      var g := d.front;
      LiveOne(c, w);
      var played := g.program.rec.buf[g.playIndex..g.playIndex + g.playLeft];
      ExpandAdds(c, f, w);
      assert g.program.rec == p.value.rec && g.mop == f.mop;
      BeforeBefore(g.queue, Live(c, played), PlayAll(c, p.value.rec, CursorRest(c, f.mop)));
    }
  }

  lemma ExpandAdds(c: Chip, f: Front, w: Word)
    requires FrontOk(c, f) && Room(f) && f.playLeft == 0 && ReplayExpand(c, f, w).ok
    ensures Play(c, f.program.rec, w).Some? && FrontOk(c, ReplayExpand(c, f, w).front)
    ensures var g := ReplayExpand(c, f, w).front;
            g.queue + Live(c, g.program.rec.buf[g.playIndex..g.playIndex + g.playLeft])
            == f.queue + Live(c, Play(c, f.program.rec, w).value.out)
  {
    LiveOne(c, w);
    ReplayExpandOk(c, f, w);
    var g := ReplayExpand(c, f, w).front;
    if g.playLeft == 0 {
      assert g.program.rec.buf[g.playIndex..g.playIndex + g.playLeft] == [];
    }
  }

  // A front-end step emits in the order of the eager expansion and loses nothing; it fails a check exactly where the
  // eager expansion does.
  lemma {:induction false} FrontStepKeeps(c: Chip, f: Front)
    requires FrontOk(c, f)
    ensures var d := FrontStep(c, f);
            && (d.ok ==> Total(c, d.front) == Total(c, f))
            && (!d.ok ==> Total(c, f) == Outcome(d.front.queue, None))
    decreases |CursorRest(c, f.mop)|, f.playLeft
  {
    if Room(f) && f.playLeft > 0 {
      PlayOneKeeps(c, f);
      FrontStepKeeps(c, PlayOne(c, f));
    } else if Room(f) && f.mop.At? {
      MopNextIsFirst(c, f.mop.mop, f.mop.iter, f.mop.step);
      MopStepKeeps(c, f);
      var (w, u) := MopNext(c, f.mop.mop, f.mop.iter, f.mop.step);
      if w.Some? {
        var d := ReplayExpand(c, f.(mop := u), w.value);
        ReplayExpandOk(c, f.(mop := u), w.value);
        if d.ok {
          FrontStepKeeps(c, d.front);
        }
      }
    }
  }

  lemma MopStepKeeps(c: Chip, f: Front)
    requires FrontOk(c, f) && Room(f) && f.playLeft == 0 && f.mop.At?
    ensures var (w, u) := MopNext(c, f.mop.mop, f.mop.iter, f.mop.step);
            && FrontOk(c, f.(mop := u))
            && (w.None? ==> Total(c, f.(mop := u)) == Total(c, f))
            && (w.Some? ==>
                  var d := ReplayExpand(c, f.(mop := u), w.value);
                  && FrontOk(c, d.front)
                  && (d.ok ==> Total(c, d.front) == Total(c, f))
                  && (!d.ok ==> Total(c, f) == Outcome(d.front.queue, None)))
  {
    MopNextIsFirst(c, f.mop.mop, f.mop.iter, f.mop.step);
    var (w, u) := MopNext(c, f.mop.mop, f.mop.iter, f.mop.step);
    var g := f.(mop := u);
    var rest := CursorRest(c, f.mop);
    assert f.program.rec.buf[f.playIndex..f.playIndex + 0] == [];
    BeforeBefore(f.queue, [], PlayAll(c, f.program.rec, rest));
    assert Total(c, f) == Before(f.queue, PlayAll(c, f.program.rec, rest));
    if w.Some? {
      ReplayExpandKeeps(c, g, w.value);
      assert rest[0] == w.value && rest[1..] == CursorRest(c, u);
      var p := Play(c, f.program.rec, w.value);
      if p.Some? {
        BeforeBefore(f.queue, Live(c, p.value.out), PlayAll(c, p.value.rec, rest[1..]));
      } else {
        assert f.queue + [] == f.queue;
      }
    } else {
      assert rest == CursorRest(c, u);
    }
  }

  // A step that succeeds leaves the FIFO full or the expanders idle.
  lemma {:induction false} FrontStepDrains(c: Chip, f: Front)
    requires FrontOk(c, f) && FrontStep(c, f).ok
    ensures var g := FrontStep(c, f).front; Room(g) ==> !Expanding(g)
    decreases |CursorRest(c, f.mop)|, f.playLeft
  {
    if Room(f) && f.playLeft > 0 {
      FrontStepDrains(c, PlayOne(c, f));
    } else if Room(f) && f.mop.At? {
      MopNextIsFirst(c, f.mop.mop, f.mop.iter, f.mop.step);
      var (w, u) := MopNext(c, f.mop.mop, f.mop.iter, f.mop.step);
      if w.Some? {
        ReplayExpandOk(c, f.(mop := u), w.value);
        var d := ReplayExpand(c, f.(mop := u), w.value);
        if d.ok {
          FrontStepDrains(c, d.front);
        }
      }
    }
  }

  // ---------- Whole runs ----------

  // A push is accepted only while the expanders are idle and few instructions wait. pipe0 is thread 0.
  predicate CanPush(c: Chip, pipe0: bool, f: Front, bypass: bool) {
    && !Expanding(f)
    && var used := |f.queue|;
       if bypass then used < 10
       else match c.version
         case Wormhole => used < if pipe0 then 43 else 27
         case Blackhole => used < 29
         case Later => used <= 52
  }

  // Ingesting a MOP samples its configuration; everything else goes to the replay expander.
  function Ingest(c: Chip, f: Front, w: Word, bypass: bool): Did
    requires FrontOk(c, f)
  {
    if !bypass && Opcode(w) == c.mop then
      (if MopOk(c, Sampled(f.program, w)) then Did(f.(mop := At(Sampled(f.program, w), 0, 0)), true) else Did(f, false))
    else if !bypass && Opcode(w) == c.mopCfg then
      (if Bits(w, 0x1_0000, 0x100) == 0 then Did(f.(program := f.program.(zhi := Bits(w, 1, 0x1_0000))), true)
       else Did(f, false))
    else ReplayExpand(c, f, w)
  }

  function PushInst(c: Chip, f: Front, w: Word, bypass: bool): (d: Did)
    requires FrontOk(c, f) && Room(f)
    ensures FrontOk(c, d.front)
  {
    ReplayExpandOk(c, f, w);
    var d := Ingest(c, f, w, bypass);
    if d.ok then FrontStep(c, d.front) else d
  }

  // The simulated machine: the front end, what has issued, and whether every check has held.
  datatype Machine = Machine(front: Front, popped: seq<Word>, ok: bool)

  predicate Accepts(c: Chip, pipe0: bool, m: Machine, ev: Event) {
    match ev
    case Push(w, bypass) => CanPush(c, pipe0, m.front, bypass)
    case Pop => m.front.queue != []
    case Configure(_, _) => true
    case Step => true
  }

  // A failed check ends the simulation.
  function Do(c: Chip, m: Machine, ev: Event): (r: Machine)
    requires FrontOk(c, m.front) && (ev.Push? ==> Room(m.front)) && (ev.Pop? ==> m.front.queue != [])
    ensures FrontOk(c, r.front)
  {
    if !m.ok then m
    else
      match ev
      case Configure(i, data) =>
        (var p := m.front.program;
         m.(front := m.front.(program := if i < 9 then p.(cfg := p.cfg[i := data]) else p)))
      case Push(w, bypass) => (var d := PushInst(c, m.front, w, bypass); Machine(d.front, m.popped, d.ok))
      case Step => (var d := FrontStep(c, m.front); Machine(d.front, m.popped, d.ok))
      case Pop => Machine(m.front.(queue := m.front.queue[1..]), m.popped + [m.front.queue[0]], true)
  }

  // A push is taken only while no expander has anything to emit and few instructions wait, so it has room.
  lemma AcceptedHasRoom(c: Chip, pipe0: bool, f: Front, bypass: bool)
    ensures CanPush(c, pipe0, f, bypass) <==>
      f.mop.Idle? && f.playLeft == 0 &&
      |f.queue| < if bypass then 10 else if c.version.Later? then 53 else if c.version.Blackhole? then 29
                  else if pipe0 then 43 else 27
    ensures CanPush(c, pipe0, f, bypass) ==> Room(f)
  {
  }

  ghost predicate Lawful(c: Chip, pipe0: bool, m: Machine, evs: seq<Event>)
    decreases |evs|, 0
  {
    && FrontOk(c, m.front)
    && (evs != [] ==>
          && Lawful(c, pipe0, m, evs[..|evs| - 1])
          && Accepts(c, pipe0, Run(c, pipe0, m, evs[..|evs| - 1]), evs[|evs| - 1]))
  }

  ghost function Run(c: Chip, pipe0: bool, m: Machine, evs: seq<Event>): (r: Machine)
    requires Lawful(c, pipe0, m, evs)
    ensures FrontOk(c, r.front)
    decreases |evs|, 1
  {
    if evs == [] then m
    else
      var was := Run(c, pipe0, m, evs[..|evs| - 1]);
      if evs[|evs| - 1].Push? then
        AcceptedHasRoom(c, pipe0, was.front, evs[|evs| - 1].bypass);
        Do(c, was, evs[|evs| - 1])
      else Do(c, was, evs[|evs| - 1])
  }

  // What has issued, what waits, and what is to come make up the eager expansion.
  predicate Agrees(c: Chip, m: Machine, e: Meaning)
    requires FrontOk(c, m.front)
  {
    if m.ok then
      && var t := Total(c, m.front);
         && m.popped + t.out == e.out
         && (e.program.Some? <==> t.rec.Some?)
         && (e.program.Some? ==> e.program.value == m.front.program.(rec := t.rec.value))
    else m.popped + m.front.queue == e.out && e.program.None?
  }

  // ---------- What a push does, written out ----------

  // A MOP of type 0: at most 32 iterations and two flag bits. Its mask is its low half and the half set by MOP_CFG.
  lemma MaskedPush(c: Chip, p: Program, w: Word)
    requires ProgramOk(p) && w / 0x100_0000 == c.mop && w / 0x80_0000 % 2 == 0
    ensures var n, zmask := w / 0x1_0000 % 0x80 + 1, w % 0x1_0000 + 0x1_0000 * p.zhi;
      EagerPush(c, p, w, false) ==
        if n <= 32 && p.cfg[1] <= 3
        then PlayAll(c, p.rec, Joined(seq(n, i requires i >= 0 => Block(p.cfg, zmask / TwoTo(i) % 2 == 1))))
        else Outcome([], None)
  {
    hide Expansion, PlayAll, Joined, Block, TwoTo;
    if MopOk(c, Sampled(p, w)) {
      MaskedMeaning(c, Sampled(p, w));
    }
  }

  // A MOP of type 1: all other operand bits are zero, and both loop lengths are in range.
  lemma LoopedPush(c: Chip, p: Program, w: Word)
    requires ProgramOk(p) && w / 0x100_0000 == c.mop && w / 0x80_0000 % 2 == 1
    ensures EagerPush(c, p, w, false) ==
      if w % 0x1_0000 == 0 && w / 0x1_0000 % 0x80 == 0 && 1 <= p.cfg[0] <= (if c.version.Wormhole? then 32 else 1023)
         && 1 <= p.cfg[1] <= (if c.version.Wormhole? then 127 else 1023)
      then PlayAll(c, p.rec, Joined(seq(p.cfg[0], i requires i >= 0 => Round(c, p.cfg, i + 1 == p.cfg[0]))))
      else Outcome([], None)
  {
    hide Expansion, PlayAll, Joined, Round;
    if MopOk(c, Sampled(p, w)) {
      LoopedMeaning(c, Sampled(p, w));
    }
  }

  // A MOP_CFG sets the upper half of the mask and issues nothing.
  lemma MaskPush(c: Chip, out: seq<Word>, p: Program, w: Word)
    requires ProgramOk(p) && w / 0x100_0000 == c.mopCfg && c.mopCfg != c.mop
    ensures EagerEvent(c, out, p, Push(w, false)) ==
      if w / 0x1_0000 % 0x100 == 0 then Meaning(out, Some(p.(zhi := w % 0x1_0000))) else Meaning(out, None)
  {
    assert out + [] == out;
  }

  function Shown(c: Chip, w: Word): seq<Word> {
    if w / 0x100_0000 == c.nop then [] else [w]
  }

  // Any other instruction: recorded while a recording is on, and run if that says so; a REPLAY starts a recording or
  // plays one; the rest just run. NOPs never issue.
  lemma OtherPush(c: Chip, p: Program, w: Word, bypass: bool)
    requires ProgramOk(p) && (bypass || (w / 0x100_0000 != c.mop && w / 0x100_0000 != c.mopCfg))
    ensures var r, len, at := p.rec, w / 0x10 % 0x400, w / 0x4000 % 0x400;
      EagerPush(c, p, w, bypass) ==
        if r.left > 0 then
          (if w / 0x100_0000 == c.replay then Outcome([], None)
           else Outcome(if r.exec then Shown(c, w) else [],
                        Some(Recorder(r.buf[r.index := w], r.index + 1, r.left - 1, r.exec))))
        else if w / 0x100_0000 != c.replay then Outcome(Shown(c, w), Some(r))
        else if w / 4 % 4 != 0 || w / 0x400 % 0x10 != 0 || w / 0x8_0000 % 0x20 != 0 || len == 0 || at + len > 32
             || (w % 2 == 0 && (w / 2 % 2 == 1 || (c.version.Wormhole? && len == 33))) then Outcome([], None)
        else if w % 2 == 1 then Outcome([], Some(Recorder(r.buf, at, len, w / 2 % 2 == 1)))
        else Outcome(Live(c, r.buf[at..at + len]), Some(r))
  {
    PlaySingle(c, p.rec, w);
    LiveOne(c, w);
    assert Live(c, []) == [];
  }

  // An idle front end has nothing to come but its queue.
  lemma IdleTotal(c: Chip, f: Front)
    requires FrontOk(c, f) && !Expanding(f)
    ensures Total(c, f) == Outcome(f.queue, Some(f.program.rec))
  {
    assert f.program.rec.buf[f.playIndex..f.playIndex + f.playLeft] == [];
    assert Live(c, []) == [] && f.queue + ([] + []) == f.queue;
  }

  // Pushing on an idle front end adds the eager expansion of the push.
  lemma IngestAdds(c: Chip, f: Front, w: Word, bypass: bool)
    requires FrontOk(c, f) && Room(f) && !Expanding(f)
    ensures var d := Ingest(c, f, w, bypass);
            var o := EagerPush(c, f.program, w, bypass);
            && FrontOk(c, d.front)
            && (d.ok ==> Total(c, d.front) == Before(f.queue, o))
            && (!d.ok ==> d.front == f && o == Outcome([], None))
            && d.front.program.zhi == (if d.ok then ZhiAfter(c, f.program.zhi, w, bypass) else f.program.zhi)
            && d.front.program.cfg == f.program.cfg
  {
    ReplayExpandOk(c, f, w);
    var d := Ingest(c, f, w, bypass);
    var p := f.program;
    IdleTotal(c, f);
    if !bypass && Opcode(w) == c.mop {
      if d.ok {
        StepsAreExpansion(c, Sampled(p, w), 0);
        assert d.front.program.rec.buf[f.playIndex..f.playIndex + 0] == [];
        BeforeBefore(f.queue, [], EagerPush(c, p, w, bypass));
      }
    } else if !bypass && Opcode(w) == c.mopCfg {
      if d.ok {
        IdleTotal(c, d.front);
        assert f.queue + [] == f.queue;
      }
    } else {
      ReplayExpandKeeps(c, f, w);
      PlaySingle(c, p.rec, w);
      if d.ok {
        var q := Play(c, p.rec, w).value;
        assert CursorRest(c, f.mop) == [] && PlayAll(c, q.rec, []) == Outcome([], Some(q.rec));
        assert f.queue + Live(c, q.out) + [] == f.queue + Live(c, q.out);
      }
    }
  }

  lemma PlaySingle(c: Chip, r: Recorder, w: Word)
    requires RecorderOk(r)
    ensures var p := Play(c, r, w);
            PlayAll(c, r, [w]) == if p.None? then Outcome([], None) else Outcome(Live(c, p.value.out), Some(p.value.rec))
  {
    var p := Play(c, r, w);
    if p.Some? {
      assert [w][1..] == [];
      assert PlayAll(c, p.value.rec, []) == Outcome([], Some(p.value.rec));
      assert Live(c, p.value.out) + [] == Live(c, p.value.out);
    }
  }

  lemma PushAgrees(c: Chip, m: Machine, e: Meaning, w: Word, bypass: bool)
    requires FrontOk(c, m.front) && Room(m.front) && !Expanding(m.front) && m.ok && Agrees(c, m, e)
    ensures e.program.Some? && ProgramOk(e.program.value)
    ensures Agrees(c, Do(c, m, Push(w, bypass)), EagerEvent(c, e.out, e.program.value, Push(w, bypass)))
  {
    var f := m.front;
    assert ProgramOk(f.program);
    hide Total, EagerPush, Ingest, FrontStep, Expanding, FrontOk;
    IdleTotal(c, f);
    assert m.popped + f.queue == e.out && e.program == Some(f.program);
    IngestAdds(c, f, w, bypass);
    var d := Ingest(c, f, w, bypass);
    var o := EagerPush(c, f.program, w, bypass);
    if d.ok {
      AfterIngest(c, m, d.front, o);
    } else {
      assert e.out + [] == e.out;
    }
  }

  lemma AfterIngest(c: Chip, m: Machine, g: Front, o: Outcome)
    requires FrontOk(c, m.front) && FrontOk(c, g) && Total(c, g) == Before(m.front.queue, o)
    ensures var d := FrontStep(c, g);
            Agrees(c, Machine(d.front, m.popped, d.ok),
                   Meaning(m.popped + m.front.queue + o.out,
                           if o.rec.None? then None else Some(g.program.(rec := o.rec.value))))
  {
    FrontStepKeeps(c, g);
    FrontStepKeepsRest(c, g);
    hide Rest, FrontStep, FrontOk;
    assert m.popped + (m.front.queue + o.out) == m.popped + m.front.queue + o.out;
  }

  // A step changes no configuration.
  lemma {:induction false} FrontStepKeepsRest(c: Chip, f: Front)
    requires FrontOk(c, f)
    ensures var g := FrontStep(c, f).front;
            g.program.zhi == f.program.zhi && g.program.cfg == f.program.cfg
    decreases |CursorRest(c, f.mop)|, f.playLeft
  {
    if Room(f) && f.playLeft > 0 {
      FrontStepKeepsRest(c, PlayOne(c, f));
    } else if Room(f) && f.mop.At? {
      MopNextIsFirst(c, f.mop.mop, f.mop.iter, f.mop.step);
      var (w, u) := MopNext(c, f.mop.mop, f.mop.iter, f.mop.step);
      if w.Some? {
        ReplayExpandOk(c, f.(mop := u), w.value);
        var d := ReplayExpand(c, f.(mop := u), w.value);
        if d.ok {
          FrontStepKeepsRest(c, d.front);
        }
      }
    }
  }

  lemma StepAgrees(c: Chip, m: Machine, e: Meaning)
    requires FrontOk(c, m.front) && m.ok && Agrees(c, m, e)
    ensures Agrees(c, Do(c, m, Step), e)
  {
    FrontStepKeeps(c, m.front);
    FrontStepKeepsRest(c, m.front);
  }

  lemma PopAgrees(c: Chip, m: Machine, e: Meaning)
    requires FrontOk(c, m.front) && m.ok && m.front.queue != [] && Agrees(c, m, e)
    ensures Agrees(c, Do(c, m, Pop), e)
  {
    var f := m.front;
    var rest := Rest(c, f);
    assert Rest(c, f.(queue := f.queue[1..])) == rest;
    assert m.popped + [f.queue[0]] + (f.queue[1..] + rest.out) == m.popped + (f.queue + rest.out);
  }

  lemma ConfigureAgrees(c: Chip, m: Machine, e: Meaning, i: nat, data: Word)
    requires FrontOk(c, m.front) && m.ok && Agrees(c, m, e)
    ensures e.program.None? ==> Agrees(c, Do(c, m, Configure(i, data)), e)
    ensures e.program.Some? ==> ProgramOk(e.program.value)
    ensures e.program.Some? ==>
              Agrees(c, Do(c, m, Configure(i, data)), EagerEvent(c, e.out, e.program.value, Configure(i, data)))
  {
    assert Rest(c, Do(c, m, Configure(i, data)).front) == Rest(c, m.front);
  }

  predicate Fresh(m: Machine) {
    m.ok && m.popped == [] && m.front.queue == [] && !Expanding(m.front)
  }

  // Over any run, whatever the pushes, steps and pops and however they interleave.
  lemma {:induction false} RunAgrees(c: Chip, pipe0: bool, m: Machine, evs: seq<Event>)
    requires Lawful(c, pipe0, m, evs) && Fresh(m)
    ensures Agrees(c, Run(c, pipe0, m, evs), Eager(c, m.front.program, evs))
    decreases |evs|
  {
    if evs == [] {
      IdleTotal(c, m.front);
    } else {
      var front, ev := evs[..|evs| - 1], evs[|evs| - 1];
      RunAgrees(c, pipe0, m, front);
      var was, e := Run(c, pipe0, m, front), Eager(c, m.front.program, front);
      if was.ok {
        match ev
        case Push(w, bypass) =>
          AcceptedHasRoom(c, pipe0, was.front, bypass);
          PushAgrees(c, was, e, w, bypass);
        case Step => StepAgrees(c, was, e);
        case Pop => PopAgrees(c, was, e);
        case Configure(i, data) => ConfigureAgrees(c, was, e, i, data);
      }
    }
  }

  // What issues is a prefix of the eager expansion, and all of it once the thread is idle.
  lemma IssuesInOrder(c: Chip, pipe0: bool, m: Machine, evs: seq<Event>)
    requires Lawful(c, pipe0, m, evs) && Fresh(m)
    ensures Run(c, pipe0, m, evs).popped <= Eager(c, m.front.program, evs).out
    ensures var r := Run(c, pipe0, m, evs);
            r.ok && !Expanding(r.front) && r.front.queue == [] ==>
              r.popped == Eager(c, m.front.program, evs).out
              && Eager(c, m.front.program, evs).program == Some(r.front.program)
    ensures !Run(c, pipe0, m, evs).ok ==> Eager(c, m.front.program, evs).program.None?
  {
    RunAgrees(c, pipe0, m, evs);
    var r := Run(c, pipe0, m, evs);
    if r.ok && !Expanding(r.front) {
      IdleTotal(c, r.front);
    }
  }

  // A run never sticks: after a step either an instruction waits to issue or the expanders are done.
  lemma NeverStuck(c: Chip, m: Machine)
    requires FrontOk(c, m.front) && m.ok && Do(c, m, Step).ok
    ensures var r := Do(c, m, Step); r.front.queue == [] ==> !Expanding(r.front)
  {
    FrontStepDrains(c, m.front);
  }

  // ---------- The imperative front end of one thread ----------

  // The ring from the read pointer up to the write pointer.
  function Ring(fifo: seq<Word>, rd: nat, wr: nat): seq<Word>
    requires rd <= |fifo| && wr <= |fifo|
  {
    if rd <= wr then fifo[rd..wr] else fifo[rd..] + fifo[..wr]
  }

  lemma RingSize(fifo: seq<Word>, rd: nat, wr: nat)
    requires |fifo| == FIFO_SIZE && rd < FIFO_SIZE && wr < FIFO_SIZE
    ensures |Ring(fifo, rd, wr)| == (wr + FIFO_SIZE - rd) % FIFO_SIZE
  {
  }

  lemma RingPush(fifo: seq<Word>, rd: nat, wr: nat, w: Word)
    requires |fifo| == FIFO_SIZE && rd < FIFO_SIZE && wr < FIFO_SIZE && |Ring(fifo, rd, wr)| < FIFO_SIZE - 1
    ensures Ring(fifo[wr := w], rd, (wr + 1) % FIFO_SIZE) == Ring(fifo, rd, wr) + [w]
    ensures rd != (wr + 1) % FIFO_SIZE
  {
    var wr' := (wr + 1) % FIFO_SIZE;
    var after := fifo[wr := w];
    if rd <= wr {
      if wr' == 0 {
        assert after[rd..] + after[..0] == fifo[rd..wr] + [w];
      } else {
        assert after[rd..wr'] == fifo[rd..wr] + [w];
      }
    } else {
      assert after[rd..] == fifo[rd..] && after[..wr'] == fifo[..wr] + [w];
    }
  }

  lemma Wraps(i: nat)
    requires i < FIFO_SIZE
    ensures (i + 1) % FIFO_SIZE == if i + 1 == FIFO_SIZE then 0 else i + 1
  {
  }

  lemma RingPop(fifo: seq<Word>, rd: nat, wr: nat, next: nat)
    requires |fifo| == FIFO_SIZE && rd < FIFO_SIZE && wr < FIFO_SIZE && rd != wr
    requires next == if rd + 1 == FIFO_SIZE then 0 else rd + 1
    ensures Ring(fifo, rd, wr) == [fifo[rd]] + Ring(fifo, next, wr)
    ensures next == wr <==> |Ring(fifo, rd, wr)| == 1
  {
    if rd < wr {
      assert fifo[rd..wr] == [fifo[rd]] + fifo[rd + 1..wr];
    } else if next == 0 {
      assert fifo[rd..] == [fifo[rd]];
    } else {
      assert fifo[rd..] == [fifo[rd]] + fifo[next..];
    }
  }

  // One turn of the front-end loop.
  lemma FrontTurn(c: Chip, f: Front)
    requires FrontOk(c, f)
    ensures !Room(f) ==> FrontStep(c, f) == Did(f, true)
    ensures Room(f) && f.playLeft > 0 ==> FrontStep(c, f) == FrontStep(c, PlayOne(c, f))
    ensures Room(f) && f.playLeft == 0 && f.mop.Idle? ==> FrontStep(c, f) == Did(f, true)
    ensures Room(f) && f.playLeft == 0 && f.mop.At? ==>
              var (w, u) := MopNext(c, f.mop.mop, f.mop.iter, f.mop.step);
              && FrontOk(c, f.(mop := u))
              && (w.None? ==> FrontStep(c, f) == Did(f.(mop := u), true))
              && (w.Some? ==>
                    var d := ReplayExpand(c, f.(mop := u), w.value);
                    && FrontOk(c, d.front) && d.front.mop == u
                    && |CursorRest(c, u)| < |CursorRest(c, f.mop)|
                    && FrontStep(c, f) == if d.ok then FrontStep(c, d.front) else d)
  {
    if Room(f) && f.playLeft == 0 && f.mop.At? {
      MopNextIsFirst(c, f.mop.mop, f.mop.iter, f.mop.step);
      var (w, u) := MopNext(c, f.mop.mop, f.mop.iter, f.mop.step);
      if w.Some? {
        ReplayExpandOk(c, f.(mop := u), w.value);
      }
    }
  }

  // queued and expanding are the thread's bits of inst_pipes_active and expand_pipes_active.
  class Thread {
    const c: Chip
    const fifo: array<Word>
    const buf: array<Word>
    var rd: nat
    var wr: nat
    var recIndex: nat
    var recLeft: nat
    var recExec: bool
    var playIndex: nat
    var playLeft: nat
    var zhi: nat
    var cfg: seq<Word>
    var busy: bool
    var mop: Mop
    var iter: nat
    var step: nat
    var queued: bool
    var expanding: bool

    constructor (c: Chip)
      ensures Valid() && Settled() && fresh(fifo) && fresh(buf)
      ensures Fresh(Machine(State(), [], true))
    {
      this.c := c;
      fifo := new Word[FIFO_SIZE](_ => 0);
      buf := new Word[REPLAY_ENTRIES](_ => 0);
      rd, wr := 0, 0;
      recIndex, recLeft, recExec := 0, 0, false;
      playIndex, playLeft := 0, 0;
      zhi, cfg := 0, [0, 0, 0, 0, 0, 0, 0, 0, 0];
      busy, mop, iter, step := false, Mop(0, 0, []), 0, 0;
      queued, expanding := false, false;
    }

    function Queue(): seq<Word>
      reads this, fifo
      requires rd <= fifo.Length && wr <= fifo.Length
    {
      Ring(fifo[..], rd, wr)
    }

    predicate Shape()
      reads this
    {
      && fifo.Length == FIFO_SIZE && buf.Length == REPLAY_ENTRIES
      && rd < FIFO_SIZE && wr < FIFO_SIZE
    }

    function State(): Front
      reads this, fifo, buf
      requires Shape()
    {
      Front(Program(Recorder(buf[..], recIndex, recLeft, recExec), zhi, cfg), playIndex, playLeft,
            if busy then At(mop, iter, step) else Idle, Queue())
    }

    ghost predicate Valid()
      reads this, fifo, buf
    {
      Shape() && FrontOk(c, State()) && (queued <==> rd != wr)
    }

    // The active mask matches the expanders.
    ghost predicate Settled()
      reads this, fifo, buf
      requires Shape()
    {
      expanding <==> Expanding(State())
    }

    method Used() returns (n: nat)
      requires Valid()
      ensures n == |Queue()|
    {
      RingSize(fifo[..], rd, wr);
      n := (wr + FIFO_SIZE - rd) % FIFO_SIZE;
    }

    // There is always room: the ring never closes on itself.
    method PushFifo(w: Word)
      requires Valid() && Room(State())
      modifies this`wr, this`queued, fifo
      ensures Valid() && State() == Enqueue(c, old(State()), w)
    {
      if Opcode(w) == c.nop {
        return;
      }
      RingPush(fifo[..], rd, wr, w);
      hide Ring;
      fifo[wr] := w;
      assert fifo[..] == old(fifo[..])[wr := w];
      wr := (wr + 1) % FIFO_SIZE;
      queued := true;
      assert wr != rd;
    }

    // The slot of the recording takes the instruction.
    method Record(w: Word)
      requires Valid() && recLeft > 0
      modifies this`recIndex, this`recLeft, buf
      ensures Valid()
      ensures State() == old(State()).(program := old(State()).program.(rec := State().program.rec))
      ensures var r := old(State()).program.rec;
              State().program.rec == Recorder(r.buf[r.index := w], r.index + 1, r.left - 1, r.exec)
    {
      hide Ring, MopOk;
      buf[recIndex] := w;
      recIndex, recLeft := recIndex + 1, recLeft - 1;
    }

    method ReplayExpander(w: Word) returns (ok: bool)
      requires Valid() && Room(State())
      modifies this`wr, this`queued, this`recIndex, this`recLeft, this`recExec, this`playIndex, this`playLeft, fifo, buf
      ensures Valid() && Did(State(), ok) == ReplayExpand(c, old(State()), w)
    {
      hide Ring, MopOk, Bits;
      ok := true;
      if recLeft > 0 {
        if Opcode(w) == c.replay {
          return false;
        }
        Record(w);
        if recExec {
          PushFifo(w);
        }
      } else if Opcode(w) == c.replay {
        if !ReplayOk(c, w) {
          return false;
        }
        if ReplayLoads(w) {
          recIndex, recLeft, recExec := ReplayStart(w), ReplayLen(w), ReplayExecutes(w);
        } else {
          playIndex, playLeft := ReplayStart(w), ReplayLen(w);
        }
      } else {
        PushFifo(w);
      }
    }

    // The next instruction of the MOP, if it has one.
    method MopNextInst() returns (w: Option<Word>)
      requires busy && MopOk(c, mop)
      modifies this`busy, this`iter, this`step
      ensures (w, if busy then At(mop, iter, step) else Idle) == MopNext(c, mop, old(iter), old(step))
    {
      while iter < Iterations(mop)
        invariant busy && MopOk(c, mop)
        invariant MopNext(c, mop, iter, step) == MopNext(c, mop, old(iter), old(step))
        decreases Iterations(mop) - iter, Steps(c, mop) - step
      {
        var emission := StepInst(c, mop, iter, step);
        if emission.End? {
          iter, step := iter + 1, 0;
        } else {
          StepsBound(c, mop, iter, step);
          hide StepInst;
          step := step + 1;
          if emission.Emit? {
            return Some(emission.w);
          }
        }
      }
      busy := false;
      return None;
    }

    method PlayNext()
      requires Valid() && Room(State()) && playLeft > 0
      modifies this`wr, this`queued, this`playIndex, this`playLeft, fifo
      ensures Valid() && State() == PlayOne(c, old(State()))
    {
      hide Ring, MopOk;
      PushFifo(buf[playIndex]);
      playIndex, playLeft := playIndex + 1, playLeft - 1;
    }

    // One instruction out of the MOP expander and through the replay expander.
    method MopTurn() returns (more: bool, ok: bool)
      requires Valid() && Room(State()) && playLeft == 0 && busy
      modifies this`wr, this`queued, this`recIndex, this`recLeft, this`recExec, this`playIndex, this`playLeft
      modifies this`busy, this`iter, this`step, fifo, buf
      ensures Valid() && mop == old(mop)
      ensures more && ok ==> FrontStep(c, old(State())) == FrontStep(c, State())
      ensures more && ok ==> |CursorRest(c, State().mop)| < |CursorRest(c, old(State()).mop)|
      ensures !more || !ok ==> FrontStep(c, old(State())) == Did(State(), ok)
      ensures !more && ok ==> !busy && playLeft == 0
    {
      hide Ring, MopOk, FrontStep, ReplayExpand, MopNext, CursorRest;
      FrontTurn(c, State());
      var w := MopNextInst();
      assert State() == old(State()).(mop := MopNext(c, mop, old(iter), old(step)).1);
      more, ok := w.Some?, true;
      if more {
        ok := ReplayExpander(w.value);
      } else {
        NextNone(c, mop, old(iter), old(step));
      }
    }

    method FrontendStep() returns (ok: bool)
      requires Valid()
      modifies this`wr, this`queued, this`recIndex, this`recLeft, this`recExec, this`playIndex, this`playLeft
      modifies this`busy, this`iter, this`step, this`expanding, fifo, buf
      ensures Valid() && Did(State(), ok) == FrontStep(c, old(State()))
      ensures ok ==> Settled()
    {
      hide Ring, MopOk, FrontStep, ReplayExpand, MopNext, CursorRest, PlayOne;
      var used := Used();
      var more := true;
      ok := true;
      while used < FIFO_SIZE - 1 && more
        invariant Valid() && used == |Queue()| && ok
        invariant more ==> FrontStep(c, State()) == FrontStep(c, old(State()))
        invariant !more ==> Did(State(), true) == FrontStep(c, old(State()))
        decreases more, |CursorRest(c, State().mop)|, playLeft
      {
        FrontTurn(c, State());
        if playLeft > 0 {
          PlayNext();
        } else if !busy {
          more := false;
        } else {
          more, ok := MopTurn();
          if !ok {
            return;
          }
        }
        used := Used();
      }
      FrontTurn(c, State());
      expanding := busy || playLeft > 0;
    }

    method Accept(w: Word, bypass: bool) returns (ok: bool)
      requires Valid() && Room(State())
      modifies this, fifo, buf
      ensures Valid() && Did(State(), ok) == PushInst(c, old(State()), w, bypass)
      ensures ok ==> Settled()
    {
      hide Ring, FrontStep, ReplayExpand, Bits;
      ok := Take(w, bypass);
      if ok {
        ok := FrontendStep();
      }
    }

    method Take(w: Word, bypass: bool) returns (ok: bool)
      requires Valid() && Room(State())
      modifies this, fifo, buf
      ensures Valid() && Did(State(), ok) == Ingest(c, old(State()), w, bypass)
    {
      hide Ring, FrontStep, ReplayExpand, Bits, MopOk;
      ok := true;
      if !bypass && Opcode(w) == c.mop {
        var m := Mop(w, Bits(w, 1, 0x1_0000) + 0x1_0000 * zhi, cfg);
        if !MopOk(c, m) {
          return false;
        }
        busy, mop, iter, step := true, m, 0, 0;
      } else if !bypass && Opcode(w) == c.mopCfg {
        if Bits(w, 0x1_0000, 0x100) != 0 {
          return false;
        }
        zhi := Bits(w, 1, 0x1_0000);
      } else {
        ok := ReplayExpander(w);
      }
    }

    // The clock loop issues the instruction at the read pointer.
    method PopInst() returns (w: Word)
      requires Valid() && queued
      modifies this`rd, this`queued
      ensures Valid() && (old(Settled()) ==> Settled())
      ensures old(Queue()) == [w] + Queue() && State() == old(State()).(queue := Queue())
    {
      hide Ring, MopOk;
      Wraps(rd);
      RingPop(fifo[..], rd, wr, (rd + 1) % FIFO_SIZE);
      w := fifo[rd];
      rd := (rd + 1) % FIFO_SIZE;
      if rd == wr {
        queued := false;
      }
    }
  }

  lemma NextNone(c: Chip, m: Mop, i: nat, s: nat)
    requires MopOk(c, m)
    ensures MopNext(c, m, i, s).0.None? ==> MopNext(c, m, i, s).1.Idle?
  {
    MopNextIsFirst(c, m, i, s);
  }
}
