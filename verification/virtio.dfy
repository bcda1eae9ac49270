// The virtio block device of src/rv64_system.cpp:692-811 and 870-879: the split ring of VIRTIO 1.1, section 2.6.
// Guest DRAM is a block of bytes at a base address. A ring placed outside DRAM reaches other devices through the
// bus, which is not part of this model: such an access ends the run with Outside.
module Virtio {
  const TOP64 := 0x1_0000_0000_0000_0000
  const TOP32 := 0x1_0000_0000
  const TOP16 := 0x1_0000

  type Byte = b: int | 0 <= b < 256

  type Word = n: nat | n < TOP32

  datatype Error =
    | BadQueueNum | BadHead | BadIndirect | BadChain | Nested | BadHeader | PastDisk | NotInDram | BadDirection
    | WideDevice | Outside

  datatype Ram = Ram(base: nat, bytes: seq<Byte>)

  // The bytes [at, at + len).
  datatype Span = Span(at: nat, len: nat)

  datatype Desc = Desc(addr: nat, len: nat, flags: nat, next: nat)

  // vio_queue_num and the three ring addresses.
  datatype Queue = Queue(num: nat, desc: nat, avail: nat, used: nat)

  // Bytes stored in DRAM: a piece of the disk, or a status or ring entry.
  datatype Put = Put(at: nat, bytes: seq<Byte>, data: bool)

  // One request on its way along its chain. The last four fields record what was written to DRAM (where, and what),
  // which descriptors were followed and which bytes went to or from the disk.
  datatype Walk = Walk(ram: Ram, disk: seq<Byte>, first: bool, kind: nat, off: nat, used: Word,
                       wrote: seq<Span>, puts: seq<Put>, seen: seq<Desc>, moved: seq<Byte>)

  datatype Outcome<T> = Done(value: T) | Stop(error: Error)

  // ---------- Little-endian words in DRAM ----------

  function W64(x: nat): nat { x % TOP64 }

  // The 16-bit ring counters: n on from i, and how far `to` is ahead of `from`.
  function After(i: nat, n: nat): nat { (i + n) % TOP16 }

  function Next(i: nat): nat { After(i, 1) }

  function Gap(to: nat, from: nat): nat { (to - from) % TOP16 }

  function InDram(r: Ram, at: nat, len: nat): bool {
    r.base <= at && at + len <= r.base + |r.bytes|
  }

  function Splice(s: seq<Byte>, at: nat, bs: seq<Byte>): (t: seq<Byte>)
    requires at + |bs| <= |s|
    ensures |t| == |s| && t[at..at + |bs|] == bs
    ensures forall i :: 0 <= i < |s| && !(at <= i < at + |bs|) ==> t[i] == s[i]
  {
    s[..at] + bs + s[at + |bs|..]
  }

  function Peek(r: Ram, at: nat, len: nat): (bs: seq<Byte>)
    requires InDram(r, at, len)
    ensures |bs| == len
  {
    r.bytes[at - r.base..at - r.base + len]
  }

  function Poke(r: Ram, at: nat, bs: seq<Byte>): Ram
    requires InDram(r, at, |bs|)
  {
    r.(bytes := Splice(r.bytes, at - r.base, bs))
  }

  function U16(bs: seq<Byte>): (n: nat)
    requires |bs| == 2
    ensures n < TOP16
  {
    var lo: nat, hi: nat := bs[0], bs[1];
    lo + 256 * hi
  }

  function U32(bs: seq<Byte>): (n: nat)
    requires |bs| == 4
    ensures n < TOP32
  {
    U16(bs[..2]) + TOP16 * U16(bs[2..])
  }

  function U64(bs: seq<Byte>): (n: nat)
    requires |bs| == 8
    ensures n < TOP64
  {
    U32(bs[..4]) + TOP32 * U32(bs[4..])
  }

  function Bytes2(n: nat): (bs: seq<Byte>)
    requires n < TOP16
    ensures |bs| == 2 && U16(bs) == n
  {
    [n % 256, n / 256]
  }

  function Bytes4(n: nat): (bs: seq<Byte>)
    requires n < TOP32
    ensures |bs| == 4 && U32(bs) == n
  {
    var bs := Bytes2(n % TOP16) + Bytes2(n / TOP16);
    assert bs[..2] == Bytes2(n % TOP16) && bs[2..] == Bytes2(n / TOP16);
    bs
  }

  function ReadDesc(bs: seq<Byte>): Desc
    requires |bs| == 16
  {
    Desc(U64(bs[..8]), U32(bs[8..12]), U16(bs[12..14]), U16(bs[14..]))
  }

  predicate More(d: Desc) { d.flags % 2 == 1 }

  predicate Writable(d: Desc) { d.flags / 2 % 2 == 1 }

  predicate Indirect(d: Desc) { d.flags / 4 % 2 == 1 }

  // ---------- The layout of VIRTIO 1.1, written out ----------

  // The little-endian number of some bytes.
  function Number(bs: seq<Byte>): nat {
    if bs == [] then 0 else var low: nat := bs[0]; low + 256 * Number(bs[1..])
  }

  lemma U16Is(bs: seq<Byte>)
    requires |bs| == 2
    ensures U16(bs) == Number(bs)
  {
    assert bs[1..] == [bs[1]];
    assert Number([bs[1]]) == bs[1] by {
      assert [bs[1]][1..] == [];
    }
  }

  lemma NumberFrom2(bs: seq<Byte>)
    requires |bs| >= 2
    ensures Number(bs) == Number(bs[..2]) + TOP16 * Number(bs[2..])
  {
    U16Is(bs[..2]);
    assert bs[1..][1..] == bs[2..];
    assert Number(bs[1..]) == bs[1] + 256 * Number(bs[2..]);
  }

  lemma NumberFrom4(bs: seq<Byte>)
    requires |bs| >= 4
    ensures Number(bs) == Number(bs[..4]) + TOP32 * Number(bs[4..])
  {
    NumberFrom2(bs);
    NumberFrom2(bs[2..]);
    NumberFrom2(bs[..4]);
    assert bs[..4][..2] == bs[..2] && bs[2..][..2] == bs[..4][2..] && bs[2..][2..] == bs[4..];
    hide Number;
  }

  lemma U32Is(bs: seq<Byte>)
    requires |bs| == 4
    ensures U32(bs) == Number(bs)
  {
    U16Is(bs[..2]);
    U16Is(bs[2..]);
    NumberFrom2(bs);
  }

  lemma U64Is(bs: seq<Byte>)
    requires |bs| == 8
    ensures U64(bs) == Number(bs)
  {
    U32Is(bs[..4]);
    U32Is(bs[4..]);
    NumberFrom4(bs);
  }

  // A descriptor: 8 bytes of address, 4 of length, 2 of flags and 2 of the next index.
  lemma DescMeaning(bs: seq<Byte>)
    requires |bs| == 16
    ensures ReadDesc(bs) == Desc(Number(bs[..8]), Number(bs[8..12]), Number(bs[12..14]), Number(bs[14..]))
  {
    U64Is(bs[..8]);
    U32Is(bs[8..12]);
    U16Is(bs[12..14]);
    U16Is(bs[14..]);
  }

  function TwoTo(n: nat): nat {
    if n == 0 then 1 else 2 * TwoTo(n - 1)
  }

  lemma NumMeaning(n: nat)
    ensures ValidNum(n) <==> exists k :: 0 <= k <= 10 && n == TwoTo(k)
  {
    assert TwoTo(0) == 1 && TwoTo(1) == 2 && TwoTo(2) == 4 && TwoTo(3) == 8 && TwoTo(4) == 16 && TwoTo(5) == 32;
    assert TwoTo(6) == 64 && TwoTo(7) == 128 && TwoTo(8) == 256 && TwoTo(9) == 512 && TwoTo(10) == 1024;
  }

  // The halves of a ring address may be written in any order.
  lemma AddressMeaning(a: nat, x: nat, y: nat)
    requires x < TOP32
    ensures Low(High(a, y), x) == High(Low(a, x), y) == x + 0x1_0000_0000 * y
  {
  }

  // A reset leaves the device as at power on but for its ring setup and its line.
  lemma ResetMeaning(v: Dev)
    ensures var v' := Do(v, Status(0)).value;
      && !v'.ready && v'.last == 0 && v'.usedIdx == 0 && !v'.pending && v'.line == v.line
      && v'.ram == v.ram && v'.disk == v.disk
  {
  }

  // What one descriptor does. Its flags are NEXT (1), WRITE (2) and INDIRECT (4); requests are reads (0), writes (1),
  // flushes (4) and get-id (8).
  lemma DescDoes(w: Walk, d: Desc)
    ensures d.flags / 4 % 2 == 1 ==> OneDesc(w, d) == Stop(Nested)
    ensures d.flags / 4 % 2 == 0 && w.first ==> HeaderDoes(w, d, OneDesc(w, d))
    ensures d.flags / 4 % 2 == 0 && !w.first ==> DataDoes(w, d, OneDesc(w, d))
    ensures OneDesc(w, d).Done? ==>
      && OneDesc(w, d).value.used == (if d.flags / 2 % 2 == 1 then (w.used + d.len) % TOP32 else w.used)
      && OneDesc(w, d).value.seen == w.seen + [d] && !OneDesc(w, d).value.first
  {
    HeaderMeaning(Count(w, d), d);
    DataMeaning(Count(w, d), d);
    hide Header, Data, HeaderDoes, DataDoes, Splice;
    CountDoes(w, d);
  }

  lemma CountDoes(w: Walk, d: Desc)
    ensures HeaderDoes(Count(w, d), d, OneDesc(w, d)) == HeaderDoes(w, d, OneDesc(w, d))
    ensures DataDoes(Count(w, d), d, OneDesc(w, d)) == DataDoes(w, d, OneDesc(w, d))
  {
    hide OneDesc, Number, Peek;
  }

  lemma HeaderMeaning(w: Walk, d: Desc)
    ensures HeaderDoes(w, d, Header(w, d))
    ensures Header(w, d).Done? ==> Header(w, d).value == w.(first := false, kind := Header(w, d).value.kind,
                                                          off := Header(w, d).value.off)
  {
    hide U32, U64, Number;
    if InDram(w.ram, d.addr, d.len) && d.len >= 16 {
      U64Is(Peek(w.ram, d.addr, d.len)[8..16]);
      U32Is(Peek(w.ram, d.addr, d.len)[..4]);
    }
  }

  lemma DataMeaning(w: Walk, d: Desc)
    ensures !(Writable(d) && d.len == 1) ==> DataDoes(w, d, Data(w, d))
    ensures Writable(d) && d.len == 1 ==>
      DataDoes(w, d, if InDram(w.ram, d.addr, 1) then Done(Store(w, d.addr, [StatusByte(w.kind)], false)) else Stop(Outside))
    ensures Data(w, d).Done? ==>
      Data(w, d).value.used == w.used && Data(w, d).value.seen == w.seen && Data(w, d).value.first == w.first
  {
  }

  // The header, 16 bytes the device reads: the request at 0 and the sector at 8.
  predicate HeaderDoes(w: Walk, d: Desc, o: Outcome<Walk>) {
    if d.addr < w.ram.base || d.addr + d.len > w.ram.base + |w.ram.bytes| || d.len < 16 || d.flags / 2 % 2 == 1
    then o == Stop(BadHeader)
    else
      var at := d.addr - w.ram.base;
      var sector := Number(w.ram.bytes[at..at + d.len][8..16]);
      if sector > |w.disk| / 512 then o == Stop(PastDisk)
      else
        && o.Done? && o.value.ram == w.ram && o.value.disk == w.disk && o.value.moved == w.moved
        && o.value.kind == Number(w.ram.bytes[at..at + d.len][..4]) && o.value.off == 512 * sector
  }

  // A writable descriptor of one byte is the status; any other is data, written by reads and read by writes.
  predicate DataDoes(w: Walk, d: Desc, o: Outcome<Walk>) {
    var writable := d.flags / 2 % 2 == 1;
    var inside := d.addr >= w.ram.base && d.addr + d.len <= w.ram.base + |w.ram.bytes|;
    if writable && d.len == 1 then
      if !inside then o == Stop(Outside)
      else
        && o.Done? && o.value.disk == w.disk && o.value.off == w.off && InDram(o.value.ram, d.addr, 1)
        && Peek(o.value.ram, d.addr, 1) == [if w.kind in {0, 1, 4, 8} then 0 else 1]
    else if !inside then o == Stop(NotInDram)
    else if w.kind > 1 && w.kind != 8 then o.Done? && o.value.ram == w.ram && o.value.disk == w.disk
    else if w.kind == 8 then
      if d.len == 0 && d.addr + 1 > w.ram.base + |w.ram.bytes| then o == Stop(Outside)
      else o.Done? && o.value.disk == w.disk && InDram(o.value.ram, d.addr, 1) && Peek(o.value.ram, d.addr, 1) == [0]
    else if w.off + d.len > |w.disk| then o == Stop(PastDisk)
    else if writable != (w.kind == 0) then o == Stop(BadDirection)
    else
      var from := if w.kind == 0 then w.disk[w.off..w.off + d.len] else Peek(w.ram, d.addr, d.len);
      && o.Done? && o.value.off == w.off + d.len && o.value.moved == w.moved + from
      && InDram(o.value.ram, d.addr, d.len) && Peek(o.value.ram, d.addr, d.len) == from
      && |o.value.disk| == |w.disk| && o.value.disk[w.off..w.off + d.len] == from
      && (w.kind == 0 ==> o.value.disk == w.disk) && (w.kind == 1 ==> o.value.ram == w.ram)
  }

  // ---------- One request ----------

  const IN: nat := 0
  const OUT: nat := 1
  const FLUSH: nat := 4
  const GET_ID: nat := 8

  function Start(ram: Ram, disk: seq<Byte>): Walk {
    Walk(ram, disk, true, 0xFFFF_FFFF, 0, 0, [], [], [], [])
  }

  function Count(w: Walk, d: Desc): Walk {
    w.(used := if Writable(d) then (w.used + d.len) % TOP32 else w.used, seen := w.seen + [d])
  }

  function Store(w: Walk, at: nat, bs: seq<Byte>, data: bool): Walk
    requires InDram(w.ram, at, |bs|)
  {
    w.(ram := Poke(w.ram, at, bs), wrote := w.wrote + [Span(at, |bs|)], puts := w.puts + [Put(at, bs, data)])
  }

  // The request header.
  function Header(w: Walk, d: Desc): Outcome<Walk> {
    if !InDram(w.ram, d.addr, d.len) || d.len < 16 || Writable(d) then Stop(BadHeader)
    else
      var bs := Peek(w.ram, d.addr, d.len);
      var sector := U64(bs[8..16]);
      if sector > |w.disk| / 512 then Stop(PastDisk)
      else Done(w.(first := false, kind := U32(bs[..4]), off := 512 * sector))
  }

  function StatusByte(kind: nat): Byte {
    if kind == IN || kind == OUT || kind == FLUSH || kind == GET_ID then 0 else 1
  }

  // A data buffer.
  function Data(w: Walk, d: Desc): Outcome<Walk> {
    if !InDram(w.ram, d.addr, d.len) then Stop(NotInDram)
    else if w.kind == IN || w.kind == OUT then
      if w.off + d.len > |w.disk| then Stop(PastDisk)
      else if (w.kind == IN) != Writable(d) then Stop(BadDirection)
      else if w.kind == IN then
        var bs := w.disk[w.off..w.off + d.len];
        Done(Store(w, d.addr, bs, true).(off := w.off + d.len, moved := w.moved + bs))
      else
        var bs := Peek(w.ram, d.addr, d.len);
        Done(w.(disk := Splice(w.disk, w.off, bs), off := w.off + d.len, moved := w.moved + bs))
    else if w.kind == GET_ID then
      if InDram(w.ram, d.addr, 1) then Done(Store(w, d.addr, [0], false).(off := w.off + d.len)) else Stop(Outside)
    else Done(w.(off := w.off + d.len))
  }

  function OneDesc(w: Walk, d: Desc): Outcome<Walk> {
    if Indirect(d) then Stop(Nested)
    else if w.first then Header(Count(w, d), d)
    else if Writable(d) && d.len == 1 then
      if InDram(w.ram, d.addr, 1) then Done(Store(Count(w, d), d.addr, [StatusByte(w.kind)], false)) else Stop(Outside)
    else Data(Count(w, d), d)
  }

  datatype Trail = Trail(end: Outcome<Walk>, last: Walk)

  // The chain loop: `chain` descriptors followed, `d` the next. `last` is where the walk stood when it stopped.
  function Chain(w: Walk, table: nat, count: nat, d: nat, chain: nat): (t: Trail)
    decreases count - chain
  {
    if d >= count || chain >= count then Trail(Stop(BadChain), w)
    else if !InDram(w.ram, W64(table + 16 * d), 16) then Trail(Stop(WideDevice), w)
    else
      var x := ReadDesc(Peek(w.ram, W64(table + 16 * d), 16));
      var o := OneDesc(w, x);
      if o.Stop? then Trail(o, w)
      else if More(x) then Chain(o.value, table, count, x.next, chain + 1)
      else Trail(o, o.value)
  }

  // ---------- The ring ----------

  // A head taken, the length reported for it, the buffers written for it and the descriptors it went through.
  datatype Served = Served(head: nat, len: Word, buffers: seq<Span>, seen: seq<Desc>)

  datatype Batch = Batch(ram: Ram, disk: seq<Byte>, log: seq<Served>)

  function AvailSlot(q: Queue, i: nat): nat
    requires q.num > 0
  {
    W64(q.avail + 4 + 2 * (i % q.num))
  }

  function UsedSlot(q: Queue, i: nat): nat
    requires q.num > 0
  {
    W64(q.used + 4 + 8 * (i % q.num))
  }

  // The chain of a head: the split table, or the indirect table its descriptor points to.
  function Walked(q: Queue, ram: Ram, disk: seq<Byte>, head: nat): Outcome<Walk> {
    if !InDram(ram, W64(q.desc + 16 * head), 16) then Stop(WideDevice)
    else
      var h := ReadDesc(Peek(ram, W64(q.desc + 16 * head), 16));
      if Indirect(h) then
        if h.len == 0 || h.len % 16 != 0 then Stop(BadIndirect)
        else Chain(Start(ram, disk), h.addr, h.len / 16, 0, 0).end
      else Chain(Start(ram, disk), q.desc, q.num, head, 0).end
  }

  // The used entry and the used index.
  function Publish(q: Queue, w: Walk, usedIdx: nat, head: nat): Outcome<Walk>
    requires q.num > 0 && head < TOP16
  {
    var slot, idx := UsedSlot(q, usedIdx), W64(q.used + 2);
    if !InDram(w.ram, slot, 8) then Stop(Outside)
    else if !InDram(w.ram, idx, 2) then Stop(Outside)
    else Done(Store(Store(w, slot, Bytes4(head) + Bytes4(w.used), false), idx, Bytes2(Next(usedIdx)), false))
  }

  // One round of the loop over the available ring.
  function Serve(q: Queue, ram: Ram, disk: seq<Byte>, last: nat, usedIdx: nat): (o: Outcome<Batch>)
    requires q.num > 0
    ensures o.Done? ==> |o.value.log| == 1
  {
    if !InDram(ram, AvailSlot(q, last), 2) then Stop(Outside)
    else
      var head := U16(Peek(ram, AvailSlot(q, last), 2));
      if head >= q.num then Stop(BadHead)
      else
        var o := Walked(q, ram, disk, head);
        if o.Stop? then Stop(o.error)
        else
          var p := Publish(q, o.value, usedIdx, head);
          if p.Stop? then Stop(p.error)
          else Done(Batch(p.value.ram, p.value.disk, [Served(head, o.value.used, o.value.wrote, o.value.seen)]))
  }

  // n rounds.
  function ServeAll(q: Queue, ram: Ram, disk: seq<Byte>, last: nat, usedIdx: nat, n: nat): Outcome<Batch>
    requires q.num > 0
    decreases n
  {
    hide Serve;
    if n == 0 then Done(Batch(ram, disk, []))
    else
      var o := Serve(q, ram, disk, last, usedIdx);
      if o.Stop? then o
      else
        var rest := ServeAll(q, o.value.ram, o.value.disk, Next(last), Next(usedIdx), n - 1);
        if rest.Stop? then rest else Done(rest.value.(log := o.value.log + rest.value.log))
  }

  // vio_queue_num must be a power of two no larger than 1024.
  predicate ValidNum(n: nat) {
    n in {1, 2, 4, 8, 16, 32, 64, 128, 256, 512, 1024}
  }

  // The device. `pending` is the one bit vio_int_status ever holds, `line` its level at the PLIC.
  datatype Dev = Dev(ready: bool, q: Queue, last: nat, usedIdx: nat, pending: bool, line: bool,
                     ram: Ram, hasDisk: bool, disk: seq<Byte>)

  function Notify(v: Dev): Outcome<Dev> {
    if !v.ready || !v.hasDisk || v.q.num == 0 then Done(v)
    else if !ValidNum(v.q.num) then Stop(BadQueueNum)
    else if !InDram(v.ram, W64(v.q.avail + 2), 2) then Stop(Outside)
    else
      var n := Gap(U16(Peek(v.ram, W64(v.q.avail + 2), 2)), v.last);
      var o := ServeAll(v.q, v.ram, v.disk, v.last, v.usedIdx, n);
      if o.Stop? then Stop(o.error)
      else Done(v.(ram := o.value.ram, disk := o.value.disk, last := After(v.last, n),
                   usedIdx := After(v.usedIdx, n), pending := true, line := true))
  }

  function Low(a: nat, x: nat): nat { a - a % TOP32 + x }

  function High(a: nat, x: nat): nat { a % TOP32 + TOP32 * x }

  // The register writes that matter to the ring, and the guest changing its memory.
  datatype Event =
    | QueueNum(n: nat) | QueueReady(on: bool)
    | DescLow(x: nat) | DescHigh(x: nat) | AvailLow(x: nat) | AvailHigh(x: nat) | UsedLow(x: nat) | UsedHigh(x: nat)
    | QueueNotify | InterruptAck(x: nat) | Status(x: nat) | GuestWrites(bytes: seq<Byte>)

  function Do(v: Dev, ev: Event): Outcome<Dev> {
    match ev
    case QueueNum(n) => Done(v.(q := v.q.(num := n)))
    case QueueReady(on) => Done(v.(ready := on))
    case DescLow(x) => Done(v.(q := v.q.(desc := Low(v.q.desc, x))))
    case DescHigh(x) => Done(v.(q := v.q.(desc := High(v.q.desc, x))))
    case AvailLow(x) => Done(v.(q := v.q.(avail := Low(v.q.avail, x))))
    case AvailHigh(x) => Done(v.(q := v.q.(avail := High(v.q.avail, x))))
    case UsedLow(x) => Done(v.(q := v.q.(used := Low(v.q.used, x))))
    case UsedHigh(x) => Done(v.(q := v.q.(used := High(v.q.used, x))))
    case QueueNotify => Notify(v)
    case InterruptAck(x) => var p := v.pending && x % 2 == 0; Done(v.(pending := p, line := p))
    case Status(x) => if x == 0 then Done(v.(ready := false, last := 0, usedIdx := 0, pending := false)) else Done(v)
    case GuestWrites(bytes) => Done(v.(ram := v.ram.(bytes := bytes)))
  }

  ghost predicate Run(v: Dev, evs: seq<Event>, v': Dev)
    decreases |evs|
  {
    if |evs| == 0 then v' == v
    else var o := Do(v, evs[0]); o.Done? && Run(o.value, evs[1..], v')
  }

  // As it stands at power on.
  predicate Fresh(v: Dev) {
    !v.ready && v.last == v.usedIdx == 0 && !v.pending && !v.line
  }

  // ---------- Indices over whole runs ----------

  predicate InStep(v: Dev) {
    v.usedIdx == v.last < TOP16 && (v.pending ==> v.line)
  }

  lemma {:induction false} IndicesInStep(v: Dev, evs: seq<Event>, v': Dev)
    requires InStep(v) && Run(v, evs, v')
    ensures InStep(v')
    decreases |evs|
  {
    hide ServeAll, ValidNum, Peek;
    if |evs| > 0 {
      var o := Do(v, evs[0]);
      assert InStep(o.value);
      IndicesInStep(o.value, evs[1..], v');
    }
  }

  // The interrupt line follows the status bit through every event but one: a reset while it is set clears the bit
  // and leaves the line up.
  lemma LineFollowsExactly(v: Dev, ev: Event)
    requires v.line == v.pending && Do(v, ev).Done?
    ensures var v' := Do(v, ev).value;
      (v'.line == v'.pending) <==> !(ev.Status? && ev.x == 0 && v.pending)
  {
  }

  // ---------- What a notification takes ----------

  lemma {:induction false} OneEntryPerHead(q: Queue, ram: Ram, disk: seq<Byte>, last: nat, usedIdx: nat, n: nat)
    requires q.num > 0 && ServeAll(q, ram, disk, last, usedIdx, n).Done?
    ensures |ServeAll(q, ram, disk, last, usedIdx, n).value.log| == n
    decreases n
  {
    hide Serve;
    if n > 0 {
      var b := Serve(q, ram, disk, last, usedIdx).value;
      OneEntryPerHead(q, b.ram, b.disk, Next(last), Next(usedIdx), n - 1);
    }
  }

  // A notification takes every head up to the available index it read, across the wrap at 2^16.
  lemma TakesUpToIndex(v: Dev)
    requires v.last < TOP16 && v.ready && v.hasDisk && v.q.num > 0 && Notify(v).Done?
    ensures InDram(v.ram, W64(v.q.avail + 2), 2)
    ensures Notify(v).value.last == U16(Peek(v.ram, W64(v.q.avail + 2), 2))
  {
    hide ServeAll, ValidNum, Peek, U16, W64;
  }

  lemma TimesGap(q: nat, x: nat, y: nat)
    requires x < y
    ensures q * x + q <= q * y
  {
    assert q * (x + 1) <= q * y;
  }

  lemma ModIs(a: nat, q: nat, k: nat, r: nat)
    requires q > 0 && a == q * k + r && r < q
    ensures a % q == r
  {
    var e := a / q;
    assert a == q * e + a % q;
    if e < k {
      TimesGap(q, e, k);
    } else if k < e {
      TimesGap(q, k, e);
    }
  }

  lemma ModShift(a: nat, k: nat, q: nat)
    requires q > 0
    ensures (a + q * k) % q == a % q
  {
    assert a == q * (a / q) + a % q;
    assert a + q * k == q * (a / q + k) + a % q;
    ModIs(a + q * k, q, a / q + k, a % q);
  }

  lemma RingsDivide(q: nat) returns (c: nat)
    requires ValidNum(q)
    ensures q * c == TOP16
  {
    c := TOP16 / q;
  }

  // The ring's wrap and the counter's agree: a ring size divides 2^16.
  lemma SlotWraps(i: nat, j: nat, q: nat)
    requires ValidNum(q)
    ensures (i % TOP16 + j) % q == (i + j) % q
  {
    var c := RingsDivide(q);
    var d := i / TOP16;
    assert i + j == (i % TOP16 + j) + q * (c * d) by {
      assert (q * c) * d == q * (c * d);
    }
    ModShift(i % TOP16 + j, c * d, q);
  }

  lemma SlotsApart(i: nat, j: nat, q: nat)
    requires 0 < j < q
    ensures (i + j) % q != i % q
  {
    var r := i % q;
    assert i + j == (r + j) + q * (i / q);
    ModShift(r + j, i / q, q);
    if r + j < q {
      ModIs(r + j, q, 0, r + j);
    } else {
      ModIs(r + j, q, 1, r + j - q);
    }
  }

  lemma NextMod(u: nat, q: nat)
    requires q > 0
    ensures (u + 1) % q == (u % q + 1) % q
  {
    assert u + 1 == (u % q + 1) + q * (u / q);
    ModShift(u % q + 1, u / q, q);
  }

  // ---------- What is written ----------

  predicate In(s: Span, a: nat) { s.at <= a < s.at + s.len }

  predicate Covers(wrote: seq<Span>, a: nat) {
    exists i :: 0 <= i < |wrote| && In(wrote[i], a)
  }

  predicate SameAt(r: Ram, r': Ram, a: nat)
    requires r'.base == r.base && |r'.bytes| == |r.bytes|
  {
    r.base <= a < r.base + |r.bytes| ==> r'.bytes[a - r.base] == r.bytes[a - r.base]
  }

  // r' is r but for bytes of the spans.
  ghost predicate Kept(r: Ram, r': Ram, wrote: seq<Span>) {
    r'.base == r.base && |r'.bytes| == |r.bytes| && forall a :: SameAt(r, r', a) || Covers(wrote, a)
  }

  ghost predicate Free(wrote: seq<Span>, at: nat, len: nat) {
    forall a :: at <= a < at + len ==> !Covers(wrote, a)
  }

  lemma CoversAdd(s: seq<Span>, t: seq<Span>, a: nat)
    ensures Covers(s + t, a) <==> Covers(s, a) || Covers(t, a)
  {
    if Covers(s, a) {
      var i :| 0 <= i < |s| && In(s[i], a);
      assert In((s + t)[i], a);
    }
    if Covers(t, a) {
      var i :| 0 <= i < |t| && In(t[i], a);
      assert In((s + t)[|s| + i], a);
    }
  }

  lemma KeptChain(r: Ram, r1: Ram, r2: Ram, s: seq<Span>, t: seq<Span>)
    requires Kept(r, r1, s) && Kept(r1, r2, t)
    ensures Kept(r, r2, s + t)
  {
    forall a: nat ensures SameAt(r, r2, a) || Covers(s + t, a) {
      CoversAdd(s, t, a);
      assert SameAt(r, r1, a) || Covers(s, a);
      assert SameAt(r1, r2, a) || Covers(t, a);
    }
  }

  lemma PokeKeeps(r: Ram, at: nat, bs: seq<Byte>)
    requires InDram(r, at, |bs|)
    ensures Kept(r, Poke(r, at, bs), [Span(at, |bs|)]) && Peek(Poke(r, at, bs), at, |bs|) == bs
  {
    forall a: nat ensures SameAt(r, Poke(r, at, bs), a) || Covers([Span(at, |bs|)], a) {
      if at <= a < at + |bs| {
        assert In([Span(at, |bs|)][0], a);
      }
    }
  }

  lemma KeptAt(r: Ram, r': Ram, wrote: seq<Span>, a: nat)
    requires Kept(r, r', wrote) && !Covers(wrote, a)
    ensures SameAt(r, r', a)
  {
  }

  lemma PeekKept(r: Ram, r': Ram, wrote: seq<Span>, at: nat, len: nat)
    requires Kept(r, r', wrote) && InDram(r, at, len) && Free(wrote, at, len)
    ensures Peek(r', at, len) == Peek(r, at, len)
  {
    forall i | 0 <= i < len ensures Peek(r', at, len)[i] == Peek(r, at, len)[i] {
      KeptAt(r, r', wrote, at + i);
    }
  }

  lemma StoreKeeps(r: Ram, w: Walk, at: nat, bs: seq<Byte>, data: bool)
    requires Kept(r, w.ram, w.wrote) && InDram(w.ram, at, |bs|)
    ensures Kept(r, Store(w, at, bs, data).ram, Store(w, at, bs, data).wrote)
  {
    PokeKeeps(w.ram, at, bs);
    KeptChain(r, w.ram, Poke(w.ram, at, bs), w.wrote, [Span(at, |bs|)]);
  }

  lemma OneDescKeeps(r: Ram, w: Walk, d: Desc)
    requires Kept(r, w.ram, w.wrote) && OneDesc(w, d).Done?
    ensures Kept(r, OneDesc(w, d).value.ram, OneDesc(w, d).value.wrote)
  {
    hide Kept, Poke;
    var c := Count(w, d);
    if !w.first {
      if Writable(d) && d.len == 1 {
        StoreKeeps(r, c, d.addr, [StatusByte(w.kind)], false);
      } else if w.kind == IN {
        StoreKeeps(r, c, d.addr, c.disk[c.off..c.off + d.len], true);
      } else if w.kind == GET_ID {
        StoreKeeps(r, c, d.addr, [0], false);
      }
    }
  }

  lemma {:induction false} ChainKeeps(r: Ram, w: Walk, table: nat, count: nat, d: nat, chain: nat)
    requires Kept(r, w.ram, w.wrote)
    ensures var w' := Chain(w, table, count, d, chain).last; Kept(r, w'.ram, w'.wrote)
    decreases count - chain
  {
    hide Kept, OneDesc;
    if d < count && chain < count && InDram(w.ram, W64(table + 16 * d), 16) {
      var x := ReadDesc(Peek(w.ram, W64(table + 16 * d), 16));
      if OneDesc(w, x).Done? {
        OneDescKeeps(r, w, x);
        if More(x) {
          ChainKeeps(r, OneDesc(w, x).value, table, count, x.next, chain + 1);
        }
      }
    }
  }

  lemma {:induction false} EndIsLast(w: Walk, table: nat, count: nat, d: nat, chain: nat)
    ensures var t := Chain(w, table, count, d, chain); t.end.Done? ==> t.end.value == t.last
    decreases count - chain
  {
    hide OneDesc;
    if d < count && chain < count && InDram(w.ram, W64(table + 16 * d), 16) {
      var x := ReadDesc(Peek(w.ram, W64(table + 16 * d), 16));
      if OneDesc(w, x).Done? && More(x) {
        EndIsLast(OneDesc(w, x).value, table, count, x.next, chain + 1);
      }
    }
  }

  // The writes of one round: the buffers, the used entry, the used index.
  function RoundWrites(q: Queue, usedIdx: nat, s: Served): seq<Span>
    requires q.num > 0
  {
    s.buffers + [Span(UsedSlot(q, usedIdx), 8)] + [Span(W64(q.used + 2), 2)]
  }

  function AllWrites(q: Queue, usedIdx: nat, log: seq<Served>): seq<Span>
    requires q.num > 0
    decreases |log|
  {
    if |log| == 0 then []
    else RoundWrites(q, usedIdx, log[0]) + AllWrites(q, Next(usedIdx), log[1..])
  }

  lemma WalkedKeeps(q: Queue, ram: Ram, disk: seq<Byte>, head: nat)
    requires Walked(q, ram, disk, head).Done?
    ensures Kept(ram, Walked(q, ram, disk, head).value.ram, Walked(q, ram, disk, head).value.wrote)
  {
    hide OneDesc, Chain;
    var h := ReadDesc(Peek(ram, W64(q.desc + 16 * head), 16));
    if Indirect(h) {
      EndIsLast(Start(ram, disk), h.addr, h.len / 16, 0, 0);
      ChainKeeps(ram, Start(ram, disk), h.addr, h.len / 16, 0, 0);
    } else {
      EndIsLast(Start(ram, disk), q.desc, q.num, head, 0);
      ChainKeeps(ram, Start(ram, disk), q.desc, q.num, head, 0);
    }
  }

  // A round writes its buffers, its used entry and the used index, and those two hold what they should.
  lemma RoundKeeps(q: Queue, ram: Ram, disk: seq<Byte>, last: nat, usedIdx: nat)
    requires q.num > 0 && Serve(q, ram, disk, last, usedIdx).Done?
    ensures var b := Serve(q, ram, disk, last, usedIdx).value; var s := b.log[0]; var slot := UsedSlot(q, usedIdx);
      && Kept(ram, b.ram, RoundWrites(q, usedIdx, s))
      && s.head < TOP16 && InDram(b.ram, slot, 8) && InDram(b.ram, W64(q.used + 2), 2)
      && (q.used + 4 + 8 * q.num <= TOP64 ==> Peek(b.ram, slot, 8) == Bytes4(s.head) + Bytes4(s.len))
      && Peek(b.ram, W64(q.used + 2), 2) == Bytes2(Next(usedIdx))
  {
    hide Walked, Kept, Bytes4, Bytes2, Free;
    var b := Serve(q, ram, disk, last, usedIdx).value;
    var s := b.log[0];
    WalkedKeeps(q, ram, disk, s.head);
    var w := Walked(q, ram, disk, s.head).value;
    var slot, idx := UsedSlot(q, usedIdx), W64(q.used + 2);
    var entry, word := Bytes4(s.head) + Bytes4(s.len), Bytes2(Next(usedIdx));
    StoreKeeps(ram, w, slot, entry, false);
    StoreKeeps(ram, Store(w, slot, entry, false), idx, word, false);
    PokeKeeps(w.ram, slot, entry);
    PokeKeeps(Store(w, slot, entry, false).ram, idx, word);
    if q.used + 4 + 8 * q.num <= TOP64 {
      SlotClear(q, usedIdx);
      PeekKept(Store(w, slot, entry, false).ram, b.ram, [Span(idx, 2)], slot, 8);
    }
  }

  lemma SlotClear(q: Queue, i: nat)
    requires q.num > 0 && q.used + 4 + 8 * q.num <= TOP64
    ensures UsedSlot(q, i) == q.used + 4 + 8 * (i % q.num)
    ensures Free([Span(W64(q.used + 2), 2)], UsedSlot(q, i), 8)
  {
    var m := i % q.num;
    assert 0 <= m < q.num;
  }

  lemma {:induction false} NothingElseWritten(q: Queue, ram: Ram, disk: seq<Byte>, last: nat, usedIdx: nat, n: nat)
    requires q.num > 0 && ServeAll(q, ram, disk, last, usedIdx, n).Done?
    ensures var b := ServeAll(q, ram, disk, last, usedIdx, n).value;
      Kept(ram, b.ram, AllWrites(q, usedIdx, b.log))
    decreases n
  {
    hide Serve, Kept;
    if n == 0 {
      KeptSelf(ram);
    } else {
      var b := Serve(q, ram, disk, last, usedIdx).value;
      var rest := ServeAll(q, b.ram, b.disk, Next(last), Next(usedIdx), n - 1).value;
      NothingElseWritten(q, b.ram, b.disk, Next(last), Next(usedIdx), n - 1);
      RoundKeeps(q, ram, disk, last, usedIdx);
      assert (b.log + rest.log)[1..] == rest.log;
      KeptChain(ram, b.ram, rest.ram, RoundWrites(q, usedIdx, b.log[0]), AllWrites(q, Next(usedIdx), rest.log));
    }
  }

  lemma KeptSelf(r: Ram)
    ensures Kept(r, r, [])
  {
  }

  lemma FreeParts(s: seq<Span>, t: seq<Span>, at: nat, len: nat)
    ensures Free(s + t, at, len) <==> Free(s, at, len) && Free(t, at, len)
  {
    forall a: nat ensures Covers(s + t, a) <==> Covers(s, a) || Covers(t, a) {
      CoversAdd(s, t, a);
    }
  }

  // Heads are taken in ring order. A slot nothing writes to gives the head it held at the notification; the slot of
  // the k-th head follows on from the last across both wraps, the ring's and the 16-bit counter's.
  lemma {:induction false} HeadsInRingOrder(q: Queue, ram: Ram, disk: seq<Byte>, last: nat, usedIdx: nat, n: nat, k: nat)
    requires ValidNum(q.num) && k < n && ServeAll(q, ram, disk, last, usedIdx, n).Done?
    requires Free(AllWrites(q, usedIdx, ServeAll(q, ram, disk, last, usedIdx, n).value.log), AvailSlot(q, last + k), 2)
    ensures var b := ServeAll(q, ram, disk, last, usedIdx, n).value;
      && k < |b.log| && InDram(ram, AvailSlot(q, last + k), 2)
      && b.log[k].head == U16(Peek(ram, AvailSlot(q, last + k), 2))
    decreases n
  {
    hide Walked, Publish, Kept, Free, AvailSlot, Peek, U16, RoundWrites, Next;
    OneEntryPerHead(q, ram, disk, last, usedIdx, n);
    if k > 0 {
      hide Serve;
      var b := Serve(q, ram, disk, last, usedIdx).value;
      var rest := ServeAll(q, b.ram, b.disk, Next(last), Next(usedIdx), n - 1).value;
      var slot := AvailSlot(q, last + k);
      NextSlotOf(q, last, k);
      assert (b.log + rest.log)[1..] == rest.log;
      FreeParts(RoundWrites(q, usedIdx, b.log[0]), AllWrites(q, Next(usedIdx), rest.log), slot, 2);
      HeadsInRingOrder(q, b.ram, b.disk, Next(last), Next(usedIdx), n - 1, k - 1);
      RoundKeeps(q, ram, disk, last, usedIdx);
      SameDram(ram, b.ram, RoundWrites(q, usedIdx, b.log[0]), slot, 2);
    }
  }

  lemma NextSlotOf(q: Queue, i: nat, k: nat)
    requires ValidNum(q.num) && k > 0
    ensures AvailSlot(q, Next(i) + (k - 1)) == AvailSlot(q, i + k) && UsedSlot(q, Next(i) + (k - 1)) == UsedSlot(q, i + k)
  {
    SlotWraps(i + 1, k - 1, q.num);
  }

  lemma SameDram(r: Ram, r': Ram, wrote: seq<Span>, at: nat, len: nat)
    requires Kept(r, r', wrote) && Free(wrote, at, len) && InDram(r', at, len)
    ensures InDram(r, at, len) && Peek(r', at, len) == Peek(r, at, len)
  {
    PeekKept(r, r', wrote, at, len);
  }

  // The buffers of round `from` and those after it stay clear of the used entry of index i.
  ghost predicate Clear(q: Queue, log: seq<Served>, from: nat, i: nat)
    requires q.num > 0
  {
    forall j :: from <= j < |log| ==> Free(log[j].buffers, UsedSlot(q, i), 8)
  }

  // Later rounds, fewer than the ring has entries, leave a used entry alone.
  lemma {:induction false} EntryLasts(q: Queue, ram: Ram, disk: seq<Byte>, last: nat, usedIdx: nat, n: nat, i: nat, j: nat)
    requires ValidNum(q.num) && q.used + 4 + 8 * q.num <= TOP64 && ServeAll(q, ram, disk, last, usedIdx, n).Done?
    requires usedIdx % q.num == (i + j) % q.num && 0 < j && j + n <= q.num
    requires InDram(ram, UsedSlot(q, i), 8) && Clear(q, ServeAll(q, ram, disk, last, usedIdx, n).value.log, 0, i)
    ensures var b := ServeAll(q, ram, disk, last, usedIdx, n).value;
      InDram(b.ram, UsedSlot(q, i), 8) && Peek(b.ram, UsedSlot(q, i), 8) == Peek(ram, UsedSlot(q, i), 8)
    decreases n
  {
    hide Serve, Kept, Free;
    if n > 0 {
      var b := Serve(q, ram, disk, last, usedIdx).value;
      var rest := ServeAll(q, b.ram, b.disk, Next(last), Next(usedIdx), n - 1).value;
      assert forall m :: 0 <= m < |rest.log| ==> rest.log[m] == (b.log + rest.log)[m + 1];
      assert (b.log + rest.log)[0] == b.log[0];
      RoundKeeps(q, ram, disk, last, usedIdx);
      RoundClear(q, usedIdx, b.log[0], i, j);
      assert InDram(b.ram, UsedSlot(q, i), 8) by { KeptShape(ram, b.ram, RoundWrites(q, usedIdx, b.log[0])); }
      PeekKept(ram, b.ram, RoundWrites(q, usedIdx, b.log[0]), UsedSlot(q, i), 8);
      NextSlot(usedIdx, i, j, q.num);
      EntryLasts(q, b.ram, b.disk, Next(last), Next(usedIdx), n - 1, i, j + 1);
    }
  }

  lemma KeptShape(r: Ram, r': Ram, wrote: seq<Span>)
    requires Kept(r, r', wrote)
    ensures r'.base == r.base && |r'.bytes| == |r.bytes|
  {
  }

  lemma NextSlot(u: nat, i: nat, j: nat, q: nat)
    requires ValidNum(q) && u % q == (i + j) % q
    ensures Next(u) % q == (i + (j + 1)) % q
  {
    SlotWraps(u + 1, 0, q);
    NextMod(u, q);
    NextMod(i + j, q);
  }

  lemma RoundClear(q: Queue, u: nat, s: Served, i: nat, j: nat)
    requires ValidNum(q.num) && q.used + 4 + 8 * q.num <= TOP64 && Free(s.buffers, UsedSlot(q, i), 8)
    requires u % q.num == (i + j) % q.num && 0 < j < q.num
    ensures Free(RoundWrites(q, u, s), UsedSlot(q, i), 8)
  {
    var slot := UsedSlot(q, i);
    SlotClear(q, i);
    SlotClear(q, u);
    SlotsApart(i, j, q.num);
    FreeParts(s.buffers, [Span(UsedSlot(q, u), 8)], slot, 8);
    FreeParts(s.buffers + [Span(UsedSlot(q, u), 8)], [Span(W64(q.used + 2), 2)], slot, 8);
  }

  // The first head's entry is there after its round, and lasts.
  lemma FirstEntry(q: Queue, ram: Ram, disk: seq<Byte>, last: nat, usedIdx: nat, n: nat)
    requires ValidNum(q.num) && q.used + 4 + 8 * q.num <= TOP64 && 0 < n <= q.num
    requires ServeAll(q, ram, disk, last, usedIdx, n).Done?
    requires Clear(q, ServeAll(q, ram, disk, last, usedIdx, n).value.log, 1, usedIdx)
    ensures var b := ServeAll(q, ram, disk, last, usedIdx, n).value;
      && |b.log| > 0 && b.log[0].head < TOP16 && InDram(b.ram, UsedSlot(q, usedIdx), 8)
      && Peek(b.ram, UsedSlot(q, usedIdx), 8) == Bytes4(b.log[0].head) + Bytes4(b.log[0].len)
  {
    hide Serve, Kept, Free, Bytes4, Peek, UsedSlot, AvailSlot, Next, RoundWrites, ValidNum, U16;
    var b := Serve(q, ram, disk, last, usedIdx).value;
    var rest := ServeAll(q, b.ram, b.disk, Next(last), Next(usedIdx), n - 1).value;
    assert forall m :: 0 <= m < |rest.log| ==> rest.log[m] == (b.log + rest.log)[m + 1];
    RoundKeeps(q, ram, disk, last, usedIdx);
    NextSlot(usedIdx, usedIdx, 0, q.num);
    EntryLasts(q, b.ram, b.disk, Next(last), Next(usedIdx), n - 1, usedIdx, 1);
  }

  // When a notification is over, each of the last `num` heads it took has its entry in the used ring, at the slots
  // that follow the old used index, and the index is past them.
  lemma {:induction false} UsedRingHoldsLog(q: Queue, ram: Ram, disk: seq<Byte>, last: nat, usedIdx: nat, n: nat, k: nat)
    requires ValidNum(q.num) && q.used + 4 + 8 * q.num <= TOP64 && k < n <= k + q.num
    requires ServeAll(q, ram, disk, last, usedIdx, n).Done?
    requires Clear(q, ServeAll(q, ram, disk, last, usedIdx, n).value.log, k + 1, usedIdx + k)
    ensures var b := ServeAll(q, ram, disk, last, usedIdx, n).value;
      && k < |b.log| && b.log[k].head < TOP16 && InDram(b.ram, UsedSlot(q, usedIdx + k), 8)
      && Peek(b.ram, UsedSlot(q, usedIdx + k), 8) == Bytes4(b.log[k].head) + Bytes4(b.log[k].len)
    decreases n
  {
    hide Serve, Free, Bytes4, Peek, UsedSlot, Next, ValidNum, U16;
    if k == 0 {
      FirstEntry(q, ram, disk, last, usedIdx, n);
    } else {
      var b := Serve(q, ram, disk, last, usedIdx).value;
      var rest := ServeAll(q, b.ram, b.disk, Next(last), Next(usedIdx), n - 1).value;
      assert forall m :: 0 <= m < |rest.log| ==> rest.log[m] == (b.log + rest.log)[m + 1];
      NextSlotOf(q, usedIdx, k);
      UsedRingHoldsLog(q, b.ram, b.disk, Next(last), Next(usedIdx), n - 1, k - 1);
    }
  }

  lemma {:induction false} IndexPublished(q: Queue, ram: Ram, disk: seq<Byte>, last: nat, usedIdx: nat, n: nat)
    requires q.num > 0 && n > 0 && ServeAll(q, ram, disk, last, usedIdx, n).Done?
    ensures var b := ServeAll(q, ram, disk, last, usedIdx, n).value;
      InDram(b.ram, W64(q.used + 2), 2) && U16(Peek(b.ram, W64(q.used + 2), 2)) == After(usedIdx, n)
    decreases n
  {
    hide Serve, Kept;
    var b := Serve(q, ram, disk, last, usedIdx).value;
    if n == 1 {
      RoundKeeps(q, ram, disk, last, usedIdx);
    } else {
      IndexPublished(q, b.ram, b.disk, Next(last), Next(usedIdx), n - 1);
    }
  }

  // Section 2.6 in addresses: the available ring starts with two 16-bit words, the second its index, and then holds
  // 16-bit heads.
  lemma HeadMeaning(q: Queue, ram: Ram, disk: seq<Byte>, last: nat, usedIdx: nat, n: nat, k: nat, b: Batch, at: nat)
    requires ValidNum(q.num) && q.avail + 4 + 2 * q.num <= TOP64 && at == q.avail + 4 + 2 * ((last + k) % q.num)
    requires k < n && ServeAll(q, ram, disk, last, usedIdx, n) == Done(b) && Free(AllWrites(q, usedIdx, b.log), at, 2)
    ensures k < |b.log| && InDram(ram, at, 2) && b.log[k].head == Number(Peek(ram, at, 2))
  {
    hide *;
    AvailMeaning(q, last + k);
    HeadsInRingOrder(q, ram, disk, last, usedIdx, n, k);
    U16Is(Peek(ram, at, 2));
  }

  // The used ring starts the same way and then holds 8-byte entries of a head and a length.
  lemma EntryMeaning(q: Queue, ram: Ram, disk: seq<Byte>, last: nat, usedIdx: nat, n: nat, k: nat, b: Batch, at: nat)
    requires ValidNum(q.num) && q.used + 4 + 8 * q.num <= TOP64 && at == q.used + 4 + 8 * ((usedIdx + k) % q.num)
    requires k < n <= k + q.num && ServeAll(q, ram, disk, last, usedIdx, n) == Done(b)
    requires forall j :: k < j < |b.log| ==> Free(b.log[j].buffers, at, 8)
    ensures k < |b.log| && InDram(b.ram, at, 8)
    ensures b.log[k].head == Number(Peek(b.ram, at, 4)) && b.log[k].len == Number(Peek(b.ram, at + 4, 4))
  {
    hide *;
    UsedMeaning(q, usedIdx + k);
    ClearIs(q, b.log, k + 1, usedIdx + k);
    UsedRingHoldsLog(q, ram, disk, last, usedIdx, n, k);
    EntryBytes(b.ram, at, b.log[k].head, b.log[k].len);
  }

  lemma IndexMeaning(q: Queue, ram: Ram, disk: seq<Byte>, last: nat, usedIdx: nat, n: nat, b: Batch, at: nat)
    requires q.num > 0 && n > 0 && at == q.used + 2 < TOP64 && ServeAll(q, ram, disk, last, usedIdx, n) == Done(b)
    ensures InDram(b.ram, at, 2) && Number(Peek(b.ram, at, 2)) == (usedIdx + n) % 0x1_0000
  {
    hide *;
    W64Is(at);
    AfterIs(usedIdx, n);
    IndexPublished(q, ram, disk, last, usedIdx, n);
    U16Is(Peek(b.ram, at, 2));
  }

  // A notification goes on up to the available index in memory.
  lemma AvailIndexMeaning(v: Dev, at: nat)
    requires v.last < TOP16 && v.ready && v.hasDisk && v.q.num > 0 && Notify(v).Done? && at == v.q.avail + 2 < TOP64
    ensures InDram(v.ram, at, 2) && Notify(v).value.last == Number(Peek(v.ram, at, 2))
  {
    hide *;
    W64Is(at);
    TakesUpToIndex(v);
    U16Is(Peek(v.ram, at, 2));
  }

  lemma ClearIs(q: Queue, log: seq<Served>, from: nat, i: nat)
    requires q.num > 0 && forall j :: from <= j < |log| ==> Free(log[j].buffers, UsedSlot(q, i), 8)
    ensures Clear(q, log, from, i)
  {
  }

  lemma AfterIs(i: nat, n: nat)
    ensures After(i, n) == (i + n) % 0x1_0000
  {
  }

  lemma W64Is(at: nat)
    requires at < TOP64
    ensures W64(at) == at
  {
  }

  lemma AvailMeaning(q: Queue, i: nat)
    requires ValidNum(q.num) && q.avail + 4 + 2 * q.num <= TOP64
    ensures AvailSlot(q, i) == q.avail + 4 + 2 * (i % q.num)
  {
    var m := i % q.num;
    assert 0 <= m < q.num;
  }

  lemma UsedMeaning(q: Queue, i: nat)
    requires ValidNum(q.num) && q.used + 4 + 8 * q.num <= TOP64
    ensures UsedSlot(q, i) == q.used + 4 + 8 * (i % q.num)
  {
    var m := i % q.num;
    assert 0 <= m < q.num;
  }

  lemma EntryBytes(r: Ram, at: nat, head: nat, len: Word)
    requires InDram(r, at, 8) && head < TOP16 && Peek(r, at, 8) == Bytes4(head) + Bytes4(len)
    ensures Number(Peek(r, at, 4)) == head && Number(Peek(r, at + 4, 4)) == len
  {
    hide Bytes4, Number;
    assert Peek(r, at, 4) == Peek(r, at, 8)[..4] == Bytes4(head);
    assert Peek(r, at + 4, 4) == Peek(r, at, 8)[4..] == Bytes4(len);
    U32Is(Bytes4(head));
    U32Is(Bytes4(len));
  }

  // ---------- The chain ----------

  // The bytes of the descriptors the device may write.
  function WritableSum(seen: seq<Desc>): nat {
    if |seen| == 0 then 0
    else
      var d := seen[|seen| - 1];
      WritableSum(seen[..|seen| - 1]) + if Writable(d) then d.len else 0
  }

  // The descriptors followed one from the other: all but the last say there is more, none is indirect.
  predicate Follows(seen: seq<Desc>, i: nat)
    requires i < |seen|
  {
    !Indirect(seen[i]) && (i + 1 < |seen| ==> More(seen[i]))
  }

  ghost predicate Tallied(w: Walk) {
    w.used == WritableSum(w.seen) % TOP32
  }

  lemma OneDescTallies(w: Walk, d: Desc)
    requires Tallied(w) && OneDesc(w, d).Done?
    ensures Tallied(OneDesc(w, d).value) && OneDesc(w, d).value.seen == w.seen + [d] && !Indirect(d)
  {
    hide Peek, Poke, U32, U64, InDram, Splice;
    assert (w.seen + [d])[..|w.seen|] == w.seen;
  }

  // The length a request reports is the total its chain lets the device write, modulo 2^32, over at most `count`
  // descriptors of which the last alone ends the chain.
  lemma {:induction false} LengthIsWritableSum(w: Walk, table: nat, count: nat, d: nat, chain: nat)
    requires Tallied(w) && |w.seen| == chain && Chain(w, table, count, d, chain).end.Done?
    requires forall i: nat :: i < |w.seen| ==> !Indirect(w.seen[i]) && More(w.seen[i])
    ensures var w' := Chain(w, table, count, d, chain).end.value;
      && Tallied(w') && 0 < |w'.seen| <= count && !More(w'.seen[|w'.seen| - 1])
      && forall i: nat :: i < |w'.seen| ==> Follows(w'.seen, i)
    decreases count - chain
  {
    hide OneDesc, Tallied, ReadDesc, Peek, More, Indirect, W64;
    var x := ReadDesc(Peek(w.ram, W64(table + 16 * d), 16));
    var w1 := OneDesc(w, x).value;
    OneDescTallies(w, x);
    if More(x) {
      LengthIsWritableSum(w1, table, count, x.next, chain + 1);
    }
  }

  lemma WalkedTallies(q: Queue, ram: Ram, disk: seq<Byte>, head: nat)
    requires Walked(q, ram, disk, head).Done?
    ensures Tallied(Walked(q, ram, disk, head).value)
  {
    hide Chain, OneDesc, Peek, ReadDesc, W64, Indirect;
    var h := ReadDesc(Peek(ram, W64(q.desc + 16 * head), 16));
    if Indirect(h) {
      LengthIsWritableSum(Start(ram, disk), h.addr, h.len / 16, 0, 0);
    } else {
      LengthIsWritableSum(Start(ram, disk), q.desc, q.num, head, 0);
    }
  }

  // Every used entry of a notification reports that total.
  lemma {:induction false} EveryLengthReported(q: Queue, ram: Ram, disk: seq<Byte>, last: nat, usedIdx: nat, n: nat, k: nat)
    requires q.num > 0 && k < n && ServeAll(q, ram, disk, last, usedIdx, n).Done?
    ensures var log := ServeAll(q, ram, disk, last, usedIdx, n).value.log;
      k < |log| && log[k].len == WritableSum(log[k].seen) % TOP32
    decreases n
  {
    hide Walked, Publish, WritableSum, Peek, U16, AvailSlot, Next;
    OneEntryPerHead(q, ram, disk, last, usedIdx, n);
    if k == 0 {
      WalkedTallies(q, ram, disk, U16(Peek(ram, AvailSlot(q, last), 2)));
    } else {
      hide Serve;
      var b := Serve(q, ram, disk, last, usedIdx).value;
      EveryLengthReported(q, b.ram, b.disk, Next(last), Next(usedIdx), n - 1, k - 1);
    }
  }

  // What passed to or from the disk is one run of it, starting at the sector asked for.
  predicate DiskOk(disk: seq<Byte>, w: Walk) {
    if w.first then w.disk == disk && w.moved == []
    else if w.kind == IN then
      |w.moved| <= w.off <= |disk| && w.disk == disk && w.moved == disk[w.off - |w.moved|..w.off]
    else if w.kind == OUT then
      |w.moved| <= w.off <= |disk| && w.disk == Splice(disk, w.off - |w.moved|, w.moved)
    else w.disk == disk && w.moved == []
  }

  lemma SpliceMore(s: seq<Byte>, at: nat, bs: seq<Byte>, cs: seq<Byte>)
    requires at + |bs| + |cs| <= |s|
    ensures Splice(Splice(s, at, bs), at + |bs|, cs) == Splice(s, at, bs + cs)
  {
    var l, r := Splice(Splice(s, at, bs), at + |bs|, cs), Splice(s, at, bs + cs);
    forall i | 0 <= i < |s| ensures l[i] == r[i] {
      if at <= i < at + |bs| {
        assert r[at..at + |bs + cs|][i - at] == bs[i - at];
        assert Splice(s, at, bs)[at..at + |bs|][i - at] == bs[i - at];
      } else if at + |bs| <= i < at + |bs| + |cs| {
        assert r[at..at + |bs + cs|][i - at] == cs[i - at - |bs|];
        assert l[at + |bs|..at + |bs| + |cs|][i - at - |bs|] == cs[i - at - |bs|];
      }
    }
  }

  lemma OneDescDisk(disk: seq<Byte>, w: Walk, d: Desc)
    requires DiskOk(disk, w) && OneDesc(w, d).Done?
    ensures DiskOk(disk, OneDesc(w, d).value)
  {
    hide DiskOk, Poke, Header, Data, Peek;
    var c := Count(w, d);
    CountDisk(disk, w, d);
    if w.first {
      HeaderDisk(disk, c, d);
    } else if Writable(d) && d.len == 1 {
      StoreDisk(disk, c, d.addr, [StatusByte(w.kind)], false);
    } else {
      DataDisk(disk, c, d);
    }
  }

  lemma CountDisk(disk: seq<Byte>, w: Walk, d: Desc)
    requires DiskOk(disk, w)
    ensures DiskOk(disk, Count(w, d))
  {
  }

  lemma StoreDisk(disk: seq<Byte>, w: Walk, at: nat, bs: seq<Byte>, data: bool)
    requires DiskOk(disk, w) && InDram(w.ram, at, |bs|)
    ensures DiskOk(disk, Store(w, at, bs, data))
  {
  }

  lemma HeaderDisk(disk: seq<Byte>, w: Walk, d: Desc)
    requires DiskOk(disk, w) && w.first && Header(w, d).Done?
    ensures DiskOk(disk, Header(w, d).value)
  {
    hide U32, U64, Peek;
    var off := Header(w, d).value.off;
    assert off <= |disk|;
    assert Splice(disk, off, []) == disk;
  }

  lemma DataDisk(disk: seq<Byte>, w: Walk, d: Desc)
    requires DiskOk(disk, w) && !w.first && Data(w, d).Done?
    ensures DiskOk(disk, Data(w, d).value)
  {
    hide Poke, Peek;
    if w.kind == OUT {
      var bs := Peek(w.ram, d.addr, d.len);
      SpliceMore(disk, w.off - |w.moved|, w.moved, bs);
      assert |Data(w, d).value.moved| == |w.moved| + d.len;
    }
  }

  lemma {:induction false} TransfersOneRun(disk: seq<Byte>, w: Walk, table: nat, count: nat, d: nat, chain: nat)
    requires DiskOk(disk, w)
    ensures DiskOk(disk, Chain(w, table, count, d, chain).last)
    decreases count - chain
  {
    hide OneDesc, DiskOk;
    if d < count && chain < count && InDram(w.ram, W64(table + 16 * d), 16) {
      var x := ReadDesc(Peek(w.ram, W64(table + 16 * d), 16));
      if OneDesc(w, x).Done? {
        OneDescDisk(disk, w, x);
        if More(x) {
          TransfersOneRun(disk, OneDesc(w, x).value, table, count, x.next, chain + 1);
        }
      }
    }
  }

  // A read of the bytes a write has just stored gives them back, however either cuts them into buffers.
  lemma ReadsBackWhatWasWritten(disk: seq<Byte>, ram: Ram, t: nat, n: nat, d: nat, ram': Ram, t': nat, n': nat, d': nat)
    requires var a := Chain(Start(ram, disk), t, n, d, 0).end;
      && a.Done? && a.value.kind == OUT
      && var b := Chain(Start(ram', a.value.disk), t', n', d', 0).end;
        b.Done? && b.value.kind == IN && b.value.off == a.value.off && |b.value.moved| == |a.value.moved|
    ensures var a := Chain(Start(ram, disk), t, n, d, 0).end.value;
      Chain(Start(ram', a.disk), t', n', d', 0).end.value.moved == a.moved
  {
    hide Chain;
    var a := Chain(Start(ram, disk), t, n, d, 0).end.value;
    EndIsLast(Start(ram, disk), t, n, d, 0);
    TransfersOneRun(disk, Start(ram, disk), t, n, d, 0);
    EndIsLast(Start(ram', a.disk), t', n', d', 0);
    TransfersOneRun(a.disk, Start(ram', a.disk), t', n', d', 0);
  }

  // ---------- What a request does to its buffers ----------

  // Put i is still in memory, unless a later one fell on it.
  ghost predicate PutStays(w: Walk, i: nat)
    requires i < |w.puts| == |w.wrote|
  {
    var put := w.puts[i];
    Free(w.wrote[i + 1..], put.at, |put.bytes|) ==>
      InDram(w.ram, put.at, |put.bytes|) && Peek(w.ram, put.at, |put.bytes|) == put.bytes
  }

  ghost predicate PutsStay(w: Walk) {
    |w.wrote| == |w.puts| && forall i: nat :: i < |w.puts| ==> PutStays(w, i)
  }

  // The disk bytes among the puts, in order.
  function Gathered(puts: seq<Put>): seq<Byte> {
    if |puts| == 0 then []
    else
      var put := puts[|puts| - 1];
      Gathered(puts[..|puts| - 1]) + if put.data then put.bytes else []
  }

  // Put i fills the buffer of the descriptor after the header's i-th, with a status byte if it has no data.
  predicate Fills(w: Walk, i: nat)
    requires i < |w.puts| && i + 1 < |w.seen|
  {
    var put, d := w.puts[i], w.seen[i + 1];
    put.at == d.addr && |put.bytes| == d.len && (put.data || put.bytes == [0])
  }

  ghost predicate Filled(w: Walk) {
    (w.first ==> w.puts == [] && w.seen == [] && w.moved == []) &&
    (!w.first && w.kind == IN ==> |w.puts| + 1 == |w.seen| && Gathered(w.puts) == w.moved &&
                                  forall i: nat :: i < |w.puts| ==> Fills(w, i))
  }

  // The kind and the sector are those of the header, as it stood in DRAM.
  predicate FromHeader(ram: Ram, w: Walk) {
    if w.first then w.ram == ram && w.seen == [] && w.moved == []
    else
      && |w.seen| > 0 && InDram(ram, w.seen[0].addr, 16)
      && w.kind == U32(Peek(ram, w.seen[0].addr, 4))
      && (w.kind == IN || w.kind == OUT ==> w.off == 512 * U64(Peek(ram, w.seen[0].addr + 8, 8)) + |w.moved|)
  }

  predicate IsStatus(d: Desc) { Writable(d) && d.len == 1 }

  // The buffers of the descriptors after the header, as they stood in DRAM, one after another.
  function Buffers(ram: Ram, seen: seq<Desc>): seq<Byte> {
    if |seen| <= 1 then []
    else
      var d := seen[|seen| - 1];
      Buffers(ram, seen[..|seen| - 1]) + if IsStatus(d) || !InDram(ram, d.addr, d.len) then [] else Peek(ram, d.addr, d.len)
  }

  // Nothing the walk wrote fell on a data buffer.
  ghost predicate BuffersFree(w: Walk) {
    forall j :: 0 < j < |w.seen| && !IsStatus(w.seen[j]) ==> Free(w.wrote, w.seen[j].addr, w.seen[j].len)
  }

  ghost predicate Sent(ram: Ram, w: Walk) {
    (if w.first then w.seen == [] && w.moved == [] else |w.seen| > 0) &&
    (!w.first && w.kind == OUT && BuffersFree(w) ==> w.moved == Buffers(ram, w.seen))
  }

  ghost predicate Account(ram: Ram, w: Walk) {
    Kept(ram, w.ram, w.wrote) && PutsStay(w) && Filled(w) && FromHeader(ram, w) && Sent(ram, w)
  }

  lemma StoreStays(w: Walk, at: nat, bs: seq<Byte>, data: bool)
    requires PutsStay(w) && InDram(w.ram, at, |bs|)
    ensures PutsStay(Store(w, at, bs, data))
  {
    hide Poke, Free, Kept, Peek;
    var w' := Store(w, at, bs, data);
    PokeKeeps(w.ram, at, bs);
    forall i: nat | i < |w'.puts| ensures PutStays(w', i) {
      if i == |w.puts| {
        KeptShape(w.ram, w'.ram, [Span(at, |bs|)]);
      } else {
        var put := w.puts[i];
        assert w'.wrote[i + 1..] == w.wrote[i + 1..] + [Span(at, |bs|)];
        FreeParts(w.wrote[i + 1..], [Span(at, |bs|)], put.at, |put.bytes|);
        assert PutStays(w, i);
        if Free(w'.wrote[i + 1..], put.at, |put.bytes|) {
          PeekKept(w.ram, w'.ram, [Span(at, |bs|)], put.at, |put.bytes|);
          KeptShape(w.ram, w'.ram, [Span(at, |bs|)]);
        }
      }
    }
  }

  lemma SameStays(w: Walk, w': Walk)
    requires PutsStay(w) && w'.puts == w.puts && w'.wrote == w.wrote && w'.ram == w.ram
    ensures PutsStay(w')
  {
    hide Free, Peek, InDram;
    forall i: nat | i < |w'.puts| ensures PutStays(w', i) {
      assert PutStays(w, i);
    }
  }

  lemma OneDescStays(w: Walk, d: Desc)
    requires PutsStay(w) && OneDesc(w, d).Done?
    ensures PutsStay(OneDesc(w, d).value)
  {
    hide PutsStay, Poke, Peek;
    var c, w' := Count(w, d), OneDesc(w, d).value;
    SameStays(w, c);
    if w.first {
      SameStays(c, w');
    } else if Writable(d) && d.len == 1 {
      StoreStays(c, d.addr, [StatusByte(w.kind)], false);
    } else if w.kind == IN {
      StoreStays(c, d.addr, c.disk[c.off..c.off + d.len], true);
      SameStays(Store(c, d.addr, c.disk[c.off..c.off + d.len], true), w');
    } else if w.kind == GET_ID {
      StoreStays(c, d.addr, [0], false);
      SameStays(Store(c, d.addr, [0], false), w');
    } else {
      SameStays(c, w');
    }
  }

  lemma GatheredMore(puts: seq<Put>, put: Put)
    ensures Gathered(puts + [put]) == Gathered(puts) + if put.data then put.bytes else []
  {
    assert (puts + [put])[..|puts|] == puts;
  }

  lemma OneDescFills(w: Walk, d: Desc)
    requires Filled(w) && OneDesc(w, d).Done?
    ensures Filled(OneDesc(w, d).value)
  {
    hide Poke, Peek, Gathered, InDram;
    var w' := OneDesc(w, d).value;
    if w.first {
      assert Gathered(w'.puts) == [] by { GatheredNone(); }
    } else if w.kind == IN {
      var put := w'.puts[|w.puts|];
      assert w'.puts == w.puts + [put] && w'.seen == w.seen + [d];
      GatheredMore(w.puts, put);
      forall i: nat | i < |w'.puts| ensures Fills(w', i) {
        if i < |w.puts| {
          assert Fills(w, i);
        }
      }
    }
  }

  lemma GatheredNone()
    ensures Gathered([]) == []
  {
  }

  lemma OneDescHeader(ram: Ram, w: Walk, d: Desc)
    requires FromHeader(ram, w) && OneDesc(w, d).Done?
    ensures FromHeader(ram, OneDesc(w, d).value)
  {
    hide Poke, U32, U64;
    var w' := OneDesc(w, d).value;
    assert w'.seen == w.seen + [d];
    if w.first {
      var bs := Peek(ram, d.addr, d.len);
      assert bs[..4] == Peek(ram, d.addr, 4) && bs[8..16] == Peek(ram, d.addr + 8, 8);
    } else {
      assert w'.seen[0] == w.seen[0];
    }
  }

  lemma BuffersFreeBefore(w: Walk, w': Walk, d: Desc)
    requires BuffersFree(w') && w'.seen == w.seen + [d] && w.wrote <= w'.wrote
    ensures BuffersFree(w)
  {
    hide Free;
    forall j | 0 < j < |w.seen| && !IsStatus(w.seen[j]) ensures Free(w.wrote, w.seen[j].addr, w.seen[j].len) {
      assert w'.seen[j] == w.seen[j];
      assert w'.wrote == w.wrote + w'.wrote[|w.wrote|..];
      FreeParts(w.wrote, w'.wrote[|w.wrote|..], w.seen[j].addr, w.seen[j].len);
    }
  }

  lemma OneDescSends(ram: Ram, w: Walk, d: Desc)
    requires Sent(ram, w) && Kept(ram, w.ram, w.wrote) && OneDesc(w, d).Done?
    ensures Sent(ram, OneDesc(w, d).value)
  {
    hide OneDesc, Free, Kept, BuffersFree, Buffers, IsStatus, Peek, InDram;
    var w' := OneDesc(w, d).value;
    SameRequest(w, d);
    if w.first {
      OneBuffer(ram, d);
    } else if w.kind == OUT && BuffersFree(w') {
      OneDescGrows(w, d);
      BuffersFreeBefore(w, w', d);
      SeenNext(ram, w, w', d);
    }
  }

  lemma SameRequest(w: Walk, d: Desc)
    requires OneDesc(w, d).Done?
    ensures var w' := OneDesc(w, d).value;
      !w'.first && w'.seen == w.seen + [d] && if w.first then w'.moved == w.moved else w'.kind == w.kind
  {
    hide Poke, Peek, U32, U64, Splice;
  }

  lemma OneBuffer(ram: Ram, d: Desc)
    ensures Buffers(ram, [] + [d]) == []
  {
  }

  // The buffer a write sends is as it stood.
  lemma SeenNext(ram: Ram, w: Walk, w': Walk, d: Desc)
    requires OneDesc(w, d) == Done(w') && !w.first && w.kind == OUT && w'.seen == w.seen + [d] && |w.seen| > 0
    requires Kept(ram, w.ram, w.wrote) && BuffersFree(w')
    ensures w'.moved == w.moved + if IsStatus(d) || !InDram(ram, d.addr, d.len) then [] else Peek(ram, d.addr, d.len)
    ensures Buffers(ram, w'.seen) ==
      Buffers(ram, w.seen) + if IsStatus(d) || !InDram(ram, d.addr, d.len) then [] else Peek(ram, d.addr, d.len)
  {
    hide Poke, Free, Kept;
    assert w'.seen[..|w.seen|] == w.seen;
    if !IsStatus(d) {
      assert w'.seen[|w.seen|] == d;
      assert w'.wrote == w.wrote;
      SameDram(ram, w.ram, w.wrote, d.addr, d.len);
    }
  }

  lemma {:induction false} ChainAccounts(ram: Ram, w: Walk, table: nat, count: nat, d: nat, chain: nat)
    requires Account(ram, w)
    ensures Account(ram, Chain(w, table, count, d, chain).last)
    decreases count - chain
  {
    hide OneDesc, Kept, PutsStay, Filled, FromHeader, Sent;
    if d < count && chain < count && InDram(w.ram, W64(table + 16 * d), 16) {
      var x := ReadDesc(Peek(w.ram, W64(table + 16 * d), 16));
      if OneDesc(w, x).Done? {
        OneDescKeeps(ram, w, x);
        OneDescStays(w, x);
        OneDescFills(w, x);
        OneDescHeader(ram, w, x);
        OneDescSends(ram, w, x);
        if More(x) {
          ChainAccounts(ram, OneDesc(w, x).value, table, count, x.next, chain + 1);
        }
      }
    }
  }

  lemma StartAccounts(ram: Ram, disk: seq<Byte>)
    ensures Account(ram, Start(ram, disk))
  {
    KeptSelf(ram);
  }

  // A read fills the buffers after its header, in chain order, with one run of the disk that starts at the header's
  // sector. What it put stays unless a later buffer of the same request overlaps it.
  lemma ReadFillsBuffers(ram: Ram, disk: seq<Byte>, table: nat, count: nat, d: nat, w: Walk)
    requires Chain(Start(ram, disk), table, count, d, 0).end == Done(w) && w.kind == IN
    ensures |w.seen| == |w.puts| + 1 && InDram(ram, w.seen[0].addr, 16)
    ensures forall i: nat :: i < |w.puts| ==> Fills(w, i)
    ensures PutsStay(w)
    ensures var start := 512 * U64(Peek(ram, w.seen[0].addr + 8, 8));
      start <= w.off <= |disk| && Gathered(w.puts) == disk[start..w.off] && w.disk == disk
  {
    hide Chain, Kept, PutsStay, Sent, Gathered, Fills, U64, U32, Peek, Splice;
    Finished(ram, disk, table, count, d, w);
  }

  // A write stores the buffers after its header, in chain order, in one run of the disk that starts at the header's
  // sector, and changes nothing else there, unless a status byte falls on one of its buffers.
  lemma WriteStoresBuffers(ram: Ram, disk: seq<Byte>, table: nat, count: nat, d: nat, w: Walk)
    requires Chain(Start(ram, disk), table, count, d, 0).end == Done(w) && w.kind == OUT && BuffersFree(w)
    ensures |w.seen| > 0 && InDram(ram, w.seen[0].addr, 16)
    ensures var start, bs := 512 * U64(Peek(ram, w.seen[0].addr + 8, 8)), Buffers(ram, w.seen);
      start + |bs| <= |disk| && w.disk == Splice(disk, start, bs)
  {
    hide Chain, Kept, PutsStay, Filled, BuffersFree, U64, U32, Peek, Buffers, Splice;
    Finished(ram, disk, table, count, d, w);
  }

  lemma Finished(ram: Ram, disk: seq<Byte>, table: nat, count: nat, d: nat, w: Walk)
    requires Chain(Start(ram, disk), table, count, d, 0).end == Done(w)
    ensures Account(ram, w) && DiskOk(disk, w) && !w.first
  {
    hide Chain, Account, DiskOk;
    StartAccounts(ram, disk);
    EndIsLast(Start(ram, disk), table, count, d, 0);
    ChainAccounts(ram, Start(ram, disk), table, count, d, 0);
    StartDisk(ram, disk);
    TransfersOneRun(disk, Start(ram, disk), table, count, d, 0);
    PastHeader(Start(ram, disk), table, count, d, 0);
  }

  lemma StartDisk(ram: Ram, disk: seq<Byte>)
    ensures DiskOk(disk, Start(ram, disk))
  {
  }

  lemma {:induction false} PastHeader(w: Walk, table: nat, count: nat, d: nat, chain: nat)
    requires Chain(w, table, count, d, chain).end.Done?
    ensures !Chain(w, table, count, d, chain).end.value.first
    decreases count - chain
  {
    hide OneDesc, Peek, ReadDesc, More;
    var x := ReadDesc(Peek(w.ram, W64(table + 16 * d), 16));
    SameRequest(w, x);
    if More(x) {
      PastHeader(OneDesc(w, x).value, table, count, x.next, chain + 1);
    }
  }

  // ---------- The bound on the chain ----------

  function TableOf(r: Ram, table: nat, count: nat): (t: seq<Desc>)
    requires InDram(r, table, 16 * count)
  {
    seq(count, i requires 0 <= i < count => ReadDesc(Peek(r, table + 16 * i, 16)))
  }

  // The i-th descriptor of the chain that starts at d.
  function Nth(t: seq<Desc>, d: nat, i: nat): nat {
    if i == 0 then d
    else var p := Nth(t, d, i - 1); if p < |t| then t[p].next else p
  }

  predicate Goes(t: seq<Desc>, d: nat, i: nat) {
    Nth(t, d, i) < |t| && More(t[Nth(t, d, i)])
  }

  // The chain ends at its i-th descriptor.
  predicate Ends(t: seq<Desc>, d: nat, i: nat) {
    (forall j: nat :: j < i ==> Goes(t, d, j)) && Nth(t, d, i) < |t| && !More(t[Nth(t, d, i)])
  }

  lemma {:induction false} SameFrom(t: seq<Desc>, d: nat, a: nat, b: nat, k: nat)
    requires Nth(t, d, a) == Nth(t, d, b)
    ensures Nth(t, d, a + k) == Nth(t, d, b + k)
    decreases k
  {
    if k > 0 {
      SameFrom(t, d, a, b, k - 1);
    }
  }

  function Visited(t: seq<Desc>, d: nat, n: nat): set<nat> {
    if n == 0 then {} else Visited(t, d, n - 1) + {Nth(t, d, n - 1)}
  }

  lemma {:induction false} InVisited(t: seq<Desc>, d: nat, n: nat, x: nat)
    requires x in Visited(t, d, n)
    ensures exists j :: 0 <= j < n && Nth(t, d, j) == x
  {
    if n > 0 && x != Nth(t, d, n - 1) {
      InVisited(t, d, n - 1, x);
    }
  }

  lemma GoesUntil(t: seq<Desc>, d: nat, i: nat, j: nat)
    requires Ends(t, d, i) && j < i
    ensures Goes(t, d, j)
  {
  }

  lemma {:induction false} VisitsDiffer(t: seq<Desc>, d: nat, i: nat, n: nat)
    requires Ends(t, d, i) && n <= i + 1
    ensures |Visited(t, d, n)| == n && forall x :: x in Visited(t, d, n) ==> x < |t|
    decreases n
  {
    if n > 0 {
      VisitsDiffer(t, d, i, n - 1);
      var x := Nth(t, d, n - 1);
      assert n - 1 < i ==> Goes(t, d, n - 1);
      if x in Visited(t, d, n - 1) {
        InVisited(t, d, n - 1, x);
        var j: nat :| j < n - 1 && Nth(t, d, j) == x;
        SameFrom(t, d, j, n - 1, i - (n - 1));
        GoesUntil(t, d, i, j + (i - (n - 1)));
      }
    }
  }

  lemma {:induction false} Bounded(s: set<nat>, n: nat)
    requires forall x :: x in s ==> x < n
    ensures |s| <= n
  {
    if n > 0 {
      Bounded(s - {n - 1}, n - 1);
    } else {
      assert s == {};
    }
  }

  // A chain that ends visits no descriptor twice, so it ends within the table's length.
  lemma EndsWithinTable(t: seq<Desc>, d: nat, i: nat)
    requires Ends(t, d, i)
    ensures i < |t|
  {
    VisitsDiffer(t, d, i, i + 1);
    Bounded(Visited(t, d, i + 1), |t|);
  }

  // The bound turns away only what has no end: when the walk stops as a bad chain, and nothing it wrote fell on the
  // table, then the chain leaves the table or runs in a circle.
  lemma {:induction false} BadChainHasNoEnd(r: Ram, w: Walk, table: nat, count: nat, d0: nat, d: nat, chain: nat, i: nat)
    requires table + 16 * count <= TOP64 && InDram(r, table, 16 * count) && Kept(r, w.ram, w.wrote)
    requires var e := Chain(w, table, count, d, chain); e.end == Stop(BadChain) && Free(e.last.wrote, table, 16 * count)
    requires d == Nth(TableOf(r, table, count), d0, chain)
    requires forall j: nat :: j < chain ==> Goes(TableOf(r, table, count), d0, j)
    ensures !Ends(TableOf(r, table, count), d0, i)
    decreases count - chain
  {
    hide OneDesc, Kept, Free, Peek, ReadDesc, W64, More, Ends, Goes;
    var t := TableOf(r, table, count);
    if d >= count || chain >= count {
      if Ends(t, d0, i) {
        EndsWithinTable(t, d0, i);
        EndsNowhere(t, d0, i, chain);
      }
    } else {
      ReadsTable(r, w, table, count, d, chain);
      var x := ReadDesc(Peek(w.ram, W64(table + 16 * d), 16));
      OneDescNotBad(w, x);
      OneDescKeeps(r, w, x);
      assert x == t[d];
      assert OneDesc(w, x).Done? && More(x);
      NthNext(t, d0, chain);
      BadChainHasNoEnd(r, OneDesc(w, x).value, table, count, d0, x.next, chain + 1, i);
    }
  }

  lemma RefusedChainHasNoEnd(ram: Ram, disk: seq<Byte>, table: nat, count: nat, d: nat)
    requires table + 16 * count <= TOP64 && InDram(ram, table, 16 * count)
    requires var e := Chain(Start(ram, disk), table, count, d, 0);
      e.end == Stop(BadChain) && Free(e.last.wrote, table, 16 * count)
    ensures forall i: nat :: !Ends(TableOf(ram, table, count), d, i)
  {
    hide Chain, Ends, TableOf, Free;
    forall i: nat ensures !Ends(TableOf(ram, table, count), d, i) {
      BadChainHasNoEnd(ram, Start(ram, disk), table, count, d, d, 0, i);
    }
  }

  // The descriptors followed so far are those of the table's chain from d.
  ghost predicate OnChain(t: seq<Desc>, d: nat, seen: seq<Desc>) {
    forall i: nat :: i < |seen| ==> Nth(t, d, i) < |t| && seen[i] == t[Nth(t, d, i)]
  }

  lemma {:induction false} WalkFollowsChain(r: Ram, w: Walk, table: nat, count: nat, d0: nat, d: nat, chain: nat)
    requires table + 16 * count <= TOP64 && InDram(r, table, 16 * count) && Kept(r, w.ram, w.wrote)
    requires var e := Chain(w, table, count, d, chain); e.end.Done? && Free(e.last.wrote, table, 16 * count)
    requires var t := TableOf(r, table, count);
      && d == Nth(t, d0, chain) && |w.seen| == chain && OnChain(t, d0, w.seen)
      && forall j: nat :: j < chain ==> Goes(t, d0, j)
    ensures var t, w' := TableOf(r, table, count), Chain(w, table, count, d, chain).last;
      |w'.seen| > 0 && OnChain(t, d0, w'.seen) && Ends(t, d0, |w'.seen| - 1)
    decreases count - chain
  {
    hide OneDesc, Kept, Free, Peek, ReadDesc, W64, More, OnChain, Nth;
    var t := TableOf(r, table, count);
    ReadsTable(r, w, table, count, d, chain);
    var x := ReadDesc(Peek(w.ram, W64(table + 16 * d), 16));
    assert x == t[d];
    OneDescKeeps(r, w, x);
    SameRequest(w, x);
    OnChainMore(t, d0, w.seen);
    if More(x) {
      NthNext(t, d0, chain);
      WalkFollowsChain(r, OneDesc(w, x).value, table, count, d0, x.next, chain + 1);
    }
  }

  lemma OnChainMore(t: seq<Desc>, d: nat, seen: seq<Desc>)
    requires OnChain(t, d, seen) && Nth(t, d, |seen|) < |t|
    ensures OnChain(t, d, seen + [t[Nth(t, d, |seen|)]])
  {
  }

  // A request that completes has followed its table's chain to the end, descriptor by descriptor, if nothing written
  // falls on the table.
  lemma CompletedChainEnds(ram: Ram, disk: seq<Byte>, table: nat, count: nat, d: nat)
    requires table + 16 * count <= TOP64 && InDram(ram, table, 16 * count)
    requires var e := Chain(Start(ram, disk), table, count, d, 0); e.end.Done? && Free(e.last.wrote, table, 16 * count)
    ensures var t, w := TableOf(ram, table, count), Chain(Start(ram, disk), table, count, d, 0).end.value;
      |w.seen| > 0 && OnChain(t, d, w.seen) && Ends(t, d, |w.seen| - 1)
  {
    hide Chain, Ends, TableOf, Free;
    EndIsLast(Start(ram, disk), table, count, d, 0);
    KeptSelf(ram);
    WalkFollowsChain(ram, Start(ram, disk), table, count, d, d, 0);
  }

  lemma EndsNowhere(t: seq<Desc>, d: nat, i: nat, chain: nat)
    requires i < |t| && (Nth(t, d, chain) >= |t| || chain >= |t|)
    requires forall j: nat :: j < chain ==> Goes(t, d, j)
    ensures !Ends(t, d, i)
  {
    if i < chain {
      assert Goes(t, d, i);
    } else {
      assert !Goes(t, d, chain);
    }
  }

  lemma NthNext(t: seq<Desc>, d: nat, i: nat)
    requires Nth(t, d, i) < |t| && More(t[Nth(t, d, i)])
    ensures Goes(t, d, i) && Nth(t, d, i + 1) == t[Nth(t, d, i)].next
  {
  }

  lemma OneDescNotBad(w: Walk, x: Desc)
    ensures OneDesc(w, x) != Stop(BadChain)
  {
  }

  lemma OneDescGrows(w: Walk, x: Desc)
    requires OneDesc(w, x).Done?
    ensures w.wrote <= OneDesc(w, x).value.wrote
  {
    hide Poke;
  }

  lemma {:induction false} ChainGrows(w: Walk, table: nat, count: nat, d: nat, chain: nat)
    ensures w.wrote <= Chain(w, table, count, d, chain).last.wrote
    decreases count - chain
  {
    hide OneDesc;
    if d < count && chain < count && InDram(w.ram, W64(table + 16 * d), 16) {
      var x := ReadDesc(Peek(w.ram, W64(table + 16 * d), 16));
      if OneDesc(w, x).Done? {
        OneDescGrows(w, x);
        if More(x) {
          ChainGrows(OneDesc(w, x).value, table, count, x.next, chain + 1);
        }
      }
    }
  }

  // While the writes so far miss the table, the walk reads it as it stood.
  lemma ReadsTable(r: Ram, w: Walk, table: nat, count: nat, d: nat, chain: nat)
    requires table + 16 * count <= TOP64 && InDram(r, table, 16 * count) && Kept(r, w.ram, w.wrote) && d < count
    requires Free(Chain(w, table, count, d, chain).last.wrote, table, 16 * count)
    ensures W64(table + 16 * d) == table + 16 * d && InDram(w.ram, table + 16 * d, 16)
    ensures ReadDesc(Peek(w.ram, table + 16 * d, 16)) == TableOf(r, table, count)[d]
  {
    var all := Chain(w, table, count, d, chain).last.wrote;
    ChainGrows(w, table, count, d, chain);
    hide Chain;
    assert all == w.wrote + all[|w.wrote|..];
    FreeParts(w.wrote, all[|w.wrote|..], table, 16 * count);
    assert Free(w.wrote, table + 16 * d, 16);
    PeekKept(r, w.ram, w.wrote, table + 16 * d, 16);
  }

  // ---------- The device ----------

  class VirtioBlk {
    const base: nat
    const dram: array<Byte>
    const hasDisk: bool
    const disk: array<Byte>
    var ready: bool
    var q: Queue
    var last: nat
    var usedIdx: nat
    var pending: bool
    var line: bool

    predicate Shape() { dram != disk }

    function Mem(): Ram
      reads dram
    {
      Ram(base, dram[..])
    }

    function State(): Dev
      reads this, dram, disk
    {
      Dev(ready, q, last, usedIdx, pending, line, Mem(), hasDisk, disk[..])
    }

    constructor (base: nat, dram: array<Byte>, hasDisk: bool, disk: array<Byte>)
      requires dram != disk
      ensures Shape() && Fresh(State()) && this.base == base && this.dram == dram && this.hasDisk == hasDisk && this.disk == disk
    {
      this.base, this.dram, this.hasDisk, this.disk := base, dram, hasDisk, disk;
      ready, q, last, usedIdx, pending, line := false, Queue(0, 0, 0, 0), 0, 0, false, false;
    }

    // memcpy into a block.
    method CopyIn(a: array<Byte>, at: nat, bs: seq<Byte>)
      requires at + |bs| <= a.Length
      modifies a
      ensures a[..] == Splice(old(a[..]), at, bs)
    {
      forall i | 0 <= i < |bs| {
        a[at + i] := bs[i];
      }
      assert a[at..at + |bs|] == bs;
      assert a[..] == Splice(old(a[..]), at, bs);
    }

    // memcpy to, or a bus write that lands in, DRAM.
    method PokeRam(at: nat, bs: seq<Byte>)
      requires InDram(Mem(), at, |bs|)
      modifies dram
      ensures Mem() == Poke(old(Mem()), at, bs)
    {
      CopyIn(dram, at - base, bs);
    }

    // One round of the chain loop: a status byte or a data buffer, the header having been read.
    method Buffer(ghost w: Walk, kind: nat, off: nat, d: Desc) returns (o: Outcome<nat>, ghost w': Walk)
      requires Shape() && w.ram == Mem() && w.disk == disk[..] && !w.first && w.kind == kind && w.off == off
      requires !Indirect(d)
      modifies dram, disk
      ensures o.Done? ==> OneDesc(w, d) == Done(w') && w'.ram == Mem() && w'.disk == disk[..] && w'.off == o.value
      ensures o.Stop? ==> OneDesc(w, d) == Stop(o.error)
    {
      hide Poke, Peek, Splice, InDram, StatusByte, Indirect;
      w' := w;
      var mem := Mem();
      if Writable(d) && d.len == 1 {
        if !InDram(mem, d.addr, 1) {
          return Stop(Outside), w;
        }
        PokeRam(d.addr, [StatusByte(kind)]);
        o := Done(off);
      } else if !InDram(mem, d.addr, d.len) {
        return Stop(NotInDram), w;
      } else if kind == IN || kind == OUT {
        if off + d.len > disk.Length {
          return Stop(PastDisk), w;
        }
        if (kind == IN) != Writable(d) {
          return Stop(BadDirection), w;
        }
        if kind == IN {
          PokeRam(d.addr, disk[off..off + d.len]);
        } else {
          CopyIn(disk, off, Peek(mem, d.addr, d.len));
        }
        o := Done(off + d.len);
      } else {
        if kind == GET_ID {
          if !InDram(mem, d.addr, 1) {
            return Stop(Outside), w;
          }
          PokeRam(d.addr, [0]);
        }
        o := Done(off + d.len);
      }
      w' := OneDesc(w, d).value;
    }

    // The chain loop. The head's descriptor, already read, is not read again.
    method WalkChain(table: nat, count: nat, head: nat, known: Outcome<Desc>) returns (o: Outcome<Word>, ghost w: Walk)
      requires Shape()
      requires known.Done? ==> head < count && InDram(Mem(), W64(table + 16 * head), 16)
      requires known.Done? ==> known.value == ReadDesc(Peek(Mem(), W64(table + 16 * head), 16))
      modifies dram, disk
      ensures o.Done? ==> Chain(Start(old(Mem()), old(disk[..])), table, count, head, 0).end == Done(w)
      ensures o.Done? ==> w.ram == Mem() && w.disk == disk[..] && w.used == o.value
      ensures o.Stop? ==> Chain(Start(old(Mem()), old(disk[..])), table, count, head, 0).end == Stop(o.error)
    {
      hide OneDesc, ReadDesc, Peek, W64, More, InDram;
      ghost var w0 := Start(Mem(), disk[..]);
      w := w0;
      var d: nat, chain, first, kind: nat, off: nat, used: Word, have := head, 0, true, 0xFFFF_FFFF, 0, 0, known.Done?;
      while true
        invariant Shape() && chain <= count && (have ==> known.Done? && d == head && w == w0)
        invariant w.ram == Mem() && w.disk == disk[..]
        invariant w.first == first && w.kind == kind && w.off == off && w.used == used
        invariant Chain(w, table, count, d, chain).end == Chain(w0, table, count, head, 0).end
        decreases count - chain
      {
        if !(d < count && chain < count) {
          return Stop(BadChain), w;
        }
        var mem, x := Mem(), Desc(0, 0, 0, 0);
        if have {
          x, have := known.value, false;
        } else {
          if !InDram(mem, W64(table + 16 * d), 16) {
            return Stop(WideDevice), w;
          }
          x := ReadDesc(Peek(mem, W64(table + 16 * d), 16));
        }
        assert x == ReadDesc(Peek(w.ram, W64(table + 16 * d), 16));
        var r, w1 := Follow(w, first, kind, off, used, x);
        if r.Stop? {
          return Stop(r.error), w;
        }
        first, kind, off, used, w := false, r.value.0, r.value.1, r.value.2, w1;
        if !More(x) {
          return Done(used), w;
        }
        d, chain := x.next, chain + 1;
      }
    }

    // The body of the chain loop: the new kind, disk offset and length.
    method Follow(ghost w: Walk, first: bool, kind: nat, off: nat, used: Word, d: Desc)
      returns (o: Outcome<(nat, nat, Word)>, ghost w': Walk)
      requires Shape() && w.ram == Mem() && w.disk == disk[..]
      requires w.first == first && w.kind == kind && w.off == off && w.used == used
      modifies dram, disk
      ensures o.Done? ==> OneDesc(w, d) == Done(w') && w'.ram == Mem() && w'.disk == disk[..]
      ensures o.Done? ==> (w'.kind, w'.off, w'.used) == o.value && !w'.first
      ensures o.Stop? ==> OneDesc(w, d) == Stop(o.error)
    {
      w' := w;
      if Indirect(d) {
        return Stop(Nested), w;
      }
      var sum: Word := if Writable(d) then (used + d.len) % TOP32 else used;
      if first {
        var mem := Mem();
        if !InDram(mem, d.addr, d.len) || d.len < 16 || Writable(d) {
          return Stop(BadHeader), w;
        }
        var bs := Peek(mem, d.addr, d.len);
        var sector := U64(bs[8..16]);
        if sector > disk.Length / 512 {
          return Stop(PastDisk), w;
        }
        o := Done((U32(bs[..4]), 512 * sector, sum));
        w' := OneDesc(w, d).value;
      } else {
        var r;
        r, w' := Buffer(w, kind, off, d);
        o := if r.Stop? then Stop(r.error) else Done((kind, r.value, sum));
        assert o.Done? ==> w'.kind == kind && w'.used == sum && !w'.first;
      }
    }

    // One round of the loop of virtio_blk_process.
    method ServeOne() returns (err: Outcome<bool>, ghost b: Batch)
      requires Shape() && ValidNum(q.num)
      modifies dram, disk, this`last, this`usedIdx
      ensures err.Done? ==> Serve(q, old(Mem()), old(disk[..]), old(last), old(usedIdx)) == Done(b)
      ensures err.Done? ==> b.ram == Mem() && b.disk == disk[..]
      ensures err.Done? ==> last == Next(old(last)) && usedIdx == Next(old(usedIdx))
      ensures err.Stop? ==> Serve(q, old(Mem()), old(disk[..]), old(last), old(usedIdx)) == Stop(err.error)
    {
      hide Chain, Publish, ReadDesc, Indirect, W64, AvailSlot;
      b := Batch(Mem(), disk[..], []);
      var mem := Mem();
      if !InDram(mem, AvailSlot(q, last), 2) {
        return Stop(Outside), b;
      }
      var head := U16(Peek(mem, AvailSlot(q, last), 2));
      if head >= q.num {
        return Stop(BadHead), b;
      }
      if !InDram(mem, W64(q.desc + 16 * head), 16) {
        return Stop(WideDevice), b;
      }
      var h := ReadDesc(Peek(mem, W64(q.desc + 16 * head), 16));
      var o;
      ghost var w;
      if Indirect(h) {
        if h.len == 0 || h.len % 16 != 0 {
          return Stop(BadIndirect), b;
        }
        o, w := WalkChain(h.addr, h.len / 16, 0, Stop(Outside));
      } else {
        o, w := WalkChain(q.desc, q.num, head, Done(h));
      }
      if o.Stop? {
        return Stop(o.error), b;
      }
      assert Walked(q, old(Mem()), old(disk[..]), head) == Done(w);
      hide Walked;
      err := PublishUsed(w, head, o.value);
      if err.Done? {
        last := Next(last);
        b := Batch(Mem(), disk[..], [Served(head, o.value, w.wrote, w.seen)]);
      }
    }

    // The used ring's part of the round.
    method PublishUsed(ghost w: Walk, head: nat, len: Word) returns (err: Outcome<bool>)
      requires Shape() && q.num > 0 && head < TOP16 && w.ram == Mem() && w.disk == disk[..] && w.used == len
      modifies dram, this`usedIdx
      ensures err.Done? ==> usedIdx == Next(old(usedIdx)) && disk[..] == old(disk[..])
      ensures err.Done? ==> var p := Publish(q, w, old(usedIdx), head); p.Done? && p.value.ram == Mem() && p.value.disk == disk[..]
      ensures err.Stop? ==> Publish(q, w, old(usedIdx), head) == Stop(err.error)
    {
      hide Bytes4, Bytes2, UsedSlot, W64, Poke;
      var slot, idx := UsedSlot(q, usedIdx), W64(q.used + 2);
      var mem := Mem();
      if !InDram(mem, slot, 8) {
        return Stop(Outside);
      }
      if !InDram(mem, idx, 2) {
        return Stop(Outside);
      }
      PokeRam(slot, Bytes4(head) + Bytes4(len));
      usedIdx := Next(usedIdx);
      PokeRam(idx, Bytes2(usedIdx));
      err := Done(true);
    }

    // virtio_blk_process.
    method Process() returns (err: Outcome<bool>)
      requires Shape() && last < TOP16 && usedIdx < TOP16
      modifies dram, disk, this`last, this`usedIdx, this`pending, this`line
      ensures err.Done? ==> Notify(old(State())) == Done(State())
      ensures err.Stop? ==> Notify(old(State())) == Stop(err.error)
    {
      hide Serve, ServeAll, Resumes, Peek, U16, W64, ValidNum, After, Next, Gap;
      if !ready || !hasDisk || q.num == 0 {
        return Done(true);
      }
      if !ValidNum(q.num) {
        return Stop(BadQueueNum);
      }
      var mem := Mem();
      if !InDram(mem, W64(q.avail + 2), 2) {
        return Stop(Outside);
      }
      var availIdx := U16(Peek(mem, W64(q.avail + 2), 2));
      ghost var v, n := State(), Gap(availIdx, last);
      ghost var log: seq<Served>, left := [], n;
      ResumesAll(v, n);
      AfterNone(last);
      AfterNone(usedIdx);
      GapNone(availIdx, last);
      while last != availIdx
        invariant Shape() && last < TOP16 && usedIdx < TOP16 && left == Gap(availIdx, last) <= n
        invariant last == After(v.last, n - left) && usedIdx == After(v.usedIdx, n - left)
        invariant Resumes(v, n, log, ServeAll(q, Mem(), disk[..], last, usedIdx, left))
        invariant left == 0 <==> last == availIdx
        decreases left
      {
        ResumesOn(v, n, log, Mem(), disk[..], last, usedIdx, left);
        AfterOne(v.last, n - left);
        AfterOne(v.usedIdx, n - left);
        GapLess(availIdx, last);
        var e, b := ServeOne();
        if e.Stop? {
          return Stop(e.error);
        }
        left, log := left - 1, log + b.log;
        GapNone(availIdx, last);
      }
      ServedAll(v, n, log, Mem(), disk[..], last, usedIdx);
      pending, line := true, true;
      err := Done(true);
    }

    // virtio_write, for the registers that matter to the ring.
    method WriteReg(ev: Event) returns (err: Outcome<bool>)
      requires Shape() && last < TOP16 && usedIdx < TOP16 && !ev.GuestWrites?
      modifies this, dram, disk
      ensures err.Done? ==> Do(old(State()), ev) == Done(State()) && last < TOP16 && usedIdx < TOP16
      ensures err.Stop? ==> Do(old(State()), ev) == Stop(err.error)
    {
      err := Done(true);
      match ev {
        case QueueNum(n) => q := q.(num := n);
        case QueueReady(on) => ready := on;
        case DescLow(x) => q := q.(desc := Low(q.desc, x));
        case DescHigh(x) => q := q.(desc := High(q.desc, x));
        case AvailLow(x) => q := q.(avail := Low(q.avail, x));
        case AvailHigh(x) => q := q.(avail := High(q.avail, x));
        case UsedLow(x) => q := q.(used := Low(q.used, x));
        case UsedHigh(x) => q := q.(used := High(q.used, x));
        case QueueNotify => err := Process();
        case InterruptAck(x) =>
          pending := pending && x % 2 == 0;
          line := pending;
        case Status(x) =>
          if x == 0 {
            ready, last, usedIdx, pending := false, 0, 0, false;
          }
      }
    }
  }

  lemma AfterNone(i: nat)
    requires i < TOP16
    ensures After(i, 0) == i
  {
  }

  lemma AfterOne(i: nat, n: nat)
    ensures Next(After(i, n)) == After(i, n + 1) < TOP16
  {
  }

  lemma GapNone(to: nat, from: nat)
    requires to < TOP16 && from < TOP16
    ensures Gap(to, from) == 0 <==> to == from
  {
  }

  lemma GapLess(to: nat, from: nat)
    requires to < TOP16 && from < TOP16 && to != from
    ensures Gap(to, Next(from)) == Gap(to, from) - 1
  {
  }

  lemma ServedAll(v: Dev, n: nat, log: seq<Served>, ram: Ram, disk: seq<Byte>, last: nat, usedIdx: nat)
    requires v.q.num > 0 && Resumes(v, n, log, ServeAll(v.q, ram, disk, last, usedIdx, 0))
    ensures ServeAll(v.q, v.ram, v.disk, v.last, v.usedIdx, n) == Done(Batch(ram, disk, log))
  {
    assert log + [] == log;
  }

  // What is left to serve finishes the whole notification.
  ghost predicate Resumes(v: Dev, n: nat, log: seq<Served>, rest: Outcome<Batch>)
    requires v.q.num > 0
  {
    ServeAll(v.q, v.ram, v.disk, v.last, v.usedIdx, n) ==
    if rest.Stop? then rest else Done(rest.value.(log := log + rest.value.log))
  }

  lemma ResumesAll(v: Dev, n: nat)
    requires v.q.num > 0
    ensures Resumes(v, n, [], ServeAll(v.q, v.ram, v.disk, v.last, v.usedIdx, n))
  {
    hide ServeAll;
    var o := ServeAll(v.q, v.ram, v.disk, v.last, v.usedIdx, n);
    assert o.Done? ==> [] + o.value.log == o.value.log;
  }

  lemma ResumesOn(v: Dev, n: nat, log: seq<Served>, ram: Ram, disk: seq<Byte>, last: nat, usedIdx: nat, left: nat)
    requires v.q.num > 0 && left > 0 && Resumes(v, n, log, ServeAll(v.q, ram, disk, last, usedIdx, left))
    ensures var o := Serve(v.q, ram, disk, last, usedIdx);
      if o.Stop? then ServeAll(v.q, v.ram, v.disk, v.last, v.usedIdx, n) == o
      else Resumes(v, n, log + o.value.log,
                   ServeAll(v.q, o.value.ram, o.value.disk, Next(last), Next(usedIdx), left - 1))
  {
    hide Serve;
    var o := Serve(v.q, ram, disk, last, usedIdx);
    if o.Done? {
      var rest := ServeAll(v.q, o.value.ram, o.value.disk, Next(last), Next(usedIdx), left - 1);
      assert rest.Done? ==> log + (o.value.log + rest.value.log) == (log + o.value.log) + rest.value.log;
    }
  }
}
