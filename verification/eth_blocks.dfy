// Block transfers over the link (fw/eth/eth_fw.c): chunking, realignment, and the alignment every transaction needs.
//
// Memories are byte arrays. The methods below carry the alignment the hardware demands as preconditions, so every call
// is shown to meet it.
module EthBlocks {
  const BLOCK_BUF := 0x15600
  const NOC_STAGE := 0x16700
  const RELAY_RESP_BLOCK := 0x17740
  const BCAST_READ := BLOCK_BUF + 32
  const BLOCK_CHUNK := 4096
  const BCAST_CHUNK := 2048
  const HEADER := 32
  const L1_SIZE := 0x40000
  const MAX_L1_BLOCK := 1024
  const MAX_PACKET := 8192  // bytes of one NOC transaction
  const MMIO_BASE := 0xFFB0_0000  // targets from here on are registers

  type Bytes = seq<nat>

  // Targets whose reads are capped at a word a transaction: high address bits, or the registers.
  predicate IsRegister(lo: nat, mid: nat) {
    mid % 16 != 0 || lo >= MMIO_BASE
  }

  // d with n bytes of s placed at `at`.
  function Placed(d: Bytes, at: nat, s: Bytes, from: nat, n: nat): (r: Bytes)
    requires at + n <= |d| && from + n <= |s|
    ensures |r| == |d|
  {
    d[..at] + s[from..from + n] + d[at + n..]
  }

  // Chunk after chunk is the whole.
  lemma PlacedExtends(d: Bytes, at: nat, s: Bytes, from: nat, m: nat, n: nat)
    requires at + m + n <= |d| && from + m + n <= |s|
    ensures Placed(Placed(d, at, s, from, m), at + m, s, from + m, n) == Placed(d, at, s, from, m + n)
  {
    assert s[from..from + m] + s[from + m..from + m + n] == s[from..from + m + n];
  }

  lemma PlacedSame(d: Bytes, at: nat, s: Bytes, from: nat, s': Bytes, from': nat, n: nat)
    requires at + n <= |d| && from + n <= |s| && from' + n <= |s'| && s[from..from + n] == s'[from'..from' + n]
    ensures Placed(d, at, s, from, n) == Placed(d, at, s', from', n)
  {
  }

  lemma PlacedElsewhere(d: Bytes, at: nat, s: Bytes, from: nat, n: nat, lo: nat, hi: nat)
    requires at + n <= |d| && from + n <= |s| && lo <= hi <= |d| && (hi <= at || at + n <= lo || n == 0)
    ensures Placed(d, at, s, from, n)[lo..hi] == d[lo..hi]
  {
  }

  lemma WordStep(was: Bytes, now: Bytes, dst: nat, src: nat, i: nat, word: Bytes)
    requires dst + i + 4 <= |was| && src + i + 4 <= |was| && now == Placed(was, dst, was, src, i)
    requires word == now[src + i..src + i + 4] && (dst <= src || src + i + 4 <= dst)
    ensures Placed(now, dst + i, word, 0, 4) == Placed(was, dst, was, src, i + 4)
  {
    PlacedElsewhere(was, dst, was, src, i, src + i, src + i + 4);
    PlacedSame(now, dst + i, word, 0, was, src + i, 4);
    PlacedExtends(was, dst, was, src, i, 4);
  }

  lemma WordFits(dst: nat, k: nat, n: nat)
    requires dst % 4 == 0 && n % 4 == 0 && k < n / 4
    ensures (dst + 4 * k) % 4 == 0 && 4 * k + 4 <= n
  {
    Remainder4(dst + 4 * k, dst / 4 + k, 0);
  }

  lemma PlacedNone(d: Bytes, at: nat, s: Bytes, from: nat)
    requires at <= |d| && from <= |s|
    ensures Placed(d, at, s, from, 0) == d
  {
  }

  lemma PlacedThere(d: Bytes, at: nat, s: Bytes, from: nat, n: nat)
    requires at + n <= |d| && from + n <= |s|
    ensures Placed(d, at, s, from, n)[at..at + n] == s[from..from + n]
  {
  }

  function Round16(n: nat): (r: nat)
    ensures r % 16 == 0 && n <= r < n + 16
  {
    (n + 15) / 16 * 16
  }

  // A broadcast is of whole words to a word address, from a 64-byte boundary of the host window.
  predicate BcastOk(lo: nat, tag: nat, payload: nat) {
    payload % 4 == 0 && lo % 4 == 0 && tag % 64 == 0
  }

  function ChunkOf(size: nat, done: nat, limit: nat): nat
    requires done <= size
  {
    if size - done < limit then size - done else limit
  }

  // ---------- Addresses ----------

  lemma Remainder64(x: nat, q: int, r: nat)
    requires x == 64 * q + r && r < 64
    ensures x % 64 == r
  {
  }

  lemma Remainder16(x: nat, q: int, r: nat)
    requires x == 16 * q + r && r < 16
    ensures x % 16 == r
  {
  }

  lemma Remainder4(x: nat, q: int, r: nat)
    requires x == 4 * q + r && r < 4
    ensures x % 4 == r
  {
  }

  lemma Low16(x: nat)
    ensures x % 64 % 16 == x % 16
  {
    var a, b := x / 64, x % 64 / 16;
    Remainder16(x, 4 * a + b, x % 64 % 16);
  }

  // A buffer on a 64-byte boundary offset by the target's low bits has the target's alignment.
  lemma BufferAligned(base: nat, target: nat)
    requires base % 64 == 0
    ensures (base + target % 64) % 64 == target % 64 && (base + target % 64) % 16 == target % 16
    ensures (base + target % 16) % 16 == target % 16
  {
    var q, t := base / 64, target % 64;
    Remainder64(base + t, q, t);
    Low16(base + t);
    Low16(target);
    Remainder16(base + target % 16, 4 * q, target % 16);
  }

  // Chunks keep the alignment of the first.
  lemma ChunkAligned(target: nat, done: nat)
    requires done % 64 == 0
    ensures (target + done) % 64 == target % 64 && (target + done) % 16 == target % 16
  {
    Remainder64(target + done, target / 64 + done / 64, target % 64);
    Low16(target + done);
    Low16(target);
  }

  // A broadcast reads the host at the payload's offset into a slot at 32 mod 64, so the block must start on a 64-byte
  // boundary of the host window; the NOC read's alignment holds for every chunk exactly then.
  lemma BroadcastAligned(tag: nat, done: nat)
    requires done % BCAST_CHUNK == 0
    ensures (tag + 32 + done) % 64 == BCAST_READ % 64 <==> tag % 64 == 0
  {
    BcastDone(done);
    ChunkAligned(tag + HEADER, done);
    assert BCAST_READ % 64 == 32;
    assert tag + HEADER == 64 * (tag / 64) + (tag % 64 + 32);
  }

  // ---------- The link ----------

  // This core's L1 and its link peer's, the host window, the memory of the remote chip, and that of a tensix core on
  // this chip.
  class Link {
    const l1: array<nat>
    const peer: array<nat>
    const host: array<nat>
    const remote: array<nat>
    const tensix: array<nat>

    predicate Valid() {
      && l1.Length == peer.Length == L1_SIZE && remote.Length <= 0x1_0000_0000
      && l1 != peer && l1 != host && l1 != remote && l1 != tensix && peer != host && peer != remote && peer != tensix
      && host != remote && host != tensix && remote != tensix
    }

    // NOC read into a core's L1: source and destination agree mod 64.
    static method NocRead(src: array<nat>, from: nat, core: array<nat>, at: nat, n: nat)
      requires src != core && from + n <= src.Length && at + n <= core.Length && at % 64 == from % 64 && n <= MAX_PACKET
      modifies core
      ensures core[..] == Placed(old(core[..]), at, src[..], from, n)
    {
      Move(src, from, core, at, n);
    }

    // NOC write from a core's L1: they agree mod 16. A multicast is the same to each core it reaches.
    static method NocWrite(core: array<nat>, from: nat, dst: array<nat>, at: nat, n: nat)
      requires core != dst && from + n <= core.Length && at + n <= dst.Length && at % 16 == from % 16 && n <= MAX_PACKET
      modifies dst
      ensures dst[..] == Placed(old(dst[..]), at, core[..], from, n)
    {
      Move(core, from, dst, at, n);
    }

    // The link moves 16-byte units.
    static method EthSend(core: array<nat>, from: nat, other: array<nat>, at: nat, n: nat)
      requires core != other && from + n <= core.Length && at + n <= other.Length
      requires from % 16 == 0 && at % 16 == 0 && n % 16 == 0
      modifies other
      ensures other[..] == Placed(old(other[..]), at, core[..], from, n)
    {
      Move(core, from, other, at, n);
    }

    static method Move(src: array<nat>, from: nat, dst: array<nat>, at: nat, n: nat)
      requires src != dst && from + n <= src.Length && at + n <= dst.Length
      modifies dst
      ensures dst[..] == Placed(old(dst[..]), at, src[..], from, n)
    {
      forall i | 0 <= i < n {
        dst[at + i] := src[from + i];
      }
      assert dst[at..at + n] == src[from..from + n];
    }

    // A word store.
    static method WriteWord(core: array<nat>, at: nat, word: Bytes)
      requires at + 4 <= core.Length && |word| == 4 && at % 4 == 0
      modifies core
      ensures core[..] == Placed(old(core[..]), at, word, 0, 4)
    {
      core[at] := word[0];
      core[at + 1] := word[1];
      core[at + 2] := word[2];
      core[at + 3] := word[3];
    }

    // Copies words within an L1; the destination must not start inside the source.
    static method L1Copy(core: array<nat>, dst: nat, src: nat, n: nat)
      requires dst + n <= core.Length && src + n <= core.Length && n % 4 == 0 && dst % 4 == 0 && src % 4 == 0
      requires dst <= src || src + n <= dst
      modifies core
      ensures core[..] == Placed(old(core[..]), dst, old(core[..]), src, n)
    {
      ghost var was := core[..];
      PlacedNone(was, dst, was, src);
      hide Placed;
      for k := 0 to n / 4
        invariant core[..] == Placed(was, dst, was, src, 4 * k)
      {
        hide Placed;
        WordFits(dst, k, n);
        CopyWord(core, was, dst, src, k);
      }
    }

    static method CopyWord(core: array<nat>, ghost was: Bytes, dst: nat, src: nat, k: nat)
      requires dst + 4 * k + 4 <= |was| == core.Length && src + 4 * k + 4 <= |was| && (dst + 4 * k) % 4 == 0
      requires core[..] == Placed(was, dst, was, src, 4 * k) && (dst <= src || src + 4 * k + 4 <= dst)
      modifies core
      ensures core[..] == Placed(was, dst, was, src, 4 * k + 4)
    {
      hide Placed;
      var word := core[src + 4 * k..src + 4 * k + 4];
      WordStep(was, core[..], dst, src, 4 * k, word);
      WriteWord(core, dst + 4 * k, word);
    }

    // Where the n bytes at src have the alignment of addr mod 16: there, or copied to the NOC stage.
    static method Realign16(core: array<nat>, src: nat, addr: nat, n: nat) returns (at: nat)
      requires core.Length == L1_SIZE && n <= BLOCK_CHUNK && n % 4 == 0 && src % 4 == 0 && addr % 4 == 0
      requires src + n <= NOC_STAGE
      modifies core
      ensures at % 16 == addr % 16 && (at == src || at == NOC_STAGE + addr % 16)
      ensures at + n <= RELAY_RESP_BLOCK && core[at..at + n] == old(core[src..src + n])
      ensures core[..NOC_STAGE] == old(core[..NOC_STAGE])
    {
      if src % 16 == addr % 16 {
        return src;
      }
      at := NOC_STAGE + addr % 16;
      L1Copy(core, at, src, n);
    }

    // Ships a block to the peer's block buffer, where it lands with the target's alignment mod 16.
    method SendBlock(src: nat, target: nat, n: nat)
      requires Valid() && n <= BLOCK_CHUNK && n % 4 == 0 && src % 4 == 0 && target % 4 == 0 && src + n <= NOC_STAGE
      modifies l1, peer
      ensures peer[BLOCK_BUF + target % 16..BLOCK_BUF + target % 16 + n] == old(l1[src..src + n])
    {
      ghost var block := l1[src..src + n];
      var at := Realign16(l1, src, target, n);
      var low := at - at % 16;
      var len := Round16(at % 16 + n);
      Down16(at);
      EthSend(l1, low, peer, BLOCK_BUF, len);
      SliceInside(peer[..], BLOCK_BUF, l1[..], low, len, at % 16, n);
    }

    // One block write over the link: shipped, then written by the peer to its chip.
    method WriteRemote(src: nat, lo: nat, n: nat)
      requires Valid() && n <= BLOCK_CHUNK && n % 4 == 0 && src % 4 == 0 && lo % 4 == 0 && src + n <= NOC_STAGE
      requires lo + n <= remote.Length
      modifies l1, peer, remote
      ensures remote[..] == Placed(old(remote[..]), lo, old(l1[..]), src, n)
    {
      ghost var l, r := l1[..], remote[..];
      SendBlock(src, lo, n);
      BufferAligned(BLOCK_BUF, lo);
      NocWrite(peer, BLOCK_BUF + lo % 16, remote, lo, n);
      PlacedSame(r, lo, peer[..], BLOCK_BUF + lo % 16, l, src, n);
    }

    // One block read over the link: the peer reads its chip, register by register for MMIO, and ships the block back.
    method ReadRemote(lo: nat, mid: nat, n: nat)
      requires Valid() && n <= BLOCK_CHUNK && n % 4 == 0 && lo + n <= remote.Length
      modifies l1, peer
      ensures l1[BLOCK_BUF + lo % 64..BLOCK_BUF + lo % 64 + n] == remote[lo..lo + n]
    {
      var off := lo % 64;
      ghost var p := peer[..];
      ReadIntoBuffer(lo, mid, n, if IsRegister(lo, mid) then 4 else BLOCK_CHUNK);
      PlacedThere(p, BLOCK_BUF + off, remote[..], lo, n);
      EthSend(peer, BLOCK_BUF, l1, BLOCK_BUF, Round16(off + n));
      SliceInside(l1[..], BLOCK_BUF, peer[..], BLOCK_BUF, Round16(off + n), off, n);
    }

    // The peer's reads, at most `most` bytes each. Registers are read a word at a time.
    method ReadIntoBuffer(lo: nat, mid: nat, n: nat, most: nat)
      requires Valid() && n <= BLOCK_CHUNK && most > 0 && lo + n <= remote.Length
      requires mid % 16 != 0 || lo >= 0xFFB0_0000 ==> most <= 4
      modifies peer
      ensures peer[..] == Placed(old(peer[..]), BLOCK_BUF + lo % 64, remote[..], lo, n)
    {
      var at := BLOCK_BUF + lo % 64;
      ghost var p, r := peer[..], remote[..];
      PlacedNone(p, at, r, lo);
      hide Placed;
      var done: nat := 0;
      while done < n
        invariant done <= n && peer[..] == Placed(p, at, r, lo, done)
      {
        var chunk := ChunkOf(n, done, most);
        BufferFollows(BLOCK_BUF, lo, done);
        NocRead(remote, lo + done, peer, at + done, chunk);
        PlacedExtends(p, at, r, lo, done, chunk);
        done := done + chunk;
      }
    }

    // A host block written to the remote chip, chunk by chunk: exactly the source bytes, in order, and nothing else.
    method DramWriteToPeer(lo: nat, tag: nat, size: nat)
      requires Valid() && size % 4 == 0 && lo % 4 == 0 && tag % 4 == 0
      requires lo + size <= remote.Length && tag + size <= host.Length
      modifies l1, peer, remote
      ensures remote[..] == Placed(old(remote[..]), lo, host[..], tag, size)
    {
      ghost var r := remote[..];
      PlacedNone(r, lo, host[..], tag);
      hide Placed, ChunkOf;
      var done: nat := 0;
      while done < size
        invariant done <= size && (done < size ==> done % BLOCK_CHUNK == 0)
        invariant remote[..] == Placed(r, lo, host[..], tag, done)
      {
        var chunk := ChunkOf(size, done, BLOCK_CHUNK);
        WriteChunk(lo, tag, size, done, chunk);
        NextChunk(size, done, chunk, BLOCK_CHUNK);
        PlacedExtends(r, lo, host[..], tag, done, chunk);
        done := done + chunk;
      }
    }

    method WriteChunk(lo: nat, tag: nat, size: nat, done: nat, chunk: nat)
      requires Valid() && size % 4 == 0 && lo % 4 == 0 && tag % 4 == 0
      requires lo + size <= remote.Length && tag + size <= host.Length
      requires done < size && done % BLOCK_CHUNK == 0 && chunk == ChunkOf(size, done, BLOCK_CHUNK)
      modifies l1, peer, remote
      ensures remote[..] == Placed(old(remote[..]), lo + done, host[..], tag + done, chunk)
    {
      var buf := BLOCK_BUF + (tag + done) % 64;
      BufferAligned(BLOCK_BUF, tag + done);
      Words(lo, tag, size, done, chunk);
      NocRead(host, tag + done, l1, buf, chunk);
      PlacedThere(old(l1[..]), buf, host[..], tag + done, chunk);
      ghost var l := l1[..];
      WriteRemote(buf, lo + done, chunk);
      PlacedSame(old(remote[..]), lo + done, l, buf, host[..], tag + done, chunk);
    }

    // A remote block read into the host window, chunk by chunk.
    method DramReadToHost(lo: nat, mid: nat, tag: nat, size: nat)
      requires Valid() && size % 4 == 0 && lo % 4 == 0 && tag % 4 == 0
      requires lo + size <= remote.Length && tag + size <= host.Length
      modifies l1, peer, host
      ensures host[..] == Placed(old(host[..]), tag, remote[..], lo, size)
    {
      ghost var h := host[..];
      PlacedNone(h, tag, remote[..], lo);
      hide Placed, ChunkOf;
      var done: nat := 0;
      while done < size
        invariant done <= size && (done < size ==> done % BLOCK_CHUNK == 0)
        invariant host[..] == Placed(h, tag, remote[..], lo, done)
      {
        var chunk := ChunkOf(size, done, BLOCK_CHUNK);
        ReadChunk(lo, mid, tag, size, done, chunk);
        NextChunk(size, done, chunk, BLOCK_CHUNK);
        PlacedExtends(h, tag, remote[..], lo, done, chunk);
        done := done + chunk;
      }
    }

    method ReadChunk(lo: nat, mid: nat, tag: nat, size: nat, done: nat, chunk: nat)
      requires Valid() && size % 4 == 0 && lo % 4 == 0 && tag % 4 == 0
      requires lo + size <= remote.Length && tag + size <= host.Length
      requires done < size && done % BLOCK_CHUNK == 0 && chunk == ChunkOf(size, done, BLOCK_CHUNK)
      modifies l1, peer, host
      ensures host[..] == Placed(old(host[..]), tag + done, remote[..], lo + done, chunk)
    {
      Words(lo, tag, size, done, chunk);
      ReadRemote(lo + done, mid, chunk);
      var buf := BLOCK_BUF + (lo + done) % 64;
      var at := Realign16(l1, buf, tag + done, chunk);
      NocWrite(l1, at, host, tag + done, chunk);
      PlacedSame(old(host[..]), tag + done, l1[..], at, remote[..], lo + done, chunk);
    }

    // A broadcast payload multicast to the grid. The block starts on a 64-byte boundary of the host window.
    method BcastToGrid(lo: nat, tag: nat, payload: nat)
      requires Valid() && BcastOk(lo, tag, payload)
      requires lo + payload <= tensix.Length && tag + 32 + payload <= host.Length
      modifies l1, tensix
      ensures tensix[..] == Placed(old(tensix[..]), lo, host[..], tag + 32, payload)
    {
      ghost var src := tag + HEADER;
      ghost var t := tensix[..];
      hide Placed, ChunkOf, BcastOk;
      PlacedNone(t, lo, host[..], src);
      var done: nat := 0;
      while done < payload
        invariant done <= payload && (done < payload ==> done % BCAST_CHUNK == 0)
        invariant tensix[..] == Placed(t, lo, host[..], src, done)
      {
        var chunk := ChunkOf(payload, done, BCAST_CHUNK);
        BcastChunk(lo, tag, payload, done, chunk);
        NextChunk(payload, done, chunk, BCAST_CHUNK);
        PlacedExtends(t, lo, host[..], src, done, chunk);
        done := done + chunk;
      }
    }

    method BcastChunk(lo: nat, tag: nat, payload: nat, done: nat, chunk: nat)
      requires Valid() && BcastOk(lo, tag, payload)
      requires lo + payload <= tensix.Length && tag + 32 + payload <= host.Length
      requires done < payload && done % BCAST_CHUNK == 0 && chunk == ChunkOf(payload, done, BCAST_CHUNK)
      modifies l1, tensix
      ensures tensix[..] == Placed(old(tensix[..]), lo + done, host[..], tag + 32 + done, chunk)
    {
      BroadcastAligned(tag, done);
      BcastDone(done);
      ChunkAligned(lo, done);
      ChunkWords(payload, done, BCAST_CHUNK);
      hide Placed;
      NocRead(host, tag + HEADER + done, l1, BCAST_READ, chunk);
      PlacedThere(old(l1[..]), BCAST_READ, host[..], tag + HEADER + done, chunk);
      var at := Realign16(l1, BCAST_READ, lo, chunk);
      NocWrite(l1, at, tensix, lo + done, chunk);
      PlacedSame(old(tensix[..]), lo + done, l1[..], at, host[..], tag + HEADER + done, chunk);
    }

    // The same payload forwarded over the link, for the peer to multicast on its chip.
    method BcastToPeer(lo: nat, tag: nat, payload: nat)
      requires Valid() && BcastOk(lo, tag, payload)
      requires lo + payload <= remote.Length && tag + 32 + payload <= host.Length
      modifies l1, peer, remote
      ensures remote[..] == Placed(old(remote[..]), lo, host[..], tag + 32, payload)
    {
      ghost var src := tag + HEADER;
      ghost var t := remote[..];
      hide Placed, ChunkOf, BcastOk;
      PlacedNone(t, lo, host[..], src);
      var done: nat := 0;
      while done < payload
        invariant done <= payload && (done < payload ==> done % BCAST_CHUNK == 0)
        invariant remote[..] == Placed(t, lo, host[..], src, done)
      {
        var chunk := ChunkOf(payload, done, BCAST_CHUNK);
        PeerBcastChunk(lo, tag, payload, done, chunk);
        NextChunk(payload, done, chunk, BCAST_CHUNK);
        PlacedExtends(t, lo, host[..], src, done, chunk);
        done := done + chunk;
      }
    }

    method PeerBcastChunk(lo: nat, tag: nat, payload: nat, done: nat, chunk: nat)
      requires Valid() && BcastOk(lo, tag, payload)
      requires lo + payload <= remote.Length && tag + 32 + payload <= host.Length
      requires done < payload && done % BCAST_CHUNK == 0 && chunk == ChunkOf(payload, done, BCAST_CHUNK)
      modifies l1, peer, remote
      ensures remote[..] == Placed(old(remote[..]), lo + done, host[..], tag + 32 + done, chunk)
    {
      hide Placed, ChunkOf;
      BroadcastAligned(tag, done);
      ChunkWords(payload, done, BCAST_CHUNK);
      NextChunk(payload, done, chunk, BCAST_CHUNK);
      Word4(lo, done);
      FillSlot(tag + HEADER + done, chunk);
      var at := Realign16(peer, BCAST_READ, lo + done, chunk);
      NocWrite(peer, at, remote, lo + done, chunk);
      PlacedSame(old(remote[..]), lo + done, peer[..], at, host[..], tag + HEADER + done, chunk);
    }

    // One broadcast chunk from the host into the peer's slot.
    method FillSlot(from: nat, chunk: nat)
      requires Valid() && from % 64 == BCAST_READ % 64 && from + chunk <= host.Length && chunk <= BCAST_CHUNK
      modifies l1, peer
      ensures peer[BCAST_READ..BCAST_READ + chunk] == host[from..from + chunk]
    {
      NocRead(host, from, l1, BCAST_READ, chunk);
      EthSend(l1, BCAST_READ, peer, BCAST_READ, Round16(chunk));
      SliceInside(peer[..], BCAST_READ, l1[..], BCAST_READ, Round16(chunk), 0, chunk);
    }

    // The egress ships a block it fetches from the ingress core, a sibling on this chip.
    method RelayBlockWrite(sibling: array<nat>, block: nat, lo: nat, n: nat)
      requires Valid() && sibling !in {l1, peer, host, remote, tensix} && sibling.Length == L1_SIZE
      requires n <= MAX_L1_BLOCK && n % 4 == 0 && lo % 4 == 0 && lo + n <= remote.Length
      requires block % 64 == 0 && block + Round16(n) <= L1_SIZE
      modifies l1, peer, remote
      ensures remote[..] == Placed(old(remote[..]), lo, sibling[..], block, n)
    {
      NocRead(sibling, block, l1, BLOCK_BUF, Round16(n));
      SliceInside(l1[..], BLOCK_BUF, sibling[..], block, Round16(n), 0, n);
      ghost var l, r := l1[..], remote[..];
      WriteRemote(BLOCK_BUF, lo, n);
      PlacedSame(r, lo, l, BLOCK_BUF, sibling[..], block, n);
    }

    // The egress reads the remote chip and deposits the block in the ingress core, at the target's alignment.
    method RelayBlockRead(sibling: array<nat>, lo: nat, mid: nat, n: nat)
      requires Valid() && sibling !in {l1, peer, host, remote, tensix} && sibling.Length == L1_SIZE
      requires n <= MAX_L1_BLOCK && n % 4 == 0 && lo + n <= remote.Length
      modifies l1, peer, sibling
      ensures sibling[..] == Placed(old(sibling[..]), RELAY_RESP_BLOCK + lo % 64, remote[..], lo, n)
    {
      ReadRemote(lo, mid, n);
      BufferAligned(BLOCK_BUF, lo);
      BufferAligned(RELAY_RESP_BLOCK, lo);
      NocWrite(l1, BLOCK_BUF + lo % 64, sibling, RELAY_RESP_BLOCK + lo % 64, n);
      PlacedSame(old(sibling[..]), RELAY_RESP_BLOCK + lo % 64, l1[..], BLOCK_BUF + lo % 64, remote[..], lo, n);
    }
  }

  lemma Down16(at: nat)
    ensures at - at % 16 >= 0 && (at - at % 16) % 16 == 0
  {
  }

  // A part of what was placed is the same part of the source.
  lemma SliceInside(d: Bytes, at: nat, s: Bytes, from: nat, len: nat, off: nat, n: nat)
    requires off + n <= len && at + len <= |d| && from + len <= |s| && d[at..at + len] == s[from..from + len]
    ensures d[at + off..at + off + n] == s[from + off..from + off + n]
  {
    SubSlice(d, at, len, off, n);
    SubSlice(s, from, len, off, n);
  }

  lemma SubSlice(s: Bytes, at: nat, len: nat, off: nat, n: nat)
    requires at + len <= |s| && off + n <= len
    ensures s[at..at + len][off..off + n] == s[at + off..at + off + n]
  {
    var x, y := s[at..at + len][off..off + n], s[at + off..at + off + n];
    assert |x| == |y| == n;
    forall i | 0 <= i < n
      ensures x[i] == y[i]
    {
      assert x[i] == s[at..at + len][off + i] == s[at + off + i];
      assert y[i] == s[at + off + i];
    }
  }

  lemma BufferFollows(base: nat, lo: nat, done: nat)
    requires base % 64 == 0
    ensures (base + lo % 64 + done) % 64 == (lo + done) % 64
  {
    var x := (lo + done) % 64;
    Remainder64(base + lo % 64 + done, base / 64 - lo / 64 + (lo + done) / 64, x);
  }

  lemma BcastDone(done: nat)
    requires done % BCAST_CHUNK == 0
    ensures done % 64 == 0
  {
    assert done == 64 * (32 * (done / BCAST_CHUNK));
  }

  lemma Word4(a: nat, b: nat)
    requires a % 4 == 0 && b % 4 == 0
    ensures (a + b) % 4 == 0 && a % 64 % 4 == 0
  {
    Remainder4(a + b, a / 4 + b / 4, 0);
    Remainder4(a % 64, a / 4 - 16 * (a / 64), 0);
  }

  lemma Words(lo: nat, tag: nat, size: nat, done: nat, chunk: nat)
    requires size % 4 == 0 && lo % 4 == 0 && tag % 4 == 0 && done <= size && done % BLOCK_CHUNK == 0
    requires chunk == ChunkOf(size, done, BLOCK_CHUNK)
    ensures chunk % 4 == 0 && (lo + done) % 4 == 0 && (tag + done) % 4 == 0 && chunk <= BLOCK_CHUNK
    ensures (BLOCK_BUF + (tag + done) % 64) % 4 == 0 && (BLOCK_BUF + (lo + done) % 64) % 4 == 0
  {
    ChunkWords(size, done, BLOCK_CHUNK);
    Word4(lo, done);
    Word4(tag, done);
    Word4(lo + done, 0);
    Word4(tag + done, 0);
    Word4(BLOCK_BUF, (tag + done) % 64);
    Word4(BLOCK_BUF, (lo + done) % 64);
  }

  lemma ChunkWords(size: nat, done: nat, limit: nat)
    requires size % 4 == 0 && done <= size && (limit == BLOCK_CHUNK || limit == BCAST_CHUNK) && done % limit == 0
    ensures done % 4 == 0 && ChunkOf(size, done, limit) % 4 == 0 && ChunkOf(size, done, limit) <= limit
  {
    if limit == BLOCK_CHUNK {
      Remainder4(done, 1024 * (done / BLOCK_CHUNK), 0);
    } else {
      Remainder4(done, 512 * (done / BCAST_CHUNK), 0);
    }
    Remainder4(size - done, size / 4 - done / 4, 0);
  }

  lemma NextChunk(size: nat, done: nat, chunk: nat, limit: nat)
    requires done < size && (limit == BLOCK_CHUNK || limit == BCAST_CHUNK) && done % limit == 0
    requires chunk == ChunkOf(size, done, limit)
    ensures 0 < chunk && done + chunk <= size && (done + chunk < size ==> (done + chunk) % limit == 0)
  {
    NextMultiple(done);
  }

  lemma NextMultiple(x: nat)
    ensures x % 4096 == 0 ==> (x + 4096) % 4096 == 0
    ensures x % 2048 == 0 ==> (x + 2048) % 2048 == 0
  {
    assert x == 4096 * (x / 4096) + x % 4096;
    assert x == 2048 * (x / 2048) + x % 2048;
  }
}
