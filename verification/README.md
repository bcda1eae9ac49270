# ttsim verification

Models of the parts of ttsim in which fast, incremental or distributed code has to agree with a simple meaning, and
proofs that it does. `dafny verify dfyconfig.toml` checks everything.

| file | what it models |
|---|---|
| `eth_relay.dfy`, `eth_relay_safety.dfy`, `eth_relay_progress.dfy`, `eth_relay_liveness.dfy` | the multi-hop relay protocol of the Ethernet firmware, over all interleavings of all cores |
| `eth_blocks.dfy` | its block transfers: chunks, realignment, NOC and link alignment |
| `pmp.dfy`, `mmu.dfy`, `reservations.dfy` | the RV64 memory system: PMP segments, the Sv39 walk with two TLB levels, LR/SC across harts |
| `float_rounding.dfy`, `float_integer.dfy` | ties-away rounding from nearest-even results, float/integer conversion |
| `expander.dfy`, `src_banks.dfy`, `bfp.dfy` | the Tensix front end, the SrcA/SrcB bank handover, block floating point |
| `interrupts.dfy`, `plic.dfy`, `virtio.dfy` | lazy interrupts and the hart scheduler, the PLIC, the virtio split ring |
| `build.dfy` | the scheduler of `make.py` |

State that the program updates in place is a class whose methods are proved against functions on values; what the
program promises is then proved of those functions, mostly over whole runs. Operation outcomes that end the simulation
(a failed `TTSIM_VERIFY`) are results of their own, never preconditions.

Both sides of such a proof read the same encodings: bit fields, register layouts, permission rules. What those mean is
stated apart, in the terms of the standard or the configuration words themselves, by the lemmas named `...Meaning` and
the results beside them.

Hypotheses, each stated in the contracts that use it:

- Relay protocol: NOC and link delivery is synchronous and in order (fw/eth/eth_fw.c:74). Completion also needs that
  two linked chips do not both have host queues, and that at most one broadcast is in flight per chip
  (fw/eth/eth_fw.c:473-476); without the first every link, and without the second every pair of mutual egresses, has a
  run into a deadlock. What is proved of order, words and acknowledgments needs neither. The bytes of a block are not
  part of the interleaving: with host queues at both ends of a link the peer can overwrite a block buffer
  (fw/eth/eth_fw.c:295-299) before the reply in it is copied out.
- TLBs: guest stores change no page-table entry that a hart has not fenced, and a trap from M-mode to M-mode is not
  taken with MPRV set and a lower MPP while a data TLB holds a page that is not mapped to itself. For instruction
  fetches, DRAM and the reset ROM consist of whole pages.
- Floating point: the host result is the correct nearest-even rounding with a correct inexact flag.
- Interrupts: the 64-bit instruction count does not wrap.
- Build: task latencies are not negative.

Where the code does something else than it, or its documentation, sets out to do:

- A trap flushes the L1 TLBs only when the privilege changes (src/rv64_system.cpp:1918-1958), so after an M-to-M trap
  under MPRV a stale entry can answer: every access still agrees with a fresh walk if and only if the data TLBs hold
  identity-mapped pages only (`Mmu.TrapExactly`, `Mmu.StaleAfterTrap`).
- An SC compares virtual addresses, and neither a `satp` write nor DMA drops a reservation (`Reservations.FooledExactly`,
  `Reservations.DmaUnseen`, `Reservations.DmaRestores`).
- A CLR_DVALID-disabled clear moves the Matrix Unit's pointer past a bank that stays valid. Banks are released in the
  order they were handed over if and only if no enabled release is done while an odd number of such clears stands
  (`SrcBanks.InOrderExactly`, `SrcBanks.OutOfOrder`).
- A rule output that is neither under `_out` nor phony after normalization is not followed by discovery. It reports
  every cycle and missing output if and only if every file from which one is reached is followed
  (`Build.DetectsAllExactly`, `Build.HiddenCycle`).
- A broadcast block that does not start on a 64-byte boundary of the host window breaks the NOC's alignment rule
  (`EthBlocks.BroadcastAligned`).
- A virtio reset clears the interrupt status but leaves its PLIC line up (`Virtio.LineFollowsExactly`).

Standards: RISC-V Privileged ISA 20211203, sections 3.1.9, 3.7.1, 4.3.2 and 4.4; RISC-V Unprivileged ISA 20191213, sections
8.2, 11.2 and 11.7; VIRTIO 1.1, section 2.6.

## Model

| member | source | states |
|---|---|---|
| EthRelay.EgressFrom | fw/eth/eth_fw.c:333-349 | the egress for a chip is the first core of my chip whose link peer sits there, and none is reported only when there is none |
| EthRelay.RankInjective | fw/eth/eth_fw.c:588-696 | the host's program order gives every link transfer its own rank, so a log in rank order repeats none |
| EthRelaySafety.InitOk | fw/eth/eth_fw.c:311-323 | power-on meets the protocol invariant |
| EthRelaySafety.PushOk | fw/eth/eth_fw.c:588-600 | a host queueing any command at any time keeps the protocol invariant |
| EthRelaySafety.StepOk | fw/eth/eth_fw.c:433-724 | every step of every core, in every role and whatever the other cores are doing, keeps the protocol invariant (links, mailboxes, relays, doorbells, logs and replies of all cores) |
| EthRelaySafety.TopOk | fw/eth/eth_fw.c:703-724 | the service loop's decision to drain the queue, or to leave it while a relay is out, keeps the invariant |
| EthRelaySafety.DrainOk | fw/eth/eth_fw.c:588-696 | starting the head command (direct, relayed, broadcast, or collecting a relay's reply) keeps the invariant |
| EthRelaySafety.PostOk | fw/eth/eth_fw.c:456-469 | posting a relay fills a slot that was serviced, with a sequence number its egress has not seen |
| EthRelaySafety.RingOk | fw/eth/eth_fw.c:468-471 | ringing the doorbell after the slot write keeps the invariant |
| EthRelaySafety.AwaitOk | fw/eth/eth_fw.c:477-482 | the blocking wait ends only on the reply to this relay |
| EthRelaySafety.SendStepOk | fw/eth/eth_fw.c:433-450 | shipping a packet, or finishing a run of them and answering the sibling, keeps the invariant |
| EthRelaySafety.SpinOk | fw/eth/eth_fw.c:446-449 | the reply taken is the reply to this packet |
| EthRelaySafety.ServeOk | fw/eth/eth_fw.c:521-561 | the receiver makes the access of the packet it was sent, and it is the next one in its host's order |
| EthRelaySafety.AckOk | fw/eth/eth_fw.c:527-561 | the acknowledgment carries the word of that access |
| EthRelaySafety.ReplyOk | fw/eth/eth_fw.c:486-518 | the egress's reply reaches the ingress core that posted the relay, while it waits for it |
| EthRelaySafety.OneServer | fw/eth/eth_fw.c:486-518 | at most one core makes transfers for a host at a time, and no other mailbox holds a relay of it |
| EthRelaySafety.IdleSlots | fw/eth/eth_fw.c:456-482 | a core that waits for no relay reply has every slot it owns serviced |
| EthRelaySafety.ExactlyOnceInOrder | fw/eth/eth_fw.c:588-696 | in every run and interleaving the accesses made for a host are transfers its commands ask for (a word or block its one, a host block one per chunk, a broadcast one per chunk of each leg), each on its target chip, once, in program order and with none left out; a completed command has had all of them, and got the words of its own accesses |
| EthRelaySafety.DoneMeansMade | fw/eth/eth_fw.c:563-586 | when all of a host's commands have completed, each chunk of each leg of every one of them has been made, on its target chip |
| EthRelaySafety.BroadcastMade | fw/eth/eth_fw.c:372-389 | every leg of a completed broadcast is a run of exactly its chunks in the log, first to last, on its target chip |
| EthRelaySafety.InboxNeverOverwritten | fw/eth/eth_fw.c:433-447 | a packet is written to an inbox only after the one in it was served and acknowledged |
| EthRelaySafety.SlotNeverOverwritten | fw/eth/eth_fw.c:456-469 | a relay slot is written only after the relay in it was served and answered |
| EthRelaySafety.NoLostWakeup | fw/eth/eth_fw.c:456-471 | while a slot is unserviced its egress has the doorbell set or about to be rung, or its scan has not passed the slot |
| EthRelayProgress.WorkingStep | fw/eth/eth_fw.c:703-724 | a step of a core with something to do lowers the work outstanding in the whole system |
| EthRelayProgress.SomeoneHelps | fw/eth/eth_fw.c:451-482 | while a command is outstanding, some core is about to get work done: no reachable state is stuck, even with two siblings relaying through each other |
| EthRelayProgress.AwaitHelper | fw/eth/eth_fw.c:473-482 | a core blocked in a broadcast's relay has an egress that is not blocked in one |
| EthRelayProgress.GoalReached | fw/eth/eth_fw.c:703-724 | a core with a goal gets work done within a fixed number of its own steps, however the others interleave |
| EthRelayProgress.FairRoundWorks | fw/eth/eth_fw.c:703-724 | one round in which every core steps often enough lowers the outstanding work |
| EthRelayProgress.EverythingCompletes | fw/eth/eth_fw.c:451-518 | every fair run of so many rounds as there is work completes every command queued before it, if linked chips do not both have host queues and at most one broadcast is in flight per chip |
| EthRelayProgress.StaysComplete | fw/eth/eth_fw.c:703-724 | a system with nothing outstanding stays so |
| EthRelayProgress.PeersWaitForever | fw/eth/eth_fw.c:446-449 | two link peers spinning for each other's replies never leave that state |
| EthRelayProgress.LinkedHostsDeadlock | fw/eth/eth_fw.c:433-450 | the first hypothesis is needed: on every link with a host queue at each end a reachable state never completes its commands, whatever happens next |
| EthRelayProgress.SiblingsWaitForever | fw/eth/eth_fw.c:473-482 | two siblings waiting for each other's relays never leave that state |
| EthRelayProgress.TwoBroadcastsDeadlock | fw/eth/eth_fw.c:473-482 | the second hypothesis is needed: for any two siblings that are each other's egress a reachable state with two broadcasts in flight never completes them |
| EthRelayLiveness.SpinEnds | fw/eth/eth_fw.c:446-449 | in every fair infinite run a core spinning for a reply over its link gets it and does not move meanwhile |
| EthRelayLiveness.Served | fw/eth/eth_fw.c:486-518 | every posted relay is served by its egress, though hosts, the egress's own included, go on queueing commands |
| EthRelayLiveness.HeadCompletes | fw/eth/eth_fw.c:588-696 | the oldest outstanding command of every core completes |
| EthRelayLiveness.NoCommandStarves | fw/eth/eth_fw.c:588-724 | in every infinite run in which all cores keep running, every command a host ever queues completes, however many more are queued on any core meanwhile, and exactly once and in order as above |
| EthBlocks.PlacedExtends | fw/eth/eth_fw.c:391-404 | placing a block chunk after chunk is placing the whole block |
| EthBlocks.BufferAligned | fw/eth/eth_fw.c:145-150 | a 64-byte-aligned buffer offset by the target's low bits has the target's alignment mod 64 and mod 16 |
| EthBlocks.ChunkAligned | fw/eth/eth_fw.c:391-404 | every chunk keeps the alignment of the first |
| EthBlocks.BroadcastAligned | fw/eth/eth_fw.c:372-389 | the host reads of a broadcast meet the NOC's mod-64 rule exactly when the block starts on a 64-byte boundary of the host window |
| EthBlocks.Link.NocRead | fw/eth/eth_fw.c:252-263 | a NOC read copies exactly its bytes; its precondition is agreement of source and destination mod 64 |
| EthBlocks.Link.NocWrite | fw/eth/eth_fw.c:239-250 | a NOC write (and a multicast, lines 265-275, to each core) copies exactly its bytes; its precondition is agreement mod 16 |
| EthBlocks.Link.EthSend | fw/eth/eth_fw.c:277-284 | the link copies whole 16-byte units |
| EthBlocks.Link.L1Copy | fw/eth/eth_fw.c:221-225 | the word loop copies the block although it works inside one memory, when the destination does not start inside the source |
| EthBlocks.Link.Realign16 | fw/eth/eth_fw.c:286-293 | the returned address agrees with the target mod 16 and holds the block, and nothing below the stage changed |
| EthBlocks.Link.SendBlock | fw/eth/eth_fw.c:295-299 | the block lands in the peer's buffer at the target's alignment mod 16, although the link moves 16-byte units |
| EthBlocks.Link.WriteRemote | fw/eth/eth_fw.c:433-450 | a block write leaves the remote memory changed in exactly the block |
| EthBlocks.Link.ReadRemote | fw/eth/eth_fw.c:543-553 | a block read, word by word where the address is a register's, leaves the block in the buffer at the source's alignment mod 64 |
| EthBlocks.Link.ReadIntoBuffer | fw/eth/eth_fw.c:527-553 | the peer's reads of at most 4 or 8192 bytes gather exactly the block |
| EthBlocks.Link.DramWriteToPeer | fw/eth/eth_fw.c:391-404 | a host block reaches the remote chip whole, in order, and changes nothing else, with every NOC and link call meeting its alignment |
| EthBlocks.Link.DramReadToHost | fw/eth/eth_fw.c:412-428 | a remote block reaches the host window whole, in order, and changes nothing else |
| EthBlocks.Link.BcastToGrid | fw/eth/eth_fw.c:360-370 | each tensix core gets exactly the payload |
| EthBlocks.Link.BcastToPeer | fw/eth/eth_fw.c:372-389 | the payload forwarded over the link reaches the peer's grid exactly |
| EthBlocks.Link.RelayBlockWrite | fw/eth/eth_fw.c:505-510 | a relayed block write delivers the ingress core's block to the remote chip |
| EthBlocks.Link.RelayBlockRead | fw/eth/eth_fw.c:509-513 | a relayed block read deposits the remote block in the ingress core at the target's alignment |
| Pmp.NapotRange | src/rv64_system.cpp:1174-1179 | the bit trick for a NAPOT entry gives the naturally aligned 2^(t+3)-byte range of section 3.7.1 of the Privileged ISA (20211203) |
| Pmp.EntryMatches | src/rv64_system.cpp:1161-1185 | an entry matches a byte exactly when its word address compares so with the pmpaddrs: between them for TOR, equal for NA4, equal above the trailing ones and the zero after them for NAPOT, never when empty or off |
| Pmp.AllowedMeaning | src/rv64_system.cpp:1150-1190 | with no entry matching a byte M-mode may; else the lowest such entry decides: it must match all bytes and hold the permission, except of M-mode unless locked |
| Pmp.RulesDecide | src/rv64_system.cpp:1161-1190 | the list of non-empty entries decides an access as the sixteen entries do |
| Pmp.UniformDecides | src/rv64_system.cpp:1205-1226 | an access whose bytes have one lowest matching entry is decided by that entry |
| Pmp.MixedFails | src/rv64_system.cpp:1251-1258 | an access whose bytes have different lowest entries fails |
| Pmp.SameBetween | src/rv64_system.cpp:1205-1215 | between two bounds the lowest matching entry does not change |
| Pmp.SortUnique | src/rv64_system.cpp:1194-1202 | the sorted bounds are strictly increasing and the same set |
| Pmp.Flatten | src/rv64_system.cpp:1203-1226 | the merged segments tile the address space, each with the permissions of its bytes, and are no more than the bounds |
| Pmp.OneSegment | src/rv64_system.cpp:1238-1249 | an address lies in one segment only |
| Pmp.SegmentDecides | src/rv64_system.cpp:1251-1258 | what the segment of the first byte says of an access is what the entries say: the lowest entry matching any byte decides and must match all of them |
| Pmp.FastDecides | src/rv64_system.cpp:1187-1192 | under the fast rules an M-mode access inside an aligned 8-byte block cannot fail |
| Pmp.PmpUnit.CollectRules | src/rv64_system.cpp:1154-1192 | the rule loop collects the entries' ranges and the fast flag |
| Pmp.PmpUnit.Update | src/rv64_system.cpp:1154-1232 | after any configuration write there are at most 33 segments, tiling the space, that agree with the entries |
| Pmp.PmpUnit.Find | src/rv64_system.cpp:1238-1249 | the lookup finds the segment of the address from wherever the cached hint points |
| Pmp.PmpUnit.Check | src/rv64_system.cpp:1251-1258 | the check gives the answer of the sixteen entries, whatever the hint |
| Pmp.PmpUnit.PageAllow | src/rv64_system.cpp:1260-1263 | the page's permissions are those that hold for an access to all of it |
| Pmp.PmpUnit.CheckBare | src/rv64_system.cpp:1435-1447 | the shortcuts for untranslated accesses give the answer of the full check |
| Mmu.L1Agrees | src/rv64_system.h:124-137 | an L1 hit gives the address and the allowance of a fresh walk and PMP check, and no A or D update is pending |
| Mmu.WalkStable | src/rv64_system.cpp:1308-1346 | setting A or D in a leaf changes no walk but in those bits |
| Mmu.WalkMeaning | src/rv64_system.cpp:1308-1346 | the walk is that of section 4.3.2 of the Privileged ISA, level by level over the address, with its tests of each entry written out |
| Mmu.FreshMeaning | src/rv64_system.cpp:1346-1382 | the reference translation faults exactly where the standard has it (S-mode on user pages, SUM, U-mode on others, X, W, R and MXR, A and D), and else gives the leaf's address, with PMP checked on the entry and on the access |
| Mmu.SoundStable | src/rv64_system.cpp:1370-1382 | the TLBs stay sound when any hart sets A or D bits |
| Mmu.HitOk | src/rv64_system.cpp:1300-1306 | an access served by an L2 hit gives the fresh answer and keeps the TLBs sound |
| Mmu.MissOk | src/rv64_system.cpp:1307-1424 | so does one served by a walk, with its A and D update and refills |
| Mmu.CachedAgrees | src/rv64_system.cpp:1269-1450 | whatever the TLBs hold, an access gives the address or fault of a fresh walk, leaves the same A and D bits, and keeps the TLBs sound |
| Mmu.CachedMeaning | src/rv64_system.cpp:1346-1450 | so does an access through the TLBs, whatever they hold |
| Mmu.SoundAgrees | src/rv64_system.h:124-137 | from sound TLBs every in-page access agrees with a fresh walk and PMP check |
| Mmu.FlushL1Sound | src/rv64_system.cpp:172-179 | after an L1 flush the TLBs are sound for any change of mode and status |
| Mmu.OtherSound | src/rv64_system.cpp:1370-1382 | another hart's access keeps this hart's TLBs sound |
| Mmu.TrapExactly | src/rv64_system.cpp:1918-1958 | after an M-to-M or any other trap from sound TLBs every access gives what a fresh walk and PMP check give exactly when the privilege is not Machine with MPRV set and a lower MPP, or the data TLBs hold identity-mapped pages only |
| Mmu.TrapSound | src/rv64_system.cpp:1918-1958 | under that condition a trap also keeps the TLBs sound for everything that follows |
| Mmu.EventSound | src/rv64_system.cpp:1269-1450 | every lawful event keeps a hart's TLBs sound |
| Mmu.TlbAgreement | src/rv64_system.cpp:1269-1450 | at the end of any lawful run from reset an access through the TLBs gives what the standard asks for, case by case, and sets the same A and D bits |
| Mmu.FetchAgrees | src/rv64_system.cpp:1876-1916 | whatever the TLBs hold, fetching an instruction, across a page boundary or under the once-only entry of a page that PMP does not wholly allow, gives the halfword addresses or the fault of a fresh walk and PMP check of each halfword |
| Mmu.HalfMeaning | src/rv64_system.cpp:1876-1893 | a halfword is fetched where the standard translates its address to, from DRAM or the reset ROM only |
| Mmu.FetchAgreement | src/rv64_system.cpp:2175-2223 | and so it does at the end of any lawful run from reset |
| Mmu.StaleAfterTrap | src/rv64_system.cpp:1918-1958 | a concrete M-to-M trap after which the load TLB answers with a page other than the untranslated one |
| Mmu.MmuUnit.FlushL1 | src/rv64_system.cpp:172-179 | the L1 flush empties the three L1 TLBs and keeps L2 |
| Mmu.MmuUnit.Flush | src/rv64_system.cpp:180-186 | the full flush empties every TLB |
| Mmu.MmuUnit.WalkLevels | src/rv64_system.cpp:1308-1346 | the level loop gives the walk of section 4.3.2 of the Privileged ISA, its access faults included |
| Mmu.MmuUnit.WalkAccess | src/rv64_system.cpp:1308-1382 | the walk finds a leaf exactly where the standard lets the access use it, and sets its A and D bits |
| Mmu.MmuUnit.RefillL2 | src/rv64_system.cpp:1383-1402 | the refill caches the leaf and the page's PMP allowance |
| Mmu.MmuUnit.FinishAccess | src/rv64_system.cpp:1404-1424 | the end of the slow path: the PMP check and the L1 fill, refused for pages with a reservation |
| Mmu.MmuUnit.TranslateSlow | src/rv64_system.cpp:1291-1424 | the slow path does to result, memory and TLBs what its specification does |
| Mmu.MmuUnit.TranslateMiss | src/rv64_system.cpp:1428-1450 | and so does the untranslated path, which fills no data TLB |
| Mmu.MmuUnit.Access | src/rv64_system.cpp:1425-1450 | every data access gives what the standard asks for, case by case, as a fresh walk and PMP check do, and keeps the TLBs sound |
| Mmu.MmuUnit.FillItlb | src/rv64_system.cpp:1876-1916 | the ITLB fill does to result, memory and TLBs what its specification does, untranslated fetches included |
| Mmu.MmuUnit.FetchInsn | src/rv64_system.cpp:2175-2223 | a fetch through the ITLB gives what a fresh walk and PMP check give, and keeps the TLBs sound |
| Mmu.MmuUnit.TakeTrap | src/rv64_system.cpp:1918-1958 | a trap goes to S-mode if delegated from below M-mode and else to M-mode with the old privilege in MPP, and flushes L1 only when the privilege changes |
| Reservations.FillInv | src/rv64_system.cpp:1414-1423 | a store-DTLB line is filled only for a page without a reservation |
| Reservations.ReserveInv | src/rv64_system.cpp:1453-1477 | an LR evicts its page from every hart's store DTLB |
| Reservations.EventKeepsInv | src/rv64_system.cpp:1453-1477 | every event keeps the invariant that no store DTLB maps a page with a valid reservation |
| Reservations.NothingElseWritten | src/rv64_system.cpp:1531-1553 | a byte outside the stores an event is said to make changes only by DMA |
| Reservations.FastReachesNothing | src/riscv_impl.h:634-700 | a store through the DTLB reaches no reservation |
| Reservations.StoreKills | src/rv64_system.cpp:1138-1147 | any other hart's store, A and D updates included, that writes one of the reserved bytes kills the reservation, and only the hart's own LR makes one valid |
| Reservations.ClearedExactly | src/rv64_system.cpp:1138-1147 | a store drops exactly the reservations of the other harts that share a byte with it |
| Reservations.DroppedExactly | src/rv64_system.cpp:1138-1147 | a reservation is dropped by an event exactly if another hart writes one of its bytes or its own hart does an SC, an sfence.vma, a trap or a return |
| Reservations.StoreLands | src/riscv_impl.h:634-700 | a store by the DTLB or the slow path leaves its data in memory |
| Reservations.ConditionalLands | src/riscv_impl.h:799-821 | an SC stores its data exactly if the reservation is valid, of its address and size, and memory holds the loaded value |
| Reservations.Since | src/riscv_impl.h:780-821 | a valid reservation was made by an LR since which no other hart has written any of its bytes |
| Reservations.StoreConditionalAtomic | src/riscv_impl.h:780-821 | in every multi-hart run a successful SC follows an LR of the same bytes: memory holds what the LR loaded and no other hart has written any reserved byte in between |
| Reservations.FooledExactly | src/riscv_impl.h:799-821 | an SC can miss another hart's store to its target exactly when its physical address is no longer the reserved one, which a satp write can bring about |
| Reservations.DmaUnseen | src/rv64_system.cpp:692-811 | after an LR and any DMA writes an SC succeeds exactly when memory at its bytes still, or again, holds what the LR loaded |
| Reservations.DmaRestores | src/rv64_system.cpp:692-811 | after every LR there are two DMA writes, the first of which changes the reserved bytes, that the SC does not notice |
| Reservations.Machine.PageHasReservation | src/rv64_system.cpp:1128-1136 | the scan finds a reservation on the page if there is one |
| Reservations.Machine.ClearOverlapping | src/rv64_system.cpp:1138-1147 | exactly the other harts' overlapping reservations are cleared |
| Reservations.Machine.EvictPage | src/rv64_system.cpp:1453-1477 | exactly the page's lines go, in every hart |
| Reservations.Machine.TranslateStore | src/rv64_system.cpp:1371-1423 | a store translation makes its A and D update and fills its line unless the page is reserved |
| Reservations.Machine.SysStore | src/rv64_system.cpp:1531-1553 | the slow store path |
| Reservations.Machine.Store | src/riscv_impl.h:634-700 | a store, by the DTLB or the slow path, does what the event says |
| Reservations.Machine.LoadReserved | src/riscv_impl.h:780-798 | LR loads its bytes and records address, size and value |
| Reservations.Machine.TestReservation | src/riscv_impl.h:799-810 | SC's test, and that the reservation goes either way |
| Reservations.Machine.StoreConditional | src/riscv_impl.h:799-821 | SC stores exactly when its reservation stands and memory holds the loaded value |
| FloatRounding.NextUp | src/rv64_fpu.cpp:406 | the next bit pattern is one unit in the last place further from zero: in a binade, out of the subnormals, and at an exponent carry |
| FloatRounding.ValMono | src/rv64_fpu.cpp:387-406 | larger patterns are larger values |
| FloatRounding.ValMeaning | src/rv64_fpu.cpp:369-376 | a pattern of an exponent field and a fraction has its IEEE 754 value, subnormal or normal |
| FloatRounding.AwayFromEven | src/rv64_fpu.cpp:385-407 | ties-away differs from nearest-even only at the midpoint above the even result, where it is the next pattern |
| FloatRounding.AwayAtInf | src/rv64_fpu.cpp:387-390 | at infinity and for exact results the two roundings agree |
| FloatRounding.FromFloatReal | src/rv64_fpu.cpp:369-376 | the dyadic made from a float, with its half bit, is its value or the midpoint above it |
| FloatRounding.FromFloatTerm | src/rv64_fpu.cpp:369-376 | its significand is odd and of at most mb + 1 + half bits |
| FloatRounding.DMulReal | src/rv64_fpu.cpp:378-380 | the product of dyadics is the product of their values |
| FloatRounding.LenOfWord | src/rv64_fpu.cpp:393-398 | the length of a 128-bit word read off its halves |
| FloatRounding.CancelWithin | src/rv64_fpu.cpp:382-401 | three n-bit terms that cancel lie within n + 1 bits of the lowest |
| FloatRounding.WindowFits | src/rv64_fpu.cpp:399-405 | inside a window of w bits each shifted term is below 2^w |
| FloatRounding.WindowDecides | src/rv64_fpu.cpp:399-406 | the 108-bit window skips no tie, and inside it the shifted sum is zero exactly at one |
| FloatRounding.TieCancels | src/rv64_fpu.cpp:391-406 | the result is a midpoint exactly when the operands and the midpoint's product cancel |
| FloatRounding.AwayResult | src/rv64_fpu.cpp:387-406 | adding one to the pattern exactly at a tie turns nearest-even into ties-away |
| FloatRounding.Span | src/rv64_fpu.cpp:392-398 | the loop finds the lowest bit and one past the highest of the non-zero terms |
| FloatRounding.Sum | src/rv64_fpu.cpp:402-405 | the sum of the shifted terms is exact and each partial sum fits a signed 128-bit word |
| FloatRounding.Rmm | src/rv64_fpu.cpp:385-407 | given the nearest-even rounding of (x0 + x1) / y and its inexact flag, the pattern returned is the nearest, ties-away rounding |
| FloatRounding.RmmAdd | src/rv64_fpu.cpp:409-425 | addition rounds ties-away; an infinite, NaN or exact host result, as infinite and NaN operands give, comes back unchanged |
| FloatRounding.RmmFma | src/rv64_fpu.cpp:479-499 | fused multiply-add rounds ties-away; an infinite, NaN or exact host result, as infinite and NaN operands give, comes back unchanged |
| FloatRounding.RmmMul | src/rv64_fpu.cpp:427-443 | multiplication rounds ties-away; an infinite, NaN or exact host result, as infinite and NaN operands give, comes back unchanged |
| FloatRounding.RmmDiv | src/rv64_fpu.cpp:445-461 | division rounds ties-away; an infinite, NaN or exact host result, as infinite and NaN operands give, comes back unchanged |
| FloatRounding.RmmNarrow | src/rv64_fpu.cpp:501-508 | double to single rounds ties-away; an infinite, NaN or exact host result, as infinite and NaN operands give, comes back unchanged |
| FloatRounding.SqrtNeverTies | src/rv64_fpu.cpp:463-477 | no float is the square of a midpoint |
| FloatRounding.SqrtAway | src/rv64_fpu.cpp:463-477 | so the nearest-even square root is the ties-away one |
| FloatInteger.BigIsWhole | src/rv64_fpu.cpp:518-543 | a double of 2^52 or more is an integer |
| FloatInteger.FractionIsDouble | src/rv64_fpu.cpp:521-530 | the fraction left by truncation is a double, so the subtraction is exact |
| FloatInteger.RoundsUnique | src/rv64_fpu.cpp:518-543 | each of the five modes rounds to one integer |
| FloatInteger.RoundDouble | src/rv64_fpu.cpp:521-533 | the value rounded to an integer in the given mode, and inexact exactly when it moved |
| FloatInteger.ToInt | src/rv64_fpu.cpp:521-543 | the conversion clips the exact rounding, in all five modes and four widths, with NX only when inexact in range and NV only out of range or for a NaN |
| FloatInteger.Bracketed | src/rv64_fpu.cpp:545-557 | between two floats, the upper one from the midpoint on is the ties-away rounding |
| FloatInteger.KeptBits | src/rv64_fpu.cpp:546-557 | the floats around an integer are its kept bits and one unit more |
| FloatInteger.HalfUp | src/rv64_fpu.cpp:546-557 | adding half a unit and masking rounds half up |
| FloatInteger.WordSum | src/rv64_fpu.cpp:546-557 | the same through the wrap of a 64-bit sum |
| FloatInteger.DropBits | src/rv64_fpu.cpp:546-557 | the magnitude rounded to P bits ties-away, with the sum that wraps standing for 2^64 |
| FloatInteger.SourceMeaning | src/rv64_fpu.cpp:546-576 | the integer operand is the low word or the register, as two's complement or unsigned |
| FloatInteger.FromInt | src/rv64_fpu.cpp:546-557 | the integer's sign, its magnitude rounded to P bits ties-away, and inexact exactly when it moved |
| FloatInteger.MagicRounds | src/riscv_float.h:47-51 | adding and subtracting 1.5 * 2^52 rounds half to even below 2^51 |
| FloatInteger.Fp32ToI32Clips | src/riscv_float.h:52-58 | the signed conversion clips the nearest-even integer |
| FloatInteger.Fp32ToU32Clips | src/riscv_float.h:60-66 | the unsigned conversion clips the nearest-even integer |
| Expander.XorTwice | src/tensix.cpp:125-158 | the mask exclusive-or of the loop counts undoes itself |
| Expander.StepsAreExpansion | src/tensix.cpp:160-218 | the resumable steps of a MOP, one after another, are its nested-loop expansion |
| Expander.MaskedMeaning | src/tensix.cpp:153-177 | a MOP of type 0 runs its count field plus one times, iteration i in the short form if bit i of the mask is set and else in the long one, with the instructions its two flags choose |
| Expander.PlainMeaning | src/tensix.cpp:153-177 | without flags it is that many instructions, the i-th chosen by bit i of the mask |
| Expander.LoopedMeaning | src/tensix.cpp:178-215 | a MOP of type 1 runs cfg[0] rounds of start op, inner loop with its last instruction replaced, and end ops |
| Expander.MopNextIsFirst | src/tensix.cpp:220-237 | the next instruction taken is the first of those still to come, and it ends only when there are none |
| Expander.PlayOneKeeps | src/tensix.cpp:248-269 | playing a recorded instruction keeps queue plus what is to come |
| Expander.ReplaysRecording | src/tensix.cpp:63-116 | a load, the instructions it counts and a replay of the same slots issue those instructions, once if the load only records and twice if it also executes |
| Expander.ReplayExpandKeeps | src/tensix.cpp:63-116 | the replay expander records, plays and passes on as the eager player does, and fails its checks where that does |
| Expander.MaskedPush | src/tensix.cpp:126-148 | what a pushed MOP of type 0 stands for, and what it is refused for, bit field by bit field |
| Expander.LoopedPush | src/tensix.cpp:126-148 | the same for type 1 |
| Expander.MaskPush | src/tensix.cpp:118-121 | a MOP_CFG sets the upper half of the mask |
| Expander.OtherPush | src/tensix.cpp:67-116 | any other push is recorded, starts a recording, plays one or runs, bit field by bit field |
| Expander.FrontStepKeeps | src/tensix.cpp:248-269 | a front-end step emits in the order of the eager expansion and loses nothing |
| Expander.FrontStepDrains | src/tensix.cpp:248-269 | it stops only with the FIFO full or the expanders idle |
| Expander.IngestAdds | src/tensix.cpp:125-158 | a push on an idle front end adds exactly its eager expansion |
| Expander.AcceptedHasRoom | src/tensix.cpp:283-302 | a push is accepted exactly while the expanders are idle and fewer than the chip's limit wait, so it finds room and the FIFO-full error cannot happen |
| Expander.RunAgrees | src/tensix.cpp:49-317 | over any interleaving of accepted pushes, steps, pops and configuration writes, popped plus queued plus to come is the eager expansion of the pushed program |
| Expander.IssuesInOrder | src/tensix.cpp:49-317 | what a pipe issues is a prefix of the eager nested-loop expansion, and all of it once the thread is idle |
| Expander.NeverStuck | src/libttsim.cpp:261-277 | after a step either an instruction waits to issue or the expanders are done |
| Expander.RingPush | src/tensix.cpp:49-61 | a push into the ring appends to the queue and never closes the ring on itself |
| Expander.RingPop | src/libttsim.cpp:266-275 | a pop takes the head, and the ring is empty exactly when the pointers meet |
| Expander.Thread.PushFifo | src/tensix.cpp:49-61 | the FIFO push appends and sets the active bit |
| Expander.Thread.ReplayExpander | src/tensix.cpp:63-116 | the replay expander, in place |
| Expander.Thread.MopNextInst | src/tensix.cpp:220-237 | the MOP generator, in place |
| Expander.Thread.FrontendStep | src/tensix.cpp:248-269 | the step loop terminates, does the specified step, and leaves the expanding bit exact |
| Expander.Thread.Accept | src/tensix.cpp:304-317 | a push does the specified push and leaves the active masks exact |
| Expander.Thread.PopInst | src/libttsim.cpp:261-277 | a pop takes the head and keeps the masks matching the queues |
| Interrupts.EventCountLeast | src/rv64_system.cpp:1843-1859 | the event count is the least instruction count from now at which mtime reaches mtimecmp |
| Interrupts.NextCheckExact | src/rv64_system.cpp:1861-1874 | below the rescheduled check count no enabled interrupt of the hart is deliverable, and at it one is |
| Interrupts.OpOk | src/rv64_system.cpp:1974-1999 | every operation leaves the cached mask of deliverable interrupts exact |
| Interrupts.OwnMeaning | src/rv64_system.cpp:292-325 | what a later read sees of a write to the hart's own enable, delegation, status or software bits |
| Interrupts.CheckedClear | src/rv64_system.cpp:2109-2151 | after a check nothing is deliverable to the hart |
| Interrupts.CheckTakesFirst | src/rv64_system.cpp:2109-2151 | over the bits of mip, mie and mideleg: the check traps exactly if some interrupt is deliverable, with the code of the one that goes first (MEI, MSI, MTI, SEI, SSI, STI, undelegated before delegated), and stacks enable and privilege as section 3.1.6.1 has it |
| Interrupts.ReturnUndoes | src/rv64_system.cpp:1918-1956 | a return restores the privilege and the interrupt enable the trap found |
| Interrupts.SoftwareMeaning | src/rv64_system.cpp:305-325 | a software interrupt reaches its hart alone, and with another hart it runs next |
| Interrupts.ExternalMeaning | src/rv64_system.cpp:549-564 | MEIP is the M-mode PLIC output and SEIP the S-mode one or the software bit, in every hart |
| Interrupts.FindReadyComplete | src/rv64_system.cpp:2036-2090 | the round-robin scan finds a ready hart if there is one |
| Interrupts.FindReadyFirst | src/rv64_system.cpp:2021-2090 | the scan takes the first ready hart from its start on: awake, or with a software, external or timer interrupt pending |
| Interrupts.ChooseOk | src/rv64_system.cpp:2036-2090 | the hart chosen is awake |
| Interrupts.ChooseFailsExactly | src/rv64_system.cpp:2036-2090 | the scheduler fails exactly when every hart is asleep with nothing pending and no timer event ahead |
| Interrupts.JumpWakes | src/rv64_system.cpp:2001-2034 | with all harts asleep time jumps to the first timer event, skipping none, and its hart can then run |
| Interrupts.AdvanceMeaning | src/rv64_system.cpp:2001-2020 | a lone hart's WFI moves time to the first count at which its timer is due |
| Interrupts.CountMeaning | src/rv64_system.cpp:2208-2222 | the visible count advances for what retires, the executed count for all but fetch faults, and the end of a quantum yields to the next hart |
| Interrupts.RescheduledExact | src/rv64_system.cpp:1861-1874 | rescheduling after a change keeps every hart's cached check armed |
| Interrupts.CheckIsIdle | src/rv64_system.cpp:2109-2151 | below the cached count the check would do nothing |
| Interrupts.StepGoesOn | src/rv64_system.cpp:2153-2222 | so a hart that goes on unchecked does the step of the reference, which checks before every instruction |
| Interrupts.Board.Reschedule | src/rv64_system.cpp:1861-1874 | the cached count is recomputed and the running slice cut short |
| Interrupts.Board.PlicUpdate | src/rv64_system.cpp:549-564 | the PLIC's outputs reach every hart's mip, and the harts that changed are rescheduled |
| Interrupts.Board.Do | src/rv64_system.cpp:292-325 | an operation of the current hart changes the visible state as specified and reschedules every hart it may have armed |
| Interrupts.Board.CheckInterrupts | src/rv64_system.cpp:2109-2151 | takes that trap, and reschedules |
| Interrupts.Board.ChooseHart | src/rv64_system.cpp:2036-2090 | the scheduler's choice and time jump |
| Interrupts.Board.CheckDue | src/rv64_system.cpp:2153-2185 | looking only when the count is due does what looking always does |
| Interrupts.Board.RunSlice | src/rv64_system.cpp:2153-2222 | a slice that looks at the interrupts only at its cached count is n steps of the reference, with the same traps at the same instructions |
| Interrupts.Board.Run | src/rv64_system.cpp:2153-2222 | and so are any number of slices |
| Plic.BestUnique | src/rv64_system.cpp:525-547 | the best source of a context is one |
| Plic.BestTells | src/rv64_system.cpp:549-564 | it is not source 0 exactly when some source is eligible |
| Plic.DrivesMeaning | src/rv64_system.cpp:525-564 | an output is up exactly when one of sources 1 to 53 is pending, enabled, not in service and above the threshold |
| Plic.EnableMeaning | src/rv64_system.cpp:610-617 | an enable write sets its word of 32 sources and leaves every other alone |
| Plic.DoHoldsLevels | src/rv64_system.cpp:566-652 | every register access and line change keeps each asserted level pending or claimed |
| Plic.LevelsAlwaysHeld | src/rv64_system.cpp:566-652 | and so does every run |
| Plic.PendingUntilClaimed | src/rv64_system.cpp:642-652 | over every run a pending source stays so until a claim returns it, even if its line falls, and becomes pending only by a rising line or a completion |
| Plic.InService | src/rv64_system.cpp:566-640 | a source in service stays there, and no claim in any context returns it, until it is completed |
| Plic.ClaimedOnce | src/rv64_system.cpp:566-640 | between two claims of a source there is a completion |
| Plic.Controller.Best | src/rv64_system.cpp:525-547 | the loop returns the eligible source of highest priority, the lowest id on ties |
| Plic.Controller.Update | src/rv64_system.cpp:549-564 | MEIP and SEIP of each hart equal "an eligible source exists", SEIP also or-ed with its software bit |
| Plic.Controller.SetIrqLine | src/rv64_system.cpp:642-652 | a line change, with the outputs driven |
| Plic.Controller.ReadClaim | src/rv64_system.cpp:566-602 | a claim returns the best source and puts it in service |
| Plic.Controller.WriteComplete | src/rv64_system.cpp:604-640 | a completion ends service and repends an asserted level |
| Plic.Controller.WriteReg | src/rv64_system.cpp:604-640 | the other registers, with the outputs driven |
| Build.PathFalls | make.py:413-434 | along a path from an ordered file the positions fall, so it never comes back and leads to no missing output |
| Build.BuiltMeaning | make.py:406-411 | the files followed are those with /_out/ or /: in their path |
| Build.BadPathsExcluded | make.py:413-434 | an order of the files reached excludes every path to a cycle or to an output nothing makes |
| Build.Discovery.Discover | make.py:413-434 | one call orders all the output reaches, or ends in a path that is bad |
| Build.DiscoverAll | make.py:413-434 | discovery rejects exactly the requests from which a path leads to a cycle or to an output nothing makes |
| Build.DetectsAllExactly | make.py:413-434 | discovery detects exactly the files from which a path over the rules leads to a cycle or to an output nothing makes if and only if every such file is under _out or phony |
| Build.AllFaulty | make.py:413-434 | every file on such a path has one itself |
| Build.HiddenCycle | make.py:413-434 | an output that is neither, as _out/../x is once normalized, has a cycle that is not detected |
| Build.DiscoveryOrders | make.py:413-434 | where every rule's output reached is followed, discovery's order puts every rule's inputs first |
| Build.OrderRanks | make.py:413-434 | an order with every rule's inputs first ranks the tasks in it, inputs below their users |
| Build.TotalMeaning | make.py:436-443 | the latency of a chain is the sum of its tasks' latencies |
| Build.ChainBounded | make.py:436-443 | with every task closed no chain of latencies exceeds its end's priority |
| Build.Priorities.Propagate | make.py:436-443 | one propagation raises a task and everything under it to what the chain that reached it gives |
| Build.Prioritize | make.py:529-533 | each task's priority is the greatest total latency of any chain from a requested output to it, or -1 if there is none |
| Build.EnqueueOk | make.py:174-251 | a task is enqueued once, with all its inputs complete |
| Build.SkipOk | make.py:174-251 | an up-to-date task completes with all its inputs complete |
| Build.CallSettles | make.py:174-251 | after a call its outputs are complete or some task is busy, and so is everything it visited |
| Build.FinishOk | make.py:549-566 | a finishing task keeps the record safe and is unfinished no more, nor is any other task again |
| Build.RecordMeaning | make.py:174-251 | each task is enqueued once with every input complete, and a made file is complete only with every input and output of its task |
| Build.Scheduler.ScheduleInputs | make.py:174-251 | after its inputs are scheduled each is complete or some task is busy |
| Build.Scheduler.Schedule | make.py:174-251 | no task is enqueued before all its inputs complete or more than once, and afterwards the output is complete or some task is busy |
| Build.Scheduler.Pass | make.py:549-557 | a pass leaves all requested outputs complete or some task busy |
| Build.Scheduler.TakeIn | make.py:562-564 | finishing events complete their tasks' outputs, and the finish of a busy task leaves fewer unfinished |
| Build.Scheduler.MakeAll | make.py:549-571 | whatever finishes and fails, the main loop ends with every requested output complete, on a failure, or on a missing input, or a task is still busy; if each round finishes one that is busy it ends within as many rounds as there are tasks |
| SrcBanks.StallsExactly | src/tensix.cpp:3194-3198 | an unpacker waits exactly when both banks are handed over, a clear that waits on the Matrix Unit exactly when one is |
| SrcBanks.GiveSteps | src/tensix.cpp:3629-3648 | handing a bank over appends it to the queue |
| SrcBanks.ReleaseSteps | src/tensix.cpp:2207-2232 | a release takes the head of the queue |
| SrcBanks.QueueSteps | src/tensix.cpp:796-815 | valid bits and bank pointers refine a two-slot FIFO: only handovers append and only releases take |
| SrcBanks.ValidBanksKept | src/tensix.cpp:3676-3714 | neither UNPACR nor UNPACR_NOP touches a valid bank |
| SrcBanks.DeliveredSteps | src/tensix.cpp:3629-3648 | the contents of a valid bank are those it was handed over with |
| SrcBanks.WrittenMeaning | src/tensix.cpp:3629-3648 | each datum of a bank is the last one written to its place |
| SrcBanks.TakenInOrder | src/tensix.cpp:796-815 | with CLR_DVALID on, in every run the Matrix Unit releases banks in the order they were handed over and finds what was handed over |
| SrcBanks.InOrderExactly | src/tensix.cpp:796-815 | whatever is done to a side, its banks are released in the order they were handed over if and only if no enabled release is done while an odd number of CLR_DVALID-disabled clears stands |
| SrcBanks.OutOfOrder | src/tensix.cpp:796-815 | a concrete run with one such clear, after which the second bank handed over is released first |
| SrcBanks.SrcFile.Fill | src/tensix.cpp:3676-3700 | a fill writes every row of the unpacker's bank |
| SrcBanks.SrcFile.Give | src/tensix.cpp:3915-3934 | the handover, in place |
| SrcBanks.SrcFile.Unpacr | src/tensix.cpp:3194-3198 | UNPACR stalls, fails or writes and hands over as specified |
| SrcBanks.SrcFile.UnpacrNop | src/tensix.cpp:3676-3714 | so does UNPACR_NOP |
| SrcBanks.SrcFile.ClearValid | src/tensix.cpp:796-815 | so does the release |
| Bfp.UnpackExactly | src/tensix.cpp:3167-3177 | a nonzero code decodes to its value exactly when the shared exponent exceeds its leading zeros |
| Bfp.ZeroMeaning | src/tensix.cpp:3167-3177 | a zero magnitude decodes to zero, or with the sign bit to minus infinity |
| Bfp.EncoderGetsNoSubnormal | src/tensix.cpp:2748-2967 | every conversion that precedes a BFP destination flushes subnormals and their sign before the block is buffered |
| Bfp.CodeIsHigh | src/tensix.cpp:3000-3017 | a normal value's nonzero code always has fewer leading zeros than the shared exponent |
| Bfp.PackMeaning | src/tensix.cpp:2998-3020 | the code is the significand with its hidden bit, shifted to the shared exponent, rounded half up, held at 127 and cut to 7, 3 or 1 bits, with the sign unless it is zero |
| Bfp.NormalError | src/tensix.cpp:3000-3017 | a normal value is within 2^(E - 134) of its code's meaning, saturation included |
| Bfp.RoundTripValue | src/tensix.cpp:2988-3034 | unpack after pack is the sign times the rounded magnitude, for every value the encoder gets and every shared exponent |
| Bfp.Bfp8Error | src/tensix.cpp:2988-3034 | unpack after pack is within 2^(E - 134) of each input, for every value the encoder gets and every shared exponent |
| Bfp.NoNegativeZero | src/tensix.cpp:3017-3020 | pack never emits the negative zero code, in any of the three widths |
| Bfp.MaxExp | src/tensix.cpp:2990-2994 | the shared exponent is the greatest of the block |
| Bfp.PackedBlock | src/tensix.cpp:2988-3034 | what pack leaves has no negative zero, has every code decodable under the shared exponent, and has one with its top magnitude bit set unless the shared exponent is 0 |
| Bfp.RepackOne | src/tensix.cpp:3490-3504 | packing the value of a code gives the code back |
| Bfp.RepackBlock | src/tensix.cpp:3490-3504 | packing an unpacked block as pack leaves them gives it back bit for bit, in BFP8, BFP4 and BFP2 and for every shared exponent |
| Bfp.BlockRoundTrip | src/tensix.cpp:2988-3034 | every block of values the encoder gets packs to codes that unpack and repack to themselves, in BFP8 within half a unit of each value |
| Bfp.HighExponentFits | src/tensix.cpp:3490-3504 | from shared exponent 7 on every code but the negative zero decodes to its value |
| Bfp.EncodeBlock | src/tensix.cpp:2988-3034 | the packer's two loops give the shared exponent and the codes |
| Bfp.StoreBlock | src/tensix.cpp:3021-3034 | the bytes written hold every code at its place, the first lowest in BFP4 and BFP2, and nothing else changes |
| Virtio.IndicesInStep | src/rv64_system.cpp:870-879 | over every run of register writes, notifications, guest writes and resets the used index equals the last available index |
| Virtio.LineFollowsExactly | src/rv64_system.cpp:867-879 | every event but one keeps the interrupt line equal to the status bit: a reset while it is set leaves the line up |
| Virtio.OneEntryPerHead | src/rv64_system.cpp:701-808 | a notification serves exactly (avail - last) mod 2^16 heads, one used entry each |
| Virtio.TakesUpToIndex | src/rv64_system.cpp:699-701 | it ends at the available index it read, across the 16-bit wrap |
| Virtio.AvailIndexMeaning | src/rv64_system.cpp:692-706 | that index is the little-endian word two bytes into the available ring |
| Virtio.SlotWraps | src/rv64_system.cpp:697-703 | a power-of-two ring up to 1024 divides 2^16, so slots follow on across the counter's wrap |
| Virtio.HeadsInRingOrder | src/rv64_system.cpp:701-706 | the k-th head taken is the one slot (last + k) mod size held at the notification, if nothing writes to that slot |
| Virtio.HeadMeaning | src/rv64_system.cpp:702-712 | that slot is the little-endian word at 4 + 2 * ((last + k) mod size) in the available ring |
| Virtio.NothingElseWritten | src/rv64_system.cpp:764-806 | a notification changes no byte of DRAM but its buffers, used entries and used index |
| Virtio.UsedRingHoldsLog | src/rv64_system.cpp:796-806 | afterwards each of the last ring-size heads has its entry, with its length, in the slots that follow the old used index, if the buffer of no later head overlaps it |
| Virtio.EntryMeaning | src/rv64_system.cpp:796-806 | the entry is the head and the length in little-endian words at 4 + 8 * ((used + k) mod size) in the used ring |
| Virtio.IndexPublished | src/rv64_system.cpp:804-806 | afterwards the used index in memory is past all of them |
| Virtio.IndexMeaning | src/rv64_system.cpp:796-806 | the index is the little-endian word two bytes into the used ring |
| Virtio.LengthIsWritableSum | src/rv64_system.cpp:727-791 | a request's length is the total its chain lets the device write, mod 2^32, over at most the table's count of descriptors of which only the last ends the chain |
| Virtio.DescMeaning | src/rv64_system.cpp:727-745 | a descriptor is 8 bytes of address, 4 of length, 2 of flags and 2 of next, little-endian |
| Virtio.DescDoes | src/rv64_system.cpp:745-791 | what one descriptor does by its flags and the request: header, data in the right direction, status byte, and every refusal |
| Virtio.EveryLengthReported | src/rv64_system.cpp:796-806 | every used entry reports that total |
| Virtio.TransfersOneRun | src/rv64_system.cpp:763-786 | what passes to or from the disk is one run of it, and a write changes nothing else there |
| Virtio.ReadFillsBuffers | src/rv64_system.cpp:750-786 | a read fills the buffers after its header, in chain order, with the disk from the header's sector on and its status byte with 0, and what it put stays unless a later buffer of the request overlaps it |
| Virtio.WriteStoresBuffers | src/rv64_system.cpp:750-786 | a write stores the buffers after its header, in chain order, on the disk from the header's sector on, and changes nothing else there, unless its status byte falls on one of them |
| Virtio.CompletedChainEnds | src/rv64_system.cpp:728-791 | a request that completes has followed its table's chain to its end, if nothing written falls on the table |
| Virtio.ReadsBackWhatWasWritten | src/rv64_system.cpp:763-786 | a read of the bytes a write stored gives them back, however either cuts them into buffers |
| Virtio.EndsWithinTable | src/rv64_system.cpp:728-731 | a chain that ends visits no descriptor twice, so it ends within the table |
| Virtio.RefusedChainHasNoEnd | src/rv64_system.cpp:728-731 | the bound refuses only what has no end: a refused chain leaves the table or runs in a circle, if nothing written falls on the table |
| Virtio.VirtioBlk.Buffer | src/rv64_system.cpp:763-786 | a status byte or data buffer, in place |
| Virtio.VirtioBlk.Follow | src/rv64_system.cpp:745-786 | the body of the chain loop, header included, with every check that ends the simulation |
| Virtio.VirtioBlk.WalkChain | src/rv64_system.cpp:727-791 | the chain loop terminates and does the specified walk, split or indirect |
| Virtio.VirtioBlk.ServeOne | src/rv64_system.cpp:702-807 | one round of the available ring |
| Virtio.VirtioBlk.Process | src/rv64_system.cpp:692-811 | the ring loop terminates for every available index and does the specified notification |
| Virtio.VirtioBlk.WriteReg | src/rv64_system.cpp:854-888 | the register writes do what their events say |
| Virtio.AddressMeaning | src/rv64_system.cpp:854-888 | the two halves of a ring address may be written in any order |
| Virtio.NumMeaning | src/rv64_system.cpp:692-700 | a ring size is a power of two up to 1024 |

## Left out

- Sequence numbers of the relay protocol are unbounded; their wrap at 2^32 is not modelled.
- The relay protocol carries a transfer's identity in place of its address and data; the bytes are in `eth_blocks.dfy`. The ring pointers of the host queues are the length of a history.
- `tile.cpp` is not part of this model, nor are the generated register and decode headers: delivery is atomic, instruction words are opaque, opcodes and sizes are parameters.
- The NOC and link calls copy byte by byte here; addresses with a carry past 4 GiB within one block are not modelled.
- The memory behind the MMU holds page-table entries only; loads, stores and fetches end at physical addresses, and whether an instruction has a second halfword is a parameter. A data page crossed by a misaligned access is two accesses.
- Physical addresses in the LR/SC model come with their A/D update as an arbitrary translation; AMO arithmetic is left out.
- Host floating-point control, inline assembly and intrinsics: the host's rounding is a hypothesis. NaN boxing and the other handlers of src/rv64_fpu.cpp are single branches.
- Interrupts.Board.Run: the step of one instruction is an arbitrary function of the visible state; UART polling and pumping in the loop are left out, and the result holds until the 64-bit count wraps.
- A Tensix thread has its own active and expanding flags, which stand for its bits of the tile's mask words.
- PLIC bit words are sets of source numbers.
- Virtio.VirtioBlk.Process: a ring outside DRAM that the program would reach over the bus ends the run here, so a ring placed on a device register is not modelled; flushing the disk file is I/O.
- Build: the rule table is fixed before discovery, where `make.py` evaluates `rules.py` files as it meets them; subprocesses, depfiles and timestamps are arbitrary "needs rebuild", "finished" and "failed" oracles.
- UART, termios, disk and file loading, `dlopen`, command line, RTC, syscon: I/O plumbing.
- Most Tensix opcode bodies, configuration registers and errata: detail that matches silicon and has no simple specification.
- PCIe register maps, topology tables, ALU, CSR and compressed-instruction handlers, code generators and fw/eth/bh_eth_fw.c: they would add easy members only.
