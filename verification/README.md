# Five small Linux drivers and a register file, modelled and proved

The repository is a collection of teaching drivers. This project models the ones that keep state under
concurrency or in place on linked structures, and proves what they keep over whole runs.

Each driver has up to three layers.

1. A **state machine** over values: one function per locked section (or per scheduling point), an
   `Enabled` predicate, a `Next` function, and a predicate saying that a run of events leads from one state
   to another. The theorems are about every run from the driver's initial state.
2. A **heap driver**: a class with the fields of the C structures, intrusive lists, loops and arrays. Each
   method's `ensures` equates the new abstract state (`Abs()`) with the machine's step on the old one.
3. **Theorems** about the functions of layer 1.

| module | subject |
|---|---|
| `IpHeader` | the rewrite of the IPv4 header that loops a frame back, its checksum, padding |
| `SnullTypes`, `SnullDevice` | packets, device record, the four short list routines, both interrupt halves |
| `SnullRegular`, `SnullRegularProof`, `SnullRegularTheorems`, `SnullRegularDriver` | one interrupt per packet, two transmitters interleaved |
| `SnullReception` | what becomes of received frames in regular mode, event by event |
| `SnullLockup`, `SnullTwoWay` | the simulated transmitter lockup, with one device sending and with both |
| `SnullNapi`, `SnullNapiTheorems`, `SnullNapiDrain`, `SnullNapiOrder`, `SnullNapiPackets`, `SnullNapiReception`, `SnullNapiDriver` | polling mode |
| `BlockRing`, `BlockRingSessions`, `BlockRingRetries`, `BlockRingAnnouncements`, `BlockRingDriver` | the circular list of blocks used as a byte store |
| `KeyRing` | the 256-slot ring between a key interrupt and a blocking reader |
| `Wifi`, `WifiCalls`, `WifiDriver` | scan and connect requests handed to a work queue under a semaphore |
| `KeyLed`, `KeyLedFlash`, `KeyLedDriver`, `KeyPeriod` | LEDs, a flashing thread and the blinking period |
| `GpioFn` | packed 3-bit pin-function fields |
| `Common`, `Arithmetic` | shared types and the facts about division the rest needs |

## Where the code decides against its own words

- The comment over `snull_enqueue_buf` (`snull/snull_anuz.c:183`) speaks of the end of the queue; the code
  pushes and pops the front, so the receive queue is a stack. In regular mode frames nevertheless arrive in
  order (`FramesArriveOnceInOrder`). In polling mode they do exactly in the runs where nothing waits at the twin
  whenever a frame is sent (`OrderKeptIffSpaced`); two frames sent before a poll are swapped (`SwappingRun`), and a
  whole burst arrives reversed (`BurstArrivesReversed`).
- `linkedlist_read` copies from the block under the *write* cursor (`linkedlist/linkedlist_platform.c:129`).
  The model does the same. All messages of a length survive a write and a read exactly when the length is
  below one block (`RoundTripLengths`); `LostMessage` gives a message of any other length that does not come back. `IntentRoundTrip` is about the variant that reads under the read cursor and says so.
- `node_count` starts at 1 but is set back to 0 on overflow (`linkedlist/linkedlist_platform.c:105`); the model keeps both.
- `linkedlist_write` announces the size of a message before it copies it, so a session announces its own size exactly
  when its very first copy succeeds (`AnnouncedIffFirstTrySucceeds`); one failure and a retry already announce it
  twice (`RetryAnnouncesTwice`).
- With a lockup simulated and both devices sending, a receive interrupt can consume the transmit bit of a stalled
  sender. Its buffers are then freed once each exactly when it starts no transmission with the bit still set and its
  watchdog does not fire with the bit already clear (`OnceEachIffOrderly`); `FreedTwice` is a run that does.
- A stalled queue whose pool still has packets is restarted by nothing but the watchdog (`StallNeedsWatchdog`), which
  overwrites a pending receive bit: in the run `FrameLeftBehind` a sent frame stays queued.
- `hello_keys_isr` never checks for a full ring: `LossHappensAtOverrun` says which event loses what, `SilentAfter256`
  gives the shortest run that loses, and `LosslessIff` says for which runs nothing is lost.
- `nvf_connect` admits names of 15 bytes (`dummy_wifi/virtualwifi.c:184`) for a buffer of 12 (line 19). The model gives
  the buffer the four bytes behind it, so it says what such names do to the comparison, but not what they do to
  whatever else may lie there.
- Polling mode is taken from `snull/snull_3dec2020.c`. In `snull/snull_anuz.c` the poll routine cannot work:
  `priv->dev` is never set, and `netif_napi_add` runs before the `memset` that wipes `priv` (lines 672-675).

## Assumptions

- snull: a function body under the device lock is one step; so is `snull_release_buffer` with its wake test,
  and `status |= ...` is atomic. One transmitter thread per device; the kernel calls the transmit routine only
  while the queue runs, and with `lockup == 0` the watchdog does not fire. Each pool got at least one packet.
  A frame handed to a packet is at most 1500 bytes, the size of its `data[]`; with the default MTU the kernel may pass
  1514, Ethernet header included, and `snull/snull_anuz.c:482` then writes past the array. `ip_fast_csum`, which is not part of the repository, returns the complement of the
  one's complement sum of section 1 of RFC 1071 for a header of at least five words inside the padded frame, and
  any value for other frames. Whether an skb can be allocated is free at each reception.
- Polling mode: a whole transmission and a whole poll are each one step, `napi_complete_done` returns true, `lockup == 0`.
- Lockup: in `SnullLockup` only one device sends, and a stalled queue is revived by the timeout; in `SnullTwoWay` both do as they like.
- Block ring: any user copy may fail, and one of negative length does; a failing copy from user space leaves any
  bytes in the place it was to fill. Offsets are not negative; a reader's buffer takes whatever one call copies, as
  the code ignores the requested size. The lemmas about contents of whole sessions are about sessions without failing copies.
- Key ring: the interrupt and a read are each one step, and there is one reader.
- Wifi: a work item's pending bit is cleared before its routine runs, and a routine never runs twice at once;
  the workers are not interrupted in `down_interruptible` (callers may be).
- LEDs: the sysfs handlers and removal do not overlap each other; flashing threads run between any two
  actions of a handler; `kthread_stop` waits for the thread; a written buffer is not empty.
- Counters, `size_to_read` and `cnt` do not overflow their C types. The period's 32-bit wrap-around is modelled.

## Model

| member | source | states |
|---|---|---|
| IpHeader.RewriteInPlace | snull/snull_anuz.c:460-471 | the field-by-field rewrite of the buffer is the functional rewrite: both third octets flipped in their lowest bit, the checksum field rebuilt from a zeroed one |
| IpHeader.RewriteVerifies | snull/snull_anuz.c:467-471 | for every header length and any previous checksum, a rewritten header passes the receiver's check (section 3.1 of RFC 791) if the frame holds a whole one, which the rewrite does not change; `CheckCoversHeader` says what the check covers |
| IpHeader.CheckCoversHeader | snull/snull_anuz.c:470-471 | what that check covers: of a header that verifies it catches any change in any of its bytes, whatever its length, and it sees no change elsewhere |
| IpHeader.KnownHeader | snull/snull_anuz.c:460-471 | a fixed reference point: an ordinary five-word header between .0.1 and .0.2 gets the checksum b7 68 and the octets 1 and 1 |
| IpHeader.RewriteTouches | snull/snull_anuz.c:467-471 | no byte but bytes 24, 25, 28 and 32 of the frame changes, and the last two change in the lowest bit only |
| IpHeader.RewriteTwice | snull/snull_anuz.c:467-471 | two hops give the original header with a freshly computed checksum, hence the original iff it carried that one |
| IpHeader.VerifiedIsRestored | snull/snull_anuz.c:467-471 | a header that verified on arrival comes back unchanged iff its checksum field was not 0xFFFF |
| IpHeader.Fold | snull/snull_anuz.c:471 | end-around-carry folding keeps the residue modulo 0xFFFF and is 0 only for 0 |
| IpHeader.ComplementMakesOnes | snull/snull_anuz.c:471 | adding the complement of a folded sum gives all ones |
| IpHeader.PrepareFrame | snull/snull_anuz.c:554-570 | for a frame of any length: a short one is padded in a buffer of its own and the caller's data kept, a long one is rewritten in the caller's buffer |
| IpHeader.WirePads | snull/snull_anuz.c:562-567 | a frame on the wire has at least 60 bytes: the data, then zeros, but for the four bytes the rewrite touches |
| SnullDevice.Device.SetupPool | snull/snull_anuz.c:117-136 | the pool is a chain of as many distinct packets owned by the device as asked for, or as memory allowed |
| SnullDevice.Device.TeardownPool | snull/snull_anuz.c:139-149 | exactly the packets of the pool are freed, in list order, and the pool is empty |
| SnullDevice.Device.GetTxBuffer | snull/snull_anuz.c:152-167 | the head leaves the pool; the queue stops iff that was the last packet |
| SnullDevice.Device.PutBack | snull/snull_anuz.c:170-181 | the packet becomes the pool's head; a stopped queue wakes iff the pool was empty |
| SnullDevice.Device.Enqueue | snull/snull_anuz.c:184-193 | the packet becomes the head of the receive queue, the rest untouched |
| SnullDevice.Device.Dequeue | snull/snull_anuz.c:196-208 | the head leaves the receive queue, or null and no change when it is empty |
| SnullDevice.Device.Rx | snull/snull_anuz.c:349-378 | a frame is counted with its length and handed up, or counted as dropped |
| SnullDevice.Device.TxDone | snull/snull_anuz.c:413-419 | one transmission and its length counted, the remembered skb freed |
| SnullDevice.Device.TxDoneOnce | snull/snull_3dec2020.c:425-433 | the same, freeing and forgetting the skb only if there is one |
| SnullDevice.Device.RegularInterrupt | snull/snull_anuz.c:382-422 | the whole status word is consumed: both halves run iff their bit was set, and the packet to release is returned; that a frame is delivered iff the allocation succeeded is `ReceptionsFollowAllocations` |
| SnullDevice.Device.TxTimeout | snull/snull_anuz.c:539-551 | the status is overwritten by the transmit bit and served, an error counted, the queue restarted |
| SnullDevice.OpenDevice | snull/snull_anuz.c:585-596 | an opened device starts as the machine's initial record over its pool |
| SnullRegularDriver.OpenPair | snull/snull_anuz.c:647-679 | two opened devices, with pools as large as possible, form an initial state of the machine |
| SnullRegularDriver.Port.Start | snull/snull_anuz.c:554-577 | padding, header rewrite and remembering the skb are the machine's first step |
| SnullRegularDriver.Port.TakeBuffer | snull/snull_anuz.c:480 | taking a packet on the linked pool is the machine's step, and no list comes to share a packet |
| SnullRegularDriver.Port.PushPacket | snull/snull_anuz.c:481-483 | the packet carries the frame and tops the twin's queue; lists stay disjoint |
| SnullRegularDriver.Port.RaiseReceive | snull/snull_anuz.c:484-485 | the twin's receive bit is set iff it listens |
| SnullRegularDriver.Port.InterruptTwin | snull/snull_anuz.c:486 | the twin's handler run on the heap is the machine's step |
| SnullRegularDriver.Port.ReleaseOwn | snull/snull_anuz.c:424 | the packet popped at the twin returns to the sender's pool |
| SnullRegularDriver.Port.RaiseTransmit | snull/snull_anuz.c:489-500 | length and transmit bit set; a due lockup stops the queue instead of going on |
| SnullRegularDriver.Port.InterruptSelf | snull/snull_anuz.c:500 | the sender's own handler is the machine's step, whatever bits are left |
| SnullRegularDriver.Port.ReleaseTwin | snull/snull_anuz.c:424 | a packet of the twin's popped by the sender's handler returns to the twin's pool |
| SnullRegularDriver.Port.TxTimeout | snull/snull_anuz.c:539-551 | the watchdog on the heap is the machine's recovery |
| SnullRegularProof.NextKeepsGood | snull/snull_anuz.c:382-503 | every step of either transmitter keeps the whole invariant: owners, queue, flags, histories, counters |
| SnullRegularProof.TwinInterruptKeepsHistories | snull/snull_anuz.c:382-426 | an interrupt at the twin appends exactly the awaited frame to its history, and frees the twin's skb iff it consumes the bit |
| SnullRegularProof.InterruptKeepsStats | snull/snull_anuz.c:404-419 | the counters match the traces after an interrupt, whichever bits it consumed |
| SnullRegularTheorems.SentIsRequests | snull/snull_anuz.c:554-583 | the history of sent buffers is exactly what the kernel asked for in the run |
| SnullRegularTheorems.FramesArriveOnceInOrder | snull/snull_anuz.c:382-503 | in any interleaving each frame is handled by the twin once and in sending order; the queue never holds two and is empty when the transmitter is idle |
| SnullRegularTheorems.HandledFramesVerify | snull/snull_anuz.c:349-378 | every frame a device ever handles that was sent with a whole IP header carries a header checksum that verifies |
| SnullRegularTheorems.SkbsFreedOnce | snull/snull_anuz.c:413-419 | each skb is freed once, in order, before the next transmission overwrites it, whoever consumes the bit |
| SnullRegularTheorems.TransmissionsCountedOnce | snull/snull_anuz.c:489-500 | packets and bytes counted are exactly those of the finished transmissions, without errors |
| SnullRegularTheorems.CountersBalance | snull/snull_anuz.c:362-373 | an idle sender's packet count equals what its twin received plus dropped |
| SnullReception.ReceptionsFollowAllocations | snull/snull_anuz.c:349-419 | in every run, lockups or not: the k-th frame a device handles is delivered iff the allocation at the k-th step that serves it succeeded, and rx_packets, rx_dropped and rx_bytes count just that |
| SnullReception.StepReceives | snull/snull_anuz.c:382-419 | a step of either transmitter, or a timeout, leaves a device's receive side alone unless it serves the device with its receive bit set and a packet queued |
| SnullRegularTheorems.StepsAlwaysProgress | snull/snull_anuz.c:152-167 | a transmitter under way is never blocked: the unchecked pool head is never null, and each step brings it nearer its end |
| SnullRegularTheorems.TransmittersFinish | snull/snull_anuz.c:429-503 | from every reachable state both transmitters can finish within eight steps each |
| SnullRegularTheorems.PacketsArePartitioned | snull/snull_anuz.c:117-208 | in every reachable state, lockups included, a device's packets are split without loss or duplicates among pool, twin's queue and hands |
| SnullRegularTheorems.QuietMeansPoolsComplete | snull/snull_anuz.c:139-149 | with both transmitters idle each pool holds exactly what set-up allocated, so tear-down frees it all, and both queues run |
| SnullRegularTheorems.MoveKeepsUnique | snull/snull_anuz.c:152-208 | no step puts a packet in two places |
| SnullLockup.LockupAccounting | snull/snull_anuz.c:493-551 | with one sender, whenever its queue runs every transmission is counted and freed once and the errors are the transmissions divided by the period; in a stall exactly the last is missing |
| SnullLockup.ConsumeCounts | snull/snull_anuz.c:413-419 | consuming the transmit bit settles the one pending skb, and an error is due exactly if it had stalled |
| SnullLockup.RecoverKeepsInv | snull/snull_anuz.c:539-551 | a recovery ends the stall and keeps the accounts |
| SnullTwoWay.OrderlyRunsAccount | snull/snull_anuz.c:382-551 | lockups or not, both devices sending: in a run in which t starts only with its transmit bit clear and its watchdog fires only with it set, its transmissions are freed once in order and counted once with their own lengths |
| SnullTwoWay.OnceEachIffOrderly | snull/snull_anuz.c:382-551 | for distinct buffers: freed once each, in order, with only the outstanding one missing, exactly in those runs |
| SnullTwoWay.FreedTwice | snull/snull_anuz.c:413-551 | from every start with every transmission stalling: t stalls, its twin sends, t's watchdog fires, and t's one skb has been freed twice |
| SnullTwoWay.StallNeedsWatchdog | snull/snull_anuz.c:493-551 | in every run: a queue stopped by a lockup with packets left in its pool stays stopped until its watchdog fires |
| SnullTwoWay.FrameLeftBehind | snull/snull_anuz.c:539-551 | a run in which a timeout swallows a receive bit and leaves a sent frame queued and unhandled |
| SnullNapiDriver.NapiPort.Interrupt | snull/snull_3dec2020.c:398-438 | the polling interrupt handler on the heap is the machine's: a receive bit disables interrupts and schedules a poll |
| SnullNapiDriver.NapiPort.PollRound | snull/snull_3dec2020.c:309-330 | one round moves the queue's head back to its owner's pool and delivers or drops its frame |
| SnullNapiDriver.NapiPort.PollRounds | snull/snull_3dec2020.c:308-331 | the loop on the lists is the machine's loop, round by round, with its packet count |
| SnullNapiDriver.NapiPort.Poll | snull/snull_3dec2020.c:300-344 | a poll is the machine's step: it completes iff it used less than its budget |
| SnullNapiDriver.NapiPort.Tx | snull/snull_3dec2020.c:535-558 | a transmission, padding included, is the machine's step, the out-of-pool return with the lock held included |
| SnullNapiDriver.NapiPort.HwTx | snull/snull_3dec2020.c:501-530 | the loop-back part on the lists is the machine's step and keeps the lists disjoint |
| SnullNapiDriver.OpenNapiPair | snull/snull_3dec2020.c:685-722 | two opened devices, with pools as large as possible, form an initial state of the polling machine with disjoint lists |
| SnullNapi.TransmitEffect | snull/snull_3dec2020.c:501-530 | a transmission moves one packet with the frame to the top of the twin's queue, leaves the twin polling and deaf, and counts and frees the skb |
| SnullNapi.TransmitKeepsInv | snull/snull_3dec2020.c:445-530 | a transmission keeps the polling invariant of both devices |
| SnullNapi.PollOneKeepsInv | snull/snull_3dec2020.c:308-331 | a poll round keeps it, whether or not the allocation succeeds |
| SnullNapiTheorems.PollLoopTakes | snull/snull_3dec2020.c:308-331 | the loop takes packets from the top, as many as queue and budget allow, failed allocations or not, and ends |
| SnullNapiTheorems.PollingProtocol | snull/snull_3dec2020.c:133-177 | in every run: interrupts are off iff a poll is scheduled, packets never wait without one, the queue runs iff the pool is not empty, and the lock is never left held |
| SnullNapiTheorems.CountersBalance | snull/snull_3dec2020.c:308-331 | in every run: received plus dropped plus waiting equals the twin's transmissions; received bytes are those of the delivered frames; every handled frame has at least 60 |
| SnullNapiTheorems.FramesArriveOnce | snull/snull_3dec2020.c:300-344 | in every run each frame content is handled as often as it was sent, less the waiting copies |
| SnullNapiTheorems.NSentIsRequests | snull/snull_3dec2020.c:535-558 | the history of sent buffers is what the kernel asked for |
| SnullNapiDrain.PollTakesNewest | snull/snull_3dec2020.c:300-344 | a poll handles the newest frames first, as the budget allows, and stays scheduled iff it used the whole budget |
| SnullNapiDrain.DrainTakesExactly | snull/snull_3dec2020.c:300-344 | n waiting packets take exactly n / budget + 1 polls, however allocations fail: one less still polls, the last empties the queue and listens again, frames newest first |
| SnullNapiDrain.BurstIsStacked | snull/snull_3dec2020.c:168-177 | frames sent while nobody polls lie on the twin's queue in reverse order |
| SnullNapiDrain.BurstArrivesReversed | snull/snull_3dec2020.c:168-177 | a burst into an empty queue, once drained, arrives reversed, each frame once |
| SnullNapiOrder.StepOrder | snull/snull_3dec2020.c:168-177 | the order in which frames are and will be handled changes only when one is sent, which puts it before all that wait |
| SnullNapiOrder.SpacedRunsKeepOrder | snull/snull_3dec2020.c:300-344 | in every run in which nothing waits at the twin whenever t sends, t's frames are handled in sending order, with at most one waiting |
| SnullNapiOrder.OrderKeptIffSpaced | snull/snull_3dec2020.c:168-344 | for distinguishable frames the handling order is the sending order exactly in those runs |
| SnullNapiOrder.SwappingRun | snull/snull_3dec2020.c:168-344 | the shortest other run, two sends and a poll, is possible from every start with two packets and swaps its frames |
| SnullNapiDrain.ReachableIsCalm | snull/snull_3dec2020.c:300-344 | the premises of the draining lemmas hold in every reachable state |
| SnullNapiPackets.NPacketsArePartitioned | snull/snull_3dec2020.c:133-191 | in every run a device's packets are split without loss or duplicates between its pool and the twin's queue |
| SnullNapiReception.PollsFollowAllocations | snull/snull_3dec2020.c:300-344 | in every run the frames a device handles are delivered or dropped as the allocations of its polls go, round by round, and the receive counters count just that |
| SnullNapiReception.NSkbsFreedOnce | snull/snull_3dec2020.c:425-433 | in every run each skb asked for has been freed once, in order, and forgotten, and its frame counted |
| SnullNapiReception.DrainingRun | snull/snull_3dec2020.c:300-344 | from every reachable state with n packets waiting, the run of n / budget + 1 polls is possible, handles all of them newest first, and leaves the device listening |
| BlockRingDriver.BuildChain | linkedlist/linkedlist_platform.c:37-66 | the loop links the requested number of distinct nodes with distinct buffers, or reports that memory ran out |
| BlockRingDriver.BlockList.CreateList | linkedlist/linkedlist_platform.c:30-74 | with enough memory the chain is closed to a ring with every cursor at its head |
| BlockRingDriver.BlockList.Write | linkedlist/linkedlist_platform.c:76-113 | a write call on the nodes is the machine's: announced size, partial copy into one block or a fault, wrap and overflow reset; what the announced size comes to is in `BlockRingAnnouncements` |
| BlockRingDriver.BlockList.Read | linkedlist/linkedlist_platform.c:115-152 | a read call on the nodes is the machine's, out of the block under the write cursor, with its faults and its end-of-data reset |
| BlockRing.WriteKeepsFlat | linkedlist/linkedlist_platform.c:85-109 | one write call, failing or not, keeps the flat circular view of everything written so far |
| BlockRing.WritesFillFlatBuffer | linkedlist/linkedlist_platform.c:76-113 | after any writes from a reset state, byte i of all that was written sits in block (i / size) mod count at i mod size, for the last count * size bytes or one block less if some copy failed, and the cursor is at the total |
| BlockRingAnnouncements.AnnouncementsFollowTotals | linkedlist/linkedlist_platform.c:76-113 | after any write calls, failing or not: the node count is one more than the blocks filled, modulo one more than there are blocks; the announced size and the read cursor follow from the byte totals alone |
| BlockRingAnnouncements.AnnouncedBelowCapacity | linkedlist/linkedlist_platform.c:82-83 | while the ring has not been filled the announced size is the sum of the sizes of the calls made at offset 0 or before the first block was full |
| BlockRingAnnouncements.SmallWritesReadBack | linkedlist/linkedlist_platform.c:76-152 | any writes that together stay below one block, at whatever offsets: their total is announced, and a fresh read session returns them joined |
| BlockRingAnnouncements.AnnouncedExactly | linkedlist/linkedlist_platform.c:76-152 | for a message of any length, exactly how many bytes a session announces and a reader gets |
| BlockRingAnnouncements.FaultsKeepStore | linkedlist/linkedlist_platform.c:123-131 | when a read call faults, and that it then changes nothing |
| BlockRingRetries.RetriesAnnounce | linkedlist/linkedlist_platform.c:76-113 | in a session of a message that fits, each try up to and including the first success announces the whole message and the later ones nothing; a fresh reader gets exactly that many bytes |
| BlockRingRetries.AnnouncedIffFirstTrySucceeds | linkedlist/linkedlist_platform.c:82-92 | a completed session announces, and is read back with, its own length iff its very first copy succeeds |
| BlockRingRetries.RetryAnnouncesTwice | linkedlist/linkedlist_platform.c:82-92 | the smallest other session, one failure and its retry, announces twice the size |
| BlockRingSessions.CapacityIs | linkedlist/linkedlist_platform.c:9-10 | the capacity the session lemmas speak of is the number of blocks times their size |
| BlockRingSessions.WriteAllFills | linkedlist/linkedlist_platform.c:76-113 | retrying partial writes of a message that fits ends with exactly its length announced and its bytes in their slots |
| BlockRingSessions.AnnouncedIffItFits | linkedlist/linkedlist_platform.c:82-108 | a session announces the whole message iff it is smaller than the ring |
| BlockRingSessions.CycleLength | linkedlist/linkedlist_platform.c:76-152 | for any message a fresh read session ends with the end of file and returns exactly the announced number of bytes, at most the excess over a full ring for one that does not fit |
| BlockRingSessions.CycleRestores | linkedlist/linkedlist_platform.c:115-152 | for any message a write and a read session restore every cursor and counter; as many bytes come back as were written iff the message is smaller than the ring |
| BlockRingSessions.CycleEchoes | linkedlist/linkedlist_platform.c:129-133 | which byte each byte read is: one of the message's unfinished last block, or what that block held before |
| BlockRingSessions.RoundTripCondition | linkedlist/linkedlist_platform.c:129-133 | a message comes back iff it equals that, which every message below one block does |
| BlockRingSessions.RoundTripLengths | linkedlist/linkedlist_platform.c:129-133 | for every length: all messages of it come back iff it is below one block |
| BlockRingSessions.LostMessage | linkedlist/linkedlist_platform.c:129-133 | for every other length, a message that does not come back |
| BlockRingSessions.IntentRoundTrip | linkedlist/linkedlist_platform.c:115-152 | intent, not code: reading under the read cursor would return every message that fits |
| BlockRingSessions.CyclesReadBack | linkedlist/linkedlist_platform.c:76-152 | over any number of write and read cycles of any messages, lengths are right iff the message is smaller than the ring, and each message below a block comes back |
| KeyRing.KeyDevice.Isr | wait_int_dev/sleep_module.c:62-83 | the interrupt stores the character and advances the write index, wrapping at 256 |
| KeyRing.KeyDevice.MyRead | wait_int_dev/sleep_module.c:31-56 | a read consumes a character only if the ring is not empty, it was not interrupted and the copy succeeded |
| KeyRing.RunRefines | wait_int_dev/sleep_module.c:31-83 | the ring refines a queue of event numbers that forgets all it holds when the 256th unread event arrives |
| KeyRing.ReadsAreOrderedSubsequence | wait_int_dev/sleep_module.c:31-83 | in every run the characters read are key events of the run in order, none twice, and the missing ones come in batches of exactly 256 |
| KeyRing.CharactersTellLevels | wait_int_dev/sleep_module.c:69-75 | in every run a character read is P iff the line read 1 at the event it stands for, and R otherwise |
| KeyRing.FailedReadsAreLost | wait_int_dev/sleep_module.c:41-54 | a run ends in the same state without its interrupted and failing reads |
| KeyRing.LossHappensAtOverrun | wait_int_dev/sleep_module.c:72-78 | if a key event makes the write index meet the read index, 256 events are gone and the reader will only ever get what a fresh ring would give it; after any other event reading on delivers all that was unread |
| KeyRing.OverrunIsForGood | wait_int_dev/sleep_module.c:72-78 | by number: whatever follows an overrun, none of the 256 events unread at it is ever delivered |
| KeyRing.SilentAfter256 | wait_int_dev/sleep_module.c:41-78 | after 256 presses no number of reads returns anything |
| KeyRing.LosslessIff | wait_int_dev/sleep_module.c:31-83 | nothing is lost iff at most 255 events are unread at all times, and then what is read is a prefix of the events |
| WifiDriver.Navifly.constructor | dummy_wifi/virtualwifi.c:393-398 | the initial state of the machine: no request, nothing pending, the semaphore free, only the first name byte cleared |
| WifiDriver.Navifly.Down | dummy_wifi/virtualwifi.c:213-215 | a thread that gets the semaphore takes the machine's step, and the token invariant holds on |
| WifiDriver.Navifly.Scan | dummy_wifi/virtualwifi.c:217-222 | the request is accepted iff every request accepted before has been completed |
| WifiDriver.Navifly.ScheduleScanWork | dummy_wifi/virtualwifi.c:224-226 | scheduling the scan work succeeds, wherever the other threads stand |
| WifiDriver.Navifly.ScanRoutine | dummy_wifi/virtualwifi.c:101-102 | what is reported done is the oldest accepted request not yet completed, never null |
| WifiDriver.Navifly.Connect | dummy_wifi/virtualwifi.c:184-195 | after the store the buffer compares equal iff this name spells the network's, whatever it held before |
| WifiDriver.Navifly.ScheduleConnectWork | dummy_wifi/virtualwifi.c:199-201 | it fails iff a result not yet begun is already owed, and afterwards one is owed |
| WifiDriver.Navifly.ConnectRoutine | dummy_wifi/virtualwifi.c:120-130 | success iff the last name stored since the previous run spells the network's, one owed result is settled, and no name matches afterwards |
| Wifi.StoredNameMatches | dummy_wifi/virtualwifi.c:120-195 | right after a store the comparison succeeds iff the name is the network's, or starts with it and a terminator, whatever the buffer held |
| Wifi.NextKeepsScan | dummy_wifi/virtualwifi.c:86-229 | every step of every thread keeps the token invariant |
| Wifi.ScansCompleteInOrder | dummy_wifi/virtualwifi.c:86-229 | in every run a request is recorded iff exactly one place may complete it, scheduling never fails, and requests complete once, in acceptance order, never as null |
| Wifi.ConnectsReportOnce | dummy_wifi/virtualwifi.c:112-203 | in every run accepted connects are reported once, are pending, or are being run; success iff the last stored name since the previous run spells the network's; that the names are the callers' is `ArgumentsComeFromCalls` |
| WifiCalls.ArgumentsComeFromCalls | dummy_wifi/virtualwifi.c:179-229 | in every run: a caller under way carries the argument of its own latest call, every accepted scan is one called for, and so is every name stored or reported on |
| WifiCalls.ConnectEndToEnd | dummy_wifi/virtualwifi.c:112-203 | from every reachable quiet state, however the threads interleave: one undisturbed call to connect is reported once, as a success iff the name given spells the network's; an empty name is refused |
| WifiCalls.ScanEndToEnd | dummy_wifi/virtualwifi.c:86-229 | likewise one undisturbed call to scan is accepted, and its own request is the one reported done |
| WifiCalls.InterruptedCallsAreLost | dummy_wifi/virtualwifi.c:190-215 | in every reachable state a call interrupted while it waits leaves no trace |
| WifiCalls.StoredBytes | dummy_wifi/virtualwifi.c:184-195 | a store writes the first bytes of the name, at most 15, ends them with a zero and leaves the rest |
| Wifi.StepsUseWork | dummy_wifi/virtualwifi.c:86-229 | without new calls every run is finite |
| Wifi.SomeoneCanStep | dummy_wifi/virtualwifi.c:86-229 | the semaphore never deadlocks: unless all is quiet a step is possible |
| Wifi.EverythingGetsDone | dummy_wifi/virtualwifi.c:86-229 | from every reachable state a run without new calls completes every accepted scan and reports every accepted connect |
| KeyLedDriver.LedDriver.constructor | keyled/keyled_module.c:360-369 | probe ends with every LED off and all flags zero |
| KeyLedDriver.LedDriver.AllOff | keyled/keyled_module.c:88-91 | the loop switches every LED off, one action each |
| KeyLedDriver.LedDriver.SetLedStore | keyled/keyled_module.c:73-107 | the handler does exactly its action list and returns the code's status |
| KeyLedDriver.LedDriver.BlinkOnStore | keyled/keyled_module.c:112-147 | the same, with the busy, invalid and thread-creation failures |
| KeyLedDriver.LedDriver.BlinkOffStore | keyled/keyled_module.c:152-175 | the same, with the return of 0 when no thread runs |
| KeyLedDriver.LedDriver.RemoveDriver | keyled/keyled_module.c:440-458 | the same for removal |
| KeyLedDriver.LedDriver.FlashOnce | keyled/keyled_module.c:48-71 | one scheduling of a thread toggles its local value and its LED, so that it blinks as `RoundsAlternate` says |
| KeyLedDriver.AloneIsARun | keyled/keyled_module.c:73-175 | a handler run without interruption is one of the machine's runs |
| KeyLed.HandlerIsSafe | keyled/keyled_module.c:73-175 | from any settled state every handler's whole action list is safe: no thread is stopped that does not live, none started beside another, no LED lit beside another |
| KeyLed.AtMostOneLit | keyled/keyled_module.c:48-175 | in every state of every run at most one LED is lit, between handlers the flag is set iff one thread lives, kthread_stop is called only on a live thread and as often as threads have ended, and after removal nothing is lit |
| KeyLed.CommandIsText | keyled/keyled_module.c:79-86 | a command written with any one character behind it, as a line end, is that command |
| KeyLedFlash.RoundsAlternate | keyled/keyled_module.c:48-71 | in every run: the scheduling that enters a thread writes nothing, its n-th one after that switches its LED on iff n is even and touches no other, whatever handlers that do not stop it did in between |
| KeyLedFlash.RoundFlipsUnlessWritten | keyled/keyled_module.c:60-67 | in every reachable state: if nothing writes the LED between two rounds of a thread, the second finds it as the first left it and flips it |
| KeyLedFlash.FlashesAlone | keyled/keyled_module.c:48-71 | from every reachable state with a thread just started: k schedulings in a row are possible, and leave its LED lit iff k - 1 is even and positive and every other LED as it was |
| KeyLed.InterleavingDoesNotMatter | keyled/keyled_module.c:48-175 | thread steps between a handler's actions do not change where it ends |
| KeyLed.HandlerOutcome | keyled/keyled_module.c:73-175 | from every reachable state a finished handler ends in the outline its actions give, whatever came in between |
| KeyLed.LightsAfterHandler | keyled/keyled_module.c:73-175 | after set_led "on" exactly that LED is lit, after "off" or a bad text those lit before but for a stopped thread's and, with "off", its own; after an effective blink_off none; after an effective blink_on at most the blinking one |
| KeyLed.SetLedEffect | keyled/keyled_module.c:73-107 | what set_led leaves possibly lit for each text, and that it stops any thread |
| KeyLed.BlinkOnEffect | keyled/keyled_module.c:112-147 | a thread starts iff the text is "on", none lives and one can be created; otherwise LEDs can only go out |
| KeyLed.BlinkOffEffect | keyled/keyled_module.c:152-175 | all goes dark iff the text is "off" and a thread lives; otherwise nothing changes |
| KeyPeriod.PeriodWord.Isr1 | keyled/keyled_module.c:226-238 | key 1 leaves the period in range whatever it was, one step up the climb if it was in range, and the word is what all events so far make of it |
| KeyPeriod.PeriodWord.Isr2 | keyled/keyled_module.c:240-252 | key 2 likewise: one step down to the floor, and 10 from anything below 10, where the subtraction wraps |
| KeyPeriod.PeriodWord.StorePeriod | keyled/keyled_module.c:179-199 | a store succeeds iff a number between 10 and 10000 was parsed, which the period then is; otherwise it keeps its value |
| KeyPeriod.PeriodWord.SetByProbe | keyled/keyled_module.c:424-425 | probe brings the period in range whatever earlier key presses made of it |
| KeyPeriod.PeriodStaysInRange | keyled/keyled_module.c:179-252 | once in range the period stays in [10, 10000] under any key presses and stores |
| KeyPeriod.InRangeIff | keyled/keyled_module.c:179-252 | from any word, probe done or not, the period ends in range iff it began there, probe set it, some key was pressed or a valid period stored |
| KeyPeriod.FirstKeyCatchesAnything | keyled/keyled_module.c:226-252 | either key brings any word into range; below 10 a decrement wraps to a huge value and is caught |
| KeyPeriod.UpsCycle | keyled/keyled_module.c:226-238 | k presses of key 1 climb while there is room, then cycle through the 1000 multiples of 10 |
| KeyPeriod.UpsFromTen | keyled/keyled_module.c:226-238 | from 10, k presses of key 1 give 10 + 10 * (k mod 1000) |
| KeyPeriod.UpsFromProbe | keyled/keyled_module.c:226-425 | whatever the word and the events before: k presses of key 1 after probe give 10 + 10 * (k mod 1000) |
| KeyPeriod.DownsFromStore | keyled/keyled_module.c:179-252 | whatever came before: k presses of key 2 after a store of a valid period q give the larger of 10 and q - 10k |
| KeyPeriod.DownsFloor | keyled/keyled_module.c:240-252 | k presses of key 2 give the larger of 10 and p - 10k |
| GpioFn.SetGpioFn | timer_module/timer_module.c:31-40 | the read-modify-write changes the one register of the pin, as the word function says |
| GpioFn.StartIsThreePerPin | timer_module/timer_module.c:34 | a field starts three bits per lower pin of its register |
| GpioFn.RegisterHoldsTenPins | timer_module/timer_module.c:31-40 | register j holds the codes of pins 10 * j to 10 * j + 9, three bits each from the lowest up |
| GpioFn.SetFnReadsBack | timer_module/timer_module.c:31-40 | after a call the pin reads the low three bits of the code and every other pin what it read before |
| GpioFn.RegistersRefineTable | timer_module/timer_module.c:31-40 | any sequence of calls refines the same updates of a map from pin to code |
| GpioFn.SpareBitsSurvive | timer_module/timer_module.c:31-40 | the two spare bits of every register survive any sequence of calls |
| GpioFn.CodesDetermineRegisters | timer_module/timer_module.c:19 | codes and spare bits determine the registers: nothing else is stored |
| GpioFn.SameTableSameRegisters | timer_module/timer_module.c:31-40 | sequences of calls with the same net effect on the map leave the same register contents |

## Left out

- Packet memory beyond the frame: `data[]` is a sequence set to the frame, so the fixed 1500-byte array and stale bytes behind the frame are not modelled.
- Interleavings inside `snull_release_buffer` and inside a poll: the wake test and the queue test are outside the lock there, and the stop/wake and polling invariants are not claimed at that grain.
- The order in which frames arrive when a lockup is simulated: a timeout overwrites a pending receive bit (`FrameLeftBehind`). A sender's own accounts and the fate of each handled frame are covered there.
- SnullNapiDriver.NapiPort.Tx: does not cover frames above 1500 bytes, because they are copied past the end of a packet's `data[]`.
- `snull_tx_timeout` of `snull/snull_3dec2020.c`: it rebuilds the pool while packets are in flight.
- `snull/snull.c` and `keyled/keyled_rpi_class.c`: near copies of the modelled files.
- Kernel services (skb allocation, `netif_rx`, cfg80211, GPIO, user copies, logging): represented by traces and free outcomes.
- The disconnect work of the wifi driver, which shares only the semaphore with what is modelled.
- Overlapping sysfs handlers of the LED driver, and the text parsing of `set_period` beyond its result.
- What a network name of 12 to 15 bytes does to the four bytes behind the name buffer, beyond that they are overwritten.
- Uninitialised block contents: a new block's bytes are zero in `BlockRingDriver`, arbitrary in `BlockRing`.
- Block list set-up that ran out of memory: the driver then registers with unset cursors, and no operation is modelled.
- `set_gpio_fn` with a pin outside 0 to 59, and signed overflow when shifting codes above 7 (the model shifts unsigned words).
- The blinking timer, GPIO output registers, `dma`, `accel`, `i2c`, `uio`, `hello` and the other registration-only modules: one-branch facts.
