# sDDF in Dafny

A model of the data planes of the seL4 Device Driver Framework, and proofs of what they promise: that buffers,
requests and bytes are neither lost nor duplicated between components that run concurrently, that no wakeup is lost,
that wrap-around rings behave as queues, and that translations keep their meaning.

Components interleave at single queue operations. Each of these parts is a step system: a state, the steps of every
component, and runs of any steps in any order. An invariant is kept by every step, and theorems about all runs follow.
The handlers are then written as the source has them, as methods with loops over that state, with what the other
components do in between given as a parameter (a schedule, rounds, or late input). Those of the two network
virtualisers, the copier, the virtio driver, the lwIP glue and the block virtualiser are shown to perform runs of
their system, and what they report is tied to that run. The imx and meson handlers work on a hardware ring; each step
of the receive system stands for at most one operation on that ring, and after every part of every run the ring so
reached represents the system's armed and completed buffers (`NetRing.RingFollows`).

| file | what it models |
|---|---|
| `NetRoute`, `NetRx`, `NetVirtRx` | the network receive path: routing, reference counts, the virtualiser |
| `NetOverrun`, `NetCopyState`, `NetCopy` | the copiers of the receive path, and what they rely on their clients for |
| `HwRing`, `NetDriver`, `NetRing` | the imx and meson descriptor rings, their receive handlers, their place in the receive path |
| `NetQueue`, `NetCapacity`, `Wakeup` | the shared queues, their capacities, and their signal protocol |
| `NetOffsets`, `NetTx` | buffers by their offsets, and the network transmit virtualiser |
| `VirtioNet`, `Ialloc` | the virtio network driver's virtqueue and the index allocator |
| `PbufPool`, `FreeList` | the lwIP glue's pbuf pool; free lists linked through an array, as it and the index allocator use them |
| `I2cRequest`, `I2cRegisters`, `I2cDriver`, `I2cLayout`, `I2cAnswer` | the Meson I2C token loader, the words it loads, and which requests it answers |
| `TcpEcho` | the TCP echo ring |
| `BitWords`, `BitArray`, `FsMalloc` | bit arrays and the cell allocator over them |
| `SerialRx`, `SerialTransfer`, `SerialRounds`, `SerialTx` | the serial virtualisers, the transfer between serial queues, and a row of transfers |
| `Partition`, `BlkVirt`, `BlkDisk`, `BlkReadBack`, `BlkOverrun` | block partitions, request multiplexing, both together, what reads bring back, the room for responses |
| `Crc32`, `CrcPolynomial` | the GPT checksum, and the polynomial division it stands for |
| `Sequences`, `Modular` | shared facts about sequences and modular arithmetic |

`dafny verify dfyconfig.toml` checks the project.

Some predicates hold part of their meaning behind a marker, as in `forall k :: Inside(k) ==> ...` with a marker that
is always true. They mean what they would without it; the marker keeps the solver from unfolding them where a proof
does not look inside.

Sizes, codes and moduli that the hardware or a protocol fixes are named where they are used, and written out as
numbers in the results that rest on them.

Where the code does less than one would expect of it, it is modelled as it is, with a concrete case and the exact
condition under which it does meet the expectation: the full test of the network queues (`NetQueue.EnqueueWhenFull`)
and their capacities (`NetCapacity.CapacityExactly`), the in-use test of the index allocator (`Ialloc.InUseExact`,
`Ialloc.DoubleFreeOfLast`), the pointer check of the pbuf pool (`PbufPool.FreeAcceptsExactly`,
`PbufPool.FreeKeepsListExactly`), the bounds checks of the block virtualiser (`Partition.AcceptedExactly`,
`Partition.DataFitsExactly`) and its assertion on response queues (`BlkOverrun.OutstandingExactly`), the truncated
cursor and the unchecked free of the cell allocator (`FsMalloc.FullIsSound`, `FsMalloc.StrayFree`), the contiguous
space of the TCP ring (`TcpEcho.ContAvailMeasures`), the copier's assertion on its client's queue
(`NetOverrun.CirculationExactly`), the serial transfer while its clients type (`SerialTransfer.SafeExactly`,
`SerialTransfer.SafeAtOnceExactly`, `SerialRounds.RowSafeExactly`), and I2C requests that are cut off
(`I2cRequest.LegalExactly`, `I2cAnswer.AnsweredExactly`).

The comment in `drivers/i2c/meson/i2c.c` at lines 680-681 has it that a request is always smaller than the data
returned; what makes the reuse of the buffer safe is the reverse, and that is what is proved. The comments in
`blk/components/virt.c` at lines 106-108 and 211-213 have it that the ids bound the responses; refused requests take no
id, and what bounds the responses is the client.

## Model

| member | source | states |
|---|---|---|
| `NetRoute.GetMacAddrMatch` | network/components/virt_rx.c:124-149 | The two loops return the first client whose address every byte matches, -2 when no client matches and the destination is six bytes 0xff, and -1 otherwise. |
| `NetRoute.BroadcastReachesAll` | network/components/virt_rx.c:141-149 | A destination of six bytes 0xff that is no client's own is addressed to every client and to no one else. |
| `NetRoute.ForClientAppend` | network/components/virt_rx.c:151-202 | The packets addressed to a client in a stream are those of its first part followed by those of its second. |
| `NetRx.NoAssertFails` | network/components/virt_rx.c:151-267 | In every state reachable by any interleaving of device, driver, virtualiser, copiers and clients, no assertion of the two handlers or of the copier can fail at the next step; the copier's on the client's active queue, if the client lets no more buffers circulate than its queues hold. |
| `NetRx.RefsCountHolders` | network/components/virt_rx.c:151-267 | In every such state between buffers, `buffer_refs[b]` is the number of clients that have b, each has it exactly once, in a queue or in its copier's hands, and b is on the driver side, once, exactly when that number is 0. |
| `NetRx.DeliveredInOrder` | network/components/copy.c:66-134 | Whatever the interleaving, the packets copied to a client are an in-order subsequence of the packets off the wire addressed to it (unicast and broadcast). |
| `NetRx.ReachableIsConserved` | drivers/network/imx/ethernet.c:128-187 | Every DMA buffer is in exactly one of driver free queue, ring, driver active queue, or shared out to clients, in every reachable state; queue contents stay in wire order. |
| `NetRx.StepConserves` | network/components/virt_rx.c:151-267 | Each single queue operation of any component keeps the accounting of every buffer. |
| `NetRx.RunConserves` | network/components/virt_rx.c:151-267 | So does every run from an accounted state. |
| `NetRx.ConservedIsSafe` | network/components/virt_rx.c:163-202 | Accounting alone implies the assertions of the next step: counts zero or non-zero where asserted, and room in the queue enqueued to; for a client's active queue, as long as its offered and waiting buffers are within capacity. |
| `NetRx.InitConserved` | network/components/virt_rx.c:280-320 | All buffers with the driver and all counts zero is accounted for. |
| `NetRx.RouteConserves` | network/components/virt_rx.c:174-202 | Routing one buffer to no, one or all clients sets its count to the clients it will reach. |
| `NetRx.ReleaseConserves` | network/components/virt_rx.c:221-250 | Lowering a count when a client returns a buffer, and giving it to the driver after the last, keeps the accounting. |
| `NetRx.RunKeepsOrder` | network/components/copy.c:66-134 | Every run keeps, per client, taken and waiting packets in wire order and the delivered ones a subsequence of them. |
| `NetRx.RunKeepsBound` | network/components/copy.c:73-114 | Over every run, a client never has more buffers offered, in its copier's hands and waiting than it lets circulate, or than its queues hold, with which it starts. |
| `NetOverrun.Overruns` | network/components/copy.c:98-99 | For every configuration in which a client lets more buffers circulate than its queues hold, a run after which the copier's assertion on the client's active queue fails. |
| `NetOverrun.CirculationExactly` | network/components/copy.c:98-99 | That assertion holds in every run if and only if the client lets no more buffers circulate than its queues hold. |
| `NetVirtRx.VirtRx.constructor` | network/components/virt_rx.c:280-320 | The virtualiser starts in the initial state of the step system. |
| `NetVirtRx.VirtRx.Classify` | network/components/virt_rx.c:174-197 | The destination decides between no, one and all clients, with the count asserted zero and set accordingly. |
| `NetVirtRx.VirtRx.Release` | network/components/virt_rx.c:232-247 | The count, asserted non-zero, is lowered; whether it reached zero is reported. |
| `NetVirtRx.VirtRx.Distribute` | network/components/virt_rx.c:183-188 | A broadcast buffer is enqueued to every client in turn, others running in between. |
| `NetVirtRx.VirtRx.HandleActive` | network/components/virt_rx.c:157-202 | One buffer from the driver is routed whole, by steps of the system, under any interference. |
| `NetVirtRx.VirtRx.RxReturn` | network/components/virt_rx.c:151-219 | Under any interference the handler performs a run of the step system, ends with the driver's active queue empty, flags exactly the clients that were sent something, and leaves the driver to be notified exactly if it was before or buffers went back to it. |
| `NetVirtRx.VirtRx.DrainFree` | network/components/virt_rx.c:223-260 | One client's returned buffers are taken back by steps of the system until its free queue is found empty. |
| `NetVirtRx.VirtRx.RxProvide` | network/components/virt_rx.c:221-267 | The handler performs a run of the step system in which each client's free queue was found empty; undisturbed it empties them all; the driver is to be notified exactly if that was noted before or buffers went back to it. |
| `NetVirtRx.RunUndisturbed` | network/components/virt_rx.c:151-267 | No step of device, driver or copiers changes what the virtualiser holds or its counts. |
| `NetCopy.Copier.constructor` | network/components/copy.c:145-181 | The copier starts in the initial state of the step system, all client buffers offered. |
| `NetCopy.UsableExactly` | network/components/copy.c:77-84 | An offer is taken if and only if its offset is 2048 k for one of the client's buffers k. |
| `NetCopy.CopiedTo` | network/components/copy.c:88-99 | The i-th packet copied goes to the buffer that the i-th usable descriptor names. |
| `NetCopy.Copier.Drain` | network/components/copy.c:73-114 | While all others act, a run of the step system: the virtualiser's queue is emptied; the flags say whether packets were copied and whether buffers went back; undisturbed, the waiting packets go in order to the usable client buffers in order, and every virtualiser buffer goes back with its offset. The assertion on the client's queue holds under the circulation condition. |
| `NetCopy.Copier.CopyOne` | network/components/copy.c:88-104 | One packet, taken from the virtualiser, is copied to the buffer offered and announced, and the virtualiser's buffer is returned, by steps of the system, under any interference. |
| `NetCopy.Copier.DropOne` | network/components/copy.c:105-112 | A packet for which the client has no buffer is taken and its buffer returned; nothing is copied. |
| `NetCopy.Copier.RxReturn` | network/components/copy.c:66-134 | The whole handler, under any interference, is a run of the step system that ends with the virtualiser's queue empty; the client is to be notified exactly if packets were copied to it since entry, the virtualiser exactly if packets were taken; undisturbed, the copies are the waiting packets in the usable buffers. |
| `NetCopy.ClientReceives` | network/components/copy.c:66-134 | End to end, in every state the copier passes through: what the client was sent is an in-order subsequence of what came off the wire for it, and every descriptor in its active queue names a buffer that holds that packet and its length, as long as the client does not offer a buffer again before taking the packet in it. |
| `NetCopyState.RunRelies` | network/components/copy.c:66-134 | Over every run of all others, a copier's input queues only grow at the end, its output queues only shrink at the front, and no buffer it still has to read is written to. |
| `HwRing.ArmRefines` | drivers/network/imx/ethernet.c:104-145 | Arming a ring that is not full overwrites neither a slot in use nor one the device owns, and appends to the contents. |
| `HwRing.PopRefines` | drivers/network/imx/ethernet.c:162-181 | Advancing the head removes the oldest completed slot and nothing else. |
| `HwRing.CompleteRefines` | drivers/network/imx/ethernet.c:162-181 | The device completing its oldest slot changes that slot only. |
| `HwRing.RecycleRefines` | drivers/network/meson/ethernet.c:156-187 | The error path moves a buffer from the oldest to the newest slot, also when the ring is full and head and tail share a slot. |
| `HwRing.RingIsFifo` | drivers/network/imx/ethernet.c:104-187 | Over every run, through any number of 32-bit wraps: valid, no buffer lost or duplicated, and in order unless an error recycles one. |
| `HwRing.CapacityMustDivide` | drivers/network/imx/ethernet.c:138-146 | Slot indices follow each other through the wrap exactly when the capacity divides 2^32. |
| `HwRing.CounterStep` | drivers/network/imx/ethernet.c:104-112 | `tail - head` in 32 bits counts slots in use as either counter steps past the wrap. |
| `NetDriver.Driver.constructor` | drivers/network/imx/ethernet.c:268-300 | An empty ring over any capacity that divides 2^32. |
| `NetDriver.Driver.RxProvide` | drivers/network/imx/ethernet.c:128-160 | Buffers are armed in the order freed, those that the virtualiser freed meanwhile behind the others, until the ring is full or none is left, and a signal is wanted afterwards exactly when the ring is not full. |
| `NetDriver.Driver.RxReturn` | drivers/network/imx/ethernet.c:162-187 | While the device goes on completing slots: everything found completed goes to the active queue, in order, with its length, all that was completed at entry included, and of the rest the lengths are those the device reported meanwhile, in order; no buffer is lost; the loop ends at a slot the device has not completed. With a quiet device, exactly what was completed. |
| `NetDriver.Driver.RxReturnMeson` | drivers/network/meson/ethernet.c:156-193 | As for imx, except that buffers completed with an error are armed again behind the rest, in order. |
| `NetDriver.HoldsRecycle` | drivers/network/meson/ethernet.c:170-181 | Recycling from head to tail on a ring in any state of fullness. |
| `NetRing.ArmIsStep` | drivers/network/imx/ethernet.c:128-145 | Arming the ring with the buffer the driver took is the receive system's step. |
| `NetRing.CompleteIsStep` | drivers/network/imx/ethernet.c:162-181 | The device completing its oldest slot is the system's receiving step, possible in both at the same times, on the same buffer. |
| `NetRing.PopIsStep` | drivers/network/imx/ethernet.c:162-181 | Taking a completed head out is the system's returning step, possible in both at the same times, on the same buffer. |
| `NetRing.RingFollows` | drivers/network/imx/ethernet.c:128-187 | Every run of the receive system stands for operations on the ring, step by step. After each part of the run, the ring so reached, from any position of its counters, represents the system's armed and completed buffers, and the addresses taken out of it are those of the buffers the driver passed on, in order. |
| `Wakeup.NoLostWakeup` | network/components/virt_rx.c:204-218 | Over all interleavings of single queue and flag operations, a sleeping consumer with something to take always has a notification pending or a producer committed to its check, if and only if the consumer re-checks after asking for a signal. |
| `Wakeup.FullRingIsServed` | drivers/network/imx/ethernet.c:147-158 | A driver asleep with free buffers waiting and nothing on its way has a full ring; if any of it is completed the interrupt is pending, otherwise the next completion raises it, and its handler arms waiting buffers until the ring is full or none waits. |
| `Wakeup.StepKeeps` | network/components/virt_rx.c:252-266 | Every operation of producer, consumer and device keeps the invariant behind this. |
| `Wakeup.WithoutRecheckLost` | network/components/virt_rx.c:207-210 | A run that loses a wakeup when the second look is left out, for every configuration. |
| `Wakeup.AloneServes` | drivers/network/imx/ethernet.c:255-258 | A handler run to its end leaves nothing it could have taken, and every buffer it took is in the ring. |
| `NetQueue.FullTestExact` | include/sddf/network/queue.h:86-101 | The full test, on promoted operands, finds a full queue exactly when the 16-bit counters have not wrapped apart. |
| `NetQueue.EnqueueWhenFull` | include/sddf/network/queue.h:111-125 | On a full queue, enqueue refuses exactly when head <= tail; otherwise it overwrites the oldest element. |
| `NetQueue.WrappedFullExists` | include/sddf/network/queue.h:86-101 | A concrete full queue the test does not recognise. |
| `NetQueue.EnqueueAppends` | include/sddf/network/queue.h:111-148 | With a slot free, enqueue succeeds and appends, across the wrap. |
| `NetQueue.DequeueTakesOldest` | include/sddf/network/queue.h:157-194 | Dequeue takes the oldest, across the wrap. |
| `NetQueue.QueueIsList` | include/sddf/network/queue.h:50-194 | Any run of operations that never holds more than the capacity behaves as a list. |
| `NetCapacity.CapacityExactly` | include/sddf/network/queue.h:111-194 | From its initial state on, a queue behaves as a list in every run that never holds more than the capacity if and only if the capacity divides 2^16. |
| `NetCapacity.Clobbers` | include/sddf/network/queue.h:117-121 | For every other capacity, a run within the capacity in which a buffer enqueued before the wrap of the counters is overwritten after it. |
| `NetTx.ExtractOffset` | network/components/virt_tx.c:76-87 | The loop finds the first client whose region of 2048 bytes per buffer contains the address, with the offset in it, or -1 when none does. |
| `NetOffsets.IsBufferExactly` | network/components/virt_tx.c:100-101 | An offset is that of the k-th of so many buffers, 2048 k, for some k, if and only if it is a multiple of 2048 below the end of the region. |
| `NetOffsets.BuffersAllForwarded` | network/components/virt_tx.c:96-116 | A queue that holds buffers of the region only reaches the driver whole, in order, as addresses. |
| `NetTx.ExtractInverts` | network/components/virt_tx.c:76-87 | The address leads back to client and offset, for all clients and valid offsets, exactly when no buffer lies in an earlier client's region. |
| `NetTx.DisjointIsSeparable` | network/components/virt_tx.c:76-87 | Disjoint regions meet that condition. |
| `NetTx.TxRoundTrip` | network/components/virt_tx.c:89-167 | For every run, any offsets and any order of return: no assertion fails, and when nothing is on its way each client holds exactly its buffers again. |
| `NetTx.StepConserves` | network/components/virt_tx.c:89-167 | Every step of clients, virtualiser and driver keeps each client's multiset of buffers. |
| `NetTx.ConservedIsSafe` | network/components/virt_tx.c:96-114 | With the buffers accounted for, every queue enqueued to has room and every address has an owner. |
| `NetTx.VirtTx.ProvideOne` | network/components/virt_tx.c:96-116 | The oldest offset goes to the driver as an address if and only if it is 2048 k for one of the client's buffers k, and otherwise straight back to the client. |
| `NetTx.VirtTx.ReturnOne` | network/components/virt_tx.c:139-150 | A returned address goes to its owner's free queue as the original offset. |
| `NetTx.VirtTx.TxProvide` | network/components/virt_tx.c:89-132 | Under any interference, a run of the step system, with no return in it, in which every client's active queue was found empty. Undisturbed it empties them all, and the driver's queue gains, client by client and in order, the address of every buffer queued, 2048 k beyond the client's region, and nothing else. The driver is to be notified exactly if the run passes buffers on to it. |
| `NetTx.VirtTx.TxReturn` | network/components/virt_tx.c:134-167 | Under any interference, a run of the step system, with no provide in it, that ends with the driver's free queue found empty after a signal was requested. Exactly the clients to whom the run gives buffers are to be notified. |
| `NetTx.PassedReachesDriver` | network/components/virt_tx.c:96-116 | In every run, what is passed on is what the driver takes and then what waits for it, in order. |
| `NetTx.GivenReachesClient` | network/components/virt_tx.c:139-150 | In every run without a provide, the buffers given to a client are those it takes back and those waiting for it. |
| `I2cRequest.TranslationIsMeaning` | drivers/i2c/meson/i2c.c:389-543 | Translating an encoded list of operations token by token yields what the operations mean: start, stop and end, addresses, bytes sent, bytes received with the last marked. |
| `I2cRequest.LegalIsEncoded` | drivers/i2c/meson/i2c.c:458-490 | Every request the loader can go through to the end encodes some list of operations. |
| `I2cRequest.LegalExactly` | drivers/i2c/meson/i2c.c:458-543 | For every byte string and cursor: it is well formed if and only if its tokens are known, the walk through it ends with `rw_remaining` 0, and no length byte was read from beyond its end. |
| `I2cRequest.ReadableExactly` | drivers/i2c/meson/i2c.c:458-543 | The loader can go through a request if and only if it knows its tokens and no length byte is read from beyond its end. |
| `I2cRequest.LeftoverSwallows` | drivers/i2c/meson/i2c.c:464-505 | What a request leaves of a read or write is taken out of the next one: so many of its bytes are data and not tokens, and what is behind them is read as a request. |
| `I2cRequest.CutOffInstance` | drivers/i2c/meson/i2c.c:464-505 | A concrete request cut off inside a write, after which a whole well-formed request goes out as data. |
| `I2cRequest.DirectionIrrelevant` | drivers/i2c/meson/i2c.c:471-483 | Between operations the data direction left over from before has no effect. |
| `I2cRegisters.TokensPush` | drivers/i2c/meson/i2c.c:512-517 | Or-ing a shifted token into the two list registers leaves the nibbles before it and puts it next. |
| `I2cRegisters.DataPush` | drivers/i2c/meson/i2c.c:520-529 | The same for bytes in the two write data registers. |
| `I2cRegisters.NibbleInRegister` | drivers/i2c/meson/i2c.c:512-517 | At bit level, for every register value, token and position. |
| `I2cRegisters.TokensLayout` | drivers/i2c/meson/i2c.c:512-517 | The list registers are the tokens shifted by 0, 4, 8 and so on to 28 bits and or-ed, the first eight in the first register. |
| `I2cRegisters.DataLayout` | drivers/i2c/meson/i2c.c:520-529 | The write data registers are the bytes shifted by 0, 8, 16 and 24 bits and or-ed, the first four in the first register. |
| `I2cDriver.Fetch` | drivers/i2c/meson/i2c.c:464-505 | One round of the loop yields the next token, its byte, and the place after it. |
| `I2cDriver.LoadTokens` | drivers/i2c/meson/i2c.c:414-550 | One load puts exactly the next operations into the registers, as many as 16 tokens, 8 write and 8 read bytes allow, skipping and repeating nothing, and always progresses. |
| `I2cDriver.StoredKeepsRest` | drivers/i2c/meson/i2c.c:706-725 | A response that fits in front of the unread part of the request leaves that part intact. |
| `I2cDriver.AfterStore` | drivers/i2c/meson/i2c.c:706-725 | After every batch the response and status bytes stay clear of every request byte not yet loaded. |
| `I2cDriver.LeftoverReadOverwrites` | drivers/i2c/meson/i2c.c:706-725 | With a read left over from the request before, the first response overwrites bytes of the request that are not loaded yet. |
| `I2cDriver.Driver.HandleRequest` | drivers/i2c/meson/i2c.c:603-650 | A request of more than 128 bytes, or for an address of more than 7 bits, is dropped; otherwise its first batch is loaded, well formed or cut off, and whatever is left over of a write. |
| `I2cDriver.Driver.HandleResponse` | drivers/i2c/meson/i2c.c:668-764 | The bytes read are appended to the response: of the two read data registers, from the lowest byte of the first to the highest of the second. Then the next batch is loaded, strictly decreasing what remains, or the response handed back. |
| `I2cDriver.Driver.Serve` | drivers/i2c/meson/i2c.c:414-764 | Over all batches of a request the loader can go through, what the registers held is, concatenated, what the loader makes of it, although the response overwrites it in the same buffer; the response is OK, 0 and the bytes the controller supplied for each batch, from the lowest of the first read data register on, in order; `rw_remaining` ends as the walk through the request says. For a well-formed request that is its meaning, and 0. |
| `I2cDriver.GatheredUnpacks` | drivers/i2c/meson/i2c.c:706-725 | What is gathered over the batches is, batch by batch, as many bytes as it reads out of the registers the controller left. |
| `I2cLayout.LoadedLayout` | drivers/i2c/meson/i2c.c:507-529 | All four registers after a load, as shifts of its tokens and bytes. |
| `I2cLayout.WireCodes` | drivers/i2c/meson/i2c.c:389-412 | Requests and what they become in plain numbers: 1, 4, 0 become 1, 6, 0; 2 or 3, a length and bytes become 2 or 3 and a 4 for every byte, a 5 for the last one read. |
| `I2cLayout.InstanceLoads` | drivers/i2c/meson/i2c.c:389-529 | The request 1, 2, 1, 0x50, 4 is loaded as the words 0x6421 and 0x50. |
| `I2cAnswer.AnsweredExactly` | drivers/i2c/meson/i2c.c:449-543 | For every byte string and whatever was left over before: some load leaves nothing remaining, so that the response is sent, if and only if the last byte is not taken as an address token. |
| `I2cAnswer.NeverAnswered` | drivers/i2c/meson/i2c.c:536-543 | A request after each of whose loads 2^64 - 1 bytes remain. |
| `I2cAnswer.LoadsSixteenTokens` | drivers/i2c/meson/i2c.c:449-463 | Of tokens without data, a load takes the next sixteen, or all that are left. |
| `I2cAnswer.LoadsEightBytes` | drivers/i2c/meson/i2c.c:449-463 | Within a write or a read, a load takes the next eight bytes, or all that are left. |
| `TcpEcho.HelpersMeasure` | examples/echo_server/tcp_echo_socket.c:66-118 | In 64-bit unsigned arithmetic the helpers give free, unsent and unacknowledged bytes, which add up to capacity - 1. |
| `TcpEcho.ContAvailMeasures` | examples/echo_server/tcp_echo_socket.c:76-88 | The contiguous free space is positive if any is free, and in bounds exactly when `ack_head` is not 0 or the buffer is full; else it underflows. |
| `TcpEcho.ClampedInBounds` | examples/echo_server/tcp_echo_socket.c:195-202 | Clamped by the caller it is in bounds in every case, and positive while anything is left to copy. |
| `TcpEcho.ContLenMeasures` | examples/echo_server/tcp_echo_socket.c:103-109 | The contiguous run to transmit reaches exactly to the tail or to the end of the buffer, and is empty only if nothing is unsent. |
| `TcpEcho.LentIntact` | examples/echo_server/tcp_echo_socket.c:206-215 | A byte passed to tcp_write stays at its place, unchanged, until it is acknowledged. |
| `TcpEcho.Connection.Sent` | examples/echo_server/tcp_echo_socket.c:123-138 | Acknowledgements advance the ack head; the source's assertion holds. |
| `TcpEcho.Connection.Store` | examples/echo_server/tcp_echo_socket.c:194-202 | A packet that fits is appended to the stored stream in one or two copies. |
| `TcpEcho.Connection.Transmit` | examples/echo_server/tcp_echo_socket.c:204-216 | Stored bytes are passed on in order, as far as the writes accepted reach: one write to the end of the stream or of the buffer, two to the end of the stream. Something is left exactly if one of these is refused, and it is that which waits. |
| `TcpEcho.Connection.Recv` | examples/echo_server/tcp_echo_socket.c:146-222 | A packet is refused whole, changing nothing, exactly when it exceeds the free space or the send buffer; otherwise stored whole and echoed: with the first write accepted more is sent than before, with all of them everything received is. What was sent is always a prefix of what was received. |
| `TcpEcho.Connection.Callback` | examples/echo_server/tcp_echo_socket.c:123-222 | Each callback changes stream, echo and acknowledgements as the stream's own step says; what was passed to tcp_write has only grown and is a prefix of what was received. |
| `TcpEcho.Connection.Callbacks` | examples/echo_server/tcp_echo_socket.c:123-222 | Over any sequence of receive and ack callbacks, with any pattern of refusals in each, the stored stream is the accepted packets, whole and in order; what was passed to tcp_write only grows, is a prefix of it, and is exactly as long as the run of the stream says. |
| `TcpEcho.EchoCatchesUp` | examples/echo_server/tcp_echo_socket.c:204-216 | After any callbacks, a packet that is taken has everything received echoed if its two writes are accepted, what was left over before included, and more than before exactly if the first is. |
| `TcpEcho.AllEchoed` | examples/echo_server/tcp_echo_socket.c:146-222 | While no write is refused, all that is received is echoed. |
| `TcpEcho.NextProgress` | examples/echo_server/tcp_echo_socket.c:206-215 | Two accepted writes always reach the end of the stream: it wraps around the buffer at most once. |
| `BitArray.Bits.GetBit` | util/bitarray.c:52-57 | The bit at the index. |
| `BitArray.Bits.SetRegion` | util/bitarray.c:62-136 | Exactly the bits of the region are cleared, set or flipped, across word boundaries. |
| `BitArray.Bits.CmpRegion` | util/bitarray.c:156-204 | True exactly when the two regions agree bit for bit, however they are aligned. |
| `BitArray.ToggleTwice` | util/bitarray.c:150-154 | Toggling a region twice changes nothing. |
| `BitArray.ClearUndoesSet` | util/bitarray.c:138-148 | Clearing undoes setting exactly where nothing was set, and setting undoes clearing exactly where everything was. |
| `BitArray.ExtractEqual` | util/bitarray.c:185-194 | Masked and shifted words are equal exactly when their bits at the two offsets are. |
| `BitArray.OneWord` | util/bitarray.c:75-87 | A shifted mask changes exactly the bits of a region within one word. |
| `BitArray.FirstWord` | util/bitarray.c:89-100 | The first word of several changes from the start offset on. |
| `BitArray.LastWord` | util/bitarray.c:123-134 | The last word of several changes up to the end offset. |
| `FsMalloc.Allocator.constructor` | util/fsmalloc.c:108-121 | Over words with any contents, all cells available and none live. |
| `FsMalloc.Allocator.IsFull` | util/fsmalloc.c:44-70 | Full exactly when the cells the next allocation would take are not all available; what the mask's words held does not matter. |
| `FsMalloc.Allocator.Alloc` | util/fsmalloc.c:83-106 | Fails exactly when full, changing nothing; otherwise the cells returned were available and are live. They begin at the cursor, or at the first cell if they would not fit behind it; the address is theirs, and the cursor goes behind them or, at the end, to the start. |
| `FsMalloc.Allocator.Free` | util/fsmalloc.c:72-81 | Whatever is freed: exactly the cells from its address on become available, if the assertion on their number holds. A live allocation, given by its address and size, is then no longer live and the accounting holds; for any other cells the accounting holds exactly if all of them were available. |
| `FsMalloc.StrayFree` | util/fsmalloc.c:79-80 | Freeing cells that are no allocation keeps the accounting if and only if nothing of them was in use. |
| `FsMalloc.Allocator.EmptyServesAll` | util/fsmalloc.c:44-70 | With nothing live, every request up to the number of cells finds its cells available, wherever the cursor is. |
| `FsMalloc.LiveDisjoint` | util/fsmalloc.c:83-106 | Live allocations share no cell, and a cell of one is not available. |
| `FsMalloc.AvailableIffFree` | util/fsmalloc.c:72-106 | A bit is set exactly when its cell is in no live allocation. |
| `FsMalloc.FullIsSound` | util/fsmalloc.c:54-57 | fsmalloc_full looks at the cells that would be allocated, for every availability, exactly when the cursor is below 2^32. |
| `FsMalloc.AddressRoundTrip` | util/fsmalloc.c:17-31 | The address of a cell leads back to the cell, also when addresses wrap. |
| `SerialRx.Atoi` | include/sddf/util/util.h:82-105 | On digits: the number they denote, although it is accumulated negated. |
| `SerialRx.DecimalDenotes` | include/sddf/util/util.h:82-105 | The decimal digits of every number denote it. |
| `SerialRx.SplitIrrelevant` | serial/components/virt_rx.c:142-198 | The outcome does not depend on how the input is split over calls. |
| `SerialRx.RoundTrip` | serial/components/virt_rx.c:142-198 | Any list of payloads for clients, encoded with doubled switch characters and switch, 1 to 4 digits, terminator, is delivered: each client gets its payloads in order. |
| `SerialRx.FeedSelect` | serial/components/virt_rx.c:158-193 | Switch character, number and terminator select the client. |
| `SerialRx.DecimalSelects` | serial/components/virt_rx.c:158-193 | Every client with a number below 10000 is selected by typing it in decimal. |
| `SerialRx.FiveDigitsDropped` | serial/components/virt_rx.c:183-193 | A fifth digit ends the selection, and nothing is selected or delivered. |
| `SerialRx.EscapingNeedsNonDigit` | serial/components/virt_rx.c:158-176 | Doubling the switch character delivers every payload exactly when it is not a digit. |
| `SerialRx.VirtRx.Take` | serial/components/virt_rx.c:147-197 | One character, with local tail and publication, is one step of the mode machine. |
| `SerialRx.VirtRx.RxReturn` | serial/components/virt_rx.c:142-212 | The handler does what feeding the characters one by one does, and notifies exactly the clients whose queue grew. |
| `SerialTx.Pending.Push` | serial/components/virt_tx.c:208-221 | A client already pending stays in place; otherwise the assertion on the length holds and it goes last. |
| `SerialTx.Pending.Pop` | serial/components/virt_tx.c:223-231 | The client pending longest leaves, and its flag is cleared. |
| `SerialTx.Pending.Length` | serial/components/virt_tx.c:203-206 | The number of clients pending. |
| `SerialTx.RoomToPush` | serial/components/virt_tx.c:215-216 | A client that is not pending always finds room in the ring. |
| `SerialTransfer.MoveAll` | include/sddf/serial/queue.h:291-302 | The loop over contiguous pieces, while client and driver go on: it gets through exactly as the arithmetic on lengths says, and then the driver's stream has grown by what was queued and, behind it, what the client added at each point, as far as that fit its queue. |
| `SerialTransfer.TransferMeasured` | include/sddf/serial/queue.h:286-333 | The whole transfer from the moment its queue was measured, with and without colour codes: whether an assertion fails, and if none does, the stream gained, character by character, and the room left. |
| `SerialTransfer.AddsTyped` | include/sddf/serial/queue.h:291-302 | What goes along with a queue is what the client typed, in order, and nothing of it is left out up to the end of the transfer if its queue has room for it. |
| `SerialTransfer.LateTypingFails` | include/sddf/serial/queue.h:289-298 | A queue that fits when measured, and characters typed before the transfer, for which its assertion fails. |
| `SerialTransfer.SafeExactly` | include/sddf/serial/queue.h:286-333 | The transfer gets through for every way of typing up to m characters meanwhile if and only if queue, m and colour codes fit in the room measured. |
| `SerialTransfer.SafeAtOnceExactly` | include/sddf/serial/queue.h:286-333 | It gets through for everything the client can type before it if and only if a full client queue and colour codes fit in the room measured. |
| `SerialRounds.ServeSafe` | serial/components/virt_tx.c:233-269 | No assertion fails for a queue that can never fit, for a client that is quiet meanwhile, or if what it types fits as well; and then no more room is taken than that. |
| `SerialRounds.RowSafeExactly` | serial/components/virt_tx.c:271-285 | For any row of queues: no assertion fails however each client types up to m characters while it is processed, and whatever the driver takes, if and only if m is 0 or all the queues that can go fit in the driver's queue as it is, with m characters more each. |
| `SerialRounds.RowFails` | serial/components/virt_tx.c:271-285 | Otherwise, a way to type and to take for which an assertion fails. |
| `SerialTx.VirtTx.Type` | include/sddf/serial/queue.h:256-276 | A client queues as many characters as fit, behind those queued; the stream it has typed grows by these, and nothing of another client's changes. |
| `SerialTx.VirtTx.ProcessTxQueue` | serial/components/virt_tx.c:233-269 | No assertion fails exactly as the lengths and what happens meanwhile say. Then the queue is transferred, with what the client typed meanwhile behind it, or not at all; a client left with data is pending and a signal has been requested. |
| `SerialTx.VirtTx.TxReturn` | serial/components/virt_tx.c:271-297 | While all clients go on typing: exactly the clients pending at entry are served, once each, in order; those sent and waiting for it are notified, the driver exactly if any was sent; those that do not fit are pending again in order; nothing is taken from any other queue, and each stream grows only by what was typed, in order. An assertion fails exactly as the arithmetic on the lengths says, and none under the condition of RowSafeExactly. |
| `SerialTx.VirtTx.TxProvide` | serial/components/virt_tx.c:314-322 | As ProcessTxQueue for the notifying client: its queue is transferred and it is notified exactly if it waits for that, or it is pending with a signal requested. |
| `SerialTx.RenderedAs` | serial/components/virt_tx.c:170-188 | With colours, what a client sends goes between the escape codes of colour 31 to 36, by its number modulo 6, and of the default. |
| `Ialloc.InUseExact` | include/sddf/util/ialloc.h:59-65 | The test reports an index in use exactly when it is allocated or is the last of the free list. |
| `Ialloc.DoubleFreeOfLast` | include/sddf/util/ialloc.h:95-112 | Freeing the last free index again is accepted and leaves no well-formed list. |
| `Ialloc.Allocator.constructor` | include/sddf/util/ialloc.h:120-147 | All indices free, in order. |
| `Ialloc.Allocator.InUse` | include/sddf/util/ialloc.h:59-65 | As InUseExact, with the offset and the range check. |
| `Ialloc.Allocator.Alloc` | include/sddf/util/ialloc.h:75-85 | Fails exactly when nothing is free; otherwise hands out the index longest free. |
| `Ialloc.Allocator.Free` | include/sddf/util/ialloc.h:95-112 | An index out of range, or free and not the last of the list, is refused; an allocated one goes to the end of the list, also from the exhausted state; the last free one is accepted, and then nothing is a list any more. |
| `VirtioNet.DescriptorsAccounted` | drivers/network/virtio/ethernet.c:127-216 | For every run with chains returned in any order: no assertion fails, the counter is twice the packets in flight and the descriptors allocated, each of the 512 descriptors is idle or in one chain, no buffer is lost. |
| `VirtioNet.ProvideKeeps` | drivers/network/virtio/ethernet.c:133-161 | Building a chain from two idle descriptors disturbs no chain in flight: each is a header of 12 bytes linked to its buffer of 2048. |
| `VirtioNet.ReturnKeeps` | drivers/network/virtio/ethernet.c:185-208 | The head in the used ring leads to its buffer; both descriptors become idle. |
| `VirtioNet.CompleteKeeps` | drivers/network/virtio/ethernet.c:177-183 | The device returning any chain it holds keeps the rings and the accounting. |
| `VirtioNet.InvIsSafe` | drivers/network/virtio/ethernet.c:137-205 | Allocation never fails, both frees succeed, flags are as asserted, the queue has room. |
| `VirtioNet.WrapHarmless` | drivers/network/virtio/ethernet.c:155-187 | Wrapping a 16-bit index does not disturb its place in a ring of 512. |
| `VirtioNet.Driver.RxProvide` | drivers/network/virtio/ethernet.c:127-175 | Under any interference, a run of the step system in which the driver only provides, that ends with no free buffer or no descriptor left; the device is to be notified exactly if the run gives it buffers. Undisturbed, these are the first of the free queue, in order, and nothing else happens. |
| `VirtioNet.Driver.RxReturn` | drivers/network/virtio/ethernet.c:177-216 | While the device and the virtualiser go on, a run of the step system in which the driver passes on exactly the buffers of the chains returned at entry, in that order. |
| `VirtioNet.Driver.TxReturn` | drivers/network/virtio/ethernet.c:277-316 | The transmit loop, with its test for a full queue, does the same: nothing stays behind that the device had returned. |
| `VirtioNet.MovedAsTheyCame` | drivers/network/virtio/ethernet.c:127-216 | In every run, buffers go to the device in the order they were freed, and to the virtualiser in the order the device returned them, none left out. |
| `Partition.AcceptedExactly` | blk/components/partitioning.c:381-398 | The accepted requests are those within the partition and those whose end wraps around 2^64; the former are translated by the partition's start. |
| `Partition.WrappingAccepted` | blk/components/partitioning.c:381-398 | A request outside the partition that is accepted because its end wraps. |
| `Partition.DataFitsExactly` | blk/components/virt.c:161-166 | The check of the data region means what it should exactly when the sum does not wrap to within the region. |
| `Partition.DataOutsideAccepted` | blk/components/virt.c:161-166 | A buffer outside every data region, at the last page below 2^64, passes the check. |
| `Partition.MbrPartitionsInit` | blk/components/partitioning.c:239-280 | Succeeds exactly when the signature is 0xAA55 and every client's partition is one of the four, not empty, and starts at a multiple of 8 sectors; then each client has its range, and as its capacity the blocks of 4096 bytes that fit into its sectors of 512. |
| `Partition.BlocksInBytes` | blk/components/partitioning.c:239-280 | A partition of s sectors has the blocks of 4096 bytes that fit into 512 s bytes, from the one it starts in, which begins where it does exactly if it starts at a multiple of 8 sectors. |
| `Partition.EntriesApart` | blk/components/partitioning.c:239-280 | Aligned entries of the partition table that share no sector make partitions that share no block. |
| `Partition.BeyondDevice` | blk/components/partitioning.c:381-398 | A request outside the partition changes nothing and fails: the virtualiser refuses it or, if its end wraps, it lies beyond the end of the device. |
| `Partition.ActsPrivately` | blk/components/partitioning.c:381-398 | A client's operation on the shared disk is the operation on its own: same result, same view afterwards. |
| `Partition.LeavesOthers` | blk/components/partitioning.c:381-398 | It leaves the view of every client with a disjoint partition unchanged. |
| `Partition.PrivateDisks` | blk/components/virt.c:122-207 | Over any sequence of accesses in any order, each client sees, and reads, what its own accesses make of a private disk. |
| `BlkVirt.EveryRequestAnswered` | blk/components/virt.c:68-224 | For every run with answers in any order: no assertion fails for a client that has no more requests on their way than its response queue holds, and when nothing of a client's is under way its responses answer exactly the requests it waits for, each as often as it made it. |
| `BlkVirt.InvIsSafe` | blk/components/virt.c:68-224 | Ids are free when freed, response queues have room for such clients, and an answer's bookkeeping names the client and id of its request. |
| `BlkVirt.ForwardKeeps` | blk/components/virt.c:144-213 | Forwarding under a fresh id, or answering an invalid request at once, keeps the accounting. |
| `BlkVirt.DeliverKeeps` | blk/components/virt.c:78-112 | Delivering an answer by its bookkeeping reaches the client that asked. |
| `BlkVirt.Virt.HandleClient` | blk/components/virt.c:122-224 | Under any interference, a run of the step system whose steps of the virtualiser take this client's requests, oldest first, as far as ids and the driver's queue go; the driver is to be notified exactly if some of those the run takes go on, the client exactly if some are refused. It stops early only where the assertion on the response queue fails. |
| `BlkVirt.Virt.HandleDriver` | blk/components/virt.c:68-120 | Under any interference, a run whose steps of the virtualiser deliver the driver's answers, in order, until none is left; exactly the clients to whom the run delivers are notified. It stops early only where the assertion on a response queue fails. |
| `BlkVirt.TakenAsTheyCame` | blk/components/virt.c:68-224 | In every run, requests are taken in the order made and answers delivered in the order given, none left out. |
| `BlkOverrun.Overruns` | blk/components/virt.c:210-215 | For every configuration in which a client lets more requests be on their way than its response queue holds, a run of refused requests after which the assertion fails. |
| `BlkOverrun.OutstandingExactly` | blk/components/virt.c:104-110 | The assertions on a client's response queue hold in every run if and only if the client lets no more requests be on their way than the queue holds. |
| `BlkDisk.ResponsesArePrivate` | blk/components/virt.c:68-224 | For every run on partitions that do not overlap: a response carries its request's own id and is a refusal exactly for requests that fail the checks. For a read or a write that passes them, the device did just that, at the block and with the count or data of the request, for that client, and the response holds what it yields on a private disk at its place among the client's operations; and the client's partition holds what they make of that disk. |
| `BlkReadBack.ReadsLatestWrites` | blk/components/virt.c:68-224 | For every such run: a read that is not refused fails exactly if it reaches beyond the partition; otherwise it returns as many blocks as asked for, each what the last of the client's own earlier writes to it put there, or what was there at the start. |
| `BlkReadBack.PerformedWereIssued` | blk/components/virt.c:122-207 | In every run, each operation of the device is one its client issued, with the block and count or data of the request. |
| `BlkReadBack.AcceptsExactly` | blk/components/virt.c:152-190 | In the request's fields: flushes and barriers always pass, unknown codes never; reads and writes exactly if they ask for some blocks, these lie in the partition or wrap into it, and the pages are aligned and, by a sum modulo 2^64, in the data region. |
| `BlkReadBack.IdsAddUp` | blk/components/virt.c:196-204 | In every run, of 1024 ids each is free or on a request with the driver. |
| `CrcPolynomial.GptCalcCrc32` | blk/components/partitioning.c:108-124 | The nested loops compute a word that is, with its inversion undone and its lowest bit taken as the coefficient of x^31, the remainder of the message, lowest bit of each byte first, its first 32 bits inverted and 32 zeros behind it, on division by x^32 + x^26 + x^23 + x^22 + x^16 + x^12 + x^11 + x^10 + x^8 + x^7 + x^5 + x^4 + x^2 + x + 1 over GF(2). |
| `CrcPolynomial.ChecksumIsRemainder` | blk/components/partitioning.c:108-124 | The same of the checksum defined byte by byte. |
| `CrcPolynomial.RemainderUnique` | blk/components/partitioning.c:108-124 | There is only one such remainder. |
| `CrcPolynomial.RoundIs` | blk/components/partitioning.c:118-121 | One round of the inner loop multiplies by x and takes the polynomial off if that leaves the register. |
| `Crc32.ShortBurstsDetected` | blk/components/partitioning.c:108-124 | Equal-length buffers that differ only inside one window of four bytes have different checksums. |
| `Crc32.FiveBytesCollide` | blk/components/partitioning.c:108-124 | For every buffer and every window of five bytes there is another buffer, different inside the window, with the same checksum. |
| `Crc32.FeedLinear` | blk/components/partitioning.c:115-122 | The checksum of a difference is the difference of the checksums. |
| `Crc32.FeedInjective` | blk/components/partitioning.c:115-122 | Different states stay different whatever follows. |
| `Crc32.BitStepKernel` | blk/components/partitioning.c:118-121 | One round maps only zero to zero, as the polynomial's top bit is set. |
| `PbufPool.EnoughPbufs` | network/lib_sddf_lwip/lib_sddf_lwip.c:355-385 | Over all runs, sddf_lwip_process_rx never faces a waiting buffer without a pbuf if and only if there are at least as many pbufs as buffers. |
| `PbufPool.AfterAlloc` | network/lib_sddf_lwip/lib_sddf_lwip.c:108-117 | Taking the first entry leaves an acyclic list of exactly the other free entries. |
| `PbufPool.AfterFree` | network/lib_sddf_lwip/lib_sddf_lwip.c:119-131 | Putting an entry in use at the front leaves an acyclic list of exactly the free entries. |
| `PbufPool.FreeAcceptsExactly` | network/lib_sddf_lwip/lib_sddf_lwip.c:119-125 | The pointer check accepts the entries of the pool and the one past its end. |
| `PbufPool.FreeKeepsListExactly` | network/lib_sddf_lwip/lib_sddf_lwip.c:119-131 | Of the entries accepted, freeing keeps the pool's list a list exactly for those of the pool that are in use: after the one past its end, or one already free, nothing is a list any more. |
| `PbufPool.FreedTwiceInstance` | network/lib_sddf_lwip/lib_sddf_lwip.c:119-131 | A free entry of a pool of two, freed again, passes the check and becomes its own successor. |
| `PbufPool.PoolInit` | network/lib_sddf_lwip/lib_sddf_lwip.c:87-101 | All entries free, in order. |
| `PbufPool.InputKeeps` | network/lib_sddf_lwip/lib_sddf_lwip.c:276-292 | Handing a buffer to the stack takes one entry, which stands for it. |
| `PbufPool.ReleaseKeeps` | network/lib_sddf_lwip/lib_sddf_lwip.c:249-265 | Freeing a pbuf, in any order, returns its buffer and its entry. |
| `PbufPool.Client.InterfaceFreeBuffer` | network/lib_sddf_lwip/lib_sddf_lwip.c:249-265 | As ReleaseKeeps; the free queue has room. |
| `PbufPool.Client.ProcessRx` | network/lib_sddf_lwip/lib_sddf_lwip.c:355-385 | Whatever stack and virtualiser do meanwhile, a run of the step system that comes to an end with no buffer waiting and a signal requested, in which all that waited at entry reaches the stack, in order; the non-NULL assertion holds. Undisturbed, exactly these. |
| `PbufPool.InputAsGiven` | network/lib_sddf_lwip/lib_sddf_lwip.c:355-385 | In every run, buffers reach the stack in the order the virtualiser passed them on, none left out. |

## Left out

- Memory ordering, cache maintenance and fences: memory is sequentially consistent and queue operations are atomic.
- Kernel notifications and channels: a notification is a pending flag, or a returned set of clients to notify.
- `NetRx`, `NetTx`, `VirtioNet`, `BlkVirt`, `PbufPool`, `SerialRx`, `SerialTx` use queues as sequences; that the network queues' counters implement these is proved in `NetQueue`, on values, and the wrap of the serial and block queues' counters is not modelled.
- VirtioNet.Driver.RxProvide: the descriptor table and rings are sequences the methods reassign, not arrays; of the transmit half, the same with the queues exchanged, only its return loop, which differs, is written out.
- NetTx.VirtTx.TxProvide: the state is one record the methods reassign; the signal flag of the driver's active queue is not modelled.
- BlkVirt.Virt.HandleClient: the state is one record the methods reassign; a response carries the blocks read or whether it failed, not the success count, and block data is passed by value rather than through the clients' data regions.
- PbufPool.Client.ProcessRx: the pool is a sequence the methods reassign, not an array.
- NetDriver.Driver.RxReturn: the class has no run of `NetRx` attached; `NetRing` relates the ring to that system. Completions with an error, and so meson's re-arming, are not steps of `NetRx`. The transmit halves of the two drivers, the same ring with the queues exchanged, are not written out.
- NetCopy.ClientReceives: a client that offers a buffer again before it has taken the packet in it may find another packet there; the source leaves this to the client. That clients do not write to offered buffers is built in.
- NetOverrun.CirculationExactly: for a client whose address is routed to it, with queues that hold something, on a system with at least one buffer and a ring that holds one; otherwise it may never be sent a packet.
- SerialTx.VirtTx.TxReturn: what clients type between two turns happens at once, before the next; as a queue is looked at in its own turn only, nothing is lost by this.
- SerialTx.VirtTx.TxProvide: the lookup of the channel, and the message for an unknown one, are not modelled.
- I2cDriver.Driver.Serve: for requests the loader can go through, with nothing left over before them or a write; for a read left over see LeftoverReadOverwrites, for the last byte an address token AnsweredExactly. Tokens the driver does not know, whose conversion spills into the next position of the list, bus errors, and the queueing of further requests are not modelled. As many bytes are read as read tokens loaded, and the controller is taken to act on every token of a batch, also behind an END.
- I2cDriver.Driver.HandleRequest: as Serve.
- TcpEcho.Connection.Recv: closing, errors and the pool of connections are not modelled.
- FsMalloc.Allocator.Free: a count so large that adding it wraps around 2^64 is excluded.
- Partition.PrivateDisks: the device performs each accepted request at once and whole, has fewer blocks than a request must reach to wrap, and refuses requests beyond its end; block counts fit the source's 16 bits and block numbers its 64.
- CrcPolynomial.GptCalcCrc32: words and bytes are sequences of bits, and the negated low bit is all ones or all zeros by definition; reading and comparing GPT headers is not modelled.
- The hardware ring's descriptor flags beyond ownership and error, the wrap flag, and device registers.
- GPU, sound, SPI, I2C and ARP components, UART drivers, the virtio block driver, the timer and pinctrl drivers, and the Pancake variants: they would add repeats of the patterns here or mostly single-branch checks.
- Device initialisation, clocks, PHY and MAC set-up, printing, build and test tooling.
