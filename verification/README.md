# TrustedGateway, verified model

TrustedGateway is a small concurrent network stack inside OP-TEE: a NAPI-style
scheduler, a half-virtualised FEC Ethernet driver whose registers the normal
world reaches only through traps, a virtual network card with split
virtqueues, a packet router, and a byte channel for the configuration
service. This project models those parts in Dafny and proves what they keep
over every run. `dafny verify dfyconfig.toml` checks everything.

How the model is laid out:

- `Napi`, `NapiScheduler`: the NAPI bits and their lock regions (`NapiStruct`),
  then any interleaving of producers, worker loop, notifier and
  disable/enable.
- `FecRoute`, `VnicNotify`, `VnicDeliver`, `FecRx`: the drivers' re-check protocols
  on top of those bits, the virtual card's in both directions.
- `FecTraps`, `FecScripts`, `FecDriver`: the register-trap handler (`FecTrap`, against
  the specification `Access`, over two `NapiStruct`s); the scripts of a restart and a
  stop, which the handler is proved to follow exactly; and the Linux driver's
  register traffic run against it.
- `FecQuiesce`: the trap handler and two NAPI schedulers in one machine, with
  `napi_disable` as the waiting loop it is.
- `TxRing`: the transmit descriptor ring, one store at a time.
- `Virtqueue`, `VringOrder`, `VnetTransfer`: chain walking and the device queue
  (`VQueue`), ring order over whole runs, and the two transfer loops.
- `VirtioConfig`, `VirtioHistory`: the MMIO configuration (`VnicMmio`), and what it is
  after any guest writes, told from the writes alone.
- `PacketQueue`: the circular packet queue (`PktQueue`) with its two-phase consumer.
- `Ownership`: who owns a packet buffer, over every run of any number of workers.
  Free list, queues, transmit ring, receive ring, firewall and each worker's hands
  are collections of their own, and queues and transmit ring keep their order.
- `Routing`, `Router`: what routing a burst means, and the workers' routines over the
  shared buffers (`Gateway`). The state is tied to the run so far, of all workers.
  Between any two lock regions of a routine the others may take any steps, and each
  routine says exactly which steps of the run were its own.
- `Arith`, `Cyclic`, `RingBuffer`, `Iovec`: helpers, circular buffers, the byte channel
  (`SwBuffer`) and the scatter/gather copies.

Conventions. A step of a protocol is one lock-protected region, one store or one
blocking call; memory is sequentially consistent. `Go`, `Refused` and
`Panic`/`Aborted` are the outcomes of a step; `panic` and `abort` are stuck states.
Anonymous producers are counted. Register values and feature words are sets of
bit positions. What the hardware, the guest's memory, the firewall, the
allocator and address mapping answer is a parameter everywhere.

Where a claim fails for the code as written, the code is modelled as it is, and
the exact condition is proved:

- A poll that has gone idle and then returns at least its budget can lose requests
  and polls after a disable (`StaleReturnBreaksBoth`). It is harmless exactly if
  another poll is due already (`BudgetReturnIsSafeIff`).
- `napi_disable` drops an outstanding request unless the worker is on its way to a
  poll. Runs whose disables respect that lose none, and the condition is exact
  (`AcceptedRequestStaysScheduled`, `DisableKeepsRequestIff`).
- `no_kick` stays set when `napi_schedule` is refused, after which the FEC worker
  never polls again. A racing producer causes that, and so does the poll's own
  re-check (`FecRoute.EnableIsSafeIff`, `StallIsPermanent`, `LateProducerStalls`,
  `RecheckTakesFlag`). Starting an egress queue that already holds packets serves
  nobody (`StartServesIff`).
- The receive interrupt handler of a disabled context acknowledges the event it saw
  and schedules nothing (`FecRx.EnableIsSafeIff`, `DisabledHandlerStrands`).
- An attempt to deliver to the guest that reports neither a packet nor an empty ring
  can leave packet and buffers waiting (`GivingUpStrands`). It is harmless exactly if
  a further request has been made or is on its way (`GiveUpIsSafeIff`). Such attempts
  come from a card that is not ready or a first packet that no chain takes (`Attempt`).
- The trap handler's shutdown state has no case of its own and panics
  (`ShutdownPanics`), although other branches set it up; a link change before the
  driver's open signal panics too (`EarlyLinkChangePanics`).
- The ring size is not forced to a power of two (section 2.4 of Virtio 1.0); order
  is kept exactly for divisors of 2^16 (`OrderIffSizeDivides`).
- A guest may resize a ring that is already connected, whose layout stays
  (`RingSizeIsStableIff`, `ResizeIsReachable`). Setting a ring up again does not
  restart the device's index (`VQueue.Setup`).
- The test for VERSION_1 uses the feature number 32 as a mask, which is the MAC
  feature's bit (`NegotiationPanicsIff`).
- The 8-bit interface mask loses packets for interfaces from 8 on, although 32
  interfaces can be registered (`RouterIfInput`, `AllDisposedIff`).
- The skipping copies move the whole rest of a segment (`GatherIsSliceIff`).
- A put of exactly the remaining space empties the ring buffer
  (`OrderIffNoExactFill`).
- With DRIVER_OK set and no ring mapped, a flush reads through a null pointer
  (`FlushTx`). The poll around it has then already written the suppression flags of
  both queues through null pointers (virtio-nic/vnic/src/vnic.c:193-194).
- A failing send turn keeps the guest's chain (`FlushTx`), as does a receive turn
  whose chain cannot be walked (`Receive`).

In `fec_route_xmit_napi` the variable `is_empty` is or-ed while uninitialised; it is
read as an assignment.

## Model

| member | source | states |
|---|---|---|
| Napi.NapiStruct.constructor | nettrug/napi/napi.c:39-76 | a registered context is disabled and idle |
| Napi.NapiStruct.SchedulePrep | nettrug/napi/napi.c:155-172 | a request is refused while disabled, remembered while one is pending, else it must kick; the wake-up flag is left to the caller |
| Napi.NapiStruct.ScheduleRequest | nettrug/napi/napi.h:115-121 | the whole request refines `Schedule` in one lock region |
| Napi.NapiStruct.CompleteDone | nettrug/napi/napi.c:181-197 | a completed poll goes idle unless a request was missed; a disable wins over a missed request |
| Napi.NapiStruct.DisableEnter | nettrug/napi/napi.c:95-129 | panics on a disabled context; else marks it and says whether waiting is over |
| Napi.NapiStruct.DisableAgain | nettrug/napi/napi.c:104-125 | one look of the waiting loop: without a worker the poll is withdrawn |
| Napi.NapiStruct.Enable | nettrug/napi/napi.c:131-153 | panics unless disabled and idle |
| Napi.NapiStruct.WorkerCheck | nettrug/pta/npf_router.c:255-261 | the worker's look at SCHED withdraws a pending kick |
| Napi.NapiStruct.TakeNotify | nettrug/napi/notifier.c:52-58 | the notifier takes the kick |
| Napi.DisableNapi | nettrug/napi/napi.c:95-129 | the waiting loop under interference: panics exactly on a disabled context, and once it is done nothing is scheduled |
| NapiScheduler.StepKeepsInv | nettrug/pta/npf_router.c:216-333 | every step of producers, worker, notifier, disable and enable keeps the locking, wake-up and quiescence invariants |
| NapiScheduler.RunKeepsInv | nettrug/pta/npf_router.c:216-333 | so does every interleaving |
| NapiScheduler.BlockedWorkerWillBeSignalled | nettrug/napi/notifier.c:31-76 | over every run, a worker blocked with SCHED set is marked waiting and its kick is flagged or in the notifier's hand |
| NapiScheduler.DisableHolds | nettrug/napi/napi.c:155-197 | while DISABLE is set no step sets SCHED, and completing clears it even with MISSED set |
| NapiScheduler.QuiescedStartsNoPoll | nettrug/napi/napi.c:95-129 | after `napi_disable` returned nothing is scheduled, `napi_enable` cannot panic, and no poll starts, given that polls that went idle with nothing due return below budget |
| NapiScheduler.StaleReturnBreaksBoth | nettrug/pta/npf_router.c:280-293 | the budget discipline is needed: without it a request is lost and a quiesced context polls |
| NapiScheduler.BudgetReturnIsSafeIff | nettrug/pta/npf_router.c:280-293 | after every disciplined run in an idle poll of an enabled context, a full-budget return keeps all requests in all continuations if and only if SCHED is set |
| NapiScheduler.AcceptedRequestStaysScheduled | nettrug/napi/napi.c:95-197 | over every interleaving with any number of disables and enables, an accepted request keeps SCHED set until a poll starts, provided each disable respects it and polls that went idle with nothing due return below budget |
| NapiScheduler.StepKeepsControl | nettrug/napi/napi.c:95-153 | nothing but disable and enable touches the disable bit or a wait, and nothing else can panic |
| NapiScheduler.DisableKeepsRequestIff | nettrug/napi/napi.c:95-129 | after every such run, a disable leaves all requests safe in all continuations, further disables included, if and only if nothing is outstanding or the worker is on its way to a poll |
| NapiScheduler.DroppingRunDrops | nettrug/napi/napi.c:104-125 | the continuation that loses the request otherwise |
| NapiScheduler.PendingRequestReachesPoll | nettrug/pta/npf_router.c:251-322 | no state strands a pending request: at most 14 steps of worker, poll and notifier start a poll |
| NapiScheduler.EveryRequestCanBeServed | nettrug/pta/npf_router.c:251-322 | the same after every run in which the disables respect outstanding requests |
| FecRoute.StepKeepsKnown | fec_drivers/bstgw/imx_fec.c:1147-1237 | every step keeps the invariant that queued work is known to a producer, the poll or the scheduler |
| FecRoute.StepKeepsSound | fec_drivers/bstgw/imx_fec.c:1140-1237 | without a disable every step keeps this: a poll is scheduled, somebody is about to schedule one, or the worker recovers by itself |
| FecRoute.RunKeepsSound | fec_drivers/bstgw/imx_fec.c:1140-1237 | so does every clean run, together with queued work being known |
| FecRoute.NeverIdleOnWork | fec_drivers/bstgw/imx_fec.c:1140-1237 | in every run without a disable, at rest a non-empty ingress queue or running non-empty egress queue implies SCHED |
| FecRoute.AllWorkCanBeDone | fec_drivers/bstgw/imx_fec.c:1147-1237 | every run without a disable can go on, with nothing new queued, until no poll is due and nothing is left to route or send |
| FecRoute.EnableIsSafeIff | fec_drivers/bstgw/imx_fec.c:1360-1394 | in every quiesced state reached with any number of disables, whoever is under way and whether or not the last loop used its budget, re-enabling serves queued work in all continuations if and only if somebody is about to schedule a poll or the worker recovers by itself (`Sound`), a stale MISSED bit included |
| FecRoute.QuietIsSoundIff | fec_drivers/bstgw/imx_fec.c:1140-1143 | at rest that condition is that `no_kick` is clear |
| FecRoute.StallIsPermanent | fec_drivers/bstgw/imx_fec.c:1140-1143 | from a stall no poll starts again whatever happens |
| FecRoute.UnsoundStalls | fec_drivers/bstgw/imx_fec.c:1147-1237 | from every state that fails the condition some continuation stalls |
| FecRoute.StallLeavesWork | fec_drivers/bstgw/imx_fec.c:1039-1040 | a stalled device ends at rest with work and no poll after one more packet |
| FecRoute.LateProducerStalls | fec_drivers/bstgw/imx_fec.c:1839-1848 | a restart racing an egress producer that read the queue as running ends in a stall |
| FecRoute.LateProducerIsReachable | fec_drivers/bstgw/imx_fec.c:1839-1848 | three steps of an opened device reach the start of that race |
| FecRoute.RecheckTakesFlag | fec_drivers/bstgw/imx_fec.c:1200-1237 | a disable that meets a poll leaving ingress packets quiesces with the flag taken, and is then unsafe exactly if no producer still holds the flag |
| FecRoute.RecheckIsReachable | fec_drivers/bstgw/imx_fec.c:1165-1182 | six steps of an opened device reach such a poll |
| FecRoute.StartServesIff | fec_drivers/bstgw/imx_fec.c:1600-1607 | after every clean run from probing on, at rest with the context enabled and sound and nothing scheduled, a start serves queued work in all continuations if and only if it does not open a stopped queue that holds packets, be it from before the open |
| VnicNotify.RunKeepsInv | virtio-nic/vnic/src/vnic.c:183-257 | every interleaving of guest, traps and poll keeps the notification invariant |
| VnicNotify.NoGuestBufferGoesUnnoticed | virtio-nic/vnic/src/vqueue.c:349-366 | at rest a non-empty available ring has a poll scheduled, and otherwise notifications are on; while the poll drains they are off |
| VnicNotify.EveryBufferCanBeTaken | virtio-nic/vnic/src/vnic.c:183-257 | every run can go on, with nothing new published, until the ring is empty, no poll is due and notifications are on |
| VnicDeliver.StepKeepsInv | virtio-nic/vnic/src/vnic.c:183-257 | every step of router, guest, traps and poll keeps packets for the guest known |
| VnicDeliver.NoPacketGoesUnnoticed | virtio-nic/vnic/src/vnic.c:212-257 | over every run, at rest a queued packet for the guest has a poll scheduled, or there is no guest buffer and notifications are on, unless the last poll gave up |
| VnicDeliver.EveryPacketCanBeDelivered | virtio-nic/vnic/src/vnic.c:183-257 | every run without giving up can go on until packets or buffers have run out, no poll is due, and notifications are on if packets wait |
| VnicDeliver.GiveUpIsSafeIff | virtio-nic/vnic/src/vnic.c:212-249 | after every run, giving up keeps that in all continuations without a further one if and only if at that moment MISSED is set or a producer or trap is on its way |
| VnicDeliver.UnretriedStrands | virtio-nic/vnic/src/vnic.c:223-249 | from every state that fails the condition some continuation strands the packet |
| VnicDeliver.GivingUpStrands | virtio-nic/vnic/src/virtio-net.c:331-342 | the exception: an attempt with count 0 leaves packet and buffers waiting with notifications off |
| FecRx.StepKeepsMasking | fec_drivers/bstgw/imx_fec.c:1082-1136 | every step, disables included, keeps a due poll masked, MISSED clear and saved events where the poll finds them |
| FecRx.StepKeepsAnnounced | fec_drivers/bstgw/imx_fec.c:1241-1304 | every step keeps a filled descriptor announced by an event, a saved event or the poll |
| FecRx.NoFrameIsStranded | fec_drivers/bstgw/imx_fec.c:1241-1304 | in every run without a disable masked interrupts mean SCHED or an unmask under way, and at rest a filled descriptor has an unmasked pending event |
| FecRx.EveryFrameCanBeTaken | fec_drivers/bstgw/imx_fec.c:1241-1304 | every run without a disable can go on, with no new frame, until the ring is empty, no poll is due and interrupts are unmasked |
| FecRx.EventsAreNeverDiverted | fec_drivers/bstgw/imx_fec.c:1082-1136 | the handler's acknowledge-only branch is unreachable in runs without a disable |
| FecRx.DisabledHandlerStrands | fec_drivers/bstgw/imx_fec.c:1082-1136 | nine steps of an opened device, with a disable and an enable, strand a frame |
| FecRx.EnableIsSafeIff | fec_drivers/bstgw/imx_fec.c:1082-1136 | in every quiesced state reached with any number of disables, re-enabling leaves no frame stranded in any continuation if and only if interrupts are unmasked or about to be, no handler is about to acknowledge a receive event, and a filled descriptor has its event coming |
| FecRx.UnsoundStrands | fec_drivers/bstgw/imx_fec.c:1094-1120 | from every state that fails the condition some continuation strands a frame |
| FecTraps.AccessKeepsInv | fec_drivers/bstgw/nw_mmio_traps.c:241-401 | every access keeps the shape of the sub-states and asks for a disable or enable exactly when the phase changes |
| FecQuiesce.NapiCallsNeverPanic | fec_drivers/bstgw/nw_mmio_traps.c:241-401 | for every access sequence interleaved in any way with producers, workers and notifier of both contexts, no panic of `napi_disable` or `napi_enable` is reached; between traps both contexts are enabled exactly in the phases between operations and else quiesced with nothing scheduled |
| FecQuiesce.NextKeepsInv | fec_drivers/bstgw/nw_mmio_traps.c:241-401 | every move of the joint machine keeps traps and schedulers in balance |
| FecQuiesce.OtherKeepsPhase | nettrug/pta/npf_router.c:216-333 | what producers, workers and notifier do leaves each context in its phase |
| FecQuiesce.DisableIsClean | nettrug/napi/napi.c:95-129 | disabling an enabled context never panics and ends quiesced or waiting |
| FecQuiesce.WaitIsClean | nettrug/napi/napi.c:104-125 | so does every further look of the waiting loop |
| FecQuiesce.EnableIsClean | nettrug/napi/napi.c:131-153 | enabling a quiesced context meets neither panic |
| FecTraps.CommittedRegistersAreConfined | fec_drivers/bstgw/nw_mmio_traps.c:38-229 | after any accesses the next one hits only the eight granted registers, with secure values up to the granted bits, never promiscuous; reads reveal only granted bits; which value exactly is `FecScripts.HandlerFollowsScripts` |
| FecTraps.AccessIsConfined | fec_drivers/bstgw/nw_mmio_traps.c:38-229 | the same for one access in any balanced state |
| FecTraps.MergeStaysSecure | fec_drivers/bstgw/imx_fec.c:538-612 | the merged receive control holds the secure bits and only bits 6, 8 and 9 of the request |
| FecTraps.ConfinedIsNotPromiscuous | fec_drivers/bstgw/nw_mmio_traps.c:90-136 | a confined receive control never has bit 3 |
| FecTraps.ShutdownPanics | fec_drivers/bstgw/nw_mmio_traps.c:310-397 | while shutting down an access panics if and only if it is a word access and not an MDIO one |
| FecTraps.FecTrap.constructor | fec_drivers/bstgw/nw_mmio_traps.c:241-260 | the handler starts probed and at rest |
| FecTraps.FecTrap.DisableNapis | fec_drivers/bstgw/imx_fec.c:1360-1394 | waits for both contexts; panics exactly on one that is disabled already |
| FecTraps.FecTrap.EnableNapis | fec_drivers/bstgw/imx_fec.c:1600-1607 | enables both contexts; panics exactly if one is not disabled or has a poll scheduled |
| FecTraps.FecTrap.EmulateRestart | fec_drivers/bstgw/nw_mmio_traps.c:20-145 | the restart switch refines `RestartStep`, which `FecScripts.RestartAdvances` and `RestartFits` pin to the restart script and its committed values |
| FecTraps.FecTrap.EmulateStop | fec_drivers/bstgw/nw_mmio_traps.c:147-238 | the stop switch refines `StopStep`, pinned to the stop script by `FecScripts.StopAdvances` and `StopFits` |
| FecTraps.FecTrap.BeginOperation | fec_drivers/bstgw/nw_mmio_traps.c:310-397 | the first access of an operation refines `IdleStep` without a NAPI panic |
| FecTraps.FecTrap.FinishOpen | fec_drivers/bstgw/nw_mmio_traps.c:373-394 | the access that ends an open enables both contexts |
| FecTraps.FecTrap.EmuCheck | fec_drivers/bstgw/nw_mmio_traps.c:241-401 | the whole trap refines `Access`, which `FecScripts.HandlerFollowsScripts` determines; none of its NAPI calls panics, and the contexts agree with the phase when it has finished |
| FecScripts.HandlerFollowsScripts | fec_drivers/bstgw/nw_mmio_traps.c:241-401 | after any accesses whatever, the next one passes if and only if it is the next access of a legal restart or stop script, and then with exactly the value the script commits or reveals; MDIO accesses pass in every phase; both NAPI contexts are disabled by the first access of an operation and enabled by its last |
| FecScripts.AccessFollows | fec_drivers/bstgw/nw_mmio_traps.c:241-401 | the same for one access, with the progress it makes |
| FecScripts.RunFollows | fec_drivers/bstgw/nw_mmio_traps.c:241-401 | after any accesses the handler stands where the scripts say |
| FecScripts.RestartAdvances | fec_drivers/bstgw/nw_mmio_traps.c:20-145 | every access of a restart script is taken; receive control gets the secure bits, flow control exactly with pause frames, half duplex exactly without full duplex, and bits 6, 8 and 9 of the request |
| FecScripts.RestartFits | fec_drivers/bstgw/nw_mmio_traps.c:20-145 | an access in a restart that does not panic is the next one of some restart script |
| FecScripts.StopAdvances | fec_drivers/bstgw/nw_mmio_traps.c:147-238 | every access of a stop script is taken; the reads reveal only the RMII bit and the graceful-stop event |
| FecScripts.StopFits | fec_drivers/bstgw/nw_mmio_traps.c:147-238 | an access in a stop that does not panic is the next one of some stop script |
| FecScripts.BeginFits | fec_drivers/bstgw/nw_mmio_traps.c:310-397 | an operation begins only with the first access of a legal script |
| FecScripts.PassingPasses | fec_drivers/bstgw/nw_mmio_traps.c:275-295 | MDIO accesses change nothing and reveal the low half or the MII event only |
| FecScripts.CallsFollow | fec_drivers/bstgw/nw_mmio_traps.c:320-370 | the NAPI calls come exactly where an operation begins or ends |
| FecScripts.MergedBits | fec_drivers/bstgw/imx_fec.c:538-612 | what merging a request into the secure bits gives, bit by bit, with and without flow control |
| FecDriver.StepKeepsSim | fec_drivers/nw_linux/bstgw_fec_main.c:210-426 | every driver access keeps the simulation between driver and handler, pending duplex bit included |
| FecDriver.RestartIsTracked | fec_drivers/nw_linux/bstgw_fec_main.c:210-381 | every access of a restart is accepted, for any duplex, speed and pause |
| FecDriver.StopIsTracked | fec_drivers/nw_linux/bstgw_fec_main.c:383-426 | every access of a stop is accepted |
| FecDriver.MdioIsTracked | fec_drivers/nw_linux/bstgw_fec_main.c:631-710 | MDIO traffic is accepted anywhere and disturbs nothing |
| FecDriver.OperationsAreTracked | fec_drivers/nw_linux/bstgw_fec_main.c:473-535 | the first access of open, link-up and link-down is accepted |
| FecDriver.DriverIsAccepted | fec_drivers/nw_linux/bstgw_fec_main.c:473-535 | an open, then any link changes with MDIO traffic anywhere, never panics and ends every operation at rest, running exactly with a link |
| FecDriver.RegistersAreSet | fec_drivers/nw_linux/bstgw_fec_main.c:210-426 | after every run, between operations each hardware register holds what the last operation's duplex, pause, speed, interface and link settings say, merged with the secure bits; after a stop the mode register holds the RMII bit it held before |
| FecDriver.WriteCommits | fec_drivers/nw_linux/bstgw_fec_main.c:210-426 | every write of restart and stop is carried out, with the intended value |
| FecDriver.RcntrlCommits | fec_drivers/nw_linux/bstgw_fec_main.c:255-345 | receive control is committed with flow control exactly with pause frames and half duplex exactly without full duplex |
| FecDriver.OperationEnds | fec_drivers/nw_linux/bstgw_fec_main.c:210-426 | every operation that has begun is over after at most eight accesses, whatever the hardware returns |
| FecDriver.EarlyLinkChangePanics | fec_drivers/nw_linux/bstgw_fec_main.c:978-1014 | a link change before the open signal panics |
| TxRing.FreeCountIsExact | fec_drivers/bstgw/imx_fec.c:178-187 | the free-slot formula is ring size minus one minus occupied |
| TxRing.StepKeepsInv | fec_drivers/bstgw/imx_fec.c:268-370 | every store of submitter, completer and hardware keeps the ring invariant |
| TxRing.OccupiedIsTheCyclicRange | fec_drivers/bstgw/imx_fec.c:178-217 | over every interleaving of stores the occupied slots are the cyclic range from `pending_tx` to `cur`, up to the slot in progress on each side |
| TxRing.NothingIsOverwritten | fec_drivers/bstgw/imx_fec.c:268-370 | the submitter's slot is untouched by others and the hardware sends the next buffer in order |
| TxRing.FreedOnceAfterSending | fec_drivers/bstgw/imx_fec.c:616-731 | buffers are freed exactly once, in order, after sending; an empty ring has freed all; that they are freed is `CompletionFreesAllSent` |
| TxRing.CompletionFreesAllSent | fec_drivers/bstgw/imx_fec.c:616-731 | after every run, from wherever the completer stands, its own stores alone free exactly the buffers sent and published so far, and it stops |
| TxRing.TransmitsIff | fec_drivers/bstgw/imx_fec.c:268-370 | the hardware can send if and only if a submitted buffer is unsent |
| TxRing.SubmitTakesIff | fec_drivers/bstgw/imx_fec.c:268-370 | with a free slot a submission puts the buffer behind all others; without one it changes nothing |
| TxRing.EveryBufferCanBeFreed | fec_drivers/bstgw/imx_fec.c:616-731 | every run can go on until every submitted buffer has been sent and freed |
| TxRing.ResetTxQueue | fec_drivers/bstgw/imx_fec.c:402-425 | the reset loop frees what every slot holds, in slot order, and leaves an empty ring |
| TxRing.SavedIsOut | fec_drivers/bstgw/imx_fec.c:402-425 | scanning the slots finds exactly the outstanding buffers, each once, also where they go round |
| TxRing.ResetFreesTheRest | fec_drivers/bstgw/imx_fec.c:402-425 | after every run, the buffers freed so far and those a reset frees are together exactly the submitted ones |
| Virtqueue.DoneFollowsChain | virtio-nic/vnic/src/vqueue.c:286-328 | a successful walk returns the read-only and write-only segments of a whole chain that fits, in order |
| Virtqueue.ChainIsWalked | virtio-nic/vnic/src/vqueue.c:286-328 | wherever such a chain exists the walk succeeds |
| Virtqueue.WalkSucceedsIff | virtio-nic/vnic/src/vqueue.c:286-328 | success if and only if a finite chain within the limits starts at the head, on any table, cyclic ones included |
| Virtqueue.SamePath | virtio-nic/vnic/src/vqueue.c:286-328 | a head has one whole chain at most |
| Virtqueue.WalkGivesSegments | virtio-nic/vnic/src/vqueue.c:286-328 | walking a chain gives exactly its segments |
| Virtqueue.FailureIsExplained | virtio-nic/vnic/src/vqueue.c:289-322 | each error code comes with the path that causes it |
| Virtqueue.SizeIsTotal | virtio-nic/vnic/src/vqueue.c:312-316 | the recorded size is the summed length modulo 2^32 |
| Virtqueue.WalkChain | virtio-nic/vnic/src/vqueue.c:286-328 | the loop terminates on any table and returns what `WalkFrom` says, with the sizes |
| Virtqueue.VQueue.constructor | virtio-nic/vnic/src/vqueue.c:47-79 | an initialised queue has no rings and starts at index 0 |
| Virtqueue.VQueue.Setup | virtio-nic/vnic/src/vqueue.c:110-163 | setting up connects the rings, leaves them, or drops them, as mapping turns out; the index of the next chain is kept |
| Virtqueue.VQueue.Teardown | virtio-nic/vnic/src/vqueue.c:165-189 | only a tear-down restarts the index |
| Virtqueue.VQueue.GetAvailBuf | virtio-nic/vnic/src/vqueue.c:236-331 | when the queue is closed, out of range by the first reading of the index or empty by the second; otherwise exactly one index is consumed and the walk result is returned |
| Virtqueue.VQueue.AddBuf | virtio-nic/vnic/src/vqueue.c:430-455 | the chain goes to the used slot the index in guest memory names, exactly when the ring is set up and the head in range, and the index found then is incremented |
| VringOrder.CellIsMod | virtio-nic/vnic/src/vqueue.c:272-273 | ring positions are remainders by the ring size |
| VringOrder.TakeIsGetAvailBuf | virtio-nic/vnic/src/vqueue.c:252-273 | the run model's take has the range panic, empty case, entry and next index of the device's get |
| VringOrder.SlotsDiffer | virtio-nic/vnic/src/vqueue.c:272-273 | for divisors of 2^16 entries less than a ring apart never share a slot |
| VringOrder.SlotsCollide | virtio-nic/vnic/src/vqueue.c:272-273 | for other sizes the 16-bit wrap makes two outstanding entries share one |
| VringOrder.StepKeepsInv | virtio-nic/vnic/src/vqueue.c:252-273 | every publish and take keeps the slots of outstanding entries intact |
| VringOrder.OtherSizesLoseOrder | virtio-nic/vnic/src/vqueue.c:272-273 | a run of more than 2^16 steps that hands out the wrong entry |
| VringOrder.OrderIffSizeDivides | virtio-nic/vnic/src/vqueue.c:252-273 | in all runs the k-th take gets the k-th published entry, across 16-bit wrap, with no range panic, if and only if the size divides 2^16 |
| VnetTransfer.SendTurn | virtio-nic/vnic/src/virtio-net.c:476-650 | one turn ends as frame, index, chain, sizes and checks decide (`EndOf`, whose verdict `ChainVerdict` states on the chain); dropped and kept chains are returned with the total length of the chain, failing ones are not |
| VnetTransfer.ChainVerdict | virtio-nic/vnic/src/virtio-net.c:502-625 | what becomes of a whole chain, by its segments: each error code, dropped or kept |
| VnetTransfer.NoChainVerdict | virtio-nic/vnic/src/virtio-net.c:488-501 | a head without a whole chain of at most four readable segments fails |
| VnetTransfer.KeptIff | virtio-nic/vnic/src/virtio-net.c:502-625 | a packet is kept if and only if the chain holds a header and a frame of 42 to 2046 bytes and all copies succeed |
| VnetTransfer.LengthIsTold | virtio-nic/vnic/src/virtio-net.c:533-634 | the length reported is the total length of the chain modulo 2^32 |
| VnetTransfer.SendLoop | virtio-nic/vnic/src/virtio-net.c:476-655 | the loop stops exactly at the first turn that does not go through or at the end of the burst, with the result of that turn; it returns chains in the order taken, keeps frames of exactly the passing turns and splits all frames |
| VnetTransfer.SendRound | virtio-nic/vnic/src/virtio-net.c:476-650 | a round keeps the loop's progress, a kept frame going into the array |
| VnetTransfer.FlushTx | virtio-nic/vnic/src/virtio-net.c:415-675 | which result comes when, and on a count at which turn it stopped and why; heads returned equal heads taken, in order, and a frame is forwarded if and only if its chain is whole with at most four readable segments, the first holding a header, and a frame of 42 to 2046 bytes in all, and mapping, header and copies are in order; each chain is returned with its total length; every allocated frame is forwarded or freed once; on errors all are freed and just the last chain stays taken; a null read exactly if the driver is ready and the ring is not |
| VnetTransfer.SendEnd | virtio-nic/vnic/src/virtio-net.c:496-534 | how each exit of the loop disposes of the frames and what it reports |
| VnetTransfer.SplitAll | virtio-nic/vnic/src/virtio-net.c:640-650 | freeing the kept frames on an error frees every frame once |
| VnetTransfer.ReceiveTurn | virtio-nic/vnic/src/virtio-net.c:292-385 | a turn ends as index, chain and sizes decide (`RxEndOf`, whose verdict `DeliveredIff` states on the chain); the chain is returned filled, returned empty, or lost when it cannot be walked |
| VnetTransfer.DeliveredIff | virtio-nic/vnic/src/virtio-net.c:292-385 | a packet is delivered if and only if a whole chain with one writable segment of 12 bytes more than the packet is there and mapping and copies succeed; the chain is lost if and only if it is not whole |
| VnetTransfer.Receive | virtio-nic/vnic/src/virtio-net.c:212-400 | a count of n means exactly the first n packets are freed, their chains returned in order with header plus packet length, and n is the first place where there is no packet, the burst is used up or the chain does not take the packet: it does if and only if it is whole with one writable segment of at least 12 bytes more than the packet, mapped and copied; not ready, no buffers and too few leave everything untouched |
| VnetTransfer.ReceiveNext | virtio-nic/vnic/src/virtio-net.c:260-385 | a packet keeps the loop's progress or ends it, as its turn decides |
| VnetTransfer.Attempt | virtio-nic/vnic/src/vnic.c:212-245 | what the poll makes of an attempt to deliver; it gives up only if the card is not ready or the first packet is not taken, and always then |
| VirtioConfig.VnicMmio.constructor | virtio-nic/vnic/src/vnic.c:97-107 | the state after set-up |
| VirtioConfig.VnicMmio.SetFeatures | virtio-nic/vnic/src/virtio.c:230-257 | negotiation happens only before FEATURES_OK, keeps offered features only, and panics without the MAC bit |
| VirtioConfig.VnicMmio.ResetDevice | virtio-nic/vnic/src/virtio.c:103-138 | a reset restores every queue and register as specified |
| VirtioConfig.VnicMmio.WriteStatus | virtio-nic/vnic/src/virtio-mmio.c:160-187 | a status write negotiates, takes over the status and may reset |
| VirtioConfig.VnicMmio.HandleWrite | virtio-nic/vnic/src/virtio-mmio.c:65-219 | every guest write refines `After`, panics included; `VirtioHistory.ConfigurationIsWritten` determines `After` over every run |
| VirtioConfig.WriteKeepsWellFormed | virtio-nic/vnic/src/virtio-mmio.c:83-187 | every write keeps the configuration well formed |
| VirtioConfig.ConfigurationStaysWellFormed | virtio-nic/vnic/src/virtio.c:200-210 | after all writes that do not panic: the selected queue exists, ring sizes are 1 to 256, features are a subset of the offered ones, started agrees with DRIVER_OK |
| VirtioConfig.FeaturesAreFrozen | virtio-nic/vnic/src/virtio.c:248-257 | the features do not change while FEATURES_OK stays set |
| VirtioConfig.LayoutKeptIff | virtio-nic/vnic/src/virtio.c:187-210 | a write keeps every connected ring at the size it was laid out for if and only if it is not an accepted other size for one |
| VirtioConfig.RingSizeIsStableIff | virtio-nic/vnic/src/virtio-mmio.c:109-140 | throughout any run of writes connected rings keep the size they were mapped with if and only if no write resizes one after QUEUE_READY |
| VirtioConfig.ResizeIsReachable | virtio-nic/vnic/src/virtio-mmio.c:109-112 | two writes do |
| VirtioConfig.NegotiationPanicsIff | virtio-nic/vnic/src/virtio.c:230-246 | setting FEATURES_OK panics if and only if the driver did not ask for the MAC feature |
| VirtioConfig.VersionIsNotChecked | virtio-nic/vnic/src/virtio.c:239-243 | a driver without VERSION_1 gets through; one with nothing else does not |
| VirtioHistory.ConfigurationIsWritten | virtio-nic/vnic/src/virtio-mmio.c:83-187 | after any writes that do not panic every field is what the latest write concerning it says: status; selected queue since the last reset; feature words by selector; negotiated features as asked at the last negotiation; and per queue size, request, readiness, mapping and laid-out size from the latest such write made while that queue was selected |
| VirtioHistory.LatestIs | virtio-nic/vnic/src/virtio-mmio.c:83-187 | the write that decides a field is one that concerns it, and no later one does |
| VirtioHistory.RegistersNext | virtio-nic/vnic/src/virtio-mmio.c:83-187 | one write keeps that for the registers |
| VirtioHistory.QueuesNext | virtio-nic/vnic/src/virtio-mmio.c:105-145 | one write keeps that for both queues: it changes the selected one only |
| VirtioHistory.WritePanicsIff | virtio-nic/vnic/src/virtio.c:230-246 | after any writes the next one panics if and only if it negotiates without the MAC feature asked for, or has an odd size in the configuration bytes |
| VirtioHistory.PendingIff | virtio-nic/vnic/src/virtio-mmio.c:150-159 | an interrupt is pending after any writes if and only if it was before and no write acknowledges it or resets |
| PacketQueue.PktQueue.constructor | fec_drivers/bstgw/imx_fec.c:1870-1882 | a new queue is empty |
| PacketQueue.PktQueue.BulkAdd | nettrug/pta/bstgw_pktq.h:43-54 | adds as many as fit, as `Added` says |
| PacketQueue.PktQueue.Add | nettrug/pta/bstgw_pktq.h:56-64 | adds one unless full |
| PacketQueue.PktQueue.DropBufs | nettrug/pta/bstgw_pktq.h:66-73 | drops a prefix, as `Dropped` says |
| PacketQueue.PktQueue.ContigBufs | nettrug/pta/bstgw_pktq.h:81-87 | returns the contiguous count |
| PacketQueue.AddedAppends | nettrug/pta/bstgw_pktq.h:43-54 | adding appends what fits to the contents, across the wrap |
| PacketQueue.DroppedRemoves | nettrug/pta/bstgw_pktq.h:66-73 | dropping removes exactly that prefix |
| PacketQueue.ContiguousIsPrefix | nettrug/pta/bstgw_pktq.h:75-87 | the contiguous packets are the oldest ones, none only if empty |
| PacketQueue.StepKeepsInv | nettrug/pta/worker.c:181-238 | every step of producers and the two-phase consumer keeps the queue invariant |
| PacketQueue.HandedInOrder | nettrug/pta/worker.c:197-233 | in every run the handler gets exactly the accepted packets in order, slots of a burst are never overwritten, and drops remove exactly what was handed on |
| Ownership.OwnershipIsAPartition | nettrug/pta/bstgw_eth_buf.c:28-89 | after every run of any number of workers each buffer that was made is in exactly one of free list, queues, hands, transmit ring, receive ring and firewall, there once, and nothing else is anywhere |
| Ownership.StepConserves | nettrug/pta/bstgw_eth_buf.c:42-89 | no step of any worker loses or doubles a buffer; only growing the pool makes any |
| Ownership.RunConserves | nettrug/pta/bstgw_eth_buf.c:42-89 | nor does any run |
| Ownership.OnceIsOnePlace | nettrug/pta/bstgw_eth_buf.c:69-89 | a buffer counted once is at exactly one place |
| Ownership.PairCounts | nettrug/pta/bstgw_eth_buf.c:69-89 | two places never share more copies than exist |
| Ownership.QueuesKeepOrder | nettrug/pta/worker.c:181-238 | over every run, what all workers put into a queue, in order, is what its consumer took, in that order, followed by what the queue still owns |
| Ownership.AppendReaches | nettrug/pta/bstgw_pktq.h:43-54 | an append of a run puts what fits into the queue in one piece |
| Ownership.TxKeepsOrder | fec_drivers/bstgw/imx_fec.c:268-370 | what was submitted, in order, is what was reclaimed, in that order, followed by what the ring still holds |
| Ownership.OthersKeep | nettrug/pta/worker.c:197-233 | no run in which a worker takes no step touches its hands, bursts and ring ends |
| Ownership.OwnStepIsCalm | nettrug/pta/worker.c:131-179 | a worker's own allocating, freeing and appending leaves its bursts and ring ends alone |
| Ownership.QueueRefines | nettrug/pta/bstgw_pktq.h:43-87 | the queues of this model are the circular queue of `PacketQueue`: a handed-on packet keeps its slot until it is dropped |
| Ownership.SubmitRefines | fec_drivers/bstgw/imx_fec.c:268-370 | a submit is the hand-over store of `TxRing`, within the ring's room, and no other store moves a buffer |
| Ownership.CompleteRefines | fec_drivers/bstgw/imx_fec.c:616-731 | a reclaim is the store that takes the oldest saved pointer |
| Routing.BatchReachesQueue | nettrug/pta/worker.c:489-503 | in any run that contains a routed burst, the batch of every interface the mask can name is appended to its queue at one moment, as far as it fits, in order |
| Routing.NothingRemainsIff | nettrug/pta/worker.c:489-503 | a burst leaves nothing in hand exactly if no packet is for an interface the mask cannot name |
| Routing.AllDisposedIff | nettrug/pta/worker.c:489-499 | the router disposes of every packet of every burst if and only if there are at most seven interfaces |
| Routing.LeftNext | nettrug/pta/worker.c:495-503 | a sent batch and what remains behind it are what remained before |
| Routing.BatchedNext | nettrug/pta/worker.c:489-492 | batches and mask stay exact as packets are sorted in |
| Router.Gateway.constructor | nettrug/pta/bstgw_eth_buf.c:28-35 | before any buffer is made |
| Router.Gateway.OwnersArePartitioned | nettrug/pta/bstgw_eth_buf.c:42-89 | whatever the routines have done, each buffer that was made is at exactly one place |
| Router.Gateway.QueueIsInOrder | nettrug/pta/worker.c:181-238 | and what was put into a queue is what was taken from it, in order, and what it still owns |
| Router.Gateway.Meanwhile | nettrug/pta/worker.c:197-233 | whatever steps the other workers take, they leave a worker's hands, bursts and ring ends alone |
| Router.Gateway.Increase | nettrug/pta/bstgw_eth_buf.c:42-53 | new buffers go to the front of the free list, or the pool panics |
| Router.Gateway.AllocBuf | nettrug/pta/bstgw_eth_buf.c:69-79 | takes the first free buffer into the hands, panics exactly if there is none |
| Router.Gateway.FreeBuf | nettrug/pta/bstgw_eth_buf.c:82-89 | a buffer in hand goes back to the front of the free list |
| Router.Gateway.KeepBuf | nettrug/pta/worker.c:30-48 | the firewall keeps a buffer |
| Router.Gateway.Enqueue | nettrug/pta/worker.c:145-147 | appends what fits beside the packets that are handed on and not yet dropped, in one lock region |
| Router.Gateway.FreeAll | nettrug/pta/worker.c:149-151 | the worker's steps are the frees of the whole batch, in order |
| Router.Gateway.DoMenqueue | nettrug/pta/worker.c:131-179 | under interference, the worker's steps are one append of the whole batch and the frees of what did not fit |
| Router.Gateway.ArpRequest | nettrug/pta/arp.c:137-178 | the worker's steps are one allocation and the sending of that buffer |
| Router.Gateway.AskAndFree | nettrug/pta/worker.c:416-422 | the same, and then the free of the unresolved packet |
| Router.Gateway.RouteOne | nettrug/pta/worker.c:394-492 | the worker's steps are those of the packet's fate, and the packet leaves the hands exactly when it is not forwarded |
| Router.Gateway.SortIn | nettrug/pta/worker.c:489-492 | the forwarded packet joins its batch and its interface the mask |
| Router.Gateway.RouteAll | nettrug/pta/worker.c:446-493 | the first loop handles every packet in order and sorts the forwarded ones into per-interface batches |
| Router.Gateway.SendAll | nettrug/pta/worker.c:495-503 | the second loop sends each batch the mask names, whole and once, in order of the interfaces |
| Router.Gateway.RouterIfInput | nettrug/pta/worker.c:427-514 | under interference, the worker's steps are the handling of every packet and then the sending of every named batch, or the frees of all without memory; what stays in hand is exactly what the mask cannot name |
| Router.Gateway.TakeBurst | nettrug/pta/worker.c:197-214 | the worker's steps hand on exactly the oldest packets while they keep their slots |
| Router.Gateway.EndBurst | nettrug/pta/worker.c:225-233 | dropping removes exactly what was handed on, whatever was appended meanwhile |
| Router.Gateway.RouteIngress | fec_drivers/bstgw/imx_fec.c:1165-1182 | the worker's steps look up a burst, hand it on, route it as `RouterIfInput` does, and then drop it |
| Router.Gateway.SubmitBuf | fec_drivers/bstgw/imx_fec.c:268-370 | a packet in hand fills a transmit slot |
| Router.Gateway.PassOn | fec_drivers/bstgw/imx_fec.c:282-321 | a packet of the burst goes to the transmit ring, or to the free list if it cannot be mapped |
| Router.Gateway.RouterPktqTx | nettrug/pta/worker.c:181-238 | under interference, the worker's steps look up the burst, pass on a first part of it in order, each packet to the transmit ring or, unmapped, to the free list, as much as there is room at least, and only then drop that part |
| Router.Gateway.VnicXmit | virtio-nic/vnic/src/vnic.c:271-282 | the worker's steps hand on and free a first part of the burst in order, which is then dropped |
| Router.Gateway.ReclaimBuf | fec_drivers/bstgw/imx_fec.c:616-731 | empties the oldest transmit slot |
| Router.Gateway.FecTxq | fec_drivers/bstgw/imx_fec.c:616-731 | the worker's steps empty the oldest transmit slots in order and free each buffer |
| Router.Gateway.AllocRxq | fec_drivers/bstgw/imx_fec.c:1486-1530 | the worker's steps grow the pool and fill one slot after the other; when a buffer cannot be mapped, it and the whole ring are freed |
| Router.Gateway.FreeRxq | fec_drivers/bstgw/imx_fec.c:1397-1420 | the worker's steps drain and free every receive slot in order |
| Router.Gateway.Copybreak | fec_drivers/bstgw/imx_fec.c:761-800 | a good frame gets a fresh buffer |
| Router.Gateway.FecRxq | fec_drivers/bstgw/imx_fec.c:836-1071 | under interference, the worker's steps allocate one buffer for each good frame and send every full burst, and the rest at the end, to the ingress queue |
| Iovec.Gather | virtio-nic/vnic/src/iovec.c:134-168 | copies the first bytes of the flattened segments, and nothing else |
| Iovec.Land | virtio-nic/vnic/src/iovec.c:186-196 | finds the segment where the skip lands, exactly when the total covers the skip |
| Iovec.GatherSkip | virtio-nic/vnic/src/iovec.c:170-228 | the flat slice from the skip on; an error if and only if the total is below the skip; which bytes are written and when the buffer is overrun |
| Iovec.GatherIsSliceIff | virtio-nic/vnic/src/iovec.c:198-210 | whatever the buffer held, its bytes past the requested length survive a gather if and only if nothing is skipped or the rest of the landing segment is asked for |
| Iovec.Scatter | virtio-nic/vnic/src/iovec.c:38-72 | writes a prefix of the source over the flattened segments in place, and nothing else |
| Iovec.ScatterSkip | virtio-nic/vnic/src/iovec.c:74-132 | the same from the skip on, with the exact error, overrun and extent |
| Iovec.FlatWrite | virtio-nic/vnic/src/iovec.c:110-110 | a write inside one segment is a write at its offset in the flat view |
| Iovec.ScatterThenGather | virtio-nic/vnic/src/iovec.c:74-228 | what a scatter moved is what a gather with the same skip reads |
| Iovec.RoundTrip | virtio-nic/vnic/src/iovec.c:74-228 | the two methods in a row report the same count and give the bytes back |
| Cyclic.WindowGrows | nettrug/pta/bstgw_pktq.h:43-54 | writing behind a circular window extends it and keeps it |
| Cyclic.WindowSplits | nettrug/pta/bstgw_pktq.h:66-73 | a circular window splits at any point |
| RingBuffer.SwBuffer.constructor | configservice/ta/ringbuffer.c:14-20 | an initialised buffer is empty |
| RingBuffer.SwBuffer.SpaceLeft | configservice/ta/ringbuffer.c:27-45 | space left plus data left is always 2048 |
| RingBuffer.SwBuffer.CopyIn | configservice/ta/ringbuffer.c:64-78 | the one or two copies write the data at the tail, going round |
| RingBuffer.SwBuffer.Put | configservice/ta/ringbuffer.c:48-85 | aborts if and only if full; appends what fits, except that an exact fill leaves nothing |
| RingBuffer.SwBuffer.Get | configservice/ta/ringbuffer.c:88-125 | aborts if and only if empty; removes and returns the oldest bytes |
| RingBuffer.LossesAdd | configservice/ta/ringbuffer.c:48-85 | losses only grow, and an exact fill loses 2048 bytes |
| RingBuffer.OrderIffNoExactFill | configservice/ta/ringbuffer.c:48-125 | over any run that does not abort, bytes come out in order and none is lost if and only if no put asked for exactly the space left |
| RingBuffer.ExactFillVanishes | configservice/ta/ringbuffer.c:56-59 | an exact fill of an empty buffer is indistinguishable from empty |

## Left out

- Linux kernel services, PHY and MDIO timing, clocks, GPIO, cache maintenance, memory barriers and address mapping: foreign calls, replaced by parameters; memory is sequentially consistent.
- The spinning worker's number of rounds and all timing: progress is stated as reachability of a poll or of an empty ring, not as a bound in time or under a fair scheduler.
- NPF, routing tables, mbedTLS and the HTTP parser: the firewall, the route and the ARP cache appear only as a packet's fate.
- Packet headers, ARP contents and checksums: which bytes are rewritten is not modelled.
- `bstgw_ethbuf_precut`, `_prepend` and `_linearize`: they move the data window of one buffer that a worker already holds. They neither change who owns a buffer nor its place in a queue, so no property here depends on more than their outcome, which is part of a packet's fate.
- `bstgw_ethpool_buf_destroy`: the pool grows and is never shrunk, because nothing calls it.
- Transmit queue stop and wake thresholds at store granularity: the source's order of updates does not guarantee them.
- The FEC shutdown path beyond the proof that it panics, and the PTP files, which this build disables.
- ConfigService pages, certificates, session handling and the web front end: plumbing over libraries.
- FecRx.EnableIsSafeIff: a restart also resets rings, events and the interrupt mask between disable and enable; the model re-enables without that, so its condition is about what the interrupt path itself leaves behind.
- FecTraps.FecTrap.EmuCheck: a `napi_disable` that does not see its worker return within `rounds` looks is reported as still waiting; the source waits for ever.
- Iovec.GatherSkip: sizes are unbounded naturals and segment bases are never null, because the callers pass mapped segments.
- Iovec.ScatterSkip: segments do not overlap and are never null, because two aliasing segments have no flat view.
- Iovec.RoundTrip: needs segments that do not overlap, as the scatter does.
- VnetTransfer.Receive: a failing copy is a parameter of the turn; its bytes are stated in `Iovec`.
- Virtqueue.VQueue.GetAvailBuf: the index may change between its two readings and the two flags of a descriptor are separate readings, but a descriptor that is visited twice is the same both times.
- Virtqueue.VQueue.AddBuf: the used ring itself is written by the device only, because nothing reads it back.
- VirtioConfig.VnicMmio.HandleWrite: ring addresses and the configuration bytes only enter as the outcome of mapping.
- VnicDeliver.NoPacketGoesUnnoticed: the rings are mapped, because the poll writes their flags before anything else and faults otherwise; VnicNotify has the same premise.
- Router.Gateway.RouterIfInput: batches are sequences, one for each interface, instead of one array with offsets.
- Router.Gateway.DoMenqueue: egress notification is the subject of `FecRoute` and `VnicDeliver` and leaves no trace here.
- Router.Gateway.AllocRxq: on a failed mapping the source also resets the transmit ring, which is the subject of `TxRing.ResetTxQueue`.
- FecRoute.EnableIsSafeIff: which packets make up the budget is left open; only that it is settled when the loop is left is modelled.
- Router.Gateway.FecTxq: how many slots the hardware has sent is a parameter; that only sent ones are freed is stated in `TxRing`.
