# Protocols of the VMM device and VCPU models, verified

Dafny models of four stateful parts of the virtual machine monitor, with proofs of the properties
they are written for. To verify them with Dafny 4.11: `dafny verify dfyconfig.toml`.

**VCPU roundup** (`Counting`, `RoundupModel`, `RoundupInvariant`, `RoundupSteps`, `RoundupHolder`,
`RoundupMutex`, `RoundupSafety`, `RoundupTheorems`, `RoundupCounters`, `RoundupParallel`,
`RoundupProgress`, `RoundupLiveness`). The stop-the-world protocol as a transition system: any number
of VCPU threads (fewer than 65536, as the counters have 16 bits) and of outside callers, one atomic
operation per step, every interleaving. The state word of a VCPU, `vcpus_progressing`, `_vcpu_waiters`, the mutex,
the sticky signals and the two semaphores are as in the source, with 16-bit wrap; a failing `ASSERT`
or an `ABORT_WITH` is a state of its own, `Aborted`. The calling discipline is built into the steps:
a VCPU thread first switches itself on, calls a roundup only from emulation, and resumes before it
leaves emulation. `RoundupInvariant.Inv` is the inductive invariant; it reads a *phase* off the mutex
and the program point of its holder and ties each counter to a count of program points.

**Virtqueue** (`SplitRing`, `Virtqueue`, `QueueObjects`). Both rings with free-running 16-bit indices
against unbounded ghost counters; slot write, index publish, index load and slot read are separate
steps of two parties. `QueueObjects` has the queue classes, whose methods are proved to be those steps,
and, on a ring that follows the protocol, to behave as the lists of heads that the buffers below use.

**Scatter-gather buffer** (`SgChain`, `SgWalk`, `SgWritten`, `SgReports`, `SgPayload`, `SgBuffer`,
`SgOutcome`, `SgCopy`, `SgCookie`, `SgTransfer`, `SgLinear`) and its end-to-end client, the **console**
(`Console`, `ConsoleReceive`). Shared memory is a function of the step and the index, so that it may change under
the walk. The buffer, the cookie and the console are classes; payload memory is one array of bytes,
address translation is the identity and may fail, before or after the bytes are moved, at any chunk
the caller of the model chooses. A copy may be put off with AGAIN after any part of it, as the copies
of an overriding implementation may; `SgTransfer` and `SgLinear` have the calls with their retry loops.

**GIC injection bookkeeping** (`GicInjection`, `GicDelivery`), the **readers/writer lock** (`RwLock`) and the
**virtual bus** with its cache (`Vbus`). `Counting` and `MachineWords` are shared.

## What the proofs found

- `roundup_parallel` locks the roundup mutex on its first caller's thread and `resume_parallel`
  unlocks it on the last caller's. The protocol is correct with a mutex that any thread may release,
  which is how it is modelled; a lock tied to its owner would not do.
- A write that ends short of what is already recorded for the first writable descriptor makes the
  reported length 2^32 - 1 (`SgWritten.ShortRewriteMisreports` is an example), although the comments
  in the source promise a lower bound for any order. `SgReports.ReportsExactly` says, for every history
  of writes, that this is the only way to break the promise (save where 2^32 - 1 is right by accident);
  falling short in a later descriptor makes the report too small at worst, and
  `SgWritten.ShortReports` gives the value.
- A GIC reset while a VCPU is between the two bit operations of `pending_irq` can be followed by steps
  of the other threads that leave an interrupt pending and no trace of it, for hardware and software
  interrupts alike (`GicInjection.ResetLoses`; `ResetCanLose` reaches such a state).
  `GicInjection.ResetExactly` says that a reset is otherwise harmless.
- Cookies. A copy from a buffer to itself, a linear copy out of a buffer that serves others, a copy to
  another buffer from one with a linear copy out under way, and a linear copy in to a buffer that is
  a source of either kind break the bookkeeping: a copy is refused its end, or a destination is counted
  that is gone (`SgCookie.SelfCopySticks`, `LinearOverSourceSticks`, `SourceOverLinearSticks`,
  `LinearInOverOutSticks`). A second linear copy out takes the place of the
  first. `SgCookie.StartSgExact`, `StartToLinearExact` and `StartFromLinearExact` say that these are
  all the ways.
- After `modify_link` fails with BADR for want of room the byte count no longer matches the chain
  (`SgBuffer.Buffer.ModifyLink` says exactly when, `SgBuffer.ModifyOutOfRoom` gets there).
- After `Bus::deinit` an access still reaches the device that was cached (`Vbus.StaleAfterDeinit`);
  `Vbus.Bus.Deinit` says that it goes wrong exactly when one was.

## Model

| member | source | states |
|---|---|---|
| RoundupSafety.RunInv | vcpu/vcpu_roundup/src/vcpu_roundup.cpp:39-143 | In every state of every interleaving, of any length and with any number of VCPUs and outside callers, the counting invariant holds |
| RoundupSafety.StepInv | vcpu/vcpu_roundup/src/vcpu_roundup.cpp:204-292 | Every atomic operation of every thread keeps the invariant |
| RoundupSafety.CpuInv | vcpu/cpu_model/src/cpu_model.cpp:409-499 | So do the VCPU's own transitions: on, off, into and out of emulation, whatever the holder does to its word in between |
| RoundupTheorems.MutualExclusion | vcpu/vcpu_roundup/src/vcpu_roundup.cpp:67-88 | No two threads are between `begin_roundup` and `signal_next_waiter` |
| RoundupTheorems.NothingAborts | vcpu/cpu_model/src/cpu_model.cpp:348-499 | No `ABORT_WITH` and no failing `ASSERT` is reachable: no transition out of place, no counter taken below zero, never more waiters than VCPUs |
| RoundupTheorems.StopTheWorld | vcpu/vcpu_roundup/src/vcpu_roundup.cpp:204-211 | From the return of `do_roundup` to the matching `end_roundup` every VCPU is marked rounded up, and one that emulates is the holder, has yielded, or takes part in the parallel roundup |
| RoundupTheorems.StaysStopped | vcpu/vcpu_roundup/src/vcpu_roundup.cpp:124-128 | That interval ends only with the holder's store in `end_roundup_core` |
| RoundupTheorems.NobodyStarts | vcpu/cpu_model/src/cpu_model.cpp:475-499 | Within it no VCPU enters emulation, in any continuation |
| RoundupTheorems.Reached | vcpu/vcpu_roundup/src/vcpu_roundup.cpp:204-211 | The interval is reached: a run in which an outside caller rounds up a VCPU |
| RoundupCounters.ExactCounting | vcpu/vcpu_roundup/src/vcpu_roundup.cpp:116-121 | `vcpus_progressing` is at every step the number of VCPUs not yet accounted for in the current phase |
| RoundupCounters.NeverBelowZero | vcpu/vcpu_roundup/src/vcpu_roundup.cpp:117-118 | A thread about to decrement it, for itself or for a VCPU it has marked, finds it above zero |
| RoundupCounters.WaitersExact | vcpu/vcpu_roundup/src/vcpu_roundup.cpp:45-53 | `_vcpu_waiters` counts the threads between their increment and decrement and never exceeds the number of VCPUs; the value `end_roundup_core` has read is still current when it stores |
| RoundupHolder.EndStoreInv | vcpu/vcpu_roundup/src/vcpu_roundup.cpp:124-128 | That store sets the counter to the VCPUs that do not wait, and the invariant goes on in the next phase |
| RoundupHolder.RuDecInv | vcpu/cpu_model/src/cpu_model.cpp:84-91 | The decrement on behalf of a VCPU that was not emulating when it was marked keeps the counting exact |
| RoundupHolder.ParReadInv | vcpu/vcpu_roundup/src/vcpu_roundup.cpp:263-266 | The count the first caller of a parallel roundup reads is stable: one more than the later callers, none of them let in |
| RoundupMutex.LastInv | vcpu/vcpu_roundup/src/vcpu_roundup.cpp:279-285 | The participant that finds itself last takes over the mutex, which the team holds, while no other VCPU is let in, inside, or about to count itself out |
| RoundupParallel.TokensConserved | vcpu/vcpu_roundup/src/vcpu_roundup.cpp:259-292 | The tokens of both semaphores, `count` and `num_waiters` match the threads at the door, inside, parked and releasing: each later caller is let in once, each parked participant released once |
| RoundupParallel.CleanStart | vcpu/vcpu_roundup/src/vcpu_roundup.cpp:263-271 | When the next parallel roundup completes, both semaphores are empty, nobody is parked, and nobody still loops on `num_waiters`, which is about to be overwritten |
| RoundupProgress.NoLostWakeup | vcpu/vcpu_roundup/src/vcpu_roundup.cpp:108-121 | A holder asleep with nobody left to wait for has the signal set or about to be; so has a VCPU asleep in `wait_for_resume` although it is ON |
| RoundupProgress.NoDeadlock | vcpu/vcpu_roundup/src/vcpu_roundup.cpp:204-292 | In every reachable state with a blocked thread some other thread in the protocol or in emulation is not blocked, and so moves (`RoundupLiveness.Moves`) |
| RoundupProgress.BlockedStays | platform/posix/include/platform/signal.hpp:67-75 | A thread that counts as blocked indeed takes no step: mutex held, signal not set, or semaphore empty |
| RoundupProgress.SleeperWoken | vcpu/cpu_model/include/model/cpu.hpp:257-264 | The resume signal is never missed between `switch_state_to_emulating` failing and the wait |
| RoundupLiveness.Moves | vcpu/vcpu_roundup/src/vcpu_roundup.cpp:204-292 | A thread that is not blocked moves with every step: to another program point, or from a compare-and-swap it has lost to the value it lost to |
| RoundupLiveness.GoesToSleep | vcpu/cpu_model/src/cpu_model.cpp:475-499 | A VCPU that wants to emulate and finds itself rounded up, at its load or its compare-and-swap, goes to sleep, and stays asleep until its signal is set |
| RoundupLiveness.SleeperTakes | vcpu/cpu_model/include/model/cpu.hpp:257-264 | A VCPU that sleeps in `wait_for_resume` with its signal set takes the signal and goes back to `begin_emulation`; nothing else changes |
| RoundupLiveness.HolderTakes | platform/posix/include/platform/signal.hpp:67-75 | So does a holder that sleeps until the emulating VCPUs are done |
| RoundupLiveness.StepDrops | vcpu/vcpu_roundup/src/vcpu_roundup.cpp:204-292 | A measure of what the threads in the protocol and in emulation have before them falls with each of their steps |
| RoundupLiveness.NobodyGoesOnForever | vcpu/vcpu_roundup/src/vcpu_roundup.cpp:204-292 | However those threads are scheduled from a reachable state, they take no more steps than the measure says |
| RoundupLiveness.SomebodyWinds | vcpu/vcpu_roundup/src/vcpu_roundup.cpp:204-292 | And as long as one of them is there, one of them has a step to take: every such schedule ends with everybody out |
| RoundupLiveness.OutIs | vcpu/vcpu_roundup/src/vcpu_roundup.cpp:229-243 | Then the mutex is free, every VCPU is resumed, and none sleeps without its signal |
| RoundupLiveness.BackInEmulation | vcpu/cpu_model/include/model/cpu.hpp:257-262 | From every reachable state each VCPU can get back into emulation: one that sleeps while the world is stopped, one that is off, one that is in a roundup |
| RoundupLiveness.CanSwitchOff | vcpu/cpu_model/src/cpu_model.cpp:435-463 | And each can be switched off |
| RoundupLiveness.OutsideGetsHeld | vcpu/vcpu_roundup/src/vcpu_roundup.cpp:204-219 | From every reachable state a caller from outside can get its roundup: the call returns to it with the world stopped |
| RoundupLiveness.VcpuGetsHeld | vcpu/vcpu_roundup/src/vcpu_roundup.cpp:222-224 | And so can every VCPU |
| RoundupLiveness.ResumeReturns | vcpu/vcpu_roundup/src/vcpu_roundup.cpp:229-292 | Whoever holds the world stopped, or ends a parallel roundup, comes out by its own steps alone, without having to wait for anybody: a VCPU into emulation, a caller from outside to where it was |
| RwLock.StepInv | platform/posix/include/platform/rwlock.hpp:45-74 | Every atomic operation keeps `_rw`, the flag and the queue mutex matched with the threads' program points |
| RwLock.Exclusion | platform/posix/include/platform/rwlock.hpp:45-60 | A writer inside excludes all readers and writers, with any number of threads |
| RwLock.NoStaleSignal | platform/posix/include/platform/rwlock.hpp:47-54 | The flag is set only while the owner of the queue is in its slow path and all readers are gone, so no later writer passes on it |
| RwLock.NoLostSignal | platform/posix/include/platform/rwlock.hpp:63-69 | A waiting writer with no reader left has the flag set, or the last reader about to set it |
| RwLock.NoDeadlock | platform/posix/include/platform/rwlock.hpp:45-74 | Whenever a thread waits some thread that owns the queue, reads or signals can go on |
| RwLock.BlockedOrMoves | platform/posix/include/platform/rwlock.hpp:45-74 | A thread that waits leaves the state as it is, and any other moves |
| RwLock.StepDrops | platform/posix/include/platform/rwlock.hpp:45-74 | A measure of what the threads under way have before them falls with each of their steps |
| RwLock.Empties | platform/posix/include/platform/rwlock.hpp:45-74 | From every state of the invariant the threads under way can all finish, and the lock is then as at first |
| RwLock.EverybodyGetsIn | platform/posix/include/platform/rwlock.hpp:45-60 | From every reachable state any thread can get inside, as a writer and as a reader |
| GicInjection.RunInv | devices/gic/src/gicd.cpp:809-897 | The word and the per-VCPU bits stay matched over every interleaving of assert, redirect, withdraw, inject, report and (guarded) reset |
| GicInjection.NoLostInterrupt | devices/gic/src/gicd.cpp:665-807 | A word pending for a VCPU always has one of that VCPU's bits set, or an operation under way that will see to it |
| GicInjection.PendingShows | devices/gic/src/gicd.cpp:842-897 | With everybody idle a pending interrupt shows in its target's bits |
| GicInjection.ResetExactly | devices/gic/src/gicd.cpp:1160-1205 | A reset is harmless in every continuation if and only if no VCPU is between setting its in-injection bit and clearing its pending bit, or that VCPU is the only thread there is and no hardware interrupt was pending |
| GicInjection.ResetLoses | devices/gic/src/gicd.cpp:1161-1175 | From every other state with a second thread, for hardware and software interrupts, reset has a continuation to an interrupt that is pending with no bit set and nobody about to set one |
| GicInjection.ResetTracks | devices/gic/src/gicd.cpp:1160-1205 | A reset with no VCPU half way keeps the bookkeeping |
| GicInjection.ResetCanLose | devices/gic/src/gicd.cpp:692-696 | A state with a VCPU half way is reachable, and a run from the initial state loses the interrupt |
| GicInjection.NotInjectedTwice | devices/gic/src/gicd.cpp:675-690 | In runs without a reset the injecting compare-and-swap never succeeds on a word already marked injected, by this VCPU or another |
| GicInjection.InjectionIsExclusive | devices/gic/src/gicd.cpp:853-862 | In such runs, while a VCPU has the interrupt in injection no re-routing and no other VCPU touches the word |
| GicDelivery.OncePerAssertion | devices/gic/src/gicd.cpp:665-695 | Over any stretch of any run without a reset: the injections are no more than the assertions and re-routings, the returns from VCPUs that had not taken the interrupt, and one for what waited at first |
| GicDelivery.QuietUntilAsked | devices/gic/src/gicd.cpp:809-897 | A word that is not pending stays so, and is not injected, until the next assertion |
| GicDelivery.ReportSettles | devices/gic/src/gicd.cpp:722-807 | After a report that the interrupt is handled or active the word is not pending, and is not injected, until the next assertion |
| GicDelivery.ReportMarksNothing | devices/gic/src/gicd.cpp:750-752 | And if the line is not asserted either, the report marks no VCPU |
| GicDelivery.AssertAlone | devices/gic/src/gicd.cpp:809-897 | What `assert_pi` does when nothing comes between: word and target's bit |
| GicDelivery.RedirectAlone | devices/gic/src/gicd.cpp:842-863 | What `redirect_spi` does: only an interrupt that waits to be injected moves |
| GicDelivery.DeassertAlone | devices/gic/src/gicd.cpp:937-953 | What `deassert_pi` does: a hardware interrupt is kept |
| GicDelivery.InjectAlone | devices/gic/src/gicd.cpp:665-720 | What `pending_irq` does: an interrupt pending for the VCPU is marked injected and the two bits change places; nothing else changes anything |
| GicDelivery.UpdateAlone | devices/gic/src/gicd.cpp:722-807 | What `update_inj_status` does, for every report |
| GicDelivery.Lifecycle | devices/gic/src/gicd.cpp:665-897 | Asserted, injected and reported handled, an interrupt leaves no trace; reported as not taken it can be injected again |
| GicDelivery.LostStartsOver | devices/gic/src/gicd.cpp:675-862 | An operation that loses its compare-and-swap goes on from its read as if it had just come to it |
| GicDelivery.ResetIsFresh | devices/gic/src/gicd.cpp:1160-1205 | With nobody under way a reset leaves a software interrupt as at the beginning, and keeps a hardware one, pending wherever it was in injection |
| SplitRing.ValidSizes | devices/virtio_base/include/model/virtqueue.hpp:395 | The bit test accepts exactly the powers of two up to 32768 |
| SplitRing.CountIsExact | devices/virtio_base/include/model/virtqueue.hpp:497-502 | `count_available` is the difference of the unbounded counters, across any wrap |
| SplitRing.WriteAgrees | devices/virtio_base/src/virtqueue.cpp:185-194 | Writing the next slot of a ring that is not full overwrites nothing unread |
| SplitRing.ReadAgrees | devices/virtio_base/src/virtqueue.cpp:104-136 | A receive after a successful load, however stale, returns the oldest value not received |
| Virtqueue.Fifo | devices/virtio_base/src/virtqueue.cpp:57-136 | On both rings, under any interleaving, what the k-th receive returns is what the k-th send put in, and no receive is rejected |
| Virtqueue.HeadConservation | devices/virtio_base/src/virtqueue.cpp:176-234 | Each head is always in exactly one of: driver, available ring, device, used ring |
| Virtqueue.NothingOverwritten | devices/virtio_base/src/virtqueue.cpp:193-207 | A party that may send is never about to write a slot that holds something unread, even when heads come back out of order |
| Virtqueue.CountsAreExact | devices/virtio_base/src/virtqueue.cpp:139-146 | `get_available` and `get_free` give the true counts in every reachable state |
| Virtqueue.NotifyExact | devices/virtio_base/src/virtqueue.cpp:150-155 | `used_event_notify` is true exactly when the index has moved past the requested event, modulo the wrap |
| Virtqueue.SendGoesThrough | devices/virtio_base/src/virtqueue.cpp:57-95 | From every reachable state a party that holds a head and is not in the middle of a send publishes it last with two steps |
| Virtqueue.ReceiveGoesThrough | devices/virtio_base/src/virtqueue.cpp:104-136 | From every reachable state, if anything published has not been received, a load and a read hand over the next of it |
| QueueObjects.DeviceQueue.Send | devices/virtio_base/src/virtqueue.cpp:57-95 | The device's send is a slot write followed by a publish on the used ring, and leaves the other ring alone; the fields: the entry in the slot of the old index, the index one further and published, the old one kept as `_prev` |
| QueueObjects.DeviceQueue.Recv | devices/virtio_base/src/virtqueue.cpp:104-136 | The device's receive: nothing, an index out of range, or the next head, with the event field set |
| QueueObjects.DeviceQueue.GetAvailable | devices/virtio_base/src/virtqueue.cpp:139-141 | The one 16-bit number of chains that takes this party's cursor to the index the driver has published, whatever that is |
| QueueObjects.DeviceQueue.GetFree | devices/virtio_base/src/virtqueue.cpp:144-146 | The one 16-bit number that, added to the distance between cursor and index, gives the size of the ring |
| QueueObjects.DeviceQueue.EventNotify | devices/virtio_base/src/virtqueue.cpp:150-155 | An interrupt is due exactly when the index the driver has asked for lies in the interval from `_prev` to the current index |
| QueueObjects.SendAndNotify | devices/virtio_base/src/virtqueue.cpp:57-155 | Right after a send an interrupt is due exactly when the driver has asked for one at the index that the send has used |
| QueueObjects.SendAll | devices/virtio_base/src/virtqueue.cpp:57-155 | Over any number of sends, after exactly those whose index the driver has asked for |
| QueueObjects.RecvFirst | devices/virtio_base/src/virtqueue.cpp:104-136 | On a ring that follows the protocol, receiving takes the first of the heads that wait, as from a list |
| QueueObjects.SendLast | devices/virtio_base/src/virtqueue.cpp:57-95 | And sending appends to what the driver will receive |
| QueueObjects.DriverQueue.Send | devices/virtio_base/src/virtqueue.cpp:185-211 | The driver's send is a slot write followed by a publish on the available ring, with the same fields |
| QueueObjects.DriverQueue.Recv | devices/virtio_base/src/virtqueue.cpp:214-234 | The driver's receive: nothing, or the next used id reduced to the ring |
| SgWalk.WalkExact | devices/virtio_base/src/virtio_sg.cpp:174-286 | For any memory, changing or not, the walk accepts exactly the legal chains that fit, each as it read it |
| SgWalk.StaticWalkExact | devices/virtio_base/src/virtio_sg.cpp:183-286 | With a table that does not change and a buffer no smaller than the queue it accepts if and only if the chain from the head ends and is legal, and caches that chain |
| SgWalk.ChainFits | devices/virtio_base/src/virtio_sg.cpp:201-211 | A chain that ends visits no index twice, so it is never longer than the queue: reaching the buffer's end means a loop |
| SgWalk.WalkStaysInTable | devices/virtio_base/src/virtqueue.cpp:20-38 | The walk never looks at a descriptor outside the table |
| SgChain.FlagBits | devices/virtio_base/include/model/virtqueue.hpp:53-54 | The two flags are the two lowest bits of the word, and no other bit matters |
| SgWalk.TwoChainWalk | devices/virtio_base/src/virtio_sg.cpp:183-286 | A chain of two, in terms of the words in the table: accepted exactly when neither length is zero, their sum is below 2^32 and a readable descriptor does not follow a writable one; and where its writable part begins |
| SgBuffer.Buffer.Walk | devices/virtio_base/src/virtio_sg.cpp:174-286 | Whatever memory answers, the walk ends, and either hands the head back once with length 0 and leaves a cleared buffer, or caches what it read and hands nothing back |
| SgBuffer.Buffer.WalkChain | devices/virtio_base/src/virtio_sg.cpp:160-169 | The same from the next waiting head on |
| SgBuffer.Buffer.Conclude | devices/virtio_base/src/virtio_sg.cpp:131-146 | A complete chain is handed back once, with the length recorded; what is left is a cleared buffer |
| SgBuffer.ConcludeTwice | devices/virtio_base/src/virtio_sg.cpp:126-146 | Concluding again sends nothing |
| SgBuffer.Buffer.WrittenLowerBound | devices/virtio_base/src/virtio_sg.cpp:84-111 | The loop computes the sum of the written prefixes up to the first gap, in 32 bits |
| SgBuffer.Buffer.AddDescriptor | devices/virtio_base/src/virtio_sg.cpp:1012-1073 | A descriptor is added if and only if the longer chain is still proper; cache and shared table get the same values |
| SgBuffer.Buffer.AddLink | devices/virtio_base/src/virtio_sg.cpp:288-295 | As above, and the flags announce a next one |
| SgBuffer.Buffer.AddFinalLink | devices/virtio_base/src/virtio_sg.cpp:297-308 | As above, and the flags announce none; the chain is then complete |
| SgBuffer.Buffer.ModifyLink | devices/virtio_base/src/virtio_sg.cpp:311-351 | Replaces address and length in cache and table or changes neither; the buffer's invariant is lost if and only if the call fails for want of room |
| SgBuffer.ModifyOutOfRoom | devices/virtio_base/src/virtio_sg.cpp:311-351 | From a new buffer with two links such a call leaves a byte count that differs from the payload's |
| SgBuffer.Buffer.Find | devices/virtio_base/src/virtio_sg.cpp:1089-1111 | Splits a payload offset into the one descriptor that holds it and the offset there |
| SgBuffer.Buffer.FirstWritableByte | devices/virtio_base/include/model/virtio_sg.hpp:408-418 | The payload offset at which the writable part begins |
| SgBuffer.Buffer.TrackWritten | devices/virtio_base/src/virtio_sg.cpp:61-82 | A write is recorded in each descriptor it covers some of, and in no other |
| SgWritten.RecordAt | devices/virtio_base/src/virtio_sg.cpp:13-26 | What one write does to each descriptor's record, in closed form: only the part of the descriptor it covers and what was recorded there matter |
| SgWritten.ReportExact | devices/virtio_base/src/virtio_sg.cpp:84-111 | After any sequence of writes of which the first starts at the first writable byte and each other where the one before ended, the report is the number of bytes written |
| SgWritten.RecordInOrder | devices/virtio_base/src/virtio_sg.cpp:61-82 | Each such write extends the recorded run by its length |
| SgWritten.LowerBoundExactly | devices/virtio_base/src/virtio_sg.cpp:84-111 | After any write at all to an honestly recorded chain, the report is a lower bound in the sense of VIRTIO 1.1 section 2.6.8 if and only if the write does not end short of the record of the first writable descriptor (or all of 2^32 - 1 writable bytes are written) |
| SgReports.ReportsExactly | devices/virtio_base/src/virtio_sg.cpp:13-111 | Over every history of writes since the walk, in any order, the report is a lower bound if and only if no write ever ended short of what was then recorded for the first writable descriptor (same exception) |
| SgWritten.ShortReports | devices/virtio_base/src/virtio_sg.cpp:13-26 | The value reported after every write that ends short, by the descriptor in which it does |
| SgWritten.RecordHonest | devices/virtio_base/src/virtio_sg.cpp:13-26 | Every other recorded prefix stays within its descriptor and among the bytes written |
| SgWritten.ReportLowerBound | devices/virtio_base/src/virtio_sg.cpp:84-111 | From honest records the report is a lower bound: that many bytes from the first writable one have all been written |
| SgWritten.ShortRewriteMisreports | devices/virtio_base/src/virtio_sg.cpp:17-21 | Eight bytes written and four of them rewritten are reported as 2^32 - 1 |
| SgWritten.SplitExactly | devices/virtio_base/src/virtio_sg.cpp:61-82 | A write recorded in any number of parts, across any descriptors, leaves the record of the whole write if and only if no part but the last ended short of a record that the whole write reaches |
| SgPayload.PutAppend | devices/virtio_base/src/virtio_sg.cpp:498-513 | Two runs of bytes written one behind the other are one |
| SgPayload.PutIsSlice | devices/virtio_base/src/virtio_sg.cpp:473-514 | What a copy does to the payload is assignment to a slice |
| SgCopy.CheckCopy | devices/virtio_base/src/virtio_sg.cpp:28-59 | The checks before a copy, in order, and the position they yield |
| SgCopy.CheckExact | devices/virtio_base/src/virtio_sg.cpp:28-59 | NOENT exactly for a copy that starts behind the payload, NOMEM exactly for one that ends behind it; an empty one may start at the end |
| SgCopy.CopyChunk | devices/virtio_base/src/virtio_sg.cpp:353-391 | One chunk is moved or not; a failing hook after the move reports failure with the bytes in place |
| SgOutcome.OneOutcome | devices/virtio_base/src/virtio_sg.cpp:452-517 | A copy has one outcome, whatever fails: exactly the pieces before the first that is read-only, not in memory or fails in translation are reported, with that piece's error; only a hook failing after the move leaves more bytes moved than reported |
| SgOutcome.TwoPieces | devices/virtio_base/src/virtio_sg.cpp:617-679 | The same worked out for a write to a chain of two |
| SgCopy.CopySg | devices/virtio_base/src/virtio_sg.cpp:452-517 | Success means exactly the requested bytes have moved, to the requested slice and nowhere else; a device writes only write-only descriptors; it succeeds whenever checks, permissions, memory and hooks allow, and otherwise returns the first failing check's error; in every case it comes to the one outcome of the job (`SgOutcome.ComesTo`) |
| SgCopy.TrySg | devices/virtio_base/src/virtio_sg.cpp:542-587 | One attempt at a request of any size, the empty one included, with its record: all of it, the part before an AGAIN, or the part before a failure |
| SgCopy.TryFromLinear | devices/virtio_base/src/virtio_sg.cpp:826-867 | The same from a linear buffer, into chains of any shape, and to the one outcome of the job |
| SgCopy.TryToLinear | devices/virtio_base/src/virtio_sg.cpp:720-758 | The same to a linear buffer, to the one outcome of the job |
| SgTransfer.TryEndCopyToSg | devices/virtio_base/src/virtio_sg.cpp:542-587 | One attempt at the request the cookie holds: EXIST exactly when the cookies do not match; after AGAIN the cookie asks for what is left, otherwise both are concluded |
| SgTransfer.CopyToSg | devices/virtio_base/src/virtio_sg.cpp:589-615 | Whatever the attempts do, a copy resumed up to ten times comes to one assignment of a run of bytes, recorded part by part; the cookies are afterwards as before; it is refused by the first failing check, and succeeds if nothing stands in its way and not all attempts say AGAIN; what is reported as copied is what the attempts copied, each up to its first piece that fails |
| SgLinear.CopyFromLinear | devices/virtio_base/src/virtio_sg.cpp:869-894 | The same from a linear buffer, with the errors for a null pointer and a buffer in use |
| SgLinear.CopyToLinear | devices/virtio_base/src/virtio_sg.cpp:760-785 | The same to a linear buffer |
| SgLinear.RoundTrip | devices/virtio_base/src/virtio_sg.cpp:617-679 | What is copied in at an offset and copied out there is what it was, for any shape of chain and however both were resumed; and both succeed if the run lies in payload and memory and may be written, no hook fails, and neither is put off for ever |
| SgLinear.Answer | devices/virtio_base/src/virtio_sg.cpp:131-286 | From walk to conclusion: an answer written in any number of pieces and attempts stands at the start of the writable part, whole if there is room and nothing fails and otherwise up to the first piece of memory that fails; the one head handed back reports exactly the bytes before that |
| SgCookie.CountsExact | devices/virtio_base/include/model/virtio_sg.hpp:190-242 | In every run among any number of buffers each source counts exactly the active destinations that point at it, each cookie holds at most one pointer, no assertion fails, and no start disturbs a copy under way |
| SgCookie.StartSgExact | devices/virtio_base/src/virtio_sg.cpp:519-540 | Starting a copy between buffers keeps the counts if and only if the two differ and the source serves no linear copy, and then disturbs no copy under way |
| SgCookie.EndSgExact | devices/virtio_base/src/virtio_sg.cpp:542-587 | Ending one always does; the source is free again exactly when no other destination is left; after AGAIN only the destination's request has moved on, by what was copied |
| SgCookie.StartToLinearExact | devices/virtio_base/src/virtio_sg.cpp:696-718 | A linear copy out keeps the counts if and only if the buffer serves no other buffer, and disturbs no copy if and only if the buffer is not in use (or the request is the same) |
| SgCookie.StartFromLinearExact | devices/virtio_base/src/virtio_sg.cpp:802-824 | A linear copy in keeps counts and pointers if and only if the buffer is not in use |
| SgCookie.EndLinearExact | devices/virtio_base/src/virtio_sg.cpp:720-758 | Ending a linear copy keeps them: the cookie is free, or after AGAIN asks for what is left |
| SgCookie.SelfCopySticks | devices/virtio_base/src/virtio_sg.cpp:519-526 | A copy of a buffer to itself is started, and from then on the buffer refuses every call |
| SgCookie.LinearOverSourceSticks | devices/virtio_base/src/virtio_sg.cpp:696-709 | After a linear copy out of a source the destination's copy is refused its end |
| SgCookie.SourceOverLinearSticks | devices/virtio_base/src/virtio_sg.cpp:519-529 | A source with a linear copy out under way ends up counting a destination that is gone, and nothing can end |
| SgCookie.LinearInOverOutSticks | devices/virtio_base/include/model/virtio_sg.hpp:123-131 | A linear copy in to a buffer with one out under way sets two pointers, and the copy out is refused its end |
| Console.Transmit.FromGuest | devices/virtio_console/src/virtio_console.cpp:69-109 | What a call returns is the front of the transmitted stream, as much as was asked for and stands before the first refused chain; what remains is the rest of it, less the rest of a chain whose copy failed; heads go back in ring order, each once, with length 0, and not before the turn after the chain's last byte; a call that comes back short has taken the chains up to the first refused one and no more |
| Console.Session | devices/virtio_console/src/virtio_console.cpp:69-109 | Any number of calls of any sizes, between which the guest adds chains and changes table and memory as it likes, save what it has handed over and has not been read: each reads the front of the stream, and all output followed by what is left is the initial stream followed by all that was added |
| ConsoleReceive.Receive.ToGuest | devices/virtio_console/src/virtio_console.cpp:37-67 | Whatever the guest offers and whichever copy fails: the chains before the first that fails hold their shares of the input (if they share no byte) and go back with those lengths, the one that fails goes back with exactly the bytes before its first piece of memory that failed (none if it was refused), which are in place, and the call succeeds exactly if the input ends before it; no chain is taken that the input does not reach; if no copy fails and nothing about the chains needed forbids the write, exactly if they are large enough |
| ConsoleReceive.LensAddUp | devices/virtio_console/src/virtio_console.cpp:43-64 | The lengths reported add up to the bytes delivered |
| Vbus.FindExact | platform/posix_core/include/platform/rangemap.hpp:56-90 | A search finds an entry exactly when one overlaps the target: the first |
| Vbus.RangeTests | platform/posix_core/include/platform/rangemap.hpp:18-34 | Ranges that do not wrap overlap, contain and precede each other exactly when their addresses do |
| Vbus.Bus.Register | devices/vbus/src/vbus.cpp:122-139 | A device is added exactly when its range is not empty, does not wrap and overlaps no other |
| Vbus.Bus.Unregister | devices/vbus/src/vbus.cpp:187-200 | Removes what the search finds, and never leaves it cached |
| Vbus.Bus.Access | devices/vbus/src/vbus.cpp:66-102 | The cached dispatch is what a fresh search would give, at the offset in that entry; there is one exactly when the target is not empty, does not wrap and overlaps a device |
| Vbus.Bus.ValidIsSound | devices/vbus/src/vbus.cpp:66-102 | While the invariant holds the cache makes no difference, for any address and size |
| Vbus.Bus.Deinit | devices/vbus/src/vbus.cpp:177-185 | After the map is emptied the cache makes a difference if and only if something was cached |
| Vbus.StaleAfterDeinit | devices/vbus/src/vbus.cpp:177-185 | From a new bus: register, access, deinit, and an access still reaches the device that a search no longer finds |

## Left out

- Weak memory: steps are sequentially consistent; slot write and index publish stay separate steps.
- Update in place of the concurrent parts: the roundup, the lock, the GIC word and the interleaved
  virtqueue are states that a step replaces, because the steps of different threads interleave
  within a method.
- Fairness: which thread the scheduler picks is not modelled. `RoundupLiveness` shows that threads under
  way finish under every schedule of their own steps, and that every thread can get its turn; not that
  it does get it while others keep starting new roundups.
- Timed waits, `recall` and `unblock`, guest execution and the power-on semaphore: foreign calls. A
  VCPU that is off may be switched on at any time.
- `wait_for_all_off` and the start-up counter: a counter of arrivals with one signal.
- `RwLock`: the word is unbounded; `RwLock.Exclusion` bounds it by twice the number of threads plus
  one, so a `size_t` does not wrap.
- GIC: the bit layout of the word, priority selection, CPU_SET targets, SGIs without affinity
  routing, software-pending registers and LPIs. The other reasons for `Irq::pending` to be true are
  a choice of the environment; re-routing to an invalid target is not modelled.
- Virtqueue: the layout of the rings in memory and byte order; the two words of a used entry are
  one slot.
- SgBuffer.Buffer.Walk: the tracing callback is not modelled.
- SgCopy.CheckCopy: the `ASSERT(false)` before each error return is a debug switch; the error return
  is modelled.
- SgCopy.CopySg: the two chains share no payload byte and the destination has none twice; copies
  between overlapping payloads depend on the copier. `SgCopy.TrySg` and `SgTransfer.CopyToSg` too.
- SgTransfer.CopyToSg: the source is no buffer with a linear copy under way and not the destination
  itself; `SgCookie` has what happens then. The same for `SgLinear.CopyFromLinear` and
  `SgLinear.CopyToLinear`, on a buffer that is in use as a source.
- SgTransfer.CopyToSg: the `start_..._impl` hooks succeed, as the default ones do.
- Buffers are known to a cookie of `SgTransfer` by their cookies, one to one.
- Console.Session: no copy fails; `Console.Transmit.FromGuest` says what one that does loses. The guest
  does nothing during a call.
- Console: the tests that the queue is constructed and the driver ready, and the interrupt line.
- ConsoleReceive.Receive.ToGuest: the descriptor table does not change during a call.
- Feature negotiation, MMIO register dispatch, statistics and logging.
- Block, network and socket devices, PL011, the timer, MSR tables, PSCI: register plumbing.
