# Schedulers, signals, a ticket server and a pipe copy

This project models four programs of a collection of operating-system exercises and proves
what they promise, over every run and every interleaving.

| part | files | programs |
|---|---|---|
| Two-level feedback scheduler with aging | `Scheduler*.dfy` | `Pintos/Scheduler_changes/thread.c` |
| Signals and the parent/child relation | `Signal*.dfy` | `Pintos/Added_Signals/signal.c`, `thread.c` |
| Ticket server with throttled workers | `Ticket*.dfy` | `Multithread_server_client/A.c`, `B.c` |
| Copy over two pipes | `PipeCopy*.dfy` | `Copy_using _pipes/fcopy.c` |

Each part has a pure specification (`SchedulerSpec`, `SignalSpec`, `TicketServer`, `PipeCopy`),
theorems about it, and classes that update their fields in place as the C code does
(`Scheduler`, `SignalKernel`, `TicketProgram`, `PipeCopyProgram`). Every method of a class is
proved to take the abstract value of the object to what the specification function of the same
operation says, so the theorems about the specification hold of the classes. `Queues.dfy` holds
facts about sequences of thread identifiers, `Basics.dfy` what several parts share.

**Scheduler.** A thread's one signed byte `count` says which queue it belongs to, how many
slices it has used up in queue A, and how long it has waited in queue B. An event is a create,
unblock, block, yield, exit or a timer interrupt (`thread_tick()` and the yield it may ask for).
The main results: `SchedulerBounds.NoStarvation` (a thread at position p of queue B is
dispatched or promoted within 24 + 8(p + 1) ticks and, if promoted to position q of queue A, runs
within 4(q + 1) more, whatever else happens), `SchedulerConservation.ThreadsConserved`,
`SchedulerOrder.NoOvertakingInB`, `SchedulerCount.DemotedAtSecondSlice` and
`SchedulerCount.PromotedAtTick24`, `SchedulerSwitch.FourTicksEach` and
`SchedulerSwitch.BlockedOverRun`, and the aging loop that removes from the list it walks
(`Scheduler.Kernel.AgeReadyListLow`).

**Signals.** `SignalInvariant.Settle` is the chain schedule - deliver - exit - schedule, which
ends because every death shortens `all_list` and idle cannot die. `SignalChain.ChainClosedForm`
says who dies in it and who is left; `SignalHistory.RunRecorded` that the pending list is what
the history of sends and deliveries makes it, and `SignalHistory.DeliveredExactlyOnce` that every
delivery has a send of its own; `SignalMasking.MaskedStaysPending` that masking only delays, for
each of SIG_UBLOCK, SIG_USR and SIG_CHLD; `SignalHandlers.EveryChldReport` and
`SignalHandlers.OneReportPerSend` what the handlers print, over every run. `SignalCalls` says what
each call does with the code's own numbers. `creator` and `log` are history that the kernel does not
store and that no decision reads.

**Ticket server.** Each process has an explicit program counter, each event is one atomic
action, spurious wake-ups included. Results: the ring (`TicketResults.RingConserves`), the gate
(`TicketResults.Hysteresis`), `TicketResults.NoDeadlock`, `TicketResults.WorkIsBounded`, and the
bookings (`TicketResults.BookingsLinearizable`, `TicketSales.SoldOverRun`).

**Pipe copy.** `PipeCopy.CopiesEverything`: every interleaving keeps all bytes in order, ends
after at most 6n + 2 system calls, and ends with the target equal to the source.

## Where the code and its documentation differ

The model follows the code.

- `CHILD_handler()` is said to print the number of children still alive. A death whose SIG_CHLD
  finds one pending, or is delivered while the signal is ignored, is never reported, so the
  number can be too high; it is never too low. `SignalReportExample.ReportCanOverstate` gives a run,
  `SignalHandlers.EveryChldReport` the exact condition for each number printed, and
  `SignalReports.ReportExactlyWhen` for the counters between operations.
- The comment above `idle()` (`Pintos/Added_Signals/thread.c:513`) says the idle thread never
  appears in the ready list again. A SIG_UBLOCK sent to it can put it there:
  `SignalIdle.IdleCanBeOnReadyList` gives a run, `SignalIdle.IdleReadyAfter` the exact condition for
  every event, `SignalIdle.IdleOffExactlyWhen` for whole runs, and `SignalIdle.IdleStaysOff` what callers
  have to refrain from.
- An ignored SIG_UBLOCK is not discarded, as section 2.4.3 of POSIX.1-2017 System Interfaces has
  it for ignored signals, but stays pending until the receiver accepts it:
  `SignalIgnored.IgnoredUblockStays` gives a run, `SignalIgnored.UblockGoneWhen` the exact condition.
- A signal set is said to be the 4 low bits of an unsigned short; it is a byte, and
  `sigfillset()` sets all eight bits (`SignalKernel.SigFillSet`).
- The comment above the aging loop promotes a thread at count -24; the code does so when count
  falls below that. `SchedulerCount.StillWaiting` gives a thread at -24 in queue B,
  `SchedulerCount.NotPromotedAtMinus24` the exact condition.
- The server's text has B wait when more than ten requests are in progress; B waits when it finds
  ten. `TicketGate.TenHoldUpTheNext` gives a run, `TicketGate.GateClosesAtTen` the exact condition.
- The copy's text has the child exit after a chunk of less than 100 bytes; it goes on until the
  end of the pipe. `PipeCopyShort.GoesOnAfterShortChunk` gives a run, `PipeCopyShort.ChildExitsWhen` the
  exact condition.

## Model

| member | source | states |
|---|---|---|
| SchedulerInvariant.AgedMembers | Pintos/Scheduler_changes/thread.c:158-181 | the aging pass loses and invents no thread: each goes to queue A or stays in B, exactly according to whether it is due |
| SchedulerInvariant.AgingCuts | Pintos/Scheduler_changes/thread.c:162-179 | on due threads followed by threads not yet due, aging cuts the queue between them |
| SchedulerInvariant.AgeSplits | Pintos/Scheduler_changes/thread.c:158-181 | in queue B, sorted by waiting time, a tick promotes a prefix in order with count 0 and takes one off the count of all others |
| SchedulerInvariant.DispatchInv | Pintos/Scheduler_changes/thread.c:619-633 | whichever thread next_thread_to_run() picks, one thread runs and the partition of the others into the queues holds |
| SchedulerInvariant.AgeSteady | Pintos/Scheduler_changes/thread.c:158-181 | aging keeps the partition and the order of queue B and leaves the running thread alone |
| SchedulerInvariant.TickSteady | Pintos/Scheduler_changes/thread.c:135-224 | a tick keeps the invariant but for the running slice, and keeps all of it unless a yield is asked for |
| SchedulerInvariant.EnqueueInv | Pintos/Scheduler_changes/thread.c:343-353 | joining the back of the queue that count names keeps the partition and the order of queue B |
| SchedulerInvariant.LeavingInv | Pintos/Scheduler_changes/thread.c:312-322 | a thread that blocks, yields or exits is in the queue its count names, or in none |
| SchedulerInvariant.CreateInv | Pintos/Scheduler_changes/thread.c:249-303 | a new thread joins queue A and everything else is as before |
| SchedulerInvariant.StepInv | Pintos/Scheduler_changes/thread.c:135-449 | every event keeps the whole invariant: exactly one place per thread, count in range, queue B sorted, slice not over, one thread running |
| SchedulerInvariant.InitInv | Pintos/Scheduler_changes/thread.c:119-131 | the invariant holds after start-up |
| SchedulerRuns.RunInv | Pintos/Scheduler_changes/thread.c:135-449 | the invariant holds in every state of every run |
| SchedulerBounds.StepA | Pintos/Scheduler_changes/thread.c:188-216 | no event moves a waiting thread of queue A back, and each tick brings it at least one tick nearer to running |
| SchedulerBounds.StepB | Pintos/Scheduler_changes/thread.c:158-216 | the same for queue B, until the thread is dispatched or promoted |
| SchedulerBounds.BoundedWaitInA | Pintos/Scheduler_changes/thread.c:188-216 | in every run the thread at position p of queue A runs within 4(p + 1) ticks, even if a thread of queue B has the processor |
| SchedulerBounds.NoStarvation | Pintos/Scheduler_changes/thread.c:158-216 | in every run the thread at position p of queue B is dispatched or promoted within 24 + 8(p + 1) ticks, and once at position q of queue A runs within 4(q + 1) ticks |
| SchedulerOrder.TickGivesPriority | Pintos/Scheduler_changes/thread.c:189-202 | after a timer interrupt a thread of queue B runs only if queue A is empty |
| SchedulerOrder.QueuesAreFifo | Pintos/Scheduler_changes/thread.c:432-440 | at every event only a front of each queue leaves, and newcomers join behind |
| SchedulerOrder.NoOvertakingInB | Pintos/Scheduler_changes/thread.c:158-181 | in every run a thread behind another one in queue B stays behind it until that one leaves |
| SchedulerCount.CountOutsideB | Pintos/Scheduler_changes/thread.c:203-213 | away from queue B count changes only by a full slice used up in queue A |
| SchedulerCount.CountInB | Pintos/Scheduler_changes/thread.c:168-170 | in queue B count changes only by a tick taken while a thread of queue A runs, and by being dispatched |
| SchedulerCount.StaysOrLeavesB | Pintos/Scheduler_changes/thread.c:158-181 | a thread of queue B waits on, or is promoted when due, or is dispatched with count -1 |
| SchedulerCount.DemotedAtSecondSlice | Pintos/Scheduler_changes/thread.c:203-213 | over a run, count is the number of slices used up in queue A, and demotion comes exactly with the second |
| SchedulerCount.PromotedAtTick24 | Pintos/Scheduler_changes/thread.c:168-173 | over a run, a thread left undispatched leaves queue B at exactly the 24th tick waited, with count 0 |
| SchedulerCount.NotPromotedAtMinus24 | Pintos/Scheduler_changes/thread.c:168-170 | a thread whose count falls to -24 stays in queue B; left undispatched, it leaves exactly at the next waiting tick |
| SchedulerCount.StillWaiting | Pintos/Scheduler_changes/thread.c:152-158 | a state after which a thread is in queue B with count -24 |
| SchedulerConservation.OnePlace | Pintos/Scheduler_changes/thread.c:249-449 | a live thread other than idle runs, is blocked, or is in the one queue the sign of count names, once |
| SchedulerConservation.CountNeverWraps | Pintos/Scheduler_changes/thread.h:99-100 | in every run count is between -24 and 1, and at least -1 away from queue B |
| SchedulerConservation.StepConserves | Pintos/Scheduler_changes/thread.c:249-449 | only creation adds a thread and only its own exit removes one |
| SchedulerConservation.ThreadsConserved | Pintos/Scheduler_changes/thread.c:249-449 | over a run a thread is in as many places as it was created and not exited, and that is at most one |
| SchedulerSwitch.YieldGoesBehind | Pintos/Scheduler_changes/thread.c:432-449 | after a yield the thread is ready at the back of queue A if its count is not negative, else of queue B, or runs if it is first in line; the front runs |
| SchedulerSwitch.BlockSleeps | Pintos/Scheduler_changes/thread.c:311-322 | after a block the thread is blocked and in no queue, and the front of A, else of B, else idle runs |
| SchedulerSwitch.ExitLeaves | Pintos/Scheduler_changes/thread.c:399-418 | after an exit the thread is gone and the front runs |
| SchedulerSwitch.UnblockWakes | Pintos/Scheduler_changes/thread.c:332-354 | an unblocked thread is ready at the back of the queue of its count, and nothing else changes |
| SchedulerSwitch.CreatedInA | Pintos/Scheduler_changes/thread.c:291-298 | a created thread has count 0 and is ready at the back of queue A, and nothing else changes |
| SchedulerSwitch.TickKeepsA | Pintos/Scheduler_changes/thread.c:203-215 | a thread of queue A keeps the processor at its first three ticks |
| SchedulerSwitch.TickKeepsB | Pintos/Scheduler_changes/thread.c:189-197 | a thread of queue B keeps it at its first seven ticks while queue A is empty |
| SchedulerSwitch.FourthTickSwitches | Pintos/Scheduler_changes/thread.c:203-213 | at the fourth tick a thread of queue A goes to the back of A with count 1, or with -1 to the back of B, behind the threads at count -24 that the tick promotes |
| SchedulerSwitch.TickSwitchesB | Pintos/Scheduler_changes/thread.c:189-202 | at the eighth tick, or at any while queue A is not empty, a thread of queue B goes to the back of queue B |
| SchedulerSwitch.StatusAfter | Pintos/Scheduler_changes/thread.c:311-449 | what every event leaves every thread's status at |
| SchedulerSwitch.BlockedAfter | Pintos/Scheduler_changes/thread.c:311-354 | a thread becomes blocked only by its own block, and stops being blocked exactly by an unblock of it |
| SchedulerSwitch.IdleBlockedAfter | Pintos/Scheduler_changes/thread.c:518-549 | idle stops being blocked exactly by being dispatched |
| SchedulerSwitch.BlockedOverRun | Pintos/Scheduler_changes/thread.c:311-354 | in every state of every run a thread is blocked exactly if no unblock has followed its last block |
| SchedulerSwitch.KeepsUntilFourth | Pintos/Scheduler_changes/thread.c:203-215 | over a run, a thread of queue A that does not block, yield or exit has the processor until its fourth tick |
| SchedulerSwitch.FourTicksEach | Pintos/Scheduler_changes/thread.c:203-213 | so a thread dispatched from queue A has it for exactly four ticks, and goes behind its queue at the fourth |
| SchedulerSwitch.KeepsUntilEighth | Pintos/Scheduler_changes/thread.c:189-197 | a thread of queue B has it until its eighth tick while queue A stays empty |
| Scheduler.Kernel.constructor | Pintos/Scheduler_changes/thread.c:119-131 | start-up leaves main running, idle blocked, the queues empty |
| Scheduler.Kernel.ThreadUnblock | Pintos/Scheduler_changes/thread.c:332-362 | the thread is ready at the back of the queue its count names |
| Scheduler.Kernel.NextThreadToRun | Pintos/Scheduler_changes/thread.c:619-633 | the front of queue A, else of queue B, else idle, leaves its queue |
| Scheduler.Kernel.ThreadScheduleTail | Pintos/Scheduler_changes/thread.c:651-662 | the new thread runs on a new slice |
| Scheduler.Kernel.Schedule | Pintos/Scheduler_changes/thread.c:692-708 | the next thread runs on a new slice and, coming from queue B, starts waiting afresh |
| Scheduler.Kernel.ThreadBlock | Pintos/Scheduler_changes/thread.c:311-322 | the running thread is blocked and the next one runs; the invariant is kept |
| Scheduler.Kernel.ThreadYield | Pintos/Scheduler_changes/thread.c:422-449 | the running thread is ready at the back of the queue its count names, idle in none, or runs on if it is first in line; the front runs on a new slice |
| Scheduler.Kernel.ThreadExit | Pintos/Scheduler_changes/thread.c:399-418 | the running thread is gone and the next one runs; the invariant is kept |
| Scheduler.Kernel.ThreadCreate | Pintos/Scheduler_changes/thread.c:249-303 | a thread with a fresh tid and count 0 is at the back of queue A; the invariant is kept |
| Scheduler.Kernel.AgeAt | Pintos/Scheduler_changes/thread.c:164-174 | one turn of the aging loop: the thread at this place is promoted and taken out, or has waited one tick more |
| Scheduler.Kernel.AgeReadyListLow | Pintos/Scheduler_changes/thread.c:161-179 | the loop that removes from the list it walks promotes exactly the due threads, in order, and ages the others |
| Scheduler.Kernel.ThreadTick | Pintos/Scheduler_changes/thread.c:135-224 | queue B ages if a thread of queue A runs, the slice is charged, and a yield is asked for exactly at the fourth tick in queue A, at the eighth in queue B, or in queue B while A is not empty |
| Scheduler.Kernel.Charge | Pintos/Scheduler_changes/thread.c:188-216 | the second half of thread_tick(): slices of four and eight ticks, demotion, preemption |
| Scheduler.Kernel.TimerInterrupt | Pintos/Scheduler_changes/thread.c:135-224 | the interrupt is thread_tick() and thread_yield() exactly if the turn is over; otherwise the same thread runs on, one tick later; the invariant is kept |
| SignalBits.SetBitInserts | Pintos/Added_Signals/signal.c:12-18 | setBit() is insertion into the set of eight bits, for all bytes |
| SignalBits.UnsetBitRemoves | Pintos/Added_Signals/signal.c:20-27 | unsetBit() is removal |
| SignalBits.CheckBitIsMember | Pintos/Added_Signals/signal.c:29-36 | checkBit() is membership |
| SignalBits.OrIsUnion | Pintos/Added_Signals/signal.c:307-308 | or of bytes is union of their sets |
| SignalBits.AndIsIntersection | Pintos/Added_Signals/signal.c:245-245 | and of bytes is intersection |
| SignalBits.AndNotIsDifference | Pintos/Added_Signals/signal.c:309-311 | and with the complement is difference |
| SignalBits.BitsInjective | Pintos/Added_Signals/signal.c:12-36 | a byte is determined by its set of bits |
| SignalPending.PostLookup | Pintos/Added_Signals/signal.c:90-110 | a send sets the sender of its own key, keeps at most one entry for it, and leaves all other keys alone |
| SignalPending.KeptLookup | Pintos/Added_Signals/signal.c:197-236 | a delivery pass takes exactly the deliverable keys off the list; the others keep their senders |
| SignalPending.KeptInOrder | Pintos/Added_Signals/signal.c:197-236 | the surviving entries stand in their old order |
| SignalPending.KeptAtIs | Pintos/Added_Signals/signal.c:197-236 | the places that survive are exactly those of entries not deliverable now |
| SignalPending.WokenWhoeverRuns | Pintos/Added_Signals/signal.c:203-214 | who is woken does not depend on the thread chosen to run |
| SignalPending.CaughtIs | Pintos/Added_Signals/signal.c:216-234 | sigd is the set of pending signals that the running thread lets in |
| SignalPending.UsrSenderIs | Pintos/Added_Signals/signal.c:226-228 | the sender reported is the one of the pending SIG_USR |
| SignalInvariant.WokenOcc | Pintos/Added_Signals/signal.c:203-214 | exactly the blocked receivers of delivered SIG_UBLOCKs wake, each once |
| SignalInvariant.ScannedInv | Pintos/Added_Signals/signal.c:197-236 | a delivery pass keeps the invariant of lists, forest and pending signals |
| SignalInvariant.SendInv | Pintos/Added_Signals/signal.c:90-110 | a send keeps the invariant, at most one entry per key included |
| SignalInvariant.TerminatedInv | Pintos/Added_Signals/thread.c:330-422 | after an exit the dead thread is off all_list, its children are orphans, and nobody runs |
| SignalInvariant.DispatchInv | Pintos/Added_Signals/thread.c:614-650 | the next thread runs and the lists are right |
| SignalInvariant.IdleSurvives | Pintos/Added_Signals/thread.c:521-521 | idle cannot be ended by SIG_KILL or SIG_CPU |
| SignalInvariant.Settle | Pintos/Added_Signals/thread.c:640-704 | the chain schedule - deliver - exit - schedule ends, by the length of all_list, in a state with the invariant |
| SignalSteps.Apply | Pintos/Added_Signals/thread.c:184-443 | every kernel operation and signal call keeps the invariant |
| SignalSteps.Run | Pintos/Added_Signals/thread.c:184-443 | so does every run |
| SignalSteps.InitInv | Pintos/Added_Signals/thread.c:101-134 | the invariant holds after start-up |
| SignalChain.DiesIffDoomed | Pintos/Added_Signals/signal.c:238-272 | delivery ends a thread exactly if a SIG_KILL is pending for it or its lifetime is over and SIG_CPU is neither masked nor ignored |
| SignalChain.ChainClosedForm | Pintos/Added_Signals/thread.c:640-704 | exactly the doomed threads at the front of the line die; the first other one runs, or idle; the rest of the line is the ready list |
| SignalChain.KillAtDispatchEnds | Pintos/Added_Signals/signal.c:217-270 | a SIG_KILL pending at dispatch ends the receiver whatever it masks or ignores |
| SignalChain.SettledHasNothingDue | Pintos/Added_Signals/thread.c:640-704 | the thread left running is live, with no SIG_KILL and no unmasked signal but SIG_UBLOCK pending |
| SignalChain.ChainDelivers | Pintos/Added_Signals/signal.c:216-234 | the chain takes SIG_USR from exactly the dispatched threads that do not mask it and SIG_KILL from exactly the dispatched; all others stay with their senders |
| SignalChain.ChainDeliversUblock | Pintos/Added_Signals/signal.c:204-214 | the chain takes SIG_UBLOCK from exactly the threads that neither mask nor ignore it, dispatched or not |
| SignalChain.ChainDeliversChld | Pintos/Added_Signals/thread.c:342-394 | after the chain a SIG_CHLD is pending for exactly those not dispatched, or masking it, that had one before or lost a child in the chain while they lived |
| SignalHistory.StepRecorded | Pintos/Added_Signals/signal.c:90-110 | every event keeps the pending list what the log of sends and deliveries says |
| SignalHistory.RunRecorded | Pintos/Added_Signals/signal.c:90-110 | in every run at most one entry is pending per receiver and signal, there is one exactly if something was sent since the last delivery, and it names the last sender |
| SignalHistory.DeliveredOnlyIfSent | Pintos/Added_Signals/signal.c:197-236 | nothing is delivered that was not sent, by the sender named |
| SignalHistory.DeliveredOncePerSend | Pintos/Added_Signals/signal.c:197-236 | between two deliveries of a signal to a thread it was sent again |
| SignalHistory.DeliveredExactlyOnce | Pintos/Added_Signals/signal.c:197-236 | in every run from the start each delivery is of the latest send for its receiver and signal, with that sender, and no other delivery is of the same send |
| SignalHistory.UsrReportsLastSender | Pintos/Added_Signals/signal.c:131-133 | USR_handler() gets the sender of the latest send |
| SignalMasking.SettleKeepsMasked | Pintos/Added_Signals/signal.c:206-222 | no delivery of the chain takes a masked SIG_UBLOCK, SIG_USR or SIG_CHLD off the list |
| SignalMasking.StepKeepsMasked | Pintos/Added_Signals/signal.c:206-222 | no event takes a masked SIG_UBLOCK, SIG_USR or SIG_CHLD off the list; only an accepted kill() changes its sender |
| SignalMasking.MaskedStaysPending | Pintos/Added_Signals/signal.c:206-222 | over a run in which the receiver masks the signal, a pending SIG_UBLOCK, SIG_USR or SIG_CHLD stays pending |
| SignalMasking.UnmaskedIsDelivered | Pintos/Added_Signals/signal.c:222-261 | once unmasked, SIG_USR and SIG_CHLD are delivered at the next dispatch of the receiver and gone; if not ignored, the handler reports the last sender, or counts and reports the death |
| SignalMasking.UnmaskedUblockWakes | Pintos/Added_Signals/signal.c:204-214 | once unmasked and not ignored, SIG_UBLOCK is delivered at the next dispatch of anybody, and a blocked receiver runs, is ready, or has died |
| SignalChildren.StepCounted | Pintos/Added_Signals/thread.c:225-227 | every event keeps child equal to the children created, and dchild plus a pending SIG_CHLD at most the dead ones |
| SignalChildren.RunCounted | Pintos/Added_Signals/thread.c:225-234 | so does every run |
| SignalChildren.ReportNeverUnderstates | Pintos/Added_Signals/thread.c:225-234 | the counters of a live thread between operations: child is the live children and the dead ones; child - dchild is at least the live ones, plus one if a SIG_CHLD is pending |
| SignalChildren.ParentsFormForest | Pintos/Added_Signals/thread.c:225-227 | a live thread's parent is nobody or a live thread with a smaller tid |
| SignalChildren.KillsComeFromCreator | Pintos/Added_Signals/signal.c:61-66 | every pending SIG_KILL was sent by the receiver's creator, alive or not |
| SignalReports.RunTallied | Pintos/Added_Signals/thread.c:342-394 | over every run, the dead children of a live thread are the SIG_CHLDs it was sent, and dchild the reports it made |
| SignalReports.SendsSplit | Pintos/Added_Signals/thread.c:377-394 | every SIG_CHLD sent was merged with a pending one, delivered while ignored, heard, or is pending |
| SignalReports.MergedWhen | Pintos/Added_Signals/thread.c:377-386 | a send is merged exactly if one is pending: the branch that finds an entry |
| SignalReports.IgnoredWhen | Pintos/Added_Signals/signal.c:245-261 | a delivery is wasted exactly if the running thread receives SIG_CHLD and ignores it |
| SignalReports.ReportExactlyWhen | Pintos/Added_Signals/signal.c:135-139 | after every run child - dchild exceeds the live children by the SIG_CHLDs merged, those ignored, and the one pending; so it is right exactly if there are none |
| SignalHandlers.ReportAtDelivery | Pintos/Added_Signals/signal.c:258-261 | a delivery of SIG_CHLD ends with a report of the running thread whose number is at least its live children, even if the thread dies of the same delivery |
| SignalHandlers.EveryChldReport | Pintos/Added_Signals/signal.c:135-139 | over every run each number printed exceeds the children alive at that time by the SIG_CHLDs merged and ignored before, so it is right exactly if there were none |
| SignalHandlers.OneReportPerSend | Pintos/Added_Signals/signal.c:251-254 | over every run, between two reports of USR_handler() in a thread the sender that the second names sent again |
| SignalHandlers.RunAccounted | Pintos/Added_Signals/signal.c:146-272 | every run keeps the accounts of deaths, sends, deliveries and reports |
| SignalReportExample.ReportCanOverstate | Pintos/Added_Signals/signal.c:135-139 | a run in which the report says one of two children is alive when none is, as do the counters afterwards |
| SignalIdle.IdleWakesWhen | Pintos/Added_Signals/signal.c:203-212 | a delivery puts idle on the ready list exactly if it is blocked and an admitted SIG_UBLOCK for it is pending |
| SignalIdle.IdleReadyAfter | Pintos/Added_Signals/thread.c:250-443 | after any event idle is on the ready list exactly if it was and does not run now, or the event switches, a SIG_UBLOCK reaches a blocked idle, and another thread gets to run |
| SignalIdle.OtherRunsWhen | Pintos/Added_Signals/thread.c:640-704 | whether idle or another thread is left running can be told before the chain: another one exactly if somebody ahead of idle in line is not doomed |
| SignalIdle.IdleOffExactlyWhen | Pintos/Added_Signals/thread.c:507-515 | over a run idle stays off the ready list exactly if no event wakes it in this sense |
| SignalIdle.IdleStaysOff | Pintos/Added_Signals/thread.c:507-515 | from the start idle never appears in the ready list as long as nobody sends it a SIG_UBLOCK |
| SignalIdle.IdleCanBeOnReadyList | Pintos/Added_Signals/thread.c:507-515 | a run after which idle is on the ready list |
| SignalIgnored.UblockGoneWhen | Pintos/Added_Signals/signal.c:206-211 | a switch delivers a pending SIG_UBLOCK exactly if its receiver neither masks nor ignores it |
| SignalIgnored.IgnoredUblockStays | Pintos/Added_Signals/signal.c:206-211 | a run in which an ignored SIG_UBLOCK is still pending after a switch |
| SignalCalls.KillSends | Pintos/Added_Signals/signal.c:50-116 | kill() of SIG_UBLOCK or SIG_USR to a live thread, or SIG_KILL to a live child, makes that signal pending with the caller as sender and changes no other; any other call changes nothing |
| SignalCalls.NewGoesLast | Pintos/Added_Signals/signal.c:104-110 | a signal that is not pending goes to the end of the list |
| SignalCalls.OldKeepsPlace | Pintos/Added_Signals/signal.c:94-102 | one that is keeps its place |
| SignalCalls.ProcMaskSets | Pintos/Added_Signals/signal.c:302-317 | SIG_BLOCK adds the set to the mask, SIG_UNBLOCK takes it away, SIG_SETMASK replaces it, anything else changes nothing |
| SignalCalls.SignalSets | Pintos/Added_Signals/signal.c:38-48 | SIG_DFL makes exactly this signal accepted, SIG_IGN exactly not, anything else changes nothing |
| SignalCalls.LifetimeSets | Pintos/Added_Signals/signal.c:319-322 | setlifetime() sets the limit and nothing else |
| SignalCalls.BlockHoldsBack | Pintos/Added_Signals/signal.c:302-317 | after SIG_BLOCK whatever of the set is pending for the caller is held back |
| SignalCalls.UnblockDelivers | Pintos/Added_Signals/signal.c:302-317 | after SIG_UNBLOCK the caller, once it has left the processor, does not come back with such a signal pending |
| SignalCalls.YieldDelivers | Pintos/Added_Signals/signal.c:222-234 | with nobody else ready, the next yield delivers an unmasked signal at once |
| SignalCalls.DispositionDecides | Pintos/Added_Signals/signal.c:245-261 | a handler runs for a received signal exactly if it is not ignored |
| SignalCalls.CreateMakes | Pintos/Added_Signals/thread.c:183-242 | the new thread in all its fields, its start the clock of now, last in both lists; the creator's child is one more |
| SignalCalls.UnblockWakes | Pintos/Added_Signals/thread.c:268-280 | an unblocked thread is ready at the back of the list, and nothing else changes |
| SignalCalls.YieldGoesBehind | Pintos/Added_Signals/thread.c:429-443 | a yield puts the thread, ready, at the back of the list; the front runs on a new slice and then receives its signals |
| SignalCalls.BlockSleeps | Pintos/Added_Signals/thread.c:250-258 | a block leaves the thread blocked and in no list; the front runs, or idle |
| SignalCalls.ExitLeaves | Pintos/Added_Signals/thread.c:317-425 | an exit leaves the thread dying, its live children without parent, its live parent with a SIG_CHLD |
| SignalCalls.TickPasses | Pintos/Added_Signals/thread.c:138-158 | before the fourth tick a timer interrupt only lets time pass |
| SignalCalls.FourthTickSwitches | Pintos/Added_Signals/thread.c:138-158 | at the fourth the running thread goes behind the ready list, idle nowhere |
| SignalCalls.NewSlice | Pintos/Added_Signals/thread.c:649-650 | whatever brings a thread to the processor, its slice is new |
| SignalCalls.SettingsAfter | Pintos/Added_Signals/thread.c:138-242 | start times never change, limits, masks and dispositions only by their owner's calls, and the clock counts the ticks |
| SignalCalls.LifetimeIsTicksSinceCreation | Pintos/Added_Signals/thread.c:672-678 | a thread has outlived its limit exactly if it has one and more ticks have passed since its creation |
| SignalCalls.DiesOfAge | Pintos/Added_Signals/thread.c:672-680 | without a SIG_KILL a dispatched thread dies exactly if it has outlived its limit and neither masks nor ignores SIG_CPU |
| SignalCalls.NewRunnerHasNothingDue | Pintos/Added_Signals/thread.c:640-704 | whatever event puts a new thread on the processor, nothing is due for it |
| SignalKernel.Thread.constructor | Pintos/Added_Signals/thread.c:229-234 | a new thread is blocked, ignores and masks nothing, has no lifetime limit and no children |
| SignalKernel.Kernel.constructor | Pintos/Added_Signals/thread.c:101-134 | start-up leaves main running and idle blocked, nobody's child |
| SignalKernel.Kernel.SendSignal | Pintos/Added_Signals/signal.c:90-110 | the loop over the list renames the sender of an entry with the same receiver and signal, or appends one |
| SignalKernel.Kernel.GetThread | Pintos/Added_Signals/thread.c:707-721 | finds exactly the live tids |
| SignalKernel.Kernel.Kill | Pintos/Added_Signals/signal.c:50-116 | code 0 exactly for SIG_UBLOCK and SIG_USR to live threads and SIG_KILL to the caller's live children, and then that signal is pending with the caller as sender; otherwise -1 and no effect |
| SignalKernel.Kernel.BereaveAll | Pintos/Added_Signals/thread.c:332-418 | the loop of thread_exit() over all_list: every child orphaned, the parent told |
| SignalKernel.Kernel.Terminate | Pintos/Added_Signals/thread.c:330-422 | thread_exit() up to schedule(): orphaning, SIG_CHLD to a live parent, off all_list, dying |
| SignalKernel.Kernel.ThreadUnblock | Pintos/Added_Signals/thread.c:268-280 | the blocked thread is ready at the back of the ready list |
| SignalKernel.Kernel.DeliverAt | Pintos/Added_Signals/signal.c:199-234 | one turn of the delivery loop does what the signal, mask, ignore set and status demand |
| SignalKernel.Kernel.DeliverAll | Pintos/Added_Signals/signal.c:194-236 | the loop that removes from the list it walks is the filter; sigd and sender are what the running thread lets in |
| SignalKernel.Kernel.SelectCalls | Pintos/Added_Signals/signal.c:238-252 | SIG_CPU joins sigd if the lifetime is over and it is not masked; calls is sigd without the ignored signals |
| SignalKernel.Kernel.ChildHandler | Pintos/Added_Signals/signal.c:135-139 | dchild counts one more and the report follows |
| SignalKernel.Kernel.HandleSignals | Pintos/Added_Signals/signal.c:146-272 | delivery, handlers and everything that follows a death |
| SignalKernel.Kernel.ThreadExit | Pintos/Added_Signals/thread.c:317-425 | the running thread dies and the chain of dispatches follows; terminates by the length of all_list |
| SignalKernel.Kernel.NextThreadToRun | Pintos/Added_Signals/thread.c:614-621 | the front of the ready list leaves it, or idle |
| SignalKernel.Kernel.ThreadScheduleTail | Pintos/Added_Signals/thread.c:639-681 | a new slice, the lifetime check, and delivery |
| SignalKernel.Kernel.Schedule | Pintos/Added_Signals/thread.c:690-704 | the next thread runs, and the chain its signals start is run to its end |
| SignalKernel.Kernel.ThreadBlock | Pintos/Added_Signals/thread.c:250-258 | the running thread blocks and others follow |
| SignalKernel.Kernel.ThreadYield | Pintos/Added_Signals/thread.c:429-443 | the running thread joins the ready list, idle does not, and others follow |
| SignalKernel.Kernel.TimerInterrupt | Pintos/Added_Signals/thread.c:138-158 | the clock and the slice count one tick; at four the thread yields |
| SignalKernel.Kernel.ThreadCreate | Pintos/Added_Signals/thread.c:183-242 | a fresh tid, the creator as parent and its child counted, in all_list and the ready list |
| SignalKernel.Kernel.Signal | Pintos/Added_Signals/signal.c:38-48 | SIG_DFL adds exactly this signal to those accepted, SIG_IGN takes it away, anything else is an error without effect |
| SignalKernel.Kernel.SigProcMask | Pintos/Added_Signals/signal.c:302-317 | the mask becomes the union with the set, the difference, or the set, by mode, and stays for any other; the old mask is stored first, also when both arguments are one variable |
| SignalKernel.MaskRestored | Pintos/Added_Signals/signal.c:302-317 | setting the old mask again undoes any change of the mask |
| SignalKernel.Kernel.SaveAndRestore | Pintos/Added_Signals/signal.c:302-317 | saving the mask with any change and setting the saved one restores it bit for bit |
| SignalKernel.SigEmptySet | Pintos/Added_Signals/signal.c:276-280 | the caller's set is empty |
| SignalKernel.SigFillSet | Pintos/Added_Signals/signal.c:281-286 | the caller's set holds all eight bits |
| SignalKernel.SigAddSet | Pintos/Added_Signals/signal.c:287-292 | inserts a signal from 0 to 4, otherwise -1 and no effect |
| SignalKernel.SigDelSet | Pintos/Added_Signals/signal.c:293-298 | removes a signal from 0 to 4, otherwise -1 and no effect |
| TicketInvariant.StepAInv | Multithread_server_client/A.c:85-92 | every action of A keeps slots, ring, mutexes, count and bookings consistent |
| TicketInvariant.StepBInv | Multithread_server_client/B.c:196-227 | every action of B does |
| TicketInvariant.StepWInv | Multithread_server_client/B.c:87-120 | every action of a worker does |
| TicketInvariant.StepInv | Multithread_server_client/B.c:87-227 | every action of every process, and a spurious wake-up, does |
| TicketInvariant.RunInv | Multithread_server_client/B.c:87-227 | the invariant holds in every state of every run |
| TicketInvariant.InitInv | Multithread_server_client/B.c:175-191 | it holds at the start |
| TicketResults.RingConserves | Multithread_server_client/A.c:85-92 | everything produced is handed to workers or in the ring, in order; B holds the first of the ring |
| TicketResults.NothingOverwritten | Multithread_server_client/A.c:85-92 | the semaphores and the items in hand make ten; A's write leaves every value not yet handed over in place |
| TicketResults.EndToEndFifo | Multithread_server_client/B.c:215-224 | in every run the values handed to workers are a prefix of those produced |
| TicketResults.StaysThrottled | Multithread_server_client/B.c:199-209 | while more than five are in progress, a throttled B admits nobody, whatever happens |
| TicketResults.Hysteresis | Multithread_server_client/B.c:199-211 | once B finds ten in progress, it admits no other before there have been five or fewer |
| TicketResults.GateCounts | Multithread_server_client/B.c:113-119 | in every run global_count is the admissions less the workers that have counted down, from 0 to 10 |
| TicketResults.NoLostWakeup | Multithread_server_client/B.c:113-119 | while B sleeps, more than five workers have yet to count down, or one that has is about to wake it |
| TicketResults.NoDeadlock | Multithread_server_client/B.c:196-227 | in every reachable state some process can act without a spurious wake-up; only if all is served must it be A beginning an item |
| TicketResults.QuietMeansServed | Multithread_server_client/B.c:193-231 | when only a new item could happen, every item is handed over and every worker is finished |
| TicketResults.RankFalls | Multithread_server_client/B.c:87-227 | every action but A's P(PS) and a spurious wake-up lowers the work left |
| TicketResults.WorkIsBounded | Multithread_server_client/B.c:87-227 | a run of k actions has k at most the work there was, plus 24 for each item begun and 3 for each spurious wake-up |
| TicketResults.BookingsLinearizable | Multithread_server_client/B.c:95-108 | in every run ticket is the outcome of the bookings one after the other in lock order, none twice, from 0 to 100 |
| TicketResults.DoneExactly | Multithread_server_client/B.c:95-108 | exactly the workers past their booking are among the bookings |
| TicketResults.AllBookedOnce | Multithread_server_client/B.c:95-108 | when all is served every request has been booked, once |
| TicketSales.OnlyBookingsSell | Multithread_server_client/B.c:95-108 | a booking of x takes x if that many are left, up to a hundred left again, and nothing otherwise; no other action changes the tickets |
| TicketSales.GateOpensAtFive | Multithread_server_client/B.c:113-119 | B waits from ten on and goes on at five, woken by the worker that counts down to five or less and by nobody else but a spurious wake-up |
| TicketSales.WhoCanAct | Multithread_server_client/B.c:87-227 | each process can act except where its program waits |
| TicketSales.LeftIsUngranted | Multithread_server_client/B.c:95-108 | if nobody gives tickets back, a hundred less those granted are left, each request being granted if it asks for no more than is left at its turn |
| TicketSales.EnoughForAll | Multithread_server_client/B.c:95-108 | requests for at most a hundred together are all granted |
| TicketSales.SoldOverRun | Multithread_server_client/B.c:95-108 | both over every run from the start |
| TicketSales.AllSold | Multithread_server_client/B.c:95-108 | when all is served and at most a hundred tickets were asked for, exactly those are gone |
| TicketGate.GateClosesAtTen | Multithread_server_client/B.c:200-211 | at its test B is held up exactly if ten are in progress, and there are never more |
| TicketGate.TenHoldUpTheNext | Multithread_server_client/B.c:200-205 | a run from the start in which ten in progress hold up the next request |
| TicketProgram.Server.constructor | Multithread_server_client/B.c:175-190 | ten free slots, nothing produced, a hundred tickets |
| TicketProgram.Server.ProducerAction | Multithread_server_client/A.c:85-92 | the next action of A's loop, on the shared array: the invariant is kept and what is not handed over stays in its place |
| TicketProgram.Server.ConsumerAction | Multithread_server_client/B.c:196-227 | the next action of B's loop: the invariant is kept, global_count stays from 0 to 10, no ticket is sold, and a new worker gets the oldest request not handed over |
| TicketProgram.Server.WorkerAction | Multithread_server_client/B.c:87-120 | the next action of book_ticket() in one worker: a booking sells what it asks for if that is left, at most to a hundred left, any other action sells nothing; the invariant is kept |
| PipeCopy.StepConserves | Copy_using _pipes/fcopy.c:36-88 | target, child's buffer, pipe 1, parent's buffer and unread rest make up the source file after every call |
| PipeCopy.StepStopAndWait | Copy_using _pipes/fcopy.c:36-88 | one chunk of at most 100 bytes is under way at a time, in one place, and its token comes back once |
| PipeCopy.NeverBroken | Copy_using _pipes/fcopy.c:72-73 | the parent's write finds the pipe empty and the child alive; the child's token finds the parent waiting for it |
| PipeCopy.NeverStuck | Copy_using _pipes/fcopy.c:40-83 | until both have exited some process can go on |
| PipeCopy.ReadsAnyAmount | Copy_using _pipes/fcopy.c:67-67 | the parent's read() can return any amount up to 100 bytes of what is left, and nothing only at the end |
| PipeCopy.TakesTurns | Copy_using _pipes/fcopy.c:40-83 | the two processes are never both able to go on |
| PipeCopy.FinalIsCopy | Copy_using _pipes/fcopy.c:36-88 | when both have exited the target equals the source |
| PipeCopy.RunKeeps | Copy_using _pipes/fcopy.c:36-88 | every run keeps all bytes in order and is no longer than the work there was |
| PipeCopy.CopiesEverything | Copy_using _pipes/fcopy.c:36-88 | every run of every copy ends after at most 6n + 2 calls, and where nobody can go on the target equals the source |
| PipeCopyShort.ChildExitsWhen | Copy_using _pipes/fcopy.c:40-53 | the child exits exactly if it finds the pipe empty and the parent gone; after a token it reads again |
| PipeCopyShort.GoesOnAfterShortChunk | Copy_using _pipes/fcopy.c:40-53 | a run in which the child copies one byte and then another |
| PipeCopyProgram.Copy.ParentCall | Copy_using _pipes/fcopy.c:67-83 | the next call of the parent's loop, on its buffer |
| PipeCopyProgram.Copy.ChildCall | Copy_using _pipes/fcopy.c:40-53 | the next call of the child's loop, on its buffer |
| PipeCopyProgram.Copy.CopyFile | Copy_using _pipes/fcopy.c:36-88 | both processes from fork() to the end copy the file |

## Left out

- Pintos lists: `list.c` is not part of this model; a list is a sequence, and removing an element while walking goes on at the element behind it.
- Semaphores and locks of Pintos: `synch.c` is not part of this model, nor are its wait lists, which share `elem`; blocking is `thread_block()`, and any blocked thread but idle may be unblocked.
- Reuse of thread pages: structures of exited threads stay, dying, and tids are never reused, whereas the kernel frees the page while pending entries may still point to it.
- Interrupt levels: kernel operations are atomic; that the error returns of `kill()` leave interrupts disabled is not captured.
- Failures of `malloc()` and `palloc_get_page()`, overflow of tids and of the clock, `TID_ERROR`.
- Signal numbers and tids beyond their C types: `Signal()` passes its enum to an `int8_t` parameter, which would truncate numbers over 127; here they change nothing.
- Register-level switching, stack frames, `magic`, `USERPROG`, statistics, printing, priorities and the unimplemented nice and load functions.
- Start-up before idle has blocked for the first time: runs begin after `thread_start()`.
- The loop of `handleSignals()` after the death of the thread it works for: the dead thread's stack is never resumed, so nothing after `thread_exit()` is modelled.
- SignalKernel.Kernel.Kill: the caller is any thread but idle, which never calls it.
- Concurrency of the ticket server and the copy: processes are program counters whose actions interleave; the classes take one action per call.
- TicketServer: creation and removal of shared memory and semaphores, `my_handler()`, A's poll for the server's death, sleeps, the freeing of thread handles, failure of `pthread_create()`, more than one producer. Requests are any numbers from -5 to 5.
- PipeCopy: the error branches (the acknowledgement tests compare pointers, so an acknowledgement is a token), the NUL stored behind the chunk, which falls outside the buffer when the chunk is full, partial and failing writes, `open()` errors.
- `Command_interrupter/shell.c` and `run.c`: plumbing of system calls; the pipeline loop never runs its body.
- `Querying and updation/X.c`, `Y.c` and `clean.c`: an update moves the end marker to a value at which no scan stops, so search and update have no contract worth proving.
