# A verified model of the RODOS kernel's core

RODOS is a small real-time kernel for spacecraft. This project models its most intricate parts in
Dafny and proves what they promise, or exactly when they keep the promise. Statements are for every
input, every interleaving and every run; nothing here is executed.

`dafny verify dfyconfig.toml` checks everything.

## How the parts are modelled

| file | part of the kernel | form |
|---|---|---|
| `CommBuffer.dfy`, `CommBufferCalls.dfy` | lock-free triple buffer | one step per statement, one step per copied word; plus the object as a class |
| `Semaphore.dfy`, `SemaphoreInvariant.dfy`, `SemaphoreCalls.dfy`, `SemaphoreTheorems.dfy`, `SemaphoreTrio.dfy` | re-entrant semaphore with hand-off | one step per statement, any number of threads |
| `SemaphoreOrder.dfy`, `SemaphoreInheritance.dfy`, `SemaphoreRuns.dfy`, `SemaphoreFailures.dfy`, `SemaphoreInheriting.dfy`, `SemaphoreRestoring.dfy` | who gets the semaphore next, and priorities | the same machine, with the scheduler's activation stamps |
| `Selection.dfy`, `BoundedWaiting.dfy`, `YieldProtocol.dfy`, `YieldTheorems.dfy`, `YieldLimits.dfy`, `YieldOvertaken.dfy`, `YieldWaiting.dfy` | choosing the next thread; `yield` against timer ticks; bounded waiting | loops as methods; one step per statement and per list element |
| `TimeModel.dfy`, `TimeEvents.dfy`, `Arming.dfy` | periodic beats, time events, arming the timer | classes and loops |
| `YieldSleepers.dfy`, `KernelRuns.dfy` | arming the timer in every run of yields and ticks | the yield machine and the kernel object put together |
| `RecordQueue.dfy`, `ByteStreamRing.dfy` | ring of variable-length records | class over a word array |
| `Fifo.dfy`, `FifoCalls.dfy`, `FifoObjects.dfy` | Fifo, BlockFifo, MultipleReaderFifo | one step per statement; plus the objects as classes over arrays |
| `S3PCode.dfy`, `S3PSenders.dfy`, `S3PReceivers.dfy`, `S3PPull.dfy`, `S3PPush.dfy`, `S3POffers.dfy` | S3P framing: two senders, two receivers | classes |
| `Folds.dfy`, `Checksums.dfy`, `CrcDivision.dfy`, `CrcDetection.dfy` | bitwise and table CRC-16 | loops over bit-vectors; polynomials as strings of bits |
| `BitField.dfy` | CCSDS bit fields | in place on an array of bytes |
| `SortedList.dfy` | circular lists with a sentinel that share entries | heap objects with `next` and `prev` |

### Where the code does not keep its own promise

In each case the model does what the code does; the members named give a failing case and the exact
condition.

- **Semaphore, mutual exclusion.** Waiters sleep inside the ceiling scope, so several threads can be
  ready at the ceiling. Mutual exclusion, the nesting count and the hand-off hold in every run if and
  only if not both hold: the timer tick may switch between threads of equal priority at the ceiling,
  and somebody else may resume a thread that waits for the semaphore (`SafeExactlyWhenGood`,
  `TwoInside`).
- **Semaphore, nobody left asleep on a free semaphore.** This also fails when an interrupt resumes a
  waiter between the two stores at `thread_on_hw.cpp:190-191` (`NeverStrandsExactlyWhen`,
  `StrandedByLateResume`, `StrandedByPreemption`).
- **Semaphore, "selected according to priorities"** (`api/rodos-semaphore.h:26-28`). All waiters have
  the ceiling priority, so `leave` takes the one that went longest without activation, and that is the
  one that fell asleep first: first come, first served, in every run (`HandsOverToLongestWaiting`). So
  it follows priorities exactly when no other waiter entered with a higher one than the first to fall
  asleep. In a reachable state it takes a waiter that entered with priority 2 over one with 3
  (`LessImportantIsServed`).
- **Semaphore, "avoid priority inversion"** (`rodos-semaphore.cpp:53-56`). Contenders raise the owner
  once; nobody raises the thread that `leave` hands over to. A hand-over keeps the owner at or above
  every waiter's priority exactly when it goes to a foremost waiter (`HandOverInheritsExactlyWhen`,
  `OwnerDoesNotInherit`). All runs with only such hand-overs keep it if and only if, in addition, ticks
  do not switch between equal threads at the ceiling and only `leave` resumes waiters
  (`InheritsExactlyWhenStrict`, `OwnerInherits`): otherwise a waiter resumed in vain does not raise the
  owner again (`SpuriousResumeLosesBoost`), and a contender that finds the owner still at the ceiling
  does not raise it at all (`TickLosesBoost`).
- **Semaphore, priority after the last `leave`.** Re-entry while boosted overwrites the remembered
  priority (`ReentrySpoilsPriority`); without that it is restored in every run (`PriorityRestored`),
  exactly in the surroundings that keep mutual exclusion (`RestoresExactlyWhenGood`, `NeverRestored`).
- **yield.** The scheduler call at its end schedules exactly when the next scheduling time is not
  ahead, and a preselection outlives its yield only if a schedule() fell after the yield's first
  statement (`PreselectionSurvivesOnlyWhen`, `RestSchedulesExactlyWhen`); without any schedule()
  during the yield it always schedules (`UndisturbedYieldSchedules`). One tick between its first two
  statements leaves the preselection behind (`EarlyReturnHappens`,
  `EarlyReturnLeavesPreselection`); two ticks before it takes the lock also make it return without
  scheduling (`LateTicksSkipSchedule`).
- **yield, best thread.** The preselected thread is the best one at the scheduler call exactly when it
  is preferred to every thread that woke since the walk read it (`YieldsChoiceIsBestExactlyWhen`). A
  more important thread resumed after the walk is overlooked, and the "at once" that `resume` stored
  is overwritten (`ResumeDuringYieldIsLost`, `ResumeIsLostHappens`). A tick that uses a left-behind
  preselection also ignores priorities changed since (`ChoiceIsBestDespiteChangesExactlyWhen`), and can
  take the processor from the best thread (`LeftBehindPreselectionIsWorse`).
- **schedule, timer in time for sleeping threads.** A preselection that an early return left behind
  comes with a wake-up bound that cannot know a sleep or a change of priority since its walk. All
  sleeping threads of at least the selected priority are served in time exactly when none of those that
  it cannot know wakes before the armed time (`AllRivalsInTimeExactlyWhen`); without a preselection, and
  at the scheduler call of a yield, it knows all of them (`EveryScheduleArmsInTime`). In a reachable
  state a thread of the selected priority is served 98 ms late (`LeftBehindPreselectionIsLate`).
- **CommBuffer, "always consistent".** A `get` is torn only if a further `put` writes after two others
  have published during its copy; the bound is exact (`NeverTorn`, `BoundIsExact`,
  `TornBeyondTheBound`).
- **ByteStreamRingBuffer, size.** A record of WORDS-1 payload words is accepted with `true` and leaves
  the buffer empty (`Write`); exactly the records that fit with their header are kept
  (`NewestKeptExactlyWhen`).
- **ByteStreamRingBuffer, "never longer than the MaxLen"** (`bytestreamringbuffer.h:20`). `read` moves
  whole words, so it passes maxLen exactly when maxLen lies between the record's bytes and its words
  (`Read`); no record can do so exactly when maxLen is a multiple of 4 (`NeverOverrunsExactlyWhen`); 5
  bytes read into 5 move 8 (`FiveBytesMoveEight`).
- **ByteStreamRingBuffer, negative lengths.** They are stored as records without payload. Dropping
  or skipping such a record moves the read index over exactly that record if and only if its length is
  above -7 (`SkipIsLengthExactlyWhen`); a write keeps the longest suffix that fits if every record it
  drops is of that kind (`Write`). A write that drops one of -10 to -7 loses all records and its own
  words up to the drop (`LowLengthLosesQueue`); dropping one below -10 moves the read index back,
  possibly below zero (`MeetsLow`). By calls: 4 bytes written behind a length of -7 into a ring of three
  words are accepted, and the ring is empty (`LowLengthLosesAll`).
- **S3P receivers.** They agree if and only if the stream has no two adjacent MARK bytes
  (`ReceiversAgreeExactlyWhen`); no sender produces such a pair (`SentIsClosed`).
- **SortedList.** A negative key is stored as 0, the key of the sentinel, exactly when it is inserted
  into a list without other entries (`Insert`), and refused by `append` on an empty list (`Append`).
  `appendForce` raises a key to the last key, not to one more as its comment says (`AppendForce`).
- **Time events.** A due periodic event repeats exactly when its start is not before time zero
  (`RepeatsExactlyWhen`).

### Assumptions

- Clock readings are positive and do not decrease. Schedule and error counters are unbounded. The
  clock, the answers of application callbacks and the choices of the scheduler are parameters.
- Interrupt-level code (`schedulerWrapper` with `schedule` and `activate`, a `resume`) is one step;
  handlers of time events appear in the yield and semaphore models as resumes.
- Semaphore: ordinary priorities lie below the ceiling, threads do not change priorities by other
  means, and the scheduler runs a ready thread of the highest priority (a stale preselection, which
  the yield model covers, is not combined with it).
- Reading a pointer or an index is atomic; copying a value is not.

## Model

| member | source | states |
|---|---|---|
| `CommBuffer.NeverTorn` | api/commbuffer.h:84-122 | in every interleaving each delivery is exactly the value one put published (or the initial one), not older than the call nor than an earlier delivery, unless a put wrote after two others had published during the copy |
| `CommBuffer.PointersPermute` | api/commbuffer.h:84-100 | outside the swap of a put the three pointers name the three buffers once each, in every reachable state |
| `CommBuffer.BoundIsExact` | api/commbuffer.h:84-122 | after two publications during a copy the next put's first word lands in the buffer being read |
| `CommBuffer.TwoPutsAreHarmless` | api/commbuffer.h:84-122 | before that no step of anybody changes the buffer being copied |
| `CommBuffer.RefusalMissesNothing` | api/commbuffer.h:130-136 | a lowered flag never hides a publication the reader has not looked at |
| `CommBuffer.UninterruptedPut` | api/commbuffer.h:84-100 | the micro-steps of an undisturbed put compose to the object-level update |
| `CommBufferCalls.UninterruptedGet` | api/commbuffer.h:115-136 | the reader's steps of an undisturbed get, or of a getOnlyIfNewData with the flag up, compose to one delivery of the published buffer, both flags down, one more get counted, all else untouched |
| `CommBufferCalls.OnlyIfNewData` | api/commbuffer.h:130-136 | in every run an undisturbed getOnlyIfNewData delivers the newest published value if and only if the flag is up, and otherwise does nothing |
| `CommBufferCalls.NothingIsNewTwice` | api/commbuffer.h:115-136 | in every run, once a get has begun and while no put raises the flag, every getOnlyIfNewData after its end is refused |
| `CommBuffer.TornBeyondTheBound` | api/commbuffer.h:84-122 | a schedule that delivers half of one value and half of another |
| `CommBuffer.EveryRunKeepsInv` | api/commbuffer.h:84-122 | the protocol invariant holds in every run |
| `CommBuffer.Buffer.Put` | api/commbuffer.h:84-100 | the object after a put, with the pointers still a permutation |
| `CommBuffer.Buffer.Get` | api/commbuffer.h:115-122 | returns the published buffer, lowers the flags, changes nothing else |
| `CommBuffer.Buffer.GetOnlyIfNewData` | api/commbuffer.h:130-136 | like get if there is new data, otherwise nothing changes |
| `SemaphoreTheorems.SafeExactlyWhenGood` | src/bare-metal-generic/rodos-semaphore.cpp:44-117 | at most one thread inside, ownerEnterCnt is its nesting depth, a resumed waiter owns already: in every run, if and only if equal-priority preemption at the ceiling and spurious resumes do not both occur |
| `SemaphoreCalls.UninterruptedEnter` | src/bare-metal-generic/rodos-semaphore.cpp:44-66 | an undisturbed enter of a free or own semaphore: the caller owns it, one more entry, its priority remembered and restored, about to yield; nobody else is touched |
| `SemaphoreCalls.UninterruptedContention` | src/bare-metal-generic/rodos-semaphore.cpp:44-60 | an undisturbed enter of another's semaphore: the owner raised to the caller's priority if lower, the caller asleep and waiting at the ceiling, the semaphore untouched |
| `SemaphoreCalls.UninterruptedWakeUp` | src/bare-metal-generic/rodos-semaphore.cpp:57-64 | a waiter that wakes and finds the semaphore its own or free enters it, counted once, at its remembered priority |
| `SemaphoreCalls.UninterruptedSleepAgain` | src/bare-metal-generic/rodos-semaphore.cpp:57-58 | one that finds another owner goes back to sleep, waiting, and raises nobody |
| `SemaphoreCalls.UninterruptedForeignLeave` | src/bare-metal-generic/rodos-semaphore.cpp:76-78 | a leave by anybody but the owner changes nothing |
| `SemaphoreCalls.UninterruptedNestedLeave` | src/bare-metal-generic/rodos-semaphore.cpp:80-83 | a nested leave only counts down |
| `SemaphoreCalls.UninterruptedLeave` | src/bare-metal-generic/rodos-semaphore.cpp:71-117 | the outermost leave that finds nobody frees the semaphore and restores the remembered priority |
| `SemaphoreCalls.UninterruptedHandOver` | src/bare-metal-generic/rodos-semaphore.cpp:71-117 | the outermost leave that finds a waiter makes it the owner and wakes it, restores the priority and is about to yield |
| `SemaphoreCalls.Returns` | src/bare-metal-generic/rodos-semaphore.cpp:97-116 | the undisturbed end of leave gives the caller the remembered priority and yields if and only if a waiter was found and no owner has stored a priority since |
| `SemaphoreTheorems.NeverStrandsExactlyWhen` | src/bare-metal-generic/rodos-semaphore.cpp:44-117 | no thread is ever asleep on a free semaphore, if and only if the surroundings are as stated |
| `SemaphoreTheorems.PriorityRestored` | src/bare-metal-generic/rodos-semaphore.cpp:44-117 | after its final leave a thread has the priority it entered with, exactly when it did not re-enter at another priority |
| `SemaphoreTheorems.WaitersTie` | src/bare-metal-generic/thread_on_hw.cpp:394-414 | all waiters that leave can find are at the ceiling, so their priorities cannot decide |
| `SemaphoreOrder.HandsOverToLongestWaiting` | src/bare-metal-generic/rodos-semaphore.cpp:86-97 | in every run leave hands over to the one waiter least by last activation and position, which is the one waiter that fell asleep before all others |
| `SemaphoreOrder.SchedulerPicks` | src/bare-metal-generic/thread_on_hw.cpp:318-353 | what findNextToRun selects is among the choices that the semaphore model allows the scheduler |
| `SemaphoreOrder.SearchFinds` | src/bare-metal-generic/thread_on_hw.cpp:394-414 | what findNextWaitingFor answers is among the answers that the semaphore model allows |
| `SemaphoreFailures.LessImportantIsServed` | api/rodos-semaphore.h:26-28 | a reachable state in which a waiter of lower entering priority is chosen |
| `SemaphoreTrio.TwoInside` | src/bare-metal-generic/rodos-semaphore.cpp:58-63 | a run that breaks mutual exclusion when both disturbances occur |
| `SemaphoreTrio.StrandedByLateResume` | src/bare-metal-generic/thread_on_hw.cpp:185-199 | a run that strands a waiter resumed between the two stores |
| `SemaphoreTrio.StrandedByPreemption` | src/bare-metal-generic/rodos-semaphore.cpp:58-95 | a run that strands a waiter preempted at the ceiling |
| `SemaphoreInheritance.OwnerInherits` | src/bare-metal-generic/rodos-semaphore.cpp:44-117 | without ticks that switch at the ceiling and without spurious resumes: as long as each hand-over goes to a foremost waiter, the owner runs at no less than what any waiter entered with, in every run |
| `SemaphoreInheritance.HandOverInheritsExactlyWhen` | src/bare-metal-generic/rodos-semaphore.cpp:93-96 | a hand-over keeps that if and only if it goes to a foremost waiter |
| `SemaphoreInheriting.InheritsExactlyWhenStrict` | src/bare-metal-generic/rodos-semaphore.cpp:44-117 | all runs with only such hand-overs keep that if and only if those surroundings hold (for a ceiling above 3, so that there are priorities to differ) |
| `SemaphoreInheriting.SpuriousResumeLosesBoost` | src/bare-metal-generic/rodos-semaphore.cpp:53-60 | a run with only such hand-overs and one spurious resume, in which the owner runs below a waiter |
| `SemaphoreInheriting.TickLosesBoost` | src/bare-metal-generic/rodos-semaphore.cpp:53-63 | the same with ticks between threads at the ceiling |
| `SemaphoreFailures.OwnerDoesNotInherit` | src/bare-metal-generic/rodos-semaphore.cpp:53-56 | a reachable state in which the owner runs below a waiter |
| `SemaphoreFailures.ReentrySpoilsPriority` | src/bare-metal-generic/rodos-semaphore.cpp:61-63 | a reachable state in which a thread is out of the semaphore at a priority it did not enter with |
| `SemaphoreRestoring.RestoresExactlyWhenGood` | src/bare-metal-generic/rodos-semaphore.cpp:71-117 | restoration, up to re-entry, holds in every run if and only if the surroundings keep mutual exclusion |
| `SemaphoreRestoring.NeverRestored` | src/bare-metal-generic/rodos-semaphore.cpp:71-83 | a run, otherwise, in which a thread that did not re-enter keeps a raised priority |
| `SemaphoreInvariant.StepKeepsInv` | src/bare-metal-generic/rodos-semaphore.cpp:44-117 | every statement of every thread keeps the invariant |
| `SemaphoreInvariant.RunKeepsInv` | src/bare-metal-generic/rodos-semaphore.cpp:44-117 | so does every run |
| `Selection.FindNextToRun` | src/bare-metal-generic/thread_on_hw.cpp:318-353 | a maximum by priority, then least lastActivation, over the ready threads and idle; the wake-up bound is never later than any rival's wake-up, never before now, and not invented |
| `Selection.PickIsTheBest` | src/bare-metal-generic/thread_on_hw.cpp:318-353 | the selection is the one and only best thread |
| `Selection.EarliestIsWakeBound` | src/bare-metal-generic/thread_on_hw.cpp:341-349 | the bound, collected against a moving candidate, serves the final one |
| `Selection.EarliestExactly` | src/bare-metal-generic/thread_on_hw.cpp:341-349 | the bound is exactly the first wake-up among the sleeping threads that are not below idle nor a ready thread before them in the list |
| `Selection.FindNextWaitingFor` | src/bare-metal-generic/thread_on_hw.cpp:394-414 | the best waiter, or none when none is preferred to idle |
| `BoundedWaiting.PassedOverOnce` | src/bare-metal-generic/scheduler.cpp:95-137 | a call that selects another thread moves exactly that thread from ahead to behind |
| `BoundedWaiting.NotPassedOverForEver` | src/bare-metal-generic/scheduler.cpp:95-137 | a ready thread is passed over at most once by each peer ahead of it |
| `BoundedWaiting.SelectedInTime` | src/bare-metal-generic/scheduler.cpp:95-137 | it is selected within as many calls as it has peers |
| `YieldProtocol.StepKeepsInv` | src/bare-metal-generic/thread_on_hw.cpp:87-152 | every statement of yield, tick, resume and change of priority keeps the protocol invariant |
| `YieldOvertaken.CommittedPassedTest` | src/bare-metal-generic/thread_on_hw.cpp:98-102 | in every run, whoever is past the first test of yield or holds its lock has executed that test while no schedule() had fallen since it read the counter |
| `YieldOvertaken.OvertakenYieldGivesUp` | src/bare-metal-generic/thread_on_hw.cpp:91-102 | in every run, a yield touches nothing up to that test, which ends it, still without touching anything, if and only if a schedule() fell since it read the counter |
| `YieldOvertaken.LockedForAnother` | src/bare-metal-generic/thread_on_hw.cpp:116-125 | in every run, whoever is past the second test has chosen another thread |
| `YieldOvertaken.BestThreadGoesOn` | src/bare-metal-generic/thread_on_hw.cpp:91-118 | an undisturbed yield of the thread that is to run anyway returns and has touched nothing |
| `YieldTheorems.PreselectionIsFresh` | src/bare-metal-generic/thread_on_hw.cpp:87-142 | a preselection was computed since the most recent schedule(), from stamps that are still current |
| `YieldTheorems.PreselectionUsedOnce` | src/bare-metal-generic/scheduler.cpp:102-112 | no preselection is used twice |
| `YieldTheorems.LockBelongsToYield` | src/bare-metal-generic/thread_on_hw.cpp:125-149 | the lock is set exactly while the running thread is between taking it and its scheduler call |
| `YieldTheorems.SelectionIsSound` | src/bare-metal-generic/scheduler.cpp:102-137 | whatever schedule() selects is the best of one walk of this epoch, is ready now, and has a sound wake-up bound |
| `YieldTheorems.KernelBoundedWaiting` | src/bare-metal-generic/scheduler.cpp:95-137 | in every run of yields, ticks, resumes and priority changes: a thread that is ready, with nobody above it, in the walks behind as many calls of schedule() as it has peers is selected in one of them |
| `YieldWaiting.CompetingThreadIsSelected` | src/bare-metal-generic/scheduler.cpp:95-137 | the same for threads that are ready when schedule() is called: selected within as many calls as there are peers, and one more exactly if the first call uses a walk that read the thread asleep |
| `YieldWaiting.ExtraCallIsNeeded` | src/bare-metal-generic/thread_on_hw.cpp:174-182 | a reachable call of schedule() that passes over the only competing thread |
| `YieldTheorems.UndisturbedYieldSchedules` | src/bare-metal-generic/thread_on_hw.cpp:87-142 | a yield without any schedule() between its first statement and its scheduler call schedules |
| `YieldLimits.RestSchedulesExactlyWhen` | src/bare-metal-generic/thread_on_hw.cpp:91-142 | the undisturbed rest of a yield that should give way schedules if and only if the next scheduling time is not ahead, and otherwise leaves its preselection |
| `YieldLimits.PreselectionSurvivesOnlyWhen` | src/bare-metal-generic/scheduler.cpp:51-65 | in every run the scheduler call of a yield schedules if and only if that time is not ahead; a preselection outlives the yield only if a schedule() fell after its first statement |
| `YieldLimits.LateTicksSkipSchedule` | src/bare-metal-generic/thread_on_hw.cpp:116-141 | a run in which a yield ends without scheduling although none fell between its first two statements |
| `YieldLimits.ChoiceIsBestExactlyWhen` | src/bare-metal-generic/scheduler.cpp:102-112 | with unchanged priorities the preselected thread is the best one now if and only if it is preferred to every thread that woke since the walk |
| `YieldLimits.ChoiceIsBestDespiteChangesExactlyWhen` | src/bare-metal-generic/scheduler.cpp:102-112 | with priorities changed since the walk: if and only if preferred to every ready thread that woke or changed priority, or to every ready one if its own priority changed |
| `YieldLimits.YieldsChoiceIsBestExactlyWhen` | src/bare-metal-generic/thread_on_hw.cpp:137-141 | at the scheduler call of a yield, in every run, that is the exact condition |
| `YieldLimits.ResumeIsLostHappens` | src/bare-metal-generic/thread_on_hw.cpp:174-182 | a run into the situation of ResumeDuringYieldIsLost |
| `YieldTheorems.EarlyReturnLeavesPreselection` | src/bare-metal-generic/scheduler.cpp:51-65 | otherwise, while the next scheduling time lies ahead, it returns without scheduling and its preselection stays |
| `YieldTheorems.EarlyReturnHappens` | src/bare-metal-generic/thread_on_hw.cpp:89-91 | one tick between the two statements brings this about |
| `YieldTheorems.ResumeDuringYieldIsLost` | src/bare-metal-generic/thread_on_hw.cpp:174-182 | a sleeping thread of higher priority resumed after the walk is overlooked, and the scheduling time is overwritten |
| `TimeModel.NextBeatIsFirst` | src/independent/timemodel.cpp:222-234 | the result is the least whole multiple of the period from begin that lies after now, within one period of now |
| `TimeModel.EndOfTimeExactlyWhen` | src/independent/timemodel.cpp:222-234 | away from the end of time, it is the answer exactly for a negative argument or a period of 0 whose only beat is not after now |
| `TimeModel.EndWhenNoBeat` | src/independent/timemodel.cpp:230-231 | close to it, it is the answer when no beat after now lies before it |
| `TimeModel.BeatsNeverDrift` | src/independent/thread.cpp:21-36 | after any wakings the next beat is the first multiple, from the original start, after the latest waking; it never moves back |
| `TimeModel.Beat.SetPeriodicBeat` | src/independent/thread.cpp:21-25 | the beat starts here with this period |
| `TimeModel.Beat.SuspendUntilNextBeat` | src/independent/thread.cpp:27-36 | suspends until the beat and moves it to the first beat after the waking |
| `TimeEvents.EventList.ActivateAt` | src/independent/timeevent.cpp:37-40 | one event, once; no other event changes |
| `TimeEvents.EventList.ActivatePeriodic` | src/independent/timeevent.cpp:46-49 | one event, periodically; no other event changes |
| `TimeEvents.EventList.Propagate` | src/independent/timeevent.cpp:57-78 | every event that handlers leave alone is advanced once if and only if it is due; the result is the number of due events |
| `TimeEvents.UntouchedAdvances` | src/independent/timeevent.cpp:57-78 | whatever handlers do to other events, one they leave alone is advanced exactly once if due |
| `TimeEvents.CountsTheDue` | src/independent/timeevent.cpp:57-78 | the number of handler calls is the number of due events |
| `TimeEvents.HandlerActsOnAdvanced` | src/independent/timeevent.cpp:60-75 | an event due at its turn is advanced before its handler runs: what the handler makes of the list in which it is advanced is what is left of it, if later handlers leave it alone |
| `TimeEvents.RearmStands` | src/independent/timeevent.cpp:63-73 | so an event whose handler sets it anew ends as its handler set it, whatever happens to other events |
| `TimeEvents.OwnChangeStands` | src/independent/timeevent.cpp:60-75 | after its turn an event keeps its value, if later handlers leave it alone |
| `TimeEvents.OneShotFiresOnce` | src/independent/timeevent.cpp:63-64 | over any propagations a one-shot event left alone is handled by the first one after its time and by no other, and is then set to the end of time |
| `TimeEvents.GoesItsOwnWay` | src/independent/timeevent.cpp:57-78 | in a whole list, an event that handlers leave alone develops as it would by itself |
| `TimeEvents.CountsTurns` | src/independent/timeevent.cpp:57-78 | whatever handlers do, the result is the number of events that were due at their turn |
| `TimeEvents.NothingOverdue` | src/independent/timeevent.cpp:57-78 | afterwards none of them is overdue |
| `TimeEvents.EventsNeverDrift` | src/independent/timeevent.cpp:57-78 | over any propagations a periodic event stays a multiple of its period from its start, never moves back and is never left behind |
| `TimeEvents.EventList.GetNextTriggerTime` | src/independent/timeevent.cpp:80-89 | the least event time, or the end of time |
| `TimeEvents.RepeatsExactlyWhen` | src/independent/timeevent.cpp:46-78 | a due periodic event repeats if and only if its start is not before time zero |
| `Arming.ArmingBounds` | src/bare-metal-generic/hw_specific_generic.cpp:9-27 | at least the minimal spacing; expiry no later than max(event, now + 2 spacings), truncation to microseconds included |
| `Arming.ArmedForEventOrBeat` | src/bare-metal-generic/hw_specific_generic.cpp:9-27 | the timer is set for the event or, if later, the first multiple of the spacing more than one spacing away, exact up to the truncation |
| `Arming.Kernel.UpdateTrigger` | src/bare-metal-generic/hw_specific_generic.cpp:9-27 | the code meets these bounds |
| `Arming.Kernel.Schedule` | src/bare-metal-generic/scheduler.cpp:95-137 | end to end: the bound for every time event, for every thread of at least the selected priority that the walk behind the selection saw asleep, and for the time slice; the selection; one stamp |
| `KernelRuns.EveryScheduleArmsInTime` | src/bare-metal-generic/scheduler.cpp:95-137 | in every run of yields and ticks, every call of schedule() arms the timer in time for the next event, the slice and every thread asleep at the call with at least the selected priority, unless it uses a left-behind preselection and that thread or the selected one changed its sleep or priority since; never so without a preselection and at a yield's scheduler call |
| `KernelRuns.AllRivalsInTimeExactlyWhen` | src/bare-metal-generic/scheduler.cpp:102-134 | for all sleeping rivals if and only if none that a left-behind preselection cannot know wakes before the armed time, or that time is within two spacings; with unchanged priorities only the running thread is unknown |
| `KernelRuns.LeftBehindPreselectionIsLate` | src/bare-metal-generic/scheduler.cpp:102-134 | a reachable tick that arms the timer 98 ms too late for a thread that went to sleep after the walk |
| `KernelRuns.LeftBehindPreselectionIsWorse` | src/bare-metal-generic/scheduler.cpp:102-112 | a reachable tick that takes the processor from the best thread for one of lower priority |
| `YieldSleepers.BoundCovers` | src/bare-metal-generic/scheduler.cpp:102-112 | in every run the bound that comes with the selection is no later than the wake-up of any rival that the selection can know |
| `YieldSleepers.YieldKnowsAll` | src/bare-metal-generic/thread_on_hw.cpp:125-149 | at its scheduler call a yield's walk still tells every wake-up time, up to resumes, and every priority |
| `KernelRuns.PreselectionIsReliable` | src/bare-metal-generic/scheduler.cpp:102-112 | a preselection found in a run is the best of its walk with a sound wake-up bound, as schedule() relies on |
| `KernelRuns.ScheduleInRun` | src/bare-metal-generic/scheduler.cpp:95-137 | the kernel object and the state machine stay in step |
| `RecordQueue.DropToFitIsLongest` | support/support-libs/bytestreamringbuffer.h:34-66 | the queue keeps the longest suffix that fits |
| `RecordQueue.NewestKeptExactlyWhen` | support/support-libs/bytestreamringbuffer.h:57-66 | the new record is kept if and only if it fits with its header |
| `RecordQueue.TooLongLeavesNothing` | support/support-libs/bytestreamringbuffer.h:57-66 | one that does not drives out everything |
| `ByteStreamRing.WritingStep` | support/support-libs/bytestreamringbuffer.h:34-38 | each word written keeps the ring parsing as whole records plus a part of the new one, dropping at most the oldest |
| `ByteStreamRing.Buffer.Write` | support/support-libs/bytestreamringbuffer.h:57-66 | header and payload go into the ring word by word, whatever the length; if no record to be dropped has a length below -6, the longest suffix of the old records and the new one that fits in WORDS-1 words is left; refused or empty records change nothing |
| `ByteStreamRing.Buffer.Read` | support/support-libs/bytestreamringbuffer.h:73-85 | the oldest record unchanged, or -1 and exactly that record skipped (a length below -6 that exceeds maxLen: where the read index goes instead), or 0 when empty; the bytes moved, and exactly when they exceed maxLen |
| `ByteStreamRing.NeverOverrunsExactlyWhen` | support/support-libs/bytestreamringbuffer.h:73-85 | no record can overrun a buffer of maxLen bytes if and only if maxLen is a multiple of 4 or not positive |
| `ByteStreamRing.FiveBytesMoveEight` | support/support-libs/bytestreamringbuffer.h:73-85 | writing and reading 5 bytes with maxLen 5 moves 8 |
| `RecordQueue.SkipIsLengthExactlyWhen` | support/support-libs/bytestreamringbuffer.h:37 | the skip over a record is its length in words if and only if that is above -7 bytes |
| `ByteStreamRing.MeetsLow` | support/support-libs/bytestreamringbuffer.h:34-38 | where the word that meets an oldest record moves the read index: nowhere for lengths of -10 to -7, back for lower ones |
| `ByteStreamRing.LowLengthLosesQueue` | support/support-libs/bytestreamringbuffer.h:57-66 | after a write that drops a record of -10 to -7 the ring holds exactly the words written after the drop; it reads empty if and only if there are none |
| `ByteStreamRing.LowLengthLosesAll` | support/support-libs/bytestreamringbuffer.h:57-66 | by calls: writes of -7 and of 4 bytes into three words are accepted and leave the ring empty |
| `ByteStreamRing.Buffer.Reset` | support/support-libs/bytestreamringbuffer.h:50 | no record is left |
| `ByteStreamRing.Buffer.IsEmpty` | support/support-libs/bytestreamringbuffer.h:49 | equal indices mean exactly that no record is there |
| `ByteStreamRing.Buffer.WriteWord` | support/support-libs/bytestreamringbuffer.h:34-38 | one word stored, both indices moved |
| `ByteStreamRing.Buffer.ReadWord` | support/support-libs/bytestreamringbuffer.h:40-44 | one word taken |
| `Fifo.GotIsPrefixOfPut` | api/fifo.h:72-97 | in every interleaving of producer and consumer statements, block operations included, the values got are a prefix of those put and at most len-1 are held |
| `Fifo.WriteRegionIsFree` | api/fifo.h:360-376 | a cell open to the producer never holds an unread value; no cell is open to both sides |
| `Fifo.RefusedOnlyWhenFullOrEmpty` | api/fifo.h:72-97 | put and get are refused exactly when full or empty at that instant |
| `Fifo.StepKeepsInv` | api/fifo.h:346-404 | every statement of both sides keeps the invariant |
| `FifoCalls.UninterruptedPut` | api/fifo.h:72-82 | the producer's statements of an undisturbed put append exactly its value when fewer than len-1 are held, and otherwise change nothing |
| `FifoCalls.UninterruptedGet` | api/fifo.h:89-97 | those of an undisturbed get take exactly the oldest unread value, or nothing when there is none |
| `FifoCalls.UninterruptedAskToWrite` | api/fifo.h:360-376 | a region is handed out exactly when not full: from the write index on, the largest that neither wraps nor overfills |
| `FifoCalls.UninterruptedAskToRead` | api/fifo.h:384-399 | a region is handed out exactly when not empty: the largest run of the oldest values that does not wrap |
| `FifoCalls.UninterruptedBlockWrite` | api/fifo.h:360-381 | asking, filling and concluding append exactly the values written, in order |
| `FifoCalls.UninterruptedBlockRead` | api/fifo.h:384-404 | asking, copying and concluding take exactly that many of the oldest values, in order |
| `FifoObjects.Ring.Put` | api/fifo.h:72-82 | appends, or counts an error exactly when len-1 values are held |
| `FifoObjects.Ring.Get` | api/fifo.h:89-97 | takes the oldest, or counts an error and leaves the value alone |
| `FifoObjects.Ring.GetElementCount` | api/fifo.h:110-114 | the length of the queue |
| `FifoObjects.Ring.GetFreeSpaceCount` | api/fifo.h:121-123 | the rest of the capacity |
| `FifoObjects.Ring.GetBufferToWrite` | api/fifo.h:360-376 | the largest free region that does not wrap; none exactly when full |
| `FifoObjects.Ring.WriteConcluded` | api/fifo.h:379-381 | the filled cells join the queue |
| `FifoObjects.Ring.AdvancedIndexEx` | api/fifo.h:346-352 | the reducing loop wraps around |
| `FifoObjects.Ring.GetBufferToRead` | api/fifo.h:384-399 | the region holds the oldest values in order; none exactly when empty |
| `FifoObjects.Ring.ReadConcluded` | api/fifo.h:402-404 | the read values leave the queue |
| `FifoObjects.PutForReader` | api/fifo.h:307-321 | a put as one reader sees it: its newest len-1 pending values remain |
| `FifoObjects.PutForAll` | api/fifo.h:307-321 | for all readers at once, with puts = gets + overflows + pending for each |
| `FifoObjects.MultipleReaderFifo.Put` | api/fifo.h:307-321 | every reader keeps its newest len-1 values and counts the one it loses |
| `FifoObjects.MultipleReaderFifo.Get` | api/fifo.h:324-331 | the reader's oldest pending value; other readers are untouched |
| `S3PSenders.SenderSynchronous.SendMsg` | support/support-libs/s3p-synchronous-interface.h:36-49 | emits exactly the frame of the message |
| `S3PSenders.SenderSynchronous.PutDataByte` | support/support-libs/s3p-synchronous-interface.h:36-39 | emits the byte stuffed |
| `S3PSenders.SenderSynchronous.PutCommand` | support/support-libs/s3p-synchronous-interface.h:40-44 | emits both bytes, nothing for NODATA |
| `S3PSenders.MsgSenderAsynchronous.GetByteOrNODATA` | support/support-libs/s3p-asynchronous-interface.h:49-65 | the bytes drawn are the concatenated frames; NODATA only between frames and only when nothing is offered |
| `S3PSenders.MsgSenderAsynchronous.GetDualByte` | support/support-libs/s3p-asynchronous-interface.h:85-95 | the next word of the frame being sent |
| `S3PReceivers.ReceiverSynchronous.GetMsg` | support/support-libs/s3p-synchronous-interface.h:73-88 | message, commands and consumed input are those of the specification, on every input |
| `S3PReceivers.RoundTrip` | support/support-libs/s3p-synchronous-interface.h:36-88 | after any sender output that completes no frame, getMsg returns the first min(len, maxLen) bytes and stops right after the EOM |
| `S3PReceivers.MessagesInOrder` | support/support-libs/s3p-synchronous-interface.h:73-88 | successive messages come back in order, commands in between |
| `S3PPull.PullsWhatArrived` | support/support-libs/s3p-synchronous-interface.h:73-88 | on every stream, adjacent MARKs included, the commands and messages reported are exactly those that the positions of the words say: the data from the latest BOM to its EOM, clipped |
| `S3PPush.ReceiverAsynchronous.PutByte` | support/support-libs/s3p-asynchronous-interface.h:124-140 | one step of the push receiver, with or without a buffer |
| `S3PPush.ReceiversAgreeExactlyWhen` | support/support-libs/s3p-asynchronous-interface.h:124-140 | both receivers report the same messages and commands if and only if no two MARKs are adjacent |
| `S3PPush.SentIsClosed` | support/support-libs/s3p-code.h:17-26 | no sender puts two MARKs side by side |
| `S3PPush.PushedRoundTrip` | support/support-libs/s3p-asynchronous-interface.h:124-140 | so the push receiver also gives back what was sent |
| `S3POffers.ReportsWhatArrived` | support/support-libs/s3p-asynchronous-interface.h:124-140 | for any stream and any offers of buffers, changing from byte to byte, each byte brings about exactly what the positions of the words in the stream say |
| `S3POffers.ReportsUnderOffers` | support/support-libs/s3p-asynchronous-interface.h:124-140 | the commands reported are those of the stream; the messages are those whose BOM found a buffer in hand, each clipped to its size |
| `S3POffers.CommandsIgnoreOffers` | support/support-libs/s3p-asynchronous-interface.h:137 | so commands do not depend on the buffers offered |
| `S3POffers.LoneEndChangesNothing` | support/support-libs/s3p-asynchronous-interface.h:135 | an EOM that ends no message reports nothing and leaves the buffer in hand |
| `Checksums.ComputeCrc` | src/independent/checksumes.cpp:48-66 | the nested loops compute the CRC of the buffer |
| `Checksums.CrcIsRemainder` | src/independent/checksumes.cpp:48-66 | the byte loops are one shift register fed with the bits of the buffer |
| `CrcDivision.CrcIsRemainderOfDivision` | src/independent/checksumes.cpp:48-66 | over GF(2) the bits times x^16, plus the start value on top, are a quotient times x^16 + x^12 + x^5 + 1 plus the CRC |
| `CrcDivision.RemainderIsUnique` | src/independent/checksumes.cpp:48-66 | and no other remainder of degree below 16 satisfies this |
| `Checksums.CrcConcat` | src/independent/checksumes.cpp:48-66 | the CRC of a concatenation chains |
| `Checksums.TableEntryIsShift` | src/independent/checksumes.cpp:73-86 | each table entry is eight bit steps of its index |
| `Checksums.TableStepIsByte` | src/independent/checksumes.cpp:88-98 | one look-up equals eight bit steps, for every state and byte |
| `Checksums.CrcTable.ComputeCRC` | src/independent/checksumes.cpp:88-98 | the table form equals the bitwise form for every buffer and initial value |
| `CrcDetection.OwnCrcGivesZero` | src/independent/checksumes.cpp:48-66 | a message followed by its own big-endian CRC has CRC 0 |
| `CrcDetection.BurstsAreDetected` | src/independent/checksumes.cpp:48-66 | different buffers that differ only within any 16 consecutive bits have different CRCs |
| `CrcDetection.AdjacentBytesAreDetected` | src/independent/checksumes.cpp:48-66 | in particular within two adjacent bytes |
| `BitField.SetBitField` | src/independent/stream-bytesex.cpp:263-284 | writes exactly the lowest bits of the value at the position, most significant first; every other bit is unchanged |
| `BitField.GetBitField` | src/independent/stream-bytesex.cpp:291-305 | returns exactly the bits of the field |
| `BitField.SetBitInByteStream` | src/independent/stream-bytesex.cpp:234-244 | changes exactly one bit |
| `BitField.GetBitReads` | src/independent/stream-bytesex.cpp:247-253 | returns exactly that bit |
| `BitField.SetBitByBit` | src/independent/stream-bytesex.cpp:234-244 | setting the field bit by bit, most significant first, ends in the same buffer as setBitField |
| `BitField.SetThenGet` | src/independent/stream-bytesex.cpp:263-305 | setBitField and then getBitField give the value modulo 2 to the width |
| `BitField.OtherFieldsKeep` | src/independent/stream-bytesex.cpp:263-305 | disjoint fields are unchanged |
| `BitField.OnesAre` | api/misc-rodos-funcs.h:86-88 | the mask of n ones is 2^n - 1 |
| `SortedList.List.Remove` | support/support-libs/sortedlist.cpp:19-32 | takes the entry out exactly when it is in this list; every list stays a sorted circle |
| `SortedList.List.InsertBefore` | support/support-libs/sortedlist.cpp:34-42 | links an entry in before another; every list stays a sorted circle |
| `SortedList.List.Insert` | support/support-libs/sortedlist.cpp:45-65 | the entry ends up behind all keys up to its own and before all greater ones, out of any list it was in; nothing else changes |
| `SortedList.List.Append` | support/support-libs/sortedlist.cpp:78-93 | at the end, unless the last key, or the sentinel's key 0 when the list is empty, is greater |
| `SortedList.List.AppendForce` | support/support-libs/sortedlist.cpp:72-75 | always at the end, with a raised key if need be |
| `SortedList.List.Find` | support/support-libs/sortedlist.cpp:12-17 | the first entry with the key, or none |
| `SortedList.List.GetFirst` | support/support-libs/sortedlist.h:129-132 | the first entry, or none |
| `SortedList.List.GetAndRemoveTheFirst` | support/support-libs/sortedlist.h:141-145 | takes the entry with the least key, the oldest among equals |
| `SortedList.Unlink` | support/support-libs/sortedlist.cpp:27-28 | the pointers still form a circle without the entry |
| `SortedList.Link` | support/support-libs/sortedlist.cpp:35-40 | the pointers form a circle with the entry |
| `SortedList.InExactlyOneList` | support/support-libs/sortedlist.h:25-27 | an entry is in the chain of the list it names and in no other; each list counts its chain |
| `SortedList.TotalIsListed` | support/support-libs/sortedlist.cpp:19-93 | the counters of all lists add up to the number of entries that are in some list |
| `SortedList.MoveKeepsListed` | support/support-libs/sortedlist.cpp:45-93 | insert and append change that set by their entry only, so a move conserves the total |
| `SortedList.NewWorld` | support/support-libs/sortedlist.h:123-127 | fresh lists and entries satisfy the invariant |

## Left out

- Platform ports, assembly context switching and stack checks: hardware; the context switch is one step.
- The POSIX and other host ports: they delegate to other systems.
- HAL, networking, gateway and router code: plumbing around devices.
- Topics, application lists, xmalloc, TimePoint, RingBuffer, Tokenizer, MonitoringMsg: they would only add easy members.
- SyncFifo and SyncCommBuffer: wrappers around suspend and resume that add little to the models here.
- Floating-point time conversions, matlib and yprintf.
- The `schedulerRunning == false` paths of the semaphore, which return at once.
- The sleep mode of the idle thread, which sets the timer by itself (thread_on_hw.cpp:273-296).
- `checkSum`, `checkSumXor32` and `hash` of checksumes.cpp: simple loops.
- `CommBuffer::putZero`: it writes the buffer and then puts it.
- S3P words sent through `putCommand` whose low byte is MARK, such as NEVER_USE, are outside the round trip: the code words exclude them.
- BitField.SetBitField: asks for a field within three bytes, which holds for every documented width of 0 to 16 bits; wider fields shift by a negative amount in the original.
- BitField.GetBitField: the same.
- ByteStreamRing.Buffer.Write: which records are left is stated for writes that drop no length below -6; for others the words stored and both indices are stated (and LowLengthLosesQueue for -10 to -7).
- ByteStreamRing.Buffer.Read: asks for memory behind the pointer for whole words; a buffer of exactly maxLen bytes is overrun where its contract says so.
- SortedList.List.Insert: the sentinel of another list passed as an entry is not modelled; the code does not recognise it.
- FifoObjects.MultipleReaderFifo.Put: calls run to their end; the original's put is not safe against a concurrent get of a slow reader.
- S3PReceivers.ReceiverSynchronous.GetMsg: returns -1 where the original waits for a byte that never comes.
