# RT-Thread board port: verification models

Dafny models of the concurrent and stateful parts of a CH32V303 board port of RT-Thread 4.1.1 and of the
portable libraries it carries, with proofs of what these parts promise. `dafny verify dfyconfig.toml` checks
the whole project.

## How the models are built

The target has one core, so an interrupt-disabled section is one atomic step. Each kernel object is modelled
twice: as a state machine whose steps are those sections (`...Spec`), and as a class whose methods do, field
by field and loop by loop, what the source does. Each method is proved to be the step it stands for, and the
theorems are about all finite runs of the machine, in which steps of threads, timeouts and interrupts
interleave freely. A run is a sequence of actions, each enabled where it happens; what a function demands of
its callers by assertion is what enables its action.

* **Mutexes** (`MutexSpec`, `MutexInversion`, `MutexWaiting`, `MutexKernel`): direct hand-off, recursion, timeouts
  and priority inheritance, with one mutex at a time and with any nesting.
* **Wait lists** (`WaitList`) and **intrusive lists** (`RtList`, on the heap): FIFO and priority queueing.
* **Message queues** (`MessageQueueSpec`, `MessageQueueRuns`, `MessageQueueWaiting`, `MessageQueue`): linked slots,
  with the copy of the payload outside the critical sections and wait lists of either order.
* **Mailboxes** (`MailboxSpec`, `MailboxWaiting`, `Mailbox`): a ring of mails with wait loops that can lose a race,
  and wait lists of either order.
* **Event sets** (`EventSpec`, `EventWaiting`, `EventSet`): one send wakes many while CLEAR takes flags away in the
  middle. An event word is the set of its flag numbers.
* **Scheduler** (`SchedulerSpec`, `SchedulerTurns`, `Scheduler`, `ReadyBitmap`, `FindFirstSet`): ready lists, the
  bitmap in its one-word and its two-level build, both variants of `__rt_ffs`, time slices, the YIELD flag and the
  lock.
* **Small-memory allocator** (`SmallMemSpec`, `SmallMemLive`, `SmallMemHeap`, `SmallMem`): block lists, the headers
  inside one cell array, and the calls.
* **LwRB** (`LwrbIndex`, `LwrbSpsc`, `Lwrb`): the lock-free protocol of one writer and one reader at the grain of
  index loads, byte copies and index stores, and the sequential operations.
* **AT engine** (`AtSpec`, `AtTurns`, `AtChat`): two queues, a cursor, retries, timeouts, and aborts that may fall
  between the steps of a poll.
* **RTC** (`Calendar`, `Rtc`), **formatter** (`PrintfSpec`, `PrintfFormat`, `Printf`), **buttons** (`ButtonSpec`,
  `ButtonScan`, `FlexibleButton`) and **varints** (`Varint`).

What each step does is also stated without the functions of the machine, in terms of fields, lists and sets, and
each method promises that as well (`MutexWaiting`, `MessageQueueWaiting`, `MailboxWaiting`, `EventWaiting`,
`SchedulerTurns`, `SmallMemLive`, `AtTurns`, `PrintfFormat`, `ButtonScan`); what callers see is proved from there.

## Where the code is not what its documentation says

The models follow the code. The proofs show exactly where the two part:

* The comment at rt-thread/src/scheduler.c:757 and the description of `rt_thread_yield` promise that a thread
  without slice gives way to all others of its level. `rt_schedule` clears YIELD before the insertion that
  tests it, so only two threads ever take turns (`SchedulerSpec.ThirdNeverRuns`), and yields reach everyone
  exactly when no more than one thread waits (`SchedulerSpec.EveryoneRunsIff`); every larger crowd can be
  reached from boot (`SchedulerSpec.DuelReached`).
* Priority inheritance holds for threads that hold one mutex at a time; two nested mutexes can undo it
  (`MutexSpec.NestedMutexesInvert`). The steps that undo it are exactly those that miss the conditions of
  `MutexInversion.InversionIff`, in every run (`MutexInversion.RunInversionIff`): a release that restores too low a
  priority, a boost that stops at an owner which itself waits, a change of priority, and a hand-off from a list
  whose order such a boost has disturbed (`MutexInversion.StirredListInverts`).
* `RTC_Get` reads 31 December of a leap year as day 1 of month 13, and only that date is misread
  (`Calendar.RoundTrip`); a clock that has never shown a date shows none on 1970-01-01 (`Rtc.Clock.Get`); the
  week index of a Sunday is computed as -1, which the enumeration of bsp_rtc.h does not hold (`Rtc.Clock.Get`).
* A request within one alignment unit of 2^32 wraps to a small block (`SmallMemSpec.DemandCovers`).
* A field width smaller than the string cuts it, and a precision of 0 is taken for none
  (`PrintfFormat.StringRightIff`); `%o` prints hexadecimal digits, which are right below 8 only
  (`PrintfFormat.OctalRightIff`); the flag '#' puts no prefix in front, a negative '*' precision is taken for 0
  instead of none, a precision of 0 drops all digits, and the '0' flag pads although a precision is given
  (`PrintfFormat.NumberRightIff`).
* A button whose hold threshold is 65535 reports start events again when its counter wraps
  (`ButtonSpec.StartEventsOnce`) and then misjudges most longer presses
  (`ButtonSpec.UpEventIff`); registration admits one button more than the register words have bits.
* The limit of the AT queues is exceeded by up to one for each concurrent producer (`AtSpec.QueuesBounded`,
  `AtSpec.LimitExceeded`), exactly through creations that find the items queued and pending at the limit
  (`AtSpec.LimitPassedIff`).
* An AT item aborted between the state test of a poll and its handler may still be sent, called back and
  reported as finished (`AtSpec.AbortedIsSent`, `AtSpec.AbortedIsCalledBack`); no other aborted item is
  (`AtSpec.AbortFinalIff`).

## Model

| member | source | states |
|---|---|---|
| `MutexSpec.MutualExclusion` | rt-thread/src/ipc.c:914-1198 | over every run of takes, releases, timeouts and priority changes: value 1, no owner and hold 0 coincide, and each thread's grants minus releases are the hold count for the owner and 0 for all others |
| `MutexSpec.TakeReturnsOwnership` | rt-thread/src/ipc.c:914-1052 | a take that returns EOK, at once or after a wait, leaves the caller as owner; a timed-out or refused one leaves it neither owner nor waiter; EFULL means the owner is at the hold limit |
| `MutexSpec.PriorityInheritance` | rt-thread/src/ipc.c:998-1009 | while threads hold one mutex at a time, every reachable wait list is ordered by priority then arrival, no owner is less urgent than a waiter, and threads that hold nothing run at their base priority |
| `MutexSpec.NestedMutexesInvert` | rt-thread/src/ipc.c:1134-1139 | the discipline is needed: for any two priorities, a run with two mutexes in which a release undoes the boost while the more urgent thread still waits |
| `MutexInversion.InversionIff` | rt-thread/src/ipc.c:989-1170 | for threads that hold and await any number of mutexes, with wait lists in any order: a step from an accounted state in which no waiter is more urgent than its owner keeps it so exactly when, for a last release, the restored priority serves the waiters of the other mutexes of the thread and the waiter at the head of the list is as urgent as every other one; for a suspension, the boosted owner is not queued on a mutex whose owner is less urgent than the caller; for a priority set from outside, it serves both; every other step keeps it |
| `MutexInversion.RunInversionIff` | rt-thread/src/ipc.c:914-1198 | over every run, nested boosts and priority changes of waiting threads included, from any accounted state without inversion: no waiter is ever more urgent than its owner exactly when every step met its condition |
| `MutexInversion.InversionFromStart` | rt-thread/src/ipc.c:741-1198 | the same for every run from the start |
| `MutexInversion.UnstirredHandsOffWell` | rt-thread/src/ipc.c:1141-1170 | over every run that changes no priority of a waiting thread the lists stay ordered, so that the condition on the hand-off holds at every mutex |
| `MutexInversion.StirredListInverts` | rt-thread/src/ipc.c:989-1170 | without that it can fail: for any four threads in order of urgency a run boosts a thread that already waits, and a release then makes a less urgent waiter the owner while it waits on |
| `MutexInversion.StepSorted` | rt-thread/src/ipc.c:989-1170 | a step that changes no priority of a waiting thread keeps every wait list ordered by priority and then arrival, with any nesting |
| `MutexSpec.StepAccounted` | rt-thread/src/ipc.c:1090-1198 | every step keeps the accounting of value, owner, hold, grants and wait list membership |
| `MutexSpec.StepInherits` | rt-thread/src/ipc.c:1131-1170 | every disciplined step keeps the order of the wait lists and the inheritance invariant |
| `MutexSpec.HeadMostUrgent` | rt-thread/src/ipc.c:1141-1170 | the waiter a release hands the mutex to is at least as urgent as every other waiter |
| `MutexWaiting.TakeMeans` | rt-thread/src/ipc.c:914-1023 | from every accounted state: a free mutex is taken once at the priority of the caller; an owner takes one level more, up to 255; anyone else fails at once for a timeout of 0 and otherwise waits at the place its urgency gives it, the owner raised to its priority, and with a timer that can fire exactly for a positive timeout |
| `MutexWaiting.TakeTimesOut` | rt-thread/src/ipc.c:989-1036 | whatever happens while a take waits, it can be ended by its timer exactly when its timeout is positive; it then returns ETIMEOUT and the caller neither has the mutex nor waits for it |
| `MutexWaiting.WaitEnds` | rt-thread/src/ipc.c:989-1190 | a wait ends by the timer, without the mutex, or by the last release of the owner while the thread leads the list, with it; nothing else ends it |
| `MutexWaiting.ReleaseMeans` | rt-thread/src/ipc.c:1090-1198 | a release is refused to all but the owner, gives up one level, or restores the priority and makes the head of the list the owner; nothing else changes |
| `MutexKernel.Kernel.constructor` | rt-thread/src/ipc.c:741-771 | a fresh mutex is free and a fresh thread runs at its own priority |
| `MutexKernel.Kernel.Take` | rt-thread/src/ipc.c:914-1052 | the call up to its return or its suspension is the take step; what it returns, whom it lets wait and for how long, and all it leaves alone are stated from owner, hold and timeout |
| `MutexKernel.Kernel.Block` | rt-thread/src/ipc.c:989-1021 | the caller joins the list behind everyone at least as urgent and before everyone less urgent, the owner ends as urgent as the more urgent of the two, no other thread changes, the accounting is kept, and no waiter of this mutex is left more urgent than its owner |
| `MutexKernel.Kernel.Release` | rt-thread/src/ipc.c:1090-1198 | the call is the release step, keeps the accounting, and succeeds exactly for the owner; the new owner, priorities and list are stated |
| `MutexKernel.Kernel.HandOn` | rt-thread/src/ipc.c:1131-1190 | the caller is back at the priority it had when it took the mutex; the head waiter owns the mutex once and is resumed with EOK, or the mutex is free; the accounting is kept; and no waiter is left more urgent than the new owner exactly when no waiter was more urgent than the head |
| `MutexKernel.Kernel.TakeReturns` | rt-thread/src/ipc.c:1026-1052 | a resumed take returns EOK exactly with the mutex owned by the caller |
| `MutexKernel.Kernel.TimerFires` | rt-thread/src/thread.c:126-155 | a timeout takes the thread off the wait list without the mutex, changes nobody else and keeps the accounting |
| `WaitList.Suspend` | rt-thread/src/ipc.c:122-166 | the scan queues the thread at the place the order specification gives, for FIFO and for priority lists |
| `WaitList.EnqueuedOrdered` | rt-thread/src/ipc.c:137-160 | queueing by priority keeps a list urgent first and first come first among equals |
| `WaitList.EnqueuedMembers` | rt-thread/src/ipc.c:122-166 | queueing adds exactly the newcomer and repeats nobody |
| `WaitList.WithoutOrdered` | rt-thread/src/thread.c:126-155 | a thread that leaves a list leaves the order of the others intact |
| `WaitList.WithoutHead` | rt-thread/src/ipc.c:191-203 | resuming removes exactly the head |
| `MessageQueueSpec.SlotsConserved` | rt-thread/src/ipc.c:2522-2531 | at every interleaving of the critical sections the pool is partitioned into free list, queue list and slots in flight; entry is the queue length; tail is the last node and null exactly with head |
| `MessageQueueSpec.EntryNeverOverflows` | rt-thread/src/ipc.c:2881-2890 | a call that has its slot never meets the entry limit, so that branch is unreachable |
| `MessageQueueSpec.MessagesArriveUnchanged` | rt-thread/src/ipc.c:3183-3193 | every queued slot carries its message, and what a receiver has copied out is that message as far as its buffer reaches |
| `MessageQueueSpec.LinkOrder` | rt-thread/src/ipc.c:2861-2890 | a send appends its message to the deque of messages, an urgent one prepends it |
| `MessageQueueSpec.ReceiveTakesFront` | rt-thread/src/ipc.c:3105-3184 | a receive takes the front message and its slot, or waits or fails when there is none |
| `MessageQueueRuns.StepRefinesDeque` | rt-thread/src/ipc.c:2749-3282 | in every reachable state every step is a step of a deque: a receive takes the front message with its slot, whether at once or after a wait, linking appends or, for an urgent message, prepends, a reset empties, and no other step touches the messages |
| `MessageQueueRuns.FirstInFirstOut` | rt-thread/src/ipc.c:2749-3208 | over every run without urgent messages and resets, what was queued and then linked is what was taken, in order, followed by what is still queued |
| `MessageQueueRuns.NoLostWakeup` | rt-thread/src/ipc.c:2783-3208 | for FIFO and for priority lists, over every run: while a context waits to receive the messages are no more than the receivers woken that have not run, and while one waits to send the free slots are no more than the senders woken that have not run |
| `MessageQueueRuns.WakesMostUrgent` | rt-thread/src/ipc.c:2783-3208 | over every run of a queue made with RT_IPC_FLAG_PRIO, the head of each wait list, which is woken next, is as urgent as everyone else in it |
| `MessageQueueWaiting.StepMeans` | rt-thread/src/ipc.c:2749-3282 | what each step does to slots, messages, waiters and timers: which slot or message it takes, what is copied, where a slot is linked, whom it wakes, and that all else stays |
| `MessageQueueWaiting.CallTimesOut` | rt-thread/src/ipc.c:2783-3172 | a call waits exactly when its timeout is not 0, it is not urgent and there is nothing for it; whatever happens meanwhile its timer can fire exactly for a positive timeout, and the call then fails, on no list |
| `MessageQueueWaiting.WaitEnds` | rt-thread/src/ipc.c:2783-3282 | a wait ends by the timer, by a reset, or at the head of its list when a message is linked or a slot freed; until then call and timer stay |
| `MessageQueueSpec.StepKeeps` | rt-thread/src/ipc.c:2749-3271 | every step of send, urgent, receive, timeout and reset keeps the partition, the chains and the payloads |
| `MessageQueueSpec.Room` | rt-thread/src/ipc.c:2783-2858 | while a slot is in flight the queue is shorter than the pool |
| `MessageQueue.MessageQueue.constructor` | rt-thread/src/ipc.c:2486-2540 | the initial free list holds every slot |
| `MessageQueue.MessageQueue.Attempt` | rt-thread/src/ipc.c:2783-2858 | the wait loop ends with a slot, a refusal or a suspension exactly as the specification says |
| `MessageQueue.MessageQueue.CopyMessage` | rt-thread/src/ipc.c:2861-2864 | the copy outside the critical sections writes the slot of the caller only |
| `MessageQueue.MessageQueue.Link` | rt-thread/src/ipc.c:2866-2890 | linking the filled slot at the tail or at the head is the finish step |
| `MessageQueue.MessageQueue.GiveBack` | rt-thread/src/ipc.c:3189-3197 | a received slot goes to the front of the free list, with which it is linked, and the wait lists agree with who waits |
| `MessageQueue.MessageQueue.Enter` | rt-thread/src/ipc.c:2749-2858 | a call that enters is the enter step and keeps the invariant; what it takes, or that and how it waits, is stated |
| `MessageQueue.MessageQueue.Retry` | rt-thread/src/ipc.c:2835-2853 | a call that was suspended and resumed is the retry step and keeps the invariant |
| `MessageQueue.MessageQueue.Finish` | rt-thread/src/ipc.c:2866-2905 | the second critical section of a call is the finish step and keeps the invariant |
| `MessageQueue.MessageQueue.TimerFires` | rt-thread/src/thread.c:126-155 | a timeout takes the context off its wait list and keeps the invariant |
| `MessageQueue.MessageQueue.Reset` | rt-thread/src/ipc.c:3234-3282 | a reset wakes everyone and returns every queued slot to the free list |
| `MailboxSpec.StepRefinesDeque` | rt-thread/src/ipc.c:1991-2120 | every step is a step of a bounded deque: send appends, urgent prepends, receive pops the front, reset empties, and a call succeeds exactly when the deque has room, or a mail |
| `MailboxSpec.NoLostWakeup` | rt-thread/src/ipc.c:2245-2374 | for FIFO and for priority lists, over every run: (out_offset + entry) mod size is in_offset, and while a context waits the mails, or the free cells, are no more than the woken contexts that have not run |
| `MailboxSpec.WakesMostUrgent` | rt-thread/src/ipc.c:1991-2374 | over every run of a mailbox made with RT_IPC_FLAG_PRIO, the head of each wait list, which is woken next, is as urgent as everyone else in it |
| `MailboxWaiting.StepMeans` | rt-thread/src/ipc.c:1991-2425 | what each step does to mails, waiters and timers: which mail goes where, what the call returns, whom it wakes and who waits at which place |
| `MailboxWaiting.CallTimesOut` | rt-thread/src/ipc.c:2017-2078 | a call waits exactly when it cannot succeed and its timeout is not 0; whatever happens meanwhile its timer can fire exactly for a positive timeout, and the call then fails, on no list |
| `MailboxWaiting.WaitEnds` | rt-thread/src/ipc.c:2017-2425 | a wait ends by the timer, by a reset, or at the head of its list when a call of the other kind succeeds; until then call and timer stay |
| `MailboxSpec.PutAppends` | rt-thread/src/ipc.c:2080-2100 | storing at in_offset appends to the mails held, at every wrap position |
| `MailboxSpec.PutFirstPrepends` | rt-thread/src/ipc.c:2183-2197 | storing before out_offset prepends to the mails held, at every wrap position |
| `MailboxSpec.TakeDropsFirst` | rt-thread/src/ipc.c:2340-2352 | reading at out_offset takes the first of the mails held, at every wrap position |
| `MailboxSpec.StepKeeps` | rt-thread/src/ipc.c:1991-2374 | every step keeps offsets, count and the wake-up account |
| `Mailbox.Mailbox.constructor` | rt-thread/src/ipc.c:1780-1812 | a new mailbox is empty and nobody waits |
| `Mailbox.Mailbox.SendAttempt` | rt-thread/src/ipc.c:2017-2120 | the send loop up to its return or suspension is the attempt of the specification |
| `Mailbox.Mailbox.RecvAttempt` | rt-thread/src/ipc.c:2269-2374 | the receive loop up to its return or suspension is the attempt of the specification |
| `Mailbox.Mailbox.Enter` | rt-thread/src/ipc.c:1991-2120 | an entering call is a step of the machine, keeps the invariant and refines the deque; who waits, with which timer, and who is woken is stated |
| `Mailbox.Mailbox.Retry` | rt-thread/src/ipc.c:2057-2078 | a resumed call is a step of the machine and keeps the invariant |
| `Mailbox.Mailbox.Urgent` | rt-thread/src/ipc.c:2164-2215 | an urgent send puts its mail in front, or reports a full mailbox |
| `Mailbox.Mailbox.TimerFires` | rt-thread/src/thread.c:126-155 | a timeout takes the context off its wait list and keeps the invariant |
| `Mailbox.Mailbox.Reset` | rt-thread/src/ipc.c:2393-2425 | a reset wakes everyone and empties the mailbox |
| `EventSpec.NoSatisfiedWaiterSleeps` | rt-thread/src/ipc.c:1461-1519 | in every reachable state no sleeping thread has its condition met by the flags, and the branch of a send for a waiter without AND or OR is never taken |
| `EventSpec.FlagsSpentOnce` | rt-thread/src/ipc.c:1503-1507 | over every run each raising of a flag is taken away by at most one receiver that clears |
| `EventSpec.ReceiveReturns` | rt-thread/src/ipc.c:1598-1700 | a receive that succeeds, at once or after a wait, returns flags it asked for, enough for its condition, and all of them under AND |
| `EventSpec.SendPass` | rt-thread/src/ipc.c:1463-1517 | a waiter is either still queued or has a receipt; one left behind although the flags sufficed was beaten to a flag by one ahead of it; nobody satisfied is left behind |
| `EventSpec.SendReceipts` | rt-thread/src/ipc.c:1454-1507 | what remains of the flags is what was there and was sent, less what was cleared; a cleared flag reaches nobody later in the pass |
| `EventWaiting.SendMeans` | rt-thread/src/ipc.c:1454-1517 | one send is a walk along the wait list: a waiter that the flags left suffice for gets exactly those of its flags that are there, and takes them away under CLEAR; the others stay in their order |
| `EventWaiting.StepMeans` | rt-thread/src/ipc.c:1440-1735 | what each call does to flags, waiters and timers, and what it returns |
| `EventWaiting.ReceiveTimesOut` | rt-thread/src/ipc.c:1598-1686 | a receive waits exactly when its flags do not suffice and its timeout is not 0; whatever happens meanwhile its timer can fire exactly for a positive timeout, and it then returns a timeout and takes no flag |
| `EventWaiting.WaitEnds` | rt-thread/src/ipc.c:1461-1735 | a wait ends by the timer, by a reset, or by a send that hands over enough of what was asked for |
| `EventSpec.StepKeeps` | rt-thread/src/ipc.c:1440-1720 | every step keeps the invariant of flags, waiters and delivered sets |
| `EventSet.EventObject.constructor` | rt-thread/src/ipc.c:1270-1290 | a new event has no flags and no waiters |
| `EventSet.EventObject.WakeSatisfied` | rt-thread/src/ipc.c:1463-1517 | the loop over the wait list computes the whole pass |
| `EventSet.EventObject.Send` | rt-thread/src/ipc.c:1440-1528 | the call is the send step and fails exactly for an empty set |
| `EventSet.EventObject.Recv` | rt-thread/src/ipc.c:1565-1660 | the call up to its return or suspension is the receive step and delivers exactly the flags asked for that are there; who waits, where and with which timer is stated |
| `EventSet.EventObject.Resume` | rt-thread/src/ipc.c:1662-1686 | the rest of a receive after a wait is the resume step and delivers what meets the request |
| `EventSet.EventObject.TimerFires` | rt-thread/src/thread.c:126-155 | a timeout takes the thread off the list with its error |
| `EventSet.EventObject.ResumeAll` | rt-thread/src/ipc.c:220-248 | resuming head after head wakes every waiter with an error |
| `EventSet.EventObject.Reset` | rt-thread/src/ipc.c:1703-1735 | a reset wakes everyone and clears the flags |
| `FindFirstSet.VariantsAgree` | rt-thread/src/kservice.c:1716-1789 | the byte table and the modulo-37 table give the same result on every word, one more than the lowest set bit |
| `FindFirstSet.FfsFindsFirst` | rt-thread/src/kservice.c:1775-1789 | the result is 0 exactly for 0, and otherwise names a set bit with no set bit below |
| `FindFirstSet.Isolates` | rt-thread/src/kservice.c:1740-1743 | n & (n - 1) ^ n is the lowest set bit alone |
| `FindFirstSet.TinyEntry` | rt-thread/src/kservice.c:1718-1726 | the powers of two leave distinct remainders modulo 37 and the table lists them |
| `FindFirstSet.ByteEntryIsLowest` | rt-thread/src/kservice.c:1746-1764 | the byte table holds the lowest set bit of every nonzero byte |
| `ReadyBitmap.HighestIsMostUrgent` | rt-thread/src/scheduler.c:169-191 | in the one-word and in the two-level build the lookup returns the least marked priority, and the group word is 0 exactly when nothing is marked |
| `ReadyBitmap.MarkKeeps` | rt-thread/src/scheduler.c:776-779 | marking a priority keeps group and table consistent and marks nothing else |
| `ReadyBitmap.UnmarkKeeps` | rt-thread/src/scheduler.c:859-871 | unmarking clears one priority, and the group bit only when its byte becomes empty |
| `SchedulerSpec.MostUrgentThreadRuns` | rt-thread/src/scheduler.c:423-545 | over every run from boot in which the idle thread never suspends or exits, bitmap, lists and statuses agree, and after rt_schedule with the scheduler unlocked a running thread is current and no ready thread is more urgent |
| `SchedulerSpec.StepKeeps` | rt-thread/src/scheduler.c:739-875 | every step keeps: bit set exactly for non-empty lists, each ready thread on exactly the list of its priority, the current thread on none |
| `SchedulerSpec.ScheduleStays` | rt-thread/src/scheduler.c:444-458 | the current thread keeps the processor, loses YIELD and no list changes, when it is strictly most urgent or as urgent with slice left |
| `SchedulerSpec.ScheduleSwitches` | rt-thread/src/scheduler.c:460-480 | otherwise the front thread of the most urgent list runs and a thread that could still run goes to the head of its own list |
| `SchedulerSpec.YieldSwaps` | rt-thread/src/thread.c:545-558 | a yield at one level exchanges the running thread with the head of the list and moves nothing else |
| `SchedulerSpec.YieldsAlternate` | rt-thread/src/thread.c:545-558 | n yields alternate two threads, and an even number restores the lists |
| `SchedulerSpec.ThirdNeverRuns` | rt-thread/src/scheduler.c:756-768 | over any yields, ticks and schedules at one level only two threads ever run; the rotation promised by the comment does not reach a third |
| `SchedulerSpec.DuelReached` | rt-thread/src/scheduler.c:739-783 | from every boot any threads of one priority can be brought to the state in which one runs, one leads the list and all the others wait behind |
| `SchedulerSpec.EveryoneRunsIff` | rt-thread/src/thread.c:545-558 | repeated yields bring every ready thread of the level to the processor exactly when no more than one of them waits |
| `SchedulerSpec.NoSwitchWhileLocked` | rt-thread/src/scheduler.c:921-1012 | over every run in which the scheduler stays locked the current thread stays current, whatever is called |
| `SchedulerSpec.ScheduleRunsMostUrgent` | rt-thread/src/scheduler.c:423-545 | one rt_schedule with the scheduler unlocked and a runnable idle thread ends with the most urgent thread running |
| `SchedulerTurns.StepMeans` | rt-thread/src/scheduler.c:423-1012 | what each call does to threads, lists, current thread and lock: status, YIELD, slice and priority of the thread, and at which end of which list it goes |
| `SchedulerTurns.TickPassesOn` | rt-thread/src/clock.c:106-118 | in an unlocked duel the tick that finds one tick left, with its rt_schedule, makes the other thread run and gives the first a whole slice |
| `SchedulerTurns.SlicesAlternate` | rt-thread/src/clock.c:91-128 | two threads of the most urgent level take turns by the clock: after any number of ticks the position in the round of both slices says which one runs and how much of its slice is left |
| `SchedulerTurns.TickingRuns` | rt-thread/src/clock.c:91-128 | those ticks are a run of the machine |
| `SchedulerTurns.RoundReached` | rt-thread/src/thread.c:196-212 | every boot with whole slices can be brought to the start of such a round |
| `Scheduler.Scheduler.constructor` | rt-thread/src/scheduler.c:197-242 | the lists and the bitmap start empty, in the build that fits the number of priorities |
| `Scheduler.Scheduler.InsertThread` | rt-thread/src/scheduler.c:739-783 | inserting the current thread only makes it run; any other goes to the head of its list, or to the tail with YIELD |
| `Scheduler.Scheduler.RemoveThread` | rt-thread/src/scheduler.c:845-875 | the thread leaves its list and the bit is cleared with the last one |
| `Scheduler.Scheduler.HighestPriorityThread` | rt-thread/src/scheduler.c:169-191 | the lookup returns the front of the most urgent list; no ready thread is more urgent |
| `Scheduler.Scheduler.Schedule` | rt-thread/src/scheduler.c:423-545 | the call is the schedule step and keeps the invariant |
| `Scheduler.Scheduler.Startup` | rt-thread/src/thread.c:355-376 | starting a thread is the startup step |
| `Scheduler.Scheduler.Start` | rt-thread/src/scheduler.c:248-271 | starting the scheduler runs the most urgent thread |
| `Scheduler.Scheduler.Suspend` | rt-thread/src/thread.c:840-870 | only a thread that runs is suspended; it leaves the lists |
| `Scheduler.Scheduler.Resume` | rt-thread/src/thread.c:885-917 | exactly a suspended thread is made ready, or running again if it is still current |
| `Scheduler.Scheduler.Yield` | rt-thread/src/thread.c:545-558 | reloading the slice and scheduling is one step |
| `Scheduler.Scheduler.Tick` | rt-thread/src/clock.c:91-128 | one tick of the slice; the one that finds one tick left reloads it, flags YIELD and asks for a schedule; the counter wraps below zero; nothing else changes |
| `Scheduler.Scheduler.ChangePriority` | rt-thread/src/thread.c:732-775 | a ready thread moves to the list of its new priority, any other only changes its number |
| `Scheduler.Scheduler.EnterCritical` | rt-thread/src/scheduler.c:921-936 | after it rt_schedule does nothing, and the matching unlock restores the state it was called in |
| `Scheduler.Scheduler.ExitCritical` | rt-thread/src/scheduler.c:985-1012 | unlocking the last level asks for a schedule |
| `Scheduler.Scheduler.Exit` | rt-thread/src/thread.c:90-117 | an exiting thread leaves the lists and is closed |
| `RtList.Node.constructor` | rt-thread/include/rtservice.h:47-50 | an initialized node is a ring by itself |
| `RtList.InsertAfter` | rt-thread/include/rtservice.h:58-65 | on the heap: the node follows the given one in the ring, all other links stay a ring |
| `RtList.InsertBefore` | rt-thread/include/rtservice.h:73-80 | on the heap: the node precedes the given one; before the head means at the tail |
| `RtList.Remove` | rt-thread/include/rtservice.h:86-92 | on the heap: the ring closes without the node, which is then a ring by itself |
| `RtList.IsEmpty` | rt-thread/include/rtservice.h:98-101 | empty exactly when the head is alone |
| `RtList.Len` | rt-thread/include/rtservice.h:107-118 | counts the nodes besides the head |
| `RtList.InsertRemove` | rt-thread/include/rtservice.h:58-92 | removal undoes insertion |
| `RtList.FrontAndBack` | rt-thread/src/scheduler.c:758-768 | inserting after the head queues in front, before the head behind |
| `SmallMemSpec.RunKeepsShape` | rt-thread/src/mem.c:279-559 | over every sequence of alloc, free and realloc the blocks tile the heap and no two neighbours are free; with everything released the heap is the single initial block |
| `SmallMemSpec.RunNotesPeak` | rt-thread/src/mem.c:279-559 | over every sequence of calls the peak that the calls note is at least the bytes in use in every heap passed through, moves in progress included, and is the initial peak or the use of one of them |
| `SmallMemSpec.PeakFromStart` | rt-thread/src/mem.c:214-559 | from the initial heap on, max is the largest use of all heaps passed through |
| `SmallMemLive.LiveDetermines` | rt-thread/src/mem.c:125-163 | the blocks handed out determine the whole heap: two heaps of one size with the same ones are equal |
| `SmallMemLive.AllocMeans` | rt-thread/src/mem.c:279-407 | a request is rounded to a multiple of 4 of at least 12 (to 12 where the sum wraps); the lowest free block with that much room gives exactly that much when a header and 12 bytes are left over, which become one free block, and otherwise all of it; without room nothing happens |
| `SmallMemLive.LiveFreed` | rt-thread/src/mem.c:516-560 | a release takes exactly its block from those handed out |
| `SmallMemLive.ReallocMeans` | rt-thread/src/mem.c:422-506 | a block of the right size stays, one with more than 24 bytes to spare is cut to the size, and any other is exchanged for a new one found while it is still there, or stays when there is none; size 0 frees |
| `SmallMemSpec.AllocFreeRoundTrip` | rt-thread/src/mem.c:304-407 | freeing what was just allocated restores the block list, split or not, and with it cursor and accounting |
| `SmallMemSpec.EmptyHeapIsWhole` | rt-thread/src/mem.c:125-163 | a heap with nothing allocated is the one block it began as |
| `SmallMemSpec.PayloadsDisjoint` | rt-thread/src/mem.c:355-403 | payloads are aligned, inside the heap and disjoint |
| `SmallMemSpec.DemandCovers` | rt-thread/src/mem.c:289-300 | rounding covers a request exactly when it is at most 2^32 minus the alignment; above that it wraps |
| `SmallMemSpec.CarveKeeps` | rt-thread/src/mem.c:317-386 | taking a block keeps the shape and adds its span to used |
| `SmallMemSpec.PlugHolesKeeps` | rt-thread/src/mem.c:125-163 | joining around one freed block restores the shape |
| `SmallMemSpec.ReleaseKeeps` | rt-thread/src/mem.c:545-559 | releasing a block keeps the shape and subtracts its span from used |
| `SmallMemSpec.ShrinkKeeps` | rt-thread/src/mem.c:457-486 | cutting the tail off a used block keeps the shape, however small the piece |
| `SmallMemHeap.DivideLinked` | rt-thread/src/mem.c:332-361 | on the headers: a split writes a well-linked remainder and redirects the prev of the block behind it |
| `SmallMemHeap.MergeLinked` | rt-thread/src/mem.c:135-161 | on the headers: joining two neighbours leaves a well-linked list |
| `SmallMemHeap.PlugLowest` | rt-thread/src/mem.c:137-159 | joining keeps the cursor at the lowest free block |
| `SmallMemHeap.DividePayloads` | rt-thread/src/mem.c:332-361 | a split disturbs no live payload |
| `SmallMem.Region` | rt-thread/src/mem.c:189-206 | the heap derived from a region is aligned and inside it, and refused only for lack of room |
| `SmallMem.SmallMem.constructor` | rt-thread/src/mem.c:214-242 | the initial heap is one free block between the two end items |
| `SmallMem.SmallMem.PlugHoles` | rt-thread/src/mem.c:125-163 | joins forward and backward, keeps chain, cursor and payloads |
| `SmallMem.SmallMem.AdvanceCursor` | rt-thread/src/mem.c:388-397 | the cursor ends at the lowest free item, or at the end |
| `SmallMem.SmallMem.FindFit` | rt-thread/src/mem.c:308-317 | the search finds the lowest free item that is large enough, or none exactly when there is none |
| `SmallMem.SmallMem.Alloc` | rt-thread/src/mem.c:279-407 | exact first fit on the heap array: which block is taken, how much of it, what becomes of the rest, and null only when no free block has room; other payloads untouched; max is the peak of used |
| `SmallMem.SmallMem.Free` | rt-thread/src/mem.c:516-560 | exactly the given block leaves those handed out, and is joined; other payloads untouched; null is ignored |
| `SmallMem.SmallMem.Resize` | rt-thread/src/mem.c:457-506 | the block stays where it is when its size is right or enough can be cut off, and otherwise moves to the first fit, or fails when there is none; max is unchanged in place and the peak of both copies on a move; the first min(old, new) bytes are kept, and on failure everything |
| `SmallMem.SmallMem.Realloc` | rt-thread/src/mem.c:422-506 | null allocates at the first fit, zero frees, otherwise null comes back exactly when the block must move and nothing fits; max is the peak passed through; the first min(old, new) bytes are kept, and a failure changes nothing |
| `SmallMem.SmallMem.CopyPayload` | rt-thread/src/mem.c:500-503 | the copied cells arrive and no other payload changes |
| `LwrbSpsc.FifoAcrossInterleavings` | common/LwRB/lwrb.c:174-297 | over every interleaving of index loads, byte copies and index stores of one writer and one reader, the bytes read are a prefix of the bytes written, no unread byte is overwritten and at most size - 1 are held |
| `LwrbSpsc.WriteCompletes` | common/LwRB/lwrb.c:174-219 | a write left alone publishes as much as fits, or nothing under WRITE_ALL when it does not fit |
| `LwrbSpsc.ReadCompletes` | common/LwRB/lwrb.c:253-297 | a read left alone takes as much as is held, or nothing under READ_ALL when it is not there |
| `LwrbSpsc.StepKeeps` | common/LwRB/lwrb.c:174-297 | every step keeps the unread bytes intact although each side acts on a stale index of the other |
| `LwrbIndex.Level` | common/LwRB/lwrb.c:355-433 | from the two indices alone fill level and free space are exact, on any lap |
| `LwrbIndex.Transfer` | common/LwRB/lwrb.c:193-219 | linear part and overflow part touch the cells of consecutive stream positions and publish the next one |
| `Lwrb.TwoBlocksSuffice` | common/LwRB/lwrb.c:469-574 | linear lengths are 0 exactly for an empty, or a full, ring; two linear blocks drain or fill it; full plus free is size - 1 |
| `Lwrb.Ring.constructor` | common/LwRB/lwrb.c:70-82 | a new ring is empty |
| `Lwrb.Ring.GetFree` | common/LwRB/lwrb.c:355-390 | free space is size - 1 less what is held |
| `Lwrb.Ring.GetFull` | common/LwRB/lwrb.c:399-433 | the count is the length of what is held |
| `Lwrb.Ring.Reset` | common/LwRB/lwrb.c:442-449 | the ring is empty |
| `Lwrb.Ring.WriteEx` | common/LwRB/lwrb.c:174-219 | appends as much as fits, or nothing under WRITE_ALL; succeeds exactly when something was to be written and room was there |
| `Lwrb.Ring.ReadEx` | common/LwRB/lwrb.c:253-297 | delivers and drops the front, or nothing under READ_ALL; succeeds exactly when something was wanted and there |
| `Lwrb.Ring.Peek` | common/LwRB/lwrb.c:308-347 | delivers a middle part and changes nothing |
| `Lwrb.Ring.Skip` | common/LwRB/lwrb.c:503-520 | drops the front |
| `Lwrb.Ring.Advance` | common/LwRB/lwrb.c:587-604 | lengthens what is held at its end |
| `Lwrb.Ring.ReadByPeekAndSkip` | common/LwRB/lwrb.c:253-347 | a peek at the front and a skip of what was peeked have the effect of a read |
| `Lwrb.Ring.Find` | common/LwRB/lwrb.c:621-663 | finds the least matching offset at or after the start, or none exactly when none exists |
| `AtSpec.QueuesBounded` | common/AT Command/at_chat.c:379-439 | over every run list_cnt is the length of both queues and exceeds the limit by at most the number of concurrent producers (one, for one producer), the cursor is the head of a queue, and items of one priority are taken up in the order of submission |
| `AtTurns.HighFirst` | common/AT Command/at_chat.c:820-842 | over every run an item is started only by a poll that finds nothing at the cursor, from the head of its queue, and a low one only while no high one is queued |
| `AtTurns.PollStarts` | common/AT Command/at_chat.c:820-842 | such a poll starts an item whenever one is queued |
| `AtTurns.StepMeans` | common/AT Command/at_chat.c:379-854 | what each step does to queues, items, timers and match: when a line is sent, retried, passed over or given up, and with which verdict |
| `AtTurns.Verdict` | common/AT Command/at_chat.c:487-554 | over every run, when a command is called back: ERROR or TIMEOUT only after retry + 1 transmissions, ERROR exactly with an error in the response, TIMEOUT with neither error nor suffix and more than its timeout since the last one, OK with the suffix found |
| `AtSpec.LimitPassedIff` | common/AT Command/at_chat.c:403-439 | the number of queued items can pass the limit, when what was created is submitted, exactly if some creation succeeded while the items queued and those yet to be submitted came to the limit |
| `AtSpec.LimitExceeded` | common/AT Command/at_chat.c:403-439 | for every number of producers some run from the start ends with the limit exceeded by one for each of them |
| `AtSpec.CommandsBounded` | common/AT Command/at_chat.c:487-611 | over every run, whoever aborts whenever: a single command is transmitted at most retry + 1 times and a line list at most max(retry, 1) times a line; nothing is called back twice, and an item in state ABORT has code ABORT |
| `AtSpec.AbortIsFinal` | common/AT Command/at_chat.c:1087-1102 | an item aborted in a queue, out of reach of a handler, keeps state and code ABORT for ever, is not sent again, is not called back again, and never if its handler had not finished |
| `AtSpec.AbortFinalIff` | common/AT Command/at_chat.c:845-1102 | an abort holds for ever, without another transmission or callback, exactly for items that are not at the cursor of a poll past its state test; a command in its retry pause is not in danger even there, since its handler then only waits |
| `AtSpec.AbortedIsSent` | common/AT Command/at_chat.c:487-845 | a run from every start in which a command aborted between test and handler is transmitted all the same |
| `AtSpec.AbortedIsCalledBack` | common/AT Command/at_chat.c:508-845 | a run from every start in which a command aborted between test and handler is called back with OK and ends in state FINISH |
| `AtSpec.PollIsRun` | common/AT Command/at_chat.c:817-854 | a poll that nobody disturbs is a run of its steps and ends between polls |
| `AtSpec.CommandsEnd` | common/AT Command/at_chat.c:487-554 | a command or line list that has not ended has had no more overdue handler calls than it had stages left: it ends as the clock advances, whatever else happens |
| `AtSpec.StepKeeps` | common/AT Command/at_chat.c:379-854 | every step keeps count, queues, order of starts and the account of each item |
| `AtSpec.StepShrinks` | common/AT Command/at_chat.c:487-605 | a handler that runs late uses up a stage of the current item or ends it; no other step adds one |
| `AtSpec.FinalStays` | common/AT Command/at_chat.c:817-854 | no step changes, sends or calls back a recycled item, or an aborted one that no handler is about to act on |
| `AtChat.AtEngine.constructor` | common/AT Command/at_chat.c:861-905 | a new engine is idle with empty queues |
| `AtChat.AtEngine.CreateWorkItem` | common/AT Command/at_chat.c:396-428 | the check for room, made without the lock of the later increment |
| `AtChat.AtEngine.SubmitWorkItem` | common/AT Command/at_chat.c:430-439 | the item joins the tail of the queue of its priority and is counted |
| `AtChat.AtEngine.Receive` | common/AT Command/at_chat.c:793-803 | an overflowing response clears the buffer first; the count stays below its size |
| `AtChat.AtEngine.DoCmdHandler` | common/AT Command/at_chat.c:487-554 | one poll of a single command transmits exactly in the send stage, calls back exactly once and finishes exactly when it is done, touches no other item, and keeps the account of tries |
| `AtChat.AtEngine.SendMultilineHandler` | common/AT Command/at_chat.c:559-611 | one poll of a line list transmits exactly when a line is due, calls back exactly once and finishes exactly when it is done, touches no other item, and keeps the account of tries |
| `AtChat.AtEngine.RecycleItem` | common/AT Command/at_chat.c:379-388 | the item leaves the front of its own queue, the rest and the other queue stay in order, and the count is again the length of both |
| `AtChat.AtEngine.WorkProcess` | common/AT Command/at_chat.c:817-854 | a poll that nobody disturbs is a run of the machine, ends between polls and keeps the invariant |
| `AtChat.AtEngine.TestItem` | common/AT Command/at_chat.c:820-845 | taking up the next item, a high one first, and testing its state is the test step and keeps the invariant |
| `AtChat.AtEngine.ServeItem` | common/AT Command/at_chat.c:845-849 | the handler with its mark is the serve step and keeps the invariant, also for an item aborted since the test |
| `AtChat.AtEngine.AbortEverything` | common/AT Command/at_chat.c:1087-1102 | the two loops abort exactly the queued items |
| `Calendar.RoundTrip` | bsp/src/bsp_rtc.c:57-122 | decoding the day number of a date gives the date back exactly when it is not 31 December of a leap year, which decodes to day 1 of a month 13 |
| `Calendar.WeekdayIsRight` | bsp/src/bsp_rtc.c:20-35 | for every date from 1970 to 2099 the weekday formula is (days since 1970-01-01 + 4) mod 7 |
| `Calendar.SecondsFit` | bsp/src/bsp_rtc.c:124-147 | every time RTC_Set accepts fits the 32-bit counter |
| `Calendar.SecondsSplit` | bsp/src/bsp_rtc.c:113-118 | the counter splits into the day and the time of day it was made of |
| `Calendar.OneDate` | bsp/src/bsp_rtc.c:57-122 | a day number belongs to one date only |
| `Calendar.DecodesOne` | bsp/src/bsp_rtc.c:57-122 | a day number is decoded in one way only, so the cache agrees with recomputation |
| `Rtc.Clock.constructor` | bsp/src/bsp_rtc.c:57-60 | the day cache starts fresh |
| `Rtc.Clock.Get` | bsp/src/bsp_rtc.c:57-122 | after any calls the cached date is what its day decodes to; only a fresh clock on day 0 keeps showing no date; the time of day is that of the counter; the week index is the weekday less one, so -1 on a Sunday, before its conversion to the enumeration |
| `Rtc.Clock.Set` | bsp/src/bsp_rtc.c:124-147 | the counter is the day number in seconds plus the time of day; years outside 1970 to 2099 are refused and change nothing |
| `Rtc.SplitYear` | bsp/src/bsp_rtc.c:69-90 | the year loop ends in the year of the day, or on its leap-year exit one year late with 365 days left |
| `Rtc.SplitMonth` | bsp/src/bsp_rtc.c:92-111 | the month loop ends in the month of the day; a whole year ends in month 13 |
| `Rtc.SetThenGet` | bsp/src/bsp_rtc.c:57-147 | a date set on a clock whose cache is the decoding of its day reads back unchanged exactly when it is not 31 December of a leap year, weekday included, and so does the time of day |
| `Rtc.Clock.ReadBack` | bsp/src/bsp_rtc.c:57-147 | setting and then reading, whatever the cache holds: the date comes back, with its weekday, exactly when it is not 31 December of a leap year; only a fresh clock set to 1970-01-01 shows no date; the time of day always comes back |
| `Printf.Vsnprintf` | rt-thread/src/kservice.c:886-1146 | for every format, arguments and size: the result is the length of the untruncated output, the buffer holds as much of it as fits and a NUL, and nothing else is written (section 7.21.6.12 of ISO/IEC 9899:2011) |
| `Printf.Sink.PrintNumber` | rt-thread/src/kservice.c:713-871 | the loops over the shrinking size put out the number as laid out by the specification |
| `Printf.MakeDigits` | rt-thread/src/kservice.c:773-779 | the digits go to tmp low one first, at most 10 of its 16 places |
| `Printf.Parse` | rt-thread/src/kservice.c:926-985 | flags, width, precision and qualifier are parsed as specified, and as C reads them |
| `Printf.Sink.Convert` | rt-thread/src/kservice.c:990-1128 | every conversion letter puts out what its specification says and leaves format and arguments where it says |
| `Printf.Sink.Fill` | rt-thread/src/kservice.c:794-799 | a padding loop puts out its count of characters and leaves the counter below zero |
| `PrintfSpec.DigitsValue` | rt-thread/src/kservice.c:662-697 | reading the digits back gives the number |
| `PrintfSpec.DigitsFit` | rt-thread/src/kservice.c:733-737 | no word needs more than 10 digits |
| `PrintfSpec.NumberLength` | rt-thread/src/kservice.c:781-868 | a number is as long as its width asks for, or as sign, precision and digits need; an explicit precision of 0 drops the digits |
| `PrintfSpec.OctalIsHex` | rt-thread/src/kservice.c:674-697 | an octal conversion prints hexadecimal digits, since the division knows no base 8 |
| `PrintfFormat.NumberRightIff` | rt-thread/src/kservice.c:781-868 | for every format and arguments: the field that d, i, u, x or X puts out is the one section 7.21.6.1 of ISO/IEC 9899:2011 asks for, a negative * precision counting as none and # as a prefix, exactly when no prefix is due and the format names no precision, or a positive one without padding by zeros, or precision 0 for a zero that needs no padding |
| `PrintfFormat.OctalRightIff` | rt-thread/src/kservice.c:674-697 | for every format and arguments: the field of an octal conversion is the one the same section asks for exactly for numbers below 8 under the conditions of the other conversions, and with # only where the padding happens to put out the zero asked for |
| `PrintfFormat.StringRightIff` | rt-thread/src/kservice.c:1002-1036 | for every format and arguments: the field of a string conversion is the one the same section asks for exactly when the width is not smaller than what is to be put out, or precision 0 meets only blanks that the width has room for |
| `PrintfFormat.ParserReads` | rt-thread/src/kservice.c:926-985 | the parser reads a specification as section 7.21.6.1 does: each flag exactly if its character is among the flag characters, width and precision as the decimal numbers that stand there or the next argument, a negative width as a minus flag, and the place of the letter |
| `PrintfFormat.ReadsOnce` | rt-thread/src/kservice.c:926-985 | no specification can be read in two ways |
| `PrintfFormat.CharacterRight` | rt-thread/src/kservice.c:996-1017 | a character comes out in the field that C asks for, always |
| `PrintfFormat.PointerField` | rt-thread/src/kservice.c:1051-1066 | a pointer without a precision comes out as a hexadecimal number in its width, or in eight digits |
| `PrintfFormat.GoesOn` | rt-thread/src/kservice.c:916-1104 | plain text, percent signs and unknown letters come out as they are; every conversion goes on behind its letter with the next argument |
| `PrintfFormat.TurnByTurn` | rt-thread/src/kservice.c:916-1128 | the whole output is that of one turn and then that of the rest of the format with the arguments left |
| `PrintfFormat.PlainFormat` | rt-thread/src/kservice.c:916-924 | a text without percent signs comes out as it is |
| `PrintfFormat.DigitsLook` | rt-thread/src/kservice.c:773-779 | a numeral has no leading zero and only decimal digits and letters of the case asked for |
| `PrintfSpec.WholeIff` | rt-thread/src/kservice.c:1002-1036 | without a precision a string is whole exactly when the width does not fall short of it |
| `ButtonSpec.StartEventsOnce` | common/FlexibleButton/flexible_button.c:172-236 | for thresholds in order, a press of any length reports each start event once and in order exactly when the hold threshold is below 65535 |
| `ButtonSpec.LongPress` | common/FlexibleButton/flexible_button.c:200-236 | a fresh press held for n scans, past any counter wrap, has reported exactly the events of the thresholds crossed |
| `ButtonSpec.PressAndRelease` | common/FlexibleButton/flexible_button.c:238-264 | a release adds exactly one up event, classified by the length of the press, or opens a click |
| `ButtonSpec.UpEventIff` | common/FlexibleButton/flexible_button.c:172-264 | for thresholds in order up to a hold threshold of 65535: the up event tells the length of a press of any length exactly when the hold threshold is below 65535, or the counter has not wrapped, or it stands at 65535 again |
| `ButtonSpec.StartsTwice` | common/FlexibleButton/flexible_button.c:172-179 | with the hold threshold at 65535 the counter wraps and a press long enough reports its short start twice |
| `ButtonSpec.ClicksCounted` | common/FlexibleButton/flexible_button.c:258-288 | any number of quick clicks and the rest of the interval give one press and one click event with their number |
| `ButtonScan.ScanMeans` | common/FlexibleButton/flexible_button.c:172-288 | one scan, case by case: counter, stage, clicks, stored event and what is reported |
| `ButtonScan.ClicksThenHold` | common/FlexibleButton/flexible_button.c:196-236 | a press after clicks that is held past the interval reports the clicks and then its start events, each once, counted from there |
| `FlexibleButton.FlexButton.Process` | common/FlexibleButton/flexible_button.c:172-292 | one scan of a button object is the step of the stage machine, with the callbacks that its counter, stage and thresholds call for |
| `FlexibleButton.Registry.Register` | common/FlexibleButton/flexible_button.c:93-131 | a new button is put in front and its level in its bit; a second registration is refused |
| `FlexibleButton.Registry.Read` | common/FlexibleButton/flexible_button.c:139-155 | the bit of each button says that its own pin is at the level of a press; the k-th registered reads bit k - 1 |
| `FlexibleButton.Registry.Process` | common/FlexibleButton/flexible_button.c:164-296 | every button takes the step its bit calls for, and the result counts the buttons in use |
| `FlexibleButton.Registry.Scan` | common/FlexibleButton/flexible_button.c:139-296 | a scan steps every button by whether its own pin is at its level of a press, and returns the number of those in use |
| `Varint.Store` | common/LwUtil/lwutil.c:149-168 | the store succeeds exactly when the minimal encoding fits, and otherwise leaves the beginning of it |
| `Varint.Load` | common/LwUtil/lwutil.c:111-134 | the load returns count and value of the number in front, or nothing when it does not end |
| `Varint.RoundTrip` | common/LwUtil/lwutil.c:111-168 | a stored number is loaded back from any buffer that begins with its bytes |
| `Varint.PrefixFails` | common/LwUtil/lwutil.c:111-134 | a proper nonempty part of an encoding loads as an error |
| `Varint.LebMinimal` | common/LwUtil/lwutil.c:149-168 | the encoding has as many bytes as the number has base-128 digits (unsigned LEB128, section 7.6 of DWARF Version 4) |
| `Varint.LebBytes` | common/LwUtil/lwutil.c:149-168 | byte n of an encoding holds digit n of the number in base 128, with bit 7 set in all bytes but the last |

## Left out

- Context switching, interrupt masking and nesting: an interrupt-disabled section is one step; assembly is not part of this model.
- SMP branches, signals, hooks and the object registry: not in this build, or without effect on the state modelled.
- The timer wheel (timer.c is not part of this model): an armed timeout may fire in any step while its thread is suspended. The tick arithmetic that shortens a timeout after a wake-up is the choice, at each retry, whether it has run out.
- Deleting and detaching IPC objects and threads, and a thread that exits or sleeps while it holds a mutex.
- Semaphores, rt_tick_from_millisecond and allocation statistics calls: they would only add easy members.
- MessageQueueSpec.StepKeeps: a payload is copied in one step of its own, not byte by byte; slots are numbered instead of addressed.
- MessageQueueRuns.WakesMostUrgent: the priorities of the threads are fixed; the source leaves a waiting thread where it is in its list when its priority changes.
- MailboxSpec.WakesMostUrgent: the priorities of the threads are fixed, as for message queues.
- MutexSpec.PriorityInheritance: for threads that hold or await one mutex at a time and no other priority changes; what happens without this discipline is `MutexInversion.InversionIff`.
- MutexKernel.Kernel.ChangePriority: the ready lists it also moves are in `SchedulerSpec`.
- SchedulerSpec.StepKeeps: the list that an IPC object keeps of a suspended thread is not part of the scheduler state; the status word is its state and its YIELD bit. A run of `SchedulerSpec.MostUrgentThreadRuns` is one in which the idle thread neither suspends nor exits. The lock nest is unbounded where the source has 16 bits.
- EventSpec.StepKeeps: a receive with neither AND nor OR is excluded, as the source asserts it away; the priorities of the threads are fixed.
- SmallMem.SmallMem.Alloc: a byte of the heap is a cell, and each header field is kept in one cell of its header instead of four bytes; names of owners under RT_USING_MEMTRACE are left out. The stale prev of heap_end is outside the prev invariant.
- SmallMem.Region: regions whose end would wrap around the address space are excluded.
- LwrbSpsc.FifoAcrossInterleavings: sequentially consistent memory; weaker orders, event callbacks and the reset, which is documented as not thread safe, are left out. lwrb_overwrite and lwrb_move are declared but not defined in this repository.
- Lwrb.Ring.Find: the sum of length and start offset is unbounded; a sum that wraps at 2^32 is not modelled.
- AtSpec.CommandsEnd: the clock does not wrap at 2^32 ms. Custom senders and callbacks leave the engine alone; a user's polled work is a choice of its result in each poll, without the delay it may ask for.
- AtSpec.CommandsBounded: what strstr finds in the response is a choice of each poll; the response buffer appears by its length.
- AtSpec.AbortFinalIff: for a response buffer of more than the 64 bytes that one read delivers at most. A handler and its mark are one step, so an abort falls before or after them; taking up an item and testing its state are one step too. The error hook of the adapter is not counted as a callback.
- URC matching and raw transparent mode of the AT library: buffers and callbacks of their own, without effect on the work queues.
- Rtc.Clock.Get: outside months 1 to 12 RTC_Get_Week reads beyond its table; what it reads is a parameter.
- Printf.Vsnprintf: the writable size is part of the buffer; the adjustment for a size that wraps past the end of memory is not modelled. Widths in the format are unbounded, and a missing argument reads as zero.
- PrintfFormat.NumberRightIff: flags that C leaves undefined for a conversion ('#' with d, i and u; '0' and '#' with s) are taken as ignored by the standard; `%p` is implementation-defined and has no such lemma.
- FlexibleButton.Registry.Read: for at most 32 buttons, each with a read function that returns 0 or 1; beyond that the shifts are undefined. The debounce setting is unused in the source.
- Varint.Load: numbers that end, or buffers that end, within five bytes; the shift of a sixth group is undefined.
- Board code (LCD, LED, ADC, watchdog, vendor drivers), finsh, logging and device layers: register writes and thin wrappers.
