# Verified model of the WASM operator runtime

Two pieces of this repository decide whether an operator keeps working while it is idle, swapped out and woken up again:
the delay queue that is compiled into every guest, and the parent's event loop that swaps guests out and hands them
their results. This project models both in Dafny and proves what they are for.

**The delay queue** (`pkg/wasm-delay-queue`). `Words` and `Digits` hold the 64-bit arithmetic and show that it is
arithmetic on base-64 digits. `Storage` is the slab with its remapped keys, `Stacks` the linked lists threaded through
it, `Levels` one level with its occupancy word. `Placement` states where entries sit between operations and in the
middle of a poll; `Wheels` proves that the wheel is a priority queue. `Filing`, `Time` and `DelayQueues` add the stack
of expired entries, milliseconds and the host's timers, and the queue itself; `QueueRuns` speaks of whole runs.

**The parent operator** (`pkg/controller/src/modules`, `pkg/kube-runtime-abi`). `Swapping` is the way of a guest to the
swap file and back, and runs with and without swaps. `Runtimes` is the state machine of one module with its permit, and
any number of modules taking turns at their await points. `Requests` holds the operations, the channel, and the guest's
table of pending ids. `Controllers` is the event loop that ties them together, one pass of it also as a function on
values that the methods are proved against; `LostAnswers` is a counterexample.

Objects the source updates in place are classes here. Their ghost state is small: `threads` (which entry is stacked
where), `asked` (the instants callers asked for), `awake` and `alarm` (whether the waiting task has been woken, and when
the host is going to), `flow` (all messages ever sent, delivered or on their way) and `history` (all that was ever
scheduled for a guest). Assertions, `unwrap`s and `unreachable!()` branches of the source
appear as `assert`s, as preconditions of what is called, or as outcomes proved impossible. Clocks, host timers, swap
files that become ready, permits, servers and guests are parameters or non-deterministic choices.

## Results

* The wheel is a priority queue, through cascades that leave entries misplaced between two steps of a poll; every poll
  terminates, by the sum of the levels.
* The queue yields an earliest entry of expired stack and wheel together, so drains are sorted. It yields less than a
  millisecond before the reported deadline. That is not before the instant asked for, and less than a millisecond after
  it, unless the queue had got further by then.
* A task that an armed queue tells to wait is woken no later than anything in the queue is due, and insertion,
  removal, clearing and compaction keep it so (`DelayQueue.Attended`, which speaks of the waker the queue keeps and of
  the instant the host was asked to wait for, less than a millisecond before the end of the sleep the task was polled
  into). It does not sleep on once the host has woken it. `reset_at` need not: afterwards the task is still woken in time if and only if it
  was awake, or is woken by the new instant anyway. After that an insertion, too, may go unnoticed: if and only if the
  task sleeps, the queue's sleep ends by the new instant, and the one the task was polled into ends after it.
* The queue's sleep ends no later than anything on the wheel is due (`DelayQueue.Armed`), except that `reset_at` without
  a sleep leaves it so if and only if the new instant is not after `elapsed`. It ends no later than anything in the whole
  queue is due (`DelayQueue.WakesInTime`) after every poll that waits, and insertion keeps it so; after `remove` and
  `reset_at` it does if and only if the queue is empty, or there is a sleep and nothing is overdue, or it ends at
  `elapsed`. An armed queue that is polled only asks to wait when nothing in it was due at the time of the call.
* `compact` is invisible through the keys already handed out.
* Swapping is invisible in a guest's memory, exported globals and context, over all runs of any number of modules, if and
  only if the guest can do without the instance state that the snapshot leaves out (tables, globals that are not
  exported): wherever swaps and calls lead it, it makes the same of the next call when that state is a new instance's.
  Resting with nothing in that state is enough, and more than is needed.
* Permits are conserved under every interleaving, so live instances never exceed the pool.
* What a guest asks for is taken from its own reactions. However its calls keep the table of pending ids in its memory,
  that table has the ids the host still owes answers to, through all swaps.
* Every message reaches the guest under a registered id, the last one and only that one marked finished. Head and body
  of a plain answer, head and chunks of a stream arrive in order with the server's values, and are complete once the
  guest waits no longer. A guest's future gives all of them if and only if it is polled between any two wake-ups.
* A pass of the event loop swaps exactly when it is time to, in nanoseconds of prediction and last event.
* The event loop may end with messages left in the channel, when the pending work waits as it is polled first and no
  longer as it is polled again: when the loop ends, the guest waits for nothing if and only if the channel is empty.

Four properties do not hold of the code as one might first state them; each has its exact condition.

* The bound that `Wheel::insert` checks does not keep the level index in range (`Digits.DurationBoundIsNotEnough`;
  `Wheels.TurnedTooFar` is a wheel that gets there); it is in range exactly when both instants agree from bit 36 upwards
  (`Digits.LevelInRangeIff`).
* A waiting task may be woken late. `DelayQueues.ResetIntoThePast` makes an entry due an hour before the task wakes,
  `DelayQueues.InsertUnnoticed` inserts one 29 ms or more before it does, and `DelayQueues.ResetWithoutSleep` leaves the wheel
  without a sleep. The contracts of `DelayQueues.DelayQueue.ResetAt`, `InsertAt` and `Remove` say when.
* Swapping may show (`Swapping.SwappingMayShow` is a guest whose memory differs after three events);
  `Swapping.SwapTransparency` and `Runtimes.SwappingGoesUnnoticed` say when.
* A finished event loop need not have delivered everything (`LostAnswers.LoseAnswer` runs one in two passes);
  `Controllers.ControllerModule.FinishedIffDelivered` says when.

## Model

| member | source | states |
|---|---|---|
| Digits.LevelForIsTopDigit | pkg/wasm-delay-queue/src/wheel/mod.rs:249-259 | the xor, mask and leading-zeros computation gives the highest base-64 digit in which two instants differ, 0 if none |
| Digits.LevelInRangeIff | pkg/wasm-delay-queue/src/wheel/mod.rs:103-106 | the level is one of the six exactly when both instants agree from bit 36 upwards |
| Digits.DurationBoundIsNotEnough | pkg/wasm-delay-queue/src/wheel/mod.rs:97-104 | two instants within the largest duration whose level is out of range |
| Wheels.TurnedTooFar | pkg/wasm-delay-queue/src/wheel/mod.rs:97-104 | polling a new wheel to the last millisecond before bit 36 turns leaves it where the next millisecond has no level |
| Digits.SlotIsDigit | pkg/wasm-delay-queue/src/wheel/level.rs:232-234 | shift and remainder give the base-64 digit at the level |
| Digits.DeadlineFacts | pkg/wasm-delay-queue/src/wheel/level.rs:138-143 | a slot's deadline has the slot as its digit, agrees with now above it and is zero below it |
| Words.FirstSetBit | pkg/wasm-delay-queue/src/wheel/level.rs:169-171 | after rotating right, the trailing zeros count the places to the first set bit, going round |
| Levels.FirstFromIsFirst | pkg/wasm-delay-queue/src/wheel/level.rs:162-174 | rotate and trailing-zeros find the occupied slot that comes first going round from the current one |
| Levels.Level.constructor | pkg/wasm-delay-queue/src/wheel/level.rs:41-123 | a new level agrees with any storage in which its slots are empty |
| Levels.Level.AddEntry | pkg/wasm-delay-queue/src/wheel/level.rs:176-181 | the entry goes on top of the stack of its slot, all other stacks stay, and bits still tell which slots hold entries |
| Levels.Level.RemoveEntry | pkg/wasm-delay-queue/src/wheel/level.rs:183-195 | the entry leaves its slot's stack from wherever it is, the others keep their order, and bits stay exact |
| Levels.Level.PopEntrySlot | pkg/wasm-delay-queue/src/wheel/level.rs:197-208 | the top of the slot's stack leaves, none if it is empty, and bits stay exact |
| Stacks.Stack.Push | pkg/wasm-delay-queue/src/delay_queue.rs:1090-1104 | the chain of the stack grows by the item at its head and every chain stays doubly linked |
| Stacks.Stack.Pop | pkg/wasm-delay-queue/src/delay_queue.rs:1106-1121 | the head of the chain leaves without links, none on an empty chain |
| Stacks.Stack.Holds | pkg/wasm-delay-queue/src/delay_queue.rs:1128-1145 | the walk of the debug assertion finds the item exactly when the chain has it, and once at most |
| Stacks.Stack.Remove | pkg/wasm-delay-queue/src/delay_queue.rs:1123-1159 | the item leaves the chain from any position, its neighbours are joined, it keeps no links |
| Stacks.PushKeepsLinked | pkg/wasm-delay-queue/src/delay_queue.rs:1095-1103 | after a push next and prev are inverse along all chains, and each entry is on one chain once |
| Stacks.RemoveKeepsLinked | pkg/wasm-delay-queue/src/delay_queue.rs:1147-1158 | the same after taking out any entry |
| Stacks.UnlinkSteps | pkg/wasm-delay-queue/src/delay_queue.rs:1147-1158 | the four writes of a removal, in the order of the code, are the joining of the neighbours |
| Placement.PlacedIsComputed | pkg/wasm-delay-queue/src/wheel/mod.rs:119-132 | the placement invariant holds of an entry exactly when it sits at the level and slot computed from the present elapsed |
| Placement.SlotDeadline | pkg/wasm-delay-queue/src/wheel/level.rs:138-153 | the slot of a placed entry is not past, and deadline <= when < deadline + slot range, with equality on level 0 |
| Placement.NoWrap | pkg/wasm-delay-queue/src/wheel/level.rs:167-171 | placed entries never wrap: first going round is lowest |
| Placement.HigherLevelIsLater | pkg/wasm-delay-queue/src/wheel/mod.rs:175-177 | what is settled on a higher level is due after every slot of a lower one |
| Placement.FirstOccupiedIsFirstHit | pkg/wasm-delay-queue/src/wheel/mod.rs:171-184 | the first occupied slot of the lowest non-empty level is not after any entry of the whole wheel, in mid-cascade too |
| Placement.NoExpirationBefore | pkg/wasm-delay-queue/src/wheel/mod.rs:187-199 | no slot of a higher level falls due at or before the first hit |
| Placement.HitBrackets | pkg/wasm-delay-queue/src/wheel/level.rs:141-153 | all entries of the hit's slot are due within its range, on level 0 at its deadline |
| Placement.CascadeKeepsPlaced | pkg/wasm-delay-queue/src/wheel/mod.rs:215-221 | moving a slot down one level (level - 1, not the computed level) and advancing keeps the mid-cascade invariant |
| Placement.HitSettles | pkg/wasm-delay-queue/src/wheel/mod.rs:142-155 | a hit on level 0 or later than elapsed means that nothing is misplaced any more |
| Placement.AdvanceKeepsPlaced | pkg/wasm-delay-queue/src/wheel/mod.rs:163 | advancing to an instant before the first hit keeps the placement of every entry |
| Placement.RemovalKeepsPlaced | pkg/wasm-delay-queue/src/wheel/mod.rs:119-132 | taking an entry off keeps both invariants |
| Placement.MoveDown | pkg/wasm-delay-queue/src/wheel/mod.rs:216-220 | one move down takes exactly one off the sum of levels |
| Placement.AtMostFiveMoves | pkg/wasm-delay-queue/src/wheel/mod.rs:141-167 | the moves still to come are at most five for each entry |
| Wheels.Wheel.constructor | pkg/wasm-delay-queue/src/wheel/mod.rs:58-62 | a new wheel starts at 0 and agrees with any storage in which its stacks are empty |
| Wheels.Wheel.Insert | pkg/wasm-delay-queue/src/wheel/mod.rs:91-116 | Elapsed or Invalid exactly in their cases and nothing changes; else the contents gain the entry and the placement holds |
| Wheels.Wheel.Remove | pkg/wasm-delay-queue/src/wheel/mod.rs:119-132 | recomputing the level from the present elapsed always finds the entry; the contents lose it and nothing else |
| Wheels.Wheel.NextExpiration | pkg/wasm-delay-queue/src/wheel/mod.rs:171-184 | none exactly on an empty wheel, else a slot no entry is due before |
| Wheels.Wheel.NoExpirationsBefore | pkg/wasm-delay-queue/src/wheel/mod.rs:187-199 | the debug assertion always holds |
| Wheels.Wheel.TierDown | pkg/wasm-delay-queue/src/wheel/mod.rs:216-220 | an entry goes on top of its slot one level down |
| Wheels.Wheel.PopEntry | pkg/wasm-delay-queue/src/wheel/mod.rs:240-242 | the top of the hit's slot leaves, all other stacks stay |
| Wheels.Wheel.PollExpiration | pkg/wasm-delay-queue/src/wheel/mod.rs:205-225 | on level 0 one entry due at the deadline leaves; above, all entries of the slot and no others move down one level |
| Wheels.Wheel.SetElapsed | pkg/wasm-delay-queue/src/wheel/mod.rs:227-238 | elapsed becomes the given instant, which is never an earlier one |
| Wheels.Wheel.Poll | pkg/wasm-delay-queue/src/wheel/mod.rs:140-168 | a poll of a priority queue: an entry exactly when one is due, then a least one, all others kept; else nothing changes and elapsed is now |
| Wheels.InsertKeepsPlaced | pkg/wasm-delay-queue/src/wheel/mod.rs:103-106 | inserting at the computed level and slot keeps the placement invariant |
| Wheels.LevelNotPast | pkg/wasm-delay-queue/src/wheel/level.rs:145-153 | the deadline a level computes is never before now |
| Wheels.MoveOneDown | pkg/wasm-delay-queue/src/wheel/mod.rs:210-222 | what one turn of the tiering loop does, over all stacks |
| Wheels.AllMovedDown | pkg/wasm-delay-queue/src/wheel/mod.rs:210-224 | when the loop ends exactly the entries of the hit's slot sit one level lower, in the slot of their digit |
| Wheels.PollTakes | pkg/wasm-delay-queue/src/wheel/mod.rs:152-154 | taking a level-0 entry is what a priority queue does, and restores the full placement invariant |
| Wheels.PollCascades | pkg/wasm-delay-queue/src/wheel/mod.rs:152-156 | a cascade shows nothing outside, keeps the mid-cascade invariant, and leaves fewer moves to come |
| Wheels.PollRests | pkg/wasm-delay-queue/src/wheel/mod.rs:158-165 | without a hit by now nothing is due by then, and the placement holds at now |
| Storage.SlabStorage.RemapKey | pkg/wasm-delay-queue/src/delay_queue.rs:278-285 | live keys lead to the cell of their entry, all others to none or to a vacant cell |
| Storage.SlabStorage.Contains | pkg/wasm-delay-queue/src/delay_queue.rs:321-328 | true exactly of live keys; a removed key is not contained until it is handed out again |
| Storage.SlabStorage.Len | pkg/wasm-delay-queue/src/delay_queue.rs:295-297 | the number of live keys |
| Storage.SlabStorage.Get | pkg/wasm-delay-queue/src/delay_queue.rs:347-358 | reading through a live key gives its entry, whatever was compacted |
| Storage.SlabStorage.Put | pkg/wasm-delay-queue/src/delay_queue.rs:360-369 | writing through a live key changes its entry and no other |
| Storage.SlabStorage.Insert | pkg/wasm-delay-queue/src/delay_queue.rs:191-213 | the key handed out is not live, and all others keep reading the same |
| Storage.SlabStorage.CreateNewKey | pkg/wasm-delay-queue/src/delay_queue.rs:287-293 | the wrapping search ends at a key that is not in use |
| Storage.SlabStorage.Remove | pkg/wasm-delay-queue/src/delay_queue.rs:231-242 | gives the entry of the key, which is not live any more; all others stay |
| Storage.SlabStorage.Compact | pkg/wasm-delay-queue/src/delay_queue.rs:249-274 | cells become 0 up to the number of entries, and every live key still reads the same entry with the same links |
| Storage.SlabStorage.Clear | pkg/wasm-delay-queue/src/delay_queue.rs:303-307 | nothing is live |
| Storage.ReadsAfterCompact | pkg/wasm-delay-queue/src/delay_queue.rs:256-267 | an injective relocation of cells, followed by the key map, keeps the key map a bijection and every entry |
| Filing.OnExactlyOneStack | pkg/wasm-delay-queue/src/delay_queue.rs:680-689 | an entry is on exactly one stack, the expired one exactly when it is flagged so, else a slot of the wheel |
| Filing.LenIsStackLengths | pkg/wasm-delay-queue/src/delay_queue.rs:295-297 | the number of entries is the length of the expired stack and of all slots of the six levels together |
| Time.MsUp | pkg/wasm-delay-queue/src/lib.rs:40-54 | rounding up gives the least number of milliseconds that covers the duration, saturating |
| Time.MsDown | pkg/wasm-delay-queue/src/lib.rs:40-54 | rounding down gives the greatest number of whole milliseconds in the duration, saturating |
| Time.MsExact | pkg/wasm-delay-queue/src/lib.rs:40-54 | whole milliseconds survive both roundings |
| Time.MillisUntilBounds | pkg/kube-runtime-abi/src/delay.rs:11-13 | the host is asked for whole milliseconds, less than one short of the deadline, exactly when it has not passed |
| Time.SleepIsNearlyOver | pkg/kube-runtime-abi/src/delay.rs:11-13 | a sleep that is elapsed or ready, after truncating its duration, ends less than a millisecond from now |
| Time.Clock.SleepUntil | pkg/wasm-delay-queue/src/sleep.rs:199-217 | a sleep registers its deadline at the present instant, and asks the host for the whole milliseconds up to it unless it has passed |
| Time.Clock.PollSleep | pkg/wasm-delay-queue/src/sleep.rs:284-287 | it is ready exactly when nothing was asked of the host or its timer has fired, so only after the milliseconds asked for |
| DelayQueues.DelayQueue.constructor | pkg/wasm-delay-queue/src/delay_queue.rs:477-489 | a new queue is empty, valid and armed, and starts now |
| DelayQueues.DelayQueue.NormalizeDeadline | pkg/wasm-delay-queue/src/delay_queue.rs:1051-1059 | the instant asked for rounded up to milliseconds, as far as 64 bits reach, or elapsed if that is later |
| DelayQueues.DelayQueue.NextDeadline | pkg/wasm-delay-queue/src/delay_queue.rs:838-842 | an instant not before elapsed and not after any entry on the wheel, none exactly when the wheel is empty |
| DelayQueues.NextHitIsLater | pkg/wasm-delay-queue/src/delay_queue.rs:720-726 | if an entry's removal changes the wheel's next deadline, the entry was due before the new one |
| DelayQueues.DelayQueue.InsertIdx | pkg/wasm-delay-queue/src/delay_queue.rs:659-672 | an entry due by elapsed goes to the expired stack, any other to the wheel |
| DelayQueues.DelayQueue.RemoveKey | pkg/wasm-delay-queue/src/delay_queue.rs:680-689 | the entry leaves whichever stack it is on, without links |
| DelayQueues.DelayQueue.InsertAt | pkg/wasm-delay-queue/src/delay_queue.rs:537-576 | a new key whose instant is the one asked for, less than 1 ms late, or elapsed; all others kept; the sleep ends at the sooner of its old end and the new instant, so it stays soon enough; the task is woken in time exactly if it is awake, the sleep was brought forward, or it wakes by then |
| DelayQueues.DelayQueue.SetDelayFor | pkg/wasm-delay-queue/src/delay_queue.rs:554-573 | comparing normalised instants brings the sleep forward, and wakes the task, exactly when it ends later or there is none |
| DelayQueues.DelayQueue.Remove | pkg/wasm-delay-queue/src/delay_queue.rs:719-739 | gives payload and deadline of the entry and keeps all others; the sleep is that for the wheel's next deadline if that has changed, none if there is none left, and else as it was; a task that is woken in time stays so; when the sleep is soon enough for the rest |
| DelayQueues.DelayQueue.RemoveAndRearm | pkg/wasm-delay-queue/src/delay_queue.rs:720-732 | the sleep is set anew only if the next deadline has changed, and then never before the sleep the task waits for |
| DelayQueues.DelayQueue.OverdueMatters | pkg/wasm-delay-queue/src/delay_queue.rs:786-790 | a sleep that is soon enough for the wheel is so for the whole queue exactly if nothing is overdue or it ends at elapsed |
| DelayQueues.DelayQueue.Rearm | pkg/wasm-delay-queue/src/delay_queue.rs:727-731 | the sleep is set for the next deadline, dropped when there is none, and the queue is armed |
| DelayQueues.DelayQueue.ResetAt | pkg/wasm-delay-queue/src/delay_queue.rs:775-791 | the entry gets the instant asked for, less than 1 ms late, or elapsed; all others stay; an armed queue stays armed exactly when it had a sleep or the instant is not after elapsed; when the sleep is soon enough for overdue entries too; a task is woken in time exactly if it is awake or wakes by the new instant |
| DelayQueues.OverdueWithoutSleep | pkg/wasm-delay-queue/src/delay_queue.rs:719-739 | inserting one overdue and one later entry and removing the later one leaves an armed queue with an entry and no sleep |
| DelayQueues.ResetWithoutSleep | pkg/wasm-delay-queue/src/delay_queue.rs:786-790 | a reset to a later instant then leaves the entry on the wheel with nothing to wake the guest |
| DelayQueues.WaitFor | pkg/wasm-delay-queue/src/delay_queue.rs:581-591 | a task that polls for a single entry and has to wait is woken when it is due |
| DelayQueues.ResetIntoThePast | pkg/wasm-delay-queue/src/delay_queue.rs:786-790 | resetting the entry it waits for to the start leaves it waiting for an hour |
| DelayQueues.ResetAhead | pkg/wasm-delay-queue/src/delay_queue.rs:786-790 | a reset from 100 to 101 ms replaces the sleep the task waits for by one that ends at 64 ms and that nobody has polled |
| DelayQueues.InsertUnnoticed | pkg/wasm-delay-queue/src/delay_queue.rs:554-573 | inserting an entry due at 70 ms then wakes nobody until 100 ms |
| DelayQueues.DelayQueue.Compact | pkg/wasm-delay-queue/src/delay_queue.rs:833-835 | nothing a caller sees changes |
| DelayQueues.DelayQueue.Clear | pkg/wasm-delay-queue/src/delay_queue.rs:910-915 | all entries leave with the sleep, over new stacks, so the next poll says that the queue is empty |
| DelayQueues.DelayQueue.AwaitDelay | pkg/wasm-delay-queue/src/delay_queue.rs:1026-1033 | when the sleep is over, wheel_now is exactly its end; while it is not, its end is not before the call, its timer has not fired, and the task is going to be woken by what was asked of the host |
| DelayQueues.DelayQueue.SleepingUntil | pkg/wasm-delay-queue/src/delay_queue.rs:1026-1029 | while an armed queue sleeps with nothing on the expired stack, nothing in it is due |
| DelayQueues.DelayQueue.PollWheelAndRearm | pkg/wasm-delay-queue/src/delay_queue.rs:1035-1047 | an earliest due entry of the whole queue, or fewer moves to come; the sleep is that for the wheel's next deadline either way, none on an empty wheel |
| DelayQueues.DelayQueue.PollIdx | pkg/wasm-delay-queue/src/delay_queue.rs:1016-1049 | an earliest entry of expired stack and wheel together, or none exactly when the queue is empty, at once when it has no sleep; waits only with nothing on the expired stack and, when armed, nothing due at the call; the loop ends |
| DelayQueues.DelayQueue.PollExpired | pkg/wasm-delay-queue/src/delay_queue.rs:581-603 | yields an earliest entry with its deadline, which is less than 1 ms from now, not before the instant asked for, and less than 1 ms after it or that of elapsed when filed; else all is kept; an armed queue waits only when nothing was due at the call, the task is then woken in time and has not been woken before; says at once that a queue without entries and sleep is empty |
| DelayQueues.ExpiredIsEarliest | pkg/wasm-delay-queue/src/delay_queue.rs:1019-1023 | entries on the expired stack are due at elapsed, and nothing is due before that |
| DelayQueues.HitIsTimely | pkg/wasm-delay-queue/src/delay_queue.rs:838-842 | the next deadline is not after any entry, and the wheel is not empty |
| QueueRuns.DrainIsSorted | pkg/wasm-delay-queue/src/delay_queue.rs:1016-1049 | while nothing is inserted or reset, entries are yielded in the order they are due, over every run |
| QueueRuns.PayloadsAreConserved | pkg/wasm-delay-queue/src/delay_queue.rs:537-603 | over every run, each payload is inserted as often as it was yielded, removed or cleared, or is still there |
| Swapping.GrowHitsIff | pkg/controller/src/modules/wasm.rs:273-282 | growing by the rounded-up page count restores the saved length exactly when it differs by whole pages |
| Swapping.SetAllIff | pkg/controller/src/modules/wasm.rs:287-292 | setting the saved globals works exactly when all of them exist, and leaves the same names |
| Swapping.SetAllIsListed | pkg/controller/src/modules/wasm.rs:287-292 | setting all globals of an instance by name gives the saved list |
| Swapping.SwapIn | pkg/controller/src/modules/wasm.rs:267-292 | growing, reading the file over the memory and setting globals one by one is the restoring of the snapshot |
| Swapping.RestoreIff | pkg/controller/src/modules/wasm.rs:273-292 | when loading works and its assertions hold, as a condition on file, snapshot and new instance |
| Swapping.RoundTrip | pkg/controller/src/modules/wasm.rs:148-179 | swapping out and in never fails, and restores memory and exported globals exactly |
| Swapping.HandleKeepsGood | pkg/controller/src/modules/wasm.rs:284-294 | no swap and no call makes an assertion fail; the guest is on disk exactly after a swap-out |
| Swapping.RunsNeverFail | pkg/controller/src/modules/wasm.rs:284-292 | no run of swaps and calls fails an assertion |
| Swapping.SwapKeepsMemory | pkg/controller/src/modules/wasm.rs:148-153 | swapping out or in keeps the memory a guest will have, and so whatever it has in it |
| Swapping.CallsArePlain | pkg/controller/src/modules/wasm.rs:299-304 | calls alone lead where the run that never swaps leads |
| Swapping.ForgettableIsTransparent | pkg/controller/src/modules/wasm.rs:135-314 | if the guest can do without what a snapshot leaves out, every run with swaps has memory, globals and context of the run without |
| Swapping.TransparentMissesNothing | pkg/controller/src/modules/wasm.rs:155-176 | if no schedule shows, swapping out before any call changes nothing the call leads to |
| Swapping.SwapTransparency | pkg/controller/src/modules/wasm.rs:135-314 | memory, globals and context are those of the run without swaps under every schedule exactly when the guest can do without the rest |
| Swapping.CleanRunsAreEqual | pkg/controller/src/modules/wasm.rs:144-181 | a guest that rests clean comes back from every swap as it was, state that no snapshot has included |
| Swapping.CleanIsForgettable | pkg/controller/src/modules/wasm.rs:144-181 | resting clean is enough |
| Swapping.CleanIsNotNeeded | pkg/controller/src/modules/wasm.rs:144-181 | a guest that does not rest clean and yet never shows a swap |
| Swapping.SwappingMayShow | pkg/controller/src/modules/wasm.rs:155-176 | a guest whose memory is one page after start, swap-out and wake-up without the swap, and empty with it |
| Runtimes.SchedulingKeepsSound | pkg/controller/src/modules/wasm.rs:131-137 | scheduling with nothing pending suits the instance and fixes what will become of the guest |
| Runtimes.TurnKeepsOutcome | pkg/controller/src/modules/wasm.rs:203-230 | between two await points no unreachable branch is taken, no assertion fails, and what will become of the guest stays fixed |
| Runtimes.TurnKeepsPermits | pkg/controller/src/modules/wasm.rs:203-220 | a turn gives and takes permits one for one, waits only for want of one, and leaves uninstantiating true exactly without an instance |
| Runtimes.TurnKeepsMemory | pkg/controller/src/modules/wasm.rs:144-181 | unless a turn runs the guest, its memory stays, wherever it is kept |
| Runtimes.OutcomeIsRun | pkg/controller/src/modules/wasm.rs:299-306 | a task that runs the guest and has ended has brought memory and context where its reaction brings them |
| Runtimes.PolledKeeps | pkg/controller/src/modules/wasm.rs:398-413 | polling keeps outcome, permits and, unless the guest runs, memory; it stops only where something is awaited |
| Runtimes.PolledEnds | pkg/controller/src/modules/wasm.rs:398-413 | with what it awaits there and a permit for the module, every piece of work ends |
| Runtimes.WaitsForWhatIsAwaited | pkg/controller/src/modules/wasm.rs:258-284 | without the permit or the swap file it awaits, the work stays where it is |
| Runtimes.InstanceLifetime | pkg/controller/src/modules/wasm.rs:144-219 | instances begin exactly where a task instantiates and end exactly where the store is taken apart |
| Runtimes.WasmRuntime.constructor | pkg/controller/src/modules/wasm.rs:113-129 | a new runtime has no instance and no work |
| Runtimes.WasmRuntime.Schedule | pkg/controller/src/modules/wasm.rs:386-396 | the work is set aside and uninstantiating says whether it swaps out |
| Runtimes.WasmRuntime.TakeInner | pkg/controller/src/modules/wasm.rs:39-67 | an instance of the wanted kind is taken out and the lock left behind, any other stays |
| Runtimes.WasmRuntime.Advance | pkg/controller/src/modules/wasm.rs:252-307 | one stage of a task, up to the next await point, is a turn of the state machine |
| Runtimes.WasmRuntime.FinishLoaded | pkg/controller/src/modules/wasm.rs:299-306 | the loaded guest runs with the call of its task, or not at all when only loading |
| Runtimes.WasmRuntime.PollUnpin | pkg/controller/src/modules/wasm.rs:398-413 | turns are taken as long as what they await is there, and no longer; ready exactly when no work is left, and always when nothing is missing; permits are conserved and what will become of the guest stays fixed |
| Runtimes.ModuleStep | pkg/controller/src/modules/wasm.rs:203-220 | any step of a module conserves permits and either keeps the outcome or starts one new event |
| Runtimes.StepConserves | pkg/controller/src/runtime/mod.rs:43 | a step of any module keeps all modules sound and the sum of permits |
| Runtimes.PoolBound | pkg/controller/src/runtime/mod.rs:43 | over all runs of any number of modules, free and held permits add up to the pool and bound the live instances |
| Runtimes.OutcomeIsHistory | pkg/controller/src/modules/wasm.rs:239-314 | however modules interleave, each guest ends up where its own events, one after the other, lead it |
| Runtimes.HistoryIsSchedulable | pkg/controller/src/modules/module.rs:83-213 | a module starts once and first, swaps out only from memory and in only from disk |
| Runtimes.Realise | pkg/controller/src/modules/wasm.rs:135-413 | every such sequence of events is one that a module goes through in some run |
| Runtimes.SwappingGoesUnnoticed | pkg/controller/src/modules/wasm.rs:135-314 | over all runs of any number of modules, each guest of a program has memory, globals and context to which its calls alone lead, exactly when it can do without what a snapshot leaves out |
| Requests.ScriptShape | pkg/controller/src/modules/runner.rs:60-159 | every request sends at least one message, all under its id, and marks the last and only the last as finished |
| Requests.IssueKeepsFlowing | pkg/controller/src/abi/mod.rs:107-120 | a request under a new id keeps the flow of all messages in order |
| Requests.SendKeepsFlowing | pkg/controller/src/modules/runner.rs:72-92 | so does sending an operation's next message |
| Requests.ReceiveKeepsFlowing | pkg/controller/src/modules/module.rs:240-242 | so does taking a message out of the channel |
| Requests.DeliverKeepsFlowing | pkg/kube-runtime-abi/src/executor.rs:90-112 | so does handing it over, which ends the registration exactly when it is the last |
| Requests.TakenIsNext | pkg/controller/src/modules/module.rs:250-288 | a message on its way is the next of its request's, whatever other requests do |
| Requests.TakenIsRegistered | pkg/kube-runtime-abi/src/executor.rs:92-97 | its id is in the guest's table, so the unwrap cannot fail; finished exactly when everything is delivered with it |
| Requests.DeliveredInOrder | pkg/controller/src/modules/runner.rs:60-159 | what the guest has got of an id is a beginning of what the request sends |
| Requests.DeliveredAnswers | pkg/controller/src/modules/runner.rs:72-159 | what the guest has been handed is head and body, head, chunks and end, or an end, as far as it has come, with the server's values, and all of it exactly when it waits no longer |
| Requests.RunsAnswer | pkg/controller/src/modules/runner.rs:72-159 | the same over all runs |
| Requests.RunsFlow | pkg/controller/src/modules/module.rs:98 | over all runs messages flow in order |
| Requests.ResultDelivery | pkg/controller/src/modules/module.rs:98 | over all runs, each message handed over names a registered id, is the next of its request, and ends the registration exactly if last |
| Requests.GuestTable.StartAsync | pkg/kube-runtime-abi/src/executor.rs:73-87 | the id is registered, with a state that has no value |
| Requests.GuestTable.Wakeup | pkg/kube-runtime-abi/src/executor.rs:90-112 | the state gets the value, an older one stays under a null pointer; the id leaves exactly when finished |
| Requests.GuestTable.PollState | pkg/kube-runtime-abi/src/executor.rs:125-137 | polling takes the value, once |
| Requests.NothingLostIffPolledBetween | pkg/kube-runtime-abi/src/executor.rs:99-137 | a future gives all values it is woken with, in order, exactly when it is polled between any two wake-ups |
| Requests.LastValueStays | pkg/kube-runtime-abi/src/executor.rs:99-106 | a value replaces one that nobody has polled, and stays under null pointers until it is polled |
| Requests.NoValueSincePoll | pkg/kube-runtime-abi/src/executor.rs:125-137 | after a poll there is no value until a wake-up brings one |
| Requests.OpsRunner.HandleRequest | pkg/controller/src/modules/runner.rs:48-160 | the request is under way, it may send at once, and nr_web_calls still counts the pending plain HTTP operations |
| Requests.OpsRunner.Send | pkg/controller/src/modules/runner.rs:105-136 | the operation's next message is added to the channel exactly if it has one and the channel holds less than ten |
| Requests.EagerSends | pkg/controller/src/abi/opcall.rs:17-28 | a request's operation is polled at once and sends what it has ready, as far as there is room |
| Requests.OpsRunner.PollNext | pkg/controller/src/modules/module.rs:225-238 | operations send in the order given; one that has sent everything is taken out, saying whether it was a web call, or one that an error has cut short |
| Requests.NothingLeftToTake | pkg/controller/src/modules/module.rs:224-247 | there is no result only when the channel is empty and no further operation could be taken out |
| Requests.FailureEnds | pkg/controller/src/modules/module.rs:233-238 | a failed operation ends the search for results at once |
| Requests.FailuresAreFailures | pkg/controller/src/modules/module.rs:233-238 | and nothing else ends it so |
| Requests.OpsRunner.PollRecv | pkg/controller/src/modules/module.rs:240-242 | the first message of the channel, none exactly when it is empty |
| Requests.GoneWebCall | pkg/controller/src/modules/module.rs:227-231 | an ended operation takes one off the web calls exactly when it is one, so the counter never underflows |
| Requests.AllDelivered | pkg/controller/src/modules/module.rs:107-112 | with no operation and an empty channel every request is answered in full and the guest waits for nothing |
| Requests.LeftInChannel | pkg/controller/src/modules/module.rs:107-112 | every message in the channel is one the guest waits for |
| LostAnswers.FirstPass | pkg/controller/src/modules/module.rs:98-204 | a pass in which a guest starts and requests a stream, and is to be swapped out |
| LostAnswers.SecondPass | pkg/controller/src/modules/module.rs:98-112 | a pass in which both messages come, the wake-up for the first waits at the first poll and not at the second, and the loop ends with the last in the channel |
| LostAnswers.LoseAnswer | pkg/controller/src/modules/module.rs:98-112 | for every instance of a guest that requests a stream as it starts, two passes of the loop that end it with a message the guest waits for |
| Controllers.ControllerModule.constructor | pkg/controller/src/modules/module.rs:55-88 | a new module has scheduled its start and nothing else |
| Controllers.ControllerModule.Issue | pkg/controller/src/abi/mod.rs:105-121 | a guest's call into the host gets a new id and registers it in the guest's table |
| Controllers.ControllerModule.HandOver | pkg/controller/src/abi/mod.rs:76-86 | a message is handed over under a registered id, which leaves the table exactly when it is the last |
| Controllers.ControllerModule.IssueEach | pkg/controller/src/abi/mod.rs:105-136 | the guest's requests get the next ids in order, and the table, runner and counter agree after them |
| Controllers.ControllerModule.RunGuest | pkg/controller/src/abi/mod.rs:48-89 | a call hands over its message and issues the guest's requests; the table after it is that of the call |
| Controllers.RunMirrors | pkg/kube-runtime-abi/src/executor.rs:73-112 | if calls keep a table in memory as they keep the guest's, the two have the same ids after every run of the guest |
| Controllers.ControllerModule.WakeupIsRegistered | pkg/kube-runtime-abi/src/executor.rs:92-97 | a wake-up names an id in the table in the guest's memory, restored or not, so the unwrap cannot fail |
| Controllers.ControllerModule.PollWasm | pkg/controller/src/modules/wasm.rs:398-413 | when the pending work ends its message is delivered and the requests the guest has made are issued, and only then; the ids in its memory stay those of its table, through swaps and runs |
| Controllers.ControllerModule.NextResult | pkg/controller/src/modules/module.rs:218-248 | ended operations are counted off until there is a result or one has failed; none only when the channel is empty |
| Controllers.ControllerModule.ResolveAsyncOps | pkg/controller/src/modules/module.rs:215-293 | schedules the wake-up for the next result exactly when there is one, and moves prediction and last event accordingly; ends with an error when an operation did |
| Controllers.ControllerModule.ResolveAll | pkg/controller/src/modules/module.rs:98 | results go to the guest one by one until it is busy or there are none, an operation has failed, or the readings end, each having brought a message |
| Controllers.MoreReadings | pkg/controller/src/modules/module.rs:98 | a pass that the readings do not cut off is the same with any more of them |
| Controllers.ResultMovesTimes | pkg/controller/src/modules/module.rs:250-286 | a result schedules its wake-up; it puts the prediction 999 days ahead exactly when the guest is on disk, and moves the last event exactly when it is a request's last |
| Controllers.SwapIsDue | pkg/controller/src/modules/module.rs:119-204 | load, uninstantiate or neither, each exactly under its condition in nanoseconds, and the prediction and flag afterwards |
| Controllers.FailureStopsTheLoop | pkg/controller/src/modules/module.rs:98 | a failed operation ends the loop, and neither results nor swaps follow |
| Controllers.OnlyFailuresFail | pkg/controller/src/modules/module.rs:98 | the loop fails only for a failed operation |
| Controllers.ControllerModule.GuestIsAnswered | pkg/controller/src/modules/runner.rs:72-159 | a module's guest has been handed the answers to its own requests, complete once it waits no longer |
| Controllers.ControllerModule.ScheduleTask | pkg/controller/src/modules/wasm.rs:390-396 | work is scheduled only when none is pending, and noted |
| Controllers.ControllerModule.ScheduleSwap | pkg/controller/src/modules/module.rs:119-204 | the one swap that is due in nanoseconds, if any, and the prediction afterwards |
| Controllers.ControllerModule.PollEventLoop | pkg/controller/src/modules/module.rs:94-213 | a pass that gets to its end without work schedules exactly the swap that is due in nanoseconds, ends the loop exactly when no operation is left, and fails exactly when one has failed; the guest has exactly the messages of its history; permits are conserved; all of it is one function of the state and the readings |
| Controllers.ControllerModule.FinishedIffDelivered | pkg/controller/src/modules/module.rs:107-112 | when the loop ends the guest waits for nothing exactly when the channel is empty |

## Left out

- DelayQueues.DelayQueue.InsertAt: the panics for too many entries and for instants that differ from `elapsed` above bit 35 are preconditions; whatever the source accepts besides is covered.
- DelayQueues.DelayQueue.ResetAt: the panics for unknown keys and for instants out of range are preconditions.
- DelayQueues.DelayQueue.Remove: the panic for unknown keys is a precondition.
- Wheels.Wheel.Insert: the out-of-bounds level of instants that differ above bit 35 is a precondition; `Digits.LevelInRangeIff` says it is the exact one.
- Controllers.ControllerModule.PollEventLoop: a pass is cut off after as many results as there are readings, because operations that always have another result keep the source's `while` turning for ever; `Controllers.MoreReadings` says that nothing else is bounded.
- Controllers.ControllerModule.NextResult: once an operation has failed, the module ends, and agreement of operations, counter and table is no longer promised.
- Storage.SlabStorage.CreateNewKey: `usize` has 32 bits, as in the WebAssembly guests the queue is compiled for, and wraps.
- Errors of the pending work (`?` in the futures of `wasm.rs`): they end the module.
- Wakers: one task polls a queue, is woken by its waker or by the timer of the sleep it was polled into, and polls again until it is told to wait; tasks that share a queue are not modelled, nor is how long a host timer is late.
- Overflow checks of debug builds: `zeros + now_slot` in `next_occupied_slot` is computed modulo the width of `usize`.
- The 64-bit wrap-around of the request counter.
- How a guest lays out the table of pending ids in its memory: `Controllers.Registers` is what is assumed of any way of reading it, `Requests.GuestTable` is the table itself.
- The slab, channels, semaphores and `FuturesUnordered` by their contracts; a fair semaphore's queue is not modelled, nor is that permits are granted in order.
- Real clocks and host timers: instants are whole nanoseconds, clocks only move forward, and a host timer waits at least the whole milliseconds asked for.
- `capacity`, `reserve` and `shrink_to_fit`: nothing but allocation.
- The history buffer, the sleeps that only re-poll the loop, and the HTTP call to the prediction server, whose answer is arbitrary.
- WASI, the engine, precompilation, encodings, file and network I/O, and the example controllers.
