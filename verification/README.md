# Verified model of the Sentinel rate limiter

This project models the core of the in-memory rate limiter and proves what its design promises.
`dafny verify dfyconfig.toml` (Dafny 4.11) checks all of it. Times and durations are integers, in nanoseconds.

Each component is modelled at up to three levels.

- **On values.** `BucketSpec`, `WindowSpec`, `SchedulerSpec`, `ClientSpec`, `StoreSpec` and `ConfigSpec` say what
  one operation does, as functions on immutable state. Where Go leaves a choice open (the order in which a map
  is scanned, so which of several equally old clients is evicted, and which of two ids due at the same time is
  popped first) the choice is a parameter, and `Possible`, `VictimOK`, `IpVictimOK` and `Drains` say which
  choices the code can make.
- **In place.** The classes `Window.SlidingWindow`, `Bucket.Bucket`, `Scheduler.Scheduler`,
  `BucketTable.BucketTable`, `MultiBucket.ClientBuckets`, `ClientTable.ClientTable`, `Store.BucketStore` and
  `Config.Sections` have the fields the source's structs have, update them in place with the source's loops and
  branches, and are proved equal, call by call, to the functions above. `BucketTable` is the map from name to
  bucket object that a client (by tier) and the store (by address) both hold; `ClientTable` is the store's map of
  clients. Ghost fields give the value an object stands for and which object belongs to which entry.
- **Over runs.** `WindowSpec`, `BucketRuns`, `BucketDelays`, `ConcurrentBucket`, `ConcurrentCalls`, `ConcurrentCap`,
  `ConcurrentBudget`, `ConcurrentClock`, `ConcurrentWindow`, `Wakeup`, `StoreAgreement`, `StoreOptimisation`,
  `StoreEviction`, `StoreCaps`, `StoreEffects`, `StoreSettings`, `ConfigText` and `ConfigRoundTrip` prove statements about every sequence of operations, every
  interleaving, or every file. Because each method of `Store.BucketStore` ensures that it is one operation of
  `StoreSpec`, made with choices that are `Possible`, the run-level statements apply to any sequence of calls on
  the object.

`MachineBucket` repeats the refill and the debit in 64-bit arithmetic with saturating time subtraction and
truncating division. `HeapOrder`, `Arithmetic` and `Wrappers` are shared groundwork.

Conventions. Capacities and refill rates are not negative (`Sane`) wherever a statement needs it. Client keys
are not empty, contain no bar and are not the literal `__ip__` (`KeyOK`). No bar and not `__ip__` is exactly the
condition under which a client's ids lead back to its buckets (`StoreIds.DispatchRoundTrip`,
`StoreAgreement.NewClientFoundAgain`). Not empty is what eviction needs: a least recent client with the empty
key is never evicted, and the map then grows past its cap (`StoreEviction.EvictsExactlyNamed`).

Where the source differs from what is said about it, the code is followed and the exact condition is proved.

- The refund after a window rejection can push a balance above its cap. A call is given the time it was made at,
  and nothing stops one from being held up on its way, so calls may carry clocks earlier than refills already made.
  With such stale clocks `ConcurrentCap.CapExceededExactlyWhen` says for which configurations and numbers of threads
  the cap is passed: exactly those with a window, two calls at once, a refill that adds something, and a cost the
  cap can pay. `ConcurrentCap.RefundExceedsCap` gives, for each of them, a run (with stale clocks) that ends with no
  call in progress at the bound by the number of threads (`ConcurrentBucket.BalanceRange`), so no bound by the calls
  in progress holds.
- On one clock, where calls and refills begin in the order of their times, that condition is needed but not enough
  (`ConcurrentClock.OldClocksNeeded` is a case). There the cap is passed exactly when the window can refuse a call
  at all (`ConcurrentClock.PassesCapExactlyWhenRefusing`), which puts a bound on its limit: what a full bucket for
  each thread and the refills within one window pay for, and one more call for each thread but two.
  `ConcurrentClock.PassesCapExactlyWhen` is the exact condition for windows of no positive duration, for rates that
  pay for whole numbers of calls, and for refills that pay for as many as a full bucket; for the rest
  `ConcurrentClock.PassesCapBetween` leaves a gap of at most one call for each refill within a window.
- Interleaved calls keep the window's limit when the window is asked in the order of the clocks
  (`ConcurrentWindow.LimitHoldsInOrder`). Two threads on one clock can ask out of order, and then the limit fails
  (`ConcurrentWindow.LimitFailsOutOfOrder`).
- A blocked bucket does not refill on a call, so a scheduled refill can change the balance read after a blocked
  call. `BucketRuns.BlockedBalanceSeesScheduledRefill` says exactly when; every other balance, and every
  decision, is unaffected.
- When the time since the last refill exceeds what a duration can hold, one call's balance is still right, but
  the refill time the machine records can be too early, and a second call at the same instant may then be
  granted where it should not be (`MachineBucket.SecondCallDiffers`). `MachineBucket.MachineRefillExactlyWhen` says
  exactly when the recorded time is right, and `MachineBucket.MachineRunAgrees` that runs which stay within the
  range of a duration agree throughout.
- The bounds checked on an administrator's parameters say nothing about the cost of a request, and without a
  bound on it the retry-after overflows (`MachineBucket.UnboundedCostOverflows`); it is right exactly when the
  mathematical delay fits a duration (`MachineBucket.RetryExactlyWhen`).
- Run samples the heap first and resets its timer afterwards, so an entry can be due while Run still sleeps, for
  as long as it took to get from one to the other (`Wakeup.LateByTheSlip`), and no longer
  (`Wakeup.DueIsNotSleptThrough`).
- A block does not outlast a reconfiguration of the client's last blocked tier, nor an eviction:
  `StoreCaps.ReconfiguringLifts` is a case, and `StoreCaps.BlockedExactlyUnless` the exact condition.
- A quoted empty value in the configuration file reads as an empty section:
  `ConfigRoundTrip.LeafComesBack` proves that a leaf comes back exactly when it is not empty.
- A request stopped by an inner gate does not get the outer gates' tokens back; `StoreCaps.RequestAt` states what
  each gate is left with. design.md (lines 474-485) describes an LRU list beside the map of clients; the code
  scans the map, and the scan is what is modelled.

## Model

| member | source | states |
|---|---|---|
| WindowSpec.RefinesUnboundedLog | internal/window/window.go:55-107 | for nondecreasing times and sweeps anywhere, the window decides as an unbounded log of admissions does, and its live slots are exactly the admissions of the last window, in order |
| WindowSpec.NeverOverLimit | internal/window/window.go:55-67 | no half-open interval of one window's length ever holds more than maxRequests admissions |
| WindowSpec.HoldsOnlyRecent | internal/window/window.go:55-95 | right after any request, refused ones too, or sweep the window holds exactly the admissions of its last length of time |
| Window.SlidingWindow.constructor | internal/window/window.go:37-51 | an empty window whose ring has room for one more than the limit |
| Window.SlidingWindow.Allow | internal/window/window.go:55-67 | admits exactly when fewer than maxRequests live slots remain after the sweep, and then records the time last |
| Window.SlidingWindow.Cleanup | internal/window/window.go:72-76 | drops exactly the expired slots |
| Window.SlidingWindow.CompactLocked | internal/window/window.go:85-95 | the ring's live slots, across the wrap, lose their expired prefix and nothing else |
| Window.SlidingWindow.PushLocked | internal/window/window.go:97-107 | the new time becomes the newest live slot and no live slot is overwritten |
| BucketSpec.RefillIsCurrent | internal/bucket/bucket.go:118-146 | after a refill less than one interval is pending, and the refill time never passes the clock |
| BucketSpec.RefillTwice | internal/bucket/bucket.go:118-146 | refilling at t1 and then at t2 is refilling once at t2 |
| BucketSpec.BalanceWithinCap | internal/bucket/bucket.go:68-146 | a balance within the cap stays within it through refills and calls |
| BucketSpec.CallDebitsOnGrantOnly | internal/bucket/bucket.go:91-110 | a grant costs exactly the configured cost; a rejection, by the window too, leaves the balance of just after the refill; any call but a blocked one stores its time as the last access, and a blocked one changes nothing |
| BucketSpec.UpdateClamps | internal/bucket/bucket.go:164-177 | a new configuration mints no tokens, takes only those above the new cap, and starts an empty window; the rest is a new bucket of it |
| BucketSpec.NewGrantsFirst | internal/bucket/bucket.go:40-58 | a new bucket is full, open and up to date, charges at least one token, and grants its first call exactly when its cap has the cost and its window lets anyone in |
| BucketSpec.NoIntervalNoRefill | internal/bucket/bucket.go:205-212 | without a positive interval a bucket never refills and its next refill is at the zero time |
| Bucket.Bucket.constructor | internal/bucket/bucket.go:40-51 | a full, unblocked bucket with a fresh window when one is enabled |
| Bucket.Bucket.Normalized | internal/bucket/bucket.go:53-58 | a cost below one becomes one |
| Bucket.Bucket.Allow | internal/bucket/bucket.go:68-113 | decision, retry-after and whole new state of one undisturbed call |
| Bucket.Bucket.Take | internal/bucket/bucket.go:89-110 | access time, debit, window and refund, after the refill |
| Bucket.Bucket.LazyRefill | internal/bucket/bucket.go:118-146 | whole elapsed intervals are credited up to the cap and the refill time moves by just those |
| Bucket.Bucket.ScheduledRefill | internal/bucket/bucket.go:153-159 | the same refill, or nothing without an interval |
| Bucket.Bucket.UpdateConfig | internal/bucket/bucket.go:164-177 | the balance is kept up to the new cap and the window starts afresh |
| Bucket.Bucket.NextRefillTime | internal/bucket/bucket.go:205-212 | one interval after the last refill, or the zero time |
| BucketRuns.ScheduledRefillsInvisible | internal/bucket/bucket.go:118-159 | scheduled refills inserted anywhere in a time-ordered run change no decision, retry-after or balance after a call |
| BucketRuns.BlockedBalanceSeesScheduledRefill | internal/bucket/bucket.go:76-88 | exactly when a scheduled refill shows in the balance read after a blocked call |
| BucketRuns.TicksAreRefill | internal/bucket/bucket.go:118-146 | one tick per grid point up to now gives the lazily refilled bucket |
| BucketRuns.LazyIsEager | internal/bucket/bucket.go:86-146 | every time-ordered run decides and balances as a bucket that ticks at each grid point |
| BucketRuns.BurstBound | internal/bucket/bucket.go:68-146 | on every sub-interval of a bucket's life the grants cost at most one full bucket plus what accrues in it |
| BucketRuns.WindowedBurstBound | internal/bucket/bucket.go:101-108 | the same grants keep the window's own limit on every interval of its length |
| BucketRuns.EnoughExactlyFrom | internal/bucket/bucket.go:91-100 | a rejected balance reaches the cost exactly when the clock reaches the last refill plus the reported delay |
| BucketRuns.RetryAfterExact | internal/bucket/bucket.go:91-100 | with nothing granted meanwhile, a later call is granted if and only if it comes at or after the last refill plus the delay |
| BucketRuns.NothingGrantedEarly | internal/bucket/bucket.go:91-100 | no call within the delay less one interval is granted |
| BucketDelays.RepliesExactly | internal/bucket/bucket.go:68-111 | the reply to every call: blocked without a delay; granted with the cost there and the window willing; else the window's refusal with one interval, the least number of intervals that add what is missing, or a second where nothing is ever added |
| BucketDelays.HelpsExactlyWhen | internal/bucket/bucket.go:91-100 | after a refusal for want of tokens some later call is granted exactly when the bucket refills and its cap has the cost; otherwise none ever is, in any run |
| BucketDelays.BlockedUntilLifted | internal/bucket/bucket.go:76-78 | a blocked bucket grants nothing in any run until it is unblocked |
| BucketDelays.WindowDelayExactly | internal/bucket/bucket.go:101-107 | after a window's refusal, and as long as nothing is granted, a later call is granted if and only if it comes when the oldest admission counted has left the window, whatever interval the refusal named |
| BucketDelays.LifeWithinLimit | internal/window/window.go:55-67 | in every life of a bucket its window holds no more than its limit |
| BucketDelays.GrantsWithoutWindow | internal/bucket/bucket.go:44-51 | a bucket whose window is missing or not enabled refuses only when blocked or for want of tokens, whatever its life so far |
| MachineBucket.RefillNeverOverflows | internal/security/sanitize.go:106-119 | no product or sum of the refill leaves 64 bits for a validated configuration and any two 64-bit times |
| MachineBucket.RetryExactlyWhen | internal/bucket/bucket.go:91-100 | the retry-after estimate is the mathematical one exactly when that fits a duration, and then nothing on the way to it overflows |
| MachineBucket.RetryNeverOverflows | internal/bucket/bucket.go:97-99 | for costs up to a million it does, at every balance |
| MachineBucket.MachineRefillExact | internal/bucket/bucket.go:118-146 | unless the subtraction saturates the machine's refill is the mathematical one |
| MachineBucket.MachineRefillSaturated | internal/bucket/bucket.go:122-138 | when it saturates the refill differs from the mathematical one in the refill time alone, which moves by the intervals of the longest duration |
| MachineBucket.MachineRefillExactlyWhen | internal/bucket/bucket.go:118-146 | the refill agrees, refill time and all, exactly when the subtraction does not saturate or is cut to as many whole intervals |
| MachineBucket.MachineReplyExactlyWhen | internal/bucket/bucket.go:68-146 | one call leaves the mathematical balance, and replies as the mathematical one exactly when it is granted or the delay it reports fits |
| MachineBucket.MachineAllowExactlyWhen | internal/bucket/bucket.go:68-146 | one call agrees in reply and whole new state exactly when, besides, the elapsed time is safe |
| MachineBucket.SecondCallDiffers | internal/bucket/bucket.go:118-146 | a deployed bucket idle for longer than a duration whose second call at one instant the machine grants and the mathematics rejects |
| MachineBucket.InStepExactlyWhen | internal/bucket/bucket.go:68-159 | through a whole run of calls, refills and blocks the two stay in step exactly when every event is safe when it comes |
| MachineBucket.MachineRunAgrees | internal/bucket/bucket.go:68-159 | every run whose times stay within a duration of the last refill it starts from has the mathematical outcomes and final state |
| MachineBucket.UnboundedCostOverflows | internal/bucket/bucket.go:97-99 | a validated configuration with a large cost, outside that condition, reports a negative delay |
| ConcurrentBucket.TokenLedger | internal/bucket/bucket.go:68-146 | in every interleaving balance, debits in flight, grants, pending refills and discarded tokens sum to the cap plus what was claimed; so grants cost at most the cap plus what accrued |
| ConcurrentBucket.BalanceRange | internal/bucket/bucket.go:91-143 | the balance is never negative, and with the debits in flight exceeds the cap by at most one cost for each thread but one; without a window it stays within the cap |
| ConcurrentBucket.GrantsBetween | internal/bucket/bucket.go:68-146 | from any point of any interleaving on, the grants cost at most the balance, debits and refills in flight there plus what is claimed afterwards |
| ConcurrentBucket.AloneFinishes | internal/bucket/bucket.go:68-146 | from any state, in the middle of any interleaving, a thread left alone finishes within ten steps |
| ConcurrentCalls.ClaimTakesAll | internal/bucket/bucket.go:119-131 | a thread claims every whole interval up to its clock, on from the last refill |
| ConcurrentCalls.ClaimIsPaidInFull | internal/bucket/bucket.go:133-143 | in every step of every interleaving a claim is done with only by adding all of it, up to the cap, however many swaps are lost first; only what the cap cuts off is discarded |
| ConcurrentCalls.DiscardOnlyWhenFull | internal/bucket/bucket.go:133-143 | a step that discards tokens leaves the bucket full |
| ConcurrentCalls.LosslessUntilFull | internal/bucket/bucket.go:118-146 | from any point of any interleaving on, as long as the bucket is not full, balance, debits and refills in flight and grants account for every interval claimed |
| ConcurrentCalls.DebitAndReturn | internal/bucket/bucket.go:89-110 | a debit takes one cost off a balance that has it, and ends as one grant or by being given back |
| ConcurrentCalls.BalanceMovesOnlySo | internal/bucket/bucket.go:89-143 | only adding a claim, taking a debit and giving one back move the balance |
| ConcurrentCalls.RefillsBeforeItSpends | internal/bucket/bucket.go:86-131 | in every interleaving a call gets to its debit, and a scheduled refill ends, only when no whole interval up to its clock is left unclaimed |
| ConcurrentCalls.EndsOnlySo | internal/bucket/bucket.go:76-111 | in every interleaving a call ends only granted, holding its debit and admitted, or refused because it found the bucket blocked, or at that moment without the cost and with the delay for that, or refused by the window |
| ConcurrentCalls.RefundsOnlyWhenRefused | internal/bucket/bucket.go:101-107 | a call refunds only after the window has refused it at its own clock |
| ConcurrentCalls.NoStepBack | internal/bucket/bucket.go:89-143 | a lost swap is tried again from the load it follows, and a call keeps its clock |
| ConcurrentCalls.AsksAndStoresItsClock | internal/bucket/bucket.go:89-108 | the window and the last access change only by a call's own clock, and a call has stored it before its debit |
| ConcurrentCalls.AmpleCallIsGranted | internal/bucket/bucket.go:68-111 | without a window a call that meets no block and no balance below its cost is granted, whatever the other threads do |
| ConcurrentCalls.BlockStopsNewCalls | internal/bucket/bucket.go:76-78 | in every interleaving a call begun after a block and before it is lifted is refused without a delay and never holds a token |
| ConcurrentCalls.BlockedIsLastSet | internal/bucket/bucket.go:179-187 | a bucket is blocked exactly as it was last set |
| ConcurrentCap.RefundExceedsCap | internal/bucket/bucket.go:101-108 | for every configuration that allows it and any number of threads, a run, of calls with clocks earlier than refills already made, that ends at rest exactly at that bound |
| ConcurrentCap.CapExceededExactlyWhen | internal/bucket/bucket.go:91-143 | where calls may carry earlier clocks than those already used, some interleaving passes the cap exactly when there is a window, two threads, a refill that adds something, and a cost within the cap |
| ConcurrentBudget.AdvanceBacked | internal/bucket/bucket.go:89-143 | until the window refuses a call every step, whatever the clocks, keeps what has been and can be spent within a bucketful for each thread and what the intervals claimed since add |
| ConcurrentBudget.NeverRefused | internal/bucket/bucket.go:91-143 | on one clock a window whose limit is above its bound refuses no call in any interleaving, and the balance stays within the cap |
| ConcurrentClock.PassesCapExactlyWhenRefusing | internal/bucket/bucket.go:91-143 | on one clock some interleaving passes the cap exactly when the window can refuse a call at all, there is a second thread and the bucket refills |
| ConcurrentClock.PassesCapBetween | internal/bucket/bucket.go:91-143 | on one clock, for every configuration and number of threads, the largest limit at which the cap can be passed lies between two bounds, at most one call apart for each refill within a window |
| ConcurrentClock.PassesCapExactlyWhen | internal/bucket/bucket.go:91-143 | where the bounds meet, the cap is passed on one clock exactly when the limit is within them |
| ConcurrentClock.OldClocksNeeded | internal/bucket/bucket.go:91-143 | a configuration that passes its cap with stale clocks and never on one clock |
| ConcurrentWindow.LimitHoldsInOrder | internal/window/window.go:55-67 | in every interleaving that asks the window in the order of the clocks, no interval of its length holds more grants than its limit |
| ConcurrentWindow.LimitFailsOutOfOrder | internal/window/window.go:55-67 | two threads on one clock whose questions arrive in the other order get three grants into a window that allows two |
| ConcurrentBucket.NoDoubleRefill | internal/bucket/bucket.go:118-131 | successful claims lie end to end from the start to the refill time, on the grid and never past the latest clock used |
| ConcurrentBucket.ClaimsAreDisjoint | internal/bucket/bucket.go:118-131 | two claims never cover the same stretch of time |
| ConcurrentBucket.FailedClaimLowersCount | internal/bucket/bucket.go:119-131 | a lost race strictly lowers the number of intervals the caller finds next |
| ConcurrentBucket.BoundedRetry | internal/bucket/bucket.go:119-131 | a call retries at most as often as the intervals it first computed |
| ConcurrentBucket.SoloCallIsSequential | internal/bucket/bucket.go:68-146 | a call that runs undisturbed is the sequential one, within ten atomic steps |
| HeapOrder.UpStep | internal/scheduler/heap.go:23-31 | one turn of sift-up moves the only broken place to the parent |
| HeapOrder.DownStep | internal/scheduler/heap.go:23-31 | one turn of sift-down moves it to the lesser child |
| HeapOrder.RootLeast | internal/scheduler/heap.go:15-31 | the root of a heap is its minimum |
| Scheduler.Scheduler.Swap | internal/scheduler/heap.go:27-31 | two entries change places and every entry still knows its own |
| Scheduler.Scheduler.Up | internal/scheduler/scheduler.go:60-63 | sift-up ends, and restores heap order with all indices right |
| Scheduler.Scheduler.Down | internal/scheduler/scheduler.go:60-78 | sift-down ends, and restores heap order or says it had nothing to do |
| Scheduler.Scheduler.HeapPush | internal/scheduler/heap.go:33-37 | the heap with one more entry, linked with the id map |
| Scheduler.Scheduler.HeapPop | internal/scheduler/heap.go:39-47 | the least entry leaves |
| Scheduler.Scheduler.HeapRemove | internal/scheduler/scheduler.go:78-78 | the entry at any index leaves and order is restored around the gap |
| Scheduler.Scheduler.HeapFix | internal/scheduler/scheduler.go:60-60 | order is restored after one time has changed |
| Scheduler.Scheduler.Schedule | internal/scheduler/scheduler.go:56-68 | exactly map update, and a wakeup token is left |
| Scheduler.Scheduler.Remove | internal/scheduler/scheduler.go:71-80 | exactly map delete |
| Scheduler.Scheduler.Signal | internal/scheduler/scheduler.go:85-90 | a token is there afterwards, whether or not one was |
| Scheduler.Scheduler.NextWait | internal/scheduler/scheduler.go:122-133 | an hour when nothing is scheduled, else the least time left over all ids |
| Scheduler.Scheduler.DrainDue | internal/scheduler/scheduler.go:143-150 | pops every id whose time has come, in time order, each once, and no other |
| Scheduler.Scheduler.ProcessDue | internal/scheduler/scheduler.go:140-159 | one callback per popped id, and the ids it answers for scheduled again |
| SchedulerSpec.PassLeaves | internal/scheduler/scheduler.go:140-159 | after a pass the entries not due are untouched and each due id is at its callback's time or gone, even when that time is past already |
| Wakeup.NoLostWakeup | internal/scheduler/scheduler.go:56-133 | from its sample to the end of its select, nothing is scheduled, or Run's sample is no later than anything scheduled, or a token waits, or a signal is on its way |
| Wakeup.TimerCoversPlan | internal/scheduler/scheduler.go:95-133 | with no token and no signal on its way the timer fires no later than any entry's time, or the sample's, plus the time from sample to reset |
| Wakeup.DueIsNotSleptThrough | internal/scheduler/scheduler.go:95-133 | once an entry has been due for the time from sample to reset, the timer has fired, or a token waits, or a signal is on its way |
| Wakeup.LateByTheSlip | internal/scheduler/scheduler.go:99-119 | a run in which an entry is due, nothing is on its way to wake Run, and Run cannot step yet |
| Wakeup.DuePoppedWithinFour | internal/scheduler/scheduler.go:99-119 | with an entry due, any four steps of Run in a row pop it |
| Wakeup.SelectStepsExactlyWhen | internal/scheduler/scheduler.go:110-118 | in its select Run can step exactly when its timer has run out or a token waits |
| Wakeup.SelectIsNotStuck | internal/scheduler/scheduler.go:110-118 | with an entry due for that long and no signal on its way Run has a step to take |
| Wakeup.SleepsUntilDue | internal/scheduler/scheduler.go:96-117 | Run does not poll: with the schedule untouched since its sample, its timer has not run out before the earliest entry is due, or an hour has passed with none |
| Wakeup.PassIsReschedule | internal/scheduler/scheduler.go:140-159 | a pass taken step by step without interference is the pass on values, and leaves a token exactly if one was there or something was scheduled again |
| Wakeup.RemoveTakesOut | internal/scheduler/scheduler.go:71-80 | in every interleaving an id that is removed, and not being answered just then, stays out until it is scheduled again |
| StoreIds.CutJoins | internal/store/store.go:42-48 | an id is cut at its first bar, if it has one |
| StoreIds.CutEncoded | internal/store/store.go:37-48 | decoding an encoded id gives its parts back exactly when the key has no bar |
| StoreIds.DispatchRoundTrip | internal/store/store.go:31-48 | an id is dispatched to the bucket it was made for exactly when a client's key has no bar and is not `__ip__` |
| StoreIds.IdOfOwner | internal/store/store.go:366-388 | an id that names a bucket is that bucket's own id |
| ClientSpec.LatestOf | internal/multibucket/multibucket.go:134-144 | a client's last access is the latest over its tiers, or the zero time |
| ClientSpec.AnsweredBy | internal/multibucket/multibucket.go:68-86 | a call is answered by its tier's bucket, else by the default's, which alone changes, else refused for a second |
| BucketTable.BucketTable.Oldest | internal/store/store.go:342-353 | the scan finds an address used no later than any other |
| BucketTable.BucketTable.Install | internal/multibucket/multibucket.go:47-51 | a fresh bucket takes the name and no other bucket changes |
| BucketTable.BucketTable.MarkAll | internal/multibucket/multibucket.go:100-115 | the loop blocks or unblocks every bucket and changes nothing else |
| MultiBucket.ClientBuckets.constructor | internal/multibucket/multibucket.go:30-35 | a client with no buckets |
| MultiBucket.ClientBuckets.Configure | internal/multibucket/multibucket.go:43-52 | the tier's bucket is replaced by a fresh, unblocked one |
| MultiBucket.ClientBuckets.BucketOf | internal/multibucket/multibucket.go:55-63 | the tier's bucket, the empty name being the default's, or none |
| MultiBucket.ClientBuckets.Allow | internal/multibucket/multibucket.go:68-86 | one call on the tier's bucket, else on the default's, else a refusal |
| MultiBucket.ClientBuckets.Tiers | internal/multibucket/multibucket.go:89-97 | every configured tier once |
| MultiBucket.ClientBuckets.BlockAll | internal/multibucket/multibucket.go:100-106 | every tier is blocked, and only that |
| MultiBucket.ClientBuckets.UnblockAll | internal/multibucket/multibucket.go:109-115 | every tier is unblocked, and only that |
| MultiBucket.ClientBuckets.IsBlocked | internal/multibucket/multibucket.go:120-129 | whether any tier is blocked |
| MultiBucket.ClientBuckets.LastAccess | internal/multibucket/multibucket.go:134-144 | the loop finds the latest access over all tiers |
| ClientTable.ClientTable.Oldest | internal/store/store.go:269-277 | the scan finds a client used no later than any other |
| ClientTable.ClientTable.BalanceIn | internal/store/store.go:186-191 | the balance of the bucket that answers for a tier |
| Store.BucketStore.constructor | internal/store/store.go:117-150 | an empty store with the built-in default tier where none is given, and its address cap |
| Store.BucketStore.Allow | internal/store/store.go:155-194 | one request through the three gates, with the evictions made on the way the least recent ones |
| Store.BucketStore.GetOrCreateClient | internal/store/store.go:199-230 | finds the client or makes room and makes it, its default tier scheduled |
| Store.BucketStore.EnsureTier | internal/store/store.go:236-257 | makes a missing tier from its defaults, if there are any, and schedules it |
| Store.BucketStore.EvictLRU | internal/store/store.go:264-294 | a least recently used client leaves, its tiers leave the schedule, and it is counted |
| Store.BucketStore.GetOrCreateIp | internal/store/store.go:299-337 | finds the address's bucket or makes room and makes it |
| Store.BucketStore.EvictOldestIp | internal/store/store.go:341-361 | a least recently used address leaves, and its id leaves the schedule |
| Store.BucketStore.OnDue | internal/store/store.go:366-406 | finds the bucket an id names, refills it and returns its next time |
| Store.BucketStore.ProcessDue | internal/scheduler/scheduler.go:140-159 | one whole pass over the store: what is due is popped in time order, and each id refilled and scheduled again by the store's own callback |
| Store.BucketStore.UpdateClientConfig | internal/store/store.go:418-434 | the tier is replaced and rescheduled, the client made if need be |
| Store.BucketStore.Block | internal/store/store.go:464-467 | the client is made if need be and all its tiers are blocked |
| Store.BucketStore.Unblock | internal/store/store.go:470-478 | all tiers of a known client are unblocked |
| Store.BucketStore.SetGlobalConfig | internal/store/store.go:534-544 | a fresh global bucket, rescheduled |
| Store.BucketStore.DisableGlobal | internal/store/store.go:548-553 | no global bucket and no schedule for it |
| Store.BucketStore.SetIPLimit | internal/store/store.go:557-574 | turning the limit off forgets every address and its schedule |
| StoreAgreement.StepAgrees | internal/store/store.go:155-434 | every operation keeps the schedule in agreement with the live buckets |
| StoreAgreement.PassAgrees | internal/store/store.go:366-406 | a complete pass does too, and leaves every refillable bucket due after its time |
| StoreAgreement.RunAgrees | internal/store/store.go:155-574 | so do all runs |
| StoreAgreement.ScheduleMatchesBuckets | internal/store/store.go:199-257 | after any run the scheduled ids are exactly those of live buckets with an interval, each no later than its bucket's next refill and dispatched back to it |
| StoreAgreement.NewClientFoundAgain | internal/store/store.go:223-227 | the convention on keys is needed: the bucket of a client named `__ip__` is not found again |
| StoreOptimisation.SimPass | internal/store/store.go:366-406 | a pass leaves a store that differs only by refills not yet due to show |
| StoreOptimisation.PassesInvisible | internal/store/store.go:155-406 | passes inserted anywhere in a time-ordered run change no result, no set of clients or addresses and no eviction, and keep the same choices possible |
| StoreOptimisation.PassesInvisibleFromStart | internal/store/store.go:117-406 | the same for a whole life of the store |
| StoreEviction.StepMembership | internal/store/store.go:199-294 | an operation tracks the same clients, or creates one and drops at most the victim |
| StoreEviction.StepTouches | internal/store/store.go:155-257 | an operation sets the access time of the client it touches and of no other |
| StoreEviction.LeastRecentSurvival | internal/store/store.go:199-294 | with strictly increasing call times a client is evicted only after maxClients other keys, the newcomer included, were touched since it last was |
| StoreEviction.SomeVictim | internal/store/store.go:269-277 | in every state there is a client an eviction may take |
| StoreEviction.EvictsExactlyNamed | internal/store/store.go:264-284 | making room in a full map evicts the least recent client exactly when its key is not empty, and otherwise the map grows |
| StoreEviction.CapsHold | internal/store/store.go:214-216 | clients and addresses stay within their caps and clients created equal live plus evicted, throughout any run |
| StoreCaps.AllowedExactlyWhen | internal/store/store.go:155-194 | a request is allowed exactly when every gate's own bucket would grant it and its client is not blocked; the balance reported is then the answering bucket's; a request the outer gates let through is otherwise refused as blocked, for a second, or with the answering bucket's own delay |
| StoreCaps.OuterDenialLeavesClients | internal/store/store.go:161-172 | the first outer gate that denies answers, under its own name and with its bucket's own delay, and then every client is as it was |
| StoreCaps.RequestAt | internal/store/store.go:155-194 | what a request leaves at each bucket: its call's result where it calls Allow, and elsewhere what was there or an eviction |
| StoreCaps.GrantDebits | internal/store/store.go:155-194 | an allowed request debits the answering tier and each active outer gate by its own cost and no other bucket |
| StoreCaps.BlockedRequest | internal/store/store.go:174-177 | a blocked client's request is denied, as blocked once the outer gates let it through, and changes no client |
| StoreCaps.BlockedExactlyUnless | internal/store/store.go:155-478 | a blocked client stays blocked exactly unless the operation unblocks it, evicts it, or replaces its last blocked tier |
| StoreCaps.BlockedAllAlongExactlyWhen | internal/store/store.go:155-478 | over any run it is blocked all along exactly when no operation of the run does so |
| StoreCaps.BlockHolds | internal/store/store.go:464-478 | from a block on, through any run in which nothing lifts it, every request of the client is denied |
| StoreCaps.ReconfiguringLifts | internal/store/store.go:418-434 | blocking a client that has only its default tier and then reconfiguring that tier leaves it open |
| StoreCaps.ConfigureReplacesOne | internal/store/store.go:418-434 | the tier's bucket is fresh and no other bucket is replaced |
| StoreCaps.StepIsOwnEvents | internal/store/store.go:155-574 | an operation is, for each bucket it neither drops nor replaces, that bucket's own events |
| StoreCaps.StoreLifeIsOwnLife | internal/store/store.go:155-406 | every bucket's life inside the store is a time-ordered life of that bucket alone, and every request allowed through it is one of its grants |
| StoreCaps.StoreBurstBound | internal/store/store.go:155-194 | on every interval the requests allowed through a bucket cost at most one full bucket plus what accrues |
| StoreCaps.StoreWindowBound | internal/store/store.go:155-194 | with a window no interval of its length lets more than maxRequests through |
| StoreCaps.BalancesWithinCaps | internal/store/store.go:155-574 | throughout any run every balance in the store lies between zero and its bucket's capacity |
| StoreCaps.GlobalCap | internal/store/store.go:161-165 | during one life of the global bucket the requests allowed over all clients cost at most its capacity plus its rate for each whole interval elapsed |
| StoreEffects.StepLeaves | internal/store/store.go:155-574 | what every operation leaves at every owner, evictions and newcomers included, and so that nothing else comes, goes or changes |
| StoreEffects.StepSettings | internal/store/store.go:557-574 | tiers, caps and the address limit change by the address limit's own operation alone, which sets both of its settings |
| StoreEffects.SchedulesExactly | internal/store/store.go:199-406 | a bucket that an operation makes, replaces or refills on schedule is scheduled for exactly its next refill, and any other operation leaves its entry alone |
| StoreSettings.FirstRequestMeetsGiven | internal/store/store.go:117-144 | at any time the first request of a new client meets a full bucket of the tier limits the store was made with, or the built-in hundred, and the caps are those it was made with |
| StoreSettings.AddressMeetsLimit | internal/store/store.go:299-337 | from the address limit's last setting on, an address without a bucket meets a full one of that limit, which may deny it under its own name |
| StoreSettings.AddressBucketsHaveLimit | internal/store/store.go:299-337 | from then on every address bucket made has that limit, and older ones keep theirs |
| StoreSettings.AddressCap | internal/store/store.go:168-171 | from an address's first request on, the requests allowed from it, over all keys, cost at most that limit's capacity and its rate for each whole interval while its bucket lives |
| StoreSettings.NoAddressesWhileOff | internal/store/store.go:557-574 | while the address limit is off no address has a bucket and no request is denied for its address |
| StoreSettings.AddressDropped | internal/store/store.go:341-361 | an address loses its bucket only when the limit is turned off, or as the least recently used of a full table to a newcomer that passed the global gate |
| StoreSettings.NoGlobalDenialWhileOff | internal/store/store.go:548-553 | from the global limit's removal until it is set again no request is denied by it |
| Config.StripComment | internal/config/config.go:322-343 | the loop returns the text before a comment outside quotes |
| Config.LeadingSpaces | internal/config/config.go:309-318 | the loop counts the leading spaces |
| Config.Read | internal/config/config.go:275-288 | what one line says |
| Config.Sections.PopTo | internal/config/config.go:290-293 | the pop loop leaves the stack the specification gives, each section left complete in the one below |
| Config.Sections.Enter | internal/config/config.go:290-301 | a key goes into the nearest enclosing section, as a leaf or as a new section on the stack |
| Config.ParseTree | internal/config/config.go:255-307 | the nested maps built in place are, key for key and level for level, the specification's tree; a line without a colon is named and nothing returned |
| ConfigSpec.PopsToEnclosing | internal/config/config.go:290-293 | popping ends at the nearest section with a smaller indent and pops only sections with no smaller one |
| ConfigSpec.RunIncreasing | internal/config/config.go:267-302 | the open sections have strictly increasing indents throughout any file |
| ConfigSpec.FailsAtFirstBad | internal/config/config.go:283-286 | reading fails at the first line that reads as an error, and at no other |
| ConfigText.StripCommentIs | internal/config/config.go:322-343 | a line is cut exactly at its first mark of a comment outside quotes |
| ConfigText.TrimSpaceIs | internal/config/config.go:275-288 | trimming takes the white space off both ends and nothing else |
| ConfigText.LeadingSpacesAre | internal/config/config.go:309-318 | the indent is the number of spaces before anything else |
| ConfigText.UnquoteIs | internal/config/config.go:345-352 | quotes come off exactly as a matching pair round the whole text |
| ConfigText.ReadLineIs | internal/config/config.go:275-288 | a line is blank exactly when all before its comment is white space, an error exactly when it then has text and no colon, and otherwise a key before the first colon and a value after it |
| ConfigText.FailsExactlyAt | internal/config/config.go:283-286 | a file fails with a line's number exactly when that line is the first with text and no colon, and parses exactly when there is none |
| ConfigText.ParsesAsOutline | internal/config/config.go:255-307 | whatever its indents, a file parses to the tree in which each key stands, in the order of the lines, under the nearest lines above that are indented less and have no value |
| ConfigText.LinesOfOpenFile | internal/config/config.go:270-274 | a last line without a break after it is a line too |
| ConfigRoundTrip.ReadSetting | internal/config/config.go:275-288 | a printed setting, bare or quoted, with a comment after it or not, reads as its key and text |
| ConfigRoundTrip.BlanksInvisible | internal/config/config.go:275-278 | blank and comment lines change nothing |
| ConfigRoundTrip.CommentIsBlank | internal/config/config.go:322-343 | a line of spaces and a comment says nothing |
| ConfigRoundTrip.TreeHoldsItems | internal/config/config.go:293-301 | with distinct keys the tree holds exactly the printed items, in whatever order |
| ConfigSpec.LinesOfFile | internal/config/config.go:270-274 | lines without breaks, written to a file with breaks of either kind, are read back line by line |
| ConfigRoundTrip.PrintedAreLines | internal/config/config.go:270-274 | what is printed are lines that a file can hold |
| ConfigRoundTrip.ParsesWhatWasPrinted | internal/config/config.go:255-307 | a printing of any items at any indent and positive step, with blank and comment lines anywhere, parses to exactly their tree; keys, leaves and what follows them hold no line break |
| ConfigRoundTrip.EveryTreeRoundTrips | internal/config/config.go:255-352 | every tree with keys free of marks and non-empty quotable leaves, none with a line break in it, has a printing, and a file written with it is read and parsed back to the tree |
| ConfigRoundTrip.LeafComesBack | internal/config/config.go:288-301 | a leaf comes back exactly when it is not empty |

## Left out

- HTTP and TLS serving, authentication, identity extraction, audit and other logging, the simulator: input and output around the core.
- internal/metrics, internal/fairness, refillsTotal and createdAt: counters and records that influence no decision.
- Status, listing and TierConfig in internal/store: read-only views.
- Typed accessors and validation in internal/config: single-branch conversions; file opening, the scanner's line limit and bytes that are not valid UTF-8 (a file is a sequence of lines of characters).
- The moment between processDue's reading of the clock and its taking of the lock: the model reads and drains at one instant, so an entry that comes due in between is popped by this pass in the model and by the next one in the code.
- Recovery from panics in Allow, wall-clock reads, and the stopping and draining of Run's timer: the time of a call is a parameter, so the substitution of the current time for a zero one is the caller's, and a timer may fire at any moment from its deadline on.
- Concurrent operations of the store: operations run one after another there, and interleaving is modelled for the bucket and the scheduler.
- UpdateConfig running beside Allow: the store never calls it, and its clamp is a plain load and store.
- Conversion of maxRequests to the machine's int when the ring is sized, and integer width outside the bucket's arithmetic.
- Bucket.Bucket.Allow: one call at a time, so each compare-and-swap succeeds at its first try; interleaved calls are in ConcurrentBucket.
- ConcurrentClock.PassesCapExactlyWhen: only where the bounds meet. Where one refill pays for a fraction of a call and for fewer calls than a full bucket, how fractions add up depends on the order in which waiting refills are applied, and PassesCapBetween brackets the largest limit within one call for each refill in a window.
- ConcurrentWindow.LimitHoldsInOrder: in the order of the clocks; how far the limit is exceeded out of order is not bounded.
- MachineBucket.MachineAllowExactlyWhen: a window is asked as on values; its own subtraction of its length from the time is not in machine arithmetic.
- Store.BucketStore.constructor: creation and the attaching of a scheduler are one step, and a store without a scheduler is not modelled.
- Scheduler.Scheduler.ProcessDue: the callback is a function of the id and the time; the store's own callback, which changes the store, is in Store.BucketStore.ProcessDue.
- StoreAgreement.RunAgrees: keys outside the convention are excluded, as NewClientFoundAgain shows they must be.
- StoreEviction.LeastRecentSurvival: call times increase strictly; with equal times any of the equally old clients may go.
- Config.ParseTree: values are compared as text; typed reading of them is not modelled.
