# Hubble UI: a verified model of its queues, limiters, caches and event plumbing

Hubble UI's Go backend and its TypeScript front end are held together by a handful of hand-written data
structures and small protocols. This project models them in Dafny and proves what they are for.

| file | what it models |
|---|---|
| `Circular.dfy`, `Deque.dfy` | the growing and shrinking circular buffer, as a class over an array, and its amortised cost |
| `DynamicChannel.dfy` | the lock sections of the dynamic channel, as methods over two of those deques |
| `ChannelProtocol.dfy`, `ChannelDelivery.dfy`, `ChannelLoss.dfy`, `ChannelAnswers.dfy`, `ChannelOrder.dfy`, `ChannelFailures.dfy` | the dynamic channel as a concurrent system: any number of calls, one step per lock section, select or close, every interleaving and cancellation |
| `RingBuffer.dfy`, `RingBufferClaims.dfy` | the ring buffer used by one goroutine, and its lock-free slot claiming under any number of pushers |
| `RateLimiter.dfy`, `RateLimiterSchedules.dfy` | the leaky-bucket rate limiter, against windows of grants and against virtual scheduling, and under any number of goroutines |
| `StatusCenter.dfy` | the status centre: list, pending index, key index, and completion along a possibly cyclic graph of keys |
| `DLList.dfy` | the circular doubly linked list whose items remove themselves |
| `JsonIterator.dfy` | the brace-matching scanner behind a two-slot lookahead |
| `Flow.dfy`, `Service.dfy`, `Link.dfy`, `Cache.dfy`, `Texts.dfy`, `Sequences.dfy` | services and links made from flows, their ids, and the cache that reports only changes |
| `DataThrottler.dfy`, `ServiceMapStream.dfy` | the bounded buffer and the event loop that fills it, empties it into the cache and sends |
| `Emitter.dfy`, `EmitterHistory.dfy` | the caching event emitter, and who it calls told from what has been asked of it |

`dafny verify dfyconfig.toml` checks the whole project.

What the source updates in place is a class here, and each method states its new state in terms of a
function of the old one; the theorems are lemmas about those functions. Concurrent code is a step relation: `Enabled` says
when a step can be taken and `Apply` what it does, and a theorem about `Exec` over all `Legal` sequences of steps is a theorem about
every schedule. The step relation of the dynamic channel uses the very functions `Offer` and `Take` that the
lock-section methods of the class are proved to compute.

## Findings

Where the code does less than one might expect, there is an input that shows it, and the exact condition is proved:

- A positive limit limits only if it is at most the period in nanoseconds; a finer one is rounded down to a step of zero, which
  is the code for an unlimited limiter (`RateLimiters.PositiveLimitIsUnlimitedIffTooFine`; two thousand million a second in
  `RateLimiters.TooFineForASecond`).
- The step is rounded down, so an empty bucket can admit more requests at one instant than the limit: exactly the limit if and only
  if no further step fits into the period, as when the limit divides it (`RateLimiters.BurstIsTheLimitIff`).
- The rate limiter keeps its rate in every schedule if and only if a single goroutine uses it: between the swap of `lastAcquiredAt` and
  the store of `bucket` a second one can load a bucket that does not count the first one's grant (`RateLimiterSchedules.KeepsRateIffAlone`,
  with the schedules in `RateLimiterSchedules.TwoGrantsCountedOnce` and, with the clock moving on, in
  `RateLimiterSchedules.GrantsAtDifferentReadings`).
- A program can rely on what a blocking `Enqueue` returns, nil for received and an error for never received, if and only if it does not
  make both `Enqueue` and `DequeueNonblock` calls (`ChannelFailures.EnqueueTellsIff`). Otherwise an `Enqueue` can fail although its datum
  is delivered (`ChannelFailures.FailedEnqueueCanBeDelivered`).
- The channel loses nothing it has accepted from a program if and only if the program does not use `EnqueueNonblock` together with a
  `Dequeue` that may be cancelled (`ChannelFailures.LosslessIff`, with the run in `ChannelFailures.CancelledDequeueCanLoseDatum`);
  cancelled `Enqueue` calls lose nothing.
- A call can wait for a claim that nobody will look at again, until its own context ends: when an `Enqueue` or `Dequeue` gives up with
  the other side's claim in hand (`ChannelFailures.CancelledLeavesOtherBehind`), and when `DequeueNonblock` takes a waiting `Enqueue`'s
  datum by default (`ChannelFailures.DefaultLeavesEnqueueBehind`). A program never leaves a waiter behind like that if and only if
  it makes no `Enqueue` calls, or neither `DequeueNonblock` calls nor `Dequeue` calls together with a `Dequeue` or `Enqueue` that
  may be cancelled (`ChannelFailures.NeverStrandsIff`).
- The log file iterator does not know JSON strings: an object is read back as it was written if and only if its braces are balanced
  with none closed too early, those in strings included (`JsonIterators.ReadBackIff`; `{"}"}` in `JsonIterators.BraceInStringCutsShort`).
- Link ids are injective for sources without spaces. In general the id of a flow's link is shared by the link of a flow with another source,
  protocol, destination or port if and only if a protocol name between spaces in the source or the destination leaves the id of a
  sender before it and the id of a receiver after it (`Links.SharedIffReadsOn`). Two such flows are given by `Links.TwoFlowsShareAnId`.
- A comment in `backend/domain/cache/cache.go` (line 131) says that only the verdict can differ between two links with one
  id. The code also compares, and so also reports changes of, authentication type and encryption; the model follows the code
  (`Links.SameIdCanDifferInAuthType`).
- A status entry can be pending without being in the list. A push that finds all pending entries listed leaves them so if and only if it
  neither files a repeated entry that is not itself in the list, nor pushes a new one onto a full list whose oldest uncompleted entry
  is pending under its key, since an entry that falls off leaves the pending index under its hash only
  (`StatusCenters.PendingStaysListedIff`, with `StatusCenters.EvictedStaysPending` and `StatusCenters.RepeatedIsPendingUnlisted`).

## Model

| member | source | states |
|---|---|---|
| `Deques.Deque.Push` | backend/pkg/deque/deque.go:56-62 | the contents are a sequence that gains its new last element, whatever reallocation happens on the way; how many elements are moved |
| `Deques.Deque.PushBack` | backend/pkg/deque/deque.go:77-85 | the same at the front |
| `Deques.Deque.Pop` | backend/pkg/deque/deque.go:43-54 | takes and returns the last element, or reports that there is none |
| `Deques.Deque.PopBack` | backend/pkg/deque/deque.go:64-75 | takes and returns the first element, or reports that there is none |
| `Deques.Deque.Get` | backend/pkg/deque/deque.go:18-24 | reads the i-th element of the contents, nothing past their end |
| `Deques.Deque.Peek` | backend/pkg/deque/deque.go:26-33 | reads the last element |
| `Deques.Deque.PeekBack` | backend/pkg/deque/deque.go:35-41 | reads the first element |
| `Deques.Deque.Slice` | backend/pkg/deque/deque.go:91-99 | returns the contents in order |
| `Deques.Deque.Flush` | backend/pkg/deque/deque.go:101-104 | empties the contents and keeps the memory |
| `Deques.Deque.Realloc` | backend/pkg/deque/deque.go:136-147 | moving to any capacity that holds the elements keeps the contents; the shrinking caller meets that condition |
| `Deques.AmortizedCopies` | backend/pkg/deque/deque.go:43-147 | over any run of m operations on New(size), at most 8m + 2 size elements are copied in all |
| `Deques.RunPaysForItself` | backend/pkg/deque/deque.go:106-147 | from any state, the copies of any run are paid for by 8 per operation and the potential used up |
| `Deques.GrowsByDoubling` | backend/pkg/deque/deque.go:106-128 | pushed into a deque without memory, m elements lie in the least power of two that holds them, for one copy less than that in all |
| `Deques.DrainsByHalving` | backend/pkg/deque/deque.go:112-134 | popping down to k elements halves the capacity just as often as it takes for them to fill more than a third |
| `Deques.NeverFlushedStaysTight` | backend/pkg/deque/deque.go:106-134 | a deque that starts empty and is never flushed is always more than a third full or has no memory |
| `DynamicChannels.DynamicChannel.OfferSection` | backend/pkg/dynamic_channel/channel.go:78-106 | over two real deques, the lock section of the two enqueues computes the shared-state function that the concurrent system steps by |
| `DynamicChannels.DynamicChannel.TakeSection` | backend/pkg/dynamic_channel/channel.go:150-181 | the same for the two dequeues |
| `DynamicChannels.DynamicChannel.Slice` | backend/pkg/dynamic_channel/channel.go:63-75 | the parked data, oldest first |
| `DynamicChannels.DynamicChannel.Peek` | backend/pkg/dynamic_channel/channel.go:222-232 | the head of what Slice returns |
| `DynamicChannels.OfferKeepsOneSided` | backend/pkg/dynamic_channel/channel.go:77-147 | a producer keeps one of the two queues empty, and either meets a consumer with nothing parked before it, or parks at the end |
| `DynamicChannels.TakeKeepsOneSided` | backend/pkg/dynamic_channel/channel.go:149-220 | a consumer keeps one of the two queues empty, and takes the oldest parked datum if there is one |
| `DynamicChannels.OldestIsServedFirst` | backend/pkg/dynamic_channel/channel.go:77-220 | whoever finds the other side waiting takes out exactly the claim that has waited longest |
| `ChannelProtocol.StepKeepsInv` | backend/pkg/dynamic_channel/channel.go:77-254 | every lock section, select and close of every operation keeps the global invariant: well-formed one-sided queues, each claim's owner, datum and gates, exclusive holders, accepted enqueues delivered |
| `ChannelDelivery.DeliveredAtMostOnce` | backend/pkg/dynamic_channel/channel.go:77-220 | in every interleaving, with any cancellations, a datum is returned by at most one dequeue, and unaltered |
| `ChannelDelivery.AcceptedIsDeliveredOnce` | backend/pkg/dynamic_channel/channel.go:77-115 | a blocking Enqueue returns nil only if exactly one dequeue returns its datum |
| `ChannelDelivery.AcceptedIffDelivered` | backend/pkg/dynamic_channel/channel.go:77-115 | without DequeueNonblock calls, a returned Enqueue returned nil if and only if a dequeue returned its datum |
| `ChannelDelivery.NoChannelPanics` | backend/pkg/dynamic_channel/channel.go:88-92 | nobody ever sends on or closes a closed or nil channel |
| `ChannelDelivery.QueuesNeverBothFilled` | backend/pkg/dynamic_channel/channel.go:77-220 | at every lock release of every run at most one of supply and demand is non-empty |
| `ChannelDelivery.RunKeepsOnePlace` | backend/pkg/dynamic_channel/channel.go:77-220 | in every run the right to deliver a datum is in at most one place: producer, queue, taker, handed-to waiter, receiver, or a claim both closed and invalidated |
| `ChannelAnswers.NothingMeansEmpty` | backend/pkg/dynamic_channel/channel.go:192-220 | DequeueNonblock answers nil only by a lock section that finds nothing parked |
| `ChannelAnswers.NothingIffEmpty` | backend/pkg/dynamic_channel/channel.go:192-220 | a lock section of DequeueNonblock answers nil if and only if nothing is parked |
| `ChannelAnswers.NilFoundNothing` | backend/pkg/dynamic_channel/channel.go:192-220 | in every run, a DequeueNonblock that has answered nil has had such a lock section |
| `ChannelAnswers.CancelledByItself` | backend/pkg/dynamic_channel/channel.go:89-190 | a call gives up only by choosing its own context, at once or after invalidating its claim |
| `ChannelAnswers.GaveUpIff` | backend/pkg/dynamic_channel/channel.go:89-190 | in every run, a call has given up if and only if it chose its context at a select |
| `ChannelAnswers.HowAccepted` | backend/pkg/dynamic_channel/channel.go:77-147 | an Enqueue is accepted only by meeting a dequeue, an EnqueueNonblock only by closing a claim or by parking with no demand |
| `ChannelAnswers.InvalidClaimMeansRetry` | backend/pkg/dynamic_channel/channel.go:91-96 | in every run, a call that found its claim invalidated has not answered: it is back at the lock, and can take it |
| `ChannelAnswers.ErrorIsFinal` | backend/pkg/dynamic_channel/channel.go:77-115 | once an Enqueue has returned an error, nobody is given its datum who does not have it yet |
| `ChannelAnswers.LostToLaterOnly` | backend/pkg/dynamic_channel/channel.go:117-147 | an EnqueueNonblock loses its datum only to a Dequeue that gave up after it was called |
| `ChannelAnswers.OnlyWaitersAreLeft` | backend/pkg/dynamic_channel/channel.go:77-220 | no deadlock: when nothing but new calls and ending contexts can happen, each call has returned or waits for a claim that is queued or was dropped |
| `ChannelAnswers.SixStepsPerCall` | backend/pkg/dynamic_channel/channel.go:77-220 | no livelock: however calls interleave, fail and try again, a run of n calls takes at most 6n steps |
| `ChannelFailures.EveryPairCanMeet` | backend/pkg/dynamic_channel/channel.go:77-220 | concrete runs in which each kind of enqueue passes its datum to each kind of dequeue, whoever comes first |
| `ChannelLoss.AcceptedIsInOnePlace` | backend/pkg/dynamic_channel/channel.go:117-147 | in every run, with any cancellations, the datum of an EnqueueNonblock that has returned is in exactly one place: queued, handed to a waiting Dequeue, returned by a dequeue, or lost |
| `ChannelLoss.LostToCancelled` | backend/pkg/dynamic_channel/channel.go:183-189 | what is lost was handed to a Dequeue that returned its context's error |
| `ChannelLoss.NothingIsLost` | backend/pkg/dynamic_channel/channel.go:117-190 | while no Dequeue has given up, whatever else is cancelled, an accepted datum is queued, handed to a waiting Dequeue or delivered |
| `ChannelLoss.StepStrandsIff` | backend/pkg/dynamic_channel/channel.go:77-220 | from a state without stranded waiters a step strands one if and only if it drops a claim, held at a select, whose owner is waiting for it |
| `ChannelLoss.AttendedUnlessAbandoned` | backend/pkg/dynamic_channel/channel.go:77-220 | in every run without such steps each waiter's claim is queued, held by somebody, or closed |
| `ChannelFailures.NeverStrandsIff` | backend/pkg/dynamic_channel/channel.go:77-220 | for any sets of calls that may be made and that may be cancelled: in all runs each waiter's claim is queued, held or closed, exactly when not both Enqueue and a consumer are among them of which one can drop the other's claim |
| `ChannelFailures.DefaultLeavesEnqueueBehind` | backend/pkg/dynamic_channel/channel.go:207-215 | a concrete run after which an Enqueue waits, its datum already returned and its claim in nobody's hands |
| `ChannelFailures.CancelledLeavesOtherBehind` | backend/pkg/dynamic_channel/channel.go:88-92 | a concrete run after which an Enqueue, or a Dequeue, waits for the claim that the other one has dropped |
| `ChannelOrder.FirstInFirstOut` | backend/pkg/dynamic_channel/channel.go:63-232 | without cancellation, everything enqueued, in lock order, is what was handed over, in lock order, followed by Slice |
| `ChannelOrder.AssignedIffReturned` | backend/pkg/dynamic_channel/channel.go:149-220 | without cancellation, a dequeue that has returned returned a datum if and only if it was handed that datum |
| `ChannelFailures.EnqueueTellsIff` | backend/pkg/dynamic_channel/channel.go:77-220 | for any set of calls a program may make: in all its runs every returned Enqueue returned nil if and only if its datum was received, exactly when the set does not hold both an Enqueue and DequeueNonblock |
| `ChannelFailures.FailedEnqueueCanBeDelivered` | backend/pkg/dynamic_channel/channel.go:207-215 | a concrete run in which Enqueue returns the context's error and DequeueNonblock returns its datum |
| `ChannelFailures.LosslessIff` | backend/pkg/dynamic_channel/channel.go:77-220 | for any sets of calls that may be made and that may be cancelled: in all runs every accepted datum is queued, handed to a waiting Dequeue or delivered, exactly when not both EnqueueNonblock and a cancellable Dequeue are among them |
| `ChannelFailures.CancelledDequeueCanLoseDatum` | backend/pkg/dynamic_channel/channel.go:129-134 | a concrete run in which EnqueueNonblock returns and nobody has or will have its datum |
| `RingBuffers.RingBuffer.Push` | backend/pkg/ring_buffer/ring_buffer.go:22-29 | appends, dropping the oldest element of a full buffer; does nothing on a buffer without capacity |
| `RingBuffers.RingBuffer.GetPushPointer` | backend/pkg/ring_buffer/ring_buffer.go:148-173 | whatever is then written to the slot, the contents are those after pushing it |
| `RingBuffers.RingBuffer.Pop` | backend/pkg/ring_buffer/ring_buffer.go:40-57 | takes and returns the newest element, or reports that there is none |
| `RingBuffers.RingBuffer.Get` | backend/pkg/ring_buffer/ring_buffer.go:59-77 | reads the idx-th element; outside the contents, negative indices included, the slot found going round the whole buffer |
| `RingBuffers.RingBuffer.GetFirst` | backend/pkg/ring_buffer/ring_buffer.go:79-81 | the oldest element |
| `RingBuffers.RingBuffer.GetLast` | backend/pkg/ring_buffer/ring_buffer.go:83-97 | the newest element |
| `RingBuffers.RingBuffer.Iterate` | backend/pkg/ring_buffer/ring_buffer.go:118-128 | visits the contents from the oldest, up to and including the first one the callback stops at |
| `RingBuffers.RingBuffer.ReverseIterate` | backend/pkg/ring_buffer/ring_buffer.go:99-116 | the same from the newest |
| `RingBuffers.PushesKeepNewest` | backend/pkg/ring_buffer/ring_buffer.go:22-29 | after any pushes the buffer holds exactly the newest elements that fit, in order |
| `RingBufferClaims.ClaimsGoRoundInOrder` | backend/pkg/ring_buffer/ring_buffer.go:148-173 | for any number of pushers and any schedule of loads and swaps, the k-th successful claim gets slot k mod c, and n and start are min(k,c) and max(0,k-c) mod c |
| `RingBufferClaims.WindowIsNewestClaims` | backend/pkg/ring_buffer/ring_buffer.go:148-173 | in every schedule the i-th element of the buffer is the slot of the i-th of the last n claims |
| `RingBufferClaims.NoSlotIsSharedWithinATurn` | backend/pkg/ring_buffer/ring_buffer.go:148-173 | of any c claims in a row no two share a slot |
| `RingBufferClaims.RetryMeansAnotherClaimed` | backend/pkg/ring_buffer/ring_buffer.go:161-169 | a swap fails only if another claim has been made since the pusher loaded start |
| `RateLimiters.RateLimiter.Acquire` | backend/pkg/rate_limiter/rate_limiter.go:49-74 | grants, sleeps and moves the bucket as the run functions below assume, and touches nothing when unlimited or disabled |
| `RateLimiters.RunTracks` | backend/pkg/rate_limiter/rate_limiter.go:57-73 | after any requests the bucket is the heaviest load that any suffix of the grants still weighs |
| `RateLimiters.RunGrantsIffKeepsRate` | backend/pkg/rate_limiter/rate_limiter.go:57-73 | after any requests to a new limiter, the next one is granted exactly when the grants made so far and this one satisfy n step <= period + span over every window |
| `RateLimiters.GrantsNeverExceedRate` | backend/pkg/rate_limiter/rate_limiter.go:57-73 | over any run, any n grants in a row spanning time W satisfy n step <= period + W |
| `RateLimiters.AcquireIsOptimal` | backend/pkg/rate_limiter/rate_limiter.go:57-73 | no choice of requests that keeps that rate grants more of them than Acquire does |
| `RateLimiters.BucketStaysInPeriod` | backend/pkg/rate_limiter/rate_limiter.go:57-73 | over any run 0 <= bucket <= period |
| `RateLimiters.BurstGrantsRoom` | backend/pkg/rate_limiter/rate_limiter.go:57-73 | at one instant exactly as many requests are granted as whole steps fit above the level |
| `RateLimiters.EmptyBucketAdmitsTheLimit` | backend/pkg/rate_limiter/rate_limiter.go:91-100 | an empty bucket admits exactly floor(period/step) requests at one instant, at least the configured limit |
| `RateLimiters.StepIsLongestThatFits` | backend/pkg/rate_limiter/rate_limiter.go:91-100 | the step is the longest of which the limit fits into the period, for either sign; the two special limits stand for themselves |
| `RateLimiters.BurstIsTheLimitIff` | backend/pkg/rate_limiter/rate_limiter.go:57-100 | an empty bucket admits exactly the limit at one instant if and only if period < (limit + 1) step, in particular when the limit divides the period |
| `RateLimiters.PositiveLimitIsUnlimitedIffTooFine` | backend/pkg/rate_limiter/rate_limiter.go:91-100 | a positive limit gives step 0, that is no limit, if and only if it exceeds the period, and otherwise 0 < step <= period |
| `RateLimiters.RetryAfterMinSleep` | backend/pkg/rate_limiter/rate_limiter.go:62-65 | after a denial the state is unchanged and a retry is granted exactly when minSleep has passed |
| `RateLimiters.BisimilarToVirtualScheduling` | backend/pkg/rate_limiter/rate_limiter.go:57-73 | one call decides and moves as virtual scheduling with increment step and limit period - step |
| `RateLimiters.RunsAgreeWithVirtualScheduling` | backend/pkg/rate_limiter/rate_limiter.go:57-73 | over any run with nondecreasing times both algorithms grant the same requests |
| `RateLimiterSchedules.LastIsNewestGrant` | backend/pkg/rate_limiter/rate_limiter.go:57-73 | among any goroutines, in every schedule, the time of the last acquisition is that of the newest grant and the bucket stays within 0 and the period |
| `RateLimiterSchedules.KeepsRateIffAlone` | backend/pkg/rate_limiter/rate_limiter.go:57-73 | among that many goroutines, over every schedule of loads, swaps and stores, the grants keep the rate, exactly when there is at most one goroutine |
| `RateLimiters.TooFineForASecond` | backend/pkg/rate_limiter/rate_limiter.go:91-100 | a concrete positive limit that is no limit |
| `RateLimiterSchedules.GrantsAtDifferentReadings` | backend/pkg/rate_limiter/rate_limiter.go:57-73 | a concrete schedule with clock readings 1 and 2 and two grants, which keep the rate exactly when two steps fit in the period and that nanosecond |
| `RateLimiterSchedules.TwoGrantsCountedOnce` | backend/pkg/rate_limiter/rate_limiter.go:57-73 | a concrete schedule of two goroutines with two grants of which the bucket counts one |
| `StatusCenters.StatusCenter.PushEntry` | src/ui-layer/status-center.ts:116-150 | keeps every keyed entry under its own key and in the list and the list within its limit; completes exactly the entries reachable from the pushed one; whole new list, key index and pending index; when every pending entry stays in the list |
| `StatusCenters.PendingStaysListedIff` | src/ui-layer/status-center.ts:116-150 | where all pending entries were in the list, they are after a push exactly when it is neither a repeat of a key by a pending entry outside the list nor evicts an uncompleted entry that is pending under its key |
| `StatusCenters.PushListsIff` | src/ui-layer/status-center.ts:116-150 | the same under whatever names entries are pending: exactly when it is no such repeat and the entry that falls off, unless it is in the list again, is pending under no name other than its hash and those the push refiles or completes |
| `StatusCenters.EvictedStaysPending` | src/ui-layer/status-center.ts:512-528 | a concrete center whose pending entry has fallen off the list |
| `StatusCenters.RepeatedIsPendingUnlisted` | src/ui-layer/status-center.ts:312-353 | a concrete center whose pending entry has never been in the list |
| `StatusCenters.SameEntryTwice` | src/ui-layer/status-center.ts:325-338 | a concrete center in which an entry without a key, pushed twice in a row, is listed once |
| `StatusCenters.AnotherInBetween` | src/ui-layer/status-center.ts:325-338 | and listed twice with another one in between |
| `StatusCenters.KeyedIsFoundAgain` | src/ui-layer/status-center.ts:340-353 | a concrete center in which a key is known after other pushes |
| `StatusCenters.NoLongerPending` | src/ui-layer/status-center.ts:312-323 | a concrete center in which an entry that is not pending ends what was pending under its key |
| `StatusCenters.EmptyKeyIsNoName` | src/ui-layer/status-center.ts:312-313 | a concrete entry with an empty key, pending under its hash |
| `StatusCenters.StatusCenter.CompleteEntryDescendants` | src/ui-layer/status-center.ts:370-396 | terminates on any key graph; un-keys and un-pends exactly the reachable entries, returns once each those that were pending, leaves all others alone |
| `StatusCenters.FrontierAdvances` | src/ui-layer/status-center.ts:374-393 | one round of the worklist keeps it sound and complete for reachability |
| `StatusCenters.FrontierEnds` | src/ui-layer/status-center.ts:374-393 | when the worklist is empty what has been visited is exactly what can be reached along a path |
| `StatusCenters.StatusCenter.ApplyPendingStatus` | src/ui-layer/status-center.ts:312-323 | files or removes the entry under its key or, without one, its hash, and tells whether that name was pending |
| `StatusCenters.StatusCenter.TryUpdateExistingEntry` | src/ui-layer/status-center.ts:325-353 | tells exactly when an entry repeats one, remembers a new keyed one, and changes no other entry |
| `StatusCenters.StatusCenter.MoveExistingEntryToTop` | src/ui-layer/status-center.ts:355-368 | the first match goes to the end, nothing falls off the list |
| `StatusCenters.StatusCenter.PushLimited` | src/ui-layer/status-center.ts:512-528 | at the limit the oldest entry makes room and leaves both indices |
| `StatusCenters.MovedAllIsStable` | src/ui-layer/status-center.ts:142-144 | for any list, repetitions included, the first occurrences of the completed entries end up on top in order of completion, and everything else keeps its order below |
| `StatusCenters.CompletedIsItsOnlyMatch` | src/ui-layer/status-center.ts:359-361 | an entry without a key finds only itself in the list |
| `DLLists.DLList.constructor` | backend/pkg/dllist/dllist.go:16-26 | an empty well-formed circle |
| `DLLists.DLList.Add` | backend/pkg/dllist/dllist.go:41-56 | appends one fresh item and keeps the circle, changing only the links around the root |
| `DLLists.DLList.Clear` | backend/pkg/dllist/dllist.go:28-39 | empties the list, leaving the old items as they are |
| `DLLists.DLList.Iterate` | backend/pkg/dllist/dllist.go:62-80 | an undisturbed iteration visits each live item once, in insertion order |
| `DLLists.DLList.RootIsNoItem` | backend/pkg/dllist/dllist.go:62-80 | and never the sentinel |
| `DLLists.ListItem.Drop` | backend/pkg/dllist/list_item.go:20-27 | removes exactly this item, wherever it sits, and keeps the circle, changing only its neighbours' links |
| `DLLists.DLList.Follow` | backend/pkg/dllist/dllist.go:70-77 | following next k times from the root goes round the circle of n + 1 nodes |
| `DLLists.DLList.FollowBack` | backend/pkg/dllist/dllist.go:45-52 | following prev k times goes round the same circle the other way |
| `JsonIterators.JsonIterator.ReadNextObject` | backend/internal/log_file/log_file_iterator.go:86-128 | delivers the first object of the unread text and leaves the others, or consumes everything when there is none; terminates, and the depth never becomes negative |
| `JsonIterators.JsonIterator.Advance` | backend/internal/log_file/log_file_iterator.go:61-84 | moves the two slots on by one object, if one was loaded, and leaves the rest of what remains as it was; an empty slot afterwards means that nothing remains |
| `JsonIterators.JsonIterator.Next` | backend/internal/log_file/log_file_iterator.go:25-33 | with a loaded slot, delivers the first of the remaining objects and leaves the others; otherwise the empty string, losing nothing |
| `JsonIterators.JsonIterator.HasNext` | backend/internal/log_file/log_file_iterator.go:35-49 | tells whether anything remains, and loses, repeats and reorders nothing |
| `JsonIterators.JsonIterator.Collect` | backend/internal/log_file/log_file_iterator.go:51-59 | returns all remaining objects in order; terminates |
| `JsonIterators.WeaveRoundTrip` | backend/internal/log_file/log_file_iterator.go:86-128 | a list of balanced objects, separated by text without an opening brace and followed by a gap or an unfinished object, has exactly those objects |
| `JsonIterators.WrittenObjectsAreRead` | backend/internal/log_file/log_file_iterator.go:51-128 | and is read back as exactly that list when it holds no replacement character |
| `JsonIterators.ReadBackIff` | backend/internal/log_file/log_file_iterator.go:86-128 | a text is its own only object if and only if its braces are balanced and none is closed too early |
| `JsonIterators.BraceInStringCutsShort` | backend/internal/log_file/log_file_iterator.go:110-120 | a concrete JSON object with a brace in a string, cut short |
| `JsonIterators.TextIsWeave` | backend/internal/log_file/log_file_iterator.go:86-128 | conversely every text is its objects woven with gaps and a tail |
| `JsonIterators.SplitsAgree` | backend/internal/log_file/log_file_iterator.go:86-128 | a text has at most one first object |
| `Services.IdIsNeverZero` | backend/domain/service/service.go:147-179 | no endpoint ever gets the service id "0" or an empty one |
| `Services.IdsAreExactly` | backend/domain/service/service.go:147-179 | the ids of senders, and of receivers, are exactly the numerals below 2^32, the texts with a slash inside and the texts that end in the service's side |
| `Services.NumeralIffIdentified` | backend/domain/service/service.go:153-155 | an id is a numeral if and only if the endpoint has a positive identity and is not the world, and then it is that identity |
| `Services.OtherwiseWorkload` | backend/domain/service/service.go:157-166 | otherwise an endpoint with a named workload goes by its kind and name alone |
| `Services.OtherwiseFirstName` | backend/domain/service/service.go:168-178 | otherwise by its first DNS name, or as the world, and its side |
| `Services.SidesMeetIff` | backend/domain/service/service.go:147-179 | what sends and what receives has one id if and only if it has an identity of its own or a named workload |
| `Services.IsEnrichedWith` | backend/domain/service/service.go:122-144 | enriched exactly when the multisets of workload names differ |
| `Links.LinkIdIsInjective` | backend/domain/link/link.go:129-140 | for sources without spaces the id determines source, protocol, destination and port, whatever the destination contains |
| `Links.SameIdDiffersOnlyInVerdictAuthEncryption` | backend/domain/link/link.go:170-179 | links with one id are Equal if and only if verdict, authentication type and encryption agree |
| `Links.SameIdCanDifferInAuthType` | backend/domain/link/link.go:170-179 | two concrete flows whose links agree in id, parts, verdict and encryption and are not Equal |
| `Links.SharedIffReadsOn` | backend/domain/link/link.go:32-140 | the id of a flow's link is that of some flow's link with other parts if and only if, at a protocol name between spaces in its source or destination, the text before is a sender's id, the text after a receiver's, and the port fits the protocol |
| `Links.TwoFlowsShareAnId` | backend/domain/link/link.go:129-140 | two concrete flows with different sources and destinations and one link id |
| `Links.MarkedNeedNotBeShared` | backend/domain/link/link.go:129-140 | a concrete flow with a protocol name in its destination whose link id no other parts have |
| `Links.CollidesIffMarked` | backend/domain/link/link.go:129-140 | the id function, given any two texts, a port and a protocol, gives the same id for other arguments if and only if a protocol name between spaces shows up in one of the texts |
| `Caches.DataCache.UpsertServicesFromFlows` | backend/domain/cache/cache.go:39-67 | the cache and the results are those of upserting each flow's sender and then its receiver, one after the other |
| `Caches.DataCache.UpsertOneService` | backend/domain/cache/cache.go:91-113 | Added, Modified when the workload names change, Exists, or Unknown |
| `Caches.DataCache.UpsertLinksFromFlows` | backend/domain/cache/cache.go:69-89 | the cache and the results are those of upserting each flow's link in turn, skipping flows that make none |
| `Caches.DataCache.UpsertServiceLink` | backend/domain/cache/cache.go:115-134 | Added, Modified when what is sent for the link changes, or Exists |
| `Caches.DataCache.Drop` | backend/domain/cache/cache.go:31-37 | both maps are empty |
| `Caches.ReplayAgrees` | backend/domain/cache/cache.go:69-89 | a client applying only the reported results has, after any links, the table of the last link seen for each id, which is the cache's |
| `Caches.BatchesConcatenate` | backend/domain/cache/cache.go:69-89 | batches one after the other report and cache what one long batch does |
| `Caches.EveryResultChangesTheTable` | backend/domain/cache/cache.go:115-134 | nothing is reported in vain: every result adds an id or changes what the client has for it |
| `Caches.AddedOnceThenModified` | backend/domain/cache/cache.go:115-134 | from an empty cache each id is reported Added once, first, and Modified ever after |
| `Caches.CachedNamesAreLatest` | backend/domain/cache/cache.go:91-113 | after any run each cached service has the workload names of the latest service with its id |
| `Caches.ServiceReplayAgrees` | backend/domain/cache/cache.go:39-67 | a client applying only the reported service results has exactly the cached services |
| `Caches.EveryServiceResultChanges` | backend/domain/cache/cache.go:91-113 | every service result is Added for a new id, and otherwise Modified with other workload names than before |
| `Caches.LastFlowIsWritten` | backend/domain/link/link.go:32-66 | for each id the table describes the last flow that makes a link with it: ends, verdict, authentication, encryption, and port and protocol case by case |
| `Caches.ServicesAreTheEnds` | backend/domain/cache/cache.go:39-67 | the services are the ends of the flows, flagged by side, each under its id, and none is missing |
| `Caches.BatchKeepsEndsKnown` | backend/domain/cache/cache.go:39-89 | after services and links of a batch are upserted, both ends of every cached link are cached services |
| `Caches.LinksJoinServices` | backend/domain/link/link.go:32-66 | both ends of every link are ids of services built from the same flows |
| `DataThrottlers.DataThrottler.Push` | backend/pkg/data_throttler/data_throttler.go:41-51 | refuses exactly when full, otherwise appends; the deque's memory never moves |
| `DataThrottlers.DataThrottler.Flush` | backend/pkg/data_throttler/data_throttler.go:111-120 | returns everything in order and keeps nothing; the deque's memory never moves |
| `DataThrottlers.DataThrottler.IterateAndFlush` | backend/pkg/data_throttler/data_throttler.go:53-64 | calls back with everything in order and keeps nothing; the deque's memory never moves |
| `DataThrottlers.DataThrottler.New` | backend/pkg/data_throttler/data_throttler.go:27-39 | an unbounded throttler is refused |
| `ServiceMapStreams.ServiceMapStream.FlushFlows` | backend/internal/apiserver/service_map_stream.go:87-108 | one batch with everything buffered is sent, or lost with the send error; what was sent before stays sent; cache and all sent link and service results stay in step |
| `ServiceMapStreams.ServiceMapStream.OnFlow` | backend/internal/apiserver/service_map_stream.go:144-154 | an overflowing flow is pushed after the flush, and that push always succeeds |
| `ServiceMapStreams.ServiceMapStream.Handle` | backend/internal/apiserver/service_map_stream.go:112-163 | what each event does to the buffer, to what has been sent, received and lost, and the outcome it gives |
| `ServiceMapStreams.OutcomeSaysWhy` | backend/internal/apiserver/service_map_stream.go:112-163 | a send error if and only if a due send failed, a stream error for unrecoverable errors and a stopped stream, a clean end for a closed channel |
| `ServiceMapStreams.TickSendsEverything` | backend/internal/apiserver/service_map_stream.go:140-143 | after a tick the batches sent are all the flows that have arrived, and nothing is buffered |
| `ServiceMapStreams.SinceTick` | backend/internal/apiserver/service_map_stream.go:144-154 | of n flows since the last tick, (n - 1) / max batches have been sent and (n - 1) mod max + 1 flows are buffered |
| `ServiceMapStreams.FromTickOn` | backend/internal/apiserver/service_map_stream.go:110-163 | after a tick the loop behaves as if it had just begun |
| `ServiceMapStreams.BatchesThenBuffer` | backend/internal/apiserver/service_map_stream.go:87-163 | the batches sent and the buffer are the flows that arrived, in order |
| `ServiceMapStreams.ServiceMapStream.Run` | backend/internal/apiserver/service_map_stream.go:110-164 | over any events, handled up to the first one that ends the loop, whose outcome it returns: exactly the batches that were due are sent; the flows sent, then lost with a send error, then buffered are the flows received, in order; batches fit; responses are only ever appended; without a send error nothing is lost; the deque never reallocates |
| `ServiceMapStreams.ClientTableIsLastWritten` | backend/internal/apiserver/service_map_stream.go:87-108 | a client applying the link results it was sent has the table of one that made links of every flow it was sent |
| `ServiceMapStreams.ClientSeesLastFlows` | backend/domain/link/link.go:157-168 | in terms of flows: for each link id a client has what the last flow it was sent says that makes a link with that id, and no other ids |
| `ServiceMapStreams.ClientServicesAreTheEnds` | backend/internal/apiserver/service_map_stream.go:87-108 | its services are the ends of the flows it was sent, each under its id, and none is missing |
| `ServiceMapStreams.ClientServicesAreLatest` | backend/internal/apiserver/service_map_stream.go:87-108 | a client applying the service results it was sent has the cached services, with the workload names of the latest service per id among the flows it was sent |
| `ServiceMapStreams.ClientKnowsEnds` | backend/internal/apiserver/service_map_stream.go:87-108 | both ends of every link such a client has are services it has |
| `Emitters.EventEmitter.On` | src/utils/emitter.ts:32-45 | registers and delivers everything cached for the event, in order |
| `Emitters.EventEmitter.Once` | src/utils/emitter.ts:47-60 | takes the first cached payload and stays unregistered, or registers |
| `Emitters.EventEmitter.Off` | src/utils/emitter.ts:62-71 | unregisters one handler, or all, of the event |
| `Emitters.EventEmitter.Emit` | src/utils/emitter.ts:73-91 | calls every handler once in registration order and clears the once handlers, or caches |
| `Emitters.EventEmitter.EmitCached` | src/utils/emitter.ts:129-142 | what a registration consumes of the cache |
| `Emitters.CachedMeansUnheard` | src/utils/emitter.ts:32-91 | in any run an event with cached payloads has no handlers |
| `Emitters.EmittedIsDeliveredThenCached` | src/utils/emitter.ts:32-151 | while the emitter caches and its cache is not dropped, the payloads emitted for an event are those delivered, each once and in order, followed by those cached |
| `Emitters.OnceIsAtMostOnce` | src/utils/emitter.ts:47-91 | in any run a handler registered only with once is called at most once per registration |
| `EmitterHistories.EmissionCallsRegistered` | src/utils/emitter.ts:73-91 | after any operations an emission calls a handler exactly once for each way in which the operations have registered it, with what is emitted |
| `EmitterHistories.RegisteredIsCalled` | src/utils/emitter.ts:32-91 | who was registered with on and not unregistered since is called by every emission |
| `EmitterHistories.UnregisteredIsNotCalled` | src/utils/emitter.ts:62-96 | who was unregistered, in whatever way, and not registered since is not called any more |
| `EmitterHistories.EmissionIsInOrder` | src/utils/emitter.ts:82-90 | those registered with on are called first, in order of registration, and then those registered with once, in theirs |
| `EmitterHistories.WaitingAfter` | src/utils/emitter.ts:73-151 | what waits for a handler is what has been emitted while caching with nobody registered, and not been given to one or dropped |
| `EmitterHistories.RegistrationIsGiven` | src/utils/emitter.ts:129-142 | on is given all that waits, in order, and once the first of it |

## Left out

- Machine integers: lengths, indices and nanoseconds are unbounded; overflow of `uint` and `int64` is not modelled. Ports and identities are 32 bits wide.
- Pointers into buffers: `Get`, `Peek` and `Pop` return the element's value at the call, not a pointer that a later write could reach.
- `Advance`, `PushUpdate` and `String` of the ring buffer: no caller in the repository uses the first two.
- RingBuffers.RingBuffer.Push: is sequential; under concurrency only the claiming of slots is modelled, not the write of the element that follows, nor `Pop`, `Get` or iteration racing with pushers.
- RateLimiters.RateLimiter.Acquire: is the call undisturbed by others, given the clock reading; its interleavings are the steps of `RateLimiterSchedules`. `Wait`, which sleeps without acquiring, and negative limits other than the disabling one in the run theorems are left out.
- Claims as heap objects: a claim pointer is the index of the claim in the order of allocation.
- Fairness of the channel: which of several possible steps is taken is left open, so that nothing is said about when a given call returns.
- `AsOutputChannel`, which only forwards from `Dequeue` to a Go channel.
- StatusCenters.StatusCenter.PushEntry: needs hashes to identify entries, as the random hashes are meant to, and a limit of at least one, below which the code fails; of an entry only hash, key, pending flag and keys to complete are modelled, the emitted event is the pair of flags returned, and `_seenTop`, the message builders and the derived views are left out.
- StatusCenters.StatusCenter.TryUpdateExistingEntry: needs hashes to identify entries, for the same reason.
- StatusCenters.PendingStaysListedIff: is for pushes of entries that are not already pending under another name, as a caller that re-keys an entry between pushes could make it; `PushListsIff` has no such condition, and is about the entry that does fall off.
- DLLists.ListItem.Drop: is for items still in their list; dropping twice or after `Clear`, and iterating with a callback that edits the list, are left out, as is locking.
- Reader errors other than the end of the input, and UTF-8 decoding: the scanner is given runes.
- Labels: whether an endpoint is the world is a flag of the endpoint instead of being read off its label list.
- Links.FromFlow: does not model flow amounts, latencies and transferred bytes, which are neither compared nor sent.
- Services as objects whose sender and receiver flags are set after construction: `SenderOf` and `ReceiverOf` build them in one go.
- `sort.Strings` and decimal formatting are standard library code; both are given as functions and proved to do what is used of them.
- Tickers, streams, connections, status messages' contents and the mutexes of the throttler and the cache: the loop is given its events and whether each send succeeds.
- `moveCachedEventsTo` of the emitter, which is a series of emissions on the target and a drop, handlers that call back into the emitter, and disposers.
