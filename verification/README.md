# Verified models of the Lamseryn HTTP server

Lamseryn is an HTTP/1.1 server on io_uring. Around the kernel, the TLS library and the HTTP
parser it keeps hand-written mutable bookkeeping: reference-counted connections with
operations in flight, a timing wheel of intrusive lists, an open-addressing table, lock-free
log queues, a bump allocator with a chunk cache, in-place path normalisation, a resumable
transmit state machine. This project models that bookkeeping in Dafny and proves what each
part promises.

| file | part of the server |
|---|---|
| `Lifecycle.dfy` | connections, references, operations in flight, close, timer and active-set books, over every run of completions, ticks and accepts |
| `Outcomes.dfy`, `Records.dfy` | what each completion, tick and accept does: which close, what they leave outstanding, what becomes of the connection's record |
| `SubmissionQueue.dfy` | operations staged on a number and taken by the kernel later, closes in the queue and past it |
| `Descriptors.dfy`, `DescriptorExamples.dfy` | over the same runs: which descriptors stay open without an owner, which operations the kernel takes on a number that is not the connection's own; runs that show both |
| `SharedCount.dfy` | the connection count that all workers update with compare-exchange |
| `TimingWheel.dfy` | the wheel as linked objects: list shape, cut-off-and-reinsert ticks, when deadlines fire |
| `ActiveSet.dfy` | the array of active descriptors with cached positions |
| `ConnStore.dfy` | the descriptor table: probing, tombstones, resize |
| `AccessLogQueue.dfy` | the log shards: one producer, one consumer, stale index reads |
| `AccessLogWrite.dfy` | the resuming vector write and the direct-mode ring |
| `Arena.dfy` | request arenas and the thread's chunk cache |
| `Tx.dfy` | sending headers, then a file, across partial results |
| `Url.dfy`, `Docroot.dfy` | percent decoding, dot segments, the path below the document root, the component walk |
| `HeaderBoundary.dfy` | finding the end of a request head in pieces; the receive stash |
| `Routes.dfy`, `PolicyHeaders.dfy` | route order and lookup; the merge of policy headers |
| `Decimal.dfy`, `Range.dfy`, `Base64.dfy` | number, byte-range and credential decoding |
| `Bits.dfy`, `Chains.dfy`, `Pieces.dfy` | powers of two with `x & mask`; duplicate-free sequences; concatenation |
| `Options.dfy`, `Deadlines.dfy`, `Kernel.dfy` | types shared by several parts; the answers of the kernel |

How things are modelled. A protocol with events in any order is a state machine on values
(`Lifecycle`, `AccessLogQueue`, the runs of `Tx`): a step function per handler, an invariant,
and theorems over every run. Structures and loops that the server updates in place are classes
and methods on arrays and objects, tied to specification functions about which the laws are
proved. A character or an integer below 256 stands for one byte. Integers are unbounded unless a wrap
matters; where it does (arena sizes, 64-bit numbers in headers) it is written out. Memory that
may or may not be had and the clock are parameters; the answers of the kernel to write and
sendfile are an arbitrary function from call to result, so that failure is stated exactly.

Assumed of the environment: descriptors handed out are non-negative and not open at the time;
the kernel takes staged operations in order, a close among them taking effect in its turn;
time does not go back; a write, send or sendfile acknowledges at most the bytes offered and is
interrupted only finitely often in a row; each log shard has one producer; a request path
contains no zero byte, which the HTTP parser refuses; `malloc` gives blocks of at most
2^63 - 1 bytes, aligned to 16.

Where the code does not do what one would expect, the model follows the code:

- An arena request whose `n + align` lies within 32 bytes of 2^64 makes the block size wrap, so
  the chunk claims more bytes than it has. `Arena.Thread.Alloc` states that this is the only way
  soundness is lost, `Arena.WrappingBandIsOutOfBounds` that it then is, and
  `Arena.WrappingBandExample` gives one. When `n + align` wraps past 2^64 altogether the request
  fails but leaves an empty chunk linked.
- A pointer aligned to more than 16 bytes has that address alignment exactly when its block
  happens to (`Arena.Thread.RegionTheorem`, `Arena.MisalignedExample`).
- A connection whose setup fails after accept is closed by a routine that looks the descriptor
  up in the table and does not find it, so the descriptor stays open:
  `Descriptors.LeaksIffSetupFails` says exactly when, `DescriptorExamples.LeakExample` gives one,
  `Descriptors.DescriptorTheorem` covers every run.
- Operations are staged on a descriptor number and submitted later, so they can meet a number
  that was closed or belongs to another client by then: an answer staged by a receive that had
  closed its connection over a full stash, and whatever a connection still has staged when it is
  closed at once. `Descriptors.DescriptorTheorem` says that there are no others,
  `DescriptorExamples.StrayExample` and `DescriptorExamples.OvertakenExample` give one of each.
- When the log writer cannot start, entries already accepted are lost without being counted:
  `AccessLogQueue.ShutdownTheorem` says exactly how many, `AccessLogQueue.LostExample` gives one.
- The descriptor table does not refuse a negative key, which its marks stand for, and is no
  longer a table afterwards (`ConnStore.FdMap.Put`). No caller passes one.
- The vector write passes on at most 64 vectors and then reports success
  (`AccessLogWrite.ClampCoversAll` says when that is everything, `AccessLogWrite.ClampExample`
  gives a case where it is not).
- Deleting the key -2 from the descriptor table, the mark of a deleted slot, is not refused and
  miscounts the table when its search meets such a slot (`ConnStore.FdMap.Del` says exactly
  when, `ConnStore.MeetsTombExample` gives one). No caller passes it.
- A socket that becomes writable with header bytes pending resumes only when the response kind
  is set (`Tx.WritableResumes`).

## Model

| member | source | states |
|---|---|---|
| `Lifecycle.LifetimeTheorem` | src/conn_lifecycle.c:132-191 | in every run of accepts, completions in any order and ticks: the count of a live connection is one if it is stored plus its operations in flight; no operation names a recycled one; every connection is recycled exactly once per birth, and at once when nothing refers to it |
| `Lifecycle.TablesTheorem` | src/conn_lifecycle.c:452-543 | in every run: the active count equals the stored connections; the open numbers are the stored ones, each its connection's socket, those whose close is staged, and those `Descriptors.DescriptorTheorem` accounts for as leaked; the active list has no duplicates and each entry is its connection's cached index; armed means listed in a bucket; closed or recycled connections are in none; the freelist is duplicate-free and bounded |
| `Lifecycle.RunsAreQuiet` | src/worker_loop.c:534-560 | the joint invariant of references, operations, table, active list, wheel, freelist, counts and submission queue holds in every state of every run |
| `Lifecycle.CompleteKeepsInv` | src/worker_loop.c:460-532 | a completion of any outstanding operation, with any result, keeps the invariant: the operation's reference is taken back exactly once |
| `Lifecycle.SubmitKeepsInv` | include/ring_ops.h:34-88 | a submission of any number of staged operations keeps the invariant |
| `Lifecycle.FetchKeepsInv` | lamseryn.c:694-718 | so does the end of a batch: submit, then fetch completions of operations the kernel has |
| `Lifecycle.ClosedOnlyDrains` | src/worker_loop.c:460-532 | completions of a closed connection only count down: none starts an operation, and the connection is recycled with its last one |
| `Lifecycle.FinishKeepsInv` | src/worker_loop.c:460-532 | ending an operation gives back its reference and leaves the table and the other operations alone |
| `Lifecycle.RefKeepsInv` | src/conn_lifecycle.c:178-182 | taking a reference puts one more in the handler's hands |
| `Lifecycle.HandOverKeepsBooks` | src/worker_loop.c:1260-1300 | an operation that is staged takes one held reference with it |
| `Lifecycle.PostKeepsInv` | src/worker_loop.c:1415-1531 | staging an operation on any descriptor takes one reference for it and changes nothing else that is counted, whatever looking for its entry submits |
| `Lifecycle.TakenBackIsUnposted` | src/worker_loop.c:166-213 | an operation whose submission failed is taken back without a trace: the state is the one before it was posted |
| `Lifecycle.PutKeepsInv` | src/conn_lifecycle.c:184-191 | giving back a reference recycles the connection exactly when it was the last |
| `Lifecycle.DetachKeepsBooks` | src/conn_lifecycle.c:470-542 | taking a connection out of the table, the active list and the count turns its owner reference into a held one |
| `Lifecycle.CloseNowKeepsInv` | src/conn_lifecycle.c:481-521 | a close at once keeps the invariant whatever is staged for the connection and however much is submitted before it |
| `Lifecycle.StageCloseKeepsInv` | src/conn_lifecycle.c:510-542 | a close through the queue hands the owner reference to the close operation, behind everything staged |
| `Lifecycle.ReleaseKeepsInv` | src/conn_lifecycle.c:452-543 | both ends of a close, at once or through a close operation, give back the owner reference once |
| `Lifecycle.CloseKeepsInv` | src/conn_lifecycle.c:452-543 | closing any descriptor, stored or not, removes exactly it from the table, loses no operation and leaves the connection disarmed |
| `Lifecycle.CachedIndexIsExact` | src/conn_lifecycle.c:250-288 | the cached index of an active connection is its own entry, so the linear scan is never needed |
| `Lifecycle.CountNeverUnderflows` | src/conn_lifecycle.c:57-78 | whenever a stored connection is counted down the count is positive and is the number of stored ones |
| `Lifecycle.CancelKeepsInv` | src/timing_wheel.c:227-236 | cancelling takes the connection out of its bucket and disarms it, nothing else |
| `Lifecycle.InsertKeepsInv` | src/timing_wheel.c:180-198 | arming links the connection into one bucket; a closed one is left alone |
| `Lifecycle.ServingPostRecv` | src/worker_loop.c:1260-1300 | posting a receive keeps the invariant whether or not a queue entry is to be had |
| `Lifecycle.ServingPostRemaining` | src/worker_loop.c:83-112 | so does posting the rest of a response, including the close when it cannot be posted |
| `Lifecycle.ServingArmPollout` | src/worker_loop.c:166-213 | so does waiting for the socket, including the failed submission that is taken back |
| `Lifecycle.ServingFull` | src/worker_loop.c:114-164 | so does the end of a response: close, half-close, or the next request |
| `Lifecycle.ServingSendfile` | src/worker_loop.c:215-307 | so does any number of sendfile rounds and each way they end |
| `Lifecycle.ServingApply` | src/worker_loop.c:1415-1531 | so does each action chosen for received bytes |
| `Lifecycle.ServingRead` | src/worker_loop.c:562-814 | so does the receive handler on every path |
| `Lifecycle.ServingWrite` | src/worker_loop.c:816-906 | so does the send handler on every decision |
| `Lifecycle.ServingReady` | src/worker_loop.c:908-930 | so does the writable handler |
| `Lifecycle.VisitKeepsInv` | src/timing_wheel.c:262-363 | visiting one cut-off connection reinserts, answers or closes it and leaves the rest cut off |
| `Lifecycle.WalkKeepsInv` | src/timing_wheel.c:262-363 | walking a cut-off bucket to its end leaves nothing cut off, also when visits reinsert into the same slot |
| `Lifecycle.TickKeepsInv` | src/timing_wheel.c:238-363 | a whole tick keeps the invariant |
| `Lifecycle.InstallKeepsInv` | src/conn_lifecycle.c:294-369 | a connection being set up enters the table with its owner reference |
| `Lifecycle.AcceptKeepsInv` | lamseryn.c:480-564 | accepting keeps the invariant, also when allocation or setup fails |
| `Outcomes.CompletionTheorem` | src/worker_loop.c:460-532 | any completion of an open connection takes its descriptor, and no other, out of the table exactly on end or error, a second missing buffer, a full stash, an answer or rest without a queue entry, no way to wait for the socket, a failed send or sendfile, or a response to close after; and leaves exactly the receives, sends and polls that its result, the entries to be had and the flags call for |
| `Outcomes.ReceiveGoesOn` | src/worker_loop.c:588-651 | an interrupted or bufferless receive is replaced by one other, on the open connection |
| `Outcomes.KeptConnectionReads` | src/worker_loop.c:114-164 | a response sent in full on a connection to be kept, with nothing stashed, leaves it open with one receive more |
| `Outcomes.ReadEffect` | src/worker_loop.c:562-814 | both laws for the receive handler |
| `Outcomes.ApplyEffect` | src/worker_loop.c:1415-1531 | both laws for the action on received bytes: anything but reading on needs a queue entry, else the connection is closed |
| `Outcomes.FullEffect` | src/worker_loop.c:114-164 | both laws for the end of a response |
| `Outcomes.PollEffect` | src/worker_loop.c:166-213 | both laws for waiting for the socket: closed if there is no entry or the submission fails, unless closing already |
| `Outcomes.FileEffect` | src/worker_loop.c:215-307 | both laws for any number of sendfile rounds and each ending |
| `Outcomes.WriteEffect` | src/worker_loop.c:816-906 | both laws for the send handler |
| `Outcomes.ReadyEffect` | src/worker_loop.c:908-930 | both laws for the writable handler |
| `Records.RecordTheorem` | src/worker_loop.c:460-532 | a completion that does not close leaves its connection with exactly these flags (closing, draining, receive and poll outstanding) and exactly this deadline |
| `Outcomes.TickTheorem` | src/timing_wheel.c:238-363 | a tick takes out of the table exactly the numbers of those in its bucket whose deadline has come, except header and body deadlines that can be answered, and sends exactly those answers |
| `Outcomes.ExpiryClosesAtOnce` | src/timing_wheel.c:268-281 | idle, drain and write expiries close at once, not through the queue |
| `Outcomes.AcceptTheorem` | lamseryn.c:480-564 | a new connection is in the table exactly when it was set up, its host is known and a receive or else a refusal could be posted, and has exactly that operation |
| `Descriptors.DescriptorTheorem` | src/conn_lifecycle.c:452-543 | in every run the descriptors left open without an owner are exactly those of accepts whose setup failed, and are never given up; the kernel takes an operation on a number that is not its connection's own socket if and only if it was staged when the connection no longer had the number or was still staged when its connection was closed at once; the former are exactly the answers of receives that had closed the connection over a full stash; a staged close always meets its own socket |
| `Descriptors.LeaksIffSetupFails` | lamseryn.c:480-564 | an accepted descriptor is left open without an owner if and only if there is no memory for the connection (none free and none to be had) or none for its table entry; nothing else becomes leaked |
| `DescriptorExamples.LeakExample` | lamseryn.c:480-564 | the first accept of a run without memory leaves its descriptor open and in no table |
| `Descriptors.CompleteBooks` | src/worker_loop.c:460-532 | a completion leaks nothing, and stages on a number its connection no longer has exactly when a receive overflowed the stash, closed, and still answers |
| `Descriptors.ReadSends` | src/worker_loop.c:562-814 | the same of the receive handler on every path |
| `Descriptors.ApplySends` | src/worker_loop.c:1415-1531 | an answer is staged on the number the handler was started with, too late exactly when the connection no longer has it |
| `Descriptors.StepBooks` | src/worker_loop.c:534-560 | one event, for both books |
| `Descriptors.CloseOvertakes` | src/conn_lifecycle.c:452-543 | a close at once (idle, drain, abortive, or no queue entry) overtakes exactly the operations of its own connection that are still staged after its submission; a close through the queue overtakes none and comes behind them |
| `DescriptorExamples.StrayExample` | src/worker_loop.c:784-807 | a run of four events: a receive overflows the stash, the close is staged, the answer behind it, and the kernel takes the answer on the closed number 7 |
| `DescriptorExamples.OvertakenExample` | src/worker_loop.c:908-930 | a run of nine events without a stash: in one batch the writable handler stages the rest of the headers on 7 and the sweep closes 7 at once for the old write timeout; the kernel then takes the send on a foreign number |
| `SubmissionQueue.FlushKeeps` | include/ring_ops.h:60-88 | taken in order, any number of them, the staged entries meet their own sockets exactly as their marks say, closes always |
| `SubmissionQueue.PushKeeps` | include/ring_ops.h:34-57 | staging behind the rest keeps that, the mark being whether the table still has the number for the connection |
| `SubmissionQueue.PushCloseKeeps` | src/conn_lifecycle.c:510-542 | staging a close behind the rest keeps that, and the table is what will be open in the end |
| `SubmissionQueue.ShutKeeps` | src/conn_lifecycle.c:481-508 | closing at once keeps that when exactly the connection's staged entries are marked |
| `SubmissionQueue.OpenKeeps` | src/conn_lifecycle.c:294-369 | a new connection on a free number makes no staged operation of another one its own |
| `SubmissionQueue.OpenNumbers` | src/conn_lifecycle.c:452-543 | open numbers are those in the table and those with a close staged, never both |
| `SubmissionQueue.FlushKeepsLog` | include/ring_ops.h:60-88 | submitting loses, adds and reorders no entry |
| `SharedCount.CountTheorem` | src/conn_lifecycle.c:57-78 | with any number of workers interleaving their loads and compare-exchanges, the shared count is the sum of the workers' own and no underflow is ever reported |
| `SharedCount.StepIsExact` | src/conn_lifecycle.c:57-78 | one load, failed or successful exchange of one worker keeps that |
| `TimingWheel.VisitIsFirst` | src/timing_wheel.c:238-262 | the next tick that visits a slot: it visits that slot and none before it does |
| `TimingWheel.VisitStays` | src/timing_wheel.c:238-262 | ticks of other slots do not put the visit off |
| `TimingWheel.SlotIsTimely` | src/timing_wheel.c:157-161 | the slot chosen is next visited at a tick scheduled at most one tick after the later of deadline and now, for any number of wheel turns |
| `TimingWheel.TicksFit` | src/timing_wheel.c:157-161 | whole ticks of a delay are scheduled within the delay |
| `TimingWheel.KindIff` | src/timing_wheel.c:57-94 | which kind of deadline a connection has, in terms of what it is doing, each exactly |
| `TimingWheel.HeadDeadlineStays` | src/timing_wheel.c:136-138 | while a head is read neither activity nor more bytes move its deadline, which counts from the first byte |
| `TimingWheel.ActivityMovesDeadline` | src/timing_wheel.c:128-142 | idle and body deadlines move with the last activity, millisecond for millisecond |
| `TimingWheel.WriteDeadline` | src/timing_wheel.c:144-147 | a write deadline counts from the start of the write, whatever the activity |
| `TimingWheel.OwnTimeoutOnly` | src/timing_wheel.c:103-154 | each kind depends on its own configured timeout and on no other |
| `TimingWheel.Wheel.constructor` | src/timing_wheel.c:200-212 | a new wheel is idle, empty and at its first tick |
| `TimingWheel.Wheel.SlotForIsTimely` | src/timing_wheel.c:157-161 | the same of the masked slot arithmetic on a power-of-two wheel |
| `TimingWheel.Wheel.Unlink` | src/timing_wheel.c:163-178 | unlinking keeps every bucket a list, disarms the connection, clears its links and touches no other |
| `TimingWheel.Wheel.Insert` | src/timing_wheel.c:180-198 | inserting links at the head of the chosen bucket; a closed connection is not inserted |
| `TimingWheel.Wheel.Reschedule` | src/timing_wheel.c:101-225 | afterwards the connection is armed exactly when its state wants a deadline, with that deadline |
| `TimingWheel.Wheel.Cancel` | src/timing_wheel.c:227-236 | afterwards it is in no bucket and every other connection is where it was |
| `TimingWheel.Wheel.ScheduleClose` | src/conn_lifecycle.c:462-543 | a closed connection is in no bucket; a close operation is queued only for one that had its descriptor and is neither idle, draining nor to be closed abortively |
| `TimingWheel.Wheel.Fire` | src/timing_wheel.c:262-363 | what an expired deadline does, by kind: the connection is closed, or for a header or body timeout answered with 408 to close after it and armed exactly as its new state wants; a closed one keeps its facts, with the abortive mark used up |
| `TimingWheel.ExpiresToClosing` | src/timing_wheel.c:262-363 | whatever fired is closing, and closed unless it was answered with 408 |
| `TimingWheel.Wheel.Visit` | src/timing_wheel.c:262-363 | one cut-off connection: kept if early, else expired and logged, all others as they were |
| `TimingWheel.Wheel.ProcessTick` | src/timing_wheel.c:238-363 | a tick fires exactly the connections of its bucket whose deadline has passed, each logged once with its own deadline, and keeps every other connection with its deadline, arming time and descriptor; none is lost and nothing stays cut off |
| `TimingWheel.Wheel.Sweep` | src/worker_loop.c:426-432 | catching up any number of ticks with one clock reading: every connection is kept as it was or has expired and is logged for it; an idle, drain or write expiry has closed it, a header or body expiry has it closing; a deadline not yet reached is kept, one overdue by a tick has fired; each firing is at a tick at most one tick after the later of deadline and arming, never before the deadline |
| `TimingWheel.Wheel.TrickledHead` | src/timing_wheel.c:101-225 | over any sequence of arrivals of more head, each setting the timer anew, and sweeps: a sweep a tick after the head deadline and the last arrival has ended the connection; with arrivals only before the deadline, a sweep a tick after the deadline has |
| `TimingWheel.Wheel.NoneIsLate` | src/timing_wheel.c:238-262 | between operations the next tick comes in time for every armed deadline |
| `TimingWheel.Wheel.ChainIsList` | src/timing_wheel.c:163-198 | following `next` from a bucket gives a finite duplicate-free list whose `prev` links mirror it |
| `TimingWheel.Wheel.ArmedIffListed` | src/timing_wheel.c:163-198 | a connection is in a bucket's list exactly when it is armed with that slot, and a closed one is in none |
| `ActiveSet.SwapRemoveDropsOne` | src/conn_lifecycle.c:250-288 | swapping the last entry into the hole drops exactly the removed one |
| `ActiveSet.Actives.Add` | src/conn_lifecycle.c:223-248 | appends the descriptor once and records its position; does nothing when already there or out of memory |
| `ActiveSet.Actives.Grow` | src/conn_lifecycle.c:223-248 | a larger array, 1024 entries at first and then double, with the same contents |
| `ActiveSet.Actives.Remove` | src/conn_lifecycle.c:250-288 | removes exactly that entry through its cached position; of the cached positions only the removed one and the moved one change; the scan that would look for it is dead code |
| `ConnStore.CountsAddUp` | src/conn_store.c:56-95 | live, deleted and empty slots make up the capacity |
| `ConnStore.ProbeIsInjective` | src/conn_store.c:97-124 | a probe sequence visits each slot once per turn |
| `ConnStore.MissIsAbsent` | src/conn_store.c:97-124 | meeting an empty slot proves the key absent |
| `ConnStore.InsertKeepsTable` | src/conn_store.c:126-172 | writing a new key to the first free slot of its path keeps every other key reachable |
| `ConnStore.UpdateKeepsTable` | src/conn_store.c:126-172 | replacing a value changes just that key's value |
| `ConnStore.DeleteKeepsTable` | src/conn_store.c:174-193 | a tombstone keeps every other key reachable |
| `ConnStore.FdMap.EmptyAhead` | src/conn_store.c:97-124 | from every start an empty slot lies ahead, so every probe ends |
| `ConnStore.FdMap.Init` | src/conn_store.c:21-44 | the smallest power-of-two table of at least the hint and 256 slots, empty |
| `ConnStore.FdMap.Get` | src/conn_store.c:97-124 | finds exactly the mapped value; the full-turn exit is dead code |
| `ConnStore.FdMap.Put` | src/conn_store.c:126-172 | maps the key to the value; doubles the table first exactly when it is over 70 in 100 full, over half deleted or has no slot to spare, and fails exactly when it must and there is no memory, or there is no table; then the map is as before; the table stays valid exactly unless a negative key was stored |
| `ConnStore.FdMap.PutSlot` | src/conn_store.c:139-172 | a new key takes the first slot of its path without a live key, a tombstone included; a known one keeps its slot |
| `ConnStore.FdMap.Resize` | src/conn_store.c:56-95 | doubling keeps the map and clears the tombstones |
| `ConnStore.FdMap.Rebuild` | src/conn_store.c:56-95 | re-entering every live key builds a table for the same map |
| `ConnStore.FdMap.Del` | src/conn_store.c:174-193 | removes the key from the map, and nothing else; the table stays valid exactly unless the tombstone mark itself is deleted and its search meets a tombstone |
| `ConnStore.MeetsTombExample` | src/conn_store.c:174-193 | a valid table in which it does |
| `AccessLogQueue.QueueTheorem` | src/access_log.c:426-579 | under every interleaving with stale reads: what a shard has published and is publishing are exactly the offers of its worker that were not refused, in order; the consumer has taken exactly the published entries in order; those that format are, in order, the lines of the batches written so far and those in hand, within the line and byte limits; the emitted count is the lines of the successful batches; the dropped count is exactly the offers too long or seen full, the entries that do not format and the lines of failed batches; unreleased entries are intact; emitted, dropped and pending add up to the attempts |
| `AccessLogQueue.RunIsSafe` | src/access_log.c:426-579 | the shard invariants hold in every state of every run |
| `AccessLogQueue.StepIsSafe` | src/access_log.c:426-579 | one step of any shard keeps them |
| `AccessLogQueue.OfferIsSafe` | src/access_log.c:552-562 | an attempt is dropped or pending, once |
| `AccessLogQueue.OfferIsByCount` | src/access_log.c:547-579 | an offer is dropped exactly when its target is too long or all cells but one are in use as far as seen; else it is the entry being written |
| `AccessLogQueue.WriteCellIsSafe` | src/access_log.c:564-569 | filling the free cell touches no unreleased entry |
| `AccessLogQueue.PublishIsSafe` | src/access_log.c:564-579 | publishing appends one entry |
| `AccessLogQueue.LoadIsSafe` | src/access_log.c:444-509 | starting a batch from a possibly stale producer index takes nothing unpublished |
| `AccessLogQueue.LoadIsByCount` | src/access_log.c:444-509 | a batch is begun exactly when something published is seen that was not released |
| `AccessLogQueue.ScanIsByCount` | src/access_log.c:444-509 | a batch goes on exactly while something seen is left and fewer than 64 lines are in it |
| `AccessLogQueue.ScanIsSafe` | src/access_log.c:444-509 | scanning takes the next entry, counting one that does not format as dropped |
| `AccessLogQueue.ReleaseIsSafe` | src/access_log.c:444-509 | releasing frees exactly the scanned entries |
| `AccessLogQueue.WriteIsSafe` | src/access_log.c:444-519 | each batched line is emitted or dropped once |
| `AccessLogQueue.NoSharedCell` | src/access_log.c:552-579 | the cell being filled is never the cell being scanned |
| `AccessLogQueue.NeverStuck` | src/access_log.c:444-579 | neither producer nor consumer waits for the other in the middle of its work: each always has its next step |
| `AccessLogQueue.NotFullHasRoom` | src/access_log.c:552-562 | a full test against a stale consumer index still leaves a free cell |
| `AccessLogQueue.ByteLimitIsSlack` | src/access_log.c:444-509 | a line always fits the batch buffer, so the byte break is never taken |
| `AccessLogQueue.ShutdownTheorem` | src/access_log.c:1127-1137 | after shutdown emitted plus dropped falls short of the attempts by exactly the accepted entries of a writer that never started; they are equal if and only if the writer ran or nothing was accepted |
| `AccessLogQueue.LostExample` | src/access_log.c:426-440 | a run of three steps whose one accepted entry is counted nowhere |
| `AccessLogWrite.RemainingIsSuffix` | src/access_log.c:170-214 | moving the cursor by n bytes leaves the text from byte n on |
| `AccessLogWrite.Advance` | src/access_log.c:170-214 | the in-place cursor move drops whole vectors and cuts the next |
| `AccessLogWrite.WritevAll` | src/access_log.c:170-214 | for every sequence of kernel answers: what is written is a prefix of the concatenation, as long as the answers say; success means all of it and no failed answer, failure a proper prefix and that the last answer, and no earlier one, failed |
| `AccessLogWrite.ClampCoversAll` | src/access_log.c:170-214 | what is written is everything exactly when nothing lies beyond the first 64 vectors |
| `AccessLogWrite.ClampExample` | src/access_log.c:170-214 | 65 vectors of which the last is not written |
| `AccessLogWrite.DirectLog.Gather` | src/access_log.c:247-299 | the vectors are the oldest pending lines in order, across the wrap |
| `AccessLogWrite.DirectLog.FlushRound` | src/access_log.c:247-299 | a round takes up to 64 lines off the front and writes a prefix of them; they count as emitted exactly when no answer failed, and are then all written, else as dropped |
| `AccessLogWrite.DirectLog.Flush` | src/access_log.c:247-299 | afterwards nothing is pending, each line counted once; lines are dropped exactly when an answer failed, and without that the sink has them all in order |
| `AccessLogWrite.DirectLog.Append` | src/access_log.c:333-393 | the line is refused exactly when empty or too long, else queued; the queue is flushed exactly at 64 lines, the byte limit or the age limit; fewer than 64 are pending afterwards with the byte count exact; the ring-full branches are dead code |
| `AccessLogWrite.DirectLog.MaybeFlush` | src/access_log.c:312-331 | lines older than the limit are flushed, dropped exactly when an answer failed; otherwise nothing changes |
| `Arena.RoundUpIsNextMultiple` | include/req_arena.h:223-232 | the mask arithmetic gives the next multiple when the sum does not wrap |
| `Arena.FitsIsInside` | include/req_arena.h:223-232 | the tail test on words, wrap-around included, comes to: the next aligned byte and n more end inside the chunk |
| `Arena.FreshFitsIffNoWrap` | include/req_arena.h:234-257 | a request fits its own new chunk exactly when size plus alignment does not wrap |
| `Arena.BlockHoldsCapIffNoWrap` | include/req_arena.h:200-210 | the block obtained holds the chunk's capacity exactly outside the wrapping band |
| `Arena.WrappingBandIsOutOfBounds` | include/req_arena.h:200-258 | a request in the band gets a region larger than its block |
| `Arena.WrappingBandExample` | include/req_arena.h:200-258 | the band is not empty |
| `Arena.Thread.Open` | include/req_arena.h:87-93 | a new arena has no chunk and no region |
| `Arena.Thread.Release` | include/req_arena.h:136-174 | a chunk goes to the front of the cache if it has the minimum size and there is room, else it is freed |
| `Arena.Thread.NewChunk` | include/req_arena.h:177-212 | the first cached chunk, exactly when the request has the minimum size and the cache is not empty, else a new block; nothing else changes |
| `Arena.Thread.Append` | include/req_arena.h:241-247 | the chunk becomes the last of the arena's list |
| `Arena.Thread.Bump` | include/req_arena.h:223-232 | the region lies after all earlier ones of its chunk |
| `Arena.Thread.Alloc` | include/req_arena.h:215-258 | a request that fits the last chunk is served from it, else from a cached or new chunk; earlier regions stay, the new one is added; a new chunk serves the request exactly when nothing wraps; soundness is kept exactly outside the wrapping band |
| `Arena.Thread.Reset` | include/req_arena.h:274-319 | keeps a first chunk of at most 4096 bytes, emptied, and releases all others; no region is left |
| `Arena.Thread.Destroy` | include/req_arena.h:95-118 | every chunk is cached or freed, the arena is empty |
| `Arena.Thread.DestroyCache` | include/req_arena.h:121-134 | the cached chunks are freed, nothing else |
| `Arena.Thread.RegionTheorem` | include/req_arena.h:215-258 | every region since the last reset is inside its block; its address is aligned up to 16 always, beyond exactly when the block is |
| `Arena.MisalignedExample` | include/req_arena.h:215-258 | a block aligned to 16 whose 32-aligned region is not at such an address |
| `Arena.Thread.DisjointTheorem` | include/req_arena.h:215-258 | no two regions of any arenas share a byte |
| `Arena.Thread.PlaceTheorem` | include/req_arena.h:95-319 | every chunk is in exactly one of one arena's list, the cache, freed |
| `Tx.RunIsSafe` | src/tx.c:365-434 | for every sequence of results: what was acknowledged is a growing prefix of headers then file, done means all of it, the file position plus what is left is constant; the flags stay and decide between keeping, closing and half-closing |
| `Tx.ResponseTheorem` | src/tx.c:146-171 | a response from its beginning, over every sequence of results: a prefix of headers and file stretch; done exactly with all of it, kept alive exactly if asked, half-closed only if asked and behind the headers |
| `Tx.StepIsSafe` | src/tx.c:365-434 | one event; and when all is acknowledged it is declared done |
| `Tx.HeaderStep` | src/worker_loop.c:816-906 | header results: done, half-close or file exactly when the headers are all acknowledged |
| `Tx.BodyStep` | src/worker_loop.c:215-307 | sendfile results: done exactly when nothing is left, else less is left, or the call is repeated unchanged |
| `Tx.WritableResumes` | src/tx.c:436-454 | a writable socket asks for exactly the missing bytes |
| `Tx.WholeIffNothingLeft` | src/tx.c:411-431 | behind the headers, everything is acknowledged exactly when nothing of the file is left |
| `Tx.BeginIsConsistent` | src/tx.c:146-171 | a response just begun, with or without a file, has its own kind and flags and nothing sent |
| `Tx.Sender.BeginResponse` | src/tx.c:146-171 | from idle fields, with or without a file, the fields are those of the response just begun, kind, keep-alive and drain as asked; an empty header buffer is refused and leaves them idle |
| `Tx.Sender.CloseAttachedFile` | src/tx.c:341-351 | clears the file fields and closes what was attached |
| `Tx.Sender.IoResult` | src/tx.c:365-434 | the in-place update is the decision function of the laws above |
| `Tx.Sender.SendCompleted` | src/worker_loop.c:816-906 | a completed header send, buffer discarded before a file, is one step of the transfer in place |
| `Tx.SendFacts` | src/tx.c:365-434 | which header result leads to which decision, both ways |
| `Tx.AnswerFacts` | src/worker_loop.c:232-246 | which sendfile answer leads to which decision, both ways, and how many bytes it acknowledges |
| `Tx.Sender.SendSome` | src/worker_loop.c:232-246 | one sendfile call and its accounting is one step of the transfer |
| `Tx.Sender.SendfileProgress` | src/worker_loop.c:215-307 | for every sequence of kernel answers: full response only with all bytes acknowledged and no failed answer, waiting exactly on a full socket with bytes missing and the transfer resumable, closed only on a failed answer; the bytes sent are those the answers acknowledge; after a full response the next request, a close or a half-close, by keep-alive, kind and draining |
| `Tx.Sender.HandleSend` | src/worker_loop.c:816-906 | the whole send handler, for every sequence of kernel answers: the bytes sent are those the result and the answers acknowledge; resends exactly the missing header bytes, half-closes exactly when draining with the headers out, full response only with everything acknowledged and no answer that stops, closes only on a failed result or answer; after a full response the next request, a close or a half-close, by keep-alive, kind and draining |
| `Tx.Sender.HandleWritable` | src/worker_loop.c:908-930 | the whole writable handler, for every sequence of kernel answers: the bytes sent are those the answers acknowledge; resends exactly the missing header bytes, continues the file, or does nothing exactly when nothing is pending; after a full response the next request, a close or a half-close, by keep-alive, kind and draining |
| `Url.NormalizeAbsolute` | src/url.c:98-185 | the in-place loop computes the split, resolve and join form; -2 only in a buffer shorter than the path; -1 otherwise only for a refused or relative path |
| `Url.Push` | src/url.c:154-170 | appends a segment and its start to the buffer; refused at depth 256 or without room |
| `Url.Pop` | src/url.c:142-152 | drops the last segment, leaving the buffer as before it |
| `Url.RefusedIffTooDeep` | src/url.c:98-185 | a path is refused exactly when at some point more than 256 segments are kept |
| `Url.NormalIsIdempotent` | src/url.c:98-185 | normalising twice is normalising once |
| `Url.NormalIsProper` | src/url.c:98-185 | kept segments are not empty, have no slash and are not dots |
| `Url.ComponentsOfJoin` | src/url.c:98-185 | splitting a joined path gives back the segments |
| `Url.SplitPathQuery` | src/url.c:6-33 | the path is what precedes the first question mark, the query what follows it |
| `Url.PercentDecode` | src/url.c:48-96 | decodes into the buffer; -1 only on a bad escape or without a buffer, -2 only when the result would be longer than the buffer |
| `Url.EscapeIsPrinted` | src/url.c:66-80 | an escape stands for a byte exactly when it is that byte printed |
| `Url.EscapeIsRefused` | src/url.c:66-80 | an escape is refused exactly for a character that is no digit, for byte 0, and in strict mode for 2f and 5c |
| `Url.DigitIsRead` | src/url.c:35-46 | reading a hexadecimal digit undoes printing it |
| `Url.DecodeUndoesEncode` | src/url.c:48-96 | decoding undoes every percent-encoder: any choice of bytes to escape, each printed as its two hexadecimal digits in either case, for all of 1 to 255, in strict mode all but the slashes |
| `Url.DecodedWasEncoded` | src/url.c:48-96 | every accepted text is such an encoding of its result |
| `Url.DecodeCommutesWithSplit` | src/url.c:48-96 | strict decoding and splitting at slashes can be done in either order, with the same refusals |
| `Url.DecodeShrinks` | src/url.c:48-96 | the result is never longer than the input |
| `Docroot.ParsePath` | src/http_parser.c:547-619 | accepts exactly the paths of at most 2048 bytes that decode and normalise, in buffers of the path's size |
| `Docroot.NormalShrinks` | src/url.c:98-185 | normalising never lengthens a path |
| `Docroot.BuildRelPath` | src/static_serve_utils.c:65-115 | writes the relative path, terminated; fails exactly when it does not fit or the path is not absolute |
| `Docroot.Walk` | src/static_serve_utils.c:121-195 | opens only proper components, in order; the outcome is that of the first component that is a dot, too long or not found, and the file is opened exactly when the path is relative, ends in a name and has none such; closes every directory it opened |
| `Docroot.AcceptedIsServable` | src/static_serve_utils.c:65-115 | every accepted path gives a relative path whose components are the kept segments and the index name for a directory, none empty or dots |
| `Docroot.OpenTarget` | src/static_serve_utils.c:65-195 | for accepted paths the dot refusal and the invalid-path refusal are never taken, and the target is opened exactly when the root is, its components are not too long and every open succeeds |
| `HeaderBoundary.FindEnd` | src/http_boundary.c:5-41 | the window scan returns the first end of a terminator, or -1 |
| `HeaderBoundary.EndsAtIsTerminator` | src/http_boundary.c:31-35 | the four window tests are the four bytes CR LF CR LF |
| `HeaderBoundary.ScanFindsFirst` | src/rx_stash.c:122-141 | however the stream is cut, scanning piece by piece with the three carried bytes finds the first terminator in its piece and at its offset |
| `HeaderBoundary.SameFirstEnd` | src/http_boundary.c:5-41 | three carried bytes stand for the whole past |
| `HeaderBoundary.TailOfTail` | src/rx_stash.c:122-141 | the tail of tail and piece is the tail of the stream |
| `HeaderBoundary.FirstEndStays` | src/http_boundary.c:5-41 | later bytes do not move the first end |
| `HeaderBoundary.Receiver.UpdateAfterFeed` | src/rx_stash.c:122-141 | the stored tail is the last three bytes of everything fed |
| `HeaderBoundary.Receiver.HeadBytes` | src/rx_stash.c:166-177 | the split length is where the head really ends; both clamps are dead code |
| `HeaderBoundary.Stash.Append` | src/rx_stash.c:103-120 | all of the bytes are appended or none; refused when they do not fit |
| `HeaderBoundary.Stash.Consume` | src/rx_stash.c:85-101 | drops bytes from the front, the block with the last of them |
| `Routes.MatchesIffBelow` | include/policy_headers_shared.h:25-46 | a prefix matches itself, what lies below it, and with a final slash whatever starts with it |
| `Routes.BuildIndex` | src/config_ini.c:522-622 | each host gets its routes in order of declaration; fails exactly on a route without host name or prefix, with a prefix not starting with a slash, with an unknown host or with credentials for every origin, or on more than 256 routes of one host, never with at most 256 in all |
| `Routes.ConflictIff` | src/config_ini.c:598-622 | the refused CORS combination, by the settings that count: the route's where it has one, else the host's |
| `Routes.RoutesOfAreThose` | src/config_ini.c:583-597 | a host's group is exactly its routes, in order |
| `Routes.Sort` | src/config_ini.c:426-468 | the in-place insertion sort yields a permutation ordered by length, then by declaration |
| `Routes.ShiftIn` | src/config_ini.c:443-467 | the shifting loop makes room at the place where the key belongs |
| `Routes.FirstMatch` | include/policy_headers_shared.h:48-68 | the first listed match, or none matches |
| `Routes.FirstOfSortedIsBest` | include/policy_headers_shared.h:48-68 | first in sorted order is longest prefix, earliest declaration on ties |
| `Routes.BestIsUnique` | src/config_ini.c:426-468 | with distinct ordinals there is one best rule |
| `Routes.Resolve` | src/config_ini.c:653-655 | sorting then first match finds the best rule of a host, or none matches |
| `PolicyHeaders.MergeTheorem` | include/policy_headers_shared.h:210-280 | within the configuration limits: no overflow, at most 54 headers, names unique without regard to case, and each name has the CORS line, else the route's, else the host's, else the first custom one |
| `PolicyHeaders.CorsTheorem` | include/policy_headers_shared.h:70-114 | every CORS header that is sent has the route's setting, if the route has one, else the host's |
| `PolicyHeaders.SecurityTheorem` | include/policy_headers_shared.h:210-280 | a name without a CORS line has the last filled entry of the route's table, else of the host's, else the first custom line; a route may switch both tables off or refuse the host's |
| `PolicyHeaders.SameNameIff` | include/policy_headers_shared.h:122-133 | names are the same when they agree letter by letter but for case |
| `PolicyHeaders.UpsertOverflows` | include/policy_headers_shared.h:153-185 | the overflow mark is set exactly by a 65th name or a line of 384 bytes or more, and no other header is touched |
| `PolicyHeaders.UpsertOne` | include/policy_headers_shared.h:153-185 | an upsert sets its own name's line and no other |
| `PolicyHeaders.UpsertMany` | include/policy_headers_shared.h:210-275 | after any list of pairs each name has its last one's line, names are unique and nothing overflows |
| `PolicyHeaders.AppendMany` | include/policy_headers_shared.h:277-279 | after any list of custom lines a name not there before has its first one |
| `PolicyHeaders.AppendOne` | include/policy_headers_shared.h:187-208 | a custom line counts only for a name not yet there |
| `PolicyHeaders.AppendOverflows` | include/policy_headers_shared.h:187-208 | a custom line sets the overflow mark exactly when 64 headers are there, and changes none of them |
| `PolicyHeaders.Context.FindName` | include/policy_headers_shared.h:122-133 | the first stored name equal without regard to case; none for an empty name |
| `PolicyHeaders.Context.SetHeader` | include/policy_headers_shared.h:153-185 | the in-place upsert, with both overflow cases, also over a borrowed line |
| `PolicyHeaders.Context.AddCustom` | include/policy_headers_shared.h:187-208 | the in-place append |
| `PolicyHeaders.Context.SetAll` | include/policy_headers_shared.h:227-247 | a table's filled-in pairs in order |
| `PolicyHeaders.Context.SetCors` | include/policy_headers_shared.h:249-275 | the CORS headers in order |
| `PolicyHeaders.Context.CollectInto` | include/policy_headers_shared.h:210-280 | the whole collection, host, route, CORS and custom lines in turn |
| `Decimal.ParseU64` | src/http_range.c:8-28 | the exact value, or failure exactly on no digit or more than 64 bits |
| `Decimal.ParsePadded` | src/http_parser.c:154-192 | the exact value of digits within white space, or failure exactly when the text is not that or exceeds 64 bits |
| `Decimal.PrintIsDecimal` | src/http_range.c:8-28 | reading a printed number gives it back |
| `Range.Parse` | src/http_range.c:30-131 | the meaning of a value of one of the three forms, or nothing exactly when it has none |
| `Range.DenotesIff` | src/http_range.c:30-131 | a value has a form exactly when unit, white space and the form's text make it up |
| `Range.UnitIff` | src/http_range.c:30-60 | the unit is accepted in any mixture of cases |
| `Range.DenotesOne` | src/http_range.c:30-131 | at most one form |
| `Range.PrintedRangesDenote` | src/http_range.c:30-131 | parsing undoes printing, in all three forms |
| `Range.MeaningIsSensible` | src/http_range.c:30-131 | a parsed suffix is not empty, a parsed interval not reversed |
| `Range.ResolveIsIntersection` | src/http_range.c:133-174 | the bytes served are the requested ones within the file; satisfiable exactly when there are any |
| `Base64.DecodeInto` | src/auth.c:116-172 | the decoded bytes, or -1 exactly when the text is wrong or they do not fit |
| `Base64.DecodeUndoesEncode` | src/auth.c:116-172 | decoding undoes encoding of every byte string, padded or not |
| `Base64.DecodesIffAccepted` | src/auth.c:116-172 | accepted are data characters with padding that fills the last group or none; the length is three quarters |
| `Base64.SymbolIsRead` | src/auth.c:94-114 | the alphabet is read back |

## Left out

- The submission queue: entries that name no descriptor (removing a poll, the sweep timer, accept) are not in it; a submission they cause is, between handlers or with the next entry or close.
- TLS: handshake, record and renegotiation paths are foreign code; the connection model covers plain connections only.
- The HTTP parser library and its callbacks: how many received bytes are consumed is an input of the receive handler.
- The provided-buffer ring of the kernel: buffers are not accounted for.
- Wake-up of the log writer and re-arming of accept: only safety is stated, not progress.
- Memory order in the log queue: stale index reads are modelled, reordering of other accesses is not; the code's acquire and release operations are taken to do their work.
- Logging text, counters, configuration syntax, MIME types, canned responses, compression and file metadata: tables and formatting that would only add easy members.
- Lifecycle: the handlers are functions on a value of the whole worker state, not methods that update shared objects; update in place is covered by `TimingWheel`, `ActiveSet` and `ConnStore` for the wheel, the active array and the table.
- TimingWheel.Wheel.Reschedule: deadlines and clock values are unbounded, so 64-bit overflow of a time is not modelled.
- ConnStore.FdMap.Put: requires a key of at least -2^64, so that the cast to an unsigned word has one meaning.
- ConnStore.FdMap.Del: requires a key of at least -2^64, so that the cast to an unsigned word has one meaning.
- ConnStore.FdMap.Get: requires a key of at least -2^64, so that the cast to an unsigned word has one meaning.
- AccessLogWrite.WritevAll: requires that every call is at some point answered otherwise than by an interruption; without it the code's loop need not end.
- Tx.Sender.SendfileProgress: requires the same of its calls.
- HeaderBoundary.Receiver.HeadBytes: states the arithmetic of the split; with the default buffer size of 256 the split itself is compiled out.
- Docroot.ParsePath: the arena allocations of its two buffers are taken to succeed.
- Docroot.Walk: symbolic links and what the file system holds are left to the kernel; the answer to each open is an input.
- Arena: the string-copy helper, which adds one to its length before allocating.
- Base64.DecodeInto: shifts and masks are written as division, remainder and multiplication on values below 64.
