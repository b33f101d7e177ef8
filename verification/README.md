# Better Stack log client: a verified model

This project models the delivery pipeline of the Go client
`betterstack-logs-client-go` and its byte-level companions, and proves what they keep.

| part | modules |
| --- | --- |
| upload pool bookkeeping, as the class and as the functions its critical sections compute, and what it answers over any history | `UploadPool`, `PoolHistory` |
| the pipeline as a step machine: any number of `Enqueue`, `Flush` and `Close` callers, one sender, `MaxInFlight` workers, reused buffers | `Pipeline` |
| what every step keeps | `Ownership`, `Fifo`, `FlushSafety`, `FlushGuarantee`, `PipelineTheorems`, `Shutdown` |
| what a run with its steps adds up to: losses by cause, errors heard by a flush, sizes of batches | `Chronicles`, `Losses`, `FlushErrors`, `BatchCaps` |
| what a user may rely on, and where that ends | `PipelineResults`, `CloseDrains`, `PipelineLimits` |
| the sender's loop with its timer, the packer, drop reports | `Sender`, `Packer`, `DropReport` |
| retries inside a recursion over split halves: the relation, the function of what the outside does, what each status leads to, what is late, the worker that computes it, and the same seen from the step machine | `Delivery`, `Course`, `Statuses`, `LateUploads`, `Transport`, `WorkerRuns`, `Backoff`, `Int64` |
| records back to back and their end offsets, optional values, decimal text | `Records`, `Options`, `Decimal` |
| the fastjson printer against an RFC 8259 parser, UTF-8, framing and halving | `Utf8`, `JsonString`, `JsonText`, `JsonReader`, `JsonRoundTrip`, `JsonHeap`, `FastJsonResults`, `FastJson`, `Encoder` |
| the admission limiter, alone and raced | `Limiter`, `LimiterRace` |
| the two-generation cache of call sites | `SourceCache` |
| the attribute tree and handler derivation | `AttrTree`, `Handler` |

How the outside world appears: the server, the clock, cancellation and gzip are
nondeterministic or uninterpreted. In the step machine they are the arguments of an action,
so a property of every run is a property of every such behaviour. In the classes they are
methods of `Transport.World`, `Sender.Timer`, `Sender.Queue`, `Sender.Signals`,
`Limiter.Word` and `Packer.Compressor`, whose contracts promise only what the real thing does:
time does not run backwards, a cancelled context stays cancelled, the limiter's word only moves
forward. `Packer.Compressor` and `Sender.Signals` count what has gone wrong in them, so that a loss
is tied to its cause. `Transport.World` follows a script, and every property holds for all scripts;
`Course.Delivered` is a delivery as a function of the script, which the worker's methods are
proved to compute.

The step machine and the classes overlap on purpose. The machine has the interleavings and
really reuses memory; the classes have the loops, the timer, the aliasing and the bytes.
`UploadPool.Pool` computes the functions the machine's steps are made of, and
`WorkerRuns.DeliveryRuns` shows every delivery of `Transport.Worker` to be a run of the machine's
worker.

## Where the code and its comments differ

The model follows the code. Each of these is proved, by the members named.

- `sender.go:169-175` and `client.go:798-806` promise that `Flush` waits for what was enqueued
  before it. Waiters compare counts, so with two or more workers a later batch that finishes
  first can satisfy an earlier target. `PipelineLimits.PromiseIffOneWorker`: the promise holds
  for all runs exactly when there is one worker. `PipelineResults.FlushWithoutHandOff` and
  `PipelineResults.CloseFlushDelivers` say when it holds with any number.
- `attr.go:449-453` puts the source cache's ceiling at `2*max`. Carried-over sites are not
  counted. `SourceCache.HeldExactly` gives the exact number held and the exact condition for
  the ceiling; `SourceCache.HeldWithoutBound` passes any bound, for a generation of any size.
- `limiter.go:9-16` speaks of at most max records per window. The bucket refills while it
  drains. `LimiterRace.RateReached`: in any stretch of time as many records can be admitted as
  `LimiterRace.RateLimit` allows, so in the W nanoseconds of a window up to `floor((2W-1)/I)`: with
  seven allowed in seven nanoseconds, thirteen from 0 to 6, and fourteen from 0 to 7.
  `LimiterRace.WindowKeptIff`: over all runs and all windows the sentence holds for a maximum of
  one and for no other.
- `limiter.go:10` goes on that a full window's worth is admissible back to back. The interval is
  a truncated quotient. `LimiterRace.BurstKeptIff`: a burst at one instant stays within max
  exactly when the remainder of the division is less than the interval. `LimiterRace.TenForSeven`
  is a run: with seven allowed in ten nanoseconds, eleven calls at once see ten admitted.
- `limiter.go:44-48` says an interval of 0 admits everything. `LimiterRace.ZeroAdmitsAll`: so it
  does while all clock readings lie within one window of each other.
  `LimiterRace.ZeroRefuses`: one nanosecond more between two readings, and a call is refused.
- `transport.go:140-150` checks the deadline before every attempt but an upload's first, so a
  half may be requested after its parent's deadline, against `transport.go:231-233`.
  `LateUploads.NeverLateIff`: no upload starts late, whatever the server does, if and only if the
  batch is sent in time and is a single record, or is sent under a context already cancelled by a
  client that obeys it. For every larger batch and every deadline there are two servers to show
  it: one slow to refuse the size (`LateUploads.SlowRefusalIsLate`, and as a run of the worker
  `Transport.LateHalves`), and one that refuses at once but is slow to accept the left half
  (`LateUploads.SlowHalfIsLate`). `LateUploads.LateExactly` says of any course where the late
  starts are. What does hold: every other request directly follows a wait that was scheduled to
  end by the deadline (`Delivery.LateStarts`), and an upload begun after the deadline makes a
  single request (`Course.UploadGoes`).
- `sender.go:129-130` tolerates a timer fire on an empty batch. `Sender.Sender.OnTimer`: at a
  select there is none; every fire finds a batch to flush.
- A `Retry-After` of more digits than an int64 holds is neither a number nor a date to
  `parseRetryAfter` and reads as no request at all (`Backoff.TooManySeconds`), not as the
  longest wait.

## Model

| member | source | states |
|---|---|---|
| PipelineTheorems.StepKeepsInv | sender.go:106-299 | every step of every actor keeps the whole invariant: ownership, history, accounting, flush and shutdown |
| PipelineTheorems.ReachableOk | client.go:16-36 | so it holds in every reachable state of every interleaving |
| PipelineResults.Accounting | client.go:86-126 | in every reachable state `enqueued` is `sent` plus the six drop counters plus the records still held; `Losses.EachForItsCause` says what each counter counts |
| Chronicles.ReachedBy | sender.go:106-154 | every reachable state ends a run with its steps written down, so what holds of every such run holds of every reachable state |
| Losses.EachForItsCause | client.go:86-141 | in every run each of the eight counters is the number of records offered, sent, or lost to its own cause, read off the steps: queue at `maxQueue`, refused by the limiter, given up before Close or after it, larger than `hardMax` alone, left in the queue at Close, compression or the server failing; but for calls refused and about to count it |
| Losses.StepAdds | client.go:692-779 | the same for every single step from a state that keeps the invariant |
| Losses.FullRaisesQueueFull | client.go:768-779 | a call that finds the queue full raises `queueFull` by one and no other counter |
| Losses.OnlyFullRaisesIt | client.go:720-779 | and `queueFull` rises in no other way than for a call that finds, or a moment ago found, the queue full |
| Losses.QueueIsBounded | client.go:768-779 | in every run the queue never holds more than `maxQueue` records |
| BatchCaps.CapsAreKept | sender.go:156-167 | in every run no batch and no piece of one leaves with more than `batchSize` records, none is added to once a cap is reached, and none had reached the byte cap before its last record |
| PipelineResults.StatsIdentity | client.go:840-887 | when Close has returned the Stats identity holds exactly if nothing was queued after the leftover count, so whenever no Enqueue raced Close |
| PipelineLimits.RacingEnqueueIsMissed | client.go:99-107 | a run in which a racing Enqueue makes the sum short by its record |
| PipelineResults.History | sender.go:196-260 | records of the batches that left, in order, then those being dispatched, the sender's buffer and the queue, are byte for byte the accepted records |
| PipelineResults.BatchesReadTheirRecords | client.go:913-934 | no live batch, job or split piece reads anything but the records it was packed from, although sets are reused |
| PipelineResults.OneOwner | client.go:781-796 | a record buffer is with one of pool, Enqueue call or queue slot; neither pool holds anything twice; no live batch's set is in the pool |
| PipelineResults.OwnersDiffer | client.go:936-996 | two batches that must release their set never share one, wherever they are |
| Ownership.HalvesIntact | client.go:1031-1050 | both halves of an intact batch are intact and hold its records between them |
| PipelineResults.AnsweredWhenComplete | sender.go:461-486 | a waiter is answered only by a step after which `completed` has reached its target |
| PipelineResults.OneWorkerFlush | sender.go:138-145 | with one worker every answered flush has every record accepted before it resolved |
| PipelineResults.FlushWithoutHandOff | sender.go:176-189 | with any number of workers too, if no batch was handed off between registration and answer |
| PipelineResults.CloseFlushDelivers | client.go:831-854 | when Close's own flush is answered and no Enqueue raced it, every accepted record left and every batch handed off is finished |
| CloseDrains.CloseDeliversOrCounts | client.go:831-887 | when Close has returned and no Enqueue raced it, even if its own flush timed out: the queue is empty, nothing was left to count, every accepted record left the sender in order, and every batch handed off is finished |
| PipelineLimits.EarlyAnswer | sender.go:471-486 | for every number of workers above one, a run that answers a flush while its own batch is still being uploaded |
| PipelineLimits.PromiseIffOneWorker | client.go:798-829 | the unconditional promise holds over all runs exactly for a pool of one worker |
| PipelineResults.NoSendOnClosed | client.go:19-24 | nothing is ever sent on a closed channel |
| PipelineResults.RepliesDoNotBlock | sender.go:476-480 | a reply channel is empty when its answer is sent, so the lock is never held across a blocked send |
| PipelineResults.RepliesOnce | client.go:823-828 | a reply once sent stays as it is: each request is answered at most once |
| PipelineResults.AfterJoin | sender.go:496-506 | once the workers are joined `completed == dispatched`, no waiter is left and every accepted flush has its reply |
| Shutdown.StepUsesWork | sender.go:106-154 | every step except report ticks and arrivals decreases a measure of the whole pipeline |
| Shutdown.AtRestMeansGone | sender.go:147-151 | after the shutdown signal, a state in which no such step is possible has no sender any more |
| PipelineResults.ShutdownCompletes | client.go:852-864 | so every run without ticks and arrivals ends, and can only end with the sender gone |
| UploadPool.SignalAnswers | sender.go:471-494 | each due waiter hears, and the pending error goes to the first of them only |
| UploadPool.SignalSummary | sender.go:471-486 | exactly the due waiters are answered and removed, nobody else's reply changes |
| UploadPool.ShutdownLeavesNobody | sender.go:502-505 | shutdown releases every waiter |
| UploadPool.NobodyDueWaits | sender.go:442-506 | no critical section leaves a waiter whose answer is due: counting a dispatch and registering a flush keep it so, completing an upload and shutdown make it so |
| PoolHistory.RepliesTell | sender.go:448-494 | over any sequence of dispatches, completions, registrations and shutdown: when an event answers requests, at once or after waiting, the first registered among them is told the first failure completed since requests were last answered, and the others nothing |
| PoolHistory.RepliesStay | sender.go:488-494 | what a request was told stays told |
| FlushErrors.FlushHears | sender.go:448-494 | in every run of the pipeline, the first of the flushes answered in a step hears the first failure among the batches completed since flushes were last answered, a batch's failure being the first of its pieces'; the others hear nothing |
| FlushErrors.PoolFollows | sender.go:386-506 | in every run the pool's state is what its history of events makes of it, and no flush is registered twice |
| UploadPool.Pool.SignalLocked | sender.go:471-486 | the compaction of the waiter list in place does what the specification says |
| UploadPool.Pool.Complete | sender.go:448-457 | the critical section computes `OnComplete`; over any history `PoolHistory.RepliesTell` says which error survives it |
| UploadPool.Pool.CloseAfterJoin | sender.go:496-506 | the last critical section, as specified |
| Sender.Sender.OnRecord | sender.go:114-120 | one record joins the batch, which leaves exactly when that makes it full |
| Sender.Sender.Dispatch | sender.go:224-260 | whatever the sizes and failures, a batch leaves whole if it is within the hard limit, and as its halves and theirs if it is not; only single records are dropped as too big; records are rejected exactly if a compression failed, and abandoned exactly if a hand-off's context ended |
| Sender.Sender.HandOff | sender.go:282-299 | through any number of report ticks it waits until a slot takes the batch or its context ends; only then is the batch abandoned, counted as closed if Close has begun and as backlog if it has not; its records leave in order |
| Sender.Sender.Flush | sender.go:196-222 | the batch leaves within its caps and the next one starts empty; compression on or off, records are rejected exactly if a compression failed in this call, and abandoned exactly if a hand-off's context ended |
| Sender.Sender.Complete | sender.go:206-222 | a batch is lost unpacked only if its compression failed; otherwise it leaves whole or as its halves and theirs, in order |
| Sender.Sender.Drain | sender.go:169-189 | ends with the queue seen empty, nothing lost or reordered; every batch flushed on the way was full; rejections and abandonments as in `Flush` |
| Sender.Sender.Disarm | sender.go:83-104 | leaves the timer stopped with an empty channel; its receive finds a value waiting |
| Sender.Sender.Arm | sender.go:72-81 | Reset only meets a stopped timer with an empty channel |
| Sender.Sender.OnTimer | sender.go:122-130 | a fire at a select always finds a batch to flush |
| Sender.Sender.FlushAll | sender.go:138-151 | everything queued so far has left, in batches all full but the last, and the timer is idle; rejections and abandonments as in `Flush` |
| Sender.Sender.Turns | sender.go:106-154 | at every select `armed` holds exactly when there are records and exactly when the timer runs or has an unconsumed fire; the batch is not full; records keep their order; over all turns records are rejected exactly if a compression failed, and abandoned exactly if a hand-off's context ended |
| Sender.AppendKeepsCaps | sender.go:156-167 | every batch has at most `batchSize` records and was under `maxBatchBytes` before its last one |
| DropReport.Reporter.ReportDrops | sender.go:326-357 | over any run the reports of each of the five reasons add up to its own counter: no drop is summarised twice, missed or put under another reason |
| Packer.Packer.Pack | client.go:1052-1089 | the body is the framed, compressed run in a buffer of its own; the raw bytes are not written; it fails exactly if a compression failed in this call |
| Packer.Packer.BodyReads | client.go:1052-1089 | what a server reads from the body after inflating it, for any compression that can be undone, is the documents of the records in order |
| Packer.Packer.Split | client.go:1023-1050 | two non-empty halves over the parent's bytes, each with its own body from its own records; the parent is unchanged even if it fails halfway, which it does exactly if a compression failed |
| Packer.Compressor.Compress | client.go:1118-1130 | the result is the reused buffer, or a failure part of the way through, which is recorded |
| Records.CutSplit | client.go:1031-1050 | dividing a run at a record boundary and rebasing loses, adds and re-cuts nothing |
| Records.StrictIffNonEmpty | client.go:918-928 | offsets increase strictly exactly when no record is empty |
| Delivery.DeliveryCounts | transport.go:128-256 | sent, rejected, oversize and closed grow by the batch's records in total; requests are uploads plus retries and at most `(2n-1)*(maxRetries+1)` |
| Delivery.DeliveryWaits | transport.go:125-161 | all waiting over the whole split tree fits before the one inherited deadline; so does all waiting that was scheduled if the HTTP client obeys cancellation, and otherwise it exceeds the time waited by the waits cut short and nothing else |
| Delivery.LateStarts | transport.go:140-150 | over the whole split tree every request is the first of its upload or directly follows a finished wait scheduled to end by the deadline; an upload starts late exactly when the last to start does |
| Delivery.Compose | transport.go:239-256 | two deliveries in a row are a delivery of both their records within both their bounds |
| Delivery.HalvingsIsLog | transport.go:231-233 | a batch of n can be halved ceil(log2 n) times |
| Delivery.Napped | transport.go:141-161 | a wait ends before the deadline or is not taken, and one cut short ends the upload |
| Statuses.Accepts | transport.go:185-187 | a first answer from 200 to 299 sends every record with one request |
| Statuses.Rejects | transport.go:189-218 | any other status but 408, 413, 429 and 500 to 599 rejects every record after one request |
| Statuses.RefusesOne | transport.go:210-213 | 413 for one record counts it as oversize after one request |
| Statuses.ShutDown | transport.go:173-183 | an error under a cancelled context counts the records as closed |
| Statuses.RetriedThenSent | transport.go:140-187 | 408, 429, 500 to 599 or no answer, with a retry left and the wait ending by the deadline, followed by a 2xx: everything sent after two requests, one retry and one wait as long as asked or computed |
| Statuses.NotRetried | transport.go:140-160 | with no retry left, or the wait ending after the deadline, the same first answer rejects every record after one request |
| Transport.Worker.Attempts | transport.go:140-218 | the retry loop does, turn by turn, what `Course.Tries` says, and ends as it says; `Statuses` says of each answer what that is |
| Course.UploadGoes | transport.go:140-218 | every answer but the last was worth another attempt (`Statuses.RetriedThenSent` says which are) and was followed by one wait, as long as it asked or the backoff allows; the last one decides; giving up takes a spent budget or a deadline within a minute; an upload begun after the deadline makes one request and waits for nothing |
| Course.DeliveryGoes | transport.go:125-256 | for every server, clock and compressor the records are resolved once each, in order, within 2n-1 uploads no deeper than ceil(log2 n), every body on the wire made from its own records; unless compression fails, a 413 on two or more records leads to their halves |
| Transport.Worker.UploadBy | transport.go:125-225 | it goes exactly the course `Course.Delivered` lays down for the script, a half failing to compress exactly where the compressor's own record says so, and so has what `Course.DeliveryGoes` and the lemmas of `Statuses` promise |
| Transport.LateHalves | transport.go:227-237 | so does the worker, for every such batch, deadline and configuration, unless compressing a half fails and there is one upload only; `LateByTen` is one such run |
| Transport.CutHalves | transport.go:140-161 | the worker's own run of two waits, each for all the time there is and cut short at once; in `TenSecondsTwice` twenty seconds of ten |
| Transport.Worker.SplitAndSend | transport.go:227-256 | both halves are delivered whatever the first one does, against the parent's deadline, the right one from where the left one ends |
| WorkerRuns.DeliveryRuns | transport.go:125-256 | every course of a delivery is a run of the step machine's worker that settles and splits the batch's pieces, adds the same to the same counters, touches nothing else, and notes an error exactly if the delivery fails |
| LateUploads.NeverLateIff | transport.go:125-256 | no upload starts after the deadline, whatever the server, the clock and the compressor do, if and only if the batch is sent in time and is one record, or is sent under a cancelled context that the client obeys |
| LateUploads.LateExactly | transport.go:227-256 | a delivery starts an upload late exactly when it is begun late or, if it splits, when a half is; the left half begins with the answer that split the batch, the right one where the left one ends |
| LateUploads.SlowRefusalIsLate | transport.go:187-197 | for every batch of two records or more and every deadline, a server that takes until after it to answer 413 makes a half start late |
| LateUploads.SlowHalfIsLate | transport.go:239-256 | for every batch of two records or more and every deadline, a server whose 413 and whose left half are in time and whose right half starts late |
| LateUploads.CutWaits | transport.go:140-161 | with a client that answers under a cancelled context, every batch of two records or more can have waits scheduled for twice the time there is |
| Transport.Worker.Upload | transport.go:110-123 | the deadline is set once; a dry run only counts |
| Transport.Worker.GetPacker | transport.go:103-108 | built at the first split and kept |
| Backoff.Delay | transport.go:333-359 | no overflow for any base and attempt; the jittered value under `min(base*2^(attempt-1), 30s)`, or `min(Retry-After, 60s)` |
| Backoff.CapDoubles | transport.go:342-353 | the cap is the base, doubles with each attempt and stops at thirty seconds |
| Backoff.SecondsAsked | transport.go:361-382 | any positive number of seconds asked for is waited for, up to a minute |
| Backoff.NothingAsked | transport.go:361-389 | exactly when the header leaves the computed backoff in charge |
| Backoff.DateAsked | transport.go:383-389 | a date is waited for until it comes, within the range of int64 |
| Backoff.AskingMoreWaitsLonger | transport.go:372-381 | no wrap-around across the saturation point |
| Backoff.SecondsReadBack | transport.go:368-368 | decimal delay seconds are read back exactly |
| Backoff.TooManySeconds | transport.go:368-388 | a number too long for an int64 reads as nothing asked |
| Utf8.ExactIffValid | fastjson/fastjson.go:345-380 | decoding loses nothing exactly when the bytes are valid UTF-8 |
| JsonString.AppendString | fastjson/fastjson.go:323-380 | the run-copying loop writes the per-code-point escape |
| JsonString.StringRoundTrip | fastjson/fastjson.go:310-380 | unescaping the output gives the decoded code points, and the input itself exactly when it is valid UTF-8 |
| JsonString.EscapeIsPrintable | fastjson/fastjson.go:323-380 | no output byte is below 0x20 |
| JsonRoundTrip.ParsePrint | fastjson/fastjson.go:139-245 | an RFC 8259 parser, numbers with fraction and exponent included, recovers the printed tree, with U+FFFD for every broken byte; text copied into it may be any JSON value |
| JsonRoundTrip.PrintIsPrintable | fastjson/fastjson.go:139-245 | the text holds no raw newline or other control byte |
| JsonRoundTrip.PrintedReadable | fastjson/fastjson.go:204-245 | whatever the printer prints may in turn be copied into a tree, and reads there as itself |
| JsonRoundTrip.QuotedReadable | fastjson/fastjson.go:310-380 | a quoted string is such text, and reads as its code points |
| JsonRoundTrip.PlainIsQuoted | fastjson/fastjson.go:247-263 | text that needs no escape, such as a timestamp, is quoted by putting quotes around it |
| JsonRoundTrip.FloatReadable | fastjson/fastjson.go:265-300 | a number with any fraction and any exponent is such text |
| JsonReader.LocalValue | fastjson/fastjson.go:204-245 | a value read from all of a text is read the same in front of a comma, a closing bracket or the end |
| FastJson.AppendObject | fastjson/fastjson.go:101-118 | the text appended reads as a document that shows the map and everything in it, on any error the buffer comes back as it was, and if everything encodes the error is exactly that containers nest more than 50 deep |
| FastJson.AppendObjectAt | fastjson/fastjson.go:139-170 | an object prints its members in key order whatever order the map gave them |
| FastJson.AppendArrayAt | fastjson/fastjson.go:172-191 | an array prints its items in order |
| FastJson.AppendValue | fastjson/fastjson.go:204-245 | a value prints as the tree below it does at that depth, which `FastJsonResults.UnfoldShows` ties to the heap, and terminates on cyclic graphs |
| FastJson.SortKeys | fastjson/fastjson.go:139-170 | keys come out in strictly increasing byte order, each once |
| FastJsonResults.MaxDepthExactly | fastjson/fastjson.go:139-191 | if every leaf below the root encodes it fails with ErrMaxDepth exactly when some path of containers is longer than 50, and with nothing else |
| FastJsonResults.SelfReferenceFails | fastjson/fastjson.go:101-118 | a map that holds itself is refused |
| FastJsonResults.UnfoldShape | fastjson/fastjson.go:139-170 | keys strictly increase in every object printed |
| FastJsonResults.UnfoldShows | fastjson/fastjson.go:139-245 | what is printed is what was there: null, booleans, integers and strings as themselves, foreign text as what it reads as, a map as an object with exactly its keys and each its own value, a slice as an array of its items in order |
| FastJsonResults.PathShown | fastjson/fastjson.go:139-245 | so whatever is met on a path of keys and indices from the root of the heap is met on the same path in the document |
| FastJsonResults.ObjectRoundTrip | fastjson/fastjson.go:101-118 | parsing what AppendObject wrote gives a document that shows the heap below the root, times, floats and foreign values included; rebuilding from it gives the strings back exactly when they are valid UTF-8 |
| Encoder.AppendRecord | encoder.go:127-139 | the buffer is extended by one record's text, which reads as a document showing the record, with the format's separator, or is what it was |
| Encoder.Frame | encoder.go:174-183 | overwriting the first comma in place gives the framed run |
| Encoder.FramedReads | encoder.go:141-183 | a framed run of any records the printer prints, timestamps, floats and foreign values included, reads as their documents, for both encoders |
| Encoder.LeavesReadAsTheWhole | client.go:1023-1050 | however a batch is halved, its framed leaves read in order as the framed whole does |
| Encoder.HalvingsKeepShape | client.go:1031-1050 | every leaf of every halving is non-empty with strictly increasing offsets ending at its length, exactly when the batch's offsets increase strictly |
| Limiter.Limiter.Allow | limiter.go:55-96 | with others moving the word meanwhile it ends, nothing wraps, the answer is exact for one value the word had, a refusal writes nothing and the word never moves back |
| Limiter.RefinesBucket | limiter.go:12-29 | answer for answer a leaky bucket with credit `W - max(0, tat-now)`, refilled one a nanosecond up to W and charged I |
| LimiterRace.StepKeepsInv | limiter.go:55-96 | every step of every interleaving keeps the grants chained and the word moving forward |
| LimiterRace.RateLimit | limiter.go:9-26 | admitted calls whose reading lies in [a,b] number at most `floor((b-a+W)/I)` in every run, however stale the readings |
| LimiterRace.RateReached | limiter.go:9-26 | that bound is reached: for every stretch of time there is a run with all readings in it and exactly so many admissions |
| LimiterRace.WindowKeptIff | limiter.go:9-10 | at most max records per window, over all runs and windows, if and only if max is one |
| LimiterRace.FrozenBurst | limiter.go:57-96 | at a frozen clock from idle never more than `floor(W/I)` are admitted, and that many once a call was refused |
| LimiterRace.FrozenExactly | limiter.go:57-96 | and of any number of calls answered there exactly `min(calls, floor(W/I))` |
| LimiterRace.BurstKeptIff | limiter.go:40-53 | at a frozen clock from idle never more than max, over all runs, if and only if `W mod max < I` |
| LimiterRace.TenForSeven | limiter.go:40-53 | a run of eleven calls against seven in a window of ten nanoseconds, ten of them admitted |
| LimiterRace.ZeroAdmitsAll | limiter.go:44-49 | with an interval of zero no call of any run is refused while all readings lie within one window |
| LimiterRace.ZeroRefuses | limiter.go:44-49 | and for every window a run with readings one nanosecond further apart that refuses a call |
| SourceCache.SourceCache.LookUp | attr.go:481-518 | hot holds the sites used in this generation, cold those of the previous one not yet used in this; the answer is the frame's own function, file and line, and none exactly if the frame has none of them |
| SourceCache.HitIff | attr.go:486-497 | the cache answers exactly when the site was looked up earlier in the same or the previous generation |
| SourceCache.NeverEvicted | attr.go:441-447 | a site looked up again before max new ones are discovered is found in the cache, however the generations fall |
| SourceCache.KeptEveryGeneration | attr.go:520-531 | so is one looked up at least once in every generation in between |
| SourceCache.HeldExactly | attr.go:449-453 | entries held are max, plus new sites, plus sites the previous generation carried over; within `2*max` exactly when the last two make at most max |
| SourceCache.HeldWithoutBound | attr.go:520-536 | for every size of a generation and every k a run that holds k times as many sites |
| AttrTree.PreResolve | attr.go:69-91 | every attribute is kept; those with a key and a static kind come with the very node that appending them puts at their key, into whatever tree |
| AttrTree.KindsShow | attr.go:339-400 | a value of each kind stands in the tree under its key and as itself; an error shows its message and type; nothing else in the tree changes |
| AttrTree.LooksTheSameIff | attr.go:346-400 | two values leave the same tree only if they are the same, or times that differ in the monotonic reading alone |
| AttrTree.ValuersSeenThrough | attr.go:271-281 | fewer than a hundred nested LogValuers show the value behind them, more show an error |
| AttrTree.AppendGroupOrAttrs | attr.go:228-247 | the hoisted path builds the tree the per-record path builds |
| AttrTree.AppendAttr | attr.go:271-335 | the map filled in place is the specified tree |
| AttrTree.Walk | attr.go:179-205 | the With chain and the record give the tree of one flat list of attributes, a WithGroup being one Group attribute of all that follows |
| AttrTree.GroupVanishes | attr.go:182-186 | a group none of whose members contributes a key, at any depth, vanishes; otherwise it holds exactly them |
| AttrTree.AppendAllKeepsDense | attr.go:293-316 | no group in the tree is empty |
| AttrTree.LastWins | attr.go:327-334 | within one map a key holds what the last attribute contributing it put there |
| Handler.PrepareExtraFields | handler.go:58-72 | in any iteration order the fields are split into hoisted conversions and attributes, each once |
| Handler.Build | attr.go:135-177 | the loops over the root give the specified root |
| Handler.RootIsDense | attr.go:135-177 | no group of a finished record is empty, whatever the record, source, context and extra fields |
| Handler.Precedence | attr.go:109-134 | at the root the record beats source, source the context, an earlier extractor a later one, and all of them the extra fields, key by key |
| Handler.AnyOrder | attr.go:164-175 | the iteration order of the extra fields does not show |
| Handler.ChainReads | handler.go:302-330 | what a handler keeps of a chain of calls reads as that chain, empty calls included |
| Handler.Handler.With | handler.go:302-330 | a derived handler records its parent's chain and one call more, sharing no array the parent could see written |
| Handler.Handler.WithGroupOrAttrs | handler.go:332-345 | the new list is an array of its own |
| Handler.Handler.Tree | attr.go:135-205 | through whatever chain a handler was derived, a record's tree is that of its chain's attributes |

## Left out

- HTTP, TLS, headers, redirects, body draining and connection reuse: one request is an answer, an error or a status with a Retry-After header.
- gzip: an uninterpreted function of the framed bytes that may fail; its output is never decoded.
- Records through `encoding/json`, floats, times and other values: the encoder proofs use the fastjson printer, and `appendOther`, `appendFloat` and `appendTime` are leaves that append a given text or fail; what a reader recovers asks of that text only that it is one JSON value.
- Fractions and exponents: the parser accepts them and keeps the number's text; its value as a float is not modelled.
- ReplaceAttr: absent throughout the attribute tree, so group paths, which only it sees, are absent too.
- Handler.Precedence: asks that context attributes and extra fields have non-empty keys, because the check for a taken key runs before an empty-keyed group is inlined.
- AttrTree.AppendAttr: a finished child map is attached as a value; nothing writes to it afterwards, and the sharing of `any` values between records is not modelled.
- A LogValuer answers the same throughout one record, and panics in one are not modelled.
- Packer.Packer.Split: a half's raw bytes alias the parent's buffer, but end offsets are values, so the sharing of the offset slice with the left half is not shown.
- Batch bodies in the step machine: only their length is kept; the bytes are the business of `Packer` and `Transport`.
- Sender.Sender.Turns: covers any finite number of turns; the upload pool's reply is registered in the step machine, not in this class.
- Delivery.DeliveryWaits: bounds scheduled waits by the deadline only for an HTTP client that fails requests begun under a cancelled context, as net/http does; Transport.CutHalves is a run that shows why.
- SourceCache.SourceCache.LookUp: one goroutine at a time; racing rotations, which the code calls approximate by design, are left out.
- LimiterRace.RateLimit: readings stay a window short of the end of the int64 clock, where nothing saturates.
- Fairness and real time: the shutdown measure bounds steps, not seconds, and the transport's loops end because attempts are counted.
- The OnError callback, its panics, stderr output, pool capacity caps and allocation counts; a pool may keep or drop a returned buffer freely.
- Options, validation, `Enabled`, filters, converters and payload layout: single-branch code; validated ranges are assumed as class invariants.
