# A verified model of the ECAppLog client

The client hands log entries from any number of threads to one worker, which writes them as frames
to a GUI over TCP. This project follows an entry from the call of `log` to the frame that the
server takes out of the byte stream, and proves what happens to it on the way.

Four pieces make up the story.

* **Queue and worker.** `Protocol.dfy` is a state machine of logging threads, flushers, closers and
  the worker. A step is one lock section, one notification, one I/O call or one reading of the
  clock; releasing a lock and notifying are separate steps. Network outcomes, timeouts, spurious
  wakeups and the interleaving are left open, and a failing `write_all` hands over a proper prefix
  of its buffer. Time passes at any point, except that an attempt to connect ends by its timeout and
  that a literal address is resolved at once; a host name has several addresses, tried in turn. Entries
  carry their place among the accepted ones as bookkeeping. `Queue.dfy` holds the guarded fields as an
  object updated in place, `QueueSpec.dfy` the functions it is proved against. `World.dfy` and `Worker.dfy` are the worker as it is written, loops over the queue object
  and reused buffers; each of its operations is proved to be the step that the state machine takes,
  so every theorem about reachable states applies to it.
* **Payloads, frames and reassembly.** `Proto.dfy` makes the members of the JSON object and encodes
  frames, with the cast of the length to 32 bits written out. `Server.dfy` is the stand-in server's
  handler, with its own copy of the protocol's constants and its validation; `Payload.dfy` is what it
  reads of a payload, key by key.
* **Calendar.** `Calendar.dfy` defines the Gregorian calendar from its leap rule and month lengths;
  `CivilProofs.dfy` compares the closed-form arithmetic with it.
* **Timestamp text.** `Timestamp.dfy` and `TimestampProofs.dfy`: layout, inverse and order.

The invariants are proved step by step in `QueueInvariants`, `Accounting`, `Wakeups`, `Reports`,
`Control`, `Connections`, `Flush` and `Closers`, and put together in `Runs`. `Loops` says which way
the worker goes in its two loops. `Channel` proves that the client
refines a lossy first-in first-out channel, `Termination` that it ends, and `EndToEnd` joins the
protocol to the server. `Promises` and `Deadlines` take what the documentation says and the code does
not give, and prove when the code does give it, with states and runs in which it does not.

Where the code and its comments differ, the model follows the code. For each of the differences below
there is an input on which the comment fails and the exact condition under which the code meets it:

* The flush timeout is said to bound everything the worker does after shutdown, the connect attempt
  included, so that `close` never takes longer (src/client.rs:368-370, 459-460; src/client.rs:115-116
  says that `close` returns without waiting if the server is unreachable).
  * A connect that is under way when `close` is called has no deadline. It ends within the flush timeout
    of the call exactly if the address needs no lookup and the connect timeout is at most the flush
    timeout (`Deadlines.ConnectsFitIff`), which the defaults do not meet (`Deadlines.DefaultsDoNotFit`);
    its attempts do exactly if the connect timeout, once for every address, is at most the flush timeout
    (`Deadlines.AttemptsFitIff`). `Deadlines.CloseOutlasts` and `LookupOutlasts` are runs that wait longer.
  * The deadline is counted from the worker's next look, not from the call, and so comes later by all
    that such a connect takes (`Deadlines.DeadlineArmedLate`).
  * A connect with a deadline in force is over a millisecond after it, or after its own start if that
    came later, plus the time of the lookup, exactly if there is one address to try or no deadline is
    ever in force at a connect (`Deadlines.DeadlineHeldIff`): every further address is given the whole
    timeout again (`Deadlines.SecondAddressLate`).
  * The checks lie between steps. After shutdown one more connect starts if the worker is about to start
    it, none if it is past that point (`Runs.OneLateConnect`); after the deadline one more `pop` starts if
    the check was already made, and otherwise none (`Runs.OneLatePop`, `Deadlines.LatePopHappens`).
* The ranges noted at src/timestamp.rs:56-58 hold from 0000-03-01 on. Before that the era is one too
  low except on the last day of each 400-year era, and the date is wrong exactly then
  (`CivilProofs.CivilCorrectIff`; `CivilProofs.CivilCollision` is an input).
* `flush` is documented (src/queue.rs:163-165) as meaning that every entry reached the operating
  system. An entry that cannot be sent is passed over, and `flush` returns true with nothing written
  (`Promises.FlushCounterexample`). Exactly: everything accepted before the call was written if and
  only if all of it can be sent and none was lost to an overflow (`Promises.FlushWrittenIff`); with no
  drops, or no more entries than the capacity, that is if and only if all of it can be sent
  (`Promises.FlushWrittenWithoutDrops`).
* A total told to a caller of `log` is reported as a full queue. The queue need not be full: it is told
  exactly if shutdown is set or the queue is full (`Promises.LogToldIff`), and after a `close` the queue
  can be empty (`Promises.FullReportedWhenEmpty`).
* `dropped_count` is said to count the entries discarded because the queue was full
  (src/client.rs:338). It does exactly if no call of `log` came after shutdown
  (`Promises.DroppedCountIff`); `Promises.FullReportedWhenEmpty` is again an input.
* A failed write is said to cost no entries (src/client.rs:433-434). The entry is kept exactly if the
  queue has room for it by then (`Promises.FailedWriteKeepsIff`); `Promises.FailedWriteLoses` is a
  state in which it was lost.
* The banner is written without the size check that log frames get (src/client.rs:402). The server
  understands it exactly if its payload is within the limit (`Server.BannerUnderstoodIff`;
  `Server.LongNameRejected` is an input). Theorems about what the server sees require that.

## Model

| member | source | states |
|---|---|---|
| CivilProofs.CivilCorrectIff | src/timestamp.rs:53-64 | for every day number, the date is valid and has that day number exactly from 0000-03-01 on and on the last day of each earlier era |
| CivilProofs.CivilValue | src/timestamp.rs:54-58 | for every day number the March-based year is right, and the day of that year is right or, outside the condition above, one too large |
| CivilProofs.CivilSuccessor | src/timestamp.rs:49-64 | from 0000-03-01 on, the date of the next day number is the calendar's next day |
| CivilProofs.CivilInverse | src/timestamp.rs:49-64 | a date comes back from its day number exactly when the era is right for that day |
| CivilProofs.EpochDate | src/timestamp.rs:49 | day 0 is 1970-01-01 |
| CivilProofs.CivilCollision | src/timestamp.rs:55 | two different days before 0000-03-01 get the same date |
| CivilProofs.WorkingRanges | src/timestamp.rs:56-62 | every quotient has a nonnegative numerator, intermediates keep their noted ranges, and the casts to 32 bits lose nothing |
| TimestampProofs.FormatRoundTripIff | src/timestamp.rs:21-47 | the text reads back as the instant floored to the millisecond exactly from 0000-02-29 to the end of 9999 |
| TimestampProofs.FormatLayout | src/timestamp.rs:17-47 | on those days the text has 23 characters with the separators in their places |
| TimestampProofs.FormatOrder | src/timestamp.rs:29-33 | on those days the order of texts is the order of instants, before 1970 as after |
| TimestampProofs.ZeroPadFixed | src/timestamp.rs:46 | a number that fits its width is rendered as exactly that many decimal digits |
| TimestampProofs.ZeroPadExact | src/timestamp.rs:46 | the formatting of any number, negative ones and ones too long included: the sign, then digits with the value of the number, with zeros only to make up the width |
| TimestampProofs.FormatParts | src/timestamp.rs:27-47 | of any instant, readable or not, the text is the padded year and then month, day, hour, minute, second and millisecond, each behind its separator |
| TimestampProofs.FieldsOfTime | src/timestamp.rs:29-41 | those fields are in range and make up the floored milliseconds, before 1970 as after |
| Proto.EncodeFrame | src/proto.rs:87-94 | whatever the buffer held, it ends up holding exactly one frame, whose bytes `FrameBytes` gives |
| Proto.FrameBytes | src/proto.rs:87-94 | a frame byte by byte: the command, four bytes that make up the low 32 bits of the payload length with the most significant first, and the payload |
| Proto.LogFrameBytes | src/proto.rs:25-26 | a log frame starts with the byte 0 |
| Proto.BannerFrameBytes | src/proto.rs:22-30 | a banner frame starts with the byte 99, and its payload is the nine ASCII codes of the prefix and the name |
| Proto.MakeBannerPayload | src/proto.rs:96-102 | the banner payload is the prefix and the name |
| Proto.SendablePayload | src/client.rs:515-526 | what is sent for an entry is its serialisation, exactly if that succeeds and is within the limit |
| Proto.BigEndianInverse | src/proto.rs:92 | the length field determines the length |
| Proto.FromBigEndianInverse | examples/mock_server.rs:69-74 | the length determines the length field |
| Proto.BigEndianOrder | src/proto.rs:92 | the order of lengths is the lexicographic order of their bytes, so the most significant byte is first |
| Payload.LookupObject | src/proto.rs:45-68 | which keys the object of a payload has and with which values: four always, the others unless empty |
| Payload.ObjectReadsBack | examples/mock_server.rs:111-139 | read by key, a missing key as empty, the object gives the whole payload back |
| Payload.FieldsArrive | src/proto.rs:71-85 | every field of a record reaches the server under its own key, whatever the day |
| Payload.RecordRoundTripIff | src/proto.rs:71-85 | the server has the whole record back, its time floored to the millisecond, exactly on the readable days |
| Server.Act | examples/mock_server.rs:88-148 | acting on one frame: banners once and with the prefix, log entries counted, the rest tolerated |
| Server.DecodeBuffered | examples/mock_server.rs:66-150 | the offset loop and the final cut compute the draining of the buffer |
| Server.Handle | examples/mock_server.rs:39-154 | for any non-empty chunks, followed by an end of the stream or nothing, the session is that of a handler fed those chunks; for any reads it is that of all bytes received |
| Server.ReceivedChunks | examples/mock_server.rs:51-62 | what is received up to the first error or empty read is all the chunks put together |
| Server.DrainSplit | examples/mock_server.rs:64-67 | draining what has come and then the rest drains the whole |
| Server.FeedAllFlatten | examples/mock_server.rs:64-67 | a handler fed in chunks has the state of one fed everything |
| Server.DrainConserves | examples/mock_server.rs:67-86 | frames taken out, encoded again, followed by the buffer, are the bytes received |
| Server.DrainDrained | examples/mock_server.rs:82-84 | no complete frame stays in the buffer of a live session |
| Server.ReassemblyInvertsFraming | examples/mock_server.rs:46-151 | the bytes of any list of frames within the limit, cut anyhow into reads, leave the session of the frames, also when one of them is hung up on; if none is, exactly those frames come out and an incomplete tail stays |
| Server.ValidationExact | examples/mock_server.rs:88-108 | a list of frames gets through exactly when at most one banner comes and each banner has the prefix; then the log frames are counted and the name is the one that the banner gave |
| Server.RejectionExact | examples/mock_server.rs:88-108 | otherwise the session ends at the first banner that is not the first one or lacks the prefix, for that reason, and takes nothing after it |
| Server.StreamAcceptedIff | examples/mock_server.rs:66-108 | the same of the bytes, under any chunking: a second banner or one without the prefix is hung up on, and nothing else |
| Server.OversizeRejected | examples/mock_server.rs:76-81 | a head declaring more than 16 MiB ends the session under any chunking, unless an earlier frame has ended it |
| Server.BannerUnderstoodIff | src/client.rs:402-403 | the banner frame is understood, name and all, exactly when its payload is at most 16 MiB |
| Server.SentIffTaken | src/client.rs:519-526 | the client sends a serialised entry exactly if the server takes its log frame |
| Server.LongNameRejected | src/client.rs:402-403 | a name of 16 MiB is hung up on |
| QueueSpec.BurstKeepsNewest | src/queue.rs:88-106 | a burst of pushes keeps the newest entries in order and counts every other one |
| QueueSpec.PushFrontUndoesTake | src/queue.rs:113-148 | putting back what was just taken restores the queue |
| Queue.Queue.constructor | src/queue.rs:59-73 | an empty queue; capacity zero becomes one |
| Queue.Queue.Push | src/queue.rs:88-106 | the new state and the total told to the caller, in the three cases |
| Queue.Queue.PushFront | src/queue.rs:113-122 | the entry goes to the head, or is counted as dropped when the queue is full |
| Queue.Queue.Take | src/queue.rs:138-147 | the end of `pop`: entries before shutdown, `busy` set with the entry |
| Queue.Queue.Finish | src/queue.rs:151-158 | `busy` cleared, and whether flushers are to be notified |
| Queue.Queue.RequestShutdown | src/queue.rs:176-179 | shutdown set and nothing else |
| Queue.Queue.IsDrained | src/queue.rs:166-173 | the condition that `flush` waits for |
| QueueInvariants.TailStep | src/queue.rs:88-148 | every step keeps: the queue is the last stretch of the accepted entries, the hand precedes it, losses are older |
| Accounting.PartitionStep | src/queue.rs:88-159 | every step keeps the accepted entries partitioned over six places |
| Accounting.CountedStep | src/queue.rs:79-117 | every step keeps `dropped` equal to evictions, refusals and late calls |
| Accounting.OverrunStep | src/queue.rs:95-117 | every step keeps: entries are lost to overflow only if more were accepted than the capacity |
| Accounting.SortedStep | src/client.rs:515-531 | only sendable entries are written and only unsendable ones discarded |
| Wakeups.DrainedHeardStep | src/queue.rs:151-173 | every step keeps: a flusher asleep on a drained queue has a notification coming |
| Wakeups.WorkHeardStep | src/queue.rs:102-147 | every step keeps: a worker asleep with something to do has a notification coming |
| Wakeups.CloseWakes | src/queue.rs:176-182 | a `close` wakes the worker and then every flusher |
| Reports.OneReportStep | src/client.rs:268-276 | every step keeps each dropped total with one caller, owed or reported once |
| Connections.CarriedStep | src/client.rs:400-446 | every step keeps each connection's bytes a banner, whole log frames and at most one cut-off frame |
| Control.ControlledStep | src/client.rs:373-454 | every step keeps what each program point says about shutdown, the deadline, the timeout of a connect and failure |
| Flush.DrainedSettles | src/queue.rs:128-173 | an empty queue with `busy` clear means that everything accepted is settled |
| Flush.PromisesStep | src/queue.rs:166-173 | every step keeps what returned calls of `flush` and `close` promised |
| Closers.JoinStep | src/client.rs:204-212 | every step keeps: the handle is taken once, after shutdown, and until the worker is gone exactly the thread that took it waits |
| Channel.StepRefines | src/client.rs:411-453 | every step is a behaviour of a lossy first-in first-out channel |
| Channel.RunRefines | src/client.rs:363-455 | so is every run |
| Channel.InOrderAfter | src/client.rs:411-453 | what such a channel delivers and holds is an increasing subsequence of the arrivals |
| Runs.InvStep | src/queue.rs:88-211 | all invariants together are kept by every step |
| Runs.DropOldest | src/queue.rs:88-148 | in every reachable state the queue is the last accepted entries, at most the capacity, and the hand directly precedes it while there is room |
| Runs.QueuedAreNewer | src/queue.rs:95-117 | no queued entry is older than any entry lost to an overflow |
| Runs.Conservation | src/queue.rs:88-159 | calls of `log` equal written, discarded, dropped, queued and in hand; the accepted entries are partitioned |
| Runs.AcceptedAreLogged | src/queue.rs:88-106 | over any run the accepted entries hold the records logged before shutdown, all of them and in order |
| Runs.NoLostDrained | src/queue.rs:151-173 | a flusher asleep on a drained queue is woken by the worker's next step |
| Runs.NoLostWork | src/queue.rs:102-147 | a worker asleep with work or after shutdown is woken by a pending notification |
| Runs.ReportsExact | src/client.rs:268-276 | totals reported or owed are exactly 1 to `dropped`, each once and with one caller |
| Runs.FlushLookExact | src/queue.rs:166-173 | in every reachable state a look of `flush` returns true if and only if all accepted entries are settled and the worker is not between `pop` and `finish`; otherwise false once its time is up, and it sleeps before |
| Runs.FlushCoversCall | src/queue.rs:166-173 | over any run from a call of `flush` to its return: what a true result promises is about everything accepted before the call |
| Runs.FlushSound | src/queue.rs:166-173 | if `flush` returned true, everything accepted before the call is written, discarded or counted |
| Promises.FlushWrittenIff | src/queue.rs:163-173 | if `flush` returned true, everything accepted before the call is written if and only if all of it can be sent and none of it was lost to an overflow |
| Promises.FlushWrittenWithoutDrops | src/queue.rs:163-173 | with nothing dropped, or no more accepted than the capacity: if and only if all of it can be sent |
| Promises.FlushWithoutWriting | src/client.rs:428-431 | for any record that cannot be sent there is a run in which `flush` returns true and nothing is written |
| Promises.FlushCounterexample | src/queue.rs:163-173 | the same for a concrete configuration and record |
| Runs.CloseSound | src/client.rs:204-212 | after a `close` that joined, the worker is gone and nothing is in hand |
| Runs.FirstCloseJoins | src/client.rs:204-212 | until the worker is gone exactly one thread waits for it once the handle is taken, and no `close` has returned as having joined |
| Runs.CloseCallsSet | src/client.rs:204-212 | every call of `close` has set shutdown, and one that returns, or waits, finds the handle taken |
| Runs.ExitLeavesEntries | src/client.rs:374-449 | entries are left at exit only without draining, after the deadline, or when the delay after a failed attempt was cut short; otherwise all are settled |
| Runs.WrittenInOrder | src/client.rs:411-446 | written, then in hand, then queued: accepted entries in order, each at most once |
| Runs.DeadlineFixed | src/client.rs:379-380 | once set, the deadline never moves, over any run |
| Runs.DeadlineArmed | src/client.rs:416-417 | it is set after shutdown, to the flush timeout from that moment |
| Runs.OneLateConnect | src/client.rs:374-399 | over any run after shutdown at most one connect starts: none past that point, exactly one if it is about to start and the worker takes a step |
| Runs.OneLatePop | src/client.rs:411-423 | over any run after the deadline exactly one `pop` starts if the check came before and the worker takes a step, and otherwise none |
| Runs.AttemptBounded | src/client.rs:461-484 | an attempt to connect has not outlasted its timeout; with a deadline in force that timeout, counted from the start of the connect, ends at most a millisecond after the deadline, or after that start if it came later |
| Deadlines.LatePopHappens | src/client.rs:416-423 | a `pop` does start after the deadline |
| Deadlines.ConnectsFitIff | src/client.rs:368-399 | over all runs: a connect under way when `close` is called, lookup included, ends within the flush timeout of the call if and only if the address is literal and the connect timeout is at most the flush timeout |
| Deadlines.AttemptsFitIff | src/client.rs:461-494 | over all runs: the attempts under way when `close` is called end within the flush timeout of the call if and only if the number of addresses times the connect timeout is at most the flush timeout |
| Deadlines.EndsBy | src/client.rs:482-494 | over any run after shutdown no step puts off the time by which the last attempt ends, and no connect outlasts it |
| Deadlines.DefaultsDoNotFit | src/client.rs:67-80 | the default timeouts do not meet the condition |
| Deadlines.CloseOutlasts | src/client.rs:368-399 | a run in which `close` waits for a connect under way at the call, for any time up to the connect timeout for every address |
| Deadlines.LookupOutlasts | src/client.rs:473-480 | a run in which it waits for a lookup, for any time |
| Deadlines.DeadlineArmedLate | src/client.rs:412-420 | a run in which the deadline is set to the flush timeout after such a connect, not after the call |
| Deadlines.DeadlineHeldIff | src/client.rs:457-471 | every connect with a deadline in force is over a millisecond after the deadline (or its start, if later) and the lookup, if and only if there is one address or no deadline is ever in force at a connect |
| Deadlines.SecondAddressLate | src/client.rs:482-494 | a second address is still being tried two milliseconds after the deadline |
| Promises.LogToldIff | src/queue.rs:88-106 | a call of `log` is told a total, the next one, if and only if shutdown is set or the queue is full |
| Promises.FullReportedWhenEmpty | src/client.rs:266-275 | a caller reports a full queue, and `dropped` is one, while the queue is empty and no entry was lost |
| Promises.DroppedCountIff | src/client.rs:338-343 | after any run `dropped` is the number of entries lost to a full queue plus the calls of `log` after shutdown; so it is the former if and only if there were none of the latter |
| Promises.FailedWriteKeepsIff | src/client.rs:431-441 | the entry of a failed write is put back, in front, if and only if the queue has room; otherwise it is refused and nothing else changes in the queue |
| Promises.FailedWriteLoses | src/client.rs:431-441 | a state in which it was lost: the queue had filled up during the write |
| Promises.WriteBreaksOff | src/client.rs:529-531 | a write may break off after any number of bytes short of the frame, and they stay on the connection |
| Promises.BannerBreaksOff | src/client.rs:402-409 | so may the write of the banner |
| Loops.ConnectsAfterShutdownIff | src/client.rs:373-387 | at the head of the reconnect loop after shutdown a connect may start in some run if and only if draining is wanted, something is queued and time is left |
| Loops.PopsAfterShutdownIff | src/client.rs:411-423 | on a connection after shutdown a `pop` may start in some run if and only if draining is wanted and time is left |
| Loops.LeavesAtOnce | src/client.rs:374-423 | in the other cases no connect and no `pop` starts in any run |
| Loops.FailureDelays | src/client.rs:389-445 | every failed lookup, last attempt, banner or write leads to the reconnect delay |
| Loops.DelayBeforeReconnect | src/client.rs:389-445 | over any run after a failure the worker goes on to a connection only when a reconnect delay has run its time |
| Loops.PopTimesOut | src/queue.rs:128-147 | a `pop` that finds nothing can end by its timeout without any step of another thread |
| Loops.DelayTimesOut | src/queue.rs:200-211 | so can the reconnect delay |
| Termination.StepRemaining | src/client.rs:373-454 | after shutdown each step of the worker decreases a measure that no other thread increases |
| Termination.ShutdownBounded | src/client.rs:373-454 | over any run after shutdown the number of worker steps is bounded |
| Termination.NeverStuck | src/client.rs:373-454 | until it exits the worker can step or sleeps, and asleep after shutdown it has a notification coming |
| Termination.CanExit | src/client.rs:373-454 | from every reachable state after shutdown there is a run to the worker's exit |
| Termination.CloseCanReturn | src/client.rs:204-212 | from every reachable state any call of `close` can be brought to its return |
| EndToEnd.PayloadTime | src/proto.rs:72-75 | the time in a payload reads back as the record's, exactly on the readable days |
| EndToEnd.ConnectionUnderstood | src/client.rs:400-446 | under any chunking the server gets the banner and one frame for each entry, rejects nothing and keeps the cut-off frame |
| EndToEnd.EndToEnd | src/client.rs:400-446 | decoding all connections in order gives exactly the payloads of the entries written so far |
| EndToEnd.RecordsArrive | examples/mock_server.rs:109-139 | through any parser that undoes the serialiser the server reads those payloads, one for one, as the records of the entries written |
| EndToEnd.WrittenWereLogged | src/client.rs:268-276 | over any run the entries written hold records of calls of `log` before shutdown, in the order of the calls |
| EndToEnd.DecodedInOrder | src/client.rs:411-446 | those are accepted entries in log order, each at most once |
| EndToEnd.StreamUnderstood | src/client.rs:400-446 | the server rejects no stream of any run; each starts with one banner that carries the name |
| EndToEnd.PartialDelivery | examples/mock_server.rs:52-62 | from any first part of a connection's bytes the server takes a first part of its frames |
| Protocol.ConnectTimeout | src/client.rs:461-471 | the timeout of each attempt: the configured one, shortened only because the deadline comes first; with a deadline in force never zero and at most a millisecond past it |
| World.World.Play | src/queue.rs:88-200 | a step of another thread, done on the queue object, is the step that the state machine takes; what the worker owns is untouched |
| World.World.IsShutdown | src/queue.rs:193-198 | the result is the shutdown flag, and the worker goes where the state machine does |
| World.World.Pop | src/queue.rs:128-148 | the waiting loop, with spurious wakeups and timeouts, ends at the point that fits its result |
| World.World.SleepOrShutdown | src/queue.rs:204-211 | true exactly when shutdown is set at the end of the delay |
| World.World.ChooseTimeout | src/client.rs:461-471 | the clock is read after any steps of the other threads, and the connect under way has the timeout of that instant |
| World.World.Resolve | src/client.rs:473-480 | the lookup ends with some addresses to try, the first of them at once, or with none; a literal address with one |
| World.World.Attempt | src/client.rs:483-494 | one attempt: a connection, or the next address under the same timeout, or the end of the list; none is tried with a zero timeout while a flush is under way |
| World.World.WriteAll | src/client.rs:529-531 | all of the buffer is handed over, or a proper prefix |
| Worker.WriteRecord | src/client.rs:509-532 | whatever the reused buffers held: discarded exactly if unsendable, otherwise this entry's frame or a proper prefix of it is handed over |
| Worker.DeadlineOver | src/client.rs:416-420 | the deadline is fixed if it was not, kept if it was, and over exactly when the clock has reached it |
| Worker.GiveBack | src/client.rs:435-444 | requeue, finish, report and delay, in the state machine's order |
| Worker.SendNext | src/client.rs:423-452 | one round of the inner loop ends where the state machine does |
| Worker.Connect | src/client.rs:461-507 | the loop over the addresses, all under one timeout, ends connected or in the reconnect delay, an empty list included |
| Worker.StartConnection | src/client.rs:389-409 | connect and banner, or the reconnect delay |
| Worker.Run | src/client.rs:363-455 | the loops keep to the state machine and end |
| Worker.Work | src/client.rs:363-455 | at its end every call of `log` is accounted for, the server decodes what was written, and entries are left only for an allowed reason |

## Left out

- The JSON text: writing an object as text is any function that may fail. Which members the object has, and under which keys, is modelled.
- Sockets and thread spawning. A lookup fails or gives any number of addresses up to a bound; an attempt succeeds, or fails by its timeout.
- The clock is a number that never decreases; timeouts of waits and of writes may come at any time. A zero connect timeout, which the system rejects, may also succeed.
- Wall-clock bounds on writing and on `close` as a whole: the code checks the deadline only between steps.
- Panics, mutex poisoning, and a `close` or `flush` called from `on_error` on the worker thread. A `log` called there is covered as a call from another thread.
- The `on_error` reports of connect and write failures: only the dropped totals are followed.
- Wrap-around of the 64-bit `dropped` counter.
- Worker.Run: the source's worker may run forever; here the scripted environment ends with a `close`, so the method is about runs in which one comes. The state machine has no such limit.
- Server.Act: what the handler prints is not modelled; what it reads of a payload is in `Payload`.
- The second decoder of the tests (tests/wire.rs:24-67), the same loop without validation.
- Priorities, the record builder, the error texts and the builder's setters.
- The adapters for the `log` and `tracing` libraries.
