# A model of the openworkers Nova runtime: event loop, UTF-8 codec, wire form, codec table

A worker runs guest JavaScript on an engine that hands every job, timer and
binding call to its host. This project models the host side and the guest glue
beside it, and proves what they promise.

- `EventLoop.dfy` is the worker as a state machine: host slots, guest maps, clock
  and deadline, and every step either side can take. A log of steps is legal when
  each was possible when it was taken. `TimerTheorems.dfy`, `CallTheorems.dfy`,
  `JobTheorems.dfy` and `DispatchTheorems.dfy` are about every legal log: every
  guest, every interleaving, every clock, across dispatches and failed drains.
- `DrainLoop.dfy` is the drain loop as a function of a world: what each guest turn
  does, which jobs are found unfinished, how long calls take, how late sleeps end.
  It holds the refinement of the capped job queue. `PassTheorems.dfy` says
  field by field what a guest's calls and the passes of a drain come to, and why a
  drain stops. `WorldRuns.dfy` shows that what a drain does in any world is a legal
  log. `DrainTheorems.dfy` says when and how a
  drain ends, `DeadlineTheorems.dfy` what a wall clock is worth, and
  `ClearTheorems.dfy` what clearing a timer forbids.
- `Worker.dfy` is the worker as a class with the source's fields and methods. Its
  `Valid` says that the fields are what a legal log leads to, so every theorem on
  logs holds of it; its methods are also proved equal to the functions of
  `DrainLoop.dfy`. `ServeTheorems.dfy` reads the reply to an event, and the end of
  a load, off the guest's turns alone.
- `Unicode.dfy` and `Utf8.dfy` define UTF-16 strings, the well-formed sequences of
  section 4 of RFC 3629, and the maximal subparts of section 3.9 of the Unicode
  Standard, with no decoder in sight. `TextEncoder.dfy` and `TextDecoder.dfy` are
  the two classes of `src/encoding.js`, proved against them; `DecoderTheorems.dfy`
  holds chunk invariance, fatal mode and the round trips. `StandardDecoder.dfy` is
  the decoder of the Encoding Standard, byte by byte (sections 7.2 and 8.1.1);
  `EncodingStandard.dfy` says it by pieces and compares the code with it.
- `Wire.dfy` is the rewrite of guest values on their way to the host, `Codecs.dfy`
  the table of open compression streams.

Times are in nanoseconds, on a clock that does not go back. A sleep ends at or
after the time it was for. Bytes, code units and code points are integers within
their ranges, and a shift by six is a division by 64.

Five places where the code does less than one might expect, each a theorem:

- A wall clock does not end every drain. An answer that is there already counts
  even when no time is left (`src/worker.rs:243-246`), and without an operations
  handler every call is answered at once (`src/bindings.rs:98-105`), so a guest
  that makes one such call per turn, from its script on, is never loaded:
  `DeadlineTheorems.UnwiredHostSpins`. Against guests whose turns take time the
  deadline holds if and only if no more than finitely many calls are answered at
  once, for drains in general and for those of loads alone:
  `DeadlineTheorems.DeadlineIsAsGoodAsItsAnswers` and
  `DeadlineTheorems.LoadsAreAsGoodAsTheirAnswers`.
- After a throw in fatal mode the decoder departs from section 7.2 of the Encoding
  Standard in two ways. If the call was streamed, the standard still has the rest
  of the input to decode and the code has dropped it; if it was not, the standard
  starts afresh and the code still believes that no byte order mark is due
  (`src/encoding.js:205-220`). `EncodingStandard.ThrowAgreesExactly` says exactly
  when neither shows; `EncodingStandard.LostInput` and `EncodingStandard.StaleMark`
  are runs in which they do.
- Clearing a handle that was not given out yet is not remembered: the timer that
  gets it later can fire. `ClearTheorems.ClearForbidsExactly` says exactly when it
  can, `ClearTheorems.EarlyClearIsLost` is a load in which it does.
- Binding calls settle latest first: `CallTheorems.LatestCallFirst`.
- A property named `__proto__` is lost on the way to the host:
  `Wire.NamesAreImages`.

## Model

| member | source | states |
|---|---|---|
| Unicode.PointsSpellTheString | src/encoding.js:29-30 | walking a string by code points loses nothing: the points spell the string again |
| Unicode.RepairedPointsSpellTheRepairedString | src/encoding.js:29-34 | replacing surrogate code points one by one is toWellFormed on the whole string, defined unit by unit |
| Unicode.ToWellFormedIsWellFormed | src/bootstrap.js:10-12 | the result has no lone surrogate, a string is its own result exactly when it has none, and twice is once |
| Unicode.ToWellFormedSays | src/bootstrap.js:10-12 | unit by unit: a surrogate that stands alone becomes FFFD, and every other unit stays |
| Unicode.PairSays | src/encoding.js:29-30 | when two units are a pair, and the number the pair or a single unit is, as one formula over the units |
| Unicode.PairsKeepOrder | src/encoding.js:29-30 | of two pairs the greater in its high half, or then in its low half, is the greater code point |
| Unicode.UnitsSay | src/encoding.js:226 | the units String.fromCodePoint gives, by a formula of their own |
| Utf8.EncodingKeepsOrder | src/encoding.js:36-53 | a smaller scalar value has a sequence below, byte by byte, that of a greater one |
| Utf8.OpenMeansUnfinished | src/encoding.js:165-192 | the bytes the decoder waits on are exactly the proper non-empty prefixes of well-formed sequences |
| Utf8.SequencesAreEncodings | src/encoding.js:36-53 | every well-formed sequence is the encoding of its value, so overlong forms, surrogates and values past 10FFFF have none |
| Utf8.EncodedValue | src/encoding.js:36-53 | the value of what a scalar encodes to is that scalar |
| Utf8.Decompose | src/encoding.js:162-208 | every byte string splits into well-formed sequences and maximal ill-formed subparts |
| Utf8.DecompositionIsUnique | src/encoding.js:162-208 | there is only one such split |
| Utf8.DecompositionCovers | src/encoding.js:162-208 | the pieces are the input, none is empty, and each has one meaning, a scalar value |
| Utf8.TextIsAllGood | src/encoding.js:162-208 | bytes are the encoding of some scalar values exactly when no piece is ill-formed |
| Utf8.DecomposeContinues | src/encoding.js:152-203 | what can be emitted of an input stands whatever follows, and the held bytes stand in for the past |
| Utf8.EmittedContinues | src/encoding.js:152-203 | cutting an input twice emits and holds what cutting it once does |
| TextEncoding.TextEncoder.Encode | src/encoding.js:23-57 | the bytes are the encoding of the string's scalar values, lone surrogates replaced |
| TextEncoding.TextEncoder.EncodeInto | src/encoding.js:61-79 | the destination is the encoding of the first `read` units and then what it was; no code point is cut; no longer cut of the text fits |
| TextEncoding.TextEncoder.EncodeNext | src/encoding.js:66-76 | one pass of that loop, which stops only when the next code point does not fit |
| TextDecoding.TextDecoder.constructor | src/encoding.js:120-138 | a new decoder holds nothing and has seen no mark |
| TextDecoding.TextDecoder.Read | src/encoding.js:163-202 | one byte against the open sequence: extends it, completes it with its value, or breaks it, to be read again or not |
| TextDecoding.TextDecoder.Scan | src/encoding.js:162-203 | the loop, with its backing up: the points pushed are the meanings of the pieces, the fields stand for the open sequence the input stops in, and fatal mode throws at the first ill-formed piece |
| TextDecoding.TextDecoder.Start | src/encoding.js:249-253 | the three fields a lead byte sets |
| TextDecoding.TextDecoder.Reset | src/encoding.js:255-261 | every sequence field is initial |
| TextDecoding.TextDecoder.DropMark | src/encoding.js:210-220 | a leading mark goes when one is due; the flag survives only within a stream |
| TextDecoding.TextDecoder.Spell | src/encoding.js:222-229 | spelling 1024 points at a time is spelling all of them |
| TextDecoding.TextDecoder.Decode | src/encoding.js:152-230 | answer and memory of a call are those of the decomposition of held and new bytes, in every mode and any state |
| DecoderTheorems.TwoCallsAreOne | src/encoding.js:152-230 | a streamed call followed by any call answers and remembers what one call on both inputs does |
| DecoderTheorems.ChunksDoNotMatter | src/encoding.js:152-230 | however bytes are cut, the texts of stream calls and a closing call add up to the text of one call, and some call throws exactly when it does |
| DecoderTheorems.FatalAcceptsExactlyUtf8 | src/encoding.js:185-208 | a fatal call returns exactly on well-formed UTF-8, and encoding its text gives the bytes back, less a mark that is not ignored |
| DecoderTheorems.DecodingUndoesEncoding | src/encoding.js:23-57 | decoding what any string encodes to gives it with lone surrogates replaced, less one leading U+FEFF unless marks are ignored |
| DecoderTheorems.KnownBytes | src/encoding.js:29-53 | U+1F600 encodes to F0 9F 98 80, and either of its halves alone to EF BF BD |
| DecoderTheorems.KnownTexts | src/encoding.js:160-230 | those bytes decode to its two units, and FF to U+FFFD |
| DecoderTheorems.TextIsWellFormed | src/encoding.js:160-230 | no byte string makes a decoder return a lone surrogate |
| DecoderTheorems.TextIsNoLongerThanBytes | src/encoding.js:160-230 | units returned and bytes still held never exceed bytes held before and given |
| DecoderTheorems.AnsweredCovers | src/encoding.js:162-208 | each byte is answered for or held, never both and never neither |
| DecoderTheorems.ReturningCloses | src/encoding.js:205-220 | a closing call that returns leaves the decoder as new |
| DecoderTheorems.ThrowKeepsTheMarkFlag | src/encoding.js:205-220 | after a fatal throw, streamed or not, the code answers all later calls, up to the next throw, as a new decoder would exactly when marks are ignored or none had been looked for |
| StandardDecoder.CodeFollowsTheStandard | src/encoding.js:152-230 | through any calls, up to and including the first throw, a new decoder answers as the byte handler of section 8.1.1 run by the method of section 7.2 does |
| StandardDecoder.QueueReadsPieces | src/encoding.js:162-208 | that handler, bytes put back included, reads a queue as its unique decomposition, and in fatal mode no further than the first ill-formed piece |
| StandardDecoder.MethodIsStandardCall | src/encoding.js:152-230 | a call of that method answers and keeps what EncodingStandard.StandardCall says in terms of pieces |
| StandardDecoder.ThrowFollowsTheStandard | src/encoding.js:185-220 | after a throw the code goes on answering as that method does exactly under the condition of the next row |
| EncodingStandard.ThrowAgreesExactly | src/encoding.js:185-220 | after a throw all later calls, up to the next throw, are answered as in section 7.2 exactly when a streamed call had nothing to read after the ill-formed piece, or a closing call had no mark flag to forget |
| EncodingStandard.SessionsAgree | src/encoding.js:152-230 | up to and including the first throw the code answers as that section, said by pieces, does |
| EncodingStandard.StaleMark | src/encoding.js:210-220 | a run of a new decoder after whose throw a mark stays in the text that the standard drops |
| EncodingStandard.LostInput | src/encoding.js:178-192 | a streamed call that throws and loses a byte the standard still decodes |
| TimerTheorems.TimersFireInOrder | src/worker.rs:278-297 | over a worker's whole life, timers fire in strictly increasing order of due time and then of setting |
| TimerTheorems.TimersAreCoupled | src/bootstrap.js:86-129 | at every step each host timer has a guest callback of the same kind, under a handle no other timer carries |
| TimerTheorems.FiringIsQuiet | src/worker.rs:230-274 | a timer fires with no job and no call queued, not before its time, never when due past the deadline, and finds its callback |
| TimerTheorems.SettlingIsQuiet | src/worker.rs:230-256 | a call is settled only with an empty job queue |
| TimerTheorems.DeadStays | src/worker.rs:276-297 | a handle given out that no timer carries is never carried again |
| TimerTheorems.ClearedNeverFires | src/worker.rs:843-858 | a handle that was given out and cleared never fires again, even cleared from its own callback |
| TimerTheorems.EarlyClearChangesNothing | src/bootstrap.js:99-104 | clearing a handle not given out yet changes no part of the state |
| ClearTheorems.ClearForbidsExactly | src/worker.rs:843-858 | at any moment of a script's, dispatch's, timer's or answer's turn, clearing a handle rules out that it fires in the drain, however guest and world go on, if and only if it was given out, or more jobs than the cap are queued, or the drain's deadline has gone by |
| ClearTheorems.KnownNeverFires | src/worker.rs:843-858 | cleared after it was given out, a handle fires at no pass in any world |
| ClearTheorems.EarlyClearIsLost | src/bootstrap.js:86-104 | a load whose script clears handle 1 and then sets its first timer: it fires, and the drain ends well in two passes |
| WorldRuns.DrainIsARun | src/worker.rs:230-274 | any number of passes of a drain, in any world, is a legal log that begins no other drain |
| TimerTheorems.OneShotFiresOnce | src/bootstrap.js:124-126 | a timer that does not repeat fires at most once |
| TimerTheorems.TimeoutKillsTimers | src/worker.rs:262-266 | after a timeout on a timer, no timer set before it fires in any later drain |
| TimerTheorems.FiresOnSchedule | src/worker.rs:289-294 | firing n of a timer is due at exactly its first due time plus n times the larger of its delay and a millisecond |
| TimerTheorems.FiringWasSet | src/bootstrap.js:91-94 | every firing has a call to setTimeout or setInterval before it, of its handle and kind |
| TimerTheorems.HandleWasSet | src/bootstrap.js:91-94 | every handle below the counter was given out by such a call |
| TimerTheorems.LivesUntilItEnds | src/worker.rs:258-297 | a timer that was set is gone exactly when it was cleared, a drain timed out on a timer, or it fired and does not repeat |
| TimerTheorems.CallbackLivesUntilDropped | src/bootstrap.js:83-129 | the guest keeps the callback of a timer exactly until it is cleared, or has run and does not repeat |
| TimerTheorems.OrphansAreLeftByTimeouts | src/worker.rs:262-266 | a callback without a host timer is exactly one a timeout on a timer left behind and nothing has dropped |
| TimerTheorems.NoTimerIsForgotten | src/worker.rs:258-260 | once nothing is waited for, every timer ever set has ended in one of those ways |
| CallTheorems.CallsAreConserved | src/bindings.js:5-31 | at every step the ids handed over split without overlap into settled, abandoned, queued and in flight; the guest's pending map holds those not settled and those never handed over |
| CallTheorems.CallsSettleOnce | src/bindings.js:17-31 | a promise is settled at most once, finds its entry, was handed over, and was not given up |
| CallTheorems.LatestCallFirst | src/worker.rs:236-240 | when a call is taken, every later one was settled or given up already |
| CallTheorems.CallIdsAreFresh | src/bindings.js:8-15 | ids strictly grow and are never reused, failed calls included |
| CallTheorems.EveryCallIsSettled | src/worker.rs:233-256 | with no deadline and no call left, every call handed over was settled |
| JobTheorems.JobsAreConserved | src/worker.rs:324-362 | jobs queued are jobs run, dropped at the cap, or still queued, as multisets, whatever rotates |
| JobTheorems.JobsAreFifo | src/worker.rs:165-177 | with every job finished, what left the queue and then what is in it is what came in, in order |
| DispatchTheorems.OutcomeIsLastAnswer | src/worker.rs:902-932 | the slot is the last answer given with the current id since its dispatch began or it was taken |
| DispatchTheorems.OutcomeIsOwn | src/worker.rs:374-407 | an outcome taken for dispatch n was given with id n after n began, and last; nothing older gets there |
| DispatchTheorems.MissingMeansUnanswered | src/worker.rs:388-398 | an outcome is missing only when no answer carried the current id |
| DispatchTheorems.StaleAnswersDoNotMatter | src/worker.rs:917-920 | without the answers that were late when given, the same run is legal and ends in the same state |
| DispatchTheorems.DispatchIdsGrow | src/worker.rs:372-375 | dispatch ids strictly grow, so an echoed id names one dispatch |
| DrainLoop.CapOnlyCuts | src/worker.rs:324-362 | the capped queue answers Ok exactly when the uncapped one runs dry within the cap, leaving the same state; otherwise it leaves that state with the queue emptied |
| DrainLoop.DueFirst | src/worker.rs:281-284 | the timer chosen is on the list and none comes before it |
| PassTheorems.JobsSay | src/worker.rs:324-362 | the queue is drained exactly when the plain one runs dry within 10,000 steps |
| PassTheorems.JobStepSays | src/worker.rs:326-345 | an unfinished job goes to the back and no turn is played, any other leaves the queue and has its turn |
| PassTheorems.AnswerSays | src/worker.rs:917-929 | an answer reaches the slot when it carries the id under way, and does nothing otherwise |
| PassTheorems.SetTimerSays | src/bootstrap.js:86-97 | the timer a call sets is due the number it gave after now, zero unless positive and finite, and repeats when it was asked to |
| PassTheorems.ClearTimerSays | src/bootstrap.js:99-104 | clearing a handle takes its callback and its timers, and nothing else |
| PassTheorems.CallHostSays | src/bindings.js:8-15 | a binding call is registered under the next id, and queued when its parameters can be written |
| PassTheorems.QueueSays | src/worker.rs:166-177 | a job goes to the back of the queue |
| PassTheorems.RearmedSays | src/worker.rs:289-290 | an interval is due again after its period, or after 1,000,000 ns if that is longer |
| PassTheorems.CallSays | src/worker.rs:238-256 | the last call is settled exactly when its answer is there or comes by the deadline, at that moment; otherwise the drain stops at the deadline with that call alone given up |
| PassTheorems.TimerSays | src/worker.rs:258-273 | the timer due first is fired exactly when it is due by the deadline, no earlier than it is due and at once when that is past; otherwise the drain stops without waiting and no timer is left |
| PassTheorems.PassSays | src/worker.rs:233-273 | a pass ends the drain, or goes on, for the reason that jobs, calls, timers and deadline give |
| PassTheorems.DrainSays | src/worker.rs:230-274 | a drain that has ended has a last pass, whose reason is the result |
| PassTheorems.BudgetIsKept | src/worker.rs:231-266 | a drain begun at `now` with a wall clock of b settles every call it takes that is answered by now + b, fires every timer due by then, and none that is not, but for answers that are there already |
| DrainLoop.FuelOnlyDelays | src/worker.rs:230-274 | the loop's answer does not depend on the bound on its passes, once there is one |
| DrainLoop.StopLeaves | src/worker.rs:230-274 | however drain returns no job is queued; when it returns Ok no call and no timer is left either |
| DrainLoop.TimeoutLeaves | src/worker.rs:240-266 | a timeout on a call leaves timers and other calls in place; one on a timer leaves no timer, and no call was queued |
| DrainTheorems.TakeWeighsLess | src/worker.rs:286-294 | taking a timer that is not past the deadline lowers what the list weighs, an interval being advanced by a millisecond or more |
| DrainTheorems.QuietDrainEnds | src/worker.rs:230-274 | a guest that starts nothing new is drained within as many passes as its calls and timers weigh, given a deadline or no interval |
| DrainTheorems.DrainEnds | src/worker.rs:230-274 | the same for a guest quiet only from some turn on; with no deadline its intervals have to be gone by some pass at which it is quiet |
| DrainTheorems.NoDeadlineNoTimeout | src/worker.rs:241-251 | without a deadline and with every call answered, a drain that ends ends well or at the cap on jobs |
| DrainTheorems.CallTreeSettles | src/worker.rs:233-256 | without a deadline, with every call answered, no interval, jobs within the cap and a finite tree of further calls and timers, drain ends well with nothing left |
| DeadlineTheorems.DeadlineEndsEveryDrain | src/worker.rs:230-274 | with a deadline, against any guest whose turns take time, however many timers and calls it goes on starting, drain ends, as long as calls from some number on are not answered at once; the passes are bounded by the ticks to the deadline and, from there, by the timers and early calls left |
| DeadlineTheorems.SpinsForEver | src/worker.rs:241-255 | for any wall clock and any rising list of calls answered at once there is a guest whose load never ends, its script and every later turn making one of those calls |
| DeadlineTheorems.UnwiredHostSpins | src/bindings.rs:98-105 | such a guest, on a worker without an operations handler |
| DeadlineTheorems.DeadlineIsAsGoodAsItsAnswers | src/worker.rs:230-274 | deadlines end the drains of all guests whose turns take time if and only if finitely many calls are answered at once |
| DeadlineTheorems.LoadsAreAsGoodAsTheirAnswers | src/worker.rs:536-549 | the same with the drains of loads for all drains |
| Workers.Worker.constructor | src/worker.rs:527-534 | a new worker is the initial state with an empty log |
| Workers.Worker.Enqueue | src/worker.rs:166-177 | every kind of job goes to the back of the one queue, and nothing else changes |
| Workers.Worker.NativeTimerStart | src/worker.rs:810-841 | the timer appended: due after the delay, zero unless positive and finite, with the next sequence number |
| Workers.Worker.Schedule | src/bootstrap.js:86-97 | the handle is the next one, guest callback and host timer appear together |
| Workers.Worker.Cancel | src/bootstrap.js:99-104 | callback and timers of the handle go, and nothing else changes |
| Workers.Worker.CallHost | src/bindings.js:8-15 | the promise is registered, and handed over only when its parameters can be written |
| Workers.Worker.Respond | src/worker.rs:902-932 | the slot changes only for the current id |
| Workers.Worker.RunTurn | src/worker.rs:217-226 | a guest turn is its calls in order, each a legal step |
| Workers.Worker.DrainJobs | src/worker.rs:324-362 | the loop with its cap is the function RunJobs, of which CapOnlyCuts speaks |
| Workers.Worker.StepJob | src/worker.rs:326-350 | the front job runs, or goes to the back when it is unfinished |
| Workers.Worker.FirstDue | src/worker.rs:281-284 | the index of the first timer that none comes before |
| Workers.Worker.NextTimer | src/worker.rs:278-297 | that timer is taken: an interval stays on the list, due again, a one-shot leaves it |
| Workers.Worker.FireTimer | src/bootstrap.js:117-129 | a one-shot's callback is dropped and then the turn is played, which may clear the interval that is running |
| Workers.Worker.SettleBinding | src/worker.rs:301-312 | the pending entry goes and then the turn is played |
| Workers.Worker.PassCall | src/worker.rs:238-256 | the call queued last is settled, or given up when the budget is over |
| Workers.Worker.PassTimer | src/worker.rs:258-273 | the timer due first is fired no earlier than it is due, or all timers are cleared when it is past the deadline |
| Workers.Worker.Drain | src/worker.rs:230-274 | the loop is the function Loop, and each result shows in the last step taken; on Ok nothing is queued, every timer ever set has ended, and with no wall clock every call ever handed over was settled |
| Workers.Worker.Evaluate | src/worker.rs:536-546 | scripts run in order, each in a turn of its own, up to the first that throws |
| Workers.Worker.Load | src/worker.rs:536-549 | a script that throws ends the load there, with no drain, and with the error of the runtime's scripts or of the guest's; otherwise what the scripts started is drained, and nothing is left when that ends well |
| Workers.Worker.Begin | src/worker.rs:364-379 | a fresh id, an empty slot, and the dispatcher's turn |
| Workers.Worker.TakeOutcome | src/worker.rs:384-407 | the slot is handed over and emptied |
| Workers.Worker.Serve | src/worker.rs:364-407 | the reply fits the last step taken: the outcome taken, as a value, an error, garbage or nothing; a timeout for a call given up or timers cleared; the limit for jobs dropped. An Ok reply is the last answer given with this dispatch's own id, and leaves no job, call or timer |
| Workers.Worker.Exec | src/worker.rs:558-592 | an aborted worker, or an event that is gone, changes nothing; otherwise the reply fits the last step taken; a fetch is answered only when it went well, a task always |
| Workers.Worker.Abort | src/worker.rs:594-598 | only the flag changes |
| ServeTheorems.ServedSays | src/worker.rs:364-407 | an event whose drain ends well is answered with the last answer given under its own id in the turns played for it; a throw, each way a drain fails, and a drain still going on have replies of their own |
| ServeTheorems.OkIsOwn | src/worker.rs:902-932 | the text of an Ok reply is among the answers one of those turns gave under that id |
| ServeTheorems.EvaluatedSays | src/worker.rs:536-546 | each script takes one turn, and the first that throws is the last |
| ServeTheorems.BuiltSays | src/worker.rs:536-549 | a load fails as the runtime's when one of its scripts throws, as the guest's when that one does, and otherwise answers for the drain of all of them |
| Wire.WireJson | src/bootstrap.js:15-31 | the rebuilding loop is one assignment per property under its rewritten name, in order |
| Wire.WireDescends | src/bootstrap.js:15-31 | the whole rewrite is the replacer on a value followed by the rewrite of what it gave |
| Wire.WireIsClean | src/bootstrap.js:9-31 | no lone surrogate is left in any string or name at any depth, and names are distinct |
| Wire.WireIsIdempotent | src/bootstrap.js:15-31 | a value is left alone exactly when it is clean, and twice is once |
| Wire.NamesAreImages | src/bootstrap.js:24-28 | the names on the wire are the images of the names that were there, all but `__proto__` |
| Wire.WireSays | src/bootstrap.js:9-31 | at every depth: strings repaired unit by unit, arrays item by item, objects with the value of the last property of each image, all else unchanged |
| Wire.NamesKeepOrder | src/bootstrap.js:24-28 | names on the wire come in the order in which their originals first do |
| Wire.LaterNameWins | src/bootstrap.js:26-28 | of names that become equal, the later property's value is kept |
| Codecs.CodecTable.constructor | src/compression.rs:92-97 | a table opens empty |
| Codecs.CodecTable.Start | src/compression.rs:147-163 | the next id for a format the codecs know, null otherwise |
| Codecs.CodecTable.Push | src/compression.rs:164-192 | what the codec could emit; null for a bad range, an unknown id, or input it refuses, and only the last removes it |
| Codecs.CodecTable.Finish | src/compression.rs:193-202 | the rest or null, and the codec is released either way |
| Codecs.CodecTable.Drop | src/compression.rs:203-213 | the codec is released |
| Codecs.StartSays | src/compression.rs:147-163 | a start answers an id exactly when the codec opens; that id is new, names that codec from then on, and no other entry changes |
| Codecs.ClosesExactly | src/compression.rs:179-213 | an open stream is closed by its finish, its drop, or a push its codec refuses, and by nothing else |
| Codecs.RequestSays | src/compression.rs:164-202 | a push or finish is answered the bytes its codec puts out, and null when the stream is closed, its codec refuses, or the range is bad |
| Codecs.FedByteByByte | src/compression.rs:101-109 | byte k of what a push feeds is byte offset + k of its buffer, when the whole range is inside |
| Codecs.TableIsItsLives | src/compression.rs:92-216 | in every interleaving the table holds for each id the codec moved only by its own requests; ids count up and never recur |
| Codecs.GoneStaysGone | src/compression.rs:184-213 | a finished, dropped or failed id stays dead |
| Codecs.DeadIdsAnswerNull | src/compression.rs:184-213 | and answers null from then on |
| Codecs.CodecSeesItsOwnPushes | src/compression.rs:164-192 | the codec of an open id, of whatever kind, is the one its start asked for, fed that id's own inputs one by one, in order, and no others |
| Codecs.RepliesAreItsOwn | src/compression.rs:175-202 | what an open id was answered is what its codec puts out for its own inputs alone, and so is the answer to its next push, finish or failure |
| Codecs.CodecSeesItsOwnBytes | src/compression.rs:164-192 | for codecs that do not mind where input is cut, it is where the concatenation of those inputs leads |

## Left out

- The engine, its garbage collector, the leaking and dropping of hooks, and the registration of builtins: foreign machinery. A job is an abstract guest turn, so the promise machinery and its microtask counts are not modelled.
- Guests are a World: a function from turn numbers to the calls the turn makes. What the two dispatchers do inside their turns (picking handlers, `toTaskResult`, `errorText`, `wireStatus`, awaiting `waitUntil`), and that `settle` answers once, is left to that function; the theorems allow any number of answers with any id.
- Guests that call the glue's own globals, `__ow_run_timer`, `__ow_settle_binding`, `__ow_native_binding`, are assumed away: doing so breaks the coupling of timers and the settling of calls.
- Guests that forge the current dispatch id are not told apart from its dispatcher; guests that tamper with intrinsics or call the native timer functions with handles of their own are not modelled.
- Handles passed to the clear functions are natural numbers; NaN and fractions name no timer and are left out, as are a delay conversion that throws, the rounding of a delay in floating point, and durations or counters that overflow.
- `Workers.Worker.Drain`: makes at most `fuel` passes and answers None when they did not suffice; `DrainTheorems.DrainEnds` and `DeadlineTheorems.DeadlineEndsEveryDrain` say when some number does, and `DrainLoop.FuelOnlyDelays` that it does not matter which.
- `Workers.Worker.Load`: passes that bound on; it answers Loading when it did not suffice.
- `Workers.Worker.Serve`: passes that bound on; its reply is Pending when it did not suffice.
- `Workers.Worker.Exec`: passes that bound on in the same way.
- `DeadlineTheorems.DeadlineEndsEveryDrain`: is about guests whose every turn takes at least a nanosecond; a guest that takes no time at all has no deadline to meet.
- A binding answer that is not JSON: the guest drops its entry and the promise is never settled (`src/bindings.js:24-27`). Here an entry that goes is a call that is settled.
- An embedder that drops the future of `exec` while it waits: the call or timer in flight is then lost, and the next dispatch begins from there. Here a dispatch begins only once nothing is in flight.
- In `DrainLoop.dfy` time passes in guest turns, while a call is awaited and while a timer is slept for, and not between the other steps of a pass; in the logs of `EventLoop.dfy` it can pass anywhere.
- Waiting for an answer and settling the call are separate steps of the log, with only time passing between them; a binding call runs no guest code until it is settled.
- Turns of jobs in `ClearTheorems.dfy`: what is left of the cap then depends on the jobs that ran before, so clearing inside one is covered by `TimerTheorems.ClearedNeverFires` alone.
- The text of host errors, the parsing of a payload (it is a value, an error or garbage), and the content of responses sent: a reply is abstract text. Fetch bodies appear only as whether they are streams.
- The non-UTF-8 path of TextDecoder (`#decodeLegacy`, `src/encoding.rs`), its labels, and the coercion of inputs (`undefined`, views, values that are not buffers).
- Bits of the decoder are written as remainders and quotients; that these are the source's masks and shifts is by arithmetic, not by bit-vectors.
- JSON.stringify beyond the replacer: `toJSON`, functions and `undefined`, the reordering of integer-like keys, and numbers other than integers.
- Compression itself: a codec is any state machine. Its ids are unbounded, and requests reach the table already converted.
- `src/url.rs`, `src/url_pattern.rs`, `src/crypto.rs`, `src/crypto.js`, `src/headers.js`, `src/http.js`, `src/ops.js`, `env_source` in `src/bindings.rs`, base64 and the operations handler: wrappers and glue with nothing hard to prove.
