# Verification model of vzlogger

vzlogger reads meters, buffers and aggregates the readings, filters them and delivers them to a server.
These Dafny modules model the parts of it with real logic and prove what they are for.

| file | models |
|---|---|
| `Delivery.dfy` | any number of channels delivering over one shared connection, as a transition system with its history |
| `Volkszaehler.dfy` | duplicate filter, request text, sending, replies, errors of the middleware (`src/api/Volkszaehler.cpp` as built for the Pico) |
| `LwipIF.dfy` | the connection and its callbacks |
| `Failures.dfy` | what failures and waiting do to the connection |
| `Averages.dfy` | channels that average, over whole delivery runs |
| `MeterMap.dfy` | schedule, plausibility check, routing by identifier, and the way from the meter to the server |
| `Buffer.dfy` | the channel buffer and its aggregation modes |
| `Obis.dfy` | OBIS identifiers: parser, printer, aliases (presentation of codes in IEC 62056-61, Annex A) |
| `MeterD0.dfy` | the byte machine for readouts in the sense of IEC 62056-21, sections 6.3 and 6.4.3 |
| `MeterOCR.dfy` | decoding of needle dials and impulse counting |
| `MeterS0.dfy` | the S0 counter thread, its reader, and the timespec helpers |
| `CurlSessionProvider.dfy` | per-key session locking as atomic steps of threads |
| `PushData.dfy` | the hand-over of readings to the push thread |
| `Common.dfy` | C integer arithmetic, remainders |

Classes and methods follow the source where it updates state; each method is proved against a function of
the old state, and the main results are lemmas about those functions, over every input or every run. Times
are integers, doubles are reals, `int` arithmetic wraps where it matters. What the surroundings decide
(clock, network, callbacks, threads, meters) is a parameter or a step of the run.

Assumptions of the delivery model, in `LwipIF.Possible`, `LwipIF.Posting` and `Delivery.Admitted`: a control block that was
replaced calls back no more; it is connected once; a request gets at most one receive event, which carries
data; a request that is not written sent nothing, and neither did one whose flush fails for lack of memory.
That receive events carry data, and the rule about flushes, are needed (`Delivery.EmptyReceiveLosesReading`,
`Delivery.QueuedRequestAlwaysLoses`). Testing for a reply, handling it and setting READY is one step, and so is
setting READY after RETRY (`src/api/Volkszaehler.cpp:157-222` and `345-352`): no callback comes in between. This is
needed too: after a close or an error in between, the connection would be ready without a control block
(`Delivery.InterruptedHandling`, `Delivery.InterruptedRetry`). Channel names are unique (`src/Channel.cpp:65-70`).

Where the code differs from its comments or from what one expects, the model follows the code:

- The last OBIS group is stored without a range check (`Obis.LastGroupNotChecked`).
- With more than 64 pending values the request ends in a comma and is no JSON (`Volkszaehler.PayloadParses`), so
  that they are never delivered (`Delivery.MoreThanAChunkIsStuck`).
- `find` is used as a truth value, so the head is also dropped if the message does not name a duplicate, and
  is not dropped if the message starts with the words (`Volkszaehler.DropsHeadMeans`).
- A reply without payload does not clear the stored one, which then decides (`Delivery.StalePayloadDecides`).
- If the filter leaves nothing pending, the previous request text is posted again; its reply removes nothing
  (`Failures.OldTextIsPosted`).
- A needle at exactly 10 above exactly one half is read as digit 10, and positions are wrapped once only, so that
  with offsets below -7.5 a needle before the mark is misread (`MeterOCR.RoundExact`, `MeterOCR.NineReadAsZero`).
- Debouncing returns 10 at exactly 10 and after an old digit that was rounded to 10 (`MeterOCR.ReadAsTen`,
  `MeterOCR.KeptAsTen`).
- After an invalid image the OCR meter forgets the last value, although a comment says it keeps the last
  successful one; and while it has none it keeps whatever comes, even an invalid value, which the next valid
  one is then compared with (`MeterOCR.ReportedIsAdvance`, `MeterOCR.TwoInvalidAreKept`).
- An S0 trigger rejected after debounce still moves the time of the last impulse, so that returned times can
  run ahead of the clock and back (`MeterS0.UnconfirmedTriggerRunsAhead`, `MeterS0.RejectedTriggerRunsBack`).
- A push wait that times out although data has arrived returns nothing and leaves the data
  (`PushData.PushDataList.WaitForData`).

## Model

| member | source | states |
|---|---|---|
| Delivery.NothingLost | src/api/Volkszaehler.cpp:231-246 | After every run of any number of channels on one connection: the readings the filter accepted are those removed by replies, in order, followed by the pending ones; from routing to the filter nothing is lost (same list without aggregation, same total with SUM, same maximum with MAX) |
| Delivery.HandledReplyIsOwn | src/api/Volkszaehler.cpp:157-277 | After every run: each handled reply answers the last request, made by the same channel, and is handled once; status 200 removes exactly the first 64 values pending when that request was made, which the request spelled out if there were no more; any other status removes at most the head of those values, exactly if the last payload a reply carried reports a duplicate |
| Delivery.NeverStuck | src/api/Volkszaehler.cpp:289-323 | From every state any run can reach, some continuation makes the connection ready again, without consuming or answering anything |
| Delivery.PromptReplyDelivers | src/api/Volkszaehler.cpp:325-372 | A 200 that arrives while send is running removes the chunk of the values pending after the buffer was taken over and leaves the connection ready |
| Delivery.RunKeepsInv | src/api/Volkszaehler.cpp:279-414 | Every step of every run keeps the invariant that ties connection state, outstanding request, history and all channels together |
| Delivery.ApplyKeepsInv | src/api/Volkszaehler.cpp:157-414 | The same for one step of any kind: routing, aggregation, connecting, a callback, send, reply check |
| Delivery.OccurKeeps | src/api/LwipIF.cpp:311-435 | Callbacks (DNS, connected, poll, error, close, receive) keep the invariant: a late reply after a poll timeout still belongs to the last request, one on a replaced connection cannot come |
| Delivery.SendKeeps | src/api/Volkszaehler.cpp:279-414 | send keeps it, with timeouts, failed connects, callbacks before and after the write, and failed writes |
| Delivery.TuplesKeeps | src/api/Volkszaehler.cpp:426-477 | Taking over the buffer keeps it: nothing is in flight while the connection is ready |
| Delivery.PostKeeps | src/api/LwipIF.cpp:235-307 | A written request carries the text of all pending values; one that fails leaves nothing outstanding |
| Delivery.CheckKeeps | src/api/Volkszaehler.cpp:157-246 | Handling a reply removes what the answered request has earned, and only on the channel that made it |
| Delivery.ConnectKeeps | src/api/LwipIF.cpp:181-227 | Connecting and reconnecting drop the outstanding request with the old control block |
| Delivery.PhaseAt | src/api/Volkszaehler.cpp:157-172 | Where the last request and its answer stand in the history; only buffer hand-overs lie between and after them |
| Delivery.EmptyReceiveAcknowledges | src/api/LwipIF.cpp:395-435 | Without the rule that a receive event carries data, an older 200 left in the data buffer would remove readings never acknowledged |
| Delivery.EmptyReceiveLosesReading | src/api/LwipIF.cpp:395-435 | A run after which that happens: the second of two requests is unanswered, and an event without data would drop its reading |
| Delivery.StalePayloadDecides | src/api/Volkszaehler.cpp:202-218 | An error reply without payload removes the head exactly if the payload of an earlier reply reported a duplicate |
| Delivery.StalePayloadDropsHead | src/api/Volkszaehler.cpp:202-218 | A run in which that happens: the first reply reports a duplicate, the second carries no payload and drops a reading as well |
| Delivery.MoreThanAChunkIsStuck | src/api/Volkszaehler.cpp:489-501 | Against a server that answers 200 only to requests it can parse, a channel with more than 64 pending values never delivers them: in every continuation of every run they get fewer by dropped heads alone, and without those stay more than 64 |
| Delivery.CanDeliver | src/api/Volkszaehler.cpp:325-372 | The positive half: let A be the pending values followed by what the filter lets through of the buffer. From every state a run reaches in which A has at most 64 values, some continuation has exactly A removed, in order, by acknowledged requests with status 200, nothing dropped as a duplicate, and leaves neither pending nor (if A is not empty) buffered readings; the server stays honest |
| Delivery.QueuedRequestLosesReading | src/api/LwipIF.cpp:291-307 | Why a flush that fails for lack of memory must not leave the request queued: a run after which the answer to such a request drops a reading that only the next request carries |
| Delivery.QueuedRequestAlwaysLoses | src/api/LwipIF.cpp:291-307 | The same from every ready state of every run, for every channel whose buffer is not empty and that has values A to send: after such a flush the connection is ready at once, and the answer to the request for A also removes a reading q that only the next request carries, if and only if A has fewer than 64 values |
| Delivery.InterruptedHandling | src/api/Volkszaehler.cpp:157-222 | Why handling a reply is taken as one step: in every state a run reaches with a reply waiting a close or an error may come, and setting READY after it would leave the connection ready without a control block |
| Delivery.InterruptedRetry | src/api/Volkszaehler.cpp:345-352 | The same between RETRY and READY, for every ready connection whose request finds no memory |
| Delivery.RepliedIsReached | src/api/Volkszaehler.cpp:157-172 | From every start, for every channel, a run reaches such a state |
| Failures.FailureCutsOff | src/api/LwipIF.cpp:280-283 | After every run and every failure (write or flush failed for another reason than memory, poll timeout while connecting or sending, failed connect or name resolution, error, close, empty reply) the connection is down; the next send of any channel replaces the control block, and no request, answer or handling follows in any continuation without a Connected event |
| Failures.GivenUpCutsOff | src/api/Volkszaehler.cpp:289-323 | The same for a send that finds the connection down, or connecting or sending for too long; in particular the answer to a request that took too long is never handled |
| Failures.CutStays | src/api/Volkszaehler.cpp:289-323 | Without an open control block nothing is posted, answered, handled or taken over, and nothing pending gets lost, until a connection is established |
| Failures.LostIsGone | src/api/LwipIF.cpp:380-405 | After an error or a close no callback can come |
| Failures.NoControlBlock | src/api/LwipIF.cpp:114-118 | Without memory for a new control block the state stays, so that the next send tries again |
| Failures.MemoryKeepsConnection | src/api/Volkszaehler.cpp:345-352 | Without memory for the request the connection stays ready on the same control block, nothing is posted, and the accepted values are pending |
| Failures.WaitingIsKept | src/api/Volkszaehler.cpp:310-314 | While a name is resolved, a connection established or an answer awaited, nothing the channels do in time disturbs that |
| Failures.AttemptSucceeds | src/api/LwipIF.cpp:181-227 | A connection that is down becomes ready if name resolution and connect succeed, whatever the channels do meanwhile |
| Failures.AnswerIsHandled | src/api/Volkszaehler.cpp:157-222 | A request that is answered is handled by its channel, with what the answer earns, whatever the channels do while it is awaited; then the connection is ready |
| Failures.NothingToSend | src/api/Volkszaehler.cpp:329-333 | With an empty buffer a send on a ready connection does nothing |
| Failures.OldTextIsPosted | src/api/Volkszaehler.cpp:335-343 | If the filter leaves nothing pending, the text of the request before is posted again, and its answer removes nothing |
| Volkszaehler.FilterIsReference | src/api/Volkszaehler.cpp:435-473 | The filter accepts exactly the list defined by the accepted readings alone: a later time, and another value or a time at least the window after the last accepted one |
| Volkszaehler.BatchingDoesNotMatter | src/api/Volkszaehler.cpp:435-473 | Any partition of a reading stream into calls accepts the same list and ends in the same state |
| Volkszaehler.AcceptedIncrease | src/api/Volkszaehler.cpp:442-445 | Accepted times strictly increase and are positive |
| Volkszaehler.OnlyDuplicatesDropped | src/api/Volkszaehler.cpp:456-468 | A reading is left out if and only if it is not later than the last accepted one, or has its value and lies within the duplicate window after it |
| Volkszaehler.WindowInRange | src/api/Volkszaehler.cpp:432-433 | The window in milliseconds is the configured seconds exactly up to 2147483 s; beyond, the int product wraps |
| Volkszaehler.PayloadParses | src/api/Volkszaehler.cpp:481-501 | Read back as JSON the request text is exactly the array of pending pairs if at most 64 are pending; with more it is no JSON (comma before the bracket) |
| Volkszaehler.Find | src/api/Volkszaehler.cpp:530 | string::find: the first occurrence, none exactly if there is none |
| Volkszaehler.DropsHeadMeans | src/api/Volkszaehler.cpp:529-537 | The head is dropped if and only if the exception is a unique-constraint violation whose message does not start with the words "Duplicate entry" |
| Volkszaehler.DropsHeadAsMeant | src/api/Volkszaehler.cpp:529-537 | This agrees with "the message names a duplicate" if and only if the words occur but not at the start, or the exception is another one |
| Volkszaehler.DropsHeadMisjudged | src/api/Volkszaehler.cpp:529-537 | A violation with the message "foo" drops the head; one with the message "Duplicate entry" does not |
| Volkszaehler.Volkszaehler.constructor | src/api/Volkszaehler.cpp:56-59 | A new instance: nothing pending, last time 0, no last reading, no payload |
| Volkszaehler.Volkszaehler.ApiJsonTuples | src/api/Volkszaehler.cpp:426-506 | Buffer, queue, filter state and request text after the call; the text is left unchanged if nothing is pending |
| Volkszaehler.Volkszaehler.CopyValues | src/api/Volkszaehler.cpp:435-473 | The copy loop computes the filter over the whole buffer and leaves it empty |
| Volkszaehler.Volkszaehler.PrintValues | src/api/Volkszaehler.cpp:481-501 | The printing loop writes the payload of the first 64 pending values |
| Volkszaehler.Volkszaehler.ApiParseException | src/api/Volkszaehler.cpp:515-547 | The head is dropped exactly on a reported duplicate, if there is one |
| Volkszaehler.Volkszaehler.ProcessResponse | src/api/Volkszaehler.cpp:224-264 | What a reply removes: all values up to 64, else the first 64; on an error at most the head |
| Volkszaehler.Volkszaehler.CheckResponse | src/api/Volkszaehler.cpp:157-222 | Only a reply to the own channel is handled; an empty one resets the connection; a payload replaces the stored one |
| Volkszaehler.Volkszaehler.Send | src/api/Volkszaehler.cpp:279-414 | The whole new state of connection, channel and buffer for every state and outcome |
| Volkszaehler.Volkszaehler.IsBusy | src/api/Volkszaehler.cpp:417-421 | Busy unless ready or initial |
| LwipIF.LwipIF.constructor | src/api/LwipIF.cpp:52-59 | A new connection: initial state with a fresh control block |
| LwipIF.LwipIF.InitPCB | src/api/LwipIF.cpp:83-128 | A control block is made if there is none; without memory it fails |
| LwipIF.LwipIF.DeletePCB | src/api/LwipIF.cpp:130-159 | The control block is dropped, so its callbacks end |
| LwipIF.LwipIF.Connect | src/api/LwipIF.cpp:181-227 | State and control block for each way name resolution starts |
| LwipIF.LwipIF.Reconnect | src/api/LwipIF.cpp:444-453 | A new control block and a new connect |
| LwipIF.LwipIF.PostRequest | src/api/LwipIF.cpp:235-287 | Nothing happens unless ready; else the channel is noted and the state follows the outcome of write and flush: SENDING, RETRY or INIT |
| LwipIF.LwipIF.SendData | src/api/LwipIF.cpp:291-307 | SENDING only after a successful write, also if the flush after it fails |
| LwipIF.LwipIF.DnsFound | src/api/LwipIF.cpp:311-336 | Connecting after a found address, initial after an error |
| LwipIF.LwipIF.Dispatch | src/api/LwipIF.cpp:340-435 | New state, control block and data after each callback |
| LwipIF.LwipIF.DispatchAll | src/api/LwipIF.cpp:340-435 | The same for a sequence of callbacks |
| LwipIF.LwipIF.SetState | src/api/LwipIF.cpp:170 | Only the state changes |
| MeterMap.MeterToServer | src/MeterMap.cpp:215-256 | From the meter to the server, for every run: of the plausible readings with a channel's identifier, those its filter has seen followed by those still buffered are the same, in order, without aggregation, have the same total with SUM and the same maximum with MAX (with AVG: MeterMap.MeterToServerAvg); in every mode what the filter accepted are, in order, the readings removed by replies and those pending |
| MeterMap.MeterToServerAvg | src/MeterMap.cpp:331-343 | With AVG, for runs in which each window is averaged once and taken over before the next reading is routed, and increasing times: the filter has seen one average for each window of the readings with the channel's identifier, and averages times window lengths add up to the time-weighted sum of those readings; each average lies between the least and the greatest value held in its window |
| Averages.AveragesConserve | src/Buffer.cpp:84-133 | The same over every orderly delivery run, from the readings routed to a channel to its filter |
| Averages.RunAvg | src/Buffer.cpp:84-133 | Every step of such a run keeps the bookkeeping of windows and averages |
| Averages.NotReadyBetween | src/MeterMap.cpp:331-346 | For any two windows a run in which the connection is not ready when the first one has been averaged: the filter gets a single reading for both, and its area is above the integral by that exact amount |
| Averages.SendConsumes | src/api/Volkszaehler.cpp:325-335 | A send hands the whole buffer to the filter exactly if the connection is ready and the buffer is not empty |
| MeterMap.MeterMap.AdvanceDue | src/MeterMap.cpp:136-141 | nextDue moves on by at least one whole interval and stops at the first grid point not before the clock as read there; an interval of 0 or less must be due at once |
| MeterMap.NeverDue | src/MeterMap.cpp:136-141 | With an interval of 0 or less that is not due at once, and a clock that does not go back, no turn of the loop is the last |
| MeterMap.FirstGridPoint | src/MeterMap.cpp:136-141 | With a clock that stands still that is the first later point of the grid not before now, less than one interval after it if more than one was needed |
| MeterMap.MeterMap.CheckTimes | src/MeterMap.cpp:193-212 | One timestamp before 1990 makes the whole batch be ignored, unless a time machine is configured |
| MeterMap.MeterMap.Route | src/MeterMap.cpp:217-255 | Each channel's buffer gets exactly the readings with its identifier, in order, and its latest reading is kept |
| MeterMap.MeterMap.ReadBatch | src/MeterMap.cpp:193-256 | Check and routing of one batch: buffers and latest readings of all channels |
| MeterMap.MeterMap.Read | src/MeterMap.cpp:128-257 | One call of read: schedule, then every batch of the aggregation period checked and routed: buffers and latest readings of all channels |
| MeterMap.ReceivedConcat | src/MeterMap.cpp:217-255 | Routing batch after batch is routing all their readings at once |
| MeterMap.Channel.Insert | src/MeterMap.cpp:221-254 | The inner loop over the readings of a batch for one channel |
| MeterMap.LatestIsMaximum | src/MeterMap.cpp:228-231 | The kept reading is the first with the latest time of those seen |
| MeterMap.MatchingExact | src/MeterMap.cpp:217-227 | Routed to an identifier are exactly the readings that carry it, each once and in order, with their values, and their times in whole milliseconds |
| MeterMap.ReceivedMeans | src/MeterMap.cpp:217-255 | A routed batch leaves every channel with its readings of it, in order, behind those before, and with the first latest one of all |
| MeterMap.PlausibleExact | src/MeterMap.cpp:193-212 | A batch is taken whole if a time machine is configured or no time is before 1990-01-01 00:00 UTC, and else not at all |
| MeterMap.CompareIsEquality | src/Reading.cpp:156-190 | The comparison by classes is equality of identifiers |
| MeterMap.RoundsReach | src/MeterMap.cpp:217-255 | Over every run all plausible readings reach the channel with their identifier once, in order, whatever else happens between |
| Buffer.IntegralConserved | src/Buffer.cpp:84-133 | AVG conserves the integral: for strictly increasing times and every way of cutting a history into windows, empty ones included, the averages times the window lengths add up to the time-weighted sum of the whole history |
| Buffer.AverageTimesLength | src/Buffer.cpp:95-126 | One window's average times its length is its share of the integral |
| Buffer.AggregateBetween | src/Buffer.cpp:95-126 | The average that aggregation leaves of a window lies between the least and the greatest of the values held in it; of a single first reading it is its value |
| Buffer.AverageBetween | src/Buffer.cpp:95-126 | The same for the average as such |
| Buffer.AveragedAgain | src/Buffer.cpp:84-133 | An average x still in the buffer is averaged again with the readings that follow it: the new average times the window length is the window's share of the integral plus what x, in the place of the last reading before it, adds from its own time to the first reading of the window |
| Buffer.AveragedTwice | src/Buffer.cpp:84-133 | Two windows averaged one after the other without a hand-over between them leave one average, whose area differs from the integral of both by an amount stated exactly, for all increasing times and both settings of the fixed interval |
| Buffer.InterleavingConserves | src/Buffer.cpp:58-83 | Over every interleaving of push, aggregate, marking, clean and undelete, SUM conserves the total and MAX the maximum of all readings pushed: handed over, still buffered, or marked when aggregate ran |
| Buffer.FinishedConserves | src/Buffer.cpp:134-160 | If senders finish before the next aggregation nothing is lost from total or maximum |
| Buffer.MergedStayMerged | src/Buffer.cpp:172-198 | After aggregate at most one reading is left, unmarked, none exactly if there was none; undelete cannot bring merged readings back |
| Buffer.AggregatedMeans | src/Buffer.cpp:53-175 | For every list and mode: NONE changes nothing; nothing live leaves nothing; else one unmarked reading is left, at the time of the latest one, or at the last grid point not after it; SUM and MAX give it the total and maximum, and AVG keeps the latest reading as it was |
| Buffer.TotalAdds | src/Buffer.cpp:134-150 | The total is additive, and that of one reading is its value |
| Buffer.UndeleteTakesBack | src/Buffer.cpp:192-198 | Undelete takes back exactly what a sender has marked |
| Buffer.LatestIsLatest | src/Buffer.cpp:61-72 | The survivor carries the latest time, and is the first reading with it |
| Buffer.MaxIsMaximum | src/Buffer.cpp:60-73 | The aggregated value is the maximum of the values |
| Buffer.LargestDouble | src/Buffer.cpp:60 | The value MAX starts from is the negative of the largest double of IEEE 754 |
| Buffer.SpanIsLength | src/Buffer.cpp:106-110 | The time spans add up to the length of the window |
| Buffer.FixedTimeOnGrid | src/Buffer.cpp:162-170 | A fixed timestamp is the last multiple of the interval not after the reading |
| Buffer.Buffer.constructor | src/Buffer.cpp:39-45 | A new buffer is empty and does not aggregate |
| Buffer.Buffer.Push | src/Buffer.cpp:47-51 | The reading is appended |
| Buffer.Buffer.Aggregate | src/Buffer.cpp:53-175 | Content and kept reading after aggregation in each mode, with and without fixed interval |
| Buffer.Buffer.AggregateMax | src/Buffer.cpp:58-83 | The only live reading left is the latest with the maximum |
| Buffer.Buffer.AggregateAvg | src/Buffer.cpp:84-133 | The only live reading left is the latest with the weighted average; its original is kept for the next call |
| Buffer.Buffer.AggregateSum | src/Buffer.cpp:134-160 | The only live reading left is the latest with the sum |
| Buffer.Buffer.KeepOnly | src/Buffer.cpp:115-133 | The second loop marks all live readings but the latest, which gets the value |
| Buffer.Buffer.FixTimes | src/Buffer.cpp:162-170 | Live readings get the fixed time, others stay |
| Buffer.Buffer.Clean | src/Buffer.cpp:177-190 | Only live readings stay, in order, or none |
| Buffer.Buffer.Undelete | src/Buffer.cpp:192-198 | All marks are taken back |
| Obis.ParseReference | src/Obis.cpp:138-211 | For every text: accepted if and only if it is in the grammar A-B:C.D.E*F with all groups but the last in 0 to 255; each group is stored in its place, the last one modulo 256, the others are 255 |
| Obis.GroupMeaning | src/Obis.cpp:38-44 | Groups are runs of the characters 0 to 9, or one of C, F, L, P, which stand for 96 to 99 |
| Obis.ParseCodeText | src/Obis.cpp:138-211 | Parsing undoes printing for every combination of omitted groups A, B, E, F, which read back as 255 |
| Obis.ParseIdText | src/Obis.cpp:223-235 | parse(toString(o)) is o for all six-byte identifiers |
| Obis.LastGroupNotChecked | src/Obis.cpp:197-207 | In texts C.D.E of digits a number above 255 is refused in every group but the last, which keeps its low byte (other texts: Obis.ParseReference) |
| Obis.ScanByte | src/Obis.cpp:155-203 | The field cursor only grows and stays within the six bytes |
| Obis.FindAliasByName | src/Obis.cpp:213-221 | The lookup finds the first entry with the name, and nothing exactly if there is none |
| Obis.NoAliasStartsWithGroup | src/Obis.cpp:118-126 | No text that starts like a code is an alias |
| Obis.AliasResolves | src/Obis.cpp:118-126 | The name of an alias resolves to the identifier of the first entry with the name |
| Obis.Obis.NotGiven | src/Obis.cpp:128-136 | All bytes are 255 |
| Obis.Obis.Parse | src/Obis.cpp:138-211 | Result and stored bytes are those of the specified parser, also after an error |
| Obis.Obis.LookupAlias | src/Obis.cpp:213-221 | The bytes become those of the alias, or stay |
| Obis.Obis.FromText | src/Obis.cpp:118-126 | A code, else an alias, else an error |
| Obis.Obis.Equals | src/Obis.cpp:237-249 | Equality of the six bytes |
| MeterD0.RoundTrip | src/protocols/MeterD0.cpp:474-816 | Printing measured values, of all valid codes that start with 0 to 9, C or F, as a telegram and reading it gives exactly those values with their identifiers, in order, cut at max_readings; leading noise, an echoed pull sequence and what follows change nothing |
| MeterD0.RunTelegram | src/protocols/MeterD0.cpp:503-814 | The same for every well-formed telegram met at the start of a field, with the acknowledgement sent |
| MeterD0.ReadTelegram | src/protocols/MeterD0.cpp:474-816 | A fresh read of noise, optional pull echo and telegram: the readings, the acknowledgement as configured or for mode C with the offered baud rate, the reaction time by the case of the third vendor letter, and nothing consumed after the end mark |
| MeterD0.ReadAfterStx | src/protocols/MeterD0.cpp:741-745 | Meters that start with a question mark and STX instead of a header: their data lines are read, nothing is acknowledged |
| MeterD0.VendorRejected | src/protocols/MeterD0.cpp:521-529 | A vendor with another character than letters ends the read without readings |
| MeterD0.RunIdent | src/protocols/MeterD0.cpp:546-571 | An identification of any bytes is read to its line end; unprintable bytes are left out, the rest is cut at its limit |
| MeterD0.ReadAfterSync | src/protocols/MeterD0.cpp:451-816 | With wait_sync_end the rest of a running message is skipped and the next telegram is read |
| MeterD0.SkipToSyncFinds | src/protocols/MeterD0.cpp:451-472 | The end mark is found behind up to 1024 other bytes |
| MeterD0.SkipGivesUp | src/protocols/MeterD0.cpp:461-468 | After 1025 other bytes the wait is given up |
| MeterD0.SkipGoesOn | src/protocols/MeterD0.cpp:457-472 | Without the mark, and up to 1024 bytes, the wait goes on in the next call |
| MeterD0.StepKeepsInv | src/protocols/MeterD0.cpp:502-815 | For every byte in every reachable state the field index stays within its context, the tuple count within max_readings, and END_LINE is left before the next byte |
| MeterD0.RunKeepsInv | src/protocols/MeterD0.cpp:474-816 | The same over every byte stream |
| MeterD0.RunSets | src/protocols/MeterD0.cpp:651-814 | A sequence of data lines leaves exactly their readings behind those before |
| MeterD0.RunPull | src/protocols/MeterD0.cpp:503-766 | An echoed pull sequence brings the machine back to waiting for the vendor, with no tuples |
| MeterD0.RunNoise | src/protocols/MeterD0.cpp:503-519 | Bytes other than / and ! before a telegram are ignored, unless ? and STX are both among them |
| MeterD0.NoTelegram | src/protocols/MeterD0.cpp:474-519 | Such bytes alone give no reading and no acknowledgement and leave the reaction time |
| MeterD0.SlashBegins | src/protocols/MeterD0.cpp:503-519 | After such bytes, a last ? included, a slash begins a telegram |
| MeterD0.MeasuredTuple | src/protocols/MeterD0.cpp:769-803 | A line with a valid code that starts with a digit, C or F is stored under exactly that identifier |
| MeterD0.LineStored | src/protocols/MeterD0.cpp:769-803 | For every code and value text: stored if and only if both are non-empty, the code starts with 0 to 9, C or F, and it is valid; stored under the identifier it denotes |
| MeterD0.CodeStored | src/protocols/MeterD0.cpp:777-788 | The same for the text of every valid code |
| MeterD0.NulEnds | src/protocols/MeterD0.cpp:769-803 | Code and value end at their first NUL |
| MeterD0.Meter.Read | src/protocols/MeterD0.cpp:365-828 | Returned count, stored readings, bytes consumed, acknowledgement and flags are those of the specified machine |
| MeterD0.Meter.ReadLoop | src/protocols/MeterD0.cpp:474-816 | The loop runs the specified machine over the stream |
| MeterD0.Meter.TakeByte | src/protocols/MeterD0.cpp:502-814 | One pass of the loop is one step of the machine |
| MeterD0.Meter.TakeHeader | src/protocols/MeterD0.cpp:513-646 | START to ACK: buffers, index, reaction time and acknowledgement |
| MeterD0.Meter.TakeLine | src/protocols/MeterD0.cpp:651-701 | OBIS_CODE, VALUE and UNIT with the store at the end of a line |
| MeterD0.Meter.TakeEnd | src/protocols/MeterD0.cpp:708-766 | END: the two-byte end sequence |
| MeterD0.Meter.StoreLine | src/protocols/MeterD0.cpp:769-814 | A line is stored in the next free slot exactly if there is one, both fields are non-empty, the first character may be reported and the code is valid |
| MeterD0.Meter.SkipSync | src/protocols/MeterD0.cpp:451-472 | The wait for the end mark and its flag |
| MeterD0.Put | src/protocols/MeterD0.cpp:564-567 | A byte is stored and counted only below the field length |
| MeterOCR.NeedleExact | src/protocols/MeterOCR.cpp:433-465 | For any number of dials with consecutive scalers, offsets as configured and needles within half a digit of their places, wherever the single wrap leaves them: the accumulated value is the true number if and only if no carry is left over; carries come from misread corners alone and follow a table over each needle, the fraction below it and its digit |
| MeterOCR.NeedleExactAbove | src/protocols/MeterOCR.cpp:438-465 | With offsets of at least -7.5 no position stays below 0; then the value is the true number if and only if no needle stands at exactly 10 above exactly one half |
| MeterOCR.NoCorner | src/protocols/MeterOCR.cpp:433-465 | Without a corner no carry arises, for all offsets |
| MeterOCR.DecodedCarry | src/protocols/MeterOCR.cpp:448-465 | The number read is off by exactly the carry into the place above, or wrong in a place below |
| MeterOCR.CarryStep | src/protocols/MeterOCR.cpp:448-465 | What one dial does to the error below it, with the sign modf gives the fraction |
| MeterOCR.PositionRange | src/protocols/MeterOCR.cpp:433-442 | Positions lie in [-2.5, 10] for all offsets and angles the code admits, and from 0 on for offsets of at least -7.5 |
| MeterOCR.PositionPoints | src/protocols/MeterOCR.cpp:438-442 | The position is where the middle of the needle points, in digits of 36 degrees moved by the offset, but for at most one turn |
| MeterOCR.PointsNear | src/protocols/MeterOCR.cpp:438-442 | A needle that points within half a digit of a place, around the dial, has a position within half a digit of it |
| MeterOCR.NumberBelow | src/protocols/MeterOCR.cpp:433-437 | For whole offsets the digit read without other dials and without a last value is the one below the position if and only if the middle of the needle is not before the mark, or at a full digit there |
| MeterOCR.ScanCircle | src/protocols/MeterOCR.cpp:320-368 | The angles a scan ends with: first and last coloured one, or, across the mark, the last before 180 and the first from 180 on less 360; no needle exactly if no angle is coloured |
| MeterOCR.TenAboveFive | src/protocols/MeterOCR.cpp:441-451 | Offset 1, needle 320 to 328 degrees, 5 below: read as 10 instead of 0 |
| MeterOCR.NineReadAsZero | src/protocols/MeterOCR.cpp:439-451 | Offset -10, needle -15 to 0 degrees, 4 below: 9 is read as 0 |
| MeterOCR.NineReadAsMinusOne | src/protocols/MeterOCR.cpp:439-451 | Offset -10, needle -108 to 0 degrees: 9 is read as -1 |
| MeterOCR.UndershootMadeGood | src/protocols/MeterOCR.cpp:448-465 | Above such a -1 the next dial is read one too high, which makes the number right again |
| MeterOCR.RecognizeExact | src/protocols/MeterOCR.cpp:444-465 | The same as NeedleExact for every identifier of a whole image |
| MeterOCR.RoundExact | src/protocols/MeterOCR.cpp:481-506 | For every position up to 10, negative ones included: one dial is read as its true digit, through both 9/0 wraps, if and only if it is not in a corner: exactly 10 above exactly one half (read as ten more), or below 0 and neither within half a digit of the mark nor rounded down to 9 (read with a wrong last digit, or as ten less) |
| MeterOCR.CornerWrong | src/protocols/MeterOCR.cpp:481-506 | A first corner that is not read as exactly ten less makes the number wrong whatever the larger dials show |
| MeterOCR.CollectById | src/protocols/MeterOCR.cpp:444-471 | Identifiers do not influence each other |
| MeterOCR.InvalidIffUnseen | src/protocols/MeterOCR.cpp:469-472 | A reading is invalid exactly if some dial of its identifier was not seen |
| MeterOCR.RoundConfidence | src/protocols/MeterOCR.cpp:481-506 | Confidence is lowered by 10 or 15 exactly if rounding changes the digit |
| MeterOCR.LeastConfidence | src/protocols/MeterOCR.cpp:464-472 | The confidence of an identifier is the least of its dials |
| MeterOCR.ConfidenceZero | src/protocols/MeterOCR.cpp:464-472 | It is 0 if a dial was not seen, and else 85, 90 or 100 |
| MeterOCR.LastConfId | src/protocols/MeterOCR.cpp:430-431 | The confidence identifier is the last one configured |
| MeterOCR.Recognize | src/protocols/MeterOCR.cpp:432-473 | The loop over the boxes collects each identifier's dials in order |
| MeterOCR.DebounceHysteresis | src/protocols/MeterOCR.cpp:636-676 | For every old digit that rounding can give (-10 to 10) and every position in [-2.5, 10]: the result is a digit that stays while the needle is less than half a digit behind and less than one and a half ahead around the dial, if and only if the position is below 10 and above -1, not 8.5 after 9, next to the mark where it is negative, and in range for an old digit outside 0 to 9 |
| MeterOCR.OwnDigitExact | src/protocols/MeterOCR.cpp:453-463 | The same for a configured box and a scanned needle |
| MeterOCR.LastDigitIs | src/protocols/MeterOCR.cpp:459-461 | For every scaler: the old digit of a box is the digit of the last value in its place with the smaller ones rounded into it, and the digit itself in the smallest place |
| MeterOCR.OldDigitKept | src/protocols/MeterOCR.cpp:453-463 | A digit box after an image that showed certain digits (smaller ones below one half) shows its old digit again if and only if the needle is less than half a digit before it and less than one and a half after it, or at 8.5 after a 9 |
| MeterOCR.LrintNearest | src/protocols/MeterOCR.cpp:459-461 | Rounding is to the nearest integer, ties to even |
| MeterOCR.InvalidLastIgnored | src/protocols/MeterOCR.cpp:453-463 | An invalid last value has no say where lrint makes a large number of it |
| MeterOCR.ReadAsTen | src/protocols/MeterOCR.cpp:641-675 | A needle at exactly 10 is read as 10 after a 9 |
| MeterOCR.KeptAsTen | src/protocols/MeterOCR.cpp:459-461 | A last value of 9.7 makes the old digit 10, and 10 is kept |
| MeterOCR.CalcImpulses | src/protocols/MeterOCR.cpp:1572-1583 | The loops end, with the value of the specification function |
| MeterOCR.ImpulsesCongruent | src/protocols/MeterOCR.cpp:1572-1583 | The result is congruent to the raw difference modulo the impulses per turn |
| MeterOCR.ImpulsesWrap | src/protocols/MeterOCR.cpp:1572-1583 | Up to half a turn, or below ten impulses a turn, the difference is taken as it is; beyond it is taken as less than a turn in the other direction |
| MeterOCR.ImpulsesExact | src/protocols/MeterOCR.cpp:1572-1583 | An advance of k counts is reported as k if and only if it is less than half a turn, or half a turn without wrap |
| MeterOCR.ReportedIsAdvance | src/protocols/MeterOCR.cpp:1498-1567 | Over every run in which the dial never advances half a turn between images and valid values are less than a quarter count off: the reported impulses are the true advance, less what passed next to invalid values or while the last ones were forgotten, plus what lrint makes of no number for each valid value that meets an invalid kept one |
| MeterOCR.ValidMissesNothing | src/protocols/MeterOCR.cpp:1498-1567 | With valid images only, from a valid value on, nothing is missed and nothing added |
| MeterOCR.InvalidRun | src/protocols/MeterOCR.cpp:1498-1567 | Something is added exactly when a valid value follows an even number, at least two, of invalid ones after a kept value, or an odd number after a forgotten one or at the start |
| MeterOCR.TwoInvalidAreKept | src/protocols/MeterOCR.cpp:1500-1563 | The shortest such runs: two invalid images after a valid one, or one at the start |
| MeterOCR.ImpulseMeter.Read | src/protocols/MeterOCR.cpp:1498-1567 | The impulse of one read and the value kept for the next, also when the value, the kept one, or that of another identifier is invalid |
| MeterS0.TimesMonotone | src/protocols/MeterS0.cpp:385-407 | Over every run with a clock that does not go back and confirmed triggers: returned times never decrease, never lie before the last returned one and never after the clock, through zero reads and overflow shifts |
| MeterS0.OnTimeIffGuarded | src/protocols/MeterS0.cpp:253-266 | Over every run, triggers rejected after debounce included: all returned times are on time if and only if each zero read comes when the last trigger is not later than the last read |
| MeterS0.GuardedTimesMonotone | src/protocols/MeterS0.cpp:385-407 | In such a run returned times never decrease and lie between the last returned one and the clock |
| MeterS0.ConfirmedGuarded | src/protocols/MeterS0.cpp:258-266 | If every trigger is confirmed, each zero read comes at such a moment |
| MeterS0.RejectedTriggerRunsBack | src/protocols/MeterS0.cpp:255-259 | A run with one rejected trigger whose second returned time lies before the first |
| MeterS0.UnsettledRunsBack | src/protocols/MeterS0.cpp:390-407 | After every zero read that finds the state unsettled some continuation, whose second read comes at least a second after the first, returns an earlier time |
| MeterS0.UnguardedRunsBack | src/protocols/MeterS0.cpp:390-407 | Every run that is not guarded shares all events up to its first unsettled zero read with a run whose returned times go back, its two last reads at least a second apart |
| MeterS0.ApplyKeepsInv | src/protocols/MeterS0.cpp:253-266 | Each trigger and each read (a zero read at a settled moment) keeps reference + milliseconds between the last returned time and the clock, so the unsigned subtraction does not wrap |
| MeterS0.ReadKeepsInv | src/protocols/MeterS0.cpp:385-407 | The same for one read |
| MeterS0.ShiftRefKeepsLast | src/protocols/MeterS0.cpp:196-205 | Moving 2^30 ms into the reference keeps reference + milliseconds |
| MeterS0.SubMsExact | src/protocols/MeterS0.cpp:172-184 | For all normalized times the result is the floor of the difference in ms modulo the word width; it is the floor itself if and only if the difference is not negative and below the width |
| MeterS0.AddBackMs | src/protocols/MeterS0.cpp:186-194 | Adding the difference back lands in (a - 1 ms, a] |
| MeterS0.SubExact | src/protocols/MeterS0.cpp:153-160 | The difference is exact and normalized |
| MeterS0.TimespecAdd | src/protocols/MeterS0.cpp:162-170 | The sum is exact and normalized |
| MeterS0.TimespecAddMs | src/protocols/MeterS0.cpp:186-194 | The sum is exact and normalized |
| MeterS0.ZeroReadOnTime | src/protocols/MeterS0.cpp:390-407 | A zero read returns a time not after the clock if and only if the last trigger is not later than the last read |
| MeterS0.UnconfirmedTriggerRunsAhead | src/protocols/MeterS0.cpp:255-259 | A trigger rejected after debounce breaks this: a run whose returned time is a second ahead of the clock |
| MeterS0.PowerNotNegative | src/protocols/MeterS0.cpp:415-444 | At a settled moment no reading is negative and the division is never by zero |
| MeterS0.ReadingsMean | src/protocols/MeterS0.cpp:415-448 | All a read returns: forward readings exactly with send_zero or forward impulses, backward ones likewise, at the time of the read; each the count of its own direction and, except on the first impulse, a power which times the seconds since the time returned before and the resolution is 3600000 times that count |
| MeterS0.ImpulsesReported | src/protocols/MeterS0.cpp:253-266 | Over every run the counts returned for a direction and the impulses still waiting are those that waited at the start and the confirmed triggers of that direction |
| MeterS0.FirstReadCounts | src/protocols/MeterS0.cpp:418-448 | The first read after opening returns no power |
| MeterS0.ImpulseTime | src/protocols/MeterS0.cpp:401-407 | With impulses waiting a read returns the time of the last trigger, less than a millisecond early |
| MeterS0.ZeroReadMoves | src/protocols/MeterS0.cpp:390-407 | Between two reads without a trigger the returned time moves on as the clock does |
| MeterS0.FirstReadTime | src/protocols/MeterS0.cpp:390-407 | The first read after opening without triggers returns the clock |
| MeterS0.PolledRead | src/protocols/MeterS0.cpp:408-413 | Without a blocking interface a read returns the clock and the next one measures from there |
| MeterS0.CountsConserved | src/protocols/MeterS0.cpp:365-380 | Under any interleaving of increments with the load and subtract steps of read: counted = reported + in flight + remaining for each direction, modulo 2^32 and exactly while fewer are outstanding |
| MeterS0.NoImpulseLost | src/protocols/MeterS0.cpp:365-380 | From every exactly balanced state, for any interleaving that stays below 2^32 impulses of a direction, exactly: increments = reported + in flight + remaining |
| MeterS0.CountsFromStart | src/protocols/MeterS0.cpp:365-380 | The same from the start: exactly below 2^32 impulses, modulo 2^32 beyond |
| MeterS0.ReadCompletes | src/protocols/MeterS0.cpp:365-380 | A read that is not disturbed reports all that waited and leaves nothing; without impulses it ends with send_zero, and else starts anew |
| MeterS0.TimesFromOpen | src/protocols/MeterS0.cpp:316-324 | From opening on, with confirmed triggers and at most 2^30 ms between a read and the next event, returned times ascend between the opening and the clock |
| MeterS0.GuardSuffices | src/protocols/MeterS0.cpp:196-205 | The overflow guard is enough: in such a run, also with rejected triggers if zero reads are settled, each trigger comes within one turn of the millisecond counter after the reference, for 32-bit and 64-bit words |
| MeterS0.StepKeepsBalance | src/protocols/MeterS0.cpp:365-380 | The same for each atomic step |
| MeterS0.CountEdges | src/protocols/MeterS0.cpp:273-302 | The polling loop counts each low-to-high transition among the valid samples once, for the direction input of that moment |
| MeterS0.Meter.Open | src/protocols/MeterS0.cpp:316-324 | Counters zero, all times now |
| MeterS0.Meter.OnTrigger | src/protocols/MeterS0.cpp:253-266 | The time is noted for every trigger, the impulse only if confirmed |
| MeterS0.Meter.CheckRefForOverflow | src/protocols/MeterS0.cpp:196-205 | The shift of the reference |
| MeterS0.Meter.AdvanceTime | src/protocols/MeterS0.cpp:385-413 | Returned time, reference and last read after a read |
| MeterS0.Meter.ReadOnce | src/protocols/MeterS0.cpp:369-451 | All readings returned and the whole new state |
| MeterS0.Meter.EmitOne | src/protocols/MeterS0.cpp:418-430 | Power, except on the first impulse, and the count |
| CurlSessionProvider.SessionExclusion | src/CurlSessionProvider.cpp:56-106 | After every run of any number of threads and keys: at most one thread has a key's session, the handle it has is the key's, and a session just locked is not in use |
| CurlSessionProvider.HandleConstant | src/CurlSessionProvider.cpp:80-89 | The handle of a key never changes |
| CurlSessionProvider.MovedKeepsInv | src/CurlSessionProvider.cpp:56-117 | Each atomic step keeps the invariant of locks, entries and threads |
| CurlSessionProvider.RunKeepsInv | src/CurlSessionProvider.cpp:56-117 | The same over every run |
| CurlSessionProvider.MapOwnerMoves | src/CurlSessionProvider.cpp:65-67 | A thread with the map lock never waits for another lock |
| CurlSessionProvider.HolderCanReturn | src/CurlSessionProvider.cpp:94-106 | From every reachable state a thread that holds a handle can return it |
| CurlSessionProvider.WaiterCanGet | src/CurlSessionProvider.cpp:70-79 | From every reachable state a thread that waits for a session can get it |
| CurlSessionProvider.IdleCanGet | src/CurlSessionProvider.cpp:56-91 | From every reachable state an idle thread can get the session of any key; with the map free and the key new its handle is the one curl_easy_init gives it |
| CurlSessionProvider.CancelledHasNothing | src/CurlSessionProvider.cpp:75 | A waiting thread can be cancelled, and a cancelled one has no lock |
| CurlSessionProvider.AskerIsDone | src/CurlSessionProvider.cpp:108-117 | inUse ends after one step for an unknown key and two for a known one, the second without the map lock, and changes nothing |
| CurlSessionProvider.IdleCanAsk | src/CurlSessionProvider.cpp:108-117 | From every reachable state an idle thread can call inUse, look the key up and be done |
| CurlSessionProvider.CurlSessionProvider.FindOrCreate | src/CurlSessionProvider.cpp:63-88 | An entry is found, or made with its session locked and in use |
| CurlSessionProvider.CurlSessionProvider.TryLockSession | src/CurlSessionProvider.cpp:70-76 | One turn of the timed lock |
| CurlSessionProvider.CurlSessionProvider.TakeHandle | src/CurlSessionProvider.cpp:77-79 | The assertion holds and the handle is the key's |
| CurlSessionProvider.CurlSessionProvider.ClearInUse | src/CurlSessionProvider.cpp:100-103 | The assertion on the returned handle holds |
| CurlSessionProvider.CurlSessionProvider.UnlockSession | src/CurlSessionProvider.cpp:104 | The session is free |
| CurlSessionProvider.CurlSessionProvider.FindInUse | src/CurlSessionProvider.cpp:108-112 | The key is looked up and the map released |
| CurlSessionProvider.CurlSessionProvider.ReadInUse | src/CurlSessionProvider.cpp:113 | The entry is still there when it is read after that, and its flag is returned |
| CurlSessionProvider.CurlSessionProvider.LockMap | src/CurlSessionProvider.cpp:62 | The map lock is taken if it is free |
| CurlSessionProvider.CurlSessionProvider.UnlockMap | src/CurlSessionProvider.cpp:66-88 | The map lock is released and the call goes on |
| PushData.ExactlyOnce | src/PushData.cpp:209-242 | Over every interleaving of add and waitForData by any threads, including timeouts that find data: for each uuid the queues handed over followed by the pending one are exactly what was added |
| PushData.HandOversFull | src/PushData.cpp:231-238 | No hand-over is empty and no queue in one is |
| PushData.DataGoesOut | src/PushData.cpp:221-242 | After every run in which something added for a uuid was not handed over: a thread that enters or is woken in time takes everything, so that all that was added is handed over |
| PushData.WaitingThread | src/PushData.cpp:224-238 | Without data a thread waits on; at a timeout it leaves, and what is there stays |
| PushData.ApplyKeepsBalance | src/PushData.cpp:209-242 | The same for each step |
| PushData.PushDataList.Add | src/PushData.cpp:209-219 | The value is appended to the queue of its uuid |
| PushData.PushDataList.WaitForData | src/PushData.cpp:221-242 | Data is handed over exactly unless the wait that found it timed out; then it stays for the next call |
| PushData.GenerateJson | src/PushData.cpp:84-103 | Each uuid appears once with all its tuples in order; all queues are drained |
| PushData.Drain | src/PushData.cpp:90-98 | The draining loop keeps the order and empties the queue |

## Left out

- Obis.ParseReference: a number too large for `int` wraps around in the model; in C++ the overflow is undefined.
- Volkszaehler.WindowInRange: the overflowing product is taken to wrap around; in C++ it is undefined.
- MeterD0.RoundTrip: a value is the text handed to strtod; its conversion, the time stamp and the serial line settings are not modelled.
- MeterD0.Meter.TakeHeader: the change of the serial line's baud rate after the acknowledgement.
- MeterD0.Meter.Read: the timeout is the end of the byte stream; a read error and cancellation are not modelled.
- MeterOCR.NeedleExact: positions are reals; which angles show the needle, and autocentering, are inputs.
- MeterOCR.ReportedIsAdvance: one identifier, of the others only whether one is invalid; what lrint makes of no number is an unknown constant.
- MeterOCR.ImpulseMeter.Read: the limit on the number of readings, and the confidence readings, are not modelled.
- MeterS0.TimesMonotone: a read is one step; the races its comments mention, between a trigger and the moving reference, are not modelled.
- MeterS0.Meter.ReadOnce: the waiting loop is its last pass; without send_zero a read ends only when impulses have come.
- Buffer.IntegralConserved: the buffer is drained after each aggregation; for averages that are averaged again see Buffer.AveragedAgain.
- Buffer.Buffer.Clean: the iterator that steps back before the first element is taken to act as on the usual list.
- LwipIF.LwipIF.InitPCB: a control block handed in by the HTTP server.
- LwipIF.LwipIF.Connect: the wait for name resolution is the later event DnsFound; other channels may call meanwhile.
- LwipIF.LwipIF.Dispatch: server mode, the sent callback and TLS settings; the lwIP lock is not modelled.
- Volkszaehler.Volkszaehler.CheckResponse: the scan for status line and headers is left to the abstract reply.
- Volkszaehler.PayloadParses: the text is a list of tokens; how numbers are printed is not modelled.
- MeterMap.MeterToServerAvg: windows that are averaged again before they are taken over, as happens while the connection is not ready; how far two such windows are off is in Buffer.AveragedTwice, and a run in Averages.NotReadyBetween.
- LwipIF.LwipIF.PostRequest: the runs of `Delivery` leave out a flush that fails for lack of memory with the request still queued, and callbacks between the test for a reply, or RETRY, and setting READY.
- MeterMap.MeterMap.AdvanceDue: an interval of 0 or less that is not due at once, for which the loop does not end (MeterMap.NeverDue).
- MeterMap.MeterMap.Read: the clock of the aggregation period is the list of batches; push list, MQTT and statistics are not fed.
- CurlSessionProvider.HolderCanReturn: a thread cancelled while it holds a handle never returns it; asserts are taken to be compiled in, since the map lock is taken inside them; the copied mutex of a new entry stays locked.
- InfluxDB delivery, whose last timestamp advances before the request succeeds; MySmartGrid, the null api and the local interface.
- The curl build of the Volkszaehler api, which sends synchronously with the same filter, text and reply handling.
- Sockets, serial ports, GPIO, ADC, display, threads and file access: only their outcomes appear.
- Floating-point rounding, and values that are not a number outside the OCR meter.
- Configuration, option lookup, logging, statistics, MQTT, UUID check, SML, OMS, DLMS units, image processing.
