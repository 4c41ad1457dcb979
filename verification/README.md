# Mahimahi and ABC: a verified model

A Dafny 4.11 model of the parts of this repository whose correctness is not
visible in one function body, with proofs of what they promise over whole
streams, runs and inputs. `dafny verify dfyconfig.toml` checks everything.

## What is modelled

| files | program part |
|---|---|
| `ChunkedParser`, `ChunkedFraming`, `ChunkedForm` | the incremental parser of chunked bodies |
| `HttpMessage`, `HttpSequence`, `HttpPipeline`, `HttpBoundaries`, `HttpRoundTrip`, `HttpLength` | HTTP messages, the sequence parser, printing, the length rules |
| `LinkQueue`, `PacketQueue` | the trace-driven link and the bounded packet queue |
| `CoDel` | the CoDel drop state machine |
| `AbcRouter`, `Checksum` | the ABC router's queue and the header checksum |
| `WaterFilling` | the water level and the queue choice of the weighted queue |
| `ByteStreamQueue` | the ring buffer between file descriptors |
| `AbcEndpoint` | the ABC window and the receiver's echo of marks |
| `CubeRoot`, `Cubic`, `CubicStart`, `CubicGrowth`, `CubicCurve`, `CubicRuns`, `CubicClock`, `CubicSocket` | CUBIC beside the ABC window |
| `Text`, `Words` | byte strings and machine words |

Objects whose methods update their fields are classes with the same fields and
loops. Each method is proved equal to a function on values (`ensures Value() ==
...`), and the results are proved about those functions and about the classes'
`Valid()`, which every method keeps. An exception or failed assertion of the
program is an explicit outcome (`Error`, `None`, `Failed`, `ok == false`), never
a precondition, except where noted under "Left out".

Words of 32 and 64 bits wrap around where the program's do: chunk sizes,
`Content-Length`, checksums, ring indices, every CUBIC quantity, and clock
differences. Doubles are real numbers. Times and random draws are inputs.

## Main results

* Chunked framing: reading a body piece by piece finds the end that one pass over
  the whole stream finds (`ChunkedParser.ChunkedBodyParser.Read`,
  `ChunkedFraming.FeedIsRun`, `ReadPieces`). The code adds 2 to a 32-bit chunk size, so
  this holds for all fragmentations *exactly* when no chunk of 2^32 - 2 bytes or more
  is looked into, or the whole stream is an error as well (`FramingIndependentIff`);
  always for streams below 2^32 bytes (`ShortStreamsAreIndependent`);
  `ChunkedForm.FragmentsCanMatter` is a stream where it fails. On a chunked body of RFC
  2616 section 3.6.1 without such chunks the decoder ends at the body's end *exactly*
  when trailer fields are announced if and only if there are any
  (`ChunkedForm.EndsAtRfcBodyIff`).
* HTTP parsing: packet boundaries do not change what the sequence parser produces,
  *exactly* unless an oversize chunk is looked into on the way and the whole stream is
  no error (`HttpPipeline.FragmentsDoNotMatter`, `HttpBoundaries.BoundariesMatterIff`,
  `BoundariesCanMatter`); well-formed printed messages, pipelined and cut anywhere, come
  back in order with their requests, *exactly* when none has such a chunk
  (`PrintParseRoundTrip`, `HttpBoundaries.RoundTripIff`); and a message comes back whole
  exactly when it is well formed (`HttpRoundTrip.ComesBackIff`).
* HTTP lengths: which bytes behind the headers a message takes follows from its text
  alone, by the rules of RFC 2616 section 4.4 (`HttpLength.ResponseLength`,
  `RequestLength`); a response takes none *exactly* when its code or its request rules
  out a body or its length is given as 0 (`TakesNothingIff`). Names, lists, status codes,
  numbers and header lines are read as those rules spell them (`EquivalentIff`,
  `HeaderIff`, `NumberIff`).
* Link: opportunity `k` comes at `start + (k / n) * last + schedule[k % n]`, exactly the
  due ones are used, accepted packets are always output ++ transit ++ queue, bytes sent
  are as many as the opportunities carry or as were waiting, and catching up in two
  steps is catching up at once.
* CUBIC: the integer cube root is within a proved band for every 64-bit argument; no
  division is by zero and the friendliness loop ends over every run of events; growth is
  at most one packet per two ACKs outside slow start, and from the first update of a
  window on the send window is the smaller of the two; the curve is symmetric and
  monotone in the clock; one window of ACKs takes the window to the curve's target, or
  half as far again, within one clock tick (`CubicRuns.WindowReachesTarget`), but not in
  general, because the count rises with the window (`WindowCanFallShort`): over any
  clock the ACKs needed are a bill of one price for each packet
  (`ClockReachesTarget`), exactly that for single ACKs (`ExactlyTheBill`); in clock
  time, the target is back at the old maximum *exactly* from the tick at which the
  epoch's age and the least delay reach K, less a plateau of 1389/1024 s
  (`CubicClock.BackAtOriginIff`), and after a reduction ACKs behind that tick that cover
  the bill take the window back to it (`BackAtTheMaximum`);
  and a new epoch starts at the reduced window,
  except that for a window less than a two hundredth of the maximum and 22 packets the
  target can wrap around (`CubicCurve.StartsAtTheWindow`, `CanStartFarAbove`).
* ABC: the window ledger balances over every run of ACKs, and no byte between one
  ACK and the next is counted twice or left out (`AbcEndpoint.CountsEveryByteOnce`,
  `BytesAreConserved`); congestion marks are echoed
  byte for byte; a dequeue of the router earns the whole credit *exactly* while the link
  serves the queue within the reference delay, none exactly from a stated length on, and
  in between what drains the excess within `delta` (`AbcRouter.EarnedIs`); router rates agree with the full event history, dequeues never
  outnumber opportunities, and over every run the packets left unmarked are at most 5
  plus the credit earned (`AbcRouter.BudgetFromTheStart`).
* CoDel: over every run a packet is dropped only if the one delivered before it and all
  calls of an interval or more were above target (`CoDel.RunsDropOnlyAfterAnInterval`);
  a dropping phase begins at the count of packets the one before dropped behind its
  first, if that was recent, and at 1 otherwise (`CoDel.PhaseBegins`).
* Water-filling is exact and unique; the ring buffer is a first-in-first-out stream; a
  re-marked header verifies.

## Where the code and its documents differ

* `mahimahi/man/mm-link.1` gives 1500 bytes per delivery opportunity; the code has
  1504, and so has the model.
* With a `Trailer` header the code waits for CRLF CRLF after the line of the last
  chunk, without one for CRLF. RFC 2616 section 3.6.1 ends a body with a blank line
  behind any number of trailer fields. So the code never sees the end of an announced
  trailer without fields (`ChunkedForm.BlankTrailerNeverEnds`), and ends a body with an
  unannounced field behind that field, before the blank line
  (`ChunkedForm.FieldsAreCutOff`). The model follows the code (`Terminator`).
* In CoDel an inner variable `r` hides the outer one, so `dequeue` returns the packet at
  the head and discards those behind it, where section 5.5 of RFC 8289 discards the head
  and returns the last one taken. So the last packet discarded by a dequeue is taken
  before its own delay is looked at, and can be below target
  (`CoDel.DropsBelowTarget` is a run). All discarded packets are above target *exactly*
  when those that the control law schedules to be discarded are so before the call
  (`CoDel.DropsAreAboveIff`). The model follows the code.
* A header whose value is empty or only spaces gains a space each time it is printed
  and parsed; `HttpMessage.HeaderRoundTripIff` says exactly which headers survive.
* A chunked body cut short by the end of the stream counts as complete
  (`HttpPipeline.EndOfStream`).

## Model

| member | source | states |
|---|---|---|
| `Text.FindGrows` | mahimahi/src/http/http_message_sequence.hh:67-72 | appending text keeps a found occurrence where it is, and a new one ends in the new text |
| `Text.FindLineEnd` | mahimahi/src/http/http_message_sequence.hh:74-84 | a line without CRLF, then CRLF, ends at its own length whatever follows |
| `ChunkedForm.SizeIsRead` | mahimahi/src/http/chunked_parser.cc:11-32 | of a size line, the number its hexadecimal digits denote is read, narrowed to 32 bits; spaces and extensions are cut off |
| `ChunkedParser.StepGrows` | mahimahi/src/http/chunked_parser.cc:38-98 | a decoding step is unchanged by bytes after it, but for a wrapped size met too early |
| `ChunkedParser.RunGrows` | mahimahi/src/http/chunked_parser.cc:34-101 | decoding that stops for more bytes and goes on equals decoding at once |
| `ChunkedParser.EndIsNew` | mahimahi/src/http/chunked_parser.cc:108-123 | an end found now lies after every byte acknowledged before, so the assertion on the two counters holds |
| `ChunkedParser.ChunkedBodyParser.Read` | mahimahi/src/http/chunked_parser.cc:34-101 | the report on a piece is what one-pass decoding of all bytes so far says: all body, an end inside this piece, or failure; the buffer invariant is kept |
| `ChunkedParser.ChunkedBodyParser.OnePass` | mahimahi/src/http/chunked_parser.cc:38-97 | a pass of the loop leaves the outcome unchanged and makes the buffer or the phase smaller |
| `ChunkedParser.ChunkedBodyParser.TakeHeader` | mahimahi/src/http/chunked_parser.cc:40-58 | the header phase is the decoder's header step on the buffer |
| `ChunkedParser.ChunkedBodyParser.TakeChunk` | mahimahi/src/http/chunked_parser.cc:60-77 | the chunk phase is the decoder's chunk step, with the size plus two in 32 bits |
| `ChunkedParser.ChunkedBodyParser.ComputeAckSize` | mahimahi/src/http/chunked_parser.cc:108-123 | the acknowledgement is the end found less the bytes acknowledged, or failure if that is not positive |
| `ChunkedFraming.FeedIsRun` | mahimahi/src/http/chunked_parser.cc:34-101 | any sequence of pieces gives the outcome of one pass, or an error when an oversize chunk is looked into |
| `ChunkedFraming.ErrorStays` | mahimahi/src/http/chunked_parser.cc:60-77 | in fewer than 2^32 bytes an error met early is an error of the longer stream too |
| `ChunkedFraming.StopsEarly` | mahimahi/src/http/chunked_parser.cc:60-77 | one byte into the first oversize chunk the parser stops |
| `ChunkedFraming.FramingIndependentIff` | mahimahi/src/http/chunked_parser.cc:34-123 | all fragmentations agree with one pass if and only if no oversize chunk is looked into or one pass fails too |
| `ChunkedFraming.ShortStreamsAreIndependent` | mahimahi/src/http/chunked_parser.cc:34-123 | a stream below 2^32 bytes is framed the same in any pieces |
| `ChunkedFraming.ReadPieces` | mahimahi/src/http/chunked_parser.cc:34-123 | the acknowledgements over all reads add up to the end of the body |
| `ChunkedForm.FragmentsCanMatter` | mahimahi/src/http/chunked_parser.cc:60-77 | a stream over four gigabytes whose framing depends on its pieces |
| `ChunkedFraming.DecodesBody` | mahimahi/src/http/chunked_parser.cc:34-101 | chunks, last chunk and trailer in the right form decode to their end, whatever follows |
| `ChunkedFraming.DecodedIsBody` | mahimahi/src/http/chunked_parser.cc:34-101 | what decoded to an end has that form |
| `ChunkedFraming.EndsExactlyAtBody` | mahimahi/src/http/chunked_parser.cc:34-123 | the decoder ends exactly at the end of a body of the form it accepts |
| `ChunkedForm.FindsBlankLine` | mahimahi/src/http/chunked_parser.cc:79-91 | the first CRLF CRLF behind trailer fields is the trailer's own blank line |
| `ChunkedForm.EndsAtRfcBodyIff` | mahimahi/src/http/chunked_parser.cc:34-123 | on a body of RFC 2616 section 3.6.1, whatever follows it, the decoder ends at the body's end if and only if trailers are announced exactly when there are fields; otherwise it ends behind the first field, or too late if ever |
| `ChunkedForm.BlankTrailerNeverEnds` | mahimahi/src/http/chunked_parser.cc:79-91 | a complete body with an announced, empty trailer, for which it waits |
| `ChunkedForm.FieldsAreCutOff` | mahimahi/src/http/chunked_parser.cc:79-91 | a body with an unannounced field, which it ends two bytes early |
| `HttpMessage.HeaderRoundTripIff` | mahimahi/src/http/http_header.cc:13-35 | a printed header parses back exactly when its key has no colon and its value is not empty and does not start with a space |
| `HttpMessage.FirstValueCounts` | mahimahi/src/http/http_message.cc:142-152 | the value found is that of the first header with an equivalent name |
| `HttpMessage.SpellingDoesNotMatter` | mahimahi/src/http/http_message.cc:112-152 | look-up ignores letter case and leading spaces of header names |
| `HttpMessage.FramingIgnoresSpelling` | mahimahi/src/http/http_response.cc:24-66 | so does the decision how the body ends |
| `HttpMessage.FramingKinds` | mahimahi/src/http/http_response.cc:24-66 | only responses have bodies of unknown size, and chunked decoding starts afresh |
| `HttpMessage.BodyEnds` | mahimahi/src/http/http_message.cc:38-59 | a body of known size completes exactly with its last byte; a chunked one where one-pass decoding of all of it ends, or fails with that; any other takes everything |
| `HttpMessage.TracksFromTheStart` | mahimahi/src/http/http_message.cc:23-36 | a chunked body that begins is decoded from its start |
| `HttpLength.EquivalentIff` | mahimahi/src/http/http_message.cc:112-128 | two names are equivalent exactly when they are the same but for letter case and leading spaces |
| `HttpLength.HeaderIff` | mahimahi/src/http/http_header.cc:13-35 | a line is a header exactly when it has a colon: the key in front of the first, the value behind the spaces that follow, or those spaces |
| `HttpLength.NumberIff` | mahimahi/src/util/ezio.cc:11-29 | a text is read as a decimal number exactly when it is white space, a sign or none, and digits, and the number fits 64 bits |
| `Text.NumberIsRead` | mahimahi/src/util/ezio.cc:11-29 | a number written in decimal or hexadecimal digits, small or capital, is read back |
| `HttpLength.CodeIff` | mahimahi/src/http/http_response.cc:13-22 | the status code is the text between the first two spaces, and there is none without two |
| `HttpLength.ChunkedLastIff` | mahimahi/src/http/http_response.cc:37-47 | chunked means that the last item of the first Transfer-Encoding is chunked |
| `HttpLength.NoCodeFails` | mahimahi/src/http/http_response.cc:13-31 | a response without a status code, or with an empty one, fails behind its headers |
| `HttpLength.ResponseLength` | mahimahi/src/http/http_response.cc:24-66 | from the blank line on, for all bytes that follow: no body for 1xx, 204, 304 and answers to HEAD; else where one-pass decoding ends if the last coding is chunked; else, without codings, as many bytes as Content-Length denotes; else all bytes until the end, or failure |
| `HttpLength.TakesNothingIff` | mahimahi/src/http/http_response.cc:28-52 | a response takes none of these bytes and completes if and only if its code or its request rules out a body, or its length without codings is 0 |
| `HttpLength.RequestLength` | mahimahi/src/http/http_request.cc:9-26 | a GET or HEAD request takes none, a POST request as many as Content-Length denotes, or fails without one, any other fails |
| `HttpMessage.HttpMessage.SetRequest` | mahimahi/src/http/http_response.cc:96-101 | the request is stored and nothing else changes |
| `HttpMessage.HttpMessage.SetFirstLine` | mahimahi/src/http/http_message.cc:10-15 | the first line is stored and headers are pending |
| `HttpMessage.HttpMessage.AddHeader` | mahimahi/src/http/http_message.cc:17-21 | the parsed header is appended, or the line has no colon and the call fails |
| `HttpMessage.HttpMessage.DoneWithHeaders` | mahimahi/src/http/http_message.cc:23-36 | the message awaits the body that the rules of HttpLength give it, or the call fails |
| `HttpMessage.HttpMessage.ReadInBody` | mahimahi/src/http/http_message.cc:38-59 | body bytes and message state are those of the value-level read, with chunk parser and body in step |
| `HttpMessage.HttpMessage.ReadInComplexBody` | mahimahi/src/http/http_response.cc:68-84 | the chunk parser has seen exactly the body, so its acknowledgement is the part of the input that is body |
| `HttpMessage.HttpMessage.Eof` | mahimahi/src/http/http_message.cc:61-77 | the end of the stream completes a body without known size and fails inside headers or a known size |
| `HttpSequence.StepFacts` | mahimahi/src/http/http_message_sequence.hh:93-138 | every looping step shortens the buffer or lowers the state's rank, and no step rests in COMPLETE |
| `HttpSequence.Settle` | mahimahi/src/http/http_message_sequence.hh:150-151 | parsing terminates, rests outside COMPLETE, and holds no more bytes than it was given |
| `HttpSequence.HttpMessageSequence.ParsingStep` | mahimahi/src/http/http_message_sequence.hh:93-138 | one pass of the switch is the value-level step, in place |
| `HttpSequence.HttpMessageSequence.GetAndPopLine` | mahimahi/src/http/http_message_sequence.hh:74-84 | the first line without its CRLF is returned and removed |
| `HttpSequence.HttpMessageSequence.BodyStep` | mahimahi/src/http/http_message_sequence.hh:122-128 | the body takes its bytes from the buffer; it loops exactly when the message completed |
| `HttpSequence.HttpMessageSequence.FirstLineStep` | mahimahi/src/http/http_response_parser.cc:12-22 | a response takes the oldest unanswered request, and fails if there is none |
| `HttpSequence.HttpMessageSequence.HeaderStep` | mahimahi/src/http/http_message_sequence.hh:107-120 | a blank line ends the headers, any other is added |
| `HttpSequence.HttpMessageSequence.ParseAsMuchAsPossible` | mahimahi/src/http/http_message_sequence.hh:150-151 | the loop terminates in the settled state, never in COMPLETE |
| `HttpSequence.HttpMessageSequence.Parse` | mahimahi/src/http/http_message_sequence.hh:140-152 | an input, or the end of the stream, takes the whole parser to its settled state or fails |
| `HttpSequence.HttpMessageSequence.NewRequestArrived` | mahimahi/src/http/http_response_parser.cc:24-27 | the request joins the end of the queue |
| `HttpSequence.HttpMessageSequence.Pop` | mahimahi/src/http/http_message_sequence.hh:60-64 | the oldest complete message leaves the queue |
| `HttpPipeline.BodyGrows` | mahimahi/src/http/http_message.cc:38-59 | a body reads the same bytes at once or in two parts, unless the first part stops at an oversize chunk |
| `HttpPipeline.StepGrows` | mahimahi/src/http/http_message_sequence.hh:93-138 | bytes that come later do not change a step, and after a rest count as if they had been there; a stop stays one unless the body has an oversize chunk |
| `HttpPipeline.SettleGrows` | mahimahi/src/http/http_message_sequence.hh:140-152 | settling in between is settling at once, unless it stops at an oversize chunk |
| `HttpPipeline.FragmentsDoNotMatter` | mahimahi/src/http/http_message_sequence.hh:140-152 | parsing the pieces of a stream equals parsing it whole: messages, message in progress, buffer and failure; or it stops and an oversize chunk was looked into |
| `HttpBoundaries.StopsOnPart` | mahimahi/src/http/http_message_sequence.hh:140-152 | if an oversize chunk is looked into, some first part of the buffer makes the parser stop |
| `HttpBoundaries.BoundariesMatterIff` | mahimahi/src/http/http_message_sequence.hh:140-152 | all ways to cut a stream give the outcome of the whole if and only if no oversize chunk is looked into or the whole stops as well |
| `HttpBoundaries.ShortStreamsHaveNoBoundaries` | mahimahi/src/http/http_message_sequence.hh:140-152 | below 2^32 bytes in hand all ways to cut a stream give the outcome of the whole |
| `HttpBoundaries.BoundariesCanMatter` | mahimahi/src/http/chunked_parser.cc:60-77 | a stream of a chunked response on which the outcome depends on the cuts |
| `HttpPipeline.EndOfStream` | mahimahi/src/http/http_message_sequence.hh:143-145 | what an empty input does in each resting state, and that COMPLETE is none of them |
| `HttpPipeline.ReadsMessage` | mahimahi/src/http/http_message.cc:155-174 | a printed well-formed message at the front of the buffer becomes one complete message |
| `HttpPipeline.PrintParseRoundTrip` | mahimahi/src/http/http_message.cc:155-174 | printed messages, concatenated and cut into any non-empty pieces, come back in order, responses paired with their requests, nothing left over; or the parser stops and a message has an oversize chunk |
| `HttpBoundaries.RoundTripIff` | mahimahi/src/http/http_message.cc:155-174 | well-formed messages come back from their print in any pieces if and only if none has an oversize chunk |
| `HttpRoundTrip.NextCompleted` | mahimahi/src/http/http_message_sequence.hh:93-138 | the message that completes next has the first line, headers and body already read |
| `HttpRoundTrip.ComesBackIff` | mahimahi/src/http/http_message.cc:155-174 | a message comes back from its own print if and only if it is well formed |
| `PacketQueue.DroppingPacketQueue.Accept` | mahimahi/src/packet/dropping_packet_queue.cc:73-79 | the packet joins the back and both counters agree with the contents |
| `PacketQueue.DroppingPacketQueue.Enqueue` | mahimahi/src/packet/drop_tail_packet_queue.hh:20-28 | a packet is accepted exactly when the limits hold with it |
| `PacketQueue.DroppingPacketQueue.Dequeue` | mahimahi/src/packet/dropping_packet_queue.cc:20-33 | the oldest packet leaves; counters and limits still hold |
| `PacketQueue.QueueConserves` | mahimahi/src/packet/dropping_packet_queue.cc:20-53 | over every run both limits hold, where there are any, and the packets that found room within them are, in order, those taken and those left |
| `LinkQueue.LoadSchedule` | mahimahi/src/frontend/link_queue.cc:42-64 | a trace is accepted exactly when its lines are numbers, there is one, they never decrease and do not end at 0 |
| `LinkQueue.UseKeeps` | mahimahi/src/frontend/link_queue.cc:175-189 | using an opportunity keeps the closed form of the schedule |
| `LinkQueue.TimesNondecreasing` | mahimahi/src/frontend/link_queue.cc:166-189 | opportunities never go back in time, across repetitions as well |
| `LinkQueue.UsesExactlyTheDueOnes` | mahimahi/src/frontend/link_queue.cc:194-201 | catching up uses exactly the opportunities at or before now; without repeat at most one pass |
| `LinkQueue.StaysNearNow` | mahimahi/src/frontend/link_queue.cc:166-173 | the next time is at most one trace length after now |
| `LinkQueue.CatchingUpComposes` | mahimahi/src/frontend/link_queue.cc:194-237 | catching up to t1 and then t2 is catching up to t2 |
| `LinkQueue.SendConserves` | mahimahi/src/frontend/link_queue.cc:203-235 | an opportunity keeps packets and order and sends the smaller of its bytes and the backlog |
| `LinkQueue.CatchingUpConserves` | mahimahi/src/frontend/link_queue.cc:194-237 | outputs, transit and queue stay the accepted stream, and bytes sent are the smaller of 1504 per opportunity and the backlog |
| `LinkQueue.OutExactlyWhenSent` | mahimahi/src/frontend/link_queue.cc:224-234 | a packet of at least one byte is out exactly when the bytes up to its end have been sent |
| `LinkQueue.CatchingUpOnTime` | mahimahi/src/frontend/link_queue.cc:215-218 | no packet leaves before it arrived, and departures are in order of time |
| `LinkQueue.LinkQueue.UseADeliveryOpportunity` | mahimahi/src/frontend/link_queue.cc:175-189 | the index advances cyclically; wrapping moves the base or finishes |
| `LinkQueue.LinkQueue.Rationalize` | mahimahi/src/frontend/link_queue.cc:194-237 | the nested loops terminate in the caught-up state with the accepted stream conserved, or stop exactly when a packet departs that is too short to be recorded |
| `LinkQueue.LinkQueue.SendDelivery` | mahimahi/src/frontend/link_queue.cc:203-235 | the inner loop is one opportunity; of its four assertions only that on a packet without bytes can fail |
| `LinkQueue.LinkQueue.ReadPacket` | mahimahi/src/frontend/link_queue.cc:152-164 | an oversize packet changes nothing; any other is offered to the queue after catching up, if that succeeds |
| `LinkQueue.LinkQueue.WritePackets` | mahimahi/src/frontend/link_queue.cc:239-245 | every output is written once, in order |
| `LinkQueue.LinkQueue.WaitTime` | mahimahi/src/frontend/link_queue.cc:247-258 | the wait is the time to the next opportunity, which is after now |
| `CoDel.ControlLaw` | mahimahi/src/packet/codel_packet_queue.cc:56-60 | the spacing is the whole part of interval over the square root of the count |
| `CoDel.OkExactlyAfterAnInterval` | mahimahi/src/packet/codel_packet_queue.cc:27-54 | one call: dropping is allowed exactly when it is above target and the unbroken run of calls above target began an interval ago |
| `CoDel.DequeueRemembers` | mahimahi/src/packet/codel_packet_queue.cc:62-94 | a whole dequeue keeps the memory of that run, and every packet it takes but the last was above target itself |
| `CoDel.RunsDropOnlyAfterAnInterval` | mahimahi/src/packet/codel_packet_queue.cc:62-94 | over every run of arrivals and dequeues from the start, a dequeue drops only if the packet it delivers was above target and so were all calls of an interval or more |
| `CoDel.LoopDropsAbove` | mahimahi/src/packet/codel_packet_queue.cc:73-81 | the loop drops as many packets as the control law schedules, until one is not above target |
| `CoDel.DropsAreAboveIff` | mahimahi/src/packet/codel_packet_queue.cc:62-94 | the packets a dequeue drops were all above target when taken if and only if those scheduled to be dropped, counted from dropNext and count before the call, are above target now, or nothing may be dropped |
| `CoDel.DropsBelowTarget` | mahimahi/src/packet/codel_packet_queue.cc:83-91 | a run of six packets from the start, after which a dequeue drops a packet that waited 1 ms with a target of 5 ms |
| `CoDel.PhaseBegins` | mahimahi/src/packet/codel_packet_queue.cc:83-92 | over every run from the start, a dropping phase begins at the count of packets that the one before dropped behind its first, if two or more and its last drop was due less than 16 intervals ago, at 1 otherwise; the next drop is due a whole interval over the root of that count from now |
| `CoDel.PhaseGoesOn` | mahimahi/src/packet/codel_packet_queue.cc:67-92 | a dequeue leaves the queue dropping exactly if it may drop and all it dropped in a phase begun before was above target |
| `CoDel.AboveSinceIsRun` | mahimahi/src/packet/codel_packet_queue.cc:40-51 | that run is the latest one: all its calls were above target, the one before was not |
| `CoDel.DequeueTakes` | mahimahi/src/packet/codel_packet_queue.cc:62-94 | a dequeue takes a non-empty prefix of the queue, and while dropping counts all of it but the packet delivered |
| `CoDel.DropsOnlyWhenAllowed` | mahimahi/src/packet/codel_packet_queue.cc:62-94 | nothing but the head is taken unless dropping is allowed, which needs a packet behind it |
| `CoDel.DropLoopTakes` | mahimahi/src/packet/codel_packet_queue.cc:73-81 | the loop takes packets from the front, counts each one and only ever puts the next drop off |
| `CoDel.DeliveredInOrder` | mahimahi/src/packet/codel_packet_queue.cc:62-94 | delivered packets are a subsequence of accepted ones |
| `CoDel.CODELPacketQueue.DoDequeue` | mahimahi/src/packet/codel_packet_queue.cc:27-54 | one packet leaves and the call is recorded; permission to drop implies the queue is not empty |
| `CoDel.CODELPacketQueue.Dequeue` | mahimahi/src/packet/codel_packet_queue.cc:62-94 | the old head is delivered, every other packet taken is dropped, only after an interval above target; an empty queue is never asked; the phase is that of PhaseBegins and PhaseGoesOn |
| `CoDel.CODELPacketQueue.DropBehind` | mahimahi/src/packet/codel_packet_queue.cc:73-81 | the dropping loop terminates and delivers nothing |
| `CoDel.CODELPacketQueue.Enqueue` | mahimahi/src/packet/codel_packet_queue.cc:97-104 | a packet within the limits is accepted, any other dropped |
| `Checksum.InCksum` | mahimahi/src/packet/cellular_packet_queue.hh:43-60 | the loops compute the complement of the one's complement sum, odd lengths included |
| `Checksum.FilledHeaderVerifies` | mahimahi/src/packet/cellular_packet_queue.cc:82-83 | a header filled with its checksum over a zeroed field has checksum 0 (RFC 1071) |
| `AbcRouter.WindowCounts` | mahimahi/src/packet/cellular_packet_queue.cc:53-65 | the deque's size less one is the number of all recorded events of the last 20 ms, or one less, and exactly when |
| `AbcRouter.DequeueRateWithinCapacity` | mahimahi/src/packet/cellular_packet_queue.cc:53-65 | the dequeue count never exceeds the opportunity count |
| `AbcRouter.CreditRange` | mahimahi/src/packet/cellular_packet_queue.cc:67-73 | credit is between 0 and 0.49, and 0.49 exactly when the packets are no more than the link serves in the reference delay |
| `AbcRouter.EarnedIs` | mahimahi/src/packet/cellular_packet_queue.cc:63-73 | with n packets, L opportunities and D dequeues in the windows: a dequeue earns 0.49 if and only if 20 n <= qdelay_ref L, nothing if and only if 50 (20 n - qdelay_ref L) >= 49 delta D, and in between what leaves the rate that drains the excess within delta |
| `AbcRouter.LongerEarnsLess` | mahimahi/src/packet/cellular_packet_queue.cc:67-72 | with the same windows a longer queue never earns more |
| `AbcRouter.WindowsHoldHistory` | mahimahi/src/packet/cellular_packet_queue.cc:41-60 | over every run with a clock in order the windows have recorded every idle opportunity and every dequeue of a packet that can carry a mark, and nothing else |
| `AbcRouter.RatesCountHistory` | mahimahi/src/packet/cellular_packet_queue.cc:53-65 | so from the start a dequeue reckons with the opportunities and dequeues of the last 20 ms, or of this millisecond |
| `AbcRouter.MarkedVerifies` | mahimahi/src/packet/cellular_packet_queue.cc:80-84 | marking sets CE, keeps every bit outside the ECN bits and the check field, and a header of three 32-bit words or more verifies |
| `AbcRouter.TokensPay` | mahimahi/src/packet/cellular_packet_queue.cc:41-89 | one event earns between 0 and 0.49 and never overdraws the bucket; a packet leaves unmarked if and only if it came so and finds more than one token, takes one, and at most 5 are left |
| `AbcRouter.UnmarkedWithinBudget` | mahimahi/src/packet/cellular_packet_queue.cc:41-89 | over every run, packets left unmarked are at most the tokens there were plus the credit earned, which is at most 0.49 for each event |
| `AbcRouter.BudgetFromTheStart` | mahimahi/src/packet/cellular_packet_queue.cc:9-16 | from the start: at most 5 plus the credit earned |
| `AbcRouter.CELLULARPacketQueue.RecordDequeue` | mahimahi/src/packet/cellular_packet_queue.cc:53-60 | both rates are positive, and both windows agree with history while the clock is in order |
| `AbcRouter.CELLULARPacketQueue.Decide` | mahimahi/src/packet/cellular_packet_queue.cc:73-89 | tokens stay between 0 and 5, and a packet stays unmarked exactly for one token |
| `AbcRouter.CELLULARPacketQueue.Idle` | mahimahi/src/packet/cellular_packet_queue.cc:41-45 | an idle opportunity is recorded and earns 0.49 |
| `AbcRouter.CELLULARPacketQueue.Dequeue` | mahimahi/src/packet/cellular_packet_queue.cc:37-91 | the packet leaves untouched or marked, for one token or none, with the credit of EarnedIs, at any 32-bit time |
| `WaterFilling.WaterLevel` | mahimahi/src/packet/weighted_packet_queue.cc:132-146 | the level of sorted demands hands out the smaller of the total and their sum |
| `WaterFilling.LevelForDemands` | mahimahi/src/packet/weighted_packet_queue.cc:116-146 | so it does for demands in any order, and any other level that does gives everyone the same share |
| `WaterFilling.LevelIsUnique` | mahimahi/src/packet/weighted_packet_queue.cc:139-146 | equal sums mean equal shares |
| `WaterFilling.Weight` | mahimahi/src/packet/weighted_packet_queue.cc:171-185 | of the weights from 0.05 to 0.95 within a fifth of the actual share, the one nearest to the share of the water-filled demand |
| `WaterFilling.Choose` | mahimahi/src/packet/weighted_packet_queue.cc:189-201 | the queue served has a packet, and only an empty second queue is told of an opportunity |
| `WaterFilling.ServiceFollowsWeight` | mahimahi/src/packet/weighted_packet_queue.cc:189-201 | of a thousand draws with both queues backlogged the first queue gets its weight, to within one |
| `WaterFilling.EmptySecondIsTold` | mahimahi/src/packet/weighted_packet_queue.cc:189-201 | an empty second queue is told of exactly those opportunities that would have served it |
| `ByteStreamQueue.CountsAreExact` | mahimahi/src/util/bytestream_queue.cc:20-30 | the wrapping counts are the bytes held and the room left, together the size less one |
| `ByteStreamQueue.ByteStreamQueue.Push` | mahimahi/src/util/bytestream_queue.cc:32-62 | the bytes read are appended, end of file is reported exactly then, every assertion holds |
| `ByteStreamQueue.ByteStreamQueue.Pop` | mahimahi/src/util/bytestream_queue.cc:64-87 | the bytes written are the oldest held and are removed |
| `ByteStreamQueue.PoppedIsPrefix` | mahimahi/src/util/bytestream_queue.cc:32-87 | bytes popped are a prefix of bytes pushed and the rest fits |
| `AbcEndpoint.WindowLedger` | tcp_abc.c:119-147 | over any run of ACKs the window is start plus additive steps plus accelerates less applied brakes, never below six unless it began there, and the ACK count balances |
| `AbcEndpoint.CountsEveryByteOnce` | tcp_abc.c:125-144 | over every run, from the sequence numbers alone: the bytes between one ACK and the next, a segment for a duplicate, nothing for a window update; accelerates are the whole segments of unmarked ACKs, and the last number is remembered |
| `AbcEndpoint.BytesAreConserved` | tcp_abc.c:125-138 | so ACKs that go from u0 to u1 count u1 - u0 bytes and the duplicates |
| `AbcEndpoint.OnePacketPerSegment` | tcp_abc.c:132-144 | over unmarked ACKs of whole segments the window grows by the segments acknowledged and the additive steps |
| `AbcEndpoint.AdditiveClosedForm` | tcp_abc.c:132-137 | additive increase from w0 to w1 takes as many ACKs as the windows between hold packets |
| `AbcEndpoint.MarksAreEchoedExactly` | tcp_abc.c:59-117 | bytes under echoing ACKs plus marked bytes pending are exactly the bytes that arrived marked |
| `AbcEndpoint.Abc.InAck` | tcp_abc.c:119-150 | one ACK changes the window as the step does whose runs WindowLedger and CountsEveryByteOnce describe, and sets the send window when it counts |
| `AbcEndpoint.Abc.CeState0To1` | tcp_abc.c:59-87 | a delayed ACK is forced for the bytes before the change without echo, and rcv_nxt is restored |
| `AbcEndpoint.Abc.CeState1To0` | tcp_abc.c:89-117 | the same with echo, on the way back |
| `AbcEndpoint.Abc.CwndEvent` | tcp_abc.c:170-206 | each event changes the receiver's state and forces ACKs as specified |
| `CubeRoot.CubicRootBounds` | tcp_abccubic.c:395-437 | for every 64-bit a: 1023^3 a <= 1024^3 (r+2)^3 and 1024^3 (r-1)^3 <= 1.0076 * 1023^3 a |
| `CubeRoot.LookUpAndStepAreSafe` | tcp_abccubic.c:423-436 | the table index is in range, the divisor is at least 12, no 32-bit step wraps |
| `CubeRoot.IndexRange` | tcp_abccubic.c:417-424 | the index is 8 to 63 and brackets the argument |
| `CubeRoot.LookUpClose` | tcp_abccubic.c:426 | how close the look-up is to the cube root, at every scale |
| `CubeRoot.StepLower` | tcp_abccubic.c:434 | the Newton step never falls short by more than its rounding |
| `CubeRoot.StepUpper` | tcp_abccubic.c:434 | nor overshoots by more than the table's error allows |
| `Cubic.DeltaPositive` | tcp_abccubic.c:584-588 | the friendliness step is positive for every reachable window |
| `Cubic.FirstStall` | tcp_abccubic.c:584-588 | the first window at which it would be zero |
| `Cubic.FriendlinessConserves` | tcp_abccubic.c:579-596 | ACKs used are whole steps of the Reno estimate, at most a step is left over, and the count as yet makes CUBIC no slower than the estimate |
| `Cubic.NoSlowerThanReno` | tcp_abccubic.c:579-601 | after an update that is not too soon the count is 2, or CUBIC is no slower than the estimate |
| `CubicClock.RenoPrice` | tcp_abccubic.c:584 | a step of the Reno estimate is 15/8 of the window |
| `CubicClock.RenoCountsEveryAck` | tcp_abccubic.c:498-588 | over every run in an epoch, each ACK has been spent on the estimate, at the price of its time, or is still counted |
| `Cubic.UpdateKeeps` | tcp_abccubic.c:494-602 | the growth count is at least 2 afterwards and the windows are untouched |
| `Cubic.AiKeeps` | tcp_abccubic.c:439-457 | saved ACKs become packets at no more than one per two |
| `Cubic.ReductionIsMultiplicative` | tcp_abccubic.c:638-659 | a reduction sets the threshold to 717/1024 of the window, not below 2, if and only if 717 windows fit 32 bits, holds the window to the flight, and remembers 1741/2048 of it, when the last maximum was not reached, if and only if 1741 windows fit |
| `Cubic.ReductionCanCollapse` | tcp_abccubic.c:651 | a window of 5990192, the first for which they do not, becomes 2 |
| `Cubic.StepKeeps` | tcp_abccubic.c:604-682 | every handler keeps the invariant and the growth bound, and makes the send window the minimum of the two windows or touches no window |
| `Cubic.GrowthIsBounded` | tcp_abccubic.c:598-601 | over every run, growth outside slow start is at most one packet per two packets acknowledged, and the send window is the minimum of the two windows or no window was touched |
| `Cubic.InitIsSafe` | tcp_abccubic.c:352-367 | the initial state satisfies the invariant and starts at 10 packets beside the window the socket has, without epoch or maximum |
| `Cubic.AcksMoveTheWindow` | tcp_abccubic.c:214-246 | a run of ACKs moves the window beside CUBIC's as the endpoint's, and nothing else but the send window |
| `CubicStart.EveryAckIsAPacket` | tcp_abccubic.c:467-488 | in slow start a window in use grows by a packet for each ACK up to the threshold and the clamp, the rest goes to the curve, and a window not in use stays |
| `CubicStart.WindowCountsAcks` | tcp_abccubic.c:604-622 | over a run in slow start the window is what it was and all ACKs |
| `CubicStart.FlightHolds` | tcp_abccubic.c:612-633 | out of slow start both windows are held to twice the packets in flight and five and cut no further, and a window not in use stays |
| `CubicCurve.TargetNondecreasing` | tcp_abccubic.c:553-563 | the target never decreases in the curve's time, across K |
| `CubicCurve.TargetFollowsClock` | tcp_abccubic.c:541-563 | so it never decreases as the clock goes on, for epochs of up to 2^31 ticks |
| `CubicCurve.TargetSymmetric` | tcp_abccubic.c:553-563 | the curve is symmetric about K |
| `CubicCurve.StartsAtTheWindow` | tcp_abccubic.c:520-563 | the offset at time 0 is within half a percent of the distance to the old maximum, and 45 packets; the target is the maximum less the offset, or wraps around exactly when the offset is larger, which it is not if the maximum and 4400 are at most 201 windows |
| `CubicClock.ElapsedIs` | tcp_abccubic.c:541-545 | the curve's time is the age of the epoch and the least delay, in 1/1024 s, rounded down |
| `CubicClock.TargetOnTheCurve` | tcp_abccubic.c:547-563 | the target lies below the origin before K, and above it after, by 410/2^40 of the cube of the distance, rounded down; at the origin exactly within 1389 units |
| `CubicClock.BackAtOriginIff` | tcp_abccubic.c:541-563 | the target is at the origin or above if and only if 1024 times the age and delay are at least 1000 times K less the plateau |
| `CubicClock.EpochBegins` | tcp_abccubic.c:514-532 | the first update after a reduction begins an epoch now, aimed at the old maximum if that is above, with K the distance's cube root, within the root's band, and the estimate at the window |
| `CubicClock.EpochLasts` | tcp_abccubic.c:494-577 | over every run of congestion control an epoch keeps its curve, and the window stays at its threshold or above |
| `CubicCurve.CanStartFarAbove` | tcp_abccubic.c:638-657 | a window of 2466 packets reduced with nothing in flight, after which the target is 2^32 - 1 |
| `CubicGrowth.CountReachesTarget` | tcp_abccubic.c:565-577 | the count is the largest at which a window of ACKs brings the target, capped at 20 before the first loss |
| `CubicRuns.UpdateCases` | tcp_abccubic.c:494-602 | an update within HZ/32 ticks at the same window only counts ACKs, one in the same tick only lowers the count, any other follows the epoch's curve |
| `CubicGrowth.PacketsPerAck` | tcp_abccubic.c:439-457 | over any ACKs at a standing count, the window gains exactly one packet for each full count, saved ACKs included, up to the clamp |
| `CubicRuns.WindowReachesTarget` | tcp_abccubic.c:604-636 | over a run of the handler within one tick, a window's worth of ACKs takes the window to the curve's target or half as far again, where clamp and flight allow it |
| `CubicRuns.BuysPackets` | tcp_abccubic.c:604-636 | over any run of the handler that asks for no more than a price, ACKs that cover the bill take the window to the goal, in whatever portions they come |
| `CubicRuns.ExactlyTheBill` | tcp_abccubic.c:604-636 | for single ACKs at the price, the goal is reached if and only if they cover the bill |
| `CubicRuns.ChaseReachesGoal` | tcp_abccubic.c:494-636 | over any clock, while the curve's target is not below a given one, the price of a packet is the larger of 2 and the window over its distance from that target |
| `CubicRuns.ClockReachesTarget` | tcp_abccubic.c:494-636 | with a clock that does not go back, the window reaches the target of the first update at that price |
| `CubicClock.ReachesOrigin` | tcp_abccubic.c:494-636 | in an epoch, ACKs behind K that cover the bill take the window to the origin |
| `CubicClock.BackAtTheMaximum` | tcp_abccubic.c:494-659 | from a reduction on: the first update aims at the maximum remembered, and whatever comes between, ACKs behind K that cover the bill take the window back to it |
| `CubicRuns.WindowCanFallShort` | tcp_abccubic.c:623-630 | a window of 5 below a target of 7, and five ACKs in five ticks, after which it is 6 |
| `CubicGrowth.IdleDoesNotCount` | tcp_abccubic.c:372-388 | after an idle period the epoch is as old as it was at the last transmission, and not after now |
| `CubicGrowth.DelayMinIsLeast` | tcp_abccubic.c:745-755 | over every run the delay kept is the least sample that counted since the last timeout |
| `CubicGrowth.TimeoutForgets` | tcp_abccubic.c:316-330 | after a timeout connections with the same windows are the same, and the next update starts a flat epoch at the window with a count of 2 to 20 |
| `CubicGrowth.OnlyLossesCount` | tcp_abccubic.c:661-682 | only recovery reduces, to 717/1024 and the flight, only a timeout forgets, and other states change nothing |
| `CubicSocket.CubicSock.InAck` | tcp_abccubic.c:214-246 | the handler is the specified step, whose runs Cubic.AcksMoveTheWindow describes; the window is the smaller of the two |
| `CubicSocket.CubicSock.CongAvoidAi` | tcp_abccubic.c:439-457 | whole counts of saved ACKs become packets, the rest is kept |
| `CubicSocket.CubicSock.SlowStart` | tcp_abccubic.c:478-488 | growth up to the threshold, and the ACKs left over |
| `CubicSocket.CubicSock.UpdateTcpCwnd` | tcp_abccubic.c:585-588 | the loop terminates after the stated number of rounds |
| `CubicSocket.CubicSock.BeFriendly` | tcp_abccubic.c:579-596 | the count is held to the Reno estimate's |
| `CubicSocket.CubicSock.CongAvoid` | tcp_abccubic.c:604-636 | congestion control is the step whose runs CubicStart, CubicRuns and CubicClock describe, with no division by zero |
| `CubicSocket.CubicSock.RecalcSsthresh` | tcp_abccubic.c:638-659 | the reduction on entering recovery |
| `CubicSocket.CubicSock.State` | tcp_abccubic.c:661-682 | recovery reduces, loss resets, anything else changes nothing |
| `CubicSocket.CubicSock.TxStartEvent` | tcp_abccubic.c:372-388 | an idle period shifts the epoch, so that its age is what it was at the last transmission |
| `CubicSocket.CubicSock.Acked` | tcp_abccubic.c:745-755 | the least of the samples that count stays the least; in the first second of an epoch none counts |

## Left out

- Sockets, TUN devices, NAT, DNS, TLS, child processes, signals, polling, the Apache module, protobuf and backing store, graphs, logs other than the departure log: input and output.
- `timestamp()` and `rand()`: times and draws are inputs.
- Rounding of doubles: real numbers; the control law of CoDel is the exact whole part of interval over the square root of the count.
- CoDel's `count_` and `first_above_time_`, the byte and packet counters of the queues, and the byte counters of the chunked parser are unbounded; they would need 2^32 drops in one phase or 2^31 queued bytes to wrap.
- `AbcRouter.CELLULARPacketQueue.Dequeue`: takes frames that hold the bytes which the source reads and writes without looking at the frame's length.
- `AbcRouter.WindowCounts`: for clocks in order within 32 bits of milliseconds, 49 days; tokens and marks do not depend on that.
- Link behind queues other than drop-tail: CoDel and the router read the clock in `dequeue`, so catching up in steps is not the same for them.
- Overflow of the 64-bit clock sum `schedule_ + base_timestamp_`: times are unbounded; `LinkQueue.StaysNearNow` shows they stay within one trace of now.
- HyStart detection: its only effect, a change of the slow-start threshold, is an arbitrary event of the CUBIC runs.
- CUBIC runs take a clamp between 2 and 2^31 - 2, at most 2^31 - 1 packets per ACK and fewer than 2^31 - 2 in flight, and HZ = 1000.
- `tcp_send_ack`, PRR, pacing and the Reno fallback of the kernel.
- `ChunkedForm.EndsAtRfcBodyIff`: for chunks below 2^32 - 2 bytes and header lines that are not folded, which the source says it does not expect.
- `CubicCurve.TargetNondecreasing`: only where 64- and 32-bit arithmetic does not overflow; the source says it is designed for windows below a million packets.
- `CubicClock.BackAtTheMaximum`: for a reduction that the packets in flight do not cut below the threshold, in ranges where the curve does not overflow; otherwise slow start comes first (`CubicStart.WindowCountsAcks`) and `CubicClock.ReachesOrigin` applies from the epoch on.
- `AbcEndpoint.WindowLedger`: for runs in which neither 32-bit counter reaches its end.
- Sequence numbers of the mark echo are counted from the start of the connection; the handlers only copy them.
- Decay of the demand maps, random flow sampling, unused weight modes and debug output of the weighted queue.
- Drop-head with a byte limit, PIE, RCP, XCP, VCP: heuristics without a stated guarantee, or loops that rely on the packets' contents.
- Text conversion in `strtol` beyond white space, sign, base prefix, digits and range.
