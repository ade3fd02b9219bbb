# libevhtp in Dafny

A model of the hard core of libevhtp, an HTTP server library in C, and proofs of what it promises.
`dafny verify dfyconfig.toml` checks everything; nothing here runs the original program.

Three parts are modelled.

**The cross-thread channel.** A worker thread is handed commands through a lock-free linked queue
(`include/evhtp/mpsc-queue.h`), woken through an eventfd (`thread.c`), and gives the spent command
cells back to their senders through bounded rings (`include/evhtp/spsc_queue.h`; a second ring with a
power-of-two mask is `include/evhtp/vspsc_queue.h`). `MpscQueue.dfy`, `Rings.dfy` and `Channel.dfy` are
step machines with one atomic operation per step, any number of senders and any interleaving;
`CellFlow.dfy` is the life of a cell without the pointers, which `Channel` refines. Main results: FIFO
with contiguous batches, truthful poll answers, handed-out nodes belong to the caller, no wakeup is lost
exactly unless every write since the last read failed outright, every cell is in one place, every command
runs once and in order, and a woken target delivers everything by itself. `Inserted.dfy` and `Deferred.dfy`
tie these to what callers asked for: the lists inserted, and the callback and argument of every evthr_defer
call, per thread and in call order. `SharedRing.dfy` says exactly
when one ring survives several enqueuers, and `Retirement.dfy` exactly when a freed ring is left alone.

**The incremental HTTP/1.x parser** (`msgparser.c`). `ParserSpec.dfy` gives the parser as a machine on
values: a step looks at the unconsumed bytes and either is stuck or consumes some. `Htparser.dfy` is the
parser in its own form, an object whose fields every function updates with the source's loops; each
method is proved against the machine, up to whole runs (`RunOn`) and a caller that runs, resumes and runs
again (`Present`). What the parser promises is proved of the machine: cutting the stream and pausing in
hooks never shows, exactly when no line sits on the edge of the line limit and no body hook fails inside
a piece (`Incremental.dfy`, `ParserRuns.dfy`); every hook trace follows the message grammar
(`ParserGrammar.dfy`); a run completes at most one message, last (`ParserOnce.dfy`); bodies are framed by
a rule about the head's facts alone (`ParserFraming.dfy`); and which heads are accepted depends on those
facts too, so the order of fields does not matter (`ParserAcceptance.dfy`). What the lines of a head mean is
stated on their texts, both ways: which lines are accepted, what is taken from them and what the hooks are told
(`StartLines.dfy`, `HeadTells.dfy`), and what is refused, with which error (`ParserRefusals.dfy`). Put together:
messages of any body kind, one after the other and cut anywhere, are read back whole (`MessageRead.dfy`).

**Replies and strings.** The chunked writer of `evhtp.c`, with the head it writes, and its round trip
through the parser under any cutting (`ChunkWriter.dfy`, `ChunkRoundTrip.dfy`, `ReplyRead.dfy`), the same for
ordinary replies (`PlainReply.dfy`), the HTTP/2 streaming reply against a session that
pulls, parks and resumes (`H2Stream.dfy`), the wildcard matcher (`Glob.dfy`), the query string machine
(`Query.dfy`, and `QueryEscapes.dfy` for checked escapes), and decimal and hexadecimal numbers both ways (`Numbers.dfy`, `numtoa.c`).

## How to read the model

- Hooks are a parameter: a verdict (go on, skip the body, fail) as a function of everything told so far,
  with adjacent body pieces joined, and a pause request as a function of the number of the hook call.
- The string library behind the parser (case-insensitive comparison, list elements, URI splitting) is a
  parameter, `Env`. What is proved holds for every such library.
- The environment's own choices are actions or arguments: which thread moves, whether a write fails,
  which address an allocation returns, when and how much the HTTP/2 session pulls.
- History variables (`order`, `batches`, `log`, `writes`, `put`, `got`, ...) are written by steps and
  never read by them.

## Where the code does not do what one would expect

- Cut between the CR and the LF of a line of exactly the allowed length, the parser counts the CR and
  refuses the line; presented whole, it accepts it. Where a body hook fails
  also depends on the pieces the body comes in, and the piece it fails at is not counted off
  `content_len`. `ParserRuns.SplitAndPauseInvariance` is an if-and-only-if on the absence of both, with
  the cuts that show them in `ParserRuns.EdgeStep`, `EarlyFailure` and `LateFailure`; a stream whose lines
  fit with their CR, and body hooks that go on, are a condition a caller can check
  (`ParserRuns.FittingStreamsSplit`).
- A chunk of 2^32 bytes or more is announced with its length cut to 32 bits;
  `ChunkRoundTrip.LongChunkMisread` is the exact limit.
- An eventfd write that fails with anything but EAGAIN leaves its command queued and the target asleep;
  `Channel.NoLostWakeup` is exact about it and `Channel.FailedWriteStrands` gives a run.
- A command names its sender's recycle ring, and whichever thread runs it enqueues there, so with several
  target threads a ring has several enqueuers. It stays right exactly as long as every write and publish
  passes a guard the code does not have (`SharedRing.SharedFifoExactly`). Two enqueuers past their checks
  at once always lose an item (`SharedRing.TwoAtOnceLoseOne`); taking turns is enough
  (`SharedRing.TakingTurnsIsSafe`); being refused together is harmless
  (`SharedRing.TwoRefusedLoseNothing`).
- evthr_free may free a ring while cells of that thread are still queued or running elsewhere, and the
  target then enqueues to it: exactly then (`Retirement.RetiredRingStaysEmptyExactly`).
- The query length check lets the length SIZE_MAX - 1 through, because adding two wraps to zero
  (`Query.TooLongIs`).
- A query's last piece with an empty key is dropped together with its value, an inner one is kept.
- A percent sign that begins no escape is kept, but a query is refused where the buffer it goes to already holds
  all of the query but at most three characters, for want of room that is there (`QueryEscapes.Refused`).
- Empty lines before a message are said to be skipped up to max_empty_line_count of them; the one that reaches
  that count fails the parser (`ParserRefusals.EmptyLinesSkipped`).
- An HTTP/1.1 reply to a multipart request is announced with Content-Length: 0 whatever its body, unless the
  application sets a length: exactly then the announced length is wrong (`PlainReply.LengthIsTrue`).

## Model

| member | source | states |
|---|---|---|
| MpscQueue.InitInv | include/evhtp/mpsc-queue.h:130-136 | a fresh queue with any number of idle producers meets the invariant |
| MpscQueue.NextInv | include/evhtp/mpsc-queue.h:94-210 | every atomic step of every producer and of the consumer keeps the invariant: chain from tail to head distinct and linked except where an insert in flight owes the link, nodes held by one producer each, FIFO history |
| MpscQueue.ProduceContents | include/evhtp/mpsc-queue.h:94-126 | only the head exchange changes the abstract queue, and adds its whole list at the back |
| MpscQueue.ConsumeContents | include/evhtp/mpsc-queue.h:164-210 | only the store that returns an item changes the abstract queue, and takes its first node |
| MpscQueue.Fifo | include/evhtp/mpsc-queue.h:94-210 | in every interleaving, what poll returned followed by what is queued is every inserted list, contiguous, in exchange order |
| Inserted.InsertsComeOutInOrder | include/evhtp/mpsc-queue.h:94-210 | in every run: what poll returned and what is queued are the exchanged lists one after the other, and of these a producer's own, followed by the one it has in hand, are exactly the lists it was called with, in call order |
| MpscQueue.PollAnswer | include/evhtp/mpsc-queue.h:164-210 | EMPTY only if the queue is empty at its head load, RETRY only if an insert was between exchange and link during the poll, and with none in flight ITEM exactly from a non-empty queue |
| MpscQueue.IsEmptyAnswer | include/evhtp/mpsc-queue.h:148-162 | the emptiness test is exact at its head load |
| MpscQueue.EmptyIffOnlyStub | include/evhtp/mpsc-queue.h:159-161 | the abstract queue is empty exactly when tail and head are both the stub |
| MpscQueue.HandedOutIsOwned | include/evhtp/mpsc-queue.h:189-207 | a node handed out is out of the chain, nobody's, and no insert in flight has it as `prev`, so it may be freed or inserted again at once |
| MpscQueue.StubGoesBackOnce | include/evhtp/mpsc-queue.h:195-200 | when poll re-inserts the stub, the stub is not in the chain |
| MpscQueue.TouchesOnlyLiveNodes | include/evhtp/mpsc-queue.h:94-210 | every node a step reads or writes is the stub, in the chain, or held by the acting producer |
| RingBuffer.StoredIsRest | include/evhtp/spsc_queue.h:56-101 | the slots between the indices, around the end of the buffer, are what was published and not yet taken, in order |
| SpscQueue.EnqStepOk | include/evhtp/spsc_queue.h:56-79 | whatever the dequeuer is doing, the enqueuer never overwrites an unread slot, publishes at the back, and refuses only when capacity - 1 items are in |
| SpscQueue.StartEnqOk | include/evhtp/spsc_queue.h:60-71 | a stale cached tail is only ever conservative: passing the cached check means there is room |
| SpscQueue.DeqStepOk | include/evhtp/spsc_queue.h:81-101 | whatever the enqueuer is doing, the dequeuer takes the oldest item, and says empty only when the ring is |
| SpscQueue.BoundedFifo | include/evhtp/spsc_queue.h:35-101 | every interleaving of one enqueuer and one dequeuer is a FIFO of at most capacity - 1 |
| SharedRing.SharedFifoExactly | include/evhtp/spsc_queue.h:56-101 | for any number of enqueuers, each load and store of head, cached tail, tail and slot a step of its own, and every run: what was taken and what is stored is what was put, at every moment, if and only if every slot write spares the unread slots and every publish finds the head where it was loaded, a free slot, and the slot as written |
| SharedRing.WriteExact | include/evhtp/spsc_queue.h:73-74 | a slot write keeps the FIFO exactly when it hits no unread slot or changes nothing |
| SharedRing.PublishExact | include/evhtp/spsc_queue.h:76-76 | a publish keeps the FIFO exactly when a compare-and-swap on the head would succeed, the ring is not full and the slot is intact |
| SharedRing.TakingTurnsIsSafe | include/evhtp/spsc_queue.h:56-79 | enqueuers of which no two are between head load and answer at once are as good as one |
| SharedRing.TwoAtOnceLoseOne | include/evhtp/spsc_queue.h:56-79 | from any ring in order and not full, two enqueuers past their checks both succeed in whatever order their stores fall, and exactly one item is lost |
| SharedRing.TwoRefusedLoseNothing | include/evhtp/spsc_queue.h:60-71 | at a full ring with its tail cached, every interleaving of two enqueuers up to their answers refuses both and leaves ring and history as they were |
| Bits.PowerOfTwoTest | include/evhtp/vspsc_queue.h:24-25 | c & (c - 1) is zero exactly for powers of two |
| MaskedQueue.MaskWraps | include/evhtp/vspsc_queue.h:48-65 | on a power-of-two capacity the mask wraps where the modulus does |
| MaskedQueue.InitAccepts | include/evhtp/vspsc_queue.h:19-35 | spsc_init accepts exactly the powers of two from 2 on and sets up an empty ring |
| MaskedQueue.PushStepOk | include/evhtp/vspsc_queue.h:44-54 | a push adds at the back, or refuses exactly with capacity - 1 items in |
| MaskedQueue.PopStepOk | include/evhtp/vspsc_queue.h:56-67 | a pop takes the oldest, or refuses exactly on an empty ring |
| MaskedQueue.BoundedFifo | include/evhtp/vspsc_queue.h:19-67 | the same bounded FIFO, for every capacity spsc_init accepts |
| CellFlow.MoveOnePlace | thread.c:118-131 | allocating, reusing, filling, submitting, taking, recycling, dropping and releasing a cell keep every cell in exactly one place |
| CellFlow.MoveFaithful | thread.c:118-131 | the same moves keep run + running + queued equal to the log of submissions, each command with its own cb and args |
| Channel.NextRefines | thread.c:107-252 | every atomic step of senders, target and ring drain is one allowed move of a cell, or none |
| Channel.NextInv | thread.c:107-252 | every step keeps the channel's invariant: queue, rings, cells, payloads and wakeups |
| Channel.NoLostWakeup | thread.c:118-164 | in every run, with the target outside its drain loop, commands queued and no sender between head exchange and eventfd write, the eventfd is readable exactly unless every write since the last read failed outright |
| Channel.WaitingMeansAllRun | thread.c:118-164 | so in every run, a target that waits on an eventfd that is not readable, with no sender still to write and not all writes failed, has run everything ever submitted |
| Channel.FailedWriteStrands | thread.c:242-251 | a run in which one failed write leaves a command queued and nobody to wake the target |
| Channel.CellsInOnePlace | thread.c:208-252 | at every moment of every run each allocated cell is in one sender's hand, the queue, the target, one ring, or freed |
| Retirement.CellsInLivePlaces | thread.c:461-505 | if every sender is freed with none of its cells queued or held by the target, no cell is ever in a freed ring |
| Channel.CommandsRunOnceInOrder | thread.c:118-131 | what ran, what is about to and what the queued cells hold are together the log of submissions, in exchange order |
| Deferred.CallsAreSubmitted | thread.c:208-241 | in every run every entry of the log has a submitter, and what a thread submitted, followed by what it has under way, is exactly what its evthr_defer calls asked for: callback, argument and home ring, each call once and in call order |
| Deferred.EveryCallHasRun | thread.c:107-252 | so with the target waiting on an eventfd that is not readable, nobody still to write and not all writes failed, what was run for a thread is exactly what its calls asked for |
| Deferred.AnswerMeans | thread.c:243-251 | OK exactly if the counter went up, RETRY exactly if it was full, FATAL exactly if the write failed; whatever the answer, everything the thread asked for is submitted |
| Deferred.NoCallbackIsRefused | thread.c:218-220 | a call without a callback is answered NOCB and changes nothing, any other is under way |
| Channel.DrainLeavesNothing | thread.c:492-500 | evthr_free's drain ends only with the ring empty |
| Retirement.RetiredRingStaysEmptyExactly | thread.c:492-500 | in every run, once a ring is drained and freed: no later run puts a cell into it if and only if no cell of its sender is queued or held by the target |
| Retirement.StaysEmpty | thread.c:118-131 | with none on its way, a retired ring is empty after every later run |
| Retirement.LinksRefill | thread.c:118-131 | with one on its way, inserts finish, somebody wakes the target, and the cell is enqueued to the retired ring |
| Retirement.NextHomes | thread.c:121-127 | a cell goes home only to the ring its own sender wrote into it |
| Channel.PollIsWaitFree | include/evhtp/mpsc-queue.h:164-210 | every step of a poll brings it nearer to its answer, whatever producers do |
| Channel.DrainDelivers | thread.c:107-135 | a draining target alone, with no insert in flight, runs everything submitted and goes back to waiting on an empty queue |
| Channel.WokenTargetDelivers | thread.c:137-164 | so a readable eventfd leads to everything run |
| Incremental.CutsShowExactlyEdges | msgparser.c:1001-1076 | for any sound incremental machine whose steps extend and are local: cuts and pauses cannot be seen if and only if no step of the whole stream is on an edge |
| Incremental.StreamsJoin | msgparser.c:1001-1076 | two streams off the edge are off it one after the other, and the second goes on where the first ended |
| Incremental.PauseInvariance | msgparser.c:1194-1196 | pausing in any hooks, each pause followed by a resume and another run, ends where never pausing ends |
| Incremental.RunKeeps | msgparser.c:1001-1076 | what every step keeps, every run keeps |
| ParserSpec.StepProgress | msgparser.c:1001-1076 | a step never uses more bytes than there are, uses some or goes down in rank, and adds what it uses to the total |
| ParserRuns.SplitAndPauseInvariance | msgparser.c:933-1076 | whatever lines mean: trace with body pieces joined, error, final state and leftover bytes are independent of cutting and pausing if and only if no line of largest length ends in CRLF and no body hook fails at part of a piece, or at a counted piece of two bytes or more |
| ParserRuns.ParserSplitInvariance | msgparser.c:1001-1076 | the same for the parser's own lines, from a fresh parser |
| ParserRuns.FittingIsEdgeFree | msgparser.c:181-209 | a stream of which every LF-terminated stretch, its CR counted, fits the limit has no such line, from any state, when body hooks go on |
| ParserRuns.FittingStreamsSplit | msgparser.c:1001-1076 | for such a stream no cut and no pause ever shows |
| ParserRuns.NoLimitFits | msgparser.c:181-209 | without a line limit every stream is such a stream |
| ParserRuns.EarlyFailure | msgparser.c:799-814 | a body hook that fails at part of a piece fails there when the stream is cut there, and later when it is not |
| ParserRuns.LateFailure | msgparser.c:857-872 | a body hook that fails at a whole counted piece leaves another content_len when the piece came in two |
| ParserRuns.EdgeStep | msgparser.c:181-209 | cut between the CR and the LF of such a line, the parser refuses it as too big and uses nothing |
| ParserRuns.TakeLineExtends | msgparser.c:181-209 | off the edge, more bytes never change what take_line found |
| ParserGrammar.StepAgrees | msgparser.c:787-999 | every step keeps the trace grammatical and the parser's state in agreement with where the trace stands |
| ParserGrammar.TracesAreGrammatical | msgparser.c:1001-1076 | every trace, under any stream, cutting, pausing, skipping and failing, is a prefix of the message grammar: ordered request-line hooks, paired keys and values, at most one hostname, counted bodies and chunks |
| ParserGrammar.CountedBodyIsWhole | msgparser.c:787-815 | in a grammatical trace, between the end of a head with Content-Length n and the message's end exactly n bytes were handed out, in however many pieces; none if the body was skipped |
| ParserGrammar.ChunkIsWhole | msgparser.c:817-895 | between a chunk's announcement and its end exactly its size was handed out |
| ParserGrammar.CompletedBodiesAreWhole | msgparser.c:787-903 | so in every trace of the parser, under any stream, cutting and pausing, completed bodies and chunks have exactly the announced length |
| ParserGrammar.EofAgrees | msgparser.c:1079-1089 | the end of the stream keeps the trace grammatical |
| ParserGrammar.EofCompletes | msgparser.c:1079-1089 | where the trace stands in a body that is read until close, the end of the stream tells the message complete and the parser is ready for another, or has failed with the user error exactly if that hook failed; everywhere else it changes nothing |
| ParserOnce.StepCompletes | msgparser.c:1051-1057 | only the step out of the complete state completes a message, and that hook is its only one |
| ParserOnce.RunCompletesOnce | msgparser.c:1001-1076 | a run completes at most one message, and then its hooks hear nothing more |
| ParserFraming.CodingsSaid | msgparser.c:551-583 | however codings are spread over fields, the flags say of the joined list whether it has chunked, chunked before its end, and unknown codings |
| ParserFraming.LengthsSaid | msgparser.c:606-633 | Content-Length values are accepted exactly when all are numbers and all agree |
| ParserFraming.HeadReflects | msgparser.c:636-727 | after any accepted field lines the parser's flags and length are exactly the facts the fields state: codings, lengths, close, keep-alive, and whether the first Content-Type is multipart |
| ParserFraming.FramingFollowsRule | msgparser.c:734-781 | framing is a rule about kind, skip, status, version, joined codings, lengths and keep-alive |
| ParserFraming.StartLineReflects | msgparser.c:482-534 | a start line says nothing about the body |
| ParserFraming.BlankLineFrames | msgparser.c:969-986 | the blank line refuses the message with an invalid header, or tells the hook the body and the length, as the rule says |
| ParserFraming.HeadIsFramedByRule | msgparser.c:636-781 | from the first byte of a message on, whatever start line and fields were accepted, the blank line does what the rule says of the status and version the start line is written with, the joined codings, the agreed lengths and keep-alive: chunked needs chunked once and last, a request may not have codings and lengths |
| ParserFraming.SwapSaysTheSame | msgparser.c:636-727 | fields change places without changing what the head says, unless both are Transfer-Encoding |
| ParserFraming.RepeatSaysTheSame | msgparser.c:636-727 | any field but Transfer-Encoding may be repeated |
| ParserFraming.FramingIgnoresOrder | msgparser.c:734-781 | two accepted heads that say the same are both refused at the blank line, or both told the same body and length |
| ParserAcceptance.NoteFieldAccepts | msgparser.c:606-633 | with hooks that go on, a field is refused exactly when it is a Content-Length whose elements are none, not numbers, or not the number said before |
| ParserAcceptance.HeadAccepted | msgparser.c:636-727 | within the header limit, field lines are all accepted if and only if each is a field and all lengths of all Content-Length fields are one number |
| ParserAcceptance.WholeHeadAccepted | msgparser.c:933-999 | the same for a whole head: the start line is accepted and the fields are, and no more is needed |
| ParserAcceptance.OrderDoesNotMatter | msgparser.c:636-781 | two heads that say the same are both accepted or neither, and if accepted both are refused at the blank line or both told the same body and length |
| StartLines.VersionRead | msgparser.c:277-292 | HTTP/ and two digits around a dot, the first not zero, is read as those two digits |
| StartLines.VersionIs | msgparser.c:277-292 | and nothing else is read as a version |
| StartLines.StatusLineRead | msgparser.c:510-534 | a version, a space, a code from 100 to 999 and perhaps a space and a reason is read as that version and code |
| StartLines.StatusLineIs | msgparser.c:510-534 | and no other line is accepted |
| StartLines.RequestLineRead | msgparser.c:417-507 | a known method, a good target and a version, with spaces between them, are taken: method, version and scheme, and the hooks told the method, then path, what follows the first question mark, and the whole target, or the parts the URI parser found, each with its own text |
| StartLines.RequestLineSays | msgparser.c:482-507 | an accepted request line is such a line, with that version |
| HeadTells.FieldRead | msgparser.c:636-663 | name, colon and a value with blanks around it is split into name and value |
| HeadTells.FieldIs | msgparser.c:636-663 | and no other line is |
| HeadTells.LineTold | msgparser.c:665-727 | an accepted field line tells its name and then its value, with the host between them for the first Host field of a head and never in trailers |
| HeadTells.WholeHeadTold | msgparser.c:417-727 | the trace of an accepted head is the message's beginning, the start line's texts, and each field's, in order, and nothing else |
| HeadTells.HeadKeepsAlive | msgparser.c:1161-1170 | after an accepted head the connection is kept exactly if no Connection field lists close, and the version written in the start line is 1.1 or later or some Connection field lists keep-alive |
| HeadTells.FieldNames | msgparser.c:672-720 | where the string library ignores the case of ASCII letters, the five fields the parser looks at are those of these names |
| HeadTells.WordsKnown | msgparser.c:540-603 | and codings, connection tokens and multipart are known by these words |
| ParserRefusals.LineTaken | msgparser.c:181-209 | the first line, ended by CRLF or LF, is taken without its ending exactly if its text is not longer than the limit |
| ParserRefusals.LineOrNot | msgparser.c:181-209 | a stream with an LF begins with such a line; one without is not complete, or too long already |
| ParserRefusals.HooksAreBlamedJustly | msgparser.c:157-170 | under any stream, cutting and pausing, the parser has failed with the user error exactly if the last hook it told failed |
| ParserRefusals.FailureHasItsError | msgparser.c:482-534 | every failure no hook caused has the error of its cause: the first wrong word of a start line, the limit that was passed, a bad field, chunk size or chunk end |
| ParserRefusals.ChunkEndTaken | msgparser.c:874-896 | CRLF or LF ends a chunk, one other byte is not enough to tell, anything else is refused and not used |
| ParserRefusals.TooManyFields | msgparser.c:987-993 | the first field beyond the limit fails the head as too big, whatever it says, and is not told |
| ParserRefusals.EmptyLinesSkipped | msgparser.c:1013-1025 | any number of empty lines before a message is skipped while their count stays below the limit; the one that reaches it fails the parser |
| MessageRead.MessagesAreRead | msgparser.c:1001-1089 | messages of any body kind one after the other, cut and paused anywhere: nothing left over, the body hooks handed exactly the bodies, each message told complete once, and a last one without a length exactly when the stream ends |
| MessageRead.NothingCarriesOver | msgparser.c:911-928 | a message begins with a fresh parser, but for what was told and read before |
| Htparsers.FindByte | msgparser.c:181-209 | the search finds the first occurrence |
| Htparsers.NextLine | msgparser.c:181-209 | take_line: the first complete line without CRLF or LF, not yet complete, or too long |
| Htparsers.TakeToken | msgparser.c:248-274 | next_token: the next space-separated token and the rest |
| Htparsers.MethodFrom | msgparser.c:232-244 | the table search finds exactly the known methods |
| Htparsers.Trim | msgparser.c:652-663 | the two loops drop the blanks around a value |
| Htparsers.Htparser.constructor | msgparser.c:1122-1134 | a new parser is the machine's fresh state |
| Htparsers.Htparser.FailWith | msgparser.c:157-163 | fail: error and error state, nothing else |
| Htparsers.Htparser.MessageReset | msgparser.c:911-928 | message_reset: message state forgotten; totals, pause and hooks' memory kept |
| Htparsers.Htparser.Hook | msgparser.c:165-170 | one hook call: told, counted, and its pause, skip or failure taken up |
| Htparsers.Htparser.EmitTarget | msgparser.c:417-480 | the hooks of a request target, in order, or a refusal |
| Htparsers.Htparser.ParseRequestLine | msgparser.c:482-507 | a request line is the machine's |
| Htparsers.Htparser.ParseStatusLine | msgparser.c:510-534 | a status line is the machine's |
| Htparsers.Htparser.NoteTransferEncoding | msgparser.c:551-583 | the loop over codings folds them into the flags |
| Htparsers.Htparser.NoteConnection | msgparser.c:586-603 | the loop over connection tokens folds them into the flags |
| Htparsers.Htparser.NoteLength | msgparser.c:606-633 | the loop over lengths takes one agreed number or refuses |
| Htparsers.Htparser.ParseHeader | msgparser.c:636-727 | a field line is the machine's, trailers unread |
| Htparsers.Htparser.FrameBody | msgparser.c:734-781 | framing is the machine's |
| Htparsers.Htparser.ParsePiece | msgparser.c:796-815 | counted and read-until-close bytes: handed out, counted down without underflow |
| Htparsers.Htparser.ParseSizeLine | msgparser.c:821-855 | a chunk-size line opens a chunk or the trailers, or is refused, or is not complete |
| Htparsers.Htparser.ParseChunkEnd | msgparser.c:874-896 | the end of a chunk is an empty line, or refused, or not complete |
| Htparsers.Htparser.ParseBody | msgparser.c:787-903 | parse_body is one step of the machine |
| Htparsers.Htparser.ParseHead | msgparser.c:933-999 | parse_head takes lines as the machine does for as long as there are complete ones |
| Htparsers.Htparser.RunOn | msgparser.c:1001-1076 | htparser_run is exactly a run of the machine: same state, bytes, hook calls and pause; terminates; returns at most len; total_bytes_read grows by what it returns; a paused parser does nothing |
| Htparsers.Htparser.RunEof | msgparser.c:1079-1089 | htparser_run_eof completes a read-until-close body and nothing else |
| Htparsers.Htparser.KeepsAlive | msgparser.c:1161-1170 | htparser_should_keep_alive is the rule HeadKeepsAlive is about |
| Htparsers.Htparser.Resume | msgparser.c:1195-1195 | resuming clears the pause |
| Htparsers.Htparser.SetSkipBody | msgparser.c:1200-1200 | asking to skip the body sets that flag only |
| Htparsers.Htparser.Present | msgparser.c:1001-1076 | a caller that runs, resumes and runs again drives the machine until nothing can be done |
| Htparsers.Htparser.PresentAll | msgparser.c:1001-1076 | a caller that presents each unused tail again before the next piece feeds the machine; if the lines fit and body hooks go on, the object ends as if the stream had come at once |
| Numbers.ReadU64 | msgparser.c:295-319 | accepts exactly non-empty digit strings below 2^64, with their value |
| Numbers.ReadChunkSize | msgparser.c:331-368 | accepts exactly 1 to 15 hexadecimal digits and a well-formed extension, with their value |
| Numbers.HexValueIs | msgparser.c:321-328 | a hexadecimal digit has its place among the sixteen, in either case, and nothing else is one |
| Numbers.SizeRead | msgparser.c:331-368 | 1 to 15 hexadecimal digits, then blanks, then nothing or an extension after a semicolon, are read as the number of the digits |
| Numbers.SizeIs | msgparser.c:331-368 | and no other line is read as a chunk size |
| Numbers.ReadExtension | msgparser.c:331-368 | blanks, then nothing or an extension |
| Numbers.ReverseInPlace | numtoa.c:19-26 | the part between the pointers is reversed in place, the rest untouched |
| Numbers.U64ToA | numtoa.c:28-43 | prints the decimal numeral, at most 20 digits, NUL-terminated, nothing written beyond |
| Numbers.PrintedReadsBack | numtoa.c:28-43 | what is printed is read back as the same number exactly if it is below 2^64 |
| Numbers.ReadPrintsBack | msgparser.c:295-319 | what was read is printed back, up to leading zeros |
| Numbers.U64NumeralLength | numtoa.c:28-43 | a 64-bit number has at most 20 digits |
| ChunkWriter.Reply.constructor | evhtp.c:2361-2381 | a reply with a body already buffered |
| ChunkWriter.Reply.ChunkStart | evhtp.c:4561-4637 | a reply is chunked exactly if its peer speaks HTTP/1.0 or 1.1 and it is neither to HEAD, nor 1xx, 204 or 304, nor a 200 to CONNECT; then it loses its first Content-Length field, gains Transfer-Encoding: chunked and what every reply gains, and sends head and buffered bytes as the first chunk; otherwise it gains no Transfer-Encoding and sends head and bytes as they are |
| ChunkWriter.Reply.RemoveLength | evhtp.c:4577-4599 | the first Content-Length field goes, if there is one, and no other |
| ChunkWriter.FindField | evhtp.c:4018-4029 | finds the first field of that name, exactly if there is one |
| ChunkWriter.MatchKey | evhtp.c:3848-3864 | names of one length that agree character by character when bit 0x20 is set |
| ChunkWriter.Reply.AddFields | evhtp.c:2379-2446 | the fields a reply gains: Content-Length of what is buffered unless chunked, multipart or already there, what the protocol asks for, and a content type if it had none |
| ChunkWriter.Reply.AddConnection | evhtp.c:2408-2440 | Connection: close for a closing 1.1 peer, keep-alive for a keeping 1.0 peer, and an empty 1.1 reply that is not chunked gets its zero length |
| ChunkWriter.Reply.WriteHead | evhtp.c:2448-2482 | status line, one line per field in order, and the blank line |
| ChunkWriter.FieldsGained | evhtp.c:2379-2446 | a reply keeps all its fields and gains a length, a connection field and a type by these rules, and nothing else |
| ChunkWriter.NamedSent | evhtp.c:2379-2446 | so its fields of each of these names are those it was given and what it gained |
| ChunkWriter.CodingsSent | evhtp.c:4610-4612 | the codings it names are those it was given, and chunked last if it is chunked |
| ChunkWriter.Reply.SendReply | evhtp.c:4528-4559 | an ordinary reply is its head and its body |
| PlainReply.PlainReplyIsRead | evhtp.c:2361-2489 | an ordinary reply without codings or length of its own, cut and paused anywhere, is read back: its body, complete once, by itself where the peer speaks HTTP/1.1 or there is a body, else at the end of the stream at the latest |
| PlainReply.LengthIsTrue | evhtp.c:2389-2426 | the length an HTTP/1.1 peer is told, where the application told none, is the body's exactly unless the request was multipart and there is a body |
| PlainReply.KeyIgnoresCase | evhtp.c:3848-3864 | among names of letters and hyphens a field is found by its name in either case |
| ChunkWriter.Reply.Chunk | evhtp.c:4639-4669 | a non-empty buffer becomes one chunk, an empty one nothing |
| ChunkWriter.Reply.ChunkEnd | evhtp.c:4671-4680 | the last chunk ends a chunked reply |
| ChunkWriter.Send | evhtp.c:4561-4680 | a whole reply begun so is its head, a chunk per non-empty buffer and the last chunk, or head and buffers as they are |
| ChunkRoundTrip.ChunkedRoundTrip | evhtp.c:4609-4680 | buffers below 2^32 bytes are read back by the parser, under any cutting and pausing, as one new-chunk / body / chunk-complete per non-empty buffer with its bytes, then one completion and nothing left over |
| ChunkRoundTrip.ReplyRoundTrip | evhtp.c:4571-4680 | the same for a whole reply as it is sent, from a fresh parser and cut anywhere, for every head the parser takes to its first chunk size |
| ChunkRoundTrip.BodyReadBack | evhtp.c:4609-4680 | the body read back is the buffers concatenated |
| ReplyRead.StatusRead | evhtp.c:2455-2480 | a status line as it is sent is read as the code it was sent with and the request's version, or 1.0 where that is not known |
| ReplyRead.HeadRead | evhtp.c:2361-2489 | the head a reply writes is read by the parser to its end, stopping at the first chunk size, for every list of well-formed fields that fit the limits and announce chunked once and last |
| ReplyRead.HeadIsTaken | evhtp.c:2361-2489 | and no line of it is on the edge of the line limit, which is what the round trip asks of a head |
| ReplyRead.SentFieldsAnnounce | evhtp.c:4571-4637 | the fields chunk start sends announce chunked once and last, whatever well-formed fields without codings were given |
| ReplyRead.SentReplyIsRead | evhtp.c:4571-4680 | so a reply as it is written, head and all, cut anywhere and with any pauses, is read back by a fresh parser to the end of the message with nothing left over, its body the buffers one after the other |
| ChunkRoundTrip.SizeLineIsTrue | evhtp.c:4657-4660 | the size line states the buffer's length exactly below 2^32 |
| ChunkRoundTrip.LongChunkMisread | evhtp.c:4657-4660 | the parser is told the true size if and only if it is below 2^32 |
| H2Stream.H2Reply.constructor | evhtp.c:6552-6573 | a request with some bytes in buffer_out and no response yet |
| H2Stream.H2Reply.SendReplyStart | evhtp.c:6552-6584 | a response the session takes attaches the stream; any other attempt changes nothing and returns -1 |
| H2Stream.H2Reply.SendReplyBody | evhtp.c:6586-6601 | body is appended and the stream resumed, only between start and end |
| H2Stream.H2Reply.SendReplyEnd | evhtp.c:6603-6615 | the end is noted and a started stream resumed |
| H2Stream.H2Reply.ReadCallback | evhtp.c:6508-6539 | a pull is deferred, or answered with the next bytes, at most what was asked, and the end exactly when finished and drained |
| H2Stream.H2Reply.SessionPull | evhtp.c:6508-6539 | a pull by the session is the pull of the machine: a stream that defers is parked, one that says so is ended, the frame goes out |
| H2Stream.H2Reply.Resume | evhtp.c:6541-6550 | only a parked stream is woken |
| H2Stream.EveryRun | evhtp.c:6508-6615 | over every run of calls and pulls, frames plus buffer_out are exactly the accepted bytes in order, frames form a stream, an ended stream sent everything after the end, a parked one has nothing to send and no end to announce |
| H2Stream.EofOnceAndLast | evhtp.c:6533-6536 | the end of the stream is on one frame, the last, after the end call, with everything sent |
| H2Stream.EndedStays | evhtp.c:6508-6615 | after that nothing changes |
| H2Stream.NeverStalls | evhtp.c:6524-6527 | a started, unended stream waits to be pulled, or is parked with everything given sent and no end called |
| H2Stream.EndDelivers | evhtp.c:6603-6615 | after the end, pulls of any positive lengths, one more than bytes waiting, send everything and end the stream |
| Glob.MatchesIsMeaning | evhtp.c:863-873 | matching character by character is the existence of texts for the stars |
| Glob.StarTries | evhtp.c:889-899 | after collapsing, the empty tail never needs to be tried |
| Glob.StarsCollapse | evhtp.c:880-883 | a run of stars means one star |
| Glob.GlobMatch | evhtp.c:874-929 | for NUL-free C strings the matcher accepts exactly what the pattern means, reads inside both strings and terminates |
| Query.ParseIsReading | evhtp.c:4190-4447 | whenever escapes are not looked at, for every other flag: the result, errors included, is the reading of the pieces between separators, each split at its first equals sign |
| Query.LenientParse | evhtp.c:4190-4447 | with the lenient flags it never fails: one entry per piece, no equals sign gives NULL, and only a last piece with an empty key is dropped |
| Query.PiecesCutTheQuery | evhtp.c:4266-4292 | pieces have no separators and, joined by the separators between them, are the query |
| Query.StrictReadsWellEscaped | evhtp.c:4299-4401 | a query whose escapes are all well formed is read the same when they are checked |
| QueryEscapes.StrictParse | evhtp.c:4299-4401 | where escapes are checked, for all other flags: the query is refused exactly if some unit is, an escape whose second digit is none or a stray percent sign without room, or if its reading is; otherwise it is read by its units, of which only a single character separates or is an equals sign, a stray percent sign and an escape cut off at the end standing for themselves |
| QueryEscapes.UnitsOfIs | evhtp.c:4299-4401 | every query is a sequence of units |
| QueryEscapes.UnitsAreUnique | evhtp.c:4299-4401 | in exactly one way |
| Query.TooLongIs | evhtp.c:4200-4202 | the length check refuses exactly the lengths whose double and two do not fit size_t, but lets SIZE_MAX - 1 through |
| Query.ParseQuery | evhtp.c:4190-4447 | the loop over key and value buffers of len + 1, for all flags, is the machine, with every index in bounds |

## Left out

- Weak memory: the C11 atomics are taken as sequentially consistent steps.
- Channel: one target thread, so one enqueuer for each recycle ring; several are the matter of SharedRing, on the ring alone.
- Channel: allocation failure in evthr_defer, NULL thread or callback, thread start and stop, and the pool's choice of a worker.
- Channel.WokenTargetDelivers: assumes no insert is between its exchange and its link, since a sender that stops there for ever does hold up the queue.
- MpscQueue: mpsc_queue_pop, push_front, tail and next.
- Htparsers.Htparser.RunOn: total_bytes_read is unbounded and does not wrap at 2^64.
- Htparsers.Htparser.EmitTarget: URI splitting and case-insensitive comparison are parameters, not modelled.
- ParserRuns.SplitAndPauseInvariance: body hooks that ask to skip the body are excluded, since the source takes that request up to the end of the head only (msgparser.c:1198-1200).
- ParserRuns.ParserSplitInvariance: the same exclusion.
- Retirement.RetiredRingStaysEmptyExactly: a ring of one slot, which takes nothing, and a channel whose senders are all gone and whose last writes all failed, where nothing moves, are excluded.
- ParserSpec: setters that rewrite method, version, status or content length from a hook, and the accessors but htparser_should_keep_alive.
- ChunkWriter.Reply.ChunkStart: the reason phrase is an argument, version numbers have one digit, and the scratch buffer the head is built in is a value.
- ReplyRead.SentFieldsAnnounce: fields that name codings themselves, names with blanks around them or a colon, and line feeds in fields are excluded; the code writes them out unchecked.
- ParserAcceptance.OrderDoesNotMatter: hooks that fail or skip by what they were told in which order are excluded; ParserFraming.FramingIgnoresOrder has any hooks.
- ChunkWriter: a chunked call on an HTTP/2 connection, which goes to the streaming reply instead.
- MessageRead.MessagesAreRead: hooks that fail or skip, lines at the line limit and trailers are excluded; the results on traces, splitting and refusals have them.
- PlainReply.PlainReplyIsRead: replies whose application set a length or a coding of its own are excluded; ParserFraming.HeadIsFramedByRule says what is made of those.
- H2Stream: nghttp2 frames, flow-control windows, stream reset and the freeing of the request; a session takes at most one response for a stream.
- H2Stream: the non-streaming HTTP/2 reply.
- Query.ParseQuery: the early check of the indices against len never fires and is shown as the bound it checks; the fragment flag is not used by the code.
- The old parser.c, TLS, sockets, virtual hosts, request routing beyond the matcher, and memory allocation.
