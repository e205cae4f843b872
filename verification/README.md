# Verified models of the voice-conversation runtime

The runtime listens, decides when to speak, streams replies and plays them. Its hard parts are small state
machines and stream transformers that must give the same answer however their input is cut and however their
tasks interleave. This project models thirteen of them in Dafny and proves what they promise, for every input and
every run. `dafny verify dfyconfig.toml` checks everything.

An object whose methods update its fields is a class with those fields. Each of its methods is proved equal to a
step function on the value of those fields, and the results about whole runs are lemmas about the step functions.
Code that waits is cut at its awaits: each stretch between two awaits is one step, and steps of different calls
interleave in any order.

What a step function computes is told a second time without it: byte by byte, position by position, or event by event
from what went in. The lemmas that say so mostly end in `Exactly`, and the main results are stated in those terms.

| file | component |
|---|---|
| `Multipart.dfy`, `MultipartHeaders.dfy` | the Content-Length framed multipart parser of streaming synthesis responses (a subset of the syntax in section 5.1 of RFC 2046) |
| `SpeechExecutor.dfy`, `OrderText.dfy` | stop, replace and append against in-flight synthesis; splitting an order's text |
| `Vad.dfy` | the speech segmenter with its pre-roll |
| `WsControl.dfy` | request, acknowledgement and orders over one shared socket |
| `PartialLane.dfy` | the bounded drop-oldest lane of partial transcriptions |
| `Followups.dfy`, `FirstSentence.dfy` | background follow-up orders; streaming the first sentence of a reply |
| `Pressures.dfy`, `Gates.dfy` | four pressure models feeding the fire gate and the emission gate |
| `Prompt.dfy` | the prompt printer and the chat-message parser |
| `Transcript.dfy` | the overlap-replacing transcript assembler, stream and batch |
| `Session.dfy` | session boundaries in memory and in the table |
| `AppendDedupe.dfy` | normalisation, the append-dedupe scorer and its guard |
| `Initiative.dfy` | the leaky integrator behind initiative |
| `Dto.dfy` | serialising typed records and back |
| `Text.dfy`, `Wrappers.dfy` | Python string operations; option and result types |

## What the proofs found

Where a promise is false of the code, the code is modelled as it is, the exact condition is proved and an input shows
the failure.

- Multipart: a negative content length that reaches back past the start of the buffer makes the slices count from
  the buffer's end, so the cuts decide the outcome: exactly for such lengths, decision by decision
  (`StableExactlyWhenReaching`) and stream by stream (`CutsMatterExactly`).
- Speech executor: an order can stay current with nothing in flight, and then only a stop, or without in-flight
  protection a replace, starts anything again. `WedgesExactly`, `RevivesExactly` and `WedgedRunsExactly` say when.
  Where playback goes on outside the executor that is meant; where the synthesis was lost it is not (`LostRunsExactly`,
  and `AbandonedOrderIsLost` for a concrete run).
- WS control: a call cancelled from outside while its acknowledgement is unread leaves it on the socket, and the next
  call can return the cancelled request's orders, exactly between calls of one order-carrying kind without cached
  materials to send (`CancellationLeaksExactly`).
- Prompt: a turn or an utterance with a line break, or an utterance that is empty or ends in white space, does not come
  back (`RoundTrip`), except that an utterance of several lines one of which is a context's heading may
  (`HeadedUtteranceComesBack`).
- Partial lane: an item submitted and invalidated before the runner resumes leaves the idle flag cleared until
  something else is processed (`InvalidatedAtOnceStrands`, `StrandedStaysCleared`); `IdleExactly` in the invariant
  says exactly when the flag is right.
- First sentence: what is spoken of a reply that starts with white space and has an ending depends on the chunking
  (`ChunkingIsIgnoredExactly`), some chunking loses the first character of its sentence (`FirstCharacterIsLost`), and
  `TextExactly` gives the text for each.
- DTO: naive times, dictionaries holding more than plain JSON, and excluded fields that differ from their defaults
  do not come back (`RoundTrip`).

## Model

| member | source | states |
|---|---|---|
| `MultipartHeaders.ParseMultipartHeaders` | server/hot_path/model_executor.py:291-298 | the header loop gives the map of the header lines, a later line winning, or raises on a non-ASCII header or a line without a colon |
| `MultipartHeaders.JoinOfLines` | server/hot_path/model_executor.py:293-293 | every header block is cut into lines without CR LF that join to it again |
| `MultipartHeaders.LinesOfJoin` | server/hot_path/model_executor.py:293-293 | and it is cut in no other way: joined lines come apart as they were |
| `MultipartHeaders.HeadersExactly` | server/hot_path/model_executor.py:291-298 | for lines with colons the map holds exactly the names before the first colons with their ASCII capitals lowered, and under each the text behind the colon of the last line with that name, without the white space around it |
| `MultipartHeaders.TrimsExactly` | server/hot_path/model_executor.py:297-297 | stripping takes off the white space on both sides and nothing else |
| `MultipartHeaders.DigitsExactly` | server/hot_path/model_executor.py:279-279 | a text of digits with single underscores between them is read as the value of its digits, any other is not read |
| `MultipartHeaders.ReadsExactly` | server/hot_path/model_executor.py:279-297 | a stripped value is an integer exactly when it is such a text with an optional sign, and then that one |
| `MultipartHeaders.LengthExactly` | server/hot_path/model_executor.py:277-298 | for any header lines: non-ASCII is raised first, then a line without a colon, then a missing length exactly when no line is named `content-length` in any letter case, and a length is read exactly when the last such line holds that integer |
| `MultipartHeaders.AnnounceExactly` | server/hot_path/model_executor.py:277-298 | lines that announce n bytes, told byte by byte, are exactly those whose joined header gives n |
| `Multipart.StepStable` | server/hot_path/model_executor.py:266-285 | a decision taken on a partial buffer (part, close, raise) is not changed by bytes that arrive later, when the announced length does not reach back past the start of the buffer |
| `Multipart.StableExactlyWhenReaching` | server/hot_path/model_executor.py:278-285 | that holds for every continuation if and only if the announced length does not reach back past the start of the buffer |
| `Multipart.PastTheStart` | server/hot_path/model_executor.py:278-285 | otherwise two continuations of the same buffer give a part and an error |
| `Multipart.DrainExtends` | server/hot_path/model_executor.py:262-288 | under that condition, parsing a longer buffer is parsing the shorter one and then going on from what it left |
| `Multipart.FeedTwice` | server/hot_path/model_executor.py:252-254 | under that condition, two consecutive feeds are one feed of the joined bytes: parts, leftover, closed flag and the error if any |
| `Multipart.FeedAllIsFeed` | server/hot_path/model_executor.py:252-254 | the same for any number of feeds, from any state of the parser |
| `Multipart.ChunkingIndependence` | server/hot_path/model_executor.py:252-288 | for any stream without such a length (every non-negative one is fine) and any cut of it, the outcome is that of one feed of the whole stream: parts, leftover and closed flag, or the error |
| `Multipart.CompletionIgnoresChunking` | server/hot_path/model_executor.py:217-227 | feeding such a response and finishing gives the same parts or the same error for every cut |
| `Multipart.BrokenStaysBroken` | server/hot_path/model_executor.py:262-288 | whatever is fed after a call that raised, the same error is raised again |
| `Multipart.ExactAcceptance` | server/hot_path/model_executor.py:256-288 | for non-negative lengths, completing gives bodies `bodies` if and only if the bytes are whole parts with those bodies - boundary line, header lines that announce the body byte by byte, blank line, body, CR LF - or those and then the closing delimiter and anything |
| `Multipart.AcceptedStreams` | server/hot_path/model_executor.py:256-288 | an accepted stream parses to its bodies with no assumption about lengths |
| `Multipart.RoundTrip` | server/hot_path/model_executor.py:245-288 | any list of bodies, even ones holding the delimiter or a blank line, comes back from any cut of its encoding under any header lines around the one with the length, its name in any letter case and its value behind blanks, with or without a closing delimiter and an epilogue |
| `Multipart.CutsMatterExactly` | server/hot_path/model_executor.py:252-288 | stream by stream: cutting behind a stream never matters, whatever follows, if and only if no header met in it announces a length that reaches back past the start of the buffer |
| `Multipart.CutsMatterForNegativeLengths` | server/hot_path/model_executor.py:279-285 | for every boundary there is a stream that parses in one feed and raises when cut |
| `Multipart.MultipartMixedParser.constructor` | server/hot_path/model_executor.py:246-250 | a new parser holds nothing and is open |
| `Multipart.MultipartMixedParser.Feed` | server/hot_path/model_executor.py:252-254 | extends the buffer and parses: result and new state are those of the feed function |
| `Multipart.MultipartMixedParser.Finish` | server/hot_path/model_executor.py:256-260 | parses once more and raises when bytes are left over and the parser is not closed |
| `Multipart.MultipartMixedParser.ParseAvailable` | server/hot_path/model_executor.py:262-288 | the loop terminates and takes every part the buffer holds; on an error the buffer keeps the bytes from the bad part on |
| `Multipart.IterChunks` | server/hot_path/model_executor.py:217-227 | the streaming loop over a response is feeding every piece and finishing |
| `SpeechExecutor.StepKeepsInv` | server/hot_path/speech_executor.py:47-155 | every step of every call keeps the safety invariant |
| `SpeechExecutor.EveryRunIsSafe` | server/hot_path/speech_executor.py:47-155 | in every interleaving at most one in-flight synthesis has the current generation, an order is current while one does, and each synthesis, suspended or ended, keeps a prefix of complete chunks of what its backend yielded, kept plus discarded being the total |
| `SpeechExecutor.EveryReportIsPrefix` | server/hot_path/speech_executor.py:121-155 | the report of every finished call: its audio is a prefix of what its backend yielded, only the last chunk marked final, and audio plus discarded is the total |
| `SpeechExecutor.CompleteWavExactly` | server/hot_path/model_executor.py:301-302 | a complete chunk has at least twelve bytes, the letters RIFF in front and WAVE at offset eight |
| `SpeechExecutor.StaleCallsAreFrozen` | server/hot_path/speech_executor.py:122-155 | a call of an older generation keeps what it has, counts everything that still arrives as discarded, and reports exactly what it had kept |
| `SpeechExecutor.NothingKeptAfterStop` | server/hot_path/speech_executor.py:88-107 | once a stop or a replace has been processed, no call suspended before it keeps another chunk, however the run goes on |
| `SpeechExecutor.GenerationCounts` | server/hot_path/speech_executor.py:47-107 | the generation counts exactly the stops, the bare changes and the executed replaces |
| `SpeechExecutor.NothingScoresNothing` | server/hot_path/speech_executor.py:94-143 | in every run the score is zero while no order is current |
| `SpeechExecutor.WedgesExactly` | server/hot_path/speech_executor.py:67-143 | the steps that leave an order current with nothing in flight, exactly: an incomplete chunk or a cancellation of the current call, its end while another order is current, a bare change of generation with an order current, external playback begun with none |
| `SpeechExecutor.RevivesExactly` | server/hot_path/speech_executor.py:59-92 | the steps that end that state, exactly: a stop, and without in-flight protection a replace |
| `SpeechExecutor.WedgedRunsExactly` | server/hot_path/speech_executor.py:47-155 | a run ends wedged if and only if some step of it wedged the executor and nothing since revived it |
| `SpeechExecutor.LosesExactly` | server/hot_path/speech_executor.py:94-155 | telling playback outside from a lost synthesis by who set the current order: the steps that lose the current order's synthesis, exactly, and those that end the loss |
| `SpeechExecutor.LostRunsExactly` | server/hot_path/speech_executor.py:47-155 | in every run an order is current exactly while playback outside or a synthesis owns it, wedged is one or the other, and a run ends with a lost synthesis if and only if some step lost it and nothing since ended the loss |
| `SpeechExecutor.AbandonedOrderIsLost` | server/hot_path/speech_executor.py:112-143 | a concrete run from a new protected executor: execute, then the call is cancelled; every further order but a stop is then answered as queued |
| `SpeechExecutor.WedgedUntilRevived` | server/hot_path/speech_executor.py:67-92 | until something revives it a wedged executor, protected or not, starts no synthesis and its queue gains exactly the append orders, in order |
| `SpeechExecutor.RevivingForgetsTheQueue` | server/hot_path/speech_executor.py:59-92 | reviving empties the queue and starts at most the reviving order, so append orders that waited are never synthesised |
| `SpeechExecutor.SpeechOrderExecutor.constructor` | server/hot_path/speech_executor.py:35-42 | nothing current, nothing queued, generation zero |
| `SpeechExecutor.SpeechOrderExecutor.ReplaceGeneration` | server/hot_path/speech_executor.py:98-100 | only the generation changes, by one |
| `SpeechExecutor.SpeechOrderExecutor.StopPlayback` | server/hot_path/speech_executor.py:102-107 | generation up by one, no current order, score zero, queue empty |
| `SpeechExecutor.SpeechOrderExecutor.BeginExternalPlayback` | server/hot_path/speech_executor.py:94-96 | the given order and score become current |
| `SpeechExecutor.SpeechOrderExecutor.ExecuteStream` | server/hot_path/speech_executor.py:47-92 | stop, queue, refuse or start, up to the first await, with the reply each gives |
| `SpeechExecutor.SpeechOrderExecutor.OnYield` | server/hot_path/speech_executor.py:124-138 | a stale chunk is counted, an incomplete one raises, any other is kept and emitted |
| `SpeechExecutor.SpeechOrderExecutor.OnEndOfStream` | server/hot_path/speech_executor.py:139-155 | the report of a finished call, and the current order cleared when it is still that call's |
| `OrderText.PiecesAreSplit` | server/hot_path/speech_executor.py:158-179 | the raw pieces join to the text, and each but the last ends as soon as it is complete: behind one of 。！？!?, or behind 、 or , once it has 16 characters |
| `OrderText.SplitIsUnique` | server/hot_path/speech_executor.py:158-179 | a text has only one such split |
| `OrderText.SplitSpeechOrderText` | server/hot_path/speech_executor.py:158-179 | the loop returns the stripped non-empty pieces of that split |
| `OrderText.SplittingPromise` | server/hot_path/speech_executor.py:158-179 | for any text: only white space is lost, order is kept, every segment is a stripped piece with something in it, no sentence ending stands before a segment's last character, and the result is empty exactly for blank text |
| `Vad.VADProcessor.constructor` | server/audio/vad.py:15-23 | an idle segmenter |
| `Vad.VADProcessor.Reset` | server/audio/vad.py:25-29 | back to idle |
| `Vad.VADProcessor.ProcessChunk` | server/audio/vad.py:31-66 | new state and emitted segment of one chunk |
| `Vad.VADProcessor.TrimPreRoll` | server/audio/vad.py:68-70 | the popleft loop removes the entries too old |
| `Vad.VADProcessor.FinishSegment` | server/audio/vad.py:72-88 | the joined samples of the open segment, from its first chunk's time to now, and an idle segmenter with a trimmed pre-roll |
| `Vad.DequeIsEnough` | server/audio/vad.py:40-70 | the trimmed deque holds every idle chunk that a segment starting later could retain, over a whole run |
| `Vad.DequeIsRecent` | server/audio/vad.py:54-70 | and no more: after every call but a silent one inside a segment all in it is at most `pre_roll_ms` old, in time order |
| `Vad.SegmentsExact` | server/audio/vad.py:31-88 | at strictly increasing times, every segment, the open one included, is exactly the idle chunks of the last `pre_roll_ms` and the unbroken run of chunks from its first speech chunk on |
| `Vad.SegmentInOrder` | server/audio/vad.py:31-88 | the chunks of a segment are in time order |
| `Vad.EveryChunkAccountedFor` | server/audio/vad.py:31-88 | conservation: a speech chunk, or a silent one inside a segment, is in exactly one segment, the closing silent chunk in none, an idle chunk in exactly those that start within `pre_roll_ms` of it |
| `Vad.RolesExactly` | server/audio/vad.py:44-66 | the part each call plays, told from the calls alone: it ends a segment exactly when it is not speech, no earlier call ended it, and its effective silence has passed since the end of the last speech chunk |
| `Vad.SamplesEndToEnd` | server/audio/vad.py:76-78 | the joined samples hold sample i of chunk j at the sum of the lengths of the chunks before it plus i, and nothing else |
| `Vad.SegmentExactly` | server/audio/vad.py:31-88 | for every run and every call: a segment is returned exactly when the call ends one, and it holds, end to end and in time order, the chunks from the first speech chunk to the call before and the idle ones of the last `pre_roll_ms`, from the first of these to this call |
| `Vad.StartsSpaced` | server/audio/vad.py:31-66 | segments start further apart than the smallest effective silence |
| `Vad.PreRollBound` | server/audio/vad.py:31-88 | an idle chunk heard k times satisfies (k - 1) * silence < pre_roll_ms |
| `Vad.HeardAtMost` | server/audio/vad.py:18-19 | at most twice with the defaults 400 and 500, never twice when silence covers the pre-roll |
| `Vad.ClockIncreases` | server/hot_path/audio_conversation.py:129-146 | the audio clock hands non-empty chunks over at strictly increasing times |
| `WsControl.ExchangeIsOwn` | server/hot_path/ws_control.py:404-409 | an expected acknowledgement can only be received when nothing older was unread, so it is the one the peer gave to the request just sent, and what is unread then is the rest of that answer |
| `WsControl.OperateIsOwn` | server/hot_path/ws_control.py:121-211 | an operation that returns leaves no unread acknowledgement and returns orders of its own request as the peer sent them |
| `WsControl.OwnOrder` | server/hot_path/ws_control.py:156-168 | of each returned order: it is a stop exactly when its event in the answer is a `cancel_order`, and a valid one; the orders follow the events, and none before it is left out |
| `WsControl.PollIsExact` | server/hot_path/ws_control.py:324-336 | a poll that returns has exactly the announced number of orders, the first events of the answer, all of them speech orders |
| `WsControl.WithReconnectIsOwn` | server/hot_path/ws_control.py:380-402 | the same with one more attempt on a new socket after a closed connection; unless it was cancelled, a call leaves no unread acknowledgement |
| `WsControl.EveryReplyIsOwn` | server/hot_path/ws_control.py:106-336 | in every run, whatever is lost, late, closed or malformed, as long as no earlier call was cancelled from outside, the orders a call returns are all those of the first events of the answer to a request that very call sent, in the peer's order, each a stop exactly when the peer said so; a poll cancelled once runs on under its shield, a second cancellation reaches it |
| `WsControl.PromptNetworkDeliversAll` | server/hot_path/ws_control.py:121-365 | a client with an empty socket or none, with or without cached materials: on a network that delivers, any mix of speech orders, stop orders and events to skip arrives as it was sent, in order and as many as are announced, with the peer's word on what is pending |
| `WsControl.FieldsAfter` | server/hot_path/ws_control.py:60-336 | what each public call does to the fields: a reply to an observation or a poll says whether work is pending, a reset forgets the materials, nothing else touches either; a reply says what its acknowledgement said, and a malformed acknowledgement gives none |
| `WsControl.CancelledSend` | server/hot_path/ws_control.py:121-132 | a cancelled send may have gone out, and then its whole answer is left unread |
| `WsControl.WithReconnectCancelled` | server/hot_path/ws_control.py:380-395 | what a call cancelled at any await leaves: the socket as it is, with at most one unread acknowledgement, of a kind the call was waiting for |
| `WsControl.CallOwing` | server/hot_path/ws_control.py:121-365 | such a socket is harmless to a call that sends materials first, waits for another kind or carries no orders: the orders it returns are its own |
| `WsControl.LeakingScriptLeaks` | server/hot_path/ws_control.py:106-150 | for every client, on a given script, the next call of the same order-carrying kind without materials returns the cancelled request's order |
| `WsControl.CancellationLeaksExactly` | server/hot_path/ws_control.py:106-395 | for every client without unread acknowledgements: after a call cancelled from outside some behaviour of network and peer makes the next call return foreign orders if and only if both are of one kind, the kind carries orders and the next one does not send cached materials first |
| `WsControl.RemoteTomokoWsCore.constructor` | server/hot_path/ws_control.py:51-58 | no socket, no materials, nothing pending |
| `WsControl.RemoteTomokoWsCore.SendRequest` | server/hot_path/ws_control.py:126-132 | a send numbers the request and marks the answer the peer will give, or finds the connection closed |
| `WsControl.RemoteTomokoWsCore.Receive` | server/hot_path/ws_control.py:404-409 | a receive gives the next unread message, times out or finds the connection closed |
| `WsControl.RemoteTomokoWsCore.RequestAndAck` | server/hot_path/ws_control.py:404-409 | a request and its expected acknowledgement, anything else being an error |
| `WsControl.RemoteTomokoWsCore.SendLatest` | server/hot_path/ws_control.py:338-365 | materials and playback state, each acknowledged, when there are materials |
| `WsControl.RemoteTomokoWsCore.CollectOrders` | server/hot_path/ws_control.py:136-170 | the receive loop: until the announced count, or the first order when none is announced; a timeout ends it |
| `WsControl.RemoteTomokoWsCore.CollectExactly` | server/hot_path/ws_control.py:324-336 | the poll's loop: exactly the announced count of speech orders |
| `WsControl.RemoteTomokoWsCore.HandleWs` | server/hot_path/ws_control.py:121-304 | an operation on a connected socket |
| `WsControl.RemoteTomokoWsCore.EnsureConnected` | server/hot_path/ws_control.py:372-378 | the present socket, or a new one whose banner has been read |
| `WsControl.RemoteTomokoWsCore.DropWs` | server/hot_path/ws_control.py:397-402 | the socket and all that was unread on it are gone |
| `WsControl.RemoteTomokoWsCore.RunWithReconnect` | server/hot_path/ws_control.py:380-395 | at most two attempts, the socket dropped after a failure |
| `WsControl.RemoteTomokoWsCore.Call` | server/hot_path/ws_control.py:106-119 | one public call with its effect on the fields |
| `Pressures.RiskMono` | server/tomoko/pressures.py:32-36 | a better moment never raises the interruption risk |
| `Pressures.DialogueMono` | server/tomoko/pressures.py:19-56 | nor lowers reply readiness or turn opportunity |
| `Pressures.NaturalMono` | server/tomoko/pressures.py:61-81 | nor lowers any natural-speech desire or naturalness |
| `Pressures.MotivationMono` | server/tomoko/pressures.py:86-134 | nor lowers initiative or the threshold shift, leaving push and restraint alone |
| `Pressures.WorldMono` | server/tomoko/pressures.py:139-193 | nor lowers deliverability, leaving importance and urgency alone |
| `Pressures.DialogueMoves` | server/tomoko/pressures.py:19-46 | how far saturation, text, turn and risk each move the readiness, for any two moments |
| `Pressures.SilentTurn` | server/tomoko/pressures.py:28-37 | without speech there is no risk; the turn is fully open at 1200 ms of silence or full yielding |
| `Pressures.SpokenTurn` | server/tomoko/pressures.py:32-37 | speech is a risk in proportion to its probability and to how little the user yields, and closes the turn |
| `Pressures.NaturalExactly` | server/tomoko/pressures.py:61-81 | naturalness and the desires, each a part of the moment that is open |
| `Pressures.MotivationMoves` | server/tomoko/pressures.py:86-134 | how far materials, personality and conversation each move initiative and push |
| `Pressures.ShiftExactly` | server/tomoko/pressures.py:115-124 | the threshold shift, never negative and never above 0.22 |
| `Pressures.ContinuityExactly` | server/tomoko/pressures.py:207-223 | nothing in common, all in common, or the shared part of all topic characters of the text and the last six turns |
| `Pressures.NobodyThere` | server/tomoko/pressures.py:176-193 | an absent user quiets the world |
| `Pressures.ImportanceExactly` | server/tomoko/pressures.py:147-157 | importance is the largest material, within its bounds |
| `Pressures.WorldExactly` | server/tomoko/pressures.py:158-171 | the weights of urgency, and what keeps delivery down |
| `Gates.FireScoreMono` | server/tomoko/gates.py:36-80 | the fire score follows every pressure in the direction its weights promise |
| `Gates.DecideFireMono` | server/tomoko/gates.py:82-105 | for any thresholds a higher score or shift never lowers the decision |
| `Gates.FireIsMonotone` | server/tomoko/gates.py:36-105 | end to end: more silence, yielding or saturation, or less speech, pushed through all four models, never lowers DO_NOT_FIRE < FIRE < CANCEL_OR_REPLACE_PENDING |
| `Gates.EmissionScoreMono` | server/tomoko/gates.py:127-168 | the emission score rises with the pressures and the candidate, and the risk falls |
| `Gates.DecideEmissionMono` | server/tomoko/gates.py:170-210 | a higher score or shift and a lower risk never lower (HOLD or SUPPRESS) < APPEND < (EMIT_NOW or REPLACE), and neither cause nor prevent a stop |
| `Gates.EmissionIsMonotone` | server/tomoko/gates.py:127-210 | end to end for a fixed candidate and current score |
| `Gates.PipelineIsMonotone` | server/tomoko/conversation.py:944-969 | end to end with the candidate's priority and confidence made from the same materials |
| `Gates.FireScoreExactly` | server/tomoko/gates.py:47-72 | the fire score is the largest of five grounds that suffice alone and their weighted sum |
| `Gates.WeightsOfFire` | server/tomoko/gates.py:47-60 | how far each pressure moves the weighted sum, for any two pressures |
| `Gates.WeightsOfEmission` | server/tomoko/gates.py:139-155 | how far each field of candidate, situation and pressure moves the emission score, for any two inputs |
| `Gates.RiskExactly` | server/tomoko/gates.py:133-139 | the risk is the larger of the dialogue's and of the unyielding speech heard now |
| `Gates.FireExactly` | server/tomoko/gates.py:82-105 | when each of the three fire decisions is taken, exactly, for any thresholds |
| `Gates.EmissionExactly` | server/tomoko/gates.py:170-210 | when each of the six emission decisions is taken, exactly, for any thresholds: emit and suppress only with nothing playing, replace and append only with something playing |
| `Gates.DefaultFire` | server/tomoko/gates.py:16-105 | the same with the default thresholds, whose floors are never reached |
| `Gates.DefaultEmission` | server/tomoko/gates.py:22-210 | the same with the default thresholds, whose floors are never reached; what is loud enough to be appended is not drowned |
| `Gates.FinalTextIsSpoken` | server/tomoko/gates.py:127-210 | a final text, the user not speaking and nothing playing, is emitted at once when 0.56 of its saturation makes up for 0.235, restraint, rejection and fatigue |
| `Gates.SpokenExactly` | server/tomoko/gates.py:127-210 | and where nothing else presses it is emitted exactly then, and suppressed otherwise |
| `Gates.DefaultBrackets` | server/tomoko/gates.py:82-105 | with the default thresholds motivation moves a decision only inside a bracket: 0.62 always fires, below 0.4 never, replacing needs pending work and 0.69 |
| `Gates.FinalTextFires` | server/tomoko/gates.py:36-105 | a final text with saturation 0.47, the user not speaking, always fires |
| `Prompt.SessionTranscriptMessages` | server/llm/chat.py:94-122 | the message loop and the rewriting of the last entry |
| `Prompt.SystemSection` | server/llm/chat.py:134-140 | the header comes back stripped, though it may contain the system marker |
| `Prompt.InstructionSection` | server/llm/chat.py:134-140 | the instruction comes back unchanged |
| `Prompt.TranscriptSection` | server/tomoko/prompt.py:198-200 | what follows the transcript's heading comes back, whatever it is |
| `Prompt.ContextsSplit` | server/tomoko/prompt.py:203-214 | transcript, runtime context and recall come apart as they were put together, though utterances contain the markers |
| `Prompt.TranscriptStripped` | server/tomoko/prompt.py:135-147 | stripping the transcript touches its last line only |
| `Prompt.TurnsParsed` | server/llm/chat.py:110-118 | single-line turns come back one message a turn; a blank utterance gives none |
| `Prompt.ParsedTurnsAreSingle` | server/llm/chat.py:110-118 | whatever the prompt, no turn before the last holds a line break |
| `Prompt.ParsedOver` | server/llm/chat.py:94-122 | what the parser makes of any transcript without a line that starts with a context's heading |
| `Prompt.RoundTrip` | server/tomoko/prompt.py:44-78 | with a header free of the later markers, tidy contexts and an utterance that is a single line or has no line starting with a context's heading, parsing the built prompt gives one system message, one message a turn with tomoko as assistant, and the utterance with the contexts behind a blank line, each under its heading - all spelled out from the snapshot - if and only if neither a turn nor the utterance breaks a line and the utterance is not empty and does not end in white space |
| `Prompt.TurnMessagesAre` | server/tomoko/prompt.py:140-147 | the turns are the history when there is any, and otherwise what the user last said |
| `Prompt.AppendedIs` | server/llm/chat.py:119-131 | the contexts behind the utterance: a blank line, the runtime context under its heading, the recall under its own, each only when there is any |
| `Prompt.RuntimeIs` | server/tomoko/prompt.py:118-133 | the runtime context is the lines of the summaries, of the calendar unless the utterance asks for the time, and of the status |
| `Prompt.RecallIs` | server/tomoko/prompt.py:158-163 | the recall is the lines of the active candidates in their order, and of no others |
| `Prompt.ClockExactly` | server/tomoko/prompt.py:16-18 | an utterance asks for the time when it says so in Japanese, or in English in any letter case |
| `Prompt.PromptPrinted` | server/tomoko/prompt.py:44-78 | the text of the prompt, section by section |
| `Text.StripExactly` | server/llm/chat.py:134-140 | stripping takes off the white space on both sides and nothing else |
| `Text.FirstLine` | server/llm/chat.py:110-110 | how `splitlines` takes the first line off: a carriage return and a line feed together are one break, and a break at the end starts no further line |
| `Prompt.SystemIs` | server/llm/chat.py:101-109 | the system message is the two sections on lines of their own, or the one that is not blank |
| `Prompt.WithoutInstruction` | server/llm/chat.py:97-109 | in a prompt without an instruction heading all that follows the system heading becomes the system message |
| `Prompt.HeadedUtteranceComesBack` | server/tomoko/prompt.py:203-214 | the remaining utterances can come back: one line, then a runtime heading and a body, with empty contexts, is taken for a context and appended as one |
| `Prompt.PlainSnapshotRoundTrip` | server/tomoko/prompt.py:118-168 | the same, on the same utterances, for every snapshot whose context texts are single lines not ending in white space |
| `Prompt.DefaultHeaderIsClean` | server/tomoko/prompt.py:21-28 | the default header is free of the markers |
| `Prompt.InstructionIsClean` | server/tomoko/prompt.py:32-37 | the main-reply instruction is trimmed and free of the markers |
| `PartialLane.StepKeepsInv` | server/hot_path/app.py:319-381 | every step keeps the bound, the counts, conservation, the order of results and the exact idle flag |
| `PartialLane.TakeNeverSkips` | server/hot_path/app.py:348-381 | coalescing drops nothing and the generation check before the call never fails |
| `PartialLane.EveryRunIsSafe` | server/hot_path/app.py:301-381 | in every interleaving the queue keeps its bound and holds only the current generation; unfinished is its length plus one if busy; the submissions are, in order, those processed, discarded by an invalidation or dropped as oldest, then those queued; each call gets the joined samples of one batch; results come in call order; idle is exact up to stranding |
| `PartialLane.IdleMeansIdle` | server/hot_path/app.py:344-361 | idle implies empty, not busy and nothing unfinished |
| `PartialLane.NothingOldAfterInvalidate` | server/hot_path/app.py:330-361 | after an invalidation no result of an older generation is enqueued, the call in flight included |
| `PartialLane.GenerationCounts` | server/hot_path/app.py:330-331 | the generation counts the invalidations |
| `PartialLane.SamplesEndToEnd` | server/hot_path/app.py:363-381 | the joined samples of a batch hold each entry's samples at the sum of the lengths before it, and nothing else |
| `PartialLane.NothingAfterDeath` | server/hot_path/app.py:339-361 | once the runner is cancelled, or its call raises, nothing is handed over or enqueued any more |
| `PartialLane.StrandedStaysCleared` | server/hot_path/app.py:330-361 | a stranded idle flag stays cleared until some processing ends |
| `PartialLane.InvalidatedAtOnceStrands` | server/hot_path/app.py:319-337 | submitting and invalidating before the runner resumes strands the flag, from any idle lane |
| `PartialLane.AudioPartialLane.constructor` | server/hot_path/app.py:302-317 | an empty, idle lane |
| `PartialLane.AudioPartialLane.Submit` | server/hot_path/app.py:319-328 | clears idle and queues the item, dropping the oldest when full |
| `PartialLane.AudioPartialLane.Invalidate` | server/hot_path/app.py:330-337 | the draining loop empties the queue and marks everything in it done |
| `PartialLane.AudioPartialLane.Resume` | server/hot_path/app.py:348-381 | takes the first item, coalesces the rest in a loop and hands the samples over |
| `PartialLane.AudioPartialLane.Complete` | server/hot_path/app.py:355-361 | enqueues the result of a still current generation, marks it done, sets idle when empty |
| `PartialLane.AudioPartialLane.Die` | server/hot_path/app.py:339-361 | a cancelled or failed runner marks its item done and stops |
| `Followups.EveryRunIsSafe` | server/tomoko/conversation.py:1290-1389 | in every interleaving at most one uncancelled background task is live, and every appended order is, in order, in exactly one poll's answer, cleared by one cancellation, or pending |
| `Followups.PollerMissesNothing` | server/hot_path/app.py:477-510 | once a poll says nothing is at work, no order appears before the next turn, so the poller may stop |
| `Followups.HasWorkExactly` | server/tomoko/conversation.py:1374-1389 | there is pending work exactly when the next poll would return an order or promise one |
| `Followups.StartedIsDelivered` | server/tomoko/conversation.py:1290-1389 | a task that a reply or a sense request starts is at work, and every poll says so, until it returns, and then the next poll has its text, whatever interleaves short of a cancellation |
| `Followups.WorkEnds` | server/tomoko/conversation.py:1338-1389 | once that task has ended, with a text or without, nothing is at work |
| `Followups.NothingOldAfterCancel` | server/tomoko/conversation.py:852-853 | nothing pending or in progress when a STOP order is created (or any reply, sense request or acknowledgement cancels) is polled at any later time |
| `Followups.ConversationCore.constructor` | server/tomoko/conversation.py:265-269 | no task, nothing pending |
| `Followups.ConversationCore.CancelReplyContinuation` | server/tomoko/conversation.py:1366-1372 | both tasks cancelled unless done, both fields cleared, pending orders cleared |
| `Followups.ConversationCore.StopTurn` | server/tomoko/conversation.py:852-880 | what a STOP does to the lane |
| `Followups.ConversationCore.ReplyTurn` | server/tomoko/conversation.py:1009-1017 | what a final reply does: cancel, then continue in the background |
| `Followups.ConversationCore.SenseTurn` | server/tomoko/conversation.py:1391-1432 | what a sense request does: cancel, then run it in the background |
| `Followups.ConversationCore.AppendCalendarFollowup` | server/tomoko/conversation.py:599-604 | a reconciled final appends the calendar's order |
| `Followups.ConversationCore.Finish` | server/tomoko/conversation.py:1323-1338 | a finished task appends one order with its stripped text, or none when blank |
| `Followups.ConversationCore.PollFollowupOrders` | server/tomoko/conversation.py:1382-1389 | returns and clears the pending orders and says whether a task is at work |
| `FirstSentence.CollectFirstSentence` | server/tomoko/conversation.py:1242-1288 | the loop over the deltas, its events, tail and what it leaves unread |
| `FirstSentence.ConsumeContinuation` | server/tomoko/conversation.py:1309-1326 | the follow-up text is the stripped tail and rest of the stream |
| `FirstSentence.RestIsConserved` | server/tomoko/conversation.py:1242-1288 | for every reply and chunking, tail and unread stream are exactly the reply behind its first sentence |
| `FirstSentence.ChunkingIsIgnoredExactly` | server/tomoko/conversation.py:1242-1288 | every chunking makes the same reply order, after the stripping the core does, if and only if the reply has no ending or does not start with white space; the text is then the reply up to its first ending |
| `FirstSentence.AtOnce` | server/tomoko/conversation.py:1260-1266 | a reply that arrives at once loses only white space |
| `FirstSentence.FirstCharacterIsLost` | server/tomoko/conversation.py:1260-1266 | cut behind its first character, every reply with an ending that starts with white space loses the first other character of its first sentence |
| `FirstSentence.TextExactly` | server/tomoko/conversation.py:1255-1288 | the text for every chunking of every reply with an ending: all before the delta in which the sentence ends, then the stripped sentence from that position on |
| `FirstSentence.TextAtExactly` | server/tomoko/conversation.py:1260-1266 | that text, position by position |
| `FirstSentence.NothingEmptyIsEmitted` | server/tomoko/conversation.py:1255-1288 | no emitted delta is empty |
| `FirstSentence.WholeReplyIsSpoken` | server/tomoko/conversation.py:1242-1326 | emitted text, tail and unread stream are the whole reply, and reply order plus follow-up order hold every character that is not white space, in order |
| `Transcript.CollectTranscript` | scripts/apple_speech_stt/AppleSpeechSTT.swift:161-180 | the batch loop: joined text of the sorted kept segments |
| `Transcript.TrimExactly` | scripts/apple_speech_stt/AppleSpeechSTT.swift:51-55 | trimming takes off white space and line breaks on both sides and nothing else |
| `Transcript.AcceptedExactly` | scripts/apple_speech_stt/AppleSpeechSTT.swift:51-55 | a result is accepted when there is anything in it to say |
| `Transcript.OverlapsExactly` | scripts/apple_speech_stt/AppleSpeechSTT.swift:83-85 | two segments of positive length overlap when some moment lies inside both |
| `Transcript.StreamIsBatch` | scripts/apple_speech_stt/AppleSpeechSTT.swift:79-87 | the stream's list is at all times the batch's list, sorted, for any intervals |
| `Transcript.KeptExactly` | scripts/apple_speech_stt/AppleSpeechSTT.swift:79-87 | a segment is kept exactly when no later accepted segment overlaps it |
| `Transcript.SortedAndDisjoint` | scripts/apple_speech_stt/AppleSpeechSTT.swift:79-87 | for intervals of positive length the kept list is always sorted and pairwise disjoint |
| `Transcript.TextsEndToEnd` | scripts/apple_speech_stt/AppleSpeechSTT.swift:89-91 | the combined text holds each segment's text at the sum of the lengths before it, and nothing else |
| `Transcript.StreamSaysTheBatch` | scripts/apple_speech_stt/AppleSpeechSTT.swift:51-77 | however partial and final results interleave, the last line of a kind is the batch text of that kind's results, and no line repeats the one before |
| `Transcript.StreamEmitter.constructor` | scripts/apple_speech_stt/AppleSpeechSTT.swift:40-49 | nothing kept, nothing written |
| `Transcript.StreamEmitter.Accept` | scripts/apple_speech_stt/AppleSpeechSTT.swift:51-77 | one result: segments, last text and line written, empty trimmed text skipped |
| `Session.SessionBoundaryModel.constructor` | server/tomoko/session.py:17-21 | no session open |
| `Session.SessionBoundaryModel.ObserveUtterance` | server/tomoko/session.py:23-39 | new state and answer of one utterance |
| `Session.SessionTable.constructor` | server/tomoko/db_worker.py:199-207 | a table with any history |
| `Session.SessionTable.SelectOpen` | server/tomoko/db_worker.py:206-215 | the latest open row by activity, then creation |
| `Session.SessionTable.AssignConversationSession` | server/tomoko/db_worker.py:199-271 | insert, close and insert, or touch |
| `Session.SessionsAreMaximalRuns` | server/tomoko/session.py:28-39 | two utterances have the same session number exactly when no gap between them reaches the limit |
| `Session.MemoryNumbers` | server/tomoko/session.py:23-39 | the machine gives the n-th session the n-th id it draws and remembers the last time |
| `Session.TableHoldsSessions` | server/tomoko/db_worker.py:199-271 | the table is its history and exactly one row a session, with start, last activity, end and reason |
| `Session.LatestExactly` | server/tomoko/db_worker.py:206-215 | of the open rows the one active last is taken, and of several such ones the one created last |
| `Session.IdsStayDistinct` | server/tomoko/db_bridge.py:70-133 | no id is ever in two rows, whatever ids are drawn |
| `Session.BothFormsAgree` | server/tomoko/db_worker.py:199-271 | starting with no open row, both forms split any utterances into the same sessions, the maximal runs of gaps below the limit, whatever ids they draw |
| `Session.AtMostOneOpen` | server/tomoko/db_bridge.py:70-133 | at most one row is open, the last, it is the machine's session, and no row of the history changes |
| `AppendDedupe.CompactRemovesAll` | make-model/make_model/append_dedupe.py:387-388 | compacting removes every punctuation mark and nothing else; stripping first changes nothing |
| `AppendDedupe.NormalizeForAppendDedupe` | make-model/make_model/append_dedupe.py:375-384 | the passes over the fillers end in the normal form |
| `AppendDedupe.OneApplies` | make-model/make_model/append_dedupe.py:32-32 | at most one filler applies at a time |
| `AppendDedupe.OrderDoesNotMatter` | make-model/make_model/append_dedupe.py:375-384 | every order of taking fillers off until none applies ends in the same text |
| `AppendDedupe.AWayOff` | make-model/make_model/append_dedupe.py:375-384 | and there is such an order, the one the passes take |
| `AppendDedupe.FillerComesOff` | make-model/make_model/append_dedupe.py:381-381 | a filler stays in front of one character and comes off in front of two |
| `AppendDedupe.NormalizeIsIdempotent` | make-model/make_model/append_dedupe.py:375-388 | normalising gives a suffix of the compacted text without a removable filler, empty only for punctuation alone, and is idempotent |
| `AppendDedupe.HeuristicExactly` | make-model/make_model/append_dedupe.py:301-336 | how much each fact counts in the three heuristic scores, in hundredths |
| `AppendDedupe.AdjustedExactly` | make-model/make_model/append_dedupe.py:399-413 | what repetition, correction and a continued vague text do to the scores; what no cue touches stays |
| `AppendDedupe.CuesLower` | make-model/make_model/append_dedupe.py:399-413 | after the adjustments a correction scores below its new intent, a continuation of a vague text below its continuation |
| `AppendDedupe.BestExactly` | make-model/make_model/append_dedupe.py:145-145 | the verdict is the greatest score; of equal ones duplicate goes before continuation and that before new intent |
| `AppendDedupe.ProtectedIsNeverDuplicate` | make-model/make_model/append_dedupe.py:132-152 | for every weight vector, bias and heuristic weight such a text is never labelled duplicate, so no guard suppresses it |
| `AppendDedupe.SuppressionExactly` | server/tomoko/append_dedupe.py:54-101 | a guard may suppress, under some weights, exactly when the text is not protected, comes in time and tomoko is speaking or about to |
| `AppendDedupe.SuppressedScores` | server/tomoko/append_dedupe.py:77-84 | what is suppressed scores high enough as a duplicate and low enough as anything else |
| `AppendDedupe.RepetitionScoresHigh` | make-model/make_model/append_dedupe.py:399-413 | an unprotected repetition scores at least 0.92 whatever the weights |
| `Initiative.InitiativeMotivationModel.constructor` | server/initiative.py:16-31 | the given rate, threshold and pressures |
| `Initiative.InitiativeMotivationModel.Update` | server/initiative.py:33-54 | the loop moves every pressure toward its target; fires exactly when speakability reaches the threshold |
| `Initiative.LeakBetween` | server/initiative.py:44-45 | an update ends between the old pressure and its target |
| `Initiative.SpeakabilityMoves` | server/initiative.py:46-53 | four pressures speak for an initiative, two against it, two do not count |
| `Initiative.EveryRunIsBounded` | server/initiative.py:33-54 | with inputs in [0, 1] every pressure stays in [0, 1] over every run |
| `Initiative.PressureClosedForm` | server/initiative.py:44-45 | under constant inputs each pressure after n ticks |
| `Initiative.TicksAreARun` | server/initiative.py:44-45 | the ticks of the closed form are a run of the same inputs |
| `Initiative.SpeakabilityClosedForm` | server/initiative.py:44-53 | speakability after n ticks is S* + (1 - alpha)^n (S0 - S*) |
| `Initiative.FiresForeverExactly` | server/initiative.py:33-54 | there is a tick after which it always fires if and only if S* is above the threshold, or equal to it with S0 not below or alpha one |
| `Initiative.NeverFires` | server/initiative.py:33-54 | with S0 and S* both below the threshold it never fires |
| `Dto.PlainExactly` | server/shared/models.py:22-41 | plain JSON is exactly what serialising leaves as it is |
| `Dto.LookupField` | server/shared/models.py:93-98 | `to_dict` holds each field under its name, the excluded ones not at all |
| `Dto.NaiveReturnsAsUtc` | server/shared/models.py:64-66 | a naive time comes back as that time in UTC |
| `Dto.RecordExactly` | server/shared/models.py:100-113 | a record read has one value a field, from its entry or its default |
| `Dto.ItemsReturn` | server/shared/models.py:77-84 | a list comes back exactly when each of its items does |
| `Dto.FieldsReturn` | server/shared/models.py:100-113 | a record's fields come back exactly when each does, or is excluded and equal to its default |
| `Dto.RoundTrip` | server/shared/models.py:22-113 | a well-typed value comes back through nested records, optionals, tuples, lists, enums, UUIDs and bytes if and only if its times are aware, its dictionaries hold only plain JSON and its excluded fields hold their defaults |

## Left out

- Rounding of floats: scores and times are reals. Silence grows per call in the turn-material aggregator, which is not
  part of this model.
- Sockets, HTTP, subprocesses, the database driver and the model backends: they are the sequences they yield, such as
  deltas, chunks, results or network signals. `server/tomoko/scheduler.py`, `server/tomoko/semantic.py` and
  `server/tomoko/sense.py` are not part of this model; what they decide arrives as events or arbitrary values.
- The 4300-digit limit on an integer literal, and reading the boundary parameter out of a content type.
- Playing the append queue: the code only fills and clears it, and a protected replace is reported as queued without
  being stored, so nothing is said about either being played. The backend stream of a call is the joined stream of its
  text segments.
- A stream that swallows a cancellation: a cancelled background coroutine only unwinds, as both of them do.
- Prompt.RoundTrip: does not say which utterances of several lines with a context's heading among them come back; some
  do.
- Followups.PollerMissesNothing: does not model the poller's limit of 350 polls, after which what is pending stays so.
- WsControl.EveryReplyIsOwn: does not model `aclose` during a call, only between calls, nor a cancellation while a dropped
  socket is being closed; payload fields are kept only where the client reads them.
- Reason strings, score breakdowns and log events of the gates and the executor.
- Sorting the calendar (it is given sorted), the initiative prompt, and the identifiers and priorities of a prompt
  request.
- Elapsed times and the JSON form of a transcript line; Swift's sort is taken to be stable, as it is documented.
- Session.BothFormsAgree: does not model several workers on one table at a time, nor the gate that decides whether an
  observation gets a session.
- The numerics behind the append-dedupe scores: hashing, n-grams, the dot product, the ridge fit and the sequence matcher
  are arbitrary reals, so what is proved holds for all of them.
- The text forms of UUIDs and times, and base64: they are arbitrary conversions that undo each other. Equality tells an
  enum member from its text, which Python's string enums do not; a payload of the wrong shape raises, where Python would
  iterate over the characters of a string; a dataclass outside the DTO base class does not occur among the fields.
- Easy members: the holding state machine, obedience arbitration, the follow-up queue's helpers, environment parsing, SQL
  text, metrics and logging.
