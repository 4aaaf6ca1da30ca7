# SparkRoute: a verified model

SparkRoute is a gateway in front of language-model providers. A client speaks one protocol
(OpenAI-style Chat Completions); the gateway chooses a provider, translates the request,
translates the answer back, event by event when it streams, and retries on another target
when an attempt fails before anything was sent.

This project models the parts of the gateway where a mistake is hardest to see, and proves what
they promise:

- **Streaming translators** (`AnthropicStream`, `GeminiStream`, `BedrockStream` and the
  modules around them). Each is an event-driven state machine. Every successful stream is a word of one
  output language: role, then text and tool chunks with tool indexes 0, 1, 2, ..., one finish
  reason, the usage chunk exactly when asked for, and one `[DONE]` at the very end. A client
  that assembles an Anthropic or Bedrock stream gets what the buffered translator makes of the same
  message, under conditions that are proved exact; a Gemini candidate may be cut into events
  anywhere without changing the result.
- **Hot swap of runtime generations** (`RuntimeGenerations`). A transition system over the
  individual atomic operations of any number of threads. A generation's close runs at most once, none leaks, and
  the acquire loop is bounded by the number of swaps.
- **The attempt loop** (`AttemptDiscipline`, `AttemptLoop`). Whatever the outside answers,
  every lease is handed back exactly once, every attempt is recorded once, and nothing starts
  after the last one.
- **Messages to providers** (`ChatTurns`, `ChatMessages`, `ChatWriting`, `GeminiMessages`,
  `GeminiIdentities`, `GeminiRecovery`, `GeminiEchoes`, `ChatTargets`). Roles alternate and the translated request
  determines the conversation; for Gemini, exactly when the conversation is unambiguous. Messages that
  Gemini takes can move to Anthropic.
- **Request profiles and policies** (`ProfileParameters`, `ProfilePointers`, `ProfileResolution`,
  `ProfileValidation`, `DocumentResolution`, `PolicyInheritance`). The algebra of merging and removing
  parameters, precedence, what validation makes of merged parameters, stability of resolution, and
  inheritance along parents with cycle detection.
- **Framing and canonical forms** (`SseEvents`, `EventStream`, `SigV4`). Chunk-independent
  event delivery, a round trip on AWS event-stream frames, and the canonical URI and query of AWS
  Signature Version 4.
- **The endpoint registry** (`EndpointRegistry`, `EndpointCursors`, `EndpointWalks`). Cursor paging over a
  table that changes between pages, down to the bytes of a cursor.

`JsonValues`, `Options`, `Bytes`, `Sorting`, `ChatChunks`, `LetterOrder`, `Placement` and `Pieces` hold shared definitions.
`dafny verify dfyconfig.toml` checks everything.

Code that only computes is written as functions; objects with mutable fields are classes
(`AnthropicTranslator.Translator`, `GeminiTranslator.Translator`, `BedrockStream.Translator`, `AttemptLoop.Handler`,
`EndpointRegistry.Memory`), and loops are methods, each proved equal to a specification
function about which the theorems are stated. What the code takes from outside
(JSON text, checksums, data URLs, clocks, providers' answers) is a parameter that may be anything.

## Properties that do not hold

Some properties one would expect are false of the code. Each has a concrete instance and a
condition.

- *A generation is never closed while held.* It can be: `CloseWhileHeldIsReachable` gives the
  schedule. It is held at its close if and only if a `release` reached zero, another thread then acquired and
  has not released since, the generation was then retired, and the first thread loaded the flag after that
  (`CloseWhileHeldExactly`). `retire` itself never closes a held generation.
- *A streamed Anthropic or Bedrock text equals the buffered one.* Not when deltas of two text blocks
  cross (`AnthropicCrossing.CrossingDeltasDiffer`, `BedrockCrossing.CrossingDeltasDiffer`). Whatever the deltas say, the texts
  agree if and only if no non-empty delta is for a text block before one that already has text
  (`AnthropicOrder.TextOrderExactly`, `BedrockOrder.TextOrderExactly`). Blocks that do not overlap
  (`NonOverlappingInOrder`) and deltas in order of index (`AscendingInOrder`) are such cases. Here blocks are in the order in
  which they began; if the message has them in order of index instead, the texts agree if and only if the non-empty
  deltas come in order of index (`AnthropicIndexes.IndexOrderExactly`, `BedrockIndexes.IndexOrderExactly`).
- *Only successful Anthropic streams write `[DONE]`.* A stream that goes on after its end is rejected with
  `[DONE]` already written (`DoneThenRejected`). It is written if and only if some beginning of the stream
  is successful by itself (`DoneAfterSuccess`).
- *What the Bedrock stream translator accepts, the buffered one accepts.* It does if and only if usage was reported and
  every tool's collected input is a JSON object (`BedrockRefinement.StreamAgainstBuffered`). A stream without usage
  (`UsageCanBeMissing`) and one with a tool that got no input (`InputCanBeMissing`) succeed, and are rejected.
- *Merging parameters is associative.* Exactly for compatible operands (`MergeSequence`). An object that
  is replaced by a number and then by an object is lost on one side and kept on the other (`MergeNotAssociative`).
- *A resolved document can be resolved again.* It is a fixed point when it can. It can if and only if the
  parameters of every profile's parent, in the document as given, fit what profiles may carry: no
  forbidden field or operation, nothing too deep outside what the profile replaces, no empty object that the
  profile does not fill, and the two together within the limits (`SecondResolution`). A parent that sets
  `store` does not fit (`SecondResolutionCanFail`).
- *Every cursor a page gives out leads back to its id.* Exactly when the id is valid UTF-8 and its JSON-escaped form has at most
  1515 bytes (`CursorFitsExactly`). An id of 253 angle brackets may be registered and its cursor is refused
  (`WalkStops`). The id FE may be registered and its cursor leads to U+FFFD, which sorts before it, so that
  a walk by pages of one repeats its first page for ever (`FeLeadsBack`, `WalkRepeats`, `WalkNeverFinishes`).
- *A Gemini request determines the conversation.* Exactly when no other id stands for the same provider id and
  signature as a call's id, and no result answers one of several calls with the same provider id and name
  (`RequestDetermines`). Among conversations whose ids are as the gateway writes them only the second
  can fail (`CanonicalDetermines`). `TwoSpellings` and `SharedIdentity` construct two requests with one translation
  for either failure.
- *A function call survives the way to the client and back.* Exactly when it is signed or its own id
  does not start with the prefix of signed ids (`EchoedCall`). An unsigned call under an id that looks signed comes back
  with another id and a signature (`PosingCall`).
- *Every list of keys is the decoding of a valid JSON pointer.* All but the single empty key
  (`EncodedPointerValid`).

## Model

| member | source | states |
|---|---|---|
| `RuntimeGenerations.StepInv` | cmd/sparkroute/runtime.go:342-412 | every atomic step of every thread keeps the invariant: `active` is the number of counted threads, a generation out of the slot is retired or about to be, a retired idle unclosed one has a thread that will decide about it |
| `RuntimeGenerations.RunInv` | cmd/sparkroute/runtime.go:342-412 | the invariant holds in every state of every run |
| `RuntimeGenerations.CloseAtMostOnce` | cmd/sparkroute/runtime.go:364-370 | in any run the close function runs at most once per generation, and only after it was retired |
| `RuntimeGenerations.NoAcquireAfterClose` | cmd/sparkroute/runtime.go:342-349 | every successful acquire of a generation comes before its close |
| `RuntimeGenerations.CloseWhileHeldIsEarly` | cmd/sparkroute/runtime.go:351-362 | a close while the generation is held comes from `release`, whose decrement saw `retired` unset; never from `retire` |
| `RuntimeGenerations.CloseWhileHeldTrace` | cmd/sparkroute/runtime.go:351-362 | such a close has the order: decrement to zero, acquire by a thread that makes no move until the close, store of `retired`, load of `retired`, close |
| `RuntimeGenerations.CloseWhileHeldExactly` | cmd/sparkroute/runtime.go:342-370 | a generation is held when it closes if and only if the run has that order |
| `RuntimeGenerations.CloseWhileHeldIsReachable` | cmd/sparkroute/runtime.go:342-393 | a run of 14 steps that ends in such a close |
| `RuntimeGenerations.NoLeak` | cmd/sparkroute/runtime.go:351-412 | with no operation in progress, a generation neither current nor held has been closed |
| `RuntimeGenerations.AcquireLoopBound` | cmd/sparkroute/runtime.go:395-405 | the current generation is never retired, and an acquire loop has loaded `current` at most once more than it was swapped since the loop began |
| `RuntimeGenerations.RunMonotone` | cmd/sparkroute/runtime.go:357-370 | generations stay, stay retired, and their close counts never decrease |
| `ChatChunks.DoneInLanguage` | pkg/gateway/chat_anthropic_translation.go:1723-1770 | a finished and accounted output followed by `[DONE]` is a word of the chunk language |
| `AnthropicStream.StreamLanguage` | pkg/gateway/chat_anthropic_translation.go:1260-1307 | every successful stream is a word of the chunk language; over all runs, rejected ones included, `[DONE]` is written exactly when the message ended without an upstream error; the last two end-of-stream checks never fire |
| `AnthropicStream.DoneAfterSuccess` | pkg/gateway/chat_anthropic_translation.go:1260-1418 | `[DONE]` is written if and only if some beginning of the stream is successful by itself |
| `AnthropicStream.DoneThenRejected` | pkg/gateway/chat_anthropic_translation.go:1309-1418 | a successful stream followed by any event is rejected, with `[DONE]` already written |
| `AnthropicStream.RunPhase` | pkg/gateway/chat_anthropic_translation.go:1309-1721 | the handlers keep the phase of the output and the agreement of their maps, over all event sequences |
| `AnthropicTranslator.Translator.constructor` | pkg/gateway/chat_anthropic_translation.go:1242-1307 | a new translator is in the initial state with nothing written |
| `AnthropicTranslator.Translator.Proxy` | pkg/gateway/chat_anthropic_translation.go:1260-1307 | the loop writes exactly what the specified run writes, with its outcome; on success a word of the language |
| `AnthropicTranslator.Translator.Handle` | pkg/gateway/chat_anthropic_translation.go:1309-1467 | the fields after one event are the specified next state, and its chunks are appended |
| `AnthropicTranslator.Translator.HandleBlockStart` | pkg/gateway/chat_anthropic_translation.go:1469-1548 | a block start updates the fields as specified, an index being used once |
| `AnthropicTranslator.Translator.HandleTextDelta` | pkg/gateway/chat_anthropic_translation.go:1550-1594 | a text delta goes to an open text block, and is appended as one content chunk |
| `AnthropicTranslator.Translator.HandleJsonDelta` | pkg/gateway/chat_anthropic_translation.go:1550-1623 | partial JSON is collected for an open tool block and passed on under its tool index |
| `AnthropicTranslator.Translator.HandleBlockStop` | pkg/gateway/chat_anthropic_translation.go:1625-1667 | stopping a tool block checks its collected JSON and supplies `{}` when there was none |
| `AnthropicTranslator.Translator.HandleMessageDelta` | pkg/gateway/chat_anthropic_translation.go:1669-1721 | usage is merged; a stop reason finishes the stream once all blocks have stopped |
| `AnthropicTranslator.Translator.HandleMessageStop` | pkg/gateway/chat_anthropic_translation.go:1309-1418 | the end of the message writes the usage chunk when asked for, then `[DONE]`, only with complete usage |
| `AnthropicRefinement.StreamRefinesBuffered` | pkg/gateway/chat_anthropic_translation.go:1260-1721 | on every successful stream the buffered translator accepts the message the events describe, with the tool calls, finish reason and usage the client assembled; the client's text is the deltas in order of arrival, the message's in order of blocks |
| `AnthropicOrder.TextOrderExactly` | pkg/gateway/chat_anthropic_translation.go:1469-1623 | whatever the text deltas of a successful stream say, streamed and buffered text agree, if and only if no non-empty delta is for a text block before one that already has text |
| `AnthropicOrder.RelabelledRuns` | pkg/gateway/chat_anthropic_translation.go:1550-1594 | what text deltas say has no effect on whether a stream is accepted, nor on the translator's state |
| `AnthropicIndexes.IndexedRefinement` | pkg/gateway/chat_anthropic_translation.go:1469-1548 | on every successful stream, whatever order blocks start in, the buffered translator accepts the message with its content in order of index: finish reason and usage are the client's, tool calls are the client's rearranged by index, the text is the deltas block by block by index; the calls keep their order exactly when tool blocks start in order of index, and if all blocks do, the refinement is as in order of start |
| `AnthropicIndexes.IndexOrderExactly` | pkg/gateway/chat_anthropic_translation.go:1469-1623 | whatever the text deltas of a successful stream say, the streamed text is that of the message in order of index, if and only if the non-empty deltas come in order of index |
| `AnthropicRefinement.NonOverlappingInOrder` | pkg/gateway/chat_anthropic_translation.go:1469-1623 | if every block start finds the earlier blocks stopped, the deltas are in that order |
| `AnthropicRefinement.RunLinks` | pkg/gateway/chat_anthropic_translation.go:1309-1721 | along every run the translator's maps, the client's assembled message and the message being described correspond block by block |
| `AnthropicCrossing.CrossingDeltasDiffer` | pkg/gateway/chat_anthropic_translation.go:1550-1594 | a family of valid, successful streams with two text blocks open, on which the client reads two texts in one order and the buffered translator returns them in the other |
| `AnthropicResponse.TranslateResponse` | pkg/gateway/chat_anthropic_translation.go:999-1147 | the loop over the content blocks computes the translation of the whole body, rejections included |
| `AnthropicUsage.MergeIsOverlay` | pkg/gateway/anthropic_usage.go:136-172 | merging two decoded usage reports is decoding the overlay of the two JSON objects, details included |
| `GeminiResponse.ParseCandidate` | pkg/gateway/chat_gemini_translation.go:1148-1325 | the loop over the parts, with its set of seen ids, accepts exactly the candidates whose parts parse and whose call ids are distinct, and collects text and calls in order |
| `GeminiStream.StreamLanguage` | pkg/gateway/chat_gemini_translation.go:1524-1676 | every successful stream is a word of the chunk language, and no other stream writes `[DONE]` |
| `GeminiStream.RunPhase` | pkg/gateway/chat_gemini_translation.go:1575-1676 | the event handler keeps the phase of the output over all event sequences |
| `GeminiChunking.ParseConcat` | pkg/gateway/chat_gemini_translation.go:1148-1325 | parsing a concatenation of parts combines the two parses, and fails exactly when one does or an id repeats |
| `GeminiChunking.ChunkingInvariance` | pkg/gateway/chat_gemini_translation.go:1417-1477 | however a candidate is split over events and its usage distributed, the stream succeeds exactly when the whole body translates, and the client assembles the same completion |
| `GeminiChunking.ChunkingInvarianceJson` | pkg/gateway/chat_gemini_translation.go:1036-1113 | the same on the JSON payloads themselves, with usage reports on any of them, against a body whose usage is their merge |
| `GeminiChunking.OutputAssembled` | pkg/gateway/chat_gemini_translation.go:1524-1573 | the trailing usage chunk and `[DONE]` add the usage to what the client assembled, and nothing else |
| `GeminiTranslator.Translator.constructor` | pkg/gateway/chat_gemini_translation.go:1510-1573 | a new translator is in the initial state with nothing written |
| `GeminiTranslator.Translator.WriteCalls` | pkg/gateway/chat_gemini_translation.go:1575-1676 | calls are announced in order under fresh indexes up to the first repeated id |
| `GeminiTranslator.Translator.HandleContent` | pkg/gateway/chat_gemini_translation.go:1575-1676 | role once, then text, then calls, as specified |
| `GeminiTranslator.Translator.HandleCandidate` | pkg/gateway/chat_gemini_translation.go:1575-1676 | content and finish reason of one candidate update the fields as specified |
| `GeminiTranslator.Translator.HandleEvent` | pkg/gateway/chat_gemini_translation.go:1575-1706 | the fields after one event are the specified next state, and its chunks are appended |
| `GeminiTranslator.Translator.Proxy` | pkg/gateway/chat_gemini_translation.go:1524-1573 | the loop writes what the specified run writes; exactly the successful streams end in `[DONE]` |
| `BedrockStream.StreamLanguage` | pkg/gateway/chat_bedrock_translation.go:1385-1656 | every successful stream is a word of the chunk language, and no other stream writes `[DONE]` |
| `BedrockStream.RunPhase` | pkg/gateway/chat_bedrock_translation.go:1385-1656 | the handlers keep the phase of the output over all event sequences |
| `BedrockStream.Translator.constructor` | pkg/gateway/chat_bedrock_translation.go:1373-1399 | a new translator is in the initial state with nothing written |
| `BedrockStream.Translator.HandleToolStart` | pkg/gateway/chat_bedrock_translation.go:1478-1522 | a tool is announced under the next index, each block index once |
| `BedrockStream.Translator.HandleEvent` | pkg/gateway/chat_bedrock_translation.go:1422-1655 | the fields after one message are the specified next state, and its chunk is appended |
| `BedrockStream.Translator.Proxy` | pkg/gateway/chat_bedrock_translation.go:1385-1656 | the loop with its end-of-stream checks writes what the specified run writes: a word of the language on success, and otherwise no `[DONE]` |
| `BedrockResponse.TranslateResponse` | pkg/gateway/chat_bedrock_translation.go:1193-1312 | the loop over the content blocks computes the translation of the whole body, rejections included |
| `BedrockRefinement.RunLinks` | pkg/gateway/chat_bedrock_translation.go:1385-1656 | along every run the announced tools, the client's assembled message and the response being described correspond |
| `BedrockRefinement.StreamAgainstBuffered` | pkg/gateway/chat_bedrock_translation.go:1193-1656 | on every successful stream the buffered translator accepts the described response if and only if some event reports usage and every tool's input is a JSON object; then calls, finish reason and usage are those the client assembled, and the text if no non-empty delta is for a text block before one that already has text |
| `BedrockOrder.TextOrderExactly` | pkg/gateway/chat_bedrock_translation.go:1523-1578 | whatever the text deltas of a stream that both translators accept say, streamed and buffered text agree, if and only if no non-empty delta is for a text block before one that already has text |
| `BedrockOrder.DeltaOrderExactly` | pkg/gateway/chat_bedrock_translation.go:1523-1578 | the same of the deltas and the described blocks alone, over all sequences of events |
| `BedrockOrder.RelabelledRuns` | pkg/gateway/chat_bedrock_translation.go:1523-1578 | what text deltas say has no effect on whether a stream is accepted, nor on the translator's state |
| `BedrockOrder.AscendingInOrder` | pkg/gateway/chat_bedrock_translation.go:1523-1578 | deltas in order of their blocks' indexes are in that order |
| `BedrockCrossing.CrossingDeltasDiffer` | pkg/gateway/chat_bedrock_translation.go:1523-1578 | a family of valid, successful streams on which a block goes on after the next has begun: the client reads its texts in one order, the buffered translator returns them in another |
| `BedrockCrossing.UsageCanBeMissing` | pkg/gateway/chat_bedrock_translation.go:1385-1421 | a stream without usage succeeds when usage was not asked for, and its response is rejected |
| `BedrockCrossing.InputCanBeMissing` | pkg/gateway/chat_bedrock_translation.go:1478-1522 | a stream with a tool that gets no input succeeds, and its response is rejected |
| `BedrockIndexes.IndexedRefinement` | pkg/gateway/chat_bedrock_translation.go:1193-1656 | on every successful stream the buffered translator accepts the response with its content in order of index under the same condition: finish reason and usage are the client's, tool calls are the client's rearranged by index, the text is the deltas block by block by index; the calls keep their order exactly when tool blocks start in order of index |
| `BedrockIndexes.IndexOrderExactly` | pkg/gateway/chat_bedrock_translation.go:1523-1578 | whatever the text deltas of a stream that both translators accept say, the streamed text is that of the response in order of index, if and only if the non-empty deltas come in order of index |
| `AttemptDiscipline.LeaseBalance` | pkg/gateway/chatcompletions.go:1691-2475 | a lease is issued once, and whatever was acquired but not handed back is the one held |
| `AttemptDiscipline.LeasesReturned` | pkg/gateway/observation.go:282-298 | over a whole request each target and runtime lease goes to exactly one record, and each retry reservation is released exactly once |
| `AttemptDiscipline.OneReservationAtATime` | pkg/gateway/chatcompletions.go:1607-1644 | at any time at most one retry reservation is held |
| `AttemptDiscipline.AttemptsRecordedOnce` | pkg/gateway/chatcompletions.go:1716-2288 | attempts are started and recorded in turn, once each; the caller gets one response, or none because it cancelled |
| `AttemptDiscipline.NothingAfterTheLast` | pkg/gateway/chatcompletions.go:2235-2475 | no attempt starts after one recorded as the last or after a response was passed on, which happens at most once |
| `AttemptDiscipline.RetriesAreReserved` | pkg/gateway/chatcompletions.go:1619-1644 | every attempt after the first runs while a retry reservation is held |
| `AttemptLoop.FirstWorkingCandidate` | pkg/gateway/chatcompletions.go:1691-2475 | if every earlier candidate fails recoverably or is passed over for lack of capacity, the first working one is served, provided the attempts made before it leave one within the limit |
| `AttemptLoop.Handler.ReleaseActiveRetry` | pkg/gateway/chatcompletions.go:1610-1617 | releases the reservation if there is one, and keeps the log disciplined |
| `AttemptLoop.Handler.ScheduleRetry` | pkg/gateway/chatcompletions.go:1619-1644 | gives up the old reservation first, and holds a new one exactly when it reports a retry |
| `AttemptLoop.Handler.RecordAndRetry` | pkg/gateway/chatcompletions.go:2042-2086 | a failed attempt is recorded with its leases, and the loop goes on exactly when the retry was reserved and slept for |
| `AttemptLoop.Handler.WaitForRetry` | pkg/gateway/chatcompletions.go:1656-1689 | a failed wait releases the reservation and answers the caller unless it has gone |
| `AttemptLoop.Handler.GiveUp` | pkg/gateway/chatcompletions.go:1735-1760 | the attempt is recorded as the last and the caller answered if it is still there |
| `AttemptLoop.Handler.Send` | pkg/gateway/chatcompletions.go:1931-2234 | every way an attempt can fail between request and response hands its leases back once |
| `AttemptLoop.Handler.Deliver` | pkg/gateway/chatcompletions.go:2235-2475 | the response is passed on once, directly or through the privacy and guardrail stages, after the attempt was recorded |
| `AttemptLoop.Handler.TryCandidate` | pkg/gateway/chatcompletions.go:1691-1930 | one iteration follows the retry policy and keeps the log disciplined |
| `AttemptLoop.Handler.Serve` | pkg/gateway/chatcompletions.go:1604-2502 | whatever the outside answers: the log is disciplined, attempts stay within the limit and the candidates, the caller is answered once unless it cancels, and a response is passed on exactly when the retry policy leads to one |
| `ChatTurns.AcceptedExactly` | pkg/gateway/chat_anthropic_translation.go:264-382 | messages are accepted if and only if each may follow the one before it and the last is not a system message |
| `ChatTurns.ReadsBack` | pkg/gateway/chat_bedrock_translation.go:291-405 | roles in the result alternate, and it reads back as the system text and the conversation with all boundaries |
| `ChatTurns.EveryRequestIsReached` | pkg/gateway/chat_bedrock_translation.go:291-405 | every well-formed request, system text included, is the translation of what it reads back as |
| `ChatTurns.StepKeeps` | pkg/gateway/chat_anthropic_translation.go:278-375 | one message keeps the alternation and adds its turn, and only that, to what the result says |
| `ChatMessages.ReadMessage` | pkg/gateway/chat_anthropic_translation.go:384-725 | an accepted message has non-empty content, with tool results only in tool messages |
| `ChatMessages.AddTurn` | pkg/gateway/chat_anthropic_translation.go:296-375 | a message is placed exactly when it may follow the one before it; roles then alternate, and the result reads back as before with this message added |
| `ChatMessages.TranslateMessages` | pkg/gateway/chat_anthropic_translation.go:264-382 | the loop computes the specified translation of the whole list, or rejects it |
| `ChatMessages.AcceptedMessages` | pkg/gateway/chat_anthropic_translation.go:264-382 | a JSON request is accepted exactly when its messages can be read, are in order and do not end with a system message |
| `ChatMessages.NoTwoConversationsCollapse` | pkg/gateway/chat_anthropic_translation.go:313-350 | two requests with the same translation hold the same system text and the same conversation |
| `ChatWriting.SpokenReads` | pkg/gateway/chat_anthropic_translation.go:426-601 | user and system messages written out by a client read back with their parts in order |
| `ChatWriting.AssistantReads` | pkg/gateway/chat_anthropic_translation.go:384-424 | an assistant message reads back as what it says followed by what it calls |
| `ChatWriting.TextResultReads` | pkg/gateway/chat_anthropic_translation.go:689-725 | a tool result reads back with its id and texts |
| `ChatWriting.EveryRequestHasAChat` | pkg/gateway/chat_anthropic_translation.go:264-382 | every well-formed provider request with writable content is the translation of a chat request, which the lemma constructs |
| `GeminiMessages.ResolveCalls` | pkg/gateway/chat_gemini_translation.go:592-696 | the loop over a message's calls unwraps each id and records it, rejecting ids used before |
| `GeminiMessages.Translated` | pkg/gateway/chat_gemini_translation.go:300-385 | one message is resolved against the names and placed as specified |
| `GeminiMessages.TranslateGeminiMessages` | pkg/gateway/chat_gemini_translation.go:264-396 | the loop computes reading, resolving and arranging of the whole list |
| `GeminiIdentities.ResponsesAnswerCalls` | pkg/gateway/chat_gemini_translation.go:698-751 | in every translated request each function response has the id and name of a function call in an earlier message |
| `GeminiRecovery.TurnsDetermined` | pkg/gateway/chat_gemini_translation.go:592-751 | messages that resolve alike are alike, if one of the two conversations is unambiguous |
| `GeminiRecovery.RequestDetermines` | pkg/gateway/chat_gemini_translation.go:264-396 | for any class of chat ids: every accepted source of that class with the same request holds the same conversation, ids included, if and only if no other id of the class stands for the same as a call's, and no result answers one of several calls with the same identity |
| `GeminiRecovery.CanonicalDetermines` | pkg/gateway/chat_gemini_translation.go:759-807 | among sources whose ids are plain or exactly as the gateway wraps them, the second condition alone decides |
| `GeminiRecovery.AmbiguousIsNotDetermined` | pkg/gateway/chat_gemini_translation.go:592-751 | for every ambiguous source, a second source with the same request and another conversation |
| `GeminiEchoes.TwoSpellings` | pkg/gateway/chat_gemini_translation.go:780-807 | two wrapped ids that decode to the same id and signature give two sources with one request and different conversations |
| `GeminiEchoes.SharedIdentity` | pkg/gateway/chat_gemini_translation.go:698-751 | so do answers to one of two calls made under a plain id and under its wrapped form |
| `GeminiEchoes.EchoedCall` | pkg/gateway/chat_gemini_translation.go:759-807 | a provider's call translated for the client and sent back has its own id, name, arguments and signature again, if and only if it was signed or its id does not start with the prefix |
| `GeminiEchoes.PosingCall` | pkg/gateway/chat_gemini_translation.go:759-807 | an unsigned call whose id is the wrapped form of another reaches the client, and comes back with the other id and a signature |
| `ChatTargets.GeminiMessagesFitAnthropic` | pkg/gateway/chat_gemini_translation.go:264-396 | messages that the Gemini translation accepts are read as the same turns and accepted by the Anthropic one, whose result holds their conversation |
| `ChatTargets.GifFitsAnthropicOnly` | pkg/gateway/chat_gemini_translation.go:560-590 | a message with a GIF is read for Anthropic and rejected for Gemini |
| `ProfileParameters.MergeProfileParameters` | pkg/config/request_profiles.go:164-177 | the loop, visiting fields in any order, computes the recursive merge |
| `ProfileParameters.ApplyRequestOverrides` | pkg/gateway/extra_body.go:38-56 | overriding an object is the same merge; a `null` body is left alone by empty overrides and otherwise written to as a nil map; any other body is an error |
| `ProfileParameters.MergeIdempotent` | pkg/config/request_profiles.go:164-177 | merging an object over itself changes nothing |
| `ProfileParameters.MergeAbsorbs` | pkg/config/request_profiles.go:164-177 | merging over the same base twice is merging once |
| `ProfileParameters.MergeSequence` | pkg/config/request_profiles.go:164-177 | applying a and then b is applying their merge, if and only if the operands are compatible |
| `ProfileParameters.MergeNotAssociative` | pkg/config/request_profiles.go:164-177 | an object replaced by a number and then by an object: the two orders of merging differ |
| `ProfileParameters.NoReplacedObjectCompatible` | pkg/config/request_profiles.go:164-177 | operands in which nothing replaces an object are compatible |
| `ProfilePointers.MergeLookup` | pkg/config/request_profiles.go:164-177 | the values of a merge are the overlay's, and those of the base that nothing in the overlay masks |
| `ProfilePointers.RemoveRemoves` | pkg/config/request_profiles.go:178-196 | after a removal the path and everything below it is gone |
| `ProfilePointers.RemoveAddsNothing` | pkg/config/request_profiles.go:178-196 | nothing appears, and remaining values that are not objects are unchanged |
| `ProfilePointers.RemoveKeeps` | pkg/config/request_profiles.go:178-196 | values that are not objects and not at or below the path stay |
| `ProfilePointers.RemovePrunes` | pkg/config/request_profiles.go:178-196 | no object on the way to the path is left empty |
| `ProfilePointers.RemoveElsewhere` | pkg/config/request_profiles.go:178-196 | off the path nothing changes, empty objects included |
| `ProfilePointers.PointerRoundTrip` | pkg/config/request_profiles.go:178-196 | decoding a JSON pointer (section 4 of RFC 6901) inverts encoding for every non-empty list of keys |
| `ProfilePointers.PatchProfileParameters` | pkg/config/request_profiles.go:197-203 | the loop merges and then removes pointer by pointer |
| `ProfilePointers.RemoveAllContents` | pkg/config/request_profiles.go:197-203 | after removing a list of pointers, the values are those that no pointer reaches |
| `ProfilePointers.PatchContents` | pkg/config/request_profiles.go:197-203 | the values of a patched object are the patch's, then the base's that nothing in the patch masks, less whatever a pointer reaches |
| `ProfileResolution.EffectiveProfileParameters` | pkg/config/request_profiles.go:206-229 | a profile serves a deployment under the stated condition, and the parameters are composed in the specified order |
| `ProfileResolution.IngressPrecedence` | pkg/config/request_profiles.go:206-229 | a value is effective if and only if it comes from the first of deployment patch, profile patch, model overrides and implementation that decides its place, and no later removal reaches it |
| `ProfileResolution.UpstreamPrecedence` | pkg/config/request_profiles.go:206-229 | a value is effective upstream if and only if it comes from the first of deployment patch, profile patch and implementation that decides its place, and no later removal reaches it |
| `ProfileValidation.MergedBounded` | pkg/config/request_profiles.go:346-365 | a merged value is within the nesting limit if and only if the profile's is and what is left of the parent's is |
| `ProfileValidation.MergedValid` | pkg/config/request_profiles.go:322-344 | a valid profile stays valid with its parent's parameters merged below its own, if and only if the parent's fit |
| `ProfileResolution.DeploymentRemoves` | pkg/config/request_profiles.go:206-229 | nothing survives at or below a pointer that the deployment patch removes |
| `DocumentResolution.ResolveRequestProfiles` | pkg/config/request_profiles.go:233-319 | the loops over cloned slices compute the resolved document, and fail exactly when a validation does |
| `DocumentResolution.Inherit` | pkg/config/request_profiles.go:270-319 | a profile model gets its parent's settings with its own parameters merged over the parent's |
| `DocumentResolution.InheritStable` | pkg/config/request_profiles.go:270-319 | inheriting again from the same parent changes nothing |
| `DocumentResolution.ResolutionStable` | pkg/config/request_profiles.go:233-319 | a resolved document resolves to itself |
| `DocumentResolution.SecondResolution` | pkg/config/request_profiles.go:233-319 | the second resolution succeeds if and only if, in the document as given, the parameters of every profile's parent fit what profiles may carry |
| `DocumentResolution.SecondResolutionCanFail` | pkg/config/request_profiles.go:322-344 | under the source's rules, a document whose parent model sets `store` resolves once and not twice |
| `PolicyInheritance.Walk` | pkg/config/policy_profiles.go:85-121 | the walk fails if and only if some ancestor chain comes back to a model that goes on inheriting, and otherwise picks each policy's nearest assignment on the whole chain |
| `PolicyInheritance.FirstIsNearest` | pkg/config/policy_profiles.go:113-119 | each policy is decided by the first model of the chain that assigns it, the two policies independently |
| `PolicyInheritance.CycleIsDecided` | pkg/config/policy_profiles.go:93-97 | a model whose chain ends has no revisiting chain, and every other chain is a prefix of it |
| `SseEvents.WriteCompleteEvents` | pkg/gateway/response.go:148-196 | cuts off the complete events and resumes correctly, leaving a final CR alone while an LF may follow |
| `SseEvents.Proxy` | pkg/gateway/response.go:82-146 | what is delivered depends on the bytes alone, however they are cut into reads |
| `SseEvents.DeliverPartitions` | pkg/gateway/response.go:82-196 | the delivered events concatenate to the stream, or to a prefix when one is too large; each but the last ends at its own first blank line |
| `SseEvents.PrefixEvent` | pkg/gateway/response.go:148-196 | an event is recognised by its own bytes, whatever follows |
| `EventStream.ReadHeaders` | pkg/gateway/aws_eventstream.go:99-129 | the loop decodes the whole header block or rejects it |
| `EventStream.FrameReads` | pkg/gateway/aws_eventstream.go:34-97 | a frame, whatever follows it, reads back as its headers and payload |
| `EventStream.ReadIsFrame` | pkg/gateway/aws_eventstream.go:34-97 | whatever is read is the frame of its headers and payload |
| `EventStream.ReplacePayload` | pkg/gateway/aws_eventstream.go:214-234 | building the new frame in place gives the frame of the old headers and the new payload |
| `EventStream.ReplaceReadsBack` | pkg/gateway/aws_eventstream.go:214-234 | replacing fails only for an oversized payload, and reads back as the same headers with the new payload |
| `EventStream.ReplaceIdentity` | pkg/gateway/aws_eventstream.go:214-234 | replacing a payload by itself changes no byte |
| `EventStream.Proxy` | pkg/gateway/aws_eventstream.go:187-212 | the loop writes the frames that were accepted and reports a clean end |
| `EventStream.ProxyWritesFrames` | pkg/gateway/aws_eventstream.go:187-212 | the output is a prefix of the source that ends on a frame boundary, and all of it when the stream ends cleanly |
| `SigV4.UriEncode` | pkg/gateway/aws_sigv4.go:212-232 | the loop computes the percent encoding |
| `SigV4.UriRoundTrip` | pkg/gateway/aws_sigv4.go:212-232 | percent decoding gives back every encoded byte string |
| `SigV4.CanonicalUriInjective` | pkg/gateway/aws_sigv4.go:159-168 | two paths have the same canonical form exactly when they are equal or both are empty or "/" |
| `SigV4.CanonicalQuery` | pkg/gateway/aws_sigv4.go:170-210 | the pairs, in whatever order they come, are encoded, sorted and joined |
| `SigV4.CanonicalQueryDecides` | pkg/gateway/aws_sigv4.go:170-210 | two queries have the same canonical text if and only if they have the same pairs, each as often |
| `EndpointRegistry.Memory.constructor` | pkg/endpointregistry/registry.go:95-100 | a new registry is empty |
| `EndpointRegistry.Memory.RegisterEndpoint` | pkg/endpointregistry/registry.go:102-122 | a valid registration that is not fenced off replaces the current one; any other leaves the table as it was |
| `EndpointRegistry.Memory.RemoveEndpoint` | pkg/endpointregistry/registry.go:163-171 | removes the endpoint, if registered, and nothing else |
| `EndpointRegistry.FencingNeverDecreases` | pkg/endpointregistry/registry.go:114-119 | until it is removed an endpoint stays registered and its fencing token never decreases |
| `EndpointRegistry.Memory.ReadyEndpoints` | pkg/endpointregistry/registry.go:173-194 | exactly the target's ready endpoints that have not expired, in id order |
| `EndpointRegistry.Validate` | pkg/endpointregistry/registry.go:281-312 | an accepted query has a page size from 1 to 500 |
| `EndpointRegistry.SearchAfter` | pkg/endpointregistry/registry.go:146-151 | the binary search finds the first id after the cursor's |
| `EndpointRegistry.Memory.List` | pkg/endpointregistry/registry.go:126-161 | a valid query gets the next matches in id order, and a cursor exactly when more than a page remain |
| `EndpointRegistry.WalkIncreases` | pkg/endpointregistry/registry.go:126-161 | ids increase over a whole walk, so none is listed twice, however the table changes between pages |
| `EndpointRegistry.FinishedWalkIsComplete` | pkg/endpointregistry/registry.go:126-161 | a finished walk lists every id that matched throughout, exactly once |
| `EndpointRegistry.ListedWasThere` | pkg/endpointregistry/registry.go:134-144 | everything listed was registered and matching when its page was served |
| `EndpointRegistry.FullPages` | pkg/endpointregistry/registry.go:152-159 | every page but the last of a walk is full |
| `EndpointRegistry.UnchangedWalk` | pkg/endpointregistry/registry.go:126-161 | on an unchanged table a finished walk lists exactly the matches in id order, and no walk is longer than the table can fill |
| `EndpointCursors.Base64RoundTrip` | pkg/endpointregistry/registry.go:339-354 | decoding unpadded base64url (section 5 of RFC 4648) inverts encoding |
| `EndpointCursors.EscapeReadsBack` | pkg/endpointregistry/registry.go:339-360 | decoding the JSON text of an id gives the id with every byte that is no UTF-8 replaced by U+FFFD |
| `EndpointCursors.CursorFitsExactly` | pkg/endpointregistry/registry.go:339-368 | a registrable id's cursor leads back to it if and only if the id is valid UTF-8 (section 4 of RFC 3629) and its escaped form has at most 1515 bytes |
| `EndpointCursors.PlainIdsFit` | pkg/endpointregistry/registry.go:339-368 | every registrable id of plain characters has a cursor that leads back to it |
| `EndpointWalks.NextStart` | pkg/endpointregistry/registry.go:303-310 | the page after one that ends with an id starts after that id with its invalid bytes replaced, and is refused if the id is too long once escaped |
| `EndpointWalks.WalkRepeats` | pkg/endpointregistry/registry.go:126-161 | if the cursor of the first of two ids leads back before it, every page of every walk by ones is the first page |
| `EndpointWalks.WalkNeverFinishes` | pkg/endpointregistry/registry.go:126-161 | such a walk of any length exists, is unfinished, and never lists the second id |
| `EndpointWalks.FeLeadsBack` | pkg/endpointregistry/registry.go:208-228 | the ids FE and FF may be registered, and the cursor of FE leads back |
| `EndpointWalks.WalkStops` | pkg/endpointregistry/registry.go:208-228 | an id of 253 angle brackets may be registered, and a walk that ends a page with it cannot go on |

## Left out

- BedrockResponse.TranslateResponse: tool arguments are a text of the input's value, written by the JSON parameter; the source passes on the text that `input` had in the body.
- BedrockCrossing.InputCanBeMissing: assumes that the empty text is not JSON.
- ChatMessages.TranslateMessages: the reading of single messages is modelled for Anthropic and Gemini; Bedrock has the same loop, but its document parts are not modelled.
- ChatTargets.GeminiMessagesFitAnthropic: is about messages, not about tools and settings of a request, and assumes that the empty text is not JSON.
- ChatWriting.EveryRequestHasAChat: images are covered as far as their data URL reads back.
- EndpointCursors.CursorFitsExactly: JSON payloads that the registry does not write itself are read by a parameter.
- EndpointRegistry.Memory.RegisterEndpoint: validation of URLs, served models, metadata and concurrency values is one flag of the endpoint; contexts and locks are not modelled, each operation being one step.
- GeminiEchoes.EchoedCall: assumes, like `PosingCall`, that wrapped ids and the arguments' JSON text decode to what was encoded.
- GeminiRecovery.RequestDetermines: the text of a wrapped id after its prefix is decoded by a parameter, which may accept several texts for one id.
- ProfileValidation.MergedValid: case folding, the syntax of field names and the sizes of JSON texts are parameters.
- SseEvents.Proxy: errors of the writer and of observers are not modelled.
- SigV4.CanonicalQuery: Go's sort is any sorted rearrangement; the rest of request signing (headers, hashing, HMAC) is not modelled.
- RuntimeGenerations.StepInv: running the close function under `sync.Once` is one step; what it closes is not modelled.
- Error texts and kinds: a rejected input is `None` or a flag. HTTP status codes, telemetry and the ledger's contents are not modelled.
- Writers that fail in the middle of a stream.
- Chunk fields that do not vary within a stream (id, object, created, model) and the constant `usage: null` and `logprobs` fields.
- JSON text: parsing and writing are parameters; duplicate keys, case-insensitive struct fields and white space inside empty arrays are not modelled.
- Strings are sequences of characters where the source measures bytes, except in the framing, signing and registry modules.
- Token counts are unbounded integers: sums beyond 64 bits are not modelled. Provider components and raw usage are left out.
- The decoding of Gemini's `usageMetadata` and the Bedrock usage fields beyond what their chunks need.
- The Responses and embeddings protocols, tool definitions and generation settings in requests: these would add field-by-field mappings.
- Validation of deployments, patches, selectors and policies: such checks are given predicates. Applying a resolved policy to traffic is not modelled.
- Routing, weights, admission, budgets and backoff delays: their answers are arbitrary in the attempt loop.
- Durable registries, configuration storage, the control plane and the user interface.
