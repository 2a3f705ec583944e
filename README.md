# Voice assistant session core, in Dafny

The core of a voice assistant session (`app/assistant.py`, class `Assistant`): one
websocket session runs two loops that share a transcript queue.

- The ingest loop (`transcribe_audio`) reads frames from the websocket:
  - Audio bytes are buffered. Once the buffer holds more than three bytes they are
    transcribed and queued as a `speech_final` transcript.
  - An `attach` text frame uploads a document and keeps its file id as pending.
  - Any other text frame is queued as a `speech_final` with its `content`.
- The conversation loop (`manage_conversation`) takes transcripts off the queue:
  - A farewell (`should_end_conversation`) sends `finish` and ends the session.
  - Any other transcript goes into the history as a user message, carrying the pending
    file if there is one, which is then cleared.
  - The last `memory_size` messages are handed to the language model
    (`assistant_chat`). The reply is appended to the history and sent as JSON, then
    spoken as audio chunks.
  - A failing model call is fail-soft: its error text is the reply.

The project has four modules:

- `EndDetector` (`end_detector.dfy`) is `should_end_conversation`:
  - the punctuation deletion, `strip` and `lower` are written out on ASCII;
  - the regular expression `\b(goodbye|bye)\b$` and `re.search` are written out as a
    leftmost search;
  - the lemmas show that the decision is "the normalised text ends with the whole word
    bye or goodbye", and that it ignores punctuation, surrounding whitespace and case.
- `Conversation` (`conversation.dfy`) is the session state as a value, with pure
  functions:
  - `OnFrame` is one iteration of the ingest loop;
  - `OnEvent` is one iteration of the conversation loop;
  - `Run` is any interleaving of the two.
  The lemmas prove what holds in every interleaving:
  - the queue is first-in first-out;
  - nothing is ever forwarded verbatim;
  - the history is user/assistant pairs with one model call per pair, on the right
    window;
  - the buffer stays bounded while speech-to-text succeeds;
  - `finish` is terminal;
  - a pending file is attached once, in any interleaving without a new attach frame.
  The end-of-conversation test is a parameter `ends` there, so these lemmas hold
  whatever the test is.
- `Session` (`session.dfy`) holds the class `Assistant`:
  - its fields are the source's fields plus the ingest loop's buffer, the flags
    `ingestDone` and `managerDone` saying that a loop has exited, what was sent, what the
    model was called with, and the ghost logs `produced` and `consumed` of every event put
    on and taken off the queue;
  - there is a method per loop body and a method per loop;
  - each method is proved to change the object exactly as the corresponding
    `Conversation` function says, and to keep the class invariant `Valid`
    (queue accounted, history paired).
  The object's end test is fixed to `EndDetector.ShouldEndConversation` in the
  constructor.
- `Wrappers` (`wrappers.dfy`) holds `Option`.

Outside services are the functions of a `Services` value:
- ElevenLabs speech-to-text (`stt`), which gives `None` when the call raises;
- the document upload (`upload`);
- the OpenAI thread (`backend`), which answers the posted message with the listing or
  the exception text;
- ElevenLabs text-to-speech (`tts`), which gives the chunks it yields and whether it
  then raised.

Points of the code's behaviour the model keeps:

- The system prompt is not sent: it is commented out at `app/assistant.py:186`.
- The window is Python's `chat_messages[-memory_size:]`: a `memory_size` of 0 sends the
  whole history, and a negative one drops the oldest messages.
- A failing text-to-speech is not propagated. The `try` around the conversation loop
  catches it and only that loop stops.
- A failing speech-to-text is caught and logged; the buffer keeps its bytes and the
  session goes on.
- The upload is awaited inside the ingest loop before the next frame is read. A `None`
  content or a failing upload leaves the pending file as it was.
- No interim transcripts exist: the ingest loop only ever queues `speech_final` events.

## Model

| member | source | states |
|---|---|---|
| EndDetector.RemovePunctuation | app/assistant.py:105 | the result holds no `string.punctuation` character, is no longer than the text, and text without punctuation comes back unchanged |
| EndDetector.TrimStart | app/assistant.py:106 | leading half of `strip`: the result is a suffix of the text, everything dropped is whitespace, and the result does not start with whitespace |
| EndDetector.TrimEnd | app/assistant.py:106 | trailing half of `strip`: the result is a prefix of the text, everything dropped is whitespace, and the result does not end with whitespace |
| EndDetector.Strip | app/assistant.py:106 | `strip` leaves no whitespace at either end |
| EndDetector.StripIsSlice | app/assistant.py:106 | `strip` keeps one contiguous slice of the text |
| EndDetector.StripKeepsNoPunctuation | app/assistant.py:105-106 | stripping text that has no punctuation leaves none |
| EndDetector.LowerStr | app/assistant.py:106 | `lower`: the same length and no upper-case letter left; each upper-case letter becomes its lower-case partner and every other character is kept |
| EndDetector.LowerStrKeepsClasses | app/assistant.py:106 | `lower` keeps text free of punctuation and of surrounding whitespace |
| EndDetector.Normalize | app/assistant.py:105-106 | the text searched has no punctuation, no surrounding whitespace and no upper case |
| EndDetector.AlternativeAt | app/assistant.py:107 | one alternative of `(goodbye\|bye)` followed by `\b$` at position k: the rest of the text is that word, possibly followed by one newline |
| EndDetector.MatchAt | app/assistant.py:107 | the pattern matches at k only where a word starts, and the rest of the text is then "bye" or "goodbye", possibly followed by one newline |
| EndDetector.SearchFrom | app/assistant.py:107 | `re.search` from position k: a found position is a match with no match before it from k on; None means no position from k on matches |
| EndDetector.WordSuffixMatches | app/assistant.py:107 | a text ending with the whole word bye or goodbye matches the pattern where that word starts |
| EndDetector.MatchIsWordSuffix | app/assistant.py:107 | a match anywhere in a text that does not end in a newline means the text ends with the whole word bye or goodbye |
| EndDetector.SearchMeaning | app/assistant.py:107 | in a text not ending in a newline, the search succeeds exactly when the text ends with the whole word bye or goodbye |
| EndDetector.TrimmedEndsWithoutNewline | app/assistant.py:106-107 | after `strip` the text cannot end in the newline that `$` would also accept |
| EndDetector.ShouldEndConversation | app/assistant.py:104-107 | true exactly when the normalised text ends with the whole word "bye" or "goodbye" |
| EndDetector.RemovePunctuationConcat | app/assistant.py:105 | deleting punctuation works piecewise over a concatenation |
| EndDetector.RemovePunctuationOfPunctuation | app/assistant.py:105 | text made only of punctuation disappears |
| EndDetector.DropPunctuationSuffix | app/assistant.py:105 | trailing punctuation is deleted without trace |
| EndDetector.NormalizeDropsPunctuation | app/assistant.py:105-106 | punctuation inserted anywhere leaves the normalised text unchanged |
| EndDetector.IgnoresPunctuation | app/assistant.py:104-107 | punctuation inserted anywhere does not change the decision |
| EndDetector.TrimStartSkipsSpace | app/assistant.py:106 | leading whitespace added in front is trimmed away |
| EndDetector.TrimEndSkipsSpace | app/assistant.py:106 | trailing whitespace added at the end is trimmed away |
| EndDetector.StripSkipsTrailingSpace | app/assistant.py:106 | `strip` ignores whitespace appended at the end |
| EndDetector.RemovePunctuationKeepsSpace | app/assistant.py:105 | deleting punctuation keeps surrounding whitespace in place |
| EndDetector.StripSkipsSurroundingSpace | app/assistant.py:106 | `strip` ignores whitespace added on either side |
| EndDetector.NormalizeSkipsSurroundingSpace | app/assistant.py:105-106 | whitespace added on either side leaves the normalised text unchanged |
| EndDetector.IgnoresSurroundingSpace | app/assistant.py:104-107 | whitespace added on either side does not change the decision |
| EndDetector.RemovePunctuationLower | app/assistant.py:105-106 | deleting punctuation and lower-casing commute |
| EndDetector.LowerKeepsSpace | app/assistant.py:106 | lower-casing a character never changes whether it is whitespace |
| EndDetector.TrimStartLower | app/assistant.py:106 | trimming the start and lower-casing commute |
| EndDetector.TrimEndLower | app/assistant.py:106 | trimming the end and lower-casing commute |
| EndDetector.StripLower | app/assistant.py:106 | `strip` and `lower` commute |
| EndDetector.LowerStrIdempotent | app/assistant.py:106 | lower-casing twice is lower-casing once |
| EndDetector.NormalizeOfLower | app/assistant.py:105-106 | normalising lower-cased text gives the same as normalising the text |
| EndDetector.IgnoresCase | app/assistant.py:104-107 | two texts that differ only in letter case get the same decision |
| EndDetector.NormalFormIsFixed | app/assistant.py:105-106 | text already without punctuation, surrounding whitespace and upper case is left as it is |
| EndDetector.NormalizeIdempotent | app/assistant.py:104-107 | normalising twice is normalising once, and the decision on normalised text is the decision on the text |
| EndDetector.CleanDecision | app/assistant.py:104-107 | on normalised text the decision is exactly "ends with the whole word bye or goodbye" |
| EndDetector.GoodbyeExclaimedSameAsGoodbye | app/assistant.py:105 | "Goodbye!" gets the decision of "Goodbye" |
| EndDetector.CapitalGoodbyeSameAsGoodbye | app/assistant.py:106 | "Goodbye" gets the decision of "goodbye" |
| EndDetector.GoodbyeIsFarewell | app/assistant.py:107 | "goodbye" is normalised and ends with the word goodbye |
| EndDetector.ExampleGoodbyeExclaimed | app/assistant.py:104-107 | "Goodbye!" ends the conversation |
| EndDetector.SaidGoodbyeIsFarewell | app/assistant.py:107 | "i said goodbye" is normalised and ends with the word goodbye |
| EndDetector.CapitalSaidSameAsSaid | app/assistant.py:106 | "I said goodbye" gets the decision of "i said goodbye" |
| EndDetector.ExampleSaidGoodbye | app/assistant.py:104-107 | "I said goodbye" ends the conversation |
| EndDetector.PaddedByeSameAsBye | app/assistant.py:106 | "  BYE." gets the decision of "BYE." |
| EndDetector.ByeDotSameAsBye | app/assistant.py:105 | "BYE." gets the decision of "BYE" |
| EndDetector.CapitalByeSameAsBye | app/assistant.py:106 | "BYE" gets the decision of "bye" |
| EndDetector.ByeIsFarewell | app/assistant.py:107 | "bye" is normalised and ends with the word bye |
| EndDetector.ExampleShoutedBye | app/assistant.py:104-107 | "  BYE." ends the conversation |
| EndDetector.ByeByeIsFarewell | app/assistant.py:107 | "bye bye" is normalised and ends with the word bye |
| EndDetector.ExampleByeBye | app/assistant.py:104-107 | "bye bye" ends the conversation |
| EndDetector.TrailingLetterIsNoFarewell | app/assistant.py:107 | "goodbyee" is normalised and does not end with either whole word |
| EndDetector.ExampleTrailingLetter | app/assistant.py:104-107 | "goodbyee" does not end the conversation |
| EndDetector.GluedByeIsNoFarewell | app/assistant.py:107 | "okbye" is normalised and does not end with either whole word, since `\b` needs a non-word character before "bye" |
| EndDetector.ExampleGluedBye | app/assistant.py:104-107 | "okbye" does not end the conversation |
| Conversation.Init | app/assistant.py:25-34 | a fresh session: the given memory size, `file_id` None, and an empty history, queue, buffer, sends, model calls and event logs, so its queue is accounted for, its history paired and nothing forwarded; neither loop has ended |
| Conversation.Pending | app/assistant.py:169 | `if self.file_id:` — a file is pending unless the id is `None` or the empty string |
| Conversation.UserMessage | app/assistant.py:169-182 | a user message with the transcript as content; it has an attachment exactly when a file is pending, and then the only attachment is that file with the code interpreter tool |
| Conversation.ChatResponse | app/assistant.py:36-92 | `assistant_chat`: the IndexError text for an empty list; the exception text when the call on the last message raises; otherwise '' or the text of an assistant message of the listing |
| Conversation.Window | app/assistant.py:184-187 | `chat_messages[-memory_size:]`: for a positive size, the last min(size, length) messages; for 0, the whole history; for a negative size, the history without its first -size messages |
| Conversation.AssistantReplies | app/assistant.py:79-82 | every message kept has the assistant role and comes from the listing |
| Conversation.NoAssistantReplies | app/assistant.py:79-88 | a listing without assistant messages gives no reply, so the response is '' |
| Conversation.FirstAssistantReply | app/assistant.py:79-88 | the reply read is the first assistant message in listing order |
| Conversation.AudioFrames | app/assistant.py:117-118 | one audio send per chunk |
| Conversation.OnFrame | app/assistant.py:122-158 | one ingest iteration never touches the history, the model calls, the sends, the memory size, the consumed log or either end flag, and queues at most one event, at the tail |
| Conversation.OnFrameCases | app/assistant.py:122-155 | per frame kind: audio is buffered, and once more than three bytes are held it is transcribed into one queued speech_final and the buffer emptied, or kept whole when transcription fails; a non-attach JSON text frame queues its content; an attach frame that uploads sets the pending file; a malformed frame or failed upload changes nothing; a disconnect ends the loop |
| Conversation.TakeTurn | app/assistant.py:169-190 | a reply turn adds two messages to the history and one model call, sends something, leaves no file pending, and leaves the queue, the buffer, finish and the ingest loop alone |
| Conversation.Take | app/assistant.py:163 | `transcript_queue.get()`: the head moves from the queue to the consumed log, and nothing else changes |
| Conversation.Handle | app/assistant.py:164-192 | acting on a transcript never touches the queue, the event logs, the buffer, the ingest loop or the memory size; the history, the model calls and the sends only grow, and finish is never unset |
| Conversation.OnEvent | app/assistant.py:160-192 | one conversation iteration removes exactly the head of the queue and logs it; the history, the model calls and the sends only grow, and the ingest side is left alone |
| Conversation.Apply | app/assistant.py:122-192 | a step of either loop: after finish nothing changes; otherwise the history, the model calls, the sends and both event logs only grow |
| Conversation.Run | app/assistant.py:120-194 | over any interleaving of steps, the history, the model calls, the sends and both event logs only grow, and the memory size is fixed |
| Conversation.FarewellTurn | app/assistant.py:164-168 | a farewell sets finish, ends the loop and sends `finish`; the history, the model calls and the pending file stay as they were |
| Conversation.TakeTurnEffect | app/assistant.py:169-190 | a reply turn field by field: user message then reply appended, one model call on the window ending with the user message, pending file cleared, reply JSON then its audio sent, loop ended when speech synthesis raised |
| Conversation.ReplyIsTurn | app/assistant.py:164-169 | a transcript with text that is not a farewell takes the reply path |
| Conversation.ReplyTurn | app/assistant.py:169-188 | a reply turn appends the user message with the transcript text, then the reply; it clears the pending file, calls the model once on the window ending with the new user message, and leaves finish unset |
| Conversation.WindowEndsWithNewMessage | app/assistant.py:182-187 | with a positive memory size the model gets min(size, length) messages, the newest being the user message just added |
| Conversation.PostedIsNewMessage | app/assistant.py:48 | unless memory_size is negative, the message `assistant_chat` posts (`messages[-1]`) is the user message just added |
| Conversation.FailSoftReply | app/assistant.py:90-92 | a model call that raises on the new user message yields its error text as the assistant reply, appended to the history and sent as JSON |
| Conversation.ReplyBeforeAudio | app/assistant.py:188-190 | the reply is sent as JSON first, followed only by the audio chunks spoken from it |
| Conversation.AttachmentNotRepeated | app/assistant.py:169-182 | a pending file goes into the next user message only; the user message of the turn after carries no attachment |
| Conversation.MissingTextStopsLoop | app/assistant.py:165 | a speech_final without text stops the conversation loop without setting finish, sending or changing the history |
| Conversation.RunSnoc | app/assistant.py:122-163 | running one more step is applying it to the run so far |
| Conversation.RunReceivesSnoc | app/assistant.py:122-123 | reading one more frame extends the ingest run by that frame |
| Conversation.RunDeliversSnoc | app/assistant.py:162-163 | taking one more transcript extends the conversation run by one step |
| Conversation.RunDeliversStep | app/assistant.py:162-163 | when the conversation run so far is neither finished nor stopped and has a transcript waiting, its next step is one conversation step on that state |
| Conversation.OnFrameFrame | app/assistant.py:122-158 | an ingest step never touches the history, the model calls, the sends or the end flags; it only appends speech_final events to the queue |
| Conversation.OnFrameAdds | app/assistant.py:125-155 | an ingest step queues at most one event, a speech_final, logs it as produced, and changes nothing but the buffer, the pending file and the ingest-exit flag besides |
| Conversation.HandleCases | app/assistant.py:164-192 | a transcript with text that is not a farewell gets exactly a reply turn; any other transcript leaves the history, the model calls and the pending file alone |
| Conversation.HandleForward | app/assistant.py:191-192 | a transcript of another type is sent back as it is and nothing else changes |
| Conversation.HandleMissingText | app/assistant.py:165 | a speech_final without text only stops the conversation loop |
| Conversation.HandleFarewell | app/assistant.py:165-168 | a farewell sets finish, sends `finish` and stops the loop, and changes nothing else |
| Conversation.HandleReply | app/assistant.py:169-190 | any other text is a reply turn |
| Conversation.OnEventDeliversInOrder | app/assistant.py:163 | a conversation step takes exactly the head of the queue |
| Conversation.ApplyDeliversInOrder | app/assistant.py:138-163 | any step keeps every queued event accounted for: delivered or still waiting, in order |
| Conversation.RunDeliversInOrder | app/assistant.py:138-163 | in every interleaving the conversation loop receives the events in the order the ingest loop queued them, and the logs only grow |
| Conversation.OnEventNeverForwards | app/assistant.py:164-192 | from a queue of speech_final events, a conversation step never forwards anything |
| Conversation.ApplyNeverForwards | app/assistant.py:138-192 | any step keeps the queue all speech_final and the sends free of forwarded transcripts |
| Conversation.RunNeverForwards | app/assistant.py:138-192 | the ingest loop queues only speech_final events, so the forwarding branch never fires in any interleaving |
| Conversation.PairedHistoryExtend | app/assistant.py:169-188 | a user message, a model call on the window ending with it, then a reply keep the history paired |
| Conversation.TakeTurnKeepsPaired | app/assistant.py:169-188 | a reply turn keeps the history paired and only extends the history and the model calls |
| Conversation.OnEventKeepsHistoryPaired | app/assistant.py:164-192 | a conversation step keeps the history paired and only extends it |
| Conversation.ApplyKeepsHistoryPaired | app/assistant.py:122-192 | any step keeps the history paired and only extends it |
| Conversation.RunKeepsHistoryPaired | app/assistant.py:160-192 | in every interleaving the history alternates user and assistant messages, with exactly one model call per pair on the window ending at that pair's user message; it is never rewritten |
| Conversation.FinishedIsTerminal | app/assistant.py:122-168 | once finish is set no step of the model changes anything: no transcript is taken, no model call is made, nothing is sent, and a frame received afterwards is dropped (but see Conversation.Apply under Left out) |
| Conversation.ApplyBoundsBuffer | app/assistant.py:126-141 | while speech-to-text succeeds, a step keeps the buffer at most three bytes |
| Conversation.OnFrameBoundsBuffer | app/assistant.py:126-141 | while speech-to-text succeeds, an ingest step leaves at most three bytes buffered |
| Conversation.RunBoundsBuffer | app/assistant.py:126-141 | while speech-to-text succeeds, the buffer never holds more than three bytes between frames |
| Conversation.AttachedCountSnoc | app/assistant.py:169-182 | counting attached messages over one more message |
| Conversation.AttachedCountConcat | app/assistant.py:169-182 | the count of attached messages adds up over a concatenation |
| Conversation.HandsOnOnceTransitive | app/assistant.py:169-182 | handing the pending file on at most once composes over consecutive stretches |
| Conversation.TurnMessagesAttachOnce | app/assistant.py:169-188 | the two messages of a turn carry one attachment in all when a file was pending, none otherwise, and that attachment is the pending file |
| Conversation.TakeTurnAttachesOnce | app/assistant.py:169-188 | a reply turn hands the pending file on exactly once, into its user message |
| Conversation.DeliverAttachesOnce | app/assistant.py:160-192 | a conversation step hands the pending file on at most once |
| Conversation.ApplyAttachesOnce | app/assistant.py:122-192 | any step other than an attach frame hands the pending file on at most once |
| Conversation.RunAttachesOnce | app/assistant.py:122-192 | in any interleaving of frames and conversation steps without an attach frame, if a file was pending, either the new messages carry one attachment in all, which is that file, or none and the file is still pending; if none was pending they carry none |
| Conversation.DeliveriesAttachOnce | app/assistant.py:160-192 | across any number of consecutive conversation steps, if a file was pending, either the new messages carry one attachment in all, which is that file, or none and the file is still pending; if none was pending they carry none |
| Session.AssistantChat | app/assistant.py:36-92 | returns the text of the first assistant message of the listing for the last message, '' when there is none, the IndexError text for an empty list, or the text of the exception raised |
| Session.Assistant.constructor | app/assistant.py:25-34 | a fresh assistant: empty history, no pending file, not finished, empty queue, the given memory size; the end test is `should_end_conversation` |
| Session.Assistant.Put | app/assistant.py:138-140 | `transcript_queue.put`: the event is added at the tail |
| Session.Assistant.IngestAudio | app/assistant.py:125-141 | a binary frame changes the assistant exactly as the ingest step on it does |
| Session.Assistant.IngestText | app/assistant.py:143-153 | a text frame changes the assistant exactly as the ingest step on it does |
| Session.Assistant.IngestFrame | app/assistant.py:123-155 | one ingest iteration keeps the class invariant and changes the assistant exactly as the ingest step on the frame |
| Session.Assistant.TextToSpeech | app/assistant.py:109-118 | sends every chunk synthesis yields, in order, and reports whether synthesis raised |
| Session.Assistant.AddUserMessage | app/assistant.py:169-182 | appends the user message carrying the pending file if one is pending, clears it, and changes nothing else |
| Session.Assistant.AskModel | app/assistant.py:184-187 | the model is handed `chat_messages[-memory_size:]`, that call is recorded, its answer is the response, and nothing else changes |
| Session.Assistant.SendReply | app/assistant.py:188-190 | appends the reply, sends it as JSON then its audio, stops the loop when synthesis raised, and changes nothing else |
| Session.Assistant.Respond | app/assistant.py:169-190 | a reply turn changes the assistant exactly as the pure reply turn |
| Session.Assistant.TakeTranscript | app/assistant.py:163 | `transcript_queue.get()` returns the head and removes it |
| Session.Assistant.HandleTranscript | app/assistant.py:164-192 | acts on a transcript exactly as the conversation step does, with the assistant's end test |
| Session.Assistant.ConverseStep | app/assistant.py:162-192 | one conversation iteration keeps the class invariant, takes the head of the queue and changes the assistant exactly as the conversation step |
| Session.Assistant.TranscribeAudio | app/assistant.py:120-158 | the ingest loop keeps the class invariant, equals the ingest run over the frames it read, and stops early only when finished or disconnected |
| Session.Assistant.ManageConversation | app/assistant.py:160-194 | the conversation loop keeps the class invariant, equals the run of the transcripts it took, takes them in queue order, and stops only when finished, stopped or out of transcripts |

## Left out

- The OpenAI assistant and thread setup (`app/assistant.py:41-46`) and the run and
  listing calls are not modelled. The model's answer is `Services.backend` applied to
  the posted message. The thread's own history is not modelled, and a setup failure
  counts as a raised call. When the window is empty the IndexError text comes first,
  whether or not setup would have failed.
- `upload_pdf` and `add_pdf_context` are the function `Services.upload`.
  - A `None` content makes `os.path.basename(None)` (`app/assistant.py:198`) raise a
    `TypeError` before `upload_pdf` is reached. The error is caught at line 152, and the
    pending file is left unchanged.
  - The file-system read is not modelled.
- ElevenLabs speech-to-text and text-to-speech are the functions `Services.stt` and
  `Services.tts`: request parameters, voice, model and language are not modelled.
- Websocket sends are recorded in order in the outbox and never fail. A send error and
  the closing of the socket are not modelled.
- `websocket.receive()` is the sequence of frames handed to `TranscribeAudio`.
  - A message that has neither `bytes` nor `text` is `Disconnect`.
  - `WebSocketDisconnect` raised by `receive` is not modelled.
- asyncio scheduling is not modelled: the `TaskGroup`, the blocking `transcript_queue.get()`
  and the `finish_event` wake-ups. `Run` covers every interleaving of whole loop
  iterations. An iteration interrupted half-way by the other task is not modelled, and
  `ManageConversation` returns where the source would wait on an empty queue.
- Conversation.Apply: the source still processes a frame whose `websocket.receive()`
  (`app/assistant.py:123`) was already waiting when `finish_event` was set (line 166).
  The ingest loop tests the flag only after that frame. The model drops every frame
  received after finish, so `Conversation.FinishedIsTerminal` does not cover that last
  frame.
- `json.loads` is the `Json` value: a parse failure or a non-object is `Malformed`.
  A non-string `content` is `None`, which the conversation loop treats like a missing
  text: `should_end_conversation` raises and the loop stops.
- The `print` logging of errors is not modelled.
- `transcript_parts`, `system_message` and `httpx_client` are never used by the core and
  are not modelled. The commented-out streaming code is not modelled either.
- `main.py` and `app/config.py` are not part of this model.
- EndDetector.ShouldEndConversation: character classes follow Python only on ASCII.
  Non-ASCII whitespace, non-ASCII upper case and non-ASCII word characters count as
  ordinary characters that are not word characters.
- Session.Assistant.IngestAudio: the ingest loop's local `buffer` is a field of the
  object, so that one iteration can be a method.
- Conversation.RunBoundsBuffer: the bound holds only while speech-to-text succeeds. A
  failing call keeps the bytes and the buffer grows, as in the source.
- Conversation.FailSoftReply: stated for a `memory_size` of 0 or more. With a negative
  size the window is empty once `-memory_size` exceeds the history. The reply is then
  the IndexError text (`Conversation.ChatResponse`), and the backend is not asked.
