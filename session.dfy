/**
 * The assistant object of one session: its fields, the body of each of its two loops as
 * a step method, and the loops themselves, each proved against the pure functions of
 * module Conversation.
 */
module Session {
  import opened Wrappers
  import opened EndDetector
  import opened Conversation

  /**
   * `assistant_chat`: hand the last message to the model and return the text of the first
   * assistant message of the thread listing; any exception is returned as its text
   * instead of being raised.
   */
  method AssistantChat(messages: seq<Message>, backend: Message -> ChatOutcome) returns (response: string)
    ensures response == ChatResponse(messages, backend)
  {
    if |messages| == 0 {
      return IndexErrorText;
    }
    var msg := messages[|messages| - 1];
    match backend(msg) {
      case Raised(error) =>
        response := error;
      case Listed(listing) =>
        var replies: seq<ThreadMessage> := [];
        var i := 0;
        while i < |listing|
          invariant 0 <= i <= |listing|
          invariant replies == AssistantReplies(listing[..i])
        {
          assert listing[..i + 1][..i] == listing[..i];
          if listing[i].role == AssistantRole {
            replies := replies + [listing[i]];
          }
          i := i + 1;
        }
        assert listing[..i] == listing;
        var first := replies[..Min(1, |replies|)];
        response := "";
        for j := 0 to |first|
          invariant response == if j == 0 then "" else first[0].text
        {
          response := response + first[j].text;
        }
    }
  }

  class Assistant {
    var chatMessages: seq<Message>
    var fileId: Option<string>
    const memorySize: int
    /** should_end_conversation, fixed at construction */
    const endTest: string -> bool
    /** finish_event */
    var finished: bool
    /** transcript_queue, head first */
    var transcriptQueue: seq<Event>
    /** the byte buffer of the ingest loop */
    var buffer: seq<Byte>
    /** the ingest loop has exited */
    var ingestDone: bool
    /** the conversation loop has exited */
    var managerDone: bool
    /** every send on the websocket, in order */
    var outbox: seq<Outbound>
    /** the message lists handed to the model, in order */
    var modelCalls: seq<seq<Message>>
    ghost var produced: seq<Event>
    ghost var consumed: seq<Event>

    ghost function Snapshot(): State
      reads this
    {
      State(chatMessages, fileId, memorySize, finished, ingestDone, managerDone, buffer,
            transcriptQueue, outbox, modelCalls, produced, consumed)
    }

    /** The queue holds exactly the events queued and not yet taken; the history is paired */
    ghost predicate Valid()
      reads this
    {
      QueueAccounted(Snapshot()) && Paired(Snapshot())
    }

    /** `Assistant(websocket, memory_size=10)` */
    constructor(memorySize: int := DefaultMemorySize)
      ensures Valid() && Snapshot() == Init(memorySize)
      ensures endTest == ShouldEndConversation
    {
      endTest := ShouldEndConversation;
      chatMessages := [];
      fileId := None;
      this.memorySize := memorySize;
      finished := false;
      transcriptQueue := [];
      buffer := [];
      ingestDone := false;
      managerDone := false;
      outbox := [];
      modelCalls := [];
      produced := [];
      consumed := [];
    }

    method Put(e: Event)
      modifies this`transcriptQueue, this`produced
      ensures transcriptQueue == old(transcriptQueue) + [e] && produced == old(produced) + [e]
    {
      transcriptQueue := transcriptQueue + [e];
      produced := produced + [e];
    }

    /** A binary frame: buffer the bytes, and once more than BufferThreshold are held transcribe them, queue the text and clear the buffer */
    method IngestAudio(bytes: seq<Byte>, svc: Services)
      modifies this`buffer, this`transcriptQueue, this`produced
      ensures Snapshot() == OnFrame(old(Snapshot()), Binary(bytes), svc)
    {
      buffer := buffer + bytes;
      if |buffer| > BufferThreshold {
        var transcription := svc.stt(buffer);
        if transcription.Some? {
          Put(SpeechFinal(Some(transcription.value)));
          buffer := [];
        }
      }
    }

    /** A text frame: an attach uploads the file and keeps its id, anything else is queued as a speech_final */
    method IngestText(json: Json, svc: Services)
      modifies this`transcriptQueue, this`produced, this`fileId
      ensures Snapshot() == OnFrame(old(Snapshot()), Text(json), svc)
    {
      match json {
        case Malformed =>
        case Object(kind, content) =>
          if kind == Some("attach") {
            if content.Some? {
              var uploaded := svc.upload(content.value);
              if uploaded.Some? {
                fileId := uploaded;
              }
            }
          } else {
            Put(SpeechFinal(content));
          }
      }
    }

    /** One iteration of the `transcribe_audio` loop on a received frame */
    method IngestFrame(frame: Frame, svc: Services)
      requires Valid()
      modifies this`buffer, this`transcriptQueue, this`produced, this`fileId, this`ingestDone
      ensures Valid()
      ensures Snapshot() == OnFrame(old(Snapshot()), frame, svc)
    {
      ghost var before := Snapshot();
      match frame {
        case Disconnect =>
          ingestDone := true;
        case Binary(bytes) =>
          IngestAudio(bytes, svc);
        case Text(json) =>
          IngestText(json, svc);
      }
      OnFrameFrame(before, frame, svc);
      assert before.produced + transcriptQueue[|before.queue|..] == before.consumed + transcriptQueue;
    }

    /** `text_to_speech`: send the audio chunks one by one; reports whether synthesis raised */
    method TextToSpeech(text: string, tts: string -> Speech) returns (failed: bool)
      modifies this`outbox
      ensures outbox == old(outbox) + AudioFrames(tts(text).chunks)
      ensures failed == tts(text).failed
    {
      var speech := tts(text);
      var i := 0;
      while i < |speech.chunks|
        invariant 0 <= i <= |speech.chunks|
        invariant outbox == old(outbox) + AudioFrames(speech.chunks[..i])
      {
        outbox := outbox + [Audio(speech.chunks[i])];
        i := i + 1;
      }
      assert speech.chunks[..i] == speech.chunks;
      failed := speech.failed;
    }

    /** Append the user message for a transcript, attaching the pending file and clearing it */
    method AddUserMessage(text: string)
      modifies this`chatMessages, this`fileId
      ensures Snapshot() == old(Snapshot()).(chat := old(chatMessages) + [UserMessage(text, old(fileId))],
                                             fileId := if Pending(old(fileId)) then None else old(fileId))
    {
      if Pending(fileId) {
        chatMessages := chatMessages + [Message(UserRole, text, Some([Attachment([CodeInterpreter], fileId.value)]))];
        fileId := None;
      } else {
        chatMessages := chatMessages + [Message(UserRole, text, None)];
      }
    }

    /** `assistant_chat(self.chat_messages[-self.memory_size:])`, recording the messages handed to the model */
    method AskModel(backend: Message -> ChatOutcome) returns (response: string)
      modifies this`modelCalls
      ensures Snapshot() == old(Snapshot()).(calls := old(modelCalls) + [Window(chatMessages, memorySize)])
      ensures response == ChatResponse(Window(chatMessages, memorySize), backend)
    {
      var window := Window(chatMessages, memorySize);
      modelCalls := modelCalls + [window];
      response := AssistantChat(window, backend);
    }

    /** Append the reply to the history, send it, then speak it; a failing synthesis ends the loop */
    method SendReply(response: string, tts: string -> Speech)
      modifies this`chatMessages, this`outbox, this`managerDone
      ensures Snapshot() == old(Snapshot()).(chat := old(chatMessages) + [Message(AssistantRole, response, None)],
                                             outbox := old(outbox) + [AssistantText(response)] + AudioFrames(tts(response).chunks),
                                             managerDone := old(managerDone) || tts(response).failed)
    {
      chatMessages := chatMessages + [Message(AssistantRole, response, None)];
      outbox := outbox + [AssistantText(response)];
      var failed := TextToSpeech(response, tts);
      if failed {
        managerDone := true;
      }
    }

    /** The reply part of a `manage_conversation` iteration, for a transcript that is not a farewell */
    method Respond(text: string, svc: Services)
      modifies this`chatMessages, this`fileId, this`modelCalls, this`outbox, this`managerDone
      ensures Snapshot() == TakeTurn(old(Snapshot()), text, svc)
    {
      ghost var before := Snapshot();
      ghost var user := UserMessage(text, fileId);
      AddUserMessage(text);
      ghost var added := Snapshot();
      assert added.chat == before.chat + [user];
      ghost var window := Window(before.chat + [user], before.memorySize);
      var response := AskModel(svc.backend);
      ghost var asked := Snapshot();
      assert asked == added.(calls := before.calls + [window]);
      assert response == ChatResponse(window, svc.backend);
      SendReply(response, svc.tts);
      TakeTurnFields(before, text, svc, Snapshot());
    }

    /** `transcript_queue.get()` on a non-empty queue */
    method TakeTranscript() returns (transcript: Event)
      requires transcriptQueue != []
      modifies this`transcriptQueue, this`consumed
      ensures transcript == old(transcriptQueue)[0]
      ensures Snapshot() == Take(old(Snapshot()))
    {
      transcript := transcriptQueue[0];
      transcriptQueue := transcriptQueue[1..];
      consumed := consumed + [transcript];
    }

    /** What the `manage_conversation` loop does with the transcript it took */
    method HandleTranscript(transcript: Event, svc: Services)
      modifies this`chatMessages, this`fileId, this`modelCalls, this`outbox, this`managerDone, this`finished
      ensures Snapshot() == Handle(old(Snapshot()), transcript, svc, endTest)
    {
      ghost var before := Snapshot();
      match transcript {
        case Other(_) =>
          outbox := outbox + [Forwarded(transcript)];
          HandleForward(before, transcript, svc, endTest);
        case SpeechFinal(content) =>
          if content.None? {
            // should_end_conversation raises on a missing text; the loop's handler ends the loop
            managerDone := true;
            HandleMissingText(before, svc, endTest);
          } else if endTest(content.value) {
            finished := true;
            outbox := outbox + [Finish];
            managerDone := true;
            HandleFarewell(before, content.value, svc, endTest);
          } else {
            Respond(content.value, svc);
            HandleReply(before, content.value, svc, endTest);
          }
      }
    }

    /** One iteration of the `manage_conversation` loop: take the head of the queue and act on it */
    method ConverseStep(svc: Services)
      requires Valid() && transcriptQueue != []
      modifies this
      ensures Valid()
      ensures Snapshot() == OnEvent(old(Snapshot()), svc, endTest)
      ensures transcriptQueue == old(transcriptQueue)[1..]
      ensures consumed == old(consumed) + [old(transcriptQueue)[0]]
    {
      ghost var before := Snapshot();
      var transcript := TakeTranscript();
      HandleTranscript(transcript, svc);
      OnEventDeliversInOrder(before, svc, endTest);
      OnEventKeepsHistoryPaired(before, svc, endTest);
    }

    /** `transcribe_audio` over the frames the websocket delivers; read is how many it took */
    method TranscribeAudio(frames: seq<Frame>, svc: Services) returns (read: nat)
      requires Valid()
      modifies this
      ensures Valid() && read <= |frames|
      ensures Snapshot() == Run(old(Snapshot()), Receives(frames[..read]), svc, endTest)
      ensures read < |frames| ==> finished || ingestDone
    {
      ghost var start := Snapshot();
      read := 0;
      while read < |frames| && !finished && !ingestDone
        invariant Valid() && 0 <= read <= |frames|
        invariant Snapshot() == Run(start, Receives(frames[..read]), svc, endTest)
      {
        IngestFrame(frames[read], svc);
        RunReceivesSnoc(start, frames, read, svc, endTest);
        read := read + 1;
      }
    }

    /** `manage_conversation` until it exits or would wait on an empty queue; handled is how many events it took */
    method ManageConversation(svc: Services) returns (handled: nat)
      requires Valid()
      modifies this
      ensures Valid()
      ensures Snapshot() == Run(old(Snapshot()), Delivers(handled), svc, endTest)
      ensures finished || managerDone || transcriptQueue == []
      ensures handled <= |old(transcriptQueue)| && consumed == old(consumed) + old(transcriptQueue)[..handled]
    {
      ghost var start := Snapshot();
      handled := 0;
      while !finished && !managerDone && transcriptQueue != []
        invariant Valid()
        invariant Snapshot() == Run(start, Delivers(handled), svc, endTest)
        invariant handled <= |start.queue| && transcriptQueue == start.queue[handled..]
        invariant consumed == start.consumed + start.queue[..handled]
        decreases |transcriptQueue|
      {
        RunDeliversStep(start, handled, svc, endTest);
        ConverseStep(svc);
        SliceStep(start.queue, handled);
        handled := handled + 1;
      }
    }
  }
}
