/**
 * The state of one assistant session and what one step of each of its two loops does
 * to it, as pure functions:
 *  - OnFrame: one iteration of the ingest loop (`transcribe_audio`) on one inbound frame;
 *  - OnEvent: one iteration of the conversation loop (`manage_conversation`) on the head
 *    of the transcript queue.
 * A run is any interleaving of the two kinds of step (how asyncio schedules them is not
 * modelled); the lemmas at the end hold for every interleaving.
 *
 * The conversation loop's end-of-conversation test is the parameter `ends`, so every
 * lemma here holds whatever the test is; the assistant (module Session) uses
 * EndDetector.ShouldEndConversation.
 *
 * The outside services (speech-to-text, file upload, the language model, text-to-speech)
 * are the functions of a Services value; what the session sends out is recorded, in
 * order, in the outbox.
 */
module Conversation {
  import opened Wrappers

  newtype Byte = b: int | 0 <= b < 256

  /** `memory_size` when the caller gives none */
  const DefaultMemorySize: int := 10

  /** The ingest loop transcribes once the audio buffer holds MORE than this many bytes */
  const BufferThreshold: nat := 3

  /** `str(error)` of the IndexError raised by `messages[-1]` on an empty list */
  const IndexErrorText: string := "list index out of range"

  // ---------------------------------------------------------------------------
  // Data model
  // ---------------------------------------------------------------------------

  datatype Role = UserRole | AssistantRole

  datatype Tool = CodeInterpreter

  /** One entry of a message's 'attachments' list: the tools and the uploaded file id */
  datatype Attachment = Attachment(tools: seq<Tool>, fileId: string)

  /** An entry of `chat_messages`; attachments is None when the key is absent */
  datatype Message = Message(role: Role, content: string, attachments: Option<seq<Attachment>>)

  /**
   * A queued transcript. Everything the ingest loop queues is a speech_final whose content
   * is a string, or None when a text frame carried no string 'content'; Other stands for a
   * dictionary of any other type, which the conversation loop forwards as it is.
   */
  datatype Event = SpeechFinal(content: Option<string>) | Other(payload: string)

  /**
   * A text frame after `json.loads`: Malformed when parsing fails or the value is not an
   * object; otherwise the string values of 'type' and 'content' (None when absent or not
   * a string).
   */
  datatype Json = Malformed | Object(kind: Option<string>, content: Option<string>)

  /** What `websocket.receive()` returns: bytes, text, or neither (the client went away) */
  datatype Frame = Binary(bytes: seq<Byte>) | Text(json: Json) | Disconnect

  /** One outbound send, in the order it happened */
  datatype Outbound =
    | Finish                          // send_json({'type': 'finish'})
    | AssistantText(content: string)  // send_json({'type': 'assistant', 'content': ...})
    | Forwarded(event: Event)         // send_json(transcript)
    | Audio(chunk: seq<Byte>)         // send_bytes(chunk)

  /** A message of the language-model thread as the listing returns it */
  datatype ThreadMessage = ThreadMessage(role: Role, text: string)

  /** The language model's side of one call: the thread listing, or the text of the exception raised */
  datatype ChatOutcome = Listed(messages: seq<ThreadMessage>) | Raised(error: string)

  /** The audio chunks text-to-speech yields, and whether it then raised */
  datatype Speech = Speech(chunks: seq<seq<Byte>>, failed: bool)

  /**
   * The outside services. stt and upload give None when the call raises; backend answers
   * the posted message (the last of the messages handed to the model).
   */
  datatype Services = Services(
    stt: seq<Byte> -> Option<string>,
    upload: string -> Option<string>,
    backend: Message -> ChatOutcome,
    tts: string -> Speech)

  /**
   * One session. chat, fileId, memorySize, finished and queue are the assistant's fields;
   * buffer is the ingest loop's byte buffer; ingestDone and managerDone say that the
   * ingest or the conversation loop has exited; outbox and calls record the sends and the
   * message lists handed to the model; produced and consumed record every event put on
   * and taken off the queue.
   */
  datatype State = State(
    chat: seq<Message>,
    fileId: Option<string>,
    memorySize: int,
    finished: bool,
    ingestDone: bool,
    managerDone: bool,
    buffer: seq<Byte>,
    queue: seq<Event>,
    outbox: seq<Outbound>,
    calls: seq<seq<Message>>,
    produced: seq<Event>,
    consumed: seq<Event>)

  /** A fresh session (`Assistant.__init__`): nothing queued, sent or said yet, and both loops still to run */
  function Init(memorySize: int): (r: State)
    ensures QueueAccounted(r) && Paired(r) && AllSpeech(r.queue) && NothingForwarded(r.outbox)
    ensures r.memorySize == memorySize && r.fileId == None && r.buffer == []
    ensures r.chat == [] && r.calls == [] && r.queue == [] && r.outbox == [] && r.produced == [] && r.consumed == []
    ensures !r.finished && !r.ingestDone && !r.managerDone
  {
    State([], None, memorySize, false, false, false, [], [], [], [], [], [])
  }

  // ---------------------------------------------------------------------------
  // Helpers of the conversation turn
  // ---------------------------------------------------------------------------

  function Min(a: int, b: int): int {
    if a <= b then a else b
  }

  /** Python's `s[start:]`: a negative start counts from the end; both are clamped to the list */
  function PySliceFrom<T>(s: seq<T>, start: int): seq<T> {
    var i := if start < 0 then start + |s| else start;
    var j := if i < 0 then 0 else if i > |s| then |s| else i;
    s[j..]
  }

  /** `chat_messages[-memory_size:]`, the messages handed to the model */
  function Window(chat: seq<Message>, memorySize: int): (r: seq<Message>)
    ensures memorySize >= 1 ==> |r| == Min(memorySize, |chat|) && r == chat[|chat| - |r|..]
    ensures memorySize == 0 ==> r == chat
    ensures memorySize < 0 ==> r == chat[Min(-memorySize, |chat|)..]
  {
    PySliceFrom(chat, -memorySize)
  }

  /** `if self.file_id:` — a file id is pending when present and not empty */
  predicate Pending(fileId: Option<string>): (r: bool)
    ensures r <==> fileId != None && fileId != Some("")
  {
    fileId.Some? && fileId.value != ""
  }

  /** The user message for a transcript, carrying the pending file as its only attachment */
  function UserMessage(content: string, fileId: Option<string>): (r: Message)
    ensures r.role == UserRole && r.content == content
    ensures r.attachments.Some? <==> Pending(fileId)
    ensures Pending(fileId) ==> r.attachments == Some([Attachment([CodeInterpreter], fileId.value)])
  {
    if Pending(fileId) then
      Message(UserRole, content, Some([Attachment([CodeInterpreter], fileId.value)]))
    else
      Message(UserRole, content, None)
  }

  /** The assistant-role messages of a listing, in listing order */
  function AssistantReplies(listing: seq<ThreadMessage>): (r: seq<ThreadMessage>)
    ensures forall i :: 0 <= i < |r| ==> r[i].role == AssistantRole && r[i] in listing
  {
    if listing == [] then []
    else
      var last := listing[|listing| - 1];
      AssistantReplies(listing[..|listing| - 1]) + (if last.role == AssistantRole then [last] else [])
  }

  lemma {:induction false} NoAssistantReplies(listing: seq<ThreadMessage>)
    requires forall k :: 0 <= k < |listing| ==> listing[k].role != AssistantRole
    ensures AssistantReplies(listing) == []
  {
    if listing != [] {
      NoAssistantReplies(listing[..|listing| - 1]);
    }
  }

  /** The first reply is the first assistant message in listing order */
  lemma {:induction false} FirstAssistantReply(listing: seq<ThreadMessage>, j: nat)
    requires j < |listing| && listing[j].role == AssistantRole
    requires forall k :: 0 <= k < j ==> listing[k].role != AssistantRole
    ensures AssistantReplies(listing) != [] && AssistantReplies(listing)[0] == listing[j]
  {
    var init := listing[..|listing| - 1];
    if j == |listing| - 1 {
      NoAssistantReplies(init);
    } else {
      FirstAssistantReply(init, j);
    }
  }

  /**
   * What `assistant_chat(messages)` returns: the text of the first assistant message of the
   * listing ('' when there is none), or the text of whatever exception was raised.
   */
  function ChatResponse(messages: seq<Message>, backend: Message -> ChatOutcome): (r: string)
    ensures messages == [] ==> r == IndexErrorText
    ensures messages != [] && backend(messages[|messages| - 1]).Raised? ==> r == backend(messages[|messages| - 1]).error
    ensures messages != [] && backend(messages[|messages| - 1]).Listed? ==>
      var listing := backend(messages[|messages| - 1]).messages;
      r == "" || exists k :: 0 <= k < |listing| && listing[k].role == AssistantRole && listing[k].text == r
  {
    if messages == [] then IndexErrorText
    else
      match backend(messages[|messages| - 1])
      case Raised(error) => error
      case Listed(listing) =>
        var replies := AssistantReplies(listing);
        if replies == [] then "" else replies[0].text
  }

  function AudioFrames(chunks: seq<seq<Byte>>): (r: seq<Outbound>)
    ensures |r| == |chunks|
  {
    seq(|chunks|, i requires 0 <= i < |chunks| => Audio(chunks[i]))
  }

  // ---------------------------------------------------------------------------
  // The two loop bodies
  // ---------------------------------------------------------------------------

  function Enqueue(s: State, e: Event): State {
    s.(queue := s.queue + [e], produced := s.produced + [e])
  }

  /**
   * One iteration of the ingest loop on frame f. It never touches the history, the model
   * calls, the sends, the memory size or the end of the conversation, and queues at most
   * one event, at the tail.
   */
  function OnFrame(s: State, f: Frame, svc: Services): (r: State)
    ensures r.chat == s.chat && r.calls == s.calls && r.outbox == s.outbox && r.memorySize == s.memorySize
    ensures r.consumed == s.consumed && r.finished == s.finished && r.managerDone == s.managerDone
    ensures s.queue <= r.queue && |r.queue| <= |s.queue| + 1 && s.produced <= r.produced
  {
    match f
    case Disconnect => s.(ingestDone := true)
    case Binary(bytes) =>
      var buffer := s.buffer + bytes;
      if |buffer| > BufferThreshold then
        match svc.stt(buffer)
        case Some(text) => Enqueue(s.(buffer := []), SpeechFinal(Some(text)))
        case None => s.(buffer := buffer)
      else
        s.(buffer := buffer)
    case Text(Malformed) => s
    case Text(Object(kind, content)) =>
      if kind == Some("attach") then
        if content.None? then s
        else
          match svc.upload(content.value)
          case Some(id) => s.(fileId := Some(id))
          case None => s
      else
        Enqueue(s, SpeechFinal(content))
  }

  /**
   * A transcript that is not a farewell: the user message, the model call, the reply and
   * its audio. The history gains two messages, one model call is made, something is sent,
   * and no file stays pending; the queue and the ingest loop are left alone.
   */
  function TakeTurn(s: State, text: string, svc: Services): (r: State)
    ensures |r.chat| == |s.chat| + 2 && s.chat <= r.chat
    ensures |r.calls| == |s.calls| + 1 && s.calls <= r.calls
    ensures |r.outbox| > |s.outbox| && s.outbox <= r.outbox
    ensures !Pending(r.fileId) && (r.fileId == s.fileId || Pending(s.fileId))
    ensures r.queue == s.queue && r.buffer == s.buffer && r.finished == s.finished && r.ingestDone == s.ingestDone
  {
    var chat := s.chat + [UserMessage(text, s.fileId)];
    var window := Window(chat, s.memorySize);
    var response := ChatResponse(window, svc.backend);
    var speech := svc.tts(response);
    s.(chat := chat + [Message(AssistantRole, response, None)],
       fileId := if Pending(s.fileId) then None else s.fileId,
       calls := s.calls + [window],
       outbox := s.outbox + [AssistantText(response)] + AudioFrames(speech.chunks),
       managerDone := s.managerDone || speech.failed)
  }

  /** `transcript_queue.get()`: the head of the queue is taken off and logged */
  function Take(s: State): (r: State)
    requires s.queue != []
    ensures r.consumed + r.queue == s.consumed + s.queue && |r.queue| == |s.queue| - 1
    ensures r == s.(queue := r.queue, consumed := r.consumed)
  {
    s.(queue := s.queue[1..], consumed := s.consumed + [s.queue[0]])
  }

  /** What the conversation loop does with a transcript it has taken; ends(text) is `should_end_conversation(text)` */
  function Handle(s: State, e: Event, svc: Services, ends: string -> bool): (r: State)
    ensures r.queue == s.queue && r.produced == s.produced && r.consumed == s.consumed
    ensures r.buffer == s.buffer && r.ingestDone == s.ingestDone && r.memorySize == s.memorySize
    ensures s.chat <= r.chat && s.calls <= r.calls && s.outbox <= r.outbox
    ensures s.finished ==> r.finished
  {
    match e
    case Other(_) => s.(outbox := s.outbox + [Forwarded(e)])
    case SpeechFinal(None) => s.(managerDone := true)
    case SpeechFinal(Some(text)) =>
      if ends(text) then
        s.(finished := true, managerDone := true, outbox := s.outbox + [Finish])
      else
        TakeTurn(s, text, svc)
  }

  /** One iteration of the conversation loop: take the head of the queue and act on it */
  function OnEvent(s: State, svc: Services, ends: string -> bool): (r: State)
    requires s.queue != []
    ensures r.queue == s.queue[1..] && r.consumed == s.consumed + [s.queue[0]] && r.produced == s.produced
    ensures r.buffer == s.buffer && r.ingestDone == s.ingestDone && r.memorySize == s.memorySize
    ensures s.chat <= r.chat && s.calls <= r.calls && s.outbox <= r.outbox
  {
    Handle(Take(s), s.queue[0], svc, ends)
  }

  // ---------------------------------------------------------------------------
  // What one conversation step does
  // ---------------------------------------------------------------------------

  /** A farewell: finish is sent, the loop ends, and nothing else changes — no model call, no history, the pending file kept */
  lemma FarewellTurn(s: State, svc: Services, ends: string -> bool)
    requires s.queue != [] && s.queue[0].SpeechFinal? && s.queue[0].content.Some?
    requires ends(s.queue[0].content.value)
    ensures var t := OnEvent(s, svc, ends);
      t.finished && t.managerDone && t.outbox == s.outbox + [Finish]
      && t.chat == s.chat && t.fileId == s.fileId && t.calls == s.calls
      && t.queue == s.queue[1..] && t.consumed == s.consumed + [s.queue[0]]
  {
  }

  /** TakeTurn field by field */
  lemma TakeTurnEffect(s: State, text: string, svc: Services)
    ensures var t := TakeTurn(s, text, svc);
      var user := UserMessage(text, s.fileId);
      var window := Window(s.chat + [user], s.memorySize);
      var response := ChatResponse(window, svc.backend);
      t.chat == s.chat + [user, Message(AssistantRole, response, None)]
      && t.calls == s.calls + [window]
      && t.fileId == (if Pending(s.fileId) then None else s.fileId)
      && t.outbox == s.outbox + [AssistantText(response)] + AudioFrames(svc.tts(response).chunks)
      && t.managerDone == (s.managerDone || svc.tts(response).failed)
      && t.finished == s.finished && t.queue == s.queue && t.memorySize == s.memorySize
  {
    var t := TakeTurn(s, text, svc);
    var user := UserMessage(text, s.fileId);
    var window := Window(s.chat + [user], s.memorySize);
    var response := ChatResponse(window, svc.backend);
    var reply := Message(AssistantRole, response, None);
    assert t.chat == s.chat + [user] + [reply];
    assert s.chat + [user] + [reply] == s.chat + [user, reply];
    assert t.calls == s.calls + [window];
    assert t.outbox == s.outbox + [AssistantText(response)] + AudioFrames(svc.tts(response).chunks);
  }

  /** A state whose five turn fields hold what a reply turn leaves there is that turn's result */
  lemma TakeTurnFields(s: State, text: string, svc: Services, t: State)
    requires var user := UserMessage(text, s.fileId);
      var window := Window(s.chat + [user], s.memorySize);
      var response := ChatResponse(window, svc.backend);
      t == s.(chat := s.chat + [user] + [Message(AssistantRole, response, None)],
              fileId := if Pending(s.fileId) then None else s.fileId,
              calls := s.calls + [window],
              outbox := s.outbox + [AssistantText(response)] + AudioFrames(svc.tts(response).chunks),
              managerDone := s.managerDone || svc.tts(response).failed)
    ensures t == TakeTurn(s, text, svc)
  {
  }

  /** A transcript with text that is not a farewell is a reply turn */
  lemma ReplyIsTurn(s: State, svc: Services, ends: string -> bool)
    requires s.queue != [] && s.queue[0].SpeechFinal? && s.queue[0].content.Some?
    requires !ends(s.queue[0].content.value)
    ensures OnEvent(s, svc, ends) == TakeTurn(Take(s), s.queue[0].content.value, svc)
  {
    HandleCases(Take(s), s.queue[0], svc, ends);
  }

  /**
   * Any other transcript: the history grows by the user message then the assistant reply,
   * the pending file goes into that user message and is cleared, and the model is called
   * once, on the window that ends with the new user message.
   */
  lemma ReplyTurn(s: State, svc: Services, ends: string -> bool)
    requires s.queue != [] && s.queue[0].SpeechFinal? && s.queue[0].content.Some?
    requires !ends(s.queue[0].content.value)
    ensures var t := OnEvent(s, svc, ends);
      var user := UserMessage(s.queue[0].content.value, s.fileId);
      var window := Window(s.chat + [user], s.memorySize);
      t.chat == s.chat + [user, Message(AssistantRole, ChatResponse(window, svc.backend), None)]
      && user.role == UserRole && user.content == s.queue[0].content.value
      && t.fileId == (if Pending(s.fileId) then None else s.fileId)
      && t.calls == s.calls + [window]
      && t.finished == s.finished && t.queue == s.queue[1..]
  {
    ReplyIsTurn(s, svc, ends);
    TakeTurnEffect(Take(s), s.queue[0].content.value, svc);
  }

  /** With memory_size at least 1 the model gets the last min(memory_size, len) messages, the newest being the user message just added */
  lemma WindowEndsWithNewMessage(chat: seq<Message>, user: Message, memorySize: int)
    requires memorySize >= 1
    ensures var window := Window(chat + [user], memorySize);
      |window| == Min(memorySize, |chat| + 1) && window[|window| - 1] == user
      && window == (chat + [user])[|chat| + 1 - |window|..]
  {
    var all := chat + [user];
    var window := Window(all, memorySize);
    assert window == all[|all| - |window|..];
    assert window[|window| - 1] == all[|all| - 1];
  }

  /** Unless memory_size is negative, the message `assistant_chat` posts is the user message just added */
  lemma PostedIsNewMessage(chat: seq<Message>, user: Message, memorySize: int)
    requires memorySize >= 0
    ensures var window := Window(chat + [user], memorySize);
      window != [] && window[|window| - 1] == user
  {
    if memorySize >= 1 {
      WindowEndsWithNewMessage(chat, user, memorySize);
    }
  }

  /** A failing model call is no exception: its text becomes the assistant reply, which is sent and spoken like any other (memory_size >= 0, so the posted message is the new user message) */
  lemma FailSoftReply(s: State, svc: Services, ends: string -> bool, error: string)
    requires s.queue != [] && s.queue[0].SpeechFinal? && s.queue[0].content.Some?
    requires !ends(s.queue[0].content.value)
    requires s.memorySize >= 0
    requires svc.backend(UserMessage(s.queue[0].content.value, s.fileId)) == Raised(error)
    ensures var t := OnEvent(s, svc, ends);
      t.chat[|t.chat| - 1] == Message(AssistantRole, error, None)
      && t.outbox[|s.outbox|] == AssistantText(error)
  {
    var text := s.queue[0].content.value;
    var u := Take(s);
    var user := UserMessage(text, u.fileId);
    var window := Window(u.chat + [user], u.memorySize);
    PostedIsNewMessage(u.chat, user, u.memorySize);
    assert window[|window| - 1] == user;
    assert ChatResponse(window, svc.backend) == error;
    ReplyIsTurn(s, svc, ends);
    TakeTurnEffect(u, text, svc);
  }

  /** The reply goes out as JSON first, followed only by the audio chunks spoken from it */
  lemma ReplyBeforeAudio(s: State, svc: Services, ends: string -> bool)
    requires s.queue != [] && s.queue[0].SpeechFinal? && s.queue[0].content.Some?
    requires !ends(s.queue[0].content.value)
    ensures var t := OnEvent(s, svc, ends);
      var reply := t.chat[|t.chat| - 1].content;
      t.outbox == s.outbox + [AssistantText(reply)] + AudioFrames(svc.tts(reply).chunks)
      && (forall i :: |s.outbox| < i < |t.outbox| ==> t.outbox[i].Audio?)
  {
    ReplyIsTurn(s, svc, ends);
    TakeTurnEffect(Take(s), s.queue[0].content.value, svc);
  }

  /** A pending file goes into the next user message only: the turn after it carries no attachment */
  lemma AttachmentNotRepeated(s: State, svc: Services, ends: string -> bool)
    requires |s.queue| >= 2 && Pending(s.fileId)
    requires s.queue[0].SpeechFinal? && s.queue[0].content.Some? && !ends(s.queue[0].content.value)
    requires s.queue[1].SpeechFinal? && s.queue[1].content.Some? && !ends(s.queue[1].content.value)
    ensures var t := OnEvent(s, svc, ends);
      var u := OnEvent(t, svc, ends);
      |s.chat| + 2 <= |t.chat| && |t.chat| + 2 <= |u.chat|
      && t.chat[|s.chat|].attachments == Some([Attachment([CodeInterpreter], s.fileId.value)])
      && u.chat[|t.chat|].attachments.None?
      && t.fileId == None && u.fileId == None
  {
    ReplyTurn(s, svc, ends);
    var t := OnEvent(s, svc, ends);
    ReplyTurn(t, svc, ends);
  }

  /** A speech_final without text makes the conversation loop exit without finishing and without sending anything */
  lemma MissingTextStopsLoop(s: State, svc: Services, ends: string -> bool)
    requires s.queue != [] && s.queue[0] == SpeechFinal(None)
    ensures var t := OnEvent(s, svc, ends);
      t.managerDone && t.finished == s.finished && t.chat == s.chat && t.outbox == s.outbox && t.calls == s.calls
  {
  }

  // ---------------------------------------------------------------------------
  // Runs: interleavings of the two loops
  // ---------------------------------------------------------------------------

  datatype Step = Receive(frame: Frame) | Deliver

  /** A step of either loop; a loop that has exited, or a conversation loop waiting on an empty queue, does nothing */
  function Apply(s: State, step: Step, svc: Services, ends: string -> bool): (r: State)
    ensures s.finished ==> r == s
    ensures s.chat <= r.chat && s.calls <= r.calls && s.outbox <= r.outbox
    ensures s.produced <= r.produced && s.consumed <= r.consumed && r.memorySize == s.memorySize
  {
    match step
    case Receive(f) => if s.finished || s.ingestDone then s else OnFrame(s, f, svc)
    case Deliver => if s.finished || s.managerDone || s.queue == [] then s else OnEvent(s, svc, ends)
  }

  /** A run of steps; the history, the model calls, the sends and both event logs only grow */
  function Run(s: State, steps: seq<Step>, svc: Services, ends: string -> bool): (r: State)
    ensures s.chat <= r.chat && s.calls <= r.calls && s.outbox <= r.outbox
    ensures s.produced <= r.produced && s.consumed <= r.consumed && r.memorySize == s.memorySize
  {
    if steps == [] then s
    else Apply(Run(s, steps[..|steps| - 1], svc, ends), steps[|steps| - 1], svc, ends)
  }

  /** One Receive step per frame, in order */
  function Receives(frames: seq<Frame>): (r: seq<Step>)
    ensures |r| == |frames|
  {
    if frames == [] then [] else Receives(frames[..|frames| - 1]) + [Receive(frames[|frames| - 1])]
  }

  /** n Deliver steps */
  function Delivers(n: nat): (r: seq<Step>)
    ensures |r| == n
  {
    if n == 0 then [] else Delivers(n - 1) + [Deliver]
  }

  lemma RunSnoc(s: State, steps: seq<Step>, step: Step, svc: Services, ends: string -> bool)
    ensures Run(s, steps + [step], svc, ends) == Apply(Run(s, steps, svc, ends), step, svc, ends)
  {
    assert (steps + [step])[..|steps|] == steps;
  }

  lemma RunReceivesSnoc(s: State, frames: seq<Frame>, n: nat, svc: Services, ends: string -> bool)
    requires n < |frames|
    ensures Run(s, Receives(frames[..n + 1]), svc, ends)
         == Apply(Run(s, Receives(frames[..n]), svc, ends), Receive(frames[n]), svc, ends)
  {
    assert frames[..n + 1][..n] == frames[..n];
    RunSnoc(s, Receives(frames[..n]), Receive(frames[n]), svc, ends);
  }

  lemma RunDeliversSnoc(s: State, n: nat, svc: Services, ends: string -> bool)
    ensures Run(s, Delivers(n + 1), svc, ends) == Apply(Run(s, Delivers(n), svc, ends), Deliver, svc, ends)
  {
    RunSnoc(s, Delivers(n), Deliver, svc, ends);
  }

  /** Taking the head of the suffix of q from n on moves element n from the suffix to the prefix */
  lemma SliceStep<T>(q: seq<T>, n: nat)
    requires n < |q|
    ensures q[n..][1..] == q[n + 1..] && q[..n + 1] == q[..n] + [q[n]]
  {
    assert q[..n + 1] == q[..n] + [q[n]];
  }

  /** A conversation step taken while the loop still runs extends the run of n steps to n + 1 */
  lemma RunDeliversStep(s: State, n: nat, svc: Services, ends: string -> bool)
    ensures var u := Run(s, Delivers(n), svc, ends);
      !u.finished && !u.managerDone && u.queue != [] ==> Run(s, Delivers(n + 1), svc, ends) == OnEvent(u, svc, ends)
  {
    RunDeliversSnoc(s, n, svc, ends);
  }

  // ---------------------------------------------------------------------------
  // What each loop body leaves alone
  // ---------------------------------------------------------------------------

  /**
   * The ingest loop never touches the history, the model calls, the sends or the end of
   * the conversation; it only appends speech_final events to the queue.
   */
  lemma OnFrameFrame(s: State, f: Frame, svc: Services)
    ensures var t := OnFrame(s, f, svc);
      t.chat == s.chat && t.calls == s.calls && t.memorySize == s.memorySize
      && t.outbox == s.outbox && t.consumed == s.consumed
      && t.finished == s.finished && t.managerDone == s.managerDone
      && |s.queue| <= |t.queue| && t.queue == s.queue + t.queue[|s.queue|..]
      && t.produced == s.produced + t.queue[|s.queue|..] && AllSpeech(t.queue[|s.queue|..])
  {
    var t := OnFrame(s, f, svc);
    var added := OnFrameAdds(s, f, svc);
    assert t.queue[|s.queue|..] == added;
  }

  /** The events one ingest step queues: none, or one speech_final; only the buffer, the pending file and ingestDone change besides */
  lemma OnFrameAdds(s: State, f: Frame, svc: Services) returns (added: seq<Event>)
    ensures |added| <= 1 && AllSpeech(added)
    ensures var t := OnFrame(s, f, svc);
      t == s.(buffer := t.buffer, fileId := t.fileId, ingestDone := t.ingestDone,
              queue := s.queue + added, produced := s.produced + added)
  {
    added := [];
    assert s.queue + added == s.queue && s.produced + added == s.produced;
    match f {
      case Binary(bytes) =>
        var buffer := s.buffer + bytes;
        if |buffer| > BufferThreshold && svc.stt(buffer).Some? {
          added := [SpeechFinal(svc.stt(buffer))];
        }
      case Text(Object(kind, content)) =>
        if kind != Some("attach") {
          added := [SpeechFinal(content)];
        }
      case _ =>
    }
  }

  /**
   * What one ingest step does with each kind of frame: audio is buffered until more than
   * BufferThreshold bytes are held, then transcribed and the buffer emptied, or kept
   * whole when transcription fails; a JSON text frame that is not an attachment queues
   * its content as speech_final; an attachment that uploads becomes the pending file;
   * anything else leaves the session as it was, and a disconnect ends the loop.
   */
  lemma OnFrameCases(s: State, f: Frame, svc: Services)
    ensures f.Binary? ==>
      var b := s.buffer + f.bytes;
      var t := OnFrame(s, f, svc);
      (|b| > BufferThreshold && svc.stt(b).Some? ==>
         t == s.(buffer := [], queue := s.queue + [SpeechFinal(svc.stt(b))],
                 produced := s.produced + [SpeechFinal(svc.stt(b))]))
      && (|b| > BufferThreshold && svc.stt(b).None? ==> t == s.(buffer := b))
      && (|b| <= BufferThreshold ==> t == s.(buffer := b))
    ensures f.Text? && f.json.Object? && f.json.kind != Some("attach") ==>
      OnFrame(s, f, svc) == s.(queue := s.queue + [SpeechFinal(f.json.content)],
                               produced := s.produced + [SpeechFinal(f.json.content)])
    ensures f.Text? && f.json.Object? && f.json.kind == Some("attach") ==>
      var c := f.json.content;
      OnFrame(s, f, svc) == if c.Some? && svc.upload(c.value).Some? then s.(fileId := svc.upload(c.value)) else s
    ensures f == Text(Malformed) ==> OnFrame(s, f, svc) == s
    ensures f == Disconnect ==> OnFrame(s, f, svc) == s.(ingestDone := true)
  {
  }

  /** A transcript with text that is not a farewell gets a reply turn; every other transcript leaves the history, the model calls and the pending file alone */
  lemma HandleCases(s: State, e: Event, svc: Services, ends: string -> bool)
    ensures var t := Handle(s, e, svc, ends);
      if e.SpeechFinal? && e.content.Some? && !ends(e.content.value) then
        t == TakeTurn(s, e.content.value, svc)
      else
        t.chat == s.chat && t.calls == s.calls && t.fileId == s.fileId && t.memorySize == s.memorySize
  {
  }

  lemma HandleForward(s: State, e: Event, svc: Services, ends: string -> bool)
    requires e.Other?
    ensures Handle(s, e, svc, ends) == s.(outbox := s.outbox + [Forwarded(e)])
  {
  }

  lemma HandleMissingText(s: State, svc: Services, ends: string -> bool)
    ensures Handle(s, SpeechFinal(None), svc, ends) == s.(managerDone := true)
  {
  }

  lemma HandleFarewell(s: State, text: string, svc: Services, ends: string -> bool)
    requires ends(text)
    ensures Handle(s, SpeechFinal(Some(text)), svc, ends)
         == s.(finished := true, managerDone := true, outbox := s.outbox + [Finish])
  {
  }

  lemma HandleReply(s: State, text: string, svc: Services, ends: string -> bool)
    requires !ends(text)
    ensures Handle(s, SpeechFinal(Some(text)), svc, ends) == TakeTurn(s, text, svc)
  {
  }

  // ---------------------------------------------------------------------------
  // FIFO delivery
  // ---------------------------------------------------------------------------

  /** Every event ever queued is either already delivered or still waiting, in queue order */
  predicate QueueAccounted(s: State) {
    s.produced == s.consumed + s.queue
  }

  lemma OnEventDeliversInOrder(s: State, svc: Services, ends: string -> bool)
    requires s.queue != [] && QueueAccounted(s)
    ensures var t := OnEvent(s, svc, ends);
      QueueAccounted(t) && t.produced == s.produced && t.consumed == s.consumed + [s.queue[0]]
  {
    assert s.consumed + [s.queue[0]] + s.queue[1..] == s.consumed + s.queue;
  }

  lemma ApplyDeliversInOrder(s: State, step: Step, svc: Services, ends: string -> bool)
    requires QueueAccounted(s)
    ensures var t := Apply(s, step, svc, ends);
      QueueAccounted(t) && s.produced <= t.produced && s.consumed <= t.consumed
  {
    var t := Apply(s, step, svc, ends);
    if t == s {
    } else if step.Deliver? {
      OnEventDeliversInOrder(s, svc, ends);
    } else {
      OnFrameFrame(s, step.frame, svc);
      var added := t.queue[|s.queue|..];
      assert s.produced + added == s.consumed + (s.queue + added);
    }
  }

  /**
   * In every interleaving the queue stays accounted for, and the logs only grow: the
   * conversation loop receives the events in exactly the order the ingest loop queued them.
   */
  lemma {:induction false} RunDeliversInOrder(s: State, steps: seq<Step>, svc: Services, ends: string -> bool)
    requires QueueAccounted(s)
    ensures var t := Run(s, steps, svc, ends);
      QueueAccounted(t) && s.produced <= t.produced && s.consumed <= t.consumed
      && t.consumed <= t.produced
  {
    if steps != [] {
      var init := steps[..|steps| - 1];
      RunDeliversInOrder(s, init, svc, ends);
      ApplyDeliversInOrder(Run(s, init, svc, ends), steps[|steps| - 1], svc, ends);
    }
  }

  // ---------------------------------------------------------------------------
  // Only speech_final events are ever queued
  // ---------------------------------------------------------------------------

  predicate AllSpeech(events: seq<Event>) {
    forall i :: 0 <= i < |events| ==> events[i].SpeechFinal?
  }

  predicate NothingForwarded(outbox: seq<Outbound>) {
    forall i :: 0 <= i < |outbox| ==> !outbox[i].Forwarded?
  }

  lemma OnEventNeverForwards(s: State, svc: Services, ends: string -> bool)
    requires s.queue != [] && AllSpeech(s.queue) && NothingForwarded(s.outbox)
    ensures var t := OnEvent(s, svc, ends);
      AllSpeech(t.queue) && NothingForwarded(t.outbox)
  {
    var e := s.queue[0];
    var t := OnEvent(s, svc, ends);
    assert e.SpeechFinal?;
    if e.content.Some? && !ends(e.content.value) {
      ReplyBeforeAudio(s, svc, ends);
      assert t.outbox[|s.outbox|].AssistantText?;
    }
  }

  lemma ApplyNeverForwards(s: State, step: Step, svc: Services, ends: string -> bool)
    requires AllSpeech(s.queue) && NothingForwarded(s.outbox)
    ensures var t := Apply(s, step, svc, ends);
      AllSpeech(t.queue) && NothingForwarded(t.outbox)
  {
    var t := Apply(s, step, svc, ends);
    if t == s {
    } else if step.Deliver? {
      OnEventNeverForwards(s, svc, ends);
    } else {
      OnFrameFrame(s, step.frame, svc);
      var added := t.queue[|s.queue|..];
      assert forall i :: |s.queue| <= i < |t.queue| ==> t.queue[i] == added[i - |s.queue|];
    }
  }

  /**
   * The ingest loop only ever queues speech_final events, so the conversation loop's
   * forwarding branch never fires: nothing is ever sent back verbatim.
   */
  lemma {:induction false} RunNeverForwards(s: State, steps: seq<Step>, svc: Services, ends: string -> bool)
    requires AllSpeech(s.queue) && NothingForwarded(s.outbox)
    ensures AllSpeech(Run(s, steps, svc, ends).queue) && NothingForwarded(Run(s, steps, svc, ends).outbox)
  {
    if steps != [] {
      var init := steps[..|steps| - 1];
      RunNeverForwards(s, init, svc, ends);
      ApplyNeverForwards(Run(s, init, svc, ends), steps[|steps| - 1], svc, ends);
    }
  }

  // ---------------------------------------------------------------------------
  // The history: user and assistant messages in pairs, one model call per pair
  // ---------------------------------------------------------------------------

  /**
   * chat is a sequence of pairs, a user message then an assistant message; there is one
   * model call per pair, and call k was handed the window of the history that ends with
   * the user message of pair k.
   */
  predicate PairedHistory(chat: seq<Message>, calls: seq<seq<Message>>, memorySize: int) {
    |chat| == 2 * |calls|
    && forall k :: 0 <= k < |calls| ==>
         chat[2 * k].role == UserRole && chat[2 * k + 1].role == AssistantRole
         && calls[k] == Window(chat[..2 * k + 1], memorySize)
  }

  predicate Paired(s: State) {
    PairedHistory(s.chat, s.calls, s.memorySize)
  }

  /** A user message, the call on the window ending with it, then an assistant reply keep the history paired */
  lemma PairedHistoryExtend(chat: seq<Message>, calls: seq<seq<Message>>, m: int, user: Message, reply: Message)
    requires PairedHistory(chat, calls, m)
    requires user.role == UserRole && reply.role == AssistantRole
    ensures PairedHistory(chat + [user, reply], calls + [Window(chat + [user], m)], m)
  {
    var chat' := chat + [user, reply];
    var calls' := calls + [Window(chat + [user], m)];
    forall k | 0 <= k < |calls'|
      ensures chat'[2 * k].role == UserRole && chat'[2 * k + 1].role == AssistantRole
      ensures calls'[k] == Window(chat'[..2 * k + 1], m)
    {
      if k < |calls| {
        assert chat'[2 * k] == chat[2 * k] && chat'[2 * k + 1] == chat[2 * k + 1];
        assert calls'[k] == calls[k];
        assert chat'[..2 * k + 1] == chat[..2 * k + 1];
      } else {
        assert chat'[2 * k] == user && chat'[2 * k + 1] == reply;
        assert chat'[..2 * k + 1] == chat + [user];
      }
    }
  }

  lemma TakeTurnKeepsPaired(s: State, text: string, svc: Services)
    requires Paired(s)
    ensures var t := TakeTurn(s, text, svc);
      Paired(t) && s.chat <= t.chat && s.calls <= t.calls
  {
    var t := TakeTurn(s, text, svc);
    var user := UserMessage(text, s.fileId);
    var reply := t.chat[|t.chat| - 1];
    TakeTurnEffect(s, text, svc);
    PairedHistoryExtend(s.chat, s.calls, s.memorySize, user, reply);
  }

  lemma OnEventKeepsHistoryPaired(s: State, svc: Services, ends: string -> bool)
    requires s.queue != [] && Paired(s)
    ensures var t := OnEvent(s, svc, ends);
      Paired(t) && s.chat <= t.chat && s.calls <= t.calls
  {
    var e := s.queue[0];
    HandleCases(Take(s), e, svc, ends);
    if e.SpeechFinal? && e.content.Some? && !ends(e.content.value) {
      TakeTurnKeepsPaired(Take(s), e.content.value, svc);
    }
  }

  lemma ApplyKeepsHistoryPaired(s: State, step: Step, svc: Services, ends: string -> bool)
    requires Paired(s)
    ensures var t := Apply(s, step, svc, ends);
      Paired(t) && s.chat <= t.chat && s.calls <= t.calls
  {
    var t := Apply(s, step, svc, ends);
    if t == s {
    } else if step.Deliver? {
      OnEventKeepsHistoryPaired(s, svc, ends);
    } else {
      OnFrameFrame(s, step.frame, svc);
    }
  }

  /**
   * Every interleaving keeps the history paired and never rewrites it: each non-farewell
   * turn adds exactly a user message then an assistant message and makes exactly one model
   * call; farewell turns and everything else add neither.
   */
  lemma {:induction false} RunKeepsHistoryPaired(s: State, steps: seq<Step>, svc: Services, ends: string -> bool)
    requires Paired(s)
    ensures var t := Run(s, steps, svc, ends);
      Paired(t) && s.chat <= t.chat && s.calls <= t.calls
  {
    if steps != [] {
      var init := steps[..|steps| - 1];
      RunKeepsHistoryPaired(s, init, svc, ends);
      ApplyKeepsHistoryPaired(Run(s, init, svc, ends), steps[|steps| - 1], svc, ends);
    }
  }

  // ---------------------------------------------------------------------------
  // The end of the conversation is terminal
  // ---------------------------------------------------------------------------

  /**
   * Once finished is set no step changes anything any more: no event is taken, no model
   * call is made, nothing is sent, and a frame received afterwards is dropped (the source
   * still processes a frame whose receive was already waiting; see Conversation.Apply
   * under "Left out" in README.md).
   */
  lemma {:induction false} FinishedIsTerminal(s: State, steps: seq<Step>, svc: Services, ends: string -> bool)
    requires s.finished
    ensures Run(s, steps, svc, ends) == s
  {
    if steps != [] {
      FinishedIsTerminal(s, steps[..|steps| - 1], svc, ends);
    }
  }

  // ---------------------------------------------------------------------------
  // The audio buffer
  // ---------------------------------------------------------------------------

  lemma ApplyBoundsBuffer(s: State, step: Step, svc: Services, ends: string -> bool)
    requires |s.buffer| <= BufferThreshold
    requires forall b: seq<Byte> :: |b| > BufferThreshold ==> svc.stt(b).Some?
    ensures |Apply(s, step, svc, ends).buffer| <= BufferThreshold
  {
    if step.Receive? {
      OnFrameBoundsBuffer(s, step.frame, svc);
    }
  }

  /** An ingest step leaves at most BufferThreshold bytes buffered while speech-to-text succeeds */
  lemma OnFrameBoundsBuffer(s: State, f: Frame, svc: Services)
    requires |s.buffer| <= BufferThreshold
    requires forall b: seq<Byte> :: |b| > BufferThreshold ==> svc.stt(b).Some?
    ensures |OnFrame(s, f, svc).buffer| <= BufferThreshold
  {
    if f.Binary? {
      var buffer := s.buffer + f.bytes;
      if |buffer| > BufferThreshold {
        assert svc.stt(buffer).Some?;
      }
    }
  }

  /** While speech-to-text succeeds, the buffer never holds more than BufferThreshold bytes between frames */
  lemma {:induction false} RunBoundsBuffer(s: State, steps: seq<Step>, svc: Services, ends: string -> bool)
    requires |s.buffer| <= BufferThreshold
    requires forall b: seq<Byte> :: |b| > BufferThreshold ==> svc.stt(b).Some?
    ensures |Run(s, steps, svc, ends).buffer| <= BufferThreshold
  {
    if steps != [] {
      var init := steps[..|steps| - 1];
      RunBoundsBuffer(s, init, svc, ends);
      ApplyBoundsBuffer(Run(s, init, svc, ends), steps[|steps| - 1], svc, ends);
    }
  }

  // ---------------------------------------------------------------------------
  // A pending file is attached once
  // ---------------------------------------------------------------------------

  function AttachedCount(msgs: seq<Message>): nat {
    if msgs == [] then 0
    else AttachedCount(msgs[..|msgs| - 1]) + (if msgs[|msgs| - 1].attachments.Some? then 1 else 0)
  }

  function PendingCount(fileId: Option<string>): nat {
    if Pending(fileId) then 1 else 0
  }

  /**
   * Going from s to t hands s's pending file on at most once: the history only grows, the
   * messages added carry one attachment in all if a file was pending and none otherwise,
   * that attachment is the pending file, and a file still pending in t is s's.
   */
  predicate HandsOnOnce(s: State, t: State) {
    s.chat <= t.chat
    && (Pending(t.fileId) ==> t.fileId == s.fileId)
    && AttachedCount(t.chat[|s.chat|..]) + PendingCount(t.fileId) == PendingCount(s.fileId)
    && (forall i :: |s.chat| <= i < |t.chat| && t.chat[i].attachments.Some? ==>
          Pending(s.fileId) && t.chat[i].attachments == Some([Attachment([CodeInterpreter], s.fileId.value)]))
  }

  lemma AttachedCountSnoc(msgs: seq<Message>, m: Message)
    ensures AttachedCount(msgs + [m]) == AttachedCount(msgs) + (if m.attachments.Some? then 1 else 0)
  {
    assert (msgs + [m])[..|msgs|] == msgs;
  }

  lemma {:induction false} AttachedCountConcat(a: seq<Message>, b: seq<Message>)
    ensures AttachedCount(a + b) == AttachedCount(a) + AttachedCount(b)
  {
    if b == [] {
      assert a + b == a;
    } else {
      var init := b[..|b| - 1];
      assert a + b == (a + init) + [b[|b| - 1]];
      assert b == init + [b[|b| - 1]];
      AttachedCountConcat(a, init);
      AttachedCountSnoc(a + init, b[|b| - 1]);
      AttachedCountSnoc(init, b[|b| - 1]);
    }
  }

  lemma HandsOnOnceTransitive(s: State, u: State, t: State)
    requires HandsOnOnce(s, u) && HandsOnOnce(u, t)
    ensures HandsOnOnce(s, t)
  {
    assert t.chat[|s.chat|..] == u.chat[|s.chat|..] + t.chat[|u.chat|..];
    AttachedCountConcat(u.chat[|s.chat|..], t.chat[|u.chat|..]);
  }

  /** Appending the user message for a transcript and an assistant reply hands on the pending file once */
  lemma TurnMessagesAttachOnce(text: string, fileId: Option<string>, reply: Message)
    requires reply.attachments.None?
    ensures var added := [UserMessage(text, fileId), reply];
      var rest := if Pending(fileId) then None else fileId;
      (Pending(rest) ==> rest == fileId)
      && AttachedCount(added) + PendingCount(rest) == PendingCount(fileId)
      && (forall i :: 0 <= i < |added| && added[i].attachments.Some? ==>
            Pending(fileId) && added[i].attachments == Some([Attachment([CodeInterpreter], fileId.value)]))
  {
    var user := UserMessage(text, fileId);
    assert [user, reply] == [user] + [reply];
    AttachedCountSnoc([user], reply);
    assert [user] == [] + [user];
    AttachedCountSnoc([], user);
  }

  lemma TakeTurnAttachesOnce(s: State, text: string, svc: Services)
    ensures HandsOnOnce(s, TakeTurn(s, text, svc))
  {
    var t := TakeTurn(s, text, svc);
    var user := UserMessage(text, s.fileId);
    var reply := t.chat[|t.chat| - 1];
    assert t.chat == s.chat + [user, reply];
    assert t.chat[|s.chat|..] == [user, reply];
    TurnMessagesAttachOnce(text, s.fileId, reply);
  }

  /** One conversation step consumes the pending file at most once, into the user message it adds */
  lemma DeliverAttachesOnce(s: State, svc: Services, ends: string -> bool)
    ensures HandsOnOnce(s, Apply(s, Deliver, svc, ends))
  {
    var t := Apply(s, Deliver, svc, ends);
    if !(s.finished || s.managerDone || s.queue == []) {
      var e := s.queue[0];
      if e.SpeechFinal? && e.content.Some? && !ends(e.content.value) {
        TakeTurnAttachesOnce(Take(s), e.content.value, svc);
        return;
      }
    }
    assert t.chat == s.chat && t.fileId == s.fileId;
    assert t.chat[|s.chat|..] == [];
  }

  /** A step that reads an attach frame, the only kind that can set the pending file */
  predicate IsAttach(step: Step) {
    step.Receive? && step.frame.Text? && step.frame.json.Object? && step.frame.json.kind == Some("attach")
  }

  /** Any step other than an attach frame hands the pending file on at most once */
  lemma ApplyAttachesOnce(s: State, step: Step, svc: Services, ends: string -> bool)
    requires !IsAttach(step)
    ensures HandsOnOnce(s, Apply(s, step, svc, ends))
  {
    if step.Deliver? {
      DeliverAttachesOnce(s, svc, ends);
    } else {
      var t := Apply(s, step, svc, ends);
      if !(s.finished || s.ingestDone) {
        var added := OnFrameAdds(s, step.frame, svc);
        assert t.fileId == s.fileId;
      }
      assert t.chat[|s.chat|..] == [];
    }
  }

  /**
   * In any interleaving of the two loops with no attach frame in it, a pending file is
   * handed on at most once: either one of the messages added carries it and nothing is
   * pending any more, or none carries an attachment and the same file is still pending.
   */
  lemma {:induction false} RunAttachesOnce(s: State, steps: seq<Step>, svc: Services, ends: string -> bool)
    requires forall i :: 0 <= i < |steps| ==> !IsAttach(steps[i])
    ensures HandsOnOnce(s, Run(s, steps, svc, ends))
  {
    if steps == [] {
      assert s.chat[|s.chat|..] == [];
    } else {
      var init := steps[..|steps| - 1];
      RunAttachesOnce(s, init, svc, ends);
      var u := Run(s, init, svc, ends);
      ApplyAttachesOnce(u, steps[|steps| - 1], svc, ends);
      HandsOnOnceTransitive(s, u, Run(s, steps, svc, ends));
    }
  }

  /** The same over the conversation loop alone: n conversation steps in a row */
  lemma {:induction false} DeliveriesAttachOnce(s: State, n: nat, svc: Services, ends: string -> bool)
    ensures HandsOnOnce(s, Run(s, Delivers(n), svc, ends))
  {
    if n == 0 {
      assert s.chat[|s.chat|..] == [];
    } else {
      DeliveriesAttachOnce(s, n - 1, svc, ends);
      var u := Run(s, Delivers(n - 1), svc, ends);
      RunSnoc(s, Delivers(n - 1), Deliver, svc, ends);
      DeliverAttachesOnce(u, svc, ends);
      HandsOnOnceTransitive(s, u, Run(s, Delivers(n), svc, ends));
    }
  }
}
