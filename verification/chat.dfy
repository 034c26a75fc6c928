/**
 * The copy-writing chat: sending a message with a "typing" placeholder,
 * replacing the placeholder with the reply or with a failure text, and
 * reading a script-mode reply as structured content.
 */
module Chat {
  import opened Base
  import opened Strings
  import opened Seqs
  import opened JsonValues

  /** A reply is plain text or, in script mode, a parsed script object. */
  datatype Content = Text(text: string) | Script(value: Json)

  datatype Message = Message(id: string, content: Content, role: string)

  datatype ChatState = ChatState(messages: seq<Message>, input: string, aiTyping: bool)

  const TYPING_ID := "typing"
  const TYPING := Message(TYPING_ID, Text("AI 正在回复，请稍候…"), "ai")

  /** What `handleSend` asks the model: the text and the prompt type. */
  datatype Request = Request(text: string, prompt: string)

  /**
   * `handleSend`: blank input or a reply still pending does nothing;
   * otherwise the user's message (id `now`) and then the placeholder are
   * appended, the input is cleared and a request is made.
   */
  function Send(s: ChatState, now: string, prompt: string): (r: (ChatState, Option<Request>))
    ensures Trim(s.input) == [] || s.aiTyping ==> r == (s, None)
    ensures Trim(s.input) != [] && !s.aiTyping ==>
      r.0.messages == s.messages + [Message(now, Text(s.input), "user"), TYPING]
      && r.0.input == [] && r.0.aiTyping && r.1 == Some(Request(s.input, prompt))
  {
    if Trim(s.input) == [] || s.aiTyping then (s, None)
    else (ChatState(s.messages + [Message(now, Text(s.input), "user"), TYPING], [], true), Some(Request(s.input, prompt)))
  }

  /** Every placeholder becomes `m`; nothing else changes. */
  function ReplaceTyping(messages: seq<Message>, m: Message): (r: seq<Message>)
    ensures |r| == |messages|
    ensures forall i :: 0 <= i < |messages| ==> r[i] == (if messages[i].id == TYPING_ID then m else messages[i])
  {
    Map((x: Message) => if x.id == TYPING_ID then m else x, messages)
  }

  /**
   * `polished_text` in script mode: when it parses to an object with a
   * truthy `video_title` and an array `script`, the object; otherwise the
   * text as it is.
   */
  function ReplyContent(prompt: string, polished: string, parsed: Option<Json>): (r: Content)
    ensures r.Script? ==> prompt == "script" && parsed == Some(r.value)
    ensures r.Script? ==> r.value.JObj? && "script" in r.value.fields && r.value.fields["script"].JArr?
    ensures r.Text? ==> r.text == polished
    ensures r.Script? <==> (prompt == "script" && parsed.Some? && parsed.value.JObj?
      && "video_title" in parsed.value.fields && Truthy(parsed.value.fields["video_title"])
      && "script" in parsed.value.fields && parsed.value.fields["script"].JArr?)
  {
    if prompt == "script" && parsed.Some? && parsed.value.JObj?
      && "video_title" in parsed.value.fields && Truthy(parsed.value.fields["video_title"])
      && "script" in parsed.value.fields && parsed.value.fields["script"].JArr?
    then Script(parsed.value)
    else Text(polished)
  }

  /**
   * A reply: placeholders are replaced by it; if afterwards no message
   * carries its id, it is appended as a fallback. Some message then carries
   * the reply's id, and the list grows only when there was no placeholder
   * and no message with that id.
   */
  function ApplyReply(messages: seq<Message>, reply: Message): (r: seq<Message>)
    ensures exists i :: 0 <= i < |r| && r[i].id == reply.id
    ensures |r| == |messages| || |r| == |messages| + 1
    ensures forall i :: 0 <= i < |messages| ==> r[i] == (if messages[i].id == TYPING_ID then reply else messages[i])
    ensures |r| == |messages| + 1 <==> forall i :: 0 <= i < |messages| ==> messages[i].id != TYPING_ID && messages[i].id != reply.id
    ensures |r| == |messages| + 1 ==> r[|messages|] == reply
  {
    var replaced := ReplaceTyping(messages, reply);
    if exists i :: 0 <= i < |replaced| && replaced[i].id == reply.id then replaced
    else
      assert (replaced + [reply])[|replaced|] == reply;
      replaced + [reply]
  }

  const FAILURE_TEXT := "ai回复消息失败"

  /** A failed request: placeholders become the failure text and nothing is appended. */
  function ApplyFailure(messages: seq<Message>, now: string): (r: seq<Message>)
    ensures |r| == |messages|
    ensures forall i :: 0 <= i < |messages| ==> r[i].id == (if messages[i].id == TYPING_ID then now else messages[i].id)
    ensures forall i :: 0 <= i < |messages| && messages[i].id == TYPING_ID ==> r[i] == Message(now, Text(FAILURE_TEXT), "ai")
    ensures forall i :: 0 <= i < |messages| && messages[i].id != TYPING_ID ==> r[i] == messages[i]
  {
    ReplaceTyping(messages, Message(now, Text(FAILURE_TEXT), "ai"))
  }

  /**
   * The answer arrives: the reply takes the placeholder's place, the typing
   * flag is cleared and whatever the user has typed meanwhile stays.
   */
  function Receive(s: ChatState, reply: Message): (r: ChatState)
    ensures r.messages == ApplyReply(s.messages, reply)
    ensures !r.aiTyping && r.input == s.input
  {
    ChatState(ApplyReply(s.messages, reply), s.input, false)
  }

  /** The request fails: the placeholder shows the failure text and the typing flag is cleared. */
  function Fail(s: ChatState, now: string): (r: ChatState)
    ensures r.messages == ApplyFailure(s.messages, now)
    ensures !r.aiTyping && r.input == s.input
  {
    ChatState(ApplyFailure(s.messages, now), s.input, false)
  }

  /**
   * After an answer or a failure the chat is ready again: a new non-blank
   * input is sent, appending the user's message and a fresh placeholder.
   */
  lemma ReadyAfterAnswer(s: ChatState, now: string, prompt: string, reply: Message, failedAt: string,
                         text: string, later: string, prompt2: string)
    requires Trim(s.input) != [] && !s.aiTyping && Trim(text) != []
    ensures var sent := Send(s, now, prompt).0;
      var ok := Receive(sent, reply).(input := text);
      Send(ok, later, prompt2) == (ChatState(ok.messages + [Message(later, Text(text), "user"), TYPING], [], true), Some(Request(text, prompt2)))
    ensures var sent := Send(s, now, prompt).0;
      var failed := Fail(sent, failedAt).(input := text);
      Send(failed, later, prompt2) == (ChatState(failed.messages + [Message(later, Text(text), "user"), TYPING], [], true), Some(Request(text, prompt2)))
  {
  }

  /**
   * A full exchange on a conversation without placeholders (ids are clock
   * digits, never "typing"): the history grows by the user's message and
   * the reply, in that order.
   */
  lemma SendThenReply(s: ChatState, now: string, prompt: string, reply: Message)
    requires Trim(s.input) != [] && !s.aiTyping
    requires forall i :: 0 <= i < |s.messages| ==> s.messages[i].id != TYPING_ID
    requires reply.id != TYPING_ID && now != TYPING_ID
    ensures ApplyReply(Send(s, now, prompt).0.messages, reply) == s.messages + [Message(now, Text(s.input), "user"), reply]
  {
    var sent := Send(s, now, prompt).0.messages;
    var r := ApplyReply(sent, reply);
    assert sent[|sent| - 1].id == TYPING_ID;
    assert |r| == |sent|;
    assert forall i :: 0 <= i < |sent| - 1 ==> sent[i].id != TYPING_ID;
    assert r == s.messages + [Message(now, Text(s.input), "user"), reply];
  }

  /**
   * A failed exchange on a conversation without placeholders: the history
   * grows by the user's message and the failure text.
   */
  lemma SendThenFail(s: ChatState, now: string, prompt: string, failedAt: string)
    requires Trim(s.input) != [] && !s.aiTyping
    requires forall i :: 0 <= i < |s.messages| ==> s.messages[i].id != TYPING_ID
    requires now != TYPING_ID
    ensures Fail(Send(s, now, prompt).0, failedAt).messages
      == s.messages + [Message(now, Text(s.input), "user"), Message(failedAt, Text(FAILURE_TEXT), "ai")]
  {
    var sent := Send(s, now, prompt).0.messages;
    var r := ApplyFailure(sent, failedAt);
    assert sent[|sent| - 1].id == TYPING_ID;
    assert forall i :: 0 <= i < |sent| - 1 ==> sent[i].id != TYPING_ID;
    assert r == s.messages + [Message(now, Text(s.input), "user"), Message(failedAt, Text(FAILURE_TEXT), "ai")];
  }
}
