/**
  The conversation controller of app_vertex.py: one Vertex AI call per
  submission, no key pool, its own stage extractor, and a first turn that is
  logged without any marker test.
 */
module VertexController {
  import opened Wrappers
  import opened Text
  import opened Stage
  import opened Conversation
  import VertexStage

  const EmptyInputError: string := "Wsad jest pusty!"
  const FirstErrorPrefix: string := "Błąd Vertex AI: "
  const FollowUpErrorPrefix: string := "Błąd: "

  /** What one call of the model is given: the chat history and the new
      message. */
  datatype Request = Request(history: seq<Message>, input: string)

  /** The arguments of one `log_stats(op_name, start_pz, end_pz)`. */
  datatype LogCall = LogCall(start: Option<string>, end: string)

  /** What one submission leaves behind: the conversation, the request made
      if any, the statistics call made if any, and the error shown if any. */
  datatype Turn = Turn(chat: Chat, request: Option<Request>, logged: Option<LogCall>, error: Option<string>)

  /** "Nowa sprawa / Reset": there is no key to redraw. */
  function Reset(c: Chat): (r: Chat)
    ensures r.messages == [] && r.chatStarted && r.startPz.None?
  {
    ResetChat(c)
  }

  /** `parse_pz(text) or default` with the marked extractor. */
  function StageOr(t: string, default: string): (r: string)
    ensures VertexStage.ParsePz(t).Some? ==> r == VertexStage.ParsePz(t).value
    ensures VertexStage.ParsePz(t).None? ==> r == default
  {
    VertexStage.ParsePz(t).GetOr(default)
  }

  /** The role mapping of the history sent with a follow-up: "user" stays,
      every other role becomes "model". */
  function VertexRole(role: string): (r: string)
    ensures r == UserRole <==> role == UserRole
    ensures r == UserRole || r == ModelRole
  {
    if role == UserRole then UserRole else ModelRole
  }

  function VertexHistory(ms: seq<Message>): (h: seq<Message>)
    ensures |h| == |ms|
    ensures forall i :: 0 <= i < |ms| ==>
              h[i].content == ms[i].content && h[i].role == VertexRole(ms[i].role)
  {
    seq(|ms|, i requires 0 <= i < |ms| => Message(VertexRole(ms[i].role), ms[i].content))
  }

  /** In a well-formed conversation every role is already "user" or
      "model", so the history is sent unchanged. */
  lemma VertexHistoryOfWellFormed(c: Chat)
    requires WellFormed(c)
    ensures VertexHistory(c.messages) == c.messages
  {
    var h := VertexHistory(c.messages);
    forall i | 0 <= i < |c.messages|
      ensures h[i] == c.messages[i]
    {
      assert c.messages[i].role in {UserRole, ModelRole};
    }
  }

  /** "Rozpocznij analizę": an empty input only shows an error; otherwise
      the start stage is captured, the input appended and sent without
      history, and a reply is appended and logged whatever it contains. */
  function SubmitFirst(c: Chat, input: string, respond: Request -> Outcome): (t: Turn)
    requires c.chatStarted && |c.messages| == 0
    ensures input == [] ==> t == Turn(c, None, None, Some(EmptyInputError))
    ensures input != [] ==>
              && t.chat.startPz == Some(StageOr(input, StartSentinel))
              && t.request == Some(Request([], input))
    ensures input != [] ==>
              match respond(Request([], input))
              case Replied(text) =>
                && t.chat.messages == [Message(UserRole, input), Message(ModelRole, text)]
                && t.logged == Some(LogCall(t.chat.startPz, StageOr(text, EndSentinel)))
                && t.error.None?
              case Raised(_, message) =>
                && t.chat.messages == [Message(UserRole, input)]
                && t.logged.None?
                && t.error == Some(FirstErrorPrefix + message)
  {
    if input == [] then Turn(c, None, None, Some(EmptyInputError))
    else
      var start := StageOr(input, StartSentinel);
      var chat := c.(messages := c.messages + [Message(UserRole, input)], startPz := Some(start));
      var request := Request([], input);
      match respond(request)
      case Replied(text) =>
        Turn(chat.(messages := chat.messages + [Message(ModelRole, text)]), Some(request),
             Some(LogCall(Some(start), StageOr(text, EndSentinel))), None)
      case Raised(_, message) =>
        Turn(chat, Some(request), None, Some(FirstErrorPrefix + message))
  }

  /** The chat input: an empty input is no submission; otherwise the prompt
      is appended and sent with the earlier messages as history, and a reply
      is appended and logged only when it carries "cop#" and "c#". */
  function SubmitFollowUp(c: Chat, prompt: string, respond: Request -> Outcome): (t: Turn)
    requires c.chatStarted && |c.messages| > 0
    ensures prompt == [] ==> t == Turn(c, None, None, None)
    ensures prompt != [] ==>
              && t.chat.startPz == c.startPz
              && t.request == Some(Request(VertexHistory(c.messages), prompt))
    ensures prompt != [] ==>
              match respond(Request(VertexHistory(c.messages), prompt))
              case Replied(text) =>
                && t.chat.messages == c.messages + [Message(UserRole, prompt), Message(ModelRole, text)]
                && (t.logged.Some? <==> IsVertexTurnComplete(text))
                && (t.logged.Some? ==> t.logged.value == LogCall(c.startPz, StageOr(text, EndSentinel)))
                && t.error.None?
              case Raised(_, message) =>
                && t.chat.messages == c.messages + [Message(UserRole, prompt)]
                && t.logged.None?
                && t.error == Some(FollowUpErrorPrefix + message)
  {
    if prompt == [] then Turn(c, None, None, None)
    else
      var chat := c.(messages := c.messages + [Message(UserRole, prompt)]);
      var request := Request(VertexHistory(c.messages), prompt);
      match respond(request)
      case Replied(text) =>
        var logged := if IsVertexTurnComplete(text) then Some(LogCall(c.startPz, StageOr(text, EndSentinel))) else None;
        Turn(chat.(messages := chat.messages + [Message(ModelRole, text)]), Some(request), logged, None)
      case Raised(_, message) =>
        Turn(chat, Some(request), None, Some(FollowUpErrorPrefix + message))
  }

  /** The main area of one script run that receives `input`. */
  function Submit(c: Chat, input: string, respond: Request -> Outcome): (t: Turn)
    ensures !c.chatStarted ==> t == Turn(c, None, None, None)
    ensures c.chatStarted && |c.messages| == 0 ==> t == SubmitFirst(c, input, respond)
    ensures c.chatStarted && |c.messages| > 0 ==> t == SubmitFollowUp(c, input, respond)
  {
    if !c.chatStarted then Turn(c, None, None, None)
    else if |c.messages| == 0 then SubmitFirst(c, input, respond)
    else SubmitFollowUp(c, input, respond)
  }

  /** Every submission keeps the conversation well-formed. */
  lemma SubmitKeepsWellFormed(c: Chat, input: string, respond: Request -> Outcome)
    requires WellFormed(c)
    ensures WellFormed(Submit(c, input, respond).chat)
  {
    if c.chatStarted && input != [] {
      if |c.messages| == 0 {
        FirstKeepsWellFormed(c, input, respond);
      } else {
        FollowUpKeepsWellFormed(c, input, respond);
      }
    }
  }

  lemma FirstKeepsWellFormed(c: Chat, input: string, respond: Request -> Outcome)
    requires WellFormed(c) && c.chatStarted && |c.messages| == 0 && input != []
    ensures WellFormed(SubmitFirst(c, input, respond).chat)
  {
    var reply := match respond(Request([], input))
                 case Replied(text) => Some(text)
                 case Raised(_, _) => None;
    AppendTurnWellFormed(c, StageOr(input, StartSentinel), input, reply);
  }

  lemma FollowUpKeepsWellFormed(c: Chat, input: string, respond: Request -> Outcome)
    requires WellFormed(c) && c.chatStarted && |c.messages| > 0 && input != []
    ensures WellFormed(SubmitFollowUp(c, input, respond).chat)
  {
    var reply := match respond(Request(VertexHistory(c.messages), input))
                 case Replied(text) => Some(text)
                 case Raised(_, _) => None;
    AppendTurnWellFormed(c, c.startPz.value, input, reply);
  }

  /** Unlike app2.py, the first reply is logged even without any marker. */
  function Unmarked(r: Request): Outcome {
    Replied("ok")
  }

  lemma FirstReplyLoggedWithoutMarker(c: Chat, input: string)
    requires c.chatStarted && |c.messages| == 0 && input != []
    ensures !IsVertexTurnComplete("ok") && !IsTurnComplete("ok")
    ensures SubmitFirst(c, input, Unmarked).logged.Some?
  {
    var low := Lower("ok");
    assert low == "ok";
    assert low[0..2][0] == 'o';
  }
}
