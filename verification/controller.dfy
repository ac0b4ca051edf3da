/**
  The conversation controller of app2.py: the session state, the
  "Nowa sprawa / Reset" handler, the first-input form and the follow-up chat
  input, each ending (on a completed turn) in one `log_stats` call.
 */
module Controller {
  import opened Wrappers
  import opened Text
  import opened Stage
  import opened KeyPool
  import opened Conversation
  import opened Rotation
  import opened Stats

  const EmptyInputError: string := "Wsad nie może być pusty!"

  /** `messages`, `chat_started`, `current_start_pz`, `key_index` and
      `is_key_locked`. */
  datatype Session = Session(chat: Chat, cursor: Cursor)

  /** The arguments of one `log_stats(op_name, start_pz, end_pz, key_idx)`. */
  datatype LogCall = LogCall(start: Option<string>, end: string, keyIndex: nat)

  /** What one submission leaves behind: the new session, the invocations of
      the model it made, the statistics call it made if any, and the error it
      showed if any. */
  datatype Turn = Turn(session: Session, attempts: seq<Attempt>, logged: Option<LogCall>, error: Option<string>)

  /** A well-formed conversation and an unlocked cursor that addresses a key
      of the pool. A new session, Reset with a valid draw and every
      submission keep it; a re-run after the administrator clears an
      assignment beyond the pool breaks it (`RerunInvariant`). */
  predicate Invariant(s: Session, size: nat) {
    WellFormed(s.chat) && (s.cursor.locked || InRange(s.cursor, size))
  }

  /** The key selection repeated at the top of every script run, under the
      assignment read afresh from the operator's configuration: a positive
      assignment pins its key, and otherwise the stored `key_index` is kept
      as it is, since the draw happens only when none is stored. */
  function Rerun(s: Session, assignment: int): (r: Session)
    ensures r.chat == s.chat
    ensures r.cursor.locked <==> assignment > 0
    ensures assignment > 0 ==> r.cursor.index + 1 == assignment
    ensures assignment <= 0 ==> r.cursor.index == s.cursor.index
  {
    Session(s.chat, SelectKey(assignment, 0, Some(s.cursor.index)))
  }

  /** "Nowa sprawa / Reset": a fresh conversation; the key is redrawn only
      when it is not locked. */
  function Reset(s: Session, draw: nat): (r: Session)
    ensures r.chat.messages == [] && r.chat.chatStarted && r.chat.startPz.None?
    ensures s.cursor.locked ==> r.cursor == s.cursor
    ensures !s.cursor.locked ==> r.cursor == Cursor(draw, false)
  {
    Session(ResetChat(s.chat), ResetKey(s.cursor, draw))
  }

  /** `parse_pz(text) or default`. */
  function StageOr(t: string, default: string): (r: string)
    ensures ParsePz(t).Some? ==> r == ParsePz(t).value
    ensures ParsePz(t).None? ==> r == default
  {
    ParsePz(t).GetOr(default)
  }

  /** The end of a turn once the model has been called: the reply (if any)
      appended, the cursor the call left behind kept, and `log_stats` called
      for a completed turn with the key that produced the reply. */
  function Finish(chat: Chat, start: Option<string>, call: CallResult): (t: Turn)
    ensures t.session.cursor == call.cursor && t.attempts == call.attempts
    ensures call.success ==> t.session.chat == chat.(messages := chat.messages + [Message(ModelRole, call.text)])
                             && t.error.None?
    ensures !call.success ==> t.session.chat == chat && t.error == Some(call.text)
    ensures t.logged.Some? <==> call.success && IsTurnComplete(call.text)
    ensures t.logged.Some? ==>
              t.logged.value == LogCall(start, StageOr(call.text, EndSentinel), call.cursor.index)
  {
    if call.success then
      var chat' := chat.(messages := chat.messages + [Message(ModelRole, call.text)]);
      var logged := if IsTurnComplete(call.text)
                    then Some(LogCall(start, StageOr(call.text, EndSentinel), call.cursor.index))
                    else None;
      Turn(Session(chat', call.cursor), call.attempts, logged, None)
    else Turn(Session(chat, call.cursor), call.attempts, None, Some(call.text))
  }

  /** The text of the last invocation, when it answered. */
  function LastReply(attempts: seq<Attempt>, respond: Attempt -> Outcome): Option<string> {
    if |attempts| == 0 then None
    else match respond(attempts[|attempts| - 1])
      case Replied(text) => Some(text)
      case Raised(_, _) => None
  }

  /** The key index of the last invocation. */
  function LastKey(attempts: seq<Attempt>): nat
    requires |attempts| > 0
  {
    attempts[|attempts| - 1].keyIndex
  }

  /** "Rozpocznij analizę" on the first-input form. An empty input only shows
      an error. Otherwise the start stage is captured from the input, the
      input is appended and sent with an empty history. */
  function SubmitFirst(s: Session, size: nat, input: string, respond: Attempt -> Outcome): (t: Turn)
    requires s.chat.chatStarted && |s.chat.messages| == 0
    ensures input == [] ==> t == Turn(s, [], None, Some(EmptyInputError))
    ensures input != [] ==>
              && t.session.chat.startPz == Some(StageOr(input, StartSentinel))
              && |t.attempts| <= size
              && (forall k :: 0 <= k < |t.attempts| ==>
                    t.attempts[k].history == [] && t.attempts[k].input == input)
              && (t.error.None? <==> LastReply(t.attempts, respond).Some?)
    ensures input != [] && t.error.Some? ==> t.session.chat.messages == [Message(UserRole, input)]
    ensures input != [] && t.error.None? ==>
              t.session.chat.messages
              == [Message(UserRole, input), Message(ModelRole, LastReply(t.attempts, respond).value)]
    ensures var reply := LastReply(t.attempts, respond);
            t.logged.Some? <==> reply.Some? && IsTurnComplete(reply.value)
    ensures t.logged.Some? ==>
              t.logged.value == LogCall(t.session.chat.startPz,
                                        StageOr(LastReply(t.attempts, respond).value, EndSentinel),
                                        LastKey(t.attempts))
    ensures t.session.cursor.locked == s.cursor.locked
  {
    if input == [] then Turn(s, [], None, Some(EmptyInputError))
    else
      var start := StageOr(input, StartSentinel);
      var chat := s.chat.(messages := s.chat.messages + [Message(UserRole, input)], startPz := Some(start));
      Finish(chat, Some(start), CallWithRotation(size, s.cursor, [], input, respond))
  }

  /** The chat input of an open conversation. An empty input is no
      submission at all; otherwise the prompt is appended and sent with every
      message before it as the history. */
  function SubmitFollowUp(s: Session, size: nat, prompt: string, respond: Attempt -> Outcome): (t: Turn)
    requires s.chat.chatStarted && |s.chat.messages| > 0
    ensures prompt == [] ==> t == Turn(s, [], None, None)
    ensures prompt != [] ==>
              && t.session.chat.startPz == s.chat.startPz
              && |t.attempts| <= size
              && (forall k :: 0 <= k < |t.attempts| ==>
                    t.attempts[k].history == s.chat.messages && t.attempts[k].input == prompt)
              && (t.error.None? <==> LastReply(t.attempts, respond).Some?)
    ensures prompt != [] && t.error.Some? ==>
              t.session.chat.messages == s.chat.messages + [Message(UserRole, prompt)]
    ensures prompt != [] && t.error.None? ==>
              t.session.chat.messages
              == s.chat.messages + [Message(UserRole, prompt), Message(ModelRole, LastReply(t.attempts, respond).value)]
    ensures var reply := LastReply(t.attempts, respond);
            t.logged.Some? <==> reply.Some? && IsTurnComplete(reply.value)
    ensures t.logged.Some? ==>
              t.logged.value == LogCall(s.chat.startPz,
                                        StageOr(LastReply(t.attempts, respond).value, EndSentinel),
                                        LastKey(t.attempts))
    ensures t.session.cursor.locked == s.cursor.locked
  {
    if prompt == [] then Turn(s, [], None, None)
    else
      var chat := s.chat.(messages := s.chat.messages + [Message(UserRole, prompt)]);
      Finish(chat, s.chat.startPz, CallWithRotation(size, s.cursor, s.chat.messages, prompt, respond))
  }

  /** The main area of one script run that receives `input`: nothing before
      the chat is opened, the first-input form while the history is empty,
      the chat input afterwards. */
  function Submit(s: Session, size: nat, input: string, respond: Attempt -> Outcome): (t: Turn)
    ensures !s.chat.chatStarted ==> t == Turn(s, [], None, None)
    ensures s.chat.chatStarted && |s.chat.messages| == 0 ==> t == SubmitFirst(s, size, input, respond)
    ensures s.chat.chatStarted && |s.chat.messages| > 0 ==> t == SubmitFollowUp(s, size, input, respond)
  {
    if !s.chat.chatStarted then Turn(s, [], None, None)
    else if |s.chat.messages| == 0 then SubmitFirst(s, size, input, respond)
    else SubmitFollowUp(s, size, input, respond)
  }

  /** The counters after the turn: one `log_stats` call for a logged turn. */
  function Record(store: Store, day: string, op: string, t: Turn): (r: Store)
    ensures t.logged.None? ==> r == store
    ensures t.logged.Some? ==>
              Count(r, SessionsCompleted(day, op)) == Count(store, SessionsCompleted(day, op)) + 1
  {
    match t.logged
    case None => store
    case Some(call) => LogStats(store, day, op, call.start, call.end, call.keyIndex)
  }

  /** A new browser session, before "Nowa sprawa / Reset" opens the chat:
      the default conversation and the selected key satisfy the invariant
      (an assignment beyond the pool gives a locked cursor, which the
      invariant admits), and a submission then does nothing. */
  lemma InitialSession(assignment: int, size: nat, draw: nat, input: string, respond: Attempt -> Outcome)
    requires draw < size
    ensures var s := Session(Fresh, SelectKey(assignment, draw, None));
            Invariant(s, size) && Submit(s, size, input, respond) == Turn(s, [], None, None)
  {
    if assignment <= size {
      SelectKeyInRange(assignment, size, draw, None);
    }
  }

  /** Reset and every submission keep the session invariant. */
  lemma ResetKeepsInvariant(s: Session, size: nat, draw: nat)
    requires Invariant(s, size) && draw < size
    ensures Invariant(Reset(s, draw), size)
  {
  }

  lemma SubmitKeepsInvariant(s: Session, size: nat, input: string, respond: Attempt -> Outcome)
    requires Invariant(s, size)
    ensures Invariant(Submit(s, size, input, respond).session, size)
  {
    if s.chat.chatStarted && input != [] {
      if |s.chat.messages| == 0 {
        FirstKeepsInvariant(s, size, input, respond);
      } else {
        FollowUpKeepsInvariant(s, size, input, respond);
      }
    }
  }

  lemma FirstKeepsInvariant(s: Session, size: nat, input: string, respond: Attempt -> Outcome)
    requires Invariant(s, size) && s.chat.chatStarted && |s.chat.messages| == 0 && input != []
    ensures Invariant(SubmitFirst(s, size, input, respond).session, size)
  {
    var t := SubmitFirst(s, size, input, respond);
    StageOrIsToken(input, StartSentinel);
    AppendTurnWellFormed(s.chat, StageOr(input, StartSentinel), input, LastReply(t.attempts, respond));
  }

  lemma FollowUpKeepsInvariant(s: Session, size: nat, input: string, respond: Attempt -> Outcome)
    requires Invariant(s, size) && s.chat.chatStarted && |s.chat.messages| > 0 && input != []
    ensures Invariant(SubmitFollowUp(s, size, input, respond).session, size)
  {
    var t := SubmitFollowUp(s, size, input, respond);
    AppendTurnWellFormed(s.chat, s.chat.startPz.value, input, LastReply(t.attempts, respond));
  }

  /** A re-run under the assignment that chose the cursor changes nothing. */
  lemma RerunUnchanged(s: Session, assignment: int, draw: nat, previous: Option<nat>)
    requires s.cursor == SelectKey(assignment, draw, previous)
    ensures Rerun(s, assignment) == s
  {
  }

  /** A re-run keeps the invariant exactly when the new assignment pins a
      key or the stored index lies in the pool. */
  lemma RerunInvariant(s: Session, size: nat, assignment: int)
    ensures Invariant(Rerun(s, assignment), size) <==>
              WellFormed(s.chat) && (assignment > 0 || s.cursor.index < size)
  {
  }

  /** A submission on a cursor past the pool makes no invocation: the
      IndexError text is shown, or the exhausted message for an empty pool,
      and the cursor stays where it was. */
  lemma CursorPastPoolFails(s: Session, size: nat, input: string, respond: Attempt -> Outcome)
    requires s.chat.chatStarted && input != [] && s.cursor.index >= size
    ensures var t := Submit(s, size, input, respond);
            && t.attempts == []
            && t.session.cursor == s.cursor
            && t.logged.None?
            && t.error == Some(if size == 0 then ExhaustedMessage else ApiErrorPrefix + IndexErrorMessage)
  {
  }

  /** The administrator pins key 5 of a pool of three and then clears the
      assignment: the next run keeps index 4 unlocked, outside the pool, and
      every submission fails with the IndexError text until Reset redraws
      the key. */
  lemma ClearedAssignmentLeavesPool(input: string, respond: Attempt -> Outcome)
    requires input != []
    ensures var s := Session(Chat([], true, None), SelectKey(5, 0, None));
            var r := Rerun(s, 0);
            && Invariant(s, 3)
            && r.cursor == Cursor(4, false)
            && !Invariant(r, 3)
            && Submit(r, 3, input, respond).error == Some(ApiErrorPrefix + IndexErrorMessage)
            && Invariant(Reset(r, 0), 3)
  {
    var s := Session(Chat([], true, None), SelectKey(5, 0, None));
    CursorPastPoolFails(Rerun(s, 0), 3, input, respond);
  }

  /** A captured stage, or a sentinel default, is a stage token. */
  lemma StageOrIsToken(t: string, default: string)
    requires IsStageToken(default)
    ensures IsStageToken(StageOr(t, default))
  {
  }

  /** A pool of three keys whose first two are over quota; the third
      answers with a completed turn that reaches the milestone. */
  function QuotaQuotaMilestone(a: Attempt): Outcome {
    if a.keyIndex < 2 then Raised(ResourceExhausted, "Quota exceeded") else Replied("PZ6 COP# C#")
  }

  /** A first input without a stage code, answered on the third key: the
      turn is logged from the start sentinel to "PZ6" with key index 2. */
  lemma FirstTurnAfterTwoQuotaErrors()
    ensures var s := Session(Chat([], true, None), Cursor(0, false));
            var t := SubmitFirst(s, 3, "x", QuotaQuotaMilestone);
            && t.logged == Some(LogCall(Some(StartSentinel), Milestone, 2))
            && t.session.chat.messages == [Message(UserRole, "x"), Message(ModelRole, "PZ6 COP# C#")]
  {
    assert ParsePz("x").None?;
    MilestoneReply();
    var call := CallWithRotation(3, Cursor(0, false), [], "x", QuotaQuotaMilestone);
    ThirdKeyAnswers();
    assert StageOr("x", StartSentinel) == StartSentinel;
  }

  /** ... and the operator's all-time diamonds go up by one. */
  lemma FirstTurnCountsDiamond(store: Store, day: string, op: string)
    ensures var t := SubmitFirst(Session(Chat([], true, None), Cursor(0, false)), 3, "x", QuotaQuotaMilestone);
            Count(Record(store, day, op, t), TotalDiamonds(op)) == Count(store, TotalDiamonds(op)) + 1
  {
    FirstTurnAfterTwoQuotaErrors();
    DiamondsAgreeWithKeyUsage(store, day, op, Some(StartSentinel), Milestone, 2);
  }

  lemma ThirdKeyAnswers()
    ensures var call := CallWithRotation(3, Cursor(0, false), [], "x", QuotaQuotaMilestone);
            call.success && call.text == "PZ6 COP# C#" && call.cursor == Cursor(2, false)
  {
    var f := QuotaQuotaMilestone;
    assert Rotate(Cursor(0, false), 3) == Cursor(1, false);
    assert Rotate(Cursor(1, false), 3) == Cursor(2, false);
    var r2 := Drive(3, Cursor(2, false), [], "x", f, 2);
    var r1 := Drive(3, Cursor(1, false), [], "x", f, 1);
    var r0 := Drive(3, Cursor(0, false), [], "x", f, 0);
    DriveReplyStep(3, Cursor(2, false), [], "x", f, 2);
    DriveQuotaStep(3, Cursor(1, false), [], "x", f, 1);
    assert r1 == r2.(attempts := [Attempt([], "x", 1, 1)] + r2.attempts);
    DriveQuotaStep(3, Cursor(0, false), [], "x", f, 0);
    assert r0 == r1.(attempts := [Attempt([], "x", 0, 0)] + r1.attempts);
  }

  /** The milestone reply is a completed turn whose captured stage is "PZ6". */
  lemma MilestoneReply()
    ensures ParsePz("PZ6 COP# C#") == Some(Milestone) && IsTurnComplete("PZ6 COP# C#")
  {
    var reply := "PZ6 COP# C#";
    assert MatchAt(reply, 0) && FirstMatch(reply, 0);
    assert DigitRun(reply, 2) == "6" by {
      assert DigitRun(reply, 3) == [];
    }
    assert "PZ" + "6" == Milestone;
    assert Lower(reply) == "pz6 cop# c#";
    assert OccursAt(Lower(reply), "cop#", 4);
    assert OccursAt(Lower(reply), "c#", 9);
  }

  /** The same model on a session pinned to the second key: the quota
      error is not retried and is reported as an ordinary API error, not as
      an exhausted pool. */
  lemma PinnedQuotaErrorIsFatal(draw: nat, previous: Option<nat>)
    ensures var s := Session(Chat([], true, None), SelectKey(2, draw, previous));
            var t := SubmitFirst(s, 3, "x", QuotaQuotaMilestone);
            && t.error == Some(ApiErrorPrefix + "Quota exceeded")
            && t.error != Some(ExhaustedMessage)
            && t.attempts == [Attempt([], "x", 1, 0)]
            && t.session.cursor == Cursor(1, true)
            && t.session.chat.messages == [Message(UserRole, "x")]
            && t.logged.None?
  {
    assert SelectKey(2, draw, previous) == Cursor(1, true);
    FatalNoRotation(3, Cursor(1, true), [], "x", QuotaQuotaMilestone);
    ErrorTextNotExhausted("Quota exceeded");
  }

  /** A reply with the primary marker but not the secondary one is still
      appended, and nothing is logged. */
  function PrimaryMarkerOnly(a: Attempt): Outcome {
    Replied(";pz=PZ3")
  }

  lemma PrimaryMarkerOnlyNotLogged(s: Session, size: nat, prompt: string)
    requires s.chat.chatStarted && |s.chat.messages| > 0 && prompt != []
    requires InRange(s.cursor, size)
    ensures var t := SubmitFollowUp(s, size, prompt, PrimaryMarkerOnly);
            && t.logged.None?
            && t.session.chat.messages
               == s.chat.messages + [Message(UserRole, prompt), Message(ModelRole, ";pz=PZ3")]
  {
    var low := Lower(";pz=PZ3");
    assert low == ";pz=pz3";
    forall i | 0 <= i <= |low| - 2
      ensures !OccursAt(low, "c#", i)
    {
      assert low[i..i + 2][1] == low[i + 1];
    }
  }
}
