/**
  The conversation state both front ends keep in `st.session_state`
  (`messages`, `chat_started`, `current_start_pz`), the shape of one upstream
  answer, and the turn-complete markers that decide when statistics are
  logged.
 */
module Conversation {
  import opened Wrappers
  import opened Text
  import opened Stage

  const UserRole: string := "user"
  const ModelRole: string := "model"

  /** One entry of `messages`: `{"role": ..., "content": ...}`. */
  datatype Message = Message(role: string, content: string)

  /** The exception classes the source tells apart. */
  datatype ErrorKind = ResourceExhausted | OtherError

  /** What one call of the model gives back: the response text, or an
      exception with its class and `str(e)`. */
  datatype Outcome = Replied(text: string) | Raised(kind: ErrorKind, message: string)

  datatype Chat = Chat(messages: seq<Message>, chatStarted: bool, startPz: Option<string>)

  /** The defaults set when the session has none of the three keys. */
  const Fresh: Chat := Chat([], false, None)

  /** "Nowa sprawa / Reset" on the conversation: history and start stage
      cleared, chat opened. */
  function ResetChat(c: Chat): (r: Chat)
    ensures r.messages == [] && r.chatStarted && r.startPz.None?
  {
    Chat([], true, None)
  }

  /** app2.py's marker: the reply (lower-cased) contains ";pz=" or "cop#",
      and also "c#". */
  predicate IsTurnComplete(reply: string) {
    var low := Lower(reply);
    (Contains(low, ";pz=") || Contains(low, "cop#")) && Contains(low, "c#")
  }

  /** app_vertex.py's marker for follow-ups: "cop#" and "c#". */
  predicate IsVertexTurnComplete(reply: string) {
    var low := Lower(reply);
    Contains(low, "cop#") && Contains(low, "c#")
  }

  /** Both markers ignore case: a reply and its lower-cased form complete a
      turn alike. */
  lemma TurnCompleteIgnoresCase(reply: string)
    ensures IsTurnComplete(Lower(reply)) == IsTurnComplete(reply)
    ensures IsVertexTurnComplete(Lower(reply)) == IsVertexTurnComplete(reply)
  {
    LowerIdempotent(reply);
  }

  /** A marked stage alone does not complete a turn: "c#" must appear too. */
  lemma MarkerWithoutCHashIncomplete()
    ensures !IsTurnComplete("COP# PZ: PZ3") && !IsVertexTurnComplete("COP# PZ: PZ3")
  {
    var low := Lower("COP# PZ: PZ3");
    assert low == "cop# pz: pz3";
    forall i | 0 <= i <= |low| - 2
      ensures !OccursAt(low, "c#", i)
    {
      assert low[i..i + 2][0] == low[i];
      assert low[i..i + 2][1] == low[i + 1];
    }
  }

  /** The Vertex marker is the stricter one. */
  lemma VertexMarkerIsStricter(reply: string)
    ensures IsVertexTurnComplete(reply) ==> IsTurnComplete(reply)
  {
  }

  /** A ";pz=" reply counts in app2.py but not in app_vertex.py. */
  lemma PzMarkerOnlyInApp2()
    ensures IsTurnComplete(";pz=PZ6 C#") && !IsVertexTurnComplete(";pz=PZ6 C#")
  {
    var low := Lower(";pz=PZ6 C#");
    assert low == ";pz=pz6 c#";
    assert OccursAt(low, ";pz=", 0);
    assert OccursAt(low, "c#", 8);
    forall i | 0 <= i <= |low| - 4
      ensures !OccursAt(low, "cop#", i)
    {
      assert low[i..i + 4][0] == low[i];
    }
  }

  /** What every reachable conversation satisfies: roles are "user" or
      "model", every model message answers the user message before it, and a
      non-empty history belongs to an open chat whose start stage is set. */
  predicate WellFormed(c: Chat) {
    && (forall i :: 0 <= i < |c.messages| ==> c.messages[i].role in {UserRole, ModelRole})
    && (forall i :: 0 <= i < |c.messages| && c.messages[i].role == ModelRole ==>
          0 < i && c.messages[i - 1].role == UserRole)
    && (|c.messages| > 0 ==> c.chatStarted && c.startPz.Some? && IsStageToken(c.startPz.value))
  }

  /** Appending a user message, and optionally the model's reply to it, to a
      well-formed conversation keeps it well-formed. */
  lemma AppendTurnWellFormed(c: Chat, start: string, prompt: string, reply: Option<string>)
    requires WellFormed(c) && c.chatStarted && IsStageToken(start)
    requires |c.messages| > 0 ==> c.startPz == Some(start)
    ensures WellFormed(Chat(c.messages + [Message(UserRole, prompt)]
                          + (if reply.Some? then [Message(ModelRole, reply.value)] else []),
                          true, Some(start)))
  {
  }
}
