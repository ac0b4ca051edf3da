/**
  app2.py `call_gemini_with_rotation`: try the model with the session's key;
  on a quota error rotate to the next key and try again, at most once per
  key; any other error, or any error while the key is locked, ends the call.
  The model itself is the parameter `respond`, which answers each attempt.
 */
module Rotation {
  import opened Wrappers
  import opened Text
  import opened KeyPool
  import opened Conversation

  const ApiErrorPrefix: string := "Błąd API: "
  const ExhaustedMessage: string := "❌ Wszystkie klucze wyczerpane."
  /** `str()` of the IndexError `API_KEYS[key_index]` raises. */
  const IndexErrorMessage: string := "list index out of range"

  /** One invocation of the model: the history and message sent, the key
      index used, and how many invocations this call made before it. */
  datatype Attempt = Attempt(history: seq<Message>, input: string, keyIndex: nat, number: nat)

  /** `(text, success)` together with the cursor the call leaves behind and
      the invocations it made, in order. */
  datatype CallResult = CallResult(text: string, success: bool, cursor: Cursor, attempts: seq<Attempt>)

  /** The error test: ResourceExhausted, or "429", "Quota" or "403" in `str(e)`. */
  predicate IsQuotaError(kind: ErrorKind, message: string) {
    kind == ResourceExhausted || Contains(message, "429") || Contains(message, "Quota")
    || Contains(message, "403")
  }

  /** The class alone suffices; otherwise the test is on the exact text, so a
      403 counts as a quota error and a lower-case "quota" does not. */
  lemma QuotaErrorCases(message: string)
    ensures IsQuotaError(ResourceExhausted, message)
    ensures IsQuotaError(OtherError, "403 Forbidden")
    ensures !IsQuotaError(OtherError, "quota")
    ensures !IsQuotaError(OtherError, "500")
  {
    assert OccursAt("403 Forbidden", "403", 0);
    assert !OccursAt("quota", "Quota", 0) by {
      assert "quota"[0..5][0] == 'q';
    }
    assert !OccursAt("500", "429", 0) && !OccursAt("500", "403", 0) by {
      assert "500"[0..3][0] == '5';
    }
  }

  /** The text tests are substring tests: wrapping a quota message in more
      text (a status prefix, a details suffix) keeps it a quota error. */
  lemma QuotaErrorInContext(kind: ErrorKind, message: string, before: string, after: string)
    requires IsQuotaError(kind, message)
    ensures IsQuotaError(kind, before + message + after)
  {
    var m := before + message + after;
    forall p | Contains(message, p)
      ensures Contains(m, p)
    {
      var i :| 0 <= i <= |message| - |p| && OccursAt(message, p, i);
      assert m[|before| + i..|before| + i + |p|] == message[i..i + |p|];
      assert OccursAt(m, p, |before| + i);
    }
  }

  /** An answer that makes an unlocked call rotate and retry. */
  predicate Retries(o: Outcome) {
    o.Raised? && IsQuotaError(o.kind, o.message)
  }

  /** The loop of `call_gemini_with_rotation` once `n` invocations have been
      made and the cursor is `c`; the result holds the invocations made from
      here on. */
  function Drive(size: nat, c: Cursor, history: seq<Message>, input: string,
                 respond: Attempt -> Outcome, n: nat): (r: CallResult)
    requires n <= size
    ensures n + |r.attempts| <= size
    ensures forall k :: 0 <= k < |r.attempts| ==>
              r.attempts[k].history == history && r.attempts[k].input == input && r.attempts[k].number == n + k
    ensures r.cursor.locked == c.locked
    ensures InRange(c, size) ==> InRange(r.cursor, size)
    ensures c.locked ==> r.cursor == c && |r.attempts| <= 1
    ensures forall k :: 0 <= k < |r.attempts| - 1 ==> Retries(respond(r.attempts[k]))
    ensures r.success <==> |r.attempts| > 0 && respond(r.attempts[|r.attempts| - 1]).Replied?
    ensures r.success ==> r.text == respond(r.attempts[|r.attempts| - 1]).text
    ensures r.success ==> r.cursor.index == r.attempts[|r.attempts| - 1].keyIndex
    decreases size - n
  {
    if n == size then CallResult(ExhaustedMessage, false, c, [])
    else if c.index >= size then CallResult(ApiErrorPrefix + IndexErrorMessage, false, c, [])
    else
      var a := Attempt(history, input, c.index, n);
      match respond(a)
      case Replied(text) => CallResult(text, true, c, [a])
      case Raised(kind, message) =>
        if !c.locked && IsQuotaError(kind, message) then
          var rest := Drive(size, Rotate(c, size), history, input, respond, n + 1);
          rest.(attempts := [a] + rest.attempts)
        else CallResult(ApiErrorPrefix + message, false, c, [a])
  }

  /** The driver's out-of-range test is `get_current_key` raising: with a
      pool of `keys`, a call ends with the IndexError text and no invocation
      exactly when `CurrentKey` has no key for the cursor. */
  lemma IndexErrorIffNoKey(keys: seq<string>, c: Cursor, history: seq<Message>, input: string,
                           respond: Attempt -> Outcome, n: nat)
    requires n < |keys|
    ensures var r := Drive(|keys|, c, history, input, respond, n);
            (|r.attempts| == 0 && r.text == ApiErrorPrefix + IndexErrorMessage) <==> CurrentKey(keys, c).None?
  {
  }

  /** The k-th invocation from here uses the key `k` rotations on. */
  lemma {:induction false} DriveKeys(size: nat, c: Cursor, history: seq<Message>, input: string,
                                     respond: Attempt -> Outcome, n: nat)
    requires n <= size
    ensures var r := Drive(size, c, history, input, respond, n);
            forall k :: 0 <= k < |r.attempts| ==> r.attempts[k].keyIndex == RotateTimes(c, size, k).index
    decreases size - n, 1
  {
    if n < size && c.index < size {
      var a := Attempt(history, input, c.index, n);
      if respond(a).Raised? && !c.locked && Retries(respond(a)) {
        DriveKeysRotated(size, c, history, input, respond, n);
      }
    }
  }

  /** The step of `DriveKeys` past a quota error. */
  lemma {:induction false} DriveKeysRotated(size: nat, c: Cursor, history: seq<Message>, input: string,
                                            respond: Attempt -> Outcome, n: nat)
    requires n < size && c.index < size && !c.locked
    requires Retries(respond(Attempt(history, input, c.index, n)))
    ensures var r := Drive(size, c, history, input, respond, n);
            forall k :: 0 <= k < |r.attempts| ==> r.attempts[k].keyIndex == RotateTimes(c, size, k).index
    decreases size - n, 0
  {
    var a := Attempt(history, input, c.index, n);
    var c' := Rotate(c, size);
    DriveKeys(size, c', history, input, respond, n + 1);
    var rest := Drive(size, c', history, input, respond, n + 1);
    var r := Drive(size, c, history, input, respond, n);
    assert r.attempts == [a] + rest.attempts;
    forall k | 0 <= k < |r.attempts|
      ensures r.attempts[k].keyIndex == RotateTimes(c, size, k).index
    {
      if k > 0 {
        assert r.attempts[k] == rest.attempts[k - 1];
        RotateTimesStep(c, size, k);
      }
    }
  }

  lemma RotateTimesStep(c: Cursor, size: nat, k: nat)
    requires size > 0 && k >= 1
    ensures RotateTimes(c, size, k) == RotateTimes(Rotate(c, size), size, k - 1)
  {
  }

  /** A call reports an exhausted pool only after all `size` invocations,
      the last of them over quota, and only on an unlocked cursor, which is
      then left one rotation past the last key tried. */
  predicate ExhaustedEnd(r: CallResult, c: Cursor, size: nat, respond: Attempt -> Outcome, n: nat) {
    && n + |r.attempts| == size
    && (n < size ==> !c.locked && Retries(respond(r.attempts[|r.attempts| - 1]))
                     && r.cursor == RotateTimes(c, size, size - n))
  }

  lemma {:induction false} DriveExhausted(size: nat, c: Cursor, history: seq<Message>, input: string,
                                          respond: Attempt -> Outcome, n: nat)
    requires n <= size
    ensures var r := Drive(size, c, history, input, respond, n);
            !r.success && r.text == ExhaustedMessage ==> ExhaustedEnd(r, c, size, respond, n)
    decreases size - n, 1
  {
    if n < size {
      if c.index >= size {
        ErrorTextNotExhausted(IndexErrorMessage);
      } else {
        var a := Attempt(history, input, c.index, n);
        if respond(a).Raised? {
          if !c.locked && Retries(respond(a)) {
            DriveExhaustedRotated(size, c, history, input, respond, n);
          } else {
            ErrorTextNotExhausted(respond(a).message);
          }
        }
      }
    }
  }

  /** The step of `DriveExhausted` past a quota error. */
  lemma {:induction false} DriveExhaustedRotated(size: nat, c: Cursor, history: seq<Message>, input: string,
                                                 respond: Attempt -> Outcome, n: nat)
    requires n < size && c.index < size && !c.locked
    requires Retries(respond(Attempt(history, input, c.index, n)))
    ensures var r := Drive(size, c, history, input, respond, n);
            !r.success && r.text == ExhaustedMessage ==> ExhaustedEnd(r, c, size, respond, n)
    decreases size - n, 0
  {
    var a := Attempt(history, input, c.index, n);
    var c' := Rotate(c, size);
    DriveExhausted(size, c', history, input, respond, n + 1);
    var rest := Drive(size, c', history, input, respond, n + 1);
    assert Drive(size, c, history, input, respond, n) == rest.(attempts := [a] + rest.attempts);
    assert n + 1 == size ==> rest.cursor == c';
    ExhaustedPrepend(size, c, respond, n, a, rest);
  }

  /** One quota error in front of an exhausted tail is still exhaustion. */
  lemma ExhaustedPrepend(size: nat, c: Cursor, respond: Attempt -> Outcome, n: nat, a: Attempt, rest: CallResult)
    requires n < size && !c.locked && Retries(respond(a))
    requires !rest.success && rest.text == ExhaustedMessage ==>
               ExhaustedEnd(rest, Rotate(c, size), size, respond, n + 1)
    requires n + 1 == size ==> rest.cursor == Rotate(c, size)
    ensures var r := rest.(attempts := [a] + rest.attempts);
            !r.success && r.text == ExhaustedMessage ==> ExhaustedEnd(r, c, size, respond, n)
  {
    var r := rest.(attempts := [a] + rest.attempts);
    if !rest.success && rest.text == ExhaustedMessage {
      RotateTimesStep(c, size, size - n);
      if n + 1 == size {
        assert r.attempts == [a];
      } else {
        assert r.attempts[|r.attempts| - 1] == rest.attempts[|rest.attempts| - 1];
      }
    }
  }

  /** Any other failure is an error that is not retried — its text behind
      the prefix "Błąd API: ", the cursor on the key that raised it — or a
      cursor outside the pool, the IndexError of `get_current_key` caught by
      the same handler. */
  predicate FatalEnd(r: CallResult, c: Cursor, size: nat, respond: Attempt -> Outcome) {
    || (&& |r.attempts| > 0
        && var last := respond(r.attempts[|r.attempts| - 1]);
           && last.Raised? && r.text == ApiErrorPrefix + last.message
           && (c.locked || !Retries(last))
           && r.cursor.index == r.attempts[|r.attempts| - 1].keyIndex)
    || (&& |r.attempts| == 0 && r.text == ApiErrorPrefix + IndexErrorMessage
        && !InRange(c, size))
  }

  lemma {:induction false} DriveFatal(size: nat, c: Cursor, history: seq<Message>, input: string,
                                      respond: Attempt -> Outcome, n: nat)
    requires n <= size
    ensures var r := Drive(size, c, history, input, respond, n);
            !r.success && r.text != ExhaustedMessage ==> FatalEnd(r, c, size, respond)
    decreases size - n, 1
  {
    if n < size && c.index < size {
      var a := Attempt(history, input, c.index, n);
      if respond(a).Raised? && !c.locked && Retries(respond(a)) {
        DriveFatalRotated(size, c, history, input, respond, n);
      }
    }
  }

  /** The step of `DriveFatal` past a quota error. */
  lemma {:induction false} DriveFatalRotated(size: nat, c: Cursor, history: seq<Message>, input: string,
                                             respond: Attempt -> Outcome, n: nat)
    requires n < size && c.index < size && !c.locked
    requires Retries(respond(Attempt(history, input, c.index, n)))
    ensures var r := Drive(size, c, history, input, respond, n);
            !r.success && r.text != ExhaustedMessage ==> FatalEnd(r, c, size, respond)
    decreases size - n, 0
  {
    var a := Attempt(history, input, c.index, n);
    var c' := Rotate(c, size);
    DriveFatal(size, c', history, input, respond, n + 1);
    var rest := Drive(size, c', history, input, respond, n + 1);
    var r := Drive(size, c, history, input, respond, n);
    assert r == rest.(attempts := [a] + rest.attempts);
    if !rest.success && rest.text != ExhaustedMessage {
      InRangeAfterRotate(c, size);
      assert |rest.attempts| > 0;
      assert r.attempts[|r.attempts| - 1] == rest.attempts[|rest.attempts| - 1];
    }
  }

  lemma InRangeAfterRotate(c: Cursor, size: nat)
    requires size > 0 && InRange(c, size)
    ensures InRange(Rotate(c, size), size)
  {
  }

  /** The error texts cannot be mistaken for the exhaustion message. */
  lemma ErrorTextNotExhausted(message: string)
    ensures ApiErrorPrefix + message != ExhaustedMessage
  {
    assert (ApiErrorPrefix + message)[0] != ExhaustedMessage[0];
  }

  /** `call_gemini_with_rotation(history, user_input)` with a pool of `size`
      keys and the session's cursor `c`: at most one invocation per key, and
      `(text, True)` exactly when the last invocation returned text. */
  function CallWithRotation(size: nat, c: Cursor, history: seq<Message>, input: string,
                            respond: Attempt -> Outcome): (r: CallResult)
    ensures |r.attempts| <= size
    ensures forall k :: 0 <= k < |r.attempts| ==>
              r.attempts[k].history == history && r.attempts[k].input == input && r.attempts[k].number == k
    ensures r.cursor.locked == c.locked
    ensures InRange(c, size) ==> InRange(r.cursor, size)
    ensures c.locked ==> r.cursor == c && |r.attempts| <= 1
    ensures r.success <==> |r.attempts| > 0 && respond(r.attempts[|r.attempts| - 1]).Replied?
    ensures r.success ==> r.text == respond(r.attempts[|r.attempts| - 1]).text
    ensures r.success ==> r.cursor.index == r.attempts[|r.attempts| - 1].keyIndex
    ensures forall k :: 0 <= k < |r.attempts| - 1 ==> Retries(respond(r.attempts[k]))
  {
    Drive(size, c, history, input, respond, 0)
  }

  /** Every invocation sends the same history and message, and the k-th one
      (from 0) uses key `(start + k) % size`. */
  lemma AttemptKeys(size: nat, c: Cursor, history: seq<Message>, input: string,
                    respond: Attempt -> Outcome)
    requires InRange(c, size)
    ensures var r := CallWithRotation(size, c, history, input, respond);
            forall k :: 0 <= k < |r.attempts| ==>
              r.attempts[k] == Attempt(history, input, (c.index + k) % size, k)
  {
    var r := CallWithRotation(size, c, history, input, respond);
    DriveKeys(size, c, history, input, respond, 0);
    forall k | 0 <= k < |r.attempts|
      ensures r.attempts[k] == Attempt(history, input, (c.index + k) % size, k)
    {
      KeyAfter(size, c, k);
    }
  }

  /** No key is tried twice in one call. */
  lemma AttemptsUseDistinctKeys(size: nat, c: Cursor, history: seq<Message>, input: string,
                                respond: Attempt -> Outcome)
    requires InRange(c, size)
    ensures var r := CallWithRotation(size, c, history, input, respond);
            forall j, k :: 0 <= j < k < |r.attempts| ==> r.attempts[j].keyIndex != r.attempts[k].keyIndex
  {
    var r := CallWithRotation(size, c, history, input, respond);
    AttemptKeys(size, c, history, input, respond);
    forall j, k | 0 <= j < k < |r.attempts|
      ensures r.attempts[j].keyIndex != r.attempts[k].keyIndex
    {
      ModDistinct(c.index, j, k, size);
    }
  }

  /** Fewer than `n` steps on from the same start never reach the same
      residue. */
  lemma ModDistinct(i: nat, j: nat, k: nat, n: nat)
    requires j < k < n
    ensures (i + j) % n != (i + k) % n
  {
    var q, q' := (i + j) / n, (i + k) / n;
    if (i + j) % n == (i + k) % n {
      assert k - j == q' * n - q * n;
      assert k - j == (q' - q) * n;
      MultipleBound(q' - q, n);
    }
  }

  /** The cursor after `k` rotations, for locked and unlocked cursors alike. */
  lemma KeyAfter(size: nat, c: Cursor, k: nat)
    requires InRange(c, size) && (c.locked ==> k == 0)
    ensures RotateTimes(c, size, k).index == (c.index + k) % size
  {
    if c.locked {
      ModUnique(c.index, 0, c.index, size);
    } else {
      RotateTimesIndex(c, size, k);
    }
  }


  /** When every key answers with a quota error the call tries each key once,
      reports exhaustion, and the wrap-around brings the cursor back to the
      key it started from. */
  lemma ExhaustedReturnsToStart(size: nat, c: Cursor, history: seq<Message>, input: string,
                                respond: Attempt -> Outcome)
    requires size > 0 && InRange(c, size) && !c.locked
    requires forall a :: Retries(respond(a))
    ensures var r := CallWithRotation(size, c, history, input, respond);
            r.text == ExhaustedMessage && !r.success && r.cursor == c && |r.attempts| == size
  {
    var r := CallWithRotation(size, c, history, input, respond);
    DriveExhausted(size, c, history, input, respond, 0);
    DriveFatal(size, c, history, input, respond, 0);
    assert !r.success;
    RotateCycle(c, size);
  }

  /** A first answer that is an error and does not lead to a retry — a
      non-quota error, or any error on a locked key — ends the call at once
      with the error text, leaving the cursor where it was. */
  lemma FatalNoRotation(size: nat, c: Cursor, history: seq<Message>, input: string,
                        respond: Attempt -> Outcome)
    requires InRange(c, size)
    requires var o := respond(Attempt(history, input, c.index, 0));
             o.Raised? && (c.locked || !IsQuotaError(o.kind, o.message))
    ensures var r := CallWithRotation(size, c, history, input, respond);
            var o := respond(Attempt(history, input, c.index, 0));
            r == CallResult(ApiErrorPrefix + o.message, false, c, [Attempt(history, input, c.index, 0)])
  {
  }

  /** A pool of three keys where the first two answer "429": the third key
      answers and the session moves on to it. */
  function TwoQuotaThenReply(a: Attempt): Outcome {
    if a.keyIndex < 2 then Raised(OtherError, "429 Too Many Requests") else Replied("ok")
  }

  lemma RotatesPastExhaustedKeys(history: seq<Message>, input: string)
    ensures var r := CallWithRotation(3, Cursor(0, false), history, input, TwoQuotaThenReply);
            r.success && r.text == "ok" && r.cursor == Cursor(2, false) && |r.attempts| == 3
  {
    assert Contains("429 Too Many Requests", "429") by {
      assert OccursAt("429 Too Many Requests", "429", 0);
    }
    var f := TwoQuotaThenReply;
    assert Rotate(Cursor(0, false), 3) == Cursor(1, false);
    assert Rotate(Cursor(1, false), 3) == Cursor(2, false);
    var r2 := Drive(3, Cursor(2, false), history, input, f, 2);
    var r1 := Drive(3, Cursor(1, false), history, input, f, 1);
    var r0 := Drive(3, Cursor(0, false), history, input, f, 0);
    DriveReplyStep(3, Cursor(2, false), history, input, f, 2);
    assert r2.success && r2.text == "ok" && r2.cursor == Cursor(2, false) && |r2.attempts| == 1;
    DriveQuotaStep(3, Cursor(1, false), history, input, f, 1);
    assert r1 == r2.(attempts := [Attempt(history, input, 1, 1)] + r2.attempts);
    DriveQuotaStep(3, Cursor(0, false), history, input, f, 0);
    assert r0 == r1.(attempts := [Attempt(history, input, 0, 0)] + r1.attempts);
  }

  /** One unlocked invocation that gets a quota error, seen from outside. */
  lemma DriveQuotaStep(size: nat, c: Cursor, history: seq<Message>, input: string,
                       respond: Attempt -> Outcome, n: nat)
    requires n < size && c.index < size && !c.locked
    requires Retries(respond(Attempt(history, input, c.index, n)))
    ensures var rest := Drive(size, Rotate(c, size), history, input, respond, n + 1);
            Drive(size, c, history, input, respond, n)
            == rest.(attempts := [Attempt(history, input, c.index, n)] + rest.attempts)
  {
  }

  /** One invocation that is answered, seen from outside. */
  lemma DriveReplyStep(size: nat, c: Cursor, history: seq<Message>, input: string,
                       respond: Attempt -> Outcome, n: nat)
    requires n < size && c.index < size
    requires respond(Attempt(history, input, c.index, n)).Replied?
    ensures Drive(size, c, history, input, respond, n)
            == CallResult(respond(Attempt(history, input, c.index, n)).text, true, c,
                          [Attempt(history, input, c.index, n)])
  {
  }
}
