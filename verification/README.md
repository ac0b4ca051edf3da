# Szturchacz core in Dafny

Szturchacz is an operator-facing assistant. It is a Streamlit app with two
front ends. `app2.py` talks to Gemini through a pool of API keys and
rotates among them when a key runs out of quota. `app_vertex.py` talks to
Vertex AI with no key pool. Both keep a conversation per case. Both
extract a stage code (`PZ<digits>`) from the first input and from every
completed reply. Both record each completed turn as counter increments in
Firestore: sessions completed, the `{start}_to_{end}` stage transition,
the all-time "diamond" count, and (in `app2.py`) the key used. The sidebar
reads the day's diamonds back as the sum of the transitions whose key ends
in `_to_PZ6`.

This project models that core as pure functions over immutable datatypes
and proves what the code promises:

- `Stage`: `parse_pz` and `get_pz_value` of `app2.py`.
- `VertexStage`: the marker-bound `parse_pz` of `app_vertex.py`.
- `KeyPool`: the key cursor. This covers the administrator's assignment,
  the random draw, `get_current_key` and `rotate_key`.
- `Rotation`: `call_gemini_with_rotation`. It is written as a recursive
  driver over an oracle `respond` that answers each invocation with a
  reply or an exception.
- `Transitions`: the transition-key format and the reader's suffix test.
- `Stats`:
  - the two `log_stats` variants as lists of increments applied to an
    abstract counter store;
  - the sidebar's diamond sum.
- `Conversation`, `Controller` and `VertexController`: the session state,
  the Reset handler, the first-input form and the follow-up chat input of
  each front end.
- `Text` and `Wrappers`: Python's string operations (`in`, `lower`,
  `endswith`, `split`, `int`, `str`) and `None`.

The model has no I/O:

- The upstream model is the parameter `respond`.
- The random draw is a parameter.
- The day is a parameter.
- The Firestore database is a `map<Counter, int>`.

### Behaviour worth knowing

- **A pinned key that hits a quota error.** The retry test requires
  `not is_key_locked`, so on a pinned key a quota error falls through to
  `return f"Błąd API: {str(e)}", False` (app2.py:209-214). It is reported
  as an ordinary API error, not as "❌ Wszystkie klucze wyczerpane.", and
  no other key is tried (`Controller.PinnedQuotaErrorIsFatal`).
- **The end sentinel's sort position.** `get_pz_value("PZ_END")` is 999,
  so "PZ1000" sorts after it (`Stage.EndSentinelNotLast`).
- **The `total_diamonds` increment.** It is nested inside
  `if start_pz and end_pz` (app2.py:52-55). A reply whose extracted stage is "PZ6"
  with no start stage would not count. The controllers always supply a start
  stage, so this case is not reached from the front ends.
- **An assignment index beyond the pool.** An assignment is used as given,
  whatever the pool size. An index past the end makes `get_current_key`
  raise `IndexError` inside the `try` of the driver. That is caught and
  returned as "Błąd API: list index out of range". The model keeps this
  path (`KeyPool.AssignedBeyondPool`, `Rotation.DriveFatal`) instead of
  demanding an in-range assignment.
- **An assignment cleared after it pointed past the pool.** Every script
  run re-reads the operator's configuration (app2.py:61) and repeats the
  key selection (app2.py:84-91). With no assignment the stored `key_index`
  is kept, even when an earlier assignment put it past the pool. The
  cursor is then unlocked and out of range, and every submission fails
  with "Błąd API: list index out of range" until Reset redraws the key
  (`Controller.RerunInvariant`, `Controller.ClearedAssignmentLeavesPool`).

## Model

| member | source | states |
|---|---|---|
| Stage.DigitRun | app2.py:31 | the greedy `\d+`: a run of digits taken from the text at that position that stops at the end or at a non-digit, and is non-empty when a digit is there |
| Stage.SearchFrom | app2.py:31 | the leftmost case-insensitive `PZ<digit>` match at or after a position, or none when there is no match from there on |
| Stage.ParsePz | app2.py:28-33 | `None` exactly when the text has no case-insensitive "pz" followed by a digit (so also for empty text); otherwise "PZ" plus the greedy digit run of the leftmost match, which is always a stage code |
| Stage.ParsePzOfStageCode | app2.py:28-33 | a stage code parses to itself |
| Stage.ParsePzIdempotent | app2.py:28-33 | parsing an extracted stage code gives it back, so `parse_pz` is idempotent on its results |
| Stage.DigitRunLower | app2.py:31 | lower-casing the text does not change the digit run at any position |
| Stage.ParsePzLower | app2.py:31 | under IGNORECASE, extracting from the lower-cased text gives the same result as from the text |
| Stage.PzValue | app2.py:35-41 | "PZ_START" maps to -1 and "PZ_END" to 999; a stage code maps to its decimal value; any other token starting with "PZ" has a value exactly when the rest is a signed integer literal, and then it is `int()` of the rest; `None`, the empty string and text not starting with "PZ" map to `None` |
| Stage.PzValueExamples | app2.py:38-40 | "PZ_X", "PZ" and "" have no value (the `except` path); "PZ-3" is -3 and "PZ007" is 7, as `int()` reads them |
| Stage.ValueOfParsed | app2.py:28-41 | whatever `parse_pz` extracts has a sort value, and that value is non-negative |
| Stage.StartSortsFirst | app2.py:36-39 | the start sentinel sorts before every stage code |
| Stage.EndSentinelNotLast | app2.py:37-39 | "PZ1000" is a stage code whose value 1000 exceeds the end sentinel's 999 |
| Text.Lower | app2.py:235 | ASCII `str.lower`: keeps the length and maps each character to its ASCII lower case |
| Text.NatToString | app2.py:57 | `str(n)`: non-empty decimal digits with no leading zero whose value is `n` |
| Text.NatToStringInjective | app2.py:57 | different key indices get different `key_usage` field names |
| Text.ParseInt | app2.py:39-40 | `int()` succeeds exactly on a signed decimal literal (digits, optionally after one '+' or '-'); its value is the digits' decimal value, negated after '-'; anything else (empty, a bare sign, other characters) is the `except` path |
| Text.ParseIntOfString | app2.py:39 | `int` inverts `str` on every integer, negative ones included |
| Text.LowerIdempotent | app2.py:235 | lower-casing twice is lower-casing once |
| Transitions.Key | app2.py:53 | the key `{start}_to_{end}`: the start token, then "_to_", then the end token, with nothing else; `SplitKey` reads the two back |
| Transitions.KeyExample | app2.py:53-54 | a session from "PZ_START" to "PZ6" is stored under "PZ_START_to_PZ6", which passes the reader's `endswith("_to_PZ6")` test |
| Transitions.DiamondKeyIffMilestone | app2.py:72 | for a well-formed end stage, the key written at line 53 ends with "_to_PZ6" exactly when the end stage is "PZ6", the writer's test at line 54 |
| Transitions.SplitKey | app2.py:53 | splitting a key made from two stage tokens on "_to_" gives back exactly the two tokens |
| Transitions.NoSeparatorInToken | app2.py:53 | no stage token contains "_to_" |
| VertexStage.SkipSpaces | app_vertex.py:38 | the greedy `\s*`: every character it skips is whitespace (`str.isspace`), and it stops at the end or at the first non-space |
| VertexStage.SkipSpacesStops | app_vertex.py:38 | any run of whitespace that ends before a non-space is exactly the run `SkipSpaces` takes |
| VertexStage.CaptureAt | app_vertex.py:38 | a capture found at a position starts with the marker "COP#" (any case) and is a `PZ<digit>` match after it |
| VertexStage.CaptureAtSound | app_vertex.py:38 | what `CaptureAt` finds is a match of the whole pattern `COP#\s*PZ\s*:\s*(PZ\d+)` (`PatternAt`): marker, whitespace, "PZ", whitespace, ':', whitespace, the capture |
| VertexStage.CaptureAtComplete | app_vertex.py:38 | conversely, wherever the whole pattern matches with the capture at `j`, `CaptureAt` returns `j` |
| VertexStage.SearchFrom | app_vertex.py:38 | the leftmost position of a whole-pattern match at or after a position, and no match before it |
| VertexStage.ParsePz | app_vertex.py:36-40 | `None` exactly when the pattern matches nowhere; otherwise a stage code (its partners are `ParsePzNoneIffNoPattern` and `ParsePzFirstPattern`) |
| VertexStage.ParsePzNoneIffNoPattern | app_vertex.py:38-40 | `None` exactly when there is no position and no split of the text that satisfies the declarative pattern |
| VertexStage.ParsePzFirstPattern | app_vertex.py:38-39 | when the declarative pattern first matches at `i` with its capture at `j`, the result is "PZ" plus the greedy digits after `j + 2` |
| VertexStage.ParsePzLeftmost | app_vertex.py:38-39 | the result is "PZ" plus the greedy digits captured by the leftmost match |
| VertexStage.NoMatchBefore | app_vertex.py:38 | no declarative match before a position means `re.search` finds nothing before it |
| VertexStage.NoMarkerNoStage | app_vertex.py:38-40 | a text without "cop#" in any case yields `None`, so a bare "PZ5" is ignored |
| VertexStage.VertexFindsImpliesFirstFinds | app_vertex.py:38 | whenever the marker pattern finds a code, app2.py's pattern finds one too |
| VertexStage.MarkedCodeWins | app_vertex.py:38-39 | in "PZ1 cop# pz: PZ6" only the marked code counts: the result is "PZ6" |
| VertexStage.MarkedCodeFirst | app_vertex.py:38 | in that text the leftmost match starts at 4 and captures at 13 |
| VertexStage.FirstCodeWins | app2.py:31-32 | app2.py's extractor reports "PZ1" for the same text |
| KeyPool.SelectKey | app2.py:84-91 | an assignment `a > 0` locks the cursor to index `a - 1`; otherwise it is unlocked and keeps the session's index, or takes the draw when there is none |
| KeyPool.SelectKeyInRange | app2.py:84-91 | with an assignment of at most the pool size and a draw from `randint(0, N-1)`, the index addresses a key |
| KeyPool.AssignedBeyondPool | app2.py:84-87 | an assignment beyond the pool gives a locked cursor outside it |
| KeyPool.CurrentKey | app2.py:97 | `get_current_key` gives the key at the index exactly when the index is in range |
| KeyPool.Rotate | app2.py:98-101 | `rotate_key` leaves a locked cursor unchanged, moves an unlocked one to `(i + 1) % N`, and keeps the index in range |
| KeyPool.RotateTimesIndex | app2.py:98-101 | `n` rotations of an unlocked cursor move it to `(i + n) % N` |
| KeyPool.RotateCycle | app2.py:98-101 | `N` unlocked rotations are the identity |
| KeyPool.RotateLocked | app2.py:98-101 | any number of rotations leaves a locked cursor where it is |
| KeyPool.RotateTimesInRange | app2.py:98-101 | rotations keep an in-range index in range |
| KeyPool.ResetKey | app2.py:149-150 | Reset redraws the index only when unlocked, and a locked cursor keeps its key |
| Conversation.ResetChat | app2.py:145-148 | Reset empties the messages, opens the chat and clears the start stage |
| Conversation.TurnCompleteIgnoresCase | app2.py:235 | both turn-complete tests (`IsTurnComplete`: ";pz=" or "cop#", and "c#"; `IsVertexTurnComplete`: "cop#" and "c#") give the same answer on a reply and its lower-cased form |
| Conversation.MarkerWithoutCHashIncomplete | app2.py:235 | "COP# PZ: PZ3" alone completes a turn in neither front end: "c#" is required |
| Conversation.VertexMarkerIsStricter | app_vertex.py:165 | a reply that completes a Vertex turn also completes an app2.py turn |
| Conversation.PzMarkerOnlyInApp2 | app2.py:235 | ";pz=PZ6 C#" completes a turn in app2.py but not in app_vertex.py |
| Conversation.AppendTurnWellFormed | app2.py:228-233 | appending a user message, and optionally the model's reply to it, keeps roles in {user, model}, each model message after a user message, and the start stage set |
| Rotation.QuotaErrorCases | app2.py:209 | `IsQuotaError`: a ResourceExhausted exception always qualifies; otherwise the test is on the exact text, so "403 Forbidden" qualifies while "quota" and "500" do not |
| Rotation.QuotaErrorInContext | app2.py:209 | the text tests are substring tests: a quota message wrapped in any further text is still a quota error |
| Rotation.Drive | app2.py:198-215 | from invocation `n`, at most `N - n` further invocations. Each sends the same history and message and is numbered in order. The lock is preserved and an in-range cursor stays in range. A locked cursor never moves and makes at most one invocation. Every invocation but the last got a quota error. Success holds exactly when the last invocation replied; then the text is that reply and the cursor is on the key that produced it |
| Rotation.DriveKeys | app2.py:201-211 | the k-th invocation from here uses the key `k` rotations on |
| Rotation.DriveKeysRotated | app2.py:209-211 | after a quota error on an unlocked key, the remaining invocations use the keys one rotation further on |
| Rotation.DriveExhausted | app2.py:209-215 | the exhaustion message comes only after all `N` invocations, the last a quota error, on an unlocked cursor. The cursor is then `N - n` rotations on |
| Rotation.DriveExhaustedRotated | app2.py:209-215 | the same after a first quota error on an unlocked key |
| Rotation.DriveFatal | app2.py:202-214 | any other failure is "Błąd API: " plus the last error. That error is a non-quota error or one on a locked key, and the cursor stays on the key that raised it. Or there were no invocations, because the index is out of range (IndexError) |
| Rotation.DriveFatalRotated | app2.py:209-214 | the same after a first quota error on an unlocked key |
| Rotation.ErrorTextNotExhausted | app2.py:214-215 | no "Błąd API: " text equals the exhaustion message, so the two failure kinds are distinguishable |
| Rotation.IndexErrorIffNoKey | app2.py:202-214 | with a pool of `keys`, the driver ends with "Błąd API: list index out of range" and no invocation exactly when `get_current_key` (`KeyPool.CurrentKey`) has no key for the cursor |
| Rotation.CallWithRotation | app2.py:198-215 | at most `N` invocations in total, numbered from 0, all with the given history and message. It returns `(text, True)` exactly when the last invocation replied, with that reply's text. Every earlier invocation got a quota error |
| Rotation.AttemptKeys | app2.py:199-211 | starting in range, the k-th invocation is exactly `(history, input, (start + k) % N, k)` |
| Rotation.AttemptsUseDistinctKeys | app2.py:199-211 | no key is tried twice in one call |
| Rotation.KeyAfter | app2.py:98-101 | a cursor `k` rotations on (with `k = 0` for a locked one) is at index `(start + k) % N` |
| Rotation.ExhaustedReturnsToStart | app2.py:209-215 | when every answer is a quota error, an unlocked call makes exactly `N` invocations, reports exhaustion, and leaves the cursor back at its start |
| Rotation.FatalNoRotation | app2.py:209-214 | a first answer that is a non-quota error, or any error on a locked key, ends the call at once with "Błąd API: " plus its text, one invocation, and the cursor unmoved |
| Rotation.RotatesPastExhaustedKeys | app2.py:201-211 | with three keys of which the first two answer "429", the call succeeds on the third key after three invocations and stays on it |
| Stats.Bump | app2.py:49 | `Increment(1)` raises that counter by one, adds it to the store, and leaves every other counter as it was |
| Stats.Apply | app2.py:48-57 | applying increments raises each counter by the number of times it occurs, and adds exactly those counters |
| Stats.ApplyCommutes | app2.py:43-57 | two batches of increments applied in either order give the same store |
| Stats.ApplySnoc | app2.py:57 | one more increment at the end of a batch is one more `Bump` after it |
| Stats.VertexIncrements | app_vertex.py:48-55 | one session increment; the `{start}_to_{end}` transition once exactly when both stages are non-empty; `total_diamonds` once exactly when a transition is recorded and the end is "PZ6"; nothing else |
| Stats.Increments | app2.py:43-57 | the same counts plus exactly one `key_usage` increment, for the field `str(key_idx + 1)` of that day |
| Stats.LogStatsVertex | app_vertex.py:42-56 | one more completed session; one more of the day's `{start}_to_{end}` exactly when both stages are truthy; one more `total_diamonds` exactly when that transition ends in "PZ6"; every other counter unchanged |
| Stats.LogStats | app2.py:43-57 | the same as the Vertex variant on every non-key-usage counter, one more use of the field `str(key_idx + 1)` of that day, and no other key-usage change |
| Stats.VertexKeepsKeyUsage | app_vertex.py:42-56 | the Vertex `log_stats` never changes a `key_usage` counter |
| Stats.LogStatsExtendsVertex | app2.py:43-57 | app2.py's `log_stats` is the Vertex one followed by the key-usage increment |
| Stats.TransitionsOf | app2.py:71-72 | the day's `pz_transitions` map holds exactly the operator's transition counters of that day, with their values |
| Stats.DiamondSum | app2.py:72 | the sum of the `pz_transitions` values whose keys end in "_to_PZ6" (the predicate `IsDiamondKey`): non-negative when the values are, and 0 when no key passes the test |
| Stats.SumOverRemove | app2.py:72 | the diamond sum does not depend on the order in which entries are taken |
| Stats.SumOverAgree | app2.py:72 | the sum reads only the entries it ranges over |
| Stats.DiamondSumBump | app2.py:72 | incrementing one entry raises the sum by one exactly when its key ends in "_to_PZ6" |
| Stats.TodayDiamonds | app2.py:70-72 | what the sidebar shows as today's diamonds: the diamond sum of the operator's `pz_transitions` map for that day, non-negative when its counts are and 0 when no key ends in "_to_PZ6" |
| Stats.TodayAfterBump | app2.py:72 | one increment changes today's diamonds only through a transition counter of that day and operator with a diamond key |
| Stats.TransitionsAfterBump | app2.py:53 | bumping a transition counter bumps that entry of the day's map |
| Stats.TransitionsAfterOtherBump | app2.py:53 | any other counter leaves the day's map unchanged |
| Stats.LogStatsVertexSteps | app_vertex.py:48-56 | the store the Vertex `log_stats` leaves is the session bump, the transition bump and the diamond bump, each only when its condition holds; the increments commute (`ApplyCommutes`), so the source's write order does not change the result |
| Stats.DiamondsAgree | app_vertex.py:52-55 | for a well-formed end stage, one call raises today's diamond sum by exactly what it adds to `total_diamonds`. That is 1 exactly when a transition ending in "PZ6" is recorded |
| Stats.DiamondsAgreeWithKeyUsage | app2.py:52-57 | the same for app2.py's variant: the key-usage increment does not touch the transitions |
| Stats.LiteralVertexIncrements | app_vertex.py:48-56 | the increments when `set(..., merge=True)` keeps the dotted name as one top-level field: one session, one top-level field `pz_transitions.{start}_to_{end}` when both stages are truthy, one `total_diamonds` on a milestone transition, and no transition counter |
| Stats.LogStatsLiteral | app_vertex.py:42-56 | under that reading no transition counter changes, while `total_diamonds` and `sessions_completed` rise as before |
| Stats.TodayAfterNonTransitions | app2.py:72 | increments that touch no transition counter leave today's diamonds unchanged |
| Stats.LiteralReadingHidesDiamonds | app_vertex.py:53-56 | under the literal reading today's diamonds never move, while `total_diamonds` rises on every milestone transition |
| Stats.LiteralReadingDisagrees | app_vertex.py:53-56 | for a session from "PZ1" to "PZ6", the nested reading shows one more diamond today than the literal one, and both add the same to `total_diamonds` |
| Controller.Rerun | app2.py:84-91 | the selection repeated by every run: a positive assignment pins key `assignment - 1`; otherwise the stored index is kept unlocked; the conversation is untouched |
| Controller.RerunUnchanged | app2.py:84-91 | re-running under the assignment that chose the cursor leaves the session as it was |
| Controller.RerunInvariant | app2.py:84-91 | after a re-run the invariant holds exactly when the conversation is well-formed and either the assignment pins a key or the stored index is in the pool |
| Controller.CursorPastPoolFails | app2.py:198-215 | a submission on a cursor past the pool makes no invocation, logs nothing, keeps the cursor, and shows "Błąd API: list index out of range" (the exhausted message for an empty pool) |
| Controller.ClearedAssignmentLeavesPool | app2.py:84-91 | with three keys, assignment 5 and then no assignment leave an unlocked cursor at index 4 that breaks the invariant; submissions fail with the IndexError text, and Reset restores the invariant |
| Controller.Reset | app2.py:145-150 | a fresh conversation; the cursor is redrawn only when unlocked |
| Controller.StageOr | app2.py:228 | the stage captured from the text when it names one, and the default otherwise |
| Controller.Finish | app2.py:231-239 | on success the reply is appended and no error shown; on failure the conversation is unchanged and the text is shown. `log_stats` is called exactly for a successful reply that completes the turn, with the stage parsed from it (or "PZ_END") and the cursor's index |
| Controller.SubmitFirst | app2.py:226-240 | An empty input only shows "Wsad nie może być pusty!". Otherwise the start stage is `parse_pz(input)` or "PZ_START". Every invocation sends an empty history and the input. On failure only the user message is appended; on success the user and model messages are. `log_stats` runs exactly when the reply completes the turn, with the key index that produced it |
| Controller.SubmitFollowUp | app2.py:245-257 | An empty prompt changes nothing. Every invocation sends exactly the earlier messages as history, and the start stage is kept. On failure one message is added, on success two. `log_stats` runs exactly when the reply completes the turn, with the key that produced it |
| Controller.Submit | app2.py:164-257 | nothing before the chat is opened; the first-input form while the history is empty; the chat input afterwards |
| Controller.Record | app2.py:237 | a logged turn completes one session of that day and operator; an unlogged one changes no counter |
| Controller.InitialSession | app2.py:83-95 | a new session (no messages, chat closed, no start stage, the selected key for any assignment, including one beyond the pool) satisfies the invariant, and a submission before Reset does nothing |
| Controller.ResetKeepsInvariant | app2.py:145-150 | Reset with a valid draw keeps the conversation well-formed and an unlocked cursor in range |
| Controller.SubmitKeepsInvariant | app2.py:217-257 | every submission keeps the conversation well-formed and an unlocked cursor in range |
| Controller.FirstKeepsInvariant | app2.py:226-239 | the same for the first-input form |
| Controller.FollowUpKeepsInvariant | app2.py:245-257 | the same for the chat input |
| Controller.StageOrIsToken | app2.py:228 | a captured stage, or a sentinel default, is a stage token |
| Controller.FirstTurnAfterTwoQuotaErrors | app2.py:226-237 | with three keys of which the first two are over quota and the third replies "PZ6 COP# C#", the first turn is logged from "PZ_START" to "PZ6" with key index 2 |
| Controller.ThirdKeyAnswers | app2.py:201-211 | in that scenario the call succeeds on the third key |
| Controller.MilestoneReply | app2.py:235-236 | "PZ6 COP# C#" completes a turn and its stage is "PZ6" |
| Controller.FirstTurnCountsDiamond | app2.py:52-55 | in that scenario the operator's `total_diamonds` goes up by one |
| Controller.PinnedQuotaErrorIsFatal | app2.py:209-214 | on a session pinned to the second of three keys, a quota error gives "Błąd API: Quota exceeded" after one invocation, not the exhaustion message, and nothing is logged |
| Controller.PrimaryMarkerOnlyNotLogged | app2.py:251-256 | a reply with ";pz=" but no "c#" is appended and not logged |
| VertexController.Reset | app_vertex.py:105-109 | Reset empties the messages, opens the chat and clears the start stage |
| VertexController.StageOr | app_vertex.py:135 | the stage after the "COP# PZ :" marker when the text has one, and the default otherwise |
| VertexController.VertexRole | app_vertex.py:159 | "user" stays "user"; every other role becomes "model" |
| VertexController.VertexHistory | app_vertex.py:157-159 | the history keeps the messages in order, with their contents and mapped roles |
| VertexController.VertexHistoryOfWellFormed | app_vertex.py:157-159 | for a well-formed conversation the mapped history is the messages themselves |
| VertexController.SubmitFirst | app_vertex.py:133-145 | An empty input only shows "Wsad jest pusty!". Otherwise the start stage is captured and the input sent with no history. A reply is appended and always logged; an exception leaves only the user message and shows "Błąd Vertex AI: " plus its text |
| VertexController.SubmitFollowUp | app_vertex.py:151-167 | An empty prompt changes nothing. The history sent is the earlier messages with roles mapped. A reply is appended and logged exactly when it contains "cop#" and "c#"; an exception leaves only the user message and shows "Błąd: " plus its text |
| VertexController.Submit | app_vertex.py:120-151 | nothing before the chat is opened; the first-input form while the history is empty; the chat input afterwards |
| VertexController.SubmitKeepsWellFormed | app_vertex.py:133-167 | every submission keeps the conversation well-formed |
| VertexController.FirstKeepsWellFormed | app_vertex.py:133-145 | the same for the first-input form |
| VertexController.FollowUpKeepsWellFormed | app_vertex.py:151-167 | the same for the chat input |
| VertexController.FirstReplyLoggedWithoutMarker | app_vertex.py:139-141 | a first reply with neither marker ("ok") is still logged |

## Left out

- Streamlit UI: widgets, the sidebar rendering, `st.rerun`, toasts, spinners, cookies and logout. These are presentation.
- Firestore as a service: the database is an abstract counter map.
  - Document paths become the `Counter` constructors.
  - The dotted field `pz_transitions.{start}_to_{end}` is read as a nested map entry whose key is the transition key. The literal reading is modelled beside it (see "## Findings").
  - `merge=True` is a plain increment.
  - Failed writes are not modelled.
- `session_times` (`ArrayUnion` of the time of day): it carries no count.
- The day and the time from `datetime.now` in Europe/Warsaw: the day is a parameter.
- `random.randint`: the draw is a parameter. Its range is a precondition only where the invariant needs it.
- `time.sleep(1)` between retries: timing only.
- The Gemini and Vertex calls are the oracle `respond`. Left out with them:
  - `genai.configure`;
  - `get_or_create_model` and its context cache (md5 key, TTL, the `cache_` session entries Reset deletes);
  - `GenerativeModel`.
- Prompt construction (`parametry_startowe`, `FULL_PROMPT`) and the model choice: they only shape what is sent upstream.
- Operator identity, `admin_message` and `message_read`: configuration collaborators. admin_app.py is not part of this model. Its assignment range 0..5 appears only as "an assignment may exceed the pool".
- A failure of `log_stats` itself inside the Vertex `try` blocks: the reply has already been appended, and the error shown is "Błąd Vertex AI: " on the first input (app_vertex.py:138-144) and "Błąd: " on a follow-up (app_vertex.py:154-167). The model assumes increments succeed.
- Stage.ParsePz: digits and case are ASCII only. Python's Unicode `\d` and non-ASCII `.upper()`/`.lower()` are not modelled. The same holds for Stage.DigitRun and for VertexStage.ParsePz and VertexStage.DigitRun, which share the ASCII `\d`.
- Text.ParseInt: accepts an optional sign and ASCII digits. Python's `int()` also accepts surrounding whitespace, `_` between digits and non-ASCII digits; these are not modelled. `get_pz_value` is defined but not called in app2.py.
- Text.Lower: lower-cases ASCII letters only. Python's `str.lower` also maps non-ASCII letters and can change the length ('İ'.lower() has two characters); these are not modelled.
- Stage.PzValue: inherits the ParseInt gap, so "PZ 5" or "PZ1_0" have no value here although `int()` would read them.
- Stats.DiamondsAgree: the agreement between the writer and the reader holds under the nested reading of the dotted field. Both variants write it with `set(..., merge=True)` (app2.py:56, app_vertex.py:56). In the Python Firestore client, `set` takes top-level names as single field names and only `update()` splits dotted names into paths. The literal reading is therefore the likely one, and under it the agreement fails (see "## Findings").
- Controller.Invariant: it holds for a new session and is kept by Reset and by every submission. It is not kept by a re-run after an assignment past the pool is cleared (Controller.RerunInvariant).
- Controller.Record: states only the session counter. The full increment list is stated by Stats.Increments and Stats.Apply.

## Findings

| source | as written | input that shows it | evidently intended | confidence | as-written member | corrected member |
|---|---|---|---|---|---|---|
| app_vertex.py:53-56 | the transition is written under the dotted name `pz_transitions.{start}_to_{end}` with `set(..., merge=True)`, which stores it as one top-level field beside the `pz_transitions` map; app2.py:53-56 does the same | a session from "PZ1" to "PZ6": `total_diamonds` rises by one and the sidebar's today figure (app2.py:72) does not | the entry lands inside the `pz_transitions` map the sidebar reads (written with `update()` or as a nested map), so both figures rise together | not executed; medium: rests on how the Python client treats field names in `set` | Stats.LogStatsLiteral, Stats.LiteralReadingDisagrees | Stats.LogStatsVertex, Stats.DiamondsAgree |
