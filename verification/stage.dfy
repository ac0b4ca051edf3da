/**
  Stage codes ("PZ" codes) as app2.py extracts and ranks them: `parse_pz`
  finds the first case-insensitive `PZ<digits>` in a text, and
  `get_pz_value` maps a stage token to the number it sorts by.
 */
module Stage {
  import opened Wrappers
  import opened Text

  /** Recorded as the start stage when the first input names none. */
  const StartSentinel: string := "PZ_START"
  /** Recorded as the end stage when a completed reply names none. */
  const EndSentinel: string := "PZ_END"
  /** The end stage counted as a "diamond". */
  const Milestone: string := "PZ6"

  /** A normalised stage code: "PZ" followed by one or more digits. */
  predicate IsStageCode(s: string) {
    |s| >= 3 && s[..2] == "PZ" && AllDigits(s[2..])
  }

  /** A token that can appear on either side of a recorded transition. */
  predicate IsStageToken(s: string) {
    s == StartSentinel || s == EndSentinel || IsStageCode(s)
  }

  predicate IsP(c: char) { c == 'P' || c == 'p' }
  predicate IsZ(c: char) { c == 'Z' || c == 'z' }

  /** The pattern `PZ\d+` under IGNORECASE matches starting at position `i`. */
  predicate MatchAt(t: string, i: int) {
    0 <= i && i + 3 <= |t| && IsP(t[i]) && IsZ(t[i + 1]) && IsDigit(t[i + 2])
  }

  /** Position `i` is the leftmost match, the one `re.search` reports. */
  predicate FirstMatch(t: string, i: int) {
    MatchAt(t, i) && forall k :: 0 <= k < i ==> !MatchAt(t, k)
  }

  /** The greedy `\d+` starting at `j`: the longest run of digits there. */
  function DigitRun(t: string, j: nat): (r: string)
    requires j <= |t|
    ensures j + |r| <= |t| && r == t[j..j + |r|]
    ensures AllDigits(r)
    ensures j + |r| == |t| || !IsDigit(t[j + |r|])
    ensures j < |t| && IsDigit(t[j]) ==> |r| >= 1
    decreases |t| - j
  {
    if j < |t| && IsDigit(t[j]) then [t[j]] + DigitRun(t, j + 1) else []
  }

  /** The leftmost match at or after `i`. */
  function SearchFrom(t: string, i: nat): (r: Option<nat>)
    requires i <= |t|
    ensures r.Some? ==> i <= r.value && MatchAt(t, r.value)
    ensures forall k :: i <= k && (r.None? || k < r.value) ==> !MatchAt(t, k)
    decreases |t| - i
  {
    if i + 3 > |t| then None
    else if MatchAt(t, i) then Some(i)
    else SearchFrom(t, i + 1)
  }

  /** app2.py `parse_pz`: the leftmost case-insensitive `PZ<digits>` with
      the letters upper-cased, or `None` for an empty text or no match. */
  function ParsePz(t: string): (r: Option<string>)
    ensures r.None? <==> forall k :: 0 <= k < |t| ==> !MatchAt(t, k)
    ensures r.Some? ==> IsStageCode(r.value)
    ensures forall i :: FirstMatch(t, i) ==> r == Some("PZ" + DigitRun(t, i + 2))
  {
    if |t| == 0 then None
    else match SearchFrom(t, 0)
      case None => None
      case Some(i) =>
        var ds := DigitRun(t, i + 2);
        assert ("PZ" + ds)[..2] == "PZ" && ("PZ" + ds)[2..] == ds;
        Some("PZ" + ds)
  }

  /** A stage code parses to itself, so extraction is idempotent. */
  lemma ParsePzOfStageCode(c: string)
    requires IsStageCode(c)
    ensures ParsePz(c) == Some(c)
  {
    assert c[0] == c[..2][0] && c[1] == c[..2][1] && c[2] == c[2..][0];
    assert FirstMatch(c, 0);
    var ds := DigitRun(c, 2);
    assert ds == c[2..];
    assert c == c[..2] + c[2..];
  }

  lemma ParsePzIdempotent(t: string)
    ensures ParsePz(t).Some? ==> ParsePz(ParsePz(t).value) == ParsePz(t)
  {
    if ParsePz(t).Some? {
      ParsePzOfStageCode(ParsePz(t).value);
    }
  }

  lemma {:induction false} DigitRunLower(t: string, j: nat)
    requires j <= |t|
    ensures DigitRun(Lower(t), j) == DigitRun(t, j)
    decreases |t| - j
  {
    if j < |t| && IsDigit(t[j]) {
      DigitRunLower(t, j + 1);
    }
  }

  /** Matching ignores case: lower-casing the text changes nothing. */
  lemma ParsePzLower(t: string)
    ensures ParsePz(Lower(t)) == ParsePz(t)
  {
    if ParsePz(t).Some? {
      var i := SearchFrom(t, 0).value;
      ParsePzLowerAt(t, i);
    } else {
      NoMatchLower(t);
    }
  }

  lemma ParsePzLowerAt(t: string, i: int)
    requires FirstMatch(t, i)
    ensures ParsePz(Lower(t)) == ParsePz(t)
  {
    FirstMatchLower(t, i);
    DigitRunLower(t, i + 2);
    assert ParsePz(t) == Some("PZ" + DigitRun(t, i + 2));
    assert ParsePz(Lower(t)) == Some("PZ" + DigitRun(Lower(t), i + 2));
  }

  lemma MatchAtLower(t: string, k: int)
    ensures MatchAt(Lower(t), k) <==> MatchAt(t, k)
  {
  }

  lemma FirstMatchLower(t: string, i: int)
    requires FirstMatch(t, i)
    ensures FirstMatch(Lower(t), i)
  {
    MatchAtLower(t, i);
    forall k | 0 <= k < i
      ensures !MatchAt(Lower(t), k)
    {
      MatchAtLower(t, k);
    }
  }

  lemma NoMatchLower(t: string)
    requires forall k :: 0 <= k < |t| ==> !MatchAt(t, k)
    ensures forall k :: 0 <= k < |Lower(t)| ==> !MatchAt(Lower(t), k)
  {
    forall k | 0 <= k < |Lower(t)|
      ensures !MatchAt(Lower(t), k)
    {
      MatchAtLower(t, k);
    }
  }

  /** app2.py `get_pz_value`: the sort value of a stage token, `None` when the
      text after "PZ" is not an integer. */
  function PzValue(p: Option<string>): (r: Option<int>)
    ensures p == Some(StartSentinel) ==> r == Some(-1)
    ensures p == Some(EndSentinel) ==> r == Some(999)
    ensures p.Some? && IsStageCode(p.value) ==> r == Some(DecimalValue(p.value[2..]) as int)
    ensures p.None? || !(|p.value| >= 2 && p.value[..2] == "PZ") ==> r.None?
    ensures (p.Some? && p.value != StartSentinel && p.value != EndSentinel &&
             |p.value| >= 2 && p.value[..2] == "PZ") ==> (r.Some? <==> IsIntLiteral(p.value[2..]))
    ensures (p.Some? && p.value != StartSentinel && p.value != EndSentinel &&
             |p.value| >= 2 && p.value[..2] == "PZ") ==> r == ParseInt(p.value[2..])
  {
    if p == Some(StartSentinel) then Some(-1)
    else if p == Some(EndSentinel) then Some(999)
    else if p.Some? && |p.value| >= 2 && p.value[..2] == "PZ" then ParseInt(p.value[2..])
    else None
  }

  /** Tokens that start with "PZ" but do not continue with an integer have
      no value; a sign or leading zeros are read as `int()` reads them. */
  lemma PzValueExamples()
    ensures PzValue(Some("PZ_X")) == None
    ensures PzValue(Some("PZ")) == None
    ensures PzValue(Some("")) == None
    ensures PzValue(Some("PZ-3")) == Some(-3)
    ensures PzValue(Some("PZ007")) == Some(7)
  {
    assert "PZ_X"[2..] == "_X" && !IsDigit('_');
    assert "PZ-3"[2..] == "-3" && "-3"[1..] == "3";
    assert "PZ007"[2..] == "007";
    assert DecimalValue("007") == 7 by {
      assert "007"[..2] == "00" && "00"[..1] == "0" && "0"[..0] == "";
    }
  }

  /** Whatever `parse_pz` extracts has a non-negative sort value. */
  lemma ValueOfParsed(t: string)
    ensures ParsePz(t).Some? ==> PzValue(ParsePz(t)).Some? && PzValue(ParsePz(t)).value >= 0
  {
  }

  /** The start sentinel sorts before every numbered stage. */
  lemma StartSortsFirst(c: string)
    requires IsStageCode(c)
    ensures PzValue(Some(StartSentinel)).value < PzValue(Some(c)).value
  {
  }

  /** The end sentinel does not sort after every numbered stage: "PZ1000"
      sorts after it. */
  lemma EndSentinelNotLast()
    ensures IsStageCode("PZ1000")
    ensures PzValue(Some("PZ1000")) == Some(1000)
    ensures PzValue(Some(EndSentinel)) == Some(999)
  {
    var c := "PZ1000";
    assert c[2..] == "1000";
    assert "1000"[..3] == "100" && "100"[..2] == "10" && "10"[..1] == "1" && "1"[..0] == "";
    assert DecimalValue("1") == 1;
    assert DecimalValue("10") == 10;
    assert DecimalValue("100") == 100;
    assert DecimalValue("1000") == 1000;
  }
}
