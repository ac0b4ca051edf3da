/**
  app_vertex.py's stage extractor: only the code written after the marker
  `COP# PZ :` counts, with any whitespace between the parts and the
  letters in any case (the pattern `COP#\s*PZ\s*:\s*(PZ\d+)` under
  IGNORECASE).
 */
module VertexStage {
  import opened Wrappers
  import opened Text
  import opened Stage

  predicate IsC(c: char) { c == 'C' || c == 'c' }
  predicate IsO(c: char) { c == 'O' || c == 'o' }

  /** Every character of `t[a..b]` is whitespace: one way `\s*` can match. */
  predicate Blank(t: string, a: int, b: int) {
    0 <= a <= b <= |t| && forall k {:trigger IsSpace(t[k])} :: a <= k < b ==> IsSpace(t[k])
  }

  /** The greedy `\s*` starting at `j`: the longest run of whitespace there.
      Each `\s*` of the pattern is followed by a non-space literal, so the
      greedy run is the only one that can lead to a match
      (`SkipSpacesStops`). */
  function SkipSpaces(t: string, j: nat): (r: nat)
    requires j <= |t|
    ensures j <= r <= |t| && Blank(t, j, r)
    ensures r == |t| || !IsSpace(t[r])
    decreases |t| - j
  {
    if j < |t| && IsSpace(t[j]) then SkipSpaces(t, j + 1) else j
  }

  /** A run of whitespace that ends before a non-space is the one
      `SkipSpaces` finds. */
  lemma {:induction false} SkipSpacesStops(t: string, a: nat, b: nat)
    requires Blank(t, a, b) && b < |t| && !IsSpace(t[b])
    ensures SkipSpaces(t, a) == b
    decreases b - a
  {
    if a < b {
      SkipSpacesStops(t, a + 1, b);
    }
  }

  /** The pattern `COP#\s*PZ\s*:\s*(PZ\d+)` under IGNORECASE, with its
      parts pinned down: "COP#" at `i`, whitespace up to "PZ" at `p`,
      whitespace up to ':' at `q`, whitespace up to the captured `PZ<digit>`
      at `j`. */
  predicate PatternAt(t: string, i: int, p: int, q: int, j: int) {
    && MarkerAt(t, i)
    && Blank(t, i + 4, p) && p + 2 <= |t| && IsP(t[p]) && IsZ(t[p + 1])
    && Blank(t, p + 2, q) && q < |t| && t[q] == ':'
    && Blank(t, q + 1, j) && MatchAt(t, j)
  }

  /** `t[i..i+4]` is "COP#" in any case. */
  predicate MarkerAt(t: string, i: int) {
    0 <= i && i + 4 <= |t| && IsC(t[i]) && IsO(t[i + 1]) && IsP(t[i + 2]) && t[i + 3] == '#'
  }

  /** After "COP#" at `i`, the position past the `\s*` that follows. */
  function AfterMarker(t: string, i: nat): (r: Option<nat>)
    requires i <= |t|
    ensures r.Some? ==> MarkerAt(t, i) && i + 4 <= r.value <= |t|
  {
    if MarkerAt(t, i) then Some(SkipSpaces(t, i + 4)) else None
  }

  /** After "PZ" at `j`, the position past the `\s*` that follows. */
  function AfterPz(t: string, j: nat): (r: Option<nat>)
    requires j <= |t|
    ensures r.Some? ==> j + 2 <= r.value <= |t|
  {
    if j + 2 <= |t| && IsP(t[j]) && IsZ(t[j + 1]) then Some(SkipSpaces(t, j + 2)) else None
  }

  /** After ':' at `j`, the position past the `\s*` that follows. */
  function AfterColon(t: string, j: nat): (r: Option<nat>)
    requires j <= |t|
    ensures r.Some? ==> j + 1 <= r.value <= |t|
  {
    if j < |t| && t[j] == ':' then Some(SkipSpaces(t, j + 1)) else None
  }

  /** When the whole pattern matches at `i`, the position of the captured
      `PZ<digits>`. */
  function CaptureAt(t: string, i: nat): (r: Option<nat>)
    requires i <= |t|
    ensures r.Some? ==> MarkerAt(t, i) && i + 4 <= r.value && MatchAt(t, r.value)
  {
    match AfterMarker(t, i)
    case None => None
    case Some(j1) =>
      match AfterPz(t, j1)
      case None => None
      case Some(j2) =>
        match AfterColon(t, j2)
        case None => None
        case Some(j3) =>
          if MatchAt(t, j3) then Some(j3) else None
  }

  /** What `CaptureAt` finds is a match of the whole pattern. */
  lemma CaptureAtSound(t: string, i: nat)
    requires i <= |t| && CaptureAt(t, i).Some?
    ensures exists p, q :: PatternAt(t, i, p, q, CaptureAt(t, i).value)
  {
    var p := AfterMarker(t, i).value;
    var q := AfterPz(t, p).value;
    assert PatternAt(t, i, p, q, CaptureAt(t, i).value);
  }

  /** Conversely, wherever the pattern matches, `CaptureAt` finds it. */
  lemma CaptureAtComplete(t: string, i: nat, p: int, q: int, j: int)
    requires i <= |t| && PatternAt(t, i, p, q, j)
    ensures CaptureAt(t, i) == Some(j)
  {
    SkipSpacesStops(t, i + 4, p);
    SkipSpacesStops(t, p + 2, q);
    SkipSpacesStops(t, q + 1, j);
  }

  predicate MatchesAt(t: string, i: int) {
    0 <= i <= |t| && CaptureAt(t, i).Some?
  }

  /** The leftmost position where the pattern matches, at or after `i`. */
  function SearchFrom(t: string, i: nat): (r: Option<nat>)
    requires i <= |t|
    ensures r.Some? ==> i <= r.value && MatchesAt(t, r.value)
    ensures forall k :: i <= k && (r.None? || k < r.value) ==> !MatchesAt(t, k)
    decreases |t| - i
  {
    if MatchesAt(t, i) then Some(i)
    else if i == |t| then None
    else SearchFrom(t, i + 1)
  }

  /** Position `i` is the leftmost match, the one `re.search` reports. */
  predicate FirstMarked(t: string, i: int) {
    MatchesAt(t, i) && forall k :: 0 <= k < i ==> !MatchesAt(t, k)
  }

  /** app_vertex.py `parse_pz`: the upper-cased code captured by the leftmost
      match of the marker pattern, or `None`. */
  function ParsePz(t: string): (r: Option<string>)
    ensures r.None? <==> forall k :: 0 <= k <= |t| ==> !MatchesAt(t, k)
    ensures r.Some? ==> IsStageCode(r.value)
  {
    if |t| == 0 then None
    else match SearchFrom(t, 0)
      case None => None
      case Some(i) =>
        var ds := DigitRun(t, CaptureAt(t, i).value + 2);
        assert ("PZ" + ds)[..2] == "PZ" && ("PZ" + ds)[2..] == ds;
        Some("PZ" + ds)
  }

  /** The result is the code captured by the leftmost match (at `j`),
      with its greedy digit run. */
  lemma ParsePzLeftmost(t: string, i: nat, j: nat)
    requires FirstMarked(t, i) && CaptureAt(t, i) == Some(j)
    ensures ParsePz(t) == Some("PZ" + DigitRun(t, j + 2))
  {
    SearchFindsFirst(t, i);
    assert |t| != 0;
    assert SearchFrom(t, 0) == Some(i);
  }

  lemma SearchFindsFirst(t: string, i: nat)
    requires FirstMarked(t, i)
    ensures SearchFrom(t, 0) == Some(i)
  {
    var r := SearchFrom(t, 0);
    assert r.Some? && r.value <= i;
    assert MatchesAt(t, r.value);
  }

  /** The extractor finds nothing exactly when the pattern matches nowhere. */
  lemma ParsePzNoneIffNoPattern(t: string)
    ensures ParsePz(t).None? <==> forall i, p, q, j :: !PatternAt(t, i, p, q, j)
  {
    forall i, p, q, j | PatternAt(t, i, p, q, j)
      ensures 0 <= i <= |t| && MatchesAt(t, i)
    {
      CaptureAtComplete(t, i, p, q, j);
    }
    if ParsePz(t).Some? {
      var i :| 0 <= i <= |t| && MatchesAt(t, i);
      CaptureAtSound(t, i);
    }
  }

  /** With the leftmost match of the pattern at `i`, the result is the
      upper-cased "PZ" and the greedy digits of its capture. */
  lemma ParsePzFirstPattern(t: string, i: nat, p: int, q: int, j: int)
    requires PatternAt(t, i, p, q, j)
    requires forall k, p', q', j' :: 0 <= k < i ==> !PatternAt(t, k, p', q', j')
    ensures ParsePz(t) == Some("PZ" + DigitRun(t, j + 2))
  {
    CaptureAtComplete(t, i, p, q, j);
    NoMatchBefore(t, i);
    ParsePzLeftmost(t, i, j);
  }

  /** No pattern starts before `i`, so no match does either. */
  lemma NoMatchBefore(t: string, i: nat)
    requires i <= |t|
    requires forall k, p', q', j' :: 0 <= k < i ==> !PatternAt(t, k, p', q', j')
    ensures forall k :: 0 <= k < i ==> !MatchesAt(t, k)
  {
    forall k | 0 <= k < i
      ensures !MatchesAt(t, k)
    {
      NoPatternNoMatch(t, k);
    }
  }

  lemma NoPatternNoMatch(t: string, k: int)
    requires 0 <= k <= |t|
    requires forall p, q, j :: !PatternAt(t, k, p, q, j)
    ensures !MatchesAt(t, k)
  {
    if CaptureAt(t, k).Some? {
      CaptureAtSound(t, k);
      assert false;
    }
  }

  /** Without "cop#" (in any case) in the text there is no match, so a bare
      "PZ5" elsewhere is ignored. */
  lemma NoMarkerNoStage(t: string)
    requires !Contains(Lower(t), "cop#")
    ensures ParsePz(t).None?
  {
    forall k | 0 <= k <= |t|
      ensures !MatchesAt(t, k)
    {
      NoMarkerAt(t, k);
    }
  }

  lemma NoMarkerAt(t: string, k: nat)
    requires !Contains(Lower(t), "cop#")
    ensures !MarkerAt(t, k)
  {
    var l := Lower(t);
    if k + 4 <= |t| {
      assert !OccursAt(l, "cop#", k);
      assert l[k..k + 4] != "cop#";
    }
  }

  /** Whenever this extractor finds a code, app2.py's extractor finds one too. */
  lemma VertexFindsImpliesFirstFinds(t: string)
    ensures ParsePz(t).Some? ==> Stage.ParsePz(t).Some?
  {
    if ParsePz(t).Some? {
      var i := SearchFrom(t, 0).value;
      assert MatchAt(t, CaptureAt(t, i).value);
    }
  }

  /** Only the marked code counts: in "PZ1 cop# pz: PZ6" the capture is "PZ6". */
  lemma MarkedCodeWins()
    ensures ParsePz("PZ1 cop# pz: PZ6") == Some("PZ6")
  {
    var t := "PZ1 cop# pz: PZ6";
    MarkedCodeFirst();
    ParsePzLeftmost(t, 4, 13);
    assert DigitRun(t, 15) == "6" by {
      assert DigitRun(t, 16) == [];
    }
    assert "PZ" + "6" == "PZ6";
  }

  /** In that text the leftmost match is at 4, capturing at 13. */
  lemma MarkedCodeFirst()
    ensures FirstMarked("PZ1 cop# pz: PZ6", 4)
    ensures CaptureAt("PZ1 cop# pz: PZ6", 4) == Some(13)
  {
    var t := "PZ1 cop# pz: PZ6";
    MarkedCodeCapture();
    forall k | 0 <= k < 4
      ensures !MatchesAt(t, k)
    {
      assert !MarkerAt(t, k);
    }
  }

  lemma MarkedCodeCapture()
    ensures CaptureAt("PZ1 cop# pz: PZ6", 4) == Some(13)
  {
    var t := "PZ1 cop# pz: PZ6";
    assert Blank(t, 8, 9) && Blank(t, 11, 11) && Blank(t, 12, 13);
    assert PatternAt(t, 4, 9, 11, 13);
    CaptureAtComplete(t, 4, 9, 11, 13);
  }

  /** app2.py's extractor reports the first code of the same text, "PZ1". */
  lemma FirstCodeWins()
    ensures Stage.ParsePz("PZ1 cop# pz: PZ6") == Some("PZ1")
  {
    var t := "PZ1 cop# pz: PZ6";
    assert FirstMatch(t, 0);
    assert DigitRun(t, 2) == "1" by {
      assert DigitRun(t, 3) == [];
    }
    assert Stage.ParsePz(t) == Some("PZ" + "1");
    assert "PZ" + "1" == "PZ1";
  }
}
