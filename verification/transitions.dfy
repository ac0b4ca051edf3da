/**
  The transition-key wire format `{start}_to_{end}` that app2.py and
  app_vertex.py write into `pz_transitions`, and the suffix test
  `endswith("_to_PZ6")` the sidebar uses to count diamonds.
 */
module Transitions {
  import opened Wrappers
  import opened Text
  import opened Stage

  const Separator: string := "_to_"
  const DiamondSuffix: string := "_to_PZ6"

  /** The field name under `pz_transitions` for one recorded transition. */
  function Key(start: string, end: string): (r: string)
    ensures |r| == |start| + |Separator| + |end|
    ensures r[..|start|] == start && OccursAt(r, Separator, |start|)
    ensures r[|start| + |Separator|..] == end
  {
    var r := start + Separator + end;
    assert r[|start|..|start| + |Separator|] == Separator;
    r
  }

  /** The key of a session that went from no stage to the milestone, and the
      diamond test passing on it. */
  lemma KeyExample()
    ensures Key(StartSentinel, Milestone) == "PZ_START_to_PZ6"
    ensures IsDiamondKey("PZ_START_to_PZ6")
  {
    DiamondKeyIffMilestone(StartSentinel, Milestone);
  }

  /** The reader's test for a transition that ended in the milestone stage. */
  predicate IsDiamondKey(k: string) {
    EndsWith(k, DiamondSuffix)
  }

  /** Stage tokens are written in upper case, digits and '_': no 't'. */
  lemma TokenHasNoT(s: string)
    requires IsStageToken(s)
    ensures forall j :: 0 <= j < |s| ==> s[j] != 't'
  {
    if IsStageCode(s) {
      forall j | 0 <= j < |s|
        ensures s[j] != 't'
      {
        if j < 2 {
          assert s[j] == s[..2][j];
        } else {
          assert s[j] == s[2..][j - 2];
        }
      }
    }
  }

  /** A stage token never ends in '_'. */
  lemma TokenLastChar(s: string)
    requires IsStageToken(s)
    ensures |s| > 0 && s[|s| - 1] != '_'
  {
    if IsStageCode(s) {
      assert s[|s| - 1] == s[2..][|s| - 3];
    }
  }

  /** No stage token contains the separator. */
  lemma NoSeparatorInToken(s: string)
    requires IsStageToken(s)
    ensures forall v :: !OccursAt(s, Separator, v)
  {
    TokenHasNoT(s);
    forall v | 0 <= v && v + 4 <= |s|
      ensures !OccursAt(s, Separator, v)
    {
      assert s[v..v + 4][1] == s[v + 1];
    }
  }

  /** No character of a stage token except a sentinel's third is '_'. */
  lemma TokenUnderscore(s: string, j: nat)
    requires IsStageToken(s) && j < |s| && (IsStageCode(s) || j != 2)
    ensures s[j] != '_'
  {
    if IsStageCode(s) {
      if j < 2 {
        assert s[j] == s[..2][j];
      } else {
        assert s[j] == s[2..][j - 2];
      }
    }
  }

  /** Writer and reader agree: for a well-formed end stage, the key a
      transition is stored under passes the diamond test exactly when the
      writer also bumps `total_diamonds`, i.e. when the end stage is "PZ6". */
  lemma DiamondKeyIffMilestone(start: string, end: string)
    requires IsStageToken(end)
    ensures IsDiamondKey(Key(start, end)) <==> end == Milestone
  {
    var k := Key(start, end);
    var L := |end|;
    assert k[|start| + 4..] == end;
    if end == Milestone {
      assert k[|k| - 7..] == Separator + end;
    } else if L >= 7 {
      TokenUnderscore(end, L - 7);
      assert k[|k| - 7..][0] == end[L - 7];
    } else {
      assert k[|k| - 7..][7 - L..] == end;
      assert end[0] == 'P' by {
        if IsStageCode(end) {
          assert end[0] == end[..2][0];
        }
      }
      assert DiamondSuffix[7 - L..] != end by {
        if L > 3 {
          assert DiamondSuffix[7 - L..][0] != 'P';
        }
      }
    }
  }

  /** Splitting a key on the separator recovers the two stage tokens. */
  lemma SplitKey(start: string, end: string)
    requires IsStageToken(start) && IsStageToken(end)
    ensures Split(Key(start, end), Separator) == [start, end]
  {
    var k := Key(start, end);
    var n := |start|;
    assert k[n..n + 4] == Separator;
    assert OccursAt(k, Separator, n);
    assert k[n + 4..] == end;
    assert k[..n] == start;
    TokenHasNoT(start);
    TokenLastChar(start);
    forall v | 0 <= v < n
      ensures !OccursAt(k, Separator, v)
    {
      if v + 4 <= |k| {
        if v + 1 < n {
          assert k[v..v + 4][1] == start[v + 1];
        } else {
          assert k[v..v + 4][0] == start[n - 1];
        }
      }
    }
    assert IndexOf(k, Separator, 0) == Some(n);
    NoSeparatorInToken(end);
    assert IndexOf(end, Separator, 0) == None;
    assert Split(end, Separator) == [end];
    assert Split(k, Separator) == [k[..n]] + Split(k[n + 4..], Separator);
  }
}
