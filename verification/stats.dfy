/**
  `log_stats` of app2.py and app_vertex.py as a list of counter increments
  applied to an abstract counter store, and the sidebar's read side: the
  day's diamonds (transitions ending in the milestone stage) and the
  all-time `total_diamonds` counter.
 */
module Stats {
  import opened Wrappers
  import opened Text
  import opened Stage
  import opened Transitions

  /** The counters `log_stats` increments, by the document that holds them:
      `stats/{day}/operators/{op}` holds `sessions_completed` and the
      `pz_transitions` map, `global_stats/totals/operators/{op}` holds
      `total_diamonds`, and `key_usage/{day}` holds one field per key label.
      `DottedField` is a top-level field of `stats/{day}/operators/{op}` whose
      name contains a dot; only the literal reading of the transition write
      (`LogStatsLiteral`) produces one. */
  datatype Counter =
    | SessionsCompleted(day: string, operator: string)
    | TransitionCount(day: string, operator: string, key: string)
    | TotalDiamonds(operator: string)
    | KeyUsage(day: string, name: string)
    | DottedField(day: string, operator: string, name: string)

  /** Every field written by `firestore.Increment`; a missing field reads as 0. */
  type Store = map<Counter, int>

  function Count(s: Store, c: Counter): int {
    if c in s then s[c] else 0
  }

  /** `firestore.Increment(1)` on one counter, with `merge=True`. */
  function Bump(s: Store, c: Counter): (r: Store)
    ensures r.Keys == s.Keys + {c}
    ensures Count(r, c) == Count(s, c) + 1
    ensures forall d :: d != c ==> Count(r, d) == Count(s, d)
  {
    s[c := Count(s, c) + 1]
  }

  /** The increments applied in order. */
  function Apply(s: Store, cs: seq<Counter>): (r: Store)
    ensures r.Keys == s.Keys + set c | c in cs
    ensures forall c :: Count(r, c) == Count(s, c) + multiset(cs)[c]
    decreases |cs|
  {
    if |cs| == 0 then s
    else
      assert cs == [cs[0]] + cs[1..];
      Apply(Bump(s, cs[0]), cs[1..])
  }

  /** Because every write is an increment, the order of two batches does not
      matter. */
  lemma ApplyCommutes(s: Store, a: seq<Counter>, b: seq<Counter>)
    ensures Apply(Apply(s, a), b) == Apply(Apply(s, b), a)
  {
    SameCounts(Apply(Apply(s, a), b), Apply(Apply(s, b), a));
  }

  /** Python truthiness of `start_pz`: present and non-empty. */
  predicate Truthy(p: Option<string>) {
    p.Some? && |p.value| > 0
  }

  /** The transition is recorded when both stages are truthy. */
  predicate RecordsTransition(start: Option<string>, end: string) {
    Truthy(start) && |end| > 0
  }

  /** The increments of app_vertex.py's `log_stats`: one completed session,
      the transition when both stages are truthy, and the operator's
      all-time diamond counter when that transition ends in the milestone. */
  function VertexIncrements(day: string, op: string, start: Option<string>, end: string): (r: seq<Counter>)
    ensures multiset(r)[SessionsCompleted(day, op)] == 1
    ensures forall k :: multiset(r)[TransitionCount(day, op, k)] ==
              (if RecordsTransition(start, end) && k == Key(start.value, end) then 1 else 0)
    ensures multiset(r)[TotalDiamonds(op)] ==
              (if RecordsTransition(start, end) && end == Milestone then 1 else 0)
    ensures forall c :: c in r ==>
              c == SessionsCompleted(day, op) || c == TotalDiamonds(op)
              || (RecordsTransition(start, end) && c == TransitionCount(day, op, Key(start.value, end)))
  {
    [SessionsCompleted(day, op)]
    + (if RecordsTransition(start, end) then [TransitionCount(day, op, Key(start.value, end))] else [])
    + (if RecordsTransition(start, end) && end == Milestone then [TotalDiamonds(op)] else [])
  }

  /** The increments of app2.py's `log_stats`: those of the Vertex variant
      plus one use of key `key_idx + 1` (1-based label) on that day. */
  function Increments(day: string, op: string, start: Option<string>, end: string, keyIdx: nat): (r: seq<Counter>)
    ensures forall c: Counter :: !c.KeyUsage? ==> multiset(r)[c] == multiset(VertexIncrements(day, op, start, end))[c]
    ensures forall name :: multiset(r)[KeyUsage(day, name)] == (if name == NatToString(keyIdx + 1) then 1 else 0)
    ensures forall d, name :: d != day ==> multiset(r)[KeyUsage(d, name)] == 0
  {
    VertexIncrements(day, op, start, end) + [KeyUsage(day, NatToString(keyIdx + 1))]
  }

  /** app_vertex.py `log_stats`: one more completed session for the operator
      that day, one more of the day's transition `{start}_to_{end}` when both
      stages are truthy, one more all-time diamond when that transition ends
      in "PZ6", and no other counter changes. */
  function LogStatsVertex(s: Store, day: string, op: string, start: Option<string>, end: string): (r: Store)
    ensures Count(r, SessionsCompleted(day, op)) == Count(s, SessionsCompleted(day, op)) + 1
    ensures forall k :: Count(r, TransitionCount(day, op, k)) == Count(s, TransitionCount(day, op, k))
              + (if RecordsTransition(start, end) && k == Key(start.value, end) then 1 else 0)
    ensures Count(r, TotalDiamonds(op)) == Count(s, TotalDiamonds(op))
              + (if RecordsTransition(start, end) && end == Milestone then 1 else 0)
    ensures forall c: Counter ::
              (c != SessionsCompleted(day, op) && c != TotalDiamonds(op) &&
               !(c.TransitionCount? && c.day == day && c.operator == op)) ==> Count(r, c) == Count(s, c)
  {
    var cs := VertexIncrements(day, op, start, end);
    forall c: Counter | c != SessionsCompleted(day, op) && c != TotalDiamonds(op) &&
               !(c.TransitionCount? && c.day == day && c.operator == op)
      ensures multiset(cs)[c] == 0
    {
      assert c !in cs;
    }
    Apply(s, cs)
  }

  /** app2.py `log_stats`: the same as the Vertex variant, and one more use
      of the key labelled `key_idx + 1` that day. */
  function LogStats(s: Store, day: string, op: string, start: Option<string>, end: string, keyIdx: nat): (r: Store)
    ensures forall c: Counter :: !c.KeyUsage? ==> Count(r, c) == Count(LogStatsVertex(s, day, op, start, end), c)
    ensures forall name :: Count(r, KeyUsage(day, name)) == Count(s, KeyUsage(day, name))
              + (if name == NatToString(keyIdx + 1) then 1 else 0)
    ensures forall d, name :: d != day ==> Count(r, KeyUsage(d, name)) == Count(s, KeyUsage(d, name))
  {
    ApplySnoc(s, VertexIncrements(day, op, start, end), KeyUsage(day, NatToString(keyIdx + 1)));
    Apply(s, Increments(day, op, start, end, keyIdx))
  }

  /** The Vertex variant never touches `key_usage`. */
  lemma VertexKeepsKeyUsage(s: Store, day: string, op: string, start: Option<string>, end: string)
    ensures forall d, name :: Count(LogStatsVertex(s, day, op, start, end), KeyUsage(d, name))
                               == Count(s, KeyUsage(d, name))
  {
  }

  /** Two stores with the same fields and the same counts are equal. */
  lemma SameCounts(l: Store, r: Store)
    requires l.Keys == r.Keys
    requires forall c :: Count(l, c) == Count(r, c)
    ensures l == r
  {
    forall c | c in l
      ensures l[c] == r[c]
    {
      assert Count(l, c) == Count(r, c);
    }
  }

  /** One more increment at the end of a batch. */
  lemma ApplySnoc(s: Store, cs: seq<Counter>, c: Counter)
    ensures Apply(s, cs + [c]) == Bump(Apply(s, cs), c)
  {
    var l, r := Apply(s, cs + [c]), Bump(Apply(s, cs), c);
    assert multiset(cs + [c]) == multiset(cs) + multiset{c};
    assert (set d | d in cs + [c]) == (set d | d in cs) + {c};
    SameCounts(l, r);
  }

  /** The two variants differ exactly by the key-usage increment. */
  lemma LogStatsExtendsVertex(s: Store, day: string, op: string, start: Option<string>, end: string, keyIdx: nat)
    ensures LogStats(s, day, op, start, end, keyIdx)
            == Bump(LogStatsVertex(s, day, op, start, end), KeyUsage(day, NatToString(keyIdx + 1)))
  {
    ApplySnoc(s, VertexIncrements(day, op, start, end), KeyUsage(day, NatToString(keyIdx + 1)));
  }

  // ---- the read side ----

  /** The operator's `pz_transitions` map for one day. */
  function TransitionsOf(s: Store, day: string, op: string): (m: map<string, int>)
    ensures forall k :: k in m <==> TransitionCount(day, op, k) in s
    ensures forall k :: k in m ==> m[k] == s[TransitionCount(day, op, k)]
  {
    var keys := set c | c in s && c.TransitionCount? && c.day == day && c.operator == op :: c.key;
    map k | k in keys :: s[TransitionCount(day, op, k)]
  }

  /** What one entry adds to the sidebar's sum. */
  function DiamondPart(k: string, v: int): int {
    if IsDiamondKey(k) then v else 0
  }

  /** The sum of the diamond entries of `m` whose keys are in `ks`. */
  ghost function SumOver(m: map<string, int>, ks: set<string>): (r: int)
    requires ks <= m.Keys
    ensures (forall k :: k in ks ==> m[k] >= 0) ==> r >= 0
    ensures (forall k :: k in ks ==> !IsDiamondKey(k)) ==> r == 0
    decreases ks
  {
    if ks == {} then 0
    else
      var k :| k in ks;
      DiamondPart(k, m[k]) + SumOver(m, ks - {k})
  }

  /** `sum(v for k, v in m.items() if k.endswith("_to_PZ6"))`. */
  ghost function DiamondSum(m: map<string, int>): (r: int)
    ensures (forall k :: k in m ==> m[k] >= 0) ==> r >= 0
    ensures (forall k :: k in m ==> !IsDiamondKey(k)) ==> r == 0
  {
    SumOver(m, m.Keys)
  }

  /** The sum does not depend on which entry is taken first. */
  lemma {:induction false} SumOverRemove(m: map<string, int>, ks: set<string>, k: string)
    requires ks <= m.Keys && k in ks
    ensures SumOver(m, ks) == DiamondPart(k, m[k]) + SumOver(m, ks - {k})
    decreases ks
  {
    var j :| j in ks && SumOver(m, ks) == DiamondPart(j, m[j]) + SumOver(m, ks - {j});
    if j != k {
      SumOverRemove(m, ks - {j}, k);
      SumOverRemove(m, ks - {k}, j);
      assert ks - {j} - {k} == ks - {k} - {j};
    }
  }

  /** The sum over `ks` reads only the entries of `ks`. */
  lemma {:induction false} SumOverAgree(m: map<string, int>, m': map<string, int>, ks: set<string>)
    requires ks <= m.Keys && ks <= m'.Keys
    requires forall x :: x in ks ==> m[x] == m'[x]
    ensures SumOver(m, ks) == SumOver(m', ks)
    decreases ks
  {
    if ks != {} {
      var k :| k in ks;
      SumOverRemove(m, ks, k);
      SumOverRemove(m', ks, k);
      SumOverAgree(m, m', ks - {k});
    }
  }

  /** Incrementing one entry changes the sum by one exactly when the entry
      is a diamond key. */
  lemma DiamondSumBump(m: map<string, int>, k: string)
    ensures DiamondSum(m[k := (if k in m then m[k] else 0) + 1])
            == DiamondSum(m) + (if IsDiamondKey(k) then 1 else 0)
  {
    var m' := m[k := (if k in m then m[k] else 0) + 1];
    SumOverRemove(m', m'.Keys, k);
    if k in m {
      SumOverRemove(m, m.Keys, k);
      assert m'.Keys == m.Keys;
      SumOverAgree(m, m', m.Keys - {k});
    } else {
      assert m'.Keys - {k} == m.Keys;
      SumOverAgree(m, m', m.Keys);
    }
  }

  /** The sidebar's "today" figure: the diamond entries of the day's
      `pz_transitions` map for the operator. */
  ghost function TodayDiamonds(s: Store, day: string, op: string): (r: int)
    ensures (forall k :: TransitionCount(day, op, k) in s ==> s[TransitionCount(day, op, k)] >= 0) ==> r >= 0
    ensures (forall k :: TransitionCount(day, op, k) in s ==> !IsDiamondKey(k)) ==> r == 0
  {
    DiamondSum(TransitionsOf(s, day, op))
  }

  /** A single increment moves today's diamonds only through a transition
      counter of that day and operator with a diamond key. */
  lemma TodayAfterBump(s: Store, c: Counter, day: string, op: string)
    ensures TodayDiamonds(Bump(s, c), day, op) == TodayDiamonds(s, day, op)
            + (if c.TransitionCount? && c.day == day && c.operator == op && IsDiamondKey(c.key) then 1 else 0)
  {
    var m := TransitionsOf(s, day, op);
    if c.TransitionCount? && c.day == day && c.operator == op {
      TransitionsAfterBump(s, day, op, c.key);
      DiamondSumBump(m, c.key);
    } else {
      TransitionsAfterOtherBump(s, c, day, op);
    }
  }

  /** Bumping a transition counter of the day and operator bumps its entry. */
  lemma TransitionsAfterBump(s: Store, day: string, op: string, k: string)
    ensures var m := TransitionsOf(s, day, op);
            TransitionsOf(Bump(s, TransitionCount(day, op, k)), day, op)
            == m[k := (if k in m then m[k] else 0) + 1]
  {
    var m, m' := TransitionsOf(s, day, op), TransitionsOf(Bump(s, TransitionCount(day, op, k)), day, op);
    var b := m[k := (if k in m then m[k] else 0) + 1];
    TransitionKeysAfterBump(s, day, op, k);
    forall x | x in m'
      ensures m'[x] == b[x]
    {
      TransitionEntryAfterBump(s, day, op, k, x);
    }
  }

  lemma TransitionKeysAfterBump(s: Store, day: string, op: string, k: string)
    ensures TransitionsOf(Bump(s, TransitionCount(day, op, k)), day, op).Keys
            == TransitionsOf(s, day, op).Keys + {k}
  {
  }

  lemma TransitionEntryAfterBump(s: Store, day: string, op: string, k: string, x: string)
    requires x in TransitionsOf(Bump(s, TransitionCount(day, op, k)), day, op)
    ensures var m := TransitionsOf(s, day, op);
            TransitionsOf(Bump(s, TransitionCount(day, op, k)), day, op)[x]
            == (if x == k then (if k in m then m[k] else 0) + 1 else m[x])
  {
    var s' := Bump(s, TransitionCount(day, op, k));
    assert Count(s', TransitionCount(day, op, x)) == TransitionsOf(s', day, op)[x];
    if x != k {
      assert Count(s, TransitionCount(day, op, x)) == TransitionsOf(s, day, op)[x];
    }
  }

  /** Any other counter leaves the day's transitions alone. */
  lemma TransitionsAfterOtherBump(s: Store, c: Counter, day: string, op: string)
    requires !(c.TransitionCount? && c.day == day && c.operator == op)
    ensures TransitionsOf(Bump(s, c), day, op) == TransitionsOf(s, day, op)
  {
    var m, m' := TransitionsOf(s, day, op), TransitionsOf(Bump(s, c), day, op);
    assert m'.Keys == m.Keys;
    forall x | x in m'
      ensures m'[x] == m[x]
    {
      assert Count(s, TransitionCount(day, op, x)) == m[x];
    }
  }

  /** Writer and reader agree: for a milestone-or-not end token, one
      `log_stats` call raises today's diamond sum by exactly what it adds to
      `total_diamonds`, and that is 1 exactly when a transition was recorded
      and it ended in "PZ6". */
  lemma DiamondsAgree(s: Store, day: string, op: string, start: Option<string>, end: string)
    requires IsStageToken(end)
    ensures var r := LogStatsVertex(s, day, op, start, end);
            var delta := if RecordsTransition(start, end) && end == Milestone then 1 else 0;
            TodayDiamonds(r, day, op) == TodayDiamonds(s, day, op) + delta
            && Count(r, TotalDiamonds(op)) == Count(s, TotalDiamonds(op)) + delta
  {
    var sc := SessionsCompleted(day, op);
    var s1 := Bump(s, sc);
    LogStatsVertexSteps(s, day, op, start, end);
    TodayAfterBump(s, sc, day, op);
    if RecordsTransition(start, end) {
      var tc := TransitionCount(day, op, Key(start.value, end));
      var s2 := Bump(s1, tc);
      TodayAfterBump(s1, tc, day, op);
      DiamondKeyIffMilestone(start.value, end);
      if end == Milestone {
        TodayAfterBump(s2, TotalDiamonds(op), day, op);
      }
    }
  }

  /** The Vertex `log_stats` as the increments one after the other. */
  lemma LogStatsVertexSteps(s: Store, day: string, op: string, start: Option<string>, end: string)
    ensures var s1 := Bump(s, SessionsCompleted(day, op));
            var r := LogStatsVertex(s, day, op, start, end);
            if !RecordsTransition(start, end) then r == s1
            else
              var s2 := Bump(s1, TransitionCount(day, op, Key(start.value, end)));
              r == if end == Milestone then Bump(s2, TotalDiamonds(op)) else s2
  {
    var sc := SessionsCompleted(day, op);
    if !RecordsTransition(start, end) {
      assert VertexIncrements(day, op, start, end) == [sc];
      ApplyOne(s, sc);
    } else {
      var tc := TransitionCount(day, op, Key(start.value, end));
      if end == Milestone {
        assert VertexIncrements(day, op, start, end) == [sc] + [tc] + [TotalDiamonds(op)];
        ApplyThree(s, sc, tc, TotalDiamonds(op));
      } else {
        assert VertexIncrements(day, op, start, end) == [sc] + [tc];
        ApplyTwo(s, sc, tc);
      }
    }
  }

  lemma ApplyOne(s: Store, a: Counter)
    ensures Apply(s, [a]) == Bump(s, a)
  {
    assert [a][1..] == [];
  }

  lemma ApplyTwo(s: Store, a: Counter, b: Counter)
    ensures Apply(s, [a] + [b]) == Bump(Bump(s, a), b)
  {
    assert ([a] + [b])[1..] == [b];
    ApplyOne(Bump(s, a), b);
  }

  lemma ApplyThree(s: Store, a: Counter, b: Counter, c: Counter)
    ensures Apply(s, [a] + [b] + [c]) == Bump(Bump(Bump(s, a), b), c)
  {
    assert ([a] + [b] + [c])[1..] == [b] + [c];
    ApplyTwo(Bump(s, a), b, c);
  }

  /** The app2.py variant has the same diamond effect: the key-usage counter
      is not a transition. */
  lemma DiamondsAgreeWithKeyUsage(s: Store, day: string, op: string, start: Option<string>, end: string, keyIdx: nat)
    requires IsStageToken(end)
    ensures var r := LogStats(s, day, op, start, end, keyIdx);
            var delta := if RecordsTransition(start, end) && end == Milestone then 1 else 0;
            TodayDiamonds(r, day, op) == TodayDiamonds(s, day, op) + delta
            && Count(r, TotalDiamonds(op)) == Count(s, TotalDiamonds(op)) + delta
  {
    var v := LogStatsVertex(s, day, op, start, end);
    DiamondsAgree(s, day, op, start, end);
    LogStatsExtendsVertex(s, day, op, start, end, keyIdx);
    TodayAfterBump(v, KeyUsage(day, NatToString(keyIdx + 1)), day, op);
  }

  /** The name under which `set(..., merge=True)` stores the transition when
      it takes the dotted name literally. */
  function DottedName(start: string, end: string): string {
    "pz_transitions." + Key(start, end)
  }

  /** app_vertex.py's `log_stats` as the Firestore client writes it: a
      document passed to `set(..., merge=True)` has its top-level names taken
      as single field names, and only `update()` splits a name on its dots.
      The transition then lands in a top-level field beside the
      `pz_transitions` map, not inside it. */
  function LiteralVertexIncrements(day: string, op: string, start: Option<string>, end: string): (r: seq<Counter>)
    ensures multiset(r)[SessionsCompleted(day, op)] == 1
    ensures multiset(r)[TotalDiamonds(op)] ==
              (if RecordsTransition(start, end) && end == Milestone then 1 else 0)
    ensures forall name :: multiset(r)[DottedField(day, op, name)] ==
              (if RecordsTransition(start, end) && name == DottedName(start.value, end) then 1 else 0)
    ensures forall c :: c in r ==> !c.TransitionCount?
  {
    [SessionsCompleted(day, op)]
    + (if RecordsTransition(start, end) then [DottedField(day, op, DottedName(start.value, end))] else [])
    + (if RecordsTransition(start, end) && end == Milestone then [TotalDiamonds(op)] else [])
  }

  /** The literal reading of app_vertex.py's `log_stats`: no transition
      counter of any day changes, while `total_diamonds` still rises on a
      milestone transition. */
  function LogStatsLiteral(s: Store, day: string, op: string, start: Option<string>, end: string): (r: Store)
    ensures forall d, o, k :: Count(r, TransitionCount(d, o, k)) == Count(s, TransitionCount(d, o, k))
    ensures Count(r, TotalDiamonds(op)) ==
              Count(s, TotalDiamonds(op)) + (if RecordsTransition(start, end) && end == Milestone then 1 else 0)
    ensures Count(r, SessionsCompleted(day, op)) == Count(s, SessionsCompleted(day, op)) + 1
  {
    Apply(s, LiteralVertexIncrements(day, op, start, end))
  }

  /** Increments that touch no transition counter leave today's diamonds
      alone. */
  lemma {:induction false} TodayAfterNonTransitions(s: Store, cs: seq<Counter>, day: string, op: string)
    requires forall c :: c in cs ==> !c.TransitionCount?
    ensures TodayDiamonds(Apply(s, cs), day, op) == TodayDiamonds(s, day, op)
    decreases |cs|
  {
    if |cs| > 0 {
      assert cs[0] in cs;
      TodayAfterBump(s, cs[0], day, op);
      forall c | c in cs[1..] ensures !c.TransitionCount? {
        assert c in cs;
      }
      TodayAfterNonTransitions(Bump(s, cs[0]), cs[1..], day, op);
    }
  }

  /** Under the literal reading the sidebar never sees a diamond: today's
      figure stays where it was while `total_diamonds` rises. */
  lemma LiteralReadingHidesDiamonds(s: Store, day: string, op: string, start: Option<string>, end: string)
    ensures var r := LogStatsLiteral(s, day, op, start, end);
            TodayDiamonds(r, day, op) == TodayDiamonds(s, day, op)
            && Count(r, TotalDiamonds(op)) ==
                 Count(s, TotalDiamonds(op)) + (if RecordsTransition(start, end) && end == Milestone then 1 else 0)
  {
    TodayAfterNonTransitions(s, LiteralVertexIncrements(day, op, start, end), day, op);
  }

  /** The input that separates the two readings: a session that goes from
      "PZ1" to "PZ6" adds a diamond to today's figure under the nested
      reading and none under the literal one, although both add one to
      `total_diamonds`. */
  lemma LiteralReadingDisagrees(s: Store, day: string, op: string)
    ensures var nested := LogStatsVertex(s, day, op, Some("PZ1"), Milestone);
            var literal := LogStatsLiteral(s, day, op, Some("PZ1"), Milestone);
            TodayDiamonds(nested, day, op) == TodayDiamonds(literal, day, op) + 1
            && Count(nested, TotalDiamonds(op)) == Count(literal, TotalDiamonds(op))
  {
    assert RecordsTransition(Some("PZ1"), Milestone);
    assert IsStageToken(Milestone);
    DiamondsAgree(s, day, op, Some("PZ1"), Milestone);
    LiteralReadingHidesDiamonds(s, day, op, Some("PZ1"), Milestone);
  }
}
