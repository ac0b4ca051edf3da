/**
  The API-key cursor of app2.py: which key of the pool a session uses, how
  an administrator's assignment locks it, and `rotate_key`.
 */
module KeyPool {
  import opened Wrappers

  /** `key_index` (0-based) and `is_key_locked`. */
  datatype Cursor = Cursor(index: nat, locked: bool)

  /** The index addresses a key of a pool of `size` keys. */
  predicate InRange(c: Cursor, size: nat) {
    c.index < size
  }

  /** The choice made at the top of every script run: an assignment index
      `a > 0` (1-based) locks the cursor to key `a - 1`; otherwise the cursor
      is unlocked and keeps the session's index, or takes the random `draw`
      when the session has none yet. */
  function SelectKey(assignment: int, draw: nat, previous: Option<nat>): (c: Cursor)
    ensures c.locked <==> assignment > 0
    ensures c.locked ==> c.index + 1 == assignment
    ensures !c.locked && previous.Some? ==> c.index == previous.value
    ensures !c.locked && previous.None? ==> c.index == draw
  {
    if assignment > 0 then Cursor(assignment - 1, true)
    else match previous
      case Some(i) => Cursor(i, false)
      case None => Cursor(draw, false)
  }

  /** The selected index is usable when the assignment fits the pool and the
      draw is one `random.randint(0, size - 1)` can return. */
  lemma SelectKeyInRange(assignment: int, size: nat, draw: nat, previous: Option<nat>)
    requires assignment <= size && draw < size
    requires previous.Some? ==> previous.value < size
    ensures InRange(SelectKey(assignment, draw, previous), size)
  {
  }

  /** An assignment beyond the pool leaves the locked index out of range. */
  lemma AssignedBeyondPool(assignment: int, size: nat, draw: nat, previous: Option<nat>)
    requires assignment > size
    ensures SelectKey(assignment, draw, previous).locked
    ensures !InRange(SelectKey(assignment, draw, previous), size)
  {
  }

  /** `get_current_key`: the key at the index, `None` where Python raises
      IndexError. */
  function CurrentKey(keys: seq<string>, c: Cursor): (k: Option<string>)
    ensures k.Some? <==> InRange(c, |keys|)
    ensures k.Some? ==> k.value == keys[c.index]
  {
    if c.index < |keys| then Some(keys[c.index]) else None
  }

  /** `rotate_key`: a locked cursor never moves; otherwise the next key,
      wrapping around the pool. */
  function Rotate(c: Cursor, size: nat): (r: Cursor)
    requires size > 0
    ensures r.locked == c.locked
    ensures c.locked ==> r == c
    ensures !c.locked ==> r.index == (c.index + 1) % size
    ensures InRange(r, size) || r == c
  {
    if c.locked then c else Cursor((c.index + 1) % size, false)
  }

  /** `n` calls of `rotate_key` in a row. */
  function RotateTimes(c: Cursor, size: nat, n: nat): Cursor
    requires size > 0
    decreases n
  {
    if n == 0 then c else RotateTimes(Rotate(c, size), size, n - 1)
  }

  /** After `n` rotations an unlocked cursor has moved `n` keys on. */
  lemma {:induction false} RotateTimesIndex(c: Cursor, size: nat, n: nat)
    requires size > 0 && InRange(c, size) && !c.locked
    ensures RotateTimes(c, size, n) == Cursor((c.index + n) % size, false)
    decreases n
  {
    if n > 0 {
      var c' := Rotate(c, size);
      RotateTimesIndex(c', size, n - 1);
      ModShift(c.index, n - 1, size);
    }
  }

  /** Euclidean division is unique. */
  lemma ModUnique(a: int, q: int, r: int, m: int)
    requires m > 0 && 0 <= r < m && a == q * m + r
    ensures a % m == r
  {
    var q', r' := a / m, a % m;
    var d := q - q';
    assert d * m == q * m - q' * m;
    assert d * m == r' - r;
    MultipleBound(d, m);
  }

  lemma MultipleBound(d: int, m: int)
    requires m > 0
    ensures d >= 1 ==> d * m >= m
    ensures d <= -1 ==> d * m <= -m
  {
    if d >= 1 {
      assert d * m == (d - 1) * m + m;
      assert (d - 1) * m >= 0;
    } else if d <= -1 {
      assert d * m == (d + 1) * m - m;
      assert (d + 1) * m <= 0;
    }
  }

  lemma ModShift(i: nat, j: nat, size: nat)
    requires size > 0
    ensures ((i + 1) % size + j) % size == (i + 1 + j) % size
  {
    var q, m := (i + 1) / size, (i + 1) % size;
    var q2, m2 := (m + j) / size, (m + j) % size;
    assert i + 1 + j == (q + q2) * size + m2;
    ModUnique(i + 1 + j, q + q2, m2, size);
  }

  /** A full cycle of rotations brings an unlocked cursor back to its key. */
  lemma RotateCycle(c: Cursor, size: nat)
    requires size > 0 && InRange(c, size) && !c.locked
    ensures RotateTimes(c, size, size) == c
  {
    RotateTimesIndex(c, size, size);
    ModUnique(c.index + size, 1, c.index, size);
  }

  /** A locked cursor stays put however often it is rotated. */
  lemma {:induction false} RotateLocked(c: Cursor, size: nat, n: nat)
    requires size > 0 && c.locked
    ensures RotateTimes(c, size, n) == c
    decreases n
  {
    if n > 0 {
      RotateLocked(Rotate(c, size), size, n - 1);
    }
  }

  /** Rotation keeps an in-range cursor in range. */
  lemma {:induction false} RotateTimesInRange(c: Cursor, size: nat, n: nat)
    requires size > 0 && InRange(c, size)
    ensures InRange(RotateTimes(c, size, n), size)
    decreases n
  {
    if n > 0 {
      RotateTimesInRange(Rotate(c, size), size, n - 1);
    }
  }

  /** The key part of "Nowa sprawa / Reset": an unlocked cursor takes a new
      random draw, a locked one keeps its key. */
  function ResetKey(c: Cursor, draw: nat): (r: Cursor)
    ensures r.locked == c.locked
    ensures c.locked ==> r == c
    ensures !c.locked ==> r.index == draw
  {
    if c.locked then c else Cursor(draw, false)
  }
}
