// Octree keys of the Charm++ engine.  A node's key is a leading 1 followed by
// LOG bits per level, a particle's key is a 64-bit word whose top bit is set,
// and the particles below a node are one interval of particle keys.
module TreeKeys {

  // Set at build time: BRANCH_FACTOR 2 or 8.  Left open, so that everything
  // proved here holds of both builds.
  type LogBranch = n: nat | n == 1 || n == 3 witness 1
  const LOG: LogBranch
  const BRANCH: nat := if LOG == 1 then 2 else 8
  // Node::refine asserts that no node this deep is refined.
  const MAX_DEPTH: nat := if LOG == 1 then 63 else 21

  // k << n, on numbers too small to overflow (see CellFitsWord).
  function Shl(k: int, n: nat): int {
    if n == 0 then k else 2 * Shl(k, n - 1)
  }

  datatype Cell = Cell(key: nat, depth: nat)

  const ROOT := Cell(1, 0)

  ghost predicate ValidCell(c: Cell) {
    c.depth <= MAX_DEPTH && Shl(1, LOG * c.depth) <= c.key < Shl(2, LOG * c.depth)
  }

  // TREE_KEY_BITS - (LOG_BRANCH_FACTOR * depth + 1)
  function Shift(depth: nat): nat
    requires depth <= MAX_DEPTH
  {
    64 - (LOG * depth + 1)
  }

  // Node::getParticleLevelKey, and one past Node::getLastParticleLevelKey.
  function Lo(c: Cell): int
    requires c.depth <= MAX_DEPTH
  {
    Shl(c.key, Shift(c.depth))
  }

  function Hi(c: Cell): int
    requires c.depth <= MAX_DEPTH
  {
    Shl(c.key + 1, Shift(c.depth))
  }

  function Child(c: Cell, i: nat): (ch: Cell)
    ensures ch.depth == c.depth + 1
  {
    Cell((if LOG == 1 then 2 * c.key else 8 * c.key) + i, c.depth + 1)
  }

  function Parent(c: Cell): Cell
    requires c.depth > 0
  {
    Cell(if LOG == 1 then c.key / 2 else c.key / 8, c.depth - 1)
  }

  function Slot(c: Cell): (i: nat)
    ensures i < BRANCH
  {
    if LOG == 1 then c.key % 2 else c.key % 8
  }

  lemma ChildParent(c: Cell, i: nat)
    requires i < BRANCH
    ensures Parent(Child(c, i)) == c && Slot(Child(c, i)) == i
  {
  }

  lemma ShlAdd(a: int, b: int, n: nat)
    ensures Shl(a + b, n) == Shl(a, n) + Shl(b, n)
  {
    if n > 0 { ShlAdd(a, b, n - 1); }
  }

  lemma ShlMonotone(a: int, b: int, n: nat)
    ensures a < b ==> Shl(a, n) < Shl(b, n)
    ensures a == b ==> Shl(a, n) == Shl(b, n)
  {
  }

  lemma ShlGrows(a: int, n: nat)
    requires a >= 0
    ensures Shl(a, n) >= a
  {
  }

  lemma ShlShl(a: int, m: nat, n: nat)
    ensures Shl(Shl(a, m), n) == Shl(a, m + n)
  {
  }

  lemma ShlStep(a: int, n: nat)
    ensures Shl(a, n + LOG) == Shl(if LOG == 1 then 2 * a else 8 * a, n)
    ensures Shl(a, n + LOG) == if LOG == 1 then 2 * Shl(a, n) else 8 * Shl(a, n)
  {
    ShlShl(a, LOG, n);
    assert LOG == 3 ==> Shl(a, n + 3) == 2 * Shl(a, n + 2) == 4 * Shl(a, n + 1);
    assert Shl(a, 0) == a && Shl(a, 1) == 2 * a && Shl(a, 2) == 4 * a && Shl(a, 3) == 8 * a;
  }

  lemma ParentChild(c: Cell)
    requires ValidCell(c) && c.depth > 0
    ensures ValidCell(Parent(c)) && Child(Parent(c), Slot(c)) == c
  {
    var n := LOG * (c.depth - 1);
    assert LOG * c.depth == n + LOG;
    ShlStep(1, n);
    ShlStep(2, n);
  }

  lemma ChildValid(c: Cell, i: nat)
    requires ValidCell(c) && c.depth < MAX_DEPTH && i < BRANCH
    ensures ValidCell(Child(c, i))
  {
    var m := LOG * c.depth;
    assert LOG * (c.depth + 1) == m + LOG;
    ShlStep(1, m);
    ShlStep(2, m);
  }

  // The children of a node tile its interval, in child order.
  lemma ChildSpan(c: Cell, i: nat)
    requires ValidCell(c) && c.depth < MAX_DEPTH && i < BRANCH
    ensures ValidCell(Child(c, i))
    ensures Lo(c) <= Lo(Child(c, i)) < Hi(Child(c, i)) <= Hi(c)
    ensures i == 0 ==> Lo(Child(c, i)) == Lo(c)
    ensures i == BRANCH - 1 ==> Hi(Child(c, i)) == Hi(c)
    ensures i + 1 < BRANCH ==> Hi(Child(c, i)) == Lo(Child(c, i + 1))
  {
    hide Shl;
    ChildValid(c, i);
    var n := Shift(c.depth + 1);
    assert Shift(c.depth) == n + LOG;
    ShlStep(c.key, n);
    ShlStep(c.key + 1, n);
    var first := if LOG == 1 then 2 * c.key else 8 * c.key;
    ShlMonotone(first, first + i, n);
    ShlMonotone(first + i, first + i + 1, n);
    ShlMonotone(first + i + 1, first + BRANCH, n);
  }

  // Node keys and particle-level keys stay inside an unsigned 64-bit word, and
  // a node of the last level spans a single particle key.
  lemma {:induction false} CellFitsWord(c: Cell)
    requires ValidCell(c)
    ensures c.key < Shl(1, 64)
    ensures Shl(1, 63) <= Lo(c) < Hi(c) <= Shl(1, 64)
    ensures c.depth == MAX_DEPTH ==> Hi(c) == Lo(c) + 1
    decreases c.depth
  {
    if c.depth == 0 {
      assert c == ROOT;
      assert Shl(1, 64) == 2 * Shl(1, 63);
      ShlAdd(1, 1, 63);
    } else {
      ParentChild(c);
      CellFitsWord(Parent(c));
      ChildSpan(Parent(c), Slot(c));
    }
    ShlGrows(c.key, Shift(c.depth));
  }

  // Two cells either nest, the deeper inside the shallower, or are disjoint.
  lemma {:induction false} Nested(a: Cell, b: Cell)
    requires ValidCell(a) && ValidCell(b) && a.depth <= b.depth
    requires Lo(a) < Hi(b) && Lo(b) < Hi(a)
    ensures Lo(a) <= Lo(b) && Hi(b) <= Hi(a)
    decreases b.depth
  {
    if a.depth == b.depth {
      var n := Shift(a.depth);
      ShlMonotone(a.key + 1, b.key, n);
      ShlMonotone(b.key + 1, a.key, n);
    } else {
      ParentChild(b);
      ChildSpan(Parent(b), Slot(b));
      Nested(a, Parent(b));
    }
  }

  // A key of a cell lies in one of its children.
  lemma {:induction false} ChildHolding(c: Cell, k: int, n: nat) returns (i: nat)
    requires ValidCell(c) && c.depth < MAX_DEPTH && 0 < n <= BRANCH
    requires Lo(c) <= k < Hi(Child(c, n - 1))
    ensures i < n && Lo(Child(c, i)) <= k < Hi(Child(c, i))
  {
    ChildSpan(c, n - 1);
    if k >= Lo(Child(c, n - 1)) {
      i := n - 1;
    } else {
      ChildSpan(c, n - 2);
      i := ChildHolding(c, k, n - 1);
    }
  }
}
