// The octree of ItoyoriFBC over sorted Morton keys: what the sequential build
// makes, with arithmetic left open, so that two trees are equal only when the
// same operations were done in the same order.
module Octree {

  const NLEVELS: nat := 20

  // key >> 3*m
  function Shr(key: nat, m: nat): nat {
    if m == 0 then key else Shr(key, m - 1) / 8
  }

  // octant(keys[i], 3 * (NLEVELS - level))
  function Octant(key: nat, level: nat): nat
    requires level <= NLEVELS
  {
    Shr(key, NLEVELS - level) % 8
  }

  lemma {:induction false} ShrMonotone(a: nat, b: nat, m: nat)
    requires a <= b
    ensures Shr(a, m) <= Shr(b, m)
  {
    if m > 0 { ShrMonotone(a, b, m - 1); }
  }

  // Sorted keys with their top bit set, as make_key makes them.
  ghost predicate ValidKeys(keys: seq<nat>) {
    && (forall i, j :: 0 <= i < j < |keys| ==> keys[i] <= keys[j])
    && forall i :: 0 <= i < |keys| ==> Shr(keys[i], NLEVELS + 1) == 1
  }

  // The keys of a range at some level agree on all digits above that level.
  ghost predicate RangeOk(keys: seq<nat>, lo: nat, hi: nat, level: nat) {
    && lo <= hi <= |keys| && level <= NLEVELS
    && (forall i, j :: lo <= i < j < hi ==> keys[i] <= keys[j])
    && forall i, j :: lo <= i < hi && lo <= j < hi ==>
          Shr(keys[i], NLEVELS + 1 - level) == Shr(keys[j], NLEVELS + 1 - level)
  }

  lemma RootRange(keys: seq<nat>)
    requires ValidKeys(keys)
    ensures RangeOk(keys, 0, |keys|, 0)
  {
    hide Shr;
  }

  lemma DigitStep(key: nat, level: nat)
    requires level <= NLEVELS
    ensures Shr(key, NLEVELS - level) == 8 * Shr(key, NLEVELS + 1 - level) + Octant(key, level)
  {
  }

  lemma DigitsSorted(keys: seq<nat>, lo: nat, hi: nat, level: nat, i: nat, j: nat)
    requires RangeOk(keys, lo, hi, level) && lo <= i <= j < hi
    ensures Octant(keys[i], level) <= Octant(keys[j], level)
  {
    hide Shr, Octant;
    if i < j {
      ShrMonotone(keys[i], keys[j], NLEVELS - level);
      DigitStep(keys[i], level);
      DigitStep(keys[j], level);
    }
  }

  // The first position from `from` on whose digit is not c.
  function RunEnd(keys: seq<nat>, from: nat, to: nat, level: nat, c: nat): (j: nat)
    requires from <= to <= |keys| && level <= NLEVELS
    ensures from <= j <= to
    ensures forall k :: from <= k < j ==> Octant(keys[k], level) == c
    ensures j < to ==> Octant(keys[j], level) != c
    decreases |keys| - from
  {
    if from < to && Octant(keys[from], level) == c then RunEnd(keys, from + 1, to, level, c) else from
  }

  // A run is a range of the next level.
  lemma RunIsRange(keys: seq<nat>, lo: nat, hi: nat, level: nat, i: nat, j: nat)
    requires RangeOk(keys, lo, hi, level) && level < NLEVELS && lo <= i <= j <= hi
    requires forall k :: i <= k < j ==> Octant(keys[k], level) == Octant(keys[i], level)
    ensures RangeOk(keys, i, j, level + 1)
  {
    hide Shr, Octant;
    forall a, b | i <= a < j && i <= b < j ensures Shr(keys[a], NLEVELS - level) == Shr(keys[b], NLEVELS - level) {
      DigitStep(keys[a], level);
      DigitStep(keys[b], level);
    }
  }

  lemma SubRange(keys: seq<nat>, lo: nat, hi: nat, level: nat, i: nat)
    requires RangeOk(keys, lo, hi, level) && lo <= i <= hi
    ensures RangeOk(keys, i, hi, level)
  {
    hide Shr;
  }

  lemma RangeBounds(keys: seq<nat>, lo: nat, hi: nat, level: nat)
    requires RangeOk(keys, lo, hi, level)
    ensures lo <= hi <= |keys| && level <= NLEVELS
  {
  }

  // The run starting at i is the range of a child.
  lemma ChildRange(keys: seq<nat>, lo: nat, hi: nat, level: nat, i: nat, j: nat)
    requires RangeOk(keys, lo, hi, level) && lo <= i < hi && level < NLEVELS
    requires j == RunEnd(keys, i + 1, hi, level, Octant(keys[i], level))
    ensures i < j <= hi && RangeOk(keys, i, j, level + 1)
  {
    hide Octant;
    RunIsRange(keys, lo, hi, level, i, j);
  }

  // octant_run_end: a scan of a short range, std::upper_bound on a long one.
  // Both find the end of the run, the search because the digits are sorted.
  method OctantRunEnd(keys: seq<nat>, from: nat, to: nat, level: nat, c: nat) returns (j: nat)
    requires 0 < from <= to && RangeOk(keys, from - 1, to, level) && c == Octant(keys[from - 1], level)
    ensures j == RunEnd(keys, from, to, level, c)
  {
    hide Shr, Octant;
    if to - from <= 64 {
      j := from;
      while j < to && Octant(keys[j], level) == c
        invariant from <= j <= to && RunEnd(keys, from, to, level, c) == RunEnd(keys, j, to, level, c)
      {
        j := j + 1;
      }
      return;
    }
    j := from;
    var count := to - from;
    while count > 0
      invariant from <= j <= j + count <= to
      invariant forall k :: from <= k < j ==> Octant(keys[k], level) <= c
      invariant forall k :: j + count <= k < to ==> c < Octant(keys[k], level)
    {
      var step := count / 2;
      var mid := j + step;
      if c < Octant(keys[mid], level) {
        forall k | mid <= k < to ensures c < Octant(keys[k], level) { DigitsSorted(keys, from - 1, to, level, mid, k); }
        count := step;
      } else {
        forall k | from <= k <= mid ensures Octant(keys[k], level) <= c {
          DigitsSorted(keys, from - 1, to, level, k, mid);
        }
        j := mid + 1;
        count := count - (step + 1);
      }
    }
    forall k | from <= k < j ensures Octant(keys[k], level) == c {
      DigitsSorted(keys, from - 1, to, level, from - 1, k);
    }
    EndUnique(keys, from, to, level, c, j);
  }

  lemma EndUnique(keys: seq<nat>, from: nat, to: nat, level: nat, c: nat, j: nat)
    requires from <= j <= to <= |keys| && level <= NLEVELS
    requires forall k :: from <= k < j ==> Octant(keys[k], level) == c
    requires j < to ==> Octant(keys[j], level) != c
    ensures j == RunEnd(keys, from, to, level, c)
  {
    hide Octant;
  }

  // ---------------- the sequential build ----------------

  // Mass and centre of mass, whatever their arithmetic.
  type Com(0, !new)

  // add_to_com of a body and of a child, and finalize_com, uninterpreted.
  datatype Ops = Ops(zero: Com, body: (Com, nat) -> Com, child: (Com, Com) -> Com, fin: Com -> Com)

  datatype Tree = Tree(first: nat, count: nat, leaf: bool, com: Com, kids: seq<Tree>)

  function SumBodies(ops: Ops, lo: nat, hi: nat): Com
    requires lo <= hi
  {
    if hi == lo then ops.zero else ops.body(SumBodies(ops, lo, hi - 1), hi - 1)
  }

  function SumKids(ops: Ops, kids: seq<Tree>): Com {
    if kids == [] then ops.zero else ops.child(SumKids(ops, kids[..|kids| - 1]), kids[|kids| - 1].com)
  }

  predicate Stops(lo: nat, hi: nat, level: nat, limit: nat)
    requires lo <= hi
  {
    hi - lo <= limit || level >= NLEVELS
  }

  function BuildKids(keys: seq<nat>, ops: Ops, i: nat, hi: nat, level: nat, leaf: nat): seq<Tree>
    requires i <= hi <= |keys| && level < NLEVELS
    decreases NLEVELS - level, hi - i
  {
    if i == hi then []
    else
      var j := RunEnd(keys, i + 1, hi, level, Octant(keys[i], level));
      [Build(keys, ops, i, j, level + 1, leaf)] + BuildKids(keys, ops, j, hi, level, leaf)
  }

  // build_rec and build_rec_direct
  function Build(keys: seq<nat>, ops: Ops, lo: nat, hi: nat, level: nat, leaf: nat): Tree
    requires lo <= hi <= |keys| && level <= NLEVELS
    decreases NLEVELS - level, |keys| + 1
  {
    if Stops(lo, hi, level, leaf) then Tree(lo, hi - lo, true, ops.fin(SumBodies(ops, lo, hi)), [])
    else
      var kids := BuildKids(keys, ops, lo, hi, level, leaf);
      Tree(lo, hi - lo, false, ops.fin(SumKids(ops, kids)), kids)
  }

  // ---------------- trees in an array ----------------

  // child[k] is the distance from a node to its k-th child.
  datatype Node = Node(first: nat, count: nat, leaf: bool, com: Com, child: seq<nat>)

  // Unfolding the array from pos gives t.
  ghost predicate Represents(arr: seq<Node>, pos: nat, t: Tree)
    decreases t
  {
    && pos < |arr| && Header(arr[pos], t) && |arr[pos].child| == |t.kids|
    && forall k :: 0 <= k < |t.kids| ==> Represents(arr, pos + arr[pos].child[k], t.kids[k])
  }

  ghost predicate Header(n: Node, t: Tree) {
    n.first == t.first && n.count == t.count && n.leaf == t.leaf && n.com == t.com
  }

  function CountKids(kids: seq<Tree>): nat {
    if kids == [] then 0 else CountKids(kids[..|kids| - 1]) + Count(kids[|kids| - 1])
  }

  function Count(t: Tree): nat {
    1 + CountKids(t.kids)
  }

  // ... in preorder, with no holes.
  ghost predicate Packed(arr: seq<Node>, pos: nat, t: Tree)
    decreases t, 1
  {
    && pos + Count(t) <= |arr| && Header(arr[pos], t) && |arr[pos].child| == |t.kids|
    && forall k: nat :: k < |t.kids| ==> PackedKid(arr, pos, t, k)
  }

  ghost predicate PackedKid(arr: seq<Node>, pos: nat, t: Tree, k: nat)
    requires pos < |arr| && |arr[pos].child| == |t.kids| && k < |t.kids|
    decreases t, 0
  {
    arr[pos].child[k] == 1 + CountKids(t.kids[..k]) && Packed(arr, pos + arr[pos].child[k], t.kids[k])
  }

  lemma {:induction false} PackedRepresents(arr: seq<Node>, pos: nat, t: Tree)
    requires Packed(arr, pos, t)
    ensures Represents(arr, pos, t)
    decreases t
  {
    forall k: nat | k < |t.kids| ensures Represents(arr, pos + arr[pos].child[k], t.kids[k]) {
      assert PackedKid(arr, pos, t, k);
      PackedRepresents(arr, pos + arr[pos].child[k], t.kids[k]);
    }
  }

  lemma {:induction false} KidInside(kids: seq<Tree>, k: nat)
    requires k < |kids|
    ensures CountKids(kids[..k]) + Count(kids[k]) <= CountKids(kids)
    ensures CountKids(kids[..k + 1]) == CountKids(kids[..k]) + Count(kids[k])
    decreases |kids|
  {
    hide Count;
    assert kids[..k + 1][..k] == kids[..k];
    var n := |kids| - 1;
    if k < n {
      KidInside(kids[..n], k);
      assert kids[..n][..k] == kids[..k];
    } else {
      assert kids[..k] == kids[..n];
    }
  }

  lemma {:induction false} PackedFrame(a: seq<Node>, b: seq<Node>, pos: nat, t: Tree)
    requires Packed(a, pos, t) && pos + Count(t) <= |b|
    requires forall i :: pos <= i < pos + Count(t) ==> b[i] == a[i]
    ensures Packed(b, pos, t)
    decreases t
  {
    hide CountKids;
    forall k: nat | k < |t.kids| ensures PackedKid(b, pos, t, k) {
      assert PackedKid(a, pos, t, k);
      KidInside(t.kids, k);
      PackedFrame(a, b, pos + a[pos].child[k], t.kids[k]);
    }
  }

  // Child distances are never negative, so what lies before a node is not part
  // of its tree.
  lemma {:induction false} RepresentsFrame(a: seq<Node>, b: seq<Node>, pos: nat, t: Tree)
    requires Represents(a, pos, t) && |a| == |b| && forall i :: pos <= i < |a| ==> b[i] == a[i]
    ensures Represents(b, pos, t)
    decreases t
  {
    forall k | 0 <= k < |t.kids| ensures Represents(b, pos + b[pos].child[k], t.kids[k]) {
      RepresentsFrame(a, b, pos + a[pos].child[k], t.kids[k]);
    }
  }

  // An array unfolds to one tree only.
  lemma {:induction false} UnfoldsOnce(arr: seq<Node>, pos: nat, s: Tree, t: Tree)
    requires Represents(arr, pos, s) && Represents(arr, pos, t)
    ensures s == t
    decreases s
  {
    forall k | 0 <= k < |s.kids| ensures s.kids[k] == t.kids[k] {
      UnfoldsOnce(arr, pos + arr[pos].child[k], s.kids[k], t.kids[k]);
    }
  }
}
