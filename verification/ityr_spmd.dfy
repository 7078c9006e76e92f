// The cooperative build: every rank counts and folds its share of the plan's
// leaves, and one rank assembles the nodes above them.  For any number of ranks
// and any cutoff the result unfolds to the tree of the plan, which is that of the
// sequential build exactly when no sequential leaf is larger than the cutoff.
module CooperativeBuild {
  import opened Octree
  import opened OctreeBuild
  import opened BuildPlan
  import BodyOrder

  // ---------------- the plan and its trees ----------------

  // trees[i] is the tree of plan entry i: of a leaf, what the sequential build
  // makes of the range; of a divided entry, its children's trees below one node.
  ghost predicate Ready(plan: seq<PlanNode>, keys: seq<nat>, ops: Ops, leaf: nat, trees: seq<Tree>) {
    && |trees| == |plan| && |plan| > 0
    && forall i :: 0 <= i < |plan| ==>
         if plan[i].child == [] then Undivided(plan, keys, ops, leaf, trees, i) else Divided(plan, ops, trees, i)
  }

  ghost predicate Undivided(plan: seq<PlanNode>, keys: seq<nat>, ops: Ops, leaf: nat, trees: seq<Tree>, i: nat)
    requires i < |plan| == |trees|
  {
    var x := plan[i];
    RangeOk(keys, x.lo, x.hi, x.level) && trees[i] == Build(keys, ops, x.lo, x.hi, x.level, leaf)
  }

  ghost predicate Divided(plan: seq<PlanNode>, ops: Ops, trees: seq<Tree>, i: nat)
    requires i < |plan| == |trees|
  {
    var x, t := plan[i], trees[i];
    && !t.leaf && t.first == x.lo && t.count == x.hi - x.lo && t.com == ops.fin(SumKids(ops, t.kids))
    && |t.kids| == |x.child|
    && forall m :: 0 <= m < |t.kids| ==> i < x.child[m] < |plan| && t.kids[m] == trees[x.child[m]]
  }

  lemma DividedAt(plan: seq<PlanNode>, keys: seq<nat>, ops: Ops, leaf: nat, trees: seq<Tree>, i: nat)
    requires Ready(plan, keys, ops, leaf, trees) && i < |plan| && plan[i].child != []
    ensures |trees| == |plan| && Divided(plan, ops, trees, i)
  {
    hide Undivided, Divided;
  }

  // ---------------- the leaves of the plan ----------------

  ghost predicate LeavesOf(plan: seq<PlanNode>, leaves: seq<nat>, ord: seq<int>, n: nat)
    requires n <= |plan|
  {
    && |ord| == |plan|
    && (forall k :: 0 <= k < |leaves| ==> leaves[k] < n && plan[leaves[k]].child == [])
    && (forall k, m :: 0 <= k < m < |leaves| ==> leaves[k] < leaves[m])
    && forall i :: 0 <= i < n && plan[i].child == [] ==> 0 <= ord[i] < |leaves| && leaves[ord[i]] == i
  }

  method FindLeaves(plan: seq<PlanNode>) returns (leaves: seq<nat>, ord: seq<int>)
    ensures LeavesOf(plan, leaves, ord, |plan|)
  {
    leaves, ord := [], seq(|plan|, _ => -1);
    var i := 0;
    while i < |plan|
      invariant i <= |plan| && LeavesOf(plan, leaves, ord, i)
    {
      if |plan[i].child| == 0 {
        ord := ord[i := |leaves|];
        leaves := leaves + [i];
      }
      i := i + 1;
    }
  }

  // The leaves' trees, in leaf order.
  ghost predicate LeafTrees(leaves: seq<nat>, trees: seq<Tree>, ts: seq<Tree>) {
    |ts| == |leaves| && forall k :: 0 <= k < |leaves| ==> leaves[k] < |trees| && ts[k] == trees[leaves[k]]
  }

  // Leaf k's range and tree.
  ghost predicate LeafReady(plan: seq<PlanNode>, keys: seq<nat>, ops: Ops, leaf: nat, leaves: seq<nat>, ts: seq<Tree>,
                            k: nat)
    requires k < |leaves| == |ts|
  {
    && leaves[k] < |plan|
    && var x := plan[leaves[k]];
       RangeOk(keys, x.lo, x.hi, x.level) && ts[k] == Build(keys, ops, x.lo, x.hi, x.level, leaf)
  }

  lemma LeavesReady(plan: seq<PlanNode>, keys: seq<nat>, ops: Ops, leaf: nat, trees: seq<Tree>,
                    leaves: seq<nat>, ord: seq<int>, ts: seq<Tree>)
    requires Ready(plan, keys, ops, leaf, trees) && LeavesOf(plan, leaves, ord, |plan|) && LeafTrees(leaves, trees, ts)
    ensures |ts| == |leaves| && forall k: nat :: k < |leaves| ==> LeafReady(plan, keys, ops, leaf, leaves, ts, k)
  {
    hide RangeOk, Build, Divided;
    forall k: nat | k < |leaves| ensures LeafReady(plan, keys, ops, leaf, leaves, ts, k) {
      assert Undivided(plan, keys, ops, leaf, trees, leaves[k]);
    }
  }

  // ---------------- counting ----------------

  // The records of rank q's leaves before leaf k: where leaf k's record starts.
  ghost function RecordsBefore(ts: seq<Tree>, P: nat, q: nat, k: nat): nat
    requires P > 0 && k <= |ts|
  {
    if k == 0 then 0 else RecordsBefore(ts, P, q, k - 1) + if Mod(k - 1, P) == q then Count(ts[k - 1]) else 0
  }

  lemma {:induction false} NoneSkipped(ts: seq<Tree>, P: nat, q: nat, j: nat, k: nat)
    requires P > 0 && j <= k <= |ts| && forall m: nat :: j <= m < k ==> Mod(m, P) != q
    ensures RecordsBefore(ts, P, q, k) == RecordsBefore(ts, P, q, j)
    decreases k
  {
    hide Count, Mod;
    if j < k { NoneSkipped(ts, P, q, j, k - 1); }
  }

  lemma {:induction false} BeforeGrows(ts: seq<Tree>, P: nat, q: nat, m: nat, k: nat)
    requires P > 0 && m < k <= |ts| && Mod(m, P) == q
    ensures RecordsBefore(ts, P, q, m) + Count(ts[m]) <= RecordsBefore(ts, P, q, k)
    decreases k
  {
    hide Count, Mod;
    if m < k - 1 { BeforeGrows(ts, P, q, m, k - 1); }
  }

  // What rank q has counted: the sizes of its own leaves, zero elsewhere, and the
  // records of its leaves one after the other.
  ghost predicate Counted(ts: seq<Tree>, P: nat, q: nat, lsize: seq<nat>, rec: seq<SubRec>, n: nat)
    requires P > 0 && n <= |ts|
  {
    && |lsize| == |ts| && |rec| == RecordsBefore(ts, P, q, n)
    && forall k: nat :: k < |ts| ==> CountedLeaf(ts, P, q, lsize[k], rec, n, k)
  }

  ghost predicate CountedLeaf(ts: seq<Tree>, P: nat, q: nat, size: nat, rec: seq<SubRec>, n: nat, k: nat)
    requires P > 0 && k < |ts|
  {
    if k < n && Mod(k, P) == q then size == Count(ts[k]) && Recorded(rec, RecordsBefore(ts, P, q, k), ts[k])
    else size == 0
  }

  // Leaf k counted and recorded; the next leaf of rank q is k'.
  lemma CountedMore(ts: seq<Tree>, P: nat, q: nat, lsize: seq<nat>, rec: seq<SubRec>, rec': seq<SubRec>, k: nat,
                    k': nat)
    requires P > 0 && k < k' <= |ts| && Counted(ts, P, q, lsize, rec, k) && Mod(k, P) == q
    requires forall m: nat :: k < m < k' ==> Mod(m, P) != q
    requires |rec'| == |rec| + Count(ts[k]) && rec'[..|rec|] == rec && Recorded(rec', |rec|, ts[k])
    ensures Counted(ts, P, q, lsize[k := Count(ts[k])], rec', k')
  {
    hide Count, Mod, Recorded, CountedLeaf, RecordsBefore;
    var lsize' := lsize[k := Count(ts[k])];
    NoneSkipped(ts, P, q, k + 1, k');
    BeforeNext(ts, P, q, k);
    forall m: nat | m < |ts| ensures CountedLeaf(ts, P, q, lsize'[m], rec', k', m) {
      LeafMore(ts, P, q, lsize[m], rec, rec', k, k', m);
    }
  }

  lemma BeforeNext(ts: seq<Tree>, P: nat, q: nat, k: nat)
    requires P > 0 && k < |ts| && Mod(k, P) == q
    ensures RecordsBefore(ts, P, q, k + 1) == RecordsBefore(ts, P, q, k) + Count(ts[k])
  {
    hide Count, Mod;
  }

  lemma LeafMore(ts: seq<Tree>, P: nat, q: nat, size: nat, rec: seq<SubRec>, rec': seq<SubRec>, k: nat, k': nat, m: nat)
    requires P > 0 && k < k' <= |ts| && m < |ts| && Mod(k, P) == q && CountedLeaf(ts, P, q, size, rec, k, m)
    requires |rec| == RecordsBefore(ts, P, q, k) && (k < m < k' ==> Mod(m, P) != q)
    requires |rec| <= |rec'| && rec'[..|rec|] == rec && Recorded(rec', |rec|, ts[k])
    ensures CountedLeaf(ts, P, q, if m == k then Count(ts[k]) else size, rec', k', m)
  {
    hide Count, Mod, Recorded, RecordsBefore;
    if m < k && Mod(m, P) == q {
      assert forall i :: 0 <= i < |rec| ==> rec'[i] == rec'[..|rec|][i];
      BeforeGrows(ts, P, q, m, k);
      RecordedFrame(rec, rec', RecordsBefore(ts, P, q, m), ts[m]);
    }
  }

  // Rank q's count walk.
  method RankCount(plan: seq<PlanNode>, keys: seq<nat>, ghost ops: Ops, leaf: nat, leaves: seq<nat>,
                   ghost ts: seq<Tree>,
                   P: nat, q: nat)
    returns (lsize: seq<nat>, rec: seq<SubRec>)
    requires q < P && |ts| == |leaves|
    requires forall k: nat :: k < |leaves| ==> LeafReady(plan, keys, ops, leaf, leaves, ts, k)
    ensures Counted(ts, P, q, lsize, rec, |leaves|)
  {
    hide Count, Mod, Recorded, RangeOk, Build, Counted;
    lsize, rec := seq(|leaves|, _ => 0), [];
    var k := q;
    forall d: nat | d < q ensures Mod(d, P) != q { FirstOf(q, d, P); }
    ModSelf(q, P);
    NothingCounted(ts, P, q, lsize, if q < |leaves| then q else |leaves|);
    while k < |leaves|
      invariant Mod(k, P) == q && k <= |leaves| + P && |lsize| == |leaves|
      invariant Counted(ts, P, q, lsize, rec, if k < |leaves| then k else |leaves|)
      decreases |leaves| + P - k
    {
      assert LeafReady(plan, keys, ops, leaf, leaves, ts, k);
      var x := plan[leaves[k]];
      var count, rec' := RecNodeCountRec(keys, ops, x.lo, x.hi, x.level, leaf, rec);
      forall m: nat | k < m < k + P ensures Mod(m, P) != q { NoneBetween(k, m, P); }
      CountedMore(ts, P, q, lsize, rec, rec', k, if k + P < |leaves| then k + P else |leaves|);
      lsize, rec := lsize[k := count], rec';
      ModNext(k, P);
      k := k + P;
    }
  }

  lemma NothingCounted(ts: seq<Tree>, P: nat, q: nat, lsize: seq<nat>, n: nat)
    requires P > 0 && n <= |ts| == |lsize| && (forall m :: 0 <= m < |lsize| ==> lsize[m] == 0)
    requires forall d: nat :: d < n ==> Mod(d, P) != q
    ensures Counted(ts, P, q, lsize, [], n)
  {
    hide Count, Mod, Recorded;
    NoneSkipped(ts, P, q, 0, n);
  }

  // MPI_SUM over the ranks' sizes.
  method SumSizes(lsizes: seq<seq<nat>>, k: nat, ghost owner: nat, ghost size: nat) returns (total: nat)
    requires owner < |lsizes|
    requires forall q :: 0 <= q < |lsizes| ==> k < |lsizes[q]| && lsizes[q][k] == if q == owner then size else 0
    ensures total == size
  {
    total := 0;
    var q := 0;
    while q < |lsizes|
      invariant q <= |lsizes| && total == if owner < q then size else 0
    {
      total := total + lsizes[q][k];
      q := q + 1;
    }
  }

  ghost predicate AllCounted(ts: seq<Tree>, P: nat, lsizes: seq<seq<nat>>, recs: seq<seq<SubRec>>)
    requires P > 0
  {
    |lsizes| == |recs| == P && forall q: nat :: q < P ==> Counted(ts, P, q, lsizes[q], recs[q], |ts|)
  }

  ghost predicate SizesAre(ts: seq<Tree>, sizes: seq<nat>) {
    |sizes| == |ts| && forall k :: 0 <= k < |ts| ==> sizes[k] == Count(ts[k])
  }

  method CombineSizes(ghost ts: seq<Tree>, P: nat, nleaves: nat, lsizes: seq<seq<nat>>, ghost recs: seq<seq<SubRec>>)
    returns (lsize: seq<nat>)
    requires P > 0 && nleaves == |ts| && AllCounted(ts, P, lsizes, recs)
    ensures SizesAre(ts, lsize)
  {
    hide Count, Mod, Recorded, RecordsBefore;
    lsize := [];
    var k := 0;
    while k < nleaves
      invariant k == |lsize| <= nleaves && forall m :: 0 <= m < k ==> lsize[m] == Count(ts[m])
    {
      ghost var owner := Mod(k, P);
      forall q: nat | q < P ensures k < |lsizes[q]| && lsizes[q][k] == if q == owner then Count(ts[k]) else 0 {
        assert Counted(ts, P, q, lsizes[q], recs[q], |ts|);
        assert CountedLeaf(ts, P, q, lsizes[q][k], recs[q], |ts|, k);
      }
      var total := SumSizes(lsizes, k, owner, Count(ts[k]));
      lsize := lsize + [total];
      k := k + 1;
    }
  }

  // ---------------- sizes and offsets ----------------

  function SumOf(s: seq<nat>): nat {
    if s == [] then 0 else SumOf(s[..|s| - 1]) + s[|s| - 1]
  }

  lemma {:induction false} SizeIsSum(kids: seq<Tree>, sizes: seq<nat>, k: nat)
    requires |sizes| == |kids| && k <= |kids| && forall m :: 0 <= m < |kids| ==> sizes[m] == Count(kids[m])
    ensures CountKids(kids[..k]) == SumOf(sizes[..k])
  {
    hide Count;
    if k > 0 {
      SizeIsSum(kids, sizes, k - 1);
      assert kids[..k][..k - 1] == kids[..k - 1] && sizes[..k][..k - 1] == sizes[..k - 1];
    }
  }

  // A divided entry: one node and its children's subtrees.
  method SizeOfInner(plan: seq<PlanNode>, ghost ops: Ops, ghost trees: seq<Tree>, size: seq<nat>, i: nat)
    returns (s: nat)
    requires |size| == |plan| == |trees| && i < |plan| && Divided(plan, ops, trees, i)
    requires forall j :: i < j < |plan| ==> size[j] == Count(trees[j])
    ensures s == Count(trees[i])
  {
    hide Count, SumKids;
    ghost var t := trees[i];
    ghost var sizes: seq<nat> := [];
    s := 1;
    var k := 0;
    while k < |plan[i].child|
      invariant k == |sizes| <= |plan[i].child| && s == 1 + SumOf(sizes)
      invariant forall m :: 0 <= m < k ==> sizes[m] == Count(t.kids[m])
    {
      ghost var longer := sizes + [size[plan[i].child[k]]];
      assert longer[..k] == sizes;
      s := s + size[plan[i].child[k]];
      sizes := longer;
      k := k + 1;
    }
    SizeIsSum(t.kids, sizes, k);
    assert t.kids[..k] == t.kids && sizes[..k] == sizes;
    CountIs(t, t.kids);
  }

  method SubtreeSizes(plan: seq<PlanNode>, ghost keys: seq<nat>, ghost ops: Ops, ghost leaf: nat,
                      ghost trees: seq<Tree>,
                      ghost leaves: seq<nat>, ord: seq<int>, ghost ts: seq<Tree>, lsize: seq<nat>)
    returns (size: seq<nat>)
    requires Ready(plan, keys, ops, leaf, trees) && LeavesOf(plan, leaves, ord, |plan|)
    requires LeafTrees(leaves, trees, ts) && SizesAre(ts, lsize)
    ensures SizesAre(trees, size)
  {
    hide Count, Ready, Divided;
    size := seq(|plan|, _ => 0);
    var i := |plan|;
    assert |trees| == |plan| by { SameLength(plan, keys, ops, leaf, trees); }
    while i > 0
      invariant 0 <= i <= |plan| == |size| && forall j :: i <= j < |plan| ==> size[j] == Count(trees[j])
    {
      i := i - 1;
      if |plan[i].child| == 0 {
        size := size[i := lsize[ord[i]]];
      } else {
        DividedAt(plan, keys, ops, leaf, trees, i);
        var s := SizeOfInner(plan, ops, trees, size, i);
        size := size[i := s];
      }
    }
  }

  lemma SameLength(plan: seq<PlanNode>, keys: seq<nat>, ops: Ops, leaf: nat, trees: seq<Tree>)
    requires Ready(plan, keys, ops, leaf, trees)
    ensures |trees| == |plan| > 0
  {
  }

  // The running sums over all entries, inner ones included.
  ghost predicate Offsets(off: seq<nat>, size: seq<nat>, total: nat) {
    |off| == |size| && total == SumOf(size) && forall i :: 0 <= i < |off| ==> off[i] == SumOf(size[..i])
  }

  method PrefixOffsets(size: seq<nat>) returns (off: seq<nat>, total: nat)
    ensures Offsets(off, size, total)
  {
    off, total := [], 0;
    var i := 0;
    while i < |size|
      invariant i == |off| <= |size| && total == SumOf(size[..i])
      invariant forall j :: 0 <= j < i ==> off[j] == SumOf(size[..j])
    {
      off := off + [total];
      assert size[..i + 1][..i] == size[..i];
      total := total + size[i];
      i := i + 1;
    }
    assert size[..i] == size;
  }

  lemma {:induction false} SumsClimb(size: seq<nat>, i: nat, j: nat)
    requires i < j <= |size|
    ensures SumOf(size[..i]) + size[i] <= SumOf(size[..j])
    decreases j
  {
    assert size[..j][..j - 1] == size[..j - 1];
    if i < j - 1 { SumsClimb(size, i, j - 1); }
  }

  // So the subtrees never overlap; between the children of an inner entry there may
  // be holes.
  lemma Apart(off: seq<nat>, size: seq<nat>, total: nat, i: nat, j: nat)
    requires Offsets(off, size, total) && i < |off| && j < |off| && i != j
    ensures off[i] + size[i] <= total && (i < j ==> off[i] + size[i] <= off[j])
  {
    hide SumOf;
    assert size[..|size|] == size;
    SumsClimb(size, i, |size|);
    if i < j { SumsClimb(size, i, j); }
  }

  lemma FitsTotal(off: seq<nat>, size: seq<nat>, total: nat, i: nat)
    requires Offsets(off, size, total) && i < |off|
    ensures off[i] + size[i] <= total
  {
    hide SumOf;
    assert size[..|size|] == size;
    SumsClimb(size, i, |size|);
  }

  // ---------------- folding ----------------

  // Leaf k goes to at[k]; the places are apart, in leaf order.
  ghost predicate Placed(ts: seq<Tree>, at: seq<nat>, total: nat) {
    && |at| == |ts| && (forall k :: 0 <= k < |ts| ==> at[k] + Count(ts[k]) <= total)
    && forall k, m :: 0 <= k < m < |ts| ==> at[k] + Count(ts[k]) <= at[m]
  }

  // Slot i belongs to none of rank q's leaves.
  ghost predicate NotMine(ts: seq<Tree>, at: seq<nat>, P: nat, q: nat, k: nat, i: nat)
    requires P > 0 && k <= |ts| == |at|
  {
    forall m: nat :: m < k && Mod(m, P) == q ==> !(at[m] <= i < at[m] + Count(ts[m]))
  }

  // Rank q's fold: its own leaves, from its own records, each into its place, and
  // no slot anywhere else.
  method RankFold(ops: Ops, ghost ts: seq<Tree>, nleaves: nat, lsize: seq<nat>, at: seq<nat>, P: nat, q: nat,
                  ghost mine: seq<nat>, rec: seq<SubRec>, arr: array<Node>)
    requires q < P && nleaves == |ts| && SizesAre(ts, lsize) && Placed(ts, at, arr.Length) && AllFolded(ops, ts)
    requires Counted(ts, P, q, mine, rec, |ts|)
    modifies arr
    ensures forall k: nat :: k < |ts| && Mod(k, P) == q ==> Packed(arr[..], at[k], ts[k])
    ensures forall i: nat :: i < arr.Length && NotMine(ts, at, P, q, |ts|, i) ==> arr[i] == old(arr[i])
  {
    hide Count, Mod, Recorded, Packed, Counted, Folded, RecordsBefore, Placed, NotMine;
    PlacedLength(ts, at, arr.Length);
    ghost var start := arr[..];
    var k, rec_i := q, 0;
    forall d: nat | d < q ensures Mod(d, P) != q { FirstOf(q, d, P); }
    ModSelf(q, P);
    if q < |ts| { NoneSkipped(ts, P, q, 0, q); }
    StartsAtZero(ts, P, q);
    while k < nleaves
      invariant Mod(k, P) == q && (k < nleaves ==> rec_i == RecordsBefore(ts, P, q, k))
      invariant forall m: nat :: m < |ts| && m < k && Mod(m, P) == q ==> Packed(arr[..], at[m], ts[m])
      invariant forall i: nat :: i < arr.Length && NotMine(ts, at, P, q, if k < |ts| then k else |ts|, i) ==>
            arr[i] == start[i]
      decreases nleaves + P - k
    {
      ghost var before := arr[..];
      RecordReady(ts, P, q, mine, rec, k);
      PlacedAt(ts, at, arr.Length, k);
      assert Folded(ops, ts[k]);
      var o := FoldFromRec(rec, ops, rec_i, arr, at[k], ts[k]);
      forall m: nat | k < m < k + P ensures Mod(m, P) != q { NoneBetween(k, m, P); }
      forall m: nat | m < |ts| && m < k + P && Mod(m, P) == q ensures Packed(arr[..], at[m], ts[m]) {
        if m != k { OtherKept(before, arr[..], ts, at, k, m); }
      }
      ghost var next := if k + P < |ts| then k + P else |ts|;
      forall i: nat | i < arr.Length && NotMine(ts, at, P, q, next, i) ensures arr[i] == start[i] {
        NotMineBefore(ts, at, P, q, k, next, i);
      }
      if k + P < nleaves { NextRecord(ts, P, q, k); }
      rec_i := rec_i + lsize[k];
      ModNext(k, P);
      k := k + P;
    }
  }

  ghost predicate AllFolded(ops: Ops, ts: seq<Tree>) {
    forall k :: 0 <= k < |ts| ==> Folded(ops, ts[k])
  }

  lemma PlacedLength(ts: seq<Tree>, at: seq<nat>, total: nat)
    requires Placed(ts, at, total)
    ensures |at| == |ts|
  {
  }

  lemma PlacedAt(ts: seq<Tree>, at: seq<nat>, total: nat, k: nat)
    requires Placed(ts, at, total) && k < |ts|
    ensures at[k] + Count(ts[k]) <= total
    ensures forall m :: 0 <= m < |ts| && m != k ==> at[k] + Count(ts[k]) <= at[m] || at[m] + Count(ts[m]) <= at[k]
  {
    hide Count;
  }

  // Folding leaf k leaves the others' places alone.
  lemma OtherKept(a: seq<Node>, b: seq<Node>, ts: seq<Tree>, at: seq<nat>, k: nat, m: nat)
    requires |at| == |ts| && k < |ts| && m < |ts| && |a| == |b| && Packed(a, at[m], ts[m])
    requires at[k] + Count(ts[k]) <= at[m] || at[m] + Count(ts[m]) <= at[k]
    requires forall i :: 0 <= i < |a| && !(at[k] <= i < at[k] + Count(ts[k])) ==> b[i] == a[i]
    ensures Packed(b, at[m], ts[m])
  {
    hide Count, Packed;
    CountFits(a, at[m], ts[m]);
    PackedFrame(a, b, at[m], ts[m]);
  }

  lemma NotMineBefore(ts: seq<Tree>, at: seq<nat>, P: nat, q: nat, k: nat, next: nat, i: nat)
    requires P > 0 && k < next <= |ts| == |at| && Mod(k, P) == q && NotMine(ts, at, P, q, next, i)
    ensures NotMine(ts, at, P, q, k, i) && !(at[k] <= i < at[k] + Count(ts[k]))
  {
    hide Count, Mod;
  }

  lemma StartsAtZero(ts: seq<Tree>, P: nat, q: nat)
    requires P > 0
    ensures RecordsBefore(ts, P, q, 0) == 0
  {
  }

  lemma NextRecord(ts: seq<Tree>, P: nat, q: nat, k: nat)
    requires P > 0 && k + P < |ts| && Mod(k, P) == q && forall m: nat :: k < m < k + P ==> Mod(m, P) != q
    ensures RecordsBefore(ts, P, q, k + P) == RecordsBefore(ts, P, q, k) + Count(ts[k])
  {
    hide Count, Mod, RecordsBefore;
    NoneSkipped(ts, P, q, k + 1, k + P);
    BeforeNext(ts, P, q, k);
  }

  lemma RecordReady(ts: seq<Tree>, P: nat, q: nat, mine: seq<nat>, rec: seq<SubRec>, k: nat)
    requires P > 0 && Counted(ts, P, q, mine, rec, |ts|) && k < |ts| && Mod(k, P) == q
    ensures Recorded(rec, RecordsBefore(ts, P, q, k), ts[k])
  {
    hide Count, Mod, Recorded, RecordsBefore;
    assert CountedLeaf(ts, P, q, mine[k], rec, |ts|, k);
  }

  // Every rank's share of the folding, into one array: in any order, since each
  // keeps to its own places.
  method FoldAll(ops: Ops, ghost ts: seq<Tree>, nleaves: nat, lsize: seq<nat>, at: seq<nat>, P: nat,
                 ghost lsizes: seq<seq<nat>>, recs: seq<seq<SubRec>>, arr: array<Node>)
    requires P > 0 && nleaves == |ts| && SizesAre(ts, lsize) && Placed(ts, at, arr.Length) && AllFolded(ops, ts)
    requires AllCounted(ts, P, lsizes, recs)
    modifies arr
    ensures |at| == |ts| && forall k: nat :: k < |ts| ==> Packed(arr[..], at[k], ts[k])
  {
    hide Counted, Count, Mod, Packed, Placed, NotMine, Folded;
    PlacedLength(ts, at, arr.Length);
    var q := 0;
    while q < P
      invariant q <= P
      invariant forall k: nat :: k < |ts| && Mod(k, P) < q ==> Packed(arr[..], at[k], ts[k])
    {
      ghost var before := arr[..];
      RankFold(ops, ts, nleaves, lsize, at, P, q, lsizes[q], recs[q], arr);
      forall k: nat | k < |ts| && Mod(k, P) < q + 1 ensures Packed(arr[..], at[k], ts[k]) {
        if Mod(k, P) != q { NotOthers(before, arr[..], ts, at, P, q, k); }
      }
      q := q + 1;
    }
    forall k: nat | k < |ts| ensures Packed(arr[..], at[k], ts[k]) { assert Mod(k, P) < P; }
  }

  lemma NotOthers(a: seq<Node>, b: seq<Node>, ts: seq<Tree>, at: seq<nat>, P: nat, q: nat, k: nat)
    requires P > 0 && k < |ts| && Placed(ts, at, |a|) && |at| == |ts| && |a| == |b| && Mod(k, P) != q
    requires Packed(a, at[k], ts[k])
    requires forall i: nat :: i < |a| && NotMine(ts, at, P, q, |ts|, i) ==> b[i] == a[i]
    ensures Packed(b, at[k], ts[k])
  {
    hide Count, Mod, Packed;
    forall i: nat | at[k] <= i < at[k] + Count(ts[k]) ensures NotMine(ts, at, P, q, |ts|, i) {
      forall m: nat | m < |ts| && Mod(m, P) == q ensures !(at[m] <= i < at[m] + Count(ts[m])) {
        PlacedAt(ts, at, |a|, k);
      }
    }
    CountFits(a, at[k], ts[k]);
    PackedFrame(a, b, at[k], ts[k]);
  }

  // ---------------- assembling ----------------

  ghost predicate AssembledFrom(arr: seq<Node>, trees: seq<Tree>, off: seq<nat>, i: nat)
    requires |off| == |trees|
  {
    forall j :: i <= j < |trees| ==> Represents(arr, off[j], trees[j])
  }

  // One inner node: its header, links and moments from its children's.
  method AssembleNode(plan: seq<PlanNode>, ops: Ops, ghost trees: seq<Tree>, ghost size: seq<nat>, off: seq<nat>,
                      ghost total: nat, arr: array<Node>, i: nat)
    requires |plan| == |trees| && i < |plan| && Divided(plan, ops, trees, i) && SizesAre(trees, size)
    requires Offsets(off, size, total) && arr.Length == total && AssembledFrom(arr[..], trees, off, i + 1)
    modifies arr
    ensures forall j :: 0 <= j < arr.Length && j != off[i] ==> arr[j] == old(arr[j])
    ensures Represents(arr[..], off[i], trees[i])
  {
    hide Count, Represents, SumKids, Offsets;
    OffsetLengths(off, size, total);
    ghost var t := trees[i];
    ghost var start := arr[..];
    NoSum(ops);
    CountPositive(t);
    FitsTotal(off, size, total, i);
    var com, child := ops.zero, [];
    var k := 0;
    assert t.kids[..k] == [];
    while k < |plan[i].child|
      invariant arr[..] == start && k == |child| <= |t.kids| && com == SumKids(ops, t.kids[..k])
      invariant forall m :: 0 <= m < k ==> off[i] + child[m] == off[plan[i].child[m]] && child[m] > 0
    {
      var c := plan[i].child[k];
      OffsetsClimb(off, size, total, i, c, t);
      assert Represents(arr[..], off[c], trees[c]);
      RootCom(arr[..], off[c], trees[c]);
      SumNext(ops, t.kids, k);
      child := child + [off[c] - off[i]];
      com := ops.child(com, arr[off[c]].com);
      k := k + 1;
    }
    assert t.kids[..k] == t.kids;
    arr[off[i]] := Node(plan[i].lo, plan[i].hi - plan[i].lo, false, ops.fin(com), child);
    forall m | 0 <= m < |t.kids| ensures Represents(arr[..], off[i] + child[m], t.kids[m]) {
      assert Represents(start, off[plan[i].child[m]], trees[plan[i].child[m]]);
      RepresentsFrame(start, arr[..], off[plan[i].child[m]], t.kids[m]);
    }
    assert Represents(arr[..], off[i], t) by { MakeRepresents(arr[..], off[i], t); }
  }

  lemma OffsetLengths(off: seq<nat>, size: seq<nat>, total: nat)
    requires Offsets(off, size, total)
    ensures |off| == |size|
  {
  }

  lemma MakeRepresents(arr: seq<Node>, pos: nat, t: Tree)
    requires pos < |arr| && Header(arr[pos], t) && |arr[pos].child| == |t.kids|
    requires forall k :: 0 <= k < |t.kids| ==> Represents(arr, pos + arr[pos].child[k], t.kids[k])
    ensures Represents(arr, pos, t)
  {
  }

  lemma CountPositive(t: Tree)
    ensures Count(t) > 0
  {
  }

  lemma RootCom(arr: seq<Node>, pos: nat, t: Tree)
    requires Represents(arr, pos, t)
    ensures pos < |arr| && arr[pos].com == t.com
  {
  }

  lemma SumNext(ops: Ops, kids: seq<Tree>, k: nat)
    requires k < |kids|
    ensures SumKids(ops, kids[..k + 1]) == ops.child(SumKids(ops, kids[..k]), kids[k].com)
  {
    assert kids[..k + 1][..k] == kids[..k];
  }

  lemma OffsetsClimb(off: seq<nat>, size: seq<nat>, total: nat, i: nat, c: nat, t: Tree)
    requires Offsets(off, size, total) && i < c < |off| && size[i] == Count(t)
    ensures off[i] < off[c] && off[i] < total
  {
    hide Count, Offsets;
    CountPositive(t);
    Apart(off, size, total, i, c);
  }

  // The plan's leaves are in place.
  ghost predicate LeavesFolded(arr: seq<Node>, plan: seq<PlanNode>, trees: seq<Tree>, off: seq<nat>, n: nat)
    requires |plan| == |trees| == |off| && n <= |plan|
  {
    forall i :: 0 <= i < n && plan[i].child == [] ==> Packed(arr, off[i], trees[i])
  }

  // From the last entry back to the root.
  method Assemble(plan: seq<PlanNode>, ghost keys: seq<nat>, ops: Ops, ghost leaf: nat, ghost trees: seq<Tree>,
                  ghost size: seq<nat>, off: seq<nat>, ghost total: nat, arr: array<Node>)
    requires Ready(plan, keys, ops, leaf, trees) && SizesAre(trees, size) && Offsets(off, size, total)
    requires arr.Length == total
    requires |plan| == |off| && LeavesFolded(arr[..], plan, trees, off, |plan|)
    modifies arr
    ensures Represents(arr[..], off[0], trees[0])
  {
    hide Count, Represents, Packed, Offsets, SizesAre, Ready, Divided;
    SameLength(plan, keys, ops, leaf, trees);
    var i := |plan|;
    while i > 0
      invariant 0 <= i <= |plan| && AssembledFrom(arr[..], trees, off, i) && LeavesFolded(arr[..], plan, trees, off, i)
    {
      i := i - 1;
      ghost var before := arr[..];
      if |plan[i].child| == 0 {
        PackedRepresents(arr[..], off[i], trees[i]);
      } else {
        DividedAt(plan, keys, ops, leaf, trees, i);
        AssembleNode(plan, ops, trees, size, off, total, arr, i);
        OneAssembled(before, arr[..], plan, trees, size, off, total, i);
      }
    }
  }

  // Writing one inner node disturbs no later subtree and no earlier leaf.
  lemma OneAssembled(a: seq<Node>, b: seq<Node>, plan: seq<PlanNode>, trees: seq<Tree>, size: seq<nat>, off: seq<nat>,
                     total: nat, i: nat)
    requires |plan| == |trees| == |off| && SizesAre(trees, size) && Offsets(off, size, total) && i < |plan|
    requires |a| == |b|
    requires forall j :: 0 <= j < |a| && j != off[i] ==> b[j] == a[j]
    requires Represents(b, off[i], trees[i]) && AssembledFrom(a, trees, off, i + 1)
    requires LeavesFolded(a, plan, trees, off, i)
    ensures AssembledFrom(b, trees, off, i) && LeavesFolded(b, plan, trees, off, i)
  {
    hide Count, Represents, Packed, Offsets;
    forall j | i + 1 <= j < |plan| ensures Represents(b, off[j], trees[j]) {
      OffsetsClimb(off, size, total, i, j, trees[i]);
      RepresentsFrame(a, b, off[j], trees[j]);
    }
    forall j | 0 <= j < i && plan[j].child == [] ensures Packed(b, off[j], trees[j]) {
      Apart(off, size, total, j, i);
      CountFits(a, off[j], trees[j]);
      PackedFrame(a, b, off[j], trees[j]);
    }
  }

  // ---------------- build_tree_spmd ----------------

  // Every rank's share of the planning, then the exchange.
  method MakePlan(keys: seq<nat>, ghost ops: Ops, ghost leaf: nat, cutoff: nat, P: nat)
    returns (plan: seq<PlanNode>, ghost trees: seq<Tree>)
    requires ValidKeys(keys) && P > 0
    ensures Ready(plan, keys, ops, leaf, trees) && trees[0] == PlannedTree(keys, ops, 0, |keys|, 0, leaf, cutoff)
  {
    hide ValidKeys, Planned, SubPlanned, RootRuns;
    var rlo, rhi := FindRootRuns(keys, cutoff);
    var subs: seq<seq<PlanNode>>, cposs: seq<seq<int>> := [], [];
    var q := 0;
    assert |rlo| == |rhi| by { SameRuns(keys, cutoff, rlo, rhi); }
    while q < P
      invariant q == |subs| == |cposs| <= P
      invariant forall m: nat :: m < q ==> SubPlanned(keys, cutoff, rlo, rhi, P, m, subs[m], cposs[m])
    {
      var sub, cpos := RankPlan(keys, cutoff, rlo, rhi, P, q);
      subs, cposs := subs + [sub], cposs + [cpos];
      q := q + 1;
    }
    plan := GatherPlan(keys, cutoff, rlo, rhi, subs, cposs);
    PlannedInRange(plan, keys, cutoff);
    trees := TreesOf(plan, keys, ops, leaf, cutoff);
    PlanReady(plan, keys, ops, leaf, cutoff);
  }

  ghost function TreesOf(plan: seq<PlanNode>, keys: seq<nat>, ops: Ops, leaf: nat, cutoff: nat): (trees: seq<Tree>)
    requires InRange(plan, keys)
    ensures |trees| == |plan|
    ensures forall i: nat :: i < |plan| ==>
          InPlan(plan, keys, i) && trees[i] == Subtree(plan, keys, ops, leaf, cutoff, i)
  {
    seq(|plan|, i requires 0 <= i < |plan| => InRangeAt(plan, keys, i); Subtree(plan, keys, ops, leaf, cutoff, i))
  }

  ghost predicate InPlan(plan: seq<PlanNode>, keys: seq<nat>, i: nat)
    requires i < |plan|
  {
    plan[i].lo <= plan[i].hi <= |keys| && plan[i].level <= NLEVELS
  }

  lemma PlanReady(plan: seq<PlanNode>, keys: seq<nat>, ops: Ops, leaf: nat, cutoff: nat)
    requires Planned(plan, keys, cutoff, 0) && InRange(plan, keys) && |plan| > 0
    ensures Ready(plan, keys, ops, leaf, TreesOf(plan, keys, ops, leaf, cutoff))
  {
    hide Planned, InRange, Subtree, RangeOk, Build, SumKids, TreesOf;
    var trees := TreesOf(plan, keys, ops, leaf, cutoff);
    forall i: nat | i < |plan|
      ensures if plan[i].child == [] then Undivided(plan, keys, ops, leaf, trees, i) else Divided(plan, ops, trees, i)
    {
      assert InPlan(plan, keys, i);
      if plan[i].child == [] {
        UndividedAlike(plan, keys, ops, leaf, cutoff, i);
      } else {
        DividedAlike(plan, keys, ops, leaf, cutoff, i);
      }
    }
  }

  lemma SameRuns(keys: seq<nat>, cutoff: nat, rlo: seq<nat>, rhi: seq<nat>)
    requires RootRuns(keys, cutoff, rlo, rhi)
    ensures |rlo| == |rhi|
  {
    hide RootRun;
  }

  // Every rank's share of the counting.
  method CountAll(plan: seq<PlanNode>, keys: seq<nat>, ghost ops: Ops, leaf: nat, leaves: seq<nat>,
                  ghost ts: seq<Tree>, P: nat)
    returns (lsizes: seq<seq<nat>>, recs: seq<seq<SubRec>>)
    requires P > 0 && |ts| == |leaves|
    requires forall k: nat :: k < |leaves| ==> LeafReady(plan, keys, ops, leaf, leaves, ts, k)
    ensures AllCounted(ts, P, lsizes, recs)
  {
    hide Counted, LeafReady;
    lsizes, recs := [], [];
    var q := 0;
    while q < P
      invariant q == |lsizes| == |recs| <= P
      invariant forall m: nat :: m < q ==> Counted(ts, P, m, lsizes[m], recs[m], |ts|)
    {
      var lsize, rec := RankCount(plan, keys, ops, leaf, leaves, ts, P, q);
      lsizes, recs := lsizes + [lsize], recs + [rec];
      q := q + 1;
    }
  }

  // Where the plan's offsets put the leaves.
  method LeafOffsets(leaves: seq<nat>, off: seq<nat>, ghost plan: seq<PlanNode>, ghost ord: seq<int>,
                     ghost trees: seq<Tree>,
                     ghost ts: seq<Tree>, ghost size: seq<nat>, ghost total: nat)
    returns (at: seq<nat>)
    requires LeavesOf(plan, leaves, ord, |plan|) && LeafTrees(leaves, trees, ts) && SizesAre(trees, size)
    requires Offsets(off, size, total) && |plan| == |trees|
    ensures |at| == |leaves| <= |leaves| && Placed(ts, at, total)
    ensures |off| == |trees| && forall k :: 0 <= k < |leaves| ==> at[k] == off[leaves[k]]
  {
    hide Count, Offsets;
    OffsetLengths(off, size, total);
    at := seq<nat>(|leaves|, k requires 0 <= k < |leaves| => off[leaves[k]]);
    forall k | 0 <= k < |ts| ensures at[k] + Count(ts[k]) <= total { FitsTotal(off, size, total, leaves[k]); }
    forall k, m | 0 <= k < m < |ts| ensures at[k] + Count(ts[k]) <= at[m] {
      Apart(off, size, total, leaves[k], leaves[m]);
    }
  }

  lemma LeavesAllFolded(arr: seq<Node>, plan: seq<PlanNode>, leaves: seq<nat>, ord: seq<int>, trees: seq<Tree>,
                        ts: seq<Tree>,
                        off: seq<nat>, at: seq<nat>)
    requires LeavesOf(plan, leaves, ord, |plan|) && LeafTrees(leaves, trees, ts) && |plan| == |trees| == |off|
    requires |at| == |leaves| && forall k :: 0 <= k < |leaves| ==> at[k] == off[leaves[k]]
    requires forall k: nat :: k < |ts| ==> Packed(arr, at[k], ts[k])
    ensures LeavesFolded(arr, plan, trees, off, |plan|)
  {
    hide Packed;
    forall i | 0 <= i < |plan| && plan[i].child == [] ensures Packed(arr, off[i], trees[i]) {
      var k: nat := ord[i];
      assert Packed(arr, at[k], ts[k]);
    }
  }

  lemma LeafFolds(plan: seq<PlanNode>, keys: seq<nat>, ops: Ops, leaf: nat, leaves: seq<nat>, ts: seq<Tree>)
    requires |ts| == |leaves| && forall k: nat :: k < |leaves| ==> LeafReady(plan, keys, ops, leaf, leaves, ts, k)
    ensures AllFolded(ops, ts)
  {
    hide Folded, Build, RangeOk;
    forall k: nat | k < |ts| ensures Folded(ops, ts[k]) {
      assert LeafReady(plan, keys, ops, leaf, leaves, ts, k);
      var x := plan[leaves[k]];
      RangeBounds(keys, x.lo, x.hi, x.level);
      BuildFolded(keys, ops, x.lo, x.hi, x.level, leaf);
    }
  }

  // build_tree_spmd: for any number of ranks and any cutoff the array unfolds from
  // its first node to the plan's tree.  That is the tree the sequential build makes
  // of the same keys if and only if no leaf of the sequential tree above the last
  // level holds more bodies than the cutoff.
  method BuildTreeSpmd(keys: seq<nat>, ops: Ops, leaf: nat, cutoff: nat, P: nat) returns (arr: array<Node>)
    requires ValidKeys(keys) && P > 0
    ensures fresh(arr) && Represents(arr[..], 0, PlannedTree(keys, ops, 0, |keys|, 0, leaf, cutoff))
    ensures Represents(arr[..], 0, Build(keys, ops, 0, |keys|, 0, leaf))
       <==> !FatLeaf(Build(keys, ops, 0, |keys|, 0, leaf), 0, cutoff)
    ensures arr.Length > 0
    ensures forall h: Com -> seq<nat> :: BodyOrder.Reads(ops, h) ==> BodyOrder.InOrder(h(arr[0].com), 0, |keys|)
  {
    hide BodyOrder.Reads, BodyOrder.InOrder;
    hide ValidKeys, AllCounted, Represents, Offsets, Build, PlannedTree, FatLeaf, Count, Ready, LeafReady, AllFolded,
      Placed,
      Packed, LeavesOf, LeafTrees, SizesAre;
    var plan; ghost var trees;
    plan, trees := MakePlan(keys, ops, leaf, cutoff, P);
    SameLength(plan, keys, ops, leaf, trees);
    var leaves, ord := FindLeaves(plan);
    ghost var ts := PickTrees(plan, leaves, ord, trees);
    LeavesReady(plan, keys, ops, leaf, trees, leaves, ord, ts);
    LeafFolds(plan, keys, ops, leaf, leaves, ts);
    var lsizes, recs := CountAll(plan, keys, ops, leaf, leaves, ts, P);
    var lsize := CombineSizes(ts, P, |leaves|, lsizes, recs);
    var size := SubtreeSizes(plan, keys, ops, leaf, trees, leaves, ord, ts, lsize);
    var off, total := PrefixOffsets(size);
    var at := LeafOffsets(leaves, off, plan, ord, trees, ts, size, total);
    arr := new Node[total](_ => Node(0, 0, false, ops.zero, []));
    FoldAll(ops, ts, |leaves|, lsize, at, P, lsizes, recs, arr);
    LeavesAllFolded(arr[..], plan, leaves, ord, trees, ts, off, at);
    Assemble(plan, keys, ops, leaf, trees, size, off, total, arr);
    StartsFirst(off, size, total);
    ExactlyWhen(keys, ops, leaf, cutoff, arr[..]);
    RootHoldsAll(keys, ops, leaf, cutoff, arr[..]);
    assert arr[..][0] == arr[0];
  }

  lemma RootHoldsAll(keys: seq<nat>, ops: Ops, leaf: nat, cutoff: nat, arr: seq<Node>)
    requires Represents(arr, 0, PlannedTree(keys, ops, 0, |keys|, 0, leaf, cutoff))
    ensures |arr| > 0
    ensures forall h: Com -> seq<nat> :: BodyOrder.Reads(ops, h) ==> BodyOrder.InOrder(h(arr[0].com), 0, |keys|)
  {
    hide BodyOrder.Reads, BodyOrder.InOrder, PlannedTree;
    forall h: Com -> seq<nat> | BodyOrder.Reads(ops, h) ensures BodyOrder.InOrder(h(arr[0].com), 0, |keys|) {
      PlannedAddsAll(keys, ops, h, 0, |keys|, 0, leaf, cutoff);
    }
  }

  lemma PickTrees(plan: seq<PlanNode>, leaves: seq<nat>, ord: seq<int>, trees: seq<Tree>) returns (ts: seq<Tree>)
    requires LeavesOf(plan, leaves, ord, |plan|) && |trees| == |plan|
    ensures LeafTrees(leaves, trees, ts) && |ts| == |leaves|
  {
    ts := seq(|leaves|, k requires 0 <= k < |leaves| => trees[leaves[k]]);
  }

  lemma StartsFirst(off: seq<nat>, size: seq<nat>, total: nat)
    requires Offsets(off, size, total) && |off| > 0
    ensures off[0] == 0
  {
    assert size[..0] == [];
  }

  lemma ExactlyWhen(keys: seq<nat>, ops: Ops, leaf: nat, cutoff: nat, arr: seq<Node>)
    requires ValidKeys(keys) && Represents(arr, 0, PlannedTree(keys, ops, 0, |keys|, 0, leaf, cutoff))
    ensures Represents(arr, 0, Build(keys, ops, 0, |keys|, 0, leaf))
       <==> !FatLeaf(Build(keys, ops, 0, |keys|, 0, leaf), 0, cutoff)
  {
    hide Represents, Build, PlannedTree, FatLeaf, ValidKeys;
    PlannedExactly(keys, ops, 0, |keys|, 0, leaf, cutoff);
    if Represents(arr, 0, Build(keys, ops, 0, |keys|, 0, leaf)) {
      UnfoldsOnce(arr, 0, Build(keys, ops, 0, |keys|, 0, leaf), PlannedTree(keys, ops, 0, |keys|, 0, leaf, cutoff));
    }
  }

  // The two builds side by side: whatever the numbers of ranks and the holes, they
  // unfold to the same trees exactly then.
  method SameUnfolding(keys: seq<nat>, ops: Ops, leaf: nat, cutoff: nat, P: nat)
    returns (arr: array<Node>, vec: seq<Node>)
    requires ValidKeys(keys) && P > 0
    ensures (forall t :: Represents(arr[..], 0, t) <==> Represents(vec, 0, t))
       <==> !FatLeaf(Build(keys, ops, 0, |keys|, 0, leaf), 0, cutoff)
  {
    hide ValidKeys, Represents, Build, PlannedTree, FatLeaf, Packed;
    arr := BuildTreeSpmd(keys, ops, leaf, cutoff, P);
    RootRange(keys);
    vec := BuildRecDirect(keys, ops, 0, |keys|, 0, leaf, []);
    ghost var a, b := PlannedTree(keys, ops, 0, |keys|, 0, leaf, cutoff), Build(keys, ops, 0, |keys|, 0, leaf);
    PackedRepresents(vec, 0, b);
    forall t ensures Represents(arr[..], 0, t) ==> t == a {
      if Represents(arr[..], 0, t) { UnfoldsOnce(arr[..], 0, t, a); }
    }
    forall t ensures Represents(vec, 0, t) ==> t == b {
      if Represents(vec, 0, t) { UnfoldsOnce(vec, 0, t, b); }
    }
  }

  // In particular with a cutoff no smaller than the leaf size.
  lemma LargeCutoff(keys: seq<nat>, ops: Ops, leaf: nat, cutoff: nat)
    requires ValidKeys(keys) && leaf <= cutoff
    ensures !FatLeaf(Build(keys, ops, 0, |keys|, 0, leaf), 0, cutoff)
  {
    hide ValidKeys, Build, FatLeaf;
    NoFatLeaf(keys, ops, 0, |keys|, 0, leaf, cutoff);
  }

  // Below that it can differ: two bodies, leaf 2, cutoff 1.
  lemma SmallCutoffDiffers(ops: Ops, keys: seq<nat>)
    requires ValidKeys(keys) && |keys| == 2
    ensures FatLeaf(Build(keys, ops, 0, 2, 0, 2), 0, 1)
    ensures PlannedTree(keys, ops, 0, 2, 0, 2, 1) != Build(keys, ops, 0, 2, 0, 2)
  {
    hide ValidKeys, PlannedTree;
    PlannedExactly(keys, ops, 0, 2, 0, 2, 1);
  }

  function Power8(m: nat): (p: nat)
    ensures p > 0
  {
    if m == 0 then 1 else 8 * Power8(m - 1)
  }

  lemma {:induction false} ShrFirst(key: nat, m: nat)
    requires m > 0
    ensures Shr(key, m) == Shr(key / 8, m - 1)
  {
    if m > 1 { ShrFirst(key, m - 1); }
  }

  lemma {:induction false} PowerShifted(m: nat)
    ensures Shr(Power8(m), m) == 1
    ensures m > 0 ==> Shr(Power8(m) + Power8(m - 1), m) == 1
  {
    if m > 0 {
      PowerShifted(m - 1);
      ShrFirst(Power8(m), m);
      ShrFirst(Power8(m) + Power8(m - 1), m);
      if m > 1 {
        assert (Power8(m) + Power8(m - 1)) / 8 == Power8(m - 1) + Power8(m - 2);
      } else {
        assert Power8(0) == 1 && Power8(1) == 8;
      }
    }
  }

  // For one, a body at the low corner and one in the next octant.
  lemma SmallCutoffExample(ops: Ops)
    ensures var keys := [Power8(NLEVELS + 1), Power8(NLEVELS + 1) + Power8(NLEVELS)];
            ValidKeys(keys) && PlannedTree(keys, ops, 0, 2, 0, 2, 1) != Build(keys, ops, 0, 2, 0, 2)
  {
    hide PlannedTree, Build, Shr, Power8;
    PowerShifted(NLEVELS + 1);
    SmallCutoffDiffers(ops, [Power8(NLEVELS + 1), Power8(NLEVELS + 1) + Power8(NLEVELS)]);
  }
}
