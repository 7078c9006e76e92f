// The plan of the cooperative build: the upper part of the tree, cut where a
// range is small enough to be one rank's work, put together from the sub-plans
// of all ranks.
module BuildPlan {
  import opened Octree
  import BodyOrder

  // The program's entries also hold the off and size computed later; here those
  // are sequences of their own.
  datatype PlanNode = PlanNode(lo: nat, hi: nat, level: nat, parent: int, child: seq<nat>)

  // Where child k's range starts: at the node's own start, or where the previous
  // child's ends.
  function StartOf(plan: seq<PlanNode>, i: nat, k: nat): nat
    requires i < |plan| && k <= |plan[i].child|
    requires forall m :: 0 <= m < |plan[i].child| ==> plan[i].child[m] < |plan|
  {
    if k == 0 then plan[i].lo else plan[plan[i].child[k - 1]].hi
  }

  ghost predicate Linked(plan: seq<PlanNode>, i: nat)
    requires i < |plan|
  {
    forall m :: 0 <= m < |plan[i].child| ==> i < plan[i].child[m] < |plan|
  }

  // Child k is the run of equal digits where the previous one ends.
  ghost predicate RunChild(plan: seq<PlanNode>, keys: seq<nat>, i: nat, k: nat)
    requires i < |plan| && k < |plan[i].child| && Linked(plan, i)
  {
    var x, at := plan[i], StartOf(plan, i, k);
    && at < x.hi <= |keys| && x.level < NLEVELS
    && var c := plan[x.child[k]];
       c.lo == at && c.level == x.level + 1 && c.hi == RunEnd(keys, at + 1, x.hi, x.level, Octant(keys[at], x.level))
  }

  // One entry: an undivided range, or one divided into its runs.
  ghost predicate Entry(plan: seq<PlanNode>, keys: seq<nat>, cutoff: nat, i: nat)
    requires i < |plan|
  {
    var x := plan[i];
    && RangeOk(keys, x.lo, x.hi, x.level) && Linked(plan, i)
    && (Stops(x.lo, x.hi, x.level, cutoff) ==> x.child == [])
    && (!Stops(x.lo, x.hi, x.level, cutoff) ==> StartOf(plan, i, |x.child|) == x.hi)
    && forall k: nat :: k < |x.child| ==> RunChild(plan, keys, i, k)
  }

  // Entries only look at their own children.
  lemma EntryFrame(a: seq<PlanNode>, b: seq<PlanNode>, keys: seq<nat>, cutoff: nat, i: nat)
    requires i < |a| <= |b| && Entry(a, keys, cutoff, i) && Shape(b[i]) == Shape(a[i])
    requires forall m :: 0 <= m < |a[i].child| ==>
          a[i].child[m] < |a| && Shape(b[a[i].child[m]]) == Shape(a[a[i].child[m]])
    ensures Entry(b, keys, cutoff, i)
  {
    hide Octant, RangeOk, Stops;
    forall k: nat | k < |b[i].child| ensures RunChild(b, keys, i, k) {
      assert RunChild(a, keys, i, k);
    }
  }

  function Shape(x: PlanNode): (nat, nat, nat, seq<nat>) {
    (x.lo, x.hi, x.level, x.child)
  }

  ghost predicate Planned(plan: seq<PlanNode>, keys: seq<nat>, cutoff: nat, from: nat)
  {
    forall i :: from <= i < |plan| ==> Entry(plan, keys, cutoff, i)
  }

  // The children of entry idx found so far, up to position at.
  ghost predicate HalfEntry(plan: seq<PlanNode>, keys: seq<nat>, idx: nat, at: nat)
    requires idx < |plan|
  {
    && Linked(plan, idx) && StartOf(plan, idx, |plan[idx].child|) == at
    && forall k: nat :: k < |plan[idx].child| ==> RunChild(plan, keys, idx, k)
  }

  lemma OneMoreRun(a: seq<PlanNode>, b: seq<PlanNode>, keys: seq<nat>, idx: nat, at: nat, j: nat)
    requires idx < |a| < |b| && HalfEntry(a, keys, idx, at) && at < a[idx].hi <= |keys| && a[idx].level < NLEVELS
    requires b[idx] == a[idx].(child := a[idx].child + [|a|])
    requires forall i :: 0 <= i < |a| && i != idx ==> b[i] == a[i]
    requires b[|a|].lo == at && b[|a|].hi == j && b[|a|].level == a[idx].level + 1
    requires j == RunEnd(keys, at + 1, a[idx].hi, a[idx].level, Octant(keys[at], a[idx].level))
    ensures HalfEntry(b, keys, idx, j)
  {
    hide Octant;
    forall k: nat | k < |b[idx].child| ensures RunChild(b, keys, idx, k) {
      if k < |a[idx].child| { assert RunChild(a, keys, idx, k); }
    }
  }

  // plan_node_struct
  method PlanNodeStruct(plan0: seq<PlanNode>, keys: seq<nat>, lo: nat, hi: nat, level: nat, cutoff: nat, parent: int)
    returns (plan: seq<PlanNode>)
    requires RangeOk(keys, lo, hi, level)
    ensures |plan0| < |plan| && plan[..|plan0|] == plan0
    ensures Planned(plan, keys, cutoff, |plan0|)
    ensures plan[|plan0|].lo == lo && plan[|plan0|].hi == hi && plan[|plan0|].level == level
    decreases NLEVELS - level
  {
    hide RangeOk, Octant, RunEnd, Entry, Planned, HalfEntry;
    RangeBounds(keys, lo, hi, level);
    var idx := |plan0|;
    plan := plan0 + [PlanNode(lo, hi, level, parent, [])];
    if hi - lo <= cutoff || level >= NLEVELS {
      LeafEntry(plan, keys, cutoff, idx);
      return;
    }
    var i := 0;
    NoRuns(plan, keys, idx);
    while i < hi - lo
      invariant i <= hi - lo && idx < |plan| && plan[..idx] == plan0
      invariant plan[idx].lo == lo && plan[idx].hi == hi && plan[idx].level == level
      invariant HalfEntry(plan, keys, idx, lo + i) && Planned(plan, keys, cutoff, idx + 1)
    {
      var c := Octant(keys[lo + i], level);
      SubRange(keys, lo, hi, level, lo + i);
      var end := OctantRunEnd(keys, lo + i + 1, hi, level, c);
      ChildRange(keys, lo, hi, level, lo + i, end);
      ghost var before := plan;
      plan := plan[idx := plan[idx].(child := plan[idx].child + [|plan|])];
      var grown := PlanNodeStruct(plan, keys, lo + i, end, level + 1, cutoff, idx);
      Grown(before, plan, grown, keys, cutoff, idx);
      OneMoreRun(before, grown, keys, idx, lo + i, end);
      plan := grown;
      i := end - lo;
    }
    WholeEntry(plan, keys, cutoff, idx);
  }

  lemma LeafEntry(plan: seq<PlanNode>, keys: seq<nat>, cutoff: nat, idx: nat)
    requires idx == |plan| - 1 && plan[idx].child == [] && RangeOk(keys, plan[idx].lo, plan[idx].hi, plan[idx].level)
    requires Stops(plan[idx].lo, plan[idx].hi, plan[idx].level, cutoff)
    ensures Planned(plan, keys, cutoff, idx)
  {
    hide RangeOk;
  }

  lemma NoRuns(plan: seq<PlanNode>, keys: seq<nat>, idx: nat)
    requires idx == |plan| - 1 && plan[idx].child == []
    ensures HalfEntry(plan, keys, idx, plan[idx].lo)
    ensures forall cutoff :: Planned(plan, keys, cutoff, |plan|)
  {
  }

  // Adding a child to idx and planning it keeps the entries behind idx.
  lemma Grown(before: seq<PlanNode>, linked: seq<PlanNode>, plan: seq<PlanNode>, keys: seq<nat>, cutoff: nat, idx: nat)
    requires idx < |before| == |linked| < |plan| && plan[..|linked|] == linked
    requires linked == before[idx := linked[idx]]
    requires Planned(before, keys, cutoff, idx + 1) && Planned(plan, keys, cutoff, |linked|)
    ensures Planned(plan, keys, cutoff, idx + 1)
    ensures forall i :: 0 <= i < |linked| ==> plan[i] == linked[i]
  {
    hide Entry, Shape;
    assert forall i :: 0 <= i < |linked| ==> plan[i] == plan[..|linked|][i];
    forall i | idx + 1 <= i < |plan| ensures Entry(plan, keys, cutoff, i) {
      if i < |before| {
        EntryLinks(before, keys, cutoff, i);
        EntryFrame(before, plan, keys, cutoff, i);
      }
    }
  }

  lemma EntryLinks(plan: seq<PlanNode>, keys: seq<nat>, cutoff: nat, i: nat)
    requires i < |plan| && Entry(plan, keys, cutoff, i)
    ensures forall m :: 0 <= m < |plan[i].child| ==> i < plan[i].child[m] < |plan|
  {
    hide RangeOk, RunChild;
  }

  lemma WholeEntry(plan: seq<PlanNode>, keys: seq<nat>, cutoff: nat, idx: nat)
    requires idx < |plan| && RangeOk(keys, plan[idx].lo, plan[idx].hi, plan[idx].level)
    requires HalfEntry(plan, keys, idx, plan[idx].hi) && !Stops(plan[idx].lo, plan[idx].hi, plan[idx].level, cutoff)
    requires Planned(plan, keys, cutoff, idx + 1)
    ensures Planned(plan, keys, cutoff, idx)
  {
    hide RangeOk, RunChild, Stops;
    assert Entry(plan, keys, cutoff, idx);
  }

  // ---------------- what the plan stands for ----------------

  // The tree the plan and its ranks make of a range: divided above the cutoff,
  // whatever the leaf size, and built as usual below.
  function PlannedKids(keys: seq<nat>, ops: Ops, i: nat, hi: nat, level: nat, leaf: nat, cutoff: nat): seq<Tree>
    requires i <= hi <= |keys| && level < NLEVELS
    decreases NLEVELS - level, hi - i
  {
    if i == hi then []
    else
      var j := RunEnd(keys, i + 1, hi, level, Octant(keys[i], level));
      [PlannedTree(keys, ops, i, j, level + 1, leaf, cutoff)] + PlannedKids(keys, ops, j, hi, level, leaf, cutoff)
  }

  function PlannedTree(keys: seq<nat>, ops: Ops, lo: nat, hi: nat, level: nat, leaf: nat, cutoff: nat): Tree
    requires lo <= hi <= |keys| && level <= NLEVELS
    decreases NLEVELS - level, |keys| + 1
  {
    if Stops(lo, hi, level, cutoff) then Build(keys, ops, lo, hi, level, leaf)
    else
      var kids := PlannedKids(keys, ops, lo, hi, level, leaf, cutoff);
      Tree(lo, hi - lo, false, ops.fin(SumKids(ops, kids)), kids)
  }

  function Subtree(plan: seq<PlanNode>, keys: seq<nat>, ops: Ops, leaf: nat, cutoff: nat, i: nat): Tree
    requires i < |plan| && plan[i].lo <= plan[i].hi <= |keys| && plan[i].level <= NLEVELS
  {
    PlannedTree(keys, ops, plan[i].lo, plan[i].hi, plan[i].level, leaf, cutoff)
  }

  ghost predicate InRange(plan: seq<PlanNode>, keys: seq<nat>) {
    forall i :: 0 <= i < |plan| ==> plan[i].lo <= plan[i].hi <= |keys| && plan[i].level <= NLEVELS
  }

  lemma PlannedInRange(plan: seq<PlanNode>, keys: seq<nat>, cutoff: nat)
    requires Planned(plan, keys, cutoff, 0)
    ensures InRange(plan, keys)
  {
    hide Shr, RunChild;
    forall i | 0 <= i < |plan| ensures plan[i].lo <= plan[i].hi <= |keys| && plan[i].level <= NLEVELS {
      assert Entry(plan, keys, cutoff, i);
    }
  }

  // From child k on, the children are what the sequential build makes there.
  lemma {:induction false} KidsFrom(plan: seq<PlanNode>, keys: seq<nat>, ops: Ops, leaf: nat, cutoff: nat, i: nat,
                                    k: nat)
    requires Planned(plan, keys, cutoff, 0) && InRange(plan, keys) && i < |plan| && plan[i].child != []
    requires Linked(plan, i)
    requires k <= |plan[i].child| && plan[i].level < NLEVELS && StartOf(plan, i, k) <= plan[i].hi
    ensures var kids := PlannedKids(keys, ops, StartOf(plan, i, k), plan[i].hi, plan[i].level, leaf, cutoff);
            |kids| == |plan[i].child| - k
            && forall m :: 0 <= m < |kids| ==> kids[m] == Subtree(plan, keys, ops, leaf, cutoff, plan[i].child[k + m])
    decreases |plan[i].child| - k
  {
    hide Octant, RangeOk, Planned, InRange, PlannedTree;
    EntryAt(plan, keys, cutoff, i);
    if k < |plan[i].child| {
      assert RunChild(plan, keys, i, k);
      KidsFrom(plan, keys, ops, leaf, cutoff, i, k + 1);
      var rest := PlannedKids(keys, ops, StartOf(plan, i, k + 1), plan[i].hi, plan[i].level, leaf, cutoff);
      var kids := PlannedKids(keys, ops, StartOf(plan, i, k), plan[i].hi, plan[i].level, leaf, cutoff);
      InRangeAt(plan, keys, plan[i].child[k]);
      assert kids == [Subtree(plan, keys, ops, leaf, cutoff, plan[i].child[k])] + rest;
    }
  }

  lemma EntryAt(plan: seq<PlanNode>, keys: seq<nat>, cutoff: nat, i: nat)
    requires Planned(plan, keys, cutoff, 0) && i < |plan|
    ensures Entry(plan, keys, cutoff, i)
  {
    hide Entry;
  }

  lemma InRangeAt(plan: seq<PlanNode>, keys: seq<nat>, i: nat)
    requires InRange(plan, keys) && i < |plan|
    ensures plan[i].lo <= plan[i].hi <= |keys| && plan[i].level <= NLEVELS
  {
  }

  // A divided entry has its children's trees, in order.
  lemma DividedAlike(plan: seq<PlanNode>, keys: seq<nat>, ops: Ops, leaf: nat, cutoff: nat, i: nat)
    requires Planned(plan, keys, cutoff, 0) && InRange(plan, keys) && i < |plan| && plan[i].child != []
    ensures var t := Subtree(plan, keys, ops, leaf, cutoff, i);
            && !t.leaf && t.first == plan[i].lo && t.count == plan[i].hi - plan[i].lo
            && t.com == ops.fin(SumKids(ops, t.kids)) && |t.kids| == |plan[i].child|
            && forall m :: 0 <= m < |t.kids| ==>
                 i < plan[i].child[m] < |plan| && t.kids[m] == Subtree(plan, keys, ops, leaf, cutoff, plan[i].child[m])
  {
    hide Octant, RangeOk, Planned, InRange, PlannedKids, PlannedTree, RunChild, SumKids;
    EntryAt(plan, keys, cutoff, i);
    InRangeAt(plan, keys, i);
    KidsFrom(plan, keys, ops, leaf, cutoff, i, 0);
    PlannedDivided(keys, ops, plan[i].lo, plan[i].hi, plan[i].level, leaf, cutoff);
  }

  lemma PlannedDivided(keys: seq<nat>, ops: Ops, lo: nat, hi: nat, level: nat, leaf: nat, cutoff: nat)
    requires lo <= hi <= |keys| && level <= NLEVELS && !Stops(lo, hi, level, cutoff)
    ensures var kids := PlannedKids(keys, ops, lo, hi, level, leaf, cutoff);
            PlannedTree(keys, ops, lo, hi, level, leaf, cutoff)
                == Tree(lo, hi - lo, false, ops.fin(SumKids(ops, kids)), kids)
  {
    hide PlannedKids, SumKids;
  }

  // An undivided one has the tree the sequential build makes of its range.
  lemma UndividedAlike(plan: seq<PlanNode>, keys: seq<nat>, ops: Ops, leaf: nat, cutoff: nat, i: nat)
    requires Planned(plan, keys, cutoff, 0) && InRange(plan, keys) && i < |plan| && plan[i].child == []
    ensures var x := plan[i];
            && RangeOk(keys, x.lo, x.hi, x.level) && x.lo <= x.hi <= |keys| && x.level <= NLEVELS
            && Subtree(plan, keys, ops, leaf, cutoff, i) == Build(keys, ops, x.lo, x.hi, x.level, leaf)
  {
    hide Octant, RangeOk, Planned, InRange, Build, RunChild;
    EntryAt(plan, keys, cutoff, i);
    InRangeAt(plan, keys, i);
  }

  // ---------------- when the plan's tree is the sequential one ----------------

  // A leaf of the sequential tree, above the last level, with more bodies than the
  // cutoff: there the plan divides and the sequential build does not.
  predicate FatLeaf(t: Tree, level: nat, cutoff: nat)
    decreases t
  {
    if t.leaf then level < NLEVELS && t.count > cutoff
    else exists k :: 0 <= k < |t.kids| && FatLeaf(t.kids[k], level + 1, cutoff)
  }

  lemma {:induction false} SmallKids(keys: seq<nat>, ops: Ops, i: nat, hi: nat, level: nat, leaf: nat, cutoff: nat)
    requires i <= hi <= |keys| && level < NLEVELS && hi - i <= cutoff
    ensures forall k :: 0 <= k < |BuildKids(keys, ops, i, hi, level, leaf)| ==>
              !FatLeaf(BuildKids(keys, ops, i, hi, level, leaf)[k], level + 1, cutoff)
    decreases NLEVELS - level, hi - i
  {
    hide Octant, Build, FatLeaf;
    if i < hi {
      var j := RunEnd(keys, i + 1, hi, level, Octant(keys[i], level));
      SmallBuild(keys, ops, i, j, level + 1, leaf, cutoff);
      SmallKids(keys, ops, j, hi, level, leaf, cutoff);
    }
  }

  lemma {:induction false} SmallBuild(keys: seq<nat>, ops: Ops, lo: nat, hi: nat, level: nat, leaf: nat, cutoff: nat)
    requires lo <= hi <= |keys| && level <= NLEVELS && Stops(lo, hi, level, cutoff)
    ensures !FatLeaf(Build(keys, ops, lo, hi, level, leaf), level, cutoff)
    decreases NLEVELS - level, |keys| + 1
  {
    hide BuildKids;
    if !Stops(lo, hi, level, leaf) { SmallKids(keys, ops, lo, hi, level, leaf, cutoff); }
  }

  lemma {:induction false} KidsExactly(keys: seq<nat>, ops: Ops, i: nat, hi: nat, level: nat, leaf: nat, cutoff: nat)
    requires i <= hi <= |keys| && level < NLEVELS
    ensures var a, b := PlannedKids(keys, ops, i, hi, level, leaf, cutoff), BuildKids(keys, ops, i, hi, level, leaf);
            |a| == |b| && (a == b <==> forall k :: 0 <= k < |b| ==> !FatLeaf(b[k], level + 1, cutoff))
    decreases NLEVELS - level, hi - i
  {
    hide Octant, Build, PlannedTree, FatLeaf;
    if i < hi {
      var j := RunEnd(keys, i + 1, hi, level, Octant(keys[i], level));
      PlannedExactly(keys, ops, i, j, level + 1, leaf, cutoff);
      KidsExactly(keys, ops, j, hi, level, leaf, cutoff);
      ConsExactly(PlannedTree(keys, ops, i, j, level + 1, leaf, cutoff),
            PlannedKids(keys, ops, j, hi, level, leaf, cutoff),
                  Build(keys, ops, i, j, level + 1, leaf), BuildKids(keys, ops, j, hi, level, leaf), level + 1, cutoff);
    }
  }

  lemma ConsExactly(a: Tree, rest: seq<Tree>, b: Tree, bs: seq<Tree>, level: nat, cutoff: nat)
    requires |rest| == |bs| && (a == b <==> !FatLeaf(b, level, cutoff))
    requires rest == bs <==> forall k :: 0 <= k < |bs| ==> !FatLeaf(bs[k], level, cutoff)
    ensures [a] + rest == [b] + bs <==> forall k :: 0 <= k < |[b] + bs| ==> !FatLeaf(([b] + bs)[k], level, cutoff)
  {
    hide FatLeaf;
    assert ([a] + rest)[0] == a && ([a] + rest)[1..] == rest && ([b] + bs)[0] == b && ([b] + bs)[1..] == bs;
    if k :| 0 <= k < |bs| && FatLeaf(bs[k], level, cutoff) {
      assert ([b] + bs)[k + 1] == bs[k];
    }
  }

  // The plan's tree is the sequential one exactly when no sequential leaf is fat.
  lemma {:induction false} PlannedExactly(keys: seq<nat>, ops: Ops, lo: nat, hi: nat, level: nat, leaf: nat,
                                          cutoff: nat)
    requires lo <= hi <= |keys| && level <= NLEVELS
    ensures PlannedTree(keys, ops, lo, hi, level, leaf, cutoff) == Build(keys, ops, lo, hi, level, leaf)
       <==> !FatLeaf(Build(keys, ops, lo, hi, level, leaf), level, cutoff)
    decreases NLEVELS - level, |keys| + 1
  {
    hide BuildKids, PlannedKids;
    if Stops(lo, hi, level, cutoff) {
      SmallBuild(keys, ops, lo, hi, level, leaf, cutoff);
    } else if !Stops(lo, hi, level, leaf) {
      KidsExactly(keys, ops, lo, hi, level, leaf, cutoff);
    }
  }

  lemma {:induction false} NoFatKids(keys: seq<nat>, ops: Ops, i: nat, hi: nat, level: nat, leaf: nat, cutoff: nat)
    requires i <= hi <= |keys| && level < NLEVELS && leaf <= cutoff
    ensures forall k :: 0 <= k < |BuildKids(keys, ops, i, hi, level, leaf)| ==>
              !FatLeaf(BuildKids(keys, ops, i, hi, level, leaf)[k], level + 1, cutoff)
    decreases NLEVELS - level, hi - i
  {
    hide Octant, Build, FatLeaf;
    if i < hi {
      var j := RunEnd(keys, i + 1, hi, level, Octant(keys[i], level));
      NoFatLeaf(keys, ops, i, j, level + 1, leaf, cutoff);
      NoFatKids(keys, ops, j, hi, level, leaf, cutoff);
    }
  }

  // A cutoff of at least the leaf size leaves no leaf fat.
  lemma {:induction false} NoFatLeaf(keys: seq<nat>, ops: Ops, lo: nat, hi: nat, level: nat, leaf: nat, cutoff: nat)
    requires lo <= hi <= |keys| && level <= NLEVELS && leaf <= cutoff
    ensures !FatLeaf(Build(keys, ops, lo, hi, level, leaf), level, cutoff)
    decreases NLEVELS - level, |keys| + 1
  {
    hide BuildKids;
    if !Stops(lo, hi, level, leaf) { NoFatKids(keys, ops, lo, hi, level, leaf, cutoff); }
  }

  // ---------------- what the planned tree's moments hold ----------------

  // However the plan divides a range, its root's moments hold exactly its bodies.
  lemma {:induction false} PlannedAddsAll(keys: seq<nat>, ops: Ops, h: Com -> seq<nat>, lo: nat, hi: nat, level: nat,
                                          leaf: nat, cutoff: nat)
    requires lo <= hi <= |keys| && level <= NLEVELS && BodyOrder.Reads(ops, h)
    ensures BodyOrder.InOrder(h(PlannedTree(keys, ops, lo, hi, level, leaf, cutoff).com), lo, hi)
    decreases NLEVELS - level, |keys| + 1
  {
    hide BodyOrder.InOrder, SumKids, PlannedKids, Build, Octant;
    if Stops(lo, hi, level, cutoff) {
      BodyOrder.BuildAddsAll(keys, ops, h, lo, hi, level, leaf);
    } else {
      PlannedKidsAddAll(keys, ops, h, lo, hi, level, leaf, cutoff);
    }
  }

  lemma {:induction false} PlannedKidsAddAll(keys: seq<nat>, ops: Ops, h: Com -> seq<nat>, i: nat, hi: nat, level: nat,
                                             leaf: nat, cutoff: nat)
    requires i <= hi <= |keys| && level < NLEVELS && BodyOrder.Reads(ops, h)
    ensures BodyOrder.InOrder(h(SumKids(ops, PlannedKids(keys, ops, i, hi, level, leaf, cutoff))), i, hi)
    decreases NLEVELS - level, hi - i
  {
    hide Octant, PlannedTree, BodyOrder.Reads;
    if i == hi {
      BodyOrder.NoneRead(ops, h, i);
    } else {
      var j := RunEnd(keys, i + 1, hi, level, Octant(keys[i], level));
      var kid := PlannedTree(keys, ops, i, j, level + 1, leaf, cutoff);
      var rest := PlannedKids(keys, ops, j, hi, level, leaf, cutoff);
      PlannedAddsAll(keys, ops, h, i, j, level + 1, leaf, cutoff);
      PlannedKidsAddAll(keys, ops, h, j, hi, level, leaf, cutoff);
      BodyOrder.FirstKidRead(ops, h, kid, rest);
      BodyOrder.Joined(h(kid.com), h(SumKids(ops, rest)), i, j, hi);
    }
  }

  // So do all its nodes' moments, each for its own range.
  lemma {:induction false} PlannedWhole(keys: seq<nat>, ops: Ops, h: Com -> seq<nat>, lo: nat, hi: nat, level: nat,
                                        leaf: nat, cutoff: nat)
    requires lo <= hi <= |keys| && level <= NLEVELS && BodyOrder.Reads(ops, h)
    ensures BodyOrder.Whole(h, PlannedTree(keys, ops, lo, hi, level, leaf, cutoff))
    decreases NLEVELS - level, |keys| + 1
  {
    hide BodyOrder.InOrder, SumKids, PlannedKids, Build, Octant, BodyOrder.Reads;
    if Stops(lo, hi, level, cutoff) {
      BodyOrder.BuildWhole(keys, ops, h, lo, hi, level, leaf);
    } else {
      PlannedAddsAll(keys, ops, h, lo, hi, level, leaf, cutoff);
      PlannedKidsWhole(keys, ops, h, lo, hi, level, leaf, cutoff);
    }
  }

  lemma {:induction false} PlannedKidsWhole(keys: seq<nat>, ops: Ops, h: Com -> seq<nat>, i: nat, hi: nat, level: nat,
                                            leaf: nat, cutoff: nat)
    requires i <= hi <= |keys| && level < NLEVELS && BodyOrder.Reads(ops, h)
    ensures var kids := PlannedKids(keys, ops, i, hi, level, leaf, cutoff);
            BodyOrder.Tiles(kids, i, hi) && (kids == [] <==> i == hi)
            && forall k :: 0 <= k < |kids| ==> BodyOrder.Whole(h, kids[k])
    decreases NLEVELS - level, hi - i
  {
    hide Octant, PlannedTree, BodyOrder.Reads, BodyOrder.Whole;
    if i < hi {
      var j := RunEnd(keys, i + 1, hi, level, Octant(keys[i], level));
      var kid := PlannedTree(keys, ops, i, j, level + 1, leaf, cutoff);
      var rest := PlannedKids(keys, ops, j, hi, level, leaf, cutoff);
      PlannedWhole(keys, ops, h, i, j, level + 1, leaf, cutoff);
      PlannedKidsWhole(keys, ops, h, j, hi, level, leaf, cutoff);
      PlannedSpan(keys, ops, i, j, level + 1, leaf, cutoff);
      assert ([kid] + rest)[1..] == rest;
    }
  }

  lemma PlannedSpan(keys: seq<nat>, ops: Ops, lo: nat, hi: nat, level: nat, leaf: nat, cutoff: nat)
    requires lo <= hi <= |keys| && level <= NLEVELS
    ensures var t := PlannedTree(keys, ops, lo, hi, level, leaf, cutoff); t.first == lo && t.count == hi - lo
  {
    hide PlannedKids, BuildKids;
  }

  // ... finalized once a node.
  lemma {:induction false} PlannedFinishesOnce(keys: seq<nat>, ops: Ops, g: Com -> nat, lo: nat, hi: nat, level: nat,
                                               leaf: nat, cutoff: nat)
    requires lo <= hi <= |keys| && level <= NLEVELS && BodyOrder.Counts(ops, g)
    ensures var t := PlannedTree(keys, ops, lo, hi, level, leaf, cutoff); g(t.com) == Count(t)
    decreases NLEVELS - level, |keys| + 1
  {
    hide SumKids, PlannedKids, Build, Octant;
    if Stops(lo, hi, level, cutoff) {
      BodyOrder.BuildFinishesOnce(keys, ops, g, lo, hi, level, leaf);
    } else {
      PlannedKidsFinishOnce(keys, ops, g, lo, hi, level, leaf, cutoff);
    }
  }

  lemma {:induction false} PlannedKidsFinishOnce(keys: seq<nat>, ops: Ops, g: Com -> nat, i: nat, hi: nat, level: nat,
                                                 leaf: nat, cutoff: nat)
    requires i <= hi <= |keys| && level < NLEVELS && BodyOrder.Counts(ops, g)
    ensures var kids := PlannedKids(keys, ops, i, hi, level, leaf, cutoff); g(SumKids(ops, kids)) == CountKids(kids)
    decreases NLEVELS - level, hi - i
  {
    hide Octant, PlannedTree, Count;
    if i < hi {
      var j := RunEnd(keys, i + 1, hi, level, Octant(keys[i], level));
      var kid := PlannedTree(keys, ops, i, j, level + 1, leaf, cutoff);
      PlannedFinishesOnce(keys, ops, g, i, j, level + 1, leaf, cutoff);
      PlannedKidsFinishOnce(keys, ops, g, j, hi, level, leaf, cutoff);
      BodyOrder.FirstKidCounted(ops, g, kid, PlannedKids(keys, ops, j, hi, level, leaf, cutoff));
    }
  }

  // ---------------- no more than eight children ----------------

  lemma {:induction false} DigitsGrow(plan: seq<PlanNode>, keys: seq<nat>, cutoff: nat, i: nat, k: nat)
    requires i < |plan| && Entry(plan, keys, cutoff, i) && k < |plan[i].child|
    ensures plan[i].lo <= StartOf(plan, i, k) < plan[i].hi <= |keys| && plan[i].level < NLEVELS
    ensures Octant(keys[StartOf(plan, i, k)], plan[i].level) >= k
    decreases k
  {
    hide Octant, Stops;
    var x := plan[i];
    assert RunChild(plan, keys, i, k);
    if k > 0 {
      DigitsGrow(plan, keys, cutoff, i, k - 1);
      assert RunChild(plan, keys, i, k - 1);
      DigitsSorted(keys, x.lo, x.hi, x.level, StartOf(plan, i, k - 1), StartOf(plan, i, k));
    }
  }

  // The fixed child arrays have room.
  lemma EightChildren(plan: seq<PlanNode>, keys: seq<nat>, cutoff: nat, i: nat)
    requires i < |plan| && Entry(plan, keys, cutoff, i)
    ensures |plan[i].child| <= 8
  {
    if plan[i].child != [] { DigitsGrow(plan, keys, cutoff, i, |plan[i].child| - 1); }
  }

  // ---------------- the sub-plans of all ranks ----------------

  // k % P
  function Mod(k: nat, P: nat): (q: nat)
    requires P > 0
    ensures q < P
  {
    if k < P then k else Mod(k - P, P)
  }

  lemma {:induction false} NoneBetween(k: nat, j: nat, P: nat)
    requires P > 0 && k < j < k + P
    ensures Mod(j, P) != Mod(k, P)
  {
    if k >= P { NoneBetween(k - P, j - P, P); }
  }

  lemma {:induction false} FirstOf(q: nat, j: nat, P: nat)
    requires q < P && j < q
    ensures Mod(j, P) != q && Mod(q, P) == q
  {
  }

  // The root's runs; none when the root is not divided.
  ghost predicate RootRun(keys: seq<nat>, rlo: seq<nat>, rhi: seq<nat>, c: nat)
    requires c < |rlo| == |rhi|
  {
    && rlo[c] == (if c == 0 then 0 else rhi[c - 1]) && rlo[c] < |keys|
    && rhi[c] == RunEnd(keys, rlo[c] + 1, |keys|, 0, Octant(keys[rlo[c]], 0))
  }

  ghost predicate RootRuns(keys: seq<nat>, cutoff: nat, rlo: seq<nat>, rhi: seq<nat>) {
    && |rlo| == |rhi| && (forall c: nat :: c < |rlo| ==> RootRun(keys, rlo, rhi, c))
    && if |keys| > cutoff then |rlo| > 0 && rhi[|rhi| - 1] == |keys| else rlo == []
  }

  method FindRootRuns(keys: seq<nat>, cutoff: nat) returns (rlo: seq<nat>, rhi: seq<nat>)
    requires ValidKeys(keys)
    ensures RootRuns(keys, cutoff, rlo, rhi)
  {
    hide Octant, RunEnd, ValidKeys, RangeOk;
    RootRange(keys);
    rlo, rhi := [], [];
    if |keys| > cutoff {
      var i := 0;
      while i < |keys|
        invariant i <= |keys| && |rlo| == |rhi| && i == (if rhi == [] then 0 else rhi[|rhi| - 1])
        invariant forall c: nat :: c < |rlo| ==> RootRun(keys, rlo, rhi, c)
      {
        var c := Octant(keys[i], 0);
        SubRange(keys, 0, |keys|, 0, i);
        var j := OctantRunEnd(keys, i + 1, |keys|, 0, c);
        ChildRange(keys, 0, |keys|, 0, i, j);
        ghost var lo0, hi0 := rlo, rhi;
        rlo, rhi := rlo + [i], rhi + [j];
        forall d: nat | d < |rlo| ensures RootRun(keys, rlo, rhi, d) {
          if d < |lo0| { assert RootRun(keys, lo0, hi0, d); }
        }
        i := j;
      }
    }
  }

  lemma RootRunRange(keys: seq<nat>, cutoff: nat, rlo: seq<nat>, rhi: seq<nat>, c: nat)
    requires ValidKeys(keys) && RootRuns(keys, cutoff, rlo, rhi) && c < |rlo|
    ensures RangeOk(keys, rlo[c], rhi[c], 1)
  {
    hide Octant, RunEnd, RangeOk, ValidKeys;
    assert RootRun(keys, rlo, rhi, c);
    RootRange(keys);
    ChildRange(keys, 0, |keys|, 0, rlo[c], rhi[c]);
  }

  // Rank q's sub-plan, and where in it each of its root octants is (-1: not its own).
  ghost predicate SubPlanned(keys: seq<nat>, cutoff: nat, rlo: seq<nat>, rhi: seq<nat>, P: nat, q: nat,
                             sub: seq<PlanNode>, cpos: seq<int>)
    requires |rlo| == |rhi| && P > 0
  {
    && Planned(sub, keys, cutoff, 0) && |cpos| == |rlo|
    && forall c: nat :: c < |rlo| ==> Placed(rlo, rhi, P, q, sub, cpos, c)
  }

  ghost predicate Placed(rlo: seq<nat>, rhi: seq<nat>, P: nat, q: nat, sub: seq<PlanNode>, cpos: seq<int>, c: nat)
    requires c < |rlo| == |rhi| == |cpos| && P > 0
  {
    if Mod(c, P) == q then
      0 <= cpos[c] < |sub| && sub[cpos[c]].lo == rlo[c] && sub[cpos[c]].hi == rhi[c] && sub[cpos[c]].level == 1
    else cpos[c] == -1
  }

  method RankPlan(keys: seq<nat>, cutoff: nat, rlo: seq<nat>, rhi: seq<nat>, P: nat, q: nat)
    returns (sub: seq<PlanNode>, cpos: seq<int>)
    requires ValidKeys(keys) && RootRuns(keys, cutoff, rlo, rhi) && q < P
    ensures SubPlanned(keys, cutoff, rlo, rhi, P, q, sub, cpos)
  {
    hide Octant, RunEnd, ValidKeys, RangeOk, Planned, Mod;
    sub := [];
    cpos := seq(|rlo|, _ => -1);
    var c := q;
    EmptyPlan(keys, cutoff);
    forall d: nat | d < q ensures Mod(d, P) != q { FirstOf(q, d, P); }
    ModSelf(q, P);
    while c < |rlo|
      invariant Mod(c, P) == q && |cpos| == |rlo| && Planned(sub, keys, cutoff, 0)
      invariant forall d: nat :: d < |rlo| && d < c ==> Placed(rlo, rhi, P, q, sub, cpos, d)
      invariant forall d: nat :: d < |rlo| && c <= d ==> cpos[d] == -1
      decreases |rlo| + P - c
    {
      RootRunRange(keys, cutoff, rlo, rhi, c);
      ghost var cpos0 := cpos;
      cpos := cpos[c := |sub|];
      var grown := PlanNodeStruct(sub, keys, rlo[c], rhi[c], 1, cutoff, -1);
      PlanGrown(sub, grown, keys, cutoff);
      forall d: nat | d < |rlo| && d < c + P ensures Placed(rlo, rhi, P, q, grown, cpos, d) {
        if d > c { NoneBetween(c, d, P); }
        if d < c { assert Placed(rlo, rhi, P, q, sub, cpos0, d); }
      }
      sub := grown;
      ModNext(c, P);
      c := c + P;
    }
  }

  lemma EmptyPlan(keys: seq<nat>, cutoff: nat)
    ensures Planned([], keys, cutoff, 0)
  {
  }

  lemma ModSelf(q: nat, P: nat)
    requires q < P
    ensures Mod(q, P) == q
  {
  }

  lemma ModNext(c: nat, P: nat)
    requires P > 0
    ensures Mod(c + P, P) == Mod(c, P)
  {
  }

  lemma PlanGrown(sub: seq<PlanNode>, grown: seq<PlanNode>, keys: seq<nat>, cutoff: nat)
    requires Planned(sub, keys, cutoff, 0) && |sub| <= |grown| && grown[..|sub|] == sub
    requires Planned(grown, keys, cutoff, |sub|)
    ensures Planned(grown, keys, cutoff, 0) && forall i :: 0 <= i < |sub| ==> grown[i] == sub[i]
  {
    hide Entry, Shape;
    assert forall i :: 0 <= i < |sub| ==> grown[i] == grown[..|sub|][i];
    forall i | 0 <= i < |sub| ensures Entry(grown, keys, cutoff, i) {
      EntryLinks(sub, keys, cutoff, i);
      EntryFrame(sub, grown, keys, cutoff, i);
    }
  }

  // ---------------- gathered into one plan ----------------

  // The receiver's fixup of one entry of a block that starts at `base`.
  function Fixed(x: PlanNode, base: nat): PlanNode {
    x.(parent := if x.parent != -1 then x.parent + base else 0, child :=
          seq(|x.child|, k requires 0 <= k < |x.child| => x.child[k] + base))
  }

  lemma FixedEntry(sub: seq<PlanNode>, plan: seq<PlanNode>, keys: seq<nat>, cutoff: nat, base: nat, i: nat)
    requires i < |sub| && base + |sub| <= |plan| && Entry(sub, keys, cutoff, i)
    requires forall m :: base <= m < base + |sub| ==> plan[m] == Fixed(sub[m - base], base)
    ensures Entry(plan, keys, cutoff, base + i)
  {
    hide Octant, RangeOk, Stops;
    EntryLinks(sub, keys, cutoff, i);
    var at := base + i;
    forall k: nat | k < |plan[at].child| ensures RunChild(plan, keys, at, k) {
      assert RunChild(sub, keys, i, k);
    }
  }

  // rank_base[q]: the root, then the blocks of the ranks before q.
  function RankBase(subs: seq<seq<PlanNode>>, q: nat): (b: nat)
    requires q <= |subs|
    ensures b > 0
  {
    if q == 0 then 1 else RankBase(subs, q - 1) + |subs[q - 1]|
  }

  // The blocks gathered so far, behind the root.
  ghost predicate Gathered(plan: seq<PlanNode>, keys: seq<nat>, cutoff: nat, subs: seq<seq<PlanNode>>, n: nat)
    requires n <= |subs|
  {
    && |plan| == RankBase(subs, n) && Planned(plan, keys, cutoff, 1)
    && forall q: nat :: q < n ==> BlockAt(plan, subs, q)
  }

  ghost predicate BlockAt(plan: seq<PlanNode>, subs: seq<seq<PlanNode>>, q: nat)
    requires q < |subs|
  {
    && RankBase(subs, q) + |subs[q]| <= |plan|
    && forall m :: RankBase(subs, q) <= m < RankBase(subs, q) + |subs[q]| ==>
          plan[m] == Fixed(subs[q][m - RankBase(subs, q)], RankBase(subs, q))
  }

  method FixBlock(sub: seq<PlanNode>, base: nat) returns (block: seq<PlanNode>)
    ensures |block| == |sub| && forall i :: 0 <= i < |sub| ==> block[i] == Fixed(sub[i], base)
  {
    block := [];
    var i := 0;
    while i < |sub|
      invariant i == |block| <= |sub| && forall j :: 0 <= j < i ==> block[j] == Fixed(sub[j], base)
    {
      block := block + [Fixed(sub[i], base)];
      i := i + 1;
    }
  }

  lemma BlockAdded(plan: seq<PlanNode>, plan': seq<PlanNode>, keys: seq<nat>, cutoff: nat, subs: seq<seq<PlanNode>>,
                   n: nat, block: seq<PlanNode>)
    requires n < |subs| && Gathered(plan, keys, cutoff, subs, n) && Planned(subs[n], keys, cutoff, 0)
    requires |block| == |subs[n]| && forall i :: 0 <= i < |block| ==> block[i] == Fixed(subs[n][i], |plan|)
    requires plan' == plan + block
    ensures Gathered(plan', keys, cutoff, subs, n + 1)
  {
    hide Fixed, Entry;
    forall q: nat | q < n + 1 ensures BlockAt(plan', subs, q) {
      if q < n { assert BlockAt(plan, subs, q); }
    }
    forall i | 1 <= i < |plan'| ensures Entry(plan', keys, cutoff, i) {
      if i < |plan| {
        EntryLinks(plan, keys, cutoff, i);
        EntryFrame(plan, plan', keys, cutoff, i);
      } else {
        assert Entry(subs[n], keys, cutoff, i - |plan|);
        FixedEntry(subs[n], plan', keys, cutoff, |plan|, i - |plan|);
      }
    }
  }

  // MPI_MAX over the ranks' positions.
  method MaxPosition(cposs: seq<seq<int>>, c: nat, ghost owner: nat) returns (pos: int)
    requires |cposs| > 0 && (forall q :: 0 <= q < |cposs| ==> c < |cposs[q]|) && owner < |cposs|
    requires cposs[owner][c] >= 0 && forall q :: 0 <= q < |cposs| && q != owner ==> cposs[q][c] == -1
    ensures pos == cposs[owner][c]
  {
    pos := cposs[0][c];
    var q := 1;
    while q < |cposs|
      invariant q <= |cposs| && pos == if owner < q then cposs[owner][c] else -1
    {
      if cposs[q][c] > pos { pos := cposs[q][c]; }
      q := q + 1;
    }
  }

  // ---------------- the whole plan ----------------

  ghost predicate AllSubPlanned(keys: seq<nat>, cutoff: nat, rlo: seq<nat>, rhi: seq<nat>, subs: seq<seq<PlanNode>>,
                                cposs: seq<seq<int>>) {
    && |rlo| == |rhi| && |subs| == |cposs| > 0
    && forall q: nat :: q < |subs| ==> SubPlanned(keys, cutoff, rlo, rhi, |subs|, q, subs[q], cposs[q])
  }

  // Root octant c in the gathered plan.
  function RootChild(subs: seq<seq<PlanNode>>, cposs: seq<seq<int>>, c: nat): int
    requires |subs| == |cposs| > 0 && forall q :: 0 <= q < |cposs| ==> c < |cposs[q]|
  {
    RankBase(subs, Mod(c, |subs|)) + cposs[Mod(c, |subs|)][c]
  }

  lemma RootChildRight(keys: seq<nat>, cutoff: nat, rlo: seq<nat>, rhi: seq<nat>, subs: seq<seq<PlanNode>>,
                       cposs: seq<seq<int>>,
                       plan: seq<PlanNode>, c: nat)
    requires AllSubPlanned(keys, cutoff, rlo, rhi, subs, cposs) && Gathered(plan, keys, cutoff, subs, |subs|)
    requires c < |rlo|
    ensures forall q :: 0 <= q < |cposs| ==> c < |cposs[q]|
    ensures var x := RootChild(subs, cposs, c);
            0 < x < |plan| && plan[x].lo == rlo[c] && plan[x].hi == rhi[c] && plan[x].level == 1
  {
    hide Planned, Mod;
    forall q: nat | q < |cposs| ensures c < |cposs[q]| {
      assert SubPlanned(keys, cutoff, rlo, rhi, |subs|, q, subs[q], cposs[q]);
    }
    var q := Mod(c, |subs|);
    assert SubPlanned(keys, cutoff, rlo, rhi, |subs|, q, subs[q], cposs[q]);
    assert Placed(rlo, rhi, |subs|, q, subs[q], cposs[q], c);
    assert BlockAt(plan, subs, q);
  }

  // The root's entry, linked to its octants wherever they were planned.
  lemma RootEntry(keys: seq<nat>, cutoff: nat, rlo: seq<nat>, rhi: seq<nat>, plan: seq<PlanNode>)
    requires ValidKeys(keys) && RootRuns(keys, cutoff, rlo, rhi) && |plan| > 0 && Planned(plan, keys, cutoff, 1)
    requires plan[0].lo == 0 && plan[0].hi == |keys| && plan[0].level == 0 && |plan[0].child| == |rlo|
    requires forall c: nat :: c < |rlo| ==> RootLink(plan, rlo, rhi, c)
    ensures Planned(plan, keys, cutoff, 0)
  {
    hide Octant, RunEnd, ValidKeys, RangeOk, Entry;
    RootRange(keys);
    RangeBounds(keys, 0, |keys|, 0);
    assert Linked(plan, 0) by {
      forall m | 0 <= m < |plan[0].child| ensures 0 < plan[0].child[m] < |plan| { assert RootLink(plan, rlo, rhi, m); }
    }
    forall k: nat | k < |plan[0].child| ensures RunChild(plan, keys, 0, k) {
      assert RootRun(keys, rlo, rhi, k) && RootLink(plan, rlo, rhi, k);
      if k > 0 { assert RootLink(plan, rlo, rhi, k - 1); }
    }
    if rlo != [] { assert RootLink(plan, rlo, rhi, |rlo| - 1); }
    assert StartOf(plan, 0, |plan[0].child|) == if rlo == [] then 0 else |keys|;
    EntryFrom(plan, keys, cutoff, 0);
    forall i | 0 <= i < |plan| ensures Entry(plan, keys, cutoff, i) {}
  }

  ghost predicate RootLink(plan: seq<PlanNode>, rlo: seq<nat>, rhi: seq<nat>, c: nat)
    requires |plan| > 0 && c < |rlo| == |rhi| && |plan[0].child| >= |rlo|
  {
    var x := plan[0].child[c];
    0 < x < |plan| && plan[x].lo == rlo[c] && plan[x].hi == rhi[c] && plan[x].level == 1
  }

  lemma EntryFrom(plan: seq<PlanNode>, keys: seq<nat>, cutoff: nat, i: nat)
    requires i < |plan| && RangeOk(keys, plan[i].lo, plan[i].hi, plan[i].level) && Linked(plan, i)
    requires Stops(plan[i].lo, plan[i].hi, plan[i].level, cutoff) ==> plan[i].child == []
    requires !Stops(plan[i].lo, plan[i].hi, plan[i].level, cutoff) ==> StartOf(plan, i, |plan[i].child|) == plan[i].hi
    requires forall k: nat :: k < |plan[i].child| ==> RunChild(plan, keys, i, k)
    ensures Entry(plan, keys, cutoff, i)
  {
    hide RangeOk, RunChild, Stops;
  }

  // The exchange: gather the blocks, fix their links, link the root.
  method GatherPlan(keys: seq<nat>, cutoff: nat, rlo: seq<nat>, rhi: seq<nat>, subs: seq<seq<PlanNode>>,
                    cposs: seq<seq<int>>)
    returns (plan: seq<PlanNode>)
    requires ValidKeys(keys) && RootRuns(keys, cutoff, rlo, rhi) && AllSubPlanned(keys, cutoff, rlo, rhi, subs, cposs)
    ensures Planned(plan, keys, cutoff, 0) && |plan| > 0
    ensures plan[0].lo == 0 && plan[0].hi == |keys| && plan[0].level == 0
  {
    hide ValidKeys, Entry, Mod, Planned, RootRuns, SubPlanned, Fixed, RootChild, BlockAt;
    plan := [PlanNode(0, |keys|, 0, -1, [])];
    var rankBase := [1];
    JustRoot(plan, keys, cutoff, subs);
    var q := 0;
    while q < |subs|
      invariant q <= |subs| && Gathered(plan, keys, cutoff, subs, q) && plan[0] == PlanNode(0, |keys|, 0, -1, [])
      invariant |rankBase| == q + 1 && forall m: nat :: m <= q ==> rankBase[m] == RankBase(subs, m)
    {
      var block := FixBlock(subs[q], rankBase[q]);
      assert Planned(subs[q], keys, cutoff, 0) by { SubIsPlanned(keys, cutoff, rlo, rhi, subs, cposs, q); }
      BlockAdded(plan, plan + block, keys, cutoff, subs, q, block);
      plan, rankBase := plan + block, rankBase + [rankBase[q] + |subs[q]|];
      q := q + 1;
    }
    plan := LinkRoot(keys, cutoff, rlo, rhi, subs, cposs, plan, rankBase);
  }

  // The last loop: the root's children, each found by the rank that owns it.
  method LinkRoot(keys: seq<nat>, cutoff: nat, rlo: seq<nat>, rhi: seq<nat>, subs: seq<seq<PlanNode>>,
                  cposs: seq<seq<int>>,
                  gathered: seq<PlanNode>, rankBase: seq<nat>)
    returns (plan: seq<PlanNode>)
    requires ValidKeys(keys) && RootRuns(keys, cutoff, rlo, rhi) && AllSubPlanned(keys, cutoff, rlo, rhi, subs, cposs)
    requires Gathered(gathered, keys, cutoff, subs, |subs|) && gathered[0] == PlanNode(0, |keys|, 0, -1, [])
    requires |rankBase| == |subs| + 1 && forall m: nat :: m <= |subs| ==> rankBase[m] == RankBase(subs, m)
    ensures Planned(plan, keys, cutoff, 0) && |plan| > 0
    ensures plan[0].lo == 0 && plan[0].hi == |keys| && plan[0].level == 0
  {
    hide ValidKeys, Entry, Mod, Planned, RootRuns, SubPlanned, Fixed, RootChild, BlockAt;
    plan := gathered;
    var c := 0;
    while c < |rlo|
      invariant c <= |rlo| && |plan| == |gathered| && plan[0] == gathered[0].(child := plan[0].child)
      invariant |plan[0].child| == c
      invariant forall i :: 0 < i < |plan| ==> plan[i] == gathered[i]
      invariant forall d: nat :: d < c ==> ChildIs(plan[0].child, gathered, rlo, rhi, d)
    {
      RootChildRight(keys, cutoff, rlo, rhi, subs, cposs, gathered, c);
      Owned(keys, cutoff, rlo, rhi, subs, cposs, c);
      var pos := MaxPosition(cposs, c, Mod(c, |subs|));
      ghost var linked := plan[0].child;
      plan := plan[0 := plan[0].(child := plan[0].child + [rankBase[Mod(c, |subs|)] + pos])];
      RootChildIs(subs, cposs, c);
      forall d: nat | d < c + 1 ensures ChildIs(plan[0].child, gathered, rlo, rhi, d) {
        if d < c { assert ChildIs(linked, gathered, rlo, rhi, d); }
      }
      c := c + 1;
    }
    StillPlanned(gathered, plan, keys, cutoff);
    forall d: nat | d < |rlo| ensures RootLink(plan, rlo, rhi, d) {
      assert ChildIs(plan[0].child, gathered, rlo, rhi, d);
    }
    RootEntry(keys, cutoff, rlo, rhi, plan);
  }

  ghost predicate ChildIs(child: seq<nat>, plan: seq<PlanNode>, rlo: seq<nat>, rhi: seq<nat>, d: nat)
    requires d < |child| && d < |rlo| == |rhi|
  {
    0 < child[d] < |plan| && plan[child[d]].lo == rlo[d] && plan[child[d]].hi == rhi[d] && plan[child[d]].level == 1
  }

  lemma JustRoot(plan: seq<PlanNode>, keys: seq<nat>, cutoff: nat, subs: seq<seq<PlanNode>>)
    requires |plan| == 1
    ensures Gathered(plan, keys, cutoff, subs, 0)
  {
  }

  lemma SubIsPlanned(keys: seq<nat>, cutoff: nat, rlo: seq<nat>, rhi: seq<nat>, subs: seq<seq<PlanNode>>,
                     cposs: seq<seq<int>>, q: nat)
    requires AllSubPlanned(keys, cutoff, rlo, rhi, subs, cposs) && q < |subs|
    ensures Planned(subs[q], keys, cutoff, 0)
  {
    hide Planned, Placed;
    assert SubPlanned(keys, cutoff, rlo, rhi, |subs|, q, subs[q], cposs[q]);
  }

  lemma Owned(keys: seq<nat>, cutoff: nat, rlo: seq<nat>, rhi: seq<nat>, subs: seq<seq<PlanNode>>,
              cposs: seq<seq<int>>, c: nat)
    requires AllSubPlanned(keys, cutoff, rlo, rhi, subs, cposs) && c < |rlo|
    ensures forall q :: 0 <= q < |cposs| ==> c < |cposs[q]|
    ensures cposs[Mod(c, |subs|)][c] >= 0
    ensures forall q :: 0 <= q < |cposs| && q != Mod(c, |subs|) ==> cposs[q][c] == -1
  {
    hide Planned, Mod;
    forall q: nat | q < |cposs|
      ensures c < |cposs[q]| && (if q == Mod(c, |subs|) then cposs[q][c] >= 0 else cposs[q][c] == -1)
    {
      assert SubPlanned(keys, cutoff, rlo, rhi, |subs|, q, subs[q], cposs[q]);
      assert Placed(rlo, rhi, |subs|, q, subs[q], cposs[q], c);
    }
  }

  lemma RootChildIs(subs: seq<seq<PlanNode>>, cposs: seq<seq<int>>, c: nat)
    requires |subs| == |cposs| > 0 && forall q :: 0 <= q < |cposs| ==> c < |cposs[q]|
    ensures RootChild(subs, cposs, c) == RankBase(subs, Mod(c, |subs|)) + cposs[Mod(c, |subs|)][c]
  {
  }

  // Linking the root leaves the other entries as they were.
  lemma StillPlanned(a: seq<PlanNode>, b: seq<PlanNode>, keys: seq<nat>, cutoff: nat)
    requires Planned(a, keys, cutoff, 1) && |a| == |b| > 0 && forall i :: 0 < i < |a| ==> b[i] == a[i]
    ensures Planned(b, keys, cutoff, 1)
  {
    hide Entry, Shape;
    forall i | 1 <= i < |b| ensures Entry(b, keys, cutoff, i) {
      EntryLinks(a, keys, cutoff, i);
      EntryFrame(a, b, keys, cutoff, i);
    }
  }
}
