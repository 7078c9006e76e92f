// One step of the ItoyoriFBC program: the distributed sort leaves every node with
// the same sorted keys, from which every node builds its own copy of the tree, which
// the stolen force tasks walk wherever they run.
module BuildStep {
  import opened SortOrder
  import opened SliceSort
  import opened Redistribution
  import opened GlobalSort
  import opened Octree
  import BodyOrder
  import opened BuildPlan
  import opened CooperativeBuild
  import opened ForceWalk
  import Forces

  // All keys, sorted by key and original index.
  function SortedKeysOf(keys: seq<nat>): (r: seq<nat>)
    ensures |r| == |keys|
  {
    TargetIs(keys, 0, 0, |keys|);
    KeysOf(Target(keys, 0, 0, |keys|))
  }

  function KeysOf(s: seq<KP>): (r: seq<nat>)
    ensures |r| == |s| && forall o :: 0 <= o < |s| ==> r[o] == s[o].key
  {
    seq(|s|, o requires 0 <= o < |s| => s[o].key)
  }

  lemma ReplicaIs(keys: seq<nat>, rep: seq<nat>)
    requires Replica(rep, Target(keys, 0, 0, |keys|))
    ensures rep == SortedKeysOf(keys)
  {
    hide Target;
  }

  // Sorting keys that make_key made gives what the tree build expects.
  lemma SortedKeysValid(keys: seq<nat>)
    requires forall i :: 0 <= i < |keys| ==> Shr(keys[i], NLEVELS + 1) == 1
    ensures ValidKeys(SortedKeysOf(keys))
  {
    hide Target, Shr;
    TargetIs(keys, 0, 0, |keys|);
    var s, r := Target(keys, 0, 0, |keys|), SortedKeysOf(keys);
    forall i, j | 0 <= i < j < |r| ensures r[i] <= r[j] { assert Lt(s[i], s[j]); }
    forall i | 0 <= i < |r| ensures Shr(r[i], NLEVELS + 1) == 1 { OwnKey(keys, s, i); }
  }

  lemma {:induction false} PlannedKidsShallow(keys: seq<nat>, ops: Ops, lo: nat, i: nat, hi: nat, level: nat,
                                              leaf: nat, cutoff: nat)
    requires RangeOk(keys, lo, hi, level) && lo <= i <= hi && level < NLEVELS
    ensures AllShallow(PlannedKids(keys, ops, i, hi, level, leaf, cutoff), level + 1)
    decreases NLEVELS - level, hi - i
  {
    hide Octant, PlannedTree, Shr, Shallow;
    if i < hi {
      var j := RunEnd(keys, i + 1, hi, level, Octant(keys[i], level));
      RunIsRange(keys, lo, hi, level, i, j);
      PlannedShallow(keys, ops, i, j, level + 1, leaf, cutoff);
      PlannedKidsShallow(keys, ops, lo, j, hi, level, leaf, cutoff);
      var rest := PlannedKids(keys, ops, j, hi, level, leaf, cutoff);
      var kids := PlannedKids(keys, ops, i, hi, level, leaf, cutoff);
      assert kids == [PlannedTree(keys, ops, i, j, level + 1, leaf, cutoff)] + rest;
    }
  }

  // Whatever the cutoff, the tree is shallow and narrow, so the walks' stacks hold.
  lemma {:induction false} PlannedShallow(keys: seq<nat>, ops: Ops, lo: nat, hi: nat, level: nat, leaf: nat,
                                          cutoff: nat)
    requires RangeOk(keys, lo, hi, level)
    ensures Shallow(PlannedTree(keys, ops, lo, hi, level, leaf, cutoff), level)
    decreases NLEVELS - level, |keys| + 1
  {
    hide PlannedKids, BuildKids, Build, Shr;
    if Stops(lo, hi, level, cutoff) {
      BuildShallow(keys, ops, lo, hi, level, leaf);
    } else {
      FewKids(keys, ops, lo, lo, hi, level, leaf);
      KidsExactly(keys, ops, lo, hi, level, leaf, cutoff);
      PlannedKidsShallow(keys, ops, lo, lo, hi, level, leaf, cutoff);
    }
  }

  // build_step: for any numbers of nodes and ranks, the slices hold the bodies in
  // sorted order, and every node has the sorted keys and a tree that unfolds to the
  // plan's over them.
  method BuildAll(keys: seq<nat>, bodies: seq<Body>, los: seq<nat>, ops: Ops, leaf: nat, cutoff: nat, P: nat)
    returns (lives: seq<seq<Body>>, reps: seq<seq<nat>>, trees: seq<seq<Node>>)
    requires Words(keys) && |bodies| == |keys| && Layout(los, |keys|) && cutoff > 0 && P > 0
    requires forall i :: 0 <= i < |keys| ==> Shr(keys[i], NLEVELS + 1) == 1
    ensures |lives| == |reps| == |trees| == |los| - 1
    ensures forall d: nat :: d < |lives| ==> SlicePlaced(keys, bodies, los, lives, d)
    ensures forall d :: 0 <= d < |reps| ==> reps[d] == SortedKeysOf(keys)
    ensures forall d :: 0 <= d < |trees| ==> Represents(trees[d], 0,
          PlannedTree(SortedKeysOf(keys), ops, 0, |keys|, 0, leaf, cutoff))
  {
    hide Words, Layout, SlicePlaced, Replica, Target, Shr, Represents, PlannedTree, ValidKeys, SortedKeysOf, FatLeaf,
      Build;
    lives, reps := SortAndRedistribute(keys, bodies, los, cutoff, P);
    SortedKeysValid(keys);
    trees := [];
    forall d | 0 <= d < |reps| ensures reps[d] == SortedKeysOf(keys) { ReplicaIs(keys, reps[d]); }
    while |trees| < |reps|
      invariant |trees| <= |reps|
      invariant forall d :: 0 <= d < |trees| ==>
                  Represents(trees[d], 0, PlannedTree(SortedKeysOf(keys), ops, 0, |keys|, 0, leaf, cutoff))
      decreases |reps| - |trees|
    {
      var arr := BuildTreeSpmd(reps[|trees|], ops, leaf, cutoff, P);
      trees := trees + [arr[..]];
    }
  }

  // The forces of the step: every node ends with the walk of every body of the sorted
  // order through the tree over the sorted keys.
  method Step(keys: seq<nat>, bodies: seq<Body>, los: seq<nat>, ops: Ops, accept: Accept, leaf: nat, cutoff: nat,
              P: nat,
              K: nat, chunk: nat, schedule: nat -> nat)
    returns (accs: seq<array<Forces.Force>>)
    requires Words(keys) && |bodies| == |keys| > 0 && Layout(los, |keys|) && cutoff > 0 && P > 0 && K > 0 && chunk > 0
    requires forall i :: 0 <= i < |keys| ==> Shr(keys[i], NLEVELS + 1) == 1
    requires forall c :: schedule(c) < |los| - 1
    ensures |accs| == |los| - 1 && forall j :: 0 <= j < |accs| ==> accs[j].Length == |keys|
    ensures forall j, i :: 0 <= j < |accs| && 0 <= i < |keys| ==>
              accs[j][i] == Sources(accept, PlannedTree(SortedKeysOf(keys), ops, 0, |keys|, 0, leaf, cutoff), 0, i)
    ensures forall h: Com -> seq<nat>, j, i: nat :: BodyOrder.Reads(ops, h) && 0 <= j < |accs| && i < |keys| ==>
              AllBut(AllBehind(h, accs[j][i]), 0, |keys|, i)
  {
    hide BodyOrder.Reads, AllBut, AllBehind;
    hide Words, Layout, SlicePlaced, Shr, Represents, PlannedTree, ValidKeys, SortedKeysOf, Shallow, Sources, RangeOk;
    var lives, reps, trees := BuildAll(keys, bodies, los, ops, leaf, cutoff, P);
    ghost var t := PlannedTree(SortedKeysOf(keys), ops, 0, |keys|, 0, leaf, cutoff);
    SortedKeysValid(keys);
    RootRange(SortedKeysOf(keys));
    PlannedShallow(SortedKeysOf(keys), ops, 0, |keys|, 0, leaf, cutoff);
    assert schedule(0) < |los| - 1;
    accs := Forces.ForcesPhase(accept, trees, t, K, |keys|, chunk, schedule);
    forall h: Com -> seq<nat>, j, i: nat | BodyOrder.Reads(ops, h) && 0 <= j < |accs| && i < |keys|
      ensures AllBut(AllBehind(h, accs[j][i]), 0, |keys|, i)
    {
      StepMeetsAll(SortedKeysOf(keys), ops, accept, leaf, cutoff, h, i);
    }
  }

  // A body's force in the step comes from every other body once.
  lemma StepMeetsAll(keys: seq<nat>, ops: Ops, accept: Accept, leaf: nat, cutoff: nat, h: Com -> seq<nat>, i: nat)
    requires BodyOrder.Reads(ops, h)
    ensures var t := PlannedTree(keys, ops, 0, |keys|, 0, leaf, cutoff);
            AllBut(AllBehind(h, Sources(accept, t, 0, i)), 0, |keys|, i)
  {
    hide BodyOrder.Reads, AllBut, AllBehind, PlannedTree, Sources, BodyOrder.Whole;
    PlannedWhole(keys, ops, h, 0, |keys|, 0, leaf, cutoff);
    PlannedSpan(keys, ops, 0, |keys|, 0, leaf, cutoff);
    WalkMeetsAll(accept, h, PlannedTree(keys, ops, 0, |keys|, 0, leaf, cutoff), 0, i);
  }
}
