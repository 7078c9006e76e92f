// From the nodes' live slices to the global sorted order: the slices are sorted,
// their keys gathered and merged, and every body moved to its place.
module GlobalSort {
  import opened SortOrder
  import opened SliceSort
  import opened KeyMerge
  import opened Redistribution

  // ---------------- the gathered runs ----------------

  // All nodes' sorted runs, one after the other.
  ghost predicate RunsOf(keys: seq<nat>, los: seq<nat>, all: seq<KP>, t: nat)
    requires t < |los|
  {
    && los[t] == |all| <= |keys|
    && forall s: nat :: s < t ==> RunAt(keys, los, all, s)
  }

  ghost predicate RunAt(keys: seq<nat>, los: seq<nat>, all: seq<KP>, s: nat)
    requires s + 1 < |los|
  {
    los[s] <= los[s + 1] <= |all| <= |keys| && all[los[s]..los[s + 1]] == Target(keys, 0, los[s], los[s + 1])
  }

  lemma OneMoreRun(keys: seq<nat>, los: seq<nat>, all: seq<KP>, t: nat, run: seq<KP>)
    requires t + 1 < |los| && RunsOf(keys, los, all, t) && los[t] <= los[t + 1] <= |keys|
    requires run == Target(keys, 0, los[t], los[t + 1]) && |run| == los[t + 1] - los[t]
    ensures RunsOf(keys, los, all + run, t + 1)
  {
    hide Target;
    forall s: nat | s < t + 1 ensures RunAt(keys, los, all + run, s) {
      if s < t {
        assert RunAt(keys, los, all, s);
        assert (all + run)[los[s]..los[s + 1]] == all[los[s]..los[s + 1]];
      }
    }
  }

  // A node's slice, sorted by itself, is that part of the keys sorted.
  lemma SliceIsPart(keys: seq<nat>, i: nat, j: nat)
    requires i <= j <= |keys|
    ensures Target(keys[i..j], i, 0, j - i) == Target(keys, 0, i, j)
  {
    assert Elems(keys[i..j], i, 0, j - i) == Elems(keys, 0, i, j);
  }

  lemma {:induction false} AllBag(keys: seq<nat>, los: seq<nat>, all: seq<KP>, t: nat)
    requires t < |los| && los[0] == 0 && RunsOf(keys, los, all, |los| - 1)
    ensures los[t] <= |all| && multiset(all[..los[t]]) == multiset(Elems(keys, 0, 0, los[t]))
  {
    hide Target;
    if t == 0 {
      assert all[..0] == [] && Elems(keys, 0, 0, 0) == [];
    } else {
      AllBag(keys, los, all, t - 1);
      assert RunAt(keys, los, all, t - 1);
      TargetIs(keys, 0, los[t - 1], los[t]);
      ElemsJoin(keys, 0, 0, los[t - 1], los[t]);
      assert all[..los[t]] == all[..los[t - 1]] + all[los[t - 1]..los[t]];
    }
  }

  // ---------------- two orders that agree ----------------

  ghost predicate Inside(s: seq<KP>, n: nat) {
    forall x :: x in s ==> x.idx < n
  }

  function Look(all: seq<KP>, s: seq<KP>): (t: seq<KP>)
    requires Inside(s, |all|)
    ensures |t| == |s| && forall o :: 0 <= o < |s| ==> s[o].idx < |all| && t[o] == all[s[o].idx]
  {
    if s == [] then [] else
      assert s[0] in s;
      [all[s[0].idx]] + Look(all, s[1..])
  }

  lemma LookConcat(all: seq<KP>, a: seq<KP>, b: seq<KP>)
    requires Inside(a, |all|) && Inside(b, |all|)
    ensures Inside(a + b, |all|) && Look(all, a + b) == Look(all, a) + Look(all, b)
  {
  }

  lemma LookWithout(all: seq<KP>, b: seq<KP>, i: nat)
    requires Inside(b, |all|) && i < |b|
    ensures var rest := b[..i] + b[i + 1..];
            && Inside(rest, |all|) && multiset(rest) == multiset(b) - multiset{b[i]}
            && b[i].idx < |all| && multiset(Look(all, b)) == multiset(Look(all, rest)) + multiset{all[b[i].idx]}
  {
    hide Look;
    var rest := b[..i] + b[i + 1..];
    assert b == b[..i] + ([b[i]] + b[i + 1..]);
    assert forall x :: x in rest ==> x in b;
    LookConcat(all, b[..i], b[i + 1..]);
    LookConcat(all, [b[i]], b[i + 1..]);
    LookConcat(all, b[..i], [b[i]] + b[i + 1..]);
    assert Look(all, [b[i]]) == [all[b[i].idx]];
  }

  lemma {:induction false} LookSame(all: seq<KP>, a: seq<KP>, b: seq<KP>)
    requires Inside(a, |all|) && Inside(b, |all|) && multiset(a) == multiset(b)
    ensures multiset(Look(all, a)) == multiset(Look(all, b))
  {
    hide Look, Inside;
    if a != [] {
      assert a[0] in multiset(b);
      var i :| 0 <= i < |b| && b[i] == a[0];
      LookWithout(all, a, 0);
      LookWithout(all, b, i);
      assert a[..0] + a[1..] == a[1..];
      LookSame(all, a[1..], b[..i] + b[i + 1..]);
    } else {
      NoneBag(b);
    }
  }

  lemma NoneBag(b: seq<KP>)
    requires multiset(b) == multiset([])
    ensures b == []
  {
    assert |multiset(b)| == |b|;
  }

  lemma LookAll(all: seq<KP>, gathered: seq<nat>)
    requires |gathered| == |all|
    ensures Inside(Elems(gathered, 0, 0, |all|), |all|) && Look(all, Elems(gathered, 0, 0, |all|)) == all
  {
  }

  // Within a node and across nodes, gathered places are in the order of the
  // original indices among equal keys.
  lemma PlacesAgree(keys: seq<nat>, los: seq<nat>, all: seq<KP>, g: nat, h: nat)
    requires Layout(los, |keys|) && RunsOf(keys, los, all, |los| - 1) && g < h < |all| && all[g].key == all[h].key
    ensures Lt(all[g], all[h])
  {
    hide Target, Layout;
    var s := OwnerOf(keys, los, all, g);
    var t := OwnerOf(keys, los, all, h);
    assert RunAt(keys, los, all, s) && RunAt(keys, los, all, t);
    TargetIs(keys, 0, los[s], los[s + 1]);
    TargetIs(keys, 0, los[t], los[t + 1]);
    assert all[g] == all[los[s]..los[s + 1]][g - los[s]];
    assert all[h] == all[los[t]..los[t + 1]][h - los[t]];
    if s < t {
      LosClimb(los, |keys|, s + 1, t);
    } else if t < s {
      LosClimb(los, |keys|, t + 1, s);
    }
  }

  lemma OwnerOf(keys: seq<nat>, los: seq<nat>, all: seq<KP>, g: nat) returns (s: nat)
    requires Layout(los, |keys|) && RunsOf(keys, los, all, |los| - 1) && g < |all|
    ensures s < |los| - 1 && los[s] <= g < los[s + 1]
  {
    hide RunAt;
    s := 0;
    while s < |los| - 2 && g >= los[s + 1]
      invariant s < |los| - 1 && los[s] <= g
    {
      s := s + 1;
    }
  }

  ghost predicate KeysOfAll(all: seq<KP>, gathered: seq<nat>) {
    |gathered| == |all| && forall g :: 0 <= g < |all| ==> gathered[g] == all[g].key
  }

  // The order of the gathered places is the order of the original indices: what
  // is merged at place o is element o of all keys sorted.
  lemma MergedIsSorted(keys: seq<nat>, los: seq<nat>, all: seq<KP>, gathered: seq<nat>)
    requires Layout(los, |keys|) && RunsOf(keys, los, all, |los| - 1) && KeysOfAll(all, gathered)
    ensures |all| == |keys| && Inside(Target(gathered, 0, 0, |all|), |all|)
    ensures Look(all, Target(gathered, 0, 0, |all|)) == Target(keys, 0, 0, |keys|)
  {
    hide Target, Layout, RunsOf, Sorted, Look, KeysOfAll;
    AllLength(keys, los, all, gathered);
    var s := Target(gathered, 0, 0, |all|);
    TargetIs(gathered, 0, 0, |all|);
    TargetIs(keys, 0, 0, |keys|);
    var e := Elems(gathered, 0, 0, |all|);
    LookAll(all, gathered);
    LookSame(all, s, e);
    AllBag(keys, los, all, |los| - 1);
    assert all[..|all|] == all;
    LookSorted(keys, los, all, gathered, s);
    SortedOnce(Look(all, s), Target(keys, 0, 0, |keys|));
  }

  lemma AllLength(keys: seq<nat>, los: seq<nat>, all: seq<KP>, gathered: seq<nat>)
    requires Layout(los, |keys|) && RunsOf(keys, los, all, |los| - 1) && KeysOfAll(all, gathered)
    ensures |los| > 1 && |all| == |keys| == |gathered| == los[|los| - 1] && los[0] == 0
  {
  }

  lemma LookSorted(keys: seq<nat>, los: seq<nat>, all: seq<KP>, gathered: seq<nat>, s: seq<KP>)
    requires Layout(los, |keys|) && RunsOf(keys, los, all, |los| - 1) && KeysOfAll(all, gathered)
    requires Inside(s, |all|) && Sorted(s) && multiset(s) == multiset(Elems(gathered, 0, 0, |all|))
    ensures Sorted(Look(all, s))
  {
    hide Layout, RunsOf, Look;
    forall i, j | 0 <= i < j < |s| ensures Lt(Look(all, s)[i], Look(all, s)[j]) {
      assert s[i] in multiset(s) && s[j] in multiset(s);
      assert s[i] in Elems(gathered, 0, 0, |all|) && s[j] in Elems(gathered, 0, 0, |all|);
      assert Lt(s[i], s[j]);
      if s[i].key == s[j].key { PlacesAgree(keys, los, all, s[i].idx, s[j].idx); }
    }
  }

  // ---------------- every node's part ----------------

  // The slices sorted and materialized: keys and bodies in run order.
  method SortSlices(keys: seq<nat>, bodies: seq<Body>, los: seq<nat>, gran: nat, P: nat)
    returns (ghost all: seq<KP>, gathered: seq<nat>, gbodies: seq<Body>)
    requires Words(keys) && |bodies| == |keys| && Layout(los, |keys|) && gran > 0 && P > 0
    ensures RunsOf(keys, los, all, |los| - 1) && KeysOfAll(all, gathered) && |gbodies| == |all|
    ensures forall g :: 0 <= g < |all| ==> all[g].idx < |bodies| && gbodies[g] == bodies[all[g].idx]
  {
    hide Target, Layout, Words, RunAt;
    all, gathered, gbodies := [], [], [];
    FirstSlice(los, |keys|);
    var t := 0;
    while t < |los| - 1
      invariant t < |los| && RunsOf(keys, los, all, t) && KeysOfAll(all, gathered) && |gbodies| == |all|
      invariant forall g :: 0 <= g < |all| ==> all[g].idx < |bodies| && gbodies[g] == bodies[all[g].idx]
    {
      LosClimb(los, |keys|, t, t + 1);
      var lo, hi := los[t], los[t + 1];
      WordsPart(keys, lo, hi);
      var sorted := SliceKeysPhase(keys[lo..hi], lo, gran, P);
      SliceIsPart(keys, lo, hi);
      TargetIs(keys, 0, lo, hi);
      var run := sorted[..];
      assert run == Target(keys, 0, lo, hi);
      InRun(run, lo, hi);
      OneMoreRun(keys, los, all, t, run);
      var part: seq<Body> := seq(|run|, k requires 0 <= k < |run| => bodies[lo..hi][run[k].idx - lo]);
      all, gathered, gbodies := all + run, gathered + KeyMerge.KeysOf(run, 0, |run|), gbodies + part;
      t := t + 1;
    }
  }

  lemma FirstSlice(los: seq<nat>, n: nat)
    requires Layout(los, n)
    ensures |los| > 1 && los[0] == 0
  {
  }

  lemma WordsPart(keys: seq<nat>, i: nat, j: nat)
    requires Words(keys) && i <= j <= |keys|
    ensures Words(keys[i..j])
  {
  }

  lemma InRun(run: seq<KP>, lo: nat, hi: nat)
    requires forall x :: x in run ==> lo <= x.idx < hi
    ensures forall k :: 0 <= k < |run| ==> lo <= run[k].idx < hi
  {
  }

  lemma GatheredSorted(keys: seq<nat>, los: seq<nat>, all: seq<KP>, gathered: seq<nat>)
    requires Layout(los, |keys|) && RunsOf(keys, los, all, |los| - 1) && KeysOfAll(all, gathered)
    ensures GatheredRuns(gathered, los)
  {
    hide Target;
    forall g: nat | g < |los| - 1 ensures SortedRun(gathered, los, g) {
      assert RunAt(keys, los, all, g);
      TargetIs(keys, 0, los[g], los[g + 1]);
      var run := Target(keys, 0, los[g], los[g + 1]);
      forall i, j | los[g] <= i < j < los[g + 1] ensures gathered[i] <= gathered[j] {
        assert all[i] == run[i - los[g]] && all[j] == run[j - los[g]];
        InOrder(run, i - los[g], j - los[g]);
      }
    }
  }

  ghost predicate Replica(keys: seq<nat>, s: seq<KP>) {
    |keys| == |s| && forall o :: 0 <= o < |s| ==> keys[o] == s[o].key
  }

  // The keys replica, the same on every node, and every node's positions.
  method PositionsOfAll(gathered: seq<nat>, los: seq<nat>, P: nat)
    returns (myposs: seq<seq<nat>>, keysReps: seq<seq<nat>>)
    requires GatheredRuns(gathered, los) && P > 0
    ensures NodeRuns(Target(gathered, 0, 0, |gathered|), los, myposs) && |keysReps| == |los| - 1
    ensures forall t :: 0 <= t < |keysReps| ==> Replica(keysReps[t], Target(gathered, 0, 0, |gathered|))
  {
    hide Target, GatheredRuns, Positions;
    myposs, keysReps := [], [];
    ghost var s := Target(gathered, 0, 0, |gathered|);
    TargetIs(gathered, 0, 0, |gathered|);
    HasNodes(gathered, los);
    var t := 0;
    while t < |los| - 1
      invariant t == |myposs| == |keysReps| <= |los| - 1
      invariant forall u: nat :: u < t ==> NodeRun(s, los, myposs, u)
      invariant forall u :: 0 <= u < t ==> Replica(keysReps[u], s)
    {
      var keys, mypos := MergeKeysParallel(gathered, los, t, P);
      Climbs(gathered, los, t, s, mypos[..]);
      ghost var before := myposs;
      myposs, keysReps := myposs + [mypos[..]], keysReps + [keys];
      forall u: nat | u < t + 1 ensures NodeRun(s, los, myposs, u) {
        if u < t { assert NodeRun(s, los, before, u); }
      }
      t := t + 1;
    }
  }

  lemma HasNodes(gathered: seq<nat>, los: seq<nat>)
    requires GatheredRuns(gathered, los)
    ensures |los| > 1
  {
  }

  lemma Climbs(gathered: seq<nat>, los: seq<nat>, t: nat, s: seq<KP>, mypos: seq<nat>)
    requires GatheredRuns(gathered, los) && t < |los| - 1 && s == Target(gathered, 0, 0, |gathered|)
    requires los[t] <= los[t + 1] && Positions(s, los[t], los[t + 1], mypos)
    ensures Climbing(mypos)
  {
    hide Target, GatheredRuns, Positions;
    forall p, q | 0 <= p < q < |mypos| ensures mypos[p] < mypos[q] { PositionsClimb(gathered, los, t, s, mypos, p, q); }
  }

  method SendAll(s: seq<KP>, los: seq<nat>, n: nat, myposs: seq<seq<nat>>)
    returns (countss: seq<seq<nat>>, dsplss: seq<seq<nat>>)
    requires Layout(los, n) && |s| == n && NodeRuns(s, los, myposs)
    ensures |countss| == |dsplss| == |myposs|
    ensures forall t: nat :: t < |myposs| ==> SendOk(los, myposs, countss, dsplss, t)
  {
    hide Layout, Packed, Below;
    countss, dsplss := [], [];
    var t := 0;
    while t < |myposs|
      invariant t == |countss| == |dsplss| <= |myposs|
      invariant forall u: nat :: u < t ==> SendRight(los, myposs[u], countss[u], dsplss[u])
    {
      assert NodeRun(s, los, myposs, t);
      var counts := CountDestinations(los, n, myposs[t]);
      var dspls := Displacements(los, n, myposs[t], counts);
      CountsLength(los, myposs[t], counts);
      countss, dsplss := countss + [counts], dsplss + [dspls];
      t := t + 1;
    }
    forall u: nat | u < |myposs| ensures SendOk(los, myposs, countss, dsplss, u) {
      assert SendRight(los, myposs[u], countss[u], dsplss[u]);
    }
  }

  ghost predicate SendRight(los: seq<nat>, mypos: seq<nat>, counts: seq<nat>, dspls: seq<nat>) {
    && Packed(los, mypos, counts) && |dspls| == |counts| == |los| - 1
    && forall d :: 0 <= d < |dspls| && d < |los| ==> dspls[d] == Below(mypos, los[d])
  }

  lemma CountsLength(los: seq<nat>, mypos: seq<nat>, counts: seq<nat>)
    requires Packed(los, mypos, counts)
    ensures |counts| == |los| - 1
  {
  }

  // ---------------- the whole ----------------

  // For any numbers of nodes and ranks and any block size: node d's live slice
  // ends up holding, place by place, the bodies of the global sorted order -- by
  // key and original index -- from los[d] to los[d + 1]; and every node has the
  // same replica of all sorted keys.
  method SortAndRedistribute(keys: seq<nat>, bodies: seq<Body>, los: seq<nat>, gran: nat, P: nat)
    returns (lives: seq<seq<Body>>, reps: seq<seq<nat>>)
    requires Words(keys) && |bodies| == |keys| && Layout(los, |keys|) && gran > 0 && P > 0
    ensures |lives| == |reps| == |los| - 1
    ensures forall d: nat :: d < |lives| ==> SlicePlaced(keys, bodies, los, lives, d)
    ensures forall d :: 0 <= d < |reps| ==> Replica(reps[d], Target(keys, 0, 0, |keys|))
  {
    hide Target, Layout, Words, RunsOf, KeysOfAll, GatheredRuns, NodeRuns, SendOk, ReceivedFrom, DistinctIdx, Look;
    ghost var all; var gathered, gbodies;
    all, gathered, gbodies := SortSlices(keys, bodies, los, gran, P);
    AllLength(keys, los, all, gathered);
    GatheredSorted(keys, los, all, gathered);
    MergedIsSorted(keys, los, all, gathered);
    TargetDistinct(gathered);
    var myposs;
    myposs, reps := PositionsOfAll(gathered, los, P);
    var s := Target(gathered, 0, 0, |gathered|);
    forall d | 0 <= d < |reps| ensures Replica(reps[d], Target(keys, 0, 0, |keys|)) {
      ReplicaSorted(keys, all, gathered, reps[d]);
    }
    var countss, dsplss := SendAll(s, los, |keys|, myposs);
    FirstSlice(los, |keys|);
    RunCount(s, los, myposs);
    lives := [];
    var d := 0;
    while d < |los| - 1
      invariant d == |lives| <= |los| - 1
      invariant forall e: nat :: e < d ==> SlicePlaced(keys, bodies, los, lives, e)
    {
      var recv := Receive(s, los, gbodies, d, myposs, countss, dsplss);
      var live := Scatter(s, los, gbodies, d, recv, P);
      ghost var before := lives;
      lives := lives + [live[..]];
      PlacedSlice(keys, bodies, los, all, gathered, gbodies, s, live[..], lives, d);
      forall e: nat | e < d + 1 ensures SlicePlaced(keys, bodies, los, lives, e) {
        if e < d { assert SlicePlaced(keys, bodies, los, before, e); }
      }
      d := d + 1;
    }
  }

  // The merged keys are the sorted keys.
  lemma ReplicaSorted(keys: seq<nat>, all: seq<KP>, gathered: seq<nat>, rep: seq<nat>)
    requires KeysOfAll(all, gathered) && |all| == |keys| && Inside(Target(gathered, 0, 0, |all|), |all|)
    requires Look(all, Target(gathered, 0, 0, |all|)) == Target(keys, 0, 0, |keys|)
    requires Replica(rep, Target(gathered, 0, 0, |gathered|))
    ensures Replica(rep, Target(keys, 0, 0, |keys|))
  {
    hide Target;
    var s := Target(gathered, 0, 0, |gathered|);
    TargetIs(gathered, 0, 0, |gathered|);
    forall o | 0 <= o < |s| ensures s[o].key == all[s[o].idx].key { OwnKey(gathered, s, o); }
  }

  lemma OwnKey(gathered: seq<nat>, s: seq<KP>, o: nat)
    requires s == Target(gathered, 0, 0, |gathered|) && o < |s|
    ensures s[o].idx < |gathered| && s[o].key == gathered[s[o].idx]
  {
    hide Target, Sorted;
    TargetIs(gathered, 0, 0, |gathered|);
    assert s[o] in multiset(s);
    assert s[o] in multiset(Elems(gathered, 0, 0, |gathered|));
  }

  lemma RunCount(s: seq<KP>, los: seq<nat>, myposs: seq<seq<nat>>)
    requires NodeRuns(s, los, myposs)
    ensures |myposs| == |los| - 1
  {
  }

  ghost predicate SlicePlaced(keys: seq<nat>, bodies: seq<Body>, los: seq<nat>, lives: seq<seq<Body>>, d: nat)
    requires d < |lives| && |bodies| == |keys|
  {
    var s := Target(keys, 0, 0, |keys|);
    && d + 1 < |los| && los[d] + |lives[d]| == los[d + 1] <= |s|
    && forall i: nat :: i < |lives[d]| ==> s[los[d] + i].idx < |bodies| && lives[d][i] == bodies[s[los[d] + i].idx]
  }

  lemma PlacedSlice(keys: seq<nat>, bodies: seq<Body>, los: seq<nat>, all: seq<KP>, gathered: seq<nat>,
                    gbodies: seq<Body>,
                    s: seq<KP>, live: seq<Body>, lives: seq<seq<Body>>, d: nat)
    requires |bodies| == |keys| == |all| == |gathered| == |gbodies| == |s| && d < |lives| && lives[d] == live
    requires d + 1 < |los|
    requires Inside(s, |all|) && Look(all, s) == Target(keys, 0, 0, |keys|)
    requires forall g :: 0 <= g < |all| ==> all[g].idx < |bodies| && gbodies[g] == bodies[all[g].idx]
    requires los[d] <= los[d + 1] <= |gbodies| && |live| == los[d + 1] - los[d]
    requires forall i: nat :: i < |live| ==> s[los[d] + i].idx < |gbodies| && live[i] == gbodies[s[los[d] + i].idx]
    ensures SlicePlaced(keys, bodies, los, lives, d)
  {
    hide Target;
    var t := Look(all, s);
    forall i: nat | i < |live| ensures t[los[d] + i].idx < |bodies| && live[i] == bodies[t[los[d] + i].idx] {
      var o := los[d] + i;
      assert t[o] == all[s[o].idx];
    }
  }
}
