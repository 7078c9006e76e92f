// What the moments of a node are made of: every body of its range, once and in
// key order, and one finalization per node.
module BodyOrder {
  import opened Octree

  // h reads off moments the bodies that were added, in order.
  ghost predicate Reads(ops: Ops, h: Com -> seq<nat>) {
    && h(ops.zero) == [] && (forall c, i :: h(ops.body(c, i)) == h(c) + [i])
    && (forall a, b :: h(ops.child(a, b)) == h(a) + h(b))
    && forall c :: h(ops.fin(c)) == h(c)
  }

  // g counts finalizations.
  ghost predicate Counts(ops: Ops, g: Com -> nat) {
    && g(ops.zero) == 0 && (forall c, i :: g(ops.body(c, i)) == g(c))
    && (forall a, b :: g(ops.child(a, b)) == g(a) + g(b))
    && forall c :: g(ops.fin(c)) == g(c) + 1
  }

  // Bodies lo up to hi, each once.
  ghost predicate InOrder(s: seq<nat>, lo: nat, hi: nat)
    requires lo <= hi
  {
    |s| == hi - lo && forall k :: 0 <= k < |s| ==> s[k] == lo + k
  }

  lemma {:induction false} BodiesRead(ops: Ops, h: Com -> seq<nat>, lo: nat, hi: nat)
    requires Reads(ops, h) && lo <= hi
    ensures InOrder(h(SumBodies(ops, lo, hi)), lo, hi)
    decreases hi
  {
    if lo < hi { BodiesRead(ops, h, lo, hi - 1); }
  }

  lemma {:induction false} BodiesUnfinished(ops: Ops, g: Com -> nat, lo: nat, hi: nat)
    requires Counts(ops, g) && lo <= hi
    ensures g(SumBodies(ops, lo, hi)) == 0
    decreases hi
  {
    if lo < hi { BodiesUnfinished(ops, g, lo, hi - 1); }
  }

  // The first child's bodies come first.
  lemma {:induction false} FirstKidRead(ops: Ops, h: Com -> seq<nat>, kid: Tree, rest: seq<Tree>)
    requires Reads(ops, h)
    ensures h(SumKids(ops, [kid] + rest)) == h(kid.com) + h(SumKids(ops, rest))
  {
    var kids := [kid] + rest;
    if rest == [] {
      assert kids[..0] == [] && h(SumKids(ops, kids)) == [] + h(kid.com);
    } else {
      var n := |rest| - 1;
      assert kids[..n + 1] == [kid] + rest[..n];
      FirstKidRead(ops, h, kid, rest[..n]);
    }
  }

  lemma {:induction false} FirstKidCounted(ops: Ops, g: Com -> nat, kid: Tree, rest: seq<Tree>)
    requires Counts(ops, g)
    ensures g(SumKids(ops, [kid] + rest)) == g(kid.com) + g(SumKids(ops, rest))
    ensures CountKids([kid] + rest) == Count(kid) + CountKids(rest)
  {
    hide Count;
    var kids := [kid] + rest;
    if rest == [] {
      assert kids[..0] == [];
    } else {
      var n := |rest| - 1;
      assert kids[..n + 1] == [kid] + rest[..n];
      FirstKidCounted(ops, g, kid, rest[..n]);
    }
  }

  lemma Joined(x: seq<nat>, y: seq<nat>, a: nat, b: nat, c: nat)
    requires a <= b <= c && InOrder(x, a, b) && InOrder(y, b, c)
    ensures InOrder(x + y, a, c)
  {
  }

  // The tree over a range, whatever its keys and leaf size: its root's moments hold
  // exactly the bodies of the range.
  lemma {:induction false} BuildAddsAll(keys: seq<nat>, ops: Ops, h: Com -> seq<nat>, lo: nat, hi: nat, level: nat,
                                        leaf: nat)
    requires lo <= hi <= |keys| && level <= NLEVELS && Reads(ops, h)
    ensures InOrder(h(Build(keys, ops, lo, hi, level, leaf).com), lo, hi)
    decreases NLEVELS - level, |keys| + 1
  {
    hide InOrder, SumBodies, SumKids, BuildKids, Octant;
    if Stops(lo, hi, level, leaf) {
      BodiesRead(ops, h, lo, hi);
    } else {
      KidsAddAll(keys, ops, h, lo, hi, level, leaf);
    }
  }

  lemma {:induction false} KidsAddAll(keys: seq<nat>, ops: Ops, h: Com -> seq<nat>, i: nat, hi: nat, level: nat,
                                      leaf: nat)
    requires i <= hi <= |keys| && level < NLEVELS && Reads(ops, h)
    ensures InOrder(h(SumKids(ops, BuildKids(keys, ops, i, hi, level, leaf))), i, hi)
    decreases NLEVELS - level, hi - i
  {
    hide Octant, Build, Reads;
    if i == hi {
      NoneRead(ops, h, i);
    } else {
      var j := RunEnd(keys, i + 1, hi, level, Octant(keys[i], level));
      var kid, rest := Build(keys, ops, i, j, level + 1, leaf), BuildKids(keys, ops, j, hi, level, leaf);
      BuildAddsAll(keys, ops, h, i, j, level + 1, leaf);
      KidsAddAll(keys, ops, h, j, hi, level, leaf);
      FirstKidRead(ops, h, kid, rest);
      Joined(h(kid.com), h(SumKids(ops, rest)), i, j, hi);
    }
  }

  lemma NoneRead(ops: Ops, h: Com -> seq<nat>, i: nat)
    requires Reads(ops, h)
    ensures InOrder(h(SumKids(ops, [])), i, i)
  {
  }

  // Every node's moments are finalized once.
  lemma {:induction false} BuildFinishesOnce(keys: seq<nat>, ops: Ops, g: Com -> nat, lo: nat, hi: nat, level: nat,
                                             leaf: nat)
    requires lo <= hi <= |keys| && level <= NLEVELS && Counts(ops, g)
    ensures g(Build(keys, ops, lo, hi, level, leaf).com) == Count(Build(keys, ops, lo, hi, level, leaf))
    decreases NLEVELS - level, |keys| + 1
  {
    hide SumBodies, SumKids, BuildKids, Octant;
    if Stops(lo, hi, level, leaf) {
      BodiesUnfinished(ops, g, lo, hi);
    } else {
      KidsFinishOnce(keys, ops, g, lo, hi, level, leaf);
    }
  }

  lemma {:induction false} KidsFinishOnce(keys: seq<nat>, ops: Ops, g: Com -> nat, i: nat, hi: nat, level: nat,
                                          leaf: nat)
    requires i <= hi <= |keys| && level < NLEVELS && Counts(ops, g)
    ensures var kids := BuildKids(keys, ops, i, hi, level, leaf); g(SumKids(ops, kids)) == CountKids(kids)
    decreases NLEVELS - level, hi - i
  {
    hide Octant, Build, Count;
    if i < hi {
      var j := RunEnd(keys, i + 1, hi, level, Octant(keys[i], level));
      BuildFinishesOnce(keys, ops, g, i, j, level + 1, leaf);
      KidsFinishOnce(keys, ops, g, j, hi, level, leaf);
      FirstKidCounted(ops, g, Build(keys, ops, i, j, level + 1, leaf), BuildKids(keys, ops, j, hi, level, leaf));
    }
  }

  // ---------------- every node of the tree ----------------

  // Trees over neighbouring ranges from lo to hi.
  ghost predicate Tiles(kids: seq<Tree>, lo: nat, hi: nat) {
    if kids == [] then lo == hi
    else kids[0].first == lo && lo + kids[0].count <= hi && Tiles(kids[1..], lo + kids[0].count, hi)
  }

  // Every node's moments hold its own range, and its children tile it.
  ghost predicate Whole(h: Com -> seq<nat>, t: Tree)
    decreases t
  {
    && InOrder(h(t.com), t.first, t.first + t.count) && (t.leaf <==> t.kids == [])
    && (t.kids != [] ==> Tiles(t.kids, t.first, t.first + t.count))
    && forall k :: 0 <= k < |t.kids| ==> Whole(h, t.kids[k])
  }

  lemma {:induction false} BuildWhole(keys: seq<nat>, ops: Ops, h: Com -> seq<nat>, lo: nat, hi: nat, level: nat,
                                      leaf: nat)
    requires lo <= hi <= |keys| && level <= NLEVELS && Reads(ops, h)
    ensures Whole(h, Build(keys, ops, lo, hi, level, leaf))
    decreases NLEVELS - level, |keys| + 1
  {
    hide InOrder, SumBodies, SumKids, BuildKids, Octant, Reads;
    BuildAddsAll(keys, ops, h, lo, hi, level, leaf);
    if !Stops(lo, hi, level, leaf) { KidsWhole(keys, ops, h, lo, hi, level, leaf); }
  }

  lemma {:induction false} KidsWhole(keys: seq<nat>, ops: Ops, h: Com -> seq<nat>, i: nat, hi: nat, level: nat,
                                     leaf: nat)
    requires i <= hi <= |keys| && level < NLEVELS && Reads(ops, h)
    ensures var kids := BuildKids(keys, ops, i, hi, level, leaf);
            Tiles(kids, i, hi) && (kids == [] <==> i == hi) && forall k :: 0 <= k < |kids| ==> Whole(h, kids[k])
    decreases NLEVELS - level, hi - i
  {
    hide Octant, Build, Reads, Whole;
    if i < hi {
      var j := RunEnd(keys, i + 1, hi, level, Octant(keys[i], level));
      var kid, rest := Build(keys, ops, i, j, level + 1, leaf), BuildKids(keys, ops, j, hi, level, leaf);
      BuildWhole(keys, ops, h, i, j, level + 1, leaf);
      KidsWhole(keys, ops, h, j, hi, level, leaf);
      BuildSpan(keys, ops, i, j, level + 1, leaf);
      assert ([kid] + rest)[1..] == rest;
    }
  }

  // ---------------- which ranges are divided, and how ----------------

  // Runs of equal digits, none empty, from lo to hi in growing digit order.
  ghost predicate Runs(keys: seq<nat>, kids: seq<Tree>, lo: nat, hi: nat, level: nat)
    requires hi <= |keys| && level <= NLEVELS
  {
    && (if kids == [] then lo == hi else kids[0].first == lo)
    && (forall k: nat :: k < |kids| ==> RunTo(keys, kids, k, hi, level))
    && forall k: nat :: 0 < k < |kids| ==> DigitGrows(keys, kids, k, level)
  }

  function NextFirst(kids: seq<Tree>, k: nat, hi: nat): nat
    requires k < |kids|
  {
    if k + 1 < |kids| then kids[k + 1].first else hi
  }

  ghost predicate RunTo(keys: seq<nat>, kids: seq<Tree>, k: nat, hi: nat, level: nat)
    requires k < |kids| && hi <= |keys| && level <= NLEVELS
  {
    var t := kids[k];
    && t.count > 0 && t.first + t.count == NextFirst(kids, k, hi) <= hi
    && forall i :: t.first <= i < t.first + t.count ==> Octant(keys[i], level) == Octant(keys[t.first], level)
  }

  ghost predicate DigitGrows(keys: seq<nat>, kids: seq<Tree>, k: nat, level: nat)
    requires 0 < k < |kids| && level <= NLEVELS
  {
    && kids[k - 1].first < |keys| && kids[k].first < |keys|
    && Octant(keys[kids[k - 1].first], level) < Octant(keys[kids[k].first], level)
  }

  // A node is divided iff it holds more than leaf bodies above the last level, and
  // then into the runs of its keys' next digit.
  ghost predicate Shaped(keys: seq<nat>, t: Tree, level: nat, leaf: nat)
    decreases t
  {
    && level <= NLEVELS && t.first + t.count <= |keys| && (t.leaf <==> t.kids == [])
    && (t.kids != [] <==> t.count > leaf && level < NLEVELS)
    && (t.kids != [] ==> Runs(keys, t.kids, t.first, t.first + t.count, level))
    && forall k :: 0 <= k < |t.kids| ==> Shaped(keys, t.kids[k], level + 1, leaf)
  }

  // For every leaf size the build makes that tree.
  lemma {:induction false} BuildShaped(keys: seq<nat>, ops: Ops, lo: nat, hi: nat, level: nat, leaf: nat)
    requires RangeOk(keys, lo, hi, level)
    ensures Shaped(keys, Build(keys, ops, lo, hi, level, leaf), level, leaf)
    decreases NLEVELS - level, |keys| + 1
  {
    hide SumBodies, SumKids, BuildKids, Octant, Shr;
    if !Stops(lo, hi, level, leaf) { KidsShaped(keys, ops, lo, hi, level, leaf); }
  }

  lemma {:induction false} KidsShaped(keys: seq<nat>, ops: Ops, i: nat, hi: nat, level: nat, leaf: nat)
    requires RangeOk(keys, i, hi, level) && level < NLEVELS
    ensures var kids := BuildKids(keys, ops, i, hi, level, leaf);
            (kids == [] <==> i == hi) && Runs(keys, kids, i, hi, level)
            && forall k :: 0 <= k < |kids| ==> Shaped(keys, kids[k], level + 1, leaf)
    decreases NLEVELS - level, hi - i
  {
    hide Octant, Build, Shr, RangeOk, Runs, Shaped;
    RangeBounds(keys, i, hi, level);
    if i < hi {
      var j := RunEnd(keys, i + 1, hi, level, Octant(keys[i], level));
      ChildRange(keys, i, hi, level, i, j);
      SubRange(keys, i, hi, level, j);
      var kid, rest := Build(keys, ops, i, j, level + 1, leaf), BuildKids(keys, ops, j, hi, level, leaf);
      BuildShaped(keys, ops, i, j, level + 1, leaf);
      KidsShaped(keys, ops, j, hi, level, leaf);
      BuildSpan(keys, ops, i, j, level + 1, leaf);
      if j < hi { DigitsSorted(keys, i, hi, level, i, j); }
      FirstRun(keys, kid, rest, i, j, hi, level);
    } else {
      NoRuns(keys, i, level);
    }
  }

  lemma BuildSpan(keys: seq<nat>, ops: Ops, lo: nat, hi: nat, level: nat, leaf: nat)
    requires lo <= hi <= |keys| && level <= NLEVELS
    ensures var t := Build(keys, ops, lo, hi, level, leaf); t.first == lo && t.count == hi - lo
  {
  }

  lemma NoRuns(keys: seq<nat>, i: nat, level: nat)
    requires i <= |keys| && level <= NLEVELS
    ensures Runs(keys, [], i, i, level)
  {
  }

  lemma FirstRun(keys: seq<nat>, kid: Tree, rest: seq<Tree>, i: nat, j: nat, hi: nat, level: nat)
    requires i < j <= hi <= |keys| && level <= NLEVELS && kid.first == i && kid.count == j - i
    requires Runs(keys, rest, j, hi, level) && (rest == [] <==> j == hi)
    requires forall k :: i <= k < j ==> Octant(keys[k], level) == Octant(keys[i], level)
    requires j < hi ==> Octant(keys[i], level) < Octant(keys[j], level)
    ensures Runs(keys, [kid] + rest, i, hi, level)
  {
    hide Octant;
    var kids := [kid] + rest;
    forall k: nat | k < |kids| ensures RunTo(keys, kids, k, hi, level) {
      if k > 0 { assert RunTo(keys, rest, k - 1, hi, level); }
    }
    forall k: nat | 0 < k < |kids| ensures DigitGrows(keys, kids, k, level) {
      if k > 1 { assert DigitGrows(keys, rest, k - 1, level); }
      if k == 1 { assert RunTo(keys, rest, 0, hi, level); }
    }
  }
}
