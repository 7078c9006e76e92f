// The force walk of one body, and the shared walk of a batch of bodies under a
// lane mask: each lane gets exactly its own walk's interactions, in order.
module ForceWalk {
  import opened Octree
  import BodyOrder

  // What a body interacts with: a whole cell, or one body.
  datatype Source = Cell(com: Com) | One(body: nat)

  // s2[level] < theta2 * d2, whatever its arithmetic.
  type Accept = (nat, Com, nat) -> bool

  // ---------------- walk_compact ----------------

  function Bodies(first: nat, count: nat, self: nat): seq<Source> {
    if count == 0 then []
    else Bodies(first, count - 1, self) + if first + count - 1 == self then [] else [One(first + count - 1)]
  }

  function SourcesOf(accept: Accept, kids: seq<Tree>, level: nat, b: nat): seq<Source>
    decreases kids, 0
  {
    if kids == [] then [] else Sources(accept, kids[0], level, b) + SourcesOf(accept, kids[1..], level, b)
  }

  function Sources(accept: Accept, t: Tree, level: nat, b: nat): seq<Source>
    decreases t, 1
  {
    if t.leaf then Bodies(t.first, t.count, b)
    else if accept(level, t.com, b) then [Cell(t.com)]
    else SourcesOf(accept, t.kids, level + 1, b)
  }

  lemma {:induction false} SourcesFrom(accept: Accept, kids: seq<Tree>, level: nat, b: nat, k: nat)
    requires k < |kids|
    ensures SourcesOf(accept, kids[k..], level, b)
        == Sources(accept, kids[k], level, b) + SourcesOf(accept, kids[k + 1..], level, b)
  {
    hide Sources;
    assert kids[k..][0] == kids[k] && kids[k..][1..] == kids[k + 1..];
  }

  method WalkCompact(accept: Accept, arr: seq<Node>, idx: nat, level: nat, b: nat, ghost t: Tree)
    returns (out: seq<Source>)
    requires Represents(arr, idx, t)
    ensures out == Sources(accept, t, level, b)
    decreases t
  {
    var n := arr[idx];
    if n.leaf {
      out := [];
      var i := n.first;
      while i < n.first + n.count
        invariant n.first <= i <= n.first + n.count && out == Bodies(n.first, i - n.first, b)
      {
        if i != b { out := out + [One(i)]; }
        i := i + 1;
      }
      return;
    }
    if accept(level, n.com, b) {
      return [Cell(n.com)];
    }
    out := [];
    var k := 0;
    assert t.kids[0..] == t.kids;
    while k < |n.child|
      invariant k <= |t.kids|
      invariant out + SourcesOf(accept, t.kids[k..], level + 1, b) == SourcesOf(accept, t.kids, level + 1, b)
    {
      var more := WalkCompact(accept, arr, idx + n.child[k], level + 1, b, t.kids[k]);
      SourcesFrom(accept, t.kids, level + 1, b, k);
      out := out + more;
      k := k + 1;
    }
  }

  // ---------------- every body once ----------------

  // The bodies a source stands for, h reading them off a cell's moments.
  function Behind(h: Com -> seq<nat>, s: Source): seq<nat> {
    match s
    case Cell(com) => h(com)
    case One(i) => [i]
  }

  function AllBehind(h: Com -> seq<nat>, ss: seq<Source>): seq<nat> {
    if ss == [] then [] else Behind(h, ss[0]) + AllBehind(h, ss[1..])
  }

  lemma {:induction false} BehindConcat(h: Com -> seq<nat>, a: seq<Source>, b: seq<Source>)
    ensures AllBehind(h, a + b) == AllBehind(h, a) + AllBehind(h, b)
  {
    hide Behind;
    if a == [] {
      assert a + b == b;
    } else {
      assert (a + b)[1..] == a[1..] + b;
      BehindConcat(h, a[1..], b);
    }
  }

  // Bodies lo up to hi, each once, with or without b.
  ghost predicate AllBut(s: seq<nat>, lo: nat, hi: nat, b: nat) {
    && lo <= hi
    && (BodyOrder.InOrder(s, lo, hi) || (lo <= b < hi && |s| == hi - lo - 1 && Skips(s, lo, b)))
  }

  ghost predicate Skips(s: seq<nat>, lo: nat, b: nat) {
    forall k :: 0 <= k < |s| ==> s[k] == if lo + k < b then lo + k else lo + k + 1
  }

  lemma JoinBut(x: seq<nat>, y: seq<nat>, a: nat, m: nat, c: nat, b: nat)
    requires AllBut(x, a, m, b) && AllBut(y, m, c, b)
    ensures AllBut(x + y, a, c, b)
  {
  }

  lemma {:induction false} LeafMeetsAll(h: Com -> seq<nat>, first: nat, count: nat, b: nat)
    ensures AllBut(AllBehind(h, Bodies(first, count, b)), first, first + count, b)
    decreases count
  {
    if count > 0 {
      var i := first + count - 1;
      var before := Bodies(first, count - 1, b);
      LeafMeetsAll(h, first, count - 1, b);
      if i != b {
        BehindConcat(h, before, [One(i)]);
        assert [One(i)][1..] == [];
        JoinBut(AllBehind(h, before), [i], first, i, i + 1, b);
      } else {
        assert before + [] == before;
      }
    }
  }

  // A body's walk stands for every other body of the tree exactly once, in order,
  // whatever cells it accepts.
  lemma {:induction false} WalkMeetsAll(accept: Accept, h: Com -> seq<nat>, t: Tree, level: nat, b: nat)
    requires BodyOrder.Whole(h, t)
    ensures AllBut(AllBehind(h, Sources(accept, t, level, b)), t.first, t.first + t.count, b)
    decreases t, 1
  {
    hide Bodies, SourcesOf, BodyOrder.Tiles;
    if t.leaf {
      LeafMeetsAll(h, t.first, t.count, b);
    } else if accept(level, t.com, b) {
      assert [Cell(t.com)][1..] == [];
    } else {
      KidsMeetAll(accept, h, t.kids, level + 1, b, t.first, t.first + t.count);
    }
  }

  lemma {:induction false} KidsMeetAll(accept: Accept, h: Com -> seq<nat>, kids: seq<Tree>, level: nat, b: nat, lo: nat,
                                       hi: nat)
    requires BodyOrder.Tiles(kids, lo, hi) && forall k :: 0 <= k < |kids| ==> BodyOrder.Whole(h, kids[k])
    ensures AllBut(AllBehind(h, SourcesOf(accept, kids, level, b)), lo, hi, b)
    decreases kids, 0
  {
    hide Sources, BodyOrder.Whole, Skips;
    if kids != [] {
      var one, rest := Sources(accept, kids[0], level, b), SourcesOf(accept, kids[1..], level, b);
      var mid := lo + kids[0].count;
      WalkMeetsAll(accept, h, kids[0], level, b);
      KidsMeetAll(accept, h, kids[1..], level, b, mid, hi);
      BehindConcat(h, one, rest);
      JoinBut(AllBehind(h, one), AllBehind(h, rest), lo, mid, hi, b);
    }
  }

  // ---------------- which nodes a walk meets ----------------

  // Node u at level lu lies in t, and every node above it is divided and not
  // accepted.
  ghost predicate Reached(accept: Accept, t: Tree, level: nat, b: nat, u: Tree, lu: nat)
    decreases t
  {
    || (u == t && lu == level)
    || (!t.leaf && !accept(level, t.com, b)
        && exists k :: 0 <= k < |t.kids| && Reached(accept, t.kids[k], level + 1, b, u, lu))
  }

  // A reached leaf gives its bodies but b, an accepted node its moments.
  ghost predicate Gives(accept: Accept, u: Tree, lu: nat, b: nat, x: Source) {
    match x
    case Cell(com) => !u.leaf && accept(lu, u.com, b) && com == u.com
    case One(i) => u.leaf && u.first <= i < u.first + u.count && i != b
  }

  lemma {:induction false} BodiesAre(first: nat, count: nat, b: nat, x: Source)
    ensures x in Bodies(first, count, b) <==> x.One? && first <= x.body < first + count && x.body != b
    decreases count
  {
    if count > 0 { BodiesAre(first, count - 1, b, x); }
  }

  // The walk's sources are those of the nodes reached and no others.
  lemma {:induction false} SourcesAre(accept: Accept, t: Tree, level: nat, b: nat, x: Source)
    ensures x in Sources(accept, t, level, b)
       <==> exists u, lu :: Reached(accept, t, level, b, u, lu) && Gives(accept, u, lu, b, x)
    decreases t, 1
  {
    hide Bodies, SourcesOf, Gives;
    if t.leaf || accept(level, t.com, b) {
      BodiesAre(t.first, t.count, b, x);
      GivesOnce(accept, t, level, b, x);
      assert Reached(accept, t, level, b, t, level);
    } else {
      KidsSourcesAre(accept, t.kids, level + 1, b, x);
      GivesOnce(accept, t, level, b, x);
    }
  }

  lemma GivesOnce(accept: Accept, t: Tree, level: nat, b: nat, x: Source)
    ensures t.leaf ==>
              (Gives(accept, t, level, b, x) <==> x.One? && t.first <= x.body < t.first + t.count && x.body != b)
    ensures !t.leaf ==> (Gives(accept, t, level, b, x) <==> accept(level, t.com, b) && x == Cell(t.com))
  {
  }

  lemma {:induction false} KidsSourcesAre(accept: Accept, kids: seq<Tree>, level: nat, b: nat, x: Source)
    ensures x in SourcesOf(accept, kids, level, b)
       <==> exists u, lu, k :: 0 <= k < |kids| && Reached(accept, kids[k], level, b, u, lu)
                            && Gives(accept, u, lu, b, x)
    decreases kids, 0
  {
    hide Sources, Gives, Reached;
    if kids != [] {
      var rest := kids[1..];
      SourcesAre(accept, kids[0], level, b, x);
      KidsSourcesAre(accept, rest, level, b, x);
      assert forall k :: 0 <= k < |rest| ==> rest[k] == kids[k + 1];
      if u, lu, k :| 0 < k < |kids| && Reached(accept, kids[k], level, b, u, lu) && Gives(accept, u, lu, b, x) {
        assert rest[k - 1] == kids[k];
      }
    }
  }

  // ---------------- trees are shallow and narrow ----------------

  // Leaves at the last level at the latest, and at most eight children.
  ghost predicate Shallow(t: Tree, level: nat) {
    && level <= NLEVELS && (level == NLEVELS ==> t.leaf) && |t.kids| <= 8
    && (!t.leaf ==> forall k :: 0 <= k < |t.kids| ==> Shallow(t.kids[k], level + 1))
  }

  ghost predicate AllShallow(kids: seq<Tree>, level: nat) {
    forall k :: 0 <= k < |kids| ==> Shallow(kids[k], level)
  }

  lemma {:induction false} FewKids(keys: seq<nat>, ops: Ops, lo: nat, i: nat, hi: nat, level: nat, leaf: nat)
    requires RangeOk(keys, lo, hi, level) && lo <= i < hi && level < NLEVELS
    ensures Octant(keys[i], level) < 8 && |BuildKids(keys, ops, i, hi, level, leaf)| <= 8 - Octant(keys[i], level)
    decreases hi - i
  {
    hide Octant, Build, Shr;
    OctantSmall(keys[i], level);
    var j := RunEnd(keys, i + 1, hi, level, Octant(keys[i], level));
    if j < hi {
      FewKids(keys, ops, lo, j, hi, level, leaf);
      DigitsSorted(keys, lo, hi, level, i, j);
    }
  }

  lemma OctantSmall(key: nat, level: nat)
    requires level <= NLEVELS
    ensures Octant(key, level) < 8
  {
  }

  lemma {:induction false} KidsShallow(keys: seq<nat>, ops: Ops, lo: nat, i: nat, hi: nat, level: nat, leaf: nat)
    requires RangeOk(keys, lo, hi, level) && lo <= i <= hi && level < NLEVELS
    ensures AllShallow(BuildKids(keys, ops, i, hi, level, leaf), level + 1)
    decreases NLEVELS - level, hi - i
  {
    hide Octant, Build, Shr, Shallow;
    if i < hi {
      var j := RunEnd(keys, i + 1, hi, level, Octant(keys[i], level));
      RunIsRange(keys, lo, hi, level, i, j);
      BuildShallow(keys, ops, i, j, level + 1, leaf);
      KidsShallow(keys, ops, lo, j, hi, level, leaf);
      var rest := BuildKids(keys, ops, j, hi, level, leaf);
      var kids := BuildKids(keys, ops, i, hi, level, leaf);
      assert kids == [Build(keys, ops, i, j, level + 1, leaf)] + rest;
    }
  }

  // What the build makes is shallow and narrow.
  lemma {:induction false} BuildShallow(keys: seq<nat>, ops: Ops, lo: nat, hi: nat, level: nat, leaf: nat)
    requires RangeOk(keys, lo, hi, level)
    ensures Shallow(Build(keys, ops, lo, hi, level, leaf), level)
    decreases NLEVELS - level, |keys| + 1
  {
    hide BuildKids, Shr;
    if !Stops(lo, hi, level, leaf) {
      FewKids(keys, ops, lo, lo, hi, level, leaf);
      KidsShallow(keys, ops, lo, lo, hi, level, leaf);
    }
  }

  // ---------------- walk_compactN ----------------

  datatype Frame = Frame(idx: nat, level: nat, active: set<nat>)

  const FRAMES: nat := NLEVELS * 7 + 8

  // What is still to come for one lane; the top of the stack is the end.
  ghost function Rest(accept: Accept, base: nat, lane: nat, stk: seq<Frame>, trees: seq<Tree>): seq<Source>
    requires |trees| == |stk|
  {
    if stk == [] then []
    else
      var n := |stk| - 1;
      (if lane in stk[n].active then Sources(accept, trees[n], stk[n].level, base + lane) else [])
      + Rest(accept, base, lane, stk[..n], trees[..n])
  }

  ghost predicate Framed(arr: seq<Node>, lanes: nat, stk: seq<Frame>, trees: seq<Tree>) {
    && |trees| == |stk|
    && forall i :: 0 <= i < |stk| ==> FrameOk(arr, lanes, stk[i], trees[i], i)
  }

  // A frame's subtree, and seven waiting siblings a level at most below it.
  ghost predicate FrameOk(arr: seq<Node>, lanes: nat, f: Frame, t: Tree, i: nat) {
    Represents(arr, f.idx, t) && Shallow(t, f.level) && i <= 7 * f.level && forall k :: k in f.active ==> k < lanes
  }

  lemma KidFacts(arr: seq<Node>, lanes: nat, f: Frame, t: Tree, i: nat)
    requires FrameOk(arr, lanes, f, t, i) && !t.leaf
    ensures f.idx < |arr| && |arr[f.idx].child| == |t.kids| <= 8 && f.level < NLEVELS
    ensures forall k :: 0 <= k < |t.kids| ==>
          Represents(arr, f.idx + arr[f.idx].child[k], t.kids[k]) && Shallow(t.kids[k], f.level + 1)
  {
  }

  lemma FramesPush(arr: seq<Node>, lanes: nat, stk: seq<Frame>, trees: seq<Tree>, g: Frame, t: Tree)
    requires Framed(arr, lanes, stk, trees) && FrameOk(arr, lanes, g, t, |stk|)
    ensures Framed(arr, lanes, stk + [g], trees + [t])
  {
    hide FrameOk;
  }

  lemma FramesPop(arr: seq<Node>, lanes: nat, stk: seq<Frame>, trees: seq<Tree>)
    requires Framed(arr, lanes, stk, trees) && stk != []
    ensures var n := |stk| - 1; Framed(arr, lanes, stk[..n], trees[..n]) && FrameOk(arr, lanes, stk[n], trees[n], n)
  {
    hide FrameOk;
  }

  lemma FrameHeader(arr: seq<Node>, lanes: nat, f: Frame, t: Tree, i: nat)
    requires FrameOk(arr, lanes, f, t, i)
    ensures f.idx < |arr| && Header(arr[f.idx], t) && f.level <= NLEVELS && i <= 7 * f.level
  {
  }

  lemma RestPush(accept: Accept, base: nat, lane: nat, stk: seq<Frame>, trees: seq<Tree>, f: Frame, t: Tree)
    requires |trees| == |stk|
    ensures Rest(accept, base, lane, stk + [f], trees + [t])
         == (if lane in f.active then Sources(accept, t, f.level, base + lane) else []) + Rest(accept, base, lane,
               stk, trees)
  {
    hide Sources;
    assert (stk + [f])[..|stk|] == stk && (trees + [t])[..|stk|] == trees;
  }

  ghost function TreeSizes(trees: seq<Tree>): nat {
    if trees == [] then 0 else TreeSizes(trees[..|trees| - 1]) + Count(trees[|trees| - 1])
  }

  lemma SizesPush(trees: seq<Tree>, t: Tree)
    ensures TreeSizes(trees + [t]) == TreeSizes(trees) + Count(t)
  {
    hide Count;
    assert (trees + [t])[..|trees|] == trees;
  }

  class LaneWalker {
    const accept: Accept
    const base: nat
    const lanes: nat
    // The accumulators, as the interactions that went into each lane's.
    var acc: map<nat, seq<Source>>

    constructor (accept0: Accept, base0: nat, lanes0: nat)
      ensures accept == accept0 && base == base0 && lanes == lanes0 && forall k :: Of(k) == []
    {
      accept, base, lanes, acc := accept0, base0, lanes0, map[];
    }

    function Of(k: nat): seq<Source>
      reads this
    {
      if k in acc then acc[k] else []
    }

    // interactN: blended into the lanes of the mask only.
    method InteractN(s: Source, mask: set<nat>)
      modifies this
      ensures forall k :: Of(k) == old(Of(k)) + if k in mask then [s] else []
    {
      var left := mask;
      while left != {}
        invariant left <= mask && forall k :: Of(k) == old(Of(k)) + if k in mask - left then [s] else []
        decreases |left|
      {
        var k :| k in left;
        acc := acc[k := Of(k) + [s]];
        left := left - {k};
      }
    }

    // One body of a leaf, for the lanes whose own body it is not.
    method BodyN(i: nat, active: set<nat>)
      requires forall k :: k in active ==> k < lanes
      modifies this
      ensures forall k :: Of(k) == old(Of(k)) + if k in active && i != base + k then [One(i)] else []
    {
      var self: set<nat> := if base <= i < base + lanes then {i - base} else {};
      var m := active - self;
      if m != {} { InteractN(One(i), m); }
      assert forall k :: k in m <==> k in active && i != base + k;
    }

    // A leaf's bodies, each skipping the lane whose own body it is.
    method LeafN(first: nat, count: nat, active: set<nat>)
      requires forall k :: k in active ==> k < lanes
      modifies this
      ensures forall k :: Of(k) == old(Of(k)) + if k in active then Bodies(first, count, base + k) else []
    {
      hide Bodies;
      var i := first;
      forall k: nat ensures LaneBodies(base, first, first, k) == [] { NoBodies(first, base + k); }
      while i < first + count
        invariant first <= i <= first + count
        invariant forall k :: Of(k) == old(Of(k)) + if k in active then LaneBodies(base, first, i, k) else []
      {
        BodyN(i, active);
        ghost var next := i + 1;
        forall k: nat
          ensures LaneBodies(base, first, next, k) == LaneBodies(base, first, i, k) + if i
              == base + k then [] else [One(i)]
        {
          NextBody(first, i, base + k);
        }
        i := i + 1;
      }
    }

    // The children, last first, for the lanes that remain: the frames never
    // outgrow the fixed stack.
    method PushKids(arr: seq<Node>, f: Frame, ghost t: Tree, remain: set<nat>, stk0: seq<Frame>,
                    ghost trees0: seq<Tree>)
      returns (stk: seq<Frame>, ghost trees: seq<Tree>)
      requires Framed(arr, lanes, stk0, trees0) && FrameOk(arr, lanes, f, t, |stk0|) && !t.leaf && remain <= f.active
      ensures Framed(arr, lanes, stk, trees) && |stk| <= FRAMES
      ensures forall k :: Rest(accept, base, k, stk, trees)
                       == (if k in remain then SourcesOf(accept, t.kids, f.level + 1,
                             base + k) else []) + Rest(accept, base, k, stk0, trees0)
      ensures TreeSizes(trees) == TreeSizes(trees0) + CountKids(t.kids)
    {
      hide Sources, SourcesOf, Rest, Represents, TreeSizes, Count, CountKids, Shallow, Framed;
      KidFacts(arr, lanes, f, t, |stk0|);
      FramedLength(arr, lanes, stk0, trees0);
      var n := arr[f.idx];
      stk, trees := stk0, trees0;
      var k := |n.child|;
      assert t.kids[k..] == [] && t.kids[..k] == t.kids;
      NothingPending(accept, base, f.level + 1, remain, stk, trees);
      while k > 0
        invariant 0 <= k <= |t.kids| && |stk| == |trees| == |stk0| + |t.kids| - k && Framed(arr, lanes, stk, trees)
        invariant Pending(accept, base, t.kids[k..], f.level + 1, remain, stk, trees, stk0, trees0)
        invariant TreeSizes(trees) + CountKids(t.kids[..k]) == TreeSizes(trees0) + CountKids(t.kids)
      {
        k := k - 1;
        KidInside(t.kids, k);
        SizesPush(trees, t.kids[k]);
        var g := Frame(f.idx + n.child[k], f.level + 1, remain);
        PendingStep(accept, base, t.kids, k, f.level + 1, g, stk, trees, stk0, trees0);
        FramesPush(arr, lanes, stk, trees, g, t.kids[k]);
        stk, trees := stk + [g], trees + [t.kids[k]];
      }
      assert t.kids[k..] == t.kids && t.kids[..k] == [];
      NoKidCount();
      assert Pending(accept, base, t.kids, f.level + 1, remain, stk, trees, stk0, trees0);
    }

    // The top frame is a leaf.
    method LeafTurn(f: Frame, ghost t: Tree, n: Node)
      requires t.leaf && n.first == t.first && n.count == t.count && forall k :: k in f.active ==> k < lanes
      modifies this
      ensures forall k :: Of(k) == old(Of(k)) + Share(accept, base, f, t, k)
    {
      hide Sources, Bodies;
      LeafN(n.first, n.count, f.active);
      forall k ensures Of(k) == old(Of(k)) + Share(accept, base, f, t, k) {
        LeafSources(accept, t, f.level, base + k);
      }
    }

    // It is not: the lanes that take the whole cell are done, the children wait
    // for the others.
    method InnerTurn(arr: seq<Node>, f: Frame, ghost t: Tree, stk0: seq<Frame>, ghost trees0: seq<Tree>)
      returns (stk: seq<Frame>, ghost trees: seq<Tree>)
      requires Framed(arr, lanes, stk0, trees0) && |stk0| <= FRAMES && FrameOk(arr, lanes, f, t, |stk0|) && !t.leaf
      modifies this
      ensures Framed(arr, lanes, stk, trees) && |stk| == |trees| <= FRAMES
      ensures TreeSizes(trees) <= TreeSizes(trees0) + CountKids(t.kids)
      ensures |trees0| == |stk0|
      ensures forall k :: Of(k) + Rest(accept, base, k, stk, trees)
                       == old(Of(k)) + (Share(accept, base, f, t, k) + Rest(accept, base, k, stk0, trees0))
    {
      hide Sources, SourcesOf, Represents, Rest, TreeSizes, Shallow, Framed, FrameOk, CountKids, Share, Accepting;
      FramedLength(arr, lanes, stk0, trees0);
      FrameHeader(arr, lanes, f, t, |stk0|);
      var n := arr[f.idx];
      var taken := Accepting(accept, base, f.level, n.com, f.active);
      if taken != {} { InteractN(Cell(n.com), taken); }
      var remain := f.active - taken;
      assert forall k :: k in remain <==> k in f.active && k !in taken;
      stk, trees := stk0, trees0;
      if remain != {} {
        stk, trees := PushKids(arr, f, t, remain, stk, trees);
      }
      FramedLength(arr, lanes, stk, trees);
      forall k ensures Of(k) + Rest(accept, base, k, stk, trees)
                    == old(Of(k)) + (Share(accept, base, f, t, k) + Rest(accept, base, k, stk0, trees0))
      {
        InnerShare(accept, base, f, t, k);
        var s1 := if k in taken then [Cell(t.com)] else [];
        var s2 := if k in remain then SourcesOf(accept, t.kids, f.level + 1, base + k) else [];
        Balance(old(Of(k)), Of(k), s1, s2, Share(accept, base, f, t, k), Rest(accept, base, k, stk0, trees0),
                Rest(accept, base, k, stk, trees));
      }
    }

    // One turn: the top frame against the lanes still in it.
    method Turn(arr: seq<Node>, stk0: seq<Frame>, ghost trees0: seq<Tree>)
      returns (stk: seq<Frame>, ghost trees: seq<Tree>)
      requires Framed(arr, lanes, stk0, trees0) && stk0 != [] && |stk0| <= FRAMES
      modifies this
      ensures Framed(arr, lanes, stk, trees) && |stk| <= FRAMES && TreeSizes(trees) < TreeSizes(trees0)
      ensures forall k :: Of(k) + Rest(accept, base, k, stk, trees) == old(Of(k)) + Rest(accept, base, k, stk0, trees0)
    {
      hide Represents, Rest, TreeSizes, Shallow, Framed, FrameOk, Count, CountKids, Share;
      FramedLength(arr, lanes, stk0, trees0);
      var sp := |stk0| - 1;
      var f := stk0[sp];
      ghost var t := trees0[sp];
      stk, trees := stk0[..sp], trees0[..sp];
      FramesPop(arr, lanes, stk0, trees0);
      FrameHeader(arr, lanes, f, t, sp);
      LanesIn(arr, lanes, f, t, sp);
      assert stk0 == stk + [f] && trees0 == trees + [t];
      SizesPush(trees, t);
      CountsMore(t);
      forall k
        ensures Rest(accept, base, k, stk0, trees0) == Share(accept, base, f, t, k) + Rest(accept, base, k, stk, trees)
      {
        RestPushed(accept, base, k, stk, trees, f, t);
      }
      if arr[f.idx].leaf {
        LeafTurn(f, t, arr[f.idx]);
      } else {
        stk, trees := InnerTurn(arr, f, t, stk, trees);
      }
    }

    // The whole shared walk.
    method WalkCompactN(arr: seq<Node>, idx: nat, ghost t: Tree, active: set<nat>)
      requires Represents(arr, idx, t) && Shallow(t, 0) && forall k :: k in active ==> k < lanes
      modifies this
      ensures forall k :: Of(k) == old(Of(k)) + if k in active then Sources(accept, t, 0, base + k) else []
    {
      hide Sources, Represents, Rest, TreeSizes, Shallow, Framed;
      if active == {} { return; }
      var stk := [Frame(idx, 0, active)];
      ghost var trees := [t];
      FirstFrame(arr, lanes, idx, t, active);
      forall k
        ensures Rest(accept, base, k, stk, trees) == if k in active then Sources(accept, t, 0, base + k) else []
      {
        FirstRest(accept, base, k, stk[0], t);
      }
      while stk != []
        invariant Framed(arr, lanes, stk, trees) && |stk| == |trees| <= FRAMES
        invariant forall k ::
                    Of(k) + Rest(accept, base, k, stk, trees)
                    == old(Of(k)) + if k in active then Sources(accept, t, 0, base + k) else []
        decreases TreeSizes(trees)
      {
        stk, trees := Turn(arr, stk, trees);
        FramedLength(arr, lanes, stk, trees);
      }
      FramedLength(arr, lanes, stk, trees);
      forall k ensures Rest(accept, base, k, stk, trees) == [] { NoRest(accept, base, k); }
    }
  }

  // What a frame still owes lane k.
  ghost function Share(accept: Accept, base: nat, f: Frame, t: Tree, k: nat): seq<Source> {
    if k in f.active then Sources(accept, t, f.level, base + k) else []
  }

  // The lanes that accept the cell.
  function Accepting(accept: Accept, base: nat, level: nat, com: Com, active: set<nat>): (taken: set<nat>)
    ensures forall k :: k in taken <==> k in active && accept(level, com, base + k)
  {
    set k | k in active && accept(level, com, base + k)
  }

  lemma Balance(o: seq<Source>, o': seq<Source>, s1: seq<Source>, s2: seq<Source>, share: seq<Source>,
                rest: seq<Source>, rest': seq<Source>)
    requires o' == o + s1 && rest' == s2 + rest && share == s1 + s2
    ensures o' + rest' == o + (share + rest)
  {
  }

  lemma InnerShare(accept: Accept, base: nat, f: Frame, t: Tree, k: nat)
    requires !t.leaf
    ensures Share(accept, base, f, t, k)
         == if k !in f.active then []
            else if accept(f.level, t.com, base + k) then [Cell(t.com)]
            else SourcesOf(accept, t.kids, f.level + 1, base + k)
  {
    hide Sources;
    InnerSources(accept, t, f.level, base + k);
  }

  // The lanes of remain still owe the children from k on, and then what was there.
  ghost predicate Pending(accept: Accept, base: nat, kids: seq<Tree>, level: nat, remain: set<nat>,
                          stk: seq<Frame>, trees: seq<Tree>, stk0: seq<Frame>, trees0: seq<Tree>)
    requires |trees| == |stk| && |trees0| == |stk0|
  {
    forall l :: Rest(accept, base, l, stk, trees)
             == (if l in remain then SourcesOf(accept, kids, level, base + l) else [])
                + Rest(accept, base, l, stk0, trees0)
  }

  lemma PendingStep(accept: Accept, base: nat, kids: seq<Tree>, k: nat, level: nat, g: Frame,
                    stk: seq<Frame>, trees: seq<Tree>, stk0: seq<Frame>, trees0: seq<Tree>)
    requires |trees| == |stk| && |trees0| == |stk0| && k < |kids| && g.level == level
    requires Pending(accept, base, kids[k + 1..], level, g.active, stk, trees, stk0, trees0)
    ensures Pending(accept, base, kids[k..], level, g.active, stk + [g], trees + [kids[k]], stk0, trees0)
  {
    hide Sources, SourcesOf, Rest;
    forall l ensures Rest(accept, base, l, stk + [g], trees + [kids[k]])
                  == (if l in g.active then SourcesOf(accept, kids[k..], level, base + l) else []) + Rest(accept,
                        base, l, stk0, trees0)
    {
      RestPush(accept, base, l, stk, trees, g, kids[k]);
      SourcesFrom(accept, kids, level, base + l, k);
    }
  }

  lemma NothingPending(accept: Accept, base: nat, level: nat, remain: set<nat>, stk: seq<Frame>, trees: seq<Tree>)
    requires |trees| == |stk|
    ensures Pending(accept, base, [], level, remain, stk, trees, stk, trees)
  {
    hide Rest;
  }

  lemma RestPushed(accept: Accept, base: nat, k: nat, stk: seq<Frame>, trees: seq<Tree>, f: Frame, t: Tree)
    requires |trees| == |stk|
    ensures Rest(accept, base, k, stk + [f], trees + [t])
        == Share(accept, base, f, t, k) + Rest(accept, base, k, stk, trees)
  {
    hide Sources, Rest;
    RestPush(accept, base, k, stk, trees, f, t);
  }

  ghost function LaneBodies(base: nat, first: nat, i: nat, k: nat): seq<Source>
    requires first <= i
  {
    Bodies(first, i - first, base + k)
  }

  lemma NoBodies(first: nat, self: nat)
    ensures Bodies(first, 0, self) == []
  {
  }

  lemma NextBody(first: nat, i: nat, self: nat)
    requires first <= i
    ensures Bodies(first, i + 1 - first, self) == Bodies(first, i - first, self) + if i == self then [] else [One(i)]
  {
  }

  lemma FramedLength(arr: seq<Node>, lanes: nat, stk: seq<Frame>, trees: seq<Tree>)
    requires Framed(arr, lanes, stk, trees)
    ensures |stk| == |trees|
  {
  }

  lemma NoKidCount()
    ensures CountKids([]) == 0
  {
  }

  lemma LanesIn(arr: seq<Node>, lanes: nat, f: Frame, t: Tree, i: nat)
    requires FrameOk(arr, lanes, f, t, i)
    ensures forall k :: k in f.active ==> k < lanes
  {
  }

  lemma CountsMore(t: Tree)
    ensures CountKids(t.kids) < Count(t)
  {
    hide CountKids;
  }

  lemma LeafSources(accept: Accept, t: Tree, level: nat, b: nat)
    requires t.leaf
    ensures Sources(accept, t, level, b) == Bodies(t.first, t.count, b)
  {
  }

  lemma InnerSources(accept: Accept, t: Tree, level: nat, b: nat)
    requires !t.leaf
    ensures Sources(accept, t, level, b)
         == if accept(level, t.com, b) then [Cell(t.com)] else SourcesOf(accept, t.kids, level + 1, b)
  {
  }

  lemma FirstFrame(arr: seq<Node>, lanes: nat, idx: nat, t: Tree, active: set<nat>)
    requires Represents(arr, idx, t) && Shallow(t, 0) && forall k :: k in active ==> k < lanes
    ensures Framed(arr, lanes, [Frame(idx, 0, active)], [t])
  {
  }

  lemma FirstRest(accept: Accept, base: nat, k: nat, f: Frame, t: Tree)
    ensures Rest(accept, base, k, [f], [t]) == if k in f.active then Sources(accept, t, f.level, base + k) else []
  {
    hide Sources;
    assert [f][..0] == [] && [t][..0] == [];
  }

  lemma NoRest(accept: Accept, base: nat, k: nat)
    ensures Rest(accept, base, k, [], []) == []
  {
  }
}
