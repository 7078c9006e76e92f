// The sequential build into a growing vector, and the two passes the
// cooperative build splits it into: a walk that only records the structure, and
// a fold that replays the record.
module OctreeBuild {
  import opened Octree
  import BodyOrder

  // ---------------- children in place ----------------

  ghost predicate KidAt(vec: seq<Node>, own: nat, kids: seq<Tree>, k: nat)
    requires own < |vec| && |kids| <= |vec[own].child| && k < |kids|
  {
    vec[own].child[k] == 1 + CountKids(kids[..k]) && Packed(vec, own + vec[own].child[k], kids[k])
  }

  // The children of node `own` so far, packed behind it up to `end`.
  ghost predicate KidsPlaced(vec: seq<Node>, own: nat, kids: seq<Tree>, end: nat) {
    && own < |vec| && |vec[own].child| == |kids| && end == own + 1 + CountKids(kids) <= |vec|
    && forall k: nat :: k < |kids| ==> KidAt(vec, own, kids, k)
  }

  lemma KidAppended(vec: seq<Node>, own: nat, kids: seq<Tree>, end: nat, vec': seq<Node>, kid: Tree, end': nat)
    requires KidsPlaced(vec, own, kids, end) && Packed(vec', end, kid) && end' == end + Count(kid)
    requires |vec'| >= end' && (forall i :: own < i < end ==> vec'[i] == vec[i])
    requires vec'[own].child == vec[own].child + [end - own]
    ensures KidsPlaced(vec', own, kids + [kid], end')
  {
    hide CountKids, Count, Packed;
    var all := kids + [kid];
    AppendCount(kids, kid);
    forall k: nat | k < |all| ensures KidAt(vec', own, all, k) {
      if k < |kids| {
        assert KidAt(vec, own, kids, k);
        assert all[..k] == kids[..k];
        KidInside(kids, k);
        CountFits(vec, own + vec[own].child[k], kids[k]);
        PackedFrame(vec, vec', own + vec[own].child[k], kids[k]);
      } else {
        assert all[..k] == kids;
      }
    }
  }

  lemma CountFits(vec: seq<Node>, pos: nat, t: Tree)
    requires Packed(vec, pos, t)
    ensures pos + Count(t) <= |vec|
  {
    hide Count;
  }

  lemma AppendCount(kids: seq<Tree>, kid: Tree)
    ensures CountKids(kids + [kid]) == CountKids(kids) + Count(kid)
  {
    hide Count;
    assert (kids + [kid])[..|kids|] == kids;
  }

  // A node whose children are placed and whose moments are folded is packed.
  lemma ParentPacked(vec: seq<Node>, own: nat, t: Tree, end: nat)
    requires KidsPlaced(vec, own, t.kids, end) && Header(vec[own], t)
    ensures Packed(vec, own, t) && end == own + Count(t)
  {
    hide CountKids;
    forall k: nat | k < |t.kids| ensures PackedKid(vec, own, t, k) {
      assert KidAt(vec, own, t.kids, k);
    }
  }

  // Changing a node's own header leaves its children where they are.
  lemma HeaderChanged(vec: seq<Node>, own: nat, kids: seq<Tree>, end: nat, vec': seq<Node>)
    requires KidsPlaced(vec, own, kids, end) && |vec'| == |vec| && vec'[own].child == vec[own].child
    requires forall i :: own < i < |vec| ==> vec'[i] == vec[i]
    ensures KidsPlaced(vec', own, kids, end)
  {
    hide CountKids, Count, Packed;
    forall k: nat | k < |kids| ensures KidAt(vec', own, kids, k) {
      assert KidAt(vec, own, kids, k);
      CountFits(vec, own + vec[own].child[k], kids[k]);
      PackedFrame(vec, vec', own + vec[own].child[k], kids[k]);
    }
  }

  method FoldBodies(ops: Ops, lo: nat, hi: nat) returns (com: Com)
    requires lo <= hi
    ensures com == ops.fin(SumBodies(ops, lo, hi))
    ensures forall h: Com -> seq<nat> :: BodyOrder.Reads(ops, h) ==> BodyOrder.InOrder(h(com), lo, hi)
  {
    com := ops.zero;
    var i := lo;
    while i < hi
      invariant lo <= i <= hi && com == SumBodies(ops, lo, i)
    {
      com := ops.body(com, i);
      i := i + 1;
    }
    com := ops.fin(com);
    forall h: Com -> seq<nat> | BodyOrder.Reads(ops, h) ensures BodyOrder.InOrder(h(com), lo, hi) {
      BodyOrder.BodiesRead(ops, h, lo, hi);
    }
  }

  lemma KidComs(vec: seq<Node>, own: nat, kids: seq<Tree>, end: nat, k: nat)
    requires KidsPlaced(vec, own, kids, end) && k < |kids|
    ensures own + vec[own].child[k] < |vec| && vec[own + vec[own].child[k]].com == kids[k].com
  {
    hide CountKids;
    assert KidAt(vec, own, kids, k);
  }

  method FoldKids(ops: Ops, vec: seq<Node>, own: nat, ghost kids: seq<Tree>, ghost end: nat) returns (com: Com)
    requires KidsPlaced(vec, own, kids, end)
    ensures com == ops.fin(SumKids(ops, kids))
  {
    hide CountKids, KidAt;
    com := ops.zero;
    var k := 0;
    while k < |vec[own].child|
      invariant k <= |kids| && com == SumKids(ops, kids[..k])
    {
      KidComs(vec, own, kids, end, k);
      assert kids[..k + 1][..k] == kids[..k];
      com := ops.child(com, vec[own + vec[own].child[k]].com);
      k := k + 1;
    }
    assert kids[..k] == kids;
    com := ops.fin(com);
  }

  // ---------------- build_rec_direct ----------------

  method BuildRecDirect(keys: seq<nat>, ops: Ops, lo: nat, hi: nat, level: nat, leaf: nat, vec0: seq<Node>)
    returns (vec: seq<Node>)
    requires RangeOk(keys, lo, hi, level)
    ensures |vec0| <= |vec| && vec[..|vec0|] == vec0
    ensures Packed(vec, |vec0|, Build(keys, ops, lo, hi, level, leaf))
    ensures |vec| == |vec0| + Count(Build(keys, ops, lo, hi, level, leaf))
    ensures lo <= hi && |vec| > |vec0|
    ensures forall h: Com -> seq<nat> :: BodyOrder.Reads(ops, h) ==> BodyOrder.InOrder(h(vec[|vec0|].com), lo, hi)
    decreases NLEVELS - level
  {
    hide BodyOrder.Reads, BodyOrder.InOrder;
    hide RangeOk, RunEnd, Octant, Packed, CountKids, KidsPlaced, Header, Count, BuildKids;
    RangeBounds(keys, lo, hi, level);
    var own := |vec0|;
    HoldsAll(keys, ops, lo, hi, level, leaf);
    if hi - lo <= leaf || level >= NLEVELS {
      var com := FoldBodies(ops, lo, hi);
      vec := vec0 + [Node(lo, hi - lo, true, com, [])];
      LeafPacked(vec, own, Build(keys, ops, lo, hi, level, leaf));
      return;
    }
    vec := vec0 + [Node(lo, hi - lo, false, ops.zero, [])];
    ghost var done: seq<Tree> := [];
    var i := lo;
    NoKids(vec, own);
    ghost var all := BuildKids(keys, ops, lo, hi, level, leaf);
    while i < hi
      invariant lo <= i <= hi && own < |vec| && vec[..own] == vec0
      invariant KidsPlaced(vec, own, done, |vec|)
      invariant vec[own].first == lo && vec[own].count == hi - lo && !vec[own].leaf
      invariant all == done + BuildKids(keys, ops, i, hi, level, leaf)
    {
      var c := Octant(keys[i], level);
      SubRange(keys, lo, hi, level, i);
      var j := OctantRunEnd(keys, i + 1, hi, level, c);
      ghost var before := vec;
      vec := vec[own := vec[own].(child := vec[own].child + [|vec| - own])];
      ChildRange(keys, lo, hi, level, i, j);
      vec := BuildRecDirect(keys, ops, i, j, level + 1, leaf, vec);
      KidAppended(before, own, done, |before|, vec, Build(keys, ops, i, j, level + 1, leaf), |vec|);
      KidsStep(keys, ops, i, j, hi, level, leaf, all, done, Build(keys, ops, i, j, level + 1, leaf));
      done := done + [Build(keys, ops, i, j, level + 1, leaf)];
      i := j;
    }
    KidsEnd(keys, ops, hi, level, leaf);
    assert done == BuildKids(keys, ops, lo, hi, level, leaf);
    var com := FoldKids(ops, vec, own, done, |vec|);
    ghost var before := vec;
    vec := vec[own := vec[own].(com := com)];
    HeaderChanged(before, own, done, |vec|, vec);
    ParentPacked(vec, own, Build(keys, ops, lo, hi, level, leaf),
          |vec|) by { hide *; HeaderIs(vec[own], Build(keys, ops, lo, hi, level, leaf)); }
  }

  lemma HoldsAll(keys: seq<nat>, ops: Ops, lo: nat, hi: nat, level: nat, leaf: nat)
    requires lo <= hi <= |keys| && level <= NLEVELS
    ensures forall h: Com -> seq<nat> :: BodyOrder.Reads(ops, h) ==>
              BodyOrder.InOrder(h(Build(keys, ops, lo, hi, level, leaf).com), lo, hi)
  {
    hide Build, BodyOrder.Reads, BodyOrder.InOrder;
    forall h: Com -> seq<nat> | BodyOrder.Reads(ops, h)
      ensures BodyOrder.InOrder(h(Build(keys, ops, lo, hi, level, leaf).com), lo, hi)
    {
      BodyOrder.BuildAddsAll(keys, ops, h, lo, hi, level, leaf);
    }
  }

  // The loop over the runs, as far as the kids so far and those still to come.
  lemma KidsStep(keys: seq<nat>, ops: Ops, i: nat, j: nat, hi: nat, level: nat, leaf: nat, all: seq<Tree>,
                 done: seq<Tree>, kid: Tree)
    requires i < hi <= |keys| && level < NLEVELS && j == RunEnd(keys, i + 1, hi, level, Octant(keys[i], level))
    requires kid == Build(keys, ops, i, j, level + 1, leaf) && all == done + BuildKids(keys, ops, i, hi, level, leaf)
    ensures all == done + [kid] + BuildKids(keys, ops, j, hi, level, leaf)
  {
    hide Octant, RunEnd, Build;
  }

  lemma KidsEnd(keys: seq<nat>, ops: Ops, hi: nat, level: nat, leaf: nat)
    requires hi <= |keys| && level < NLEVELS
    ensures BuildKids(keys, ops, hi, hi, level, leaf) == []
  {
  }

  lemma HeaderIs(n: Node, t: Tree)
    requires n.first == t.first && n.count == t.count && n.leaf == t.leaf && n.com == t.com
    ensures Header(n, t)
  {
  }

  lemma LeafPacked(vec: seq<Node>, own: nat, t: Tree)
    requires own < |vec| && vec[own].child == [] && t.kids == []
    requires vec[own].first == t.first && vec[own].count == t.count && vec[own].leaf == t.leaf && vec[own].com == t.com
    ensures Packed(vec, own, t) && Count(t) == 1
  {
  }

  lemma NoKids(vec: seq<Node>, own: nat)
    requires own == |vec| - 1 && vec[own].child == []
    ensures KidsPlaced(vec, own, [], |vec|)
  {
  }

  // ---------------- rec_node_count_rec ----------------

  datatype SubRec = SubRec(lo: nat, hi: nat, size: nat, level: nat, nchild: nat)

  // The record of t in preorder from idx on.
  ghost predicate Recorded(rec: seq<SubRec>, idx: nat, t: Tree)
    decreases t, 1
  {
    && idx + Count(t) <= |rec|
    && rec[idx].lo == t.first && rec[idx].hi == t.first + t.count
    && rec[idx].size == Count(t) && rec[idx].nchild == |t.kids|
    && forall k: nat :: k < |t.kids| ==> RecordedKid(rec, idx, t, k)
  }

  ghost predicate RecordedKid(rec: seq<SubRec>, idx: nat, t: Tree, k: nat)
    requires k < |t.kids|
    decreases t, 0
  {
    Recorded(rec, idx + 1 + CountKids(t.kids[..k]), t.kids[k])
  }

  lemma {:induction false} RecordedFrame(a: seq<SubRec>, b: seq<SubRec>, idx: nat, t: Tree)
    requires Recorded(a, idx, t) && idx + Count(t) <= |b|
    requires forall i :: idx <= i < idx + Count(t) ==> b[i] == a[i]
    ensures Recorded(b, idx, t)
    decreases t
  {
    hide CountKids;
    forall k: nat | k < |t.kids| ensures RecordedKid(b, idx, t, k) {
      assert RecordedKid(a, idx, t, k);
      KidInside(t.kids, k);
      RecordedFrame(a, b, idx + 1 + CountKids(t.kids[..k]), t.kids[k]);
    }
  }

  ghost predicate KidsRecorded(rec: seq<SubRec>, own: nat, kids: seq<Tree>) {
    && |rec| == own + 1 + CountKids(kids) && rec[own].nchild == |kids|
    && forall k: nat :: k < |kids| ==> RecordAt(rec, own, kids, k)
  }

  ghost predicate RecordAt(rec: seq<SubRec>, own: nat, kids: seq<Tree>, k: nat)
    requires k < |kids|
  {
    Recorded(rec, own + 1 + CountKids(kids[..k]), kids[k])
  }

  lemma RecordAppended(rec: seq<SubRec>, own: nat, kids: seq<Tree>, rec': seq<SubRec>, kid: Tree)
    requires KidsRecorded(rec, own, kids) && |rec'| == |rec| + Count(kid) && Recorded(rec', |rec|, kid)
    requires rec'[own].nchild == |kids| + 1 && forall i :: own < i < |rec| ==> rec'[i] == rec[i]
    ensures KidsRecorded(rec', own, kids + [kid])
  {
    hide CountKids, Count, Recorded;
    var all := kids + [kid];
    AppendCount(kids, kid);
    forall k: nat | k < |all| ensures RecordAt(rec', own, all, k) {
      if k < |kids| {
        assert RecordAt(rec, own, kids, k);
        assert all[..k] == kids[..k];
        KidInside(kids, k);
        RecordedFrame(rec, rec', own + 1 + CountKids(kids[..k]), kids[k]);
      } else {
        assert all[..k] == kids;
      }
    }
  }

  lemma ParentRecorded(rec: seq<SubRec>, own: nat, t: Tree)
    requires KidsRecorded(rec, own, t.kids)
    requires rec[own].lo == t.first && rec[own].hi == t.first + t.count && rec[own].size == Count(t)
    ensures Recorded(rec, own, t)
  {
    hide CountKids;
    forall k: nat | k < |t.kids| ensures RecordedKid(rec, own, t, k) {
      assert RecordAt(rec, own, t.kids, k);
    }
  }

  lemma RecordHeader(rec: seq<SubRec>, own: nat, kids: seq<Tree>, rec': seq<SubRec>)
    requires KidsRecorded(rec, own, kids) && |rec'| == |rec| && rec'[own].nchild == rec[own].nchild
    requires forall i :: own < i < |rec| ==> rec'[i] == rec[i]
    ensures KidsRecorded(rec', own, kids)
  {
    hide CountKids, Count, Recorded;
    forall k: nat | k < |kids| ensures RecordAt(rec', own, kids, k) {
      assert RecordAt(rec, own, kids, k);
      KidInside(kids, k);
      RecordedFrame(rec, rec', own + 1 + CountKids(kids[..k]), kids[k]);
    }
  }

  lemma NoRecords(rec: seq<SubRec>, own: nat)
    requires own == |rec| - 1 && rec[own].nchild == 0
    ensures KidsRecorded(rec, own, [])
  {
  }

  lemma LeafRecorded(rec: seq<SubRec>, own: nat, t: Tree)
    requires own < |rec| && t.kids == [] && rec[own].lo == t.first && rec[own].hi == t.first + t.count
    requires rec[own].size == 1 && rec[own].nchild == 0
    ensures Recorded(rec, own, t) && Count(t) == 1
  {
  }

  // The same walk as the build, with the moments left for later.
  method RecNodeCountRec(keys: seq<nat>, ghost ops: Ops, lo: nat, hi: nat, level: nat, leaf: nat, rec0: seq<SubRec>)
    returns (total: nat, rec: seq<SubRec>)
    requires RangeOk(keys, lo, hi, level)
    ensures total == Count(Build(keys, ops, lo, hi, level, leaf))
    ensures |rec| == |rec0| + total && rec[..|rec0|] == rec0
    ensures Recorded(rec, |rec0|, Build(keys, ops, lo, hi, level, leaf))
    decreases NLEVELS - level, 1
  {
    hide RangeOk, RunEnd, Octant, Recorded, CountKids, KidsRecorded, Count;
    RangeBounds(keys, lo, hi, level);
    var idx := |rec0|;
    rec := rec0 + [SubRec(lo, hi, 0, level, 0)];
    ghost var t := Build(keys, ops, lo, hi, level, leaf);
    if hi - lo <= leaf || level >= NLEVELS {
      rec := rec[idx := rec[idx].(size := 1)];
      LeafRecorded(rec, idx, t);
      return 1, rec;
    }
    total, rec := CountRuns(keys, ops, lo, hi, level, leaf, idx, rec);
    ghost var before := rec;
    rec := rec[idx := rec[idx].(size := total)];
    RecordHeader(before, idx, t.kids, rec);
    CountIs(t, t.kids);
    ParentRecorded(rec, idx, t);
  }

  // The loop over the runs of a range.
  method CountRuns(keys: seq<nat>, ghost ops: Ops, lo: nat, hi: nat, level: nat, leaf: nat, idx: nat, rec0: seq<SubRec>)
    returns (total: nat, rec: seq<SubRec>)
    requires RangeOk(keys, lo, hi, level) && level < NLEVELS && lo <= hi <= |keys|
    requires idx == |rec0| - 1 && rec0[idx].nchild == 0
    ensures total == 1 + CountKids(BuildKids(keys, ops, lo, hi, level, leaf)) && |rec| == idx + total
    ensures KidsRecorded(rec, idx, BuildKids(keys, ops, lo, hi, level, leaf))
    ensures rec[..idx] == rec0[..idx] && rec[idx] == rec0[idx].(nchild := rec[idx].nchild)
    decreases NLEVELS - level, 0
  {
    hide RangeOk, RunEnd, Octant, Recorded, CountKids, KidsRecorded, Count, Build, BuildKids;
    total, rec := 1, rec0;
    ghost var done: seq<Tree> := [];
    var i := lo;
    NoRecords(rec, idx);
    NoneCounted();
    ghost var all := BuildKids(keys, ops, lo, hi, level, leaf);
    while i < hi
      invariant lo <= i <= hi && |rec| == idx + total && 0 < total && rec[..idx] == rec0[..idx]
      invariant KidsRecorded(rec, idx, done) && total == 1 + CountKids(done)
      invariant rec[idx] == rec0[idx].(nchild := |done|)
      invariant all == done + BuildKids(keys, ops, i, hi, level, leaf)
    {
      var c := Octant(keys[i], level);
      SubRange(keys, lo, hi, level, i);
      var j := OctantRunEnd(keys, i + 1, hi, level, c);
      ghost var before := rec;
      ghost var kid := Build(keys, ops, i, j, level + 1, leaf);
      rec := rec[idx := rec[idx].(nchild := rec[idx].nchild + 1)];
      ghost var bumped := rec;
      ChildRange(keys, lo, hi, level, i, j);
      var count;
      count, rec := RecNodeCountRec(keys, ops, i, j, level + 1, leaf, rec);
      assert forall m :: 0 <= m < |bumped| ==> rec[m] == rec[..|bumped|][m];
      RecordAppended(before, idx, done, rec, kid);
      AppendCount(done, kid);
      KidsStep(keys, ops, i, j, hi, level, leaf, all, done, kid);
      done := done + [kid];
      total := total + count;
      i := j;
    }
    KidsEnd(keys, ops, hi, level, leaf);
    assert done == all;
  }

  lemma NoneCounted()
    ensures CountKids([]) == 0
  {
  }

  lemma CountIs(t: Tree, kids: seq<Tree>)
    requires t.kids == kids
    ensures Count(t) == 1 + CountKids(kids)
  {
  }

  // ---------------- fold_from_rec ----------------

  // Every node's moments are its bodies' or its children's, summed in order.
  ghost predicate Folded(ops: Ops, t: Tree)
    decreases t
  {
    && (t.leaf <==> t.kids == [])
    && t.com == ops.fin(if t.kids == [] then SumBodies(ops, t.first, t.first + t.count) else SumKids(ops, t.kids))
    && forall k :: 0 <= k < |t.kids| ==> Folded(ops, t.kids[k])
  }

  // The bodies of a tree's leaves, from left to right.
  function Under(t: Tree): seq<nat> {
    if t.kids == [] then seq(t.count, i => t.first + i) else UnderAll(t.kids)
  }

  function UnderAll(kids: seq<Tree>): seq<nat> {
    if kids == [] then [] else UnderAll(kids[..|kids| - 1]) + Under(kids[|kids| - 1])
  }

  // A folded tree's moments hold its leaves' bodies in that order.
  lemma {:induction false} FoldedReads(ops: Ops, h: Com -> seq<nat>, t: Tree)
    requires Folded(ops, t) && BodyOrder.Reads(ops, h)
    ensures h(t.com) == Under(t)
    decreases t
  {
    if t.kids == [] {
      BodyOrder.BodiesRead(ops, h, t.first, t.first + t.count);
    } else {
      forall k | 0 <= k < |t.kids| ensures h(t.kids[k].com) == Under(t.kids[k]) { FoldedReads(ops, h, t.kids[k]); }
      AllRead(ops, h, t.kids);
    }
  }

  lemma {:induction false} AllRead(ops: Ops, h: Com -> seq<nat>, kids: seq<Tree>)
    requires BodyOrder.Reads(ops, h) && forall k :: 0 <= k < |kids| ==> h(kids[k].com) == Under(kids[k])
    ensures h(SumKids(ops, kids)) == UnderAll(kids)
  {
    hide Under;
    if kids != [] { AllRead(ops, h, kids[..|kids| - 1]); }
  }

  lemma TreeReads(ops: Ops, t: Tree)
    requires Folded(ops, t)
    ensures forall h: Com -> seq<nat> :: BodyOrder.Reads(ops, h) ==> h(t.com) == Under(t)
  {
    hide Folded, Under, BodyOrder.Reads;
    forall h: Com -> seq<nat> | BodyOrder.Reads(ops, h) ensures h(t.com) == Under(t) { FoldedReads(ops, h, t); }
  }

  lemma {:induction false} KidsFolded(keys: seq<nat>, ops: Ops, i: nat, hi: nat, level: nat, leaf: nat)
    requires i <= hi <= |keys| && level < NLEVELS
    ensures forall k :: 0 <= k < |BuildKids(keys, ops, i, hi, level, leaf)| ==>
          Folded(ops, BuildKids(keys, ops, i, hi, level, leaf)[k])
    ensures i < hi ==> BuildKids(keys, ops, i, hi, level, leaf) != []
    decreases NLEVELS - level, hi - i
  {
    hide Octant, Folded, Build;
    if i < hi {
      var j := RunEnd(keys, i + 1, hi, level, Octant(keys[i], level));
      BuildFolded(keys, ops, i, j, level + 1, leaf);
      KidsFolded(keys, ops, j, hi, level, leaf);
    }
  }

  lemma {:induction false} BuildFolded(keys: seq<nat>, ops: Ops, lo: nat, hi: nat, level: nat, leaf: nat)
    requires lo <= hi <= |keys| && level <= NLEVELS
    ensures Folded(ops, Build(keys, ops, lo, hi, level, leaf))
    decreases NLEVELS - level, |keys| + 1
  {
    hide BuildKids;
    if !Stops(lo, hi, level, leaf) { KidsFolded(keys, ops, lo, hi, level, leaf); }
  }

  method FoldFromRec(rec: seq<SubRec>, ops: Ops, idx: nat, base: array<Node>, off0: nat, ghost t: Tree)
    returns (off: nat)
    requires Recorded(rec, idx, t) && Folded(ops, t) && off0 + Count(t) <= base.Length
    modifies base
    ensures off == off0 + Count(t) && Packed(base[..], off0, t)
    ensures forall i :: 0 <= i < base.Length && !(off0 <= i < off) ==> base[i] == old(base[i])
    ensures off0 < base.Length
    ensures forall h: Com -> seq<nat> :: BodyOrder.Reads(ops, h) ==> h(base[off0].com) == Under(t)
    decreases t, 2
  {
    hide Under, BodyOrder.Reads;
    TreeReads(ops, t);
    hide Count, CountKids, Packed, KidsPlaced, Header, Recorded;
    RecordedHead(rec, idx, t);
    var r := rec[idx];
    if r.nchild == 0 {
      var com := FoldBodies(ops, r.lo, r.hi);
      base[off0] := Node(r.lo, r.hi - r.lo, true, com, []);
      LeafPacked(base[..], off0, t);
      off := off0 + 1;
    } else {
      base[off0] := Node(r.lo, r.hi - r.lo, false, ops.zero, []);
      off := FoldChildren(rec, ops, idx, base, off0, t);
      ghost var before := base[..];
      base[off0] := base[off0].(com := ops.fin(base[off0].com));
      HeaderChanged(before, off0, t.kids, off, base[..]);
      HeaderIs(base[off0], t);
      ParentPacked(base[..], off0, t, off);
    }
  }

  // The loop over a node's children.
  method FoldChildren(rec: seq<SubRec>, ops: Ops, idx: nat, base: array<Node>, myoff: nat, ghost t: Tree)
    returns (off: nat)
    requires Recorded(rec, idx, t) && Folded(ops, t) && myoff + Count(t) <= base.Length && t.kids != []
    requires myoff < base.Length && base[myoff].child == [] && base[myoff].com == ops.zero
    modifies base
    ensures off == myoff + Count(t) && KidsPlaced(base[..], myoff, t.kids, off)
    ensures base[myoff] == old(base[myoff]).(child := base[myoff].child, com := SumKids(ops, t.kids))
    ensures forall i :: 0 <= i < base.Length && !(myoff <= i < off) ==> base[i] == old(base[i])
    decreases t, 1
  {
    hide Count, CountKids, Packed, KidsPlaced, Header, Recorded, Folded, SumKids;
    RecordedHead(rec, idx, t);
    NoSum(ops);
    off := myoff + 1;
    var child, k := idx + 1, 0;
    NoKidsYet(base[..], myoff);
    NoneCounted();
    assert t.kids[..k] == [];
    while k < rec[idx].nchild
      invariant k <= |t.kids| && off == myoff + 1 + CountKids(t.kids[..k]) && off <= base.Length
      invariant child == idx + 1 + CountKids(t.kids[..k])
      invariant KidsPlaced(base[..], myoff, t.kids[..k], off)
      invariant base[myoff] == old(base[myoff]).(child := base[myoff].child, com := SumKids(ops, t.kids[..k]))
      invariant forall i :: 0 <= i < base.Length && !(myoff <= i < off) ==> base[i] == old(base[i])
    {
      NextKid(rec, ops, idx, t, k);
      ghost var before := base[..];
      off, child := FoldChild(rec, ops, child, base, myoff, off, t, k);
      KidsGrown(before, base[..], myoff, t.kids, k, off);
      k := k + 1;
    }
    assert t.kids[..k] == t.kids;
  }

  lemma NoSum(ops: Ops)
    ensures SumKids(ops, []) == ops.zero
  {
  }

  lemma NextKid(rec: seq<SubRec>, ops: Ops, idx: nat, t: Tree, k: nat)
    requires Recorded(rec, idx, t) && Folded(ops, t) && k < |t.kids|
    ensures Recorded(rec, idx + 1 + CountKids(t.kids[..k]), t.kids[k]) && Folded(ops, t.kids[k])
    ensures CountKids(t.kids[..k + 1]) == CountKids(t.kids[..k]) + Count(t.kids[k]) <= CountKids(t.kids)
    ensures SumKids(ops, t.kids[..k + 1]) == ops.child(SumKids(ops, t.kids[..k]), t.kids[k].com)
  {
    hide Count, CountKids;
    KidInside(t.kids, k);
    assert RecordedKid(rec, idx, t, k);
    assert t.kids[..k + 1][..k] == t.kids[..k];
  }

  lemma RecordedHead(rec: seq<SubRec>, idx: nat, t: Tree)
    requires Recorded(rec, idx, t)
    ensures idx < |rec| && rec[idx].lo == t.first && rec[idx].hi == t.first + t.count
    ensures rec[idx].size == Count(t) == 1 + CountKids(t.kids) && rec[idx].nchild == |t.kids|
  {
  }

  lemma NoKidsYet(vec: seq<Node>, own: nat)
    requires own < |vec| && vec[own].child == []
    ensures KidsPlaced(vec, own, [], own + 1)
  {
  }

  lemma KidsGrown(a: seq<Node>, b: seq<Node>, own: nat, kids: seq<Tree>, k: nat, off: nat)
    requires k < |kids| && |a| == |b| && off == own + 1 + CountKids(kids[..k]) + Count(kids[k])
    requires KidsPlaced(a, own, kids[..k], own + 1 + CountKids(kids[..k]))
    requires Packed(b, own + 1 + CountKids(kids[..k]), kids[k])
    requires b[own].child == a[own].child + [1 + CountKids(kids[..k])]
    requires forall i :: own < i < own + 1 + CountKids(kids[..k]) ==> b[i] == a[i]
    ensures KidsPlaced(b, own, kids[..k + 1], off)
  {
    hide Count, CountKids, Packed, KidsPlaced;
    PlacedFits(a, own, kids[..k], own + 1 + CountKids(kids[..k]));
    CountFits(b, own + 1 + CountKids(kids[..k]), kids[k]);
    KidAppended(a, own, kids[..k], own + 1 + CountKids(kids[..k]), b, kids[k], off);
    assert kids[..k] + [kids[k]] == kids[..k + 1];
  }

  lemma PlacedFits(vec: seq<Node>, own: nat, kids: seq<Tree>, end: nat)
    requires KidsPlaced(vec, own, kids, end)
    ensures end <= |vec| && own < |vec| && end == own + 1 + CountKids(kids)
  {
  }

  // One child: folded behind its elder siblings, linked and added to the parent.
  method FoldChild(rec: seq<SubRec>, ops: Ops, child0: nat, base: array<Node>, myoff: nat, off0: nat, ghost t: Tree,
                   ghost k: nat)
    returns (off: nat, child: nat)
    requires k < |t.kids| && Recorded(rec, child0, t.kids[k]) && Folded(ops, t.kids[k])
    requires myoff < off0 && off0 + Count(t.kids[k]) <= base.Length
    modifies base
    ensures off == off0 + Count(t.kids[k]) && child == child0 + Count(t.kids[k])
    ensures Packed(base[..], off0, t.kids[k])
    ensures base[myoff] == old(base[myoff]).(child := old(base[myoff]).child + [off0 - myoff], com :=
          ops.child(old(base[myoff]).com, t.kids[k].com))
    ensures forall i :: 0 <= i < base.Length && i != myoff && !(off0 <= i < off) ==> base[i] == old(base[i])
    decreases t, 0
  {
    hide Count, CountKids, Packed;
    RecordedHead(rec, child0, t.kids[k]);
    off := FoldFromRec(rec, ops, child0, base, off0, t.kids[k]);
    PackedHead(base[..], off0, t.kids[k]);
    ghost var folded := base[..];
    base[myoff] := base[myoff].(child := base[myoff].child + [off0 - myoff], com :=
          ops.child(base[myoff].com, base[off0].com));
    PackedFrame(folded, base[..], off0, t.kids[k]);
    child := child0 + rec[child0].size;
  }

  lemma PackedHead(vec: seq<Node>, pos: nat, t: Tree)
    requires Packed(vec, pos, t)
    ensures pos < |vec| && vec[pos].com == t.com && pos + Count(t) <= |vec|
  {
    hide CountKids;
  }
}
