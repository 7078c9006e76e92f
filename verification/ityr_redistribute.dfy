// Moving every body to the node that owns its place in the global order: the
// positions split each node's run by destination, the runs are exchanged, and
// every body is written where it belongs.
module Redistribution {
  import opened SortOrder
  import opened SliceSort
  import opened KeyMerge

  type Body(0)

  datatype PosPair = PosPair(pos: nat, body: Body)

  // ---------------- the slices ----------------

  // compute_slice_layout: los[s] is s*n/(ninter*gran) whole blocks, and the last
  // slice ends at n.
  function SliceLo(s: nat, n: nat, ninter: nat, gran: nat): nat
    requires ninter > 0 && gran > 0
  {
    if s == ninter then n else s * n / (ninter * gran) * gran
  }

  lemma SliceFits(s: nat, n: nat, ninter: nat, gran: nat)
    requires s < ninter && gran > 0
    ensures ninter * gran > 0 && s * n / (ninter * gran) * gran <= n
  {
    Positive(ninter, gran);
    var q := s * n / (ninter * gran);
    assert s * n == q * (ninter * gran) + s * n % (ninter * gran);
    MulMonotone(s, ninter, n);
    Regroup(q, ninter, gran);
    assert (q * gran) * ninter <= ninter * n;
    Cancel(q * gran, n, ninter);
  }

  lemma Positive(a: nat, b: nat)
    requires a > 0 && b > 0
    ensures a * b > 0
  {
  }

  lemma Regroup(q: nat, a: nat, b: nat)
    ensures q * (a * b) == (q * b) * a
  {
  }

  lemma Cancel(a: nat, b: nat, c: nat)
    requires c > 0 && a * c <= c * b
    ensures a <= b
  {
    MulMonotone(b + 1, a, c);
  }

  // Slices are in order and tile [0, n).
  lemma SlicesClimb(s: nat, n: nat, ninter: nat, gran: nat)
    requires s < ninter && gran > 0
    ensures SliceLo(0, n, ninter, gran) == 0 && SliceLo(ninter, n, ninter, gran) == n
    ensures SliceLo(s, n, ninter, gran) <= SliceLo(s + 1, n, ninter, gran) <= n
  {
    Positive(ninter, gran);
    SliceFits(s, n, ninter, gran);
    if s + 1 < ninter {
      SliceFits(s + 1, n, ninter, gran);
      MulMonotone(s, s + 1, n);
      DivMonotone(s * n, (s + 1) * n, ninter * gran);
      MulMonotone(s * n / (ninter * gran), (s + 1) * n / (ninter * gran), gran);
    }
  }

  ghost predicate Layout(los: seq<nat>, n: nat) {
    |los| > 1 && los[0] == 0 && los[|los| - 1] == n && forall s: nat :: s < |los| - 1 ==> SliceOk(los, n, s)
  }

  ghost predicate SliceOk(los: seq<nat>, n: nat, s: nat)
    requires s < |los| - 1
  {
    los[s] <= los[s + 1] <= n
  }

  // An inner bound is a whole number of blocks, less than one block a node short of
  // an even share.
  lemma SliceNearShare(s: nat, n: nat, ninter: nat, gran: nat)
    requires s < ninter && gran > 0
    ensures SliceLo(s, n, ninter, gran) % gran == 0
    ensures SliceLo(s, n, ninter, gran) * ninter <= s * n < SliceLo(s, n, ninter, gran) * ninter + ninter * gran
  {
    Positive(ninter, gran);
    var q := s * n / (ninter * gran);
    assert s * n == q * (ninter * gran) + s * n % (ninter * gran);
    Regroup(q, ninter, gran);
    WholeBlocks(q, gran);
  }

  lemma WholeBlocks(q: nat, gran: nat)
    requires gran > 0
    ensures q * gran % gran == 0
  {
    MulDiv(q, gran);
    assert q * gran == q * gran / gran * gran + q * gran % gran;
  }

  method ComputeSliceLayout(n: nat, ninter: nat, gran: nat) returns (los: seq<nat>)
    requires ninter > 0 && gran > 0
    ensures |los| == ninter + 1 && forall s: nat :: s <= ninter ==> los[s] == SliceLo(s, n, ninter, gran)
    ensures Layout(los, n)
    ensures forall s: nat :: s < ninter ==>
              los[s] % gran == 0 && los[s] * ninter <= s * n < los[s] * ninter + ninter * gran
  {
    hide SliceLo;
    los := [];
    var s := 0;
    SlicesClimb(0, n, ninter, gran);
    while s <= ninter
      invariant s == |los| <= ninter + 1 && forall m: nat :: m < s ==> los[m] == SliceLo(m, n, ninter, gran)
    {
      los := los + [SliceLo(s, n, ninter, gran)];
      s := s + 1;
    }
    forall m: nat | m < ninter ensures SliceOk(los, n, m) { SlicesClimb(m, n, ninter, gran); }
    forall m: nat | m < ninter
      ensures los[m] % gran == 0 && los[m] * ninter <= m * n < los[m] * ninter + ninter * gran
    {
      SliceNearShare(m, n, ninter, gran);
    }
  }

  lemma {:induction false} LosClimb(los: seq<nat>, n: nat, s: nat, t: nat)
    requires Layout(los, n) && s <= t < |los|
    ensures los[s] <= los[t] <= n
    decreases t
  {
    if t > 0 { assert SliceOk(los, n, t - 1); }
    if s < t { LosClimb(los, n, s, t - 1); }
  }

  // ---------------- destinations ----------------

  // The monotonic walk over the slice bounds.
  method Destination(los: seq<nat>, n: nat, p: nat) returns (d: nat)
    requires Layout(los, n) && p < n
    ensures d < |los| - 1 && los[d] <= p < los[d + 1]
  {
    d := 0;
    while d < |los| - 2 && p >= los[d + 1]
      invariant d < |los| - 1 && los[d] <= p
    {
      d := d + 1;
    }
  }

  // How many of a node's positions are below x; positions increase, so they are
  // its first ones.
  function Below(mypos: seq<nat>, x: nat): nat {
    if mypos == [] then 0 else Below(mypos[..|mypos| - 1], x) + if mypos[|mypos| - 1] < x then 1 else 0
  }

  ghost predicate Climbing(mypos: seq<nat>) {
    forall p, q :: 0 <= p < q < |mypos| ==> mypos[p] < mypos[q]
  }

  lemma {:induction false} BelowSplits(mypos: seq<nat>, x: nat)
    requires Climbing(mypos)
    ensures Below(mypos, x) <= |mypos|
    ensures forall p :: 0 <= p < Below(mypos, x) ==> mypos[p] < x
    ensures forall p :: Below(mypos, x) <= p < |mypos| ==> mypos[p] >= x
  {
    if mypos != [] { BelowSplits(mypos[..|mypos| - 1], x); }
  }

  // One node's packing: each position with its body, and per destination how many.
  ghost predicate Packed(los: seq<nat>, mypos: seq<nat>, counts: seq<nat>) {
    |counts| == |los| - 1 && forall d: nat :: d < |los| - 1 ==> CountRight(los, mypos, counts, d)
  }

  ghost predicate CountRight(los: seq<nat>, mypos: seq<nat>, counts: seq<nat>, d: nat)
    requires d < |counts| && d + 1 < |los|
  {
    Below(mypos, los[d]) + counts[d] == Below(mypos, los[d + 1])
  }

  method CountDestinations(los: seq<nat>, n: nat, mypos: seq<nat>) returns (counts: seq<nat>)
    requires Layout(los, n) && forall p :: 0 <= p < |mypos| ==> mypos[p] < n
    ensures Packed(los, mypos, counts)
  {
    counts := seq(|los| - 1, _ => 0);
    var j := 0;
    NoneCounted(los, counts);
    assert mypos[..0] == [];
    while j < |mypos|
      invariant j <= |mypos| && Packed(los, mypos[..j], counts)
    {
      var d := Destination(los, n, mypos[j]);
      OneCounted(los, n, mypos, counts, j, d);
      counts := counts[d := counts[d] + 1];
      j := j + 1;
    }
    assert mypos[..j] == mypos;
  }

  lemma NoneCounted(los: seq<nat>, counts: seq<nat>)
    requires |los| > 1 && |counts| == |los| - 1 && forall d :: 0 <= d < |counts| ==> counts[d] == 0
    ensures Packed(los, [], counts)
  {
  }

  lemma OneCounted(los: seq<nat>, n: nat, mypos: seq<nat>, counts: seq<nat>, j: nat, d: nat)
    requires Layout(los, n) && j < |mypos| && Packed(los, mypos[..j], counts) && d < |los| - 1
    requires los[d] <= mypos[j] < los[d + 1]
    ensures Packed(los, mypos[..j + 1], counts[d := counts[d] + 1])
  {
    hide Layout;
    assert mypos[..j + 1][..j] == mypos[..j];
    var longer, more := mypos[..j + 1], counts[d := counts[d] + 1];
    forall e: nat | e < |los| - 1 ensures CountRight(los, longer, more, e) {
      assert CountRight(los, mypos[..j], counts, e);
      if e < d { LosClimb(los, n, e + 1, d); LosClimb(los, n, e, d); }
      if d < e { LosClimb(los, n, d + 1, e); LosClimb(los, n, d + 1, e + 1); }
    }
  }

  // What goes to destination d is one contiguous piece of the packed run.
  lemma PieceOf(los: seq<nat>, mypos: seq<nat>, counts: seq<nat>, d: nat)
    requires Packed(los, mypos, counts) && Climbing(mypos) && d < |counts| && d + 1 < |los|
    ensures var at := Below(mypos, los[d]);
            && at + counts[d] <= |mypos|
            && forall p :: 0 <= p < |mypos| ==> (at <= p < at + counts[d] <==> los[d] <= mypos[p] < los[d + 1])
  {
    hide Below;
    assert CountRight(los, mypos, counts, d);
    BelowSplits(mypos, los[d]);
    BelowSplits(mypos, los[d + 1]);
  }

  // sdspls: the prefix sums of the counts are where the pieces start.
  method Displacements(los: seq<nat>, ghost n: nat, ghost mypos: seq<nat>, counts: seq<nat>) returns (dspls: seq<nat>)
    requires Layout(los, n) && Packed(los, mypos, counts)
    ensures |dspls| == |counts| && forall d :: 0 <= d < |counts| ==> dspls[d] == Below(mypos, los[d])
  {
    hide Below;
    dspls := [];
    var off, s := 0, 0;
    NoneBelow(mypos);
    while s < |counts|
      invariant s == |dspls| <= |counts| && off == Below(mypos, los[s])
      invariant forall d :: 0 <= d < s ==> dspls[d] == Below(mypos, los[d])
    {
      assert CountRight(los, mypos, counts, s);
      dspls := dspls + [off];
      off := off + counts[s];
      s := s + 1;
    }
  }

  lemma NoneBelow(mypos: seq<nat>)
    ensures Below(mypos, 0) == 0
  {
  }

  // ---------------- the exchange ----------------

  // Node s of the exchange: its positions, which increase, and its bodies.
  ghost predicate NodeRuns(s: seq<KP>, los: seq<nat>, myposs: seq<seq<nat>>) {
    |myposs| == |los| - 1 && forall t: nat :: t < |myposs| ==> NodeRun(s, los, myposs, t)
  }

  ghost predicate NodeRun(s: seq<KP>, los: seq<nat>, myposs: seq<seq<nat>>, t: nat)
    requires t < |myposs| && t + 1 < |los|
  {
    Positions(s, los[t], los[t + 1], myposs[t]) && Climbing(myposs[t])
  }

  // What node d has received from the nodes before t: each pair is a body with
  // its place, no place twice, and every such place is there.
  ghost predicate ReceivedFrom(s: seq<KP>, los: seq<nat>, bodies: seq<Body>, d: nat, t: nat, recv: seq<PosPair>)
    requires d + 1 < |los| && t < |los|
  {
    && (forall k :: 0 <= k < |recv| ==> PairRight(s, los, bodies, d, t, recv[k]))
    && (forall k, m :: 0 <= k < m < |recv| ==> recv[k].pos != recv[m].pos)
    && forall o: nat :: los[d] <= o < los[d + 1] && o < |s| && s[o].idx < los[t] ==> HasPlace(recv, o)
  }

  ghost predicate PairRight(s: seq<KP>, los: seq<nat>, bodies: seq<Body>, d: nat, t: nat, e: PosPair)
    requires d + 1 < |los| && t < |los|
  {
    los[d] <= e.pos < los[d + 1] && e.pos < |s| && s[e.pos].idx < los[t] && s[e.pos].idx < |bodies| && e.body
        == bodies[s[e.pos].idx]
  }

  ghost predicate HasPlace(recv: seq<PosPair>, o: nat) {
    exists k :: 0 <= k < |recv| && recv[k].pos == o
  }

  // The piece of one node's packed run for one destination.
  function Piece(mypos: seq<nat>, body: seq<Body>, at: nat, count: nat): (p: seq<PosPair>)
    requires at + count <= |mypos| == |body|
    ensures |p| == count && forall k :: 0 <= k < count ==> p[k] == PosPair(mypos[at + k], body[at + k])
  {
    seq(count, k requires 0 <= k < count => PosPair(mypos[at + k], body[at + k]))
  }

  lemma PieceReceived(s: seq<KP>, los: seq<nat>, bodies: seq<Body>, d: nat, t: nat, recv: seq<PosPair>,
                      myposs: seq<seq<nat>>, counts: seq<nat>, at: nat, piece: seq<PosPair>)
    requires Layout(los, |bodies|) && |s| == |bodies| && DistinctIdx(s) && d + 1 < |los| && t + 1 < |los|
    requires NodeRuns(s, los, myposs)
    requires ReceivedFrom(s, los, bodies, d, t, recv) && Packed(los, myposs[t], counts)
    requires at == Below(myposs[t], los[d])
    requires d < |counts| && los[t] <= los[t + 1] <= |bodies| && |myposs[t]| == los[t + 1] - los[t]
    requires at + counts[d] <= |myposs[t]| && piece == Piece(myposs[t], bodies[los[t]..los[t + 1]], at, counts[d])
    ensures ReceivedFrom(s, los, bodies, d, t + 1, recv + piece)
  {
    hide Below, Layout, Packed, DistinctIdx;
    var mypos := myposs[t];
    assert NodeRun(s, los, myposs, t);
    PieceOf(los, mypos, counts, d);
    var both := recv + piece;
    forall k | 0 <= k < |both| ensures PairRight(s, los, bodies, d, t + 1, both[k]) {
      if k < |recv| {
        assert PairRight(s, los, bodies, d, t, recv[k]);
      } else {
        PieceRight(s, los, bodies, d, t, mypos, at, counts[d], k - |recv|);
      }
    }
    forall k, m | 0 <= k < m < |both| ensures both[k].pos != both[m].pos {
      if k < |recv| <= m {
        assert PairRight(s, los, bodies, d, t, recv[k]);
        PieceRight(s, los, bodies, d, t, mypos, at, counts[d], m - |recv|);
      }
    }
    forall o: nat | los[d] <= o < los[d + 1] && o < |s| && s[o].idx < los[t + 1] ensures HasPlace(both, o) {
      if s[o].idx < los[t] {
        assert HasPlace(recv, o);
        var k :| 0 <= k < |recv| && recv[k].pos == o;
        assert both[k].pos == o;
      } else {
        var p := s[o].idx - los[t];
        SamePlace(s, o, mypos[p]);
        assert both[|recv| + (p - at)].pos == o;
      }
    }
  }

  lemma SamePlace(s: seq<KP>, i: nat, j: nat)
    requires DistinctIdx(s) && i < |s| && j < |s| && s[i].idx == s[j].idx
    ensures i == j
  {
  }

  lemma PieceRight(s: seq<KP>, los: seq<nat>, bodies: seq<Body>, d: nat, t: nat, mypos: seq<nat>, at: nat, count: nat,
                   k: nat)
    requires d + 1 < |los| && t + 1 < |los| && los[t] <= los[t + 1] <= |bodies| && |mypos| == los[t + 1] - los[t]
    requires Positions(s, los[t], los[t + 1], mypos) && at + count <= |mypos| && k < count
    requires los[d] <= mypos[at + k] < los[d + 1]
    ensures PairRight(s, los, bodies, d, t + 1, Piece(mypos, bodies[los[t]..los[t + 1]], at, count)[k])
    ensures s[mypos[at + k]].idx >= los[t]
  {
  }

  method Receive(s: seq<KP>, los: seq<nat>, bodies: seq<Body>, d: nat, myposs: seq<seq<nat>>, countss: seq<seq<nat>>,
                 dsplss: seq<seq<nat>>)
    returns (recv: seq<PosPair>)
    requires Layout(los, |bodies|) && |s| == |bodies| && DistinctIdx(s) && d + 1 < |los| && NodeRuns(s, los, myposs)
    requires |countss| == |dsplss| == |myposs|
    requires forall t: nat :: t < |myposs| ==> SendOk(los, myposs, countss, dsplss, t)
    ensures ReceivedFrom(s, los, bodies, d, |los| - 1, recv)
  {
    hide Below, Layout, Packed, DistinctIdx, NodeRun, ReceivedFrom, Climbing, Positions;
    recv := [];
    LosClimb(los, |bodies|, 0, 0);
    NoneReceived(s, los, bodies, d);
    var t := 0;
    while t < |myposs|
      invariant t <= |myposs| && ReceivedFrom(s, los, bodies, d, t, recv)
    {
      assert SendOk(los, myposs, countss, dsplss, t);
      LosClimb(los, |bodies|, t, t + 1);
      RunLength(s, los, myposs, t);
      PieceOf(los, myposs[t], countss[t], d);
      var piece := Piece(myposs[t], bodies[los[t]..los[t + 1]], dsplss[t][d], countss[t][d]);
      PieceReceived(s, los, bodies, d, t, recv, myposs, countss[t], dsplss[t][d], piece);
      recv := recv + piece;
      t := t + 1;
    }
  }

  // Node t's counts and displacements.
  ghost predicate SendOk(los: seq<nat>, myposs: seq<seq<nat>>, countss: seq<seq<nat>>, dsplss: seq<seq<nat>>, t: nat)
    requires t < |myposs| == |countss| == |dsplss|
  {
    && Packed(los, myposs[t], countss[t]) && |dsplss[t]| == |countss[t]| == |los| - 1
    && forall d :: 0 <= d < |dsplss[t]| && d < |los| ==> dsplss[t][d] == Below(myposs[t], los[d])
  }

  lemma RunLength(s: seq<KP>, los: seq<nat>, myposs: seq<seq<nat>>, t: nat)
    requires NodeRuns(s, los, myposs) && t < |myposs|
    ensures los[t] + |myposs[t]| == los[t + 1] && Climbing(myposs[t])
  {
    hide Climbing;
    assert NodeRun(s, los, myposs, t);
  }

  lemma NoneReceived(s: seq<KP>, los: seq<nat>, bodies: seq<Body>, d: nat)
    requires Layout(los, |bodies|) && d + 1 < |los|
    ensures ReceivedFrom(s, los, bodies, d, 0, [])
  {
  }

  // ---------------- the scatter ----------------

  function Range(lo: nat, hi: nat): set<nat> {
    if lo >= hi then {} else Range(lo, hi - 1) + {hi - 1}
  }

  lemma {:induction false} RangeSize(lo: nat, hi: nat)
    requires lo <= hi
    ensures |Range(lo, hi)| == hi - lo && forall o :: o in Range(lo, hi) <==> lo <= o < hi
    decreases hi
  {
    if lo < hi { RangeSize(lo, hi - 1); }
  }

  lemma {:induction false} PlacesSize(recv: seq<PosPair>)
    requires forall k, m :: 0 <= k < m < |recv| ==> recv[k].pos != recv[m].pos
    ensures |set k | 0 <= k < |recv| :: recv[k].pos| == |recv|
  {
    if recv != [] {
      var n := |recv| - 1;
      PlacesSize(recv[..n]);
      assert (set k | 0 <= k < |recv| :: recv[k].pos) == (set k | 0 <= k < n :: recv[..n][k].pos) + {recv[n].pos};
    }
  }

  // The received counts partition the slice: one pair for each of its places.
  lemma ReceivedAll(s: seq<KP>, los: seq<nat>, bodies: seq<Body>, d: nat, recv: seq<PosPair>)
    requires Layout(los, |bodies|) && |s| == |bodies| && d + 1 < |los|
    requires ReceivedFrom(s, los, bodies, d, |los| - 1, recv)
    requires forall x :: x in s ==> x.idx < |bodies|
    ensures los[d] <= los[d + 1] <= |bodies| && |recv| == los[d + 1] - los[d]
    ensures forall o: nat :: los[d] <= o < los[d + 1] ==> HasPlace(recv, o)
  {
    LosClimb(los, |bodies|, d, d + 1);
    forall o: nat | los[d] <= o < los[d + 1] ensures HasPlace(recv, o) { assert s[o] in s; }
    PlacesSize(recv);
    RangeSize(los[d], los[d + 1]);
    var places := set k | 0 <= k < |recv| :: recv[k].pos;
    forall o: nat | los[d] <= o < los[d + 1] ensures o in places { assert HasPlace(recv, o); }
    forall k | 0 <= k < |recv| ensures los[d] <= recv[k].pos < los[d + 1] {
      assert PairRight(s, los, bodies, d, |los| - 1, recv[k]);
    }
    assert places == Range(los[d], los[d + 1]);
  }

  ghost predicate Written(live: seq<Body>, recv: seq<PosPair>, lo: nat, from: nat, to: nat)
    requires to <= |recv|
  {
    forall k :: from <= k < to ==> lo <= recv[k].pos < lo + |live| && live[recv[k].pos - lo] == recv[k].body
  }

  // Slot i is the place of none of the pairs from `from` to `to`.
  ghost predicate NotPlaced(recv: seq<PosPair>, lo: nat, from: nat, to: nat, i: nat)
    requires to <= |recv|
  {
    forall k :: from <= k < to ==> recv[k].pos != lo + i
  }

  ghost predicate Places(recv: seq<PosPair>, lo: nat, n: nat) {
    && (forall k, m :: 0 <= k < m < |recv| ==> recv[k].pos != recv[m].pos)
    && forall k :: 0 <= k < |recv| ==> lo <= recv[k].pos < lo + n
  }

  // One rank's share of the scatter: its own pairs' places, and no other slot.
  method ScatterShare(recv: seq<PosPair>, lo: nat, r0: nat, r1: nat, live: array<Body>)
    requires r0 <= r1 <= |recv| && Places(recv, lo, live.Length)
    modifies live
    ensures Written(live[..], recv, lo, r0, r1)
    ensures forall i: nat :: i < live.Length && NotPlaced(recv, lo, r0, r1, i) ==> live[i] == old(live[i])
  {
    ghost var start := live[..];
    var k := r0;
    while k < r1
      invariant r0 <= k <= r1 && Written(live[..], recv, lo, r0, k)
      invariant forall i: nat :: i < live.Length && NotPlaced(recv, lo, r0, k, i) ==> live[i] == start[i]
    {
      var e := recv[k];
      ghost var before := live[..];
      live[e.pos - lo] := e.body;
      assert live[..] == before[e.pos - lo := e.body];
      ghost var next := k + 1;
      WrittenMore(before, recv, lo, r0, k);
      forall i: nat | i < live.Length && NotPlaced(recv, lo, r0, next, i) ensures live[i] == start[i] {
        assert NotPlaced(recv, lo, r0, k, i);
        assert recv[k].pos != lo + i;
      }
      k := k + 1;
    }
  }

  lemma WrittenMore(live: seq<Body>, recv: seq<PosPair>, lo: nat, from: nat, k: nat)
    requires from <= k < |recv| && Places(recv, lo, |live|) && Written(live, recv, lo, from, k)
    ensures Written(live[recv[k].pos - lo := recv[k].body], recv, lo, from, k + 1)
  {
  }

  // Another rank's share leaves what is written.
  lemma WrittenKept(a: seq<Body>, b: seq<Body>, recv: seq<PosPair>, lo: nat, r0: nat, r1: nat)
    requires r0 <= r1 <= |recv| && |a| == |b| && Places(recv, lo, |a|) && Written(a, recv, lo, 0, r0)
    requires Written(b, recv, lo, r0, r1)
    requires forall i: nat :: i < |a| && NotPlaced(recv, lo, r0, r1, i) ==> b[i] == a[i]
    ensures Written(b, recv, lo, 0, r1)
  {
    forall k | 0 <= k < r0 ensures b[recv[k].pos - lo] == recv[k].body {
      assert NotPlaced(recv, lo, r0, r1, recv[k].pos - lo);
    }
  }

  // All ranks' shares: every slot of the slice is written, exactly once.
  method Scatter(s: seq<KP>, los: seq<nat>, ghost bodies: seq<Body>, d: nat, recv: seq<PosPair>, P: nat)
    returns (live: array<Body>)
    requires Layout(los, |bodies|) && |s| == |bodies| && d + 1 < |los|
    requires ReceivedFrom(s, los, bodies, d, |los| - 1, recv) && P > 0
    requires forall x :: x in s ==> x.idx < |bodies|
    ensures los[d] <= los[d + 1] <= |bodies| && live.Length == los[d + 1] - los[d]
    ensures forall i: nat :: i < live.Length ==> s[los[d] + i].idx < |bodies| && live[i] == bodies[s[los[d] + i].idx]
  {
    hide Share;
    ReceivedAll(s, los, bodies, d, recv);
    live := new Body[los[d + 1] - los[d]];
    SharesTile(0, |recv|, P);
    forall k | 0 <= k < |recv| ensures los[d] <= recv[k].pos < los[d] + live.Length {
      assert PairRight(s, los, bodies, d, |los| - 1, recv[k]);
    }
    assert Places(recv, los[d], live.Length);
    var q := 0;
    while q < P
      invariant q <= P && Share(q, |recv|, P) <= |recv| && Written(live[..], recv, los[d], 0, Share(q, |recv|, P))
    {
      SharesTile(q, |recv|, P);
      ghost var before := live[..];
      ScatterShare(recv, los[d], Share(q, |recv|, P), Share(q + 1, |recv|, P), live);
      WrittenKept(before, live[..], recv, los[d], Share(q, |recv|, P), Share(q + 1, |recv|, P));
      q := q + 1;
    }
    forall i: nat | i < live.Length ensures s[los[d] + i].idx < |bodies| && live[i] == bodies[s[los[d] + i].idx] {
      assert HasPlace(recv, los[d] + i);
      var k :| 0 <= k < |recv| && recv[k].pos == los[d] + i;
      assert PairRight(s, los, bodies, d, |los| - 1, recv[k]);
      assert live[..][recv[k].pos - los[d]] == recv[k].body;
    }
  }
}
