// The intra-node sort: every rank sorts its blocks and merges them into one run,
// then, from all runs, every rank emits its own chunk of the slice's sorted order.
module SliceSort {
  import opened SortOrder
  import opened RadixSort
  import opened KwayMerge

  // ---------------- the slice ----------------

  // Elements i..j of the slice, in index order.
  function Elems(keys: seq<nat>, lo: nat, i: nat, j: nat): (s: seq<KP>)
    requires i <= j <= |keys|
    ensures |s| == j - i && forall k :: 0 <= k < |s| ==> s[k] == KP(keys[i + k], lo + i + k)
  {
    seq(j - i, k requires 0 <= k < j - i => KP(keys[i + k], lo + i + k))
  }

  lemma ElemsJoin(keys: seq<nat>, lo: nat, i: nat, j: nat, k: nat)
    requires i <= j <= k <= |keys|
    ensures Elems(keys, lo, i, k) == Elems(keys, lo, i, j) + Elems(keys, lo, j, k)
  {
  }

  lemma ElemsDistinct(keys: seq<nat>, lo: nat, i: nat, j: nat)
    requires i <= j <= |keys|
    ensures DistinctIdx(Elems(keys, lo, i, j))
  {
  }

  // The slice's sorted order, which everything below is about.
  function Target(keys: seq<nat>, lo: nat, i: nat, j: nat): seq<KP>
    requires i <= j <= |keys|
  {
    SortOf(Elems(keys, lo, i, j))
  }

  lemma TargetIs(keys: seq<nat>, lo: nat, i: nat, j: nat)
    requires i <= j <= |keys|
    ensures Sorted(Target(keys, lo, i, j)) && multiset(Target(keys, lo, i, j)) == multiset(Elems(keys, lo, i, j))
    ensures |Target(keys, lo, i, j)| == j - i
    ensures forall x :: x in Target(keys, lo, i, j) ==> lo + i <= x.idx < lo + j
  {
    hide Sorted, SortOf;
    ElemsDistinct(keys, lo, i, j);
    SortOfIs(Elems(keys, lo, i, j));
    var t, e := Target(keys, lo, i, j), Elems(keys, lo, i, j);
    assert |multiset(t)| == |t| && |multiset(e)| == |e|;
    forall x | x in t ensures lo + i <= x.idx < lo + j {
      assert x in multiset(e);
    }
  }

  ghost predicate Words(keys: seq<nat>) {
    forall i :: 0 <= i < |keys| ==> keys[i] < 0x1_0000_0000_0000_0000
  }

  // One block, keyed and radix-sorted.
  method SortBlock(keys: seq<nat>, lo: nat, bl: nat, bh: nat) returns (s: seq<KP>)
    requires Words(keys) && bl <= bh <= |keys|
    ensures s == Target(keys, lo, bl, bh)
  {
    hide Sorted;
    var run := new KP[bh - bl](_ => KP(0, 0));
    var j := bl;
    while j < bh
      invariant bl <= j <= bh && forall k :: 0 <= k < j - bl ==> run[k] == KP(keys[bl + k], lo + bl + k)
    {
      run[j - bl] := KP(keys[j], lo + j);
      j := j + 1;
    }
    assert run[..] == Elems(keys, lo, bl, bh);
    RadixSortKeypairs(run);
    s := run[..];
    TargetIs(keys, lo, bl, bh);
    SortedOnce(s, Target(keys, lo, bl, bh));
  }

  // ---------------- runs that tile the slice ----------------

  // Run r holds the sorted elements between bound r and bound r + 1.
  ghost predicate Tile(keys: seq<nat>, lo: nat, bounds: seq<nat>, runs: seq<seq<KP>>, r: nat)
    requires |bounds| == |runs| + 1 && r < |runs|
  {
    bounds[r] <= bounds[r + 1] <= |keys| && runs[r] == Target(keys, lo, bounds[r], bounds[r + 1])
  }

  ghost predicate Tiles(keys: seq<nat>, lo: nat, bounds: seq<nat>, runs: seq<seq<KP>>) {
    |bounds| == |runs| + 1 && forall r: nat :: r < |runs| ==> Tile(keys, lo, bounds, runs, r)
  }

  lemma {:induction false} BoundsGrow(keys: seq<nat>, lo: nat, bounds: seq<nat>, runs: seq<seq<KP>>, r: nat, q: nat)
    requires Tiles(keys, lo, bounds, runs) && r <= q <= |runs|
    ensures bounds[r] <= bounds[q] && (q > 0 ==> bounds[q] <= |keys|)
    decreases q
  {
    hide Target;
    if q > 0 { assert Tile(keys, lo, bounds, runs, q - 1); }
    if r < q { BoundsGrow(keys, lo, bounds, runs, r, q - 1); }
  }

  lemma TilesAreRuns(keys: seq<nat>, lo: nat, bounds: seq<nat>, runs: seq<seq<KP>>)
    requires Tiles(keys, lo, bounds, runs)
    ensures RunsOk(runs)
  {
    hide Sorted, Target;
    forall r | 0 <= r < |runs| ensures Sorted(runs[r]) {
      assert Tile(keys, lo, bounds, runs, r);
      TargetIs(keys, lo, bounds[r], bounds[r + 1]);
    }
    forall r, q, x, y | 0 <= r < q < |runs| && x in runs[r] && y in runs[q] ensures x.idx < y.idx {
      assert Tile(keys, lo, bounds, runs, r) && Tile(keys, lo, bounds, runs, q);
      TargetIs(keys, lo, bounds[r], bounds[r + 1]);
      TargetIs(keys, lo, bounds[q], bounds[q + 1]);
      BoundsGrow(keys, lo, bounds, runs, r + 1, q);
    }
  }

  function Zeros(n: nat): (z: seq<nat>)
    ensures |z| == n && forall i :: 0 <= i < n ==> z[i] == 0
  {
    seq(n, _ => 0)
  }

  function Lengths(runs: seq<seq<KP>>): (z: seq<nat>)
    ensures |z| == |runs| && forall i :: 0 <= i < |runs| ==> z[i] == |runs[i]|
  {
    seq(|runs|, i requires 0 <= i < |runs| => |runs[i]|)
  }

  lemma {:induction false} TilesBag(keys: seq<nat>, lo: nat, bounds: seq<nat>, runs: seq<seq<KP>>, n: nat)
    requires Tiles(keys, lo, bounds, runs) && n <= |runs| && (|runs| > 0 ==> bounds[0] <= |keys|)
    ensures Cursors(runs, Zeros(|runs|), Lengths(runs))
    ensures n > 0 ==>
          bounds[0] <= bounds[n] <= |keys|
          && Rest(runs, Zeros(|runs|), Lengths(runs), n) == multiset(Elems(keys, lo, bounds[0], bounds[n]))
  {
    hide Target;
    if n > 0 {
      TilesBag(keys, lo, bounds, runs, n - 1);
      BoundsGrow(keys, lo, bounds, runs, 0, n - 1);
      assert Tile(keys, lo, bounds, runs, n - 1);
      TargetIs(keys, lo, bounds[n - 1], bounds[n]);
      ElemsJoin(keys, lo, bounds[0], bounds[n - 1], bounds[n]);
      assert runs[n - 1][0..|runs[n - 1]|] == runs[n - 1];
      if n == 1 { assert Elems(keys, lo, bounds[0], bounds[0]) == []; }
    }
  }

  // ---------------- one rank's run ----------------

  // b * gran, the last block cut short.
  function BlockAt(b: nat, gran: nat, n: nat): (at: nat)
    ensures at <= n
  {
    if b * gran < n then b * gran else n
  }

  lemma BlocksGrow(b: nat, c: nat, gran: nat, n: nat)
    requires b <= c
    ensures BlockAt(b, gran, n) <= BlockAt(c, gran, n)
  {
    MulMonotone(b, c, gran);
  }

  method RankRun(keys: seq<nat>, lo: nat, gran: nat, b0: nat, b1: nat) returns (run: seq<KP>)
    requires Words(keys) && gran > 0 && b0 <= b1
    ensures BlockAt(b0, gran, |keys|) <= BlockAt(b1, gran, |keys|)
    ensures run == Target(keys, lo, BlockAt(b0, gran, |keys|), BlockAt(b1, gran, |keys|))
  {
    hide Target, BlockAt, Words, Sorted;
    BlocksGrow(b0, b1, gran, |keys|);
    ghost var bounds := [BlockAt(b0, gran, |keys|)];
    var blocks: seq<seq<KP>> := [];
    var b := b0;
    while b < b1
      invariant b0 <= b <= b1 && |blocks| == b - b0 && Tiles(keys, lo, bounds, blocks)
      invariant bounds[0] == BlockAt(b0, gran, |keys|) && bounds[|blocks|] == BlockAt(b, gran, |keys|)
    {
      BlocksGrow(b, b + 1, gran, |keys|);
      var block := SortBlock(keys, lo, BlockAt(b, gran, |keys|), BlockAt(b + 1, gran, |keys|));
      TilesMore(keys, lo, bounds, blocks, BlockAt(b + 1, gran, |keys|), block);
      blocks, bounds := blocks + [block], bounds + [BlockAt(b + 1, gran, |keys|)];
      b := b + 1;
    }
    run := MergeTiles(keys, lo, bounds, blocks);
  }

  // The k-way merge of tiles is the sorted order of what they cover.
  method MergeTiles(keys: seq<nat>, lo: nat, ghost bounds: seq<nat>, blocks: seq<seq<KP>>) returns (run: seq<KP>)
    requires Tiles(keys, lo, bounds, blocks) && bounds[0] <= |keys|
    ensures bounds[0] <= bounds[|blocks|] <= |keys| && run == Target(keys, lo, bounds[0], bounds[|blocks|])
  {
    hide Target, Sorted, Tiles, RunsOk;
    BoundsGrow(keys, lo, bounds, blocks, 0, |blocks|);
    TilesAreRuns(keys, lo, bounds, blocks);
    TilesBag(keys, lo, bounds, blocks, |blocks|);
    TilesLength(keys, lo, bounds, blocks);
    ghost var s := Target(keys, lo, bounds[0], bounds[|blocks|]);
    TargetIs(keys, lo, bounds[0], bounds[|blocks|]);
    var total := 0;
    var r := 0;
    while r < |blocks|
      invariant r <= |blocks| && total == Total(Zeros(|blocks|), Lengths(blocks), r)
    {
      total := total + |blocks[r]|;
      r := r + 1;
    }
    RestSize(blocks, Zeros(|blocks|), Lengths(blocks), |blocks|);
    if |blocks| == 0 { NothingLeft(keys, lo, bounds, blocks); }
    assert |multiset(s)| == |s|;
    var out := new KP[total](_ => KP(0, 0));
    EmitRuns(blocks, Zeros(|blocks|), Lengths(blocks), s, out, 0, total);
    run := out[..];
    assert run == s;
  }

  lemma TilesMore(keys: seq<nat>, lo: nat, bounds: seq<nat>, runs: seq<seq<KP>>, end: nat, run: seq<KP>)
    requires Tiles(keys, lo, bounds, runs) && bounds[|runs|] <= end <= |keys|
    requires run == Target(keys, lo, bounds[|runs|], end)
    ensures Tiles(keys, lo, bounds + [end], runs + [run])
  {
    hide Target;
    forall r: nat | r < |runs + [run]| ensures Tile(keys, lo, bounds + [end], runs + [run], r) {
      if r < |runs| { assert Tile(keys, lo, bounds, runs, r); }
    }
  }

  lemma TilesLength(keys: seq<nat>, lo: nat, bounds: seq<nat>, runs: seq<seq<KP>>)
    requires Tiles(keys, lo, bounds, runs)
    ensures |bounds| == |runs| + 1
  {
  }

  lemma NothingLeft(keys: seq<nat>, lo: nat, bounds: seq<nat>, runs: seq<seq<KP>>)
    requires Tiles(keys, lo, bounds, runs) && bounds[0] <= |keys| && runs == []
    ensures Rest(runs, Zeros(0), Lengths(runs), 0) == multiset(Elems(keys, lo, bounds[0], bounds[0]))
  {
  }

  // ---------------- where a chunk starts ----------------

  // std::lower_bound on the keys of a sorted run.
  function LowerBound(run: seq<KP>, v: nat): (n: nat)
    ensures n <= |run|
  {
    if run == [] then 0
    else if run[|run| - 1].key < v then |run|
    else LowerBound(run[..|run| - 1], v)
  }

  lemma {:induction false} BoundSplits(run: seq<KP>, v: nat)
    requires Sorted(run)
    ensures forall i :: 0 <= i < LowerBound(run, v) ==> run[i].key < v
    ensures forall i :: LowerBound(run, v) <= i < |run| ==> run[i].key >= v
  {
    if run != [] && run[|run| - 1].key >= v {
      BoundSplits(run[..|run| - 1], v);
    }
  }

  lemma BoundAt(run: seq<KP>, v: nat, i: nat)
    requires Sorted(run) && i < |run|
    ensures i < LowerBound(run, v) <==> run[i].key < v
  {
    hide LowerBound, Sorted;
    BoundSplits(run, v);
  }

  lemma BoundsNest(run: seq<KP>, v: nat)
    requires Sorted(run)
    ensures LowerBound(run, v) <= LowerBound(run, v + 1)
  {
    hide LowerBound, Sorted;
    var ub := LowerBound(run, v + 1);
    if ub < |run| {
      BoundAt(run, v, ub);
      BoundAt(run, v + 1, ub);
    }
  }

  lemma NestAt(runs: seq<seq<KP>>, v: nat, r: nat)
    requires RunsOk(runs) && r < |runs|
    ensures LowerBound(runs[r], v) <= LowerBound(runs[r], v + 1)
  {
    hide LowerBound, Sorted;
    BoundsNest(runs[r], v);
  }

  // How many elements have key v: upper_bound minus lower_bound.
  function Equals(run: seq<KP>, v: nat): int {
    LowerBound(run, v + 1) - LowerBound(run, v)
  }

  ghost function CountLt(runs: seq<seq<KP>>, v: nat, n: nat): nat
    requires n <= |runs|
  {
    if n == 0 then 0 else CountLt(runs, v, n - 1) + LowerBound(runs[n - 1], v)
  }

  ghost function Cum(runs: seq<seq<KP>>, v: nat, n: nat): int
    requires n <= |runs|
  {
    if n == 0 then 0 else Cum(runs, v, n - 1) + Equals(runs[n - 1], v)
  }

  lemma {:induction false} CountNext(runs: seq<seq<KP>>, v: nat, n: nat)
    requires n <= |runs|
    ensures CountLt(runs, v + 1, n) == CountLt(runs, v, n) + Cum(runs, v, n)
  {
    hide LowerBound;
    if n > 0 { CountNext(runs, v, n - 1); }
  }

  lemma {:induction false} NoneBelowZero(runs: seq<seq<KP>>, n: nat)
    requires n <= |runs| && RunsOk(runs)
    ensures CountLt(runs, 0, n) == 0
  {
    hide LowerBound, Sorted;
    if n > 0 {
      NoneBelowZero(runs, n - 1);
      BoundSplits(runs[n - 1], 0);
      assert LowerBound(runs[n - 1], 0) > 0 ==> runs[n - 1][0].key < 0;
    }
  }

  method CountBelow(runs: seq<seq<KP>>, v: nat) returns (c: nat)
    ensures c == CountLt(runs, v, |runs|)
  {
    hide LowerBound;
    c := 0;
    var r := 0;
    while r < |runs|
      invariant r <= |runs| && c == CountLt(runs, v, r)
    {
      c := c + LowerBound(runs[r], v);
      r := r + 1;
    }
  }

  const WORD: nat := 0x1_0000_0000_0000_0000

  // The last value below which there are at most j elements.
  method Select(runs: seq<seq<KP>>, j: nat) returns (v: nat)
    requires RunsOk(runs)
    ensures v < WORD && CountLt(runs, v, |runs|) <= j
    ensures v + 1 < WORD ==> CountLt(runs, v + 1, |runs|) > j
  {
    hide CountLt, RunsOk;
    NoneBelowZero(runs, |runs|);
    var lo, hi := 0, WORD;
    while lo < hi
      invariant 0 <= lo <= hi <= WORD
      invariant lo > 0 ==> CountLt(runs, lo - 1, |runs|) <= j
      invariant hi < WORD ==> CountLt(runs, hi, |runs|) > j
    {
      var mid := lo + (hi - lo) / 2;
      var c := CountBelow(runs, mid);
      if c <= j { lo := mid + 1; } else { hi := mid; }
    }
    v := lo - 1;
  }

  function Min(a: int, b: int): int {
    if a < b then a else b
  }

  // One run's cut: everything below v, and its share of the equal keys, handed
  // out in run order.
  function CutOf(run: seq<KP>, v: nat, skip: nat, cum: int): int {
    LowerBound(run, v) + Min(Equals(run, v), if skip > cum then skip - cum else 0)
  }

  ghost predicate CutsOk(runs: seq<seq<KP>>, v: nat, skip: nat, cut: seq<nat>) {
    |cut| == |runs| && forall r: nat :: r < |runs| ==> cut[r] == CutOf(runs[r], v, skip, Cum(runs, v, r))
  }

  method Cuts(runs: seq<seq<KP>>, v: nat, skip: nat) returns (cut: seq<nat>)
    requires RunsOk(runs)
    ensures CutsOk(runs, v, skip, cut)
  {
    hide LowerBound, RunsOk, Cum;
    cut := [];
    var cum, r := 0, 0;
    NoCum(runs, v);
    while r < |runs|
      invariant r == |cut| <= |runs| && cum == Cum(runs, v, r)
      invariant forall q: nat :: q < r ==> cut[q] == CutOf(runs[q], v, skip, Cum(runs, v, q))
    {
      NestAt(runs, v, r);
      NextCum(runs, v, r);
      var lb := LowerBound(runs[r], v);
      var ec := LowerBound(runs[r], v + 1) - lb;
      cut := cut + [lb + Min(ec, if skip > cum then skip - cum else 0)];
      cum := cum + ec;
      r := r + 1;
    }
  }

  lemma NoCum(runs: seq<seq<KP>>, v: nat)
    ensures Cum(runs, v, 0) == 0
  {
  }

  lemma NextCum(runs: seq<seq<KP>>, v: nat, r: nat)
    requires r < |runs|
    ensures Cum(runs, v, r + 1) == Cum(runs, v, r) + Equals(runs[r], v)
  {
    hide Equals;
  }

  lemma {:induction false} CumGrows(runs: seq<seq<KP>>, v: nat, r: nat, q: nat)
    requires RunsOk(runs) && r <= q <= |runs|
    ensures 0 <= Cum(runs, v, r) <= Cum(runs, v, q)
    decreases q
  {
    hide LowerBound, Sorted;
    if q > 0 { BoundsNest(runs[q - 1], v); }
    if r < q { CumGrows(runs, v, r, q - 1); } else if q > 0 { CumGrows(runs, v, r - 1, q - 1); }
  }

  lemma CutInRun(runs: seq<seq<KP>>, v: nat, skip: nat, cut: seq<nat>, r: nat)
    requires RunsOk(runs) && CutsOk(runs, v, skip, cut) && r < |runs|
    ensures cut[r] <= |runs[r]|
    ensures forall i :: 0 <= i < cut[r] ==> runs[r][i].key <= v
    ensures forall i :: cut[r] <= i < |runs[r]| ==> runs[r][i].key >= v
    ensures forall i :: 0 <= i < cut[r] && runs[r][i].key == v ==> Cum(runs, v, r) < skip
    ensures forall i :: cut[r] <= i < |runs[r]| && runs[r][i].key == v ==> Cum(runs, v, r + 1) > skip
  {
    hide LowerBound, Sorted;
    BoundsNest(runs[r], v);
    BoundSplits(runs[r], v);
    BoundSplits(runs[r], v + 1);
    CumGrows(runs, v, r, r + 1);
  }

  lemma CutCursors(runs: seq<seq<KP>>, v: nat, skip: nat, cut: seq<nat>)
    requires RunsOk(runs) && CutsOk(runs, v, skip, cut)
    ensures Cursors(runs, Zeros(|runs|), cut) && Cursors(runs, cut, Lengths(runs))
  {
    hide LowerBound, Sorted, CutOf, RunsOk;
    forall r: nat | r < |runs| ensures cut[r] <= |runs[r]| { CutInRun(runs, v, skip, cut, r); }
  }

  // Whatever is before the cut comes before whatever is behind it.
  lemma CutSplits(runs: seq<seq<KP>>, v: nat, skip: nat, cut: seq<nat>)
    requires RunsOk(runs) && CutsOk(runs, v, skip, cut)
    requires Cursors(runs, Zeros(|runs|), cut) && Cursors(runs, cut, Lengths(runs))
    ensures AllBefore(Rest(runs, Zeros(|runs|), cut, |runs|), Rest(runs, cut, Lengths(runs), |runs|))
  {
    hide LowerBound, Sorted, CutOf, RunsOk, Rest, CutsOk, Lt;
    CursorFacts(runs, cut, Lengths(runs));
    forall x, y | x in Rest(runs, Zeros(|runs|), cut, |runs|) && y in Rest(runs, cut, Lengths(runs), |runs|)
      ensures Lt(x, y)
    {
      RestHas(runs, Zeros(|runs|), cut, |runs|, x);
      RestHas(runs, cut, Lengths(runs), |runs|, y);
      var r :| 0 <= r < |runs| && x in runs[r][Zeros(|runs|)[r]..cut[r]];
      var q :| 0 <= q < |runs| && y in runs[q][cut[q]..Lengths(runs)[q]];
      var i :| 0 <= i < cut[r] && runs[r][i] == x;
      var k :| cut[q] <= k < |runs[q]| && runs[q][k] == y;
      AcrossCut(runs, v, skip, cut, r, i, q, k);
    }
  }

  lemma AcrossCut(runs: seq<seq<KP>>, v: nat, skip: nat, cut: seq<nat>, r: nat, i: nat, q: nat, k: nat)
    requires RunsOk(runs) && CutsOk(runs, v, skip, cut) && r < |runs| && q < |runs|
    requires i < cut[r] <= |runs[r]| && cut[q] <= k < |runs[q]|
    ensures Lt(runs[r][i], runs[q][k])
  {
    hide LowerBound, CutOf, CutsOk, Cum;
    assert |cut| == |runs| by { CutsLength(runs, v, skip, cut); }
    CutInRun(runs, v, skip, cut, r);
    CutInRun(runs, v, skip, cut, q);
    assert Sorted(runs[r]);
    assert runs[r][i] in runs[r] && runs[q][k] in runs[q];
    if q < r { CumGrows(runs, v, q + 1, r); }
  }

  lemma CutsLength(runs: seq<seq<KP>>, v: nat, skip: nat, cut: seq<nat>)
    requires CutsOk(runs, v, skip, cut)
    ensures |cut| == |runs|
  {
  }

  lemma ShareMin(cum: int, ec: int, skip: nat)
    requires cum >= 0 && ec >= 0
    ensures Min(cum + ec, skip) == Min(cum, skip) + Min(ec, if skip > cum then skip - cum else 0)
  {
  }

  lemma CutAt(runs: seq<seq<KP>>, v: nat, skip: nat, cut: seq<nat>, r: nat)
    requires CutsOk(runs, v, skip, cut) && r < |runs|
    ensures |cut| == |runs| && cut[r] == CutOf(runs[r], v, skip, Cum(runs, v, r))
  {
  }

  lemma {:induction false} CutTotal(runs: seq<seq<KP>>, v: nat, skip: nat, cut: seq<nat>, n: nat)
    requires RunsOk(runs) && CutsOk(runs, v, skip, cut) && n <= |runs| == |cut|
    ensures Total(Zeros(|runs|), cut, n) == CountLt(runs, v, n) + Min(Cum(runs, v, n), skip)
  {
    hide LowerBound, RunsOk, CutsOk, Min;
    if n > 0 {
      CutTotal(runs, v, skip, cut, n - 1);
      NestAt(runs, v, n - 1);
      CumGrows(runs, v, 0, n - 1);
      CutAt(runs, v, skip, cut, n - 1);
      ShareMin(Cum(runs, v, n - 1), Equals(runs[n - 1], v), skip);
    } else {
      ShareMin(0, 0, skip);
      ZeroMin(skip);
    }
  }

  lemma ZeroMin(skip: nat)
    ensures Min(0, skip) == 0
  {
  }

  lemma {:induction false} AllBelowWord(runs: seq<seq<KP>>, v: nat, n: nat)
    requires n <= |runs| && RunsOk(runs) && forall r, x :: 0 <= r < |runs| && x in runs[r] ==> x.key < v
    ensures CountLt(runs, v, n) == Total(Zeros(|runs|), Lengths(runs), n)
  {
    hide LowerBound, Sorted;
    if n > 0 {
      AllBelowWord(runs, v, n - 1);
      var last := |runs[n - 1]| - 1;
      if last >= 0 {
        assert runs[n - 1][last] in runs[n - 1];
        BoundAt(runs[n - 1], v, last);
      }
    }
  }

  // The cut for position j: exactly the first j elements of the sorted order.
  ghost predicate PrefixCut(runs: seq<seq<KP>>, s: seq<KP>, j: nat, cut: seq<nat>) {
    && Cursors(runs, Zeros(|runs|), cut) && Cursors(runs, cut, Lengths(runs)) && j <= |s|
    && multiset(s[..j]) == Rest(runs, Zeros(|runs|), cut, |runs|)
    && multiset(s[j..]) == Rest(runs, cut, Lengths(runs), |runs|)
  }

  lemma {:induction false} RestSplit(runs: seq<seq<KP>>, a: seq<nat>, b: seq<nat>, c: seq<nat>, n: nat)
    requires Cursors(runs, a, b) && Cursors(runs, b, c) && n <= |runs|
    ensures Cursors(runs, a, c) && Rest(runs, a, c, n) == Rest(runs, a, b, n) + Rest(runs, b, c, n)
  {
    if n > 0 {
      RestSplit(runs, a, b, c, n - 1);
      assert runs[n - 1][a[n - 1]..c[n - 1]] == runs[n - 1][a[n - 1]..b[n - 1]] + runs[n - 1][b[n - 1]..c[n - 1]];
    }
  }

  ghost predicate Gathered(runs: seq<seq<KP>>, s: seq<KP>) {
    && RunsOk(runs) && Sorted(s) && Cursors(runs, Zeros(|runs|), Lengths(runs))
    && multiset(s) == Rest(runs, Zeros(|runs|), Lengths(runs), |runs|)
    && forall r, x :: 0 <= r < |runs| && x in runs[r] ==> x.key < WORD
  }

  method ChunkCut(runs: seq<seq<KP>>, ghost s: seq<KP>, j: nat) returns (cut: seq<nat>)
    requires Gathered(runs, s) && j <= |s|
    ensures PrefixCut(runs, s, j, cut)
  {
    hide LowerBound, Sorted, CutOf, RunsOk, Rest, CutsOk, AllBefore, Cum;
    var v := Select(runs, j);
    var below := CountBelow(runs, v);
    var skip := j - below;
    cut := Cuts(runs, v, skip);
    CutCursors(runs, v, skip, cut);
    CutSplits(runs, v, skip, cut);
    CutTotal(runs, v, skip, cut, |runs|);
    CountNext(runs, v, |runs|);
    AllBelowWord(runs, WORD, |runs|);
    RestSize(runs, Zeros(|runs|), Lengths(runs), |runs|);
    RestSize(runs, Zeros(|runs|), cut, |runs|);
    assert |multiset(s)| == |s|;
    RestSplit(runs, Zeros(|runs|), cut, Lengths(runs), |runs|);
    PrefixIs(s, Rest(runs, Zeros(|runs|), cut, |runs|), Rest(runs, cut, Lengths(runs), |runs|));
  }

  // ---------------- the chunks ----------------

  lemma NotTwice(s: seq<KP>, j: nat, x: KP)
    requires Sorted(s) && j <= |s|
    ensures !(x in s[..j] && x in s[j..])
  {
    hide Lt;
    forall i, k | 0 <= i < j && 0 <= k < |s| - j ensures s[..j][i] != s[j..][k] {
      Asymmetric(s[i], s[j + k]);
      assert Lt(s[i], s[j + k]);
    }
  }

  // A later cut is no earlier in any run.
  lemma CutsClimb(runs: seq<seq<KP>>, s: seq<KP>, j0: nat, j1: nat, alo: seq<nat>, ahi: seq<nat>)
    requires Sorted(s) && PrefixCut(runs, s, j0, alo) && PrefixCut(runs, s, j1, ahi) && j0 <= j1
    ensures Cursors(runs, alo, ahi) && multiset(s[j0..j1]) == Rest(runs, alo, ahi, |runs|)
  {
    hide Rest, Sorted;
    forall r | 0 <= r < |runs| ensures alo[r] <= ahi[r] { OneClimbs(runs, s, j0, j1, alo, ahi, r); }
    RestSplit(runs, Zeros(|runs|), alo, ahi, |runs|);
    assert s[..j1] == s[..j0] + s[j0..j1];
    assert multiset(s[j0..j1]) == multiset(s[..j1]) - multiset(s[..j0]);
  }

  lemma OneClimbs(runs: seq<seq<KP>>, s: seq<KP>, j0: nat, j1: nat, alo: seq<nat>, ahi: seq<nat>, r: nat)
    requires Sorted(s) && PrefixCut(runs, s, j0, alo) && PrefixCut(runs, s, j1, ahi) && j0 <= j1 && r < |runs|
    ensures |alo| == |runs| == |ahi| && alo[r] <= ahi[r]
  {
    hide Rest, Sorted;
    if ahi[r] < alo[r] {
      var x := runs[r][ahi[r]];
      assert x in runs[r][Zeros(|runs|)[r]..alo[r]] && x in runs[r][ahi[r]..Lengths(runs)[r]];
      RestHas(runs, Zeros(|runs|), alo, |runs|, x);
      RestHas(runs, ahi, Lengths(runs), |runs|, x);
      assert x in multiset(s[..j0]) && x in multiset(s[j1..]);
      assert s[..j1] == s[..j0] + s[j0..j1];
      NotTwice(s, j1, x);
    }
  }

  // One rank's chunk [j0, j1): exactly that part of the slice's sorted order, and
  // nothing outside it.
  method EmitChunk(runs: seq<seq<KP>>, ghost s: seq<KP>, j0: nat, j1: nat, out: array<KP>)
    requires Gathered(runs, s) && j0 <= j1 <= |s| == out.Length
    modifies out
    ensures forall i :: 0 <= i < out.Length ==> out[i] == if j0 <= i < j1 then s[i] else old(out[i])
  {
    hide Sorted, RunsOk, Rest;
    var alo := ChunkCut(runs, s, j0);
    var ahi := ChunkCut(runs, s, j1);
    CutsClimb(runs, s, j0, j1, alo, ahi);
    SortedPart(s, j0, j1);
    EmitRuns(runs, alo, ahi, s[j0..j1], out, j0, j1 - j0);
  }

  // ---------------- slice_keys_phase ----------------

  lemma BlocksCover(n: nat, gran: nat)
    requires gran > 0
    ensures BlockAt((n + gran - 1) / gran, gran, n) == n && BlockAt(0, gran, n) == 0
  {
    var b := (n + gran - 1) / gran;
    assert n + gran - 1 == b * gran + (n + gran - 1) % gran;
  }

  // Every rank's run, between its shares of the blocks.
  method RankRuns(keys: seq<nat>, lo: nat, gran: nat, P: nat) returns (runs: seq<seq<KP>>, ghost bounds: seq<nat>)
    requires Words(keys) && gran > 0 && P > 0
    ensures Tiles(keys, lo, bounds, runs) && |runs| == P && bounds[0] == 0 && bounds[P] == |keys|
  {
    hide Target, BlockAt, Words, Tiles, Share;
    var nblocks := (|keys| + gran - 1) / gran;
    BlocksCover(|keys|, gran);
    SharesTile(0, nblocks, P);
    runs, bounds := [], [0];
    NoTiles(keys, lo);
    var q := 0;
    while q < P
      invariant q <= P && |runs| == q && Tiles(keys, lo, bounds, runs) && |bounds| == q + 1
      invariant bounds[0] == 0 && bounds[q] == BlockAt(Share(q, nblocks, P), gran, |keys|)
    {
      SharesTile(q, nblocks, P);
      var run := RankRun(keys, lo, gran, Share(q, nblocks, P), Share(q + 1, nblocks, P));
      TilesMore(keys, lo, bounds, runs, BlockAt(Share(q + 1, nblocks, P), gran, |keys|), run);
      runs, bounds := runs + [run], bounds + [BlockAt(Share(q + 1, nblocks, P), gran, |keys|)];
      q := q + 1;
    }
  }

  lemma NoTiles(keys: seq<nat>, lo: nat)
    ensures Tiles(keys, lo, [0], [])
  {
  }

  lemma TilesGathered(keys: seq<nat>, lo: nat, bounds: seq<nat>, runs: seq<seq<KP>>)
    requires Words(keys) && Tiles(keys, lo, bounds, runs) && |runs| > 0 && bounds[0] == 0 && bounds[|runs|] == |keys|
    ensures Gathered(runs, Target(keys, lo, 0, |keys|))
  {
    hide Target, Sorted, RunsOk, Rest;
    TilesAreRuns(keys, lo, bounds, runs);
    TilesBag(keys, lo, bounds, runs, |runs|);
    TargetIs(keys, lo, 0, |keys|);
    forall r, x | 0 <= r < |runs| && x in runs[r] ensures x.key < WORD {
      assert Tile(keys, lo, bounds, runs, r);
      TargetIs(keys, lo, bounds[r], bounds[r + 1]);
      assert x in multiset(Elems(keys, lo, bounds[r], bounds[r + 1]));
    }
  }

  // For any number of ranks and any block size, the chunks of all ranks together
  // are the slice sorted by key and original index.
  method SliceKeysPhase(keys: seq<nat>, lo: nat, gran: nat, P: nat) returns (run: array<KP>)
    requires Words(keys) && gran > 0 && P > 0
    ensures run[..] == Target(keys, lo, 0, |keys|)
  {
    hide Target, Sorted, Tiles, Share, Gathered, Words;
    var runs; ghost var bounds;
    runs, bounds := RankRuns(keys, lo, gran, P);
    TilesGathered(keys, lo, bounds, runs);
    ghost var s := Target(keys, lo, 0, |keys|);
    TargetIs(keys, lo, 0, |keys|);
    run := new KP[|keys|](_ => KP(0, 0));
    SharesTile(0, |keys|, P);
    var q := 0;
    while q < P
      invariant q <= P && Share(q, |keys|, P) <= |keys|
      invariant forall i :: 0 <= i < Share(q, |keys|, P) ==> run[i] == s[i]
    {
      SharesTile(q, |keys|, P);
      EmitChunk(runs, s, Share(q, |keys|, P), Share(q + 1, |keys|, P), run);
      q := q + 1;
    }
    assert run[..] == s;
  }
}
