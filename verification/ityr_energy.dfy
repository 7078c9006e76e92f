// Energies as blocked sums: blocks are summed serially by the node that owns
// them and combined in a fixed tree, with addition left uninterpreted, so the
// distributed sum is the sequential one only because it does the same additions.
module BlockedEnergy {
  import opened SortOrder
  import opened Redistribution

  type Num(0, !new)

  // Addition, zero, and the term of body i.
  datatype Adds = Adds(zero: Num, plus: (Num, Num) -> Num, term: nat -> Num)

  function SerialSum(ad: Adds, a: nat, e: nat): Num
    requires a <= e
  {
    if a == e then ad.zero else ad.plus(SerialSum(ad, a, e - 1), ad.term(e - 1))
  }

  function BlockLo(k: nat, B: nat): nat {
    k * B
  }

  function BlockHi(k: nat, B: nat, n: nat): nat {
    if k * B + B < n then k * B + B else n
  }

  function BlockSum(ad: Adds, k: nat, B: nat, n: nat): Num
    requires BlockLo(k, B) <= n
  {
    SerialSum(ad, BlockLo(k, B), BlockHi(k, B, n))
  }

  // tree_combine
  function TreeCombine(ad: Adds, s: seq<Num>, lo: nat, hi: nat): Num
    requires lo < hi <= |s|
    decreases hi - lo
  {
    if hi - lo == 1 then s[lo]
    else
      var mid := lo + (hi - lo) / 2;
      ad.plus(TreeCombine(ad, s, lo, mid), TreeCombine(ad, s, mid, hi))
  }

  // nblocks blocks of B cover n bodies, the last one partly.
  ghost predicate Blocks(nblocks: nat, B: nat, n: nat) {
    B > 0 && nblocks > 0 && BlockLo(nblocks - 1, B) < n <= BlockLo(nblocks, B)
  }

  lemma BlockInside(k: nat, nblocks: nat, B: nat, n: nat)
    requires Blocks(nblocks, B, n) && k < nblocks
    ensures BlockLo(k, B) < n && BlockLo(k, B) < BlockHi(k, B, n) <= n
    ensures BlockLo(k + 1, B) == BlockLo(k, B) + B
  {
    MulMonotone(k, nblocks - 1, B);
    NextBlock(k, B);
  }

  lemma NextBlock(k: nat, B: nat)
    ensures BlockLo(k + 1, B) == BlockLo(k, B) + B
  {
  }

  lemma CountBlocks(B: nat, n: nat)
    requires B > 0 && n > 0
    ensures Blocks((n + B - 1) / B, B, n)
  {
    var q := (n + B - 1) / B;
    assert n + B - 1 == q * B + (n + B - 1) % B;
    DivMonotone(B, n + B - 1, B);
    MulDiv(1, B);
    NextBlock(q - 1, B);
  }

  function AllBlocks(ad: Adds, nblocks: nat, B: nat, n: nat): (s: seq<Num>)
    requires Blocks(nblocks, B, n)
    ensures |s| == nblocks && forall k: nat :: k < nblocks ==> BlockLo(k, B) <= n && s[k] == BlockSum(ad, k, B, n)
  {
    seq(nblocks, k requires 0 <= k < nblocks => BlockInside(k, nblocks, B, n); BlockSum(ad, k, B, n))
  }

  // The sum both programs define.
  function SumOf(ad: Adds, nblocks: nat, B: nat, n: nat): Num
    requires Blocks(nblocks, B, n)
  {
    TreeCombine(ad, AllBlocks(ad, nblocks, B, n), 0, nblocks)
  }

  // ---------------- which terms a sum holds ----------------

  // h reads off a sum the bodies whose terms were added, in order.
  ghost predicate Reads(ad: Adds, h: Num -> seq<nat>) {
    && h(ad.zero) == [] && (forall i: nat :: h(ad.term(i)) == [i])
    && forall a, b :: h(ad.plus(a, b)) == h(a) + h(b)
  }

  // Bodies a up to e, each once.
  ghost predicate InOrder(s: seq<nat>, a: nat, e: nat)
    requires a <= e
  {
    |s| == e - a && forall i :: 0 <= i < |s| ==> s[i] == a + i
  }

  lemma {:induction false} SerialReads(ad: Adds, h: Num -> seq<nat>, a: nat, e: nat)
    requires Reads(ad, h) && a <= e
    ensures InOrder(h(SerialSum(ad, a, e)), a, e)
    decreases e
  {
    if a < e { SerialReads(ad, h, a, e - 1); }
  }

  lemma {:induction false} TreeReads(ad: Adds, h: Num -> seq<nat>, nblocks: nat, B: nat, n: nat, lo: nat, hi: nat)
    requires Reads(ad, h) && Blocks(nblocks, B, n) && lo < hi <= nblocks
    ensures BlockLo(lo, B) < BlockHi(hi - 1, B, n)
    ensures InOrder(h(TreeCombine(ad, AllBlocks(ad, nblocks, B, n), lo, hi)), BlockLo(lo, B), BlockHi(hi - 1, B, n))
    decreases hi - lo
  {
    hide Blocks, InOrder, Reads;
    var s := AllBlocks(ad, nblocks, B, n);
    BlockInside(lo, nblocks, B, n);
    if hi - lo == 1 {
      SerialReads(ad, h, BlockLo(lo, B), BlockHi(lo, B, n));
    } else {
      var mid := lo + (hi - lo) / 2;
      TreeReads(ad, h, nblocks, B, n, lo, mid);
      TreeReads(ad, h, nblocks, B, n, mid, hi);
      BlockMeets(nblocks, B, n, mid);
      PlusReads(ad, h, TreeCombine(ad, s, lo, mid), TreeCombine(ad, s, mid, hi), BlockLo(lo, B), BlockLo(mid, B),
            BlockHi(hi - 1, B, n));
    }
  }

  // A block that is not the last ends where the next begins.
  lemma BlockMeets(nblocks: nat, B: nat, n: nat, mid: nat)
    requires Blocks(nblocks, B, n) && 0 < mid < nblocks
    ensures BlockHi(mid - 1, B, n) == BlockLo(mid, B)
  {
    BlockInside(mid, nblocks, B, n);
    NextBlock(mid - 1, B);
  }

  lemma PlusReads(ad: Adds, h: Num -> seq<nat>, x: Num, y: Num, a: nat, b: nat, c: nat)
    requires Reads(ad, h) && a <= b <= c && InOrder(h(x), a, b) && InOrder(h(y), b, c)
    ensures InOrder(h(ad.plus(x, y)), a, c)
  {
  }

  // The blocked sum misses no body and repeats none, whatever the block size.
  lemma SumAddsAll(ad: Adds, nblocks: nat, B: nat, n: nat)
    requires Blocks(nblocks, B, n)
    ensures forall h: Num -> seq<nat> :: Reads(ad, h) ==> InOrder(h(SumOf(ad, nblocks, B, n)), 0, n)
  {
    hide InOrder, Reads, TreeCombine, BlockLo, BlockHi;
    forall h: Num -> seq<nat> | Reads(ad, h) ensures InOrder(h(SumOf(ad, nblocks, B, n)), 0, n) {
      TreeReads(ad, h, nblocks, B, n, 0, nblocks);
      Ends(nblocks, B, n);
    }
  }

  lemma Ends(nblocks: nat, B: nat, n: nat)
    requires Blocks(nblocks, B, n)
    ensures BlockLo(0, B) == 0 && BlockHi(nblocks - 1, B, n) == n
  {
    NextBlock(nblocks - 1, B);
  }

  method SumBlock(ad: Adds, a: nat, e: nat) returns (acc: Num)
    requires a <= e
    ensures acc == SerialSum(ad, a, e)
  {
    acc := ad.zero;
    var i := a;
    while i < e
      invariant a <= i <= e && acc == SerialSum(ad, a, i)
    {
      acc := ad.plus(acc, ad.term(i));
      i := i + 1;
    }
  }

  // blocked_sum on one node; a single block is summed directly.
  method BlockedSum(ad: Adds, B: nat, n: nat) returns (sum: Num)
    requires B > 0 && n > 0
    ensures Blocks((n + B - 1) / B, B, n) && sum == SumOf(ad, (n + B - 1) / B, B, n)
    ensures forall h: Num -> seq<nat> :: Reads(ad, h) ==> InOrder(h(sum), 0, n)
  {
    hide BlockLo, BlockHi, Blocks, InOrder, Reads;
    var nblocks := (n + B - 1) / B;
    CountBlocks(B, n);
    SumAddsAll(ad, nblocks, B, n);
    if nblocks == 1 {
      OneBlock(B, n);
      sum := SumBlock(ad, 0, n);
      return;
    }
    var s: seq<Num> := [];
    var k := 0;
    HasBlocks(nblocks, B, n);
    while k < nblocks
      invariant k == |s| <= nblocks
      invariant forall j: nat :: j < k ==> BlockLo(j, B) <= n && s[j] == BlockSum(ad, j, B, n)
    {
      BlockInside(k, nblocks, B, n);
      var acc := SumBlock(ad, BlockLo(k, B), BlockHi(k, B, n));
      s := s + [acc];
      k := k + 1;
    }
    assert s == AllBlocks(ad, nblocks, B, n);
    sum := TreeCombine(ad, s, 0, nblocks);
  }

  lemma OneBlock(B: nat, n: nat)
    requires Blocks(1, B, n)
    ensures BlockLo(0, B) == 0 && BlockHi(0, B, n) == n
  {
    NextBlock(0, B);
  }

  lemma HasBlocks(nblocks: nat, B: nat, n: nat)
    requires Blocks(nblocks, B, n)
    ensures nblocks > 0
  {
  }

  // ---------------- the distributed kinetic sum ----------------

  // A slice bound: a whole number of blocks, or the end.
  ghost predicate OnBlock(x: nat, B: nat, n: nat) {
    x == n || exists q: nat :: x == BlockLo(q, B)
  }

  ghost predicate AlignedSlices(los: seq<nat>, B: nat, n: nat) {
    Layout(los, n) && forall s :: 0 <= s < |los| ==> OnBlock(los[s], B, n)
  }

  // When the slice granularity is a multiple of the energy block, slices start
  // on blocks.
  lemma MultipleAligns(los: seq<nat>, n: nat, ninter: nat, gran: nat, m: nat, B: nat)
    requires ninter > 0 && gran > 0 && gran == m * B && |los| == ninter + 1 && Layout(los, n)
    requires forall s: nat :: s <= ninter ==> los[s] == SliceLo(s, n, ninter, gran)
    ensures AlignedSlices(los, B, n)
  {
    forall s: nat | s < |los| ensures OnBlock(los[s], B, n) {
      if s < ninter {
        Positive(ninter, gran);
        var q := s * n / (ninter * gran);
        assert los[s] == q * gran;
        Grouped(q, m, B);
        assert los[s] == BlockLo(q * m, B);
      }
    }
  }

  lemma Grouped(q: nat, m: nat, B: nat)
    ensures q * (m * B) == (q * m) * B
  {
  }

  // owner_ek: the node whose slice holds the block's first body.
  function OwnerFrom(los: seq<nat>, a: nat, s: nat): (o: nat)
    requires s < |los| - 1
    ensures s <= o < |los| - 1
    decreases |los| - s
  {
    if a < los[s + 1] || s == |los| - 2 then s else OwnerFrom(los, a, s + 1)
  }

  lemma {:induction false} OwnerIs(los: seq<nat>, n: nat, a: nat, s: nat)
    requires Layout(los, n) && s < |los| - 1 && los[s] <= a < n
    ensures var o := OwnerFrom(los, a, s); los[o] <= a < los[o + 1]
    decreases |los| - s
  {
    hide Layout;
    LastSlice(los, n);
    if !(a < los[s + 1] || s == |los| - 2) { OwnerIs(los, n, a, s + 1); }
  }

  lemma LastSlice(los: seq<nat>, n: nat)
    requires Layout(los, n)
    ensures |los| > 1 && los[0] == 0 && los[|los| - 1] == n
  {
  }

  // A block never spans two slices.
  lemma BlockInSlice(los: seq<nat>, nblocks: nat, B: nat, n: nat, k: nat)
    requires AlignedSlices(los, B, n) && Blocks(nblocks, B, n) && k < nblocks
    ensures |los| > 1
    ensures var o := OwnerFrom(los, BlockLo(k, B), 0);
            los[o] <= BlockLo(k, B) && BlockHi(k, B, n) <= los[o + 1] <= n
  {
    hide Blocks;
    LastSlice(los, n);
    BlockInside(k, nblocks, B, n);
    OwnerIs(los, n, BlockLo(k, B), 0);
    var o := OwnerFrom(los, BlockLo(k, B), 0);
    assert OnBlock(los[o + 1], B, n);
    LosClimb(los, n, o, o + 1);
    if los[o + 1] != n {
      var q: nat :| los[o + 1] == BlockLo(q, B);
      if q <= k { MulMonotone(q, k, B); }
      MulMonotone(k + 1, q, B);
    }
  }

  lemma {:induction false} OwnersClimb(los: seq<nat>, a: nat, b: nat, s: nat)
    requires s < |los| - 1 && a <= b
    ensures OwnerFrom(los, a, s) <= OwnerFrom(los, b, s)
    decreases |los| - s
  {
    if !(a < los[s + 1] || s == |los| - 2) { OwnersClimb(los, a, b, s + 1); }
  }

  // Whatever assigns blocks to nodes in order gives each node one range.
  ghost predicate InBlockOrder(owner: nat -> nat, nblocks: nat) {
    forall k: nat, m: nat :: k <= m < nblocks ==> owner(k) <= owner(m)
  }

  // The two scans: the first and one past the last block of this node.
  method MyRange(owner: nat -> nat, nblocks: nat, inter: nat) returns (lo: nat, hi: nat)
    requires InBlockOrder(owner, nblocks)
    ensures hi <= nblocks && forall k: nat :: k < nblocks ==> (lo <= k < hi <==> owner(k) == inter)
  {
    lo, hi := nblocks, 0;
    var k := 0;
    while k < nblocks
      invariant k <= nblocks && lo == nblocks && forall j: nat :: j < k ==> owner(j) != inter
    {
      if owner(k) == inter {
        lo := k;
        break;
      }
      k := k + 1;
    }
    k := nblocks;
    while k > 0
      invariant 0 <= k <= nblocks && hi == 0 && forall j: nat :: k <= j < nblocks ==> owner(j) != inter
    {
      k := k - 1;
      if owner(k) == inter {
        hi := k + 1;
        break;
      }
    }
  }

  // One node's partial sums: right for its own blocks.
  ghost predicate PartsOk(ad: Adds, owner: nat -> nat, nblocks: nat, B: nat, n: nat, inter: nat, parts: seq<Num>)
    requires Blocks(nblocks, B, n)
  {
    |parts| == nblocks && forall k: nat :: k < nblocks && owner(k) == inter ==>
          BlockLo(k, B) <= n && parts[k] == BlockSum(ad, k, B, n)
  }

  // A block summed serially from an array that begins at body glo.
  method SumLocal(ad: Adds, v: seq<Num>, glo: nat, a: nat, e: nat) returns (acc: Num)
    requires glo <= a <= e <= glo + |v| && forall i :: a <= i < e ==> v[i - glo] == ad.term(i)
    ensures acc == SerialSum(ad, a, e)
  {
    acc := ad.zero;
    var i := a;
    while i < e
      invariant a <= i <= e && acc == SerialSum(ad, a, i)
    {
      acc := ad.plus(acc, v[i - glo]);
      i := i + 1;
    }
  }

  // The parts, each block's taken from its owner, combined: the sequential blocked
  // sum.
  method CombineParts(ad: Adds, owner: nat -> nat, nblocks: nat, B: nat, n: nat, all: seq<seq<Num>>) returns (sum: Num)
    requires Blocks(nblocks, B, n) && forall k: nat :: k < nblocks ==> owner(k) < |all|
    requires forall q: nat :: q < |all| ==> PartsOk(ad, owner, nblocks, B, n, q, all[q])
    ensures sum == SumOf(ad, nblocks, B, n)
  {
    hide BlockLo, BlockHi, Blocks, PartsOk;
    var eb: seq<Num> := [];
    var k := 0;
    HasBlocks(nblocks, B, n);
    while k < nblocks
      invariant k == |eb| <= nblocks && forall j: nat :: j < k ==> BlockLo(j, B) <= n && eb[j] == BlockSum(ad, j, B, n)
    {
      OwnPart(ad, owner, nblocks, B, n, owner(k), all[owner(k)], k);
      eb := eb + [all[owner(k)][k]];
      k := k + 1;
    }
    assert eb == AllBlocks(ad, nblocks, B, n);
    sum := if nblocks == 1 then eb[0] else TreeCombine(ad, eb, 0, nblocks);
  }

  lemma OwnPart(ad: Adds, owner: nat -> nat, nblocks: nat, B: nat, n: nat, inter: nat, parts: seq<Num>, k: nat)
    requires Blocks(nblocks, B, n) && PartsOk(ad, owner, nblocks, B, n, inter, parts) && k < nblocks
    requires owner(k) == inter
    ensures |parts| == nblocks && BlockLo(k, B) <= n && parts[k] == BlockSum(ad, k, B, n)
  {
    hide BlockSum, Blocks, BlockLo;
  }

  // A node's live slice: its own bodies' kinetic terms and no others.
  ghost predicate SliceOf(ad: Adds, los: seq<nat>, s: nat, live: seq<Num>)
    requires s + 1 < |los|
  {
    los[s] + |live| == los[s + 1] && forall i :: 0 <= i < |live| ==> live[i] == ad.term(los[s] + i)
  }

  function OwnerOf(los: seq<nat>, B: nat): nat -> nat
    requires |los| > 1
  {
    k => OwnerFrom(los, BlockLo(k, B), 0)
  }

  lemma OwnerInOrder(los: seq<nat>, B: nat, nblocks: nat)
    requires |los| > 1
    ensures InBlockOrder(OwnerOf(los, B), nblocks) && forall k: nat :: OwnerOf(los, B)(k) < |los| - 1
  {
    var owner := OwnerOf(los, B);
    forall k: nat, m: nat | k <= m < nblocks ensures owner(k) <= owner(m) {
      MulMonotone(k, m, B);
      OwnersClimb(los, BlockLo(k, B), BlockLo(m, B), 0);
    }
  }

  lemma SliceLayout(los: seq<nat>, B: nat, n: nat)
    requires AlignedSlices(los, B, n)
    ensures Layout(los, n)
  {
  }

  // One block from the owner's live slice alone: in range because a block never
  // spans two slices.
  method KineticBlock(ad: Adds, los: seq<nat>, live: seq<Num>, nblocks: nat, B: nat, n: nat, inter: nat, k: nat)
    returns (acc: Num)
    requires AlignedSlices(los, B, n) && Blocks(nblocks, B, n) && inter + 1 < |los| && SliceOf(ad, los, inter, live)
    requires k < nblocks && OwnerOf(los, B)(k) == inter
    ensures BlockLo(k, B) <= n && acc == BlockSum(ad, k, B, n)
  {
    hide BlockLo, BlockHi, Blocks, AlignedSlices;
    BlockInside(k, nblocks, B, n);
    BlockInSlice(los, nblocks, B, n, k);
    acc := SumLocal(ad, live, los[inter], BlockLo(k, B), BlockHi(k, B, n));
  }

  method KineticParts(ad: Adds, los: seq<nat>, live: seq<Num>, nblocks: nat, B: nat, n: nat, inter: nat)
    returns (parts: seq<Num>)
    requires AlignedSlices(los, B, n) && Blocks(nblocks, B, n) && inter + 1 < |los| && SliceOf(ad, los, inter, live)
    ensures PartsOk(ad, OwnerOf(los, B), nblocks, B, n, inter, parts)
  {
    hide BlockLo, BlockSum, Blocks, InBlockOrder, AlignedSlices, SliceOf, OwnerOf;
    LastSlice(los, n) by { SliceLayout(los, B, n); }
    var owner := OwnerOf(los, B);
    OwnerInOrder(los, B, nblocks);
    var lo, hi := MyRange(owner, nblocks, inter);
    parts := seq(nblocks, _ => ad.zero);
    var k := lo;
    while k < hi
      invariant lo <= k && (k <= hi || lo > hi) && |parts| == nblocks
      invariant forall j: nat :: lo <= j < k && j < hi ==> BlockLo(j, B) <= n && parts[j] == BlockSum(ad, j, B, n)
    {
      var acc := KineticBlock(ad, los, live, nblocks, B, n, inter, k);
      parts := parts[k := acc];
      k := k + 1;
    }
  }

  // Kinetic: every node sums the blocks its slice holds.
  method KineticSum(ad: Adds, los: seq<nat>, lives: seq<seq<Num>>, B: nat, n: nat) returns (sum: Num)
    requires B > 0 && n > 0 && AlignedSlices(los, B, n) && |lives| + 1 == |los|
    requires forall s: nat :: s < |lives| ==> SliceOf(ad, los, s, lives[s])
    ensures Blocks((n + B - 1) / B, B, n) && sum == SumOf(ad, (n + B - 1) / B, B, n)
    ensures forall h: Num -> seq<nat> :: Reads(ad, h) ==> InOrder(h(sum), 0, n)
  {
    hide BlockHi, Blocks, Layout, PartsOk, SliceOf, BlockLo, InOrder, Reads;
    CountBlocks(B, n);
    SumAddsAll(ad, (n + B - 1) / B, B, n);
    LastSlice(los, n);
    var nblocks := (n + B - 1) / B;
    OwnerInOrder(los, B, nblocks);
    var all: seq<seq<Num>> := [];
    var q := 0;
    while q < |lives|
      invariant q == |all| <= |lives|
      invariant forall j: nat :: j < q ==> PartsOk(ad, OwnerOf(los, B), nblocks, B, n, j, all[j])
    {
      var parts := KineticParts(ad, los, lives[q], nblocks, B, n, q);
      all := all + [parts];
      q := q + 1;
    }
    sum := CombineParts(ad, OwnerOf(los, B), nblocks, B, n, all);
  }

  // owner_ep: potential blocks are dealt out evenly.
  function DealtTo(k: nat, ninter: nat, nblocks: nat): nat
    requires nblocks > 0 && ninter > 0
  {
    var s := k * ninter / nblocks;
    if s < ninter - 1 then s else ninter - 1
  }

  // Every node has the complete array of potentials.
  ghost predicate Replica(ad: Adds, acc: seq<Num>, n: nat) {
    |acc| == n && forall i :: 0 <= i < n ==> acc[i] == ad.term(i)
  }

  method PotentialBlock(ad: Adds, acc: seq<Num>, nblocks: nat, B: nat, n: nat, k: nat) returns (sum: Num)
    requires Blocks(nblocks, B, n) && Replica(ad, acc, n) && k < nblocks
    ensures BlockLo(k, B) <= n && sum == BlockSum(ad, k, B, n)
  {
    hide BlockLo, BlockHi, Blocks;
    BlockInside(k, nblocks, B, n);
    sum := SumLocal(ad, acc, 0, BlockLo(k, B), BlockHi(k, B, n));
  }

  method PotentialParts(ad: Adds, acc: seq<Num>, owner: nat -> nat, nblocks: nat, B: nat, n: nat, inter: nat)
    returns (parts: seq<Num>)
    requires Blocks(nblocks, B, n) && InBlockOrder(owner, nblocks) && Replica(ad, acc, n)
    ensures PartsOk(ad, owner, nblocks, B, n, inter, parts)
  {
    hide BlockLo, BlockSum, Blocks, InBlockOrder, Replica;
    var lo, hi := MyRange(owner, nblocks, inter);
    parts := seq(nblocks, _ => ad.zero);
    var k := lo;
    while k < hi
      invariant lo <= k && (k <= hi || lo > hi) && |parts| == nblocks
      invariant forall j: nat :: lo <= j < k && j < hi ==> BlockLo(j, B) <= n && parts[j] == BlockSum(ad, j, B, n)
    {
      var sum := PotentialBlock(ad, acc, nblocks, B, n, k);
      parts := parts[k := sum];
      k := k + 1;
    }
  }

  // Potential: every node sums the blocks dealt to it.
  method PotentialSum(ad: Adds, accs: seq<seq<Num>>, B: nat, n: nat) returns (sum: Num)
    requires B > 0 && n > 0 && accs != [] && forall q :: 0 <= q < |accs| ==> Replica(ad, accs[q], n)
    ensures Blocks((n + B - 1) / B, B, n) && sum == SumOf(ad, (n + B - 1) / B, B, n)
    ensures forall h: Num -> seq<nat> :: Reads(ad, h) ==> InOrder(h(sum), 0, n)
  {
    hide BlockHi, Blocks, BlockLo, PartsOk, Replica, InOrder, Reads;
    CountBlocks(B, n);
    SumAddsAll(ad, (n + B - 1) / B, B, n);
    HasBlocks((n + B - 1) / B, B, n);
    var nblocks, ninter := (n + B - 1) / B, |accs|;
    var owner := (k: nat) => DealtTo(k, ninter, nblocks);
    forall k: nat, m: nat | k <= m < nblocks ensures owner(k) <= owner(m) {
      MulMonotone(k, m, ninter);
      DivMonotone(k * ninter, m * ninter, nblocks);
    }
    var all: seq<seq<Num>> := [];
    var q := 0;
    while q < ninter
      invariant q == |all| <= ninter && forall j: nat :: j < q ==> PartsOk(ad, owner, nblocks, B, n, j, all[j])
    {
      var parts := PotentialParts(ad, accs[q], owner, nblocks, B, n, q);
      all := all + [parts];
      q := q + 1;
    }
    sum := CombineParts(ad, owner, nblocks, B, n, all);
  }
}
