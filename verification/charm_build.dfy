// DataManager::buildTree on one PE: the breadth-first refinement of the part
// of the octree above the PE's particles, with the owner range of every node.
module TreeBuild {
  import opened TreeKeys
  import opened Decomposition

  datatype NodeType = Invalid | Internal | Bucket | EmptyBucket | Boundary
                    | Remote | RemoteBucket | RemoteEmptyBucket

  // first/count is the node's run in the PE's sorted particle array; ready is
  // numChildrenMomentsReady.
  datatype Node = Node(kind: NodeType, ownerStart: int, ownerEnd: int, first: nat, count: nat,
                       nchild: nat, ready: nat, mass: real)

  function Flat(qs: seq<Piece>): (keys: seq<int>)
    requires forall q :: q in qs ==> q.cell.depth <= MAX_DEPTH
    ensures |keys| == 2 * |qs|
    ensures forall i :: 0 <= i < |qs| ==> keys[2 * i] == RangeLo(qs[i]) && keys[2 * i + 1] == RangeHi(qs[i])
  {
    if qs == [] then [] else
      var last := |qs| - 1;
      Flat(qs[..last]) + [RangeLo(qs[last]), RangeHi(qs[last])]
  }

  function KeyRanges(w: World): (keys: seq<int>)
    requires ValidWorld(w)
    ensures |keys| == 2 * |w.pieces|
    ensures forall i :: 0 <= i < |w.pieces| ==>
          keys[2 * i] == RangeLo(w.pieces[i]) && keys[2 * i + 1] == RangeHi(w.pieces[i])
  {
    assert forall q :: q in w.pieces ==> ValidPiece(q);
    Flat(w.pieces)
  }

  ghost predicate SortedKeys(keys: seq<int>) {
    forall i, j :: 0 <= i < j < |keys| ==> keys[i] <= keys[j]
  }

  lemma KeyRangesSorted(w: World)
    requires ValidWorld(w)
    ensures SortedKeys(KeyRanges(w))
  {
    var keys := KeyRanges(w);
    forall i, j | 0 <= i < j < |keys| ensures keys[i] <= keys[j] {
      var a, b := i / 2, j / 2;
      assert i == 2 * a + i % 2 && j == 2 * b + j % 2;
      RangeInCell(w, a);
      RangeInCell(w, b);
      if a < b { RangesOrdered(w, a, b); }
    }
  }

  // util.h: the first index in [start, end) holding a key >= check.
  method BinarySearchGE(check: int, keys: seq<int>, start: nat, end: nat) returns (lo: nat)
    requires start <= end <= |keys| && SortedKeys(keys)
    ensures start <= lo <= end
    ensures forall j :: start <= j < lo ==> keys[j] < check
    ensures forall j :: lo <= j < end ==> keys[j] >= check
  {
    lo := start;
    var hi := end;
    while lo < hi
      invariant start <= lo <= hi <= end
      invariant forall j :: start <= j < lo ==> keys[j] < check
      invariant forall j :: hi <= j < end ==> keys[j] >= check
    {
      var mid := lo + (hi - lo) / 2;
      if keys[mid] >= check {
        hi := mid;
      } else {
        lo := mid + 1;
      }
    }
  }

  // ---------------- particle runs ----------------

  // [first, first + count) is the run of particles inside the node.
  ghost predicate RunOf(ps: seq<Particle>, c: Cell, first: nat, count: nat)
    requires c.depth <= MAX_DEPTH
  {
    && first + count <= |ps|
    && (forall j :: 0 <= j < first ==> ps[j].key < Lo(c))
    && (forall j :: first <= j < first + count ==> Lo(c) <= ps[j].key < Hi(c))
    && (forall j :: first + count <= j < |ps| ==> ps[j].key >= Hi(c))
  }

  lemma {:induction false} RunIsBetween(ps: seq<Particle>, c: Cell, first: nat, count: nat)
    requires c.depth <= MAX_DEPTH && RunOf(ps, c, first, count)
    requires Lo(c) <= Hi(c)
    ensures Between(ps, Lo(c), Hi(c)) == ps[first..first + count]
  {
    var run := ps[first..first + count];
    assert ps == ps[..first] + run + ps[first + count..];
    BetweenConcat(ps[..first] + run, ps[first + count..], Lo(c), Hi(c));
    BetweenConcat(ps[..first], run, Lo(c), Hi(c));
    BetweenNone(ps[..first], Lo(c), Hi(c));
    BetweenNone(ps[first + count..], Lo(c), Hi(c));
    BetweenAll(run, Lo(c), Hi(c));
  }

  lemma {:induction false} LocalSortedFrom(w: World, p: nat, i: nat)
    requires ValidWorld(w) && i <= |w.pieces|
    ensures SortedParts(LocalFrom(w.pieces[i..], p))
    ensures forall q :: q in LocalFrom(w.pieces[i..], p) ==> Lo(ROOT) <= q.key < Hi(ROOT)
    ensures i < |w.pieces| ==> forall q :: q in LocalFrom(w.pieces[i..], p) ==> Lo(w.pieces[i].cell) <= q.key
    decreases |w.pieces| - i
  {
    if i < |w.pieces| {
      LocalSortedFrom(w, p, i + 1);
      assert w.pieces[i..][1..] == w.pieces[i + 1..];
      assert ValidPiece(w.pieces[i]);
      RootHolds(w, i);
      CellFitsWord(w.pieces[i].cell);
    }
  }

  lemma RootHolds(w: World, i: nat)
    requires ValidWorld(w) && i < |w.pieces|
    ensures Lo(ROOT) <= Lo(w.pieces[i].cell) && Hi(w.pieces[i].cell) <= Hi(ROOT)
  {
    if i > 0 { CellsOrdered(w, 0, i); CellFitsWord(w.pieces[0].cell); }
    var n := |w.pieces| - 1;
    if i < n { CellsOrdered(w, i, n); CellFitsWord(w.pieces[n].cell); }
  }

  // ---------------- what the build makes ----------------

  ghost predicate Built(w: World, p: nat, c: Cell)
    requires ValidWorld(w)
    decreases c.depth
  {
    c == ROOT || (0 < c.depth <= MAX_DEPTH && Built(w, p, Parent(c)) && RefinedAt(w, p, Parent(c)))
  }

  lemma {:induction false} BuiltValid(w: World, p: nat, c: Cell)
    requires ValidWorld(w) && Built(w, p, c)
    ensures ValidCell(c)
    decreases c.depth
  {
    if c != ROOT {
      BuiltValid(w, p, Parent(c));
      RefinedAtHasRoom(w, p, Parent(c));
      assert Child(Parent(c), Slot(c)) == c;
      ChildSpan(Parent(c), Slot(c));
    }
  }

  // A node after buildTree: its owner range is exactly the TreePieces whose
  // keys meet it (a sentinel when there are none), and its particles are the
  // PE's particles inside it.
  ghost predicate OwnersRight(w: World, c: Cell, n: Node)
    requires ValidWorld(w) && c.depth <= MAX_DEPTH
  {
    if Owned(w, c) then
      n.ownerStart == OwnerStart(w, c) && n.ownerEnd == OwnerEnd(w, c) && n.kind == Invalid
    else
      n.ownerStart == n.ownerEnd < 0 && n.kind == EmptyBucket
  }

  ghost predicate NodeRight(w: World, p: nat, ps: seq<Particle>, c: Cell, n: Node)
    requires ValidWorld(w) && c.depth <= MAX_DEPTH
  {
    && OwnersRight(w, c, n)
    && RunOf(ps, c, n.first, n.count)
    && n.ready == 0 && n.mass == 0.0
  }

  ghost predicate SplitRun(ps: seq<Particle>, c: Cell, i: nat, from: nat, to: nat)
    requires c.depth < MAX_DEPTH
  {
    from <= to && RunOf(ps, Child(c, i), from, to - from)
  }

  function KeysOf(ps: seq<Particle>): (keys: seq<int>)
    ensures |keys| == |ps| && forall i :: 0 <= i < |ps| ==> keys[i] == ps[i].key
  {
    seq(|ps|, i requires 0 <= i < |ps| => ps[i].key)
  }

  // Index `at` is where the keys reach x.
  ghost predicate SplitAt(keys: seq<int>, x: int, at: nat) {
    && at <= |keys|
    && (forall j :: 0 <= j < at ==> keys[j] < x)
    && (forall j :: at <= j < |keys| ==> keys[j] >= x)
  }

  lemma SplitExtends(keys: seq<int>, x: int, from: nat, y: int, idx: nat, end: nat)
    requires SplitAt(keys, x, from) && x <= y && from <= idx <= end <= |keys|
    requires forall j :: from <= j < idx ==> keys[j] < y
    requires forall j :: idx <= j < end ==> keys[j] >= y
    requires forall j :: end <= j < |keys| ==> keys[j] >= y
    ensures SplitAt(keys, y, idx)
  {
  }

  lemma SplitMakesRun(ps: seq<Particle>, c: Cell, i: nat, from: nat, to: nat)
    requires c.depth < MAX_DEPTH && from <= to
    requires SplitAt(KeysOf(ps), Lo(Child(c, i)), from)
    requires SplitAt(KeysOf(ps), Hi(Child(c, i)), to)
    ensures SplitRun(ps, c, i, from, to)
  {
    assert forall j :: 0 <= j < |ps| ==> KeysOf(ps)[j] == ps[j].key;
  }

  lemma RunSplits(ps: seq<Particle>, c: Cell, first: nat, count: nat)
    requires ValidCell(c) && RunOf(ps, c, first, count)
    ensures SplitAt(KeysOf(ps), Lo(c), first) && SplitAt(KeysOf(ps), Hi(c), first + count)
  {
    CellFitsWord(c);
  }

  // util.cpp findSplitters: where each child's particles start.
  method FindSplitters(ps: seq<Particle>, first: nat, count: nat, c: Cell) returns (splitters: array<nat>)
    requires ValidCell(c) && c.depth < MAX_DEPTH && SortedParts(ps) && RunOf(ps, c, first, count)
    ensures fresh(splitters) && splitters.Length == BRANCH + 1
    ensures forall i :: 0 <= i < BRANCH ==> SplitRun(ps, c, i, splitters[i], splitters[i + 1])
  {
    hide ValidWorld, Lo, Hi, Child, Shl;
    var keys := KeysOf(ps);
    var start, end := first, first + count;
    splitters := new nat[BRANCH + 1];
    splitters[0] := start;
    RunSplits(ps, c, first, count);
    ChildSpan(c, 0);
    var i := 1;
    while i < BRANCH
      invariant 1 <= i <= BRANCH && start == splitters[i - 1] <= end
      invariant forall k :: 0 <= k < i - 1 ==> SplitRun(ps, c, k, splitters[k], splitters[k + 1])
      invariant SplitAt(keys, Lo(Child(c, i - 1)), start)
    {
      ChildSpan(c, i - 1);
      ChildSpan(c, i);
      var testKey := Lo(Child(c, i));
      var idx := BinarySearchGE(testKey, keys, start, end);
      SplitExtends(keys, Lo(Child(c, i - 1)), start, testKey, idx, end);
      SplitMakesRun(ps, c, i - 1, start, idx);
      splitters[i] := idx;
      start := idx;
      i := i + 1;
    }
    splitters[BRANCH] := end;
    ChildSpan(c, BRANCH - 1);
    SplitMakesRun(ps, c, BRANCH - 1, start, end);
  }

  // What a position in the key ranges says about owners: an even index falls
  // before a TreePiece, an odd one inside its range.
  lemma OwnersFromIndex(w: World, x: int, idx: nat)
    requires ValidWorld(w) && SplitAt(KeyRanges(w), x, idx)
    ensures FirstHiFrom(w, x, 0) == idx / 2
    ensures FirstLoFrom(w, x, 0) == if idx % 2 == 0 then idx / 2 else idx / 2 + 1
  {
    hide KeyRanges, RangeLo, RangeHi, ValidWorld, Lo, Hi;
    var s, e := FirstHiFrom(w, x, 0), FirstLoFrom(w, x, 0);
    if s < |w.pieces| { KeysOfPiece(w, s); }
    if s > 0 { KeysOfPiece(w, s - 1); }
    if e < |w.pieces| { KeysOfPiece(w, e); }
    if e > 0 { KeysOfPiece(w, e - 1); }
  }

  lemma KeysOfPiece(w: World, i: nat)
    requires ValidWorld(w) && i < |w.pieces|
    ensures |KeyRanges(w)| == 2 * |w.pieces|
    ensures KeyRanges(w)[2 * i] == RangeLo(w.pieces[i]) && KeyRanges(w)[2 * i + 1] == RangeHi(w.pieces[i])
  {
    hide ValidWorld, RangeLo, RangeHi;
  }

  lemma OwnerIndices(w: World, c: Cell)
    requires ValidWorld(w) && ValidCell(c) && Owned(w, c)
    ensures forall j :: 0 <= j < 2 * OwnerStart(w, c) ==> KeyRanges(w)[j] < Lo(c)
    ensures forall j :: 2 * OwnerEnd(w, c) + 2 <= j < |KeyRanges(w)| ==> KeyRanges(w)[j] >= Hi(c)
  {
    hide KeyRanges, RangeLo, RangeHi, Lo, Hi;
    var keys, s, e := KeyRanges(w), OwnerStart(w, c), OwnerEnd(w, c) + 1;
    KeyRangesSorted(w);
    if s > 0 {
      assert RangeHi(w.pieces[s - 1]) < Lo(c);
      assert keys[2 * (s - 1) + 1] < Lo(c);
    }
    if e < |w.pieces| { assert keys[2 * e] >= Hi(c); }
  }

  // OwnershipActiveBinInfo::refine's parity rule, child by child.
  lemma ParityRule(w: World, c: Cell, i: nat, from: nat, start: nat, idx: nat, end: nat)
    requires ValidWorld(w) && ValidCell(c) && c.depth < MAX_DEPTH && 0 < i < BRANCH
    requires from <= start <= idx <= end <= |KeyRanges(w)|
    requires forall j :: 0 <= j < from ==> KeyRanges(w)[j] < Lo(c)
    requires forall j :: from <= j < start ==> KeyRanges(w)[j] < Lo(Child(c, i - 1))
    requires forall j :: start <= j < idx ==> KeyRanges(w)[j] < Lo(Child(c, i))
    requires forall j :: idx <= j < end ==> KeyRanges(w)[j] >= Lo(Child(c, i))
    requires forall j :: end <= j < |KeyRanges(w)| ==> KeyRanges(w)[j] >= Hi(c)
    ensures OwnerStart(w, Child(c, i)) == idx / 2
    ensures OwnerEnd(w, Child(c, i - 1)) == if idx % 2 == 0 then idx / 2 - 1 else idx / 2
  {
    hide ValidWorld, Lo, Hi, Child, Shl;
    ChildSpan(c, i - 1);
    ChildSpan(c, i);
    assert SplitAt(KeyRanges(w), Lo(Child(c, i)), idx);
    OwnersFromIndex(w, Lo(Child(c, i)), idx);
  }

  lemma OuterChildren(w: World, c: Cell)
    requires ValidWorld(w) && ValidCell(c) && c.depth < MAX_DEPTH
    ensures OwnerStart(w, Child(c, 0)) == OwnerStart(w, c)
    ensures OwnerEnd(w, Child(c, BRANCH - 1)) == OwnerEnd(w, c)
  {
    hide ValidWorld, Lo, Hi, Child, Shl;
    ChildSpan(c, 0);
    ChildSpan(c, BRANCH - 1);
  }

  // ActiveBinInfo.h OwnershipActiveBinInfo::refine: the owner range of every
  // child, by binary search in the TreePieces' key ranges.
  method ChildOwners(w: World, c: Cell, ownerStart: int, ownerEnd: int) returns (kids: array<Node>)
    requires ValidWorld(w) && ValidCell(c) && c.depth < MAX_DEPTH && Owned(w, c)
    requires ownerStart == OwnerStart(w, c) && ownerEnd == OwnerEnd(w, c)
    ensures fresh(kids) && kids.Length == BRANCH
    ensures forall i :: 0 <= i < BRANCH ==> OwnersRight(w, Child(c, i), kids[i])
    ensures forall i :: 0 <= i < BRANCH ==> kids[i].ready == 0 && kids[i].mass == 0.0 && kids[i].nchild == 0
  {
    hide ValidWorld, Lo, Hi, Child, Shl, OwnerStart, OwnerEnd, KeyRanges, OwnersRight;
    var owners := KeyRanges(w);
    KeyRangesSorted(w);
    OwnerIndices(w, c);
    OuterChildren(w, c);
    var start, end := ownerStart * 2, ownerEnd * 2 + 2;
    kids := new Node[BRANCH](_ => Node(Invalid, -1, -1, 0, 0, 0, 0, 0.0));
    kids[0] := kids[0].(ownerStart := ownerStart);
    var i := 1;
    while i < BRANCH
      invariant 1 <= i <= BRANCH && 2 * ownerStart <= start <= end
      invariant forall k :: 0 <= k < BRANCH ==> kids[k].ready == kids[k].nchild == 0 && kids[k].mass == 0.0
      invariant forall k :: i - 1 <= k < BRANCH ==> kids[k].kind == Invalid
      invariant kids[i - 1].ownerStart == OwnerStart(w, Child(c, i - 1))
      invariant forall k :: 0 <= k < i - 1 ==> OwnersRight(w, Child(c, k), kids[k])
      invariant forall j :: 2 * ownerStart <= j < start ==> owners[j] < Lo(Child(c, i - 1))
    {
      ChildSpan(c, i - 1);
      ChildSpan(c, i);
      var testKey := Lo(Child(c, i));
      var ownerIdx := BinarySearchGE(testKey, owners, start, end);
      ParityRule(w, c, i, 2 * ownerStart, start, ownerIdx, end);
      var tpIdx: int := ownerIdx / 2;
      ghost var open := kids[i - 1];
      if ownerIdx % 2 == 0 {
        kids[i - 1] := kids[i - 1].(ownerEnd := tpIdx - 1);
      } else {
        kids[i - 1] := kids[i - 1].(ownerEnd := tpIdx);
      }
      if kids[i - 1].ownerEnd < kids[i - 1].ownerStart {
        kids[i - 1] := kids[i - 1].(ownerStart := -69, ownerEnd := -69, kind := EmptyBucket);
      }
      OwnersSet(w, Child(c, i - 1), open, kids[i - 1], -69);
      kids[i] := kids[i].(ownerStart := tpIdx);
      start := ownerIdx;
      i := i + 1;
    }
    ghost var open := kids[BRANCH - 1];
    kids[BRANCH - 1] := kids[BRANCH - 1].(ownerEnd := ownerEnd);
    if kids[BRANCH - 1].ownerEnd < kids[BRANCH - 1].ownerStart {
      kids[BRANCH - 1] := kids[BRANCH - 1].(ownerStart := -171, ownerEnd := -171, kind := EmptyBucket);
    }
    OwnersSet(w, Child(c, BRANCH - 1), open, kids[BRANCH - 1], -171);
  }

  // A range that turns out empty becomes a sentinel.
  lemma OwnersSet(w: World, c: Cell, open: Node, n: Node, sentinel: int)
    requires ValidWorld(w) && c.depth <= MAX_DEPTH && open.kind == Invalid && open.ownerStart == OwnerStart(w, c)
    requires sentinel < 0
    requires n == if OwnerEnd(w, c) < open.ownerStart
                  then open.(ownerStart := sentinel, ownerEnd := sentinel, kind := EmptyBucket)
                  else open.(ownerEnd := OwnerEnd(w, c))
    ensures OwnersRight(w, c, n)
  {
    hide ValidWorld, OwnerStart, OwnerEnd;
  }

  method RefineNode(w: World, p: nat, ps: seq<Particle>, c: Cell, n: Node) returns (kids: array<Node>)
    requires ValidWorld(w) && ValidCell(c) && c.depth < MAX_DEPTH && Owned(w, c)
    requires SortedParts(ps) && NodeRight(w, p, ps, c, n)
    ensures fresh(kids) && kids.Length == BRANCH
    ensures forall i :: 0 <= i < BRANCH ==> NodeRight(w, p, ps, Child(c, i), kids[i]) && kids[i].nchild == 0
  {
    hide ValidWorld, Lo, Hi, Child, Shl, OwnerStart, OwnerEnd;
    var splitters := FindSplitters(ps, n.first, n.count, c);
    var cuts := splitters[..];
    assert forall i :: 0 <= i < BRANCH ==> SplitRun(ps, c, i, cuts[i], cuts[i + 1]);
    kids := ChildOwners(w, c, n.ownerStart, n.ownerEnd);
    var i := 0;
    while i < BRANCH
      invariant i <= BRANCH
      invariant forall k :: 0 <= k < BRANCH ==> OwnersRight(w, Child(c, k), kids[k])
      invariant forall k :: 0 <= k < BRANCH ==> kids[k].ready == kids[k].nchild == 0 && kids[k].mass == 0.0
      invariant forall k :: 0 <= k < i ==> RunOf(ps, Child(c, k), kids[k].first, kids[k].count)
    {
      assert SplitRun(ps, c, i, cuts[i], cuts[i + 1]);
      kids[i] := kids[i].(first := cuts[i], count := cuts[i + 1] - cuts[i]);
      i := i + 1;
    }
  }

  // buildTree's refinement test, on the node's own fields.
  predicate WantsRefine(ps: seq<Particle>, limit: nat, n: Node)
    requires n.first + n.count <= |ps|
  {
    var separable := n.count > 0 && ps[n.first].key != ps[n.first + n.count - 1].key;
    (n.ownerEnd > n.ownerStart && n.count > 0) || (n.count > limit && separable)
  }

  lemma OwnersSay(w: World, c: Cell, n: Node)
    requires ValidWorld(w) && c.depth <= MAX_DEPTH && OwnersRight(w, c, n)
    ensures n.ownerEnd > n.ownerStart <==> MultiOwner(w, c)
  {
    hide ValidWorld, Lo, Hi, Shl, OwnerStart, OwnerEnd;
  }

  lemma WantsRefineIsRefinedAt(w: World, p: nat, c: Cell, n: Node)
    requires ValidWorld(w) && ValidCell(c)
    requires NodeRight(w, p, LocalFrom(w.pieces, p), c, n)
    ensures WantsRefine(LocalFrom(w.pieces, p), w.limit, n) <==> RefinedAt(w, p, c)
  {
    hide ValidWorld, Lo, Hi, Shl, OwnerStart, OwnerEnd, Between, LocalFrom;
    CellFitsWord(c);
    OwnersSay(w, c, n);
    RunIsBetween(LocalFrom(w.pieces, p), c, n.first, n.count);
  }

  ghost predicate TreeRight(w: World, p: nat, ps: seq<Particle>, nodes: map<Cell, Node>)
    requires ValidWorld(w)
  {
    && (forall c :: c in nodes <==> Built(w, p, c))
    && (forall c :: c in nodes ==> c.depth <= MAX_DEPTH && NodeRight(w, p, ps, c, nodes[c]))
    && (forall c :: c in nodes ==> nodes[c].nchild == if RefinedAt(w, p, c) then BRANCH else 0)
  }

  lemma RootNodeRight(w: World, p: nat)
    requires ValidWorld(w)
    ensures ValidCell(ROOT) && SortedParts(LocalFrom(w.pieces, p))
    ensures NodeRight(w, p, LocalFrom(w.pieces, p), ROOT,
              Node(Invalid, 0, |w.pieces| - 1, 0, |LocalFrom(w.pieces, p)|, 0, 0, 0.0))
  {
    RootOwners(w);
    LocalSortedFrom(w, p, 0);
    assert w.pieces[0..] == w.pieces;
  }

  lemma {:induction false} NothingBelow(w: World, p: nat, level: nat, c: Cell)
    requires ValidWorld(w) && Built(w, p, c)
    requires forall x :: Built(w, p, x) ==> x.depth != level
    ensures c.depth < level
    decreases c.depth
  {
    if c != ROOT {
      NothingBelow(w, p, level, Parent(c));
    }
  }

  lemma {:induction false} EmptyPEKeepsRoot(w: World, p: nat, c: Cell)
    requires ValidWorld(w) && LocalFrom(w.pieces, p) == []
    ensures !Built(w, p, c) || c == ROOT
    ensures c.depth <= MAX_DEPTH ==> !RefinedAt(w, p, c)
    decreases c.depth
  {
    if c != ROOT && c.depth > 0 { EmptyPEKeepsRoot(w, p, Parent(c)); }
  }

  ghost predicate Distinct(s: seq<Cell>) {
    forall i, j :: 0 <= i < j < |s| ==> s[i] != s[j]
  }

  function Kids(c: Cell): (s: seq<Cell>)
    ensures |s| == BRANCH && forall i :: 0 <= i < BRANCH ==> s[i] == Child(c, i)
  {
    seq(BRANCH, i requires 0 <= i < BRANCH => Child(c, i))
  }

  // The active set of the next round: the children of the refined nodes.
  function NextActive(w: World, p: nat, s: seq<Cell>): seq<Cell>
    requires ValidWorld(w) && forall c :: c in s ==> c.depth <= MAX_DEPTH
  {
    if s == [] then [] else
      var last := |s| - 1;
      NextActive(w, p, s[..last]) + if RefinedAt(w, p, s[last]) then Kids(s[last]) else []
  }

  lemma {:induction false} NextActiveHas(w: World, p: nat, s: seq<Cell>, x: Cell)
    requires ValidWorld(w) && forall c :: c in s ==> c.depth <= MAX_DEPTH
    ensures x in NextActive(w, p, s) <==> x.depth > 0 && Parent(x) in s && RefinedAt(w, p, Parent(x))
  {
    hide ValidWorld, RefinedAt;
    if s != [] {
      var last := |s| - 1;
      var c := s[last];
      NextActiveHas(w, p, s[..last], x);
      forall i | 0 <= i < BRANCH ensures Parent(Child(c, i)) == c { ChildParent(c, i); }
      if x.depth > 0 && Parent(x) == c { assert Kids(c)[Slot(x)] == x; }
      assert s == s[..last] + [c];
    }
  }

  // A node is never put in the active set twice, so Node::refine never meets a
  // node that already has children.
  lemma {:induction false} NextActiveDistinct(w: World, p: nat, s: seq<Cell>)
    requires ValidWorld(w) && (forall c :: c in s ==> c.depth <= MAX_DEPTH) && Distinct(s)
    ensures Distinct(NextActive(w, p, s))
  {
    hide ValidWorld, RefinedAt;
    if s != [] {
      var last := |s| - 1;
      var c := s[last];
      NextActiveDistinct(w, p, s[..last]);
      forall x | x in NextActive(w, p, s[..last]) ensures x !in Kids(c) {
        NextActiveHas(w, p, s[..last], x);
        if x in Kids(c) {
          var i :| 0 <= i < BRANCH && Kids(c)[i] == x;
          ChildParent(c, i);
        }
      }
      forall i, j | 0 <= i < j < BRANCH ensures Kids(c)[i] != Kids(c)[j] {
        ChildParent(c, i);
        ChildParent(c, j);
      }
      DistinctConcat(NextActive(w, p, s[..last]), Kids(c));
    }
  }

  lemma DistinctConcat(a: seq<Cell>, b: seq<Cell>)
    requires Distinct(a) && Distinct(b) && forall x :: x in a ==> x !in b
    ensures Distinct(a + b)
  {
    forall i, j | 0 <= i < j < |a + b| ensures (a + b)[i] != (a + b)[j] {
      if i < |a| <= j { assert a[i] in a && b[j - |a|] in b; }
    }
  }

  // One round's list of bins to refine.
  method ChooseRefines(w: World, p: nat, ps: seq<Particle>, nodes: map<Cell, Node>, oldvec: seq<Cell>)
    returns (picked: seq<nat>)
    requires ValidWorld(w) && ps == LocalFrom(w.pieces, p)
    requires forall c :: c in oldvec ==> c in nodes && ValidCell(c) && NodeRight(w, p, ps, c, nodes[c])
    ensures forall k :: 0 <= k < |picked| ==> picked[k] < |oldvec|
    ensures forall i: nat :: i < |oldvec| ==> (i in picked <==> ValidCell(oldvec[i]) && RefinedAt(w, p, oldvec[i]))
  {
    hide ValidWorld, RefinedAt, WantsRefine, Lo, Hi, OwnersRight;
    picked := [];
    var i := 0;
    while i < |oldvec|
      invariant i <= |oldvec|
      invariant forall k :: 0 <= k < |picked| ==> picked[k] < i
      invariant forall j: nat :: j < i ==> (j in picked <==> ValidCell(oldvec[j]) && RefinedAt(w, p, oldvec[j]))
    {
      var c := oldvec[i];
      WantsRefineIsRefinedAt(w, p, c, nodes[c]);
      if WantsRefine(ps, w.limit, nodes[c]) {
        picked := picked + [i];
      }
      i := i + 1;
    }
  }

  ghost predicate AllRight(w: World, p: nat, ps: seq<Particle>, nodes: map<Cell, Node>)
    requires ValidWorld(w)
  {
    forall x :: x in nodes ==> x.depth <= MAX_DEPTH && NodeRight(w, p, ps, x, nodes[x])
  }

  // Exactly the refined nodes above this level, and among `done`, have children.
  ghost predicate LinkedUpTo(w: World, p: nat, nodes: map<Cell, Node>, level: nat, done: seq<Cell>)
    requires ValidWorld(w)
  {
    forall x :: x in nodes ==>
      x.depth <= MAX_DEPTH
      && (nodes[x].nchild == if (x.depth < level || x in done) && RefinedAt(w, p, x) then BRANCH else 0)
  }

  method AddChildren(w: World, p: nat, ps: seq<Particle>, nodes0: map<Cell, Node>, newvec0: seq<Cell>,
                     c: Cell, kids: array<Node>, ghost level: nat, ghost done: seq<Cell>)
    returns (nodes: map<Cell, Node>, newvec: seq<Cell>)
    requires ValidWorld(w) && c.depth == level < MAX_DEPTH && c in nodes0 && kids.Length == BRANCH
    requires forall x :: x in done ==> x.depth == level
    requires forall i :: 0 <= i < BRANCH ==> NodeRight(w, p, ps, Child(c, i), kids[i]) && kids[i].nchild == 0
    requires AllRight(w, p, ps, nodes0) && LinkedUpTo(w, p, nodes0, level, done)
    ensures newvec == newvec0 + Kids(c)
    ensures nodes.Keys == nodes0.Keys + set x | x in Kids(c)
    ensures AllRight(w, p, ps, nodes) && LinkedUpTo(w, p, nodes, level, done)
  {
    hide ValidWorld, RefinedAt, NodeRight, Lo, Hi;
    nodes, newvec := nodes0, newvec0;
    var j := 0;
    while j < BRANCH
      invariant j <= BRANCH
      invariant newvec == newvec0 + Kids(c)[..j]
      invariant nodes.Keys == nodes0.Keys + set x | x in Kids(c)[..j]
      invariant AllRight(w, p, ps, nodes) && LinkedUpTo(w, p, nodes, level, done)
    {
      assert Kids(c)[..j + 1] == Kids(c)[..j] + [Child(c, j)];
      nodes := nodes[Child(c, j) := kids[j]];
      newvec := newvec + [Child(c, j)];
      j := j + 1;
    }
    assert Kids(c)[..j] == Kids(c);
  }

  method RefineMarked(w: World, p: nat, ps: seq<Particle>, nodes0: map<Cell, Node>, newvec0: seq<Cell>,
                      c: Cell, ghost level: nat, ghost done: seq<Cell>)
    returns (nodes: map<Cell, Node>, newvec: seq<Cell>)
    requires ValidWorld(w) && ValidCell(c) && SortedParts(ps) && RefinedAt(w, p, c)
    requires c in nodes0 && c.depth == level && c !in done
    requires forall x :: x in done ==> x.depth == level
    requires AllRight(w, p, ps, nodes0) && LinkedUpTo(w, p, nodes0, level, done)
    ensures newvec == newvec0 + Kids(c)
    ensures nodes.Keys == nodes0.Keys + set x | x in Kids(c)
    ensures AllRight(w, p, ps, nodes) && LinkedUpTo(w, p, nodes, level, done + [c])
  {
    hide ValidWorld, RefinedAt, Lo, Hi;
    RefinedAtHasRoom(w, p, c);
    assert nodes0[c].nchild == 0;
    var kids := RefineNode(w, p, ps, c, nodes0[c]);
    nodes := nodes0[c := nodes0[c].(nchild := BRANCH)];
    nodes, newvec := AddChildren(w, p, ps, nodes, newvec0, c, kids, level, done + [c]);
  }

  method MarkPicked(n: nat, picked: seq<nat>) returns (marks: seq<bool>)
    requires forall k :: 0 <= k < |picked| ==> picked[k] < n
    ensures |marks| == n && forall i: nat :: i < n ==> (marks[i] <==> i in picked)
  {
    var flags := new bool[n](_ => false);
    var r := 0;
    while r < |picked|
      invariant r <= |picked|
      invariant forall i: nat :: i < n ==> (flags[i] <==> i in picked[..r])
    {
      flags[picked[r]] := true;
      r := r + 1;
    }
    assert picked[..r] == picked;
    marks := flags[..];
  }

  // ActiveBinInfo::processRefine with keepUnrefined off.
  method ProcessRefine(w: World, p: nat, ps: seq<Particle>, nodes0: map<Cell, Node>, oldvec: seq<Cell>,
                       picked: seq<nat>, ghost level: nat)
    returns (nodes: map<Cell, Node>, newvec: seq<Cell>)
    requires ValidWorld(w) && SortedParts(ps) && level <= MAX_DEPTH && Distinct(oldvec)
    requires AllRight(w, p, ps, nodes0) && LinkedUpTo(w, p, nodes0, level, [])
    requires forall c :: c in oldvec ==> ValidCell(c) && c in nodes0 && c.depth == level
    requires forall k :: 0 <= k < |picked| ==> picked[k] < |oldvec|
    requires forall i: nat :: i < |oldvec| ==> (i in picked <==> ValidCell(oldvec[i]) && RefinedAt(w, p, oldvec[i]))
    ensures newvec == NextActive(w, p, oldvec)
    ensures nodes.Keys == nodes0.Keys + set x | x in newvec
    ensures AllRight(w, p, ps, nodes) && LinkedUpTo(w, p, nodes, level, oldvec)
  {
    hide ValidWorld, RefinedAt, NodeRight, Lo, Hi, AllRight, LinkedUpTo, SortedParts;
    var flags := MarkPicked(|oldvec|, picked);
    nodes, newvec := nodes0, [];
    var i := 0;
    while i < |oldvec|
      invariant i <= |oldvec|
      invariant newvec == NextActive(w, p, oldvec[..i])
      invariant nodes.Keys == nodes0.Keys + set x | x in newvec
      invariant AllRight(w, p, ps, nodes) && LinkedUpTo(w, p, nodes, level, oldvec[..i])
    {
      assert oldvec[..i + 1] == oldvec[..i] + [oldvec[i]];
      assert oldvec[..i + 1][..i] == oldvec[..i];
      if flags[i] {
        nodes, newvec := RefineMarked(w, p, ps, nodes, newvec, oldvec[i], level, oldvec[..i]);
      } else {
        Unmarked(w, p, nodes, level, oldvec[..i], oldvec[i]);
      }
      i := i + 1;
    }
    assert oldvec[..i] == oldvec;
  }

  lemma Unmarked(w: World, p: nat, nodes: map<Cell, Node>, level: nat, done: seq<Cell>, c: Cell)
    requires ValidWorld(w) && LinkedUpTo(w, p, nodes, level, done) && c.depth <= MAX_DEPTH && !RefinedAt(w, p, c)
    ensures LinkedUpTo(w, p, nodes, level, done + [c])
  {
    hide ValidWorld, RefinedAt;
  }

  // Two particles of the node have different keys.
  ghost predicate TwoKeys(ps: seq<Particle>, n: Node)
    requires n.first + n.count <= |ps|
  {
    exists i, j :: n.first <= i < j < n.first + n.count && ps[i].key != ps[j].key
  }

  // In the finished tree a node is divided iff it has particles and several owners,
  // or more particles than the limit and not all of one key.
  ghost predicate DividedRight(ps: seq<Particle>, limit: nat, n: Node) {
    && n.first + n.count <= |ps|
    && (n.nchild > 0 <==> n.count > 0 && (n.ownerEnd > n.ownerStart || (n.count > limit && TwoKeys(ps, n))))
  }

  lemma EndsDiffer(ps: seq<Particle>, n: Node)
    requires SortedParts(ps) && n.first + n.count <= |ps|
    ensures TwoKeys(ps, n) <==> n.count > 0 && ps[n.first].key != ps[n.first + n.count - 1].key
  {
  }

  lemma TreeDivided(w: World, p: nat, nodes: map<Cell, Node>, c: Cell)
    requires ValidWorld(w) && TreeRight(w, p, LocalFrom(w.pieces, p), nodes) && c in nodes
    requires SortedParts(LocalFrom(w.pieces, p))
    ensures DividedRight(LocalFrom(w.pieces, p), w.limit, nodes[c])
  {
    hide ValidWorld, Lo, Hi, LocalFrom, OwnersRight, Built, RefinedAt, TwoKeys, SortedParts;
    var ps, n := LocalFrom(w.pieces, p), nodes[c];
    BuiltValid(w, p, c);
    EndsDiffer(ps, n);
    WantsRefineIsRefinedAt(w, p, c, n);
  }

  // DataManager::buildTree.  The depth assertion of Node::refine never trips,
  // the loop ends, and the tree holds exactly the nodes that must exist here.
  method BuildTree(w: World, p: nat) returns (nodes: map<Cell, Node>)
    requires ValidWorld(w)
    ensures TreeRight(w, p, LocalFrom(w.pieces, p), nodes)
    ensures forall c :: c in nodes ==> DividedRight(LocalFrom(w.pieces, p), w.limit, nodes[c])
  {
    hide ValidWorld, RefinedAt, NodeRight, Lo, Hi, DividedRight, TreeRight, LevelDone, SortedParts, LocalFrom;
    var ps := LocalFrom(w.pieces, p);
    RootNodeRight(w, p);
    nodes := map[ROOT := Node(Invalid, 0, |w.pieces| - 1, 0, |ps|, 0, 0, 0.0)];
    if |ps| == 0 {
      EmptyTree(w, p, nodes);
      AllDivided(w, p, nodes);
      return;
    }
    var newvec := [ROOT];
    ghost var level := 0;
    FirstLevel(w, p, nodes);
    while |newvec| > 0
      invariant LevelDone(w, p, ps, nodes, newvec, level)
      decreases MAX_DEPTH + 1 - level
    {
      nodes, newvec := Round(w, p, ps, nodes, newvec, level);
      level := level + 1;
    }
    LastLevel(w, p, nodes, level);
    AllDivided(w, p, nodes);
  }

  lemma AllDivided(w: World, p: nat, nodes: map<Cell, Node>)
    requires ValidWorld(w) && TreeRight(w, p, LocalFrom(w.pieces, p), nodes) && SortedParts(LocalFrom(w.pieces, p))
    ensures forall c :: c in nodes ==> DividedRight(LocalFrom(w.pieces, p), w.limit, nodes[c])
  {
    hide *;
    forall c | c in nodes ensures DividedRight(LocalFrom(w.pieces, p), w.limit, nodes[c]) {
      TreeDivided(w, p, nodes, c);
    }
  }

  lemma EmptyTree(w: World, p: nat, nodes: map<Cell, Node>)
    requires ValidWorld(w) && LocalFrom(w.pieces, p) == [] && nodes.Keys == {ROOT} && nodes[ROOT].nchild == 0
    requires NodeRight(w, p, [], ROOT, nodes[ROOT])
    ensures TreeRight(w, p, [], nodes)
  {
    hide ValidWorld, NodeRight, RefinedAt;
    forall c { EmptyPEKeepsRoot(w, p, c); }
  }

  lemma FirstLevel(w: World, p: nat, nodes: map<Cell, Node>)
    requires ValidWorld(w) && nodes.Keys == {ROOT} && nodes[ROOT].nchild == 0
    requires NodeRight(w, p, LocalFrom(w.pieces, p), ROOT, nodes[ROOT])
    ensures LevelDone(w, p, LocalFrom(w.pieces, p), nodes, [ROOT], 0)
  {
    hide ValidWorld, NodeRight, RefinedAt;
  }

  lemma LastLevel(w: World, p: nat, nodes: map<Cell, Node>, level: nat)
    requires ValidWorld(w) && LevelDone(w, p, LocalFrom(w.pieces, p), nodes, [], level)
    ensures TreeRight(w, p, LocalFrom(w.pieces, p), nodes)
  {
    hide ValidWorld, NodeRight, RefinedAt;
    forall c | Built(w, p, c) ensures c.depth < level {
      NothingBelow(w, p, level, c);
    }
  }

  // After `level` rounds: everything down to this level exists, its last level
  // is the active set, and only nodes above it have children.
  ghost predicate LevelDone(w: World, p: nat, ps: seq<Particle>, nodes: map<Cell, Node>,
                            newvec: seq<Cell>, level: nat)
    requires ValidWorld(w)
  {
    && level <= MAX_DEPTH + 1
    && (forall c :: c in nodes <==> Built(w, p, c) && c.depth <= level)
    && (forall c :: c in newvec <==> Built(w, p, c) && c.depth == level)
    && Distinct(newvec)
    && AllRight(w, p, ps, nodes)
    && LinkedUpTo(w, p, nodes, level, [])
  }

  method Round(w: World, p: nat, ps: seq<Particle>, nodes0: map<Cell, Node>, oldvec: seq<Cell>, ghost level: nat)
    returns (nodes: map<Cell, Node>, newvec: seq<Cell>)
    requires ValidWorld(w) && ps == LocalFrom(w.pieces, p) && SortedParts(ps)
    requires LevelDone(w, p, ps, nodes0, oldvec, level) && |oldvec| > 0
    ensures level <= MAX_DEPTH && LevelDone(w, p, ps, nodes, newvec, level + 1)
  {
    hide ValidWorld, RefinedAt, NodeRight, Lo, Hi, NextActive, LocalFrom, Built;
    forall c | c in oldvec ensures ValidCell(c) { BuiltValid(w, p, c); }
    assert oldvec[0] in oldvec;
    var picked := ChooseRefines(w, p, ps, nodes0, oldvec);
    nodes, newvec := ProcessRefine(w, p, ps, nodes0, oldvec, picked, level);
    RoundBuilds(w, p, oldvec, level);
    RoundLinks(w, p, nodes, level, oldvec, newvec);
  }

  lemma RoundLinks(w: World, p: nat, nodes: map<Cell, Node>, level: nat, oldvec: seq<Cell>, newvec: seq<Cell>)
    requires ValidWorld(w) && LinkedUpTo(w, p, nodes, level, oldvec)
    requires forall x :: x in nodes && x.depth == level ==> x in oldvec
    requires forall x :: x in oldvec ==> x.depth == level
    ensures LinkedUpTo(w, p, nodes, level + 1, [])
  {
    hide ValidWorld, RefinedAt;
  }

  lemma RoundBuilds(w: World, p: nat, oldvec: seq<Cell>, level: nat)
    requires ValidWorld(w) && level <= MAX_DEPTH && Distinct(oldvec)
    requires forall c :: c in oldvec <==> Built(w, p, c) && c.depth == level
    ensures forall c :: c in NextActive(w, p, oldvec) <==> Built(w, p, c) && c.depth == level + 1
    ensures Distinct(NextActive(w, p, oldvec))
  {
    hide ValidWorld, RefinedAt;
    NextActiveDistinct(w, p, oldvec);
    forall c ensures c in NextActive(w, p, oldvec) <==> Built(w, p, c) && c.depth == level + 1 {
      NextActiveHas(w, p, oldvec, c);
      if Built(w, p, c) { BuiltValid(w, p, c); }
      if c in NextActive(w, p, oldvec) {
        BuiltValid(w, p, Parent(c));
        RefinedAtHasRoom(w, p, Parent(c));
      }
    }
  }
}
