// What every node of every PE's tree should end up as: its type, its mass, its
// owner range and the PE that can answer for it.
module NodeFacts {
  import opened TreeKeys
  import opened Decomposition
  import opened TreeBuild

  // Node::makeRemote.  Invalid aborts there; it never reaches a message.
  function MakeRemote(k: NodeType): NodeType {
    match k
    case Boundary => Remote
    case Internal => Remote
    case Bucket => RemoteBucket
    case EmptyBucket => RemoteEmptyBucket
    case other => other
  }

  predicate External(k: NodeType) {
    k == Remote || k == RemoteBucket || k == RemoteEmptyBucket
  }

  predicate LocalKind(k: NodeType) {
    k == Internal || k == Bucket || k == EmptyBucket
  }

  // A leaf of PE p's tree that p answers for itself: it belongs to one of p's
  // TreePieces, or to none at all.
  predicate LocalLeaf(w: World, p: nat, c: Cell)
    requires ValidWorld(w) && c.depth <= MAX_DEPTH
  {
    && !RefinedAt(w, p, c)
    && !MultiOwner(w, c)
    && (Owned(w, c) ==> w.pieces[OwnerStart(w, c)].home == p)
  }

  predicate RemoteLeaf(w: World, p: nat, c: Cell)
    requires ValidWorld(w) && c.depth <= MAX_DEPTH
  {
    !RefinedAt(w, p, c) && !LocalLeaf(w, p, c)
  }

  // Every leaf below this node is p's own, so p knows its moments at once.
  predicate LocallyDone(w: World, p: nat, c: Cell)
    requires ValidWorld(w) && c.depth <= MAX_DEPTH
    decreases MAX_DEPTH - c.depth
  {
    if RefinedAt(w, p, c) && c.depth < MAX_DEPTH then
      forall i: nat :: i < BRANCH ==> LocallyDone(w, p, Child(c, i))
    else
      LocalLeaf(w, p, c)
  }

  function RemoteKind(w: World, c: Cell): NodeType
    requires ValidWorld(w) && c.depth <= MAX_DEPTH
  {
    if Here(w, c) == [] then RemoteEmptyBucket
    else if Refined(w, c) then Remote
    else RemoteBucket
  }

  // The type PE p's node has once its moments are in.
  function FinalKind(w: World, p: nat, c: Cell): NodeType
    requires ValidWorld(w) && c.depth <= MAX_DEPTH
  {
    if RefinedAt(w, p, c) then (if LocallyDone(w, p, c) then Internal else Boundary)
    else if LocalLeaf(w, p, c) then (if LocalHere(w, p, c) == [] then EmptyBucket else Bucket)
    else RemoteKind(w, c)
  }

  // ---------------- servingOwner ----------------

  datatype Option<T> = None | Some(value: T)

  // The i-th owner tried: round the range from the hashed one.
  function Probe(start: nat, n: nat, first: nat, i: nat): (tp: nat)
    requires n > 0
    ensures start <= tp < start + n
  {
    start + (first + i) % n
  }

  function ServeFrom(w: World, start: nat, n: nat, first: nat, i: nat): (tp: Option<nat>)
    requires n > 0 && start + n <= |w.pieces| && i <= n
    ensures tp.Some? ==> start <= tp.value < start + n && w.pieces[tp.value].parts != []
    ensures tp.None? ==> forall k :: i <= k < n ==> w.pieces[Probe(start, n, first, k)].parts == []
    decreases n - i
  {
    if i == n then None
    else if w.pieces[Probe(start, n, first, i)].parts != [] then Some(Probe(start, n, first, i))
    else ServeFrom(w, start, n, first, i + 1)
  }

  function ServingOwner(w: World, asker: nat, c: Cell): Option<nat>
    requires ValidWorld(w) && c.depth <= MAX_DEPTH && Owned(w, c)
  {
    var n := OwnerEnd(w, c) - OwnerStart(w, c) + 1;
    ServeFrom(w, OwnerStart(w, c), n, w.spread(asker, c) % n, 0)
  }

  // Descriptor.h servingOwner: the loop, on the node's own owner range.
  method ServingOwnerLoop(w: World, asker: nat, c: Cell, ownerStart: nat, ownerEnd: nat) returns (owner: int)
    requires ValidWorld(w) && c.depth <= MAX_DEPTH && Owned(w, c)
    requires ownerStart == OwnerStart(w, c) && ownerEnd == OwnerEnd(w, c)
    ensures ServingOwner(w, asker, c) == if owner < 0 then None else Some(owner)
  {
    hide ValidWorld, OwnerStart, OwnerEnd, Probe, Lo, Hi;
    var n := ownerEnd - ownerStart + 1;
    var first := w.spread(asker, c) % n;
    var i := 0;
    while i < n
      invariant i <= n
      invariant ServingOwner(w, asker, c) == ServeFrom(w, ownerStart, n, first, i)
    {
      var tp := Probe(ownerStart, n, first, i);
      if w.pieces[tp].parts != [] {
        return tp;
      }
      i := i + 1;
    }
    owner := -1;
  }

  lemma CyclicReaches(first: nat, n: nat, j: nat) returns (k: nat)
    requires first < n && j < n
    ensures k < n && (first + k) % n == j
  {
    k := if j >= first then j - first else j + n - first;
    if j >= first {
      assert (first + k) % n == j;
    } else {
      assert first + k == j + n;
      assert (j + n) % n == j;
    }
  }

  // servingOwner fails exactly when the node holds no particles anywhere.
  lemma ServedOrEmpty(w: World, asker: nat, c: Cell)
    requires ValidWorld(w) && c.depth <= MAX_DEPTH && Owned(w, c)
    requires ServingOwner(w, asker, c).None?
    ensures Here(w, c) == []
  {
    hide ValidWorld, Lo, Hi, Between, OwnerStart, OwnerEnd, ServeFrom;
    var s, n := OwnerStart(w, c), OwnerEnd(w, c) - OwnerStart(w, c) + 1;
    var first := w.spread(asker, c) % n;
    forall j: nat | j < |w.pieces| ensures Between(w.pieces[j].parts, Lo(c), Hi(c)) == [] {
      if Between(w.pieces[j].parts, Lo(c), Hi(c)) != [] {
        OnlyOwnersHold(w, j, c);
        var k := CyclicReaches(first, n, j - s);
        assert Probe(s, n, first, k) == j;
        BetweenNone(w.pieces[j].parts, Lo(c), Hi(c));
      }
    }
    PiecesBetween(w.pieces, 0, Lo(c), Hi(c));
  }

  // A remote leaf some owner can answer for.
  ghost predicate RemoteServed(w: World, p: nat, c: Cell)
    requires ValidWorld(w)
  {
    Built(w, p, c) && RemoteLeaf(w, p, c) && Owned(w, c) && ServingOwner(w, p, c).Some?
  }

  // The PE asked.
  function Server(w: World, p: nat, c: Cell): nat
    requires ValidWorld(w) && c.depth <= MAX_DEPTH && Owned(w, c) && ServingOwner(w, p, c).Some?
  {
    w.pieces[ServingOwner(w, p, c).value].home
  }

  lemma RemoteLeafOwned(w: World, p: nat, c: Cell)
    requires ValidWorld(w) && c.depth <= MAX_DEPTH && RemoteLeaf(w, p, c)
    ensures Owned(w, c)
  {
  }

  lemma OwnersNarrow(w: World, c: Cell, i: nat, tp: nat)
    requires ValidWorld(w) && ValidCell(c) && c.depth < MAX_DEPTH && i < BRANCH && tp < |w.pieces|
    requires OwnerStart(w, Child(c, i)) <= tp <= OwnerEnd(w, Child(c, i))
    ensures OwnerStart(w, c) <= tp <= OwnerEnd(w, c)
  {
    hide ValidWorld, Shl;
    ChildSpan(c, i);
    OwnerRangeExact(w, tp, Child(c, i));
    OwnerRangeExact(w, tp, c);
  }

  // A remote leaf contains the whole cell of each of its owners.
  lemma RemoteLeafContains(w: World, p: nat, c: Cell, tp: nat)
    requires ValidWorld(w) && Built(w, p, c) && RemoteLeaf(w, p, c)
    requires OwnerStart(w, c) <= tp <= OwnerEnd(w, c)
    ensures ValidCell(c) && Lo(c) <= Lo(w.pieces[tp].cell) && Hi(w.pieces[tp].cell) <= Hi(c)
  {
    hide Shl, Between, LocalFrom, OwnerEnd;
    BuiltValid(w, p, c);
    if MultiOwner(w, c) {
      MultiOwnerContains(w, tp, c);
    } else if c == ROOT {
      RootHolds(w, tp);
    } else {
      var u := Parent(c);
      BuiltValid(w, p, u);
      RefinedAtHasRoom(w, p, u);
      assert Child(u, Slot(c)) == c;
      OwnersNarrow(w, u, Slot(c), tp);
      if !MultiOwner(w, u) {
        SingleOwnerHere(w, p, u);
      }
      MultiOwnerContains(w, tp, u);
      OwnerRangeExact(w, tp, c);
      RangeInCell(w, tp);
      Nested(c, w.pieces[tp].cell);
    }
  }

  lemma {:induction false} AncestorsRefinedToo(w: World, p: nat, d: nat, c: Cell)
    requires ValidWorld(w) && Built(w, p, c) && LocalHere(w, d, c) != []
    ensures Built(w, d, c)
    decreases c.depth
  {
    hide ValidWorld, Shl, Between, LocalFrom, AllFrom, Refined;
    if c != ROOT {
      var u := Parent(c);
      BuiltValid(w, p, u);
      RefinedAtHasRoom(w, p, u);
      assert Child(u, Slot(c)) == c;
      ChildHereInParent(w, d, u, Slot(c));
      AncestorsRefinedToo(w, p, d, u);
      LocalTreeIsPruned(w, p, u);
      LocalTreeIsPruned(w, d, u);
    }
  }

  lemma ChildHereInParent(w: World, d: nat, u: Cell, i: nat)
    requires ValidWorld(w) && ValidCell(u) && u.depth < MAX_DEPTH && i < BRANCH
    ensures LocalHere(w, d, Child(u, i)) != [] ==> LocalHere(w, d, u) != []
    ensures Here(w, Child(u, i)) != [] ==> Here(w, u) != []
  {
    hide ValidWorld, Shl, LocalFrom, AllFrom;
    var ch := Child(u, i);
    ChildSpan(u, i);
    BetweenNone(LocalFrom(w.pieces, d), Lo(ch), Hi(ch));
    BetweenNone(LocalFrom(w.pieces, d), Lo(u), Hi(u));
    BetweenNone(AllFrom(w.pieces), Lo(ch), Hi(ch));
    BetweenNone(AllFrom(w.pieces), Lo(u), Hi(u));
  }

  // The PE asked for a remote leaf has built it, holds particles in it, and has
  // it as a refined node or as a leaf of its own -- never as an unfilled remote
  // leaf, and what it sends turns into the right remote type.
  lemma ServerCanAnswer(w: World, p: nat, c: Cell)
    requires ValidWorld(w) && RemoteServed(w, p, c)
    ensures Built(w, Server(w, p, c), c) && !RemoteLeaf(w, Server(w, p, c), c)
    ensures LocalHere(w, Server(w, p, c), c) != [] && Here(w, c) != []
    ensures MakeRemote(FinalKind(w, Server(w, p, c), c)) == RemoteKind(w, c)
  {
    hide ValidWorld, Shl, Between, LocalFrom, AllFrom, LocallyDone, Refined, Lo, Hi, ServeFrom, OwnerStart, OwnerEnd;
    var tp := ServingOwner(w, p, c).value;
    var d := w.pieces[tp].home;
    BuiltValid(w, p, c);
    ServerHolds(w, p, c, tp);
    AncestorsRefinedToo(w, p, d, c);
    LocalTreeIsPruned(w, d, c);
    if !MultiOwner(w, c) { SingleOwnerHere(w, d, c); }
    RefinedOrOwn(w, d, c);
  }

  // A node holding p's particles is refined there, or a leaf of p's own.
  lemma RefinedOrOwn(w: World, p: nat, c: Cell)
    requires ValidWorld(w) && c.depth <= MAX_DEPTH && LocalHere(w, p, c) != []
    ensures !RemoteLeaf(w, p, c)
  {
    if !Owned(w, c) { UnownedEmpty(w, p, c); }
    if !MultiOwner(w, c) && Owned(w, c) { SingleOwnerHere(w, p, c); }
  }

  // All of a local leaf's particles are here.
  lemma LocalLeafWhole(w: World, p: nat, c: Cell)
    requires ValidWorld(w) && ValidCell(c) && LocalLeaf(w, p, c)
    ensures LocalHere(w, p, c) == Here(w, c)
  {
    hide ValidWorld, Lo, Hi, FirstHiFrom, FirstLoFrom;
    if Owned(w, c) {
      SingleOwnerHere(w, p, c);
    } else {
      UnownedEmpty(w, p, c);
    }
  }

  lemma ServerHolds(w: World, p: nat, c: Cell, tp: nat)
    requires ValidWorld(w) && Built(w, p, c) && RemoteLeaf(w, p, c) && ValidCell(c)
    requires OwnerStart(w, c) <= tp <= OwnerEnd(w, c) && w.pieces[tp].parts != []
    ensures LocalHere(w, w.pieces[tp].home, c) != [] && Here(w, c) != []
  {
    hide Shl, Between, LocalFrom, AllFrom, RemoteLeaf, OwnerStart, OwnerEnd;
    RemoteLeafContains(w, p, c, tp);
    assert ValidPiece(w.pieces[tp]);
    BetweenAll(w.pieces[tp].parts, Lo(c), Hi(c));
    PiecesBetween(w.pieces, w.pieces[tp].home, Lo(c), Hi(c));
  }

  lemma {:induction false} LocallyDoneServes(w: World, p: nat, c: Cell)
    requires ValidWorld(w) && ValidCell(c) && LocallyDone(w, p, c)
    ensures FinalKind(w, p, c) == Internal || FinalKind(w, p, c) == Bucket || FinalKind(w, p, c) == EmptyBucket
  {
  }

  // ---------------- mass of a refined node ----------------

  function ChildMass(w: World, c: Cell, n: nat): real
    requires ValidWorld(w) && c.depth < MAX_DEPTH
  {
    if n == 0 then 0.0 else ChildMass(w, c, n - 1) + NodeMass(w, Child(c, n - 1))
  }

  lemma {:induction false} ChildMassSpan(w: World, c: Cell, n: nat)
    requires ValidWorld(w) && ValidCell(c) && c.depth < MAX_DEPTH && 0 < n <= BRANCH
    ensures ChildMass(w, c, n) == Mass(Between(AllFrom(w.pieces), Lo(c), Hi(Child(c, n - 1))))
  {
    hide ValidWorld, Shl, AllFrom;
    ChildSpan(c, n - 1);
    if n > 1 {
      ChildMassSpan(w, c, n - 1);
      ChildSpan(c, n - 2);
      BetweenSplit(AllFrom(w.pieces), Lo(c), Lo(Child(c, n - 1)), Hi(Child(c, n - 1)));
    } else {
      assert ChildMass(w, c, 1) == ChildMass(w, c, 0) + NodeMass(w, Child(c, 0));
    }
  }

  // The children's masses add up to the node's.
  lemma MassOfChildren(w: World, c: Cell)
    requires ValidWorld(w) && ValidCell(c) && c.depth < MAX_DEPTH
    ensures ChildMass(w, c, BRANCH) == NodeMass(w, c)
  {
    hide ValidWorld, Shl, AllFrom, Between;
    ChildMassSpan(w, c, BRANCH);
    ChildSpan(c, BRANCH - 1);
  }

  // Particles of p lie below a child that is p's own or refined at p.
  lemma HeldChild(w: World, p: nat, c: Cell) returns (i: nat)
    requires ValidWorld(w) && ValidCell(c) && RefinedAt(w, p, c)
    ensures i < BRANCH && c.depth < MAX_DEPTH && !RemoteLeaf(w, p, Child(c, i))
    ensures LocalHere(w, p, Child(c, i)) != []
  {
    hide ValidWorld, Shl, LocalFrom, AllFrom;
    RefinedAtHasRoom(w, p, c);
    var ps := LocalFrom(w.pieces, p);
    BetweenNone(ps, Lo(c), Hi(c));
    var q :| q in ps && Lo(c) <= q.key < Hi(c);
    ChildSpan(c, BRANCH - 1);
    i := ChildHolding(c, q.key, BRANCH);
    var ch := Child(c, i);
    ChildSpan(c, i);
    BetweenNone(ps, Lo(ch), Hi(ch));
    RefinedOrOwn(w, p, ch);
  }

  // ---------------- Node::getOwnershipFromChildren ----------------

  datatype Scan = Scan(prevEnd: int, firstStart: int, lastEnd: int, external: bool, gap: bool)

  function ScanChild(s: Scan, n: Node): Scan {
    var ext := s.external && External(n.kind);
    if n.ownerStart < 0 then s.(external := ext)
    else
      var diff := n.ownerStart - s.prevEnd;
      Scan(n.ownerEnd, if s.firstStart < 0 then n.ownerStart else s.firstStart, n.ownerEnd, ext,
           s.gap || (s.prevEnd >= 0 && (diff < 0 || diff > 1)))
  }

  function ScanChildren(kids: seq<Node>): Scan {
    if kids == [] then Scan(-1, -1, -1, true, false)
    else ScanChild(ScanChildren(kids[..|kids| - 1]), kids[|kids| - 1])
  }

  // The loop, with the CkAbort on a gap reported as `gap`.
  method OwnershipFromChildren(kids: seq<Node>) returns (ownerStart: int, ownerEnd: int, kind: NodeType, gap: bool)
    ensures var s := ScanChildren(kids);
            ownerStart == s.firstStart && ownerEnd == s.lastEnd && gap == s.gap
            && kind == if s.external then Remote else Boundary
  {
    var allChildrenExternal := true;
    var prevEnd := -1;
    ownerStart, ownerEnd, gap := -1, -1, false;
    var i := 0;
    while i < |kids|
      invariant i <= |kids|
      invariant ScanChildren(kids[..i]) == Scan(prevEnd, ownerStart, ownerEnd, allChildrenExternal, gap)
    {
      assert kids[..i + 1][..i] == kids[..i];
      if !External(kids[i].kind) {
        allChildrenExternal := false;
      }
      if kids[i].ownerStart >= 0 {
        if prevEnd >= 0 {
          var diff := kids[i].ownerStart - prevEnd;
          if diff < 0 || diff > 1 {
            gap := true;
          }
        }
        if ownerStart < 0 { ownerStart := kids[i].ownerStart; }
        ownerEnd := kids[i].ownerEnd;
        prevEnd := kids[i].ownerEnd;
      }
      i := i + 1;
    }
    assert kids[..i] == kids;
    kind := if allChildrenExternal then Remote else Boundary;
  }

  ghost predicate RangeRight(w: World, c: Cell, n: Node)
    requires ValidWorld(w) && c.depth <= MAX_DEPTH
  {
    if Owned(w, c) then n.ownerStart == OwnerStart(w, c) && n.ownerEnd == OwnerEnd(w, c)
    else n.ownerStart == n.ownerEnd < 0
  }

  lemma Boundaries(w: World, x: int)
    requires ValidWorld(w)
    ensures FirstHiFrom(w, x, 0) <= FirstLoFrom(w, x, 0) <= FirstHiFrom(w, x, 0) + 1
  {
    var h, l := FirstHiFrom(w, x, 0), FirstLoFrom(w, x, 0);
    if l < h { RangeInCell(w, l); }
    if h + 1 < |w.pieces| { RangesOrdered(w, h, h + 1); }
  }

  lemma BoundariesMonotone(w: World, x: int, y: int)
    requires ValidWorld(w) && x <= y
    ensures FirstHiFrom(w, x, 0) <= FirstHiFrom(w, y, 0)
    ensures FirstLoFrom(w, x, 0) <= FirstLoFrom(w, y, 0)
  {
  }

  // One more child, with owners h to l - 1, after children with owners from a on to
  // m - 1.
  lemma OneChildScanned(s: Scan, n: Node, a: nat, m: nat, h: nat, l: nat)
    requires !s.gap && s.prevEnd == s.lastEnd
    requires if a < m then s.firstStart == a && s.lastEnd == m - 1 else s.firstStart == -1 && s.lastEnd == -1
    requires h <= m <= h + 1 && a <= h && m <= l
    requires if h < l then n.ownerStart == h && n.ownerEnd == l - 1 else n.ownerStart == n.ownerEnd < 0
    ensures var r := ScanChild(s, n);
            !r.gap && r.prevEnd == r.lastEnd
            && if a < l then r.firstStart == a && r.lastEnd == l - 1 else r.firstStart == -1 && r.lastEnd == -1
  {
  }

  lemma RangeBetween(w: World, c: Cell, n: Node)
    requires ValidWorld(w) && c.depth <= MAX_DEPTH && RangeRight(w, c, n)
    ensures var h, l := FirstHiFrom(w, Lo(c), 0), FirstLoFrom(w, Hi(c), 0);
            if h < l then n.ownerStart == h && n.ownerEnd == l - 1 else n.ownerStart == n.ownerEnd < 0
  {
    hide ValidWorld, Lo, Hi, FirstHiFrom, FirstLoFrom;
  }

  lemma FirstChildScanned(n: Node, h: nat, l: nat)
    requires if h < l then n.ownerStart == h && n.ownerEnd == l - 1 else n.ownerStart == n.ownerEnd < 0
    ensures var r := ScanChild(Scan(-1, -1, -1, true, false), n);
            !r.gap && r.prevEnd == r.lastEnd
            && if h < l then r.firstStart == h && r.lastEnd == l - 1 else r.firstStart == -1 && r.lastEnd == -1
  {
  }

  // Scanning the children recovers the parent's owner range, and sibling
  // ranges step by 0 or 1, so the abort is unreachable.
  lemma {:induction false} ScanRecovers(w: World, c: Cell, kids: seq<Node>)
    requires ValidWorld(w) && ValidCell(c) && c.depth < MAX_DEPTH && 0 < |kids| <= BRANCH
    requires forall i :: 0 <= i < |kids| ==> RangeRight(w, Child(c, i), kids[i])
    ensures var s, l := ScanChildren(kids), FirstLoFrom(w, Hi(Child(c, |kids| - 1)), 0);
            !s.gap && s.prevEnd == s.lastEnd
            && if OwnerStart(w, c) < l then s.firstStart == OwnerStart(w, c) && s.lastEnd == l - 1
               else s.firstStart == -1 && s.lastEnd == -1
  {
    hide ValidWorld, Shl, Child, Lo, Hi, FirstHiFrom, FirstLoFrom, ScanChild, RangeRight;
    var n := |kids| - 1;
    ChildSpan(c, n);
    var x, y := Lo(Child(c, n)), Hi(Child(c, n));
    Boundaries(w, x);
    BoundariesMonotone(w, x, y);
    BoundariesMonotone(w, Lo(c), x);
    var a, m, h, l := OwnerStart(w, c), FirstLoFrom(w, x, 0), FirstHiFrom(w, x, 0), FirstLoFrom(w, y, 0);
    RangeBetween(w, Child(c, n), kids[n]);
    if n == 0 {
      assert kids[..n] == [];
      FirstChildScanned(kids[n], h, l);
    } else {
      ScanRecovers(w, c, kids[..n]);
      ChildSpan(c, n - 1);
      OneChildScanned(ScanChildren(kids[..n]), kids[n], a, m, h, l);
    }
  }

  lemma ParentRecovered(w: World, c: Cell, kids: seq<Node>)
    requires ValidWorld(w) && ValidCell(c) && c.depth < MAX_DEPTH && Owned(w, c) && |kids| == BRANCH
    requires forall i :: 0 <= i < BRANCH ==> RangeRight(w, Child(c, i), kids[i])
    ensures var s := ScanChildren(kids);
            !s.gap && s.firstStart == OwnerStart(w, c) && s.lastEnd == OwnerEnd(w, c)
  {
    hide ValidWorld, Shl, Child, Lo, Hi, FirstHiFrom, FirstLoFrom;
    ScanRecovers(w, c, kids);
    ChildSpan(c, BRANCH - 1);
  }

  // ---------------- the nodes PE p builds at and below a node ----------------

  ghost function BuiltBelow(w: World, p: nat, c: Cell, n: nat): set<Cell>
    requires ValidWorld(w) && ValidCell(c) && c.depth < MAX_DEPTH && n <= BRANCH
    decreases MAX_DEPTH - c.depth, n
  {
    if n == 0 then {}
    else
      ChildValid(c, n - 1);
      BuiltBelow(w, p, c, n - 1) + BuiltSet(w, p, Child(c, n - 1))
  }

  ghost function BuiltSet(w: World, p: nat, c: Cell): set<Cell>
    requires ValidWorld(w) && ValidCell(c)
    decreases MAX_DEPTH - c.depth, BRANCH + 1
  {
    if c.depth < MAX_DEPTH && RefinedAt(w, p, c) then {c} + BuiltBelow(w, p, c, BRANCH) else {c}
  }

  lemma {:induction false} BuiltBelowHas(w: World, p: nat, c: Cell, n: nat, i: nat)
    requires ValidWorld(w) && ValidCell(c) && c.depth < MAX_DEPTH && i < n <= BRANCH && ValidCell(Child(c, i))
    ensures BuiltSet(w, p, Child(c, i)) <= BuiltBelow(w, p, c, n)
  {
    hide ValidWorld, RefinedAt, BuiltSet;
    if i < n - 1 { BuiltBelowHas(w, p, c, n - 1, i); }
  }

  // Closed under children of refined nodes.
  lemma {:induction false} BuiltSetGrows(w: World, p: nat, c: Cell, x: Cell, i: nat)
    requires ValidWorld(w) && ValidCell(c) && x in BuiltSet(w, p, c) && ValidCell(x)
    requires RefinedAt(w, p, x) && x.depth < MAX_DEPTH && i < BRANCH
    ensures Child(x, i) in BuiltSet(w, p, c)
    decreases MAX_DEPTH - c.depth
  {
    hide ValidWorld, RefinedAt;
    ChildValid(x, i);
    if x == c {
      BuiltBelowHas(w, p, c, BRANCH, i);
    } else {
      var j := BelowWhich(w, p, c, x, BRANCH);
      ChildValid(c, j);
      BuiltSetGrows(w, p, Child(c, j), x, i);
      BuiltBelowHas(w, p, c, BRANCH, j);
    }
  }

  lemma {:induction false} BelowWhich(w: World, p: nat, c: Cell, x: Cell, n: nat) returns (j: nat)
    requires ValidWorld(w) && ValidCell(c) && c.depth < MAX_DEPTH && n <= BRANCH && x in BuiltBelow(w, p, c, n)
    ensures j < n && ValidCell(Child(c, j)) && x in BuiltSet(w, p, Child(c, j))
  {
    hide ValidWorld, RefinedAt, BuiltSet;
    ChildValid(c, n - 1);
    if x in BuiltSet(w, p, Child(c, n - 1)) { j := n - 1; } else { j := BelowWhich(w, p, c, x, n - 1); }
  }

  lemma {:induction false} BuiltInSet(w: World, p: nat, c: Cell)
    requires ValidWorld(w) && Built(w, p, c) && ValidCell(ROOT)
    ensures c in BuiltSet(w, p, ROOT)
    decreases c.depth
  {
    hide ValidWorld, RefinedAt;
    if c != ROOT {
      var q := Parent(c);
      BuiltInSet(w, p, q);
      BuiltValid(w, p, q);
      RefinedAtHasRoom(w, p, q);
      BuiltSetGrows(w, p, ROOT, q, Slot(c));
      assert Child(q, Slot(c)) == c;
    }
  }

  lemma {:induction false} BuiltSetBuilt(w: World, p: nat, c: Cell, x: Cell)
    requires ValidWorld(w) && ValidCell(c) && Built(w, p, c) && x in BuiltSet(w, p, c)
    ensures Built(w, p, x)
    decreases MAX_DEPTH - c.depth
  {
    hide ValidWorld, RefinedAt;
    if x != c {
      var j := BelowWhich(w, p, c, x, BRANCH);
      ChildParent(c, j);
      BuiltSetBuilt(w, p, Child(c, j), x);
    }
  }
}
