// One bucket's gravity walk over the whole tree, and how a PE splits it in two:
// a local walk over what the PE knows itself and a remote walk over the rest,
// which meets nodes the PE has yet to fetch.
module GravityWalks {
  import opened TreeKeys
  import opened Decomposition
  import opened TreeBuild
  import opened NodeFacts

  // A node applied as a whole, or a leaf's particles one by one.
  datatype Hit = Approx(cell: Cell) | Direct(cell: Cell)

  // Whether a bucket opens a node, fixed by the node's moments and the bucket's.
  type Opening = (nat, Cell) -> bool

  // ---------------- the walk of the whole tree ----------------

  // The nodes of the tree a single PE would build.
  ghost predicate InTree(w: World, c: Cell)
    requires ValidWorld(w)
    decreases c.depth
  {
    c == ROOT || (0 < c.depth <= MAX_DEPTH && InTree(w, Parent(c)) && Refined(w, Parent(c)))
  }

  ghost function GlobalKids(w: World, opens: Opening, b: nat, c: Cell, n: nat): multiset<Hit>
    requires ValidWorld(w) && c.depth < MAX_DEPTH && n <= BRANCH
    decreases MAX_DEPTH - c.depth, n
  {
    if n == 0 then multiset{} else GlobalKids(w, opens, b, c, n - 1) + GlobalWalk(w, opens, b, Child(c, n - 1))
  }

  // What bucket b interacts with below c when the whole tree is at hand.
  ghost function GlobalWalk(w: World, opens: Opening, b: nat, c: Cell): multiset<Hit>
    requires ValidWorld(w) && c.depth <= MAX_DEPTH
    decreases MAX_DEPTH - c.depth, BRANCH + 1
  {
    if Here(w, c) == [] then multiset{}
    else if !opens(b, c) then multiset{Approx(c)}
    else if Refined(w, c) && c.depth < MAX_DEPTH then GlobalKids(w, opens, b, c, BRANCH)
    else multiset{Direct(c)}
  }

  // ---------------- one PE's part of it ----------------

  // The type of a node in PE p's tree once everything has been fetched.
  ghost function FullKind(w: World, p: nat, c: Cell): NodeType
    requires ValidWorld(w) && c.depth <= MAX_DEPTH
  {
    if Built(w, p, c) then FinalKind(w, p, c) else RemoteKind(w, c)
  }

  // LocalTraversalWorker::keepTable and RemoteTraversalWorker::keepTable
  predicate Keeps(local: bool, k: NodeType) {
    if local then k == Internal || k == Bucket || k == Boundary
    else k == Boundary || k == Remote || k == RemoteBucket
  }

  // An unopened Boundary node belongs to the local walk.
  predicate Applies(local: bool, k: NodeType) {
    k != Boundary || local
  }

  ghost function WholeKids(w: World, p: nat, opens: Opening, local: bool, b: nat, c: Cell, n: nat): multiset<Hit>
    requires ValidWorld(w) && c.depth < MAX_DEPTH && n <= BRANCH
    decreases MAX_DEPTH - c.depth, n
  {
    if n == 0 then multiset{}
    else WholeKids(w, p, opens, local, b, c, n - 1) + Whole(w, p, opens, local, b, Child(c, n - 1))
  }

  // Everything bucket b's local or remote walk from c ever interacts with.
  ghost function Whole(w: World, p: nat, opens: Opening, local: bool, b: nat, c: Cell): multiset<Hit>
    requires ValidWorld(w) && c.depth <= MAX_DEPTH
    decreases MAX_DEPTH - c.depth, BRANCH + 1
  {
    var k := FullKind(w, p, c);
    if !Keeps(local, k) then multiset{}
    else if !opens(b, c) then (if Applies(local, k) then multiset{Approx(c)} else multiset{})
    else if Refined(w, c) && c.depth < MAX_DEPTH then WholeKids(w, p, opens, local, b, c, BRANCH)
    else multiset{Direct(c)}
  }

  // What a node's type says about the tree.
  lemma KindSays(w: World, p: nat, c: Cell)
    requires ValidWorld(w) && ValidCell(c)
    ensures var k := FullKind(w, p, c);
            if Here(w, c) == [] then k == EmptyBucket || k == RemoteEmptyBucket
            else if Refined(w, c) then k == Internal || k == Boundary || k == Remote
            else k == Bucket || k == RemoteBucket
    ensures Refined(w, c) ==> Here(w, c) != [] && c.depth < MAX_DEPTH
  {
    hide ValidWorld, Lo, Hi, MultiOwner, Owned, Between, AllFrom, LocalFrom, Refined, RefinedAt, LocallyDone;
    if Refined(w, c) { RefinedHasRoom(w, c); }
    if Built(w, p, c) {
      LocalTreeIsPruned(w, p, c);
      if !RefinedAt(w, p, c) && LocalLeaf(w, p, c) { LocalLeafWhole(w, p, c); }
    }
  }

  lemma KidsKinds(w: World, p: nat, c: Cell, i: nat)
    requires ValidWorld(w) && ValidCell(c) && Refined(w, c) && c.depth < MAX_DEPTH && i < BRANCH
    ensures FullKind(w, p, c) == Internal ==> LocalKind(FullKind(w, p, Child(c, i)))
    ensures FullKind(w, p, c) == Remote ==> External(FullKind(w, p, Child(c, i)))
  {
    hide ValidWorld, Lo, Hi, MultiOwner, Owned, Between, AllFrom, LocalFrom, Refined, RefinedAt, LocalLeaf, Here;
    ChildValid(c, i);
    ChildParent(c, i);
    if FullKind(w, p, c) == Internal {
      LocallyDoneServes(w, p, Child(c, i));
    }
  }

  // Below an Internal node everything is local, and below a Remote one nothing is.
  lemma {:induction false} OneSided(w: World, p: nat, opens: Opening, local: bool, b: nat, c: Cell)
    requires ValidWorld(w) && ValidCell(c)
    requires if local then LocalKind(FullKind(w, p, c)) else External(FullKind(w, p, c))
    ensures Whole(w, p, opens, local, b, c) == GlobalWalk(w, opens, b, c)
    ensures Whole(w, p, opens, !local, b, c) == multiset{}
    decreases MAX_DEPTH - c.depth, BRANCH + 1
  {
    hide ValidWorld, FullKind, Refined, Here;
    KindSays(w, p, c);
    if Refined(w, c) { OneSidedKids(w, p, opens, local, b, c, BRANCH); }
  }

  lemma {:induction false} OneSidedKids(w: World, p: nat, opens: Opening, local: bool, b: nat, c: Cell, n: nat)
    requires ValidWorld(w) && ValidCell(c) && c.depth < MAX_DEPTH && Refined(w, c) && n <= BRANCH
    requires FullKind(w, p, c) == if local then Internal else Remote
    ensures WholeKids(w, p, opens, local, b, c, n) == GlobalKids(w, opens, b, c, n)
    decreases MAX_DEPTH - c.depth, n
  {
    hide ValidWorld, FullKind, Refined, Here, Whole, GlobalWalk;
    if n > 0 {
      OneSidedKids(w, p, opens, local, b, c, n - 1);
      KidsKinds(w, p, c, n - 1);
      ChildValid(c, n - 1);
      OneSided(w, p, opens, local, b, Child(c, n - 1));
    }
  }

  lemma {:induction false} SplitKids(w: World, p: nat, opens: Opening, b: nat, c: Cell, n: nat)
    requires ValidWorld(w) && ValidCell(c) && c.depth < MAX_DEPTH && n <= BRANCH
    ensures WholeKids(w, p, opens, true, b, c, n) + WholeKids(w, p, opens, false, b, c, n)
        == GlobalKids(w, opens, b, c, n)
    decreases MAX_DEPTH - c.depth, n
  {
    hide ValidWorld, Whole, GlobalWalk;
    if n > 0 {
      SplitKids(w, p, opens, b, c, n - 1);
      ChildValid(c, n - 1);
      WalkSplits(w, p, opens, b, Child(c, n - 1));
    }
  }

  // The local and remote walks of a bucket together are its walk of the whole
  // tree: nothing twice, nothing left out.
  lemma {:induction false} WalkSplits(w: World, p: nat, opens: Opening, b: nat, c: Cell)
    requires ValidWorld(w) && ValidCell(c)
    ensures Whole(w, p, opens, true, b, c) + Whole(w, p, opens, false, b, c) == GlobalWalk(w, opens, b, c)
    decreases MAX_DEPTH - c.depth, BRANCH + 1
  {
    hide ValidWorld, FullKind, Refined, Here;
    KindSays(w, p, c);
    if LocalKind(FullKind(w, p, c)) {
      OneSided(w, p, opens, true, b, c);
    } else if External(FullKind(w, p, c)) {
      OneSided(w, p, opens, false, b, c);
    } else {
      SplitKids(w, p, opens, b, c, BRANCH);
    }
  }

  // ---------------- every particle once ----------------

  // The particles a bucket's interactions stand for.
  ghost function Covered(w: World, hits: seq<Hit>): seq<Particle> {
    if hits == [] then []
    else (if hits[0].cell.depth <= MAX_DEPTH then Here(w, hits[0].cell) else []) + Covered(w, hits[1..])
  }

  lemma {:induction false} CoveredConcat(w: World, a: seq<Hit>, b: seq<Hit>)
    ensures Covered(w, a + b) == Covered(w, a) + Covered(w, b)
  {
    hide ValidWorld, Here;
    if a == [] {
      assert a + b == b;
    } else {
      assert (a + b)[1..] == a[1..] + b;
      CoveredConcat(w, a[1..], b);
    }
  }

  lemma Without<T>(a: seq<T>, b: seq<T>, i: nat)
    requires a != [] && i < |b| && b[i] == a[0] && multiset(a) == multiset(b)
    ensures multiset(a[1..]) == multiset(b[..i] + b[i + 1..])
    ensures b == b[..i] + ([b[i]] + b[i + 1..])
  {
    assert a == [a[0]] + a[1..];
    assert b == b[..i] + ([b[i]] + b[i + 1..]);
    calc {
      multiset(a[1..]);
      multiset(a) - multiset{a[0]};
      multiset(b) - multiset{b[i]};
      { assert multiset(b) == multiset(b[..i]) + multiset([b[i]]) + multiset(b[i + 1..]); }
      multiset(b[..i] + b[i + 1..]);
    }
  }

  lemma {:induction false} CoveredSame(w: World, a: seq<Hit>, b: seq<Hit>)
    requires multiset(a) == multiset(b)
    ensures multiset(Covered(w, a)) == multiset(Covered(w, b))
  {
    hide ValidWorld, Here;
    if a == [] {
      assert multiset(b) == multiset{};
    } else {
      assert a[0] in multiset(b);
      var i :| 0 <= i < |b| && b[i] == a[0];
      Without(a, b, i);
      CoveredSame(w, a[1..], b[..i] + b[i + 1..]);
      CoveredConcat(w, b[..i], b[i + 1..]);
      CoveredConcat(w, b[..i], [b[i]] + b[i + 1..]);
      CoveredConcat(w, [b[i]], b[i + 1..]);
      assert [b[i]][1..] == [];
    }
  }

  lemma {:induction false} BetweenParts(ps: seq<Particle>, a: int, b: int, c: int)
    requires a <= b <= c
    ensures multiset(Between(ps, a, c)) == multiset(Between(ps, a, b)) + multiset(Between(ps, b, c))
  {
    if ps != [] { BetweenParts(ps[1..], a, b, c); }
  }

  ghost function PartsOfKids(w: World, c: Cell, n: nat): multiset<Particle>
    requires c.depth < MAX_DEPTH
  {
    if n == 0 then multiset{} else PartsOfKids(w, c, n - 1) + multiset(Here(w, Child(c, n - 1)))
  }

  lemma {:induction false} KidsParts(w: World, c: Cell, n: nat)
    requires ValidCell(c) && c.depth < MAX_DEPTH && 0 < n <= BRANCH
    ensures PartsOfKids(w, c, n) == multiset(Between(AllFrom(w.pieces), Lo(c), Hi(Child(c, n - 1))))
  {
    hide ValidWorld, Shl, AllFrom, Between;
    ChildSpan(c, n - 1);
    if n > 1 {
      KidsParts(w, c, n - 1);
      ChildSpan(c, n - 2);
      BetweenParts(AllFrom(w.pieces), Lo(c), Lo(Child(c, n - 1)), Hi(Child(c, n - 1)));
    } else {
      assert PartsOfKids(w, c, 1) == PartsOfKids(w, c, 0) + multiset(Here(w, Child(c, 0)));
    }
  }

  lemma NoHits(w: World)
    ensures Covered(w, []) == []
  {
  }

  lemma {:induction false} KidsCover(w: World, opens: Opening, b: nat, c: Cell, n: nat) returns (hits: seq<Hit>)
    requires ValidWorld(w) && ValidCell(c) && c.depth < MAX_DEPTH && n <= BRANCH
    ensures multiset(hits) == GlobalKids(w, opens, b, c, n)
    ensures multiset(Covered(w, hits)) == PartsOfKids(w, c, n)
    decreases MAX_DEPTH - c.depth, n
  {
    hide ValidWorld, GlobalWalk, Here, Covered, Child, ValidCell;
    if n == 0 {
      hits := [];
      assert Covered(w, []) == [] by { NoHits(w); }
    } else {
      var first := KidsCover(w, opens, b, c, n - 1);
      ChildValid(c, n - 1);
      var last := WalkCovers(w, opens, b, Child(c, n - 1));
      hits := first + last;
      CoveredConcat(w, first, last);
    }
  }

  // The walk of the whole tree meets every particle of a node exactly once.
  lemma {:induction false} WalkCovers(w: World, opens: Opening, b: nat, c: Cell) returns (hits: seq<Hit>)
    requires ValidWorld(w) && ValidCell(c)
    ensures multiset(hits) == GlobalWalk(w, opens, b, c)
    ensures multiset(Covered(w, hits)) == multiset(Here(w, c))
    decreases MAX_DEPTH - c.depth, BRANCH + 1
  {
    hide ValidWorld, Refined, Here;
    if Here(w, c) == [] {
      hits := [];
    } else if !opens(b, c) || !(Refined(w, c) && c.depth < MAX_DEPTH) {
      hits := [if !opens(b, c) then Approx(c) else Direct(c)];
      assert hits[1..] == [] && Covered(w, hits) == Here(w, c) + [];
    } else {
      hits := KidsCover(w, opens, b, c, BRANCH);
      KidsParts(w, c, BRANCH);
      LastChildEnds(w, c);
    }
  }

  lemma LastChildEnds(w: World, c: Cell)
    requires ValidCell(c) && c.depth < MAX_DEPTH
    ensures Here(w, c) == Between(AllFrom(w.pieces), Lo(c), Hi(Child(c, BRANCH - 1)))
  {
    hide ValidWorld, Shl, Between;
    ChildSpan(c, BRANCH - 1);
  }

  lemma {:induction false} MassSame(a: seq<Particle>, b: seq<Particle>)
    requires multiset(a) == multiset(b)
    ensures Mass(a) == Mass(b)
  {
    if a == [] {
      assert multiset(b) == multiset{};
    } else {
      assert a[0] in multiset(b);
      var i :| 0 <= i < |b| && b[i] == a[0];
      Without(a, b, i);
      MassSame(a[1..], b[..i] + b[i + 1..]);
      MassConcat(b[..i], b[i + 1..]);
      MassConcat(b[..i], [b[i]] + b[i + 1..]);
    }
  }

  lemma RootHoldsAll(w: World)
    requires ValidWorld(w)
    ensures ValidCell(ROOT) && Here(w, ROOT) == AllFrom(w.pieces)
  {
    RootOwners(w);
    AllInRoot(w, 0);
    assert w.pieces[0..] == w.pieces;
    BetweenAll(AllFrom(w.pieces), Lo(ROOT), Hi(ROOT));
  }

  lemma {:induction false} AllInRoot(w: World, i: nat)
    requires ValidWorld(w) && i <= |w.pieces|
    ensures forall q :: q in AllFrom(w.pieces[i..]) ==> Lo(ROOT) <= q.key < Hi(ROOT)
    decreases |w.pieces| - i
  {
    hide ValidWorld, Lo, Hi;
    if i < |w.pieces| {
      AllInRoot(w, i + 1);
      assert w.pieces[i..][1..] == w.pieces[i + 1..];
      PieceInRoot(w, i);
    }
  }

  lemma PieceInRoot(w: World, i: nat)
    requires ValidWorld(w) && i < |w.pieces|
    ensures forall q :: q in w.pieces[i].parts ==> Lo(ROOT) <= q.key < Hi(ROOT)
  {
    hide Shl;
    var n := |w.pieces| - 1;
    assert ValidPiece(w.pieces[i]);
    if i > 0 { CellsOrdered(w, 0, i); CellFitsWord(w.pieces[0].cell); }
    if i < n { CellsOrdered(w, i, n); CellFitsWord(w.pieces[n].cell); }
  }

  // A bucket that has interacted with everything its two walks ever reach has
  // met every particle of the system once: its interactions' mass is the
  // system's.  And it has met each node as WalkHits says.
  lemma EveryParticleOnce(w: World, p: nat, opens: Opening, b: nat, local: seq<Hit>, remote: seq<Hit>)
    requires ValidWorld(w)
    requires multiset(local) == Whole(w, p, opens, true, b, ROOT)
    requires multiset(remote) == Whole(w, p, opens, false, b, ROOT)
    ensures multiset(Covered(w, local + remote)) == multiset(AllFrom(w.pieces))
    ensures Mass(Covered(w, local + remote)) == Mass(AllFrom(w.pieces))
    ensures forall h :: multiset(local + remote)[h]
                     == if Meets(w, opens, b, h) && Reaches(w, opens, b, ROOT, h.cell) then 1 else 0
  {
    hide ValidWorld, Here, Whole, GlobalWalk, Meets, Reaches;
    RootHoldsAll(w);
    forall h ensures GlobalWalk(w, opens, b, ROOT)[h]
                  == if Meets(w, opens, b, h) && Reaches(w, opens, b, ROOT, h.cell) then 1 else 0
    {
      WalkHits(w, opens, b, ROOT, h);
    }
    WalkSplits(w, p, opens, b, ROOT);
    var hits := WalkCovers(w, opens, b, ROOT);
    CoveredSame(w, local + remote, hits);
    MassSame(Covered(w, local + remote), AllFrom(w.pieces));
  }

  // ---------------- which nodes a walk interacts with ----------------

  // x is c, or all nodes from c down to x's parent are divided and opened by b.
  ghost predicate Reaches(w: World, opens: Opening, b: nat, c: Cell, x: Cell)
    requires ValidWorld(w)
    decreases x.depth
  {
    && x.depth <= MAX_DEPTH
    && (x == c || (x.depth > c.depth && Reaches(w, opens, b, c, Parent(x)) && Refined(w, Parent(x))
                   && opens(b, Parent(x))))
  }

  lemma SlotParent(x: Cell)
    requires x.depth > 0
    ensures Child(Parent(x), Slot(x)) == x && Parent(x).depth == x.depth - 1
  {
  }

  lemma {:induction false} ReachesDown(w: World, opens: Opening, b: nat, c: Cell, x: Cell)
    requires ValidWorld(w) && x != c && c.depth < MAX_DEPTH
    ensures Reaches(w, opens, b, c, x)
       <==> Refined(w, c) && opens(b, c) && exists i: nat :: i < BRANCH && Reaches(w, opens, b, Child(c, i), x)
    decreases x.depth
  {
    hide ValidWorld, Refined, Child, Parent;
    if x.depth == c.depth + 1 {
      forall i: nat | i < BRANCH ensures Parent(Child(c, i)) == c { ChildParent(c, i); }
      SlotParent(x);
      assert Parent(x) == c ==> Reaches(w, opens, b, Child(c, Slot(x)), x) || x.depth > MAX_DEPTH;
    } else if c.depth + 1 < x.depth <= MAX_DEPTH {
      SlotParent(x);
      ReachesDown(w, opens, b, c, Parent(x));
    }
  }

  lemma {:induction false} ReachedFromOne(w: World, opens: Opening, b: nat, c: Cell, i: nat, j: nat, x: Cell)
    requires ValidWorld(w) && i < BRANCH && j < BRANCH
    requires Reaches(w, opens, b, Child(c, i), x) && Reaches(w, opens, b, Child(c, j), x)
    ensures i == j
    decreases x.depth
  {
    hide ValidWorld, Refined, Child, Parent;
    ChildParent(c, i);
    ChildParent(c, j);
    if x.depth > c.depth + 1 {
      SlotParent(x);
      ReachedFromOne(w, opens, b, c, i, j, Parent(x));
    }
  }

  // The node is applied as a whole, or its particles one by one.
  ghost predicate Meets(w: World, opens: Opening, b: nat, h: Hit)
    requires ValidWorld(w)
  {
    var x := h.cell;
    && x.depth <= MAX_DEPTH && Here(w, x) != []
    && match h { case Approx(_) => !opens(b, x) case Direct(_) => opens(b, x) && !Refined(w, x) }
  }

  lemma {:induction false} KidsHits(w: World, opens: Opening, b: nat, c: Cell, n: nat, h: Hit)
    requires ValidWorld(w) && ValidCell(c) && c.depth < MAX_DEPTH && n <= BRANCH
    ensures GlobalKids(w, opens, b, c, n)[h]
         == if Meets(w, opens, b, h) && exists i: nat :: i < n && Reaches(w, opens, b, Child(c, i), h.cell) then 1
            else 0
    decreases MAX_DEPTH - c.depth, n
  {
    hide ValidWorld, GlobalWalk, Meets, Reaches, Child, ValidCell;
    if n > 0 {
      KidsHits(w, opens, b, c, n - 1, h);
      ChildValid(c, n - 1);
      WalkHits(w, opens, b, Child(c, n - 1), h);
      forall i: nat | i < n - 1 && Reaches(w, opens, b, Child(c, i), h.cell)
        ensures !Reaches(w, opens, b, Child(c, n - 1), h.cell)
      {
        if Reaches(w, opens, b, Child(c, n - 1), h.cell) { ReachedFromOne(w, opens, b, c, i, n - 1, h.cell); }
      }
    }
  }

  // The walk meets, once each, exactly the nodes with particles whose ancestors it
  // opens: as a whole those it does not open, by their particles the leaves it does.
  lemma {:induction false} WalkHits(w: World, opens: Opening, b: nat, c: Cell, h: Hit)
    requires ValidWorld(w) && ValidCell(c)
    ensures GlobalWalk(w, opens, b, c)[h]
         == if Meets(w, opens, b, h) && Reaches(w, opens, b, c, h.cell) then 1 else 0
    decreases MAX_DEPTH - c.depth, BRANCH + 1
  {
    hide ValidWorld, Refined, Here, GlobalKids, Child;
    if Refined(w, c) { RefinedHasRoom(w, c); }
    if c.depth < MAX_DEPTH {
      if h.cell != c { ReachesDown(w, opens, b, c, h.cell); }
      if Refined(w, c) && opens(b, c) {
        KidsHits(w, opens, b, c, BRANCH, h);
        if h.cell == c { NotBelow(w, opens, b, c, BRANCH); }
      }
    } else if h.cell != c {
      AtLastLevel(w, opens, b, c, h.cell);
    }
  }

  lemma NotBelow(w: World, opens: Opening, b: nat, c: Cell, n: nat)
    requires ValidWorld(w)
    ensures forall i: nat :: i < n ==> !Reaches(w, opens, b, Child(c, i), c)
  {
    hide ValidWorld, Refined;
  }

  lemma AtLastLevel(w: World, opens: Opening, b: nat, c: Cell, x: Cell)
    requires ValidWorld(w) && c.depth >= MAX_DEPTH && x != c
    ensures !Reaches(w, opens, b, c, x)
  {
  }
}
