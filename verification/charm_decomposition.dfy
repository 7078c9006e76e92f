// What the decomposition leaves behind: TreePieces that own the leaves of one
// octree in key order, each with its sorted particles and a home PE, and the
// facts about ownership and refinement that every PE's tree build rests on.
module Decomposition {
  import opened TreeKeys

  datatype Particle = Particle(key: int, mass: real)
  datatype Piece = Piece(cell: Cell, parts: seq<Particle>, home: nat)

  // limit is ppb * BUCKET_TOLERANCE; spread is the hash by which servingOwner
  // picks where in an owner range to start looking.
  datatype World = World(pieces: seq<Piece>, limit: nat, spread: (nat, Cell) -> nat)

  ghost predicate SortedParts(ps: seq<Particle>) {
    forall i, j :: 0 <= i < j < |ps| ==> ps[i].key <= ps[j].key
  }

  ghost predicate ValidPiece(q: Piece) {
    && ValidCell(q.cell)
    && SortedParts(q.parts)
    && forall i :: 0 <= i < |q.parts| ==> Lo(q.cell) <= q.parts[i].key < Hi(q.cell)
  }

  ghost predicate ValidWorld(w: World) {
    && |w.pieces| > 0
    && (forall i :: 0 <= i < |w.pieces| ==> ValidPiece(w.pieces[i]))
    && Lo(w.pieces[0].cell) == Lo(ROOT)
    && Hi(w.pieces[|w.pieces| - 1].cell) == Hi(ROOT)
    && forall i :: 0 < i < |w.pieces| ==> Hi(w.pieces[i - 1].cell) == Lo(w.pieces[i].cell)
  }

  // keyRanges[2i] and keyRanges[2i+1]: the smallest and largest key of
  // TreePiece i; both are its cell's first key when it has no particles.
  function RangeLo(q: Piece): int
    requires q.cell.depth <= MAX_DEPTH
  {
    if q.parts == [] then Lo(q.cell) else q.parts[0].key
  }

  function RangeHi(q: Piece): int
    requires q.cell.depth <= MAX_DEPTH
  {
    if q.parts == [] then Lo(q.cell) else q.parts[|q.parts| - 1].key
  }

  // The TreePiece's key range meets the node's key interval.
  ghost predicate Owns(w: World, i: nat, c: Cell)
    requires ValidWorld(w) && c.depth <= MAX_DEPTH && i < |w.pieces|
  {
    RangeLo(w.pieces[i]) < Hi(c) && Lo(c) <= RangeHi(w.pieces[i])
  }

  function FirstHiFrom(w: World, x: int, i: nat): (t: nat)
    requires ValidWorld(w) && i <= |w.pieces|
    ensures i <= t <= |w.pieces|
    ensures forall j :: i <= j < t ==> RangeHi(w.pieces[j]) < x
    ensures t < |w.pieces| ==> RangeHi(w.pieces[t]) >= x
    decreases |w.pieces| - i
  {
    if i == |w.pieces| || RangeHi(w.pieces[i]) >= x then i else FirstHiFrom(w, x, i + 1)
  }

  function FirstLoFrom(w: World, x: int, i: nat): (t: nat)
    requires ValidWorld(w) && i <= |w.pieces|
    ensures i <= t <= |w.pieces|
    ensures forall j :: i <= j < t ==> RangeLo(w.pieces[j]) < x
    ensures t < |w.pieces| ==> RangeLo(w.pieces[t]) >= x
    decreases |w.pieces| - i
  {
    if i == |w.pieces| || RangeLo(w.pieces[i]) >= x then i else FirstLoFrom(w, x, i + 1)
  }

  // The owner range [start, end] of a node; empty when start > end.
  function OwnerStart(w: World, c: Cell): nat
    requires ValidWorld(w) && c.depth <= MAX_DEPTH
  {
    FirstHiFrom(w, Lo(c), 0)
  }

  function OwnerEnd(w: World, c: Cell): (e: int)
    requires ValidWorld(w) && c.depth <= MAX_DEPTH
    ensures -1 <= e < |w.pieces|
  {
    FirstLoFrom(w, Hi(c), 0) - 1
  }

  predicate Owned(w: World, c: Cell)
    requires ValidWorld(w) && c.depth <= MAX_DEPTH
  {
    OwnerStart(w, c) <= OwnerEnd(w, c)
  }

  predicate MultiOwner(w: World, c: Cell)
    requires ValidWorld(w) && c.depth <= MAX_DEPTH
  {
    OwnerStart(w, c) < OwnerEnd(w, c)
  }

  lemma {:induction false} CellsOrdered(w: World, i: nat, j: nat)
    requires ValidWorld(w) && i < j < |w.pieces|
    ensures Hi(w.pieces[i].cell) <= Lo(w.pieces[j].cell)
    decreases j
  {
    if i + 1 < j {
      CellsOrdered(w, i, j - 1);
      CellFitsWord(w.pieces[j - 1].cell);
    }
  }

  lemma RangeInCell(w: World, i: nat)
    requires ValidWorld(w) && i < |w.pieces|
    ensures Lo(w.pieces[i].cell) <= RangeLo(w.pieces[i]) <= RangeHi(w.pieces[i]) < Hi(w.pieces[i].cell)
  {
    CellFitsWord(w.pieces[i].cell);
    assert ValidPiece(w.pieces[i]);
  }

  lemma RangesOrdered(w: World, i: nat, j: nat)
    requires ValidWorld(w) && i < j < |w.pieces|
    ensures RangeHi(w.pieces[i]) < RangeLo(w.pieces[j])
  {
    CellsOrdered(w, i, j);
    RangeInCell(w, i);
    RangeInCell(w, j);
  }

  // The owner range holds exactly the TreePieces whose keys meet the node.
  lemma OwnerRangeExact(w: World, i: nat, c: Cell)
    requires ValidWorld(w) && c.depth <= MAX_DEPTH && i < |w.pieces|
    ensures Owns(w, i, c) <==> OwnerStart(w, c) <= i <= OwnerEnd(w, c)
  {
    var s, e := OwnerStart(w, c), OwnerEnd(w, c) + 1;
    RangeInCell(w, i);
    if s < i { RangesOrdered(w, s, i); RangeInCell(w, s); }
    if e < i { RangesOrdered(w, e, i); RangeInCell(w, e); }
  }

  lemma RootOwners(w: World)
    requires ValidWorld(w)
    ensures ValidCell(ROOT)
    ensures OwnerStart(w, ROOT) == 0 && OwnerEnd(w, ROOT) == |w.pieces| - 1
  {
    var n := |w.pieces| - 1;
    RangeInCell(w, 0);
    RangeInCell(w, n);
    if n > 0 { RangesOrdered(w, 0, n); }
    OwnerRangeExact(w, 0, ROOT);
    OwnerRangeExact(w, n, ROOT);
  }

  // A node with several owners strictly contains each of their cells.
  lemma MultiOwnerContains(w: World, i: nat, c: Cell)
    requires ValidWorld(w) && ValidCell(c) && MultiOwner(w, c)
    requires OwnerStart(w, c) <= i <= OwnerEnd(w, c)
    ensures c.depth < w.pieces[i].cell.depth
    ensures Lo(c) <= Lo(w.pieces[i].cell) && Hi(w.pieces[i].cell) <= Hi(c)
  {
    var j: nat := if i == OwnerStart(w, c) then i + 1 else i - 1;
    OwnerRangeExact(w, i, c);
    OwnerRangeExact(w, j, c);
    RangeInCell(w, i);
    RangeInCell(w, j);
    CellsOrdered(w, if i < j then i else j, if i < j then j else i);
    if c.depth >= w.pieces[i].cell.depth {
      Nested(w.pieces[i].cell, c);
    } else {
      Nested(c, w.pieces[i].cell);
    }
  }

  // ---------------- particles inside a key interval ----------------

  function Between(ps: seq<Particle>, lo: int, hi: int): seq<Particle> {
    if ps == [] then []
    else if lo <= ps[0].key < hi then [ps[0]] + Between(ps[1..], lo, hi)
    else Between(ps[1..], lo, hi)
  }

  function Mass(ps: seq<Particle>): real {
    if ps == [] then 0.0 else ps[0].mass + Mass(ps[1..])
  }

  lemma {:induction false} BetweenConcat(a: seq<Particle>, b: seq<Particle>, lo: int, hi: int)
    ensures Between(a + b, lo, hi) == Between(a, lo, hi) + Between(b, lo, hi)
  {
    if a == [] {
      assert a + b == b;
    } else {
      assert (a + b)[1..] == a[1..] + b;
      BetweenConcat(a[1..], b, lo, hi);
    }
  }

  lemma BetweenHas(ps: seq<Particle>, lo: int, hi: int, q: Particle)
    ensures q in Between(ps, lo, hi) <==> q in ps && lo <= q.key < hi
  {
  }

  lemma {:induction false} BetweenNone(ps: seq<Particle>, lo: int, hi: int)
    ensures (forall q :: q in ps ==> !(lo <= q.key < hi)) <==> Between(ps, lo, hi) == []
  {
    if ps != [] {
      BetweenNone(ps[1..], lo, hi);
      assert ps == [ps[0]] + ps[1..];
    }
  }

  lemma {:induction false} BetweenAll(ps: seq<Particle>, lo: int, hi: int)
    requires forall i :: 0 <= i < |ps| ==> lo <= ps[i].key < hi
    ensures Between(ps, lo, hi) == ps
  {
    if ps != [] { BetweenAll(ps[1..], lo, hi); }
  }

  lemma MassConcat(a: seq<Particle>, b: seq<Particle>)
    ensures Mass(a + b) == Mass(a) + Mass(b)
  {
    if a == [] {
      assert a + b == b;
    } else {
      assert (a + b)[1..] == a[1..] + b;
      MassConcat(a[1..], b);
    }
  }

  // Splitting an interval splits its mass and its particle count.
  lemma {:induction false} BetweenSplit(ps: seq<Particle>, a: int, b: int, c: int)
    requires a <= b <= c
    ensures Mass(Between(ps, a, c)) == Mass(Between(ps, a, b)) + Mass(Between(ps, b, c))
    ensures |Between(ps, a, c)| == |Between(ps, a, b)| + |Between(ps, b, c)|
  {
    if ps != [] { BetweenSplit(ps[1..], a, b, c); }
  }

  function AllFrom(qs: seq<Piece>): seq<Particle> {
    if qs == [] then [] else qs[0].parts + AllFrom(qs[1..])
  }

  function LocalFrom(qs: seq<Piece>, p: nat): seq<Particle> {
    if qs == [] then [] else (if qs[0].home == p then qs[0].parts else []) + LocalFrom(qs[1..], p)
  }

  // The particles of the whole system, and of PE p after the exchange, inside a node.
  function Here(w: World, c: Cell): seq<Particle>
    requires c.depth <= MAX_DEPTH
  {
    Between(AllFrom(w.pieces), Lo(c), Hi(c))
  }

  function LocalHere(w: World, p: nat, c: Cell): seq<Particle>
    requires c.depth <= MAX_DEPTH
  {
    Between(LocalFrom(w.pieces, p), Lo(c), Hi(c))
  }

  function NodeMass(w: World, c: Cell): real
    requires c.depth <= MAX_DEPTH
  {
    Mass(Here(w, c))
  }

  lemma {:induction false} PiecesBetween(qs: seq<Piece>, p: nat, lo: int, hi: int)
    ensures LocalFrom(qs, p) == [] || exists j: nat :: j < |qs| && qs[j].home == p
    ensures (exists j: nat :: j < |qs| && Between(qs[j].parts, lo, hi) != [])
       <==> Between(AllFrom(qs), lo, hi) != []
    ensures (exists j: nat :: j < |qs| && qs[j].home == p && Between(qs[j].parts, lo, hi) != [])
       <==> Between(LocalFrom(qs, p), lo, hi) != []
  {
    if qs != [] {
      var r := qs[1..];
      PiecesBetween(r, p, lo, hi);
      BetweenConcat(qs[0].parts, AllFrom(r), lo, hi);
      BetweenConcat(if qs[0].home == p then qs[0].parts else [], LocalFrom(r, p), lo, hi);
      assert forall j: nat :: j < |r| ==> r[j] == qs[j + 1];
      assert forall j: nat :: 0 < j < |qs| ==> qs[j] == r[j - 1];
    }
  }

  // When a single TreePiece has particles in the interval, they are all there.
  lemma {:induction false} OnePieceBetween(qs: seq<Piece>, i: nat, p: nat, lo: int, hi: int)
    requires i < |qs|
    requires forall j: nat :: j < |qs| && j != i ==> Between(qs[j].parts, lo, hi) == []
    ensures Between(AllFrom(qs), lo, hi) == Between(qs[i].parts, lo, hi)
    ensures Between(LocalFrom(qs, p), lo, hi)
         == if qs[i].home == p then Between(qs[i].parts, lo, hi) else []
  {
    var r := qs[1..];
    BetweenConcat(qs[0].parts, AllFrom(r), lo, hi);
    BetweenConcat(if qs[0].home == p then qs[0].parts else [], LocalFrom(r, p), lo, hi);
    if i == 0 {
      PiecesBetween(r, p, lo, hi);
      assert forall j: nat :: j < |r| ==> r[j] == qs[j + 1];
    } else {
      OnePieceBetween(r, i - 1, p, lo, hi);
    }
  }

  // Only owners have particles in a node.
  lemma OnlyOwnersHold(w: World, i: nat, c: Cell)
    requires ValidWorld(w) && c.depth <= MAX_DEPTH && i < |w.pieces|
    requires Between(w.pieces[i].parts, Lo(c), Hi(c)) != []
    ensures OwnerStart(w, c) <= i <= OwnerEnd(w, c)
  {
    var ps := w.pieces[i].parts;
    BetweenNone(ps, Lo(c), Hi(c));
    var q :| q in ps && Lo(c) <= q.key < Hi(c);
    var k :| 0 <= k < |ps| && ps[k] == q;
    assert ValidPiece(w.pieces[i]) && SortedParts(ps);
    assert ps[0].key <= ps[k].key <= ps[|ps| - 1].key;
    OwnerRangeExact(w, i, c);
  }

  lemma UnownedEmpty(w: World, p: nat, c: Cell)
    requires ValidWorld(w) && c.depth <= MAX_DEPTH && !Owned(w, c)
    ensures Here(w, c) == [] && LocalHere(w, p, c) == []
  {
    forall j: nat | j < |w.pieces| ensures Between(w.pieces[j].parts, Lo(c), Hi(c)) == [] {
      if Between(w.pieces[j].parts, Lo(c), Hi(c)) != [] { OnlyOwnersHold(w, j, c); }
    }
    PiecesBetween(w.pieces, p, Lo(c), Hi(c));
  }

  // A node with one owner holds that TreePiece's particles and no others.
  lemma SingleOwnerHere(w: World, p: nat, c: Cell)
    requires ValidWorld(w) && c.depth <= MAX_DEPTH && OwnerStart(w, c) == OwnerEnd(w, c)
    ensures LocalHere(w, p, c)
         == if w.pieces[OwnerStart(w, c)].home == p then Here(w, c) else []
  {
    forall j: nat | j < |w.pieces| && j != OwnerStart(w, c)
      ensures Between(w.pieces[j].parts, Lo(c), Hi(c)) == []
    {
      if Between(w.pieces[j].parts, Lo(c), Hi(c)) != [] { OnlyOwnersHold(w, j, c); }
    }
    OnePieceBetween(w.pieces, OwnerStart(w, c), p, Lo(c), Hi(c));
  }

  lemma LocalIsGlobal(w: World, p: nat, c: Cell)
    requires c.depth <= MAX_DEPTH && LocalHere(w, p, c) != []
    ensures Here(w, c) != []
  {
    PiecesBetween(w.pieces, p, Lo(c), Hi(c));
  }

  // The PE of an owner with particles holds particles in every node that
  // TreePiece shares with others.
  lemma OwnerHoldsParticles(w: World, i: nat, c: Cell)
    requires ValidWorld(w) && ValidCell(c) && MultiOwner(w, c)
    requires OwnerStart(w, c) <= i <= OwnerEnd(w, c) && w.pieces[i].parts != []
    ensures LocalHere(w, w.pieces[i].home, c) != []
  {
    MultiOwnerContains(w, i, c);
    var ps := w.pieces[i].parts;
    assert ValidPiece(w.pieces[i]);
    BetweenAll(ps, Lo(c), Hi(c));
    PiecesBetween(w.pieces, w.pieces[i].home, Lo(c), Hi(c));
  }

  // ---------------- which nodes are refined ----------------

  // particles[0].key != particles[numParticles-1].key, on a sorted run.
  predicate Separable(ps: seq<Particle>) {
    |ps| > 0 && ps[0].key != ps[|ps| - 1].key
  }

  // DataManager::buildTree's criterion on PE p.
  predicate RefinedAt(w: World, p: nat, c: Cell)
    requires ValidWorld(w) && c.depth <= MAX_DEPTH
  {
    var ps := LocalHere(w, p, c);
    (MultiOwner(w, c) && |ps| > 0) || (|ps| > w.limit && Separable(ps))
  }

  // The tree a single PE holding everything would build.
  predicate Refined(w: World, c: Cell)
    requires ValidWorld(w) && c.depth <= MAX_DEPTH
  {
    var ps := Here(w, c);
    (MultiOwner(w, c) && |ps| > 0) || (|ps| > w.limit && Separable(ps))
  }

  // Every PE's tree is the global tree cut where the PE has no particles.
  lemma LocalTreeIsPruned(w: World, p: nat, c: Cell)
    requires ValidWorld(w) && ValidCell(c)
    ensures RefinedAt(w, p, c) <==> Refined(w, c) && LocalHere(w, p, c) != []
  {
    if !Owned(w, c) {
      UnownedEmpty(w, p, c);
    } else if MultiOwner(w, c) {
      if LocalHere(w, p, c) != [] { LocalIsGlobal(w, p, c); }
    } else {
      SingleOwnerHere(w, p, c);
    }
  }

  lemma BetweenKeys(ps: seq<Particle>, lo: int, hi: int)
    ensures forall i :: 0 <= i < |Between(ps, lo, hi)| ==> lo <= Between(ps, lo, hi)[i].key < hi
  {
    forall i | 0 <= i < |Between(ps, lo, hi)| ensures lo <= Between(ps, lo, hi)[i].key < hi {
      BetweenHas(ps, lo, hi, Between(ps, lo, hi)[i]);
    }
  }

  // Refinement stops before the last key level, coincident keys or not.
  lemma RefinedHasRoom(w: World, c: Cell)
    requires ValidWorld(w) && ValidCell(c) && Refined(w, c)
    ensures c.depth < MAX_DEPTH && Here(w, c) != [] && Owned(w, c)
  {
    if MultiOwner(w, c) {
      MultiOwnerContains(w, OwnerStart(w, c), c);
    } else {
      if !Owned(w, c) { UnownedEmpty(w, 0, c); }
      if c.depth == MAX_DEPTH {
        CellFitsWord(c);
        BetweenKeys(AllFrom(w.pieces), Lo(c), Hi(c));
      }
    }
  }

  lemma RefinedAtHasRoom(w: World, p: nat, c: Cell)
    requires ValidWorld(w) && ValidCell(c) && RefinedAt(w, p, c)
    ensures c.depth < MAX_DEPTH && LocalHere(w, p, c) != [] && Owned(w, c)
  {
    LocalTreeIsPruned(w, p, c);
    RefinedHasRoom(w, c);
  }
}
