// What a finished node's mass is made of: change one particle's mass and exactly
// the cells that hold its key change, by that much, on every PE and in every reply,
// while the trees and the owners stay as they are.
module MassCarried {
  import opened TreeKeys
  import opened Decomposition
  import opened TreeBuild
  import opened Moments
  import opened MomentsSystem

  lemma MassOfOne(q: Particle)
    ensures Mass([q]) == q.mass
  {
    assert [q][1..] == [];
  }

  function Changed(ps: seq<Particle>, k: nat, d: real): seq<Particle>
    requires k < |ps|
  {
    ps[k := ps[k].(mass := ps[k].mass + d)]
  }

  // v is w with d added to the mass of particle k of TreePiece i.
  ghost predicate Reweighed(w: World, v: World, i: nat, k: nat, d: real) {
    && i < |w.pieces| && k < |w.pieces[i].parts|
    && v == w.(pieces := w.pieces[i := w.pieces[i].(parts := Changed(w.pieces[i].parts, k, d))])
  }

  // ---------------- one cell's mass ----------------

  // What the change adds to an interval of keys.
  function Share(key: int, lo: int, hi: int, d: real): real {
    if lo <= key < hi then d else 0.0
  }

  lemma {:induction false} RunChanges(ps: seq<Particle>, k: nat, d: real, lo: int, hi: int)
    requires k < |ps|
    ensures Mass(Between(Changed(ps, k, d), lo, hi)) == Mass(Between(ps, lo, hi)) + Share(ps[k].key, lo, hi, d)
    decreases k
  {
    var qs := Changed(ps, k, d);
    if k == 0 {
      assert qs[1..] == ps[1..];
    } else {
      assert qs[1..] == Changed(ps[1..], k - 1, d);
      RunChanges(ps[1..], k - 1, d, lo, hi);
    }
  }

  lemma {:induction false} PiecesChange(qs: seq<Piece>, i: nat, k: nat, d: real, lo: int, hi: int)
    requires i < |qs| && k < |qs[i].parts|
    ensures var rs := qs[i := qs[i].(parts := Changed(qs[i].parts, k, d))];
            Mass(Between(AllFrom(rs), lo, hi))
            == Mass(Between(AllFrom(qs), lo, hi)) + Share(qs[i].parts[k].key, lo, hi, d)
    decreases i
  {
    hide Between, Mass, Changed;
    var rs := qs[i := qs[i].(parts := Changed(qs[i].parts, k, d))];
    BetweenConcat(qs[0].parts, AllFrom(qs[1..]), lo, hi);
    BetweenConcat(rs[0].parts, AllFrom(rs[1..]), lo, hi);
    MassConcat(Between(qs[0].parts, lo, hi), Between(AllFrom(qs[1..]), lo, hi));
    MassConcat(Between(rs[0].parts, lo, hi), Between(AllFrom(rs[1..]), lo, hi));
    if i == 0 {
      assert rs[1..] == qs[1..];
      RunChanges(qs[0].parts, k, d, lo, hi);
    } else {
      assert rs[1..] == qs[1..][i - 1 := rs[i]];
      PiecesChange(qs[1..], i - 1, k, d, lo, hi);
    }
  }

  lemma NodeMassChanges(w: World, v: World, i: nat, k: nat, d: real, c: Cell)
    requires Reweighed(w, v, i, k, d) && c.depth <= MAX_DEPTH
    ensures NodeMass(v, c) == NodeMass(w, c) + Share(w.pieces[i].parts[k].key, Lo(c), Hi(c), d)
  {
    hide Between, Mass, Changed, Lo, Hi;
    PiecesChange(w.pieces, i, k, d, Lo(c), Hi(c));
  }

  // ---------------- the tree stays ----------------

  ghost predicate SameKeys(a: seq<Particle>, b: seq<Particle>) {
    |a| == |b| && forall i :: 0 <= i < |a| ==> a[i].key == b[i].key
  }

  // The same TreePieces with the same keys, whatever the masses.
  ghost predicate SamePieces(a: seq<Piece>, b: seq<Piece>) {
    |a| == |b| && forall i :: 0 <= i < |a| ==>
        a[i].cell == b[i].cell && a[i].home == b[i].home && SameKeys(a[i].parts, b[i].parts)
  }

  lemma {:induction false} SameBetween(a: seq<Particle>, b: seq<Particle>, lo: int, hi: int)
    requires SameKeys(a, b)
    ensures SameKeys(Between(a, lo, hi), Between(b, lo, hi))
  {
    if a != [] { SameBetween(a[1..], b[1..], lo, hi); }
  }

  lemma {:induction false} SameLocal(a: seq<Piece>, b: seq<Piece>, p: nat)
    requires SamePieces(a, b)
    ensures SameKeys(LocalFrom(a, p), LocalFrom(b, p))
  {
    if a != [] { SameLocal(a[1..], b[1..], p); }
  }

  lemma SameWorld(w: World, v: World)
    requires ValidWorld(w) && SamePieces(w.pieces, v.pieces)
    ensures ValidWorld(v)
  {
    hide Lo, Hi;
    forall i | 0 <= i < |v.pieces| ensures ValidPiece(v.pieces[i]) {
      assert ValidPiece(w.pieces[i]) && SameKeys(w.pieces[i].parts, v.pieces[i].parts);
    }
  }

  lemma SameRanges(w: World, v: World, i: nat)
    requires ValidWorld(w) && ValidWorld(v) && SamePieces(w.pieces, v.pieces) && i < |w.pieces|
    ensures RangeLo(w.pieces[i]) == RangeLo(v.pieces[i]) && RangeHi(w.pieces[i]) == RangeHi(v.pieces[i])
  {
    hide Lo, Hi;
    assert SameKeys(w.pieces[i].parts, v.pieces[i].parts);
  }

  lemma SameOwners(w: World, v: World, c: Cell)
    requires ValidWorld(w) && ValidWorld(v) && SamePieces(w.pieces, v.pieces) && c.depth <= MAX_DEPTH
    ensures OwnerStart(w, c) == OwnerStart(v, c) && OwnerEnd(w, c) == OwnerEnd(v, c)
  {
    hide Lo, Hi, RangeLo, RangeHi;
    forall i: nat | i < |w.pieces|
      ensures RangeLo(w.pieces[i]) == RangeLo(v.pieces[i]) && RangeHi(w.pieces[i]) == RangeHi(v.pieces[i])
    {
      SameRanges(w, v, i);
    }
    hide ValidWorld;
  }

  lemma SameRefined(w: World, v: World, p: nat, c: Cell)
    requires ValidWorld(w) && ValidWorld(v) && SamePieces(w.pieces, v.pieces) && w.limit == v.limit
    requires c.depth <= MAX_DEPTH
    ensures RefinedAt(w, p, c) <==> RefinedAt(v, p, c)
  {
    hide ValidWorld, Lo, Hi, OwnerStart, OwnerEnd, Between, SamePieces;
    SameOwners(w, v, c);
    SameLocal(w.pieces, v.pieces, p);
    SameBetween(LocalFrom(w.pieces, p), LocalFrom(v.pieces, p), Lo(c), Hi(c));
  }

  lemma {:induction false} SameBuilt(w: World, v: World, p: nat, c: Cell)
    requires ValidWorld(w) && ValidWorld(v) && SamePieces(w.pieces, v.pieces) && w.limit == v.limit
    ensures Built(w, p, c) <==> Built(v, p, c)
    decreases c.depth
  {
    hide ValidWorld, RefinedAt, SamePieces;
    if 0 < c.depth <= MAX_DEPTH {
      SameBuilt(w, v, p, Parent(c));
      SameRefined(w, v, p, Parent(c));
    }
  }

  lemma ReweighedSame(w: World, v: World, i: nat, k: nat, d: real)
    requires Reweighed(w, v, i, k, d)
    ensures SamePieces(w.pieces, v.pieces)
  {
  }

  // Every PE builds the same cells and divides the same ones.
  lemma TreeStays(w: World, v: World, i: nat, k: nat, d: real, p: nat, c: Cell)
    requires ValidWorld(w) && Reweighed(w, v, i, k, d)
    ensures ValidWorld(v) && (Built(w, p, c) <==> Built(v, p, c))
    ensures c.depth <= MAX_DEPTH ==> (RefinedAt(w, p, c) <==> RefinedAt(v, p, c))
  {
    hide ValidWorld, Built, RefinedAt, SamePieces;
    ReweighedSame(w, v, i, k, d);
    SameWorld(w, v);
    SameBuilt(w, v, p, c);
    if c.depth <= MAX_DEPTH { SameRefined(w, v, p, c); }
  }

  // ---------------- over whole runs ----------------

  // Any run with the particle as it is and any run with d more: wherever the node
  // of a cell is finished, and in every reply for a cell, on whichever PEs and at
  // whichever moments, the masses differ by d if the cell holds the particle's
  // key and not at all otherwise.
  lemma EveryRunCarries(w: World, v: World, i: nat, k: nat, d: real, run: seq<Sys>, a: nat, run': seq<Sys>, b: nat)
    requires Reweighed(w, v, i, k, d) && Run(w, run) && Run(v, run') && a < |run| && b < |run'|
    ensures forall p: nat, q: nat, c: Cell ::
              p < |run[a].pes| && q < |run'[b].pes| && Done(run[a].pes[p], c) && Done(run'[b].pes[q], c) ==>
              c.depth <= MAX_DEPTH && run'[b].pes[q].table[c].mass
              == run[a].pes[p].table[c].mass + Share(w.pieces[i].parts[k].key, Lo(c), Hi(c), d)
    ensures forall m, n ::
              m in run[a].net && n in run'[b].net && m.MomentsReply? && n.MomentsReply? && m.cell == n.cell ==>
              m.cell.depth <= MAX_DEPTH
              && n.mass == m.mass + Share(w.pieces[i].parts[k].key, Lo(m.cell), Hi(m.cell), d)
  {
    hide Run, Reweighed, NodeMass, ValidWorld, Share, Lo, Hi, SaysReady;
    EveryRunIsExact(w, run, a);
    EveryRunIsExact(v, run', b);
    ReweighedHas(w, v, i, k, d);
    forall p: nat, q: nat, c: Cell |
      p < |run[a].pes| && q < |run'[b].pes| && Done(run[a].pes[p], c) && Done(run'[b].pes[q], c)
      ensures c.depth <= MAX_DEPTH && c in run[a].pes[p].table && c in run'[b].pes[q].table
      ensures run'[b].pes[q].table[c].mass
              == run[a].pes[p].table[c].mass + Share(w.pieces[i].parts[k].key, Lo(c), Hi(c), d)
    {
      NodeMassChanges(w, v, i, k, d, c);
    }
    forall m, n | m in run[a].net && n in run'[b].net && m.MomentsReply? && n.MomentsReply? && m.cell == n.cell
      ensures m.cell.depth <= MAX_DEPTH
      ensures n.mass == m.mass + Share(w.pieces[i].parts[k].key, Lo(m.cell), Hi(m.cell), d)
    {
      NodeMassChanges(w, v, i, k, d, m.cell);
    }
  }

  lemma ReweighedHas(w: World, v: World, i: nat, k: nat, d: real)
    requires Reweighed(w, v, i, k, d)
    ensures i < |w.pieces| && k < |w.pieces[i].parts|
  {
  }
}
