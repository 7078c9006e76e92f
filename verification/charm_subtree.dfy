// The subtree a PE sends for a Remote node, and what attaching it does to the
// tree of the PE that asked.
module Subtrees {
  import opened TreeKeys
  import opened Decomposition
  import opened TreeBuild
  import opened NodeFacts
  import opened GravityWalks
  import opened GroupWalks
  import opened TreeViews

  function Up(y: Cell, n: nat): Cell
    requires n <= y.depth
    decreases n
  {
    if n == 0 then y else Up(Parent(y), n - 1)
  }

  // y is at most k levels below x.
  predicate Within(y: Cell, x: Cell, k: nat) {
    x.depth < y.depth <= x.depth + k && Up(y, y.depth - x.depth) == x
  }

  // A node as it arrives, with `left` levels still to come below it.
  function Sent(n: TNode, left: nat): TNode {
    TNode(MakeRemote(n.kind), if left == 0 then 0 else n.nchild, false)
  }

  // The nodes below x, k levels of them.
  function Cut(t: Tree, x: Cell, k: nat): Tree {
    map y | y in t && Within(y, x, k) :: Sent(t[y], x.depth + k - y.depth)
  }

  // A subtree that fits below x in the tree of a PE that lacks it.
  ghost predicate FitsNode(w: World, x: Cell, s: Tree, y: Cell)
    requires ValidWorld(w) && y in s
  {
    && ValidCell(y) && y.depth > x.depth && s[y].kind == RemoteKind(w, y) && !s[y].filled
    && (s[y].nchild > 0 ==> Refined(w, y))
    && (Parent(y) == x || (Parent(y) in s && s[Parent(y)].nchild > 0))
  }

  ghost predicate Fits(w: World, x: Cell, s: Tree)
    requires ValidWorld(w)
  {
    && Linked(s)
    && (forall i: nat :: i < BRANCH ==> Child(x, i) in s)
    && forall y :: y in s ==> FitsNode(w, x, s, y)
  }

  lemma RemoteAlike(w: World, d: nat, y: Cell)
    requires ValidWorld(w) && ValidCell(y)
    ensures MakeRemote(FullKind(w, d, y)) == RemoteKind(w, y)
  {
    hide Refined, Here, FullKind, ValidWorld;
    KindSays(w, d, y);
  }

  lemma ChildWithin(y: Cell, x: Cell, k: nat, i: nat)
    requires i < BRANCH && (y == x || Within(y, x, k)) && y.depth < x.depth + k
    ensures Within(Child(y, i), x, k)
  {
    ChildParent(y, i);
    var c := Child(y, i);
    assert Up(c, c.depth - x.depth) == Up(Parent(c), y.depth - x.depth);
  }

  // What a PE sends fits wherever it was asked for, whatever that PE has itself
  // fetched in the meantime.
  lemma CutFits(w: World, d: nat, t: Tree, x: Cell, k: nat)
    requires ValidWorld(w) && View(w, d, t) && x in t && t[x].nchild > 0 && k > 0
    ensures Fits(w, x, Cut(t, x, k))
  {
    hide View, Child, ValidWorld, Within, ValidCell, Linked;
    ViewLinked(w, d, t);
    KidLinked(t, x);
    var s := Cut(t, x, k);
    forall i: nat | i < BRANCH ensures Child(x, i) in s { ChildWithin(x, x, k, i); }
    forall y | y in s ensures FitsNode(w, x, s, y) { CutNode(w, d, t, x, k, y); }
    CutLinked(w, d, t, x, k);
  }

  lemma CutNode(w: World, d: nat, t: Tree, x: Cell, k: nat, y: Cell)
    requires ValidWorld(w) && View(w, d, t) && x in t && k > 0 && y in Cut(t, x, k)
    ensures FitsNode(w, x, Cut(t, x, k), y)
  {
    hide Refined, Built, FullKind, Linked, ValidWorld, ValidCell, RemoteKind;
    assert NodeView(w, d, t, y);
    RemoteAlike(w, d, y);
    if Parent(y) != x {
      assert Within(Parent(y), x, k) && Parent(y).depth < x.depth + k;
    }
  }

  lemma CutLinked(w: World, d: nat, t: Tree, x: Cell, k: nat)
    requires ValidWorld(w) && View(w, d, t) && x in t
    ensures Linked(Cut(t, x, k))
  {
    hide View, ValidWorld, ValidCell, Child, Up, Linked;
    ViewLinked(w, d, t);
    NchildsOk(t);
    var s := Cut(t, x, k);
    forall y, i: nat | y in s && s[y].nchild > 0 && i < BRANCH ensures Child(y, i) in s {
      ChildWithin(y, x, k, i);
      KidLinked(t, y);
    }
    MakeLinked(s);
  }

  // ---------------- attaching ----------------

  // recvNode: deserialize's setChildren, and the nodes in their places.
  function Attach(t: Tree, x: Cell, s: Tree): Tree
    requires x in t
  {
    t[x := t[x].(nchild := BRANCH)] + s
  }

  function Fill(t: Tree, x: Cell): Tree
    requires x in t
  {
    t[x := t[x].(filled := true)]
  }

  // Nothing of the subtree was there before, nor was built here.
  lemma {:induction false} AllNew(w: World, p: nat, t: Tree, x: Cell, s: Tree, y: Cell)
    requires ValidWorld(w) && View(w, p, t) && x in t && t[x].kind == Remote && t[x].nchild == 0
    requires Fits(w, x, s) && y in s
    ensures y !in t && !Built(w, p, y)
    decreases y.depth
  {
    hide Refined, FullKind, RemoteKind, ValidWorld, Linked, FinalKind, RefinedAt;
    assert FitsNode(w, x, s, y);
    if Parent(y) == x {
      NotRefinedHere(w, p, t, x);
    } else {
      AllNew(w, p, t, x, s, Parent(y));
    }
  }

  lemma NotRefinedHere(w: World, p: nat, t: Tree, x: Cell)
    requires ValidWorld(w) && View(w, p, t) && x in t && t[x].kind == Remote
    ensures x.depth <= MAX_DEPTH && !(Built(w, p, x) && RefinedAt(w, p, x))
  {
    hide Refined, ValidWorld, RemoteKind, RefinedAt, Built, LocallyDone;
    assert NodeView(w, p, t, x);
  }

  lemma AttachKeepsView(w: World, p: nat, t: Tree, x: Cell, s: Tree)
    requires ValidWorld(w) && View(w, p, t) && x in t && t[x].kind == Remote && t[x].nchild == 0 && Fits(w, x, s)
    ensures View(w, p, Attach(t, x, s))
    ensures forall y :: y in t && y != x ==> y in Attach(t, x, s) && Attach(t, x, s)[y] == t[y]
    ensures x in Attach(t, x, s) && Attach(t, x, s)[x] == t[x].(nchild := BRANCH)
  {
    hide Refined, FullKind, RemoteKind, ValidWorld, Built, NodeView, FitsNode, Linked, Child;
    var t' := Attach(t, x, s);
    forall y | y in s ensures y !in t && !Built(w, p, y) { AllNew(w, p, t, x, s, y); }
    AttachLinked(w, p, t, x, s);
    forall y | y in t' ensures NodeView(w, p, t', y) {
      if y in s {
        AttachNew(w, p, t, x, s, y);
      } else {
        AttachOld(w, p, t, x, s, y);
      }
    }
  }

  lemma AttachNew(w: World, p: nat, t: Tree, x: Cell, s: Tree, y: Cell)
    requires ValidWorld(w) && x in t && y in s && FitsNode(w, x, s, y) && !Built(w, p, y) && x !in s
    ensures NodeView(w, p, Attach(t, x, s), y)
  {
    hide Refined, ValidWorld, Built, ValidCell;
    assert RemoteKind(w, y) != Internal && RemoteKind(w, y) != Boundary && RemoteKind(w, y) != Bucket;
  }

  lemma AttachOld(w: World, p: nat, t: Tree, x: Cell, s: Tree, y: Cell)
    requires ValidWorld(w) && View(w, p, t) && x in t && y in t && y !in s && t[x].kind == Remote && x !in s
    requires forall z :: z in s ==> z !in t
    ensures NodeView(w, p, Attach(t, x, s), y)
  {
    hide Refined, ValidWorld, Built, FullKind, ValidCell, Linked, Here;
    assert NodeView(w, p, t, y);
    assert NodeView(w, p, t, x);
    KindSays(w, p, x);
  }

  lemma AttachLinked(w: World, p: nat, t: Tree, x: Cell, s: Tree)
    requires ValidWorld(w) && View(w, p, t) && Fits(w, x, s) && x in t && t[x].kind == Remote && x !in s
    ensures Linked(Attach(t, x, s))
  {
    hide Refined, ValidWorld, Built, FullKind, ValidCell, Child, Here, FitsNode, Linked, View;
    var t' := Attach(t, x, s);
    RemoteRoom(w, p, t, x);
    ViewLinked(w, p, t);
    FitsLinked(w, x, s);
    NchildsOk(t);
    NchildsOk(s);
    forall c, i: nat | c in t' && t'[c].nchild > 0 && i < BRANCH ensures Child(c, i) in t' {
      if c in s { KidLinked(s, c); } else if c != x { KidLinked(t, c); }
    }
    MakeLinked(t');
  }

  lemma FitsLinked(w: World, x: Cell, s: Tree)
    requires ValidWorld(w) && Fits(w, x, s)
    ensures Linked(s) && forall i: nat :: i < BRANCH ==> Child(x, i) in s
  {
    hide FitsNode, Linked, ValidWorld;
  }

  lemma RemoteRoom(w: World, p: nat, t: Tree, x: Cell)
    requires ValidWorld(w) && View(w, p, t) && x in t && t[x].kind == Remote
    ensures x.depth < MAX_DEPTH && Refined(w, x)
  {
    hide Refined, ValidWorld, Built, FullKind, ValidCell, Here, Linked;
    assert NodeView(w, p, t, x);
    KindSays(w, p, x);
  }

  lemma NchildsOk(t: Tree)
    requires Linked(t)
    ensures forall c :: c in t ==>
          c.depth <= MAX_DEPTH && (t[c].nchild == 0 || (t[c].nchild == BRANCH && c.depth < MAX_DEPTH))
  {
  }

  lemma MakeLinked(t: Tree)
    requires forall c :: c in t ==>
          c.depth <= MAX_DEPTH && (t[c].nchild == 0 || (t[c].nchild == BRANCH && c.depth < MAX_DEPTH))
    requires forall c, i: nat :: c in t && t[c].nchild > 0 && i < BRANCH ==> Child(c, i) in t
    ensures Linked(t)
  {
  }

  lemma FillKeepsView(w: World, p: nat, t: Tree, x: Cell)
    requires ValidWorld(w) && View(w, p, t) && x in t && t[x].nchild == 0
    ensures View(w, p, Fill(t, x))
  {
    hide Refined, ValidWorld, Built, FullKind, ValidCell, Child, Linked, NodeView;
    var t' := Fill(t, x);
    NchildsOk(t);
    forall c, i: nat | c in t' && t'[c].nchild > 0 && i < BRANCH ensures Child(c, i) in t' {
      KidLinked(t, c);
    }
    MakeLinked(t');
    forall c | c in t' ensures NodeView(w, p, t', c) { FillNode(w, p, t, x, c); }
  }

  lemma FillNode(w: World, p: nat, t: Tree, x: Cell, c: Cell)
    requires ValidWorld(w) && x in t && c in t && NodeView(w, p, t, c)
    ensures NodeView(w, p, Fill(t, x), c)
  {
    hide Refined, ValidWorld, FullKind, ValidCell, Parent;
  }
}
