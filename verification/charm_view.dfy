// A PE's tree during the walks: the part it built, plus what it has fetched so
// far.  Whatever has been fetched, a walk over it plus what its suspended walks
// are owed is always the same whole.
module TreeViews {
  import opened TreeKeys
  import opened Decomposition
  import opened TreeBuild
  import opened NodeFacts
  import opened GravityWalks
  import opened GroupWalks

  ghost predicate NodeView(w: World, p: nat, t: Tree, c: Cell)
    requires ValidWorld(w) && c in t
  {
    && ValidCell(c) && t[c].kind == FullKind(w, p, c)
    && (t[c].nchild > 0 ==> Refined(w, c))
    && (t[c].nchild == 0 ==> t[c].kind != Internal && t[c].kind != Boundary)
    && (t[c].kind == Bucket ==> t[c].filled)
    && (c != ROOT ==> c.depth > 0 && Parent(c) in t && t[Parent(c)].nchild > 0)
  }

  ghost predicate View(w: World, p: nat, t: Tree)
    requires ValidWorld(w)
  {
    && Linked(t) && ROOT in t
    && (forall c :: c in t ==> NodeView(w, p, t, c))
    && (forall c :: Built(w, p, c) ==> c in t)
  }

  // What a bucket suspended at node x has yet to interact with.
  ghost function Owed(w: World, p: nat, opens: Opening, b: nat, x: Cell): multiset<Hit>
    requires ValidWorld(w) && x.depth <= MAX_DEPTH
  {
    if Refined(w, x) && x.depth < MAX_DEPTH then WholeKids(w, p, opens, false, b, x, BRANCH) else multiset{Direct(x)}
  }

  ghost function OwedAll(w: World, p: nat, opens: Opening, b: nat, waits: seq<Cell>): multiset<Hit>
    requires ValidWorld(w) && forall x :: x in waits ==> x.depth <= MAX_DEPTH
  {
    if waits == [] then multiset{}
    else OwedAll(w, p, opens, b, waits[..|waits| - 1]) + Owed(w, p, opens, b, waits[|waits| - 1])
  }

  // A node a walk can be suspended at: its children or particles are missing.
  ghost predicate Missing(t: Tree, x: Cell) {
    x in t && ((t[x].kind == Remote && t[x].nchild == 0)
        || (t[x].kind == RemoteBucket && t[x].nchild == 0 && !t[x].filled))
  }

  ghost predicate AllMissing(t: Tree, waits: seq<Cell>) {
    forall x :: x in waits ==> Missing(t, x) && x.depth <= MAX_DEPTH
  }

  lemma {:induction false} OwedConcat(w: World, p: nat, opens: Opening, b: nat, s: seq<Cell>, r: seq<Cell>)
    requires ValidWorld(w) && (forall x :: x in s ==> x.depth <= MAX_DEPTH)
    requires (forall x :: x in r ==> x.depth <= MAX_DEPTH)
    ensures OwedAll(w, p, opens, b, s + r) == OwedAll(w, p, opens, b, s) + OwedAll(w, p, opens, b, r)
  {
    hide ValidWorld, Owed;
    if r == [] {
      assert s + r == s;
    } else {
      assert (s + r)[..|s + r| - 1] == s + r[..|r| - 1];
      OwedConcat(w, p, opens, b, s, r[..|r| - 1]);
    }
  }

  // An outcome accounts for a whole: what was met plus what is owed.
  ghost predicate Accounts(w: World, p: nat, opens: Opening, local: bool, b: nat, t: Tree, o: Out, whole: multiset<Hit>)
    requires ValidWorld(w)
  {
    && AllMissing(t, o.waits) && (local ==> o.waits == [])
    && multiset(o.hits) + OwedAll(w, p, opens, b, o.waits) == whole
  }

  lemma AccountsPlus(w: World, p: nat, opens: Opening, local: bool, b: nat, t: Tree, x: Out, y: Out, m: multiset<Hit>,
                     n: multiset<Hit>)
    requires ValidWorld(w)
    requires Accounts(w, p, opens, local, b, t, x, m) && Accounts(w, p, opens, local, b, t, y, n)
    ensures Accounts(w, p, opens, local, b, t, Plus(x, y), m + n)
  {
    hide ValidWorld, Owed;
    OwedConcat(w, p, opens, b, x.waits, y.waits);
  }

  lemma NothingAccounts(w: World, p: nat, opens: Opening, local: bool, b: nat, t: Tree)
    requires ValidWorld(w)
    ensures Accounts(w, p, opens, local, b, t, NOTHING, multiset{})
  {
  }

  lemma HitsAccount(w: World, p: nat, opens: Opening, local: bool, b: nat, t: Tree, hits: seq<Hit>)
    requires ValidWorld(w)
    ensures Accounts(w, p, opens, local, b, t, Out(hits, []), multiset(hits))
  {
  }

  ghost function SeenFrom(opens: Opening, local: bool, t: Tree, b: nat, c: Cell, i: nat): multiset<Hit>
    requires Linked(t) && c in t && t[c].nchild > 0 && i <= BRANCH
    decreases BRANCH - i
  {
    if i == BRANCH then multiset{}
    else multiset(Seen(opens, local, t, b, Child(c, i))) + SeenFrom(opens, local, t, b, c, i + 1)
  }

  lemma {:induction false} SeenForward(opens: Opening, local: bool, t: Tree, b: nat, c: Cell, i: nat)
    requires Linked(t) && c in t && t[c].nchild > 0 && i <= BRANCH
    ensures SeenKids(opens, local, t, b, c, BRANCH).waits == []
    ensures multiset(SeenKids(opens, local, t, b, c, BRANCH).hits)
         == multiset(SeenKids(opens, local, t, b, c, i).hits) + SeenFrom(opens, local, t, b, c, i)
    decreases BRANCH - i
  {
    hide ValidWorld, Seen, Linked, Child;
    KidLinked(t, c);
    OnlySeen(opens, local, t, b, c, BRANCH);
    if i < BRANCH {
      SeenForward(opens, local, t, b, c, i + 1);
      var before, here := SeenKids(opens, local, t, b, c, i).hits, Seen(opens, local, t, b, Child(c, i));
      assert SeenKids(opens, local, t, b, c, i + 1).hits == before + here;
      Regroup(multiset(before), multiset(here), SeenFrom(opens, local, t, b, c, i + 1));
    }
  }

  ghost function WholeFrom(w: World, p: nat, opens: Opening, local: bool, b: nat, c: Cell, i: nat): multiset<Hit>
    requires ValidWorld(w) && c.depth < MAX_DEPTH && i <= BRANCH
    decreases BRANCH - i
  {
    if i == BRANCH then multiset{}
    else Whole(w, p, opens, local, b, Child(c, i)) + WholeFrom(w, p, opens, local, b, c, i + 1)
  }

  lemma {:induction false} WholeForward(w: World, p: nat, opens: Opening, local: bool, b: nat, c: Cell, i: nat)
    requires ValidWorld(w) && c.depth < MAX_DEPTH && i <= BRANCH
    ensures WholeKids(w, p, opens, local, b, c, BRANCH)
         == WholeKids(w, p, opens, local, b, c, i) + WholeFrom(w, p, opens, local, b, c, i)
    decreases BRANCH - i
  {
    hide Whole, ValidWorld, Child;
    if i < BRANCH {
      WholeForward(w, p, opens, local, b, c, i + 1);
      Regroup(WholeKids(w, p, opens, local, b, c, i), Whole(w, p, opens, local, b, Child(c, i)),
              WholeFrom(w, p, opens, local, b, c, i + 1));
    }
  }

  lemma Regroup<T>(a: multiset<T>, b: multiset<T>, c: multiset<T>)
    ensures (a + b) + c == a + (b + c)
  {
  }

  lemma WholeEntered(w: World, p: nat, opens: Opening, local: bool, t: Tree, b: nat, c: Cell)
    requires ValidWorld(w) && View(w, p, t) && c in t
    ensures c.depth <= MAX_DEPTH && ValidCell(c)
    ensures !Enters(opens, local, t, b, c) ==> Whole(w, p, opens, local, b, c) == multiset(Seen(opens, local, t, b, c))
    ensures Enters(opens, local, t, b, c) ==>
              Seen(opens, local, t, b, c) == []
              && Whole(w, p, opens, local, b, c)
                 == if Refined(w, c) && c.depth < MAX_DEPTH then WholeKids(w, p, opens, local, b, c,
                       BRANCH) else multiset{Direct(c)}
  {
    hide ValidWorld, FullKind, Refined, Built, WholeKids;
    assert NodeView(w, p, t, c);
  }

  lemma LeafAccounts(w: World, p: nat, opens: Opening, local: bool, t: Tree, b: nat, c: Cell)
    requires ValidWorld(w) && View(w, p, t) && c in t && t[c].nchild == 0 && Enters(opens, local, t, b, c)
    ensures Accounts(w, p, opens, local, b, t, AtLeaf(t, c), Whole(w, p, opens, local, b, c))
  {
    hide Refined, Built, WholeKids, FullKind, Whole, View, Linked, ValidWorld, ValidCell, Lo, Hi;
    WholeEntered(w, p, opens, local, t, b, c);
    LeafKinds(w, p, t, c);
    if AtLeaf(t, c).waits == [c] {
      assert [c][..0] == [];
      assert OwedAll(w, p, opens, b, []) == multiset{};
    }
  }

  lemma LeafKinds(w: World, p: nat, t: Tree, c: Cell)
    requires ValidWorld(w) && View(w, p, t) && c in t && t[c].nchild == 0
    ensures c.depth <= MAX_DEPTH && t[c].kind != Internal && t[c].kind != Boundary
    ensures t[c].kind == Remote ==> Refined(w, c) && c.depth < MAX_DEPTH
    ensures t[c].kind == Bucket || t[c].kind == RemoteBucket ==> !Refined(w, c)
  {
    hide Refined, Built, FullKind, Linked, ValidWorld, Here;
    assert NodeView(w, p, t, c);
    KindSays(w, p, c);
  }

  // The children a bucket opens, from child i on.
  ghost function EnteredFrom(w: World, p: nat, opens: Opening, local: bool, t: Tree, b: nat, c: Cell,
                             i: nat): multiset<Hit>
    requires ValidWorld(w) && Linked(t) && c in t && t[c].nchild > 0 && c.depth < MAX_DEPTH && i <= BRANCH
    decreases BRANCH - i
  {
    if i == BRANCH then multiset{}
    else (if Enters(opens, local, t, b, Child(c, i)) then Whole(w, p, opens, local, b, Child(c, i)) else multiset{})
         + EnteredFrom(w, p, opens, local, t, b, c, i + 1)
  }

  lemma {:induction false} SeenOrEntered(w: World, p: nat, opens: Opening, local: bool, t: Tree, b: nat, c: Cell,
                                         i: nat)
    requires ValidWorld(w) && View(w, p, t) && Linked(t) && c in t && t[c].nchild > 0 && c.depth < MAX_DEPTH
    requires i <= BRANCH
    ensures SeenFrom(opens, local, t, b, c, i) + EnteredFrom(w, p, opens, local, t, b, c, i)
         == WholeFrom(w, p, opens, local, b, c, i)
    decreases BRANCH - i
  {
    hide View, Linked, Seen, Enters, Whole, Child, ValidWorld, ValidCell, WholeKids;
    if i < BRANCH {
      KidLinked(t, c);
      SeenOrEntered(w, p, opens, local, t, b, c, i + 1);
      WholeEntered(w, p, opens, local, t, b, Child(c, i));
    }
  }

  lemma {:induction false} KidsAccount(w: World, p: nat, opens: Opening, local: bool, t: Tree, b: nat, c: Cell, i: nat)
    requires ValidWorld(w) && View(w, p, t) && Linked(t) && c in t && t[c].nchild > 0 && c.depth < MAX_DEPTH
    requires i <= BRANCH
    ensures Accounts(w, p, opens, local, b, t, BelowKids(opens, local, t, b, c, i),
          EnteredFrom(w, p, opens, local, t, b, c, i))
    decreases MAX_DEPTH - c.depth, BRANCH - i
  {
    hide View, Linked, Seen, Enters, Below, Whole, Accounts, Child, ValidWorld, ValidCell;
    if i == BRANCH {
      NothingAccounts(w, p, opens, local, b, t);
    } else {
      KidLinked(t, c);
      ViewLinked(w, p, t);
      KidsAccount(w, p, opens, local, t, b, c, i + 1);
      var k := Child(c, i);
      if Enters(opens, local, t, b, k) {
        BelowAccounts(w, p, opens, local, t, b, k);
        AccountsPlus(w, p, opens, local, b, t, Below(opens, local, t, b, k), BelowKids(opens, local, t, b, c, i + 1),
                     Whole(w, p, opens, local, b, k), EnteredFrom(w, p, opens, local, t, b, c, i + 1));
      } else {
        NothingAccounts(w, p, opens, local, b, t);
        AccountsPlus(w, p, opens, local, b, t, NOTHING, BelowKids(opens, local, t, b, c, i + 1),
                     multiset{}, EnteredFrom(w, p, opens, local, t, b, c, i + 1));
      }
    }
  }

  lemma ViewLinked(w: World, p: nat, t: Tree)
    requires ValidWorld(w) && View(w, p, t)
    ensures Linked(t) && ROOT in t
    ensures forall c :: c in t ==> ValidCell(c) && c.depth <= MAX_DEPTH
  {
    hide ValidWorld, FullKind, Refined, Built;
    forall c | c in t ensures ValidCell(c) && c.depth <= MAX_DEPTH { assert NodeView(w, p, t, c); }
  }

  lemma {:induction false} BelowAccounts(w: World, p: nat, opens: Opening, local: bool, t: Tree, b: nat, c: Cell)
    requires ValidWorld(w) && View(w, p, t) && c in t && Enters(opens, local, t, b, c) && Linked(t)
    requires c.depth <= MAX_DEPTH
    ensures Accounts(w, p, opens, local, b, t, Below(opens, local, t, b, c), Whole(w, p, opens, local, b, c))
    decreases MAX_DEPTH - c.depth, BRANCH + 1
  {
    hide ValidWorld, View, Linked, Seen, Enters, BelowKids, SeenKids, Whole, Accounts, WholeKids, Child;
    if t[c].nchild == 0 {
      LeafAccounts(w, p, opens, local, t, b, c);
    } else {
      ParentFacts(w, p, t, c);
      WholeEntered(w, p, opens, local, t, b, c);
      KidsAccount(w, p, opens, local, t, b, c, 0);
      SeenOrEntered(w, p, opens, local, t, b, c, 0);
      var m := EnteredFrom(w, p, opens, local, t, b, c, 0);
      SeenForward(opens, local, t, b, c, 0);
      NoneYet(w, p, opens, local, t, b, c);
      WholeForward(w, p, opens, local, b, c, 0);
      var seen := SeenKids(opens, local, t, b, c, BRANCH);
      HitsAccount(w, p, opens, local, b, t, seen.hits);
      AccountsPlus(w, p, opens, local, b, t, seen, BelowKids(opens, local, t, b, c, 0), multiset(seen.hits), m);
      assert multiset(seen.hits) + m == Whole(w, p, opens, local, b, c);
    }
  }

  lemma NoneYet(w: World, p: nat, opens: Opening, local: bool, t: Tree, b: nat, c: Cell)
    requires ValidWorld(w) && Linked(t) && c in t && t[c].nchild > 0 && c.depth < MAX_DEPTH
    ensures SeenKids(opens, local, t, b, c, 0) == NOTHING && WholeKids(w, p, opens, local, b, c, 0) == multiset{}
  {
  }

  lemma ParentFacts(w: World, p: nat, t: Tree, c: Cell)
    requires ValidWorld(w) && View(w, p, t) && c in t && t[c].nchild > 0
    ensures Refined(w, c) && c.depth < MAX_DEPTH
  {
    hide ValidWorld, FullKind, Refined, Built;
    assert NodeView(w, p, t, c);
    RefinedHasRoom(w, c);
  }

  // A walk from any node of the tree: what it meets plus what its suspended
  // parts are owed is the whole walk, however little has been fetched.
  lemma WalkAccounts(w: World, p: nat, opens: Opening, local: bool, t: Tree, b: nat, c: Cell)
    requires ValidWorld(w) && View(w, p, t) && c in t && Linked(t) && c.depth <= MAX_DEPTH
    ensures Accounts(w, p, opens, local, b, t, Walk(opens, local, t, b, c), Whole(w, p, opens, local, b, c))
  {
    hide ValidWorld, View, Linked, Seen, Enters, Below, Whole, Accounts, WholeKids;
    WholeEntered(w, p, opens, local, t, b, c);
    if Enters(opens, local, t, b, c) {
      BelowAccounts(w, p, opens, local, t, b, c);
      PlusAssociative(Below(opens, local, t, b, c), NOTHING, NOTHING);
      assert Walk(opens, local, t, b, c) == Below(opens, local, t, b, c);
    } else {
      HitsAccount(w, p, opens, local, b, t, Seen(opens, local, t, b, c));
      assert Walk(opens, local, t, b, c) == Out(Seen(opens, local, t, b, c), []);
    }
  }

  // ---------------- the walk resumed at fetched children ----------------

  function KidWalks(opens: Opening, t: Tree, b: nat, x: Cell, n: nat): Out
    requires Linked(t) && x in t && t[x].nchild > 0 && n <= BRANCH
  {
    if n == 0 then NOTHING
    else Plus(KidWalks(opens, t, b, x, n - 1), Walk(opens, false, t, b, Child(x, n - 1)))
  }

  lemma {:induction false} KidWalksAccount(w: World, p: nat, opens: Opening, t: Tree, b: nat, x: Cell, n: nat)
    requires ValidWorld(w) && View(w, p, t) && Linked(t) && x in t && t[x].nchild > 0 && x.depth < MAX_DEPTH
    requires n <= BRANCH
    ensures Accounts(w, p, opens, false, b, t, KidWalks(opens, t, b, x, n), WholeKids(w, p, opens, false, b, x, n))
  {
    hide ValidWorld, View, Linked, Walk, Whole, Accounts, Child;
    if n == 0 {
      NothingAccounts(w, p, opens, false, b, t);
    } else {
      KidLinked(t, x);
      ViewLinked(w, p, t);
      KidWalksAccount(w, p, opens, t, b, x, n - 1);
      WalkAccounts(w, p, opens, false, t, b, Child(x, n - 1));
      AccountsPlus(w, p, opens, false, b, t, KidWalks(opens, t, b, x, n - 1), Walk(opens, false, t, b, Child(x, n - 1)),
                   WholeKids(w, p, opens, false, b, x, n - 1), Whole(w, p, opens, false, b, Child(x, n - 1)));
    }
  }

  // What a requestor suspended at x does when x arrives.
  function Resumed(opens: Opening, t: Tree, b: nat, x: Cell): Out
    requires Linked(t) && x in t
  {
    if t[x].nchild > 0 then KidWalks(opens, t, b, x, BRANCH) else Out([Direct(x)], [])
  }

  // Resuming pays exactly what was owed.
  lemma ResumedPays(w: World, p: nat, opens: Opening, t: Tree, b: nat, x: Cell)
    requires ValidWorld(w) && View(w, p, t) && Linked(t) && x in t && x.depth <= MAX_DEPTH
    requires t[x].nchild > 0 <==> Refined(w, x)
    ensures Accounts(w, p, opens, false, b, t, Resumed(opens, t, b, x), Owed(w, p, opens, b, x))
  {
    hide ValidWorld, View, Linked, KidWalks, Whole, Accounts, WholeKids, Refined;
    if t[x].nchild > 0 {
      ParentFacts(w, p, t, x);
      KidWalksAccount(w, p, opens, t, b, x, BRANCH);
    } else {
      HitsAccount(w, p, opens, false, b, t, [Direct(x)]);
    }
  }
}
