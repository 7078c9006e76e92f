// The gravity walk a PE really makes: over the part of the tree it holds, for a
// group of buckets at once under a mask, with an explicit stack of fixed size,
// leaving a wait behind at every node still to be fetched.
module GroupWalks {
  import opened TreeKeys
  import opened TreeBuild
  import opened NodeFacts
  import opened GravityWalks

  // filled: the node has its particle array (np > 0 for a Bucket).
  datatype TNode = TNode(kind: NodeType, nchild: nat, filled: bool)
  type Tree = map<Cell, TNode>

  // A suspended walk: the leaf it needs, and the buckets that reached it.  A
  // mask is the set of its bits.
  datatype Wait = Wait(cell: Cell, mask: set<nat>)

  ghost predicate Linked(t: Tree) {
    && (forall c :: c in t ==>
          c.depth <= MAX_DEPTH && (t[c].nchild == 0 || (t[c].nchild == BRANCH && c.depth < MAX_DEPTH)))
    && forall c, i: nat :: c in t && t[c].nchild > 0 && i < BRANCH ==> Child(c, i) in t
  }

  // ---------------- one bucket's walk ----------------

  // Interactions in order, and the nodes to be fetched.
  datatype Out = Out(hits: seq<Hit>, waits: seq<Cell>)

  const NOTHING := Out([], [])

  function Plus(a: Out, b: Out): Out {
    Out(a.hits + b.hits, a.waits + b.waits)
  }

  lemma Regroup(o: Out, met: Out, rest: Out, o': Out, all: Out)
    requires o' == Plus(o, met) && all == Plus(met, rest)
    ensures Plus(o', rest) == Plus(o, all)
  {
  }

  lemma PlusAssociative(a: Out, b: Out, c: Out)
    ensures Plus(Plus(a, b), c) == Plus(a, Plus(b, c))
    ensures Plus(a, NOTHING) == a == Plus(NOTHING, a)
  {
  }

  predicate Enters(opens: Opening, local: bool, t: Tree, b: nat, c: Cell)
    requires c in t
  {
    Keeps(local, t[c].kind) && opens(b, c)
  }

  // What meeting a node adds: the node itself, if it is accepted unopened.
  function Seen(opens: Opening, local: bool, t: Tree, b: nat, c: Cell): seq<Hit>
    requires c in t
  {
    if Keeps(local, t[c].kind) && !opens(b, c) && Applies(local, t[c].kind) then [Approx(c)] else []
  }

  // gravityLeaf
  function AtLeaf(t: Tree, c: Cell): Out
    requires c in t
  {
    match t[c].kind
    case Bucket => Out([Direct(c)], [])
    case RemoteBucket => if t[c].filled then Out([Direct(c)], []) else Out([], [c])
    case Remote => Out([], [c])
    case _ => NOTHING
  }

  function SeenKids(opens: Opening, local: bool, t: Tree, b: nat, c: Cell, n: nat): Out
    requires Linked(t) && c in t && t[c].nchild > 0 && n <= BRANCH
  {
    if n == 0 then NOTHING
    else Plus(SeenKids(opens, local, t, b, c, n - 1), Out(Seen(opens, local, t, b, Child(c, n - 1)), []))
  }

  function BelowKids(opens: Opening, local: bool, t: Tree, b: nat, c: Cell, i: nat): Out
    requires Linked(t) && c in t && t[c].nchild > 0 && i <= BRANCH
    decreases MAX_DEPTH - c.depth, BRANCH - i
  {
    if i == BRANCH then NOTHING
    else Plus(if Enters(opens, local, t, b, Child(c, i)) then Below(opens, local, t, b, Child(c, i)) else NOTHING,
              BelowKids(opens, local, t, b, c, i + 1))
  }

  // Below a node the bucket opened: its children are met in order, then those
  // it opens are walked in order.
  function Below(opens: Opening, local: bool, t: Tree, b: nat, c: Cell): Out
    requires Linked(t) && c in t
    decreases MAX_DEPTH - c.depth, BRANCH + 1
  {
    if t[c].nchild == 0 then AtLeaf(t, c)
    else Plus(SeenKids(opens, local, t, b, c, BRANCH), BelowKids(opens, local, t, b, c, 0))
  }

  // The walk of bucket b alone.
  function Walk(opens: Opening, local: bool, t: Tree, b: nat, c: Cell): Out
    requires Linked(t) && c in t
  {
    Plus(Out(Seen(opens, local, t, b, c), []),
         if Enters(opens, local, t, b, c) then Below(opens, local, t, b, c) else NOTHING)
  }

  // ---------------- the group's stack ----------------

  datatype Frame = Frame(cell: Cell, mask: set<nat>)

  // What is still to come for bucket b; the top is the end.
  ghost function Rest(opens: Opening, local: bool, t: Tree, b: nat, stk: seq<Frame>): Out
    requires Linked(t) && forall f :: f in stk ==> f.cell in t
  {
    if stk == [] then NOTHING
    else
      var f := stk[|stk| - 1];
      Plus(if b in f.mask then Below(opens, local, t, b, f.cell) else NOTHING,
           Rest(opens, local, t, b, stk[..|stk| - 1]))
  }

  // The children to expand, in order, with the buckets that open them.
  ghost function FoldFrom(opens: Opening, local: bool, t: Tree, b: nat, kept: seq<Frame>, i: nat): Out
    requires Linked(t) && (forall f :: f in kept ==> f.cell in t) && i <= |kept|
    decreases |kept| - i
  {
    if i == |kept| then NOTHING
    else Plus(if b in kept[i].mask then Below(opens, local, t, b, kept[i].cell) else NOTHING,
              FoldFrom(opens, local, t, b, kept, i + 1))
  }

  function KidsToExpand(opens: Opening, local: bool, t: Tree, mask: set<nat>, c: Cell, i: nat): (kept: seq<Frame>)
    requires Linked(t) && c in t && t[c].nchild > 0 && i <= BRANCH
    ensures |kept| <= BRANCH - i
    ensures forall f :: f in kept ==> f.cell in t && f.cell.depth == c.depth + 1 && f.mask != {} && f.mask <= mask
    decreases BRANCH - i
  {
    if i == BRANCH then []
    else
      var m := set b | b in mask && Enters(opens, local, t, b, Child(c, i));
      (if m != {} then [Frame(Child(c, i), m)] else []) + KidsToExpand(opens, local, t, mask, c, i + 1)
  }

  lemma {:induction false} FoldCons(opens: Opening, local: bool, t: Tree, b: nat, f: Frame, kept: seq<Frame>, i: nat)
    requires Linked(t) && f.cell in t && (forall g :: g in kept ==> g.cell in t) && i <= |kept|
    ensures FoldFrom(opens, local, t, b, [f] + kept, i + 1) == FoldFrom(opens, local, t, b, kept, i)
    decreases |kept| - i
  {
    hide Below;
    if i < |kept| { FoldCons(opens, local, t, b, f, kept, i + 1); }
  }

  // Expanding the kept children is what bucket b's own walk does next.
  lemma {:induction false} ExpandsOwn(opens: Opening, local: bool, t: Tree, b: nat, mask: set<nat>, c: Cell, i: nat)
    requires Linked(t) && c in t && t[c].nchild > 0 && i <= BRANCH && b in mask
    ensures FoldFrom(opens, local, t, b, KidsToExpand(opens, local, t, mask, c, i), 0)
        == BelowKids(opens, local, t, b, c, i)
    decreases BRANCH - i
  {
    hide Below, Enters, Child, BelowKids, KidsToExpand, Linked;
    ExpandEnd(opens, local, t, b, mask, c);
    if i < BRANCH {
      ExpandsOwn(opens, local, t, b, mask, c, i + 1);
      KidLinked(t, c);
      var m := set x | x in mask && Enters(opens, local, t, x, Child(c, i));
      var rest := KidsToExpand(opens, local, t, mask, c, i + 1);
      assert b in m <==> Enters(opens, local, t, b, Child(c, i));
      ExpandStep(opens, local, t, b, mask, c, i, m);
      if m != {} {
        FoldCons(opens, local, t, b, Frame(Child(c, i), m), rest, 0);
      } else {
        assert [] + rest == rest;
        PlusAssociative(BelowKids(opens, local, t, b, c, i + 1), NOTHING, NOTHING);
      }
    }
  }

  lemma ExpandEnd(opens: Opening, local: bool, t: Tree, b: nat, mask: set<nat>, c: Cell)
    requires Linked(t) && c in t && t[c].nchild > 0
    ensures KidsToExpand(opens, local, t, mask, c, BRANCH) == [] && BelowKids(opens, local, t, b, c, BRANCH) == NOTHING
    ensures FoldFrom(opens, local, t, b, [], 0) == NOTHING
  {
    hide Linked;
  }

  lemma ExpandStep(opens: Opening, local: bool, t: Tree, b: nat, mask: set<nat>, c: Cell, i: nat, m: set<nat>)
    requires Linked(t) && c in t && t[c].nchild > 0 && i < BRANCH && Child(c, i) in t
    requires m == set x | x in mask && Enters(opens, local, t, x, Child(c, i))
    ensures KidsToExpand(opens, local, t, mask, c, i)
         == (if m != {} then [Frame(Child(c, i), m)] else []) + KidsToExpand(opens, local, t, mask, c, i + 1)
    ensures BelowKids(opens, local, t, b, c, i)
         == Plus(if Enters(opens, local, t, b, Child(c, i)) then Below(opens, local, t, b, Child(c, i)) else NOTHING,
                 BelowKids(opens, local, t, b, c, i + 1))
  {
    hide Linked, Below, Enters, Child;
  }

  lemma {:induction false} NotExpanded(opens: Opening, local: bool, t: Tree, b: nat, kept: seq<Frame>, i: nat)
    requires Linked(t) && (forall f :: f in kept ==> f.cell in t && b !in f.mask) && i <= |kept|
    ensures FoldFrom(opens, local, t, b, kept, i) == NOTHING
    decreases |kept| - i
  {
    hide Below;
    if i < |kept| { NotExpanded(opens, local, t, b, kept, i + 1); }
  }

  // Levels below the root of the walk, BRANCH - 1 waiting siblings on each.
  function Slots(levels: int): int {
    if LOG == 1 then levels else 7 * levels
  }

  const STACK_MAX: nat := 64 * BRANCH + 1

  ghost predicate Stacked(t: Tree, root: Cell, stk: seq<Frame>) {
    && (forall f :: f in stk ==> f.cell in t && f.mask != {})
    && forall i :: 0 <= i < |stk| ==>
          root.depth <= stk[i].cell.depth <= MAX_DEPTH && i <= Slots(stk[i].cell.depth - root.depth)
  }

  // No node pushed ever overflows the fixed stack.
  lemma FitsStack(t: Tree, root: Cell, stk: seq<Frame>)
    requires Stacked(t, root, stk)
    ensures |stk| <= Slots(MAX_DEPTH) + 1 < STACK_MAX
  {
    if stk != [] { assert stk[|stk| - 1].cell.depth <= MAX_DEPTH; }
  }

  lemma PushFits(t: Tree, root: Cell, c: Cell, below: seq<Frame>, pushed: seq<Frame>)
    requires Stacked(t, root, below) && |pushed| <= BRANCH && root.depth <= c.depth < MAX_DEPTH
    requires |below| <= Slots(c.depth - root.depth)
    requires forall f :: f in pushed ==> f.cell in t && f.mask != {} && f.cell.depth == c.depth + 1
    ensures Stacked(t, root, below + pushed)
  {
    forall i | 0 <= i < |below + pushed|
      ensures var f := (below + pushed)[i];
            root.depth <= f.cell.depth <= MAX_DEPTH && i <= Slots(f.cell.depth - root.depth)
    {
      if i >= |below| { assert pushed[i - |below|] in pushed; }
    }
  }

  // How many nodes a walk can still meet.
  ghost function SizeFrom(t: Tree, c: Cell, i: nat): nat
    requires Linked(t) && c in t && t[c].nchild > 0 && i <= BRANCH
    decreases MAX_DEPTH - c.depth, BRANCH - i
  {
    if i == BRANCH then 0 else Size(t, Child(c, i)) + SizeFrom(t, c, i + 1)
  }

  ghost function Size(t: Tree, c: Cell): nat
    requires Linked(t) && c in t
    decreases MAX_DEPTH - c.depth, BRANCH + 1
  {
    1 + if t[c].nchild > 0 then SizeFrom(t, c, 0) else 0
  }

  ghost function Sizes(t: Tree, stk: seq<Frame>): nat
    requires Linked(t) && forall f :: f in stk ==> f.cell in t
  {
    if stk == [] then 0 else Size(t, stk[|stk| - 1].cell) + Sizes(t, stk[..|stk| - 1])
  }

  ghost function KeptSizes(t: Tree, kept: seq<Frame>, i: nat): nat
    requires Linked(t) && (forall f :: f in kept ==> f.cell in t) && i <= |kept|
    decreases |kept| - i
  {
    if i == |kept| then 0 else Size(t, kept[i].cell) + KeptSizes(t, kept, i + 1)
  }

  lemma {:induction false} KeptCons(t: Tree, f: Frame, kept: seq<Frame>, i: nat)
    requires Linked(t) && f.cell in t && (forall g :: g in kept ==> g.cell in t) && i <= |kept|
    ensures KeptSizes(t, [f] + kept, i + 1) == KeptSizes(t, kept, i)
    decreases |kept| - i
  {
    hide Size;
    if i < |kept| { KeptCons(t, f, kept, i + 1); }
  }

  lemma {:induction false} KeptSmall(opens: Opening, local: bool, t: Tree, mask: set<nat>, c: Cell, i: nat)
    requires Linked(t) && c in t && t[c].nchild > 0 && i <= BRANCH
    ensures KeptSizes(t, KidsToExpand(opens, local, t, mask, c, i), 0) <= SizeFrom(t, c, i)
    decreases BRANCH - i
  {
    hide Size, Enters;
    if i < BRANCH {
      KeptSmall(opens, local, t, mask, c, i + 1);
      var m := set x | x in mask && Enters(opens, local, t, x, Child(c, i));
      var rest := KidsToExpand(opens, local, t, mask, c, i + 1);
      if m != {} {
        KeptCons(t, Frame(Child(c, i), m), rest, 0);
        assert KidsToExpand(opens, local, t, mask, c, i) == [Frame(Child(c, i), m)] + rest;
      } else {
        assert KidsToExpand(opens, local, t, mask, c, i) == rest;
      }
    }
  }

  // The nodes one bucket waits for.
  function WaitsOf(waits: seq<Wait>, b: nat): seq<Cell> {
    if waits == [] then []
    else WaitsOf(waits[..|waits| - 1], b) + if b in waits[|waits| - 1].mask then [waits[|waits| - 1].cell] else []
  }

  ghost predicate Masked(waits: seq<Wait>) {
    forall x :: x in waits ==> x.mask != {}
  }

  // The loop over the mask's buckets that tests the node for each.
  method Opened(opens: Opening, mask: set<nat>, c: Cell) returns (open: set<nat>)
    ensures open == set b | b in mask && opens(b, c)
  {
    open := {};
    var left := mask;
    while left != {}
      invariant left <= mask && open == set b | b in mask - left && opens(b, c)
      decreases |left|
    {
      var b :| b in left;
      if opens(b, c) { open := open + {b}; }
      left := left - {b};
    }
  }

  class GravityWalker {
    const local: bool
    const opens: Opening
    var hits: map<nat, seq<Hit>>
    var waits: seq<Wait>

    constructor (isLocal: bool, opening: Opening)
      ensures local == isLocal && opens == opening && hits == map[] && waits == []
    {
      local, opens, hits, waits := isLocal, opening, map[], [];
    }

    function Got(b: nat): seq<Hit>
      reads this`hits
    {
      if b in hits then hits[b] else []
    }

    ghost function So(b: nat): Out
      reads this
    {
      Out(Got(b), WaitsOf(waits, b))
    }

    method AddSource(b: nat, h: Hit)
      modifies this`hits
      ensures forall x :: Got(x) == old(Got(x)) + if x == b then [h] else []
    {
      hits := hits[b := Got(b) + [h]];
    }

    // Meets node c with the buckets in mask: returns those that open it; every
    // other bucket applies it, unless it is left to the other walk.
    method Visit(t: Tree, c: Cell, mask: set<nat>) returns (open: set<nat>)
      requires c in t
      modifies this`hits
      ensures open == set b | b in mask && Enters(opens, local, t, b, c)
      ensures forall b :: Got(b) == old(Got(b)) + if b in mask then Seen(opens, local, t, b, c) else []
    {
      hide Got;
      open := {};
      if !Keeps(local, t[c].kind) {
        return;
      }
      open := Opened(opens, mask, c);
      if Applies(local, t[c].kind) {
        ApplyNode(c, mask - open);
      }
    }

    // The buckets left after the opening test apply the node.
    method ApplyNode(c: Cell, mask: set<nat>)
      modifies this`hits
      ensures forall b :: Got(b) == old(Got(b)) + if b in mask then [Approx(c)] else []
    {
      var left := mask;
      while left != {}
        invariant left <= mask
        invariant forall b :: Got(b) == old(Got(b)) + if b in mask - left then [Approx(c)] else []
        decreases |left|
      {
        var b :| b in left;
        AddSource(b, Approx(c));
        left := left - {b};
      }
    }

    method ApplyParticles(c: Cell, mask: set<nat>)
      modifies this`hits
      ensures forall b :: Got(b) == old(Got(b)) + if b in mask then [Direct(c)] else []
    {
      var left := mask;
      while left != {}
        invariant left <= mask
        invariant forall b :: Got(b) == old(Got(b)) + if b in mask - left then [Direct(c)] else []
        decreases |left|
      {
        var b :| b in left;
        AddSource(b, Direct(c));
        left := left - {b};
      }
    }

    method Suspend(c: Cell, mask: set<nat>)
      requires mask != {} && Masked(waits)
      modifies this`waits
      ensures Masked(waits) && forall b :: WaitsOf(waits, b) == old(WaitsOf(waits, b)) + if b in mask then [c] else []
      ensures waits == old(waits) + [Wait(c, mask)]
    {
      assert (waits + [Wait(c, mask)])[..|waits|] == waits;
      waits := waits + [Wait(c, mask)];
    }

    // No leaf is Internal or Boundary: see NodeView in TreeViews.
    method GravityLeaf(t: Tree, c: Cell, mask: set<nat>)
      requires c in t && mask != {} && Masked(waits)
      modifies this`hits, this`waits
      ensures Masked(waits) && forall b :: So(b) == Plus(old(So(b)), if b in mask then AtLeaf(t, c) else NOTHING)
    {
      match t[c].kind {
        case EmptyBucket => return;
        case RemoteEmptyBucket => return;
        case Bucket => ApplyParticles(c, mask);
        case RemoteBucket =>
          if !t[c].filled {
            Suspend(c, mask);
            return;
          }
          ApplyParticles(c, mask);
        case Remote => Suspend(c, mask);
        case _ =>
      }
    }

    // Meets every child of c; returns those to expand, in order.
    method VisitChildren(t: Tree, c: Cell, mask: set<nat>) returns (kept: seq<Frame>)
      requires Linked(t) && c in t && t[c].nchild > 0
      modifies this`hits
      ensures kept == KidsToExpand(opens, local, t, mask, c, 0)
      ensures forall b :: Got(b) == old(Got(b)) + MetKids(opens, local, t, mask, b, c, BRANCH)
    {
      hide Seen, Enters, MetKids, KidsToExpand, Linked, Child, Got;
      KidLinked(t, c);
      kept := [];
      var i := 0;
      NoneMet(opens, local, t, mask, c);
      while i < t[c].nchild
        invariant i <= BRANCH
        invariant kept + KidsToExpand(opens, local, t, mask, c, i) == KidsToExpand(opens, local, t, mask, c, 0)
        invariant forall b :: Got(b) == old(Got(b)) + MetKids(opens, local, t, mask, b, c, i)
      {
        var m := Visit(t, Child(c, i), mask);
        MetOne(opens, local, t, mask, c, i);
        ghost var next := i + 1;
        forall b ensures Got(b) == old(Got(b)) + MetKids(opens, local, t, mask, b, c, next) {
          Appended(old(Got(b)), MetKids(opens, local, t, mask, b, c, i),
                   if b in mask then Seen(opens, local, t, b, Child(c, i)) else []);
        }
        KeptGrow(kept, if m != {} then [Frame(Child(c, i), m)] else [], KidsToExpand(opens, local, t, mask, c, next));
        if m != {} {
          kept := kept + [Frame(Child(c, i), m)];
        }
        i := i + 1;
      }
    }

    // One turn of the walk's loop: the top frame is taken and its children met.
    method Turn(t: Tree, root: Cell, nodeStk: array<Cell>, maskStk: array<set<nat>>, top: nat, ghost stk: seq<Frame>)
      returns (top': nat, ghost stk': seq<Frame>)
      requires Linked(t) && Stacked(t, root, stk) && Mirrors(nodeStk, maskStk, top, stk) && top > 0 && Masked(waits)
      modifies this`hits, this`waits, nodeStk, maskStk
      ensures Stacked(t, root, stk') && Mirrors(nodeStk, maskStk, top', stk') && Masked(waits)
      ensures forall b :: Plus(So(b), Rest(opens, local, t, b, stk')) == Plus(old(So(b)), Rest(opens, local, t, b, stk))
      ensures Sizes(t, stk') < Sizes(t, stk)
    {
      hide Below, Size, Slots, Linked, KidsToExpand, MetKids, Rest, Sizes, AtLeaf, Masked;
      var parent, parentMask := nodeStk[top - 1], maskStk[top - 1];
      ghost var below := stk[..top - 1];
      TakeTop(opens, local, t, root, stk);
      if t[parent].nchild == 0 {
        GravityLeaf(t, parent, parentMask);
        top', stk' := top - 1, below;
        LeafTaken(opens, local, t, stk);
        forall b
          ensures Plus(So(b), Rest(opens, local, t, b, stk')) == Plus(old(So(b)), Rest(opens, local, t, b, stk))
        {
          Regroup(old(So(b)), if b in parentMask then AtLeaf(t, parent) else NOTHING, Rest(opens, local, t, b, stk'),
                  So(b), Rest(opens, local, t, b, stk));
        }
      } else {
        var kept := VisitChildren(t, parent, parentMask);
        top', stk' := PushAll(t, root, parent, nodeStk, maskStk, top - 1, below, kept);
        forall b
          ensures Plus(So(b), Rest(opens, local, t, b, stk')) == Plus(old(So(b)), Rest(opens, local, t, b, stk))
        {
          ParentTaken(opens, local, t, b, stk, stk');
          ghost var met := Out(MetKids(opens, local, t, parentMask, b, parent, BRANCH), []);
          assert So(b) == Plus(old(So(b)), met);
          Regroup(old(So(b)), met, Rest(opens, local, t, b, stk'), So(b), Rest(opens, local, t, b, stk));
        }
        ParentSizes(opens, local, t, stk, stk');
      }
    }

    // The loop, from a root that the buckets in open have opened.  Neither of the
    // two arrays overflows.
    method WalkOpened(t: Tree, root: Cell, open: set<nat>)
      requires Linked(t) && root in t && open != {} && Masked(waits)
      modifies this`hits, this`waits
      ensures Masked(waits)
      ensures forall b :: So(b) == Plus(old(So(b)), Rest(opens, local, t, b, [Frame(root, open)]))
    {
      hide Below, Size, Linked, Seen, Enters, Rest, Walk, Slots;
      RootFits(t, root, open);
      var nodeStk := new Cell[STACK_MAX](_ => ROOT);
      var maskStk: array<set<nat>> := new set<nat>[STACK_MAX](_ => {});
      nodeStk[0], maskStk[0] := root, open;
      var top := 1;
      ghost var stk := [Frame(root, open)];
      while top > 0
        invariant fresh(nodeStk) && fresh(maskStk)
        invariant Mirrors(nodeStk, maskStk, top, stk) && Stacked(t, root, stk) && Masked(waits)
        invariant forall b :: Plus(So(b), Rest(opens, local, t, b, stk))
                    == Plus(old(So(b)), Rest(opens, local, t, b, [Frame(root, open)]))
        decreases Sizes(t, stk)
      {
        top, stk := Turn(t, root, nodeStk, maskStk, top, stk);
      }
      forall b ensures Rest(opens, local, t, b, stk) == NOTHING { NoneOpen(opens, local, t, b, root); }
    }

    // gravityWalk: each bucket of the mask gets exactly what its own walk would
    // have given it, in the same order.
    method GravityWalk(t: Tree, root: Cell, mask: set<nat>)
      requires Linked(t) && root in t && Masked(waits)
      modifies this`hits, this`waits
      ensures Masked(waits)
      ensures forall b :: So(b) == Plus(old(So(b)), if b in mask then Walk(opens, local, t, b, root) else NOTHING)
    {
      hide Below, Linked, Seen, Enters, Rest, Walk;
      var open := Visit(t, root, mask);
      forall b ensures So(b) == Plus(old(So(b)), Out(if b in mask then Seen(opens, local, t, b, root) else [], [])) {
      }
      if open == {} {
        forall b ensures So(b) == Plus(old(So(b)), if b in mask then Walk(opens, local, t, b, root) else NOTHING) {
          StartFrame(opens, local, t, root, mask, open, b);
          NoneOpen(opens, local, t, b, root);
        }
        return;
      }
      WalkOpened(t, root, open);
      forall b ensures So(b) == Plus(old(So(b)), if b in mask then Walk(opens, local, t, b, root) else NOTHING) {
        StartFrame(opens, local, t, root, mask, open, b);
        PlusAssociative(old(So(b)), Out(if b in mask then Seen(opens, local, t, b, root) else [], []),
                        Rest(opens, local, t, b, [Frame(root, open)]));
      }
    }
  }

  lemma TakeTop(opens: Opening, local: bool, t: Tree, root: Cell, stk: seq<Frame>)
    requires Linked(t) && Stacked(t, root, stk) && stk != []
    ensures var f, below := stk[|stk| - 1], stk[..|stk| - 1];
            && f.cell in t && f.mask != {} && Stacked(t, root, below)
            && (t[f.cell].nchild > 0 ==>
                  root.depth <= f.cell.depth < MAX_DEPTH && |below| <= Slots(f.cell.depth - root.depth))
  {
    hide Slots;
    var f := stk[|stk| - 1];
    if t[f.cell].nchild > 0 { KidLinked(t, f.cell); }
  }

  lemma KidLinked(t: Tree, c: Cell)
    requires Linked(t) && c in t && t[c].nchild > 0
    ensures t[c].nchild == BRANCH && c.depth < MAX_DEPTH && forall i: nat :: i < BRANCH ==> Child(c, i) in t
  {
    assert Child(c, 0) in t;
  }

  lemma LeafTaken(opens: Opening, local: bool, t: Tree, stk: seq<Frame>)
    requires Linked(t) && (forall f :: f in stk ==> f.cell in t) && stk != [] && t[stk[|stk| - 1].cell].nchild == 0
    ensures Sizes(t, stk[..|stk| - 1]) < Sizes(t, stk)
    ensures forall b :: Rest(opens, local, t, b, stk)
                     == Plus(if b in stk[|stk| - 1].mask then AtLeaf(t, stk[|stk| - 1].cell) else NOTHING,
                             Rest(opens, local, t, b, stk[..|stk| - 1]))
  {
  }

  lemma {:induction false} RestPushed(opens: Opening, local: bool, t: Tree, b: nat, below: seq<Frame>,
                                      kept: seq<Frame>, i: nat)
    requires Linked(t) && (forall f :: f in below ==> f.cell in t) && (forall f :: f in kept ==> f.cell in t)
    requires i <= |kept|
    ensures forall f :: f in below + Backwards(kept, i) ==> f.cell in t
    ensures Rest(opens, local, t, b, below + Backwards(kept, i))
         == Plus(FoldFrom(opens, local, t, b, kept, i), Rest(opens, local, t, b, below))
    ensures Sizes(t, below + Backwards(kept, i)) == Sizes(t, below) + KeptSizes(t, kept, i)
    decreases |kept| - i
  {
    hide Below, Size, Linked;
    BackwardsIn(kept, i);
    if i == |kept| {
      assert below + [] == below;
    } else {
      RestPushed(opens, local, t, b, below, kept, i + 1);
      var s := below + Backwards(kept, i);
      assert s == below + Backwards(kept, i + 1) + [kept[i]];
      assert s[..|s| - 1] == below + Backwards(kept, i + 1);
      PlusAssociative(if b in kept[i].mask then Below(opens, local, t, b, kept[i].cell) else NOTHING,
                      FoldFrom(opens, local, t, b, kept, i + 1), Rest(opens, local, t, b, below));
    }
  }

  lemma {:induction false} OnlySeen(opens: Opening, local: bool, t: Tree, b: nat, c: Cell, n: nat)
    requires Linked(t) && c in t && t[c].nchild > 0 && n <= BRANCH
    ensures SeenKids(opens, local, t, b, c, n).waits == []
  {
    hide Seen;
    if n > 0 { OnlySeen(opens, local, t, b, c, n - 1); }
  }

  // Replacing a node by its children: the children were met, the rest is below.
  lemma ParentTaken(opens: Opening, local: bool, t: Tree, b: nat, stk: seq<Frame>, stk': seq<Frame>)
    requires Linked(t) && (forall f :: f in stk ==> f.cell in t) && stk != [] && t[stk[|stk| - 1].cell].nchild > 0
    requires var f := stk[|stk| - 1];
             stk' == stk[..|stk| - 1] + Backwards(KidsToExpand(opens, local, t, f.mask, f.cell, 0), 0)
    ensures forall f :: f in stk' ==> f.cell in t
    ensures Plus(Out(MetKids(opens, local, t, stk[|stk| - 1].mask, b, stk[|stk| - 1].cell, BRANCH), []),
                 Rest(opens, local, t, b, stk'))
         == Rest(opens, local, t, b, stk)
  {
    hide Linked, KidsToExpand, SeenKids, BelowKids, AtLeaf, FoldFrom;
    var f, below := stk[|stk| - 1], stk[..|stk| - 1];
    var kept := KidsToExpand(opens, local, t, f.mask, f.cell, 0);
    RestPushed(opens, local, t, b, below, kept, 0);
    OnlySeen(opens, local, t, b, f.cell, BRANCH);
    var r := Rest(opens, local, t, b, below);
    if b in f.mask {
      ExpandsOwn(opens, local, t, b, f.mask, f.cell, 0);
      PlusAssociative(SeenKids(opens, local, t, b, f.cell, BRANCH), BelowKids(opens, local, t, b, f.cell, 0), r);
    } else {
      NotExpanded(opens, local, t, b, kept, 0);
    }
  }

  lemma ParentSizes(opens: Opening, local: bool, t: Tree, stk: seq<Frame>, stk': seq<Frame>)
    requires Linked(t) && (forall f :: f in stk ==> f.cell in t) && stk != [] && t[stk[|stk| - 1].cell].nchild > 0
    requires var f := stk[|stk| - 1];
             stk' == stk[..|stk| - 1] + Backwards(KidsToExpand(opens, local, t, f.mask, f.cell, 0), 0)
    ensures (forall f :: f in stk' ==> f.cell in t) && Sizes(t, stk') < Sizes(t, stk)
  {
    hide KidsToExpand, Linked;
    var f := stk[|stk| - 1];
    var kept := KidsToExpand(opens, local, t, f.mask, f.cell, 0);
    RestPushed(opens, local, t, 0, stk[..|stk| - 1], kept, 0);
    KeptSmall(opens, local, t, f.mask, f.cell, 0);
  }

  lemma KeptGrow(a: seq<Frame>, b: seq<Frame>, c: seq<Frame>)
    ensures a + (b + c) == (a + b) + c && a + [] == a
  {
  }

  lemma Appended(a: seq<Hit>, b: seq<Hit>, c: seq<Hit>)
    ensures (a + b) + c == a + (b + c)
  {
  }

  lemma NoneOpen(opens: Opening, local: bool, t: Tree, b: nat, root: Cell)
    requires Linked(t) && root in t
    ensures Rest(opens, local, t, b, [Frame(root, {})]) == NOTHING
    ensures Rest(opens, local, t, b, []) == NOTHING
  {
    hide Below;
    assert [Frame(root, {})][..0] == [];
  }

  lemma RootFits(t: Tree, root: Cell, open: set<nat>)
    requires Linked(t) && root in t && open != {}
    ensures Stacked(t, root, [Frame(root, open)])
  {
  }

  lemma StartFrame(opens: Opening, local: bool, t: Tree, root: Cell, mask: set<nat>, open: set<nat>, b: nat)
    requires Linked(t) && root in t && open == set x | x in mask && Enters(opens, local, t, x, root)
    ensures Plus(Out(if b in mask then Seen(opens, local, t, b, root) else [], []),
          Rest(opens, local, t, b, [Frame(root, open)]))
         == if b in mask then Walk(opens, local, t, b, root) else NOTHING
  {
    hide Below, Linked, Enters, Seen;
    var stk := [Frame(root, open)];
    assert stk[..0] == [];
    PlusAssociative(Below(opens, local, t, b, root), NOTHING, NOTHING);
    assert b in open <==> b in mask && Enters(opens, local, t, b, root);
  }

  // What meeting the first n children adds for bucket b.
  ghost function MetKids(opens: Opening, local: bool, t: Tree, mask: set<nat>, b: nat, c: Cell, n: nat): seq<Hit>
    requires Linked(t) && c in t && t[c].nchild > 0 && n <= BRANCH
  {
    if b in mask then SeenKids(opens, local, t, b, c, n).hits else []
  }

  lemma NoneMet(opens: Opening, local: bool, t: Tree, mask: set<nat>, c: Cell)
    requires Linked(t) && c in t && t[c].nchild > 0
    ensures forall b :: MetKids(opens, local, t, mask, b, c, 0) == []
  {
  }

  lemma MetOne(opens: Opening, local: bool, t: Tree, mask: set<nat>, c: Cell, i: nat)
    requires Linked(t) && c in t && t[c].nchild > 0 && i < BRANCH
    ensures forall b :: MetKids(opens, local, t, mask, b, c, i + 1)
                     == MetKids(opens, local, t, mask, b, c, i)
                         + if b in mask then Seen(opens, local, t, b, Child(c, i)) else []
    ensures KidsToExpand(opens, local, t, mask, c, i)
         == (var m := set b | b in mask && Enters(opens, local, t, b,
               Child(c, i)); if m != {} then [Frame(Child(c, i), m)] else [])
            + KidsToExpand(opens, local, t, mask, c, i + 1)
  {
    hide Seen, Enters;
  }

  // Pushes the kept children in reverse, so that the first is on top.
  method PushAll(t: Tree, root: Cell, c: Cell, nodeStk: array<Cell>, maskStk: array<set<nat>>, top: nat,
                 ghost below: seq<Frame>, kept: seq<Frame>)
    returns (top': nat, ghost stk': seq<Frame>)
    requires Stacked(t, root, below) && Mirrors(nodeStk, maskStk, top, below)
    requires |kept| <= BRANCH && root.depth <= c.depth < MAX_DEPTH && |below| <= Slots(c.depth - root.depth)
    requires forall f :: f in kept ==> f.cell in t && f.mask != {} && f.cell.depth == c.depth + 1
    modifies nodeStk, maskStk
    ensures stk' == below + Backwards(kept, 0)
    ensures Stacked(t, root, stk') && Mirrors(nodeStk, maskStk, top', stk')
  {
    hide Slots;
    top', stk' := top, below;
    var i := |kept|;
    while i > 0
      invariant 0 <= i <= |kept| && stk' == below + Backwards(kept, i)
      invariant Stacked(t, root, stk') && Mirrors(nodeStk, maskStk, top', stk')
    {
      i := i - 1;
      BackwardsIn(kept, i);
      PushFits(t, root, c, below, Backwards(kept, i));
      FitsStack(t, root, below + Backwards(kept, i));
      nodeStk[top'], maskStk[top'] := kept[i].cell, kept[i].mask;
      top', stk' := top' + 1, stk' + [kept[i]];
    }
  }

  // kept[|kept| - 1], ..., kept[i]
  ghost function Backwards(kept: seq<Frame>, i: nat): seq<Frame>
    requires i <= |kept|
    decreases |kept| - i
  {
    if i == |kept| then [] else Backwards(kept, i + 1) + [kept[i]]
  }

  lemma {:induction false} BackwardsIn(kept: seq<Frame>, i: nat)
    requires i <= |kept|
    ensures |Backwards(kept, i)| == |kept| - i
    ensures forall f :: f in Backwards(kept, i) ==> f in kept
    decreases |kept| - i
  {
    if i < |kept| { BackwardsIn(kept, i + 1); }
  }

  // The two arrays hold the ghost stack.
  ghost predicate Mirrors(nodeStk: array<Cell>, maskStk: array<set<nat>>, top: nat, stk: seq<Frame>)
    reads nodeStk, maskStk
  {
    && |stk| == top <= STACK_MAX && nodeStk.Length == maskStk.Length == STACK_MAX
    && (forall i :: 0 <= i < top ==> nodeStk[i] == stk[i].cell && maskStk[i] == stk[i].mask)
  }
}
