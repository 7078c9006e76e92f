// The moments walk over a freshly built tree: node types, local moments, the
// request for every remote leaf, in one postorder pass.
module MomentsWalk {
  import opened TreeKeys
  import opened Decomposition
  import opened TreeBuild
  import opened NodeFacts
  import opened Moments
  import opened MomentsExchange

  // ---------------- postorder ----------------

  function PostKids(w: World, p: nat, c: Cell, n: nat): seq<Cell>
    requires ValidWorld(w) && c.depth < MAX_DEPTH && n <= BRANCH
    decreases MAX_DEPTH - c.depth, n
  {
    if n == 0 then [] else PostKids(w, p, c, n - 1) + PostOrder(w, p, Child(c, n - 1))
  }

  function PostOrder(w: World, p: nat, c: Cell): seq<Cell>
    requires ValidWorld(w) && c.depth <= MAX_DEPTH
    decreases MAX_DEPTH - c.depth, BRANCH + 1
  {
    (if c.depth < MAX_DEPTH && RefinedAt(w, p, c) then PostKids(w, p, c, BRANCH) else []) + [c]
  }

  ghost function SizeKids(w: World, p: nat, c: Cell, n: nat): nat
    requires ValidWorld(w) && c.depth < MAX_DEPTH && n <= BRANCH
    decreases MAX_DEPTH - c.depth, n
  {
    if n == 0 then 0 else SizeKids(w, p, c, n - 1) + Size(w, p, Child(c, n - 1))
  }

  ghost function Size(w: World, p: nat, c: Cell): nat
    requires ValidWorld(w) && c.depth <= MAX_DEPTH
    decreases MAX_DEPTH - c.depth, BRANCH + 1
  {
    1 + if c.depth < MAX_DEPTH && RefinedAt(w, p, c) then SizeKids(w, p, c, BRANCH) else 0
  }

  // The stack of nodes still to visit, top at the end; `met` marks the nodes
  // whose children are already above them.
  ghost predicate Stacked(nstk: seq<Cell>, met: seq<bool>) {
    && |met| == |nstk|
    && (forall i :: 0 <= i < |nstk| ==> ValidCell(nstk[i]))
    && forall i, j :: 0 <= i < j < |nstk| && !met[i] ==> Hi(nstk[j]) <= Lo(nstk[i])
  }

  ghost predicate Sized(nstk: seq<Cell>, met: seq<bool>) {
    |met| == |nstk| && forall i :: 0 <= i < |nstk| ==> nstk[i].depth <= MAX_DEPTH
  }

  // What is left to visit, the unmet nodes, and how much they hold.
  ghost function Remaining(w: World, p: nat, nstk: seq<Cell>, met: seq<bool>): seq<Cell>
    requires ValidWorld(w) && Sized(nstk, met)
  {
    if nstk == [] then []
    else
      var top := |nstk| - 1;
      (if met[top] then [nstk[top]] else PostOrder(w, p, nstk[top])) + Remaining(w, p, nstk[..top], met[..top])
  }

  ghost function Unmet(nstk: seq<Cell>, met: seq<bool>): seq<Cell>
    requires |met| == |nstk|
  {
    if nstk == [] then []
    else
      var top := |nstk| - 1;
      Unmet(nstk[..top], met[..top]) + if met[top] then [] else [nstk[top]]
  }

  ghost function Sizes(w: World, p: nat, nstk: seq<Cell>, met: seq<bool>): nat
    requires ValidWorld(w) && Sized(nstk, met)
  {
    if nstk == [] then 0
    else
      var top := |nstk| - 1;
      Sizes(w, p, nstk[..top], met[..top]) + if met[top] then 0 else Size(w, p, nstk[top])
  }

  lemma {:induction false} UnmetFrom(nstk: seq<Cell>, met: seq<bool>, c: Cell)
    requires |met| == |nstk| && c in Unmet(nstk, met)
    ensures exists i :: 0 <= i < |nstk| && !met[i] && nstk[i] == c
  {
    var top := |nstk| - 1;
    if met[top] || nstk[top] != c { UnmetFrom(nstk[..top], met[..top], c); }
  }

  // The top of the unmet nodes is the top node exactly when that node's
  // children are not above it yet: the test the two stacks make.
  lemma TopsAgree(nstk: seq<Cell>, met: seq<bool>)
    requires Stacked(nstk, met) && Unmet(nstk, met) != []
    ensures nstk != []
    ensures Unmet(nstk, met)[|Unmet(nstk, met)| - 1] == nstk[|nstk| - 1] <==> !met[|nstk| - 1]
  {
    hide ValidWorld, Lo, Hi;
    var u, top := Unmet(nstk, met), |nstk| - 1;
    UnmetFrom(nstk, met, u[|u| - 1]);
    CellFitsWord(nstk[top]);
  }

  // Children n - 1 down to i, as they are pushed.
  ghost function Pushed(c: Cell, i: nat, n: nat): seq<Cell>
    requires i <= n
    decreases n - i
  {
    if i == n then [] else Pushed(c, i + 1, n) + [Child(c, i)]
  }

  ghost function Falses(n: nat): seq<bool> {
    if n == 0 then [] else Falses(n - 1) + [false]
  }

  ghost function PostKidsFrom(w: World, p: nat, c: Cell, i: nat, n: nat): seq<Cell>
    requires ValidWorld(w) && c.depth < MAX_DEPTH && i <= n <= BRANCH
    decreases n - i
  {
    if i == n then [] else PostOrder(w, p, Child(c, i)) + PostKidsFrom(w, p, c, i + 1, n)
  }

  ghost function SizeKidsFrom(w: World, p: nat, c: Cell, i: nat, n: nat): nat
    requires ValidWorld(w) && c.depth < MAX_DEPTH && i <= n <= BRANCH
    decreases n - i
  {
    if i == n then 0 else Size(w, p, Child(c, i)) + SizeKidsFrom(w, p, c, i + 1, n)
  }

  lemma {:induction false} KidsForward(w: World, p: nat, c: Cell, i: nat, n: nat)
    requires ValidWorld(w) && c.depth < MAX_DEPTH && i <= n <= BRANCH
    ensures PostKids(w, p, c, n) == PostKids(w, p, c, i) + PostKidsFrom(w, p, c, i, n)
    ensures SizeKids(w, p, c, n) == SizeKids(w, p, c, i) + SizeKidsFrom(w, p, c, i, n)
    decreases n - i
  {
    hide ValidWorld, PostOrder, Size;
    if i < n { KidsForward(w, p, c, i + 1, n); }
  }

  lemma {:induction false} ChildrenApart(c: Cell, i: nat, j: nat)
    requires ValidCell(c) && c.depth < MAX_DEPTH && i < j < BRANCH
    ensures Hi(Child(c, i)) <= Lo(Child(c, j))
    decreases j
  {
    hide ValidWorld, Shl;
    ChildSpan(c, i);
    ChildSpan(c, j);
    if i + 1 < j {
      ChildrenApart(c, i, j - 1);
      ChildSpan(c, j - 1);
    }
  }

  lemma {:induction false} PushedHas(c: Cell, i: nat, n: nat, x: Cell)
    requires i <= n && x in Pushed(c, i, n)
    ensures exists k :: i <= k < n && x == Child(c, k)
    decreases n - i
  {
    if x != Child(c, i) { PushedHas(c, i + 1, n, x); }
  }

  // Pushing child i on children n-1..i+1, all above their met parent.
  lemma PushOne(nstk: seq<Cell>, met: seq<bool>, c: Cell, i: nat)
    requires ValidCell(c) && c.depth < MAX_DEPTH && i < BRANCH
    requires Stacked(nstk, met)
    requires forall k :: 0 <= k < |nstk| && !met[k] ==>
          Hi(c) <= Lo(nstk[k]) || exists j :: i < j < BRANCH && nstk[k] == Child(c, j)
    ensures Stacked(nstk + [Child(c, i)], met + [false])
    ensures forall k :: 0 <= k < |nstk + [Child(c, i)]| && !(met + [false])[k] ==>
              Hi(c) <= Lo((nstk + [Child(c, i)])[k]) || exists j: nat ::
                    i <= j < BRANCH && (nstk + [Child(c, i)])[k] == Child(c, j)
  {
    hide ValidWorld, Lo, Hi, Child;
    ChildSpan(c, i);
    forall k | 0 <= k < |nstk| && !met[k] ensures Hi(Child(c, i)) <= Lo(nstk[k]) {
      if !(Hi(c) <= Lo(nstk[k])) {
        var j: nat :| i < j < BRANCH && nstk[k] == Child(c, j);
        ChildrenApart(c, i, j);
      }
    }
  }

  lemma PushOneTop(w: World, p: nat, nstk: seq<Cell>, met: seq<bool>, x: Cell)
    requires ValidWorld(w) && Sized(nstk, met) && x.depth <= MAX_DEPTH
    ensures Remaining(w, p, nstk + [x], met + [false]) == PostOrder(w, p, x) + Remaining(w, p, nstk, met)
    ensures Sizes(w, p, nstk + [x], met + [false]) == Sizes(w, p, nstk, met) + Size(w, p, x)
    ensures Unmet(nstk + [x], met + [false]) == Unmet(nstk, met) + [x]
  {
    hide ValidWorld, PostOrder, Size;
    var s, m := nstk + [x], met + [false];
    assert s[..|s| - 1] == nstk && m[..|m| - 1] == met;
  }

  lemma MeetTop(w: World, p: nat, nstk: seq<Cell>, met: seq<bool>)
    requires ValidWorld(w) && Stacked(nstk, met) && nstk != [] && !met[|nstk| - 1]
    requires Sized(nstk, met)
    ensures var top := |nstk| - 1; var m := met[top := true];
            && Stacked(nstk, m)
            && Remaining(w, p, nstk, m) == [nstk[top]] + Remaining(w, p, nstk[..top], met[..top])
            && Sizes(w, p, nstk, m) == Sizes(w, p, nstk[..top], met[..top])
            && Unmet(nstk, m) == Unmet(nstk[..top], met[..top])
            && forall k :: 0 <= k < |nstk| && !m[k] ==> Hi(nstk[top]) <= Lo(nstk[k])
  {
    hide ValidWorld, PostOrder, Size, Lo, Hi;
    var top := |nstk| - 1;
    assert met[top := true][..top] == met[..top];
  }

  // The stacks with child i of c next to be pushed (n of them pushed).
  ghost predicate Pushing(w: World, p: nat, c: Cell, i: nat, cstk: seq<Cell>, nstk: seq<Cell>, met: seq<bool>,
                          rest: seq<Cell>, held: nat)
    requires ValidWorld(w) && c.depth < MAX_DEPTH && i <= BRANCH
  {
    && Stacked(nstk, met) && Sized(nstk, met) && cstk == Unmet(nstk, met)
    && (forall x :: x in nstk ==> Built(w, p, x))
    && (forall k :: 0 <= k < |nstk| && !met[k] ==>
          Hi(c) <= Lo(nstk[k]) || exists j: nat :: i <= j < BRANCH && nstk[k] == Child(c, j))
    && Remaining(w, p, nstk, met) == PostKidsFrom(w, p, c, i, BRANCH) + [c] + rest
    && Sizes(w, p, nstk, met) == SizeKidsFrom(w, p, c, i, BRANCH) + held
  }

  method PushChildren(w: World, p: nat, c: Cell, cstk0: seq<Cell>, nstk0: seq<Cell>, ghost met0: seq<bool>,
                      ghost rest: seq<Cell>, ghost held: nat)
    returns (cstk: seq<Cell>, nstk: seq<Cell>, ghost met: seq<bool>)
    requires ValidWorld(w) && Built(w, p, c) && c.depth <= MAX_DEPTH && RefinedAt(w, p, c)
    requires c.depth < MAX_DEPTH ==> Pushing(w, p, c, BRANCH, cstk0, nstk0, met0, rest, held)
    ensures c.depth < MAX_DEPTH && Stacked(nstk, met) && Sized(nstk, met) && cstk == Unmet(nstk, met)
    ensures forall x :: x in nstk ==> Built(w, p, x)
    ensures Remaining(w, p, nstk, met) == PostKids(w, p, c, BRANCH) + [c] + rest
    ensures Sizes(w, p, nstk, met) == SizeKids(w, p, c, BRANCH) + held
  {
    hide ValidWorld, PostOrder, Lo, Hi, RefinedAt, LocalFrom, Size, Remaining, Sizes, Unmet, Child, Stacked, Built;
    BuiltValid(w, p, c);
    RefinedAtHasRoom(w, p, c);
    cstk, nstk, met := cstk0, nstk0, met0;
    var i := BRANCH;
    while i > 0
      invariant 0 <= i <= BRANCH && Pushing(w, p, c, i, cstk, nstk, met, rest, held)
    {
      i := i - 1;
      var child := Child(c, i);
      ChildBuilt(w, p, c, i);
      PushOne(nstk, met, c, i);
      PushOneTop(w, p, nstk, met, child);
      cstk, nstk, met := cstk + [child], nstk + [child], met + [false];
    }
    KidsForward(w, p, c, 0, BRANCH);
  }

  ghost predicate Walking(w: World, p: nat, cstk: seq<Cell>, nstk: seq<Cell>, met: seq<bool>, visited: seq<Cell>)
    requires ValidWorld(w)
  {
    && Stacked(nstk, met) && Sized(nstk, met) && cstk == Unmet(nstk, met)
    && (forall c :: c in nstk ==> Built(w, p, c))
    && visited + Remaining(w, p, nstk, met) == PostOrder(w, p, ROOT)
  }

  lemma PopTop(w: World, p: nat, nstk: seq<Cell>, met: seq<bool>)
    requires ValidWorld(w) && Stacked(nstk, met) && Sized(nstk, met) && nstk != []
    ensures var top := |nstk| - 1;
            && Stacked(nstk[..top], met[..top]) && Sized(nstk[..top], met[..top])
            && Remaining(w, p, nstk, met)
               == (if met[top] then [nstk[top]] else PostOrder(w, p, nstk[top])) + Remaining(w, p, nstk[..top],
                     met[..top])
            && Unmet(nstk, met) == Unmet(nstk[..top], met[..top]) + (if met[top] then [] else [nstk[top]])
            && Sizes(w, p, nstk, met) == Sizes(w, p, nstk[..top], met[..top])
                + if met[top] then 0 else Size(w, p, nstk[top])
  {
    hide ValidWorld, PostOrder, Size, Lo, Hi;
  }

  lemma PopSub(w: World, p: nat, nstk: seq<Cell>)
    requires ValidWorld(w) && nstk != [] && forall c :: c in nstk ==> Built(w, p, c)
    ensures forall c :: c in nstk[..|nstk| - 1] ==> Built(w, p, c)
    ensures Built(w, p, nstk[|nstk| - 1])
  {
    hide ValidWorld, Built;
    assert nstk[|nstk| - 1] in nstk;
  }

  // One turn of the main loop.
  method Turn(w: World, p: nat, nodes: map<Cell, Node>, cstk0: seq<Cell>, nstk0: seq<Cell>, ghost met0: seq<bool>,
              visited0: seq<Cell>)
    returns (cstk: seq<Cell>, nstk: seq<Cell>, ghost met: seq<bool>, visited: seq<Cell>)
    requires ValidWorld(w) && TreeRight(w, p, LocalFrom(w.pieces, p), nodes)
    requires Walking(w, p, cstk0, nstk0, met0, visited0) && cstk0 != []
    ensures Walking(w, p, cstk, nstk, met, visited)
    ensures Sizes(w, p, nstk, met) < Sizes(w, p, nstk0, met0)
         || (Sizes(w, p, nstk, met) == Sizes(w, p, nstk0, met0) && |nstk| < |nstk0|)
  {
    hide ValidWorld, PostOrder, PostKids, SizeKids, Lo, Hi, RefinedAt, LocalFrom, NodeRight, Size, Remaining, Unmet,
      Sizes, Stacked, Built;
    cstk, nstk, met, visited := cstk0, nstk0, met0, visited0;
    TopsAgree(nstk, met);
    PopTop(w, p, nstk, met);
    PopSub(w, p, nstk);
    var c, n := cstk[|cstk| - 1], nstk[|nstk| - 1];
    ghost var top := |nstk| - 1;
    if c != n {
      visited := visited + [n];
      nstk, met := nstk[..|nstk| - 1], met[..|nstk| - 1];
      return;
    }
    ExploredSize(w, p, c);
    cstk := cstk[..|cstk| - 1];
    if nodes[c].nchild > 0 {
      MeetTop(w, p, nstk, met);
      cstk, nstk, met := PushChildren(w, p, c, cstk, nstk, met[top := true],
                                      Remaining(w, p, nstk[..top], met[..top]), Sizes(w, p, nstk[..top], met[..top]));
    } else {
      visited := visited + [n];
      nstk, met := nstk[..|nstk| - 1], met[..|nstk| - 1];
    }
  }

  // Traversal_defs.h postorderTraversal.  The program's second stack nstk holds
  // every node still to visit; cstk holds those whose children it has yet to
  // push.  `met` says the same about each entry of nstk.
  method PostorderTraversal(w: World, p: nat, nodes: map<Cell, Node>) returns (visited: seq<Cell>)
    requires ValidWorld(w) && TreeRight(w, p, LocalFrom(w.pieces, p), nodes)
    ensures visited == PostOrder(w, p, ROOT)
  {
    hide ValidWorld, PostOrder, Lo, Hi, RefinedAt, LocalFrom, NodeRight, Size, TreeRight, Built, Stacked;
    var cstk, nstk := [ROOT], [ROOT];
    ghost var met := [false];
    visited := [];
    StartStacks(w, p);
    while cstk != []
      invariant Walking(w, p, cstk, nstk, met, visited)
      decreases Sizes(w, p, nstk, met), |nstk|
    {
      cstk, nstk, met, visited := Turn(w, p, nodes, cstk, nstk, met, visited);
    }
    AllMet(nstk, met);
    while nstk != []
      invariant Sized(nstk, met) && forall i :: 0 <= i < |met| ==> met[i]
      invariant visited + Remaining(w, p, nstk, met) == PostOrder(w, p, ROOT)
    {
      visited := visited + [nstk[|nstk| - 1]];
      nstk, met := nstk[..|nstk| - 1], met[..|nstk| - 1];
    }
  }

  lemma StartStacks(w: World, p: nat)
    requires ValidWorld(w)
    ensures Stacked([ROOT], [false]) && Sized([ROOT], [false]) && Unmet([ROOT], [false]) == [ROOT] && Built(w, p, ROOT)
    ensures Remaining(w, p, [ROOT], [false]) == PostOrder(w, p, ROOT)
  {
    hide ValidWorld, PostOrder, Size;
    PushOneTop(w, p, [], [], ROOT);
    assert [] + [ROOT] == [ROOT];
    var none: seq<bool> := [];
    assert none + [false] == [false];
  }

  lemma ChildBuilt(w: World, p: nat, c: Cell, i: nat)
    requires ValidWorld(w) && Built(w, p, c) && c.depth < MAX_DEPTH && RefinedAt(w, p, c) && i < BRANCH
    ensures Built(w, p, Child(c, i))
  {
    hide ValidWorld, RefinedAt;
    ChildParent(c, i);
  }

  lemma ExploredSize(w: World, p: nat, c: Cell)
    requires ValidWorld(w) && Built(w, p, c)
    ensures c.depth <= MAX_DEPTH
    ensures RefinedAt(w, p, c) ==> c.depth < MAX_DEPTH && PostOrder(w, p, c) == PostKids(w, p, c, BRANCH) + [c]
    ensures RefinedAt(w, p, c) ==> c.depth < MAX_DEPTH && Size(w, p, c) == 1 + SizeKids(w, p, c, BRANCH)
    ensures !RefinedAt(w, p, c) ==> PostOrder(w, p, c) == [c] && Size(w, p, c) == 1
  {
    hide ValidWorld, PostKids, SizeKids, LocalHere, MultiOwner;
    BuiltValid(w, p, c);
    if RefinedAt(w, p, c) { RefinedAtHasRoom(w, p, c); }
  }

  lemma {:induction false} AllMet(nstk: seq<Cell>, met: seq<bool>)
    requires |met| == |nstk| && Unmet(nstk, met) == []
    ensures forall i :: 0 <= i < |met| ==> met[i]
  {
    if nstk != [] { AllMet(nstk[..|nstk| - 1], met[..|nstk| - 1]); }
  }

  // ---------------- the order visits every node once ----------------

  lemma {:induction false} SetInside(w: World, p: nat, c: Cell, x: Cell)
    requires ValidWorld(w) && ValidCell(c) && x in BuiltSet(w, p, c)
    ensures ValidCell(x) && c.depth <= x.depth && Lo(c) <= Lo(x) < Hi(x) <= Hi(c)
    decreases MAX_DEPTH - c.depth
  {
    hide ValidWorld, RefinedAt, Lo, Hi;
    CellFitsWord(c);
    if x != c {
      var j := BelowWhich(w, p, c, x, BRANCH);
      SetInside(w, p, Child(c, j), x);
      ChildSpan(c, j);
    }
  }

  lemma {:induction false} PostKidsAre(w: World, p: nat, c: Cell, n: nat)
    requires ValidWorld(w) && ValidCell(c) && c.depth < MAX_DEPTH && n <= BRANCH
    ensures (forall x :: x in PostKids(w, p, c, n) <==> x in BuiltBelow(w, p, c, n))
    ensures Distinct(PostKids(w, p, c, n))
    decreases MAX_DEPTH - c.depth, n
  {
    hide ValidWorld, RefinedAt, BuiltSet, PostOrder, Lo, Hi;
    if n > 0 {
      ChildValid(c, n - 1);
      PostKidsAre(w, p, c, n - 1);
      PostOrderIs(w, p, Child(c, n - 1));
      var before, kid := PostKids(w, p, c, n - 1), PostOrder(w, p, Child(c, n - 1));
      forall x | x in before ensures x !in kid {
        var j := BelowWhich(w, p, c, x, n - 1);
        SetInside(w, p, Child(c, j), x);
        ChildrenApart(c, j, n - 1);
        if x in BuiltSet(w, p, Child(c, n - 1)) { SetInside(w, p, Child(c, n - 1), x); }
      }
      DistinctConcat(PostKids(w, p, c, n - 1), PostOrder(w, p, Child(c, n - 1)));
    }
  }

  lemma {:induction false} PostOrderIs(w: World, p: nat, c: Cell)
    requires ValidWorld(w) && ValidCell(c)
    ensures forall x :: x in PostOrder(w, p, c) <==> x in BuiltSet(w, p, c)
    ensures Distinct(PostOrder(w, p, c))
    decreases MAX_DEPTH - c.depth, BRANCH + 1
  {
    hide ValidWorld, RefinedAt;
    if c.depth < MAX_DEPTH && RefinedAt(w, p, c) {
      PostKidsAre(w, p, c, BRANCH);
      forall x | x in PostKids(w, p, c, BRANCH) ensures x != c {
        var j := BelowWhich(w, p, c, x, BRANCH);
        SetInside(w, p, Child(c, j), x);
      }
      DistinctConcat(PostKids(w, p, c, BRANCH), [c]);
    }
  }

  // ---------------- what the walk leaves behind ----------------

  ghost predicate Shallow(s: seq<Cell>) {
    forall c :: c in s ==> c.depth <= MAX_DEPTH
  }

  function RemoteOf(w: World, p: nat, s: seq<Cell>): (r: seq<Cell>)
    requires ValidWorld(w) && Shallow(s)
    ensures forall c :: c in r <==> c in s && RemoteLeaf(w, p, c)
    ensures forall c :: c in r ==> Owned(w, c)
  {
    if s == [] then [] else
      var c := s[|s| - 1];
      RemoteOf(w, p, s[..|s| - 1]) + if RemoteLeaf(w, p, c) then [c] else []
  }

  function BucketsOf(w: World, p: nat, s: seq<Cell>): seq<Cell>
    requires ValidWorld(w) && Shallow(s)
  {
    if s == [] then [] else
      var c := s[|s| - 1];
      BucketsOf(w, p, s[..|s| - 1]) + if LocalLeaf(w, p, c) && Owned(w, c) then [c] else []
  }

  lemma {:induction false} AskedSnoc(w: World, p: nat, a: seq<Cell>, c: Cell)
    requires ValidWorld(w) && c.depth <= MAX_DEPTH && Owned(w, c)
    requires forall x :: x in a ==> x.depth <= MAX_DEPTH && Owned(w, x)
    ensures forall x :: x in a + [c] ==> x.depth <= MAX_DEPTH && Owned(w, x)
    ensures Asked(w, p, a + [c]) == Asked(w, p, a) + Asked(w, p, [c])
  {
    hide ValidWorld, Owned, ServingOwner, Server;
    if a == [] {
      assert a + [c] == [c];
    } else {
      assert (a + [c])[1..] == a[1..] + [c];
      AskedSnoc(w, p, a[1..], c);
    }
  }

  lemma {:induction false} UnservedSnoc(w: World, p: nat, a: seq<Cell>, c: Cell)
    requires ValidWorld(w) && c.depth <= MAX_DEPTH && Owned(w, c)
    requires forall x :: x in a ==> x.depth <= MAX_DEPTH && Owned(w, x)
    ensures forall x :: x in a + [c] ==> x.depth <= MAX_DEPTH && Owned(w, x)
    ensures Unserved(w, p, a + [c]) == Unserved(w, p, a) + Unserved(w, p, [c])
  {
    hide ValidWorld, Owned, ServingOwner, Server;
    if a == [] {
      assert a + [c] == [c];
    } else {
      assert (a + [c])[1..] == a[1..] + [c];
      UnservedSnoc(w, p, a[1..], c);
    }
  }

  lemma {:induction false} RemoteDistinct(w: World, p: nat, s: seq<Cell>)
    requires ValidWorld(w) && Shallow(s) && Distinct(s)
    ensures Distinct(RemoteOf(w, p, s))
  {
    hide ValidWorld, RemoteLeaf, Owned;
    if s != [] {
      var c := s[|s| - 1];
      RemoteDistinct(w, p, s[..|s| - 1]);
      DistinctConcat(RemoteOf(w, p, s[..|s| - 1]), if RemoteLeaf(w, p, c) then [c] else []);
    }
  }

  // The TreePieces of PE p in index order, then a dummy past the last one used.
  ghost predicate LocalPieces(w: World, p: nat, tps: seq<nat>) {
    && |tps| > 0 && tps[|tps| - 1] >= |w.pieces|
    && (forall i, j :: 0 <= i < j < |tps| ==> tps[i] < tps[j])
    && forall t: nat :: t < |w.pieces| ==> (t in tps <==> w.pieces[t].home == p)
  }

  // MomentsWorker's cursor has passed only TreePieces before any owner from x on.
  ghost predicate CursorOk(w: World, tps: seq<nat>, curTP: nat, x: int)
    requires ValidWorld(w)
  {
    curTP < |tps| && forall i :: 0 <= i < curTP ==> tps[i] < FirstHiFrom(w, x, 0)
  }

  lemma CursorLater(w: World, tps: seq<nat>, curTP: nat, x: int, y: int)
    requires ValidWorld(w) && CursorOk(w, tps, curTP, x) && x <= y
    ensures CursorOk(w, tps, curTP, y)
  {
    hide ValidWorld, FirstHiFrom;
    BoundariesMonotone(w, x, y);
  }

  class MomentsWorker {
    const peTreePieces: seq<nat>
    var curTP: nat
    var nodes: map<Cell, Node>
    var visited: seq<Cell>
    var buckets: seq<Cell>
    var sent: seq<Msg>
    var emptyRemoteLeaves: seq<Cell>
    var aborted: bool

    constructor (tps: seq<nat>, tree: map<Cell, Node>)
      ensures peTreePieces == tps && nodes == tree && curTP == 0 && !aborted
      ensures visited == [] && buckets == [] && sent == [] && emptyRemoteLeaves == []
    {
      peTreePieces, nodes, curTP, aborted := tps, tree, 0, false;
      visited, buckets, sent, emptyRemoteLeaves := [], [], [], [];
    }

    ghost predicate Logs(w: World, p: nat)
      requires ValidWorld(w)
      reads this
    {
      && Shallow(visited) && !aborted
      && buckets == BucketsOf(w, p, visited)
      && sent == Asked(w, p, RemoteOf(w, p, visited))
      && emptyRemoteLeaves == Unserved(w, p, RemoteOf(w, p, visited))
    }

    method RequestMomentsOf(w: World, p: nat, leaf: Cell)
      requires ValidWorld(w) && leaf in nodes && leaf.depth <= MAX_DEPTH && Owned(w, leaf)
      requires nodes[leaf].ownerStart == OwnerStart(w, leaf) && nodes[leaf].ownerEnd == OwnerEnd(w, leaf)
      modifies this`sent, this`emptyRemoteLeaves
      ensures sent == old(sent) + Asked(w, p, [leaf])
      ensures emptyRemoteLeaves == old(emptyRemoteLeaves) + Unserved(w, p, [leaf])
    {
      var owner := ServingOwnerLoop(w, p, leaf, nodes[leaf].ownerStart, nodes[leaf].ownerEnd);
      if owner < 0 {
        emptyRemoteLeaves := emptyRemoteLeaves + [leaf];
        return;
      }
      sent := sent + [MomentsRequest(w.pieces[owner].home, leaf, p)];
    }

    // setLeafType: which of the three a leaf is, with the TreePiece cursor
    // moving forward only.  Neither abort can happen.
    method SetLeafType(w: World, p: nat, c: Cell)
      requires ValidWorld(w) && LocalPieces(w, p, peTreePieces) && Built(w, p, c) && c.depth <= MAX_DEPTH
      requires c in nodes && !RefinedAt(w, p, c) && NodeRight(w, p, LocalFrom(w.pieces, p), c, nodes[c])
      requires CursorOk(w, peTreePieces, curTP, Lo(c)) && !aborted
      modifies this`curTP, this`nodes, this`buckets, this`sent, this`emptyRemoteLeaves, this`aborted
      ensures CursorOk(w, peTreePieces, curTP, Lo(c)) && !aborted
      ensures nodes == old(nodes)[c := old(nodes)[c].(kind :=
            if RemoteLeaf(w, p, c) then Remote else FinalKind(w, p, c))]
      ensures buckets == old(buckets) + if LocalLeaf(w, p, c) && Owned(w, c) then [c] else []
      ensures sent == old(sent) + if RemoteLeaf(w, p, c) then Asked(w, p, [c]) else []
      ensures emptyRemoteLeaves == old(emptyRemoteLeaves) + if RemoteLeaf(w, p, c) then Unserved(w, p, [c]) else []
    {
      hide ValidWorld, Lo, Hi, RunOf, LocalFrom, Asked, Unserved, ServingOwner, NodeRight, Built, LocalLeaf,
        RemoteLeaf, FinalKind,
        MultiOwner, Owned, OwnerStart, OwnerEnd, RefinedAt;
      var leaf := nodes[c];
      LeafCounts(w, p, c, leaf);
      if leaf.ownerEnd > leaf.ownerStart {
        aborted := aborted || leaf.count > 0;
        nodes := nodes[c := leaf.(kind := Remote)];
        RequestMomentsOf(w, p, c);
        return;
      }
      AdvanceCursor(w, p, c, leaf.ownerStart);
      if peTreePieces[curTP] == leaf.ownerStart {
        nodes := nodes[c := leaf.(kind := if leaf.count > 0 then Bucket else EmptyBucket)];
        buckets := buckets + [c];
      } else {
        if Owned(w, c) { NotAmong(w, p, peTreePieces, curTP, c); }
        if leaf.kind == Invalid {
          aborted := aborted || leaf.count > 0;
          nodes := nodes[c := leaf.(kind := Remote)];
          RequestMomentsOf(w, p, c);
        } else {
          assert nodes[c := leaf.(kind := EmptyBucket)] == nodes;
        }
      }
    }

    // work on a leaf: its type and, if it is ours, its moments and one more
    // ready child for its parent.
    method WorkLeaf(w: World, p: nat, ps: seq<Particle>, c: Cell)
      requires ValidWorld(w) && LocalPieces(w, p, peTreePieces) && ps == LocalFrom(w.pieces, p)
      requires Worked(w, p, ps, visited, nodes) && NextToVisit(w, p, visited, c) && !aborted
      requires !RefinedAt(w, p, c) && c.depth <= MAX_DEPTH && CursorOk(w, peTreePieces, curTP, Lo(c))
      modifies this`curTP, this`nodes, this`buckets, this`sent, this`emptyRemoteLeaves, this`aborted
      ensures c in nodes && Reports(w, p, c, old(nodes), nodes)
      ensures CursorOk(w, peTreePieces, curTP, Lo(c)) && !aborted
      ensures buckets == old(buckets) + BucketsOf(w, p, [c])
      ensures sent == old(sent) + Asked(w, p, RemoteOf(w, p, [c]))
      ensures emptyRemoteLeaves == old(emptyRemoteLeaves) + Unserved(w, p, RemoteOf(w, p, [c]))
    {
      hide ValidWorld, Lo, Hi, LocalFrom, Asked, Unserved, NodeRight, Built, LocalLeaf, RemoteLeaf, FinalKind, CursorOk,
        MultiOwner, Owned, OwnerStart, OwnerEnd, RefinedAt, InitNode, Worked, NextToVisit, LocallyDone, LocalPieces;
      LeafFacts(w, p, ps, visited, nodes, c);
      ghost var before := nodes;
      SetLeafType(w, p, c);
      var node := nodes[c];
      ghost var done := node;
      if node.kind == Bucket || node.kind == EmptyBucket {
        var mass := MassOfParticles(ps, node.first, node.count);
        nodes := nodes[c := node.(mass := node.mass + mass)];
        done := nodes[c];
        if c != ROOT { nodes := nodes[Parent(c) := nodes[Parent(c)].(ready := nodes[Parent(c)].ready + 1)]; }
      }
      LeafWorked(w, p, ps, c, before[c], done);
      LogsOne(w, p, c);
    }

    // work on a node with children.
    method WorkRefined(w: World, p: nat, ps: seq<Particle>, c: Cell)
      requires ValidWorld(w) && Worked(w, p, ps, visited, nodes) && NextToVisit(w, p, visited, c)
      requires RefinedAt(w, p, c)
      modifies this`nodes
      ensures c in nodes && Reports(w, p, c, old(nodes), nodes)
    {
      hide ValidWorld, NodeRight, Built, LocalLeaf, RemoteLeaf, FinalKind, RefinedAt, InitNode, Worked, NextToVisit,
        LocallyDone, SumMass;
      RefinedFacts(w, p, ps, visited, nodes, c);
      ghost var before := nodes;
      var kids := KidNodes(nodes, c);
      var internal := AllLocal(kids);
      nodes := nodes[c := nodes[c].(kind := if internal then Internal else Boundary)];
      ghost var done := nodes[c];
      if internal {
        var mass := MassOfKids(kids);
        nodes := nodes[c := nodes[c].(mass := nodes[c].mass + mass)];
        done := nodes[c];
        if c != ROOT { nodes := nodes[Parent(c) := nodes[Parent(c)].(ready := nodes[Parent(c)].ready + 1)]; }
      }
      RefinedWorked(w, p, ps, visited, before, c, done);
    }

    method Work(w: World, p: nat, ps: seq<Particle>, c: Cell)
      requires ValidWorld(w) && LocalPieces(w, p, peTreePieces) && ps == LocalFrom(w.pieces, p)
      requires Worked(w, p, ps, visited, nodes) && NextToVisit(w, p, visited, c) && Logs(w, p)
      requires !RefinedAt(w, p, c) ==> c.depth <= MAX_DEPTH && CursorOk(w, peTreePieces, curTP, Lo(c))
      modifies this
      ensures visited == old(visited) + [c] && Worked(w, p, ps, visited, nodes) && Logs(w, p)
      ensures if RefinedAt(w, p, c) then curTP == old(curTP)
              else c.depth <= MAX_DEPTH && CursorOk(w, peTreePieces, curTP, Lo(c))
    {
      hide ValidWorld, Lo, Hi, LocalFrom, Asked, Unserved, NodeRight, Built, LocalLeaf, RemoteLeaf, FinalKind, CursorOk,
        RefinedAt, InitNode, Worked, NextToVisit, LocallyDone, LocalPieces, BucketsOf, RemoteOf, Reports;
      VisitFacts(w, p, ps, visited, nodes, c);
      ghost var s, before := visited, nodes;
      if nodes[c].nchild == 0 {
        WorkLeaf(w, p, ps, c);
      } else {
        WorkRefined(w, p, ps, c);
        RefinedLogs(w, p, c);
      }
      WorkedStep(w, p, ps, s, before, c, nodes);
      LogsGrow(w, p, s, c);
      visited := visited + [c];
    }

    method AdvanceCursor(w: World, p: nat, c: Cell, ownerStart: int)
      requires ValidWorld(w) && LocalPieces(w, p, peTreePieces) && c.depth <= MAX_DEPTH
      requires CursorOk(w, peTreePieces, curTP, Lo(c)) && ownerStart <= OwnerStart(w, c)
      requires ownerStart < |w.pieces|
      modifies this`curTP
      ensures CursorOk(w, peTreePieces, curTP, Lo(c)) && ownerStart <= peTreePieces[curTP]
    {
      hide ValidWorld, Lo, FirstHiFrom;
      while ownerStart > peTreePieces[curTP]
        invariant CursorOk(w, peTreePieces, curTP, Lo(c))
        decreases |peTreePieces| - curTP
      {
        curTP := curTP + 1;
      }
    }
  }

  // A leaf's own fields, and what they say about whose leaf it is.
  lemma LeafCounts(w: World, p: nat, c: Cell, n: Node)
    requires ValidWorld(w) && Built(w, p, c) && c.depth <= MAX_DEPTH && !RefinedAt(w, p, c)
    requires NodeRight(w, p, LocalFrom(w.pieces, p), c, n)
    ensures n.count == |LocalHere(w, p, c)|
    ensures n.ownerEnd > n.ownerStart <==> MultiOwner(w, c)
    ensures n.kind == Invalid <==> Owned(w, c)
    ensures Owned(w, c) ==> n.ownerStart == OwnerStart(w, c) && n.ownerEnd == OwnerEnd(w, c)
    ensures !Owned(w, c) ==> n.kind == EmptyBucket && n.ownerStart < 0
    ensures n.ownerStart <= OwnerStart(w, c) && n.ownerStart < |w.pieces|
    ensures MultiOwner(w, c) ==> Owned(w, c) && RemoteLeaf(w, p, c)
    ensures !Owned(w, c) ==> LocalLeaf(w, p, c) && !RemoteLeaf(w, p, c) && FinalKind(w, p, c) == EmptyBucket
    ensures Owned(w, c) && !MultiOwner(w, c) ==>
              if w.pieces[OwnerStart(w, c)].home == p then
                LocalLeaf(w, p, c) && !RemoteLeaf(w, p, c)
                && FinalKind(w, p, c) == if n.count > 0 then Bucket else EmptyBucket
              else !LocalLeaf(w, p, c) && RemoteLeaf(w, p, c)
    ensures RemoteLeaf(w, p, c) ==> n.count == 0
    ensures LocalLeaf(w, p, c) <==> !RemoteLeaf(w, p, c)
  {
    hide ValidWorld, LocalFrom, Lo, Hi, Built;
    BuiltValid(w, p, c);
    CellFitsWord(c);
    RunIsBetween(LocalFrom(w.pieces, p), c, n.first, n.count);
    if !Owned(w, c) { UnownedEmpty(w, p, c); }
    if RemoteLeaf(w, p, c) && LocalHere(w, p, c) != [] { RefinedOrOwn(w, p, c); }
  }

  // Past the cursor there is no TreePiece of this PE owning the leaf.
  lemma NotAmong(w: World, p: nat, tps: seq<nat>, curTP: nat, c: Cell)
    requires ValidWorld(w) && LocalPieces(w, p, tps) && c.depth <= MAX_DEPTH
    requires CursorOk(w, tps, curTP, Lo(c)) && Owned(w, c) && OwnerStart(w, c) < tps[curTP]
    ensures w.pieces[OwnerStart(w, c)].home != p
  {
    forall i | 0 <= i < |tps| ensures tps[i] != OwnerStart(w, c) {
      if i > curTP { assert tps[curTP] < tps[i]; }
    }
  }

  // ---------------- the state of a half-done walk ----------------

  ghost function CountIn(w: World, p: nat, c: Cell, n: nat, s: seq<Cell>): nat
    requires ValidWorld(w) && c.depth < MAX_DEPTH
  {
    if n == 0 then 0
    else CountIn(w, p, c, n - 1, s) + if Child(c, n - 1) in s && LocallyDone(w, p, Child(c, n - 1)) then 1 else 0
  }

  // How many children have reported so far.
  ghost function HeardFrom(w: World, p: nat, s: seq<Cell>, c: Cell): nat
    requires ValidWorld(w) && c.depth <= MAX_DEPTH
  {
    if c.depth < MAX_DEPTH && RefinedAt(w, p, c) then CountIn(w, p, c, BRANCH, s) else 0
  }

  ghost predicate WorkedNode(w: World, p: nat, ps: seq<Particle>, s: seq<Cell>, c: Cell, n: Node)
    requires ValidWorld(w) && c.depth <= MAX_DEPTH
  {
    && (c in s ==> InitNode(w, p, c, n))
    && (c !in s ==> NodeRight(w, p, ps, c, n.(ready := 0)) && n.ready == HeardFrom(w, p, s, c))
  }

  // Visited nodes are as MomentsWorker leaves them; the others are as buildTree
  // left them, except for what their visited children have reported.
  ghost predicate Worked(w: World, p: nat, ps: seq<Particle>, s: seq<Cell>, nodes: map<Cell, Node>)
    requires ValidWorld(w)
  {
    && (forall c :: c in nodes <==> Built(w, p, c))
    && (forall c :: c in nodes ==> c.depth <= MAX_DEPTH && WorkedNode(w, p, ps, s, c, nodes[c]))
    && (forall c :: c in nodes ==> nodes[c].nchild == if RefinedAt(w, p, c) then BRANCH else 0)
  }

  ghost predicate NextToVisit(w: World, p: nat, s: seq<Cell>, c: Cell)
    requires ValidWorld(w)
  {
    && Built(w, p, c) && c !in s
    && (c.depth > 0 ==> Parent(c) !in s)
    && (c.depth < MAX_DEPTH && RefinedAt(w, p, c) ==> forall i: nat :: i < BRANCH ==> Child(c, i) in s)
  }

  // What visiting c does to the table: c as it must be and, if everything below
  // is local, one more ready child for its parent.
  ghost predicate Reports(w: World, p: nat, c: Cell, t: map<Cell, Node>, t': map<Cell, Node>)
    requires ValidWorld(w)
  {
    && c in t && c in t' && c.depth <= MAX_DEPTH && InitNode(w, p, c, t'[c]) && t'[c].nchild == t[c].nchild
    && t' == if c.depth > 0 && Parent(c) in t && LocallyDone(w, p, c)
             then t[c := t'[c]][Parent(c) := t[Parent(c)].(ready := t[Parent(c)].ready + 1)] else t[c := t'[c]]
  }

  method MassOfParticles(ps: seq<Particle>, first: nat, count: nat) returns (mass: real)
    requires first + count <= |ps|
    ensures mass == Mass(ps[first..first + count])
    ensures count == 0 ==> mass == 0.0
    ensures count == 1 ==> mass == ps[first].mass
  {
    mass := 0.0;
    var i := first;
    while i < first + count
      invariant first <= i <= first + count && mass == Mass(ps[first..i])
    {
      MassConcat(ps[first..i], [ps[i]]);
      assert ps[first..i] + [ps[i]] == ps[first..i + 1];
      mass := mass + ps[i].mass;
      i := i + 1;
    }
    if count == 1 { assert ps[first..first + 1] == [ps[first]]; }
  }

  method MassOfKids(kids: seq<Node>) returns (mass: real)
    ensures mass == SumMass(kids)
  {
    mass := 0.0;
    var i := 0;
    while i < |kids|
      invariant i <= |kids| && mass == SumMass(kids[..i])
    {
      assert kids[..i + 1][..i] == kids[..i];
      mass := mass + kids[i].mass;
      i := i + 1;
    }
    assert kids[..i] == kids;
  }

  // setTypeFromChildren
  method AllLocal(kids: seq<Node>) returns (internal: bool)
    ensures internal <==> forall i :: 0 <= i < |kids| ==> LocalKind(kids[i].kind)
  {
    internal := true;
    var i := 0;
    while i < |kids|
      invariant i <= |kids| && internal && forall j :: 0 <= j < i ==> LocalKind(kids[j].kind)
    {
      if !LocalKind(kids[i].kind) {
        return false;
      }
      i := i + 1;
    }
  }

  // ---------------- the order of the walk ----------------

  // Children before parents, and leaves from left to right.
  ghost predicate InOrder(w: World, p: nat, s: seq<Cell>)
    requires ValidWorld(w)
  {
    && (forall c :: c in s ==> c.depth <= MAX_DEPTH)
    && (forall j, i: nat :: 0 <= j < |s| && i < BRANCH && s[j].depth < MAX_DEPTH && RefinedAt(w, p, s[j]) ==>
          Child(s[j], i) in s[..j])
    && forall i, j :: 0 <= i < j < |s| && !RefinedAt(w, p, s[j]) ==> Hi(s[i]) <= Lo(s[j])
  }

  lemma InOrderConcat(w: World, p: nat, a: seq<Cell>, b: seq<Cell>, x: int)
    requires ValidWorld(w) && InOrder(w, p, a) && InOrder(w, p, b)
    requires forall c :: c in a ==> Hi(c) <= x
    requires forall c :: c in b ==> x <= Lo(c)
    ensures InOrder(w, p, a + b)
  {
    hide ValidWorld, RefinedAt, Lo, Hi;
    var s := a + b;
    forall j, i: nat | 0 <= j < |s| && i < BRANCH && s[j].depth < MAX_DEPTH && RefinedAt(w, p, s[j])
      ensures Child(s[j], i) in s[..j]
    {
      if j < |a| {
        assert s[..j] == a[..j];
      } else {
        assert s[..j] == a + b[..j - |a|];
        assert Child(b[j - |a|], i) in b[..j - |a|];
      }
    }
    forall i, j | 0 <= i < j < |s| && !RefinedAt(w, p, s[j]) ensures Hi(s[i]) <= Lo(s[j]) {
      if i < |a| <= j { assert a[i] in a && b[j - |a|] in b; }
    }
  }

  lemma {:induction false} KidsInOrder(w: World, p: nat, c: Cell, n: nat)
    requires ValidWorld(w) && ValidCell(c) && c.depth < MAX_DEPTH && n <= BRANCH
    ensures InOrder(w, p, PostKids(w, p, c, n))
    ensures forall x :: x in PostKids(w, p, c, n) ==>
          x.depth <= MAX_DEPTH && Lo(c) <= Lo(x) && n > 0 && Hi(x) <= Hi(Child(c, n - 1))
    ensures forall i: nat :: i < n ==> Child(c, i) in PostKids(w, p, c, n)
    decreases MAX_DEPTH - c.depth, n
  {
    hide ValidWorld, RefinedAt, PostOrder, Lo, Hi, InOrder, Child;
    if n > 0 {
      ChildSpan(c, n - 1);
      KidsInOrder(w, p, c, n - 1);
      OrderInOrder(w, p, Child(c, n - 1));
      if n > 1 { ChildSpan(c, n - 2); }
      var a, b := PostKids(w, p, c, n - 1), PostOrder(w, p, Child(c, n - 1));
      InOrderConcat(w, p, a, b, Lo(Child(c, n - 1)));
    } else {
      NoneInOrder(w, p);
    }
  }

  lemma NoneInOrder(w: World, p: nat)
    requires ValidWorld(w)
    ensures InOrder(w, p, [])
  {
  }

  lemma {:induction false} OrderInOrder(w: World, p: nat, c: Cell)
    requires ValidWorld(w) && ValidCell(c)
    ensures InOrder(w, p, PostOrder(w, p, c)) && c in PostOrder(w, p, c)
    ensures forall x :: x in PostOrder(w, p, c) ==> x.depth <= MAX_DEPTH && Lo(c) <= Lo(x) && Hi(x) <= Hi(c)
    decreases MAX_DEPTH - c.depth, BRANCH + 1
  {
    hide ValidWorld, RefinedAt, Lo, Hi, PostKids;
    if c.depth < MAX_DEPTH && RefinedAt(w, p, c) {
      KidsInOrder(w, p, c, BRANCH);
      ChildSpan(c, BRANCH - 1);
      var a := PostKids(w, p, c, BRANCH);
      RefinedLast(w, p, a, c);
    } else {
      assert [c][..0] == [];
    }
  }

  lemma RefinedLast(w: World, p: nat, a: seq<Cell>, c: Cell)
    requires ValidWorld(w) && InOrder(w, p, a) && c.depth < MAX_DEPTH && RefinedAt(w, p, c)
    requires forall i: nat :: i < BRANCH ==> Child(c, i) in a
    ensures InOrder(w, p, a + [c])
  {
    hide ValidWorld, RefinedAt, Lo, Hi, Child;
    var s := a + [c];
    forall j, i: nat | 0 <= j < |s| && i < BRANCH && s[j].depth < MAX_DEPTH && RefinedAt(w, p, s[j])
      ensures Child(s[j], i) in s[..j]
    {
      assert s[..j] == a[..j];
      if j == |a| { assert s[j] == c && a[..j] == a; }
    }
  }

  // ---------------- one node visited ----------------

  lemma VisitFacts(w: World, p: nat, ps: seq<Particle>, s: seq<Cell>, nodes: map<Cell, Node>, c: Cell)
    requires ValidWorld(w) && Worked(w, p, ps, s, nodes) && NextToVisit(w, p, s, c)
    ensures c in nodes && c.depth <= MAX_DEPTH && c !in s
    ensures nodes[c].nchild == 0 <==> !RefinedAt(w, p, c)
  {
    hide ValidWorld, RefinedAt, Built, NodeRight, InitNode;
  }

  lemma LeafFacts(w: World, p: nat, ps: seq<Particle>, s: seq<Cell>, nodes: map<Cell, Node>, c: Cell)
    requires ValidWorld(w) && Worked(w, p, ps, s, nodes) && NextToVisit(w, p, s, c)
    requires !RefinedAt(w, p, c)
    ensures Built(w, p, c) && c in nodes && c.depth <= MAX_DEPTH && NodeRight(w, p, ps, c, nodes[c])
    ensures nodes[c].nchild == 0
    ensures nodes[c].first + nodes[c].count <= |ps|
    ensures c != ROOT ==> c.depth > 0 && Parent(c) in nodes && Parent(c) != c
    ensures c.depth > 0 ==> c != ROOT
  {
    hide ValidWorld, RefinedAt, OwnersRight;
    assert nodes[c].(ready := 0) == nodes[c];
  }

  lemma LeafWorked(w: World, p: nat, ps: seq<Particle>, c: Cell, n: Node, done: Node)
    requires ValidWorld(w) && ps == LocalFrom(w.pieces, p) && Built(w, p, c) && !RefinedAt(w, p, c)
    requires c.depth <= MAX_DEPTH
    requires NodeRight(w, p, ps, c, n) && n.nchild == 0
    requires done == n.(kind := done.kind, mass := done.mass)
    requires done.kind == if RemoteLeaf(w, p, c) then Remote else FinalKind(w, p, c)
    requires n.first + n.count <= |ps|
    requires done.mass == n.mass + if done.kind == Bucket || done.kind
        == EmptyBucket then Mass(ps[n.first..n.first + n.count]) else 0.0
    ensures InitNode(w, p, c, done)
    ensures LocallyDone(w, p, c) <==> LocalKind(done.kind)
    ensures LocallyDone(w, p, c) <==> done.kind == Bucket || done.kind == EmptyBucket
  {
    hide ValidWorld, RefinedAt, MultiOwner, Lo, Hi, LocalFrom, Built, FinalKind;
    LeafCounts(w, p, c, n);
    BuiltValid(w, p, c);
    CellFitsWord(c);
    if LocalLeaf(w, p, c) {
      RunIsBetween(ps, c, n.first, n.count);
      LocalLeafWhole(w, p, c);
      LocalLeafKind(w, p, c);
    }
  }

  lemma LocalLeafKind(w: World, p: nat, c: Cell)
    requires ValidWorld(w) && c.depth <= MAX_DEPTH && LocalLeaf(w, p, c)
    ensures FinalKind(w, p, c) == Bucket || FinalKind(w, p, c) == EmptyBucket
    ensures LocallyDone(w, p, c) && !RemoteLeaf(w, p, c)
  {
  }

  lemma RefinedFacts(w: World, p: nat, ps: seq<Particle>, s: seq<Cell>, nodes: map<Cell, Node>, c: Cell)
    requires ValidWorld(w) && Worked(w, p, ps, s, nodes) && NextToVisit(w, p, s, c) && RefinedAt(w, p, c)
    ensures c in nodes && c.depth < MAX_DEPTH && ValidCell(c)
    ensures NodeRight(w, p, ps, c, nodes[c].(ready := 0)) && nodes[c].nchild == BRANCH
    ensures nodes[c].ready == CountLocal(w, p, c, BRANCH)
    ensures forall i: nat :: i < BRANCH ==> Child(c, i) in nodes && InitNode(w, p, Child(c, i), nodes[Child(c, i)])
    ensures c != ROOT ==> c.depth > 0 && Parent(c) in nodes && Parent(c) != c
    ensures c.depth > 0 ==> c != ROOT
  {
    hide ValidWorld, RefinedAt, NodeRight, InitNode, LocallyDone;
    BuiltValid(w, p, c);
    RefinedAtHasRoom(w, p, c);
    CountsIn(w, p, c, BRANCH, s);
    forall i: nat | i < BRANCH ensures Child(c, i) in nodes && InitNode(w, p, Child(c, i), nodes[Child(c, i)]) {
      ChildBuilt(w, p, c, i);
      assert Child(c, i) in s;
    }
  }

  lemma {:induction false} CountsIn(w: World, p: nat, c: Cell, n: nat, s: seq<Cell>)
    requires ValidWorld(w) && c.depth < MAX_DEPTH && n <= BRANCH
    requires forall i: nat :: i < BRANCH ==> Child(c, i) in s
    ensures CountIn(w, p, c, n, s) == CountLocal(w, p, c, n)
  {
    hide ValidWorld, LocallyDone;
    if n > 0 { CountsIn(w, p, c, n - 1, s); }
  }

  lemma {:induction false} CountInGrows(w: World, p: nat, c: Cell, n: nat, s: seq<Cell>, x: Cell)
    requires ValidWorld(w) && c.depth < MAX_DEPTH && x !in s && x.depth <= MAX_DEPTH && n <= BRANCH
    ensures CountIn(w, p, c, n, s + [x]) == CountIn(w, p, c, n, s)
         + if x.depth > 0 && Parent(x) == c && Child(c, Slot(x))
             == x && Slot(x) < n && LocallyDone(w, p, x) then 1 else 0
  {
    hide ValidWorld, LocallyDone;
    if n > 0 {
      CountInGrows(w, p, c, n - 1, s, x);
      ChildParent(c, n - 1);
    }
  }

  lemma InitLocal(w: World, p: nat, c: Cell, n: Node)
    requires ValidWorld(w) && c.depth <= MAX_DEPTH && InitNode(w, p, c, n)
    requires RefinedAt(w, p, c) ==> c.depth < MAX_DEPTH
    ensures LocalKind(n.kind) <==> LocallyDone(w, p, c)
  {
    hide ValidWorld, RefinedAt, MultiOwner, RangeRight;
  }

  lemma RefinedWorked(w: World, p: nat, ps: seq<Particle>, s: seq<Cell>, nodes: map<Cell, Node>, c: Cell, done: Node)
    requires ValidWorld(w) && Worked(w, p, ps, s, nodes) && NextToVisit(w, p, s, c) && RefinedAt(w, p, c)
    requires c in nodes && done == nodes[c].(kind := done.kind, mass := done.mass)
    requires forall i: nat :: i < BRANCH ==> Child(c, i) in nodes
    requires var kids := KidNodes(nodes, c);
             if forall i :: 0 <= i < |kids| ==> LocalKind(kids[i].kind)
             then done.kind == Internal && done.mass == nodes[c].mass + SumMass(kids)
             else done.kind == Boundary && done.mass == nodes[c].mass
    ensures c.depth <= MAX_DEPTH && InitNode(w, p, c, done)
    ensures LocallyDone(w, p, c) <==> done.kind == Internal
  {
    hide ValidWorld, RefinedAt, InitNode, MultiOwner, Worked, NextToVisit, RangeRight, Built, Lo, Hi, LocalLeaf;
    RefinedFacts(w, p, ps, s, nodes, c);
    var kids := KidNodes(nodes, c);
    forall i: nat | i < BRANCH ensures LocalKind(kids[i].kind) <==> LocallyDone(w, p, Child(c, i)) {
      ChildSpan(c, i);
      if RefinedAt(w, p, Child(c, i)) { RefinedAtHasRoom(w, p, Child(c, i)); }
      InitLocal(w, p, Child(c, i), kids[i]);
    }
    assert forall i :: 0 <= i < |kids| ==> (LocalKind(kids[i].kind) <==> LocallyDone(w, p, Child(c, i)));
    if forall i :: 0 <= i < |kids| ==> LocalKind(kids[i].kind) {
      KidsMass(w, p, c, kids, BRANCH);
      MassOfChildren(w, c);
    }
    RangeFromOwners(w, p, ps, c, nodes[c], done);
    RefinedInit(w, p, c, done);
  }

  lemma RefinedInit(w: World, p: nat, c: Cell, n: Node)
    requires ValidWorld(w) && c.depth < MAX_DEPTH && RefinedAt(w, p, c) && RangeRight(w, c, n)
    requires n.nchild == BRANCH && n.ready == CountLocal(w, p, c, BRANCH)
    requires n.mass == if LocallyDone(w, p, c) then NodeMass(w, c) else 0.0
    requires n.kind == if LocallyDone(w, p, c) then Internal else Boundary
    ensures InitNode(w, p, c, n)
  {
    hide ValidWorld, RefinedAt, LocallyDone, RangeRight;
  }

  lemma RangeFromOwners(w: World, p: nat, ps: seq<Particle>, c: Cell, n: Node, done: Node)
    requires ValidWorld(w) && c.depth <= MAX_DEPTH && NodeRight(w, p, ps, c, n.(ready := 0))
    requires done == n.(kind := done.kind, mass := done.mass)
    ensures RangeRight(w, c, done) && n.mass == 0.0
  {
    hide ValidWorld, RunOf, OwnerStart, OwnerEnd;
  }

  lemma {:induction false} KidsMass(w: World, p: nat, c: Cell, kids: seq<Node>, n: nat)
    requires ValidWorld(w) && c.depth < MAX_DEPTH && n <= |kids|
    requires forall i: nat :: i < |kids| ==> InitNode(w, p, Child(c, i), kids[i]) && LocallyDone(w, p, Child(c, i))
    ensures SumMass(kids[..n]) == ChildMass(w, c, n)
    ensures kids[..|kids|] == kids
  {
    hide ValidWorld, LocallyDone, RangeRight, NodeMass, RefinedAt, FinalKind, RemoteLeaf;
    if n > 0 {
      KidsMass(w, p, c, kids, n - 1);
      assert kids[..n][..n - 1] == kids[..n - 1];
    }
  }

  lemma RefinedLogs(w: World, p: nat, c: Cell)
    requires ValidWorld(w) && c.depth <= MAX_DEPTH && RefinedAt(w, p, c)
    ensures BucketsOf(w, p, [c]) == [] && RemoteOf(w, p, [c]) == []
    ensures Asked(w, p, []) == [] && Unserved(w, p, []) == []
  {
    hide ValidWorld, RefinedAt;
  }

  lemma LogsOne(w: World, p: nat, c: Cell)
    requires ValidWorld(w) && c.depth <= MAX_DEPTH
    ensures BucketsOf(w, p, [c]) == if LocalLeaf(w, p, c) && Owned(w, c) then [c] else []
    ensures RemoteOf(w, p, [c]) == if RemoteLeaf(w, p, c) then [c] else []
    ensures Asked(w, p, []) == [] && Unserved(w, p, []) == []
  {
    hide ValidWorld, LocalLeaf, RemoteLeaf, Owned;
    assert [c][..0] == [];
  }

  lemma LogsGrow(w: World, p: nat, s: seq<Cell>, c: Cell)
    requires ValidWorld(w) && Shallow(s) && c.depth <= MAX_DEPTH
    ensures Shallow(s + [c])
    ensures BucketsOf(w, p, s + [c]) == BucketsOf(w, p, s) + BucketsOf(w, p, [c])
    ensures Asked(w, p, RemoteOf(w, p, s + [c])) == Asked(w, p, RemoteOf(w, p, s)) + Asked(w, p, RemoteOf(w, p, [c]))
    ensures Unserved(w, p, RemoteOf(w, p, s + [c]))
        == Unserved(w, p, RemoteOf(w, p, s)) + Unserved(w, p, RemoteOf(w, p, [c]))
  {
    hide ValidWorld, RemoteLeaf, Owned, LocalLeaf, ServingOwner, Server;
    assert (s + [c])[..|s|] == s && [c][..0] == [];
    assert RemoteOf(w, p, s + [c]) == RemoteOf(w, p, s) + RemoteOf(w, p, [c]);
    if RemoteLeaf(w, p, c) {
      assert RemoteOf(w, p, [c]) == [c];
      AskedSnoc(w, p, RemoteOf(w, p, s), c);
      UnservedSnoc(w, p, RemoteOf(w, p, s), c);
    } else {
      assert RemoteOf(w, p, s + [c]) == RemoteOf(w, p, s);
    }
  }

  lemma WorkedStep(w: World, p: nat, ps: seq<Particle>, s: seq<Cell>, t: map<Cell, Node>, c: Cell, t': map<Cell, Node>)
    requires ValidWorld(w) && Worked(w, p, ps, s, t) && NextToVisit(w, p, s, c) && Reports(w, p, c, t, t')
    ensures Worked(w, p, ps, s + [c], t')
  {
    hide ValidWorld, Built, NodeRight, InitNode, RefinedAt, LocallyDone;
    var s' := s + [c];
    forall x | x in t' ensures WorkedNode(w, p, ps, s', x, t'[x]) {
      assert WorkedNode(w, p, ps, s, x, t[x]);
      if x !in s' {
        HeardFromGrows(w, p, s, x, c);
        assert t'[x].(ready := 0) == t[x].(ready := 0);
      }
    }
  }

  lemma HeardFromGrows(w: World, p: nat, s: seq<Cell>, x: Cell, c: Cell)
    requires ValidWorld(w) && Built(w, p, c) && c !in s && x.depth <= MAX_DEPTH && c.depth <= MAX_DEPTH
    ensures HeardFrom(w, p, s + [c], x) == HeardFrom(w, p, s, x)
         + if c.depth > 0 && x == Parent(c) && LocallyDone(w, p, c) then 1 else 0
  {
    hide ValidWorld, LocallyDone, RefinedAt;
    OwnSlot(w, p, c);
    if x.depth < MAX_DEPTH { CountInGrows(w, p, x, BRANCH, s, c); }
  }

  lemma OwnSlot(w: World, p: nat, c: Cell)
    requires ValidWorld(w) && Built(w, p, c)
    ensures c.depth > 0 ==> Child(Parent(c), Slot(c)) == c && RefinedAt(w, p, Parent(c))
  {
  }

  // ---------------- makeMoments ----------------

  lemma Untouched(w: World, p: nat, nodes: map<Cell, Node>)
    requires ValidWorld(w) && TreeRight(w, p, LocalFrom(w.pieces, p), nodes)
    ensures Worked(w, p, LocalFrom(w.pieces, p), [], nodes)
  {
    hide ValidWorld, RefinedAt, Built, LocalFrom, NodeRight, LocallyDone;
    var ps := LocalFrom(w.pieces, p);
    forall c | c in nodes ensures c.depth <= MAX_DEPTH && WorkedNode(w, p, ps, [], c, nodes[c]) {
      var n := nodes[c];
      ZeroReady(w, p, ps, c, n);
      assert n.(ready := 0) == n;
      if c.depth < MAX_DEPTH { NoneIn(w, p, c, BRANCH); }
    }
  }

  lemma ZeroReady(w: World, p: nat, ps: seq<Particle>, c: Cell, n: Node)
    requires ValidWorld(w) && c.depth <= MAX_DEPTH && NodeRight(w, p, ps, c, n)
    ensures n.ready == 0
  {
  }

  lemma {:induction false} NoneIn(w: World, p: nat, c: Cell, n: nat)
    requires ValidWorld(w) && c.depth < MAX_DEPTH
    ensures CountIn(w, p, c, n, []) == 0
  {
    hide ValidWorld, LocallyDone;
    if n > 0 { NoneIn(w, p, c, n - 1); }
  }

  lemma KidsEarlier(w: World, p: nat, s: seq<Cell>, i: nat, j: nat, k: nat)
    requires ValidWorld(w) && InOrder(w, p, s) && Distinct(s) && j < i < |s| && k < BRANCH && s[j].depth < MAX_DEPTH
    ensures RefinedAt(w, p, s[j]) ==> s[i] != Child(s[j], k)
  {
    hide ValidWorld, RefinedAt, Lo, Hi, Child;
    if RefinedAt(w, p, s[j]) {
      assert Child(s[j], k) in s[..j];
    }
  }

  lemma NextInOrder(w: World, p: nat, s: seq<Cell>, i: nat)
    requires ValidWorld(w) && InOrder(w, p, s) && Distinct(s) && i < |s|
    requires forall c :: c in s <==> Built(w, p, c)
    ensures NextToVisit(w, p, s[..i], s[i])
  {
    hide ValidWorld, RefinedAt, Lo, Hi, Child;
    var c := s[i];
    assert Built(w, p, c) by { hide Built; }
    if c.depth > 0 {
      var q := Parent(c);
      OwnSlot(w, p, c);
      BuiltValid(w, p, q);
      RefinedAtHasRoom(w, p, q);
      forall j | 0 <= j < i ensures s[j] != q {
        if s[j].depth < MAX_DEPTH { KidsEarlier(w, p, s, i, j, Slot(c)); }
      }
    }
  }

  // The cursor is behind every leaf still to come.
  ghost predicate CursorBehind(w: World, p: nat, tps: seq<nat>, curTP: nat, s: seq<Cell>, i: nat)
    requires ValidWorld(w) && i <= |s| && Shallow(s)
  {
    forall j :: i <= j < |s| && !RefinedAt(w, p, s[j]) ==> CursorOk(w, tps, curTP, Lo(s[j]))
  }

  lemma CursorMoves(w: World, p: nat, tps: seq<nat>, old0: nat, curTP: nat, s: seq<Cell>, i: nat)
    requires ValidWorld(w) && InOrder(w, p, s) && Shallow(s) && i < |s| && CursorBehind(w, p, tps, old0, s, i)
    requires forall c :: c in s ==> ValidCell(c)
    requires if RefinedAt(w, p, s[i]) then curTP == old0 else CursorOk(w, tps, curTP, Lo(s[i]))
    ensures CursorBehind(w, p, tps, curTP, s, i + 1)
  {
    hide ValidWorld, RefinedAt, Lo, Hi, CursorOk;
    if !RefinedAt(w, p, s[i]) {
      CellFitsWord(s[i]);
      forall j | i < j < |s| && !RefinedAt(w, p, s[j]) ensures CursorOk(w, tps, curTP, Lo(s[j])) {
        CursorLater(w, tps, curTP, Lo(s[i]), Lo(s[j]));
      }
    }
  }

  lemma CursorStart(w: World, p: nat, tps: seq<nat>, s: seq<Cell>)
    requires ValidWorld(w) && LocalPieces(w, p, tps) && Shallow(s)
    ensures CursorBehind(w, p, tps, 0, s, 0)
  {
    hide ValidWorld, RefinedAt, Lo;
  }

  lemma OrderFacts(w: World, p: nat)
    requires ValidWorld(w)
    ensures var s := PostOrder(w, p, ROOT);
            && InOrder(w, p, s) && Distinct(s) && Shallow(s)
            && (forall c :: c in s <==> Built(w, p, c))
            && (forall c :: c in s ==> ValidCell(c))
  {
    hide ValidWorld, Lo, Hi, RefinedAt, Built, Distinct, InOrder, PostOrder, BuiltSet;
    RootOwners(w);
    assert Built(w, p, ROOT) by { StartStacks(w, p); }
    OrderInOrder(w, p, ROOT);
    PostOrderIs(w, p, ROOT);
    forall c ensures c in PostOrder(w, p, ROOT) <==> Built(w, p, c) {
      if Built(w, p, c) { BuiltInSet(w, p, c); }
      if c in BuiltSet(w, p, ROOT) { BuiltSetBuilt(w, p, ROOT, c); }
    }
    forall c | c in PostOrder(w, p, ROOT) ensures ValidCell(c) {
      BuiltValid(w, p, c);
    }
  }

  // The buckets of this PE, in the order the walk meets them.
  ghost function LocalBuckets(w: World, p: nat): seq<Cell>
    requires ValidWorld(w)
  {
    OrderFacts(w, p);
    BucketsOf(w, p, PostOrder(w, p, ROOT))
  }

  // The whole walk: the table, the buckets, the requests and the leaves nobody
  // can answer for.
  ghost predicate MomentsMade(w: World, p: nat, t: map<Cell, Node>, leaves: seq<Cell>)
    requires ValidWorld(w)
  {
    && TableInit(w, p, t) && LeavesOf(w, p, leaves)
    && (forall c :: c in leaves ==> c.depth <= MAX_DEPTH && Owned(w, c))
  }

  lemma AllWorked(w: World, p: nat, s: seq<Cell>, t: map<Cell, Node>)
    requires ValidWorld(w) && s == PostOrder(w, p, ROOT) && Worked(w, p, LocalFrom(w.pieces, p), s, t) && Shallow(s)
    ensures MomentsMade(w, p, t, RemoteOf(w, p, s))
  {
    hide ValidWorld, RefinedAt, InitNode, NodeRight, RemoteLeaf, Built, PostOrder, Owned;
    OrderFacts(w, p);
    RemoteDistinct(w, p, s);
    forall c | c in t ensures c.depth <= MAX_DEPTH && InitNode(w, p, c, t[c]) {
      assert WorkedNode(w, p, LocalFrom(w.pieces, p), s, c, t[c]);
    }
    TableClosed(w, p, t);
  }

  lemma TableClosed(w: World, p: nat, t: map<Cell, Node>)
    requires ValidWorld(w) && (forall c :: c in t <==> Built(w, p, c))
    requires forall c :: c in t ==> c.depth <= MAX_DEPTH
    requires forall c :: c in t ==> t[c].nchild == if RefinedAt(w, p, c) then BRANCH else 0
    ensures Closed(t)
  {
    hide ValidWorld, RefinedAt, Child;
    forall c, i: nat | c in t && t[c].nchild > 0 && i < BRANCH ensures Child(c, i) in t {
      BuiltValid(w, p, c);
      RefinedAtHasRoom(w, p, c);
      ChildBuilt(w, p, c, i);
    }
  }

  method MakeMoments(w: World, p: nat, tree: map<Cell, Node>, tps: seq<nat>) returns (mw: MomentsWorker)
    requires ValidWorld(w) && TreeRight(w, p, LocalFrom(w.pieces, p), tree) && LocalPieces(w, p, tps)
    ensures mw.visited == PostOrder(w, p, ROOT) && mw.Logs(w, p) && mw.buckets == LocalBuckets(w, p)
    ensures MomentsMade(w, p, mw.nodes, RemoteOf(w, p, mw.visited))
    ensures fresh(mw)
  {
    hide ValidWorld, RefinedAt, Lo, Hi, LocalFrom, TreeRight, NodeRight, Built, LocalPieces, Worked, NextToVisit,
      InOrder, Distinct,
      CursorBehind, CursorOk, PostOrder, MomentsMade, BucketsOf, Asked, Unserved, RemoteOf;
    var order := PostorderTraversal(w, p, tree);
    mw := new MomentsWorker(tps, tree);
    OrderFacts(w, p);
    Untouched(w, p, tree);
    CursorStart(w, p, tps, order);
    NoLogs(w, p);
    ghost var ps := LocalFrom(w.pieces, p);
    var i := 0;
    while i < |order|
      invariant i <= |order| && mw.visited == order[..i] && mw.peTreePieces == tps
      invariant Worked(w, p, ps, mw.visited, mw.nodes) && mw.Logs(w, p)
      invariant CursorBehind(w, p, tps, mw.curTP, order, i)
    {
      NextInOrder(w, p, order, i);
      NextCursor(w, p, tps, mw.curTP, order, i);
      ghost var cursor := mw.curTP;
      mw.Work(w, p, LocalFrom(w.pieces, p), order[i]);
      CursorMoves(w, p, tps, cursor, mw.curTP, order, i);
      assert order[..i] + [order[i]] == order[..i + 1];
      i := i + 1;
    }
    assert order[..i] == order;
    AllWorked(w, p, order, mw.nodes);
  }

  lemma NextCursor(w: World, p: nat, tps: seq<nat>, curTP: nat, s: seq<Cell>, i: nat)
    requires ValidWorld(w) && Shallow(s) && i < |s| && CursorBehind(w, p, tps, curTP, s, i)
    ensures s[i].depth <= MAX_DEPTH && (!RefinedAt(w, p, s[i]) ==> CursorOk(w, tps, curTP, Lo(s[i])))
  {
    hide ValidWorld, RefinedAt, CursorOk;
  }

  lemma NoLogs(w: World, p: nat)
    requires ValidWorld(w)
    ensures BucketsOf(w, p, []) == [] && RemoteOf(w, p, []) == []
    ensures Asked(w, p, RemoteOf(w, p, [])) == [] && Unserved(w, p, RemoteOf(w, p, [])) == []
  {
  }
}
