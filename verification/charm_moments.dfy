// The moments exchange: each PE builds its part of the tree, asks an owner for
// the moments of every remote leaf, answers requests as its own nodes become
// ready, and passes what it learns up its tree until the root is ready.
// Entry methods as functions on one PE's state.
module Moments {
  import opened TreeKeys
  import opened Decomposition
  import opened TreeBuild
  import opened NodeFacts

  // unfilled records the remote leaves whose moments are still owed; the
  // program keeps no such set, and no step below reads it.  readyFired counts
  // calls of treeReady, and aborted is a failed CkAssert or CkAbort.
  datatype PE = PE(built: bool, table: map<Cell, Node>, unfilled: set<Cell>,
                   pending: map<Cell, seq<nat>>, readyFired: nat, aborted: bool)

  datatype Msg = MomentsRequest(dest: nat, cell: Cell, replyTo: nat)
               | MomentsReply(dest: nat, cell: Cell, kind: NodeType, mass: real)

  ghost predicate Closed(t: map<Cell, Node>) {
    && ROOT in t
    && (forall c :: c in t ==> t[c].nchild == 0 || t[c].nchild == BRANCH)
    && (forall c, i: nat :: c in t && t[c].nchild > 0 && i < BRANCH ==> Child(c, i) in t)
    && (forall c :: c in t && c != ROOT ==> c.depth > 0)
    && (forall c {:trigger Parent(c)} :: c in t && c != ROOT ==> Parent(c) in t && t[Parent(c)].nchild == BRANCH)
  }

  function KidNodes(t: map<Cell, Node>, c: Cell): (kids: seq<Node>)
    requires forall i: nat :: i < BRANCH ==> Child(c, i) in t
    ensures |kids| == BRANCH && forall i: nat :: i < BRANCH ==> kids[i] == t[Child(c, i)]
  {
    seq(BRANCH, i requires 0 <= i < BRANCH => t[Child(c, i)])
  }

  function SumMass(kids: seq<Node>): real {
    if kids == [] then 0.0 else SumMass(kids[..|kids| - 1]) + kids[|kids| - 1].mass
  }

  // getMomentsFromChildren, then getOwnershipFromChildren.
  function Combine(t: map<Cell, Node>, c: Cell): Node
    requires Closed(t) && c in t && t[c].nchild > 0
  {
    var kids := KidNodes(t, c);
    var s := ScanChildren(kids);
    t[c].(mass := t[c].mass + SumMass(kids), ownerStart := s.firstStart, ownerEnd := s.lastEnd,
          kind := if s.external then Remote else Boundary)
  }

  // respondToMomentsRequest
  function Respond(c: Cell, n: Node, rs: seq<nat>): (out: seq<Msg>)
    ensures |out| == |rs|
  {
    seq(|rs|, i requires 0 <= i < |rs| => MomentsReply(rs[i], c, n.kind, n.mass))
  }

  function Waiting(pe: PE, c: Cell): seq<nat> {
    if c in pe.pending then pe.pending[c] else []
  }

  // allChildrenMomentsReady
  predicate SaysReady(n: Node) {
    n.ready == n.nchild
  }

  lemma ClosedAfter(t: map<Cell, Node>, c: Cell, n: Node)
    requires Closed(t) && c in t && n.nchild == t[c].nchild
    ensures Closed(t[c := n])
  {
  }

  // childMomentsReady
  function Bump(t: map<Cell, Node>, q: Cell): (t': map<Cell, Node>)
    requires Closed(t) && q in t
    ensures Closed(t') && t' == t[q := t[q].(ready := t[q].ready + 1)]
  {
    ClosedAfter(t, q, t[q].(ready := t[q].ready + 1));
    t[q := t[q].(ready := t[q].ready + 1)]
  }

  // Increments the parent's ready count, and completes the parent if that was
  // the last child.
  function Reported(pe: PE, q: Cell): (pe': PE)
    requires Closed(pe.table) && q in pe.table && pe.table[q].nchild > 0
    ensures Closed(pe'.table) && pe'.table.Keys == pe.table.Keys
  {
    var t := Bump(pe.table, q);
    if SaysReady(t[q]) then
      ClosedAfter(t, q, Combine(t, q));
      pe.(table := t[q := Combine(t, q)], aborted := pe.aborted || ScanChildren(KidNodes(t, q)).gap)
    else
      pe.(table := t)
  }

  // passMomentsUpward
  function PassUp(pe: PE, c: Cell): (r: (PE, seq<Msg>))
    requires Closed(pe.table) && c in pe.table
    ensures Closed(r.0.table) && r.0.table.Keys == pe.table.Keys
    decreases c.depth
  {
    var out := Respond(c, pe.table[c], Waiting(pe, c));
    var pe1 := pe.(pending := pe.pending - {c});
    if c == ROOT then
      (pe1.(readyFired := pe.readyFired + 1), out)
    else
      var q := Parent(c);
      var pe2 := Reported(pe1, q);
      if SaysReady(pe2.table[q]) then
        var up := PassUp(pe2, q);
        (up.0, out + up.1)
      else
        (pe2, out)
  }

  // DataManager::requestMoments
  function OnRequest(pe: PE, c: Cell, r: nat): (PE, seq<Msg>) {
    var rs := Waiting(pe, c) + [r];
    var pe1 := pe.(pending := pe.pending[c := rs]);
    if !pe.built then (pe1, [])
    else if c !in pe.table then (pe1.(aborted := true), [])
    else if SaysReady(pe.table[c]) then (pe1.(pending := pe.pending - {c}), Respond(c, pe.table[c], rs))
    else (pe1, [])
  }

  // DataManager::receiveMoments
  function OnReply(pe: PE, c: Cell, kind: NodeType, mass: real): (PE, seq<Msg>)
    requires pe.built ==> Closed(pe.table)
  {
    if !pe.built || c !in pe.table then (pe.(aborted := true), [])
    else
      var n := pe.table[c].(kind := MakeRemote(kind), mass := mass, first := 0, count := 0);
      ClosedAfter(pe.table, c, n);
      PassUp(pe.(table := pe.table[c := n], unfilled := pe.unfilled - {c}), c)
  }

  // One round of settleEmptyRemoteLeaves: an empty bucket's moments, answered here.
  function Settle(pe: PE, c: Cell): (r: (PE, seq<Msg>))
    requires Closed(pe.table) && c in pe.table
    ensures Closed(r.0.table) && r.0.table.Keys == pe.table.Keys
  {
    var n := pe.table[c].(kind := RemoteEmptyBucket, first := 0, count := 0);
    ClosedAfter(pe.table, c, n);
    PassUp(pe.(table := pe.table[c := n], unfilled := pe.unfilled - {c}), c)
  }

  function SettleAll(pe: PE, leaves: seq<Cell>): (r: (PE, seq<Msg>))
    requires Closed(pe.table) && forall c :: c in leaves ==> c in pe.table
    ensures Closed(r.0.table) && r.0.table.Keys == pe.table.Keys
    decreases |leaves|
  {
    if leaves == [] then (pe, [])
    else
      var one := Settle(pe, leaves[0]);
      var rest := SettleAll(one.0, leaves[1..]);
      (rest.0, one.1 + rest.1)
  }

  // flushMomentRequests, over the pending keys in iteration order
  function Flush(pe: PE, keys: seq<Cell>): (PE, seq<Msg>)
    decreases |keys|
  {
    if keys == [] then (pe, [])
    else
      var c := keys[0];
      if c in pe.pending && c !in pe.table then
        var rest := Flush(pe.(aborted := true), keys[1..]);
        rest
      else if c in pe.pending && SaysReady(pe.table[c]) then
        var rest := Flush(pe.(pending := pe.pending - {c}), keys[1..]);
        (rest.0, Respond(c, pe.table[c], pe.pending[c]) + rest.1)
      else
        Flush(pe, keys[1..])
  }

  function Asked(w: World, p: nat, leaves: seq<Cell>): seq<Msg>
    requires ValidWorld(w)
    requires forall c :: c in leaves ==> c.depth <= MAX_DEPTH && Owned(w, c)
  {
    if leaves == [] then []
    else
      (if ServingOwner(w, p, leaves[0]).Some? then [MomentsRequest(Server(w, p, leaves[0]), leaves[0], p)] else [])
      + Asked(w, p, leaves[1..])
  }

  function Unserved(w: World, p: nat, leaves: seq<Cell>): (e: seq<Cell>)
    requires ValidWorld(w)
    requires forall c :: c in leaves ==> c.depth <= MAX_DEPTH && Owned(w, c)
    ensures forall c :: c in e <==> c in leaves && ServingOwner(w, p, c).None?
  {
    if leaves == [] then []
    else (if ServingOwner(w, p, leaves[0]).None? then [leaves[0]] else []) + Unserved(w, p, leaves[1..])
  }

  // ---------------- what the tree build and moments walk leave ----------------

  ghost function CountLocal(w: World, p: nat, c: Cell, n: nat): nat
    requires ValidWorld(w) && c.depth < MAX_DEPTH
  {
    if n == 0 then 0 else CountLocal(w, p, c, n - 1) + if LocallyDone(w, p, Child(c, n - 1)) then 1 else 0
  }

  // MomentsWorker's result for one node: types and moments wherever everything
  // below is this PE's own, and a Remote leaf everywhere else.
  ghost predicate InitNode(w: World, p: nat, c: Cell, n: Node)
    requires ValidWorld(w) && c.depth <= MAX_DEPTH
  {
    && RangeRight(w, c, n)
    && n.nchild == (if RefinedAt(w, p, c) then BRANCH else 0)
    && n.ready == (if RefinedAt(w, p, c) && c.depth < MAX_DEPTH then CountLocal(w, p, c, BRANCH) else 0)
    && n.mass == (if LocallyDone(w, p, c) then NodeMass(w, c) else 0.0)
    && n.kind == if RemoteLeaf(w, p, c) then Remote else FinalKind(w, p, c)
  }

  lemma {:induction false} CountLocalFull(w: World, p: nat, c: Cell, n: nat)
    requires ValidWorld(w) && c.depth < MAX_DEPTH
    ensures CountLocal(w, p, c, n) <= n
    ensures CountLocal(w, p, c, n) == n <==> forall i: nat :: i < n ==> LocallyDone(w, p, Child(c, i))
  {
    hide ValidWorld, LocallyDone;
    if n > 0 { CountLocalFull(w, p, c, n - 1); }
  }

  ghost predicate TableInit(w: World, p: nat, t: map<Cell, Node>)
    requires ValidWorld(w)
  {
    && Closed(t)
    && (forall c :: c in t <==> Built(w, p, c))
    && (forall c :: c in t ==> c.depth <= MAX_DEPTH && InitNode(w, p, c, t[c]))
  }

  // ---------------- what one PE's state means ----------------

  // The node's moments are in: for a node with children, all of them reported.
  ghost predicate Done(pe: PE, c: Cell) {
    c in pe.table && if pe.table[c].nchild > 0 then SaysReady(pe.table[c]) else c !in pe.unfilled
  }

  ghost function CountDone(pe: PE, c: Cell, n: nat): nat {
    if n == 0 then 0 else CountDone(pe, c, n - 1) + if Done(pe, Child(c, n - 1)) then 1 else 0
  }

  // The reply the exchange owes requester r for node c of PE p.
  function Exact(w: World, p: nat, c: Cell, r: nat): Msg
    requires ValidWorld(w) && c.depth <= MAX_DEPTH
  {
    MomentsReply(r, c, FinalKind(w, p, c), NodeMass(w, c))
  }

  ghost predicate Shape(w: World, p: nat, pe: PE)
    requires ValidWorld(w)
  {
    && Closed(pe.table)
    && (forall c :: c in pe.table <==> Built(w, p, c))
    && (forall c :: c in pe.table ==> c.depth <= MAX_DEPTH)
    && (forall c :: c in pe.table ==> pe.table[c].nchild == if RefinedAt(w, p, c) then BRANCH else 0)
    && (forall c :: c in pe.table && pe.table[c].nchild == 0 ==> pe.table[c].ready == 0)
    && (forall c :: c in pe.unfilled ==> c in pe.table && RemoteLeaf(w, p, c))
  }

  // A ready node carries the exact mass of every particle in the system inside
  // its interval, and the type the node must end up with.
  ghost predicate NodeOk(w: World, p: nat, pe: PE, c: Cell)
    requires ValidWorld(w) && c in pe.table && c.depth <= MAX_DEPTH
  {
    && RangeRight(w, c, pe.table[c])
    && (Done(pe, c) ==> pe.table[c].mass == NodeMass(w, c) && pe.table[c].kind == FinalKind(w, p, c))
    && (!Done(pe, c) ==> pe.table[c].mass == 0.0 && pe.table[c].kind != Internal && !LocallyDone(w, p, c))
  }

  ghost predicate NodesOk(w: World, p: nat, pe: PE)
    requires ValidWorld(w) && Shape(w, p, pe)
  {
    forall c :: c in pe.table ==> NodeOk(w, p, pe, c)
  }

  // Ready counts, except that node c (if any) has yet to report to its parent.
  ghost predicate CountsOk(pe: PE, late: Option<Cell>) {
    forall c :: c in pe.table && pe.table[c].nchild > 0 ==>
      pe.table[c].ready + Late(late, c) == CountDone(pe, c, BRANCH)
  }

  ghost function Late(late: Option<Cell>, c: Cell): nat {
    if late.Some? && late.value.depth > 0 && late.value != ROOT && Parent(late.value) == c then 1 else 0
  }

  ghost function Owes(pe: PE, c: Cell, r: nat): nat {
    multiset(Waiting(pe, c))[r]
  }

  // Every answer owed before is still owed, or was sent, exactly.
  ghost predicate Moved(w: World, p: nat, pe: PE, pe': PE, out: seq<Msg>)
    requires ValidWorld(w)
  {
    && (forall c: Cell, r: nat :: c.depth <= MAX_DEPTH ==>
          Owes(pe, c, r) == Owes(pe', c, r) + multiset(out)[Exact(w, p, c, r)])
    && (forall m :: m in out ==>
          m.MomentsReply? && m.cell.depth <= MAX_DEPTH
          && m == Exact(w, p, m.cell, m.dest) && m.dest in Waiting(pe, m.cell))
    && (forall c :: c in pe'.pending ==> c in pe.pending && pe'.pending[c] == pe.pending[c])
  }

  ghost predicate Core(w: World, p: nat, pe: PE)
    requires ValidWorld(w)
  {
    pe.built && !pe.aborted && Shape(w, p, pe) && NodesOk(w, p, pe)
  }

  // ---------------- counting lemmas ----------------

  lemma {:induction false} CountDoneStep(pe: PE, pe': PE, c: Cell, n: nat, q: Cell)
    requires n <= BRANCH && !Done(pe, q) && Done(pe', q)
    requires forall x :: x != q ==> (Done(pe, x) <==> Done(pe', x))
    ensures CountDone(pe', c, n) == CountDone(pe, c, n)
         + if q.depth > 0 && Parent(q) == c && Slot(q) < n then 1 else 0
  {
    hide ValidWorld, Done;
    if n > 0 {
      CountDoneStep(pe, pe', c, n - 1, q);
      ChildParent(c, n - 1);
      if q.depth > 0 { assert Child(Parent(q), Slot(q)) == q; }
    }
  }

  lemma {:induction false} CountDoneSame(pe: PE, pe': PE, c: Cell, n: nat)
    requires forall x :: Done(pe, x) <==> Done(pe', x)
    ensures CountDone(pe', c, n) == CountDone(pe, c, n)
  {
    if n > 0 { CountDoneSame(pe, pe', c, n - 1); }
  }

  lemma {:induction false} CountFull(pe: PE, c: Cell, n: nat)
    ensures CountDone(pe, c, n) <= n
    ensures CountDone(pe, c, n) == n <==> forall i: nat :: i < n ==> Done(pe, Child(c, i))
  {
    if n > 0 { CountFull(pe, c, n - 1); }
  }

  lemma {:induction false} SumIsChildMass(w: World, c: Cell, kids: seq<Node>)
    requires ValidWorld(w) && c.depth < MAX_DEPTH && |kids| <= BRANCH
    requires forall i: nat :: i < |kids| ==> kids[i].mass == NodeMass(w, Child(c, i))
    ensures SumMass(kids) == ChildMass(w, c, |kids|)
  {
    hide ValidWorld, NodeMass;
    if kids != [] { SumIsChildMass(w, c, kids[..|kids| - 1]); }
  }

  // One unready node keeps every ancestor unready.
  lemma {:induction false} RootWaits(w: World, p: nat, pe: PE, c: Cell)
    requires ValidWorld(w) && Shape(w, p, pe) && CountsOk(pe, None) && c in pe.table && !Done(pe, c)
    ensures !Done(pe, ROOT)
    decreases c.depth
  {
    hide ValidWorld, RefinedAt, RemoteLeaf, Closed;
    if c != ROOT {
      var q := Parent(c);
      CountFull(pe, q, BRANCH);
      assert Child(q, Slot(c)) == c;
      RootWaits(w, p, pe, q);
    }
  }

  lemma {:induction false} RespondCounts(c: Cell, n: Node, rs: seq<nat>, r: nat)
    ensures multiset(Respond(c, n, rs))[MomentsReply(r, c, n.kind, n.mass)] == multiset(rs)[r]
    ensures forall m :: m in Respond(c, n, rs) ==>
              m.MomentsReply? && m == MomentsReply(m.dest, c, n.kind, n.mass) && m.dest in rs
  {
    if rs != [] {
      var k := |rs| - 1;
      RespondCounts(c, n, rs[..k], r);
      assert rs == rs[..k] + [rs[k]];
      assert Respond(c, n, rs) == Respond(c, n, rs[..k]) + [MomentsReply(rs[k], c, n.kind, n.mass)];
    }
  }

  // Answering one node's requesters.
  lemma AnswerMoves(w: World, p: nat, pe: PE, c: Cell, n: Node)
    requires ValidWorld(w) && c.depth <= MAX_DEPTH
    requires n.mass == NodeMass(w, c) && n.kind == FinalKind(w, p, c)
    ensures Moved(w, p, pe, pe.(pending := pe.pending - {c}), Respond(c, n, Waiting(pe, c)))
  {
    hide ValidWorld, FinalKind, NodeMass;
    var out, pe' := Respond(c, n, Waiting(pe, c)), pe.(pending := pe.pending - {c});
    RespondCounts(c, n, Waiting(pe, c), 0);
    forall x: Cell, r: nat | x.depth <= MAX_DEPTH
      ensures Owes(pe, x, r) == Owes(pe', x, r) + multiset(out)[Exact(w, p, x, r)]
    {
      RespondCounts(c, n, Waiting(pe, c), r);
      if x != c {
        assert Exact(w, p, x, r) !in out;
      }
    }
  }

  lemma MovedTwice(w: World, p: nat, a: PE, b: PE, c: PE, out1: seq<Msg>, out2: seq<Msg>)
    requires ValidWorld(w) && Moved(w, p, a, b, out1) && Moved(w, p, b, c, out2)
    ensures Moved(w, p, a, c, out1 + out2)
  {
    hide ValidWorld, Exact;
    assert multiset(out1 + out2) == multiset(out1) + multiset(out2);
  }

  lemma MovedIgnores(w: World, p: nat, a: PE, b: PE, b': PE, out: seq<Msg>)
    requires ValidWorld(w) && Moved(w, p, a, b, out) && b'.pending == b.pending
    ensures Moved(w, p, a, b', out)
  {
    forall x: Cell, r: nat ensures Owes(b', x, r) == Owes(b, x, r) {
    }
  }

  // ---------------- passing moments up ----------------

  // A node all of whose children reported gets its exact mass and owner range,
  // and is Boundary: it holds particles of this PE.
  lemma CombineRight(w: World, p: nat, pe: PE, q: Cell)
    requires ValidWorld(w) && Shape(w, p, pe) && q in pe.table && pe.table[q].nchild > 0
    requires forall i: nat :: i < BRANCH ==> Done(pe, Child(q, i)) && NodeOk(w, p, pe, Child(q, i))
    requires pe.table[q].mass == 0.0
    ensures Combine(pe.table, q).mass == NodeMass(w, q) && RangeRight(w, q, Combine(pe.table, q))
    ensures Combine(pe.table, q).kind == Boundary && !ScanChildren(KidNodes(pe.table, q)).gap
  {
    hide ValidWorld, RefinedAt, RemoteLeaf, NodeMass, Lo, Hi, FirstHiFrom, FirstLoFrom, Shl;
    var kids := KidNodes(pe.table, q);
    BuiltValid(w, p, q);
    RefinedAtHasRoom(w, p, q);
    forall i: nat | i < BRANCH ensures RangeRight(w, Child(q, i), kids[i]) && kids[i].mass == NodeMass(w, Child(q, i)) {
      assert NodeOk(w, p, pe, Child(q, i));
    }
    SumIsChildMass(w, q, kids);
    MassOfChildren(w, q);
    ParentRecovered(w, q, kids);
    var i := HeldChild(w, p, q);
    KindHeld(w, p, Child(q, i));
    assert !External(kids[i].kind) by { assert NodeOk(w, p, pe, Child(q, i)); }
    ScanNotExternal(kids, i);
  }

  lemma KindHeld(w: World, p: nat, c: Cell)
    requires ValidWorld(w) && c.depth <= MAX_DEPTH && !RemoteLeaf(w, p, c)
    ensures !External(FinalKind(w, p, c))
  {
  }

  lemma {:induction false} ScanNotExternal(kids: seq<Node>, i: nat)
    requires i < |kids| && !External(kids[i].kind)
    ensures !ScanChildren(kids).external
  {
    if i < |kids| - 1 { ScanNotExternal(kids[..|kids| - 1], i); }
  }

  // Changing one node's fields, and nothing the others depend on.
  lemma UpdateKeeps(w: World, p: nat, pe: PE, pe': PE, q: Cell, n: Node)
    requires ValidWorld(w) && Core(w, p, pe) && q in pe.table && n.nchild == pe.table[q].nchild
    requires n.nchild == 0 ==> n.ready == 0
    requires pe'.table == pe.table[q := n] && pe'.built && !pe'.aborted
    requires pe'.unfilled <= pe.unfilled && pe.unfilled <= pe'.unfilled + {q}
    requires q.depth <= MAX_DEPTH && NodeOk(w, p, pe', q)
    ensures Core(w, p, pe')
    ensures forall x :: x != q ==> (Done(pe', x) <==> Done(pe, x))
  {
    hide ValidWorld, RefinedAt, RemoteLeaf, FinalKind, NodeMass, RangeRight, LocallyDone, Built;
    ClosedAfter(pe.table, q, n);
    assert forall x :: x != q ==> (x in pe.unfilled <==> x in pe'.unfilled);
    forall x | x in pe'.table && x != q ensures NodeOk(w, p, pe', x) {
      assert NodeOk(w, p, pe, x);
    }
  }

  lemma BumpedChildren(w: World, p: nat, pe: PE, q: Cell, i: nat)
    requires ValidWorld(w) && Core(w, p, pe) && q in pe.table && i < BRANCH
    requires Child(q, i) in pe.table && Done(pe, Child(q, i))
    ensures var mid := pe.(table := Bump(pe.table, q));
            Done(mid, Child(q, i)) && Child(q, i).depth <= MAX_DEPTH && NodeOk(w, p, mid, Child(q, i))
  {
    hide ValidWorld, RefinedAt, RemoteLeaf, NodeMass, RangeRight, LocallyDone, Built, Combine, ScanChildren, FinalKind,
      Bump;
    assert Child(q, i) != q;
    assert NodeOk(w, p, pe, Child(q, i));
  }

  lemma CompletedNode(w: World, p: nat, pe: PE, q: Cell)
    requires ValidWorld(w) && Core(w, p, pe) && q in pe.table && pe.table[q].nchild > 0 && !Done(pe, q)
    requires forall i: nat :: i < BRANCH ==> Done(pe, Child(q, i))
    ensures var n := Combine(Bump(pe.table, q), q);
            n.mass == NodeMass(w, q) && RangeRight(w, q, n) && n.kind == FinalKind(w, p, q)
    ensures !ScanChildren(KidNodes(Bump(pe.table, q), q)).gap
  {
    hide ValidWorld, RefinedAt, RemoteLeaf, NodeMass, RangeRight, LocallyDone, Built, Combine, ScanChildren, FinalKind;
    var mid := pe.(table := Bump(pe.table, q));
    forall i: nat | i < BRANCH ensures Done(mid, Child(q, i)) && NodeOk(w, p, mid, Child(q, i)) {
      BumpedChildren(w, p, pe, q, i);
    }
    assert NodeOk(w, p, pe, q);
    CombineRight(w, p, mid, q);
    FinalBoundary(w, p, q);
  }

  // The last child reported: the parent is complete, exact and Boundary.
  lemma CompleteKeeps(w: World, p: nat, pe: PE, q: Cell)
    requires ValidWorld(w) && Core(w, p, pe) && q in pe.table && pe.table[q].nchild > 0 && !Done(pe, q)
    requires forall i: nat :: i < BRANCH ==> Done(pe, Child(q, i))
    requires pe.table[q].ready + 1 == BRANCH
    ensures var pe' := Reported(pe, q);
            Core(w, p, pe') && Done(pe', q) && (forall x :: x != q ==> (Done(pe', x) <==> Done(pe, x)))
            && (forall x :: x in pe.table && x != q ==> pe'.table[x] == pe.table[x])
            && pe'.table[q].nchild == pe.table[q].nchild && pe'.table[q].ready == BRANCH
  {
    hide ValidWorld, RefinedAt, RemoteLeaf, FinalKind, NodeMass, RangeRight, Combine, LocallyDone, Built, ScanChildren;
    CompletedNode(w, p, pe, q);
    var pe' := Reported(pe, q);
    var t := Bump(pe.table, q);
    CombineKeepsLinks(t, q);
    assert pe'.table == pe.table[q := Combine(t, q)];
    UpdateKeeps(w, p, pe, pe', q, Combine(t, q));
  }

  lemma WaitKeeps(w: World, p: nat, pe: PE, q: Cell)
    requires ValidWorld(w) && Core(w, p, pe) && q in pe.table && pe.table[q].nchild > 0 && !Done(pe, q)
    requires pe.table[q].ready + 1 < BRANCH
    ensures var pe' := Reported(pe, q);
            Core(w, p, pe') && !SaysReady(pe'.table[q])
            && (forall x :: Done(pe', x) <==> Done(pe, x))
            && (forall x :: x in pe.table && x != q ==> pe'.table[x] == pe.table[x])
            && pe'.table[q].nchild == pe.table[q].nchild && pe'.table[q].ready == pe.table[q].ready + 1
  {
    hide ValidWorld, RefinedAt, RemoteLeaf, FinalKind, NodeMass, Owned, OwnerStart, OwnerEnd, Combine, LocallyDone,
      Built;
    var bumped := pe.table[q].(ready := pe.table[q].ready + 1);
    assert NodeOk(w, p, pe, q);
    UpdateKeeps(w, p, pe, Reported(pe, q), q, bumped);
  }

  lemma ParentIn(w: World, p: nat, pe: PE, c: Cell)
    requires ValidWorld(w) && Shape(w, p, pe) && c in pe.table && c != ROOT
    ensures Closed(pe.table)
    ensures c.depth > 0 && Parent(c) in pe.table && pe.table[Parent(c)].nchild == BRANCH
    ensures Child(Parent(c), Slot(c)) == c
  {
    hide Closed;
  }

  lemma CountsAfterComplete(pe: PE, pe': PE, q: Cell)
    requires forall x :: x != q ==> (Done(pe', x) <==> Done(pe, x))
    requires !Done(pe, q) && Done(pe', q) && q in pe.table && pe'.table.Keys == pe.table.Keys
    requires forall x :: x in pe.table ==> pe'.table[x].nchild == pe.table[x].nchild
    requires forall x :: x in pe.table && x != q ==> pe'.table[x].ready == pe.table[x].ready
    requires OthersCounted(pe, q)
    requires pe'.table[q].ready == CountDone(pe, q, BRANCH)
    requires q != ROOT ==> q.depth > 0
    ensures CountsOk(pe', Some(q))
  {
    hide ValidWorld, Done;
    forall x | x in pe'.table && pe'.table[x].nchild > 0
      ensures pe'.table[x].ready + Late(Some(q), x) == CountDone(pe', x, BRANCH)
    {
      CountDoneStep(pe, pe', x, BRANCH, q);
    }
  }

  lemma CountsAfterWait(pe: PE, pe': PE, q: Cell)
    requires forall x :: Done(pe', x) <==> Done(pe, x)
    requires q in pe.table && pe'.table.Keys == pe.table.Keys
    requires forall x :: x in pe.table ==> pe'.table[x].nchild == pe.table[x].nchild
    requires forall x :: x in pe.table && x != q ==> pe'.table[x].ready == pe.table[x].ready
    requires OthersCounted(pe, q)
    requires pe'.table[q].ready == CountDone(pe, q, BRANCH)
    ensures CountsOk(pe', None)
  {
    hide ValidWorld, Done;
    forall x | x in pe'.table && pe'.table[x].nchild > 0
      ensures pe'.table[x].ready + Late(None, x) == CountDone(pe', x, BRANCH)
    {
      CountDoneSame(pe, pe', x, BRANCH);
    }
  }

  // One step up: what the parent's count then says, and who is late next.
  ghost predicate StepUp(w: World, p: nat, pe: PE, q: Cell, pe': PE)
    requires ValidWorld(w)
  {
    && Core(w, p, pe') && !Done(pe, q) && q in pe'.table
    && (forall x :: x != q ==> (Done(pe', x) <==> Done(pe, x)))
    && (Done(pe', q) <==> SaysReady(pe'.table[q]))
    && CountsOk(pe', if SaysReady(pe'.table[q]) then Some(q) else None)
  }

  // q's counts before its last child reports; every other count is right.
  ghost predicate OthersCounted(pe: PE, q: Cell) {
    forall x :: x in pe.table && x != q && pe.table[x].nchild > 0 ==> pe.table[x].ready == CountDone(pe, x, BRANCH)
  }

  lemma ReportCompletes(w: World, p: nat, pe: PE, q: Cell, pe': PE)
    requires ValidWorld(w) && Core(w, p, pe) && q in pe.table && pe.table[q].nchild > 0 && !Done(pe, q)
    requires CountDone(pe, q, BRANCH) == BRANCH == pe.table[q].ready + 1 && OthersCounted(pe, q)
    requires Closed(pe.table) && pe' == Reported(pe, q)
    ensures StepUp(w, p, pe, q, pe')
  {
    hide ValidWorld, Built, RefinedAt, RemoteLeaf, NodeOk, LocallyDone, Combine, Closed, NodesOk, Shape, Reported,
      CountsOk, Done,
      Child, Parent, CountDone;
    CoreClosedFrame(w, p, pe, q);
    CountFull(pe, q, BRANCH);
    CompleteKeeps(w, p, pe, q);
    CountsAfterComplete(pe, pe', q);
  }

  lemma ReportWaits(w: World, p: nat, pe: PE, q: Cell, pe': PE)
    requires ValidWorld(w) && Core(w, p, pe) && q in pe.table && pe.table[q].nchild > 0 && !Done(pe, q)
    requires CountDone(pe, q, BRANCH) == pe.table[q].ready + 1 < BRANCH && OthersCounted(pe, q)
    requires Closed(pe.table) && pe' == Reported(pe, q)
    ensures StepUp(w, p, pe, q, pe')
  {
    hide ValidWorld, Built, RefinedAt, RemoteLeaf, NodeOk, LocallyDone, Combine, Closed, NodesOk, Shape, Reported,
      CountsOk, Done,
      SaysReady, Child, Parent, CountDone;
    CoreClosedFrame(w, p, pe, q);
    WaitKeeps(w, p, pe, q);
    CountsAfterWait(pe, pe', q);
  }

  lemma CoreClosedFrame(w: World, p: nat, pe: PE, q: Cell)
    requires ValidWorld(w) && Core(w, p, pe) && q in pe.table && pe.table[q].nchild > 0
    ensures Closed(pe.table) && Reported(pe, q).table.Keys == pe.table.Keys
    ensures (q != ROOT ==> q.depth > 0) && pe.table[q].nchild == BRANCH
    ensures forall x :: x in pe.table ==> Reported(pe, q).table[x].nchild == pe.table[x].nchild
  {
    hide ValidWorld, NodesOk, Built, RefinedAt, Child, Parent, Combine, ScanChildren, KidNodes, SumMass;
    CombineKeepsLinks(Bump(pe.table, q), q);
  }

  lemma ReportKeeps(w: World, p: nat, pe: PE, c: Cell)
    requires ValidWorld(w) && Core(w, p, pe) && c in pe.table && c != ROOT && Done(pe, c)
    requires CountsOk(pe, Some(c))
    ensures Closed(pe.table) && Parent(c) in pe.table && pe.table[Parent(c)].nchild > 0
    ensures StepUp(w, p, pe, Parent(c), Reported(pe, Parent(c)))
  {
    hide ValidWorld, RefinedAt, RemoteLeaf, FinalKind, NodeMass, RangeRight, Combine, LocallyDone, NodeOk, Reported,
      Built;
    ParentIn(w, p, pe, c);
    var q := Parent(c);
    CountFull(pe, q, BRANCH);
    assert pe.table[q].ready + 1 == CountDone(pe, q, BRANCH);
    if pe.table[q].ready + 1 == BRANCH {
      ReportCompletes(w, p, pe, q, Reported(pe, q));
    } else {
      ReportWaits(w, p, pe, q, Reported(pe, q));
    }
  }

  lemma FinalBoundary(w: World, p: nat, q: Cell)
    requires ValidWorld(w) && q.depth <= MAX_DEPTH && RefinedAt(w, p, q) && !LocallyDone(w, p, q)
    ensures FinalKind(w, p, q) == Boundary
  {
  }

  lemma CombineKeepsLinks(t: map<Cell, Node>, q: Cell)
    requires Closed(t) && q in t && t[q].nchild > 0
    ensures Combine(t, q).nchild == t[q].nchild && Combine(t, q).ready == t[q].ready
  {
  }

  // ---------------- passMomentsUpward as a whole ----------------

  // Nothing becomes unready, and whoever waited for a node that became ready
  // has been answered.
  ghost predicate Progress(pe: PE, pe': PE) {
    && (forall x :: Done(pe, x) ==> Done(pe', x))
    && (forall x :: x in pe'.pending && Done(pe', x) ==> Done(pe, x))
  }

  // Requests waiting and treeReady calls made say nothing about the tree.
  lemma SameTree(w: World, p: nat, pe: PE, pe1: PE, late: Option<Cell>)
    requires ValidWorld(w) && Core(w, p, pe) && CountsOk(pe, late)
    requires pe1 == pe.(pending := pe1.pending, readyFired := pe1.readyFired)
    ensures Core(w, p, pe1) && CountsOk(pe1, late) && forall x :: Done(pe1, x) <==> Done(pe, x)
  {
    hide ValidWorld, RefinedAt, RemoteLeaf, FinalKind, NodeMass, RangeRight, LocallyDone, Built;
    SameCounts(pe, pe1, late);
    forall x | x in pe1.table ensures NodeOk(w, p, pe1, x) {
      assert NodeOk(w, p, pe, x);
    }
  }

  lemma SameCounts(pe: PE, pe1: PE, late: Option<Cell>)
    requires CountsOk(pe, late) && pe1.table == pe.table && pe1.unfilled == pe.unfilled
    ensures CountsOk(pe1, late)
  {
    forall x | x in pe1.table && pe1.table[x].nchild > 0
      ensures pe1.table[x].ready + Late(late, x) == CountDone(pe1, x, BRANCH)
    {
      CountDoneSame(pe, pe1, x, BRANCH);
    }
  }

  // Before and after passMomentsUpward from node c.
  ghost predicate PassedUp(w: World, p: nat, pe: PE, c: Cell, pe': PE, out: seq<Msg>)
    requires ValidWorld(w)
  {
    && Core(w, p, pe') && CountsOk(pe', None)
    && pe'.readyFired == (if Done(pe', ROOT) then 1 else 0)
    && pe'.unfilled == pe.unfilled && pe'.table.Keys == pe.table.Keys
    && Moved(w, p, pe, pe', out)
    && Progress(pe, pe') && c !in pe'.pending
  }

  lemma {:induction false} PassUpKeeps(w: World, p: nat, pe: PE, c: Cell)
    requires ValidWorld(w) && Core(w, p, pe) && c in pe.table && Done(pe, c)
    requires CountsOk(pe, Some(c)) && pe.readyFired == 0
    ensures Closed(pe.table) && PassedUp(w, p, pe, c, PassUp(pe, c).0, PassUp(pe, c).1)
    decreases c.depth
  {
    hide ValidWorld, RefinedAt, RemoteLeaf, FinalKind, NodeMass, RangeRight, LocallyDone, Built, Reported, NodesOk,
      Respond,
      Moved, CountsOk, Progress, PassedUp, StepUp, Shape;
    CoreNode(w, p, pe, c);
    var out := Respond(c, pe.table[c], Waiting(pe, c));
    AnswerMoves(w, p, pe, c, pe.table[c]);
    var pe1 := pe.(pending := pe.pending - {c});
    SameTree(w, p, pe, pe1, Some(c));
    if c == ROOT {
      PassedRoot(w, p, pe, out);
    } else {
      ReportKeeps(w, p, pe1, c);
      var q := Parent(c);
      var pe2 := Reported(pe1, q);
      ReportedFrame(pe1, q);
      MovedIgnores(w, p, pe, pe1, pe2, out);
      SteppedUp(w, p, pe, c, pe1, pe2, out);
      if SaysReady(pe2.table[q]) {
        PassUpKeeps(w, p, pe2, q);
        PassedOn(w, p, pe, c, pe2, out, PassUp(pe2, q).0, PassUp(pe2, q).1);
      }
    }
  }

  // One level: either the walk stops here, or the parent is late in turn.
  lemma SteppedUp(w: World, p: nat, pe: PE, c: Cell, pe1: PE, pe2: PE, out: seq<Msg>)
    requires ValidWorld(w) && pe1 == pe.(pending := pe.pending - {c}) && pe.readyFired == 0
    requires c.depth > 0 && StepUp(w, p, pe1, Parent(c), pe2) && Moved(w, p, pe, pe2, out)
    requires pe2.pending == pe1.pending && pe2.unfilled == pe1.unfilled && pe2.readyFired == 0
    requires pe2.table.Keys == pe.table.Keys
    ensures forall x :: x != Parent(c) ==> (Done(pe2, x) <==> Done(pe, x))
    ensures !Done(pe, Parent(c)) && Core(w, p, pe2) && Parent(c) in pe2.table
    ensures if SaysReady(pe2.table[Parent(c)]) then Done(pe2, Parent(c)) && CountsOk(pe2, Some(Parent(c)))
            else PassedUp(w, p, pe, c, pe2, out)
  {
    hide ValidWorld, RefinedAt, RemoteLeaf, FinalKind, NodeMass, RangeRight, LocallyDone, Built, NodesOk, Exact, Moved,
      CountsOk;
    assert forall x :: Done(pe1, x) <==> Done(pe, x);
    if !SaysReady(pe2.table[Parent(c)]) {
      RootWaits(w, p, pe2, Parent(c));
    }
  }

  lemma PassedOn(w: World, p: nat, pe: PE, c: Cell, pe2: PE, out: seq<Msg>, pe3: PE, out3: seq<Msg>)
    requires ValidWorld(w) && c.depth > 0 && Moved(w, p, pe, pe2, out)
    requires forall x :: x != Parent(c) ==> (Done(pe2, x) <==> Done(pe, x))
    requires !Done(pe, Parent(c)) && pe2.unfilled == pe.unfilled && pe2.table.Keys == pe.table.Keys
    requires c !in pe2.pending && PassedUp(w, p, pe2, Parent(c), pe3, out3)
    ensures PassedUp(w, p, pe, c, pe3, out + out3)
  {
    hide ValidWorld, Core, Exact, CountsOk, Done;
    MovedTwice(w, p, pe, pe2, pe3, out, out3);
    ProgressOn(pe, pe2, Parent(c), pe3);
    PendingShrinks(w, p, pe2, pe3, out3);
  }

  lemma PendingShrinks(w: World, p: nat, pe: PE, pe': PE, out: seq<Msg>)
    requires ValidWorld(w) && Moved(w, p, pe, pe', out)
    ensures forall x :: x in pe'.pending ==> x in pe.pending
  {
  }

  lemma CoreNode(w: World, p: nat, pe: PE, c: Cell)
    requires ValidWorld(w) && Core(w, p, pe) && c in pe.table
    ensures Closed(pe.table) && c.depth <= MAX_DEPTH && NodeOk(w, p, pe, c)
    ensures c != ROOT ==> c.depth > 0
  {
  }

  lemma PassedRoot(w: World, p: nat, pe: PE, out: seq<Msg>)
    requires ValidWorld(w) && Core(w, p, pe) && Done(pe, ROOT) && CountsOk(pe, Some(ROOT)) && pe.readyFired == 0
    requires Moved(w, p, pe, pe.(pending := pe.pending - {ROOT}), out)
    ensures PassedUp(w, p, pe, ROOT, pe.(pending := pe.pending - {ROOT}, readyFired := 1), out)
  {
    hide ValidWorld, RefinedAt, RemoteLeaf, FinalKind, NodeMass, RangeRight, LocallyDone, Built, NodesOk, Exact, Core;
    var pe1 := pe.(pending := pe.pending - {ROOT});
    var pe' := pe1.(readyFired := 1);
    SameTree(w, p, pe, pe', Some(ROOT));
    MovedIgnores(w, p, pe, pe1, pe', out);
  }

  lemma ReportedFrame(pe: PE, q: Cell)
    requires Closed(pe.table) && q in pe.table && pe.table[q].nchild > 0
    ensures var pe' := Reported(pe, q);
            pe'.pending == pe.pending && pe'.unfilled == pe.unfilled && pe'.readyFired == pe.readyFired
  {
  }

  lemma ProgressOn(pe: PE, pe2: PE, q: Cell, pe3: PE)
    requires forall x :: x != q ==> (Done(pe2, x) <==> Done(pe, x))
    requires !Done(pe, q)
    requires Progress(pe2, pe3) && q !in pe3.pending
    ensures Progress(pe, pe3)
  {
    hide ValidWorld, Done;
  }
}
