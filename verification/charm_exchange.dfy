// The moments exchange over all PEs: any order of builds and message
// deliveries keeps every reply and every ready node exact, and nothing gets
// stuck short of every PE's root being ready.
module MomentsExchange {
  import opened TreeKeys
  import opened Decomposition
  import opened TreeBuild
  import opened NodeFacts
  import opened Moments

  // ---------------- one PE between entry methods ----------------

  ghost predicate Unstarted(pe: PE) {
    !pe.built && pe.table == map[] && pe.unfilled == {} && pe.readyFired == 0 && !pe.aborted
  }

  // treeReady has fired once exactly when the root is ready -- unless the whole
  // tree is one leaf of this PE, for which nobody calls it.
  ghost predicate Settled(w: World, p: nat, pe: PE)
    requires ValidWorld(w)
  {
    && Core(w, p, pe) && CountsOk(pe, None)
    && (forall c :: c in pe.pending ==> c in pe.table && !Done(pe, c))
    && (forall c :: c in pe.unfilled ==> RemoteServed(w, p, c))
    && pe.readyFired == (if Done(pe, ROOT) && !LocalLeaf(w, p, ROOT) then 1 else 0)
  }

  ghost predicate PEOk(w: World, p: nat, pe: PE)
    requires ValidWorld(w)
  {
    Unstarted(pe) || Settled(w, p, pe)
  }

  lemma SaysReadyIsDone(w: World, p: nat, pe: PE, c: Cell)
    requires ValidWorld(w) && Core(w, p, pe) && c in pe.table && c.depth <= MAX_DEPTH && !RemoteLeaf(w, p, c)
    ensures SaysReady(pe.table[c]) <==> Done(pe, c)
  {
    hide ValidWorld, RefinedAt, FinalKind, NodeMass, LocallyDone, Built, RemoteLeaf;
  }

  // The answers owed change by one new request, and by exact replies sent.
  ghost predicate MovedWith(w: World, p: nat, pe: PE, c: Cell, r: nat, pe': PE, out: seq<Msg>)
    requires ValidWorld(w)
  {
    && (forall x: Cell, k: nat :: x.depth <= MAX_DEPTH ==>
          Owes(pe, x, k) + (if x == c && k == r then 1 else 0) == Owes(pe', x, k) + multiset(out)[Exact(w, p, x, k)])
    && (forall m :: m in out ==>
          m.MomentsReply? && m.cell == c && c.depth <= MAX_DEPTH && m == Exact(w, p, c, m.dest)
          && (m.dest == r || m.dest in Waiting(pe, c)))
    && (forall x, k :: x in pe'.pending && k in pe'.pending[x] ==> (x == c && k == r) || k in Waiting(pe, x))
  }

  lemma PendingOne(pe: PE, c: Cell, r: nat, x: Cell, k: nat)
    ensures var pe' := pe.(pending := pe.pending[c := Waiting(pe, c) + [r]]);
            Owes(pe', x, k) == Owes(pe, x, k) + if x == c && k == r then 1 else 0
  {
    var pe' := pe.(pending := pe.pending[c := Waiting(pe, c) + [r]]);
    if x == c {
      assert multiset(Waiting(pe, c) + [r]) == multiset(Waiting(pe, c)) + multiset{r};
    }
  }

  lemma QueueMoves(w: World, p: nat, pe: PE, c: Cell, r: nat)
    requires ValidWorld(w)
    ensures MovedWith(w, p, pe, c, r, pe.(pending := pe.pending[c := Waiting(pe, c) + [r]]), [])
  {
    var pe' := pe.(pending := pe.pending[c := Waiting(pe, c) + [r]]);
    forall x: Cell, k: nat
      ensures Owes(pe, x, k) + (if x == c && k == r then 1 else 0) == Owes(pe', x, k)
    {
      PendingOne(pe, c, r, x, k);
    }
  }

  lemma AnswerNow(w: World, p: nat, pe: PE, c: Cell, r: nat, n: Node)
    requires ValidWorld(w) && c.depth <= MAX_DEPTH
    requires n.mass == NodeMass(w, c) && n.kind == FinalKind(w, p, c)
    ensures MovedWith(w, p, pe, c, r, pe.(pending := pe.pending - {c}), Respond(c, n, Waiting(pe, c) + [r]))
  {
    hide ValidWorld, FinalKind, NodeMass, Moved, MovedWith, Exact, Owes;
    var queued := pe.(pending := pe.pending[c := Waiting(pe, c) + [r]]);
    assert Waiting(queued, c) == Waiting(pe, c) + [r];
    AnswerMoves(w, p, queued, c, n);
    RespondCounts(c, n, Waiting(pe, c) + [r], r);
    assert queued.pending - {c} == pe.pending - {c};
    QueuedThenMoved(w, p, pe, c, r, queued.(pending := pe.pending - {c}), Respond(c, n, Waiting(pe, c) + [r]));
  }

  lemma QueuedThenMoved(w: World, p: nat, pe: PE, c: Cell, r: nat, pe': PE, out: seq<Msg>)
    requires ValidWorld(w) && pe'.pending == pe.pending - {c} && c.depth <= MAX_DEPTH
    requires Moved(w, p, pe.(pending := pe.pending[c := Waiting(pe, c) + [r]]), pe', out)
    requires forall m :: m in out ==> m.MomentsReply? && m.cell == c && m.dest in Waiting(pe, c) + [r]
    ensures MovedWith(w, p, pe, c, r, pe', out)
  {
    hide ValidWorld, Exact, Owes;
    var queued := pe.(pending := pe.pending[c := Waiting(pe, c) + [r]]);
    assert forall m :: m in out ==> m == Exact(w, p, m.cell, m.dest);
    forall x: Cell, k: nat | x.depth <= MAX_DEPTH
      ensures Owes(pe, x, k) + (if x == c && k == r then 1 else 0)
           == Owes(pe', x, k) + multiset(out)[Exact(w, p, x, k)]
    {
      PendingOne(pe, c, r, x, k);
    }
  }

  // requestMoments on a PE that built its tree: the node exists, and it is
  // answered exactly when it is really ready.
  lemma RequestKeeps(w: World, p: nat, pe: PE, c: Cell, r: nat)
    requires ValidWorld(w) && PEOk(w, p, pe) && RemoteServed(w, r, c) && p == Server(w, r, c)
    ensures PEOk(w, p, OnRequest(pe, c, r).0)
    ensures MovedWith(w, p, pe, c, r, OnRequest(pe, c, r).0, OnRequest(pe, c, r).1)
  {
    hide ValidWorld, RefinedAt, RemoteLeaf, FinalKind, NodeMass, RangeRight, LocallyDone, Built, LocalLeaf,
      RemoteServed, Server,
      Shape, NodesOk, MovedWith, CountsOk;
    if !pe.built {
      QueueMoves(w, p, pe, c, r);
    } else {
      ServerCanAnswer(w, r, c);
      InTable(w, p, pe, c);
      CoreNode(w, p, pe, c);
      SaysReadyIsDone(w, p, pe, c);
      var pe' := OnRequest(pe, c, r).0;
      SameTree(w, p, pe, pe', None);
      if Done(pe, c) {
        AnswerNow(w, p, pe, c, r, pe.table[c]);
      } else {
        QueueMoves(w, p, pe, c, r);
      }
    }
  }

  lemma InTable(w: World, p: nat, pe: PE, c: Cell)
    requires ValidWorld(w) && Core(w, p, pe)
    ensures c in pe.table <==> Built(w, p, c)
    ensures ROOT in pe.table
  {
  }

  lemma RemoteServedDepth(w: World, p: nat, c: Cell)
    requires ValidWorld(w) && RemoteServed(w, p, c)
    ensures c.depth <= MAX_DEPTH && Owned(w, c) && ServingOwner(w, p, c).Some? && Built(w, p, c) && RemoteLeaf(w, p, c)
  {
  }

  // A remote leaf's answer, put in place.
  ghost predicate Filled(w: World, p: nat, pe: PE, c: Cell, pe1: PE)
    requires ValidWorld(w)
  {
    && Core(w, p, pe1) && CountsOk(pe1, Some(c)) && c in pe1.table && Done(pe1, c) && c in pe.table && !Done(pe, c)
    && pe1.pending == pe.pending && pe1.readyFired == pe.readyFired && pe1.unfilled == pe.unfilled - {c}
    && pe1.table.Keys == pe.table.Keys
    && (forall x :: x != c ==> (Done(pe1, x) <==> Done(pe, x)))
  }

  lemma FillKeeps(w: World, p: nat, pe: PE, c: Cell, kind: NodeType, mass: real)
    requires ValidWorld(w) && Core(w, p, pe) && CountsOk(pe, None) && c in pe.unfilled
    requires c.depth <= MAX_DEPTH && kind == RemoteKind(w, c) && mass == NodeMass(w, c)
    ensures c in pe.table
    ensures var n := pe.table[c].(kind := kind, mass := mass, first := 0, count := 0);
            Filled(w, p, pe, c, pe.(table := pe.table[c := n], unfilled := pe.unfilled - {c}))
  {
    hide ValidWorld, RefinedAt, NodeMass, LocallyDone, Built, RemoteKind, Owned, OwnerStart, OwnerEnd, RemoteLeaf,
      NodesOk, CountsOk;
    UnfilledLeaf(w, p, pe, c);
    CoreNode(w, p, pe, c);
    var n := pe.table[c].(kind := kind, mass := mass, first := 0, count := 0);
    var pe1 := pe.(table := pe.table[c := n], unfilled := pe.unfilled - {c});
    UpdateKeeps(w, p, pe, pe1, c, n);
    FillCounts(w, p, pe, pe1, c);
  }

  lemma UnfilledLeaf(w: World, p: nat, pe: PE, c: Cell)
    requires ValidWorld(w) && Core(w, p, pe) && c in pe.unfilled
    ensures c in pe.table && pe.table[c].nchild == 0 == pe.table[c].ready && c.depth <= MAX_DEPTH
    ensures !RefinedAt(w, p, c) && !LocalLeaf(w, p, c) && FinalKind(w, p, c) == RemoteKind(w, c)
    ensures c != ROOT ==> c.depth > 0
    ensures !Done(pe, c)
  {
  }

  lemma FillCounts(w: World, p: nat, pe: PE, pe1: PE, c: Cell)
    requires CountsOk(pe, None) && !Done(pe, c) && Done(pe1, c) && c in pe.table && pe.table[c].nchild == 0
    requires pe1.table.Keys == pe.table.Keys && pe1.table[c].nchild == 0
    requires forall x :: x in pe.table && x != c ==> pe1.table[x] == pe.table[x]
    requires forall x :: x != c ==> (Done(pe1, x) <==> Done(pe, x))
    requires c != ROOT ==> c.depth > 0
    requires Closed(pe.table)
    ensures CountsOk(pe1, Some(c))
  {
    hide ValidWorld, Done;
    forall x | x in pe1.table && pe1.table[x].nchild > 0
      ensures pe1.table[x].ready + Late(Some(c), x) == CountDone(pe1, x, BRANCH)
    {
      CountDoneStep(pe, pe1, x, BRANCH, c);
      if c == ROOT && c.depth > 0 { assert false; }
    }
  }

  // A remote leaf's answer, put in place and passed up.
  ghost predicate Absorbed(w: World, p: nat, pe: PE, c: Cell, pe': PE, out: seq<Msg>)
    requires ValidWorld(w)
  {
    && Core(w, p, pe') && CountsOk(pe', None)
    && pe'.readyFired == (if Done(pe', ROOT) then 1 else 0)
    && pe'.unfilled == pe.unfilled - {c} && pe'.table.Keys == pe.table.Keys
    && Moved(w, p, pe, pe', out)
    && Progress(pe, pe') && c !in pe'.pending
  }

  lemma AbsorbKeeps(w: World, p: nat, pe: PE, c: Cell, pe1: PE)
    requires ValidWorld(w) && Filled(w, p, pe, c, pe1) && pe.readyFired == 0
    ensures Closed(pe1.table) && Absorbed(w, p, pe, c, PassUp(pe1, c).0, PassUp(pe1, c).1)
  {
    hide ValidWorld, Core, CountsOk, Exact, Done, PassUp, Moved, Progress;
    PassUpKeeps(w, p, pe1, c);
    var up := PassUp(pe1, c);
    SamePending(w, p, pe, pe1, up.0, up.1);
    ProgressOn(pe, pe1, c, up.0);
  }

  lemma SamePending(w: World, p: nat, pe: PE, pe1: PE, pe': PE, out: seq<Msg>)
    requires ValidWorld(w) && Moved(w, p, pe1, pe', out) && pe1.pending == pe.pending
    ensures Moved(w, p, pe, pe', out)
  {
    hide ValidWorld, Exact;
    forall x: Cell, r: nat ensures Owes(pe1, x, r) == Owes(pe, x, r) {}
  }

  lemma {:induction false} LocalRootAlone(w: World, p: nat, c: Cell)
    requires ValidWorld(w) && !RefinedAt(w, p, ROOT) && Built(w, p, c)
    ensures c == ROOT
    decreases c.depth
  {
    hide ValidWorld, RefinedAt;
    if c != ROOT { LocalRootAlone(w, p, Parent(c)); }
  }

  // receiveMoments for a remote leaf still owed its moments.
  lemma ReplyKeeps(w: World, p: nat, pe: PE, c: Cell, kind: NodeType, mass: real)
    requires ValidWorld(w) && Settled(w, p, pe) && c in pe.unfilled && RemoteServed(w, p, c)
    requires c.depth <= MAX_DEPTH && Owned(w, c)
    requires kind == FinalKind(w, Server(w, p, c), c) && mass == NodeMass(w, c)
    ensures Closed(pe.table)
    ensures var r := OnReply(pe, c, kind, mass);
            Settled(w, p, r.0) && r.0.unfilled == pe.unfilled - {c} && Moved(w, p, pe, r.0, r.1)
  {
    hide ValidWorld, RefinedAt, RemoteLeaf, FinalKind, NodeMass, LocallyDone, Built, LocalLeaf, Server, Owned,
      OwnerStart, OwnerEnd,
      Shape, NodesOk, PassUp, Moved, RemoteKind, CountsOk;
    ServerCanAnswer(w, p, c);
    UnfilledLeaf(w, p, pe, c);
    RootWaits(w, p, pe, c);
    FillKeeps(w, p, pe, c, MakeRemote(kind), mass);
    CoreNode(w, p, pe, c);
    var n := pe.table[c].(kind := MakeRemote(kind), mass := mass, first := 0, count := 0);
    var pe1 := pe.(table := pe.table[c := n], unfilled := pe.unfilled - {c});
    AbsorbKeeps(w, p, pe, c, pe1);
    var up := PassUp(pe1, c);
    NotAtLocalRoot(w, p, c);
    PendingShrinks(w, p, pe, up.0, up.1);
  }

  lemma NotAtLocalRoot(w: World, p: nat, c: Cell)
    requires ValidWorld(w) && RemoteServed(w, p, c)
    ensures !LocalLeaf(w, p, ROOT)
  {
    hide ValidWorld, RefinedAt, Owned, OwnerStart, OwnerEnd, ServingOwner;
    if !RefinedAt(w, p, ROOT) { LocalRootAlone(w, p, c); }
  }

  // flushMomentRequests answers every ready node asked for, and only those.
  lemma {:induction false} FlushKeeps(w: World, p: nat, pe: PE, keys: seq<Cell>)
    requires ValidWorld(w) && Core(w, p, pe) && CountsOk(pe, None)
    requires forall k :: k in pe.pending ==> k in pe.table && k.depth <= MAX_DEPTH && !RemoteLeaf(w, p, k)
    ensures var r := Flush(pe, keys);
            && r.0 == pe.(pending := r.0.pending)
            && Core(w, p, r.0) && CountsOk(r.0, None) && Moved(w, p, pe, r.0, r.1)
            && (forall x :: Done(r.0, x) <==> Done(pe, x))
            && (forall k :: k in r.0.pending && k in keys ==> !Done(pe, k))
    decreases |keys|
  {
    hide ValidWorld, RefinedAt, RemoteLeaf, FinalKind, NodeMass, RangeRight, LocallyDone, Built, NodesOk, Moved,
      CountsOk, Done, Shape;
    if keys == [] {
      NothingMoves(w, p, pe);
    } else {
      var c := keys[0];
      assert keys == [c] + keys[1..];
      if c in pe.pending && SaysReady(pe.table[c]) {
        CoreNode(w, p, pe, c);
        SaysReadyIsDone(w, p, pe, c);
        AnswerMoves(w, p, pe, c, pe.table[c]);
        var pe1 := pe.(pending := pe.pending - {c});
        SameTree(w, p, pe, pe1, None);
        FlushKeeps(w, p, pe1, keys[1..]);
        var r := Flush(pe1, keys[1..]);
        MovedTwice(w, p, pe, pe1, r.0, Respond(c, pe.table[c], Waiting(pe, c)), r.1);
        PendingShrinks(w, p, pe1, r.0, r.1);
      } else {
        if c in pe.pending { SaysReadyIsDone(w, p, pe, c); }
        FlushKeeps(w, p, pe, keys[1..]);
        PendingShrinks(w, p, pe, Flush(pe, keys[1..]).0, Flush(pe, keys[1..]).1);
      }
    }
  }

  lemma NothingMoves(w: World, p: nat, pe: PE)
    requires ValidWorld(w)
    ensures Moved(w, p, pe, pe, [])
  {
  }

  // settleEmptyRemoteLeaves
  lemma {:induction false} SettleAllKeeps(w: World, p: nat, pe: PE, leaves: seq<Cell>)
    requires ValidWorld(w) && Core(w, p, pe) && CountsOk(pe, None)
    requires forall c :: c in leaves ==> c in pe.unfilled && c.depth <= MAX_DEPTH && Here(w, c) == []
    requires Distinct(leaves)
    requires leaves != [] ==> pe.readyFired == if Done(pe, ROOT) then 1 else 0
    ensures Closed(pe.table) && forall c :: c in leaves ==> c in pe.table
    ensures var r := SettleAll(pe, leaves);
            && Core(w, p, r.0) && CountsOk(r.0, None) && Moved(w, p, pe, r.0, r.1)
            && r.0.unfilled == pe.unfilled - (set c | c in leaves)
            && r.0.table.Keys == pe.table.Keys
            && (leaves == [] ==> r.0 == pe)
            && (leaves != [] ==> r.0.readyFired == if Done(r.0, ROOT) then 1 else 0)
    decreases |leaves|
  {
    hide ValidWorld, RefinedAt, RemoteLeaf, FinalKind, NodeMass, LocallyDone, Built, Here, NodesOk, Moved, CountsOk,
      Done, Shape, PassUp, Settle, Closed;
    CoreClosed(w, p, pe);
    if leaves == [] {
      NothingMoves(w, p, pe);
    } else {
      var c := leaves[0];
      SettleKeeps(w, p, pe, c);
      var one := Settle(pe, c);
      forall x | x in leaves[1..] ensures x in one.0.unfilled {
        var i :| 1 <= i < |leaves| && leaves[i] == x;
      }
      SettleAllKeeps(w, p, one.0, leaves[1..]);
      var rest := SettleAll(one.0, leaves[1..]);
      MovedTwice(w, p, pe, one.0, rest.0, one.1, rest.1);
      assert (set x | x in leaves) == {c} + (set x | x in leaves[1..]);
    }
  }

  lemma CoreClosed(w: World, p: nat, pe: PE)
    requires ValidWorld(w) && Core(w, p, pe)
    ensures Closed(pe.table) && forall c :: c in pe.unfilled ==> c in pe.table
  {
  }

  lemma SettleKeeps(w: World, p: nat, pe: PE, c: Cell)
    requires ValidWorld(w) && Core(w, p, pe) && CountsOk(pe, None)
    requires c in pe.unfilled && c.depth <= MAX_DEPTH && Here(w, c) == []
    requires pe.readyFired == if Done(pe, ROOT) then 1 else 0
    ensures Closed(pe.table) && c in pe.table
    ensures Absorbed(w, p, pe, c, Settle(pe, c).0, Settle(pe, c).1)
  {
    hide ValidWorld, RefinedAt, RemoteLeaf, LocallyDone, Built, NodesOk, Moved, CountsOk, Shape, PassUp, Here;
    UnfilledLeaf(w, p, pe, c);
    CoreNode(w, p, pe, c);
    RootWaits(w, p, pe, c);
    FillKeeps(w, p, pe, c, RemoteEmptyBucket, 0.0);
    var n := pe.table[c].(kind := RemoteEmptyBucket, first := 0, count := 0);
    var pe1 := pe.(table := pe.table[c := n], unfilled := pe.unfilled - {c});
    AbsorbKeeps(w, p, pe, c, pe1);
  }

  // ---------------- what the tree build and moments walk leave ----------------

  ghost function StartPE(w: World, p: nat, pe: PE, t: map<Cell, Node>): PE
    requires ValidWorld(w)
  {
    PE(true, t, (set c | c in t && c.depth <= MAX_DEPTH && RemoteLeaf(w, p, c)), pe.pending, 0, pe.aborted)
  }

  // After the walk a node is done exactly when everything below is local.
  lemma StartDone(w: World, p: nat, pe: PE, t: map<Cell, Node>, c: Cell)
    requires ValidWorld(w) && TableInit(w, p, t) && c in t
    ensures c.depth <= MAX_DEPTH && (Done(StartPE(w, p, pe, t), c) <==> LocallyDone(w, p, c))
  {
    hide ValidWorld, Shl, OwnerStart, OwnerEnd, LocalHere, FinalKind, NodeMass, Built, RangeRight, Owned;
    assert InitNode(w, p, c, t[c]);
    if RefinedAt(w, p, c) {
      BuiltValid(w, p, c);
      RefinedAtHasRoom(w, p, c);
      CountLocalFull(w, p, c, BRANCH);
    }
  }

  lemma {:induction false} StartCounts(w: World, p: nat, pe: PE, t: map<Cell, Node>, c: Cell, n: nat)
    requires ValidWorld(w) && TableInit(w, p, t) && c.depth < MAX_DEPTH && n <= BRANCH
    requires forall i: nat :: i < BRANCH ==> Child(c, i) in t
    ensures CountLocal(w, p, c, n) == CountDone(StartPE(w, p, pe, t), c, n)
  {
    hide ValidWorld, LocallyDone, Done, TableInit, StartPE;
    if n > 0 {
      StartCounts(w, p, pe, t, c, n - 1);
      StartDone(w, p, pe, t, Child(c, n - 1));
    }
  }

  lemma StartKeeps(w: World, p: nat, pe: PE, t: map<Cell, Node>)
    requires ValidWorld(w) && TableInit(w, p, t) && !pe.aborted
    ensures Core(w, p, StartPE(w, p, pe, t)) && CountsOk(StartPE(w, p, pe, t), None)
  {
    hide ValidWorld, LocallyDone, RefinedAt, Built, NodeMass, OwnerStart, OwnerEnd, RangeRight, RemoteKind, Done;
    var pe1 := StartPE(w, p, pe, t);
    forall c | c in t ensures NodeOk(w, p, pe1, c) {
      assert InitNode(w, p, c, t[c]);
      StartDone(w, p, pe, t, c);
      StartKind(w, p, c);
    }
    forall c | c in t && t[c].nchild > 0 ensures t[c].ready + Late(None, c) == CountDone(pe1, c, BRANCH) {
      assert InitNode(w, p, c, t[c]);
      BuiltValid(w, p, c);
      RefinedAtHasRoom(w, p, c);
      StartCounts(w, p, pe, t, c, BRANCH);
    }
    forall c | c in t ensures t[c].nchild == 0 ==> t[c].ready == 0 {
      assert InitNode(w, p, c, t[c]);
    }
  }

  lemma StartKind(w: World, p: nat, c: Cell)
    requires ValidWorld(w) && c.depth <= MAX_DEPTH
    ensures LocallyDone(w, p, c) ==> !RemoteLeaf(w, p, c)
    ensures !LocallyDone(w, p, c) && !RemoteLeaf(w, p, c) ==> FinalKind(w, p, c) != Internal
  {
  }

  // ---------------- processSubmittedParticles as one step ----------------

  // settleEmptyRemoteLeaves, then the extra passMomentsUpward of an Internal root.
  function SettleAndRoot(pe: PE, empties: seq<Cell>): (PE, seq<Msg>)
    requires Closed(pe.table) && forall c :: c in empties ==> c in pe.table
  {
    var settled := SettleAll(pe, empties);
    var up := if settled.0.table[ROOT].kind == Internal then PassUp(settled.0, ROOT) else (settled.0, []);
    (up.0, settled.1 + up.1)
  }

  // ... and flushMomentRequests.
  function Finish(pe: PE, empties: seq<Cell>, keys: seq<Cell>): (PE, seq<Msg>)
    requires Closed(pe.table) && forall c :: c in empties ==> c in pe.table
  {
    var up := SettleAndRoot(pe, empties);
    var flushed := Flush(up.0, keys);
    (flushed.0, up.1 + flushed.1)
  }

  // What a PE may be asked before it has built its tree.
  ghost predicate AsksOk(w: World, p: nat, pe: PE, npes: nat)
    requires ValidWorld(w)
  {
    forall c :: c in pe.pending ==>
      |pe.pending[c]| > 0
      && forall r :: r in pe.pending[c] ==> r < npes && RemoteServed(w, r, c) && Server(w, r, c) == p
  }

  ghost predicate LeavesOf(w: World, p: nat, leaves: seq<Cell>)
    requires ValidWorld(w)
  {
    && Distinct(leaves)
    && forall c :: c in leaves <==> Built(w, p, c) && c.depth <= MAX_DEPTH && RemoteLeaf(w, p, c)
  }

  lemma {:induction false} BelowLocallyDone(w: World, p: nat, c: Cell)
    requires ValidWorld(w) && Built(w, p, c) && LocallyDone(w, p, ROOT)
    ensures c.depth <= MAX_DEPTH && LocallyDone(w, p, c)
    decreases c.depth
  {
    hide ValidWorld, RefinedAt, LocalLeaf;
    if c != ROOT {
      var q := Parent(c);
      BelowLocallyDone(w, p, q);
      BuiltValid(w, p, q);
      RefinedAtHasRoom(w, p, q);
      assert Child(q, Slot(c)) == c;
    }
  }

  lemma AskedAnswerable(w: World, p: nat, pe: PE, npes: nat, k: Cell)
    requires ValidWorld(w) && AsksOk(w, p, pe, npes) && k in pe.pending
    ensures k.depth <= MAX_DEPTH && Built(w, p, k) && !RemoteLeaf(w, p, k)
  {
    hide ValidWorld, RemoteServed, RemoteLeaf, Built, Server;
    var r := pe.pending[k][0];
    assert r in pe.pending[k];
    RemoteServedDepth(w, r, k);
    ServerCanAnswer(w, r, k);
  }

  // The root of an all-local tree: this step alone makes it ready.
  lemma InternalRoot(w: World, p: nat, pe: PE)
    requires ValidWorld(w) && Core(w, p, pe) && CountsOk(pe, None)
    ensures ROOT in pe.table && Closed(pe.table)
    ensures pe.table[ROOT].kind == Internal ==> Done(pe, ROOT) && LocallyDone(w, p, ROOT) && !LocalLeaf(w, p, ROOT)
    ensures LocallyDone(w, p, ROOT) ==> Done(pe, ROOT)
    ensures pe.table[ROOT].kind != Internal && LocallyDone(w, p, ROOT) ==> LocalLeaf(w, p, ROOT)
  {
    hide ValidWorld, RefinedAt, NodeMass, Built, RangeRight, Owned, OwnerStart, OwnerEnd, LocalHere;
    assert NodeOk(w, p, pe, ROOT);
  }

  lemma LateRoot(pe: PE)
    requires CountsOk(pe, None)
    ensures CountsOk(pe, Some(ROOT))
  {
    forall c | c in pe.table && pe.table[c].nchild > 0
      ensures pe.table[c].ready + Late(Some(ROOT), c) == CountDone(pe, c, BRANCH)
    {
      assert Late(None, c) == Late(Some(ROOT), c) == 0;
    }
  }

  lemma RootStep(w: World, p: nat, pe: PE)
    requires ValidWorld(w) && Core(w, p, pe) && CountsOk(pe, None)
    requires pe.readyFired == if Done(pe, ROOT) && !LocallyDone(w, p, ROOT) then 1 else 0
    ensures ROOT in pe.table && Closed(pe.table)
    ensures var up := if pe.table[ROOT].kind == Internal then PassUp(pe, ROOT) else (pe, []);
            && Core(w, p, up.0) && CountsOk(up.0, None) && Moved(w, p, pe, up.0, up.1)
            && up.0.unfilled == pe.unfilled
            && up.0.readyFired == if Done(up.0, ROOT) && !LocalLeaf(w, p, ROOT) then 1 else 0
  {
    hide ValidWorld, RefinedAt, RemoteLeaf, FinalKind, NodeMass, LocallyDone, Built, NodesOk, Moved, CountsOk, Done,
      Shape,
      PassUp, LocalLeaf;
    InternalRoot(w, p, pe);
    LateRoot(pe);
    LocalLeafRoot(w, p);
    if pe.table[ROOT].kind == Internal {
      PassUpKeeps(w, p, pe, ROOT);
    } else {
      NothingMoves(w, p, pe);
    }
  }

  lemma LocalLeafRoot(w: World, p: nat)
    requires ValidWorld(w)
    ensures LocalLeaf(w, p, ROOT) ==> LocallyDone(w, p, ROOT)
  {
  }

  ghost predicate Finished(w: World, p: nat, pe: PE, pe': PE, out: seq<Msg>)
    requires ValidWorld(w)
  {
    && Core(w, p, pe') && CountsOk(pe', None) && Moved(w, p, pe, pe', out)
    && pe'.readyFired == (if Done(pe', ROOT) && !LocalLeaf(w, p, ROOT) then 1 else 0)
    && forall c :: c in pe'.unfilled <==> RemoteServed(w, p, c)
  }

  lemma SettleAndRootKeeps(w: World, p: nat, pe0: PE, t: map<Cell, Node>, leaves: seq<Cell>)
    requires ValidWorld(w) && Unstarted(pe0) && TableInit(w, p, t) && LeavesOf(w, p, leaves)
    requires forall c :: c in leaves ==> c.depth <= MAX_DEPTH && Owned(w, c)
    ensures var pe := StartPE(w, p, pe0, t);
            Closed(pe.table) && (forall c :: c in Unserved(w, p, leaves) ==> c in pe.table)
            && var r := SettleAndRoot(pe, Unserved(w, p, leaves)); Finished(w, p, pe, r.0, r.1)
  {
    hide ValidWorld, RefinedAt, RemoteLeaf, FinalKind, NodeMass, LocallyDone, Built, NodesOk, Moved, CountsOk, Done,
      Shape,
      PassUp, LocalLeaf, Settle, TableInit, Server, RemoteServed, ServingOwner, Core;
    var pe, empties := StartPE(w, p, pe0, t), Unserved(w, p, leaves);
    StartKeeps(w, p, pe0, t);
    CoreClosed(w, p, pe);
    StartUnfilled(w, p, pe0, t, leaves);
    StartFired(w, p, pe0, t, leaves);
    SettleAllKeeps(w, p, pe, empties);
    var settled := SettleAll(pe, empties);
    RootStep(w, p, settled.0);
    var up := if settled.0.table[ROOT].kind == Internal then PassUp(settled.0, ROOT) else (settled.0, []);
    MovedTwice(w, p, pe, settled.0, up.0, settled.1, up.1);
  }

  lemma FlushSettles(w: World, p: nat, pe0: PE, pe: PE, up: PE, out: seq<Msg>, keys: seq<Cell>, npes: nat)
    requires ValidWorld(w) && AsksOk(w, p, pe0, npes) && pe.pending == pe0.pending
    requires forall k :: k in pe0.pending ==> k in keys
    requires Finished(w, p, pe, up, out)
    ensures var r := Flush(up, keys);
            Settled(w, p, r.0) && Moved(w, p, pe0, r.0, out + r.1) && r.0.unfilled == up.unfilled
  {
    hide ValidWorld, RefinedAt, RemoteLeaf, FinalKind, NodeMass, LocallyDone, Built, NodesOk, Moved, CountsOk, Done,
      Shape,
      LocalLeaf, RemoteServed, AsksOk, Core;
    PendingShrinks(w, p, pe, up, out);
    forall k | k in up.pending ensures k in up.table && k.depth <= MAX_DEPTH && !RemoteLeaf(w, p, k) {
      AskedAnswerable(w, p, pe0, npes, k);
      InTable(w, p, up, k);
    }
    FlushKeeps(w, p, up, keys);
    var flushed := Flush(up, keys);
    MovedTwice(w, p, pe, up, flushed.0, out, flushed.1);
    SamePending(w, p, pe0, pe, flushed.0, out + flushed.1);
    PendingShrinks(w, p, up, flushed.0, flushed.1);
  }

  lemma FinishKeeps(w: World, p: nat, pe0: PE, t: map<Cell, Node>, leaves: seq<Cell>, keys: seq<Cell>, npes: nat)
    requires ValidWorld(w) && Unstarted(pe0) && TableInit(w, p, t) && AsksOk(w, p, pe0, npes)
    requires LeavesOf(w, p, leaves) && forall k :: k in pe0.pending ==> k in keys
    requires forall c :: c in leaves ==> c.depth <= MAX_DEPTH && Owned(w, c)
    ensures var pe := StartPE(w, p, pe0, t);
            Closed(pe.table) && (forall c :: c in Unserved(w, p, leaves) ==> c in pe.table)
            && var r := Finish(pe, Unserved(w, p, leaves), keys);
               Settled(w, p, r.0) && Moved(w, p, pe0, r.0, r.1)
               && forall c :: c in r.0.unfilled <==> RemoteServed(w, p, c)
  {
    hide ValidWorld, Settled, Moved, TableInit, AsksOk, LeavesOf, Flush, SettleAndRoot, Core, CountsOk, RemoteServed;
    SettleAndRootKeeps(w, p, pe0, t, leaves);
    var pe := StartPE(w, p, pe0, t);
    var up := SettleAndRoot(pe, Unserved(w, p, leaves));
    FlushSettles(w, p, pe0, pe, up.0, up.1, keys, npes);
  }

  lemma StartUnfilled(w: World, p: nat, pe: PE, t: map<Cell, Node>, leaves: seq<Cell>)
    requires ValidWorld(w) && TableInit(w, p, t) && LeavesOf(w, p, leaves)
    requires forall c :: c in leaves ==> c.depth <= MAX_DEPTH && Owned(w, c)
    ensures forall c :: c in Unserved(w, p, leaves) ==> c in StartPE(w, p, pe, t).unfilled && Here(w, c) == []
    ensures Distinct(Unserved(w, p, leaves))
    ensures forall c :: c in StartPE(w, p, pe, t).unfilled && c !in Unserved(w, p, leaves) <==> RemoteServed(w, p, c)
  {
    hide ValidWorld, RefinedAt, RemoteLeaf, FinalKind, NodeMass, LocallyDone, Built, InitNode, ServingOwner,
      OwnerStart, OwnerEnd,
      Owned, Closed;
    forall c | c in Unserved(w, p, leaves) ensures Here(w, c) == [] {
      ServedOrEmpty(w, p, c);
    }
    forall c: Cell | c.depth <= MAX_DEPTH && RemoteLeaf(w, p, c) ensures Owned(w, c) {
      RemoteLeafOwned(w, p, c);
    }
    forall c | RemoteServed(w, p, c) ensures c.depth <= MAX_DEPTH {
      RemoteServedDepth(w, p, c);
    }
    UnservedDistinct(w, p, leaves);
  }

  lemma {:induction false} UnservedDistinct(w: World, p: nat, leaves: seq<Cell>)
    requires ValidWorld(w) && Distinct(leaves)
    requires forall c :: c in leaves ==> c.depth <= MAX_DEPTH && Owned(w, c)
    ensures Distinct(Unserved(w, p, leaves))
  {
    hide ValidWorld, OwnerStart, OwnerEnd, Owned, ServingOwner;
    if leaves != [] {
      UnservedDistinct(w, p, leaves[1..]);
      var a := if ServingOwner(w, p, leaves[0]).None? then [leaves[0]] else [];
      assert forall x :: x in leaves[1..] ==> x != leaves[0];
      DistinctConcat(a, Unserved(w, p, leaves[1..]));
    }
  }

  lemma StartFired(w: World, p: nat, pe: PE, t: map<Cell, Node>, leaves: seq<Cell>)
    requires ValidWorld(w) && TableInit(w, p, t) && LeavesOf(w, p, leaves)
    ensures ROOT in t
    ensures Done(StartPE(w, p, pe, t), ROOT) <==> LocallyDone(w, p, ROOT)
    ensures leaves != [] ==> !LocallyDone(w, p, ROOT)
    ensures leaves == [] ==> LocallyDone(w, p, ROOT)
  {
    hide ValidWorld, RefinedAt, RemoteLeaf, FinalKind, NodeMass, LocallyDone, InitNode, Done;
    assert Built(w, p, ROOT);
    StartDone(w, p, pe, t, ROOT);
    if leaves != [] {
      assert leaves[0] in leaves;
      if LocallyDone(w, p, ROOT) {
        BelowLocallyDone(w, p, leaves[0]);
        StartKind(w, p, leaves[0]);
      }
    } else {
      NoLeavesLocal(w, p, leaves, ROOT);
    }
  }

  lemma {:induction false} NoLeavesLocal(w: World, p: nat, leaves: seq<Cell>, c: Cell)
    requires ValidWorld(w) && LeavesOf(w, p, leaves) && leaves == [] && Built(w, p, c) && c.depth <= MAX_DEPTH
    ensures LocallyDone(w, p, c)
    decreases MAX_DEPTH - c.depth
  {
    hide ValidWorld, RefinedAt, LocalLeaf;
    assert c !in leaves;
    if RefinedAt(w, p, c) && c.depth < MAX_DEPTH {
      forall i: nat | i < BRANCH ensures LocallyDone(w, p, Child(c, i)) {
        ChildParent(c, i);
        assert Built(w, p, Child(c, i));
        NoLeavesLocal(w, p, leaves, Child(c, i));
      }
    } else {
      BuiltValid(w, p, c);
      if RefinedAt(w, p, c) { RefinedAtHasRoom(w, p, c); }
    }
  }
}
