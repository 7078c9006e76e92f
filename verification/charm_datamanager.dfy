// The DataManager's moments entry methods, updating its tables in place.  Each
// is proved to do exactly what its function in Moments says, which is what the
// whole-system results are about.
module DataManagers {
  import opened TreeKeys
  import opened Decomposition
  import opened TreeBuild
  import opened NodeFacts
  import opened Moments
  import opened MomentsExchange
  import opened MomentsWalk

  class DataManager {
    var nodeTable: map<Cell, Node>
    var pendingMoments: map<Cell, seq<nat>>
    var doneTreeBuild: bool
    var treeReadyCalls: nat
    var aborted: bool
    var sent: seq<Msg>
    ghost var unfilled: set<Cell>

    ghost function State(): PE
      reads this
    {
      PE(doneTreeBuild, nodeTable, unfilled, pendingMoments, treeReadyCalls, aborted)
    }

    constructor ()
      ensures State() == PE(false, map[], {}, map[], 0, false) && sent == []
    {
      nodeTable, pendingMoments, doneTreeBuild, treeReadyCalls, aborted, sent := map[], map[], false, 0, false, [];
      unfilled := {};
    }

    method RespondToMomentsRequest(c: Cell, node: Node, replyTo: seq<nat>)
      modifies this`sent
      ensures sent == old(sent) + Respond(c, node, replyTo)
    {
      var i := 0;
      while i < |replyTo|
        invariant i <= |replyTo| && sent == old(sent) + Respond(c, node, replyTo)[..i]
      {
        sent := sent + [MomentsReply(replyTo[i], c, node.kind, node.mass)];
        i := i + 1;
      }
      assert Respond(c, node, replyTo)[..i] == Respond(c, node, replyTo);
    }

    method RequestMoments(k: Cell, replyTo: nat)
      modifies this
      ensures State() == OnRequest(old(State()), k, replyTo).0
      ensures sent == old(sent) + OnRequest(old(State()), k, replyTo).1
    {
      var requestors := (if k in pendingMoments then pendingMoments[k] else []) + [replyTo];
      pendingMoments := pendingMoments[k := requestors];
      if doneTreeBuild {
        if k !in nodeTable {
          aborted := true;
          return;
        }
        var node := nodeTable[k];
        if node.ready == node.nchild {
          RespondToMomentsRequest(k, node, requestors);
          pendingMoments := pendingMoments - {k};
          assert pendingMoments == old(pendingMoments) - {k};
        }
      }
    }

    method MassOfChildren(c: Cell, start: real) returns (mass: real)
      requires forall i: nat :: i < BRANCH ==> Child(c, i) in nodeTable
      ensures mass == start + SumMass(KidNodes(nodeTable, c))
    {
      var kids := KidNodes(nodeTable, c);
      mass := start;
      var i := 0;
      while i < BRANCH
        invariant i <= BRANCH && mass == start + SumMass(kids[..i])
      {
        assert kids[..i + 1][..i] == kids[..i];
        mass := mass + nodeTable[Child(c, i)].mass;
        i := i + 1;
      }
      assert kids[..i] == kids;
    }

    static lemma CombineIs(t: map<Cell, Node>, q: Cell, mass: real, first: int, last: int, kind: NodeType)
      requires Closed(t) && q in t && t[q].nchild > 0 && mass == t[q].mass + SumMass(KidNodes(t, q))
      requires var s := ScanChildren(KidNodes(t, q));
               first == s.firstStart && last == s.lastEnd && kind == if s.external then Remote else Boundary
      ensures Combine(t, q) == t[q].(mass := mass, ownerStart := first, ownerEnd := last, kind := kind)
    {
      hide Closed, SumMass, ScanChildren;
    }

    // childMomentsReady on the parent and, after the last child, the parent's
    // moments, owner range and type.
    method ReportTo(q: Cell) returns (complete: bool)
      requires Closed(nodeTable) && q in nodeTable && nodeTable[q].nchild > 0
      modifies this`nodeTable, this`aborted
      ensures State() == Reported(old(State()), q)
      ensures complete == SaysReady(nodeTable[q])
    {
      hide Combine, SumMass, ScanChildren, KidNodes;
      nodeTable := Bump(nodeTable, q);
      complete := nodeTable[q].ready == nodeTable[q].nchild;
      if complete {
        var mass := MassOfChildren(q, nodeTable[q].mass);
        var first, last, kind, gap := OwnershipFromChildren(KidNodes(nodeTable, q));
        aborted := aborted || gap;
        CombineIs(nodeTable, q, mass, first, last, kind);
        nodeTable := nodeTable[q := nodeTable[q].(mass := mass, ownerStart := first, ownerEnd := last, kind := kind)];
      }
    }

    method PassMomentsUpward(c: Cell)
      requires Closed(nodeTable) && c in nodeTable
      modifies this
      ensures State() == PassUp(old(State()), c).0
      ensures sent == old(sent) + PassUp(old(State()), c).1
      decreases c.depth
    {
      hide ValidWorld, Reported, Respond, Closed;
      ParentLinked(nodeTable, c);
      ghost var before := State();
      if c in pendingMoments {
        RespondToMomentsRequest(c, nodeTable[c], pendingMoments[c]);
      }
      pendingMoments := pendingMoments - {c};
      assert sent == old(sent) + Respond(c, nodeTable[c], Waiting(before, c)) by { NobodyAsked(c, nodeTable[c]); }
      if c == ROOT {
        treeReadyCalls := treeReadyCalls + 1;
      } else {
        var parent := Parent(c);
        var complete := ReportTo(parent);
        if complete {
          PassMomentsUpward(parent);
        }
      }
    }

    method ReceiveMoments(c: Cell, kind: NodeType, mass: real)
      requires doneTreeBuild ==> Closed(nodeTable)
      modifies this
      ensures State() == OnReply(old(State()), c, kind, mass).0
      ensures sent == old(sent) + OnReply(old(State()), c, kind, mass).1
    {
      if !doneTreeBuild || c !in nodeTable {
        aborted := true;
        return;
      }
      var node := nodeTable[c].(kind := MakeRemote(kind), mass := mass, first := 0, count := 0);
      ClosedAfter(nodeTable, c, node);
      nodeTable := nodeTable[c := node];
      unfilled := unfilled - {c};
      PassMomentsUpward(c);
    }

    method SettleLeaf(c: Cell)
      requires Closed(nodeTable) && c in nodeTable
      modifies this
      ensures State() == Settle(old(State()), c).0
      ensures sent == old(sent) + Settle(old(State()), c).1
    {
      hide ValidWorld, PassUp;
      var node := nodeTable[c].(kind := RemoteEmptyBucket, first := 0, count := 0);
      ClosedAfter(nodeTable, c, node);
      nodeTable := nodeTable[c := node];
      unfilled := unfilled - {c};
      PassMomentsUpward(c);
    }

    method SettleEmptyRemoteLeaves(leaves: seq<Cell>)
      requires Closed(nodeTable) && forall c :: c in leaves ==> c in nodeTable
      modifies this
      ensures State() == SettleAll(old(State()), leaves).0
      ensures sent == old(sent) + SettleAll(old(State()), leaves).1
    {
      hide ValidWorld, Settle, Closed;
      var i := 0;
      while i < |leaves|
        invariant i <= |leaves| && Closed(nodeTable) && nodeTable.Keys == old(nodeTable.Keys)
        invariant SettleAll(old(State()), leaves).0 == SettleAll(State(), leaves[i..]).0
        invariant old(sent) + SettleAll(old(State()), leaves).1 == sent + SettleAll(State(), leaves[i..]).1
      {
        assert leaves[i..][0] == leaves[i] && leaves[i..][1..] == leaves[i + 1..];
        SettleLeaf(leaves[i]);
        i := i + 1;
      }
    }

    // buildTree and makeMoments: t and leaves are the table and the remote leaves
    // the walk left.
    method BuildAndAsk(w: World, p: nat, tps: seq<nat>)
      returns (ghost t: map<Cell, Node>, ghost leaves: seq<Cell>, empties: seq<Cell>, buckets: seq<Cell>)
      requires ValidWorld(w) && LocalPieces(w, p, tps) && Unstarted(State())
      modifies this
      ensures MomentsMade(w, p, t, leaves) && buckets == LocalBuckets(w, p)
      ensures (forall c :: c in leaves ==> c.depth <= MAX_DEPTH && Owned(w, c)) && empties == Unserved(w, p, leaves)
      ensures State() == StartPE(w, p, old(State()), t) && sent == old(sent) + Asked(w, p, leaves)
    {
      hide ValidWorld, TreeRight, TableInit, LocalPieces, LeavesOf, PostOrder, LocalBuckets, BucketsOf, Shallow, Asked,
        Unserved, StartPE, RemoteOf, MomentsMade;
      var tree := BuildTree(w, p);
      var mw := MakeMoments(w, p, tree, tps);
      t, leaves, empties, buckets := mw.nodes, RemoteOf(w, p, mw.visited), mw.emptyRemoteLeaves, mw.buckets;
      MadeFacts(w, p, t, leaves);
      nodeTable, unfilled := mw.nodes, StartPE(w, p, State(), t).unfilled;
      sent := sent + mw.sent;
      doneTreeBuild := true;
      Started(w, p, old(State()), State(), t);
    }

    method SettleAndPass(empties: seq<Cell>)
      requires Closed(nodeTable) && forall c :: c in empties ==> c in nodeTable
      modifies this
      ensures var r := SettleAndRoot(old(State()), empties); State() == r.0 && sent == old(sent) + r.1
    {
      hide ValidWorld, PassUp, SettleAll, Closed;
      SettleEmptyRemoteLeaves(empties);
      SettledRoot(nodeTable);
      if nodeTable[ROOT].kind == Internal {
        PassMomentsUpward(ROOT);
      }
    }

    // processSubmittedParticles from the sorted particles on: build the tree,
    // walk it for moments and requests, settle the empty leaves, pass an Internal
    // root's moments up, answer whoever is waiting.  This is the build step of
    // the whole-system results.
    method ProcessSubmittedParticles(w: World, p: nat, tps: seq<nat>)
      returns (ghost t: map<Cell, Node>, ghost leaves: seq<Cell>, keys: seq<Cell>, buckets: seq<Cell>)
      requires ValidWorld(w) && LocalPieces(w, p, tps) && Unstarted(State())
      modifies this
      ensures MomentsMade(w, p, t, leaves) && forall k :: k in old(pendingMoments) ==> k in keys
      ensures buckets == LocalBuckets(w, p)
      ensures forall c :: c in leaves ==> c.depth <= MAX_DEPTH && Owned(w, c)
      ensures Closed(StartPE(w, p, old(State()), t).table) && forall c :: c in Unserved(w, p, leaves) ==> c in t
      ensures var r := Finish(StartPE(w, p, old(State()), t), Unserved(w, p, leaves), keys);
              State() == r.0 && sent == old(sent) + Asked(w, p, leaves) + r.1
    {
      hide ValidWorld, LocalBuckets, StartPE, Asked, Unserved, Flush, SettleAndRoot, MomentsMade, LocalPieces, Closed;
      keys := SomeOrder(pendingMoments.Keys);
      var empties;
      t, leaves, empties, buckets := BuildAndAsk(w, p, tps);
      MadeFacts(w, p, t, leaves);
      StartTable(w, p, old(State()), t);
      SettleAndPass(empties);
      FlushMomentRequests(keys);
    }

    method FlushMomentRequests(keys: seq<Cell>)
      modifies this
      ensures State() == Flush(old(State()), keys).0
      ensures sent == old(sent) + Flush(old(State()), keys).1
    {
      var i := 0;
      while i < |keys|
        invariant i <= |keys|
        invariant Flush(old(State()), keys).0 == Flush(State(), keys[i..]).0
        invariant old(sent) + Flush(old(State()), keys).1 == sent + Flush(State(), keys[i..]).1
      {
        var k := keys[i];
        assert keys[i..][0] == k && keys[i..][1..] == keys[i + 1..];
        if k in pendingMoments {
          if k !in nodeTable {
            aborted := true;
          } else if nodeTable[k].ready == nodeTable[k].nchild {
            RespondToMomentsRequest(k, nodeTable[k], pendingMoments[k]);
            pendingMoments := pendingMoments - {k};
          }
        }
        i := i + 1;
      }
    }
  }

  lemma ParentLinked(t: map<Cell, Node>, c: Cell)
    requires Closed(t) && c in t
    ensures c != ROOT ==> c.depth > 0 && Parent(c) in t && t[Parent(c)].nchild > 0
  {
  }

  lemma NobodyAsked(c: Cell, n: Node)
    ensures Respond(c, n, []) == []
  {
  }

  // The keys of a map, in whatever order it keeps them.
  method SomeOrder(keys: set<Cell>) returns (order: seq<Cell>)
    ensures forall k :: k in order <==> k in keys
  {
    order := [];
    var left := keys;
    while left != {}
      invariant left <= keys && forall k :: k in keys <==> k in order || k in left
      decreases |left|
    {
      var k :| k in left;
      order := order + [k];
      left := left - {k};
    }
  }

  lemma MadeFacts(w: World, p: nat, t: map<Cell, Node>, leaves: seq<Cell>)
    requires ValidWorld(w) && MomentsMade(w, p, t, leaves)
    ensures Closed(t) && (forall c :: c in leaves ==> c.depth <= MAX_DEPTH && Owned(w, c))
    ensures forall c :: c in Unserved(w, p, leaves) ==> c in t
  {
    hide ValidWorld, InitNode, RefinedAt, RemoteLeaf, Owned, ServingOwner, Built;
  }

  lemma Started(w: World, p: nat, pe0: PE, pe: PE, t: map<Cell, Node>)
    requires ValidWorld(w) && Unstarted(pe0)
    requires pe == PE(true, t, StartPE(w, p, pe0, t).unfilled, pe0.pending, pe0.readyFired, pe0.aborted)
    ensures pe == StartPE(w, p, pe0, t)
  {
  }

  lemma StartTable(w: World, p: nat, pe0: PE, t: map<Cell, Node>)
    requires ValidWorld(w)
    ensures StartPE(w, p, pe0, t).table == t
  {
  }

  lemma SettledRoot(t: map<Cell, Node>)
    requires Closed(t)
    ensures ROOT in t
  {
  }
}
