// A PE's entry methods during the walks, updating its tables in place: group
// forming, the local and remote walks with their `pending` counters, the request
// tables, and the delivery of replies.  Each is proved to do what its function in
// FetchCache, FetchSteps and WalkSystem says.
module WalkingPEs {
  import opened TreeKeys
  import opened Decomposition
  import opened TreeBuild
  import opened NodeFacts
  import opened GravityWalks
  import opened GroupWalks
  import opened TreeViews
  import opened Subtrees
  import opened FetchCache
  import opened FetchInvariant
  import opened FetchSteps
  import opened WalkSystem
  import opened WalkRuns

  const WALK_GROUP_MAX_BUCKETS: nat := 32

  // ---------------- formWalkGroups ----------------

  ghost function CountIn(counts: seq<nat>, from: nat, to: nat): nat
    requires from <= to <= |counts|
  {
    if from == to then 0 else CountIn(counts, from, to - 1) + counts[to - 1]
  }

  // Consecutive buckets, few enough, and light enough unless alone; the group ends
  // only where the next bucket would be one too many or too heavy.
  ghost predicate GroupOk(counts: seq<nat>, most: nat, from: nat, to: nat) {
    && from < to <= |counts| && to - from <= WALK_GROUP_MAX_BUCKETS
    && (to - from > 1 ==> CountIn(counts, from, to) <= most)
    && (to < |counts| && to - from < WALK_GROUP_MAX_BUCKETS ==> CountIn(counts, from, to) + counts[to] > most)
  }

  // Groups that tile the buckets, in order.
  ghost predicate Formed(counts: seq<nat>, most: nat, ends: seq<nat>) {
    && |ends| > 0 && ends[0] == 0 && ends[|ends| - 1] == |counts|
    && forall g :: 0 < g < |ends| ==> GroupOk(counts, most, ends[g - 1], ends[g])
  }

  // counts[b] is the number of particles of a TreePiece's b-th nonempty bucket;
  // ends[g] is where group g ends.
  method FormWalkGroups(counts: seq<nat>, most: nat) returns (ends: seq<nat>)
    ensures Formed(counts, most, ends)
  {
    ends := [0];
    var i: nat := 0;
    while i < |counts|
      invariant i <= |counts| && |ends| > 0 && ends[0] == 0 && ends[|ends| - 1] == i
      invariant forall g :: 0 < g < |ends| ==> GroupOk(counts, most, ends[g - 1], ends[g])
    {
      ghost var from := i;
      var numBuckets, particles := 0, 0;
      while i < |counts| && numBuckets < WALK_GROUP_MAX_BUCKETS
        invariant from <= i <= |counts| && numBuckets == i - from <= WALK_GROUP_MAX_BUCKETS
        invariant particles == CountIn(counts, from, i) && (numBuckets > 1 ==> particles <= most)
      {
        var np := counts[i];
        if numBuckets > 0 && particles + np > most { break; }
        particles, numBuckets, i := particles + np, numBuckets + 1, i + 1;
      }
      ends := ends + [i];
    }
  }

  // ---------------- which waits a walk can leave ----------------

  lemma {:induction false} BelowWaits(opens: Opening, local: bool, t: Tree, b: nat, c: Cell)
    requires Linked(t) && c in t
    ensures forall x :: x in Below(opens, local, t, b, c).waits ==> x in t
    decreases MAX_DEPTH - c.depth, BRANCH + 1
  {
    hide Linked, Enters, SeenKids, BelowKids;
    if t[c].nchild > 0 {
      OnlySeen(opens, local, t, b, c, BRANCH);
      BelowKidsWaits(opens, local, t, b, c, 0);
    }
  }

  lemma {:induction false} BelowKidsWaits(opens: Opening, local: bool, t: Tree, b: nat, c: Cell, i: nat)
    requires Linked(t) && c in t && t[c].nchild > 0 && i <= BRANCH
    ensures forall x :: x in BelowKids(opens, local, t, b, c, i).waits ==> x in t
    decreases MAX_DEPTH - c.depth, BRANCH - i
  {
    hide Linked, Enters, Below;
    KidLinked(t, c);
    if i < BRANCH {
      BelowWaits(opens, local, t, b, Child(c, i));
      BelowKidsWaits(opens, local, t, b, c, i + 1);
    }
  }

  lemma WalkWaits(opens: Opening, local: bool, t: Tree, b: nat, c: Cell)
    requires Linked(t) && c in t
    ensures forall x :: x in Walk(opens, local, t, b, c).waits ==> x in t
  {
    hide Linked, Below;
    BelowWaits(opens, local, t, b, c);
  }

  lemma {:induction false} KidWalksWaits(opens: Opening, t: Tree, b: nat, x: Cell, n: nat)
    requires Linked(t) && x in t && t[x].nchild > 0 && n <= BRANCH
    ensures forall y :: y in KidWalks(opens, t, b, x, n).waits ==> y in t
  {
    hide Linked, Walk;
    KidLinked(t, x);
    if n > 0 {
      KidWalksWaits(opens, t, b, x, n - 1);
      WalkWaits(opens, false, t, b, Child(x, n - 1));
    }
  }

  // Every wait is one of some bucket's own.
  lemma WaitsCells(t: Tree, ws: seq<Wait>)
    requires Linked(t) && Masked(ws) && forall b, x :: x in WaitsOf(ws, b) ==> x in t
    ensures forall x :: x in ws ==> x.cell in t && x.cell.depth <= MAX_DEPTH
  {
    hide WaitsOf;
    forall x | x in ws ensures x.cell in t {
      var i :| 0 <= i < |ws| && ws[i] == x;
      var b :| b in x.mask;
      WaitFrom(ws, b, i);
    }
  }

  lemma GroupWaits(opens: Opening, t: Tree, mask: set<nat>, ws: seq<Wait>)
    requires Linked(t) && ROOT in t && LeftByWalk(opens, t, mask, ws)
    ensures forall x :: x in ws ==> x.cell in t && x.cell.depth <= MAX_DEPTH
  {
    hide Linked, Walk;
    forall b, x | x in WaitsOf(ws, b) ensures x in t { WalkWaits(opens, false, t, b, ROOT); }
    WaitsCells(t, ws);
  }

  lemma ResumedWaits(opens: Opening, t: Tree, r: Requestor, ws: seq<Wait>)
    requires Linked(t) && r.cell in t && LeftByResume(opens, t, r, ws)
    ensures forall x :: x in ws ==> x.cell in t && x.cell.depth <= MAX_DEPTH
  {
    hide Linked, KidWalks;
    forall b, x | x in WaitsOf(ws, b) ensures x in t {
      if t[r.cell].nchild > 0 { KidWalksWaits(opens, t, b, r.cell, BRANCH); }
    }
    WaitsCells(t, ws);
  }

  // ---------------- the PE ----------------

  class WalkingPE {
    const w: World
    const p: nat
    const opens: Opening
    var tree: Tree
    var requests: map<Cell, bool>
    var requestors: seq<Requestor>
    var tps: seq<TreePiece>
    var localHits: Hits
    var remoteHits: Hits
    var doneTPs: nat
    var finished: nat
    var aborted: bool
    var sent: seq<Fetch>

    ghost function State(): Walker
      reads this
    {
      Walker(tree, requests, requestors, tps, localHits, remoteHits, doneTPs, finished, aborted)
    }

    constructor (w0: World, p0: nat, opens0: Opening, t: Tree, groups: seq<seq<set<nat>>>)
      ensures w == w0 && p == p0 && opens == opens0 && sent == [] && State() == Unstarted(t, groups)
    {
      w, p, opens, tree := w0, p0, opens0, t;
      requests, requestors, localHits, remoteHits, finished, aborted, sent := map[], [], map[], map[], 0, false, [];
      tps, doneTPs := NoneStarted(groups), 0;
    }

    // startTraversal of every TreePiece on the finished tree.
    method StartTraversals(ghost groups: seq<seq<set<nat>>>)
      requires State() == Unstarted(tree, groups)
      modifies this`tps, this`doneTPs, this`finished, this`aborted
      ensures State() == StartWalker(tree, groups)
    {
      if |tps| == 0 { finished := finished + 1; }
      var i := 0;
      while i < |tps|
        invariant i <= |tps| == |groups| && State() == Starting(tree, groups, i) && tree == old(tree)
      {
        StartNext(tree, groups, i);
        if |tps[i].groups| == 0 {
          TraversalDone(i);
          TraversalDone(i);
        }
        i := i + 1;
      }
      AllStarted(tree, groups);
    }

    // TreePiece::traversalDone, and the DataManager's traversalsDone.
    method TraversalDone(tp: nat)
      requires tp < |tps|
      modifies this`tps, this`doneTPs, this`finished, this`aborted
      ensures State() == FetchCache.TraversalDone(old(State()), tp) && |tps| == |old(tps)|
    {
      var one := tps[tp];
      one := one.(traversals := one.traversals + 1);
      if one.traversals == 2 {
        one := one.(traversals := 0, reported := one.reported + 1);
        doneTPs := doneTPs + 1;
        if doneTPs == |tps| {
          aborted := aborted || requestors != [] || exists x :: x in requests && !requests[x];
          finished := finished + 1;
        }
      }
      tps := tps[tp := one];
    }

    // State::decrPending, and done() when nothing is pending.
    method DecrPending(tp: nat, n: nat)
      requires tp < |tps|
      modifies this`tps, this`doneTPs, this`finished, this`aborted
      ensures State() == Account(old(State()), tp, n) && |tps| == |old(tps)|
    {
      hide FetchCache.TraversalDone;
      var one := tps[tp];
      one := one.(remote := one.remote.(pending := one.remote.pending - n));
      tps := tps[tp := one];
      if one.remote.pending == 0 { TraversalDone(tp); }
    }

    method DecrLocalPending(tp: nat, n: nat)
      requires tp < |tps|
      modifies this`tps, this`doneTPs, this`finished, this`aborted
      ensures State() == AccountLocal(old(State()), tp, n) && |tps| == |old(tps)|
    {
      hide FetchCache.TraversalDone;
      var one := tps[tp];
      one := one.(local := one.local.(pending := one.local.pending - n));
      tps := tps[tp := one];
      if one.local.pending == 0 { TraversalDone(tp); }
    }

    // The message of requestNode, to an owner that can serve the node, and of
    // requestParticles, to the bucket's one owner.
    method SendRequest(c: Cell)
      requires ValidWorld(w) && c in tree && c.depth <= MAX_DEPTH
      modifies this`sent, this`aborted
      ensures sent == old(sent) + Ask(w, p, tree, c) && aborted == (old(aborted) || Ask(w, p, tree, c) == [])
    {
      hide ValidWorld, OwnerStart, OwnerEnd, ServingOwner;
      var ownerStart, ownerEnd := OwnerStart(w, c), OwnerEnd(w, c);
      if tree[c].kind == Remote && ownerStart <= ownerEnd {
        var owner := ServingOwnerLoop(w, p, c, ownerStart, ownerEnd);
        if owner < 0 {
          aborted := true;
        } else {
          InPieces(w, p, c);
          sent := sent + [NodeRequest(w.pieces[owner].home, c, p)];
        }
      } else if tree[c].kind != Remote && ownerStart == ownerEnd {
        sent := sent + [PartRequest(w.pieces[ownerStart].home, c, p)];
      } else {
        aborted := true;
      }
    }

    // requestNode or requestParticles, after incrPending.
    method RequestData(tp: nat, x: Wait)
      requires ValidWorld(w) && x.cell in tree && x.cell.depth <= MAX_DEPTH && tp < |tps|
      modifies this`tps, this`requests, this`requestors, this`aborted, this`sent
      ensures State() == Suspend(w, p, old(State()), tp, x).0
      ensures sent == old(sent) + Suspend(w, p, old(State()), tp, x).1
    {
      hide ValidWorld, Ask;
      var one := tps[tp];
      tps := tps[tp := one.(remote := one.remote.(pending := one.remote.pending + 1))];
      if x.cell !in requests {
        requests := requests[x.cell := false];
        SendRequest(x.cell);
      }
      requestors := requestors + [Requestor(x.cell, tp, x.mask)];
    }

    // The requests of one walk, in the order in which it met the leaves.
    method RequestAll(tp: nat, ws: seq<Wait>)
      requires ValidWorld(w) && CanSuspend(State(), tp, ws)
      modifies this`tps, this`requests, this`requestors, this`aborted, this`sent
      ensures State() == SuspendAll(w, p, old(State()), tp, ws).0
      ensures sent == old(sent) + SuspendAll(w, p, old(State()), tp, ws).1
    {
      hide ValidWorld, Suspend;
      var i := 0;
      assert ws[0..] == ws;
      while i < |ws|
        invariant i <= |ws| && CanSuspend(State(), tp, ws[i..])
        invariant SuspendAll(w, p, old(State()), tp, ws).0 == SuspendAll(w, p, State(), tp, ws[i..]).0
        invariant old(sent) + SuspendAll(w, p, old(State()), tp, ws).1
            == sent + SuspendAll(w, p, State(), tp, ws[i..]).1
      {
        SuspendNext(w, p, State(), tp, ws[i..]);
        assert ws[i..][0] == ws[i] && ws[i..][1..] == ws[i + 1..];
        RequestData(tp, ws[i]);
        i := i + 1;
      }
    }

    // One group of doRemoteGravity.
    method StartRemoteGroup(tp: nat) returns (ghost ws: seq<Wait>)
      requires ValidWorld(w) && Linked(tree) && ROOT in tree && tp < |tps| && tps[tp].remote.current < |tps[tp].groups|
      modifies this`tps, this`requests, this`requestors, this`remoteHits, this`aborted, this`sent
      ensures CanSuspend(old(State()), tp, ws) && tree == old(tree)
      ensures LeftByWalk(opens, tree, old(tps[tp].groups[tps[tp].remote.current]), ws)
      ensures State() == StartGroup(w, p, opens, old(State()), tp, ws).0
      ensures sent == old(sent) + StartGroup(w, p, opens, old(State()), tp, ws).1
    {
      hide ValidWorld, Linked, Walk, SuspendAll;
      var one := tps[tp];
      var mask := one.groups[one.remote.current];
      var hits, waits := WalkFrom(opens, false, tree, ROOT, mask);
      ws := waits;
      LeftIs(opens, tree, mask, ws);
      GroupWaits(opens, tree, mask, ws);
      remoteHits := Gained(remoteHits, mask, hits);
      GainedIs(opens, false, tree, old(remoteHits), mask, hits);
      tps := tps[tp := one.(remote := one.remote.(current := one.remote.current + 1))];
      RequestAll(tp, waits);
    }

    // One group of doLocalGravity: it never waits.
    method StartOneLocalGroup(tp: nat)
      requires Linked(tree) && ROOT in tree && tp < |tps| && tps[tp].local.current < |tps[tp].groups|
      modifies this`tps, this`localHits
      ensures State() == StartLocalGroup(opens, old(State()), tp)
    {
      hide Linked, Walk;
      var one := tps[tp];
      var mask := one.groups[one.local.current];
      var hits, _ := WalkFrom(opens, true, tree, ROOT, mask);
      localHits := Gained(localHits, mask, hits);
      GainedIs(opens, true, tree, old(localHits), mask, hits);
      tps := tps[tp := one.(local := one.local.(current := one.local.current + 1))];
    }

    // doRemoteGravity: groups until yieldPeriod buckets' worth are done.  wss is
    // what each group left waiting; again says to call it again.
    method DoRemoteGravity(tp: nat, yieldPeriod: nat) returns (again: bool, ghost wss: seq<seq<Wait>>)
      requires ValidWorld(w) && Linked(tree) && ROOT in tree && tp < |tps| && tps[tp].remote.current < |tps[tp].groups|
      modifies this`tps, this`requests, this`requestors, this`remoteHits, this`doneTPs, this`finished, this`aborted,
            this`sent
      ensures CanStart(old(State()), tp, wss) && GroupsLeft(opens, old(State()), tp, wss)
      ensures (yieldPeriod > 0 ==> wss != [])
      ensures State() == DoRemote(w, p, opens, old(State()), tp, wss).0
      ensures sent == old(sent) + DoRemote(w, p, opens, old(State()), tp, wss).1
    {
      hide ValidWorld, Linked, StartGroup, LeftByWalk, Account;
      ghost var pe := State();
      wss := [];
      var i, buckets := 0, 0;
      while buckets < yieldPeriod && tps[tp].remote.current < |tps[tp].groups|
        invariant tree == pe.tree && CanStart(pe, tp, wss) && GroupsLeft(opens, pe, tp, wss) && i == |wss|
        invariant State() == StartGroups(w, p, opens, pe, tp, wss).0
        invariant sent == old(sent) + StartGroups(w, p, opens, pe, tp, wss).1
        invariant tp < |tps| && (buckets < yieldPeriod || wss != [] || yieldPeriod == 0) && (wss == [] ==> buckets == 0)
        decreases |pe.tps[tp].groups| - |wss|
      {
        GroupsAdvance(w, p, opens, pe, tp, wss);
        buckets := buckets + |tps[tp].groups[tps[tp].remote.current]|;
        ghost var ws := StartRemoteGroup(tp);
        GroupsSnoc(w, p, opens, pe, tp, wss, ws);
        wss := wss + [ws];
        i := i + 1;
        GroupsAdvance(w, p, opens, pe, tp, wss);
      }
      GroupsAdvance(w, p, opens, pe, tp, wss);
      DecrPending(tp, i);
      again := tps[tp].remote.pending != 0 && tps[tp].remote.current < |tps[tp].groups|;
    }

    method DoLocalGravity(tp: nat, yieldPeriod: nat) returns (again: bool, n: nat)
      requires Linked(tree) && ROOT in tree && tp < |tps| && tps[tp].local.current < |tps[tp].groups|
      modifies this`tps, this`localHits, this`doneTPs, this`finished, this`aborted
      ensures CanStartLocal(old(State()), tp, n) && (yieldPeriod > 0 ==> n > 0)
      ensures State() == DoLocal(opens, old(State()), tp, n)
    {
      hide Linked, StartLocalGroup, AccountLocal;
      ghost var pe := State();
      n := 0;
      var buckets := 0;
      while buckets < yieldPeriod && tps[tp].local.current < |tps[tp].groups|
        invariant tree == pe.tree && CanStartLocal(pe, tp, n) && State() == StartLocalGroups(opens, pe, tp, n)
        invariant tp < |tps|
        invariant (buckets < yieldPeriod || n > 0 || yieldPeriod == 0) && (n == 0 ==> buckets == 0)
        decreases |pe.tps[tp].groups| - n
      {
        LocalAdvance(opens, pe, tp, n);
        buckets := buckets + |tps[tp].groups[tps[tp].local.current]|;
        StartOneLocalGroup(tp);
        LocalSnoc(opens, pe, tp, n);
        n := n + 1;
        LocalAdvance(opens, pe, tp, n);
      }
      DecrLocalPending(tp, n);
      again := tps[tp].local.pending != 0 && tps[tp].local.current < |tps[tp].groups|;
    }

    // One requestor of deliverNode or deliverParticles.
    method ResumeOne(r: Requestor, isNode: bool) returns (ghost ws: seq<Wait>)
      requires ValidWorld(w) && Linked(tree) && r.cell in tree && r.tp < |tps| && (isNode <==> tree[r.cell].nchild > 0)
      modifies this`tps, this`requests, this`requestors, this`remoteHits, this`doneTPs, this`finished, this`aborted,
            this`sent
      ensures CanSuspend(old(State()), r.tp, ws) && LeftByResume(opens, tree, r, ws)
      ensures State() == Resume(w, p, opens, old(State()), r, ws).0
      ensures sent == old(sent) + Resume(w, p, opens, old(State()), r, ws).1
    {
      hide ValidWorld, Linked, Account, SuspendAll, KidWalks, Account;
      var hits, waits;
      if isNode {
        hits, waits := WalkKids(opens, tree, r.cell, r.mask);
      } else {
        hits, waits := MeetParticles(r.cell, r.mask);
      }
      ws := waits;
      ResumedIs(opens, tree, r, hits, ws, remoteHits);
      ResumedWaits(opens, tree, r, ws);
      remoteHits := Gained(remoteHits, r.mask, hits);
      ghost var pe1 := State();
      SuspendKeepsTps(w, p, pe1, r.tp, ws);
      RequestAll(r.tp, waits);
      DecrPending(r.tp, 1);
    }

    // recvNode and recvParticles: the reply is attached, then every walk that
    // waited for it is resumed.
    method ReceiveReply(m: Fetch) returns (ghost wss: seq<seq<Wait>>)
      requires ValidWorld(w) && !IsAsk(m) && Deliverable(State(), m)
      modifies this`tree, this`tps, this`requests, this`requestors, this`remoteHits, this`doneTPs, this`finished,
            this`aborted, this`sent
      ensures exists out :: Receives(w, p, opens, old(State()), m, wss, State(), out) && sent == old(sent) + out
    {
      hide ValidWorld, Linked, Resume, LeftByResume, TreeAfter, Expected, CanResume, AllLeft, ResumeAll, Only, Except;
      ghost var pe := State();
      var x := m.cell;
      wss := [];
      if !(x in requests && !requests[x] && x in tree && Only(requestors, x) != []) {
        aborted := true;
        assert !Expected(pe, x) by { NotExpected(pe, x); }
        assert Receives(w, p, opens, pe, m, wss, State(), []);
        return;
      }
      assert Expected(pe, x) by { IsExpected(pe, x); }
      var rs := Only(requestors, x);
      tree := TreeAfter(tree, m);
      requests := requests[x := true];
      requestors := Except(requestors, x);
      ghost var pe1 := State();
      DeliverableFacts(pe, m);
      var i := 0;
      assert rs[..i] == [];
      ResumeNone(w, p, opens, pe1);
      while i < |rs|
        invariant i == |wss| <= |rs| && tree == pe1.tree && |tps| == |pe1.tps|
        invariant CanResume(pe1, rs[..i], wss) && AllLeft(opens, pe1.tree, rs[..i], wss)
        invariant State() == ResumeAll(w, p, opens, pe1, rs[..i], wss).0
        invariant sent == old(sent) + ResumeAll(w, p, opens, pe1, rs[..i], wss).1
      {
        assert rs[i] in rs;
        ghost var before := State();
        ghost var ws := ResumeOne(rs[i], m.NodeReply?);
        ResumeFrame(w, p, opens, before, rs[i], ws);
        ResumeSnoc(w, p, opens, pe1, rs[..i], wss, rs[i], ws);
        assert rs[..i + 1] == rs[..i] + [rs[i]];
        wss := wss + [ws];
        i := i + 1;
      }
      assert rs[..i] == rs;
      assert Receives(w, p, opens, pe, m, wss, State(), ResumeAll(w, p, opens, pe1, rs, wss).1);
    }
  }

  // The reply can be attached, and whoever waits for it is there.
  ghost predicate Deliverable(pe: Walker, m: Fetch)
    requires !IsAsk(m)
  {
    Expected(pe, m.cell) ==>
      var t := TreeAfter(pe.tree, m);
      && Linked(t) && m.cell in t && (m.NodeReply? <==> t[m.cell].nchild > 0)
      && forall r :: r in Only(pe.requestors, m.cell) ==> r.cell == m.cell && r.tp < |pe.tps|
  }

  lemma DeliverableFacts(pe: Walker, m: Fetch)
    requires !IsAsk(m) && Deliverable(pe, m) && Expected(pe, m.cell)
    ensures var t := TreeAfter(pe.tree, m);
            && Linked(t) && m.cell in t && (m.NodeReply? <==> t[m.cell].nchild > 0)
            && forall r :: r in Only(pe.requestors, m.cell) ==> r.cell == m.cell && r.tp < |pe.tps|
  {
    hide Expected, Linked, TreeAfter, Only;
  }

  lemma NotExpected(pe: Walker, x: Cell)
    requires !(x in pe.requests && !pe.requests[x] && x in pe.tree && Only(pe.requestors, x) != [])
    ensures !Expected(pe, x)
  {
  }

  lemma IsExpected(pe: Walker, x: Cell)
    requires x in pe.requests && !pe.requests[x] && x in pe.tree && Only(pe.requestors, x) != []
    ensures Expected(pe, x)
  {
  }

  lemma ResumeNone(w: World, p: nat, opens: Opening, pe: Walker)
    requires ValidWorld(w) && Linked(pe.tree)
    ensures CanResume(pe, [], []) && AllLeft(opens, pe.tree, [], []) && ResumeAll(w, p, opens, pe, [], []) == (pe, [])
  {
    hide ValidWorld, Linked;
  }

  lemma {:induction false} ResumeSnoc(w: World, p: nat, opens: Opening, pe: Walker, rs: seq<Requestor>,
                                      wss: seq<seq<Wait>>, r: Requestor, ws: seq<Wait>)
    requires ValidWorld(w) && CanResume(pe, rs, wss) && AllLeft(opens, pe.tree, rs, wss)
    requires r.cell in pe.tree && LeftByResume(opens, pe.tree, r, ws)
    requires var s := ResumeAll(w, p, opens, pe, rs, wss).0;
             s.tree == pe.tree && |s.tps| == |pe.tps| && CanSuspend(s, r.tp, ws)
    ensures CanResume(pe, rs + [r], wss + [ws]) && AllLeft(opens, pe.tree, rs + [r], wss + [ws])
    ensures var a, b := ResumeAll(w, p, opens, pe, rs, wss), ResumeAll(w, p, opens, pe, rs + [r], wss + [ws]);
            var c := Resume(w, p, opens, a.0, r, ws);
            b == (c.0, a.1 + c.1)
    decreases |rs|
  {
    hide ValidWorld, Linked, Resume, LeftByResume;
    var rs', wss' := rs + [r], wss + [ws];
    forall i | 0 <= i < |rs'|
      ensures rs'[i].cell in pe.tree && CanSuspend(pe, rs'[i].tp, wss'[i])
      ensures LeftByResume(opens, pe.tree, rs'[i], wss'[i])
    {
      if i < |rs| { assert rs'[i] == rs[i] && wss'[i] == wss[i]; }
    }
    if rs == [] {
      assert rs'[1..] == [] && wss'[1..] == [];
      ResumeFrame(w, p, opens, pe, r, ws);
      var c := Resume(w, p, opens, pe, r, ws);
      assert ResumeAll(w, p, opens, c.0, rs'[1..], wss'[1..]) == (c.0, []);
      assert [] + c.1 == c.1 == c.1 + [];
    } else {
      var one := Resume(w, p, opens, pe, rs[0], wss[0]);
      ResumeFrame(w, p, opens, pe, rs[0], wss[0]);
      ResumeSnoc(w, p, opens, one.0, rs[1..], wss[1..], r, ws);
      assert rs'[1..] == rs[1..] + [r] && wss'[1..] == wss[1..] + [ws];
      assert rs'[0] == rs[0] && wss'[0] == wss[0];
      var a, rest := ResumeAll(w, p, opens, pe, rs, wss), ResumeAll(w, p, opens, one.0, rs[1..], wss[1..]);
      assert a == (rest.0, one.1 + rest.1);
      var c := Resume(w, p, opens, a.0, r, ws);
      var more := ResumeAll(w, p, opens, one.0, rs'[1..], wss'[1..]);
      assert more == (c.0, rest.1 + c.1);
      assert ResumeAll(w, p, opens, pe, rs', wss') == (more.0, one.1 + more.1);
      assert one.1 + (rest.1 + c.1) == (one.1 + rest.1) + c.1;
    }
  }

  lemma {:induction false} GroupsAdvance(w: World, p: nat, opens: Opening, pe: Walker, tp: nat, wss: seq<seq<Wait>>)
    requires ValidWorld(w) && CanStart(pe, tp, wss)
    ensures var s := StartGroups(w, p, opens, pe, tp, wss).0;
            && s.tree == pe.tree && |s.tps| == |pe.tps| && s.tps[tp].groups == pe.tps[tp].groups
            && s.tps[tp].remote.current == pe.tps[tp].remote.current + |wss|
    decreases |wss|
  {
    hide ValidWorld, Linked, StartGroup;
    if wss != [] {
      WalkSystem.StartFrame(w, p, opens, pe, tp, wss[0]);
      GroupsAdvance(w, p, opens, StartGroup(w, p, opens, pe, tp, wss[0]).0, tp, wss[1..]);
    }
  }

  lemma {:induction false} GroupsSnoc(w: World, p: nat, opens: Opening, pe: Walker, tp: nat, wss: seq<seq<Wait>>,
                                      ws: seq<Wait>)
    requires ValidWorld(w) && CanStart(pe, tp, wss) && GroupsLeft(opens, pe, tp, wss)
    requires pe.tps[tp].remote.current + |wss| < |pe.tps[tp].groups|
    requires CanStart(StartGroups(w, p, opens, pe, tp, wss).0, tp, [ws])
    requires CanSuspend(StartGroups(w, p, opens, pe, tp, wss).0, tp, ws)
    requires CanSuspend(pe, tp, ws)
    requires LeftByWalk(opens, pe.tree, pe.tps[tp].groups[pe.tps[tp].remote.current + |wss|], ws)
    ensures CanStart(pe, tp, wss + [ws]) && GroupsLeft(opens, pe, tp, wss + [ws])
    ensures var a, b := StartGroups(w, p, opens, pe, tp, wss), StartGroups(w, p, opens, pe, tp, wss + [ws]);
            var c := StartGroup(w, p, opens, a.0, tp, ws);
            b == (c.0, a.1 + c.1)
    decreases |wss|
  {
    hide ValidWorld, Linked, StartGroup, LeftByWalk;
    var more := wss + [ws];
    if wss == [] {
      assert more[1..] == [];
      WalkSystem.StartFrame(w, p, opens, pe, tp, ws);
      var c := StartGroup(w, p, opens, pe, tp, ws);
      assert StartGroups(w, p, opens, c.0, tp, more[1..]) == (c.0, []);
      assert [] + c.1 == c.1 == c.1 + [];
    } else {
      var one := StartGroup(w, p, opens, pe, tp, wss[0]);
      WalkSystem.StartFrame(w, p, opens, pe, tp, wss[0]);
      forall i | 0 <= i < |wss[1..]|
        ensures LeftByWalk(opens, one.0.tree, one.0.tps[tp].groups[one.0.tps[tp].remote.current + i], wss[1..][i])
      {
        var next := i + 1;
        assert LeftByWalk(opens, pe.tree, pe.tps[tp].groups[pe.tps[tp].remote.current + next], wss[next]);
      }
      GroupsSnoc(w, p, opens, one.0, tp, wss[1..], ws);
      assert more[1..] == wss[1..] + [ws] && more[0] == wss[0];
      var a, rest := StartGroups(w, p, opens, pe, tp, wss), StartGroups(w, p, opens, one.0, tp, wss[1..]);
      assert a == (rest.0, one.1 + rest.1);
      var c := StartGroup(w, p, opens, a.0, tp, ws);
      var after := StartGroups(w, p, opens, one.0, tp, more[1..]);
      assert after == (c.0, rest.1 + c.1);
      assert StartGroups(w, p, opens, pe, tp, more) == (after.0, one.1 + after.1);
      assert one.1 + (rest.1 + c.1) == (one.1 + rest.1) + c.1;
    }
  }

  lemma {:induction false} LocalAdvance(opens: Opening, pe: Walker, tp: nat, n: nat)
    requires CanStartLocal(pe, tp, n)
    ensures var s := StartLocalGroups(opens, pe, tp, n);
            s.tree == pe.tree && s.tps[tp].groups == pe.tps[tp].groups && s.tps[tp].local.current
                == pe.tps[tp].local.current + n
    decreases n
  {
    hide Linked, GainWalk;
    if n > 0 { LocalAdvance(opens, StartLocalGroup(opens, pe, tp), tp, n - 1); }
  }

  lemma {:induction false} LocalSnoc(opens: Opening, pe: Walker, tp: nat, n: nat)
    requires CanStartLocal(pe, tp, n + 1) && CanStartLocal(pe, tp, n)
    ensures CanStartLocal(StartLocalGroups(opens, pe, tp, n), tp, 1)
    ensures StartLocalGroups(opens, pe, tp, n + 1) == StartLocalGroup(opens, StartLocalGroups(opens, pe, tp, n), tp)
    decreases n
  {
    hide Linked, GainWalk;
    LocalAdvance(opens, pe, tp, n);
    if n > 0 { LocalSnoc(opens, StartLocalGroup(opens, pe, tp), tp, n - 1); }
  }

  // deliverNode's walks, over each child received.
  method WalkKids(opens: Opening, t: Tree, x: Cell, mask: set<nat>) returns (hits: Hits, waits: seq<Wait>)
    requires Linked(t) && x in t && t[x].nchild > 0
    ensures Masked(waits)
    ensures forall b :: HitsOf(hits, b) == if b in mask then KidWalks(opens, t, b, x, BRANCH).hits else []
    ensures forall b :: WaitsOf(waits, b) == if b in mask then KidWalks(opens, t, b, x, BRANCH).waits else []
  {
    hide Linked, Walk, KidWalks, Child;
    KidLinked(t, x);
    var worker := new GravityWalker(false, opens);
    forall b ensures worker.So(b) == NOTHING == Mine(opens, t, b, x, mask, 0) {
      NoWaits(b); NoKidWalks(opens, t, b, x);
    }
    var j := 0;
    while j < BRANCH
      invariant j <= BRANCH && Masked(worker.waits) && !worker.local && worker.opens == opens
      invariant forall b :: worker.So(b) == Mine(opens, t, b, x, mask, j)
    {
      worker.GravityWalk(t, Child(x, j), mask);
      ghost var next := j + 1;
      forall b ensures Mine(opens, t, b, x, mask, next)
                    == Plus(Mine(opens, t, b, x, mask, j),
                          if b in mask then Walk(opens, false, t, b, Child(x, j)) else NOTHING)
      { MineNext(opens, t, b, x, mask, j); }
      j := j + 1;
    }
    hits, waits := worker.hits, worker.waits;
    forall b
      ensures HitsOf(hits, b) == if b in mask then KidWalks(opens, t, b, x, BRANCH).hits else []
      ensures WaitsOf(waits, b) == if b in mask then KidWalks(opens, t, b, x, BRANCH).waits else []
    {
      assert worker.So(b) == Mine(opens, t, b, x, mask, BRANCH);
      assert worker.So(b) == Out(HitsOf(hits, b), WaitsOf(waits, b));
    }
  }

  ghost function Mine(opens: Opening, t: Tree, b: nat, x: Cell, mask: set<nat>, n: nat): Out
    requires Linked(t) && x in t && t[x].nchild > 0 && n <= BRANCH
  {
    if b in mask then KidWalks(opens, t, b, x, n) else NOTHING
  }

  lemma NoKidWalks(opens: Opening, t: Tree, b: nat, x: Cell)
    requires Linked(t) && x in t && t[x].nchild > 0
    ensures KidWalks(opens, t, b, x, 0) == NOTHING
  {
  }

  lemma MineNext(opens: Opening, t: Tree, b: nat, x: Cell, mask: set<nat>, n: nat)
    requires Linked(t) && x in t && t[x].nchild > 0 && n < BRANCH && Child(x, n) in t
    ensures Mine(opens, t, b, x, mask, n + 1)
         == Plus(Mine(opens, t, b, x, mask, n), if b in mask then Walk(opens, false, t, b, Child(x, n)) else NOTHING)
  {
    hide Linked, Walk, Child;
  }

  // deliverParticles: the bucket's particles, for the buckets that waited.
  method MeetParticles(x: Cell, mask: set<nat>) returns (hits: Hits, waits: seq<Wait>)
    ensures waits == [] && forall b :: HitsOf(hits, b) == if b in mask then [Direct(x)] else []
  {
    var worker := new GravityWalker(false, (b, c) => false);
    worker.ApplyParticles(x, mask);
    hits, waits := worker.hits, [];
    forall b ensures HitsOf(hits, b) == if b in mask then [Direct(x)] else [] {
      assert worker.Got(b) == HitsOf(hits, b);
    }
  }

  lemma ResumedIs(opens: Opening, t: Tree, r: Requestor, more: Hits, ws: seq<Wait>, h: Hits)
    requires Linked(t) && r.cell in t && Masked(ws)
    requires forall b :: HitsOf(more, b) == if b in r.mask then Resumed(opens, t, b, r.cell).hits else []
    requires forall b :: WaitsOf(ws, b) == if b in r.mask then Resumed(opens, t, b, r.cell).waits else []
    ensures LeftByResume(opens, t, r, ws) && Gained(h, r.mask, more) == GainResumed(opens, t, h, r.mask, r.cell)
  {
    hide Linked, Resumed, HitsOf, WaitsOf;
  }

  // One walk of a group, with fresh accumulators.
  method WalkFrom(opens: Opening, local: bool, t: Tree, c: Cell, mask: set<nat>) returns (hits: Hits, waits: seq<Wait>)
    requires Linked(t) && c in t
    ensures Masked(waits)
    ensures forall b :: HitsOf(hits, b) == if b in mask then Walk(opens, local, t, b, c).hits else []
    ensures forall b :: WaitsOf(waits, b) == if b in mask then Walk(opens, local, t, b, c).waits else []
  {
    hide Linked, Walk;
    var worker := new GravityWalker(local, opens);
    forall b ensures worker.So(b) == NOTHING { NoWaits(b); }
    worker.GravityWalk(t, c, mask);
    hits, waits := worker.hits, worker.waits;
    forall b
      ensures HitsOf(hits, b) == if b in mask then Walk(opens, local, t, b, c).hits else []
      ensures WaitsOf(waits, b) == if b in mask then Walk(opens, local, t, b, c).waits else []
    {
      PlusAssociative(if b in mask then Walk(opens, local, t, b, c) else NOTHING, NOTHING, NOTHING);
      assert worker.So(b) == if b in mask then Walk(opens, local, t, b, c) else NOTHING;
      assert worker.So(b) == Out(HitsOf(hits, b), WaitsOf(waits, b));
    }
  }

  lemma NoWaits(b: nat)
    ensures WaitsOf([], b) == []
  {
  }

  function Gained(h: Hits, mask: set<nat>, more: Hits): Hits {
    map b | b in h.Keys + mask :: HitsOf(h, b) + if b in mask then HitsOf(more, b) else []
  }

  lemma GainedIs(opens: Opening, local: bool, t: Tree, h: Hits, mask: set<nat>, more: Hits)
    requires Linked(t) && ROOT in t
    requires forall b :: HitsOf(more, b) == if b in mask then Walk(opens, local, t, b, ROOT).hits else []
    ensures Gained(h, mask, more) == GainWalk(opens, local, t, h, mask, ROOT)
  {
    hide Linked, Walk, HitsOf;
  }

  lemma LeftIs(opens: Opening, t: Tree, mask: set<nat>, ws: seq<Wait>)
    requires Linked(t) && ROOT in t && Masked(ws)
    requires forall b :: WaitsOf(ws, b) == if b in mask then Walk(opens, false, t, b, ROOT).waits else []
    ensures LeftByWalk(opens, t, mask, ws)
  {
    hide Linked, Walk;
  }

  lemma InPieces(w: World, p: nat, c: Cell)
    requires ValidWorld(w) && c.depth <= MAX_DEPTH && Owned(w, c) && ServingOwner(w, p, c).Some?
    ensures ServingOwner(w, p, c).value < |w.pieces|
  {
    hide ValidWorld, FirstHiFrom, FirstLoFrom;
  }

  lemma SuspendNext(w: World, p: nat, pe: Walker, tp: nat, ws: seq<Wait>)
    requires ValidWorld(w) && CanSuspend(pe, tp, ws) && ws != []
    ensures CanSuspend(Suspend(w, p, pe, tp, ws[0]).0, tp, ws[1..])
  {
    hide ValidWorld, Ask;
  }

  function NoneStarted(groups: seq<seq<set<nat>>>): (tps: seq<TreePiece>)
    ensures |tps| == |groups| && forall t :: 0 <= t < |tps| ==> tps[t] == NotStarted(groups[t])
  {
    seq(|groups|, t requires 0 <= t < |groups| => NotStarted(groups[t]))
  }

  function NotStarted(groups: seq<set<nat>>): TreePiece {
    TreePiece(groups, Trav(0, |groups|), Trav(0, |groups|), 0, 0)
  }

  ghost function Unstarted(t: Tree, groups: seq<seq<set<nat>>>): Walker {
    Walker(t, map[], [], NoneStarted(groups), map[], map[], 0, 0, false)
  }

  // The first i TreePieces have started.
  ghost function Starting(t: Tree, groups: seq<seq<set<nat>>>, i: nat): Walker
    requires i <= |groups|
  {
    var tps := FirstPieces(groups)[..i] + NoneStarted(groups)[i..];
    var done := CountReported(FirstPieces(groups)[..i]);
    Walker(t, map[], [], tps, map[], map[], done, if done == |tps| then 1 else 0, false)
  }

  lemma StartNext(t: Tree, groups: seq<seq<set<nat>>>, i: nat)
    requires i < |groups|
    ensures var s := Starting(t, groups, i); |s.tps| == |groups| && s.tps[i] == NotStarted(groups[i])
    ensures var s := Starting(t, groups, i);
            Starting(t, groups, i + 1) == if groups[i] == [] then TraversalDone(TraversalDone(s, i), i) else s
  {
    hide Outstanding, CountReported;
    var s := Starting(t, groups, i);
    NothingOut(s);
    PiecesNext(groups, i);
    if groups[i] == [] {
      var one := s.(tps := s.tps[i := s.tps[i].(traversals := 1)]);
      assert TraversalDone(s, i) == one;
      NothingOut(one);
    }
  }

  lemma PiecesNext(groups: seq<seq<set<nat>>>, i: nat)
    requires i < |groups|
    ensures var a, b := FirstPieces(groups), NoneStarted(groups);
            && (a[..i] + b[i..])[i] == b[i] && a[..i + 1] + b[i + 1..] == (a[..i] + b[i..])[i := a[i]]
            && CountReported(a[..i + 1]) == CountReported(a[..i]) + a[i].reported && CountReported(a[..i]) <= i
  {
    var a, b := FirstPieces(groups), NoneStarted(groups);
    CountBound(a[..i]);
    assert a[..i + 1][..i] == a[..i];
    assert b[i..] == [b[i]] + b[i + 1..];
  }

  lemma {:induction false} CountBound(tps: seq<TreePiece>)
    requires forall t :: 0 <= t < |tps| ==> tps[t].reported <= 1
    ensures CountReported(tps) <= |tps|
  {
    if tps != [] { CountBound(tps[..|tps| - 1]); }
  }

  lemma AllStarted(t: Tree, groups: seq<seq<set<nat>>>)
    ensures Starting(t, groups, |groups|) == StartWalker(t, groups)
  {
    var n := |groups|;
    assert FirstPieces(groups)[..n] == FirstPieces(groups) && NoneStarted(groups)[n..] == [];
  }

  lemma NothingOut(pe: Walker)
    requires pe.requests == map[] && pe.requestors == []
    ensures !Outstanding(pe)
  {
  }

  // ---------------- the methods fit the system's runs ----------------

  // In every reachable state each entry method may be called, and what it does is
  // a step of the system.
  lemma ReplyDeliverable(r: Rules, s: Sys, i: nat)
    requires Inv(r, s) && i < |s.net| && !IsAsk(s.net[i])
    ensures s.net[i].dest < |s.pes| && s.pes[s.net[i].dest].Some?
    ensures ValidWorld(r.w) && Deliverable(s.pes[s.net[i].dest].value, s.net[i])
  {
    hide ValidWorld, WalkInv, MsgOk, PEsOk, NetOk, Inv, View, Linked, Waiting, TreeAfter, Only, TableOk;
    OpenInv(r, s);
    var m := s.net[i];
    ReplyExpected(r, s, i);
    WaitingSays(s, m.dest, m.cell);
    var p, pe := m.dest, s.pes[m.dest].value;
    PEInv(r, s, p);
    ArriveKeeps(r.w, p, r.opens[p], pe, m, |s.pes|);
    InvTable(r.w, p, r.opens[p], pe);
    AttachedKids(r.w, p, pe, m, |s.pes|);
    OnlyHas(pe.requestors, m.cell);
  }

  lemma AttachedKids(w: World, p: nat, pe: Walker, m: Fetch, n: nat)
    requires ValidWorld(w) && TableOk(w, p, pe) && !IsAsk(m) && MsgOk(w, n, m) && m.cell in pe.requests
    requires !pe.requests[m.cell]
    ensures m.cell in pe.tree && m.cell in TreeAfter(pe.tree, m)
    ensures (m.NodeReply? <==> TreeAfter(pe.tree, m)[m.cell].nchild > 0)
    ensures forall r :: r in pe.requestors ==> r.tp < |pe.tps|
  {
    hide ValidWorld, View, Linked, InTree, Here, Owned, Refined, Built, TheAsk;
    assert Missing(pe.tree, m.cell);
    if m.NodeReply? { NotInside(w, m.cell, m.nodes); }
  }

  lemma NotInside(w: World, x: Cell, nodes: Tree)
    requires ValidWorld(w) && Fits(w, x, nodes)
    ensures x !in nodes
  {
    hide ValidWorld, Linked, Refined, RemoteKind;
    assert x in nodes ==> FitsNode(w, x, nodes, x);
  }

  lemma GravityStarts(r: Rules, s: Sys, p: nat)
    requires Inv(r, s) && p < |s.pes| && s.pes[p].Some?
    ensures ValidWorld(r.w) && Linked(s.pes[p].value.tree) && ROOT in s.pes[p].value.tree
  {
    hide ValidWorld, WalkInv, PEsOk, NetOk, Linked;
    PEInv(r, s, p);
    InvTable(r.w, p, r.opens[p], s.pes[p].value);
    TableView(r.w, p, s.pes[p].value);
  }

  // ---------------- the groups formed are what the walks start from ----------------

  // The buckets from lo up to hi.
  function Run(lo: nat, hi: nat): (r: set<nat>)
    ensures forall b :: b in r <==> lo <= b < hi
    decreases hi
  {
    if hi <= lo then {} else Run(lo, hi - 1) + {hi - 1}
  }

  // TreePiece t's buckets are numbered from Base(counts, t).
  function Base(counts: seq<seq<nat>>, t: nat): nat
    requires t <= |counts|
  {
    if t == 0 then 0 else Base(counts, t - 1) + |counts[t - 1]|
  }

  function GroupSets(base: nat, ends: seq<nat>): (groups: seq<set<nat>>)
    requires |ends| > 0
    ensures |groups| == |ends| - 1
    ensures forall g :: 0 <= g < |groups| ==> groups[g] == Run(base + ends[g], base + ends[g + 1])
  {
    seq(|ends| - 1, g requires 0 <= g < |ends| - 1 => Run(base + ends[g], base + ends[g + 1]))
  }

  lemma {:induction false} EndsRise(counts: seq<nat>, most: nat, ends: seq<nat>, g: nat, h: nat)
    requires Formed(counts, most, ends) && g <= h < |ends|
    ensures ends[g] <= ends[h] <= |counts| && (g < h ==> ends[g] < ends[h])
    decreases h - g
  {
    hide CountIn;
    if h > 0 { assert GroupOk(counts, most, ends[h - 1], ends[h]); }
    if g < h {
      EndsRise(counts, most, ends, g, h - 1);
    }
  }

  lemma {:induction false} BasesRise(counts: seq<seq<nat>>, t: nat, u: nat)
    requires t < u <= |counts|
    ensures Base(counts, t) + |counts[t]| <= Base(counts, u)
    decreases u
  {
    if t < u - 1 { BasesRise(counts, t, u - 1); }
  }

  ghost predicate Grouped(counts: seq<seq<nat>>, most: nat, endss: seq<seq<nat>>, groups: seq<seq<set<nat>>>) {
    && |endss| == |counts| == |groups|
    && forall t: nat :: t < |counts| ==>
          Formed(counts[t], most, endss[t]) && groups[t] == GroupSets(Base(counts, t), endss[t])
  }

  // A bucket of group g of TreePiece t.
  lemma InGroup(counts: seq<seq<nat>>, most: nat, endss: seq<seq<nat>>, groups: seq<seq<set<nat>>>, t: nat, g: nat,
                b: nat)
    requires Grouped(counts, most, endss, groups) && t < |counts| && g < |groups[t]| && b in groups[t][g]
    ensures |endss| == |counts| && Formed(counts[t], most, endss[t]) && |endss[t]| == |groups[t]| + 1
    ensures Base(counts, t) + endss[t][g] <= b < Base(counts, t) + endss[t][g + 1]
    ensures Base(counts, t) <= b < Base(counts, t) + |counts[t]|
  {
    hide CountIn, GroupOk, Base;
    EndsRise(counts[t], most, endss[t], g, g + 1);
  }

  lemma SameRun(counts: seq<nat>, most: nat, ends: seq<nat>, g: nat, h: nat, b: nat)
    requires Formed(counts, most, ends) && g + 1 < |ends| && h + 1 < |ends|
    requires ends[g] <= b < ends[g + 1] && ends[h] <= b < ends[h + 1]
    ensures g == h
  {
    hide Formed;
    if g < h {
      EndsRise(counts, most, ends, g + 1, h);
    } else if h < g {
      EndsRise(counts, most, ends, h + 1, g);
    }
  }

  lemma OneGroup(counts: seq<seq<nat>>, most: nat, endss: seq<seq<nat>>, groups: seq<seq<set<nat>>>,
                 t: nat, g: nat, t': nat, g': nat, b: nat)
    requires Grouped(counts, most, endss, groups) && t < |counts| == |groups| && t' < |counts| && g < |groups[t]|
    requires g' < |groups[t']|
    requires b in groups[t][g] && b in groups[t'][g']
    ensures t == t' && g == g'
  {
    hide Grouped, Formed, Base;
    InGroup(counts, most, endss, groups, t, g, b);
    InGroup(counts, most, endss, groups, t', g', b);
    if t < t' {
      BasesRise(counts, t, t');
    } else if t' < t {
      BasesRise(counts, t', t);
    } else {
      SameRun(counts[t], most, endss[t], g, g', b - Base(counts, t));
    }
  }

  // The groups of all TreePieces are nonempty and share no bucket, as the walks
  // require; and no bucket is left out.
  lemma GroupsFormed(counts: seq<seq<nat>>, most: nat, endss: seq<seq<nat>>, groups: seq<seq<set<nat>>>)
    requires Grouped(counts, most, endss, groups)
    ensures GroupsOk(FirstPieces(groups))
  {
    hide CountIn, Formed, Base;
    var tps := FirstPieces(groups);
    forall t, g: nat | 0 <= t < |tps| && g < |tps[t].groups| ensures tps[t].groups[g] != {} {
      assert Formed(counts[t], most, endss[t]);
      EndsRise(counts[t], most, endss[t], g, g + 1);
      assert Base(counts, t) + endss[t][g] in groups[t][g];
    }
    forall t, g: nat, t', g': nat, b | 0 <= t < |tps| && g < |tps[t].groups| && 0 <= t' < |tps| && g' < |tps[t'].groups|
      && b in tps[t].groups[g] && b in tps[t'].groups[g'] ensures t == t' && g == g'
    {
      OneGroup(counts, most, endss, groups, t, g, t', g', b);
    }
  }

  lemma {:induction false} EveryBucketGrouped(counts: seq<nat>, most: nat, ends: seq<nat>, base: nat, b: nat, g: nat)
    returns (at: nat)
    requires Formed(counts, most, ends) && g < |ends| && b < ends[g]
    ensures at < g && base + b in GroupSets(base, ends)[at]
    decreases g
  {
    hide CountIn, GroupOk;
    if b >= ends[g - 1] {
      at := g - 1;
    } else {
      at := EveryBucketGrouped(counts, most, ends, base, b, g - 1);
    }
  }
}
