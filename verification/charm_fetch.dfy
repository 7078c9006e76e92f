// The fetch cache of one PE during the walks.  A walk that needs a node or a
// bucket the PE does not hold is suspended with a request; the first such walk
// sends the request, later ones join it, and the reply resumes them all.
module FetchCache {
  import opened TreeKeys
  import opened Decomposition
  import opened TreeBuild
  import opened NodeFacts
  import opened GravityWalks
  import opened GroupWalks
  import opened TreeViews
  import opened Subtrees

  type Hits = map<nat, seq<Hit>>

  // Buckets are numbered across the PE, and a mask is a set of those numbers.
  datatype Requestor = Requestor(cell: Cell, tp: nat, mask: set<nat>)

  // State.h: the group to walk next and what is still unaccounted for.
  datatype Trav = Trav(current: nat, pending: int)

  // traversals is numTraversalsDone, reported counts calls of
  // DataManager::traversalsDone.
  datatype TreePiece = TreePiece(groups: seq<set<nat>>, local: Trav, remote: Trav, traversals: nat, reported: nat)

  // requests has both request tables (no node is in both): a key is there once
  // asked for, and maps to whether the reply has come.  requestors has the
  // requestor lists of all keys in order of suspension.
  datatype Walker = Walker(tree: Tree, requests: map<Cell, bool>, requestors: seq<Requestor>, tps: seq<TreePiece>,
                           localHits: Hits, remoteHits: Hits, doneTPs: nat, finished: nat, aborted: bool)

  datatype Fetch = NodeRequest(dest: nat, cell: Cell, replyTo: nat)
                 | PartRequest(dest: nat, cell: Cell, replyTo: nat)
                 | NodeReply(dest: nat, cell: Cell, nodes: Tree)
                 | PartReply(dest: nat, cell: Cell)

  function HitsOf(h: Hits, b: nat): seq<Hit> {
    if b in h then h[b] else []
  }

  // ---------------- the entry methods, as functions ----------------

  // requestNode and requestParticles: the message the first requestor sends.
  function Ask(w: World, p: nat, t: Tree, x: Cell): seq<Fetch>
    requires ValidWorld(w) && x in t && x.depth <= MAX_DEPTH
  {
    if !Owned(w, x) then []
    else if t[x].kind == Remote then
      match ServingOwner(w, p, x)
      case Some(tp) => [NodeRequest(w.pieces[tp].home, x, p)]
      case None => []
    else if OwnerStart(w, x) == OwnerEnd(w, x) then [PartRequest(w.pieces[OwnerStart(w, x)].home, x, p)]
    else []
  }

  function Suspend(w: World, p: nat, pe: Walker, tp: nat, x: Wait): (Walker, seq<Fetch>)
    requires ValidWorld(w) && x.cell in pe.tree && x.cell.depth <= MAX_DEPTH && tp < |pe.tps|
  {
    var one := pe.tps[tp];
    var sent := if x.cell in pe.requests then [] else Ask(w, p, pe.tree, x.cell);
    (pe.(requestors := pe.requestors + [Requestor(x.cell, tp, x.mask)],
         tps := pe.tps[tp := one.(remote := one.remote.(pending := one.remote.pending + 1))],
         requests := if x.cell in pe.requests then pe.requests else pe.requests[x.cell := false],
         aborted := pe.aborted || (x.cell !in pe.requests && sent == [])),
     sent)
  }

  ghost predicate CanSuspend(pe: Walker, tp: nat, ws: seq<Wait>) {
    tp < |pe.tps| && forall x :: x in ws ==> x.cell in pe.tree && x.cell.depth <= MAX_DEPTH
  }

  function SuspendAll(w: World, p: nat, pe: Walker, tp: nat, ws: seq<Wait>): (Walker, seq<Fetch>)
    requires ValidWorld(w) && CanSuspend(pe, tp, ws)
    decreases |ws|
  {
    if ws == [] then (pe, [])
    else
      var one := Suspend(w, p, pe, tp, ws[0]);
      var rest := SuspendAll(w, p, one.0, tp, ws[1..]);
      (rest.0, one.1 + rest.1)
  }

  function GainWalk(opens: Opening, local: bool, t: Tree, h: Hits, mask: set<nat>, c: Cell): Hits
    requires Linked(t) && c in t
  {
    map b | b in h.Keys + mask :: HitsOf(h, b) + if b in mask then Walk(opens, local, t, b, c).hits else []
  }

  function GainResumed(opens: Opening, t: Tree, h: Hits, mask: set<nat>, x: Cell): Hits
    requires Linked(t) && x in t
  {
    map b | b in h.Keys + mask :: HitsOf(h, b) + if b in mask then Resumed(opens, t, b, x).hits else []
  }

  // TreePiece::traversalDone and, for the last TreePiece, finishIteration, which
  // asserts that no request is outstanding.
  function TraversalDone(pe: Walker, tp: nat): Walker
    requires tp < |pe.tps|
  {
    var one := pe.tps[tp];
    if one.traversals + 1 != 2 then pe.(tps := pe.tps[tp := one.(traversals := one.traversals + 1)])
    else
      var last := pe.doneTPs + 1 == |pe.tps|;
      pe.(tps := pe.tps[tp := one.(traversals := 0, reported := one.reported + 1)],
          doneTPs := pe.doneTPs + 1,
          finished := if last then pe.finished + 1 else pe.finished,
          aborted := pe.aborted || (last && Outstanding(pe)))
  }

  predicate Outstanding(pe: Walker) {
    pe.requestors != [] || exists x :: x in pe.requests && !pe.requests[x]
  }

  // decrPending, and done() when that leaves nothing.
  function Account(pe: Walker, tp: nat, n: nat): Walker
    requires tp < |pe.tps|
  {
    var one := pe.tps[tp];
    var pe1 := pe.(tps := pe.tps[tp := one.(remote := one.remote.(pending := one.remote.pending - n))]);
    if one.remote.pending - n == 0 then TraversalDone(pe1, tp) else pe1
  }

  function AccountLocal(pe: Walker, tp: nat, n: nat): Walker
    requires tp < |pe.tps|
  {
    var one := pe.tps[tp];
    var pe1 := pe.(tps := pe.tps[tp := one.(local := one.local.(pending := one.local.pending - n))]);
    if one.local.pending - n == 0 then TraversalDone(pe1, tp) else pe1
  }

  // One group of doRemoteGravity; ws is what the group's walk left waiting.
  function StartGroup(w: World, p: nat, opens: Opening, pe: Walker, tp: nat, ws: seq<Wait>): (Walker, seq<Fetch>)
    requires ValidWorld(w) && Linked(pe.tree) && ROOT in pe.tree && CanSuspend(pe, tp, ws)
    requires pe.tps[tp].remote.current < |pe.tps[tp].groups|
  {
    var one := pe.tps[tp];
    var mask := one.groups[one.remote.current];
    var pe1 := pe.(remoteHits := GainWalk(opens, false, pe.tree, pe.remoteHits, mask, ROOT),
                   tps := pe.tps[tp := one.(remote := one.remote.(current := one.remote.current + 1))]);
    SuspendAll(w, p, pe1, tp, ws)
  }

  function StartLocalGroup(opens: Opening, pe: Walker, tp: nat): Walker
    requires Linked(pe.tree) && ROOT in pe.tree && tp < |pe.tps|
    requires pe.tps[tp].local.current < |pe.tps[tp].groups|
  {
    var one := pe.tps[tp];
    var mask := one.groups[one.local.current];
    pe.(localHits := GainWalk(opens, true, pe.tree, pe.localHits, mask, ROOT),
        tps := pe.tps[tp := one.(local := one.local.(current := one.local.current + 1))])
  }

  // One requestor of deliverNode or deliverParticles.
  function Resume(w: World, p: nat, opens: Opening, pe: Walker, r: Requestor, ws: seq<Wait>): (Walker, seq<Fetch>)
    requires ValidWorld(w) && Linked(pe.tree) && r.cell in pe.tree && CanSuspend(pe, r.tp, ws)
  {
    var pe1 := pe.(remoteHits := GainResumed(opens, pe.tree, pe.remoteHits, r.mask, r.cell));
    var s := SuspendAll(w, p, pe1, r.tp, ws);
    SuspendKeepsTps(w, p, pe1, r.tp, ws);
    (Account(s.0, r.tp, 1), s.1)
  }

  lemma {:induction false} SuspendKeepsTps(w: World, p: nat, pe: Walker, tp: nat, ws: seq<Wait>)
    requires ValidWorld(w) && CanSuspend(pe, tp, ws)
    ensures |SuspendAll(w, p, pe, tp, ws).0.tps| == |pe.tps| && SuspendAll(w, p, pe, tp, ws).0.tree == pe.tree
    decreases |ws|
  {
    hide Ask, ValidWorld;
    if ws != [] { SuspendKeepsTps(w, p, Suspend(w, p, pe, tp, ws[0]).0, tp, ws[1..]); }
  }

  // The requestors of key x, and those of the other keys.
  function Only(rs: seq<Requestor>, x: Cell): seq<Requestor> {
    if rs == [] then []
    else if rs[|rs| - 1].cell == x then Only(rs[..|rs| - 1], x) + [rs[|rs| - 1]]
    else Only(rs[..|rs| - 1], x)
  }

  function Except(rs: seq<Requestor>, x: Cell): seq<Requestor> {
    if rs == [] then []
    else if rs[|rs| - 1].cell == x then Except(rs[..|rs| - 1], x)
    else Except(rs[..|rs| - 1], x) + [rs[|rs| - 1]]
  }

  lemma {:induction false} OnlyHas(rs: seq<Requestor>, x: Cell)
    ensures forall r :: r in Only(rs, x) <==> r in rs && r.cell == x
    ensures forall r :: r in Except(rs, x) <==> r in rs && r.cell != x
  {
    if rs != [] {
      assert rs == rs[..|rs| - 1] + [rs[|rs| - 1]];
      OnlyHas(rs[..|rs| - 1], x);
    }
  }

  // What the walks of one task left: every bucket of the mask waits where its
  // own walk would.
  ghost predicate LeftByWalk(opens: Opening, t: Tree, mask: set<nat>, ws: seq<Wait>)
    requires Linked(t) && ROOT in t
  {
    Masked(ws) && forall b :: WaitsOf(ws, b) == if b in mask then Walk(opens, false, t, b, ROOT).waits else []
  }

  ghost predicate LeftByResume(opens: Opening, t: Tree, r: Requestor, ws: seq<Wait>)
    requires Linked(t) && r.cell in t
  {
    Masked(ws) && forall b :: WaitsOf(ws, b) == if b in r.mask then Resumed(opens, t, b, r.cell).waits else []
  }

  // ---------------- the invariant ----------------

  // Groups walked but not yet taken off `pending`.
  datatype Slack = Slack(tp: nat, remote: nat, local: nat)

  const NONE_DUE := Slack(0, 0, 0)

  ghost function CountTP(rs: seq<Requestor>, tp: nat): nat {
    if rs == [] then 0 else CountTP(rs[..|rs| - 1], tp) + if rs[|rs| - 1].tp == tp then 1 else 0
  }

  ghost function OwedTo(w: World, p: nat, opens: Opening, rs: seq<Requestor>, b: nat): multiset<Hit>
    requires ValidWorld(w)
  {
    if rs == [] then multiset{}
    else
      var r := rs[|rs| - 1];
      OwedTo(w, p, opens, rs[..|rs| - 1], b)
      + if b in r.mask && r.cell.depth <= MAX_DEPTH then Owed(w, p, opens, b, r.cell) else multiset{}
  }

  ghost predicate Started(tps: seq<TreePiece>, local: bool, b: nat) {
    exists t, g: nat :: 0 <= t < |tps| && g < |tps[t].groups| && b in tps[t].groups[g]
                     && g < if local then tps[t].local.current else tps[t].remote.current
  }

  ghost predicate GroupsOk(tps: seq<TreePiece>) {
    && (forall t, g: nat :: 0 <= t < |tps| && g < |tps[t].groups| ==> tps[t].groups[g] != {})
    && forall t, g: nat, t', g': nat, b ::
         (0 <= t < |tps| && g < |tps[t].groups| && 0 <= t' < |tps| && g' < |tps[t'].groups|
          && b in tps[t].groups[g] && b in tps[t'].groups[g']) ==> t == t' && g == g'
  }

  // `pending` is the groups not yet accounted for plus the suspended walks, so a
  // traversal completes exactly when nothing of it is left.
  ghost predicate PendingOk(one: TreePiece, tp: nat, rs: seq<Requestor>, due: seq<Requestor>, slack: Slack) {
    && one.remote.current <= |one.groups| && one.local.current <= |one.groups|
    && one.remote.pending == |one.groups| - one.remote.current + CountTP(rs, tp) + CountTP(due, tp)
                             + (if slack.tp == tp then slack.remote else 0)
    && one.local.pending == |one.groups| - one.local.current + (if slack.tp == tp then slack.local else 0)
  }

  // Each of the two traversals is reported once, when it is complete.
  ghost predicate DoneOk(one: TreePiece) {
    var both := one.local.pending == 0 && one.remote.pending == 0;
    && one.reported == (if both then 1 else 0)
    && one.traversals == if !both && (one.local.pending == 0 || one.remote.pending == 0) then 1 else 0
  }

  ghost function CountReported(tps: seq<TreePiece>): nat {
    if tps == [] then 0 else CountReported(tps[..|tps| - 1]) + tps[|tps| - 1].reported
  }

  ghost predicate TravsOk(pe: Walker, due: seq<Requestor>, slack: Slack) {
    && GroupsOk(pe.tps)
    && (forall t :: 0 <= t < |pe.tps| ==> PendingOk(pe.tps[t], t, pe.requestors, due, slack) && DoneOk(pe.tps[t]))
    && pe.doneTPs == CountReported(pe.tps)
    && pe.finished == if pe.doneTPs == |pe.tps| then 1 else 0
  }

  // Every key asked for is a node whose contents are elsewhere, and has waiting
  // walks exactly until its reply comes.
  ghost predicate TableOk(w: World, p: nat, pe: Walker)
    requires ValidWorld(w)
  {
    && View(w, p, pe.tree)
    && (forall x :: x in pe.requests ==>
          x in pe.tree && (pe.tree[x].kind == Remote || pe.tree[x].kind == RemoteBucket)
          && (pe.requests[x] <==> !Missing(pe.tree, x)))
    && (forall r :: r in pe.requestors ==>
          r.cell in pe.requests && !pe.requests[r.cell] && r.tp < |pe.tps| && r.mask != {})
    && (forall x :: x in pe.requests && !pe.requests[x] ==> exists r :: r in pe.requestors && r.cell == x)
  }

  ghost predicate DueOk(pe: Walker, due: seq<Requestor>) {
    forall r :: r in due ==>
          r.cell in pe.requests && pe.requests[r.cell] && r.cell in pe.tree && r.tp < |pe.tps| && r.mask != {}
  }

  // Every bucket: what it has met and what its suspended walks are owed make up
  // the whole walk, from the moment its group is walked.
  ghost predicate BucketOk(w: World, p: nat, opens: Opening, pe: Walker, due: seq<Requestor>, b: nat)
    requires ValidWorld(w)
  {
    && multiset(HitsOf(pe.localHits, b)) == (if Started(pe.tps, true, b) then Whole(w, p, opens, true, b,
          ROOT) else multiset{})
    && multiset(HitsOf(pe.remoteHits, b)) + OwedTo(w, p, opens, pe.requestors, b) + OwedTo(w, p, opens, due, b)
       == if Started(pe.tps, false, b) then Whole(w, p, opens, false, b, ROOT) else multiset{}
  }

  ghost predicate HitsOk(w: World, p: nat, opens: Opening, pe: Walker, due: seq<Requestor>)
    requires ValidWorld(w)
  {
    forall b :: BucketOk(w, p, opens, pe, due, b)
  }

  ghost predicate WalkInv(w: World, p: nat, opens: Opening, pe: Walker, due: seq<Requestor>, slack: Slack)
    requires ValidWorld(w)
  {
    && !pe.aborted && TableOk(w, p, pe) && DueOk(pe, due) && TravsOk(pe, due, slack) && HitsOk(w, p, opens, pe, due)
  }

  // ---------------- counting ----------------

  lemma {:induction false} CountConcat(a: seq<Requestor>, b: seq<Requestor>, tp: nat)
    ensures CountTP(a + b, tp) == CountTP(a, tp) + CountTP(b, tp)
  {
    if b == [] {
      assert a + b == a;
    } else {
      assert (a + b)[..|a + b| - 1] == a + b[..|b| - 1];
      CountConcat(a, b[..|b| - 1], tp);
    }
  }

  lemma {:induction false} OwedToConcat(w: World, p: nat, opens: Opening, a: seq<Requestor>, b: seq<Requestor>, n: nat)
    requires ValidWorld(w)
    ensures OwedTo(w, p, opens, a + b, n) == OwedTo(w, p, opens, a, n) + OwedTo(w, p, opens, b, n)
  {
    hide ValidWorld, Owed;
    if b == [] {
      assert a + b == a;
    } else {
      assert (a + b)[..|a + b| - 1] == a + b[..|b| - 1];
      OwedToConcat(w, p, opens, a, b[..|b| - 1], n);
    }
  }

  lemma CountSnoc(a: seq<Requestor>, r: Requestor, tp: nat)
    ensures CountTP(a + [r], tp) == CountTP(a, tp) + if r.tp == tp then 1 else 0
  {
    assert (a + [r])[..|a|] == a;
  }

  lemma OwedSnoc(w: World, p: nat, opens: Opening, a: seq<Requestor>, r: Requestor, b: nat)
    requires ValidWorld(w)
    ensures OwedTo(w, p, opens, a + [r], b)
         == OwedTo(w, p, opens, a, b)
            + if b in r.mask && r.cell.depth <= MAX_DEPTH then Owed(w, p, opens, b, r.cell) else multiset{}
  {
    hide ValidWorld, Owed;
    assert (a + [r])[..|a|] == a;
  }

  // Taking one key's requestors out loses nobody.
  lemma {:induction false} SplitCount(rs: seq<Requestor>, x: Cell, tp: nat)
    ensures CountTP(rs, tp) == CountTP(Except(rs, x), tp) + CountTP(Only(rs, x), tp)
  {
    if rs != [] {
      var n := |rs| - 1;
      SplitCount(rs[..n], x, tp);
      CountSnoc(if rs[n].cell == x then Only(rs[..n], x) else Except(rs[..n], x), rs[n], tp);
    }
  }

  lemma {:induction false} SplitOwed(w: World, p: nat, opens: Opening, rs: seq<Requestor>, x: Cell, b: nat)
    requires ValidWorld(w)
    ensures OwedTo(w, p, opens, rs, b) == OwedTo(w, p, opens, Except(rs, x), b) + OwedTo(w, p, opens, Only(rs, x), b)
  {
    hide ValidWorld, Owed;
    if rs != [] {
      var n := |rs| - 1;
      SplitOwed(w, p, opens, rs[..n], x, b);
      OwedSnoc(w, p, opens, if rs[n].cell == x then Only(rs[..n], x) else Except(rs[..n], x), rs[n], b);
    }
  }
}
