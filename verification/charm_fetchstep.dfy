// The fetch cache's steps keep its invariant: a group is walked, a walk is
// resumed, a reply arrives, a traversal completes.
module FetchSteps {
  import opened TreeKeys
  import opened Decomposition
  import opened TreeBuild
  import opened NodeFacts
  import opened GravityWalks
  import opened GroupWalks
  import opened TreeViews
  import opened Subtrees
  import opened FetchCache
  import opened FetchInvariant

  function Advanced(one: TreePiece): TreePiece {
    one.(remote := one.remote.(current := one.remote.current + 1))
  }

  function AdvancedLocal(one: TreePiece): TreePiece {
    one.(local := one.local.(current := one.local.current + 1))
  }

  // A walked group's buckets have started, and had not before.
  lemma NewlyStarted(tps: seq<TreePiece>, tp: nat, b: nat)
    requires GroupsOk(tps) && tp < |tps| && tps[tp].remote.current < |tps[tp].groups|
    ensures var tps', mask := tps[tp := Advanced(tps[tp])], tps[tp].groups[tps[tp].remote.current];
            && (Started(tps', false, b) <==> Started(tps, false, b) || b in mask)
            && (b in mask ==> !Started(tps, false, b))
            && (Started(tps', true, b) <==> Started(tps, true, b))
  {
    hide ValidWorld, GroupsOk;
    var tps', g0 := tps[tp := Advanced(tps[tp])], tps[tp].remote.current;
    if b in tps[tp].groups[g0] {
      assert b in tps'[tp].groups[g0] && g0 < tps'[tp].remote.current;
      OnlyGroup(tps, tp, g0, b);
    }
    if Started(tps, false, b) {
      var t, g: nat :| 0 <= t < |tps| && g < |tps[t].groups| && b in tps[t].groups[g] && g < tps[t].remote.current;
      assert b in tps'[t].groups[g];
    }
    if Started(tps', false, b) {
      var t, g: nat :| 0 <= t < |tps'| && g < |tps'[t].groups| && b in tps'[t].groups[g] && g < tps'[t].remote.current;
      assert b in tps[t].groups[g];
    }
    StartedSameLocal(tps, tps', true, b);
  }

  lemma OnlyGroup(tps: seq<TreePiece>, tp: nat, g0: nat, b: nat)
    requires GroupsOk(tps) && tp < |tps| && g0 < |tps[tp].groups| && b in tps[tp].groups[g0]
    ensures g0 == tps[tp].remote.current ==> !Started(tps, false, b)
    ensures g0 == tps[tp].local.current ==> !Started(tps, true, b)
  {
  }

  lemma StartedSameLocal(tps: seq<TreePiece>, tps': seq<TreePiece>, local: bool, b: nat)
    requires |tps'| == |tps|
    requires forall t :: 0 <= t < |tps| ==> tps'[t].groups == tps[t].groups
    requires forall t :: 0 <= t < |tps| ==>
               if local then tps'[t].local.current == tps[t].local.current
               else tps'[t].remote.current == tps[t].remote.current
    ensures Started(tps', local, b) <==> Started(tps, local, b)
  {
    if Started(tps, local, b) {
      var t, g: nat :| 0 <= t < |tps| && g < |tps[t].groups| && b in tps[t].groups[g]
                    && g < if local then tps[t].local.current else tps[t].remote.current;
      assert b in tps'[t].groups[g];
    }
    if Started(tps', local, b) {
      var t, g: nat :| 0 <= t < |tps'| && g < |tps'[t].groups| && b in tps'[t].groups[g]
                    && g < if local then tps'[t].local.current else tps'[t].remote.current;
      assert b in tps[t].groups[g];
    }
  }

  lemma NewlyStartedLocal(tps: seq<TreePiece>, tp: nat, b: nat)
    requires GroupsOk(tps) && tp < |tps| && tps[tp].local.current < |tps[tp].groups|
    ensures var tps', mask := tps[tp := AdvancedLocal(tps[tp])], tps[tp].groups[tps[tp].local.current];
            && (Started(tps', true, b) <==> Started(tps, true, b) || b in mask)
            && (b in mask ==> !Started(tps, true, b))
            && (Started(tps', false, b) <==> Started(tps, false, b))
  {
    hide ValidWorld, GroupsOk;
    var tps', g0 := tps[tp := AdvancedLocal(tps[tp])], tps[tp].local.current;
    if b in tps[tp].groups[g0] {
      assert b in tps'[tp].groups[g0] && g0 < tps'[tp].local.current;
      OnlyGroup(tps, tp, g0, b);
    }
    if Started(tps, true, b) {
      var t, g: nat :| 0 <= t < |tps| && g < |tps[t].groups| && b in tps[t].groups[g] && g < tps[t].local.current;
      assert b in tps'[t].groups[g];
    }
    if Started(tps', true, b) {
      var t, g: nat :| 0 <= t < |tps'| && g < |tps'[t].groups| && b in tps'[t].groups[g] && g < tps'[t].local.current;
      assert b in tps[t].groups[g];
    }
    StartedSameLocal(tps, tps', false, b);
  }

  lemma AdvanceKeepsTravs(pe: Walker, tp: nat, n: nat, one': TreePiece, slack: Slack, slack': Slack)
    requires TravsOk(pe, [], slack) && tp < |pe.tps|
    requires var one := pe.tps[tp];
             || (one' == Advanced(one) && one.remote.current < |one.groups| && slack == Slack(tp, n, 0) && slack'
                 == Slack(tp, n + 1, 0))
             || (one' == AdvancedLocal(one) && one.local.current < |one.groups| && slack == Slack(tp, 0, n) && slack'
                 == Slack(tp, 0, n + 1))
    ensures TravsOk(pe.(tps := pe.tps[tp := one']), [], slack')
    ensures slack'.remote > 0 ==> one'.remote.pending > 0
  {
    hide ValidWorld, GroupsOk, CountTP;
    CountersKeepGroups(pe.tps, tp, one');
    ReportedAt(pe.tps, tp, one');
    var tps' := pe.tps[tp := one'];
    assert PendingOk(pe.tps[tp], tp, pe.requestors, [], slack);
    forall t: nat | t < |tps'| ensures PendingOk(tps'[t], t, pe.requestors, [], slack') && DoneOk(tps'[t]) {
      assert PendingOk(pe.tps[t], t, pe.requestors, [], slack) && DoneOk(pe.tps[t]);
    }
  }

  // The group's walk is a task whose parts are the buckets' whole remote walks.
  lemma WalkIsTask(w: World, p: nat, opens: Opening, t: Tree, mask: set<nat>, ws: seq<Wait>, h: Hits)
    requires ValidWorld(w) && View(w, p, t) && Linked(t) && ROOT in t && LeftByWalk(opens, t, mask, ws)
    ensures TaskIn(t, Start) && TaskOk(w, p, opens, t, mask, Start, ws)
    ensures GainedBy(opens, t, h, GainWalk(opens, false, t, h, mask, ROOT), mask, Start)
  {
    hide ValidWorld, View, Linked, Walk, Whole, Accounts;
    forall b | b in mask
      ensures Accounts(w, p, opens, false, b, t, OutOf(opens, t, Start, b), PartOf(w, p, opens, Start, b))
    {
      WalkAccounts(w, p, opens, false, t, b, ROOT);
    }
  }

  // ---------------- one group of doRemoteGravity ----------------

  ghost predicate Stepped(w: World, p: nat, opens: Opening, pe: Walker, pe': Walker, due: seq<Requestor>,
                          slack: Slack, out: seq<Fetch>)
    requires ValidWorld(w)
  {
    WalkInv(w, p, opens, pe', due, slack) && Asked(w, p, pe, pe', out) && pe'.tree == pe.tree && |pe'.tps| == |pe.tps|
  }

  lemma StartGroupKeeps(w: World, p: nat, opens: Opening, pe: Walker, tp: nat, ws: seq<Wait>, n: nat)
    requires ValidWorld(w) && WalkInv(w, p, opens, pe, [], Slack(tp, n, 0)) && tp < |pe.tps|
    requires pe.tps[tp].remote.current < |pe.tps[tp].groups| && Linked(pe.tree) && ROOT in pe.tree
    requires LeftByWalk(opens, pe.tree, pe.tps[tp].groups[pe.tps[tp].remote.current], ws)
    ensures CanSuspend(pe, tp, ws)
    ensures var r := StartGroup(w, p, opens, pe, tp, ws); Stepped(w, p, opens, pe, r.0, [], Slack(tp, n + 1, 0), r.1)
  {
    hide ValidWorld, View, Linked, Walk, Whole, HitsOf, GainWalk, SuspendAll, Asked, GroupsOk, Missing, TaskOk,
      GainedBy,
      LeftByWalk, Suspended, TravsOk, HitsOk, TableOk, DueOk;
    var one := pe.tps[tp];
    var mask := one.groups[one.remote.current];
    GroupsKnown(pe, [], Slack(tp, n, 0));
    TableView(w, p, pe);
    WalkIsTask(w, p, opens, pe.tree, mask, ws, pe.remoteHits);
    TaskWaits(w, p, opens, pe.tree, mask, Start, ws);
    var h' := GainWalk(opens, false, pe.tree, pe.remoteHits, mask, ROOT);
    var mid := pe.(tps := pe.tps[tp := Advanced(one)]);
    var pe1 := pe.(remoteHits := h', tps := pe.tps[tp := Advanced(one)]);
    AdvanceKeepsTravs(pe, tp, n, Advanced(one), Slack(tp, n, 0), Slack(tp, n + 1, 0));
    SameTable(w, p, pe, pe1);
    SuspendAllIs(w, p, pe1, tp, ws);
    var r := SuspendAll(w, p, pe1, tp, ws);
    SuspendKeepsTable(w, p, pe1, tp, ws, r.0, []) by { NoneDueOk(pe1); }
    TravsIgnoreHits(mid, pe1, [], Slack(tp, n + 1, 0));
    SuspendKeepsTravs(w, p, pe1, tp, ws, r.0, [], Slack(tp, n + 1, 0));
    SuspendedFrame(w, p, pe1, tp, ws, r.0);
    forall b ensures BucketOk(w, p, opens, r.0, [], b) {
      WasBalanced(w, p, opens, pe, [], b);
      NewlyStarted(pe.tps, tp, b);
      TaskBalances(w, p, opens, pe.tree, mask, Start, ws, pe.remoteHits, h', pe.requestors, tp, b);
      SameStarted(pe1.tps, r.0.tps, true, b);
      SameStarted(pe1.tps, r.0.tps, false, b);
    }
    AllBalanced(w, p, opens, r.0, []);
    AskedFrom(w, p, pe, pe1, r.0, r.1);
  }

  lemma WasBalanced(w: World, p: nat, opens: Opening, pe: Walker, due: seq<Requestor>, b: nat)
    requires ValidWorld(w) && HitsOk(w, p, opens, pe, due)
    ensures BucketOk(w, p, opens, pe, due, b)
  {
    hide ValidWorld, BucketOk;
  }

  lemma AllBalanced(w: World, p: nat, opens: Opening, pe: Walker, due: seq<Requestor>)
    requires ValidWorld(w) && forall b :: BucketOk(w, p, opens, pe, due, b)
    ensures HitsOk(w, p, opens, pe, due)
  {
    hide ValidWorld, BucketOk;
  }

  lemma GroupsKnown(pe: Walker, due: seq<Requestor>, slack: Slack)
    requires TravsOk(pe, due, slack)
    ensures GroupsOk(pe.tps)
  {
  }

  lemma TableView(w: World, p: nat, pe: Walker)
    requires ValidWorld(w) && TableOk(w, p, pe)
    ensures View(w, p, pe.tree) && Linked(pe.tree) && ROOT in pe.tree
  {
    hide ValidWorld, Missing;
  }

  lemma NoneDueOk(pe: Walker)
    ensures DueOk(pe, [])
  {
  }

  lemma TravsIgnoreHits(pe: Walker, pe': Walker, due: seq<Requestor>, slack: Slack)
    requires TravsOk(pe, due, slack) && pe' == pe.(remoteHits := pe'.remoteHits, localHits := pe'.localHits)
    ensures TravsOk(pe', due, slack)
  {
    hide ValidWorld, GroupsOk, PendingOk, DoneOk;
  }

  lemma SuspendedFrame(w: World, p: nat, pe: Walker, tp: nat, ws: seq<Wait>, pe': Walker)
    requires ValidWorld(w) && tp < |pe.tps| && Suspended(w, p, pe, tp, ws, pe')
    ensures pe'.tree == pe.tree && pe'.localHits == pe.localHits && pe'.remoteHits == pe.remoteHits
    ensures pe'.aborted == pe.aborted
    ensures pe'.requestors == pe.requestors + AsRequestors(tp, ws) && SameWalk(pe.tps, pe'.tps)
  {
    hide ValidWorld, AsRequestors;
  }

  lemma AskedFrom(w: World, p: nat, pe: Walker, pe1: Walker, pe': Walker, out: seq<Fetch>)
    requires ValidWorld(w) && Asked(w, p, pe1, pe', out) && pe1.requests == pe.requests
    ensures Asked(w, p, pe, pe', out)
  {
    hide ValidWorld, TheAsk;
  }

  // ---------------- one requestor resumed ----------------

  lemma {:induction false} OwedCons(w: World, p: nat, opens: Opening, r: Requestor, rest: seq<Requestor>, b: nat)
    requires ValidWorld(w) && r.cell.depth <= MAX_DEPTH
    ensures OwedTo(w, p, opens, [r] + rest, b)
         == (if b in r.mask then Owed(w, p, opens, b, r.cell) else multiset{}) + OwedTo(w, p, opens, rest, b)
  {
    hide ValidWorld, Owed;
    OwedToConcat(w, p, opens, [r], rest, b);
    OwedSnoc(w, p, opens, [], r, b);
    assert [] + [r] == [r];
  }

  lemma CountCons(r: Requestor, rest: seq<Requestor>, t: nat)
    ensures CountTP([r] + rest, t) == (if r.tp == t then 1 else 0) + CountTP(rest, t)
  {
    CountConcat([r], rest, t);
    CountSnoc([], r, t);
    assert [] + [r] == [r];
  }

  lemma ResumeIsTask(w: World, p: nat, opens: Opening, pe: Walker, r: Requestor, ws: seq<Wait>, h: Hits)
    requires ValidWorld(w) && TableOk(w, p, pe) && DueOk(pe, [r]) && Linked(pe.tree) && r.cell in pe.tree
    requires LeftByResume(opens, pe.tree, r, ws)
    ensures TaskIn(pe.tree, Again(r.cell)) && TaskOk(w, p, opens, pe.tree, r.mask, Again(r.cell), ws)
    ensures GainedBy(opens, pe.tree, h, GainResumed(opens, pe.tree, h, r.mask, r.cell), r.mask, Again(r.cell))
  {
    hide ValidWorld, Linked, Resumed, Owed, Accounts, View;
    TableView(w, p, pe);
    ArrivedFacts(w, p, pe, r);
    forall b | b in r.mask
      ensures Accounts(w, p, opens, false, b, pe.tree, OutOf(opens, pe.tree, Again(r.cell), b),
            PartOf(w, p, opens, Again(r.cell), b))
    {
      ResumedPays(w, p, opens, pe.tree, b, r.cell);
    }
  }

  lemma ArrivedFacts(w: World, p: nat, pe: Walker, r: Requestor)
    requires ValidWorld(w) && TableOk(w, p, pe) && DueOk(pe, [r]) && r.cell in pe.tree
    ensures r.cell.depth <= MAX_DEPTH && r.tp < |pe.tps| && r.mask != {}
    ensures pe.tree[r.cell].nchild > 0 <==> Refined(w, r.cell)
  {
    hide ValidWorld, Linked, View, Refined;
    assert r in [r];
    assert r.cell in pe.requests && pe.requests[r.cell];
    MissingFacts(w, p, pe.tree, r.cell);
  }

  lemma DueToSlack(pe: Walker, r: Requestor, rest: seq<Requestor>)
    requires TravsOk(pe, [r] + rest, NONE_DUE)
    ensures TravsOk(pe, rest, Slack(r.tp, 1, 0))
  {
    hide ValidWorld, GroupsOk, CountTP;
    forall t: nat | t < |pe.tps|
      ensures PendingOk(pe.tps[t], t, pe.requestors, rest, Slack(r.tp, 1, 0)) && DoneOk(pe.tps[t])
    {
      assert PendingOk(pe.tps[t], t, pe.requestors, [r] + rest, NONE_DUE) && DoneOk(pe.tps[t]);
      CountCons(r, rest, t);
    }
  }

  lemma DuePending(pe: Walker, r: Requestor, rest: seq<Requestor>)
    requires TravsOk(pe, [r] + rest, NONE_DUE) && r.tp < |pe.tps|
    ensures pe.tps[r.tp].remote.pending > 0
  {
    hide ValidWorld, GroupsOk, CountTP;
    assert PendingOk(pe.tps[r.tp], r.tp, pe.requestors, [r] + rest, NONE_DUE);
    CountCons(r, rest, r.tp);
  }

  lemma DueTail(pe: Walker, r: Requestor, rest: seq<Requestor>)
    requires DueOk(pe, [r] + rest)
    ensures DueOk(pe, [r]) && DueOk(pe, rest) && r.cell in pe.tree && r.tp < |pe.tps|
  {
    assert r in [r] + rest;
    forall x | x in rest ensures x in [r] + rest {}
  }

  lemma ResumeBalances(w: World, p: nat, opens: Opening, pe: Walker, r: Requestor, rest: seq<Requestor>, ws: seq<Wait>,
                       h': Hits, pe': Walker)
    requires ValidWorld(w) && HitsOk(w, p, opens, pe, [r] + rest) && TaskIn(pe.tree, Again(r.cell))
    requires TaskOk(w, p, opens, pe.tree, r.mask, Again(r.cell), ws)
    requires GainedBy(opens, pe.tree, pe.remoteHits, h', r.mask, Again(r.cell))
    requires pe'.remoteHits == h' && pe'.localHits == pe.localHits && SameWalk(pe.tps, pe'.tps)
    requires pe'.requestors == pe.requestors + AsRequestors(r.tp, ws)
    ensures HitsOk(w, p, opens, pe', rest)
  {
    hide ValidWorld, Whole, HitsOf, TaskOk, GainedBy, HitsOk, Owed, OutOf, Linked, OwedTo, Started, AsRequestors;
    forall b ensures BucketOk(w, p, opens, pe', rest, b) {
      WasBalanced(w, p, opens, pe, [r] + rest, b);
      TaskBalances(w, p, opens, pe.tree, r.mask, Again(r.cell), ws, pe.remoteHits, h', pe.requestors, r.tp, b);
      OwedCons(w, p, opens, r, rest, b);
      SameStarted(pe.tps, pe'.tps, true, b);
      SameStarted(pe.tps, pe'.tps, false, b);
    }
    AllBalanced(w, p, opens, pe', rest);
  }

  // Hits gained, walks suspended; what is left is to take r off `pending`.
  lemma ResumeMoves(w: World, p: nat, opens: Opening, pe: Walker, r: Requestor, rest: seq<Requestor>, ws: seq<Wait>)
    requires ValidWorld(w) && WalkInv(w, p, opens, pe, [r] + rest, NONE_DUE)
    requires Linked(pe.tree) && r.cell in pe.tree && LeftByResume(opens, pe.tree, r, ws)
    ensures CanSuspend(pe, r.tp, ws)
    ensures var pe1 := pe.(remoteHits := GainResumed(opens, pe.tree, pe.remoteHits, r.mask, r.cell));
            var s := SuspendAll(w, p, pe1, r.tp, ws);
            Stepped(w, p, opens, pe, s.0, rest, Slack(r.tp, 1, 0), s.1)
  {
    hide ValidWorld, View, Linked, Resumed, Whole, HitsOf, GainResumed, SuspendAll, Asked, GroupsOk, Missing, TaskOk,
      GainedBy,
      LeftByResume, Suspended, TravsOk, HitsOk, TableOk, DueOk, Owed, OutOf;
    TableView(w, p, pe);
    DueTail(pe, r, rest);
    ResumeIsTask(w, p, opens, pe, r, ws, pe.remoteHits);
    TaskWaits(w, p, opens, pe.tree, r.mask, Again(r.cell), ws);
    var h' := GainResumed(opens, pe.tree, pe.remoteHits, r.mask, r.cell);
    var pe1 := pe.(remoteHits := h');
    SameTable(w, p, pe, pe1);
    SuspendAllIs(w, p, pe1, r.tp, ws);
    var s := SuspendAll(w, p, pe1, r.tp, ws);
    DueIgnoresHits(pe, pe1, rest);
    SuspendKeepsTable(w, p, pe1, r.tp, ws, s.0, rest);
    TravsIgnoreHits(pe, pe1, [r] + rest, NONE_DUE);
    DuePending(pe1, r, rest);
    SuspendKeepsTravs(w, p, pe1, r.tp, ws, s.0, [r] + rest, NONE_DUE);
    DueToSlack(s.0, r, rest);
    SuspendedFrame(w, p, pe1, r.tp, ws, s.0);
    ResumeBalances(w, p, opens, pe, r, rest, ws, h', s.0);
    AskedFrom(w, p, pe, pe1, s.0, s.1);
  }

  lemma DueIgnoresHits(pe: Walker, pe': Walker, due: seq<Requestor>)
    requires DueOk(pe, due) && pe' == pe.(remoteHits := pe'.remoteHits)
    ensures DueOk(pe', due)
  {
  }

  // Accounting changes counters only.
  lemma AccountedInv(w: World, p: nat, opens: Opening, pe: Walker, pe': Walker, due: seq<Requestor>, slack: Slack)
    requires ValidWorld(w) && WalkInv(w, p, opens, pe, due, slack) && AccountedFor(pe, pe', due)
    ensures WalkInv(w, p, opens, pe', due, NONE_DUE)
  {
    hide ValidWorld, TableOk, TravsOk, HitsOf, OwedTo, Started, Whole;
    SameTable(w, p, pe, pe');
    forall b ensures BucketOk(w, p, opens, pe', due, b) {
      WasBalanced(w, p, opens, pe, due, b);
      SameStarted(pe.tps, pe'.tps, true, b);
      SameStarted(pe.tps, pe'.tps, false, b);
    }
  }

  lemma ResumeKeeps(w: World, p: nat, opens: Opening, pe: Walker, r: Requestor, rest: seq<Requestor>, ws: seq<Wait>)
    requires ValidWorld(w) && WalkInv(w, p, opens, pe, [r] + rest, NONE_DUE)
    requires Linked(pe.tree) && r.cell in pe.tree && LeftByResume(opens, pe.tree, r, ws)
    ensures CanSuspend(pe, r.tp, ws)
    ensures var s := Resume(w, p, opens, pe, r, ws); Stepped(w, p, opens, pe, s.0, rest, NONE_DUE, s.1)
  {
    hide ValidWorld, View, Linked, HitsOf, GainResumed, SuspendAll, Asked, LeftByResume, TravsOk, HitsOk, TableOk,
      DueOk, Account;
    ResumeMoves(w, p, opens, pe, r, rest, ws);
    var pe1 := pe.(remoteHits := GainResumed(opens, pe.tree, pe.remoteHits, r.mask, r.cell));
    SuspendKeepsTps(w, p, pe1, r.tp, ws);
    var s := SuspendAll(w, p, pe1, r.tp, ws);
    AccountKeeps(w, p, s.0, rest, r.tp, 1);
    AccountedInv(w, p, opens, s.0, Account(s.0, r.tp, 1), rest, Slack(r.tp, 1, 0));
    AskedSame(w, p, pe, s.0, Account(s.0, r.tp, 1), s.1);
  }

  lemma AskedSame(w: World, p: nat, pe: Walker, pe1: Walker, pe': Walker, out: seq<Fetch>)
    requires ValidWorld(w) && Asked(w, p, pe, pe1, out) && pe1.requests == pe'.requests && pe1.tree == pe'.tree
    ensures Asked(w, p, pe, pe', out)
  {
    hide ValidWorld, TheAsk;
  }

  // ---------------- all requestors of a key ----------------

  ghost predicate CanResume(pe: Walker, rs: seq<Requestor>, wss: seq<seq<Wait>>) {
    && Linked(pe.tree) && |wss| == |rs|
    && forall i :: 0 <= i < |rs| ==> rs[i].cell in pe.tree && CanSuspend(pe, rs[i].tp, wss[i])
  }

  lemma ResumeFrame(w: World, p: nat, opens: Opening, pe: Walker, r: Requestor, ws: seq<Wait>)
    requires ValidWorld(w) && Linked(pe.tree) && r.cell in pe.tree && CanSuspend(pe, r.tp, ws)
    ensures Resume(w, p, opens, pe, r, ws).0.tree == pe.tree && |Resume(w, p, opens, pe, r, ws).0.tps| == |pe.tps|
  {
    hide ValidWorld, Linked, GainResumed, SuspendAll;
    SuspendKeepsTps(w, p, pe.(remoteHits := GainResumed(opens, pe.tree, pe.remoteHits, r.mask, r.cell)), r.tp, ws);
  }

  function ResumeAll(w: World, p: nat, opens: Opening, pe: Walker, rs: seq<Requestor>, wss: seq<seq<Wait>>): (Walker,
                     seq<Fetch>)
    requires ValidWorld(w) && CanResume(pe, rs, wss)
    decreases |rs|
  {
    if rs == [] then (pe, [])
    else
      var one := Resume(w, p, opens, pe, rs[0], wss[0]);
      ResumeFrame(w, p, opens, pe, rs[0], wss[0]);
      var rest := ResumeAll(w, p, opens, one.0, rs[1..], wss[1..]);
      (rest.0, one.1 + rest.1)
  }

  ghost predicate AllLeft(opens: Opening, t: Tree, rs: seq<Requestor>, wss: seq<seq<Wait>>)
    requires Linked(t)
  {
    && |wss| == |rs|
    && forall i :: 0 <= i < |rs| ==> rs[i].cell in t && LeftByResume(opens, t, rs[i], wss[i])
  }

  lemma {:induction false} ResumeAllKeeps(w: World, p: nat, opens: Opening, pe: Walker, rs: seq<Requestor>,
                                          wss: seq<seq<Wait>>)
    requires ValidWorld(w) && WalkInv(w, p, opens, pe, rs, NONE_DUE) && Linked(pe.tree)
    requires AllLeft(opens, pe.tree, rs, wss)
    ensures CanResume(pe, rs, wss)
    ensures var s := ResumeAll(w, p, opens, pe, rs, wss); Stepped(w, p, opens, pe, s.0, [], NONE_DUE, s.1)
    decreases |rs|
  {
    hide ValidWorld, Linked, LeftByResume, WalkInv, Resume, Asked;
    if rs == [] {
      NobodyAsked(w, p, pe);
    } else {
      var r, rest := rs[0], rs[1..];
      assert rs == [r] + rest;
      ResumeKeeps(w, p, opens, pe, r, rest, wss[0]);
      var one := Resume(w, p, opens, pe, r, wss[0]);
      ResumeAllKeeps(w, p, opens, one.0, rest, wss[1..]);
      CanResumeFrom(pe, one.0, rs, wss);
      var s := ResumeAll(w, p, opens, one.0, rest, wss[1..]);
      AskedTwice(w, p, pe, one.0, s.0, one.1, s.1);
    }
  }

  lemma CanResumeFrom(pe: Walker, pe1: Walker, rs: seq<Requestor>, wss: seq<seq<Wait>>)
    requires Linked(pe.tree) && |rs| == |wss| && rs != [] && rs[0].cell in pe.tree && CanSuspend(pe, rs[0].tp, wss[0])
    requires pe1.tree == pe.tree && |pe1.tps| == |pe.tps| && CanResume(pe1, rs[1..], wss[1..])
    ensures CanResume(pe, rs, wss)
  {
    hide ValidWorld, Linked;
    forall i | 0 <= i < |rs| ensures rs[i].cell in pe.tree && CanSuspend(pe, rs[i].tp, wss[i]) {
      if i > 0 { assert rs[1..][i - 1] == rs[i] && wss[1..][i - 1] == wss[i]; }
    }
  }

  lemma NobodyAsked(w: World, p: nat, pe: Walker)
    requires ValidWorld(w)
    ensures Asked(w, p, pe, pe, [])
  {
  }
}
