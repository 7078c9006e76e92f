// The walking phase as a whole: no assertion fails, each key is fetched at most
// once per PE, each traversal is reported once and complete, and nothing stops
// before everything is done.
module WalkResults {
  import opened TreeKeys
  import opened Decomposition
  import opened TreeBuild
  import opened NodeFacts
  import opened GravityWalks
  import opened GroupWalks
  import opened TreeViews
  import opened Subtrees
  import opened FetchCache
  import opened FetchInvariant
  import opened FetchSteps
  import opened WalkSystem
  import opened WalkRuns
  import Moments
  import MomentsExchange

  // ---------------- from the moments exchange to the walks ----------------

  ghost predicate BuiltTree(w: World, p: nat, t: Tree)
    requires ValidWorld(w)
  {
    && (forall c :: c in t <==> Built(w, p, c))
    && (forall c :: c in t ==> c.depth <= MAX_DEPTH && t[c].kind == FinalKind(w, p, c))
    && (forall c :: c in t ==> t[c].nchild == if RefinedAt(w, p, c) then BRANCH else 0)
    && (forall c :: c in t ==> (t[c].kind == Bucket ==> t[c].filled))
  }

  lemma BuiltTreeView(w: World, p: nat, t: Tree)
    requires ValidWorld(w) && BuiltTree(w, p, t)
    ensures View(w, p, t)
  {
    hide ValidWorld, Refined, RefinedAt, FinalKind, LocallyDone, Linked, NodeView;
    assert Built(w, p, ROOT);
    forall c | c in t
      ensures c.depth <= MAX_DEPTH && (t[c].nchild == 0 || (t[c].nchild == BRANCH && c.depth < MAX_DEPTH))
    {
      BuiltValid(w, p, c);
      if RefinedAt(w, p, c) { RefinedAtHasRoom(w, p, c); }
    }
    forall c, i: nat | c in t && t[c].nchild > 0 && i < BRANCH ensures Child(c, i) in t {
      BuiltValid(w, p, c);
      RefinedAtHasRoom(w, p, c);
      ChildParent(c, i);
    }
    MakeLinked(t);
    forall c | c in t ensures NodeView(w, p, t, c) { BuiltNodeView(w, p, t, c); }
  }

  lemma BuiltNodeView(w: World, p: nat, t: Tree, c: Cell)
    requires ValidWorld(w) && BuiltTree(w, p, t) && c in t
    ensures NodeView(w, p, t, c)
  {
    hide ValidWorld, Refined, RefinedAt, LocallyDone, Here, LocalHere, MultiOwner, Owned;
    BuiltValid(w, p, c);
    LocalTreeIsPruned(w, p, c);
  }

  // What the walks see of a PE's tree: a Bucket has its particles at hand.
  function TreeFrom(nodes: map<Cell, Node>): Tree {
    map c | c in nodes :: TNode(nodes[c].kind, nodes[c].nchild, nodes[c].kind == Bucket)
  }

  // A ready root means every node below it is ready.
  lemma {:induction false} AllBelowDone(w: World, p: nat, pe: Moments.PE, c: Cell)
    requires ValidWorld(w) && Moments.Core(w, p, pe) && Moments.CountsOk(pe, None) && Moments.Done(pe, ROOT)
    requires c in pe.table
    ensures Moments.Done(pe, c)
    decreases c.depth
  {
    hide ValidWorld, RefinedAt, Moments.NodesOk, RemoteLeaf, Built;
    if c != ROOT {
      Moments.ParentIn(w, p, pe, c);
      AllBelowDone(w, p, pe, Parent(c));
      Moments.CountFull(pe, Parent(c), BRANCH);
      assert pe.table[Parent(c)].ready + Moments.Late(None, Parent(c)) == Moments.CountDone(pe, Parent(c), BRANCH);
      assert Moments.Done(pe, Child(Parent(c), Slot(c)));
    }
  }

  // Once the moments exchange has made a PE's root ready, its tree is one the
  // walks can start on.
  lemma ReadyRootView(w: World, p: nat, pe: Moments.PE)
    requires ValidWorld(w) && Moments.Core(w, p, pe) && Moments.CountsOk(pe, None) && Moments.Done(pe, ROOT)
    ensures View(w, p, TreeFrom(pe.table)) && BuiltOnly(w, p, TreeFrom(pe.table))
  {
    hide ValidWorld, RefinedAt, FinalKind, Moments.CountsOk, Moments.Done, RemoteLeaf, Moments.Closed, NodeMass,
      LocallyDone, RangeRight, Built;
    var t := TreeFrom(pe.table);
    forall c | c in t ensures c.depth <= MAX_DEPTH && t[c].kind == FinalKind(w, p, c) {
      AllBelowDone(w, p, pe, c);
      Moments.CoreNode(w, p, pe, c);
    }
    BuiltTreeView(w, p, t);
  }

  // ---------------- runs ----------------

  ghost predicate Run(r: Rules, run: seq<Sys>) {
    && |run| > 0 && Init(r, run[0])
    && forall i :: 0 <= i < |run| - 1 ==> ValidRules(r, |run[i].pes|) && Next(r, run[i], run[i + 1])
  }

  lemma InitInv(r: Rules, s: Sys)
    requires Init(r, s)
    ensures Inv(r, s)
  {
    hide ValidWorld;
  }

  lemma {:induction false} RunKeeps(r: Rules, run: seq<Sys>, i: nat)
    requires Run(r, run) && i < |run|
    ensures Inv(r, run[i]) && |run[i].pes| == |run[0].pes|
    decreases i
  {
    hide ValidWorld, Init, Inv, ValidRules, Next;
    if i == 0 {
      InitInv(r, run[0]);
    } else {
      RunKeeps(r, run, i - 1);
      NextKeeps(r, run[i - 1], run[i - 1 + 1]);
    }
  }

  // In every state of every run no assertion has failed; no PE has ever asked
  // for a key twice; and no PE has finished twice.
  lemma EachKeyOnce(r: Rules, run: seq<Sys>, i: nat, p: nat, x: Cell)
    requires Run(r, run) && i < |run|
    ensures CountAbout(run[i].asked, p, x) <= 1
    ensures p < |run[i].pes| && run[i].pes[p].Some? ==>
          !run[i].pes[p].value.aborted && run[i].pes[p].value.finished <= 1
  {
    hide ValidWorld, CountAbout, TableOk, HitsOk, MsgOk, Init, Next, Inv, Requested, GroupsOk;
    RunKeeps(r, run, i);
    OpenInv(r, run[i]);
    if p < |run[i].pes| && run[i].pes[p].Some? { PEInv(r, run[i], p); }
  }

  lemma NoneLeft(w: World, p: nat, opens: Opening, pe: Walker)
    requires ValidWorld(w) && WalkInv(w, p, opens, pe, [], NONE_DUE) && pe.finished == 1
    ensures forall t :: 0 <= t < |pe.tps| ==>
              pe.tps[t].reported == 1 && pe.tps[t].local.current == |pe.tps[t].groups| == pe.tps[t].remote.current
    ensures !Outstanding(pe) && pe.requestors == []
  {
    hide ValidWorld, TableOk, HitsOk, GroupsOk, CountTP;
    forall t: nat | t < |pe.tps| ensures pe.tps[t].reported <= 1 { assert DoneOk(pe.tps[t]); }
    AllReported(pe.tps);
    NoneCounted();
    forall t: nat | t < |pe.tps|
      ensures CountTP(pe.requestors, t) == 0
      ensures pe.tps[t].local.current == |pe.tps[t].groups| == pe.tps[t].remote.current
    {
      assert DoneOk(pe.tps[t]) && PendingOk(pe.tps[t], t, pe.requestors, [], NONE_DUE);
    }
    NothingOutstanding(w, p, pe, NONE_DUE);
  }

  // When a PE finishes, each of its buckets has interacted, through its local and
  // its remote walk, with every particle of the system exactly once, whatever the
  // opening decisions and the order of replies; nothing is outstanding, and every
  // TreePiece has reported once.
  lemma FinishedIsComplete(r: Rules, run: seq<Sys>, i: nat, p: nat, t: nat, g: nat, b: nat)
    requires Run(r, run) && i < |run| && p < |run[i].pes| && run[i].pes[p].Some? && run[i].pes[p].value.finished == 1
    requires t < |run[i].pes[p].value.tps| && g < |run[i].pes[p].value.tps[t].groups|
    requires b in run[i].pes[p].value.tps[t].groups[g]
    ensures var pe := run[i].pes[p].value;
            var hits := HitsOf(pe.localHits, b) + HitsOf(pe.remoteHits, b);
            && multiset(Covered(r.w, hits)) == multiset(AllFrom(r.w.pieces))
            && Mass(Covered(r.w, hits)) == Mass(AllFrom(r.w.pieces))
            && !Outstanding(pe) && pe.tps[t].reported == 1
    ensures ValidWorld(r.w) && p < |r.opens|
    ensures var pe := run[i].pes[p].value;
            forall h :: multiset(HitsOf(pe.localHits, b) + HitsOf(pe.remoteHits, b))[h]
                     == if Meets(r.w, r.opens[p], b, h) && Reaches(r.w, r.opens[p], b, ROOT, h.cell) then 1 else 0
  {
    hide ValidWorld, TableOk, TravsOk, DueOk, Whole, HitsOf, Covered, AllFrom, NetOk, Init, Next, Outstanding, Inv,
      Meets, Reaches;
    RunKeeps(r, run, i);
    OpenInv(r, run[i]);
    PEInv(r, run[i], p);
    var pe := run[i].pes[p].value;
    NoneLeft(r.w, p, r.opens[p], pe);
    WasBalanced(r.w, p, r.opens[p], pe, [], b);
    assert Started(pe.tps, true, b) && Started(pe.tps, false, b);
    assert OwedTo(r.w, p, r.opens[p], [], b) == multiset{};
    EveryParticleOnce(r.w, p, r.opens[p], b, HitsOf(pe.localHits, b), HitsOf(pe.remoteHits, b));
  }

  // ---------------- nothing gets stuck ----------------

  // No message under way, every tree ready, every group walked.
  ghost predicate Quiet(s: Sys) {
    && s.net == []
    && (forall p :: 0 <= p < |s.pes| ==> s.pes[p].Some? && AllWalked(s.pes[p].value))
  }

  ghost predicate AllWalked(pe: Walker) {
    forall t :: 0 <= t < |pe.tps| ==>
      pe.tps[t].local.current == |pe.tps[t].groups| && pe.tps[t].remote.current == |pe.tps[t].groups|
  }

  lemma NobodyWaiting(r: Rules, s: Sys, p: nat)
    requires Inv(r, s) && s.net == [] && p < |s.pes| && s.pes[p].Some?
    ensures s.pes[p].value.requestors == []
  {
    hide ValidWorld, HitsOk, TravsOk, View, Missing, MsgOk;
    PEInv(r, s, p);
    var pe := s.pes[p].value;
    forall x ensures !Waiting(s, p, x) { assert CountAbout(s.net, p, x) == 0; }
    forall x | x in pe.requests ensures pe.requests[x] { assert Waiting(s, p, x) <==> !pe.requests[x]; }
    InvTable(r.w, p, r.opens[p], pe);
    NoneSuspended(r.w, p, pe);
  }

  lemma NoneSuspended(w: World, p: nat, pe: Walker)
    requires ValidWorld(w) && TableOk(w, p, pe)
    ensures (exists x :: x in pe.requests && !pe.requests[x]) || pe.requestors == []
  {
    hide ValidWorld, View, Missing;
    if pe.requestors != [] {
      var q := pe.requestors[0];
      assert q.cell in pe.requests && !pe.requests[q.cell];
    }
  }

  lemma WalkedFinishes(w: World, p: nat, opens: Opening, pe: Walker)
    requires ValidWorld(w) && WalkInv(w, p, opens, pe, [], NONE_DUE) && AllWalked(pe) && pe.requestors == []
    ensures pe.finished == 1
  {
    hide ValidWorld, TableOk, HitsOk, GroupsOk;
    forall t: nat | t < |pe.tps| ensures pe.tps[t].reported == 1 {
      assert DoneOk(pe.tps[t]) && PendingOk(pe.tps[t], t, pe.requestors, [], NONE_DUE);
    }
    AllReported(pe.tps);
  }

  // When nothing is left to do every PE has finished, exactly once.
  lemma QuietMeansFinished(r: Rules, run: seq<Sys>, p: nat)
    requires Run(r, run) && Quiet(run[|run| - 1]) && p < |run[0].pes|
    ensures |run[|run| - 1].pes| == |run[0].pes| && run[|run| - 1].pes[p].value.finished == 1
  {
    hide ValidWorld, WalkInv, Init, Next, Inv, AllWalked;
    var s := run[|run| - 1];
    RunKeeps(r, run, |run| - 1);
    OpenInv(r, s);
    NobodyWaiting(r, s, p);
    PEInv(r, s, p);
    WalkedFinishes(r.w, p, r.opens[p], s.pes[p].value);
  }

  // ---------------- until then there is always a step ----------------

  // Waits as a walk could leave them, bucket after bucket.
  ghost function Each(b: nat, cells: seq<Cell>): seq<Wait> {
    if cells == [] then [] else Each(b, cells[..|cells| - 1]) + [Wait(cells[|cells| - 1], {b})]
  }

  lemma {:induction false} EachOf(b: nat, cells: seq<Cell>, q: nat)
    ensures WaitsOf(Each(b, cells), q) == if q == b then cells else []
    ensures Masked(Each(b, cells))
  {
    if cells != [] { EachOf(b, cells[..|cells| - 1], q); }
  }

  lemma {:induction false} WaitsConcat(a: seq<Wait>, b: seq<Wait>, q: nat)
    ensures WaitsOf(a + b, q) == WaitsOf(a, q) + WaitsOf(b, q)
  {
    if b == [] {
      assert a + b == a;
    } else {
      assert (a + b)[..|a + b| - 1] == a + b[..|b| - 1];
      WaitsConcat(a, b[..|b| - 1], q);
    }
  }

  lemma {:induction false} WaitsExist(opens: Opening, t: Tree, task: Task, mask: set<nat>) returns (ws: seq<Wait>)
    requires TaskIn(t, task)
    ensures Masked(ws) && forall b :: WaitsOf(ws, b) == if b in mask then OutOf(opens, t, task, b).waits else []
    decreases |mask|
  {
    hide ValidWorld, TaskIn, OutOf;
    if mask == {} {
      ws := [];
    } else {
      var b :| b in mask;
      var rest := WaitsExist(opens, t, task, mask - {b});
      ws := rest + Each(b, OutOf(opens, t, task, b).waits);
      EachOf(b, OutOf(opens, t, task, b).waits, b);
      forall q ensures WaitsOf(ws, q) == if q in mask then OutOf(opens, t, task, q).waits else [] {
        WaitsConcat(rest, Each(b, OutOf(opens, t, task, b).waits), q);
        EachOf(b, OutOf(opens, t, task, b).waits, q);
      }
    }
  }

  lemma ReadyPossible(r: Rules, s: Sys, p: nat)
    requires Inv(r, s) && p < |s.pes| && s.pes[p] == None
    ensures exists s' :: Next(r, s, s')
  {
    hide ValidWorld, FinalKind, RefinedAt, Refined, BuiltSet;
    var w := r.w;
    RootOwners(w);
    forall c | c in BuiltSet(w, p, ROOT) ensures Built(w, p, c) && c.depth <= MAX_DEPTH {
      BuiltSetBuilt(w, p, ROOT, c);
      BuiltValid(w, p, c);
    }
    var t: Tree := map c | c in BuiltSet(w, p, ROOT) ::
      TNode(FinalKind(w, p, c), if RefinedAt(w, p, c) then BRANCH else 0, FinalKind(w, p, c) == Bucket);
    forall c ensures c in t <==> Built(w, p, c) { if Built(w, p, c) { BuiltInSet(w, p, c); } }
    BuiltTreeView(w, p, t);
    var s' := s.(pes := s.pes[p := Some(StartWalker(t, []))]);
    assert ReadyStep(r, s, p, t, [], s');
    assert Next(r, s, s');
  }

  lemma RemotePossible(r: Rules, s: Sys, p: nat, tp: nat)
    requires Inv(r, s) && p < |s.pes| && s.pes[p].Some? && tp < |s.pes[p].value.tps|
    requires s.pes[p].value.tps[tp].remote.current < |s.pes[p].value.tps[tp].groups|
    ensures exists s' :: Next(r, s, s')
  {
    hide ValidWorld, HitsOk, DueOk, View, Missing, MsgOk, Walk, LeftByWalk, DoRemote, Linked, TaskIn, PEsOk, NetOk,
      Inv, WalkInv;
    OpenInv(r, s);
    var pe, one := s.pes[p].value, s.pes[p].value.tps[tp];
    PEInv(r, s, p);
    InvTable(r.w, p, r.opens[p], pe);
    TableView(r.w, p, pe);
    assert TaskIn(pe.tree, Start) by { StartIn(pe.tree); }
    var mask := one.groups[one.remote.current];
    var ws := WaitsExist(r.opens[p], pe.tree, Start, mask);
    LeftAsTask(r.opens[p], pe.tree, mask, ws);
    WalkIsTask(r.w, p, r.opens[p], pe.tree, mask, ws, pe.remoteHits);
    TaskWaits(r.w, p, r.opens[p], pe.tree, mask, Start, ws);
    OnlyMissing(pe.tree, ws);
    var wss := [ws];
    assert CanStart(pe, tp, wss);
    assert GroupsLeft(r.opens[p], pe, tp, wss);
    var x := DoRemote(r.w, p, r.opens[p], pe, tp, wss);
    var s' := Sys(s.pes[p := Some(x.0)], s.net + x.1, s.asked + x.1);
    assert RemoteStep(r, s, p, tp, wss, s');
    assert Next(r, s, s');
  }

  lemma StartIn(t: Tree)
    requires Linked(t) && ROOT in t
    ensures TaskIn(t, Start)
  {
  }

  lemma LeftAsTask(opens: Opening, t: Tree, mask: set<nat>, ws: seq<Wait>)
    requires Linked(t) && ROOT in t && TaskIn(t, Start) && Masked(ws)
    requires forall b :: WaitsOf(ws, b) == if b in mask then OutOf(opens, t, Start, b).waits else []
    ensures LeftByWalk(opens, t, mask, ws)
  {
    hide ValidWorld, Linked, Walk;
  }

  lemma LocalPossible(r: Rules, s: Sys, p: nat, tp: nat)
    requires Inv(r, s) && p < |s.pes| && s.pes[p].Some? && tp < |s.pes[p].value.tps|
    requires s.pes[p].value.tps[tp].local.current < |s.pes[p].value.tps[tp].groups|
    ensures exists s' :: Next(r, s, s')
  {
    hide ValidWorld, WalkInv, View, PEsOk, NetOk, Inv, Linked, DoLocal;
    OpenInv(r, s);
    var pe := s.pes[p].value;
    PEInv(r, s, p);
    InvTable(r.w, p, r.opens[p], pe);
    TableView(r.w, p, pe);
    var s' := s.(pes := s.pes[p := Some(DoLocal(r.opens[p], pe, tp, 1))]);
    assert LocalStep(r, s, p, tp, 1, s');
    assert Next(r, s, s');
  }

  lemma ServePossible(r: Rules, s: Sys, i: nat)
    requires Inv(r, s) && i < |s.net| && IsAsk(s.net[i]) && s.net[i].dest < |s.pes| && s.pes[s.net[i].dest].Some?
    ensures exists s' :: Next(r, s, s')
  {
    hide ValidWorld, PEsOk, NetOk, CanServe, Reply;
    var m, pe := s.net[i], s.pes[s.net[i].dest].value;
    var s' := if CanServe(r.w, m.dest, pe, m) then s.(net := s.net[..i] + s.net[i + 1..] + [Reply(pe, m, r.levels)])
              else s.(pes := s.pes[m.dest := Some(pe.(aborted := true))], net := s.net[..i] + s.net[i + 1..]);
    assert ServeStep(r, s, i, s');
    assert Next(r, s, s');
  }

  lemma {:induction false} AllWaitsExist(opens: Opening, t: Tree, rs: seq<Requestor>) returns (wss: seq<seq<Wait>>)
    requires Linked(t) && ROOT in t && forall q :: q in rs ==> q.cell in t && q.cell.depth <= MAX_DEPTH
    ensures AllLeft(opens, t, rs, wss)
  {
    hide ValidWorld, Linked, Resumed, LeftByResume;
    if rs == [] {
      wss := [];
    } else {
      var n := |rs| - 1;
      var before := AllWaitsExist(opens, t, rs[..n]);
      assert TaskIn(t, Again(rs[n].cell)) by { AgainIn(t, rs[n].cell); }
      var ws := WaitsExist(opens, t, Again(rs[n].cell), rs[n].mask);
      LeftAsResume(opens, t, rs[n], ws);
      wss := before + [ws];
    }
  }

  lemma AgainIn(t: Tree, x: Cell)
    requires Linked(t) && ROOT in t && x in t && x.depth <= MAX_DEPTH
    ensures TaskIn(t, Again(x))
  {
  }

  lemma LeftAsResume(opens: Opening, t: Tree, q: Requestor, ws: seq<Wait>)
    requires Linked(t) && q.cell in t && TaskIn(t, Again(q.cell)) && Masked(ws)
    requires forall b :: WaitsOf(ws, b) == if b in q.mask then OutOf(opens, t, Again(q.cell), b).waits else []
    ensures LeftByResume(opens, t, q, ws)
  {
    hide ValidWorld, Linked, Resumed;
  }

  lemma ReplyPossible(r: Rules, s: Sys, i: nat)
    requires Inv(r, s) && i < |s.net| && !IsAsk(s.net[i])
    ensures exists s' :: Next(r, s, s')
  {
    hide ValidWorld, WalkInv, MsgOk, PEsOk, NetOk, Inv, View, AllLeft, CanResume, ResumeAll, Linked, Waiting,
      TreeAfter, Only;
    OpenInv(r, s);
    var m := s.net[i];
    ReplyExpected(r, s, i);
    WaitingSays(s, m.dest, m.cell);
    var p, pe := m.dest, s.pes[m.dest].value;
    PEInv(r, s, p);
    ArriveKeeps(r.w, p, r.opens[p], pe, m, |s.pes|);
    var pe1, rs := Arrived(pe, m.cell, TreeAfter(pe.tree, m)), Only(pe.requestors, m.cell);
    DueCells(r.w, p, r.opens[p], pe1, rs);
    var wss := AllWaitsExist(r.opens[p], pe1.tree, rs);
    ResumeAllKeeps(r.w, p, r.opens[p], pe1, rs, wss);
    var x := ResumeAll(r.w, p, r.opens[p], pe1, rs, wss);
    assert Receives(r.w, p, r.opens[p], pe, m, wss, x.0, x.1);
    var s' := Sys(s.pes[p := Some(x.0)], s.net[..i] + s.net[i + 1..] + x.1, s.asked + x.1);
    assert ReplyStep(r, s, i, wss, x.0, x.1, s');
    assert Next(r, s, s');
  }

  lemma DueCells(w: World, p: nat, opens: Opening, pe: Walker, rs: seq<Requestor>)
    requires ValidWorld(w) && WalkInv(w, p, opens, pe, rs, NONE_DUE)
    ensures Linked(pe.tree) && ROOT in pe.tree && forall q :: q in rs ==> q.cell in pe.tree && q.cell.depth <= MAX_DEPTH
  {
    hide ValidWorld, View, TravsOk, HitsOk, Linked, Missing;
    TableView(w, p, pe);
    ViewLinked(w, p, pe.tree);
  }

  // As long as anything is left to do, some step is possible.
  lemma SomeStep(r: Rules, s: Sys)
    requires Inv(r, s) && !Quiet(s)
    ensures ValidRules(r, |s.pes|) && exists s' :: Next(r, s, s')
  {
    hide ValidWorld, PEsOk, NetOk, Next, MsgOk;
    if p: nat :| p < |s.pes| && s.pes[p] == None {
      ReadyPossible(r, s, p);
    } else if s.net != [] {
      assert s.net[0] in s.net && MsgOk(r.w, |s.pes|, s.net[0]) by { FirstOk(r, s); }
      DestOk(r, |s.pes|, s.net[0]);
      if IsAsk(s.net[0]) { ServePossible(r, s, 0); } else { ReplyPossible(r, s, 0); }
    } else {
      var p: nat :| p < |s.pes| && !AllWalked(s.pes[p].value);
      var tp: nat :| tp < |s.pes[p].value.tps|
        && !(s.pes[p].value.tps[tp].local.current == |s.pes[p].value.tps[tp].groups|
             && s.pes[p].value.tps[tp].remote.current == |s.pes[p].value.tps[tp].groups|);
      CurrentInRange(r, s, p, tp);
      if s.pes[p].value.tps[tp].remote.current < |s.pes[p].value.tps[tp].groups| {
        RemotePossible(r, s, p, tp);
      } else {
        LocalPossible(r, s, p, tp);
      }
    }
  }

  lemma FirstOk(r: Rules, s: Sys)
    requires Inv(r, s) && s.net != []
    ensures s.net[0] in s.net && MsgOk(r.w, |s.pes|, s.net[0])
  {
    hide ValidWorld, MsgOk, PEsOk, CountAbout;
  }

  lemma CurrentInRange(r: Rules, s: Sys, p: nat, tp: nat)
    requires Inv(r, s) && p < |s.pes| && s.pes[p].Some? && tp < |s.pes[p].value.tps|
    ensures s.pes[p].value.tps[tp].local.current <= |s.pes[p].value.tps[tp].groups|
    ensures s.pes[p].value.tps[tp].remote.current <= |s.pes[p].value.tps[tp].groups|
  {
    hide ValidWorld, TableOk, HitsOk, GroupsOk, NetOk;
    PEInv(r, s, p);
    assert PendingOk(s.pes[p].value.tps[tp], tp, s.pes[p].value.requestors, [], NONE_DUE);
  }
}
