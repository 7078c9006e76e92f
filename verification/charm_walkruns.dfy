// What holds over whole runs of the walking phase.
module WalkRuns {
  import opened TreeKeys
  import opened Decomposition
  import opened TreeBuild
  import opened NodeFacts
  import opened GravityWalks
  import opened GroupWalks
  import opened TreeViews
  import opened Subtrees
  import opened FetchCache
  import opened FetchInvariant
  import opened FetchSteps
  import opened WalkSystem

  // ---------------- every step keeps the invariant ----------------

  lemma FirstStarted(groups: seq<seq<set<nat>>>, local: bool, b: nat)
    ensures !Started(FirstPieces(groups), local, b)
  {
  }

  lemma StartInv(w: World, p: nat, opens: Opening, t: Tree, groups: seq<seq<set<nat>>>)
    requires ValidWorld(w) && View(w, p, t) && GroupsOk(FirstPieces(groups))
    ensures WalkInv(w, p, opens, StartWalker(t, groups), [], NONE_DUE)
  {
    hide ValidWorld, View, GroupsOk, Whole, Started;
    var pe := StartWalker(t, groups);
    NoneCounted();
    forall b ensures BucketOk(w, p, opens, pe, [], b) {
      FirstStarted(groups, true, b);
      FirstStarted(groups, false, b);
    }
    AllBalanced(w, p, opens, pe, []);
  }

  lemma PEInv(r: Rules, s: Sys, p: nat)
    requires ValidRules(r, |s.pes|) && PEsOk(r, s) && p < |s.pes| && s.pes[p].Some?
    ensures WalkInv(r.w, p, r.opens[p], s.pes[p].value, [], NONE_DUE)
  {
    hide ValidWorld, WalkInv;
  }

  lemma SameNet(r: Rules, s: Sys, p: nat, pe': Walker, s': Sys)
    requires Inv(r, s) && p < |s.pes| && s' == s.(pes := s.pes[p := Some(pe')])
    requires forall x ::
          (x in pe'.requests <==> Requested(s, p, x)) && (Waiting(s, p, x) <==> x in pe'.requests && !pe'.requests[x])
    requires WalkInv(r.w, p, r.opens[p], pe', [], NONE_DUE)
    ensures Inv(r, s')
  {
    hide ValidWorld, WalkInv, MsgOk, CountAbout, PEsOk;
    PEsUpdated(r, s, p, pe', s');
    forall q: nat, x
      ensures (Waiting(s', q, x) <==> Waiting(s, q, x)) && (Requested(s', q, x) <==> Requested(s, q, x))
    {
      if q != p && q < |s.pes| { assert s'.pes[q] == s.pes[q]; }
    }
    assert NetOk(r, s');
  }

  lemma ReadyKeeps(r: Rules, s: Sys, p: nat, t: Tree, groups: seq<seq<set<nat>>>, s': Sys)
    requires Inv(r, s) && ReadyStep(r, s, p, t, groups, s')
    ensures Inv(r, s') && |s'.pes| == |s.pes|
  {
    hide ValidWorld, WalkInv, View, Inv, BuiltOnly, GroupsOk;
    OpenInv(r, s);
    StartInv(r.w, p, r.opens[p], t, groups);
    SameNet(r, s, p, StartWalker(t, groups), s');
  }

  lemma OpenInv(r: Rules, s: Sys)
    requires Inv(r, s)
    ensures ValidRules(r, |s.pes|) && PEsOk(r, s) && NetOk(r, s)
  {
  }

  lemma StillCounted(r: Rules, s: Sys, p: nat)
    requires ValidRules(r, |s.pes|) && NetOk(r, s) && p < |s.pes| && s.pes[p].Some?
    ensures StillOpen(s, s.net, p, s.pes[p].value)
  {
    hide ValidWorld, CountAbout, MsgOk;
    forall x
      ensures CountAbout(s.net, p, x) == if x in s.pes[p].value.requests && !s.pes[p].value.requests[x] then 1 else 0
    {
      assert Waiting(s, p, x) || !Waiting(s, p, x);
    }
  }

  lemma RemoteKeeps(r: Rules, s: Sys, p: nat, tp: nat, wss: seq<seq<Wait>>, s': Sys)
    requires Inv(r, s) && ValidRules(r, |s.pes|) && RemoteStep(r, s, p, tp, wss, s')
    ensures Inv(r, s') && |s'.pes| == |s.pes|
  {
    hide ValidWorld, WalkInv, Inv, CanStart, GroupsLeft, DoRemote, Asked, NetOk, PEsOk, CountAbout;
    OpenInv(r, s);
    var pe := s.pes[p].value;
    PEInv(r, s, p);
    DoRemoteKeeps(r.w, p, r.opens[p], pe, tp, wss);
    var x := DoRemote(r.w, p, r.opens[p], pe, tp, wss);
    StillCounted(r, s, p);
    SendKeeps(r, s, p, pe, pe, x.0, x.1, s.net, s');
  }

  lemma LocalKeeps(r: Rules, s: Sys, p: nat, tp: nat, n: nat, s': Sys)
    requires Inv(r, s) && ValidRules(r, |s.pes|) && LocalStep(r, s, p, tp, n, s')
    ensures Inv(r, s') && |s'.pes| == |s.pes|
  {
    hide ValidWorld, WalkInv, Inv, CanStartLocal, DoLocal, NetOk, PEsOk;
    OpenInv(r, s);
    PEInv(r, s, p);
    DoLocalKeeps(r.w, p, r.opens[p], s.pes[p].value, tp, n);
    SameNet(r, s, p, DoLocal(r.opens[p], s.pes[p].value, tp, n), s');
  }

  lemma ReplyFits(r: Rules, n: nat, d: nat, pe: Walker, m: Fetch)
    requires ValidRules(r, n) && MsgOk(r.w, n, m) && IsAsk(m) && m.dest == d && View(r.w, d, pe.tree)
    requires CanServe(r.w, d, pe, m)
    ensures MsgOk(r.w, n, Reply(pe, m, r.levels))
    ensures forall p, x :: About(Reply(pe, m, r.levels), p, x) <==> About(m, p, x)
  {
    hide ValidWorld, View, ValidCell, Here, Owned, InTree, Refined, TheAsk, Fits, Cut, Built;
    if m.NodeRequest? { CutFits(r.w, d, pe.tree, m.cell, r.levels); }
  }

  lemma ServeKeeps(r: Rules, s: Sys, i: nat, s': Sys)
    requires Inv(r, s) && ServeStep(r, s, i, s')
    ensures Inv(r, s') && |s'.pes| == |s.pes|
  {
    hide ValidWorld, WalkInv, MsgOk, PEsOk, CountAbout, CanServe, Reply, Waiting, Requested, About;
    var m := s.net[i];
    var pe := s.pes[m.dest].value;
    assert m in s.net;
    PEInv(r, s, m.dest);
    InvTable(r.w, m.dest, r.opens[m.dest], pe);
    TableView(r.w, m.dest, pe);
    Answerable(r, |s.pes|, pe, m);
    ReplyFits(r, |s.pes|, m.dest, pe, m);
    var net0 := s.net[..i] + s.net[i + 1..];
    forall q: nat, x ensures CountAbout(s'.net, q, x) == CountAbout(s.net, q, x) {
      AboutTaken(s.net, i, q, x);
      AboutConcat(net0, [Reply(pe, m, r.levels)], q, x);
      AboutOne(Reply(pe, m, r.levels), q, x);
    }
    NetMoved(r, s, s');
  }

  lemma NetMoved(r: Rules, s: Sys, s': Sys)
    requires Inv(r, s) && s'.pes == s.pes && s'.asked == s.asked
    requires forall q: nat, x :: CountAbout(s'.net, q, x) == CountAbout(s.net, q, x)
    requires forall m :: m in s'.net ==> MsgOk(r.w, |s.pes|, m)
    ensures Inv(r, s')
  {
    hide ValidWorld, WalkInv, MsgOk, CountAbout;
    assert forall q: nat, x ::
          (Waiting(s', q, x) <==> Waiting(s, q, x)) && (Requested(s', q, x) <==> Requested(s, q, x));
  }

  ghost predicate OneLess(net: seq<Fetch>, net0: seq<Fetch>, p: nat, c: Cell) {
    forall q: nat, x :: CountAbout(net0, q, x) == CountAbout(net, q, x) - if q == p && x == c then 1 else 0
  }

  // A message about a key is a message the PE is waiting for.
  lemma ReplyExpected(r: Rules, s: Sys, i: nat)
    requires Inv(r, s) && i < |s.net| && !IsAsk(s.net[i])
    ensures Waiting(s, s.net[i].dest, s.net[i].cell)
    ensures MsgOk(r.w, |s.pes|, s.net[i])
    ensures OneLess(s.net, s.net[..i] + s.net[i + 1..], s.net[i].dest, s.net[i].cell)
  {
    hide ValidWorld, WalkInv, MsgOk, CountAbout, PEsOk;
    var m := s.net[i];
    assert m in s.net;
    AboutTaken(s.net, i, m.dest, m.cell);
    assert CountAbout(s.net, m.dest, m.cell) > 0;
    forall q: nat, x ensures CountAbout(s.net[..i] + s.net[i + 1..], q, x)
                          == CountAbout(s.net, q, x) - if q == m.dest && x == m.cell then 1 else 0
    {
      AboutTaken(s.net, i, q, x);
    }
  }

  lemma ReplyKeeps(r: Rules, s: Sys, i: nat, wss: seq<seq<Wait>>, pe': Walker, out: seq<Fetch>, s': Sys)
    requires Inv(r, s) && ValidRules(r, |s.pes|) && ReplyStep(r, s, i, wss, pe', out, s')
    ensures Inv(r, s') && |s'.pes| == |s.pes|
  {
    hide ValidWorld, WalkInv, MsgOk, PEsOk, CountAbout, Waiting, NetOk, Inv, Asked, AllLeft, CanResume, ResumeAll,
      TreeAfter, Expected;
    OpenInv(r, s);
    var m := s.net[i];
    var p, pe := m.dest, s.pes[m.dest].value;
    ReplyExpected(r, s, i);
    WaitingSays(s, p, m.cell);
    PEInv(r, s, p);
    ArriveKeeps(r.w, p, r.opens[p], pe, m, |s.pes|);
    assert m.cell in pe.tree by { hide *; OnTree(pe, m.cell); }
    var pe1, rs := Arrived(pe, m.cell, TreeAfter(pe.tree, m)), Only(pe.requestors, m.cell);
    ResumeAllKeeps(r.w, p, r.opens[p], pe1, rs, wss);
    TakenCounts(r, s, i, pe1);
    SendKeeps(r, s, p, pe, pe1, pe', out, s.net[..i] + s.net[i + 1..], s');
  }

  lemma OnTree(pe: Walker, x: Cell)
    requires Expected(pe, x)
    ensures x in pe.tree
  {
  }

  lemma WaitingSays(s: Sys, p: nat, x: Cell)
    requires Waiting(s, p, x)
    ensures p < |s.pes| && s.pes[p].Some? && x in s.pes[p].value.requests && !s.pes[p].value.requests[x]
  {
  }

  lemma TakenCounts(r: Rules, s: Sys, i: nat, pe1: Walker)
    requires Inv(r, s) && i < |s.net| && !IsAsk(s.net[i]) && s.net[i].dest < |s.pes| && s.pes[s.net[i].dest].Some?
    requires var pe := s.pes[s.net[i].dest].value; pe1.requests == pe.requests[s.net[i].cell := true]
    ensures pe1.requests.Keys == s.pes[s.net[i].dest].value.requests.Keys
    ensures StillOpen(s, s.net[..i] + s.net[i + 1..], s.net[i].dest, pe1)
  {
    hide ValidWorld, WalkInv, MsgOk, PEsOk, CountAbout, Inv;
    OpenInv(r, s);
    ReplyExpected(r, s, i);
    var p, c, net0 := s.net[i].dest, s.net[i].cell, s.net[..i] + s.net[i + 1..];
    StillCounted(r, s, p);
    WaitingSays(s, p, c);
    forall q: nat, x
      ensures CountAbout(net0, q, x)
           == (if q == p then (if x in pe1.requests && !pe1.requests[x] then 1 else 0) else CountAbout(s.net, q, x))
    {
      assert CountAbout(net0, q, x) == CountAbout(s.net, q, x) - if q == p && x == c then 1 else 0;
      assert CountAbout(s.net, p, x) == if x in s.pes[p].value.requests && !s.pes[p].value.requests[x] then 1 else 0;
      assert x != c ==> (x in pe1.requests <==> x in s.pes[p].value.requests);
    }
  }

  lemma NextKeeps(r: Rules, s: Sys, s': Sys)
    requires Inv(r, s) && ValidRules(r, |s.pes|) && Next(r, s, s')
    ensures Inv(r, s') && |s'.pes| == |s.pes|
  {
    hide ValidWorld, Inv, ReadyStep, RemoteStep, LocalStep, ServeStep, ReplyStep;
    if p, t, groups :| ReadyStep(r, s, p, t, groups, s') {
      ReadyKeeps(r, s, p, t, groups, s');
    } else if p, tp, wss :| RemoteStep(r, s, p, tp, wss, s') {
      RemoteKeeps(r, s, p, tp, wss, s');
    } else if p, tp, n :| LocalStep(r, s, p, tp, n, s') {
      LocalKeeps(r, s, p, tp, n, s');
    } else if i :| ServeStep(r, s, i, s') {
      ServeKeeps(r, s, i, s');
    } else {
      var i, wss, pe', out :| ReplyStep(r, s, i, wss, pe', out, s');
      ReplyKeeps(r, s, i, wss, pe', out, s');
    }
  }
}
