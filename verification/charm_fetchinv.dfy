// What every entry method of the fetch cache keeps.
module FetchInvariant {
  import opened TreeKeys
  import opened Decomposition
  import opened TreeBuild
  import opened NodeFacts
  import opened GravityWalks
  import opened GroupWalks
  import opened TreeViews
  import opened Subtrees
  import opened FetchCache

  // ---------------- suspending ----------------

  ghost function AsRequestors(tp: nat, ws: seq<Wait>): seq<Requestor> {
    if ws == [] then [] else AsRequestors(tp, ws[..|ws| - 1]) + [Requestor(ws[|ws| - 1].cell, tp, ws[|ws| - 1].mask)]
  }

  lemma {:induction false} RequestorsOf(tp: nat, ws: seq<Wait>)
    ensures |AsRequestors(tp, ws)| == |ws|
    ensures forall i :: 0 <= i < |ws| ==> AsRequestors(tp, ws)[i] == Requestor(ws[i].cell, tp, ws[i].mask)
  {
    if ws != [] { RequestorsOf(tp, ws[..|ws| - 1]); }
  }

  lemma {:induction false} RequestorsCons(tp: nat, ws: seq<Wait>)
    requires ws != []
    ensures AsRequestors(tp, ws) == [Requestor(ws[0].cell, tp, ws[0].mask)] + AsRequestors(tp, ws[1..])
  {
    RequestorsOf(tp, ws);
    RequestorsOf(tp, ws[1..]);
  }

  lemma {:induction false} RequestorsCount(tp: nat, ws: seq<Wait>, t: nat)
    ensures CountTP(AsRequestors(tp, ws), t) == if t == tp then |ws| else 0
  {
    if ws != [] { RequestorsCount(tp, ws[..|ws| - 1], t); }
  }

  lemma {:induction false} RequestorsOwed(w: World, p: nat, opens: Opening, tp: nat, ws: seq<Wait>, b: nat)
    requires ValidWorld(w) && forall x :: x in ws ==> x.cell.depth <= MAX_DEPTH
    ensures forall x :: x in WaitsOf(ws, b) ==> x.depth <= MAX_DEPTH
    ensures OwedTo(w, p, opens, AsRequestors(tp, ws), b) == OwedAll(w, p, opens, b, WaitsOf(ws, b))
  {
    hide ValidWorld, Owed;
    if ws != [] {
      var n := |ws| - 1;
      RequestorsOwed(w, p, opens, tp, ws[..n], b);
      OwedSnoc(w, p, opens, AsRequestors(tp, ws[..n]), Requestor(ws[n].cell, tp, ws[n].mask), b);
      if b in ws[n].mask {
        var before := WaitsOf(ws[..n], b);
        assert WaitsOf(ws, b) == before + [ws[n].cell];
        assert (before + [ws[n].cell])[..|before|] == before;
      } else {
        assert WaitsOf(ws, b) == WaitsOf(ws[..n], b);
      }
    }
  }

  // Who can be asked for a missing node.
  lemma AskPossible(w: World, p: nat, t: Tree, x: Cell)
    requires ValidWorld(w) && View(w, p, t) && Missing(t, x)
    ensures x.depth <= MAX_DEPTH && |Ask(w, p, t, x)| == 1
  {
    hide Refined, Built, FullKind, Linked, ValidWorld, Here, ServingOwner, ValidCell;
    assert NodeView(w, p, t, x);
    MissingFacts(w, p, t, x);
    if t[x].kind == Remote && ServingOwner(w, p, x).None? { ServedOrEmpty(w, p, x); }
  }

  // A Remote node is refined, a RemoteBucket has one owner, and both hold particles.
  lemma MissingFacts(w: World, p: nat, t: Tree, x: Cell)
    requires ValidWorld(w) && View(w, p, t) && x in t && (t[x].kind == Remote || t[x].kind == RemoteBucket)
    ensures ValidCell(x) && x.depth <= MAX_DEPTH && Here(w, x) != [] && Owned(w, x)
    ensures t[x].kind == Remote <==> Refined(w, x)
    ensures t[x].kind == RemoteBucket ==> OwnerStart(w, x) == OwnerEnd(w, x) && t[x].nchild == 0
  {
    hide ValidWorld, Built, FullKind, Linked, Here, Lo, Hi;
    assert NodeView(w, p, t, x);
    KindSays(w, p, x);
    if !Owned(w, x) { UnownedEmpty(w, p, x); }
  }

  // The message sent for a key, which depends on nothing but the key.
  ghost function TheAsk(w: World, p: nat, x: Cell): Fetch
    requires ValidWorld(w) && x.depth <= MAX_DEPTH && Owned(w, x)
  {
    if Refined(w, x) then
      match ServingOwner(w, p, x)
      case Some(tp) => NodeRequest(w.pieces[tp].home, x, p)
      case None => PartReply(0, x)
    else PartRequest(w.pieces[OwnerStart(w, x)].home, x, p)
  }

  lemma AskIsThe(w: World, p: nat, t: Tree, x: Cell)
    requires ValidWorld(w) && View(w, p, t) && Missing(t, x)
    ensures x.depth <= MAX_DEPTH && Owned(w, x) && Ask(w, p, t, x) == [TheAsk(w, p, x)]
    ensures TheAsk(w, p, x).cell == x && (TheAsk(w, p, x).NodeRequest? || TheAsk(w, p, x).PartRequest?)
    ensures TheAsk(w, p, x).replyTo == p
  {
    hide Refined, Built, FullKind, Linked, ValidWorld, Here, ServingOwner, ValidCell, View;
    AskPossible(w, p, t, x);
    MissingFacts(w, p, t, x);
  }

  // How often x is asked for.
  ghost function AsksFor(out: seq<Fetch>, x: Cell): nat {
    if out == [] then 0 else AsksFor(out[..|out| - 1], x) + if out[|out| - 1].cell == x then 1 else 0
  }

  lemma {:induction false} AsksConcat(a: seq<Fetch>, b: seq<Fetch>, x: Cell)
    ensures AsksFor(a + b, x) == AsksFor(a, x) + AsksFor(b, x)
  {
    if b == [] {
      assert a + b == a;
    } else {
      assert (a + b)[..|a + b| - 1] == a + b[..|b| - 1];
      AsksConcat(a, b[..|b| - 1], x);
    }
  }

  // Every key new to the tables is asked for once, and no other.
  ghost predicate Asked(w: World, p: nat, pe: Walker, pe': Walker, out: seq<Fetch>)
    requires ValidWorld(w)
  {
    && (forall x :: x in pe.requests ==> x in pe'.requests && pe'.requests[x] == pe.requests[x])
    && (forall x :: AsksFor(out, x) == if x in pe'.requests && x !in pe.requests then 1 else 0)
    && (forall x :: x in pe'.requests && x !in pe.requests ==> !pe'.requests[x])
    && (forall m :: m in out ==>
          m.cell in pe'.tree && m.cell.depth <= MAX_DEPTH && Owned(w, m.cell) && m == TheAsk(w, p, m.cell))
  }

  // What suspending does to the tables.
  ghost predicate Suspended(w: World, p: nat, pe: Walker, tp: nat, ws: seq<Wait>, pe': Walker)
    requires ValidWorld(w) && tp < |pe.tps|
  {
    var one := pe.tps[tp];
    && pe' == pe.(requestors := pe.requestors + AsRequestors(tp, ws),
                  tps := pe.tps[tp := one.(remote := one.remote.(pending := one.remote.pending + |ws|))],
                  requests := pe'.requests)
    && (forall x :: x in pe.requests ==> x in pe'.requests && pe'.requests[x] == pe.requests[x])
    && (forall x :: x in pe'.requests && x !in pe.requests ==> !pe'.requests[x] && exists y :: y in ws && y.cell == x)
    && (forall y :: y in ws ==> y.cell in pe'.requests)
  }

  ghost predicate WaitsMissing(t: Tree, ws: seq<Wait>) {
    forall x :: x in ws ==> Missing(t, x.cell) && x.cell.depth <= MAX_DEPTH && x.mask != {}
  }

  lemma {:induction false} SuspendAllIs(w: World, p: nat, pe: Walker, tp: nat, ws: seq<Wait>)
    requires ValidWorld(w) && View(w, p, pe.tree) && tp < |pe.tps| && WaitsMissing(pe.tree, ws)
    ensures CanSuspend(pe, tp, ws)
    ensures var r := SuspendAll(w, p, pe, tp, ws); Suspended(w, p, pe, tp, ws, r.0) && Asked(w, p, pe, r.0, r.1)
    decreases |ws|
  {
    hide ValidWorld, View, Ask, TheAsk, Owned, Missing;
    assert CanSuspend(pe, tp, ws) by { OnlyMissing(pe.tree, ws); }
    if ws != [] {
      var one := Suspend(w, p, pe, tp, ws[0]);
      AskIsThe(w, p, pe.tree, ws[0].cell);
      assert ws == [ws[0]] + ws[1..];
      SuspendAllIs(w, p, one.0, tp, ws[1..]);
      var rest := SuspendAll(w, p, one.0, tp, ws[1..]);
      SuspendStep(w, p, pe, tp, ws, one.0, one.1, rest.0, rest.1);
    }
  }

  lemma OnlyMissing(t: Tree, ws: seq<Wait>)
    requires WaitsMissing(t, ws)
    ensures forall x :: x in ws ==> x.cell in t && x.cell.depth <= MAX_DEPTH
  {
  }

  lemma SuspendStep(w: World, p: nat, pe: Walker, tp: nat, ws: seq<Wait>, pe1: Walker, out1: seq<Fetch>, pe2: Walker,
                    out2: seq<Fetch>)
    requires ValidWorld(w) && tp < |pe.tps| && ws != [] && Missing(pe.tree, ws[0].cell) && View(w, p, pe.tree)
    requires ws[0].cell.depth <= MAX_DEPTH
    requires (pe1, out1) == Suspend(w, p, pe, tp, ws[0])
    requires Suspended(w, p, pe1, tp, ws[1..], pe2) && Asked(w, p, pe1, pe2, out2)
    ensures Suspended(w, p, pe, tp, ws, pe2) && Asked(w, p, pe, pe2, out1 + out2)
  {
    hide ValidWorld, View, Ask, TheAsk, Owned, Missing, AsRequestors, Asked, Suspend;
    AskedOnce(w, p, pe, tp, ws[0]);
    SuspendFrame(w, p, pe, tp, ws[0]);
    AskedTwice(w, p, pe, pe1, pe2, out1, out2);
    SuspendedTwice(w, p, pe, tp, ws, pe1, pe2);
  }

  lemma SuspendFrame(w: World, p: nat, pe: Walker, tp: nat, x: Wait)
    requires ValidWorld(w) && tp < |pe.tps| && Missing(pe.tree, x.cell) && View(w, p, pe.tree)
    requires x.cell.depth <= MAX_DEPTH
    ensures var pe1, one := Suspend(w, p, pe, tp, x).0, pe.tps[tp];
            pe1 == pe.(requestors := pe.requestors + [Requestor(x.cell, tp, x.mask)],
                       tps := pe.tps[tp := one.(remote := one.remote.(pending := one.remote.pending + 1))],
                       requests := if x.cell in pe.requests then pe.requests else pe.requests[x.cell := false])
  {
    hide ValidWorld, View, Ask, TheAsk, Owned, Missing;
    AskIsThe(w, p, pe.tree, x.cell);
  }

  lemma SuspendedTwice(w: World, p: nat, pe: Walker, tp: nat, ws: seq<Wait>, pe1: Walker, pe2: Walker)
    requires ValidWorld(w) && tp < |pe.tps| && ws != []
    requires var x, one := ws[0], pe.tps[tp];
             pe1 == pe.(requestors := pe.requestors + [Requestor(x.cell, tp, x.mask)],
                        tps := pe.tps[tp := one.(remote := one.remote.(pending := one.remote.pending + 1))],
                        requests := if x.cell in pe.requests then pe.requests else pe.requests[x.cell := false])
    requires Suspended(w, p, pe1, tp, ws[1..], pe2)
    ensures Suspended(w, p, pe, tp, ws, pe2)
  {
    hide ValidWorld, AsRequestors;
    RequestorsCons(tp, ws);
    assert ws == [ws[0]] + ws[1..];
    assert pe.requestors + [Requestor(ws[0].cell, tp, ws[0].mask)] + AsRequestors(tp, ws[1..])
        == pe.requestors + AsRequestors(tp, ws);
    forall x | x in pe2.requests && x !in pe.requests ensures !pe2.requests[x] && exists y :: y in ws && y.cell == x {
      if x !in pe1.requests {
        var y :| y in ws[1..] && y.cell == x;
        assert y in ws;
      } else {
        assert ws[0] in ws && ws[0].cell == x;
      }
    }
  }

  lemma AskedOnce(w: World, p: nat, pe: Walker, tp: nat, x: Wait)
    requires ValidWorld(w) && tp < |pe.tps| && Missing(pe.tree, x.cell) && View(w, p, pe.tree)
    requires x.cell.depth <= MAX_DEPTH
    ensures var r := Suspend(w, p, pe, tp, x); Asked(w, p, pe, r.0, r.1) && (r.0.aborted <==> pe.aborted)
  {
    hide ValidWorld, View, Ask, TheAsk, Owned;
    AskIsThe(w, p, pe.tree, x.cell);
    var r := Suspend(w, p, pe, tp, x);
    forall y ensures AsksFor(r.1, y) == if y in r.0.requests && y !in pe.requests then 1 else 0 {
      if r.1 != [] { AsksOne(r.1[0], y); }
    }
  }

  lemma AsksOne(m: Fetch, x: Cell)
    ensures AsksFor([m], x) == if m.cell == x then 1 else 0
  {
    assert [m][..0] == [];
  }

  lemma AskedTwice(w: World, p: nat, pe: Walker, pe1: Walker, pe2: Walker, out1: seq<Fetch>, out2: seq<Fetch>)
    requires ValidWorld(w) && Asked(w, p, pe, pe1, out1) && Asked(w, p, pe1, pe2, out2) && pe1.tree == pe2.tree
    ensures Asked(w, p, pe, pe2, out1 + out2)
  {
    hide ValidWorld, TheAsk, Owned;
    forall x ensures AsksFor(out1 + out2, x) == if x in pe2.requests && x !in pe.requests then 1 else 0 {
      AsksConcat(out1, out2, x);
    }
  }

  // ---------------- a task: hits gained, walks suspended ----------------

  // The walk of a group from the root, or its resumption at a node.
  datatype Task = Start | Again(cell: Cell)

  ghost predicate TaskIn(t: Tree, task: Task) {
    Linked(t) && ROOT in t && (task.Again? ==> task.cell in t && task.cell.depth <= MAX_DEPTH)
  }

  ghost function OutOf(opens: Opening, t: Tree, task: Task, b: nat): Out
    requires TaskIn(t, task)
  {
    match task
    case Start => Walk(opens, false, t, b, ROOT)
    case Again(x) => Resumed(opens, t, b, x)
  }

  ghost function PartOf(w: World, p: nat, opens: Opening, task: Task, b: nat): multiset<Hit>
    requires ValidWorld(w) && (task.Again? ==> task.cell.depth <= MAX_DEPTH)
  {
    match task
    case Start => Whole(w, p, opens, false, b, ROOT)
    case Again(x) => Owed(w, p, opens, b, x)
  }

  // A task for the buckets of a mask: each bucket's share accounts for its part
  // of the whole.
  ghost predicate TaskOk(w: World, p: nat, opens: Opening, t: Tree, mask: set<nat>, task: Task, ws: seq<Wait>)
    requires ValidWorld(w) && TaskIn(t, task)
  {
    && Masked(ws)
    && (forall b :: WaitsOf(ws, b) == if b in mask then OutOf(opens, t, task, b).waits else [])
    && (forall b :: b in mask ==> Accounts(w, p, opens, false, b, t, OutOf(opens, t, task, b),
          PartOf(w, p, opens, task, b)))
  }

  lemma {:induction false} WaitFrom(ws: seq<Wait>, b: nat, i: nat)
    requires i < |ws| && b in ws[i].mask
    ensures ws[i].cell in WaitsOf(ws, b)
    decreases |ws|
  {
    if i < |ws| - 1 { WaitFrom(ws[..|ws| - 1], b, i); }
  }

  lemma TaskWaits(w: World, p: nat, opens: Opening, t: Tree, mask: set<nat>, task: Task, ws: seq<Wait>)
    requires ValidWorld(w) && TaskIn(t, task) && TaskOk(w, p, opens, t, mask, task, ws)
    ensures WaitsMissing(t, ws)
  {
    hide ValidWorld, Missing, OutOf, PartOf, TaskIn;
    forall x | x in ws ensures Missing(t, x.cell) && x.cell.depth <= MAX_DEPTH && x.mask != {} {
      var i :| 0 <= i < |ws| && ws[i] == x;
      var b :| b in x.mask;
      WaitFrom(ws, b, i);
      assert b in mask;
    }
  }

  // The hits a task gives every bucket.
  ghost predicate GainedBy(opens: Opening, t: Tree, h: Hits, h': Hits, mask: set<nat>, task: Task)
    requires TaskIn(t, task)
  {
    forall b :: HitsOf(h', b) == HitsOf(h, b) + if b in mask then OutOf(opens, t, task, b).hits else []
  }

  // ... so what each bucket has, is owed, and was promised balances again.
  lemma TaskBalances(w: World, p: nat, opens: Opening, t: Tree, mask: set<nat>, task: Task,
                     ws: seq<Wait>, h: Hits, h': Hits, rs: seq<Requestor>, tp: nat, b: nat)
    requires ValidWorld(w) && TaskIn(t, task)
    requires TaskOk(w, p, opens, t, mask, task, ws) && GainedBy(opens, t, h, h', mask, task)
    ensures multiset(HitsOf(h', b)) + OwedTo(w, p, opens, rs + AsRequestors(tp, ws), b)
         == multiset(HitsOf(h, b)) + OwedTo(w, p, opens, rs, b)
             + if b in mask then PartOf(w, p, opens, task, b) else multiset{}
  {
    hide ValidWorld, Missing, AllMissing, HitsOf, TaskIn, OutOf, PartOf;
    TaskWaits(w, p, opens, t, mask, task, ws);
    RequestorsOwed(w, p, opens, tp, ws, b);
    OwedToConcat(w, p, opens, rs, AsRequestors(tp, ws), b);
    if b !in mask { assert OwedAll(w, p, opens, b, []) == multiset{}; }
  }

  // ---------------- the tables while a task suspends ----------------

  lemma SuspendKeepsTable(w: World, p: nat, pe: Walker, tp: nat, ws: seq<Wait>, pe': Walker, due: seq<Requestor>)
    requires ValidWorld(w) && TableOk(w, p, pe) && DueOk(pe, due) && tp < |pe.tps| && WaitsMissing(pe.tree, ws)
    requires Suspended(w, p, pe, tp, ws, pe')
    ensures TableOk(w, p, pe') && DueOk(pe', due)
  {
    hide ValidWorld, View;
    RequestorsOf(tp, ws);
    forall r | r in pe'.requestors
      ensures r.cell in pe'.requests && !pe'.requests[r.cell] && r.tp < |pe'.tps| && r.mask != {}
    {
      if r !in pe.requestors {
        var i :| 0 <= i < |ws| && r == Requestor(ws[i].cell, tp, ws[i].mask);
        assert ws[i] in ws;
      }
    }
    forall x | x in pe'.requests && !pe'.requests[x] ensures exists r :: r in pe'.requestors && r.cell == x {
      if x in pe.requests {
        var r :| r in pe.requestors && r.cell == x;
        assert r in pe'.requestors;
      } else {
        var y :| y in ws && y.cell == x;
        var i :| 0 <= i < |ws| && ws[i] == y;
        assert AsRequestors(tp, ws)[i] in pe'.requestors;
      }
    }
  }

  lemma StillMissing(w: World, p: nat, pe: Walker, x: Cell)
    requires ValidWorld(w) && TableOk(w, p, pe) && Missing(pe.tree, x) && x in pe.requests
    ensures !pe.requests[x]
  {
    hide ValidWorld, View, Missing;
  }

  // ---------------- pending counts ----------------

  lemma {:induction false} ReportedAt(tps: seq<TreePiece>, t: nat, one: TreePiece)
    requires t < |tps|
    ensures CountReported(tps[t := one]) == CountReported(tps) - tps[t].reported + one.reported
  {
    var n := |tps| - 1;
    if t < n {
      assert tps[t := one][..n] == tps[..n][t := one];
      ReportedAt(tps[..n], t, one);
    } else {
      assert tps[t := one][..n] == tps[..n];
    }
  }

  lemma {:induction false} AllReported(tps: seq<TreePiece>)
    requires forall t :: 0 <= t < |tps| ==> tps[t].reported <= 1
    ensures CountReported(tps) <= |tps|
    ensures CountReported(tps) == |tps| <==> forall t :: 0 <= t < |tps| ==> tps[t].reported == 1
  {
    if tps != [] {
      AllReported(tps[..|tps| - 1]);
    }
  }

  // One TreePiece changes its counters, not its groups.
  ghost predicate OnlyCounters(tps: seq<TreePiece>, tp: nat, one: TreePiece) {
    tp < |tps| && one.groups == tps[tp].groups
  }

  lemma CountersKeepGroups(tps: seq<TreePiece>, tp: nat, one: TreePiece)
    requires OnlyCounters(tps, tp, one) && GroupsOk(tps)
    ensures GroupsOk(tps[tp := one])
  {
    var tps' := tps[tp := one];
    forall t, g: nat | 0 <= t < |tps'| && g < |tps'[t].groups| ensures tps'[t].groups[g] != {} {
      assert tps[t].groups[g] != {};
    }
  }

  lemma SuspendKeepsTravs(w: World, p: nat, pe: Walker, tp: nat, ws: seq<Wait>, pe': Walker, due: seq<Requestor>,
                          slack: Slack)
    requires ValidWorld(w) && tp < |pe.tps| && TravsOk(pe, due, slack) && Suspended(w, p, pe, tp, ws, pe')
    requires pe.tps[tp].remote.pending > 0
    ensures TravsOk(pe', due, slack)
  {
    hide ValidWorld, GroupsOk, AsRequestors;
    CountersKeepGroups(pe.tps, tp, pe'.tps[tp]);
    ReportedAt(pe.tps, tp, pe'.tps[tp]);
    forall t: nat | t < |pe'.tps| ensures PendingOk(pe'.tps[t], t, pe'.requestors, due, slack) && DoneOk(pe'.tps[t]) {
      assert PendingOk(pe.tps[t], t, pe.requestors, due, slack) && DoneOk(pe.tps[t]);
      CountConcat(pe.requestors, AsRequestors(tp, ws), t);
      RequestorsCount(tp, ws, t);
    }
  }

  // With nothing pending anywhere no walk is suspended and no reply is due.
  lemma NothingOutstanding(w: World, p: nat, pe: Walker, slack: Slack)
    requires ValidWorld(w) && TableOk(w, p, pe)
    requires forall t :: 0 <= t < |pe.tps| ==> CountTP(pe.requestors, t) == 0
    ensures !Outstanding(pe)
  {
    hide ValidWorld, View, Missing;
    if pe.requestors != [] {
      var r := pe.requestors[|pe.requestors| - 1];
      assert r in pe.requestors;
      assert CountTP(pe.requestors, r.tp) > 0;
    }
  }

  // Everything but the traversal counters of tp is right.
  ghost predicate Accounting(pe: Walker, due: seq<Requestor>, tp: nat) {
    && GroupsOk(pe.tps) && tp < |pe.tps|
    && (forall t :: 0 <= t < |pe.tps| ==> PendingOk(pe.tps[t], t, pe.requestors, due, NONE_DUE))
    && (forall t :: 0 <= t < |pe.tps| && t != tp ==> DoneOk(pe.tps[t]))
    && pe.doneTPs == CountReported(pe.tps)
    && pe.finished == (if pe.doneTPs == |pe.tps| then 1 else 0)
  }

  ghost predicate JustDone(one: TreePiece) {
    && one.reported == 0 && (one.local.pending == 0 || one.remote.pending == 0)
    && one.traversals == if one.local.pending == 0 && one.remote.pending == 0 then 1 else 0
  }

  // A traversal of tp has just completed.
  lemma DoneKeeps(w: World, p: nat, pe: Walker, due: seq<Requestor>, tp: nat)
    requires ValidWorld(w) && TableOk(w, p, pe) && !pe.aborted
    requires Accounting(pe, due, tp)
    requires JustDone(pe.tps[tp])
    ensures AccountedFor(pe, TraversalDone(pe, tp), due)
  {
    hide ValidWorld, TableOk, TraversalDone, JustDone, AccountedFor, DoneOk, PendingOk, GroupsOk;
    if pe.tps[tp].traversals + 1 != 2 {
      FirstDone(pe, due, tp);
    } else {
      SecondDone(w, p, pe, due, tp);
    }
  }

  lemma FirstDone(pe: Walker, due: seq<Requestor>, tp: nat)
    requires Accounting(pe, due, tp) && !pe.aborted
    requires JustDone(pe.tps[tp]) && pe.tps[tp].traversals + 1 != 2
    ensures AccountedFor(pe, TraversalDone(pe, tp), due)
  {
    hide ValidWorld, GroupsOk, Outstanding, CountTP;
    var pe' := TraversalDone(pe, tp);
    CountersKeepGroups(pe.tps, tp, pe'.tps[tp]);
    ReportedAt(pe.tps, tp, pe'.tps[tp]);
  }

  lemma SecondDone(w: World, p: nat, pe: Walker, due: seq<Requestor>, tp: nat)
    requires ValidWorld(w) && TableOk(w, p, pe) && !pe.aborted
    requires Accounting(pe, due, tp)
    requires JustDone(pe.tps[tp]) && pe.tps[tp].traversals + 1 == 2
    ensures AccountedFor(pe, TraversalDone(pe, tp), due)
  {
    hide ValidWorld, GroupsOk, TableOk, Outstanding, CountTP;
    var pe' := TraversalDone(pe, tp);
    CountersKeepGroups(pe.tps, tp, pe'.tps[tp]);
    ReportedAt(pe.tps, tp, pe'.tps[tp]);
    OneMore(pe, tp);
    if pe'.doneTPs == |pe.tps| { LastDone(w, p, pe, pe'.tps, due, tp); }
  }

  lemma OneMore(pe: Walker, tp: nat)
    requires tp < |pe.tps| && pe.doneTPs == CountReported(pe.tps) && pe.tps[tp].reported == 0
    requires forall t :: 0 <= t < |pe.tps| && t != tp ==> DoneOk(pe.tps[t])
    ensures pe.doneTPs < |pe.tps|
  {
    AllReported(pe.tps);
  }

  lemma LastDone(w: World, p: nat, pe: Walker, tps': seq<TreePiece>, due: seq<Requestor>, tp: nat)
    requires ValidWorld(w) && TableOk(w, p, pe) && Accounting(pe, due, tp)
    requires |tps'| == |pe.tps| && CountReported(tps') == |tps'| && forall t :: 0 <= t < |tps'| ==> DoneOk(tps'[t])
    requires forall t :: 0 <= t < |tps'| ==> tps'[t].remote.pending == pe.tps[t].remote.pending
    ensures !Outstanding(pe)
  {
    hide ValidWorld, View, GroupsOk, Missing, TableOk, Outstanding;
    AllReported(tps');
    forall t: nat | t < |pe.tps| ensures CountTP(pe.requestors, t) == 0 {
      assert PendingOk(pe.tps[t], t, pe.requestors, due, NONE_DUE);
      assert tps'[t].reported == 1 && DoneOk(tps'[t]);
    }
    NothingOutstanding(w, p, pe, NONE_DUE);
  }

  // Neither the groups nor how far they have been walked changed.
  ghost predicate SameWalk(tps: seq<TreePiece>, tps': seq<TreePiece>) {
    && |tps| == |tps'|
    && forall t :: 0 <= t < |tps| ==>
         tps'[t].groups == tps[t].groups && tps'[t].local.current == tps[t].local.current
         && tps'[t].remote.current == tps[t].remote.current
  }

  lemma SameStarted(tps: seq<TreePiece>, tps': seq<TreePiece>, local: bool, b: nat)
    requires SameWalk(tps, tps')
    ensures Started(tps', local, b) <==> Started(tps, local, b)
  {
    if Started(tps, local, b) {
      var t, g: nat :| 0 <= t < |tps| && g < |tps[t].groups| && b in tps[t].groups[g]
                    && g < if local then tps[t].local.current else tps[t].remote.current;
      assert b in tps'[t].groups[g];
    }
    if Started(tps', local, b) {
      var t, g: nat :| 0 <= t < |tps'| && g < |tps'[t].groups| && b in tps'[t].groups[g]
                    && g < if local then tps'[t].local.current else tps'[t].remote.current;
      assert b in tps[t].groups[g];
    }
  }

  ghost predicate AccountedFor(pe: Walker, pe': Walker, due: seq<Requestor>) {
    && TravsOk(pe', due, NONE_DUE) && !pe'.aborted
    && pe' == pe.(tps := pe'.tps, doneTPs := pe'.doneTPs, finished := pe'.finished)
    && |pe'.tps| == |pe.tps| && SameWalk(pe.tps, pe'.tps)
  }

  lemma AccountKeeps(w: World, p: nat, pe: Walker, due: seq<Requestor>, tp: nat, n: nat)
    requires ValidWorld(w) && TableOk(w, p, pe) && !pe.aborted && n > 0 && tp < |pe.tps|
    requires TravsOk(pe, due, Slack(tp, n, 0))
    ensures AccountedFor(pe, Account(pe, tp, n), due)
  {
    hide ValidWorld, View, GroupsOk, Missing, TraversalDone, TableOk, CountTP, CountReported, Outstanding;
    var one := pe.tps[tp];
    var one' := one.(remote := one.remote.(pending := one.remote.pending - n));
    var pe1 := pe.(tps := pe.tps[tp := one']);
    CountersKeepGroups(pe.tps, tp, one');
    ReportedAt(pe.tps, tp, one');
    SameTable(w, p, pe, pe1);
    assert PendingOk(one, tp, pe.requestors, due, Slack(tp, n, 0)) && DoneOk(one);
    forall t: nat | t < |pe1.tps|
      ensures PendingOk(pe1.tps[t], t, pe1.requestors, due, NONE_DUE) && (t != tp ==> DoneOk(pe1.tps[t]))
    {
      assert PendingOk(pe.tps[t], t, pe.requestors, due, Slack(tp, n, 0)) && DoneOk(pe.tps[t]);
    }
    if one'.remote.pending == 0 { DoneKeeps(w, p, pe1, due, tp); }
  }

  lemma AccountLocalKeeps(w: World, p: nat, pe: Walker, due: seq<Requestor>, tp: nat, n: nat)
    requires ValidWorld(w) && TableOk(w, p, pe) && !pe.aborted && n > 0 && tp < |pe.tps|
    requires TravsOk(pe, due, Slack(tp, 0, n))
    ensures AccountedFor(pe, AccountLocal(pe, tp, n), due)
  {
    hide ValidWorld, View, GroupsOk, Missing, TraversalDone, TableOk, CountTP, CountReported, Outstanding;
    var one := pe.tps[tp];
    var one' := one.(local := one.local.(pending := one.local.pending - n));
    var pe1 := pe.(tps := pe.tps[tp := one']);
    CountersKeepGroups(pe.tps, tp, one');
    ReportedAt(pe.tps, tp, one');
    SameTable(w, p, pe, pe1);
    assert PendingOk(one, tp, pe.requestors, due, Slack(tp, 0, n)) && DoneOk(one);
    forall t: nat | t < |pe1.tps|
      ensures PendingOk(pe1.tps[t], t, pe1.requestors, due, NONE_DUE) && (t != tp ==> DoneOk(pe1.tps[t]))
    {
      assert PendingOk(pe.tps[t], t, pe.requestors, due, Slack(tp, 0, n)) && DoneOk(pe.tps[t]);
    }
    if one'.local.pending == 0 { DoneKeeps(w, p, pe1, due, tp); }
  }

  lemma SameTable(w: World, p: nat, pe: Walker, pe1: Walker)
    requires ValidWorld(w) && TableOk(w, p, pe) && |pe1.tps| == |pe.tps|
    requires pe1.tree == pe.tree && pe1.requests == pe.requests && pe1.requestors == pe.requestors
    ensures TableOk(w, p, pe1)
  {
    hide ValidWorld, View, Missing;
  }
}
