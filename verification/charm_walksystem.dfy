// All PEs walking: trees become ready, groups are walked, requests are served
// and replies resume walks, in any order.
module WalkSystem {
  import opened TreeKeys
  import opened Decomposition
  import opened TreeBuild
  import opened NodeFacts
  import opened GravityWalks
  import opened GroupWalks
  import opened TreeViews
  import opened Subtrees
  import opened FetchCache
  import opened FetchInvariant
  import opened FetchSteps

  // What does not change: every PE's opening decisions and how many levels a
  // node request fetches (cacheLineSize).
  datatype Rules = Rules(w: World, opens: seq<Opening>, levels: nat)

  // A PE walks once its tree is ready; until then a request for it stays in the
  // network.  asked has every request ever sent.
  datatype Sys = Sys(pes: seq<Option<Walker>>, net: seq<Fetch>, asked: seq<Fetch>)

  ghost predicate ValidRules(r: Rules, n: nat) {
    && ValidWorld(r.w) && |r.opens| == n && r.levels > 0
    && forall i :: 0 <= i < |r.w.pieces| ==> r.w.pieces[i].home < n
  }

  ghost predicate Init(r: Rules, s: Sys) {
    && ValidRules(r, |s.pes|) && s.net == [] && s.asked == []
    && forall p :: 0 <= p < |s.pes| ==> s.pes[p] == None
  }

  // ---------------- steps of one PE ----------------

  ghost predicate BuiltOnly(w: World, p: nat, t: Tree)
    requires ValidWorld(w)
  {
    forall c :: c in t ==> Built(w, p, c)
  }

  // startTraversal: a TreePiece without buckets is done at once.
  function FirstPiece(groups: seq<set<nat>>): TreePiece {
    TreePiece(groups, Trav(0, |groups|), Trav(0, |groups|), 0, if groups == [] then 1 else 0)
  }

  function FirstPieces(groups: seq<seq<set<nat>>>): (tps: seq<TreePiece>)
    ensures |tps| == |groups| && forall t :: 0 <= t < |tps| ==> tps[t] == FirstPiece(groups[t])
  {
    seq(|groups|, t requires 0 <= t < |groups| => FirstPiece(groups[t]))
  }

  ghost function StartWalker(t: Tree, groups: seq<seq<set<nat>>>): Walker {
    var tps := FirstPieces(groups);
    var done := CountReported(tps);
    Walker(t, map[], [], tps, map[], map[], done, if done == |tps| then 1 else 0, false)
  }

  ghost predicate CanStart(pe: Walker, tp: nat, wss: seq<seq<Wait>>) {
    && Linked(pe.tree) && ROOT in pe.tree && tp < |pe.tps|
    && pe.tps[tp].remote.current + |wss| <= |pe.tps[tp].groups|
    && forall i :: 0 <= i < |wss| ==> CanSuspend(pe, tp, wss[i])
  }

  lemma StartFrame(w: World, p: nat, opens: Opening, pe: Walker, tp: nat, ws: seq<Wait>)
    requires ValidWorld(w) && CanStart(pe, tp, [ws])
    ensures CanSuspend(pe, tp, ws)
    ensures var pe' := StartGroup(w, p, opens, pe, tp, ws).0;
            pe'.tree == pe.tree && |pe'.tps| == |pe.tps| && pe'.tps[tp].groups == pe.tps[tp].groups
            && pe'.tps[tp].remote.current == pe.tps[tp].remote.current + 1
  {
    hide ValidWorld, Linked, GainWalk;
    assert [ws][0] == ws;
    SuspendFrames(w, p, pe.(remoteHits := GainWalk(opens, false, pe.tree, pe.remoteHits,
          pe.tps[tp].groups[pe.tps[tp].remote.current], ROOT),
                            tps := pe.tps[tp := Advanced(pe.tps[tp])]), tp, ws);
  }

  lemma {:induction false} SuspendFrames(w: World, p: nat, pe: Walker, tp: nat, ws: seq<Wait>)
    requires ValidWorld(w) && CanSuspend(pe, tp, ws)
    ensures var pe' := SuspendAll(w, p, pe, tp, ws).0;
            pe'.tree == pe.tree && |pe'.tps| == |pe.tps| && pe'.tps[tp].groups == pe.tps[tp].groups
            && pe'.tps[tp].remote.current == pe.tps[tp].remote.current
    decreases |ws|
  {
    hide ValidWorld, Ask;
    if ws != [] { SuspendFrames(w, p, Suspend(w, p, pe, tp, ws[0]).0, tp, ws[1..]); }
  }

  // The groups walked by one doRemoteGravity; wss is what each left waiting.
  function StartGroups(w: World, p: nat, opens: Opening, pe: Walker, tp: nat, wss: seq<seq<Wait>>): (Walker, seq<Fetch>)
    requires ValidWorld(w) && CanStart(pe, tp, wss)
    decreases |wss|
  {
    if wss == [] then (pe, [])
    else
      StartFrame(w, p, opens, pe, tp, wss[0]);
      var one := StartGroup(w, p, opens, pe, tp, wss[0]);
      var rest := StartGroups(w, p, opens, one.0, tp, wss[1..]);
      (rest.0, one.1 + rest.1)
  }

  ghost predicate GroupsLeft(opens: Opening, pe: Walker, tp: nat, wss: seq<seq<Wait>>)
    requires CanStart(pe, tp, wss)
  {
    forall i :: 0 <= i < |wss| ==> LeftByWalk(opens, pe.tree, pe.tps[tp].groups[pe.tps[tp].remote.current + i], wss[i])
  }

  lemma {:induction false} GroupsFrame(w: World, p: nat, opens: Opening, pe: Walker, tp: nat, wss: seq<seq<Wait>>)
    requires ValidWorld(w) && CanStart(pe, tp, wss)
    ensures |StartGroups(w, p, opens, pe, tp, wss).0.tps| == |pe.tps|
    decreases |wss|
  {
    hide ValidWorld, Linked, StartGroup;
    if wss != [] {
      StartFrame(w, p, opens, pe, tp, wss[0]);
      GroupsFrame(w, p, opens, StartGroup(w, p, opens, pe, tp, wss[0]).0, tp, wss[1..]);
    }
  }

  function DoRemote(w: World, p: nat, opens: Opening, pe: Walker, tp: nat, wss: seq<seq<Wait>>): (Walker, seq<Fetch>)
    requires ValidWorld(w) && CanStart(pe, tp, wss)
  {
    GroupsFrame(w, p, opens, pe, tp, wss);
    var s := StartGroups(w, p, opens, pe, tp, wss);
    (Account(s.0, tp, |wss|), s.1)
  }

  ghost predicate CanStartLocal(pe: Walker, tp: nat, n: nat) {
    Linked(pe.tree) && ROOT in pe.tree && tp < |pe.tps| && pe.tps[tp].local.current + n <= |pe.tps[tp].groups|
  }

  function StartLocalGroups(opens: Opening, pe: Walker, tp: nat, n: nat): (pe': Walker)
    requires CanStartLocal(pe, tp, n)
    ensures |pe'.tps| == |pe.tps|
    decreases n
  {
    if n == 0 then pe else StartLocalGroups(opens, StartLocalGroup(opens, pe, tp), tp, n - 1)
  }

  function DoLocal(opens: Opening, pe: Walker, tp: nat, n: nat): Walker
    requires CanStartLocal(pe, tp, n)
  {
    AccountLocal(StartLocalGroups(opens, pe, tp, n), tp, n)
  }

  // ---------------- messages ----------------

  // requestNode and requestParticles at the PE asked: it must have built the
  // node, with children, or as a bucket of its own.
  ghost predicate CanServe(w: World, d: nat, pe: Walker, m: Fetch)
    requires ValidWorld(w) && (m.NodeRequest? || m.PartRequest?)
  {
    && Built(w, d, m.cell) && m.cell in pe.tree
    && if m.NodeRequest? then pe.tree[m.cell].nchild > 0 else pe.tree[m.cell].kind == Bucket
  }

  ghost function Reply(pe: Walker, m: Fetch, levels: nat): Fetch
    requires m.NodeRequest? || m.PartRequest?
  {
    if m.NodeRequest? then NodeReply(m.replyTo, m.cell, Cut(pe.tree, m.cell, levels)) else PartReply(m.replyTo, m.cell)
  }

  function Arrived(pe: Walker, x: Cell, t: Tree): Walker {
    pe.(tree := t, requests := pe.requests[x := true], requestors := Except(pe.requestors, x))
  }

  ghost predicate Expected(pe: Walker, x: Cell) {
    x in pe.requests && !pe.requests[x] && x in pe.tree && Only(pe.requestors, x) != []
  }

  function TreeAfter(t: Tree, m: Fetch): Tree
    requires m.NodeReply? || m.PartReply?
    requires m.cell in t
  {
    if m.NodeReply? then Attach(t, m.cell, m.nodes) else Fill(t, m.cell)
  }

  // recvNode and recvParticles, resuming every walk that waited for the key.
  ghost predicate Receives(w: World, p: nat, opens: Opening, pe: Walker, m: Fetch, wss: seq<seq<Wait>>, pe': Walker,
                           out: seq<Fetch>)
    requires ValidWorld(w) && (m.NodeReply? || m.PartReply?)
  {
    if !Expected(pe, m.cell) then pe' == pe.(aborted := true) && out == []
    else
      var pe1, rs := Arrived(pe, m.cell, TreeAfter(pe.tree, m)), Only(pe.requestors, m.cell);
      && CanResume(pe1, rs, wss) && AllLeft(opens, pe1.tree, rs, wss)
      && (pe', out) == ResumeAll(w, p, opens, pe1, rs, wss)
  }

  // ---------------- steps of the system ----------------

  ghost predicate ReadyStep(r: Rules, s: Sys, p: nat, t: Tree, groups: seq<seq<set<nat>>>, s': Sys)
    requires ValidWorld(r.w)
  {
    && p < |s.pes| && s.pes[p] == None && View(r.w, p, t) && BuiltOnly(r.w, p, t) && GroupsOk(FirstPieces(groups))
    && s' == s.(pes := s.pes[p := Some(StartWalker(t, groups))])
  }

  ghost predicate RemoteStep(r: Rules, s: Sys, p: nat, tp: nat, wss: seq<seq<Wait>>, s': Sys)
    requires ValidRules(r, |s.pes|)
  {
    && p < |s.pes| && s.pes[p].Some? && wss != []
    && var pe := s.pes[p].value;
    && CanStart(pe, tp, wss) && GroupsLeft(r.opens[p], pe, tp, wss)
    && var x := DoRemote(r.w, p, r.opens[p], pe, tp, wss);
       s' == Sys(s.pes[p := Some(x.0)], s.net + x.1, s.asked + x.1)
  }

  ghost predicate LocalStep(r: Rules, s: Sys, p: nat, tp: nat, n: nat, s': Sys)
    requires ValidRules(r, |s.pes|)
  {
    && p < |s.pes| && s.pes[p].Some? && n > 0
    && CanStartLocal(s.pes[p].value, tp, n)
    && s' == s.(pes := s.pes[p := Some(DoLocal(r.opens[p], s.pes[p].value, tp, n))])
  }

  ghost predicate ServeStep(r: Rules, s: Sys, i: nat, s': Sys)
    requires ValidWorld(r.w)
  {
    && i < |s.net| && (s.net[i].NodeRequest? || s.net[i].PartRequest?)
    && s.net[i].dest < |s.pes| && s.pes[s.net[i].dest].Some?
    && var m, pe := s.net[i], s.pes[s.net[i].dest].value;
       if CanServe(r.w, m.dest, pe, m) then
         s' == s.(net := s.net[..i] + s.net[i + 1..] + [Reply(pe, m, r.levels)])
       else
         s' == s.(pes := s.pes[m.dest := Some(pe.(aborted := true))], net := s.net[..i] + s.net[i + 1..])
  }

  ghost predicate ReplyStep(r: Rules, s: Sys, i: nat, wss: seq<seq<Wait>>, pe': Walker, out: seq<Fetch>, s': Sys)
    requires ValidRules(r, |s.pes|)
  {
    && i < |s.net| && (s.net[i].NodeReply? || s.net[i].PartReply?)
    && s.net[i].dest < |s.pes| && s.pes[s.net[i].dest].Some?
    && var m := s.net[i];
    && Receives(r.w, m.dest, r.opens[m.dest], s.pes[m.dest].value, m, wss, pe', out)
    && s' == Sys(s.pes[m.dest := Some(pe')], s.net[..i] + s.net[i + 1..] + out, s.asked + out)
  }

  ghost predicate Next(r: Rules, s: Sys, s': Sys)
    requires ValidRules(r, |s.pes|)
  {
    || (exists p, t, groups :: ReadyStep(r, s, p, t, groups, s'))
    || (exists p, tp, wss :: RemoteStep(r, s, p, tp, wss, s'))
    || (exists p, tp, n :: LocalStep(r, s, p, tp, n, s'))
    || (exists i :: ServeStep(r, s, i, s'))
    || (exists i, wss, pe', out :: ReplyStep(r, s, i, wss, pe', out, s'))
  }

  // ---------------- the invariant ----------------

  predicate IsAsk(m: Fetch) {
    m.NodeRequest? || m.PartRequest?
  }

  // The exchange about key x on behalf of PE p.
  predicate About(m: Fetch, p: nat, x: Cell) {
    m.cell == x && p == if IsAsk(m) then m.replyTo else m.dest
  }

  ghost function CountAbout(net: seq<Fetch>, p: nat, x: Cell): nat {
    if net == [] then 0
    else CountAbout(net[..|net| - 1], p, x) + if About(net[|net| - 1], p, x) then 1 else 0
  }

  ghost predicate MsgOk(w: World, n: nat, m: Fetch)
    requires ValidWorld(w)
  {
    && ValidCell(m.cell) && InTree(w, m.cell) && Here(w, m.cell) != [] && Owned(w, m.cell)
    && match m
       case NodeRequest(d, x, p) => p < n && Refined(w, x) && m == TheAsk(w, p, x)
       case PartRequest(d, x, p) => p < n && !Refined(w, x) && m == TheAsk(w, p, x)
       case NodeReply(p, x, nodes) => p < n && Refined(w, x) && Fits(w, x, nodes)
       case PartReply(p, x) => p < n && !Refined(w, x)
  }

  ghost predicate Waiting(s: Sys, p: nat, x: Cell) {
    p < |s.pes| && s.pes[p].Some? && x in s.pes[p].value.requests && !s.pes[p].value.requests[x]
  }

  ghost predicate Requested(s: Sys, p: nat, x: Cell) {
    p < |s.pes| && s.pes[p].Some? && x in s.pes[p].value.requests
  }

  ghost predicate PEsOk(r: Rules, s: Sys)
    requires ValidRules(r, |s.pes|)
  {
    forall p :: 0 <= p < |s.pes| && s.pes[p].Some? ==> WalkInv(r.w, p, r.opens[p], s.pes[p].value, [], NONE_DUE)
  }

  // One exchange is under way for each key waited for, and for no other; every
  // key ever requested was requested once.
  ghost predicate NetOk(r: Rules, s: Sys)
    requires ValidWorld(r.w)
  {
    && (forall m :: m in s.net ==> MsgOk(r.w, |s.pes|, m))
    && (forall p: nat, x :: CountAbout(s.net, p, x) == if Waiting(s, p, x) then 1 else 0)
    && (forall p: nat, x :: CountAbout(s.asked, p, x) == if Requested(s, p, x) then 1 else 0)
  }

  ghost predicate Inv(r: Rules, s: Sys) {
    ValidRules(r, |s.pes|) && PEsOk(r, s) && NetOk(r, s)
  }

  // ---------------- counting messages ----------------

  lemma {:induction false} AboutConcat(a: seq<Fetch>, b: seq<Fetch>, p: nat, x: Cell)
    ensures CountAbout(a + b, p, x) == CountAbout(a, p, x) + CountAbout(b, p, x)
  {
    if b == [] {
      assert a + b == a;
    } else {
      assert (a + b)[..|a + b| - 1] == a + b[..|b| - 1];
      AboutConcat(a, b[..|b| - 1], p, x);
    }
  }

  lemma AboutOne(m: Fetch, p: nat, x: Cell)
    ensures CountAbout([m], p, x) == if About(m, p, x) then 1 else 0
  {
    assert [m][..0] == [];
  }

  lemma AboutTaken(net: seq<Fetch>, i: nat, p: nat, x: Cell)
    requires i < |net|
    ensures CountAbout(net, p, x) == CountAbout(net[..i] + net[i + 1..], p, x) + if About(net[i], p, x) then 1 else 0
  {
    assert net == net[..i] + [net[i]] + net[i + 1..];
    AboutConcat(net[..i] + [net[i]], net[i + 1..], p, x);
    AboutConcat(net[..i], [net[i]], p, x);
    AboutConcat(net[..i], net[i + 1..], p, x);
    AboutOne(net[i], p, x);
  }

  lemma {:induction false} AsksAbout(w: World, p: nat, t: Tree, out: seq<Fetch>, q: nat, x: Cell)
    requires ValidWorld(w)
    requires forall m :: m in out ==>
          m.cell.depth <= MAX_DEPTH && Owned(w, m.cell) && m == TheAsk(w, p, m.cell) && IsAsk(m) && m.replyTo == p
    ensures CountAbout(out, q, x) == if q == p then AsksFor(out, x) else 0
  {
    hide ValidWorld, TheAsk, Owned;
    if out != [] { AsksAbout(w, p, t, out[..|out| - 1], q, x); }
  }

  // ---------------- what the messages of a PE are ----------------

  lemma {:induction false} ViewInTree(w: World, p: nat, t: Tree, x: Cell)
    requires ValidWorld(w) && View(w, p, t) && x in t
    ensures InTree(w, x) && ValidCell(x)
    decreases x.depth
  {
    hide ValidWorld, Refined, FullKind, Built, Linked;
    assert NodeView(w, p, t, x);
    if x != ROOT {
      assert NodeView(w, p, t, Parent(x));
      ViewInTree(w, p, t, Parent(x));
    }
  }

  lemma KeyFacts(w: World, p: nat, opens: Opening, pe: Walker, x: Cell)
    requires ValidWorld(w) && TableOk(w, p, pe) && x in pe.requests
    ensures x in pe.tree && ValidCell(x) && x.depth <= MAX_DEPTH && InTree(w, x) && Here(w, x) != [] && Owned(w, x)
    ensures pe.tree[x].kind == Remote <==> Refined(w, x)
    ensures pe.tree[x].kind == Remote || pe.tree[x].kind == RemoteBucket
    ensures pe.requests[x] <==> !Missing(pe.tree, x)
    ensures !Refined(w, x) ==> pe.tree[x].nchild == 0
    ensures TheAsk(w, p, x).cell == x && IsAsk(TheAsk(w, p, x)) && TheAsk(w, p, x).replyTo == p
  {
    hide ValidWorld, View, Refined, Here, ServingOwner, Owned, Missing, ValidCell;
    MissingFacts(w, p, pe.tree, x);
    ViewInTree(w, p, pe.tree, x);
    AskServed(w, p, x);
  }

  lemma AskServed(w: World, p: nat, x: Cell)
    requires ValidWorld(w) && x.depth <= MAX_DEPTH && Owned(w, x) && Here(w, x) != []
    ensures TheAsk(w, p, x).cell == x && IsAsk(TheAsk(w, p, x)) && TheAsk(w, p, x).replyTo == p
    ensures ServingOwner(w, p, x).Some?
  {
    hide ValidWorld, Refined, Here, ServingOwner, Owned;
    if ServingOwner(w, p, x).None? { ServedOrEmpty(w, p, x); }
  }

  lemma AskedOk(w: World, p: nat, n: nat, opens: Opening, pe: Walker, pe': Walker, out: seq<Fetch>)
    requires ValidWorld(w) && p < n && TableOk(w, p, pe') && Asked(w, p, pe, pe', out)
    ensures forall m :: m in out ==> MsgOk(w, n, m) && IsAsk(m) && m.replyTo == p
    ensures forall m :: m in out ==> m.cell.depth <= MAX_DEPTH && Owned(w, m.cell) && m == TheAsk(w, p, m.cell)
  {
    hide ValidWorld, Refined, Here, ServingOwner, Owned, TableOk, ValidCell, InTree;
    forall m | m in out ensures MsgOk(w, n, m) && IsAsk(m) && m.replyTo == p {
      AskedFor(out, m);
      KeyFacts(w, p, opens, pe', m.cell);
      AskServed(w, p, m.cell);
    }
  }

  lemma {:induction false} AskedFor(out: seq<Fetch>, m: Fetch)
    requires m in out
    ensures AsksFor(out, m.cell) > 0
  {
    if out[|out| - 1] != m { AskedFor(out[..|out| - 1], m); }
  }

  // ---------------- a PE sends requests ----------------

  // The exchanges net0 has under way for p are those pe1 waits for.
  ghost predicate StillOpen(s: Sys, net0: seq<Fetch>, p: nat, pe1: Walker) {
    forall q: nat, x :: CountAbout(net0, q, x)
      == (if q == p then (if x in pe1.requests && !pe1.requests[x] then 1 else 0) else CountAbout(s.net, q, x))
  }

  // PE p moves from pe through pe1 (the reply taken in, if there is one) to pe',
  // sending out; net0 is the network without the reply.
  lemma SendKeeps(r: Rules, s: Sys, p: nat, pe: Walker, pe1: Walker, pe': Walker, out: seq<Fetch>, net0: seq<Fetch>,
                  s': Sys)
    requires Inv(r, s) && p < |s.pes| && s.pes[p] == Some(pe)
    requires s' == Sys(s.pes[p := Some(pe')], net0 + out, s.asked + out)
    requires WalkInv(r.w, p, r.opens[p], pe', [], NONE_DUE)
    requires forall m :: m in net0 ==> m in s.net
    requires pe1.requests.Keys == pe.requests.Keys && Asked(r.w, p, pe1, pe', out)
    requires StillOpen(s, net0, p, pe1)
    ensures Inv(r, s')
  {
    hide ValidWorld, WalkInv, Asked, MsgOk, CountAbout, PEsOk, NetOk, Waiting;
    PEsUpdated(r, s, p, pe', s');
    SendNet(r, s, p, pe, pe1, pe', out, net0, s');
  }

  lemma PEsUpdated(r: Rules, s: Sys, p: nat, pe': Walker, s': Sys)
    requires ValidRules(r, |s.pes|) && PEsOk(r, s) && p < |s.pes| && s'.pes == s.pes[p := Some(pe')]
    requires WalkInv(r.w, p, r.opens[p], pe', [], NONE_DUE)
    ensures ValidRules(r, |s'.pes|) && PEsOk(r, s')
  {
    hide ValidWorld, WalkInv;
  }

  lemma SendNet(r: Rules, s: Sys, p: nat, pe: Walker, pe1: Walker, pe': Walker, out: seq<Fetch>, net0: seq<Fetch>,
                s': Sys)
    requires ValidRules(r, |s.pes|) && NetOk(r, s) && p < |s.pes| && s.pes[p] == Some(pe)
    requires s' == Sys(s.pes[p := Some(pe')], net0 + out, s.asked + out)
    requires WalkInv(r.w, p, r.opens[p], pe', [], NONE_DUE)
    requires forall m :: m in net0 ==> m in s.net
    requires pe1.requests.Keys == pe.requests.Keys && Asked(r.w, p, pe1, pe', out)
    requires StillOpen(s, net0, p, pe1)
    ensures NetOk(r, s')
  {
    hide ValidWorld, WalkInv, Asked, MsgOk, CountAbout, Waiting, Requested, TableOk;
    InvTable(r.w, p, r.opens[p], pe');
    AskedOk(r.w, p, |s.pes|, r.opens[p], pe1, pe', out);
    forall q: nat, x ensures CountAbout(s'.net, q, x) == if Waiting(s', q, x) then 1 else 0 {
      SendCounts(r, s, p, pe, pe1, pe', out, net0, q, x, s');
    }
    forall q: nat, x ensures CountAbout(s'.asked, q, x) == if Requested(s', q, x) then 1 else 0 {
      SendCounts(r, s, p, pe, pe1, pe', out, net0, q, x, s');
    }
  }

  lemma InvTable(w: World, p: nat, opens: Opening, pe: Walker)
    requires ValidWorld(w) && WalkInv(w, p, opens, pe, [], NONE_DUE)
    ensures TableOk(w, p, pe)
  {
    hide ValidWorld, TableOk, TravsOk, HitsOk, DueOk;
  }

  lemma SendCounts(r: Rules, s: Sys, p: nat, pe: Walker, pe1: Walker, pe': Walker, out: seq<Fetch>, net0: seq<Fetch>,
                   q: nat, x: Cell, s': Sys)
    requires ValidRules(r, |s.pes|) && NetOk(r, s) && p < |s.pes| && s.pes[p] == Some(pe)
    requires s' == Sys(s.pes[p := Some(pe')], net0 + out, s.asked + out)
    requires pe1.requests.Keys == pe.requests.Keys && Asked(r.w, p, pe1, pe', out)
    requires CountAbout(net0, q, x)
          == (if q == p then (if x in pe1.requests && !pe1.requests[x] then 1 else 0) else CountAbout(s.net, q, x))
    requires forall m :: m in out ==>
          m.cell.depth <= MAX_DEPTH && Owned(r.w, m.cell) && m == TheAsk(r.w, p, m.cell) && IsAsk(m) && m.replyTo == p
    ensures CountAbout(s'.net, q, x) == if Waiting(s', q, x) then 1 else 0
    ensures CountAbout(s'.asked, q, x) == if Requested(s', q, x) then 1 else 0
  {
    hide ValidWorld, MsgOk, TheAsk, Owned;
    AboutConcat(net0, out, q, x);
    AboutConcat(s.asked, out, q, x);
    AsksAbout(r.w, p, pe'.tree, out, q, x);
    assert x in pe.requests <==> x in pe.requests.Keys;
    assert x in pe1.requests <==> x in pe1.requests.Keys;
    assert Waiting(s, q, x) || !Waiting(s, q, x);
  }

  // ---------------- walking groups ----------------

  lemma {:induction false} StartGroupsKeeps(w: World, p: nat, opens: Opening, pe: Walker, tp: nat,
                                            wss: seq<seq<Wait>>, n: nat)
    requires ValidWorld(w) && CanStart(pe, tp, wss) && GroupsLeft(opens, pe, tp, wss)
    requires WalkInv(w, p, opens, pe, [], Slack(tp, n, 0))
    ensures var x := StartGroups(w, p, opens, pe, tp, wss);
            Stepped(w, p, opens, pe, x.0, [], Slack(tp, n + |wss|, 0), x.1)
    decreases |wss|
  {
    hide ValidWorld, WalkInv, Linked, LeftByWalk, StartGroup, Asked;
    if wss == [] {
      NobodyAsked(w, p, pe);
    } else {
      StartFrame(w, p, opens, pe, tp, wss[0]);
      assert pe.tps[tp].remote.current + 0 == pe.tps[tp].remote.current;
      StartGroupKeeps(w, p, opens, pe, tp, wss[0], n);
      var one := StartGroup(w, p, opens, pe, tp, wss[0]);
      forall i | 0 <= i < |wss[1..]|
        ensures LeftByWalk(opens, one.0.tree, one.0.tps[tp].groups[one.0.tps[tp].remote.current + i], wss[1..][i])
      {
        assert wss[1..][i] == wss[i + 1];
        assert pe.tps[tp].remote.current + (i + 1) == one.0.tps[tp].remote.current + i;
      }
      StartGroupsKeeps(w, p, opens, one.0, tp, wss[1..], n + 1);
      var rest := StartGroups(w, p, opens, one.0, tp, wss[1..]);
      AskedTwice(w, p, pe, one.0, rest.0, one.1, rest.1);
    }
  }

  lemma DoRemoteKeeps(w: World, p: nat, opens: Opening, pe: Walker, tp: nat, wss: seq<seq<Wait>>)
    requires ValidWorld(w) && CanStart(pe, tp, wss) && GroupsLeft(opens, pe, tp, wss) && wss != []
    requires WalkInv(w, p, opens, pe, [], NONE_DUE)
    ensures var x := DoRemote(w, p, opens, pe, tp, wss); Stepped(w, p, opens, pe, x.0, [], NONE_DUE, x.1)
  {
    hide ValidWorld, TableOk, HitsOk, DueOk, GroupsLeft, StartGroups, Asked, Account, CanSuspend, Linked, AccountedFor,
      TravsOk;
    NoSlack(w, p, opens, pe, Slack(tp, 0, 0));
    StartGroupsKeeps(w, p, opens, pe, tp, wss, 0);
    GroupsFrame(w, p, opens, pe, tp, wss);
    var x := StartGroups(w, p, opens, pe, tp, wss);
    AccountKeeps(w, p, x.0, [], tp, |wss|);
    AccountedInv(w, p, opens, x.0, Account(x.0, tp, |wss|), [], Slack(tp, |wss|, 0));
    AccountFrame(x.0, tp, |wss|);
    AskedSame(w, p, pe, x.0, Account(x.0, tp, |wss|), x.1);
  }

  lemma AccountFrame(pe: Walker, tp: nat, n: nat)
    requires tp < |pe.tps|
    ensures var pe' := Account(pe, tp, n); pe'.requests == pe.requests && pe'.tree == pe.tree && |pe'.tps| == |pe.tps|
  {
  }

  lemma NoSlack(w: World, p: nat, opens: Opening, pe: Walker, slack: Slack)
    requires ValidWorld(w) && WalkInv(w, p, opens, pe, [], NONE_DUE) && slack.remote == 0 && slack.local == 0
    ensures WalkInv(w, p, opens, pe, [], slack)
  {
    hide ValidWorld, TableOk, HitsOk, DueOk, CountTP, GroupsOk;
    forall t: nat | t < |pe.tps| ensures PendingOk(pe.tps[t], t, pe.requestors, [], slack) {
      assert PendingOk(pe.tps[t], t, pe.requestors, [], NONE_DUE);
    }
  }

  lemma LocalGroupKeeps(w: World, p: nat, opens: Opening, pe: Walker, tp: nat, n: nat)
    requires ValidWorld(w) && WalkInv(w, p, opens, pe, [], Slack(tp, 0, n)) && CanStartLocal(pe, tp, 1)
    ensures WalkInv(w, p, opens, StartLocalGroup(opens, pe, tp), [], Slack(tp, 0, n + 1))
  {
    hide ValidWorld, Linked, Walk, GainWalk, Whole, OwedTo, TravsOk, TableOk, HitsOk, Started, GroupsOk;
    var one := pe.tps[tp];
    var mask := one.groups[one.local.current];
    var pe' := StartLocalGroup(opens, pe, tp);
    GroupsKnown(pe, [], Slack(tp, 0, n));
    AdvanceKeepsTravs(pe, tp, n, AdvancedLocal(one), Slack(tp, 0, n), Slack(tp, 0, n + 1));
    TravsIgnoreHits(pe.(tps := pe.tps[tp := AdvancedLocal(one)]), pe', [], Slack(tp, 0, n + 1));
    SameTable(w, p, pe, pe');
    TableView(w, p, pe);
    forall b ensures BucketOk(w, p, opens, pe', [], b) {
      WasBalanced(w, p, opens, pe, [], b);
      NewlyStartedLocal(pe.tps, tp, b);
      WalkAccounts(w, p, opens, true, pe.tree, b, ROOT);
      LocalGain(w, p, opens, pe.tree, pe.localHits, mask, b);
    }
    AllBalanced(w, p, opens, pe', []);
  }

  lemma LocalGain(w: World, p: nat, opens: Opening, t: Tree, h: Hits, mask: set<nat>, b: nat)
    requires ValidWorld(w) && Linked(t) && ROOT in t
    requires Accounts(w, p, opens, true, b, t, Walk(opens, true, t, b, ROOT), Whole(w, p, opens, true, b, ROOT))
    ensures multiset(HitsOf(GainWalk(opens, true, t, h, mask, ROOT), b))
         == multiset(HitsOf(h, b)) + if b in mask then Whole(w, p, opens, true, b, ROOT) else multiset{}
  {
    hide ValidWorld, Linked, Walk, Whole;
    assert OwedAll(w, p, opens, b, []) == multiset{};
  }

  lemma {:induction false} LocalGroupsKeep(w: World, p: nat, opens: Opening, pe: Walker, tp: nat, n: nat, done: nat)
    requires ValidWorld(w) && WalkInv(w, p, opens, pe, [], Slack(tp, 0, done)) && CanStartLocal(pe, tp, n)
    ensures WalkInv(w, p, opens, StartLocalGroups(opens, pe, tp, n), [], Slack(tp, 0, done + n))
    ensures StartLocalGroups(opens, pe, tp, n).requests == pe.requests
    decreases n
  {
    hide ValidWorld, WalkInv, Linked, GainWalk;
    if n > 0 {
      LocalGroupKeeps(w, p, opens, pe, tp, done);
      LocalGroupsKeep(w, p, opens, StartLocalGroup(opens, pe, tp), tp, n - 1, done + 1);
    }
  }

  lemma DoLocalKeeps(w: World, p: nat, opens: Opening, pe: Walker, tp: nat, n: nat)
    requires ValidWorld(w) && CanStartLocal(pe, tp, n) && n > 0 && WalkInv(w, p, opens, pe, [], NONE_DUE)
    ensures var pe' := DoLocal(opens, pe, tp, n); WalkInv(w, p, opens, pe', [], NONE_DUE) && pe'.requests == pe.requests
  {
    hide ValidWorld, TableOk, HitsOk, DueOk, AccountLocal, AccountedFor, TravsOk, CanStartLocal;
    NoSlack(w, p, opens, pe, Slack(tp, 0, 0));
    LocalGroupsKeep(w, p, opens, pe, tp, n, 0);
    var x := StartLocalGroups(opens, pe, tp, n);
    LocalFits(opens, pe, tp, n);
    AccountLocalKeeps(w, p, x, [], tp, n);
    AccountedInv(w, p, opens, x, AccountLocal(x, tp, n), [], Slack(tp, 0, n));
    assert AccountLocal(x, tp, n).requests == x.requests by { AccountLocalFrame(x, tp, n); }
  }

  lemma LocalFits(opens: Opening, pe: Walker, tp: nat, n: nat)
    requires CanStartLocal(pe, tp, n)
    ensures tp < |StartLocalGroups(opens, pe, tp, n).tps|
  {
    hide ValidWorld, StartLocalGroups;
  }

  lemma AccountLocalFrame(pe: Walker, tp: nat, n: nat)
    requires tp < |pe.tps|
    ensures AccountLocal(pe, tp, n).requests == pe.requests
  {
  }

  // ---------------- a reply arrives ----------------

  lemma ArrivedTree(w: World, p: nat, opens: Opening, pe: Walker, m: Fetch, n: nat)
    requires ValidWorld(w) && TableOk(w, p, pe) && !IsAsk(m) && MsgOk(w, n, m)
    requires m.cell in pe.requests && !pe.requests[m.cell]
    ensures m.cell in pe.tree
    ensures var t := TreeAfter(pe.tree, m);
            && View(w, p, t) && m.cell in t && !Missing(t, m.cell)
            && (t[m.cell].kind == Remote || t[m.cell].kind == RemoteBucket)
            && (forall y :: y in pe.tree && y != m.cell ==> y in t && t[y] == pe.tree[y])
  {
    hide ValidWorld, View, Refined, ServingOwner, Here, Owned, Linked, Fits, InTree, ValidCell;
    var x, t := m.cell, pe.tree;
    KeyFacts(w, p, opens, pe, x);
    TableView(w, p, pe);
    if m.NodeReply? {
      AttachKeepsView(w, p, t, x, m.nodes);
    } else {
      FillKeepsView(w, p, t, x);
    }
  }

  lemma ArriveTable(w: World, p: nat, pe: Walker, x: Cell, t: Tree)
    requires ValidWorld(w) && TableOk(w, p, pe) && x in pe.requests && !pe.requests[x] && View(w, p, t)
    requires x in t && !Missing(t, x) && (t[x].kind == Remote || t[x].kind == RemoteBucket)
    requires forall y :: y in pe.tree && y != x ==> y in t && t[y] == pe.tree[y]
    ensures TableOk(w, p, Arrived(pe, x, t)) && DueOk(Arrived(pe, x, t), Only(pe.requestors, x))
    ensures Only(pe.requestors, x) != []
  {
    hide ValidWorld, View, Only, Except;
    var pe1 := Arrived(pe, x, t);
    OnlyHas(pe.requestors, x);
    assert exists r :: r in pe.requestors && r.cell == x;
    forall y | y in pe1.requests && !pe1.requests[y] ensures exists r :: r in pe1.requestors && r.cell == y {
      assert y in pe.requests && !pe.requests[y];
      var r :| r in pe.requestors && r.cell == y;
      assert r in pe1.requestors;
    }
    forall y | y in pe1.requests
      ensures y in t && (t[y].kind == Remote || t[y].kind == RemoteBucket) && (pe1.requests[y] <==> !Missing(t, y))
    {
      if y != x { assert y in pe.tree && t[y] == pe.tree[y]; }
    }
  }

  lemma ArriveTravs(pe: Walker, x: Cell, t: Tree)
    requires TravsOk(pe, [], NONE_DUE)
    ensures TravsOk(Arrived(pe, x, t), Only(pe.requestors, x), NONE_DUE)
  {
    hide ValidWorld, GroupsOk, CountTP, Only, Except;
    NoneCounted();
    forall k: nat | k < |pe.tps|
      ensures PendingOk(pe.tps[k], k, Except(pe.requestors, x), Only(pe.requestors, x), NONE_DUE)
    {
      assert PendingOk(pe.tps[k], k, pe.requestors, [], NONE_DUE);
      SplitCount(pe.requestors, x, k);
    }
  }

  lemma NoneCounted()
    ensures forall t :: CountTP([], t) == 0
  {
  }

  lemma ArriveHits(w: World, p: nat, opens: Opening, pe: Walker, x: Cell, t: Tree)
    requires ValidWorld(w) && HitsOk(w, p, opens, pe, [])
    ensures HitsOk(w, p, opens, Arrived(pe, x, t), Only(pe.requestors, x))
  {
    hide ValidWorld, Whole, HitsOf, Started, Only, Except, HitsOk;
    var pe1 := Arrived(pe, x, t);
    forall b ensures BucketOk(w, p, opens, pe1, Only(pe.requestors, x), b) {
      WasBalanced(w, p, opens, pe, [], b);
      SplitOwed(w, p, opens, pe.requestors, x, b);
    }
    AllBalanced(w, p, opens, pe1, Only(pe.requestors, x));
  }

  lemma ArriveKeeps(w: World, p: nat, opens: Opening, pe: Walker, m: Fetch, n: nat)
    requires ValidWorld(w) && WalkInv(w, p, opens, pe, [], NONE_DUE) && !IsAsk(m) && MsgOk(w, n, m)
    requires m.cell in pe.requests && !pe.requests[m.cell]
    ensures Expected(pe, m.cell)
    ensures var pe1 := Arrived(pe, m.cell, TreeAfter(pe.tree, m));
            WalkInv(w, p, opens, pe1, Only(pe.requestors, m.cell), NONE_DUE) && Linked(pe1.tree)
  {
    hide ValidWorld, View, MsgOk, TableOk, HitsOk, TravsOk, DueOk, Only, Except, Linked, Missing;
    ArrivedTree(w, p, opens, pe, m, n);
    ArriveTable(w, p, pe, m.cell, TreeAfter(pe.tree, m));
    ArriveTravs(pe, m.cell, TreeAfter(pe.tree, m));
    ArriveHits(w, p, opens, pe, m.cell, TreeAfter(pe.tree, m));
    TableView(w, p, Arrived(pe, m.cell, TreeAfter(pe.tree, m)));
  }

  // ---------------- requests are answerable ----------------

  lemma {:induction false} HolderBuilds(w: World, d: nat, c: Cell)
    requires ValidWorld(w) && InTree(w, c) && LocalHere(w, d, c) != []
    ensures Built(w, d, c)
    decreases c.depth
  {
    hide ValidWorld, LocalHere, Here, Refined, Lo, Hi;
    if c != ROOT {
      var u := Parent(c);
      InTreeValid(w, u);
      RefinedHasRoom(w, u);
      InTreeValid(w, c);
      ParentChild(c);
      ChildHereInParent(w, d, u, Slot(c));
      HolderBuilds(w, d, u);
      LocalTreeIsPruned(w, d, u);
    }
  }

  lemma {:induction false} InTreeValid(w: World, c: Cell)
    requires ValidWorld(w) && InTree(w, c)
    ensures ValidCell(c)
    decreases c.depth
  {
    hide ValidWorld, Refined, Here;
    if c != ROOT {
      InTreeValid(w, Parent(c));
      RefinedHasRoom(w, Parent(c));
      assert Child(Parent(c), Slot(c)) == c;
      ChildSpan(Parent(c), Slot(c));
    }
  }

  // The PE asked for a node or a bucket has particles in it.
  lemma AskedHolds(w: World, p: nat, x: Cell)
    requires ValidWorld(w) && ValidCell(x) && Owned(w, x) && Here(w, x) != []
    requires !Refined(w, x) ==> OwnerStart(w, x) == OwnerEnd(w, x)
    ensures LocalHere(w, TheAsk(w, p, x).dest, x) != []
  {
    hide ValidWorld, Refined, Here, LocalHere, ServingOwner, OwnerStart, OwnerEnd, Lo, Hi;
    AskServed(w, p, x);
    ServerNonempty(w, p, x);
    var tp := if Refined(w, x) then ServingOwner(w, p, x).value else OwnerStart(w, x);
    if MultiOwner(w, x) {
      OwnerHoldsParticles(w, tp, x);
    } else {
      SingleOwnerHere(w, w.pieces[tp].home, x);
    }
  }

  lemma ServerNonempty(w: World, p: nat, x: Cell)
    requires ValidWorld(w) && x.depth <= MAX_DEPTH && Owned(w, x) && ServingOwner(w, p, x).Some?
    ensures var tp := ServingOwner(w, p, x).value;
            OwnerStart(w, x) <= tp <= OwnerEnd(w, x) && tp < |w.pieces| && w.pieces[tp].parts != []
  {
    hide ValidWorld, OwnerStart, OwnerEnd, Probe;
  }

  lemma Unrefined1Owner(w: World, x: Cell)
    requires ValidWorld(w) && ValidCell(x) && Owned(w, x) && Here(w, x) != [] && !Refined(w, x)
    ensures OwnerStart(w, x) == OwnerEnd(w, x)
  {
    hide ValidWorld, Here, OwnerStart, OwnerEnd;
  }

  // A request reaches a PE that built the node: with children, or as a bucket
  // of its own.  "bad request" and "Leaf children request" are unreachable.
  lemma Answerable(r: Rules, n: nat, pe: Walker, m: Fetch)
    requires ValidRules(r, n) && MsgOk(r.w, n, m) && IsAsk(m)
    requires View(r.w, m.dest, pe.tree)
    ensures CanServe(r.w, m.dest, pe, m)
  {
    hide ValidWorld, Here, LocalHere, ServingOwner, Owned, OwnerStart, OwnerEnd, Linked, Lo, Hi, FullKind, Refined,
      LocalLeaf;
    var w, x := r.w, m.cell;
    if !Refined(w, x) { Unrefined1Owner(w, x); }
    AskedHolds(w, m.replyTo, x);
    HolderBuilds(w, m.dest, x);
    assert NodeView(w, m.dest, pe.tree, x);
    LocalTreeIsPruned(w, m.dest, x);
    HolderKind(w, m.dest, x);
  }

  lemma HolderKind(w: World, d: nat, x: Cell)
    requires ValidWorld(w) && ValidCell(x) && Built(w, d, x) && LocalHere(w, d, x) != []
    ensures if Refined(w, x) then FullKind(w, d, x) == Internal || FullKind(w, d, x) == Boundary
            else FullKind(w, d, x) == Bucket
  {
    hide ValidWorld, Here, LocalHere, MultiOwner, Owned, Lo, Hi, Refined, LocallyDone, Built, RefinedAt, LocalLeaf;
    LocalTreeIsPruned(w, d, x);
    RefinedOrOwn(w, d, x);
    LocalIsGlobal(w, d, x);
    assert !RefinedAt(w, d, x) ==> LocalLeaf(w, d, x);
  }

  lemma DestOk(r: Rules, n: nat, m: Fetch)
    requires ValidRules(r, n) && MsgOk(r.w, n, m)
    ensures m.dest < n
  {
    hide ValidWorld, Here, Owned, OwnerStart, OwnerEnd, Refined, Fits, InTree, ServingOwner;
    if IsAsk(m) {
      AskServed(r.w, m.replyTo, m.cell);
      if m.NodeRequest? {
        ServerNonempty(r.w, m.replyTo, m.cell); } else { Unrefined1Owner(r.w, m.cell); OwnedRange(r.w, m.cell);
      }
    }
  }

  lemma OwnedRange(w: World, x: Cell)
    requires ValidWorld(w) && x.depth <= MAX_DEPTH && Owned(w, x)
    ensures OwnerStart(w, x) < |w.pieces|
  {
  }
}
