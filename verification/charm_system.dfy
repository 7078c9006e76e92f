// All PEs together: the network is a bag of messages, and a step is one PE's
// tree build or the delivery of one message, in any order.
module MomentsSystem {
  import opened TreeKeys
  import opened Decomposition
  import opened TreeBuild
  import opened NodeFacts
  import opened Moments
  import opened MomentsExchange

  datatype Sys = Sys(pes: seq<PE>, net: multiset<Msg>)

  ghost predicate Init(w: World, s: Sys) {
    && ValidWorld(w)
    && (forall i :: 0 <= i < |w.pieces| ==> w.pieces[i].home < |s.pes|)
    && (forall p :: 0 <= p < |s.pes| ==> s.pes[p] == PE(false, map[], {}, map[], 0, false))
    && s.net == multiset{}
  }

  // processSubmittedParticles on PE p: t is the tree its build and moments walk
  // made, leaves its remote leaves and keys its pending keys, in visiting order.
  ghost predicate BuildStep(w: World, s: Sys, p: nat, t: map<Cell, Node>, leaves: seq<Cell>, keys: seq<Cell>, s': Sys)
    requires ValidWorld(w)
  {
    && p < |s.pes| && !s.pes[p].built && TableInit(w, p, t) && LeavesOf(w, p, leaves)
    && (forall c :: c in leaves ==> c.depth <= MAX_DEPTH && Owned(w, c))
    && (forall k :: k in s.pes[p].pending ==> k in keys)
    && Closed(t) && (forall c :: c in Unserved(w, p, leaves) ==> c in t)
    && var r := Finish(StartPE(w, p, s.pes[p], t), Unserved(w, p, leaves), keys);
       s' == Sys(s.pes[p := r.0], s.net + multiset(Asked(w, p, leaves)) + multiset(r.1))
  }

  ghost predicate DeliverStep(s: Sys, m: Msg, s': Sys) {
    && m in s.net && m.dest < |s.pes|
    && (s.pes[m.dest].built ==> Closed(s.pes[m.dest].table))
    && var r := match m
                case MomentsRequest(d, c, from) => OnRequest(s.pes[d], c, from)
                case MomentsReply(d, c, kind, mass) => OnReply(s.pes[d], c, kind, mass);
       s' == Sys(s.pes[m.dest := r.0], s.net - multiset{m} + multiset(r.1))
  }

  ghost predicate Next(w: World, s: Sys, s': Sys)
    requires ValidWorld(w)
  {
    || (exists p, t, leaves, keys :: BuildStep(w, s, p, t, leaves, keys, s'))
    || (exists m :: DeliverStep(s, m, s'))
  }

  // ---------------- the invariant ----------------

  ghost predicate MsgOk(w: World, s: Sys, m: Msg)
    requires ValidWorld(w)
  {
    match m
    case MomentsRequest(d, c, r) =>
      r < |s.pes| && s.pes[r].built && RemoteServed(w, r, c) && d == Server(w, r, c)
    case MomentsReply(r, c, kind, mass) =>
      r < |s.pes| && s.pes[r].built && RemoteServed(w, r, c) && m == Exact(w, Server(w, r, c), c, r)
  }

  // The request PE r sends for a remote leaf.
  ghost function Ask(w: World, r: nat, c: Cell): Msg
    requires ValidWorld(w) && RemoteServed(w, r, c)
  {
    MomentsRequest(Server(w, r, c), c, r)
  }

  // For every remote leaf still owed its moments, exactly one request, queue
  // entry or reply stands for it; for every other, none.
  ghost function Tokens(w: World, s: Sys, r: nat, c: Cell): nat
    requires ValidWorld(w) && RemoteServed(w, r, c)
  {
    var d := Server(w, r, c);
    s.net[MomentsRequest(d, c, r)] + (if d < |s.pes| then Owes(s.pes[d], c, r) else 0) + s.net[Exact(w, d, c, r)]
  }

  ghost predicate Inv(w: World, s: Sys) {
    && ValidWorld(w)
    && (forall i :: 0 <= i < |w.pieces| ==> w.pieces[i].home < |s.pes|)
    && (forall p :: 0 <= p < |s.pes| ==> PEOk(w, p, s.pes[p]) && AsksOk(w, p, s.pes[p], |s.pes|))
    && (forall m :: m in s.net ==> MsgOk(w, s, m))
    && (forall r: nat, c: Cell :: r < |s.pes| && RemoteServed(w, r, c) ==>
          Tokens(w, s, r, c) == if c in s.pes[r].unfilled then 1 else 0)
  }

  lemma ServerInRange(w: World, s: Sys, r: nat, c: Cell)
    requires ValidWorld(w) && RemoteServed(w, r, c)
    requires forall i :: 0 <= i < |w.pieces| ==> w.pieces[i].home < |s.pes|
    ensures Server(w, r, c) < |s.pes|
  {
  }

  lemma InitInv(w: World, s: Sys)
    requires Init(w, s)
    ensures Inv(w, s)
  {
    hide ValidWorld, RemoteServed, Server, Exact;
    forall r: nat, c: Cell | r < |s.pes| && RemoteServed(w, r, c)
      ensures Tokens(w, s, r, c) == 0
    {
      ServerInRange(w, s, r, c);
    }
  }

  // Replies PE d sends leave the tokens alone.
  lemma OutTokens(w: World, d: nat, npes: nat, pe: PE, pe': PE, out: seq<Msg>, r: nat, c: Cell)
    requires ValidWorld(w) && AsksOk(w, d, pe, npes) && Moved(w, d, pe, pe', out) && RemoteServed(w, r, c)
    ensures var srv := Server(w, r, c);
            && (srv == d ==> Owes(pe', c, r) + multiset(out)[Exact(w, d, c, r)] == Owes(pe, c, r))
            && (srv != d ==> multiset(out)[Exact(w, srv, c, r)] == 0)
    ensures forall x: nat, k: Cell, y: nat :: multiset(out)[MomentsRequest(x, k, y)] == 0
  {
    hide ValidWorld, RemoteServed, Server, FinalKind, NodeMass;
    RemoteServedDepth(w, r, c);
    var srv := Server(w, r, c);
    assert Exact(w, srv, c, r) in out ==> r in pe.pending[c];
    forall x: nat, k: Cell, y: nat ensures MomentsRequest(x, k, y) !in out {}
  }

  lemma AsksShrink(w: World, d: nat, npes: nat, pe: PE, pe': PE, out: seq<Msg>)
    requires ValidWorld(w) && AsksOk(w, d, pe, npes) && Moved(w, d, pe, pe', out)
    ensures AsksOk(w, d, pe', npes)
  {
    hide ValidWorld, RemoteServed, Server, Exact;
  }

  lemma OutMsgsOk(w: World, s: Sys, d: nat, pe: PE, pe': PE, out: seq<Msg>)
    requires ValidWorld(w) && d < |s.pes| && AsksOk(w, d, pe, |s.pes|) && Moved(w, d, pe, pe', out)
    requires forall r: nat, c: Cell :: r < |s.pes| && r in Waiting(pe, c) ==> s.pes[r].built
    ensures forall m :: m in out ==> MsgOk(w, s, m)
  {
    hide ValidWorld, RemoteServed, Server, FinalKind, NodeMass;
    forall m | m in out ensures MsgOk(w, s, m) {
      assert m.dest in pe.pending[m.cell];
    }
  }

  // Somebody waiting for an answer has built its tree.
  lemma WaiterBuilt(w: World, s: Sys, d: nat, c: Cell, r: nat)
    requires Inv(w, s) && d < |s.pes| && r < |s.pes| && r in Waiting(s.pes[d], c)
    ensures RemoteServed(w, r, c) && Server(w, r, c) == d && c in s.pes[r].unfilled && s.pes[r].built
  {
    hide ValidWorld, RemoteServed, Server, FinalKind, NodeMass, Settled;
    assert AsksOk(w, d, s.pes[d], |s.pes|);
    assert Owes(s.pes[d], c, r) > 0;
    assert Tokens(w, s, r, c) > 0;
    assert PEOk(w, r, s.pes[r]);
    BuiltIfSettled(w, r, s.pes[r]);
  }

  lemma BuiltIfSettled(w: World, p: nat, pe: PE)
    requires ValidWorld(w) && Settled(w, p, pe)
    ensures pe.built && !pe.aborted
  {
  }

  lemma MsgStillOk(w: World, s: Sys, s': Sys, m: Msg)
    requires ValidWorld(w) && MsgOk(w, s, m) && |s'.pes| == |s.pes|
    requires forall r: nat :: r < |s.pes| && s.pes[r].built ==> s'.pes[r].built
    ensures MsgOk(w, s', m)
  {
    hide ValidWorld, RemoteServed, Server, FinalKind, NodeMass;
  }

  lemma {:induction false} AskedCounts(w: World, p: nat, leaves: seq<Cell>, d: nat, c: Cell, r: nat)
    requires ValidWorld(w) && Distinct(leaves)
    requires forall x :: x in leaves ==> x.depth <= MAX_DEPTH && Owned(w, x)
    ensures multiset(Asked(w, p, leaves))[MomentsRequest(d, c, r)]
         == if r == p && c in leaves && ServingOwner(w, p, c).Some? && d == Server(w, p, c) then 1 else 0
    ensures forall m :: m in Asked(w, p, leaves) ==>
              m.MomentsRequest? && m.replyTo == p && m.cell in leaves
              && ServingOwner(w, p, m.cell).Some? && m.dest == Server(w, p, m.cell)
  {
    hide ValidWorld, ServingOwner, Owned, OwnerStart, OwnerEnd, Server;
    if leaves != [] {
      AskedCounts(w, p, leaves[1..], d, c, r);
      assert forall x :: x in leaves[1..] ==> x != leaves[0];
      assert leaves == [leaves[0]] + leaves[1..];
    }
  }

  // ---------------- one step keeps the invariant ----------------

  lemma BuildTokens(w: World, s: Sys, p: nat, leaves: seq<Cell>, pe': PE, out: seq<Msg>, s': Sys, r: nat, c: Cell)
    requires Inv(w, s) && p < |s.pes| && Unstarted(s.pes[p]) && LeavesOf(w, p, leaves)
    requires forall x :: x in leaves ==> x.depth <= MAX_DEPTH && Owned(w, x)
    requires Moved(w, p, s.pes[p], pe', out) && forall x :: x in pe'.unfilled <==> RemoteServed(w, p, x)
    requires s' == Sys(s.pes[p := pe'], s.net + multiset(Asked(w, p, leaves)) + multiset(out))
    requires r < |s.pes| && RemoteServed(w, r, c)
    ensures Tokens(w, s', r, c) == if c in s'.pes[r].unfilled then 1 else 0
  {
    hide ValidWorld, RemoteServed, Server, FinalKind, NodeMass, PEOk, MsgOk, LeavesOf, Owes, Moved, Built, RemoteLeaf,
      Owned,
      ServingOwner;
    ServerInRange(w, s, r, c);
    RemoteServedDepth(w, r, c);
    var d := Server(w, r, c);
    OutTokens(w, p, |s.pes|, s.pes[p], pe', out, r, c);
    LeafMember(w, p, leaves, c);
    AskedCounts(w, p, leaves, d, c, r);
    assert Exact(w, d, c, r) !in Asked(w, p, leaves);
    assert Tokens(w, s, r, c) == if c in s.pes[r].unfilled then 1 else 0;
  }

  lemma LeafMember(w: World, p: nat, leaves: seq<Cell>, c: Cell)
    requires ValidWorld(w) && LeavesOf(w, p, leaves) && c.depth <= MAX_DEPTH
    ensures c in leaves <==> Built(w, p, c) && RemoteLeaf(w, p, c)
    ensures Distinct(leaves)
  {
  }

  lemma BuildKeeps(w: World, s: Sys, p: nat, t: map<Cell, Node>, leaves: seq<Cell>, keys: seq<Cell>, s': Sys)
    requires Inv(w, s) && BuildStep(w, s, p, t, leaves, keys, s')
    ensures Inv(w, s')
    ensures s.pes[p].unfilled == {} && forall x :: x in s'.pes[p].unfilled <==> RemoteServed(w, p, x)
    ensures s'.pes[p].built && forall q :: 0 <= q < |s.pes| && q != p ==> s'.pes[q] == s.pes[q]
    ensures forall c: Cell, r: nat :: RemoteServed(w, r, c) ==>
              s'.net[Ask(w, r, c)] == s.net[Ask(w, r, c)] + if r == p then 1 else 0
  {
    hide ValidWorld, RemoteServed, Server, FinalKind, NodeMass, Settled, Moved, Built, RemoteLeaf, Owned, ServingOwner,
      TableInit,
      Finish, Tokens, MsgOk, AsksOk, LeavesOf, StartPE, Owes;
    var pe := s.pes[p];
    assert PEOk(w, p, pe);
    if Settled(w, p, pe) { BuiltIfSettled(w, p, pe); }
    FinishKeeps(w, p, pe, t, leaves, keys, |s.pes|);
    var r := Finish(StartPE(w, p, pe, t), Unserved(w, p, leaves), keys);
    AsksShrink(w, p, |s.pes|, pe, r.0, r.1);
    BuiltIfSettled(w, p, r.0);
    forall q: nat, c: Cell | q < |s.pes| && RemoteServed(w, q, c)
      ensures Tokens(w, s', q, c) == if c in s'.pes[q].unfilled then 1 else 0
    {
      BuildTokens(w, s, p, leaves, r.0, r.1, s', q, c);
    }
    forall m | m in s'.net ensures MsgOk(w, s', m) {
      BuildMsg(w, s, p, leaves, r.0, r.1, s', m);
    }
    forall c: Cell, q: nat | RemoteServed(w, q, c)
      ensures s'.net[Ask(w, q, c)] == s.net[Ask(w, q, c)] + if q == p then 1 else 0
    {
      BuildAsks(w, s, p, leaves, r.0, r.1, s', c, q);
    }
  }

  lemma BuildAsks(w: World, s: Sys, p: nat, leaves: seq<Cell>, pe': PE, out: seq<Msg>, s': Sys, c: Cell, r: nat)
    requires Inv(w, s) && p < |s.pes| && LeavesOf(w, p, leaves) && RemoteServed(w, r, c)
    requires forall x :: x in leaves ==> x.depth <= MAX_DEPTH && Owned(w, x)
    requires Moved(w, p, s.pes[p], pe', out)
    requires s' == Sys(s.pes[p := pe'], s.net + multiset(Asked(w, p, leaves)) + multiset(out))
    ensures s'.net[Ask(w, r, c)] == s.net[Ask(w, r, c)] + if r == p then 1 else 0
  {
    hide ValidWorld, RemoteServed, Server, FinalKind, NodeMass, PEOk, MsgOk, LeavesOf, Owes, Built, RemoteLeaf, Owned,
      ServingOwner;
    RemoteServedDepth(w, r, c);
    LeafMember(w, p, leaves, c);
    AskedCounts(w, p, leaves, Server(w, r, c), c, r);
    RepliesOnly(w, p, s.pes[p], pe', out);
    assert MomentsRequest(Server(w, r, c), c, r) !in out;
  }

  lemma BuildMsg(w: World, s: Sys, p: nat, leaves: seq<Cell>, pe': PE, out: seq<Msg>, s': Sys, m: Msg)
    requires Inv(w, s) && p < |s.pes| && LeavesOf(w, p, leaves) && pe'.built
    requires forall x :: x in leaves ==> x.depth <= MAX_DEPTH && Owned(w, x)
    requires Moved(w, p, s.pes[p], pe', out)
    requires s' == Sys(s.pes[p := pe'], s.net + multiset(Asked(w, p, leaves)) + multiset(out))
    requires m in s'.net
    ensures MsgOk(w, s', m)
  {
    hide ValidWorld, Server, FinalKind, NodeMass, PEOk, Owes, Moved, Built, RemoteLeaf, Owned, ServingOwner, Tokens,
      AsksOk;
    if m in s.net {
      MsgStillOk(w, s, s', m);
    } else if m in out {
      SentOk(w, s, p, pe', out, s', m);
    } else {
      AskedCounts(w, p, leaves, 0, ROOT, 0);
    }
  }

  lemma SentOk(w: World, s: Sys, d: nat, pe': PE, out: seq<Msg>, s': Sys, m: Msg)
    requires Inv(w, s) && d < |s.pes| && Moved(w, d, s.pes[d], pe', out) && m in out
    requires s'.pes == s.pes[d := pe'] && pe'.built
    ensures MsgOk(w, s', m)
  {
    hide ValidWorld, Server, FinalKind, NodeMass, PEOk, Owes, RemoteServed, Tokens;
    assert AsksOk(w, d, s.pes[d], |s.pes|);
    assert m.dest in s.pes[d].pending[m.cell];
    WaiterBuilt(w, s, d, m.cell, m.dest);
  }

  // Delivering a request.
  lemma RequestTokens(w: World, s: Sys, d: nat, c: Cell, r: nat, pe': PE, out: seq<Msg>, s': Sys, q: nat, x: Cell)
    requires Inv(w, s) && d < |s.pes| && r < |s.pes| && RemoteServed(w, r, c) && Server(w, r, c) == d
    requires MomentsRequest(d, c, r) in s.net && MovedWith(w, d, s.pes[d], c, r, pe', out)
    requires pe'.unfilled == s.pes[d].unfilled
    requires s' == Sys(s.pes[d := pe'], s.net - multiset{MomentsRequest(d, c, r)} + multiset(out))
    requires q < |s.pes| && RemoteServed(w, q, x)
    ensures Tokens(w, s', q, x) == if x in s'.pes[q].unfilled then 1 else 0
  {
    hide ValidWorld, RemoteServed, Server, FinalKind, NodeMass, PEOk, MsgOk, Owes;
    ServerInRange(w, s, q, x);
    RemoteServedDepth(w, q, x);
    var srv := Server(w, q, x);
    assert AsksOk(w, d, s.pes[d], |s.pes|);
    assert MomentsRequest(srv, x, q) !in out;
    assert srv != d ==> Exact(w, srv, x, q) !in out;
    assert Tokens(w, s, q, x) == if x in s.pes[q].unfilled then 1 else 0;
  }

  lemma RequestShape(pe: PE, c: Cell, r: nat)
    ensures var pe' := OnRequest(pe, c, r).0;
            pe'.unfilled == pe.unfilled && pe'.built == pe.built
            && forall k :: k in pe'.pending ==>
                  (k == c && |pe'.pending[k]| > 0) || (k in pe.pending && pe'.pending[k] == pe.pending[k])
  {
  }

  lemma RequestStepKeeps(w: World, s: Sys, d: nat, c: Cell, r: nat, s': Sys)
    requires Inv(w, s) && DeliverStep(s, MomentsRequest(d, c, r), s')
    ensures Inv(w, s') && s'.pes[d].unfilled == s.pes[d].unfilled && s'.pes[d].built == s.pes[d].built
    ensures forall o: Msg :: o.MomentsRequest? ==> s'.net[o] == s.net[o] - if o == MomentsRequest(d, c, r) then 1 else 0
    ensures RemoteServed(w, r, c) && Server(w, r, c) == d && r < |s.pes|
    ensures c in s.pes[r].unfilled && s.net[MomentsRequest(d, c, r)] == 1
  {
    hide ValidWorld, RemoteServed, Server, FinalKind, NodeMass, Settled, OnRequest, Tokens, Owes, PEOk;
    var pe := s.pes[d];
    var res := OnRequest(pe, c, r);
    assert MsgOk(w, s, MomentsRequest(d, c, r));
    RequestKeeps(w, d, pe, c, r);
    RequestShape(pe, c, r);
    forall q: nat, x: Cell | q < |s.pes| && RemoteServed(w, q, x)
      ensures Tokens(w, s', q, x) == if x in s'.pes[q].unfilled then 1 else 0
    {
      RequestTokens(w, s, d, c, r, res.0, res.1, s', q, x);
    }
    forall m | m in s'.net ensures MsgOk(w, s', m) {
      if m in s.net {
        MsgStillOk(w, s, s', m);
      } else {
        assert m in res.1;
        if m.dest != r { WaiterBuilt(w, s, d, c, m.dest); }
      }
    }
    TokenOne(w, s, d, c, r);
  }

  lemma TokenOne(w: World, s: Sys, d: nat, c: Cell, r: nat)
    requires Inv(w, s) && r < |s.pes| && RemoteServed(w, r, c) && Server(w, r, c) == d
    requires MomentsRequest(d, c, r) in s.net
    ensures c in s.pes[r].unfilled && s.net[MomentsRequest(d, c, r)] == 1
  {
    hide ValidWorld, RemoteServed, Server, FinalKind, NodeMass, PEOk;
    assert Tokens(w, s, r, c) == if c in s.pes[r].unfilled then 1 else 0;
  }

  // Delivering a reply.
  lemma ReplyTokens(w: World, s: Sys, d: nat, c: Cell, pe': PE, out: seq<Msg>, s': Sys, q: nat, x: Cell)
    requires Inv(w, s) && d < |s.pes| && RemoteServed(w, d, c) && c.depth <= MAX_DEPTH
    requires Exact(w, Server(w, d, c), c, d) in s.net && Moved(w, d, s.pes[d], pe', out)
    requires pe'.unfilled == s.pes[d].unfilled - {c}
    requires s' == Sys(s.pes[d := pe'], s.net - multiset{Exact(w, Server(w, d, c), c, d)} + multiset(out))
    requires q < |s.pes| && RemoteServed(w, q, x)
    ensures Tokens(w, s', q, x) == if x in s'.pes[q].unfilled then 1 else 0
  {
    hide ValidWorld, RemoteServed, Server, FinalKind, NodeMass, PEOk, MsgOk, Owes, AsksOk, Moved;
    ServerInRange(w, s, q, x);
    RemoteServedDepth(w, q, x);
    OutTokens(w, d, |s.pes|, s.pes[d], pe', out, q, x);
    assert Tokens(w, s, q, x) == if x in s.pes[q].unfilled then 1 else 0;
  }

  // PE d after absorbing the reply for node c.
  ghost predicate ReplyDone(w: World, d: nat, npes: nat, pe: PE, c: Cell, pe': PE, out: seq<Msg>)
    requires ValidWorld(w)
  {
    && Settled(w, d, pe') && pe'.built && pe'.unfilled == pe.unfilled - {c}
    && Moved(w, d, pe, pe', out) && AsksOk(w, d, pe', npes)
  }

  lemma ReplyMoves(w: World, d: nat, npes: nat, pe: PE, c: Cell, kind: NodeType, mass: real)
    requires ValidWorld(w) && Settled(w, d, pe) && AsksOk(w, d, pe, npes) && c in pe.unfilled
    requires RemoteServed(w, d, c) && c.depth <= MAX_DEPTH && Owned(w, c)
    requires kind == FinalKind(w, Server(w, d, c), c) && mass == NodeMass(w, c)
    ensures Closed(pe.table)
    ensures ReplyDone(w, d, npes, pe, c, OnReply(pe, c, kind, mass).0, OnReply(pe, c, kind, mass).1)
  {
    hide ValidWorld, RemoteServed, Server, FinalKind, NodeMass, OnReply, Owes, Settled, Moved, AsksOk, Closed;
    ReplyKeeps(w, d, pe, c, kind, mass);
    var res := OnReply(pe, c, kind, mass);
    AsksShrink(w, d, npes, pe, res.0, res.1);
    BuiltIfSettled(w, d, res.0);
  }

  lemma ReplyNeeded(w: World, s: Sys, m: Msg)
    requires Inv(w, s) && m in s.net && m.MomentsReply?
    ensures m.dest < |s.pes| && RemoteServed(w, m.dest, m.cell) && m.cell.depth <= MAX_DEPTH && Owned(w, m.cell)
    ensures m == Exact(w, Server(w, m.dest, m.cell), m.cell, m.dest)
    ensures AsksOk(w, m.dest, s.pes[m.dest], |s.pes|)
  {
    hide ValidWorld, RemoteServed, Server, FinalKind, NodeMass, OnReply, Tokens, Owes, AsksOk, PEOk;
    assert MsgOk(w, s, m);
    RemoteServedDepth(w, m.dest, m.cell);
  }

  lemma ReplyStepKeeps(w: World, s: Sys, m: Msg, s': Sys)
    requires Inv(w, s) && DeliverStep(s, m, s') && m.MomentsReply?
    ensures m.cell in s.pes[m.dest].unfilled && s.pes[m.dest].built
    ensures RemoteServed(w, m.dest, m.cell)
    ensures Inv(w, s')
    ensures s'.pes[m.dest].unfilled == s.pes[m.dest].unfilled - {m.cell} && s'.pes[m.dest].built
    ensures forall o: Msg :: o.MomentsRequest? ==> s'.net[o] == s.net[o]
  {
    hide ValidWorld, RemoteServed, Server, FinalKind, NodeMass, OnReply, Tokens, Owes, Settled, Moved, AsksOk, Closed;
    ReplyNeeded(w, s, m);
    ReplyUnfilled(w, s, m);
    var d, c := m.dest, m.cell;
    ReplyMoves(w, d, |s.pes|, s.pes[d], c, m.kind, m.mass);
    var res := OnReply(s.pes[d], c, m.kind, m.mass);
    ReplyInv(w, s, m, res.0, res.1, s');
    RepliesOnly(w, d, s.pes[d], res.0, res.1);
    assert s'.net == s.net - multiset{m} + multiset(res.1);
    assert forall o: Msg :: o.MomentsRequest? ==> o !in res.1;
  }

  lemma ReplyInv(w: World, s: Sys, m: Msg, pe': PE, out: seq<Msg>, s': Sys)
    requires Inv(w, s) && m in s.net && m.MomentsReply? && m.dest < |s.pes|
    requires RemoteServed(w, m.dest, m.cell) && m.cell.depth <= MAX_DEPTH && Owned(w, m.cell)
    requires m == Exact(w, Server(w, m.dest, m.cell), m.cell, m.dest)
    requires ReplyDone(w, m.dest, |s.pes|, s.pes[m.dest], m.cell, pe', out)
    requires s' == Sys(s.pes[m.dest := pe'], s.net - multiset{m} + multiset(out))
    ensures Inv(w, s')
  {
    hide ValidWorld, RemoteServed, Server, FinalKind, NodeMass, OnReply, Tokens, Owes, Settled, Moved, AsksOk, Closed;
    forall q: nat, x: Cell | q < |s.pes| && RemoteServed(w, q, x)
      ensures Tokens(w, s', q, x) == if x in s'.pes[q].unfilled then 1 else 0
    {
      ReplyTokens(w, s, m.dest, m.cell, pe', out, s', q, x);
    }
    forall o | o in s'.net ensures MsgOk(w, s', o) {
      if o in s.net {
        MsgStillOk(w, s, s', o);
      } else {
        SentOk(w, s, m.dest, pe', out, s', o);
      }
    }
  }

  lemma RepliesOnly(w: World, d: nat, pe: PE, pe': PE, out: seq<Msg>)
    requires ValidWorld(w) && Moved(w, d, pe, pe', out)
    ensures forall o :: o in out ==> o.MomentsReply?
  {
  }

  lemma ReplyUnfilled(w: World, s: Sys, m: Msg)
    requires Inv(w, s) && m in s.net && m.MomentsReply?
    ensures m.dest < |s.pes| && m.cell in s.pes[m.dest].unfilled && s.pes[m.dest].built
    ensures Settled(w, m.dest, s.pes[m.dest])
  {
    hide ValidWorld, RemoteServed, Server, FinalKind, NodeMass, Settled;
    assert MsgOk(w, s, m);
    assert Tokens(w, s, m.dest, m.cell) > 0;
    assert PEOk(w, m.dest, s.pes[m.dest]);
  }

  lemma NextKeeps(w: World, s: Sys, s': Sys)
    requires Inv(w, s) && Next(w, s, s')
    ensures Inv(w, s') && |s'.pes| == |s.pes|
  {
    hide ValidWorld, Inv, BuildStep, DeliverStep;
    InvWorld(w, s);
    StepWidth(w, s, s');
    if exists p, t, leaves, keys :: BuildStep(w, s, p, t, leaves, keys, s') {
      var p, t, leaves, keys :| BuildStep(w, s, p, t, leaves, keys, s');
      BuildKeeps(w, s, p, t, leaves, keys, s');
    } else {
      var m :| DeliverStep(s, m, s');
      match m {
        case MomentsRequest(d, c, r) => RequestStepKeeps(w, s, d, c, r, s');
        case MomentsReply(_, _, _, _) => ReplyStepKeeps(w, s, m, s');
      }
    }
  }

  lemma InvWorld(w: World, s: Sys)
    requires Inv(w, s)
    ensures ValidWorld(w)
  {
  }

  lemma StepWidth(w: World, s: Sys, s': Sys)
    requires ValidWorld(w) && Next(w, s, s')
    ensures |s'.pes| == |s.pes|
  {
  }

  // ---------------- safety over whole runs ----------------

  ghost predicate Run(w: World, run: seq<Sys>) {
    && |run| > 0 && Init(w, run[0])
    && forall i :: 0 <= i < |run| - 1 ==> Next(w, run[i], run[i + 1])
  }

  lemma {:induction false} RunKeeps(w: World, run: seq<Sys>, i: nat)
    requires Run(w, run) && i < |run|
    ensures Inv(w, run[i]) && |run[i].pes| == |run[0].pes|
  {
    hide ValidWorld, Inv, Init, Next;
    if i == 0 {
      InitInv(w, run[0]);
    } else {
      RunKeeps(w, run, i - 1);
      NextKeeps(w, run[i - 1], run[i]);
    }
  }

  lemma RepliesExact(w: World, s: Sys, m: Msg)
    requires Inv(w, s) && m in s.net && m.MomentsReply?
    ensures m.cell.depth <= MAX_DEPTH && m.mass == NodeMass(w, m.cell) && MakeRemote(m.kind) == RemoteKind(w, m.cell)
  {
    hide ValidWorld, FinalKind, NodeMass, RemoteKind, Server, RemoteServed, Owes, Tokens, AsksOk, OnReply, Settled,
      Moved, Inv;
    InvWorld(w, s);
    ReplyNeeded(w, s, m);
    ServerCanAnswer(w, m.dest, m.cell);
  }

  lemma NodesExact(w: World, s: Sys, p: nat, c: Cell)
    requires Inv(w, s) && p < |s.pes| && Done(s.pes[p], c)
    ensures c.depth <= MAX_DEPTH && s.pes[p].table[c].mass == NodeMass(w, c)
    ensures s.pes[p].table[c].kind == FinalKind(w, p, c)
  {
    hide ValidWorld, FinalKind, NodeMass, Server, RemoteServed, Owes, Tokens, AsksOk, MsgOk;
    assert PEOk(w, p, s.pes[p]);
    CoreNode(w, p, s.pes[p], c);
  }

  lemma ReadyOnce(w: World, s: Sys, p: nat)
    requires Inv(w, s) && p < |s.pes|
    ensures !s.pes[p].aborted && s.pes[p].readyFired <= 1
    ensures s.pes[p].readyFired == 1 ==> Done(s.pes[p], ROOT)
  {
    hide ValidWorld, FinalKind, NodeMass, Server, RemoteServed, Owes, Tokens, AsksOk, MsgOk, Shape, NodesOk, LocalLeaf,
      CountsOk;
    assert PEOk(w, p, s.pes[p]);
  }

  // In every reachable state every reply carries the exact mass of the whole
  // system inside its node and the type the asker must show for it, every ready
  // node carries its exact mass, no check has failed, and no PE has declared its
  // tree ready twice or before its root is.
  lemma EveryRunIsExact(w: World, run: seq<Sys>, i: nat)
    requires Run(w, run) && i < |run|
    ensures ValidWorld(w)
    ensures forall m :: m in run[i].net && m.MomentsReply? ==>
              m.cell.depth <= MAX_DEPTH && m.mass == NodeMass(w, m.cell) && MakeRemote(m.kind) == RemoteKind(w, m.cell)
    ensures forall p: nat, c: Cell :: p < |run[i].pes| && Done(run[i].pes[p], c) ==>
              c.depth <= MAX_DEPTH && run[i].pes[p].table[c].mass == NodeMass(w, c)
    ensures forall p: nat :: p < |run[i].pes| ==>
              !run[i].pes[p].aborted && run[i].pes[p].readyFired <= 1
              && (run[i].pes[p].readyFired == 1 ==> Done(run[i].pes[p], ROOT))
  {
    hide ValidWorld, NodeMass, RemoteKind, Inv, Run;
    var s := run[i];
    RunKeeps(w, run, i);
    InvWorld(w, s);
    forall m | m in s.net && m.MomentsReply?
      ensures m.cell.depth <= MAX_DEPTH && m.mass == NodeMass(w, m.cell) && MakeRemote(m.kind) == RemoteKind(w, m.cell)
    {
      RepliesExact(w, s, m);
    }
    forall p: nat, c: Cell | p < |s.pes| && Done(s.pes[p], c)
      ensures c.depth <= MAX_DEPTH && c in s.pes[p].table && s.pes[p].table[c].mass == NodeMass(w, c)
    {
      NodesExact(w, s, p, c);
    }
    forall p: nat | p < |s.pes|
      ensures !s.pes[p].aborted && s.pes[p].readyFired <= 1 && (s.pes[p].readyFired == 1 ==> Done(s.pes[p], ROOT))
    {
      ReadyOnce(w, s, p);
    }
  }

  // ---------------- nothing gets stuck ----------------

  ghost predicate Quiet(s: Sys) {
    s.net == multiset{} && forall p :: 0 <= p < |s.pes| ==> s.pes[p].built
  }

  lemma {:induction false} UnreadyBelow(w: World, p: nat, pe: PE, c: Cell) returns (i: nat)
    requires ValidWorld(w) && Core(w, p, pe) && CountsOk(pe, None)
    requires c in pe.table && pe.table[c].nchild > 0 && !Done(pe, c)
    ensures i < BRANCH && Child(c, i) in pe.table && !Done(pe, Child(c, i))
  {
    hide ValidWorld, RefinedAt, RemoteLeaf, NodesOk;
    CountFull(pe, c, BRANCH);
    assert Late(None, c) == 0;
    i :| i < BRANCH && !Done(pe, Child(c, i));
  }

  // An unready node of a quiet system waits for a deeper one on some PE -- and
  // the tree is only so deep.
  lemma {:induction false} NobodyWaits(w: World, s: Sys, p: nat, c: Cell)
    requires Inv(w, s) && Quiet(s) && p < |s.pes| && c in s.pes[p].table
    ensures Done(s.pes[p], c)
    decreases MAX_DEPTH - c.depth, 1
  {
    hide ValidWorld, Owes, Tokens, AsksOk, RemoteServed, Server, FinalKind, NodeMass, Settled, NodeOk;
    var pe := s.pes[p];
    BuiltSettled(w, s, p);
    CoreNode(w, p, pe, c);
    if !Done(pe, c) {
      if pe.table[c].nchild > 0 {
        var i := UnreadyBelow(w, p, pe, c);
        CoreNode(w, p, pe, Child(c, i));
        NobodyWaits(w, s, p, Child(c, i));
      } else {
        RemoteServedDepth(w, p, c);
        ServerReady(w, s, p, c);
      }
    }
  }

  lemma BuiltSettled(w: World, s: Sys, p: nat)
    requires Inv(w, s) && p < |s.pes| && s.pes[p].built
    ensures Settled(w, p, s.pes[p]) && Core(w, p, s.pes[p]) && CountsOk(s.pes[p], None)
    ensures forall c :: c in s.pes[p].unfilled ==> RemoteServed(w, p, c)
  {
    assert PEOk(w, p, s.pes[p]);
  }

  // A remote leaf still waiting in a quiet system is queued at a PE whose own
  // node of that key is not ready either; that node has children there.
  lemma {:induction false} ServerReady(w: World, s: Sys, p: nat, c: Cell)
    requires Inv(w, s) && Quiet(s) && p < |s.pes| && RemoteServed(w, p, c) && c.depth <= MAX_DEPTH
    ensures c !in s.pes[p].unfilled
    decreases MAX_DEPTH - c.depth, 0
  {
    hide ValidWorld, Owes, AsksOk, RemoteServed, Server, FinalKind, NodeMass, RefinedAt, Core, CountsOk, LocalLeaf,
      RemoteLeaf,
      ServingOwner, Owned;
    if c in s.pes[p].unfilled {
      RemoteServedDepth(w, p, c);
      var d := Server(w, p, c);
      ServerInRange(w, s, p, c);
      assert Tokens(w, s, p, c) == 1;
      WaitingQueued(w, s, d, c, p);
      BuiltSettled(w, s, d);
      ServerCanAnswer(w, p, c);
      CoreNode(w, d, s.pes[d], c);
      UnreadyHasChildren(w, d, s.pes[d], c);
      var i := UnreadyBelow(w, d, s.pes[d], c);
      CoreNode(w, d, s.pes[d], Child(c, i));
      NobodyWaits(w, s, d, Child(c, i));
      assert false;
    }
  }

  lemma WaitingQueued(w: World, s: Sys, d: nat, c: Cell, p: nat)
    requires d < |s.pes| && Owes(s.pes[d], c, p) > 0
    ensures c in s.pes[d].pending
  {
  }

  lemma UnreadyHasChildren(w: World, d: nat, pe: PE, c: Cell)
    requires ValidWorld(w) && Core(w, d, pe) && c in pe.table && !Done(pe, c) && c.depth <= MAX_DEPTH
    requires !RemoteLeaf(w, d, c)
    ensures pe.table[c].nchild > 0
  {
    hide ValidWorld, RefinedAt, RemoteLeaf;
  }

  lemma OneLeaf(w: World, p: nat)
    requires ValidWorld(w)
    ensures LocalLeaf(w, p, ROOT) <==> |w.pieces| == 1 && w.pieces[0].home == p && !Refined(w, ROOT)
  {
    hide Lo, Hi, OwnerStart, OwnerEnd, AllFrom, LocalFrom;
    RootOwners(w);
    LocalTreeIsPruned(w, p, ROOT);
    if |w.pieces| == 1 { SingleOwnerHere(w, p, ROOT); }
  }

  // When nothing is left to do, every PE's root is ready, and every PE has
  // declared its tree ready exactly once -- except that nobody does so for the
  // home of a lone TreePiece whose tree is the unrefined root: its root is a
  // Bucket, and processSubmittedParticles looks for an Internal one.
  lemma QuietMeansReady(w: World, run: seq<Sys>, p: nat)
    requires Run(w, run) && Quiet(run[|run| - 1]) && p < |run[0].pes|
    ensures ValidWorld(w) && |run[|run| - 1].pes| == |run[0].pes|
    ensures Done(run[|run| - 1].pes[p], ROOT)
    ensures run[|run| - 1].pes[p].readyFired == 1
       <==> !(|w.pieces| == 1 && w.pieces[0].home == p && !Refined(w, ROOT))
  {
    hide ValidWorld, Inv, Refined, LocalLeaf, Done, Quiet, Next, Init;
    var s := run[|run| - 1];
    RunKeeps(w, run, |run| - 1);
    InvWorld(w, s);
    OneLeaf(w, p);
    QuietBuilt(s, p);
    BuiltSettled(w, s, p);
    InTable(w, p, s.pes[p], ROOT);
    NobodyWaits(w, s, p, ROOT);
    FiredExactly(w, p, s.pes[p]);
  }

  lemma QuietBuilt(s: Sys, p: nat)
    requires Quiet(s) && p < |s.pes|
    ensures s.pes[p].built
  {
  }

  lemma FiredExactly(w: World, p: nat, pe: PE)
    requires ValidWorld(w) && Settled(w, p, pe)
    ensures pe.readyFired == if Done(pe, ROOT) && !LocalLeaf(w, p, ROOT) then 1 else 0
  {
  }

  // ---------------- every run has the same length ----------------

  // The remote leaves PE p will ask for.
  ghost function Served(w: World, p: nat): (r: set<Cell>)
    requires ValidWorld(w)
    ensures forall c :: c in r <==> RemoteServed(w, p, c)
  {
    assert ValidCell(ROOT);
    forall c | RemoteServed(w, p, c) ensures c in BuiltSet(w, p, ROOT) { BuiltInSet(w, p, c); }
    set c | c in BuiltSet(w, p, ROOT) && RemoteServed(w, p, c)
  }

  // What PE p still costs: its build, and two deliveries for each remote leaf.
  ghost function Unanswered(w: World, s: Sys, p: nat): set<Cell>
    requires ValidWorld(w) && p < |s.pes|
  {
    set c | c in s.pes[p].unfilled && RemoteServed(w, p, c) && Ask(w, p, c) in s.net
  }

  ghost function Cost(w: World, s: Sys, p: nat): nat
    requires ValidWorld(w) && p < |s.pes|
  {
    if !s.pes[p].built then 1 + 2 * |Served(w, p)| else |s.pes[p].unfilled| + |Unanswered(w, s, p)|
  }

  ghost function Potential(w: World, s: Sys, n: nat): nat
    requires ValidWorld(w) && n <= |s.pes|
  {
    if n == 0 then 0 else Potential(w, s, n - 1) + Cost(w, s, n - 1)
  }

  lemma {:induction false} PotentialDrops(w: World, s: Sys, s': Sys, n: nat, p: nat)
    requires ValidWorld(w) && |s'.pes| == |s.pes| && n <= |s.pes| && p < |s.pes|
    requires Cost(w, s', p) + 1 == Cost(w, s, p)
    requires forall q: nat :: q < |s.pes| && q != p ==> Cost(w, s', q) == Cost(w, s, q)
    ensures Potential(w, s', n) + (if p < n then 1 else 0) == Potential(w, s, n)
  {
    hide ValidWorld, Cost;
    if n > 0 { PotentialDrops(w, s, s', n - 1, p); }
  }

  lemma CostSame(w: World, s: Sys, s': Sys, q: nat)
    requires ValidWorld(w) && |s'.pes| == |s.pes| && q < |s.pes|
    requires s'.pes[q].built == s.pes[q].built && s'.pes[q].unfilled == s.pes[q].unfilled
    requires forall c: Cell :: RemoteServed(w, q, c) ==> s'.net[Ask(w, q, c)] == s.net[Ask(w, q, c)]
    ensures Cost(w, s', q) == Cost(w, s, q)
  {
    hide ValidWorld, RemoteServed, Server;
    assert Unanswered(w, s', q) == Unanswered(w, s, q);
  }

  lemma BuildCosts(w: World, s: Sys, p: nat, t: map<Cell, Node>, leaves: seq<Cell>, keys: seq<Cell>, s': Sys)
    requires Inv(w, s) && BuildStep(w, s, p, t, leaves, keys, s')
    ensures |s'.pes| == |s.pes| && Potential(w, s', |s.pes|) + 1 == Potential(w, s, |s.pes|)
  {
    hide ValidWorld, Inv, RemoteServed, Server, TableInit, LeavesOf, Finish, StartPE, Unserved;
    InvWorld(w, s);
    BuildKeeps(w, s, p, t, leaves, keys, s');
    forall c | RemoteServed(w, p, c) ensures Ask(w, p, c) in s'.net {
      assert s'.net[Ask(w, p, c)] > 0;
    }
    assert s'.pes[p].unfilled == Served(w, p) == Unanswered(w, s', p);
    forall q: nat | q < |s.pes| && q != p ensures Cost(w, s', q) == Cost(w, s, q) {
      CostSame(w, s, s', q);
    }
    PotentialDrops(w, s, s', |s.pes|, p);
  }

  lemma RequestCosts(w: World, s: Sys, d: nat, c: Cell, r: nat, s': Sys)
    requires Inv(w, s) && DeliverStep(s, MomentsRequest(d, c, r), s')
    ensures |s'.pes| == |s.pes| && Potential(w, s', |s.pes|) + 1 == Potential(w, s, |s.pes|)
  {
    hide ValidWorld, Inv, RemoteServed, Server, OnRequest;
    InvWorld(w, s);
    RequestStepKeeps(w, s, d, c, r, s');
    RequesterBuilt(w, s, MomentsRequest(d, c, r));
    assert Unanswered(w, s', r) == Unanswered(w, s, r) - {c};
    forall q: nat | q < |s.pes| && q != r ensures Cost(w, s', q) == Cost(w, s, q) {
      CostSame(w, s, s', q);
    }
    PotentialDrops(w, s, s', |s.pes|, r);
  }

  lemma RequesterBuilt(w: World, s: Sys, m: Msg)
    requires Inv(w, s) && m in s.net && m.MomentsRequest?
    ensures m.replyTo < |s.pes| && s.pes[m.replyTo].built
  {
    hide ValidWorld, RemoteServed, Server;
    assert MsgOk(w, s, m);
  }

  lemma ReplyCosts(w: World, s: Sys, m: Msg, s': Sys)
    requires Inv(w, s) && DeliverStep(s, m, s') && m.MomentsReply?
    ensures |s'.pes| == |s.pes| && Potential(w, s', |s.pes|) + 1 == Potential(w, s, |s.pes|)
  {
    hide ValidWorld, Inv, RemoteServed, Server, OnReply;
    InvWorld(w, s);
    var d := m.dest;
    ReplyStepKeeps(w, s, m, s');
    NotAskedTwice(w, s, m);
    assert Unanswered(w, s', d) == Unanswered(w, s, d);
    forall q: nat | q < |s.pes| && q != d ensures Cost(w, s', q) == Cost(w, s, q) {
      CostSame(w, s, s', q);
    }
    PotentialDrops(w, s, s', |s.pes|, d);
  }

  lemma NotAskedTwice(w: World, s: Sys, m: Msg)
    requires Inv(w, s) && m in s.net && m.MomentsReply?
    ensures m.dest < |s.pes| && m.cell !in Unanswered(w, s, m.dest)
  {
    hide ValidWorld, RemoteServed, Server, FinalKind, NodeMass, PEOk;
    ReplyNeeded(w, s, m);
    assert Tokens(w, s, m.dest, m.cell) <= 1;
  }

  lemma StepCosts(w: World, s: Sys, s': Sys)
    requires Inv(w, s) && Next(w, s, s')
    ensures |s'.pes| == |s.pes| && Potential(w, s', |s.pes|) + 1 == Potential(w, s, |s.pes|)
  {
    hide ValidWorld, Inv, BuildStep, DeliverStep, Potential;
    InvWorld(w, s);
    if exists p, t, leaves, keys :: BuildStep(w, s, p, t, leaves, keys, s') {
      var p, t, leaves, keys :| BuildStep(w, s, p, t, leaves, keys, s');
      BuildCosts(w, s, p, t, leaves, keys, s');
    } else {
      var m :| DeliverStep(s, m, s');
      match m {
        case MomentsRequest(d, c, r) => RequestCosts(w, s, d, c, r, s');
        case MomentsReply(_, _, _, _) => ReplyCosts(w, s, m, s');
      }
    }
  }

  ghost function Work(w: World, n: nat): nat
    requires ValidWorld(w)
  {
    if n == 0 then 0 else Work(w, n - 1) + 1 + 2 * |Served(w, n - 1)|
  }

  lemma {:induction false} InitialWork(w: World, s: Sys, n: nat)
    requires Init(w, s) && n <= |s.pes|
    ensures Potential(w, s, n) == Work(w, n)
  {
    if n > 0 { InitialWork(w, s, n - 1); }
  }

  // Every run ends, whatever order builds and messages come in: after one step
  // for each PE and two for each remote leaf somebody can answer for, no step
  // is possible, and never before that.
  lemma {:induction false} RunLength(w: World, run: seq<Sys>, i: nat)
    requires Run(w, run) && i < |run|
    ensures ValidWorld(w) && |run[i].pes| == |run[0].pes|
    ensures i + Potential(w, run[i], |run[i].pes|) == Work(w, |run[0].pes|)
  {
    hide ValidWorld, Inv, Init, Next, Potential, Work;
    RunKeeps(w, run, i);
    InvWorld(w, run[i]);
    if i == 0 {
      InitialWork(w, run[0], |run[0].pes|);
    } else {
      RunLength(w, run, i - 1);
      RunKeeps(w, run, i - 1);
      StepCosts(w, run[i - 1], run[i]);
    }
  }

  // ---------------- some step is always possible ----------------

  lemma Enumerate(s: set<Cell>) returns (q: seq<Cell>)
    ensures Distinct(q) && forall x :: x in q <==> x in s
  {
    if s == {} {
      q := [];
    } else {
      var x :| x in s;
      var rest := Enumerate(s - {x});
      q := [x] + rest;
      DistinctConcat([x], rest);
    }
  }

  ghost function InitValue(w: World, p: nat, c: Cell): (n: Node)
    requires ValidWorld(w) && c.depth <= MAX_DEPTH
    ensures InitNode(w, p, c, n)
  {
    Node(if RemoteLeaf(w, p, c) then Remote else FinalKind(w, p, c),
         if Owned(w, c) then OwnerStart(w, c) else -69, if Owned(w, c) then OwnerEnd(w, c) else -69, 0, 0,
         if RefinedAt(w, p, c) then BRANCH else 0,
         if RefinedAt(w, p, c) && c.depth < MAX_DEPTH then CountLocal(w, p, c, BRANCH) else 0,
         if LocallyDone(w, p, c) then NodeMass(w, c) else 0.0)
  }

  ghost function InitTable(w: World, p: nat): (t: map<Cell, Node>)
    requires ValidWorld(w) && ValidCell(ROOT)
  {
    map c | c in BuiltSet(w, p, ROOT) && c.depth <= MAX_DEPTH :: InitValue(w, p, c)
  }

  lemma InitTableKeys(w: World, p: nat, c: Cell)
    requires ValidWorld(w) && ValidCell(ROOT)
    ensures c in InitTable(w, p) <==> Built(w, p, c)
  {
    hide ValidWorld, RefinedAt, BuiltSet, InitValue;
    if Built(w, p, c) { BuiltInSet(w, p, c); BuiltValid(w, p, c); }
    if c in BuiltSet(w, p, ROOT) { BuiltSetBuilt(w, p, ROOT, c); }
  }

  lemma InitTableNode(w: World, p: nat, c: Cell)
    requires ValidWorld(w) && ValidCell(ROOT) && c in InitTable(w, p)
    ensures c.depth <= MAX_DEPTH && InitTable(w, p)[c] == InitValue(w, p, c) && InitNode(w, p, c, InitTable(w, p)[c])
    ensures InitTable(w, p)[c].nchild == if RefinedAt(w, p, c) then BRANCH else 0
  {
    hide ValidWorld, RefinedAt, BuiltSet;
  }

  lemma InitTableOk(w: World, p: nat)
    requires ValidWorld(w)
    ensures ValidCell(ROOT) && TableInit(w, p, InitTable(w, p))
  {
    hide RefinedAt, BuiltSet, InitNode, InitTable;
    assert ValidCell(ROOT);
    var t := InitTable(w, p);
    forall c ensures c in t <==> Built(w, p, c) { InitTableKeys(w, p, c); }
    forall c | c in t
      ensures c.depth <= MAX_DEPTH && InitNode(w, p, c, t[c]) && t[c].nchild == if RefinedAt(w, p, c) then BRANCH else 0
    {
      InitTableNode(w, p, c);
    }
    forall c, i: nat | c in t && t[c].nchild > 0 && i < BRANCH ensures Child(c, i) in t {
      ChildParent(c, i);
      BuiltValid(w, p, c);
      RefinedAtHasRoom(w, p, c);
    }
  }

  lemma SomeStep(w: World, s: Sys)
    requires Inv(w, s) && !Quiet(s)
    ensures exists s' :: Next(w, s, s')
  {
    hide ValidWorld, Inv, BuildStep, TableInit, LeavesOf, Next;
    InvWorld(w, s);
    if p: nat :| p < |s.pes| && !s.pes[p].built {
      BuildPossible(w, s, p);
    } else {
      var m :| m in s.net;
      DeliverPossible(w, s, m);
    }
  }

  lemma DeliverPossible(w: World, s: Sys, m: Msg)
    requires Inv(w, s) && m in s.net
    ensures exists s' :: Next(w, s, s')
  {
    hide ValidWorld, RemoteServed, Server, Tokens, PEOk, AsksOk, Next, Exact;
    assert MsgOk(w, s, m);
    if m.MomentsRequest? { ServerInRange(w, s, m.replyTo, m.cell); }
    OpenClosed(w, s, m.dest);
    DeliverStands(w, s, m);
  }

  lemma DeliverStands(w: World, s: Sys, m: Msg)
    requires ValidWorld(w) && m in s.net && m.dest < |s.pes|
    requires s.pes[m.dest].built ==> Closed(s.pes[m.dest].table)
    ensures exists s' :: Next(w, s, s')
  {
    hide ValidWorld, OnRequest, OnReply, Closed, BuildStep;
    var r := match m
             case MomentsRequest(d, c, from) => OnRequest(s.pes[d], c, from)
             case MomentsReply(d, c, kind, mass) => OnReply(s.pes[d], c, kind, mass);
    var s' := Sys(s.pes[m.dest := r.0], s.net - multiset{m} + multiset(r.1));
    assert DeliverStep(s, m, s');
    assert Next(w, s, s');
  }

  lemma OpenClosed(w: World, s: Sys, p: nat)
    requires Inv(w, s) && p < |s.pes|
    ensures s.pes[p].built ==> Closed(s.pes[p].table)
  {
    assert PEOk(w, p, s.pes[p]);
  }

  lemma LeavesExist(w: World, p: nat) returns (leaves: seq<Cell>)
    requires ValidWorld(w)
    ensures LeavesOf(w, p, leaves)
    ensures forall c :: c in leaves ==> c.depth <= MAX_DEPTH && Owned(w, c)
    ensures ValidCell(ROOT) && forall c :: c in Unserved(w, p, leaves) ==> c in InitTable(w, p)
  {
    hide ValidWorld, Built, BuiltSet, InitTable, InitNode, Owned, RemoteLeaf, ServingOwner;
    assert ValidCell(ROOT);
    var t := InitTable(w, p);
    forall c ensures c in t <==> Built(w, p, c) { InitTableKeys(w, p, c); }
    leaves := Enumerate(set c | c in t && c.depth <= MAX_DEPTH && RemoteLeaf(w, p, c));
    forall c | c in leaves ensures c.depth <= MAX_DEPTH && Owned(w, c) { RemoteLeafOwned(w, p, c); }
  }

  lemma BuildPossible(w: World, s: Sys, p: nat)
    requires ValidWorld(w) && p < |s.pes| && !s.pes[p].built
    ensures exists s' :: Next(w, s, s')
  {
    hide ValidWorld, Finish, Built, BuiltSet, InitTable, LeavesOf, Owned, ServingOwner, Asked, Unserved, TableInit;
    InitTableOk(w, p);
    var t := InitTable(w, p);
    var leaves := LeavesExist(w, p);
    var keys := Enumerate(s.pes[p].pending.Keys);
    TableClosed(w, p, t);
    var r := Finish(StartPE(w, p, s.pes[p], t), Unserved(w, p, leaves), keys);
    var s' := Sys(s.pes[p := r.0], s.net + multiset(Asked(w, p, leaves)) + multiset(r.1));
    assert BuildStep(w, s, p, t, leaves, keys, s');
    assert Next(w, s, s');
  }

  lemma TableClosed(w: World, p: nat, t: map<Cell, Node>)
    requires ValidWorld(w) && TableInit(w, p, t)
    ensures Closed(t)
  {
  }
}
