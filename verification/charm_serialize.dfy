// Sending a subtree in one buffer: children blocks at relative offsets, cut at a
// depth, counted beforehand by a separate walk, and wired up again where it
// arrives.
module Serialization {
  import opened TreeKeys
  import opened TreeBuild
  import opened NodeFacts
  import opened GravityWalks
  import opened GroupWalks
  import opened Subtrees

  // A node in the buffer.  In flight, children and parent are distances from the
  // node itself; once unpacked they are positions in the buffer, and parent is
  // OUTSIDE for the children of the node the subtree hangs from.
  datatype Slot = Slot(cell: Cell, kind: NodeType, nchild: nat, children: int, parent: int, filled: bool, cached: bool)

  const OUTSIDE := -1

  // ---------------- how many nodes ----------------

  function SizeFrom(t: Tree, x: Cell, k: nat, i: nat): nat
    requires Linked(t) && x in t && t[x].nchild > 0 && k > 0 && i <= BRANCH
    decreases k, BRANCH - i
  {
    if i == BRANCH then 0 else CutSize(t, Child(x, i), k - 1) + SizeFrom(t, x, k, i + 1)
  }

  // The nodes at most k levels below x.
  function CutSize(t: Tree, x: Cell, k: nat): nat
    requires Linked(t) && x in t
    decreases k, BRANCH + 1
  {
    if k == 0 || t[x].nchild == 0 then 0 else BRANCH + SizeFrom(t, x, k, 0)
  }

  // Where the block of child i's own children starts, from the start of x's.
  function Offset(t: Tree, x: Cell, k: nat, i: nat): nat
    requires Linked(t) && x in t && t[x].nchild > 0 && k > 0 && i <= BRANCH
  {
    if i == 0 then BRANCH else Offset(t, x, k, i - 1) + CutSize(t, Child(x, i - 1), k - 1)
  }

  lemma {:induction false} OffsetsFill(t: Tree, x: Cell, k: nat, i: nat)
    requires Linked(t) && x in t && t[x].nchild > 0 && k > 0 && i <= BRANCH
    ensures CutSize(t, x, k) == Offset(t, x, k, i) + SizeFrom(t, x, k, i) && Offset(t, x, k, i) >= BRANCH
    decreases i
  {
    hide CutSize, Linked;
    if i == 0 {
      OffsetStart(t, x, k);
    } else {
      OffsetsFill(t, x, k, i - 1);
      KidLinked(t, x);
    }
  }

  lemma OffsetStart(t: Tree, x: Cell, k: nat)
    requires Linked(t) && x in t && t[x].nchild > 0 && k > 0
    ensures CutSize(t, x, k) == BRANCH + SizeFrom(t, x, k, 0)
  {
    hide Linked;
  }

  // ---------------- TreeSizeWorker ----------------

  // The nodes below y not yet counted when y itself has been worked on.
  ghost function Uncounted(t: Tree, y: Cell, k: nat): nat
    requires Linked(t) && y in t && t[y].nchild > 0 && k > 0
  {
    SizeFrom(t, y, k, 0)
  }

  ghost predicate Pending(t: Tree, x: Cell, k: nat, stk: seq<Cell>) {
    forall i :: 0 <= i < |stk| ==> stk[i] in t && t[stk[i]].nchild > 0 && x.depth <= stk[i].depth < x.depth + k
  }

  ghost function StillToCount(t: Tree, x: Cell, k: nat, stk: seq<Cell>): nat
    requires Linked(t) && Pending(t, x, k, stk)
  {
    if stk == [] then 0
    else
      var y := stk[|stk| - 1];
      Uncounted(t, y, x.depth + k - y.depth) + StillToCount(t, x, k, stk[..|stk| - 1])
  }

  ghost function Weight(t: Tree, stk: seq<Cell>): nat
    requires Linked(t) && forall i :: 0 <= i < |stk| ==> stk[i] in t
  {
    if stk == [] then 0 else Size(t, stk[|stk| - 1]) + Weight(t, stk[..|stk| - 1])
  }

  // TreeSizeWorker::work
  function Adds(t: Tree, y: Cell, cutoff: nat): nat
    requires y in t
  {
    if y.depth + 1 <= cutoff then t[y].nchild else 0
  }

  lemma {:induction false} PushCounts(t: Tree, x: Cell, k: nat, stk: seq<Cell>, y: Cell)
    requires Linked(t) && Pending(t, x, k, stk) && y in t && t[y].nchild > 0 && x.depth <= y.depth < x.depth + k
    ensures Pending(t, x, k, stk + [y])
    ensures StillToCount(t, x, k, stk + [y]) == StillToCount(t, x, k, stk) + Uncounted(t, y, x.depth + k - y.depth)
    ensures Weight(t, stk + [y]) == Weight(t, stk) + Size(t, y)
  {
    hide Linked, Uncounted, Size;
    assert (stk + [y])[..|stk|] == stk;
  }

  ghost function CountOf(t: Tree, x: Cell, k: nat, kept: seq<Cell>, i: nat): nat
    requires Linked(t) && Pending(t, x, k, kept) && i <= |kept|
    decreases |kept| - i
  {
    if i == |kept| then 0 else Uncounted(t, kept[i], x.depth + k - kept[i].depth) + CountOf(t, x, k, kept, i + 1)
  }

  ghost function WeightOf(t: Tree, kept: seq<Cell>, i: nat): nat
    requires Linked(t) && (forall j :: 0 <= j < |kept| ==> kept[j] in t) && i <= |kept|
    decreases |kept| - i
  {
    if i == |kept| then 0 else Size(t, kept[i]) + WeightOf(t, kept, i + 1)
  }

  lemma {:induction false} KeptSnoc(t: Tree, x: Cell, k: nat, kept: seq<Cell>, y: Cell, i: nat)
    requires Linked(t) && Pending(t, x, k, kept) && y in t && t[y].nchild > 0 && x.depth <= y.depth < x.depth + k
    requires i <= |kept|
    ensures Pending(t, x, k, kept + [y])
    ensures CountOf(t, x, k, kept + [y], i) == CountOf(t, x, k, kept, i) + Uncounted(t, y, x.depth + k - y.depth)
    ensures WeightOf(t, kept + [y], i) == WeightOf(t, kept, i) + Size(t, y)
    decreases |kept| - i
  {
    hide Linked, Uncounted, Size;
    if i < |kept| {
      KeptSnoc(t, x, k, kept, y, i + 1);
    } else {
      assert CountOf(t, x, k, kept + [y], i + 1) == 0 && WeightOf(t, kept + [y], i + 1) == 0;
    }
  }

  // One child: what work adds and, if it is kept, what is still to come.
  lemma ChildCounts(t: Tree, x: Cell, k: nat, y: Cell, i: nat)
    requires Linked(t) && y in t && t[y].nchild > 0 && x.depth <= y.depth < x.depth + k && i < BRANCH
    ensures Child(y, i) in t
    ensures var c, left := Child(y, i), x.depth + k - y.depth;
            && SizeFrom(t, y, left, i) == CutSize(t, c, left - 1) + SizeFrom(t, y, left, i + 1)
            && CutSize(t, c, left - 1)
               == Adds(t, c, x.depth + k) + (if c.depth + 1
                   <= x.depth + k && t[c].nchild > 0 then Uncounted(t, c, left - 1) else 0)
  {
    hide Linked;
    KidLinked(t, y);
    if t[Child(y, i)].nchild > 0 { NchildsAre(t, Child(y, i)); }
  }

  // Works on every child of y, returning those to expand.
  method CountChildren(t: Tree, x: Cell, k: nat, y: Cell, numNodes0: nat) returns (numNodes: nat, kept: seq<Cell>)
    requires Linked(t) && y in t && t[y].nchild > 0 && x.depth <= y.depth < x.depth + k
    ensures Pending(t, x, k, kept)
    ensures numNodes + CountOf(t, x, k, kept, 0) == numNodes0 + Uncounted(t, y, x.depth + k - y.depth)
    ensures WeightOf(t, kept, 0) < Size(t, y)
  {
    hide Linked, CutSize, Size, Child;
    KidLinked(t, y);
    numNodes, kept := numNodes0, [];
    var i := 0;
    SizeHolds(t, y);
    while i < t[y].nchild
      invariant i <= BRANCH && Pending(t, x, k, kept)
      invariant numNodes + CountOf(t, x, k, kept, 0) + SizeFrom(t, y, x.depth + k - y.depth, i)
             == numNodes0 + Uncounted(t, y, x.depth + k - y.depth)
      invariant WeightOf(t, kept, 0) + GroupWalks.SizeFrom(t, y, i) < Size(t, y)
    {
      var c := Child(y, i);
      ChildCounts(t, x, k, y, i);
      if c.depth + 1 <= x.depth + k {
        numNodes := numNodes + t[c].nchild;
        if t[c].nchild > 0 {
          KeptSnoc(t, x, k, kept, c, 0);
          kept := kept + [c];
        }
      }
      i := i + 1;
    }
  }

  lemma SizeHolds(t: Tree, y: Cell)
    requires Linked(t) && y in t && t[y].nchild > 0
    ensures GroupWalks.SizeFrom(t, y, 0) < Size(t, y)
  {
    hide Linked;
  }

  // topDownTraversal_local with TreeSizeWorker: the count it gives is the number
  // of nodes the buffer will hold.
  method TreeSize(t: Tree, x: Cell, k: nat) returns (numNodes: nat)
    requires Linked(t) && x in t
    ensures numNodes == CutSize(t, x, k)
  {
    hide Linked, Uncounted, Size;
    numNodes := Adds(t, x, x.depth + k);
    if !(x.depth + 1 <= x.depth + k) || t[x].nchild == 0 {
      return;
    }
    OffsetsFill(t, x, k, 0);
    var stk := [x];
    PushCounts(t, x, k, [], x);
    assert [] + [x] == [x];
    StartCount(t, x, k);
    while stk != []
      invariant Pending(t, x, k, stk)
      invariant numNodes + StillToCount(t, x, k, stk) == CutSize(t, x, k)
      decreases Weight(t, stk)
    {
      var y := stk[|stk| - 1];
      var kept;
      numNodes, kept := CountChildren(t, x, k, y, numNodes);
      stk := stk[..|stk| - 1];
      stk := PushKept(t, x, k, stk, kept);
    }
  }

  lemma StartCount(t: Tree, x: Cell, k: nat)
    requires Linked(t) && x in t && t[x].nchild > 0 && k > 0
    ensures CutSize(t, x, k) == Adds(t, x, x.depth + k) + Uncounted(t, x, k)
  {
    hide Linked;
    NchildsAre(t, x);
  }

  lemma NchildsAre(t: Tree, x: Cell)
    requires Linked(t) && x in t && t[x].nchild > 0
    ensures t[x].nchild == BRANCH
  {
  }

  method PushKept(t: Tree, x: Cell, k: nat, stk0: seq<Cell>, kept: seq<Cell>) returns (stk: seq<Cell>)
    requires Linked(t) && Pending(t, x, k, stk0) && Pending(t, x, k, kept)
    ensures Pending(t, x, k, stk)
    ensures StillToCount(t, x, k, stk) == StillToCount(t, x, k, stk0) + CountOf(t, x, k, kept, 0)
    ensures Weight(t, stk) == Weight(t, stk0) + WeightOf(t, kept, 0)
  {
    hide Linked, Uncounted, Size;
    stk := stk0;
    var i := |kept|;
    while i > 0
      invariant 0 <= i <= |kept| && Pending(t, x, k, stk)
      invariant StillToCount(t, x, k, stk) == StillToCount(t, x, k, stk0) + CountOf(t, x, k, kept, i)
      invariant Weight(t, stk) == Weight(t, stk0) + WeightOf(t, kept, i)
    {
      i := i - 1;
      PushCounts(t, x, k, stk, kept[i]);
      stk := stk + [kept[i]];
    }
  }

  // ---------------- serialize ----------------

  // The buffer from P on holds the nodes below x, k levels of them, each block of
  // children where its node says it is.
  ghost predicate Wired(buf: seq<Slot>, t: Tree, x: Cell, k: nat, P: nat, place: int)
    requires Linked(t) && x in t
    decreases k
  {
    k == 0 || t[x].nchild == 0 ||
    (P + BRANCH <= |buf| && forall i: nat :: i < BRANCH ==> ChildWired(buf, t, x, k, P, place, i))
  }

  ghost predicate ChildWired(buf: seq<Slot>, t: Tree, x: Cell, k: nat, P: nat, place: int, i: nat)
    requires Linked(t) && x in t && k > 0 && t[x].nchild > 0 && P + BRANCH <= |buf| && i < BRANCH
    decreases k, 0
  {
    var c, q := Child(x, i), buf[P + i];
    && q.cell == c && q.kind == t[c].kind
    && q.nchild == (if k == 1 then 0 else t[c].nchild)
    && q.children == P + Offset(t, x, k, i) - (P + i)
    && (place >= 0 ==> q.parent == place - (P + i))
    && Wired(buf, t, c, k - 1, P + Offset(t, x, k, i), P + i)
  }

  lemma {:induction false} WiredFrame(a: seq<Slot>, b: seq<Slot>, t: Tree, x: Cell, k: nat, P: nat, place: int)
    requires Linked(t) && x in t && |a| == |b| && Wired(a, t, x, k, P, place)
    requires forall q :: P <= q < P + CutSize(t, x, k) && q < |a| ==> b[q] == a[q]
    ensures Wired(b, t, x, k, P, place)
    decreases k
  {
    hide Linked, CutSize, Offset, Child;
    if k > 0 && t[x].nchild > 0 {
      KidLinked(t, x);
      forall i: nat | i < BRANCH ensures ChildWired(b, t, x, k, P, place, i) {
        ChildBlock(t, x, k, i);
        assert ChildWired(a, t, x, k, P, place, i);
        WiredFrame(a, b, t, Child(x, i), k - 1, P + Offset(t, x, k, i), P + i);
      }
    }
  }

  // Child i's block lies inside x's, after the children themselves.
  lemma ChildBlock(t: Tree, x: Cell, k: nat, i: nat)
    requires Linked(t) && x in t && t[x].nchild > 0 && k > 0 && i < BRANCH
    ensures Child(x, i) in t && BRANCH <= Offset(t, x, k, i)
    ensures Offset(t, x, k, i + 1) == Offset(t, x, k, i) + CutSize(t, Child(x, i), k - 1) <= CutSize(t, x, k)
  {
    hide Linked, CutSize, Child;
    KidLinked(t, x);
    OffsetsFill(t, x, k, i);
    OffsetsFill(t, x, k, i + 1);
  }

  // memcpy of the children, and their parents as distances.
  method CopyChildren(t: Tree, x: Cell, place: int, P: nat, buf: array<Slot>)
    requires Linked(t) && x in t && t[x].nchild > 0 && P + BRANCH <= buf.Length
    modifies buf
    ensures forall q :: 0 <= q < buf.Length && !(P <= q < P + BRANCH) ==> buf[q] == old(buf[q])
    ensures forall i: nat :: i < BRANCH ==>
              var c := Child(x, i);
              c in t && buf[P + i] == Slot(c, t[c].kind, t[c].nchild, 0, if place >= 0 then place - (P + i) else 0,
                    t[c].filled, false)
  {
    hide Linked, Child;
    KidLinked(t, x);
    var i := 0;
    while i < t[x].nchild
      invariant i <= BRANCH
      invariant forall q :: 0 <= q < buf.Length && !(P <= q < P + i) ==> buf[q] == old(buf[q])
      invariant forall j: nat :: j < i ==>
                  var c := Child(x, j);
                  c in t && buf[P + j] == Slot(c, t[c].kind, t[c].nchild, 0,
                        if place >= 0 then place - (P + j) else 0, t[c].filled, false)
    {
      var c := Child(x, i);
      buf[P + i] := Slot(c, t[c].kind, t[c].nchild, 0, if place >= 0 then place - (P + i) else 0, t[c].filled, false);
      i := i + 1;
    }
  }

  // Children 0..i-1 are done, the rest are as copied.
  ghost predicate HalfWired(buf: seq<Slot>, t: Tree, x: Cell, k: nat, P: nat, place: int, i: nat)
    requires Linked(t) && x in t && k > 0 && t[x].nchild > 0 && i <= BRANCH
  {
    && P + CutSize(t, x, k) <= |buf| && P + BRANCH <= |buf|
    && (forall j: nat :: j < i ==> ChildWired(buf, t, x, k, P, place, j))
    && (forall j: nat :: i <= j < BRANCH ==> CopiedSlot(buf, t, x, P, place, j))
  }

  ghost predicate CopiedSlot(buf: seq<Slot>, t: Tree, x: Cell, P: nat, place: int, j: nat)
    requires j < BRANCH && P + BRANCH <= |buf|
  {
    var c := Child(x, j);
    c in t
    && buf[P + j]
       == Slot(c, t[c].kind, t[c].nchild, 0, if place >= 0 then place - (P + j) else 0, t[c].filled, false)
  }

  // Serializing child i only touches its own slot and its own block.
  lemma OneMoreWired(a: seq<Slot>, b: seq<Slot>, t: Tree, x: Cell, k: nat, P: nat, place: int, i: nat)
    requires Linked(t) && x in t && k > 0 && t[x].nchild > 0 && i < BRANCH && |a| == |b|
    requires HalfWired(a, t, x, k, P, place, i) && Child(x, i) in t
    requires var c, E := Child(x, i), P + Offset(t, x, k, i);
             && Wired(b, t, c, k - 1, E, P + i)
             && b[P + i] == a[P + i].(children := E - (P + i), nchild := if k == 1 then 0 else t[c].nchild)
             && forall q :: 0 <= q < |a| && q != P + i && !(E <= q < E + CutSize(t, c, k - 1)) ==> b[q] == a[q]
    ensures HalfWired(b, t, x, k, P, place, i + 1)
  {
    hide Linked, CutSize, Offset, Child, Wired;
    KidLinked(t, x);
    ChildBlock(t, x, k, i);
    forall j: nat | j < i ensures ChildWired(b, t, x, k, P, place, j) {
      assert ChildWired(a, t, x, k, P, place, j);
      ChildBlock(t, x, k, j);
      OffsetsGrow(t, x, k, j + 1, i);
      WiredFrame(a, b, t, Child(x, j), k - 1, P + Offset(t, x, k, j), P + j);
    }
    forall j: nat | i + 1 <= j < BRANCH ensures CopiedSlot(b, t, x, P, place, j) {
      assert CopiedSlot(a, t, x, P, place, j);
    }
    assert CopiedSlot(a, t, x, P, place, i);
  }

  lemma {:induction false} OffsetsGrow(t: Tree, x: Cell, k: nat, j: nat, i: nat)
    requires Linked(t) && x in t && t[x].nchild > 0 && k > 0 && j <= i <= BRANCH
    ensures Offset(t, x, k, j) <= Offset(t, x, k, i)
    decreases i
  {
    hide Linked, CutSize, Child;
    if j < i { KidLinked(t, x); OffsetsGrow(t, x, k, j, i - 1); }
  }

  // What one call leaves behind.
  ghost predicate Serialized(a: seq<Slot>, b: seq<Slot>, t: Tree, x: Cell, place: int, empty: nat, k: nat)
    requires Linked(t) && x in t
  {
    && |a| == |b| && Wired(b, t, x, k, empty, place)
    && (0 <= place < |a| ==> b[place] == a[place].(children := empty - place, nchild := if k
        == 0 then 0 else t[x].nchild))
    && forall q :: 0 <= q < |a| && q != place && !(empty <= q < empty + CutSize(t, x, k)) ==> b[q] == a[q]
  }

  // serialize: the buffer is filled with exactly the nodes counted.
  method Serialize(t: Tree, x: Cell, place: int, empty: nat, k: nat, buf: array<Slot>) returns (empty': nat)
    requires Linked(t) && x in t && (place < 0 ==> k > 0)
    requires place < empty && empty + CutSize(t, x, k) <= buf.Length
    modifies buf
    ensures empty' == empty + CutSize(t, x, k)
    ensures Serialized(old(buf[..]), buf[..], t, x, place, empty, k)
    decreases k
  {
    hide Linked, Offset, Child, CutSize;
    CutSizeIs(t, x, k);
    ghost var old0 := buf[..];
    if place >= 0 {
      buf[place] := buf[place].(children := empty - place, nchild := if k == 0 then 0 else t[x].nchild);
    }
    if k == 0 || t[x].nchild == 0 {
      return empty;
    }
    KidLinked(t, x);
    ghost var start := buf[..];
    assert forall q :: 0 <= q < buf.Length && q != place ==> start[q] == old0[q];
    CopyChildren(t, x, place, empty, buf);
    ghost var copied := buf[..];
    empty' := empty + t[x].nchild;
    OffsetIsBranch(t, x, k);
    var i := 0;
    while i < t[x].nchild
      invariant i <= BRANCH && empty' == empty + Offset(t, x, k, i)
      invariant HalfWired(buf[..], t, x, k, empty, place, i)
      invariant |buf[..]| == |start|
      invariant forall q :: 0 <= q < buf.Length && !(empty <= q < empty + CutSize(t, x, k)) ==> buf[..][q] == start[q]
    {
      ghost var before := buf[..];
      ChildBlock(t, x, k, i);
      empty' := Serialize(t, Child(x, i), empty + i, empty', k - 1, buf);
      OneMoreWired(before, buf[..], t, x, k, empty, place, i);
      i := i + 1;
    }
    OffsetsFill(t, x, k, BRANCH);
    assert Wired(buf[..], t, x, k, empty, place);
    assert 0 <= place < buf.Length ==> buf[..][place] == start[place];
  }

  lemma CutSizeIs(t: Tree, x: Cell, k: nat)
    requires Linked(t) && x in t
    ensures k == 0 || t[x].nchild == 0 ==> CutSize(t, x, k) == 0
    ensures k > 0 && t[x].nchild > 0 ==> CutSize(t, x, k) >= BRANCH
  {
    hide Linked;
  }

  lemma OffsetIsBranch(t: Tree, x: Cell, k: nat)
    requires Linked(t) && x in t && t[x].nchild > 0 && k > 0
    ensures Offset(t, x, k, 0) == BRANCH
  {
  }

  // ---------------- deserialize ----------------

  function Unpacked(q: Slot, i: nat): Slot {
    q.(parent := if i < BRANCH then OUTSIDE else i + q.parent, children := i + q.children,
       kind := MakeRemote(q.kind), filled := false, cached := true)
  }

  method Deserialize(buf: array<Slot>, nn: nat)
    requires nn <= buf.Length
    modifies buf
    ensures forall i :: 0 <= i < nn ==> buf[i] == Unpacked(old(buf[i]), i)
    ensures forall i :: nn <= i < buf.Length ==> buf[i] == old(buf[i])
  {
    var i := 0;
    while i < nn
      invariant i <= nn
      invariant forall j :: 0 <= j < i ==> buf[j] == Unpacked(old(buf[j]), j)
      invariant forall j :: i <= j < buf.Length ==> buf[j] == old(buf[j])
    {
      var q := buf[i];
      if i < BRANCH {
        q := q.(parent := OUTSIDE);
      } else {
        q := q.(parent := i + q.parent);
      }
      q := q.(children := i + q.children);
      buf[i] := q.(filled := false, kind := MakeRemote(q.kind), cached := true);
      i := i + 1;
    }
  }

  // The subtree as it hangs below x where it arrived: positions instead of
  // distances, remote types.
  ghost predicate Rebuilt(mem: seq<Slot>, t: Tree, x: Cell, k: nat, P: nat, place: int)
    requires Linked(t) && x in t
    decreases k
  {
    k == 0 || t[x].nchild == 0 ||
    (P + CutSize(t, x, k) <= |mem| && P + BRANCH <= |mem|
     && forall i: nat :: i < BRANCH ==> ChildRebuilt(mem, t, x, k, P, place, i))
  }

  ghost predicate ChildRebuilt(mem: seq<Slot>, t: Tree, x: Cell, k: nat, P: nat, place: int, i: nat)
    requires Linked(t) && x in t && k > 0 && t[x].nchild > 0 && P + BRANCH <= |mem| && i < BRANCH
    decreases k, 0
  {
    var c := Child(x, i);
    && mem[P + i] == Slot(c, MakeRemote(t[c].kind), if k
        == 1 then 0 else t[c].nchild, P + Offset(t, x, k, i), place, false, true)
    && Rebuilt(mem, t, c, k - 1, P + Offset(t, x, k, i), P + i)
  }

  lemma {:induction false} UnpackingRebuilds(buf: seq<Slot>, mem: seq<Slot>, t: Tree, x: Cell, k: nat, P: nat,
                                             place: int)
    requires Linked(t) && x in t && Wired(buf, t, x, k, P, place) && |mem| == |buf| && P + CutSize(t, x, k) <= |mem|
    requires forall i :: P <= i < P + CutSize(t, x, k) ==> mem[i] == Unpacked(buf[i], i)
    requires if place < 0 then P == 0 && place == OUTSIDE else P >= BRANCH
    ensures Rebuilt(mem, t, x, k, P, place)
    decreases k
  {
    hide Linked, CutSize, Offset, Child;
    CutSizeIs(t, x, k);
    if k > 0 && t[x].nchild > 0 {
      KidLinked(t, x);
      forall i: nat | i < BRANCH ensures ChildRebuilt(mem, t, x, k, P, place, i) {
        assert ChildWired(buf, t, x, k, P, place, i);
        ChildBlock(t, x, k, i);
        UnpackingRebuilds(buf, mem, t, Child(x, i), k - 1, P + Offset(t, x, k, i), P + i);
      }
    }
  }

  // ---------------- what arrives is the cut tree ----------------

  // Slot q of the subtree below x: what it holds and where its links go.
  ghost predicate SlotRight(mem: seq<Slot>, t: Tree, x: Cell, k: nat, place: int, q: nat)
    requires q < |mem|
  {
    var y := mem[q].cell;
    && Within(y, x, k) && y in t
    && TNode(mem[q].kind, mem[q].nchild, mem[q].filled) == Sent(t[y], x.depth + k - y.depth)
    && (if Parent(y) == x then mem[q].parent == place
        else 0 <= mem[q].parent < |mem| && mem[mem[q].parent].cell == Parent(y))
    && (mem[q].nchild > 0 ==>
          forall j: nat :: j < BRANCH ==> ChildAt(mem, q, mem[q].children, j))
  }

  ghost predicate ChildAt(mem: seq<Slot>, q: nat, first: int, j: nat)
    requires q < |mem|
  {
    0 <= first + j < |mem| && mem[first + j].cell == Child(mem[q].cell, j) && mem[first + j].parent == q
  }

  lemma {:induction false} BlockOf(t: Tree, x: Cell, k: nat, d: nat, n: nat) returns (i: nat)
    requires Linked(t) && x in t && t[x].nchild > 0 && k > 0 && 0 < n <= BRANCH
    requires BRANCH <= d < Offset(t, x, k, n)
    ensures i < n && Offset(t, x, k, i) <= d < Offset(t, x, k, i + 1)
  {
    hide Linked, CutSize, Child;
    if n == 1 || d >= Offset(t, x, k, n - 1) {
      i := n - 1;
    } else {
      i := BlockOf(t, x, k, d, n - 1);
    }
  }

  lemma WithinChild(y: Cell, x: Cell, i: nat, k: nat)
    requires i < BRANCH && k > 0 && Within(y, Child(x, i), k - 1)
    ensures Within(y, x, k) && Parent(y) != x
  {
    ChildParent(x, i);
    UpOnce(y, y.depth - x.depth - 1);
    UpDepth(y, 1);
  }

  lemma {:induction false} UpOnce(y: Cell, n: nat)
    requires n < y.depth
    ensures Up(y, n).depth > 0 && Up(y, n + 1) == Parent(Up(y, n))
    decreases n
  {
    UpDepth(y, n);
    if n > 0 { UpOnce(Parent(y), n - 1); }
  }

  lemma {:induction false} UpDepth(y: Cell, n: nat)
    requires n <= y.depth
    ensures Up(y, n).depth == y.depth - n
    decreases n
  {
    if n > 0 { UpDepth(Parent(y), n - 1); }
  }

  lemma ChildIsWithin(x: Cell, i: nat, k: nat)
    requires i < BRANCH && k > 0
    ensures Within(Child(x, i), x, k) && Parent(Child(x, i)) == x
  {
    ChildParent(x, i);
    assert Up(Child(x, i), 1) == Up(x, 0);
  }

  lemma FirstRight(mem: seq<Slot>, t: Tree, x: Cell, k: nat, P: nat, place: int, i: nat)
    requires Linked(t) && x in t && k > 0 && t[x].nchild > 0 && Rebuilt(mem, t, x, k, P, place) && i < BRANCH
    ensures P + i < |mem| && SlotRight(mem, t, x, k, place, P + i)
  {
    hide Linked, CutSize, Offset, Child, Up;
    KidLinked(t, x);
    assert ChildRebuilt(mem, t, x, k, P, place, i);
    ChildIsWithin(x, i, k);
    var c := Child(x, i);
    if k > 1 && t[c].nchild > 0 {
      var E, q := P + Offset(t, x, k, i), P + i;
      assert Rebuilt(mem, t, c, k - 1, E, q);
      forall j: nat | j < BRANCH ensures ChildAt(mem, q, E, j) {
        assert ChildRebuilt(mem, t, c, k - 1, E, q, j);
      }
    }
  }

  lemma DeeperRight(mem: seq<Slot>, t: Tree, x: Cell, k: nat, P: nat, place: int, i: nat, q: nat)
    requires Linked(t) && x in t && k > 0 && t[x].nchild > 0 && i < BRANCH && Child(x, i) in t && q < |mem|
    requires Rebuilt(mem, t, x, k, P, place) && SlotRight(mem, t, Child(x, i), k - 1, P + i, q)
    ensures SlotRight(mem, t, x, k, place, q)
  {
    hide Linked, CutSize, Offset, Child, Up;
    assert ChildRebuilt(mem, t, x, k, P, place, i);
    WithinChild(mem[q].cell, x, i, k);
    ChildDepth(x, i);
    if Parent(mem[q].cell) == Child(x, i) { assert mem[q].parent == P + i; }
  }

  lemma ChildDepth(x: Cell, i: nat)
    ensures Child(x, i).depth == x.depth + 1
  {
  }

  lemma {:induction false} EverySlotRight(mem: seq<Slot>, t: Tree, x: Cell, k: nat, P: nat, place: int, q: nat)
    requires Linked(t) && x in t && Rebuilt(mem, t, x, k, P, place) && P <= q < P + CutSize(t, x, k)
    ensures q < |mem| && SlotRight(mem, t, x, k, place, q)
    decreases k
  {
    hide Linked, CutSize, Offset, Child, SlotRight;
    CutSizeIs(t, x, k);
    KidLinked(t, x);
    if q < P + BRANCH {
      FirstRight(mem, t, x, k, P, place, q - P);
    } else {
      OffsetsFill(t, x, k, BRANCH);
      LastOffset(t, x, k);
      var i := BlockOf(t, x, k, q - P, BRANCH);
      ChildBlock(t, x, k, i);
      assert ChildRebuilt(mem, t, x, k, P, place, i);
      EverySlotRight(mem, t, Child(x, i), k - 1, P + Offset(t, x, k, i), P + i, q);
      DeeperRight(mem, t, x, k, P, place, i, q);
    }
  }

  lemma LastOffset(t: Tree, x: Cell, k: nat)
    requires Linked(t) && x in t && t[x].nchild > 0 && k > 0
    ensures SizeFrom(t, x, k, BRANCH) == 0
  {
  }

  // Whatever is in the tree has its parent there, with children.
  ghost predicate Rooted(t: Tree) {
    forall c :: c in t && c != ROOT ==> c.depth > 0 && Parent(c) in t && t[Parent(c)].nchild > 0
  }

  lemma {:induction false} UpIn(t: Tree, y: Cell, n: nat)
    requires Rooted(t) && y in t && n <= y.depth
    ensures Up(y, n) in t && (0 < n ==> t[Up(y, n)].nchild > 0)
    decreases n
  {
    if n > 0 {
      UpIn(t, Parent(y), n - 1);
    }
  }

  // Every node of the cut has a slot.
  lemma {:induction false} SlotFor(mem: seq<Slot>, t: Tree, x: Cell, k: nat, P: nat, place: int, y: Cell)
    returns (q: nat)
    requires Linked(t) && Rooted(t) && x in t && Rebuilt(mem, t, x, k, P, place) && y in t && Within(y, x, k)
    ensures q < |mem| && P <= q < P + CutSize(t, x, k) && mem[q].cell == y
    decreases k
  {
    hide Linked, CutSize, Offset, Child, Parent, Rooted, Up;
    var n := y.depth - x.depth;
    UpIn(t, y, n);
    UpOnce(y, n - 1);
    var top := Up(y, n - 1);
    UpDepth(y, n - 1);
    var i := SlotNumber(top, x);
    KidLinked(t, x);
    assert ChildRebuilt(mem, t, x, k, P, place, i);
    ChildBlock(t, x, k, i);
    CutSizeIs(t, x, k);
    if n == 1 {
      UpSelf(y);
      q := P + i;
    } else {
      q := SlotFor(mem, t, top, k - 1, P + Offset(t, x, k, i), P + i, y);
    }
  }

  lemma UpSelf(y: Cell)
    ensures Up(y, 0) == y
  {
  }

  lemma SlotNumber(c: Cell, x: Cell) returns (i: nat)
    requires c.depth > 0 && Parent(c) == x
    ensures i < BRANCH && Child(x, i) == c
  {
    i := TreeKeys.Slot(c);
  }

  // The nodes received, by cell.
  function Received(mem: seq<Slot>): Tree {
    if mem == [] then map[]
    else
      var q := mem[|mem| - 1];
      Received(mem[..|mem| - 1])[q.cell := TNode(q.kind, q.nchild, q.filled)]
  }

  lemma {:induction false} ReceivedHas(mem: seq<Slot>, y: Cell)
    ensures y in Received(mem) <==> exists q :: 0 <= q < |mem| && mem[q].cell == y
    ensures y in Received(mem) ==>
              exists q :: 0 <= q < |mem| && mem[q].cell == y && Received(mem)[y]
                  == TNode(mem[q].kind, mem[q].nchild, mem[q].filled)
  {
    if mem != [] {
      var n := |mem| - 1;
      ReceivedHas(mem[..n], y);
      assert mem[n].cell == y || (forall q :: 0 <= q < n ==> mem[..n][q] == mem[q]);
      if mem[n].cell != y && y in Received(mem[..n]) {
        var q :| 0 <= q < |mem[..n]| && mem[..n][q].cell == y
              && Received(mem[..n])[y] == TNode(mem[..n][q].kind, mem[..n][q].nchild, mem[..n][q].filled);
        assert mem[q].cell == y;
      }
      if q :| 0 <= q < |mem| && mem[q].cell == y && q != n { assert mem[..n][q].cell == y; }
    }
  }

  lemma ReceivedIsCut(mem: seq<Slot>, t: Tree, x: Cell, k: nat)
    requires Linked(t) && Rooted(t) && x in t && Rebuilt(mem, t, x, k, 0, OUTSIDE) && |mem| == CutSize(t, x, k)
    ensures Received(mem) == Cut(t, x, k)
    ensures forall q: nat :: q < |mem| ==> SlotRight(mem, t, x, k, OUTSIDE, q)
  {
    hide Linked, CutSize, Rooted, Within, Rebuilt;
    forall q: nat | q < |mem| ensures SlotRight(mem, t, x, k, OUTSIDE, q) {
      EverySlotRight(mem, t, x, k, 0, OUTSIDE, q);
    }
    forall y ensures y in Received(mem) <==> y in Cut(t, x, k) {
      ReceivedHas(mem, y);
      if y in Received(mem) {
        var q: nat :| q < |mem| && mem[q].cell == y;
        assert SlotRight(mem, t, x, k, OUTSIDE, q);
      }
      if y in Cut(t, x, k) { var q := SlotFor(mem, t, x, k, 0, OUTSIDE, y); }
    }
    forall y | y in Cut(t, x, k) ensures Received(mem)[y] == Cut(t, x, k)[y] {
      ReceivedHas(mem, y);
      var q: nat :| q < |mem| && mem[q].cell == y && Received(mem)[y]
          == TNode(mem[q].kind, mem[q].nchild, mem[q].filled);
      assert SlotRight(mem, t, x, k, OUTSIDE, q);
    }
  }

  // requestNode's buffer, received and unpacked: exactly the cut tree with its
  // types mapped, every slot's parent and children where its links say, and as
  // many slots as the counting walk said.
  method Transfer(t: Tree, x: Cell, k: nat) returns (nmsg: array<Slot>, nn: nat)
    requires Linked(t) && Rooted(t) && x in t && k > 0
    ensures nn == nmsg.Length && Received(nmsg[..]) == Cut(t, x, k)
    ensures forall q: nat :: q < nn ==> SlotRight(nmsg[..], t, x, k, OUTSIDE, q)
  {
    hide Linked, CutSize, Rooted, Within, Rebuilt, Wired, SlotRight;
    nn := TreeSize(t, x, k);
    nmsg := new Slot[nn](_ => Slot(ROOT, Invalid, 0, 0, 0, false, false));
    var emptyBuf := Serialize(t, x, OUTSIDE, 0, k, nmsg);
    assert emptyBuf == nn;
    ghost var packed := nmsg[..];
    Deserialize(nmsg, nn);
    UnpackingRebuilds(packed, nmsg[..], t, x, k, 0, OUTSIDE);
    ReceivedIsCut(nmsg[..], t, x, k);
  }
}
