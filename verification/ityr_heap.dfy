// The binary min-heap of the k-way merges: one head per run, the least key on
// top and, of equal keys, the lowest run.
module MergeHeap {

  datatype Head = Head(key: nat, run: nat)

  predicate Le(a: Head, b: Head) {
    a.key < b.key || (a.key == b.key && a.run <= b.run)
  }

  function Par(c: nat): (p: nat)
    requires c > 0
    ensures p < c
  {
    (c - 1) / 2
  }

  ghost predicate Heap(h: seq<Head>) {
    forall c: nat :: 0 < c < |h| ==> Le(h[Par(c)], h[c])
  }

  lemma {:induction false} TopLeast(h: seq<Head>, i: nat)
    requires Heap(h) && i < |h|
    ensures Le(h[0], h[i])
    decreases i
  {
    if i > 0 { TopLeast(h, Par(i)); }
  }

  // A heap but for the entry at i, which may be less than its parent.
  ghost predicate UpTo(h: seq<Head>, i: nat) {
    && i < |h|
    && (forall c: nat :: 0 < c < |h| && c != i ==> Le(h[Par(c)], h[c]))
    && (i > 0 ==> forall c: nat :: 0 < c < |h| && Par(c) == i ==> Le(h[Par(i)], h[c]))
  }

  // ... which may be more than its children.
  ghost predicate DownFrom(h: seq<Head>, i: nat) {
    && i < |h|
    && (forall c: nat :: 0 < c < |h| && Par(c) != i ==> Le(h[Par(c)], h[c]))
    && (i > 0 ==> forall c: nat :: 0 < c < |h| && Par(c) == i ==> Le(h[Par(i)], h[c]))
  }

  lemma SwapUp(h: seq<Head>, i: nat)
    requires UpTo(h, i) && i > 0 && !Le(h[Par(i)], h[i])
    ensures UpTo(h[i := h[Par(i)]][Par(i) := h[i]], Par(i))
    ensures multiset(h[i := h[Par(i)]][Par(i) := h[i]]) == multiset(h)
  {
    hide Par;
  }

  lemma SwapDown(h: seq<Head>, i: nat, c: nat)
    requires DownFrom(h, i) && 0 < c < |h| && Par(c) == i && !Le(h[i], h[c])
    requires forall d: nat :: 0 < d < |h| && Par(d) == i ==> Le(h[c], h[d])
    ensures DownFrom(h[i := h[c]][c := h[i]], c)
    ensures multiset(h[i := h[c]][c := h[i]]) == multiset(h)
  {
    hide Par;
  }

  lemma Children(i: nat, c: nat)
    ensures c > 0 ==> (Par(c) == i <==> c == 2 * i + 1 || c == 2 * i + 2)
  {
  }

  class MinHeap {
    const h: array<Head>
    var hn: nat

    ghost predicate Valid()
      reads this, h
    {
      hn <= h.Length && Heap(h[..hn])
    }

    ghost function Contents(): multiset<Head>
      reads this, h
      requires hn <= h.Length
    {
      multiset(h[..hn])
    }

    constructor (capacity: nat)
      ensures Valid() && fresh(h) && h.Length == capacity && hn == 0 && Contents() == multiset{}
    {
      h := new Head[capacity](_ => Head(0, 0));
      hn := 0;
    }

    method Push(k: nat, r: nat)
      requires Valid() && hn < h.Length
      modifies this, h
      ensures Valid() && Contents() == old(Contents()) + multiset{Head(k, r)} && hn == old(hn) + 1
    {
      hide Le, Par, Heap, UpTo, Matches;
      var i := hn;
      hn := hn + 1;
      // v is the heap with the new head in the hole at i
      ghost var v := h[..i] + [Head(k, r)];
      StartUp(h[..i], h[..hn], v);
      while i > 0
        invariant 0 <= i < hn <= h.Length && hn == old(hn) + 1 && |v| == hn && UpTo(v, i) && v[i] == Head(k, r)
        invariant Matches(h[..hn], v, i)
        invariant multiset(v) == old(multiset(h[..hn])) + multiset{Head(k, r)}
      {
        var par := (i - 1) / 2;
        ParIs(i);
        MatchesAt(h[..hn], v, i, par);
        if Le(h[par], Head(k, r)) { break; }
        SwapUp(v, i);
        MatchesSwap(h[..hn], v, i, par);
        ghost var before := h[..hn];
        h[i] := h[par];
        assert h[..hn] == before[i := v[par]];
        v := v[i := v[par]][par := v[i]];
        i := par;
      }
      UpDone(v, i);
      Fill(h[..hn], v, i);
      ghost var before := h[..hn];
      h[i] := Head(k, r);
      assert h[..hn] == before[i := v[i]];
    }

    method Pop() returns (r: nat, ghost top: Head)
      requires Valid() && hn > 0
      modifies this, h
      ensures Valid() && top in old(Contents()) && r == top.run && hn == old(hn) - 1
      ensures forall x :: x in old(Contents()) ==> Le(top, x)
      ensures Contents() == old(Contents()) - multiset{top}
    {
      hide Le, Par;
      ghost var before := h[..hn];
      assert before[0] in before;
      top := h[0];
      AllAbove(before);
      r := h[0].run;
      hn := hn - 1;
      var last := h[hn];
      if hn > 0 {
        SiftDown(before, last);
      } else {
        h[0] := last;
        OneLeft(before);
      }
    }

    // The lesser child of i, if it has any (c == hn otherwise).
    method LesserChild(i: nat, ghost v: seq<Head>) returns (c: nat)
      requires i < hn == |v| <= h.Length && Matches(h[..hn], v, i)
      ensures i < c <= hn && (c < hn ==> Par(c) == i && forall d: nat :: 0 < d < hn && Par(d) == i ==> Le(v[c], v[d]))
      ensures c == hn ==> forall d: nat :: 0 < d < hn ==> Par(d) != i
    {
      hide Le, Par;
      c := 2 * i + 1;
      forall d: nat ensures d > 0 ==> (Par(d) == i <==> d == 2 * i + 1 || d == 2 * i + 2) { Children(i, d); }
      if c >= hn { return hn; }
      if c + 1 < hn && !Le(h[c], h[c + 1]) { c := c + 1; }
      LeastChild(v, i, c);
    }

    // Moves the hole down from the top until `last` fits.
    method SiftDown(ghost before: seq<Head>, last: Head)
      requires 0 < hn < h.Length && h[..hn + 1] == before && Heap(before) && last == before[hn]
      modifies h
      ensures Heap(h[..hn]) && multiset(h[..hn]) == multiset(before) - multiset{before[0]}
    {
      hide Le, Par, DownFrom, Heap, Matches;
      var i := 0;
      ghost var v := before[..hn][0 := last];
      StartDown(before, v);
      StartHole(h[..hn], v, last);
      var settled := false;
      while !settled
        invariant 0 <= i < hn && |v| == hn && DownFrom(v, i) && v[i] == last && Matches(h[..hn], v, i)
        invariant multiset(v) == multiset(before) - multiset{before[0]}
        invariant settled ==> Heap(v)
        decreases hn - i, !settled
      {
        var c := LesserChild(i, v);
        if c < hn { MatchesAt(h[..hn], v, i, c); }
        if c >= hn || Le(last, h[c]) {
          settled := true;
          Settled(v, i, c);
        } else {
          SwapDown(v, i, c);
          MatchesSwap(h[..hn], v, i, c);
          ghost var was := h[..hn];
          h[i] := h[c];
          assert h[..hn] == was[i := v[c]];
          v := v[i := v[c]][c := v[i]];
          i := c;
        }
      }
      Fill(h[..hn], v, i);
      ghost var was := h[..hn];
      h[i] := last;
      assert h[..hn] == was[i := v[i]];
    }
  }

  // The array agrees with v but for the hole at i.
  ghost predicate Matches(a: seq<Head>, v: seq<Head>, i: nat) {
    |a| == |v| && forall c :: 0 <= c < |a| && c != i ==> a[c] == v[c]
  }

  lemma MatchesAt(a: seq<Head>, v: seq<Head>, i: nat, c: nat)
    requires Matches(a, v, i) && c < |v| && c != i
    ensures |a| == |v| && a[c] == v[c]
  {
  }

  lemma MatchesSwap(a: seq<Head>, v: seq<Head>, i: nat, c: nat)
    requires Matches(a, v, i) && i < |v| && c < |v| && c != i
    ensures |a| == |v| && Matches(a[i := v[c]], v[i := v[c]][c := v[i]], c)
  {
  }

  lemma Fill(a: seq<Head>, v: seq<Head>, i: nat)
    requires Matches(a, v, i) && i < |v|
    ensures |a| == |v| && a[i := v[i]] == v
  {
  }

  lemma StartHole(a: seq<Head>, v: seq<Head>, last: Head)
    requires a != [] && v == a[0 := last]
    ensures Matches(a, v, 0)
  {
  }

  lemma StartUp(was: seq<Head>, a: seq<Head>, v: seq<Head>)
    requires Heap(was) && |a| == |v| == |was| + 1 && a[..|was|] == was == v[..|was|]
    ensures UpTo(v, |was|) && Matches(a, v, |was|)
  {
    hide Le, Par;
    var n := |was|;
    assert forall c :: 0 <= c < n ==> v[c] == v[..n][c] && v[..n][c] == was[c];
  }

  lemma UpDone(v: seq<Head>, i: nat)
    requires UpTo(v, i) && (i > 0 ==> Le(v[Par(i)], v[i]))
    ensures Heap(v)
  {
    hide Le, Par;
  }

  lemma ParIs(i: nat)
    requires i > 0
    ensures Par(i) == (i - 1) / 2
  {
  }

  lemma AllAbove(h: seq<Head>)
    requires Heap(h) && h != []
    ensures forall x :: x in h ==> Le(h[0], x)
  {
    hide Le, Heap;
    forall x | x in h ensures Le(h[0], x) {
      var i :| 0 <= i < |h| && h[i] == x;
      TopLeast(h, i);
    }
  }

  lemma OneLeft(h: seq<Head>)
    requires |h| == 1
    ensures multiset(h) - multiset{h[0]} == multiset{}
  {
    assert h == [h[0]];
  }

  lemma StartDown(before: seq<Head>, v: seq<Head>)
    requires Heap(before) && |before| > 1 && v == before[..|before| - 1][0 := before[|before| - 1]]
    ensures DownFrom(v, 0) && multiset(v) == multiset(before) - multiset{before[0]}
  {
    hide Le, Par;
    var n := |before| - 1;
    assert before == [before[0]] + before[1..n] + [before[n]];
    assert v == [before[n]] + before[1..n];
  }

  lemma LeastChild(v: seq<Head>, i: nat, c: nat)
    requires 0 < c < |v| && (c == 2 * i + 1 || c == 2 * i + 2)
    requires c == 2 * i + 1 ==> c + 1 >= |v| || Le(v[c], v[c + 1])
    requires c == 2 * i + 2 ==> !Le(v[c - 1], v[c])
    ensures Par(c) == i && forall d: nat :: 0 < d < |v| && Par(d) == i ==> Le(v[c], v[d])
  {
  }

  // The entry at i fits: it is no more than its lesser child c, or has none.
  lemma Settled(v: seq<Head>, i: nat, c: nat)
    requires DownFrom(v, i) && c <= |v|
    requires c == |v| ==> forall d: nat :: 0 < d < |v| ==> Par(d) != i
    requires c < |v| ==> Le(v[i], v[c]) && forall d: nat :: 0 < d < |v| && Par(d) == i ==> Le(v[c], v[d])
    ensures Heap(v)
  {
    hide Par;
  }
}
