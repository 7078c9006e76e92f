// The order the distributed sort is about: by key, and equal keys by original
// index.  Indices are distinct, so there is one sorted arrangement, and every
// phase is proved by saying which part of it it makes.
module SortOrder {

  datatype KP = KP(key: nat, idx: nat)

  predicate Lt(a: KP, b: KP) {
    a.key < b.key || (a.key == b.key && a.idx < b.idx)
  }

  ghost predicate Sorted(s: seq<KP>) {
    forall i, j :: 0 <= i < j < |s| ==> Lt(s[i], s[j])
  }

  lemma SortedPart(s: seq<KP>, i: nat, j: nat)
    requires Sorted(s) && i <= j <= |s|
    ensures Sorted(s[i..j])
  {
  }

  lemma SortedTail(s: seq<KP>, i: nat)
    requires Sorted(s) && i <= |s|
    ensures Sorted(s[i..])
  {
  }

  lemma FirstLeast(s: seq<KP>, x: KP)
    requires Sorted(s) && s != [] && x in s
    ensures x == s[0] || Lt(s[0], x)
  {
  }

  lemma TailBag(s: seq<KP>)
    requires s != []
    ensures multiset(s[1..]) == multiset(s) - multiset{s[0]}
  {
    assert s == [s[0]] + s[1..];
  }

  lemma Asymmetric(a: KP, b: KP)
    ensures !(Lt(a, b) && Lt(b, a))
  {
  }

  lemma SameFirst(a: seq<KP>, b: seq<KP>)
    requires Sorted(a) && Sorted(b) && multiset(a) == multiset(b) && a != []
    ensures b != [] && a[0] == b[0]
  {
    hide Sorted, Lt;
    assert a[0] in multiset(b);
    assert b[0] in multiset(a);
    FirstLeast(a, b[0]);
    FirstLeast(b, a[0]);
    Asymmetric(a[0], b[0]);
  }

  // Sorting is unique.
  lemma {:induction false} SortedOnce(a: seq<KP>, b: seq<KP>)
    requires Sorted(a) && Sorted(b) && multiset(a) == multiset(b)
    ensures a == b
  {
    hide Sorted, Lt;
    assert |multiset(a)| == |a| && |multiset(b)| == |b|;
    if a != [] {
      SameFirst(a, b);
      TailBag(a);
      TailBag(b);
      SortedTail(a, 1);
      SortedTail(b, 1);
      SortedOnce(a[1..], b[1..]);
      assert a == [a[0]] + a[1..] && b == [b[0]] + b[1..];
    }
  }

  ghost predicate AllBefore(a: multiset<KP>, b: multiset<KP>) {
    forall x, y :: x in a && y in b ==> Lt(x, y)
  }

  lemma FirstInside(s: seq<KP>, a: multiset<KP>, b: multiset<KP>)
    requires Sorted(s) && multiset(s) == a + b && AllBefore(a, b) && |a| > 0
    ensures s != [] && s[0] in a
  {
    hide Sorted, Lt;
    var x :| x in a;
    assert x in multiset(s);
    FirstLeast(s, x);
    assert s[0] in multiset(s);
    Asymmetric(x, s[0]);
  }

  lemma AfterFirst(s: seq<KP>, n: nat)
    requires s != [] && n < |s|
    ensures multiset(s[..n + 1]) == multiset{s[0]} + multiset(s[1..][..n]) && s[n + 1..] == s[1..][n..]
  {
    assert s[..n + 1] == [s[0]] + s[1..][..n];
  }

  lemma FewerBefore(a: multiset<KP>, b: multiset<KP>, m: KP)
    requires AllBefore(a, b) && m in a
    ensures AllBefore(a - multiset{m}, b) && |a - multiset{m}| == |a| - 1
  {
    hide Lt;
  }

  lemma EmptyPrefix(s: seq<KP>, a: multiset<KP>, b: multiset<KP>)
    requires multiset(s) == a + b && |a| == 0
    ensures multiset(s[..0]) == a && multiset(s[0..]) == b
  {
    assert s[..0] == [] && s[0..] == s;
  }

  // Where a bag of smaller elements ends in the sorted order.
  lemma {:induction false} PrefixIs(s: seq<KP>, a: multiset<KP>, b: multiset<KP>)
    requires Sorted(s) && multiset(s) == a + b && AllBefore(a, b)
    ensures |a| <= |s| && multiset(s[..|a|]) == a && multiset(s[|a|..]) == b
    decreases |a|
  {
    hide Sorted, Lt, AllBefore;
    if |a| == 0 {
      EmptyPrefix(s, a, b);
    } else {
      FirstInside(s, a, b);
      var a' := a - multiset{s[0]};
      TailSplits(s, a, b, a');
      PrefixIs(s[1..], a', b);
      PrefixStep(s, a, b, a');
    }
  }

  lemma TailSplits(s: seq<KP>, a: multiset<KP>, b: multiset<KP>, a': multiset<KP>)
    requires Sorted(s) && multiset(s) == a + b && AllBefore(a, b) && s != [] && s[0] in a && a' == a - multiset{s[0]}
    ensures Sorted(s[1..]) && multiset(s[1..]) == a' + b && AllBefore(a', b) && |a'| == |a| - 1
  {
    hide Sorted, Lt, AllBefore;
    FewerBefore(a, b, s[0]);
    TailBag(s);
    SortedTail(s, 1);
  }

  lemma PrefixStep(s: seq<KP>, a: multiset<KP>, b: multiset<KP>, a': multiset<KP>)
    requires s != [] && s[0] in a && a' == a - multiset{s[0]} && |a'| == |a| - 1 && |a'| <= |s[1..]|
    requires multiset(s[1..][..|a'|]) == a' && multiset(s[1..][|a'|..]) == b
    ensures |a| <= |s| && multiset(s[..|a|]) == a && multiset(s[|a|..]) == b
  {
    AfterFirst(s, |a'|);
  }

  // The next element of the sorted order is the least of what is left.
  lemma NextIs(s: seq<KP>, o: nat, left: multiset<KP>, m: KP)
    requires Sorted(s) && o <= |s| && multiset(s[o..]) == left && m in left
    requires forall x :: x in left ==> x == m || Lt(m, x)
    ensures o < |s| && s[o] == m && multiset(s[o + 1..]) == left - multiset{m}
  {
    assert s[o..] != [];
    SortedTail(s, o);
    assert s[o..][0] in left;
    FirstLeast(s[o..], m);
    TailBag(s[o..]);
    assert s[o..][1..] == s[o + 1..];
  }

  // ---------------- the sorted arrangement ----------------

  ghost predicate DistinctIdx(s: seq<KP>) {
    forall i, j :: 0 <= i < j < |s| ==> s[i].idx != s[j].idx
  }

  function Insert(x: KP, s: seq<KP>): seq<KP> {
    if s == [] || Lt(x, s[0]) then [x] + s else [s[0]] + Insert(x, s[1..])
  }

  function SortOf(s: seq<KP>): seq<KP> {
    if s == [] then [] else Insert(s[0], SortOf(s[1..]))
  }

  lemma {:induction false} InsertIs(x: KP, s: seq<KP>)
    requires Sorted(s) && forall y :: y in s ==> y.idx != x.idx
    ensures Sorted(Insert(x, s)) && multiset(Insert(x, s)) == multiset(s) + multiset{x}
  {
    if s != [] && !Lt(x, s[0]) {
      SortedTail(s, 1);
      InsertIs(x, s[1..]);
      assert s == [s[0]] + s[1..];
      var t := Insert(x, s[1..]);
      forall i | 0 <= i < |t| ensures Lt(s[0], t[i]) {
        assert t[i] in multiset(t);
        if t[i] != x { FirstLeast(s, t[i]); assert t[i] in s[1..]; }
      }
    }
  }

  // Elements with distinct indices have a sorted arrangement (the only one: see
  // SortedOnce).
  lemma {:induction false} SortOfIs(s: seq<KP>)
    requires DistinctIdx(s)
    ensures Sorted(SortOf(s)) && multiset(SortOf(s)) == multiset(s)
  {
    hide Lt, Insert;
    if s != [] {
      SortOfIs(s[1..]);
      assert s == [s[0]] + s[1..];
      forall y | y in SortOf(s[1..]) ensures y.idx != s[0].idx {
        assert y in multiset(s[1..]);
        var i :| 0 <= i < |s[1..]| && s[1..][i] == y;
        assert s[i + 1] == y;
      }
      InsertIs(s[0], SortOf(s[1..]));
    }
  }

  // ---------------- shares ----------------

  // r * n / p: where rank r's share of n things starts.
  function Share(r: nat, n: nat, p: nat): nat
    requires p > 0
  {
    r * n / p
  }

  lemma MulMonotone(a: nat, b: nat, p: nat)
    ensures a <= b ==> a * p <= b * p
  {
  }

  lemma DivMonotone(x: nat, y: nat, p: nat)
    requires p > 0 && x <= y
    ensures x / p <= y / p
  {
    var q, q' := x / p, y / p;
    assert x == q * p + x % p && y == q' * p + y % p;
    MulMonotone(q' + 1, q, p);
  }

  lemma SharesTile(r: nat, n: nat, p: nat)
    requires r < p
    ensures Share(0, n, p) == 0 && Share(p, n, p) == n
    ensures Share(r, n, p) <= Share(r + 1, n, p) <= n
  {
    assert r * n <= (r + 1) * n <= p * n;
    DivMonotone(r * n, (r + 1) * n, p);
    DivMonotone((r + 1) * n, p * n, p);
    MulDiv(n, p);
  }

  lemma MulDiv(n: nat, p: nat)
    requires p > 0
    ensures p * n / p == n
  {
    var q := p * n / p;
    assert p * n == q * p + p * n % p;
    MulMonotone(q + 1, n, p);
    MulMonotone(n + 1, q, p);
  }
}
