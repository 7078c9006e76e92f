// The stable LSD radix sort of one block: four 16-bit counting passes between
// two buffers.
module RadixSort {
  import opened SortOrder

  const RADIX: nat := 65536

  // key >> 16*p
  function High(key: nat, p: nat): nat {
    if p == 0 then key else High(key, p - 1) / RADIX
  }

  // (key >> 16*p) & 0xffff
  function Digit(key: nat, p: nat): (d: nat)
    ensures d < RADIX
  {
    High(key, p) % RADIX
  }

  // The order after p passes: by the low p digits, then by index.
  predicate LowLt(a: KP, b: KP, p: nat) {
    if p == 0 then a.idx < b.idx
    else Digit(a.key, p - 1) < Digit(b.key, p - 1) || (Digit(a.key, p - 1) == Digit(b.key, p - 1) && LowLt(a, b, p - 1))
  }

  ghost predicate LowSorted(s: seq<KP>, p: nat) {
    forall i, j :: 0 <= i < j < |s| ==> LowLt(s[i], s[j], p)
  }

  lemma {:induction false} HighMonotone(a: nat, b: nat, p: nat)
    requires a <= b
    ensures High(a, p) <= High(b, p)
  {
    if p > 0 { HighMonotone(a, b, p - 1); }
  }

  // Keys that agree above the low p digits are ordered by those digits.
  lemma {:induction false} LowIsOrder(a: KP, b: KP, p: nat)
    requires High(a.key, p) == High(b.key, p)
    ensures LowLt(a, b, p) <==> Lt(a, b)
  {
    if p > 0 {
      var x, y := High(a.key, p - 1), High(b.key, p - 1);
      assert x == RADIX * (x / RADIX) + x % RADIX && y == RADIX * (y / RADIX) + y % RADIX;
      if x == y {
        LowIsOrder(a, b, p - 1);
      } else if x < y {
        if b.key <= a.key { HighMonotone(b.key, a.key, p - 1); }
      } else {
        if a.key <= b.key { HighMonotone(a.key, b.key, p - 1); }
      }
    }
  }

  lemma WordHigh(key: nat)
    requires key < 0x1_0000_0000_0000_0000
    ensures High(key, 4) == 0
  {
    assert High(key, 1) < 0x1_0000_0000_0000;
    assert High(key, 2) < 0x1_0000_0000;
    assert High(key, 3) < 0x1_0000;
  }

  // ---------------- one counting pass ----------------

  // The elements with digit k, in order.
  function Pick(s: seq<KP>, p: nat, k: nat): seq<KP> {
    if s == [] then []
    else
      var x := s[|s| - 1];
      Pick(s[..|s| - 1], p, k) + if Digit(x.key, p) == k then [x] else []
  }

  // ... and those with a digit below d, digit by digit.
  function ByDigit(s: seq<KP>, p: nat, d: nat): seq<KP> {
    if d == 0 then [] else ByDigit(s, p, d - 1) + Pick(s, p, d - 1)
  }

  lemma PickSnoc(s: seq<KP>, x: KP, p: nat, k: nat)
    ensures Pick(s + [x], p, k) == Pick(s, p, k) + if Digit(x.key, p) == k then [x] else []
  {
    assert (s + [x])[..|s|] == s;
  }

  lemma {:induction false} PickIn(s: seq<KP>, p: nat, k: nat)
    ensures forall x :: x in Pick(s, p, k) ==> x in s && Digit(x.key, p) == k
  {
    if s != [] { PickIn(s[..|s| - 1], p, k); }
  }

  lemma {:induction false} BagSnoc(s: seq<KP>, x: KP, p: nat, d: nat)
    ensures multiset(ByDigit(s + [x], p, d)) == multiset(ByDigit(s, p, d))
        + if Digit(x.key, p) < d then multiset{x} else multiset{}
  {
    hide Digit;
    if d > 0 {
      BagSnoc(s, x, p, d - 1);
      PickSnoc(s, x, p, d - 1);
    }
  }

  lemma {:induction false} EmptyByDigit(p: nat, d: nat)
    ensures ByDigit([], p, d) == []
  {
    if d > 0 { EmptyByDigit(p, d - 1); }
  }

  // A pass loses and adds nothing.
  lemma {:induction false} PassBag(s: seq<KP>, p: nat)
    ensures multiset(ByDigit(s, p, RADIX)) == multiset(s) && |ByDigit(s, p, RADIX)| == |s|
  {
    hide Digit, ByDigit;
    if s == [] {
      EmptyByDigit(p, RADIX);
    } else {
      var n := |s| - 1;
      PassBag(s[..n], p);
      BagSnoc(s[..n], s[n], p, RADIX);
      assert s == s[..n] + [s[n]];
    }
    assert |multiset(ByDigit(s, p, RADIX))| == |ByDigit(s, p, RADIX)| && |multiset(s)| == |s|;
  }

  lemma {:induction false} PickSorted(s: seq<KP>, p: nat, k: nat)
    requires LowSorted(s, p)
    ensures LowSorted(Pick(s, p, k), p + 1)
  {
    hide Digit;
    if s != [] {
      var n := |s| - 1;
      PickSorted(s[..n], p, k);
      PickIn(s[..n], p, k);
      forall i | 0 <= i < |Pick(s[..n], p, k)| && Digit(s[n].key, p) == k
        ensures LowLt(Pick(s[..n], p, k)[i], s[n], p + 1)
      {
        assert Pick(s[..n], p, k)[i] in s[..n];
      }
    }
  }

  lemma {:induction false} ByDigitIn(s: seq<KP>, p: nat, d: nat)
    ensures forall x :: x in ByDigit(s, p, d) ==> Digit(x.key, p) < d
  {
    hide Digit, Pick;
    if d > 0 {
      ByDigitIn(s, p, d - 1);
      PickIn(s, p, d - 1);
    }
  }

  // Stability: one pass sorts by one more digit.
  lemma {:induction false} PassSorted(s: seq<KP>, p: nat, d: nat)
    requires LowSorted(s, p)
    ensures LowSorted(ByDigit(s, p, d), p + 1)
  {
    hide Digit, LowLt, LowSorted;
    if d > 0 {
      PassSorted(s, p, d - 1);
      PickSorted(s, p, d - 1);
      ByDigitIn(s, p, d - 1);
      PickIn(s, p, d - 1);
      Joined(ByDigit(s, p, d - 1), Pick(s, p, d - 1), p, d - 1);
    } else {
      NoneSorted(p);
    }
  }

  lemma NoneSorted(p: nat)
    ensures LowSorted([], p + 1)
  {
  }

  lemma Joined(a: seq<KP>, b: seq<KP>, p: nat, d: nat)
    requires LowSorted(a, p + 1) && LowSorted(b, p + 1)
    requires (forall x :: x in a ==> Digit(x.key, p) < d) && forall x :: x in b ==> Digit(x.key, p) == d
    ensures LowSorted(a + b, p + 1)
  {
    hide Digit;
    forall i, j | 0 <= i < j < |a + b| ensures LowLt((a + b)[i], (a + b)[j], p + 1) {
      if i < |a| <= j { assert a[i] in a && b[j - |a|] in b; }
    }
  }

  // ---------------- the pass in place ----------------

  // Where digit k's elements start.
  function Start(s: seq<KP>, p: nat, k: nat): nat {
    |ByDigit(s, p, k)|
  }

  lemma {:induction false} StartsGrow(s: seq<KP>, p: nat, j: nat, k: nat)
    requires j < k
    ensures Start(s, p, j) + |Pick(s, p, j)| == Start(s, p, j + 1) <= Start(s, p, k)
  {
    hide Pick;
    if j + 1 < k { StartsGrow(s, p, j, k - 1); }
  }

  lemma {:induction false} PickPrefix(s: seq<KP>, p: nat, i: nat, k: nat)
    requires i <= |s|
    ensures |Pick(s[..i], p, k)| <= |Pick(s, p, k)|
    ensures i < |s| && Digit(s[i].key, p) == k ==> |Pick(s[..i], p, k)| < |Pick(s, p, k)|
    decreases |s|
  {
    hide Digit;
    if i == |s| {
      assert s[..i] == s;
    } else {
      var n := |s| - 1;
      PickPrefix(s[..n], p, i, k);
      assert s[..n][..i] == s[..i];
      if i < n { assert s[..n][i] == s[i]; }
    }
  }

  method CountDigits(src: array<KP>, p: nat, c: array<nat>)
    requires c.Length == RADIX
    modifies c
    ensures forall k: nat :: k < RADIX ==> c[k] == |Pick(src[..], p, k)|
  {
    hide Digit;
    var k := 0;
    while k < RADIX
      invariant k <= RADIX && forall j: nat :: j < k ==> c[j] == 0
    {
      c[k] := 0;
      k := k + 1;
    }
    var i := 0;
    while i < src.Length
      invariant i <= src.Length && forall k: nat :: k < RADIX ==> c[k] == |Pick(src[..i], p, k)|
    {
      var d := Digit(src[i].key, p);
      forall k: nat | k < RADIX ensures |Pick(src[..i + 1], p, k)| == |Pick(src[..i], p, k)| + if d == k then 1 else 0 {
        PickSnoc(src[..i], src[i], p, k);
        assert src[..i + 1] == src[..i] + [src[i]];
      }
      c[d] := c[d] + 1;
      i := i + 1;
    }
    assert src[..i] == src[..];
  }

  method Prefix(ghost s: seq<KP>, p: nat, c: array<nat>)
    requires c.Length == RADIX && forall k: nat :: k < RADIX ==> c[k] == |Pick(s, p, k)|
    modifies c
    ensures forall k: nat :: k < RADIX ==> c[k] == Start(s, p, k)
  {
    hide Pick;
    var off, k := 0, 0;
    while k < RADIX
      invariant k <= RADIX && off == Start(s, p, k)
      invariant forall j: nat :: j < k ==> c[j] == Start(s, p, j)
      invariant forall j: nat :: k <= j < RADIX ==> c[j] == |Pick(s, p, j)|
    {
      var t := c[k];
      c[k] := off;
      off := off + t;
      k := k + 1;
    }
  }

  // Digit k's elements among the first i, where they belong.
  ghost predicate Segment(dst: seq<KP>, s: seq<KP>, p: nat, i: nat, k: nat)
    requires i <= |s|
  {
    var at, n := Start(s, p, k), |Pick(s[..i], p, k)|;
    at + n <= |dst| && dst[at..at + n] == Pick(s[..i], p, k)
  }

  lemma OnePlaced(a: seq<KP>, b: seq<KP>, s: seq<KP>, p: nat, i: nat, k: nat)
    requires i < |s| == |a| && k < RADIX && Segment(a, s, p, i, k)
    requires var d := Digit(s[i].key, p);
             Start(s, p, d) + |Pick(s[..i], p, d)| < |a| && b == a[Start(s, p, d) + |Pick(s[..i], p, d)| := s[i]]
    ensures Segment(b, s, p, i + 1, k)
  {
    hide Digit, ByDigit;
    var d := Digit(s[i].key, p);
    PickSnoc(s[..i], s[i], p, k);
    assert s[..i + 1] == s[..i] + [s[i]];
    PickPrefix(s, p, i, k);
    PickPrefix(s, p, i, d);
    var at, n := Start(s, p, k), |Pick(s[..i], p, k)|;
    if k < d {
      StartsGrow(s, p, k, d);
    } else if d < k {
      StartsGrow(s, p, d, k);
    } else {
      assert b[at..at + n + 1] == b[at..at + n] + [b[at + n]];
    }
    assert b[at..at + n] == a[at..at + n];
  }

  lemma PlaceFits(s: seq<KP>, p: nat, i: nat)
    requires i < |s|
    ensures var d := Digit(s[i].key, p); Start(s, p, d) + |Pick(s[..i], p, d)| < |s|
  {
    hide Digit, Pick, ByDigit;
    var d := Digit(s[i].key, p);
    PickPrefix(s, p, i, d);
    StartsGrow(s, p, d, RADIX);
    PassBag(s, p);
  }

  lemma {:induction false} SegmentsFill(dst: seq<KP>, s: seq<KP>, p: nat, d: nat)
    requires d <= RADIX && |dst| == |s| && forall k: nat :: k < RADIX ==> Segment(dst, s, p, |s|, k)
    ensures Start(s, p, d) <= |dst| && dst[..Start(s, p, d)] == ByDigit(s, p, d)
  {
    hide Pick;
    assert s[..|s|] == s;
    if d > 0 {
      SegmentsFill(dst, s, p, d - 1);
      assert Segment(dst, s, p, |s|, d - 1);
      var at, n := Start(s, p, d - 1), |Pick(s, p, d - 1)|;
      assert dst[..at + n] == dst[..at] + dst[at..at + n];
    }
  }

  lemma NonePlaced(dst: seq<KP>, s: seq<KP>, p: nat)
    requires |dst| == |s|
    ensures forall k: nat :: k < RADIX ==> Segment(dst, s, p, 0, k)
  {
    assert s[..0] == [];
    forall k: nat | k < RADIX ensures Start(s, p, k) <= |s| {
      StartsGrow(s, p, k, RADIX);
      PassBag(s, p);
    }
  }

  method CountingPass(src: array<KP>, dst: array<KP>, p: nat)
    requires src != dst && src.Length == dst.Length
    modifies dst
    ensures dst[..] == ByDigit(src[..], p, RADIX)
  {
    hide Digit, Pick, ByDigit, Segment, Start;
    var c := new nat[RADIX](_ => 0);
    CountDigits(src, p, c);
    ghost var s := src[..];
    Prefix(s, p, c);
    NonePlaced(dst[..], s, p);
    forall k: nat | k < RADIX ensures |Pick(s[..0], p, k)| == 0 { NoPick(s, p, k); }
    var i := 0;
    while i < src.Length
      invariant i <= src.Length && src[..] == s
      invariant forall k: nat :: k < RADIX ==> c[k] == Start(s, p, k) + |Pick(s[..i], p, k)|
      invariant forall k: nat :: k < RADIX ==> Segment(dst[..], s, p, i, k)
    {
      var e := src[i];
      var d := Digit(e.key, p);
      PlaceFits(s, p, i);
      ghost var before := dst[..];
      dst[c[d]] := e;
      ghost var after, next := dst[..], i + 1;
      forall k: nat | k < RADIX ensures Segment(after, s, p, next, k) {
        OnePlaced(before, after, s, p, i, k);
      }
      forall k: nat | k < RADIX ensures |Pick(s[..i + 1], p, k)| == |Pick(s[..i], p, k)| + if d == k then 1 else 0 {
        PickSnoc(s[..i], s[i], p, k);
        assert s[..i + 1] == s[..i] + [s[i]];
      }
      c[d] := c[d] + 1;
      assert dst[..] == after;
      i := i + 1;
    }
    SegmentsFill(dst[..], s, p, RADIX);
    PassBag(s, p);
    assert Start(s, p, RADIX) == dst.Length by { StartLength(s, p); }
    assert dst[..][..dst.Length] == dst[..];
  }

  lemma NoPick(s: seq<KP>, p: nat, k: nat)
    ensures |Pick(s[..0], p, k)| == 0
  {
  }

  lemma StartLength(s: seq<KP>, p: nat)
    ensures Start(s, p, RADIX) == |s|
  {
    PassBag(s, p);
  }

  // ---------------- the four passes ----------------

  // radix_sort_keypairs on a block whose indices increase: the block sorted by
  // key and index.  After the fourth swap the result is back in place.
  method RadixSortKeypairs(a: array<KP>)
    requires forall i, j :: 0 <= i < j < a.Length ==> a[i].idx < a[j].idx
    requires forall i :: 0 <= i < a.Length ==> a[i].key < 0x1_0000_0000_0000_0000
    modifies a
    ensures Sorted(a[..]) && multiset(a[..]) == multiset(old(a[..]))
  {
    hide Digit, ByDigit, LowLt;
    var buf := new KP[a.Length](_ => KP(0, 0));
    var src, dst := a, buf;
    var shift := 0;
    IndexSorted(a[..]);
    while shift < 64
      invariant 0 <= shift <= 64 && shift % 16 == 0 && fresh(buf) && buf.Length == a.Length
      invariant if shift % 32 == 0 then src == a && dst == buf else src == buf && dst == a
      invariant LowSorted(src[..], shift / 16) && multiset(src[..]) == multiset(old(a[..]))
    {
      CountingPass(src, dst, shift / 16);
      PassSorted(src[..], shift / 16, RADIX);
      PassBag(src[..], shift / 16);
      src, dst := dst, src;
      shift := shift + 16;
    }
    AllDigits(old(a[..]), a[..]);
  }

  lemma IndexSorted(s: seq<KP>)
    requires forall i, j :: 0 <= i < j < |s| ==> s[i].idx < s[j].idx
    ensures LowSorted(s, 0)
  {
  }

  lemma AllDigits(before: seq<KP>, s: seq<KP>)
    requires LowSorted(s, 4) && multiset(s) == multiset(before)
    requires forall i :: 0 <= i < |before| ==> before[i].key < 0x1_0000_0000_0000_0000
    ensures Sorted(s)
  {
    hide LowLt, High, Lt;
    forall i, j | 0 <= i < j < |s| ensures Lt(s[i], s[j]) {
      assert s[i] in multiset(before) && s[j] in multiset(before);
      WordHigh(s[i].key);
      WordHigh(s[j].key);
      LowIsOrder(s[i], s[j], 4);
    }
  }
}
