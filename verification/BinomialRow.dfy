/** Binomial heaps of ch5/bino_heap.c as values and in the heap: rows of blocks of falling
    heights, a block of height h having below it a row of blocks of heights h - 1 to 0. */
module BinomialRow {
  import opened Prelude

  class Node {
    var height: int
    var key: int
    var obj: int
    var left: Node?
    var right: Node?

    constructor (height: int, key: int, obj: int, left: Node?, right: Node?)
      ensures this.height == height && this.key == key && this.obj == obj && this.left == left && this.right == right
    {
      this.height, this.key, this.obj, this.left, this.right := height, key, obj, left, right;
    }
  }

  datatype Block = Block(node: Node, key: int, obj: int, height: nat, kids: seq<Block>)

  type Row = seq<Block>

  datatype Pair = Pair(key: int, obj: int)

  // ---- Shape, size, order, contents.

  /** Blocks of heights h - 1, ..., 0, complete all the way down. */
  predicate Full(s: Row, h: nat)
    decreases s
  {
    if h == 0 then s == [] else s != [] && s[0].height == h - 1 && Full(s[0].kids, h - 1) && Full(s[1..], h - 1)
  }

  /** Complete blocks of strictly falling heights below bound. */
  predicate Falling(s: Row, bound: nat)
    decreases s
  {
    s == [] || (s[0].height < bound && Full(s[0].kids, s[0].height) && Falling(s[1..], s[0].height))
  }

  /** The number of pairs that blocks of these heights hold. */
  function Size(s: Row): nat {
    if s == [] then 0 else Pow2(s[0].height) + Size(s[1..])
  }

  function Items(s: Row): multiset<Pair>
    decreases s
  {
    if s == [] then multiset{} else multiset{Pair(s[0].key, s[0].obj)} + Items(s[0].kids) + Items(s[1..])
  }

  /** Every key is at least k, and at least the key above it. */
  predicate AtLeast(s: Row, k: int)
    decreases s
  {
    s == [] || (k <= s[0].key && AtLeast(s[0].kids, s[0].key) && AtLeast(s[1..], k))
  }

  /** Half-ordered: every key is at least the key above it. */
  predicate Ordered(s: Row)
    decreases s
  {
    s == [] || (AtLeast(s[0].kids, s[0].key) && Ordered(s[1..]))
  }

  /** How often a pair occurs. */
  function Count(s: Row, p: Pair): nat
    decreases s
  {
    if s == [] then 0 else Here(s[0], p) + Count(s[1..], p)
  }

  function Here(b: Block, p: Pair): nat
    decreases b
  {
    (if p == Pair(b.key, b.obj) then 1 else 0) + Count(b.kids, p)
  }

  lemma {:induction false} ItemsCount(s: Row, p: Pair)
    ensures Items(s)[p] == Count(s, p)
  {
    if s != [] {
      ItemsCount(s[0].kids, p);
      ItemsCount(s[1..], p);
    }
  }

  lemma {:induction false} CountConcat(s: Row, t: Row, p: Pair)
    ensures Count(s + t, p) == Count(s, p) + Count(t, p)
  {
    if s == [] {
      assert s + t == t;
    } else {
      assert (s + t)[1..] == s[1..] + t;
      CountConcat(s[1..], t, p);
    }
  }

  /** A complete block of height h holds 2^h pairs. */
  lemma {:induction false} FullCount(s: Row, h: nat)
    requires Full(s, h)
    ensures |Items(s)| + 1 == Pow2(h) && Size(s) + 1 == Pow2(h) && Falling(s, h)
    decreases h
  {
    if h > 0 {
      FullCount(s[0].kids, h - 1);
      FullCount(s[1..], h - 1);
    }
  }

  lemma {:induction false} FallingCount(s: Row, bound: nat)
    requires Falling(s, bound)
    ensures |Items(s)| == Size(s) < Pow2(bound)
  {
    if s != [] {
      FullCount(s[0].kids, s[0].height);
      FallingCount(s[1..], s[0].height);
      Pow2Monotone(s[0].height + 1, bound);
    }
  }

  lemma {:induction false} AtLeastItems(s: Row, k: int, p: Pair)
    requires AtLeast(s, k) && p in Items(s)
    ensures p.key >= k
  {
    if p in Items(s[0].kids) {
      AtLeastItems(s[0].kids, s[0].key, p);
    } else if p in Items(s[1..]) {
      AtLeastItems(s[1..], k, p);
    }
  }

  lemma {:induction false} AtLeastOrdered(s: Row, k: int)
    requires AtLeast(s, k)
    ensures Ordered(s)
  {
    if s != [] { AtLeastOrdered(s[1..], k); }
  }

  // ---- The heights of a heap are the binary digits of its size.

  predicate HasHeight(s: Row, h: nat) {
    exists i :: 0 <= i < |s| && s[i].height == h
  }

  predicate Bit(n: nat, h: nat)
    decreases h
  {
    if h == 0 then n % 2 == 1 else Bit(n / 2, h - 1)
  }

  lemma {:induction false} BitIsDigit(n: nat, h: nat)
    ensures Bit(n, h) <==> n / Pow2(h) % 2 == 1
  {
    if h > 0 {
      BitIsDigit(n / 2, h - 1);
      HalfFirst(n, Pow2(h - 1));
    }
  }

  lemma HalfFirst(n: nat, p: nat)
    requires p > 0
    ensures n / (2 * p) == n / 2 / p
  {
    var q := n / 2 / p;
    assert q * p <= n / 2 < (q + 1) * p;
    assert q * (2 * p) <= n < (q + 1) * (2 * p);
    Quotient(n, 2 * p, q);
  }

  lemma LessFactor(a: int, b: int, d: int)
    requires d > 0 && a * d < b * d
    ensures a < b
  {
  }

  lemma Quotient(n: nat, d: nat, q: nat)
    requires d > 0 && q * d <= n < (q + 1) * d
    ensures n / d == q
  {
    var k := n / d;
    assert k * d <= n < (k + 1) * d;
    LessFactor(k, q + 1, d);
    LessFactor(q, k + 1, d);
  }

  lemma {:induction false} BitOfSum(a: nat, m: nat, h: nat)
    requires m < Pow2(a)
    ensures Bit(Pow2(a) + m, h) == if h == a then true else h < a && Bit(m, h)
    decreases a
  {
    if a == 0 {
      if h > 0 { NoBits(h - 1); }
    } else if h > 0 {
      assert (Pow2(a) + m) / 2 == Pow2(a - 1) + m / 2;
      BitOfSum(a - 1, m / 2, h - 1);
    }
  }

  lemma {:induction false} NoBits(h: nat)
    ensures !Bit(0, h)
  {
    if h > 0 { NoBits(h - 1); }
  }

  /** Binary representation: there is a block of height h if and only if digit h of the size is 1. */
  lemma {:induction false} HeightsAreBits(s: Row, bound: nat, h: nat)
    requires Falling(s, bound)
    ensures HasHeight(s, h) <==> Bit(Size(s), h)
  {
    if s == [] {
      NoBits(h);
    } else {
      var rest := s[1..];
      HeightsAreBits(rest, s[0].height, h);
      FallingCount(rest, s[0].height);
      BitOfSum(s[0].height, Size(rest), h);
      assert HasHeight(s, h) <==> s[0].height == h || HasHeight(rest, h) by {
        if i :| 0 <= i < |rest| && rest[i].height == h { assert s[i + 1].height == h; }
        if i :| 0 < i < |s| && s[i].height == h { assert rest[i - 1].height == h; }
      }
      if HasHeight(rest, h) { FallingBelow(rest, s[0].height, h); }
    }
  }

  lemma {:induction false} FallingBelow(s: Row, bound: nat, h: nat)
    requires Falling(s, bound) && HasHeight(s, h)
    ensures h < bound
  {
    var i :| 0 <= i < |s| && s[i].height == h;
    if i > 0 {
      assert s[1..][i - 1].height == h;
      FallingBelow(s[1..], s[0].height, h);
    }
  }
}
