/** What the loops of ch3/a_b_tree.c do to the arrays of one, two or three nodes. */
module BlockNode {
  import opened BlockTree

  /** The fields of n are those of a block of height h with these keys and links. */
  ghost predicate Local(n: Node, h: nat, keys: seq<int>, links: seq<Link>)
    reads n
  {
    && n.height == h && n.degree == |keys| == |links| <= B && |n.key| == |n.next| == B
    && (forall i :: 0 <= i < |links| ==> n.next[i] == links[i])
    && (forall i :: Start(h) <= i < |keys| ==> n.key[i] == keys[i])
  }

  /** The binary search among the keys of a node. */
  method SearchIndex(n: Node, q: int, ghost h: nat, ghost keys: seq<int>, ghost links: seq<Link>) returns (lower: nat)
    requires Local(n, h, keys, links) && keys != []
    ensures IsIndex(keys, q, lower)
  {
    lower := 0;
    var upper := n.degree;
    while upper > lower + 1
      invariant 0 <= lower < upper <= |keys|
      invariant lower == 0 || keys[lower] <= q
      invariant upper == |keys| || q < keys[upper]
      decreases upper - lower
    {
      if q < n.key[(upper + lower) / 2] {
        upper := (upper + lower) / 2;
      } else {
        lower := (upper + lower) / 2;
      }
    }
  }

  // ---- The place of a new key.

  function PlaceFrom(keys: seq<int>, start: nat, k: int, i: nat): (r: nat)
    requires start <= i <= |keys|
    ensures start <= r <= i && (r == start || keys[r - 1] <= k) && forall j :: r <= j < i ==> k < keys[j]
  {
    if i > start && keys[i - 1] > k then PlaceFrom(keys, start, k, i - 1) else i
  }

  function Place(keys: seq<int>, start: nat, k: int): nat
    requires start <= |keys|
  {
    PlaceFrom(keys, start, k, |keys|)
  }

  lemma PlaceIs(keys: seq<int>, start: nat, k: int)
    requires start <= |keys| && Increasing(keys, start)
    ensures IsPlace(keys, start, k, Place(keys, start, k))
  {
  }

  lemma InsPoint<X>(s: seq<X>, i: nat, x: X)
    requires i <= |s|
    ensures |Ins(s, i, x)| == |s| + 1
    ensures forall j :: 0 <= j <= |s| ==> Ins(s, i, x)[j] == if j < i then s[j] else if j == i then x else s[j - 1]
  {
  }

  /** The arrays of n with a gap at i: the entries from i on have moved up. */
  ghost predicate Gap(n: Node, start: nat, i: nat, keys: seq<int>, links: seq<Link>)
    requires |keys| == |links| < B
    reads n
  {
    && |n.key| == |n.next| == B
    && (forall j :: 0 <= j < i && j < |keys| ==> n.next[j] == links[j] && (start <= j ==> n.key[j] == keys[j]))
    && (forall j :: i < j <= |keys| ==> n.next[j] == links[j - 1] && n.key[j] == keys[j - 1])
  }

  method FillGap(n: Node, i: nat, k: int, link: Link, ghost h: nat, ghost keys: seq<int>, ghost links: seq<Link>)
    requires |keys| == |links| < B && Start(h) <= i <= |keys| && Gap(n, Start(h), i, keys, links)
    requires n.height == h && n.degree == |keys|
    modifies n
    ensures Local(n, h, Ins(keys, i, k), Ins(links, i, link))
  {
    n.key := n.key[i := k];
    n.next := n.next[i := link];
    n.degree := n.degree + 1;
    InsPoint(keys, i, k);
    InsPoint(links, i, link);
  }

  method ShiftUp(n: Node, i: nat, ghost start: nat, ghost keys: seq<int>, ghost links: seq<Link>)
    requires |keys| == |links| < B && start < i <= |keys| && Gap(n, start, i, keys, links)
    modifies n
    ensures n.height == old(n.height) && n.degree == old(n.degree) && Gap(n, start, i - 1, keys, links)
  {
    n.key := n.key[i := n.key[i - 1]];
    n.next := n.next[i := n.next[i - 1]];
  }

  /** Inserts an entry into a node that has room. */
  method InsertEntry(n: Node, k: int, link: Link, ghost h: nat, ghost keys: seq<int>, ghost links: seq<Link>)
    requires Local(n, h, keys, links) && Start(h) <= |keys| < B
    modifies n
    ensures var i := Place(keys, Start(h), k); Local(n, h, Ins(keys, i, k), Ins(links, i, link))
  {
    var start := if n.height > 0 then 1 else 0;
    var i := n.degree;
    while i > start && n.key[i - 1] > k
      invariant start <= i <= |keys| && Place(keys, start, k) == PlaceFrom(keys, start, k, i)
      invariant n.height == h && n.degree == |keys| && Gap(n, start, i, keys, links)
      decreases i
    {
      ShiftUp(n, i, start, keys, links);
      i := i - 1;
    }
    FillGap(n, i, k, link, h, keys, links);
  }

  // ---- Splitting a full node.

  /** Going down from the top: i is the highest old entry not yet copied, j the next slot of the
      new node m; the entries with the new one in its place are keys and links. */
  ghost predicate Copied(m: Node, j: int, keys: seq<int>, links: seq<Link>)
    requires |keys| == |links| == B + 1
    reads m
  {
    && |m.key| == |m.next| == B && -1 <= j <= 1
    && forall x :: j < x <= 1 ==> m.key[x] == keys[3 + x] && m.next[x] == links[3 + x]
  }

  /** Copies the upper two of the five entries; returns how far it got in n and whether the new
      entry was among them. */
  method CopyUpper(n: Node, m: Node, k: int, link: Link, ghost h: nat, ghost keys: seq<int>, ghost links: seq<Link>)
    returns (i: int, done: bool)
    requires Local(n, h, keys, links) && |keys| == B && m != n && |m.key| == |m.next| == B
    modifies m
    ensures var p := Place(keys, Start(h), k);
      && Copied(m, -1, Ins(keys, p, k), Ins(links, p, link))
      && done == (p >= 3) && i == if done then 2 else 1
    ensures m.height == old(m.height) && m.degree == old(m.degree)
  {
    ghost var p := Place(keys, Start(h), k);
    InsPoint(keys, p, k);
    InsPoint(links, p, link);
    i := B - 1;
    done := false;
    var j := (B - 1) / 2;
    while j >= 0
      invariant -1 <= j <= 1 && i + 1 + (if done then 0 else 1) == 4 + j && done == (p >= 4 + j)
      invariant Copied(m, j, Ins(keys, p, k), Ins(links, p, link))
      invariant m.height == old(m.height) && m.degree == old(m.degree)
      decreases j
    {
      if done || k < n.key[i] {
        m.next := m.next[j := n.next[i]];
        m.key := m.key[j := n.key[i]];
        j := j - 1;
        i := i - 1;
      } else {
        m.next := m.next[j := link];
        m.key := m.key[j := k];
        j := j - 1;
        done := true;
      }
    }
  }

  /** Inserts the new entry into the lower three, unless it went to the upper half. */
  method InsertLower(n: Node, i0: int, done0: bool, k: int, link: Link, ghost h: nat, ghost keys: seq<int>,
      ghost links: seq<Link>)
    requires Local(n, h, keys, links) && |keys| == B
    requires done0 == (Place(keys, Start(h), k) >= 3) && i0 == if done0 then 2 else 1
    modifies n
    ensures var p := Place(keys, Start(h), k); Local(n, h, Ins(keys, p, k)[..3], Ins(links, p, link)[..3])
  {
    ghost var p := Place(keys, Start(h), k);
    InsPoint(keys, p, k);
    InsPoint(links, p, link);
    var start := if n.height > 0 then 1 else 0;
    var i, done := i0, done0;
    ghost var keys2, links2 := keys[..2], links[..2];
    assert !done ==> Gap(n, start, 2, keys2, links2);
    while !done
      invariant n.height == h && |n.key| == |n.next| == B
      invariant !done ==> start - 1 <= i <= 1 && p <= i + 1 && Gap(n, start, i + 1, keys2, links2)
      invariant done ==> forall j :: 0 <= j < 3 ==>
          n.next[j] == Ins(links, p, link)[j] && (start <= j ==> n.key[j] == Ins(keys, p, k)[j])
      decreases if done then 0 else i + 2
    {
      if i >= start && k < n.key[i] {
        n.next := n.next[i + 1 := n.next[i]];
        n.key := n.key[i + 1 := n.key[i]];
        i := i - 1;
      } else {
        n.next := n.next[i + 1 := link];
        n.key := n.key[i + 1 := k];
        done := true;
      }
    }
    n.degree := B + 1 - (B + 1) / 2;
  }

  method SplitNode(n: Node, k: int, link: Link, ghost h: nat, ghost keys: seq<int>, ghost links: seq<Link>)
    returns (m: Node)
    requires Local(n, h, keys, links) && |keys| == B
    modifies n
    ensures fresh(m)
    ensures var p := Place(keys, Start(h), k); var keys', links' := Ins(keys, p, k), Ins(links, p, link);
      && |keys'| == |links'| == B + 1
      && Local(n, h, keys'[..3], links'[..3]) && Local(m, h, keys'[3..], links'[3..]) && m.key[0] == keys'[3]
  {
    m := new Node();
    var i, done := CopyUpper(n, m, k, link, h, keys, links);
    InsertLower(n, i, done, k, link, h, keys, links);
    m.degree := (B + 1) / 2;
    m.height := n.height;
  }

  // ---- Removing an entry.

  lemma DelPoint<X>(s: seq<X>, i: nat)
    requires i < |s|
    ensures |Del(s, i)| == |s| - 1 && forall j :: 0 <= j < |s| - 1 ==> Del(s, i)[j] == if j < i then s[j] else s[j + 1]
  {
  }

  method RemoveEntry(n: Node, i0: nat, ghost h: nat, ghost keys: seq<int>, ghost links: seq<Link>)
    requires Local(n, h, keys, links) && Start(h) <= i0 < |keys|
    modifies n
    ensures Local(n, h, Del(keys, i0), Del(links, i0))
  {
    DelPoint(keys, i0);
    DelPoint(links, i0);
    n.degree := n.degree - 1;
    var i := i0;
    while i < n.degree
      invariant i0 <= i <= n.degree == |keys| - 1 && n.height == h && |n.key| == |n.next| == B
      invariant forall j :: 0 <= j < i ==>
        n.next[j] == Del(links, i0)[j] && (Start(h) <= j ==> n.key[j] == Del(keys, i0)[j])
      invariant forall j :: i < j < |keys| ==> n.next[j] == links[j] && n.key[j] == keys[j]
    {
      n.next := n.next[i := n.next[i + 1]];
      n.key := n.key[i := n.key[i + 1]];
      i := i + 1;
    }
  }

  /** The linear search of delete in a leaf block. */
  method FindKey(n: Node, q: int, ghost keys: seq<int>, ghost links: seq<Link>) returns (i: nat)
    requires Local(n, 0, keys, links)
    ensures i <= |keys| && (i < |keys| ==> keys[i] == q) && (i == |keys| ==> q !in keys)
  {
    i := 0;
    while i < n.degree
      invariant i <= |keys| && forall j :: 0 <= j < i ==> keys[j] != q
    {
      if n.key[i] == q { return; }
      i := i + 1;
    }
  }

  // ---- Sharing with, and joining, a neighbour: the entries of both in one row are cut anew.

  /** n takes over the entries of m after its own; k is the separator between them. */
  method Append(n: Node, m: Node, k: int, ghost h: nat, ghost lk: seq<int>, ghost ll: seq<Link>, ghost rk: seq<int>,
      ghost rl: seq<Link>)
    requires Local(n, h, lk, ll) && Local(m, h, rk, rl) && n != m && lk != [] && rk != [] && |lk| + |rk| <= B
    modifies n
    ensures Local(n, h, Glue(h, lk, rk, k), ll + rl)
  {
    var i := n.degree;
    n.key := n.key[i := if n.height > 0 then k else m.key[0]];
    n.next := n.next[i := m.next[0]];
    var j := 1;
    while j < m.degree
      invariant 1 <= j <= |rk| && i == |lk| + j - 1 && n.height == h && |n.key| == |n.next| == B
      invariant forall x :: 0 <= x <= i ==>
        n.next[x] == (ll + rl)[x] && (Start(h) <= x ==> n.key[x] == Glue(h, lk, rk, k)[x])
    {
      i := i + 1;
      n.next := n.next[i := m.next[j]];
      n.key := n.key[i := m.key[j]];
      j := j + 1;
    }
    n.degree := i + 1;
  }

  /** Moves the entries of a node down by one, the first having been taken over by another. */
  method DropFirst(n: Node, ghost h: nat, ghost keys: seq<int>, ghost links: seq<Link>)
    requires Local(n, h, keys, links) && |keys| >= 2
    modifies n
    ensures Local(n, h, keys[1..], links[1..])
  {
    if n.height == 0 { n.key := n.key[0 := n.key[1]]; }
    n.next := n.next[0 := n.next[1]];
    var j := 2;
    while j < n.degree
      invariant 2 <= j <= n.degree == |keys| && n.height == h && |n.key| == |n.next| == B
      invariant forall x :: 0 <= x < j - 1 ==> n.next[x] == links[x + 1] && (Start(h) <= x ==> n.key[x] == keys[x + 1])
      invariant forall x :: j <= x < |keys| ==> n.next[x] == links[x] && n.key[x] == keys[x]
    {
      n.next := n.next[j - 1 := n.next[j]];
      n.key := n.key[j - 1 := n.key[j]];
      j := j + 1;
    }
    n.degree := n.degree - 1;
  }

  /** The node cur takes the first entry of its right neighbour nb. */
  method ShareRight(cur: Node, nb: Node, up: Node, curr: nat, ghost h: nat,
                    ghost lk: seq<int>, ghost ll: seq<Link>, ghost rk: seq<int>, ghost rl: seq<Link>,
                    ghost uk: seq<int>, ghost ul: seq<Link>)
    requires Local(cur, h, lk, ll) && Local(nb, h, rk, rl) && Local(up, h + 1, uk, ul) && cur != nb && up != cur
    requires up != nb
    requires curr + 1 < |uk| && 0 < |lk| < B && |rk| > A
    modifies cur, nb, up
    ensures var m := |lk| + 1; var e, el := Glue(h, lk, rk, uk[curr + 1]), ll + rl;
      && Local(cur, h, e[..m], el[..m]) && Local(nb, h, e[m..], el[m..]) && Local(up, h + 1, uk[curr + 1 := e[m]], ul)
  {
    var i := cur.degree;
    cur.key := cur.key[i := if cur.height > 0 then up.key[curr + 1] else nb.key[0]];
    cur.next := cur.next[i := nb.next[0]];
    cur.degree := cur.degree + 1;
    up.key := up.key[curr + 1 := nb.key[1]];
    DropFirst(nb, h, rk, rl);
    ghost var e, el, m := Glue(h, lk, rk, uk[curr + 1]), ll + rl, |lk| + 1;
    assert e[m..] == rk[1..] && el[m..] == rl[1..] && e[m] == rk[1];
  }

  /** Makes room for an entry in front. */
  method OpenFront(n: Node, ghost h: nat, ghost keys: seq<int>, ghost links: seq<Link>)
    requires Local(n, h, keys, links) && 0 < |keys| < B
    modifies n
    ensures |n.key| == |n.next| == B && n.height == h && n.degree == |keys|
    ensures forall x :: 1 <= x <= |keys| ==>
      n.next[x] == links[x - 1] && (x > 1 ==> Start(h) <= x - 1 ==> n.key[x] == keys[x - 1])
    ensures h == 0 ==> n.key[0] == keys[0]
  {
    var j := n.degree;
    while j > 1
      invariant 1 <= j <= n.degree == |keys| && n.height == h && |n.key| == |n.next| == B
      invariant forall x :: 0 <= x < j ==> n.next[x] == links[x] && (Start(h) <= x ==> n.key[x] == keys[x])
      invariant forall x :: j < x <= |keys| ==> n.next[x] == links[x - 1] && n.key[x] == keys[x - 1]
    {
      n.next := n.next[j := n.next[j - 1]];
      n.key := n.key[j := n.key[j - 1]];
      j := j - 1;
    }
    n.next := n.next[1 := n.next[0]];
  }

  /** The node cur takes the last entry of its left neighbour nb. */
  method ShareLeft(cur: Node, nb: Node, up: Node, curr: nat, ghost h: nat,
                   ghost lk: seq<int>, ghost ll: seq<Link>, ghost rk: seq<int>, ghost rl: seq<Link>,
                   ghost uk: seq<int>, ghost ul: seq<Link>)
    requires Local(cur, h, rk, rl) && Local(nb, h, lk, ll) && Local(up, h + 1, uk, ul) && cur != nb && up != cur
    requires up != nb
    requires 0 < curr < |uk| && 0 < |rk| < B && |lk| > A
    modifies cur, nb, up
    ensures var m := |lk| - 1; var e, el := Glue(h, lk, rk, uk[curr]), ll + rl;
      && Local(nb, h, e[..m], el[..m]) && Local(cur, h, e[m..], el[m..]) && Local(up, h + 1, uk[curr := e[m]], ul)
  {
    OpenFront(cur, h, rk, rl);
    var i := nb.degree;
    cur.next := cur.next[0 := nb.next[i - 1]];
    if cur.height > 0 {
      cur.key := cur.key[1 := up.key[curr]];
    } else {
      cur.key := cur.key[1 := cur.key[0]];
      cur.key := cur.key[0 := nb.key[i - 1]];
    }
    up.key := up.key[curr := nb.key[i - 1]];
    nb.degree := nb.degree - 1;
    cur.degree := cur.degree + 1;
    ghost var e, el, m := Glue(h, lk, rk, uk[curr]), ll + rl, |lk| - 1;
    assert forall x :: 0 <= x <= |rk| ==> el[m..][x] == if x == 0 then ll[m] else rl[x - 1];
    assert forall x :: 2 <= x <= |rk| ==> e[m..][x] == rk[x - 1];
  }

  // ---- The root keeps its address.

  /** The root n, of which m is the split-off upper half, moves to a new node below itself. */
  method RaiseRoot(n: Node, m: Node, k: int, ghost h: nat, ghost keys: seq<int>, ghost links: seq<Link>)
    returns (c: Node)
    requires Local(n, h, keys, links) && n != m && |keys| >= 2
    modifies n
    ensures fresh(c) && Local(c, h, keys, links)
    ensures Local(n, h + 1, [0, k], [Down(c), Down(m)])
  {
    c := new Node();
    CopyEntries(n, c, h, keys, links);
    c.height := n.height;
    c.degree := n.degree;
    n.height := n.height + 1;
    n.degree := 2;
    n.next := n.next[0 := Down(c)];
    n.next := n.next[1 := Down(m)];
    n.key := n.key[1 := k];
  }

  method CopyEntries(n: Node, c: Node, ghost h: nat, ghost keys: seq<int>, ghost links: seq<Link>)
    requires Local(n, h, keys, links) && n != c && |c.key| == |c.next| == B
    modifies c
    ensures |c.key| == |c.next| == B && c.height == old(c.height) && c.degree == old(c.degree)
    ensures forall x :: 0 <= x < |keys| ==> c.next[x] == links[x] && (Start(h) <= x ==> c.key[x] == keys[x])
  {
    for i := 0 to n.degree
      invariant |c.key| == |c.next| == B && c.height == old(c.height) && c.degree == old(c.degree)
      invariant forall x :: 0 <= x < i ==> c.next[x] == links[x] && (Start(h) <= x ==> c.key[x] == keys[x])
    {
      c.next := c.next[i := n.next[i]];
      c.key := c.key[i := n.key[i]];
    }
  }

  /** The root n takes over the entries of its only child c. */
  method LowerRoot(n: Node, c: Node, ghost h: nat, ghost keys: seq<int>, ghost links: seq<Link>)
    requires Local(c, h, keys, links) && n != c && |n.key| == |n.next| == B
    modifies n
    ensures Local(n, h, keys, links)
  {
    CopyEntries(c, n, h, keys, links);
    n.degree := c.degree;
    n.height := c.height;
  }
}
