/** The operations of ch5/bino_heap.c on a heap, which is known by its root node. */
module BinomialHeap {
  import opened Prelude
  import opened BinomialRow
  import opened BinomialMerge

  // ---- The minimum.

  /** The index of the first block with the smallest key. */
  predicate IsMin(s: Row, i: nat) {
    && i < |s| && (forall j :: 0 <= j < |s| ==> s[i].key <= s[j].key) && forall j :: 0 <= j < i ==> s[i].key < s[j].key
  }

  /** In a half-ordered heap the smallest key of the row is the smallest of all. */
  lemma {:induction false} MinOfAll(s: Row, k: int, p: Pair)
    requires Ordered(s) && (forall j :: 0 <= j < |s| ==> k <= s[j].key) && p in Items(s)
    ensures k <= p.key
  {
    if p in Items(s[0].kids) {
      AtLeastItems(s[0].kids, s[0].key, p);
    } else if p in Items(s[1..]) {
      assert forall j :: 0 <= j < |s[1..]| ==> s[1..][j] == s[j + 1];
      MinOfAll(s[1..], k, p);
    }
  }

  lemma {:induction false} HeadInItems(s: Row, i: nat)
    requires i < |s|
    ensures Pair(s[i].key, s[i].obj) in Items(s)
  {
    if i > 0 { HeadInItems(s[1..], i - 1); }
  }

  lemma {:induction false} HeldAt(s: Row, i: nat)
    requires Held(s) && i < |s|
    ensures Body(s[i]) && s[i].node.left == if i + 1 < |s| then s[i + 1].node else null
  {
    if i > 0 { HeldAt(s[1..], i - 1); }
  }

  method FindMinKey(hp: Node, ghost s: Row) returns (k: int)
    requires s != [] && Held(s) && Head(s) == hp && Ordered(s)
    ensures (forall p :: p in Items(s) ==> k <= p.key) && exists p :: p in Items(s) && p.key == k
  {
    var tmp := hp;
    HeldAt(s, 0);
    k := hp.key;
    ghost var i, m: nat := 0, 0;
    while tmp.left != null
      invariant Held(s) && 0 <= i < |s| && tmp == s[i].node && Body(s[i])
      invariant tmp.left == (if i + 1 < |s| then s[i + 1].node else null)
      invariant m <= i && k == s[m].key && forall j :: 0 <= j <= i ==> k <= s[j].key
      decreases |s| - i
    {
      HeldAt(s, i + 1);
      tmp := tmp.left;
      i := i + 1;
      if tmp.key < k {
        k := tmp.key;
        m := i;
      }
    }
    HeadInItems(s, m);
    assert Pair(s[m].key, s[m].obj).key == k;
    forall p | p in Items(s) ensures k <= p.key { MinOfAll(s, k, p); }
  }

  /** The search of delete_min: the first smallest block, and the node above it on the left path. */
  method FindMin(hp: Node, ghost s: Row) returns (min1: Node, min2: Node, ghost m: nat)
    requires s != [] && Held(s) && Head(s) == hp
    ensures IsMin(s, m) && min1 == s[m].node && min2 == if m == 0 then hp else s[m - 1].node
  {
    var tmp1, tmp2 := hp, hp;
    HeldAt(s, 0);
    var tmpKey := hp.key;
    min1, min2, m := hp, hp, 0;
    ghost var i := 0;
    while tmp1.left != null
      invariant Held(s) && 0 <= i < |s| && tmp1 == s[i].node && Body(s[i])
      invariant tmp1.left == (if i + 1 < |s| then s[i + 1].node else null)
      invariant m <= i && tmpKey == s[m].key && min1 == s[m].node && min2 == if m == 0 then hp else s[m - 1].node
      invariant (forall j :: 0 <= j <= i ==> tmpKey <= s[j].key) && forall j :: 0 <= j < m ==> tmpKey < s[j].key
      decreases |s| - i
    {
      HeldAt(s, i + 1);
      tmp2 := tmp1;
      tmp1 := tmp1.left;
      i := i + 1;
      if tmp1.key < tmpKey {
        tmpKey := tmp1.key;
        min1 := tmp1;
        min2 := tmp2;
        m := i;
      }
    }
  }

  // ---- Copying the root.

  /** The heap with its root in another node. */
  function Moved(s: Row, n: Node): Row
    requires s != []
  {
    [Block(n, s[0].key, s[0].obj, s[0].height, s[0].kids)] + s[1..]
  }

  lemma MovedSame(s: Row, n: Node)
    requires s != []
    ensures Size(Moved(s, n)) == Size(s) && (Heap(Moved(s, n)) <==> Heap(s))
    ensures forall p :: Count(Moved(s, n), p) == Count(s, p)
  {
    assert Moved(s, n)[1..] == s[1..];
  }

  lemma MovedNodes(s: Row, n: Node)
    requires s != [] && Distinct(s) && n !in Nodes(s)
    ensures Distinct(Moved(s, n)) && Nodes(Moved(s, n)) == Nodes(s) - {s[0].node} + {n}
  {
    assert Moved(s, n)[1..] == s[1..];
  }

  method CopyRoot(from: Node, to: Node, ghost s: Row)
    requires s != [] && Held(s) && Distinct(s) && Head(s) == from && to !in Nodes(s)
    modifies to
    ensures Held(Moved(s, to)) && Head(Moved(s, to)) == to
  {
    HeldTail(s);
    assert Body(s[0]) && Held(s[0].kids) && Held(s[1..]);
    to.left := from.left;
    to.right := from.right;
    to.key := from.key;
    to.obj := from.obj;
    to.height := from.height;
    assert Held(s[0].kids) && Held(s[1..]);
    NodesOnTop(Block(to, s[0].key, s[0].obj, s[0].height, s[0].kids), s[1..]);
  }

  // ---- Insertion.

  lemma Single(n: Node, key: int, obj: int)
    requires n.height == 0 && n.key == key && n.obj == obj && n.left == null && n.right == null
    ensures var s := [Block(n, key, obj, 0, [])];
      && Held(s) && Distinct(s) && Nodes(s) == {n} && Heap(s) && Size(s) == 1 && Head(s) == n
      && forall p :: Count(s, p) == if p == Pair(key, obj) then 1 else 0
  {
    var b := Block(n, key, obj, 0, []);
    assert [b] + [] == [b];
    OneBlock(b);
    NodesOnTop(b, []);
    assert Held(b.kids) && Body(b);
    forall p ensures Count([b], p) == Here(b, p) { CountOnTop(b, [], p); }
  }

  /** The heap s has its root in hp; an empty heap is marked by the height -1. */
  ghost predicate Rooted(hp: Node, s: Row)
    reads {hp} + Nodes(s)
  {
    if s == [] then hp.height == -1 else Head(s) == hp && Held(s) && Distinct(s) && Heap(s)
  }

  method Insert(hp: Node, key: int, obj: int, ghost s: Row) returns (ghost u: Row)
    requires Rooted(hp, s)
    modifies {hp} + Nodes(s)
    ensures Rooted(hp, u) && u != [] && Size(u) == Size(s) + 1
    ensures forall p :: Count(u, p) == Count(s, p) + if p == Pair(key, obj) then 1 else 0
    ensures forall o :: o in Nodes(u) && o !in Nodes(s) + {hp} ==> fresh(o)
  {
    Allocated(s);
    if s != [] { HeldAt(s, 0); }
    var newNode := new Node(0, key, obj, null, null);
    Single(newNode, key, obj);
    ghost var one := [Block(newNode, key, obj, 0, [])];
    if hp.height == -1 {
      CopyRoot(newNode, hp, one);
      u := Moved(one, hp);
      MovedNodes(one, hp);
      MovedSame(one, hp);
    } else {
      u := InsertInto(hp, newNode, s, one);
    }
  }

  method InsertInto(hp: Node, newNode: Node, ghost s: Row, ghost one: Row) returns (ghost u: Row)
    requires Rooted(hp, s) && s != [] && Rooted(newNode, one) && one != [] && Nodes(one) !! Nodes(s)
    modifies Nodes(s) + Nodes(one)
    ensures Rooted(hp, u) && u != [] && Size(u) == Size(s) + Size(one)
    ensures forall p :: Count(u, p) == Count(s, p) + Count(one, p)
    ensures forall o :: o in Nodes(u) && o !in Nodes(s) + Nodes(one) ==> fresh(o)
  {
    Allocated(s);
    Allocated(one);
    var tmp := new Node(0, 0, 0, null, null);
    CopyRoot(hp, tmp, s);
    ghost var s1 := Moved(s, tmp);
    MovedNodes(s, tmp);
    MovedSame(s, tmp);
    var tmp2; ghost var m;
    tmp2, m := Merge(newNode, tmp, one, s1);
    CopyRoot(tmp2, hp, m);
    u := Moved(m, hp);
    MovedNodes(m, hp);
    MovedSame(m, hp);
  }

  /** The merge of any two heaps; an empty one leaves the other as it is. */
  method MergeHeaps(hp1: Node, hp2: Node, ghost s: Row, ghost t: Row) returns (r: Node, ghost u: Row)
    requires Rooted(hp1, s) && Rooted(hp2, t) && Nodes(s) !! Nodes(t)
    modifies Nodes(s) + Nodes(t)
    ensures Rooted(r, u) && Nodes(u) == Nodes(s) + Nodes(t)
    ensures Size(u) == Size(s) + Size(t) && forall p :: Count(u, p) == Count(s, p) + Count(t, p)
  {
    if s != [] { HeldAt(s, 0); }
    if t != [] { HeldAt(t, 0); }
    if hp1.height == -1 { return hp2, t; }
    if hp2.height == -1 { return hp1, s; }
    r, u := Merge(hp1, hp2, s, t);
  }

  // ---- Removing a smallest pair.

  /** The row without block m. */
  function Without(s: Row, m: nat): Row
    requires m < |s|
  {
    s[..m] + s[m + 1..]
  }

  lemma {:induction false} WithoutSame(s: Row, m: nat, bound: nat, p: Pair)
    requires m < |s| && Falling(s, bound) && Ordered(s)
    ensures Falling(Without(s, m), bound) && Ordered(Without(s, m))
    ensures Count(s, p) == Count(Without(s, m), p) + Here(s[m], p)
    ensures Full(s[m].kids, s[m].height) && AtLeast(s[m].kids, s[m].key)
  {
    if m == 0 {
      assert Without(s, 0) == s[1..];
      if s[1..] != [] { FallingFrom(s[1..], s[0].height, bound); }
    } else {
      WithoutSame(s[1..], m - 1, s[0].height, p);
      assert Without(s, m) == [s[0]] + Without(s[1..], m - 1);
      assert Without(s, m)[1..] == Without(s[1..], m - 1);
    }
  }

  lemma WithoutNodes(s: Row, m: nat)
    requires m < |s| && Distinct(s)
    ensures Distinct(Without(s, m)) && Distinct(s[m].kids) && Nodes(s[m].kids) !! Nodes(Without(s, m))
    ensures s[m].node !in Nodes(Without(s, m)) + Nodes(s[m].kids)
    ensures Nodes(s) == {s[m].node} + Nodes(s[m].kids) + Nodes(Without(s, m))
  {
    var left, b, right := s[..m], s[m], s[m + 1..];
    CutRow(s, m);
    NodesConcat(left, [b] + right);
    DistinctConcat(left, [b] + right);
    NodesOnTop(b, right);
    SetsOut(Nodes(left), Nodes(b.kids), Nodes(right), b.node);
    NodesConcat(left, right);
    DistinctConcat(left, right);
  }

  lemma CutRow(s: Row, m: nat)
    requires m < |s|
    ensures s == s[..m] + ([s[m]] + s[m + 1..])
  {
  }

  lemma SetsOut(left: set<Node>, kids: set<Node>, right: set<Node>, n: Node)
    requires left !! {n} + kids + right && n !in kids + right && kids !! right
    ensures left !! right && kids !! left + right && n !in left + right + kids
    ensures left + ({n} + kids + right) == {n} + kids + (left + right)
  {
  }

  /** Unlinking a block that is not the first. */
  lemma {:induction false} UnlinkedChain(s: Row, m: nat)
    requires 0 < m < |s| && Loose(s)
    requires forall i :: 0 <= i < |s| - 1 && i != m - 1 && i != m ==> s[i].node.left == s[i + 1].node
    requires s[m - 1].node.left == (if m + 1 < |s| then s[m + 1].node else null)
    requires m < |s| - 1 ==> s[|s| - 1].node.left == null
    ensures Held(Without(s, m))
    decreases m
  {
    var u := Without(s, m);
    CutRow(s, m);
    LooseConcat(s[..m], [s[m]] + s[m + 1..]);
    NodesOnTop(s[m], s[m + 1..]);
    LooseConcat(s[..m], s[m + 1..]);
    forall i | 0 <= i < |u| ensures u[i].node.left == LeftOf(u, i) {
      if i >= m { assert u[i] == s[i + 1]; }
    }
    ChainByIndex(u);
  }

  lemma {:induction false} ChainByIndex(s: Row)
    requires forall i :: 0 <= i < |s| ==> s[i].node.left == LeftOf(s, i)
    ensures Chain(s)
  {
    if s != [] {
      var t := s[1..];
      forall i | 0 <= i < |t| ensures t[i].node.left == LeftOf(t, i) {
        assert s[i + 1].node.left == LeftOf(s, i + 1) && t[i] == s[i + 1];
        assert i + 1 < |t| ==> t[i + 1] == s[i + 2];
      }
      ChainByIndex(t);
      assert s[0].node.left == LeftOf(s, 0);
    }
  }

  function LeftOf(s: Row, i: nat): Node?
    requires i < |s|
  {
    if i + 1 < |s| then s[i + 1].node else null
  }

  /** A block below gives a heap of its own. */
  lemma KidsHeap(b: Block, p: Pair)
    requires Full(b.kids, b.height) && AtLeast(b.kids, b.key)
    ensures Heap(b.kids) && Size(b.kids) + 1 == Pow2(b.height) && (b.height > 0 <==> b.kids != [])
    ensures Here(b, p) == Count(b.kids, p) + if p == Pair(b.key, b.obj) then 1 else 0
  {
    FullCount(b.kids, b.height);
    AtLeastOrdered(b.kids, b.key);
    if b.kids != [] { FallingFrom(b.kids, b.height, b.kids[0].height + 1); }
  }

  /** u holds what s does but for one pair with the key and object of block m. */
  ghost predicate Lost(s: Row, m: nat, u: Row)
    requires m < |s|
  {
    Heap(u) && forall p :: Count(s, p) == Count(u, p) + if p == Pair(s[m].key, s[m].obj) then 1 else 0
  }

  lemma WithoutHeap(s: Row, m: nat)
    requires m < |s| && Heap(s)
    ensures Heap(Without(s, m)) && Heap(s[m].kids) && (s[m].height > 0 <==> s[m].kids != [])
    ensures forall p ::
      Count(s, p) == Count(Without(s, m), p) + Count(s[m].kids, p) + if p == Pair(s[m].key, s[m].obj) then 1 else 0
  {
    var any := Pair(0, 0);
    WithoutSame(s, m, s[0].height + 1, any);
    KidsHeap(s[m], any);
    var u := Without(s, m);
    if u != [] { FallingFrom(u, s[0].height + 1, u[0].height + 1); }
    forall p ensures Count(s, p) == Count(u, p) + Count(s[m].kids, p) + if p == Pair(s[m].key, s[m].obj) then 1 else 0 {
      WithoutSame(s, m, s[0].height + 1, p);
      KidsHeap(s[m], p);
    }
  }

  /** Takes block m out of the row, linking its left neighbour past it. */
  method Unlink(min1: Node, min2: Node, ghost s: Row, ghost m: nat)
    requires 0 < m < |s| && Held(s) && Distinct(s) && min1 == s[m].node && min2 == s[m - 1].node
    modifies min2
    ensures Held(Without(s, m)) && Body(s[m])
  {
    forall i | 0 <= i < |s| ensures Body(s[i]) && s[i].node.left == LeftOf(s, i) { HeldAt(s, i); }
    forall i | 0 <= i < |s| ensures (i != m - 1 ==> s[i].node != min2) && min2 !in Nodes(s[i].kids) {
      if i != m - 1 { DistinctAt(s, m - 1, i); } else { WithoutNodes(s, m - 1); }
    }
    min2.left := min1.left;
    forall i | 0 <= i < |s| ensures Body(s[i]) { }
    LooseByIndex(s);
    UnlinkedChain(s, m);
  }

  lemma {:induction false} DistinctAt(s: Row, i: nat, j: nat)
    requires Distinct(s) && i < |s| && j < |s| && i != j
    ensures s[i].node != s[j].node && s[i].node !in Nodes(s[j].kids)
  {
    WithoutNodes(s, j);
    assert Without(s, j)[if i < j then i else i - 1] == s[i];
    NodeIn(Without(s, j), if i < j then i else i - 1);
  }

  lemma {:induction false} NodeIn(s: Row, i: nat)
    requires i < |s|
    ensures s[i].node in Nodes(s)
  {
    if i > 0 { NodeIn(s[1..], i - 1); }
  }

  lemma {:induction false} LooseByIndex(s: Row)
    requires forall i :: 0 <= i < |s| ==> Body(s[i])
    ensures Loose(s)
  {
    if s != [] {
      assert forall i :: 0 <= i < |s[1..]| ==> s[1..][i] == s[i + 1];
      LooseByIndex(s[1..]);
    }
  }

  /** Merges two heaps and copies the new root to hp. */
  method MergeTo(hp: Node, hp1: Node, hp2: Node, ghost s: Row, ghost t: Row) returns (ghost u: Row)
    requires Two(s, t) && Heap(s) && Heap(t) && Head(s) == hp1 && Head(t) == hp2 && hp !in Nodes(s) + Nodes(t)
    modifies {hp} + Nodes(s) + Nodes(t)
    ensures Rooted(hp, u) && u != [] && Nodes(u) <= {hp} + Nodes(s) + Nodes(t)
    ensures forall p :: Count(u, p) == Count(s, p) + Count(t, p)
  {
    var r; ghost var c;
    r, c := Merge(hp1, hp2, s, t);
    CopyRoot(r, hp, c);
    u := Moved(c, hp);
    MovedNodes(c, hp);
    MovedSame(c, hp);
  }

  /** The smallest block is not the first. */
  method DeleteLower(hp: Node, min1: Node, min2: Node, ghost s: Row, ghost m: nat) returns (ghost u: Row)
    requires Rooted(hp, s) && 0 < m < |s| && min1 == s[m].node && min2 == s[m - 1].node
    modifies Nodes(s)
    ensures Rooted(hp, u) && u != [] && Lost(s, m, u) && Nodes(u) <= Nodes(s)
  {
    ghost var w, b := Without(s, m), s[m];
    WithoutHeap(s, m);
    WithoutNodes(s, m);
    assert w[0] == s[0] && Head(w) == hp;
    NodeIn(s, m - 1);
    Unlink(min1, min2, s, m);
    if min1.height > 0 {
      u := MergeRest(hp, min1, w, b);
    } else {
      u := w;
    }
  }

  /** The root moves to the node freed, and is merged with what was below it. */
  method MergeRest(hp: Node, min1: Node, ghost w: Row, ghost b: Block) returns (ghost u: Row)
    requires Rooted(hp, w) && w != [] && Body(b) && b.node == min1 && b.kids != [] && Heap(b.kids)
    requires Distinct(b.kids) && Nodes(b.kids) !! Nodes(w) && min1 !in Nodes(w) + Nodes(b.kids)
    modifies {min1} + Nodes(w) + Nodes(b.kids)
    ensures Rooted(hp, u) && u != [] && Nodes(u) <= {min1} + Nodes(w) + Nodes(b.kids)
    ensures forall p :: Count(u, p) == Count(w, p) + Count(b.kids, p)
  {
    var tmp1 := min1.right;
    Allocated(b.kids);
    assert Held(b.kids);
    MovedNodes(w, min1);
    MovedSame(w, min1);
    CopyRoot(hp, min1, w);
    assert Held(b.kids);
    u := MergeTo(hp, min1, tmp1, Moved(w, min1), b.kids);
  }

  /** The smallest block is the root. */
  method DeleteRoot(hp: Node, ghost s: Row) returns (ghost u: Row)
    requires Rooted(hp, s) && s != [] && s[0].height > 0
    modifies Nodes(s)
    ensures Rooted(hp, u) && u != [] && Lost(s, 0, u) && Nodes(u) <= Nodes(s)
  {
    ghost var kids, rest := s[0].kids, s[1..];
    WithoutHeap(s, 0);
    WithoutNodes(s, 0);
    HeldAt(s, 0);
    HeldTail(s);
    assert Without(s, 0) == rest;
    if hp.left != null {
      u := MergeTo(hp, hp.left, hp.right, rest, kids);
    } else {
      CopyRoot(hp.right, hp, kids);
      u := Moved(kids, hp);
      MovedNodes(kids, hp);
      MovedSame(kids, hp);
    }
  }

  /** Removes one pair with the smallest key. */
  method DeleteMin(hp: Node, ghost s: Row) returns (obj: int, ghost m: nat, ghost u: Row)
    requires Rooted(hp, s) && s != []
    modifies Nodes(s)
    ensures IsMin(s, m) && obj == s[m].obj && Rooted(hp, u) && Lost(s, m, u) && Nodes(u) <= Nodes(s)
  {
    HeldAt(s, 0);
    if hp.height == 0 {
      LastOne(s);
      hp.height := -1;
      return hp.obj, 0, [];
    }
    Allocated(s);
    var min1, min2;
    min1, min2, m := FindMin(hp, s);
    HeldAt(s, m);
    obj := min1.obj;
    if min1 != min2 {
      u := DeleteLower(hp, min1, min2, s, m);
    } else {
      if m > 0 { DistinctAt(s, m, m - 1); }
      u := DeleteRoot(hp, s);
    }
  }

  lemma LastOne(s: Row)
    requires s != [] && Heap(s) && s[0].height == 0
    ensures IsMin(s, 0) && Lost(s, 0, []) && Size(s) == 1
  {
    assert Falling(s[1..], s[0].height) && Full(s[0].kids, 0);
    assert s[1..] == [] && s[0].kids == [];
    WithoutHeap(s, 0);
    assert Without(s, 0) == [];
  }

  // ---- The heap.

  lemma SameItems(s: Row, u: Row, more: multiset<Pair>)
    requires forall p :: Count(u, p) == Count(s, p) + more[p]
    ensures Items(u) == Items(s) + more
  {
    forall p ensures Items(u)[p] == (Items(s) + more)[p] {
      ItemsCount(s, p);
      ItemsCount(u, p);
    }
  }

  lemma OneMore(s: Row, u: Row, q: Pair)
    requires forall p :: Count(u, p) == Count(s, p) + if p == q then 1 else 0
    ensures Items(u) == Items(s) + multiset{q}
  {
    SameItems(s, u, multiset{q});
  }

  /** What is lost is one pair of smallest key. */
  lemma MinLost(s: Row, m: nat, u: Row)
    requires IsMin(s, m) && Ordered(s) && Lost(s, m, u)
    ensures var q := Pair(s[m].key, s[m].obj);
      q in Items(s) && (forall p :: p in Items(s) ==> q.key <= p.key) && Items(u) == Items(s) - multiset{q}
  {
    var q := Pair(s[m].key, s[m].obj);
    HeadInItems(s, m);
    forall p | p in Items(s) ensures q.key <= p.key { MinOfAll(s, q.key, p); }
    OneMore(u, s, q);
    assert Items(s) - multiset{q} == Items(u);
  }

  class PriorityQueue {
    const hp: Node
    ghost var row: Row

    ghost function Repr(): set<object>
      reads this
    {
      {this, hp} + Nodes(row)
    }

    ghost predicate Valid()
      reads this, Repr()
    {
      Rooted(hp, row)
    }

    ghost function Pairs(): multiset<Pair>
      reads this
    {
      Items(row)
    }

    constructor ()
      ensures Valid() && fresh(Repr()) && Pairs() == multiset{}
    {
      hp := new Node(-1, 0, 0, null, null);
      row := [];
    }

    method Empty() returns (r: bool)
      requires Valid()
      ensures r <==> Pairs() == multiset{}
    {
      if row != [] {
        HeldAt(row, 0);
        HeadInItems(row, 0);
      }
      r := hp.height == -1;
    }

    method MinKey() returns (k: int)
      requires Valid() && Pairs() != multiset{}
      ensures (forall p :: p in Pairs() ==> k <= p.key) && exists p :: p in Pairs() && p.key == k
    {
      k := FindMinKey(hp, row);
    }

    method Add(key: int, obj: int)
      requires Valid()
      modifies Repr()
      ensures Valid() && (forall o :: o in Repr() && o !in old(Repr()) ==> fresh(o))
      ensures Pairs() == old(Pairs()) + multiset{Pair(key, obj)}
    {
      ghost var u := Insert(hp, key, obj, row);
      OneMore(row, u, Pair(key, obj));
      Allocated(u);
      row := u;
    }

    /** Removes a pair of smallest key and returns its object. */
    method RemoveMin() returns (obj: int, ghost key: int)
      requires Valid() && Pairs() != multiset{}
      modifies Repr()
      ensures Valid() && Repr() <= old(Repr())
      ensures Pair(key, obj) in old(Pairs()) && (forall p :: p in old(Pairs()) ==> key <= p.key)
      ensures Pairs() == old(Pairs()) - multiset{Pair(key, obj)}
    {
      ghost var m, u;
      obj, m, u := DeleteMin(hp, row);
      key := row[m].key;
      MinLost(row, m, u);
      row := u;
    }

    /** The blocks of the row are the binary digits of the number of pairs. */
    lemma Digits(h: nat)
      requires Valid()
      ensures HasHeight(row, h) <==> Bit(|Pairs()|, h)
    {
      if row == [] {
        NoBits(h);
      } else {
        FallingCount(row, row[0].height + 1);
        HeightsAreBits(row, row[0].height + 1, h);
      }
    }
  }
}
