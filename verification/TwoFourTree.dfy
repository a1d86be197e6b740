/** Find, insert and delete of ch3/a_b_tree.c. */
module TwoFourTree {
  import opened Prelude
  import opened BlockTree
  import opened BlockNode
  import opened BlockHeap

  lemma {:induction false} HoldsKid(kids: seq<Tree>, i: nat)
    requires HoldsAll(kids) && i < |kids|
    ensures Holds(kids[i])
  {
    if i > 0 { HoldsKid(kids[1..], i - 1); }
  }

  method Find(root: Node, q: int, ghost t: Tree) returns (r: Option<int>)
    requires t.Block? && t.node == root && Holds(t) && Shaped(t) && InRange(t, None, None) && t.keys != []
    ensures r == if q in Contents(t) then Some(Contents(t)[q]) else None
  {
    var n := root;
    ghost var s, lo, hi := t, None, None;
    while n.height > 0
      invariant s.Block? && s.node == n && Holds(s) && Entries(s.kids, s.height) && InRange(s, lo, hi) && s.keys != []
      invariant q in Contents(t) <==> q in Contents(s)
      invariant q in Contents(t) ==> Contents(t)[q] == Contents(s)[q]
      decreases s
    {
      assert HoldsAll(s.kids);
      AllocatedAll(s.kids);
      var lower := SearchIndex(n, q, s.height, s.keys, Links(s.kids));
      SearchEntry(s, lo, hi, lower, q);
      HoldsKid(s.kids, lower);
      assert Entry(s.kids[lower], s.height) &&
        InRange(s.kids[lower], LowOf(s.keys, lower, lo), HighOf(s.keys, lower, hi));
      n := n.next[lower].node;
      s, lo, hi := s.kids[lower], LowOf(s.keys, lower, lo), HighOf(s.keys, lower, hi);
    }
    var lower := SearchIndex(n, q, 0, s.keys, Links(s.kids));
    SearchEntry(s, lo, hi, lower, q);
    assert Entry(s.kids[lower], 0);
    if n.key[lower] == q { r := Some(n.next[lower].obj); } else { r := None; }
  }

  function Stack(p: Path): seq<Node> {
    if p.Top? then [] else Stack(p.up) + [p.node]
  }

  function Indexes(p: Path): seq<nat> {
    if p.Top? then [] else Indexes(p.up) + [|p.left|]
  }

  /** A block at the end of a path, of the right shape and height. */
  ghost predicate Standing(p: Path, s: Tree) {
    s.Block? && PathShaped(p, s.height) && if p.Top? then Shaped(s) else Entry(s, s.height + 1)
  }

  /** The way down to the leaf block of q. */
  method Descend(root: Node, q: int, ghost t: Tree)
    returns (n: Node, stack: seq<Node>, index: seq<nat>, ghost p: Path, ghost s: Tree)
    requires t.Block? && t.node == root && At(Top, t) && Shaped(t)
    ensures At(p, s) && s.node == n && s.height == 0 && stack == Stack(p) && index == Indexes(p)
    ensures Plug(p, s) == t && PathNodes(p) + Nodes(s) == Nodes(t) && OnPath(p, q) && Standing(p, s)
  {
    n, stack, index, p, s := root, [], [], Top, t;
    while n.height > 0
      invariant At(p, s) && s.node == n && stack == Stack(p) && index == Indexes(p)
      invariant Plug(p, s) == t && PathNodes(p) + Nodes(s) == Nodes(t) && OnPath(p, q) && Standing(p, s)
      decreases s.height
    {
      Allocated(s);
      PathAllocated(p);
      var lower := SearchIndex(n, q, s.height, s.keys, Links(s.kids));
      index := index + [lower];
      stack := stack + [n];
      StandingDown(p, s, lower);
      StepDown(p, s, lower);
      n := n.next[lower].node;
      p, s := DownPath(p, s, lower), s.kids[lower];
    }
  }

  lemma StandingDown(p: Path, s: Tree, i: nat)
    requires Standing(p, s) && s.height > 0 && i < |s.kids|
    ensures s.kids[i].Block? && s.kids[i].height == s.height - 1 && Standing(DownPath(p, s, i), s.kids[i])
  {
    assert Entry(s.kids[i], s.height);
    assert Entries(s.kids, s.height);
  }

  // ---- Insertion.

  /** The block t with one more entry, possibly one too many. */
  function Inserted(t: Tree, k: int, x: Tree): Tree
    requires t.Block? && Start(t.height) <= |t.keys| == |t.kids|
  {
    var i := Place(t.keys, Start(t.height), k);
    Block(t.node, t.height, Ins(t.keys, i, k), Ins(t.kids, i, x))
  }

  /** The entry (k, x) remains to be put into the block t. */
  ghost predicate Pending(p: Path, t: Tree, k: int, x: Tree) {
    && Standing(p, t) && Entry(x, t.height) && Start(t.height) <= |t.keys|
    && InRange(Plug(p, Inserted(t, k, x)), None, None)
  }

  lemma OwnIns(kids: seq<Tree>, i: nat, x: Tree)
    requires i <= |kids| && Own(kids) && Holds(x) && Distinct(x) && Nodes(x) !! NodesAll(kids)
    ensures Own(Ins(kids, i, x)) && NodesAll(Ins(kids, i, x)) == NodesAll(kids) + Nodes(x)
  {
    assert kids[..i] + kids[i..] == kids;
    OwnConcat(kids[..i], kids[i..]);
    OwnAround(kids[..i], x, kids[i..]);
  }

  lemma LinksIns(kids: seq<Tree>, i: nat, x: Tree)
    requires i <= |kids|
    ensures Links(Ins(kids, i, x)) == Ins(Links(kids), i, LinkOf(x))
  {
    InsPoint(kids, i, x);
    InsPoint(Links(kids), i, LinkOf(x));
  }

  lemma EntriesIns(kids: seq<Tree>, i: nat, x: Tree, h: nat)
    requires i <= |kids| && Entries(kids, h) && Entry(x, h)
    ensures Entries(Ins(kids, i, x), h)
  {
    InsPoint(kids, i, x);
  }

  /** The block has room. */
  method InsertHere(n: Node, k: int, link: Link, ghost p: Path, ghost t: Tree, ghost x: Tree)
    requires At(p, t) && t.node == n && Start(t.height) <= |t.keys| == |t.kids| < B && link == LinkOf(x)
    requires Holds(x) && Distinct(x) && Nodes(x) !! PathNodes(p) + Nodes(t)
    modifies n
    ensures At(p, Inserted(t, k, x)) && Nodes(Inserted(t, k, x)) == Nodes(t) + Nodes(x)
  {
    ghost var i := Place(t.keys, Start(t.height), k);
    OwnIns(t.kids, i, x);
    LinksIns(t.kids, i, x);
    AllocatedAll(Ins(t.kids, i, x));
    PathAllocated(p);
    InsertEntry(n, k, link, t.height, t.keys, Links(t.kids));
  }

  /** The lower and the upper part of an overfull block. */
  function Lower(u: Tree): Tree
    requires u.Block? && |u.keys| == |u.kids| == B + 1
  {
    Block(u.node, u.height, u.keys[..3], u.kids[..3])
  }

  function Upper(u: Tree, m: Node): Tree
    requires u.Block? && |u.keys| == |u.kids| == B + 1
  {
    Block(m, u.height, u.keys[3..], u.kids[3..])
  }

  /** What the split does to the heap. */
  method SplitRow(n: Node, k: int, link: Link, ghost p: Path, ghost t: Tree, ghost low: seq<Tree>,
      ghost high: seq<Tree>)
    returns (m: Node)
    requires t.Block? && t.node == n && Local(n, t.height, t.keys, Links(t.kids)) && |t.keys| == B
    requires PathHolds(p, n) && n !in PathNodes(p) && Own(low) && Own(high) && n !in NodesAll(low) + NodesAll(high)
    requires Links(low + high) == Ins(Links(t.kids), Place(t.keys, Start(t.height), k), link) && |low| == 3
    modifies n
    ensures fresh(m) && Own(low) && Own(high) && PathHolds(p, n)
    ensures var keys := Ins(t.keys, Place(t.keys, Start(t.height), k), k);
      && |keys| == B + 1 && Local(n, t.height, keys[..3], Links(low)) && Local(m, t.height, keys[3..], Links(high))
      && m.key[0] == keys[3]
  {
    AllocatedAll(low);
    AllocatedAll(high);
    PathAllocated(p);
    assert Links(low) == Links(low + high)[..3] && Links(high) == Links(low + high)[3..];
    m := SplitNode(n, k, link, t.height, t.keys, Links(t.kids));
  }

  method SplitHere(n: Node, k: int, link: Link, ghost p: Path, ghost t: Tree, ghost x: Tree)
    returns (m: Node, ghost l: Tree, ghost r: Tree)
    requires At(p, t) && t.node == n && |t.keys| == |t.kids| == B && link == LinkOf(x)
    requires Holds(x) && Distinct(x) && Nodes(x) !! PathNodes(p) + Nodes(t)
    modifies n
    ensures fresh(m) && |Inserted(t, k, x).keys| == |Inserted(t, k, x).kids| == B + 1
    ensures l == Lower(Inserted(t, k, x)) && r == Upper(Inserted(t, k, x), m) && m.key != [] && m.key[0] == r.keys[0]
    ensures At(p, l) && Holds(r) && Distinct(r) && Nodes(r) !! PathNodes(p) && Nodes(r) !! Nodes(l)
    ensures Nodes(l) + Nodes(r) == Nodes(t) + Nodes(x) + {m}
  {
    ghost var i := Place(t.keys, Start(t.height), k);
    ghost var keys, kids := Ins(t.keys, i, k), Ins(t.kids, i, x);
    OwnCut(t.kids, i, x);
    LinksIns(t.kids, i, x);
    ghost var low, high := kids[..3], kids[3..];
    AllocatedAll(low);
    AllocatedAll(high);
    PathAllocated(p);
    assert kids == low + high;
    SetsApart(NodesAll(low), NodesAll(high), NodesAll(t.kids), Nodes(x), PathNodes(p), n);
    m := SplitRow(n, k, link, p, t, low, high);
    l, r := Block(n, t.height, keys[..3], low), Block(m, t.height, keys[3..], high);
    SetsSplit(NodesAll(low), NodesAll(high), NodesAll(t.kids), Nodes(x), PathNodes(p), n, m);
  }

  lemma SetsApart(low: set<Node>, high: set<Node>, kids: set<Node>, x: set<Node>, path: set<Node>, n: Node)
    requires low + high == kids + x && x !! path + ({n} + kids) && path !! {n} + kids && n !in kids
    ensures n !in low + high && low + high !! path
  {
  }

  lemma SetsSplit(low: set<Node>, high: set<Node>, kids: set<Node>, x: set<Node>, path: set<Node>, n: Node, m: Node)
    requires low !! high && low + high == kids + x && n !in low + high && low + high !! path && n !in path
    requires m !in low + high && m !in path && m != n
    ensures path !! {n} + low && {m} + high !! path && {m} + high !! {n} + low
    ensures {n} + low + ({m} + high) == {n} + kids + x + {m}
  {
  }

  lemma OwnCut(kids: seq<Tree>, i: nat, x: Tree)
    requires i <= |kids| == B && Own(kids) && Holds(x) && Distinct(x) && Nodes(x) !! NodesAll(kids)
    ensures var s := Ins(kids, i, x);
      && |s| == B + 1 && Own(s[..3]) && Own(s[3..]) && NodesAll(s[..3]) !! NodesAll(s[3..])
      && NodesAll(s[..3]) + NodesAll(s[3..]) == NodesAll(kids) + Nodes(x)
  {
    var s := Ins(kids, i, x);
    OwnIns(kids, i, x);
    assert s == s[..3] + s[3..];
    OwnConcat(s[..3], s[3..]);
  }

  /** A separator that falls between two others has its place there. */
  lemma PlaceBetween(keys: seq<int>, i: nat, k: int, lo: Option<int>, hi: Option<int>)
    requires Increasing(keys, 1) && i < |keys| && Below(LowOf(keys, i, lo), k - 1) && Above(k, HighOf(keys, i, hi))
    ensures Place(keys, 1, k) == i + 1
  {
  }

  lemma InsertedShape(t: Tree, k: int, x: Tree, m: Node)
    requires t.Block? && |t.keys| == |t.kids| == B && Entries(t.kids, t.height) && Entry(x, t.height)
    ensures var u := Inserted(t, k, x);
      && |u.keys| == |u.kids| == B + 1 && Entries(u.kids, u.height)
      && Entry(Lower(u), u.height + 1) && Entry(Upper(u, m), u.height + 1)
  {
    var i := Place(t.keys, Start(t.height), k);
    EntriesIns(t.kids, i, x, t.height);
    InsPoint(t.keys, i, k);
    InsPoint(t.kids, i, x);
    var u := Inserted(t, k, x);
    assert forall j :: 0 <= j < 3 ==> Entry(u.kids[..3][j], u.height);
    assert forall j :: 0 <= j < 2 ==> Entry(u.kids[3..][j], u.height);
  }

  /** The overfull block u cut in two: what the parent makes of it. */
  lemma CarriedRow(p: Path, u: Tree, m: Node)
    requires p.Step? && p.height > 0 && u.Block? && |u.keys| == |u.kids| == B + 1
    requires |p.keys| == |p.left| + 1 + |p.right|
    requires InRange(Parent(p, u), Lo(p.up), Hi(p.up)) && InRange(u, Lo(p), Hi(p))
    ensures var t1 := Parent(p, Lower(u)); var v := Inserted(t1, u.keys[3], Upper(u, m));
      InRange(v, Lo(p.up), Hi(p.up)) && Contents(v) == Contents(Parent(p, u))
  {
    var i, k, l, r, w := |p.left|, u.keys[3], Lower(u), Upper(u, m), Parent(p, u);
    CutInRange(u, 3, Lo(p), Hi(p), u.node, m);
    CutContents(u, 3, u.node, m);
    PlaceBetween(p.keys, i, k, Lo(p.up), Hi(p.up));
    KidSplit(w, i, l, r, k, Lo(p.up), Hi(p.up));
    KidSplitContents(w, i, l, r, k);
    assert w.kids[i := l] == p.left + [l] + p.right;
  }

  /** A split passes the upper half on to the parent. */
  lemma Carried(p: Path, t: Tree, k: int, x: Tree, m: Node)
    requires Pending(p, t, k, x) && p.Step? && |t.keys| == B
    ensures var u := Inserted(t, k, x);
      && |u.keys| == |u.kids| == B + 1
      && var t1, r := Parent(p, Lower(u)), Upper(u, m);
         Pending(p.up, t1, u.keys[3], r) && Contents(Plug(p.up, Inserted(t1, u.keys[3], r))) == Contents(Plug(p, u))
  {
    InsertedShape(t, k, x, m);
    var u := Inserted(t, k, x);
    var t1, r := Parent(p, Lower(u)), Upper(u, m);
    PlugInRange(p, u, t.height);
    PlugInRange(p.up, Parent(p, u), p.height);
    CarriedRow(p, u, m);
    PlugInRange(p.up, Inserted(t1, u.keys[3], r), p.height);
    PlugContents(p.up, Inserted(t1, u.keys[3], r), Parent(p, u), p.height);
    assert Entries(t1.kids, t1.height);
  }

  /** A split of the root. */
  lemma Raised(t: Tree, k: int, x: Tree, c: Node, m: Node)
    requires Pending(Top, t, k, x) && |t.keys| == B
    ensures var u := Inserted(t, k, x);
      && |u.keys| == |u.kids| == B + 1
      && var v := Grown(u, c, m); Shaped(v) && InRange(v, None, None) && Contents(v) == Contents(u)
  {
    InsertedShape(t, k, x, m);
    var u := Inserted(t, k, x);
    CutInRange(u, 3, None, None, c, m);
    CutContents(u, 3, c, m);
    var l, r, h := Block(c, u.height, u.keys[..3], u.kids[..3]), Upper(u, m), t.height + 1;
    assert Entry(l, h) by { assert Entry(Lower(u), h); }
    PairContents(h, u.keys[3], l, r);
    PairInRange(t.node, h, u.keys[3], l, r);
  }

  lemma PairContents(h: nat, k: int, l: Tree, r: Tree)
    requires h > 0
    ensures ContentsIn(h, [0, k], [l, r]) == Contents(l) + Contents(r)
  {
    ContentsLast(h, [0], k, [l], r);
    ContentsLast(h, [], 0, [], l);
    assert [0] + [k] == [0, k] && [l] + [r] == [l, r] && [] + [0] == [0] && [] + [l] == [l];
  }

  lemma PairInRange(n: Node, h: nat, k: int, l: Tree, r: Tree)
    requires h > 0 && InRange(l, None, Some(k)) && InRange(r, Some(k), None)
    ensures InRange(Block(n, h, [0, k], [l, r]), None, None)
  {
  }

  /** The root of a grown tree: the old root's entries are in a new node. */
  method RaiseHere(n: Node, m: Node, k: int, ghost l: Tree, ghost r: Tree) returns (c: Node, ghost v: Tree)
    requires At(Top, l) && l.node == n && |l.keys| >= 2 && r.Block? && r.node == m && Holds(r) && Distinct(r)
    requires Nodes(r) !! Nodes(l)
    modifies n
    ensures At(Top, v) && v.node == n && forall o :: o in Nodes(v) && o !in Nodes(l) + Nodes(r) ==> fresh(o)
    ensures v == Block(n, l.height + 1, [0, k], [Block(c, l.height, l.keys, l.kids), r])
  {
    Allocated(r);
    AllocatedAll(l.kids);
    c := RaiseRoot(n, m, k, l.height, l.keys, Links(l.kids));
    ghost var l' := Block(c, l.height, l.keys, l.kids);
    v := Block(n, l.height + 1, [0, k], [l', r]);
    assert Holds(l') && Distinct(l') && Nodes(l') == {c} + NodesAll(l.kids);
    PairOwn(l', r);
  }

  lemma PairOwn(l: Tree, r: Tree)
    requires Holds(l) && Distinct(l) && Holds(r) && Distinct(r) && Nodes(l) !! Nodes(r)
    ensures Own([l, r]) && NodesAll([l, r]) == Nodes(l) + Nodes(r)
  {
    OwnOne(l);
    OwnOne(r);
    OwnConcat([l], [r]);
    assert [l] + [r] == [l, r];
  }

  /** A block in the heap, and beside it the tree that is to become an entry of it. */
  ghost predicate AtWith(p: Path, t: Tree, x: Tree)
    reads PathNodes(p) + Nodes(t) + Nodes(x)
  {
    At(p, t) && Holds(x) && Distinct(x) && Nodes(x) !! PathNodes(p) && Nodes(x) !! Nodes(t)
  }

  /** One split below the root. */
  method SplitBelow(n: Node, k: int, link: Link, ghost p: Path, ghost t: Tree, ghost x: Tree)
    returns (m: Node, ghost t1: Tree, ghost r: Tree)
    requires AtWith(p, t, x) && t.node == n && link == LinkOf(x) && |t.keys| == |t.kids| == B && p.Step?
    modifies n
    ensures fresh(m) && AtWith(p.up, t1, r)
    ensures PathNodes(p.up) + Nodes(t1) + Nodes(r) == PathNodes(p) + Nodes(t) + Nodes(x) + {m}
    ensures |Inserted(t, k, x).keys| == |Inserted(t, k, x).kids| == B + 1
    ensures t1 == Parent(p, Lower(Inserted(t, k, x))) && r == Upper(Inserted(t, k, x), m) && m.key != []
    ensures m.key[0] == r.keys[0]
  {
    ghost var l;
    m, l, r := SplitHere(n, k, link, p, t, x);
    StepUp(p, l);
    t1 := Parent(p, l);
  }

  /** The grown root over the halves of the overfull block u. */
  function Grown(u: Tree, c: Node, m: Node): Tree
    requires u.Block? && |u.keys| == |u.kids| == B + 1
  {
    Block(u.node, u.height + 1, [0, u.keys[3]], [Block(c, u.height, u.keys[..3], u.kids[..3]), Upper(u, m)])
  }

  method SplitRoot(n: Node, k: int, link: Link, ghost t: Tree, ghost x: Tree) returns (c: Node, m: Node)
    requires AtWith(Top, t, x) && t.node == n && link == LinkOf(x) && |t.keys| == |t.kids| == B
    modifies n
    ensures |Inserted(t, k, x).keys| == |Inserted(t, k, x).kids| == B + 1 && At(Top, Grown(Inserted(t, k, x), c, m))
    ensures forall o :: o in Nodes(Grown(Inserted(t, k, x), c, m)) && o !in Nodes(t) + Nodes(x) ==> fresh(o)
  {
    ghost var l, r, v;
    m, l, r := SplitHere(n, k, link, Top, t, x);
    c, v := RaiseHere(n, m, m.key[0], l, r);
  }

  /** The tree that insertion is to produce. */
  ghost predicate Result(v: Tree, root: Node, c: map<int, int>)
    reads Nodes(v)
  {
    At(Top, v) && v.node == root && Shaped(v) && InRange(v, None, None) && Contents(v) == c
  }

  lemma RoomShaped(p: Path, t: Tree, k: int, x: Tree)
    requires Pending(p, t, k, x) && |t.keys| < B
    ensures Shaped(Plug(p, Inserted(t, k, x)))
  {
    var i := Place(t.keys, Start(t.height), k);
    EntriesIns(t.kids, i, x, t.height);
    InsPoint(t.keys, i, k);
    InsPoint(t.kids, i, x);
    PlugShaped(p, Inserted(t, k, x));
  }

  method FinishInRoom(n: Node, k: int, link: Link, ghost p: Path, ghost t: Tree, ghost x: Tree) returns (ghost v: Tree)
    requires AtWith(p, t, x) && t.node == n && link == LinkOf(x) && Pending(p, t, k, x) && |t.keys| < B
    modifies n
    ensures Plug(p, t).Block? && Result(v, Plug(p, t).node, Contents(Plug(p, Inserted(t, k, x))))
    ensures Nodes(v) == PathNodes(p) + Nodes(t) + Nodes(x)
  {
    RoomShaped(p, t, k, x);
    ghost var u := Inserted(t, k, x);
    PlugNode(p, t, u);
    InsertHere(n, k, link, p, t, x);
    PlugHolds(p, u);
    v := Plug(p, u);
  }

  method FinishAtRoot(n: Node, k: int, link: Link, ghost t: Tree, ghost x: Tree) returns (ghost v: Tree)
    requires AtWith(Top, t, x) && t.node == n && link == LinkOf(x) && Pending(Top, t, k, x) && |t.keys| == B
    modifies n
    ensures Result(v, n, Contents(Inserted(t, k, x)))
    ensures forall o :: o in Nodes(v) && o !in Nodes(t) + Nodes(x) ==> fresh(o)
  {
    var c, m := SplitRoot(n, k, link, t, x);
    Raised(t, k, x, c, m);
    v := Grown(Inserted(t, k, x), c, m);
  }

  /** One turn of the loop: the split, and what it leaves to be put in one step up. */
  method CarryOn(n: Node, k: int, link: Link, ghost p: Path, ghost t: Tree, ghost x: Tree)
    returns (m: Node, ghost t1: Tree, ghost r: Tree)
    requires AtWith(p, t, x) && t.node == n && link == LinkOf(x) && Pending(p, t, k, x) && |t.keys| == |t.kids| == B
    requires p.Step? && Plug(p, t).Block?
    modifies n
    ensures fresh(m) && AtWith(p.up, t1, r)
    ensures PathNodes(p.up) + Nodes(t1) + Nodes(r) == PathNodes(p) + Nodes(t) + Nodes(x) + {m}
    ensures t1.node == p.node && LinkOf(r) == Down(m) && m.key != [] && Pending(p.up, t1, m.key[0], r)
    ensures Contents(Plug(p.up, Inserted(t1, m.key[0], r))) == Contents(Plug(p, Inserted(t, k, x)))
    ensures Plug(p.up, t1).Block? && Plug(p.up, t1).node == Plug(p, t).node
  {
    CarriedNode(p, t, k, x);
    m, t1, r := SplitBelow(n, k, link, p, t, x);
    Carried(p, t, k, x, m);
  }

  /** The loop of insert: a full node is split, and its upper half remains to be put into the
      node above; the first node with room, or the root, ends it. */
  method InsertUp(n0: Node, stack0: seq<Node>, k0: int, link0: Link, ghost p0: Path, ghost t0: Tree, ghost x0: Tree,
      ghost root: Node)
    returns (ghost v: Tree)
    requires AtWith(p0, t0, x0) && t0.node == n0 && link0 == LinkOf(x0) && Pending(p0, t0, k0, x0)
    requires stack0 == Stack(p0)
    requires Plug(p0, t0).Block? && Plug(p0, t0).node == root
    modifies PathNodes(p0) + Nodes(t0)
    ensures Result(v, root, Contents(Plug(p0, Inserted(t0, k0, x0))))
    ensures forall o :: o in Nodes(v) && o !in PathNodes(p0) + Nodes(t0) + Nodes(x0) ==> fresh(o)
  {
    var n, stack, k, link := n0, stack0, k0, link0;
    ghost var p, t, x := p0, t0, x0;
    ghost var before := PathNodes(p0) + Nodes(t0) + Nodes(x0);
    while n.degree == B && |stack| > 0
      invariant AtWith(p, t, x) && t.node == n && link == LinkOf(x) && stack == Stack(p) && Pending(p, t, k, x)
      invariant Plug(p, t).Block? && Plug(p, t).node == root
      invariant Contents(Plug(p, Inserted(t, k, x))) == Contents(Plug(p0, Inserted(t0, k0, x0)))
      invariant n in PathNodes(p0) + Nodes(t0) && PathNodes(p) <= PathNodes(p0)
      invariant forall o :: o in PathNodes(p) + Nodes(t) + Nodes(x) && o !in before ==> fresh(o)
      decreases |stack|
    {
      var m; ghost var t1, r;
      m, t1, r := CarryOn(n, k, link, p, t, x);
      n, stack, k, link := stack[|stack| - 1], stack[..|stack| - 1], m.key[0], Down(m);
      p, t, x := p.up, t1, r;
    }
    if n.degree < B {
      v := FinishInRoom(n, k, link, p, t, x);
    } else {
      v := FinishAtRoot(n, k, link, t, x);
    }
  }

  lemma CarriedNode(p: Path, t: Tree, k: int, x: Tree)
    requires t.Block? && |t.keys| == |t.kids| == B && p.Step? && Plug(p, t).Block?
    ensures |Inserted(t, k, x).keys| == |Inserted(t, k, x).kids| == B + 1
    ensures var t1 := Parent(p, Lower(Inserted(t, k, x)));
      Plug(p.up, t1).Block? && Plug(p.up, t1).node == Plug(p, t).node
  {
    PlugNode(p, t, Lower(Inserted(t, k, x)));
  }

  /** A new key in the leaf block where its search ends. */
  lemma LeafPending(p: Path, s: Tree, k: int, obj: int)
    requires Standing(p, s) && s.height == 0 && InRange(Plug(p, s), None, None) && OnPath(p, k)
    requires k !in Contents(Plug(p, s))
    ensures Pending(p, s, k, Item(obj))
    ensures Contents(Plug(p, Inserted(s, k, Item(obj)))) == Contents(Plug(p, s))[k := obj]
  {
    PlugInRange(p, s, 0);
    OnPathBounds(p, k, 0);
    NotInside(p, s, k, 0);
    PlaceIs(s.keys, 0, k);
    LeafInserted(s, Place(s.keys, 0, k), k, obj, Lo(p), Hi(p));
    PlugInRange(p, Inserted(s, k, Item(obj)), 0);
    PlugInserted(p, s, Inserted(s, k, Item(obj)), k, obj, 0);
  }

  /** Insertion of a new key into a tree that is not empty. */
  method InsertInto(root: Node, key: int, obj: int, ghost t: Tree) returns (ghost v: Tree)
    requires Result(t, root, Contents(t)) && key !in Contents(t)
    modifies Nodes(t)
    ensures Result(v, root, Contents(t)[key := obj]) && forall o :: o in Nodes(v) && o !in Nodes(t) ==> fresh(o)
  {
    var n, stack, index; ghost var p, s;
    n, stack, index, p, s := Descend(root, key, t);
    LeafPending(p, s, key, obj);
    v := InsertUp(n, stack, key, Obj(obj), p, s, Item(obj), root);
  }
}
