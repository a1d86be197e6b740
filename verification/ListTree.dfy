/** The construction of a search tree from a sorted list in ch4/segm_tree.c: with an explicit
    stack of nodes still to be expanded, and keys that interior nodes get when the first leaf to
    their right is reached. */
module ListTree {
  import opened Prelude
  import opened LeafTree

  datatype Pair = Pair(key: int, obj: int)

  function Leaves<A>(t: Tree<A>): seq<Pair> {
    match t
    case Leaf(_, k, o, _) => [Pair(k, o)]
    case Fork(_, _, _, l, r) => Leaves(l) + Leaves(r)
  }

  /** A node to be expanded to a tree of number leaves; node2 waits for the key of the first. */
  datatype Item<A> = Item(node1: Node<A>, node2: Node?<A>, number: nat)

  /** The unfinished tree around the node being expanded. Open: it is on the left of node, and
      the node on the right waits on the stack. Closed: it is on the right of node, the left
      subtree is complete; key is None until the first leaf on the right is filled. */
  datatype Frames<A> =
    | Base
    | Open(up: Frames<A>, node: Node<A>, info: A, waiting: Node<A>, number: nat)
    | Closed(up: Frames<A>, node: Node<A>, info: A, key: Option<int>, left: Tree<A>)

  function StackOf<A>(f: Frames<A>): seq<Item<A>> {
    match f
    case Base => []
    case Open(up, n, _, w, c) => StackOf(up) + [Item(w, n, c)]
    case Closed(up, _, _, _, _) => StackOf(up)
  }

  /** The node that gets the key of the first leaf in the hole. */
  function Node2<A>(f: Frames<A>): Node?<A> {
    match f
    case Base => null
    case Open(up, _, _, _, _) => Node2(up)
    case Closed(_, n, _, _, _) => n
  }

  /** The leaves that are still to come after the hole. */
  function Coming<A>(f: Frames<A>): nat {
    match f
    case Base => 0
    case Open(up, _, _, _, c) => Coming(up) + c
    case Closed(up, _, _, _, _) => Coming(up)
  }

  function Filled<A>(f: Frames<A>): seq<Pair> {
    match f
    case Base => []
    case Open(up, _, _, _, _) => Filled(up)
    case Closed(up, _, _, _, l) => Filled(up) + Leaves(l)
  }

  /** The keys set so far are right, where first is the first key in the hole, once it is there. */
  predicate KeysRight<A>(f: Frames<A>, first: Option<int>) {
    match f
    case Base => true
    case Open(up, _, _, _, c) => c > 0 && KeysRight(up, first)
    case Closed(up, _, _, k, l) => k == first && Tight(l) && KeysRight(up, Some(MinKey(l)))
  }

  /** Every node has half of its leaves, rounded down, on the left. */
  predicate Halved<A>(t: Tree<A>) {
    t.Fork? ==> Halved(t.left) && Halved(t.right) && LeafCount(t.left) == LeafCount(t) / 2
  }

  /** So it will be when the hole has become a tree of m leaves. */
  predicate Halving<A>(f: Frames<A>, m: nat)
    decreases f
  {
    match f
    case Base => true
    case Open(up, _, _, _, c) => m == (m + c) / 2 && Halving(up, m + c)
    case Closed(up, _, _, _, l) => Halved(l) && LeafCount(l) == (LeafCount(l) + m) / 2 && Halving(up, LeafCount(l) + m)
  }

  ghost function FrameNodes<A>(f: Frames<A>): set<Node<A>> {
    match f
    case Base => {}
    case Open(up, n, _, w, _) => {n, w} + FrameNodes(up)
    case Closed(up, n, _, _, l) => {n} + Nodes(l) + FrameNodes(up)
  }

  ghost predicate FramesDistinct<A>(f: Frames<A>) {
    match f
    case Base => true
    case Open(up, n, _, w, _) => n != w && n !in FrameNodes(up) && w !in FrameNodes(up) && FramesDistinct(up)
    case Closed(up, n, _, _, l) =>
      n !in Nodes(l) && n !in FrameNodes(up) && Nodes(l) !! FrameNodes(up) && Distinct(l) && FramesDistinct(up)
  }

  ghost predicate FramesHold<A>(f: Frames<A>, hole: Node<A>)
    reads FrameNodes(f)
  {
    match f
    case Base => true
    case Open(up, n, i, w, _) => n.left == hole && n.right == w && n.info == i && FramesHold(up, n)
    case Closed(up, n, i, k, l) =>
      && n.left == l.node && n.right == hole && n.info == i && (k.Some? ==> n.key == k.value)
      && Holds(l) && FramesHold(up, n)
  }

  /** The hole is node h, not expanded yet. */
  ghost predicate Expanding<A>(f: Frames<A>, h: Node<A>)
    reads FrameNodes(f)
  {
    FramesHold(f, h) && FramesDistinct(f) && h !in FrameNodes(f)
  }

  lemma {:induction false} FramesAllocated<A>(f: Frames<A>)
    ensures forall o :: o in FrameNodes(f) ==> allocated(o)
  {
    match f
    case Base =>
    case Open(up, _, _, _, _) => FramesAllocated(up);
    case Closed(up, _, _, _, l) =>
      Allocated(l);
      FramesAllocated(up);
  }

  // ---- A leaf completed: subtrees completed with it, and the next hole.

  /** The complete subtree t in the hole is made part of the complete subtrees that it ends. */
  function Climb<A>(f: Frames<A>, t: Tree<A>): (Frames<A>, Tree<A>)
    decreases f
  {
    if f.Closed? && f.key.Some? then Climb(f.up, Fork(f.node, f.key.value, f.info, f.left, t)) else (f, t)
  }

  /** The next hole is the waiting node. */
  function Reopen<A>(f: Frames<A>, t: Tree<A>): Frames<A>
    requires f.Open?
  {
    Closed(f.up, f.node, f.info, None, t)
  }

  lemma {:induction false} ClimbKeeps<A>(f: Frames<A>, t: Tree<A>)
    requires KeysRight(f, Some(MinKey(t))) && Tight(t)
    ensures var (f', t') := Climb(f, t);
      && !f'.Closed? && KeysRight(f', Some(MinKey(t'))) && Tight(t') && StackOf(f') == StackOf(f) &&
        Coming(f') == Coming(f)
      && Filled(f') + Leaves(t') == Filled(f) + Leaves(t)
    decreases f
  {
    if f.Closed? {
      var u := Fork(f.node, f.key.value, f.info, f.left, t);
      ClimbKeeps(f.up, u);
      assert Filled(f.up) + (Leaves(f.left) + Leaves(t)) == Filled(f.up) + Leaves(f.left) + Leaves(t);
    }
  }

  lemma {:induction false} ClimbHalves<A>(f: Frames<A>, t: Tree<A>)
    requires Halving(f, LeafCount(t)) && Halved(t)
    ensures var (f', t') := Climb(f, t); Halving(f', LeafCount(t')) && Halved(t')
    decreases f
  {
    if f.Closed? && f.key.Some? { ClimbHalves(f.up, Fork(f.node, f.key.value, f.info, f.left, t)); }
  }

  lemma {:induction false} KeySetHalves<A>(f: Frames<A>, k: int, m: nat)
    requires Halving(f, m)
    ensures Halving(KeySet(f, k), m)
    decreases f
  {
    if f.Open? { KeySetHalves(f.up, k, m + f.number); }
  }

  lemma {:induction false} ClimbHolds<A>(f: Frames<A>, t: Tree<A>)
    requires KeysRight(f, Some(MinKey(t))) && FramesHold(f, t.node) && FramesDistinct(f)
    requires Holds(t) && Distinct(t) && Nodes(t) !! FrameNodes(f)
    ensures var (f', t') := Climb(f, t);
      && FramesHold(f', t'.node) && FramesDistinct(f') && Holds(t') && Distinct(t') && Nodes(t') !! FrameNodes(f')
      && FrameNodes(f') + Nodes(t') == FrameNodes(f) + Nodes(t)
    decreases f
  {
    if f.Closed? { ClimbHolds(f.up, Fork(f.node, f.key.value, f.info, f.left, t)); }
  }

  // ---- Setting the key that waits for the first leaf.

  function KeySet<A>(f: Frames<A>, k: int): Frames<A> {
    match f
    case Base => Base
    case Open(up, n, i, w, c) => Open(KeySet(up, k), n, i, w, c)
    case Closed(up, n, i, _, l) => Closed(up, n, i, Some(k), l)
  }

  lemma {:induction false} KeySetSame<A>(f: Frames<A>, k: int)
    requires KeysRight(f, None)
    ensures var g := KeySet(f, k);
      && KeysRight(g, Some(k)) && StackOf(g) == StackOf(f) && Coming(g) == Coming(f) && Filled(g) == Filled(f)
      && FrameNodes(g) == FrameNodes(f) && (FramesDistinct(g) <==> FramesDistinct(f))
  {
    if f.Open? { KeySetSame(f.up, k); }
  }

  /** The frames from the first that is not Open. */
  function Inner<A>(f: Frames<A>): Frames<A> {
    if f.Open? then Inner(f.up) else f
  }

  function InnerHole<A>(f: Frames<A>, h: Node<A>): Node<A>
    decreases f
  {
    if f.Open? then InnerHole(f.up, f.node) else h
  }

  ghost function OpenNodes<A>(f: Frames<A>): set<Node<A>> {
    if f.Open? then {f.node} + OpenNodes(f.up) else {}
  }

  ghost predicate OpensHold<A>(f: Frames<A>, h: Node<A>)
    reads OpenNodes(f)
    decreases f
  {
    f.Open? ==> f.node.left == h && f.node.right == f.waiting && f.node.info == f.info && OpensHold(f.up, f.node)
  }

  lemma {:induction false} SplitFrames<A>(f: Frames<A>, h: Node<A>)
    ensures FramesHold(f, h) <==> OpensHold(f, h) && FramesHold(Inner(f), InnerHole(f, h))
    decreases f
  {
    if f.Open? { SplitFrames(f.up, f.node); }
  }

  lemma {:induction false} InnerKeySet<A>(f: Frames<A>, h: Node<A>, k: int)
    ensures Inner(KeySet(f, k)) == KeySet(Inner(f), k) && InnerHole(KeySet(f, k), h) == InnerHole(f, h)
    ensures OpensHold(KeySet(f, k), h) <==> OpensHold(f, h)
    ensures !Inner(f).Open?
    ensures Node2(f) == Node2(Inner(f)) && OpenNodes(f) <= FrameNodes(f) && FrameNodes(Inner(f)) <= FrameNodes(f)
    ensures FramesDistinct(f) ==> FramesDistinct(Inner(f)) && OpenNodes(f) !! FrameNodes(Inner(f))
    decreases f
  {
    if f.Open? { InnerKeySet(f.up, f.node, k); }
  }

  method SetKey<A>(node2: Node?<A>, k: int, ghost f: Frames<A>, ghost h: Node<A>)
    requires FramesHold(f, h) && FramesDistinct(f) && node2 == Node2(f)
    modifies node2
    ensures FramesHold(KeySet(f, k), h)
  {
    InnerKeySet(f, h, k);
    SplitFrames(f, h);
    ghost var g, h' := Inner(f), InnerHole(f, h);
    FramesAllocated(f);
    assert OpensHold(f, h) && FramesHold(g, h');
    if node2 != null {
      assert g.Closed? && Holds(g.left) && FramesHold(g.up, g.node);
      node2.key := k;
      assert Holds(g.left) && FramesHold(g.up, g.node);
    }
    assert FramesHold(KeySet(g, k), h');
    InnerKeySet(f, h, k);
    SplitFrames(KeySet(f, k), h);
  }

  // ---- The loop.

  function RootOf<A>(f: Frames<A>, h: Node<A>): Node<A>
    decreases f
  {
    if f.Base? then h else RootOf(f.up, f.node)
  }

  lemma {:induction false} ClimbRoot<A>(f: Frames<A>, t: Tree<A>)
    ensures var (f', t') := Climb(f, t); RootOf(f', t'.node) == RootOf(f, t.node)
    decreases f
  {
    if f.Closed? && f.key.Some? { ClimbRoot(f.up, Fork(f.node, f.key.value, f.info, f.left, t)); }
  }

  lemma {:induction false} KeySetRoot<A>(f: Frames<A>, k: int, h: Node<A>)
    ensures RootOf(KeySet(f, k), h) == RootOf(f, h)
    decreases f
  {
    if f.Open? { KeySetRoot(f.up, k, f.node); }
  }

  /** Each waiting node stands for at least one leaf. */
  lemma {:induction false} StackSize<A>(f: Frames<A>, first: Option<int>)
    requires KeysRight(f, first)
    ensures |StackOf(f)| <= Coming(f)
  {
    match f
    case Base =>
    case Open(up, _, _, _, _) => StackSize(up, first);
    case Closed(up, _, _, _, l) => StackSize(up, Some(MinKey(l)));
  }

  /** What the loop knows while the node h is to be expanded to m leaves. */
  ghost predicate Working<A>(f: Frames<A>, h: Node<A>, m: nat, list: seq<Pair>, all: seq<Pair>, root: Node<A>)
    reads FrameNodes(f)
  {
    && m > 0 && Expanding(f, h) && KeysRight(f, None) && |list| == m + Coming(f) && Filled(f) + list == all
    && RootOf(f, h) == root && Halving(f, m)
  }

  /** The tree is complete. */
  ghost predicate Finished<A>(t: Tree<A>, all: seq<Pair>, root: Node<A>)
    reads Nodes(t)
  {
    t.node == root && At(Top, t) && Tight(t) && Halved(t) && Leaves(t) == all
  }

  /** A node with more than one leaf to come gets two children. */
  method Expand<A>(h: Node<A>, m: nat, info: A, ghost f: Frames<A>, ghost list: seq<Pair>, ghost all: seq<Pair>,
      ghost root: Node<A>)
    returns (l: Node<A>, r: Node<A>)
    requires Working(f, h, m, list, all, root) && m > 1
    modifies h
    ensures fresh(l) && fresh(r)
    ensures Working(Open(f, h, old(h.info), r, m - m / 2), l, m / 2, list, all, root)
  {
    FramesAllocated(f);
    l := new Node(0, None, info);
    r := new Node(0, None, info);
    h.left := l;
    h.right := r;
  }

  /** The last node of a path gets the first pair of the list; the subtrees that this completes
      are closed, and the next waiting node becomes the hole. */
  method Fill<A>(h: Node<A>, node2: Node?<A>, pair: Pair, ghost f: Frames<A>, ghost list: seq<Pair>,
      ghost all: seq<Pair>, ghost root: Node<A>)
    returns (ghost f': Frames<A>, ghost t: Tree<A>)
    requires Working(f, h, 1, list, all, root) && node2 == Node2(f) && pair == list[0]
    modifies h, node2
    ensures !f'.Closed? && (f'.Base? ==> Finished(t, all, root) && list[1..] == [])
    ensures f'.Base? ==> StackOf(f) == [] && Nodes(t) == FrameNodes(f) + {h}
    ensures f'.Open? ==> Working(Reopen(f', t), f'.waiting, f'.number, list[1..], all, root)
    ensures f'.Open? ==> var g := Reopen(f', t);
      StackOf(f) == StackOf(g) + [Item(f'.waiting, Node2(g), f'.number)] &&
        FrameNodes(g) + {f'.waiting} == FrameNodes(f) + {h}
  {
    t := PutLeaf(h, node2, pair, f);
    ghost var g := KeySet(f, pair.key);
    Completed(f, t, pair, list, all, root);
    f', t := Climb(g, t).0, Climb(g, t).1;
    if f'.Open? { ReopenNodes(f', t); }
  }

  lemma ReopenNodes<A>(f: Frames<A>, t: Tree<A>)
    requires f.Open?
    ensures FrameNodes(Reopen(f, t)) + {f.waiting} == FrameNodes(f) + Nodes(t)
  {
  }

  method PutLeaf<A>(h: Node<A>, node2: Node?<A>, pair: Pair, ghost f: Frames<A>) returns (ghost t: Tree<A>)
    requires Expanding(f, h) && node2 == Node2(f)
    modifies h, node2
    ensures t == Leaf(h, pair.key, pair.obj, t.info) && Holds(t) && FramesHold(KeySet(f, pair.key), h)
  {
    FramesAllocated(f);
    NodeInFrames(f);
    h.obj := Some(pair.obj);
    h.left := null;
    h.key := pair.key;
    h.right := null;
    t := Leaf(h, pair.key, pair.obj, h.info);
    SetKey(node2, pair.key, f, h);
  }

  lemma Completed<A>(f: Frames<A>, t: Tree<A>, pair: Pair, list: seq<Pair>, all: seq<Pair>, root: Node<A>)
    requires t.Leaf? && t.key == pair.key && t.obj == pair.obj && Holds(t) && FramesHold(KeySet(f, pair.key), t.node)
    requires FramesDistinct(f) && t.node !in FrameNodes(f) && KeysRight(f, None) && |list| == 1 + Coming(f)
    requires list[0] == pair
    requires Filled(f) + list == all && RootOf(f, t.node) == root && Halving(f, 1)
    ensures var (f', t') := Climb(KeySet(f, pair.key), t);
      && !f'.Closed? && StackOf(f') == StackOf(f) && FrameNodes(f') + Nodes(t') == FrameNodes(f) + {t.node}
      && (f'.Base? ==> Finished(t', all, root) && list[1..] == [])
      && (f'.Open? ==> Working(Reopen(f', t'), f'.waiting, f'.number, list[1..], all, root))
  {
    var g := KeySet(f, pair.key);
    KeySetSame(f, pair.key);
    KeySetRoot(f, pair.key, t.node);
    ClimbKeeps(g, t);
    ClimbHolds(g, t);
    ClimbRoot(g, t);
    KeySetHalves(f, pair.key, 1);
    ClimbHalves(g, t);
    var f', t' := Climb(g, t).0, Climb(g, t).1;
    OneMore(Filled(f), Filled(f') + Leaves(t'), list, all);
    if f'.Open? {
      Reopened(f', t', list[1..], all, root);
    } else {
      BaseFinished(f', t', list[1..], all, root);
    }
  }

  lemma OneMore(filled: seq<Pair>, filled': seq<Pair>, list: seq<Pair>, all: seq<Pair>)
    requires list != [] && filled + list == all && filled' == filled + [list[0]]
    ensures filled' + list[1..] == all
  {
    assert list == [list[0]] + list[1..];
  }

  lemma BaseFinished<A>(f: Frames<A>, t: Tree<A>, list: seq<Pair>, all: seq<Pair>, root: Node<A>)
    requires f.Base? && Halved(t) && Holds(t) && Distinct(t) && Tight(t) && |list| == Coming(f)
    requires Filled(f) + Leaves(t) + list == all && RootOf(f, t.node) == root
    ensures Finished(t, all, root) && list == []
  {
    assert [] + Leaves(t) + [] == Leaves(t);
  }

  lemma Reopened<A>(f: Frames<A>, t: Tree<A>, list: seq<Pair>, all: seq<Pair>, root: Node<A>)
    requires Halving(f, LeafCount(t)) && Halved(t)
    requires f.Open? && FramesHold(f, t.node) && FramesDistinct(f) && Holds(t) && Distinct(t)
    requires Nodes(t) !! FrameNodes(f)
    requires KeysRight(f, Some(MinKey(t))) && Tight(t) && |list| == Coming(f) && Filled(f) + Leaves(t) + list == all
    requires RootOf(f, t.node) == root
    ensures Working(Reopen(f, t), f.waiting, f.number, list, all, root)
  {
  }

  lemma {:induction false} NodeInFrames<A>(f: Frames<A>)
    ensures Node2(f) != null ==> Node2(f) in FrameNodes(f)
  {
    if f.Open? { NodeInFrames(f.up); }
  }

  /** Builds a tree of the pairs of the list, in order. */
  method MakeTree<A>(list0: seq<Pair>, info: A) returns (root: Node<A>, ghost t: Tree<A>)
    requires list0 != []
    ensures Finished(t, list0, root) && forall o :: o in Nodes(t) ==> fresh(o)
  {
    var list := list0;
    root := new Node(0, None, info);
    var stack := [Item(root, null, |list|)];
    ghost var f: Frames<A>, h, m: nat := Base, root, |list|;
    t := Leaf(root, 0, 0, info);
    assert Filled(f) + list == list0;
    while |stack| > 0
      invariant stack == [] ==> Finished(t, list0, root) && forall o :: o in Nodes(t) ==> fresh(o)
      invariant stack != [] ==> stack == StackOf(f) + [Item(h, Node2(f), m)] && Working(f, h, m, list, list0, root)
      invariant stack != [] ==> fresh(h) && forall o :: o in FrameNodes(f) ==> fresh(o)
      decreases 2 * |list| - |stack|
    {
      StackSize(f, None);
      var current := stack[|stack| - 1];
      stack := stack[..|stack| - 1];
      assert stack == StackOf(f);
      if current.number > 1 {
        ghost var i := current.node1.info;
        var l, r := Expand(current.node1, current.number, info, f, list, list0, root);
        stack := stack + [Item(r, current.node1, current.number - current.number / 2)];
        stack := stack + [Item(l, current.node2, current.number / 2)];
        f, h, m := Open(f, h, i, r, m - m / 2), l, m / 2;
      } else {
        ghost var f';
        NodeInFrames(f);
        f', t := Fill(current.node1, current.node2, list[0], f, list, list0, root);
        list := list[1..];
        if f'.Open? { f, h, m := Reopen(f', t), f'.waiting, f'.number; }
      }
    }
  }

  /** Strictly increasing keys. */
  predicate Sorted(s: seq<Pair>) {
    forall i, j :: 0 <= i < j < |s| ==> s[i].key < s[j].key
  }

  predicate KeysWithin(s: seq<Pair>, lo: Option<int>, hi: Option<int>) {
    forall i :: 0 <= i < |s| ==> Below(lo, s[i].key) && Above(s[i].key, hi)
  }

  lemma {:induction false} LeavesNonempty<A>(t: Tree<A>)
    ensures Leaves(t) != [] && Leaves(t)[0].key == MinKey(t)
  {
    if t.Fork? { LeavesNonempty(t.left); }
  }

  /** A tree over a sorted list, with its separators right, is a search tree. */
  lemma {:induction false} TreeOrdered<A>(t: Tree<A>, lo: Option<int>, hi: Option<int>)
    requires Tight(t) && Sorted(Leaves(t)) && KeysWithin(Leaves(t), lo, hi)
    ensures InRange(t, lo, hi)
  {
    if t.Fork? {
      LeavesNonempty(t.right);
      SortedParts(Leaves(t.left), Leaves(t.right), lo, hi);
      TreeOrdered(t.left, lo, Some(t.key));
      TreeOrdered(t.right, Some(t.key), hi);
    } else {
      assert Leaves(t)[0].key == t.key;
    }
  }

  lemma SortedParts(l: seq<Pair>, r: seq<Pair>, lo: Option<int>, hi: Option<int>)
    requires Sorted(l + r) && KeysWithin(l + r, lo, hi) && r != []
    ensures Sorted(l) && Sorted(r) && KeysWithin(l, lo, Some(r[0].key)) && KeysWithin(r, Some(r[0].key), hi)
  {
    var s := l + r;
    forall i | 0 <= i < |l| ensures Below(lo, l[i].key) && l[i].key < r[0].key {
      assert s[i] == l[i] && s[|l|] == r[0];
    }
    forall i | 0 <= i < |r| ensures r[0].key <= r[i].key && Above(r[i].key, hi) {
      assert s[|l| + i] == r[i] && s[|l|] == r[0];
    }
    forall i, j | 0 <= i < j < |r| ensures r[i].key < r[j].key { assert s[|l| + i] == r[i] && s[|l| + j] == r[j]; }
    forall i, j | 0 <= i < j < |l| ensures l[i].key < l[j].key { assert s[i] == l[i] && s[j] == l[j]; }
  }

  /** k is a key of the list. */
  predicate Mentions(s: seq<Pair>, k: int) {
    s != [] && (s[0].key == k || Mentions(s[1..], k))
  }

  lemma {:induction false} MentionsConcat(s: seq<Pair>, t: seq<Pair>, k: int)
    ensures Mentions(s + t, k) <==> Mentions(s, k) || Mentions(t, k)
  {
    if s == [] {
      assert s + t == t;
    } else {
      assert (s + t)[1..] == s[1..] + t;
      MentionsConcat(s[1..], t, k);
    }
  }

  // ---- Walks that change what they pass.

  /** The walk is at s below p, and what it has yet to do there completes the tree wanted. */
  ghost predicate Walking<A>(p: Path<A>, s: Tree<A>, todo: Tree<A>, want: Tree<A>, all: set<Node<A>>)
    reads PathNodes(p) + Nodes(s)
  {
    At(p, s) && Plug(p, todo) == want && PathNodes(p) + Nodes(s) == all
  }

  lemma GoLeft<A>(p: Path<A>, s: Tree<A>, l: Tree<A>, want: Tree<A>, all: set<Node<A>>)
    requires s.Fork? && Walking(p, s, Fork(s.node, s.key, s.info, l, s.right), want, all)
    ensures Walking(WentLeft(p, s.node, s.key, s.info, s.right), s.left, l, want, all)
  {
  }

  lemma GoRight<A>(p: Path<A>, s: Tree<A>, r: Tree<A>, want: Tree<A>, all: set<Node<A>>)
    requires s.Fork? && Walking(p, s, Fork(s.node, s.key, s.info, s.left, r), want, all)
    ensures Walking(WentRight(p, s.node, s.key, s.info, s.left), s.right, r, want, all)
  {
  }

  // ---- A tree with its leaves halved is as shallow as can be.

  lemma {:induction false} LevelsEnough<A>(t: Tree<A>)
    ensures 1 <= LeafCount(t) <= Pow2(Depth(t))
  {
    if t.Fork? {
      LevelsEnough(t.left);
      LevelsEnough(t.right);
      Pow2Monotone(Depth(t.left), Depth(t) - 1);
      Pow2Monotone(Depth(t.right), Depth(t) - 1);
    }
  }

  /** One level less would not be enough. */
  lemma {:induction false} HalvedLevels<A>(t: Tree<A>)
    requires Halved(t) && t.Fork?
    ensures Pow2(Depth(t) - 1) < LeafCount(t) <= Pow2(Depth(t))
  {
    LevelsEnough(t);
    LevelsEnough(t.left);
    LevelsEnough(t.right);
    var deeper := if Depth(t.left) > Depth(t.right) then t.left else t.right;
    if deeper.Fork? {
      HalvedLevels(deeper);
      assert 2 * LeafCount(deeper) <= LeafCount(t) + 1;
    }
  }
}
