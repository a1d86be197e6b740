/** The segment tree of ch4/segm_tree.c: an interval is attached to the nodes whose ranges make
    it up, and a query collects what is attached along a search path. */
module SegmentTree {
  import opened Prelude
  import opened LeafTree
  import opened ListTree

  datatype Entry = Entry(a: int, b: int, obj: int)

  /** The information of a node is its list of intervals. */
  type Info = seq<Entry>
  type T = Tree<Info>

  /** How often e is attached along the path of x, the root not counted. */
  function Times(t: T, x: int, e: Entry): nat {
    if t.Leaf? then 0 else
      var c := if x < t.key then t.left else t.right;
      multiset(c.info)[e] + Times(c, x, e)
  }

  /** The root counted too. */
  function Full(t: T, x: int, e: Entry): nat {
    multiset(t.info)[e] + Times(t, x, e)
  }

  // ---- Attaching an interval, as functions on trees.

  function With(t: T, e: Entry): T {
    WithInfo(t, [e] + t.info)
  }

  /** Along the path of the left endpoint. */
  function AttachLeft(t: T, e: Entry): T {
    match t
    case Leaf(_, k, _, _) => if k == e.a then With(t, e) else t
    case Fork(n, k, i, l, r) =>
      if e.a < k then Fork(n, k, i, AttachLeft(l, e), With(r, e))
      else if e.a == k then Fork(n, k, i, l, With(r, e))
      else Fork(n, k, i, l, AttachLeft(r, e))
  }

  /** Along the path of the right endpoint. */
  function AttachRight(t: T, e: Entry): T {
    match t
    case Leaf(_, _, _, _) => t
    case Fork(n, k, i, l, r) =>
      if k < e.b then Fork(n, k, i, With(l, e), AttachRight(r, e))
      else if k == e.b then Fork(n, k, i, With(l, e), r)
      else Fork(n, k, i, AttachRight(l, e), r)
  }

  function Attach(t: T, e: Entry): T {
    match t
    case Leaf(_, _, _, _) => t
    case Fork(n, k, i, l, r) =>
      if e.b < k then Fork(n, k, i, Attach(l, e), r)
      else if k < e.a then Fork(n, k, i, l, Attach(r, e))
      else Fork(n, k, i, if e.a < k then AttachLeft(l, e) else l, if k < e.b then AttachRight(r, e) else r)
  }

  // ---- The canonical nodes partition the interval.

  predicate HasKey(t: T, k: int) {
    match t
    case Leaf(_, k', _, _) => k == k'
    case Fork(_, _, _, l, r) => HasKey(l, k) || HasKey(r, k)
  }

  lemma {:induction false} KeySide(t: T, lo: Option<int>, hi: Option<int>, k: int)
    requires InRange(t, lo, hi) && HasKey(t, k)
    ensures Below(lo, k) && Above(k, hi) && MinKey(t) <= k
    ensures t.Fork? && k < t.key ==> HasKey(t.left, k)
    ensures t.Fork? && k >= t.key ==> HasKey(t.right, k)
  {
    if t.Fork? {
      RangeNonempty(t.left, lo, Some(t.key));
      RangeNonempty(t.right, Some(t.key), hi);
      MinKeyIn(t.left, lo, Some(t.key));
      if HasKey(t.left, k) { KeySide(t.left, lo, Some(t.key), k); }
      if HasKey(t.right, k) { KeySide(t.right, Some(t.key), hi, k); }
    }
  }

  lemma {:induction false} MinKeyIn(t: T, lo: Option<int>, hi: Option<int>)
    requires InRange(t, lo, hi)
    ensures Below(lo, MinKey(t)) && Above(MinKey(t), hi)
  {
    if t.Fork? {
      MinKeyIn(t.left, lo, Some(t.key));
      RangeNonempty(t.right, Some(t.key), hi);
    }
  }

  lemma WithFull(t: T, e: Entry, x: int, f: Entry)
    ensures Full(With(t, e), x, f) == Full(t, x, f) + if f == e then 1 else 0
  {
    assert multiset([e] + t.info) == multiset{e} + multiset(t.info);
  }

  /** The left walk marks each point from a on exactly once, and no other. */
  lemma {:induction false} LeftMarks(t: T, e: Entry, x: int, f: Entry, lo: Option<int>, hi: Option<int>)
    requires InRange(t, lo, hi) && Tight(t) && HasKey(t, e.a) && MinKey(t) <= x
    ensures Full(AttachLeft(t, e), x, f) == Full(t, x, f) + if f == e && e.a <= x then 1 else 0
  {
    KeySide(t, lo, hi, e.a);
    match t
    case Leaf(_, _, _, _) => WithFull(t, e, x, f);
    case Fork(_, k, _, l, r) =>
      WithFull(r, e, x, f);
      if x < k {
        if e.a < k { LeftMarks(l, e, x, f, lo, Some(k)); }
      } else if e.a > k {
        LeftMarks(r, e, x, f, Some(k), hi);
      }
  }

  /** The right walk marks each point before b exactly once, and no other. */
  lemma {:induction false} RightMarks(t: T, e: Entry, x: int, f: Entry, lo: Option<int>, hi: Option<int>)
    requires InRange(t, lo, hi) && Tight(t) && HasKey(t, e.b) && MinKey(t) < e.b && MinKey(t) <= x
    ensures Full(AttachRight(t, e), x, f) == Full(t, x, f) + if f == e && x < e.b then 1 else 0
  {
    KeySide(t, lo, hi, e.b);
    if t.Fork? {
      var k, l, r := t.key, t.left, t.right;
      WithFull(l, e, x, f);
      if k < e.b {
        if x >= k { RightMarks(r, e, x, f, Some(k), hi); }
      } else if k > e.b {
        if x < k { RightMarks(l, e, x, f, lo, Some(k)); }
      }
    }
  }

  /** An interval between keys of the tree is marked at each of its points exactly once. */
  lemma {:induction false} AttachMarks(t: T, e: Entry, x: int, f: Entry, lo: Option<int>, hi: Option<int>)
    requires InRange(t, lo, hi) && Tight(t) && HasKey(t, e.a) && HasKey(t, e.b) && e.a < e.b && MinKey(t) <= x
    ensures Times(Attach(t, e), x, f) == Times(t, x, f) + if f == e && e.a <= x < e.b then 1 else 0
  {
    KeySide(t, lo, hi, e.a);
    KeySide(t, lo, hi, e.b);
    var k, l, r := t.key, t.left, t.right;
    if e.b < k {
      AttachInfo(l, e);
      if x < k { AttachMarks(l, e, x, f, lo, Some(k)); }
    } else if k < e.a {
      AttachInfo(r, e);
      if x >= k { AttachMarks(r, e, x, f, Some(k), hi); }
    } else {
      if x < k && e.a < k { LeftMarks(l, e, x, f, lo, Some(k)); }
      if x >= k && k < e.b { RightMarks(r, e, x, f, Some(k), hi); }
    }
  }

  lemma AttachInfo(t: T, e: Entry)
    ensures Attach(t, e).info == t.info
  {
  }

  // ---- The walks in the heap.

  method AttachTo(n: Node<Info>, e: Entry, ghost t: T)
    requires t.node == n && Holds(t) && Distinct(t)
    modifies n
    ensures Holds(With(t, e)) && Distinct(With(t, e)) && Nodes(With(t, e)) == Nodes(t)
  {
    n.info := [e] + n.info;
  }

  method AttachRightChild(n: Node<Info>, e: Entry, ghost p: Path<Info>, ghost s: T)
    requires At(p, s) && s.Fork? && s.node == n
    modifies s.right.node
    ensures var u := Fork(s.node, s.key, s.info, s.left, With(s.right, e)); At(p, u) && Nodes(u) == Nodes(s)
  {
    assert Holds(s.left) && Holds(s.right);
    Allocated(s.left);
    PathAllocated(p);
    AttachTo(n.right, e, s.right);
  }

  method AttachLeftChild(n: Node<Info>, e: Entry, ghost p: Path<Info>, ghost s: T)
    requires At(p, s) && s.Fork? && s.node == n
    modifies s.left.node
    ensures var u := Fork(s.node, s.key, s.info, With(s.left, e), s.right); At(p, u) && Nodes(u) == Nodes(s)
  {
    assert Holds(s.left) && Holds(s.right);
    Allocated(s.right);
    PathAllocated(p);
    AttachTo(n.left, e, s.left);
  }

  /** The walk along the path of the left endpoint. */
  method LeftWalk(n0: Node<Info>, e: Entry, ghost p0: Path<Info>, ghost s0: T, ghost want: T,
      ghost all: set<Node<Info>>)
    requires s0.node == n0 && Walking(p0, s0, AttachLeft(s0, e), want, all)
    modifies all
    ensures At(Top, want) && Nodes(want) == all
  {
    var n: Node<Info> := n0;
    ghost var p, s := p0, s0;
    while n.right != null
      invariant s.node == n && Walking(p, s, AttachLeft(s, e), want, all)
      decreases s
    {
      if e.a < n.key {
        AttachRightChild(n, e, p, s);
        ghost var u := Fork(s.node, s.key, s.info, s.left, With(s.right, e));
        GoLeft(p, u, AttachLeft(s.left, e), want, all);
        n := n.left;
        p, s := WentLeft(p, u.node, u.key, u.info, u.right), s.left;
      } else if e.a == n.key {
        AttachRightChild(n, e, p, s);
        PlugHolds(p, AttachLeft(s, e));
        return;
      } else {
        GoRight(p, s, AttachLeft(s.right, e), want, all);
        n := n.right;
        p, s := WentRight(p, s.node, s.key, s.info, s.left), s.right;
      }
    }
    if n.key == e.a {
      PathAllocated(p);
      AttachTo(n, e, s);
    }
    PlugHolds(p, AttachLeft(s, e));
  }

  /** The walk along the path of the right endpoint. */
  method RightWalk(n0: Node<Info>, e: Entry, ghost p0: Path<Info>, ghost s0: T, ghost want: T,
      ghost all: set<Node<Info>>)
    requires s0.node == n0 && Walking(p0, s0, AttachRight(s0, e), want, all)
    modifies all
    ensures At(Top, want) && Nodes(want) == all
  {
    var n: Node<Info> := n0;
    ghost var p, s := p0, s0;
    while n.right != null
      invariant s.node == n && Walking(p, s, AttachRight(s, e), want, all)
      decreases s
    {
      if n.key < e.b {
        AttachLeftChild(n, e, p, s);
        ghost var u := Fork(s.node, s.key, s.info, With(s.left, e), s.right);
        GoRight(p, u, AttachRight(s.right, e), want, all);
        n := n.right;
        p, s := WentRight(p, u.node, u.key, u.info, u.left), s.right;
      } else if n.key == e.b {
        AttachLeftChild(n, e, p, s);
        PlugHolds(p, AttachRight(s, e));
        return;
      } else {
        GoLeft(p, s, AttachRight(s.left, e), want, all);
        n := n.left;
        p, s := WentLeft(p, s.node, s.key, s.info, s.right), s.left;
      }
    }
    PlugHolds(p, AttachRight(s, e));
  }

  /** Both walks, from the node where the paths of the endpoints part. */
  method WalkBoth(n: Node<Info>, e: Entry, ghost p: Path<Info>, ghost s: T)
    requires At(p, s) && s.Fork? && s.node == n && !(e.b < s.key) && !(s.key < e.a)
    modifies Nodes(s)
    ensures At(p, Attach(s, e)) && Nodes(Attach(s, e)) == Nodes(s)
  {
    ghost var u := s;
    if e.a < n.key {
      u := Fork(s.node, s.key, s.info, AttachLeft(s.left, e), s.right);
      WalkLeftSide(n, e, p, s);
    }
    if n.key < e.b { WalkRightSide(n, e, p, u); }
  }

  method WalkLeftSide(n: Node<Info>, e: Entry, ghost p: Path<Info>, ghost s: T)
    requires At(p, s) && s.Fork? && s.node == n
    modifies Nodes(s.left)
    ensures var u := Fork(s.node, s.key, s.info, AttachLeft(s.left, e), s.right); At(p, u) && Nodes(u) == Nodes(s)
  {
    assert Holds(s.left) && Holds(s.right);
    Allocated(s.right);
    PathAllocated(p);
    LeftWalk(n.left, e, Top, s.left, AttachLeft(s.left, e), Nodes(s.left));
    assert AttachLeft(s.left, e).node == s.left.node;
  }

  method WalkRightSide(n: Node<Info>, e: Entry, ghost p: Path<Info>, ghost s: T)
    requires At(p, s) && s.Fork? && s.node == n
    modifies Nodes(s.right)
    ensures var u := Fork(s.node, s.key, s.info, s.left, AttachRight(s.right, e)); At(p, u) && Nodes(u) == Nodes(s)
  {
    assert Holds(s.left) && Holds(s.right);
    Allocated(s.left);
    PathAllocated(p);
    RightWalk(n.right, e, Top, s.right, AttachRight(s.right, e), Nodes(s.right));
    assert AttachRight(s.right, e).node == s.right.node;
  }

  /** The descent to that node. */
  method InsertInto(root: Node<Info>, e: Entry, ghost t: T)
    requires t.node == root && At(Top, t)
    modifies Nodes(t)
    ensures At(Top, Attach(t, e)) && Nodes(Attach(t, e)) == Nodes(t) && Attach(t, e).node == root
  {
    var n: Node<Info> := root;
    ghost var p, s := Top, t;
    while n.right != null
      invariant s.node == n && Walking(p, s, Attach(s, e), Attach(t, e), Nodes(t))
      decreases s
    {
      if e.b < n.key {
        GoLeft(p, s, Attach(s.left, e), Attach(t, e), Nodes(t));
        n := n.left;
        p, s := WentLeft(p, s.node, s.key, s.info, s.right), s.left;
      } else if n.key < e.a {
        GoRight(p, s, Attach(s.right, e), Attach(t, e), Nodes(t));
        n := n.right;
        p, s := WentRight(p, s.node, s.key, s.info, s.left), s.right;
      } else {
        WalkBoth(n, e, p, s);
        break;
      }
    }
    PlugHolds(p, Attach(s, e));
  }

  /** Copies a node's list to the front of the result. */
  method CopyList(list0: seq<Entry>, result0: seq<Entry>) returns (result: seq<Entry>)
    ensures forall f :: multiset(result)[f] == multiset(result0)[f] + multiset(list0)[f]
  {
    var list := list0;
    result := result0;
    while list != []
      invariant multiset(result) + multiset(list) == multiset(result0) + multiset(list0)
      decreases |list|
    {
      assert list == [list[0]] + list[1..];
      result := [list[0]] + result;
      list := list[1..];
    }
    assert multiset(result) == multiset(result0) + multiset(list0);
  }

  /** The query: what is attached below the root along the path of x, as often as it is attached. */
  method FindIntervals(root: Node<Info>, x: int, ghost t: T) returns (result: seq<Entry>)
    requires t.node == root && Holds(t)
    ensures forall f :: multiset(result)[f] == Times(t, x, f)
  {
    var n: Node<Info> := root;
    ghost var s := t;
    result := [];
    while n.right != null
      invariant s.node == n && Holds(s) && forall f :: multiset(result)[f] + Times(s, x, f) == Times(t, x, f)
      decreases s
    {
      assert Holds(s.left) && Holds(s.right);
      if x < n.key {
        n, s := n.left, s.left;
      } else {
        n, s := n.right, s.right;
      }
      Allocated(s);
      result := CopyList(n.info, result);
    }
  }

  // ---- Runs.

  lemma {:induction false} AttachShape(t: T, e: Entry, lo: Option<int>, hi: Option<int>)
    ensures (InRange(t, lo, hi) <==> InRange(Attach(t, e), lo, hi)) && MinKey(Attach(t, e)) == MinKey(t)
    ensures (Tight(t) <==> Tight(Attach(t, e))) && forall k :: HasKey(t, k) <==> HasKey(Attach(t, e), k)
  {
    if t.Fork? {
      AttachShape(t.left, e, lo, Some(t.key));
      AttachShape(t.right, e, Some(t.key), hi);
      AttachLeftShape(t.left, e, lo, Some(t.key));
      AttachRightShape(t.right, e, Some(t.key), hi);
    }
  }

  lemma {:induction false} AttachLeftShape(t: T, e: Entry, lo: Option<int>, hi: Option<int>)
    ensures (InRange(t, lo, hi) <==> InRange(AttachLeft(t, e), lo, hi)) && MinKey(AttachLeft(t, e)) == MinKey(t)
    ensures (Tight(t) <==> Tight(AttachLeft(t, e))) && forall k :: HasKey(t, k) <==> HasKey(AttachLeft(t, e), k)
  {
    if t.Fork? {
      AttachLeftShape(t.left, e, lo, Some(t.key));
      AttachLeftShape(t.right, e, Some(t.key), hi);
      WithShape(t.right, e, Some(t.key), hi);
    }
  }

  lemma {:induction false} AttachRightShape(t: T, e: Entry, lo: Option<int>, hi: Option<int>)
    ensures (InRange(t, lo, hi) <==> InRange(AttachRight(t, e), lo, hi)) && MinKey(AttachRight(t, e)) == MinKey(t)
    ensures (Tight(t) <==> Tight(AttachRight(t, e))) && forall k :: HasKey(t, k) <==> HasKey(AttachRight(t, e), k)
  {
    if t.Fork? {
      AttachRightShape(t.left, e, lo, Some(t.key));
      AttachRightShape(t.right, e, Some(t.key), hi);
      WithShape(t.left, e, lo, Some(t.key));
    }
  }

  lemma WithShape(t: T, e: Entry, lo: Option<int>, hi: Option<int>)
    ensures (InRange(t, lo, hi) <==> InRange(With(t, e), lo, hi)) && MinKey(With(t, e)) == MinKey(t)
    ensures (Tight(t) <==> Tight(With(t, e))) && forall k :: HasKey(t, k) <==> HasKey(With(t, e), k)
  {
  }

  /** How often e was inserted, if it covers x. */
  function Covering(inserted: seq<Entry>, x: int, e: Entry): nat {
    if e.a <= x < e.b then multiset(inserted)[e] else 0
  }

  /** Below the least key the search path is that of the least key. */
  lemma {:induction false} TimesBelow(t: T, lo: Option<int>, hi: Option<int>, x: int, f: Entry)
    requires InRange(t, lo, hi) && x < MinKey(t)
    ensures Times(t, x, f) == Times(t, MinKey(t), f)
  {
    if t.Fork? {
      MinKeyIn(t.left, lo, Some(t.key));
      TimesBelow(t.left, lo, Some(t.key), x, f);
    }
  }

  /** All lists emptied. */
  function Emptied(t: T): T {
    match t
    case Leaf(n, k, o, _) => Leaf(n, k, o, [])
    case Fork(n, k, _, l, r) => Fork(n, k, [], Emptied(l), Emptied(r))
  }

  lemma {:induction false} EmptiedSame(t: T, lo: Option<int>, hi: Option<int>)
    ensures (InRange(t, lo, hi) <==> InRange(Emptied(t), lo, hi)) && MinKey(Emptied(t)) == MinKey(t)
    ensures (Tight(t) <==> Tight(Emptied(t))) && Leaves(Emptied(t)) == Leaves(t)
    ensures Nodes(Emptied(t)) == Nodes(t) && (Distinct(t) <==> Distinct(Emptied(t)))
  {
    if t.Fork? {
      EmptiedSame(t.left, lo, Some(t.key));
      EmptiedSame(t.right, Some(t.key), hi);
    }
  }

  lemma {:induction false} EmptiedTimes(t: T, x: int, f: Entry)
    ensures Times(Emptied(t), x, f) == 0
  {
    if t.Fork? {
      EmptiedTimes(t.left, x, f);
      EmptiedTimes(t.right, x, f);
    }
  }

  method EmptyTree(n: Node<Info>, ghost t: T)
    requires t.node == n && Holds(t) && Distinct(t)
    modifies Nodes(t)
    ensures Holds(Emptied(t))
    decreases t
  {
    if n.right != null { assert Holds(t.left) && Holds(t.right); }
    n.info := [];
    if n.right != null {
      Allocated(t.right);
      EmptyTree(n.left, t.left);
      EmptiedSame(t.left, None, None);
      Allocated(Emptied(t.left));
      EmptyTree(n.right, t.right);
    }
  }

  lemma {:induction false} KeysAreLeaves(t: T, k: int)
    ensures HasKey(t, k) <==> Mentions(Leaves(t), k)
  {
    if t.Fork? {
      KeysAreLeaves(t.left, k);
      KeysAreLeaves(t.right, k);
      MentionsConcat(Leaves(t.left), Leaves(t.right), k);
    }
  }

  class Intervals {
    const root: Node<Info>
    ghost var shape: T
    ghost var inserted: seq<Entry>

    ghost predicate Valid()
      reads this, Nodes(shape)
    {
      && shape.node == root && At(Top, shape) && Ordered(shape) && Tight(shape)
      && forall x, f :: MinKey(shape) <= x ==> Times(shape, x, f) == Covering(inserted, x, f)
    }

    /** A tree for intervals between the keys of the list. */
    constructor (list: seq<Pair>)
      requires list != [] && Sorted(list)
      ensures Valid() && inserted == [] && MinKey(shape) == list[0].key && forall o :: o in Nodes(shape) ==> fresh(o)
      ensures forall k :: HasKey(shape, k) <==> Mentions(list, k)
    {
      var n; ghost var t: T;
      n, t := MakeTree(list, []);
      EmptyTree(n, t);
      EmptiedSame(t, None, None);
      TreeOrdered(t, None, None);
      LeavesNonempty(t);
      forall k ensures HasKey(Emptied(t), k) <==> Mentions(list, k) { KeysAreLeaves(Emptied(t), k); }
      forall x, f ensures Times(Emptied(t), x, f) == 0 { EmptiedTimes(t, x, f); }
      root := n;
      shape := Emptied(t);
      inserted := [];
    }

    method Insert(a: int, b: int, obj: int)
      requires Valid() && a < b && HasKey(shape, a) && HasKey(shape, b)
      modifies this, Nodes(shape)
      ensures Valid() && inserted == old(inserted) + [Entry(a, b, obj)] && Nodes(shape) == old(Nodes(shape))
      ensures MinKey(shape) == old(MinKey(shape)) && forall k :: HasKey(shape, k) <==> old(HasKey(shape, k))
    {
      var e := Entry(a, b, obj);
      InsertInto(root, e, shape);
      AttachShape(shape, e, None, None);
      ghost var after := Attach(shape, e);
      forall x, f | MinKey(shape) <= x ensures Times(after, x, f) == Covering(inserted + [e], x, f) {
        AttachMarks(shape, e, x, f, None, None);
        assert multiset(inserted + [e]) == multiset(inserted) + multiset{e};
      }
      shape, inserted := after, inserted + [e];
    }

    /** Each interval covering x is returned as often as it was inserted, and no other is; a point
        below all keys is answered as if it were the least key. */
    method Find(x: int) returns (result: seq<Entry>)
      requires Valid()
      ensures var y := if x < MinKey(shape) then MinKey(shape) else x;
        forall f :: multiset(result)[f] == if f.a <= y < f.b then multiset(inserted)[f] else 0
    {
      result := FindIntervals(root, x, shape);
      ghost var y := if x < MinKey(shape) then MinKey(shape) else x;
      forall f ensures multiset(result)[f] == Covering(inserted, y, f) {
        if x < MinKey(shape) { TimesBelow(shape, None, None, x, f); }
        assert Times(shape, y, f) == Covering(inserted, y, f);
      }
    }
  }
}
