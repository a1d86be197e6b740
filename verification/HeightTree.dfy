/** The height-balanced search tree of ch3/h_bl_tree.c. The information field of a node is the
    height of its subtree. */
module HeightTree {
  import opened Prelude
  import opened LeafTree

  function Max(a: int, b: int): int {
    if a > b then a else b
  }

  /** Stored heights are consistent and sibling heights differ by at most one. */
  predicate Balanced(t: Tree<int>) {
    match t
    case Leaf(_, _, _, h) => h == 0
    case Fork(_, _, h, l, r) => Balanced(l) && Balanced(r) && Level(h, l.info, r.info)
  }

  /** A node of height h over subtrees of heights l and r. */
  predicate Level(h: int, l: int, r: int) {
    h == 1 + Max(l, r) && -1 <= l - r <= 1
  }

  /** The stored height of a balanced tree is its height. */
  lemma {:induction false} StoredHeight(t: Tree<int>)
    requires Balanced(t)
    ensures t.info == Depth(t)
  {
    if t.Fork? {
      StoredHeight(t.left);
      StoredHeight(t.right);
    }
  }

  /** So its height is at most twice the logarithm of the number of leaves, and one. */
  lemma LogarithmicHeight(t: Tree<int>)
    requires Balanced(t)
    ensures Pow2(Depth(t) / 2) <= LeafCount(t)
  {
    FibonacciBound(t);
    FibGrows(Depth(t));
  }

  /** A balanced tree is shallow: a tree of height h has at least Fib(h + 2) leaves. */
  lemma {:induction false} FibonacciBound(t: Tree<int>)
    requires Balanced(t)
    ensures LeafCount(t) >= Fib(Depth(t) + 2)
  {
    if t.Fork? {
      StoredHeight(t.left);
      StoredHeight(t.right);
      FibonacciBound(t.left);
      FibonacciBound(t.right);
      FibStep(Depth(t), Depth(t.left) + 2, Depth(t.right) + 2);
    }
  }

  // ---- Restoring balance at one node.

  predicate LeftHigh(t: Tree<int>) {
    t.Fork? && Balanced(t.left) && Balanced(t.right) && t.left.info - t.right.info == 2
  }

  predicate RightHigh(t: Tree<int>) {
    t.Fork? && Balanced(t.left) && Balanced(t.right) && t.left.info - t.right.info == -2
  }

  /** In both cases the grandchildren that the rotations touch exist. */
  lemma LeftHighForks(t: Tree<int>)
    requires LeftHigh(t)
    ensures t.right.info >= 0 && t.left.Fork? && t.left.left.info >= 0
    ensures t.left.left.info - t.right.info != 1 ==> t.left.right.Fork? && t.left.left.info == t.right.info
  {
    StoredHeight(t.right);
    StoredHeight(t.left.left);
    StoredHeight(t.left.right);
  }

  lemma RightHighForks(t: Tree<int>)
    requires RightHigh(t)
    ensures t.left.info >= 0 && t.right.Fork? && t.right.right.info >= 0
    ensures t.right.right.info - t.left.info != 1 ==> t.right.left.Fork? && t.right.right.info == t.left.info
  {
    StoredHeight(t.left);
    StoredHeight(t.right.left);
    StoredHeight(t.right.right);
  }

  /** The subtree after a rotation, single or double, at a node whose left side is too high. */
  function FixLeft(t: Tree<int>): Tree<int>
    requires LeftHigh(t)
  {
    LeftHighForks(t);
    if t.left.left.info - t.right.info == 1 then
      var u := RotatedRight(t);
      var h := u.right.left.info;
      Relabelled(u, h + 2, u.left.info, h + 1)
    else
      var u := DoublyRotatedRight(t);
      var h := u.left.left.info;
      Relabelled(u, h + 2, h + 1, h + 1)
  }

  function FixRight(t: Tree<int>): Tree<int>
    requires RightHigh(t)
  {
    RightHighForks(t);
    if t.right.right.info - t.left.info == 1 then
      var u := RotatedLeft(t);
      var h := u.left.right.info;
      Relabelled(u, h + 2, h + 1, u.right.info)
    else
      var u := DoublyRotatedLeft(t);
      var h := u.right.right.info;
      Relabelled(u, h + 2, h + 1, h + 1)
  }

  lemma FixLeftBalanced(t: Tree<int>)
    requires LeftHigh(t)
    ensures Balanced(FixLeft(t)) && t.left.info <= FixLeft(t).info <= t.left.info + 1
  {
    LeftHighForks(t);
    var l := t.left;
    StoredHeight(l.right);
    if l.left.info - t.right.info == 1 {
      assert Balanced(Fork(l.node, t.key, l.right.info + 1, l.right, t.right));
    } else {
      var m := l.right;
      StoredHeight(m.left);
      StoredHeight(m.right);
      assert Balanced(Fork(m.node, l.key, l.left.info + 1, l.left, m.left));
      assert Balanced(Fork(l.node, t.key, l.left.info + 1, m.right, t.right));
    }
  }

  lemma FixRightBalanced(t: Tree<int>)
    requires RightHigh(t)
    ensures Balanced(FixRight(t)) && t.right.info <= FixRight(t).info <= t.right.info + 1
  {
    RightHighForks(t);
    var r := t.right;
    StoredHeight(r.left);
    if r.right.info - t.left.info == 1 {
      assert Balanced(Fork(r.node, t.key, r.left.info + 1, t.left, r.left));
    } else {
      var m := r.left;
      StoredHeight(m.left);
      StoredHeight(m.right);
      assert Balanced(Fork(r.node, t.key, r.right.info + 1, t.left, m.left));
      assert Balanced(Fork(m.node, r.key, r.right.info + 1, m.right, r.right));
    }
  }

  lemma FixLeftSame(t: Tree<int>, lo: Option<int>, hi: Option<int>)
    requires LeftHigh(t) && InRange(t, lo, hi)
    ensures InRange(FixLeft(t), lo, hi) && forall q :: Lookup(FixLeft(t), q) == Lookup(t, q)
  {
    LeftHighForks(t);
    if t.left.left.info - t.right.info == 1 {
      RotatedRightSame(t, lo, hi);
      var u := RotatedRight(t);
      RelabelledSame(u, u.right.left.info + 2, u.left.info, u.right.left.info + 1, lo, hi);
    } else {
      DoublyRotatedRightSame(t, lo, hi);
      var u := DoublyRotatedRight(t);
      RelabelledSame(u, u.left.left.info + 2, u.left.left.info + 1, u.left.left.info + 1, lo, hi);
    }
  }

  lemma FixRightSame(t: Tree<int>, lo: Option<int>, hi: Option<int>)
    requires RightHigh(t) && InRange(t, lo, hi)
    ensures InRange(FixRight(t), lo, hi) && forall q :: Lookup(FixRight(t), q) == Lookup(t, q)
  {
    RightHighForks(t);
    if t.right.right.info - t.left.info == 1 {
      RotatedLeftSame(t, lo, hi);
      var u := RotatedLeft(t);
      RelabelledSame(u, u.left.right.info + 2, u.left.right.info + 1, u.right.info, lo, hi);
    } else {
      DoublyRotatedLeftSame(t, lo, hi);
      var u := DoublyRotatedLeft(t);
      RelabelledSame(u, u.right.right.info + 2, u.right.right.info + 1, u.right.right.info + 1, lo, hi);
    }
  }

  /** Both subtrees are balanced and their heights differ by at most two. */
  predicate Fixable(t: Tree<int>) {
    t.Fork? && Balanced(t.left) && Balanced(t.right) && -2 <= t.left.info - t.right.info <= 2
  }

  /** The subtree after one turn of the rebalancing loop. */
  function Fixed(t: Tree<int>): Tree<int>
    requires Fixable(t)
  {
    if t.left.info - t.right.info == 2 then FixLeft(t)
    else if t.left.info - t.right.info == -2 then FixRight(t)
    else WithInfo(t, if t.left.info > t.right.info then t.left.info + 1 else t.right.info + 1)
  }

  /** Which key comes to the root: a single rotation only where the outer grandchild is the higher one. */
  lemma FixedRoot(t: Tree<int>)
    requires Fixable(t)
    ensures match t.left.info - t.right.info
      case 2 => t.left.Fork? && Fixed(t).key ==
        if t.left.left.info == t.right.info + 1 then t.left.key else t.left.right.key
      case -2 => t.right.Fork? && Fixed(t).key ==
        if t.right.right.info == t.left.info + 1 then t.right.key else t.right.left.key
      case _ => Fixed(t).key == t.key
  {
    if LeftHigh(t) {
      LeftHighForks(t);
    } else if RightHigh(t) {
      RightHighForks(t);
    }
  }

  /** One turn restores balance, changes no lookup, and loses height only by a rotation. */
  lemma FixedOk(t: Tree<int>, lo: Option<int>, hi: Option<int>)
    requires Fixable(t) && InRange(t, lo, hi)
    ensures Balanced(Fixed(t)) && InRange(Fixed(t), lo, hi) && forall q :: Lookup(Fixed(t), q) == Lookup(t, q)
    ensures var m := Max(t.left.info, t.right.info);
      Fixed(t).info == m + 1 || (Fixed(t).info == m && !(-1 <= t.left.info - t.right.info <= 1))
  {
    if LeftHigh(t) {
      FixLeftBalanced(t);
      FixLeftSame(t, lo, hi);
    } else if RightHigh(t) {
      FixRightBalanced(t);
      FixRightSame(t, lo, hi);
    }
  }

  /** The body of the rebalancing loop at node n. */
  method Fix(n: Node<int>, ghost t: Tree<int>)
    requires t.node == n && Holds(t) && Distinct(t) && Fixable(t)
    modifies Nodes(t)
    ensures Holds(Fixed(t)) && Distinct(Fixed(t)) && Nodes(Fixed(t)) == Nodes(t) && Fixed(t).node == n
  {
    if n.left.info - n.right.info == 2 {
      FixLeftSide(n, t);
    } else if n.left.info - n.right.info == -2 {
      FixRightSide(n, t);
    } else if n.left.info > n.right.info {
      n.info := n.left.info + 1;
    } else {
      n.info := n.right.info + 1;
    }
  }

  method FixLeftSide(n: Node<int>, ghost t: Tree<int>)
    requires t.node == n && Holds(t) && Distinct(t) && LeftHigh(t)
    modifies Nodes(t)
    ensures Holds(FixLeft(t)) && Distinct(FixLeft(t)) && Nodes(FixLeft(t)) == Nodes(t)
  {
    LeftHighForks(t);
    assert Holds(t.left) && Holds(t.left.left) && Holds(t.right);
    assert t.left.node in Nodes(t) && Nodes(t.left) <= Nodes(t) && t.right.node in Nodes(t);
    if n.left.left.info - n.right.info == 1 {
      SingleRight(n, t);
    } else {
      DoubleRight(n, t);
    }
  }

  method SingleRight(n: Node<int>, ghost t: Tree<int>)
    requires t.node == n && Holds(t) && Distinct(t) && t.Fork? && t.left.Fork?
    modifies n, t.left.node, t.left.left.node
    ensures var u := RotatedRight(t); var h := u.right.left.info; var v := Relabelled(u, h + 2, u.left.info, h + 1);
      Holds(v) && Distinct(v) && Nodes(v) == Nodes(t)
  {
    RightRotation(n, t);
    LabelRight(n, RotatedRight(t));
  }

  method DoubleRight(n: Node<int>, ghost t: Tree<int>)
    requires t.node == n && Holds(t) && Distinct(t) && t.Fork? && t.left.Fork? && t.left.right.Fork?
    modifies n, t.left.node, t.left.right.node
    ensures var u := DoublyRotatedRight(t); var h := u.left.left.info; var v := Relabelled(u, h + 2, h + 1, h + 1);
      Holds(v) && Distinct(v) && Nodes(v) == Nodes(t)
  {
    LeftRightRotation(n, t);
    ghost var u := DoublyRotatedRight(t);
    assert Holds(u.left) && Holds(u.left.left);
    var h := n.left.left.info;
    Relabel(n, h + 2, h + 1, h + 1, u);
  }

  method FixRightSide(n: Node<int>, ghost t: Tree<int>)
    requires t.node == n && Holds(t) && Distinct(t) && RightHigh(t)
    modifies Nodes(t)
    ensures Holds(FixRight(t)) && Distinct(FixRight(t)) && Nodes(FixRight(t)) == Nodes(t)
  {
    RightHighForks(t);
    assert Holds(t.right) && Holds(t.right.right) && Holds(t.left);
    assert t.right.node in Nodes(t) && Nodes(t.right) <= Nodes(t) && t.left.node in Nodes(t);
    if n.right.right.info - n.left.info == 1 {
      SingleLeft(n, t);
    } else {
      DoubleLeft(n, t);
    }
  }

  method SingleLeft(n: Node<int>, ghost t: Tree<int>)
    requires t.node == n && Holds(t) && Distinct(t) && t.Fork? && t.right.Fork?
    modifies n, t.right.node, t.right.right.node
    ensures var u := RotatedLeft(t); var h := u.left.right.info; var v := Relabelled(u, h + 2, h + 1, u.right.info);
      Holds(v) && Distinct(v) && Nodes(v) == Nodes(t)
  {
    LeftRotation(n, t);
    LabelLeft(n, RotatedLeft(t));
  }

  method DoubleLeft(n: Node<int>, ghost t: Tree<int>)
    requires t.node == n && Holds(t) && Distinct(t) && t.Fork? && t.right.Fork? && t.right.left.Fork?
    modifies n, t.right.node, t.right.left.node
    ensures var u := DoublyRotatedLeft(t); var h := u.right.right.info; var v := Relabelled(u, h + 2, h + 1, h + 1);
      Holds(v) && Distinct(v) && Nodes(v) == Nodes(t)
  {
    RightLeftRotation(n, t);
    ghost var u := DoublyRotatedLeft(t);
    assert Holds(u.right) && Holds(u.right.right);
    var h := n.right.right.info;
    Relabel(n, h + 2, h + 1, h + 1, u);
  }

  /** Heights after a single right rotation. */
  method LabelRight(n: Node<int>, ghost u: Tree<int>)
    requires u.Fork? && u.right.Fork? && u.node == n && Holds(u) && Distinct(u)
    modifies n, u.left.node, u.right.node
    ensures var h := u.right.left.info; var v := Relabelled(u, h + 2, u.left.info, h + 1);
      Holds(v) && Distinct(v) && Nodes(v) == Nodes(u)
  {
    assert Holds(u.right) && Holds(u.right.left) && Holds(u.left);
    var h := n.right.left.info;
    Relabel(n, h + 2, n.left.info, h + 1, u);
  }

  method LabelLeft(n: Node<int>, ghost u: Tree<int>)
    requires u.Fork? && u.left.Fork? && u.node == n && Holds(u) && Distinct(u)
    modifies n, u.left.node, u.right.node
    ensures var h := u.left.right.info; var v := Relabelled(u, h + 2, h + 1, u.right.info);
      Holds(v) && Distinct(v) && Nodes(v) == Nodes(u)
  {
    assert Holds(u.left) && Holds(u.left.right) && Holds(u.right);
    var h := n.left.right.info;
    Relabel(n, h + 2, h + 1, n.right.info, u);
  }

  // ---- The rebalancing loop of insert and delete.

  /** The path is balanced around a subtree of height h in the hole. */
  predicate PathBalanced(p: Path<int>, h: int) {
    p.Top? || (Balanced(p.other) && Level(p.info, h, p.other.info) && PathBalanced(p.up, p.info))
  }

  lemma {:induction false} PlugBalanced(p: Path<int>, t: Tree<int>)
    ensures Balanced(Plug(p, t)) <==> Balanced(t) && PathBalanced(p, t.info)
  {
    if !p.Top? { PlugBalanced(p.up, Parent(p, t)); }
  }

  /** One turn: the subtree in the hole, whose height was h, has changed height by at most one;
      the node above is put right, and changes its height by at most one. */
  method Turn(n: Node<int>, ghost p: Path<int>, ghost t: Tree<int>, ghost h: int) returns (ghost u: Tree<int>)
    requires At(p, t) && !p.Top? && p.node == n && Ordered(Plug(p, t))
    requires Balanced(t) && PathBalanced(p, h) && -1 <= t.info - h <= 1
    modifies PathNodes(p) + Nodes(t)
    ensures At(p.up, u) && u.node == n && PathNodes(p.up) + Nodes(u) == PathNodes(p) + Nodes(t)
    ensures Ordered(Plug(p.up, u)) && SameLookups(Plug(p, t), Plug(p.up, u))
    ensures Balanced(u) && -1 <= u.info - p.info <= 1
  {
    StepUp(p, t);
    ghost var v := Parent(p, t);
    PlugInRange(p.up, v);
    FixedOk(v, Lo(p.up), Hi(p.up));
    PlugSame(p.up, v, Fixed(v));
    PathAllocated(p.up);
    Fix(n, v);
    u := Fixed(v);
  }

  /** The loop of insert and of delete after the change below: walks the stack up until a
      node's height comes out as it was. */
  method Rebalance(path: seq<Node<int>>, ghost p0: Path<int>, ghost t0: Tree<int>, ghost h0: int)
    returns (ghost t': Tree<int>)
    requires At(p0, t0) && path == Stack(p0) && Ordered(Plug(p0, t0))
    requires Balanced(t0) && PathBalanced(p0, h0) && -1 <= t0.info - h0 <= 1
    modifies PathNodes(p0) + Nodes(t0)
    ensures At(Top, t') && Nodes(t') == PathNodes(p0) + Nodes(t0) && t'.node == Plug(p0, t0).node
    ensures Balanced(t') && Ordered(t') && SameLookups(Plug(p0, t0), t')
  {
    var stack, finished := path, false;
    ghost var p, t, h := p0, t0, h0;
    PlugHolds(p, t);
    while |stack| > 0 && !finished
      invariant At(p, t) && stack == Stack(p) && PathNodes(p) + Nodes(t) == PathNodes(p0) + Nodes(t0)
      invariant Ordered(Plug(p, t)) && SameLookups(Plug(p0, t0), Plug(p, t)) && Plug(p, t).node == Plug(p0, t0).node
      invariant Balanced(t) && PathBalanced(p, h) && -1 <= t.info - h <= 1 && (finished ==> t.info == h)
      decreases |stack|
    {
      var n := stack[|stack| - 1];
      stack := stack[..|stack| - 1];
      var oldHeight := n.info;
      PlugHolds(p, t);
      ghost var u := Turn(n, p, t, h);
      PlugHolds(p.up, u);
      p, t, h := p.up, u, p.info;
      if n.info == oldHeight { finished := true; }
    }
    PlugHolds(p, t);
    PlugBalanced(p, t);
    t' := Plug(p, t);
  }

  /** Insertion into a nonempty tree. */
  method InsertInto(root: Node<int>, key: int, obj: int, ghost t: Tree<int>) returns (r: int, ghost t': Tree<int>)
    requires t.node == root && At(Top, t) && Ordered(t) && Balanced(t)
    modifies Nodes(t)
    ensures t'.node == root && At(Top, t') && Ordered(t') && Balanced(t')
    ensures forall o :: o in Nodes(t') && o !in Nodes(t) ==> fresh(o)
    ensures r == if key in Contents(t) then -1 else 0
    ensures Contents(t') == if key in Contents(t) then Contents(t) else Contents(t)[key := obj]
  {
    var n, path; ghost var p, s;
    n, path, p, s := Descend(root, key, t);
    LookupIsContents(t, None, None, key);
    PlugLookup(p, s, s, key);
    PlugHolds(p, s);
    if n.key == key { return -1, t; }
    PlugBalanced(p, s);
    ghost var v := SplitLeaf(n, key, obj, 0, 1, p, s);
    PlugHolds(p, v);
    t' := Rebalance(path, p, v, 0);
    ContentsInsert(t, t', key, obj);
    r := 0;
  }

  /** Deletion from a tree of at least two leaves. */
  method DeleteFrom(root: Node<int>, key: int, ghost t: Tree<int>) returns (r: Option<int>, ghost t': Tree<int>)
    requires t.Fork? && t.node == root && At(Top, t) && Ordered(t) && Balanced(t)
    modifies Nodes(t)
    ensures t'.node == root && At(Top, t') && Ordered(t') && Balanced(t') && Nodes(t') <= Nodes(t)
    ensures r == (if key in Contents(t) then Some(Contents(t)[key]) else None) && Contents(t') == Contents(t) - {key}
  {
    var n, path; ghost var p, s;
    n, path, p, s := Descend(root, key, t);
    var upper := path[|path| - 1];
    var other := if key < upper.key then upper.right else upper.left;
    LookupIsContents(t, None, None, key);
    PlugLookup(p, s, s, key);
    PlugHolds(p, s);
    PlugBalanced(p, s);
    StepUp(p, s);
    ghost var v := Parent(p, s);
    if n.key != key {
      r := None;
    } else {
      r := n.obj;
      StoredHeight(p.other);
      UnlinkLeaf(upper, other, p, s);
      v := Moved(p.other, upper);
    }
    PlugHolds(p.up, v);
    t' := Rebalance(path[..|path| - 1], p.up, v, p.info);
    ContentsRemove(t, t', key);
  }

  // ---- The tree.

  /** A tree is known by its root node, whose address never changes. */
  class HeightBalancedTree {
    const root: Node<int>
    ghost var shape: Option<Tree<int>>

    ghost function Repr(): set<object>
      reads this
    {
      {this, root} + if shape.Some? then Nodes(shape.value) else {}
    }

    /** An empty tree is a root without object or child. */
    ghost predicate Valid()
      reads this, Repr()
    {
      match shape
      case None => root.left == null && root.obj == None
      case Some(t) => t.node == root && At(Top, t) && Ordered(t) && Balanced(t)
    }

    ghost function Map(): map<int, int>
      reads this
    {
      if shape.Some? then Contents(shape.value) else map[]
    }

    constructor ()
      ensures Valid() && fresh(Repr()) && Map() == map[]
    {
      root := new Node(0, None, 0);
      shape := None;
    }

    method Get(key: int) returns (r: Option<int>)
      requires Valid()
      ensures r == if key in Map() then Some(Map()[key]) else None
    {
      if root.left == null && root.obj == None { return None; }
      r := Find(root, key, shape.value);
      LookupIsContents(shape.value, None, None, key);
    }

    method Insert(key: int, obj: int) returns (r: int)
      requires Valid()
      modifies Repr()
      ensures Valid() && (forall o :: o in Repr() && o !in old(Repr()) ==> fresh(o))
      ensures r == if key in old(Map()) then -1 else 0
      ensures Map() == if key in old(Map()) then old(Map()) else old(Map())[key := obj]
    {
      if root.left == null && root.obj == None {
        root.obj := Some(obj);
        root.key := key;
        root.info := 0;
        root.right := null;
        shape := Some(Leaf(root, key, obj, 0));
        return 0;
      }
      ghost var t';
      r, t' := InsertInto(root, key, obj, shape.value);
      shape := Some(t');
    }

    method Delete(key: int) returns (r: Option<int>)
      requires Valid()
      modifies Repr()
      ensures Valid() && Repr() <= old(Repr())
      ensures r == if key in old(Map()) then Some(old(Map())[key]) else None
      ensures Map() == old(Map()) - {key}
    {
      if root.left == null && root.obj == None { return None; }
      if root.right == null {
        if root.key != key { return None; }
        r := root.obj;
        root.obj := None;
        shape := None;
        return;
      }
      ghost var t';
      r, t' := DeleteFrom(root, key, shape.value);
      shape := Some(t');
    }
  }
}
