/** The bottom-up red-black insertion of ch3/rb_tree.c. */
module BottomUpTree {
  import opened Prelude
  import opened LeafTree
  import opened RedBlackTree

  // ---- A red node with a red child, and the three ways out.

  /** The upper node of a red-red conflict: over two new leaves, or with one red child that is
      an interior node. */
  predicate Conflict(s: T) {
    && s.Fork? && s.info.Red? && Even(s) && Calm(s.left) && Calm(s.right)
    && if Blacks(s) == 0 then s.left.Leaf? && s.right.Leaf? && s.left.info.Red? && s.right.info.Red?
       else s.left.info != s.right.info
  }

  /** The conflict's place: its parent is black. */
  predicate ConflictAt(p: Path<Colour>, s: T) {
    Conflict(s) && PathEven(p, Blacks(s)) && PathCalm(p, Red)
  }

  /** What a way out leaves: all is well below, with the same number of blacks; only the colour of
      the top may have changed. */
  predicate Resolved(v: T, u: T, finished: bool) {
    && u.node == v.node && Even(u) && Calm(u) && Blacks(u) == Blacks(v)
    && (if finished then u.info.Black? else u.info.Red? && Blacks(u) > 0)
  }

  function Recoloured(v: T): T
    requires v.Fork?
  {
    Relabelled(v, Red, Black, Black)
  }

  function SingleRight(v: T): T
    requires v.Fork? && v.left.Fork?
  {
    Relabelled(RotatedRight(v), Black, v.left.left.info, Red)
  }

  function SingleLeft(v: T): T
    requires v.Fork? && v.right.Fork?
  {
    Relabelled(RotatedLeft(v), Black, Red, v.right.right.info)
  }

  function DoubleRight(v: T): T
    requires v.Fork? && v.left.Fork? && v.left.right.Fork?
  {
    Relabelled(DoublyRotatedRight(v), Red, Black, Black)
  }

  function DoubleLeft(v: T): T
    requires v.Fork? && v.right.Fork? && v.right.left.Fork?
  {
    Relabelled(DoublyRotatedLeft(v), Red, Black, Black)
  }

  lemma RecolouredResolves(p: Path<Colour>, s: T)
    requires !p.Top? && ConflictAt(p, s) && p.other.info.Red?
    ensures Resolved(Parent(p, s), Recoloured(Parent(p, s)), false)
  {
    assert Even(WithInfo(s, Black)) && Even(WithInfo(p.other, Black));
    assert Calm(WithInfo(s, Black)) && Calm(WithInfo(p.other, Black));
  }

  /** Beside a black node the conflict is not over new leaves. */
  lemma ConflictIsInner(p: Path<Colour>, s: T)
    requires !p.Top? && ConflictAt(p, s) && p.other.info.Black?
    ensures s.left.info != s.right.info
    ensures s.left.info.Red? ==> s.left.Fork?
    ensures s.right.info.Red? ==> s.right.Fork?
  {
    BlackHasBlacks(p.other);
  }

  lemma SingleRightResolves(p: Path<Colour>, s: T)
    requires p.WentLeft? && ConflictAt(p, s) && p.other.info.Black? && s.right.info.Black?
    ensures Resolved(Parent(p, s), SingleRight(Parent(p, s)), true)
  {
    ConflictIsInner(p, s);
    var u := SingleRight(Parent(p, s));
    assert u.left == s.left && u.right.left == s.right && u.right.right == p.other;
    assert Even(u.right) && Calm(u.right);
  }

  lemma SingleLeftResolves(p: Path<Colour>, s: T)
    requires p.WentRight? && ConflictAt(p, s) && p.other.info.Black? && s.left.info.Black?
    ensures Resolved(Parent(p, s), SingleLeft(Parent(p, s)), true)
  {
    ConflictIsInner(p, s);
    var u := SingleLeft(Parent(p, s));
    assert u.right == s.right && u.left.right == s.left && u.left.left == p.other;
    assert Even(u.left) && Calm(u.left);
  }

  lemma DoubleRightResolves(p: Path<Colour>, s: T)
    requires p.WentLeft? && ConflictAt(p, s) && p.other.info.Black? && s.right.info.Red?
    ensures s.right.Fork? && Resolved(Parent(p, s), DoubleRight(Parent(p, s)), false)
  {
    ConflictIsInner(p, s);
    var m := s.right;
    var u := DoubleRight(Parent(p, s));
    assert Even(m) && Calm(m);
    assert u.left.left == s.left && u.left.right == m.left && u.right.left == m.right && u.right.right == p.other;
    assert Even(u.left) && Calm(u.left) && Even(u.right) && Calm(u.right);
  }

  lemma DoubleLeftResolves(p: Path<Colour>, s: T)
    requires p.WentRight? && ConflictAt(p, s) && p.other.info.Black? && s.left.info.Red?
    ensures s.left.Fork? && Resolved(Parent(p, s), DoubleLeft(Parent(p, s)), false)
  {
    ConflictIsInner(p, s);
    var m := s.left;
    var u := DoubleLeft(Parent(p, s));
    assert Even(m) && Calm(m);
    assert u.right.right == s.right && u.right.left == m.right && u.left.right == m.left && u.left.left == p.other;
    assert Even(u.left) && Calm(u.left) && Even(u.right) && Calm(u.right);
  }

  // ---- One turn of the loop.

  /** u, in place of v, keeps order and lookups. */
  ghost predicate Refitted(v: T, u: T, lo: Option<int>, hi: Option<int>) {
    InRange(u, lo, hi) && SameLookups(v, u)
  }

  method Recolour(n: Node<Colour>, ghost v: T, ghost lo: Option<int>, ghost hi: Option<int>)
    requires v.Fork? && v.node == n && Holds(v) && Distinct(v) && InRange(v, lo, hi)
    modifies Nodes(v)
    ensures Holds(Recoloured(v)) && Distinct(Recoloured(v)) && Nodes(Recoloured(v)) == Nodes(v)
    ensures Refitted(v, Recoloured(v), lo, hi)
  {
    RelabelledSame(v, Red, Black, Black, lo, hi);
    Relabel(n, Red, Black, Black, v);
  }

  method RotateSingleRight(n: Node<Colour>, ghost v: T, ghost lo: Option<int>, ghost hi: Option<int>)
    requires v.Fork? && v.left.Fork? && v.node == n && Holds(v) && Distinct(v) && InRange(v, lo, hi)
    modifies Nodes(v)
    ensures Holds(SingleRight(v)) && Distinct(SingleRight(v)) && Nodes(SingleRight(v)) == Nodes(v)
    ensures Refitted(v, SingleRight(v), lo, hi)
  {
    ghost var u := RotatedRight(v);
    RotatedRightSame(v, lo, hi);
    RelabelledSame(u, Black, v.left.left.info, Red, lo, hi);
    RightRotation(n, v);
    assert Holds(u.left) && Holds(u.right);
    Relabel(n, Black, n.left.info, Red, u);
  }

  method RotateSingleLeft(n: Node<Colour>, ghost v: T, ghost lo: Option<int>, ghost hi: Option<int>)
    requires v.Fork? && v.right.Fork? && v.node == n && Holds(v) && Distinct(v) && InRange(v, lo, hi)
    modifies Nodes(v)
    ensures Holds(SingleLeft(v)) && Distinct(SingleLeft(v)) && Nodes(SingleLeft(v)) == Nodes(v)
    ensures Refitted(v, SingleLeft(v), lo, hi)
  {
    ghost var u := RotatedLeft(v);
    RotatedLeftSame(v, lo, hi);
    RelabelledSame(u, Black, Red, v.right.right.info, lo, hi);
    LeftRotation(n, v);
    assert Holds(u.left) && Holds(u.right);
    Relabel(n, Black, Red, n.right.info, u);
  }

  method RotateDoubleRight(n: Node<Colour>, ghost v: T, ghost lo: Option<int>, ghost hi: Option<int>)
    requires v.Fork? && v.left.Fork? && v.left.right.Fork? && v.node == n && Holds(v) && Distinct(v)
    requires InRange(v, lo, hi)
    modifies Nodes(v)
    ensures Holds(DoubleRight(v)) && Distinct(DoubleRight(v)) && Nodes(DoubleRight(v)) == Nodes(v)
    ensures Refitted(v, DoubleRight(v), lo, hi)
  {
    ghost var u := DoublyRotatedRight(v);
    DoublyRotatedRightSame(v, lo, hi);
    RelabelledSame(u, Red, Black, Black, lo, hi);
    LeftRightRotation(n, v);
    Relabel(n, Red, Black, Black, u);
  }

  method RotateDoubleLeft(n: Node<Colour>, ghost v: T, ghost lo: Option<int>, ghost hi: Option<int>)
    requires v.Fork? && v.right.Fork? && v.right.left.Fork? && v.node == n && Holds(v) && Distinct(v)
    requires InRange(v, lo, hi)
    modifies Nodes(v)
    ensures Holds(DoubleLeft(v)) && Distinct(DoubleLeft(v)) && Nodes(DoubleLeft(v)) == Nodes(v)
    ensures Refitted(v, DoubleLeft(v), lo, hi)
  {
    ghost var u := DoublyRotatedLeft(v);
    DoublyRotatedLeftSame(v, lo, hi);
    RelabelledSame(u, Red, Black, Black, lo, hi);
    RightLeftRotation(n, v);
    Relabel(n, Red, Black, Black, u);
  }

  /** At the parent n of a conflict whose upper node is current. */
  method Resolve(n: Node<Colour>, current: Node<Colour>, ghost p: Path<Colour>, ghost s: T, ghost lo: Option<int>,
      ghost hi: Option<int>)
    returns (finished: bool, ghost u: T)
    requires !p.Top? && ConflictAt(p, s) && s.node == current && p.node == n
    requires var v := Parent(p, s); Holds(v) && Distinct(v) && InRange(v, lo, hi)
    modifies Nodes(Parent(p, s))
    ensures Holds(u) && Distinct(u) && Nodes(u) == Nodes(Parent(p, s))
    ensures Resolved(Parent(p, s), u, finished) && Refitted(Parent(p, s), u, lo, hi)
  {
    ghost var v := Parent(p, s);
    assert Holds(s) && Holds(p.other) && Holds(s.left) && Holds(s.right) && current !in Nodes(p.other);
    if n.left.info == n.right.info {
      RecolouredResolves(p, s);
      Recolour(n, v, lo, hi);
      return false, Recoloured(v);
    }
    if current == n.left {
      if current.right.info == Black {
        SingleRightResolves(p, s);
        RotateSingleRight(n, v, lo, hi);
        return true, SingleRight(v);
      } else {
        DoubleRightResolves(p, s);
        RotateDoubleRight(n, v, lo, hi);
        return false, DoubleRight(v);
      }
    } else {
      if current.left.info == Black {
        SingleLeftResolves(p, s);
        RotateSingleLeft(n, v, lo, hi);
        return true, SingleLeft(v);
      } else {
        DoubleLeftResolves(p, s);
        RotateDoubleLeft(n, v, lo, hi);
        return false, DoubleLeft(v);
      }
    }
  }

  // ---- The loop.

  lemma PathAfter(p: Path<Colour>, s: T, u: T, finished: bool)
    requires !p.Top? && ConflictAt(p, s) && Resolved(Parent(p, s), u, finished)
    ensures PathEven(p.up, Blacks(u)) && PathCalm(p.up, Black)
    ensures finished ==> Even(Plug(p.up, u)) && Calm(Plug(p.up, u))
  {
    PlugEven(p.up, u);
    PlugCalm(p.up, u);
  }

  /** A red subtree below a black node is no conflict, below a red one it is the next conflict. */
  lemma NextConflict(p: Path<Colour>, u: T)
    requires !p.Top? && Even(u) && Calm(u) && u.info.Red? && Blacks(u) > 0
    requires PathEven(p, Blacks(u)) && PathCalm(p, Black)
    ensures p.info.Black? ==> Even(Plug(p, u)) && Calm(Plug(p, u))
    ensures p.info.Red? ==> ConflictAt(p.up, Parent(p, u))
  {
    PlugEven(p, u);
    PlugCalm(p, u);
  }

  /** What the loop leaves: at most the root is red. */
  predicate Blackable(t: T) {
    Even(t) && (t.Fork? ==> Calm(t.left) && Calm(t.right))
  }

  lemma BlackenedRedBlack(t: T)
    requires Blackable(t)
    ensures RedBlack(WithInfo(t, Black)) && SameLookups(t, WithInfo(t, Black))
    ensures Ordered(WithInfo(t, Black)) <==> Ordered(t)
  {
  }

  method Turn(upper: Node<Colour>, current: Node<Colour>, ghost p: Path<Colour>, ghost t: T)
    returns (finished: bool, ghost u: T)
    requires At(p, t) && !p.Top? && p.node == upper && t.node == current && ConflictAt(p, t) && Ordered(Plug(p, t))
    modifies PathNodes(p) + Nodes(t)
    ensures At(p.up, u) && u.node == upper && PathNodes(p.up) + Nodes(u) == PathNodes(p) + Nodes(t)
    ensures Ordered(Plug(p.up, u)) && SameLookups(Plug(p, t), Plug(p.up, u))
    ensures Resolved(Parent(p, t), u, finished)
  {
    StepUp(p, t);
    ghost var v := Parent(p, t);
    PlugInRange(p.up, v);
    PathAllocated(p.up);
    finished, u := Resolve(upper, current, p, t, Lo(p.up), Hi(p.up));
    PlugSame(p.up, v, u);
  }

  /** A turn, and what it means for the whole tree. */
  method Level(upper: Node<Colour>, current: Node<Colour>, ghost p: Path<Colour>, ghost t: T)
    returns (finished: bool, ghost u: T)
    requires At(p, t) && !p.Top? && p.node == upper && t.node == current && ConflictAt(p, t) && Ordered(Plug(p, t))
    modifies PathNodes(p) + Nodes(t)
    ensures At(p.up, u) && PathNodes(p.up) + Nodes(u) == PathNodes(p) + Nodes(t)
    ensures Plug(p.up, u).node == Plug(p, t).node
    ensures Ordered(Plug(p.up, u)) && SameLookups(Plug(p, t), Plug(p.up, u))
    ensures finished || p.up.Top? ==> Blackable(Plug(p.up, u))
    ensures !finished ==> Even(u) && Calm(u) && u.info.Red? && Blacks(u) > 0
    ensures PathEven(p.up, Blacks(u)) && PathCalm(p.up, Black)
  {
    PlugHolds(p, t);
    finished, u := Turn(upper, current, p, t);
    PathAfter(p, t, u, finished);
    PlugHolds(p.up, u);
  }

  method Rebalance(path: seq<Node<Colour>>, current0: Node<Colour>, ghost p0: Path<Colour>, ghost t0: T)
    returns (ghost t': T)
    requires At(p0, t0) && path == Stack(p0) && t0.node == current0 && Ordered(Plug(p0, t0))
    requires !p0.Top? && ConflictAt(p0, t0)
    modifies PathNodes(p0) + Nodes(t0)
    ensures At(Top, t') && Nodes(t') == PathNodes(p0) + Nodes(t0) && t'.node == Plug(p0, t0).node
    ensures Blackable(t') && Ordered(t') && SameLookups(Plug(p0, t0), t')
  {
    var stack, current, finished := path, current0, false;
    ghost var p, t := p0, t0;
    while |stack| > 0 && !finished
      invariant At(p, t) && stack == Stack(p) && PathNodes(p) + Nodes(t) == PathNodes(p0) + Nodes(t0)
      invariant Ordered(Plug(p, t)) && SameLookups(Plug(p0, t0), Plug(p, t)) && Plug(p, t).node == Plug(p0, t0).node
      invariant if finished || p.Top? then Blackable(Plug(p, t)) else ConflictAt(p, t) && t.node == current
      decreases |stack|
    {
      var upper := stack[|stack| - 1];
      stack := stack[..|stack| - 1];
      ghost var u;
      finished, u := Level(upper, current, p, t);
      p, t := p.up, u;
      if !finished && |stack| > 0 {
        current := stack[|stack| - 1];
        stack := stack[..|stack| - 1];
        NextConflict(p, t);
        StepUp(p, t);
        p, t := p.up, Parent(p, t);
        if current.info == Black { finished := true; }
      }
    }
    PlugHolds(p, t);
    t' := Plug(p, t);
  }

  /** Splitting a leaf into two red ones keeps the blacks even. */
  lemma SplitEven(p: Path<Colour>, s: T, v: T)
    requires s.Leaf? && RedBlack(Plug(p, s)) && v.Fork? && v.left.Leaf? && v.right.Leaf?
    requires v.info == s.info && v.left.info == v.right.info == Red
    ensures s.info.Black? ==> Blackable(Plug(p, v))
    ensures s.info.Red? ==> ConflictAt(p, v) && !p.Top?
  {
    PlugEven(p, s);
    PlugCalm(p, s);
    PlugEven(p, v);
    PlugCalm(p, v);
  }

  method Blacken(root: Node<Colour>, ghost t: T)
    requires t.node == root && At(Top, t)
    modifies root
    ensures At(Top, WithInfo(t, Black)) && Nodes(WithInfo(t, Black)) == Nodes(t)
  {
    root.info := Black;
  }

  method InsertInto(root: Node<Colour>, key: int, obj: int, ghost t: T) returns (r: int, ghost t': T)
    requires t.node == root && At(Top, t) && Ordered(t) && RedBlack(t)
    modifies Nodes(t)
    ensures t'.node == root && At(Top, t') && Ordered(t') && RedBlack(t')
    ensures forall o :: o in Nodes(t') && o !in Nodes(t) ==> fresh(o)
    ensures r == if key in Contents(t) then -1 else 0
    ensures Contents(t') == if key in Contents(t) then Contents(t) else Contents(t)[key := obj]
  {
    var n, path; ghost var p, s;
    n, path, p, s := Descend(root, key, t);
    LookupIsContents(t, None, None, key);
    PlugLookup(p, s, s, key);
    PlugHolds(p, s);
    if n.key == key { return -1, t; }
    ghost var v := SplitLeaf(n, key, obj, Red, n.info, p, s);
    SplitEven(p, s, v);
    PlugHolds(p, v);
    t' := Plug(p, v);
    if !(n.info == Black || n == root) {
      t' := Rebalance(path, n, p, v);
    }
    BlackenedRedBlack(t');
    Blacken(root, t');
    t' := WithInfo(t', Black);
    ContentsInsert(t, t', key, obj);
    r := 0;
  }

  // ---- The tree.

  class BottomUpRedBlackTree {
    const root: Node<Colour>
    ghost var shape: Option<T>

    ghost function Repr(): set<object>
      reads this
    {
      {this, root} + if shape.Some? then Nodes(shape.value) else {}
    }

    ghost predicate Valid()
      reads this, Repr()
    {
      match shape
      case None => root.left == null && root.obj == None
      case Some(t) => t.node == root && At(Top, t) && Ordered(t) && RedBlack(t)
    }

    ghost function Map(): map<int, int>
      reads this
    {
      if shape.Some? then Contents(shape.value) else map[]
    }

    constructor ()
      ensures Valid() && fresh(Repr()) && Map() == map[]
    {
      root := new Node(0, None, Black);
      shape := None;
    }

    method Get(key: int) returns (r: Option<int>)
      requires Valid()
      ensures r == if key in Map() then Some(Map()[key]) else None
    {
      if root.left == null && root.obj == None { return None; }
      r := Find(root, key, shape.value);
      LookupIsContents(shape.value, None, None, key);
    }

    method Insert(key: int, obj: int) returns (r: int)
      requires Valid()
      modifies Repr()
      ensures Valid() && (forall o :: o in Repr() && o !in old(Repr()) ==> fresh(o))
      ensures r == if key in old(Map()) then -1 else 0
      ensures Map() == if key in old(Map()) then old(Map()) else old(Map())[key := obj]
    {
      if root.left == null && root.obj == None {
        root.obj := Some(obj);
        root.key := key;
        root.info := Black;
        root.right := null;
        shape := Some(Leaf(root, key, obj, Black));
        return 0;
      }
      ghost var t';
      r, t' := InsertInto(root, key, obj, shape.value);
      shape := Some(t');
    }
  }
}
