/** The top-down red-black insertion of ch3/t_rb_tree.c: on the way down every black node with
    two red children is taken apart, so that the leaf reached is black and nothing needs mending. */
module TopDownTree {
  import opened Prelude
  import opened LeafTree
  import opened RedBlackTree

  // ---- Taking apart a black node with two red children.

  predicate Full(s: T) {
    s.Fork? && s.info.Black? && s.left.info.Red? && s.right.info.Red?
  }

  /** The full node is the outer left grandchild. */
  function OuterRight(v: T): T
    requires v.Fork? && v.left.Fork? && v.left.left.Fork?
  {
    var w := Relabelled(RotatedRight(v), v.info, Red, Red);
    Fork(w.node, w.key, w.info, Relabelled(w.left, Red, Black, Black), w.right)
  }

  function OuterLeft(v: T): T
    requires v.Fork? && v.right.Fork? && v.right.right.Fork?
  {
    var w := Relabelled(RotatedLeft(v), v.info, Red, Red);
    Fork(w.node, w.key, w.info, w.left, Relabelled(w.right, Red, Black, Black))
  }

  /** The colours after a double rotation: both middle grandchildren black. */
  function Inner(w: T): T
    requires w.Fork? && w.left.Fork? && w.right.Fork?
  {
    var l, r := w.left, w.right;
    Fork(w.node, w.key, w.info,
         Fork(l.node, l.key, Red, l.left, WithInfo(l.right, Black)),
           Fork(r.node, r.key, Red, WithInfo(r.left, Black), r.right))
  }

  /** The full node is the inner left grandchild. */
  function InnerRight(v: T): T
    requires v.Fork? && v.left.Fork? && v.left.right.Fork?
  {
    Inner(DoublyRotatedRight(v))
  }

  function InnerLeft(v: T): T
    requires v.Fork? && v.right.Fork? && v.right.left.Fork?
  {
    Inner(DoublyRotatedLeft(v))
  }

  /** v may be replaced by u: same blacks, same colour on top. */
  predicate Fits(v: T, u: T) {
    u.node == v.node && u.info == v.info && Blacks(u) == Blacks(v) && Even(u) && Calm(u)
  }

  lemma OuterRightFits(v: T)
    requires Even(v) && Calm(v) && v.Fork? && v.info.Black? && v.right.info.Black?
    requires v.left.Fork? && v.left.info.Red? && Full(v.left.left)
    ensures Fits(v, OuterRight(v))
  {
    var u, c := OuterRight(v), v.left.left;
    assert Even(v.left) && Calm(v.left) && Even(c) && Calm(c);
    Blackened(c.left);
    Blackened(c.right);
    assert u.left == Relabelled(c, Red, Black, Black) && Even(u.left) && Calm(u.left);
    assert u.right == Fork(v.left.node, v.key, Red, v.left.right, v.right) && Even(u.right) && Calm(u.right);
  }

  lemma OuterLeftFits(v: T)
    requires Even(v) && Calm(v) && v.Fork? && v.info.Black? && v.left.info.Black?
    requires v.right.Fork? && v.right.info.Red? && Full(v.right.right)
    ensures Fits(v, OuterLeft(v))
  {
    var u, c := OuterLeft(v), v.right.right;
    assert Even(v.right) && Calm(v.right) && Even(c) && Calm(c);
    Blackened(c.left);
    Blackened(c.right);
    assert u.right == Relabelled(c, Red, Black, Black) && Even(u.right) && Calm(u.right);
    assert u.left == Fork(v.right.node, v.key, Red, v.left, v.right.left) && Even(u.left) && Calm(u.left);
  }

  lemma InnerRightFits(v: T)
    requires Even(v) && Calm(v) && v.Fork? && v.info.Black? && v.right.info.Black?
    requires v.left.Fork? && v.left.info.Red? && Full(v.left.right)
    ensures Fits(v, InnerRight(v))
  {
    var u, c := InnerRight(v), v.left.right;
    assert Even(v.left) && Calm(v.left) && Even(c) && Calm(c);
    Blackened(c.left);
    Blackened(c.right);
    assert u.left.left == v.left.left && u.left.right == WithInfo(c.left, Black) && Even(u.left) && Calm(u.left);
    assert u.right.left == WithInfo(c.right, Black) && u.right.right == v.right && Even(u.right) && Calm(u.right);
  }

  lemma InnerLeftFits(v: T)
    requires Even(v) && Calm(v) && v.Fork? && v.info.Black? && v.left.info.Black?
    requires v.right.Fork? && v.right.info.Red? && Full(v.right.left)
    ensures Fits(v, InnerLeft(v))
  {
    var u, c := InnerLeft(v), v.right.left;
    assert Even(v.right) && Calm(v.right) && Even(c) && Calm(c);
    Blackened(c.left);
    Blackened(c.right);
    assert u.right.right == v.right.right && u.right.left == WithInfo(c.right, Black) && Even(u.right) && Calm(u.right);
    assert u.left.right == WithInfo(c.left, Black) && u.left.left == v.left && Even(u.left) && Calm(u.left);
  }

  lemma InnerSame(w: T, lo: Option<int>, hi: Option<int>)
    requires w.Fork? && w.left.Fork? && w.right.Fork? && InRange(w, lo, hi)
    ensures InRange(Inner(w), lo, hi) && SameLookups(w, Inner(w))
  {
    var u, l, r := Inner(w), w.left, w.right;
    RelabelledSame(l, Red, l.left.info, Black, lo, Some(w.key));
    RelabelledSame(r, Red, Black, r.right.info, Some(w.key), hi);
    assert u.left == Relabelled(l, Red, l.left.info, Black) && u.right == Relabelled(r, Red, Black, r.right.info);
  }

  // ---- The same in the heap.

  method PaintInner(n: Node<Colour>, ghost w: T)
    requires w.Fork? && w.left.Fork? && w.right.Fork? && w.node == n && Holds(w) && Distinct(w)
    modifies Nodes(w)
    ensures Holds(Inner(w)) && Distinct(Inner(w)) && Nodes(Inner(w)) == Nodes(w)
  {
    ghost var l, r := w.left, w.right;
    assert Holds(l) && Holds(l.left) && Holds(r) && Holds(r.right);
    Allocated(r);
    Relabel(n.left, Red, n.left.left.info, Black, l);
    ghost var l' := Relabelled(l, Red, l.left.info, Black);
    assert Holds(r) && Holds(r.right);
    Allocated(l');
    Relabel(n.right, Red, Black, n.right.right.info, r);
    assert Inner(w) == Fork(n, w.key, w.info, l', Relabelled(r, Red, Black, r.right.info));
  }

  method SplitOuterRight(n: Node<Colour>, ghost v: T, ghost lo: Option<int>, ghost hi: Option<int>)
    requires v.Fork? && v.left.Fork? && v.left.left.Fork? && v.node == n && Holds(v) && Distinct(v)
    requires InRange(v, lo, hi)
    modifies Nodes(v)
    ensures Holds(OuterRight(v)) && Distinct(OuterRight(v)) && Nodes(OuterRight(v)) == Nodes(v)
    ensures InRange(OuterRight(v), lo, hi) && SameLookups(v, OuterRight(v))
  {
    ghost var r := RotatedRight(v);
    ghost var w := Relabelled(r, v.info, Red, Red);
    RotatedRightSame(v, lo, hi);
    RelabelledSame(r, v.info, Red, Red, lo, hi);
    RelabelledSame(w.left, Red, Black, Black, lo, Some(w.key));
    RightRotation(n, v);
    Relabel(n, n.info, Red, Red, r);
    PaintLeft(n, w);
  }

  method SplitOuterLeft(n: Node<Colour>, ghost v: T, ghost lo: Option<int>, ghost hi: Option<int>)
    requires v.Fork? && v.right.Fork? && v.right.right.Fork? && v.node == n && Holds(v) && Distinct(v)
    requires InRange(v, lo, hi)
    modifies Nodes(v)
    ensures Holds(OuterLeft(v)) && Distinct(OuterLeft(v)) && Nodes(OuterLeft(v)) == Nodes(v)
    ensures InRange(OuterLeft(v), lo, hi) && SameLookups(v, OuterLeft(v))
  {
    ghost var l := RotatedLeft(v);
    ghost var w := Relabelled(l, v.info, Red, Red);
    RotatedLeftSame(v, lo, hi);
    RelabelledSame(l, v.info, Red, Red, lo, hi);
    RelabelledSame(w.right, Red, Black, Black, Some(w.key), hi);
    LeftRotation(n, v);
    Relabel(n, n.info, Red, Red, l);
    PaintRight(n, w);
  }

  method PaintLeft(n: Node<Colour>, ghost w: T)
    requires w.Fork? && w.left.Fork? && w.node == n && Holds(w) && Distinct(w)
    modifies Nodes(w.left)
    ensures var u := Fork(n, w.key, w.info, Relabelled(w.left, Red, Black, Black), w.right);
      Holds(u) && Distinct(u) && Nodes(u) == Nodes(w)
  {
    assert Holds(w.left) && Holds(w.right);
    Allocated(w.right);
    Relabel(n.left, Red, Black, Black, w.left);
  }

  method PaintRight(n: Node<Colour>, ghost w: T)
    requires w.Fork? && w.right.Fork? && w.node == n && Holds(w) && Distinct(w)
    modifies Nodes(w.right)
    ensures var u := Fork(n, w.key, w.info, w.left, Relabelled(w.right, Red, Black, Black));
      Holds(u) && Distinct(u) && Nodes(u) == Nodes(w)
  {
    assert Holds(w.left) && Holds(w.right);
    Allocated(w.left);
    Relabel(n.right, Red, Black, Black, w.right);
  }

  method SplitInnerRight(n: Node<Colour>, ghost v: T, ghost lo: Option<int>, ghost hi: Option<int>)
    requires v.Fork? && v.left.Fork? && v.left.right.Fork? && v.node == n && Holds(v) && Distinct(v)
    requires InRange(v, lo, hi)
    modifies Nodes(v)
    ensures Holds(InnerRight(v)) && Distinct(InnerRight(v)) && Nodes(InnerRight(v)) == Nodes(v)
    ensures InRange(InnerRight(v), lo, hi) && SameLookups(v, InnerRight(v))
  {
    DoublyRotatedRightSame(v, lo, hi);
    InnerSame(DoublyRotatedRight(v), lo, hi);
    LeftRightRotation(n, v);
    PaintInner(n, DoublyRotatedRight(v));
  }

  method SplitInnerLeft(n: Node<Colour>, ghost v: T, ghost lo: Option<int>, ghost hi: Option<int>)
    requires v.Fork? && v.right.Fork? && v.right.left.Fork? && v.node == n && Holds(v) && Distinct(v)
    requires InRange(v, lo, hi)
    modifies Nodes(v)
    ensures Holds(InnerLeft(v)) && Distinct(InnerLeft(v)) && Nodes(InnerLeft(v)) == Nodes(v)
    ensures InRange(InnerLeft(v), lo, hi) && SameLookups(v, InnerLeft(v))
  {
    DoublyRotatedLeftSame(v, lo, hi);
    InnerSame(DoublyRotatedLeft(v), lo, hi);
    RightLeftRotation(n, v);
    PaintInner(n, DoublyRotatedLeft(v));
  }

  // ---- Where the descent is.

  function DownTree(t: T, key: int): T
    requires t.Fork?
  {
    if key < t.key then t.left else t.right
  }

  function DownPath(p: Path<Colour>, t: T, key: int): Path<Colour>
    requires t.Fork?
  {
    if key < t.key then WentLeft(p, t.node, t.key, t.info, t.right) else WentRight(p, t.node, t.key, t.info, t.left)
  }

  lemma StepDown(p: Path<Colour>, t: T, key: int)
    requires At(p, t) && t.Fork? && OnPath(p, key)
    ensures At(DownPath(p, t, key), DownTree(t, key)) && Plug(DownPath(p, t, key), DownTree(t, key)) == Plug(p, t)
    ensures OnPath(DownPath(p, t, key), key)
    ensures PathNodes(DownPath(p, t, key)) + Nodes(DownTree(t, key)) == PathNodes(p) + Nodes(t)
  {
  }

  /** The node reached has no red neighbour below. */
  predicate Settled(s: T) {
    s.info.Black? && (s.Fork? ==> s.left.info.Black? && s.right.info.Black?)
  }

  /** Where upper is: nowhere, at the node reached, one black step above it, or two steps above
      with a red node between. In the last two cases it has at most one red child. */
  predicate Near(upper: Node?<Colour>, p: Path<Colour>, s: T) {
    || (upper == null && p.Top?)
    || (upper == s.node && Settled(s))
    || OneBelow(upper, p, s)
    || TwoBelow(upper, p)
  }

  predicate OneBelow(upper: Node?<Colour>, p: Path<Colour>, s: T) {
    !p.Top? && p.node == upper && p.info.Black? && (s.info.Red? ==> p.other.info.Black?)
  }

  predicate TwoBelow(upper: Node?<Colour>, p: Path<Colour>) {
    && !p.Top? && p.info.Red? && !p.up.Top? && p.up.node == upper
    && p.up.info.Black? && p.up.other.info.Black?
  }

  /** The descent arrives on a black leaf. */
  lemma BlackLeaf(upper: Node?<Colour>, p: Path<Colour>, s: T)
    requires Near(upper, p, s) && s.Leaf? && RedBlack(Plug(p, s))
    ensures s.info.Black?
  {
    PlugEven(p, s);
    PlugCalm(p, s);
    if s.info.Red? { BlackHasBlacks(p.other); }
  }

  // ---- The three kinds of taking apart, each followed by the step to the next node.

  lemma RecolouredRoot(s: T)
    requires RedBlack(s) && Full(s)
    ensures RedBlack(Relabelled(s, Black, Black, Black))
  {
    Blackened(s.left);
    Blackened(s.right);
  }

  lemma RecolouredBelow(p: Path<Colour>, s: T)
    requires RedBlack(Plug(p, s)) && Full(s) && !p.Top? && p.info.Black?
    ensures RedBlack(Plug(p, Relabelled(s, Red, Black, Black)))
  {
    var u := Relabelled(s, Red, Black, Black);
    PlugEven(p, s);
    PlugCalm(p, s);
    Blackened(s.left);
    Blackened(s.right);
    PlugEven(p, u);
    PlugCalm(p, u);
    PlugColour(p, s, u);
  }

  lemma FittedRedBlack(p: Path<Colour>, v: T, u: T)
    requires RedBlack(Plug(p, v)) && Fits(v, u)
    ensures RedBlack(Plug(p, u))
  {
    PlugEven(p, v);
    PlugEven(p, u);
    PlugCalm(p, v);
    PlugCalm(p, u);
    PlugColour(p, v, u);
  }

  /** The node after a full node s on the way to key: settled, and one step nearer the leaves. */
  predicate Next(s: T, key: int, u: T)
    requires s.Fork?
  {
    Settled(u) && u.node == DownTree(s, key).node && Depth(u) < Depth(s)
  }

  /** A full node's children have no red children, so once black they are settled. */
  lemma NextSettled(s: T, here: Colour, key: int)
    requires Full(s) && Calm(s)
    ensures Next(s, key, DownTree(Relabelled(s, here, Black, Black), key))
  {
  }

  lemma OuterRightNext(v: T, key: int)
    requires v.Fork? && v.left.Fork? && Full(v.left.left) && Calm(v.left.left) && key < v.left.key
    ensures Next(v.left.left, key, DownTree(DownTree(OuterRight(v), key), key))
  {
    NextSettled(v.left.left, Red, key);
  }

  lemma OuterLeftNext(v: T, key: int)
    requires v.Fork? && v.right.Fork? && Full(v.right.right) && Calm(v.right.right) && key >= v.right.key
    ensures Next(v.right.right, key, DownTree(DownTree(OuterLeft(v), key), key))
  {
    NextSettled(v.right.right, Red, key);
  }

  lemma InnerRightNext(v: T, key: int)
    requires v.Fork? && v.left.Fork? && Full(v.left.right) && Calm(v.left.right) && v.left.key <= key < v.key
    ensures Next(v.left.right, key, DownTree(DownTree(InnerRight(v), key), key))
  {
  }

  lemma InnerLeftNext(v: T, key: int)
    requires v.Fork? && v.right.Fork? && Full(v.right.left) && Calm(v.right.left) && v.key <= key < v.right.key
    ensures Next(v.right.left, key, DownTree(DownTree(InnerLeft(v), key), key))
  {
  }

  /** The state of the descent towards key. */
  ghost predicate Walking(p: Path<Colour>, s: T, key: int)
    reads PathNodes(p) + Nodes(s)
  {
    At(p, s) && OnPath(p, key) && Ordered(Plug(p, s)) && RedBlack(Plug(p, s))
  }

  /** The same pairs and the same root. */
  ghost predicate Same(t: T, u: T) {
    t.node == u.node && SameLookups(t, u)
  }

  lemma {:induction false} PlugNode(p: Path<Colour>, t: T, u: T)
    requires t.node == u.node
    ensures Plug(p, t).node == Plug(p, u).node
  {
    if !p.Top? { PlugNode(p.up, Parent(p, t), Parent(p, u)); }
  }

  /** The full node is the root, or below a black node: its colours change. */
  method RecolourFull(current: Node<Colour>, here: Colour, ghost p: Path<Colour>, ghost s: T, ghost key: int)
    returns (ghost p': Path<Colour>, ghost s': T)
    requires Walking(p, s, key) && s.node == current && Full(s)
    requires if p.Top? then here == Black else here == Red && p.info.Black?
    modifies Nodes(s)
    ensures Walking(p', s', key) && PathNodes(p') + Nodes(s') == PathNodes(p) + Nodes(s)
    ensures Same(Plug(p, s), Plug(p', s')) && Next(s, key, s')
  {
    ghost var u := Relabelled(s, here, Black, Black);
    if p.Top? { RecolouredRoot(s); } else { RecolouredBelow(p, s); }
    PlugInRange(p, s);
    PlugCalm(p, s);
    RelabelledSame(s, here, Black, Black, Lo(p), Hi(p));
    PlugSame(p, s, u);
    PlugNode(p, s, u);
    NextSettled(s, here, key);
    PathAllocated(p);
    Relabel(current, here, Black, Black, s);
    StepDown(p, u, key);
    p', s' := DownPath(p, u, key), DownTree(u, key);
  }

  /** Replacing the subtree of upper, and going down twice. */
  lemma TwoDown(q: Path<Colour>, v: T, u: T, key: int)
    requires At(q, u) && OnPath(q, key) && Ordered(Plug(q, v)) && RedBlack(Plug(q, v))
    requires Fits(v, u) && InRange(u, Lo(q), Hi(q)) && SameLookups(v, u)
    requires u.Fork? && DownTree(u, key).Fork?
    ensures var p1, s1 := DownPath(q, u, key), DownTree(u, key);
      var p', s' := DownPath(p1, s1, key), DownTree(s1, key);
      && Walking(p', s', key) && PathNodes(p') + Nodes(s') == PathNodes(q) + Nodes(u)
      && Same(Plug(q, v), Plug(p', s'))
  {
    FittedRedBlack(q, v, u);
    PlugSame(q, v, u);
    PlugNode(q, v, u);
    StepDown(q, u, key);
    StepDown(DownPath(q, u, key), DownTree(u, key), key);
  }

  /** The full node s is two below upper, whose subtree is v, and on its left side. */
  method SplitLeftSide(upper: Node<Colour>, current: Node<Colour>, ghost q: Path<Colour>, ghost v: T, ghost s: T,
      ghost key: int)
    returns (ghost p': Path<Colour>, ghost s': T)
    requires Walking(q, v, key) && v.node == upper && v.Fork? && v.info.Black? && v.right.info.Black? && key < v.key
    requires v.left.Fork? && v.left.info.Red? && s == DownTree(v.left, key) && Full(s) && s.node == current
    modifies Nodes(v)
    ensures Walking(p', s', key) && PathNodes(p') + Nodes(s') == PathNodes(q) + Nodes(v)
    ensures Same(Plug(q, v), Plug(p', s')) && Next(s, key, s')
  {
    PlugInRange(q, v);
    PlugEven(q, v);
    PlugCalm(q, v);
    PathAllocated(q);
    assert Holds(v.left) && Holds(v.left.left) && Holds(v.left.right) && Calm(v.left) && Calm(s);
    ghost var u;
    if current == upper.left.left {
      assert v.left.left.node in Nodes(v.left.left) && v.left.right.node in Nodes(v.left.right) && Distinct(v.left);
      assert key < v.left.key;
      OuterRightFits(v);
      OuterRightNext(v, key);
      u := OuterRight(v);
      SplitOuterRight(upper, v, Lo(q), Hi(q));
    } else {
      InnerRightFits(v);
      InnerRightNext(v, key);
      u := InnerRight(v);
      SplitInnerRight(upper, v, Lo(q), Hi(q));
    }
    TwoDown(q, v, u, key);
    p', s' := DownPath(DownPath(q, u, key), DownTree(u, key), key), DownTree(DownTree(u, key), key);
  }

  method SplitRightSide(upper: Node<Colour>, current: Node<Colour>, ghost q: Path<Colour>, ghost v: T, ghost s: T,
      ghost key: int)
    returns (ghost p': Path<Colour>, ghost s': T)
    requires Walking(q, v, key) && v.node == upper && v.Fork? && v.info.Black? && v.left.info.Black? && key >= v.key
    requires v.right.Fork? && v.right.info.Red? && s == DownTree(v.right, key) && Full(s) && s.node == current
    modifies Nodes(v)
    ensures Walking(p', s', key) && PathNodes(p') + Nodes(s') == PathNodes(q) + Nodes(v)
    ensures Same(Plug(q, v), Plug(p', s')) && Next(s, key, s')
  {
    PlugInRange(q, v);
    PlugEven(q, v);
    PlugCalm(q, v);
    PathAllocated(q);
    assert Holds(v.right) && Holds(v.right.left) && Holds(v.right.right) && Calm(v.right) && Calm(s);
    ghost var u;
    if current == upper.right.right {
      assert v.right.left.node in Nodes(v.right.left) && v.right.right.node in Nodes(v.right.right) &&
        Distinct(v.right);
      assert key >= v.right.key;
      OuterLeftFits(v);
      OuterLeftNext(v, key);
      u := OuterLeft(v);
      SplitOuterLeft(upper, v, Lo(q), Hi(q));
    } else {
      InnerLeftFits(v);
      InnerLeftNext(v, key);
      u := InnerLeft(v);
      SplitInnerLeft(upper, v, Lo(q), Hi(q));
    }
    TwoDown(q, v, u, key);
    p', s' := DownPath(DownPath(q, u, key), DownTree(u, key), key), DownTree(DownTree(u, key), key);
  }

  /** The separators tell on which side of upper the node reached is. */
  lemma SideOfUpper(p: Path<Colour>, s: T)
    requires Ordered(Plug(p, s)) && !p.Top? && s.Fork?
    ensures p.WentLeft? <==> s.key < p.key
    ensures !p.up.Top? ==> (p.up.WentLeft? <==> s.key < p.up.key)
  {
    PlugInRange(p, s);
    var v := Parent(p, s);
    PlugInRange(p.up, v);
    RangeNonempty(s.left, Lo(p), Some(s.key));
    RangeNonempty(s.right, Some(s.key), Hi(p));
    if !p.up.Top? {
      RangeNonempty(v.left, Lo(p.up), Some(v.key));
      RangeNonempty(v.right, Some(v.key), Hi(p.up));
    }
  }

  /** The links around the node reached. */
  lemma LinksAbove(p: Path<Colour>, s: T)
    requires At(p, s) && !p.Top?
    ensures p.node != s.node && (if p.WentLeft? then p.node.left == s.node else p.node.right == s.node)
    ensures p.node.key == p.key
    ensures !p.up.Top? ==> p.up.node.key == p.up.key
    ensures p.up.WentLeft? ==> p.up.node.left == p.node
    ensures p.up.WentRight? ==> p.up.node.right == p.node
  {
    StepUp(p, s);
    assert s.node in Nodes(s);
    assert PathHolds(p.up, p.node);
  }

  lemma TwoUp(p: Path<Colour>, s: T, key: int)
    requires Walking(p, s, key) && !p.Top? && !p.up.Top?
    ensures var v := Parent(p.up, Parent(p, s));
      && Walking(p.up.up, v, key) && Plug(p.up.up, v) == Plug(p, s)
      && PathNodes(p.up.up) + Nodes(v) == PathNodes(p) + Nodes(s)
      && s == DownTree(Parent(p, s), key) && DownTree(v, key) == Parent(p, s) && (key < v.key <==> p.up.WentLeft?)
  {
    StepUp(p, s);
    StepUp(p.up, Parent(p, s));
    assert OnPath(p.up, key);
  }

  /** The branches of the source on where current is below upper. */
  method TakeApart(upper: Node?<Colour>, current: Node<Colour>, ghost p: Path<Colour>, ghost s: T, ghost key: int)
    returns (ghost p': Path<Colour>, ghost s': T)
    requires Walking(p, s, key) && s.node == current && Full(s) && Near(upper, p, s)
    modifies PathNodes(p) + Nodes(s)
    ensures Walking(p', s', key) && PathNodes(p') + Nodes(s') == PathNodes(p) + Nodes(s)
    ensures Same(Plug(p, s), Plug(p', s')) && Next(s, key, s')
  {
    if upper == null {
      p', s' := RecolourFull(current, Black, p, s, key);
      return;
    }
    SideOfUpper(p, s);
    LinksAbove(p, s);
    if current.key < upper.key {
      if current == upper.left {
        assert OneBelow(upper, p, s);
        p', s' := RecolourFull(current, Red, p, s, key);
      } else {
        assert TwoBelow(upper, p);
        TwoUp(p, s, key);
        p', s' := SplitLeftSide(upper, current, p.up.up, Parent(p.up, Parent(p, s)), s, key);
      }
    } else {
      if current == upper.right {
        assert OneBelow(upper, p, s);
        p', s' := RecolourFull(current, Red, p, s, key);
      } else {
        assert TwoBelow(upper, p);
        TwoUp(p, s, key);
        p', s' := SplitRightSide(upper, current, p.up.up, Parent(p.up, Parent(p, s)), s, key);
      }
    }
  }

  // ---- The descent.

  /** One turn of the loop. */
  method Step(upper: Node?<Colour>, current: Node<Colour>, key: int, ghost p: Path<Colour>, ghost s: T)
    returns (upper': Node?<Colour>, next: Node<Colour>, ghost p': Path<Colour>, ghost s': T)
    requires Walking(p, s, key) && s.node == current && s.Fork? && Near(upper, p, s)
    modifies PathNodes(p) + Nodes(s)
    ensures Walking(p', s', key) && s'.node == next && Near(upper', p', s') && Depth(s') < Depth(s)
    ensures PathNodes(p') + Nodes(s') == PathNodes(p) + Nodes(s) && Same(Plug(p, s), Plug(p', s'))
  {
    assert Holds(s.left) && Holds(s.right);
    next := if key < current.key then current.left else current.right;
    if current.info == Black {
      if current.left.info == Black || current.right.info == Black {
        StepDown(p, s, key);
        p', s' := DownPath(p, s, key), DownTree(s, key);
        upper' := current;
        assert OneBelow(upper', p', s');
      } else {
        p', s' := TakeApart(upper, current, p, s, key);
        upper' := next;
      }
    } else {
      StepDown(p, s, key);
      PlugCalm(p, s);
      p', s' := DownPath(p, s, key), DownTree(s, key);
      upper' := upper;
      RedIsOneBelow(upper, p, s);
      assert TwoBelow(upper', p');
    }
  }

  lemma RedIsOneBelow(upper: Node?<Colour>, p: Path<Colour>, s: T)
    requires Near(upper, p, s) && RedBlack(Plug(p, s)) && s.info.Red?
    ensures OneBelow(upper, p, s)
  {
    PlugCalm(p, s);
  }

  method DescendSplitting(root: Node<Colour>, key: int, ghost t: T)
    returns (current: Node<Colour>, ghost p: Path<Colour>, ghost s: T)
    requires t.node == root && At(Top, t) && Ordered(t) && RedBlack(t)
    modifies Nodes(t)
    ensures Walking(p, s, key) && s.node == current && s.Leaf? && s.info.Black?
    ensures PathNodes(p) + Nodes(s) == Nodes(t) && Same(t, Plug(p, s))
  {
    var upper: Node?<Colour> := null;
    current, p, s := root, Top, t;
    while current.right != null
      invariant Walking(p, s, key) && s.node == current && Near(upper, p, s)
      invariant PathNodes(p) + Nodes(s) == Nodes(t) && Same(t, Plug(p, s))
      decreases Depth(s)
    {
      upper, current, p, s := Step(upper, current, key, p, s);
    }
    BlackLeaf(upper, p, s);
  }

  /** Splitting a black leaf into two red ones upsets nothing. */
  lemma SplitRedBlack(p: Path<Colour>, s: T, v: T)
    requires s.Leaf? && s.info.Black? && RedBlack(Plug(p, s)) && v.Fork? && v.left.Leaf? && v.right.Leaf?
    requires v.node == s.node && v.info == s.info && v.left.info == v.right.info == Red
    ensures RedBlack(Plug(p, v))
  {
    assert Even(v.left) && Even(v.right) && Calm(v.left) && Calm(v.right);
    assert Blacks(v.left) == Blacks(v.right) == 0;
    assert Fits(s, v);
    FittedRedBlack(p, s, v);
  }

  method InsertInto(root: Node<Colour>, key: int, obj: int, ghost t: T) returns (r: int, ghost t': T)
    requires t.node == root && At(Top, t) && Ordered(t) && RedBlack(t)
    modifies Nodes(t)
    ensures t'.node == root && At(Top, t') && Ordered(t') && RedBlack(t')
    ensures forall o :: o in Nodes(t') && o !in Nodes(t) ==> fresh(o)
    ensures r == if key in Contents(t) then -1 else 0
    ensures Contents(t') == if key in Contents(t) then Contents(t) else Contents(t)[key := obj]
  {
    var current; ghost var p, s;
    current, p, s := DescendSplitting(root, key, t);
    LookupIsContents(t, None, None, key);
    PlugLookup(p, s, s, key);
    PlugHolds(p, s);
    if current.key == key {
      ContentsSame(t, Plug(p, s));
      return -1, Plug(p, s);
    }
    ghost var v := SplitLeaf(current, key, obj, Red, current.info, p, s);
    SplitRedBlack(p, s, v);
    PlugNode(p, s, v);
    PlugHolds(p, v);
    t' := Plug(p, v);
    ContentsInsert(t, t', key, obj);
    r := 0;
  }

  // ---- The tree.

  class TopDownRedBlackTree {
    const root: Node<Colour>
    ghost var shape: Option<T>

    ghost function Repr(): set<object>
      reads this
    {
      {this, root} + if shape.Some? then Nodes(shape.value) else {}
    }

    ghost predicate Valid()
      reads this, Repr()
    {
      match shape
      case None => root.left == null && root.obj == None
      case Some(t) => t.node == root && At(Top, t) && Ordered(t) && RedBlack(t)
    }

    ghost function Map(): map<int, int>
      reads this
    {
      if shape.Some? then Contents(shape.value) else map[]
    }

    constructor ()
      ensures Valid() && fresh(Repr()) && Map() == map[]
    {
      root := new Node(0, None, Black);
      shape := None;
    }

    method Get(key: int) returns (r: Option<int>)
      requires Valid()
      ensures r == if key in Map() then Some(Map()[key]) else None
    {
      if root.left == null && root.obj == None { return None; }
      r := Find(root, key, shape.value);
      LookupIsContents(shape.value, None, None, key);
    }

    method Insert(key: int, obj: int) returns (r: int)
      requires Valid()
      modifies Repr()
      ensures Valid() && (forall o :: o in Repr() && o !in old(Repr()) ==> fresh(o))
      ensures r == if key in old(Map()) then -1 else 0
      ensures Map() == if key in old(Map()) then old(Map()) else old(Map())[key := obj]
    {
      if root.left == null && root.obj == None {
        root.obj := Some(obj);
        root.key := key;
        root.info := Black;
        root.right := null;
        shape := Some(Leaf(root, key, obj, Black));
        return 0;
      }
      ghost var t';
      r, t' := InsertInto(root, key, obj, shape.value);
      shape := Some(t');
    }
  }
}
