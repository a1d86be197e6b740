/** The tree of ch4/wsmx_tree.c: intervals with weights are added, and the maximum over an
    interval of the sum of the weights of the intervals covering a point is asked for.

    A weight is stored in the summand of the topmost nodes whose leaves it covers; partial is
    the maximum below a node, not counting its own summand. The tree is height-balanced, and
    its rotations push summands down so that no point's value changes. */
module SumMaxTree {
  import opened Prelude
  import opened LeafTree

  datatype Info = Info(height: int, summand: int, partial: int)

  type T = Tree<Info>

  function Max(a: int, b: int): int {
    if a > b then a else b
  }

  // ---- What the tree says about points.

  /** The value at point x: the summands on its search path, and the leaf's partial. */
  function Value(t: T, x: int): int {
    match t
    case Leaf(_, _, _, a) => a.summand + a.partial
    case Fork(_, k, a, l, r) => a.summand + if x < k then Value(l, x) else Value(r, x)
  }

  /** The maximum of a subtree as its parent sees it. */
  function Peak(t: T): int {
    t.info.summand + t.info.partial
  }

  /** Every interior partial is the maximum of its children's peaks. */
  predicate Maxed(t: T) {
    t.Fork? ==> Maxed(t.left) && Maxed(t.right) && t.info.partial == Max(Peak(t.left), Peak(t.right))
  }

  /** Stored heights are consistent and sibling heights differ by at most one. */
  predicate Balanced(t: T) {
    match t
    case Leaf(_, _, _, a) => a.height == 0
    case Fork(_, _, a, l, r) => Balanced(l) && Balanced(r) && Level(a.height, l.info.height, r.info.height)
  }

  predicate Level(h: int, l: int, r: int) {
    h == 1 + Max(l, r) && -1 <= l - r <= 1
  }

  /** A tree of height h has at least Fib(h + 2) leaves. */
  lemma {:induction false} FibonacciBound(t: T)
    requires Balanced(t)
    ensures t.info.height >= 0 && LeafCount(t) >= Fib(t.info.height + 2)
  {
    if t.Fork? {
      FibonacciBound(t.left);
      FibonacciBound(t.right);
      FibStep(t.info.height, t.left.info.height + 2, t.right.info.height + 2);
    }
  }

  lemma {:induction false} HeightNonneg(t: T)
    requires Balanced(t)
    ensures t.info.height >= 0 && (t.Leaf? <==> t.info.height == 0)
  {
    if t.Fork? {
      HeightNonneg(t.left);
      HeightNonneg(t.right);
    }
  }

  ghost predicate SameValues(t: T, u: T) {
    forall x :: Value(t, x) == Value(u, x)
  }

  /** No point lies above the peak. */
  lemma {:induction false} PeakBounds(t: T, x: int)
    requires Maxed(t)
    ensures Value(t, x) <= Peak(t)
  {
    if t.Fork? { if x < t.key { PeakBounds(t.left, x); } else { PeakBounds(t.right, x); } }
  }

  /** The peak is the value at some key of the tree. */
  lemma {:induction false} PeakReached(t: T, lo: Option<int>, hi: Option<int>) returns (x: int)
    requires Maxed(t) && InRange(t, lo, hi)
    ensures Value(t, x) == Peak(t) && Below(lo, x) && Above(x, hi)
  {
    match t
    case Leaf(_, k, _, _) => x := k;
    case Fork(_, k, _, l, r) =>
      RangeNonempty(l, lo, Some(k));
      RangeNonempty(r, Some(k), hi);
      if Peak(l) > Peak(r) { x := PeakReached(l, lo, Some(k)); } else { x := PeakReached(r, Some(k), hi); }
  }

  // ---- Rotations.

  /** The summand of t raised by w. */
  function Raised(t: T, w: int): (u: T)
    ensures u.node == t.node && u.key == t.key && (u.Leaf? <==> t.Leaf?)
  {
    WithInfo(t, t.info.(summand := t.info.summand + w))
  }

  lemma RaisedFacts(t: T, w: int, lo: Option<int>, hi: Option<int>)
    ensures forall x :: Value(Raised(t, w), x) == Value(t, x) + w
    ensures Peak(Raised(t, w)) == Peak(t) + w && (Maxed(Raised(t, w)) <==> Maxed(t))
    ensures MinKey(Raised(t, w)) == MinKey(t) && (Tight(Raised(t, w)) <==> Tight(t))
    ensures InRange(Raised(t, w), lo, hi) <==> InRange(t, lo, hi)
    ensures SameLookups(t, Raised(t, w)) && (Balanced(Raised(t, w)) <==> Balanced(t))
    ensures Nodes(Raised(t, w)) == Nodes(t) && (Distinct(Raised(t, w)) <==> Distinct(t))
  {
  }

  function SumRotatedLeft(t: T): T
    requires t.Fork? && t.right.Fork?
  {
    var m := t.right;
    var s := t.info.summand;
    var a, b, c := Raised(t.left, s), Raised(m.left, s + m.info.summand), Raised(m.right, s + m.info.summand);
    Fork(t.node, m.key, Info(t.info.height, 0, t.info.partial + s),
         Fork(m.node, t.key, Info(m.info.height, 0, Max(Peak(a), Peak(b))), a, b), c)
  }

  function SumRotatedRight(t: T): T
    requires t.Fork? && t.left.Fork?
  {
    var m := t.left;
    var s := t.info.summand;
    var a, b, c := Raised(m.left, s + m.info.summand), Raised(m.right, s + m.info.summand), Raised(t.right, s);
    Fork(t.node, m.key, Info(t.info.height, 0, t.info.partial + s), a,
         Fork(m.node, t.key, Info(m.info.height, 0, Max(Peak(c), Peak(b))), b, c))
  }

  /** Everything about a subtree that the rest of the tree depends on, but for its height. */
  ghost predicate SameTree(t: T, u: T, lo: Option<int>, hi: Option<int>) {
    && u.node == t.node
    && InRange(u, lo, hi) && Maxed(u) && Tight(u)
    && SameLookups(t, u) && SameValues(t, u) && Peak(u) == Peak(t) && MinKey(u) == MinKey(t)
  }

  lemma SumRotatedLeftSame(t: T, lo: Option<int>, hi: Option<int>)
    requires t.Fork? && t.right.Fork? && InRange(t, lo, hi) && Maxed(t) && Tight(t)
    ensures SameTree(t, SumRotatedLeft(t), lo, hi)
  {
    var m, s := t.right, t.info.summand;
    RangeNonempty(m, Some(t.key), hi);
    RaisedFacts(t.left, s, lo, Some(t.key));
    RaisedFacts(m.left, s + m.info.summand, Some(t.key), Some(m.key));
    RaisedFacts(m.right, s + m.info.summand, Some(m.key), hi);
    var u := SumRotatedLeft(t);
    var f := u.left;
    assert f.left == Raised(t.left, s) && f.right == Raised(m.left, s + m.info.summand);
    assert u.right == Raised(m.right, s + m.info.summand);
    assert InRange(m.left, Some(t.key), Some(m.key)) && InRange(m.right, Some(m.key), hi);
    assert InRange(f, lo, Some(m.key));
    assert Maxed(m) && Maxed(f);
    assert Tight(m) && Tight(f) && MinKey(f) == MinKey(t.left) && MinKey(m) == MinKey(m.left);
    forall x ensures Value(u, x) == Value(t, x) && Lookup(u, x) == Lookup(t, x) {
      assert Value(u, x) == if x < m.key then Value(f, x) else Value(u.right, x);
      assert Value(f, x) == if x < t.key then Value(f.left, x) else Value(f.right, x);
      assert Value(m, x) == m.info.summand + if x < m.key then Value(m.left, x) else Value(m.right, x);
      assert Lookup(f, x) == if x < t.key then Lookup(f.left, x) else Lookup(f.right, x);
      assert Lookup(m, x) == if x < m.key then Lookup(m.left, x) else Lookup(m.right, x);
    }
  }

  lemma SumRotatedRightSame(t: T, lo: Option<int>, hi: Option<int>)
    requires t.Fork? && t.left.Fork? && InRange(t, lo, hi) && Maxed(t) && Tight(t)
    ensures SameTree(t, SumRotatedRight(t), lo, hi)
  {
    var m, s := t.left, t.info.summand;
    RangeNonempty(m, lo, Some(t.key));
    RaisedFacts(m.left, s + m.info.summand, lo, Some(m.key));
    RaisedFacts(m.right, s + m.info.summand, Some(m.key), Some(t.key));
    RaisedFacts(t.right, s, Some(t.key), hi);
    var u := SumRotatedRight(t);
    var f := u.right;
    assert f.right == Raised(t.right, s) && f.left == Raised(m.right, s + m.info.summand);
    assert u.left == Raised(m.left, s + m.info.summand);
    assert InRange(m.left, lo, Some(m.key)) && InRange(m.right, Some(m.key), Some(t.key));
    assert InRange(f, Some(m.key), hi);
    assert Maxed(m) && Maxed(f);
    assert Tight(m) && Tight(f) && MinKey(f) == MinKey(m.right) && MinKey(m) == MinKey(m.left);
    forall x ensures Value(u, x) == Value(t, x) && Lookup(u, x) == Lookup(t, x) {
      assert Value(u, x) == if x < m.key then Value(u.left, x) else Value(f, x);
      assert Value(f, x) == if x < t.key then Value(f.left, x) else Value(f.right, x);
      assert Value(m, x) == m.info.summand + if x < m.key then Value(m.left, x) else Value(m.right, x);
      assert Lookup(f, x) == if x < t.key then Lookup(f.left, x) else Lookup(f.right, x);
      assert Lookup(m, x) == if x < m.key then Lookup(m.left, x) else Lookup(m.right, x);
    }
  }

  method RaiseNode(n: Node<Info>, w: int, ghost t: T)
    requires t.node == n && Holds(t) && Distinct(t)
    modifies n
    ensures Holds(Raised(t, w)) && Distinct(Raised(t, w)) && Nodes(Raised(t, w)) == Nodes(t)
  {
    n.info := n.info.(summand := n.info.summand + w);
  }

  /** Takes the summands of n and of one child away; that of n goes to its partial. */
  method Unload(n: Node<Info>, c: Node<Info>, ghost t: T, ghost m: T) returns (w: int, v: int)
    requires t.Fork? && t.node == n && c == m.node && (m == t.left || m == t.right) && Holds(t) && Distinct(t)
    modifies n, c
    ensures w == t.info.summand && v == m.info.summand
    ensures var u := Unloaded(t, m == t.left); Holds(u) && Distinct(u) && Nodes(u) == Nodes(t)
  {
    assert Holds(t.left) && Holds(t.right);
    w := n.info.summand;
    n.info := n.info.(summand := 0);
    n.info := n.info.(partial := n.info.partial + w);
    v := c.info.summand;
    c.info := c.info.(summand := 0);
  }

  function Unloaded(t: T, left: bool): T
    requires t.Fork?
  {
    var l := if left then WithInfo(t.left, t.left.info.(summand := 0)) else t.left;
    var r := if left then t.right else WithInfo(t.right, t.right.info.(summand := 0));
    Fork(t.node, t.key, Info(t.info.height, 0, t.info.partial + t.info.summand), l, r)
  }

  method RaiseLeftSide(n: Node<Info>, w: int, ghost t: T)
    requires t.Fork? && t.node == n && Holds(t) && Distinct(t)
    modifies t.left.node
    ensures var u := Fork(n, t.key, t.info, Raised(t.left, w), t.right); Holds(u) && Distinct(u) && Nodes(u) == Nodes(t)
  {
    assert Holds(t.left) && Holds(t.right);
    Allocated(t.right);
    RaiseNode(n.left, w, t.left);
  }

  method RaiseRightSide(n: Node<Info>, w: int, ghost t: T)
    requires t.Fork? && t.node == n && Holds(t) && Distinct(t)
    modifies t.right.node
    ensures var u := Fork(n, t.key, t.info, t.left, Raised(t.right, w)); Holds(u) && Distinct(u) && Nodes(u) == Nodes(t)
  {
    assert Holds(t.left) && Holds(t.right);
    Allocated(t.left);
    RaiseNode(n.right, w, t.right);
  }

  /** Raises both subtrees of n, the left one first if so told. */
  method RaiseLower(n: Node<Info>, w: int, leftFirst: bool, ghost t: T)
    requires t.Fork? && t.node == n && Holds(t) && Distinct(t)
    modifies t.left.node, t.right.node
    ensures var u := Fork(n, t.key, t.info, Raised(t.left, w), Raised(t.right, w));
      Holds(u) && Distinct(u) && Nodes(u) == Nodes(t)
  {
    assert Holds(t.left) && Holds(t.right);
    Allocated(t.left);
    Allocated(t.right);
    if leftFirst {
      RaiseNode(n.left, w, t.left);
      Allocated(Raised(t.left, w));
      RaiseNode(n.right, w, t.right);
    } else {
      RaiseNode(n.right, w, t.right);
      Allocated(Raised(t.right, w));
      RaiseNode(n.left, w, t.left);
    }
  }

  /** Raises both subtrees of a child of n. */
  method RaiseUnder(n: Node<Info>, c: Node<Info>, w: int, leftFirst: bool, ghost t: T, ghost m: T)
    requires t.Fork? && t.node == n && (m == t.left || m == t.right) && m.Fork? && c == m.node
    requires Holds(t) && Distinct(t)
    modifies m.left.node, m.right.node
    ensures var m1 := Fork(m.node, m.key, m.info, Raised(m.left, w), Raised(m.right, w));
      var u := Fork(n, t.key, t.info, if m == t.left then m1 else t.left, if m == t.left then t.right else m1);
      Holds(u) && Distinct(u) && Nodes(u) == Nodes(t)
  {
    assert Holds(t.left) && Holds(t.right);
    Allocated(t.left);
    Allocated(t.right);
    RaiseLower(c, w, leftFirst, m);
  }

  /** Pushes the summands of n and its right child down to the three subtrees below them. */
  method PushDownLeft(n: Node<Info>, ghost t: T) returns (ghost u: T)
    requires t.Fork? && t.right.Fork? && t.node == n && Holds(t) && Distinct(t)
    modifies n, t.left.node, t.right.node, t.right.left.node, t.right.right.node
    ensures var m, s := t.right, t.info.summand;
      u == Fork(n, t.key, Info(t.info.height, 0, t.info.partial + s), Raised(t.left, s),
                Fork(m.node, m.key, m.info.(summand := 0),
                     Raised(m.left, s + m.info.summand), Raised(m.right, s + m.info.summand)))
    ensures Holds(u) && Distinct(u) && Nodes(u) == Nodes(t)
  {
    ghost var m := t.right;
    var tmp1, tmp2 := Unload(n, n.right, t, m);
    u := Unloaded(t, false);
    RaiseLeftSide(n, tmp1, u);
    u := Fork(n, u.key, u.info, Raised(u.left, tmp1), u.right);
    RaiseUnder(n, n.right, tmp1 + tmp2, true, u, u.right);
    u := Fork(n, t.key, Info(t.info.height, 0, t.info.partial + tmp1), Raised(t.left, tmp1),
              Fork(m.node, m.key, m.info.(summand := 0), Raised(m.left, tmp1 + tmp2), Raised(m.right, tmp1 + tmp2)));
  }

  method SumLeftRotation(n: Node<Info>, ghost t: T)
    requires t.Fork? && t.right.Fork? && t.node == n && Holds(t) && Distinct(t)
    modifies n, t.left.node, t.right.node, t.right.left.node, t.right.right.node
    ensures Holds(SumRotatedLeft(t)) && Distinct(SumRotatedLeft(t)) && Nodes(SumRotatedLeft(t)) == Nodes(t)
  {
    ghost var u := PushDownLeft(n, t);
    LeftRotation(n, u);
    MaxLeft(n, RotatedLeft(u));
  }

  /** Recomputes the partial of the left child. */
  method MaxLeft(n: Node<Info>, ghost t: T)
    requires t.Fork? && t.left.Fork? && t.node == n && Holds(t) && Distinct(t)
    modifies t.left.node
    ensures var l := t.left; var u := Fork(n, t.key, t.info,
      WithInfo(l, l.info.(partial := Max(Peak(l.left), Peak(l.right)))), t.right);
      Holds(u) && Distinct(u) && Nodes(u) == Nodes(t)
  {
    assert Holds(t.left) && Holds(t.left.left) && Holds(t.left.right);
    var tmp1 := n.left.left.info.summand + n.left.left.info.partial;
    var tmp2 := n.left.right.info.summand + n.left.right.info.partial;
    n.left.info := n.left.info.(partial := if tmp1 > tmp2 then tmp1 else tmp2);
  }

  method PushDownRight(n: Node<Info>, ghost t: T) returns (ghost u: T)
    requires t.Fork? && t.left.Fork? && t.node == n && Holds(t) && Distinct(t)
    modifies n, t.right.node, t.left.node, t.left.left.node, t.left.right.node
    ensures var m, s := t.left, t.info.summand;
      u == Fork(n, t.key, Info(t.info.height, 0, t.info.partial + s),
                Fork(m.node, m.key, m.info.(summand := 0),
                     Raised(m.left, s + m.info.summand), Raised(m.right, s + m.info.summand)), Raised(t.right, s))
    ensures Holds(u) && Distinct(u) && Nodes(u) == Nodes(t)
  {
    ghost var m := t.left;
    var tmp1, tmp2 := Unload(n, n.left, t, m);
    u := Unloaded(t, true);
    RaiseRightSide(n, tmp1, u);
    u := Fork(n, u.key, u.info, u.left, Raised(u.right, tmp1));
    RaiseUnder(n, n.left, tmp1 + tmp2, false, u, u.left);
    u := Fork(n, t.key, Info(t.info.height, 0, t.info.partial + tmp1),
              Fork(m.node, m.key, m.info.(summand := 0), Raised(m.left, tmp1 + tmp2), Raised(m.right, tmp1 + tmp2)),
              Raised(t.right, tmp1));
  }

  method SumRightRotation(n: Node<Info>, ghost t: T)
    requires t.Fork? && t.left.Fork? && t.node == n && Holds(t) && Distinct(t)
    modifies n, t.right.node, t.left.node, t.left.left.node, t.left.right.node
    ensures Holds(SumRotatedRight(t)) && Distinct(SumRotatedRight(t)) && Nodes(SumRotatedRight(t)) == Nodes(t)
  {
    ghost var u := PushDownRight(n, t);
    RightRotation(n, u);
    MaxRight(n, RotatedRight(u));
  }

  /** Recomputes the partial of the right child. */
  method MaxRight(n: Node<Info>, ghost t: T)
    requires t.Fork? && t.right.Fork? && t.node == n && Holds(t) && Distinct(t)
    modifies t.right.node
    ensures var r := t.right; var u := Fork(n, t.key, t.info, t.left,
      WithInfo(r, r.info.(partial := Max(Peak(r.right), Peak(r.left)))));
      Holds(u) && Distinct(u) && Nodes(u) == Nodes(t)
  {
    assert Holds(t.right) && Holds(t.right.left) && Holds(t.right.right);
    var tmp1 := n.right.right.info.summand + n.right.right.info.partial;
    var tmp2 := n.right.left.info.summand + n.right.left.info.partial;
    n.right.info := n.right.info.(partial := if tmp1 > tmp2 then tmp1 else tmp2);
  }

  // ---- Restoring balance at one node.

  predicate LeftHigh(t: T) {
    t.Fork? && Balanced(t.left) && Balanced(t.right) && t.left.info.height - t.right.info.height == 2
  }

  predicate RightHigh(t: T) {
    t.Fork? && Balanced(t.left) && Balanced(t.right) && t.left.info.height - t.right.info.height == -2
  }

  /** The grandchildren that the rotations touch exist. */
  lemma LeftHighForks(t: T)
    requires LeftHigh(t)
    ensures t.left.Fork?
    ensures t.left.left.info.height - t.right.info.height != 1 ==>
      t.left.right.Fork? && t.left.left.info.height == t.right.info.height
  {
    HeightNonneg(t.right);
    HeightNonneg(t.left);
    HeightNonneg(t.left.right);
  }

  lemma RightHighForks(t: T)
    requires RightHigh(t)
    ensures t.right.Fork?
    ensures t.right.right.info.height - t.left.info.height != 1 ==>
      t.right.left.Fork? && t.right.right.info.height == t.left.info.height
  {
    HeightNonneg(t.left);
    HeightNonneg(t.right);
    HeightNonneg(t.right.left);
  }

  /** New heights for a node and its children. */
  function Heighted(t: T, h: int, l: int, r: int): T
    requires t.Fork?
  {
    Relabelled(t, t.info.(height := h), t.left.info.(height := l), t.right.info.(height := r))
  }

  function AtHeight(t: T, h: int): T {
    WithInfo(t, t.info.(height := h))
  }

  lemma AtHeightFacts(t: T, h: int, lo: Option<int>, hi: Option<int>)
    ensures var u := AtHeight(t, h);
      && (forall x :: Value(u, x) == Value(t, x)) && Peak(u) == Peak(t) && MinKey(u) == MinKey(t)
      && (Maxed(u) <==> Maxed(t)) && (Tight(u) <==> Tight(t)) && (InRange(u, lo, hi) <==> InRange(t, lo, hi))
      && SameLookups(t, u)
  {
  }

  lemma HeightedSame(t: T, h: int, l: int, r: int, lo: Option<int>, hi: Option<int>)
    requires t.Fork? && InRange(t, lo, hi) && Maxed(t) && Tight(t)
    ensures SameTree(t, Heighted(t, h, l, r), lo, hi)
  {
    AtHeightFacts(t.left, l, lo, Some(t.key));
    AtHeightFacts(t.right, r, Some(t.key), hi);
    var u := Heighted(t, h, l, r);
    forall x ensures Value(u, x) == Value(t, x) && Lookup(u, x) == Lookup(t, x) {
      assert u.left == AtHeight(t.left, l) && u.right == AtHeight(t.right, r);
    }
  }

  method SetHeights(n: Node<Info>, h: int, l: int, r: int, ghost t: T)
    requires t.Fork? && t.node == n && Holds(t) && Distinct(t)
    modifies n, t.left.node, t.right.node
    ensures Holds(Heighted(t, h, l, r)) && Distinct(Heighted(t, h, l, r)) && Nodes(Heighted(t, h, l, r)) == Nodes(t)
  {
    assert Holds(t.left) && Holds(t.right);
    Relabel(n, n.info.(height := h), n.left.info.(height := l), n.right.info.(height := r), t);
  }

  lemma SameTreeTransitive(t: T, u: T, v: T, lo: Option<int>, hi: Option<int>)
    requires SameTree(t, u, lo, hi) && SameTree(u, v, lo, hi)
    ensures SameTree(t, v, lo, hi)
  {
  }

  function WithLeft(t: T, l: T): T
    requires t.Fork?
  {
    Fork(t.node, t.key, t.info, l, t.right)
  }

  function WithRight(t: T, r: T): T
    requires t.Fork?
  {
    Fork(t.node, t.key, t.info, t.left, r)
  }

  lemma SameLeft(t: T, l: T, lo: Option<int>, hi: Option<int>)
    requires t.Fork? && InRange(t, lo, hi) && Maxed(t) && Tight(t) && SameTree(t.left, l, lo, Some(t.key))
    ensures SameTree(t, WithLeft(t, l), lo, hi)
  {
    var u := WithLeft(t, l);
    forall x ensures Value(u, x) == Value(t, x) && Lookup(u, x) == Lookup(t, x) {
      assert Value(t.left, x) == Value(l, x) && Lookup(t.left, x) == Lookup(l, x);
    }
  }

  lemma SameRight(t: T, r: T, lo: Option<int>, hi: Option<int>)
    requires t.Fork? && InRange(t, lo, hi) && Maxed(t) && Tight(t) && SameTree(t.right, r, Some(t.key), hi)
    ensures SameTree(t, WithRight(t, r), lo, hi)
  {
    var u := WithRight(t, r);
    forall x ensures Value(u, x) == Value(t, x) && Lookup(u, x) == Lookup(t, x) {
      assert Value(t.right, x) == Value(r, x) && Lookup(t.right, x) == Lookup(r, x);
    }
  }

  function SingleRight(t: T): T
    requires t.Fork? && t.left.Fork?
  {
    var u := SumRotatedRight(t);
    var h := u.right.left.info.height;
    Heighted(u, h + 2, u.left.info.height, h + 1)
  }

  function SingleLeft(t: T): T
    requires t.Fork? && t.right.Fork?
  {
    var u := SumRotatedLeft(t);
    var h := u.left.right.info.height;
    Heighted(u, h + 2, h + 1, u.right.info.height)
  }

  function DoubleRight(t: T): T
    requires t.Fork? && t.left.Fork? && t.left.right.Fork?
  {
    EvenRight(WithLeft(t, SumRotatedLeft(t.left)))
  }

  /** The second half of a double rotation. */
  function EvenRight(t: T): T
    requires t.Fork? && t.left.Fork? && t.left.left.Fork?
  {
    var u := SumRotatedRight(t);
    var h := u.left.left.info.height;
    Heighted(u, h + 2, h + 1, h + 1)
  }

  function EvenLeft(t: T): T
    requires t.Fork? && t.right.Fork? && t.right.right.Fork?
  {
    var u := SumRotatedLeft(t);
    var h := u.right.right.info.height;
    Heighted(u, h + 2, h + 1, h + 1)
  }

  function DoubleLeft(t: T): T
    requires t.Fork? && t.right.Fork? && t.right.left.Fork?
  {
    EvenLeft(WithRight(t, SumRotatedRight(t.right)))
  }

  lemma SingleRightSame(t: T, lo: Option<int>, hi: Option<int>)
    requires t.Fork? && t.left.Fork? && InRange(t, lo, hi) && Maxed(t) && Tight(t)
    ensures SameTree(t, SingleRight(t), lo, hi)
  {
    var u := SumRotatedRight(t);
    SumRotatedRightSame(t, lo, hi);
    HeightedSame(u, u.right.left.info.height + 2, u.left.info.height, u.right.left.info.height + 1, lo, hi);
  }

  lemma SingleLeftSame(t: T, lo: Option<int>, hi: Option<int>)
    requires t.Fork? && t.right.Fork? && InRange(t, lo, hi) && Maxed(t) && Tight(t)
    ensures SameTree(t, SingleLeft(t), lo, hi)
  {
    var u := SumRotatedLeft(t);
    SumRotatedLeftSame(t, lo, hi);
    HeightedSame(u, u.left.right.info.height + 2, u.left.right.info.height + 1, u.right.info.height, lo, hi);
  }

  lemma DoubleRightSame(t: T, lo: Option<int>, hi: Option<int>)
    requires t.Fork? && t.left.Fork? && t.left.right.Fork? && InRange(t, lo, hi) && Maxed(t) && Tight(t)
    ensures SameTree(t, DoubleRight(t), lo, hi)
  {
    SumRotatedLeftSame(t.left, lo, Some(t.key));
    SameLeft(t, SumRotatedLeft(t.left), lo, hi);
    var v := WithLeft(t, SumRotatedLeft(t.left));
    SumRotatedRightSame(v, lo, hi);
    SameTreeTransitive(t, v, SumRotatedRight(v), lo, hi);
    var u := SumRotatedRight(v);
    var h := u.left.left.info.height;
    HeightedSame(u, h + 2, h + 1, h + 1, lo, hi);
    SameTreeTransitive(t, u, DoubleRight(t), lo, hi);
  }

  lemma DoubleLeftSame(t: T, lo: Option<int>, hi: Option<int>)
    requires t.Fork? && t.right.Fork? && t.right.left.Fork? && InRange(t, lo, hi) && Maxed(t) && Tight(t)
    ensures SameTree(t, DoubleLeft(t), lo, hi)
  {
    SumRotatedRightSame(t.right, Some(t.key), hi);
    SameRight(t, SumRotatedRight(t.right), lo, hi);
    var v := WithRight(t, SumRotatedRight(t.right));
    SumRotatedLeftSame(v, lo, hi);
    SameTreeTransitive(t, v, SumRotatedLeft(v), lo, hi);
    var u := SumRotatedLeft(v);
    var h := u.right.right.info.height;
    HeightedSame(u, h + 2, h + 1, h + 1, lo, hi);
    SameTreeTransitive(t, u, DoubleLeft(t), lo, hi);
  }

  /** Balance sees heights only. */
  lemma RaisedBalanced(t: T, w: int)
    requires Balanced(t)
    ensures Balanced(Raised(t, w)) && Raised(t, w).info.height == t.info.height
  {
  }

  lemma LeftHighBalanced(t: T)
    requires LeftHigh(t) && t.left.Fork? && t.left.left.info.height - t.right.info.height == 1
    ensures Balanced(SingleRight(t)) && t.left.info.height <= SingleRight(t).info.height <= t.left.info.height + 1
  {
    var m, s := t.left, t.info.summand;
    var u := SingleRight(t);
    RaisedBalanced(m.left, s + m.info.summand);
    RaisedBalanced(m.right, s + m.info.summand);
    RaisedBalanced(t.right, s);
    assert u.left == Raised(m.left, s + m.info.summand);
    assert u.right.left == Raised(m.right, s + m.info.summand) && u.right.right == Raised(t.right, s);
    assert Balanced(u.right);
  }

  lemma RightHighBalanced(t: T)
    requires RightHigh(t) && t.right.Fork? && t.right.right.info.height - t.left.info.height == 1
    ensures Balanced(SingleLeft(t)) && t.right.info.height <= SingleLeft(t).info.height <= t.right.info.height + 1
  {
    var m, s := t.right, t.info.summand;
    var u := SingleLeft(t);
    RaisedBalanced(m.left, s + m.info.summand);
    RaisedBalanced(m.right, s + m.info.summand);
    RaisedBalanced(t.left, s);
    assert u.right == Raised(m.right, s + m.info.summand);
    assert u.left.right == Raised(m.left, s + m.info.summand) && u.left.left == Raised(t.left, s);
    assert Balanced(u.left);
  }

  lemma DoubleRightBalanced(t: T)
    requires LeftHigh(t) && t.left.Fork? && t.left.right.Fork? && t.left.left.info.height == t.right.info.height
    ensures Balanced(DoubleRight(t)) && t.left.info.height <= DoubleRight(t).info.height <= t.left.info.height + 1
  {
    var l, s := t.left, t.info.summand;
    var m := l.right;
    HeightNonneg(l.left);
    assert Balanced(l) && Balanced(m);
    var w := l.info.summand + m.info.summand;
    RaisedBalanced(l.left, l.info.summand);
    RaisedBalanced(m.left, w);
    RaisedBalanced(m.right, w);
    RaisedBalanced(Raised(m.right, w), s);
    RaisedBalanced(t.right, s);
    var u := DoubleRight(t);
    assert u.left.left == Raised(l.left, l.info.summand) && u.left.right == Raised(m.left, w);
    assert u.right.left == Raised(Raised(m.right, w), s) && u.right.right == Raised(t.right, s);
    assert Balanced(u.left) && Balanced(u.right);
  }

  lemma DoubleLeftBalanced(t: T)
    requires RightHigh(t) && t.right.Fork? && t.right.left.Fork? && t.right.right.info.height == t.left.info.height
    ensures Balanced(DoubleLeft(t)) && t.right.info.height <= DoubleLeft(t).info.height <= t.right.info.height + 1
  {
    var r, s := t.right, t.info.summand;
    var m := r.left;
    HeightNonneg(r.right);
    assert Balanced(r) && Balanced(m);
    var w := r.info.summand + m.info.summand;
    RaisedBalanced(r.right, r.info.summand);
    RaisedBalanced(m.left, w);
    RaisedBalanced(m.right, w);
    RaisedBalanced(Raised(m.left, w), s);
    RaisedBalanced(t.left, s);
    var u := DoubleLeft(t);
    assert u.right.right == Raised(r.right, r.info.summand) && u.right.left == Raised(m.right, w);
    assert u.left.right == Raised(Raised(m.left, w), s) && u.left.left == Raised(t.left, s);
    assert Balanced(u.left) && Balanced(u.right);
  }

  /** What one turn of the rebalancing loop needs and what it gives. */
  ghost predicate Fixable(t: T, lo: Option<int>, hi: Option<int>) {
    && t.Fork? && Balanced(t.left) && Balanced(t.right) && -2 <= t.left.info.height - t.right.info.height <= 2
    && InRange(t, lo, hi) && Maxed(t) && Tight(t)
  }

  ghost predicate FixedTo(t: T, u: T, lo: Option<int>, hi: Option<int>)
    requires t.Fork?
  {
    && SameTree(t, u, lo, hi) && Balanced(u)
    && var m := Max(t.left.info.height, t.right.info.height);
       u.info.height == m + 1 || (u.info.height == m && !(-1 <= t.left.info.height - t.right.info.height <= 1))
  }

  method FixNode(n: Node<Info>, ghost t: T, ghost lo: Option<int>, ghost hi: Option<int>) returns (ghost u: T)
    requires t.node == n && Holds(t) && Distinct(t) && Fixable(t, lo, hi)
    modifies Nodes(t)
    ensures Holds(u) && Distinct(u) && Nodes(u) == Nodes(t) && FixedTo(t, u, lo, hi)
  {
    assert Holds(t.left) && Holds(t.right);
    if n.left.info.height - n.right.info.height == 2 {
      u := FixLeftSide(n, t, lo, hi);
    } else if n.left.info.height - n.right.info.height == -2 {
      u := FixRightSide(n, t, lo, hi);
    } else {
      var h := if n.left.info.height > n.right.info.height then n.left.info.height + 1 else n.right.info.height + 1;
      n.info := n.info.(height := h);
      u := AtHeight(t, h);
      AtHeightFacts(t, h, lo, hi);
    }
  }

  method FixLeftSide(n: Node<Info>, ghost t: T, ghost lo: Option<int>, ghost hi: Option<int>) returns (ghost u: T)
    requires t.node == n && Holds(t) && Distinct(t) && Fixable(t, lo, hi) && LeftHigh(t)
    modifies Nodes(t)
    ensures Holds(u) && Distinct(u) && Nodes(u) == Nodes(t) && FixedTo(t, u, lo, hi)
  {
    LeftHighForks(t);
    assert Holds(t.left) && Holds(t.left.left) && Holds(t.right);
    if n.left.left.info.height - n.right.info.height == 1 {
      u := SingleRight(t);
      SingleRightSame(t, lo, hi);
      LeftHighBalanced(t);
      RotateSingleRight(n, t);
    } else {
      u := DoubleRight(t);
      DoubleRightSame(t, lo, hi);
      DoubleRightBalanced(t);
      RotateDoubleRight(n, t);
    }
  }

  method FixRightSide(n: Node<Info>, ghost t: T, ghost lo: Option<int>, ghost hi: Option<int>) returns (ghost u: T)
    requires t.node == n && Holds(t) && Distinct(t) && Fixable(t, lo, hi) && RightHigh(t)
    modifies Nodes(t)
    ensures Holds(u) && Distinct(u) && Nodes(u) == Nodes(t) && FixedTo(t, u, lo, hi)
  {
    RightHighForks(t);
    assert Holds(t.right) && Holds(t.right.right) && Holds(t.left);
    if n.right.right.info.height - n.left.info.height == 1 {
      u := SingleLeft(t);
      SingleLeftSame(t, lo, hi);
      RightHighBalanced(t);
      RotateSingleLeft(n, t);
    } else {
      u := DoubleLeft(t);
      DoubleLeftSame(t, lo, hi);
      DoubleLeftBalanced(t);
      RotateDoubleLeft(n, t);
    }
  }

  method RotateSingleRight(n: Node<Info>, ghost t: T)
    requires t.Fork? && t.left.Fork? && t.node == n && Holds(t) && Distinct(t)
    modifies Nodes(t)
    ensures Holds(SingleRight(t)) && Distinct(SingleRight(t)) && Nodes(SingleRight(t)) == Nodes(t)
  {
    SumRightRotation(n, t);
    ghost var u := SumRotatedRight(t);
    assert Holds(u.right) && Holds(u.right.left) && Holds(u.left);
    var h := n.right.left.info.height;
    SetHeights(n, h + 2, n.left.info.height, h + 1, u);
  }

  method RotateSingleLeft(n: Node<Info>, ghost t: T)
    requires t.Fork? && t.right.Fork? && t.node == n && Holds(t) && Distinct(t)
    modifies Nodes(t)
    ensures Holds(SingleLeft(t)) && Distinct(SingleLeft(t)) && Nodes(SingleLeft(t)) == Nodes(t)
  {
    SumLeftRotation(n, t);
    ghost var u := SumRotatedLeft(t);
    assert Holds(u.left) && Holds(u.left.right) && Holds(u.right);
    var h := n.left.right.info.height;
    SetHeights(n, h + 2, h + 1, n.right.info.height, u);
  }

  method RotateDoubleRight(n: Node<Info>, ghost t: T)
    requires t.Fork? && t.left.Fork? && t.left.right.Fork? && t.node == n && Holds(t) && Distinct(t)
    modifies Nodes(t)
    ensures Holds(DoubleRight(t)) && Distinct(DoubleRight(t)) && Nodes(DoubleRight(t)) == Nodes(t)
  {
    RotateLeftChild(n, t);
    RotateEvenRight(n, WithLeft(t, SumRotatedLeft(t.left)));
  }

  method RotateEvenRight(n: Node<Info>, ghost t: T)
    requires t.Fork? && t.left.Fork? && t.left.left.Fork? && t.node == n && Holds(t) && Distinct(t)
    modifies Nodes(t)
    ensures Holds(EvenRight(t)) && Distinct(EvenRight(t)) && Nodes(EvenRight(t)) == Nodes(t)
  {
    SumRightRotation(n, t);
    ghost var u := SumRotatedRight(t);
    assert Holds(u.left) && Holds(u.left.left);
    var h := n.left.left.info.height;
    SetHeights(n, h + 2, h + 1, h + 1, u);
  }

  method RotateEvenLeft(n: Node<Info>, ghost t: T)
    requires t.Fork? && t.right.Fork? && t.right.right.Fork? && t.node == n && Holds(t) && Distinct(t)
    modifies Nodes(t)
    ensures Holds(EvenLeft(t)) && Distinct(EvenLeft(t)) && Nodes(EvenLeft(t)) == Nodes(t)
  {
    SumLeftRotation(n, t);
    ghost var u := SumRotatedLeft(t);
    assert Holds(u.right) && Holds(u.right.right);
    var h := n.right.right.info.height;
    SetHeights(n, h + 2, h + 1, h + 1, u);
  }

  method RotateDoubleLeft(n: Node<Info>, ghost t: T)
    requires t.Fork? && t.right.Fork? && t.right.left.Fork? && t.node == n && Holds(t) && Distinct(t)
    modifies Nodes(t)
    ensures Holds(DoubleLeft(t)) && Distinct(DoubleLeft(t)) && Nodes(DoubleLeft(t)) == Nodes(t)
  {
    RotateRightChild(n, t);
    RotateEvenLeft(n, WithRight(t, SumRotatedRight(t.right)));
  }

  method RotateLeftChild(n: Node<Info>, ghost t: T)
    requires t.Fork? && t.left.Fork? && t.left.right.Fork? && t.node == n && Holds(t) && Distinct(t)
    modifies Nodes(t.left)
    ensures var v := WithLeft(t, SumRotatedLeft(t.left)); Holds(v) && Distinct(v) && Nodes(v) == Nodes(t)
  {
    assert Holds(t.left) && Holds(t.right);
    Allocated(t.right);
    SumLeftRotation(n.left, t.left);
  }

  method RotateRightChild(n: Node<Info>, ghost t: T)
    requires t.Fork? && t.right.Fork? && t.right.left.Fork? && t.node == n && Holds(t) && Distinct(t)
    modifies Nodes(t.right)
    ensures var v := WithRight(t, SumRotatedRight(t.right)); Holds(v) && Distinct(v) && Nodes(v) == Nodes(t)
  {
    assert Holds(t.left) && Holds(t.right);
    Allocated(t.left);
    SumRightRotation(n.right, t.right);
  }
}
