/** The weight-balanced search tree of ch3/w_bl_tree.c. The information field of a node is the
    number of leaves below it. ALPHA = 0.288 and ALPHA + EPSILON = 0.293 are exact rationals. */
module WeightTree {
  import opened Prelude
  import opened LeafTree

  /** Each of two sibling weights is at least ALPHA times their sum, cleared of fractions. */
  predicate Even(a: int, b: int) {
    89 * a >= 36 * b && 89 * b >= 36 * a
  }

  lemma EvenMeansAlpha(a: int, b: int)
    ensures Even(a, b) <==> 1000 * a >= 288 * (a + b) && 1000 * b >= 288 * (a + b)
  {
  }

  predicate Balanced(t: Tree<int>) {
    match t
    case Leaf(_, _, _, w) => w == 1
    case Fork(_, _, w, l, r) => Balanced(l) && Balanced(r) && w == l.info + r.info && Even(l.info, r.info)
  }

  /** The stored weight of a balanced tree is its number of leaves. */
  lemma {:induction false} StoredWeight(t: Tree<int>)
    requires Balanced(t)
    ensures t.info == LeafCount(t) >= 1 && (t.Leaf? <==> t.info == 1)
  {
    if t.Fork? {
      StoredWeight(t.left);
      StoredWeight(t.right);
    }
  }

  // ---- Depth.

  function Pow(b: nat, e: nat): (p: nat)
    ensures b > 0 ==> p > 0
  {
    if e == 0 then 1 else b * Pow(b, e - 1)
  }

  /** The depth d of a tree of n leaves is logarithmic: (1000/712)^d <= n. */
  lemma {:induction false} LogarithmicDepth(t: Tree<int>)
    requires Balanced(t)
    ensures Pow(1000, Depth(t)) <= Pow(712, Depth(t)) * LeafCount(t)
  {
    StoredWeight(t);
    if t.Fork? {
      var c := if Depth(t.left) > Depth(t.right) then t.left else t.right;
      LogarithmicDepth(c);
      StoredWeight(t.left);
      StoredWeight(t.right);
      DepthStep(Pow(1000, Depth(c)), Pow(712, Depth(c)), LeafCount(c), LeafCount(t));
    }
  }

  lemma DepthStep(a: nat, b: nat, c: nat, n: nat)
    requires a <= b * c && 1000 * c <= 712 * n
    ensures 1000 * a <= (712 * b) * n
  {
    assert 1000 * a <= 1000 * (b * c) == b * (1000 * c);
    MulMonotone(b, 1000 * c, 712 * n);
    assert b * (712 * n) == (712 * b) * n;
  }

  lemma MulMonotone(b: nat, x: nat, y: nat)
    requires x <= y
    ensures b * x <= b * y
  {
    assert b * y == b * x + b * (y - x);
  }

  // ---- Restoring balance at one node.

  /** Even, but for one leaf too many on side h or one too few on side r. */
  predicate OneOff(h: int, r: int) {
    (h >= 2 && Even(h - 1, r)) || Even(h, r + 1)
  }

  /** The sibling weights are at most one leaf away from being even. */
  predicate AlmostEven(l: int, r: int) {
    Even(l, r) || OneOff(l, r) || OneOff(r, l)
  }

  predicate Fixable(t: Tree<int>) {
    t.Fork? && Balanced(t.left) && Balanced(t.right) && AlmostEven(t.left.info, t.right.info)
  }

  predicate RightLight(t: Tree<int>)
    requires t.Fork?
  {
    1000 * t.right.info < 288 * (t.left.info + t.right.info)
  }

  predicate LeftLight(t: Tree<int>)
    requires t.Fork?
  {
    1000 * t.left.info < 288 * (t.left.info + t.right.info)
  }

  /** The arithmetic of the rotations, for weights of every size: when the right side is too
      light, the left grandchild decides between a single and a double rotation, and either
      leaves all pairs even. */
  lemma SingleEven(l: int, r: int, ll: int, lr: int)
    requires l >= 1 && r >= 1 && OneOff(l, r) && 1000 * r < 288 * (l + r)
    requires ll >= 1 && lr >= 1 && ll + lr == l && Even(ll, lr) && 1000 * ll > 293 * (l + r)
    ensures Even(ll, lr + r) && Even(lr, r)
  {
  }

  lemma DoubleEven(l: int, r: int, ll: int, m: int, k: int)
    requires l >= 1 && r >= 1 && OneOff(l, r) && 1000 * r < 288 * (l + r)
    requires ll >= 1 && m >= 1 && k >= 1 && ll + m + k == l && Even(ll, m + k) && Even(m, k)
    requires 1000 * ll <= 293 * (l + r)
    ensures Even(ll, m) && Even(k, r) && Even(ll + m, k + r)
  {
  }

  /** The grandchildren that the rotations touch exist. */
  lemma RightLightForks(t: Tree<int>)
    requires Fixable(t) && RightLight(t)
    ensures OneOff(t.left.info, t.right.info)
    ensures t.left.Fork? && t.left.info >= 2 && t.right.info >= 1 && t.left.left.info >= 1 && t.left.right.info >= 1
    ensures 1000 * t.left.left.info <= 293 * (t.left.info + t.right.info) ==> t.left.right.Fork?
  {
    StoredWeight(t.left);
    StoredWeight(t.right);
    if t.left.Fork? {
      StoredWeight(t.left.left);
      StoredWeight(t.left.right);
    }
  }

  lemma LeftLightForks(t: Tree<int>)
    requires Fixable(t) && LeftLight(t)
    ensures OneOff(t.right.info, t.left.info)
    ensures t.right.Fork? && t.right.info >= 2 && t.left.info >= 1 && t.right.left.info >= 1 && t.right.right.info >= 1
    ensures 1000 * t.right.right.info <= 293 * (t.left.info + t.right.info) ==> t.right.left.Fork?
  {
    StoredWeight(t.left);
    StoredWeight(t.right);
    if t.right.Fork? {
      StoredWeight(t.right.left);
      StoredWeight(t.right.right);
    }
  }

  /** The subtree after each kind of rotation, with the weights recomputed. */
  function SingleRight(t: Tree<int>): Tree<int>
    requires t.Fork? && t.left.Fork?
  {
    var u := RotatedRight(t);
    Relabelled(u, t.left.info + t.right.info, u.left.info, u.right.left.info + u.right.right.info)
  }

  function SingleLeft(t: Tree<int>): Tree<int>
    requires t.Fork? && t.right.Fork?
  {
    var u := RotatedLeft(t);
    Relabelled(u, t.left.info + t.right.info, u.left.left.info + u.left.right.info, u.right.info)
  }

  function DoubleRight(t: Tree<int>): Tree<int>
    requires t.Fork? && t.left.Fork? && t.left.right.Fork?
  {
    Reweighed(DoublyRotatedRight(t), t.left.info + t.right.info)
  }

  function DoubleLeft(t: Tree<int>): Tree<int>
    requires t.Fork? && t.right.Fork? && t.right.left.Fork?
  {
    Reweighed(DoublyRotatedLeft(t), t.left.info + t.right.info)
  }

  function Reweighed(u: Tree<int>, w: int): Tree<int>
    requires u.Fork? && u.left.Fork? && u.right.Fork?
  {
    Relabelled(u, w, u.left.left.info + u.left.right.info, u.right.left.info + u.right.right.info)
  }

  /** The subtree after one turn of the rebalancing loop. That the rotated nodes exist is part
      of the conditions here; RightLightForks and LeftLightForks show that they always do. */
  function Fixed(t: Tree<int>): Tree<int>
    requires t.Fork?
  {
    var w := t.left.info + t.right.info;
    if RightLight(t) && t.left.Fork? then
      if 1000 * t.left.left.info > 293 * w || t.left.right.Leaf? then SingleRight(t) else DoubleRight(t)
    else if LeftLight(t) && t.right.Fork? then
      if 1000 * t.right.right.info > 293 * w || t.right.left.Leaf? then SingleLeft(t) else DoubleLeft(t)
    else WithInfo(t, w)
  }

  /** Which key comes to the root: that of the heavier side where the other has less than 288/1000 of the weight,
      by a single rotation only if the outer grandchild has more than 293/1000. */
  lemma FixedRoot(t: Tree<int>)
    requires Fixable(t)
    ensures var l, r := t.left.info, t.right.info;
      if 1000 * r < 288 * (l + r) then
        t.left.Fork? &&
        Fixed(t).key == if 1000 * t.left.left.info > 293 * (l + r) then t.left.key else t.left.right.key
      else if 1000 * l < 288 * (l + r) then
        t.right.Fork? &&
        Fixed(t).key == if 1000 * t.right.right.info > 293 * (l + r) then t.right.key else t.right.left.key
      else Fixed(t).key == t.key
  {
    if RightLight(t) {
      RightLightForks(t);
    } else if LeftLight(t) {
      LeftLightForks(t);
    }
  }

  // ---- Balance after a rotation.

  /** Two or three even pairs make a balanced tree of three or four balanced subtrees. */
  lemma SingleRightBalanced(t: Tree<int>)
    requires t.Fork? && t.left.Fork? && Balanced(t.left.left) && Balanced(t.left.right) && Balanced(t.right)
    requires t.left.info == t.left.left.info + t.left.right.info
    requires Even(t.left.left.info, t.left.right.info + t.right.info) && Even(t.left.right.info, t.right.info)
    ensures Balanced(SingleRight(t))
  {
    assert Balanced(Fork(t.left.node, t.key, t.left.right.info + t.right.info, t.left.right, t.right));
  }

  lemma SingleLeftBalanced(t: Tree<int>)
    requires t.Fork? && t.right.Fork? && Balanced(t.left) && Balanced(t.right.left) && Balanced(t.right.right)
    requires t.right.info == t.right.left.info + t.right.right.info
    requires Even(t.left.info + t.right.left.info, t.right.right.info) && Even(t.left.info, t.right.left.info)
    ensures Balanced(SingleLeft(t))
  {
    assert Balanced(Fork(t.right.node, t.key, t.left.info + t.right.left.info, t.left, t.right.left));
  }

  lemma ReweighedBalanced(u: Tree<int>, w: int)
    requires u.Fork? && u.left.Fork? && u.right.Fork?
    requires Balanced(u.left.left) && Balanced(u.left.right) && Balanced(u.right.left) && Balanced(u.right.right)
    requires Even(u.left.left.info, u.left.right.info) && Even(u.right.left.info, u.right.right.info)
    requires Even(u.left.left.info + u.left.right.info, u.right.left.info + u.right.right.info)
    requires w == u.left.left.info + u.left.right.info + u.right.left.info + u.right.right.info
    ensures Balanced(Reweighed(u, w))
  {
    assert Balanced(WithInfo(u.left, u.left.left.info + u.left.right.info));
    assert Balanced(WithInfo(u.right, u.right.left.info + u.right.right.info));
  }

  lemma DoubleRightBalanced(t: Tree<int>)
    requires t.Fork? && t.left.Fork? && t.left.right.Fork? && Balanced(t.left.left) && Balanced(t.right)
    requires var m := t.left.right;
      && Balanced(m.left) && Balanced(m.right) && t.left.info == t.left.left.info + m.left.info + m.right.info
      && Even(t.left.left.info, m.left.info) && Even(m.right.info, t.right.info)
      && Even(t.left.left.info + m.left.info, m.right.info + t.right.info)
    ensures Balanced(DoubleRight(t))
  {
    ReweighedBalanced(DoublyRotatedRight(t), t.left.info + t.right.info);
  }

  lemma DoubleLeftBalanced(t: Tree<int>)
    requires t.Fork? && t.right.Fork? && t.right.left.Fork? && Balanced(t.right.right) && Balanced(t.left)
    requires var m := t.right.left;
      && Balanced(m.left) && Balanced(m.right) && t.right.info == t.right.right.info + m.left.info + m.right.info
      && Even(t.left.info, m.left.info) && Even(m.right.info, t.right.right.info)
      && Even(t.left.info + m.left.info, m.right.info + t.right.right.info)
    ensures Balanced(DoubleLeft(t))
  {
    ReweighedBalanced(DoublyRotatedLeft(t), t.left.info + t.right.info);
  }

  /** The double rotation of a heavy side h against a light side r: the outer grandchild has
      weight o, the inner one is m, and its halves go to the two sides. */
  lemma DoubleOk(h: int, r: int, o: int, m: Tree<int>)
    requires h >= 1 && r >= 1 && OneOff(h, r) && 1000 * r < 288 * (h + r)
    requires m.Fork? && Balanced(m) && o >= 1 && o + m.info == h && Even(o, m.info) && 1000 * o <= 293 * (h + r)
    ensures Balanced(m.left) && Balanced(m.right) && m.info == m.left.info + m.right.info
    ensures var a, b := m.left.info, m.right.info;
      && Even(o, a) && Even(b, r) && Even(o + a, b + r)
      && Even(b, o) && Even(r, a) && Even(r + a, b + o)
  {
    StoredWeight(m.left);
    StoredWeight(m.right);
    DoubleEven(h, r, o, m.left.info, m.right.info);
    DoubleEven(h, r, o, m.right.info, m.left.info);
  }

  /** The two halves of a balanced interior tree. */
  lemma Halves(t: Tree<int>)
    requires Balanced(t) && t.Fork?
    ensures Balanced(t.left) && Balanced(t.right) && t.info == t.left.info + t.right.info
    ensures Even(t.left.info, t.right.info)
    ensures t.left.info >= 1 && t.right.info >= 1
  {
    StoredWeight(t.left);
    StoredWeight(t.right);
  }

  lemma RightLightSingle(t: Tree<int>)
    requires Fixable(t) && RightLight(t) && t.left.Fork? && 1000 * t.left.left.info > 293 * (t.left.info + t.right.info)
    ensures Balanced(SingleRight(t))
  {
    RightLightForks(t);
    Halves(t.left);
    SingleEven(t.left.info, t.right.info, t.left.left.info, t.left.right.info);
    SingleRightBalanced(t);
  }

  lemma RightLightDouble(t: Tree<int>)
    requires Fixable(t) && RightLight(t) && t.left.Fork?
    requires 1000 * t.left.left.info <= 293 * (t.left.info + t.right.info)
    ensures t.left.right.Fork? && Balanced(DoubleRight(t))
  {
    RightLightForks(t);
    Halves(t.left);
    DoubleOk(t.left.info, t.right.info, t.left.left.info, t.left.right);
    DoubleRightBalanced(t);
  }

  lemma LeftLightSingle(t: Tree<int>)
    requires Fixable(t) && LeftLight(t) && t.right.Fork?
    requires 1000 * t.right.right.info > 293 * (t.left.info + t.right.info)
    ensures Balanced(SingleLeft(t))
  {
    LeftLightForks(t);
    Halves(t.right);
    SingleEven(t.right.info, t.left.info, t.right.right.info, t.right.left.info);
    SingleLeftBalanced(t);
  }

  lemma LeftLightDouble(t: Tree<int>)
    requires Fixable(t) && LeftLight(t) && t.right.Fork?
    requires 1000 * t.right.right.info <= 293 * (t.left.info + t.right.info)
    ensures t.right.left.Fork? && Balanced(DoubleLeft(t))
  {
    LeftLightForks(t);
    Halves(t.right);
    DoubleOk(t.right.info, t.left.info, t.right.right.info, t.right.left);
    DoubleLeftBalanced(t);
  }

  /** One turn restores balance for every size of the subtrees. */
  lemma FixedBalanced(t: Tree<int>)
    requires Fixable(t)
    ensures Balanced(Fixed(t)) && Fixed(t).info == t.left.info + t.right.info
  {
    if RightLight(t) {
      RightLightFixed(t);
    } else if LeftLight(t) {
      LeftLightFixed(t);
    }
  }

  lemma RightLightFixed(t: Tree<int>)
    requires Fixable(t) && RightLight(t)
    ensures Balanced(Fixed(t)) && Fixed(t).info == t.left.info + t.right.info
  {
    RightLightForks(t);
    if 1000 * t.left.left.info > 293 * (t.left.info + t.right.info) {
      RightLightSingle(t);
    } else {
      RightLightDouble(t);
    }
  }

  lemma LeftLightFixed(t: Tree<int>)
    requires Fixable(t) && LeftLight(t) && !RightLight(t)
    ensures Balanced(Fixed(t)) && Fixed(t).info == t.left.info + t.right.info
  {
    LeftLightForks(t);
    if 1000 * t.right.right.info > 293 * (t.left.info + t.right.info) {
      LeftLightSingle(t);
    } else {
      LeftLightDouble(t);
    }
  }

  lemma SingleRightSame(t: Tree<int>, lo: Option<int>, hi: Option<int>)
    requires t.Fork? && t.left.Fork? && InRange(t, lo, hi)
    ensures InRange(SingleRight(t), lo, hi) && SameLookups(t, SingleRight(t))
  {
    RotatedRightSame(t, lo, hi);
    var u := RotatedRight(t);
    RelabelledSame(u, t.left.info + t.right.info, u.left.info, u.right.left.info + u.right.right.info, lo, hi);
  }

  lemma SingleLeftSame(t: Tree<int>, lo: Option<int>, hi: Option<int>)
    requires t.Fork? && t.right.Fork? && InRange(t, lo, hi)
    ensures InRange(SingleLeft(t), lo, hi) && SameLookups(t, SingleLeft(t))
  {
    RotatedLeftSame(t, lo, hi);
    var u := RotatedLeft(t);
    RelabelledSame(u, t.left.info + t.right.info, u.left.left.info + u.left.right.info, u.right.info, lo, hi);
  }

  lemma ReweighedSame(u: Tree<int>, w: int, lo: Option<int>, hi: Option<int>)
    requires u.Fork? && u.left.Fork? && u.right.Fork? && InRange(u, lo, hi)
    ensures InRange(Reweighed(u, w), lo, hi) && SameLookups(u, Reweighed(u, w))
  {
    RelabelledSame(u, w, u.left.left.info + u.left.right.info, u.right.left.info + u.right.right.info, lo, hi);
  }

  lemma FixedSame(t: Tree<int>, lo: Option<int>, hi: Option<int>)
    requires Fixable(t) && InRange(t, lo, hi)
    ensures InRange(Fixed(t), lo, hi) && SameLookups(t, Fixed(t))
  {
    var w := t.left.info + t.right.info;
    if RightLight(t) {
      RightLightForks(t);
      if 1000 * t.left.left.info > 293 * w {
        SingleRightSame(t, lo, hi);
      } else {
        DoublyRotatedRightSame(t, lo, hi);
        ReweighedSame(DoublyRotatedRight(t), w, lo, hi);
      }
    } else if LeftLight(t) {
      LeftLightForks(t);
      if 1000 * t.right.right.info > 293 * w {
        SingleLeftSame(t, lo, hi);
      } else {
        DoublyRotatedLeftSame(t, lo, hi);
        ReweighedSame(DoublyRotatedLeft(t), w, lo, hi);
      }
    }
  }

  // ---- The loop body on the heap.

  /** The body of the rebalancing loop at node n. */
  method Fix(n: Node<int>, ghost t: Tree<int>)
    requires t.node == n && Holds(t) && Distinct(t) && Fixable(t)
    modifies Nodes(t)
    ensures Holds(Fixed(t)) && Distinct(Fixed(t)) && Nodes(Fixed(t)) == Nodes(t)
  {
    n.info := n.left.info + n.right.info;
    ghost var u := WithInfo(t, n.info);
    assert Holds(u) && Distinct(u) && Nodes(u) == Nodes(t);
    FixedIgnoresWeight(t, n.info);
    if 1000 * n.right.info < 288 * n.info {
      FixRightLight(n, u);
    } else if 1000 * n.left.info < 288 * n.info {
      FixLeftLight(n, u);
    }
  }

  /** The weight field itself is recomputed before it is read. */
  lemma FixedIgnoresWeight(t: Tree<int>, w: int)
    requires Fixable(t)
    ensures Fixable(WithInfo(t, w)) && Fixed(WithInfo(t, w)) == Fixed(t)
  {
    var u := WithInfo(t, w);
    assert t.left.Fork? ==>
      SingleRight(u) == SingleRight(t) && (t.left.right.Fork? ==> DoubleRight(u) == DoubleRight(t));
    assert t.right.Fork? ==> SingleLeft(u) == SingleLeft(t) && (t.right.left.Fork? ==> DoubleLeft(u) == DoubleLeft(t));
  }

  method FixRightLight(n: Node<int>, ghost t: Tree<int>)
    requires t.node == n && Holds(t) && Distinct(t) && Fixable(t) && t.info == t.left.info + t.right.info
    requires RightLight(t)
    modifies Nodes(t)
    ensures Holds(Fixed(t)) && Distinct(Fixed(t)) && Nodes(Fixed(t)) == Nodes(t)
  {
    RightLightForks(t);
    assert Holds(t.left) && Holds(t.left.left) && Nodes(t.left) <= Nodes(t);
    if 1000 * n.left.left.info > 293 * n.info {
      assert Fixed(t) == SingleRight(t);
      RotateRight(n, t);
    } else {
      assert Fixed(t) == DoubleRight(t);
      RotateLeftRight(n, t);
    }
  }

  method FixLeftLight(n: Node<int>, ghost t: Tree<int>)
    requires t.node == n && Holds(t) && Distinct(t) && Fixable(t) && t.info == t.left.info + t.right.info
    requires LeftLight(t) && !RightLight(t)
    modifies Nodes(t)
    ensures Holds(Fixed(t)) && Distinct(Fixed(t)) && Nodes(Fixed(t)) == Nodes(t)
  {
    LeftLightForks(t);
    assert Holds(t.right) && Holds(t.right.right) && Nodes(t.right) <= Nodes(t);
    if 1000 * n.right.right.info > 293 * n.info {
      assert Fixed(t) == SingleLeft(t);
      RotateLeft(n, t);
    } else {
      assert Fixed(t) == DoubleLeft(t);
      RotateRightLeft(n, t);
    }
  }

  method RotateRight(n: Node<int>, ghost t: Tree<int>)
    requires t.node == n && Holds(t) && Distinct(t) && t.Fork? && t.left.Fork? && t.info == t.left.info + t.right.info
    modifies n, t.left.node, t.left.left.node
    ensures Holds(SingleRight(t)) && Distinct(SingleRight(t)) && Nodes(SingleRight(t)) == Nodes(t)
  {
    RightRotation(n, t);
    ghost var u := RotatedRight(t);
    assert Holds(u.left) && Holds(u.right) && Holds(u.right.left) && Holds(u.right.right);
    Relabel(n, n.info, n.left.info, n.right.left.info + n.right.right.info, u);
  }

  method RotateLeft(n: Node<int>, ghost t: Tree<int>)
    requires t.node == n && Holds(t) && Distinct(t) && t.Fork? && t.right.Fork? && t.info == t.left.info + t.right.info
    modifies n, t.right.node, t.right.right.node
    ensures Holds(SingleLeft(t)) && Distinct(SingleLeft(t)) && Nodes(SingleLeft(t)) == Nodes(t)
  {
    LeftRotation(n, t);
    ghost var u := RotatedLeft(t);
    assert Holds(u.right) && Holds(u.left) && Holds(u.left.left) && Holds(u.left.right);
    Relabel(n, n.info, n.left.left.info + n.left.right.info, n.right.info, u);
  }

  method RotateLeftRight(n: Node<int>, ghost t: Tree<int>)
    requires t.node == n && Holds(t) && Distinct(t) && t.Fork? && t.left.Fork? && t.left.right.Fork?
    requires t.info == t.left.info + t.right.info
    modifies n, t.left.node, t.left.right.node
    ensures Holds(DoubleRight(t)) && Distinct(DoubleRight(t)) && Nodes(DoubleRight(t)) == Nodes(t)
  {
    LeftRightRotation(n, t);
    Reweigh(n, DoublyRotatedRight(t));
  }

  method RotateRightLeft(n: Node<int>, ghost t: Tree<int>)
    requires t.node == n && Holds(t) && Distinct(t) && t.Fork? && t.right.Fork? && t.right.left.Fork?
    requires t.info == t.left.info + t.right.info
    modifies n, t.right.node, t.right.left.node
    ensures Holds(DoubleLeft(t)) && Distinct(DoubleLeft(t)) && Nodes(DoubleLeft(t)) == Nodes(t)
  {
    RightLeftRotation(n, t);
    Reweigh(n, DoublyRotatedLeft(t));
  }

  /** New weights for the children of n from those of their own children. */
  method Reweigh(n: Node<int>, ghost u: Tree<int>)
    requires u.node == n && Holds(u) && Distinct(u) && u.Fork? && u.left.Fork? && u.right.Fork?
    modifies n, u.left.node, u.right.node
    ensures var v := Reweighed(u, u.info); Holds(v) && Distinct(v) && Nodes(v) == Nodes(u)
  {
    assert Holds(u.left) && Holds(u.right);
    assert Holds(u.left.left) && Holds(u.left.right) && Holds(u.right.left) && Holds(u.right.right);
    Relabel(n, n.info, n.left.left.info + n.left.right.info, n.right.left.info + n.right.right.info, u);
  }

  // ---- The rebalancing loop of insert and delete.

  /** The path is balanced around a subtree of weight w in the hole. */
  predicate PathBalanced(p: Path<int>, w: int) {
    p.Top? || (Balanced(p.other) && p.info == w + p.other.info && Even(w, p.other.info) && PathBalanced(p.up, p.info))
  }

  lemma {:induction false} PlugBalanced(p: Path<int>, t: Tree<int>)
    ensures Balanced(Plug(p, t)) <==> Balanced(t) && PathBalanced(p, t.info)
  {
    if !p.Top? { PlugBalanced(p.up, Parent(p, t)); }
  }

  /** A hole that is off by at most one leaf can be put right at the node above. */
  lemma ParentFixable(p: Path<int>, t: Tree<int>, w: int)
    requires !p.Top? && PathBalanced(p, w) && Balanced(t) && -1 <= t.info - w <= 1
    ensures Fixable(Parent(p, t))
  {
    StoredWeight(t);
    StoredWeight(p.other);
    OneLeaf(w, t.info, p.other.info);
  }

  lemma OneLeaf(w: int, w': int, o: int)
    requires w' >= 1 && o >= 1 && Even(w, o) && -1 <= w' - w <= 1
    ensures AlmostEven(w', o) && AlmostEven(o, w')
  {
  }

  /** The loop body with its effect in one place. */
  method FixNode(n: Node<int>, ghost t: Tree<int>, ghost lo: Option<int>, ghost hi: Option<int>)
    returns (ghost u: Tree<int>)
    requires t.node == n && Holds(t) && Distinct(t) && Fixable(t) && InRange(t, lo, hi)
    modifies Nodes(t)
    ensures Holds(u) && Distinct(u) && Nodes(u) == Nodes(t) && u.node == n
    ensures Balanced(u) && u.info == t.left.info + t.right.info && InRange(u, lo, hi) && SameLookups(t, u)
  {
    FixedBalanced(t);
    FixedSame(t, lo, hi);
    Fix(n, t);
    u := Fixed(t);
  }

  /** One turn: the subtree in the hole, whose weight was w, has changed by at most one leaf. */
  method Turn(n: Node<int>, ghost p: Path<int>, ghost t: Tree<int>, ghost w: int) returns (ghost u: Tree<int>)
    requires At(p, t) && !p.Top? && p.node == n && Ordered(Plug(p, t))
    requires Balanced(t) && PathBalanced(p, w) && -1 <= t.info - w <= 1
    modifies PathNodes(p) + Nodes(t)
    ensures At(p.up, u) && u.node == n && PathNodes(p.up) + Nodes(u) == PathNodes(p) + Nodes(t)
    ensures Ordered(Plug(p.up, u)) && SameLookups(Plug(p, t), Plug(p.up, u))
    ensures Balanced(u) && u.info - p.info == t.info - w
  {
    StepUp(p, t);
    ghost var v := Parent(p, t);
    ParentFixable(p, t, w);
    PlugInRange(p.up, v);
    PathAllocated(p.up);
    u := FixNode(n, v, Lo(p.up), Hi(p.up));
    PlugSame(p.up, v, u);
  }

  /** The loop of insert and of delete after the change below: walks the stack up to the root. */
  method Rebalance(path: seq<Node<int>>, ghost p0: Path<int>, ghost t0: Tree<int>, ghost w0: int)
    returns (ghost t': Tree<int>)
    requires At(p0, t0) && path == Stack(p0) && Ordered(Plug(p0, t0))
    requires Balanced(t0) && PathBalanced(p0, w0) && -1 <= t0.info - w0 <= 1
    modifies PathNodes(p0) + Nodes(t0)
    ensures At(Top, t') && Nodes(t') == PathNodes(p0) + Nodes(t0) && t'.node == Plug(p0, t0).node
    ensures Balanced(t') && Ordered(t') && SameLookups(Plug(p0, t0), t')
  {
    var stack := path;
    ghost var p, t, w := p0, t0, w0;
    PlugHolds(p, t);
    while |stack| > 0
      invariant At(p, t) && stack == Stack(p) && PathNodes(p) + Nodes(t) == PathNodes(p0) + Nodes(t0)
      invariant Ordered(Plug(p, t)) && SameLookups(Plug(p0, t0), Plug(p, t)) && Plug(p, t).node == Plug(p0, t0).node
      invariant Balanced(t) && PathBalanced(p, w) && -1 <= t.info - w <= 1
      decreases |stack|
    {
      var n := stack[|stack| - 1];
      stack := stack[..|stack| - 1];
      PlugHolds(p, t);
      ghost var u := Turn(n, p, t, w);
      PlugHolds(p.up, u);
      p, t, w := p.up, u, p.info;
    }
    t' := t;
  }

  /** Insertion into a nonempty tree. */
  method InsertInto(root: Node<int>, key: int, obj: int, ghost t: Tree<int>) returns (r: int, ghost t': Tree<int>)
    requires t.node == root && At(Top, t) && Ordered(t) && Balanced(t)
    modifies Nodes(t)
    ensures t'.node == root && At(Top, t') && Ordered(t') && Balanced(t')
    ensures forall o :: o in Nodes(t') && o !in Nodes(t) ==> fresh(o)
    ensures r == if key in Contents(t) then -1 else 0
    ensures Contents(t') == if key in Contents(t) then Contents(t) else Contents(t)[key := obj]
  {
    var n, path; ghost var p, s;
    n, path, p, s := Descend(root, key, t);
    LookupIsContents(t, None, None, key);
    PlugLookup(p, s, s, key);
    PlugHolds(p, s);
    if n.key == key { return -1, t; }
    PlugBalanced(p, s);
    ghost var v := SplitLeaf(n, key, obj, 1, 2, p, s);
    PlugHolds(p, v);
    t' := Rebalance(path, p, v, 1);
    ContentsInsert(t, t', key, obj);
    r := 0;
  }

  /** Deletion from a tree of at least two leaves. */
  method DeleteFrom(root: Node<int>, key: int, ghost t: Tree<int>) returns (r: Option<int>, ghost t': Tree<int>)
    requires t.Fork? && t.node == root && At(Top, t) && Ordered(t) && Balanced(t)
    modifies Nodes(t)
    ensures t'.node == root && At(Top, t') && Ordered(t') && Balanced(t') && Nodes(t') <= Nodes(t)
    ensures r == (if key in Contents(t) then Some(Contents(t)[key]) else None) && Contents(t') == Contents(t) - {key}
  {
    var n, path; ghost var p, s;
    n, path, p, s := Descend(root, key, t);
    var upper := path[|path| - 1];
    var other := if key < upper.key then upper.right else upper.left;
    LookupIsContents(t, None, None, key);
    PlugLookup(p, s, s, key);
    PlugHolds(p, s);
    PlugBalanced(p, s);
    StepUp(p, s);
    ghost var v := Parent(p, s);
    if n.key != key {
      r := None;
    } else {
      r := n.obj;
      UnlinkLeaf(upper, other, p, s);
      v := Moved(p.other, upper);
    }
    PlugHolds(p.up, v);
    t' := Rebalance(path[..|path| - 1], p.up, v, p.info);
    ContentsRemove(t, t', key);
  }

  // ---- The tree.

  /** A tree is known by its root node, whose address never changes. */
  class WeightBalancedTree {
    const root: Node<int>
    ghost var shape: Option<Tree<int>>

    ghost function Repr(): set<object>
      reads this
    {
      {this, root} + if shape.Some? then Nodes(shape.value) else {}
    }

    /** An empty tree is a root without object or child. */
    ghost predicate Valid()
      reads this, Repr()
    {
      match shape
      case None => root.left == null && root.obj == None
      case Some(t) => t.node == root && At(Top, t) && Ordered(t) && Balanced(t)
    }

    ghost function Map(): map<int, int>
      reads this
    {
      if shape.Some? then Contents(shape.value) else map[]
    }

    constructor ()
      ensures Valid() && fresh(Repr()) && Map() == map[]
    {
      root := new Node(0, None, 0);
      shape := None;
    }

    method Get(key: int) returns (r: Option<int>)
      requires Valid()
      ensures r == if key in Map() then Some(Map()[key]) else None
    {
      if root.left == null && root.obj == None { return None; }
      r := Find(root, key, shape.value);
      LookupIsContents(shape.value, None, None, key);
    }

    method Insert(key: int, obj: int) returns (r: int)
      requires Valid()
      modifies Repr()
      ensures Valid() && (forall o :: o in Repr() && o !in old(Repr()) ==> fresh(o))
      ensures r == if key in old(Map()) then -1 else 0
      ensures Map() == if key in old(Map()) then old(Map()) else old(Map())[key := obj]
    {
      if root.left == null && root.obj == None {
        root.obj := Some(obj);
        root.key := key;
        root.info := 1;
        root.right := null;
        shape := Some(Leaf(root, key, obj, 1));
        return 0;
      }
      ghost var t';
      r, t' := InsertInto(root, key, obj, shape.value);
      shape := Some(t');
    }

    method Delete(key: int) returns (r: Option<int>)
      requires Valid()
      modifies Repr()
      ensures Valid() && Repr() <= old(Repr())
      ensures r == if key in old(Map()) then Some(old(Map())[key]) else None
      ensures Map() == old(Map()) - {key}
    {
      if root.left == null && root.obj == None { return None; }
      if root.right == null {
        if root.key != key { return None; }
        r := root.obj;
        root.obj := None;
        shape := None;
        return;
      }
      ghost var t';
      r, t' := DeleteFrom(root, key, shape.value);
      shape := Some(t');
    }
  }
}
