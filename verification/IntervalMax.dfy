/** The operations of ch4/wsmx_tree.c on its sum-max tree: insertion of a key, addition of a
    weighted interval, and the query for the maximum over an interval. */
module IntervalMax {
  import opened Prelude
  import opened LeafTree
  import opened SumMaxTree

  // ---- The query.

  /** The maximum over the points of t from a on, read off the path of a. */
  function LeftMax(t: T, a: int): int {
    match t
    case Leaf(_, _, _, _) => Peak(t)
    case Fork(_, k, i, l, r) =>
      i.summand + if a < k then Max(Peak(r), LeftMax(l, a)) else if a == k then Peak(r) else LeftMax(r, a)
  }

  /** The maximum over the points of t before b, read off the path of b. */
  function RightMax(t: T, b: int): int {
    match t
    case Leaf(_, _, _, _) => Peak(t)
    case Fork(_, k, i, l, r) =>
      i.summand + if k < b then Max(Peak(l), RightMax(r, b)) else if k == b then Peak(l) else RightMax(l, b)
  }

  /** The maximum over the points of t in [a, b). */
  function MaxIn(t: T, a: int, b: int): int {
    match t
    case Leaf(_, _, _, _) => Peak(t)
    case Fork(_, k, i, l, r) =>
      i.summand + if b < k then MaxIn(l, a, b) else if k < a then MaxIn(r, a, b) else Sides(t, a, b)
  }

  function Sides(t: T, a: int, b: int): int
    requires t.Fork?
  {
    if a < t.key < b then Max(LeftMax(t.left, a), RightMax(t.right, b))
    else if a == t.key then RightMax(t.right, b) else LeftMax(t.left, a)
  }

  lemma {:induction false} LeftMaxBounds(t: T, a: int, x: int)
    requires Maxed(t) && a <= x
    ensures Value(t, x) <= LeftMax(t, a)
  {
    if t.Fork? {
      if x < t.key { LeftMaxBounds(t.left, a, x); } else { PeakBounds(t.right, x); }
      if a > t.key { LeftMaxBounds(t.right, a, x); }
    }
  }

  lemma {:induction false} RightMaxBounds(t: T, b: int, x: int)
    requires Maxed(t) && x < b
    ensures Value(t, x) <= RightMax(t, b)
  {
    if t.Fork? {
      if x < t.key { PeakBounds(t.left, x); } else { RightMaxBounds(t.right, b, x); }
      if t.key > b { RightMaxBounds(t.left, b, x); }
    }
  }

  lemma {:induction false} LeftMaxReached(t: T, a: int, lo: Option<int>, hi: Option<int>) returns (x: int)
    requires Maxed(t) && InRange(t, lo, hi) && Above(a, hi)
    ensures a <= x && Above(x, hi) && Value(t, x) == LeftMax(t, a)
  {
    match t
    case Leaf(_, _, _, _) => x := a;
    case Fork(_, k, _, l, r) =>
      RangeNonempty(r, Some(k), hi);
      if a < k && LeftMax(l, a) >= Peak(r) {
        x := LeftMaxReached(l, a, lo, Some(k));
      } else if a <= k {
        x := PeakReached(r, Some(k), hi);
      } else {
        x := LeftMaxReached(r, a, Some(k), hi);
      }
  }

  lemma {:induction false} RightMaxReached(t: T, b: int, lo: int, hi: Option<int>) returns (x: int)
    requires Maxed(t) && InRange(t, Some(lo), hi) && lo < b
    ensures lo <= x < b && Value(t, x) == RightMax(t, b)
  {
    match t
    case Leaf(_, _, _, _) => x := lo;
    case Fork(_, k, _, l, r) =>
      RangeNonempty(l, Some(lo), Some(k));
      if k < b && RightMax(r, b) >= Peak(l) {
        x := RightMaxReached(r, b, k, hi);
      } else if k <= b {
        x := PeakReached(l, Some(lo), Some(k));
      } else {
        x := RightMaxReached(l, b, lo, Some(k));
      }
  }

  lemma {:induction false} MaxInBounds(t: T, a: int, b: int, x: int)
    requires Maxed(t) && a <= x < b
    ensures Value(t, x) <= MaxIn(t, a, b)
  {
    if t.Fork? {
      if b < t.key {
        MaxInBounds(t.left, a, b, x);
      } else if t.key < a {
        MaxInBounds(t.right, a, b, x);
      } else if x < t.key {
        LeftMaxBounds(t.left, a, x);
      } else {
        RightMaxBounds(t.right, b, x);
      }
    }
  }

  lemma {:induction false} MaxInReached(t: T, a: int, b: int, lo: Option<int>, hi: Option<int>) returns (x: int)
    requires Maxed(t) && InRange(t, lo, hi) && a < b
    ensures a <= x < b && Value(t, x) == MaxIn(t, a, b)
  {
    match t
    case Leaf(_, _, _, _) => x := a;
    case Fork(_, k, _, l, r) =>
      if b < k {
        x := MaxInReached(l, a, b, lo, Some(k));
      } else if k < a {
        x := MaxInReached(r, a, b, Some(k), hi);
      } else if k == b || (a < k && LeftMax(l, a) >= RightMax(r, b)) {
        x := LeftMaxReached(l, a, lo, Some(k));
      } else {
        x := RightMaxReached(r, b, k, hi);
      }
  }

  /** The running maximum of the source; None while its flag first is up. */
  function Better(best: Option<int>, m: int): Option<int> {
    if best == None || m > best.value then Some(m) else best
  }

  method LeftScan(root: Node<Info>, a: int, sum0: int, best0: Option<int>, ghost t: T) returns (best: Option<int>)
    requires t.node == root && Holds(t)
    ensures best == Better(best0, sum0 + LeftMax(t, a))
  {
    var n, sum := root, sum0;
    ghost var s := t;
    best := best0;
    while n.right != null
      invariant s.node == n && Holds(s)
      invariant Better(best, sum + LeftMax(s, a)) == Better(best0, sum0 + LeftMax(t, a))
      decreases s
    {
      sum := sum + n.info.summand;
      if a < n.key {
        best := Better(best, sum + n.right.info.summand + n.right.info.partial);
        n, s := n.left, s.left;
      } else if a == n.key {
        best := Better(best, sum + n.right.info.summand + n.right.info.partial);
        return;
      } else {
        n, s := n.right, s.right;
      }
    }
    best := Better(best, sum + n.info.summand + n.info.partial);
  }

  method RightScan(root: Node<Info>, b: int, sum0: int, best0: Option<int>, ghost t: T) returns (best: Option<int>)
    requires t.node == root && Holds(t) && Tight(t) && MinKey(t) < b
    ensures best == Better(best0, sum0 + RightMax(t, b))
  {
    var n, sum := root, sum0;
    ghost var s := t;
    best := best0;
    while n.right != null
      invariant s.node == n && Holds(s) && Tight(s) && MinKey(s) < b
      invariant Better(best, sum + RightMax(s, b)) == Better(best0, sum0 + RightMax(t, b))
      decreases s
    {
      sum := sum + n.info.summand;
      if n.key < b {
        best := Better(best, sum + n.left.info.summand + n.left.info.partial);
        n, s := n.right, s.right;
      } else if n.key == b {
        best := Better(best, sum + n.left.info.summand + n.left.info.partial);
        return;
      } else {
        n, s := n.left, s.left;
      }
    }
    if n.key < b {
      best := Better(best, sum + n.info.summand + n.info.partial);
    }
  }

  /** The query: the descent to the node where the paths of a and b part, then both paths. */
  method MaxValue(root: Node<Info>, a: int, b: int, ghost t: T) returns (m: int)
    requires t.node == root && Holds(t) && Tight(t) && a < b
    ensures m == MaxIn(t, a, b)
  {
    var n, sum := root, 0;
    ghost var s := t;
    while n.right != null
      invariant s.node == n && Holds(s) && Tight(s)
      invariant MaxIn(t, a, b) == sum + MaxIn(s, a, b)
      decreases s
    {
      sum := sum + n.info.summand;
      if b < n.key {
        n, s := n.left, s.left;
      } else if n.key < a {
        n, s := n.right, s.right;
      } else {
        var best := None;
        assert Holds(s.right) && Tight(s.right) && MinKey(s.right) == s.key;
        Allocated(s.right);
        if a < n.key { best := LeftScan(n.left, a, sum, best, s.left); }
        if n.key < b { best := RightScan(n.right, b, sum, best, s.right); }
        return best.value;
      }
    }
    m := sum + n.info.summand + n.info.partial;
  }

  // ---- Inserting a key.

  predicate PathBalanced(p: Path<Info>, h: int) {
    p.Top? || (Balanced(p.other) && Level(p.info.height, h, p.other.info.height) && PathBalanced(p.up, p.info.height))
  }

  /** The partials along the path are right for a subtree of this peak in the hole. */
  predicate PathMaxed(p: Path<Info>, peak: int) {
    p.Top? || (&& Maxed(p.other) && p.info.partial == Max(peak, Peak(p.other))
               && PathMaxed(p.up, p.info.summand + p.info.partial))
  }

  /** The separators along the path are right for a subtree of this smallest key in the hole. */
  predicate PathTight(p: Path<Info>, min: int) {
    match p
    case Top => true
    case WentLeft(up, _, k, _, o) => Tight(o) && MinKey(o) == k && PathTight(up, min)
    case WentRight(up, _, k, _, o) => Tight(o) && min == k && PathTight(up, MinKey(o))
  }

  lemma {:induction false} PlugBalanced(p: Path<Info>, t: T)
    ensures Balanced(Plug(p, t)) <==> Balanced(t) && PathBalanced(p, t.info.height)
  {
    if !p.Top? { PlugBalanced(p.up, Parent(p, t)); }
  }

  lemma {:induction false} PlugMaxed(p: Path<Info>, t: T)
    ensures Maxed(Plug(p, t)) <==> Maxed(t) && PathMaxed(p, Peak(t))
  {
    if !p.Top? { PlugMaxed(p.up, Parent(p, t)); }
  }

  lemma {:induction false} PlugTight(p: Path<Info>, t: T)
    ensures Tight(Plug(p, t)) <==> Tight(t) && PathTight(p, MinKey(t))
  {
    if !p.Top? { PlugTight(p.up, Parent(p, t)); }
  }

  /** A value of the whole tree, where the subtree matters and where it does not. */
  lemma {:induction false} PlugValue(p: Path<Info>, t: T, u: T, x: int)
    ensures Value(Plug(p, u), x) - Value(Plug(p, t), x) == if OnPath(p, x) then Value(u, x) - Value(t, x) else 0
  {
    if !p.Top? { PlugValue(p.up, Parent(p, t), Parent(p, u), x); }
  }

  /** Ordered, with right partials and separators. */
  predicate Sound(t: T) {
    Ordered(t) && Maxed(t) && Tight(t)
  }

  lemma {:induction false} PlugSameTree(p: Path<Info>, t: T, u: T)
    requires Sound(Plug(p, t)) && SameTree(t, u, Lo(p), Hi(p))
    ensures SameTree(Plug(p, t), Plug(p, u), None, None)
  {
    if !p.Top? {
      var v := Parent(p, t);
      PlugInRange(p.up, v);
      PlugMaxed(p.up, v);
      PlugTight(p.up, v);
      if p.WentLeft? { SameLeft(v, u, Lo(p.up), Hi(p.up)); } else { SameRight(v, u, Lo(p.up), Hi(p.up)); }
      PlugSameTree(p.up, v, Parent(p, u));
    }
  }

  /** One turn of the rebalancing loop of insert. */
  method Turn(n: Node<Info>, ghost p: Path<Info>, ghost t: T, ghost h: int) returns (ghost u: T)
    requires At(p, t) && !p.Top? && p.node == n && Sound(Plug(p, t))
    requires Balanced(t) && PathBalanced(p, h) && -1 <= t.info.height - h <= 1
    modifies PathNodes(p) + Nodes(t)
    ensures At(p.up, u) && u.node == n && PathNodes(p.up) + Nodes(u) == PathNodes(p) + Nodes(t)
    ensures SameTree(Plug(p, t), Plug(p.up, u), None, None)
    ensures Balanced(u) && -1 <= u.info.height - p.info.height <= 1
  {
    StepUp(p, t);
    ghost var v := Parent(p, t);
    PlugInRange(p.up, v);
    PlugMaxed(p.up, v);
    PlugTight(p.up, v);
    PathAllocated(p.up);
    u := FixNode(n, v, Lo(p.up), Hi(p.up));
    PlugSameTree(p.up, v, u);
  }

  method Rebalance(path: seq<Node<Info>>, ghost p0: Path<Info>, ghost t0: T, ghost h0: int) returns (ghost t': T)
    requires At(p0, t0) && path == Stack(p0) && Sound(Plug(p0, t0))
    requires Balanced(t0) && PathBalanced(p0, h0) && -1 <= t0.info.height - h0 <= 1
    modifies PathNodes(p0) + Nodes(t0)
    ensures At(Top, t') && Nodes(t') == PathNodes(p0) + Nodes(t0)
    ensures Balanced(t') && SameTree(Plug(p0, t0), t', None, None)
  {
    var stack, finished := path, false;
    ghost var p, t, h := p0, t0, h0;
    while |stack| > 0 && !finished
      invariant At(p, t) && stack == Stack(p) && PathNodes(p) + Nodes(t) == PathNodes(p0) + Nodes(t0)
      invariant SameTree(Plug(p0, t0), Plug(p, t), None, None)
      invariant Balanced(t) && PathBalanced(p, h) && -1 <= t.info.height - h <= 1 && (finished ==> t.info.height == h)
      decreases |stack|
    {
      var n := stack[|stack| - 1];
      stack := stack[..|stack| - 1];
      var oldHeight := n.info.height;
      ghost var u := Turn(n, p, t, h);
      SameTreeTransitive(Plug(p0, t0), Plug(p, t), Plug(p.up, u), None, None);
      p, t, h := p.up, u, p.info.height;
      if n.info.height == oldHeight { finished := true; }
    }
    PlugHolds(p, t);
    PlugBalanced(p, t);
    t' := Plug(p, t);
  }

  /** A smaller key comes in on the path of the smallest one. */
  lemma {:induction false} LowerMin(p: Path<Info>, min: int, key: int)
    requires PathTight(p, min) && OnPath(p, key) && key < min
    ensures PathTight(p, key)
  {
    if !p.Top? { LowerMin(p.up, min, key); }
  }

  lemma {:induction false} PlugMinKey(p: Path<Info>, t: T, u: T)
    requires MinKey(u) <= MinKey(t)
    ensures MinKey(Plug(p, u)) <= MinKey(Plug(p, t))
  {
    if !p.Top? { PlugMinKey(p.up, Parent(p, t), Parent(p, u)); }
  }

  /** Splitting a leaf into two with the old leaf's value changes no value. */
  lemma SplitSame(t: T, u: T, key: int)
    requires t.Leaf? && u.Fork? && u.left.Leaf? && u.right.Leaf?
    requires u.info == t.info.(height := 1) && u.left.info == u.right.info == Info(0, 0, t.info.partial)
    requires u.key == u.right.key && u.left.key == if t.key < key then t.key else key
    ensures Maxed(u) && Tight(u) && Peak(u) == Peak(t) && MinKey(u) == (if t.key < key then t.key else key)
    ensures forall x :: Value(u, x) == Value(t, x)
  {
  }

  lemma PlugValues(p: Path<Info>, t: T, u: T)
    requires SameValues(t, u)
    ensures SameValues(Plug(p, t), Plug(p, u))
  {
    forall x ensures Value(Plug(p, t), x) == Value(Plug(p, u), x) { PlugValue(p, t, u, x); }
  }

  lemma SplitSound(p: Path<Info>, t: T, u: T, key: int)
    requires Maxed(Plug(p, t)) && Tight(Plug(p, t)) && t.Leaf? && OnPath(p, key)
    requires Maxed(u) && Tight(u) && Peak(u) == Peak(t) && MinKey(u) == (if t.key < key then t.key else key)
    ensures Maxed(Plug(p, u)) && Tight(Plug(p, u))
    ensures MinKey(Plug(p, u)) <= MinKey(Plug(p, t))
  {
    PlugMaxed(p, t);
    PlugMaxed(p, u);
    PlugTight(p, t);
    PlugTight(p, u);
    if key < t.key { LowerMin(p, t.key, key); }
    PlugMinKey(p, t, u);
  }

  method InsertInto(root: Node<Info>, key: int, obj: int, ghost t: T) returns (r: int, ghost t': T)
    requires t.node == root && At(Top, t) && Sound(t) && Balanced(t)
    modifies Nodes(t)
    ensures t'.node == root && At(Top, t') && Sound(t') && Balanced(t')
    ensures forall o :: o in Nodes(t') && o !in Nodes(t) ==> fresh(o)
    ensures r == if Lookup(t, key).Some? then -1 else 0
    ensures forall q :: Lookup(t', q) == if q == key && r == 0 then Some(obj) else Lookup(t, q)
    ensures SameValues(t, t') && MinKey(t') <= MinKey(t)
  {
    var n, path; ghost var p, s;
    n, path, p, s := Descend(root, key, t);
    PlugLookup(p, s, s, key);
    PlugHolds(p, s);
    if n.key == key { return -1, t; }
    PlugBalanced(p, s);
    ghost var v := SplitLeaf(n, key, obj, Info(0, 0, n.info.partial), n.info.(height := 1), p, s);
    SplitSame(s, v, key);
    SplitSound(p, s, v, key);
    PlugValues(p, s, v);
    PlugHolds(p, v);
    t' := Rebalance(path, p, v, 0);
    r := 0;
  }

  // ---- Adding a weight from a key on.

  /** Equal but for summands and partials. */
  predicate Shaped(t: T, u: T) {
    && u.node == t.node && u.key == t.key && u.info.height == t.info.height
    && (if t.Leaf? then u.Leaf? && u.obj == t.obj
        else u.Fork? && Shaped(t.left, u.left) && Shaped(t.right, u.right))
  }

  lemma {:induction false} ShapedReflexive(t: T)
    ensures Shaped(t, t)
  {
    if t.Fork? {
      ShapedReflexive(t.left);
      ShapedReflexive(t.right);
    }
  }

  lemma {:induction false} ShapedTransitive(t: T, u: T, v: T)
    requires Shaped(t, u) && Shaped(u, v)
    ensures Shaped(t, v)
  {
    if t.Fork? {
      ShapedTransitive(t.left, u.left, v.left);
      ShapedTransitive(t.right, u.right, v.right);
    }
  }

  lemma {:induction false} PlugShaped(p: Path<Info>, t: T, u: T)
    requires Shaped(t, u)
    ensures Shaped(Plug(p, t), Plug(p, u))
  {
    if !p.Top? {
      ShapedReflexive(p.other);
      PlugShaped(p.up, Parent(p, t), Parent(p, u));
    }
  }

  lemma {:induction false} ShapedTight(t: T, u: T)
    requires Shaped(t, u)
    ensures MinKey(t) == MinKey(u) && (Tight(t) <==> Tight(u)) && (Balanced(t) <==> Balanced(u))
  {
    if t.Fork? {
      ShapedTight(t.left, u.left);
      ShapedTight(t.right, u.right);
    }
  }

  lemma {:induction false} ShapedInRange(t: T, u: T, lo: Option<int>, hi: Option<int>)
    requires Shaped(t, u)
    ensures InRange(t, lo, hi) <==> InRange(u, lo, hi)
  {
    if t.Fork? {
      ShapedInRange(t.left, u.left, lo, Some(t.key));
      ShapedInRange(t.right, u.right, Some(t.key), hi);
    }
  }

  lemma {:induction false} ShapedLookup(t: T, u: T, q: int)
    requires Shaped(t, u)
    ensures Lookup(t, q) == Lookup(u, q)
  {
    if t.Fork? {
      ShapedLookup(t.left, u.left, q);
      ShapedLookup(t.right, u.right, q);
    }
  }

  predicate OthersMaxed(p: Path<Info>) {
    p.Top? || (Maxed(p.other) && OthersMaxed(p.up))
  }

  lemma {:induction false} PathMaxedOthers(p: Path<Info>, peak: int)
    requires PathMaxed(p, peak)
    ensures OthersMaxed(p)
  {
    if !p.Top? { PathMaxedOthers(p.up, p.info.summand + p.info.partial); }
  }

  /** The way down so far has added w at the points from a on that are off the path. */
  ghost predicate AddedOff(t: T, u: T, p: Path<Info>, a: int, w: int) {
    forall x :: Value(u, x) == Value(t, x) + if !OnPath(p, x) && x >= a then w else 0
  }

  lemma AddLeft(t: T, p: Path<Info>, s: T, a: int, w: int)
    requires s.Fork? && a < s.key && Shaped(t, Plug(p, s)) && AddedOff(t, Plug(p, s), p, a, w)
    ensures var r := Raised(s.right, w); var p' := WentLeft(p, s.node, s.key, s.info, r);
      Shaped(t, Plug(p', s.left)) && AddedOff(t, Plug(p', s.left), p', a, w)
  {
    var r := Raised(s.right, w);
    var p' := WentLeft(p, s.node, s.key, s.info, r);
    var v := WithRight(s, r);
    ShapedReflexive(s);
    PlugShaped(p, s, v);
    ShapedTransitive(t, Plug(p, s), Plug(p, v));
    RaisedFacts(s.right, w, None, None);
    forall x ensures Value(Plug(p, v), x) == Value(t, x) + if !OnPath(p', x) && x >= a then w else 0 {
      PlugValue(p, s, v, x);
    }
  }

  lemma AddRight(t: T, p: Path<Info>, s: T, a: int, w: int)
    requires s.Fork? && a >= s.key && AddedOff(t, Plug(p, s), p, a, w)
    ensures var p' := WentRight(p, s.node, s.key, s.info, s.left);
      Plug(p', s.right) == Plug(p, s) && AddedOff(t, Plug(p, s), p', a, w)
  {
  }

  method RaiseRight(n: Node<Info>, w: int, ghost p: Path<Info>, ghost s: T)
    requires At(p, s) && s.Fork? && s.node == n
    modifies s.right.node
    ensures At(p, WithRight(s, Raised(s.right, w))) && Nodes(WithRight(s, Raised(s.right, w))) == Nodes(s)
  {
    assert Holds(s.left) && Holds(s.right);
    Allocated(s.left);
    PathAllocated(p);
    RaiseNode(n.right, w, s.right);
  }

  /** A walk goes one step down. */
  lemma StepLeft(p: Path<Info>, s: T)
    requires At(p, s) && s.Fork?
    ensures var p' := WentLeft(p, s.node, s.key, s.info, s.right);
      At(p', s.left) && PathNodes(p') + Nodes(s.left) == PathNodes(p) + Nodes(s)
  {
  }

  lemma StepRight(p: Path<Info>, s: T)
    requires At(p, s) && s.Fork?
    ensures var p' := WentRight(p, s.node, s.key, s.info, s.left);
      At(p', s.right) && PathNodes(p') + Nodes(s.right) == PathNodes(p) + Nodes(s)
  {
  }

  /** The way down: everything right of the search path of a is raised. */
  method AddDown(root: Node<Info>, a: int, w: int, ghost t: T)
    returns (n: Node<Info>, stack: seq<Node<Info>>, ghost p: Path<Info>, ghost s: T)
    requires t.node == root && At(Top, t) && Maxed(t)
    modifies Nodes(t)
    ensures At(p, s) && s.Leaf? && s.node == n && stack == Stack(p) && PathNodes(p) + Nodes(s) == Nodes(t)
    ensures OnPath(p, a) && OthersMaxed(p) && Shaped(t, Plug(p, s)) && AddedOff(t, Plug(p, s), p, a, w)
  {
    n, stack, p, s := root, [], Top, t;
    ShapedReflexive(t);
    while n.right != null
      invariant At(p, s) && s.node == n && stack == Stack(p) && PathNodes(p) + Nodes(s) == Nodes(t)
      invariant OnPath(p, a) && OthersMaxed(p) && Maxed(s) && Shaped(t, Plug(p, s)) && AddedOff(t, Plug(p, s), p, a, w)
      decreases s
    {
      stack := stack + [n];
      if a < n.key {
        AddLeft(t, p, s, a, w);
        RaiseRight(n, w, p, s);
        StepLeft(p, WithRight(s, Raised(s.right, w)));
        n := n.left;
        p, s := WentLeft(p, s.node, s.key, s.info, Raised(s.right, w)), s.left;
      } else {
        AddRight(t, p, s, a, w);
        StepRight(p, s);
        n := n.right;
        p, s := WentRight(p, s.node, s.key, s.info, s.left), s.right;
      }
    }
  }

  /** A node's partial put right. */
  function Recomputed(t: T): T
    requires t.Fork?
  {
    WithInfo(t, t.info.(partial := Max(Peak(t.left), Peak(t.right))))
  }

  lemma RecomputedSame(p: Path<Info>, t: T)
    requires t.Fork? && Maxed(t.left) && Maxed(t.right)
    ensures Maxed(Recomputed(t)) && Shaped(Plug(p, t), Plug(p, Recomputed(t)))
    ensures SameValues(Plug(p, t), Plug(p, Recomputed(t)))
  {
    ShapedReflexive(t);
    PlugShaped(p, t, Recomputed(t));
    PlugValues(p, t, Recomputed(t));
  }

  method Recompute(n: Node<Info>, ghost p: Path<Info>, ghost t: T)
    requires At(p, t) && !p.Top? && p.node == n
    modifies n
    ensures At(p.up, Recomputed(Parent(p, t)))
    ensures PathNodes(p.up) + Nodes(Recomputed(Parent(p, t))) == PathNodes(p) + Nodes(t)
  {
    StepUp(p, t);
    ghost var v := Parent(p, t);
    assert Holds(v.left) && Holds(v.right);
    var sumL := n.left.info.summand + n.left.info.partial;
    var sumR := n.right.info.summand + n.right.info.partial;
    SetInfo(n, n.info.(partial := if sumL > sumR then sumL else sumR), p.up, v);
  }

  /** The way back up: the partials along the path are put right. */
  method FixPartials(path: seq<Node<Info>>, ghost p0: Path<Info>, ghost t0: T) returns (ghost t': T)
    requires At(p0, t0) && path == Stack(p0) && OthersMaxed(p0) && Maxed(t0)
    modifies PathNodes(p0)
    ensures At(Top, t') && Nodes(t') == PathNodes(p0) + Nodes(t0) && Maxed(t')
    ensures Shaped(Plug(p0, t0), t') && SameValues(Plug(p0, t0), t')
  {
    var stack := path;
    ghost var p, t := p0, t0;
    ShapedReflexive(Plug(p, t));
    while |stack| > 0
      invariant At(p, t) && stack == Stack(p) && OthersMaxed(p) && Maxed(t) && PathNodes(p) <= PathNodes(p0)
      invariant PathNodes(p) + Nodes(t) == PathNodes(p0) + Nodes(t0)
      invariant Shaped(Plug(p0, t0), Plug(p, t)) && SameValues(Plug(p0, t0), Plug(p, t))
      decreases |stack|
    {
      var n := stack[|stack| - 1];
      stack := stack[..|stack| - 1];
      ghost var v := Parent(p, t);
      RecomputedSame(p.up, v);
      ShapedTransitive(Plug(p0, t0), Plug(p, t), Plug(p.up, Recomputed(v)));
      Recompute(n, p, t);
      p, t := p.up, Recomputed(v);
    }
    t' := t;
  }

  /** A point on the path to the leaf of the smallest key min is below all keys, or from min on. */
  lemma {:induction false} PathMin(p: Path<Info>, t: T, x: int)
    requires PathTight(p, MinKey(t)) && OnPath(p, x) && x < MinKey(t)
    ensures x < MinKey(Plug(p, t))
  {
    if !p.Top? { PathMin(p.up, Parent(p, t), x); }
  }

  /** Raising the leaf of a completes the addition, at all points that some key covers. */
  lemma AddAtLeaf(t: T, p: Path<Info>, s: T, a: int, w: int)
    requires Tight(t) && s.Leaf? && s.key == a && Shaped(t, Plug(p, s)) && AddedOff(t, Plug(p, s), p, a, w)
    ensures Shaped(t, Plug(p, Raised(s, w)))
    ensures forall x :: MinKey(t) <= x ==> Value(Plug(p, Raised(s, w)), x) == Value(t, x) + if x >= a then w else 0
  {
    var u := Raised(s, w);
    PlugShaped(p, s, u);
    ShapedTransitive(t, Plug(p, s), Plug(p, u));
    ShapedTight(t, Plug(p, s));
    PlugTight(p, s);
    forall x | MinKey(t) <= x ensures Value(Plug(p, u), x) == Value(t, x) + if x >= a then w else 0 {
      PlugValue(p, s, u, x);
      if OnPath(p, x) && x < a { PathMin(p, s, x); }
    }
  }

  /** The search of a key of t ends in its leaf. */
  lemma LeafFound(t: T, p: Path<Info>, s: T, a: int)
    requires Lookup(t, a).Some? && Shaped(t, Plug(p, s)) && OnPath(p, a) && s.Leaf?
    ensures s.key == a
  {
    ShapedLookup(t, Plug(p, s), a);
    PlugLookup(p, s, s, a);
  }

  /** Either half of insert_interval: adds w at all points from the key a on. */
  method AddFrom(root: Node<Info>, a: int, w: int, ghost t: T) returns (ghost t': T)
    requires t.node == root && At(Top, t) && Sound(t) && Balanced(t) && Lookup(t, a).Some?
    modifies Nodes(t)
    ensures t'.node == root && At(Top, t') && Nodes(t') == Nodes(t) && Sound(t') && Balanced(t')
    ensures SameLookups(t, t') && MinKey(t') == MinKey(t)
    ensures forall x :: MinKey(t) <= x ==> Value(t', x) == Value(t, x) + if x >= a then w else 0
  {
    var n, stack; ghost var p, s;
    n, stack, p, s := AddDown(root, a, w, t);
    LeafFound(t, p, s, a);
    AddAtLeaf(t, p, s, a, w);
    PathAllocated(p);
    RaiseNode(n, w, s);
    t' := FixPartials(stack, p, Raised(s, w));
    ShapedTransitive(t, Plug(p, Raised(s, w)), t');
    ShapedTight(t, t');
    ShapedInRange(t, t', None, None);
    forall q ensures Lookup(t, q) == Lookup(t', q) { ShapedLookup(t, t', q); }
  }

  // ---- The tree.

  datatype Interval = Interval(a: int, b: int, weight: int)

  /** What an interval adds at x: its weight if it covers x. Ends given the wrong way round take it off. */
  function Weight(i: Interval, x: int): int {
    if i.a <= x < i.b then i.weight else if i.b <= x < i.a then -i.weight else 0
  }

  function Total(s: seq<Interval>, x: int): int {
    if s == [] then 0 else Total(s[..|s| - 1], x) + Weight(s[|s| - 1], x)
  }

  /** The part of insert_interval that follows the insertion of the keys a and b. */
  method AddInterval(root: Node<Info>, a: int, b: int, w: int, ghost t: T) returns (ghost t': T)
    requires Intact(root, t) && Lookup(t, a).Some? && Lookup(t, b).Some?
    modifies Nodes(t)
    ensures Intact(root, t') && Nodes(t') == Nodes(t) && MinKey(t') == MinKey(t)
    ensures forall x :: MinKey(t) <= x ==> Value(t', x) == Value(t, x) + Weight(Interval(a, b, w), x)
  {
    ghost var u := AddFrom(root, a, w, t);
    t' := AddFrom(root, b, -w, u);
    assert forall x :: MinKey(t) <= x ==> Value(t', x) == Value(u, x) + if x >= b then -w else 0;
  }

  /** A tree of the source: height-balanced and sound, with the heap holding it. */
  ghost predicate Intact(root: Node<Info>, t: T)
    reads Nodes(t)
  {
    t.node == root && At(Top, t) && Sound(t) && Balanced(t)
  }

  /** Makes key a key of the tree. */
  method EnsureKey(root: Node<Info>, key: int, ghost t: T) returns (ghost t': T)
    requires Intact(root, t)
    modifies Nodes(t)
    ensures Intact(root, t') && forall o :: o in Nodes(t') && o !in Nodes(t) ==> fresh(o)
    ensures Lookup(t', key).Some? && forall q :: Lookup(t, q).Some? ==> Lookup(t', q).Some?
    ensures SameValues(t, t') && MinKey(t') <= MinKey(t)
  {
    Allocated(t);
    var found := Find(root, key, t);
    t' := t;
    if found == None {
      var r;
      r, t' := InsertInto(root, key, 0, t);
    }
  }

  method InsertIntervalInto(root: Node<Info>, a: int, b: int, w: int, ghost t: T) returns (ghost t': T)
    requires Intact(root, t)
    modifies Nodes(t)
    ensures Intact(root, t') && forall o :: o in Nodes(t') && o !in Nodes(t) ==> fresh(o)
    ensures MinKey(t') <= MinKey(t)
    ensures forall x :: MinKey(t) <= x ==> Value(t', x) == Value(t, x) + Weight(Interval(a, b, w), x)
  {
    ghost var u := EnsureKey(root, a, t);
    ghost var v := EnsureKey(root, b, u);
    t' := AddInterval(root, a, b, w, v);
    forall x | MinKey(t) <= x ensures Value(t', x) == Value(t, x) + Weight(Interval(a, b, w), x) {
      assert Value(t, x) == Value(u, x) && Value(u, x) == Value(v, x);
    }
  }

  lemma TotalAppend(s: seq<Interval>, i: Interval, x: int)
    ensures Total(s + [i], x) == Total(s, x) + Weight(i, x)
  {
    assert (s + [i])[..|s|] == s;
  }

  class IntervalTree {
    const root: Node<Info>
    ghost var shape: T
    ghost var intervals: seq<Interval>

    ghost function Repr(): set<object>
      reads this
    {
      {this} + Nodes(shape)
    }

    ghost predicate Valid()
      reads this, Repr()
    {
      && Intact(root, shape) && MinKey(shape) <= NEGINFTY && forall x :: NEGINFTY <= x ==>
        Value(shape, x) == Total(intervals, x)
    }

    constructor ()
      ensures Valid() && fresh(Repr()) && intervals == [] && forall x :: Total(intervals, x) == 0
    {
      var n := new Node(NEGINFTY, Some(0), Info(0, 0, 0));
      root := n;
      shape := Leaf(n, NEGINFTY, 0, Info(0, 0, 0));
      intervals := [];
    }

    method InsertInterval(a: int, b: int, w: int)
      requires Valid()
      modifies Repr()
      ensures Valid() && (forall o :: o in Repr() && o !in old(Repr()) ==> fresh(o))
      ensures intervals == old(intervals) + [Interval(a, b, w)]
      ensures forall x ::
        Total(intervals, x) == Total(old(intervals), x) + if a <= x < b then w else if b <= x < a then -w else 0
    {
      ghost var t' := InsertIntervalInto(root, a, b, w, shape);
      forall x ensures Total(intervals + [Interval(a, b, w)], x) == Total(intervals, x) + Weight(Interval(a, b, w), x) {
        TotalAppend(intervals, Interval(a, b, w), x);
      }
      shape := t';
      intervals := intervals + [Interval(a, b, w)];
    }

    /** The maximum over [a, b) of the total weight of the intervals covering a point. */
    method MaxValueInterval(a: int, b: int) returns (m: int)
      requires Valid() && NEGINFTY <= a < b
      ensures forall x :: a <= x < b ==> Total(intervals, x) <= m
      ensures exists x :: a <= x < b && Total(intervals, x) == m
    {
      m := MaxValue(root, a, b, shape);
      ghost var x := MaxInReached(shape, a, b, None, None);
      assert Total(intervals, x) == m;
      forall y | a <= y < b ensures Total(intervals, y) <= m { MaxInBounds(shape, a, b, y); }
    }
  }
}
