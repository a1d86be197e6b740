/** The construction of the range tree in ch4/or_r_tree.c: a search tree over one coordinate, in
    which each node carries a range tree, of the coordinates below, for the points of its
    subtree. */
module RangeTree {
  import opened Prelude
  import opened LeafTree
  import opened ListTree
  import opened PointSort

  /** The field l_dim_tree: first the list of points that came through a node, then their tree. */
  datatype Lower = Nothing | List(points: seq<Point>) | Root(node: Node<Info>)

  /** The points of a leaf, which the C code keeps in its left field, and the lower tree. */
  datatype Info = Info(points: seq<Point>, lower: Lower)

  type T = Tree<Info>

  /** A tree with the lower trees of its nodes. */
  datatype Range = Range(tree: T, subs: map<Node<Info>, Range>)

  // ---- What a range tree is.

  /** The points on one side of k. */
  function Part(pts: seq<Point>, dim: nat, k: int, low: bool): seq<Point> {
    if pts == [] then []
    else if (pts[0].at(dim) < k) == low then [pts[0]] + Part(pts[1..], dim, k, low)
    else Part(pts[1..], dim, k, low)
  }

  lemma {:induction false} PartCount(pts: seq<Point>, dim: nat, k: int, low: bool, q: Point)
    ensures Count(Part(pts, dim, k, low), q) == if (q.at(dim) < k) == low then Count(pts, q) else 0
  {
    if pts != [] { PartCount(pts[1..], dim, k, low, q); }
  }

  lemma {:induction false} PartIn(pts: seq<Point>, dim: nat, k: int, low: bool)
    ensures forall p :: p in Part(pts, dim, k, low) <==> p in pts && (p.at(dim) < k) == low
  {
    if pts != [] { PartIn(pts[1..], dim, k, low); }
  }

  function TreePoints(t: T): seq<Point> {
    match t
    case Leaf(_, _, _, i) => i.points
    case Fork(_, _, _, l, r) => TreePoints(l) + TreePoints(r)
  }

  ghost predicate LeafKeyed(t: T) {
    match t
    case Leaf(_, k, _, i) => i.points != [] && forall p :: p in i.points ==> p.at(0) == k
    case Fork(_, _, _, l, r) => LeafKeyed(l) && LeafKeyed(r)
  }

  /** The keys of the leaves are the coordinates of the points that get there; on the left edge
      there is a further leaf, without points. */
  ghost predicate Exact(t: T, pts: seq<Point>, edge: bool, dim: nat) {
    match t
    case Leaf(_, k, _, _) =>
      if edge then pts == [] && k == NEGINFTY else pts != [] && forall p :: p in pts ==> p.at(dim) == k
    case Fork(_, k, _, l, r) =>
      MinKey(r) == k && Exact(l, Part(pts, dim, k, true), edge, dim) && Exact(r, Part(pts, dim, k, false), false, dim)
  }

  /** Every node that points get to has the range tree of these points. */
  ghost predicate Built(t: T, subs: map<Node<Info>, Range>, pts: seq<Point>, dim: nat)
    requires dim > 0
    decreases dim, 0, t
  {
    && (if pts == [] then t.info.lower == Nothing
        else t.node in subs && t.info.lower == Root(subs[t.node].tree.node) && IsRange(subs[t.node], pts, dim - 1))
    && (t.Fork? ==>
          && Built(t.left, subs, Part(pts, dim, t.key, true), dim)
          && Built(t.right, subs, Part(pts, dim, t.key, false), dim))
  }

  function Reverse(s: seq<Point>): seq<Point> {
    if s == [] then [] else Reverse(s[1..]) + [s[0]]
  }

  /** r is a range tree of the points in coordinates 0 to dim. */
  ghost predicate IsRange(r: Range, pts: seq<Point>, dim: nat)
    decreases dim, 1, r.tree
  {
    if dim == 0 then Ordered(r.tree) && LeafKeyed(r.tree) && forall q :: Count(TreePoints(r.tree), q) == Count(pts, q)
    else r.tree.Fork? && Exact(r.tree, Reverse(pts), true, dim) && Built(r.tree, r.subs, Reverse(pts), dim)
  }

  ghost function RangeNodes(r: Range, dim: nat): set<Node<Info>>
    decreases dim, 0
  {
    Nodes(r.tree) + if dim == 0 then {} else LowerNodes(r.subs, dim - 1)
  }

  ghost function LowerNodes(subs: map<Node<Info>, Range>, dim: nat): set<Node<Info>>
    decreases dim, 1
  {
    set n, o | n in subs && o in RangeNodes(subs[n], dim) :: o
  }

  /** The heap holds the tree and all lower trees. */
  ghost predicate RangeHolds(r: Range, dim: nat)
    reads RangeNodes(r, dim)
    decreases dim, 0
  {
    Holds(r.tree) && (dim > 0 ==> LowerHold(r.subs, dim - 1))
  }

  ghost predicate LowerHold(subs: map<Node<Info>, Range>, dim: nat)
    reads LowerNodes(subs, dim)
    decreases dim, 1
  {
    forall n :: n in subs ==> RangeHolds(subs[n], dim)
  }

  lemma {:induction false} RangeAllocated(r: Range, dim: nat)
    ensures forall o :: o in RangeNodes(r, dim) ==> allocated(o)
    decreases dim, 0
  {
    Allocated(r.tree);
    if dim > 0 { LowerAllocated(r.subs, dim - 1); }
  }

  lemma {:induction false} LowerAllocated(subs: map<Node<Info>, Range>, dim: nat)
    ensures forall o :: o in LowerNodes(subs, dim) ==> allocated(o)
    decreases dim, 1
  {
    forall n | n in subs
      ensures forall o :: o in RangeNodes(subs[n], dim) ==> allocated(o) { RangeAllocated(subs[n], dim); }
  }

  // ---- From the list of keys.

  function KeySetOf(ks: seq<Pair>): set<int> {
    set i | 0 <= i < |ks| :: ks[i].key
  }

  ghost function Coordinates(pts: seq<Point>, dim: nat): set<int> {
    set p | p in pts :: p.at(dim)
  }

  function OneSide(s: set<int>, k: int, low: bool): set<int> {
    set x | x in s && (x < k) == low
  }

  lemma KeysSplit(l: seq<Pair>, r: seq<Pair>, k: int)
    requires Sorted(l + r) && r != [] && r[0].key == k
    ensures Sorted(l) && Sorted(r)
    ensures KeySetOf(l) == OneSide(KeySetOf(l + r), k, true) && KeySetOf(r) == OneSide(KeySetOf(l + r), k, false)
  {
    SortedParts(l, r, None, None);
    var s := l + r;
    forall i | 0 <= i < |l| ensures l[i].key in KeySetOf(s) && l[i].key < k { assert s[i] == l[i]; }
    forall i | 0 <= i < |r| ensures r[i].key in KeySetOf(s) && r[i].key >= k { assert s[|l| + i] == r[i]; }
    forall i | 0 <= i < |s| ensures s[i].key in KeySetOf(l) || s[i].key in KeySetOf(r) {
      if i < |l| { assert s[i] == l[i]; } else { assert s[i] == r[i - |l|]; }
    }
  }

  lemma CoordinatesSplit(pts: seq<Point>, dim: nat, k: int, low: bool)
    ensures Coordinates(Part(pts, dim, k, low), dim) == OneSide(Coordinates(pts, dim), k, low)
  {
    PartIn(pts, dim, k, low);
  }

  lemma NoCoordinates(pts: seq<Point>, dim: nat)
    ensures Coordinates(pts, dim) == {} <==> pts == []
  {
    if pts != [] { assert pts[0].at(dim) in Coordinates(pts, dim); }
  }

  /** A tree over the sorted coordinates of the points. */
  lemma {:induction false} ExactFrom(t: T, pts: seq<Point>, dim: nat)
    requires Tight(t) && Sorted(Leaves(t)) && KeySetOf(Leaves(t)) == Coordinates(pts, dim)
    ensures Exact(t, pts, false, dim)
  {
    match t
    case Leaf(_, k, _, _) =>
      assert Leaves(t)[0].key == k;
      assert k in Coordinates(pts, dim);
      assert forall p :: p in pts ==> p.at(dim) in Coordinates(pts, dim);
    case Fork(_, k, _, l, r) =>
      LeavesNonempty(r);
      assert Leaves(t) == Leaves(l) + Leaves(r);
      KeysSplit(Leaves(l), Leaves(r), k);
      CoordinatesSplit(pts, dim, k, true);
      CoordinatesSplit(pts, dim, k, false);
      ExactFrom(l, Part(pts, dim, k, true), dim);
      ExactFrom(r, Part(pts, dim, k, false), dim);
  }

  /** The same with the further leaf in front. */
  lemma {:induction false} ExactEdge(t: T, pts: seq<Point>, dim: nat)
    requires Tight(t) && Leaves(t) != [] && Sorted(Leaves(t)[1..]) && KeySetOf(Leaves(t)[1..]) == Coordinates(pts, dim)
    requires MinKey(t) == NEGINFTY
    ensures Exact(t, pts, true, dim)
  {
    match t
    case Leaf(_, k, _, _) =>
      NoCoordinates(pts, dim);
    case Fork(_, k, _, l, r) =>
      LeavesNonempty(l);
      LeavesNonempty(r);
      assert Leaves(t)[1..] == Leaves(l)[1..] + Leaves(r);
      KeysSplit(Leaves(l)[1..], Leaves(r), k);
      CoordinatesSplit(pts, dim, k, true);
      CoordinatesSplit(pts, dim, k, false);
      ExactEdge(l, Part(pts, dim, k, true), dim);
      ExactFrom(r, Part(pts, dim, k, false), dim);
  }

  // ---- Passes over all nodes.

  ghost function Subtrees(t: T): set<T> {
    match t
    case Leaf(_, _, _, _) => {t}
    case Fork(_, _, _, l, r) => {t} + Subtrees(l) + Subtrees(r)
  }

  /** The node of s is laid out as s says, with the information given. */
  ghost predicate Here(s: T, info: Info)
    reads s.node
  {
    && s.node.key == s.key && s.node.info == info
    && (if s.Leaf? then s.node.obj == Some(s.obj) && s.node.left == null && s.node.right == null
        else s.node.left == s.left.node && s.node.right == s.right.node)
  }

  lemma {:induction false} HoldsHere(t: T)
    requires Holds(t)
    ensures forall s :: s in Subtrees(t) ==> Here(s, s.info)
  {
    if t.Fork? {
      HoldsHere(t.left);
      HoldsHere(t.right);
    }
  }

  lemma {:induction false} SubtreeNodes(t: T)
    ensures t in Subtrees(t) && forall s :: s in Subtrees(t) ==> s.node in Nodes(t) && allocated(s)
    ensures forall s :: s in Subtrees(t) && s.Fork? ==> s.left in Subtrees(t) && s.right in Subtrees(t)
  {
    if t.Fork? {
      SubtreeNodes(t.left);
      SubtreeNodes(t.right);
    }
  }

  lemma {:induction false} OneSubtree(t: T, s: T, u: T)
    requires Distinct(t) && s in Subtrees(t) && u in Subtrees(t) && s.node == u.node
    ensures s == u
  {
    if t.Fork? {
      SubtreeNodes(t.left);
      SubtreeNodes(t.right);
      if s in Subtrees(t.left) && u in Subtrees(t.left) { OneSubtree(t.left, s, u); }
      if s in Subtrees(t.right) && u in Subtrees(t.right) { OneSubtree(t.right, s, u); }
    }
  }

  /** New information for the nodes. */
  function Relabelling(t: T, m: map<Node<Info>, Info>): T {
    var i := if t.node in m then m[t.node] else t.info;
    match t
    case Leaf(n, k, o, _) => Leaf(n, k, o, i)
    case Fork(n, k, _, l, r) => Fork(n, k, i, Relabelling(l, m), Relabelling(r, m))
  }

  lemma {:induction false} RelabellingSame(t: T, m: map<Node<Info>, Info>)
    ensures Leaves(Relabelling(t, m)) == Leaves(t) && (Tight(Relabelling(t, m)) <==> Tight(t))
    ensures MinKey(Relabelling(t, m)) == MinKey(t)
    ensures Nodes(Relabelling(t, m)) == Nodes(t) && (Distinct(Relabelling(t, m)) <==> Distinct(t))
  {
    if t.Fork? {
      RelabellingSame(t.left, m);
      RelabellingSame(t.right, m);
    }
  }

  lemma {:induction false} RelabellingHolds(t: T, m: map<Node<Info>, Info>)
    requires forall s :: s in Subtrees(t) ==> s.node in m && Here(s, m[s.node])
    ensures Holds(Relabelling(t, m))
  {
    SubtreeNodes(t);
    if t.Fork? {
      RelabellingHolds(t.left, m);
      RelabellingHolds(t.right, m);
    }
  }

  /** The subtrees whose turn is still to come, for the stack of a pass. */
  ghost function Todo(pend: seq<T>): set<T> {
    if pend == [] then {} else Todo(pend[..|pend| - 1]) + Subtrees(pend[|pend| - 1])
  }

  ghost predicate Apart(pend: seq<T>) {
    pend == [] || (Apart(pend[..|pend| - 1]) && Todo(pend[..|pend| - 1]) !! Subtrees(pend[|pend| - 1]) &&
      Distinct(pend[|pend| - 1]))
  }

  function StackNodes(pend: seq<T>): seq<Node<Info>> {
    if pend == [] then [] else StackNodes(pend[..|pend| - 1]) + [pend[|pend| - 1].node]
  }

  lemma Pushed(rest: seq<T>, c: T)
    ensures Todo(rest + [c]) == Todo(rest) + Subtrees(c) && StackNodes(rest + [c]) == StackNodes(rest) + [c.node]
    ensures Apart(rest + [c]) <==> Apart(rest) && Todo(rest) !! Subtrees(c) && Distinct(c)
  {
    assert (rest + [c])[..|rest|] == rest;
  }

  function Children(c: T): seq<T> {
    if c.Leaf? then [] else [c.left, c.right]
  }

  /** A node taken from the stack and its children put there. */
  lemma PopPush(rest: seq<T>, c: T)
    requires Apart(rest + [c])
    ensures Apart(rest + Children(c)) && Todo(rest + Children(c)) == Todo(rest + [c]) - {c} && c in Todo(rest + [c])
    ensures c.Fork? ==> StackNodes(rest + Children(c)) == StackNodes(rest) + [c.left.node, c.right.node]
    ensures StackNodes(rest + [c]) == StackNodes(rest) + [c.node] && (c.Leaf? ==> rest + Children(c) == rest)
  {
    Pushed(rest, c);
    SubtreeNodes(c);
    if c.Leaf? {
      assert rest + Children(c) == rest;
      assert Todo(rest) == Todo(rest) + {c} - {c};
    } else {
      BothPushed(rest, c);
      SubtreesSplit(c);
      SetsTaken(Todo(rest), c, Subtrees(c.left), Subtrees(c.right));
    }
  }

  lemma SetsTaken<X>(rest: set<X>, c: X, l: set<X>, r: set<X>)
    requires c !in rest && c !in l && c !in r
    ensures rest + l + r == rest + ({c} + l + r) - {c}
  {
  }

  lemma SubtreesSplit(c: T)
    requires c.Fork? && Distinct(c)
    ensures c !in Subtrees(c.left) && c !in Subtrees(c.right) && Subtrees(c.left) !! Subtrees(c.right)
  {
    SubtreeNodes(c.left);
    SubtreeNodes(c.right);
  }

  lemma BothPushed(rest: seq<T>, c: T)
    requires c.Fork? && Apart(rest) && Todo(rest) !! Subtrees(c) && Distinct(c)
    ensures Apart(rest + Children(c)) && Todo(rest + Children(c)) == Todo(rest) + Subtrees(c.left) + Subtrees(c.right)
    ensures StackNodes(rest + Children(c)) == StackNodes(rest) + [c.left.node, c.right.node]
  {
    var one := rest + [c.left];
    assert rest + Children(c) == one + [c.right];
    Pushed(rest, c.left);
    Pushed(one, c.right);
    SubtreesSplit(c);
    ApartPieces(Todo(rest), Subtrees(c), Subtrees(c.left), Subtrees(c.right));
  }

  lemma ApartPieces<X>(rest: set<X>, whole: set<X>, l: set<X>, r: set<X>)
    requires rest !! whole && l <= whole && r <= whole && l !! r
    ensures rest !! l && rest + l !! r
  {
  }
}
