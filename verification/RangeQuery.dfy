/** Queries of the range tree in ch4/or_r_tree.c: the points in a box that is closed below and open
    above in every coordinate. */
module RangeQuery {
  import opened Prelude
  import opened LeafTree
  import opened ListTree
  import opened PointSort
  import opened RangeTree
  import opened RangeBuild

  /** A corner of the box, by coordinate. */
  type Corner = nat -> int

  predicate InBox(q: Point, a: Corner, b: Corner, dim: nat) {
    a(dim) <= q.at(dim) < b(dim) && (dim > 0 ==> InBox(q, a, b, dim - 1))
  }

  lemma {:induction false} InBoxEverywhere(q: Point, a: Corner, b: Corner, dim: nat)
    ensures InBox(q, a, b, dim) <==> forall i: nat :: i <= dim ==> a(i) <= q.at(i) < b(i)
  {
    if dim > 0 { InBoxEverywhere(q, a, b, dim - 1); }
  }

  /** How often q is to be reported. */
  ghost function Wanted(pts: seq<Point>, q: Point, a: Corner, b: Corner, dim: nat): nat {
    if InBox(q, a, b, dim) then Count(pts, q) else 0
  }

  // ---- One coordinate.

  /** The points put in front of the result, one by one. */
  function PutAll(pts: seq<Point>, result: seq<Point>): seq<Point>
    decreases |pts|
  {
    if pts == [] then result else PutAll(pts[1..], [pts[0]] + result)
  }

  lemma {:induction false} PutAllCount(pts: seq<Point>, result: seq<Point>, q: Point)
    ensures Count(PutAll(pts, result), q) == Count(pts, q) + Count(result, q)
    decreases |pts|
  {
    if pts != [] {
      assert ([pts[0]] + result)[1..] == result;
      PutAllCount(pts[1..], [pts[0]] + result, q);
    }
  }

  /** What the walk over a subtree makes of the result. */
  function Collect(t: T, a: int, b: int, result: seq<Point>): seq<Point>
    decreases t
  {
    match t
    case Leaf(_, k, _, i) => if a <= k < b then PutAll(i.points, result) else result
    case Fork(_, k, _, l, r) =>
      if b <= k then Collect(l, a, b, result)
      else if k <= a then Collect(r, a, b, result)
      else Collect(l, a, b, Collect(r, a, b, result))
  }

  lemma {:induction false} PointsWithin(t: T, lo: Option<int>, hi: Option<int>, q: Point)
    requires InRange(t, lo, hi) && LeafKeyed(t) && q in TreePoints(t)
    ensures Below(lo, q.at(0)) && Above(q.at(0), hi)
  {
    if t.Fork? {
      RangeNonempty(t.left, lo, Some(t.key));
      RangeNonempty(t.right, Some(t.key), hi);
      if q in TreePoints(t.left) {
        PointsWithin(t.left, lo, Some(t.key), q);
      } else {
        PointsWithin(t.right, Some(t.key), hi, q);
      }
    }
  }

  /** The subtrees left out of the walk have no points between a and b. */
  lemma {:induction false} CollectCount(t: T, lo: Option<int>, hi: Option<int>, a: int, b: int, result: seq<Point>,
      q: Point)
    requires InRange(t, lo, hi) && LeafKeyed(t)
    ensures Count(Collect(t, a, b, result), q) == Count(result, q) +
      if a <= q.at(0) < b then Count(TreePoints(t), q) else 0
    decreases t
  {
    match t
    case Leaf(_, k, _, i) =>
      PutAllCount(i.points, result, q);
      CountIn(i.points, q);
    case Fork(_, k, _, l, r) =>
      CountConcat(TreePoints(l), TreePoints(r), q);
      CountIn(TreePoints(l), q);
      CountIn(TreePoints(r), q);
      if q in TreePoints(l) { PointsWithin(l, lo, Some(k), q); }
      if q in TreePoints(r) { PointsWithin(r, Some(k), hi, q); }
      if b <= k {
        CollectCount(l, lo, Some(k), a, b, result, q);
      } else if k <= a {
        CollectCount(r, Some(k), hi, a, b, result, q);
      } else {
        CollectCount(r, Some(k), hi, a, b, result, q);
        CollectCount(l, lo, Some(k), a, b, Collect(r, a, b, result), q);
      }
  }

  // ---- More coordinates.

  /** None: the program follows a null pointer or gives up. */
  type Answer = Option<seq<Point>>

  function Join(x: Answer, y: Answer): Answer {
    if x.Some? && y.Some? then Some(x.value + y.value) else None
  }

  /** The answer of the lower tree of a node. */
  function LowerAnswer(t: T, subs: map<Node<Info>, Range>, a: Corner, b: Corner, dim: nat): Answer
    requires dim > 0
    decreases dim, 0, t
  {
    if t.info.lower.Root? && t.node in subs then Query(subs[t.node], a, b, dim - 1) else None
  }

  /** Along the path of a. */
  function LeftPart(t: T, subs: map<Node<Info>, Range>, a: Corner, b: Corner, dim: nat): Answer
    requires dim > 0
    decreases dim, 1, t
  {
    match t
    case Leaf(_, k, _, _) => if k == a(dim) then LowerAnswer(t, subs, a, b, dim) else Some([])
    case Fork(_, k, _, l, r) =>
      if a(dim) < k then Join(LowerAnswer(r, subs, a, b, dim), LeftPart(l, subs, a, b, dim))
      else if a(dim) == k then LowerAnswer(r, subs, a, b, dim)
      else LeftPart(r, subs, a, b, dim)
  }

  /** Along the path of b. */
  function RightPart(t: T, subs: map<Node<Info>, Range>, a: Corner, b: Corner, dim: nat): Answer
    requires dim > 0
    decreases dim, 1, t
  {
    match t
    case Leaf(_, k, _, _) => if k < b(dim) then LowerAnswer(t, subs, a, b, dim) else Some([])
    case Fork(_, k, _, l, r) =>
      if k < b(dim) then Join(LowerAnswer(l, subs, a, b, dim), RightPart(r, subs, a, b, dim))
      else if k == b(dim) then LowerAnswer(l, subs, a, b, dim)
      else RightPart(l, subs, a, b, dim)
  }

  /** From the root to where the paths part, and both of them. */
  function Parting(t: T, subs: map<Node<Info>, Range>, a: Corner, b: Corner, dim: nat): Answer
    requires dim > 0
    decreases dim, 2, t
  {
    match t
    case Leaf(_, _, _, _) => Some([])
    case Fork(_, k, _, l, r) =>
      if b(dim) < k then Parting(l, subs, a, b, dim)
      else if k < a(dim) then Parting(r, subs, a, b, dim)
      else Join(if a(dim) < k then LeftPart(l, subs, a, b, dim) else Some([]),
                if a(dim) == k || k < b(dim) then RightPart(r, subs, a, b, dim) else Some([]))
  }

  function Query(r: Range, a: Corner, b: Corner, dim: nat): Answer
    decreases dim, 3, r.tree
  {
    if r.tree.Leaf? && r.tree.info.points == [] then None
    else if dim == 0 then Some(Collect(r.tree, a(0), b(0), []))
    else Parting(r.tree, r.subs, a, b, dim)
  }

  // ---- Every point in the box is found, as often as it was given, and no other.

  /** The two sides of a separator make up the points. */
  lemma Sides(pts: seq<Point>, dim: nat, k: int, q: Point)
    ensures Count(pts, q) == Count(Part(pts, dim, k, true), q) + Count(Part(pts, dim, k, false), q)
    ensures Count(Part(pts, dim, k, true), q) == if q.at(dim) < k then Count(pts, q) else 0
  {
    PartCount(pts, dim, k, true, q);
    PartCount(pts, dim, k, false, q);
  }

  lemma {:induction false} LowerCount(t: T, subs: map<Node<Info>, Range>, pts: seq<Point>, a: Corner, b: Corner,
      dim: nat, q: Point)
    requires dim > 0 && Built(t, subs, pts, dim) && (q in pts ==> a(dim) <= q.at(dim) < b(dim))
    ensures var r := LowerAnswer(t, subs, a, b, dim); r.Some? ==> Count(r.value, q) == Wanted(pts, q, a, b, dim)
    decreases dim, 0, t
  {
    CountIn(pts, q);
    if pts != [] { QueryCount(subs[t.node], pts, a, b, dim - 1, q); }
  }

  lemma {:induction false} LeftCount(t: T, subs: map<Node<Info>, Range>, pts: seq<Point>, edge: bool, a: Corner,
      b: Corner, dim: nat, q: Point)
    requires dim > 0 && Exact(t, pts, edge, dim) && Built(t, subs, pts, dim) && (edge || MinKey(t) < a(dim))
    requires q in pts ==> q.at(dim) < b(dim)
    ensures var r := LeftPart(t, subs, a, b, dim); r.Some? ==> Count(r.value, q) == Wanted(pts, q, a, b, dim)
    decreases dim, 1, t
  {
    CountIn(pts, q);
    match t
    case Leaf(_, _, _, _) =>
    case Fork(_, k, _, l, r) =>
      var low, high := Part(pts, dim, k, true), Part(pts, dim, k, false);
      PartIn(pts, dim, k, true);
      PartIn(pts, dim, k, false);
      Sides(pts, dim, k, q);
      if a(dim) <= k { LowerCount(r, subs, high, a, b, dim, q); }
      if a(dim) < k {
        LeftCount(l, subs, low, edge, a, b, dim, q);
        JoinCount(LowerAnswer(r, subs, a, b, dim), LeftPart(l, subs, a, b, dim), q);
      } else if a(dim) > k {
        LeftCount(r, subs, high, false, a, b, dim, q);
      }
  }

  lemma JoinCount(x: Answer, y: Answer, q: Point)
    ensures Join(x, y).Some? ==> Count(Join(x, y).value, q) == Count(x.value, q) + Count(y.value, q)
  {
    if Join(x, y).Some? { CountConcat(x.value, y.value, q); }
  }

  lemma {:induction false} RightCount(t: T, subs: map<Node<Info>, Range>, pts: seq<Point>, a: Corner, b: Corner,
      dim: nat, q: Point)
    requires dim > 0 && Exact(t, pts, false, dim) && Built(t, subs, pts, dim) && (q in pts ==> a(dim) <= q.at(dim))
    ensures var r := RightPart(t, subs, a, b, dim); r.Some? ==> Count(r.value, q) == Wanted(pts, q, a, b, dim)
    decreases dim, 1, t
  {
    CountIn(pts, q);
    match t
    case Leaf(_, k, _, _) =>
      if k < b(dim) { LowerCount(t, subs, pts, a, b, dim, q); }
    case Fork(_, k, _, l, r) =>
      var low, high := Part(pts, dim, k, true), Part(pts, dim, k, false);
      PartIn(pts, dim, k, true);
      PartIn(pts, dim, k, false);
      Sides(pts, dim, k, q);
      if k <= b(dim) { LowerCount(l, subs, low, a, b, dim, q); }
      if k < b(dim) {
        RightCount(r, subs, high, a, b, dim, q);
        JoinCount(LowerAnswer(l, subs, a, b, dim), RightPart(r, subs, a, b, dim), q);
      } else if k > b(dim) {
        RightCount(l, subs, low, a, b, dim, q);
      }
  }

  lemma {:induction false} PartingCount(t: T, subs: map<Node<Info>, Range>, pts: seq<Point>, edge: bool, a: Corner,
      b: Corner, dim: nat, q: Point)
    requires dim > 0 && Exact(t, pts, edge, dim) && Built(t, subs, pts, dim) && (edge || MinKey(t) < a(dim))
    ensures var r := Parting(t, subs, a, b, dim); r.Some? ==> Count(r.value, q) == Wanted(pts, q, a, b, dim)
    decreases dim, 2, t
  {
    CountIn(pts, q);
    match t
    case Leaf(_, _, _, _) =>
    case Fork(_, k, _, l, r) =>
      var low, high := Part(pts, dim, k, true), Part(pts, dim, k, false);
      PartIn(pts, dim, k, true);
      PartIn(pts, dim, k, false);
      Sides(pts, dim, k, q);
      if b(dim) < k {
        PartingCount(l, subs, low, edge, a, b, dim, q);
      } else if k < a(dim) {
        PartingCount(r, subs, high, false, a, b, dim, q);
      } else {
        if a(dim) < k { LeftCount(l, subs, low, edge, a, b, dim, q); }
        if a(dim) == k || k < b(dim) { RightCount(r, subs, high, a, b, dim, q); }
        JoinCount(if a(dim) < k then LeftPart(l, subs, a, b, dim) else Some([]),
                  if a(dim) == k || k < b(dim) then RightPart(r, subs, a, b, dim) else Some([]), q);
      }
  }

  lemma {:induction false} ReverseCount(s: seq<Point>, q: Point)
    ensures Count(Reverse(s), q) == Count(s, q)
  {
    if s != [] {
      ReverseCount(s[1..], q);
      CountConcat(Reverse(s[1..]), [s[0]], q);
    }
  }

  /** Whenever there is an answer, it has exactly the points in the box. */
  lemma {:induction false} QueryCount(r: Range, pts: seq<Point>, a: Corner, b: Corner, dim: nat, q: Point)
    requires IsRange(r, pts, dim)
    ensures var s := Query(r, a, b, dim); s.Some? ==> Count(s.value, q) == Wanted(pts, q, a, b, dim)
    decreases dim, 3, r.tree
  {
    if dim == 0 {
      CollectCount(r.tree, None, None, a(0), b(0), [], q);
    } else {
      ReverseCount(pts, q);
      PartingCount(r.tree, r.subs, Reverse(pts), true, a, b, dim, q);
    }
  }

  // ---- When there is an answer.

  /** No lower coordinate of the corner is the key of the further leaves. */
  predicate Clear(a: Corner, dim: nat) {
    forall i: nat :: 1 <= i <= dim ==> a(i) != NEGINFTY
  }

  /** The least point of a subtree that is not on the edge. */
  lemma {:induction false} LeastPoint(t: T, pts: seq<Point>, dim: nat)
    requires Exact(t, pts, false, dim)
    ensures exists p :: p in pts && p.at(dim) == MinKey(t)
  {
    match t
    case Leaf(_, _, _, _) => assert pts[0] in pts;
    case Fork(_, k, _, l, _) =>
      PartIn(pts, dim, k, true);
      LeastPoint(l, Part(pts, dim, k, true), dim);
  }

  lemma {:induction false} LowerSafe(t: T, subs: map<Node<Info>, Range>, pts: seq<Point>, a: Corner, b: Corner,
      dim: nat)
    requires dim > 0 && Exact(t, pts, false, dim) && Built(t, subs, pts, dim) && Clear(a, dim - 1)
    ensures LowerAnswer(t, subs, a, b, dim).Some?
    decreases dim, 0, t
  {
    LeastPoint(t, pts, dim);
    QuerySafe(subs[t.node], pts, a, b, dim - 1);
  }

  lemma {:induction false} RightSafe(t: T, subs: map<Node<Info>, Range>, pts: seq<Point>, a: Corner, b: Corner,
      dim: nat)
    requires dim > 0 && Exact(t, pts, false, dim) && Built(t, subs, pts, dim) && Clear(a, dim - 1)
    ensures RightPart(t, subs, a, b, dim).Some?
    decreases dim, 1, t
  {
    match t
    case Leaf(_, _, _, _) => LowerSafe(t, subs, pts, a, b, dim);
    case Fork(_, k, _, l, r) =>
      LowerSafe(l, subs, Part(pts, dim, k, true), a, b, dim);
      if k < b(dim) {
        RightSafe(r, subs, Part(pts, dim, k, false), a, b, dim);
      } else if k > b(dim) {
        RightSafe(l, subs, Part(pts, dim, k, true), a, b, dim);
      }
  }

  /** All points are above the key of the further leaf. */
  ghost predicate AllAbove(pts: seq<Point>, dim: nat) {
    forall p :: p in pts ==> p.at(dim) > NEGINFTY
  }

  ghost predicate SomeUpTo(pts: seq<Point>, dim: nat, y: int) {
    exists p :: p in pts && p.at(dim) <= y
  }

  lemma {:induction false} LeftFails(t: T, subs: map<Node<Info>, Range>, pts: seq<Point>, edge: bool, a: Corner,
      b: Corner, dim: nat)
    requires dim > 0 && Exact(t, pts, edge, dim) && Built(t, subs, pts, dim) && (edge || MinKey(t) < a(dim))
    requires Clear(a, dim - 1)
    ensures LeftPart(t, subs, a, b, dim) == None <==> edge && a(dim) == NEGINFTY && AllAbove(pts, dim)
    decreases dim, 1, t
  {
    match t
    case Leaf(_, _, _, _) =>
    case Fork(_, k, _, l, r) =>
      var low, high := Part(pts, dim, k, true), Part(pts, dim, k, false);
      PartIn(pts, dim, k, true);
      PartIn(pts, dim, k, false);
      LeastPoint(r, high, dim);
      LowerSafe(r, subs, high, a, b, dim);
      if a(dim) < k {
        LeftFails(l, subs, low, edge, a, b, dim);
      } else if a(dim) > k {
        LeftFails(r, subs, high, false, a, b, dim);
      }
  }

  lemma {:induction false} PartingFails(t: T, subs: map<Node<Info>, Range>, pts: seq<Point>, edge: bool, a: Corner,
      b: Corner, dim: nat)
    requires dim > 0 && Exact(t, pts, edge, dim) && Built(t, subs, pts, dim) && (edge || MinKey(t) < a(dim))
    requires Clear(a, dim - 1)
    ensures Parting(t, subs, a, b, dim) == None <==>
      edge && a(dim) == NEGINFTY && AllAbove(pts, dim) && SomeUpTo(pts, dim, b(dim))
    decreases dim, 2, t
  {
    match t
    case Leaf(_, _, _, _) =>
    case Fork(_, k, _, l, r) =>
      var low, high := Part(pts, dim, k, true), Part(pts, dim, k, false);
      PartIn(pts, dim, k, true);
      PartIn(pts, dim, k, false);
      LeastPoint(r, high, dim);
      if b(dim) < k {
        PartingFails(l, subs, low, edge, a, b, dim);
      } else if k < a(dim) {
        PartingFails(r, subs, high, false, a, b, dim);
      } else {
        RightSafe(r, subs, high, a, b, dim);
        if a(dim) < k { LeftFails(l, subs, low, edge, a, b, dim); }
      }
  }

  /** The query fails, for want of a lower tree at the further leaf, exactly when it looks for that
      leaf's key, all points are above it and some point is not above the box. */
  lemma {:induction false} QueryFails(r: Range, pts: seq<Point>, a: Corner, b: Corner, dim: nat)
    requires dim > 0 && IsRange(r, pts, dim) && Clear(a, dim - 1)
    ensures Query(r, a, b, dim) == None <==> a(dim) == NEGINFTY && AllAbove(pts, dim) && SomeUpTo(pts, dim, b(dim))
    decreases dim, 3, r.tree
  {
    ReverseIn(pts);
    PartingFails(r.tree, r.subs, Reverse(pts), true, a, b, dim);
  }

  /** One point in the middle of a box whose lower corner is the key of the further leaf. */
  lemma LowestCornerFails(r: Range, p: Point)
    requires p.at(0) == 0 && p.at(1) == 0 && IsRange(r, [p], 1)
    ensures Query(r, _ => NEGINFTY, _ => 1, 1) == None && InBox(p, _ => NEGINFTY, _ => 1, 1)
  {
    var a: Corner, b: Corner := _ => NEGINFTY, _ => 1;
    QueryFails(r, [p], a, b, 1);
    assert SomeUpTo([p], 1, 1) by { assert p in [p]; }
    assert InBox(p, a, b, 0);
  }

  lemma {:induction false} QuerySafe(r: Range, pts: seq<Point>, a: Corner, b: Corner, dim: nat)
    requires IsRange(r, pts, dim) && Clear(a, dim)
    ensures Query(r, a, b, dim).Some?
    decreases dim, 4, r.tree
  {
    if dim > 0 { QueryFails(r, pts, a, b, dim); }
  }

  // ---- The loops.

  /** The subtrees whose roots are on the stack. */
  datatype Pile = Empty | Push(rest: Pile, top: T)

  function StackOf(p: Pile): seq<Node<Info>> {
    if p.Empty? then [] else StackOf(p.rest) + [p.top.node]
  }

  function CollectAll(p: Pile, a: int, b: int, result: seq<Point>): seq<Point>
    decreases p
  {
    if p.Empty? then result else CollectAll(p.rest, a, b, Collect(p.top, a, b, result))
  }

  ghost function PileNodes(p: Pile): set<Node<Info>> {
    if p.Empty? then {} else PileNodes(p.rest) + Nodes(p.top)
  }

  ghost predicate PileHolds(p: Pile)
    reads PileNodes(p)
  {
    p.Empty? || (PileHolds(p.rest) && Holds(p.top))
  }

  lemma {:induction false} PileAllocated(p: Pile)
    ensures forall o :: o in PileNodes(p) ==> allocated(o)
  {
    if p.Push? {
      PileAllocated(p.rest);
      Allocated(p.top);
    }
  }

  function Size(t: T): nat {
    if t.Leaf? then 1 else 1 + Size(t.left) + Size(t.right)
  }

  function Weight(p: Pile): nat {
    if p.Empty? then 0 else Weight(p.rest) + Size(p.top)
  }

  method CopyPoints(list: seq<Point>, result0: seq<Point>) returns (result: seq<Point>)
    ensures result == PutAll(list, result0)
  {
    result := result0;
    var tmp := list;
    while tmp != []
      invariant PutAll(tmp, result) == PutAll(list, result0)
      decreases |tmp|
    {
      result := [tmp[0]] + result;
      tmp := tmp[1..];
    }
  }

  /** The search in one coordinate. */
  method FindPoints1d(tree: Node<Info>, a: int, b: int, ghost t: T) returns (result: seq<Point>)
    requires t.node == tree && Holds(t)
    ensures result == Collect(t, a, b, [])
  {
    result := [];
    var stack: seq<Node<Info>> := [tree];
    ghost var p := Push(Empty, t);
    while stack != []
      invariant stack == StackOf(p) && PileHolds(p) && CollectAll(p, a, b, result) == Collect(t, a, b, [])
      decreases Weight(p)
    {
      ghost var c := p.top;
      assert Holds(c) && (c.Fork? ==> Holds(c.left) && Holds(c.right));
      var n: Node<Info> := stack[|stack| - 1];
      stack, p := stack[..|stack| - 1], p.rest;
      assert stack == StackOf(p) && n == c.node && Size(c) > 0;
      assert CollectAll(p, a, b, Collect(c, a, b, result)) == Collect(t, a, b, []);
      if n.right == null {
        assert c.Leaf?;
        PileAllocated(p);
        if a <= n.key < b { result := CopyPoints(n.info.points, result); }
      } else if b <= n.key {
        stack, p := stack + [n.left], Push(p, c.left);
      } else if n.key <= a {
        stack, p := stack + [n.right], Push(p, c.right);
      } else {
        assert Size(c.left) + Size(c.right) < Size(c);
        ghost var lower := Push(p, c.left);
        assert StackOf(lower) == StackOf(p) + [n.left] && PileHolds(lower) && Weight(lower) == Weight(p) + Size(c.left);
        assert CollectAll(lower, a, b, Collect(c.right, a, b, result)) == CollectAll(p, a, b, Collect(c, a, b, result));
        stack := stack + [n.left];
        stack, p := stack + [n.right], Push(lower, c.right);
      }
    }
  }

  // ---- The walks through a tree of more coordinates.

  /** A walk is at c, where the points pts get to. */
  ghost predicate Walks(c: T, subs: map<Node<Info>, Range>, pts: seq<Point>, low: nat)
    reads Nodes(c) + LowerNodes(subs, low)
  {
    Holds(c) && LowerHold(subs, low) && Built(c, subs, pts, low + 1)
  }

  lemma WalksOn(c: T, subs: map<Node<Info>, Range>, pts: seq<Point>, low: nat)
    requires c.Fork? && Walks(c, subs, pts, low)
    ensures Walks(c.left, subs, Part(pts, low + 1, c.key, true), low)
    ensures Walks(c.right, subs, Part(pts, low + 1, c.key, false), low)
    ensures c.node.left == c.left.node && c.node.right == c.right.node && c.node.key == c.key
  {
  }

  lemma WalkAllocated(c: T, subs: map<Node<Info>, Range>, low: nat)
    ensures (forall o :: o in Nodes(c) ==> allocated(o)) && forall o :: o in LowerNodes(subs, low) ==> allocated(o)
  {
    Allocated(c);
    LowerAllocated(subs, low);
  }

  lemma JoinMore(x: seq<Point>, y: seq<Point>, z: Answer)
    ensures Join(Some(x + y), z) == Join(Some(x), Join(Some(y), z)) && Join(Some(x), Some(y)) == Some(x + y)
    ensures Join(Some(x), Some([])) == Some(x)
  {
    if z.Some? { assert x + y + z.value == x + (y + z.value); }
    assert x + [] == x;
  }

  lemma JoinEmpty(x: Answer)
    ensures Join(Some([]), x) == x && Join(x, Some([])) == x
  {
    if x.Some? { assert [] + x.value == x.value == x.value + []; }
  }

  /** Asks the lower tree of a node. */
  method AskLower(n: Node<Info>, a: Corner, b: Corner, low: nat, ghost c: T, ghost subs: map<Node<Info>, Range>,
      ghost pts: seq<Point>)
    returns (answer: Answer)
    requires c.node == n && Walks(c, subs, pts, low)
    ensures answer == LowerAnswer(c, subs, a, b, low + 1)
    decreases low + 1, 0
  {
    assert n.info == c.info;
    if n.info.lower.Root? {
      answer := FindPoints(n.info.lower.node, a, b, low, Some(subs[c.node]), pts);
    } else {
      answer := FindPoints(null, a, b, low, None, pts);
    }
  }

  /** Along the path of a. */
  method FollowLeft(leftPath0: Node<Info>, current0: seq<Point>, a: Corner, b: Corner, low: nat,
                    ghost c0: T, ghost subs: map<Node<Info>, Range>, ghost pts0: seq<Point>)
    returns (answer: Answer)
    requires c0.node == leftPath0 && Walks(c0, subs, pts0, low)
    ensures answer == Join(Some(current0), LeftPart(c0, subs, a, b, low + 1))
    decreases low + 1, 1
  {
    var dim := low + 1;
    var leftPath: Node<Info> := leftPath0;
    var current := current0;
    ghost var c, pts := c0, pts0;
    while leftPath.right != null
      invariant c.node == leftPath && Walks(c, subs, pts, low)
      invariant Join(Some(current), LeftPart(c, subs, a, b, dim)) == Join(Some(current0), LeftPart(c0, subs, a, b, dim))
      decreases c
    {
      WalksOn(c, subs, pts, low);
      if a(dim) <= leftPath.key {
        WalkAllocated(c, subs, low);
        var new' := AskLower(leftPath.right, a, b, low, c.right, subs, Part(pts, dim, c.key, false));
        if new' == None { return None; }
        assert Walks(c, subs, pts, low);
        WalksOn(c, subs, pts, low);
        JoinMore(current, new'.value, LeftPart(c.left, subs, a, b, dim));
        current := current + new'.value;
        if a(dim) == leftPath.key { return Some(current); }
        leftPath := leftPath.left;
        pts := Part(pts, dim, c.key, true);
        c := c.left;
      } else {
        leftPath := leftPath.right;
        pts := Part(pts, dim, c.key, false);
        c := c.right;
      }
    }
    JoinMore(current, [], Some([]));
    if leftPath.key == a(dim) {
      answer := AskLower(leftPath, a, b, low, c, subs, pts);
      if answer != None { answer := Some(current + answer.value); }
    } else {
      answer := Some(current);
    }
  }

  /** Along the path of b. */
  method FollowRight(rightPath0: Node<Info>, current0: seq<Point>, a: Corner, b: Corner, low: nat,
                     ghost c0: T, ghost subs: map<Node<Info>, Range>, ghost pts0: seq<Point>)
    returns (answer: Answer)
    requires c0.node == rightPath0 && Walks(c0, subs, pts0, low)
    ensures answer == Join(Some(current0), RightPart(c0, subs, a, b, low + 1))
    decreases low + 1, 1
  {
    var dim := low + 1;
    var rightPath: Node<Info> := rightPath0;
    var current := current0;
    ghost var c, pts := c0, pts0;
    while rightPath.right != null
      invariant c.node == rightPath && Walks(c, subs, pts, low)
      invariant Join(Some(current), RightPart(c, subs, a, b, dim)) ==
        Join(Some(current0), RightPart(c0, subs, a, b, dim))
      decreases c
    {
      WalksOn(c, subs, pts, low);
      if rightPath.key <= b(dim) {
        WalkAllocated(c, subs, low);
        var new' := AskLower(rightPath.left, a, b, low, c.left, subs, Part(pts, dim, c.key, true));
        if new' == None { return None; }
        assert Walks(c, subs, pts, low);
        WalksOn(c, subs, pts, low);
        JoinMore(current, new'.value, RightPart(c.right, subs, a, b, dim));
        current := current + new'.value;
        if rightPath.key == b(dim) { return Some(current); }
        rightPath := rightPath.right;
        pts := Part(pts, dim, c.key, false);
        c := c.right;
      } else {
        rightPath := rightPath.left;
        pts := Part(pts, dim, c.key, true);
        c := c.left;
      }
    }
    JoinMore(current, [], Some([]));
    if rightPath.key < b(dim) {
      answer := AskLower(rightPath, a, b, low, c, subs, pts);
      if answer != None { answer := Some(current + answer.value); }
    } else {
      answer := Some(current);
    }
  }

  /** The descent to where the paths part. */
  method FindHigher(tree: Node<Info>, a: Corner, b: Corner, low: nat, ghost c0: T, ghost subs: map<Node<Info>, Range>,
      ghost pts0: seq<Point>)
    returns (answer: Answer)
    requires c0.node == tree && Walks(c0, subs, pts0, low)
    ensures answer == Parting(c0, subs, a, b, low + 1)
    decreases low + 1, 2
  {
    var dim := low + 1;
    var n: Node<Info> := tree;
    var leftPath: Node?<Info>, rightPath: Node?<Info> := null, null;
    ghost var c, pts := c0, pts0;
    while n.right != null
      invariant c.node == n && Walks(c, subs, pts, low) && Parting(c, subs, a, b, dim) == Parting(c0, subs, a, b, dim)
      invariant leftPath == null && rightPath == null
      decreases c
    {
      WalksOn(c, subs, pts, low);
      if b(dim) < n.key {
        n := n.left;
        pts := Part(pts, dim, c.key, true);
        c := c.left;
      } else if n.key < a(dim) {
        n := n.right;
        pts := Part(pts, dim, c.key, false);
        c := c.right;
      } else if a(dim) < n.key && n.key < b(dim) {
        rightPath := n.right;
        leftPath := n.left;
        break;
      } else if a(dim) == n.key {
        rightPath := n.right;
        break;
      } else {
        leftPath := n.left;
        break;
      }
    }
    WalkAllocated(c, subs, low);
    answer := Some([]);
    if leftPath != null {
      WalksOn(c, subs, pts, low);
      JoinEmpty(LeftPart(c.left, subs, a, b, dim));
      answer := FollowLeft(leftPath, [], a, b, low, c.left, subs, Part(pts, dim, c.key, true));
      if answer == None { return; }
    }
    if rightPath != null {
      WalksOn(c, subs, pts, low);
      JoinEmpty(RightPart(c.right, subs, a, b, dim));
      answer := FollowRight(rightPath, answer.value, a, b, low, c.right, subs, Part(pts, dim, c.key, false));
    }
  }

  /** The points of the tree in the box, or None if the program stops. */
  method FindPoints(tree: Node?<Info>, a: Corner, b: Corner, dim: nat, ghost r: Option<Range>, ghost pts: seq<Point>)
    returns (answer: Answer)
    requires tree != null ==>
      r.Some? && r.value.tree.node == tree && IsRange(r.value, pts, dim) && RangeHolds(r.value, dim)
    ensures answer == if tree == null then None else Query(r.value, a, b, dim)
    decreases dim, 3
  {
    if tree == null { return None; }
    assert Holds(r.value.tree);
    if tree.right == null && tree.info.points == [] { return None; }
    if dim == 0 {
      var points := FindPoints1d(tree, a(0), b(0), r.value.tree);
      answer := Some(points);
    } else {
      answer := FindHigher(tree, a, b, dim - 1, r.value.tree, r.value.subs, Reverse(pts));
    }
  }

  /** A set of points, in coordinates 0 to dim, for searching. */
  class PointSet {
    const root: Node?<Info>
    const dim: nat
    ghost const points: seq<Point>
    ghost const range: Option<Range>

    ghost predicate Valid()
      reads if range.Some? then RangeNodes(range.value, dim) else {}
    {
      && (root == null <==> points == [])
      && (root != null ==>
            && range.Some? && range.value.tree.node == root
            && IsRange(range.value, points, dim) && RangeHolds(range.value, dim))
    }

    constructor (ptList: seq<Point>, dim: nat)
      ensures Valid() && points == ptList && this.dim == dim
    {
      var n; ghost var r;
      n, r := Build(ptList, dim);
      root, this.dim, points, range := n, dim, ptList, r;
    }

    /** An answer has each point in the box as often as it was given, and no other. There is an answer
        for every box with no lower bound equal to NEGINFTY; if no coordinate but the last can be at
        fault, it is known exactly when there is none. */
    method Find(a: Corner, b: Corner) returns (answer: Answer)
      requires Valid()
      ensures answer.Some? ==>
        forall q: Point ::
          var inside := forall i: nat :: i <= dim ==> a(i) <= q.at(i) < b(i);
          multiset(answer.value)[q] == if inside then multiset(points)[q] else 0
      ensures (points == [] ==> answer == None) && (points != [] && Clear(a, dim) ==> answer.Some?)
      ensures points != [] && dim > 0 && Clear(a, dim - 1) ==>
        (answer == None <==> a(dim) == NEGINFTY && AllAbove(points, dim) && SomeUpTo(points, dim, b(dim)))
    {
      answer := FindPoints(root, a, b, dim, range, points);
      if root != null {
        forall q: Point
          ensures var inside := forall i: nat :: i <= dim ==> a(i) <= q.at(i) < b(i);
            answer.Some? ==> multiset(answer.value)[q] == if inside then multiset(points)[q] else 0
        {
          QueryCount(range.value, points, a, b, dim, q);
          InBoxEverywhere(q, a, b, dim);
          CountIs(points, q);
          if answer.Some? { CountIs(answer.value, q); }
        }
        if Clear(a, dim) { QuerySafe(range.value, points, a, b, dim); }
        if dim > 0 && Clear(a, dim - 1) { QueryFails(range.value, points, a, b, dim); }
      }
    }
  }
}
