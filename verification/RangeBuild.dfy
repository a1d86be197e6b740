/** The operations that make a range tree: the passes over all nodes, the insertion of points along
    their search paths, and the recursion over the coordinates. */
module RangeBuild {
  import opened Prelude
  import opened LeafTree
  import opened ListTree
  import opened PointSort
  import opened RangeTree

  // ---- Clearing the lower trees.

  /** Where a pass stands: the nodes below the stack are as before, the others as m says. */
  ghost predicate Passing(t: T, pend: seq<T>, stack: seq<Node<Info>>, m: map<Node<Info>, Info>)
    reads Nodes(t)
  {
    && Distinct(t) && Apart(pend) && Todo(pend) <= Subtrees(t) && stack == StackNodes(pend)
    && (SubtreeNodes(t);
        forall s :: s in Subtrees(t) ==>
          if s in Todo(pend) then Here(s, s.info) else s.node in m && Here(s, m[s.node]))
  }

  lemma PassStart(t: T)
    requires Holds(t) && Distinct(t)
    ensures Passing(t, [t], [t.node], map[])
  {
    SubtreeNodes(t);
    HoldsHere(t);
    Pushed([], t);
    assert [] + [t] == [t];
  }

  lemma PassEnd(t: T, m: map<Node<Info>, Info>)
    requires Passing(t, [], [], m)
    ensures Holds(Relabelling(t, m))
  {
    RelabellingHolds(t, m);
  }

  lemma PassTop(t: T, pend: seq<T>, stack: seq<Node<Info>>, m: map<Node<Info>, Info>)
    requires Passing(t, pend, stack, m) && stack != []
    ensures pend != [] && |stack| == |pend| && stack[..|stack| - 1] == StackNodes(pend[..|pend| - 1])
    ensures var c := pend[|pend| - 1]; stack[|stack| - 1] == c.node && c in Subtrees(t) && Here(c, c.info)
  {
    var rest, c := pend[..|pend| - 1], pend[|pend| - 1];
    assert pend == rest + [c];
    PopPush(rest, c);
    StackLength(pend);
    StackLength(rest);
  }

  lemma {:induction false} StackLength(pend: seq<T>)
    ensures |StackNodes(pend)| == |pend|
  {
    if pend != [] { StackLength(pend[..|pend| - 1]); }
  }

  /** One node's turn. */
  method PassStep(n: Node<Info>, info: Info, ghost t: T, ghost rest: seq<T>, ghost c: T, ghost stack: seq<Node<Info>>,
      ghost m: map<Node<Info>, Info>)
    requires Passing(t, rest + [c], stack, m) && c.node == n
    modifies n
    ensures n.left == old(n.left) && n.right == old(n.right)
    ensures Passing(t, rest + Children(c), StackNodes(rest + Children(c)), m[n := info])
    ensures Todo(rest + Children(c)) == Todo(rest + [c]) - {c} && c in Todo(rest + [c])
    ensures forall s :: s in Subtrees(t) && s != c ==> s.node != n
  {
    PopPush(rest, c);
    SubtreeNodes(t);
    assert Here(c, c.info);
    forall s | s in Subtrees(t) && s != c ensures s.node != n {
      if s.node == n { OneSubtree(t, s, c); }
    }
    n.info := info;
  }

  /** Takes the top of the stack, gives it its information and puts its children on the stack. */
  method Visit(stack0: seq<Node<Info>>, info: Info, ghost t: T, ghost pend: seq<T>, ghost m: map<Node<Info>, Info>)
    returns (stack: seq<Node<Info>>, ghost pend': seq<T>)
    requires Passing(t, pend, stack0, m) && stack0 != [] && pend != []
    modifies stack0[|stack0| - 1]
    ensures Passing(t, pend', stack, m[stack0[|stack0| - 1] := info])
    ensures var c := pend[|pend| - 1];
      && Todo(pend') == Todo(pend) - {c} && c in Todo(pend)
      && forall s :: s in Subtrees(t) && s != c ==> s.node != c.node
  {
    PassTop(t, pend, stack0, m);
    ghost var rest, c := pend[..|pend| - 1], pend[|pend| - 1];
    assert pend == rest + [c];
    PopPush(rest, c);
    var n: Node<Info> := stack0[|stack0| - 1];
    PassStep(n, info, t, rest, c, stack0, m);
    stack := stack0[..|stack0| - 1];
    if n.right != null {
      stack := stack + [n.left];
      stack := stack + [n.right];
    }
    pend' := rest + Children(c);
  }

  /** The items of the key list are the leaves' contents. */
  ghost predicate Numbered(t: T, list: seq<Entry>) {
    forall s :: s in Subtrees(t) && s.Leaf? ==> 0 <= s.obj < |list| && list[s.obj].key == s.key
  }

  function ClearInfo(s: T, list: seq<Entry>): Info
    requires s.Leaf? ==> 0 <= s.obj < |list|
  {
    Info(if s.Leaf? then list[s.obj].points else [], Nothing)
  }

  /** The nodes get the points of their list items, and no lower trees. */
  method ClearLower(root: Node<Info>, list: seq<Entry>, ghost t: T) returns (ghost m: map<Node<Info>, Info>)
    requires t.node == root && Holds(t) && Distinct(t) && Numbered(t, list)
    modifies Nodes(t)
    ensures Holds(Relabelling(t, m)) && forall s :: s in Subtrees(t) ==> s.node in m && m[s.node] == ClearInfo(s, list)
  {
    PassStart(t);
    SubtreeNodes(t);
    var stack: seq<Node<Info>> := [root];
    ghost var pend := [t];
    m := map[];
    while stack != []
      invariant Passing(t, pend, stack, m)
      invariant forall s :: s in Subtrees(t) && s !in Todo(pend) ==> s.node in m && m[s.node] == ClearInfo(s, list)
      decreases Todo(pend)
    {
      PassTop(t, pend, stack, m);
      ghost var c := pend[|pend| - 1];
      var n: Node<Info> := stack[|stack| - 1];
      var info := Info(if n.right == null then list[n.obj.value].points else [], Nothing);
      assert info == ClearInfo(c, list);
      stack, pend := Visit(stack, info, t, pend, m);
      m := m[n := info];
    }
    StackLength(pend);
    PassEnd(t, m);
  }

  // ---- Points along their search paths.

  function ListOf(l: Lower): seq<Point> {
    if l.List? then l.points else []
  }

  function More(i: Info, p: Point): Info {
    Info(i.points, List([p] + ListOf(i.lower)))
  }

  /** The point attached to the nodes of its search path. */
  function Attached(t: T, p: Point, dim: nat): T {
    match t
    case Leaf(n, k, o, i) => Leaf(n, k, o, More(i, p))
    case Fork(n, k, i, l, r) =>
      if p.at(dim) < k then Fork(n, k, More(i, p), Attached(l, p, dim), r)
      else Fork(n, k, More(i, p), l, Attached(r, p, dim))
  }

  /** The list of every node are the points that get there. */
  ghost predicate Routed(t: T, pts: seq<Point>, dim: nat) {
    && t.info.lower == (if pts == [] then Nothing else List(pts))
    && (t.Fork? ==>
          Routed(t.left, Part(pts, dim, t.key, true), dim) && Routed(t.right, Part(pts, dim, t.key, false), dim))
  }

  lemma {:induction false} AttachedRouted(t: T, p: Point, pts: seq<Point>, dim: nat)
    requires Routed(t, pts, dim)
    ensures Routed(Attached(t, p, dim), [p] + pts, dim)
  {
    if t.Fork? {
      assert ([p] + pts)[1..] == pts;
      var low := p.at(dim) < t.key;
      assert Part([p] + pts, dim, t.key, low) == [p] + Part(pts, dim, t.key, low);
      assert Part([p] + pts, dim, t.key, !low) == Part(pts, dim, t.key, !low);
      if low {
        AttachedRouted(t.left, p, Part(pts, dim, t.key, true), dim);
      } else {
        AttachedRouted(t.right, p, Part(pts, dim, t.key, false), dim);
      }
    }
  }

  lemma {:induction false} AttachedSame(t: T, p: Point, dim: nat)
    ensures var u := Attached(t, p, dim);
      Leaves(u) == Leaves(t) && (Tight(u) <==> Tight(t)) && MinKey(u) == MinKey(t) && u.node == t.node &&
        (u.Fork? <==> t.Fork?)
  {
    if t.Fork? {
      AttachedSame(t.left, p, dim);
      AttachedSame(t.right, p, dim);
    }
  }

  /** Attaches a point along its search path. */
  method AttachPoint(root: Node<Info>, pt: Point, dim: nat, ghost t: T)
    requires t.node == root && At(Top, t)
    modifies Nodes(t)
    ensures At(Top, Attached(t, pt, dim)) && Nodes(Attached(t, pt, dim)) == Nodes(t)
  {
    var n: Node?<Info> := root;
    ghost var p, s := Top, t;
    ghost var want, all := Attached(t, pt, dim), Nodes(t);
    while n != null
      invariant n != null ==> s.node == n && Walking(p, s, Attached(s, pt, dim), want, all)
      invariant n == null ==> At(Top, want) && Nodes(want) == all
      decreases n != null, s
    {
      ghost var u := WithInfo(s, More(s.info, pt));
      SetInfo(n, Info(n.info.points, List([pt] + ListOf(n.info.lower))), p, s);
      if n.right != null && pt.at(dim) < n.key {
        GoLeft(p, u, Attached(s.left, pt, dim), want, all);
        n := n.left;
        p, s := WentLeft(p, u.node, u.key, u.info, u.right), s.left;
      } else {
        if s.Fork? {
          GoRight(p, u, Attached(s.right, pt, dim), want, all);
          p, s := WentRight(p, u.node, u.key, u.info, u.left), s.right;
        } else {
          PlugHolds(p, u);
        }
        n := n.right;
      }
    }
  }

  // ---- The key list.

  /** One item for each point. */
  method KeyList(ptList: seq<Point>, dim: nat) returns (keyList: seq<Entry>)
    ensures Rearranged(keyList, keyList, dim) && forall q :: Count(Stored(keyList), q) == Count(ptList, q)
  {
    keyList := [];
    var pTmp := ptList;
    while pTmp != []
      invariant Rearranged(keyList, keyList, dim)
      invariant forall q :: Count(Stored(keyList), q) + Count(pTmp, q) == Count(ptList, q)
      decreases |pTmp|
    {
      var k := Entry(pTmp[0].at(dim), [pTmp[0]]);
      forall q ensures Count(Stored([k] + keyList), q) == Count(Stored(keyList), q) + if pTmp[0] == q then 1 else 0 {
        assert ([k] + keyList)[1..] == keyList;
        CountConcat(k.points, Stored(keyList), q);
      }
      keyList := [k] + keyList;
      pTmp := pTmp[1..];
    }
  }

  /** The list has one item for each coordinate of the points, in order, with its points. */
  ghost predicate KeysOf(list: seq<Entry>, pts: seq<Point>, dim: nat) {
    && StrictlyAscending(list) && Keyed(list, dim) && (forall i :: 0 <= i < |list| ==> list[i].points != [])
    && forall q :: Count(Stored(list), q) == Count(pts, q)
  }

  /** What make_tree gets: the contents of item i are named i. */
  function Pairs(list: seq<Entry>): (r: seq<Pair>)
    ensures |r| == |list| && forall i :: 0 <= i < |r| ==> r[i] == Pair(list[i].key, i)
  {
    seq(|list|, i requires 0 <= i < |list| => Pair(list[i].key, i))
  }

  lemma {:induction false} InStored(list: seq<Entry>, p: Point)
    ensures p in Stored(list) <==> exists i :: 0 <= i < |list| && p in list[i].points
  {
    if list != [] {
      InStored(list[1..], p);
      if p in Stored(list[1..]) {
        var i :| 0 <= i < |list[1..]| && p in list[1..][i].points;
        assert p in list[i + 1].points;
      }
      if i :| 0 <= i < |list| && p in list[i].points {
        if i > 0 { assert p in list[1..][i - 1].points; }
      }
    }
  }

  lemma KeysAreCoordinates(list: seq<Entry>, pts: seq<Point>, dim: nat, ks: seq<Pair>)
    requires KeysOf(list, pts, dim) && |ks| == |list| && forall i :: 0 <= i < |ks| ==> ks[i].key == list[i].key
    ensures Sorted(ks) && KeySetOf(ks) == Coordinates(pts, dim)
  {
    forall p ensures p in Stored(list) <==> p in pts {
      CountIn(Stored(list), p);
      CountIn(pts, p);
    }
    forall i | 0 <= i < |ks| ensures ks[i].key in Coordinates(pts, dim) {
      InStored(list, list[i].points[0]);
    }
    forall p | p in pts ensures p.at(dim) in KeySetOf(ks) {
      InStored(list, p);
      var i :| 0 <= i < |list| && p in list[i].points;
      assert p.at(dim) == ks[i].key;
    }
  }

  /** The leaves have their points, and there are no lower trees. */
  ghost predicate Carries(t: T, list: seq<Entry>) {
    && t.info.lower == Nothing
    && (if t.Leaf? then 0 <= t.obj < |list| && t.key == list[t.obj].key && t.info.points == list[t.obj].points
        else Carries(t.left, list) && Carries(t.right, list))
  }

  lemma {:induction false} LeafIsListed(t: T, s: T)
    requires s in Subtrees(t) && s.Leaf?
    ensures Pair(s.key, s.obj) in Leaves(t)
  {
    if t.Fork? {
      if s in Subtrees(t.left) { LeafIsListed(t.left, s); } else { LeafIsListed(t.right, s); }
    }
  }

  lemma {:induction false} ClearedCarries(t: T, list: seq<Entry>, m: map<Node<Info>, Info>)
    requires Numbered(t, list) && forall s :: s in Subtrees(t) ==> s.node in m && m[s.node] == ClearInfo(s, list)
    ensures Carries(Relabelling(t, m), list)
  {
    SubtreeNodes(t);
    if t.Fork? {
      ClearedCarries(t.left, list, m);
      ClearedCarries(t.right, list, m);
    }
  }

  lemma LeavesNumbered(t: T, list: seq<Entry>)
    requires Leaves(t) == Pairs(list)
    ensures Numbered(t, list)
  {
    forall s | s in Subtrees(t) && s.Leaf?
      ensures 0 <= s.obj < |list| && list[s.obj].key == s.key { LeafIsListed(t, s); }
  }

  /** make_tree, and the lower trees cleared. */
  method MakeCleared(list: seq<Entry>) returns (root: Node<Info>, ghost t: T)
    requires list != []
    ensures t.node == root && At(Top, t) && Tight(t) && Leaves(t) == Pairs(list) && Carries(t, list)
    ensures forall o :: o in Nodes(t) ==> fresh(o)
  {
    ghost var t0: T;
    root, t0 := MakeTree(Pairs(list), Info([], Nothing));
    LeavesNumbered(t0, list);
    ghost var m := ClearLower(root, list, t0);
    t := Relabelling(t0, m);
    RelabellingSame(t0, m);
    ClearedCarries(t0, list, m);
  }

  // ---- One coordinate.

  function PointsOf(ps: seq<Pair>, list: seq<Entry>): seq<Point> {
    if ps == [] then [] else (if 0 <= ps[0].obj < |list| then list[ps[0].obj].points else []) + PointsOf(ps[1..], list)
  }

  lemma {:induction false} PointsOfConcat(s: seq<Pair>, t: seq<Pair>, list: seq<Entry>)
    ensures PointsOf(s + t, list) == PointsOf(s, list) + PointsOf(t, list)
  {
    if s == [] {
      assert s + t == t;
    } else {
      assert (s + t)[1..] == s[1..] + t;
      PointsOfConcat(s[1..], t, list);
    }
  }

  lemma {:induction false} TreePointsAre(t: T, list: seq<Entry>)
    requires Carries(t, list)
    ensures TreePoints(t) == PointsOf(Leaves(t), list)
  {
    if t.Fork? {
      PointsOfConcat(Leaves(t.left), Leaves(t.right), list);
      TreePointsAre(t.left, list);
      TreePointsAre(t.right, list);
    }
  }

  lemma {:induction false} PairsPoints(list: seq<Entry>, i: nat)
    requires i <= |list|
    ensures PointsOf(Pairs(list)[i..], list) == Stored(list[i..])
    decreases |list| - i
  {
    if i < |list| {
      assert Pairs(list)[i..][1..] == Pairs(list)[i + 1..] && list[i..][1..] == list[i + 1..];
      PairsPoints(list, i + 1);
    }
  }

  lemma {:induction false} CarriesKeyed(t: T, list: seq<Entry>)
    requires Carries(t, list) && Keyed(list, 0) && forall i :: 0 <= i < |list| ==> list[i].points != []
    ensures LeafKeyed(t)
  {
    if t.Fork? {
      CarriesKeyed(t.left, list);
      CarriesKeyed(t.right, list);
    }
  }

  /** With one coordinate the tree is complete. */
  lemma OneCoordinate(t: T, list: seq<Entry>, pts: seq<Point>)
    requires KeysOf(list, pts, 0) && Tight(t) && Leaves(t) == Pairs(list) && Carries(t, list)
    ensures IsRange(Range(t, map[]), pts, 0)
  {
    KeysAreCoordinates(list, pts, 0, Leaves(t));
    TreeOrdered(t, None, None);
    CarriesKeyed(t, list);
    TreePointsAre(t, list);
    PairsPoints(list, 0);
    assert Pairs(list)[0..] == Leaves(t) && list[0..] == list;
  }

  // ---- More coordinates.

  lemma {:induction false} CarriesRouted(t: T, list: seq<Entry>, dim: nat)
    requires Carries(t, list)
    ensures Routed(t, [], dim)
  {
    if t.Fork? {
      CarriesRouted(t.left, list, dim);
      CarriesRouted(t.right, list, dim);
    }
  }

  /** Attaches all points. */
  method AttachAll(root: Node<Info>, ptList: seq<Point>, dim: nat, ghost t: T) returns (ghost u: T)
    requires t.node == root && At(Top, t) && Routed(t, [], dim)
    modifies Nodes(t)
    ensures u.node == root && At(Top, u) && Nodes(u) == Nodes(t) && Routed(u, Reverse(ptList), dim)
    ensures Leaves(u) == Leaves(t) && (Tight(u) <==> Tight(t)) && MinKey(u) == MinKey(t) && (u.Fork? <==> t.Fork?)
  {
    u := t;
    for i := 0 to |ptList|
      invariant u.node == root && At(Top, u) && Nodes(u) == Nodes(t) && Routed(u, Reverse(ptList[..i]), dim)
      invariant Leaves(u) == Leaves(t) && (Tight(u) <==> Tight(t)) && MinKey(u) == MinKey(t) && (u.Fork? <==> t.Fork?)
    {
      AttachPoint(root, ptList[i], dim, u);
      AttachedRouted(u, ptList[i], Reverse(ptList[..i]), dim);
      AttachedSame(u, ptList[i], dim);
      u := Attached(u, ptList[i], dim);
      assert ptList[..i + 1] == ptList[..i] + [ptList[i]];
      ReverseLast(ptList[..i], ptList[i]);
    }
    assert ptList[..|ptList|] == ptList;
  }

  lemma {:induction false} ReverseLast(s: seq<Point>, p: Point)
    ensures Reverse(s + [p]) == [p] + Reverse(s)
  {
    if s != [] {
      assert (s + [p])[1..] == s[1..] + [p];
      ReverseLast(s[1..], p);
    }
  }

  /** What a pass over the nodes leaves: the lists replaced by range trees. */
  ghost predicate Raised(s: T, info: Info, subs: map<Node<Info>, Range>, dim: nat) {
    if s.info.lower.List? then
      s.node in subs && info == Info(s.info.points, Root(subs[s.node].tree.node)) &&
        IsRange(subs[s.node], s.info.lower.points, dim)
    else info == s.info
  }

  ghost predicate AllRaised(t: T, m: map<Node<Info>, Info>, subs: map<Node<Info>, Range>, dim: nat) {
    t.node in m && Raised(t, m[t.node], subs, dim) &&
      (t.Fork? ==> AllRaised(t.left, m, subs, dim) && AllRaised(t.right, m, subs, dim))
  }

  lemma {:induction false} EachRaised(t: T, m: map<Node<Info>, Info>, subs: map<Node<Info>, Range>, dim: nat)
    requires forall s :: s in Subtrees(t) ==> s.node in m && Raised(s, m[s.node], subs, dim)
    ensures AllRaised(t, m, subs, dim)
  {
    SubtreeNodes(t);
    if t.Fork? {
      EachRaised(t.left, m, subs, dim);
      EachRaised(t.right, m, subs, dim);
    }
  }

  lemma {:induction false} RaisedBuilt(t: T, m: map<Node<Info>, Info>, subs: map<Node<Info>, Range>, pts: seq<Point>,
      dim: nat)
    requires dim > 0 && Routed(t, pts, dim) && AllRaised(t, m, subs, dim - 1)
    ensures Built(Relabelling(t, m), subs, pts, dim)
  {
    if t.Fork? {
      RaisedBuilt(t.left, m, subs, Part(pts, dim, t.key, true), dim);
      RaisedBuilt(t.right, m, subs, Part(pts, dim, t.key, false), dim);
    }
  }

  lemma {:induction false} ListsNonempty(t: T, pts: seq<Point>, dim: nat)
    requires Routed(t, pts, dim)
    ensures forall s :: s in Subtrees(t) && s.info.lower.List? ==> s.info.lower.points != []
  {
    if t.Fork? {
      ListsNonempty(t.left, Part(pts, dim, t.key, true), dim);
      ListsNonempty(t.right, Part(pts, dim, t.key, false), dim);
    }
  }

  lemma LowerAdded(subs: map<Node<Info>, Range>, n: Node<Info>, r: Range, dim: nat)
    requires LowerHold(subs, dim) && RangeHolds(r, dim)
    ensures LowerHold(subs[n := r], dim) && LowerNodes(subs[n := r], dim) <= LowerNodes(subs, dim) + RangeNodes(r, dim)
  {
  }

  /** The range tree of a list, if there is one. */
  method Raise(info: Info, low: nat, ghost c: T, ghost subs: map<Node<Info>, Range>)
    returns (info': Info, ghost subs': map<Node<Info>, Range>)
    requires info == c.info && (info.lower.List? ==> info.lower.points != []) && LowerHold(subs, low)
    ensures Raised(c, info', subs', low) && LowerHold(subs', low)
    ensures forall n :: n in subs && n != c.node ==> n in subs' && subs'[n] == subs[n]
    ensures forall o :: o in LowerNodes(subs', low) ==> o in LowerNodes(subs, low) || fresh(o)
    decreases low + 1, 0, 0
  {
    info', subs' := info, subs;
    if info.lower.List? {
      LowerAllocated(subs, low);
      var lower; ghost var r;
      lower, r := Build(info.lower.points, low);
      info' := Info(info.points, Root(lower));
      LowerAdded(subs, c.node, r.value, low);
      subs' := subs[c.node := r.value];
    }
  }

  /** Replaces the lists by range trees of their points, of the coordinates up to low. */
  method BuildLower(root: Node<Info>, low: nat, ghost t: T)
    returns (ghost m: map<Node<Info>, Info>, ghost subs: map<Node<Info>, Range>)
    requires t.node == root && Holds(t) && Distinct(t)
    requires forall s :: s in Subtrees(t) && s.info.lower.List? ==> s.info.lower.points != []
    modifies Nodes(t)
    ensures Holds(Relabelling(t, m)) && AllRaised(t, m, subs, low)
    ensures LowerHold(subs, low) && forall o :: o in LowerNodes(subs, low) ==> fresh(o)
    decreases low + 1, 0, 1
  {
    PassStart(t);
    SubtreeNodes(t);
    Allocated(t);
    var stack: seq<Node<Info>> := [root];
    ghost var pend := [t];
    m, subs := map[], map[];
    while stack != []
      invariant Passing(t, pend, stack, m)
      invariant forall s :: s in Subtrees(t) && s !in Todo(pend) ==> s.node in m && Raised(s, m[s.node], subs, low)
      invariant LowerHold(subs, low) && forall o :: o in LowerNodes(subs, low) ==> fresh(o)
      decreases Todo(pend)
    {
      PassTop(t, pend, stack, m);
      ghost var c := pend[|pend| - 1];
      var n: Node<Info> := stack[|stack| - 1];
      ghost var before := subs;
      var info;
      info, subs := Raise(n.info, low, c, subs);
      LowerAllocated(subs, low);
      assert c.node == n && n in Nodes(t) && n !in LowerNodes(subs, low);
      stack, pend := Visit(stack, info, t, pend, m);
      assert LowerHold(subs, low);
      m := m[n := info];
      forall s | s in Subtrees(t) && s !in Todo(pend) ensures s.node in m && Raised(s, m[s.node], subs, low) {
        if s != c { assert Raised(s, m[s.node], before, low); }
      }
    }
    StackLength(pend);
    PassEnd(t, m);
    EachRaised(t, m, subs, low);
  }

  /** The sorted keys, with the further key in front when there are lower coordinates. */
  method SortedKeys(ptList: seq<Point>, dim: nat) returns (list: seq<Entry>, ghost keys: seq<Entry>)
    requires ptList != []
    ensures keys != [] && KeysOf(keys, ptList, dim) && list == if dim >= 1 then [Entry(NEGINFTY, [])] + keys else keys
  {
    list := KeyList(ptList, dim);
    list := Sort(list, dim);
    keys := list;
    if keys == [] { assert Count(ptList, ptList[0]) > 0; }
    if dim >= 1 { list := [Entry(NEGINFTY, [])] + list; }
  }

  lemma EdgeTree(t: T, keys: seq<Entry>, pts: seq<Point>, rev: seq<Point>, dim: nat)
    requires keys != [] && KeysOf(keys, pts, dim) && Tight(t) && Leaves(t) == Pairs([Entry(NEGINFTY, [])] + keys)
    requires rev == Reverse(pts)
    ensures t.Fork? && Exact(t, rev, true, dim)
  {
    LeavesNonempty(t);
    var ks := Leaves(t)[1..];
    KeysAreCoordinates(keys, pts, dim, ks);
    ReverseIn(pts);
    assert Coordinates(rev, dim) == Coordinates(pts, dim);
    ExactEdge(t, rev, dim);
  }

  lemma {:induction false} ReverseIn(s: seq<Point>)
    ensures forall p :: p in Reverse(s) <==> p in s
  {
    if s != [] { ReverseIn(s[1..]); }
  }

  /** Builds the range tree of a list of points in coordinates 0 to dim. */
  method Build(ptList: seq<Point>, dim: nat) returns (root: Node?<Info>, ghost r: Option<Range>)
    ensures root == null <==> ptList == []
    ensures root != null ==> r.Some? && r.value.tree.node == root && IsRange(r.value, ptList, dim)
    ensures root != null ==> RangeHolds(r.value, dim) && forall o :: o in RangeNodes(r.value, dim) ==> fresh(o)
    decreases dim, 2
  {
    if ptList == [] { return null, None; }
    ghost var keys, t;
    var list;
    list, keys := SortedKeys(ptList, dim);
    root, t := MakeCleared(list);
    ghost var range;
    if dim == 0 {
      range := Flat(t, list, ptList, dim);
    } else {
      range := Complete(root, ptList, dim - 1, list, keys, t);
      RangeOver(range.tree, range.subs, dim);
    }
    r := Some(range);
  }

  lemma Flat(t: T, list: seq<Entry>, pts: seq<Point>, dim: nat) returns (r: Range)
    requires dim == 0 && KeysOf(list, pts, dim) && Tight(t) && Leaves(t) == Pairs(list) && Carries(t, list)
    ensures r.tree == t && IsRange(r, pts, dim) && RangeNodes(r, dim) == Nodes(t) && (RangeHolds(r, dim) <==> Holds(t))
  {
    OneCoordinate(t, list, pts);
    r := Range(t, map[]);
  }

  /** The part of the work for more than one coordinate. */
  method Complete(root: Node<Info>, ptList: seq<Point>, low: nat, ghost list: seq<Entry>, ghost keys: seq<Entry>,
      ghost t: T) returns (ghost r: Range)
    requires keys != [] && KeysOf(keys, ptList, low + 1) && list == [Entry(NEGINFTY, [])] + keys
    requires t.node == root && At(Top, t) && Tight(t) && Leaves(t) == Pairs(list) && Carries(t, list)
    modifies Nodes(t)
    ensures r.tree.node == root && IsRange(r, ptList, low + 1) && Holds(r.tree) && LowerHold(r.subs, low)
    ensures Nodes(r.tree) == Nodes(t) && forall o :: o in LowerNodes(r.subs, low) ==> fresh(o)
    decreases low + 1, 1
  {
    CarriesRouted(t, list, low + 1);
    ghost var u := AttachAll(root, ptList, low + 1, t);
    ListsNonempty(u, Reverse(ptList), low + 1);
    ghost var m, subs := BuildLower(root, low, u);
    AllBuilt(u, m, subs, keys, ptList, low + 1);
    RelabellingSame(u, m);
    r := Range(Relabelling(u, m), subs);
  }

  lemma AllBuilt(u: T, m: map<Node<Info>, Info>, subs: map<Node<Info>, Range>, keys: seq<Entry>, pts: seq<Point>,
      dim: nat)
    requires dim > 0 && keys != [] && KeysOf(keys, pts, dim) && Tight(u)
    requires Leaves(u) == Pairs([Entry(NEGINFTY, [])] + keys)
    requires Routed(u, Reverse(pts), dim) && AllRaised(u, m, subs, dim - 1)
    ensures IsRange(Range(Relabelling(u, m), subs), pts, dim)
  {
    RaisedBuilt(u, m, subs, Reverse(pts), dim);
    RelabellingSame(u, m);
    EdgeTree(Relabelling(u, m), keys, pts, Reverse(pts), dim);
  }

  lemma RangeOver(t: T, subs: map<Node<Info>, Range>, dim: nat)
    requires dim > 0
    ensures RangeNodes(Range(t, subs), dim) == Nodes(t) + LowerNodes(subs, dim - 1)
    ensures RangeHolds(Range(t, subs), dim) <==> Holds(t) && LowerHold(subs, dim - 1)
  {
  }
}
