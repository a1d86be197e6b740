/** The union-find structure of ch6/am_u_find.c: union by rank, with path compression. */
module UnionFind {
  import opened Prelude

  class Node {
    var rank: int
    var item: int
    var up: Node?

    constructor (item: int)
      ensures this.item == item && rank == 0 && up == null
    {
      this.item, rank, up := item, 0, null;
    }
  }

  // ---- What the structure is for: the equivalence generated by the joins.

  datatype Pair = Pair(a: Node, b: Node)

  /** The equivalence generated by a run of joins. */
  predicate Same(joins: seq<Pair>, a: Node, b: Node) {
    if joins == [] then a == b else
      var init, x, y := joins[..|joins| - 1], joins[|joins| - 1].a, joins[|joins| - 1].b;
      Same(init, a, b) || (Same(init, a, x) && Same(init, y, b)) || (Same(init, a, y) && Same(init, x, b))
  }

  lemma {:induction false} SameReflexive(joins: seq<Pair>, a: Node)
    ensures Same(joins, a, a)
  {
    if joins != [] { SameReflexive(joins[..|joins| - 1], a); }
  }

  lemma {:induction false} SameSymmetric(joins: seq<Pair>, a: Node, b: Node)
    requires Same(joins, a, b)
    ensures Same(joins, b, a)
  {
    if joins != [] {
      var init, x, y := joins[..|joins| - 1], joins[|joins| - 1].a, joins[|joins| - 1].b;
      if Same(init, a, b) {
        SameSymmetric(init, a, b);
      } else if Same(init, a, x) && Same(init, y, b) {
        SameSymmetric(init, a, x);
        SameSymmetric(init, y, b);
      } else {
        SameSymmetric(init, a, y);
        SameSymmetric(init, x, b);
      }
    }
  }

  lemma {:induction false} SameTransitive(joins: seq<Pair>, a: Node, b: Node, c: Node)
    requires Same(joins, a, b) && Same(joins, b, c)
    ensures Same(joins, a, c)
  {
    if joins != [] {
      var init, x, y := joins[..|joins| - 1], joins[|joins| - 1].a, joins[|joins| - 1].b;
      forall p, q, r | p in {a, b, c, x, y} && q in {a, b, c, x, y} && r in {a, b, c, x, y} && Same(init, p, q) &&
        Same(init, q, r)
        ensures Same(init, p, r)
      {
        SameTransitive(init, p, q, r);
      }
      forall p, q | p in {a, b, c, x, y} && q in {a, b, c, x, y} && Same(init, p, q) ensures Same(init, q, p) {
        SameSymmetric(init, p, q);
      }
    }
  }

  lemma {:induction false} SameJoined(joins: seq<Pair>, k: nat)
    requires k < |joins|
    ensures Same(joins, joins[k].a, joins[k].b)
  {
    var init := joins[..|joins| - 1];
    if k < |init| {
      SameJoined(init, k);
    } else {
      SameReflexive(init, joins[k].a);
      SameReflexive(init, joins[k].b);
    }
  }

  /** R is an equivalence on nodes that holds of all joined pairs. */
  ghost predicate Respects(R: set<Pair>, nodes: set<Node>, joins: seq<Pair>) {
    && (forall a :: a in nodes ==> Pair(a, a) in R)
    && (forall a, b :: a in nodes && b in nodes && Pair(a, b) in R ==> Pair(b, a) in R)
    && (forall a, b, c :: a in nodes && b in nodes && c in nodes && Pair(a, b) in R && Pair(b, c) in R ==>
      Pair(a, c) in R)
    && (forall k :: 0 <= k < |joins| ==> joins[k] in R)
  }

  /** Same is the least such equivalence. */
  lemma {:induction false} SameLeast(R: set<Pair>, nodes: set<Node>, joins: seq<Pair>, a: Node, b: Node)
    requires Respects(R, nodes, joins) && a in nodes && b in nodes && Same(joins, a, b)
    requires forall k :: 0 <= k < |joins| ==> joins[k].a in nodes && joins[k].b in nodes
    ensures Pair(a, b) in R
  {
    if joins != [] {
      var init, x, y := joins[..|joins| - 1], joins[|joins| - 1].a, joins[|joins| - 1].b;
      assert joins[|joins| - 1] == Pair(x, y);
      if Same(init, a, b) {
        SameLeast(R, nodes, init, a, b);
      } else if Same(init, a, x) && Same(init, y, b) {
        SameLeast(R, nodes, init, a, x);
        SameLeast(R, nodes, init, y, b);
      } else {
        SameLeast(R, nodes, init, a, y);
        SameLeast(R, nodes, init, x, b);
      }
    }
  }

  // ---- The forest.

  type Roots = map<Node, Node>

  /** The members of the class of r. */
  ghost function Class(root: Roots, r: Node): set<Node> {
    set n | n in root && root[n] == r
  }

  /** Up from n, ranks increase strictly and the class stays the same; without up, n is the root. */
  ghost predicate NodeOk(root: Roots, n: Node)
    requires n in root
    reads root.Keys
  {
    && root[n] in root && root[n].up == null && 0 <= n.rank <= root[n].rank
    && (if n.up == null then root[n] == n else n.up in root && root[n.up] == root[n] && n.rank < n.up.rank)
  }

  ghost predicate Linked(root: Roots)
    reads root.Keys
  {
    forall n {:trigger NodeOk(root, n)} :: n in root ==> NodeOk(root, n)
  }

  /** A root of rank r has at least 2^r members. */
  ghost predicate Ranked(root: Roots)
    reads root.Keys
  {
    forall r :: r in root && r.up == null && r.rank >= 0 ==> |Class(root, r)| >= Pow2(r.rank)
  }

  /** Follows the path to the root. */
  method FindRoot(node: Node, ghost root: Roots) returns (r: Node)
    requires Linked(root) && node in root
    ensures r == root[node]
  {
    r := node;
    while r.up != null
      invariant r in root && root[r] == root[node] && NodeOk(root, r)
      decreases root[node].rank - r.rank
    {
      assert NodeOk(root, r.up);
      r := r.up;
    }
  }

  method FindRoots(node1: Node, node2: Node, ghost root: Roots) returns (root1: Node, root2: Node)
    requires Linked(root) && node1 in root && node2 in root
    ensures root1 == root[node1] && root2 == root[node2]
    ensures root1 in root && root2 in root && root1.up == null && root2.up == null
  {
    root1 := FindRoot(node1, root);
    root2 := FindRoot(node2, root);
    assert NodeOk(root, node1) && NodeOk(root, node2);
  }

  /** As NodeOk, but a root may have become its own parent. */
  ghost predicate RisingAt(root: Roots, n: Node)
    requires n in root
    reads root.Keys
  {
    && root[n] in root && root[root[n]] == root[n] && 0 <= n.rank <= root[n].rank
    && (if n.up == null || n.up == n then root[n] == n
        else n.up in root && root[n.up] == root[n] && n.rank < n.up.rank)
  }

  ghost predicate Rising(root: Roots)
    reads root.Keys
  {
    forall n {:trigger RisingAt(root, n)} :: n in root ==> RisingAt(root, n)
  }

  lemma RankBelow(root: Roots, n: Node)
    requires Rising(root) && n in root
    ensures root[n] in root && n.rank <= root[n].rank
  {
    assert RisingAt(root, n);
  }

  /** A forest is linked if and only if it rises and no node is its own parent. */
  lemma LinkedMeans(root: Roots)
    ensures Linked(root) <==> Rising(root) && forall n :: n in root ==> n.up != n
  {
    if Linked(root) {
      forall n | n in root ensures RisingAt(root, n) && n.up != n { assert NodeOk(root, n) && NodeOk(root, root[n]); }
    }
    if Rising(root) && forall n :: n in root ==> n.up != n {
      forall n | n in root ensures NodeOk(root, n) {
        assert RisingAt(root, n) && RisingAt(root, root[n]);
        if root[n].up != null { RankBelow(root, root[n].up); }
      }
    }
  }

  /** One step of compression. */
  method PointTo(node: Node, r: Node, ghost root: Roots)
    requires Rising(root) && node in root && root[node] == r && node.up != null && node.up != r && node != r
    modifies node`up
    ensures Rising(root) && node.up == r && node.rank == old(node.rank) && node.item == old(node.item)
  {
    assert RisingAt(root, node) && RisingAt(root, node.up) && RisingAt(root, r);
    label before:
    node.up := r;
    forall n | n in root ensures RisingAt(root, n) {
      assert old@before(RisingAt(root, n));
    }
  }

  ghost function Ups(root: Roots): map<Node, Node?>
    reads root.Keys
  {
    map n | n in root :: n.up
  }

  /** The nodes on the path from n up to r, without r. */
  ghost predicate IsWay(way: seq<Node>, up: map<Node, Node?>, n: Node, r: Node) {
    (if way == [] then n == r else n == way[0]) && Climbs(way, up, r) && r !in way
  }

  ghost predicate Climbs(way: seq<Node>, up: map<Node, Node?>, last: Node) {
    forall i :: 0 <= i < |way| ==> way[i] in up && up[way[i]] == if i == |way| - 1 then last else way[i + 1]
  }

  /** The links when those of the way lead to r. */
  ghost function Shortened(up: map<Node, Node?>, way: seq<Node>, r: Node): map<Node, Node?> {
    map n | n in up :: if n in way then r else up[n]
  }

  lemma WayMore(way: seq<Node>, up: map<Node, Node?>, r: Node, node: Node, tmp: Node)
    requires Climbs(way, up, node) && node in up && up[node] == tmp
    ensures Climbs(way + [node], up, tmp) && Shortened(up, way + [node], r) == Shortened(up, way, r)[node := r]
  {
    var more := way + [node];
    forall i | 0 <= i < |more| ensures more[i] in up && up[more[i]] == if i == |more| - 1 then tmp else more[i + 1] {
      if i < |way| { assert way[i] in up && up[way[i]] == if i == |way| - 1 then node else way[i + 1]; }
    }
  }

  /** One step of compression, with the way so far. */
  method Shorten(node: Node, r: Node, ghost root: Roots, ghost up: map<Node, Node?>, ghost way: seq<Node>)
    requires Rising(root) && node in root && root[node] == r && node.up != null && node.up != r && node != r
    requires node !in way
    requires Ups(root) == Shortened(up, way, r) && Climbs(way, up, node)
    modifies node`up
    ensures Rising(root) && node.up == r
    ensures Ups(root) == Shortened(up, way + [node], r) && Climbs(way + [node], up, old(node.up))
  {
    ghost var now, tmp := Ups(root), node.up;
    assert now[node] == tmp && node in up && up[node] == tmp;
    WayMore(way, up, r, node, tmp);
    PointTo(node, r, root);
    assert Ups(root) == now[node := r];
  }

  /** Makes exactly the nodes on the path from node0 to the root r point directly to it. */
  method CompressWay(node0: Node, r: Node, ghost root: Roots) returns (ghost way: seq<Node>)
    requires Rising(root) && node0 in root && root[node0] == r
    modifies root.Keys`up
    ensures Rising(root) && IsWay(way, old(Ups(root)), node0, r) && Ups(root) == Shortened(old(Ups(root)), way, r)
    ensures forall n :: n in way ==> n in root && root[n] == r
  {
    ghost var up := Ups(root);
    var node := node0;
    var tmp := node.up;
    way := [];
    while tmp != r && tmp != null
      invariant Rising(root) && node in root && root[node] == r && tmp == node.up
      invariant Ups(root) == Shortened(up, way, r) && Climbs(way, up, node)
      invariant forall n :: n in way ==> n in root && root[n] == r && n.rank < node.rank && n != r
      invariant if way == [] then node == node0 else way[0] == node0
      decreases r.rank - node.rank
    {
      assert RisingAt(root, node) && RisingAt(root, tmp);
      Shorten(node, r, root, up, way);
      way := way + [node];
      node := tmp;
      tmp := node.up;
    }
    assert RisingAt(root, node);
    if node != r {
      assert Ups(root)[node] == r && up[node] == r;
      WayMore(way, up, r, node, r);
      way := way + [node];
    }
  }

  /** No node changes its root, and the forest stays as sound as it was. */
  method Compress(node0: Node, r: Node, ghost root: Roots) returns (ghost way: seq<Node>)
    requires Rising(root) && node0 in root && root[node0] == r
    modifies root.Keys`up
    ensures Rising(root) && (Linked(root) <==> old(Linked(root))) && (Ranked(root) <==> old(Ranked(root)))
    ensures IsWay(way, old(Ups(root)), node0, r) && Ups(root) == Shortened(old(Ups(root)), way, r)
    ensures forall n :: n in root ==> n.up == if n in way then r else old(n.up)
    ensures (node0 != r ==> node0 in way) && forall n :: n in way ==>
      n in root && root[n] == r && (old(n.up) == r || old(n.up) in way)
    ensures forall n :: n in root ==> (n.up == null <==> old(n.up) == null) && (n.up == n <==> old(n.up) == n)
  {
    LinkedMeans(root);
    ghost var up := Ups(root);
    way := CompressWay(node0, r, root);
    assert node0 != r ==> way[0] in way;
    forall n | n in way ensures n in root && root[n] == r && (old(n.up) == r || old(n.up) in way) {
      var i :| 0 <= i < |way| && way[i] == n;
      assert way[i] in up && up[way[i]] == if i == |way| - 1 then r else way[i + 1];
      assert up[n] == old(n.up);
    }
    forall n | n in root ensures n.up == if n in way then r else old(n.up) {
      assert n.up == Ups(root)[n] && up[n] == old(n.up);
    }
    forall n | n in root ensures (n.up == null <==> old(n.up) == null) && (n.up == n <==> old(n.up) == n) {
      assert old(RisingAt(root, n)) && up[n] == old(n.up) && n.up == Ups(root)[n];
      if n in way {
        var i :| 0 <= i < |way| && way[i] == n;
        assert way[i] in up && up[way[i]] == if i == |way| - 1 then r else way[i + 1];
      }
    }
    LinkedMeans(root);
  }

  /** Two such ways, one after the other. */
  ghost predicate BothShortened(up: map<Node, Node?>, up': map<Node, Node?>, node1: Node, r1: Node, node2: Node,
      r2: Node, way1: seq<Node>, way2: seq<Node>)
  {
    var short := Shortened(up, way1, r1);
    IsWay(way1, up, node1, r1) && IsWay(way2, short, node2, r2) && up' == Shortened(short, way2, r2)
  }

  method CompressBoth(node1: Node, r1: Node, node2: Node, r2: Node, ghost root: Roots)
    returns (ghost way1: seq<Node>, ghost way2: seq<Node>)
    requires Rising(root) && node1 in root && root[node1] == r1 && node2 in root && root[node2] == r2
    modifies root.Keys`up
    ensures Rising(root) && (Linked(root) <==> old(Linked(root))) && (Ranked(root) <==> old(Ranked(root)))
    ensures BothShortened(old(Ups(root)), Ups(root), node1, r1, node2, r2, way1, way2)
    ensures (node1 != r1 ==> node1.up == r1) && (node2 != r2 ==> node2.up == r2)
    ensures forall n :: n in root ==>
      n.up == old(n.up) || (n.up == r1 && root[n] == r1) || (n.up == r2 && root[n] == r2)
    ensures forall n :: n in root ==> (n.up == n <==> old(n.up) == n)
  {
    way1 := Compress(node1, r1, root);
    way2 := Compress(node2, r2, root);
  }

  /** The classes after loser's class has gone into winner's. */
  function Merged(root: Roots, winner: Node, loser: Node): Roots {
    map n | n in root :: if root[n] == loser then winner else root[n]
  }

  lemma MergedSelf(root: Roots, r: Node)
    ensures Merged(root, r, r) == root
  {
  }

  lemma MergedClass(root: Roots, winner: Node, loser: Node)
    requires winner != loser
    ensures Class(Merged(root, winner, loser), winner) == Class(root, winner) + Class(root, loser)
    ensures |Class(Merged(root, winner, loser), winner)| == |Class(root, winner)| + |Class(root, loser)|
    ensures forall r :: r in root && r != winner && r != loser ==>
      Class(Merged(root, winner, loser), r) == Class(root, r)
  {
    assert Class(root, winner) !! Class(root, loser);
  }

  /** The loser hangs below the winner, of higher rank now. */
  lemma MergedLinked(root: Roots, winner: Node, loser: Node, n: Node)
    requires n in root && winner in root && winner != loser && loser in root && root[winner] == winner
    requires winner.up == null && loser.up == winner && loser.rank < winner.rank && n.rank >= 0
    requires if root[n] == loser then n.rank <= loser.rank
      else root[n] in root && root[n].up == null && n.rank <= root[n].rank
    requires n != loser ==>
      if n.up == null then root[n] == n else n.up in root && root[n.up] == root[n] && n.rank < n.up.rank
    requires root[loser] == loser
    ensures NodeOk(Merged(root, winner, loser), n)
  {
  }

  method HangLinked(winner: Node, loser: Node, ghost root: Roots, raise: bool)
    requires Linked(root) && winner in root && loser in root && winner != loser && winner.up == null && loser.up == null
    requires if raise then winner.rank == loser.rank else winner.rank > loser.rank
    modifies winner`rank, loser`up
    ensures Linked(Merged(root, winner, loser)) && loser.up == winner && winner.up == null
    ensures winner.rank == old(winner.rank) + (if raise then 1 else 0) && loser.rank == old(loser.rank)
  {
    assert NodeOk(root, winner) && NodeOk(root, loser);
    label before:
    loser.up := winner;
    if raise { winner.rank := winner.rank + 1; }
    forall n | n in root ensures NodeOk(Merged(root, winner, loser), n) {
      assert old@before(NodeOk(root, n));
      MergedLinked(root, winner, loser, n);
    }
  }

  lemma MergedRanked(root: Roots, winner: Node, loser: Node)
    requires winner in root && loser in root && winner != loser && loser.up == winner
    requires forall r :: r in root && r != winner && r.up == null && r.rank >= 0 ==> |Class(root, r)| >= Pow2(r.rank)
    requires winner.rank >= 0 && |Class(root, winner)| + |Class(root, loser)| >= Pow2(winner.rank)
    ensures Ranked(Merged(root, winner, loser))
  {
    MergedClass(root, winner, loser);
  }

  /** The loser's link is set, and its classes and ranks are right again. */
  method Hang(winner: Node, loser: Node, ghost root: Roots, raise: bool)
    requires Linked(root) && Ranked(root) && winner in root && loser in root && winner != loser && winner.up == null
    requires loser.up == null
    requires if raise then winner.rank == loser.rank else winner.rank > loser.rank
    modifies winner`rank, loser`up
    ensures Linked(Merged(root, winner, loser)) && Ranked(Merged(root, winner, loser))
    ensures Ups(root) == old(Ups(root))[loser := winner] && winner.rank == old(winner.rank) + if raise then 1 else 0
  {
    assert NodeOk(root, winner) && NodeOk(root, loser);
    assert |Class(root, winner)| >= Pow2(winner.rank) && |Class(root, loser)| >= Pow2(loser.rank);
    HangLinked(winner, loser, root, raise);
    MergedRanked(root, winner, loser);
  }

  /** A root becomes its own parent. */
  method HangSelf(r: Node, ghost root: Roots)
    requires Linked(root) && r in root && r.up == null
    modifies r`up, r`rank
    ensures Rising(root) && Ups(root) == old(Ups(root))[r := r] && r.rank == old(r.rank) + 1
  {
    LinkedMeans(root);
    ghost var up := Ups(root);
    assert NodeOk(root, r);
    r.up := r;
    r.rank := r.rank + 1;
    forall n | n in root ensures RisingAt(root, n) { assert old(RisingAt(root, n)); }
    assert Ups(root) == up[r := r];
  }

  lemma SameUps(root: Roots, root': Roots)
    requires root.Keys == root'.Keys
    ensures Ups(root) == Ups(root')
  {
  }

  /** The union by rank of two roots. A root joined with itself becomes its own parent. */
  method Link(root1: Node, root2: Node, ghost root: Roots) returns (newRoot: Node, ghost root': Roots)
    requires Linked(root) && Ranked(root) && root1 in root && root2 in root && root1.up == null && root2.up == null
    modifies root1`up, root1`rank, root2`up, root2`rank
    ensures newRoot == if old(root1.rank >= root2.rank) then root1 else root2
    ensures var loser := if newRoot == root1 then root2 else root1;
      && root' == Merged(root, newRoot, loser) && Ups(root') == old(Ups(root))[loser := newRoot]
      && loser.up == newRoot && forall n :: n in root && n != loser ==> n.up == old(n.up)
    ensures newRoot.rank == old(newRoot.rank) + if old(root1.rank == root2.rank) then 1 else 0
    ensures forall n :: n in root && n != newRoot ==> n.rank == old(n.rank)
    ensures root'.Keys == root.Keys && Rising(root') && (root1 == root2 ==> root1.up == root1)
    ensures root1 != root2 ==> Linked(root') && Ranked(root')
  {
    if root1.rank > root2.rank {
      newRoot, root' := root1, Merged(root, root1, root2);
      Hang(root1, root2, root, false);
    } else if root1.rank < root2.rank {
      newRoot, root' := root2, Merged(root, root2, root1);
      Hang(root2, root1, root, false);
    } else {
      newRoot, root' := root1, Merged(root, root1, root2);
      if root1 != root2 {
        Hang(root1, root2, root, true);
      } else {
        MergedSelf(root, root1);
        HangSelf(root1, root);
        assert Ups(root)[root1] == root1;
      }
    }
    SameUps(root, root');
    LinkedMeans(root');
  }

  /** A node that is its own parent has no root, whatever the classes. */
  lemma SelfLoopBroken(root: Roots, n: Node)
    requires n in root && n.up == n
    ensures !Linked(root)
  {
    assert Linked(root) ==> NodeOk(root, n);
  }

  /** Both paths lead to the same root. */
  method CompressBothTo(node1: Node, node2: Node, r: Node, ghost root: Roots)
    returns (ghost way1: seq<Node>, ghost way2: seq<Node>)
    requires Rising(root) && node1 in root && node2 in root && root[node1] == r == root[node2]
    modifies root.Keys`up
    ensures Rising(root) && (Linked(root) <==> old(Linked(root))) && (Ranked(root) <==> old(Ranked(root)))
    ensures BothShortened(old(Ups(root)), Ups(root), node1, r, node2, r, way1, way2)
    ensures (node1 != r ==> node1.up == r) && (node2 != r ==> node2.up == r)
    ensures forall n :: n in root ==> (n.up == old(n.up) || n.up == r) && (n.up == n <==> old(n.up) == n)
  {
    way1, way2 := CompressBoth(node1, r, node2, r, root);
  }

  /** Links the roots and compresses the paths of two nodes below them towards the new root. */
  method LinkPaths(node1: Node, root1: Node, node2: Node, root2: Node, ghost root: Roots)
    returns (ghost winner: Node, ghost loser: Node, ghost way1: seq<Node>, ghost way2: seq<Node>)
    requires Linked(root) && Ranked(root) && node1 in root && node2 in root && root1 in root && root2 in root
    requires root[node1] == root1 && root[node2] == root2 && root1.up == null && root2.up == null
    modifies root.Keys`up, root.Keys`rank
    ensures (winner, loser) == (if old(root1.rank >= root2.rank) then (root1, root2) else (root2, root1))
    ensures winner.rank == old(winner.rank) + if old(root1.rank == root2.rank) then 1 else 0
    ensures forall n :: n in root && n != winner ==> n.rank == old(n.rank)
    ensures BothShortened(old(Ups(root))[loser := winner], Ups(root), node1, winner, node2, winner, way1, way2)
    ensures loser.up == winner && (node1 != winner ==> node1.up == winner) && (node2 != winner ==> node2.up == winner)
    ensures forall n :: n in root ==> n.up == old(n.up) || n.up == winner
    ensures winner == loser ==> winner.up == winner
    ensures winner != loser ==> var root' := Merged(root, winner, loser); Linked(root') && Ranked(root')
  {
    var newRoot; ghost var root';
    newRoot, root' := Link(root1, root2, root);
    winner, loser := newRoot, if newRoot == root1 then root2 else root1;
    assert root'[node1] == newRoot == root'[node2];
    way1, way2 := CompressBothTo(node1, node2, newRoot, root');
    SameUps(root, root');
  }

  /** Finds both roots, links them, and compresses both paths towards the new root. */
  method JoinRoots(node1: Node, node2: Node, ghost root: Roots)
    returns (ghost winner: Node, ghost loser: Node, ghost way1: seq<Node>, ghost way2: seq<Node>)
    requires Linked(root) && Ranked(root) && node1 in root && node2 in root
    modifies root.Keys`up, root.Keys`rank
    ensures root[node1] in root && root[node2] in root
    ensures var r1, r2 := root[node1], root[node2];
      && (winner, loser) == (if old(r1.rank >= r2.rank) then (r1, r2) else (r2, r1))
      && winner.rank == old(winner.rank) + if old(r1.rank == r2.rank) then 1 else 0
    ensures forall n :: n in root && n != winner ==> n.rank == old(n.rank)
    ensures BothShortened(old(Ups(root))[loser := winner], Ups(root), node1, winner, node2, winner, way1, way2)
    ensures loser.up == winner && (node1 != winner ==> node1.up == winner) && (node2 != winner ==> node2.up == winner)
    ensures forall n :: n in root ==> n.up == old(n.up) || n.up == winner
    ensures winner == loser ==> winner.up == winner
    ensures winner != loser ==> var root' := Merged(root, winner, loser); Linked(root') && Ranked(root')
  {
    var root1, root2 := FindRoots(node1, node2, root);
    winner, loser, way1, way2 := LinkPaths(node1, root1, node2, root2, root);
  }

  // ---- Runs of insertions, joins and queries.

  ghost predicate Among(root: Roots, joins: seq<Pair>) {
    forall k :: 0 <= k < |joins| ==> joins[k].a in root && joins[k].b in root
  }

  /** Two nodes have the same root if and only if the joins make them equivalent. */
  ghost predicate Decides(root: Roots, joins: seq<Pair>) {
    forall a, b {:trigger Same(joins, a, b)} :: a in root && b in root ==> (root[a] == root[b] <==> Same(joins, a, b))
  }

  lemma {:induction false} SameNew(joins: seq<Pair>, n: Node, b: Node)
    requires forall k :: 0 <= k < |joins| ==> joins[k].a != n && joins[k].b != n
    ensures (Same(joins, n, b) <==> n == b) && (Same(joins, b, n) <==> n == b)
  {
    if joins != [] {
      var init, x, y := joins[..|joins| - 1], joins[|joins| - 1].a, joins[|joins| - 1].b;
      SameNew(init, n, b);
      SameNew(init, n, x);
      SameNew(init, n, y);
    }
  }

  lemma DecidesInserted(root: Roots, joins: seq<Pair>, n: Node)
    requires Decides(root, joins) && Among(root, joins) && n !in root && forall m :: m in root ==> root[m] in root
    ensures Decides(root[n := n], joins)
  {
    forall a, b | a in root[n := n] && b in root[n := n]
      ensures root[n := n][a] == root[n := n][b] <==> Same(joins, a, b)
    {
      if a == n { SameNew(joins, n, b); }
      if b == n { SameNew(joins, n, a); }
    }
  }

  lemma DecidesJoined(root: Roots, joins: seq<Pair>, x: Node, y: Node, winner: Node, loser: Node)
    requires Decides(root, joins) && x in root && y in root && root[x] != root[y]
    requires (winner == root[x] && loser == root[y]) || (winner == root[y] && loser == root[x])
    ensures Decides(Merged(root, winner, loser), joins + [Pair(x, y)])
  {
    var joins', root' := joins + [Pair(x, y)], Merged(root, winner, loser);
    assert joins'[..|joins|] == joins;
    forall a, b | a in root' && b in root' ensures root'[a] == root'[b] <==> Same(joins', a, b) {
      assert Same(joins', a, b) <==>
        Same(joins, a, b) || (Same(joins, a, x) && Same(joins, y, b)) || (Same(joins, a, y) && Same(joins, x, b));
    }
  }

  lemma LinkedInserted(root: Roots, n: Node)
    requires Linked(root) && n !in root && n.rank == 0 && n.up == null
    ensures Linked(root[n := n]) && forall m :: m in root ==> root[m] in root
  {
    forall m | m in root ensures root[m] in root && NodeOk(root[n := n], m) { assert NodeOk(root, m); }
  }

  lemma RankedInserted(root: Roots, n: Node)
    requires Ranked(root) && n !in root && n.rank == 0 && forall m :: m in root ==> root[m] in root
    ensures Ranked(root[n := n])
  {
    forall r | r in root[n := n] && r.up == null && r.rank >= 0 ensures |Class(root[n := n], r)| >= Pow2(r.rank) {
      if r == n { assert Class(root[n := n], n) == {n}; } else { assert Class(root[n := n], r) == Class(root, r); }
    }
  }

  /** The nodes in use, the domain of root, and the joins made so far. */
  ghost predicate Sound(root: Roots, joins: seq<Pair>)
    reads root.Keys
  {
    Linked(root) && Ranked(root) && Among(root, joins) && Decides(root, joins)
  }

  lemma Empty()
    ensures Sound(map[], [])
  {
  }

  method Insert(item: int, ghost root: Roots, ghost joins: seq<Pair>) returns (n: Node)
    requires Sound(root, joins)
    ensures fresh(n) && n.item == item && n !in root && Sound(root[n := n], joins)
  {
    n := new Node(item);
    LinkedInserted(root, n);
    DecidesInserted(root, joins, n);
    RankedInserted(root, n);
  }

  /** Decides the equivalence generated by the joins, and compresses both paths. */
  method SameClass(node1: Node, node2: Node, ghost root: Roots, ghost joins: seq<Pair>)
    returns (r: bool, ghost way1: seq<Node>, ghost way2: seq<Node>)
    requires Sound(root, joins) && node1 in root && node2 in root
    modifies root.Keys`up
    ensures Sound(root, joins) && r == Same(joins, node1, node2)
    ensures BothShortened(old(Ups(root)), Ups(root), node1, root[node1], node2, root[node2], way1, way2)
    ensures (node1 != root[node1] ==> node1.up == root[node1]) && (node2 != root[node2] ==> node2.up == root[node2])
    ensures forall n :: n in root ==> n.up == old(n.up) || n.up == root[n]
  {
    var root1, root2 := FindRoots(node1, node2, root);
    LinkedMeans(root);
    way1, way2 := CompressBoth(node1, root1, node2, root2, root);
    r := root1 == root2;
  }

  /** The structure is right afterwards if and only if the nodes were in different classes; a root
      joined with itself has become its own parent, and by SelfLoopBroken no classes fit it. */
  method Join(node1: Node, node2: Node, ghost root: Roots, ghost joins: seq<Pair>)
    returns (ghost root': Roots, ghost winner: Node, ghost loser: Node, ghost way1: seq<Node>, ghost way2: seq<Node>)
    requires Sound(root, joins) && node1 in root && node2 in root
    modifies root.Keys`up, root.Keys`rank
    ensures root'.Keys == root.Keys && (Sound(root', joins + [Pair(node1, node2)]) <==> !Same(joins, node1, node2))
    ensures root[node1] in root && root[node2] in root
    ensures var r1, r2 := root[node1], root[node2];
      && (winner, loser) == (if old(r1.rank >= r2.rank) then (r1, r2) else (r2, r1))
      && winner.rank == old(winner.rank) + if old(r1.rank == r2.rank) then 1 else 0
    ensures forall n :: n in root && n != winner ==> n.rank == old(n.rank)
    ensures BothShortened(old(Ups(root))[loser := winner], Ups(root), node1, winner, node2, winner, way1, way2)
    ensures loser.up == winner && (node1 != winner ==> node1.up == winner) && (node2 != winner ==> node2.up == winner)
    ensures forall n :: n in root ==> n.up == old(n.up) || n.up == winner
    ensures forall n :: n in root ==> n.item == old(n.item)
    ensures Same(joins, node1, node2) ==> winner.up == winner
  {
    assert root[node1] == root[node2] <==> Same(joins, node1, node2);
    winner, loser, way1, way2 := JoinRoots(node1, node2, root);
    root' := Merged(root, winner, loser);
    if winner == loser {
      SelfLoopBroken(root', winner);
    } else {
      SoundJoined(root, joins, node1, node2, winner, loser);
    }
  }

  lemma SoundJoined(root: Roots, joins: seq<Pair>, x: Node, y: Node, winner: Node, loser: Node)
    requires Decides(root, joins) && Among(root, joins) && x in root && y in root && root[x] != root[y]
    requires (winner == root[x] && loser == root[y]) || (winner == root[y] && loser == root[x])
    requires Linked(Merged(root, winner, loser)) && Ranked(Merged(root, winner, loser))
    ensures Sound(Merged(root, winner, loser), joins + [Pair(x, y)])
  {
    DecidesJoined(root, joins, x, y, winner, loser);
  }

  /** The number of steps from n to its root. */
  ghost function Steps(root: Roots, n: Node): nat
    requires Linked(root) && n in root
    reads root.Keys
    decreases (assert NodeOk(root, n); root[n].rank - n.rank)
  {
    assert NodeOk(root, n);
    if n.up == null then 0 else assert NodeOk(root, n.up); 1 + Steps(root, n.up)
  }

  lemma {:induction false} StepsBound(root: Roots, n: Node)
    requires Linked(root) && n in root
    ensures root[n] in root && Steps(root, n) <= root[n].rank - n.rank
    decreases (assert NodeOk(root, n); root[n].rank - n.rank)
  {
    assert NodeOk(root, n);
    if n.up != null {
      assert NodeOk(root, n.up);
      StepsBound(root, n.up);
    }
  }

  /** The rank, and with it the length of every path, is at most the logarithm of the size of the class. */
  lemma RankBound(root: Roots, joins: seq<Pair>, n: Node)
    requires Sound(root, joins) && n in root
    ensures root[n] in root && 0 <= n.rank && n.rank + Steps(root, n) <= root[n].rank
    ensures Pow2(n.rank + Steps(root, n)) <= |Class(root, root[n])|
  {
    assert NodeOk(root, n) && NodeOk(root, root[n]);
    StepsBound(root, n);
    Pow2Monotone(n.rank + Steps(root, n), root[n].rank);
  }
}
