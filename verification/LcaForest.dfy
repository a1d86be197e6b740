/** The growing forests of ch6/lca_find.c with their lists of forward pointers, and the search for
    the lowest common ancestor. Tree nodes are numbered in order of creation. */
module LcaForest {
  import opened Prelude

  // ---- Forests as values: parent[x] is the number of the parent of x, or -1.

  predicate Grown(parent: seq<int>) {
    forall x :: 0 <= x < |parent| ==> -1 <= parent[x] < x
  }

  function Depth(parent: seq<int>, x: int): (d: nat)
    requires Grown(parent) && 0 <= x < |parent|
    decreases x
  {
    if parent[x] < 0 then 0 else 1 + Depth(parent, parent[x])
  }

  /** The ancestor n steps up, or -1 if the path to the root is shorter. */
  function Anc(parent: seq<int>, x: int, n: nat): (r: int)
    requires Grown(parent) && -1 <= x < |parent|
    ensures -1 <= r <= x
    decreases n
  {
    if n == 0 || x < 0 then x else Anc(parent, parent[x], n - 1)
  }

  lemma {:induction false} AncAdd(parent: seq<int>, x: int, m: nat, n: nat)
    requires Grown(parent) && -1 <= x < |parent|
    ensures Anc(parent, x, m + n) == Anc(parent, Anc(parent, x, m), n)
    decreases m
  {
    if m > 0 && x >= 0 { AncAdd(parent, parent[x], m - 1, n); }
  }

  lemma {:induction false} AncDepth(parent: seq<int>, x: int, n: nat)
    requires Grown(parent) && 0 <= x < |parent|
    ensures Anc(parent, x, n) >= 0 <==> n <= Depth(parent, x)
    ensures n <= Depth(parent, x) ==> Depth(parent, Anc(parent, x, n)) == Depth(parent, x) - n
    decreases n
  {
    if n > 0 && parent[x] >= 0 { AncDepth(parent, parent[x], n - 1); }
  }

  /** A new leaf changes nothing for the nodes there are. */
  lemma {:induction false} AncGrown(parent: seq<int>, p: int, x: int, n: nat)
    requires Grown(parent) && -1 <= p < |parent| && -1 <= x < |parent|
    ensures Grown(parent + [p]) && Anc(parent + [p], x, n) == Anc(parent, x, n)
    decreases n
  {
    if n > 0 && x >= 0 { AncGrown(parent, p, parent[x], n - 1); }
  }

  lemma {:induction false} DepthGrown(parent: seq<int>, p: int, x: int)
    requires Grown(parent) && -1 <= p < |parent| && 0 <= x < |parent|
    ensures Grown(parent + [p]) && Depth(parent + [p], x) == Depth(parent, x)
    decreases x
  {
    if parent[x] >= 0 { DepthGrown(parent, p, parent[x]); }
  }

  /** A chain of parents from x. */
  ghost predicate Chain(parent: seq<int>, c: seq<int>, x: int) {
    c != [] && c[0] == x && (forall i :: 0 <= i < |c| ==> 0 <= c[i] < |parent|)
    && forall i :: 0 < i < |c| ==> c[i] == parent[c[i - 1]]
  }

  /** The ancestor n steps up is the end of the chain of n parents, if there is such a chain. */
  lemma {:induction false} AncIsChain(parent: seq<int>, x: int, n: nat)
    requires Grown(parent) && 0 <= x < |parent|
    ensures forall c :: Chain(parent, c, x) && |c| == n + 1 ==> Anc(parent, x, n) == c[n]
    ensures Anc(parent, x, n) >= 0 ==> exists c :: Chain(parent, c, x) && |c| == n + 1
  {
    if n == 0 {
      assert Chain(parent, [x], x);
    } else {
      AncIsChain(parent, x, n - 1);
      forall c | Chain(parent, c, x) && |c| == n + 1 ensures Anc(parent, x, n) == c[n] {
        assert Chain(parent, c[..n], x);
        OneUp(parent, x, n - 1);
      }
      if Anc(parent, x, n) >= 0 {
        AncDepth(parent, x, n);
        AncDepth(parent, x, n - 1);
        var c :| Chain(parent, c, x) && |c| == n;
        OneUp(parent, x, n - 1);
        assert Chain(parent, c + [Anc(parent, x, n)], x);
      }
    }
  }

  ghost predicate IsAncestor(parent: seq<int>, c: int, x: int)
    requires Grown(parent) && 0 <= x < |parent|
  {
    c >= 0 && exists n: nat :: Anc(parent, x, n) == c
  }

  /** c is a common ancestor, and every common ancestor is an ancestor of c. */
  ghost predicate IsLca(parent: seq<int>, x: int, y: int, c: int)
    requires Grown(parent) && 0 <= x < |parent| && 0 <= y < |parent|
  {
    && 0 <= c < |parent| && IsAncestor(parent, c, x) && IsAncestor(parent, c, y)
    && forall d :: IsAncestor(parent, d, x) && IsAncestor(parent, d, y) ==> d < |parent| && IsAncestor(parent, d, c)
  }

  // ---- The proof that the search finds it.

  /** Where two ancestors of the same depth differ, common ancestors are further up. */
  lemma CommonAbove(parent: seq<int>, x: int, y: int, m: nat, n: nat, d: int) returns (i: nat)
    requires Grown(parent) && 0 <= x < |parent| && 0 <= y < |parent| && IsAncestor(parent, d, x)
    requires IsAncestor(parent, d, y)
    requires var u, v := Anc(parent, x, m), Anc(parent, y, n);
      0 <= u && 0 <= v && u != v && Depth(parent, u) == Depth(parent, v)
    ensures i > m && Anc(parent, x, i) == d
  {
    i :| Anc(parent, x, i) == d;
    var j: nat :| Anc(parent, y, j) == d;
    AncDepth(parent, x, i);
    AncDepth(parent, y, j);
    AncDepth(parent, x, m);
    AncDepth(parent, y, n);
    if i <= m {
      AncAdd(parent, x, i, m - i);
      AncAdd(parent, y, j, m - i);
    }
  }

  /** Such ancestors with the same parent: it is the lowest common ancestor. */
  lemma SiblingsLca(parent: seq<int>, x: int, y: int, m: nat, n: nat)
    requires Grown(parent) && 0 <= x < |parent| && 0 <= y < |parent|
    requires var u, v := Anc(parent, x, m), Anc(parent, y, n);
      0 <= u && 0 <= v && u != v && Depth(parent, u) == Depth(parent, v) && parent[u] == parent[v] >= 0
    ensures IsLca(parent, x, y, parent[Anc(parent, x, m)])
  {
    var u, v := Anc(parent, x, m), Anc(parent, y, n);
    var c := parent[u];
    OneUp(parent, x, m);
    OneUp(parent, y, n);
    forall d | IsAncestor(parent, d, x) && IsAncestor(parent, d, y) ensures d < |parent| && IsAncestor(parent, d, c) {
      var i := CommonAbove(parent, x, y, m, n, d);
      AncAdd(parent, x, m + 1, i - m - 1);
    }
  }

  lemma OneUp(parent: seq<int>, x: int, m: nat)
    requires Grown(parent) && 0 <= x < |parent| && Anc(parent, x, m) >= 0
    ensures Anc(parent, x, m + 1) == parent[Anc(parent, x, m)]
  {
    AncAdd(parent, x, m, 1);
    var u := Anc(parent, x, m);
    assert Anc(parent, u, 1) == Anc(parent, parent[u], 0);
  }

  /** Ancestors at depth 0 that differ: the nodes are in different trees. */
  lemma RootsApart(parent: seq<int>, x: int, y: int, m: nat, n: nat, d: int)
    requires Grown(parent) && 0 <= x < |parent| && 0 <= y < |parent|
    requires var u, v := Anc(parent, x, m), Anc(parent, y, n);
      0 <= u && 0 <= v && u != v && Depth(parent, u) == Depth(parent, v) == 0
    ensures !(IsAncestor(parent, d, x) && IsAncestor(parent, d, y))
  {
    if IsAncestor(parent, d, x) && IsAncestor(parent, d, y) {
      var i := CommonAbove(parent, x, y, m, n, d);
      AncDepth(parent, x, i);
      AncDepth(parent, x, m);
    }
  }

  lemma SelfLca(parent: seq<int>, x: int, y: int, m: nat)
    requires Grown(parent) && 0 <= x < |parent| && 0 <= y < |parent| && Anc(parent, x, m) == y
    ensures IsLca(parent, x, y, y)
  {
    assert Anc(parent, y, 0) == y;
  }

  // ---- The lists of forward pointers.

  /** A node of a list: level k of the list of tree node id. */
  class Node {
    var depth: int
    var item: int
    var up: Node?
    var next: Node?
    var prev: Node?
    ghost const id: nat
    ghost const level: nat

    constructor (depth: int, item: int, up: Node?, prev: Node?, ghost id: nat, ghost level: nat)
      ensures this.depth == depth && this.item == item && this.up == up && this.prev == prev && this.next == null
      ensures this.id == id && this.level == level
    {
      this.depth, this.item, this.up, this.prev, this.next, this.id, this.level := depth, item, up, prev, null, id,
        level;
    }
  }

  type Lists = seq<seq<Node>>

  /** Level k of a list points to level k of the list 2^k generations up, if there is one. */
  ghost predicate NodeOk(parent: seq<int>, lists: Lists, i: int, k: int)
    requires Grown(parent) && |lists| == |parent| && 0 <= i < |lists| && 0 <= k < |lists[i]|
    reads lists[i][k]
  {
    var n := lists[i][k];
    && n.id == i && n.level == k && n.depth == Depth(parent, i)
    && n.prev == (if k == 0 then null else lists[i][k - 1])
    && n.next == (if k + 1 < |lists[i]| then lists[i][k + 1] else null)
    && n.up == Target(parent, lists, i, k) && (Pow2(k) <= Depth(parent, i) ==> n.up != null)
  }

  ghost function Target(parent: seq<int>, lists: Lists, i: int, k: nat): Node?
    requires Grown(parent) && |lists| == |parent| && 0 <= i < |lists|
  {
    var a := Anc(parent, i, Pow2(k));
    if 0 <= a && k < |lists[a]| then lists[a][k] else null
  }

  /** All nodes are linked up. */
  ghost predicate Linked(parent: seq<int>, lists: Lists, repr: set<Node>)
    reads repr
  {
    && Grown(parent) && |lists| == |parent|
    && (forall i :: 0 <= i < |lists| ==> forall k :: 0 <= k < |lists[i]| ==> lists[i][k] in repr)
    && forall i, k {:trigger NodeOk(parent, lists, i, k)} :: 0 <= i < |lists| && 0 <= k < |lists[i]| ==>
      NodeOk(parent, lists, i, k)
  }

  /** List i has a level for every power of two up to the depth of its node. */
  ghost predicate Tall(parent: seq<int>, lists: Lists, i: int)
    requires Grown(parent) && |lists| == |parent| && 0 <= i < |lists|
  {
    lists[i] != [] && forall k: nat :: Pow2(k) <= Depth(parent, i) ==> k < |lists[i]|
  }

  ghost predicate Complete(parent: seq<int>, lists: Lists) {
    Grown(parent) && |lists| == |parent| && forall i :: 0 <= i < |lists| ==> Tall(parent, lists, i)
  }

  /** The forest as the heap holds it. */
  ghost predicate Sound(parent: seq<int>, lists: Lists, repr: set<Node>)
    reads repr
  {
    Linked(parent, lists, repr) && Complete(parent, lists)
  }

  // ---- The search.

  /** The pointer at level k leads 2^k generations up. */
  lemma FollowUp(parent: seq<int>, lists: Lists, repr: set<Node>, i: int, k: nat)
    requires Linked(parent, lists, repr) && 0 <= i < |lists| && k < |lists[i]| && Pow2(k) <= Depth(parent, i)
    ensures var a := Anc(parent, i, Pow2(k));
      0 <= a && k < |lists[a]| && lists[i][k].up == lists[a][k] && Depth(parent, a) == Depth(parent, i) - Pow2(k)
  {
    assert NodeOk(parent, lists, i, k);
    AncDepth(parent, i, Pow2(k));
  }

  lemma FollowNext(parent: seq<int>, lists: Lists, repr: set<Node>, i: int, k: nat)
    requires Sound(parent, lists, repr) && 0 <= i < |lists| && k < |lists[i]| && Pow2(k + 1) <= Depth(parent, i)
    ensures k + 1 < |lists[i]| && lists[i][k].next == lists[i][k + 1]
  {
    assert Tall(parent, lists, i) && NodeOk(parent, lists, i, k);
  }

  /** d steps of 2^k generations. */
  function Steps(d: nat, k: nat): nat
    decreases k
  {
    if k == 0 then d else Steps(2 * d, k - 1)
  }

  lemma {:induction false} StepsAdd(c: nat, d: nat, k: nat)
    ensures Steps(c + d, k) == Steps(c, k) + Steps(d, k)
    decreases k
  {
    if k > 0 { StepsAdd(2 * c, 2 * d, k - 1); }
  }

  lemma {:induction false} OneStep(k: nat)
    ensures Steps(1, k) == Pow2(k) && Steps(0, k) == 0
  {
    if k > 0 {
      OneStep(k - 1);
      StepsAdd(1, 1, k - 1);
    }
  }

  /** Halving the distance: diff steps of 2^k are diff / 2 steps of 2^(k + 1), and one of 2^k if diff is odd. */
  lemma HalveStep(diff: nat, k: nat)
    requires diff > 1
    ensures Steps(diff, k) == Steps(diff / 2, k + 1) + if diff % 2 == 1 then Pow2(k) else 0
    ensures Steps(diff / 2, k + 1) >= Pow2(k + 1) == 2 * Pow2(k)
  {
    StepsAdd(2 * (diff / 2), diff % 2, k);
    OneStep(k);
    OneStep(k + 1);
    StepsAdd(1, diff / 2 - 1, k + 1);
  }

  /** Moves node1 up by the difference in depth. */
  method Lift(node1: Node, diff0: nat, ghost x: int, ghost parent: seq<int>, ghost lists: Lists, ghost repr: set<Node>)
    returns (node: Node, ghost z: int)
    requires Sound(parent, lists, repr) && 0 <= x < |lists| && lists[x] != [] && node1 == lists[x][0]
    requires diff0 <= Depth(parent, x)
    ensures z == Anc(parent, x, diff0) && 0 <= z && lists[z] != [] && node == lists[z][0]
  {
    var diff := diff0;
    node := node1;
    z := x;
    ghost var k: nat := 0;
    ghost var done: nat := 0;
    while diff > 1
      invariant z == Anc(parent, x, done) && 0 <= z && k < |lists[z]| && node == lists[z][k]
      invariant done + Steps(diff, k) == diff0 && Depth(parent, z) == Depth(parent, x) - done
      decreases diff
    {
      HalveStep(diff, k);
      if diff % 2 == 1 {
        FollowUp(parent, lists, repr, z, k);
        AncAdd(parent, x, done, Pow2(k));
        z := Anc(parent, z, Pow2(k));
        done := done + Pow2(k);
        FollowNext(parent, lists, repr, z, k);
        node := node.up.next;
      } else {
        FollowNext(parent, lists, repr, z, k);
        node := node.next;
      }
      k := k + 1;
      diff := diff / 2;
    }
    OneStep(k);
    if diff == 1 {
      FollowUp(parent, lists, repr, z, k);
      AncAdd(parent, x, done, Pow2(k));
      z := Anc(parent, z, Pow2(k));
      node := node.up;
    }
    node := Rewind(node, z, k, parent, lists, repr);
  }

  /** Back to the beginning of a list. */
  method Rewind(node0: Node, ghost z: int, ghost k0: nat, ghost parent: seq<int>, ghost lists: Lists,
      ghost repr: set<Node>)
    returns (node: Node)
    requires Linked(parent, lists, repr) && 0 <= z < |lists| && k0 < |lists[z]| && node0 == lists[z][k0]
    ensures node == lists[z][0]
  {
    node := node0;
    ghost var k := k0;
    assert NodeOk(parent, lists, z, k);
    while node.prev != null
      invariant 0 <= k < |lists[z]| && node == lists[z][k] && NodeOk(parent, lists, z, k)
      decreases k
    {
      node := node.prev;
      k := k - 1;
      assert NodeOk(parent, lists, z, k);
    }
  }

  /** What is wanted: the lowest common ancestor of x and y, or null in different trees. */
  ghost predicate Answer(parent: seq<int>, lists: Lists, x: int, y: int, r: Node?)
    requires Grown(parent) && |lists| == |parent| && 0 <= x < |parent| && 0 <= y < |parent|
  {
    if r == null then forall d :: !(IsAncestor(parent, d, x) && IsAncestor(parent, d, y))
    else exists c :: IsLca(parent, x, y, c) && lists[c] != [] && r == lists[c][0]
  }

  /** The nodes u and v, at the same depth above x and y, differ. */
  ghost predicate Apart(parent: seq<int>, x: int, y: int, m: nat, n: nat, u: int, v: int)
    requires Grown(parent) && 0 <= x < |parent| && 0 <= y < |parent|
  {
    u == Anc(parent, x, m) && v == Anc(parent, y, n) && 0 <= u && 0 <= v && u != v &&
      Depth(parent, u) == Depth(parent, v)
  }

  lemma ApartUp(parent: seq<int>, x: int, y: int, m: nat, n: nat, u: int, v: int, s: nat)
    requires Grown(parent) && 0 <= x < |parent| && 0 <= y < |parent| && Apart(parent, x, y, m, n, u, v)
    requires s <= Depth(parent, u) && Anc(parent, u, s) != Anc(parent, v, s)
    ensures Apart(parent, x, y, m + s, n + s, Anc(parent, u, s), Anc(parent, v, s))
  {
    AncAdd(parent, x, m, s);
    AncAdd(parent, y, n, s);
    AncDepth(parent, u, s);
    AncDepth(parent, v, s);
  }

  /** One level back on both sides. */
  method StepBack(node1: Node, node2: Node, ghost u: int, ghost v: int, ghost k: nat, ghost parent: seq<int>,
      ghost lists: Lists, ghost repr: set<Node>)
    returns (n1: Node, n2: Node)
    requires Linked(parent, lists, repr) && 0 <= u < |lists| && 0 <= v < |lists| && 0 < k < |lists[u]| && k < |lists[v]|
    requires node1 == lists[u][k] && node2 == lists[v][k]
    ensures n1 == lists[u][k - 1] && n2 == lists[v][k - 1]
  {
    FollowPrev(parent, lists, repr, u, k);
    FollowPrev(parent, lists, repr, v, k);
    n1, n2 := node1.prev, node2.prev;
  }

  /** One level back. */
  lemma FollowPrev(parent: seq<int>, lists: Lists, repr: set<Node>, i: int, k: nat)
    requires Linked(parent, lists, repr) && 0 <= i < |lists| && 0 < k < |lists[i]|
    ensures lists[i][k].prev == lists[i][k - 1]
  {
    assert NodeOk(parent, lists, i, k);
  }

  /** The same up pointer if and only if the same ancestor. */
  lemma SameUp(parent: seq<int>, lists: Lists, repr: set<Node>, u: int, v: int, k: nat)
    requires Linked(parent, lists, repr) && 0 <= u < |lists| && 0 <= v < |lists| && k < |lists[u]| && k < |lists[v]|
    requires Pow2(k) <= Depth(parent, u) == Depth(parent, v)
    ensures lists[u][k].up == lists[v][k].up <==> Anc(parent, u, Pow2(k)) == Anc(parent, v, Pow2(k))
  {
    FollowUp(parent, lists, repr, u, k);
    FollowUp(parent, lists, repr, v, k);
    var a, b := Anc(parent, u, Pow2(k)), Anc(parent, v, Pow2(k));
    assert NodeOk(parent, lists, a, k) && NodeOk(parent, lists, b, k);
  }

  /** The way to the top level that the depth allows. */
  method Widen(node1: Node, node2: Node, depth: int, ghost u: int, ghost v: int, ghost parent: seq<int>,
      ghost lists: Lists, ghost repr: set<Node>)
    returns (n1: Node, n2: Node, step: nat, ghost k: nat)
    requires Sound(parent, lists, repr) && 0 <= u < |lists| && 0 <= v < |lists| && lists[u] != [] && lists[v] != []
    requires node1 == lists[u][0] && node2 == lists[v][0] && Depth(parent, u) == Depth(parent, v) == depth
    ensures k < |lists[u]| && k < |lists[v]| && n1 == lists[u][k] && n2 == lists[v][k] && step == Pow2(k)
  {
    n1, n2, step, k := node1, node2, 1, 0;
    while depth >= 2 * step
      invariant k < |lists[u]| && k < |lists[v]| && n1 == lists[u][k] && n2 == lists[v][k] && step == Pow2(k)
      decreases depth - step
    {
      FollowNext(parent, lists, repr, u, k);
      FollowNext(parent, lists, repr, v, k);
      n1, n2, step, k := n1.next, n2.next, step * 2, k + 1;
    }
  }

  /** The exponential search, from two different nodes of the same depth. */
  method Search(node1: Node, node2: Node, ghost x: int, ghost y: int, ghost m0: nat, ghost u0: int,
                ghost parent: seq<int>, ghost lists: Lists, ghost repr: set<Node>)
    returns (r: Node?)
    requires Sound(parent, lists, repr) && 0 <= x < |lists| && 0 <= y < |lists| && Apart(parent, x, y, m0, 0, u0, y)
    requires lists[u0] != [] && lists[y] != [] && node1 == lists[u0][0] && node2 == lists[y][0]
    ensures Answer(parent, lists, x, y, r)
  {
    ghost var u, v := u0, y;
    ghost var m: nat, n: nat := m0, 0;
    assert NodeOk(parent, lists, u0, 0);
    var depth := node1.depth;
    var n1: Node, n2: Node, step: nat; ghost var k: nat;
    n1, n2, step, k := Widen(node1, node2, depth, u, v, parent, lists, repr);
    while depth >= 1
      invariant Apart(parent, x, y, m, n, u, v) && depth == Depth(parent, u)
      invariant k < |lists[u]| && k < |lists[v]| && n1 == lists[u][k] && n2 == lists[v][k] && step == Pow2(k)
      decreases depth + step
    {
      if step > depth {
        n1, n2 := StepBack(n1, n2, u, v, k, parent, lists, repr);
        step, k := step / 2, k - 1;
      } else {
        SameUp(parent, lists, repr, u, v, k);
        FollowUp(parent, lists, repr, u, k);
        FollowUp(parent, lists, repr, v, k);
        if n1.up != n2.up {
          ApartUp(parent, x, y, m, n, u, v, Pow2(k));
          u, v, m, n := Anc(parent, u, Pow2(k)), Anc(parent, v, Pow2(k)), m + Pow2(k), n + Pow2(k);
          n1, n2, depth := n1.up, n2.up, depth - step;
        } else if step > 1 {
          n1, n2 := StepBack(n1, n2, u, v, k, parent, lists, repr);
          step, k := step / 2, k - 1;
        } else {
          ParentOfBoth(parent, x, y, m, n, u, v);
          return n1.up;
        }
      }
    }
    forall d ensures !(IsAncestor(parent, d, x) && IsAncestor(parent, d, y)) { RootsApart(parent, x, y, m, n, d); }
    r := null;
  }

  lemma ParentOfBoth(parent: seq<int>, x: int, y: int, m: nat, n: nat, u: int, v: int)
    requires Grown(parent) && 0 <= x < |parent| && 0 <= y < |parent| && Apart(parent, x, y, m, n, u, v)
    requires Depth(parent, u) >= 1 && Anc(parent, u, 1) == Anc(parent, v, 1)
    ensures IsLca(parent, x, y, Anc(parent, u, 1))
  {
    assert Anc(parent, u, 1) == Anc(parent, parent[u], 0) && Anc(parent, v, 1) == Anc(parent, parent[v], 0);
    SiblingsLca(parent, x, y, m, n);
  }

  lemma AnswerSymmetric(parent: seq<int>, lists: Lists, x: int, y: int, r: Node?)
    requires Grown(parent) && |lists| == |parent| && 0 <= x < |parent| && 0 <= y < |parent|
    requires Answer(parent, lists, x, y, r)
    ensures Answer(parent, lists, y, x, r)
  {
    if r != null {
      var c :| IsLca(parent, x, y, c) && lists[c] != [] && r == lists[c][0];
      assert IsLca(parent, y, x, c);
    }
  }

  /** The search from x, the deeper node, and y. */
  method LcaBelow(node1: Node, node2: Node, ghost x: int, ghost y: int, ghost parent: seq<int>, ghost lists: Lists,
      ghost repr: set<Node>)
    returns (r: Node?)
    requires Sound(parent, lists, repr) && 0 <= x < |lists| && 0 <= y < |lists| && lists[x] != [] && lists[y] != []
    requires node1 == lists[x][0] && node2 == lists[y][0] && Depth(parent, x) >= Depth(parent, y)
    ensures Answer(parent, lists, x, y, r)
  {
    assert NodeOk(parent, lists, x, 0) && NodeOk(parent, lists, y, 0);
    var diff := node1.depth - node2.depth;
    var n1; ghost var z;
    n1, z := Lift(node1, diff, x, parent, lists, repr);
    assert NodeOk(parent, lists, z, 0) && NodeOk(parent, lists, y, 0);
    AncDepth(parent, x, diff);
    if n1 == node2 {
      SelfLca(parent, x, y, diff);
      return n1;
    }
    r := Search(n1, node2, x, y, diff, z, parent, lists, repr);
  }

  method Lca(node1: Node, node2: Node, ghost x: int, ghost y: int, ghost parent: seq<int>, ghost lists: Lists,
      ghost repr: set<Node>)
    returns (r: Node?)
    requires Sound(parent, lists, repr) && 0 <= x < |lists| && 0 <= y < |lists| && lists[x] != [] && lists[y] != []
    requires node1 == lists[x][0] && node2 == lists[y][0]
    ensures Answer(parent, lists, x, y, r)
  {
    assert NodeOk(parent, lists, x, 0) && NodeOk(parent, lists, y, 0);
    if node1.depth < node2.depth {
      r := LcaBelow(node2, node1, y, x, parent, lists, repr);
      AnswerSymmetric(parent, lists, y, x, r);
    } else {
      r := LcaBelow(node1, node2, x, y, parent, lists, repr);
    }
  }

  // ---- Growing the forest.

  /** No list that has level k already waits for level k of list a. */
  ghost predicate Unawaited(parent: seq<int>, lists: Lists, a: int, k: nat)
    requires Grown(parent) && |lists| == |parent|
  {
    forall j :: 0 <= j < |lists| && k < |lists[j]| ==> Anc(parent, j, Pow2(k)) != a
  }

  lemma TargetKept(parent: seq<int>, lists: Lists, a: int, n: Node, i: int, k: nat)
    requires Grown(parent) && |lists| == |parent| && 0 <= a < |lists| && Unawaited(parent, lists, a, |lists[a]|)
    requires 0 <= i < |lists| && k < |lists[i]|
    ensures Target(parent, lists[a := lists[a] + [n]], i, k) == Target(parent, lists, i, k)
  {
  }

  /** Appends a node to list a. */
  method Append(last: Node, n: Node, ghost a: int, ghost parent: seq<int>, ghost lists: Lists, ghost repr: set<Node>)
    requires Linked(parent, lists, repr) && 0 <= a < |lists| && lists[a] != [] && last == lists[a][|lists[a]| - 1]
    requires n !in repr
    requires n.id == a && n.level == |lists[a]| && n.depth == Depth(parent, a) && n.prev == last && n.next == null
    requires n.up == Target(parent, lists[a := lists[a] + [n]], a, |lists[a]|)
    requires Pow2(|lists[a]|) <= Depth(parent, a) ==> n.up != null
    requires Unawaited(parent, lists, a, |lists[a]|)
    modifies last`next
    ensures Linked(parent, lists[a := lists[a] + [n]], repr + {n})
  {
    ghost var k := |lists[a]|;
    ghost var lists' := lists[a := lists[a] + [n]];
    assert NodeOk(parent, lists, a, k - 1);
    label before:
    last.next := n;
    forall i, j | 0 <= i < |lists'| && 0 <= j < |lists'[i]| ensures NodeOk(parent, lists', i, j) {
      if i != a || j < k {
        assert old@before(NodeOk(parent, lists, i, j));
        TargetKept(parent, lists, a, n, i, j);
      }
    }
  }

  /** Lists only grow at the end. */
  ghost predicate Extends(lists: Lists, lists': Lists) {
    |lists'| == |lists| && forall j :: 0 <= j < |lists| ==> lists[j] <= lists'[j]
  }

  /** All lists but the last have their levels. */
  ghost predicate CompleteBut(parent: seq<int>, lists: Lists, i: int) {
    Grown(parent) && |lists| == |parent| && forall j :: 0 <= j < |lists| && j != i ==> Tall(parent, lists, j)
  }

  lemma CompleteExtends(parent: seq<int>, lists: Lists, lists': Lists, i: int)
    requires CompleteBut(parent, lists, i) && Extends(lists, lists')
    ensures CompleteBut(parent, lists', i)
  {
    forall j | 0 <= j < |lists'| && j != i ensures Tall(parent, lists', j) {
      assert Tall(parent, lists, j);
    }
  }

  /** The 2^(k + 1)-th ancestor by two steps of 2^k. */
  lemma TwoSteps(parent: seq<int>, lists: Lists, repr: set<Node>, i: int, k: nat)
    requires Linked(parent, lists, repr) && 0 <= i < |lists| && k < |lists[i]| && Pow2(k + 1) <= Depth(parent, i)
    ensures var b, a := Anc(parent, i, Pow2(k)), Anc(parent, i, Pow2(k + 1));
      && 0 <= b < i && 0 <= a < i && k < |lists[b]| && k < |lists[a]|
      && lists[i][k].up == lists[b][k] && lists[b][k].up == lists[a][k]
  {
    AncAdd(parent, i, Pow2(k), Pow2(k));
    FollowUp(parent, lists, repr, i, k);
    FollowUp(parent, lists, repr, Anc(parent, i, Pow2(k)), k);
    AncLess(parent, i, Pow2(k));
    AncLess(parent, i, Pow2(k + 1));
  }

  lemma AncLess(parent: seq<int>, x: int, n: nat)
    requires Grown(parent) && 0 <= x < |parent| && n > 0
    ensures Anc(parent, x, n) < x
  {
  }

  /** A list that lacks level k is awaited by none that has it: their pointers at level k would lead there. */
  lemma LackUnawaited(parent: seq<int>, lists: Lists, repr: set<Node>, a: int)
    requires Linked(parent, lists, repr) && 0 <= a < |lists|
    ensures Unawaited(parent, lists, a, |lists[a]|)
  {
    var k := |lists[a]|;
    forall j | 0 <= j < |lists| && k < |lists[j]| ensures Anc(parent, j, Pow2(k)) != a {
      assert NodeOk(parent, lists, j, k);
      AncDepth(parent, j, Pow2(k));
    }
  }

  /** Sees to it that list a has a level after k; a new one is a target only, without pointer up. */
  method EnsureNext(w: Node, ghost a: int, ghost k: nat, ghost parent: seq<int>, ghost lists: Lists,
      ghost repr: set<Node>)
    returns (ghost lists': Lists, ghost repr': set<Node>)
    requires Linked(parent, lists, repr) && 0 <= a < |lists| && k < |lists[a]| && w == lists[a][k]
    requires Tall(parent, lists, a)
    modifies repr`next
    ensures Linked(parent, lists', repr') && Extends(lists, lists') && k + 1 < |lists'[a]| && w.next == lists'[a][k + 1]
    ensures forall j :: 0 <= j < |lists| && j != a ==> lists'[j] == lists[j]
    ensures repr <= repr' && forall o :: o in repr' && o !in repr ==> fresh(o)
  {
    lists', repr' := lists, repr;
    assert NodeOk(parent, lists, a, k);
    if w.next == null {
      var target := new Node(w.depth, 0, null, w, a, k + 1);
      LackUnawaited(parent, lists, repr, a);
      NoTarget(parent, lists, a, target);
      Append(w, target, a, parent, lists, repr);
      lists' := lists[a := lists[a] + [target]];
      repr' := repr + {target};
    }
    assert NodeOk(parent, lists', a, k);
  }

  lemma NoTarget(parent: seq<int>, lists: Lists, a: int, n: Node)
    requires Grown(parent) && |lists| == |parent| && 0 <= a < |lists| && Tall(parent, lists, a)
    ensures Pow2(|lists[a]|) > Depth(parent, a) && Target(parent, lists[a := lists[a] + [n]], a, |lists[a]|) == null
  {
    AncDepth(parent, a, Pow2(|lists[a]|));
  }

  /** One turn of the loop of add_leaf: level k + 1 of the list of the new leaf i. */
  method AddForward(tmp: Node, ghost i: int, ghost k: nat, ghost parent: seq<int>, ghost lists: Lists,
      ghost repr: set<Node>)
    returns (n: Node, ghost lists': Lists, ghost repr': set<Node>)
    requires Linked(parent, lists, repr) && CompleteBut(parent, lists, i) && i == |lists| - 1 && 0 <= i
    requires |lists[i]| == k + 1 && tmp == lists[i][k] && Pow2(k + 1) <= Depth(parent, i)
    modifies repr`next
    ensures Linked(parent, lists', repr') && Extends(lists, lists') && |lists'[i]| == k + 2 && n == lists'[i][k + 1]
    ensures repr <= repr' && forall o :: o in repr' && o !in repr ==> fresh(o)
  {
    TwoSteps(parent, lists, repr, i, k);
    ghost var a := Anc(parent, i, Pow2(k + 1));
    ghost var lists1, repr1;
    lists1, repr1 := EnsureNext(tmp.up.up, a, k, parent, lists, repr);
    TwoSteps(parent, lists1, repr1, i, k);
    assert NodeOk(parent, lists1, i, k);
    n := new Node(tmp.depth, 0, tmp.up.up.next, tmp, i, k + 1);
    LackUnawaited(parent, lists1, repr1, i);
    assert Target(parent, lists1[i := lists1[i] + [n]], i, k + 1) == lists1[a][k + 1];
    Append(tmp, n, i, parent, lists1, repr1);
    lists' := lists1[i := lists1[i] + [n]];
    repr' := repr1 + {n};
  }

  /** The loop counter of add_leaf: d halved k times. */
  function Half(d: nat, k: nat): nat
    decreases k
  {
    if k == 0 then d else Half(d / 2, k - 1)
  }

  lemma {:induction false} HalfNext(d: nat, k: nat)
    ensures Half(d, k + 1) == Half(d, k) / 2
    decreases k
  {
    if k > 0 { HalfNext(d / 2, k - 1); }
  }

  lemma {:induction false} HalfPow(d: nat, k: nat)
    ensures Half(d, k) >= 1 <==> Pow2(k) <= d
    decreases k
  {
    if k > 0 { HalfPow(d / 2, k - 1); }
  }

  /** A list of k + 1 levels is enough when 2^(k + 1) exceeds the depth. */
  lemma TallEnough(parent: seq<int>, lists: Lists, i: int, k: nat)
    requires Grown(parent) && |lists| == |parent| && 0 <= i < |lists| && |lists[i]| == k + 1
    requires Pow2(k + 1) > Depth(parent, i)
    ensures Tall(parent, lists, i)
  {
    forall l: nat | Pow2(l) <= Depth(parent, i) ensures l < |lists[i]| {
      if l >= k + 1 { Pow2Monotone(k + 1, l); }
    }
  }

  /** The lists of the forest with a new node, whose own list is begun. */
  lemma BeginList(parent: seq<int>, lists: Lists, repr: set<Node>, p: int, n: Node)
    requires Sound(parent, lists, repr) && -1 <= p < |parent| && (p >= 0 ==> lists[p] != [])
    requires n.id == |parent| && n.level == 0 && n.depth == (if p < 0 then 0 else Depth(parent, p) + 1)
    requires n.prev == null && n.next == null
    requires n.up == if p < 0 then null else lists[p][0]
    ensures Linked(parent + [p], lists + [[n]], repr + {n}) && CompleteBut(parent + [p], lists + [[n]], |parent|)
    ensures Depth(parent + [p], |parent|) == n.depth
  {
    var parent', lists', m := parent + [p], lists + [[n]], |parent|;
    AncGrown(parent, p, -1, 0);
    if p >= 0 { DepthGrown(parent, p, p); }
    assert Anc(parent', m, 1) == Anc(parent', p, 0);
    forall i, k | 0 <= i < |lists'| && 0 <= k < |lists'[i]| ensures NodeOk(parent', lists', i, k) {
      if i < m {
        assert NodeOk(parent, lists, i, k);
        AncGrown(parent, p, i, Pow2(k));
        DepthGrown(parent, p, i);
      } else {
        assert Pow2(0) == 1;
      }
    }
    BeginComplete(parent, lists, p, n);
  }

  lemma BeginComplete(parent: seq<int>, lists: Lists, p: int, n: Node)
    requires Complete(parent, lists) && -1 <= p < |parent|
    ensures CompleteBut(parent + [p], lists + [[n]], |parent|)
  {
    AncGrown(parent, p, -1, 0);
    forall j | 0 <= j < |parent| ensures Tall(parent + [p], lists + [[n]], j) {
      DepthGrown(parent, p, j);
      assert Tall(parent, lists, j);
    }
  }

  /** The loop of add_leaf. */
  method AddLevels(leaf: Node, ghost i: int, ghost parent: seq<int>, ghost lists0: Lists, ghost repr0: set<Node>)
    returns (ghost lists: Lists, ghost repr: set<Node>)
    requires Linked(parent, lists0, repr0) && CompleteBut(parent, lists0, i) && i == |lists0| - 1 && 0 <= i
    requires |lists0[i]| == 1 && leaf == lists0[i][0] && leaf.depth == Depth(parent, i)
    modifies repr0`next
    ensures Sound(parent, lists, repr) && Extends(lists0, lists)
    ensures repr0 <= repr && forall o :: o in repr && o !in repr0 ==> fresh(o)
  {
    lists, repr := lists0, repr0;
    var tmp, count := leaf, leaf.depth;
    ghost var k: nat := 0;
    HalfPow(Depth(parent, i), 1);
    HalfNext(Depth(parent, i), 0);
    while count > 1
      invariant Linked(parent, lists, repr) && Extends(lists0, lists) && |lists[i]| == k + 1 && tmp == lists[i][k]
      invariant repr0 <= repr && forall o :: o in repr && o !in repr0 ==> fresh(o)
      invariant count == Half(Depth(parent, i), k) && (count > 1 <==> Pow2(k + 1) <= Depth(parent, i))
      decreases count
    {
      CompleteExtends(parent, lists0, lists, i);
      tmp, lists, repr := AddForward(tmp, i, k, parent, lists, repr);
      k := k + 1;
      count := count / 2;
      HalfNext(Depth(parent, i), k - 1);
      HalfNext(Depth(parent, i), k);
      HalfPow(Depth(parent, i), k + 1);
    }
    CompleteExtends(parent, lists0, lists, i);
    TallEnough(parent, lists, i, k);
  }

  class Forest {
    ghost var parent: seq<int>
    ghost var lists: Lists
    ghost var repr: set<Node>

    ghost predicate Valid()
      reads this, repr
    {
      Sound(parent, lists, repr)
    }

    /** The node is a tree node of the forest: its number is node.id. */
    ghost predicate Has(node: Node)
      reads this
    {
      node.id < |lists| && lists[node.id] != [] && node == lists[node.id][0]
    }

    constructor ()
      ensures Valid() && parent == [] && repr == {}
    {
      parent, lists, repr := [], [], {};
    }

    method CreateTree(item: int) returns (node: Node)
      requires Valid()
      modifies this
      ensures Valid() && parent == old(parent) + [-1] && node.id == |old(parent)| && Has(node) && node.item == item
      ensures (forall o :: o in old(repr) && old(Has(o)) ==> Has(o))
      ensures forall o :: o in repr && o !in old(repr) ==> fresh(o)
    {
      node := new Node(0, item, null, null, |parent|, 0);
      BeginList(parent, lists, repr, -1, node);
      parent, lists, repr := parent + [-1], lists + [[node]], repr + {node};
      TallEnough(parent, lists, |parent| - 1, 0);
    }

    method AddLeaf(node: Node, item: int) returns (leaf: Node)
      requires Valid() && Has(node)
      modifies this, repr`next
      ensures Valid() && parent == old(parent) + [node.id] && leaf.id == |old(parent)| && Has(leaf) && leaf.item == item
      ensures forall o :: o in old(repr) ==> o.item == old(o.item) && o.depth == old(o.depth)
      ensures (forall o :: o in old(repr) && old(Has(o)) ==> Has(o))
      ensures forall o :: o in repr && o !in old(repr) ==> fresh(o)
    {
      assert NodeOk(parent, lists, node.id, 0);
      leaf := new Node(node.depth + 1, item, node, null, |parent|, 0);
      BeginList(parent, lists, repr, node.id, leaf);
      ghost var parent1, lists1, repr1 := parent + [node.id as int], lists + [[leaf]], repr + {leaf};
      ghost var lists2, repr2 := AddLevels(leaf, |parent|, parent1, lists1, repr1);
      parent, lists, repr := parent1, lists2, repr2;
    }

    /** The lowest common ancestor, or null for nodes of different trees. */
    method Lowest(node1: Node, node2: Node) returns (r: Node?)
      requires Valid() && Has(node1) && Has(node2)
      ensures r == null ==> forall d :: !(IsAncestor(parent, d, node1.id) && IsAncestor(parent, d, node2.id))
      ensures r != null ==> Has(r) && IsAncestor(parent, r.id, node1.id) && IsAncestor(parent, r.id, node2.id)
      ensures r != null ==>
        forall d :: IsAncestor(parent, d, node1.id) && IsAncestor(parent, d, node2.id) ==> IsAncestor(parent, d, r.id)
    {
      r := Lca(node1, node2, node1.id, node2.id, parent, lists, repr);
      if r != null {
        ghost var c :| IsLca(parent, node1.id, node2.id, c) && lists[c] != [] && r == lists[c][0];
        assert NodeOk(parent, lists, c, 0);
      }
    }
  }
}
