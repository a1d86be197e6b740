/** (2,4)-trees in the heap, and paths down such trees. */
module BlockHeap {
  import opened Prelude
  import opened BlockTree
  import opened BlockNode

  // ---- A tree in the heap.

  function LinkOf(t: Tree): Link {
    match t
    case Item(o) => Obj(o)
    case Block(n, _, _, _) => Down(n)
  }

  function Links(kids: seq<Tree>): (s: seq<Link>)
    ensures |s| == |kids| && forall i :: 0 <= i < |kids| ==> s[i] == LinkOf(kids[i])
  {
    seq(|kids|, i requires 0 <= i < |kids| => LinkOf(kids[i]))
  }

  ghost function Nodes(t: Tree): set<Node>
    decreases t
  {
    if t.Item? then {} else {t.node} + NodesAll(t.kids)
  }

  ghost function NodesAll(kids: seq<Tree>): set<Node>
    decreases kids
  {
    if kids == [] then {} else Nodes(kids[0]) + NodesAll(kids[1..])
  }

  ghost predicate Distinct(t: Tree)
    decreases t
  {
    t.Block? ==> t.node !in NodesAll(t.kids) && DistinctAll(t.kids)
  }

  ghost predicate DistinctAll(kids: seq<Tree>)
    decreases kids
  {
    kids == [] || (Distinct(kids[0]) && DistinctAll(kids[1..]) && Nodes(kids[0]) !! NodesAll(kids[1..]))
  }

  ghost predicate Holds(t: Tree)
    reads Nodes(t)
    decreases t
  {
    t.Block? ==> Local(t.node, t.height, t.keys, Links(t.kids)) && HoldsAll(t.kids)
  }

  ghost predicate HoldsAll(kids: seq<Tree>)
    reads NodesAll(kids)
    decreases kids
  {
    kids == [] || (Holds(kids[0]) && HoldsAll(kids[1..]))
  }

  lemma {:induction false} NodesConcat(a: seq<Tree>, b: seq<Tree>)
    ensures NodesAll(a + b) == NodesAll(a) + NodesAll(b)
  {
    if a == [] {
      assert a + b == b;
    } else {
      assert (a + b)[1..] == a[1..] + b;
      NodesConcat(a[1..], b);
    }
  }

  lemma {:induction false} DistinctConcat(a: seq<Tree>, b: seq<Tree>)
    ensures DistinctAll(a + b) <==> DistinctAll(a) && DistinctAll(b) && NodesAll(a) !! NodesAll(b)
  {
    if a == [] {
      assert a + b == b;
    } else {
      assert (a + b)[1..] == a[1..] + b;
      DistinctConcat(a[1..], b);
      NodesConcat(a[1..], b);
    }
  }

  lemma {:induction false} HoldsConcat(a: seq<Tree>, b: seq<Tree>)
    ensures HoldsAll(a + b) <==> HoldsAll(a) && HoldsAll(b)
  {
    if a == [] {
      assert a + b == b;
    } else {
      assert (a + b)[1..] == a[1..] + b;
      HoldsConcat(a[1..], b);
    }
  }

  lemma {:induction false} Allocated(t: Tree)
    ensures forall o :: o in Nodes(t) ==> allocated(o)
    decreases t
  {
    if t.Block? { AllocatedAll(t.kids); }
  }

  lemma {:induction false} AllocatedAll(kids: seq<Tree>)
    ensures forall o :: o in NodesAll(kids) ==> allocated(o)
    decreases kids
  {
    if kids != [] {
      Allocated(kids[0]);
      AllocatedAll(kids[1..]);
    }
  }

  /** The heap holds these trees, each apart from the others. */
  ghost predicate Own(kids: seq<Tree>)
    reads NodesAll(kids)
  {
    HoldsAll(kids) && DistinctAll(kids)
  }

  lemma OwnConcat(a: seq<Tree>, b: seq<Tree>)
    ensures Own(a + b) <==> Own(a) && Own(b) && NodesAll(a) !! NodesAll(b)
    ensures NodesAll(a + b) == NodesAll(a) + NodesAll(b)
  {
    NodesConcat(a, b);
    DistinctConcat(a, b);
    HoldsConcat(a, b);
  }

  lemma OwnOne(t: Tree)
    ensures Own([t]) <==> Holds(t) && Distinct(t)
    ensures NodesAll([t]) == Nodes(t)
  {
    var s := [t];
    assert s[1..] == [] && s[0] == t;
    assert NodesAll(s) == Nodes(t) + NodesAll(s[1..]);
    assert DistinctAll(s[1..]) && HoldsAll(s[1..]) && NodesAll(s[1..]) == {};
  }

  /** Taking one tree out of a row. */
  lemma OwnAround(left: seq<Tree>, t: Tree, right: seq<Tree>)
    ensures Own(left + [t] + right) <==>
      && Own(left) && Own(right) && Holds(t) && Distinct(t)
      && NodesAll(left) !! Nodes(t) && NodesAll(left) !! NodesAll(right) && Nodes(t) !! NodesAll(right)
    ensures NodesAll(left + [t] + right) == NodesAll(left) + Nodes(t) + NodesAll(right)
  {
    OwnOne(t);
    OwnConcat(left, [t]);
    OwnConcat(left + [t], right);
  }

  // ---- Paths.

  /** The row of a block around a hole. */
  datatype Path = Top | Step(up: Path, node: Node, height: nat, keys: seq<int>, left: seq<Tree>, right: seq<Tree>)

  function Parent(p: Path, t: Tree): Tree
    requires p.Step?
  {
    Block(p.node, p.height, p.keys, p.left + [t] + p.right)
  }

  function Plug(p: Path, t: Tree): Tree
    decreases p
  {
    if p.Top? then t else Plug(p.up, Parent(p, t))
  }

  ghost function PathNodes(p: Path): set<Node> {
    if p.Top? then {} else {p.node} + NodesAll(p.left) + NodesAll(p.right) + PathNodes(p.up)
  }

  ghost predicate PathDistinct(p: Path) {
    p.Step? ==>
      && DistinctAll(p.left) && DistinctAll(p.right) && PathDistinct(p.up)
      && p.node !in NodesAll(p.left) + NodesAll(p.right) + PathNodes(p.up)
      && NodesAll(p.left) !! NodesAll(p.right) && NodesAll(p.left) + NodesAll(p.right) !! PathNodes(p.up)
  }

  ghost predicate PathHolds(p: Path, hole: Node)
    reads PathNodes(p)
  {
    p.Step? ==>
      && Local(p.node, p.height, p.keys, Links(p.left) + [Down(hole)] + Links(p.right))
      && HoldsAll(p.left) && HoldsAll(p.right) && PathHolds(p.up, p.node)
  }

  ghost predicate At(p: Path, t: Tree)
    reads PathNodes(p) + Nodes(t)
  {
    t.Block? && PathHolds(p, t.node) && Holds(t) && PathDistinct(p) && Distinct(t) && PathNodes(p) !! Nodes(t)
  }

  lemma {:induction false} PathAllocated(p: Path)
    ensures forall o :: o in PathNodes(p) ==> allocated(o)
  {
    if p.Step? {
      AllocatedAll(p.left);
      AllocatedAll(p.right);
      PathAllocated(p.up);
    }
  }

  lemma LinksAround(left: seq<Tree>, t: Tree, right: seq<Tree>)
    ensures Links(left + [t] + right) == Links(left) + [LinkOf(t)] + Links(right)
  {
  }

  lemma StepUp(p: Path, t: Tree)
    requires At(p, t) && p.Step?
    ensures At(p.up, Parent(p, t)) && Plug(p.up, Parent(p, t)) == Plug(p, t)
    ensures PathNodes(p.up) + Nodes(Parent(p, t)) == PathNodes(p) + Nodes(t)
  {
    OwnAround(p.left, t, p.right);
    LinksAround(p.left, t, p.right);
  }

  function DownPath(p: Path, t: Tree, i: nat): Path
    requires t.Block? && i < |t.kids|
  {
    Step(p, t.node, t.height, t.keys, t.kids[..i], t.kids[i + 1..])
  }

  lemma StepDown(p: Path, t: Tree, i: nat)
    requires At(p, t) && i < |t.kids| && t.kids[i].Block?
    ensures At(DownPath(p, t, i), t.kids[i]) && Plug(DownPath(p, t, i), t.kids[i]) == Plug(p, t)
    ensures PathNodes(DownPath(p, t, i)) + Nodes(t.kids[i]) == PathNodes(p) + Nodes(t)
  {
    SplitSeq(t.kids, i, t.kids[i], t.kids[i]);
    OwnAround(t.kids[..i], t.kids[i], t.kids[i + 1..]);
    LinksAround(t.kids[..i], t.kids[i], t.kids[i + 1..]);
  }

  lemma {:induction false} PlugHolds(p: Path, t: Tree)
    requires At(p, t)
    ensures At(Top, Plug(p, t)) && Nodes(Plug(p, t)) == PathNodes(p) + Nodes(t)
  {
    if p.Step? {
      StepUp(p, t);
      PlugHolds(p.up, Parent(p, t));
    }
  }

  lemma {:induction false} PlugNode(p: Path, t: Tree, u: Tree)
    requires t.Block? && u.Block? && t.node == u.node
    ensures Plug(p, t).Block? && Plug(p, u).Block? && Plug(p, t).node == Plug(p, u).node
  {
    if p.Step? { PlugNode(p.up, Parent(p, t), Parent(p, u)); }
  }

  // ---- Shape, order and contents of the whole tree, by path and subtree.

  /** Everything along the path has its shape, around a block of height h. */
  predicate PathShaped(p: Path, h: nat) {
    p.Step? ==>
      && p.height == h + 1 && A <= |p.keys| == |p.left| + 1 + |p.right| <= B
      && Entries(p.left, h + 1) && Entries(p.right, h + 1) && PathShaped(p.up, h + 1)
  }

  lemma {:induction false} PlugShaped(p: Path, t: Tree)
    requires t.Block? && PathShaped(p, t.height) && if p.Top? then Shaped(t) else Entry(t, t.height + 1)
    ensures Shaped(Plug(p, t))
  {
    if p.Step? {
      var v := Parent(p, t);
      assert Entries(v.kids, v.height);
      assert Shaped(v) && Entry(v, v.height + 1);
      PlugShaped(p.up, v);
    }
  }

  function Lo(p: Path): Option<int> {
    if p.Top? || |p.left| >= |p.keys| then None else LowOf(p.keys, |p.left|, Lo(p.up))
  }

  function Hi(p: Path): Option<int> {
    if p.Top? || |p.left| >= |p.keys| then None else HighOf(p.keys, |p.left|, Hi(p.up))
  }

  /** The rows along the path are in order, whatever is in the hole. */
  predicate PathInRange(p: Path) {
    p.Step? ==> p.height > 0 && InRange(Parent(p, Item(0)), Lo(p.up), Hi(p.up)) && PathInRange(p.up)
  }

  lemma HoleFilled(p: Path, t: Tree)
    requires p.Step? && p.height > 0
    ensures InRange(Parent(p, t), Lo(p.up), Hi(p.up)) <==>
      InRange(Parent(p, Item(0)), Lo(p.up), Hi(p.up)) && InRange(t, Lo(p), Hi(p))
  {
    var i, u, v := |p.left|, Parent(p, Item(0)), Parent(p, t);
    assert v.kids == u.kids[i := t] && u.kids == v.kids[i := Item(0)];
    if InRange(v, Lo(p.up), Hi(p.up)) {
      KidReplaced(v, i, Item(0), Lo(p.up), Hi(p.up));
      assert InRange(v.kids[i], LowOf(v.keys, i, Lo(p.up)), HighOf(v.keys, i, Hi(p.up)));
    } else if InRange(u, Lo(p.up), Hi(p.up)) && InRange(t, Lo(p), Hi(p)) {
      KidReplaced(u, i, t, Lo(p.up), Hi(p.up));
    }
  }

  lemma {:induction false} PlugInRange(p: Path, t: Tree, h: nat)
    requires PathShaped(p, h)
    ensures InRange(Plug(p, t), None, None) <==> PathInRange(p) && InRange(t, Lo(p), Hi(p))
  {
    if p.Step? {
      HoleFilled(p, t);
      PlugInRange(p.up, Parent(p, t), h + 1);
    }
  }

  /** The contents of a block around one of its entries. */
  lemma ParentContents(p: Path, t: Tree)
    requires p.Step? && p.height > 0 && |p.keys| == |p.left| + 1 + |p.right|
    ensures var i := |p.left|;
      Contents(Parent(p, t)) == ContentsIn(p.height, p.keys[..i], p.left) + Contents(t) +
        ContentsIn(p.height, p.keys[i + 1..], p.right)
  {
    var i := |p.left|;
    SplitSeq(p.keys, i, p.keys[i], p.keys[i]);
    ContentsAround(p.height, p.keys[..i], p.keys[i], p.keys[i + 1..], p.left, t, p.right);
  }

  lemma {:induction false} PlugContents(p: Path, t: Tree, u: Tree, h: nat)
    requires PathShaped(p, h) && Contents(t) == Contents(u)
    ensures Contents(Plug(p, t)) == Contents(Plug(p, u))
  {
    if p.Step? {
      ParentContents(p, t);
      ParentContents(p, u);
      PlugContents(p.up, Parent(p, t), Parent(p, u), h + 1);
    }
  }

  lemma MapInsertedInside(a: map<int, int>, b: map<int, int>, b': map<int, int>, c: map<int, int>, k: int, v: int)
    requires b' == b[k := v] && k !in a + b + c
    ensures a + b' + c == (a + b + c)[k := v]
  {
  }

  lemma MapDeletedInside(a: map<int, int>, b: map<int, int>, b': map<int, int>, c: map<int, int>, k: int)
    requires b' == b - {k} && k !in a && k !in c
    ensures a + b' + c == (a + b + c) - {k}
  {
  }

  lemma {:induction false} PlugInserted(p: Path, t: Tree, u: Tree, k: int, v: int, h: nat)
    requires PathShaped(p, h) && Contents(u) == Contents(t)[k := v] && k !in Contents(Plug(p, t))
    ensures Contents(Plug(p, u)) == Contents(Plug(p, t))[k := v]
  {
    if p.Step? {
      ParentContents(p, t);
      ParentContents(p, u);
      var i := |p.left|;
      NotInside(p.up, Parent(p, t), k, h + 1);
      MapInsertedInside(ContentsIn(p.height, p.keys[..i], p.left), Contents(t), Contents(u),
                        ContentsIn(p.height, p.keys[i + 1..], p.right), k, v);
      PlugInserted(p.up, Parent(p, t), Parent(p, u), k, v, h + 1);
    }
  }

  /** What is not in the whole is not in a part. */
  lemma {:induction false} NotInside(p: Path, t: Tree, k: int, h: nat)
    requires PathShaped(p, h) && k !in Contents(Plug(p, t))
    ensures k !in Contents(t)
  {
    if p.Step? {
      NotInside(p.up, Parent(p, t), k, h + 1);
      ParentContents(p, t);
    }
  }

  /** The search for k comes to the hole. */
  predicate OnPath(p: Path, k: int) {
    p.Step? ==> IsIndex(p.keys, k, |p.left|) && OnPath(p.up, k)
  }

  /** A key whose search comes by is in no other entry of the row. */
  lemma NotBeside(p: Path, t: Tree, k: int)
    requires p.Step? && p.height > 0 && InRange(Parent(p, t), Lo(p.up), Hi(p.up)) && IsIndex(p.keys, k, |p.left|)
    ensures var i := |p.left|;
      k !in ContentsIn(p.height, p.keys[..i], p.left) && k !in ContentsIn(p.height, p.keys[i + 1..], p.right)
  {
    var i, v := |p.left|, Parent(p, t);
    if k in ContentsIn(p.height, p.keys[..i], p.left) {
      var j := EntryOf(p.height, p.keys[..i], p.left, k);
      KeysInRange(v.kids[j], LowOf(v.keys, j, Lo(p.up)), HighOf(v.keys, j, Hi(p.up)), k);
    } else if k in ContentsIn(p.height, p.keys[i + 1..], p.right) {
      var j := EntryOf(p.height, p.keys[i + 1..], p.right, k);
      KeysInRange(v.kids[i + 1 + j], LowOf(v.keys, i + 1 + j, Lo(p.up)), HighOf(v.keys, i + 1 + j, Hi(p.up)), k);
    }
  }

  lemma {:induction false} PlugDeleted(p: Path, t: Tree, u: Tree, k: int, h: nat)
    requires PathShaped(p, h) && InRange(Plug(p, t), None, None) && OnPath(p, k) && Contents(u) == Contents(t) - {k}
    ensures Contents(Plug(p, u)) == Contents(Plug(p, t)) - {k}
  {
    if p.Step? {
      PlugInRange(p.up, Parent(p, t), h + 1);
      NotBeside(p, t, k);
      ParentContents(p, t);
      ParentContents(p, u);
      var i := |p.left|;
      MapDeletedInside(ContentsIn(p.height, p.keys[..i], p.left), Contents(t), Contents(u),
                       ContentsIn(p.height, p.keys[i + 1..], p.right), k);
      PlugDeleted(p.up, Parent(p, t), Parent(p, u), k, h + 1);
    }
  }

  /** The whole tree has a key whose search comes by if and only if the subtree has it. */
  lemma {:induction false} PlugFound(p: Path, t: Tree, k: int, h: nat)
    requires PathShaped(p, h) && InRange(Plug(p, t), None, None) && OnPath(p, k)
    ensures k in Contents(Plug(p, t)) <==> k in Contents(t)
    ensures k in Contents(t) ==> Contents(Plug(p, t))[k] == Contents(t)[k]
  {
    if p.Step? {
      PlugInRange(p.up, Parent(p, t), h + 1);
      NotBeside(p, t, k);
      ParentContents(p, t);
      PlugFound(p.up, Parent(p, t), k, h + 1);
    }
  }

  lemma {:induction false} OnPathBounds(p: Path, k: int, h: nat)
    requires PathShaped(p, h) && OnPath(p, k)
    ensures Below(Lo(p), k) && Above(k, Hi(p))
  {
    if p.Step? { OnPathBounds(p.up, k, h + 1); }
  }
}
