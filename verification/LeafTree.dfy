/** Leaf trees on the heap, shared by the search trees of chapters 3 and 4.

    In these trees objects sit only in the leaves. A leaf is a node without right pointer;
    an interior node's key separates its subtrees: left < key <= right. All updates are made
    in place: rotations and leaf splits copy contents so that the address of a subtree's
    root, and in particular of the whole tree, never changes.

    A ghost Tree records the shape together with the address of each node; Holds says that
    the heap is laid out that way. */
module LeafTree {
  import opened Prelude

  /** The node record; info is the balance information of the tree at hand. The object pointer
      that the C code keeps in the left field of a leaf has a field of its own. */
  class Node<A> {
    var key: int
    var left: Node?<A>
    var right: Node?<A>
    var obj: Option<int>
    var info: A

    constructor (key: int, obj: Option<int>, info: A)
      ensures this.key == key && this.obj == obj && this.info == info && left == null && right == null
    {
      this.key, this.obj, this.info := key, obj, info;
      left, right := null, null;
    }
  }

  datatype Tree<A> =
    | Leaf(node: Node<A>, key: int, obj: int, info: A)
    | Fork(node: Node<A>, key: int, info: A, left: Tree<A>, right: Tree<A>)

  ghost function Nodes<A>(t: Tree<A>): (s: set<Node<A>>)
    ensures t.node in s
  {
    match t
    case Leaf(n, _, _, _) => {n}
    case Fork(n, _, _, l, r) => {n} + Nodes(l) + Nodes(r)
  }

  /** The nodes of an existing tree exist. */
  lemma {:induction false} Allocated<A>(t: Tree<A>)
    ensures forall o :: o in Nodes(t) ==> allocated(o)
  {
    if t.Fork? {
      Allocated(t.left);
      Allocated(t.right);
    }
  }

  /** The nodes of t are distinct. */
  ghost predicate Distinct<A>(t: Tree<A>) {
    match t
    case Leaf(_, _, _, _) => true
    case Fork(n, _, _, l, r) =>
      n !in Nodes(l) && n !in Nodes(r) && Nodes(l) !! Nodes(r) && Distinct(l) && Distinct(r)
  }

  /** The heap holds t. */
  ghost predicate Holds<A>(t: Tree<A>)
    reads Nodes(t)
  {
    match t
    case Leaf(n, k, o, a) => n.key == k && n.obj == Some(o) && n.info == a && n.left == null && n.right == null
    case Fork(n, k, a, l, r) =>
      && n.key == k && n.info == a && n.left == l.node && n.right == r.node
      && Holds(l) && Holds(r)
  }

  // ---- Order and lookup.

  predicate Below(lo: Option<int>, k: int) {
    lo.Some? ==> lo.value <= k
  }

  predicate Above(k: int, hi: Option<int>) {
    hi.Some? ==> k < hi.value
  }

  /** All keys lie in [lo, hi), and every separator splits its subtree's keys. */
  predicate InRange<A>(t: Tree<A>, lo: Option<int>, hi: Option<int>) {
    match t
    case Leaf(_, k, _, _) => Below(lo, k) && Above(k, hi)
    case Fork(_, k, _, l, r) => InRange(l, lo, Some(k)) && InRange(r, Some(k), hi)
  }

  function LeafCount<A>(t: Tree<A>): nat {
    match t
    case Leaf(_, _, _, _) => 1
    case Fork(_, _, _, l, r) => LeafCount(l) + LeafCount(r)
  }

  function Depth<A>(t: Tree<A>): nat {
    match t
    case Leaf(_, _, _, _) => 0
    case Fork(_, _, _, l, r) => 1 + if Depth(l) > Depth(r) then Depth(l) else Depth(r)
  }

  /** The number of steps in which a search for q comes to a leaf. */
  function Steps<A>(t: Tree<A>, q: int): nat {
    match t
    case Leaf(_, _, _, _) => 0
    case Fork(_, k, _, l, r) => 1 + Steps(if q < k then l else r, q)
  }

  /** No search takes more steps than the depth, and in an ordered tree some search takes as many. */
  lemma {:induction false} StepsWithinDepth<A>(t: Tree<A>, lo: Option<int>, hi: Option<int>, q: int) returns (k: int)
    requires InRange(t, lo, hi)
    ensures Steps(t, q) <= Depth(t) && Below(lo, k) && Above(k, hi) && Steps(t, k) == Depth(t)
  {
    if t.Leaf? {
      k := t.key;
    } else {
      var l := StepsWithinDepth(t.left, lo, Some(t.key), q);
      var r := StepsWithinDepth(t.right, Some(t.key), hi, q);
      k := if Depth(t.left) > Depth(t.right) then l else r;
    }
  }

  function MinKey<A>(t: Tree<A>): int {
    match t
    case Leaf(_, k, _, _) => k
    case Fork(_, _, _, l, _) => MinKey(l)
  }

  /** Every separator is the smallest key to its right. */
  predicate Tight<A>(t: Tree<A>) {
    t.Fork? ==> Tight(t.left) && Tight(t.right) && MinKey(t.right) == t.key
  }

  predicate Ordered<A>(t: Tree<A>) {
    InRange(t, None, None)
  }

  /** The object found by following the search path of key q. */
  function Lookup<A>(t: Tree<A>, q: int): Option<int> {
    match t
    case Leaf(_, k, o, _) => if k == q then Some(o) else None
    case Fork(_, k, _, l, r) => if q < k then Lookup(l, q) else Lookup(r, q)
  }

  /** The key-object pairs in the leaves. */
  function Contents<A>(t: Tree<A>): map<int, int> {
    match t
    case Leaf(_, k, o, _) => map[k := o]
    case Fork(_, _, _, l, r) => Contents(l) + Contents(r)
  }

  lemma {:induction false} KeysInRange<A>(t: Tree<A>, lo: Option<int>, hi: Option<int>, q: int)
    requires InRange(t, lo, hi) && q in Contents(t)
    ensures Below(lo, q) && Above(q, hi)
  {
    match t
    case Leaf(_, _, _, _) =>
    case Fork(_, k, _, l, r) =>
      RangeNonempty(l, lo, Some(k));
      RangeNonempty(r, Some(k), hi);
      if q in Contents(r) { KeysInRange(r, Some(k), hi, q); } else { KeysInRange(l, lo, Some(k), q); }
  }

  lemma {:induction false} RangeNonempty<A>(t: Tree<A>, lo: Option<int>, hi: Option<int>)
    requires InRange(t, lo, hi)
    ensures lo.Some? && hi.Some? ==> lo.value < hi.value
    ensures t.Fork? ==> Below(lo, t.key) && Above(t.key, hi)
  {
    if t.Fork? {
      RangeNonempty(t.left, lo, Some(t.key));
      RangeNonempty(t.right, Some(t.key), hi);
    }
  }

  /** In an ordered tree the search path finds exactly the pairs in the leaves. */
  lemma {:induction false} LookupIsContents<A>(t: Tree<A>, lo: Option<int>, hi: Option<int>, q: int)
    requires InRange(t, lo, hi)
    ensures Lookup(t, q) == if q in Contents(t) then Some(Contents(t)[q]) else None
  {
    match t
    case Leaf(_, _, _, _) =>
    case Fork(_, k, _, l, r) =>
      LookupIsContents(l, lo, Some(k), q);
      LookupIsContents(r, Some(k), hi, q);
      if q in Contents(l) { KeysInRange(l, lo, Some(k), q); }
      if q in Contents(r) { KeysInRange(r, Some(k), hi, q); }
  }

  // ---- Rotations.

  /** The shape after a left rotation: key and children move, the information fields stay with
      their nodes, and the node at the root stays the same. */
  function RotatedLeft<A>(t: Tree<A>): Tree<A>
    requires t.Fork? && t.right.Fork?
  {
    var m := t.right;
    Fork(t.node, m.key, t.info, Fork(m.node, t.key, m.info, t.left, m.left), m.right)
  }

  function RotatedRight<A>(t: Tree<A>): Tree<A>
    requires t.Fork? && t.left.Fork?
  {
    var m := t.left;
    Fork(t.node, m.key, t.info, m.left, Fork(m.node, t.key, m.info, m.right, t.right))
  }

  method LeftRotation<A>(n: Node<A>, ghost t: Tree<A>)
    requires t.Fork? && t.right.Fork? && t.node == n && Holds(t) && Distinct(t)
    modifies n, t.right.node
    ensures Holds(RotatedLeft(t)) && Distinct(RotatedLeft(t)) && Nodes(RotatedLeft(t)) == Nodes(t)
  {
    var tmpNode := n.left;
    var tmpKey := n.key;
    n.left := n.right;
    n.key := n.right.key;
    n.right := n.left.right;
    n.left.right := n.left.left;
    n.left.left := tmpNode;
    n.left.key := tmpKey;
  }

  method RightRotation<A>(n: Node<A>, ghost t: Tree<A>)
    requires t.Fork? && t.left.Fork? && t.node == n && Holds(t) && Distinct(t)
    modifies n, t.left.node
    ensures Holds(RotatedRight(t)) && Distinct(RotatedRight(t)) && Nodes(RotatedRight(t)) == Nodes(t)
  {
    var tmpNode := n.right;
    var tmpKey := n.key;
    n.right := n.left;
    n.key := n.left.key;
    n.left := n.right.left;
    n.right.left := n.right.right;
    n.right.right := tmpNode;
    n.right.key := tmpKey;
  }

  /** A left rotation keeps the order and changes no lookup. */
  lemma RotatedLeftSame<A>(t: Tree<A>, lo: Option<int>, hi: Option<int>)
    requires t.Fork? && t.right.Fork? && InRange(t, lo, hi)
    ensures InRange(RotatedLeft(t), lo, hi) && forall q :: Lookup(RotatedLeft(t), q) == Lookup(t, q)
  {
    RangeNonempty(t.right, Some(t.key), hi);
  }

  lemma RotatedRightSame<A>(t: Tree<A>, lo: Option<int>, hi: Option<int>)
    requires t.Fork? && t.left.Fork? && InRange(t, lo, hi)
    ensures InRange(RotatedRight(t), lo, hi) && forall q :: Lookup(RotatedRight(t), q) == Lookup(t, q)
  {
    RangeNonempty(t.left, lo, Some(t.key));
  }

  /** The double rotations: first at a child, then at the node itself. */
  function DoublyRotatedRight<A>(t: Tree<A>): Tree<A>
    requires t.Fork? && t.left.Fork? && t.left.right.Fork?
  {
    RotatedRight(Fork(t.node, t.key, t.info, RotatedLeft(t.left), t.right))
  }

  function DoublyRotatedLeft<A>(t: Tree<A>): Tree<A>
    requires t.Fork? && t.right.Fork? && t.right.left.Fork?
  {
    RotatedLeft(Fork(t.node, t.key, t.info, t.left, RotatedRight(t.right)))
  }

  method LeftRightRotation<A>(n: Node<A>, ghost t: Tree<A>)
    requires t.Fork? && t.left.Fork? && t.left.right.Fork? && t.node == n && Holds(t) && Distinct(t)
    modifies n, t.left.node, t.left.right.node
    ensures Holds(DoublyRotatedRight(t)) && Distinct(DoublyRotatedRight(t)) && Nodes(DoublyRotatedRight(t)) == Nodes(t)
  {
    Allocated(t.right);
    LeftRotation(n.left, t.left);
    ghost var t1 := Fork(t.node, t.key, t.info, RotatedLeft(t.left), t.right);
    assert Nodes(t1) == Nodes(t);
    RightRotation(n, t1);
  }

  method RightLeftRotation<A>(n: Node<A>, ghost t: Tree<A>)
    requires t.Fork? && t.right.Fork? && t.right.left.Fork? && t.node == n && Holds(t) && Distinct(t)
    modifies n, t.right.node, t.right.left.node
    ensures Holds(DoublyRotatedLeft(t)) && Distinct(DoublyRotatedLeft(t)) && Nodes(DoublyRotatedLeft(t)) == Nodes(t)
  {
    Allocated(t.left);
    RightRotation(n.right, t.right);
    ghost var t1 := Fork(t.node, t.key, t.info, t.left, RotatedRight(t.right));
    assert Nodes(t1) == Nodes(t);
    LeftRotation(n, t1);
  }

  lemma DoublyRotatedRightSame<A>(t: Tree<A>, lo: Option<int>, hi: Option<int>)
    requires t.Fork? && t.left.Fork? && t.left.right.Fork? && InRange(t, lo, hi)
    ensures InRange(DoublyRotatedRight(t), lo, hi) && forall q :: Lookup(DoublyRotatedRight(t), q) == Lookup(t, q)
  {
    RotatedLeftSame(t.left, lo, Some(t.key));
    RotatedRightSame(Fork(t.node, t.key, t.info, RotatedLeft(t.left), t.right), lo, hi);
  }

  lemma DoublyRotatedLeftSame<A>(t: Tree<A>, lo: Option<int>, hi: Option<int>)
    requires t.Fork? && t.right.Fork? && t.right.left.Fork? && InRange(t, lo, hi)
    ensures InRange(DoublyRotatedLeft(t), lo, hi) && forall q :: Lookup(DoublyRotatedLeft(t), q) == Lookup(t, q)
  {
    RotatedRightSame(t.right, Some(t.key), hi);
    RotatedLeftSame(Fork(t.node, t.key, t.info, t.left, RotatedRight(t.right)), lo, hi);
  }

  function WithInfo<A>(t: Tree<A>, info: A): Tree<A> {
    match t
    case Leaf(n, k, o, _) => Leaf(n, k, o, info)
    case Fork(n, k, _, l, r) => Fork(n, k, info, l, r)
  }

  /** New information in a node and its children. */
  function Relabelled<A>(t: Tree<A>, here: A, left: A, right: A): Tree<A>
    requires t.Fork?
  {
    Fork(t.node, t.key, here, WithInfo(t.left, left), WithInfo(t.right, right))
  }

  method Relabel<A>(n: Node<A>, here: A, left: A, right: A, ghost t: Tree<A>)
    requires t.Fork? && t.node == n && Holds(t) && Distinct(t)
    modifies n, t.left.node, t.right.node
    ensures Holds(Relabelled(t, here, left, right)) && Distinct(Relabelled(t, here, left, right))
    ensures Nodes(Relabelled(t, here, left, right)) == Nodes(t)
  {
    n.left.info := left;
    n.right.info := right;
    n.info := here;
  }

  /** Information fields have no part in order and lookup. */
  lemma RelabelledSame<A>(t: Tree<A>, here: A, left: A, right: A, lo: Option<int>, hi: Option<int>)
    requires t.Fork?
    ensures InRange(Relabelled(t, here, left, right), lo, hi) <==> InRange(t, lo, hi)
    ensures forall q :: Lookup(Relabelled(t, here, left, right), q) == Lookup(t, q)
  {
  }

  // ---- Paths: a tree with a hole where a subtree was.

  /** From the hole upwards: at each interior node on the path, the side taken and the other
      subtree. */
  datatype Path<A> =
    | Top
    | WentLeft(up: Path<A>, node: Node<A>, key: int, info: A, other: Tree<A>)
    | WentRight(up: Path<A>, node: Node<A>, key: int, info: A, other: Tree<A>)

  function Plug<A>(p: Path<A>, t: Tree<A>): Tree<A>
    decreases p
  {
    match p
    case Top => t
    case WentLeft(up, n, k, a, o) => Plug(up, Fork(n, k, a, t, o))
    case WentRight(up, n, k, a, o) => Plug(up, Fork(n, k, a, o, t))
  }

  ghost function PathNodes<A>(p: Path<A>): set<Node<A>> {
    if p.Top? then {} else {p.node} + Nodes(p.other) + PathNodes(p.up)
  }

  /** The path stack of the C code: the nodes on the path, root first. */
  function Stack<A>(p: Path<A>): seq<Node<A>> {
    if p.Top? then [] else Stack(p.up) + [p.node]
  }

  ghost predicate PathDistinct<A>(p: Path<A>) {
    p.Top? || (&& p.node !in Nodes(p.other) && p.node !in PathNodes(p.up)
               && Nodes(p.other) !! PathNodes(p.up) && Distinct(p.other) && PathDistinct(p.up))
  }

  /** The heap holds the path, with the node hole at its lower end. */
  ghost predicate PathHolds<A>(p: Path<A>, hole: Node<A>)
    reads PathNodes(p)
  {
    match p
    case Top => true
    case WentLeft(up, n, k, a, o) =>
      n.key == k && n.info == a && n.left == hole && n.right == o.node && Holds(o) && PathHolds(up, n)
    case WentRight(up, n, k, a, o) =>
      n.key == k && n.info == a && n.left == o.node && n.right == hole && Holds(o) && PathHolds(up, n)
  }

  /** The state of a walk: the path above, the subtree below, and the heap holding both. */
  ghost predicate At<A>(p: Path<A>, t: Tree<A>)
    reads PathNodes(p) + Nodes(t)
  {
    && PathHolds(p, t.node) && Holds(t)
    && PathDistinct(p) && Distinct(t) && PathNodes(p) !! Nodes(t)
  }

  lemma {:induction false} PathAllocated<A>(p: Path<A>)
    ensures forall o :: o in PathNodes(p) ==> allocated(o)
  {
    if !p.Top? {
      Allocated(p.other);
      PathAllocated(p.up);
    }
  }

  /** The subtree one step up the path. */
  function Parent<A>(p: Path<A>, t: Tree<A>): Tree<A>
    requires !p.Top?
  {
    if p.WentLeft? then Fork(p.node, p.key, p.info, t, p.other) else Fork(p.node, p.key, p.info, p.other, t)
  }

  /** Stepping up the path. */
  lemma StepUp<A>(p: Path<A>, t: Tree<A>)
    requires At(p, t) && !p.Top?
    ensures At(p.up, Parent(p, t)) && Plug(p.up, Parent(p, t)) == Plug(p, t)
    ensures PathNodes(p.up) + Nodes(Parent(p, t)) == PathNodes(p) + Nodes(t)
    ensures Stack(p) == Stack(p.up) + [p.node]
  {
  }

  method SetInfo<A>(n: Node<A>, info: A, ghost p: Path<A>, ghost s: Tree<A>)
    requires At(p, s) && s.node == n
    modifies n`info
    ensures n.info == info && At(p, WithInfo(s, info)) && Nodes(WithInfo(s, info)) == Nodes(s)
  {
    if s.Fork? { assert Holds(s.left) && Holds(s.right); }
    n.info := info;
  }

  function Lo<A>(p: Path<A>): Option<int> {
    match p
    case Top => None
    case WentLeft(up, _, _, _, _) => Lo(up)
    case WentRight(_, _, k, _, _) => Some(k)
  }

  function Hi<A>(p: Path<A>): Option<int> {
    match p
    case Top => None
    case WentLeft(_, _, k, _, _) => Some(k)
    case WentRight(up, _, _, _, _) => Hi(up)
  }

  /** The other subtrees along the path are ordered and where they belong. */
  predicate PathInRange<A>(p: Path<A>) {
    match p
    case Top => true
    case WentLeft(up, _, k, _, o) => InRange(o, Some(k), Hi(up)) && PathInRange(up)
    case WentRight(up, _, k, _, o) => InRange(o, Lo(up), Some(k)) && PathInRange(up)
  }

  /** The hole is on the search path of q. */
  predicate OnPath<A>(p: Path<A>, q: int) {
    match p
    case Top => true
    case WentLeft(up, _, k, _, _) => q < k && OnPath(up, q)
    case WentRight(up, _, k, _, _) => q >= k && OnPath(up, q)
  }

  lemma {:induction false} PlugInRange<A>(p: Path<A>, t: Tree<A>)
    ensures Ordered(Plug(p, t)) <==> PathInRange(p) && InRange(t, Lo(p), Hi(p))
  {
    match p
    case Top =>
    case WentLeft(up, n, k, a, o) => PlugInRange(up, Fork(n, k, a, t, o));
    case WentRight(up, n, k, a, o) => PlugInRange(up, Fork(n, k, a, o, t));
  }

  /** A lookup in the whole tree is a lookup in the subtree if the search gets there, and does
      not depend on the subtree if not. */
  lemma {:induction false} PlugLookup<A>(p: Path<A>, t: Tree<A>, t': Tree<A>, q: int)
    ensures OnPath(p, q) ==> Lookup(Plug(p, t), q) == Lookup(t, q) && Lookup(Plug(p, t'), q) == Lookup(t', q)
    ensures !OnPath(p, q) ==> Lookup(Plug(p, t), q) == Lookup(Plug(p, t'), q)
  {
    match p
    case Top =>
    case WentLeft(up, n, k, a, o) => PlugLookup(up, Fork(n, k, a, t, o), Fork(n, k, a, t', o), q);
    case WentRight(up, n, k, a, o) => PlugLookup(up, Fork(n, k, a, o, t), Fork(n, k, a, o, t'), q);
  }

  /** Same pairs, as a search sees them. */
  ghost predicate SameLookups<A>(t: Tree<A>, u: Tree<A>) {
    forall q :: Lookup(t, q) == Lookup(u, q)
  }

  /** Replacing a subtree by one with the same pairs in the same range. */
  lemma PlugSame<A>(p: Path<A>, t: Tree<A>, u: Tree<A>)
    requires Ordered(Plug(p, t)) && InRange(u, Lo(p), Hi(p)) && SameLookups(t, u)
    ensures Ordered(Plug(p, u)) && SameLookups(Plug(p, t), Plug(p, u))
  {
    PlugInRange(p, t);
    PlugInRange(p, u);
    forall q ensures Lookup(Plug(p, t), q) == Lookup(Plug(p, u), q) { PlugLookup(p, t, u, q); }
  }

  lemma {:induction false} PlugHolds<A>(p: Path<A>, t: Tree<A>)
    requires At(p, t)
    ensures At(Top, Plug(p, t)) && Nodes(Plug(p, t)) == PathNodes(p) + Nodes(t)
    ensures Plug(p, t).node == if p.Top? then t.node else Stack(p)[0]
  {
    if !p.Top? {
      assert !p.up.Top? ==> Stack(p.up) == Stack(p.up.up) + [p.up.node];
      match p
      case WentLeft(up, n, k, a, o) => PlugHolds(up, Fork(n, k, a, t, o));
      case WentRight(up, n, k, a, o) => PlugHolds(up, Fork(n, k, a, o, t));
    }
  }

  // ---- Searching, and splitting a leaf.

  /** Follows the search path of q to a leaf. */
  method Find<A>(root: Node<A>, q: int, ghost t: Tree<A>) returns (r: Option<int>)
    requires t.node == root && Holds(t)
    ensures r == Lookup(t, q)
  {
    var n := root;
    ghost var s := t;
    while n.right != null
      invariant s.node == n && Holds(s) && Lookup(s, q) == Lookup(t, q)
      decreases s
    {
      if q < n.key {
        n := n.left;
        s := s.left;
      } else {
        n := n.right;
        s := s.right;
      }
    }
    r := if n.key == q then n.obj else None;
  }

  /** As Find, but keeping the path: the stack holds the interior nodes passed, root first. */
  method Descend<A>(root: Node<A>, q: int, ghost t: Tree<A>)
    returns (leaf: Node<A>, stack: seq<Node<A>>, ghost p: Path<A>, ghost s: Tree<A>)
    requires t.node == root && At(Top, t)
    ensures At(p, s) && s.Leaf? && s.node == leaf && stack == Stack(p)
    ensures Plug(p, s) == t && PathNodes(p) + Nodes(s) == Nodes(t) && OnPath(p, q)
  {
    leaf, stack, p, s := root, [], Top, t;
    while leaf.right != null
      invariant At(p, s) && s.node == leaf && stack == Stack(p)
      invariant Plug(p, s) == t && PathNodes(p) + Nodes(s) == Nodes(t) && OnPath(p, q)
      decreases s
    {
      stack := stack + [leaf];
      if q < leaf.key {
        leaf := leaf.left;
        p, s := WentLeft(p, s.node, s.key, s.info, s.right), s.left;
      } else {
        leaf := leaf.right;
        p, s := WentRight(p, s.node, s.key, s.info, s.left), s.right;
      }
    }
  }

  /** A leaf turned into an interior node over its old contents and a new key; both new leaves
      get the information leafInfo, the interior node gets info. */
  function Split<A>(t: Tree<A>, o: Node<A>, n: Node<A>, key: int, obj: int, leafInfo: A, info: A): Tree<A>
    requires t.Leaf?
  {
    var oldLeaf, newLeaf := Leaf(o, t.key, t.obj, leafInfo), Leaf(n, key, obj, leafInfo);
    if t.key < key then Fork(t.node, key, info, oldLeaf, newLeaf) else Fork(t.node, t.key, info, newLeaf, oldLeaf)
  }

  method SplitNode<A>(n: Node<A>, key: int, obj: int, leafInfo: A, info: A, ghost t: Tree<A>)
    returns (oldLeaf: Node<A>, newLeaf: Node<A>)
    requires t.Leaf? && t.node == n && Holds(t)
    modifies n
    ensures fresh(oldLeaf) && fresh(newLeaf)
    ensures var u := Split(t, oldLeaf, newLeaf, key, obj, leafInfo, info); Holds(u) && Distinct(u)
  {
    oldLeaf := new Node(n.key, n.obj, leafInfo);
    newLeaf := new Node(key, Some(obj), leafInfo);
    if n.key < key {
      n.left := oldLeaf;
      n.right := newLeaf;
      n.key := key;
    } else {
      n.left := newLeaf;
      n.right := oldLeaf;
    }
    n.obj := None;
    n.info := info;
  }

  /** Splits leaf n, the lower end of the search path of a new key. */
  method SplitLeaf<A>(n: Node<A>, key: int, obj: int, leafInfo: A, info: A, ghost p: Path<A>, ghost t: Tree<A>)
    returns (ghost u: Tree<A>)
    requires At(p, t) && t.Leaf? && t.node == n && t.key != key && OnPath(p, key) && Ordered(Plug(p, t))
    modifies n
    ensures At(p, u) && u.node == n && forall o :: o in Nodes(u) && o != n ==> fresh(o)
    ensures u.Fork? && u.left.Leaf? && u.right.Leaf?
    ensures u.info == info && u.left.info == leafInfo && u.right.info == leafInfo
    ensures u.key == u.right.key == (if t.key < key then key else t.key)
    ensures u.left.key == (if t.key < key then t.key else key)
    ensures Ordered(Plug(p, u))
    ensures forall q :: Lookup(Plug(p, u), q) == if q == key then Some(obj) else Lookup(Plug(p, t), q)
  {
    PathAllocated(p);
    var oldLeaf, newLeaf := SplitNode(n, key, obj, leafInfo, info, t);
    u := Split(t, oldLeaf, newLeaf, key, obj, leafInfo, info);
    SplitAdds(p, t, oldLeaf, newLeaf, key, obj, leafInfo, info);
  }

  /** Splitting the leaf where the search of a new key ends adds that key, and nothing else. */
  lemma SplitAdds<A>(p: Path<A>, t: Tree<A>, o: Node<A>, n: Node<A>, key: int, obj: int, leafInfo: A, info: A)
    requires t.Leaf? && t.key != key && OnPath(p, key) && Ordered(Plug(p, t))
    ensures var t' := Split(t, o, n, key, obj, leafInfo, info);
      && Ordered(Plug(p, t'))
      && forall q :: Lookup(Plug(p, t'), q) == if q == key then Some(obj) else Lookup(Plug(p, t), q)
  {
    var t' := Split(t, o, n, key, obj, leafInfo, info);
    PlugInRange(p, t);
    OnPathInRange(p, key);
    PlugInRange(p, t');
    forall q ensures Lookup(Plug(p, t'), q) == if q == key then Some(obj) else Lookup(Plug(p, t), q) {
      PlugLookup(p, t, t', q);
    }
  }

  lemma {:induction false} OnPathInRange<A>(p: Path<A>, q: int)
    requires OnPath(p, q)
    ensures Below(Lo(p), q) && Above(q, Hi(p))
  {
    if !p.Top? { OnPathInRange(p.up, q); }
  }

  // ---- Removing a leaf.

  /** t moved to another node. */
  function Moved<A>(t: Tree<A>, n: Node<A>): Tree<A> {
    match t
    case Leaf(_, k, o, a) => Leaf(n, k, o, a)
    case Fork(_, k, a, l, r) => Fork(n, k, a, l, r)
  }

  /** Node n takes over the contents of the root of t, which falls out of use. */
  method Absorb<A>(n: Node<A>, m: Node<A>, ghost t: Tree<A>)
    requires t.node == m && Holds(t) && Distinct(t) && n !in Nodes(t)
    modifies n
    ensures Holds(Moved(t, n)) && Distinct(Moved(t, n)) && Nodes(Moved(t, n)) <= Nodes(t) + {n}
  {
    n.key := m.key;
    n.left := m.left;
    n.right := m.right;
    n.obj := m.obj;
    n.info := m.info;
  }

  lemma {:induction false} InRangeWeaken<A>(t: Tree<A>, lo: Option<int>, hi: Option<int>, lo': Option<int>,
      hi': Option<int>)
    requires InRange(t, lo, hi)
    requires lo' == lo || (lo.Some? && Below(lo', lo.value))
    requires hi' == hi || (hi.Some? && (hi'.Some? ==> hi.value <= hi'.value))
    ensures InRange(t, lo', hi')
  {
    if t.Fork? {
      InRangeWeaken(t.left, lo, Some(t.key), lo', Some(t.key));
      InRangeWeaken(t.right, Some(t.key), hi, Some(t.key), hi');
    }
  }

  /** Replacing the parent of a leaf by the leaf's sibling removes the leaf's key, and nothing else. */
  lemma RemoveLeaf<A>(p: Path<A>, s: Tree<A>, n: Node<A>)
    requires s.Leaf? && !p.Top? && Ordered(Plug(p, s))
    ensures var t := Plug(p.up, Moved(p.other, n));
      Ordered(t) && forall q :: Lookup(t, q) == if q == s.key then None else Lookup(Plug(p, s), q)
  {
    PlugInRange(p, s);
    var v, o := Parent(p, s), Moved(p.other, n);
    var lo, hi := Lo(p.up), Hi(p.up);
    PlugInRange(p.up, v);
    RangeNonempty(v, lo, hi);
    if p.WentLeft? {
      InRangeWeaken(p.other, Some(p.key), hi, lo, hi);
    } else {
      InRangeWeaken(p.other, lo, Some(p.key), lo, hi);
    }
    PlugInRange(p.up, o);
    forall q ensures Lookup(Plug(p.up, o), q) == if q == s.key then None else Lookup(Plug(p, s), q) {
      PlugLookup(p.up, v, o, q);
      SiblingLookup(p, s, q);
      if !OnPath(p.up, q) { NotOnPath(p.up, v, q, s.key); }
    }
  }

  /** Unlinks the leaf below the last node of the path, which takes over the leaf's sibling. */
  method UnlinkLeaf<A>(upper: Node<A>, other: Node<A>, ghost p: Path<A>, ghost s: Tree<A>)
    requires At(p, s) && s.Leaf? && !p.Top? && upper == p.node && other == p.other.node && Ordered(Plug(p, s))
    modifies upper
    ensures At(p.up, Moved(p.other, upper)) && Nodes(Moved(p.other, upper)) <= Nodes(p.other) + {upper}
    ensures Ordered(Plug(p.up, Moved(p.other, upper)))
    ensures forall q ::
      Lookup(Plug(p.up, Moved(p.other, upper)), q) == if q == s.key then None else Lookup(Plug(p, s), q)
  {
    PathAllocated(p);
    RemoveLeaf(p, s, upper);
    Absorb(upper, other, p.other);
  }

  /** Below the parent, the sibling alone answers every lookup but the leaf's. */
  lemma SiblingLookup<A>(p: Path<A>, s: Tree<A>, q: int)
    requires s.Leaf? && !p.Top? && PathInRange(p) && InRange(s, Lo(p), Hi(p))
    ensures Lookup(p.other, q) == if q == s.key then None else Lookup(Parent(p, s), q)
  {
    if p.WentLeft? {
      LookupIsContents(p.other, Some(p.key), Hi(p.up), q);
      if q < p.key && q in Contents(p.other) { KeysInRange(p.other, Some(p.key), Hi(p.up), q); }
    } else {
      LookupIsContents(p.other, Lo(p.up), Some(p.key), q);
      if q >= p.key && q in Contents(p.other) { KeysInRange(p.other, Lo(p.up), Some(p.key), q); }
    }
  }

  /** A key in range of the hole is on the search path to it. */
  lemma {:induction false} NotOnPath<A>(p: Path<A>, t: Tree<A>, q: int, k: int)
    requires PathInRange(p) && InRange(t, Lo(p), Hi(p)) && !OnPath(p, q)
    requires Below(Lo(p), k) && Above(k, Hi(p))
    ensures q != k
  {
    if !p.Top? && q == k {
      var v := Parent(p, t);
      PlugInRange(p, t);
      PlugInRange(p.up, v);
      RangeNonempty(v, Lo(p.up), Hi(p.up));
      if !OnPath(p.up, q) { NotOnPath(p.up, v, q, k); }
    }
  }

  // ---- Lookups determine contents.

  lemma ContentsSame<A>(t: Tree<A>, t': Tree<A>)
    requires Ordered(t) && Ordered(t') && SameLookups(t, t')
    ensures Contents(t') == Contents(t)
  {
    forall q
      ensures (q in Contents(t') <==> q in Contents(t)) && (q in Contents(t') ==> Contents(t')[q] == Contents(t)[q]) {
      LookupIsContents(t, None, None, q);
      LookupIsContents(t', None, None, q);
    }
  }

  lemma ContentsInsert<A>(t: Tree<A>, t': Tree<A>, key: int, obj: int)
    requires Ordered(t) && Ordered(t')
    requires forall q :: Lookup(t', q) == if q == key then Some(obj) else Lookup(t, q)
    ensures Contents(t') == Contents(t)[key := obj]
  {
    forall q ensures (q in Contents(t') <==> q in Contents(t)[key := obj])
               && (q in Contents(t') ==> Contents(t')[q] == Contents(t)[key := obj][q])
    {
      LookupIsContents(t, None, None, q);
      LookupIsContents(t', None, None, q);
    }
  }

  lemma ContentsRemove<A>(t: Tree<A>, t': Tree<A>, key: int)
    requires Ordered(t) && Ordered(t')
    requires forall q :: Lookup(t', q) == if q == key then None else Lookup(t, q)
    ensures Contents(t') == Contents(t) - {key}
  {
    forall q ensures (q in Contents(t') <==> q in Contents(t) - {key})
               && (q in Contents(t') ==> Contents(t')[q] == (Contents(t) - {key})[q])
    {
      LookupIsContents(t, None, None, q);
      LookupIsContents(t', None, None, q);
    }
  }
}
