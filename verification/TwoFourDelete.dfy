/** Deletion from the (2,4)-trees of ch3/a_b_tree.c: underfull blocks take an entry from a
    neighbour or are joined with it. */
module TwoFourDelete {
  import opened Prelude
  import opened BlockTree
  import opened BlockNode
  import opened BlockHeap
  import opened TwoFourTree

  // ---- The rows of two neighbours made one, and cut anew.

  /** Entries j and j + 1 of v are blocks of the height below. */
  predicate Neighbours(v: Tree, j: nat) {
    && v.Block? && v.height > 0 && |v.keys| == |v.kids| && j + 1 < |v.kids|
    && v.kids[j].Block? && v.kids[j + 1].Block? && v.kids[j].height == v.kids[j + 1].height == v.height - 1
    && 0 < |v.kids[j].keys| == |v.kids[j].kids| && 0 < |v.kids[j + 1].keys| == |v.kids[j + 1].kids|
  }

  /** Both neighbours in one block. */
  function Both(v: Tree, j: nat): Tree
    requires Neighbours(v, j)
  {
    var l, r := v.kids[j], v.kids[j + 1];
    Block(l.node, l.height, GluedKeys(l, r, v.keys[j + 1]), l.kids + r.kids)
  }

  function Joined(v: Tree, j: nat): Tree
    requires Neighbours(v, j)
  {
    Block(v.node, v.height, Del(v.keys, j + 1), Del(v.kids[j := Both(v, j)], j + 1))
  }

  function LeftPart(v: Tree, j: nat, m: nat): Tree
    requires Neighbours(v, j) && m <= |Both(v, j).keys|
  {
    Block(v.kids[j].node, v.height - 1, Both(v, j).keys[..m], Both(v, j).kids[..m])
  }

  function RightPart(v: Tree, j: nat, m: nat): Tree
    requires Neighbours(v, j) && m <= |Both(v, j).keys|
  {
    Block(v.kids[j + 1].node, v.height - 1, Both(v, j).keys[m..], Both(v, j).kids[m..])
  }

  function Shared(v: Tree, j: nat, m: nat): Tree
    requires Neighbours(v, j) && m < |Both(v, j).keys|
  {
    Block(v.node, v.height, v.keys[j + 1 := Both(v, j).keys[m]],
      v.kids[j := LeftPart(v, j, m)][j + 1 := RightPart(v, j, m)])
  }

  lemma BothInRange(v: Tree, j: nat, lo: Option<int>, hi: Option<int>)
    requires Neighbours(v, j) && InRange(v, lo, hi)
    ensures InRange(Both(v, j), LowOf(v.keys, j, lo), HighOf(v.keys, j + 1, hi))
    ensures Contents(Both(v, j)) == Contents(v.kids[j]) + Contents(v.kids[j + 1])
  {
    var l, r, k := v.kids[j], v.kids[j + 1], v.keys[j + 1];
    assert InRange(l, LowOf(v.keys, j, lo), HighOf(v.keys, j, hi));
    assert InRange(r, LowOf(v.keys, j + 1, lo), HighOf(v.keys, j + 1, hi));
    assert Below(LowOf(v.keys, j, lo), k - 1) && Above(k, HighOf(v.keys, j + 1, hi));
    GluedInRange(l, r, k, LowOf(v.keys, j, lo), HighOf(v.keys, j + 1, hi), l.node);
    GluedContents(l, r, k, l.node);
  }

  /** Joining changes neither order nor contents. */
  lemma JoinedSame(v: Tree, j: nat, lo: Option<int>, hi: Option<int>)
    requires Neighbours(v, j) && InRange(v, lo, hi)
    ensures InRange(Joined(v, j), lo, hi) && Contents(Joined(v, j)) == Contents(v)
  {
    BothInRange(v, j, lo, hi);
    KidsJoined(v, j, Both(v, j), lo, hi);
    KidsJoinedContents(v, j, Both(v, j));
  }

  lemma SharedRow(v: Tree, j: nat, m: nat)
    requires Neighbours(v, j) && m < |Both(v, j).keys|
    ensures var w := Joined(v, j);
      && |w.keys| == |w.kids| == |v.keys| - 1 && w.kids[j] == Both(v, j)
      && Shared(v, j, m).keys == Ins(w.keys, j + 1, Both(v, j).keys[m])
      && Shared(v, j, m).kids == Ins(w.kids[j := LeftPart(v, j, m)], j + 1, RightPart(v, j, m))
  {
    JoinSeq(v.keys, j, v.keys[j]);
    JoinSeq(v.kids, j, Both(v, j));
  }

  lemma JoinedBounds(v: Tree, j: nat, lo: Option<int>, hi: Option<int>)
    requires Neighbours(v, j)
    ensures j < |Joined(v, j).keys|
    ensures LowOf(Joined(v, j).keys, j, lo) == LowOf(v.keys, j, lo)
    ensures HighOf(Joined(v, j).keys, j, hi) == HighOf(v.keys, j + 1, hi)
  {
    DelBounds(v.keys, j, lo, hi, j);
  }

  /** Neither does moving entries from one neighbour to the other. */
  lemma SharedInRange(v: Tree, j: nat, m: nat, lo: Option<int>, hi: Option<int>)
    requires Neighbours(v, j) && InRange(v, lo, hi) && 0 < m < |Both(v, j).keys|
    ensures InRange(Shared(v, j, m), lo, hi)
  {
    var w, e, l, r := Joined(v, j), Both(v, j), LeftPart(v, j, m), RightPart(v, j, m);
    JoinedSame(v, j, lo, hi);
    BothInRange(v, j, lo, hi);
    JoinedBounds(v, j, lo, hi);
    CutInRange(e, m, LowOf(v.keys, j, lo), HighOf(v.keys, j + 1, hi), l.node, r.node);
    KidSplit(w, j, l, r, e.keys[m], lo, hi);
    SharedRow(v, j, m);
  }

  lemma SharedContents(v: Tree, j: nat, m: nat)
    requires Neighbours(v, j) && m < |Both(v, j).keys|
    requires Contents(Joined(v, j)) == Contents(v)
    ensures Contents(Shared(v, j, m)) == Contents(v)
  {
    var w, e, l, r := Joined(v, j), Both(v, j), LeftPart(v, j, m), RightPart(v, j, m);
    SharedRow(v, j, m);
    CutContents(e, m, l.node, r.node);
    KidSplitContents(w, j, l, r, e.keys[m]);
  }

  // ---- The same in the heap.

  /** A block in a row, replaced by its own entries. */
  lemma Flatten(left: seq<Tree>, b: Tree, right: seq<Tree>)
    requires b.Block?
    ensures Own(left + [b] + right) <==>
      && Own(left + b.kids + right) && Local(b.node, b.height, b.keys, Links(b.kids))
      && b.node !in NodesAll(left + b.kids + right)
    ensures NodesAll(left + [b] + right) == {b.node} + NodesAll(left + b.kids + right)
  {
    OwnAround(left, b, right);
    OwnConcat(left, b.kids);
    OwnConcat(left + b.kids, right);
  }

  /** The row of v with both neighbours replaced by their entries: what the regrouping leaves alone. */
  function Rest(v: Tree, j: nat): seq<Tree>
    requires Neighbours(v, j)
  {
    v.kids[..j] + v.kids[j].kids + v.kids[j + 1].kids + v.kids[j + 2..]
  }

  /** The heap holds the three nodes of the regrouping, and the rest. */
  ghost predicate Opened(q: Path, v: Tree, j: nat)
    requires Neighbours(v, j)
    reads PathNodes(q) + NodesAll(Rest(v, j)) + {v.node, v.kids[j].node, v.kids[j + 1].node}
  {
    var l, r, rest := v.kids[j], v.kids[j + 1], NodesAll(Rest(v, j));
    && PathHolds(q, v.node) && PathDistinct(q) && Own(Rest(v, j)) && PathNodes(q) !! rest
    && v.node !in PathNodes(q) + rest && l.node !in PathNodes(q) + rest && r.node !in PathNodes(q) + rest
    && v.node != l.node && v.node != r.node && l.node != r.node
    && Local(v.node, v.height, v.keys, Links(v.kids))
    && Local(l.node, l.height, l.keys, Links(l.kids)) && Local(r.node, r.height, r.keys, Links(r.kids))
  }

  lemma OpenedRow(v: Tree, j: nat)
    requires Neighbours(v, j)
    ensures var l, r, rest := v.kids[j], v.kids[j + 1], Rest(v, j);
      Own(v.kids) <==>
        && Own(rest) && l.node !in NodesAll(rest) && r.node !in NodesAll(rest) && l.node != r.node
        && Local(l.node, l.height, l.keys, Links(l.kids)) && Local(r.node, r.height, r.keys, Links(r.kids))
    ensures NodesAll(v.kids) == {v.kids[j].node, v.kids[j + 1].node} + NodesAll(Rest(v, j))
  {
    var left, l, r, right := v.kids[..j], v.kids[j], v.kids[j + 1], v.kids[j + 2..];
    var tail := [r] + right;
    assert v.kids == left + [l] + tail by { assert v.kids[j..] == [l] + tail; }
    assert left + l.kids + tail == left + l.kids + [r] + right;
    Flatten(left, l, tail);
    Flatten(left + l.kids, r, right);
  }

  lemma Open(q: Path, v: Tree, j: nat)
    requires v.Block? && Neighbours(v, j)
    ensures At(q, v) <==> Opened(q, v, j)
    ensures Nodes(v) == {v.node, v.kids[j].node, v.kids[j + 1].node} + NodesAll(Rest(v, j))
  {
    OpenedRow(v, j);
  }

  lemma SharedOpened(v: Tree, j: nat, m: nat)
    requires Neighbours(v, j) && 0 < m < |Both(v, j).keys|
    ensures Neighbours(Shared(v, j, m), j) && Rest(Shared(v, j, m), j) == Rest(v, j)
    ensures Links(Shared(v, j, m).kids) == Links(v.kids)
    ensures Shared(v, j, m).kids[j] == LeftPart(v, j, m) && Shared(v, j, m).kids[j + 1] == RightPart(v, j, m)
    ensures Links(LeftPart(v, j, m).kids) == (Links(v.kids[j].kids) + Links(v.kids[j + 1].kids))[..m]
    ensures Links(RightPart(v, j, m).kids) == (Links(v.kids[j].kids) + Links(v.kids[j + 1].kids))[m..]
  {
    var w := Shared(v, j, m);
    var row := v.kids[j].kids + v.kids[j + 1].kids;
    assert w.kids[..j] == v.kids[..j] && w.kids[j + 2..] == v.kids[j + 2..];
    assert row[..m] + row[m..] == row;
    assert v.kids[..j] + row[..m] + row[m..] == v.kids[..j] + row;
    assert v.kids[..j] + v.kids[j].kids + v.kids[j + 1].kids == v.kids[..j] + row;
  }

  /** The left neighbour, underfull, takes the first entry of the right one. */
  method ShareRightHere(cur: Node, nb: Node, up: Node, j: nat, ghost q: Path, ghost v: Tree) returns (ghost w: Tree)
    requires Neighbours(v, j) && At(q, v) && up == v.node && cur == v.kids[j].node && nb == v.kids[j + 1].node
    requires |v.kids[j].keys| < B && |v.kids[j + 1].keys| > A
    modifies cur, nb, up
    ensures w == Shared(v, j, |v.kids[j].keys| + 1) && At(q, w) && Nodes(w) == Nodes(v)
  {
    w := Shared(v, j, |v.kids[j].keys| + 1);
    Open(q, v, j);
    SharedOpened(v, j, |v.kids[j].keys| + 1);
    ShareRightOpened(cur, nb, up, j, q, v);
    Open(q, w, j);
  }

  method ShareRightOpened(cur: Node, nb: Node, up: Node, j: nat, ghost q: Path, ghost v: Tree)
    requires Neighbours(v, j) && Opened(q, v, j) && up == v.node && cur == v.kids[j].node && nb == v.kids[j + 1].node
    requires |v.kids[j].keys| < B && |v.kids[j + 1].keys| > A
    modifies cur, nb, up
    ensures var w := Shared(v, j, |v.kids[j].keys| + 1); Neighbours(w, j) && Opened(q, w, j)
  {
    ghost var l, r := v.kids[j], v.kids[j + 1];
    SharedOpened(v, j, |l.keys| + 1);
    AllocatedAll(Rest(v, j));
    PathAllocated(q);
    ShareRight(cur, nb, up, j, l.height, l.keys, Links(l.kids), r.keys, Links(r.kids), v.keys, Links(v.kids));
  }

  /** The right neighbour, underfull, takes the last entry of the left one. */
  method ShareLeftHere(cur: Node, nb: Node, up: Node, j: nat, ghost q: Path, ghost v: Tree) returns (ghost w: Tree)
    requires Neighbours(v, j) && At(q, v) && up == v.node && nb == v.kids[j].node && cur == v.kids[j + 1].node
    requires |v.kids[j].keys| > A && |v.kids[j + 1].keys| < B
    modifies cur, nb, up
    ensures w == Shared(v, j, |v.kids[j].keys| - 1) && At(q, w) && Nodes(w) == Nodes(v)
  {
    ShareLeftPart(cur, nb, up, j, q, v);
    w := Regrouped(q, v, j, |v.kids[j].keys| - 1);
  }

  method ShareLeftPart(cur: Node, nb: Node, up: Node, j: nat, ghost q: Path, ghost v: Tree)
    requires Neighbours(v, j) && At(q, v) && up == v.node && nb == v.kids[j].node && cur == v.kids[j + 1].node
    requires |v.kids[j].keys| > A && |v.kids[j + 1].keys| < B
    modifies cur, nb, up
    ensures Divided(q, v, j, |v.kids[j].keys| - 1)
  {
    Open(q, v, j);
    ghost var l, r := v.kids[j], v.kids[j + 1];
    ShareLeftApart(cur, nb, up, j + 1, l.height, l.keys, Links(l.kids), r.keys, Links(r.kids), v.keys, Links(v.kids),
      q, Rest(v, j));
  }

  /** Sharing, apart from a path and a row. */
  method ShareLeftApart(cur: Node, nb: Node, up: Node, curr: nat, ghost h: nat,
                        ghost lk: seq<int>, ghost ll: seq<Link>, ghost rk: seq<int>, ghost rl: seq<Link>,
                        ghost uk: seq<int>, ghost ul: seq<Link>, ghost q: Path, ghost rest: seq<Tree>)
    requires Local(cur, h, rk, rl) && Local(nb, h, lk, ll) && Local(up, h + 1, uk, ul) && cur != nb && up != cur
    requires up != nb && 0 < curr < |uk| && 0 < |rk| < B && |lk| > A
    requires PathHolds(q, up) && Own(rest) && cur !in PathNodes(q) + NodesAll(rest)
    requires nb !in PathNodes(q) + NodesAll(rest) && up !in PathNodes(q) + NodesAll(rest)
    modifies cur, nb, up
    ensures var m := |lk| - 1; var e, el := Glue(h, lk, rk, uk[curr]), ll + rl;
      && Local(nb, h, e[..m], el[..m]) && Local(cur, h, e[m..], el[m..]) && Local(up, h + 1, uk[curr := e[m]], ul)
    ensures PathHolds(q, up) && Own(rest)
  {
    AllocatedAll(rest);
    PathAllocated(q);
    ShareLeft(cur, nb, up, curr, h, lk, ll, rk, rl, uk, ul);
  }

  /** The three nodes hold the row divided anew, and nothing else has changed. */
  ghost predicate Divided(q: Path, v: Tree, j: nat, m: nat)
    requires Neighbours(v, j)
    reads PathNodes(q) + NodesAll(Rest(v, j)) + {v.node, v.kids[j].node, v.kids[j + 1].node}
  {
    var l, r, rest := v.kids[j], v.kids[j + 1], NodesAll(Rest(v, j));
    var e, el := Glue(l.height, l.keys, r.keys, v.keys[j + 1]), Links(l.kids) + Links(r.kids);
    && PathHolds(q, v.node) && PathDistinct(q) && Own(Rest(v, j)) && PathNodes(q) !! rest
    && v.node !in PathNodes(q) + rest && l.node !in PathNodes(q) + rest && r.node !in PathNodes(q) + rest
    && v.node != l.node && v.node != r.node && l.node != r.node && 0 < m < |e| == |el|
    && Local(l.node, l.height, e[..m], el[..m]) && Local(r.node, l.height, e[m..], el[m..])
    && Local(v.node, l.height + 1, v.keys[j + 1 := e[m]], Links(v.kids))
  }

  lemma Regrouped(q: Path, v: Tree, j: nat, m: nat) returns (w: Tree)
    requires Neighbours(v, j) && 0 < m < |Both(v, j).keys| && Divided(q, v, j, m)
    ensures w == Shared(v, j, m) && At(q, w) && Nodes(w) == Nodes(v)
  {
    w := Shared(v, j, m);
    SharedOpened(v, j, m);
    OpenedRow(v, j);
    Open(q, w, j);
  }

  lemma JoinedLinks(v: Tree, j: nat)
    requires Neighbours(v, j)
    ensures Links(Joined(v, j).kids) == Del(Links(v.kids), j + 1)
    ensures Links(Both(v, j).kids) == Links(v.kids[j].kids) + Links(v.kids[j + 1].kids)
  {
    JoinSeq(v.kids, j, Both(v, j));
    DelPoint(v.kids[j := Both(v, j)], j + 1);
    DelPoint(Links(v.kids), j + 1);
  }

  lemma JoinedRow(v: Tree, j: nat)
    requires Neighbours(v, j)
    ensures Own(Joined(v, j).kids) <==>
      && Own(Rest(v, j)) && Local(v.kids[j].node, v.height - 1, Both(v, j).keys, Links(Both(v, j).kids))
      && v.kids[j].node !in NodesAll(Rest(v, j))
    ensures NodesAll(Joined(v, j).kids) == {v.kids[j].node} + NodesAll(Rest(v, j))
  {
    var left, e, right := v.kids[..j], Both(v, j), v.kids[j + 2..];
    JoinSeq(v.kids, j, e);
    Flatten(left, e, right);
    assert left + (v.kids[j].kids + v.kids[j + 1].kids) + right == Rest(v, j);
  }

  /** The left neighbour takes over all entries of the right one, which falls out of use. */
  method JoinHere(cur: Node, nb: Node, up: Node, j: nat, ghost q: Path, ghost v: Tree)
    requires Neighbours(v, j) && At(q, v) && up == v.node && cur == v.kids[j].node && nb == v.kids[j + 1].node
    requires |v.kids[j].keys| + |v.kids[j + 1].keys| <= B
    modifies cur, up
    ensures At(q, Joined(v, j)) && Nodes(Joined(v, j)) <= Nodes(v)
  {
    ghost var l, r := v.kids[j], v.kids[j + 1];
    Open(q, v, j);
    JoinedLinks(v, j);
    AllocatedAll(Rest(v, j));
    PathAllocated(q);
    Append(cur, nb, up.key[j + 1], l.height, l.keys, Links(l.kids), r.keys, Links(r.kids));
    RemoveEntry(up, j + 1, v.height, v.keys, Links(v.kids));
    JoinedRow(v, j);
  }

  // ---- The loop of delete.

  /** All is well but that the block t may have too few entries, though not none below the root. */
  ghost predicate Thin(p: Path, t: Tree) {
    && t.Block? && PathShaped(p, t.height) && |t.keys| == |t.kids| <= B && Entries(t.kids, t.height)
    && (p.Step? || t.height > 0 ==> |t.keys| >= 1) && InRange(Plug(p, t), None, None)
  }

  /** An entry that is Thin may be too small by one. */
  predicate ThinEntry(t: Tree, h: nat) {
    h > 0 && t.Block? && t.height == h - 1 && 1 <= |t.keys| == |t.kids| <= B && Entries(t.kids, h - 1)
  }

  lemma NeighboursBeside(p: Path, t: Tree, j: nat)
    requires Thin(p, t) && p.Step? && (j == |p.left| || j == |p.left| - 1) && j + 1 < |p.keys|
    ensures var v := Parent(p, t);
      && Neighbours(v, j) && InRange(v, Lo(p.up), Hi(p.up)) && ThinEntry(v.kids[j], v.height) &&
        ThinEntry(v.kids[j + 1], v.height)
      && v.kids[|p.left|] == t && (forall i :: 0 <= i < |v.kids| && i != |p.left| ==> Entry(v.kids[i], v.height))
  {
    PlugInRange(p.up, Parent(p, t), p.height);
    var v := Parent(p, t);
    assert forall i :: 0 <= i < |p.left| ==> v.kids[i] == p.left[i];
    assert forall i :: |p.left| < i < |v.kids| ==> v.kids[i] == p.right[i - |p.left| - 1];
  }

  lemma BothEntry(v: Tree, j: nat)
    requires Neighbours(v, j) && ThinEntry(v.kids[j], v.height) && ThinEntry(v.kids[j + 1], v.height)
    ensures Entries(Both(v, j).kids, v.height - 1) && |Both(v, j).keys| == |v.kids[j].keys| + |v.kids[j + 1].keys|
    ensures |v.kids[j].keys| + |v.kids[j + 1].keys| <= B ==> Entry(Both(v, j), v.height)
  {
  }

  /** Joining may leave the row above one entry short. */
  lemma JoinedThin(p: Path, t: Tree, j: nat)
    requires Thin(p, t) && p.Step? && (j == |p.left| || j == |p.left| - 1) && j + 1 < |p.keys|
    requires var v := Parent(p, t); Neighbours(v, j) && |v.kids[j].keys| + |v.kids[j + 1].keys| <= B
    ensures Thin(p.up, Joined(Parent(p, t), j)) && Contents(Plug(p.up, Joined(Parent(p, t), j))) == Contents(Plug(p, t))
  {
    var v := Parent(p, t);
    NeighboursBeside(p, t, j);
    BothEntry(v, j);
    JoinedSame(v, j, Lo(p.up), Hi(p.up));
    PlugInRange(p.up, v, p.height);
    PlugInRange(p.up, Joined(v, j), p.height);
    PlugContents(p.up, v, Joined(v, j), p.height);
    JoinSeq(v.keys, j, v.keys[j]);
    JoinSeq(v.kids, j, Both(v, j));
    JoinedEntries(v, j, |p.left|);
  }

  lemma JoinedEntries(v: Tree, j: nat, hole: nat)
    requires Neighbours(v, j) && Entry(Both(v, j), v.height) && (hole == j || hole == j + 1)
    requires forall i :: 0 <= i < |v.kids| && i != hole ==> Entry(v.kids[i], v.height)
    ensures Entries(Joined(v, j).kids, v.height) && |Joined(v, j).keys| == |Joined(v, j).kids| == |v.keys| - 1
  {
    DelPoint(v.kids[j := Both(v, j)], j + 1);
    DelPoint(v.keys, j + 1);
  }

  /** Sharing mends the row for good. */
  lemma SharedGood(p: Path, t: Tree, j: nat, m: nat)
    requires Thin(p, t) && p.Step? && (j == |p.left| || j == |p.left| - 1) && j + 1 < |p.keys|
    requires var v := Parent(p, t);
      Neighbours(v, j) && A <= m <= B && A <= |v.kids[j].keys| + |v.kids[j + 1].keys| - m <= B
    ensures var w := Shared(Parent(p, t), j, m);
      Standing(p.up, w) && InRange(Plug(p.up, w), None, None) && Contents(Plug(p.up, w)) == Contents(Plug(p, t))
  {
    var v := Parent(p, t);
    NeighboursBeside(p, t, j);
    BothEntry(v, j);
    JoinedSame(v, j, Lo(p.up), Hi(p.up));
    SharedInRange(v, j, m, Lo(p.up), Hi(p.up));
    SharedContents(v, j, m);
    PlugInRange(p.up, v, p.height);
    PlugInRange(p.up, Shared(v, j, m), p.height);
    PlugContents(p.up, v, Shared(v, j, m), p.height);
    SharedEntries(v, j, m, |p.left|);
  }

  lemma SharedEntries(v: Tree, j: nat, m: nat, hole: nat)
    requires Neighbours(v, j) && (hole == j || hole == j + 1) && A <= m <= B && m < |Both(v, j).keys|
    requires A <= |Both(v, j).keys| - m <= B
    requires Entries(Both(v, j).kids, v.height - 1) && |Both(v, j).kids| == |Both(v, j).keys|
    requires forall i :: 0 <= i < |v.kids| && i != hole ==> Entry(v.kids[i], v.height)
    ensures Entries(Shared(v, j, m).kids, v.height)
  {
    var l, r, e := LeftPart(v, j, m), RightPart(v, j, m), Both(v, j);
    assert forall i :: 0 <= i < |l.kids| ==> l.kids[i] == e.kids[i];
    assert forall i :: 0 <= i < |r.kids| ==> r.kids[i] == e.kids[m + i];
    assert Entry(l, v.height) && Entry(r, v.height);
  }

  /** The state of the loop: the heap holds the tree, whose contents are c. */
  ghost predicate Thinned(p: Path, t: Tree, root: Node, c: map<int, int>)
    reads PathNodes(p) + Nodes(t)
  {
    At(p, t) && Thin(p, t) && Plug(p, t).Block? && Plug(p, t).node == root && Contents(Plug(p, t)) == c
  }

  lemma StandingThin(p: Path, t: Tree)
    requires Standing(p, t) && InRange(Plug(p, t), None, None)
    ensures Thin(p, t) && Shaped(Plug(p, t))
  {
    PlugShaped(p, t);
  }

  method MendRightSharing(n: Node, nb: Node, up: Node, j: nat, ghost p: Path, ghost t: Tree) returns (ghost w: Tree)
    requires At(p, t) && Thin(p, t) && p.Step? && up == p.node && j == |p.left| && j + 1 < |p.keys| && |t.keys| < A
    requires var v := Parent(p, t);
      Neighbours(v, j) && n == v.kids[j].node && nb == v.kids[j + 1].node && A < |v.kids[j + 1].keys| <= B
    modifies PathNodes(p) + Nodes(t)
    ensures At(p.up, w) && w.node == up && Standing(p.up, w) && InRange(Plug(p.up, w), None, None)
    ensures Contents(Plug(p.up, w)) == Contents(Plug(p, t)) && PathNodes(p.up) + Nodes(w) == PathNodes(p) + Nodes(t)
  {
    ghost var v := Parent(p, t);
    StepUp(p, t);
    NeighboursBeside(p, t, j);
    Open(p.up, v, j);
    assert |v.kids[j].keys| == |t.keys|;
    SharedGood(p, t, j, |v.kids[j].keys| + 1);
    w := ShareRightHere(n, nb, up, j, p.up, v);
  }

  method MendRightJoining(n: Node, nb: Node, up: Node, j: nat, ghost p: Path, ghost t: Tree) returns (ghost w: Tree)
    requires At(p, t) && Thin(p, t) && p.Step? && up == p.node && j == |p.left| && j + 1 < |p.keys| && |t.keys| < A
    requires var v := Parent(p, t);
      Neighbours(v, j) && n == v.kids[j].node && nb == v.kids[j + 1].node && |v.kids[j + 1].keys| <= A
    modifies PathNodes(p) + Nodes(t)
    ensures At(p.up, w) && w.node == up && Thin(p.up, w)
    ensures Contents(Plug(p.up, w)) == Contents(Plug(p, t)) && PathNodes(p.up) + Nodes(w) <= PathNodes(p) + Nodes(t)
  {
    ghost var v := Parent(p, t);
    StepUp(p, t);
    NeighboursBeside(p, t, j);
    Open(p.up, v, j);
    assert |v.kids[j].keys| == |t.keys|;
    JoinedThin(p, t, j);
    JoinHere(n, nb, up, j, p.up, v);
    w := Joined(v, j);
  }

  lemma NextNeighbour(p: Path, t: Tree, j: nat)
    requires At(p, t) && Thin(p, t) && p.Step? && j == |p.left| && j + 1 < |p.keys|
    ensures var v := Parent(p, t);
      && Neighbours(v, j) && v.kids[j] == t && |p.node.next| == B && p.node.next[j + 1] == Down(v.kids[j + 1].node)
      && v.kids[j + 1].node.degree == |v.kids[j + 1].keys| <= B
  {
    StepUp(p, t);
    NeighboursBeside(p, t, j);
    Open(p.up, Parent(p, t), j);
  }

  /** An underfull block that is not the last entry of the node above. */
  method MendRight(n: Node, up: Node, curr: nat, ghost p: Path, ghost t: Tree, ghost root: Node, ghost c: map<int, int>)
    returns (shared: bool, ghost w: Tree)
    requires Thinned(p, t, root, c) && p.Step? && n == t.node && up == p.node && curr == |p.left| && |t.keys| < A
    requires curr < |p.keys| - 1
    modifies PathNodes(p) + Nodes(t)
    ensures Thinned(p.up, w, root, c) && w.node == up && (shared ==> Shaped(Plug(p.up, w)))
    ensures PathNodes(p.up) + Nodes(w) <= PathNodes(p) + Nodes(t)
  {
    NextNeighbour(p, t, curr);
    var nb := up.next[curr + 1].node;
    shared := nb.degree > A;
    if shared {
      w := MendRightSharing(n, nb, up, curr, p, t);
      StandingThin(p.up, w);
    } else {
      w := MendRightJoining(n, nb, up, curr, p, t);
    }
    PlugNode(p.up, Parent(p, t), w);
  }

  method MendLeftSharing(n: Node, nb: Node, up: Node, j: nat, ghost p: Path, ghost t: Tree) returns (ghost w: Tree)
    requires At(p, t) && Thin(p, t) && p.Step? && up == p.node && j + 1 == |p.left| && j + 1 < |p.keys| && |t.keys| < A
    requires var v := Parent(p, t);
      Neighbours(v, j) && nb == v.kids[j].node && n == v.kids[j + 1].node && A < |v.kids[j].keys| <= B
    modifies PathNodes(p) + Nodes(t)
    ensures At(p.up, w) && w.node == up && Standing(p.up, w) && InRange(Plug(p.up, w), None, None)
    ensures Contents(Plug(p.up, w)) == Contents(Plug(p, t)) && PathNodes(p.up) + Nodes(w) == PathNodes(p) + Nodes(t)
  {
    ghost var v := Parent(p, t);
    StepUp(p, t);
    NeighboursBeside(p, t, j);
    Open(p.up, v, j);
    assert |v.kids[j + 1].keys| == |t.keys|;
    SharedGood(p, t, j, |v.kids[j].keys| - 1);
    w := ShareLeftHere(n, nb, up, j, p.up, v);
  }

  method MendLeftJoining(n: Node, nb: Node, up: Node, j: nat, ghost p: Path, ghost t: Tree) returns (ghost w: Tree)
    requires At(p, t) && Thin(p, t) && p.Step? && up == p.node && j + 1 == |p.left| && j + 1 < |p.keys| && |t.keys| < A
    requires var v := Parent(p, t);
      Neighbours(v, j) && nb == v.kids[j].node && n == v.kids[j + 1].node && |v.kids[j].keys| <= A
    modifies PathNodes(p) + Nodes(t)
    ensures At(p.up, w) && w.node == up && Thin(p.up, w)
    ensures Contents(Plug(p.up, w)) == Contents(Plug(p, t)) && PathNodes(p.up) + Nodes(w) <= PathNodes(p) + Nodes(t)
  {
    ghost var v := Parent(p, t);
    StepUp(p, t);
    NeighboursBeside(p, t, j);
    Open(p.up, v, j);
    assert |v.kids[j + 1].keys| == |t.keys|;
    JoinedThin(p, t, j);
    JoinHere(nb, n, up, j, p.up, v);
    w := Joined(v, j);
  }

  /** The node before the last of a row. */
  lemma LastNeighbour(p: Path, t: Tree, j: nat)
    requires At(p, t) && Thin(p, t) && p.Step? && j + 1 == |p.left| && j + 1 < |p.keys|
    ensures var v := Parent(p, t);
      && Neighbours(v, j) && v.kids[j + 1] == t && |p.node.next| == B && p.node.next[j] == Down(v.kids[j].node)
      && v.kids[j].node.degree == |v.kids[j].keys| <= B
  {
    StepUp(p, t);
    NeighboursBeside(p, t, j);
    Open(p.up, Parent(p, t), j);
  }

  /** An underfull block that is the last entry of the node above. */
  method MendLeft(n: Node, up: Node, curr: nat, ghost p: Path, ghost t: Tree, ghost root: Node, ghost c: map<int, int>)
    returns (shared: bool, ghost w: Tree)
    requires Thinned(p, t, root, c) && p.Step? && n == t.node && up == p.node && curr == |p.left| && |t.keys| < A
    requires curr == |p.keys| - 1
    modifies PathNodes(p) + Nodes(t)
    ensures Thinned(p.up, w, root, c) && w.node == up && (shared ==> Shaped(Plug(p.up, w)))
    ensures PathNodes(p.up) + Nodes(w) <= PathNodes(p) + Nodes(t)
  {
    LastNeighbour(p, t, curr - 1);
    var nb := up.next[curr - 1].node;
    shared := nb.degree > A;
    if shared {
      w := MendLeftSharing(n, nb, up, curr - 1, p, t);
      StandingThin(p.up, w);
    } else {
      w := MendLeftJoining(n, nb, up, curr - 1, p, t);
    }
    PlugNode(p.up, Parent(p, t), w);
  }

  /** An underfull block below the root. */
  method Mend(n: Node, up: Node, curr: nat, ghost p: Path, ghost t: Tree, ghost root: Node, ghost c: map<int, int>)
    returns (shared: bool, ghost w: Tree)
    requires Thinned(p, t, root, c) && p.Step? && n == t.node && up == p.node && curr == |p.left| && |t.keys| < A
    modifies PathNodes(p) + Nodes(t)
    ensures Thinned(p.up, w, root, c) && w.node == up && (shared ==> Shaped(Plug(p.up, w)))
    ensures PathNodes(p.up) + Nodes(w) <= PathNodes(p) + Nodes(t)
  {
    if curr < up.degree - 1 {
      shared, w := MendRight(n, up, curr, p, t, root, c);
    } else {
      shared, w := MendLeft(n, up, curr, p, t, root, c);
    }
  }

  /** A root with one entry left gives way to that entry. */
  method DropRoot(n: Node, ghost t: Tree) returns (ghost v: Tree)
    requires At(Top, t) && Thin(Top, t) && t.node == n && t.height > 0 && |t.keys| == 1
    modifies n
    ensures Result(v, n, Contents(t)) && Nodes(v) <= Nodes(t)
  {
    ghost var b := t.kids[0];
    assert Entry(b, t.height) && InRange(b, LowOf(t.keys, 0, None), HighOf(t.keys, 0, None));
    OnlyKid(t);
    AllocatedAll(b.kids);
    var c := n.next[0].node;
    LowerRoot(n, c, b.height, b.keys, Links(b.kids));
    v := Block(n, b.height, b.keys, b.kids);
    SameRange(b, v);
  }

  lemma OnlyKid(t: Tree)
    requires t.Block? && t.height > 0 && |t.keys| == |t.kids| == 1
    ensures Contents(t) == Contents(t.kids[0]) && NodesAll(t.kids) == Nodes(t.kids[0])
    ensures Own(t.kids) <==> Holds(t.kids[0]) && Distinct(t.kids[0])
  {
    assert t.kids == [t.kids[0]] && t.keys == [t.keys[0]];
    OwnOne(t.kids[0]);
    ContentsLast(t.height, [], t.keys[0], [], t.kids[0]);
    assert [] + [t.keys[0]] == t.keys && [] + [t.kids[0]] == t.kids;
  }

  lemma SameRange(b: Tree, v: Tree)
    requires b.Block? && v.Block? && v == Block(v.node, b.height, b.keys, b.kids) && InRange(b, None, None)
    ensures InRange(v, None, None) && Contents(v) == Contents(b)
  {
  }

  lemma ThickEnough(p: Path, t: Tree)
    requires Thin(p, t) && (|t.keys| >= A || (p.Top? && t.height == 0))
    ensures Shaped(Plug(p, t))
  {
    PlugShaped(p, t);
  }

  /** The loop of delete. */
  method DeleteUp(n0: Node, stack0: seq<Node>, index0: seq<nat>, ghost p0: Path, ghost t0: Tree, ghost root: Node,
      ghost c: map<int, int>)
    returns (ghost v: Tree)
    requires Thinned(p0, t0, root, c) && t0.node == n0 && stack0 == Stack(p0) && index0 == Indexes(p0)
    modifies PathNodes(p0) + Nodes(t0)
    ensures Result(v, root, c) && Nodes(v) <= PathNodes(p0) + Nodes(t0)
  {
    var n, stack, index, finished := n0, stack0, index0, false;
    ghost var p, t := p0, t0;
    while n.degree < A && |stack| > 0 && !finished
      invariant Thinned(p, t, root, c) && t.node == n && stack == Stack(p) && index == Indexes(p)
      invariant PathNodes(p) + Nodes(t) <= PathNodes(p0) + Nodes(t0) && (finished ==> Shaped(Plug(p, t)))
      decreases |stack|
    {
      var upper, curr := stack[|stack| - 1], index[|index| - 1];
      stack, index := stack[..|stack| - 1], index[..|index| - 1];
      ghost var w;
      finished, w := Mend(n, upper, curr, p, t, root, c);
      n, p, t := upper, p.up, w;
    }
    if !finished && n.degree < A && n.height > 0 {
      v := DropRoot(n, t);
    } else {
      if !finished { ThickEnough(p, t); }
      PlugHolds(p, t);
      v := Plug(p, t);
    }
  }

  /** The leaf block where the search of a key ends has it if the tree has. */
  lemma LeafThinned(p: Path, s: Tree, i: nat, k: int)
    requires Standing(p, s) && s.height == 0 && InRange(Plug(p, s), None, None) && OnPath(p, k) && i < |s.keys|
    requires s.keys[i] == k
    ensures var u := Block(s.node, 0, Del(s.keys, i), Del(s.kids, i));
      Thin(p, u) && Contents(Plug(p, u)) == Contents(Plug(p, s)) - {k}
    ensures s.kids[i].Item? && k in Contents(Plug(p, s)) && Contents(Plug(p, s))[k] == s.kids[i].obj
  {
    PlugInRange(p, s, 0);
    assert Entry(s.kids[i], 0);
    LeafDeleted(s, i, Lo(p), Hi(p));
    var u := Block(s.node, 0, Del(s.keys, i), Del(s.kids, i));
    PlugInRange(p, u, 0);
    PlugDeleted(p, s, u, k, 0);
    PlugFound(p, s, k, 0);
    DelPoint(s.keys, i);
    DelPoint(s.kids, i);
  }

  lemma LeafMissing(p: Path, s: Tree, k: int)
    requires Standing(p, s) && s.height == 0 && InRange(Plug(p, s), None, None) && OnPath(p, k) && k !in s.keys
    ensures k !in Contents(Plug(p, s))
  {
    PlugFound(p, s, k, 0);
    NotAmong(s.keys, s.kids, k);
  }

  lemma ItemsOwn(kids: seq<Tree>)
    requires Entries(kids, 0)
    ensures Own(kids) && NodesAll(kids) == {}
  {
    if kids != [] {
      assert Entry(kids[0], 0);
      ItemsOwn(kids[1..]);
    }
  }

  /** Removes the entry from the leaf block. */
  method RemoveHere(n: Node, i: nat, ghost p: Path, ghost s: Tree)
    requires At(p, s) && s.node == n && s.height == 0 && i < |s.keys| && Entries(s.kids, 0)
    modifies n
    ensures var u := Block(n, 0, Del(s.keys, i), Del(s.kids, i)); At(p, u) && Nodes(u) == Nodes(s)
  {
    PathAllocated(p);
    RemoveEntry(n, i, 0, s.keys, Links(s.kids));
    DelPoint(s.kids, i);
    DelPoint(Links(s.kids), i);
    assert Links(Del(s.kids, i)) == Del(Links(s.kids), i);
    ItemsOwn(s.kids);
    ItemsOwn(Del(s.kids, i));
  }

  method DeleteFrom(root: Node, key: int, ghost t: Tree) returns (r: Option<int>, ghost v: Tree)
    requires Result(t, root, Contents(t))
    modifies Nodes(t)
    ensures Result(v, root, Contents(t) - {key}) && Nodes(v) <= Nodes(t)
    ensures r == if key in Contents(t) then Some(Contents(t)[key]) else None
  {
    var n, stack, index; ghost var p, s;
    n, stack, index, p, s := Descend(root, key, t);
    PathAllocated(p);
    Allocated(s);
    var i := FindKey(n, key, s.keys, Links(s.kids));
    if i == n.degree {
      LeafMissing(p, s, key);
      PlugHolds(p, s);
      assert Contents(t) - {key} == Contents(t);
      return None, t;
    }
    LeafThinned(p, s, i, key);
    assert Entry(s.kids[i], 0);
    r := Some(n.next[i].obj);
    RemoveHere(n, i, p, s);
    ghost var u := Block(n, 0, Del(s.keys, i), Del(s.kids, i));
    PlugNode(p, s, u);
    v := DeleteUp(n, stack, index, p, u, root, Contents(t) - {key});
  }

  lemma EmptyTree(n: Node)
    requires n.height == 0 && n.degree == 0 && |n.key| == |n.next| == B
    ensures var t := Block(n, 0, [], []); Result(t, n, map[]) && Nodes(t) == {n}
  {
    assert NodesAll([]) == {} && HoldsAll([]) && DistinctAll([]);
  }

  // ---- The tree.

  class TwoFour {
    const root: Node
    ghost var shape: Tree

    ghost function Repr(): set<object>
      reads this
    {
      {this} + Nodes(shape)
    }

    ghost predicate Valid()
      reads this, Repr()
    {
      Result(shape, root, Contents(shape))
    }

    ghost function Map(): map<int, int>
      reads this
    {
      Contents(shape)
    }

    constructor ()
      ensures Valid() && fresh(Repr()) && Map() == map[]
    {
      var n := new Node();
      root := n;
      shape := Block(n, 0, [], []);
      new;
      EmptyTree(root);
    }

    /** The source reads an unset key if the tree is empty. */
    method Get(key: int) returns (r: Option<int>)
      requires Valid() && Map() != map[]
      ensures r == if key in Map() then Some(Map()[key]) else None
    {
      assert ContentsIn(shape.height, [], []) == map[];
      r := Find(root, key, shape);
    }

    /** The source does not look whether the key is there already. */
    method Insert(key: int, obj: int)
      requires Valid() && key !in Map()
      modifies Repr()
      ensures Valid() && (forall o :: o in Repr() && o !in old(Repr()) ==> fresh(o))
      ensures Map() == old(Map())[key := obj]
    {
      ghost var v := InsertInto(root, key, obj, shape);
      shape := v;
    }

    method Delete(key: int) returns (r: Option<int>)
      requires Valid()
      modifies Repr()
      ensures Valid() && Repr() <= old(Repr())
      ensures r == if key in old(Map()) then Some(old(Map())[key]) else None
      ensures Map() == old(Map()) - {key}
    {
      ghost var v;
      r, v := DeleteFrom(root, key, shape);
      shape := v;
    }
  }
}
