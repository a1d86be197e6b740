/** The merging of two binomial heaps in ch5/bino_heap.c: binary addition of the rows. */
module BinomialMerge {
  import opened Prelude
  import opened BinomialRow

  // ---- The stack: all blocks of both rows, highest first.

  function Interleave(s: Row, t: Row): Row
    decreases |s| + |t|
  {
    if s == [] then t else if t == [] then s
    else if s[0].height > t[0].height then [s[0]] + Interleave(s[1..], t) else [t[0]] + Interleave(s, t[1..])
  }

  /** Complete blocks of heights that do not rise, none more than twice. */
  predicate Piled(s: Row) {
    && (forall i :: 0 <= i < |s| ==> Full(s[i].kids, s[i].height))
    && (forall i, j :: 0 <= i < j < |s| ==> s[i].height >= s[j].height)
    && (forall i :: 0 <= i < |s| - 2 ==> s[i].height > s[i + 2].height)
  }

  lemma {:induction false} FallingPiled(s: Row, bound: nat)
    requires Falling(s, bound)
    ensures Piled(s) && forall i :: 0 <= i < |s| ==> s[i].height < bound
  {
    if s != [] { FallingPiled(s[1..], s[0].height); }
  }

  lemma PiledOnTop(b: Block, s: Row)
    requires Piled(s) && Full(b.kids, b.height) && (s != [] ==> b.height >= s[0].height)
    requires |s| >= 2 ==> b.height > s[1].height
    ensures Piled([b] + s)
  {
    var u := [b] + s;
    assert forall i :: 1 <= i < |u| ==> u[i] == s[i - 1];
  }

  lemma {:induction false} InterleavePiled(s: Row, t: Row, bs: nat, bt: nat)
    requires Falling(s, bs) && Falling(t, bt)
    ensures Piled(Interleave(s, t))
    ensures Interleave(s, t) != [] ==> Interleave(s, t)[0].height < bs || Interleave(s, t)[0].height < bt
    ensures bs != bt && |Interleave(s, t)| >= 2 ==>
      Interleave(s, t)[1].height + 1 < bs || Interleave(s, t)[1].height + 1 < bt
    decreases |s| + |t|
  {
    if s == [] || t == [] {
      FallingPiled(if s == [] then t else s, if s == [] then bt else bs);
    } else if s[0].height > t[0].height {
      InterleavePiled(s[1..], t, s[0].height, s[0].height);
      PiledOnTop(s[0], Interleave(s[1..], t));
    } else {
      InterleavePiled(s, t[1..], t[0].height + 1, t[0].height);
      PiledOnTop(t[0], Interleave(s, t[1..]));
    }
  }

  lemma {:induction false} InterleaveCount(s: Row, t: Row, p: Pair)
    ensures Count(Interleave(s, t), p) == Count(s, p) + Count(t, p)
    decreases |s| + |t|
  {
    if s != [] && t != [] {
      if s[0].height > t[0].height {
        InterleaveCount(s[1..], t, p);
        CountOnTop(s[0], Interleave(s[1..], t), p);
      } else {
        InterleaveCount(s, t[1..], p);
        CountOnTop(t[0], Interleave(s, t[1..]), p);
      }
    }
  }

  /** A row with a block in front. */
  lemma CountOnTop(b: Block, s: Row, p: Pair)
    ensures Count([b] + s, p) == Here(b, p) + Count(s, p)
  {
    assert ([b] + s)[1..] == s;
  }

  lemma OnTop(b: Block, s: Row)
    ensures Size([b] + s) == Pow2(b.height) + Size(s)
    ensures Ordered([b] + s) <==> AtLeast(b.kids, b.key) && Ordered(s)
  {
    assert ([b] + s)[1..] == s;
  }

  lemma {:induction false} InterleaveSize(s: Row, t: Row)
    ensures Size(Interleave(s, t)) == Size(s) + Size(t)
    ensures Ordered(Interleave(s, t)) <==> Ordered(s) && Ordered(t)
    decreases |s| + |t|
  {
    if s != [] && t != [] {
      if s[0].height > t[0].height {
        InterleaveSize(s[1..], t);
        OnTop(s[0], Interleave(s[1..], t));
      } else {
        InterleaveSize(s, t[1..]);
        OnTop(t[0], Interleave(s, t[1..]));
      }
    }
  }

  // ---- Adding one block to the row built so far.

  function AddStep(b: Block, c: Row): Row
    requires c != []
  {
    if b.height > c[0].height then [b] + c
    else if b.height == c[0].height then [Linked(b, c[0])] + c[1..]
    else [c[0], b] + c[1..]
  }

  /** Two blocks of the same height in one: the block with the larger key goes below. */
  function Linked(b: Block, c: Block): Block {
    if b.key < c.key then Block(b.node, b.key, b.obj, b.height + 1, [c] + b.kids)
    else Block(c.node, c.key, c.obj, c.height + 1, [b] + c.kids)
  }

  /** No pair is lost or gained. */
  lemma AddStepCount(b: Block, c: Row, p: Pair)
    requires c != []
    ensures Count(AddStep(b, c), p) == Here(b, p) + Count(c, p)
  {
    if b.height > c[0].height {
      CountOnTop(b, c, p);
    } else if b.height == c[0].height {
      CountOnTop(c[0], b.kids, p);
      CountOnTop(b, c[0].kids, p);
      CountOnTop(Linked(b, c[0]), c[1..], p);
    } else {
      CountOnTop(b, c[1..], p);
      CountOnTop(c[0], [b] + c[1..], p);
      assert [c[0], b] + c[1..] == [c[0]] + ([b] + c[1..]);
    }
  }

  lemma AddStepSize(b: Block, c: Row)
    requires c != []
    ensures Size(AddStep(b, c)) == Pow2(b.height) + Size(c)
  {
    if b.height > c[0].height {
      OnTop(b, c);
    } else if b.height == c[0].height {
      OnTop(Linked(b, c[0]), c[1..]);
    } else {
      OnTop(b, c[1..]);
      OnTop(c[0], [b] + c[1..]);
      assert [c[0], b] + c[1..] == [c[0]] + ([b] + c[1..]);
    }
  }

  lemma AddStepOrdered(b: Block, c: Row)
    requires c != [] && Ordered(c) && AtLeast(b.kids, b.key)
    ensures Ordered(AddStep(b, c))
  {
    var u := AddStep(b, c);
    if b.height > c[0].height {
      assert u[1..] == c;
    } else if b.height == c[0].height {
      assert u[1..] == c[1..];
      assert ([c[0]] + b.kids)[1..] == b.kids && ([b] + c[0].kids)[1..] == c[0].kids;
      if b.key < c[0].key { } else { }
    } else {
      assert u[1..] == [b] + c[1..] && u[1..][1..] == c[1..];
    }
  }

  /** What is left on the stack fits the row built so far: no height below the row's highest but
      perhaps one block just below it, for which there is room. */
  predicate Fit(st: Row, c: Row) {
    && c != [] && Falling(c, c[0].height + 1) && Piled(st)
    && (st != [] ==>
          var top := st[|st| - 1].height;
          && top + 1 >= c[0].height
          && (top + 1 == c[0].height ==> (|c| >= 2 ==> c[1].height < top) && (|st| >= 2 ==> st[|st| - 2].height > top)))
  }

  lemma LinkedFull(b: Block, c: Block)
    requires Full(b.kids, b.height) && Full(c.kids, c.height) && b.height == c.height
    ensures Full(Linked(b, c).kids, b.height + 1) && Linked(b, c).height == b.height + 1
  {
    assert ([c] + b.kids)[1..] == b.kids && ([b] + c.kids)[1..] == c.kids;
  }

  lemma FallingFrom(s: Row, b: nat, b': nat)
    requires Falling(s, b) && (s != [] ==> s[0].height < b')
    ensures Falling(s, b')
  {
  }

  lemma AddStepFit(st: Row, c: Row)
    requires Fit(st, c) && st != []
    ensures Fit(st[..|st| - 1], AddStep(st[|st| - 1], c))
  {
    PiledInit(st);
    AddStepFalling(st, c);
    var rest, b := st[..|st| - 1], st[|st| - 1];
    FallingPiled(c[1..], c[0].height);
    if |c| >= 2 { assert c[1..][0] == c[1]; }
    if rest != [] {
      assert rest[|rest| - 1] == st[|st| - 2] && st[|st| - 2].height >= b.height;
      if |rest| >= 2 { assert rest[|rest| - 2] == st[|st| - 3] && st[|st| - 3].height > st[|st| - 3 + 2].height; }
    }
  }

  lemma PiledInit(st: Row)
    requires Piled(st) && st != []
    ensures Piled(st[..|st| - 1])
  {
  }

  lemma AddStepFalling(st: Row, c: Row)
    requires Fit(st, c) && st != []
    ensures var u := AddStep(st[|st| - 1], c); u != [] && Falling(u, u[0].height + 1)
  {
    var b := st[|st| - 1];
    var u := AddStep(b, c);
    if b.height > c[0].height {
      assert u[1..] == c;
    } else if b.height == c[0].height {
      LinkedFull(b, c[0]);
      assert u[1..] == c[1..];
      FallingFrom(c[1..], c[0].height, c[0].height + 1);
    } else {
      assert u[1..] == [b] + c[1..] && u[1..][1..] == c[1..];
      FallingFrom(c[1..], c[0].height, b.height);
    }
  }

  // ---- In the heap.

  function Head(s: Row): Node? {
    if s == [] then null else s[0].node
  }

  ghost function Nodes(s: Row): set<Node>
    decreases s
  {
    if s == [] then {} else {s[0].node} + Nodes(s[0].kids) + Nodes(s[1..])
  }

  ghost predicate Distinct(s: Row)
    decreases s
  {
    s == [] || (&& s[0].node !in Nodes(s[0].kids) + Nodes(s[1..]) && Nodes(s[0].kids) !! Nodes(s[1..])
                && Distinct(s[0].kids) && Distinct(s[1..]))
  }

  /** The heap holds these blocks, whatever their left links. */
  ghost predicate Loose(s: Row)
    reads Nodes(s)
    decreases s, 0
  {
    s == [] || (Body(s[0]) && Loose(s[1..]))
  }

  ghost predicate Body(b: Block)
    reads {b.node} + Nodes(b.kids)
    decreases b, 0
  {
    && b.node.key == b.key && b.node.obj == b.obj && b.node.height == b.height && b.node.right == Head(b.kids)
    && Held(b.kids)
  }

  /** The left links run along the row. */
  ghost predicate Chain(s: Row)
    reads Nodes(s)
    decreases s, 0
  {
    s == [] || (s[0].node.left == Head(s[1..]) && Chain(s[1..]))
  }

  /** The heap holds the row. */
  ghost predicate Held(s: Row)
    reads Nodes(s)
    decreases s, 1
  {
    Loose(s) && Chain(s)
  }

  lemma {:induction false} NodesConcat(s: Row, t: Row)
    ensures Nodes(s + t) == Nodes(s) + Nodes(t)
  {
    if s == [] {
      assert s + t == t;
    } else {
      assert (s + t)[1..] == s[1..] + t;
      NodesConcat(s[1..], t);
    }
  }

  lemma {:induction false} DistinctConcat(s: Row, t: Row)
    ensures Distinct(s + t) <==> Distinct(s) && Distinct(t) && Nodes(s) !! Nodes(t)
  {
    if s == [] {
      assert s + t == t;
    } else {
      assert (s + t)[1..] == s[1..] + t;
      DistinctConcat(s[1..], t);
      NodesConcat(s[1..], t);
    }
  }

  lemma {:induction false} LooseConcat(s: Row, t: Row)
    ensures Loose(s + t) <==> Loose(s) && Loose(t)
  {
    if s == [] {
      assert s + t == t;
    } else {
      assert (s + t)[1..] == s[1..] + t;
      LooseConcat(s[1..], t);
    }
  }

  lemma {:induction false} Allocated(s: Row)
    ensures forall o :: o in Nodes(s) ==> allocated(o)
    decreases s
  {
    if s != [] {
      Allocated(s[0].kids);
      Allocated(s[1..]);
    }
  }

  /** The same blocks in one row. */
  lemma {:induction false} InterleaveNodes(s: Row, t: Row)
    ensures Nodes(Interleave(s, t)) == Nodes(s) + Nodes(t)
    decreases |s| + |t|
  {
    if s != [] && t != [] {
      if s[0].height > t[0].height {
        InterleaveNodes(s[1..], t);
        NodesOnTop(s[0], Interleave(s[1..], t));
      } else {
        InterleaveNodes(s, t[1..]);
        NodesOnTop(t[0], Interleave(s, t[1..]));
      }
    }
  }

  lemma NodesOnTop(b: Block, s: Row)
    ensures Nodes([b] + s) == {b.node} + Nodes(b.kids) + Nodes(s)
    ensures Distinct([b] + s) <==>
      && b.node !in Nodes(b.kids) + Nodes(s) && Nodes(b.kids) !! Nodes(s) && Distinct(b.kids) && Distinct(s)
    ensures Loose([b] + s) <==> Body(b) && Loose(s)
    ensures Chain([b] + s) <==> b.node.left == Head(s) && Chain(s)
  {
    assert ([b] + s)[1..] == s;
  }

  lemma {:induction false} InterleaveDistinct(s: Row, t: Row)
    requires Distinct(s) && Distinct(t) && Nodes(s) !! Nodes(t)
    ensures Distinct(Interleave(s, t))
    decreases |s| + |t|
  {
    if s != [] && t != [] {
      if s[0].height > t[0].height {
        InterleaveDistinct(s[1..], t);
        InterleaveNodes(s[1..], t);
        NodesOnTop(s[0], Interleave(s[1..], t));
      } else {
        InterleaveDistinct(s, t[1..]);
        InterleaveNodes(s, t[1..]);
        NodesOnTop(t[0], Interleave(s, t[1..]));
      }
    }
  }

  lemma {:induction false} InterleaveLoose(s: Row, t: Row)
    requires Loose(s) && Loose(t)
    ensures Loose(Interleave(s, t))
    decreases |s| + |t|
  {
    if s != [] && t != [] {
      if s[0].height > t[0].height {
        InterleaveLoose(s[1..], t);
        NodesOnTop(s[0], Interleave(s[1..], t));
      } else {
        InterleaveLoose(s, t[1..]);
        NodesOnTop(t[0], Interleave(s, t[1..]));
      }
    }
  }

  ghost predicate NodesOf(stack: seq<Node>, s: Row) {
    |stack| == |s| && forall i :: 0 <= i < |s| ==> stack[i] == s[i].node
  }

  lemma NextOnStack(done: Row, s: Row, t: Row)
    requires s != [] && t != []
    ensures s[0].height > t[0].height ==> done + Interleave(s, t) == done + [s[0]] + Interleave(s[1..], t)
    ensures s[0].height <= t[0].height ==> done + Interleave(s, t) == done + [t[0]] + Interleave(s, t[1..])
  {
  }

  /** Puts all blocks of both rows on the stack. */
  method StackUp(hp1: Node, hp2: Node, ghost s: Row, ghost t: Row) returns (stack: seq<Node>)
    requires Held(s) && Held(t) && Head(s) == hp1 && Head(t) == hp2
    ensures NodesOf(stack, Interleave(s, t))
  {
    var tmp1, tmp2; ghost var done, r1, r2;
    stack, tmp1, tmp2, done, r1, r2 := StackBoth(hp1, hp2, s, t);
    Allocated(r2);
    stack, done := PushRest(tmp1, stack, r1, done);
    stack, done := PushRest(tmp2, stack, r2, done);
  }

  /** The first loop, up to the end of one of the rows. */
  method StackBoth(hp1: Node, hp2: Node, ghost s: Row, ghost t: Row)
    returns (stack: seq<Node>, tmp1: Node?, tmp2: Node?, ghost done: Row, ghost r1: Row, ghost r2: Row)
    requires Held(s) && Held(t) && Head(s) == hp1 && Head(t) == hp2
    ensures Held(r1) && Held(r2) && tmp1 == Head(r1) && tmp2 == Head(r2) && (r1 == [] || r2 == [])
    ensures NodesOf(stack, done) && done + r1 + r2 == Interleave(s, t)
  {
    tmp1, tmp2 := hp1, hp2;
    done, r1, r2 := [], s, t;
    stack := [];
    while tmp1 != null && tmp2 != null
      invariant Held(r1) && Held(r2) && tmp1 == Head(r1) && tmp2 == Head(r2)
      invariant NodesOf(stack, done) && done + Interleave(r1, r2) == Interleave(s, t)
      decreases |r1| + |r2|
    {
      HeldTail(r1);
      HeldTail(r2);
      NextOnStack(done, r1, r2);
      if tmp1.height > tmp2.height {
        OneOnStack(stack, done, r1[0]);
        stack := stack + [tmp1];
        tmp1 := tmp1.left;
        done, r1 := done + [r1[0]], r1[1..];
      } else {
        OneOnStack(stack, done, r2[0]);
        stack := stack + [tmp2];
        tmp2 := tmp2.left;
        done, r2 := done + [r2[0]], r2[1..];
      }
    }
    OneRow(done, r1, r2);
  }

  lemma OneOnStack(stack: seq<Node>, done: Row, b: Block)
    requires NodesOf(stack, done)
    ensures NodesOf(stack + [b.node], done + [b])
  {
  }

  lemma OneRow(done: Row, s: Row, t: Row)
    requires s == [] || t == []
    ensures done + Interleave(s, t) == done + s + t
  {
  }

  method PushRest(tmp0: Node?, stack0: seq<Node>, ghost r0: Row, ghost done0: Row)
    returns (stack: seq<Node>, ghost done: Row)
    requires Held(r0) && tmp0 == Head(r0) && NodesOf(stack0, done0)
    ensures done == done0 + r0 && NodesOf(stack, done)
  {
    var tmp := tmp0;
    ghost var r := r0;
    stack, done := stack0, done0;
    while tmp != null
      invariant Held(r) && tmp == Head(r) && NodesOf(stack, done) && done + r == done0 + r0
      decreases |r|
    {
      stack := stack + [tmp];
      tmp := tmp.left;
      assert done + r == done + [r[0]] + r[1..];
      done, r := done + [r[0]], r[1..];
    }
  }

  /** Putting the blocks together anew. */
  lemma AddStepNodes(b: Block, c: Row)
    requires c != [] && Distinct([b] + c)
    ensures Distinct(AddStep(b, c)) && Nodes(AddStep(b, c)) == Nodes([b] + c)
  {
    NodesOnTop(b, c);
    if b.height == c[0].height {
      NodesOnTop(c[0], b.kids);
      NodesOnTop(b, c[0].kids);
      NodesOnTop(Linked(b, c[0]), c[1..]);
    } else if b.height < c[0].height {
      NodesOnTop(b, c[1..]);
      NodesOnTop(c[0], [b] + c[1..]);
      assert [c[0], b] + c[1..] == [c[0]] + ([b] + c[1..]);
    }
  }

  lemma HeldTail(s: Row)
    requires Held(s) && s != []
    ensures Held(s[1..]) && s[0].node.left == Head(s[1..]) && s[0].node.height == s[0].height
  {
    assert Body(s[0]);
  }

  lemma HeldOnTop(b: Block, rest: Row)
    requires Body(b) && b.node.left == Head(rest) && Held(rest)
    ensures Held([b] + rest) && Head([b] + rest) == b.node
  {
    assert ([b] + rest)[1..] == rest;
  }

  /** A block hung below another, in front of a row. */
  lemma Hung(b: Block, kids: Row, l: Block, rest: Row)
    requires Body(b) && b.node.left == Head(kids) && Held(kids) && l.kids == [b] + kids && Held(rest)
    requires l.node.left == Head(rest)
    requires l.node.key == l.key && l.node.obj == l.obj && l.node.height == l.height && l.node.right == b.node
    ensures Held([l] + rest) && Head([l] + rest) == l.node
  {
    HeldOnTop(b, kids);
    HeldOnTop(l, rest);
  }

  /** One turn of the addition. */
  method AddBlock(next: Node, current: Node, ghost b: Block, ghost c: Row) returns (r: Node)
    requires c != [] && Body(b) && Held(c) && next == b.node && current == c[0].node && Distinct([b] + c)
    modifies next, current
    ensures var u := AddStep(b, c); Held(u) && Head(u) == r && Distinct(u) && Nodes(u) == Nodes([b] + c)
  {
    AddStepNodes(b, c);
    NodesOnTop(b, c);
    assert Body(c[0]) && Held(c[1..]) && next.height == b.height && current.height == c[0].height;
    ghost var u := AddStep(b, c);
    if next.height > current.height {
      assert u == [b] + c;
      r := PutInFront(next, current, b, c);
    } else if next.height == current.height {
      assert u == [Linked(b, c[0])] + c[1..];
      r := LinkBlocks(next, current, b, c);
    } else {
      assert u == [c[0], b] + c[1..] && u[0] == c[0];
      r := PutBelow(next, current, b, c);
    }
  }

  method PutInFront(next: Node, current: Node, ghost b: Block, ghost c: Row) returns (r: Node)
    requires c != [] && Body(b) && Held(c) && next == b.node && current == c[0].node && Distinct([b] + c)
    modifies next
    ensures Held([b] + c) && r == next
  {
    NodesOnTop(b, c);
    Allocated(b.kids);
    Allocated(c);
    next.left := current;
    NodesOnTop(b, c);
    r := next;
  }

  method PutBelow(next: Node, current: Node, ghost b: Block, ghost c: Row) returns (r: Node)
    requires c != [] && Body(b) && Held(c) && next == b.node && current == c[0].node && Distinct([b] + c)
    modifies next, current
    ensures var u := [c[0], b] + c[1..]; Held(u) && r == current
  {
    ghost var rest, c0 := c[1..], c[0];
    NodesOnTop(b, c);
    assert Held(b.kids) && Held(c0.kids) && Held(rest);
    next.left := current.left;
    current.left := next;
    assert Body(b) && Body(c0) && Held(rest);
    HeldOnTop(b, rest);
    HeldOnTop(c0, [b] + rest);
    assert [c0, b] + rest == [c0] + ([b] + rest);
    r := current;
  }

  method LinkBlocks(next: Node, current: Node, ghost b: Block, ghost c: Row) returns (r: Node)
    requires c != [] && Body(b) && Held(c) && next == b.node && current == c[0].node && Distinct([b] + c)
    requires b.height == c[0].height
    modifies next, current
    ensures var u := [Linked(b, c[0])] + c[1..]; Held(u) && r == Head(u)
    ensures r == if old(next.key < current.key) then next else current
  {
    assert Body(c[0]) && next.key == b.key && current.key == c[0].key;
    ghost var u := [Linked(b, c[0])] + c[1..];
    if next.key < current.key {
      assert u == [Block(b.node, b.key, b.obj, b.height + 1, [c[0]] + b.kids)] + c[1..];
      r := HangCurrent(next, current, b, c);
    } else {
      assert u == [Block(c[0].node, c[0].key, c[0].obj, c[0].height + 1, [b] + c[0].kids)] + c[1..];
      r := HangNext(next, current, b, c);
    }
  }

  method HangCurrent(next: Node, current: Node, ghost b: Block, ghost c: Row) returns (r: Node)
    requires c != [] && Body(b) && Held(c) && next == b.node && current == c[0].node && Distinct([b] + c)
    requires b.height == c[0].height
    modifies next, current
    ensures var u := [Block(b.node, b.key, b.obj, b.height + 1, [c[0]] + b.kids)] + c[1..];
      Held(u) && r == next
  {
    ghost var rest, c0 := c[1..], c[0];
    NodesOnTop(b, c);
    assert Held(b.kids) && Held(c0.kids) && Held(rest);
    next.left := current.left;
    current.left := next.right;
    next.right := current;
    next.height := next.height + 1;
    assert Held(b.kids) && Body(c0) && Held(rest);
    Hung(c0, b.kids, Block(b.node, b.key, b.obj, b.height + 1, [c0] + b.kids), rest);
    r := next;
  }

  method HangNext(next: Node, current: Node, ghost b: Block, ghost c: Row) returns (r: Node)
    requires c != [] && Body(b) && Held(c) && next == b.node && current == c[0].node && Distinct([b] + c)
    requires b.height == c[0].height
    modifies next, current
    ensures var u := [Block(c[0].node, c[0].key, c[0].obj, c[0].height + 1, [b] + c[0].kids)] + c[1..];
      Held(u) && r == current
  {
    ghost var rest, c0 := c[1..], c[0];
    NodesOnTop(b, c);
    assert Held(b.kids) && Held(c0.kids) && Held(rest);
    next.left := current.right;
    current.right := next;
    current.height := current.height + 1;
    assert Body(b) && Held(c0.kids) && Held(rest);
    Hung(b, c0.kids, Block(c0.node, c0.key, c0.obj, c0.height + 1, [b] + c0.kids), rest);
    r := current;
  }

  // ---- The whole merge.

  lemma {:induction false} SizeConcat(s: Row, t: Row)
    ensures Size(s + t) == Size(s) + Size(t)
  {
    if s == [] {
      assert s + t == t;
    } else {
      assert (s + t)[1..] == s[1..] + t;
      SizeConcat(s[1..], t);
    }
  }

  lemma {:induction false} OrderedAt(s: Row, i: nat)
    requires Ordered(s) && i < |s|
    ensures AtLeast(s[i].kids, s[i].key)
  {
    if i > 0 { OrderedAt(s[1..], i - 1); }
  }

  /** The last block of a row, taken off. */
  lemma TakeOff(s: Row, n: nat)
    requires 0 < n <= |s|
    ensures s[..n] == s[..n - 1] + [s[n - 1]]
    ensures Nodes(s[..n]) == Nodes(s[..n - 1]) + ({s[n - 1].node} + Nodes(s[n - 1].kids))
    ensures Loose(s[..n]) <==> Loose(s[..n - 1]) && Body(s[n - 1])
  {
    var init, b := s[..n - 1], s[n - 1];
    assert s[..n] == init + [b];
    assert [b] + [] == [b];
    NodesConcat(init, [b]);
    NodesOnTop(b, []);
    LooseConcat(init, [b]);
  }

  lemma TakeOffSum(s: Row, n: nat)
    requires 0 < n <= |s|
    ensures Size(s[..n]) == Size(s[..n - 1]) + Pow2(s[n - 1].height)
    ensures forall p :: Count(s[..n], p) == Count(s[..n - 1], p) + Here(s[n - 1], p)
  {
    var init, b := s[..n - 1], s[n - 1];
    assert s[..n] == init + [b];
    assert [b] + [] == [b];
    SizeConcat(init, [b]);
    OnTop(b, []);
    forall p ensures Count(s[..n], p) == Count(init, p) + Here(b, p) {
      CountConcat(init, [b], p);
      CountOnTop(b, [], p);
    }
  }

  lemma TakeOffDistinct(s: Row, n: nat, c: Row)
    requires 0 < n <= |s|
    ensures Distinct(s[..n] + c) <==>
      Distinct(s[..n - 1]) && Distinct([s[n - 1]] + c) && Nodes(s[..n - 1]) !! Nodes([s[n - 1]] + c)
  {
    assert s[..n] + c == s[..n - 1] + ([s[n - 1]] + c);
    DistinctConcat(s[..n - 1], [s[n - 1]] + c);
  }

  /** The state of the addition: n blocks are left on the stack, c is the row built so far. */
  ghost predicate Adding(all: Row, n: nat, c: Row)
    requires n <= |all|
    reads Nodes(all[..n]) + Nodes(c)
  {
    Loose(all[..n]) && Held(c) && Distinct(all[..n] + c) && Nodes(all[..n]) + Nodes(c) == Nodes(all)
  }

  /** The sum so far. */
  ghost predicate Summing(all: Row, n: nat, c: Row)
    requires n <= |all|
  {
    && Fit(all[..n], c) && Ordered(c) && Size(all[..n]) + Size(c) == Size(all)
    && forall p :: Count(all[..n], p) + Count(c, p) == Count(all, p)
  }

  lemma SumTurn(all: Row, n: nat, c: Row)
    requires 0 < n <= |all| && Ordered(all) && Summing(all, n, c)
    ensures Summing(all, n - 1, AddStep(all[n - 1], c))
  {
    var b := all[n - 1];
    TakeOffSum(all, n);
    OrderedAt(all, n - 1);
    AddStepFit(all[..n], c);
    assert all[..n][..n - 1] == all[..n - 1];
    AddStepOrdered(b, c);
    AddStepSize(b, c);
    forall p ensures Count(AddStep(b, c), p) == Here(b, p) + Count(c, p) { AddStepCount(b, c, p); }
  }

  method AddTurn(next: Node, current: Node, ghost all: Row, ghost n: nat, ghost c: Row) returns (r: Node)
    requires 0 < n <= |all| && c != [] && Adding(all, n, c) && next == all[n - 1].node && current == Head(c)
    modifies Nodes(all)
    ensures Adding(all, n - 1, AddStep(all[n - 1], c)) && r == Head(AddStep(all[n - 1], c))
  {
    ghost var b, init := all[n - 1], all[..n - 1];
    TakeOff(all, n);
    TakeOffDistinct(all, n, c);
    NodesOnTop(b, c);
    Allocated(init);
    assert Loose(init);
    r := AddBlock(next, current, b, c);
    assert Loose(init);
    DistinctConcat(init, AddStep(b, c));
  }

  /** The row after the blocks from n on have been added. */
  function AddedFrom(all: Row, n: nat): (c: Row)
    requires n < |all|
    ensures c != []
    decreases |all| - n
  {
    if n == |all| - 1 then [all[n]] else AddStep(all[n], AddedFrom(all, n + 1))
  }

  lemma {:induction false} SumsUp(all: Row, n: nat)
    requires n < |all| && Piled(all) && Ordered(all)
    ensures Summing(all, n, AddedFrom(all, n))
    decreases |all| - n
  {
    if n == |all| - 1 {
      FirstSumming(all);
    } else {
      SumsUp(all, n + 1);
      SumTurn(all, n + 1, AddedFrom(all, n + 1));
    }
  }

  /** Pops the blocks and adds them up, lowest first. */
  method AddUp(stack0: seq<Node>, ghost all: Row) returns (r: Node, ghost c: Row)
    requires NodesOf(stack0, all) && all != [] && Loose(all) && Distinct(all) && Piled(all) && Ordered(all)
    requires all[|all| - 1].node.left == null
    modifies Nodes(all)
    ensures c != [] && Held(c) && Distinct(c) && Nodes(c) == Nodes(all) && r == Head(c)
    ensures Falling(c, c[0].height + 1) && Ordered(c) && Size(c) == Size(all)
    ensures forall p :: Count(c, p) == Count(all, p)
  {
    ghost var n: nat := |all| - 1;
    var stack := stack0[..|stack0| - 1];
    r := stack0[|stack0| - 1];
    c := [all[n]];
    FirstAdding(all);
    while |stack| > 0
      invariant n < |all| && c == AddedFrom(all, n) && NodesOf(stack, all[..n]) && r == Head(c) && Adding(all, n, c)
      decreases |stack|
    {
      var next := stack[|stack| - 1];
      stack := stack[..|stack| - 1];
      r := AddTurn(next, r, all, n, c);
      c, n := AddStep(all[n - 1], c), n - 1;
    }
    SumsUp(all, 0);
    AllAdded(all, c);
  }

  lemma AllAdded(all: Row, c: Row)
    requires Adding(all, 0, c) && Summing(all, 0, c)
    ensures Held(c) && Distinct(c) && Nodes(c) == Nodes(all) && Size(c) == Size(all)
    ensures forall p :: Count(c, p) == Count(all, p)
  {
    assert all[..0] == [] && [] + c == c;
  }

  lemma FirstAdding(all: Row)
    requires all != [] && Loose(all) && Distinct(all) && all[|all| - 1].node.left == null
    ensures Adding(all, |all| - 1, [all[|all| - 1]])
  {
    var n, b := |all| - 1, all[|all| - 1];
    var init := all[..n];
    assert init + [b] == all;
    LooseConcat(init, [b]);
    NodesConcat(init, [b]);
    assert Held([b]) by {
      assert Body([b][0]);
      assert [b] + [] == [b];
      HeldOnTop(b, []);
    }
  }

  lemma FirstSumming(all: Row)
    requires all != [] && Piled(all) && Ordered(all)
    ensures Summing(all, |all| - 1, [all[|all| - 1]])
  {
    var n, b := |all| - 1, all[|all| - 1];
    assert all[..n + 1] == all;
    TakeOffSum(all, n + 1);
    OrderedAt(all, n);
    OneBlock(b);
    PiledPrefix(all, n);
    forall p ensures Count([b], p) == Here(b, p) { CountOnTop(b, [], p); assert [b] + [] == [b]; }
  }

  lemma OneBlock(b: Block)
    requires Full(b.kids, b.height) && AtLeast(b.kids, b.key)
    ensures Falling([b], b.height + 1) && Ordered([b]) && Size([b]) == Pow2(b.height)
  {
    assert [b][1..] == [];
  }

  lemma PiledPrefix(all: Row, n: nat)
    requires Piled(all) && n == |all| - 1
    ensures Piled(all[..n]) && (n > 0 ==> all[n - 1].height >= all[n].height)
  {
  }

  /** Both rows are in the heap, apart from each other. */
  ghost predicate Two(s: Row, t: Row)
    reads Nodes(s) + Nodes(t)
  {
    Held(s) && Held(t) && Distinct(s) && Distinct(t) && Nodes(s) !! Nodes(t)
  }

  /** A row that is a heap of the source. */
  predicate Heap(s: Row) {
    (s != [] ==> Falling(s, s[0].height + 1)) && Ordered(s)
  }

  lemma {:induction false} LastLeft(s: Row)
    requires Chain(s) && s != []
    ensures s[|s| - 1].node.left == null
  {
    if |s| > 1 { LastLeft(s[1..]); }
  }

  lemma {:induction false} InterleaveLast(s: Row, t: Row)
    requires s != [] || t != []
    ensures Interleave(s, t) != []
    ensures var last := Interleave(s, t)[|Interleave(s, t)| - 1];
      (s != [] && last == s[|s| - 1]) || (t != [] && last == t[|t| - 1])
    decreases |s| + |t|
  {
    if s != [] && t != [] {
      if s[0].height > t[0].height { InterleaveLast(s[1..], t); } else { InterleaveLast(s, t[1..]); }
    }
  }

  /** Binary addition: the merge of two heaps that are not empty. */
  method Merge(hp1: Node, hp2: Node, ghost s: Row, ghost t: Row) returns (r: Node, ghost u: Row)
    requires Two(s, t) && Heap(s) && Heap(t) && Head(s) == hp1 && Head(t) == hp2
    modifies Nodes(s) + Nodes(t)
    ensures u != [] && Held(u) && Distinct(u) && Nodes(u) == Nodes(s) + Nodes(t) && r == Head(u)
    ensures Heap(u) && Size(u) == Size(s) + Size(t) && forall p :: Count(u, p) == Count(s, p) + Count(t, p)
  {
    ghost var all := Interleave(s, t);
    Allocated(s);
    Allocated(t);
    var stack := StackUp(hp1, hp2, s, t);
    MergeReady(s, t);
    r, u := AddUp(stack, all);
    forall p ensures Count(u, p) == Count(s, p) + Count(t, p) { InterleaveCount(s, t, p); }
  }

  lemma MergeReady(s: Row, t: Row)
    requires Two(s, t) && Heap(s) && Heap(t) && s != [] && t != []
    ensures var all := Interleave(s, t);
      && all != [] && Loose(all) && Distinct(all) && Piled(all) && Ordered(all) && all[|all| - 1].node.left == null
      && Nodes(all) == Nodes(s) + Nodes(t) && Size(all) == Size(s) + Size(t)
  {
    InterleaveLoose(s, t);
    InterleaveDistinct(s, t);
    InterleaveNodes(s, t);
    InterleavePiled(s, t, s[0].height + 1, t[0].height + 1);
    InterleaveSize(s, t);
    InterleaveLast(s, t);
    LastLeft(s);
    LastLeft(t);
  }
}
