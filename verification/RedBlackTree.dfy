/** Red-black trees, as ch3/rb_tree.c and ch3/t_rb_tree.c colour them: leaves carry a colour
    too, and both programs keep the same three conditions. */
module RedBlackTree {
  import opened Prelude
  import opened LeafTree

  datatype Colour = Red | Black

  type T = Tree<Colour>

  function Weigh(c: Colour): nat {
    if c.Black? then 1 else 0
  }

  /** The number of black nodes on the leftmost path down. */
  function Blacks(t: T): nat {
    Weigh(t.info) + if t.Leaf? then 0 else Blacks(t.left)
  }

  /** Every path down has the same number of black nodes. */
  predicate Even(t: T) {
    t.Fork? ==> Even(t.left) && Even(t.right) && Blacks(t.left) == Blacks(t.right)
  }

  /** No red node has a red child. */
  predicate Calm(t: T) {
    t.Fork? ==> Calm(t.left) && Calm(t.right) && (t.info.Red? ==> t.left.info.Black? && t.right.info.Black?)
  }

  predicate RedBlack(t: T) {
    t.info.Black? && Even(t) && Calm(t)
  }

  // ---- The conditions bound the depth.

  lemma {:induction false} DepthByBlacks(t: T)
    requires Even(t) && Calm(t)
    ensures Depth(t) <= 2 * Blacks(t) + if t.info.Red? then 0 else -1
  {
    if t.Fork? {
      DepthByBlacks(t.left);
      DepthByBlacks(t.right);
    }
  }

  lemma {:induction false} LeavesByBlacks(t: T)
    requires Even(t) && Calm(t)
    ensures Pow2(Blacks(t)) <= 2 * LeafCount(t)
  {
    if t.Fork? {
      LeavesByBlacks(t.left);
      LeavesByBlacks(t.right);
    }
  }

  /** A tree of n leaves is at most 2 log2(n) + 1 deep: no path needs more than its share of blacks. */
  lemma LogarithmicDepth(t: T)
    requires RedBlack(t)
    ensures Pow2(Depth(t) / 2) <= LeafCount(t)
  {
    DepthByBlacks(t);
    LeavesByBlacks(t);
    Pow2Monotone(Depth(t) / 2 + 1, Blacks(t));
  }

  // ---- The conditions along a path.

  predicate PathEven(p: Path<Colour>, blacks: nat) {
    p.Top? || (Even(p.other) && Blacks(p.other) == blacks && PathEven(p.up, blacks + Weigh(p.info)))
  }

  predicate PathCalm(p: Path<Colour>, c: Colour) {
    p.Top? || (Calm(p.other) && (p.info.Red? ==> c.Black? && p.other.info.Black?) && PathCalm(p.up, p.info))
  }

  lemma {:induction false} PlugEven(p: Path<Colour>, t: T)
    ensures Even(Plug(p, t)) <==> Even(t) && PathEven(p, Blacks(t))
  {
    if !p.Top? { PlugEven(p.up, Parent(p, t)); }
  }

  lemma {:induction false} PlugCalm(p: Path<Colour>, t: T)
    ensures Calm(Plug(p, t)) <==> Calm(t) && PathCalm(p, t.info)
  {
    if !p.Top? { PlugCalm(p.up, Parent(p, t)); }
  }

  /** The colour of the whole tree's root. */
  lemma {:induction false} PlugColour(p: Path<Colour>, t: T, u: T)
    requires !p.Top? || t.info == u.info
    ensures Plug(p, t).info == Plug(p, u).info
  {
    if !p.Top? { PlugColour(p.up, Parent(p, t), Parent(p, u)); }
  }

  /** A red head turned black. */
  lemma Blackened(t: T)
    requires Even(t) && Calm(t)
    ensures Even(WithInfo(t, Black)) && Calm(WithInfo(t, Black))
    ensures Blacks(WithInfo(t, Black)) == Blacks(t) + if t.info.Red? then 1 else 0
  {
  }

  lemma {:induction false} BlackHasBlacks(t: T)
    requires t.info.Black?
    ensures Blacks(t) >= 1
  {
  }
}
