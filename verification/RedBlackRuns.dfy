/** Runs of both red-black insertions: ch3/rb_tree.c and ch3/t_rb_tree.c give the same answers. */
module RedBlackRuns {
  import opened Prelude
  import opened LeafTree
  import opened BottomUpTree
  import opened TopDownTree

  datatype Pair = Pair(key: int, obj: int)

  /** The map after a run of insertions, of which those of keys already there change nothing. */
  function After(run: seq<Pair>): map<int, int> {
    if run == [] then map[] else
      var m, last := After(run[..|run| - 1]), run[|run| - 1];
      if last.key in m then m else m[last.key := last.obj]
  }

  /** The first insertion of a key is the one that counts. */
  lemma {:induction false} FirstCounts(run: seq<Pair>, k: nat)
    requires k < |run| && forall i :: 0 <= i < k ==> run[i].key != run[k].key
    ensures run[k].key in After(run) && After(run)[run[k].key] == run[k].obj
  {
    var init := run[..|run| - 1];
    if k < |run| - 1 { FirstCounts(init, k); } else { OnlyGiven(init, run[k].key); }
  }

  lemma {:induction false} OnlyGiven(run: seq<Pair>, key: int)
    ensures key in After(run) <==> exists i :: 0 <= i < |run| && run[i].key == key
  {
    if run != [] {
      var init, last := run[..|run| - 1], run[|run| - 1];
      OnlyGiven(init, key);
      if key in After(init) {
        var i :| 0 <= i < |init| && init[i].key == key;
        assert run[i].key == key;
      } else if key == last.key {
        assert run[|run| - 1].key == key;
      }
    }
  }

  method BuildBottomUp(run: seq<Pair>) returns (tree: BottomUpRedBlackTree)
    ensures fresh(tree.Repr()) && tree.Valid() && tree.Map() == After(run)
  {
    tree := new BottomUpRedBlackTree();
    for i := 0 to |run|
      invariant tree.Valid() && (forall o :: o in tree.Repr() ==> fresh(o))
      invariant tree.Map() == After(run[..i])
    {
      var _ := tree.Insert(run[i].key, run[i].obj);
      assert run[..i + 1][..i] == run[..i];
    }
    assert run[..|run|] == run;
  }

  method BuildTopDown(run: seq<Pair>) returns (tree: TopDownRedBlackTree)
    ensures fresh(tree.Repr()) && tree.Valid() && tree.Map() == After(run)
  {
    tree := new TopDownRedBlackTree();
    for i := 0 to |run|
      invariant tree.Valid() && (forall o :: o in tree.Repr() ==> fresh(o))
      invariant tree.Map() == After(run[..i])
    {
      var _ := tree.Insert(run[i].key, run[i].obj);
      assert run[..i + 1][..i] == run[..i];
    }
    assert run[..|run|] == run;
  }

  /** After any run of insertions both trees answer every query alike, and as the run says. */
  method Agree(run: seq<Pair>, query: int) returns (r1: Option<int>, r2: Option<int>)
    ensures r1 == r2 == if query in After(run) then Some(After(run)[query]) else None
  {
    var b := BuildBottomUp(run);
    r1 := b.Get(query);
    var t := BuildTopDown(run);
    r2 := t.Get(query);
  }
}
