/** The (2,4)-trees of ch3/a_b_tree.c as values: blocks of two to four entries, all leaves at the
    same depth, every separator between the keys on its two sides. */
module BlockTree {
  import opened Prelude

  /** A slot of a node's next array: an object on the leaf level, a node above it. */
  datatype Link = Null | Obj(obj: int) | Down(node: Node)

  const A := 2
  const B := 4

  class Node {
    var degree: int
    var height: int
    var key: seq<int>
    var next: seq<Link>

    constructor ()
      ensures height == 0 && degree == 0 && |key| == |next| == B
    {
      height := 0;
      degree := 0;
      key := seq(B, _ => 0);
      next := seq(B, _ => Null);
    }
  }

  /** A block of height 0 holds keys and objects. A higher one holds blocks one lower, and
      keys[i] separates kids[i - 1] from kids[i]; its keys[0] means nothing. */
  datatype Tree =
    | Item(obj: int)
    | Block(node: Node, height: nat, keys: seq<int>, kids: seq<Tree>)

  // ---- Shape.

  /** A subtree fit to be an entry of a block of height h. */
  predicate Entry(t: Tree, h: nat) {
    if h == 0 then t.Item? else
      t.Block? && t.height == h - 1 && A <= |t.keys| == |t.kids| <= B && forall i :: 0 <= i < |t.kids| ==>
        Entry(t.kids[i], h - 1)
  }

  predicate Entries(kids: seq<Tree>, h: nat) {
    forall i :: 0 <= i < |kids| ==> Entry(kids[i], h)
  }

  /** A whole tree: the root may have fewer entries on the leaf level. */
  predicate Shaped(t: Tree) {
    t.Block? && |t.keys| == |t.kids| <= B && Entries(t.kids, t.height) && (t.height > 0 ==> |t.keys| >= A)
  }

  // ---- Order.

  predicate Below(lo: Option<int>, k: int) {
    lo.Some? ==> lo.value <= k
  }

  predicate Above(k: int, hi: Option<int>) {
    hi.Some? ==> k < hi.value
  }

  /** The first key that means something. */
  function Start(h: nat): nat {
    if h == 0 then 0 else 1
  }

  function LowOf(keys: seq<int>, i: nat, lo: Option<int>): Option<int>
    requires i < |keys|
  {
    if i == 0 then lo else Some(keys[i])
  }

  function HighOf(keys: seq<int>, i: nat, hi: Option<int>): Option<int>
    requires i < |keys|
  {
    if i == |keys| - 1 then hi else Some(keys[i + 1])
  }

  predicate Increasing(keys: seq<int>, start: nat) {
    forall i, j :: start <= i < j < |keys| ==> keys[i] < keys[j]
  }

  /** Separators lie above the lower bound: there are keys on their left. */
  predicate Within(h: nat, keys: seq<int>, lo: Option<int>, hi: Option<int>) {
    forall i :: Start(h) <= i < |keys| ==> Below(lo, if h == 0 then keys[i] else keys[i] - 1) && Above(keys[i], hi)
  }

  /** All keys of t lie from lo on and below hi, in order, with right separators. */
  predicate InRange(t: Tree, lo: Option<int>, hi: Option<int>) {
    t.Block? ==>
      && |t.keys| == |t.kids| && Increasing(t.keys, Start(t.height)) && Within(t.height, t.keys, lo, hi)
      && (t.height > 0 ==> forall i :: 0 <= i < |t.kids| ==>
        InRange(t.kids[i], LowOf(t.keys, i, lo), HighOf(t.keys, i, hi)))
  }

  // ---- Contents.

  function Contents(t: Tree): map<int, int>
    decreases t, 0
  {
    if t.Item? || |t.keys| != |t.kids| then map[] else ContentsIn(t.height, t.keys, t.kids)
  }

  function ContentsIn(h: nat, keys: seq<int>, kids: seq<Tree>): map<int, int>
    requires |keys| == |kids|
    decreases kids, 0
  {
    if kids == [] then map[] else One(h, keys[0], kids[0]) + ContentsIn(h, keys[1..], kids[1..])
  }

  /** What one entry contributes. */
  function One(h: nat, key: int, t: Tree): map<int, int>
    decreases t, 1
  {
    if h == 0 then (if t.Item? then map[key := t.obj] else map[]) else Contents(t)
  }

  lemma {:induction false} ContentsConcat(h: nat, keys: seq<int>, keys': seq<int>, kids: seq<Tree>, kids': seq<Tree>)
    requires |keys| == |kids| && |keys'| == |kids'|
    ensures ContentsIn(h, keys + keys', kids + kids') == ContentsIn(h, keys, kids) + ContentsIn(h, keys', kids')
  {
    if kids == [] {
      assert keys + keys' == keys' && kids + kids' == kids';
    } else {
      assert (keys + keys')[1..] == keys[1..] + keys' && (kids + kids')[1..] == kids[1..] + kids';
      ContentsConcat(h, keys[1..], keys', kids[1..], kids');
    }
  }

  /** Keys of higher blocks, and the first of them all the more, have no part in the contents. */
  lemma {:induction false} ContentsKeys(h: nat, keys: seq<int>, keys': seq<int>, kids: seq<Tree>)
    requires |keys| == |keys'| == |kids| && h > 0
    ensures ContentsIn(h, keys, kids) == ContentsIn(h, keys', kids)
  {
    if kids != [] { ContentsKeys(h, keys[1..], keys'[1..], kids[1..]); }
  }

  lemma {:induction false} KeysInRange(t: Tree, lo: Option<int>, hi: Option<int>, q: int)
    requires InRange(t, lo, hi) && q in Contents(t)
    ensures Below(lo, q) && Above(q, hi)
  {
    var i := EntryOf(t.height, t.keys, t.kids, q);
    if t.height > 0 { KeysInRange(t.kids[i], LowOf(t.keys, i, lo), HighOf(t.keys, i, hi), q); }
  }

  /** A key of the contents comes from some entry. */
  lemma {:induction false} EntryOf(h: nat, keys: seq<int>, kids: seq<Tree>, q: int) returns (i: nat)
    requires |keys| == |kids| && q in ContentsIn(h, keys, kids)
    ensures i < |kids| && q in One(h, keys[i], kids[i]) && (h > 0 ==> q in Contents(kids[i]))
    ensures h == 0 ==> keys[i] == q
  {
    if q in One(h, keys[0], kids[0]) {
      i := 0;
    } else {
      var j := EntryOf(h, keys[1..], kids[1..], q);
      i := j + 1;
    }
  }

  /** Where no other entry has the key q, the contents have q as entry i does. */
  lemma {:induction false} OnlyEntry(h: nat, keys: seq<int>, kids: seq<Tree>, i: nat, q: int)
    requires |keys| == |kids| && i < |kids|
    requires forall j :: 0 <= j < |kids| && j != i ==> q !in One(h, keys[j], kids[j])
    ensures q in ContentsIn(h, keys, kids) <==> q in One(h, keys[i], kids[i])
    ensures q in One(h, keys[i], kids[i]) ==> ContentsIn(h, keys, kids)[q] == One(h, keys[i], kids[i])[q]
  {
    if i == 0 {
      if q in ContentsIn(h, keys[1..], kids[1..]) {
        var j := EntryOf(h, keys[1..], kids[1..], q);
        assert q in One(h, keys[j + 1], kids[j + 1]);
      }
    } else {
      forall j | 0 <= j < |kids[1..]| && j != i - 1 ensures q !in One(h, keys[1..][j], kids[1..][j]) {
        assert q !in One(h, keys[j + 1], kids[j + 1]);
      }
      OnlyEntry(h, keys[1..], kids[1..], i - 1, q);
    }
  }

  // ---- Searching a block.

  /** Entry i is where a search for q goes on. */
  predicate IsIndex(keys: seq<int>, q: int, i: nat) {
    i < |keys| && (i == 0 || keys[i] <= q) && (i + 1 < |keys| ==> q < keys[i + 1])
  }

  /** The search loses nothing: only the entry it goes on with can hold q. */
  lemma SearchEntry(t: Tree, lo: Option<int>, hi: Option<int>, i: nat, q: int)
    requires t.Block? && InRange(t, lo, hi) && IsIndex(t.keys, q, i)
    ensures q in Contents(t) <==> q in One(t.height, t.keys[i], t.kids[i])
    ensures q in Contents(t) ==> Contents(t)[q] == One(t.height, t.keys[i], t.kids[i])[q]
  {
    forall j | 0 <= j < |t.kids| && j != i ensures q !in One(t.height, t.keys[j], t.kids[j]) {
      if t.height > 0 && q in Contents(t.kids[j]) {
        KeysInRange(t.kids[j], LowOf(t.keys, j, lo), HighOf(t.keys, j, hi), q);
      }
    }
    OnlyEntry(t.height, t.keys, t.kids, i, q);
  }

  // ---- Cutting a block in two, and gluing two together.

  /** The keys of two neighbours in one block; between higher blocks the separator comes in. */
  function Glue(h: nat, l: seq<int>, r: seq<int>, k: int): seq<int>
    requires r != []
  {
    l + if h == 0 then r else [k] + r[1..]
  }

  function GluedKeys(l: Tree, r: Tree, k: int): seq<int>
    requires l.Block? && r.Block? && r.keys != []
  {
    Glue(r.height, l.keys, r.keys, k)
  }

  lemma CutInRange(t: Tree, m: nat, lo: Option<int>, hi: Option<int>, n: Node, n': Node)
    requires t.Block? && InRange(t, lo, hi) && 0 < m < |t.keys|
    ensures Below(lo, t.keys[m] - 1) && Above(t.keys[m], hi)
    ensures InRange(Block(n, t.height, t.keys[..m], t.kids[..m]), lo, Some(t.keys[m]))
    ensures InRange(Block(n', t.height, t.keys[m..], t.kids[m..]), Some(t.keys[m]), hi)
  {
    assert t.height == 0 ==> t.keys[0] < t.keys[m];
    var l, r := Block(n, t.height, t.keys[..m], t.kids[..m]), Block(n', t.height, t.keys[m..], t.kids[m..]);
    if t.height > 0 {
      forall i | 0 <= i < m ensures InRange(l.kids[i], LowOf(l.keys, i, lo), HighOf(l.keys, i, Some(t.keys[m]))) {
        assert InRange(t.kids[i], LowOf(t.keys, i, lo), HighOf(t.keys, i, hi));
      }
      forall i | 0 <= i < |r.kids|
        ensures InRange(r.kids[i], LowOf(r.keys, i, Some(t.keys[m])), HighOf(r.keys, i, hi)) {
        assert InRange(t.kids[m + i], LowOf(t.keys, m + i, lo), HighOf(t.keys, m + i, hi));
      }
    }
  }

  lemma GluedOrdered(l: Tree, r: Tree, k: int, lo: Option<int>, hi: Option<int>)
    requires l.Block? && r.Block? && l.height == r.height && l.keys != [] && r.keys != []
    requires InRange(l, lo, Some(k)) && InRange(r, Some(k), hi) && Below(lo, k - 1) && Above(k, hi)
    ensures Increasing(GluedKeys(l, r, k), Start(l.height)) && Within(l.height, GluedKeys(l, r, k), lo, hi)
  {
    var keys, m := GluedKeys(l, r, k), |l.keys|;
    forall i | Start(l.height) <= i < |keys|
      ensures if i < m then keys[i] == l.keys[i] < k else k <= keys[i] && (i > m ==> keys[i] == r.keys[i - m])
    {
    }
  }

  lemma GluedKid(l: Tree, r: Tree, k: int, lo: Option<int>, hi: Option<int>, i: nat)
    requires l.Block? && r.Block? && l.height == r.height > 0 && l.keys != [] && r.keys != []
    requires InRange(l, lo, Some(k)) && InRange(r, Some(k), hi) && i < |l.keys| + |r.keys|
    ensures InRange((l.kids + r.kids)[i], LowOf(GluedKeys(l, r, k), i, lo), HighOf(GluedKeys(l, r, k), i, hi))
  {
    var m := |l.keys|;
    if i < m {
      assert InRange(l.kids[i], LowOf(l.keys, i, lo), HighOf(l.keys, i, Some(k)));
    } else {
      assert InRange(r.kids[i - m], LowOf(r.keys, i - m, Some(k)), HighOf(r.keys, i - m, hi));
    }
  }

  lemma GluedInRange(l: Tree, r: Tree, k: int, lo: Option<int>, hi: Option<int>, n: Node)
    requires l.Block? && r.Block? && l.height == r.height && l.keys != [] && r.keys != []
    requires InRange(l, lo, Some(k)) && InRange(r, Some(k), hi) && Below(lo, k - 1) && Above(k, hi)
    ensures InRange(Block(n, l.height, GluedKeys(l, r, k), l.kids + r.kids), lo, hi)
  {
    GluedOrdered(l, r, k, lo, hi);
    if l.height > 0 {
      forall i | 0 <= i < |l.keys| + |r.keys|
        ensures InRange((l.kids + r.kids)[i], LowOf(GluedKeys(l, r, k), i, lo), HighOf(GluedKeys(l, r, k), i, hi))
      {
        GluedKid(l, r, k, lo, hi, i);
      }
    }
  }

  lemma CutContents(t: Tree, m: nat, n: Node, n': Node)
    requires t.Block? && |t.keys| == |t.kids| && m <= |t.keys|
    ensures Contents(t) == Contents(Block(n, t.height, t.keys[..m], t.kids[..m]))
                         + Contents(Block(n', t.height, t.keys[m..], t.kids[m..]))
  {
    assert t.keys == t.keys[..m] + t.keys[m..] && t.kids == t.kids[..m] + t.kids[m..];
    ContentsConcat(t.height, t.keys[..m], t.keys[m..], t.kids[..m], t.kids[m..]);
  }

  lemma GluedContents(l: Tree, r: Tree, k: int, n: Node)
    requires l.Block? && r.Block? && l.height == r.height && |l.keys| == |l.kids| && |r.keys| == |r.kids|
    requires r.keys != []
    ensures Contents(Block(n, l.height, GluedKeys(l, r, k), l.kids + r.kids)) == Contents(l) + Contents(r)
  {
    var keys := if r.height == 0 then r.keys else [k] + r.keys[1..];
    ContentsConcat(l.height, l.keys, keys, l.kids, r.kids);
    if r.height > 0 { ContentsKeys(r.height, keys, r.keys, r.kids); }
  }

  // ---- Changing the entries of a higher block.

  function Ins<X>(s: seq<X>, i: nat, x: X): seq<X>
    requires i <= |s|
  {
    s[..i] + [x] + s[i..]
  }

  function Del<X>(s: seq<X>, i: nat): seq<X>
    requires i < |s|
  {
    s[..i] + s[i + 1..]
  }

  lemma KidReplaced(t: Tree, i: nat, u: Tree, lo: Option<int>, hi: Option<int>)
    requires t.Block? && t.height > 0 && InRange(t, lo, hi) && i < |t.kids|
    requires InRange(u, LowOf(t.keys, i, lo), HighOf(t.keys, i, hi))
    ensures InRange(Block(t.node, t.height, t.keys, t.kids[i := u]), lo, hi)
  {
  }

  /** Where the entry now at j was. */
  function Was(i: nat, j: nat): nat {
    if j <= i then j else j - 1
  }

  lemma InsAt<X>(s: seq<X>, i: nat, x: X, j: nat)
    requires i < |s| && j <= |s|
    ensures |Ins(s, i + 1, x)| == |s| + 1
    ensures Ins(s, i + 1, x)[j] == if j == i + 1 then x else s[Was(i, j)]
  {
  }

  lemma DelAt<X>(s: seq<X>, i: nat, j: nat)
    requires i < |s| && j < |s| - 1
    ensures |Del(s, i)| == |s| - 1 && Del(s, i)[j] == s[if j < i then j else j + 1]
  {
  }

  lemma KeysApart(keys: seq<int>, i: nat, k: int, lo: Option<int>, hi: Option<int>, a: nat, b: nat)
    requires i < |keys| && Increasing(keys, 1) && Below(LowOf(keys, i, lo), k - 1) && Above(k, HighOf(keys, i, hi))
    requires 1 <= a < b <= |keys|
    ensures |Ins(keys, i + 1, k)| == |keys| + 1 && Ins(keys, i + 1, k)[a] < Ins(keys, i + 1, k)[b]
  {
    InsAt(keys, i, k, a);
    InsAt(keys, i, k, b);
    if a == i + 1 {
      if b > i + 2 { assert keys[i + 1] < keys[Was(i, b)]; }
    } else if b == i + 1 {
      if a < i { assert keys[a] < keys[i]; }
    } else {
      assert keys[Was(i, a)] < keys[Was(i, b)];
    }
  }

  lemma KeyInserted(h: nat, keys: seq<int>, i: nat, k: int, lo: Option<int>, hi: Option<int>)
    requires h > 0 && i < |keys| && Increasing(keys, 1) && Within(h, keys, lo, hi)
    requires Below(LowOf(keys, i, lo), k - 1) && Above(k, HighOf(keys, i, hi))
    ensures Increasing(Ins(keys, i + 1, k), 1) && Within(h, Ins(keys, i + 1, k), lo, hi)
  {
    var s := Ins(keys, i + 1, k);
    forall a, b | 1 <= a < b < |s| ensures s[a] < s[b] { KeysApart(keys, i, k, lo, hi, a, b); }
    forall a | 1 <= a < |s| ensures Below(lo, s[a] - 1) && Above(s[a], hi) {
      InsAt(keys, i, k, a);
    }
  }

  /** An entry gives way to two, with the separator k between them. */
  lemma KidSplit(t: Tree, i: nat, l: Tree, r: Tree, k: int, lo: Option<int>, hi: Option<int>)
    requires t.Block? && t.height > 0 && InRange(t, lo, hi) && i < |t.kids|
    requires InRange(l, LowOf(t.keys, i, lo), Some(k)) && InRange(r, Some(k), HighOf(t.keys, i, hi))
    requires Below(LowOf(t.keys, i, lo), k - 1) && Above(k, HighOf(t.keys, i, hi))
    ensures InRange(Block(t.node, t.height, Ins(t.keys, i + 1, k), Ins(t.kids[i := l], i + 1, r)), lo, hi)
  {
    var keys, kids := Ins(t.keys, i + 1, k), Ins(t.kids[i := l], i + 1, r);
    KeyInserted(t.height, t.keys, i, k, lo, hi);
    forall j | 0 <= j < |kids| ensures InRange(kids[j], LowOf(keys, j, lo), HighOf(keys, j, hi)) {
      KidSplitAt(t, i, l, r, k, lo, hi, j);
    }
  }

  lemma KidSplitAt(t: Tree, i: nat, l: Tree, r: Tree, k: int, lo: Option<int>, hi: Option<int>, j: nat)
    requires t.Block? && t.height > 0 && InRange(t, lo, hi) && i < |t.kids| && j <= |t.kids|
    requires InRange(l, LowOf(t.keys, i, lo), Some(k)) && InRange(r, Some(k), HighOf(t.keys, i, hi))
    ensures var keys, kids := Ins(t.keys, i + 1, k), Ins(t.kids[i := l], i + 1, r);
      InRange(kids[j], LowOf(keys, j, lo), HighOf(keys, j, hi))
  {
    InsBounds(t.keys, i, k, lo, hi, j);
    InsAt(t.kids[i := l], i, r, j);
    var w := Was(i, j);
    assert InRange(t.kids[w], LowOf(t.keys, w, lo), HighOf(t.keys, w, hi));
  }

  lemma InsBounds(keys: seq<int>, i: nat, k: int, lo: Option<int>, hi: Option<int>, j: nat)
    requires i < |keys| && j <= |keys|
    ensures |Ins(keys, i + 1, k)| == |keys| + 1
    ensures LowOf(Ins(keys, i + 1, k), j, lo) == if j == i + 1 then Some(k) else LowOf(keys, Was(i, j), lo)
    ensures HighOf(Ins(keys, i + 1, k), j, hi) == if j == i then Some(k) else HighOf(keys, Was(i, j), hi)
  {
    InsAt(keys, i, k, j);
    if j < |keys| { InsAt(keys, i, k, j + 1); }
  }

  lemma KeyDeleted(h: nat, keys: seq<int>, i: nat, lo: Option<int>, hi: Option<int>)
    requires i < |keys| && Increasing(keys, Start(h)) && Within(h, keys, lo, hi) && Start(h) <= i
    ensures Increasing(Del(keys, i), Start(h)) && Within(h, Del(keys, i), lo, hi)
  {
    var s := Del(keys, i);
    forall a, b | Start(h) <= a < b < |s| ensures s[a] < s[b] {
      DelAt(keys, i, a);
      DelAt(keys, i, b);
    }
    forall a | Start(h) <= a < |s| ensures Below(lo, if h == 0 then s[a] else s[a] - 1) && Above(s[a], hi) {
      DelAt(keys, i, a);
    }
  }

  /** Two neighbouring entries give way to one. */
  lemma KidsJoined(t: Tree, i: nat, e: Tree, lo: Option<int>, hi: Option<int>)
    requires t.Block? && t.height > 0 && InRange(t, lo, hi) && i + 1 < |t.kids|
    requires InRange(e, LowOf(t.keys, i, lo), HighOf(t.keys, i + 1, hi))
    ensures InRange(Block(t.node, t.height, Del(t.keys, i + 1), Del(t.kids[i := e], i + 1)), lo, hi)
  {
    var keys, kids := Del(t.keys, i + 1), Del(t.kids[i := e], i + 1);
    KeyDeleted(t.height, t.keys, i + 1, lo, hi);
    forall j | 0 <= j < |kids| ensures InRange(kids[j], LowOf(keys, j, lo), HighOf(keys, j, hi)) {
      KidsJoinedAt(t, i, e, lo, hi, j);
    }
  }

  lemma KidsJoinedAt(t: Tree, i: nat, e: Tree, lo: Option<int>, hi: Option<int>, j: nat)
    requires t.Block? && t.height > 0 && InRange(t, lo, hi) && i + 1 < |t.kids| && j + 1 < |t.kids|
    requires InRange(e, LowOf(t.keys, i, lo), HighOf(t.keys, i + 1, hi))
    ensures var keys, kids := Del(t.keys, i + 1), Del(t.kids[i := e], i + 1);
      InRange(kids[j], LowOf(keys, j, lo), HighOf(keys, j, hi))
  {
    DelBounds(t.keys, i, lo, hi, j);
    DelAt(t.kids[i := e], i + 1, j);
    var w := if j <= i then j else j + 1;
    assert InRange(t.kids[w], LowOf(t.keys, w, lo), HighOf(t.keys, w, hi));
  }

  lemma DelBounds(keys: seq<int>, i: nat, lo: Option<int>, hi: Option<int>, j: nat)
    requires i + 1 < |keys| && j + 1 < |keys|
    ensures |Del(keys, i + 1)| == |keys| - 1
    ensures LowOf(Del(keys, i + 1), j, lo) == LowOf(keys, if j <= i then j else j + 1, lo)
    ensures HighOf(Del(keys, i + 1), j, hi) == HighOf(keys, if j < i then j else j + 1, hi)
  {
    DelAt(keys, i + 1, j);
    if j + 2 < |keys| { DelAt(keys, i + 1, j + 1); }
  }

  /** The contents before, at and after an entry. */
  lemma ContentsAround(h: nat, lk: seq<int>, k: int, rk: seq<int>, left: seq<Tree>, t: Tree, right: seq<Tree>)
    requires |lk| == |left| && |rk| == |right|
    ensures ContentsIn(h, lk + [k] + rk, left + [t] + right) == ContentsIn(h, lk, left) + One(h, k, t) +
      ContentsIn(h, rk, right)
  {
    var keys, kids := [k] + rk, [t] + right;
    assert ContentsIn(h, keys, kids) == One(h, k, t) + ContentsIn(h, rk, right) by {
      assert keys[1..] == rk && kids[1..] == right;
    }
    assert lk + [k] + rk == lk + keys && left + [t] + right == left + kids;
    ContentsConcat(h, lk, keys, left, kids);
    MapAssociative(ContentsIn(h, lk, left), One(h, k, t), ContentsIn(h, rk, right));
  }

  lemma ContentsLast(h: nat, lk: seq<int>, k: int, left: seq<Tree>, t: Tree)
    requires |lk| == |left|
    ensures ContentsIn(h, lk + [k], left + [t]) == ContentsIn(h, lk, left) + One(h, k, t)
  {
    ContentsConcat(h, lk, [k], left, [t]);
    assert ContentsIn(h, [k], [t]) == One(h, k, t) by {
      assert [k][1..] == [] && [t][1..] == [];
    }
  }

  lemma ContentsAround2(h: nat, lk: seq<int>, k: int, k': int, rk: seq<int>, left: seq<Tree>, t: Tree, t': Tree,
      right: seq<Tree>)
    requires |lk| == |left| && |rk| == |right|
    ensures ContentsIn(h, lk + [k] + [k'] + rk, left + [t] + [t'] + right)
         == ContentsIn(h, lk, left) + One(h, k, t) + One(h, k', t') + ContentsIn(h, rk, right)
  {
    ContentsAround(h, lk + [k], k', rk, left + [t], t', right);
    ContentsLast(h, lk, k, left, t);
  }

  lemma MapAssociative(a: map<int, int>, b: map<int, int>, c: map<int, int>)
    ensures a + b + c == a + (b + c)
  {
  }

  lemma SplitSeq<X>(s: seq<X>, i: nat, y: X, x: X)
    requires i < |s|
    ensures s == s[..i] + [s[i]] + s[i + 1..]
    ensures s[i := y] == s[..i] + [y] + s[i + 1..]
    ensures Ins(s[i := y], i + 1, x) == s[..i] + [y] + [x] + s[i + 1..]
  {
  }

  lemma KidSplitContents(t: Tree, i: nat, l: Tree, r: Tree, k: int)
    requires t.Block? && t.height > 0 && |t.keys| == |t.kids| && i < |t.kids|
    requires Contents(t.kids[i]) == Contents(l) + Contents(r)
    ensures Contents(Block(t.node, t.height, Ins(t.keys, i + 1, k), Ins(t.kids[i := l], i + 1, r))) == Contents(t)
  {
    var lk, rk, left, right := t.keys[..i], t.keys[i + 1..], t.kids[..i], t.kids[i + 1..];
    SplitSeq(t.keys, i, t.keys[i], k);
    SplitSeq(t.kids, i, l, r);
    ContentsAround(t.height, lk, t.keys[i], rk, left, t.kids[i], right);
    ContentsAround2(t.height, lk, t.keys[i], k, rk, left, l, r, right);
    MapAssociative(ContentsIn(t.height, lk, left), Contents(l), Contents(r));
  }

  lemma JoinSeq<X>(s: seq<X>, i: nat, y: X)
    requires i + 1 < |s|
    ensures s == s[..i] + [s[i]] + [s[i + 1]] + s[i + 2..]
    ensures Del(s[i := y], i + 1) == s[..i] + [y] + s[i + 2..]
  {
  }

  lemma KidsJoinedContents(t: Tree, i: nat, e: Tree)
    requires t.Block? && t.height > 0 && |t.keys| == |t.kids| && i + 1 < |t.kids|
    requires Contents(e) == Contents(t.kids[i]) + Contents(t.kids[i + 1])
    ensures Contents(Block(t.node, t.height, Del(t.keys, i + 1), Del(t.kids[i := e], i + 1))) == Contents(t)
  {
    var lk, rk, left, right := t.keys[..i], t.keys[i + 2..], t.kids[..i], t.kids[i + 2..];
    JoinSeq(t.keys, i, t.keys[i]);
    assert t.keys[i := t.keys[i]] == t.keys;
    JoinSeq(t.kids, i, e);
    ContentsAround(t.height, lk, t.keys[i], rk, left, e, right);
    ContentsAround2(t.height, lk, t.keys[i], t.keys[i + 1], rk, left, t.kids[i], t.kids[i + 1], right);
    MapAssociative(ContentsIn(t.height, lk, left), Contents(t.kids[i]), Contents(t.kids[i + 1]));
  }

  // ---- Inserting into, and deleting from, a block.

  /** The place of key k among the keys from start on. */
  predicate IsPlace(keys: seq<int>, start: nat, k: int, i: nat) {
    start <= i <= |keys| && (forall j :: start <= j < i ==> keys[j] <= k) && forall j :: i <= j < |keys| ==> k < keys[j]
  }

  lemma LeafKeysInserted(keys: seq<int>, i: nat, k: int, lo: Option<int>, hi: Option<int>)
    requires Increasing(keys, 0) && Within(0, keys, lo, hi) && IsPlace(keys, 0, k, i) && k !in keys && Below(lo, k)
    requires Above(k, hi)
    ensures Increasing(Ins(keys, i, k), 0) && Within(0, Ins(keys, i, k), lo, hi)
  {
    var s := Ins(keys, i, k);
    forall j | 0 <= j < |s|
      ensures s[j] == if j < i then keys[j] else if j == i then k else keys[j - 1]
    {
    }
    assert forall j :: 0 <= j < i ==> keys[j] < k;
  }

  lemma LeafContentsInserted(keys: seq<int>, kids: seq<Tree>, i: nat, k: int, obj: int)
    requires |keys| == |kids| && i <= |keys| && k !in ContentsIn(0, keys, kids)
    ensures ContentsIn(0, Ins(keys, i, k), Ins(kids, i, Item(obj))) == ContentsIn(0, keys, kids)[k := obj]
  {
    var lk, rk, left, right := keys[..i], keys[i..], kids[..i], kids[i..];
    assert lk + rk == keys && left + right == kids;
    ContentsConcat(0, lk, rk, left, right);
    ContentsAround(0, lk, k, rk, left, Item(obj), right);
    assert One(0, k, Item(obj)) == map[k := obj];
    MapInserted(ContentsIn(0, lk, left), ContentsIn(0, rk, right), k, obj);
  }

  lemma MapInserted(a: map<int, int>, b: map<int, int>, k: int, v: int)
    requires k !in b
    ensures a + map[k := v] + b == (a + b)[k := v]
  {
  }

  lemma MapDeleted(a: map<int, int>, b: map<int, int>, k: int, v: int)
    requires k !in a && k !in b
    ensures a + b == (a + map[k := v] + b) - {k}
  {
  }

  lemma {:induction false} InContents(h: nat, keys: seq<int>, kids: seq<Tree>, i: nat, q: int)
    requires |keys| == |kids| && i < |kids| && q in One(h, keys[i], kids[i])
    ensures q in ContentsIn(h, keys, kids)
  {
    if i > 0 { InContents(h, keys[1..], kids[1..], i - 1, q); }
  }

  /** A new key in its place in a leaf block. */
  lemma LeafInserted(t: Tree, i: nat, k: int, obj: int, lo: Option<int>, hi: Option<int>)
    requires t.Block? && t.height == 0 && Entries(t.kids, 0) && InRange(t, lo, hi)
    requires IsPlace(t.keys, 0, k, i) && k !in Contents(t) && Below(lo, k) && Above(k, hi)
    ensures var u := Block(t.node, 0, Ins(t.keys, i, k), Ins(t.kids, i, Item(obj)));
      InRange(u, lo, hi) && Contents(u) == Contents(t)[k := obj]
  {
    forall a | 0 <= a < |t.keys| ensures t.keys[a] != k {
      if t.keys[a] == k { InContents(0, t.keys, t.kids, a, k); }
    }
    LeafKeysInserted(t.keys, i, k, lo, hi);
    LeafContentsInserted(t.keys, t.kids, i, k, obj);
  }

  lemma LeafContentsDeleted(keys: seq<int>, kids: seq<Tree>, i: nat)
    requires |keys| == |kids| && i < |keys| && Increasing(keys, 0) && kids[i].Item?
    ensures ContentsIn(0, Del(keys, i), Del(kids, i)) == ContentsIn(0, keys, kids) - {keys[i]}
  {
    var k, lk, rk, left, right := keys[i], keys[..i], keys[i + 1..], kids[..i], kids[i + 1..];
    SplitSeq(keys, i, k, k);
    SplitSeq(kids, i, kids[i], kids[i]);
    ContentsAround(0, lk, k, rk, left, kids[i], right);
    ContentsConcat(0, lk, rk, left, right);
    NotAmong(lk, left, k);
    NotAmong(rk, right, k);
    MapDeleted(ContentsIn(0, lk, left), ContentsIn(0, rk, right), k, kids[i].obj);
  }

  lemma LeafDeleted(t: Tree, i: nat, lo: Option<int>, hi: Option<int>)
    requires t.Block? && t.height == 0 && Entries(t.kids, 0) && InRange(t, lo, hi) && i < |t.keys|
    ensures var u := Block(t.node, 0, Del(t.keys, i), Del(t.kids, i));
      InRange(u, lo, hi) && Contents(u) == Contents(t) - {t.keys[i]}
    ensures t.keys[i] in Contents(t) && Contents(t)[t.keys[i]] == t.kids[i].obj
  {
    KeyDeleted(0, t.keys, i, lo, hi);
    OnlyEntry(0, t.keys, t.kids, i, t.keys[i]);
    LeafContentsDeleted(t.keys, t.kids, i);
  }

  lemma NotAmong(keys: seq<int>, kids: seq<Tree>, k: int)
    requires |keys| == |kids| && k !in keys
    ensures k !in ContentsIn(0, keys, kids)
  {
    if k in ContentsIn(0, keys, kids) { var i := EntryOf(0, keys, kids, k); }
  }

  // ---- Depth.

  lemma TwoParts<X>(a: set<X>, b: set<X>, c: set<X>)
    requires a !! b && a <= c && b <= c
    ensures |a| + |b| <= |c|
  {
    assert |a + b| == |a| + |b|;
    assert c == a + b + (c - a - b);
    assert |c| == |a + b| + |c - a - b|;
  }

  lemma KidInside(t: Tree, i: nat)
    requires t.Block? && t.height > 0 && |t.keys| == |t.kids| && i < |t.kids|
    ensures Contents(t.kids[i]).Keys <= Contents(t).Keys
  {
    forall q | q in Contents(t.kids[i]) ensures q in Contents(t) { InContents(t.height, t.keys, t.kids, i, q); }
  }

  /** An entry h levels above the items has at least 2^h of them below it. */
  lemma {:induction false} ManyBelow(t: Tree, h: nat, lo: Option<int>, hi: Option<int>)
    requires h > 0 && Entry(t, h) && InRange(t, lo, hi)
    ensures |Contents(t)| >= Pow2(h)
    decreases h
  {
    if h == 1 {
      InContents(0, t.keys, t.kids, 0, t.keys[0]);
      InContents(0, t.keys, t.kids, 1, t.keys[1]);
      TwoParts({t.keys[0]}, {t.keys[1]}, Contents(t).Keys);
    } else {
      var l, r, k := t.kids[0], t.kids[1], Some(t.keys[1]);
      ManyBelow(l, h - 1, lo, k);
      ManyBelow(r, h - 1, k, HighOf(t.keys, 1, hi));
      KidInside(t, 0);
      KidInside(t, 1);
      forall q | q in Contents(l) ensures q !in Contents(r) {
        KeysInRange(l, lo, k, q);
        if q in Contents(r) { KeysInRange(r, k, HighOf(t.keys, 1, hi), q); }
      }
      TwoParts(Contents(l).Keys, Contents(r).Keys, Contents(t).Keys);
    }
  }

  /** A tree of more than one level is shallow: with height h it has at least 2^(h + 1) keys. */
  lemma LogarithmicHeight(t: Tree)
    requires Shaped(t) && InRange(t, None, None) && t.height > 0
    ensures Pow2(t.height + 1) <= |Contents(t)|
  {
    ManyBelow(t, t.height + 1, None, None);
  }
}
