/** Points, and the key lists of the range tree in ch4/or_r_tree.c: sorted in place by bubble sort,
    with the points of equal keys collected in one item. */
module PointSort {

  /** The coordinates are numbered from 0. */
  datatype Point = Point(at: nat -> int, object: int)

  /** How often q occurs. */
  ghost function Count(s: seq<Point>, q: Point): nat {
    if s == [] then 0 else (if s[0] == q then 1 else 0) + Count(s[1..], q)
  }

  lemma {:induction false} CountConcat(s: seq<Point>, t: seq<Point>, q: Point)
    ensures Count(s + t, q) == Count(s, q) + Count(t, q)
  {
    if s == [] {
      assert s + t == t;
    } else {
      assert (s + t)[1..] == s[1..] + t;
      CountConcat(s[1..], t, q);
    }
  }

  lemma {:induction false} CountIs(s: seq<Point>, q: Point)
    ensures Count(s, q) == multiset(s)[q]
  {
    if s != [] {
      CountIs(s[1..], q);
      assert s == [s[0]] + s[1..];
    }
  }

  lemma {:induction false} CountIn(s: seq<Point>, q: Point)
    ensures Count(s, q) > 0 <==> q in s
  {
    if s != [] { CountIn(s[1..], q); }
  }

  /** An item of a key list. */
  datatype Entry = Entry(key: int, points: seq<Point>)

  /** All points of the list. */
  function Stored(list: seq<Entry>): seq<Point> {
    if list == [] then [] else list[0].points + Stored(list[1..])
  }

  lemma {:induction false} StoredConcat(s: seq<Entry>, t: seq<Entry>, q: Point)
    ensures Count(Stored(s + t), q) == Count(Stored(s), q) + Count(Stored(t), q)
  {
    if s == [] {
      assert s + t == t;
    } else {
      assert (s + t)[1..] == s[1..] + t;
      StoredConcat(s[1..], t, q);
      CountConcat(s[0].points, Stored(s[1..]), q);
      CountConcat(s[0].points, Stored(s[1..] + t), q);
    }
  }

  /** Each point is under its coordinate. */
  ghost predicate Keyed(list: seq<Entry>, dim: nat) {
    forall i, p :: 0 <= i < |list| && p in list[i].points ==> p.at(dim) == list[i].key
  }

  // ---- Bubble sort.

  function Smaller(list: seq<Entry>, k: int): nat {
    if list == [] then 0 else (if list[0].key < k then 1 else 0) + Smaller(list[1..], k)
  }

  /** Pairs in the wrong order. */
  function Inversions(list: seq<Entry>): nat {
    if list == [] then 0 else Smaller(list[1..], list[0].key) + Inversions(list[1..])
  }

  function Swapped(list: seq<Entry>, i: nat): (r: seq<Entry>)
    requires i + 1 < |list|
    ensures |r| == |list|
  {
    list[i := list[i + 1]][i + 1 := list[i]]
  }

  lemma {:induction false} SwappedSmaller(list: seq<Entry>, i: nat, k: int)
    requires i + 1 < |list|
    ensures Smaller(Swapped(list, i), k) == Smaller(list, k)
  {
    var s := Swapped(list, i);
    if i == 0 {
      assert s[1..][1..] == list[1..][1..];
    } else {
      assert s[1..] == Swapped(list[1..], i - 1);
      SwappedSmaller(list[1..], i - 1, k);
    }
  }

  /** Exchanging neighbours in the wrong order puts one pair right. */
  lemma {:induction false} SwappedInversions(list: seq<Entry>, i: nat)
    requires i + 1 < |list| && list[i].key > list[i + 1].key
    ensures Inversions(Swapped(list, i)) == Inversions(list) - 1
  {
    var s := Swapped(list, i);
    if i == 0 {
      assert s[1..][1..] == list[1..][1..];
    } else {
      assert s[1..] == Swapped(list[1..], i - 1);
      SwappedInversions(list[1..], i - 1);
      SwappedSmaller(list[1..], i - 1, list[0].key);
    }
  }

  lemma {:induction false} SwappedStored(list: seq<Entry>, i: nat, q: Point)
    requires i + 1 < |list|
    ensures Count(Stored(Swapped(list, i)), q) == Count(Stored(list), q)
  {
    var s := Swapped(list, i);
    if i == 0 {
      assert s[1..][1..] == list[1..][1..];
      var rest := Stored(list[2..]);
      assert list[1..][1..] == list[2..];
      CountConcat(list[0].points, list[1].points + rest, q);
      CountConcat(list[1].points, rest, q);
      CountConcat(list[1].points, list[0].points + rest, q);
      CountConcat(list[0].points, rest, q);
    } else {
      assert s[1..] == Swapped(list[1..], i - 1);
      SwappedStored(list[1..], i - 1, q);
      CountConcat(list[0].points, Stored(list[1..]), q);
      CountConcat(list[0].points, Stored(s[1..]), q);
    }
  }

  /** A list with the items of another: same points, each item with one, under its coordinate. */
  ghost predicate Rearranged(list: seq<Entry>, list0: seq<Entry>, dim: nat) {
    && |list| == |list0| && Keyed(list, dim) && (forall i :: 0 <= i < |list| ==> |list[i].points| == 1)
    && forall q :: Count(Stored(list), q) == Count(Stored(list0), q)
  }

  lemma SwappedRearranged(list: seq<Entry>, list0: seq<Entry>, dim: nat, i: nat)
    requires Rearranged(list, list0, dim) && i + 1 < |list|
    ensures Rearranged(Swapped(list, i), list0, dim)
  {
    forall q ensures Count(Stored(Swapped(list, i)), q) == Count(Stored(list0), q) { SwappedStored(list, i, q); }
  }

  predicate Ascending(list: seq<Entry>, n: nat)
    requires n <= |list|
  {
    forall i :: 0 <= i && i + 1 < n ==> list[i].key <= list[i + 1].key
  }

  /** One comparison, and exchange, of neighbours. */
  method Compare(list0: seq<Entry>, i: nat, ghost start: seq<Entry>, ghost dim: nat)
    returns (list: seq<Entry>, swapped: bool)
    requires i + 1 < |list0| && Rearranged(list0, start, dim)
    ensures Rearranged(list, start, dim) && (if swapped then Inversions(list) < Inversions(list0) else list == list0)
    ensures !swapped && Ascending(list, i + 1) ==> Ascending(list, i + 2)
  {
    list, swapped := list0, false;
    if list[i].key > list[i + 1].key {
      SwappedRearranged(list, start, dim, i);
      SwappedInversions(list, i);
      list := list[i := list[i + 1]][i + 1 := list[i]];
      swapped := true;
    }
  }

  /** One pass over the list. */
  method Pass(list0: seq<Entry>, ghost start: seq<Entry>, ghost dim: nat) returns (list: seq<Entry>, finished: bool)
    requires |list0| > 1 && Rearranged(list0, start, dim)
    ensures Rearranged(list, start, dim)
    ensures if finished then list == list0 && Ascending(list, |list|) else Inversions(list) < Inversions(list0)
  {
    finished := true;
    var swapped;
    list, swapped := Compare(list0, 0, start, dim);
    if swapped { finished := false; }
    var tmp := 0;
    while tmp + 2 < |list|
      invariant tmp + 1 < |list| && Rearranged(list, start, dim)
      invariant if finished then list == list0 && Ascending(list, tmp + 2) else Inversions(list) < Inversions(list0)
    {
      list, swapped := Compare(list, tmp + 1, start, dim);
      if swapped { finished := false; }
      tmp := tmp + 1;
    }
  }

  method BubbleSort(list0: seq<Entry>, ghost dim: nat) returns (list: seq<Entry>)
    requires |list0| > 1 && Rearranged(list0, list0, dim)
    ensures Rearranged(list, list0, dim) && Ascending(list, |list|)
  {
    list := list0;
    var finished := false;
    while !finished
      invariant Rearranged(list, list0, dim) && (finished ==> Ascending(list, |list|))
      decreases Inversions(list), !finished
    {
      list, finished := Pass(list, list0, dim);
    }
  }

  // ---- Collecting equal keys.

  predicate StrictlyAscending(list: seq<Entry>) {
    forall i, j :: 0 <= i < j < |list| ==> list[i].key < list[j].key
  }

  /** What the second loop knows when it is at item i. */
  ghost predicate Collecting(list: seq<Entry>, i: nat, list0: seq<Entry>, dim: nat) {
    && i < |list| && Keyed(list, dim) && StrictlyAscending(list[..i + 1]) && Ascending(list, |list|)
    && (forall j :: 0 <= j <= i ==> list[j].points != []) && (forall j :: i < j < |list| ==> |list[j].points| == 1)
    && forall q :: Count(Stored(list), q) == Count(Stored(list0), q)
  }

  /** The points of item i + 1 join those of item i. */
  function Joined(list: seq<Entry>, i: nat): seq<Entry>
    requires i + 1 < |list| && list[i].points != [] && |list[i + 1].points| == 1
  {
    var pt1, pt2 := list[i].points, list[i + 1].points;
    list[..i] + [Entry(list[i].key, [pt1[0], pt2[0]] + pt1[1..])] + list[i + 2..]
  }

  lemma JoinedStored(list: seq<Entry>, i: nat, q: Point)
    requires i + 1 < |list| && list[i].points != [] && |list[i + 1].points| == 1
    ensures Count(Stored(Joined(list, i)), q) == Count(Stored(list), q)
  {
    var pt1, pt2 := list[i].points, list[i + 1].points;
    var e := Entry(list[i].key, [pt1[0], pt2[0]] + pt1[1..]);
    var rest := list[i + 2..];
    assert list == list[..i] + ([list[i], list[i + 1]] + rest);
    assert Joined(list, i) == list[..i] + ([e] + rest);
    StoredConcat(list[..i], [list[i], list[i + 1]] + rest, q);
    StoredConcat(list[..i], [e] + rest, q);
    StoredConcat([list[i], list[i + 1]], rest, q);
    StoredConcat([e], rest, q);
    assert Stored([e]) == e.points;
    assert [list[i], list[i + 1]][1..] == [list[i + 1]];
    assert Stored([list[i + 1]]) == pt2;
    assert Stored([list[i], list[i + 1]]) == pt1 + pt2;
    CountConcat(pt1, pt2, q);
    CountConcat([pt1[0], pt2[0]], pt1[1..], q);
    assert [pt1[0], pt2[0]][1..] == pt2;
  }

  lemma JoinedCollecting(list: seq<Entry>, i: nat, list0: seq<Entry>, dim: nat)
    requires Collecting(list, i, list0, dim) && i + 1 < |list| && list[i].key == list[i + 1].key
    ensures Collecting(Joined(list, i), i, list0, dim)
  {
    var s := Joined(list, i);
    forall q ensures Count(Stored(s), q) == Count(Stored(list0), q) { JoinedStored(list, i, q); }
    assert forall j :: 0 <= j < i ==> s[j] == list[j];
    assert forall j :: i < j < |s| ==> s[j] == list[j + 1];
    assert forall p :: p in s[i].points ==> p in list[i].points || p in list[i + 1].points;
  }

  /** Sorts a list and leaves one item for each key. */
  method Sort(list0: seq<Entry>, ghost dim: nat) returns (list: seq<Entry>)
    requires Rearranged(list0, list0, dim)
    ensures StrictlyAscending(list) && Keyed(list, dim) && (forall i :: 0 <= i < |list| ==> list[i].points != [])
    ensures forall q :: Count(Stored(list), q) == Count(Stored(list0), q)
  {
    if |list0| <= 1 { return list0; }
    list := BubbleSort(list0, dim);
    var tmp := 0;
    while tmp + 1 < |list|
      invariant Collecting(list, tmp, list0, dim)
      decreases |list| - tmp
    {
      if list[tmp].key == list[tmp + 1].key {
        JoinedCollecting(list, tmp, list0, dim);
        var pt1, pt2 := list[tmp].points, list[tmp + 1].points;
        list := list[..tmp] + [Entry(list[tmp].key, [pt1[0], pt2[0]] + pt1[1..])] + list[tmp + 2..];
      } else {
        tmp := tmp + 1;
      }
    }
    assert list[..tmp + 1] == list;
  }
}
