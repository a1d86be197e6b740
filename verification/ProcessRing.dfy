/** The circular lists of processes in kernel/policy/process.c, and the order in which the
    scheduler goes around them. */
module ProcessRing {

  datatype Status = Empty | Ready | Running | Blocked | Pending

  class Process {
    var status: Status
    var priority: nat
    var reason: int
    var next: Process?
    var prev: Process?
    var timesScheduled: nat

    constructor (status: Status, priority: nat)
      ensures this.status == status && this.priority == priority && next == null && prev == null
      ensures reason == 0 && timesScheduled == 0
    {
      this.status, this.priority, reason, timesScheduled := status, priority, 0, 0;
      next, prev := null, null;
    }
  }

  /** A ring, from the process that the queue pointer points to. */
  type Queue = seq<Process>

  // ---- The operations on rings.

  function Added(s: Queue, p: Process): Queue {
    s + [p]
  }

  /** Removing the first leaves the pointer at the last. */
  function Removed(s: Queue, i: nat): Queue
    requires i < |s|
  {
    if i > 0 then s[..i] + s[i + 1..] else if |s| == 1 then [] else [s[|s| - 1]] + s[1..|s| - 1]
  }

  function Rotated(s: Queue): Queue
    requires s != []
  {
    s[1..] + [s[0]]
  }

  predicate Distinct(s: Queue) {
    forall i, j :: 0 <= i < j < |s| ==> s[i] != s[j]
  }

  function NextOf(s: Queue, i: nat): Process
    requires i < |s|
  {
    if i == |s| - 1 then s[0] else s[i + 1]
  }

  function PrevOf(s: Queue, i: nat): Process
    requires i < |s|
  {
    if i == 0 then s[|s| - 1] else s[i - 1]
  }

  ghost predicate LinkOk(s: Queue, i: nat)
    requires i < |s|
    reads {s[i]}`next, {s[i]}`prev
  {
    s[i].next == NextOf(s, i) && s[i].prev == PrevOf(s, i)
  }

  /** The links of the processes run around the ring. */
  ghost predicate Ring(q: Process?, s: Queue)
    reads s`next, s`prev
  {
    && Distinct(s) && (if s == [] then q == null else q == s[0])
    && forall i {:trigger LinkOk(s, i)} :: 0 <= i < |s| ==> LinkOk(s, i)
  }

  /** A process that is in the ring already is added a second time: unless it is alone, no ring of
      these processes, in whatever order, has these links. */
  method AddQueue(q: Process?, p: Process, ghost s: Queue) returns (q': Process?)
    requires Ring(q, s)
    modifies s`next, s`prev, p`next, p`prev
    ensures p !in s ==> Ring(q', Added(s, p)) && q' == if q == null then p else q
    ensures p !in s && q != null ==>
      && p.next == q && p.prev == old(q.prev) && q.prev == p
      && (forall x :: x in s ==> x.next == (if x == old(q.prev) then p else old(x.next)))
      && (forall x :: x in s && x != q ==> x.prev == old(x.prev))
    ensures p in s ==> q' == q && (Ring(q', s) <==> |s| == 1) && (|s| > 1 ==> Broken(s))
  {
    if q != null {
      ghost var n, u := |s|, Added(s, p);
      assert LinkOk(s, 0);
      var last := q.prev;
      label before:
      last.next := p;
      p.next := q;
      p.prev := q.prev;
      q.prev := p;
      q' := q;
      if p in s {
        ghost var k: nat :| k < n && s[k] == p;
        if 0 < k < n - 1 { assert old@before(LinkOk(s, k - 1)); }
        Twice(s, k);
      } else {
        forall i | 0 <= i < |u| ensures LinkOk(u, i) {
          if i < n { assert old@before(LinkOk(s, i)) && u[i] == s[i]; }
        }
      }
    } else {
      q' := p;
      p.prev := q';
      p.next := q';
    }
  }

  /** The links of these processes run around no ring. */
  ghost predicate Broken(s: Queue)
    reads s`next, s`prev
  {
    || (exists x :: x in s && (x.next == x || x.prev == x))
    || exists x, y :: x in s && y in s && x != y && x.next == y.next
  }

  lemma BrokenNoRing(q: Process?, s: Queue, u: Queue)
    requires Broken(s) && |u| > 1 && forall x :: x in s ==> x in u
    ensures !Ring(q, u)
  {
    if Ring(q, u) {
      forall i, j | 0 <= i < j < |u| ensures NextOf(u, i) != NextOf(u, j) { }
      forall i | 0 <= i < |u|
        ensures u[i].next == NextOf(u, i) != u[i] && u[i].prev == PrevOf(u, i) != u[i] { assert LinkOk(u, i); }
      assert false;
    }
  }

  /** What adding s[k] again does to the links. */
  lemma Twice(s: Queue, k: nat)
    requires Distinct(s) && k < |s| && s[k].next == s[0] && s[0].prev == s[k]
    requires k == |s| - 1 ==> s[k].prev == s[k]
    requires 0 < k < |s| - 1 ==> s[k - 1].next == s[k] == s[|s| - 1].next
    ensures if |s| == 1 then Ring(s[0], s) else Broken(s) && !Ring(s[0], s)
  {
    if |s| > 1 {
      if k == 0 {
        assert s[0].next == s[0];
      } else if k < |s| - 1 {
        assert s[k - 1] != s[|s| - 1];
      }
      BrokenNoRing(s[0], s, s);
    } else {
      assert LinkOk(s, 0);
    }
  }

  method RemoveQueue(q: Process?, p: Process, ghost s: Queue, ghost i: nat) returns (q': Process?)
    requires Ring(q, s) && i < |s| && s[i] == p
    modifies s`next, s`prev
    ensures Ring(q', Removed(s, i))
    ensures q' == if old(p.next) == p then null else if q == p then old(p.prev) else q
    ensures forall x :: x in s && x != p ==>
      && x.next == (if x == old(p.prev) then old(p.next) else old(x.next))
      && x.prev == (if x == old(p.next) then old(p.prev) else old(x.prev))
  {
    q' := q;
    assert LinkOk(s, i);
    if p.next == p {
      q' := null;
    } else {
      var before, after := p.prev, p.next;
      label start:
      before.next := after;
      after.prev := before;
      forall k | 0 <= k < |s| && k != i ensures BridgeOk(s, i, k) { assert old@start(LinkOk(s, k)); }
      if i == 0 { FirstRemoved(s); } else { LaterRemoved(s, i); }
      if q' == p { q' := before; }
    }
  }

  /** The links around s, but for those past s[i]. */
  ghost predicate Bridged(s: Queue, i: nat)
    requires i < |s|
    reads s`next, s`prev
  {
    forall k {:trigger BridgeOk(s, i, k)} :: 0 <= k < |s| && k != i ==> BridgeOk(s, i, k)
  }

  ghost predicate BridgeOk(s: Queue, i: nat, k: nat)
    requires i < |s| && k < |s|
    reads {s[k]}`next, {s[k]}`prev
  {
    && s[k].next == (if s[k] == PrevOf(s, i) then NextOf(s, i) else NextOf(s, k))
    && s[k].prev == (if s[k] == NextOf(s, i) then PrevOf(s, i) else PrevOf(s, k))
  }

  lemma FirstRemoved(s: Queue)
    requires Distinct(s) && |s| > 1 && Bridged(s, 0)
    ensures Ring(s[|s| - 1], Removed(s, 0))
  {
    var n, u := |s|, Removed(s, 0);
    assert forall k :: 0 <= k < |u| ==> u[k] == if k == 0 then s[n - 1] else s[k];
    forall k | 0 <= k < |u| ensures LinkOk(u, k) {
      assert BridgeOk(s, 0, if k == 0 then n - 1 else k);
    }
  }

  lemma LaterRemoved(s: Queue, i: nat)
    requires Distinct(s) && 0 < i < |s| && Bridged(s, i)
    ensures Ring(s[0], Removed(s, i))
  {
    var u := Removed(s, i);
    forall k, l | 0 <= k < l < |u| ensures u[k] != u[l] {
      RemovedAt(s, i, k);
      RemovedAt(s, i, l);
    }
    forall k | 0 <= k < |u| ensures LinkOk(u, k) { LaterLinks(s, i, k); }
  }

  /** Where a process was before a removal. */
  function Was(i: nat, k: nat): nat {
    if k < i then k else k + 1
  }

  lemma RemovedAt(s: Queue, i: nat, k: nat)
    requires 0 < i < |s| && k < |s| - 1
    ensures |Removed(s, i)| == |s| - 1 && Removed(s, i)[k] == s[Was(i, k)]
  {
  }

  lemma LaterLinks(s: Queue, i: nat, k: nat)
    requires Distinct(s) && 0 < i < |s| && Bridged(s, i) && k < |s| - 1
    ensures |Removed(s, i)| == |s| - 1
    ensures LinkOk(Removed(s, i), k)
  {
    RemovedAt(s, i, k);
    LaterNext(s, i, k);
    LaterPrev(s, i, k);
    assert BridgeOk(s, i, Was(i, k));
  }

  lemma LaterNext(s: Queue, i: nat, k: nat)
    requires Distinct(s) && 0 < i < |s| && k < |s| - 1
    ensures |Removed(s, i)| == |s| - 1
    ensures NextOf(Removed(s, i), k) == if s[Was(i, k)] == PrevOf(s, i) then NextOf(s, i) else NextOf(s, Was(i, k))
  {
    RemovedAt(s, i, if k == |s| - 2 then 0 else k + 1);
  }

  lemma LaterPrev(s: Queue, i: nat, k: nat)
    requires Distinct(s) && 0 < i < |s| && k < |s| - 1
    ensures |Removed(s, i)| == |s| - 1
    ensures PrevOf(Removed(s, i), k) == if s[Was(i, k)] == NextOf(s, i) then PrevOf(s, i) else PrevOf(s, Was(i, k))
  {
    RemovedAt(s, i, if k == 0 then |s| - 2 else k - 1);
  }
}
