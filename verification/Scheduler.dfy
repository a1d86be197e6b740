/** Scheduling in kernel/policy/process.c: two rings of ready processes and one of blocked ones. */
module Scheduler {
  import opened ProcessRing

  // ---- How long a ready process waits.

  function IndexOf(s: Queue, p: Process): (i: nat)
    requires p in s
    ensures i < |s| && s[i] == p
  {
    if s[0] == p then 0 else 1 + IndexOf(s[1..], p)
  }

  lemma IndexUnique(s: Queue, p: Process, i: nat)
    requires Distinct(s) && i < |s| && s[i] == p
    ensures p in s && IndexOf(s, p) == i
  {
  }

  /** The ring distance: after so many turns p is at the front. */
  function Distance(s: Queue, p: Process): nat
    requires p in s
  {
    if IndexOf(s, p) == 0 then |s| else IndexOf(s, p)
  }

  /** What can happen to a ring: the scheduler goes on to the next, a process leaves, one joins. */
  datatype Event = Turn | Leave(p: Process) | Join(p: Process)

  predicate Possible(s: Queue, e: Event) {
    match e
    case Turn => s != []
    case Leave(p) => p in s
    case Join(p) => p !in s
  }

  function After(s: Queue, e: Event): Queue
    requires Possible(s, e)
  {
    match e
    case Turn => Rotated(s)
    case Leave(p) => Removed(s, IndexOf(s, p))
    case Join(p) => Added(s, p)
  }

  lemma TurnDistance(s: Queue, p: Process)
    requires Distinct(s) && p in s
    ensures Distinct(Rotated(s)) && p in Rotated(s)
    ensures Rotated(s)[0] == p <==> Distance(s, p) == 1
    ensures Rotated(s)[0] != p ==> Distance(Rotated(s), p) == Distance(s, p) - 1
  {
    var u, i := Rotated(s), IndexOf(s, p);
    var j := if i == 0 then |s| - 1 else i - 1;
    assert u[j] == p;
    IndexUnique(u, p, j);
  }

  /** q comes between the process selected last and p. */
  predicate Ahead(s: Queue, p: Process, q: Process)
    requires p in s && q in s
  {
    IndexOf(s, p) == 0 || 0 < IndexOf(s, q) < IndexOf(s, p)
  }

  lemma LeaveDistance(s: Queue, p: Process, q: Process)
    requires Distinct(s) && p in s && q in s && p != q
    ensures var u := Removed(s, IndexOf(s, q));
      Distinct(u) && p in u && Distance(u, p) == Distance(s, p) - if Ahead(s, p, q) then 1 else 0
  {
    var i, j, n := IndexOf(s, p), IndexOf(s, q), |s|;
    var u := Removed(s, j);
    var k := if j == 0 then (if i == n - 1 then 0 else i) else if i < j then i else i - 1;
    assert u[k] == p;
    IndexUnique(u, p, k);
  }

  lemma JoinDistance(s: Queue, p: Process, q: Process)
    requires Distinct(s) && p in s && q !in s
    ensures var u := Added(s, q); Distinct(u) && p in u && Distance(u, p) == Distance(s, p) + if s[0] == p then 1 else 0
  {
    var i := IndexOf(s, p);
    assert Added(s, q)[i] == p;
    IndexUnique(Added(s, q), p, i);
  }

  /** A run in which p stays in the ring and no turn selects it. */
  predicate Passed(s: Queue, p: Process, run: seq<Event>)
    decreases |run|
  {
    p in s &&
    (run != [] ==>
       && Possible(s, run[0]) && run[0] != Leave(p) && (run[0].Turn? ==> Rotated(s)[0] != p)
       && Passed(After(s, run[0]), p, run[1..]))
  }

  function Turns(run: seq<Event>): nat {
    if run == [] then 0 else (if run[0].Turn? then 1 else 0) + Turns(run[1..])
  }

  /** How often a process joins while the queue pointer is at p. */
  function FrontJoins(s: Queue, p: Process, run: seq<Event>): nat
    requires Passed(s, p, run)
    decreases |run|
  {
    if run == [] then 0 else (if run[0].Join? && s[0] == p then 1 else 0) + FrontJoins(After(s, run[0]), p, run[1..])
  }

  /** How often a process ahead of p leaves. */
  function AheadLeaves(s: Queue, p: Process, run: seq<Event>): nat
    requires Passed(s, p, run)
    decreases |run|
  {
    if run == [] then 0
    else (if run[0].Leave? && Ahead(s, p, run[0].p) then 1 else 0) + AheadLeaves(After(s, run[0]), p, run[1..])
  }

  /** The ring after the run. */
  function End(s: Queue, p: Process, run: seq<Event>): (u: Queue)
    requires Passed(s, p, run)
    ensures p in u
    decreases |run|
  {
    if run == [] then s else End(After(s, run[0]), p, run[1..])
  }

  /** The turns still to come, counted exactly: each turn takes one off, and so does each leave ahead
      of p; each join while the pointer is at p adds one. */
  lemma {:induction false} WaitingTime(s: Queue, p: Process, run: seq<Event>)
    requires Distinct(s) && Passed(s, p, run)
    ensures Distinct(End(s, p, run))
    ensures Turns(run) + Distance(End(s, p, run), p) + AheadLeaves(s, p, run) == Distance(s, p) + FrontJoins(s, p, run)
    decreases |run|
  {
    if run != [] {
      match run[0] {
        case Turn => TurnDistance(s, p);
        case Leave(q) => LeaveDistance(s, p, q);
        case Join(q) => JoinDistance(s, p, q);
      }
      WaitingTime(After(s, run[0]), p, run[1..]);
    }
  }

  /** Bounded bypass: whoever else blocks or wakes, p is selected within its ring distance, and one
      turn more for each process that joins while the pointer is at p. */
  lemma BoundedBypass(s: Queue, p: Process, run: seq<Event>)
    requires Distinct(s) && Passed(s, p, run)
    ensures Turns(run) < Distance(s, p) + FrontJoins(s, p, run)
  {
    WaitingTime(s, p, run);
  }

  /** When the next turn selects p, this is within the ring distance if and only if no more
      processes joined while the pointer was at p than left ahead of p. */
  lemma WithinDistance(s: Queue, p: Process, run: seq<Event>)
    requires Distinct(s) && Passed(s, p, run) && Rotated(End(s, p, run))[0] == p
    ensures Turns(run) + 1 <= Distance(s, p) <==> FrontJoins(s, p, run) <= AheadLeaves(s, p, run)
  {
    WaitingTime(s, p, run);
    TurnDistance(End(s, p, run), p);
  }

  /** Such joins can pass p over any number of times, although it is next in the ring: the front blocks, which
      leaves the pointer at p; another process wakes; the turn goes to that one. */
  lemma {:induction false} Starvation(a: Process, b: Process, p: Process, n: nat) returns (run: seq<Event>)
    requires a != b && a != p && b != p
    ensures Passed([a, p], p, run) && Turns(run) == n && FrontJoins([a, p], p, run) == n && Distance([a, p], p) == 1
  {
    assert IndexOf([a, p], p) == 1 by { IndexUnique([a, p], p, 1); }
    if n == 0 {
      run := [];
    } else {
      var rest := Starvation(b, a, p, n - 1);
      run := [Leave(a), Join(b), Turn] + rest;
      assert run[1..] == [Join(b), Turn] + rest && run[1..][1..] == [Turn] + rest && run[1..][1..][1..] == rest;
      assert After([a, p], Leave(a)) == [p];
      assert After([p], Join(b)) == [p, b];
      assert After([p, b], Turn) == [b, p] && Rotated([p, b])[0] == b;
      assert Passed([p, b], p, [Turn] + rest) && Turns([Turn] + rest) == n;
      assert Passed([p], p, [Join(b), Turn] + rest) && Turns([Join(b), Turn] + rest) == n;
      assert FrontJoins([p, b], p, [Turn] + rest) == n - 1;
      assert FrontJoins([p], p, [Join(b), Turn] + rest) == n;
    }
  }

  // ---- The kernel's queues.

  const FAST := 8
  const OK := 1
  const ERROR_SET_PROPERTY := -13
  const ERROR_SET_BLOCKED := -14

  /** The count of a process's turns, in 8 bits. */
  function Counted(n: nat): (r: nat)
    ensures n <= 0xFF ==> r == (n + 1) % 0x100
  {
    if n < 0xFF then n + 1 else 0
  }

  ghost predicate CanRun(p: Process)
    reads p`status
  {
    p.status == Ready || p.status == Running
  }

  ghost predicate Apart(a: Queue, b: Queue) {
    forall x :: x in a ==> x !in b
  }

  class Kernel {
    var readyQ: Process?
    var fastQ: Process?
    var blockedQ: Process?
    var running: Process
    const idle: Process
    ghost var fast: Queue
    ghost var normal: Queue
    ghost var blocked: Queue

    /** The three rings are well formed and disjoint. */
    ghost predicate Rings()
      reads this, fast`next, fast`prev, normal`next, normal`prev, blocked`next, blocked`prev
    {
      && Ring(fastQ, fast) && Ring(readyQ, normal) && Ring(blockedQ, blocked)
      && Apart(fast, normal) && Apart(fast, blocked) && Apart(normal, blocked)
      && idle !in fast && idle !in normal && idle !in blocked
    }

    /** They match status and priority. */
    ghost predicate Valid()
      reads this, fast, normal, blocked
    {
      && Rings()
      && (forall x :: x in fast ==> CanRun(x) && x.priority >= FAST)
      && (forall x :: x in normal ==> CanRun(x) && x.priority < FAST)
      && (forall x :: x in blocked ==> x.status == Blocked)
    }

    constructor (idle: Process)
      ensures Valid() && fast == [] && normal == [] && blocked == [] && running == idle && this.idle == idle
    {
      readyQ, fastQ, blockedQ := null, null, null;
      running, this.idle := idle, idle;
      fast, normal, blocked := [], [], [];
    }

    /** Some process is ready or running. */
    ghost predicate Busy()
      reads `fast, `normal
    {
      fast != [] || normal != []
    }

    /** The next process of the fast ring, else of the normal ring, else idle. A process that was not
        running before is now; one that was is ready, even if it is selected again. */
    method Schedule()
      requires Valid()
      modifies `running, `fastQ, `readyQ, `fast, `normal, running`status, running`timesScheduled
      modifies fast`status, fast`timesScheduled, normal`status, normal`timesScheduled
      modifies idle`status, idle`timesScheduled
      ensures Valid()
      ensures fast == (if old(fast) == [] then [] else Rotated(old(fast)))
      ensures normal == (if old(fast) != [] || old(normal) == [] then old(normal) else Rotated(old(normal)))
      ensures running == if fast != [] then fast[0] else if normal != [] then normal[0] else idle
      ensures old(fastQ) != null ==> running == old(fastQ.next) && fastQ == running
      ensures old(fastQ) == null && old(readyQ) != null ==> running == old(readyQ.next) && readyQ == running
      ensures running != old(running) ==> running.status == Running
      ensures running != old(running) ==> var now := running; now.timesScheduled == Counted(old(now.timesScheduled))
      ensures var was := old(running); was.timesScheduled == old(was.timesScheduled)
      ensures var was := old(running);
        was.status == if Busy() && old(was.status) == Running then Ready else old(was.status)
      ensures forall x :: (x in fast || x in normal || x == idle) && x != running && x != old(running) ==>
        x.status == old(x.status) && x.timesScheduled == old(x.timesScheduled)
      ensures forall x :: x in fast || x in normal ==> x.priority == old(x.priority)
    {
      var different := false;
      if fastQ != null {
        different := TurnFast();
      } else if readyQ != null {
        different := TurnNormal();
      } else if running != idle {
        different := true;
        running := idle;
      }
      if different { SwitchTo(); }
    }

    /** P_BLOCKED: a process that can run goes to the blocked ring. */
    method SetBlocked(p: Process, value: int) returns (r: int)
      requires Valid() && p != idle && (CanRun(p) ==> p in fast || p in normal)
      modifies `fastQ, `readyQ, `blockedQ, `fast, `normal, `blocked, fast`next, fast`prev, normal`next, normal`prev
      modifies blocked`next, blocked`prev, p`next, p`prev, p`status, p`reason
      ensures Valid() && r == if old(CanRun(p)) then OK else ERROR_SET_BLOCKED
      ensures if old(CanRun(p)) then p.status == Blocked && p.reason == value && blocked == old(blocked) + [p]
        else p.status == old(p.status) && p.reason == old(p.reason) && blocked == old(blocked)
      ensures fast == (if old(CanRun(p)) && p in old(fast) then After(old(fast), Leave(p)) else old(fast))
      ensures normal == (if old(CanRun(p)) && p in old(normal) then After(old(normal), Leave(p)) else old(normal))
      ensures p.priority == old(p.priority)
      ensures forall x :: (x in old(fast) || x in old(normal) || x in old(blocked)) && x != p ==>
        x.status == old(x.status) && x.priority == old(x.priority)
    {
      if p.status != Ready && p.status != Running { return ERROR_SET_BLOCKED; }
      LeaveReady(p);
      EnterBlocked(p, value);
      r := OK;
    }

    method EnterBlocked(p: Process, value: int)
      requires Valid() && Out(p)
      modifies `blockedQ, `blocked, blocked`next, blocked`prev, p`next, p`prev, p`status, p`reason
      ensures Valid() && p.status == Blocked && p.reason == value && blocked == old(blocked) + [p]
    {
      JoinBlocked(p);
      p.status := Blocked;
      p.reason := value;
    }

    /** The process is in no ring. */
    ghost predicate Out(p: Process)
      reads this
    {
      p != idle && p !in fast && p !in normal && p !in blocked
    }

    method LeaveReady(p: Process)
      requires Valid() && (p in fast || p in normal)
      modifies `fastQ, `readyQ, `fast, `normal, fast`next, fast`prev, normal`next, normal`prev
      ensures Valid() && Out(p)
      ensures fast == (if p in old(fast) then After(old(fast), Leave(p)) else old(fast))
      ensures normal == (if p in old(normal) then After(old(normal), Leave(p)) else old(normal))
    {
      if p.priority < FAST { LeaveNormal(p); } else { LeaveFast(p); }
    }

    /** The ready ring that a process of this priority belongs in. */
    ghost function Home(p: Process): Queue
      reads `fast, `normal, p`priority
    {
      if p.priority >= FAST then fast else normal
    }

    method EnterReady(p: Process, value: int)
      requires Valid() && (Out(p) || (CanRun(p) && (p in fast || p in normal)))
      modifies `fastQ, `readyQ, `fast, `normal, fast`next, fast`prev, normal`next, normal`prev
      modifies p`next, p`prev, p`status, p`reason
      ensures p.status == Ready && p.reason == value && p.priority == old(p.priority)
      ensures Valid() <==> !(p in old(Home(p)) && |old(Home(p))| > 1)
      ensures fast == (if p.priority >= FAST && p !in old(fast) then old(fast) + [p] else old(fast))
      ensures normal == (if p.priority < FAST && p !in old(normal) then old(normal) + [p] else old(normal))
    {
      if p.priority < FAST { JoinNormal(p); } else { JoinFast(p); }
      MakeReady(p, value);
    }

    /** With p ready, all processes match their rings. */
    method MakeReady(p: Process, value: int)
      requires p !in blocked && forall x :: x in blocked ==> x.status == Blocked
      requires forall x :: x in fast ==> x.priority >= FAST && (x == p || CanRun(x))
      requires forall x :: x in normal ==> x.priority < FAST && (x == p || CanRun(x))
      modifies p`reason, p`status
      ensures p.status == Ready && p.reason == value && (Valid() <==> old(Rings()))
    {
      p.reason := value;
      p.status := Ready;
      assert Rings() <==> old(Rings());
    }

    /** P_READY: a blocked or pending process goes to the ready ring of its priority. A running process
        is in its ring already and is added to it a second time; the rings survive this if and only
        if it is alone there. */
    method SetReady(p: Process, value: int) returns (r: int)
      requires Valid() && p != idle && (CanRun(p) ==> p in fast || p in normal)
      requires p.status == Blocked ==> p in blocked
      requires p.status == Pending || p.status == Empty ==> p !in fast && p !in normal && p !in blocked
      modifies `fastQ, `readyQ, `blockedQ, `fast, `normal, `blocked, fast`next, fast`prev, normal`next, normal`prev
      modifies blocked`next, blocked`prev, p`next, p`prev, p`status, p`reason
      ensures Valid() <==> !(old(p.status) == Running && |old(Home(p))| > 1)
      ensures p.priority == old(p.priority)
      ensures r == if old(p.status) == Ready then ERROR_SET_PROPERTY else OK
      ensures var moved := !old(CanRun(p)) && !(old(p.status) == Pending && p.priority == 0);
        && fast == (if moved && p.priority >= FAST then old(fast) + [p] else old(fast))
        && normal == (if moved && p.priority < FAST then old(normal) + [p] else old(normal))
        && (if moved || old(CanRun(p)) then p.status == Ready && p.reason == value
            else p.status == old(p.status) && p.reason == old(p.reason))
      ensures blocked == (if old(p.status) == Blocked then After(old(blocked), Leave(p)) else old(blocked))
      ensures forall x :: (x in old(fast) || x in old(normal) || x in old(blocked)) && x != p ==>
        x.status == old(x.status) && x.priority == old(x.priority)
    {
      if p.status == Blocked {
        LeaveBlocked(p);
      } else if p.status == Pending {
        if p.priority == 0 { return OK; }
      } else if p.status == Ready {
        p.reason := value;
        return ERROR_SET_PROPERTY;
      }
      assert p.status == Running || Out(p);
      EnterReady(p, value);
      r := OK;
    }

    /** P_PRIORITY: a ready process changes rings if the new priority is on the other side. */
    method SetPriority(p: Process, value: nat)
      requires Valid() && p != idle && (p in fast || p in normal || p in blocked)
      modifies `fastQ, `readyQ, `fast, `normal, fast`next, fast`prev, normal`next, normal`prev
      modifies p`next, p`prev, p`priority
      ensures Valid() && p.priority == value && p.status == old(p.status)
      ensures fast == (if p in old(fast) && value < FAST then After(old(fast), Leave(p))
                       else if p in old(normal) && value >= FAST then old(fast) + [p] else old(fast))
      ensures normal == (if p in old(normal) && value >= FAST then After(old(normal), Leave(p))
                         else if p in old(fast) && value < FAST then old(normal) + [p] else old(normal))
      ensures forall x :: (x in old(fast) || x in old(normal) || x in old(blocked)) && x != p ==>
        x.status == old(x.status) && x.priority == old(x.priority)
    {
      var isFast, toFast := p.priority >= FAST, value >= FAST;
      if isFast != toFast && p.status != Blocked {
        Move(p, value);
      } else {
        p.priority := value;
      }
    }

    /** From one ready ring to the other. */
    method Move(p: Process, value: nat)
      requires Valid() && p != idle && (p in fast || p in normal) && (p.priority >= FAST) != (value >= FAST)
      modifies `fastQ, `readyQ, `fast, `normal, fast`next, fast`prev, normal`next, normal`prev
      modifies p`next, p`prev, p`priority
      ensures Valid() && p.priority == value && p.status == old(p.status)
      ensures fast == if value < FAST then After(old(fast), Leave(p)) else old(fast) + [p]
      ensures normal == if value >= FAST then After(old(normal), Leave(p)) else old(normal) + [p]
    {
      LeaveReady(p);
      EnterAt(p, value);
    }

    method EnterAt(p: Process, value: nat)
      requires Valid() && Out(p) && CanRun(p)
      modifies `fastQ, `readyQ, `fast, `normal, fast`next, fast`prev, normal`next, normal`prev
      modifies p`next, p`prev, p`priority
      ensures Valid() && p.priority == value && p.status == old(p.status)
      ensures fast == (if value >= FAST then old(fast) + [p] else old(fast))
      ensures normal == (if value < FAST then old(normal) + [p] else old(normal))
    {
      if value >= FAST { JoinFast(p); } else { JoinNormal(p); }
      p.priority := value;
    }

    method LeaveFast(p: Process)
      requires Rings() && p in fast
      modifies `fastQ, `fast, fast`next, fast`prev
      ensures Rings() && fast == After(old(fast), Leave(p)) && forall x :: x in fast <==> x in old(fast) && x != p
    {
      RemovedMembers(fast, p);
      fastQ := RemoveQueue(fastQ, p, fast, IndexOf(fast, p));
      fast := Removed(fast, IndexOf(fast, p));
      forall i | 0 <= i < |normal| ensures LinkOk(normal, i) {
        assert old(LinkOk(normal, i)) && normal[i] !in old(fast);
      }
      forall i | 0 <= i < |blocked| ensures LinkOk(blocked, i) {
        assert old(LinkOk(blocked, i)) && blocked[i] !in old(fast);
      }
    }

    method LeaveNormal(p: Process)
      requires Rings() && p in normal
      modifies `readyQ, `normal, normal`next, normal`prev
      ensures Rings() && normal == After(old(normal), Leave(p))
      ensures forall x :: x in normal <==> x in old(normal) && x != p
    {
      RemovedMembers(normal, p);
      readyQ := RemoveQueue(readyQ, p, normal, IndexOf(normal, p));
      normal := Removed(normal, IndexOf(normal, p));
      forall i | 0 <= i < |fast| ensures LinkOk(fast, i) {
        assert old(LinkOk(fast, i)) && fast[i] !in old(normal);
      }
      forall i | 0 <= i < |blocked| ensures LinkOk(blocked, i) {
        assert old(LinkOk(blocked, i)) && blocked[i] !in old(normal);
      }
    }

    method LeaveBlocked(p: Process)
      requires Rings() && p in blocked
      modifies `blockedQ, `blocked, blocked`next, blocked`prev
      ensures Rings() && blocked == After(old(blocked), Leave(p))
      ensures forall x :: x in blocked <==> x in old(blocked) && x != p
    {
      RemovedMembers(blocked, p);
      blockedQ := RemoveQueue(blockedQ, p, blocked, IndexOf(blocked, p));
      blocked := Removed(blocked, IndexOf(blocked, p));
      forall i | 0 <= i < |fast| ensures LinkOk(fast, i) {
        assert old(LinkOk(fast, i)) && fast[i] !in old(blocked);
      }
      forall i | 0 <= i < |normal| ensures LinkOk(normal, i) {
        assert old(LinkOk(normal, i)) && normal[i] !in old(blocked);
      }
    }

    method JoinFast(p: Process)
      requires Rings() && p != idle && p !in normal && p !in blocked
      modifies `fastQ, `fast, fast`next, fast`prev, p`next, p`prev
      ensures p !in old(fast) ==> Rings() && fast == After(old(fast), Join(p))
      ensures p in old(fast) ==> fast == old(fast) && (Rings() <==> |fast| == 1)
    {
      fastQ := AddQueue(fastQ, p, fast);
      if p !in fast { fast := Added(fast, p); }
      forall i | 0 <= i < |normal| ensures LinkOk(normal, i) {
        assert old(LinkOk(normal, i)) && normal[i] !in old(fast);
      }
      forall i | 0 <= i < |blocked| ensures LinkOk(blocked, i) {
        assert old(LinkOk(blocked, i)) && blocked[i] !in old(fast);
      }
    }

    method JoinNormal(p: Process)
      requires Rings() && p != idle && p !in fast && p !in blocked
      modifies `readyQ, `normal, normal`next, normal`prev, p`next, p`prev
      ensures p !in old(normal) ==> Rings() && normal == After(old(normal), Join(p))
      ensures p in old(normal) ==> normal == old(normal) && (Rings() <==> |normal| == 1)
    {
      readyQ := AddQueue(readyQ, p, normal);
      if p !in normal { normal := Added(normal, p); }
      forall i | 0 <= i < |fast| ensures LinkOk(fast, i) {
        assert old(LinkOk(fast, i)) && fast[i] !in old(normal);
      }
      forall i | 0 <= i < |blocked| ensures LinkOk(blocked, i) {
        assert old(LinkOk(blocked, i)) && blocked[i] !in old(normal);
      }
    }

    method JoinBlocked(p: Process)
      requires Rings() && p != idle && p !in fast && p !in normal && p !in blocked
      modifies `blockedQ, `blocked, blocked`next, blocked`prev, p`next, p`prev
      ensures Rings() && blocked == After(old(blocked), Join(p))
    {
      blockedQ := AddQueue(blockedQ, p, blocked);
      blocked := Added(blocked, p);
      forall i | 0 <= i < |fast| ensures LinkOk(fast, i) {
        assert old(LinkOk(fast, i)) && fast[i] !in old(blocked);
      }
      forall i | 0 <= i < |normal| ensures LinkOk(normal, i) {
        assert old(LinkOk(normal, i)) && normal[i] !in old(blocked);
      }
    }

    /** The running process is ready from now on. */
    method StopRunning()
      requires Valid()
      modifies running`status
      ensures Valid() && running.status == if old(running.status) == Running then Ready else old(running.status)
    {
      if running.status == Running { running.status := Ready; }
    }

    method TurnFast() returns (different: bool)
      requires Valid() && fast != []
      modifies `running, `fastQ, `fast, running`status
      ensures Valid() && fast == Rotated(old(fast)) && running == fast[0] && fastQ != null && fastQ == old(fastQ.next)
      ensures different <==> running != old(running)
      ensures var was := old(running); was.status == if old(was.status) == Running then Ready else old(was.status)
    {
      StopRunning();
      assert LinkOk(fast, 0);
      different := running != fastQ.next;
      fastQ := fastQ.next;
      running := fastQ;
      RotatedRing(fast);
      fast := Rotated(fast);
    }

    method TurnNormal() returns (different: bool)
      requires Valid() && normal != []
      modifies `running, `readyQ, `normal, running`status
      ensures Valid() && normal == Rotated(old(normal)) && running == normal[0] && readyQ == old(readyQ.next)
      ensures different <==> running != old(running)
      ensures var was := old(running); was.status == if old(was.status) == Running then Ready else old(was.status)
    {
      StopRunning();
      assert LinkOk(normal, 0);
      different := running != readyQ.next;
      readyQ := readyQ.next;
      running := readyQ;
      RotatedRing(normal);
      normal := Rotated(normal);
    }

    /** The selected process starts to run. */
    method SwitchTo()
      requires Valid() && running !in blocked
      modifies running`status, running`timesScheduled
      ensures Valid() && running.status == Running
      ensures running.timesScheduled == Counted(old(running.timesScheduled))
    {
      running.status := Running;
      running.timesScheduled := if running.timesScheduled >= 0xFF then 0 else running.timesScheduled + 1;
    }
  }

  lemma RemovedMembers(s: Queue, p: Process)
    requires Distinct(s) && p in s
    ensures forall x :: x in Removed(s, IndexOf(s, p)) <==> x in s && x != p
  {
    var i, n := IndexOf(s, p), |s|;
    var u := Removed(s, i);
    forall x | x in s && x != p ensures x in u {
      var j :| 0 <= j < n && s[j] == x;
      assert u[if i == 0 then (if j == n - 1 then 0 else j) else if j < i then j else j - 1] == x;
    }
  }

  lemma RotatedRing(s: Queue)
    requires s != [] && Ring(s[0], s)
    ensures Ring(NextOf(s, 0), Rotated(s)) && forall x :: x in Rotated(s) <==> x in s
  {
    var u, n := Rotated(s), |s|;
    assert forall i :: 0 <= i < n ==> u[i] == if i == n - 1 then s[0] else s[i + 1];
    forall i | 0 <= i < n ensures LinkOk(u, i) { assert LinkOk(s, if i == n - 1 then 0 else i + 1); }
    forall x | x in s ensures x in u {
      var i :| 0 <= i < n && s[i] == x;
      assert u[if i == 0 then n - 1 else i - 1] == x;
    }
  }
}
