/** Runs of calls to the scheduler of kernel/policy/process.c: how many calls of Schedule a process in
    the fast ring waits for. */
module SchedulerRun {
  import opened Prelude
  import opened ProcessRing
  import opened Scheduler

  datatype Call = ScheduleCall | BlockCall(q: Process, reason: int) | ReadyCall(q: Process, reason: int)
    | PriorityCall(q: Process, value: nat)

  lemma StillThere(s: Queue, p: Process, e: Event)
    requires Distinct(s) && p in s && Possible(s, e) && e != Leave(p)
    ensures Distinct(After(s, e)) && p in After(s, e)
  {
    match e {
      case Turn => TurnDistance(s, p);
      case Leave(q) => LeaveDistance(s, p, q);
      case Join(q) => JoinDistance(s, p, q);
    }
  }

  // ---- The calls on a view of the kernel.

  /** What calls depend on and change: the rings, the running process, the processes with status
      Running, and those of fast priority. */
  datatype View = View(fast: Queue, normal: Queue, blocked: Queue, running: Process,
                       active: set<Process>, quick: set<Process>)

  function Without(s: Queue, q: Process): Queue {
    if q in s then After(s, Leave(q)) else s
  }

  function With(s: Queue, q: Process, here: bool): Queue {
    if here then s + [q] else s
  }

  function Scheduled(v: View, idle: Process): View {
    var fast := if v.fast == [] then [] else Rotated(v.fast);
    var normal := if v.fast != [] || v.normal == [] then v.normal else Rotated(v.normal);
    var running := if fast != [] then fast[0] else if normal != [] then normal[0] else idle;
    var rested := if fast != [] || normal != [] then v.active - {v.running} else v.active;
    var active := if running == v.running || running == idle then rested else rested + {running};
    View(fast, normal, v.blocked, running, active, v.quick)
  }

  /** The effect of a call. A call that makes a running process ready is left out. */
  function Next(v: View, c: Call, idle: Process): View {
    match c
    case ScheduleCall => Scheduled(v, idle)
    case BlockCall(q, _) =>
      if q in v.fast || q in v.normal then
        View(Without(v.fast, q), Without(v.normal, q), v.blocked + [q], v.running, v.active - {q}, v.quick)
      else v
    case ReadyCall(q, _) =>
      if q in v.blocked then
        View(With(v.fast, q, q in v.quick), With(v.normal, q, q !in v.quick), Without(v.blocked, q), v.running,
             v.active, v.quick)
      else v
    case PriorityCall(q, value) =>
      var toFast, toNormal := q in v.normal && value >= FAST, q in v.fast && value < FAST;
      var fast := if toNormal then Without(v.fast, q) else With(v.fast, q, toFast);
      var normal := if toFast then Without(v.normal, q) else With(v.normal, q, toNormal);
      View(fast, normal, v.blocked, v.running, v.active, if value >= FAST then v.quick + {q} else v.quick - {q})
  }

  /** The view after the calls. */
  function Through(v: View, calls: seq<Call>, idle: Process): View
    decreases |calls|
  {
    if calls == [] then v else Through(Next(v, calls[0], idle), calls[1..], idle)
  }

  /** What a call does to the fast ring. */
  function Noticed(v: View, c: Call): seq<Event> {
    match c
    case ScheduleCall => if v.fast != [] then [Turn] else []
    case BlockCall(q, _) => if q in v.fast then [Leave(q)] else []
    case ReadyCall(q, _) => if q in v.blocked && q in v.quick then [Join(q)] else []
    case PriorityCall(q, value) =>
      if q in v.fast && value < FAST then [Leave(q)] else if q in v.normal && value >= FAST then [Join(q)] else []
  }

  /** What the calls do to it. */
  function Events(v: View, calls: seq<Call>, idle: Process): seq<Event>
    decreases |calls|
  {
    if calls == [] then [] else Noticed(v, calls[0]) + Events(Next(v, calls[0], idle), calls[1..], idle)
  }

  function Schedules(calls: seq<Call>): nat {
    if calls == [] then 0 else (if calls[0].ScheduleCall? then 1 else 0) + Schedules(calls[1..])
  }

  /** No call to Schedule selects p. */
  predicate Unselected(v: View, calls: seq<Call>, p: Process, idle: Process)
    decreases |calls|
  {
    calls != [] ==>
      var w := Next(v, calls[0], idle);
      (calls[0].ScheduleCall? ==> w.running != p) && Unselected(w, calls[1..], p, idle)
  }

  // ---- The kernel does what the view says.

  ghost function Of(k: Kernel, procs: set<Process>): View
    reads k, procs
  {
    View(k.fast, k.normal, k.blocked, k.running, set x | x in procs && x.status == Running,
         set x | x in procs && x.priority >= FAST)
  }

  /** The processes are those in the rings. */
  ghost predicate Settled(k: Kernel, procs: set<Process>)
    reads k
  {
    Covers(k.fast, k.normal, k.blocked, procs) && (k.running in procs || k.running == k.idle)
  }

  ghost predicate Covers(fast: Queue, normal: Queue, blocked: Queue, procs: set<Process>) {
    && (forall x :: x in procs ==> x in fast || x in normal || x in blocked)
    && (forall x :: x in fast ==> x in procs) && (forall x :: x in normal ==> x in procs)
    && (forall x :: x in blocked ==> x in procs)
  }

  /** The kernel is as in the view. */
  ghost predicate Like(k: Kernel, procs: set<Process>, v: View)
    reads k, procs
  {
    && k.fast == v.fast && k.normal == v.normal && k.blocked == v.blocked && k.running == v.running
    && (forall x :: x in procs ==> (x in v.active <==> x.status == Running) && (x in v.quick <==> x.priority >= FAST))
    && v.active <= procs && v.quick <= procs
  }

  lemma LikeIsOf(k: Kernel, procs: set<Process>, v: View)
    ensures Like(k, procs, v) <==> v == Of(k, procs)
  {
    if Like(k, procs, v) {
      assert v.active == Of(k, procs).active;
      assert v.quick == Of(k, procs).quick;
    }
  }

  lemma WithoutMembers(s: Queue, q: Process)
    requires Distinct(s)
    ensures forall x :: x in Without(s, q) <==> x in s && x != q
  {
    if q in s { RemovedMembers(s, q); }
  }

  lemma TurnMembers(s: Queue)
    requires s != []
    ensures forall x :: x in Rotated(s) <==> x in s
  {
    assert s == [s[0]] + s[1..];
  }

  /** Who is running, and who has the status, after a call of Schedule. */
  lemma ScheduledActive(v: View, idle: Process, x: Process)
    ensures var w := Scheduled(v, idle);
      && w.blocked == v.blocked && w.quick == v.quick
      && (x in w.fast <==> x in v.fast) && (x in w.normal <==> x in v.normal)
      && (w.running == idle || w.running in w.fast || w.running in w.normal)
      && (x in w.active <==> if x == w.running && x != v.running && x != idle then true
                             else x in v.active && (x == v.running ==> w.fast == [] && w.normal == []))
  {
    if v.fast != [] { TurnMembers(v.fast); }
    if v.normal != [] { TurnMembers(v.normal); }
  }

  lemma ScheduledCovers(v: View, idle: Process, procs: set<Process>)
    requires Covers(v.fast, v.normal, v.blocked, procs) && v.active <= procs
    ensures var w := Scheduled(v, idle);
      && Covers(w.fast, w.normal, v.blocked, procs) && (w.running in procs || w.running == idle) && w.active <= procs
      && w.blocked == v.blocked && w.quick == v.quick
  {
    if v.fast != [] { TurnMembers(v.fast); }
    if v.normal != [] { TurnMembers(v.normal); }
  }

  method CallSchedule(k: Kernel, ghost procs: set<Process>, ghost v: View)
    requires k.Valid() && Settled(k, procs) && Like(k, procs, v)
    modifies k, procs, k.idle
    ensures k.Valid() && Settled(k, procs) && Like(k, procs, Scheduled(v, k.idle))
  {
    ghost var w := Scheduled(v, k.idle);
    ScheduledCovers(v, k.idle, procs);
    k.Schedule();
    assert k.fast == w.fast && k.normal == w.normal && k.running == w.running;
    forall x | x in procs ensures x in w.active <==> x.status == Running { ScheduledActive(v, k.idle, x); }
  }

  method CallBlock(k: Kernel, q: Process, reason: int, ghost procs: set<Process>, ghost v: View)
    requires k.Valid() && Settled(k, procs) && q in procs && Like(k, procs, v)
    modifies k, procs
    ensures k.Valid() && Settled(k, procs) && Like(k, procs, Next(v, BlockCall(q, reason), k.idle))
  {
    WithoutMembers(k.fast, q);
    WithoutMembers(k.normal, q);
    var _ := k.SetBlocked(q, reason);
  }

  method CallReady(k: Kernel, q: Process, reason: int, ghost procs: set<Process>, ghost v: View)
    requires k.Valid() && Settled(k, procs) && q in procs && Like(k, procs, v)
    modifies k, procs
    ensures k.Valid() && Settled(k, procs) && Like(k, procs, Next(v, ReadyCall(q, reason), k.idle))
  {
    if q.status == Running { return; }
    WithoutMembers(k.blocked, q);
    var _ := k.SetReady(q, reason);
  }

  lemma PriorityRings(v: View, q: Process, value: nat, idle: Process, x: Process)
    requires Distinct(v.fast) && Distinct(v.normal) && Apart(v.fast, v.normal)
    ensures var w := Next(v, PriorityCall(q, value), idle);
      x in w.fast || x in w.normal <==> x in v.fast || x in v.normal
  {
    WithoutMembers(v.fast, q);
    WithoutMembers(v.normal, q);
  }

  method CallPriority(k: Kernel, q: Process, value: nat, ghost procs: set<Process>, ghost v: View)
    requires k.Valid() && Settled(k, procs) && q in procs && Like(k, procs, v)
    modifies k, procs
    ensures k.Valid() && Settled(k, procs) && Like(k, procs, Next(v, PriorityCall(q, value), k.idle))
  {
    ghost var w := Next(v, PriorityCall(q, value), k.idle);
    forall x { PriorityRings(v, q, value, k.idle, x); }
    k.SetPriority(q, value);
    assert k.fast == w.fast && k.normal == w.normal;
  }

  predicate Concerns(c: Call, procs: set<Process>) {
    c.ScheduleCall? || c.q in procs
  }

  /** The call leads from one view to the other. */
  ghost predicate Leads(v: View, c: Call, w: View, idle: Process) {
    w == Next(v, c, idle)
  }

  /** Every call keeps the rings and has exactly its effect on the view. */
  method Perform(k: Kernel, c: Call, ghost procs: set<Process>)
    requires k.Valid() && Settled(k, procs) && Concerns(c, procs)
    modifies k, procs, k.idle
    ensures k.Valid() && Settled(k, procs) && Leads(old(Of(k, procs)), c, Of(k, procs), k.idle)
  {
    ghost var v := Of(k, procs);
    LikeIsOf(k, procs, v);
    match c {
      case ScheduleCall => CallSchedule(k, procs, v);
      case BlockCall(q, reason) => CallBlock(k, q, reason, procs, v);
      case ReadyCall(q, reason) => CallReady(k, q, reason, procs, v);
      case PriorityCall(q, value) => CallPriority(k, q, value, procs, v);
    }
    LikeIsOf(k, procs, Next(v, c, k.idle));
  }

  lemma CallBefore(v: View, c: Call, calls: seq<Call>, p: Process, idle: Process)
    ensures Through(v, [c] + calls, idle) == Through(Next(v, c, idle), calls, idle)
    ensures Unselected(v, [c] + calls, p, idle) <==>
      (c.ScheduleCall? ==> Next(v, c, idle).running != p) && Unselected(Next(v, c, idle), calls, p, idle)
    ensures Schedules([c] + calls) == Schedules(calls) + if c.ScheduleCall? then 1 else 0
  {
    assert ([c] + calls)[1..] == calls;
  }

  lemma PrefixBefore(calls: seq<Call>, made: seq<Call>)
    requires calls != []
    ensures made + [ScheduleCall] <= calls[1..] ==> [calls[0]] + made + [ScheduleCall] <= calls
    ensures made == calls[1..] ==> [calls[0]] + made == calls
  {
    assert calls == [calls[0]] + calls[1..];
    assert [calls[0]] + made + [ScheduleCall] == [calls[0]] + (made + [ScheduleCall]);
  }

  /** Performs the calls in turn until one to Schedule selects p, or all of them; counts the calls to Schedule. */
  method PerformUntil(k: Kernel, ghost procs: set<Process>, p: Process, calls: seq<Call>)
    returns (selected: bool, schedules: nat, ghost made: seq<Call>)
    requires k.Valid() && Settled(k, procs) && forall i :: 0 <= i < |calls| ==> Concerns(calls[i], procs)
    modifies k, procs, k.idle
    ensures k.Valid() && Settled(k, procs) && schedules == Schedules(made) + if selected then 1 else 0
    ensures if selected then made + [ScheduleCall] <= calls && k.running == p else made == calls
    ensures Unselected(old(Of(k, procs)), made, p, k.idle)
    ensures var v := Through(old(Of(k, procs)), made, k.idle);
      Of(k, procs) == if selected then Scheduled(v, k.idle) else v
    decreases |calls|
  {
    if calls == [] { return false, 0, []; }
    var c := calls[0];
    assert Concerns(c, procs);
    ghost var v := Of(k, procs);
    Perform(k, c, procs);
    if c.ScheduleCall? && k.running == p {
      assert [] + [c] <= calls;
      return true, 1, [];
    }
    selected, schedules, made := PerformUntil(k, procs, p, calls[1..]);
    if c.ScheduleCall? { schedules := schedules + 1; }
    CallBefore(v, c, made, p, k.idle);
    PrefixBefore(calls, made);
    made := [c] + made;
  }

  // ---- How long a fast process waits.

  /** The rings are disjoint, without repetition, and match the priorities. */
  ghost predicate Good(v: View) {
    && Distinct(v.fast) && Distinct(v.normal) && Distinct(v.blocked)
    && Apart(v.fast, v.normal) && Apart(v.fast, v.blocked) && Apart(v.normal, v.blocked)
    && (forall x :: x in v.fast ==> x in v.quick) && (forall x :: x in v.normal ==> x !in v.quick)
  }

  lemma ValidGood(k: Kernel, procs: set<Process>)
    requires k.Valid() && Settled(k, procs)
    ensures Good(Of(k, procs))
  {
  }

  lemma WithoutDistinct(s: Queue, q: Process)
    requires Distinct(s)
    ensures Distinct(Without(s, q))
  {
    if q in s && |s| > 1 {
      var p := if s[0] == q then s[1] else s[0];
      LeaveDistance(s, p, q);
    }
  }

  lemma ScheduledGood(v: View, idle: Process)
    requires Good(v)
    ensures Good(Scheduled(v, idle))
  {
    if v.fast != [] {
      TurnDistance(v.fast, v.fast[0]);
      TurnMembers(v.fast);
    }
    if v.normal != [] {
      TurnDistance(v.normal, v.normal[0]);
      TurnMembers(v.normal);
    }
  }

  lemma BlockGood(v: View, q: Process, reason: int, idle: Process)
    requires Good(v)
    ensures Good(Next(v, BlockCall(q, reason), idle))
  {
    WithoutDistinct(v.fast, q);
    WithoutDistinct(v.normal, q);
    WithoutMembers(v.fast, q);
    WithoutMembers(v.normal, q);
  }

  lemma ReadyGood(v: View, q: Process, reason: int, idle: Process)
    requires Good(v)
    ensures Good(Next(v, ReadyCall(q, reason), idle))
  {
    WithoutDistinct(v.blocked, q);
    WithoutMembers(v.blocked, q);
  }

  /** A process goes from one ring to another. */
  lemma MovedApart(from: Queue, to: Queue, other: Queue, q: Process)
    requires Distinct(from) && Distinct(to) && Apart(from, to) && Apart(from, other) && Apart(to, other) && q in from
    ensures Distinct(Without(from, q)) && Distinct(to + [q]) && Apart(Without(from, q), to + [q])
    ensures Apart(Without(from, q), other) && Apart(to + [q], other)
    ensures forall x :: x in Without(from, q) <==> x in from && x != q
  {
    WithoutDistinct(from, q);
    WithoutMembers(from, q);
  }

  lemma PriorityGood(v: View, q: Process, value: nat, idle: Process)
    requires Good(v)
    ensures Good(Next(v, PriorityCall(q, value), idle))
  {
    if q in v.fast && value < FAST {
      MovedApart(v.fast, v.normal, v.blocked, q);
    } else if q in v.normal && value >= FAST {
      MovedApart(v.normal, v.fast, v.blocked, q);
    }
  }

  lemma NextGood(v: View, c: Call, idle: Process)
    requires Good(v)
    ensures Good(Next(v, c, idle))
  {
    match c {
      case ScheduleCall => ScheduledGood(v, idle);
      case BlockCall(q, reason) => BlockGood(v, q, reason, idle);
      case ReadyCall(q, reason) => ReadyGood(v, q, reason, idle);
      case PriorityCall(q, value) => PriorityGood(v, q, value, idle);
    }
  }

  /** A call that lets p stay ready and fast. */
  predicate Keeps(c: Call, p: Process) {
    (c.BlockCall? ==> c.q != p) && (c.PriorityCall? && c.q == p ==> c.value >= FAST)
  }

  /** The event is possible, and makes of the fast ring what the call makes of it. */
  lemma NoticedRight(v: View, c: Call, p: Process, idle: Process)
    requires Good(v) && p in v.fast && Keeps(c, p)
    ensures var w, e := Next(v, c, idle), Noticed(v, c);
      && |e| <= 1 && (c.ScheduleCall? <==> e == [Turn]) && (c.ScheduleCall? ==> w.fast != [] && w.running == w.fast[0])
      && (e != [] ==> Possible(v.fast, e[0]) && e[0] != Leave(p) && w.fast == After(v.fast, e[0]))
      && (e == [] ==> w.fast == v.fast)
  {
  }

  /** Calls that do not select p make a run of events on the fast ring that passes p over. */
  lemma {:induction false} PassedOver(v: View, calls: seq<Call>, p: Process, idle: Process)
    requires Good(v) && p in v.fast && Unselected(v, calls, p, idle)
    requires forall i :: 0 <= i < |calls| ==> Keeps(calls[i], p)
    ensures var w, run := Through(v, calls, idle), Events(v, calls, idle);
      Good(w) && Passed(v.fast, p, run) && w.fast == End(v.fast, p, run) && Turns(run) == Schedules(calls)
    decreases |calls|
  {
    if calls != [] {
      var c, rest, run := calls[0], calls[1..], Events(v, calls, idle);
      var w, e := Next(v, c, idle), Noticed(v, c);
      NextGood(v, c, idle);
      NoticedRight(v, c, p, idle);
      if e != [] { StillThere(v.fast, p, e[0]); }
      PassedOver(w, rest, p, idle);
      OneBefore(v.fast, w.fast, p, e, Events(w, rest, idle));
    }
  }

  lemma OneBefore(s: Queue, u: Queue, p: Process, e: seq<Event>, rest: seq<Event>)
    requires |e| <= 1 && p in s && Passed(u, p, rest) && (e == [] ==> u == s)
    requires e != [] ==> Possible(s, e[0]) && u == After(s, e[0]) && e[0] != Leave(p) && (e[0].Turn? ==> u[0] != p)
    ensures Passed(s, p, e + rest) && End(s, p, e + rest) == End(u, p, rest)
    ensures Turns(e + rest) == Turns(rest) + if e == [Turn] then 1 else 0
  {
    if e == [] {
      assert e + rest == rest;
    } else {
      assert (e + rest)[1..] == rest;
    }
  }

  /** If the call to Schedule after these selects p, their number is within the ring distance if and only if no
      more processes joined the ring while the pointer was at p than left it ahead of p. */
  lemma SelectedWithinDistance(v: View, calls: seq<Call>, p: Process, idle: Process)
    requires Good(v) && p in v.fast && Unselected(v, calls, p, idle)
    requires forall i :: 0 <= i < |calls| ==> Keeps(calls[i], p)
    requires Scheduled(Through(v, calls, idle), idle).running == p
    ensures var run := Events(v, calls, idle);
      && Passed(v.fast, p, run)
      && (Schedules(calls) + 1 <= Distance(v.fast, p) <==> FrontJoins(v.fast, p, run) <= AheadLeaves(v.fast, p, run))
  {
    PassedOver(v, calls, p, idle);
    WithinDistance(v.fast, p, Events(v, calls, idle));
  }

  /** Before p is selected, there are fewer calls to Schedule than its ring distance and these joins. */
  lemma PassedOverBound(v: View, calls: seq<Call>, p: Process, idle: Process)
    requires Good(v) && p in v.fast && Unselected(v, calls, p, idle)
    requires forall i :: 0 <= i < |calls| ==> Keeps(calls[i], p)
    ensures var run := Events(v, calls, idle);
      Passed(v.fast, p, run) && Schedules(calls) < Distance(v.fast, p) + FrontJoins(v.fast, p, run)
  {
    PassedOver(v, calls, p, idle);
    BoundedBypass(v.fast, p, Events(v, calls, idle));
  }

  /** Calls of the kernel until p is selected: how many of them are to Schedule. */
  method WaitFor(k: Kernel, ghost procs: set<Process>, p: Process, calls: seq<Call>)
    returns (selected: bool, schedules: nat, ghost made: seq<Call>)
    requires k.Valid() && Settled(k, procs) && p in k.fast
    requires forall i :: 0 <= i < |calls| ==> Concerns(calls[i], procs) && Keeps(calls[i], p)
    modifies k, procs, k.idle
    ensures k.Valid() && Settled(k, procs) && schedules == Schedules(made) + if selected then 1 else 0
    ensures if selected then made + [ScheduleCall] <= calls && k.running == p else made == calls
    ensures var v := Through(old(Of(k, procs)), made, k.idle);
      Of(k, procs) == if selected then Scheduled(v, k.idle) else v
    ensures var s, run := old(k.fast), Events(old(Of(k, procs)), made, k.idle);
      && Passed(s, p, run) && schedules <= Distance(s, p) + FrontJoins(s, p, run)
      && (selected ==> (schedules <= Distance(s, p) <==> FrontJoins(s, p, run) <= AheadLeaves(s, p, run)))
  {
    ghost var v := Of(k, procs);
    ValidGood(k, procs);
    selected, schedules, made := PerformUntil(k, procs, p, calls);
    assert made <= calls;
    PassedOverBound(v, made, p, k.idle);
    if selected { SelectedWithinDistance(v, made, p, k.idle); }
  }
}
