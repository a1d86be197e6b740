/** Meaning of Tiny-C programs, and the stack machine of tinyc.c (lines 435-492). */
module TinyCMachine {
  import opened Prelude
  import opened TinyCSyntax
  import opened TinyCCode

  // ---- Source semantics.

  /** The values of the variables a .. z. */
  type Globals = g: seq<int> | |g| == 26 witness seq(26, i => 0)

  /** Two's complement 32-bit wrap-around, for both the source and the machine. */
  function Int32(x: int): int
    decreases if -0x8000_0000 <= x < 0x8000_0000 then 0 else if x < 0 then -x else x
  {
    if x < -0x8000_0000 then Int32(x + 0x1_0000_0000)
    else if x >= 0x8000_0000 then Int32(x - 0x1_0000_0000)
    else x
  }

  /** The value in range that differs by a multiple of 2^32; there is only one. */
  lemma {:induction false} Int32Wraps(x: int)
    ensures -0x8000_0000 <= Int32(x) < 0x8000_0000 && (Int32(x) - x) % 0x1_0000_0000 == 0
    ensures Int32(x) == x <==> -0x8000_0000 <= x < 0x8000_0000
    decreases if -0x8000_0000 <= x < 0x8000_0000 then 0 else if x < 0 then -x else x
  {
    if x < -0x8000_0000 {
      Int32Wraps(x + 0x1_0000_0000);
    } else if x >= 0x8000_0000 {
      Int32Wraps(x - 0x1_0000_0000);
    }
  }

  datatype Valued = Valued(v: int, g: Globals)

  /** Operands are evaluated left to right; an assignment is an expression with a side effect. */
  function Eval(e: Expr, g: Globals): Valued {
    match e
    case Var(x) => Valued(g[x], g)
    case Cst(n) => Valued(n, g)
    case Add(a, b) => var l := Eval(a, g); var r := Eval(b, l.g); Valued(Int32(l.v + r.v), r.g)
    case Sub(a, b) => var l := Eval(a, g); var r := Eval(b, l.g); Valued(Int32(l.v - r.v), r.g)
    case Lt(a, b) => var l := Eval(a, g); var r := Eval(b, l.g); Valued(if l.v < r.v then 1 else 0, r.g)
    case Set(x, e') => var r := Eval(e', g); Valued(r.v, r.g[x := r.v])
  }

  /** Runs a statement; None when some loop needs more than fuel iterations. */
  function Exec(s: Stmt, g: Globals, fuel: nat): Option<Globals>
    decreases fuel, s
  {
    match s
    case If1(c, b) =>
      var r := Eval(c, g);
      if r.v != 0 then Exec(b, r.g, fuel) else Some(r.g)
    case If2(c, b, t) =>
      var r := Eval(c, g);
      Exec(if r.v != 0 then b else t, r.g, fuel)
    case While(c, b) =>
      if fuel == 0 then None
      else
        var r := Eval(c, g);
        if r.v == 0 then Some(r.g)
        else
          (match Exec(b, r.g, fuel)
           case None => None
           case Some(g') => Exec(s, g', fuel - 1))
    case Do(b, c) =>
      if fuel == 0 then None
      else
        (match Exec(b, g, fuel)
         case None => None
         case Some(g') =>
           var r := Eval(c, g');
           if r.v == 0 then Some(r.g) else Exec(s, r.g, fuel - 1))
    case Empty => Some(g)
    case Seq(b, t) =>
      (match Exec(b, g, fuel)
       case None => None
       case Some(g') => Exec(t, g', fuel))
    case ExprStmt(e) => Some(Eval(e, g).g)
  }

  ghost predicate Terminates(s: Stmt, g: Globals, g': Globals) {
    exists fuel: nat :: Exec(s, g, fuel) == Some(g')
  }

  ghost predicate Diverges(s: Stmt, g: Globals) {
    forall fuel: nat :: Exec(s, g, fuel) == None
  }

  // ---- The machine.

  datatype Stack = Bottom | Push(top: int, below: Stack)

  function Height(s: Stack): nat {
    if s.Bottom? then 0 else 1 + Height(s.below)
  }

  datatype State = State(pc: int, stack: Stack, globals: Globals)

  /** Fault stands for every access outside code or globals and below the stack. */
  datatype Status = Running(st: State) | Halted(st: State) | Fault

  /** One turn of the interpreter loop. An opcode that is not an instruction leaves the switch
      and ends the run, as HALT does. The stack is unbounded here; TinyCSafety bounds it. */
  function Step(code: seq<int>, st: State): Status {
    var State(pc, s, g) := st;
    if !(0 <= pc < |code|) then Fault
    else if code[pc] == IFETCH || code[pc] == ISTORE then
      if pc + 1 < |code| && 0 <= code[pc + 1] < 26 then StepGlobal(st, code[pc], code[pc + 1]) else Fault
    else if code[pc] == IPUSH || code[pc] == JMP || code[pc] == JZ || code[pc] == JNZ then
      if pc + 1 < |code| then StepOperand(st, code[pc], code[pc + 1]) else Fault
    else if code[pc] == IPOP then
      if s.Push? then Running(State(pc + 1, s.below, g)) else Fault
    else if code[pc] == IADD || code[pc] == ISUB || code[pc] == ILT then
      if s.Push? && s.below.Push?
      then Running(State(pc + 1, Push(Binary(code[pc], s.below.top, s.top), s.below.below), g)) else Fault
    else Halted(State(pc + 1, s, g))
  }

  /** IFETCH and ISTORE on variable x. */
  function StepGlobal(st: State, op: int, x: Letter): Status {
    var State(pc, s, g) := st;
    if op == IFETCH then Running(State(pc + 2, Push(g[x], s), g))
    else if s.Push? then Running(State(pc + 2, s, g[x := s.top]))
    else Fault
  }

  /** IPUSH and the jumps, with the operand cell v; a jump is relative to its operand cell. */
  function StepOperand(st: State, op: int, v: int): Status {
    var State(pc, s, g) := st;
    if op == IPUSH then Running(State(pc + 2, Push(v, s), g))
    else if op == JMP then Running(State(pc + 1 + v, s, g))
    else if s.Bottom? then Fault
    else if (s.top == 0) == (op == JZ) then Running(State(pc + 1 + v, s.below, g))
    else Running(State(pc + 2, s.below, g))
  }

  function Binary(op: int, x: int, y: int): int {
    if op == IADD then Int32(x + y) else if op == ISUB then Int32(x - y) else if x < y then 1 else 0
  }

  /** A 32-bit value that differs from x by a multiple of 2^32. */
  predicate Wrapped(v: int, x: int) {
    -0x8000_0000 <= v < 0x8000_0000 && (v - x) % 0x1_0000_0000 == 0
  }

  /** What the three operations leave on the stack, x being the value pushed first. */
  lemma BinaryMeans(x: int, y: int)
    ensures Wrapped(Binary(IADD, x, y), x + y) && Wrapped(Binary(ISUB, x, y), x - y)
    ensures Binary(ILT, x, y) == if x < y then 1 else 0
  {
    Int32Wraps(x + y);
    Int32Wraps(x - y);
  }

  /** The status after n turns; a halted or faulted machine stays as it is. */
  function After(code: seq<int>, st: State, n: nat): Status
    decreases n
  {
    if n == 0 then Running(st)
    else
      match Step(code, st)
      case Running(st') => After(code, st', n - 1)
      case other => other
  }

  lemma {:induction false} AfterAdd(code: seq<int>, st: State, m: nat, n: nat)
    requires After(code, st, m).Running?
    ensures After(code, st, m + n) == After(code, After(code, st, m).st, n)
    decreases m
  {
    if m > 0 { AfterAdd(code, Step(code, st).st, m - 1, n); }
  }

  /** A machine that has stopped stays stopped, in the same status. */
  lemma {:induction false} AfterStopped(code: seq<int>, st: State, m: nat, n: nat)
    requires !After(code, st, m).Running? && m <= n
    ensures After(code, st, n) == After(code, st, m)
    decreases m
  {
    if m > 0 && Step(code, st).Running? { AfterStopped(code, Step(code, st).st, m - 1, n - 1); }
  }

  /** A finite run of the machine, built up from single turns. */
  datatype Run = Rest(at: State) | Turn(before: State, after: State) | Join(first: Run, second: Run)

  function Start(r: Run): State {
    match r
    case Rest(at) => at
    case Turn(before, _) => before
    case Join(first, _) => Start(first)
  }

  function End(r: Run): State {
    match r
    case Rest(at) => at
    case Turn(_, after) => after
    case Join(_, second) => End(second)
  }

  function Turns(r: Run): nat {
    match r
    case Rest(_) => 0
    case Turn(_, _) => 1
    case Join(first, second) => Turns(first) + Turns(second)
  }

  predicate IsRun(code: seq<int>, r: Run) {
    match r
    case Rest(_) => true
    case Turn(before, after) => Step(code, before) == Running(after)
    case Join(first, second) => IsRun(code, first) && IsRun(code, second) && End(first) == Start(second)
  }

  /** r is a run of the code from st to st'. */
  predicate Runs(code: seq<int>, r: Run, st: State, st': State) {
    IsRun(code, r) && Start(r) == st && End(r) == st'
  }

  lemma {:induction false} RunAfter(code: seq<int>, r: Run)
    requires IsRun(code, r)
    ensures After(code, Start(r), Turns(r)) == Running(End(r))
  {
    match r
    case Rest(_) =>
    case Turn(before, after) => assert After(code, after, 0) == Running(after);
    case Join(first, second) =>
      RunAfter(code, first);
      RunAfter(code, second);
      AfterAdd(code, Start(first), Turns(first), Turns(second));
  }
}
