/** Compiled Tiny-C code simulates the source semantics, step for step and forever. */
module TinyCCorrect {
  import opened Prelude
  import opened TinyCSyntax
  import opened TinyCCode
  import opened TinyCMachine

  /** Stack cells an expression needs above the current top. */
  function ExprDepth(e: Expr): nat {
    match e
    case Var(_) => 1
    case Cst(_) => 1
    case Set(_, e') => ExprDepth(e')
    case Add(a, b) => Max(ExprDepth(a), 1 + ExprDepth(b))
    case Sub(a, b) => Max(ExprDepth(a), 1 + ExprDepth(b))
    case Lt(a, b) => Max(ExprDepth(a), 1 + ExprDepth(b))
  }

  function StmtDepth(s: Stmt): nat {
    match s
    case If1(c, b) => Max(ExprDepth(c), StmtDepth(b))
    case If2(c, b, t) => Max(ExprDepth(c), Max(StmtDepth(b), StmtDepth(t)))
    case While(c, b) => Max(ExprDepth(c), StmtDepth(b))
    case Do(b, c) => Max(ExprDepth(c), StmtDepth(b))
    case Empty => 0
    case Seq(b, t) => Max(StmtDepth(b), StmtDepth(t))
    case ExprStmt(e) => ExprDepth(e)
  }

  function Max(a: nat, b: nat): nat {
    if a < b then b else a
  }

  /** Whatever is on the stack, an expression's code pushes exactly its value. */
  lemma {:induction false} ExprRuns(code: seq<int>, p: int, e: Expr, s: Stack, g: Globals) returns (r: Run)
    requires Placed(code, p, ExprCode(e))
    ensures Runs(code, r, State(p, s, g), State(p + ExprLen(e), Push(Eval(e, g).v, s), Eval(e, g).g))
    ensures Turns(r) >= 1
    decreases e, 1
  {
    var st := State(p, s, g);
    match e
    case Var(x) =>
      PlacedPair(code, p, IFETCH, x);
      r := Turn(st, State(p + 2, Push(g[x], s), g));
    case Cst(n) =>
      PlacedPair(code, p, IPUSH, n);
      r := Turn(st, State(p + 2, Push(n, s), g));
    case Set(x, e') =>
      SetPlaced(code, p, e);
      var r1 := ExprRuns(code, p, e', s, g);
      var v, q := Eval(e', g), p + ExprLen(e');
      r := Join(r1, Turn(End(r1), State(q + 2, Push(v.v, s), v.g[x := v.v])));
    case Add(a, b) => r := BinaryRuns(code, p, e, s, g);
    case Sub(a, b) => r := BinaryRuns(code, p, e, s, g);
    case Lt(a, b) => r := BinaryRuns(code, p, e, s, g);
  }

  lemma BinaryStep(code: seq<int>, q: int, op: int, s: Stack, x: int, y: int, g: Globals)
    requires (op == IADD || op == ISUB || op == ILT) && 0 <= q < |code| && code[q] == op
    ensures Step(code, State(q, Push(y, Push(x, s)), g)) == Running(State(q + 1, Push(Binary(op, x, y), s), g))
  {
  }

  lemma EvalBinary(e: Expr, g: Globals)
    requires e.Add? || e.Sub? || e.Lt?
    ensures var l := Eval(e.a, g); var r := Eval(e.b, l.g); Eval(e, g) == Valued(Binary(Opcode(e), l.v, r.v), r.g)
  {
  }

  lemma {:induction false} BinaryRuns(code: seq<int>, p: int, e: Expr, s: Stack, g: Globals) returns (r: Run)
    requires (e.Add? || e.Sub? || e.Lt?) && Placed(code, p, ExprCode(e))
    ensures Runs(code, r, State(p, s, g), State(p + ExprLen(e), Push(Eval(e, g).v, s), Eval(e, g).g))
    ensures Turns(r) >= 1
    decreases e, 0
  {
    BinaryPlaced(code, p, e);
    var x := Eval(e.a, g);
    var y := Eval(e.b, x.g);
    var q := p + ExprLen(e.a) + ExprLen(e.b);
    var r1 := ExprRuns(code, p, e.a, s, g);
    var r2 := ExprRuns(code, p + ExprLen(e.a), e.b, Push(x.v, s), x.g);
    BinaryStep(code, q, Opcode(e), s, x.v, y.v, y.g);
    EvalBinary(e, g);
    r := Join(Join(r1, r2), Turn(End(r2), State(q + 1, Push(Eval(e, g).v, s), y.g)));
  }

  // ---- Statements.

  lemma JoinRuns(code: seq<int>, a: Run, b: Run, st: State, st': State) returns (r: Run)
    requires Runs(code, a, st, st') && IsRun(code, b) && Start(b) == st'
    ensures Runs(code, r, st, End(b)) && Turns(r) == Turns(a) + Turns(b)
  {
    r := Join(a, b);
  }

  /** A condition and the conditional jump after it. */
  lemma {:induction false} TestRuns(code: seq<int>, p: int, c: Expr, jump: int, v: int, s: Stack, g: Globals)
    returns (r: Run)
    requires jump == JZ || jump == JNZ
    requires TestPlaced(code, p, c, jump, v)
    ensures var q := p + ExprLen(c);
      Runs(code, r, State(p, s, g),
           State(if (Eval(c, g).v == 0) == (jump == JZ) then q + 1 + v else q + 2, s, Eval(c, g).g))
    ensures Turns(r) >= 1
  {
    var r1 := ExprRuns(code, p, c, s, g);
    r := Join(r1, Turn(End(r1), Step(code, End(r1)).st));
  }

  lemma JumpRuns(code: seq<int>, p: int, v: int, s: Stack, g: Globals) returns (r: Run)
    requires Pair(code, p, JMP, v)
    ensures Runs(code, r, State(p, s, g), State(p + 1 + v, s, g)) && Turns(r) == 1
  {
    r := Turn(State(p, s, g), State(p + 1 + v, s, g));
  }

  /** What running s from position p must come to: its final variables and the same stack if
      the source terminates within fuel, and at least fuel turns of machine time if not. */
  predicate Simulates(code: seq<int>, p: int, s: Stmt, stk: Stack, g: Globals, fuel: nat, r: Run) {
    && IsRun(code, r)
    && Start(r) == State(p, stk, g)
    && match Exec(s, g, fuel)
       case Some(g') => End(r) == State(p + StmtLen(s), stk, g')
       case None => Turns(r) >= fuel
  }

  lemma {:induction false} StmtRuns(code: seq<int>, p: int, s: Stmt, stk: Stack, g: Globals, fuel: nat)
    returns (r: Run)
    requires Placed(code, p, StmtCode(s))
    ensures Simulates(code, p, s, stk, g, fuel, r)
    decreases fuel, s, 1
  {
    match s
    case If1(c, b) => r := If1Runs(code, p, s, stk, g, fuel);
    case If2(c, b, t) => r := If2Runs(code, p, s, stk, g, fuel);
    case While(c, b) =>
      if fuel == 0 { r := Rest(State(p, stk, g)); } else { r := WhileRuns(code, p, s, stk, g, fuel); }
    case Do(b, c) =>
      if fuel == 0 { r := Rest(State(p, stk, g)); } else { r := DoRuns(code, p, s, stk, g, fuel); }
    case Empty => r := Rest(State(p, stk, g));
    case Seq(b, t) =>
      PlacedCat(code, p, StmtCode(b), StmtCode(t));
      r := StmtRuns(code, p, b, stk, g, fuel);
      if Exec(b, g, fuel).Some? {
        var r2 := StmtRuns(code, p + StmtLen(b), t, stk, End(r).globals, fuel);
        r := Join(r, r2);
      }
    case ExprStmt(e) =>
      ExprStmtPlaced(code, p, s);
      var r1 := ExprRuns(code, p, e, stk, g);
      r := Join(r1, Turn(End(r1), Step(code, End(r1)).st));
  }

  lemma {:induction false} If1Runs(code: seq<int>, p: int, s: Stmt, stk: Stack, g: Globals, fuel: nat)
    returns (r: Run)
    requires s.If1? && Placed(code, p, StmtCode(s))
    ensures Simulates(code, p, s, stk, g, fuel, r)
    decreases fuel, s, 0
  {
    If1Placed(code, p, s);
    r := TestRuns(code, p, s.c, JZ, StmtLen(s.s) + 1, stk, g);
    if Eval(s.c, g).v != 0 {
      var r2 := StmtRuns(code, p + ExprLen(s.c) + 2, s.s, stk, Eval(s.c, g).g, fuel);
      r := Join(r, r2);
    }
  }

  lemma {:induction false} If2Runs(code: seq<int>, p: int, s: Stmt, stk: Stack, g: Globals, fuel: nat)
    returns (r: Run)
    requires s.If2? && Placed(code, p, StmtCode(s))
    ensures Simulates(code, p, s, stk, g, fuel, r)
    decreases fuel, s, 0
  {
    If2Placed(code, p, s);
    var b, t := StmtLen(s.s), StmtLen(s.t);
    r := TestRuns(code, p, s.c, JZ, b + 3, stk, g);
    var q, v := p + ExprLen(s.c) + 2, Eval(s.c, g);
    if v.v == 0 {
      var r2 := StmtRuns(code, q + b + 2, s.t, stk, v.g, fuel);
      r := JoinRuns(code, r, r2, State(p, stk, g), State(q + b + 2, stk, v.g));
    } else {
      var r2 := StmtRuns(code, q, s.s, stk, v.g, fuel);
      r := JoinRuns(code, r, r2, State(p, stk, g), State(q, stk, v.g));
      match Exec(s.s, v.g, fuel)
      case None =>
      case Some(g2) =>
        var r3 := JumpRuns(code, q + b, t + 1, stk, g2);
        r := JoinRuns(code, r, r3, State(p, stk, g), State(q + b, stk, g2));
    }
  }

  lemma {:induction false} WhileRuns(code: seq<int>, p: int, s: Stmt, stk: Stack, g: Globals, fuel: nat)
    returns (r: Run)
    requires s.While? && fuel > 0 && Placed(code, p, StmtCode(s))
    ensures Simulates(code, p, s, stk, g, fuel, r)
    decreases fuel, s, 0
  {
    WhilePlaced(code, p, s);
    var b, back := StmtLen(s.s), -(ExprLen(s.c) + StmtLen(s.s) + 3);
    var r1 := TestRuns(code, p, s.c, JZ, b + 3, stk, g);
    var q, v := p + ExprLen(s.c) + 2, Eval(s.c, g);
    if v.v == 0 { return r1; }
    var r2 := StmtRuns(code, q, s.s, stk, v.g, fuel);
    r := JoinRuns(code, r1, r2, State(p, stk, g), State(q, stk, v.g));
    match Exec(s.s, v.g, fuel)
    case None =>
    case Some(g2) =>
      var r3 := JumpRuns(code, q + b, back, stk, g2);
      r := JoinRuns(code, r, r3, State(p, stk, g), State(q + b, stk, g2));
      var r4 := StmtRuns(code, p, s, stk, g2, fuel - 1);
      r := JoinRuns(code, r, r4, State(p, stk, g), State(p, stk, g2));
  }

  lemma {:induction false} DoRuns(code: seq<int>, p: int, s: Stmt, stk: Stack, g: Globals, fuel: nat)
    returns (r: Run)
    requires s.Do? && fuel > 0 && Placed(code, p, StmtCode(s))
    ensures Simulates(code, p, s, stk, g, fuel, r)
    decreases fuel, s, 0
  {
    DoPlaced(code, p, s);
    var b: int, c: int := StmtLen(s.s), ExprLen(s.c);
    r := StmtRuns(code, p, s.s, stk, g, fuel);
    match Exec(s.s, g, fuel)
    case None =>
    case Some(g1) =>
      var r2 := TestRuns(code, p + b, s.c, JNZ, -(b + c + 1), stk, g1);
      r := JoinRuns(code, r, r2, State(p, stk, g), State(p + b, stk, g1));
      var v := Eval(s.c, g1);
      if v.v != 0 {
        var r3 := StmtRuns(code, p, s, stk, v.g, fuel - 1);
        r := JoinRuns(code, r, r3, State(p, stk, g), State(p, stk, v.g));
      }
  }

  // ---- Whole programs.

  function Initial(g: Globals): State {
    State(0, Bottom, g)
  }

  /** The machine stops, behind the last cell, with an empty stack and the variables g'. */
  ghost predicate HaltsWith(code: seq<int>, g: Globals, g': Globals) {
    exists n: nat :: After(code, Initial(g), n) == Halted(State(|code|, Bottom, g'))
  }

  ghost predicate RunsForever(code: seq<int>, g: Globals) {
    forall n: nat :: After(code, Initial(g), n).Running?
  }

  lemma {:induction false} ProgramRuns(s: Stmt, g: Globals, fuel: nat) returns (n: nat)
    ensures var code := ProgramCode(s);
      match Exec(s, g, fuel)
      case Some(g') => After(code, Initial(g), n) == Halted(State(|code|, Bottom, g'))
      case None => n >= fuel && After(code, Initial(g), n).Running?
  {
    var code := ProgramCode(s);
    ProgramPlaced(s);
    var r := StmtRuns(code, 0, s, Bottom, g, fuel);
    RunAfter(code, r);
    n := Turns(r);
    if Exec(s, g, fuel).Some? {
      AfterAdd(code, Initial(g), n, 1);
      n := n + 1;
    }
  }

  /** If the machine stops at all, the source terminates. */
  lemma {:induction false} StopsSoTerminates(s: Stmt, g: Globals, n: nat) returns (g': Globals)
    requires !After(ProgramCode(s), Initial(g), n).Running?
    ensures Exec(s, g, n) == Some(g')
    ensures After(ProgramCode(s), Initial(g), n) == Halted(State(|ProgramCode(s)|, Bottom, g'))
  {
    var code := ProgramCode(s);
    var m := ProgramRuns(s, g, n);
    match Exec(s, g, n)
    case None =>
      AfterStopped(code, Initial(g), n, m);
      assert false;
    case Some(g1) =>
      g' := g1;
      if m <= n {
        AfterStopped(code, Initial(g), m, n);
      } else {
        AfterStopped(code, Initial(g), n, m);
      }
  }

  /** Compiler correctness: the machine stops with exactly the variables the source ends with,
      and stops only if the source does. */
  lemma {:induction false} CompilerCorrect(s: Stmt, g: Globals, g': Globals)
    ensures Terminates(s, g, g') <==> HaltsWith(ProgramCode(s), g, g')
  {
    var code := ProgramCode(s);
    if Terminates(s, g, g') {
      var fuel: nat :| Exec(s, g, fuel) == Some(g');
      var n := ProgramRuns(s, g, fuel);
    }
    if HaltsWith(code, g, g') {
      var n: nat :| After(code, Initial(g), n) == Halted(State(|code|, Bottom, g'));
      var g1 := StopsSoTerminates(s, g, n);
    }
  }

  /** A program that loops is compiled to code that loops, and conversely. */
  lemma {:induction false} DivergenceCorrect(s: Stmt, g: Globals)
    ensures Diverges(s, g) <==> RunsForever(ProgramCode(s), g)
  {
    var code := ProgramCode(s);
    if Diverges(s, g) {
      forall n: nat ensures After(code, Initial(g), n).Running? {
        if !After(code, Initial(g), n).Running? {
          var g1 := StopsSoTerminates(s, g, n);
        }
      }
    }
    if RunsForever(code, g) {
      forall fuel: nat ensures Exec(s, g, fuel) == None {
        var n := ProgramRuns(s, g, fuel);
      }
    }
  }

  /** No compiled program ever jumps outside its code, reads past it, or pops an empty stack. */
  lemma {:induction false} NeverFaults(s: Stmt, g: Globals, n: nat)
    ensures After(ProgramCode(s), Initial(g), n) != Fault
  {
    if !After(ProgramCode(s), Initial(g), n).Running? {
      var g' := StopsSoTerminates(s, g, n);
    }
  }
}
