/** The interpreter loop over its arrays, and the whole of tinyc.c from tokens to variables. */
module TinyCRun {
  import opened Prelude
  import opened TinyCSyntax
  import opened TinyCCode
  import opened TinyCMachine
  import opened TinyCCorrect
  import opened TinyCSafety
  import opened TinyCParser

  /** The stack held by the first cells of the stack array. */
  function ToStack(s: seq<int>): (r: Stack)
    ensures Height(r) == |s|
  {
    if s == [] then Bottom else Push(s[|s| - 1], ToStack(s[..|s| - 1]))
  }

  lemma ToStackPush(s: seq<int>, v: int)
    ensures ToStack(s + [v]) == Push(v, ToStack(s))
  {
    assert (s + [v])[..|s|] == s;
  }

  /** The stack never outgrows cap on the way from st. */
  ghost predicate Fits(code: seq<int>, st: State, cap: nat) {
    forall n: nat :: After(code, st, n).Running? ==> Height(After(code, st, n).st.stack) <= cap
  }

  lemma FitsNext(code: seq<int>, st: State, cap: nat)
    requires Fits(code, st, cap) && Step(code, st).Running?
    ensures Fits(code, Step(code, st).st, cap) && Height(Step(code, st).st.stack) <= cap
  {
    var st' := Step(code, st).st;
    assert After(code, st', 0) == Running(st');
    assert After(code, st, 1) == Running(st');
    forall n: nat | After(code, st', n).Running?
      ensures Height(After(code, st', n).st.stack) <= cap
    {
      assert After(code, st, n + 1) == After(code, st', n);
    }
  }

  class Machine {
    const code: seq<int>
    const stack: array<int>
    const globals: array<int>
    var sp: nat
    var pc: int

    constructor (cells: seq<int>)
      ensures code == cells && pc == 0 && sp == 0
      ensures fresh(stack) && fresh(globals) && stack.Length == 1000 && globals.Length == 26
      ensures forall i :: 0 <= i < 26 ==> globals[i] == 0
    {
      code := cells;
      stack := new int[1000];
      globals := new int[26](i => 0);
      sp, pc := 0, 0;
    }

    ghost predicate Valid()
      reads this
    {
      globals.Length == 26 && stack != globals && sp <= stack.Length
    }

    ghost function Abs(): State
      requires Valid()
      reads this, stack, globals
    {
      State(pc, ToStack(stack[..sp]), globals[..])
    }

    method PushValue(v: int)
      requires Valid() && sp < stack.Length
      modifies stack, `sp
      ensures Valid() && Abs() == old(Abs()).(stack := Push(v, old(Abs()).stack))
    {
      stack[sp] := v;
      sp := sp + 1;
      assert stack[..sp] == old(stack[..sp]) + [v];
      ToStackPush(old(stack[..sp]), v);
    }

    method PopValue() returns (v: int)
      requires Valid() && sp >= 1
      modifies `sp
      ensures Valid() && old(Abs()).stack == Push(v, Abs().stack) && Abs() == old(Abs()).(stack := Abs().stack)
    {
      sp := sp - 1;
      v := stack[sp];
      assert old(stack[..sp]) == stack[..sp] + [v];
      ToStackPush(stack[..sp], v);
    }

    method StoreValue(x: int)
      requires Valid() && sp >= 1 && 0 <= x < 26
      modifies globals
      ensures Valid() && old(Abs()).stack.Push?
      ensures Abs() == old(Abs()).(globals := old(Abs()).globals[x := old(Abs()).stack.top])
    {
      ghost var s0 := stack[..sp];
      ToStackPush(s0[..sp - 1], s0[sp - 1]);
      assert s0 == s0[..sp - 1] + [s0[sp - 1]];
      globals[x] := stack[sp - 1];
      assert stack[..sp] == s0;
    }

    /** One turn of the switch; running tells whether control goes back to its head. */
    method Turn() returns (running: bool)
      requires Valid() && Step(code, Abs()) != Fault
      requires Step(code, Abs()).Running? ==> Height(Step(code, Abs()).st.stack) <= stack.Length
      modifies stack, globals, `sp, `pc
      ensures Valid()
      ensures Step(code, old(Abs())) == if running then Running(Abs()) else Halted(Abs())
    {
      running := true;
      var op := code[pc];
      pc := pc + 1;
      if op == IFETCH {
        var x := code[pc];
        pc := pc + 1;
        PushValue(globals[x]);
      } else if op == ISTORE {
        StoreValue(code[pc]);
        pc := pc + 1;
      } else if op == IPUSH {
        var v := code[pc];
        pc := pc + 1;
        PushValue(v);
      } else if op == IPOP {
        var _ := PopValue();
      } else if op == IADD || op == ISUB || op == ILT {
        Operate(op);
      } else if op == JMP {
        pc := pc + code[pc];
      } else if op == JZ || op == JNZ {
        var v := PopValue();
        if (v == 0) == (op == JZ) { pc := pc + code[pc]; } else { pc := pc + 1; }
      } else {
        running := false;
      }
    }

    /** IADD, ISUB and ILT: the second cell from the top takes the result. */
    method Operate(op: int)
      requires Valid() && sp >= 2 && (op == IADD || op == ISUB || op == ILT)
      modifies stack, `sp
      ensures Valid() && pc == old(pc) && globals[..] == old(globals[..])
      ensures var s := old(Abs()).stack;
        && s.Push? && s.below.Push?
        && Abs().stack == Push(Binary(op, s.below.top, s.top), s.below.below)
    {
      ghost var rest, x, y := stack[..sp - 2], stack[sp - 2], stack[sp - 1];
      assert stack[..sp] == rest + [x] + [y];
      ToStackPush(rest + [x], y);
      ToStackPush(rest, x);
      var l, r := stack[sp - 2], stack[sp - 1];
      stack[sp - 2] :=
        if op == IADD then Int32(l + r) else if op == ISUB then Int32(l - r) else if l < r then 1 else 0;
      sp := sp - 1;
      assert stack[..sp] == rest + [Binary(op, x, y)];
      ToStackPush(rest, Binary(op, x, y));
    }

    /** Runs to the end. The ghost argument says that there is one: how many turns it takes. */
    method Run(ghost n: nat)
      requires Valid() && After(code, Abs(), n).Halted? && Fits(code, Abs(), stack.Length)
      modifies stack, globals, `sp, `pc
      ensures Valid() && After(code, old(Abs()), n) == Halted(Abs())
    {
      ghost var m, end := n, After(code, Abs(), n);
      var running := true;
      while running
        invariant Valid()
        invariant if running then After(code, Abs(), m) == end && Fits(code, Abs(), stack.Length)
          else end == Halted(Abs())
        decreases running, m
      {
        ghost var st := Abs();
        if Step(code, st).Running? { FitsNext(code, st, stack.Length); }
        running := Turn();
        m := if running then m - 1 else m;
      }
    }
  }

  const ZEROS: Globals := seq(26, i => 0)

  /** What the fixed buffers can hold: constants and jumps that fit a char, and 1000 cells of code.
      tinyc.c does not check this. The 1000 cells of stack are then enough. */
  predicate Fitting(s: Stmt) {
    Encodable(ProgramCode(s)) && |ProgramCode(s)| <= 1000
  }

  lemma FittingFits(s: Stmt, g: Globals)
    requires |ProgramCode(s)| <= 1000
    ensures Fits(ProgramCode(s), Initial(g), 1000)
  {
    StmtDepthInLength(s);
    forall n: nat | After(ProgramCode(s), Initial(g), n).Running?
      ensures Height(After(ProgramCode(s), Initial(g), n).st.stack) <= 1000
    {
      StackHeightIsStatic(s, g, n, After(ProgramCode(s), Initial(g), n).st);
    }
  }

  /** The whole compiler, from the tokens of a fitting program that terminates to the final
      variables: the result is what the source semantics gives, and None is a syntax error. */
  method CompileAndRun(ts: seq<Token>, ghost fuel: nat) returns (r: Option<seq<int>>)
    requires ParseProgram(ts).Some? ==>
      Fitting(ParseProgram(ts).value) && Exec(ParseProgram(ts).value, ZEROS, fuel).Some?
    ensures ParseProgram(ts).None? ==> r.None?
    ensures ParseProgram(ts).Some? ==> r == Exec(ParseProgram(ts).value, ZEROS, fuel)
  {
    var parser := new Parser(ts);
    var tree := parser.Program();
    if tree.None? { return None; }
    var x := tree.value;
    var gen := new CodeGen();
    gen.CProgram(x);
    CharsExact(ProgramCode(x));
    var machine := new Machine(gen.cells[..gen.here]);
    assert machine.globals[..] == ZEROS;
    assert machine.code == ProgramCode(x) && machine.Abs() == Initial(ZEROS);
    ghost var n := ProgramRuns(x, ZEROS, fuel);
    FittingFits(x, ZEROS);
    machine.Run(n);
    r := Some(machine.globals[..]);
  }

  /** Without the char limit the statement fails: "a=200;" leaves 200 in a, but its stored code
      leaves -56. */
  lemma TruncationBreaks()
    ensures var s, g := ExprStmt(Set(0, Cst(200))), ZEROS;
      && Terminates(s, g, g[0 := 200])
      && HaltsWith(Chars(ProgramCode(s)), g, g[0 := -56])
      && !Fitting(s)
  {
    var s, g := ExprStmt(Set(0, Cst(200))), ZEROS;
    assert Eval(Cst(200), g) == Valued(200, g);
    assert Exec(s, g, 0) == Some(g[0 := 200]);
    var code := Chars(ProgramCode(s));
    assert ExprCode(Cst(200)) == [IPUSH, 200];
    assert ProgramCode(s) == [IPUSH, 200, ISTORE, 0, IPOP, HALT];
    assert code == [IPUSH, -56, ISTORE, 0, IPOP, HALT];
    var st1 := State(2, Push(-56, Bottom), g);
    var st2 := State(4, Push(-56, Bottom), g[0 := -56]);
    var st3 := State(5, Bottom, g[0 := -56]);
    assert Step(code, Initial(g)) == Running(st1) && Step(code, st1) == Running(st2) && Step(code, st2) == Running(st3);
    assert After(code, st3, 1) == Halted(State(6, Bottom, g[0 := -56]));
    assert After(code, st2, 2) == After(code, st3, 1);
    assert After(code, st1, 3) == After(code, st2, 2);
    assert After(code, Initial(g), 4) == After(code, st1, 3);
    assert ProgramCode(s)[1] == 200;
  }
}
