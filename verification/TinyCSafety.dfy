/** What holds in every reachable state of a compiled program: the program counter is on an
    instruction, and the stack height is a function of it, bounded by expression nesting. */
module TinyCSafety {
  import opened Prelude
  import opened TinyCSyntax
  import opened TinyCCode
  import opened TinyCMachine
  import opened TinyCCorrect

  /** Number of values an expression has pushed when control is at offset off of its code;
      None when no instruction starts there. */
  function ExprHeightAt(e: Expr, off: int): Option<nat>
    decreases e, 1
  {
    match e
    case Var(_) => if off == 0 then Some(0) else None
    case Cst(_) => if off == 0 then Some(0) else None
    case Add(a, b) => BinaryHeightAt(e, off)
    case Sub(a, b) => BinaryHeightAt(e, off)
    case Lt(a, b) => BinaryHeightAt(e, off)
    case Set(_, e') =>
      if off < ExprLen(e') then ExprHeightAt(e', off)
      else if off == ExprLen(e') then Some(1) else None
  }

  function BinaryHeightAt(e: Expr, off: int): Option<nat>
    requires e.Add? || e.Sub? || e.Lt?
    decreases e, 0
  {
    var a, b := ExprLen(e.a), ExprLen(e.b);
    if off < a then ExprHeightAt(e.a, off)
    else if off < a + b then Above(ExprHeightAt(e.b, off - a))
    else if off == a + b then Some(2) else None
  }

  function Above(h: Option<nat>): Option<nat> {
    match h
    case None => None
    case Some(n) => Some(n + 1)
  }

  function StmtHeightAt(s: Stmt, off: int): Option<nat> {
    match s
    case If1(c, b) =>
      var q := ExprLen(c) + 2;
      if off < q then TestHeightAt(c, off) else StmtHeightAt(b, off - q)
    case If2(c, b, t) =>
      var q := ExprLen(c) + 2;
      var j := q + StmtLen(b);
      if off < q then TestHeightAt(c, off)
      else if off < j then StmtHeightAt(b, off - q)
      else if off < j + 2 then (if off == j then Some(0) else None)
      else StmtHeightAt(t, off - j - 2)
    case While(c, b) =>
      var q := ExprLen(c) + 2;
      var j := q + StmtLen(b);
      if off < q then TestHeightAt(c, off)
      else if off < j then StmtHeightAt(b, off - q)
      else if off == j then Some(0) else None
    case Do(b, c) =>
      var q := StmtLen(b);
      if off < q then StmtHeightAt(b, off) else TestHeightAt(c, off - q)
    case Empty => None
    case Seq(b, t) =>
      var q := StmtLen(b);
      if off < q then StmtHeightAt(b, off) else StmtHeightAt(t, off - q)
    case ExprStmt(e) =>
      if off < ExprLen(e) then ExprHeightAt(e, off)
      else if off == ExprLen(e) then Some(1) else None
  }

  /** A condition followed by a conditional jump. */
  function TestHeightAt(c: Expr, off: int): Option<nat> {
    if off < ExprLen(c) then ExprHeightAt(c, off)
    else if off == ExprLen(c) then Some(1) else None
  }

  /** Offset off of an expression's code, or its end, is reached with h values pushed. */
  predicate ExprPoint(e: Expr, off: int, h: int) {
    if off == ExprLen(e) then h == 1 else h >= 0 && ExprHeightAt(e, off) == Some(h)
  }

  predicate StmtPoint(s: Stmt, off: int, h: int) {
    if off == StmtLen(s) then h == 0 else h >= 0 && StmtHeightAt(s, off) == Some(h)
  }

  predicate TestPoint(c: Expr, off: int, h: int) {
    if off == ExprLen(c) + 2 then h == 0 else h >= 0 && TestHeightAt(c, off) == Some(h)
  }

  /** Heights are given only inside the code and stay within the depth. */
  lemma {:induction false} ExprHeightBound(e: Expr, off: int)
    requires ExprHeightAt(e, off).Some?
    ensures 0 <= off < ExprLen(e) && ExprHeightAt(e, off).value <= ExprDepth(e)
  {
    match e
    case Var(_) =>
    case Cst(_) =>
    case Set(_, e') =>
      ExprDepthPositive(e');
      if off < ExprLen(e') { ExprHeightBound(e', off); }
    case _ =>
      ExprDepthPositive(e.b);
      if off < ExprLen(e.a) { ExprHeightBound(e.a, off); }
      else if off < ExprLen(e.a) + ExprLen(e.b) { ExprHeightBound(e.b, off - ExprLen(e.a)); }
  }

  lemma {:induction false} ExprDepthPositive(e: Expr)
    ensures ExprDepth(e) >= 1 && ExprLen(e) >= 2
  {
    match e
    case Var(_) =>
    case Cst(_) =>
    case Set(_, e') => ExprDepthPositive(e');
    case _ => ExprDepthPositive(e.a); ExprDepthPositive(e.b);
  }

  lemma {:induction false} StmtHeightBound(s: Stmt, off: int)
    requires StmtHeightAt(s, off).Some?
    ensures 0 <= off < StmtLen(s) && StmtHeightAt(s, off).value <= StmtDepth(s)
  {
    match s
    case If1(c, b) =>
      var q := ExprLen(c) + 2;
      if off < q { TestHeightBound(c, off); } else { StmtHeightBound(b, off - q); }
    case If2(c, b, t) =>
      var q := ExprLen(c) + 2;
      var j := q + StmtLen(b);
      if off < q { TestHeightBound(c, off); }
      else if off < j { StmtHeightBound(b, off - q); }
      else if off >= j + 2 { StmtHeightBound(t, off - j - 2); }
    case While(c, b) =>
      var q := ExprLen(c) + 2;
      if off < q { TestHeightBound(c, off); }
      else if off < q + StmtLen(b) { StmtHeightBound(b, off - q); }
    case Do(b, c) =>
      var q := StmtLen(b);
      if off < q { StmtHeightBound(b, off); } else { TestHeightBound(c, off - q); }
    case Seq(b, t) =>
      var q := StmtLen(b);
      if off < q { StmtHeightBound(b, off); } else { StmtHeightBound(t, off - q); }
    case ExprStmt(e) =>
      ExprDepthPositive(e);
      if off < ExprLen(e) { ExprHeightBound(e, off); }
  }

  lemma TestHeightBound(c: Expr, off: int)
    requires TestHeightAt(c, off).Some?
    ensures 0 <= off <= ExprLen(c) && TestHeightAt(c, off).value <= ExprDepth(c)
  {
    ExprDepthPositive(c);
    if off < ExprLen(c) { ExprHeightBound(c, off); }
  }

  // ---- Entry points.

  lemma {:induction false} ExprEntry(e: Expr)
    ensures ExprHeightAt(e, 0) == Some(0) && ExprLen(e) >= 2
  {
    ExprDepthPositive(e);
    match e
    case Var(_) =>
    case Cst(_) =>
    case Set(_, e') => ExprEntry(e');
    case _ => ExprEntry(e.a);
  }

  lemma {:induction false} StmtEntry(s: Stmt)
    ensures StmtPoint(s, 0, 0)
  {
    match s
    case If1(c, _) => ExprEntry(c);
    case If2(c, _, _) => ExprEntry(c);
    case While(c, _) => ExprEntry(c);
    case Do(b, c) => StmtEntry(b); ExprEntry(c);
    case Empty =>
    case Seq(b, t) => StmtEntry(b); StmtEntry(t);
    case ExprStmt(e) => ExprEntry(e);
  }

  // ---- One turn keeps to the points, with the heights given there.

  /** The machine is at offset off of code placed at p, h values above base. */
  predicate IsAt(st: State, p: int, off: int, base: nat, h: int) {
    st.pc == p + off && Height(st.stack) == base + h
  }

  lemma {:induction false} ExprStep(code: seq<int>, p: int, e: Expr, off: int, base: nat, h: nat, st: State)
    returns (off': int, h': int)
    requires Placed(code, p, ExprCode(e)) && ExprHeightAt(e, off) == Some(h) && IsAt(st, p, off, base, h)
    ensures Step(code, st).Running? && IsAt(Step(code, st).st, p, off', base, h') && ExprPoint(e, off', h')
    decreases e, 1
  {
    match e
    case Var(x) => PlacedPair(code, p, IFETCH, x); off', h' := 2, 1;
    case Cst(n) => PlacedPair(code, p, IPUSH, n); off', h' := 2, 1;
    case Set(x, e') =>
      SetPlaced(code, p, e);
      if off < ExprLen(e') {
        off', h' := ExprStep(code, p, e', off, base, h, st);
        PointInside(e', off', h');
      } else {
        off', h' := off + 2, 1;
      }
    case Add(_, _) => off', h' := BinaryPointStep(code, p, e, off, base, h, st);
    case Sub(_, _) => off', h' := BinaryPointStep(code, p, e, off, base, h, st);
    case Lt(_, _) => off', h' := BinaryPointStep(code, p, e, off, base, h, st);
  }

  /** A point lies inside the code or at its end. */
  lemma PointInside(e: Expr, off: int, h: int)
    requires ExprPoint(e, off, h)
    ensures 0 <= off <= ExprLen(e)
  {
    if off != ExprLen(e) { ExprHeightBound(e, off); }
  }

  /** An operator finds its two operands and leaves one value. */
  lemma OperatorStep(code: seq<int>, op: int, base: nat, st: State)
    requires (op == IADD || op == ISUB || op == ILT) && 0 <= st.pc < |code| && code[st.pc] == op
    requires Height(st.stack) == base + 2
    ensures Step(code, st).Running? && Step(code, st).st.pc == st.pc + 1
    ensures Height(Step(code, st).st.stack) == base + 1
  {
    assert Height(st.stack.below) == base + 1 && Height(st.stack.below.below) == base;
    BinaryStep(code, st.pc, op, st.stack.below.below, st.stack.below.top, st.stack.top, st.globals);
  }

  lemma BinaryUnfold(e: Expr, off: int)
    requires e.Add? || e.Sub? || e.Lt?
    ensures ExprLen(e) == ExprLen(e.a) + ExprLen(e.b) + 1
    ensures ExprHeightAt(e, off) == BinaryHeightAt(e, off)
  {
  }

  /** Points of the operands are points of the operation. */
  lemma LeftPoint(e: Expr, off: int, h: int)
    requires (e.Add? || e.Sub? || e.Lt?) && ExprPoint(e.a, off, h)
    ensures ExprPoint(e, off, h)
  {
    BinaryUnfold(e, off);
    PointInside(e.a, off, h);
    ExprEntry(e.b);
  }

  lemma RightPoint(e: Expr, off: int, h: int)
    requires (e.Add? || e.Sub? || e.Lt?) && ExprPoint(e.b, off, h)
    ensures ExprPoint(e, ExprLen(e.a) + off, h + 1)
  {
    BinaryUnfold(e, ExprLen(e.a) + off);
    PointInside(e.b, off, h);
  }

  lemma {:induction false} BinaryPointStep(code: seq<int>, p: int, e: Expr, off: int, base: nat, h: nat, st: State)
    returns (off': int, h': int)
    requires (e.Add? || e.Sub? || e.Lt?) && Placed(code, p, ExprCode(e))
    requires BinaryHeightAt(e, off) == Some(h) && IsAt(st, p, off, base, h)
    ensures Step(code, st).Running? && IsAt(Step(code, st).st, p, off', base, h') && ExprPoint(e, off', h')
    decreases e, 0
  {
    var a, b := ExprLen(e.a), ExprLen(e.b);
    BinaryPlaced(code, p, e);
    if off < a {
      off', h' := ExprStep(code, p, e.a, off, base, h, st);
      LeftPoint(e, off', h');
    } else if off < a + b {
      off', h' := ExprStep(code, p + a, e.b, off - a, base + 1, h - 1, st);
      RightPoint(e, off', h');
      off', h' := a + off', h' + 1;
    } else {
      OperatorStep(code, Opcode(e), base, st);
      off', h' := off + 1, 1;
      BinaryUnfold(e, off');
    }
  }

  lemma {:induction false} TestStep(code: seq<int>, p: int, c: Expr, jump: int, v: int, off: int, base: nat, h: nat,
      st: State)
    returns (off': int, h': int)
    requires jump == JZ || jump == JNZ
    requires TestPlaced(code, p, c, jump, v) && TestHeightAt(c, off) == Some(h) && IsAt(st, p, off, base, h)
    ensures Step(code, st).Running? && IsAt(Step(code, st).st, p, off', base, h')
    ensures TestPoint(c, off', h') || (off' == ExprLen(c) + 1 + v && h' == 0)
    ensures off == ExprLen(c) ==> h' == 0 && (off' == off + 2 || off' == off + 1 + v)
    ensures off < ExprLen(c) ==> 0 <= off' <= ExprLen(c)
  {
    if off < ExprLen(c) {
      off', h' := ExprStep(code, p, c, off, base, h, st);
      PointInside(c, off', h');
    } else {
      off', h' := Step(code, st).st.pc - p, 0;
    }
  }

  lemma StmtPointInside(s: Stmt, off: int, h: int)
    requires StmtPoint(s, off, h)
    ensures 0 <= off <= StmtLen(s)
  {
    if off != StmtLen(s) { StmtHeightBound(s, off); }
  }

  lemma {:induction false} StmtStep(code: seq<int>, p: int, s: Stmt, off: int, base: nat, h: nat, st: State)
    returns (off': int, h': int)
    requires Placed(code, p, StmtCode(s)) && StmtHeightAt(s, off) == Some(h) && IsAt(st, p, off, base, h)
    ensures Step(code, st).Running? && IsAt(Step(code, st).st, p, off', base, h') && StmtPoint(s, off', h')
    decreases s, 1
  {
    match s
    case If1(_, _) => off', h' := If1Step(code, p, s, off, base, h, st);
    case If2(_, _, _) => off', h' := If2Step(code, p, s, off, base, h, st);
    case While(_, _) => off', h' := WhileStep(code, p, s, off, base, h, st);
    case Do(_, _) => off', h' := DoStep(code, p, s, off, base, h, st);
    case Seq(_, _) => off', h' := SeqStep(code, p, s, off, base, h, st);
    case ExprStmt(e) =>
      ExprStmtPlaced(code, p, s);
      if off < ExprLen(e) {
        off', h' := ExprStep(code, p, e, off, base, h, st);
        PointInside(e, off', h');
      } else {
        off', h' := off + 1, 0;
      }
  }

  lemma {:induction false} SeqStep(code: seq<int>, p: int, s: Stmt, off: int, base: nat, h: nat, st: State)
    returns (off': int, h': int)
    requires s.Seq? && Placed(code, p, StmtCode(s)) && StmtHeightAt(s, off) == Some(h) && IsAt(st, p, off, base, h)
    ensures Step(code, st).Running? && IsAt(Step(code, st).st, p, off', base, h') && StmtPoint(s, off', h')
    decreases s, 0
  {
    var q := StmtLen(s.s);
    PlacedCat(code, p, StmtCode(s.s), StmtCode(s.t));
    if off < q {
      off', h' := StmtStep(code, p, s.s, off, base, h, st);
      StmtPointInside(s.s, off', h');
      StmtEntry(s.t);
    } else {
      off', h' := StmtStep(code, p + q, s.t, off - q, base, h, st);
      StmtPointInside(s.t, off', h');
      off' := q + off';
    }
  }

  lemma {:induction false} If1Step(code: seq<int>, p: int, s: Stmt, off: int, base: nat, h: nat, st: State)
    returns (off': int, h': int)
    requires s.If1? && Placed(code, p, StmtCode(s)) && StmtHeightAt(s, off) == Some(h) && IsAt(st, p, off, base, h)
    ensures Step(code, st).Running? && IsAt(Step(code, st).st, p, off', base, h') && StmtPoint(s, off', h')
    decreases s, 0
  {
    var q := ExprLen(s.c) + 2;
    If1Placed(code, p, s);
    if off < q {
      off', h' := TestStep(code, p, s.c, JZ, StmtLen(s.s) + 1, off, base, h, st);
      StmtEntry(s.s);
    } else {
      off', h' := StmtStep(code, p + q, s.s, off - q, base, h, st);
      StmtPointInside(s.s, off', h');
      off' := q + off';
    }
  }

  /** Points of the arms are points of the two-armed if. */
  lemma ThenPoint(s: Stmt, off: int, h: int)
    requires s.If2? && StmtPoint(s.s, off, h)
    ensures StmtPoint(s, ExprLen(s.c) + 2 + off, h)
  {
    StmtPointInside(s.s, off, h);
  }

  lemma ElsePoint(s: Stmt, off: int, h: int)
    requires s.If2? && StmtPoint(s.t, off, h)
    ensures StmtPoint(s, ExprLen(s.c) + 4 + StmtLen(s.s) + off, h)
  {
    StmtPointInside(s.t, off, h);
  }

  lemma JumpStep(code: seq<int>, st: State, v: int)
    requires Pair(code, st.pc, JMP, v)
    ensures Step(code, st) == Running(State(st.pc + 1 + v, st.stack, st.globals))
  {
  }

  lemma {:induction false} If2Step(code: seq<int>, p: int, s: Stmt, off: int, base: nat, h: nat, st: State)
    returns (off': int, h': int)
    requires s.If2? && Placed(code, p, StmtCode(s)) && StmtHeightAt(s, off) == Some(h) && IsAt(st, p, off, base, h)
    ensures Step(code, st).Running? && IsAt(Step(code, st).st, p, off', base, h') && StmtPoint(s, off', h')
    decreases s, 0
  {
    If2Placed(code, p, s);
    var q, b, t := ExprLen(s.c) + 2, StmtLen(s.s), StmtLen(s.t);
    if off < q {
      off', h' := If2TestStep(code, p, s, off, base, h, st);
    } else if off < q + b {
      off', h' := ThenStep(code, p, s, off - q, base, h, st);
    } else if off == q + b {
      JumpStep(code, st, t + 1);
      off', h' := off + t + 2, 0;
    } else {
      off', h' := ElseStep(code, p, s, off - q - b - 2, base, h, st);
    }
  }

  lemma {:induction false} ThenStep(code: seq<int>, p: int, s: Stmt, off: int, base: nat, h: nat, st: State)
    returns (off': int, h': int)
    requires s.If2? && Placed(code, p + ExprLen(s.c) + 2, StmtCode(s.s)) && StmtHeightAt(s.s, off) == Some(h)
    requires IsAt(st, p + ExprLen(s.c) + 2, off, base, h)
    ensures Step(code, st).Running? && IsAt(Step(code, st).st, p, off', base, h') && StmtPoint(s, off', h')
    decreases s.s, 2
  {
    var q := ExprLen(s.c) + 2;
    off', h' := StmtStep(code, p + q, s.s, off, base, h, st);
    ThenPoint(s, off', h');
    off' := q + off';
  }

  lemma {:induction false} ElseStep(code: seq<int>, p: int, s: Stmt, off: int, base: nat, h: nat, st: State)
    returns (off': int, h': int)
    requires s.If2? && Placed(code, p + ExprLen(s.c) + StmtLen(s.s) + 4, StmtCode(s.t))
    requires StmtHeightAt(s.t, off) == Some(h)
    requires IsAt(st, p + ExprLen(s.c) + StmtLen(s.s) + 4, off, base, h)
    ensures Step(code, st).Running? && IsAt(Step(code, st).st, p, off', base, h') && StmtPoint(s, off', h')
    decreases s.t, 2
  {
    var q := ExprLen(s.c) + StmtLen(s.s) + 4;
    off', h' := StmtStep(code, p + q, s.t, off, base, h, st);
    ElsePoint(s, off', h');
    off' := q + off';
  }

  lemma {:induction false} If2TestStep(code: seq<int>, p: int, s: Stmt, off: int, base: nat, h: nat, st: State)
    returns (off': int, h': int)
    requires s.If2? && TestPlaced(code, p, s.c, JZ, StmtLen(s.s) + 3)
    requires off < ExprLen(s.c) + 2 && TestHeightAt(s.c, off) == Some(h) && IsAt(st, p, off, base, h)
    ensures Step(code, st).Running? && IsAt(Step(code, st).st, p, off', base, h') && StmtPoint(s, off', h')
  {
    off', h' := TestStep(code, p, s.c, JZ, StmtLen(s.s) + 3, off, base, h, st);
    if off == ExprLen(s.c) {
      StmtEntry(s.s);
      ThenPoint(s, 0, 0);
      StmtEntry(s.t);
      ElsePoint(s, 0, 0);
    }
  }

  lemma {:induction false} WhileStep(code: seq<int>, p: int, s: Stmt, off: int, base: nat, h: nat, st: State)
    returns (off': int, h': int)
    requires s.While? && Placed(code, p, StmtCode(s)) && StmtHeightAt(s, off) == Some(h) && IsAt(st, p, off, base, h)
    ensures Step(code, st).Running? && IsAt(Step(code, st).st, p, off', base, h') && StmtPoint(s, off', h')
    decreases s, 0
  {
    WhilePlaced(code, p, s);
    var c, b := ExprLen(s.c), StmtLen(s.s);
    var q := c + 2;
    if off < q {
      off', h' := TestStep(code, p, s.c, JZ, b + 3, off, base, h, st);
      StmtEntry(s.s);
    } else if off < q + b {
      off', h' := StmtStep(code, p + q, s.s, off - q, base, h, st);
      StmtPointInside(s.s, off', h');
      off' := q + off';
    } else {
      off', h' := 0, 0;
      StmtEntry(s);
    }
  }

  lemma {:induction false} DoStep(code: seq<int>, p: int, s: Stmt, off: int, base: nat, h: nat, st: State)
    returns (off': int, h': int)
    requires s.Do? && Placed(code, p, StmtCode(s)) && StmtHeightAt(s, off) == Some(h) && IsAt(st, p, off, base, h)
    ensures Step(code, st).Running? && IsAt(Step(code, st).st, p, off', base, h') && StmtPoint(s, off', h')
    decreases s, 0
  {
    DoPlaced(code, p, s);
    var b, c := StmtLen(s.s), ExprLen(s.c);
    ExprEntry(s.c);
    StmtEntry(s);
    if off < b {
      off', h' := StmtStep(code, p, s.s, off, base, h, st);
      StmtPointInside(s.s, off', h');
    } else {
      off', h' := TestStep(code, p + b, s.c, JNZ, -(b + c + 1), off - b, base, h, st);
      off' := b + off';
    }
  }

  // ---- Every reachable state.

  /** The height at each instruction of a whole program. */
  function HeightAt(s: Stmt, pc: int): Option<nat> {
    if pc == StmtLen(s) then Some(0) else StmtHeightAt(s, pc)
  }

  /** In every state a compiled program reaches, from any variables, the program counter is at
      an instruction, the stack height is the one given for that instruction, and it is at most
      the nesting depth of the program's expressions. */
  lemma {:induction false} StackHeightIsStatic(s: Stmt, g: Globals, n: nat, st: State)
    requires After(ProgramCode(s), Initial(g), n) == Running(st)
    ensures 0 <= st.pc < |ProgramCode(s)| && HeightAt(s, st.pc) == Some(Height(st.stack))
    ensures Height(st.stack) <= StmtDepth(s)
  {
    StmtEntry(s);
    PointsKept(s, Initial(g), n, st);
    if st.pc != StmtLen(s) { StmtHeightBound(s, st.pc); }
  }

  lemma {:induction false} PointsKept(s: Stmt, st0: State, n: nat, st: State)
    requires After(ProgramCode(s), st0, n) == Running(st)
    requires HeightAt(s, st0.pc) == Some(Height(st0.stack))
    ensures HeightAt(s, st.pc) == Some(Height(st.stack))
    decreases n
  {
    if n > 0 {
      PointKept(s, st0);
      PointsKept(s, Step(ProgramCode(s), st0).st, n - 1, st);
    }
  }

  lemma {:induction false} PointKept(s: Stmt, st: State)
    requires HeightAt(s, st.pc) == Some(Height(st.stack)) && Step(ProgramCode(s), st).Running?
    ensures var st' := Step(ProgramCode(s), st).st; HeightAt(s, st'.pc) == Some(Height(st'.stack))
  {
    var code := ProgramCode(s);
    ProgramPlaced(s);
    if st.pc != StmtLen(s) {
      var off, h := StmtStep(code, 0, s, st.pc, 0, Height(st.stack), st);
    }
  }

  // ---- Every jump, whether it is ever reached or not.

  predicate IsJump(op: int) {
    op == JZ || op == JNZ || op == JMP
  }

  function Tower(h: nat, v: int): (s: Stack)
    ensures Height(s) == h && (h > 0 ==> s.top == v)
  {
    if h == 0 then Bottom else Push(v, Tower(h - 1, v))
  }

  /** The operand of every jump in a program is filled with the distance to an instruction of the
      program, and the jump arrives there with the height given for that instruction. */
  lemma JumpsInside(s: Stmt, pc: int)
    requires HeightAt(s, pc).Some? && 0 <= pc < |ProgramCode(s)| && IsJump(ProgramCode(s)[pc])
    ensures pc + 1 < |ProgramCode(s)|
    ensures var target := pc + 1 + ProgramCode(s)[pc + 1];
      0 <= target < |ProgramCode(s)| &&
        HeightAt(s, target) == Some(HeightAt(s, pc).value - if ProgramCode(s)[pc] == JMP then 0 else 1)
  {
    var code, h := ProgramCode(s), HeightAt(s, pc).value;
    ProgramPlaced(s);
    var st := State(pc, Tower(h, if code[pc] == JZ then 0 else 1), seq(26, i => 0));
    var off, h' := StmtStep(code, 0, s, pc, 0, h, st);
    JumpTaken(code, st);
    StmtPointInside(s, off, h');
  }

  /** The jump is taken when the value on top asks for it. */
  lemma JumpTaken(code: seq<int>, st: State)
    requires 0 <= st.pc < |code| && IsJump(code[st.pc]) && Step(code, st).Running?
    requires code[st.pc] != JMP && st.stack.Push? ==> st.stack.top == if code[st.pc] == JZ then 0 else 1
    ensures st.pc + 1 < |code| && Step(code, st).st.pc == st.pc + 1 + code[st.pc + 1]
    ensures Height(Step(code, st).st.stack) == Height(st.stack) - if code[st.pc] == JMP then 0 else 1
  {
  }

  // ---- The depth is less than the length of the code.

  lemma {:induction false} ExprDepthInLength(e: Expr)
    ensures ExprDepth(e) < ExprLen(e)
  {
    match e
    case Var(_) =>
    case Cst(_) =>
    case Set(_, e') => ExprDepthInLength(e');
    case _ => ExprDepthInLength(e.a); ExprDepthInLength(e.b);
  }

  lemma {:induction false} StmtDepthInLength(s: Stmt)
    ensures StmtDepth(s) <= StmtLen(s)
  {
    match s
    case If1(c, b) => ExprDepthInLength(c); StmtDepthInLength(b);
    case If2(c, b, t) => ExprDepthInLength(c); StmtDepthInLength(b); StmtDepthInLength(t);
    case While(c, b) => ExprDepthInLength(c); StmtDepthInLength(b);
    case Do(b, c) => ExprDepthInLength(c); StmtDepthInLength(b);
    case Empty =>
    case Seq(b, t) => StmtDepthInLength(b); StmtDepthInLength(t);
    case ExprStmt(e) => ExprDepthInLength(e);
  }
}
