/** The one-pass code generator of tinyc.c (lines 317-431).

    ExprCode and StmtCode are the code as mathematical integers. Jumps are relative, so code
    does not depend on where it is placed. The class CodeGen emits into the fixed buffer of
    signed chars, leaving holes for forward jumps and filling them in afterwards. */
module TinyCCode {
  import opened TinyCSyntax

  const IFETCH := 0
  const ISTORE := 1
  const IPUSH := 2
  const IPOP := 3
  const IADD := 4
  const ISUB := 5
  const ILT := 6
  const JZ := 7
  const JNZ := 8
  const JMP := 9
  const HALT := 10

  /** Number of cells of a node's code. */
  function ExprLen(e: Expr): nat {
    match e
    case Var(_) => 2
    case Cst(_) => 2
    case Set(_, e') => ExprLen(e') + 2
    case Add(a, b) => ExprLen(a) + ExprLen(b) + 1
    case Sub(a, b) => ExprLen(a) + ExprLen(b) + 1
    case Lt(a, b) => ExprLen(a) + ExprLen(b) + 1
  }

  function StmtLen(s: Stmt): nat {
    match s
    case If1(c, b) => ExprLen(c) + StmtLen(b) + 2
    case If2(c, b, t) => ExprLen(c) + StmtLen(b) + StmtLen(t) + 4
    case While(c, b) => ExprLen(c) + StmtLen(b) + 4
    case Do(b, c) => StmtLen(b) + ExprLen(c) + 2
    case Empty => 0
    case Seq(b, t) => StmtLen(b) + StmtLen(t)
    case ExprStmt(e) => ExprLen(e) + 1
  }

  function ExprCode(e: Expr): (code: seq<int>)
    ensures |code| == ExprLen(e)
  {
    match e
    case Var(x) => [IFETCH, x]
    case Cst(n) => [IPUSH, n]
    case Add(a, b) => ExprCode(a) + ExprCode(b) + [IADD]
    case Sub(a, b) => ExprCode(a) + ExprCode(b) + [ISUB]
    case Lt(a, b) => ExprCode(a) + ExprCode(b) + [ILT]
    case Set(x, e') => ExprCode(e') + [ISTORE, x]
  }

  function StmtCode(s: Stmt): (code: seq<int>)
    ensures |code| == StmtLen(s)
  {
    match s
    case If1(c, b) => ExprCode(c) + [JZ, StmtLen(b) + 1] + StmtCode(b)
    case If2(c, b, t) =>
      ExprCode(c) + [JZ, StmtLen(b) + 3] + StmtCode(b) + [JMP, StmtLen(t) + 1] + StmtCode(t)
    case While(c, b) =>
      ExprCode(c) + [JZ, StmtLen(b) + 3] + StmtCode(b) + [JMP, -(ExprLen(c) + StmtLen(b) + 3)]
    case Do(b, c) => StmtCode(b) + ExprCode(c) + [JNZ, -(StmtLen(b) + ExprLen(c) + 1)]
    case Empty => []
    case Seq(b, t) => StmtCode(b) + StmtCode(t)
    case ExprStmt(e) => ExprCode(e) + [IPOP]
  }

  function ProgramCode(s: Stmt): seq<int> {
    StmtCode(s) + [HALT]
  }

  /** Conversion to a signed 8-bit char: the value in range that differs by a multiple of 256. */
  function Char(v: int): (c: int)
    ensures -128 <= c < 128
    ensures c == v <==> -128 <= v < 128
    decreases if -128 <= v < 128 then 0 else if v < 0 then -v else v
  {
    if v < -128 then Char(v + 256) else if v >= 128 then Char(v - 256) else v
  }

  lemma {:induction false} CharWraps(v: int)
    ensures (Char(v) - v) % 256 == 0
    decreases if -128 <= v < 128 then 0 else if v < 0 then -v else v
  {
    if v < -128 {
      CharWraps(v + 256);
    } else if v >= 128 {
      CharWraps(v - 256);
    }
  }

  function Chars(code: seq<int>): (r: seq<int>)
    ensures |r| == |code| && forall i :: 0 <= i < |code| ==> r[i] == Char(code[i])
  {
    seq(|code|, i requires 0 <= i < |code| => Char(code[i]))
  }

  /** Every constant and every jump offset fits a char. */
  predicate Encodable(code: seq<int>) {
    forall i :: 0 <= i < |code| ==> -128 <= code[i] < 128
  }

  /** Storing code in the char buffer loses nothing exactly when it is encodable. */
  lemma CharsExact(code: seq<int>)
    ensures Chars(code) == code <==> Encodable(code)
  {
    if Encodable(code) { assert Chars(code) == code; }
    if Chars(code) == code {
      forall i | 0 <= i < |code| ensures -128 <= code[i] < 128 { assert Chars(code)[i] == Char(code[i]); }
    }
  }

  // ---- Layout: where the parts of a node's code lie.

  /** The cells c lie at position p of the whole code. */
  predicate Placed(code: seq<int>, p: int, c: seq<int>) {
    0 <= p && p + |c| <= |code| && forall i :: 0 <= i < |c| ==> code[p + i] == c[i]
  }

  /** An instruction and its operand at position p. */
  predicate Pair(code: seq<int>, p: int, op: int, v: int) {
    0 <= p && p + 1 < |code| && code[p] == op && code[p + 1] == v
  }

  predicate Single(code: seq<int>, p: int, op: int) {
    0 <= p < |code| && code[p] == op
  }

  lemma PlacedCat(code: seq<int>, p: int, a: seq<int>, b: seq<int>)
    requires Placed(code, p, a + b)
    ensures Placed(code, p, a) && Placed(code, p + |a|, b)
  {
    forall i | 0 <= i < |a| ensures code[p + i] == a[i] { assert (a + b)[i] == a[i]; }
    forall i | 0 <= i < |b| ensures code[p + |a| + i] == b[i] { assert (a + b)[|a| + i] == b[i]; }
  }

  lemma PlacedSingle(code: seq<int>, p: int, op: int)
    requires Placed(code, p, [op])
    ensures Single(code, p, op)
  {
    assert code[p + 0] == [op][0];
  }

  lemma PlacedPair(code: seq<int>, p: int, op: int, v: int)
    requires Placed(code, p, [op, v])
    ensures Pair(code, p, op, v)
  {
    assert code[p + 0] == [op, v][0] && code[p + 1] == [op, v][1];
  }

  lemma SetPlaced(code: seq<int>, p: int, e: Expr)
    requires e.Set? && Placed(code, p, ExprCode(e))
    ensures Placed(code, p, ExprCode(e.e)) && Pair(code, p + ExprLen(e.e), ISTORE, e.x)
  {
    PlacedCat(code, p, ExprCode(e.e), [ISTORE, e.x]);
    PlacedPair(code, p + ExprLen(e.e), ISTORE, e.x);
  }

  /** The opcode of ADD, SUB and LT nodes. */
  function Opcode(e: Expr): int
    requires e.Add? || e.Sub? || e.Lt?
  {
    if e.Add? then IADD else if e.Sub? then ISUB else ILT
  }

  lemma BinaryPlaced(code: seq<int>, p: int, e: Expr)
    requires (e.Add? || e.Sub? || e.Lt?) && Placed(code, p, ExprCode(e))
    ensures Placed(code, p, ExprCode(e.a)) && Placed(code, p + ExprLen(e.a), ExprCode(e.b))
    ensures Single(code, p + ExprLen(e.a) + ExprLen(e.b), Opcode(e))
    ensures ExprLen(e) == ExprLen(e.a) + ExprLen(e.b) + 1
  {
    PlacedCat(code, p, ExprCode(e.a) + ExprCode(e.b), [Opcode(e)]);
    PlacedCat(code, p, ExprCode(e.a), ExprCode(e.b));
    PlacedSingle(code, p + ExprLen(e.a) + ExprLen(e.b), Opcode(e));
  }

  /** A condition at p with a conditional jump behind it. */
  predicate TestPlaced(code: seq<int>, p: int, c: Expr, jump: int, v: int) {
    Placed(code, p, ExprCode(c)) && Pair(code, p + ExprLen(c), jump, v)
  }

  lemma PlacedTest(code: seq<int>, p: int, c: Expr, jump: int, v: int)
    requires Placed(code, p, ExprCode(c) + [jump, v])
    ensures TestPlaced(code, p, c, jump, v)
  {
    PlacedCat(code, p, ExprCode(c), [jump, v]);
    PlacedPair(code, p + ExprLen(c), jump, v);
  }

  lemma If1Placed(code: seq<int>, p: int, s: Stmt)
    requires s.If1? && Placed(code, p, StmtCode(s))
    ensures TestPlaced(code, p, s.c, JZ, StmtLen(s.s) + 1)
    ensures Placed(code, p + ExprLen(s.c) + 2, StmtCode(s.s))
  {
    var test := ExprCode(s.c) + [JZ, StmtLen(s.s) + 1];
    assert StmtCode(s) == test + StmtCode(s.s);
    PlacedCat(code, p, test, StmtCode(s.s));
    PlacedTest(code, p, s.c, JZ, StmtLen(s.s) + 1);
  }

  lemma If2Placed(code: seq<int>, p: int, s: Stmt)
    requires s.If2? && Placed(code, p, StmtCode(s))
    ensures TestPlaced(code, p, s.c, JZ, StmtLen(s.s) + 3)
    ensures Placed(code, p + ExprLen(s.c) + 2, StmtCode(s.s))
    ensures Pair(code, p + ExprLen(s.c) + 2 + StmtLen(s.s), JMP, StmtLen(s.t) + 1)
    ensures Placed(code, p + ExprLen(s.c) + StmtLen(s.s) + 4, StmtCode(s.t))
  {
    var test, b := ExprCode(s.c) + [JZ, StmtLen(s.s) + 3], StmtCode(s.s);
    PlacedCat(code, p, test + b + [JMP, StmtLen(s.t) + 1], StmtCode(s.t));
    PlacedCat(code, p, test + b, [JMP, StmtLen(s.t) + 1]);
    PlacedCat(code, p, test, b);
    PlacedTest(code, p, s.c, JZ, StmtLen(s.s) + 3);
    PlacedPair(code, p + ExprLen(s.c) + 2 + StmtLen(s.s), JMP, StmtLen(s.t) + 1);
  }

  lemma WhilePlaced(code: seq<int>, p: int, s: Stmt)
    requires s.While? && Placed(code, p, StmtCode(s))
    ensures TestPlaced(code, p, s.c, JZ, StmtLen(s.s) + 3)
    ensures Placed(code, p + ExprLen(s.c) + 2, StmtCode(s.s))
    ensures Pair(code, p + ExprLen(s.c) + 2 + StmtLen(s.s), JMP, -(ExprLen(s.c) + StmtLen(s.s) + 3))
  {
    var test, b := ExprCode(s.c) + [JZ, StmtLen(s.s) + 3], StmtCode(s.s);
    var back := -(ExprLen(s.c) + StmtLen(s.s) + 3);
    PlacedCat(code, p, test + b, [JMP, back]);
    PlacedCat(code, p, test, b);
    PlacedTest(code, p, s.c, JZ, StmtLen(s.s) + 3);
    PlacedPair(code, p + ExprLen(s.c) + 2 + StmtLen(s.s), JMP, back);
  }

  lemma DoPlaced(code: seq<int>, p: int, s: Stmt)
    requires s.Do? && Placed(code, p, StmtCode(s))
    ensures Placed(code, p, StmtCode(s.s))
    ensures TestPlaced(code, p + StmtLen(s.s), s.c, JNZ, -(StmtLen(s.s) + ExprLen(s.c) + 1))
  {
    var back := -(StmtLen(s.s) + ExprLen(s.c) + 1);
    assert StmtCode(s) == StmtCode(s.s) + (ExprCode(s.c) + [JNZ, back]);
    PlacedCat(code, p, StmtCode(s.s), ExprCode(s.c) + [JNZ, back]);
    PlacedTest(code, p + StmtLen(s.s), s.c, JNZ, back);
  }

  lemma ExprStmtPlaced(code: seq<int>, p: int, s: Stmt)
    requires s.ExprStmt? && Placed(code, p, StmtCode(s))
    ensures Placed(code, p, ExprCode(s.e)) && Single(code, p + ExprLen(s.e), IPOP)
  {
    PlacedCat(code, p, ExprCode(s.e), [IPOP]);
    PlacedSingle(code, p + ExprLen(s.e), IPOP);
  }

  lemma ProgramPlaced(s: Stmt)
    ensures Placed(ProgramCode(s), 0, StmtCode(s)) && Single(ProgramCode(s), StmtLen(s), HALT)
  {
    PlacedCat(ProgramCode(s), 0, StmtCode(s), [HALT]);
    PlacedSingle(ProgramCode(s), StmtLen(s), HALT);
  }

  // ---- The generator.

  class CodeGen {
    const cells: array<int>
    var here: nat

    constructor ()
      ensures fresh(cells) && cells.Length == 1000 && here == 0
    {
      cells := new int[1000];
      here := 0;
    }

    method G(c: int)
      requires here < cells.Length
      modifies cells, `here
      ensures here == old(here) + 1 && here <= cells.Length && cells[old(here)] == Char(c)
      ensures forall i :: 0 <= i < old(here) ==> cells[i] == old(cells[i])
    {
      cells[here] := Char(c);
      here := here + 1;
    }

    /** Reserves a cell; it keeps whatever value was there until it is fixed. */
    method Hole() returns (p: nat)
      requires here < cells.Length
      modifies `here
      ensures p == old(here) && here == p + 1
    {
      p := here;
      here := here + 1;
    }

    method Fix(src: nat, dst: int)
      requires src < here <= cells.Length
      modifies cells
      ensures cells[src] == Char(dst - src)
      ensures forall i :: 0 <= i < cells.Length && i != src ==> cells[i] == old(cells[i])
    {
      cells[src] := Char(dst - src);
    }

    /** Two cells: an instruction and its operand. */
    method G2(c: int, operand: int, ghost code: seq<int>)
      requires here + 2 <= cells.Length && Pair(code, here, c, operand)
      modifies cells, `here
      ensures here == old(here) + 2 && here <= cells.Length
      ensures forall i :: 0 <= i < old(here) ==> cells[i] == old(cells[i])
      ensures forall i :: old(here) <= i < here ==> cells[i] == Char(code[i])
    {
      G(c);
      G(operand);
    }

    /** The generator on expression nodes, where the whole code has the expression's code. */
    method CExpr(x: Expr, ghost code: seq<int>)
      requires here + ExprLen(x) <= cells.Length && Placed(code, here, ExprCode(x))
      modifies cells, `here
      ensures here == old(here) + ExprLen(x) && here <= cells.Length
      ensures forall i :: 0 <= i < old(here) ==> cells[i] == old(cells[i])
      ensures forall i :: old(here) <= i < here ==> cells[i] == Char(code[i])
      decreases x, 1
    {
      match x
      case Var(v) =>
        PlacedPair(code, here, IFETCH, v);
        G2(IFETCH, v, code);
      case Cst(n) =>
        PlacedPair(code, here, IPUSH, n);
        G2(IPUSH, n, code);
      case Add(a, b) => CBinary(x, IADD, code);
      case Sub(a, b) => CBinary(x, ISUB, code);
      case Lt(a, b) => CBinary(x, ILT, code);
      case Set(v, e) =>
        SetPlaced(code, here, x);
        CExpr(e, code);
        G2(ISTORE, v, code);
    }

    /** The common shape of ADD, SUB and LT. */
    method CBinary(x: Expr, op: int, ghost code: seq<int>)
      requires (x.Add? && op == IADD) || (x.Sub? && op == ISUB) || (x.Lt? && op == ILT)
      requires here + ExprLen(x) <= cells.Length && Placed(code, here, ExprCode(x))
      modifies cells, `here
      ensures here == old(here) + ExprLen(x) && here <= cells.Length
      ensures forall i :: 0 <= i < old(here) ==> cells[i] == old(cells[i])
      ensures forall i :: old(here) <= i < here ==> cells[i] == Char(code[i])
      decreases x, 0
    {
      BinaryPlaced(code, here, x);
      CExpr(x.a, code);
      CExpr(x.b, code);
      G(op);
    }

    /** The generator on statement nodes, where the whole code has the statement's code: all
        its cells are written and every hole is filled. */
    method CStmt(x: Stmt, ghost code: seq<int>)
      requires here + StmtLen(x) <= cells.Length && Placed(code, here, StmtCode(x))
      modifies cells, `here
      ensures here == old(here) + StmtLen(x) && here <= cells.Length
      ensures forall i :: 0 <= i < old(here) ==> cells[i] == old(cells[i])
      ensures forall i :: old(here) <= i < here ==> cells[i] == Char(code[i])
      decreases x, 1
    {
      match x
      case If1(c, s) => CIf1(x, code);
      case If2(c, s, t) => CIf2(x, code);
      case While(c, s) => CWhile(x, code);
      case Do(s, c) => CDo(x, code);
      case Empty =>
      case Seq(s, t) =>
        PlacedCat(code, here, StmtCode(s), StmtCode(t));
        CStmt(s, code);
        CStmt(t, code);
      case ExprStmt(e) =>
        ExprStmtPlaced(code, here, x);
        CExpr(e, code);
        G(IPOP);
    }

    /** What the three statements with a leading condition have in common: the condition, a
        conditional jump over the body whose operand is left open, and the body. */
    method CGuarded(c: Expr, s: Stmt, ghost code: seq<int>) returns (p: nat)
      requires here + ExprLen(c) + StmtLen(s) + 2 <= cells.Length
      requires Placed(code, here, ExprCode(c)) && Single(code, here + ExprLen(c), JZ)
      requires Placed(code, here + ExprLen(c) + 2, StmtCode(s))
      modifies cells, `here
      ensures p == old(here) + ExprLen(c) + 1 && here == p + 1 + StmtLen(s) && here <= cells.Length
      ensures forall i :: 0 <= i < old(here) ==> cells[i] == old(cells[i])
      ensures forall i :: old(here) <= i < here && i != p ==> cells[i] == Char(code[i])
      decreases s, 2
    {
      CExpr(c, code);
      G(JZ);
      p := Hole();
      CStmt(s, code);
    }

    method CIf1(x: Stmt, ghost code: seq<int>)
      requires x.If1? && here + StmtLen(x) <= cells.Length && Placed(code, here, StmtCode(x))
      modifies cells, `here
      ensures here == old(here) + StmtLen(x) && here <= cells.Length
      ensures forall i :: 0 <= i < old(here) ==> cells[i] == old(cells[i])
      ensures forall i :: old(here) <= i < here ==> cells[i] == Char(code[i])
      decreases x, 0
    {
      If1Placed(code, here, x);
      var p1 := CGuarded(x.c, x.s, code);
      Fix(p1, here);
    }

    method CIf2(x: Stmt, ghost code: seq<int>)
      requires x.If2? && here + StmtLen(x) <= cells.Length && Placed(code, here, StmtCode(x))
      modifies cells, `here
      ensures here == old(here) + StmtLen(x) && here <= cells.Length
      ensures forall i :: 0 <= i < old(here) ==> cells[i] == old(cells[i])
      ensures forall i :: old(here) <= i < here ==> cells[i] == Char(code[i])
      decreases x, 0
    {
      If2Placed(code, here, x);
      var p1 := CGuarded(x.c, x.s, code);
      G(JMP);
      var p2 := Hole();
      Fix(p1, here);
      CElse(p2, x.t, code);
    }

    /** The part of a two-armed if after its jump; p2 is the hole of the jump. */
    method CElse(p2: nat, t: Stmt, ghost code: seq<int>)
      requires p2 + 1 == here && here + StmtLen(t) <= cells.Length && Placed(code, here, StmtCode(t))
      requires p2 < |code| && code[p2] == StmtLen(t) + 1
      modifies cells, `here
      ensures here == old(here) + StmtLen(t) && here <= cells.Length
      ensures forall i :: 0 <= i < p2 ==> cells[i] == old(cells[i])
      ensures forall i :: p2 <= i < here ==> cells[i] == Char(code[i])
      decreases t, 2
    {
      CStmt(t, code);
      Fix(p2, here);
    }

    method CWhile(x: Stmt, ghost code: seq<int>)
      requires x.While? && here + StmtLen(x) <= cells.Length && Placed(code, here, StmtCode(x))
      modifies cells, `here
      ensures here == old(here) + StmtLen(x) && here <= cells.Length
      ensures forall i :: 0 <= i < old(here) ==> cells[i] == old(cells[i])
      ensures forall i :: old(here) <= i < here ==> cells[i] == Char(code[i])
      decreases x, 0
    {
      WhilePlaced(code, here, x);
      var p1 := here;
      var p2 := CGuarded(x.c, x.s, code);
      G(JMP);
      var p3 := Hole();
      Fix(p3, p1);
      Fix(p2, here);
    }

    method CDo(x: Stmt, ghost code: seq<int>)
      requires x.Do? && here + StmtLen(x) <= cells.Length && Placed(code, here, StmtCode(x))
      modifies cells, `here
      ensures here == old(here) + StmtLen(x) && here <= cells.Length
      ensures forall i :: 0 <= i < old(here) ==> cells[i] == old(cells[i])
      ensures forall i :: old(here) <= i < here ==> cells[i] == Char(code[i])
      decreases x, 0
    {
      DoPlaced(code, here, x);
      var p1 := here;
      CStmt(x.s, code);
      CExpr(x.c, code);
      G(JNZ);
      var p2 := Hole();
      Fix(p2, p1);
    }

    /** The whole program, from an empty buffer. */
    method CProgram(x: Stmt)
      requires here == 0 && |ProgramCode(x)| <= cells.Length
      modifies cells, `here
      ensures here == |ProgramCode(x)| <= cells.Length && cells[..here] == Chars(ProgramCode(x))
    {
      ProgramPlaced(x);
      CStmt(x, ProgramCode(x));
      G(HALT);
    }
  }
}
