/** The grammar of Tiny-C, as stated in the header of tinyc.c, by its derivation trees.

    One datatype per nonterminal, one constructor per production. Yield gives the derived
    token string, Ast the tree the derivation stands for. Nothing here mentions the parser. */
module TinyCGrammar {
  import opened TinyCSyntax

  datatype TermD = TermId(x: Letter) | TermInt(n: nat) | TermParen(e: ExprD)
  datatype SumD = SumTerm(t: TermD) | SumPlus(s: SumD, t: TermD) | SumMinus(s: SumD, t: TermD)
  datatype TestD = TestSum(s: SumD) | TestLess(s: SumD, s': SumD)
  datatype ExprD = ExprTest(t: TestD) | ExprAssign(x: Letter, e: ExprD)

  datatype StmtD =
    | IfD(c: ExprD, s: StmtD)
    | IfElseD(c: ExprD, s: StmtD, t: StmtD)
    | WhileD(c: ExprD, s: StmtD)
    | DoD(s: StmtD, c: ExprD)
    | BlockD(ss: StmtsD)
    | SimpleD(e: ExprD)
    | EmptyD

  /** The repetition in a block, last statement outermost. */
  datatype StmtsD = NoStmts | Snoc(init: StmtsD, last: StmtD)

  function YieldTerm(d: TermD): seq<Token> {
    match d
    case TermId(x) => [Id(x)]
    case TermInt(n) => [Int(n)]
    case TermParen(e) => [LPar] + YieldExpr(e) + [RPar]
  }

  function YieldSum(d: SumD): seq<Token> {
    match d
    case SumTerm(t) => YieldTerm(t)
    case SumPlus(s, t) => YieldSum(s) + [Plus] + YieldTerm(t)
    case SumMinus(s, t) => YieldSum(s) + [Minus] + YieldTerm(t)
  }

  function YieldTest(d: TestD): seq<Token> {
    match d
    case TestSum(s) => YieldSum(s)
    case TestLess(s, s') => YieldSum(s) + [Less] + YieldSum(s')
  }

  function YieldExpr(d: ExprD): seq<Token> {
    match d
    case ExprTest(t) => YieldTest(t)
    case ExprAssign(x, e) => [Id(x), Equal] + YieldExpr(e)
  }

  function YieldParen(e: ExprD): seq<Token> {
    [LPar] + YieldExpr(e) + [RPar]
  }

  function YieldStmt(d: StmtD): seq<Token> {
    match d
    case IfD(c, s) => [IfSym] + YieldParen(c) + YieldStmt(s)
    case IfElseD(c, s, t) => [IfSym] + YieldParen(c) + YieldStmt(s) + [ElseSym] + YieldStmt(t)
    case WhileD(c, s) => [WhileSym] + YieldParen(c) + YieldStmt(s)
    case DoD(s, c) => [DoSym] + YieldStmt(s) + [WhileSym] + YieldParen(c) + [Semi]
    case BlockD(ss) => [LBra] + YieldStmts(ss) + [RBra]
    case SimpleD(e) => YieldExpr(e) + [Semi]
    case EmptyD => [Semi]
  }

  function YieldStmts(ss: StmtsD): seq<Token> {
    match ss
    case NoStmts => []
    case Snoc(init, last) => YieldStmts(init) + YieldStmt(last)
  }

  function AstTerm(d: TermD): Expr {
    match d
    case TermId(x) => Var(x)
    case TermInt(n) => Cst(n)
    case TermParen(e) => AstExpr(e)
  }

  /** The left recursion of the sum rule makes + and - associate to the left. */
  function AstSum(d: SumD): Expr {
    match d
    case SumTerm(t) => AstTerm(t)
    case SumPlus(s, t) => Add(AstSum(s), AstTerm(t))
    case SumMinus(s, t) => Sub(AstSum(s), AstTerm(t))
  }

  function AstTest(d: TestD): Expr {
    match d
    case TestSum(s) => AstSum(s)
    case TestLess(s, s') => Lt(AstSum(s), AstSum(s'))
  }

  function AstExpr(d: ExprD): Expr {
    match d
    case ExprTest(t) => AstTest(t)
    case ExprAssign(x, e) => Set(x, AstExpr(e))
  }

  function AstStmt(d: StmtD): Stmt {
    match d
    case IfD(c, s) => If1(AstExpr(c), AstStmt(s))
    case IfElseD(c, s, t) => If2(AstExpr(c), AstStmt(s), AstStmt(t))
    case WhileD(c, s) => While(AstExpr(c), AstStmt(s))
    case DoD(s, c) => Do(AstStmt(s), AstExpr(c))
    case BlockD(ss) => AstStmts(ss)
    case SimpleD(e) => ExprStmt(AstExpr(e))
    case EmptyD => Empty
  }

  function AstStmts(ss: StmtsD): Stmt {
    match ss
    case NoStmts => Empty
    case Snoc(init, last) => Seq(AstStmts(init), AstStmt(last))
  }

  /** An "else" after this statement could still be read as part of it. */
  predicate Open(d: StmtD) {
    match d
    case IfD(_, _) => true
    case IfElseD(_, _, t) => Open(t)
    case WhileD(_, s) => Open(s)
    case _ => false
  }

  /** Every "else" belongs to the nearest "if" that can take it. */
  predicate NearestIf(d: StmtD) {
    match d
    case IfD(_, s) => NearestIf(s)
    case IfElseD(_, s, t) => NearestIf(s) && NearestIf(t) && !Open(s)
    case WhileD(_, s) => NearestIf(s)
    case DoD(s, _) => NearestIf(s)
    case BlockD(ss) => NearestIfs(ss)
    case _ => true
  }

  predicate NearestIfs(ss: StmtsD) {
    match ss
    case NoStmts => true
    case Snoc(init, last) => NearestIfs(init) && NearestIf(last)
  }

  /** The token string is derived by the grammar. */
  ghost predicate Derivable(ts: seq<Token>) {
    exists d: StmtD :: YieldStmt(d) == ts
  }

  /** Gives the last open "if" of d the else branch e. */
  function Attach(d: StmtD, e: StmtD): (r: StmtD)
    requires Open(d)
  {
    match d
    case IfD(c, s) => if Open(s) then IfD(c, Attach(s, e)) else IfElseD(c, s, e)
    case IfElseD(c, s, t) => IfElseD(c, s, Attach(t, e))
    case WhileD(c, s) => WhileD(c, Attach(s, e))
  }

  lemma Assoc(a: seq<Token>, b: seq<Token>, c: seq<Token>)
    ensures (a + b) + c == a + (b + c)
  {
  }

  lemma {:induction false} AttachNearest(d: StmtD, e: StmtD)
    requires Open(d) && NearestIf(d) && NearestIf(e)
    ensures NearestIf(Attach(d, e))
    ensures YieldStmt(Attach(d, e)) == YieldStmt(d) + ([ElseSym] + YieldStmt(e))
  {
    var tail := [ElseSym] + YieldStmt(e);
    match d
    case IfD(c, s) =>
      if Open(s) {
        AttachNearest(s, e);
        Assoc([IfSym] + YieldParen(c), YieldStmt(s), tail);
      } else {
        Assoc([IfSym] + YieldParen(c) + YieldStmt(s), [ElseSym], YieldStmt(e));
      }
    case IfElseD(c, s, t) =>
      AttachNearest(t, e);
      Assoc([IfSym] + YieldParen(c) + YieldStmt(s) + [ElseSym], YieldStmt(t), tail);
    case WhileD(c, s) =>
      AttachNearest(s, e);
      Assoc([WhileSym] + YieldParen(c), YieldStmt(s), tail);
  }

  /** Rebuilds a derivation of the same string in which every else goes to the nearest if. */
  function Nearest(d: StmtD): StmtD {
    match d
    case IfD(c, s) => IfD(c, Nearest(s))
    case IfElseD(c, s, t) =>
      var s', t' := Nearest(s), Nearest(t);
      if Open(s') then IfD(c, Attach(s', t')) else IfElseD(c, s', t')
    case WhileD(c, s) => WhileD(c, Nearest(s))
    case DoD(s, c) => DoD(Nearest(s), c)
    case BlockD(ss) => BlockD(NearestAll(ss))
    case _ => d
  }

  function NearestAll(ss: StmtsD): StmtsD {
    match ss
    case NoStmts => NoStmts
    case Snoc(init, last) => Snoc(NearestAll(init), Nearest(last))
  }

  /** The dangling else is the only ambiguity to resolve: every derivable string has a
      derivation that follows the nearest-if rule. */
  lemma {:induction false} NearestSameYield(d: StmtD)
    ensures NearestIf(Nearest(d)) && YieldStmt(Nearest(d)) == YieldStmt(d)
  {
    match d
    case IfD(c, s) => NearestSameYield(s);
    case IfElseD(c, s, t) =>
      NearestSameYield(s);
      NearestSameYield(t);
      if Open(Nearest(s)) { AttachNearest(Nearest(s), Nearest(t)); }
    case WhileD(c, s) => NearestSameYield(s);
    case DoD(s, c) => NearestSameYield(s);
    case BlockD(ss) => NearestAllSameYield(ss);
    case _ =>
  }

  lemma {:induction false} NearestAllSameYield(ss: StmtsD)
    ensures NearestIfs(NearestAll(ss)) && YieldStmts(NearestAll(ss)) == YieldStmts(ss)
  {
    match ss
    case NoStmts =>
    case Snoc(init, last) =>
      NearestAllSameYield(init);
      NearestSameYield(last);
  }
}
