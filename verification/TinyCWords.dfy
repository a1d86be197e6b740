/** What the parser of tinyc.c reads is what its tree says: apart from parentheses, braces and
    semicolons, the tokens of the input are those of the tree, read from left to right. */
module TinyCWords {
  import opened Prelude
  import opened TinyCSyntax
  import opened TinyCGrammar
  import opened TinyCParser
  import opened TinyCParserCorrect

  /** The tokens other than punctuation. */
  function Words(ts: seq<Token>): seq<Token> {
    if ts == [] then []
    else (if ts[0] in {LPar, RPar, LBra, RBra, Semi} then [] else [ts[0]]) + Words(ts[1..])
  }

  lemma {:induction false} WordsConcat(s: seq<Token>, t: seq<Token>)
    ensures Words(s + t) == Words(s) + Words(t)
  {
    if s == [] {
      assert s + t == t;
    } else {
      assert (s + t)[1..] == s[1..] + t;
      WordsConcat(s[1..], t);
    }
  }

  function ExprWords(e: Expr): seq<Token> {
    match e
    case Var(x) => [Id(x)]
    case Cst(n) => [Int(n)]
    case Add(a, b) => ExprWords(a) + [Plus] + ExprWords(b)
    case Sub(a, b) => ExprWords(a) + [Minus] + ExprWords(b)
    case Lt(a, b) => ExprWords(a) + [Less] + ExprWords(b)
    case Set(x, e') => [Id(x), Equal] + ExprWords(e')
  }

  function StmtWords(s: Stmt): seq<Token> {
    match s
    case If1(c, b) => [IfSym] + ExprWords(c) + StmtWords(b)
    case If2(c, b, t) => [IfSym] + ExprWords(c) + StmtWords(b) + [ElseSym] + StmtWords(t)
    case While(c, b) => [WhileSym] + ExprWords(c) + StmtWords(b)
    case Do(b, c) => [DoSym] + StmtWords(b) + [WhileSym] + ExprWords(c)
    case Empty => []
    case Seq(b, t) => StmtWords(b) + StmtWords(t)
    case ExprStmt(e) => ExprWords(e)
  }

  /** Around one operator. */
  lemma Between(a: seq<Token>, x: Token, b: seq<Token>)
    ensures Words(a + [x] + b) == Words(a) + Words([x]) + Words(b)
  {
    WordsConcat(a + [x], b);
    WordsConcat(a, [x]);
  }

  lemma {:induction false} TermWords(d: TermD)
    ensures Words(YieldTerm(d)) == ExprWords(AstTerm(d))
  {
    if d.TermParen? { ParenWords(d.e); }
  }

  lemma {:induction false} ParenWords(d: ExprD)
    ensures Words(YieldParen(d)) == ExprWords(AstExpr(d))
    decreases d, 1
  {
    WordsConcat([LPar] + YieldExpr(d), [RPar]);
    WordsConcat([LPar], YieldExpr(d));
    ExprDWords(d);
  }

  lemma {:induction false} SumWords(d: SumD)
    ensures Words(YieldSum(d)) == ExprWords(AstSum(d))
  {
    match d
    case SumTerm(t) => TermWords(t);
    case SumPlus(s, t) =>
      Between(YieldSum(s), Plus, YieldTerm(t));
      SumWords(s);
      TermWords(t);
    case SumMinus(s, t) =>
      Between(YieldSum(s), Minus, YieldTerm(t));
      SumWords(s);
      TermWords(t);
  }

  lemma {:induction false} TestWords(d: TestD)
    ensures Words(YieldTest(d)) == ExprWords(AstTest(d))
  {
    match d
    case TestSum(s) => SumWords(s);
    case TestLess(s, s') =>
      Between(YieldSum(s), Less, YieldSum(s'));
      SumWords(s);
      SumWords(s');
  }

  lemma {:induction false} ExprDWords(d: ExprD)
    ensures Words(YieldExpr(d)) == ExprWords(AstExpr(d))
    decreases d, 0
  {
    match d
    case ExprTest(t) => TestWords(t);
    case ExprAssign(x, e) =>
      WordsConcat([Id(x), Equal], YieldExpr(e));
      ExprDWords(e);
      assert [Id(x), Equal][1..] == [Equal];
  }

  /** A keyword, a condition and what follows. */
  lemma Headed(x: Token, c: ExprD, rest: seq<Token>)
    ensures Words([x] + YieldParen(c) + rest) == Words([x]) + ExprWords(AstExpr(c)) + Words(rest)
  {
    WordsConcat([x] + YieldParen(c), rest);
    WordsConcat([x], YieldParen(c));
    ParenWords(c);
  }

  lemma IfElseWords(c: ExprD, s: StmtD, t: StmtD)
    requires Words(YieldStmt(s)) == StmtWords(AstStmt(s)) && Words(YieldStmt(t)) == StmtWords(AstStmt(t))
    ensures Words(YieldStmt(IfElseD(c, s, t))) == StmtWords(AstStmt(IfElseD(c, s, t)))
  {
    var before := [IfSym] + YieldParen(c) + YieldStmt(s);
    Headed(IfSym, c, YieldStmt(s));
    assert Words([IfSym]) == [IfSym] && Words([ElseSym]) == [ElseSym];
    var words := [IfSym] + ExprWords(AstExpr(c)) + StmtWords(AstStmt(s));
    assert Words(before) == words;
    Between(before, ElseSym, YieldStmt(t));
    assert YieldStmt(IfElseD(c, s, t)) == before + [ElseSym] + YieldStmt(t);
    assert StmtWords(AstStmt(IfElseD(c, s, t))) == words + [ElseSym] + StmtWords(AstStmt(t));
  }

  lemma DoWords(s: StmtD, c: ExprD)
    requires Words(YieldStmt(s)) == StmtWords(AstStmt(s))
    ensures Words(YieldStmt(DoD(s, c))) == StmtWords(AstStmt(DoD(s, c)))
  {
    var before := [DoSym] + YieldStmt(s);
    WordsConcat([DoSym], YieldStmt(s));
    assert Words(before) == [DoSym] + StmtWords(AstStmt(s));
    Between(before, WhileSym, YieldParen(c));
    ParenWords(c);
    WordsConcat(before + [WhileSym] + YieldParen(c), [Semi]);
  }

  lemma BlockWords(ss: StmtsD)
    requires Words(YieldStmts(ss)) == StmtWords(AstStmts(ss))
    ensures Words(YieldStmt(BlockD(ss))) == StmtWords(AstStmt(BlockD(ss)))
  {
    WordsConcat([LBra] + YieldStmts(ss), [RBra]);
    WordsConcat([LBra], YieldStmts(ss));
  }

  lemma {:induction false} StmtDWords(d: StmtD)
    ensures Words(YieldStmt(d)) == StmtWords(AstStmt(d))
  {
    match d
    case IfD(c, s) => StmtDWords(s); Headed(IfSym, c, YieldStmt(s));
    case IfElseD(c, s, t) => StmtDWords(s); StmtDWords(t); IfElseWords(c, s, t);
    case WhileD(c, s) => StmtDWords(s); Headed(WhileSym, c, YieldStmt(s));
    case DoD(s, c) => StmtDWords(s); DoWords(s, c);
    case BlockD(ss) => StmtsDWords(ss); BlockWords(ss);
    case SimpleD(e) => ExprDWords(e); WordsConcat(YieldExpr(e), [Semi]);
    case EmptyD =>
  }

  lemma {:induction false} StmtsDWords(ss: StmtsD)
    ensures Words(YieldStmts(ss)) == StmtWords(AstStmts(ss))
  {
    match ss
    case NoStmts =>
    case Snoc(init, last) =>
      WordsConcat(YieldStmts(init), YieldStmt(last));
      StmtsDWords(init);
      StmtDWords(last);
  }

  /** Every variable, constant, operator and keyword of the input is in the tree, in its place from
      left to right, and the tree has no other. */
  lemma {:induction false} ReadInOrder(ts: seq<Token>)
    ensures ParseProgram(ts).Some? ==> StmtWords(ParseProgram(ts).value) == Words(ts)
  {
    if ParseProgram(ts).Some? {
      var d := StmtSound(ts);
      assert YieldStmt(d) == ts;
      StmtDWords(d);
    }
  }
}
