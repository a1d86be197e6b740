/** The parser accepts exactly the grammar, resolves the dangling else to the nearest if,
    and inverts the grammar-directed printer. */
module TinyCParserCorrect {
  import opened Prelude
  import opened TinyCSyntax
  import opened TinyCGrammar
  import opened TinyCParser

  // ---- Completeness: a derived string is parsed to the tree of its derivation.

  /** What can follow an expression: every use in the grammar is closed by ")" or ";". */
  predicate EndsExpr(rest: seq<Token>) {
    At(rest, RPar) || At(rest, Semi)
  }

  predicate EndsSum(rest: seq<Token>) {
    !At(rest, Plus) && !At(rest, Minus)
  }

  lemma {:induction false} TermComplete(d: TermD, rest: seq<Token>)
    ensures ParseTerm(YieldTerm(d) + rest) == Ok(AstTerm(d), rest)
    decreases d
  {
    match d
    case TermId(x) =>
    case TermInt(n) =>
    case TermParen(e) =>
      ParenComplete(e, rest);
      assert YieldTerm(d) == YieldParen(e);
  }

  lemma {:induction false} ParenComplete(e: ExprD, rest: seq<Token>)
    ensures ParseParen(YieldParen(e) + rest) == Ok(AstExpr(e), rest)
    decreases e, 1
  {
    var ts := YieldParen(e) + rest;
    assert ts[1..] == YieldExpr(e) + ([RPar] + rest);
    ExprComplete(e, [RPar] + rest);
  }

  /** One turn of the loop in the sum routine. */
  lemma SumLoopTurn(x: Expr, tok: Token, ts: seq<Token>, y: Expr, rest: seq<Token>)
    requires (tok == Plus || tok == Minus) && ParseTerm(ts) == Ok(y, rest)
    ensures SumLoop(x, [tok] + ts) == SumLoop(if tok == Plus then Add(x, y) else Sub(x, y), rest)
  {
    assert ([tok] + ts)[1..] == ts;
  }

  lemma {:induction false} SumComplete(d: SumD, rest: seq<Token>)
    ensures ParseSum(YieldSum(d) + rest) == SumLoop(AstSum(d), rest)
    decreases d
  {
    if d.SumTerm? {
      TermComplete(d.t, rest);
    } else {
      var tok := if d.SumPlus? then Plus else Minus;
      Assoc(YieldSum(d.s), [tok], YieldTerm(d.t));
      Assoc(YieldSum(d.s), [tok] + YieldTerm(d.t), rest);
      Assoc([tok], YieldTerm(d.t), rest);
      SumComplete(d.s, [tok] + (YieldTerm(d.t) + rest));
      TermComplete(d.t, rest);
      SumLoopTurn(AstSum(d.s), tok, YieldTerm(d.t) + rest, AstTerm(d.t), rest);
    }
  }

  lemma {:induction false} TestComplete(d: TestD, rest: seq<Token>)
    requires EndsSum(rest) && !At(rest, Less)
    ensures ParseTest(YieldTest(d) + rest) == Ok(AstTest(d), rest)
    decreases d
  {
    match d
    case TestSum(s) => SumComplete(s, rest);
    case TestLess(s, s') =>
      var rest' := [Less] + YieldSum(s') + rest;
      assert YieldTest(d) + rest == YieldSum(s) + rest';
      SumComplete(s, rest');
      assert rest'[1..] == YieldSum(s') + rest;
      SumComplete(s', rest);
  }

  lemma ParseLoneId(x: Letter, rest: seq<Token>)
    requires At(rest, Equal)
    ensures ParseTest([Id(x)] + rest) == Ok(Var(x), rest)
  {
    assert ParseTerm([Id(x)] + rest) == Ok(Var(x), rest);
    assert ParseSum([Id(x)] + rest) == SumLoop(Var(x), rest);
  }

  lemma {:induction false} ExprComplete(d: ExprD, rest: seq<Token>)
    requires EndsExpr(rest)
    ensures ParseExpr(YieldExpr(d) + rest) == Ok(AstExpr(d), rest)
    decreases d, 0
  {
    match d
    case ExprTest(t) => TestComplete(t, rest);
    case ExprAssign(x, e) =>
      var rest' := [Equal] + YieldExpr(e) + rest;
      assert YieldExpr(d) + rest == [Id(x)] + rest';
      ParseLoneId(x, rest');
      assert rest'[1..] == YieldExpr(e) + rest;
      ExprComplete(e, rest);
  }

  /** A derived statement starts with a token that neither continues an if nor closes a block. */
  lemma {:induction false} StmtStart(d: StmtD)
    ensures YieldStmt(d) != [] && YieldStmt(d)[0] != ElseSym && YieldStmt(d)[0] != RBra
  {
    if d.SimpleD? { ExprStart(d.e); }
  }

  predicate StartsExpr(ts: seq<Token>) {
    ts != [] && (ts[0].Id? || ts[0].Int? || ts[0] == LPar)
  }

  lemma {:induction false} ExprStart(d: ExprD)
    ensures StartsExpr(YieldExpr(d))
  {
    if d.ExprTest? { SumStart(d.t.s); }
  }

  lemma {:induction false} SumStart(d: SumD)
    ensures StartsExpr(YieldSum(d))
  {
    if !d.SumTerm? { SumStart(d.s); }
  }

  /** Taking the first token off a concatenation. */
  lemma Cut(x: Token, a: seq<Token>, b: seq<Token>, rest: seq<Token>)
    ensures var ts := [x] + a + b + rest; ts[0] == x && ts[1..] == a + (b + rest)
  {
    assert ([x] + a + b + rest)[1..] == a + (b + rest);
  }

  lemma {:induction false} StmtComplete(d: StmtD, rest: seq<Token>)
    requires NearestIf(d) && !(Open(d) && At(rest, ElseSym))
    ensures ParseStmt(YieldStmt(d) + rest) == Ok(AstStmt(d), rest)
    decreases d, 1
  {
    match d
    case IfD(_, _) => IfComplete(d, rest);
    case IfElseD(_, _, _) => IfElseComplete(d, rest);
    case WhileD(_, _) => WhileComplete(d, rest);
    case DoD(_, _) => DoComplete(d, rest);
    case BlockD(ss) =>
      Cut(LBra, YieldStmts(ss), [RBra], rest);
      BlockComplete(ss, [RBra] + rest);
    case SimpleD(e) => SimpleComplete(e, rest);
    case EmptyD =>
  }

  lemma SimpleComplete(e: ExprD, rest: seq<Token>)
    ensures ParseStmt(YieldStmt(SimpleD(e)) + rest) == Ok(ExprStmt(AstExpr(e)), rest)
  {
    Assoc(YieldExpr(e), [Semi], rest);
    ExprComplete(e, [Semi] + rest);
    ExprStart(e);
  }

  lemma {:induction false} IfComplete(d: StmtD, rest: seq<Token>)
    requires d.IfD? && NearestIf(d) && !At(rest, ElseSym)
    ensures ParseStmt(YieldStmt(d) + rest) == Ok(AstStmt(d), rest)
    decreases d, 0
  {
    Cut(IfSym, YieldParen(d.c), YieldStmt(d.s), rest);
    ParenComplete(d.c, YieldStmt(d.s) + rest);
    StmtComplete(d.s, rest);
    IfTurn(YieldStmt(d) + rest, AstExpr(d.c), YieldStmt(d.s) + rest, AstStmt(d.s), rest);
  }

  /** The "if" case of the statement routine, once its parts are parsed. */
  lemma IfTurn(ts: seq<Token>, c: Expr, r1: seq<Token>, s: Stmt, r2: seq<Token>)
    requires At(ts, IfSym) && ParseParen(ts[1..]) == Ok(c, r1) && ParseStmt(r1) == Ok(s, r2)
    ensures !At(r2, ElseSym) ==> ParseStmt(ts) == Ok(If1(c, s), r2)
    ensures forall t, r3 :: At(r2, ElseSym) && ParseStmt(r2[1..]) == Ok(t, r3) ==> ParseStmt(ts) == Ok(If2(c, s, t), r3)
  {
  }

  lemma {:induction false} WhileComplete(d: StmtD, rest: seq<Token>)
    requires d.WhileD? && NearestIf(d) && !(Open(d) && At(rest, ElseSym))
    ensures ParseStmt(YieldStmt(d) + rest) == Ok(AstStmt(d), rest)
    decreases d, 0
  {
    Cut(WhileSym, YieldParen(d.c), YieldStmt(d.s), rest);
    ParenComplete(d.c, YieldStmt(d.s) + rest);
    StmtComplete(d.s, rest);
  }

  lemma {:induction false} IfElseComplete(d: StmtD, rest: seq<Token>)
    requires d.IfElseD? && NearestIf(d) && !(Open(d) && At(rest, ElseSym))
    ensures ParseStmt(YieldStmt(d) + rest) == Ok(AstStmt(d), rest)
    decreases d, 0
  {
    var head := [IfSym] + YieldParen(d.c) + YieldStmt(d.s);
    var rest' := [ElseSym] + (YieldStmt(d.t) + rest);
    assert YieldStmt(d) + rest == head + rest' by {
      Assoc(head, [ElseSym], YieldStmt(d.t));
      Assoc(head, [ElseSym] + YieldStmt(d.t), rest);
      Assoc([ElseSym], YieldStmt(d.t), rest);
    }
    Cut(IfSym, YieldParen(d.c), YieldStmt(d.s), rest');
    ParenComplete(d.c, YieldStmt(d.s) + rest');
    StmtComplete(d.s, rest');
    assert rest'[1..] == YieldStmt(d.t) + rest;
    StmtComplete(d.t, rest);
    IfTurn(head + rest', AstExpr(d.c), YieldStmt(d.s) + rest', AstStmt(d.s), rest');
  }

  lemma {:induction false} DoComplete(d: StmtD, rest: seq<Token>)
    requires d.DoD? && NearestIf(d)
    ensures ParseStmt(YieldStmt(d) + rest) == Ok(AstStmt(d), rest)
    decreases d, 0
  {
    var rest' := [WhileSym] + YieldParen(d.c) + [Semi] + rest;
    assert YieldStmt(d) + rest == [DoSym] + YieldStmt(d.s) + [] + rest' by {
      assert [DoSym] + YieldStmt(d.s) + [] == [DoSym] + YieldStmt(d.s);
      Assoc([DoSym] + YieldStmt(d.s), [WhileSym], YieldParen(d.c));
      Assoc([DoSym] + YieldStmt(d.s), [WhileSym] + YieldParen(d.c), [Semi]);
      Assoc([DoSym] + YieldStmt(d.s), [WhileSym] + YieldParen(d.c) + [Semi], rest);
    }
    Cut(DoSym, YieldStmt(d.s), [], rest');
    assert [] + rest' == rest';
    StmtComplete(d.s, rest');
    Cut(WhileSym, YieldParen(d.c), [Semi], rest);
    ParenComplete(d.c, [Semi] + rest);
  }

  lemma {:induction false} BlockComplete(ss: StmtsD, rest: seq<Token>)
    requires NearestIfs(ss) && rest != [] && rest[0] != ElseSym
    ensures BlockLoop(Empty, YieldStmts(ss) + rest) == BlockLoop(AstStmts(ss), rest)
    decreases ss
  {
    match ss
    case NoStmts => assert YieldStmts(ss) + rest == rest;
    case Snoc(init, last) =>
      var rest' := YieldStmt(last) + rest;
      assert YieldStmts(ss) + rest == YieldStmts(init) + rest';
      StmtStart(last);
      BlockComplete(init, rest');
      StmtComplete(last, rest);
  }

  // ---- Soundness: what is parsed was derived, by a derivation with that tree.

  lemma {:induction false} TermSound(ts: seq<Token>) returns (d: TermD)
    requires ParseTerm(ts).Ok?
    ensures AstTerm(d) == ParseTerm(ts).tree && YieldTerm(d) + ParseTerm(ts).rest == ts
    decreases |ts|, 1
  {
    if ts[0].Id? { d := TermId(ts[0].name); }
    else if ts[0].Int? { d := TermInt(ts[0].val); }
    else {
      var e := ParenSound(ts);
      d := TermParen(e);
    }
  }

  lemma {:induction false} SumSound(ts: seq<Token>) returns (d: SumD)
    requires ParseSum(ts).Ok?
    ensures AstSum(d) == ParseSum(ts).tree && YieldSum(d) + ParseSum(ts).rest == ts
    decreases |ts|, 3
  {
    var t := TermSound(ts);
    d := SumLoopSound(SumTerm(t), ParseTerm(ts).rest);
  }

  lemma {:induction false} SumLoopSound(d0: SumD, ts: seq<Token>) returns (d: SumD)
    requires SumLoop(AstSum(d0), ts).Ok?
    ensures AstSum(d) == SumLoop(AstSum(d0), ts).tree
    ensures YieldSum(d) + SumLoop(AstSum(d0), ts).rest == YieldSum(d0) + ts
    decreases |ts|, 2
  {
    if !(At(ts, Plus) || At(ts, Minus)) { return d0; }
    var tok, tl := ts[0], ts[1..];
    assert ts == [tok] + tl;
    var t := TermSound(tl);
    var rest := ParseTerm(tl).rest;
    SumLoopTurn(AstSum(d0), tok, tl, AstTerm(t), rest);
    var d1 := if tok == Plus then SumPlus(d0, t) else SumMinus(d0, t);
    d := SumLoopSound(d1, rest);
    Assoc(YieldSum(d0), [tok], YieldTerm(t));
    Assoc(YieldSum(d0), [tok] + YieldTerm(t), rest);
    Assoc([tok], YieldTerm(t), rest);
  }

  lemma {:induction false} TestSound(ts: seq<Token>) returns (d: TestD)
    requires ParseTest(ts).Ok?
    ensures AstTest(d) == ParseTest(ts).tree && YieldTest(d) + ParseTest(ts).rest == ts
    decreases |ts|, 4
  {
    var s := SumSound(ts);
    var rest := ParseSum(ts).rest;
    if At(rest, Less) {
      var s' := SumSound(rest[1..]);
      d := TestLess(s, s');
      assert YieldTest(d) + ParseTest(ts).rest == YieldSum(s) + rest;
    } else {
      d := TestSum(s);
    }
  }

  /** A test that starts with an identifier and gives a variable is that identifier alone. */
  lemma {:induction false} LoneId(d: TestD)
    requires AstTest(d).Var? && YieldTest(d) != [] && YieldTest(d)[0].Id?
    ensures YieldTest(d) == [Id(AstTest(d).x)]
  {
    match d
    case TestSum(s) =>
      assert s.SumTerm?;
      assert YieldTest(d) == YieldTerm(s.t) && AstTest(d) == AstTerm(s.t);
      assert !s.t.TermParen?;
    case TestLess(_, _) =>
  }

  lemma {:induction false} ExprSound(ts: seq<Token>) returns (d: ExprD)
    requires ParseExpr(ts).Ok?
    ensures AstExpr(d) == ParseExpr(ts).tree && YieldExpr(d) + ParseExpr(ts).rest == ts
    decreases |ts|, 5
  {
    var t := TestSound(ts);
    var rest := ParseTest(ts).rest;
    d := ExprTest(t);
    if ts[0].Id? && AstTest(t).Var? && At(rest, Equal) {
      SumStart(t.s);
      LoneId(t);
      var e := ExprSound(rest[1..]);
      d := ExprAssign(AstTest(t).x, e);
      assert YieldExpr(d) + ParseExpr(ts).rest == YieldTest(t) + rest;
    }
  }

  lemma {:induction false} ParenSound(ts: seq<Token>) returns (d: ExprD)
    requires ParseParen(ts).Ok?
    ensures AstExpr(d) == ParseParen(ts).tree && YieldParen(d) + ParseParen(ts).rest == ts
    decreases |ts|, 0
  {
    d := ExprSound(ts[1..]);
    assert ts == [LPar] + ts[1..];
  }

  /** The parser's own reading follows the nearest-if rule, and it never leaves an "else"
      that the statement it returns could have taken. */
  lemma {:induction false} StmtSound(ts: seq<Token>) returns (d: StmtD)
    requires ParseStmt(ts).Ok?
    ensures AstStmt(d) == ParseStmt(ts).tree && YieldStmt(d) + ParseStmt(ts).rest == ts
    ensures NearestIf(d) && !(Open(d) && At(ParseStmt(ts).rest, ElseSym))
    decreases |ts|, 6
  {
    if At(ts, IfSym) {
      d := IfSound(ts);
    } else if At(ts, WhileSym) {
      var c := ParenSound(ts[1..]);
      var s := StmtSound(ParseParen(ts[1..]).rest);
      d := WhileD(c, s);
      Join(WhileSym, YieldParen(c), YieldStmt(s), ParseStmt(ts).rest, ts);
    } else if At(ts, DoSym) {
      d := DoSound(ts);
    } else if At(ts, Semi) {
      d := EmptyD;
    } else if At(ts, LBra) {
      var ss := BlockSound(NoStmts, ts[1..]);
      d := BlockD(ss);
      Assoc(YieldStmts(ss), [RBra], ParseStmt(ts).rest);
      Join(LBra, YieldStmts(ss), [RBra], ParseStmt(ts).rest, ts);
    } else {
      var e := ExprSound(ts);
      d := SimpleD(e);
      Assoc(YieldExpr(e), [Semi], ParseStmt(ts).rest);
    }
  }

  /** Putting the first token back. */
  lemma Join(x: Token, a: seq<Token>, b: seq<Token>, rest: seq<Token>, ts: seq<Token>)
    requires At(ts, x) && ts[1..] == a + (b + rest)
    ensures [x] + a + b + rest == ts
  {
    assert ts == [x] + ts[1..];
  }

  lemma {:induction false} DoSound(ts: seq<Token>) returns (d: StmtD)
    requires At(ts, DoSym) && ParseStmt(ts).Ok?
    ensures AstStmt(d) == ParseStmt(ts).tree && YieldStmt(d) + ParseStmt(ts).rest == ts
    ensures NearestIf(d) && !Open(d)
    decreases |ts|, 0
  {
    var s := StmtSound(ts[1..]);
    var r1 := ParseStmt(ts[1..]).rest;
    var c := ParenSound(r1[1..]);
    d := DoD(s, c);
    var rest := ParseStmt(ts).rest;
    Join(WhileSym, YieldParen(c), [Semi], rest, r1);
    var tail := [WhileSym] + YieldParen(c) + [Semi];
    Join(DoSym, YieldStmt(s), tail, rest, ts);
    Assoc([DoSym] + YieldStmt(s), [WhileSym], YieldParen(c));
    Assoc([DoSym] + YieldStmt(s), [WhileSym] + YieldParen(c), [Semi]);
  }

  lemma {:induction false} IfSound(ts: seq<Token>) returns (d: StmtD)
    requires At(ts, IfSym) && ParseStmt(ts).Ok?
    ensures AstStmt(d) == ParseStmt(ts).tree && YieldStmt(d) + ParseStmt(ts).rest == ts
    ensures NearestIf(d) && !(Open(d) && At(ParseStmt(ts).rest, ElseSym))
    decreases |ts|, 0
  {
    var c := ParenSound(ts[1..]);
    var r1 := ParseParen(ts[1..]).rest;
    var s := StmtSound(r1);
    var r2 := ParseStmt(r1).rest;
    Join(IfSym, YieldParen(c), YieldStmt(s), r2, ts);
    if At(r2, ElseSym) {
      var t := StmtSound(r2[1..]);
      d := IfElseD(c, s, t);
      YieldIfElse(c, s, t, ParseStmt(r2[1..]).rest, r2, ts);
    } else {
      d := IfD(c, s);
    }
  }

  lemma YieldIfElse(c: ExprD, s: StmtD, t: StmtD, rest: seq<Token>, r2: seq<Token>, ts: seq<Token>)
    requires [IfSym] + YieldParen(c) + YieldStmt(s) + r2 == ts
    requires At(r2, ElseSym) && r2[1..] == YieldStmt(t) + rest
    ensures YieldStmt(IfElseD(c, s, t)) + rest == ts
  {
    var head := [IfSym] + YieldParen(c) + YieldStmt(s);
    Join(ElseSym, YieldStmt(t), [], rest, r2) by { assert [] + rest == rest; }
    assert [ElseSym] + YieldStmt(t) + [] == [ElseSym] + YieldStmt(t);
    Assoc(head, [ElseSym], YieldStmt(t));
    Assoc(head, [ElseSym] + YieldStmt(t), rest);
  }

  lemma BlockLoopTurn(x: Stmt, ts: seq<Token>)
    requires !At(ts, RBra) && ParseStmt(ts).Ok?
    ensures BlockLoop(x, ts) == BlockLoop(Seq(x, ParseStmt(ts).tree), ParseStmt(ts).rest)
  {
  }

  lemma {:induction false} BlockSound(d0: StmtsD, ts: seq<Token>) returns (d: StmtsD)
    requires NearestIfs(d0) && BlockLoop(AstStmts(d0), ts).Ok?
    ensures AstStmts(d) == BlockLoop(AstStmts(d0), ts).tree && NearestIfs(d)
    ensures YieldStmts(d) + [RBra] + BlockLoop(AstStmts(d0), ts).rest == YieldStmts(d0) + ts
    decreases |ts|, 7
  {
    if At(ts, RBra) {
      d := d0;
      assert ts == [RBra] + ts[1..];
      Assoc(YieldStmts(d0), [RBra], ts[1..]);
    } else {
      BlockLoopTurn(AstStmts(d0), ts);
      var s := StmtSound(ts);
      var rest := ParseStmt(ts).rest;
      d := BlockSound(Snoc(d0, s), rest);
      Assoc(YieldStmts(d0), YieldStmt(s), rest);
    }
  }

  // ---- Main results.

  /** The parser accepts exactly the strings the grammar derives. */
  lemma {:induction false} AcceptsExactlyTheGrammar(ts: seq<Token>)
    ensures ParseProgram(ts).Some? <==> Derivable(ts)
  {
    if ParseProgram(ts).Some? {
      var d := StmtSound(ts);
      assert YieldStmt(d) == ts;
    }
    if Derivable(ts) {
      var d: StmtD :| YieldStmt(d) == ts;
      NearestSameYield(d);
      StmtComplete(Nearest(d), []);
      assert ts + [] == ts;
    }
  }

  /** The tree returned is the tree of every derivation that follows the nearest-if rule, so
      that rule is the only choice the parser makes. */
  lemma {:induction false} ParsesToNearestIfTree(d: StmtD)
    requires NearestIf(d)
    ensures ParseProgram(YieldStmt(d)) == Some(AstStmt(d))
  {
    StmtComplete(d, []);
    assert YieldStmt(d) + [] == YieldStmt(d);
  }

  // ---- Printing a tree by the grammar and parsing it back.

  function DeriveTerm(e: Expr): TermD
    decreases e, 0
  {
    match e
    case Var(x) => TermId(x)
    case Cst(n) => TermInt(n)
    case Set(x, e') => TermParen(ExprAssign(x, DeriveExpr(e')))
    case Lt(a, b) => TermParen(ExprTest(TestLess(DeriveSum(a), DeriveSum(b))))
    case Add(a, b) => TermParen(ExprTest(TestSum(SumPlus(DeriveSum(a), DeriveTerm(b)))))
    case Sub(a, b) => TermParen(ExprTest(TestSum(SumMinus(DeriveSum(a), DeriveTerm(b)))))
  }

  function DeriveSum(e: Expr): SumD
    decreases e, 1
  {
    match e
    case Add(a, b) => SumPlus(DeriveSum(a), DeriveTerm(b))
    case Sub(a, b) => SumMinus(DeriveSum(a), DeriveTerm(b))
    case _ => SumTerm(DeriveTerm(e))
  }

  function DeriveExpr(e: Expr): ExprD
    decreases e, 2
  {
    match e
    case Set(x, e') => ExprAssign(x, DeriveExpr(e'))
    case Lt(a, b) => ExprTest(TestLess(DeriveSum(a), DeriveSum(b)))
    case _ => ExprTest(TestSum(DeriveSum(e)))
  }

  function DeriveStmt(s: Stmt): StmtD
    requires Producible(s)
    decreases s, 1
  {
    match s
    case If1(c, b) => IfD(DeriveExpr(c), DeriveStmt(b))
    case If2(c, b, t) => IfElseD(DeriveExpr(c), DeriveStmt(b), DeriveStmt(t))
    case While(c, b) => WhileD(DeriveExpr(c), DeriveStmt(b))
    case Do(b, c) => DoD(DeriveStmt(b), DeriveExpr(c))
    case Empty => EmptyD
    case Seq(_, _) => BlockD(DeriveBlock(s))
    case ExprStmt(e) => SimpleD(DeriveExpr(e))
  }

  function DeriveBlock(s: Stmt): StmtsD
    requires Producible(s) && (s.Empty? || s.Seq?)
    decreases s, 0
  {
    match s
    case Empty => NoStmts
    case Seq(a, b) => Snoc(DeriveBlock(a), DeriveStmt(b))
  }

  /** The tree ends in an "if" without "else". */
  predicate OpenAst(s: Stmt) {
    match s
    case If1(_, _) => true
    case If2(_, _, t) => OpenAst(t)
    case While(_, b) => OpenAst(b)
    case _ => false
  }

  /** Trees the parser can build: a two-armed if never has an open first arm, and a sequence
      is a left-nested list that starts from the empty statement. */
  predicate Producible(s: Stmt) {
    match s
    case If1(_, b) => Producible(b)
    case If2(_, b, t) => Producible(b) && Producible(t) && !OpenAst(b)
    case While(_, b) => Producible(b)
    case Do(b, _) => Producible(b)
    case Seq(a, b) => (a.Empty? || a.Seq?) && Producible(a) && Producible(b)
    case _ => true
  }

  /** The tokens of a tree, parenthesised only where the grammar asks for it. */
  function Print(s: Stmt): seq<Token>
    requires Producible(s)
  {
    YieldStmt(DeriveStmt(s))
  }

  lemma {:induction false} DerivesExpr(e: Expr)
    ensures AstTerm(DeriveTerm(e)) == e && AstSum(DeriveSum(e)) == e && AstExpr(DeriveExpr(e)) == e
  {
    match e
    case Var(_) =>
    case Cst(_) =>
    case Set(_, e') => DerivesExpr(e');
    case Lt(a, b) =>
      DerivesExpr(a);
      DerivesExpr(b);
      assert AstTest(TestLess(DeriveSum(a), DeriveSum(b))) == e;
    case Add(a, b) =>
      DerivesExpr(a);
      DerivesExpr(b);
      assert AstTest(TestSum(DeriveSum(e))) == e;
    case Sub(a, b) =>
      DerivesExpr(a);
      DerivesExpr(b);
      assert AstTest(TestSum(DeriveSum(e))) == e;
  }

  lemma {:induction false} DerivesStmt(s: Stmt)
    requires Producible(s)
    ensures AstStmt(DeriveStmt(s)) == s && NearestIf(DeriveStmt(s))
    ensures Open(DeriveStmt(s)) <==> OpenAst(s)
    ensures s.Empty? || s.Seq? ==> AstStmts(DeriveBlock(s)) == s && NearestIfs(DeriveBlock(s))
  {
    match s
    case If1(c, b) => DerivesExpr(c); DerivesStmt(b);
    case If2(c, b, t) => DerivesExpr(c); DerivesStmt(b); DerivesStmt(t);
    case While(c, b) => DerivesExpr(c); DerivesStmt(b);
    case Do(b, c) => DerivesExpr(c); DerivesStmt(b);
    case Empty =>
    case Seq(a, b) => DerivesStmt(a); DerivesStmt(b);
    case ExprStmt(e) => DerivesExpr(e);
  }

  lemma {:induction false} NearestIfProducible(d: StmtD)
    requires NearestIf(d)
    ensures Producible(AstStmt(d)) && (OpenAst(AstStmt(d)) ==> Open(d))
  {
    match d
    case IfD(_, s) => NearestIfProducible(s);
    case IfElseD(_, s, t) => NearestIfProducible(s); NearestIfProducible(t);
    case WhileD(_, s) => NearestIfProducible(s);
    case DoD(s, _) => NearestIfProducible(s);
    case BlockD(ss) => NearestIfsProducible(ss);
    case _ =>
  }

  lemma {:induction false} NearestIfsProducible(ss: StmtsD)
    requires NearestIfs(ss)
    ensures Producible(AstStmts(ss)) && (AstStmts(ss).Empty? || AstStmts(ss).Seq?)
  {
    match ss
    case NoStmts =>
    case Snoc(init, last) => NearestIfsProducible(init); NearestIfProducible(last);
  }

  /** Round trip: parsing the print of a tree gives the tree back. */
  lemma {:induction false} ParseInvertsPrint(s: Stmt)
    requires Producible(s)
    ensures ParseProgram(Print(s)) == Some(s)
  {
    DerivesStmt(s);
    ParsesToNearestIfTree(DeriveStmt(s));
  }

  /** The trees the parser returns are exactly the producible ones. */
  lemma {:induction false} ProducibleIffParsed(s: Stmt)
    ensures Producible(s) <==> exists ts: seq<Token> :: ParseProgram(ts) == Some(s)
  {
    if Producible(s) { ParseInvertsPrint(s); }
    forall ts: seq<Token> | ParseProgram(ts) == Some(s)
      ensures Producible(s)
    {
      var d := StmtSound(ts);
      NearestIfProducible(d);
    }
  }
}
