/** What Tiny-C programs do: the laws of assignments, and the programs in the header of tinyc.c with
    arbitrary variables and constants, from their tokens to the variables that the machine halts with. */
module TinyCPrograms {
  import opened Prelude
  import opened TinyCSyntax
  import opened TinyCGrammar
  import opened TinyCParser
  import opened TinyCParserCorrect
  import opened TinyCCode
  import opened TinyCMachine
  import opened TinyCCorrect

  const LIMIT := 0x8000_0000

  // ---- Assignments.

  /** Operations on two variables. */
  lemma EvalBoth(y: Letter, z: Letter, g: Globals)
    ensures Eval(Add(Var(y), Var(z)), g) == Valued(Int32(g[y] + g[z]), g)
    ensures Eval(Sub(Var(y), Var(z)), g) == Valued(Int32(g[y] - g[z]), g)
    ensures Eval(Lt(Var(y), Var(z)), g) == Valued(if g[y] < g[z] then 1 else 0, g)
  {
    assert Eval(Var(y), g) == Valued(g[y], g) && Eval(Var(z), g) == Valued(g[z], g);
  }

  /** Operations on a variable and a constant. */
  lemma EvalConstant(y: Letter, n: nat, g: Globals)
    ensures Eval(Add(Var(y), Cst(n)), g) == Valued(Int32(g[y] + n), g)
    ensures Eval(Lt(Var(y), Cst(n)), g) == Valued(if g[y] < n then 1 else 0, g)
  {
    assert Eval(Var(y), g) == Valued(g[y], g) && Eval(Cst(n), g) == Valued(n, g);
  }

  lemma EvalSet(x: Letter, e: Expr, g: Globals)
    requires Eval(e, g).g == g
    ensures var v := Eval(e, g).v; Eval(Set(x, e), g) == Valued(v, g[x := v])
  {
  }

  /** x = y + z; changes x alone, to the sum in 32 bits. */
  lemma AddMeans(x: Letter, y: Letter, z: Letter, g: Globals, fuel: nat) returns (v: int)
    ensures Exec(ExprStmt(Set(x, Add(Var(y), Var(z)))), g, fuel) == Some(g[x := v]) && Wrapped(v, g[y] + g[z])
  {
    v := Int32(g[y] + g[z]);
    Int32Wraps(g[y] + g[z]);
    EvalBoth(y, z, g);
    EvalSet(x, Add(Var(y), Var(z)), g);
  }

  /** x = y - z; takes the second from the first. */
  lemma SubMeans(x: Letter, y: Letter, z: Letter, g: Globals, fuel: nat) returns (v: int)
    ensures Exec(ExprStmt(Set(x, Sub(Var(y), Var(z)))), g, fuel) == Some(g[x := v]) && Wrapped(v, g[y] - g[z])
  {
    v := Int32(g[y] - g[z]);
    Int32Wraps(g[y] - g[z]);
    EvalBoth(y, z, g);
    EvalSet(x, Sub(Var(y), Var(z)), g);
  }

  /** x = y < z; is 1 or 0. */
  lemma LessMeans(x: Letter, y: Letter, z: Letter, g: Globals, fuel: nat)
    ensures Exec(ExprStmt(Set(x, Lt(Var(y), Var(z)))), g, fuel) == Some(g[x := if g[y] < g[z] then 1 else 0])
  {
    EvalBoth(y, z, g);
    EvalSet(x, Lt(Var(y), Var(z)), g);
  }

  lemma SmallSum(x: int, y: int)
    requires -LIMIT <= x + y < LIMIT
    ensures Int32(x + y) == x + y
  {
  }

  lemma SmallDifference(x: int, y: int)
    requires -LIMIT <= x - y < LIMIT
    ensures Int32(x - y) == x - y
  {
  }

  // ---- From tokens to the machine.

  /** The tokens are a program whose code, started with g, halts with g'. */
  ghost predicate Yields(ts: seq<Token>, g: Globals, g': Globals) {
    ParseProgram(ts).Some? && HaltsWith(ProgramCode(ParseProgram(ts).value), g, g')
  }

  lemma ByDerivation(ts: seq<Token>, d: StmtD, g: Globals, g': Globals, fuel: nat)
    requires YieldStmt(d) == ts && NearestIf(d) && Exec(AstStmt(d), g, fuel) == Some(g')
    ensures Yields(ts, g, g')
  {
    ParsesToNearestIfTree(d);
    CompilerCorrect(AstStmt(d), g, g');
  }

  /** An operand that is a variable or a constant. */
  function Variable(x: Letter): SumD {
    SumTerm(TermId(x))
  }

  function Number(n: nat): SumD {
    SumTerm(TermInt(n))
  }

  function Assignment(x: Letter, s: SumD): ExprD {
    ExprAssign(x, ExprTest(TestSum(s)))
  }

  lemma Operands(x: Letter, n: nat)
    ensures YieldSum(Variable(x)) == [Id(x)] && AstSum(Variable(x)) == Var(x)
    ensures YieldSum(Number(n)) == [Int(n)] && AstSum(Number(n)) == Cst(n)
  {
    assert YieldTerm(TermId(x)) == [Id(x)] && YieldTerm(TermInt(n)) == [Int(n)];
  }

  lemma Comparison(a: SumD, b: SumD)
    ensures var d := ExprTest(TestLess(a, b));
      YieldExpr(d) == YieldSum(a) + [Less] + YieldSum(b) && AstExpr(d) == Lt(AstSum(a), AstSum(b))
  {
    assert YieldTest(TestLess(a, b)) == YieldSum(a) + [Less] + YieldSum(b);
    assert AstTest(TestLess(a, b)) == Lt(AstSum(a), AstSum(b));
  }

  lemma Assigned(x: Letter, s: SumD)
    ensures YieldExpr(Assignment(x, s)) == [Id(x), Equal] + YieldSum(s)
    ensures AstExpr(Assignment(x, s)) == Set(x, AstSum(s))
  {
    var d := ExprTest(TestSum(s));
    assert YieldExpr(d) == YieldTest(TestSum(s)) == YieldSum(s);
    assert AstExpr(d) == AstTest(TestSum(s)) == AstSum(s);
  }

  lemma Difference(s: SumD)
    ensures YieldExpr(ExprTest(TestSum(s))) == YieldSum(s) && AstExpr(ExprTest(TestSum(s))) == AstSum(s)
  {
    assert YieldTest(TestSum(s)) == YieldSum(s) && AstTest(TestSum(s)) == AstSum(s);
  }

  /** Sums of two operands, the second a term. */
  lemma Sums(x: Letter, y: Letter, n: nat)
    ensures YieldSum(SumPlus(Variable(x), TermId(y))) == [Id(x), Plus, Id(y)]
    ensures YieldSum(SumMinus(Variable(x), TermId(y))) == [Id(x), Minus, Id(y)]
    ensures YieldSum(SumPlus(Variable(x), TermInt(n))) == [Id(x), Plus, Int(n)]
    ensures AstSum(SumPlus(Variable(x), TermId(y))) == Add(Var(x), Var(y))
    ensures AstSum(SumMinus(Variable(x), TermId(y))) == Sub(Var(x), Var(y))
    ensures AstSum(SumPlus(Variable(x), TermInt(n))) == Add(Var(x), Cst(n))
  {
    Operands(x, n);
    assert YieldTerm(TermId(y)) == [Id(y)] && YieldTerm(TermInt(n)) == [Int(n)];
    assert AstTerm(TermId(y)) == Var(y) && AstTerm(TermInt(n)) == Cst(n);
  }

  // ---- a=b=c=2<3;

  lemma Chain(a: Letter, b: Letter, c: Letter, m: nat, n: nat, g: Globals)
    ensures var v := if m < n then 1 else 0;
      Yields([Id(a), Equal, Id(b), Equal, Id(c), Equal, Int(m), Less, Int(n), Semi], g, g[c := v][b := v][a := v])
  {
    var v := if m < n then 1 else 0;
    var test := ExprTest(TestLess(Number(m), Number(n)));
    var d3 := ExprAssign(c, test);
    var d2 := ExprAssign(b, d3);
    var d1 := ExprAssign(a, d2);
    Operands(a, m);
    Operands(a, n);
    Comparison(Number(m), Number(n));
    assert YieldExpr(d3) == [Id(c), Equal, Int(m), Less, Int(n)];
    assert YieldExpr(d2) == [Id(b), Equal, Id(c), Equal, Int(m), Less, Int(n)];
    assert YieldExpr(d1) == [Id(a), Equal, Id(b), Equal, Id(c), Equal, Int(m), Less, Int(n)];
    assert Eval(Cst(m), g) == Valued(m, g) && Eval(Cst(n), g) == Valued(n, g);
    assert Eval(AstExpr(test), g) == Valued(v, g);
    assert Eval(AstExpr(d3), g) == Valued(v, g[c := v]);
    assert Eval(AstExpr(d2), g) == Valued(v, g[c := v][b := v]);
    ByDerivation([Id(a), Equal, Id(b), Equal, Id(c), Equal, Int(m), Less, Int(n), Semi], SimpleD(d1),
                 g, g[c := v][b := v][a := v], 0);
  }

  // ---- while (i<100) i=i+i;

  lemma {:induction false} DoublingRuns(i: Letter, n: nat, g: Globals) returns (k: nat)
    requires 1 <= g[i] < LIMIT && n <= LIMIT / 2
    ensures var s := While(Lt(Var(i), Cst(n)), ExprStmt(Set(i, Add(Var(i), Var(i)))));
      Exec(s, g, k + 1) == Some(g[i := g[i] * Pow2(k)])
    ensures n <= g[i] * Pow2(k) && (k > 0 ==> g[i] * Pow2(k - 1) < n)
    decreases n - g[i]
  {
    var c, b := Lt(Var(i), Cst(n)), ExprStmt(Set(i, Add(Var(i), Var(i))));
    EvalConstant(i, n, g);
    if g[i] >= n {
      k := 0;
      assert g[i := g[i] * Pow2(0)] == g;
    } else {
      var g1 := g[i := g[i] + g[i]];
      SmallSum(g[i], g[i]);
      EvalBoth(i, i, g);
      EvalSet(i, Add(Var(i), Var(i)), g);
      var m := DoublingRuns(i, n, g1);
      k := m + 1;
      assert Exec(b, g, k + 1) == Some(g1);
      Twice(g[i], m);
      assert g1[i := g1[i] * Pow2(m)] == g[i := g[i] * Pow2(k)];
      if m > 0 { Twice(g[i], m - 1); }
    }
  }

  lemma Twice(x: int, m: nat)
    ensures (x + x) * Pow2(m) == x * Pow2(m + 1)
  {
    assert Pow2(m + 1) == 2 * Pow2(m);
    assert (x + x) * Pow2(m) == x * (2 * Pow2(m));
  }

  /** The variable is doubled until it is at least n, and no longer. */
  lemma Doubling(i: Letter, n: nat, g: Globals) returns (k: nat)
    requires 1 <= g[i] < LIMIT && n <= LIMIT / 2
    ensures Yields([WhileSym, LPar, Id(i), Less, Int(n), RPar, Id(i), Equal, Id(i), Plus, Id(i), Semi],
                   g, g[i := g[i] * Pow2(k)])
    ensures n <= g[i] * Pow2(k) && (k > 0 ==> g[i] * Pow2(k - 1) < n)
  {
    k := DoublingRuns(i, n, g);
    var test := ExprTest(TestLess(Variable(i), Number(n)));
    var body := Assignment(i, SumPlus(Variable(i), TermId(i)));
    Operands(i, n);
    Comparison(Variable(i), Number(n));
    Sums(i, i, n);
    Assigned(i, SumPlus(Variable(i), TermId(i)));
    ByDerivation([WhileSym, LPar, Id(i), Less, Int(n), RPar, Id(i), Equal, Id(i), Plus, Id(i), Semi],
                 WhileD(test, SimpleD(body)), g, g[i := g[i] * Pow2(k)], k + 1);
  }

  // ---- while (i-j) if (i<j) j=j-i; else i=i-j;

  ghost predicate Divides(c: int, x: int) {
    c > 0 && exists q: int :: x == c * q
  }

  /** d is the greatest common divisor. */
  ghost predicate IsGcd(d: int, x: int, y: int) {
    Divides(d, x) && Divides(d, y) && forall c :: Divides(c, x) && Divides(c, y) ==> c <= d
  }

  lemma DividesDifference(c: int, x: int, y: int)
    requires Divides(c, y)
    ensures Divides(c, x) <==> Divides(c, x - y)
  {
    var q :| y == c * q;
    if Divides(c, x) {
      var p :| x == c * p;
      assert x - y == c * (p - q);
    }
    if Divides(c, x - y) {
      var p :| x - y == c * p;
      assert x == c * (p + q);
    }
  }

  lemma GcdDifference(d: int, x: int, y: int)
    ensures IsGcd(d, x, y) <==> IsGcd(d, x - y, y)
    ensures IsGcd(d, x, y) <==> IsGcd(d, y, x)
  {
    forall c | Divides(c, y) ensures Divides(c, x) <==> Divides(c, x - y) { DividesDifference(c, x, y); }
  }

  lemma Positive(c: int, q: int)
    requires c > 0 && c * q > 0
    ensures q >= 1
  {
  }

  lemma GcdSame(x: int)
    requires x > 0
    ensures IsGcd(x, x, x)
  {
    assert x == x * 1;
    forall c | Divides(c, x) ensures c <= x {
      var q :| x == c * q;
      assert q >= 1 by { Positive(c, q); }
      assert c * q >= c * 1;
    }
  }

  function GcdBody(i: Letter, j: Letter): Stmt {
    If2(Lt(Var(i), Var(j)), ExprStmt(Set(j, Sub(Var(j), Var(i)))), ExprStmt(Set(i, Sub(Var(i), Var(j)))))
  }

  /** One turn takes the smaller from the larger. */
  lemma GcdTurn(i: Letter, j: Letter, g: Globals, fuel: nat)
    requires i != j && 1 <= g[i] < LIMIT && 1 <= g[j] < LIMIT
    ensures Exec(GcdBody(i, j), g, fuel) == Some(if g[i] < g[j] then g[j := g[j] - g[i]] else g[i := g[i] - g[j]])
    ensures Eval(Sub(Var(i), Var(j)), g) == Valued(g[i] - g[j], g)
  {
    SmallDifference(g[i], g[j]);
    SmallDifference(g[j], g[i]);
    EvalBoth(i, j, g);
    EvalBoth(j, i, g);
    EvalSet(j, Sub(Var(j), Var(i)), g);
    EvalSet(i, Sub(Var(i), Var(j)), g);
  }

  lemma {:induction false} GcdRuns(i: Letter, j: Letter, g: Globals) returns (d: int, fuel: nat)
    requires i != j && 1 <= g[i] < LIMIT && 1 <= g[j] < LIMIT
    ensures IsGcd(d, g[i], g[j]) && Exec(While(Sub(Var(i), Var(j)), GcdBody(i, j)), g, fuel) == Some(g[i := d][j := d])
    decreases g[i] + g[j]
  {
    GcdTurn(i, j, g, 0);
    if g[i] == g[j] {
      d, fuel := g[i], 1;
      GcdSame(g[i]);
      assert g[i := d][j := d] == g;
    } else {
      var g1: Globals := if g[i] < g[j] then g[j := g[j] - g[i]] else g[i := g[i] - g[j]];
      var n;
      d, n := GcdRuns(i, j, g1);
      fuel := n + 1;
      GcdTurn(i, j, g, fuel);
      GcdDifference(d, g[i], g[j]);
      GcdDifference(d, g[j], g[i]);
      GcdDifference(d, g1[i], g1[j]);
      assert g1[i := d][j := d] == g[i := d][j := d];
    }
  }

  function GcdTokens(i: Letter, j: Letter): seq<Token> {
    [WhileSym, LPar, Id(i), Minus, Id(j), RPar, IfSym, LPar, Id(i), Less, Id(j), RPar,
     Id(j), Equal, Id(j), Minus, Id(i), Semi, ElseSym, Id(i), Equal, Id(i), Minus, Id(j), Semi]
  }

  lemma GcdParts(i: Letter, j: Letter) returns (less: ExprD, first: ExprD, second: ExprD)
    ensures YieldParen(less) == [LPar, Id(i), Less, Id(j), RPar] && AstExpr(less) == Lt(Var(i), Var(j))
    ensures YieldExpr(first) == [Id(j), Equal, Id(j), Minus, Id(i)] && AstExpr(first) == Set(j, Sub(Var(j), Var(i)))
    ensures YieldExpr(second) == [Id(i), Equal, Id(i), Minus, Id(j)] && AstExpr(second) == Set(i, Sub(Var(i), Var(j)))
  {
    less := ExprTest(TestLess(Variable(i), Variable(j)));
    first := Assignment(j, SumMinus(Variable(j), TermId(i)));
    second := Assignment(i, SumMinus(Variable(i), TermId(j)));
    Operands(i, 0);
    Operands(j, 0);
    Comparison(Variable(i), Variable(j));
    Sums(i, j, 0);
    Sums(j, i, 0);
    Assigned(j, SumMinus(Variable(j), TermId(i)));
    Assigned(i, SumMinus(Variable(i), TermId(j)));
  }

  lemma BranchBoth(c: ExprD, s: StmtD, t: StmtD)
    ensures YieldStmt(IfElseD(c, s, t)) == [IfSym] + YieldParen(c) + YieldStmt(s) + [ElseSym] + YieldStmt(t)
    ensures AstStmt(IfElseD(c, s, t)) == If2(AstExpr(c), AstStmt(s), AstStmt(t))
  {
  }

  lemma GcdBodyD(i: Letter, j: Letter) returns (d: StmtD)
    ensures YieldStmt(d) == [IfSym, LPar, Id(i), Less, Id(j), RPar, Id(j), Equal, Id(j), Minus, Id(i), Semi,
                             ElseSym, Id(i), Equal, Id(i), Minus, Id(j), Semi]
    ensures NearestIf(d) && AstStmt(d) == GcdBody(i, j)
  {
    var less, first, second := GcdParts(i, j);
    assert YieldStmt(SimpleD(first)) == [Id(j), Equal, Id(j), Minus, Id(i), Semi];
    assert YieldStmt(SimpleD(second)) == [Id(i), Equal, Id(i), Minus, Id(j), Semi];
    BranchBoth(less, SimpleD(first), SimpleD(second));
    d := IfElseD(less, SimpleD(first), SimpleD(second));
  }

  lemma GcdTestD(i: Letter, j: Letter) returns (d: ExprD)
    ensures YieldParen(d) == [LPar, Id(i), Minus, Id(j), RPar] && AstExpr(d) == Sub(Var(i), Var(j))
  {
    Sums(i, j, 0);
    Difference(SumMinus(Variable(i), TermId(j)));
    d := ExprTest(TestSum(SumMinus(Variable(i), TermId(j))));
  }

  lemma LoopBoth(c: ExprD, s: StmtD)
    ensures YieldStmt(WhileD(c, s)) == [WhileSym] + YieldParen(c) + YieldStmt(s)
    ensures AstStmt(WhileD(c, s)) == While(AstExpr(c), AstStmt(s))
    ensures NearestIf(s) ==> NearestIf(WhileD(c, s))
  {
  }

  lemma GcdDerived(i: Letter, j: Letter) returns (d: StmtD)
    ensures YieldStmt(d) == GcdTokens(i, j) && NearestIf(d)
    ensures AstStmt(d) == While(Sub(Var(i), Var(j)), GcdBody(i, j))
  {
    var test := GcdTestD(i, j);
    var body := GcdBodyD(i, j);
    LoopBoth(test, body);
    d := WhileD(test, body);
  }

  /** Both variables end as the greatest common divisor. */
  lemma Gcd(i: Letter, j: Letter, g: Globals) returns (d: int)
    requires i != j && 1 <= g[i] < LIMIT && 1 <= g[j] < LIMIT
    ensures IsGcd(d, g[i], g[j]) && Yields(GcdTokens(i, j), g, g[i := d][j := d])
  {
    var fuel;
    d, fuel := GcdRuns(i, j, g);
    var t := GcdDerived(i, j);
    ByDerivation(GcdTokens(i, j), t, g, g[i := d][j := d], fuel);
  }

  // ---- do i=i+10; while (i<50);

  /** The first multiple of m, from 1 on, that takes x to n or above. */
  ghost predicate FirstReaching(x: int, m: nat, n: nat, k: nat) {
    k > 0 && n <= x + k * m && (k > 1 ==> x + (k - 1) * m < n)
  }

  lemma AddedOnce(i: Letter, m: nat, g: Globals)
    requires -LIMIT <= g[i] && g[i] + m < LIMIT
    ensures Eval(Set(i, Add(Var(i), Cst(m))), g) == Valued(g[i] + m, g[i := g[i] + m])
  {
    SmallSum(g[i], m);
    EvalConstant(i, m, g);
    EvalSet(i, Add(Var(i), Cst(m)), g);
  }

  lemma {:induction false} AddingDoRuns(i: Letter, m: nat, n: nat, g: Globals) returns (k: nat)
    requires -LIMIT <= g[i] && g[i] + m < LIMIT && m > 0 && n + m <= LIMIT
    ensures FirstReaching(g[i], m, n, k)
    ensures Exec(Do(ExprStmt(Set(i, Add(Var(i), Cst(m)))), Lt(Var(i), Cst(n))), g, k) == Some(g[i := g[i] + k * m])
    decreases n - g[i]
  {
    var g1: Globals := g[i := g[i] + m];
    AddedOnce(i, m, g);
    EvalConstant(i, n, g1);
    if g1[i] >= n {
      k := 1;
    } else {
      var l := AddingDoRuns(i, m, n, g1);
      k := l + 1;
      OneMore(g[i], m, l);
      if l > 1 { OneMore(g[i], m, l - 1); }
      assert g1[i := g1[i] + l * m] == g[i := g[i] + k * m];
    }
  }

  lemma OneMore(x: int, m: nat, l: nat)
    ensures (x + m) + l * m == x + (l + 1) * m
  {
  }

  /** The constant is added at least once, and then until the variable is at least n. */
  lemma AddingDo(i: Letter, m: nat, n: nat, g: Globals) returns (k: nat)
    requires -LIMIT <= g[i] && g[i] + m < LIMIT && m > 0 && n + m <= LIMIT
    ensures FirstReaching(g[i], m, n, k)
    ensures Yields([DoSym, Id(i), Equal, Id(i), Plus, Int(m), Semi, WhileSym, LPar, Id(i), Less, Int(n), RPar, Semi],
                   g, g[i := g[i] + k * m])
  {
    k := AddingDoRuns(i, m, n, g);
    var body := Assignment(i, SumPlus(Variable(i), TermInt(m)));
    var test := ExprTest(TestLess(Variable(i), Number(n)));
    Operands(i, n);
    Sums(i, i, m);
    Assigned(i, SumPlus(Variable(i), TermInt(m)));
    Comparison(Variable(i), Number(n));
    ByDerivation([DoSym, Id(i), Equal, Id(i), Plus, Int(m), Semi, WhileSym, LPar, Id(i), Less, Int(n), RPar, Semi],
                 DoD(SimpleD(body), test), g, g[i := g[i] + k * m], k);
  }

  // ---- while ((i=i+10)<50) ;

  lemma {:induction false} AddingTestRuns(i: Letter, m: nat, n: nat, g: Globals) returns (k: nat)
    requires -LIMIT <= g[i] && g[i] + m < LIMIT && m > 0 && n + m <= LIMIT
    ensures FirstReaching(g[i], m, n, k)
    ensures Exec(While(Lt(Set(i, Add(Var(i), Cst(m))), Cst(n)), Empty), g, k) == Some(g[i := g[i] + k * m])
    decreases n - g[i]
  {
    var g1: Globals := g[i := g[i] + m];
    AddedOnce(i, m, g);
    assert Eval(Cst(n), g1) == Valued(n, g1);
    assert Eval(Lt(Set(i, Add(Var(i), Cst(m))), Cst(n)), g) == Valued(if g1[i] < n then 1 else 0, g1);
    if g1[i] >= n {
      k := 1;
    } else {
      var l := AddingTestRuns(i, m, n, g1);
      k := l + 1;
      OneMore(g[i], m, l);
      if l > 1 { OneMore(g[i], m, l - 1); }
      assert g1[i := g1[i] + l * m] == g[i := g[i] + k * m];
    }
  }

  /** The side effect of the test does the same. */
  lemma AddingTest(i: Letter, m: nat, n: nat, g: Globals) returns (k: nat)
    requires -LIMIT <= g[i] && g[i] + m < LIMIT && m > 0 && n + m <= LIMIT
    ensures FirstReaching(g[i], m, n, k)
    ensures Yields([WhileSym, LPar, LPar, Id(i), Equal, Id(i), Plus, Int(m), RPar, Less, Int(n), RPar, Semi],
                   g, g[i := g[i] + k * m])
  {
    k := AddingTestRuns(i, m, n, g);
    var adding := Assignment(i, SumPlus(Variable(i), TermInt(m)));
    var test := ExprTest(TestLess(SumTerm(TermParen(adding)), Number(n)));
    Operands(i, n);
    Sums(i, i, m);
    Assigned(i, SumPlus(Variable(i), TermInt(m)));
    Comparison(SumTerm(TermParen(adding)), Number(n));
    assert YieldTerm(TermParen(adding)) == [LPar, Id(i), Equal, Id(i), Plus, Int(m), RPar];
    assert YieldSum(SumTerm(TermParen(adding))) == [LPar, Id(i), Equal, Id(i), Plus, Int(m), RPar];
    assert AstTerm(TermParen(adding)) == AstExpr(adding);
    ByDerivation([WhileSym, LPar, LPar, Id(i), Equal, Id(i), Plus, Int(m), RPar, Less, Int(n), RPar, Semi],
                 WhileD(test, EmptyD), g, g[i := g[i] + k * m], k);
  }

  // ---- { i=7; if (i<5) x=1; if (i<10) y=2; }

  lemma TestedSet(i: Letter, n: nat, x: Letter, v: nat, g: Globals, fuel: nat)
    ensures Exec(If1(Lt(Var(i), Cst(n)), ExprStmt(Set(x, Cst(v)))), g, fuel) == Some(if g[i] < n then g[x := v] else g)
  {
    EvalConstant(i, n, g);
    EvalSet(x, Cst(v), g);
  }

  lemma AssignmentD(x: Letter, n: nat) returns (d: StmtD)
    ensures YieldStmt(d) == [Id(x), Equal, Int(n), Semi] && AstStmt(d) == ExprStmt(Set(x, Cst(n)))
    ensures NearestIf(d) && !Open(d)
  {
    d := SimpleD(Assignment(x, Number(n)));
    Operands(x, n);
    Assigned(x, Number(n));
  }

  lemma BranchD(i: Letter, n: nat, x: Letter, v: nat) returns (d: StmtD)
    ensures YieldStmt(d) == [IfSym, LPar, Id(i), Less, Int(n), RPar, Id(x), Equal, Int(v), Semi] && NearestIf(d)
    ensures AstStmt(d) == If1(Lt(Var(i), Cst(n)), ExprStmt(Set(x, Cst(v))))
  {
    var b := AssignmentD(x, v);
    Operands(i, n);
    Comparison(Variable(i), Number(n));
    var test := ExprTest(TestLess(Variable(i), Number(n)));
    assert YieldParen(test) == [LPar, Id(i), Less, Int(n), RPar];
    d := IfD(test, b);
  }

  lemma BlockOf(d1: StmtD, d2: StmtD, d3: StmtD) returns (d: StmtD)
    requires NearestIf(d1) && NearestIf(d2) && NearestIf(d3)
    ensures NearestIf(d) && YieldStmt(d) == [LBra] + YieldStmt(d1) + YieldStmt(d2) + YieldStmt(d3) + [RBra]
    ensures AstStmt(d) == Seq(Seq(Seq(Empty, AstStmt(d1)), AstStmt(d2)), AstStmt(d3))
  {
    var y1, y2, y3 := YieldStmt(d1), YieldStmt(d2), YieldStmt(d3);
    var b1 := Snoc(NoStmts, d1);
    var b2 := Snoc(b1, d2);
    var b3 := Snoc(b2, d3);
    assert YieldStmts(NoStmts) + y1 == y1;
    assert YieldStmts(b1) == y1 && AstStmts(b1) == Seq(Empty, AstStmt(d1)) && NearestIfs(b1);
    assert YieldStmts(b2) == y1 + y2 && AstStmts(b2) == Seq(AstStmts(b1), AstStmt(d2)) && NearestIfs(b2);
    assert YieldStmts(b3) == y1 + y2 + y3;
    assert [LBra] + (y1 + y2 + y3) + [RBra] == [LBra] + y1 + y2 + y3 + [RBra];
    d := BlockD(b3);
  }

  function BranchTokens(i: Letter, m: nat, p: nat, x: Letter, u: nat, q: nat, y: Letter, v: nat): seq<Token> {
    [LBra, Id(i), Equal, Int(m), Semi, IfSym, LPar, Id(i), Less, Int(p), RPar, Id(x), Equal, Int(u), Semi,
     IfSym, LPar, Id(i), Less, Int(q), RPar, Id(y), Equal, Int(v), Semi, RBra]
  }

  lemma BranchesDerived(i: Letter, m: nat, p: nat, x: Letter, u: nat, q: nat, y: Letter, v: nat) returns (d: StmtD)
    ensures NearestIf(d) && YieldStmt(d) == BranchTokens(i, m, p, x, u, q, y, v)
    ensures AstStmt(d) == Seq(Seq(Seq(Empty, ExprStmt(Set(i, Cst(m)))),
                                  If1(Lt(Var(i), Cst(p)), ExprStmt(Set(x, Cst(u))))),
                              If1(Lt(Var(i), Cst(q)), ExprStmt(Set(y, Cst(v)))))
  {
    var d1 := AssignmentD(i, m);
    var d2 := BranchD(i, p, x, u);
    var d3 := BranchD(i, q, y, v);
    d := BlockOf(d1, d2, d3);
  }

  lemma InOrder(s1: Stmt, s2: Stmt, s3: Stmt, g: Globals, g1: Globals, g2: Globals, g3: Globals)
    requires Exec(s1, g, 0) == Some(g1) && Exec(s2, g1, 0) == Some(g2) && Exec(s3, g2, 0) == Some(g3)
    ensures Exec(Seq(Seq(Seq(Empty, s1), s2), s3), g, 0) == Some(g3)
  {
    assert Exec(Empty, g, 0) == Some(g);
    assert Exec(Seq(Empty, s1), g, 0) == Some(g1);
    assert Exec(Seq(Seq(Empty, s1), s2), g, 0) == Some(g2);
  }

  /** The statements of a block are executed in order, each branch if its own test holds. */
  lemma Branches(i: Letter, m: nat, p: nat, x: Letter, u: nat, q: nat, y: Letter, v: nat, g: Globals)
    requires i != x && i != y && x != y
    ensures Yields(BranchTokens(i, m, p, x, u, q, y, v),
                   g, g[i := m][x := if m < p then u else g[x]][y := if m < q then v else g[y]])
  {
    var d := BranchesDerived(i, m, p, x, u, q, y, v);
    var g1: Globals := g[i := m];
    var g2: Globals := if m < p then g1[x := u] else g1;
    var g3: Globals := if m < q then g2[y := v] else g2;
    EvalSet(i, Cst(m), g);
    TestedSet(i, p, x, u, g1, 0);
    TestedSet(i, q, y, v, g2, 0);
    InOrder(ExprStmt(Set(i, Cst(m))), If1(Lt(Var(i), Cst(p)), ExprStmt(Set(x, Cst(u)))),
            If1(Lt(Var(i), Cst(q)), ExprStmt(Set(y, Cst(v)))), g, g1, g2, g3);
    assert g3 == g[i := m][x := if m < p then u else g[x]][y := if m < q then v else g[y]];
    ByDerivation(BranchTokens(i, m, p, x, u, q, y, v), d, g, g3, 0);
  }

  // ---- x=a-b-c; and if (a) if (b) x=1; else x=2;

  lemma TwoDifferences(a: Letter, b: Letter, c: Letter, g: Globals) returns (v: int)
    ensures Wrapped(v, g[a] - g[b] - g[c]) && Eval(Sub(Sub(Var(a), Var(b)), Var(c)), g) == Valued(v, g)
  {
    EvalBoth(a, b, g);
    assert Eval(Var(c), g) == Valued(g[c], g);
    var u := Int32(g[a] - g[b]);
    v := Int32(u - g[c]);
    Int32Wraps(g[a] - g[b]);
    Int32Wraps(u - g[c]);
    WrappedAgain(u, g[a] - g[b], v, g[c]);
  }

  lemma TwoDifferencesD(a: Letter, b: Letter, c: Letter) returns (d: SumD)
    ensures YieldSum(d) == [Id(a), Minus, Id(b), Minus, Id(c)] && AstSum(d) == Sub(Sub(Var(a), Var(b)), Var(c))
  {
    Sums(a, b, 0);
    assert YieldTerm(TermId(c)) == [Id(c)] && AstTerm(TermId(c)) == Var(c);
    d := SumMinus(SumMinus(Variable(a), TermId(b)), TermId(c));
  }

  /** Differences are taken from left to right. */
  lemma LeftToRight(x: Letter, a: Letter, b: Letter, c: Letter, g: Globals) returns (v: int)
    ensures Wrapped(v, g[a] - g[b] - g[c])
    ensures Yields([Id(x), Equal, Id(a), Minus, Id(b), Minus, Id(c), Semi], g, g[x := v])
  {
    v := TwoDifferences(a, b, c, g);
    var sum := TwoDifferencesD(a, b, c);
    EvalSet(x, AstSum(sum), g);
    Assigned(x, sum);
    ByDerivation([Id(x), Equal, Id(a), Minus, Id(b), Minus, Id(c), Semi], SimpleD(Assignment(x, sum)), g, g[x := v], 0);
  }

  lemma WrappedAgain(u: int, y: int, v: int, z: int)
    requires Wrapped(u, y) && Wrapped(v, u - z)
    ensures Wrapped(v, y - z)
  {
    var p, q := (u - y) / 0x1_0000_0000, (v - (u - z)) / 0x1_0000_0000;
    assert v - (y - z) == (p + q) * 0x1_0000_0000;
  }

  lemma ConditionD(x: Letter) returns (d: ExprD)
    ensures YieldParen(d) == [LPar, Id(x), RPar] && AstExpr(d) == Var(x)
  {
    d := ExprTest(TestSum(Variable(x)));
    Operands(x, 0);
    Difference(Variable(x));
  }

  lemma EitherD(b: Letter, x: Letter, u: nat, v: nat) returns (d: StmtD)
    ensures YieldStmt(d) == [IfSym, LPar, Id(b), RPar, Id(x), Equal, Int(u), Semi, ElseSym, Id(x), Equal, Int(v), Semi]
    ensures NearestIf(d) && AstStmt(d) == If2(Var(b), ExprStmt(Set(x, Cst(u))), ExprStmt(Set(x, Cst(v))))
  {
    var c := ConditionD(b);
    var first := AssignmentD(x, u);
    var second := AssignmentD(x, v);
    BranchBoth(c, first, second);
    d := IfElseD(c, first, second);
  }

  lemma EitherRuns(a: Letter, b: Letter, x: Letter, u: nat, v: nat, g: Globals)
    ensures Exec(If1(Var(a), If2(Var(b), ExprStmt(Set(x, Cst(u))), ExprStmt(Set(x, Cst(v))))), g, 0)
         == Some(if g[a] == 0 then g else if g[b] == 0 then g[x := v] else g[x := u])
  {
    EvalSet(x, Cst(u), g);
    EvalSet(x, Cst(v), g);
    assert Eval(Var(a), g) == Valued(g[a], g) && Eval(Var(b), g) == Valued(g[b], g);
    assert Exec(If2(Var(b), ExprStmt(Set(x, Cst(u))), ExprStmt(Set(x, Cst(v)))), g, 0)
        == Some(if g[b] == 0 then g[x := v] else g[x := u]);
  }

  /** The else belongs to the second if. */
  lemma NearestElse(a: Letter, b: Letter, x: Letter, u: nat, v: nat, g: Globals)
    ensures Yields([IfSym, LPar, Id(a), RPar, IfSym, LPar, Id(b), RPar, Id(x), Equal, Int(u), Semi,
                    ElseSym, Id(x), Equal, Int(v), Semi],
                   g, if g[a] == 0 then g else if g[b] == 0 then g[x := v] else g[x := u])
  {
    var c := ConditionD(a);
    var inner := EitherD(b, x, u, v);
    EitherRuns(a, b, x, u, v, g);
    ByDerivation([IfSym, LPar, Id(a), RPar, IfSym, LPar, Id(b), RPar, Id(x), Equal, Int(u), Semi,
                  ElseSym, Id(x), Equal, Int(v), Semi], IfD(c, inner),
                 g, if g[a] == 0 then g else if g[b] == 0 then g[x := v] else g[x := u], 0);
  }
}
