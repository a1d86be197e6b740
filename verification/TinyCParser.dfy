/** The recursive-descent parser of tinyc.c (lines 190-315).

    The class Parser is the parser with its global symbol state; the Parse functions say
    what each of its routines computes from the remaining input. */
module TinyCParser {
  import opened Prelude
  import opened TinyCSyntax

  datatype Parsed<+T> = SyntaxError | Ok(tree: T, rest: seq<Token>)

  function ParseTerm(ts: seq<Token>): (p: Parsed<Expr>)
    ensures p.Ok? ==> |p.rest| < |ts|
    decreases |ts|, 1
  {
    if ts != [] && ts[0].Id? then Ok(Var(ts[0].name), ts[1..])
    else if ts != [] && ts[0].Int? then Ok(Cst(ts[0].val), ts[1..])
    else ParseParen(ts)
  }

  function ParseSum(ts: seq<Token>): (p: Parsed<Expr>)
    ensures p.Ok? ==> |p.rest| < |ts|
    decreases |ts|, 2
  {
    match ParseTerm(ts)
    case SyntaxError => SyntaxError
    case Ok(x, rest) => SumLoop(x, rest)
  }

  function SumLoop(x: Expr, ts: seq<Token>): (p: Parsed<Expr>)
    ensures p.Ok? ==> |p.rest| <= |ts|
    decreases |ts|, 2
  {
    if At(ts, Plus) || At(ts, Minus) then
      match ParseTerm(ts[1..])
      case SyntaxError => SyntaxError
      case Ok(y, rest) => SumLoop(if ts[0] == Plus then Add(x, y) else Sub(x, y), rest)
    else Ok(x, ts)
  }

  function ParseTest(ts: seq<Token>): (p: Parsed<Expr>)
    ensures p.Ok? ==> |p.rest| < |ts|
    decreases |ts|, 3
  {
    match ParseSum(ts)
    case SyntaxError => SyntaxError
    case Ok(x, rest) =>
      if At(rest, Less) then
        match ParseSum(rest[1..])
        case SyntaxError => SyntaxError
        case Ok(y, rest') => Ok(Lt(x, y), rest')
      else Ok(x, rest)
  }

  function ParseExpr(ts: seq<Token>): (p: Parsed<Expr>)
    ensures p.Ok? ==> |p.rest| < |ts|
    decreases |ts|, 4
  {
    if ts == [] || !ts[0].Id? then ParseTest(ts)
    else
      match ParseTest(ts)
      case SyntaxError => SyntaxError
      case Ok(x, rest) =>
        if x.Var? && At(rest, Equal) then
          match ParseExpr(rest[1..])
          case SyntaxError => SyntaxError
          case Ok(e, rest') => Ok(Set(x.x, e), rest')
        else Ok(x, rest)
  }

  function ParseParen(ts: seq<Token>): (p: Parsed<Expr>)
    ensures p.Ok? ==> |p.rest| < |ts|
    decreases |ts|, 0
  {
    if !At(ts, LPar) then SyntaxError
    else
      match ParseExpr(ts[1..])
      case SyntaxError => SyntaxError
      case Ok(x, rest) => if At(rest, RPar) then Ok(x, rest[1..]) else SyntaxError
  }

  function ParseStmt(ts: seq<Token>): (p: Parsed<Stmt>)
    ensures p.Ok? ==> |p.rest| < |ts|
    decreases |ts|, 5
  {
    if At(ts, IfSym) then
      match ParseParen(ts[1..])
      case SyntaxError => SyntaxError
      case Ok(c, r1) =>
        match ParseStmt(r1)
        case SyntaxError => SyntaxError
        case Ok(s, r2) =>
          if At(r2, ElseSym) then
            match ParseStmt(r2[1..])
            case SyntaxError => SyntaxError
            case Ok(t, r3) => Ok(If2(c, s, t), r3)
          else Ok(If1(c, s), r2)
    else if At(ts, WhileSym) then
      match ParseParen(ts[1..])
      case SyntaxError => SyntaxError
      case Ok(c, r1) =>
        match ParseStmt(r1)
        case SyntaxError => SyntaxError
        case Ok(s, r2) => Ok(While(c, s), r2)
    else if At(ts, DoSym) then
      match ParseStmt(ts[1..])
      case SyntaxError => SyntaxError
      case Ok(s, r1) =>
        if !At(r1, WhileSym) then SyntaxError
        else
          match ParseParen(r1[1..])
          case SyntaxError => SyntaxError
          case Ok(c, r2) => if At(r2, Semi) then Ok(Do(s, c), r2[1..]) else SyntaxError
    else if At(ts, Semi) then Ok(Empty, ts[1..])
    else if At(ts, LBra) then BlockLoop(Empty, ts[1..])
    else
      match ParseExpr(ts)
      case SyntaxError => SyntaxError
      case Ok(e, rest) => if At(rest, Semi) then Ok(ExprStmt(e), rest[1..]) else SyntaxError
  }

  function BlockLoop(x: Stmt, ts: seq<Token>): (p: Parsed<Stmt>)
    ensures p.Ok? ==> |p.rest| < |ts|
    decreases |ts|, 6
  {
    if At(ts, RBra) then Ok(x, ts[1..])
    else
      match ParseStmt(ts)
      case SyntaxError => SyntaxError
      case Ok(s, rest) => BlockLoop(Seq(x, s), rest)
  }

  /** The tree of the whole input; nothing may follow the statement. */
  function ParseProgram(ts: seq<Token>): Option<Stmt> {
    match ParseStmt(ts)
    case SyntaxError => None
    case Ok(s, rest) => if rest == [] then Some(s) else None
  }

  /** A routine's result and the input it leaves, against the function that specifies it;
      nothing is said about the input left by a syntax error, which ends the program. */
  predicate Agrees<T(==)>(r: Option<T>, rest: seq<Token>, p: Parsed<T>) {
    match p
    case SyntaxError => r.None?
    case Ok(tree, rest') => r == Some(tree) && rest == rest'
  }

  /** The parser: input[0] is the current symbol, and the empty input is end of input. */
  class Parser {
    var input: seq<Token>

    constructor (ts: seq<Token>)
      ensures input == ts
    {
      input := ts;
    }

    method NextSym()
      modifies this
      ensures input == if old(input) == [] then [] else old(input)[1..]
    {
      if input != [] { input := input[1..]; }
    }

    method Term() returns (r: Option<Expr>)
      modifies this
      ensures Agrees(r, input, ParseTerm(old(input)))
      decreases |input|, 1
    {
      if input != [] && input[0].Id? {
        r := Some(Var(input[0].name));
        NextSym();
      } else if input != [] && input[0].Int? {
        r := Some(Cst(input[0].val));
        NextSym();
      } else {
        r := ParenExpr();
      }
    }

    method Sum() returns (r: Option<Expr>)
      modifies this
      ensures Agrees(r, input, ParseSum(old(input)))
      decreases |input|, 2
    {
      ghost var start := input;
      r := Term();
      if r.None? { return; }
      while At(input, Plus) || At(input, Minus)
        invariant r.Some? && |input| < |start|
        invariant ParseSum(start) == SumLoop(r.value, input)
        decreases |input|
      {
        var t := r.value;
        var plus := input[0] == Plus;
        NextSym();
        r := Term();
        if r.None? { return; }
        r := Some(if plus then Add(t, r.value) else Sub(t, r.value));
      }
    }

    method Test() returns (r: Option<Expr>)
      modifies this
      ensures Agrees(r, input, ParseTest(old(input)))
      decreases |input|, 3
    {
      r := Sum();
      if r.Some? && At(input, Less) {
        var t := r.value;
        NextSym();
        r := Sum();
        if r.Some? { r := Some(Lt(t, r.value)); }
      }
    }

    method Expression() returns (r: Option<Expr>)
      modifies this
      ensures Agrees(r, input, ParseExpr(old(input)))
      decreases |input|, 4
    {
      if input == [] || !input[0].Id? {
        r := Test();
        return;
      }
      r := Test();
      if r.Some? && r.value.Var? && At(input, Equal) {
        var t := r.value;
        NextSym();
        r := Expression();
        if r.Some? { r := Some(Set(t.x, r.value)); }
      }
    }

    method ParenExpr() returns (r: Option<Expr>)
      modifies this
      ensures Agrees(r, input, ParseParen(old(input)))
      decreases |input|, 0
    {
      if !At(input, LPar) { return None; }
      NextSym();
      r := Expression();
      if r.None? || !At(input, RPar) { return None; }
      NextSym();
    }

    method Statement() returns (r: Option<Stmt>)
      modifies this
      ensures Agrees(r, input, ParseStmt(old(input)))
      decreases |input|, 5
    {
      if At(input, IfSym) {
        r := IfStatement();
      } else if At(input, WhileSym) {
        NextSym();
        var c := ParenExpr();
        if c.None? { return None; }
        var s := Statement();
        if s.None? { return None; }
        r := Some(While(c.value, s.value));
      } else if At(input, DoSym) {
        NextSym();
        var s := Statement();
        if s.None? || !At(input, WhileSym) { return None; }
        NextSym();
        var c := ParenExpr();
        if c.None? || !At(input, Semi) { return None; }
        NextSym();
        r := Some(Do(s.value, c.value));
      } else if At(input, Semi) {
        r := Some(Empty);
        NextSym();
      } else if At(input, LBra) {
        r := Block();
      } else {
        var e := Expression();
        if e.None? || !At(input, Semi) { return None; }
        NextSym();
        r := Some(ExprStmt(e.value));
      }
    }

    /** The "if" case of the statement routine; the else goes to the "if" just parsed. */
    method IfStatement() returns (r: Option<Stmt>)
      requires At(input, IfSym)
      modifies this
      ensures Agrees(r, input, ParseStmt(old(input)))
      decreases |input|, 0
    {
      NextSym();
      var c := ParenExpr();
      if c.None? { return None; }
      var s := Statement();
      if s.None? { return None; }
      r := Some(If1(c.value, s.value));
      if At(input, ElseSym) {
        NextSym();
        var t := Statement();
        if t.None? { return None; }
        r := Some(If2(c.value, s.value, t.value));
      }
    }

    /** The "{" case of the statement routine. */
    method Block() returns (r: Option<Stmt>)
      requires At(input, LBra)
      modifies this
      ensures Agrees(r, input, ParseStmt(old(input)))
      decreases |input|, 0
    {
      ghost var start := input;
      r := Some(Empty);
      NextSym();
      while !At(input, RBra)
        invariant r.Some? && |input| < |start|
        invariant ParseStmt(start) == BlockLoop(r.value, input)
        decreases |input|
      {
        var t := r.value;
        var s := Statement();
        if s.None? { return None; }
        r := Some(Seq(t, s.value));
      }
      NextSym();
    }

    method Program() returns (r: Option<Stmt>)
      modifies this
      ensures r == ParseProgram(old(input))
    {
      r := Statement();
      if r.Some? && input != [] { r := None; }
    }
  }
}
