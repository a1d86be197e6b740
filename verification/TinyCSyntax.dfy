/** Tokens and abstract syntax of Tiny-C (src/bin/paradigms/tiny_c/tinyc.c).

    The lexer is outside the model: a program is the sequence of tokens before end of
    input, and the end-of-input symbol is "no token left". */
module TinyCSyntax {
  import opened Prelude

  /** One of the 26 predefined variables, as the offset from 'a'. */
  type Letter = x: int | 0 <= x < 26

  datatype Token =
    | DoSym | ElseSym | IfSym | WhileSym
    | LBra | RBra | LPar | RPar
    | Plus | Minus | Less | Semi | Equal
    | Int(val: nat) | Id(name: Letter)

  /** Nodes of kind VAR .. SET. The target of SET is always a VAR node, so it is kept as a letter. */
  datatype Expr =
    | Var(x: Letter)
    | Cst(val: nat)
    | Add(a: Expr, b: Expr)
    | Sub(a: Expr, b: Expr)
    | Lt(a: Expr, b: Expr)
    | Set(x: Letter, e: Expr)

  /** Nodes of kind IF1 .. EXPR. */
  datatype Stmt =
    | If1(c: Expr, s: Stmt)
    | If2(c: Expr, s: Stmt, t: Stmt)
    | While(c: Expr, s: Stmt)
    | Do(s: Stmt, c: Expr)
    | Empty
    | Seq(s: Stmt, t: Stmt)
    | ExprStmt(e: Expr)

  /** The current symbol is tok. */
  predicate At(ts: seq<Token>, tok: Token) {
    ts != [] && ts[0] == tok
  }
}
