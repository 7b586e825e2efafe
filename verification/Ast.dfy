/** GrokLang syntax trees (internal/ast/ast.go), without source positions. */
module Ast {
  import opened Bytecode

  datatype Option<+T> = None | Some(value: T)

  datatype Literal = LNull | LBool(b: bool) | LInt(i: I64) | LFloat(bits: U64) | LStr(s: Text)

  datatype UnOp = Bang | Neg | Tilde

  datatype BinOp =
    | OrOr | AndAnd | BitOr | BitXor | BitAnd | EqEq | NotEq | Lt | Le | Gt | Ge
    | Shl | Shr | Plus | Minus | Star | Slash | Percent

  datatype Entry = Entry(key: Expr, val: Expr)

  datatype Expr =
    | Lit(lit: Literal)
    | Ident(name: Text)
    | Unary(uop: UnOp, x: Expr)
    | Binary(op: BinOp, left: Expr, right: Expr)
    | Ternary(cond: Expr, thn: Expr, els: Expr)
    | Call(fun: Expr, args: seq<Expr>)
    | Index(obj: Expr, idx: Expr)
    | Field(obj: Expr, field: Text)
    | ArrayLit(elts: seq<Expr>)
    | MapLit(entries: seq<Entry>)

  datatype Default = NoDefault | Default(body: seq<Stmt>)

  datatype Case = Case(values: seq<Expr>, body: seq<Stmt>)

  datatype Stmt =
    | Block(stmts: seq<Stmt>)
    | Let(name: Text, init: Expr)
    | Assign(target: Expr, rhs: Expr)
    | ExprStmt(e: Expr)
    | Return(result: Option<Expr>)
    | If(cond: Expr, thn: seq<Stmt>, els: Option<Stmt>)
    | While(cond: Expr, body: seq<Stmt>)
    | Break
    | Continue
    | Switch(tag: Expr, cases: seq<Case>, default: Default)
    | Try(body: seq<Stmt>, errName: Text, handler: seq<Stmt>)
    | Throw(e: Expr)

  datatype FuncDecl = FuncDecl(name: Text, params: seq<Text>, body: seq<Stmt>)

  /** The index a function name stands for: the last declaration of that name, |funcs| when there is none. */
  function FuncIndex(funcs: seq<FuncDecl>, name: Text): (ix: nat)
    ensures ix <= |funcs|
    ensures ix < |funcs| ==> funcs[ix].name == name
    decreases |funcs|
  {
    if funcs == [] then 0
    else if funcs[|funcs| - 1].name == name then |funcs| - 1
    else
      var ix := FuncIndex(funcs[..|funcs| - 1], name);
      if ix == |funcs| - 1 then |funcs| else ix
  }
}
