/**
 What a GrokLang program means, independently of registers and jumps: a big-step interpreter over the syntax tree.
 `fuel` bounds the depth of calls, loop iterations and native callbacks; running out of it is Timeout, with the world so
 far.
 Primitive operations and natives are the environment of the machine, asked in the order of evaluation.
 */
module Semantics {
  import opened Bytecode
  import opened Ast
  import opened Vm

  datatype Binding = Binding(name: Text, v: Value)

  /** Innermost binding last. */
  type Scope = seq<Binding>

  datatype World = World(globals: map<Text, Value>, trace: Trace)

  datatype Result = Val(v: Value, w: World) | Fails(msg: Text, w: World) | Timeout(w: World)

  datatype ListResult = Vals(vs: seq<Value>, w: World) | ListFails(msg: Text, w: World) | ListTimeout(w: World)

  datatype Signal = Next | Brk | Cont | Ret(v: Value) | Thrown(msg: Text)

  datatype Effect = Done(sig: Signal, env: Scope, w: World) | Stuck(w: World)

  datatype Prog = Prog(funcs: seq<FuncDecl>, env: Env)

  /** The position of the innermost binding of a name, -1 if there is none. */
  function Position(E: Scope, name: Text): (i: int)
    ensures -1 <= i < |E|
    ensures i >= 0 ==> E[i].name == name
    decreases |E|
  {
    if E == [] then -1
    else if E[|E| - 1].name == name then |E| - 1
    else Position(E[..|E| - 1], name)
  }

  function LitValue(lit: Literal): Value {
    match lit
    case LNull => Null
    case LBool(b) => Bool(b)
    case LInt(i) => Int(i)
    case LFloat(bits) => Pooled(CFloat(bits))
    case LStr(s) => Str(s)
  }

  function Ask(P: Prog, op: Byte, operands: seq<Value>, w: World): Result {
    var e := Prim(op, operands);
    var w1 := w.(trace := w.trace + [e]);
    match P.env.prim(w.trace, e)
    case Ok(v) => Val(v, w1)
    case Err(msg) => Fails(msg, w1)
  }

  function NameValue(P: Prog, E: Scope, name: Text, w: World): Value {
    var i := Position(E, name);
    if i >= 0 then E[i].v
    else if FuncIndex(P.funcs, name) < |P.funcs| then Func(FuncIndex(P.funcs, name), NoUpvals)
    else if name in w.globals then w.globals[name] else Null
  }

  /** What the operators of the language stand for, as operations of the environment. */
  function UnOperation(op: UnOp): Byte {
    match op
    case Neg => NEG     // -x
    case Tilde => NOT   // ~x, bit by bit
    case Bang => LNOT   // !x
  }

  /** Those that evaluate both operands. */
  function BinOperation(op: BinOp): Byte
    requires op != AndAnd && op != OrOr
  {
    match op
    case EqEq => EQ      // x == y
    case NotEq => NE     // x != y
    case Lt => LT        // x < y
    case Gt => GT        // x > y
    case Le => LE        // x <= y
    case Ge => GE        // x >= y
    case Plus => ADD     // x + y
    case Minus => SUB    // x - y
    case Star => MUL     // x * y
    case Slash => DIV    // x / y
    case Percent => MOD  // x % y
    case BitAnd => AND   // x & y
    case BitOr => OR     // x | y
    case BitXor => XOR   // x ^ y
    case Shl => SHL      // x << y
    case Shr => SHR      // x >> y
  }

  /** The entry of a map under a name, null for anything but a map. */
  function GetField(P: Prog, v: Value, name: Text, w: World): Result { Ask(P, GETK, [v, Str(name)], w) }

  function SetField(P: Prog, v: Value, name: Text, x: Value, w: World): Result { Ask(P, SETK, [v, Str(name), x], w) }

  function Eval(P: Prog, E: Scope, e: Expr, w: World, fuel: nat): Result
    decreases fuel, 1, e, 1
  {
    match e
    case Lit(lit) => Val(LitValue(lit), w)
    case Ident(name) => Val(NameValue(P, E, name, w), w)
    case Unary(op, x) =>
      (match Eval(P, E, x, w, fuel)
       case Val(v, w1) => Ask(P, UnOperation(op), [v], w1)
       case r => r)
    case Binary(op, l, r) =>
      (match Eval(P, E, l, w, fuel)
       case Val(v, w1) =>
         if op == AndAnd || op == OrOr then
           if Truthy(P.env, w1.trace, v) == (op == OrOr) then Val(v, w1) else Eval(P, E, r, w1, fuel)
         else
           (match Eval(P, E, r, w1, fuel)
            case Val(u, w2) => Ask(P, BinOperation(op), [v, u], w2)
            case x => x)
       case x => x)
    case Ternary(c, t, f) =>
      (match Eval(P, E, c, w, fuel)
       case Val(v, w1) => if Truthy(P.env, w1.trace, v) then Eval(P, E, t, w1, fuel) else Eval(P, E, f, w1, fuel)
       case r => r)
    case Call(f, args) =>
      (match Eval(P, E, f, w, fuel)
       case Val(fv, w1) =>
         (match EvalList(P, E, args, w1, fuel)
          case Vals(vs, w2) => Apply(P, fv, vs, w2, fuel)
          case ListFails(msg, w2) => Fails(msg, w2)
          case ListTimeout(w2) => Timeout(w2))
       case r => r)
    case Index(x, i) =>
      (match Eval(P, E, x, w, fuel)
       case Val(v, w1) =>
         (match Eval(P, E, i, w1, fuel)
          case Val(u, w2) => Ask(P, GETI, [v, u], w2)
          case r => r)
       case r => r)
    case Field(x, name) =>
      (match Eval(P, E, x, w, fuel)
       case Val(v, w1) => GetField(P, v, name, w1)
       case r => r)
    case ArrayLit(es) =>
      (match EvalList(P, E, es, w, fuel)
       case Vals(vs, w1) => Ask(P, NEWARR, vs, w1)
       case ListFails(msg, w1) => Fails(msg, w1)
       case ListTimeout(w2) => Timeout(w2))
    case MapLit(entries) =>
      (match Ask(P, NEWMAP, [], w)
       case Val(m, w1) => EvalEntries(P, E, entries, m, w1, fuel)
       case r => r)
  }

  function EvalList(P: Prog, E: Scope, es: seq<Expr>, w: World, fuel: nat): ListResult
    decreases fuel, 1, es, 0
  {
    if es == [] then Vals([], w) else
    match Eval(P, E, es[0], w, fuel)
    case Val(v, w1) =>
      (match EvalList(P, E, es[1..], w1, fuel)
       case Vals(vs, w2) => Vals([v] + vs, w2)
       case r => r)
    case Fails(msg, w1) => ListFails(msg, w1)
    case Timeout(w1) => ListTimeout(w1)
  }

  function EvalEntries(P: Prog, E: Scope, entries: seq<Entry>, m: Value, w: World, fuel: nat): Result
    decreases fuel, 1, entries, 0
  {
    if entries == [] then Val(m, w) else
    match EvalEntry(P, E, entries[0], m, w, fuel)
    case Val(m1, w1) => EvalEntries(P, E, entries[1..], m1, w1, fuel)
    case r => r
  }

  function EvalEntry(P: Prog, E: Scope, en: Entry, m: Value, w: World, fuel: nat): Result
    decreases fuel, 1, en, 1
  {
    if en.key.Lit? && en.key.lit.LStr? then
      match Eval(P, E, en.val, w, fuel)
      case Val(v, w1) => SetField(P, m, en.key.lit.s, v, w1)
      case r => r
    else
      match Eval(P, E, en.key, w, fuel)
      case Val(k, w1) =>
        (match Eval(P, E, en.val, w1, fuel)
         case Val(v, w2) => Ask(P, SETI, [m, k, v], w2)
         case r => r)
      case r => r
  }

  function Apply(P: Prog, f: Value, args: seq<Value>, w: World, fuel: nat): Result
    decreases fuel, 0, 1
  {
    match f
    case Native(id) => RunNative(P, id, args, [], w, fuel)
    case Func(ix, _) =>
      if ix >= |P.funcs| then Fails(Ascii("nil func"), w)
      else if fuel == 0 then Timeout(w)
      else CallFunc(P, ix, args, w, fuel - 1)
    case v => Fails(Ascii("cannot call ") + TypeName(v), w)
  }

  /** A native runs, calling back into the program as often as it likes. */
  function RunNative(P: Prog, id: nat, args: seq<Value>, answers: seq<Outcome>, w: World, fuel: nat): Result
    decreases fuel, 0, 0
  {
    var e := CallNative(id, args, answers);
    var w1 := w.(trace := w.trace + [e]);
    match P.env.native(w.trace, e)
    case Return(v) => Val(v, w1)
    case Fail(msg) => Fails(msg, w1)
    case CallBack(ix, _, cargs) =>
      if fuel == 0 then Timeout(w1) else Resume(P, id, args, answers, CallBackResult(P, ix, cargs, w1, fuel - 1),
        fuel - 1)
  }

  function CallBackResult(P: Prog, ix: nat, cargs: seq<Value>, w: World, fuel: nat): Result
    decreases fuel, 3
  {
    if ix < |P.funcs| then CallFunc(P, ix, cargs, w, fuel) else Fails(Ascii("CallClosure: nil closure"), w)
  }

  /** The native goes on with the outcome of its callback. */
  function Resume(P: Prog, id: nat, args: seq<Value>, answers: seq<Outcome>, r: Result, fuel: nat): Result
    decreases fuel, 0, 1
  {
    match r
    case Val(v, w) => RunNative(P, id, args, answers + [Ok(v)], w, fuel)
    case Fails(msg, w) => RunNative(P, id, args, answers + [Err(msg)], w, fuel)
    case Timeout(w) => Timeout(w)
  }

  /** Parameters without an argument are null; arguments without a parameter are dropped. */
  function BindArgs(params: seq<Text>, args: seq<Value>): Scope {
    seq(|params|, i requires 0 <= i < |params| => Binding(params[i], if i < |args| then args[i] else Null))
  }

  function CallFunc(P: Prog, ix: nat, args: seq<Value>, w: World, fuel: nat): Result
    requires ix < |P.funcs|
    decreases fuel, 2
  {
    match ExecBlock(P, BindArgs(P.funcs[ix].params, args), P.funcs[ix].body, w, fuel)
    case Done(Ret(v), _, w1) => Val(v, w1)
    case Done(Thrown(msg), _, w1) => Fails(msg, w1)
    case Done(_, _, w1) => Val(Null, w1)
    case Stuck(w1) => Timeout(w1)
  }

  function Trunc(E: Scope, n: nat): Scope { if n <= |E| then E[..n] else E }

  /** Bindings made in a block end with it; assignments to outer names last. */
  function ExecBlock(P: Prog, E: Scope, ss: seq<Stmt>, w: World, fuel: nat): Effect
    decreases fuel, 1, ss, 1
  {
    match ExecStmts(P, E, ss, w, fuel)
    case Done(sig, E1, w1) => Done(sig, Trunc(E1, |E|), w1)
    case Stuck(w1) => Stuck(w1)
  }

  function ExecStmts(P: Prog, E: Scope, ss: seq<Stmt>, w: World, fuel: nat): Effect
    decreases fuel, 1, ss, 0
  {
    if ss == [] then Done(Next, E, w) else
    match ExecStmt(P, E, ss[0], w, fuel)
    case Done(Next, E1, w1) => ExecStmts(P, E1, ss[1..], w1, fuel)
    case r => r
  }

  /** An expression in a statement: continue with its value, or leave with its error. */
  function Leave(r: Result, E: Scope): Effect
    requires !r.Val?
  {
    if r.Fails? then Done(Thrown(r.msg), E, r.w) else Stuck(r.w)
  }

  function ExecStmt(P: Prog, E: Scope, s: Stmt, w: World, fuel: nat): Effect
    decreases fuel, 1, s, 2
  {
    match s
    case Block(ss) => ExecBlock(P, E, ss, w, fuel)
    case Let(name, e) =>
      var r := Eval(P, E, e, w, fuel);
      if r.Val? then Done(Next, E + [Binding(name, r.v)], r.w) else Leave(r, E)
    case Assign(_, _) => ExecAssign(P, E, s, w, fuel)
    case ExprStmt(e) =>
      var r := Eval(P, E, e, w, fuel);
      if r.Val? then Done(Next, E, r.w) else Leave(r, E)
    case Return(None) => Done(Ret(Null), E, w)
    case Return(Some(e)) =>
      var r := Eval(P, E, e, w, fuel);
      if r.Val? then Done(Ret(r.v), E, r.w) else Leave(r, E)
    case If(c, thn, els) =>
      var r := Eval(P, E, c, w, fuel);
      if !r.Val? then Leave(r, E)
      else if Truthy(P.env, r.w.trace, r.v) then ExecBlock(P, E, thn, r.w, fuel)
      else if els.Some? && (els.value.Block? || els.value.If?) then ExecStmt(P, E, els.value, r.w, fuel)
      else Done(Next, E, r.w)
    case While(_, _) => ExecWhile(P, E, s, w, fuel)
    case Break => Done(Brk, E, w)
    case Continue => Done(Cont, E, w)
    case Switch(tag, _, _) =>
      var r := Eval(P, E, tag, w, fuel);
      if r.Val? then ExecCases(P, E, s, 0, r.v, r.w, fuel) else Leave(r, E)
    case Try(body, errName, handler) =>
      (match ExecBlock(P, E, body, w, fuel)
       case Done(Thrown(msg), E1, w1) =>
         (match ExecBlock(P, E1 + [Binding(errName, Str(FirstLine(msg)))], handler, w1, fuel)
          case Done(sig, E2, w2) => Done(sig, Trunc(E2, |E|), w2)
          case Stuck(w2) => Stuck(w2))
       case r => r)
    case Throw(e) =>
      var r := Eval(P, E, e, w, fuel);
      if r.Val? then Done(Thrown(AsStr(P.env, r.w.trace, r.v)), E, r.w) else Leave(r, E)
  }

  function ExecWhile(P: Prog, E: Scope, s: Stmt, w: World, fuel: nat): Effect
    requires s.While?
    decreases fuel, 1, s, 1
  {
    var r := Eval(P, E, s.cond, w, fuel);
    if !r.Val? then Leave(r, E)
    else if !Truthy(P.env, r.w.trace, r.v) then Done(Next, E, r.w)
    else
      match ExecBlock(P, E, s.body, r.w, fuel)
      case Done(sig, E1, w1) =>
        if sig == Brk then Done(Next, E1, w1)
        else if sig == Next || sig == Cont then
          if fuel == 0 then Stuck(w1) else ExecWhile(P, E1, s, w1, fuel - 1)
        else Done(sig, E1, w1)
      case Stuck(w1) => Stuck(w1)
  }

  function ExecAssign(P: Prog, E: Scope, s: Stmt, w: World, fuel: nat): Effect
    requires s.Assign?
    decreases fuel, 1, s, 1
  {
    match s.target
    case Ident(name) =>
      var r := Eval(P, E, s.rhs, w, fuel);
      if !r.Val? then Leave(r, E) else
      var i := Position(E, name);
      if i >= 0 then Done(Next, E[i := Binding(name, r.v)], r.w)
      else Done(Next, E, r.w.(globals := r.w.globals[name := r.v]))
    case Index(x, i) =>
      var r := Eval(P, E, x, w, fuel);
      if !r.Val? then Leave(r, E) else
      var j := Eval(P, E, i, r.w, fuel);
      if !j.Val? then Leave(j, E) else
      var q := Eval(P, E, s.rhs, j.w, fuel);
      if !q.Val? then Leave(q, E) else
      var a := Ask(P, SETI, [r.v, j.v, q.v], q.w);
      if a.Val? then Done(Next, E, a.w) else Leave(a, E)
    case Field(x, name) =>
      var r := Eval(P, E, x, w, fuel);
      if !r.Val? then Leave(r, E) else
      var q := Eval(P, E, s.rhs, r.w, fuel);
      if !q.Val? then Leave(q, E) else
      var a := SetField(P, r.v, name, q.v, q.w);
      if a.Val? then Done(Next, E, a.w) else Leave(a, E)
    case _ => Done(Next, E, w)
  }

  /** The first case one of whose values equals the tag; every value of a tried case is evaluated. */
  function ExecCases(P: Prog, E: Scope, s: Stmt, i: nat, tag: Value, w: World, fuel: nat): Effect
    requires s.Switch? && i <= |s.cases|
    decreases fuel, 1, s, 1, |s.cases| - i
  {
    if i == |s.cases| then
      if s.default.Default? then ExecBlock(P, E, s.default.body, w, fuel) else Done(Next, E, w)
    else
      var r := EvalMatch(P, E, s.cases[i].values, tag, Bool(false), w, fuel);
      if !r.Val? then Leave(r, E)
      else if Truthy(P.env, r.w.trace, r.v) then ExecBlock(P, E, s.cases[i].body, r.w, fuel)
      else ExecCases(P, E, s, i + 1, tag, r.w, fuel)
  }

  function EvalMatch(P: Prog, E: Scope, values: seq<Expr>, tag: Value, m: Value, w: World, fuel: nat): Result
    decreases fuel, 1, values, 0
  {
    if values == [] then Val(m, w) else
    match Eval(P, E, values[0], w, fuel)
    case Val(v, w1) =>
      (match Ask(P, EQ, [tag, v], w1)
       case Val(eq, w2) => EvalMatch(P, E, values[1..], tag, if Truthy(P.env, w2.trace, m) then m else eq, w2, fuel)
       case r => r)
    case r => r
  }
}
