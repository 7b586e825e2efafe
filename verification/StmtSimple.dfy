/** Which programs the compiler translates faithfully, and the statements without statements inside. */
module StmtSimple {
  import opened Bytecode
  import opened Ast
  import opened Vm
  import opened Semantics
  import opened MachineSteps
  import opened Compiler
  import opened CompilerShape
  import opened StmtShape
  import opened ExprBase
  import opened ExprCorrect
  import opened StmtBase

  // ---- the programs the compiler translates faithfully ----

  /** `x = e` with x a local compiles e straight into x's register: e must not read x after writing it. */
  predicate SafeInto(e: Expr, x: Text) {
    match e
    case Binary(op, l, r) =>
      op == AndAnd || op == OrOr ==> SafeInto(l, x) && SafeInto(r, x) && (l == Ident(x) || x !in Mentions(r))
    case Ternary(_, t, f) => SafeInto(t, x) && SafeInto(f, x)
    case MapLit(entries) => x !in MentionsEntries(entries)
    case _ => true
  }

  /** The names a statement adds to its block. */
  function Declared(s: Stmt): set<Text> { if s.Let? then {s.name} else {} }

  /** No break or continue leaves a try body, and assignments to locals are safe; inside a try, they also write
      their local with the last instruction only. */
  predicate SafeStmt(s: Stmt, vars: set<Text>, brk: bool, inTry: bool)
    decreases s, 1
  {
    match s
    case Block(ss) => SafeStmts(ss, vars, brk, inTry)
    case Assign(Ident(x), e) => x in vars ==> SafeInto(e, x) && (inTry ==> Atomic(e))
    case If(_, thn, els) => SafeStmts(thn, vars, brk, inTry) && (els.Some? ==> SafeStmt(els.value, vars, brk, inTry))
    case While(_, body) => SafeStmts(body, vars, true, inTry)
    case Break => brk
    case Continue => brk
    case Switch(_, cases, default) =>
      SafeCases(cases, vars, brk, inTry) && (default.Default? ==> SafeStmts(default.body, vars, brk, inTry))
    case Try(body, name, handler) => SafeStmts(body, vars, false, true) && SafeStmts(handler, vars + {name}, brk, inTry)
    case _ => true
  }

  predicate SafeStmts(ss: seq<Stmt>, vars: set<Text>, brk: bool, inTry: bool)
    decreases ss, 0
  {
    ss == [] || (SafeStmt(ss[0], vars, brk, inTry) && SafeStmts(ss[1..], vars + Declared(ss[0]), brk, inTry))
  }

  predicate SafeCases(cases: seq<Case>, vars: set<Text>, brk: bool, inTry: bool)
    decreases cases, 0
  {
    cases == [] || (SafeStmts(cases[0].body, vars, brk, inTry) && SafeCases(cases[1..], vars, brk, inTry))
  }

  lemma {:induction false} SafeDest(locals: map<Text, Byte>, E: Scope, rs: seq<int>, e: Expr, x: Text)
    requires View(locals, E, rs) && Distinct(rs) && x in locals && SafeInto(e, x)
    ensures DestOk(locals, e, locals[x])
    decreases e
  {
    assert forall y :: y in locals && y != x ==> locals[y] != locals[x] by {
      forall y | y in locals && y != x
        ensures locals[y] != locals[x]
      {
        assert Position(E, y) != Position(E, x);
      }
    }
    match e
    case Binary(op, l, r) =>
      if op == AndAnd || op == OrOr {
        SafeDest(locals, E, rs, l, x);
        SafeDest(locals, E, rs, r, x);
      }
    case Ternary(_, t, f) =>
      SafeDest(locals, E, rs, t, x);
      SafeDest(locals, E, rs, f, x);
    case _ =>
  }

  // ---- glue ----

  lemma SFail(X: Site, s: State, ip: int, ct: int, keep: set<int>, E: Scope, rs: seq<int>, regs: Regs, r: Result,
    fuel: nat, n: nat, regs1: Regs)
    requires Failed(X.J, s, X.k, Live(keep, rs), regs, r, fuel, n, regs1) && Bound(E, rs, regs) && !r.Val?
    ensures SEnds(X, s, ip, ct, keep, E, rs, regs, Leave(r, E), fuel, n, regs1, rs)
  {
    hide Goes;
    hide Lives;
    GrownSelf(E);
    if r.Fails? {
      SameBound(E, rs, regs, keep, regs1);
    }
  }

  lemma SNext(X: Site, s: State, ip: int, ct: int, keep: set<int>, E: Scope, rs: seq<int>, regs: Regs, E': Scope,
    w': World, fuel: nat, n: nat, regs': Regs, rs': seq<int>)
    requires Goes(X.J, s, n, At(X.k, ip, regs', w')) && Grown(E, E') && rs <= rs' && Bound(E', rs', regs')
      && Same(keep, regs, regs')
    ensures SEnds(X, s, ip, ct, keep, E, rs, regs, Done(Next, E', w'), fuel, n, regs', rs')
  {
  }

  /** A statement that changes no binding. */
  lemma SNextSame(X: Site, s: State, ip: int, ct: int, keep: set<int>, E: Scope, rs: seq<int>, regs: Regs, w': World,
    fuel: nat, n: nat, regs': Regs, st: CS, st': CS)
    requires Goes(X.J, s, n, At(X.k, ip, regs', w')) && Same(Live(keep, rs), regs, regs')
    requires Ready(st, E, rs, regs, keep) && Shape(st, st') && Fine(st')
    ensures SEnds(X, s, ip, ct, keep, E, rs, regs, Done(Next, E, w'), fuel, n, regs', rs)
    ensures Ready(st', E, rs, regs', keep)
  {
    GrownSelf(E);
    SameBound(E, rs, regs, keep, regs');
    assert Inv(st') && Keeps(st, st');
    hide Inv;
    hide Keeps;
    ReadyAgain(st, E, rs, regs, keep, st', E, regs');
  }

  lemma PlacedFine(X: Site, st: CS, st': CS)
    requires Placed(X, st, st')
    ensures Fine(st') && JobOk(X.J) && |st.code| <= |st'.code| < 0x8000 && 0 <= X.bk < 0x8000
      && 0 <= ContOf(st) < 0x8000
  {
  }

  lemma ReadyBound(st: CS, E: Scope, rs: seq<int>, regs: Regs, keep: set<int>)
    requires Ready(st, E, rs, regs, keep)
    ensures Bound(E, rs, regs) && |rs| == |E| && Inv(st)
  {
  }

  lemma ReachGoes(J: Job, s: State, n: nat, k: Ctl, ip: int, live: set<int>, regs0: Regs, regs: Regs, w: World)
    requires Reached(J, s, n, k, ip, live, regs0, regs, w)
    ensures Goes(J, s, n, At(k, ip, regs, w)) && Same(live, regs0, regs)
  {
  }

  lemma PlacedAs(X: Site, st: CS, st': CS, st2: CS)
    requires Placed(X, st, st') && st2.code == st'.code && st2.loops == st'.loops && st2.pool == st'.pool && Fine(st2)
    ensures Placed(X, st, st2)
  {
    assert Breaks(st2) == Breaks(st');
    assert forall i :: NewBreak(st, st', i) == NewBreak(st, st2, i);
    hide Breaks;
    hide NewBreak;
    hide Leap;
  }

  // ---- let ----

  lemma LetCode(P: Prog, st: CS, s: Stmt, E: Scope, w: World, fuel: nat)
    requires s.Let?
    ensures var (st1, r) := Alloc(st);
      var st2 := CompileExpr(P.funcs, st1, s.init, r);
      && CompileStmt(P.funcs, st, s) == st2.(locals := st2.locals[s.name := r])
      && Shape(st, st2) && Grows(st1, st2)
    ensures var r := Eval(P, E, s.init, w, fuel);
      ExecStmt(P, E, s, w, fuel) == if r.Val? then Done(Next, E + [Binding(s.name, r.v)], r.w) else Leave(r, E)
  {
    hide Alloc;
    hide CompileExpr;
    hide Eval;
    var (st1, r) := Alloc(st);
    ShapeAlloc(st);
    ShapeExpr(P.funcs, st1, s.init, r);
    hide Shape;
    ShapeTrans(st, st1, CompileExpr(P.funcs, st1, s.init, r));
    assert Grows(st1, CompileExpr(P.funcs, st1, s.init, r)) by { assert Shape(st1,
      CompileExpr(P.funcs, st1, s.init, r)); ShapeIsGrows(st1, CompileExpr(P.funcs, st1, s.init, r)); }
  }

  lemma ShapeIsGrows(a: CS, b: CS)
    requires Shape(a, b)
    ensures Grows(a, b)
  {
  }

  lemma LetView(locals: map<Text, Byte>, E: Scope, rs: seq<int>, name: Text, v: Value, r: Byte)
    requires View(locals, E, rs)
    ensures View(locals[name := r], E + [Binding(name, v)], rs + [r as int])
  {
    var E' := E + [Binding(name, v)];
    assert E'[..|E|] == E;
    assert forall x: Text :: Position(E', x) == if x == name then |E| else Position(E, x);
  }

  lemma LetReady(X: Site, st: CS, st2: CS, E: Scope, rs: seq<int>, regs: Regs, keep: set<int>, name: Text, r: Byte,
    v: Value, regs1: Regs, names: set<Text>)
    requires Ready(st, E, rs, regs, keep) && Shape(st, st2) && Same(Live(keep, rs), regs, regs1)
    requires Base(X.J, X.k, st2, st2, E, regs1, Live(keep, rs) + {r as int}, names) && r !in Live(keep, rs)
      && Get(regs1, r) == v
    ensures var st' := st2.(locals := st2.locals[name := r]);
      var E' := E + [Binding(name, v)];
      Ready(st', E', rs + [r as int], regs1, keep) && Same(keep, regs, regs1)
  {
    var st' := st2.(locals := st2.locals[name := r]);
    var E' := E + [Binding(name, v)];
    var rs' := rs + [r as int];
    LetView(st.locals, E, rs, name, v, r);
    hide View;
    SameBound(E, rs, regs, keep, regs1);
    assert Held(st2, r) by { assert r as int in Live(keep, rs) + {r as int}; }
    assert forall q :: q in Live(keep, rs) ==> Held(st2, q);
    assert forall q :: Held(st', q) == Held(st2, q);
    assert forall q :: q in rs' ==> q in rs || q == r;
    hide Held;
    assert Inv(st');
    hide Inv;
    assert forall q :: q in rs ==> q in Live(keep, rs);
  }

  lemma GrownLet(E: Scope, b: Binding)
    ensures Grown(E, E + [b])
  {
  }

  lemma {:induction false} LetCorrect(X: Site, st: CS, s: Stmt, E: Scope, rs: seq<int>, regs: Regs, w: World,
    keep: set<int>, fuel: nat)
    returns (n: nat, regs': Regs, rs': seq<int>)
    requires s.Let? && Placed(X, st, CompileStmt(X.J.P.funcs, st, s)) && Ready(st, E, rs, regs, keep)
      && CallsOk(X.J, fuel)
    ensures var st' := CompileStmt(X.J.P.funcs, st, s);
      var eff := ExecStmt(X.J.P, E, s, w, fuel);
      && SEnds(X, At(X.k, |st.code|, regs, w), |st'.code|, ContOf(st), keep, E, rs, regs, eff, fuel, n, regs', rs')
      && (eff.Done? && eff.sig == Next ==> Ready(st', eff.env, rs', regs', keep))
  {
    hide *;
    var P := X.J.P;
    var st' := CompileStmt(P.funcs, st, s);
    var (st1, tmp) := Alloc(st);
    var st2 := CompileExpr(P.funcs, st1, s.init, tmp);
    var names := Mentions(s.init);
    var live := Live(keep, rs);
    var s0 := At(X.k, |st.code|, regs, w);
    LetCode(P, st, s, E, w, fuel);
    PlacedFine(X, st, st');
    FineAs(st', st2);
    PlacedAs(X, st, st', st2);
    ExprSetting(X, st, st2, E, rs, regs, keep, names);
    ReadyBound(st, E, rs, regs, keep);
    ReachStart(X.J, X.k, |st.code|, live, regs, w);
    GrowsSelf(st2);
    var r := Eval(P, E, s.init, w, fuel);
    n, regs' := Operand(X.J, X.k, st, st2, E, s0, 0, live, regs, regs, w, live, names, s.init, fuel);
    if r.Val? {
      rs' := rs + [tmp as int];
      ReachGoes(X.J, s0, n, X.k, |st2.code|, live, regs, regs', r.w);
      LetReady(X, st, st2, E, rs, regs, keep, s.name, tmp, r.v, regs', names);
      ReadyBound(st', E + [Binding(s.name, r.v)], rs', regs', keep);
      GrownLet(E, Binding(s.name, r.v));
      SNext(X, s0, |st'.code|, ContOf(st), keep, E, rs, regs, E + [Binding(s.name, r.v)], r.w, fuel, n, regs', rs');
    } else {
      rs' := rs;
      LeaveSig(r, E);
      SFail(X, s0, |st'.code|, ContOf(st), keep, E, rs, regs, r, fuel, n, regs');
    }
  }

  lemma FineAs(a: CS, b: CS)
    requires Fine(a) && b.errs == a.errs && b.peak == a.peak && b.keys == a.keys
    ensures Fine(b)
  {
  }

  lemma LeaveSig(r: Result, E: Scope)
    requires !r.Val?
    ensures Leave(r, E).Done? ==> Leave(r, E).sig != Next
  {
  }

  // ---- statements that use one value ----

  lemma UseCode(funcs: seq<FuncDecl>, st: CS, e: Expr, op: Byte)
    ensures var (st1, r) := Alloc(st);
      var st2 := CompileExpr(funcs, st1, e, r);
      var ins := MakeABC(op, r, 0, 0);
      var st' := Free(Emit(st2, ins), r);
      && Shape(st, st') && Grows(st1, st') && Grows(st2, st') && st'.code == st2.code + [ins] && |st.code| <= |st2.code|
      && ins.op == op && ins.a == r
  {
    hide CompileExpr;
    hide Alloc;
    var (st1, r) := Alloc(st);
    var st2 := CompileExpr(funcs, st1, e, r);
    var ins := MakeABC(op, r, 0, 0);
    ShapeExpr(funcs, st1, e, r);
    ShapeEmit(st2, ins);
    ShapeTrans(st1, st2, Emit(st2, ins));
    ShapeScoped(st, st1, r, Emit(st2, ins));
    ShapeAlloc(st);
    ShapeFree(Emit(st2, ins), r);
    hide Free;
    hide Inv;
    hide Keeps;
  }

  lemma ExprStmtCode(funcs: seq<FuncDecl>, st: CS, e: Expr)
    ensures var (st1, r) := Alloc(st);
      var st2 := CompileExpr(funcs, st1, e, r);
      var st' := CompileStmt(funcs, st, ExprStmt(e));
      && Shape(st, st') && Grows(st1, st') && Grows(st2, st') && st'.code == st2.code
  {
    hide CompileExpr;
    hide Alloc;
    var (st1, r) := Alloc(st);
    var st2 := CompileExpr(funcs, st1, e, r);
    assert CompileStmt(funcs, st, ExprStmt(e)) == Free(st2, r);
    hide CompileStmt;
    ShapeExpr(funcs, st1, e, r);
    ShapeScoped(st, st1, r, st2);
    ShapeAlloc(st);
    ShapeFree(st2, r);
    hide Free;
    hide Inv;
    hide Keeps;
  }

  lemma UseIs(P: Prog, st: CS, s: Stmt, E: Scope, w: World, fuel: nat)
    requires (s.Return? && s.result.Some?) || s.Throw?
    ensures var e := if s.Throw? then s.e else s.result.value;
      var op := if s.Throw? then THROW else RET;
      var (st1, r) := Alloc(st);
      CompileStmt(P.funcs, st, s) == Free(Emit(CompileExpr(P.funcs, st1, e, r), MakeABC(op, r, 0, 0)), r)
    ensures var e := if s.Throw? then s.e else s.result.value;
      var r := Eval(P, E, e, w, fuel);
      ExecStmt(P, E, s, w, fuel) ==
        if !r.Val? then Leave(r, E)
        else if s.Throw? then Done(Thrown(AsStr(P.env, r.w.trace, r.v)), E, r.w) else Done(Ret(r.v), E, r.w)
  {
    hide CompileExpr;
    hide Eval;
    hide Alloc;
    hide Free;
    hide AsStr;
  }

  lemma SRet(X: Site, s: State, ip: int, ct: int, keep: set<int>, E: Scope, rs: seq<int>, regs: Regs, v: Value,
    w': World, fuel: nat, n: nat, regs': Regs)
    requires n >= 1 && Goes(X.J, s, n, Returned(X.J, X.k, w', v))
    ensures SEnds(X, s, ip, ct, keep, E, rs, regs, Done(Ret(v), E, w'), fuel, n, regs', rs)
  {
    hide Goes;
    GrownSelf(E);
  }

  lemma SThrown(X: Site, s: State, ip: int, ct: int, keep: set<int>, E: Scope, rs: seq<int>, regs: Regs, msg: Text,
    w': World, fuel: nat, n: nat, regs': Regs)
    requires n >= 1 && Goes(X.J, s, n, Throwing(X.J, X.k, regs', w', msg)) && Same(Live(keep, rs), regs, regs')
      && Bound(E, rs, regs)
    ensures SEnds(X, s, ip, ct, keep, E, rs, regs, Done(Thrown(msg), E, w'), fuel, n, regs', rs)
  {
    hide Goes;
    GrownSelf(E);
    SameBound(E, rs, regs, keep, regs');
  }

  lemma {:induction false} UseCorrect(X: Site, st: CS, s: Stmt, E: Scope, rs: seq<int>, regs: Regs, w: World,
    keep: set<int>, fuel: nat)
    returns (n: nat, regs': Regs)
    requires (s.Return? && s.result.Some?) || s.Throw?
    requires Placed(X, st, CompileStmt(X.J.P.funcs, st, s)) && Ready(st, E, rs, regs, keep) && CallsOk(X.J, fuel)
    ensures var st' := CompileStmt(X.J.P.funcs, st, s);
      var eff := ExecStmt(X.J.P, E, s, w, fuel);
      && SEnds(X, At(X.k, |st.code|, regs, w), |st'.code|, ContOf(st), keep, E, rs, regs, eff, fuel, n, regs', rs)
      && (eff.Done? ==> eff.sig != Next)
  {
    hide *;
    var P := X.J.P;
    var st' := CompileStmt(P.funcs, st, s);
    var e := if s.Throw? then s.e else s.result.value;
    var op := if s.Throw? then THROW else RET;
    var (st1, tmp) := Alloc(st);
    var st2 := CompileExpr(P.funcs, st1, e, tmp);
    var ins := MakeABC(op, tmp, 0, 0);
    var live := Live(keep, rs);
    var s0 := At(X.k, |st.code|, regs, w);
    UseIs(P, st, s, E, w, fuel);
    UseCode(P.funcs, st, e, op);
    ExprSetting(X, st, st', E, rs, regs, keep, Mentions(e));
    BaseHosted(X.J, X.k, st, st', E, regs, live, Mentions(e));
    ReadyBound(st, E, rs, regs, keep);
    ReachStart(X.J, X.k, |st.code|, live, regs, w);
    var r := Eval(P, E, e, w, fuel);
    n, regs' := Operand(X.J, X.k, st, st', E, s0, 0, live, regs, regs, w, live, Mentions(e), e, fuel);
    if r.Val? {
      ReachGoes(X.J, s0, n, X.k, |st2.code|, live, regs, regs', r.w);
      FetchAt(X.J, X.k, st, st', |st2.code|, ins);
      if s.Throw? {
        StepThrow(X.J, X.k, |st2.code|, regs', r.w, ins);
        GoesTrans(X.J, s0, n, At(X.k, |st2.code|, regs', r.w), 1,
          Throwing(X.J, X.k, regs', r.w, AsStr(P.env, r.w.trace, r.v)));
        n := n + 1;
        SThrown(X, s0, |st'.code|, ContOf(st), keep, E, rs, regs, AsStr(P.env, r.w.trace, r.v), r.w, fuel, n, regs');
      } else {
        StepReturn(X.J, X.k, |st2.code|, regs', r.w, ins);
        GoesTrans(X.J, s0, n, At(X.k, |st2.code|, regs', r.w), 1, Returned(X.J, X.k, r.w, r.v));
        n := n + 1;
        SRet(X, s0, |st'.code|, ContOf(st), keep, E, rs, regs, r.v, r.w, fuel, n, regs');
      }
    } else {
      LeaveSig(r, E);
      SFail(X, s0, |st'.code|, ContOf(st), keep, E, rs, regs, r, fuel, n, regs');
    }
  }

  lemma ExprStmtIs(P: Prog, e: Expr, E: Scope, w: World, fuel: nat)
    ensures var r := Eval(P, E, e, w, fuel);
      ExecStmt(P, E, ExprStmt(e), w, fuel) == if r.Val? then Done(Next, E, r.w) else Leave(r, E)
  {
    hide Eval;
  }

  lemma {:induction false} ExprStmtCorrect(X: Site, st: CS, e: Expr, E: Scope, rs: seq<int>, regs: Regs, w: World,
    keep: set<int>, fuel: nat)
    returns (n: nat, regs': Regs)
    requires Placed(X, st, CompileStmt(X.J.P.funcs, st, ExprStmt(e))) && Ready(st, E, rs, regs, keep)
      && CallsOk(X.J, fuel)
    ensures var st' := CompileStmt(X.J.P.funcs, st, ExprStmt(e));
      var eff := ExecStmt(X.J.P, E, ExprStmt(e), w, fuel);
      && SEnds(X, At(X.k, |st.code|, regs, w), |st'.code|, ContOf(st), keep, E, rs, regs, eff, fuel, n, regs', rs)
      && (eff.Done? && eff.sig == Next ==> Ready(st', eff.env, rs, regs', keep))
  {
    hide *;
    var P := X.J.P;
    var st' := CompileStmt(P.funcs, st, ExprStmt(e));
    var (st1, tmp) := Alloc(st);
    var st2 := CompileExpr(P.funcs, st1, e, tmp);
    var live := Live(keep, rs);
    var s0 := At(X.k, |st.code|, regs, w);
    ExprStmtIs(P, e, E, w, fuel);
    ExprStmtCode(P.funcs, st, e);
    PlacedFine(X, st, st');
    ExprSetting(X, st, st', E, rs, regs, keep, Mentions(e));
    ReadyBound(st, E, rs, regs, keep);
    ReachStart(X.J, X.k, |st.code|, live, regs, w);
    var r := Eval(P, E, e, w, fuel);
    n, regs' := Operand(X.J, X.k, st, st', E, s0, 0, live, regs, regs, w, live, Mentions(e), e, fuel);
    if r.Val? {
      ReachGoes(X.J, s0, n, X.k, |st2.code|, live, regs, regs', r.w);
      SNextSame(X, s0, |st'.code|, ContOf(st), keep, E, rs, regs, r.w, fuel, n, regs', st, st');
    } else {
      LeaveSig(r, E);
      SFail(X, s0, |st'.code|, ContOf(st), keep, E, rs, regs, r, fuel, n, regs');
    }
  }

  lemma {:induction false} ReturnNoneCorrect(X: Site, st: CS, E: Scope, rs: seq<int>, regs: Regs, w: World,
    keep: set<int>, fuel: nat)
    returns (n: nat, regs': Regs)
    requires Placed(X, st, CompileStmt(X.J.P.funcs, st, Stmt.Return(None)))
    ensures var st' := CompileStmt(X.J.P.funcs, st, Stmt.Return(None));
      var eff := ExecStmt(X.J.P, E, Stmt.Return(None), w, fuel);
      && SEnds(X, At(X.k, |st.code|, regs, w), |st'.code|, ContOf(st), keep, E, rs, regs, eff, fuel, n, regs', rs)
      && (eff.Done? ==> eff.sig != Next)
  {
    var ins := MakeABC(RETN, 0, 0, 0);
    var st' := Emit(st, ins);
    assert CompileStmt(X.J.P.funcs, st, Stmt.Return(None)) == st';
    NoBreak(st, st', |st.code|);
    FetchPart(X, st, st', |st.code|);
    hide Placed;
    hide NewBreak;
    StepReturn(X.J, X.k, |st.code|, regs, w, ins);
    hide Goes;
    hide Returned;
    n, regs' := 1, regs;
    SRet(X, At(X.k, |st.code|, regs, w), |st'.code|, ContOf(st), keep, E, rs, regs, Null, w, fuel, n, regs');
  }

  // ---- break and continue ----

  lemma BreakFacts(st: CS)
    requires st.loops != []
    ensures |EmitBreak(st).code| == |st.code| + 1 && NewBreak(st, EmitBreak(st), |st.code|)
  {
    hide MakeAsBx;
    assert Breaks(EmitBreak(st)) == Breaks(st) + [|st.code|];
    assert Breaks(EmitBreak(st))[|Breaks(st)|] == |st.code|;
  }

  lemma InLoop(st: CS)
    requires Fine(EmitBreak(st)) || Fine(EmitContinue(st))
    ensures st.loops != []
  {
    hide MakeAsBx;
    hide ToI16;
  }

  lemma {:induction false} BreakCorrect(X: Site, st: CS, E: Scope, rs: seq<int>, regs: Regs, w: World, keep: set<int>,
    fuel: nat)
    returns (n: nat, regs': Regs)
    requires Placed(X, st, EmitBreak(st)) && Bound(E, rs, regs) && X.brk
    ensures SEnds(X, At(X.k, |st.code|, regs, w), |EmitBreak(st).code|, ContOf(st), keep, E, rs, regs, Done(Brk, E, w),
      fuel, n, regs', rs)
  {
    hide EmitBreak;
    hide NewBreak;
    PlacedFine(X, st, EmitBreak(st));
    InLoop(st);
    BreakFacts(st);
    FetchBreak(X, st, EmitBreak(st), |st.code|);
    hide Placed;
    LeapStep(X, |st.code|, X.bk, regs, w);
    hide Goes;
    n, regs' := 1, regs;
    GrownSelf(E);
  }

  lemma {:induction false} ContinueCorrect(X: Site, st: CS, E: Scope, rs: seq<int>, regs: Regs, w: World,
    keep: set<int>, fuel: nat)
    returns (n: nat, regs': Regs)
    requires Placed(X, st, EmitContinue(st)) && Bound(E, rs, regs) && X.brk
    ensures SEnds(X, At(X.k, |st.code|, regs, w), |EmitContinue(st).code|, ContOf(st), keep, E, rs, regs,
      Done(Cont, E, w), fuel, n, regs', rs)
  {
    var st' := EmitContinue(st);
    assert st.loops != [];
    assert st' == Emit(st, Leap(|st.code|, ContOf(st)));
    PlacedFine(X, st, st');
    NoBreak(st, st', |st.code|);
    FetchPart(X, st, st', |st.code|);
    hide Placed;
    hide EmitContinue;
    LeapStep(X, |st.code|, ContOf(st), regs, w);
    n, regs' := 1, regs;
    GrownSelf(E);
  }

  // ---- assignments ----

  lemma LocalIs(P: Prog, st: CS, s: Stmt, E: Scope, w: World, fuel: nat)
    requires s.Assign? && s.target.Ident? && s.target.name in st.locals && Position(E, s.target.name) >= 0
    ensures CompileAssign(P.funcs, st, s.target, s.rhs) == CompileExpr(P.funcs, st, s.rhs, st.locals[s.target.name])
    ensures var r := Eval(P, E, s.rhs, w, fuel);
      ExecAssign(P, E, s, w, fuel) ==
        if r.Val? then Done(Next, Store(E, s.target.name, r.v), r.w) else Leave(r, E)
  {
    hide CompileExpr;
    hide Eval;
  }

  /** The innermost binding of a name gets a new value. */
  function Store(E: Scope, name: Text, v: Value): Scope
    requires Position(E, name) >= 0
  {
    E[Position(E, name) := Binding(name, v)]
  }

  lemma StoreSpot(locals: map<Text, Byte>, E: Scope, rs: seq<int>, name: Text, v: Value)
    requires View(locals, E, rs) && name in locals && Position(E, name) >= 0
    ensures rs[Position(E, name)] == locals[name] && Grown(E, Store(E, name, v)) && |Store(E, name, v)| == |E|
  {
  }

  lemma StoreBound(st: CS, E: Scope, rs: seq<int>, regs: Regs, keep: set<int>, name: Text, v: Value, regs1: Regs)
    requires Ready(st, E, rs, regs, keep) && name in st.locals && Position(E, name) >= 0
    requires Same(Live(keep, rs) - {st.locals[name] as int}, regs, regs1) && Get(regs1, st.locals[name]) == v
    ensures Grown(E, Store(E, name, v)) && Bound(Store(E, name, v), rs, regs1) && Same(keep, regs, regs1)
  {
    hide Inv;
    hide Held;
    StoreSpot(st.locals, E, rs, name, v);
    LocalKept(st, E, rs, regs, keep, name);
    hide View;
    var i := Position(E, name);
    forall j | 0 <= j < |rs|
      ensures Get(regs1, rs[j]) == Store(E, name, v)[j].v
    {
      if j != i {
        assert rs[j] in Live(keep, rs) && rs[j] != rs[i];
      }
    }
    hide Get;
  }

  lemma LocalLive(st: CS, E: Scope, rs: seq<int>, regs: Regs, keep: set<int>, name: Text)
    requires Ready(st, E, rs, regs, keep) && name in st.locals
    ensures Position(E, name) >= 0 && st.locals[name] in Live(keep, rs) && View(st.locals, E, rs) && Distinct(rs)
  {
    hide Inv;
    hide Held;
  }

  lemma SAssigned(X: Site, s: State, ip: int, ip1: int, ct: int, keep: set<int>, E: Scope, rs: seq<int>, regs: Regs,
    dest: int, r: Result, fuel: nat, at: bool, n: nat, regs1: Regs)
    requires Ends(X.J, s, X.k, ip, dest, Live(keep, rs) - {dest}, regs, r, fuel, at, n, regs1) && !r.Val?
      && (X.inTry ==> at)
    requires Bound(E, rs, regs) && dest !in keep
    ensures SEnds(X, s, ip1, ct, keep, E, rs, regs, Leave(r, E), fuel, n, regs1, rs)
  {
    hide Goes;
    hide Lives;
    GrownSelf(E);
    assert forall j :: 0 <= j < |rs| ==> rs[j] in Live(keep, rs);
  }

  lemma LocalKept(st: CS, E: Scope, rs: seq<int>, regs: Regs, keep: set<int>, name: Text)
    requires Ready(st, E, rs, regs, keep) && name in st.locals
    ensures st.locals[name] as int !in keep
  {
    hide Inv;
    hide Held;
    assert rs[Position(E, name)] in rs;
  }

  lemma {:induction false} LocalAssignCorrect(X: Site, st: CS, s: Stmt, E: Scope, rs: seq<int>, regs: Regs, w: World,
    keep: set<int>, fuel: nat)
    returns (n: nat, regs': Regs)
    requires s.Assign? && s.target.Ident? && s.target.name in st.locals
    requires SafeInto(s.rhs, s.target.name) && (X.inTry ==> Atomic(s.rhs))
    requires Placed(X, st, CompileAssign(X.J.P.funcs, st, s.target, s.rhs)) && Ready(st, E, rs, regs, keep)
      && CallsOk(X.J, fuel)
    ensures var st' := CompileAssign(X.J.P.funcs, st, s.target, s.rhs);
      var eff := ExecAssign(X.J.P, E, s, w, fuel);
      && SEnds(X, At(X.k, |st.code|, regs, w), |st'.code|, ContOf(st), keep, E, rs, regs, eff, fuel, n, regs', rs)
      && (eff.Done? && eff.sig == Next ==> Ready(st', eff.env, rs, regs', keep))
  {
    hide *;
    var P := X.J.P;
    var name := s.target.name;
    var dest := st.locals[name];
    var st' := CompileAssign(P.funcs, st, s.target, s.rhs);
    var live := Live(keep, rs);
    var s0 := At(X.k, |st.code|, regs, w);
    LocalLive(st, E, rs, regs, keep, name);
    LocalKept(st, E, rs, regs, keep, name);
    LocalIs(P, st, s, E, w, fuel);
    SafeDest(st.locals, E, rs, s.rhs, name);
    ShapeExpr(P.funcs, st, s.rhs, dest);
    ExprSetting(X, st, st', E, rs, regs, keep, Mentions(s.rhs));
    ReadyBound(st, E, rs, regs, keep);
    var r := Eval(P, E, s.rhs, w, fuel);
    n, regs' := ExpressionCorrect(X.J, X.k, st, s.rhs, dest, E, regs, w, live, fuel);
    if r.Val? {
      EndsVal(X.J, s0, X.k, |st'.code|, dest, live - {dest}, regs, r, fuel, Atomic(s.rhs), n, regs');
      StoreBound(st, E, rs, regs, keep, name, r.v, regs');
      PlacedFine(X, st, st');
      ShapeReady(st, st', E, rs, regs, keep, Store(E, name, r.v), regs');
      SNext(X, s0, |st'.code|, ContOf(st), keep, E, rs, regs, Store(E, name, r.v), r.w, fuel, n, regs', rs);
    } else {
      LeaveSig(r, E);
      SAssigned(X, s0, |st'.code|, |st'.code|, ContOf(st), keep, E, rs, regs, dest, r, fuel, Atomic(s.rhs), n, regs');
    }
  }

  lemma ShapeReady(st: CS, st': CS, E: Scope, rs: seq<int>, regs: Regs, keep: set<int>, E': Scope, regs': Regs)
    requires Ready(st, E, rs, regs, keep) && Shape(st, st') && Fine(st') && Grown(E, E') && Bound(E', rs, regs')
    ensures Ready(st', E', rs, regs', keep) && rs <= rs
  {
    assert Inv(st') && Keeps(st, st');
    hide Inv;
    hide Keeps;
    ReadyAgain(st, E, rs, regs, keep, st', E', regs');
  }

  lemma GlobalAssignIs(P: Prog, st: CS, s: Stmt, E: Scope, w: World, fuel: nat)
    requires s.Assign? && s.target.Ident? && s.target.name !in st.locals && Position(E, s.target.name) < 0
    ensures var (st1, tmp) := Alloc(st);
      var st2 := CompileExpr(P.funcs, st1, s.rhs, tmp);
      var (st3, ki) := Intern(st2, CStr(s.target.name));
      CompileAssign(P.funcs, st, s.target, s.rhs) == Free(Emit(st3, MakeABx(STOREG, tmp, ki % 0x1_0000)), tmp)
    ensures var r := Eval(P, E, s.rhs, w, fuel);
      ExecAssign(P, E, s, w, fuel) ==
        if r.Val? then Done(Next, E, r.w.(globals := r.w.globals[s.target.name := r.v])) else Leave(r, E)
  {
    hide CompileExpr;
    hide Eval;
    hide Alloc;
    hide Free;
    hide MakeABx;
  }

  lemma GlobalAssignCode(funcs: seq<FuncDecl>, st: CS, name: Text, e: Expr)
    ensures var (st1, tmp) := Alloc(st);
      var st2 := CompileExpr(funcs, st1, e, tmp);
      var (st3, ki) := Intern(st2, CStr(name));
      var ins := MakeABx(STOREG, tmp, ki % 0x1_0000);
      var st' := Free(Emit(st3, ins), tmp);
      && Shape(st, st') && Grows(st1, st') && Grows(st2, st') && Grows(st3, st') && st'.code == st2.code + [ins]
      && |st'.code| == |st2.code| + 1 && |st.code| <= |st2.code|
      && ins.op == STOREG && ins.a == tmp && ins.Bx() == ki % 0x1_0000
  {
    hide CompileExpr;
    hide Alloc;
    hide MakeABx;
    var (st1, tmp) := Alloc(st);
    var st2 := CompileExpr(funcs, st1, e, tmp);
    var (st3, ki) := Intern(st2, CStr(name));
    assert st3.code == st2.code;
    ShapeIntern(st2, CStr(name));
    hide Intern;
    var ins := MakeABx(STOREG, tmp, ki % 0x1_0000);
    ShapeExpr(funcs, st1, e, tmp);
    ShapeEmit(st3, ins);
    ShapeTrans(st1, st2, st3);
    ShapeTrans(st1, st3, Emit(st3, ins));
    ShapeScoped(st, st1, tmp, Emit(st3, ins));
    ShapeAlloc(st);
    ShapeFree(Emit(st3, ins), tmp);
    hide Free;
    hide Inv;
    hide Keeps;
  }

  lemma NotLocalHere(st: CS, E: Scope, rs: seq<int>, regs: Regs, keep: set<int>, name: Text)
    requires Ready(st, E, rs, regs, keep) && name !in st.locals
    ensures Position(E, name) < 0
  {
    hide Inv;
    hide Held;
  }

  lemma {:induction false} GlobalAssignCorrect(X: Site, st: CS, s: Stmt, E: Scope, rs: seq<int>, regs: Regs, w: World,
    keep: set<int>, fuel: nat)
    returns (n: nat, regs': Regs)
    requires s.Assign? && s.target.Ident? && s.target.name !in st.locals
    requires Placed(X, st, CompileAssign(X.J.P.funcs, st, s.target, s.rhs)) && Ready(st, E, rs, regs, keep)
      && CallsOk(X.J, fuel)
    ensures var st' := CompileAssign(X.J.P.funcs, st, s.target, s.rhs);
      var eff := ExecAssign(X.J.P, E, s, w, fuel);
      && SEnds(X, At(X.k, |st.code|, regs, w), |st'.code|, ContOf(st), keep, E, rs, regs, eff, fuel, n, regs', rs)
      && (eff.Done? && eff.sig == Next ==> Ready(st', eff.env, rs, regs', keep))
  {
    hide *;
    var P := X.J.P;
    var name, e := s.target.name, s.rhs;
    var st' := CompileAssign(P.funcs, st, s.target, e);
    var (st1, tmp) := Alloc(st);
    var st2 := CompileExpr(P.funcs, st1, e, tmp);
    var (st3, ki) := Intern(st2, CStr(name));
    var ins := MakeABx(STOREG, tmp, ki % 0x1_0000);
    var live := Live(keep, rs);
    var s0 := At(X.k, |st.code|, regs, w);
    NotLocalHere(st, E, rs, regs, keep, name);
    GlobalAssignIs(P, st, s, E, w, fuel);
    GlobalAssignCode(P.funcs, st, name, e);
    PlacedFine(X, st, st');
    ExprSetting(X, st, st', E, rs, regs, keep, Mentions(e));
    BaseHosted(X.J, X.k, st, st', E, regs, live, Mentions(e));
    PoolFacts(X.J, X.k, st, st', E, regs, live, Mentions(e), st3);
    InternFacts(st2, CStr(name), X.J.ch.consts);
    ReadyBound(st, E, rs, regs, keep);
    ReachStart(X.J, X.k, |st.code|, live, regs, w);
    var r := Eval(P, E, e, w, fuel);
    n, regs' := Operand(X.J, X.k, st, st', E, s0, 0, live, regs, regs, w, live, Mentions(e), e, fuel);
    if r.Val? {
      ReachGoes(X.J, s0, n, X.k, |st2.code|, live, regs, regs', r.w);
      FetchAt(X.J, X.k, st, st', |st2.code|, ins);
      StepStoreG(X.J, X.k, |st2.code|, regs', r.w, ins, name);
      var w1 := r.w.(globals := r.w.globals[name := r.v]);
      GoesTrans(X.J, s0, n, At(X.k, |st2.code|, regs', r.w), 1, At(X.k, |st'.code|, regs', w1));
      n := n + 1;
      SNextSame(X, s0, |st'.code|, ContOf(st), keep, E, rs, regs, w1, fuel, n, regs', st, st');
    } else {
      LeaveSig(r, E);
      SFail(X, s0, |st'.code|, ContOf(st), keep, E, rs, regs, r, fuel, n, regs');
    }
  }

  lemma IndexAssignIs(P: Prog, st: CS, s: Stmt, E: Scope, w: World, fuel: nat)
    requires s.Assign? && s.target.Index?
    ensures var (st1, obj) := Alloc(st);
      var st2 := CompileExpr(P.funcs, st1, s.target.obj, obj);
      var (st3, idx) := Alloc(st2);
      var st4 := CompileExpr(P.funcs, st3, s.target.idx, idx);
      var (st5, val) := Alloc(st4);
      var st6 := CompileExpr(P.funcs, st5, s.rhs, val);
      CompileAssign(P.funcs, st, s.target, s.rhs) ==
        Free(Free(Free(Emit(st6, MakeABC(SETI, obj, idx, val)), obj), idx), val)
    ensures var r := Eval(P, E, s.target.obj, w, fuel);
      ExecAssign(P, E, s, w, fuel) ==
        if !r.Val? then Leave(r, E) else
        var j := Eval(P, E, s.target.idx, r.w, fuel);
        if !j.Val? then Leave(j, E) else
        var q := Eval(P, E, s.rhs, j.w, fuel);
        if !q.Val? then Leave(q, E) else
        var a := Ask(P, SETI, [r.v, j.v, q.v], q.w);
        if a.Val? then Done(Next, E, a.w) else Leave(a, E)
  {
    hide CompileExpr;
    hide Eval;
    hide Alloc;
    hide Free;
    hide Ask;
  }

  lemma IndexAssignCode(funcs: seq<FuncDecl>, st: CS, s: Stmt)
    requires s.Assign? && s.target.Index?
    ensures var (st1, obj) := Alloc(st);
      var st2 := CompileExpr(funcs, st1, s.target.obj, obj);
      var (st3, idx) := Alloc(st2);
      var st4 := CompileExpr(funcs, st3, s.target.idx, idx);
      var (st5, val) := Alloc(st4);
      var st6 := CompileExpr(funcs, st5, s.rhs, val);
      var ins := MakeABC(SETI, obj, idx, val);
      var st' := Free(Free(Free(Emit(st6, ins), obj), idx), val);
      && Shape(st, st') && Grows(st1, st') && Grows(st2, st') && Grows(st3, st') && Grows(st4, st') && Grows(st5, st')
        && Grows(st6, st')
      && st'.code == st6.code + [ins] && |st'.code| == |st6.code| + 1 && |st.code| <= |st6.code|
  {
    hide CompileExpr;
    hide Alloc;
    var (st1, obj) := Alloc(st);
    var st2 := CompileExpr(funcs, st1, s.target.obj, obj);
    var (st3, idx) := Alloc(st2);
    var st4 := CompileExpr(funcs, st3, s.target.idx, idx);
    var (st5, val) := Alloc(st4);
    var st6 := CompileExpr(funcs, st5, s.rhs, val);
    var ins := MakeABC(SETI, obj, idx, val);
    var st7 := Emit(st6, ins);
    ShapeExpr(funcs, st1, s.target.obj, obj);
    ShapeExpr(funcs, st3, s.target.idx, idx);
    ShapeExpr(funcs, st5, s.rhs, val);
    ShapeEmit(st6, ins);
    ShapeTrans(st5, st6, st7);
    ShapeScoped3(st, st1, obj, st2, st3, idx, st4, st5, val, st7);
    ShapeAlloc(st);
    ShapeAlloc(st2);
    ShapeAlloc(st4);
    ShapeFree(st7, obj);
    ShapeFree(Free(st7, obj), idx);
    ShapeFree(Free(Free(st7, obj), idx), val);
    hide Free;
    hide Inv;
    hide Keeps;
  }

  /** The last step of an assignment to an element or a field: its answer goes to a temporary. */
  lemma SStored(X: Site, s: State, ip: int, ct: int, keep: set<int>, E: Scope, rs: seq<int>, regs: Regs, obj: int,
    live1: set<int>, a: Result, fuel: nat, at: bool, n: nat, regs': Regs, st: CS, st': CS)
    requires Ends(X.J, s, X.k, ip, obj, live1, regs, a, fuel, at, n, regs') && Live(keep, rs) <= live1
    requires Ready(st, E, rs, regs, keep) && Shape(st, st') && Fine(st')
    ensures SEnds(X, s, ip, ct, keep, E, rs, regs, if a.Val? then Done(Next, E, a.w)
      else Leave(a, E), fuel, n, regs', rs)
    ensures a.Val? ==> Ready(st', E, rs, regs', keep)
  {
    ReadyBound(st, E, rs, regs, keep);
    if a.Val? {
      EndsVal(X.J, s, X.k, ip, obj, live1, regs, a, fuel, at, n, regs');
      hide Goes;
      hide Ready;
      hide Inv;
      hide Keeps;
      assert Same(Live(keep, rs), regs, regs');
      SNextSame(X, s, ip, ct, keep, E, rs, regs, a.w, fuel, n, regs', st, st');
    } else {
      hide Goes;
      hide Lives;
      hide Ready;
      assert Failed(X.J, s, X.k, Live(keep, rs), regs, a, fuel, n, regs');
      SFail(X, s, ip, ct, keep, E, rs, regs, a, fuel, n, regs');
    }
  }

  lemma {:induction false} IndexAssignCorrect(X: Site, st: CS, s: Stmt, E: Scope, rs: seq<int>, regs: Regs, w: World,
    keep: set<int>, fuel: nat)
    returns (n: nat, regs': Regs)
    requires s.Assign? && s.target.Index?
    requires Placed(X, st, CompileAssign(X.J.P.funcs, st, s.target, s.rhs)) && Ready(st, E, rs, regs, keep)
      && CallsOk(X.J, fuel)
    ensures var st' := CompileAssign(X.J.P.funcs, st, s.target, s.rhs);
      var eff := ExecAssign(X.J.P, E, s, w, fuel);
      && SEnds(X, At(X.k, |st.code|, regs, w), |st'.code|, ContOf(st), keep, E, rs, regs, eff, fuel, n, regs', rs)
      && (eff.Done? && eff.sig == Next ==> Ready(st', eff.env, rs, regs', keep))
  {
    hide *;
    var P := X.J.P;
    var st' := CompileAssign(P.funcs, st, s.target, s.rhs);
    var (st1, obj) := Alloc(st);
    var st2 := CompileExpr(P.funcs, st1, s.target.obj, obj);
    var (st3, idx) := Alloc(st2);
    var st4 := CompileExpr(P.funcs, st3, s.target.idx, idx);
    var (st5, val) := Alloc(st4);
    var st6 := CompileExpr(P.funcs, st5, s.rhs, val);
    var ins := MakeABC(SETI, obj, idx, val);
    var names := Mentions(s.target.obj) + Mentions(s.target.idx) + Mentions(s.rhs);
    var live := Live(keep, rs);
    var s0 := At(X.k, |st.code|, regs, w);
    IndexAssignIs(P, st, s, E, w, fuel);
    IndexAssignCode(P.funcs, st, s);
    PlacedFine(X, st, st');
    ExprSetting(X, st, st', E, rs, regs, keep, names);
    BaseHosted(X.J, X.k, st, st', E, regs, live, names);
    ReadyBound(st, E, rs, regs, keep);
    ReachStart(X.J, X.k, |st.code|, live, regs, w);
    var r := Eval(P, E, s.target.obj, w, fuel);
    var m1, regs1 := Operand(X.J, X.k, st, st', E, s0, 0, live, regs, regs, w, live, names, s.target.obj, fuel);
    if !r.Val? {
      n, regs' := m1, regs1;
      LeaveSig(r, E);
      SFail(X, s0, |st'.code|, ContOf(st), keep, E, rs, regs, r, fuel, n, regs');
      return;
    }
    var j := Eval(P, E, s.target.idx, r.w, fuel);
    var m2, regs2 := Operand(X.J, X.k, st2, st', E, s0, m1, live, regs, regs1, r.w, live + {obj}, names, s.target.idx,
      fuel);
    if !j.Val? {
      n, regs' := m2, regs2;
      LeaveSig(j, E);
      SFail(X, s0, |st'.code|, ContOf(st), keep, E, rs, regs, j, fuel, n, regs');
      return;
    }
    var q := Eval(P, E, s.rhs, j.w, fuel);
    var m3, regs3 := Operand(X.J, X.k, st4, st', E, s0, m2, live, regs, regs2, j.w, live + {obj} + {idx}, names, s.rhs,
      fuel);
    if !q.Val? {
      n, regs' := m3, regs3;
      LeaveSig(q, E);
      SFail(X, s0, |st'.code|, ContOf(st), keep, E, rs, regs, q, fuel, n, regs');
      return;
    }
    SameElim(live + {obj}, regs1, regs2);
    SameElim(live + {obj} + {idx}, regs2, regs3);
    StoreOperands(regs3, obj, idx, val);
    var a := Ask(P, SETI, [r.v, j.v, q.v], q.w);
    var m4, regs4 := LastStore(X.J, X.k, st, st', s0, m3, |st6.code|, ins, [r.v, j.v, q.v], regs, regs3, q.w, live,
      fuel);
    n, regs' := m4, regs4;
    LeaveAsk(a, E);
    SStored(X, s0, |st'.code|, ContOf(st), keep, E, rs, regs, obj, live, a, fuel, false, n, regs', st, st');
  }

  lemma LeaveAsk(a: Result, E: Scope)
    ensures !a.Val? && Leave(a, E).Done? ==> Leave(a, E).sig != Next
  {
  }

  /** A primitive operation whose answer goes to a register that is not live. */
  lemma LastStore(J: Job, k: Ctl, st: CS, st': CS, s: State, n1: nat, ip: int, ins: Instr, operands: seq<Value>,
    regs: Regs, regs1: Regs, w1: World, live: set<int>, fuel: nat)
    returns (n: nat, regs': Regs)
    requires Hosted(J, k, st, st') && |st.code| <= ip < |st'.code| && st'.code[ip] == ins
    requires IsPrim(ins.op) && Operands(regs1, ins) == operands && ins.a !in live
    requires Reached(J, s, n1, k, ip, live, regs, regs1, w1)
    ensures Ends(J, s, k, ip + 1, ins.a, live, regs, Ask(J.P, ins.op, operands, w1), fuel, false, n, regs')
  {
    hide *;
    var a := Ask(J.P, ins.op, operands, w1);
    var regs2 := PrimEnds(J, k, st, st', ip, ins, operands, regs1, w1, live, fuel);
    n, regs' := n1 + 1, regs2;
    assert live - {ins.a as int} == live;
    EndsWeak(J, At(k, ip, regs1, w1), k, ip + 1, ins.a, live, regs1, a, fuel, true, 1, regs2);
    ReachEnd(J, s, n1, k, ip, live, regs, regs1, w1, ip + 1, ins.a, live, a, fuel, false, 1, regs2);
  }

  lemma FieldAssignIs(P: Prog, st: CS, s: Stmt, E: Scope, w: World, fuel: nat)
    requires s.Assign? && s.target.Field?
    ensures var (st1, obj) := Alloc(st);
      var st2 := CompileExpr(P.funcs, st1, s.target.obj, obj);
      var (st3, val) := Alloc(st2);
      var st4 := CompileExpr(P.funcs, st3, s.rhs, val);
      CompileAssign(P.funcs, st, s.target, s.rhs) == Free(Free(EmitSetField(st4, s.target.field, obj, val), obj), val)
    ensures var r := Eval(P, E, s.target.obj, w, fuel);
      ExecAssign(P, E, s, w, fuel) ==
        if !r.Val? then Leave(r, E) else
        var q := Eval(P, E, s.rhs, r.w, fuel);
        if !q.Val? then Leave(q, E) else
        var a := SetField(P, r.v, s.target.field, q.v, q.w);
        if a.Val? then Done(Next, E, a.w) else Leave(a, E)
  {
    hide CompileExpr;
    hide Eval;
    hide Alloc;
    hide Free;
    hide SetField;
    hide EmitSetField;
  }

  lemma FieldAssignCode(funcs: seq<FuncDecl>, st: CS, s: Stmt)
    requires s.Assign? && s.target.Field?
    ensures var (st1, obj) := Alloc(st);
      var st2 := CompileExpr(funcs, st1, s.target.obj, obj);
      var (st3, val) := Alloc(st2);
      var st4 := CompileExpr(funcs, st3, s.rhs, val);
      var (st5, ki) := Intern(st4, CStr(s.target.field));
      var st6 := EmitSetKey(st5, ki, obj, val);
      var st' := Free(Free(EmitSetField(st4, s.target.field, obj, val), obj), val);
      && Shape(st, st') && Grows(st1, st') && Grows(st2, st') && Grows(st3, st') && Grows(st4, st') && Grows(st5, st')
        && Grows(st6, st')
      && st'.code == st6.code && |st.code| <= |st4.code| && st5.code == st4.code && Shape(st4, st5)
  {
    hide CompileExpr;
    hide Alloc;
    hide EmitSetKey;
    var (st1, obj) := Alloc(st);
    var st2 := CompileExpr(funcs, st1, s.target.obj, obj);
    var (st3, val) := Alloc(st2);
    var st4 := CompileExpr(funcs, st3, s.rhs, val);
    var (st5, ki) := Intern(st4, CStr(s.target.field));
    var st6 := EmitSetKey(st5, ki, obj, val);
    assert EmitSetField(st4, s.target.field, obj, val) == st6;
    hide EmitSetField;
    ShapeIntern(st4, CStr(s.target.field));
    assert st5.code == st4.code;
    hide Intern;
    ShapeExpr(funcs, st1, s.target.obj, obj);
    ShapeExpr(funcs, st3, s.rhs, val);
    ShapeSetKey(st5, ki, obj, val);
    ShapeTrans(st4, st5, st6);
    ShapeTrans(st3, st4, st6);
    ShapeScoped2(st, st1, obj, st2, st3, val, st6);
    ShapeAlloc(st);
    ShapeAlloc(st2);
    ShapeFree(st6, obj);
    ShapeFree(Free(st6, obj), val);
    hide Free;
    hide Inv;
    hide Keeps;
  }

  lemma {:induction false} FieldAssignCorrect(X: Site, st: CS, s: Stmt, E: Scope, rs: seq<int>, regs: Regs, w: World,
    keep: set<int>, fuel: nat)
    returns (n: nat, regs': Regs)
    requires s.Assign? && s.target.Field?
    requires Placed(X, st, CompileAssign(X.J.P.funcs, st, s.target, s.rhs)) && Ready(st, E, rs, regs, keep)
      && CallsOk(X.J, fuel)
    ensures var st' := CompileAssign(X.J.P.funcs, st, s.target, s.rhs);
      var eff := ExecAssign(X.J.P, E, s, w, fuel);
      && SEnds(X, At(X.k, |st.code|, regs, w), |st'.code|, ContOf(st), keep, E, rs, regs, eff, fuel, n, regs', rs)
      && (eff.Done? && eff.sig == Next ==> Ready(st', eff.env, rs, regs', keep))
  {
    hide *;
    var P := X.J.P;
    var name := s.target.field;
    var st' := CompileAssign(P.funcs, st, s.target, s.rhs);
    var (st1, obj) := Alloc(st);
    var st2 := CompileExpr(P.funcs, st1, s.target.obj, obj);
    var (st3, val) := Alloc(st2);
    var st4 := CompileExpr(P.funcs, st3, s.rhs, val);
    var (st5, ki) := Intern(st4, CStr(name));
    var st6 := EmitSetKey(st5, ki, obj, val);
    var names := Mentions(s.target.obj) + Mentions(s.rhs);
    var live := Live(keep, rs);
    var s0 := At(X.k, |st.code|, regs, w);
    FieldAssignIs(P, st, s, E, w, fuel);
    FieldAssignCode(P.funcs, st, s);
    PlacedFine(X, st, st');
    ExprSetting(X, st, st', E, rs, regs, keep, names);
    PoolFacts(X.J, X.k, st, st', E, regs, live, names, st5);
    InternFacts(st4, CStr(name), X.J.ch.consts);
    ReadyBound(st, E, rs, regs, keep);
    ReachStart(X.J, X.k, |st.code|, live, regs, w);
    var r := Eval(P, E, s.target.obj, w, fuel);
    var m1, regs1 := Operand(X.J, X.k, st, st', E, s0, 0, live, regs, regs, w, live, names, s.target.obj, fuel);
    if !r.Val? {
      n, regs' := m1, regs1;
      LeaveSig(r, E);
      SFail(X, s0, |st'.code|, ContOf(st), keep, E, rs, regs, r, fuel, n, regs');
      return;
    }
    var q := Eval(P, E, s.rhs, r.w, fuel);
    var m2, regs2 := Operand(X.J, X.k, st2, st', E, s0, m1, live, regs, regs1, r.w, live + {obj}, names, s.rhs, fuel);
    if !q.Val? {
      n, regs' := m2, regs2;
      LeaveSig(q, E);
      SFail(X, s0, |st'.code|, ContOf(st), keep, E, rs, regs, q, fuel, n, regs');
      return;
    }
    SameElim(live + {obj}, regs1, regs2);
    var live1 := live + {obj} + {val};
    BaseStep(X.J, X.k, st4, st', E, regs2, live1, names, st5);
    var a := SetField(P, r.v, name, q.v, q.w);
    var m3, regs3 := SetKeyCorrect(X.J, X.k, st5, st', E, regs2, q.w, live1, names, name, ki, obj, val, fuel);
    n, regs' := m2 + m3, regs3;
    LeaveAsk(a, E);
    assert live <= live1 - {obj as int};
    EndsLess(X.J, At(X.k, |st5.code|, regs2, q.w), X.k, |st'.code|, obj, live1 - {obj}, live, regs2, a, fuel, true, m3,
      regs3);
    EndsWeak(X.J, At(X.k, |st5.code|, regs2, q.w), X.k, |st'.code|, obj, live, regs2, a, fuel, true, m3, regs3);
    ReachEnd(X.J, s0, m2, X.k, |st5.code|, live, regs, regs2, q.w, |st'.code|, obj, live, a, fuel, false, m3, regs3);
    SStored(X, s0, |st'.code|, ContOf(st), keep, E, rs, regs, obj, live, a, fuel, false, n, regs', st, st');
  }
}
