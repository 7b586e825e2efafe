/** The conditions of statements: if, while, and the tests of a switch case. */
module StmtConds {
  import opened Bytecode
  import opened Ast
  import opened Vm
  import opened Semantics
  import opened MachineSteps
  import opened Compiler
  import opened CompilerShape
  import opened StmtShape
  import opened ExprBase
  import opened ExprCorrect
  import opened StmtBase
  import opened StmtSimple

  /** Code that ends with a jump taken when its condition is false, as it stands in the machine: aimed at target. */
  ghost predicate CondPlaced(X: Site, st: CS, c: CS, target: int) {
    && JobOk(X.J) && Fine(c) && X.k.proto < |X.J.ch.protos|
    && |st.code| < |c.code| <= |X.J.ch.protos[X.k.proto].code|
    && (forall i :: |st.code| <= i < |c.code| - 1 ==> X.J.ch.protos[X.k.proto].code[i] == c.code[i])
    && X.J.ch.protos[X.k.proto].code[|c.code| - 1] == FalseJump(c.code[|c.code| - 1].a, target - |c.code|)
    && c.pool <= X.J.ch.consts && |c.code| <= target < 0x8000
    && c.code[|c.code| - 1].op == JF
  }

  function Aimed(c: CS, target: int): CS { PatchSbx(c, |c.code| - 1, target - |c.code|) }

  lemma AimedBase(X: Site, st: CS, c: CS, target: int, E: Scope, rs: seq<int>, regs: Regs, keep: set<int>,
    names: set<Text>)
    requires CondPlaced(X, st, c, target) && Shape(st, c) && Ready(st, E, rs, regs, keep)
    ensures var C := Aimed(c, target);
      && Base(X.J, X.k, st, C, E, regs, Live(keep, rs), names)
      && |C.code| == |c.code| && C.code[|c.code| - 1] == FalseJump(c.code[|c.code| - 1].a, target - |c.code|)
      && C.code[..|c.code| - 1] == c.code[..|c.code| - 1] && C.pool == c.pool && C.peak == c.peak && C.keys == c.keys
        && C.errs == c.errs
  {
    hide MakeAsBx;
    hide ToI16;
    var C := Aimed(c, target);
    assert C.code[..|c.code| - 1] == c.code[..|c.code| - 1];
    assert Fine(C) && C.pool == c.pool;
    assert forall i :: |st.code| <= i < |c.code| - 1 ==> C.code[i] == c.code[i];
    assert C.code[|c.code| - 1] == FalseJump(c.code[|c.code| - 1].a, target - |c.code|);
    hide FalseJump;
    assert Sees(st.locals, E, regs, Live(keep, rs), names);
    hide Inv;
    hide Held;
    hide Sees;
  }

  lemma CondIs(funcs: seq<FuncDecl>, st: CS, cond: Expr)
    ensures var c := CondJump(funcs, st, cond);
      Shape(st, c) && |st.code| < |c.code| && c.code[|c.code| - 1].op == JF && c.code[..|c.code| - 1] <= c.code
  {
    hide Alloc;
    hide CompileExpr;
    CondCode(funcs, st, cond);
    hide CondJump;
  }

  lemma {:induction false} CondIn(X: Site, st: CS, c: CS, target: int, E: Scope, rs: seq<int>, regs: Regs, w: World,
    keep: set<int>, cond: Expr, fuel: nat)
    returns (n: nat, regs': Regs)
    requires c == CondJump(X.J.P.funcs, st, cond) && CondPlaced(X, st, c, target)
    requires Ready(st, E, rs, regs, keep) && CallsOk(X.J, fuel)
    ensures Decided(X.J, At(X.k, |st.code|, regs, w), X.k, |c.code|, target, Live(keep, rs), regs,
                    Eval(X.J.P, E, cond, w, fuel), fuel, n, regs')
  {
    hide *;
    var C := Aimed(c, target);
    CondIs(X.J.P.funcs, st, cond);
    AimedBase(X, st, c, target, E, rs, regs, keep, Mentions(cond));
    AimedFits(X, st, c, target);
    n, regs' := CondCorrect(X.J, X.k, st, C, E, regs, w, Live(keep, rs), Mentions(cond), cond, target, fuel);
  }

  lemma AimedFits(X: Site, st: CS, c: CS, target: int)
    requires CondPlaced(X, st, c, target)
    ensures |c.code| <= target < 0x8000 && Within(c, Aimed(c, target), Aimed(c, target))
  {
    hide MakeAsBx;
    hide ToI16;
    hide FalseJump;
  }

  // ---- the tests of a case ----

  lemma TestCode(funcs: seq<FuncDecl>, st: CS, v: Expr, tag: Byte, m: Byte)
    ensures var (st1, vr) := Alloc(st);
      var st2 := CompileExpr(funcs, st1, v, vr);
      var (st3, eq) := Alloc(st2);
      var st' := CompileTest(funcs, st, v, tag, m);
      && Shape(st, st') && Grows(st1, st') && Grows(st2, st') && Grows(st3, st') && st3.code == st2.code
        && |st.code| <= |st2.code|
      && st'.code == st2.code + [MakeABC(EQ, eq, tag, vr), MakeAsBx(JT, m, 1), MakeABC(MOVE, m, eq, 0)]
      && |st'.code| == |st2.code| + 3
  {
    hide CompileExpr;
    hide Alloc;
    hide MakeAsBx;
    var (st1, vr) := Alloc(st);
    var st2 := CompileExpr(funcs, st1, v, vr);
    var (st3, eq) := Alloc(st2);
    var st4 := EmitTest(st3, tag, m, vr, eq);
    EmitTestIs(st3, tag, m, vr, eq);
    ShapeAlloc(st2);
    hide EmitTest;
    assert CompileTest(funcs, st, v, tag, m) == Free(Free(st4, vr), eq);
    hide CompileTest;
    ShapeExpr(funcs, st1, v, vr);
    ShapeEmitTest(st3, tag, m, vr, eq);
    ShapeScoped2(st, st1, vr, st2, st3, eq, st4);
    ShapeAlloc(st);
    ShapeFree(st4, vr);
    ShapeFree(Free(st4, vr), eq);
    hide Free;
    hide Inv;
    hide Keeps;
  }

  lemma EmitTestIs(st: CS, tag: Byte, m: Byte, vr: Byte, eq: Byte)
    ensures EmitTest(st, tag, m, vr, eq).code == st.code
      + [MakeABC(EQ, eq, tag, vr), MakeAsBx(JT, m, 1), MakeABC(MOVE, m, eq, 0)]
  {
    assert ToI16(1) == 1;
    hide ToI16;
    var ins := MakeAsBx(JT, m, 0);
    hide MakeAsBx;
  }

  lemma TestMove(J: Job, k: Ctl, ip: int, regs: Regs, w: World, m: Byte, eq: Byte)
    requires Fetches(J, k, ip, MakeAsBx(JT, m, 1)) && Fetches(J, k, ip + 1, MakeABC(MOVE, m, eq, 0))
    ensures var yes := Truthy(J.P.env, w.trace, Get(regs, m));
      Goes(J, At(k, ip, regs, w), if yes then 1
        else 2, At(k, ip + 2, if yes then regs else regs[m := Get(regs, eq)], w))
  {
    hide Goes;
    hide Truthy;
    StepJump(J, k, ip, regs, w, MakeAsBx(JT, m, 1));
    if !Truthy(J.P.env, w.trace, Get(regs, m)) {
      StepLoad(J, k, ip + 1, regs, w, MakeABC(MOVE, m, eq, 0));
      GoesTrans(J, At(k, ip, regs, w), 1, At(k, ip + 1, regs, w), 1, At(k, ip + 2, regs[m := Get(regs, eq)], w));
    }
  }

  /** The answer of one test: the match so far if it is true, else whether the tag equals the value. */
  function Tested(P: Prog, m: Value, r: Result): Result {
    if r.Val? then Val(if Truthy(P.env, r.w.trace, m) then m else r.v, r.w) else r
  }

  lemma TestJoin(P: Prog, s: State, J: Job, k: Ctl, n: nat, ip: int, live: set<int>, regs0: Regs, regs: Regs, w: World,
    m: Byte, eq: Byte)
    returns (n': nat, regs': Regs)
    requires Reached(J, s, n, k, ip, live, regs0, regs, w) && P == J.P && m in live && eq !in live
    requires Fetches(J, k, ip, MakeAsBx(JT, m, 1)) && Fetches(J, k, ip + 1, MakeABC(MOVE, m, eq, 0))
    ensures var yes := Truthy(J.P.env, w.trace, Get(regs0, m));
      Goes(J, s, n', At(k, ip + 2, regs', w)) && Get(regs', m) == (if yes then Get(regs0, m) else Get(regs, eq))
      && Same(live - {m}, regs0, regs')
  {
    TestMove(J, k, ip, regs, w, m, eq);
    var yes := Truthy(J.P.env, w.trace, Get(regs, m));
    assert Get(regs, m) == Get(regs0, m);
    hide Goes;
    hide Truthy;
    regs' := if yes then regs else regs[m := Get(regs, eq)];
    n' := n + (if yes then 1 else 2);
    GoesTrans(J, s, n, At(k, ip, regs, w), if yes then 1 else 2, At(k, ip + 2, regs', w));
  }

  lemma {:induction false} TestCorrect(J: Job, k: Ctl, st: CS, st': CS, E: Scope, regs: Regs, w: World, live: set<int>,
    names: set<Text>, v: Expr, tag: Byte, m: Byte, fuel: nat)
    returns (n: nat, regs': Regs)
    requires Base(J, k, st, st', E, regs, live, names) && Mentions(v) <= names && CallsOk(J, fuel)
    requires tag in live && m in live && Grows(CompileTest(J.P.funcs, st, v, tag, m), st')
    ensures var r := Eval(J.P, E, v, w, fuel);
      Ends(J, At(k, |st.code|, regs, w), k, |CompileTest(J.P.funcs, st, v, tag, m).code|, m, live - {m}, regs,
           if r.Val? then Tested(J.P, Get(regs, m), Ask(J.P, EQ, [Get(regs, tag), r.v], r.w))
             else r, fuel, false, n, regs')
  {
    hide *;
    var st5 := CompileTest(J.P.funcs, st, v, tag, m);
    var (st1, vr) := Alloc(st);
    var st2 := CompileExpr(J.P.funcs, st1, v, vr);
    var (st3, eq) := Alloc(st2);
    TestCode(J.P.funcs, st, v, tag, m);
    GrowsTrans(st1, st5, st');
    GrowsTrans(st2, st5, st');
    GrowsTrans(st3, st5, st');
    BaseHosted(J, k, st, st', E, regs, live, names);
    var s := At(k, |st.code|, regs, w);
    ReachStart(J, k, |st.code|, live, regs, w);
    var r := Eval(J.P, E, v, w, fuel);
    var m1, regs1 := Operand(J, k, st, st', E, s, 0, live, regs, regs, w, live, names, v, fuel);
    if !r.Val? {
      n, regs' := m1, regs1;
      FailedEnds(J, s, k, live, regs, r, fuel, m1, regs1, |st5.code|, m, false);
      return;
    }
    SameElim(live, regs, regs1);
    AllocBase(J, k, st2, st', E, regs1, live + {vr}, names);
    var a := Ask(J.P, EQ, [Get(regs, tag), r.v], r.w);
    PairOperands(regs1, EQ, eq, tag, vr);
    CodeStays(st5, st', |st2.code|);
    CodeStays(st5, st', |st2.code| + 1);
    CodeStays(st5, st', |st2.code| + 2);
    var m2, regs2 := LastStore(J, k, st, st', s, m1, |st2.code|, MakeABC(EQ, eq, tag, vr), [Get(regs, tag), r.v], regs,
      regs1, r.w, live, fuel);
    if !a.Val? {
      n, regs' := m2, regs2;
      TestFails(J, s, k, |st2.code| + 1, |st5.code|, eq, m, live, regs, a, fuel, n, regs');
      return;
    }
    EndsVal(J, s, k, |st2.code| + 1, eq, live, regs, a, fuel, false, m2, regs2);
    SameReach(J, s, m2, k, |st2.code| + 1, live, regs, regs2, a.w);
    FetchAt(J, k, st, st', |st2.code| + 1, MakeAsBx(JT, m, 1));
    FetchAt(J, k, st, st', |st2.code| + 2, MakeABC(MOVE, m, eq, 0));
    n, regs' := TestJoin(J.P, s, J, k, m2, |st2.code| + 1, live, regs, regs2, a.w, m, eq);
    TestedVal(J.P, Get(regs, m), a);
    EndsIntro(J, s, k, |st5.code|, m, live - {m}, regs, Tested(J.P, Get(regs, m), a), fuel, false, n, regs');
  }

  lemma TestedVal(P: Prog, m: Value, a: Result)
    ensures Tested(P, m, a) == if a.Val? then Val(if Truthy(P.env, a.w.trace, m) then m else a.v, a.w) else a
  {
    hide Truthy;
  }

  lemma TestFails(J: Job, s: State, k: Ctl, ip1: int, ip2: int, eq: int, m: int, live: set<int>, regs: Regs, a: Result,
    fuel: nat, n: nat, regs': Regs)
    requires !a.Val? && Ends(J, s, k, ip1, eq, live, regs, a, fuel, false, n, regs')
    ensures Ends(J, s, k, ip2, m, live - {m}, regs, Tested(J.P, Get(regs, m), a), fuel, false, n, regs')
  {
    hide Goes;
    hide Lives;
  }

  lemma MatchIs(P: Prog, E: Scope, st: CS, values: seq<Expr>, tag: Byte, m: Byte, tv: Value, mv: Value, w: World,
    fuel: nat)
    requires values != []
    ensures var st1 := CompileTest(P.funcs, st, values[0], tag, m);
      var st2 := CompileMatch(P.funcs, st1, values[1..], tag, m);
      CompileMatch(P.funcs, st, values, tag, m) == st2 && Shape(st, st1) && Shape(st1, st2)
    ensures var r := Eval(P, E, values[0], w, fuel);
      var q := if r.Val? then Tested(P, mv, Ask(P, EQ, [tv, r.v], r.w)) else r;
      EvalMatch(P, E, values, tv, mv, w, fuel) == if q.Val? then EvalMatch(P, E, values[1..], tv, q.v, q.w, fuel) else q
    ensures Mentions(values[0]) <= MentionsList(values) && MentionsList(values[1..]) <= MentionsList(values)
  {
    hide CompileTest;
    hide Eval;
    hide Ask;
    hide Truthy;
    hide Mentions;
    ShapeTest(P.funcs, st, values[0], tag, m);
    ShapeMatch(P.funcs, CompileTest(P.funcs, st, values[0], tag, m), values[1..], tag, m);
    hide Shape;
  }

  lemma MatchNil(P: Prog, E: Scope, st: CS, tag: Byte, m: Byte, tv: Value, mv: Value, w: World, fuel: nat)
    ensures CompileMatch(P.funcs, st, [], tag, m) == st && EvalMatch(P, E, [], tv, mv, w, fuel) == Val(mv, w)
  {
  }

  lemma {:induction false} MatchCorrect(J: Job, k: Ctl, st: CS, st': CS, E: Scope, regs: Regs, w: World, live: set<int>,
    names: set<Text>, values: seq<Expr>, tag: Byte, m: Byte, fuel: nat)
    returns (n: nat, regs': Regs)
    requires Base(J, k, st, st', E, regs, live, names) && MentionsList(values) <= names && CallsOk(J, fuel)
    requires tag in live && m in live && tag != m && NoLocal(st, m)
      && Grows(CompileMatch(J.P.funcs, st, values, tag, m), st')
    ensures Ends(J, At(k, |st.code|, regs, w), k, |CompileMatch(J.P.funcs, st, values, tag, m).code|, m, live - {m},
      regs, EvalMatch(J.P, E, values, Get(regs, tag), Get(regs, m), w, fuel), fuel, false, n, regs')
    decreases values
  {
    hide *;
    var s := At(k, |st.code|, regs, w);
    var tv, mv := Get(regs, tag), Get(regs, m);
    if values == [] {
      n, regs' := 0, regs;
      MatchNil(J.P, E, st, tag, m, tv, mv, w, fuel);
      GoesZero(J, s);
      SameIntro(live - {m}, regs, regs);
      EndsIntro(J, s, k, |st.code|, m, live - {m}, regs, Val(mv, w), fuel, false, 0, regs);
      return;
    }
    MatchIs(J.P, E, st, values, tag, m, tv, mv, w, fuel);
    var st1 := CompileTest(J.P.funcs, st, values[0], tag, m);
    var st2 := CompileMatch(J.P.funcs, st1, values[1..], tag, m);
    ShapeGrows(st1, st2, st');
    var r := Eval(J.P, E, values[0], w, fuel);
    var q := if r.Val? then Tested(J.P, mv, Ask(J.P, EQ, [tv, r.v], r.w)) else r;
    var m1, regs1 := TestCorrect(J, k, st, st', E, regs, w, live, names, values[0], tag, m, fuel);
    if !q.Val? {
      n, regs' := m1, regs1;
      EndsElsewhere(J, s, k, |st1.code|, |st2.code|, m, live - {m}, regs, q, fuel, false, n, regs');
      return;
    }
    EndsVal(J, s, k, |st1.code|, m, live - {m}, regs, q, fuel, false, m1, regs1);
    AfterInto(J, k, st, st', E, regs, live, names, m, st1, regs1);
    ShapeLocals(st, st1);
    NoLocalSame(st, st1, m);
    SameElim(live - {m}, regs, regs1);
    SameReach(J, s, m1, k, |st1.code|, live - {m}, regs, regs1, q.w);
    var m2, regs2 := MatchCorrect(J, k, st1, st', E, regs1, q.w, live, names, values[1..], tag, m, fuel);
    n, regs' := m1 + m2, regs2;
    ReachEnd(J, s, m1, k, |st1.code|, live - {m}, regs, regs1, q.w, |st2.code|, m, live - {m},
             EvalMatch(J.P, E, values[1..], tv, q.v, q.w, fuel), fuel, false, m2, regs2);
  }

  lemma FrontCode(funcs: seq<FuncDecl>, st: CS, values: seq<Expr>, tag: Byte)
    ensures var (st1, m) := Alloc(st);
      var st1a := Emit(st1, MakeABC(LOADB, m, 0, 0));
      var st2 := CompileMatch(funcs, st1a, values, tag, m);
      var f := CaseFront(funcs, st, values, tag);
      && Shape(st, f) && Grows(st1, f) && Grows(st1a, f) && Grows(st2, f) && Shape(st1, st1a)
      && |st1a.code| == |st.code| + 1 <= |st2.code| == |f.code| - 1
      && f.code[|st.code|] == MakeABC(LOADB, m, 0, 0) && f.code[|f.code| - 1].op == JF && f.code[|f.code| - 1].a == m
      && st1a.code == st.code + [MakeABC(LOADB, m, 0, 0)]
  {
    hide MakeAsBx;
    hide Alloc;
    var (st1, m) := Alloc(st);
    var st1a := Emit(st1, MakeABC(LOADB, m, 0, 0));
    var st2 := CompileMatch(funcs, st1a, values, tag, m);
    var st3 := Emit(st2, MakeAsBx(JF, m, 0));
    assert CaseFront(funcs, st, values, tag) == Free(st3, m) by { hide CompileMatch; hide Free; }
    hide CaseFront;
    ShapeAlloc(st);
    ShapeEmit(st1, MakeABC(LOADB, m, 0, 0));
    ShapeMatch(funcs, st1a, values, tag, m);
    hide CompileMatch;
    ShapeCaseFront(funcs, st, values, tag);
    ShapeFree(st3, m);
    hide Free;
    hide Inv;
    hide Keeps;
  }

  lemma StartMatch(J: Job, k: Ctl, ip: int, regs: Regs, w: World, live: set<int>, m: Byte)
    requires Fetches(J, k, ip, MakeABC(LOADB, m, 0, 0)) && m !in live
    ensures Reached(J, At(k, ip, regs, w), 1, k, ip + 1, live, regs, regs[m := Bool(false)], w)
    ensures Get(regs[m := Bool(false)], m) == Bool(false) && forall q :: q in live ==>
      Get(regs[m := Bool(false)], q) == Get(regs, q)
  {
    StepLoad(J, k, ip, regs, w, MakeABC(LOADB, m, 0, 0));
    hide Goes;
  }

  lemma AimedGrows(a: CS, f: CS, target: int)
    requires Grows(a, f) && |a.code| <= |f.code| - 1
    ensures Grows(a, Aimed(f, target)) && |Aimed(f, target).code| == |f.code|
  {
    hide MakeAsBx;
    hide ToI16;
  }

  lemma BaseEmit(J: Job, k: Ctl, st: CS, st': CS, E: Scope, regs: Regs, live: set<int>, names: set<Text>, a: CS,
    regs1: Regs, m: int)
    requires Base(J, k, st, st', E, regs, live + {m}, names) && Shape(st, a) && Grows(a, st')
    requires NoLocal(st, m) && m !in live && forall q :: q in live ==> Get(regs1, q) == Get(regs, q)
    ensures Base(J, k, a, st', E, regs1, live + {m}, names) && NoLocal(a, m)
  {
    assert (live + {m}) - {m} == live;
    BaseStep(J, k, st, st', E, regs, live + {m}, names, a);
    hide Inv;
    hide Held;
  }

  /** A case's tests: its body is entered when one of them holds. */
  lemma {:induction false} FrontCorrect(X: Site, st: CS, f: CS, target: int, E: Scope, rs: seq<int>, regs: Regs,
    w: World, keep: set<int>, values: seq<Expr>, tag: Byte, fuel: nat)
    returns (n: nat, regs': Regs)
    requires f == CaseFront(X.J.P.funcs, st, values, tag) && CondPlaced(X, st, f, target)
    requires Ready(st, E, rs, regs, keep) && CallsOk(X.J, fuel) && tag in keep
    ensures Decided(X.J, At(X.k, |st.code|, regs, w), X.k, |f.code|, target, Live(keep, rs), regs,
                    EvalMatch(X.J.P, E, values, Get(regs, tag), Bool(false), w, fuel), fuel, n, regs')
  {
    hide *;
    var J, k := X.J, X.k;
    var F := Aimed(f, target);
    var (st1, m) := Alloc(st);
    var st1a := Emit(st1, MakeABC(LOADB, m, 0, 0));
    var st2 := CompileMatch(J.P.funcs, st1a, values, tag, m);
    var live := Live(keep, rs);
    var names := MentionsList(values);
    FrontCode(J.P.funcs, st, values, tag);
    AimedBase(X, st, f, target, E, rs, regs, keep, names);
    AimedFits(X, st, f, target);
    BaseHosted(J, k, st, F, E, regs, live, names);
    AllocCode(st);
    AimedGrows(st1, f, target);
    AimedGrows(st1a, f, target);
    AimedGrows(st2, f, target);
    AllocBase(J, k, st, F, E, regs, live, names);
    var s := At(k, |st.code|, regs, w);
    CodeStays(st1a, F, |st.code|);
    FetchAt(J, k, st, F, |st.code|, MakeABC(LOADB, m, 0, 0));
    StartMatch(J, k, |st.code|, regs, w, live, m);
    var regs1 := regs[m := Bool(false)];
    BaseEmit(J, k, st1, F, E, regs, live, names, st1a, regs1, m);
    InLive(keep, rs, tag);
    var r := EvalMatch(J.P, E, values, Get(regs, tag), Bool(false), w, fuel);
    var m1, regs2 := MatchCorrect(J, k, st1a, F, E, regs1, w, live + {m}, names, values, tag, m, fuel);
    regs' := regs2;
    assert (live + {m}) - {m as int} == live;
    ReachEnd(J, s, 1, k, |st.code| + 1, live, regs, regs1, w, |st2.code|, m, live, r, fuel, false, m1, regs2);
    if r.Val? {
      EndsVal(J, s, k, |st2.code|, m, live, regs, r, fuel, false, 1 + m1, regs2);
      SameReach(J, s, 1 + m1, k, |st2.code|, live, regs, regs2, r.w);
      FetchAt(J, k, st, F, |st2.code|, FalseJump(m, target - |f.code|));
      CondStep(J, k, |st2.code|, regs2, r.w, m, target - |f.code|);
      n := m1 + 2;
      ReachStep(J, s, 1 + m1, k, |st2.code|, live, regs, regs2, r.w, if Truthy(J.P.env, r.w.trace, r.v) then |f.code|
        else target);
      DecidedIntro(J, s, k, |f.code|, target, live, regs, r, fuel, n, regs');
    } else {
      n := 1 + m1;
      DecidedFail(J, s, k, |f.code|, target, live, regs, r, fuel, |st2.code|, m, false, n, regs');
    }
  }

  lemma AllocCode(st: CS)
    ensures |Alloc(st).0.code| == |st.code|
  {
  }

  lemma InLive(keep: set<int>, rs: seq<int>, q: int)
    requires q in keep
    ensures q in Live(keep, rs)
  {
  }
}
