/** The code of a statement does what the semantics says. */
module StmtCorrect {
  import opened Bytecode
  import opened Ast
  import opened Vm
  import opened Semantics
  import opened MachineSteps
  import opened Compiler
  import opened CompilerShape
  import opened StmtShape
  import opened ExprBase
  import opened ExprCorrect
  import opened StmtBase
  import opened StmtSimple
  import opened StmtConds

  // ---- glue ----

  /** An effect that leaves the statement says nothing of where its code ends. */
  lemma SElsewhere(X: Site, s: State, ip: int, ip1: int, ct: int, keep: set<int>, E: Scope, rs: seq<int>, regs: Regs,
    eff: Effect, fuel: nat, n: nat, regs': Regs, rs': seq<int>, rs1: seq<int>)
    requires SEnds(X, s, ip, ct, keep, E, rs, regs, eff, fuel, n, regs', rs') && (eff.Done? ==> eff.sig != Next)
    ensures SEnds(X, s, ip1, ct, keep, E, rs, regs, eff, fuel, n, regs', rs1)
  {
    hide Goes;
    hide Lives;
  }

  lemma SNextElim(X: Site, s: State, ip: int, ct: int, keep: set<int>, E: Scope, rs: seq<int>, regs: Regs, eff: Effect,
    fuel: nat, n: nat, regs': Regs, rs': seq<int>)
    requires SEnds(X, s, ip, ct, keep, E, rs, regs, eff, fuel, n, regs', rs') && eff.Done? && eff.sig == Next
    ensures Goes(X.J, s, n, At(X.k, ip, regs', eff.w)) && rs <= rs' && Bound(eff.env, rs', regs')
      && Same(keep, regs, regs') && Grown(E, eff.env)
    ensures |rs'| == |eff.env|
  {
    hide Goes;
    hide Same;
  }

  /** A leap after the end. */
  lemma SLeap(X: Site, s: State, ip: int, target: int, ct: int, keep: set<int>, E: Scope, rs: seq<int>, regs: Regs,
    eff: Effect, fuel: nat, n: nat, regs': Regs, rs': seq<int>)
    returns (m: nat)
    requires SEnds(X, s, ip, ct, keep, E, rs, regs, eff, fuel, n, regs', rs')
    requires Fetches(X.J, X.k, ip, Leap(ip, target)) && 0 <= target < 0x8000 && 0 <= ip < 0x7fff
    ensures SEnds(X, s, target, ct, keep, E, rs, regs, eff, fuel, m, regs', rs')
  {
    m := n;
    if eff.Done? && eff.sig == Next {
      LeapStep(X, ip, target, regs', eff.w);
      hide Goes;
      m := n + 1;
      GoesTrans(X.J, s, n, At(X.k, ip, regs', eff.w), 1, At(X.k, target, regs', eff.w));
    }
  }

  lemma FailedCond(X: Site, s: State, yes: int, no: int, live: set<int>, regs: Regs, r: Result, fuel: nat, n: nat,
    regs': Regs)
    requires !r.Val? && Decided(X.J, s, X.k, yes, no, live, regs, r, fuel, n, regs')
    ensures Failed(X.J, s, X.k, live, regs, r, fuel, n, regs')
  {
    hide Goes;
    hide Lives;
  }

  /** After a condition: the scope is still in its registers. */
  lemma CondReady(X: Site, s: State, n: nat, ip: int, st: CS, c: CS, E: Scope, rs: seq<int>, regs: Regs, keep: set<int>,
    regs1: Regs, w: World)
    requires Ready(st, E, rs, regs, keep) && SShape(st, c) && Fine(c) && c.locals == st.locals
    requires Reached(X.J, s, n, X.k, ip, Live(keep, rs), regs, regs1, w)
    ensures Ready(c, E, rs, regs1, keep) && Goes(X.J, s, n, At(X.k, ip, regs1, w)) && Same(keep, regs, regs1)
  {
    hide Goes;
    GrownSelf(E);
    ReadyBound(st, E, rs, regs, keep);
    SameBound(E, rs, regs, keep, regs1);
    assert Inv(c) && Keeps(st, c);
    hide Inv;
    hide Keeps;
    ReadyAgain(st, E, rs, regs, keep, c, E, regs1);
  }

  /** After a closed statement. */
  lemma ClosedReady(X: Site, s: State, ip: int, ct: int, keep: set<int>, E: Scope, rs: seq<int>, regs: Regs,
    eff: Effect, fuel: nat, n: nat, regs': Regs, st: CS, st': CS)
    requires SEnds(X, s, ip, ct, keep, E, rs, regs, eff, fuel, n, regs', rs)
    requires Ready(st, E, rs, regs, keep) && SShape(st, st') && Fine(st') && st'.locals == st.locals
    ensures eff.Done? && eff.sig == Next ==> Ready(st', eff.env, rs, regs', keep)
  {
    hide Goes;
    hide Lives;
    if eff.Done? && eff.sig == Next {
      assert Inv(st') && Keeps(st, st');
      hide Inv;
      hide Keeps;
      hide Ready;
      ReadyAgain(st, E, rs, regs, keep, st', eff.env, regs');
    }
  }

  lemma SSelf(st: CS)
    ensures LoopsGrow(st, st) && Keeps(st, st)
  {
  }

  lemma SLoops(a: CS, b: CS)
    requires SShape(a, b)
    ensures LoopsGrow(a, b) && |a.code| <= |b.code| && Grows(a, b)
  {
  }

  /** Nothing of a state that LoopsGrow speaks of has changed. */
  lemma LoopsAs(a: CS, b: CS, c: CS)
    requires LoopsGrow(a, b) && c.loops == b.loops && |c.code| == |b.code|
    ensures LoopsGrow(a, c)
  {
    assert Breaks(c) == Breaks(b);
    assert forall i :: NewBreak(a, c, i) == NewBreak(a, b, i);
    hide NewBreak;
  }

  // ---- blocks ----

  lemma StmtLocals(funcs: seq<FuncDecl>, st: CS, s: Stmt)
    ensures CompileStmt(funcs, st, s).locals.Keys == st.locals.Keys + Declared(s)
  {
    if s.Let? {
      var (st1, r) := Alloc(st);
      ShapeAlloc(st);
      ShapeExpr(funcs, st1, s.init, r);
      hide CompileExpr;
      hide Alloc;
    } else {
      SShapeStmt(funcs, st, s);
      hide CompileStmt;
    }
  }

  lemma StmtsIs(P: Prog, st: CS, ss: seq<Stmt>, E: Scope, w: World, fuel: nat)
    requires ss != []
    ensures var st1 := CompileStmt(P.funcs, st, ss[0]);
      var st2 := CompileStmts(P.funcs, st1, ss[1..]);
      && CompileStmts(P.funcs, st, ss) == st2 && Part(st, st, st1, st2) && Part(st, st1, st2, st2)
        && ContOf(st1) == ContOf(st)
    ensures var eff := ExecStmt(P, E, ss[0], w, fuel);
      ExecStmts(P, E, ss, w, fuel) == if eff.Done? && eff.sig == Next then ExecStmts(P, eff.env, ss[1..], eff.w, fuel)
        else eff
  {
    hide CompileStmt;
    hide ExecStmt;
    var st1 := CompileStmt(P.funcs, st, ss[0]);
    var st2 := CompileStmts(P.funcs, st1, ss[1..]);
    SShapeStmt(P.funcs, st, ss[0]);
    SShapeStmts(P.funcs, st1, ss[1..]);
    SLoops(st, st1);
    SLoops(st1, st2);
    SSelf(st);
    SSelf(st2);
    hide SShape;
    hide LoopsGrow;
    assert ContOf(st1) == ContOf(st) by { ContLoops(st, st1); }
  }

  lemma ContLoops(a: CS, b: CS)
    requires LoopsGrow(a, b)
    ensures ContOf(a) == ContOf(b)
  {
  }

  lemma StmtsNil(P: Prog, st: CS, E: Scope, w: World, fuel: nat)
    ensures CompileStmts(P.funcs, st, []) == st && ExecStmts(P, E, [], w, fuel) == Done(Next, E, w)
  {
  }

  lemma SafeSplit(ss: seq<Stmt>, vars: set<Text>, brk: bool, inTry: bool)
    requires ss != [] && SafeStmts(ss, vars, brk, inTry)
    ensures SafeStmt(ss[0], vars, brk, inTry) && SafeStmts(ss[1..], vars + Declared(ss[0]), brk, inTry)
  {
  }

  lemma SNothing(X: Site, st: CS, E: Scope, rs: seq<int>, regs: Regs, w: World, keep: set<int>, ct: int, fuel: nat)
    requires Ready(st, E, rs, regs, keep)
    ensures SEnds(X, At(X.k, |st.code|, regs, w), |st.code|, ct, keep, E, rs, regs, Done(Next, E, w), fuel, 0, regs, rs)
  {
    GoesZero(X.J, At(X.k, |st.code|, regs, w));
    hide Goes;
    GrownSelf(E);
  }

  lemma {:induction false} StmtsCorrect(X: Site, st: CS, ss: seq<Stmt>, E: Scope, rs: seq<int>, regs: Regs, w: World,
    keep: set<int>, fuel: nat)
    returns (n: nat, regs': Regs, rs': seq<int>)
    requires Placed(X, st, CompileStmts(X.J.P.funcs, st, ss)) && Ready(st, E, rs, regs, keep) && CallsOk(X.J, fuel)
    requires SafeStmts(ss, st.locals.Keys, X.brk, X.inTry)
    ensures SEnds(X, At(X.k, |st.code|, regs, w), |CompileStmts(X.J.P.funcs, st, ss).code|, ContOf(st), keep, E, rs,
      regs, ExecStmts(X.J.P, E, ss, w, fuel), fuel, n, regs', rs')
    decreases fuel, ss, 0
  {
    hide *;
    var P := X.J.P;
    var s := At(X.k, |st.code|, regs, w);
    if ss == [] {
      n, regs', rs' := 0, regs, rs;
      StmtsNil(P, st, E, w, fuel);
      SNothing(X, st, E, rs, regs, w, keep, ContOf(st), fuel);
      return;
    }
    StmtsIs(P, st, ss, E, w, fuel);
    SafeSplit(ss, st.locals.Keys, X.brk, X.inTry);
    var st1 := CompileStmt(P.funcs, st, ss[0]);
    var st2 := CompileStmts(P.funcs, st1, ss[1..]);
    StmtLocals(P.funcs, st, ss[0]);
    PlacedPart(X, st, st2, st, st1);
    PlacedPart(X, st, st2, st1, st2);
    ReadyBound(st, E, rs, regs, keep);
    var eff := ExecStmt(P, E, ss[0], w, fuel);
    var m1, regs1, rs1 := StatementCorrect(X, st, ss[0], E, rs, regs, w, keep, fuel);
    if eff.Done? && eff.sig == Next {
      SNextElim(X, s, |st1.code|, ContOf(st), keep, E, rs, regs, eff, fuel, m1, regs1, rs1);
      var m2, regs2, rs2 := StmtsCorrect(X, st1, ss[1..], eff.env, rs1, regs1, eff.w, keep, fuel);
      n, regs', rs' := m1 + m2, regs2, rs2;
      SSeq(X, s, m1, At(X.k, |st1.code|, regs1, eff.w), |st2.code|, ContOf(st), keep, keep, E, rs, regs, eff.env, rs1,
        regs1,
           ExecStmts(P, eff.env, ss[1..], eff.w, fuel), fuel, fuel, m2, regs2, rs2);
    } else {
      n, regs', rs' := m1, regs1, rs1;
      SElsewhere(X, s, |st1.code|, |st2.code|, ContOf(st), keep, E, rs, regs, eff, fuel, n, regs', rs', rs');
    }
  }

  lemma BlockIs(P: Prog, st: CS, ss: seq<Stmt>, E: Scope, w: World, fuel: nat)
    ensures var st1 := CompileStmts(P.funcs, st, ss);
      CompileBlock(P.funcs, st, ss) == st1.(locals := st.locals, next := st.next, free := [])
    ensures var eff := ExecStmts(P, E, ss, w, fuel);
      ExecBlock(P, E, ss, w, fuel) == if eff.Done? then Done(eff.sig, Trunc(eff.env, |E|), eff.w) else Stuck(eff.w)
  {
    hide CompileStmts;
    hide ExecStmts;
  }

  lemma {:induction false} BlockCorrect(X: Site, st: CS, ss: seq<Stmt>, E: Scope, rs: seq<int>, regs: Regs, w: World,
    keep: set<int>, fuel: nat)
    returns (n: nat, regs': Regs)
    requires Placed(X, st, CompileBlock(X.J.P.funcs, st, ss)) && Ready(st, E, rs, regs, keep) && CallsOk(X.J, fuel)
    requires SafeStmts(ss, st.locals.Keys, X.brk, X.inTry)
    ensures SEnds(X, At(X.k, |st.code|, regs, w), |CompileBlock(X.J.P.funcs, st, ss).code|, ContOf(st), keep, E, rs,
      regs, ExecBlock(X.J.P, E, ss, w, fuel), fuel, n, regs', rs)
    ensures ExecBlock(X.J.P, E, ss, w, fuel).Done? ==> |ExecBlock(X.J.P, E, ss, w, fuel).env| == |E|
    decreases fuel, ss, 1
  {
    hide *;
    var P := X.J.P;
    BlockIs(P, st, ss, E, w, fuel);
    var st1 := CompileStmts(P.funcs, st, ss);
    var st' := CompileBlock(P.funcs, st, ss);
    PlacedFine(X, st, st');
    FineAs(st', st1);
    PlacedAs(X, st, st', st1);
    ReadyBound(st, E, rs, regs, keep);
    var rs1;
    n, regs', rs1 := StmtsCorrect(X, st, ss, E, rs, regs, w, keep, fuel);
    SBlock(X, At(X.k, |st.code|, regs, w), |st'.code|, ContOf(st), keep, E, rs, regs, ExecStmts(P, E, ss, w, fuel),
           ExecBlock(P, E, ss, w, fuel), fuel, n, regs', rs1);
  }

  // ---- if ----

  /** A part of the code that is a condition. */
  lemma CondPart(X: Site, st: CS, st': CS, c: CS, target: int)
    requires Placed(X, st, st') && Shape(st, c) && LoopsGrow(c, st') && |st.code| < |c.code| <= |st'.code|
    requires (forall i :: |st.code| <= i < |c.code| - 1 ==> st'.code[i] == c.code[i])
    requires st'.code[|c.code| - 1] == FalseJump(c.code[|c.code| - 1].a, target - |c.code|)
    requires c.pool <= st'.pool && c.peak <= st'.peak && c.keys <= st'.keys && c.errs <= st'.errs
      && |c.code| <= target < 0x8000 && c.code[|c.code| - 1].op == JF
    ensures CondPlaced(X, st, c, target) && Fine(c)
  {
    forall i | |st.code| <= i < |c.code|
      ensures !NewBreak(st, st', i)
    {
      assert Breaks(c) == Breaks(st);
      NoBreak(st, c, i);
      BreakSplit(st, c, st', i);
      NoBreak(c, st', i);
    }
    hide NewBreak;
    hide FalseJump;
  }

  lemma IfCode(P: Prog, st: CS, s: Stmt)
    requires s.If? && s.els == None
    ensures var c := CondJump(P.funcs, st, s.cond);
      var b := CompileBlock(P.funcs, c, s.thn);
      var st' := CompileStmt(P.funcs, st, s);
      && Shape(st, c) && SShape(st, c) && SShape(st, st') && st'.locals == c.locals == st.locals
      && Part(st, c, b, st') && |st.code| < |c.code| && |st'.code| == |b.code| && c.code[|c.code| - 1].op == JF
      && (forall i :: |st.code| <= i < |c.code| - 1 ==> st'.code[i] == c.code[i])
      && st'.code[|c.code| - 1] == FalseJump(c.code[|c.code| - 1].a, |b.code| - |c.code|)
      && Grows(c, b) && b.pool == st'.pool && b.peak == st'.peak && b.keys == st'.keys && b.errs == st'.errs
  {
    hide *;
    IfIs(P, st, s);
    var c := CondJump(P.funcs, st, s.cond);
    var b := CompileBlock(P.funcs, c, s.thn);
    var st' := PatchSbx(b, |c.code| - 1, |b.code| - |c.code|);
    SShapeStmt(P.funcs, st, s);
    CondIs(P.funcs, st, s.cond);
    FromShape(st, c);
    SShapeBlock(P.funcs, c, s.thn);
    SLoops(st, c);
    SLoops(c, b);
    SGrows(c, b);
    SSelf(b);
    assert b.code[|c.code| - 1] == c.code[|c.code| - 1];
    FalsePatch(b, |c.code| - 1, |b.code| - |c.code|);
    LoopsAs(b, b, st');
    PartIntro(st, c, b, st');
    CompilerShape.ShapeLocals(st, c);
  }

  lemma IfIs(P: Prog, st: CS, s: Stmt)
    requires s.If? && s.els == None
    ensures var c := CondJump(P.funcs, st, s.cond);
      var b := CompileBlock(P.funcs, c, s.thn);
      CompileStmt(P.funcs, st, s) == PatchSbx(b, |c.code| - 1, |b.code| - |c.code|)
    ensures CompileStmt(P.funcs, st, s).locals == st.locals
  {
    SShapeStmt(P.funcs, st, s);
    hide SShape;
    hide CondJump;
    hide CompileBlock;
    hide PatchSbx;
  }

  lemma IfStep(P: Prog, s: Stmt, E: Scope, w: World, fuel: nat)
    requires s.If? && s.els == None
    ensures var r := Eval(P, E, s.cond, w, fuel);
      ExecStmt(P, E, s, w, fuel) ==
        if !r.Val? then Leave(r, E)
        else if Truthy(P.env, r.w.trace, r.v) then ExecBlock(P, E, s.thn, r.w, fuel) else Done(Next, E, r.w)
  {
    hide Eval;
    hide Truthy;
    hide ExecBlock;
  }

  lemma {:induction false} IfCorrect(X: Site, st: CS, s: Stmt, E: Scope, rs: seq<int>, regs: Regs, w: World,
    keep: set<int>, fuel: nat)
    returns (n: nat, regs': Regs)
    requires s.If? && s.els == None
    requires Placed(X, st, CompileStmt(X.J.P.funcs, st, s)) && Ready(st, E, rs, regs, keep) && CallsOk(X.J, fuel)
    requires SafeStmts(s.thn, st.locals.Keys, X.brk, X.inTry)
    ensures SEnds(X, At(X.k, |st.code|, regs, w), |CompileStmt(X.J.P.funcs, st, s).code|, ContOf(st), keep, E, rs, regs,
                  ExecStmt(X.J.P, E, s, w, fuel), fuel, n, regs', rs)
    decreases fuel, s, 1
  {
    hide *;
    var P := X.J.P;
    IfCode(P, st, s);
    IfStep(P, s, E, w, fuel);
    var c := CondJump(P.funcs, st, s.cond);
    var b := CompileBlock(P.funcs, c, s.thn);
    var st' := CompileStmt(P.funcs, st, s);
    var s0 := At(X.k, |st.code|, regs, w);
    PlacedFine(X, st, st');
    PartLoops(st, c, b, st');
    CondPart(X, st, st', c, |b.code|);
    PlacedPart(X, st, st', c, b);
    ReadyBound(st, E, rs, regs, keep);
    GrownSelf(E);
    var r := Eval(P, E, s.cond, w, fuel);
    var m1, regs1 := CondIn(X, st, c, |b.code|, E, rs, regs, w, keep, s.cond, fuel);
    if !r.Val? {
      n, regs' := m1, regs1;
      FailedCond(X, s0, |c.code|, |b.code|, Live(keep, rs), regs, r, fuel, n, regs');
      SFail(X, s0, |st'.code|, ContOf(st), keep, E, rs, regs, r, fuel, n, regs');
      return;
    }
    DecidedVal(X.J, s0, X.k, |c.code|, |b.code|, Live(keep, rs), regs, r, fuel, m1, regs1);
    if Truthy(P.env, r.w.trace, r.v) {
      CondReady(X, s0, m1, |c.code|, st, c, E, rs, regs, keep, regs1, r.w);
      var m2, regs2 := BlockCorrect(X, c, s.thn, E, rs, regs1, r.w, keep, fuel);
      n, regs' := m1 + m2, regs2;
      SSeq(X, s0, m1, At(X.k, |c.code|, regs1, r.w), |st'.code|, ContOf(st), keep, keep, E, rs, regs, E, rs, regs1,
           ExecBlock(P, E, s.thn, r.w, fuel), fuel, fuel, m2, regs2, rs);
    } else {
      n, regs' := m1, regs1;
      CondReady(X, s0, m1, |b.code|, st, c, E, rs, regs, keep, regs1, r.w);
      ReadyBound(c, E, rs, regs1, keep);
      SNext(X, s0, |st'.code|, ContOf(st), keep, E, rs, regs, E, r.w, fuel, n, regs', rs);
    }
  }

  lemma PartLoops(st: CS, a: CS, b: CS, st': CS)
    requires Part(st, a, b, st')
    ensures LoopsGrow(a, st') && |a.code| <= |b.code| <= |st'.code|
    ensures Grows(a, b) ==> a.pool <= st'.pool && a.peak <= st'.peak && a.keys <= st'.keys && a.errs <= st'.errs
  {
    LoopsTrans(a, b, st');
    hide LoopsGrow;
  }

  predicate Taking(s: Stmt) { s.Block? || s.If? }

  lemma IfJoinIs(c: CS, b: CS)
    requires |c.code| <= |b.code| && 0 < |c.code|
    ensures var f := IfJoin(c, b);
      && |f.code| == |b.code| + 1 && Pending(f.code[|b.code|]) && f == b.(code := f.code)
      && (forall i :: 0 <= i < |b.code| && i != |c.code| - 1 ==> f.code[i] == b.code[i])
      && f.code[|c.code| - 1] == MakeAsBx(b.code[|c.code| - 1].op, b.code[|c.code| - 1].a, ToI16(|f.code| - |c.code|))
  {
    hide MakeAsBx;
    hide ToI16;
  }

  lemma ElseIs(P: Prog, st: CS, s: Stmt, E: Scope, w: World, fuel: nat)
    requires s.If? && s.els.Some?
    ensures var c := CondJump(P.funcs, st, s.cond);
      var b := CompileBlock(P.funcs, c, s.thn);
      var f := IfJoin(c, b);
      var g := if Taking(s.els.value) then CompileStmt(P.funcs, f, s.els.value) else f;
      CompileStmt(P.funcs, st, s) == PatchSbx(g, |b.code|, |g.code| - |b.code| - 1)
    ensures var r := Eval(P, E, s.cond, w, fuel);
      ExecStmt(P, E, s, w, fuel) ==
        if !r.Val? then Leave(r, E)
        else if Truthy(P.env, r.w.trace, r.v) then ExecBlock(P, E, s.thn, r.w, fuel)
        else if Taking(s.els.value) then ExecStmt(P, E, s.els.value, r.w, fuel) else Done(Next, E, r.w)
  {
    hide CondJump;
    hide CompileBlock;
    hide Eval;
    hide Truthy;
    hide ExecBlock;
    hide IfJoin;
    hide PatchSbx;
  }

  lemma PatchKeeps(g: CS, ip: int, off: int)
    ensures var d := PatchSbx(g, ip, off); |d.code| == |g.code| && d == g.(code := d.code)
  {
    hide MakeAsBx;
    hide ToI16;
  }

  /**
   An if with two branches as the machine sees it, from st to d: the condition ends at c, the branches are c..b and
   f..g.
   */
  ghost predicate ElseShape(st: CS, c: CS, b: CS, f: CS, g: CS, d: CS) {
    && |st.code| < |c.code| <= |b.code| && |f.code| == |b.code| + 1 <= |g.code| == |d.code|
      && c.code[|c.code| - 1].op == JF
    && Shape(st, c) && SShape(st, c) && SShape(st, f) && c.locals == st.locals == f.locals
    && Part(st, c, b, d) && Part(st, f, g, d) && Grows(c, b) && Grows(f, g)
    && (forall i :: |st.code| <= i < |c.code| - 1 ==> d.code[i] == c.code[i])
    && d.code[|c.code| - 1] == FalseJump(c.code[|c.code| - 1].a, |f.code| - |c.code|)
    && d.code[|b.code|] == Leap(|b.code|, |g.code|) && !NewBreak(st, d, |b.code|)
  }

  lemma ElseShapeIntro(st: CS, c: CS, b: CS, f: CS, g: CS, d: CS)
    requires |st.code| < |c.code| <= |b.code| && |f.code| == |b.code| + 1 <= |g.code| == |d.code|
      && c.code[|c.code| - 1].op == JF
    requires Shape(st, c) && SShape(st, c) && SShape(st, f) && c.locals == st.locals == f.locals
    requires Part(st, c, b, d) && Part(st, f, g, d) && Grows(c, b) && Grows(f, g)
    requires (forall i :: |st.code| <= i < |c.code| - 1 ==> d.code[i] == c.code[i])
    requires d.code[|c.code| - 1] == FalseJump(c.code[|c.code| - 1].a, |f.code| - |c.code|)
    requires d.code[|b.code|] == Leap(|b.code|, |g.code|) && !NewBreak(st, d, |b.code|)
    ensures ElseShape(st, c, b, f, g, d)
  {
    hide Part;
    hide Shape;
    hide SShape;
    hide NewBreak;
    hide Leap;
    hide FalseJump;
    hide Grows;
  }

  lemma ElseShapeElim(st: CS, c: CS, b: CS, f: CS, g: CS, d: CS)
    requires ElseShape(st, c, b, f, g, d)
    ensures |st.code| < |c.code| <= |b.code| && |f.code| == |b.code| + 1 <= |g.code| == |d.code|
      && c.code[|c.code| - 1].op == JF
    ensures Shape(st, c) && SShape(st, c) && SShape(st, f) && c.locals == st.locals == f.locals
    ensures Part(st, c, b, d) && Part(st, f, g, d) && Grows(c, b) && Grows(f, g)
    ensures (forall i :: |st.code| <= i < |c.code| - 1 ==> d.code[i] == c.code[i])
    ensures d.code[|c.code| - 1] == FalseJump(c.code[|c.code| - 1].a, |f.code| - |c.code|)
    ensures d.code[|b.code|] == Leap(|b.code|, |g.code|) && !NewBreak(st, d, |b.code|)
  {
    hide Part;
    hide Shape;
    hide SShape;
    hide NewBreak;
    hide Leap;
    hide FalseJump;
    hide Grows;
  }

  lemma ElseCode(P: Prog, st: CS, s: Stmt)
    requires s.If? && s.els.Some?
    ensures var c := CondJump(P.funcs, st, s.cond);
      var b := CompileBlock(P.funcs, c, s.thn);
      var f := IfJoin(c, b);
      var g := if Taking(s.els.value) then CompileStmt(P.funcs, f, s.els.value) else f;
      ElseShape(st, c, b, f, g, PatchSbx(g, |b.code|, |g.code| - |b.code| - 1))
  {
    hide *;
    var c := CondJump(P.funcs, st, s.cond);
    var b := CompileBlock(P.funcs, c, s.thn);
    var f := IfJoin(c, b);
    var g := if Taking(s.els.value) then CompileStmt(P.funcs, f, s.els.value) else f;
    var st' := PatchSbx(g, |b.code|, |g.code| - |b.code| - 1);
    CondIs(P.funcs, st, s.cond);
    SShapeCondJump(P.funcs, st, s.cond);
    SShapeBlock(P.funcs, c, s.thn);
    SLoops(st, c);
    SLoops(c, b);
    SGrows(c, b);
    IfJoinIs(c, b);
    SShapeJoin(st, c, b);
    if Taking(s.els.value) { SShapeStmt(P.funcs, f, s.els.value); } else { SShapeRefl(f); }
    SLoops(f, g);
    SGrows(f, g);
    SLoops(st, f);
    PatchKeeps(g, |b.code|, |g.code| - |b.code| - 1);
    ElseLoops(st, c, b, f, g, st');
    ElseBytes(st, c, b, f, g, st');
    PartIntro(st, c, b, st');
    PartIntro(st, f, g, st');
    ElseShapeIntro(st, c, b, f, g, st');
  }

  lemma SGrows(a: CS, b: CS)
    requires Grows(a, b)
    ensures a.code <= b.code && a.pool <= b.pool && a.peak <= b.peak && a.keys <= b.keys && a.errs <= b.errs
  {
  }

  lemma PartIntro(st: CS, a: CS, b: CS, st': CS)
    requires LoopsGrow(st, a) && LoopsGrow(a, b) && LoopsGrow(b, st') && |st.code| <= |a.code| <= |b.code| <= |st'.code|
    requires (forall i :: |a.code| <= i < |b.code| ==> st'.code[i] == b.code[i])
    requires b.pool <= st'.pool && b.peak <= st'.peak && b.keys <= st'.keys && b.errs <= st'.errs
    ensures Part(st, a, b, st')
  {
    hide LoopsGrow;
  }

  lemma ElseLoops(st: CS, c: CS, b: CS, f: CS, g: CS, st': CS)
    requires LoopsGrow(st, f) && LoopsGrow(f, g) && f.loops == b.loops
      && |b.code| + 1 == |f.code| <= |g.code| == |st'.code|
    requires st'.loops == g.loops && !NewBreak(st, f, |b.code|)
    ensures LoopsGrow(b, st') && LoopsGrow(f, st') && LoopsGrow(g, st') && !NewBreak(st, st', |b.code|)
  {
    SSelf(g);
    LoopsAs(f, g, st');
    LoopsAs(g, g, st');
    BreakSplit(st, f, st', |b.code|);
    NoBreak(f, st', |b.code|);
    assert Breaks(b) == Breaks(f);
    assert forall i :: NewBreak(b, st', i) == NewBreak(f, st', i);
    hide NewBreak;
  }

  lemma PendingIs(ins: Instr)
    requires Pending(ins)
    ensures ins.op == JMP && ins.a == 0
  {
  }

  /** A waiting jump, aimed. */
  lemma LeapPatch(g: CS, ip: int, target: int)
    requires 0 <= ip < |g.code| && Pending(g.code[ip])
    ensures var d := PatchSbx(g, ip, target - ip - 1); d == g.(code := g.code[ip := Leap(ip, target)])
  {
    hide MakeAsBx;
    hide ToI16;
  }

  lemma ElseBytes(st: CS, c: CS, b: CS, f: CS, g: CS, st': CS)
    requires |st.code| < |c.code| <= |b.code| && c.code <= b.code && |f.code| == |b.code| + 1 && f.code <= g.code
    requires c.code[|c.code| - 1].op == JF
    requires (forall i :: 0 <= i < |b.code| && i != |c.code| - 1 ==> f.code[i] == b.code[i])
    requires Pending(f.code[|b.code|])
    requires f.code[|c.code| - 1] == MakeAsBx(b.code[|c.code| - 1].op, b.code[|c.code| - 1].a,
      ToI16(|f.code| - |c.code|))
    requires st' == PatchSbx(g, |b.code|, |g.code| - |b.code| - 1)
    ensures (forall i :: |st.code| <= i < |c.code| - 1 ==> st'.code[i] == c.code[i])
    ensures (forall i :: |c.code| <= i < |b.code| ==> st'.code[i] == b.code[i])
    ensures (forall i :: |f.code| <= i < |g.code| ==> st'.code[i] == g.code[i])
    ensures st'.code[|c.code| - 1] == FalseJump(c.code[|c.code| - 1].a, |f.code| - |c.code|)
    ensures st'.code[|b.code|] == Leap(|b.code|, |g.code|)
  {
    hide ToI16;
    hide MakeAsBx;
    hide PatchSbx;
    hide Leap;
    assert g.code[|b.code|] == f.code[|b.code|];
    LeapPatch(g, |b.code|, |g.code|);
    var ip := |c.code| - 1;
    assert b.code[ip] == c.code[ip];
    assert g.code[ip] == f.code[ip];
    assert forall i :: 0 <= i < |f.code| && i != |b.code| ==> st'.code[i] == f.code[i];
  }

  lemma {:induction false} ElseCorrect(X: Site, st: CS, s: Stmt, E: Scope, rs: seq<int>, regs: Regs, w: World,
    keep: set<int>, fuel: nat)
    returns (n: nat, regs': Regs)
    requires s.If? && s.els.Some?
    requires Placed(X, st, CompileStmt(X.J.P.funcs, st, s)) && Ready(st, E, rs, regs, keep) && CallsOk(X.J, fuel)
    requires SafeStmts(s.thn, st.locals.Keys, X.brk, X.inTry) && SafeStmt(s.els.value, st.locals.Keys, X.brk, X.inTry)
    ensures SEnds(X, At(X.k, |st.code|, regs, w), |CompileStmt(X.J.P.funcs, st, s).code|, ContOf(st), keep, E, rs, regs,
                  ExecStmt(X.J.P, E, s, w, fuel), fuel, n, regs', rs)
    decreases fuel, s, 1
  {
    hide *;
    var P := X.J.P;
    ElseIs(P, st, s, E, w, fuel);
    ElseCode(P, st, s);
    var c := CondJump(P.funcs, st, s.cond);
    var b := CompileBlock(P.funcs, c, s.thn);
    var f := IfJoin(c, b);
    var g := if Taking(s.els.value) then CompileStmt(P.funcs, f, s.els.value) else f;
    var st' := CompileStmt(P.funcs, st, s);
    var s0 := At(X.k, |st.code|, regs, w);
    ElseShapeElim(st, c, b, f, g, st');
    PlacedFine(X, st, st');
    PartLoops(st, c, b, st');
    PartLoops(st, f, g, st');
    CondPart(X, st, st', c, |f.code|);
    PlacedPart(X, st, st', c, b);
    PlacedPart(X, st, st', f, g);
    PlacedFine(X, f, g);
    FineBefore(f, g);
    ReadyBound(st, E, rs, regs, keep);
    GrownSelf(E);
    var r := Eval(P, E, s.cond, w, fuel);
    var m1, regs1 := CondIn(X, st, c, |f.code|, E, rs, regs, w, keep, s.cond, fuel);
    if !r.Val? {
      n, regs' := m1, regs1;
      FailedCond(X, s0, |c.code|, |f.code|, Live(keep, rs), regs, r, fuel, n, regs');
      SFail(X, s0, |st'.code|, ContOf(st), keep, E, rs, regs, r, fuel, n, regs');
      return;
    }
    DecidedVal(X.J, s0, X.k, |c.code|, |f.code|, Live(keep, rs), regs, r, fuel, m1, regs1);
    if Truthy(P.env, r.w.trace, r.v) {
      CondReady(X, s0, m1, |c.code|, st, c, E, rs, regs, keep, regs1, r.w);
      var m2, regs2 := BlockCorrect(X, c, s.thn, E, rs, regs1, r.w, keep, fuel);
      var eff := ExecBlock(P, E, s.thn, r.w, fuel);
      FetchPart(X, st, st', |b.code|);
      SSeq(X, s0, m1, At(X.k, |c.code|, regs1, r.w), |b.code|, ContOf(st), keep, keep, E, rs, regs, E, rs, regs1,
           eff, fuel, fuel, m2, regs2, rs);
      n := SLeap(X, s0, |b.code|, |g.code|, ContOf(st), keep, E, rs, regs, eff, fuel, m1 + m2, regs2, rs);
      regs' := regs2;
    } else {
      CondReady(X, s0, m1, |f.code|, st, f, E, rs, regs, keep, regs1, r.w);
      if Taking(s.els.value) {
        var m2, regs2 := TakingCorrect(X, f, s.els.value, E, rs, regs1, r.w, keep, fuel);
        n, regs' := m1 + m2, regs2;
        SSeq(X, s0, m1, At(X.k, |f.code|, regs1, r.w), |st'.code|, ContOf(st), keep, keep, E, rs, regs, E, rs, regs1,
             ExecStmt(P, E, s.els.value, r.w, fuel), fuel, fuel, m2, regs2, rs);
      } else {
        n, regs' := m1, regs1;
        ReadyBound(f, E, rs, regs1, keep);
        SNext(X, s0, |st'.code|, ContOf(st), keep, E, rs, regs, E, r.w, fuel, n, regs', rs);
      }
    }
  }

  lemma FineBefore(a: CS, b: CS)
    requires Grows(a, b) && Fine(b)
    ensures Fine(a)
  {
  }

  /** The second branch of an if: a block, or another if. */
  lemma {:induction false} TakingCorrect(X: Site, st: CS, s: Stmt, E: Scope, rs: seq<int>, regs: Regs, w: World,
    keep: set<int>, fuel: nat)
    returns (n: nat, regs': Regs)
    requires Taking(s)
    requires Placed(X, st, CompileStmt(X.J.P.funcs, st, s)) && Ready(st, E, rs, regs, keep) && CallsOk(X.J, fuel)
    requires SafeStmt(s, st.locals.Keys, X.brk, X.inTry)
    ensures SEnds(X, At(X.k, |st.code|, regs, w), |CompileStmt(X.J.P.funcs, st, s).code|, ContOf(st), keep, E, rs, regs,
                  ExecStmt(X.J.P, E, s, w, fuel), fuel, n, regs', rs)
    decreases fuel, s, 2
  {
    SafeTaking(s, st.locals.Keys, X.brk, X.inTry);
    TakingIs(X.J.P, st, s, E, w, fuel);
    hide *;
    if s.Block? {
      n, regs' := BlockCorrect(X, st, s.stmts, E, rs, regs, w, keep, fuel);
    } else if s.els == None {
      n, regs' := IfCorrect(X, st, s, E, rs, regs, w, keep, fuel);
    } else {
      n, regs' := ElseCorrect(X, st, s, E, rs, regs, w, keep, fuel);
    }
  }

  lemma TakingIs(P: Prog, st: CS, s: Stmt, E: Scope, w: World, fuel: nat)
    ensures s.Block? ==> CompileStmt(P.funcs, st, s) == CompileBlock(P.funcs, st, s.stmts)
    ensures s.Block? ==> ExecStmt(P, E, s, w, fuel) == ExecBlock(P, E, s.stmts, w, fuel)
    ensures Taking(s) ==> s.Block? || s.If?
  {
    hide CompileBlock;
    hide ExecBlock;
  }

  lemma SafeTaking(s: Stmt, vars: set<Text>, brk: bool, inTry: bool)
    requires SafeStmt(s, vars, brk, inTry)
    ensures s.Block? ==> SafeStmts(s.stmts, vars, brk, inTry)
    ensures s.If? ==> SafeStmts(s.thn, vars, brk, inTry) && (s.els.Some? ==> SafeStmt(s.els.value, vars, brk, inTry))
    ensures s.While? ==> SafeStmts(s.body, vars, true, inTry)
  {
  }

  // ---- while ----

  function Looped(st: CS): CS { st.(loops := st.loops + [Loop([], |st.code|)]) }

  lemma WhileIs(P: Prog, st: CS, s: Stmt)
    requires s.While?
    ensures var c := CondJump(P.funcs, Looped(st), s.cond);
      var b := CompileBlock(P.funcs, c, s.body);
      var j := EmitJump(b, JMP, 0, |st.code|);
      CompileStmt(P.funcs, st, s) == PopLoop(PatchSbx(j, |c.code| - 1, |j.code| - |c.code|), |j.code|)
  {
    hide CondJump;
    hide CompileBlock;
    hide EmitJump;
    hide PatchSbx;
    hide PopLoop;
  }

  lemma JumpIs(b: CS, target: nat)
    ensures EmitJump(b, JMP, 0, target) == b.(code := b.code + [Leap(|b.code|, target)])
  {
    hide MakeAsBx;
    hide ToI16;
  }

  /** The condition's jump, aimed. */
  lemma FalsePatch(j: CS, ip: int, off: int)
    requires 0 <= ip < |j.code| && j.code[ip].op == JF
    ensures PatchSbx(j, ip, off) == j.(code := j.code[ip := FalseJump(j.code[ip].a, off)])
  {
    hide MakeAsBx;
    hide ToI16;
  }

  /** Every break in the list is aimed at the end, and nothing else changes. */
  lemma PopBytes(c: CS, b: CS, p: CS, end: nat)
    requires SShape(c, b) && Breaks(c) == [] && p.loops == b.loops && p.loops != [] && |b.code| < |p.code|
    requires forall i :: |c.code| <= i < |b.code| ==> p.code[i] == b.code[i]
    ensures var d := PopLoop(p, end);
      && |d.code| == |p.code| && d == p.(code := d.code, loops := p.loops[..|p.loops| - 1])
      && (forall i :: 0 <= i < |p.code| && !(|c.code| <= i < |b.code|) ==> d.code[i] == p.code[i])
      && (forall i :: |c.code| <= i < |b.code| ==> d.code[i] == if NewBreak(c, b, i) then Leap(i, end) else b.code[i])
  {
    hide *;
    var q := p.(loops := p.loops[..|p.loops| - 1]);
    var ips := Breaks(b);
    PopIs(b, p, end);
    FirstBreaks(c, b);
    PatchAllShape(q, ips, end);
    forall i | |c.code| <= i < |b.code| && i in ips
      ensures PatchAll(q, ips, end).code[i] == Leap(i, end)
    {
      PendingIs(b.code[i]);
      PatchAllAims(q, ips, end, i);
      LeapIs(i, end);
    }
  }

  lemma LeapIs(i: int, end: int)
    ensures Leap(i, end) == MakeAsBx(JMP, 0, ToI16(end - i - 1))
  {
    hide MakeAsBx;
    hide ToI16;
  }

  lemma LoopedFacts(st: CS)
    ensures Breaks(Looped(st)) == [] && ContOf(Looped(st)) == |st.code| && Looped(st).locals == st.locals
      && |Looped(st).code| == |st.code|
    ensures Looped(st).loops[..|Looped(st).loops| - 1] == st.loops
  {
  }

  lemma WhileCode(P: Prog, st: CS, s: Stmt)
    requires s.While?
    ensures var c := CondJump(P.funcs, Looped(st), s.cond);
      var b := CompileBlock(P.funcs, c, s.body);
      var st' := CompileStmt(P.funcs, st, s);
      && Shape(Looped(st), c) && SShape(Looped(st), c) && c.locals == st.locals && LoopsGrow(c, b)
      && |st.code| < |c.code| <= |b.code| && |st'.code| == |b.code| + 1 && c.code[|c.code| - 1].op == JF
        && ContOf(c) == |st.code|
      && (forall i :: |st.code| <= i < |c.code| - 1 ==> st'.code[i] == c.code[i])
      && st'.code[|c.code| - 1] == FalseJump(c.code[|c.code| - 1].a, |st'.code| - |c.code|)
      && (forall i :: |c.code| <= i < |b.code| ==>
        st'.code[i] == if NewBreak(c, b, i) then Leap(i, |st'.code|) else b.code[i])
      && st'.code[|b.code|] == Leap(|b.code|, |st.code|)
      && Grows(c, b) && b.pool == st'.pool && b.peak == st'.peak && b.keys == st'.keys && b.errs == st'.errs
  {
    hide *;
    WhileIs(P, st, s);
    LoopedFacts(st);
    var c := CondJump(P.funcs, Looped(st), s.cond);
    var b := CompileBlock(P.funcs, c, s.body);
    var j := EmitJump(b, JMP, 0, |st.code|);
    var p := PatchSbx(j, |c.code| - 1, |j.code| - |c.code|);
    CondIs(P.funcs, Looped(st), s.cond);
    SShapeCondJump(P.funcs, Looped(st), s.cond);
    SShapeBlock(P.funcs, c, s.body);
    SLoops(Looped(st), c);
    SLoops(c, b);
    SGrows(c, b);
    ContLoops(Looped(st), c);
    JumpIs(b, |st.code|);
    assert c.code[|c.code| - 1] == b.code[|c.code| - 1] == j.code[|c.code| - 1];
    FalsePatch(j, |c.code| - 1, |j.code| - |c.code|);
    LoopsLen(c, b);
    LoopsLen(Looped(st), c);
    LoopedMore(st);
    assert |p.loops| > 0;
    PopBytes(c, b, p, |j.code|);
  }

  lemma LoopedMore(st: CS)
    ensures |Looped(st).loops| == |st.loops| + 1
  {
  }

  lemma LoopsLen(a: CS, b: CS)
    requires LoopsGrow(a, b)
    ensures |a.loops| == |b.loops|
  {
  }

  lemma WhileStep(P: Prog, E: Scope, s: Stmt, w: World, fuel: nat)
    requires s.While?
    ensures ExecStmt(P, E, s, w, fuel) == ExecWhile(P, E, s, w, fuel)
    ensures var r := Eval(P, E, s.cond, w, fuel);
      ExecWhile(P, E, s, w, fuel) ==
        if !r.Val? then Leave(r, E)
        else if !Truthy(P.env, r.w.trace, r.v) then Done(Next, E, r.w)
        else LoopNext(P, s, ExecBlock(P, E, s.body, r.w, fuel), fuel)
  {
    hide Eval;
    hide Truthy;
    hide ExecBlock;
  }

  /** What follows one turn of the loop. */
  function LoopNext(P: Prog, s: Stmt, eff: Effect, fuel: nat): Effect
    requires s.While?
  {
    if !eff.Done? then Stuck(eff.w)
    else if eff.sig == Brk then Done(Next, eff.env, eff.w)
    else if eff.sig == Next || eff.sig == Cont then
      if fuel == 0 then Stuck(eff.w) else ExecWhile(P, eff.env, s, eff.w, fuel - 1)
    else eff
  }

  lemma WhilePlaces(X: Site, st: CS, st': CS, c: CS, b: CS)
    requires Placed(X, st, st') && st'.loops == st.loops
    requires |st.code| < |c.code| <= |b.code| && |st'.code| == |b.code| + 1
    requires Shape(Looped(st), c) && LoopsGrow(c, b) && c.code[|c.code| - 1].op == JF && ContOf(c) == |st.code|
    requires (forall i :: |st.code| <= i < |c.code| - 1 ==> st'.code[i] == c.code[i])
    requires st'.code[|c.code| - 1] == FalseJump(c.code[|c.code| - 1].a, |st'.code| - |c.code|)
    requires (forall i :: |c.code| <= i < |b.code| ==>
      st'.code[i] == if NewBreak(c, b, i) then Leap(i, |st'.code|) else b.code[i])
    requires Grows(c, b) && b.pool == st'.pool && b.peak == st'.peak && b.keys == st'.keys && b.errs == st'.errs
    ensures CondPlaced(X, Looped(st), c, |st'.code|) && Fine(c)
    ensures Placed(Site(X.J, X.k, |st'.code|, true, X.inTry), c, b)
    ensures Fetches(X.J, X.k, |b.code|, st'.code[|b.code|])
  {
    forall i
      ensures !NewBreak(st, st', i)
    {
      NoBreak(st, st', i);
    }
    hide NewBreak;
    hide FalseJump;
    hide Leap;
    hide Shape;
    hide LoopsGrow;
  }

  lemma WhileLoops(funcs: seq<FuncDecl>, st: CS, s: Stmt)
    requires s.While?
    ensures CompileStmt(funcs, st, s).loops == st.loops
  {
    hide *;
    WhileIs(Prog(funcs, Env((t, e) => Ok(Null), (t, e) => NativeStep.Return(Null), (t, v) => false, (t, v) => [],
      t => t, map[])), st, s);
    LoopedFacts(st);
    var c := CondJump(funcs, Looped(st), s.cond);
    var b := CompileBlock(funcs, c, s.body);
    SShapeCondJump(funcs, Looped(st), s.cond);
    SShapeBlock(funcs, c, s.body);
    SLoops(Looped(st), c);
    SLoops(c, b);
    LoopsTrans(Looped(st), c, b);
    var j := EmitJump(b, JMP, 0, |st.code|);
    JumpIs(b, |st.code|);
    PatchKeeps(j, |c.code| - 1, |j.code| - |c.code|);
    PopDrops(st, b, PatchSbx(j, |c.code| - 1, |j.code| - |c.code|), |j.code|);
  }

  lemma PopDrops(st: CS, b: CS, p: CS, end: nat)
    requires LoopsGrow(Looped(st), b) && p.loops == b.loops
    ensures PopLoop(p, end).loops == st.loops
  {
    var q := p.(loops := p.loops[..|p.loops| - 1]);
    assert q.loops == st.loops;
    PatchAllShape(q, p.loops[|p.loops| - 1].breaks, end);
    hide PatchAll;
  }

  lemma ReadyLoops(st: CS, E: Scope, rs: seq<int>, regs: Regs, keep: set<int>)
    requires Ready(st, E, rs, regs, keep)
    ensures Ready(Looped(st), E, rs, regs, keep)
  {
    assert forall q :: Held(Looped(st), q) == Held(st, q);
    hide Held;
    assert Inv(Looped(st));
    hide Inv;
  }

  /** The end of a turn: back at the condition, past the loop, or out of it. */
  lemma TurnEnds(X: Site, X1: Site, t: State, ip: int, start: int, end: int, keep: set<int>, E: Scope, rs: seq<int>,
    regs: Regs, eff: Effect, fuel: nat, n: nat, regs': Regs, ip': int, ct: int)
    returns (m: nat)
    requires X1 == Site(X.J, X.k, end, true, X.inTry)
    requires SEnds(X1, t, ip, start, keep, E, rs, regs, eff, fuel, n, regs', rs) && (eff.Done? ==> |eff.env| == |E|)
    requires Fetches(X.J, X.k, ip, Leap(ip, start)) && 0 <= start < 0x8000 && 0 <= ip < 0x7fff
    ensures eff.Done? && (eff.sig == Next || eff.sig == Cont) ==> Goes(X.J, t, m, At(X.k, start, regs', eff.w))
    ensures eff.Done? && eff.sig == Brk ==> Goes(X.J, t, m, At(X.k, end, regs', eff.w))
    ensures eff.Done? && (eff.sig == Next || eff.sig == Cont || eff.sig == Brk) ==>
      Bound(eff.env, rs, regs') && Same(keep, regs, regs') && Grown(E, eff.env)
    ensures !(eff.Done? && (eff.sig == Next || eff.sig == Cont || eff.sig == Brk)) ==>
      SEnds(X, t, ip', ct, keep, E, rs, regs, eff, fuel, m, regs', rs)
  {
    m := n;
    if eff.Done? {
      assert Trunc(eff.env, |E|) == eff.env;
      if eff.sig == Next {
        LeapStep(X, ip, start, regs', eff.w);
        hide Goes;
        m := n + 1;
        GoesTrans(X.J, t, n, At(X.k, ip, regs', eff.w), 1, At(X.k, start, regs', eff.w));
      }
    }
    hide Goes;
    hide Lives;
    hide Same;
    hide Bound;
  }

  lemma SStuck(X: Site, s: State, ip: int, ct: int, keep: set<int>, E: Scope, rs: seq<int>, regs: Regs, fuel: nat,
    n: nat, regs': Regs, rs': seq<int>, w: World)
    requires Lives(X.J, s, fuel, w)
    ensures SEnds(X, s, ip, ct, keep, E, rs, regs, Stuck(w), fuel, n, regs', rs')
  {
  }

  lemma SameTrans(keep: set<int>, a: Regs, b: Regs, c: Regs)
    requires Same(keep, a, b) && Same(keep, b, c)
    ensures Same(keep, a, c)
  {
  }

  lemma LoopNextIs(P: Prog, s: Stmt, eff: Effect, fuel: nat)
    requires s.While?
    ensures LoopNext(P, s, eff, fuel) ==
      if !eff.Done? then Stuck(eff.w)
      else if eff.sig == Brk then Done(Next, eff.env, eff.w)
      else if eff.sig == Next || eff.sig == Cont then
        if fuel == 0 then Stuck(eff.w) else ExecWhile(P, eff.env, s, eff.w, fuel - 1)
      else eff
  {
    hide ExecWhile;
  }

  lemma SafeWhile(s: Stmt, vars: set<Text>, brk: bool, inTry: bool)
    requires s.While? && SafeStmt(s, vars, brk, inTry)
    ensures SafeStmts(s.body, vars, true, inTry)
  {
  }

  lemma {:induction false} WhileCorrect(X: Site, st: CS, s: Stmt, E: Scope, rs: seq<int>, regs: Regs, w: World,
    keep: set<int>, fuel: nat)
    returns (n: nat, regs': Regs)
    requires s.While?
    requires Placed(X, st, CompileStmt(X.J.P.funcs, st, s)) && Ready(st, E, rs, regs, keep) && CallsOk(X.J, fuel)
    requires SafeStmt(s, st.locals.Keys, X.brk, X.inTry)
    ensures SEnds(X, At(X.k, |st.code|, regs, w), |CompileStmt(X.J.P.funcs, st, s).code|, ContOf(st), keep, E, rs, regs,
                  ExecWhile(X.J.P, E, s, w, fuel), fuel, n, regs', rs)
    ensures ExecWhile(X.J.P, E, s, w, fuel).Done? ==> |ExecWhile(X.J.P, E, s, w, fuel).env| == |E|
    decreases fuel, s, 1
  {
    hide *;
    var P := X.J.P;
    WhileCode(P, st, s);
    WhileLoops(P.funcs, st, s);
    WhileStep(P, E, s, w, fuel);
    LoopedFacts(st);
    SafeWhile(s, st.locals.Keys, X.brk, X.inTry);
    var st0 := Looped(st);
    var c := CondJump(P.funcs, st0, s.cond);
    var b := CompileBlock(P.funcs, c, s.body);
    var st' := CompileStmt(P.funcs, st, s);
    var end := |st'.code|;
    var s0 := At(X.k, |st.code|, regs, w);
    PlacedFine(X, st, st');
    WhilePlaces(X, st, st', c, b);
    ReadyLoops(st, E, rs, regs, keep);
    ReadyBound(st, E, rs, regs, keep);
    GrownSelf(E);
    var r := Eval(P, E, s.cond, w, fuel);
    var m1, regs1 := CondIn(X, st0, c, end, E, rs, regs, w, keep, s.cond, fuel);
    if !r.Val? {
      n, regs' := m1, regs1;
      FailedCond(X, s0, |c.code|, end, Live(keep, rs), regs, r, fuel, n, regs');
      SFail(X, s0, end, ContOf(st), keep, E, rs, regs, r, fuel, n, regs');
      LeaveEnv(r, E);
      return;
    }
    DecidedVal(X.J, s0, X.k, |c.code|, end, Live(keep, rs), regs, r, fuel, m1, regs1);
    if !Truthy(P.env, r.w.trace, r.v) {
      n, regs' := m1, regs1;
      CondReady(X, s0, m1, end, st0, c, E, rs, regs, keep, regs1, r.w);
      ReadyBound(c, E, rs, regs1, keep);
      SNext(X, s0, end, ContOf(st), keep, E, rs, regs, E, r.w, fuel, n, regs', rs);
      return;
    }
    CondReady(X, s0, m1, |c.code|, st0, c, E, rs, regs, keep, regs1, r.w);
    var X1 := Site(X.J, X.k, end, true, X.inTry);
    var t := At(X.k, |c.code|, regs1, r.w);
    var eff := ExecBlock(P, E, s.body, r.w, fuel);
    var m2, regs2 := BlockCorrect(X1, c, s.body, E, rs, regs1, r.w, keep, fuel);
    var m3 := TurnEnds(X, X1, t, |b.code|, |st.code|, end, keep, E, rs, regs1, eff, fuel, m2, regs2, end, ContOf(st));
    LoopNextIs(P, s, eff, fuel);
    if eff.Done? && (eff.sig == Next || eff.sig == Cont) {
      GoesTrans(X.J, s0, m1, t, m3, At(X.k, |st.code|, regs2, eff.w));
      SameTrans(keep, regs, regs1, regs2);
      if fuel == 0 {
        n, regs' := 0, regs;
        LivesZero(X.J, X.k, |st.code|, regs2, eff.w);
        LivesAfter(X.J, s0, m1 + m3, At(X.k, |st.code|, regs2, eff.w), 0, eff.w);
        SStuck(X, s0, end, ContOf(st), keep, E, rs, regs, fuel, n, regs', rs, eff.w);
      } else {
        SSelf(st);
        ReadyAgain(st, E, rs, regs, keep, st, eff.env, regs2);
        CallsFewer(X.J, fuel);
        var m4, regs4 := WhileCorrect(X, st, s, eff.env, rs, regs2, eff.w, keep, fuel - 1);
        n, regs' := m1 + m3 + m4, regs4;
        SSeq(X, s0, m1 + m3, At(X.k, |st.code|, regs2, eff.w), end, ContOf(st), keep, keep, E, rs, regs, eff.env, rs,
          regs2,
             ExecWhile(P, eff.env, s, eff.w, fuel - 1), fuel, fuel - 1, m4, regs4, rs);
      }
    } else if eff.Done? && eff.sig == Brk {
      n, regs' := m1 + m3, regs2;
      GoesTrans(X.J, s0, m1, t, m3, At(X.k, end, regs2, eff.w));
      SameTrans(keep, regs, regs1, regs2);
      SNext(X, s0, end, ContOf(st), keep, E, rs, regs, eff.env, eff.w, fuel, n, regs', rs);
    } else {
      n, regs' := m1 + m3, regs2;
      SSeq(X, s0, m1, t, end, ContOf(st), keep, keep, E, rs, regs, E, rs, regs1, eff, fuel, fuel, m3, regs2, rs);
    }
  }

  lemma LeaveEnv(r: Result, E: Scope)
    requires !r.Val?
    ensures Leave(r, E).Done? ==> Leave(r, E).env == E
  {
  }

  // ---- switch ----

  /** The cases from a to z as they stand in the machine: the jumps in `ends` leave the switch. */
  ghost predicate CasesPlaced(X: Site, a: CS, z: CS, ends: seq<int>, fin: int) {
    && JobOk(X.J) && Fine(z) && X.k.proto < |X.J.ch.protos|
    && |a.code| <= |z.code| <= |X.J.ch.protos[X.k.proto].code|
    && (forall p :: |a.code| <= p < |z.code| ==>
         X.J.ch.protos[X.k.proto].code[p] ==
           if NewBreak(a, z, p) then Leap(p, X.bk) else if p in ends then Leap(p, fin) else z.code[p])
    && z.pool <= X.J.ch.consts && 0 <= X.bk < 0x8000 && 0 <= ContOf(a) < 0x8000 && |z.code| <= fin < 0x8000
  }

  lemma CasesIs(funcs: seq<FuncDecl>, a: CS, cases: seq<Case>, tag: Byte)
    requires cases != []
    ensures var f := CaseFront(funcs, a, cases[0].values, tag);
      var b := CompileBlock(funcs, f, cases[0].body);
      var a1 := IfJoin(f, b);
      var (z, ends) := CompileCases(funcs, a1, cases[1..], tag);
      CompileCases(funcs, a, cases, tag) == (z, [|b.code| as int] + ends)
  {
    hide CaseFront;
    hide CompileBlock;
    hide IfJoin;
  }

  lemma CaseCode(funcs: seq<FuncDecl>, a: CS, cases: seq<Case>, tag: Byte)
    requires cases != []
    ensures var f := CaseFront(funcs, a, cases[0].values, tag);
      var b := CompileBlock(funcs, f, cases[0].body);
      var a1 := IfJoin(f, b);
      var (z, ends) := CompileCases(funcs, a1, cases[1..], tag);
      && Shape(a, f) && SShape(a, f) && SShape(a, a1) && f.locals == a.locals == a1.locals && f.loops == a.loops
      && LoopsGrow(f, b) && LoopsGrow(b, z) && LoopsGrow(a1, z) && Grows(f, b) && Grows(a1, z) && b.pool <= z.pool
        && b.peak <= z.peak && b.keys <= z.keys && b.errs <= z.errs
      && |a.code| < |f.code| <= |b.code| && |a1.code| == |b.code| + 1 <= |z.code| && f.code[|f.code| - 1].op == JF
      && (forall p :: |a.code| <= p < |f.code| - 1 ==> z.code[p] == f.code[p])
      && z.code[|f.code| - 1] == FalseJump(f.code[|f.code| - 1].a, |a1.code| - |f.code|)
      && (forall p :: |f.code| <= p < |b.code| ==> z.code[p] == b.code[p])
      && (forall p :: p in ends ==> |a1.code| <= p) && !NewBreak(a, z, |b.code|)
  {
    hide *;
    var f := CaseFront(funcs, a, cases[0].values, tag);
    var b := CompileBlock(funcs, f, cases[0].body);
    var a1 := IfJoin(f, b);
    var (z, ends) := CompileCases(funcs, a1, cases[1..], tag);
    FrontCode(funcs, a, cases[0].values, tag);
    FromShape(a, f);
    StmtShape.ShapeLoops(a, f);
    SShapeBlock(funcs, f, cases[0].body);
    SLoops(a, f);
    SLoops(f, b);
    SGrows(f, b);
    IfJoinIs(f, b);
    SShapeJoin(a, f, b);
    SLoops(a, a1);
    SShapeCases(funcs, a1, cases[1..], tag);
    SLoops(a1, z);
    SGrows(a1, z);
    BreakSplit(a, a1, z, |b.code|);
    NoBreak(a1, z, |b.code|);
    LoopsFrom(b, a1, z);
    CaseBytes(a, f, b, a1, z);
  }

  lemma LoopsFrom(b: CS, a1: CS, z: CS)
    requires a1.loops == b.loops && |b.code| <= |a1.code| && LoopsGrow(a1, z)
    ensures LoopsGrow(b, z)
  {
    assert Breaks(b) == Breaks(a1);
    assert forall i :: NewBreak(b, z, i) == NewBreak(a1, z, i);
    hide NewBreak;
  }

  lemma CaseBytes(a: CS, f: CS, b: CS, a1: CS, z: CS)
    requires |a.code| < |f.code| <= |b.code| && f.code <= b.code && |a1.code| == |b.code| + 1 && a1.code <= z.code
    requires f.code[|f.code| - 1].op == JF
    requires (forall i :: 0 <= i < |b.code| && i != |f.code| - 1 ==> a1.code[i] == b.code[i])
    requires a1.code[|f.code| - 1] == MakeAsBx(b.code[|f.code| - 1].op, b.code[|f.code| - 1].a,
      ToI16(|a1.code| - |f.code|))
    ensures (forall p :: |a.code| <= p < |f.code| - 1 ==> z.code[p] == f.code[p])
    ensures z.code[|f.code| - 1] == FalseJump(f.code[|f.code| - 1].a, |a1.code| - |f.code|)
    ensures (forall p :: |f.code| <= p < |b.code| ==> z.code[p] == b.code[p])
  {
    hide MakeAsBx;
    hide ToI16;
    var ip := |f.code| - 1;
    assert b.code[ip] == f.code[ip];
    assert z.code[ip] == a1.code[ip];
    assert forall i :: 0 <= i < |a1.code| ==> z.code[i] == a1.code[i];
  }

  lemma CasePlaces(X: Site, a: CS, f: CS, b: CS, a1: CS, z: CS, ends: seq<int>, fin: int)
    requires CasesPlaced(X, a, z, [|b.code| as int] + ends, fin)
    requires |a.code| < |f.code| <= |b.code| && |a1.code| == |b.code| + 1 <= |z.code| && f.code[|f.code| - 1].op == JF
    requires f.loops == a.loops && LoopsGrow(a, f) && LoopsGrow(f, b) && LoopsGrow(b, z) && LoopsGrow(a, a1)
      && LoopsGrow(a1, z)
    requires Grows(f, b) && b.pool <= z.pool && b.peak <= z.peak && b.keys <= z.keys && b.errs <= z.errs
    requires (forall p :: |a.code| <= p < |f.code| - 1 ==> z.code[p] == f.code[p])
    requires z.code[|f.code| - 1] == FalseJump(f.code[|f.code| - 1].a, |a1.code| - |f.code|)
    requires (forall p :: |f.code| <= p < |b.code| ==> z.code[p] == b.code[p])
    requires (forall p :: p in ends ==> |a1.code| <= p) && !NewBreak(a, z, |b.code|)
    ensures CondPlaced(X, a, f, |a1.code|) && Fine(f)
    ensures Placed(X, f, b)
    ensures Fetches(X.J, X.k, |b.code|, Leap(|b.code|, fin))
    ensures CasesPlaced(X, a1, z, ends, fin)
    ensures ContOf(f) == ContOf(a) == ContOf(a1)
  {
    forall p | |a.code| <= p < |f.code|
      ensures !NewBreak(a, z, p)
    {
      LoopsTrans(f, b, z);
      BreakSplit(a, f, z, p);
      NoBreak(f, z, p);
      SameLoopsNoBreak(a, f, p);
    }
    forall p | |f.code| <= p < |b.code|
      ensures NewBreak(a, z, p) <==> NewBreak(f, b, p)
    {
      RegionBreak(a, f, b, z, p);
    }
    forall p | |a1.code| <= p < |z.code|
      ensures NewBreak(a, z, p) <==> NewBreak(a1, z, p)
    {
      BreakSplit(a, a1, z, p);
      NoBreak(a, a1, p);
    }
    ContLoops(a, f);
    ContLoops(a, a1);
    hide LoopsGrow;
    hide NewBreak;
    hide FalseJump;
    hide Leap;
    hide ContOf;
    assert forall p :: p in [|b.code| as int] + ends <==> p == |b.code| || p in ends;
  }

  lemma SameLoopsNoBreak(a: CS, f: CS, p: int)
    requires f.loops == a.loops
    ensures !NewBreak(a, f, p)
  {
  }

  lemma SafeCasesSplit(cases: seq<Case>, vars: set<Text>, brk: bool, inTry: bool)
    requires cases != [] && SafeCases(cases, vars, brk, inTry)
    ensures SafeStmts(cases[0].body, vars, brk, inTry) && SafeCases(cases[1..], vars, brk, inTry)
  {
  }

  lemma CasesStep(P: Prog, E: Scope, s: Stmt, i: nat, tv: Value, w: World, fuel: nat)
    requires s.Switch? && i <= |s.cases|
    ensures i == |s.cases| ==>
      ExecCases(P, E, s, i, tv, w, fuel) == (if s.default.Default? then ExecBlock(P, E, s.default.body, w, fuel)
        else Done(Next, E, w))
    ensures i < |s.cases| ==>
      var r := EvalMatch(P, E, s.cases[i].values, tv, Bool(false), w, fuel);
      ExecCases(P, E, s, i, tv, w, fuel) ==
        if !r.Val? then Leave(r, E)
        else if Truthy(P.env, r.w.trace, r.v) then ExecBlock(P, E, s.cases[i].body, r.w, fuel)
        else ExecCases(P, E, s, i + 1, tv, r.w, fuel)
  {
    hide EvalMatch;
    hide ExecBlock;
    hide Truthy;
  }

  lemma NoCases(funcs: seq<FuncDecl>, a: CS, tag: Byte)
    ensures CompileCases(funcs, a, [], tag) == (a, [])
  {
  }

  function DefaultCode(funcs: seq<FuncDecl>, z: CS, s: Stmt): CS
    requires s.Switch?
  {
    if s.default.Default? then CompileBlock(funcs, z, s.default.body) else z
  }

  lemma {:induction false} DefaultCorrect(X: Site, z: CS, s: Stmt, E: Scope, rs: seq<int>, regs: Regs, w: World,
    keep: set<int>, tv: Value, fuel: nat)
    returns (n: nat, regs': Regs)
    requires s.Switch? && Placed(X, z, DefaultCode(X.J.P.funcs, z, s)) && Ready(z, E, rs, regs, keep)
      && CallsOk(X.J, fuel)
    requires s.default.Default? ==> SafeStmts(s.default.body, z.locals.Keys, X.brk, X.inTry)
    ensures var eff := ExecCases(X.J.P, E, s, |s.cases|, tv, w, fuel);
      && SEnds(X, At(X.k, |z.code|, regs, w), |DefaultCode(X.J.P.funcs, z, s).code|, ContOf(z), keep, E, rs, regs, eff,
        fuel, n, regs', rs)
      && (eff.Done? ==> |eff.env| == |E|)
    decreases fuel, s, 0
  {
    CasesStep(X.J.P, E, s, |s.cases|, tv, w, fuel);
    hide ExecCases;
    hide ExecBlock;
    hide CompileBlock;
    hide Placed;
    hide Ready;
    hide CallsOk;
    hide SafeStmts;
    hide SEnds;
    if s.default.Default? {
      n, regs' := BlockCorrect(X, z, s.default.body, E, rs, regs, w, keep, fuel);
    } else {
      n, regs' := 0, regs;
      SNothing(X, z, E, rs, regs, w, keep, ContOf(z), fuel);
    }
  }

  lemma {:induction false} CasesCorrect(X: Site, a: CS, s: Stmt, i: nat, tag: Byte, z: CS, ends: seq<int>, E: Scope,
    rs: seq<int>, regs: Regs, w: World, keep: set<int>, fuel: nat)
    returns (n: nat, regs': Regs)
    requires s.Switch? && i <= |s.cases| && CompileCases(X.J.P.funcs, a, s.cases[i..], tag) == (z, ends)
    requires CasesPlaced(X, a, z, ends, |DefaultCode(X.J.P.funcs, z, s).code|)
      && Placed(X, z, DefaultCode(X.J.P.funcs, z, s))
    requires Ready(a, E, rs, regs, keep) && CallsOk(X.J, fuel) && tag in keep
    requires SafeCases(s.cases[i..], a.locals.Keys, X.brk, X.inTry)
    requires s.default.Default? ==> SafeStmts(s.default.body, a.locals.Keys, X.brk, X.inTry)
    ensures var eff := ExecCases(X.J.P, E, s, i, Get(regs, tag), w, fuel);
      && SEnds(X, At(X.k, |a.code|, regs, w), |DefaultCode(X.J.P.funcs, z, s).code|, ContOf(a), keep, E, rs, regs, eff,
        fuel, n, regs', rs)
      && (eff.Done? ==> |eff.env| == |E|)
    decreases fuel, s, 1, |s.cases| - i
  {
    hide *;
    var P := X.J.P;
    var d := DefaultCode(P.funcs, z, s);
    var fin := |d.code|;
    var tv := Get(regs, tag);
    var s0 := At(X.k, |a.code|, regs, w);
    CasesStep(P, E, s, i, tv, w, fuel);
    if i == |s.cases| {
      assert s.cases[i..] == [];
      NoCases(P.funcs, a, tag);
      n, regs' := DefaultCorrect(X, a, s, E, rs, regs, w, keep, tv, fuel);
      return;
    }
    var cases := s.cases[i..];
    assert cases[0] == s.cases[i] && cases[1..] == s.cases[i + 1..];
    CasesIs(P.funcs, a, cases, tag);
    CaseCode(P.funcs, a, cases, tag);
    SafeCasesSplit(cases, a.locals.Keys, X.brk, X.inTry);
    var f := CaseFront(P.funcs, a, cases[0].values, tag);
    var b := CompileBlock(P.funcs, f, cases[0].body);
    var a1 := IfJoin(f, b);
    var ends1 := CompileCases(P.funcs, a1, cases[1..], tag).1;
    SLoops(a, f);
    SLoops(a, a1);
    CasePlaces(X, a, f, b, a1, z, ends1, fin);
    PlacedFine(X, z, d);
    CasesFit(X, a1, z, ends1, fin);
    FineBefore(a1, z);
    ReadyBound(a, E, rs, regs, keep);
    GrownSelf(E);
    var r := EvalMatch(P, E, cases[0].values, tv, Bool(false), w, fuel);
    var m1, regs1 := FrontCorrect(X, a, f, |a1.code|, E, rs, regs, w, keep, cases[0].values, tag, fuel);
    if !r.Val? {
      n, regs' := m1, regs1;
      FailedCond(X, s0, |f.code|, |a1.code|, Live(keep, rs), regs, r, fuel, n, regs');
      SFail(X, s0, fin, ContOf(a), keep, E, rs, regs, r, fuel, n, regs');
      LeaveEnv(r, E);
      return;
    }
    DecidedVal(X.J, s0, X.k, |f.code|, |a1.code|, Live(keep, rs), regs, r, fuel, m1, regs1);
    if Truthy(P.env, r.w.trace, r.v) {
      CondReady(X, s0, m1, |f.code|, a, f, E, rs, regs, keep, regs1, r.w);
      var m2, regs2 := BlockCorrect(X, f, cases[0].body, E, rs, regs1, r.w, keep, fuel);
      var eff := ExecBlock(P, E, cases[0].body, r.w, fuel);
      SSeq(X, s0, m1, At(X.k, |f.code|, regs1, r.w), |b.code|, ContOf(a), keep, keep, E, rs, regs, E, rs, regs1,
           eff, fuel, fuel, m2, regs2, rs);
      n := SLeap(X, s0, |b.code|, fin, ContOf(a), keep, E, rs, regs, eff, fuel, m1 + m2, regs2, rs);
      regs' := regs2;
    } else {
      CondReady(X, s0, m1, |a1.code|, a, a1, E, rs, regs, keep, regs1, r.w);
      KeptTag(keep, regs, regs1, tag);
      var m2, regs2 := CasesCorrect(X, a1, s, i + 1, tag, z, ends1, E, rs, regs1, r.w, keep, fuel);
      n, regs' := m1 + m2, regs2;
      SSeq(X, s0, m1, At(X.k, |a1.code|, regs1, r.w), fin, ContOf(a), keep, keep, E, rs, regs, E, rs, regs1,
           ExecCases(P, E, s, i + 1, tv, r.w, fuel), fuel, fuel, m2, regs2, rs);
    }
  }

  lemma KeptTag(keep: set<int>, regs: Regs, regs1: Regs, tag: int)
    requires Same(keep, regs, regs1) && tag in keep
    ensures Get(regs1, tag) == Get(regs, tag)
  {
  }

  lemma CasesFit(X: Site, a: CS, z: CS, ends: seq<int>, fin: int)
    requires CasesPlaced(X, a, z, ends, fin)
    ensures |a.code| <= |z.code| <= fin < 0x8000 && Fine(z)
  {
  }

  lemma SwitchIs(P: Prog, st: CS, s: Stmt, E: Scope, w: World, fuel: nat)
    requires s.Switch?
    ensures var (st1, tr) := Alloc(st);
      var st2 := CompileExpr(P.funcs, st1, s.tag, tr);
      var (z, ends) := CompileCases(P.funcs, st2, s.cases, tr);
      var d := DefaultCode(P.funcs, z, s);
      CompileStmt(P.funcs, st, s) == Free(PatchAll(d, ends, |d.code|), tr)
    ensures var r := Eval(P, E, s.tag, w, fuel);
      ExecStmt(P, E, s, w, fuel) == if r.Val? then ExecCases(P, E, s, 0, r.v, r.w, fuel) else Leave(r, E)
  {
    hide Alloc;
    hide CompileExpr;
    hide CompileCases;
    hide CompileBlock;
    hide PatchAll;
    hide Free;
    hide Eval;
    hide ExecCases;
  }

  lemma SwitchCode(funcs: seq<FuncDecl>, st: CS, s: Stmt)
    requires s.Switch?
    ensures var (st1, tr) := Alloc(st);
      var st2 := CompileExpr(funcs, st1, s.tag, tr);
      var (z, ends) := CompileCases(funcs, st2, s.cases, tr);
      var d := DefaultCode(funcs, z, s);
      var st' := Free(PatchAll(d, ends, |d.code|), tr);
      && Shape(st, st2) && Grows(st1, st2) && st2.locals == z.locals == st.locals
        && |st.code| <= |st2.code| <= |z.code| <= |d.code| == |st'.code|
      && LoopsGrow(st, st2) && LoopsGrow(st2, z) && LoopsGrow(z, d) && LoopsGrow(d, st') && st'.loops == d.loops
        && Grows(st2, z) && Grows(z, d)
      && st'.pool == d.pool && st'.peak == d.peak && st'.keys == d.keys && st'.errs == d.errs
      && (forall p :: p in ends ==> |st2.code| <= p < |z.code| && !NewBreak(st2, z, p))
      && (forall p :: 0 <= p < |d.code| ==> st'.code[p] == if p in ends then Leap(p, |d.code|) else d.code[p])
  {
    hide *;
    var (st1, tr) := Alloc(st);
    var st2 := CompileExpr(funcs, st1, s.tag, tr);
    var (z, ends) := CompileCases(funcs, st2, s.cases, tr);
    var d := DefaultCode(funcs, z, s);
    var g := PatchAll(d, ends, |d.code|);
    ShapeAlloc(st);
    ShapeExpr(funcs, st1, s.tag, tr);
    ShapeTrans(st, st1, st2);
    ShapeIsGrows(st1, st2);
    CompilerShape.ShapeLocals(st, st2);
    FromShape(st, st2);
    SShapeCases(funcs, st2, s.cases, tr);
    DefaultShape(funcs, z, s);
    SLoops(st, st2);
    SLoops(st2, z);
    SLoops(z, d);
    SSelf(d);
    PatchAllShape(d, ends, |d.code|);
    FreeIs(g, tr);
    LoopsAs(d, d, Free(g, tr));
    SGrows(z, d);
    forall p | p in ends
      ensures g.code[p] == Leap(p, |d.code|)
    {
      assert d.code[p] == z.code[p] && Pending(z.code[p]);
      PendingIs(d.code[p]);
      PatchAllAims(d, ends, |d.code|, p);
      LeapIs(p, |d.code|);
    }
  }

  lemma DefaultShape(funcs: seq<FuncDecl>, z: CS, s: Stmt)
    requires s.Switch?
    ensures SShape(z, DefaultCode(funcs, z, s))
  {
    hide SShape;
    hide CompileBlock;
    if s.default.Default? {
      SShapeBlock(funcs, z, s.default.body);
    } else {
      SShapeRefl(z);
    }
  }

  lemma FreeIs(g: CS, r: Byte)
    ensures var d := Free(g, r);
      d.code == g.code && d.pool == g.pool && d.loops == g.loops && d.peak == g.peak
      && d.keys == g.keys && d.errs == g.errs
  {
  }

  lemma SwitchPlaces(X: Site, st: CS, st': CS, st2: CS, z: CS, d: CS, ends: seq<int>)
    requires Placed(X, st, st')
    requires |st.code| <= |st2.code| <= |z.code| <= |d.code| == |st'.code|
    requires LoopsGrow(st, st2) && LoopsGrow(st2, z) && LoopsGrow(z, d) && LoopsGrow(d, st') && Grows(st2, z)
      && Grows(z, d)
    requires st'.pool == d.pool && st'.peak == d.peak && st'.keys == d.keys && st'.errs == d.errs
    requires forall p :: p in ends ==> |st2.code| <= p < |z.code| && !NewBreak(st2, z, p)
    requires forall p :: 0 <= p < |d.code| ==> st'.code[p] == if p in ends then Leap(p, |d.code|) else d.code[p]
    ensures Placed(X, st, st2) && CasesPlaced(X, st2, z, ends, |d.code|) && Placed(X, z, d)
    ensures ContOf(st2) == ContOf(st) == ContOf(z)
  {
    LoopsTrans(z, d, st');
    LoopsTrans(st2, z, st');
    LoopsTrans(st, st2, z);
    SSelf(st);
    forall p | |st.code| <= p < |st2.code|
      ensures NewBreak(st, st', p) <==> NewBreak(st, st2, p)
    {
      RegionBreak(st, st, st2, st', p);
    }
    forall p | |st2.code| <= p < |z.code|
      ensures NewBreak(st, st', p) <==> NewBreak(st2, z, p)
    {
      RegionBreak(st, st2, z, st', p);
    }
    forall p | |z.code| <= p < |d.code|
      ensures NewBreak(st, st', p) <==> NewBreak(z, d, p)
    {
      RegionBreak(st, z, d, st', p);
    }
    ContLoops(st, st2);
    ContLoops(st, z);
    hide LoopsGrow;
    hide NewBreak;
    hide Leap;
    hide ContOf;
  }

  lemma SafeSwitch(s: Stmt, vars: set<Text>, brk: bool, inTry: bool)
    requires s.Switch? && SafeStmt(s, vars, brk, inTry)
    ensures SafeCases(s.cases, vars, brk, inTry) && (s.default.Default? ==> SafeStmts(s.default.body, vars, brk, inTry))
  {
  }

  /** After an operand: the scope is still in its registers, and the operand's register is in use. */
  lemma OperandReady(X: Site, st: CS, st2: CS, E: Scope, rs: seq<int>, regs: Regs, keep: set<int>, r: Byte, regs1: Regs,
    names: set<Text>)
    requires Ready(st, E, rs, regs, keep) && Shape(st, st2) && Same(Live(keep, rs), regs, regs1)
    requires Base(X.J, X.k, st2, st2, E, regs1, Live(keep, rs) + {r as int}, names) && r !in Live(keep, rs)
    ensures Ready(st2, E, rs, regs1, keep + {r as int}) && Same(keep, regs, regs1)
  {
    SameBound(E, rs, regs, keep, regs1);
    assert Held(st2, r) by { assert r as int in Live(keep, rs) + {r as int}; }
    assert forall q :: q in Live(keep, rs) ==> Held(st2, q);
    hide Held;
    hide Inv;
    assert forall q :: q in rs ==> q in Live(keep, rs);
  }

  lemma {:induction false} SwitchCorrect(X: Site, st: CS, s: Stmt, E: Scope, rs: seq<int>, regs: Regs, w: World,
    keep: set<int>, fuel: nat)
    returns (n: nat, regs': Regs)
    requires s.Switch?
    requires Placed(X, st, CompileStmt(X.J.P.funcs, st, s)) && Ready(st, E, rs, regs, keep) && CallsOk(X.J, fuel)
    requires SafeStmt(s, st.locals.Keys, X.brk, X.inTry)
    ensures var eff := ExecStmt(X.J.P, E, s, w, fuel);
      SEnds(X, At(X.k, |st.code|, regs, w), |CompileStmt(X.J.P.funcs, st, s).code|, ContOf(st), keep, E, rs, regs, eff,
        fuel, n, regs', rs)
    decreases fuel, s, 2
  {
    hide *;
    var P := X.J.P;
    SwitchIs(P, st, s, E, w, fuel);
    SwitchCode(P.funcs, st, s);
    SafeSwitch(s, st.locals.Keys, X.brk, X.inTry);
    var (st1, tr) := Alloc(st);
    var st2 := CompileExpr(P.funcs, st1, s.tag, tr);
    var (z, ends) := CompileCases(P.funcs, st2, s.cases, tr);
    var d := DefaultCode(P.funcs, z, s);
    var st' := CompileStmt(P.funcs, st, s);
    var names := Mentions(s.tag);
    var live := Live(keep, rs);
    var s0 := At(X.k, |st.code|, regs, w);
    SwitchPlaces(X, st, st', st2, z, d, ends);
    ExprSetting(X, st, st2, E, rs, regs, keep, names);
    ReadyBound(st, E, rs, regs, keep);
    ReachStart(X.J, X.k, |st.code|, live, regs, w);
    GrowsSelf(st2);
    var r := Eval(P, E, s.tag, w, fuel);
    var m1, regs1 := Operand(X.J, X.k, st, st2, E, s0, 0, live, regs, regs, w, live, names, s.tag, fuel);
    if !r.Val? {
      n, regs' := m1, regs1;
      SFail(X, s0, |st'.code|, ContOf(st), keep, E, rs, regs, r, fuel, n, regs');
      return;
    }
    ReachGoes(X.J, s0, m1, X.k, |st2.code|, live, regs, regs1, r.w);
    OperandReady(X, st, st2, E, rs, regs, keep, tr, regs1, names);
    GrownSelf(E);
    assert s.cases[0..] == s.cases;
    var m2, regs2 := CasesCorrect(X, st2, s, 0, tr, z, ends, E, rs, regs1, r.w, keep + {tr as int}, fuel);
    n, regs' := m1 + m2, regs2;
    SSeq(X, s0, m1, At(X.k, |st2.code|, regs1, r.w), |st'.code|, ContOf(st), keep, keep + {tr as int}, E, rs, regs, E,
      rs, regs1,
         ExecCases(P, E, s, 0, r.v, r.w, fuel), fuel, fuel, m2, regs2, rs);
  }

  // ---- try ----

  function Bind(st: CS, name: Text, r: Byte): CS { st.(locals := st.locals[name := r]) }

  lemma TryIs(P: Prog, st: CS, s: Stmt, E: Scope, w: World, fuel: nat)
    requires s.Try?
    ensures var (st1, er) := Alloc(st);
      var st2 := TryBody(P.funcs, st1, s, er);
      var h := CompileBlock(P.funcs, Bind(st2, s.errName, er), s.handler);
      CompileStmt(P.funcs, st, s) == Free(PatchSbx(h.(locals := st2.locals), |st2.code| - 1, |h.code| - |st2.code|), er)
    ensures var eff := ExecBlock(P, E, s.body, w, fuel);
      ExecStmt(P, E, s, w, fuel) ==
        if eff.Done? && eff.sig.Thrown? then Handled(P, E, s, eff.sig.msg, eff.env, eff.w, fuel) else eff
  {
    hide Alloc;
    hide TryBody;
    hide CompileBlock;
    hide PatchSbx;
    hide Free;
    hide ExecBlock;
  }

  /** The handler, with the error bound to its name. */
  function Handled(P: Prog, E: Scope, s: Stmt, msg: Text, E1: Scope, w1: World, fuel: nat): Effect
    requires s.Try?
  {
    var eff := ExecBlock(P, E1 + [Binding(s.errName, Str(FirstLine(msg)))], s.handler, w1, fuel);
    if eff.Done? then Done(eff.sig, Trunc(eff.env, |E|), eff.w) else Stuck(eff.w)
  }

  lemma HandledIs(P: Prog, E: Scope, s: Stmt, msg: Text, E1: Scope, w1: World, fuel: nat)
    requires s.Try?
    ensures var eff := ExecBlock(P, E1 + [Binding(s.errName, Str(FirstLine(msg)))], s.handler, w1, fuel);
      Handled(P, E, s, msg, E1, w1, fuel) == if eff.Done? then Done(eff.sig, Trunc(eff.env, |E|), eff.w)
        else Stuck(eff.w)
  {
    hide ExecBlock;
  }

  function TryJump(er: Byte, off: int): Instr { MakeAsBx(TRY, er, ToI16(off)) }

  lemma TryPatch(d: CS, ip: int, er: Byte, off: int)
    requires 0 <= ip < |d.code| && d.code[ip] == MakeAsBx(TRY, er, 0)
    ensures PatchSbx(d, ip, off) == d.(code := d.code[ip := TryJump(er, off)])
  {
    hide ToI16;
    var ins := MakeAsBx(TRY, er, 0);
    assert ins.op == TRY && ins.a == er;
    hide MakeAsBx;
  }

  /** The protected block between its two brackets. */
  lemma TryBodyCode(funcs: seq<FuncDecl>, st1: CS, s: Stmt, er: Byte)
    requires s.Try?
    ensures var a := Emit(st1, MakeAsBx(TRY, er, 0));
      var b := CompileBlock(funcs, a, s.body);
      var st2 := TryBody(funcs, st1, s, er);
      && |a.code| == |st1.code| + 1 <= |b.code| && |st2.code| == |b.code| + 2 && a.locals == st1.locals
      && SShape(st1, st2) && SShape(st1, a) && LoopsGrow(a, b) && st2 == b.(code := st2.code)
        && st2.locals == st1.locals
      && st2.code[|st1.code|] == TryJump(er, |b.code| + 1 - |st1.code|)
      && (forall i :: |a.code| <= i < |b.code| ==> st2.code[i] == b.code[i])
      && st2.code[|b.code|] == MakeABC(ENDTRY, 0, 0, 0) && Pending(st2.code[|b.code| + 1])
      && !NewBreak(st1, st2, |st1.code|) && !NewBreak(st1, st2, |b.code|) && !NewBreak(st1, st2, |b.code| + 1)
  {
    hide *;
    var a := Emit(st1, MakeAsBx(TRY, er, 0));
    var b := CompileBlock(funcs, a, s.body);
    var d := TryTail(b);
    var st2 := TryBody(funcs, st1, s, er);
    TryBodyIs(funcs, st1, s, er);
    TryJoinIs(st1, b);
    TryTailIs(b);
    SEmit(st1, MakeAsBx(TRY, er, 0));
    SShapeBlock(funcs, a, s.body);
    SShapeTryBody(funcs, st1, s, er);
    SLoops(a, b);
    SGrows(a, b);
    SLoops(st1, a);
    EmitIs(st1, MakeAsBx(TRY, er, 0));
    assert a.code[|st1.code|] == b.code[|st1.code|] == d.code[|st1.code|];
    TryPatch(d, |st1.code|, er, |b.code| + 1 - |st1.code|);
    LoopsTrans(st1, a, b);
    TryBreaks(st1, a, b, st2);
  }

  lemma EmitIs(st: CS, ins: Instr)
    ensures Emit(st, ins) == st.(code := st.code + [ins])
  {
  }

  lemma TryBreaks(st1: CS, a: CS, b: CS, st2: CS)
    requires LoopsGrow(st1, a) && LoopsGrow(a, b) && LoopsGrow(st1, b) && a.loops == st1.loops && st2.loops == b.loops
    requires |a.code| == |st1.code| + 1 <= |b.code|
    ensures !NewBreak(st1, st2, |st1.code|) && !NewBreak(st1, st2, |b.code|) && !NewBreak(st1, st2, |b.code| + 1)
  {
    assert Breaks(st2) == Breaks(b);
    BreakSplit(st1, a, b, |st1.code|);
    NoBreak(a, b, |st1.code|);
    SameLoopsNoBreak(st1, a, |st1.code|);
    assert forall i :: NewBreak(st1, st2, i) == NewBreak(st1, b, i);
    NoBreak(st1, b, |b.code|);
    NoBreak(st1, b, |b.code| + 1);
    hide NewBreak;
  }

  lemma BindLoops(st: CS, st2: CS, name: Text, er: Byte)
    requires LoopsGrow(st, st2)
    ensures LoopsGrow(st, Bind(st2, name, er)) && Bind(st2, name, er).code == st2.code
      && Bind(st2, name, er).loops == st2.loops
  {
    LoopsAs(st, st2, Bind(st2, name, er));
  }

  /** A try as the machine sees it, from st to d: the block a..b between its brackets, then the handler c..h. */
  ghost predicate TryShape(st: CS, st1: CS, er: Byte, a: CS, b: CS, st2: CS, c: CS, h: CS, d: CS) {
    && |st.code| == |st1.code| && |a.code| == |st.code| + 1 <= |b.code|
      && |c.code| == |st2.code| == |b.code| + 2 <= |h.code| == |d.code|
    && Part(st, a, b, d) && Part(st, c, h, d) && ContOf(c) == ContOf(st)
    && d.code[|st.code|] == TryJump(er, |b.code| + 1 - |st.code|)
    && d.code[|b.code|] == MakeABC(ENDTRY, 0, 0, 0) && d.code[|b.code| + 1] == Leap(|b.code| + 1, |h.code|)
    && !NewBreak(st, d, |st.code|) && !NewBreak(st, d, |b.code|) && !NewBreak(st, d, |b.code| + 1)
    && a.locals == st.locals && st2.locals == st.locals && Shape(st, st1) && SShape(st1, a) && SShape(st1, st2)
    && st2.peak <= d.peak && st2.keys <= d.keys && st2.errs <= d.errs && a.peak <= d.peak && a.keys <= d.keys
      && a.errs <= d.errs
  }

  lemma TryShapeIntro(st: CS, st1: CS, er: Byte, a: CS, b: CS, st2: CS, c: CS, h: CS, d: CS)
    requires |st.code| == |st1.code| && |a.code| == |st.code| + 1 <= |b.code|
      && |c.code| == |st2.code| == |b.code| + 2 <= |h.code| == |d.code|
    requires Part(st, a, b, d) && Part(st, c, h, d) && ContOf(c) == ContOf(st)
    requires d.code[|st.code|] == TryJump(er, |b.code| + 1 - |st.code|)
    requires d.code[|b.code|] == MakeABC(ENDTRY, 0, 0, 0) && d.code[|b.code| + 1] == Leap(|b.code| + 1, |h.code|)
    requires !NewBreak(st, d, |st.code|) && !NewBreak(st, d, |b.code|) && !NewBreak(st, d, |b.code| + 1)
    requires a.locals == st.locals && st2.locals == st.locals && Shape(st, st1) && SShape(st1, a) && SShape(st1, st2)
    requires st2.peak <= d.peak && st2.keys <= d.keys && st2.errs <= d.errs && a.peak <= d.peak && a.keys <= d.keys
      && a.errs <= d.errs
    ensures TryShape(st, st1, er, a, b, st2, c, h, d)
  {
    hide Part;
    hide Shape;
    hide SShape;
    hide NewBreak;
    hide Leap;
    hide TryJump;
    hide ContOf;
  }

  lemma TryShapeElim(st: CS, st1: CS, er: Byte, a: CS, b: CS, st2: CS, c: CS, h: CS, d: CS)
    requires TryShape(st, st1, er, a, b, st2, c, h, d)
    ensures |st.code| == |st1.code| && |a.code| == |st.code| + 1 <= |b.code|
      && |c.code| == |st2.code| == |b.code| + 2 <= |h.code| == |d.code|
    ensures Part(st, a, b, d) && Part(st, c, h, d) && ContOf(c) == ContOf(st)
    ensures d.code[|st.code|] == TryJump(er, |b.code| + 1 - |st.code|)
    ensures d.code[|b.code|] == MakeABC(ENDTRY, 0, 0, 0) && d.code[|b.code| + 1] == Leap(|b.code| + 1, |h.code|)
    ensures !NewBreak(st, d, |st.code|) && !NewBreak(st, d, |b.code|) && !NewBreak(st, d, |b.code| + 1)
    ensures a.locals == st.locals && st2.locals == st.locals && Shape(st, st1) && SShape(st1, a) && SShape(st1, st2)
    ensures st2.peak <= d.peak && st2.keys <= d.keys && st2.errs <= d.errs && a.peak <= d.peak && a.keys <= d.keys
      && a.errs <= d.errs
  {
    hide Part;
    hide Shape;
    hide SShape;
    hide NewBreak;
    hide Leap;
    hide TryJump;
    hide ContOf;
  }

  lemma TryCode(funcs: seq<FuncDecl>, st: CS, s: Stmt)
    requires s.Try?
    ensures var (st1, er) := Alloc(st);
      var a := Emit(st1, MakeAsBx(TRY, er, 0));
      var b := CompileBlock(funcs, a, s.body);
      var st2 := TryBody(funcs, st1, s, er);
      var st2a := Bind(st2, s.errName, er);
      var h := CompileBlock(funcs, st2a, s.handler);
      TryShape(st, st1, er, a, b, st2, st2a, h,
        Free(PatchSbx(h.(locals := st2.locals), |st2.code| - 1, |h.code| - |st2.code|), er))
  {
    hide *;
    var (st1, er) := Alloc(st);
    var a := Emit(st1, MakeAsBx(TRY, er, 0));
    var b := CompileBlock(funcs, a, s.body);
    var st2 := TryBody(funcs, st1, s, er);
    var st2a := Bind(st2, s.errName, er);
    var h := CompileBlock(funcs, st2a, s.handler);
    var g := PatchSbx(h.(locals := st2.locals), |st2.code| - 1, |h.code| - |st2.code|);
    var st' := Free(g, er);
    ShapeAlloc(st);
    AllocSame(st);
    CompilerShape.ShapeLocals(st, st1);
    StmtShape.ShapeLoops(st, st1);
    TryBodyCode(funcs, st1, s, er);
    SShapeBlock(funcs, a, s.body);
    SShapeBlock(funcs, st2a, s.handler);
    SLoops(a, b);
    SGrows(a, b);
    SLoops(st1, a);
    SGrows(st1, a);
    SLoops(st1, st2);
    LoopsStart(st, st1, a);
    LoopsStart(st, st1, st2);
    BindLoops(st, st2, s.errName, er);
    BindIs(st2, s.errName, er);
    SLoops(st2a, h);
    SGrows(st2a, h);
    LeapPatch(h.(locals := st2.locals), |st2.code| - 1, |h.code|);
    FreeIs(g, er);
    SSelf(h);
    LoopsAs(h, h, st');
    LoopsAs(st2a, h, st');
    LoopsFrom2(b, st2a, st');
    ContLoops(st, st2a);
    TryBreaks2(st, st1, st2, st2a, st', |st.code|);
    TryBreaks2(st, st1, st2, st2a, st', |b.code|);
    TryBreaks2(st, st1, st2, st2a, st', |b.code| + 1);
    PartIntro(st, a, b, st');
    PartIntro(st, st2a, h, st');
    TryShapeIntro(st, st1, er, a, b, st2, st2a, h, st');
  }

  lemma AllocSame(st: CS)
    ensures Alloc(st).0.code == st.code && Alloc(st).0.loops == st.loops
  {
  }

  lemma BindIs(st: CS, name: Text, r: Byte)
    ensures Bind(st, name, r) == st.(locals := st.locals[name := r])
  {
  }

  lemma LoopsStart(st: CS, st1: CS, a: CS)
    requires st1.loops == st.loops && st1.code == st.code && LoopsGrow(st1, a)
    ensures LoopsGrow(st, a)
  {
    assert Breaks(st1) == Breaks(st);
    assert forall i :: NewBreak(st, a, i) == NewBreak(st1, a, i);
    hide NewBreak;
  }

  lemma LoopsFrom2(b: CS, st2a: CS, st': CS)
    requires st2a.loops == b.loops && |b.code| <= |st2a.code| && LoopsGrow(st2a, st')
    ensures LoopsGrow(b, st')
  {
    LoopsFrom(b, st2a, st');
  }

  lemma TryBreaks2(st: CS, st1: CS, st2: CS, st2a: CS, st': CS, i: int)
    requires st1.loops == st.loops && st1.code == st.code && st2a.loops == st2.loops && st2a.code == st2.code
    requires LoopsGrow(st, st2a) && LoopsGrow(st2a, st') && !NewBreak(st1, st2, i) && i < |st2.code|
    ensures !NewBreak(st, st', i)
  {
    assert Breaks(st1) == Breaks(st) && Breaks(st2a) == Breaks(st2);
    assert NewBreak(st, st2a, i) == NewBreak(st1, st2, i);
    BreakSplit(st, st2a, st', i);
    NoBreak(st2a, st', i);
  }

  // The registers of a try.

  lemma TryReady(st: CS, st1: CS, er: Byte, a: CS, E: Scope, rs: seq<int>, regs: Regs, keep: set<int>)
    requires (st1, er) == Alloc(st) && Shape(st, st1) && SShape(st1, a) && Fine(a) && a.locals == st.locals
      && Ready(st, E, rs, regs, keep)
    ensures Ready(a, E, rs, regs, keep + {er as int}) && er !in rs && er !in keep
  {
    ShapeAlloc(st);
    hide Alloc;
    FineStart(st1, a);
    assert Inv(st1) && Keeps(st, st1);
    assert Inv(a) && Keeps(st1, a);
    assert Held(st1, er) && !Held(st, er);
    hide Inv;
    hide Held;
  }

  lemma FineStart(a: CS, b: CS)
    requires SShape(a, b) && Fine(b)
    ensures Fine(a)
  {
  }

  /** A register in use becomes a local. */
  lemma BindReady(st: CS, E: Scope, rs: seq<int>, regs: Regs, keep: set<int>, name: Text, r: Byte, v: Value)
    requires Ready(st, E, rs, regs, keep) && Held(st, r) && r !in rs && r !in keep
    ensures Ready(Bind(st, name, r), E + [Binding(name, v)], rs + [r as int], regs[r := v], keep)
  {
    var d := Bind(st, name, r);
    LetView(st.locals, E, rs, name, v, r);
    hide View;
    BindHeld(st, name, r);
    hide Held, Inv;
    assert forall q :: q in rs + [r as int] ==> q in rs || q == r;
    assert forall i :: 0 <= i < |rs| ==> rs[i] in rs;
  }

  lemma BindHeld(st: CS, name: Text, r: Byte)
    requires Inv(st) && Held(st, r)
    ensures Inv(Bind(st, name, r)) && forall q :: Held(Bind(st, name, r), q) == Held(st, q)
  {
  }

  lemma HandlerReady(st: CS, st1: CS, er: Byte, st2: CS, E: Scope, rs: seq<int>, regs: Regs, keep: set<int>, name: Text,
    E1: Scope, v: Value, regs1: Regs)
    requires (st1, er) == Alloc(st) && Shape(st, st1) && SShape(st1, st2) && Fine(st2) && st2.locals == st.locals
    requires Ready(st, E, rs, regs, keep) && er !in rs && er !in keep
    requires Grown(E, E1) && Bound(E1, rs, regs1)
    ensures Ready(Bind(st2, name, er), E1 + [Binding(name, v)], rs + [er as int], regs1[er := v], keep)
  {
    ReadyBound(st, E, rs, regs, keep);
    hide Ready;
    hide Bound;
    hide Grown;
    TryHeld(st, st1, er, st2);
    hide Inv;
    hide Held;
    hide Alloc;
    hide Shape;
    hide SShape;
    ReadyAgain(st, E, rs, regs, keep, st2, E1, regs1);
    BindReady(st2, E1, rs, regs1, keep, name, er, v);
  }

  lemma TryHeld(st: CS, st1: CS, er: Byte, st2: CS)
    requires (st1, er) == Alloc(st) && Shape(st, st1) && SShape(st1, st2) && Fine(st2) && Inv(st)
    ensures Held(st2, er) && Inv(st2) && Keeps(st, st2)
  {
    ShapeAlloc(st);
    hide Alloc;
    FineStart(st1, st2);
    assert Inv(st1) && Keeps(st, st1);
    hide Inv;
    hide Held;
  }

  lemma ReturnedSame(J: Job, k: Ctl, t: TryFrame, w: World, v: Value)
    ensures Returned(J, k.(tries := k.tries + [t]), w, v) == Returned(J, k, w, v)
  {
    var k' := k.(tries := k.tries + [t]);
    assert (k.rest + [Top(k', 0, map[])])[..|k.rest|] == k.rest;
    assert (k.rest + [Top(k, 0, map[])])[..|k.rest|] == k.rest;
    hide Finish;
  }

  lemma TryStep(J: Job, k: Ctl, ip: int, regs: Regs, w: World, er: Byte, off: int)
    requires Fetches(J, k, ip, TryJump(er, off)) && 0 <= off < 0x8000
    ensures Goes(J, At(k, ip, regs, w), 1, At(k.(tries := k.tries + [TryFrame(ip + 1 + off, er)]), ip + 1, regs, w))
  {
    hide Goes;
    StepTry(J, k, ip, regs, w, TryJump(er, off));
  }

  lemma PlacedIn(X: Site, X1: Site, a: CS, b: CS)
    requires Placed(X, a, b) && X1.J == X.J && X1.k.proto == X.k.proto && X1.bk == X.bk
    ensures Placed(X1, a, b)
  {
  }

  /** The protected block ran to its end, or left the function. */
  lemma BodyLeaves(X: Site, X1: Site, t: TryFrame, s: State, ip: int, target: int, ct: int, keep: set<int>, er: int,
    E: Scope, rs: seq<int>, regs: Regs, eff: Effect, fuel: nat, n: nat, regs': Regs)
    returns (m: nat)
    requires X1 == Site(X.J, X.k.(tries := X.k.tries + [t]), X.bk, false, true)
    requires SEnds(X1, s, ip, ct, keep + {er}, E, rs, regs, eff, fuel, n, regs', rs) && !(eff.Done? && eff.sig.Thrown?)
    requires Fetches(X.J, X.k, ip, MakeABC(ENDTRY, 0, 0, 0)) && Fetches(X.J, X.k, ip + 1, Leap(ip + 1, target))
    requires 0 <= target < 0x8000 && 0 <= ip < 0x7ffe
    ensures SEnds(X, s, target, ct, keep, E, rs, regs, eff, fuel, m, regs', rs)
  {
    hide Bound;
    hide Returned;
    hide Lives;
    hide Throwing;
    hide Goes;
    m := n;
    if eff.Done? {
      if eff.sig == Next {
        m := n + 1 + 1;
        BodyEnds(X, t, s, ip, target, n, regs', eff.w);
      } else if eff.sig.Ret? {
        ReturnedSame(X.J, X.k, t, eff.w, eff.sig.v);
      }
    }
  }

  lemma BodyEnds(X: Site, t: TryFrame, s: State, ip: int, target: int, n: nat, regs: Regs, w: World)
    requires Goes(X.J, s, n, At(X.k.(tries := X.k.tries + [t]), ip, regs, w))
    requires Fetches(X.J, X.k, ip, MakeABC(ENDTRY, 0, 0, 0)) && Fetches(X.J, X.k, ip + 1, Leap(ip + 1, target))
    requires 0 <= target < 0x8000 && 0 <= ip < 0x7ffe
    ensures Goes(X.J, s, n + 1 + 1, At(X.k, target, regs, w))
  {
    hide *;
    EndTryIs();
    StepEndTry(X.J, X.k, t, ip, regs, w, MakeABC(ENDTRY, 0, 0, 0));
    LeapStep(X, ip + 1, target, regs, w);
    GoesTrans(X.J, s, n, At(X.k.(tries := X.k.tries + [t]), ip, regs, w), 1, At(X.k, ip + 1, regs, w));
    GoesTrans(X.J, s, n + 1, At(X.k, ip + 1, regs, w), 1, At(X.k, target, regs, w));
  }

  lemma EndTryIs()
    ensures MakeABC(ENDTRY, 0, 0, 0).op == ENDTRY
  {
  }

  lemma BodyThrows(X: Site, X1: Site, t: TryFrame, s: State, ip: int, ct: int, keep: set<int>, E: Scope, rs: seq<int>,
    regs: Regs, eff: Effect, fuel: nat, n: nat, regs': Regs)
    requires X1 == Site(X.J, X.k.(tries := X.k.tries + [t]), X.bk, false, true)
    requires SEnds(X1, s, ip, ct, keep + {t.errReg as int}, E, rs, regs, eff, fuel, n, regs', rs) && eff.Done?
      && eff.sig.Thrown? && |eff.env| == |E|
    requires t.errReg !in keep
    ensures var v := Str(FirstLine(eff.sig.msg));
      && Goes(X.J, s, n, At(X.k, t.catchIp, regs'[t.errReg := v], eff.w)) && Grown(E, eff.env)
        && Bound(eff.env, rs, regs')
      && Same(keep, regs, regs'[t.errReg := v])
  {
    ThrowCaught(X.J, X.k, t, regs', eff.w, eff.sig.msg);
    hide Throwing;
    hide FirstLine;
    hide Goes;
    assert Trunc(eff.env, |E|) == eff.env;
  }

  lemma GrownMore(E: Scope, E1: Scope, b: Binding)
    requires Grown(E, E1)
    ensures Grown(E, E1 + [b])
  {
  }

  lemma SafeTry(s: Stmt, vars: set<Text>, brk: bool, inTry: bool)
    requires s.Try? && SafeStmt(s, vars, brk, inTry)
    ensures SafeStmts(s.body, vars, false, true) && SafeStmts(s.handler, vars + {s.errName}, brk, inTry)
  {
  }

  lemma BindKeys(st: CS, name: Text, r: Byte)
    ensures Bind(st, name, r).locals.Keys == st.locals.Keys + {name}
  {
  }

  lemma {:induction false} TryCorrect(X: Site, st: CS, s: Stmt, E: Scope, rs: seq<int>, regs: Regs, w: World,
    keep: set<int>, fuel: nat)
    returns (n: nat, regs': Regs)
    requires s.Try?
    requires Placed(X, st, CompileStmt(X.J.P.funcs, st, s)) && Ready(st, E, rs, regs, keep) && CallsOk(X.J, fuel)
    requires SafeStmt(s, st.locals.Keys, X.brk, X.inTry)
    ensures var eff := ExecStmt(X.J.P, E, s, w, fuel);
      SEnds(X, At(X.k, |st.code|, regs, w), |CompileStmt(X.J.P.funcs, st, s).code|, ContOf(st), keep, E, rs, regs, eff,
        fuel, n, regs', rs)
    decreases fuel, s, 2
  {
    hide *;
    var P := X.J.P;
    TryIs(P, st, s, E, w, fuel);
    TryCode(P.funcs, st, s);
    SafeTry(s, st.locals.Keys, X.brk, X.inTry);
    var (st1, er) := Alloc(st);
    var a := Emit(st1, MakeAsBx(TRY, er, 0));
    var b := CompileBlock(P.funcs, a, s.body);
    var st2 := TryBody(P.funcs, st1, s, er);
    var st2a := Bind(st2, s.errName, er);
    var h := CompileBlock(P.funcs, st2a, s.handler);
    var st' := CompileStmt(P.funcs, st, s);
    var off := |b.code| + 1 - |st.code|;
    var s0 := At(X.k, |st.code|, regs, w);
    TryShapeElim(st, st1, er, a, b, st2, st2a, h, st');
    PlacedFine(X, st, st');
    PlacedPart(X, st, st', a, b);
    PlacedPart(X, st, st', st2a, h);
    FineLess(st', a);
    FineLess(st', st2);
    FetchPart(X, st, st', |st.code|);
    FetchPart(X, st, st', |b.code|);
    FetchPart(X, st, st', |b.code| + 1);
    TryReady(st, st1, er, a, E, rs, regs, keep);
    var t := TryFrame(|st2.code|, er);
    var k1 := X.k.(tries := X.k.tries + [t]);
    var X1 := Site(X.J, k1, X.bk, false, true);
    PlacedIn(X, X1, a, b);
    TryStep(X.J, X.k, |st.code|, regs, w, er, off);
    var s1 := At(k1, |a.code|, regs, w);
    GrownSelf(E);
    ReadyBound(st, E, rs, regs, keep);
    SameSelf(keep, regs);
    var eff := ExecBlock(P, E, s.body, w, fuel);
    var m1, regs1 := BlockCorrect(X1, a, s.body, E, rs, regs, w, keep + {er as int}, fuel);
    if eff.Done? && eff.sig.Thrown? {
      BodyThrows(X, X1, t, s1, |b.code|, ContOf(a), keep, E, rs, regs, eff, fuel, m1, regs1);
      var v := Str(FirstLine(eff.sig.msg));
      var bd := Binding(s.errName, v);
      var regs2 := regs1[er := v];
      HandlerReady(st, st1, er, st2, E, rs, regs, keep, s.errName, eff.env, v, regs1);
      BindKeys(st2, s.errName, er);
      BindIs(st2, s.errName, er);
      GrownMore(E, eff.env, bd);
      HandledIs(P, E, s, eff.sig.msg, eff.env, eff.w, fuel);
      var effh := ExecBlock(P, eff.env + [bd], s.handler, eff.w, fuel);
      var m2, regs3 := BlockCorrect(X, st2a, s.handler, eff.env + [bd], rs + [er as int], regs2, eff.w, keep, fuel);
      GoesTrans(X.J, s0, 1, s1, m1, At(X.k, |st2.code|, regs2, eff.w));
      n, regs' := 1 + m1 + m2, regs3;
      ReadyBound(st2a, eff.env + [bd], rs + [er as int], regs2, keep);
      SSeq(X, s0, 1 + m1, At(X.k, |st2.code|, regs2, eff.w), |st'.code|, ContOf(st), keep, keep, E, rs, regs,
        eff.env + [bd], rs + [er as int], regs2,
           effh, fuel, fuel, m2, regs3, rs + [er as int]);
      SBlock(X, s0, |st'.code|, ContOf(st), keep, E, rs, regs, effh,
        Handled(P, E, s, eff.sig.msg, eff.env, eff.w, fuel), fuel, n, regs3, rs + [er as int]);
    } else {
      var m2 := BodyLeaves(X, X1, t, s1, |b.code|, |h.code|, ContOf(a), keep, er, E, rs, regs, eff, fuel, m1, regs1);
      n, regs' := 1 + m2, regs1;
      SSeq(X, s0, 1, s1, |st'.code|, ContOf(st), keep, keep, E, rs, regs, E, rs, regs, eff, fuel, fuel, m2, regs1, rs);
    }
  }

  lemma SameSelf(keep: set<int>, regs: Regs)
    ensures Same(keep, regs, regs)
  {
  }

  lemma FineLess(st': CS, a: CS)
    requires Fine(st') && a.peak <= st'.peak && a.keys <= st'.keys && a.errs <= st'.errs
    ensures Fine(a)
  {
  }

  // ---- all statements ----

  lemma PlainIs(P: Prog, st: CS, s: Stmt, E: Scope, w: World, fuel: nat)
    ensures s.Assign? ==> CompileStmt(P.funcs, st, s) == CompileAssign(P.funcs, st, s.target, s.rhs)
    ensures s.Assign? ==> ExecStmt(P, E, s, w, fuel) == ExecAssign(P, E, s, w, fuel)
    ensures s.Break? ==> CompileStmt(P.funcs, st, s) == EmitBreak(st) && ExecStmt(P, E, s, w, fuel) == Done(Brk, E, w)
    ensures s.Continue? ==> (CompileStmt(P.funcs, st, s) == EmitContinue(st)
      && ExecStmt(P, E, s, w, fuel) == Done(Cont, E, w))
    ensures !s.Let? ==> CompileStmt(P.funcs, st, s).locals == st.locals
    ensures SShape(st, CompileStmt(P.funcs, st, s))
  {
    SShapeStmt(P.funcs, st, s);
    hide CompileAssign;
    hide ExecAssign;
    hide EmitBreak;
    hide EmitContinue;
    hide SShape;
  }

  lemma SafePlain(s: Stmt, vars: set<Text>, brk: bool, inTry: bool)
    requires SafeStmt(s, vars, brk, inTry)
    ensures s.Break? || s.Continue? ==> brk
    ensures s.Assign? && s.target.Ident? && s.target.name in vars ==>
      SafeInto(s.rhs, s.target.name) && (inTry ==> Atomic(s.rhs))
  {
  }

  lemma BadTarget(funcs: seq<FuncDecl>, st: CS, s: Stmt)
    requires s.Assign? && !s.target.Ident? && !s.target.Index? && !s.target.Field?
    ensures !Fine(CompileAssign(funcs, st, s.target, s.rhs))
  {
  }

  lemma {:induction false} AssignCorrect(X: Site, st: CS, s: Stmt, E: Scope, rs: seq<int>, regs: Regs, w: World,
    keep: set<int>, fuel: nat)
    returns (n: nat, regs': Regs)
    requires s.Assign? && SafeStmt(s, st.locals.Keys, X.brk, X.inTry)
    requires Placed(X, st, CompileAssign(X.J.P.funcs, st, s.target, s.rhs)) && Ready(st, E, rs, regs, keep)
      && CallsOk(X.J, fuel)
    ensures var st' := CompileAssign(X.J.P.funcs, st, s.target, s.rhs);
      var eff := ExecAssign(X.J.P, E, s, w, fuel);
      SEnds(X, At(X.k, |st.code|, regs, w), |st'.code|, ContOf(st), keep, E, rs, regs, eff, fuel, n, regs', rs)
  {
    hide *;
    SafePlain(s, st.locals.Keys, X.brk, X.inTry);
    if s.target.Ident? {
      if s.target.name in st.locals {
        n, regs' := LocalAssignCorrect(X, st, s, E, rs, regs, w, keep, fuel);
      } else {
        n, regs' := GlobalAssignCorrect(X, st, s, E, rs, regs, w, keep, fuel);
      }
    } else if s.target.Index? {
      n, regs' := IndexAssignCorrect(X, st, s, E, rs, regs, w, keep, fuel);
    } else if s.target.Field? {
      n, regs' := FieldAssignCorrect(X, st, s, E, rs, regs, w, keep, fuel);
    } else {
      PlacedFine(X, st, CompileAssign(X.J.P.funcs, st, s.target, s.rhs));
      BadTarget(X.J.P.funcs, st, s);
      assert false;
    }
  }

  /** Every statement that declares nothing. */
  lemma {:induction false} ClosedCorrect(X: Site, st: CS, s: Stmt, E: Scope, rs: seq<int>, regs: Regs, w: World,
    keep: set<int>, fuel: nat)
    returns (n: nat, regs': Regs)
    requires !s.Let? && Placed(X, st, CompileStmt(X.J.P.funcs, st, s)) && Ready(st, E, rs, regs, keep)
      && CallsOk(X.J, fuel)
    requires SafeStmt(s, st.locals.Keys, X.brk, X.inTry)
    ensures SEnds(X, At(X.k, |st.code|, regs, w), |CompileStmt(X.J.P.funcs, st, s).code|, ContOf(st), keep, E, rs, regs,
                  ExecStmt(X.J.P, E, s, w, fuel), fuel, n, regs', rs)
    decreases fuel, s, 3
  {
    hide *;
    var P := X.J.P;
    PlainIs(P, st, s, E, w, fuel);
    SafePlain(s, st.locals.Keys, X.brk, X.inTry);
    ReadyBound(st, E, rs, regs, keep);
    match s
    case Block(_) =>
      TakingHolds(s);
      n, regs' := TakingCorrect(X, st, s, E, rs, regs, w, keep, fuel);
    case If(_, _, _) =>
      TakingHolds(s);
      n, regs' := TakingCorrect(X, st, s, E, rs, regs, w, keep, fuel);
    case Assign(_, _) => n, regs' := AssignCorrect(X, st, s, E, rs, regs, w, keep, fuel);
    case ExprStmt(e) => n, regs' := ExprStmtCorrect(X, st, e, E, rs, regs, w, keep, fuel);
    case Return(None) => n, regs' := ReturnNoneCorrect(X, st, E, rs, regs, w, keep, fuel);
    case Return(Some(_)) => n, regs' := UseCorrect(X, st, s, E, rs, regs, w, keep, fuel);
    case While(_, _) =>
      WhileStep(P, E, s, w, fuel);
      n, regs' := WhileCorrect(X, st, s, E, rs, regs, w, keep, fuel);
    case Break => n, regs' := BreakCorrect(X, st, E, rs, regs, w, keep, fuel);
    case Continue => n, regs' := ContinueCorrect(X, st, E, rs, regs, w, keep, fuel);
    case Switch(_, _, _) => n, regs' := SwitchCorrect(X, st, s, E, rs, regs, w, keep, fuel);
    case Try(_, _, _) => n, regs' := TryCorrect(X, st, s, E, rs, regs, w, keep, fuel);
    case Throw(_) => n, regs' := UseCorrect(X, st, s, E, rs, regs, w, keep, fuel);
  }

  lemma TakingHolds(s: Stmt)
    requires s.Block? || s.If?
    ensures Taking(s)
  {
  }

  /**
   Statement compiler correctness.  Started at the statement's first instruction with the scope in its registers, the
   machine reaches the end of its code, the target of a break, the loop's condition, the return, or the raised error,
   as the semantics says, with the scope's new values in its registers and every other register in use unchanged; or
   is still running when the semantics runs out of fuel.
   */
  lemma {:induction false} StatementCorrect(X: Site, st: CS, s: Stmt, E: Scope, rs: seq<int>, regs: Regs, w: World,
    keep: set<int>, fuel: nat)
    returns (n: nat, regs': Regs, rs': seq<int>)
    requires Placed(X, st, CompileStmt(X.J.P.funcs, st, s)) && Ready(st, E, rs, regs, keep) && CallsOk(X.J, fuel)
    requires SafeStmt(s, st.locals.Keys, X.brk, X.inTry)
    ensures var st' := CompileStmt(X.J.P.funcs, st, s);
      var eff := ExecStmt(X.J.P, E, s, w, fuel);
      && SEnds(X, At(X.k, |st.code|, regs, w), |st'.code|, ContOf(st), keep, E, rs, regs, eff, fuel, n, regs', rs')
      && (eff.Done? && eff.sig == Next ==> Ready(st', eff.env, rs', regs', keep))
    decreases fuel, s, 4
  {
    hide *;
    if s.Let? {
      n, regs', rs' := LetCorrect(X, st, s, E, rs, regs, w, keep, fuel);
    } else {
      rs' := rs;
      PlainIs(X.J.P, st, s, E, w, fuel);
      PlacedFine(X, st, CompileStmt(X.J.P.funcs, st, s));
      n, regs' := ClosedCorrect(X, st, s, E, rs, regs, w, keep, fuel);
      ClosedReady(X, At(X.k, |st.code|, regs, w), |CompileStmt(X.J.P.funcs, st, s).code|, ContOf(st), keep, E, rs, regs,
                  ExecStmt(X.J.P, E, s, w, fuel), fuel, n, regs', st, CompileStmt(X.J.P.funcs, st, s));
    }
  }
}
