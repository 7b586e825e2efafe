/**
 The converse of the handler discipline: a break or continue that leaves the body of a try compiles to a jump between
 places with different TRYs open.
 */
module HandlersExact {
  import opened Bytecode
  import opened Ast
  import opened Compiler
  import opened CompilerShape
  import opened StmtShape
  import opened Handlers
  import opened HandlersCompiled
  import Vm

  // ---- what is open depends on the opcodes alone ----

  predicate SameOps(a: seq<Instr>, b: seq<Instr>) { |a| <= |b| && forall i :: 0 <= i < |a| ==> b[i].op == a[i].op }

  lemma {:induction false} OpenLike(a: seq<Instr>, b: seq<Instr>, i: nat)
    requires SameOps(a, b) && i <= |a|
    ensures Open(b, i) == Open(a, i)
    decreases i
  {
    if i > 0 {
      OpenLike(a, b, i - 1);
    }
  }

  /** From a to b everything opened was closed again, and nothing of a. */
  ghost predicate Even(a: seq<Instr>, b: seq<Instr>) {
    SameOps(a, b) && Open(b, |b|) == Open(b, |a|) && forall i :: |a| <= i <= |b| ==> Open(b, |a|) <= Open(b, i)
  }

  lemma EvenNone(a: seq<Instr>)
    ensures Even(a, a)
  {
  }

  lemma EvenTrans(a: seq<Instr>, b: seq<Instr>, c: seq<Instr>)
    requires Even(a, b) && Even(b, c)
    ensures Even(a, c)
  {
    hide Open;
    OpenLike(b, c, |a|);
    OpenLike(b, c, |b|);
    forall i | |a| <= i <= |c|
      ensures Open(c, |a|) <= Open(c, i)
    {
      if i <= |b| {
        OpenLike(b, c, i);
      }
    }
  }

  lemma EvenTidy(a: seq<Instr>, b: seq<Instr>, h: set<int>)
    requires Tidy(a, b, h)
    ensures Even(a, b)
  {
    hide Open, Lands, Aims;
  }

  lemma EvenCalm(a: CS, b: CS)
    requires Calm(a, b)
    ensures Even(a.code, b.code)
  {
    hide Plain, Tidy, Even;
    PlainTidy(a.code, b.code, {});
    EvenTidy(a.code, b.code, {});
  }

  lemma EvenNeat(a: CS, b: CS, h: set<int>)
    requires Neat(a, b, h)
    ensures Even(a.code, b.code)
  {
    hide Tidy, Even, SShape, New;
    EvenTidy(a.code, b.code, h + New(a, b));
  }

  /** Patching does not touch opcodes. */
  lemma EvenOps(a: seq<Instr>, b: seq<Instr>, c: seq<Instr>)
    requires Even(a, b) && |c| == |b| && SameOps(b, c)
    ensures Even(a, c)
  {
    hide Open;
    OpenLike(b, c, |a|);
    OpenLike(b, c, |b|);
    forall i | |a| <= i <= |c|
      ensures Open(c, |a|) <= Open(c, i)
    {
      OpenLike(b, c, i);
    }
  }

  lemma EvenOne(a: seq<Instr>, ins: Instr)
    requires ins.op != TRY && ins.op != ENDTRY
    ensures Even(a, a + [ins])
  {
    OpenNext(a + [ins], |a|);
    hide Open;
  }

  lemma EvenEnds(a: seq<Instr>, b: seq<Instr>)
    requires Even(a, b)
    ensures |a| <= |b| && SameOps(a, b) && Open(b, |b|) == Open(b, |a|) == Open(a, |a|)
  {
    hide Open;
    OpenLike(a, b, |a|);
  }

  lemma PatchOps(st: CS, ip: int, off: int)
    ensures |PatchSbx(st, ip, off).code| == |st.code| && SameOps(st.code, PatchSbx(st, ip, off).code)
    ensures forall i :: 0 <= i < |st.code| && i != ip ==> PatchSbx(st, ip, off).code[i] == st.code[i]
    ensures PatchSbx(st, ip, off).loops == st.loops
  {
    hide MakeAsBx, ToI16;
  }

  lemma {:induction false} PatchAllOps(st: CS, ips: seq<int>, t: nat)
    ensures |PatchAll(st, ips, t).code| == |st.code| && SameOps(st.code, PatchAll(st, ips, t).code)
      && PatchAll(st, ips, t).loops == st.loops
    ensures forall i :: 0 <= i < |st.code| && i !in ips ==> PatchAll(st, ips, t).code[i] == st.code[i]
    decreases |ips|
  {
    hide PatchSbx;
    if ips != [] {
      PatchOps(st, ips[0], t - ips[0] - 1);
      PatchAllOps(PatchSbx(st, ips[0], t - ips[0] - 1), ips[1..], t);
      assert forall i :: i !in ips ==> i != ips[0] && i !in ips[1..];
    }
  }

  lemma JoinOps(st1: CS, st2: CS)
    ensures var d := IfJoin(st1, st2);
      |d.code| == |st2.code| + 1 && SameOps(st2.code, d.code)
      && d.code[|st2.code|].op == JMP && d.loops == st2.loops
    ensures forall i :: 0 <= i < |st2.code| && i != |st1.code| - 1 ==> IfJoin(st1, st2).code[i] == st2.code[i]
  {
    hide MakeAsBx, PatchSbx;
    var c := Emit(st2, MakeAsBx(JMP, 0, 0));
    PatchOps(c, |st1.code| - 1, |st2.code| + 1 - |st1.code|);
  }

  lemma EvenJoin(st1: CS, st2: CS)
    ensures Even(st2.code, IfJoin(st1, st2).code)
  {
    hide Even, MakeAsBx, IfJoin;
    JoinOps(st1, st2);
    var j := MakeAsBx(JMP, 0, 0);
    EvenOne(st2.code, j);
    EvenOps(st2.code, st2.code + [j], IfJoin(st1, st2).code);
  }

  /** A block between a TRY and its ENDTRY. */
  lemma EvenTry(x: seq<Instr>, t: Instr, b: seq<Instr>, c: seq<Instr>)
    requires t.op == TRY && Even(x + [t], b) && |c| == |b| + 2 && SameOps(b, c) && c[|b|].op == ENDTRY
      && c[|b| + 1].op == JMP
    ensures Even(x, c)
  {
    hide Open;
    var o := Open(x, |x|);
    EvenEnds(x + [t], b);
    assert (x + [t])[|x|] == t;
    OpenLike(x, x + [t], |x|);
    OpenNext(x + [t], |x|);
    assert Open(b, |b|) == o + [|x|];
    OpenLike(x, c, |x|);
    OpenLike(b, c, |b|);
    OpenNext(c, |b|);
    assert (o + [|x|])[..|o + [|x|]| - 1] == o;
    OpenNext(c, |b| + 1);
    forall i | |x| <= i <= |c|
      ensures o <= Open(c, i)
    {
      if |x| + 1 <= i <= |b| {
        OpenLike(b, c, i);
        assert Open(b, |x| + 1) <= Open(b, i);
      }
    }
  }

  // ---- every statement, whatever it jumps out of ----

  lemma {:induction false} EvenStmts(funcs: seq<FuncDecl>, st: CS, ss: seq<Stmt>)
    requires |CompileStmts(funcs, st, ss).code| < 0x8000
    ensures Even(st.code, CompileStmts(funcs, st, ss).code)
    decreases ss, 0
  {
    hide Even, CompileStmt, SShape;
    if ss == [] {
      EvenNone(st.code);
    } else {
      var st1 := CompileStmt(funcs, st, ss[0]);
      var st2 := CompileStmts(funcs, st1, ss[1..]);
      SShapeStmts(funcs, st1, ss[1..]);
      SLen(st1, st2);
      EvenStmt(funcs, st, ss[0]);
      EvenStmts(funcs, st1, ss[1..]);
      EvenTrans(st.code, st1.code, st2.code);
    }
  }

  lemma {:induction false} EvenBlock(funcs: seq<FuncDecl>, st: CS, ss: seq<Stmt>)
    requires |CompileBlock(funcs, st, ss).code| < 0x8000
    ensures Even(st.code, CompileBlock(funcs, st, ss).code)
    decreases ss, 1
  {
    hide Even, CompileStmts;
    EvenStmts(funcs, st, ss);
  }

  lemma {:induction false} EvenStmt(funcs: seq<FuncDecl>, st: CS, s: Stmt)
    requires |CompileStmt(funcs, st, s).code| < 0x8000
    ensures Even(st.code, CompileStmt(funcs, st, s).code)
    decreases s, 2
  {
    hide Even, New, Neat, CompileBlock, CompileAssign, CompileIf, CompileWhile, CompileSwitch, CompileTry, EmitBreak,
      EmitContinue,
      CompileExpr, Alloc, Free;
    if s.Let? || s.Assign? || s.ExprStmt? || s.Return? || s.Throw? {
      NeatSimple(funcs, st, s);
      EvenNeat(st, CompileStmt(funcs, st, s), {});
    } else if s.Block? {
      EvenBlock(funcs, st, s.stmts);
    } else if s.If? {
      EvenIf(funcs, st, s);
    } else if s.While? {
      EvenWhile(funcs, st, s);
    } else if s.Break? {
      EvenBreak(st);
    } else if s.Continue? {
      EvenContinue(st);
    } else if s.Switch? {
      EvenSwitch(funcs, st, s);
    } else {
      EvenTryStmt(funcs, st, s);
    }
  }

  lemma EvenBreak(st: CS)
    ensures Even(st.code, EmitBreak(st).code)
  {
    hide Even, EmitBreak;
    if st.loops == [] {
      BreakError(st);
      EvenNone(st.code);
    } else {
      BreakIs(st);
      EvenOne(st.code, EmitBreak(st).code[|st.code|]);
    }
  }

  lemma BreakError(st: CS)
    requires st.loops == []
    ensures EmitBreak(st) == st.(errs := st.errs + 1) == EmitContinue(st)
  {
  }

  lemma JumpIs(st: CS, t: nat)
    requires t <= |st.code| && |st.code| + 1 < 0x8000
    ensures var c := EmitJump(st, JMP, 0, t);
      && c == st.(code := c.code) && c.code == st.code + [c.code[|st.code|]] && c.code[|st.code|].op == JMP
        && Goal(c.code, |st.code|) == t
  {
    Aimed(JMP, 0, |st.code|, t);
    hide MakeAsBx, Instr.SBx, ToI16;
  }

  lemma EvenJump(st: CS, t: nat)
    ensures Even(st.code, EmitJump(st, JMP, 0, t).code)
  {
    hide Even, MakeAsBx, ToI16;
    EvenOne(st.code, MakeAsBx(JMP, 0, ToI16(t - (|st.code| + 1))));
  }

  lemma EvenContinue(st: CS)
    ensures Even(st.code, EmitContinue(st).code)
  {
    hide Even, EmitJump;
    if st.loops == [] {
      EvenNone(st.code);
    } else {
      EvenJump(st, st.loops[|st.loops| - 1].cont);
    }
  }

  lemma {:induction false} EvenCond(funcs: seq<FuncDecl>, st: CS, c: Expr)
    requires |CondJump(funcs, st, c).code| < 0x8000
    ensures Even(st.code, CondJump(funcs, st, c).code)
  {
    hide Even, Neat, New, CondJump;
    NeatCondJump(funcs, st, c);
    EvenNeat(st, CondJump(funcs, st, c), {|CondJump(funcs, st, c).code| - 1});
  }

  lemma {:induction false} EvenIf(funcs: seq<FuncDecl>, st: CS, s: Stmt)
    requires s.If? && |CompileIf(funcs, st, s).code| < 0x8000
    ensures Even(st.code, CompileIf(funcs, st, s).code)
    decreases s, 1
  {
    hide Even, SShape, CompileBlock, CompileStmt, CondJump, IfJoin, PatchSbx;
    var st1 := CondJump(funcs, st, s.cond);
    var st2 := CompileBlock(funcs, st1, s.thn);
    SShapeBlock(funcs, st1, s.thn);
    SLen(st1, st2);
    JoinOps(st1, st2);
    if s.els == None {
      PatchOps(st2, |st1.code| - 1, |st2.code| - |st1.code|);
      EvenCond(funcs, st, s.cond);
      EvenBlock(funcs, st1, s.thn);
      EvenTrans(st.code, st1.code, st2.code);
      EvenOps(st.code, st2.code, CompileIf(funcs, st, s).code);
    } else {
      var st3 := IfJoin(st1, st2);
      var st4 := if s.els.value.Block? || s.els.value.If? then CompileStmt(funcs, st3, s.els.value) else st3;
      PatchOps(st4, |st2.code|, |st4.code| - |st2.code| - 1);
      SShapeStmt(funcs, st3, s.els.value);
      SLen(st3, CompileStmt(funcs, st3, s.els.value));
      EvenCond(funcs, st, s.cond);
      EvenBlock(funcs, st1, s.thn);
      EvenTrans(st.code, st1.code, st2.code);
      EvenJoin(st1, st2);
      EvenTrans(st.code, st2.code, st3.code);
      if s.els.value.Block? || s.els.value.If? {
        EvenStmt(funcs, st3, s.els.value);
      } else {
        EvenNone(st3.code);
      }
      EvenTrans(st.code, st3.code, st4.code);
      EvenOps(st.code, st4.code, CompileIf(funcs, st, s).code);
    }
  }

  lemma PopOps(st: CS, end: nat)
    ensures |PopLoop(st, end).code| == |st.code| && SameOps(st.code, PopLoop(st, end).code)
  {
    hide PatchAll;
    if st.loops != [] {
      PatchAllOps(st.(loops := st.loops[..|st.loops| - 1]), st.loops[|st.loops| - 1].breaks, end);
    }
  }

  lemma {:induction false} EvenWhile(funcs: seq<FuncDecl>, st: CS, s: Stmt)
    requires s.While? && |CompileWhile(funcs, st, s).code| < 0x8000
    ensures Even(st.code, CompileWhile(funcs, st, s).code)
    decreases s, 1
  {
    hide Even, SShape, CompileBlock, CondJump, PatchSbx, EmitJump, PopLoop;
    var st0 := st.(loops := st.loops + [Loop([], |st.code|)]);
    var st1 := CondJump(funcs, st0, s.cond);
    var st2 := CompileBlock(funcs, st1, s.body);
    var st3 := EmitJump(st2, JMP, 0, |st.code|);
    var st4 := PatchSbx(st3, |st1.code| - 1, |st3.code| - |st1.code|);
    assert CompileWhile(funcs, st, s) == PopLoop(st4, |st3.code|);
    WhileLens(funcs, st0, s, st1, st2, st3);
    PatchOps(st3, |st1.code| - 1, |st3.code| - |st1.code|);
    PopOps(st4, |st3.code|);
    EvenCond(funcs, st0, s.cond);
    EvenBlock(funcs, st1, s.body);
    EvenTrans(st.code, st1.code, st2.code);
    EvenJump(st2, |st.code|);
    EvenTrans(st.code, st2.code, st3.code);
    EvenOps(st.code, st3.code, st4.code);
    EvenOps(st.code, st4.code, PopLoop(st4, |st3.code|).code);
  }

  lemma {:induction false} EvenFront(funcs: seq<FuncDecl>, st: CS, values: seq<Expr>, tag: Byte)
    requires |CaseFront(funcs, st, values, tag).code| < 0x8000
    ensures Even(st.code, CaseFront(funcs, st, values, tag).code)
  {
    hide Even, Neat, New, CaseFront;
    NeatCaseFront(funcs, st, values, tag);
    EvenNeat(st, CaseFront(funcs, st, values, tag), {|CaseFront(funcs, st, values, tag).code| - 1});
  }

  lemma {:induction false} EvenCase(funcs: seq<FuncDecl>, st: CS, c: Case, tag: Byte)
    requires |CompileCase(funcs, st, c, tag).0.code| < 0x8000
    ensures Even(st.code, CompileCase(funcs, st, c, tag).0.code)
    decreases c, 0
  {
    hide Even, SShape, CaseFront, CompileBlock, IfJoin;
    var st1 := CaseFront(funcs, st, c.values, tag);
    var st2 := CompileBlock(funcs, st1, c.body);
    JoinOps(st1, st2);
    SShapeBlock(funcs, st1, c.body);
    SLen(st1, st2);
    EvenFront(funcs, st, c.values, tag);
    EvenBlock(funcs, st1, c.body);
    EvenTrans(st.code, st1.code, st2.code);
    EvenJoin(st1, st2);
    EvenTrans(st.code, st2.code, IfJoin(st1, st2).code);
  }

  lemma {:induction false} EvenCases(funcs: seq<FuncDecl>, st: CS, cases: seq<Case>, tag: Byte)
    requires |CompileCases(funcs, st, cases, tag).0.code| < 0x8000
    ensures Even(st.code, CompileCases(funcs, st, cases, tag).0.code)
    decreases cases, 0
  {
    hide Even, SShape, CompileCase;
    if cases == [] {
      EvenNone(st.code);
    } else {
      var (st1, end) := CompileCase(funcs, st, cases[0], tag);
      var (st2, ends) := CompileCases(funcs, st1, cases[1..], tag);
      SShapeCases(funcs, st1, cases[1..], tag);
      SLen(st1, st2);
      EvenCase(funcs, st, cases[0], tag);
      EvenCases(funcs, st1, cases[1..], tag);
      EvenTrans(st.code, st1.code, st2.code);
    }
  }

  /** The states of a switch. */
  lemma SwitchParts(funcs: seq<FuncDecl>, st: CS, s: Stmt) returns (st2: CS, tr: Byte, st3: CS, ends: seq<int>, st4: CS)
    requires s.Switch?
    ensures tr == Alloc(st).1 && st2 == CompileExpr(funcs, Alloc(st).0, s.tag, tr)
      && (st3, ends) == CompileCases(funcs, st2, s.cases, tr)
    ensures st4 == if s.default.Default? then CompileBlock(funcs, st3, s.default.body) else st3
    ensures CompileSwitch(funcs, st, s).code == PatchAll(st4, ends, |st4.code|).code
      && CompileSwitch(funcs, st, s).loops == st4.loops
    ensures CompileSwitch(funcs, st, s).errs == st4.errs
    ensures SShape(st, st2) && st2.loops == st.loops && SShape(st2, st3) && SShape(st3, st4)
    ensures |st2.code| <= |st3.code| <= |st4.code| == |CompileSwitch(funcs, st, s).code|
  {
    hide SShape, Inv, Keeps, CompileExpr, CompileCases, CompileBlock, Alloc, Free, PatchAll, Shape;
    var st1 := Alloc(st).0;
    tr := Alloc(st).1;
    st2 := CompileExpr(funcs, st1, s.tag, tr);
    st3, ends := CompileCases(funcs, st2, s.cases, tr).0, CompileCases(funcs, st2, s.cases, tr).1;
    st4 := if s.default.Default? then CompileBlock(funcs, st3, s.default.body) else st3;
    var st5 := PatchAll(st4, ends, |st4.code|);
    assert CompileSwitch(funcs, st, s) == Free(st5, tr);
    SameRegs(st5, tr);
    FreeErrs(st5, tr);
    PatchAllShape(st4, ends, |st4.code|);
    ShapeAlloc(st);
    ShapeExpr(funcs, st1, s.tag, tr);
    ShapeTrans(st, st1, st2);
    FromShape(st, st2);
    ShapeLoops(st, st2);
    SShapeCases(funcs, st2, s.cases, tr);
    if s.default.Default? {
      SShapeBlock(funcs, st3, s.default.body);
    } else {
      SShapeRefl(st3);
    }
    SLen(st2, st3);
    SLen(st3, st4);
  }

  lemma FreeErrs(st: CS, r: Byte)
    ensures Free(st, r).errs == st.errs
  {
  }

  lemma {:induction false} EvenTag(funcs: seq<FuncDecl>, st: CS, e: Expr, tr: Byte)
    requires tr == Alloc(st).1 && |CompileExpr(funcs, Alloc(st).0, e, tr).code| < 0x8000
    ensures Even(st.code, CompileExpr(funcs, Alloc(st).0, e, tr).code)
  {
    hide Even, Calm, Alloc, CompileExpr;
    CalmInto(funcs, st, e);
    EvenCalm(st, CompileExpr(funcs, Alloc(st).0, e, tr));
  }

  lemma {:induction false} EvenSwitch(funcs: seq<FuncDecl>, st: CS, s: Stmt)
    requires s.Switch? && |CompileSwitch(funcs, st, s).code| < 0x8000
    ensures Even(st.code, CompileSwitch(funcs, st, s).code)
    decreases s, 1
  {
    hide Even, SShape, CompileSwitch, CompileExpr, CompileCases, CompileBlock, Alloc, PatchAll;
    var st2, tr, st3, ends, st4 := SwitchParts(funcs, st, s);
    EvenTag(funcs, st, s.tag, tr);
    EvenCases(funcs, st2, s.cases, tr);
    EvenTrans(st.code, st2.code, st3.code);
    if s.default.Default? {
      EvenBlock(funcs, st3, s.default.body);
    } else {
      EvenNone(st3.code);
    }
    EvenTrans(st.code, st3.code, st4.code);
    PatchAllOps(st4, ends, |st4.code|);
    EvenOps(st.code, st4.code, CompileSwitch(funcs, st, s).code);
  }

  /** The states of a try: the TRY, the protected block, ENDTRY and the jump over the handler, the handler. */
  datatype Tried = Tried(a: CS, b: CS, st2: CS, st2a: CS, st3a: CS)

  lemma {:induction false} TryParts(funcs: seq<FuncDecl>, st: CS, s: Stmt) returns (p: Tried)
    requires s.Try?
    ensures |p.a.code| == |st.code| + 1 && p.a.code == st.code + [p.a.code[|st.code|]] && p.a.code[|st.code|].op == TRY
      && p.a.loops == st.loops
    ensures p.b == CompileBlock(funcs, p.a, s.body) && Ext(p.a, p.b)
    ensures |p.st2.code| == |p.b.code| + 2 && SameOps(p.b.code, p.st2.code) && p.st2.loops == p.b.loops
      && p.st2.errs == p.b.errs
    ensures p.st2.code[|p.b.code|].op == ENDTRY && p.st2.code[|p.b.code| + 1].op == JMP
    ensures forall i :: |st.code| < i < |p.b.code| ==> p.st2.code[i] == p.b.code[i]
    ensures p.st2a == p.st2.(locals := p.st2a.locals) && p.st3a == CompileBlock(funcs, p.st2a, s.handler)
      && SShape(p.st2a, p.st3a)
    ensures var c := CompileTry(funcs, st, s);
      && |c.code| == |p.st3a.code| && SameOps(p.st3a.code, c.code) && c.loops == p.st3a.loops && c.errs == p.st3a.errs
      && forall i :: 0 <= i < |c.code| && i != |p.st2.code| - 1 ==> c.code[i] == p.st3a.code[i]
  {
    hide SShape, CompileBlock, MakeAsBx, PatchSbx, TryBody, TryJoin, TryTail, Alloc, Free, LoopsGrow;
    var (st1, er) := Alloc(st);
    var t := MakeAsBx(TRY, er, 0);
    var a := Emit(st1, t);
    var b := CompileBlock(funcs, a, s.body);
    var d := TryTail(b);
    var st2 := TryBody(funcs, st1, s, er);
    var st2a := st2.(locals := st2.locals[s.errName := er]);
    var st3a := CompileBlock(funcs, st2a, s.handler);
    var st3 := st3a.(locals := st2.locals);
    var st4 := PatchSbx(st3, |st2.code| - 1, |st3.code| - |st2.code|);
    assert CompileTry(funcs, st, s) == Free(st4, er);
    SameRegs(st, er);
    SameRegs(st4, er);
    FreeErrs(st4, er);
    PatchOps(st3, |st2.code| - 1, |st3.code| - |st2.code|);
    PatchErrs(st3, |st2.code| - 1, |st3.code| - |st2.code|);
    TryBodyIs(funcs, st1, s, er);
    TryJoinIs(st1, b);
    TryTailIs(b);
    PatchOps(d, |st1.code|, |b.code| + 1 - |st1.code|);
    PatchErrs(d, |st1.code|, |b.code| + 1 - |st1.code|);
    SShapeBlock(funcs, a, s.body);
    ExtOf(a, b);
    SShapeBlock(funcs, st2a, s.handler);
    p := Tried(a, b, st2, st2a, st3a);
  }

  lemma PatchErrs(st: CS, ip: int, off: int)
    ensures PatchSbx(st, ip, off).errs == st.errs
  {
  }

  lemma {:induction false} EvenTryStmt(funcs: seq<FuncDecl>, st: CS, s: Stmt)
    requires s.Try? && |CompileTry(funcs, st, s).code| < 0x8000
    ensures Even(st.code, CompileTry(funcs, st, s).code)
    decreases s, 1
  {
    hide Even, SShape, CompileBlock, CompileTry, LoopsGrow;
    var p := TryParts(funcs, st, s);
    SLen(p.st2a, p.st3a);
    EvenBlock(funcs, p.a, s.body);
    EvenTry(st.code, p.a.code[|st.code|], p.b.code, p.st2.code);
    EvenBlock(funcs, p.st2a, s.handler);
    EvenTrans(st.code, p.st2.code, p.st3a.code);
    EvenOps(st.code, p.st3a.code, CompileTry(funcs, st, s).code);
  }

  // ---- spoiled code ----

  ghost predicate Ext(a: CS, b: CS) { |a.code| <= |b.code| && LoopsGrow(a, b) }

  lemma ExtOf(a: CS, b: CS)
    requires SShape(a, b)
    ensures Ext(a, b) && SameOps(a.code, b.code) && (forall i :: 0 <= i < |a.code| ==> b.code[i] == a.code[i])
      && a.errs <= b.errs
  {
    hide Inv, Keeps, LoopsGrow, Waiting;
  }

  lemma ExtSame(a: CS, b: CS)
    requires |a.code| <= |b.code| && b.loops == a.loops
    ensures Ext(a, b) && New(a, b) == {}
  {
  }

  lemma ExtTrans(a: CS, b: CS, c: CS)
    requires Ext(a, b) && Ext(b, c)
    ensures Ext(a, c)
  {
    forall i | NewBreak(a, c, i)
      ensures |a.code| <= i < |c.code|
    {
      BreakSplit(a, b, c, i);
    }
    hide NewBreak;
  }

  /** A jump between places with different TRYs open. */
  ghost predicate Crosses(code: seq<Instr>, i: int) {
    && 0 <= i < |code| && Vm.IsJump(code[i].op) && 0 <= Goal(code, i) <= |code|
    && Open(code, Goal(code, i)) != Open(code, i)
  }

  function Cont(st: CS): nat
    requires st.loops != []
  {
    st.loops[|st.loops| - 1].cont
  }

  /** Position i stands between more TRYs than the innermost loop's test. */
  ghost predicate DeepAt(c: CS, i: int) {
    0 <= i <= |c.code| && c.loops != [] && Cont(c) <= |c.code| && |Open(c.code, Cont(c))| < |Open(c.code, i)|
  }

  /** Compiling from st to c left at i a jump that crosses, or a break that will. */
  ghost predicate SpoiledAt(st: CS, c: CS, i: int) {
    |st.code| <= i < |c.code| && if i in New(st, c) then DeepAt(c, i) else Crosses(c.code, i)
  }

  /** The loop around, if any, stands between no more TRYs than the code now; fewer, when no loop is in reach. */
  ghost predicate Over(st: CS, brk: bool) {
    st.loops == [] || (Cont(st) <= |st.code|
      && |Open(st.code, Cont(st))| + (if brk then 0 else 1) <= |Open(st.code, |st.code|)|)
  }

  lemma ContKept(a: CS, b: CS)
    requires LoopsGrow(a, b)
    ensures (a.loops == [] <==> b.loops == []) && (a.loops != [] ==> Cont(b) == Cont(a))
  {
    hide NewBreak;
  }

  lemma OverLater(a: CS, b: CS, brk: bool)
    requires Over(a, brk) && LoopsGrow(a, b) && Even(a.code, b.code)
    ensures Over(b, brk)
  {
    hide LoopsGrow, Open, Even;
    ContKept(a, b);
    EvenEnds(a.code, b.code);
    if a.loops != [] {
      OpenLike(a.code, b.code, Cont(a));
    }
  }

  lemma NewIn(a: CS, c: CS, i: int)
    requires LoopsGrow(a, c) && i in New(a, c)
    ensures |a.code| <= i < |c.code|
  {
    var x, z := Breaks(a), Breaks(c);
    var j :| 0 <= j < |z[|x|..]| && z[|x|..][j] == i;
    assert z[|x| + j] == i;
    assert NewBreak(a, c, i);
  }

  lemma NewSplit(a: CS, b: CS, c: CS)
    requires LoopsGrow(a, b) && LoopsGrow(b, c)
    ensures New(a, c) == New(a, b) + New(b, c)
  {
    hide NewBreak;
    var x, y, z := Breaks(a), Breaks(b), Breaks(c);
    assert x <= y <= z;
    assert z[|x|..] == z[|x|..|y|] + z[|y|..];
    assert z[|x|..|y|] == y[|x|..];
  }

  /** What comes after leaves it spoiled, as long as it does not touch that jump. */
  lemma SpoilOn(st: CS, c: CS, d: CS, i: int)
    requires SpoiledAt(st, c, i) && LoopsGrow(st, c) && Ext(c, d) && SameOps(c.code, d.code) && d.code[i] == c.code[i]
    ensures SpoiledAt(st, d, i)
  {
    hide LoopsGrow, Open, New;
    NewSplit(st, c, d);
    ContKept(c, d);
    if i in New(c, d) {
      NewIn(c, d, i);
    }
    OpenLike(c.code, d.code, i);
    if i in New(st, c) {
      OpenLike(c.code, d.code, Cont(c));
    } else {
      OpenLike(c.code, d.code, Goal(c.code, i));
    }
  }

  lemma SpoilUp(st: CS, a: CS, c: CS, i: int)
    requires SpoiledAt(a, c, i) && Ext(st, a) && LoopsGrow(a, c)
    ensures SpoiledAt(st, c, i)
  {
    hide LoopsGrow, Open, New;
    NewSplit(st, a, c);
    if i in New(st, a) {
      NewIn(st, a, i);
    }
  }

  lemma {:induction false} SpoilStmts(funcs: seq<FuncDecl>, st: CS, ss: seq<Stmt>, brk: bool) returns (i: int)
    requires !StaysAll(ss, brk) && Over(st, brk) && |CompileStmts(funcs, st, ss).code| < 0x8000
      && CompileStmts(funcs, st, ss).errs == 0
    ensures SpoiledAt(st, CompileStmts(funcs, st, ss), i)
    decreases ss, 0
  {
    hide SpoiledAt, Over, Even, CompileStmt, SShape, Stays, LoopsGrow;
    var st1 := CompileStmt(funcs, st, ss[0]);
    var st2 := CompileStmts(funcs, st1, ss[1..]);
    SShapeStmt(funcs, st, ss[0]);
    SShapeStmts(funcs, st1, ss[1..]);
    ExtOf(st, st1);
    ExtOf(st1, st2);
    if Stays(ss[0], brk) {
      EvenStmt(funcs, st, ss[0]);
      OverLater(st, st1, brk);
      i := SpoilStmts(funcs, st1, ss[1..], brk);
      SpoilUp(st, st1, st2, i);
    } else {
      i := SpoilStmt(funcs, st, ss[0], brk);
      SpoilRange(st, st1, i);
      SpoilOn(st, st1, st2, i);
    }
  }

  lemma SpoilRange(st: CS, c: CS, i: int)
    requires SpoiledAt(st, c, i)
    ensures |st.code| <= i < |c.code|
  {
  }

  lemma {:induction false} SpoilBlock(funcs: seq<FuncDecl>, st: CS, ss: seq<Stmt>, brk: bool) returns (i: int)
    requires !StaysAll(ss, brk) && Over(st, brk) && |CompileBlock(funcs, st, ss).code| < 0x8000
      && CompileBlock(funcs, st, ss).errs == 0
    ensures SpoiledAt(st, CompileBlock(funcs, st, ss), i)
    decreases ss, 1
  {
    hide Over, CompileStmts, Open, StaysAll;
    i := SpoilStmts(funcs, st, ss, brk);
  }

  lemma {:induction false} SpoilStmt(funcs: seq<FuncDecl>, st: CS, s: Stmt, brk: bool) returns (i: int)
    requires !Stays(s, brk) && Over(st, brk) && |CompileStmt(funcs, st, s).code| < 0x8000
      && CompileStmt(funcs, st, s).errs == 0
    ensures SpoiledAt(st, CompileStmt(funcs, st, s), i)
    decreases s, 2
  {
    hide SpoiledAt, Over, CompileBlock, CompileIf, CompileWhile, CompileSwitch, CompileTry, EmitBreak, EmitContinue,
      StaysAll, StaysCases;
    if s.Block? {
      i := SpoilBlock(funcs, st, s.stmts, brk);
    } else if s.If? {
      i := SpoilIf(funcs, st, s, brk);
    } else if s.While? {
      i := SpoilWhile(funcs, st, s);
    } else if s.Break? {
      i := SpoilBreak(st);
    } else if s.Continue? {
      i := SpoilContinue(st);
    } else if s.Switch? {
      i := SpoilSwitch(funcs, st, s, brk);
    } else {
      i := SpoilTry(funcs, st, s, brk);
    }
  }

  lemma SpoilBreak(st: CS) returns (i: int)
    requires Over(st, false) && EmitBreak(st).errs == 0
    ensures SpoiledAt(st, EmitBreak(st), i)
  {
    hide Open, New, EmitBreak, LoopsGrow, SShape;
    i := |st.code|;
    if st.loops == [] {
      BreakError(st);
    } else {
      BreakIs(st);
      SShapeBreak(st);
      BreakGrows(st);
      ContKept(st, EmitBreak(st));
      OpenLike(st.code, EmitBreak(st).code, |st.code|);
      OpenLike(st.code, EmitBreak(st).code, Cont(st));
    }
  }

  lemma BreakGrows(st: CS)
    requires SShape(st, EmitBreak(st))
    ensures LoopsGrow(st, EmitBreak(st))
  {
    hide Inv, Keeps, Waiting, LoopsGrow, EmitBreak;
  }

  lemma SpoilContinue(st: CS) returns (i: int)
    requires Over(st, false) && EmitContinue(st).errs == 0 && |EmitContinue(st).code| < 0x8000
    ensures SpoiledAt(st, EmitContinue(st), i)
  {
    hide Open, EmitJump, MakeAsBx;
    i := |st.code|;
    if st.loops == [] {
      BreakError(st);
    } else {
      var c := EmitContinue(st);
      assert c == EmitJump(st, JMP, 0, Cont(st));
      JumpLen(st, Cont(st));
      JumpIs(st, Cont(st));
      NewNone(st, c);
      OpenLike(st.code, c.code, |st.code|);
      OpenLike(st.code, c.code, Cont(st));
    }
  }

  /** The code up to the end of an if's first branch. */
  lemma {:induction false} IfParts(funcs: seq<FuncDecl>, st: CS, s: Stmt) returns (st1: CS, st2: CS, st3: CS, st4: CS)
    requires s.If?
    ensures st1 == CondJump(funcs, st, s.cond) && st2 == CompileBlock(funcs, st1, s.thn) && st3 == IfJoin(st1, st2)
    ensures st4 == (if s.els.Some? && (s.els.value.Block? || s.els.value.If?) then CompileStmt(funcs, st3, s.els.value)
      else st3)
    ensures |st.code| < |st1.code| <= |st2.code| && Ext(st, st1) && Ext(st1, st2) && SShape(st3, st4)
      && st1.errs <= st2.errs <= st4.errs
    ensures var c := CompileIf(funcs, st, s);
      if s.els == None then
        |c.code| == |st2.code| && SameOps(st2.code, c.code) && c.loops == st2.loops && c.errs == st2.errs
        && forall i :: |st1.code| <= i < |st2.code| ==> c.code[i] == st2.code[i]
      else
        |c.code| == |st4.code| && SameOps(st4.code, c.code) && c.loops == st4.loops && c.errs == st4.errs
        && forall i :: 0 <= i < |st4.code| && i != |st2.code| ==> c.code[i] == st4.code[i]
  {
    hide SShape, CompileBlock, CompileStmt, CondJump, IfJoin, PatchSbx, LoopsGrow;
    st1 := CondJump(funcs, st, s.cond);
    st2 := CompileBlock(funcs, st1, s.thn);
    st3 := IfJoin(st1, st2);
    st4 := st3;
    SShapeCondJump(funcs, st, s.cond);
    SShapeBlock(funcs, st1, s.thn);
    ExtOf(st, st1);
    ExtOf(st1, st2);
    JoinErrs(st1, st2);
    if s.els == None {
      SShapeRefl(st3);
      PatchOps(st2, |st1.code| - 1, |st2.code| - |st1.code|);
      PatchErrs(st2, |st1.code| - 1, |st2.code| - |st1.code|);
    } else {
      if s.els.value.Block? || s.els.value.If? {
        st4 := CompileStmt(funcs, st3, s.els.value);
        SShapeStmt(funcs, st3, s.els.value);
        ExtOf(st3, st4);
      } else {
        SShapeRefl(st3);
      }
      PatchOps(st4, |st2.code|, |st4.code| - |st2.code| - 1);
      PatchErrs(st4, |st2.code|, |st4.code| - |st2.code| - 1);
    }
  }

  lemma JoinErrs(st1: CS, st2: CS)
    ensures IfJoin(st1, st2).errs == st2.errs
  {
    hide MakeAsBx;
  }

  lemma {:induction false} SpoilIf(funcs: seq<FuncDecl>, st: CS, s: Stmt, brk: bool) returns (i: int)
    requires s.If? && !Stays(s, brk) && Over(st, brk) && |CompileIf(funcs, st, s).code| < 0x8000
      && CompileIf(funcs, st, s).errs == 0
    ensures SpoiledAt(st, CompileIf(funcs, st, s), i)
    decreases s, 1
  {
    hide SpoiledAt, Over, Even, SShape, CompileBlock, CompileStmt, CondJump, CompileIf, IfJoin, StaysAll, LoopsGrow;
    var st1, st2, st3, st4 := IfParts(funcs, st, s);
    var c := CompileIf(funcs, st, s);
    JoinOps(st1, st2);
    ExtOf(st3, st4);
    ExtTrans(st, st1, st2);
    ExtSame(st2, st3);
    ExtTrans(st, st2, st3);
    EvenCond(funcs, st, s.cond);
    if !StaysAll(s.thn, brk) {
      OverLater(st, st1, brk);
      i := SpoilBlock(funcs, st1, s.thn, brk);
      SpoilRange(st1, st2, i);
      SpoilUp(st, st1, st2, i);
      if s.els == None {
        ExtSame(st2, c);
        SpoilOn(st, st2, c, i);
      } else {
        SpoilOn(st, st2, st3, i);
        SpoilOn(st, st3, st4, i);
        ExtTrans(st, st3, st4);
        ExtSame(st4, c);
        SpoilOn(st, st4, c, i);
      }
    } else {
      EvenBlock(funcs, st1, s.thn);
      EvenTrans(st.code, st1.code, st2.code);
      EvenJoin(st1, st2);
      EvenTrans(st.code, st2.code, st3.code);
      OverLater(st, st3, brk);
      i := SpoilStmt(funcs, st3, s.els.value, brk);
      SpoilRange(st3, st4, i);
      SpoilUp(st, st3, st4, i);
      ExtTrans(st, st3, st4);
      ExtSame(st4, c);
      SpoilOn(st, st4, c, i);
    }
  }

  lemma {:induction false} SpoilWhile(funcs: seq<FuncDecl>, st: CS, s: Stmt) returns (i: int)
    requires s.While? && !StaysAll(s.body, true) && |CompileWhile(funcs, st, s).code| < 0x8000
      && CompileWhile(funcs, st, s).errs == 0
    ensures SpoiledAt(st, CompileWhile(funcs, st, s), i)
    decreases s, 1
  {
    hide SpoiledAt, Over, Even, SShape, CompileBlock, CondJump, PatchSbx, EmitJump, PopLoop, LoopsGrow, StaysAll;
    var st0 := st.(loops := st.loops + [Loop([], |st.code|)]);
    var st1 := CondJump(funcs, st0, s.cond);
    var st2 := CompileBlock(funcs, st1, s.body);
    var st3 := EmitJump(st2, JMP, 0, |st.code|);
    var ip := |st1.code| - 1;
    var st4 := PatchSbx(st3, ip, |st3.code| - |st1.code|);
    assert CompileWhile(funcs, st, s) == PopLoop(st4, |st3.code|);
    WhileLens(funcs, st0, s, st1, st2, st3);
    WhileErrs(st2, |st.code|, ip, |st3.code| - |st1.code|, |st3.code|);
    ExtOf(st0, st1);
    ExtOf(st1, st2);
    ExtOf(st2, st3);
    OverSelf(st);
    EvenCond(funcs, st0, s.cond);
    OverLater(st0, st1, true);
    i := SpoilBlock(funcs, st1, s.body, true);
    SpoilRange(st1, st2, i);
    SpoilUp(st0, st1, st2, i);
    ExtTrans(st0, st1, st2);
    SpoilOn(st0, st2, st3, i);
    ExtTrans(st0, st2, st3);
    PatchOps(st3, ip, |st3.code| - |st1.code|);
    ExtSame(st3, st4);
    SpoilOn(st0, st3, st4, i);
    WhileShape(st, st0, st1, st2, st3);
    EvenWhile(funcs, st, s);
    SpoilPop(st, st0, st4, |st3.code|, i);
  }

  lemma WhileErrs(st2: CS, t: nat, ip: int, off: int, end: nat)
    ensures PopLoop(PatchSbx(EmitJump(st2, JMP, 0, t), ip, off), end).errs == st2.errs
  {
    hide MakeAsBx, ToI16, PatchAll, PatchSbx;
    var st3 := EmitJump(st2, JMP, 0, t);
    PatchErrs(st3, ip, off);
    var st4 := PatchSbx(st3, ip, off);
    if st4.loops != [] {
      PatchAllShape(st4.(loops := st4.loops[..|st4.loops| - 1]), st4.loops[|st4.loops| - 1].breaks, end);
    }
  }

  lemma OverSelf(st: CS)
    ensures Over(st.(loops := st.loops + [Loop([], |st.code|)]), true)
  {
  }

  /** When the loop is popped its deep breaks are aimed at the end, and cross; other jumps stay as they are. */
  lemma SpoilPop(st: CS, st0: CS, st4: CS, end: nat, i: int)
    requires st0 == st.(loops := st.loops + [Loop([], |st.code|)]) && SShape(st0, st4) && end == |st4.code| < 0x8000
      && SpoiledAt(st0, st4, i)
    requires Even(st.code, PopLoop(st4, end).code)
    ensures SpoiledAt(st, PopLoop(st4, end), i)
  {
    hide PatchAll, Open, Inv, Keeps, Grows, LoopsGrow, Even, SShape, MakeAsBx, ToI16, Instr.SBx;
    var n := |st.loops|;
    SShapePop(st, st0, st4, end);
    NewIsBreaks(st, st0, st4);
    PopFacts(st0, st4);
    var ips := st4.loops[n].breaks;
    var e := st4.(loops := st4.loops[..n]);
    var d := PopLoop(st4, end);
    assert d == PatchAll(e, ips, end);
    PatchAllOps(e, ips, end);
    NewNone(st, d);
    OpenLike(st4.code, d.code, i);
    if i in ips {
      assert i in New(st0, st4);
      NewIs(st0, st4, i);
      assert Pending(st4.code[i]);
      PatchAllAims(e, ips, end, i);
      Aimed(JMP, 0, i, end);
      EvenEnds(st.code, d.code);
      OpenLike(st4.code, d.code, |st.code|);
    } else {
      assert i !in New(st0, st4);
      OpenLike(st4.code, d.code, Goal(st4.code, i));
    }
  }

  lemma PopFacts(st0: CS, st4: CS)
    requires SShape(st0, st4) && st0.loops != []
    ensures |st4.loops| == |st0.loops| && Cont(st4) == Cont(st0)
    ensures forall i :: NewBreak(st0, st4, i) && 0 <= i < |st4.code| ==> Pending(st4.code[i])
  {
    hide Inv, Keeps, Grows, NewBreak;
  }

  lemma {:induction false} SpoilCase(funcs: seq<FuncDecl>, st: CS, c: Case, tag: Byte, brk: bool) returns (i: int)
    requires !StaysAll(c.body, brk) && Over(st, brk) && |CompileCase(funcs, st, c, tag).0.code| < 0x8000
      && CompileCase(funcs, st, c, tag).0.errs == 0
    ensures SpoiledAt(st, CompileCase(funcs, st, c, tag).0, i) && i < CompileCase(funcs, st, c, tag).1
    decreases c, 0
  {
    hide SpoiledAt, Over, Even, SShape, CaseFront, CompileBlock, IfJoin, StaysAll, LoopsGrow, New;
    var st1 := CaseFront(funcs, st, c.values, tag);
    var st2 := CompileBlock(funcs, st1, c.body);
    var st3 := IfJoin(st1, st2);
    JoinOps(st1, st2);
    JoinErrs(st1, st2);
    SShapeBlock(funcs, st1, c.body);
    ExtOf(st1, st2);
    ShapeCaseFront(funcs, st, c.values, tag);
    FromShape(st, st1);
    ExtOf(st, st1);
    EvenFront(funcs, st, c.values, tag);
    OverLater(st, st1, brk);
    i := SpoilBlock(funcs, st1, c.body, brk);
    SpoilRange(st1, st2, i);
    SpoilUp(st, st1, st2, i);
    ExtTrans(st, st1, st2);
    ExtSame(st2, st3);
    SpoilOn(st, st2, st3, i);
  }

  lemma {:induction false} SpoilCases(funcs: seq<FuncDecl>, st: CS, cases: seq<Case>, tag: Byte,
    brk: bool) returns (i: int)
    requires !StaysCases(cases, brk) && Over(st, brk)
    requires |CompileCases(funcs, st, cases, tag).0.code| < 0x8000 && CompileCases(funcs, st, cases, tag).0.errs == 0
    ensures SpoiledAt(st, CompileCases(funcs, st, cases, tag).0, i) && i !in CompileCases(funcs, st, cases, tag).1
    decreases cases, 0
  {
    hide SpoiledAt, Over, Even, SShape, CompileCase, StaysAll, LoopsGrow, NewBreak;
    var (st1, end) := CompileCase(funcs, st, cases[0], tag);
    var (st2, ends) := CompileCases(funcs, st1, cases[1..], tag);
    SShapeCase(funcs, st, cases[0], tag);
    SShapeCases(funcs, st1, cases[1..], tag);
    ExtOf(st, st1);
    ExtOf(st1, st2);
    if StaysAll(cases[0].body, brk) {
      EvenCase(funcs, st, cases[0], tag);
      OverLater(st, st1, brk);
      i := SpoilCases(funcs, st1, cases[1..], tag, brk);
      SpoilRange(st1, st2, i);
      SpoilUp(st, st1, st2, i);
    } else {
      i := SpoilCase(funcs, st, cases[0], tag, brk);
      SpoilRange(st, st1, i);
      SpoilOn(st, st1, st2, i);
    }
  }

  lemma {:induction false} SpoilSwitch(funcs: seq<FuncDecl>, st: CS, s: Stmt, brk: bool) returns (i: int)
    requires s.Switch? && !Stays(s, brk) && Over(st, brk) && |CompileSwitch(funcs, st, s).code| < 0x8000
      && CompileSwitch(funcs, st, s).errs == 0
    ensures SpoiledAt(st, CompileSwitch(funcs, st, s), i)
    decreases s, 1
  {
    hide SpoiledAt, Over, Even, SShape, CompileSwitch, CompileExpr, CompileCases, CompileBlock, Alloc, PatchAll,
      StaysAll, StaysCases, LoopsGrow, NewBreak;
    var st2, tr, st3, ends, st4 := SwitchParts(funcs, st, s);
    var c := CompileSwitch(funcs, st, s);
    ExtOf(st, st2);
    ExtOf(st2, st3);
    ExtOf(st3, st4);
    ExtTrans(st, st2, st3);
    ExtTrans(st, st3, st4);
    SShapeCases(funcs, st2, s.cases, tr);
    PatchAllOps(st4, ends, |st4.code|);
    ExtSame(st4, c);
    EvenTag(funcs, st, s.tag, tr);
    OverLater(st, st2, brk);
    if !StaysCases(s.cases, brk) {
      i := SpoilCases(funcs, st2, s.cases, tr, brk);
      SpoilRange(st2, st3, i);
      SpoilUp(st, st2, st3, i);
      SpoilOn(st, st3, st4, i);
    } else {
      EvenCases(funcs, st2, s.cases, tr);
      OverLater(st2, st3, brk);
      i := SpoilBlock(funcs, st3, s.default.body, brk);
      SpoilRange(st3, st4, i);
      SpoilUp(st, st3, st4, i);
    }
    SpoilOn(st, st4, c, i);
  }

  lemma OverTry(st: CS, a: CS, brk: bool)
    requires Over(st, brk) && |a.code| == |st.code| + 1 && a.code == st.code + [a.code[|st.code|]]
      && a.code[|st.code|].op == TRY && a.loops == st.loops
    ensures Over(a, false) && Ext(st, a)
  {
    hide Open;
    ExtSame(st, a);
    OpenLike(st.code, a.code, |st.code|);
    OpenNext(a.code, |st.code|);
    if st.loops != [] {
      OpenLike(st.code, a.code, Cont(st));
    }
  }

  lemma {:induction false} SpoilTry(funcs: seq<FuncDecl>, st: CS, s: Stmt, brk: bool) returns (i: int)
    requires s.Try? && !Stays(s, brk) && Over(st, brk) && |CompileTry(funcs, st, s).code| < 0x8000
      && CompileTry(funcs, st, s).errs == 0
    ensures SpoiledAt(st, CompileTry(funcs, st, s), i)
    decreases s, 1
  {
    hide SpoiledAt, Over, Even, SShape, CompileBlock, CompileTry, StaysAll, LoopsGrow;
    var p := TryParts(funcs, st, s);
    var c := CompileTry(funcs, st, s);
    ExtOf(p.st2a, p.st3a);
    OverTry(st, p.a, brk);
    ExtTrans(st, p.a, p.b);
    ExtSame(p.b, p.st2a);
    ExtTrans(st, p.b, p.st2a);
    ExtTrans(st, p.st2a, p.st3a);
    ExtSame(p.st3a, c);
    if !StaysAll(s.body, false) {
      i := SpoilBlock(funcs, p.a, s.body, false);
      SpoilRange(p.a, p.b, i);
      SpoilUp(st, p.a, p.b, i);
      SpoilOn(st, p.b, p.st2a, i);
      SpoilOn(st, p.st2a, p.st3a, i);
    } else {
      EvenBlock(funcs, p.a, s.body);
      EvenTry(st.code, p.a.code[|st.code|], p.b.code, p.st2.code);
      OverLater(st, p.st2a, brk);
      i := SpoilBlock(funcs, p.st2a, s.handler, brk);
      SpoilRange(p.st2a, p.st3a, i);
      SpoilUp(st, p.st2a, p.st3a, i);
    }
    SpoilOn(st, p.st3a, c, i);
  }

  // ---- functions ----

  /**
   A function compiled without an error is balanced exactly when no break or continue in it leaves the body of a try.
   */
  lemma {:induction false} BalancedExact(funcs: seq<FuncDecl>, pool: seq<Constant>, f: FuncDecl)
    requires CompileBody(funcs, pool, f).errs == 0 && |CompileBody(funcs, pool, f).code| < 0x8000
    ensures Balanced(CompileBody(funcs, pool, f).code) <==> StaysAll(f.body, false)
  {
    hide SpoiledAt, SShape, CompileBlock, StaysAll, Balanced, LoopsGrow;
    var st0 := InitCS(pool, f.params);
    var b := CompileBlock(funcs, st0, f.body);
    var c := Emit(b, MakeABC(RETN, 0, 0, 0));
    if StaysAll(f.body, false) {
      BodyBalanced(funcs, pool, f);
    } else {
      SShapeBlock(funcs, st0, f.body);
      ExtOf(st0, b);
      var i := SpoilBlock(funcs, st0, f.body, false);
      SpoilRange(st0, b, i);
      ExtSame(b, c);
      SpoilOn(st0, b, c, i);
      ContKept(st0, b);
      SpoilEnds(st0, c, i);
    }
  }

  lemma SpoilEnds(st: CS, c: CS, i: int)
    requires SpoiledAt(st, c, i) && c.loops == []
    ensures !Balanced(c.code)
  {
    hide Open, Instr.SBx, New;
    assert Crosses(c.code, i);
    assert Aims(c.code[i]) && !Lands(c.code, i);
  }
}
