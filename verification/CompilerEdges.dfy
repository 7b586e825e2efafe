/**
 Where the hypotheses of the compiler theorem are needed: the emitted code that departs from the meaning, and exactly
 when.
 */
module CompilerEdges {
  import opened Bytecode
  import opened Ast
  import opened Vm
  import opened Semantics
  import opened MachineSteps
  import C = Compiler

  function Aliased(x: Text, y: Text, op: BinOp): Stmt { Assign(Ident(x), Binary(op, Ident(y), Ident(x))) }

  function CondOp(op: BinOp): Byte { if op == AndAnd then JF else JT }

  /** `x = y && x`, and with `||`, on locals: y is copied over x before x is read. */
  lemma AliasCode(funcs: seq<FuncDecl>, st: C.CS, x: Text, y: Text, op: BinOp)
    requires x in st.locals && y in st.locals && st.locals[x] != st.locals[y] && (op == AndAnd || op == OrOr)
    ensures C.CompileStmt(funcs, st, Aliased(x, y, op)).code ==
            st.code + [MakeABC(MOVE, st.locals[x], st.locals[y], 0), MakeAsBx(CondOp(op), st.locals[x], 0)]
  {
    hide MakeAsBx, ToI16;
    var rx, ry := st.locals[x], st.locals[y];
    var e := Binary(op, Ident(y), Ident(x));
    var st1 := C.CompileExpr(funcs, st, Ident(y), rx);
    assert st1 == C.Emit(st, MakeABC(MOVE, rx, ry, 0));
    var st2 := C.Emit(st1, MakeAsBx(CondOp(op), rx, 0));
    assert C.CompileExpr(funcs, st2, Ident(x), rx) == st2;
    assert C.CompileExpr(funcs, st, e, rx) == C.CompileBinary(funcs, st, e, rx) ==
      C.PatchSbx(st2, |st1.code|, |st2.code| - |st1.code| - 1);
    PatchZero(st2, |st1.code|, CondOp(op), rx);
  }

  lemma PatchZero(st: C.CS, ip: nat, op: Byte, a: Byte)
    requires ip < |st.code| && st.code[ip] == MakeAsBx(op, a, 0)
    ensures C.PatchSbx(st, ip, 0) == st
  {
    FieldsOf(op, a);
    hide MakeAsBx;
    assert st.code[ip := st.code[ip]] == st.code;
  }

  lemma FieldsOf(op: Byte, a: Byte)
    ensures MakeAsBx(op, a, 0).op == op && MakeAsBx(op, a, 0).a == a
  {
    hide ToI16;
  }

  /**
   The code leaves y's value in x whatever x was.  That is what the statement means exactly when y alone decides the
   outcome, or x had y's value already.
   */
  lemma AliasExact(J: Job, k: Ctl, ip: int, regs: Regs, E: Scope, w: World, x: Text, y: Text, op: BinOp, rx: Byte,
    ry: Byte)
    requires op == AndAnd || op == OrOr
    requires Fetches(J, k, ip, MakeABC(MOVE, rx, ry, 0)) && Fetches(J, k, ip + 1, MakeAsBx(CondOp(op), rx, 0))
    requires Position(E, x) >= 0 && Position(E, y) >= 0
    requires Get(regs, rx) == E[Position(E, x)].v && Get(regs, ry) == E[Position(E, y)].v
    ensures Goes(J, At(k, ip, regs, w), 2, At(k, ip + 2, regs[rx := E[Position(E, y)].v], w))
    ensures var vx, vy := E[Position(E, x)].v, E[Position(E, y)].v;
      ExecStmt(J.P, E, Aliased(x, y, op), w, 0) == Done(Next, E[Position(E, x) := Binding(x, vy)], w) <==>
      Truthy(J.P.env, w.trace, vy) == (op == OrOr) || vx == vy
  {
    var vx, vy := E[Position(E, x)].v, E[Position(E, y)].v;
    AliasRuns(J, k, ip, regs, w, CondOp(op), rx, ry);
    AliasMeans(J.P, E, w, x, y, op);
    var v := if Truthy(J.P.env, w.trace, vy) == (op == OrOr) then vy else vx;
    var i := Position(E, x);
    assert E[i := Binding(x, v)][i] == Binding(x, v) && E[i := Binding(x, vy)][i] == Binding(x, vy);
  }

  lemma AliasMeans(P: Prog, E: Scope, w: World, x: Text, y: Text, op: BinOp)
    requires (op == AndAnd || op == OrOr) && Position(E, x) >= 0 && Position(E, y) >= 0
    ensures var vx, vy := E[Position(E, x)].v, E[Position(E, y)].v;
      ExecStmt(P, E, Aliased(x, y, op), w, 0) ==
      Done(Next, E[Position(E, x) := Binding(x, if Truthy(P.env, w.trace, vy) == (op == OrOr) then vy else vx)], w)
  {
    hide Truthy, Position;
    assert Eval(P, E, Ident(y), w, 0) == Val(E[Position(E, y)].v, w);
    assert Eval(P, E, Ident(x), w, 0) == Val(E[Position(E, x)].v, w);
    var vx, vy := E[Position(E, x)].v, E[Position(E, y)].v;
    var e := Binary(op, Ident(y), Ident(x));
    assert Eval(P, E, e, w, 0) == Val(if Truthy(P.env, w.trace, vy) == (op == OrOr) then vy else vx, w);
    assert ExecStmt(P, E, Aliased(x, y, op), w, 0) == ExecAssign(P, E, Assign(Ident(x), e), w, 0);
  }

  lemma AliasRuns(J: Job, k: Ctl, ip: int, regs: Regs, w: World, op: Byte, rx: Byte, ry: Byte)
    requires (op == JF || op == JT) && Fetches(J, k, ip, MakeABC(MOVE, rx, ry, 0))
      && Fetches(J, k, ip + 1, MakeAsBx(op, rx, 0))
    ensures Goes(J, At(k, ip, regs, w), 2, At(k, ip + 2, regs[rx := Get(regs, ry)], w))
  {
    hide Goes, At, Taken, ToI16, MakeAsBx;
    StepLoad(J, k, ip, regs, w, MakeABC(MOVE, rx, ry, 0));
    FieldsOf(op, rx);
    SBxOf(op, rx, 0);
    StepJump(J, k, ip + 1, regs[rx := Get(regs, ry)], w, MakeAsBx(op, rx, 0));
    GoesTrans(J, At(k, ip, regs, w), 1, At(k, ip + 1, regs[rx := Get(regs, ry)], w), 1,
      At(k, ip + 2, regs[rx := Get(regs, ry)], w));
  }

  // ---- break out of a try ----

  /**
   The first two instructions of `try { break } catch e {}` in a loop: open the handler, jump out. Nothing closes the
   handler on that way.
   */
  lemma BreakCode(funcs: seq<FuncDecl>, st: C.CS, e: Text)
    requires st.loops != []
    ensures var n := |st.code|;
      var out := C.CompileStmt(funcs, st, Try([Break], e, []));
      && |out.code| == n + 4 && out.code[n].op == TRY && out.code[n + 1].op == JMP
      && |out.loops| == |st.loops| && n + 1 in out.loops[|st.loops| - 1].breaks
  {
    hide MakeAsBx, ToI16, C.Free, C.Alloc;
    var s := Try([Break], e, []);
    var (st1, er) := C.Alloc(st);
    AllocKeeps(st);
    var a := C.Emit(st1, MakeAsBx(TRY, er, 0));
    var b := C.EmitBreak(a);
    assert [Break][1..] == [];
    assert C.CompileStmts(funcs, a, [Break]) == C.CompileStmts(funcs, C.CompileStmt(funcs, a, Break), []) == b;
    var body := C.CompileBlock(funcs, a, [Break]);
    assert body.code == b.code && body.loops == b.loops;
    BreakOps(er);
    var st2 := C.TryJoin(st1, body);
    assert C.TryBody(funcs, st1, s, er) == st2;
    var c := st2.(locals := st2.locals[s.errName := er]);
    assert C.CompileStmts(funcs, c, []) == c;
    var st3 := C.CompileBlock(funcs, c, []).(locals := st2.locals);
    FreeKeeps(C.PatchSbx(st3, |st2.code| - 1, |st3.code| - |st2.code|), er);
  }

  lemma AllocKeeps(st: C.CS)
    ensures C.Alloc(st).0.code == st.code && C.Alloc(st).0.loops == st.loops
  {
  }

  lemma FreeKeeps(st: C.CS, r: Byte)
    ensures C.Free(st, r).code == st.code && C.Free(st, r).loops == st.loops
  {
  }

  lemma BreakOps(er: Byte)
    ensures forall d: I16 :: MakeAsBx(TRY, er, d).op == TRY
    ensures forall d: I16 :: MakeAsBx(JMP, 0, d).op == JMP
  {
    hide ToI16;
  }

  /**
   The meaning of the statement is to leave the loop.  The machine does leave it, two instructions later, but with the
   handler still open: from then on an error raised in that frame goes to the abandoned handler instead of outwards.
   */
  lemma BreakLeavesHandler(J: Job, k: Ctl, ip: int, regs: Regs, E: Scope, w: World, e: Text, open: Instr, jump: Instr,
    regs': Regs, w': World, msg: Text)
    requires Fetches(J, k, ip, open) && open.op == TRY && Fetches(J, k, ip + 1, jump) && jump.op == JMP
    ensures ExecStmt(J.P, E, Try([Break], e, []), w, 0) == Done(Brk, E, w)
    ensures var t := TryFrame(ip + 1 + open.SBx(), open.a);
      var left := k.(tries := k.tries + [t]);
      && Goes(J, At(k, ip, regs, w), 2, At(left, ip + 2 + jump.SBx(), regs, w))
      && Throwing(J, left, regs', w', msg) == At(k, t.catchIp, regs'[t.errReg := Str(FirstLine(msg))], w')
  {
    hide Goes, At, Throwing, Taken, ToI16;
    var t := TryFrame(ip + 1 + open.SBx(), open.a);
    var left := k.(tries := k.tries + [t]);
    StepTry(J, k, ip, regs, w, open);
    StepJump(J, left, ip + 1, regs, w, jump);
    JumpTaken(J, regs, w, jump);
    GoesTrans(J, At(k, ip, regs, w), 1, At(left, ip + 1, regs, w), 1, At(left, ip + 2 + jump.SBx(), regs, w));
    ThrowCaught(J, k, t, regs', w', msg);
    BreakMeans(J.P, E, w, e);
  }

  lemma JumpTaken(J: Job, regs: Regs, w: World, jump: Instr)
    requires jump.op == JMP
    ensures Taken(J.P.env, w.trace, regs, jump)
  {
  }

  lemma BreakMeans(P: Prog, E: Scope, w: World, e: Text)
    ensures ExecStmt(P, E, Try([Break], e, []), w, 0) == Done(Brk, E, w)
  {
    assert ExecStmt(P, E, Break, w, 0) == Done(Brk, E, w);
    assert ExecStmts(P, E, [Break], w, 0) == Done(Brk, E, w);
    assert E[..|E|] == E;
  }

  // ---- a map literal that reads the local it is assigned to ----

  /** `m = {k: m}` */
  function SelfMap(m: Text, key: Text): Stmt { Assign(Ident(m), MapLit([Entry(Lit(LStr(key)), Ident(m))])) }

  /** The new map is put in m's register before m is read. */
  lemma SelfMapCode(funcs: seq<FuncDecl>, st: C.CS, m: Text, key: Text)
    requires m in st.locals && C.Intern(st, CStr(key)).1 <= 255 && C.Alloc(st).1 != st.locals[m]
    ensures var (rm, ki, r) := (st.locals[m], C.Intern(st, CStr(key)).1, C.Alloc(st).1);
      C.CompileStmt(funcs, st, SelfMap(m, key)).code ==
      st.code + [MakeABC(NEWMAP, rm, 0, 0), MakeABC(MOVE, r, rm, 0), MakeABC(SETK, rm, ki, r)]
  {
    hide C.Intern;
    var rm := st.locals[m];
    var en := Entry(Lit(LStr(key)), Ident(m));
    var st0 := C.Emit(st, MakeABC(NEWMAP, rm, 0, 0));
    InternSame(st, st0, CStr(key));
    var (st1, ki) := C.Intern(st0, CStr(key));
    var (st2, r) := C.Alloc(st1);
    assert r == C.Alloc(st).1;
    var st3 := C.CompileExpr(funcs, st2, Ident(m), r);
    assert st3 == C.Emit(st2, MakeABC(MOVE, r, rm, 0));
    var st4 := C.EmitSetKey(st3, ki, rm, r);
    assert C.CompileEntry(funcs, st0, en, rm) == C.Free(st4, r);
    assert [en][1..] == [];
    assert C.CompileEntries(funcs, st0, [en], rm) == C.CompileEntries(funcs, C.Free(st4, r), [], rm) == C.Free(st4, r);
    assert C.CompileExpr(funcs, st, MapLit([en]), rm) == C.Free(st4, r);
    FreeKeeps(st4, r);
  }

  /** Interning looks at the pool only. */
  lemma InternSame(a: C.CS, b: C.CS, k: Constant)
    requires b.pool == a.pool
    ensures C.Intern(b, k) == (b.(pool := C.Intern(a, k).0.pool), C.Intern(a, k).1)
  {
    hide C.Find;
  }

  /**
   The machine stores the new map under its own key; the statement means to store what m was.  The two do the same, with
   the same trace, exactly when m was that very map already.
   */
  lemma SelfMapExact(J: Job, k: Ctl, ip: int, regs: Regs, E: Scope, w: World, m: Text, key: Text, rm: Byte, ki: Byte,
    r: Byte)
    requires Fetches(J, k, ip, MakeABC(NEWMAP, rm, 0, 0)) && Fetches(J, k, ip + 1, MakeABC(MOVE, r, rm, 0))
    requires Fetches(J, k, ip + 2, MakeABC(SETK, rm, ki, r)) && ki < |J.ch.consts| && J.ch.consts[ki] == CStr(key)
    requires r != rm && Position(E, m) >= 0 && Get(regs, rm) == E[Position(E, m)].v && Ask(J.P, NEWMAP, [], w).Val?
    ensures var a := Ask(J.P, NEWMAP, [], w);
      var v, n := E[Position(E, m)].v, a.v;
      var means, does := Ask(J.P, SETK, [n, Str(key), v], a.w), Ask(J.P, SETK, [n, Str(key), n], a.w);
      && (does.Val? ==> Goes(J, At(k, ip, regs, w), 3, At(k, ip + 3, regs[rm := n][r := n][rm := does.v], does.w)))
      && (does.Fails? ==> Goes(J, At(k, ip, regs, w), 3, Throwing(J, k, regs[rm := n][r := n], does.w, does.msg)))
      && ExecStmt(J.P, E, SelfMap(m, key), w, 0) ==
        (if means.Val? then Done(Next, E[Position(E, m) := Binding(m, means.v)], means.w) else Leave(means, E))
      && !means.Timeout? && !does.Timeout? && (does.w.trace == means.w.trace <==> v == n)
  {
    var a := Ask(J.P, NEWMAP, [], w);
    var v, n := E[Position(E, m)].v, a.v;
    SelfMapRuns(J, k, ip, regs, w, rm, ki, r, key, a);
    SelfMapMeans(J.P, E, w, m, key, a);
    AsksApart(J.P, [n, Str(key), v], [n, Str(key), n], a.w);
  }

  lemma AsksApart(P: Prog, xs: seq<Value>, ys: seq<Value>, w: World)
    ensures var x, y := Ask(P, SETK, xs, w), Ask(P, SETK, ys, w);
      !x.Timeout? && !y.Timeout? && (y.w.trace == x.w.trace <==> xs == ys)
  {
    var a, b := w.trace + [Prim(SETK, xs)], w.trace + [Prim(SETK, ys)];
    assert a[|w.trace|] == Prim(SETK, xs) && b[|w.trace|] == Prim(SETK, ys);
  }

  lemma SelfMapMeans(P: Prog, E: Scope, w: World, m: Text, key: Text, a: Result)
    requires Position(E, m) >= 0 && a == Ask(P, NEWMAP, [], w) && a.Val?
    ensures var means := Ask(P, SETK, [a.v, Str(key), E[Position(E, m)].v], a.w);
      ExecStmt(P, E, SelfMap(m, key), w, 0) == if means.Val?
        then Done(Next, E[Position(E, m) := Binding(m, means.v)], means.w) else Leave(means, E)
  {
    hide Ask, Position;
    var en := Entry(Lit(LStr(key)), Ident(m));
    assert Eval(P, E, Ident(m), a.w, 0) == Val(E[Position(E, m)].v, a.w);
    var means := SetField(P, a.v, key, E[Position(E, m)].v, a.w);
    assert EvalEntry(P, E, en, a.v, a.w, 0) == means;
    assert [en][1..] == [];
    OneEntry(P, E, en, a.v, a.w);
    assert Eval(P, E, MapLit([en]), w, 0) == means;
    assert ExecStmt(P, E, SelfMap(m, key), w, 0) == ExecAssign(P, E, SelfMap(m, key), w, 0);
  }

  lemma OneEntry(P: Prog, E: Scope, en: Entry, m: Value, w: World)
    ensures EvalEntries(P, E, [en], m, w, 0) == EvalEntry(P, E, en, m, w, 0)
  {
    hide EvalEntry;
    assert [en][1..] == [];
  }

  lemma SelfMapRuns(J: Job, k: Ctl, ip: int, regs: Regs, w: World, rm: Byte, ki: Byte, r: Byte, key: Text, a: Result)
    requires Fetches(J, k, ip, MakeABC(NEWMAP, rm, 0, 0)) && Fetches(J, k, ip + 1, MakeABC(MOVE, r, rm, 0))
    requires Fetches(J, k, ip + 2, MakeABC(SETK, rm, ki, r)) && ki < |J.ch.consts| && J.ch.consts[ki] == CStr(key)
    requires r != rm && a == Ask(J.P, NEWMAP, [], w) && a.Val?
    ensures var does := Ask(J.P, SETK, [a.v, Str(key), a.v], a.w);
      && (does.Val? ==> Goes(J, At(k, ip, regs, w), 3, At(k, ip + 3, regs[rm := a.v][r := a.v][rm := does.v], does.w)))
      && (does.Fails? ==> Goes(J, At(k, ip, regs, w), 3, Throwing(J, k, regs[rm := a.v][r := a.v], does.w, does.msg)))
  {
    hide Goes, At, Throwing, Ask;
    var s := At(k, ip, regs, w);
    var regs1 := regs[rm := a.v];
    var regs2 := regs1[r := a.v];
    NewMapRuns(J, k, ip, regs, w, rm, a);
    StepLoad(J, k, ip + 1, regs1, a.w, MakeABC(MOVE, r, rm, 0));
    GoesTrans(J, s, 1, At(k, ip + 1, regs1, a.w), 1, At(k, ip + 2, regs2, a.w));
    StepKey(J, k, ip + 2, regs2, a.w, MakeABC(SETK, rm, ki, r), key);
    var does := Ask(J.P, SETK, [a.v, Str(key), a.v], a.w);
    if does.Val? {
      GoesTrans(J, s, 2, At(k, ip + 2, regs2, a.w), 1, At(k, ip + 3, regs2[rm := does.v], does.w));
    } else if does.Fails? {
      GoesTrans(J, s, 2, At(k, ip + 2, regs2, a.w), 1, Throwing(J, k, regs2, does.w, does.msg));
    }
  }

  lemma NewMapRuns(J: Job, k: Ctl, ip: int, regs: Regs, w: World, rm: Byte, a: Result)
    requires Fetches(J, k, ip, MakeABC(NEWMAP, rm, 0, 0)) && a == Ask(J.P, NEWMAP, [], w) && a.Val?
    ensures Goes(J, At(k, ip, regs, w), 1, At(k, ip + 1, regs[rm := a.v], a.w))
  {
    hide Goes, At, Ask;
    assert Operands(regs, MakeABC(NEWMAP, rm, 0, 0)) == [];
    StepPrim(J, k, ip, regs, w, MakeABC(NEWMAP, rm, 0, 0));
  }

  lemma NegRuns(J: Job, k: Ctl, ip: int, regs: Regs, w: World, dest: Byte, t: Byte, rz: Byte)
    requires Fetches(J, k, ip, MakeABC(MOVE, t, rz, 0)) && Fetches(J, k, ip + 1, MakeABC(NEG, dest, t, 0))
    ensures var vz := Get(regs, rz);
      var b := Ask(J.P, NEG, [vz], w);
      && (b.Val? ==> Goes(J, At(k, ip, regs, w), 2, At(k, ip + 2, regs[t := vz][dest := b.v], b.w)))
      && (b.Fails? ==> Goes(J, At(k, ip, regs, w), 2, Throwing(J, k, regs[t := vz], b.w, b.msg))) && !b.Timeout?
  {
    hide Goes, At, Throwing, Ask;
    var s, vz := At(k, ip, regs, w), Get(regs, rz);
    var regs1 := regs[t := vz];
    StepLoad(J, k, ip, regs, w, MakeABC(MOVE, t, rz, 0));
    assert Operands(regs1, MakeABC(NEG, dest, t, 0)) == [vz];
    StepPrim(J, k, ip + 1, regs1, w, MakeABC(NEG, dest, t, 0));
    var b := Ask(J.P, NEG, [vz], w);
    if b.Val? {
      GoesTrans(J, s, 1, At(k, ip + 1, regs1, w), 1, At(k, ip + 2, regs1[dest := b.v], b.w));
    } else {
      GoesTrans(J, s, 1, At(k, ip + 1, regs1, w), 1, Throwing(J, k, regs1, b.w, b.msg));
    }
  }

  // ---- inside a try: an assignment that fails after its local was written ----

  /** `x = y && -z`, and with `||` */
  function Guarded(x: Text, y: Text, z: Text,
    op: BinOp): Stmt { Assign(Ident(x), Binary(op, Ident(y), Unary(Neg, Ident(z)))) }

  lemma GuardedCode(funcs: seq<FuncDecl>, st: C.CS, x: Text, y: Text, z: Text, op: BinOp)
    requires x in st.locals && y in st.locals && z in st.locals && (op == AndAnd || op == OrOr)
    requires st.locals[x] != st.locals[y] && C.Alloc(st).1 != st.locals[z]
    ensures var (rx, ry, rz, t) := (st.locals[x], st.locals[y], st.locals[z], C.Alloc(st).1);
      C.CompileStmt(funcs, st, Guarded(x, y, z, op)).code ==
      st.code + [MakeABC(MOVE, rx, ry, 0), MakeAsBx(CondOp(op), rx, 2), MakeABC(MOVE, t, rz, 0), MakeABC(NEG, rx, t, 0)]
  {
    hide MakeAsBx, ToI16;
    var rx, ry, rz, t := st.locals[x], st.locals[y], st.locals[z], C.Alloc(st).1;
    var st1 := C.CompileExpr(funcs, st, Ident(y), rx);
    assert st1 == C.Emit(st, MakeABC(MOVE, rx, ry, 0));
    var st2 := C.Emit(st1, MakeAsBx(CondOp(op), rx, 0));
    var (st3, t1) := C.Alloc(st2);
    assert t1 == t;
    var st4 := C.CompileExpr(funcs, st3, Ident(z), t);
    assert st4 == C.Emit(st3, MakeABC(MOVE, t, rz, 0));
    var st5 := C.Free(C.Emit(st4, MakeABC(NEG, rx, t, 0)), t);
    assert C.CompileExpr(funcs, st2, Unary(Neg, Ident(z)), rx) == st5;
    FreeKeeps(C.Emit(st4, MakeABC(NEG, rx, t, 0)), t);
    var e := Binary(op, Ident(y), Unary(Neg, Ident(z)));
    assert C.CompileExpr(funcs, st, e, rx) == C.CompileBinary(funcs, st, e, rx) == C.PatchSbx(st5, |st1.code|, 2);
    assert C.CompileStmt(funcs, st, Guarded(x, y, z, op)) == C.CompileExpr(funcs, st, e, rx);
    hide C.CompileExpr, C.CompileBinary, C.CompileStmt, C.Alloc, C.Free, C.Emit;
    PatchTwo(st, st5, CondOp(op), rx, ry, rz, t);
  }

  lemma PatchTwo(st: C.CS, st5: C.CS, op: Byte, rx: Byte, ry: Byte, rz: Byte, t: Byte)
    requires st5.code == st.code + [MakeABC(MOVE, rx, ry, 0)] + [MakeAsBx(op, rx, 0)] + [MakeABC(MOVE, t, rz, 0)]
      + [MakeABC(NEG, rx, t, 0)]
    ensures C.PatchSbx(st5, |st.code| + 1, 2).code ==
      st.code + [MakeABC(MOVE, rx, ry, 0), MakeAsBx(op, rx, 2), MakeABC(MOVE, t, rz, 0), MakeABC(NEG, rx, t, 0)]
  {
    hide MakeAsBx, ToI16;
    FieldsOf(op, rx);
    TwoIs();
  }

  lemma TwoIs()
    ensures ToI16(2) == 2
  {
  }

  /**
   When z cannot be negated the statement leaves x alone, but the machine raises with y's value in x's register, where a
   handler of the same function finds it.  So x's register holds what x means afterwards exactly when y alone decided,
   or the negation succeeded, or x had y's value before.
   */
  lemma GuardedExact(J: Job, k: Ctl, ip: int, regs: Regs, E: Scope, w: World, x: Text, y: Text, z: Text, op: BinOp,
    rx: Byte, ry: Byte, rz: Byte, t: Byte)
    requires (op == AndAnd || op == OrOr) && rx != rz && t != rx
    requires Fetches(J, k, ip, MakeABC(MOVE, rx, ry, 0)) && Fetches(J, k, ip + 1, MakeAsBx(CondOp(op), rx, 2))
    requires Fetches(J, k, ip + 2, MakeABC(MOVE, t, rz, 0)) && Fetches(J, k, ip + 3, MakeABC(NEG, rx, t, 0))
    requires Position(E, x) >= 0 && Position(E, y) >= 0 && Position(E, z) >= 0
    requires Get(regs, ry) == E[Position(E, y)].v && Get(regs, rz) == E[Position(E, z)].v
    ensures var vx, vy, vz := E[Position(E, x)].v, E[Position(E, y)].v, E[Position(E, z)].v;
      var b := Ask(J.P, NEG, [vz], w);
      var s, eff := At(k, ip, regs, w), ExecStmt(J.P, E, Guarded(x, y, z, op), w, 0);
      && !b.Timeout?
      && if Truthy(J.P.env, w.trace, vy) == (op == OrOr) then
           Goes(J, s, 2, At(k, ip + 4, regs[rx := vy], w)) && eff == Done(Next, E[Position(E, x) := Binding(x, vy)], w)
         else if b.Val? then
           Goes(J, s, 4, At(k, ip + 4, regs[rx := vy][t := vz][rx := b.v], b.w))
             && eff == Done(Next, E[Position(E, x) := Binding(x, b.v)], b.w)
         else
           && Goes(J, s, 4, Throwing(J, k, regs[rx := vy][t := vz], b.w, b.msg)) && eff == Done(Thrown(b.msg), E, b.w)
           && (Get(regs[rx := vy][t := vz], rx) == eff.env[Position(E, x)].v <==> vx == vy)
  {
    hide Goes, At, Throwing, Ask, Taken, Truthy, Position, MakeAsBx, ToI16, ExecStmt;
    var vy, vz := E[Position(E, y)].v, E[Position(E, z)].v;
    var s, regs1, j := At(k, ip, regs, w), regs[rx := vy], MakeAsBx(CondOp(op), rx, 2);
    GuardedMeans(J.P, E, w, x, y, z, op);
    StepLoad(J, k, ip, regs, w, MakeABC(MOVE, rx, ry, 0));
    FieldsAre(CondOp(op), rx, 2);
    SBxOf(CondOp(op), rx, 2);
    StepJump(J, k, ip + 1, regs1, w, j);
    GuardJumps(J.P.env, w.trace, regs1, j, op);
    if Truthy(J.P.env, w.trace, vy) == (op == OrOr) {
      GoesTrans(J, s, 1, At(k, ip + 1, regs1, w), 1, At(k, ip + 4, regs1, w));
    } else {
      GoesTrans(J, s, 1, At(k, ip + 1, regs1, w), 1, At(k, ip + 2, regs1, w));
      NegRuns(J, k, ip + 2, regs1, w, rx, t, rz);
      var b := Ask(J.P, NEG, [vz], w);
      if b.Val? {
        GoesTrans(J, s, 2, At(k, ip + 2, regs1, w), 2, At(k, ip + 4, regs1[t := vz][rx := b.v], b.w));
      } else {
        GoesTrans(J, s, 2, At(k, ip + 2, regs1, w), 2, Throwing(J, k, regs1[t := vz], b.w, b.msg));
      }
    }
  }

  lemma FieldsAre(op: Byte, a: Byte, d: I16)
    ensures MakeAsBx(op, a, d).op == op && MakeAsBx(op, a, d).a == a
  {
    hide ToI16;
  }

  lemma GuardJumps(env: Env, tr: Trace, regs: Regs, j: Instr, op: BinOp)
    requires (op == AndAnd || op == OrOr) && j.op == CondOp(op)
    ensures IsJump(j.op) && (Taken(env, tr, regs, j) <==> Truthy(env, tr, Get(regs, j.a)) == (op == OrOr))
  {
    hide Truthy;
  }

  lemma GuardedMeans(P: Prog, E: Scope, w: World, x: Text, y: Text, z: Text, op: BinOp)
    requires (op == AndAnd || op == OrOr) && Position(E, x) >= 0 && Position(E, y) >= 0 && Position(E, z) >= 0
    ensures var vy, vz := E[Position(E, y)].v, E[Position(E, z)].v;
      var b := Ask(P, NEG, [vz], w);
      var eff := ExecStmt(P, E, Guarded(x, y, z, op), w, 0);
      && !b.Timeout?
      && eff == if Truthy(P.env, w.trace, vy) == (op == OrOr) then Done(Next, E[Position(E, x) := Binding(x, vy)], w)
                else if b.Val? then Done(Next, E[Position(E, x) := Binding(x, b.v)], b.w)
                  else Done(Thrown(b.msg), E, b.w)
  {
    hide Truthy, Position;
    var vy, vz := E[Position(E, y)].v, E[Position(E, z)].v;
    var e := Unary(Neg, Ident(z));
    assert Eval(P, E, Ident(y), w, 0) == Val(vy, w) && Eval(P, E, Ident(z), w, 0) == Val(vz, w);
    assert Eval(P, E, e, w, 0) == Ask(P, NEG, [vz], w);
    hide Ask;
    assert Eval(P, E, Binary(op, Ident(y), e), w, 0) == if Truthy(P.env, w.trace, vy) == (op == OrOr) then Val(vy, w)
      else Eval(P, E, e, w, 0);
    assert ExecStmt(P, E, Guarded(x, y, z, op), w, 0) == ExecAssign(P, E, Guarded(x, y, z, op), w, 0);
  }

  /** `m = {k: -z}` */
  function Filled(m: Text, key: Text, z: Text): Stmt {
    Assign(Ident(m), MapLit([Entry(Lit(LStr(key)), Unary(Neg, Ident(z)))]))
  }

  lemma FilledCode(funcs: seq<FuncDecl>, st: C.CS, m: Text, key: Text, z: Text)
    requires m in st.locals && z in st.locals && C.Intern(st, CStr(key)).1 <= 255
    requires C.Alloc(C.Alloc(st).0).1 != st.locals[z]
    ensures var (rm, rz, ki) := (st.locals[m], st.locals[z], C.Intern(st, CStr(key)).1);
      var (r, t) := (C.Alloc(st).1, C.Alloc(C.Alloc(st).0).1);
      C.CompileStmt(funcs, st, Filled(m, key, z)).code ==
      st.code + [MakeABC(NEWMAP, rm, 0, 0), MakeABC(MOVE, t, rz, 0), MakeABC(NEG, r, t, 0), MakeABC(SETK, rm, ki, r)]
  {
    hide C.Intern;
    var rm, rz := st.locals[m], st.locals[z];
    var en := Entry(Lit(LStr(key)), Unary(Neg, Ident(z)));
    var st0 := C.Emit(st, MakeABC(NEWMAP, rm, 0, 0));
    InternSame(st, st0, CStr(key));
    var (st1, ki) := C.Intern(st0, CStr(key));
    var (st2, r) := C.Alloc(st1);
    var (st3, t) := C.Alloc(st2);
    assert r == C.Alloc(st).1 && t == C.Alloc(C.Alloc(st).0).1;
    var st4 := C.Emit(st3, MakeABC(MOVE, t, rz, 0));
    assert C.CompileExpr(funcs, st3, Ident(z), t) == st4;
    var st5 := C.Free(C.Emit(st4, MakeABC(NEG, r, t, 0)), t);
    FreeKeeps(C.Emit(st4, MakeABC(NEG, r, t, 0)), t);
    assert C.CompileExpr(funcs, st2, Unary(Neg, Ident(z)), r) == st5;
    var st6 := C.EmitSetKey(st5, ki, rm, r);
    assert C.CompileEntry(funcs, st0, en, rm) == C.Free(st6, r);
    assert [en][1..] == [];
    assert C.CompileEntries(funcs, st0, [en], rm) == C.CompileEntries(funcs, C.Free(st6, r), [], rm) == C.Free(st6, r);
    assert C.CompileExpr(funcs, st, MapLit([en]), rm) == C.Free(st6, r);
    FreeKeeps(st6, r);
  }

  /**
   A map literal that fails while it is being filled: the statement leaves m alone, the machine raises with the
   unfinished map in m's register.  They agree on m exactly when m was that map before.
   */
  lemma FilledFails(J: Job, k: Ctl, ip: int, regs: Regs, E: Scope, w: World, m: Text, key: Text, z: Text, rm: Byte,
    r: Byte, rz: Byte, t: Byte)
    requires rm != rz && t != rm && r != rm
    requires Fetches(J, k, ip, MakeABC(NEWMAP, rm, 0, 0)) && Fetches(J, k, ip + 1, MakeABC(MOVE, t, rz, 0))
      && Fetches(J, k, ip + 2, MakeABC(NEG, r, t, 0))
    requires Position(E, m) >= 0 && Position(E, z) >= 0 && Get(regs, rz) == E[Position(E, z)].v
    requires Ask(J.P, NEWMAP, [], w).Val? && Ask(J.P, NEG, [E[Position(E, z)].v], Ask(J.P, NEWMAP, [], w).w).Fails?
    ensures var a := Ask(J.P, NEWMAP, [], w);
      var vz := E[Position(E, z)].v;
      var b := Ask(J.P, NEG, [vz], a.w);
      var eff := ExecStmt(J.P, E, Filled(m, key, z), w, 0);
      && Goes(J, At(k, ip, regs, w), 3, Throwing(J, k, regs[rm := a.v][t := vz], b.w, b.msg))
        && eff == Done(Thrown(b.msg), E, b.w)
      && (Get(regs[rm := a.v][t := vz], rm) == eff.env[Position(E, m)].v <==> E[Position(E, m)].v == a.v)
  {
    hide Goes, At, Throwing, Ask, Position, ExecStmt;
    var a := Ask(J.P, NEWMAP, [], w);
    var vz, regs1 := E[Position(E, z)].v, regs[rm := a.v];
    var b := Ask(J.P, NEG, [vz], a.w);
    NewMapRuns(J, k, ip, regs, w, rm, a);
    NegRuns(J, k, ip + 1, regs1, a.w, r, t, rz);
    GoesTrans(J, At(k, ip, regs, w), 1, At(k, ip + 1, regs1, a.w), 2, Throwing(J, k, regs1[t := vz], b.w, b.msg));
    FilledMeans(J.P, E, w, m, key, z, a, b);
  }

  lemma FilledMeans(P: Prog, E: Scope, w: World, m: Text, key: Text, z: Text, a: Result, b: Result)
    requires Position(E, z) >= 0 && a == Ask(P, NEWMAP, [], w) && a.Val? && b == Ask(P, NEG, [E[Position(E, z)].v], a.w)
      && b.Fails?
    ensures ExecStmt(P, E, Filled(m, key, z), w, 0) == Done(Thrown(b.msg), E, b.w)
  {
    hide Ask, Position;
    var en := Entry(Lit(LStr(key)), Unary(Neg, Ident(z)));
    assert Eval(P, E, Ident(z), a.w, 0) == Val(E[Position(E, z)].v, a.w);
    assert Eval(P, E, Unary(Neg, Ident(z)), a.w, 0) == b;
    assert EvalEntry(P, E, en, a.v, a.w, 0) == b;
    OneEntry(P, E, en, a.v, a.w);
    assert Eval(P, E, MapLit([en]), w, 0) == b;
    assert ExecStmt(P, E, Filled(m, key, z), w, 0) == ExecAssign(P, E, Filled(m, key, z), w, 0);
  }

  // ---- a field name beyond the first 256 constants ----

  predicate IsMap(v: Value) { v.Ref? && v.kind == MapRef }

  /**
   What the instructions answer for a name that is no number: for a map the same entry; for anything else GETK null,
   GETI an error.
   */
  ghost predicate FieldsAnswered(env: Env, name: Text) {
    forall tr: Trace, v: Value ::
      var byName, byIndex := env.prim(tr, Prim(GETK, [v, Str(name)])), env.prim(tr, Prim(GETI, [v, Str(name)]));
      if IsMap(v) then byName.Ok? && byIndex == byName else byName == Ok(Null) && byIndex.Err?
  }

  /** Such a field is fetched by indexing. */
  lemma WideCode(funcs: seq<FuncDecl>, st: C.CS, name: Text, dest: Byte, obj: Byte)
    requires C.Intern(st, CStr(name)).1 > 255
    ensures var (ki, r) := (C.Intern(st, CStr(name)).1, C.Alloc(st).1);
      C.EmitGetField(st, name, dest, obj).code == st.code
        + [MakeABx(LOADK, r, ki % 0x1_0000), MakeABC(GETI, dest, obj, r)]
  {
    hide MakeABx, C.Find;
    var (st0, ki) := C.Intern(st, CStr(name));
    var (st2, r) := C.Alloc(C.NoteKey(st0, ki));
    FreeKeeps(C.Emit(C.Emit(st2, MakeABx(LOADK, r, ki % 0x1_0000)), MakeABC(GETI, dest, obj, r)), r);
  }

  /**
   `x.name` means the entry of x under the name, or null.  The longer code fetches that when x is a map and raises
   otherwise: it does what is meant exactly on maps.
   */
  lemma WideExact(J: Job, k: Ctl, ip: int, regs: Regs, w: World, name: Text, ki: nat, dest: Byte, obj: Byte, r: Byte)
    requires ki < |J.ch.consts| && ki < 0x1_0000 && J.ch.consts[ki] == CStr(name) && r != obj
      && FieldsAnswered(J.P.env, name)
    requires Fetches(J, k, ip, MakeABx(LOADK, r, ki)) && Fetches(J, k, ip + 1, MakeABC(GETI, dest, obj, r))
    ensures var v := Get(regs, obj);
      var means, does := GetField(J.P, v, name, w), Ask(J.P, GETI, [v, Str(name)], w);
      && means.Val? && (does.Val? ==> Goes(J, At(k, ip, regs, w), 2,
        At(k, ip + 2, regs[r := Str(name)][dest := does.v], does.w)))
      && (does.Fails? ==> Goes(J, At(k, ip, regs, w), 2, Throwing(J, k, regs[r := Str(name)], does.w, does.msg)))
      && (does.Val? && does.v == means.v <==> IsMap(v))
  {
    hide Goes, At, Throwing, MakeABx, Instr.Bx;
    var v, regs1, s := Get(regs, obj), regs[r := Str(name)], At(k, ip, regs, w);
    StepLoadK(J, k, ip, regs, w, MakeABx(LOADK, r, ki));
    assert Operands(regs1, MakeABC(GETI, dest, obj, r)) == [v, Str(name)];
    StepPrim(J, k, ip + 1, regs1, w, MakeABC(GETI, dest, obj, r));
    var does := Ask(J.P, GETI, [v, Str(name)], w);
    if does.Val? {
      GoesTrans(J, s, 1, At(k, ip + 1, regs1, w), 1, At(k, ip + 2, regs1[dest := does.v], does.w));
    } else {
      GoesTrans(J, s, 1, At(k, ip + 1, regs1, w), 1, Throwing(J, k, regs1, does.w, does.msg));
    }
    assert J.P.env.prim(w.trace, Prim(GETK, [v, Str(name)])).Ok?;
  }
}
