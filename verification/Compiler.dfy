/**
 What each method of funcCompiler does to the compiler's state (internal/compiler/compiler.go), as functions on
 that state.  `CompilerImpl` proves the methods against these functions and `CompilerCorrect` proves what the
 emitted code means.
 */
module Compiler {
  import opened Bytecode
  import opened Ast

  datatype Loop = Loop(breaks: seq<int>, cont: nat)

  /** The fields of funcCompiler and of the chunk's constant pool.  `peak` and `keys` are not in the source:
      the highest value nextReg has had, which the source records in maxRegs except on one path, and the highest pool
      index of a field name or constant key so far. */
  datatype CS = CS(code: seq<Instr>, pool: seq<Constant>, locals: map<Text, Byte>, next: nat, free: seq<int>,
                   maxRegs: nat, peak: nat, keys: nat, loops: seq<Loop>, errs: nat)

  function Max(a: nat, b: nat): nat { if a < b then b else a }

  function Emit(st: CS, ins: Instr): CS { st.(code := st.code + [ins]) }

  /** A jump from the next instruction to a known target. */
  function EmitJump(st: CS, op: Byte, a: Byte,
    target: nat): CS { Emit(st, MakeAsBx(op, a, ToI16(target - (|st.code| + 1)))) }

  function PatchSbx(st: CS, ip: int, off: int): CS {
    if 0 <= ip < |st.code| then st.(code := st.code[ip := MakeAsBx(st.code[ip].op, st.code[ip].a, ToI16(off))]) else st
  }

  /** Make every jump in `ips` land on `target`. */
  function PatchAll(st: CS, ips: seq<int>, target: nat): CS
    decreases |ips|
  {
    if ips == [] then st else PatchAll(PatchSbx(st, ips[0], target - ips[0] - 1), ips[1..], target)
  }

  function Alloc(st: CS): (CS, Byte) {
    if st.free != [] then (st.(free := st.free[..|st.free| - 1]), st.free[|st.free| - 1] % 0x100)
    else if st.next >= 254 then (st.(errs := st.errs + 1), 0)
    else (st.(next := st.next + 1, maxRegs := Max(st.maxRegs, st.next + 1), peak := Max(st.peak, st.next + 1)), st.next)
  }

  function Free(st: CS, r: Byte): CS { if r in st.locals.Values then st else st.(free := st.free + [r]) }

  /** The first index that holds k, |pool| when none does. */
  function Find(pool: seq<Constant>, k: Constant): (ix: nat)
    ensures ix <= |pool|
    ensures ix < |pool| ==> pool[ix] == k
    ensures forall i :: 0 <= i < ix ==> pool[i] != k
    decreases |pool|
  {
    if pool == [] then 0
    else
      var ix := Find(pool[..|pool| - 1], k);
      if ix < |pool| - 1 then ix else if pool[|pool| - 1] == k then |pool| - 1 else |pool|
  }

  function Intern(st: CS, k: Constant): (CS, nat) {
    var ix := Find(st.pool, k);
    if ix < |st.pool| then (st, ix) else (st.(pool := st.pool + [k]), |st.pool|)
  }

  function LoadConst(st: CS, k: Constant, dest: Byte): CS {
    var (st1, ki) := Intern(st, k);
    Emit(st1, MakeABx(LOADK, dest, ki % 0x1_0000))
  }

  function CompileLiteral(st: CS, lit: Literal, dest: Byte): CS {
    match lit
    case LNull => Emit(st, MakeABC(LOADN, dest, 0, 0))
    case LBool(b) => Emit(st, MakeABC(LOADB, dest, if b then 1 else 0, 0))
    case LInt(i) => if -0x8000 <= i < 0x8000 then Emit(st, MakeAsBx(LOADI, dest, i)) else LoadConst(st, CInt(i), dest)
    case LFloat(bits) => LoadConst(st, CFloat(bits), dest)
    case LStr(s) => LoadConst(st, CStr(s), dest)
  }

  function CompileIdent(funcs: seq<FuncDecl>, st: CS, name: Text, dest: Byte): CS {
    if name in st.locals then
      if st.locals[name] != dest then Emit(st, MakeABC(MOVE, dest, st.locals[name], 0)) else st
    else if FuncIndex(funcs, name) < |funcs| then Emit(st, MakeABx(MAKEFN, dest, FuncIndex(funcs, name) % 0x1_0000))
    else
      var (st1, ki) := Intern(st, CStr(name));
      Emit(st1, MakeABx(LOADG, dest, ki % 0x1_0000))
  }

  function UnOpcode(op: UnOp): Byte { match op case Bang => LNOT case Neg => NEG case Tilde => NOT }

  function BinOpcode(op: BinOp): Byte {
    match op
    case Plus => ADD
    case Minus => SUB
    case Star => MUL
    case Slash => DIV
    case Percent => MOD
    case BitAnd => AND
    case BitOr => OR
    case BitXor => XOR
    case Shl => SHL
    case Shr => SHR
    case EqEq => EQ
    case NotEq => NE
    case Lt => LT
    case Le => LE
    case Gt => GT
    case Ge => GE
    case _ => ADD
  }

  /** Allocate up to n registers, stopping after the first that does not continue the run.  The result is the
      first register and how many of the run were obtained. */
  function AllocRun(st: CS, n: nat): (CS, Byte, nat)
    requires n > 0
  {
    var (st1, base) := Alloc(st);
    var (st2, got) := ExtendRun(st1, base, 1, n);
    (st2, base, got)
  }

  function ExtendRun(st: CS, base: Byte, i: nat, n: nat): (CS, nat)
    requires i <= n
    decreases n - i
  {
    if i == n then (st, n) else
    var (st1, r) := Alloc(st);
    if r != (base + i) % 0x100 then (st1, i) else ExtendRun(st1, base, i + 1, n)
  }

  function FreeRun(st: CS, base: Byte, n: nat): CS
    decreases n
  {
    if n == 0 then st else Free(FreeRun(st, base, n - 1), (base + n - 1) % 0x100)
  }

  /** Skip n registers without consulting the free list. */
  function Reserve(st: CS, n: nat): CS { st.(next := st.next + n, peak := Max(st.peak, st.next + n)) }

  function NoteRegs(st: CS): CS { st.(maxRegs := Max(st.maxRegs, st.next)) }

  /** The registers of an array literal: a run from the allocator if it yields one, else fresh ones. */
  function ArrayRegs(st: CS, n: nat): (CS, Byte)
    requires n > 0
  {
    var (st1, base, got) := AllocRun(st, n);
    if got == n then (st1, base) else (Reserve(FreeRun(st1, base, got), n), st1.next % 0x100)
  }

  function CompileExpr(funcs: seq<FuncDecl>, st: CS, e: Expr, dest: Byte): CS
    decreases e, 2
  {
    match e
    case Lit(lit) => CompileLiteral(st, lit, dest)
    case Ident(name) => CompileIdent(funcs, st, name, dest)
    case Unary(op, x) =>
      var (st1, tmp) := Alloc(st);
      var st2 := CompileExpr(funcs, st1, x, tmp);
      Free(Emit(st2, MakeABC(UnOpcode(op), dest, tmp, 0)), tmp)
    case Binary(_, _, _) => CompileBinary(funcs, st, e, dest)
    case Ternary(_, _, _) => CompileTernary(funcs, st, e, dest)
    case Call(_, _) => CompileCall(funcs, st, e, dest)
    case Index(x, i) =>
      var (st1, obj) := Alloc(st);
      var st2 := CompileExpr(funcs, st1, x, obj);
      var (st3, idx) := Alloc(st2);
      var st4 := CompileExpr(funcs, st3, i, idx);
      Free(Free(Emit(st4, MakeABC(GETI, dest, obj, idx)), obj), idx)
    case Field(x, name) =>
      var (st1, obj) := Alloc(st);
      var st2 := CompileExpr(funcs, st1, x, obj);
      Free(EmitGetField(st2, name, dest, obj), obj)
    case ArrayLit(_) => CompileArray(funcs, st, e, dest)
    case MapLit(entries) =>
      CompileEntries(funcs, Emit(st, MakeABC(NEWMAP, dest, 0, 0)), entries, dest)
  }

  function CompileBinary(funcs: seq<FuncDecl>, st: CS, e: Expr, dest: Byte): CS
    requires e.Binary?
    decreases e, 0
  {
    if e.op == AndAnd || e.op == OrOr then
      var st1 := CompileExpr(funcs, st, e.left, dest);
      var st2 := CompileExpr(funcs, Emit(st1, MakeAsBx(if e.op == AndAnd then JF else JT, dest, 0)), e.right, dest);
      PatchSbx(st2, |st1.code|, |st2.code| - |st1.code| - 1)
    else
      var (st1, lr) := Alloc(st);
      var (st2, rr) := Alloc(st1);
      var st3 := CompileExpr(funcs, st2, e.left, lr);
      var st4 := CompileExpr(funcs, st3, e.right, rr);
      Free(Free(Emit(st4, MakeABC(BinOpcode(e.op), dest, lr, rr)), lr), rr)
  }

  /** A condition into a temporary, and the jump taken when it is false (still to be patched). */
  function CondJump(funcs: seq<FuncDecl>, st: CS, c: Expr): CS
    decreases c, 3
  {
    var (st1, cr) := Alloc(st);
    var st2 := CompileExpr(funcs, st1, c, cr);
    Free(Emit(st2, MakeAsBx(JF, cr, 0)), cr)
  }

  function CompileTernary(funcs: seq<FuncDecl>, st: CS, e: Expr, dest: Byte): CS
    requires e.Ternary?
    decreases e, 1
  {
    var st1 := TernaryFront(funcs, st, e, dest);
    var st2 := CompileExpr(funcs, st1, e.els, dest);
    PatchSbx(st2, |st1.code| - 1, |st2.code| - |st1.code|)
  }

  /** The condition, the first branch, and the jump over the second. */
  function TernaryFront(funcs: seq<FuncDecl>, st: CS, e: Expr, dest: Byte): CS
    requires e.Ternary?
    decreases e, 0
  {
    var st1 := CondJump(funcs, st, e.cond);
    IfJoin(st1, CompileExpr(funcs, st1, e.thn, dest))
  }

  /** The callee and its arguments go into fresh consecutive registers. */
  function CompileCall(funcs: seq<FuncDecl>, st: CS, e: Expr, dest: Byte): CS
    requires e.Call?
    decreases e, 0
  {
    var n := |e.args|;
    var base := st.next % 0x100;
    var st2 := CompileExpr(funcs, NoteRegs(Reserve(st, n + 1)), e.fun, base);
    var st3 := CompileList(funcs, st2, e.args, base + 1);
    FreeRun(Emit(st3, MakeABC(CALL, dest, base, n % 0x100)), base, n + 1)
  }

  function CompileArray(funcs: seq<FuncDecl>, st: CS, e: Expr, dest: Byte): CS
    requires e.ArrayLit?
    decreases e, 0
  {
    var n := |e.elts|;
    if n == 0 then Emit(st, MakeABC(NEWARR, dest, 0, 0)) else
    var (st1, base) := ArrayRegs(st, n);
    var st2 := CompileList(funcs, st1, e.elts, base);
    FreeRun(Emit(st2, MakeABC(NEWARR, dest, base, n % 0x100)), base, n)
  }

  function NoteKey(st: CS, ki: nat): CS { st.(keys := Max(st.keys, ki)) }

  /** GETK when the key's pool index fits its 8-bit field, else the key goes through a register. */
  function EmitGetField(st: CS, name: Text, dest: Byte, obj: Byte): CS {
    var (st0, ki) := Intern(st, CStr(name));
    var st1 := NoteKey(st0, ki);
    if ki <= 255 then Emit(st1, MakeABC(GETK, dest, obj, ki)) else
    var (st2, kr) := Alloc(st1);
    Free(Emit(Emit(st2, MakeABx(LOADK, kr, ki % 0x1_0000)), MakeABC(GETI, dest, obj, kr)), kr)
  }

  function EmitSetField(st: CS, name: Text, obj: Byte, val: Byte): CS {
    var (st1, ki) := Intern(st, CStr(name));
    EmitSetKey(st1, ki, obj, val)
  }

  function EmitSetKey(st: CS, ki: nat, obj: Byte, val: Byte): CS {
    var st1 := NoteKey(st, ki);
    if ki <= 255 then Emit(st1, MakeABC(SETK, obj, ki, val)) else
    var (st2, kr) := Alloc(st1);
    Free(Emit(Emit(st2, MakeABx(LOADK, kr, ki % 0x1_0000)), MakeABC(SETI, obj, kr, val)), kr)
  }

  /** The expressions, left to right, into consecutive registers. */
  function CompileList(funcs: seq<FuncDecl>, st: CS, es: seq<Expr>, base: nat): CS
    decreases es, 0
  {
    if es == [] then st
    else CompileList(funcs, CompileExpr(funcs, st, es[0], base % 0x100), es[1..], base + 1)
  }

  function CompileEntries(funcs: seq<FuncDecl>, st: CS, entries: seq<Entry>, dest: Byte): CS
    decreases entries, 0
  {
    if entries == [] then st
    else CompileEntries(funcs, CompileEntry(funcs, st, entries[0], dest), entries[1..], dest)
  }

  function CompileEntry(funcs: seq<FuncDecl>, st: CS, en: Entry, dest: Byte): CS
    decreases en, 2
  {
    if en.key.Lit? && en.key.lit.LStr? then
      var (st1, ki) := Intern(st, CStr(en.key.lit.s));
      var (st2, vr) := Alloc(st1);
      var st3 := CompileExpr(funcs, st2, en.val, vr);
      Free(EmitSetKey(st3, ki, dest, vr), vr)
    else
      var (st1, kr) := Alloc(st);
      var st2 := CompileExpr(funcs, st1, en.key, kr);
      var (st3, vr) := Alloc(st2);
      var st4 := CompileExpr(funcs, st3, en.val, vr);
      Free(Free(Emit(st4, MakeABC(SETI, dest, kr, vr)), kr), vr)
  }

  /** A block gives back its locals and registers, and drops the free list. */
  function CompileBlock(funcs: seq<FuncDecl>, st: CS, ss: seq<Stmt>): CS
    decreases ss, 1
  {
    CompileStmts(funcs, st, ss).(locals := st.locals, next := st.next, free := [])
  }

  function CompileStmts(funcs: seq<FuncDecl>, st: CS, ss: seq<Stmt>): CS
    decreases ss, 0
  {
    if ss == [] then st else CompileStmts(funcs, CompileStmt(funcs, st, ss[0]), ss[1..])
  }

  function CompileStmt(funcs: seq<FuncDecl>, st: CS, s: Stmt): CS
    decreases s, 2
  {
    match s
    case Block(ss) => CompileBlock(funcs, st, ss)
    case Let(name, e) =>
      var (st1, r) := Alloc(st);
      var st2 := CompileExpr(funcs, st1, e, r);
      st2.(locals := st2.locals[name := r])
    case Assign(target, e) => CompileAssign(funcs, st, target, e)
    case ExprStmt(e) =>
      var (st1, r) := Alloc(st);
      Free(CompileExpr(funcs, st1, e, r), r)
    case Return(None) => Emit(st, MakeABC(RETN, 0, 0, 0))
    case Return(Some(e)) =>
      var (st1, r) := Alloc(st);
      Free(Emit(CompileExpr(funcs, st1, e, r), MakeABC(RET, r, 0, 0)), r)
    case If(_, _, _) => CompileIf(funcs, st, s)
    case While(_, _) => CompileWhile(funcs, st, s)
    case Break => EmitBreak(st)
    case Continue => EmitContinue(st)
    case Switch(_, _, _) => CompileSwitch(funcs, st, s)
    case Try(_, _, _) => CompileTry(funcs, st, s)
    case Throw(e) =>
      var (st1, r) := Alloc(st);
      Free(Emit(CompileExpr(funcs, st1, e, r), MakeABC(THROW, r, 0, 0)), r)
  }

  function CompileIf(funcs: seq<FuncDecl>, st: CS, s: Stmt): CS
    requires s.If?
    decreases s, 1
  {
    var st1 := CondJump(funcs, st, s.cond);
    var st2 := CompileBlock(funcs, st1, s.thn);
    if s.els == None then PatchSbx(st2, |st1.code| - 1, |st2.code| - |st1.code|) else
    var st3 := IfJoin(st1, st2);
    var st4 := if s.els.value.Block? || s.els.value.If? then CompileStmt(funcs, st3, s.els.value) else st3;
    PatchSbx(st4, |st2.code|, |st4.code| - |st2.code| - 1)
  }

  /** After the first branch of an if or a ternary: jump over the second, which is where the condition's jump lands. */
  function IfJoin(st1: CS, st2: CS): CS {
    PatchSbx(Emit(st2, MakeAsBx(JMP, 0, 0)), |st1.code| - 1, |st2.code| + 1 - |st1.code|)
  }

  function CompileWhile(funcs: seq<FuncDecl>, st: CS, s: Stmt): CS
    requires s.While?
    decreases s, 1
  {
    var st1 := CondJump(funcs, st.(loops := st.loops + [Loop([], |st.code|)]), s.cond);
    var st2 := EmitJump(CompileBlock(funcs, st1, s.body), JMP, 0, |st.code|);
    PopLoop(PatchSbx(st2, |st1.code| - 1, |st2.code| - |st1.code|), |st2.code|)
  }

  function CompileSwitch(funcs: seq<FuncDecl>, st: CS, s: Stmt): CS
    requires s.Switch?
    decreases s, 1
  {
    var (st1, tr) := Alloc(st);
    var st2 := CompileExpr(funcs, st1, s.tag, tr);
    var (st3, ends) := CompileCases(funcs, st2, s.cases, tr);
    var st4 := if s.default.Default? then CompileBlock(funcs, st3, s.default.body) else st3;
    Free(PatchAll(st4, ends, |st4.code|), tr)
  }

  function CompileTry(funcs: seq<FuncDecl>, st: CS, s: Stmt): CS
    requires s.Try?
    decreases s, 1
  {
    var (st1, er) := Alloc(st);
    var st2 := TryBody(funcs, st1, s, er);
    var st3 := CompileBlock(funcs, st2.(locals := st2.locals[s.errName := er]), s.handler).(locals := st2.locals);
    Free(PatchSbx(st3, |st2.code| - 1, |st3.code| - |st2.code|), er)
  }

  /** The protected block; the handler starts right after it. */
  function TryBody(funcs: seq<FuncDecl>, st1: CS, s: Stmt, er: Byte): CS
    requires s.Try?
    decreases s, 0
  {
    TryJoin(st1, CompileBlock(funcs, Emit(st1, MakeAsBx(TRY, er, 0)), s.body))
  }

  /** After the protected block: close it, jump over the handler, and let TRY know where the handler is. */
  function TryJoin(st1: CS, st2: CS): CS {
    PatchSbx(TryTail(st2), |st1.code|, |st2.code| + 1 - |st1.code|)
  }

  function TryTail(st2: CS): CS { Emit(Emit(st2, MakeABC(ENDTRY, 0, 0, 0)), MakeAsBx(JMP, 0, 0)) }

  function EmitBreak(st: CS): CS {
    if st.loops == [] then st.(errs := st.errs + 1) else
    var l := st.loops[|st.loops| - 1];
    Emit(st, MakeAsBx(JMP, 0, 0)).(loops := st.loops[|st.loops| - 1 := l.(breaks := l.breaks + [|st.code|])])
  }

  function EmitContinue(st: CS): CS {
    if st.loops == [] then st.(errs := st.errs + 1) else
    EmitJump(st, JMP, 0, st.loops[|st.loops| - 1].cont)
  }

  function PopLoop(st: CS, end: nat): CS {
    if st.loops == [] then st else
    PatchAll(st.(loops := st.loops[..|st.loops| - 1]), st.loops[|st.loops| - 1].breaks, end)
  }

  function CompileAssign(funcs: seq<FuncDecl>, st: CS, target: Expr, e: Expr): CS {
    match target
    case Ident(name) =>
      if name in st.locals then CompileExpr(funcs, st, e, st.locals[name]) else
      var (st1, r) := Alloc(st);
      var st2 := CompileExpr(funcs, st1, e, r);
      var (st3, ki) := Intern(st2, CStr(name));
      Free(Emit(st3, MakeABx(STOREG, r, ki % 0x1_0000)), r)
    case Index(x, i) =>
      var (st1, obj) := Alloc(st);
      var st2 := CompileExpr(funcs, st1, x, obj);
      var (st3, idx) := Alloc(st2);
      var st4 := CompileExpr(funcs, st3, i, idx);
      var (st5, val) := Alloc(st4);
      var st6 := CompileExpr(funcs, st5, e, val);
      Free(Free(Free(Emit(st6, MakeABC(SETI, obj, idx, val)), obj), idx), val)
    case Field(x, name) =>
      var (st1, obj) := Alloc(st);
      var st2 := CompileExpr(funcs, st1, x, obj);
      var (st3, val) := Alloc(st2);
      var st4 := CompileExpr(funcs, st3, e, val);
      Free(Free(EmitSetField(st4, name, obj, val), obj), val)
    case _ => st.(errs := st.errs + 1)
  }

  /** Cases of a switch, with the positions of the jumps that leave it. */
  function CompileCases(funcs: seq<FuncDecl>, st: CS, cases: seq<Case>, tag: Byte): (CS, seq<int>)
    decreases cases, 0
  {
    if cases == [] then (st, []) else
    var (st1, end) := CompileCase(funcs, st, cases[0], tag);
    var (st2, ends) := CompileCases(funcs, st1, cases[1..], tag);
    (st2, [end] + ends)
  }

  function CompileCase(funcs: seq<FuncDecl>, st: CS, c: Case, tag: Byte): (CS, int)
    decreases c, 0
  {
    var st1 := CaseFront(funcs, st, c.values, tag);
    var st2 := CompileBlock(funcs, st1, c.body);
    (IfJoin(st1, st2), |st2.code|)
  }

  /** Does the tag equal one of the values?  Jump if not. */
  function CaseFront(funcs: seq<FuncDecl>, st: CS, values: seq<Expr>, tag: Byte): CS {
    var (st1, m) := Alloc(st);
    var st2 := CompileMatch(funcs, Emit(st1, MakeABC(LOADB, m, 0, 0)), values, tag, m);
    Free(Emit(st2, MakeAsBx(JF, m, 0)), m)
  }

  function CompileMatch(funcs: seq<FuncDecl>, st: CS, values: seq<Expr>, tag: Byte, m: Byte): CS
    decreases values, 0
  {
    if values == [] then st else CompileMatch(funcs, CompileTest(funcs, st, values[0], tag, m), values[1..], tag, m)
  }

  /** m := m || (tag == v), with v always evaluated. */
  function CompileTest(funcs: seq<FuncDecl>, st: CS, v: Expr, tag: Byte, m: Byte): CS {
    var (st1, vr) := Alloc(st);
    var st2 := CompileExpr(funcs, st1, v, vr);
    var (st3, eq) := Alloc(st2);
    Free(Free(EmitTest(st3, tag, m, vr, eq), vr), eq)
  }

  function EmitTest(st: CS, tag: Byte, m: Byte, vr: Byte, eq: Byte): CS {
    var st1 := Emit(st, MakeABC(EQ, eq, tag, vr));
    PatchSbx(Emit(Emit(st1, MakeAsBx(JT, m, 0)), MakeABC(MOVE, m, eq, 0)), |st1.code|, 1)
  }

  /** newFuncCompiler: parameters occupy the first registers. */
  function BindParams(params: seq<Text>): map<Text, Byte>
    decreases |params|
  {
    if params == [] then map[] else
    var n := |params| - 1;
    BindParams(params[..n])[params[n] := n % 0x100]
  }

  function InitCS(pool: seq<Constant>, params: seq<Text>): CS {
    CS([], pool, BindParams(params), |params|, [], |params|, |params|, 0, [], 0)
  }

  /** The body followed by an implicit return. */
  function CompileBody(funcs: seq<FuncDecl>, pool: seq<Constant>, f: FuncDecl): CS {
    Emit(CompileBlock(funcs, InitCS(pool, f.params), f.body), MakeABC(RETN, 0, 0, 0))
  }

  function FinishRegs(st: CS, numParams: Byte): Byte {
    var n := Max(st.maxRegs, st.next) + 16;
    var n1 := if n < numParams + 8 then numParams + 16 else n;
    if n1 > 255 then 255 else n1
  }

  datatype Unit = Unit(pool: seq<Constant>, protos: seq<Proto>, errs: nat, peak: nat, keys: nat)

  /** The functions in order, sharing one pool. */
  function CompileFuncs(funcs: seq<FuncDecl>, n: nat): Unit
    requires n <= |funcs|
    decreases n
  {
    if n == 0 then Unit([], [], 0, 0, 0) else
    var u := CompileFuncs(funcs, n - 1);
    var f := funcs[n - 1];
    var st := CompileBody(funcs, u.pool, f);
    var np := |f.params| % 0x100;
    Unit(st.pool, u.protos + [Proto(f.name, FinishRegs(st, np), np, 0, st.code, [])], u.errs + st.errs,
      Max(u.peak, st.peak), Max(u.keys, st.keys))
  }
}
