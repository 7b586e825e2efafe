/** funcCompiler as the source writes it: fields updated step by step, jumps patched in place. */
module CompilerImpl {
  import opened Bytecode
  import opened Ast
  import opened CompilerShape
  import opened StmtShape
  import C = Compiler

  class FuncCompiler {
    const funcs: seq<FuncDecl>
    var code: seq<Instr>
    var consts: seq<Constant>
    var locals: map<Text, Byte>
    var nextReg: nat
    var maxRegs: nat
    var freeRegs: seq<int>
    var loops: seq<C.Loop>
    var errors: seq<string>
    ghost var peak: nat
    ghost var keys: nat

    ghost function State(): C.CS
      reads this
    {
      C.CS(code, consts, locals, nextReg, freeRegs, maxRegs, peak, keys, loops, |errors|)
    }

    constructor (funcs: seq<FuncDecl>, consts: seq<Constant>, params: seq<Text>)
      ensures this.funcs == funcs && State() == C.InitCS(consts, params)
    {
      this.funcs, this.code, this.consts := funcs, [], consts;
      this.freeRegs, this.loops, this.errors := [], [], [];
      var names: map<Text, Byte> := map[];
      for i := 0 to |params|
        invariant names == C.BindParams(params[..i])
      {
        assert params[..i + 1][..i] == params[..i];
        names := names[params[i] := i % 0x100];
      }
      assert params[..|params|] == params;
      this.locals, this.nextReg, this.maxRegs, this.peak, this.keys := names, |params|, |params|, |params|, 0;
    }

    method Emit(ins: Instr) returns (ip: nat)
      modifies this
      ensures State() == C.Emit(old(State()), ins) && ip == |old(code)|
    {
      ip := |code|;
      code := code + [ins];
    }

    method PatchSbx(ip: nat, off: int)
      requires ip < |code|
      modifies this`code
      ensures State() == C.PatchSbx(old(State()), ip, off)
    {
      var ins := code[ip];
      code := code[ip := MakeAsBx(ins.op, ins.a, ToI16(off))];
    }

    method Alloc() returns (r: Byte)
      modifies this
      ensures (State(), r) == C.Alloc(old(State()))
    {
      if |freeRegs| > 0 {
        r := freeRegs[|freeRegs| - 1] % 0x100;
        freeRegs := freeRegs[..|freeRegs| - 1];
        return;
      }
      if nextReg >= 254 {
        errors := errors + ["too many registers; split function or use push"];
        return 0;
      }
      r := nextReg;
      nextReg := nextReg + 1;
      peak := C.Max(peak, nextReg);
      NoteRegs();
    }

    method NoteRegs()
      modifies this`maxRegs
      ensures State() == C.NoteRegs(old(State()))
    {
      if nextReg > maxRegs {
        maxRegs := nextReg;
      }
    }

    method Free(r: Byte)
      modifies this`freeRegs
      ensures State() == C.Free(old(State()), r)
    {
      if r !in locals.Values {
        freeRegs := freeRegs + [r];
      }
    }

    /** AddStrConst, AddIntConst and AddFloatConst: reuse an equal entry, else append. */
    method AddConst(k: Constant) returns (ix: nat)
      modifies this`consts
      ensures (State(), ix) == C.Intern(old(State()), k)
    {
      for i := 0 to |consts|
        invariant forall j :: 0 <= j < i ==> consts[j] != k
      {
        if consts[i] == k {
          return i;
        }
      }
      ix := |consts|;
      consts := consts + [k];
    }

    method LoadConst(k: Constant, dest: Byte)
      modifies this
      ensures State() == C.LoadConst(old(State()), k, dest)
    {
      var ki := AddConst(k);
      var _ := Emit(MakeABx(LOADK, dest, ki % 0x1_0000));
    }

    method CompileLiteral(lit: Literal, dest: Byte)
      modifies this
      ensures State() == C.CompileLiteral(old(State()), lit, dest)
    {
      match lit
      case LNull => var _ := Emit(MakeABC(LOADN, dest, 0, 0));
      case LBool(b) => var _ := Emit(MakeABC(LOADB, dest, if b then 1 else 0, 0));
      case LInt(i) =>
        if -32768 <= i <= 32767 {
          var _ := Emit(MakeAsBx(LOADI, dest, i));
        } else {
          LoadConst(CInt(i), dest);
        }
      case LFloat(bits) => LoadConst(CFloat(bits), dest);
      case LStr(s) => LoadConst(CStr(s), dest);
    }

    method CompileIdent(name: Text, dest: Byte)
      modifies this
      ensures State() == C.CompileIdent(funcs, old(State()), name, dest)
    {
      if name in locals {
        if locals[name] != dest {
          var _ := Emit(MakeABC(MOVE, dest, locals[name], 0));
        }
        return;
      }
      var ix := FuncIndex(funcs, name);
      if ix < |funcs| {
        var _ := Emit(MakeABx(MAKEFN, dest, ix % 0x1_0000));
        return;
      }
      var ki := AddConst(CStr(name));
      var _ := Emit(MakeABx(LOADG, dest, ki % 0x1_0000));
    }

    method CompileExpr(e: Expr, dest: Byte)
      modifies this
      ensures State() == C.CompileExpr(funcs, old(State()), e, dest)
      decreases e, 2
    {
      hide C.CompileBinary, C.CompileTernary, C.CompileCall, C.CompileArray, C.CompileEntries, C.CompileLiteral,
        C.CompileIdent;
      hide C.EmitGetField, C.Alloc, C.Free, MakeABx, MakeAsBx;
      match e
      case Lit(lit) => CompileLiteral(lit, dest);
      case Ident(name) => CompileIdent(name, dest);
      case Unary(op, x) =>
        var tmp := Alloc();
        CompileExpr(x, tmp);
        var _ := Emit(MakeABC(C.UnOpcode(op), dest, tmp, 0));
        Free(tmp);
      case Binary(_, _, _) => CompileBinary(e, dest);
      case Ternary(_, _, _) => CompileTernary(e, dest);
      case Call(_, _) => CompileCall(e, dest);
      case Index(x, i) =>
        var obj := Alloc();
        CompileExpr(x, obj);
        var idx := Alloc();
        CompileExpr(i, idx);
        var _ := Emit(MakeABC(GETI, dest, obj, idx));
        Free(obj);
        Free(idx);
      case Field(x, name) =>
        var obj := Alloc();
        CompileExpr(x, obj);
        GetField(name, dest, obj);
        Free(obj);
      case ArrayLit(_) => CompileArray(e, dest);
      case MapLit(entries) =>
        var _ := Emit(MakeABC(NEWMAP, dest, 0, 0));
        CompileEntries(entries, dest);
    }

    method GetField(name: Text, dest: Byte, obj: Byte)
      modifies this
      ensures State() == C.EmitGetField(old(State()), name, dest, obj)
    {
      hide C.Alloc, C.Free, C.Intern, MakeABx;
      var ki := AddConst(CStr(name));
      keys := C.Max(keys, ki);
      if ki <= 255 {
        var _ := Emit(MakeABC(GETK, dest, obj, ki));
      } else {
        var kreg := Alloc();
        var _ := Emit(MakeABx(LOADK, kreg, ki % 0x1_0000));
        var _ := Emit(MakeABC(GETI, dest, obj, kreg));
        Free(kreg);
      }
    }

    method SetKey(ki: nat, obj: Byte, val: Byte)
      modifies this
      ensures State() == C.EmitSetKey(old(State()), ki, obj, val)
    {
      hide C.Alloc, C.Free, MakeABx;
      keys := C.Max(keys, ki);
      if ki <= 255 {
        var _ := Emit(MakeABC(SETK, obj, ki, val));
      } else {
        var kreg := Alloc();
        var _ := Emit(MakeABx(LOADK, kreg, ki % 0x1_0000));
        var _ := Emit(MakeABC(SETI, obj, kreg, val));
        Free(kreg);
      }
    }

    method CompileBinary(e: Expr, dest: Byte)
      requires e.Binary?
      modifies this
      ensures State() == C.CompileBinary(funcs, old(State()), e, dest)
      decreases e, 0
    {
      hide C.CompileExpr, C.Alloc, C.Free, MakeAsBx;
      if e.op == AndAnd || e.op == OrOr {
        CompileExpr(e.left, dest);
        var j := Emit(MakeAsBx(if e.op == AndAnd then JF else JT, dest, 0));
        ghost var s := State();
        CompileExpr(e.right, dest);
        ShapeExpr(funcs, s, e.right, dest);
        ShapeLen(s, State());
        hide Shape, C.PatchSbx;
        PatchSbx(j, |code| - j - 1);
        return;
      }
      var l := Alloc();
      var r := Alloc();
      CompileExpr(e.left, l);
      CompileExpr(e.right, r);
      var _ := Emit(MakeABC(C.BinOpcode(e.op), dest, l, r));
      Free(l);
      Free(r);
    }

    method CompileTernary(e: Expr, dest: Byte)
      requires e.Ternary?
      modifies this
      ensures State() == C.CompileTernary(funcs, old(State()), e, dest)
      decreases e, 1
    {
      hide C.CompileExpr, C.TernaryFront, C.PatchSbx, Shape;
      var jmp := TernaryFront(e, dest);
      ghost var s1 := State();
      CompileExpr(e.els, dest);
      ShapeExpr(funcs, s1, e.els, dest);
      ShapeLen(s1, State());
      PatchSbx(jmp, |code| - jmp - 1);
    }

    /** The condition, the first branch, and the jump over the second. */
    method TernaryFront(e: Expr, dest: Byte) returns (jmp: nat)
      requires e.Ternary?
      modifies this
      ensures State() == C.TernaryFront(funcs, old(State()), e, dest) && jmp == |code| - 1
      decreases e, 0
    {
      hide C.CompileExpr, C.CondJump, C.IfJoin, Shape;
      var jf := CondJump(e.cond);
      ghost var s1 := State();
      CompileExpr(e.thn, dest);
      ShapeExpr(funcs, s1, e.thn, dest);
      ShapeLen(s1, State());
      jmp := Join(s1, jf);
    }

    /** After a first branch: the jump over the second, which is where the condition's jump lands. */
    method Join(ghost s1: C.CS, jf: nat) returns (jmp: nat)
      requires jf + 1 == |s1.code| <= |code|
      modifies this
      ensures State() == C.IfJoin(s1, old(State())) && jmp == |old(code)| && |code| == |old(code)| + 1
      ensures State() == old(State()).(code := code)
    {
      hide C.PatchSbx, MakeAsBx, ToI16;
      ghost var s2 := State();
      JoinIs(s1, s2, jf);
      hide C.IfJoin;
      jmp := Emit(MakeAsBx(JMP, 0, 0));
      PatchOnly(State(), jf, |code| - jf - 1);
      PatchSbx(jf, |code| - jf - 1);
    }

    /** A condition into a temporary, and the jump taken when it is false. */
    method CondJump(c: Expr) returns (jf: nat)
      modifies this
      ensures State() == C.CondJump(funcs, old(State()), c) && jf == |code| - 1
      decreases c, 3
    {
      hide C.CompileExpr, C.Alloc, MakeAsBx;
      var cond := Alloc();
      CompileExpr(c, cond);
      jf := Emit(MakeAsBx(JF, cond, 0));
      Free(cond);
    }

    method CompileCall(e: Expr, dest: Byte)
      requires e.Call?
      modifies this
      ensures State() == C.CompileCall(funcs, old(State()), e, dest)
      decreases e, 0
    {
      hide C.CompileExpr, C.Free, MakeABC;
      var n := |e.args|;
      var start := nextReg;
      ghost var s0 := State();
      while nextReg < start + n + 1
        invariant start <= nextReg <= start + n + 1
        invariant State() == s0.(next := nextReg)
      {
        nextReg := nextReg + 1;
      }
      peak := C.Max(peak, nextReg);
      NoteRegs();
      assert State() == C.NoteRegs(C.Reserve(s0, n + 1));
      hide C.NoteRegs, C.Reserve;
      var base := start % 0x100;
      CompileExpr(e.fun, base);
      CompileList(e.args, base + 1);
      hide C.CompileList;
      var _ := Emit(MakeABC(CALL, dest, base, n % 0x100));
      FreeRun(base, n + 1);
    }

    /** The expressions, left to right, into consecutive registers. */
    method CompileList(es: seq<Expr>, base: nat)
      modifies this
      ensures State() == C.CompileList(funcs, old(State()), es, base)
      decreases es, 0
    {
      hide C.CompileExpr;
      for i := 0 to |es|
        invariant C.CompileList(funcs, old(State()), es, base) == C.CompileList(funcs, State(), es[i..], base + i)
      {
        assert es[i..][0] == es[i] && es[i..][1..] == es[i + 1..];
        CompileExpr(es[i], (base + i) % 0x100);
      }
    }

    method FreeRun(base: Byte, n: nat)
      modifies this`freeRegs
      ensures State() == C.FreeRun(old(State()), base, n)
    {
      hide C.Free;
      for i := 0 to n
        invariant State() == C.FreeRun(old(State()), base, i)
      {
        Free((base + i) % 0x100);
      }
    }

    /** The registers of an array literal: a run from the allocator if it yields one, else fresh ones. */
    method ArrayRegs(n: nat) returns (base: Byte)
      requires n > 0
      modifies this
      ensures (State(), base) == C.ArrayRegs(old(State()), n)
    {
      hide C.Alloc, C.FreeRun, C.Free;
      ghost var s0 := State();
      base := Alloc();
      var i := 1;
      while i < n
        invariant 1 <= i <= n
        invariant C.AllocRun(s0, n) == (C.ExtendRun(State(), base, i, n).0, base, C.ExtendRun(State(), base, i, n).1)
      {
        var r := Alloc();
        if r != (base + i) % 0x100 {
          FreeRun(base, i);
          assert State() == C.FreeRun(C.AllocRun(s0, n).0, base, i);
          hide C.AllocRun, C.ExtendRun;
          var start := nextReg;
          ghost var s1 := State();
          while nextReg < start + n
            invariant start <= nextReg <= start + n
            invariant State() == s1.(next := nextReg)
          {
            nextReg := nextReg + 1;
          }
          peak := C.Max(peak, nextReg);
          FreeRunCode(C.AllocRun(s0, n).0, base, i);
          return start % 0x100;
        }
        i := i + 1;
      }
    }

    method CompileArray(e: Expr, dest: Byte)
      requires e.ArrayLit?
      modifies this
      ensures State() == C.CompileArray(funcs, old(State()), e, dest)
      decreases e, 0
    {
      hide C.ArrayRegs, C.FreeRun, C.CompileList, MakeABC;
      var n := |e.elts|;
      if n == 0 {
        var _ := Emit(MakeABC(NEWARR, dest, 0, 0));
        return;
      }
      var base := ArrayRegs(n);
      CompileList(e.elts, base);
      var _ := Emit(MakeABC(NEWARR, dest, base, n % 0x100));
      FreeRun(base, n);
    }

    method CompileEntries(entries: seq<Entry>, dest: Byte)
      modifies this
      ensures State() == C.CompileEntries(funcs, old(State()), entries, dest)
      decreases entries, 0
    {
      hide C.CompileEntry;
      for i := 0 to |entries|
        invariant C.CompileEntries(funcs, old(State()), entries, dest) ==
          C.CompileEntries(funcs, State(), entries[i..], dest)
      {
        assert entries[i..][0] == entries[i] && entries[i..][1..] == entries[i + 1..];
        CompileEntry(entries[i], dest);
      }
    }

    method CompileEntry(en: Entry, dest: Byte)
      modifies this
      ensures State() == C.CompileEntry(funcs, old(State()), en, dest)
      decreases en, 2
    {
      hide C.CompileExpr, C.Alloc, C.Free, C.Intern, C.EmitSetKey, MakeABC;
      if en.key.Lit? && en.key.lit.LStr? {
        var ki := AddConst(CStr(en.key.lit.s));
        var vreg := Alloc();
        CompileExpr(en.val, vreg);
        SetKey(ki, dest, vreg);
        Free(vreg);
      } else {
        var kreg := Alloc();
        CompileExpr(en.key, kreg);
        var vreg := Alloc();
        CompileExpr(en.val, vreg);
        var _ := Emit(MakeABC(SETI, dest, kreg, vreg));
        Free(kreg);
        Free(vreg);
      }
    }

    /** A block gives back its locals and registers, and drops the free list. */
    method CompileBlock(ss: seq<Stmt>)
      modifies this
      ensures State() == C.CompileBlock(funcs, old(State()), ss)
      decreases ss, 1
    {
      hide C.CompileStmt;
      var saved, savedNext := locals, nextReg;
      for i := 0 to |ss|
        invariant C.CompileStmts(funcs, old(State()), ss) == C.CompileStmts(funcs, State(), ss[i..])
      {
        assert ss[i..][0] == ss[i] && ss[i..][1..] == ss[i + 1..];
        CompileStmt(ss[i]);
      }
      assert ss[|ss|..] == [];
      assert State() == C.CompileStmts(funcs, old(State()), ss);
      hide C.CompileStmts;
      locals, nextReg, freeRegs := saved, savedNext, [];
    }

    method CompileStmt(s: Stmt)
      modifies this
      ensures State() == C.CompileStmt(funcs, old(State()), s)
      decreases s, 2
    {
      hide C.CompileExpr, C.Alloc, C.Free, C.CompileBlock, C.CompileAssign, C.CompileIf, C.CompileWhile,
        C.CompileSwitch, C.CompileTry;
      hide C.EmitBreak, C.EmitContinue, MakeABC;
      match s
      case Block(ss) => CompileBlock(ss);
      case Let(name, e) =>
        var r := Alloc();
        CompileExpr(e, r);
        locals := locals[name := r];
      case Assign(target, e) => CompileAssign(target, e);
      case ExprStmt(e) =>
        var r := Alloc();
        CompileExpr(e, r);
        Free(r);
      case Return(None) => var _ := Emit(MakeABC(RETN, 0, 0, 0));
      case Return(Some(e)) =>
        var r := Alloc();
        CompileExpr(e, r);
        var _ := Emit(MakeABC(RET, r, 0, 0));
        Free(r);
      case If(_, _, _) => CompileIf(s);
      case While(_, _) => CompileWhile(s);
      case Break => CompileBreak();
      case Continue => CompileContinue();
      case Switch(_, _, _) => CompileSwitch(s);
      case Try(_, _, _) => CompileTry(s);
      case Throw(e) =>
        var r := Alloc();
        CompileExpr(e, r);
        var _ := Emit(MakeABC(THROW, r, 0, 0));
        Free(r);
    }

    method CompileBreak()
      modifies this
      ensures State() == C.EmitBreak(old(State()))
    {
      hide MakeAsBx, ToI16;
      if loops == [] {
        errors := errors + ["break outside loop"];
        return;
      }
      var ip := Emit(MakeAsBx(JMP, 0, 0));
      var lf := loops[|loops| - 1];
      loops := loops[|loops| - 1 := lf.(breaks := lf.breaks + [ip])];
    }

    method CompileContinue()
      modifies this
      ensures State() == C.EmitContinue(old(State()))
    {
      hide MakeAsBx, ToI16;
      if loops == [] {
        errors := errors + ["continue outside loop"];
        return;
      }
      var back := loops[|loops| - 1].cont - (|code| + 1);
      var _ := Emit(MakeAsBx(JMP, 0, ToI16(back)));
    }

    method CompileAssign(target: Expr, e: Expr)
      modifies this
      ensures State() == C.CompileAssign(funcs, old(State()), target, e)
    {
      hide C.CompileExpr, C.Alloc, C.Free, C.Intern, C.EmitSetKey, MakeABC, MakeABx;
      match target
      case Ident(name) =>
        if name in locals {
          CompileExpr(e, locals[name]);
          return;
        }
        var r := Alloc();
        CompileExpr(e, r);
        var ki := AddConst(CStr(name));
        var _ := Emit(MakeABx(STOREG, r, ki % 0x1_0000));
        Free(r);
      case Index(_, _) => AssignIndex(target, e);
      case Field(_, _) => AssignField(target, e);
      case _ => errors := errors + ["invalid assignment target"];
    }

    method AssignIndex(target: Expr, e: Expr)
      requires target.Index?
      modifies this
      ensures State() == C.CompileAssign(funcs, old(State()), target, e)
    {
      hide C.CompileExpr, C.Alloc, C.Free, MakeABC;
      var obj := Alloc();
      CompileExpr(target.obj, obj);
      var idx := Alloc();
      CompileExpr(target.idx, idx);
      var val := Alloc();
      CompileExpr(e, val);
      var _ := Emit(MakeABC(SETI, obj, idx, val));
      Free(obj);
      Free(idx);
      Free(val);
    }

    method AssignField(target: Expr, e: Expr)
      requires target.Field?
      modifies this
      ensures State() == C.CompileAssign(funcs, old(State()), target, e)
    {
      hide C.CompileExpr, C.Alloc, C.Free, C.Intern, C.EmitSetKey, MakeABC;
      var obj := Alloc();
      CompileExpr(target.obj, obj);
      var val := Alloc();
      CompileExpr(e, val);
      var ki := AddConst(CStr(target.field));
      SetKey(ki, obj, val);
      Free(obj);
      Free(val);
    }

    method CompileIf(s: Stmt)
      requires s.If?
      modifies this
      ensures State() == C.CompileIf(funcs, old(State()), s)
      decreases s, 1
    {
      hide C.CondJump, C.CompileBlock, C.CompileStmt, C.PatchSbx, C.IfJoin, MakeAsBx, ToI16, SShape;
      ghost var s0 := State();
      var jf := CondJump(s.cond);
      ghost var s1 := State();
      CompileBlock(s.thn);
      SShapeCondJump(funcs, s0, s.cond);
      SShapeBlock(funcs, s1, s.thn);
      SLen(s1, State());
      if s.els == None {
        PatchSbx(jf, |code| - jf - 1);
        return;
      }
      var jmp := Join(s1, jf);
      ghost var s3 := State();
      SShapeRefl(s3);
      match s.els.value {
        case Block(_) =>
          CompileStmt(s.els.value);
          SShapeStmt(funcs, s3, s.els.value);
        case If(_, _, _) =>
          CompileStmt(s.els.value);
          SShapeStmt(funcs, s3, s.els.value);
        case _ =>
      }
      SLen(s3, State());
      PatchSbx(jmp, |code| - jmp - 1);
    }

    method CompileWhile(s: Stmt)
      requires s.While?
      modifies this
      ensures State() == C.CompileWhile(funcs, old(State()), s)
      decreases s, 1
    {
      hide C.CondJump, C.CompileBlock, C.PatchSbx, C.PopLoop, MakeAsBx, ToI16;
      var loopStart := |code|;
      loops := loops + [C.Loop([], loopStart)];
      ghost var s0 := State();
      var jf := CondJump(s.cond);
      ghost var s1 := State();
      CompileBlock(s.body);
      SShapeCondJump(funcs, s0, s.cond);
      SShapeBlock(funcs, s1, s.body);
      SLen(s1, State());
      LoopBreaks(s0, s1, State());
      hide SShape;
      var _ := Emit(MakeAsBx(JMP, 0, ToI16(loopStart - (|code| + 1))));
      PatchLen(State(), jf, |code| - jf - 1);
      var end := |code|;
      PatchSbx(jf, end - jf - 1);
      PopLoop(end);
    }

    method PopLoop(end: nat)
      requires loops != [] ==> Inside(loops[|loops| - 1].breaks, |code|)
      modifies this
      ensures State() == C.PopLoop(old(State()), end)
    {
      if loops == [] {
        return;
      }
      var lf := loops[|loops| - 1];
      loops := loops[..|loops| - 1];
      PatchJumps(lf.breaks, end);
    }

    /** Make every jump in the list land on `end`. */
    method PatchJumps(ips: seq<int>, end: nat)
      requires Inside(ips, |code|)
      modifies this`code
      ensures State() == C.PatchAll(old(State()), ips, end)
    {
      hide C.PatchSbx;
      for i := 0 to |ips|
        invariant |code| == |old(code)|
        invariant C.PatchAll(old(State()), ips, end) == C.PatchAll(State(), ips[i..], end)
      {
        assert ips[i..][0] == ips[i] && ips[i..][1..] == ips[i + 1..];
        PatchLen(State(), ips[i], end - ips[i] - 1);
        PatchSbx(ips[i], end - ips[i] - 1);
      }
    }

    method CompileSwitch(s: Stmt)
      requires s.Switch?
      modifies this
      ensures State() == C.CompileSwitch(funcs, old(State()), s)
      decreases s, 1
    {
      hide C.CompileExpr, C.CompileCase, C.CompileBlock, C.Alloc, C.Free, C.PatchAll, SShape;
      var tag := Alloc();
      CompileExpr(s.tag, tag);
      ghost var s2 := State();
      var endJmps: seq<int> := [];
      for i := 0 to |s.cases|
        invariant C.CompileCases(funcs, s2, s.cases, tag).0 == C.CompileCases(funcs, State(), s.cases[i..], tag).0
        invariant C.CompileCases(funcs, s2, s.cases, tag).1 == endJmps
          + C.CompileCases(funcs, State(), s.cases[i..], tag).1
      {
        assert s.cases[i..][0] == s.cases[i] && s.cases[i..][1..] == s.cases[i + 1..];
        var end := CompileCase(s.cases[i], tag);
        endJmps := endJmps + [end];
      }
      assert s.cases[|s.cases|..] == [];
      assert C.CompileCases(funcs, State(), [], tag).0 == State() && C.CompileCases(funcs, State(), [], tag).1 == [];
      assert endJmps + [] == endJmps;
      ghost var s3 := State();
      SShapeCases(funcs, s2, s.cases, tag);
      SShapeRefl(s3);
      if s.default.Default? {
        CompileBlock(s.default.body);
        SShapeBlock(funcs, s3, s.default.body);
      }
      SLen(s3, State());
      EndsInside(endJmps, |s3.code|, |code|);
      PatchJumps(endJmps, |code|);
      Free(tag);
    }

    /** One case: jump past it unless a value equals the tag; after it, a jump out of the switch. */
    method CompileCase(c: Case, tag: Byte) returns (end: nat)
      modifies this
      ensures (State(), end as int) == C.CompileCase(funcs, old(State()), c, tag)
      decreases c, 0
    {
      hide C.CompileTest, C.CompileBlock, C.Alloc, C.Free, C.IfJoin, SShape, MakeAsBx, ToI16;
      ghost var s0 := State();
      var m := Alloc();
      var _ := Emit(MakeABC(LOADB, m, 0, 0));
      ghost var s1 := State();
      for i := 0 to |c.values|
        invariant C.CompileMatch(funcs, s1, c.values, tag, m) == C.CompileMatch(funcs, State(), c.values[i..], tag, m)
      {
        assert c.values[i..][0] == c.values[i] && c.values[i..][1..] == c.values[i + 1..];
        CompileTest(c.values[i], tag, m);
      }
      assert c.values[|c.values|..] == [];
      assert C.CompileMatch(funcs, s1, c.values, tag, m) == State();
      hide C.CompileMatch;
      var jf := Emit(MakeAsBx(JF, m, 0));
      FreeCode(State(), m);
      Free(m);
      ghost var s2 := State();
      assert s2 == C.CaseFront(funcs, s0, c.values, tag) && jf == |s2.code| - 1;
      hide C.CaseFront;
      CompileBlock(c.body);
      SShapeBlock(funcs, s2, c.body);
      SLen(s2, State());
      end := Join(s2, jf);
    }

    method CompileTest(v: Expr, tag: Byte, m: Byte)
      modifies this
      ensures State() == C.CompileTest(funcs, old(State()), v, tag, m)
      decreases v, 3
    {
      hide C.CompileExpr, C.Alloc, C.Free, C.PatchSbx, MakeAsBx;
      var vr := Alloc();
      CompileExpr(v, vr);
      var eq := Alloc();
      var _ := Emit(MakeABC(EQ, eq, tag, vr));
      var jt := Emit(MakeAsBx(JT, m, 0));
      var _ := Emit(MakeABC(MOVE, m, eq, 0));
      PatchSbx(jt, |code| - jt - 1);
      Free(vr);
      Free(eq);
    }

    method CompileTry(s: Stmt)
      requires s.Try?
      modifies this
      ensures State() == C.CompileTry(funcs, old(State()), s)
      decreases s, 1
    {
      hide C.CompileBlock, C.Alloc, C.Free, C.PatchSbx, C.TryBody, SShape;
      var errReg := Alloc();
      var jmpEnd := TryBody(s, errReg);
      var prev := locals;
      locals := locals[s.errName := errReg];
      ghost var s2 := State();
      CompileBlock(s.handler);
      SShapeBlock(funcs, s2, s.handler);
      SLen(s2, State());
      locals := prev;
      PatchSbx(jmpEnd, |code| - jmpEnd - 1);
      Free(errReg);
    }

    /** The protected block, and the jump over the handler. */
    method TryBody(s: Stmt, errReg: Byte) returns (jmpEnd: nat)
      requires s.Try?
      modifies this
      ensures State() == C.TryBody(funcs, old(State()), s, errReg) && jmpEnd == |code| - 1
      decreases s, 0
    {
      hide C.CompileBlock, C.TryJoin, MakeAsBx, ToI16, SShape;
      ghost var s1 := State();
      var tryIP := Emit(MakeAsBx(TRY, errReg, 0));
      ghost var a := State();
      CompileBlock(s.body);
      SShapeBlock(funcs, a, s.body);
      SLen(a, State());
      jmpEnd := TryJoin(s1, tryIP);
    }

    method TryJoin(ghost s1: C.CS, tryIP: nat) returns (jmpEnd: nat)
      requires tryIP == |s1.code| < |code|
      modifies this
      ensures State() == C.TryJoin(s1, old(State())) && jmpEnd == |code| - 1
    {
      hide C.PatchSbx, MakeAsBx, ToI16;
      ghost var b := State();
      var _ := Emit(MakeABC(ENDTRY, 0, 0, 0));
      jmpEnd := Emit(MakeAsBx(JMP, 0, 0));
      PatchLen(State(), tryIP, |code| - tryIP - 1);
      PatchSbx(tryIP, |code| - tryIP - 1);
    }

    /** The body of a function, followed by an implicit return. */
    method CompileBody(f: FuncDecl)
      requires State() == C.InitCS(consts, f.params)
      modifies this
      ensures State() == C.CompileBody(funcs, old(consts), f)
    {
      hide C.CompileBlock, C.InitCS;
      CompileBlock(f.body);
      var _ := Emit(MakeABC(RETN, 0, 0, 0));
    }

    method Finish(numParams: Byte) returns (numRegs: Byte)
      ensures numRegs == C.FinishRegs(State(), numParams)
    {
      var n := maxRegs;
      if nextReg > n {
        n := nextReg;
      }
      n := n + 16;
      if n < numParams + 8 {
        n := numParams + 16;
      }
      if n > 255 {
        n := 255;
      }
      numRegs := n;
    }
  }

  /** Positions of instructions. */
  predicate Inside(ips: seq<int>, n: int) { forall i :: 0 <= i < |ips| ==> 0 <= ips[i] < n }

  lemma JoinIs(s1: C.CS, s2: C.CS, jf: nat)
    requires jf + 1 == |s1.code| <= |s2.code|
    ensures C.IfJoin(s1, s2) == C.PatchSbx(C.Emit(s2, MakeAsBx(JMP, 0, 0)), jf,
      |C.Emit(s2, MakeAsBx(JMP, 0, 0)).code| - jf - 1)
  {
    hide C.PatchSbx, MakeAsBx, ToI16;
  }

  lemma PatchOnly(st: C.CS, ip: int, off: int)
    ensures var d := C.PatchSbx(st, ip, off); d == st.(code := d.code) && |d.code| == |st.code|
  {
  }

  lemma EndsInside(ips: seq<int>, m: int, n: int)
    requires m <= n && forall i :: i in ips ==> 0 <= i < m
    ensures Inside(ips, n)
  {
    assert forall i :: 0 <= i < |ips| ==> ips[i] in ips;
  }

  lemma PatchLen(st: C.CS, ip: int, off: int)
    ensures |C.PatchSbx(st, ip, off).code| == |st.code| && C.PatchSbx(st, ip, off).loops == st.loops
  {
  }

  lemma FreeCode(st: C.CS, r: Byte)
    ensures C.Free(st, r).code == st.code
  {
  }

  /** The breaks of a finished body are jumps in it. */
  lemma LoopBreaks(s0: C.CS, s1: C.CS, s2: C.CS)
    requires s0.loops != [] && s0.loops[|s0.loops| - 1].breaks == [] && SShape(s0, s1) && SShape(s1, s2)
    ensures s2.loops != [] && Inside(s2.loops[|s2.loops| - 1].breaks, |s2.code|)
  {
    SShapeTrans(s0, s1, s2);
    var ips := s2.loops[|s2.loops| - 1].breaks;
    forall j | 0 <= j < |ips|
      ensures 0 <= ips[j] < |s2.code|
    {
      assert NewBreak(s0, s2, ips[j]);
    }
  }

  /** All functions of a unit, one after the other, into a shared constant pool. */
  method CompileUnit(funcs: seq<FuncDecl>) returns (consts: seq<Constant>, protos: seq<Proto>, errors: nat)
    ensures var u := C.CompileFuncs(funcs, |funcs|);
      consts == u.pool && protos == u.protos && errors == u.errs
  {
    hide C.CompileBody, C.FinishRegs;
    consts, protos, errors := [], [], 0;
    for i := 0 to |funcs|
      invariant var u := C.CompileFuncs(funcs, i);
        consts == u.pool && protos == u.protos && errors == u.errs
    {
      var f := funcs[i];
      var fc := new FuncCompiler(funcs, consts, f.params);
      fc.CompileBody(f);
      var np := |f.params| % 0x100;
      var nr := fc.Finish(np);
      consts, protos, errors := fc.consts, protos + [Proto(f.name, nr, np, 0, fc.code, [])], errors + |fc.errors|;
    }
  }
}
