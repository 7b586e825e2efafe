/**
 Wiping names (StripMeta, internal/obfus/obfus.go): VM.Run binds every named function as a global, so that renaming
 functions changes globals under the old and new names.  Nothing else is changed as long as no such name is loaded.
 */
module Strip {
  import opened Bytecode
  import opened Vm
  import opened Traces
  import opened Obfus
  import opened ObfusPool

  function GlobalsOf(s: State): map<Text, Value> { if s.Running? then s.vm.globals else s.globals }

  function With(s: State, g: map<Text, Value>): State {
    if s.Running? then Running(s.vm.(globals := g)) else s.(globals := g)
  }

  function Lookup(g: map<Text, Value>, x: Text): Value { if x in g then g[x] else Null }

  predicate SameAt(g: map<Text, Value>, h: map<Text, Value>, x: Text) {
    (x in g <==> x in h) && Lookup(g, x) == Lookup(h, x)
  }

  /** The same globals, but for those under the names N. */
  ghost predicate Agree(N: set<Text>, g: map<Text, Value>, h: map<Text, Value>) {
    forall x :: x !in N ==> SameAt(g, h, x)
  }

  ghost predicate Like(N: set<Text>, s: State, t: State) {
    t == With(s, GlobalsOf(t)) && Agree(N, GlobalsOf(s), GlobalsOf(t))
  }

  // ---- what does not look at globals ----

  /** What it does to vm is what it does to vm with other globals. */
  ghost predicate Blind(vm: VM, h: map<Text, Value>, s: State, t: State) {
    GlobalsOf(s) == vm.globals && t == With(s, h)
  }

  lemma {:induction false} FinishBlind(env: Env, ch: Chunk, vm: VM, out: Outcome, h: map<Text, Value>)
    ensures Blind(vm, h, Finish(env, ch, vm, out), Finish(env, ch, vm.(globals := h), out))
    decreases |vm.callers|, 1
  {
    if vm.callers != [] {
      var c := vm.callers[|vm.callers| - 1];
      EnterBlind(env, ch, vm.(frames := c.frames, callers := vm.callers[..|vm.callers| - 1]), c.id, c.args,
        c.answers + [out], c.retReg, h);
    }
  }

  lemma {:induction false} EnterBlind(env: Env, ch: Chunk, vm: VM, id: nat, args: seq<Value>, answers: seq<Outcome>,
    retReg: nat, h: map<Text, Value>)
    ensures Blind(vm, h, Enter(env, ch, vm, id, args, answers, retReg),
      Enter(env, ch, vm.(globals := h), id, args, answers, retReg))
    decreases |vm.callers|, 2
  {
    hide Unwind, NewFrame;
    var e := CallNative(id, args, answers);
    match env.native(vm.trace, e)
    case Return(_) =>
    case Fail(msg) => FinishBlind(env, ch, vm.(trace := vm.trace + [e]), Err(msg), h);
    case CallBack(_, _, _) =>
  }

  lemma RaiseBlind(env: Env, ch: Chunk, vm: VM, msg: Text, h: map<Text, Value>)
    ensures Blind(vm, h, Raise(env, ch, vm, msg), Raise(env, ch, vm.(globals := h), msg))
  {
    hide Unwind, Finish;
    FinishBlind(env, ch, vm, Err(msg), h);
  }

  lemma ReturnBlind(env: Env, ch: Chunk, vm: VM, v: Value, h: map<Text, Value>)
    requires vm.frames != []
    ensures Blind(vm, h, DoReturn(env, ch, vm, v), DoReturn(env, ch, vm.(globals := h), v))
  {
    hide Finish, Release;
    var f := vm.frames[|vm.frames| - 1];
    FinishBlind(env, ch, vm.(frames := vm.frames[..|vm.frames| - 1], cells := Release(vm.cells, f.ups)), Ok(v), h);
  }

  lemma PrimBlind(env: Env, ch: Chunk, vm: VM, f: Frame, op: Byte, operands: seq<Value>, a: Byte, h: map<Text, Value>)
    requires vm.frames != []
    ensures Blind(vm, h, DoPrim(env, ch, vm, f, op, operands, a),
      DoPrim(env, ch, vm.(globals := h), f, op, operands, a))
  {
    hide Raise;
    var e := Prim(op, operands);
    match env.prim(vm.trace, e)
    case Ok(_) =>
    case Err(msg) => RaiseBlind(env, ch, SetTop(vm.(trace := vm.trace + [e]), f), msg, h);
  }

  lemma CallBlind(env: Env, ch: Chunk, vm: VM, f: Frame, ins: Instr, h: map<Text, Value>)
    requires vm.frames != []
    ensures Blind(vm, h, DoCall(env, ch, vm, f, ins), DoCall(env, ch, vm.(globals := h), f, ins))
  {
    hide Raise, Enter, Range, NewFrame, TypeName, Ascii;
    var vm0 := SetTop(vm, f);
    match Get(f.regs, ins.b)
    case Native(id) => EnterBlind(env, ch, vm0, id, Range(f.regs, ins.b + 1, ins.c), [], ins.a, h);
    case Func(_, _) => RaiseBlind(env, ch, vm0, Ascii("nil func"), h);
    case v => RaiseBlind(env, ch, vm0, Ascii("cannot call ") + TypeName(v), h);
  }

  lemma BadConstBlind(env: Env, ch: Chunk, vm: VM, f: Frame, ins: Instr, h: map<Text, Value>)
    requires vm.frames != []
    ensures Blind(vm, h, BadConst(env, ch, vm, f, ins), BadConst(env, ch, vm.(globals := h), f, ins))
  {
    hide Finish, Ascii, BadConstText;
    FinishBlind(env, ch, vm, Err(Ascii("assertion failed")), h);
    FinishBlind(env, ch, vm, Err(BadConstText(ins)), h);
  }

  lemma OtherBlind(env: Env, ch: Chunk, vm: VM, f: Frame, ins: Instr, h: map<Text, Value>)
    requires vm.frames != []
    ensures Blind(vm, h, ExecOther(env, ch, vm, f, ins), ExecOther(env, ch, vm.(globals := h), f, ins))
  {
    hide Finish, Raise, DoReturn, Ascii, Digits, UnknownText, Range, Get, Instr.SBx, Instr.Bx, AsStr;
    forall out
      ensures Blind(vm, h, Finish(env, ch, vm, out), Finish(env, ch, vm.(globals := h), out))
    {
      FinishBlind(env, ch, vm, out, h);
    }
    ReturnBlind(env, ch, SetTop(vm, f), Get(f.regs, ins.a), h);
    ReturnBlind(env, ch, SetTop(vm, f), Null, h);
    RaiseBlind(env, ch, SetTop(vm, f), AsStr(env, vm.trace, Get(f.regs, ins.a)), h);
  }

  lemma BlindLike(N: set<Text>, vm: VM, h: map<Text, Value>, s: State, t: State)
    requires Blind(vm, h, s, t) && Agree(N, vm.globals, h)
    ensures Like(N, s, t)
  {
  }

  // ---- what does ----

  lemma AgreeSet(N: set<Text>, g: map<Text, Value>, h: map<Text, Value>, x: Text, v: Value)
    requires Agree(N, g, h)
    ensures Agree(N, g[x := v], h[x := v])
  {
    forall y | y !in N
      ensures SameAt(g[x := v], h[x := v], y)
    {
      assert SameAt(g, h, y);
    }
  }

  /** Loading a global gives the same exactly when it is the same: this is where wiped names show. */
  lemma LoadExact(env: Env, ch: Chunk, N: set<Text>, vm: VM, f: Frame, ins: Instr, k: Constant, h: map<Text, Value>)
    requires vm.frames != [] && Agree(N, vm.globals, h) && ins.op == LOADG
    ensures Like(N, WithConst(env, ch, vm, f, ins, k), WithConst(env, ch, vm.(globals := h), f, ins, k)) <==>
      Lookup(vm.globals, ConstText(env, k)) == Lookup(h, ConstText(env, k))
  {
    hide ConstText, DoPrim, Finish, Ascii;
    var name := ConstText(env, k);
    var a, b := f.(regs := f.regs[ins.a := Lookup(vm.globals, name)]), f.(regs := f.regs[ins.a := Lookup(h, name)]);
    assert WithConst(env, ch, vm, f, ins, k) == Running(SetTop(vm, a));
    assert WithConst(env, ch, vm.(globals := h), f, ins, k) == Running(SetTop(vm, b).(globals := h));
    assert a.regs[ins.a] == Lookup(vm.globals, name) && b.regs[ins.a] == Lookup(h, name);
    var n := |vm.frames| - 1;
    assert SetTop(vm, a).frames[n] == a && SetTop(vm, b).frames[n] == b;
  }

  lemma ConstLike(env: Env, ch: Chunk, N: set<Text>, vm: VM, f: Frame, ins: Instr, k: Constant, h: map<Text, Value>)
    requires vm.frames != [] && Agree(N, vm.globals, h) && (ins.op == LOADG ==> ConstText(env, k) !in N)
    ensures Like(N, WithConst(env, ch, vm, f, ins, k), WithConst(env, ch, vm.(globals := h), f, ins, k))
  {
    if ins.op == LOADG {
      assert SameAt(vm.globals, h, ConstText(env, k));
      LoadExact(env, ch, N, vm, f, ins, k, h);
    } else if ins.op == STOREG || ins.op == IMPORT {
      WriteLike(env, ch, N, vm, f, ins, k, h);
    } else {
      ConstBlind(env, ch, vm, f, ins, k, h);
      hide *;
      BlindLike(N, vm, h, WithConst(env, ch, vm, f, ins, k), WithConst(env, ch, vm.(globals := h), f, ins, k));
    }
  }

  lemma ConstBlind(env: Env, ch: Chunk, vm: VM, f: Frame, ins: Instr, k: Constant, h: map<Text, Value>)
    requires vm.frames != [] && ins.op != LOADG && ins.op != STOREG && ins.op != IMPORT
    ensures Blind(vm, h, WithConst(env, ch, vm, f, ins, k), WithConst(env, ch, vm.(globals := h), f, ins, k))
  {
    hide DoPrim, Finish, Ascii, ConstText;
    PrimBlind(env, ch, vm, f, GETK, [Get(f.regs, ins.b), Str(ConstText(env, k))], ins.a, h);
    PrimBlind(env, ch, vm, f, SETK, [Get(f.regs, ins.a), Str(ConstText(env, k)), Get(f.regs, ins.c)], ins.a, h);
    FinishBlind(env, ch, vm, Err(ConstText(env, k)), h);
  }

  /** Both write the same value under the same name. */
  lemma WriteLike(env: Env, ch: Chunk, N: set<Text>, vm: VM, f: Frame, ins: Instr, k: Constant, h: map<Text, Value>)
    requires vm.frames != [] && Agree(N, vm.globals, h) && (ins.op == STOREG || ins.op == IMPORT)
    ensures Like(N, WithConst(env, ch, vm, f, ins, k), WithConst(env, ch, vm.(globals := h), f, ins, k))
  {
    hide DoPrim, Finish, Ascii, ConstText, Agree;
    var name := ConstText(env, k);
    if ins.op == STOREG {
      AgreeSet(N, vm.globals, h, name, Get(f.regs, ins.a));
    } else if name in env.modules {
      AgreeSet(N, vm.globals, h, name, env.modules[name]);
    } else {
      FinishBlind(env, ch, vm, Err(Ascii("unknown module ") + env.quote(name)), h);
    }
  }

  lemma ExecLike(env: Env, ch: Chunk, N: set<Text>, vm: VM, f: Frame, ins: Instr, h: map<Text, Value>)
    requires vm.frames != [] && Agree(N, vm.globals, h) && Overlooks(env, ch, N, ins)
    ensures Like(N, Exec(env, ch, vm, f, ins), Exec(env, ch, vm.(globals := h), f, ins))
  {
    hide DoPrim, WithConst, BadConst, DoCall, ExecOther, Taken, Operands, Instr.SBx, Agree, ConstText;
    if IsPrim(ins.op) {
      PrimBlind(env, ch, vm, f, ins.op, Operands(f.regs, ins), ins.a, h);
    } else if UsesConst(ins.op) {
      if ConstIndex(ins) < |ch.consts| {
        ConstLike(env, ch, N, vm, f, ins, ch.consts[ConstIndex(ins)], h);
      } else {
        BadConstBlind(env, ch, vm, f, ins, h);
      }
    } else {
      CallBlind(env, ch, vm, f, ins, h);
      OtherBlind(env, ch, vm, f, ins, h);
    }
  }

  /** The instruction loads no global under one of the names. */
  predicate Overlooks(env: Env, ch: Chunk, N: set<Text>, ins: Instr) {
    ins.op == LOADG && ConstIndex(ins) < |ch.consts| ==> ConstText(env, ch.consts[ConstIndex(ins)]) !in N
  }

  predicate AllOverlook(env: Env, ch: Chunk, N: set<Text>) {
    forall p, i :: 0 <= p < |ch.protos| && 0 <= i < |ch.protos[p].code| ==> Overlooks(env, ch, N, ch.protos[p].code[i])
  }

  lemma StepLike(env: Env, ch: Chunk, N: set<Text>, s: State, t: State)
    requires AllOverlook(env, ch, N) && Like(N, s, t)
    ensures Like(N, Step(env, ch, s), Step(env, ch, t))
  {
    hide Finish, Exec, Release, Ascii, Agree, Overlooks;
    if s.Running? {
      var vm, h := s.vm, t.vm.globals;
      FinishBlind(env, ch, vm, Ok(Null), h);
      FinishBlind(env, ch, vm, Err(Ascii("CallClosure: nil closure")), h);
      if vm.frames != [] {
        var f := vm.frames[|vm.frames| - 1];
        FinishBlind(env, ch, vm.(cells := Release(vm.cells, f.ups)), Ok(Null), h);
        if f.proto < |ch.protos| && 0 <= f.ip < |Code(ch, f.proto)| {
          assert Overlooks(env, ch, N, ch.protos[f.proto].code[f.ip]);
          ExecLike(env, ch, N, vm, f.(ip := f.ip + 1), Code(ch, f.proto)[f.ip], h);
        }
      }
    }
  }

  lemma {:induction false} RunLike(env: Env, ch: Chunk, N: set<Text>, s: State, t: State, n: nat)
    requires AllOverlook(env, ch, N) && Like(N, s, t)
    ensures Like(N, Run(env, ch, s, n), Run(env, ch, t, n))
    decreases n
  {
    hide Step, AllOverlook, Like;
    if n > 0 {
      StepLike(env, ch, N, s, t);
      RunLike(env, ch, N, Step(env, ch, s), Step(env, ch, t), n - 1);
    }
  }

  // ---- wiping the names of a chunk ----

  /** The same chunk under other names, without line tables. */
  ghost predicate Wiped(src: Chunk, dst: Chunk) {
    && dst == src.(sourceName := dst.sourceName, protos := dst.protos) && |dst.protos| == |src.protos|
    && forall i :: 0 <= i < |src.protos| ==>
      dst.protos[i] == src.protos[i].(name := dst.protos[i].name, lines := dst.protos[i].lines)
  }

  /** VM.Run binds every function but those without a name. */
  predicate Binds(name: Text) { name != [] && name != Ascii("<main>") }

  function NamesOf(ch: Chunk): set<Text> {
    set i | 0 <= i < |ch.protos| && Binds(ch.protos[i].name) :: ch.protos[i].name
  }

  /** The run from s ends like t, perhaps with other globals under the names N. */
  ghost predicate EndsLike(N: set<Text>, env: Env, ch: Chunk, s: State, t: State) {
    exists u :: Like(N, u, t) && EndsIn(env, ch, s, u)
  }

  lemma LikeFlip(N: set<Text>, s: State, t: State)
    requires Like(N, s, t)
    ensures Like(N, t, s)
  {
    forall x | x !in N
      ensures SameAt(GlobalsOf(t), GlobalsOf(s), x)
    {
      assert SameAt(GlobalsOf(s), GlobalsOf(t), x);
    }
  }

  lemma LikeTrans(N: set<Text>, s: State, t: State, u: State)
    requires Like(N, s, t) && Like(N, t, u)
    ensures Like(N, s, u)
  {
    forall x | x !in N
      ensures SameAt(GlobalsOf(s), GlobalsOf(u), x)
    {
      assert SameAt(GlobalsOf(s), GlobalsOf(t), x) && SameAt(GlobalsOf(t), GlobalsOf(u), x);
    }
  }

  /** Runs of one chunk from like states end alike and do the same on the way. */
  lemma LikeEnds(env: Env, ch: Chunk, N: set<Text>, s: State, t: State, u: State, tr: Trace)
    requires AllOverlook(env, ch, N) && Like(N, s, t)
    ensures EndsLike(N, env, ch, s, u) ==> EndsLike(N, env, ch, t, u)
    ensures Begins(env, ch, s, tr) ==> Begins(env, ch, t, tr)
  {
    hide AllOverlook, Run, Agree;
    if EndsLike(N, env, ch, s, u) {
      var z :| Like(N, z, u) && EndsIn(env, ch, s, z);
      var n: nat :| Run(env, ch, s, n) == z;
      RunLike(env, ch, N, s, t, n);
      var y := Run(env, ch, t, n);
      LikeFlip(N, z, y);
      LikeTrans(N, y, z, u);
      assert EndsIn(env, ch, t, y);
    }
    if Begins(env, ch, s, tr) {
      var n: nat :| tr <= TraceOf(Run(env, ch, s, n));
      RunLike(env, ch, N, s, t, n);
      assert tr <= TraceOf(Run(env, ch, t, n));
    }
  }

  lemma {:induction false} BindAgrees(N: set<Text>, protos: seq<Proto>, g: map<Text, Value>)
    requires forall i :: 0 <= i < |protos| && Binds(protos[i].name) ==> protos[i].name in N
    ensures Agree(N, BindNames(protos, g), g)
    decreases |protos|
  {
    hide Ascii;
    if protos != [] {
      var n := |protos| - 1;
      BindAgrees(N, protos[..n], g);
      var h := BindNames(protos[..n], g);
      forall x | x !in N
        ensures SameAt(BindNames(protos, g), g, x)
      {
        assert SameAt(h, g, x) && (Binds(protos[n].name) ==> protos[n].name in N);
      }
    }
  }

  lemma StartLike(env: Env, src: Chunk, dst: Chunk, arg: Value, globals: map<Text, Value>)
    requires Wiped(src, dst)
    ensures Like(NamesOf(src) + NamesOf(dst), Start(env, src, arg, globals), Start(env, dst, arg, globals))
  {
    var N := NamesOf(src) + NamesOf(dst);
    BoundAgree(N, src, dst, globals + env.modules);
    assert Agree(N, globals, globals) by {
      assert forall x :: SameAt(globals, globals, x);
    }
    WipedAlike(src, dst);
    if 0 <= src.mainIndex < |src.protos| {
      SameNewFrame(src, dst, src.mainIndex, NoUpvals, [arg], 0);
    }
    hide BindNames, StartText, Agree, NewFrame, Wiped, Alike;
  }

  lemma WipedAlike(src: Chunk, dst: Chunk)
    requires Wiped(src, dst)
    ensures Alike(src, dst) && dst.mainIndex == src.mainIndex && |dst.protos| == |src.protos|
    ensures StartText(dst) == StartText(src)
  {
    hide Ascii, Digits;
  }

  lemma BoundAgree(N: set<Text>, src: Chunk, dst: Chunk, g: map<Text, Value>)
    requires N == NamesOf(src) + NamesOf(dst)
    ensures Agree(N, BindNames(src.protos, g), BindNames(dst.protos, g))
  {
    BindAgrees(N, src.protos, g);
    BindAgrees(N, dst.protos, g);
    hide BindNames;
    forall x | x !in N
      ensures SameAt(BindNames(src.protos, g), BindNames(dst.protos, g), x)
    {
      assert SameAt(BindNames(src.protos, g), g, x) && SameAt(BindNames(dst.protos, g), g, x);
    }
  }

  lemma WipedSame(src: Chunk, dst: Chunk)
    requires Wiped(src, dst) && PoolOk(src)
    ensures SameCode(src, dst)
  {
  }

  /**
   Wiping names keeps every run of a chunk that loads no global under an old or a new function name: the same outcome,
   the same operations and native calls, finite or not, and the same globals under all other names.
   */
  lemma WipedCorrect(env: Env, src: Chunk, dst: Chunk, arg: Value, globals: map<Text, Value>, t: State, tr: Trace)
    requires Wiped(src, dst) && PoolOk(src) && AllOverlook(env, src, NamesOf(src) + NamesOf(dst))
    ensures var N := NamesOf(src) + NamesOf(dst);
      EndsLike(N, env, src, Start(env, src, arg, globals), t) <==>
        EndsLike(N, env, dst, Start(env, dst, arg, globals), t)
    ensures Begins(env, src, Start(env, src, arg, globals), tr) <==> Begins(env, dst, Start(env, dst, arg, globals), tr)
  {
    var N, a, b := NamesOf(src) + NamesOf(dst), Start(env, src, arg, globals), Start(env, dst, arg, globals);
    StartLike(env, src, dst, arg, globals);
    WipedSame(src, dst);
    hide *;
    LikeFlip(N, a, b);
    LikeEnds(env, src, N, a, b, t, tr);
    LikeEnds(env, src, N, b, a, t, tr);
    Lockstep(env, src, dst, N, b, t, tr);
  }

  lemma Lockstep(env: Env, a: Chunk, b: Chunk, N: set<Text>, s: State, t: State, tr: Trace)
    requires SameCode(a, b)
    ensures EndsLike(N, env, a, s, t) <==> EndsLike(N, env, b, s, t)
    ensures Begins(env, a, s, tr) <==> Begins(env, b, s, tr)
  {
    hide SameCode, Run, Like;
    forall n: nat
      ensures Run(env, a, s, n) == Run(env, b, s, n)
    {
      SameRun(env, a, b, s, n);
    }
    forall u
      ensures EndsIn(env, a, s, u) <==> EndsIn(env, b, s, u)
    {
    }
  }
}
