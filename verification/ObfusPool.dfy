/** Padding and permuting the constant pool: every instruction still finds its constant. */
module ObfusPool {
  import opened Bytecode
  import opened Vm
  import opened Obfus

  // ---- machines that differ in the pool and its indices only ----

  /** The two instructions do the same, each with its own pool. */
  predicate SameInstr(a: seq<Constant>, x: Instr, b: seq<Constant>, y: Instr) {
    if UsesConst(x.op) then
      && y.op == x.op && ConstIndex(x) < |a| && ConstIndex(y) < |b| && a[ConstIndex(x)] == b[ConstIndex(y)]
        && y.a == x.a
      && (x.op == GETK ==> y.b == x.b) && ((x.op == SETK || x.op == ASSERT) ==> y.c == x.c)
    else y == x
  }

  ghost predicate SameCode(a: Chunk, b: Chunk) {
    && |a.protos| == |b.protos| && a.mainIndex == b.mainIndex
    && forall p :: 0 <= p < |a.protos| ==>
      && a.protos[p].numParams == b.protos[p].numParams && |a.protos[p].code| == |b.protos[p].code|
      && forall i :: 0 <= i < |a.protos[p].code| ==>
        SameInstr(a.consts, a.protos[p].code[i], b.consts, b.protos[p].code[i])
  }

  ghost predicate SameNames(a: Chunk, b: Chunk) {
    |a.protos| == |b.protos| && forall p :: 0 <= p < |a.protos| ==> a.protos[p].name == b.protos[p].name
  }

  ghost predicate Alike(a: Chunk, b: Chunk) {
    |a.protos| == |b.protos| && forall p: nat :: NumParams(a, p) == NumParams(b, p)
  }

  lemma AreAlike(a: Chunk, b: Chunk)
    requires SameCode(a, b)
    ensures Alike(a, b) && |a.protos| == |b.protos|
  {
    hide SameInstr;
  }

  lemma {:induction false} SameFinish(env: Env, a: Chunk, b: Chunk, vm: VM, out: Outcome)
    requires Alike(a, b)
    ensures Finish(env, a, vm, out) == Finish(env, b, vm, out)
    decreases |vm.callers|, 1
  {
    if vm.callers != [] {
      var c := vm.callers[|vm.callers| - 1];
      SameEnter(env, a, b, vm.(frames := c.frames, callers := vm.callers[..|vm.callers| - 1]), c.id, c.args,
        c.answers + [out], c.retReg);
    }
  }

  lemma {:induction false} SameEnter(env: Env, a: Chunk, b: Chunk, vm: VM, id: nat, args: seq<Value>,
    answers: seq<Outcome>, retReg: nat)
    requires Alike(a, b)
    ensures Enter(env, a, vm, id, args, answers, retReg) == Enter(env, b, vm, id, args, answers, retReg)
    decreases |vm.callers|, 2
  {
    var e := CallNative(id, args, answers);
    var vm1 := vm.(trace := vm.trace + [e]);
    match env.native(vm.trace, e)
    case Return(v) =>
    case Fail(msg) => SameFinish(env, a, b, vm1, Err(msg));
    case CallBack(proto, ups, cargs) => SameNewFrame(a, b, proto, ups, cargs, 0);
  }

  lemma SameNewFrame(a: Chunk, b: Chunk, proto: nat, ups: Upvals, args: seq<Value>, retReg: nat)
    requires Alike(a, b)
    ensures NewFrame(a, proto, ups, args, retReg) == NewFrame(b, proto, ups, args, retReg)
  {
    assert NumParams(a, proto) == NumParams(b, proto);
  }

  lemma SameRaise(env: Env, a: Chunk, b: Chunk, vm: VM, msg: Text)
    requires Alike(a, b)
    ensures Raise(env, a, vm, msg) == Raise(env, b, vm, msg)
  {
    SameFinish(env, a, b, vm, Err(msg));
    hide Finish;
  }

  lemma SamePrim(env: Env, a: Chunk, b: Chunk, vm: VM, f: Frame, op: Byte, operands: seq<Value>, r: Byte)
    requires Alike(a, b) && vm.frames != []
    ensures DoPrim(env, a, vm, f, op, operands, r) == DoPrim(env, b, vm, f, op, operands, r)
  {
    hide Raise;
    var e := Prim(op, operands);
    var o := env.prim(vm.trace, e);
    if o.Err? {
      SameRaise(env, a, b, SetTop(vm.(trace := vm.trace + [e]), f), o.msg);
    }
  }

  lemma SameCall(env: Env, a: Chunk, b: Chunk, vm: VM, f: Frame, ins: Instr)
    requires Alike(a, b) && vm.frames != []
    ensures DoCall(env, a, vm, f, ins) == DoCall(env, b, vm, f, ins)
  {
    hide Raise;
    hide Enter;
    hide Range;
    var args := Range(f.regs, ins.b + 1, ins.c);
    match Get(f.regs, ins.b)
    case Native(id) => SameEnter(env, a, b, SetTop(vm, f), id, args, [], ins.a);
    case Func(proto, ups) =>
      SameNewFrame(a, b, proto, ups, args, ins.a);
      SameRaise(env, a, b, SetTop(vm, f), Ascii("nil func"));
    case v => SameRaise(env, a, b, SetTop(vm, f), Ascii("cannot call ") + TypeName(v));
  }

  lemma SameReturn(env: Env, a: Chunk, b: Chunk, vm: VM, v: Value)
    requires Alike(a, b) && vm.frames != []
    ensures DoReturn(env, a, vm, v) == DoReturn(env, b, vm, v)
  {
    hide Finish;
    hide Release;
    var f := vm.frames[|vm.frames| - 1];
    SameFinish(env, a, b, vm.(frames := vm.frames[..|vm.frames| - 1], cells := Release(vm.cells, f.ups)), Ok(v));
  }

  lemma SameOther(env: Env, a: Chunk, b: Chunk, vm: VM, f: Frame, ins: Instr)
    requires Alike(a, b) && vm.frames != []
    ensures ExecOther(env, a, vm, f, ins) == ExecOther(env, b, vm, f, ins)
  {
    hide Finish;
    hide Raise;
    hide DoReturn;
    hide Ascii;
    hide AsStr;
    hide Range;
    hide Cells;
    hide ToI16;
    SameFinish(env, a, b, vm, Ok(Null));
    SameFinish(env, a, b, vm, Err(Ascii("MAKEFN bad proto ") + Digits(ins.Bx())));
    SameFinish(env, a, b, vm, Err(Ascii("CLOSURE bad proto")));
    SameFinish(env, a, b, vm, Err(Ascii("GETUPV OOB")));
    SameFinish(env, a, b, vm, Err(Ascii("SETUPV OOB")));
    SameFinish(env, a, b, vm, Err(UnknownText(ins.op)));
    SameReturn(env, a, b, SetTop(vm, f), Get(f.regs, ins.a));
    SameReturn(env, a, b, SetTop(vm, f), Null);
    SameRaise(env, a, b, SetTop(vm, f), AsStr(env, vm.trace, Get(f.regs, ins.a)));
  }

  lemma SameConst(env: Env, a: Chunk, b: Chunk, vm: VM, f: Frame, x: Instr, y: Instr, k: Constant)
    requires Alike(a, b) && vm.frames != [] && UsesConst(x.op) && y.op == x.op && y.a == x.a
    requires (x.op == GETK ==> y.b == x.b) && (x.op == SETK ==> y.c == x.c)
    ensures WithConst(env, a, vm, f, x, k) == WithConst(env, b, vm, f, y, k)
  {
    hide Finish;
    hide DoPrim;
    hide Truthy;
    hide ConstText;
    hide Ascii;
    var name := ConstText(env, k);
    SamePrim(env, a, b, vm, f, GETK, [Get(f.regs, x.b), Str(name)], x.a);
    SamePrim(env, a, b, vm, f, SETK, [Get(f.regs, x.a), Str(name), Get(f.regs, x.c)], x.a);
    SameFinish(env, a, b, vm, Err(Ascii("unknown module ") + env.quote(name)));
    SameFinish(env, a, b, vm, Err(name));
  }

  lemma SameExec(env: Env, a: Chunk, b: Chunk, vm: VM, f: Frame, x: Instr, y: Instr)
    requires Alike(a, b) && vm.frames != [] && SameInstr(a.consts, x, b.consts, y)
    ensures Exec(env, a, vm, f, x) == Exec(env, b, vm, f, y)
  {
    hide DoPrim;
    hide DoCall;
    hide ExecOther;
    hide WithConst;
    hide Operands;
    hide Taken;
    hide ToI16;
    hide Alike;
    if UsesConst(x.op) {
      SameConst(env, a, b, vm, f, x, y, a.consts[ConstIndex(x)]);
    } else {
      SamePrim(env, a, b, vm, f, x.op, Operands(f.regs, x), x.a);
      SameCall(env, a, b, vm, f, x);
      SameOther(env, a, b, vm, f, x);
    }
  }

  lemma SameCodeAt(a: Chunk, b: Chunk, p: nat, i: nat)
    requires SameCode(a, b) && p < |a.protos|
    ensures p < |b.protos| && |a.protos[p].code| == |b.protos[p].code|
    ensures i < |a.protos[p].code| ==> SameInstr(a.consts, a.protos[p].code[i], b.consts, b.protos[p].code[i])
  {
    hide SameInstr;
  }

  lemma StuckStep(env: Env, ch: Chunk, vm: VM)
    requires vm.frames == [] || vm.frames[|vm.frames| - 1].proto >= |ch.protos|
    ensures Step(env, ch, Running(vm)) == Finish(env, ch, vm, if vm.frames == [] then Ok(Null)
      else Err(Ascii("CallClosure: nil closure")))
  {
    hide Finish;
    hide Exec;
    hide Ascii;
  }

  lemma SameStep(env: Env, a: Chunk, b: Chunk, s: State)
    requires SameCode(a, b)
    ensures Step(env, a, s) == Step(env, b, s)
  {
    AreAlike(a, b);
    if s.Running? {
      SameRunning(env, a, b, s.vm);
    }
    hide *;
  }

  lemma SameRunning(env: Env, a: Chunk, b: Chunk, vm: VM)
    requires SameCode(a, b) && Alike(a, b) && |a.protos| == |b.protos|
    ensures Step(env, a, Running(vm)) == Step(env, b, Running(vm))
  {
    hide *;
    if vm.frames == [] || vm.frames[|vm.frames| - 1].proto >= |a.protos| {
      StuckStep(env, a, vm);
      StuckStep(env, b, vm);
      SameFinish(env, a, b, vm, if vm.frames == [] then Ok(Null) else Err(Ascii("CallClosure: nil closure")));
      return;
    }
    var f := vm.frames[|vm.frames| - 1];
    SameCodeAt(a, b, f.proto, 0);
    if f.ip < 0 || f.ip >= |a.protos[f.proto].code| {
      OffStep(env, a, vm);
      OffStep(env, b, vm);
      SameFinish(env, a, b, vm.(cells := Release(vm.cells, f.ups)), Ok(Null));
    } else {
      SameCodeAt(a, b, f.proto, f.ip);
      FetchExec(env, a, vm);
      FetchExec(env, b, vm);
      SameExec(env, a, b, vm, f.(ip := f.ip + 1), a.protos[f.proto].code[f.ip], b.protos[f.proto].code[f.ip]);
    }
  }

  /** Chunks that differ in their pools only run in lockstep. */
  lemma {:induction false} SameRun(env: Env, a: Chunk, b: Chunk, s: State, n: nat)
    requires SameCode(a, b)
    ensures Run(env, a, s, n) == Run(env, b, s, n)
    decreases n
  {
    hide Step;
    hide SameCode;
    if n > 0 {
      SameStep(env, a, b, s);
      SameRun(env, a, b, Step(env, a, s), n - 1);
    }
  }

  lemma SameStart(env: Env, a: Chunk, b: Chunk, arg: Value, globals: map<Text, Value>)
    requires SameCode(a, b) && SameNames(a, b)
    ensures Start(env, a, arg, globals) == Start(env, b, arg, globals)
  {
    AreAlike(a, b);
    SameBindings(a.protos, b.protos, globals + env.modules);
    if 0 <= a.mainIndex < |a.protos| {
      SameNewFrame(a, b, a.mainIndex, NoUpvals, [arg], 0);
    }
    hide BindNames;
    hide SameInstr;
    hide NewFrame;
    hide Ascii;
  }

  // ---- remapping ----

  lemma WideRemap(before: seq<Constant>, after: seq<Constant>, to: seq<int>, ins: Instr)
    requires Moves(before, after, to) && |after| <= 0x1_0000 && ins.Bx() < |before|
    requires ins.op == LOADK || ins.op == LOADF || ins.op == LOADG || ins.op == STOREG || ins.op == IMPORT
    ensures SameInstr(before, ins, after, Remap(ins, to))
  {
    var bx := ins.Bx();
    var d := MakeABx(ins.op, ins.a, to[bx]);
    assert after[to[bx]] == before[bx] && d.Bx() == to[bx];
    assert to[bx] % 0x1_0000 == to[bx];
    hide MakeABx;
    assert Remap(ins, to) == d;
    hide Remap;
  }

  /** Remapping finds the constant again when the operand was in the pool and its new index fits the operand. */
  lemma RemapSame(before: seq<Constant>, after: seq<Constant>, to: seq<int>, ins: Instr)
    requires Moves(before, after, to) && InPool(ins, |before|) && |after| <= 0x1_0000 && !TooFar(ins, to)
    ensures SameInstr(before, ins, after, Remap(ins, to))
  {
    hide MakeABx;
    if ins.op == LOADK || ins.op == LOADF || ins.op == LOADG || ins.op == STOREG || ins.op == IMPORT {
      WideRemap(before, after, to, ins);
    } else if UsesConst(ins.op) {
      var i := ConstIndex(ins);
      assert after[to[i]] == before[i];
    }
  }

  function RemapAll(code: seq<Instr>, to: seq<int>): seq<Instr>
    requires forall i :: 0 <= i < |to| ==> 0 <= to[i]
  {
    seq(|code|, i requires 0 <= i < |code| => Remap(code[i], to))
  }

  /** The chunk after its pool was permuted, or left alone because some 8-bit operand would not fit. */
  ghost predicate Shuffled(src: Chunk, dst: Chunk, to: seq<int>) {
    && Moves(src.consts, dst.consts, to) && |dst.consts| == |src.consts|
    && dst == src.(consts := dst.consts, protos := dst.protos) && |dst.protos| == |src.protos|
    && (forall p :: 0 <= p < |src.protos| ==> dst.protos[p] == src.protos[p].(code := RemapAll(src.protos[p].code, to)))
    && (forall p, i :: 0 <= p < |src.protos| && 0 <= i < |src.protos[p].code| ==> !TooFar(src.protos[p].code[i], to))
  }

  lemma ShuffleKeeps(src: Chunk, dst: Chunk, to: seq<int>)
    requires Shuffled(src, dst, to) && PoolOk(src) && |src.consts| <= 0x1_0000
    ensures SameCode(src, dst)
  {
    forall p, i | 0 <= p < |src.protos| && 0 <= i < |src.protos[p].code|
      ensures SameInstr(src.consts, src.protos[p].code[i], dst.consts, dst.protos[p].code[i])
    {
      assert InPool(src.protos[p].code[i], |src.consts|);
      RemapSame(src.consts, dst.consts, to, src.protos[p].code[i]);
    }
    hide SameInstr;
    hide Remap;
    hide TooFar;
    hide InPool;
  }

  /** More constants at the end of the pool. */
  lemma PadKeeps(src: Chunk, dst: Chunk)
    requires dst == src.(consts := dst.consts) && src.consts <= dst.consts && PoolOk(src)
    ensures SameCode(src, dst) && PoolOk(dst)
  {
    forall p, i | 0 <= p < |src.protos| && 0 <= i < |src.protos[p].code|
      ensures SameInstr(src.consts, src.protos[p].code[i], dst.consts, dst.protos[p].code[i])
      ensures InPool(dst.protos[p].code[i], |dst.consts|)
    {
      assert InPool(src.protos[p].code[i], |src.consts|);
      var x := src.protos[p].code[i];
      if UsesConst(x.op) {
        assert dst.consts[ConstIndex(x)] == src.consts[ConstIndex(x)];
      }
    }
    hide SameInstr;
    hide InPool;
  }

  lemma SameTrans(a: Chunk, b: Chunk, c: Chunk)
    requires SameCode(a, b) && SameCode(b, c)
    ensures SameCode(a, c)
  {
    forall p, i | 0 <= p < |a.protos| && 0 <= i < |a.protos[p].code|
      ensures SameInstr(a.consts, a.protos[p].code[i], c.consts, c.protos[p].code[i])
    {
      assert SameInstr(a.consts, a.protos[p].code[i], b.consts, b.protos[p].code[i]);
      assert SameInstr(b.consts, b.protos[p].code[i], c.consts, c.protos[p].code[i]);
    }
    hide SameInstr;
  }

  /**
   An operand beyond the pool is where padding shows: the original stops with a "bad const" error, the padded chunk goes
   on with a bogus constant.
   */
  lemma PadShows(src: seq<Constant>, bogus: seq<Constant>, ins: Instr)
    requires UsesConst(ins.op)
    ensures SameInstr(src, ins, src + bogus, ins) <==> InPool(ins, |src|)
  {
    if ConstIndex(ins) < |src| {
      assert (src + bogus)[ConstIndex(ins)] == src[ConstIndex(ins)];
    }
  }
}

/** The pool operations as the source writes them. */
module ObfusPoolImpl {
  import opened Bytecode
  import opened Vm
  import opened Obfus
  import opened ObfusPool

  /** pick(i) stands for the number drawn below i + 1. */
  method RandPerm(n: nat, pick: nat -> nat) returns (p: array<int>)
    ensures fresh(p) && p.Length == n && IsPerm(p[..])
  {
    p := new int[n](i => i);
    var i := n - 1;
    while i > 0
      invariant -1 <= i < n || n == 0
      invariant IsPerm(p[..])
    {
      var j := pick(i) % (i + 1);
      SwapPerm(p[..], i, j);
      p[i], p[j] := p[j], p[i];
      i := i - 1;
    }
  }

  lemma SwapPerm(p: seq<int>, i: int, j: int)
    requires IsPerm(p) && 0 <= i < |p| && 0 <= j < |p|
    ensures IsPerm(p[i := p[j]][j := p[i]])
  {
  }

  class Buffer {
    var chunk: Chunk

    constructor (chunk: Chunk)
      ensures this.chunk == chunk
    {
      this.chunk := chunk;
    }

    /** padBogusConsts: n made-up strings. */
    method PadBogusConsts(n: nat, name: nat -> Text)
      modifies this
      ensures chunk == old(chunk).(consts := chunk.consts) && old(chunk).consts <= chunk.consts
        && |chunk.consts| == |old(chunk).consts| + n
    {
      for i := 0 to n
        invariant chunk == old(chunk).(consts := chunk.consts) && old(chunk).consts <= chunk.consts
        invariant |chunk.consts| == |old(chunk).consts| + i
      {
        chunk := chunk.(consts := chunk.consts + [CStr(name(i))]);
      }
    }

    /** Does every 8-bit operand still fit after the permutation? */
    method Fits(to: seq<int>) returns (ok: bool)
      ensures ok <==> forall p, i :: 0 <= p < |chunk.protos| && 0 <= i < |chunk.protos[p].code| ==>
        !TooFar(chunk.protos[p].code[i], to)
    {
      for p := 0 to |chunk.protos|
        invariant forall q, i :: 0 <= q < p && 0 <= i < |chunk.protos[q].code| ==> !TooFar(chunk.protos[q].code[i], to)
      {
        var code := chunk.protos[p].code;
        for i := 0 to |code|
          invariant forall j :: 0 <= j < i ==> !TooFar(code[j], to)
        {
          if TooFar(code[i], to) {
            return false;
          }
        }
      }
      return true;
    }

    /** Either every constant operand is remapped along a permutation of the pool, or the chunk is left as it was. */
    method ShuffleConsts(pick: nat -> nat) returns (done: bool, ghost to: seq<int>)
      modifies this
      ensures !done ==> chunk == old(chunk)
      ensures done ==> IsPerm(to) && Shuffled(old(chunk), chunk, to)
      ensures !done && |old(chunk).consts| > 1 ==>
        exists p, i :: 0 <= p < |chunk.protos| && 0 <= i < |chunk.protos[p].code| && TooFar(chunk.protos[p].code[i], to)
    {
      var n := |chunk.consts|;
      if n <= 1 {
        return false, [];
      }
      var drawn := RandPerm(n, pick);
      var perm := drawn[..];
      var oldToNew := new int[n];
      for newI := 0 to n
        invariant chunk == old(chunk)
        invariant forall k :: 0 <= k < newI ==> oldToNew[perm[k]] == k
      {
        oldToNew[perm[newI]] := newI;
      }
      to := oldToNew[..];
      Inverse(perm, to);
      var ok := Fits(oldToNew[..]);
      if !ok {
        return false, to;
      }
      var newConsts: seq<Constant> := [];
      for newI := 0 to n
        invariant chunk == old(chunk) && oldToNew[..] == to
        invariant |newConsts| == newI && forall k :: 0 <= k < newI ==> newConsts[k] == chunk.consts[perm[k]]
      {
        newConsts := newConsts + [chunk.consts[perm[newI]]];
      }
      assert Moves(chunk.consts, newConsts, to);
      chunk := chunk.(consts := newConsts);
      RemapProtos(oldToNew[..]);
      return true, to;
    }

    method RemapProtos(to: seq<int>)
      requires forall i :: 0 <= i < |to| ==> 0 <= to[i]
      modifies this
      ensures chunk == old(chunk).(protos := chunk.protos) && |chunk.protos| == |old(chunk).protos|
      ensures forall p :: 0 <= p < |chunk.protos| ==>
        chunk.protos[p] == old(chunk).protos[p].(code := RemapAll(old(chunk).protos[p].code, to))
    {
      hide Remap;
      for p := 0 to |chunk.protos|
        invariant chunk == old(chunk).(protos := chunk.protos) && |chunk.protos| == |old(chunk).protos|
        invariant forall q :: 0 <= q < p ==>
          chunk.protos[q] == old(chunk).protos[q].(code := RemapAll(old(chunk).protos[q].code, to))
        invariant forall q :: p <= q < |chunk.protos| ==> chunk.protos[q] == old(chunk).protos[q]
      {
        var code := chunk.protos[p].code;
        ghost var was := code;
        for i := 0 to |code|
          invariant |code| == |was|
          invariant forall j :: 0 <= j < i ==> code[j] == Remap(was[j], to)
          invariant forall j :: i <= j < |code| ==> code[j] == was[j]
        {
          code := code[i := Remap(code[i], to)];
        }
        assert code == RemapAll(was, to);
        chunk := chunk.(protos := chunk.protos[p := chunk.protos[p].(code := code)]);
      }
    }
  }

  function Below(n: nat): (s: set<int>)
    ensures |s| == n && forall i :: i in s <==> 0 <= i < n
  {
    if n == 0 then {} else Below(n - 1) + {n - 1}
  }

  function Firsts(p: seq<int>, n: nat): set<int>
    requires n <= |p|
  {
    if n == 0 then {} else Firsts(p, n - 1) + {p[n - 1]}
  }

  lemma {:induction false} FirstsAre(p: seq<int>, n: nat)
    requires IsPerm(p) && n <= |p|
    ensures |Firsts(p, n)| == n && forall v :: v in Firsts(p, n) <==> v in p[..n]
    decreases n
  {
    if n > 0 {
      FirstsAre(p, n - 1);
      assert p[..n] == p[..n - 1] + [p[n - 1]];
    }
  }

  /** A permutation reaches every index. */
  lemma Onto(p: seq<int>)
    requires IsPerm(p)
    ensures forall i :: 0 <= i < |p| ==> i in p
  {
    FirstsAre(p, |p|);
    assert p[..|p|] == p;
    assert Firsts(p, |p|) <= Below(|p|);
    SubsetFull(Firsts(p, |p|), Below(|p|));
    assert forall i :: 0 <= i < |p| ==> i in Below(|p|);
  }

  lemma SubsetFull(s: set<int>, t: set<int>)
    requires s <= t && |s| == |t|
    ensures s == t
  {
    assert t == s + (t - s);
  }

  lemma Inverse(p: seq<int>, to: seq<int>)
    requires IsPerm(p) && |to| == |p| && forall k :: 0 <= k < |p| ==> to[p[k]] == k
    ensures IsPerm(to) && forall i :: 0 <= i < |p| ==> 0 <= to[i] < |p| && p[to[i]] == i
  {
    Onto(p);
    forall i | 0 <= i < |p|
      ensures 0 <= to[i] < |p| && p[to[i]] == i
    {
      assert i in p;
      var k :| 0 <= k < |p| && p[k] == i;
    }
  }
}
