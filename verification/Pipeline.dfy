/** Source to bytes to run: compile, obfuscate, encode, decode, execute. */
module Pipeline {
  import opened Bytecode
  import opened Ast
  import opened Vm
  import opened Traces
  import opened Semantics
  import opened MachineSteps
  import opened CompilerCorrect
  import C = Compiler
  import Obfus
  import ObfusApply
  import opened Strip
  import Serialize
  import Handlers
  import HandlersCompiled
  import HandlerDiscipline
  import TryFree

  /** The source semantics, given enough fuel, halts as the state t says. */
  ghost predicate Means(P: Prog, arg: Value, globals: map<Text, Value>, t: State)
    requires FuncIndex(P.funcs, Ascii("main")) < |P.funcs|
  {
    exists fuel: nat :: !RunSource(P, arg, globals, fuel).Timeout? && HaltOf(RunSource(P, arg, globals, fuel)) == t
  }

  /** The source semantics, given enough fuel, does the operations and native calls of tr first. */
  ghost predicate MeansFirst(P: Prog, arg: Value, globals: map<Text, Value>, tr: Trace)
    requires FuncIndex(P.funcs, Ascii("main")) < |P.funcs|
  {
    exists fuel: nat :: tr <= RunSource(P, arg, globals, fuel).w.trace
  }

  lemma HaltTrace(r: Result)
    requires !r.Timeout?
    ensures HaltOf(r).Halted? && TraceOf(HaltOf(r)) == r.w.trace
  {
    hide FirstLine;
  }

  /** What a compiled chunk does first is what the source semantics does first, whether the run ends or not. */
  lemma CompiledTraces(J: Job, arg: Value, globals: map<Text, Value>, tr: Trace)
    requires Compiled(J) && FuncIndex(J.P.funcs, Ascii("main")) < |J.P.funcs|
    ensures Begins(J.P.env, J.ch, Start(J.P.env, J.ch, arg, globals), tr) <==> MeansFirst(J.P, arg, globals, tr)
  {
    hide Compiled, Start, Run, RunSource, Ascii, FuncIndex, HaltOf;
    var s := Start(J.P.env, J.ch, arg, globals);
    if Begins(J.P.env, J.ch, s, tr) {
      var n: nat :| tr <= TraceOf(Run(J.P.env, J.ch, s, n));
      var r := RunSource(J.P, arg, globals, n);
      var m := ProgramCorrect(J, arg, globals, n);
      if !r.Timeout? {
        HaltTrace(r);
      }
      BeginsLater(J.P.env, J.ch, s, tr, n, m);
      assert tr <= r.w.trace;
    }
    if MeansFirst(J.P, arg, globals, tr) {
      var fuel: nat :| tr <= RunSource(J.P, arg, globals, fuel).w.trace;
      var r := RunSource(J.P, arg, globals, fuel);
      var n := ProgramCorrect(J, arg, globals, fuel);
      if !r.Timeout? {
        HaltTrace(r);
      }
      assert tr <= TraceOf(Run(J.P.env, J.ch, s, n));
    }
  }

  /** A compiled chunk ends as the source does, and does the same on the way, for ever if need be. */
  lemma CompiledMeans(J: Job, arg: Value, globals: map<Text, Value>, t: State, tr: Trace)
    requires Compiled(J) && FuncIndex(J.P.funcs, Ascii("main")) < |J.P.funcs|
    ensures EndsIn(J.P.env, J.ch, Start(J.P.env, J.ch, arg, globals), t) <==> Means(J.P, arg, globals, t)
    ensures Begins(J.P.env, J.ch, Start(J.P.env, J.ch, arg, globals), tr) <==> MeansFirst(J.P, arg, globals, tr)
  {
    CompiledTraces(J, arg, globals, tr);
    hide Compiled;
    hide Start;
    hide Run;
    hide RunSource;
    hide Ascii;
    hide FuncIndex;
    var s := Start(J.P.env, J.ch, arg, globals);
    if EndsIn(J.P.env, J.ch, s, t) {
      var n: nat :| Run(J.P.env, J.ch, s, n) == t;
      ProgramExact(J, arg, globals, n);
    }
    if Means(J.P, arg, globals, t) {
      var fuel: nat :| !RunSource(J.P, arg, globals, fuel).Timeout? && HaltOf(RunSource(J.P, arg, globals, fuel)) == t;
      var n := ProgramCorrect(J, arg, globals, fuel);
    }
  }

  /**
   The whole toolchain keeps the meaning of a program.  Its functions are compiled to J.ch, obfuscated to dst with
   whatever was drawn, encoded, and decoded again, perhaps from a buffer with more bytes behind; what is decoded ends
   with an outcome, globals and a trace exactly when the source semantics does, and its run, finite or not, begins with
   the same operations and native calls.
   */
  lemma ToolchainCorrect(J: Job, mid: Chunk, dst: Chunk, plans: seq<Obfus.Plan>, rest: seq<Byte>, arg: Value,
    globals: map<Text, Value>, t: State, tr: Trace)
    requires Compiled(J) && FuncIndex(J.P.funcs, Ascii("main")) < |J.P.funcs|
    requires ObfusApply.Obfuscable(J.ch) && ObfusApply.Pooled(J.ch, mid) && |mid.consts| <= |J.ch.consts| + 63
    requires ObfusApply.Expands(mid, dst, plans) && Serialize.Fits(dst)
    ensures var r := Serialize.DecodeBytes(Serialize.EncodeBytes(dst) + rest);
      && r.Got? && r.v == dst
      && (EndsIn(J.P.env, r.v, Start(J.P.env, r.v, arg, globals), t) <==> Means(J.P, arg, globals, t))
      && (Begins(J.P.env, r.v, Start(J.P.env, r.v, arg, globals), tr) <==> MeansFirst(J.P, arg, globals, tr))
  {
    SelfBase(J.ch);
    MainIndexFits(J, J.ch, mid, dst, plans);
    hide *;
    Serialize.RoundTrip(dst, rest);
    ObfusApply.ObfuscationCorrect(J.P.env, J.ch, mid, dst, plans, arg, globals, t, tr);
    CompiledMeans(J, arg, globals, t, tr);
  }

  lemma SelfBase(ch: Chunk)
    ensures Wiped(ch, ch)
  {
  }

  lemma MainIndexFits(J: Job, base: Chunk, mid: Chunk, dst: Chunk, plans: seq<Obfus.Plan>)
    requires Compiled(J) && Wiped(J.ch, base) && ObfusApply.Pooled(base, mid) && ObfusApply.Expands(mid, dst, plans)
    ensures dst.mainIndex == FuncIndex(J.P.funcs, Ascii("main")) && 0 <= dst.mainIndex < 0x1_0000_0000
  {
    hide Obfus.IsExpansion;
    hide Ascii;
    hide FuncIndex;
    hide Safe;
  }

  // ---- what compiled code is to the obfuscator ----

  predicate NoTryAnywhere(funcs: seq<FuncDecl>) { forall i :: 0 <= i < |funcs| ==> TryFree.NoTries(funcs[i].body) }

  lemma {:induction false} CodeHarmless(ch: Chunk, funcs: seq<FuncDecl>, p: nat)
    requires IsChunkOf(ch, funcs) && NoTryAnywhere(funcs) && p < |ch.protos|
    ensures forall i :: 0 <= i < |ch.protos[p].code| ==> TryFree.Harmless(funcs, ch.consts, ch.protos[p].code[i])
  {
    hide C.CompileBody, C.CompileFuncs, TryFree.NoTries, Ascii, FuncIndex, TryFree.Harmless;
    UnitSize(funcs, |funcs|);
    UnitAt(funcs, |funcs|, p);
    var b := C.CompileBody(funcs, C.CompileFuncs(funcs, p).pool, funcs[p]);
    TryFree.BodyClean(funcs, C.CompileFuncs(funcs, p).pool, funcs[p]);
    forall i | 0 <= i < |ch.protos[p].code|
      ensures TryFree.Harmless(funcs, ch.consts, ch.protos[p].code[i])
    {
      assert TryFree.Harmless(funcs, b.pool, b.code[i]);
      HarmlessMore(funcs, b.pool, ch.consts, b.code[i]);
    }
  }

  lemma HarmlessMore(funcs: seq<FuncDecl>, a: seq<Constant>, b: seq<Constant>, ins: Instr)
    requires TryFree.Harmless(funcs, a, ins) && a <= b
    ensures TryFree.Harmless(funcs, b, ins)
  {
    hide FuncIndex, Instr.Bx;
  }

  /**
   Without try, compiled code is code that the obfuscator handles faithfully; only the pool must leave room for
   padding.
   */
  lemma {:induction false} CompiledObfuscable(ch: Chunk, funcs: seq<FuncDecl>)
    requires Fits(funcs) && Safe(funcs) && NoTryAnywhere(funcs) && IsChunkOf(ch, funcs) && |ch.consts| + 63 <= 0x1_0000
    ensures ObfusApply.Obfuscable(ch)
  {
    hide Fits, Safe, NoTryAnywhere, IsChunkOf, Handlers.Balanced;
    HandlerDiscipline.SafeInside(funcs);
    HandlerDiscipline.ChunkExact(ch, funcs);
    forall p | 0 <= p < |ch.protos|
      ensures Obfus.Movable(ch.protos[p].code)
      ensures forall i :: 0 <= i < |ch.protos[p].code| ==> Obfus.InPool(ch.protos[p].code[i], |ch.consts|)
    {
      CodeHarmless(ch, funcs, p);
      CodeMovable(ch.protos[p].code, funcs, ch.consts);
    }
  }

  lemma CodeMovable(code: seq<Instr>, funcs: seq<FuncDecl>, pool: seq<Constant>)
    requires Handlers.Balanced(code) && forall i :: 0 <= i < |code| ==> TryFree.Harmless(funcs, pool, code[i])
    ensures Obfus.Movable(code) && forall i :: 0 <= i < |code| ==> Obfus.InPool(code[i], |pool|)
  {
    hide Handlers.Open, Obfus.InPool, Instr.SBx;
    forall i | 0 <= i < |code|
      ensures code[i].op != TRY && Obfus.InPool(code[i], |pool|)
        && (IsJump(code[i].op) ==> Obfus.Target(code[i], i) >= 0)
    {
      assert TryFree.Harmless(funcs, pool, code[i]);
      if IsJump(code[i].op) {
        assert Handlers.Aims(code[i]) && Handlers.Lands(code, i);
      }
    }
  }

  /** The toolchain theorem for programs without try, with nothing left to ask of the compiled code but its size. */
  lemma TryFreeToolchain(J: Job, mid: Chunk, dst: Chunk, plans: seq<Obfus.Plan>, rest: seq<Byte>, arg: Value,
    globals: map<Text, Value>, t: State, tr: Trace)
    requires Compiled(J) && FuncIndex(J.P.funcs, Ascii("main")) < |J.P.funcs|
    requires NoTryAnywhere(J.P.funcs) && |J.ch.consts| + 63 <= 0x1_0000
    requires ObfusApply.Pooled(J.ch, mid) && |mid.consts| <= |J.ch.consts| + 63
    requires ObfusApply.Expands(mid, dst, plans) && Serialize.Fits(dst)
    ensures var r := Serialize.DecodeBytes(Serialize.EncodeBytes(dst) + rest);
      && r.Got? && r.v == dst
      && (EndsIn(J.P.env, r.v, Start(J.P.env, r.v, arg, globals), t) <==> Means(J.P, arg, globals, t))
      && (Begins(J.P.env, r.v, Start(J.P.env, r.v, arg, globals), tr) <==> MeansFirst(J.P, arg, globals, tr))
  {
    CompiledParts(J);
    hide *;
    CompiledObfuscable(J.ch, J.P.funcs);
    ToolchainCorrect(J, mid, dst, plans, rest, arg, globals, t, tr);
  }

  // ---- with the names wiped ----

  /** No made-up function name is a string of the program. */
  predicate FreshNames(src: Chunk, base: Chunk) { forall x :: x in NamesOf(base) ==> CStr(x) !in src.consts }

  /** Compiled code loads no global under the name of a function: it makes the function instead. */
  lemma {:induction false} CompiledOverlooks(env: Env, ch: Chunk, base: Chunk, funcs: seq<FuncDecl>)
    requires IsChunkOf(ch, funcs) && NoTryAnywhere(funcs) && |ch.consts| <= 0x1_0000 && FreshNames(ch, base)
    ensures AllOverlook(env, ch, NamesOf(ch) + NamesOf(base))
  {
    hide IsChunkOf, NoTryAnywhere, FuncIndex, ConstText, Instr.Bx, NamesOf;
    var N := NamesOf(ch) + NamesOf(base);
    forall p, i | 0 <= p < |ch.protos| && 0 <= i < |ch.protos[p].code|
      ensures Overlooks(env, ch, N, ch.protos[p].code[i])
    {
      CodeHarmless(ch, funcs, p);
      var ins := ch.protos[p].code[i];
      assert TryFree.Harmless(funcs, ch.consts, ins);
      if ins.op == LOADG {
        var k := ch.consts[ins.Bx()];
        TextOf(env, k.s);
        NotAFunction(ch, funcs, k.s);
        assert CStr(k.s) in ch.consts;
      }
    }
  }

  lemma TextOf(env: Env, s: Text)
    ensures ConstText(env, CStr(s)) == s
  {
  }

  lemma {:induction false} NotAFunction(ch: Chunk, funcs: seq<FuncDecl>, x: Text)
    requires IsChunkOf(ch, funcs) && FuncIndex(funcs, x) >= |funcs|
    ensures x !in NamesOf(ch)
  {
    hide C.CompileFuncs, C.CompileBody, Ascii;
    UnitSize(funcs, |funcs|);
    forall i | 0 <= i < |ch.protos|
      ensures ch.protos[i].name != x
    {
      UnitAt(funcs, |funcs|, i);
      FuncIndexFinds(funcs, i);
    }
  }

  lemma {:induction false} FuncIndexFinds(funcs: seq<FuncDecl>, i: nat)
    requires i < |funcs|
    ensures FuncIndex(funcs, funcs[i].name) < |funcs|
    decreases |funcs|
  {
    var n := |funcs| - 1;
    if funcs[n].name != funcs[i].name {
      assert funcs[..n][i] == funcs[i];
      FuncIndexFinds(funcs[..n], i);
    }
  }

  /** The source semantics ends like t, perhaps with other globals under the names N. */
  ghost predicate MeansLike(N: set<Text>, P: Prog, arg: Value, globals: map<Text, Value>, t: State)
    requires FuncIndex(P.funcs, Ascii("main")) < |P.funcs|
  {
    exists u :: Like(N, u, t) && u.Halted? && Means(P, arg, globals, u)
  }

  /**
   The whole toolchain as it is by default, for programs without try: compile, wipe the names, pad and permute the pool,
   expand, encode, decode, run.  The run ends as the source semantics says, but for globals under function names, and
   begins, whether it ends or not, with the same operations and native calls.
   */
  lemma WholeToolchain(J: Job, base: Chunk, mid: Chunk, dst: Chunk, plans: seq<Obfus.Plan>, rest: seq<Byte>, arg: Value,
    globals: map<Text, Value>, t: State, tr: Trace)
    requires Compiled(J) && FuncIndex(J.P.funcs, Ascii("main")) < |J.P.funcs|
    requires NoTryAnywhere(J.P.funcs) && |J.ch.consts| + 63 <= 0x1_0000
    requires Wiped(J.ch, base) && FreshNames(J.ch, base)
    requires ObfusApply.Pooled(base, mid) && |mid.consts| <= |base.consts| + 63
    requires ObfusApply.Expands(mid, dst, plans) && Serialize.Fits(dst)
    ensures var r := Serialize.DecodeBytes(Serialize.EncodeBytes(dst) + rest);
      var N := NamesOf(J.ch) + NamesOf(base);
      && r.Got? && r.v == dst
      && (EndsLike(N, J.P.env, r.v, Start(J.P.env, r.v, arg, globals), t) <==> MeansLike(N, J.P, arg, globals, t))
      && (Begins(J.P.env, r.v, Start(J.P.env, r.v, arg, globals), tr) <==> MeansFirst(J.P, arg, globals, tr))
  {
    CompiledParts(J);
    MainIndexFits(J, base, mid, dst, plans);
    hide *;
    CompiledObfuscable(J.ch, J.P.funcs);
    CompiledOverlooks(J.P.env, J.ch, base, J.P.funcs);
    Serialize.RoundTrip(dst, rest);
    ObfusApply.ApplyCorrect(J.P.env, J.ch, base, mid, dst, plans, arg, globals, t, tr);
    CompiledLike(J, NamesOf(J.ch) + NamesOf(base), arg, globals, t, tr);
  }

  lemma CompiledLike(J: Job, N: set<Text>, arg: Value, globals: map<Text, Value>, t: State, tr: Trace)
    requires Compiled(J) && FuncIndex(J.P.funcs, Ascii("main")) < |J.P.funcs|
    ensures EndsLike(N, J.P.env, J.ch, Start(J.P.env, J.ch, arg, globals), t) <==> MeansLike(N, J.P, arg, globals, t)
    ensures Begins(J.P.env, J.ch, Start(J.P.env, J.ch, arg, globals), tr) <==> MeansFirst(J.P, arg, globals, tr)
  {
    hide Compiled, Start, FuncIndex, Ascii, Like, Means, Begins, MeansFirst, Run;
    CompiledMeans(J, arg, globals, t, tr);
    forall u
      ensures EndsIn(J.P.env, J.ch, Start(J.P.env, J.ch, arg, globals), u) <==> Means(J.P, arg, globals, u)
    {
      CompiledMeans(J, arg, globals, u, tr);
    }
  }

  lemma CompiledParts(J: Job)
    requires Compiled(J)
    ensures Fits(J.P.funcs) && Safe(J.P.funcs) && IsChunkOf(J.ch, J.P.funcs)
  {
    hide Fits, Safe, IsChunkOf;
  }
}
