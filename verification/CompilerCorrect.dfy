/** Whole programs: a compiled chunk halts exactly as the source semantics says. */
module CompilerCorrect {
  import opened Bytecode
  import opened Ast
  import opened Vm
  import opened Semantics
  import opened MachineSteps
  import opened Compiler
  import opened CompilerShape
  import opened StmtShape
  import opened ExprBase
  import opened ExprCorrect
  import opened StmtBase
  import opened StmtSimple
  import opened StmtCorrect

  /** The compiler reported no error, ran out of neither registers nor operand bits, and its jumps fit 16 bits. */
  predicate Fits(funcs: seq<FuncDecl>) {
    var u := CompileFuncs(funcs, |funcs|);
    && u.errs == 0 && u.peak <= 254 && u.keys <= 255 && |u.pool| <= 0x1_0000 && |funcs| <= 0x1_0000
    && forall i :: 0 <= i < |u.protos| ==> |u.protos[i].code| < 0x8000
  }

  function ParamSet(params: seq<Text>): set<Text> { set p | p in params }

  /** No function assigns unsafely, or breaks out of a try. */
  predicate Safe(funcs: seq<FuncDecl>) {
    forall i :: 0 <= i < |funcs| ==> SafeStmts(funcs[i].body, ParamSet(funcs[i].params), false, false)
  }

  /** The chunk that the functions compile to. */
  predicate IsChunkOf(ch: Chunk, funcs: seq<FuncDecl>) {
    var u := CompileFuncs(funcs, |funcs|);
    ch.consts == u.pool && ch.protos == u.protos && ch.mainIndex == FuncIndex(funcs, Ascii("main"))
  }

  ghost predicate Compiled(J: Job) {
    Fits(J.P.funcs) && Safe(J.P.funcs) && IsChunkOf(J.ch, J.P.funcs)
  }

  // ---- functions ----

  lemma BodyShape(funcs: seq<FuncDecl>, pool: seq<Constant>, f: FuncDecl)
    ensures var st0 := InitCS(pool, f.params);
      var b := CompileBlock(funcs, st0, f.body);
      var st := CompileBody(funcs, pool, f);
      && st == Emit(b, MakeABC(RETN, 0, 0, 0)) && Grows(st0, b) && b.loops == [] && LoopsGrow(st0, b)
      && pool <= st.pool && st.pool == b.pool && st.errs == b.errs && st.peak == b.peak && st.keys == b.keys
        && st.code == b.code + [MakeABC(RETN, 0, 0, 0)]
  {
    hide CompileBlock;
    SShapeBlock(funcs, InitCS(pool, f.params), f.body);
    SLoops(InitCS(pool, f.params), CompileBlock(funcs, InitCS(pool, f.params), f.body));
  }

  /** Each function's code and constants are in the finished unit. */
  lemma {:induction false} UnitAt(funcs: seq<FuncDecl>, n: nat, ix: nat)
    requires ix < n <= |funcs|
    ensures var u := CompileFuncs(funcs, n);
      var f := funcs[ix];
      var st := CompileBody(funcs, CompileFuncs(funcs, ix).pool, f);
      && |u.protos| == n && u.protos[ix].name == f.name && u.protos[ix].code == st.code
        && u.protos[ix].numParams == |f.params| % 0x100
      && st.pool <= u.pool && st.errs <= u.errs && st.peak <= u.peak && st.keys <= u.keys
    decreases n
  {
    hide CompileBody;
    hide FinishRegs;
    var prev := CompileFuncs(funcs, n - 1);
    BodyShape(funcs, prev.pool, funcs[n - 1]);
    if ix < n - 1 {
      UnitAt(funcs, n - 1, ix);
    } else if n > 1 {
      UnitAt(funcs, n - 1, n - 2);
    }
  }

  lemma UnitSize(funcs: seq<FuncDecl>, n: nat)
    requires n <= |funcs|
    ensures |CompileFuncs(funcs, n).protos| == n
  {
    if n > 0 {
      UnitAt(funcs, n, 0);
    }
  }

  lemma CompiledJob(J: Job)
    requires Compiled(J)
    ensures JobOk(J)
  {
    hide CompileFuncs;
    UnitSize(J.P.funcs, |J.P.funcs|);
  }

  lemma {:induction false} ParamsBound(params: seq<Text>)
    ensures BindParams(params).Keys == ParamSet(params)
    decreases |params|
  {
    if params != [] {
      ParamsBound(params[..|params| - 1]);
      assert params == params[..|params| - 1] + [params[|params| - 1]];
    }
  }

  function Count(n: nat): seq<int> { seq(n, i => i) }

  lemma {:induction false} ParamsView(params: seq<Text>, args: seq<Value>, n: nat)
    requires n <= |params| <= 0x100
    ensures View(BindParams(params[..n]), BindArgs(params, args)[..n], Count(n))
    decreases n
  {
    if n > 0 {
      ParamsView(params, args, n - 1);
      assert params[..n][..n - 1] == params[..n - 1];
      assert BindArgs(params, args)[..n] == BindArgs(params, args)[..n - 1] + [BindArgs(params, args)[n - 1]];
      assert Count(n) == Count(n - 1) + [n - 1];
      LetView(BindParams(params[..n - 1]), BindArgs(params, args)[..n - 1], Count(n - 1), params[n - 1],
        BindArgs(params, args)[n - 1].v, n - 1);
    }
  }

  lemma ArgsBound(ch: Chunk, ix: nat, params: seq<Text>, args: seq<Value>)
    requires NumParams(ch, ix) == |params|
    ensures Bound(BindArgs(params, args), Count(|params|), NewFrame(ch, ix, NoUpvals, args, 0).regs)
  {
  }

  lemma InitReady(pool: seq<Constant>, params: seq<Text>, ch: Chunk, ix: nat, args: seq<Value>)
    requires |params| <= 254 && NumParams(ch, ix) == |params|
    ensures Ready(InitCS(pool, params), BindArgs(params, args), Count(|params|),
      NewFrame(ch, ix, NoUpvals, args, 0).regs, {})
    ensures InitCS(pool, params).locals.Keys == ParamSet(params)
  {
    ParamsView(params, args, |params|);
    ParamsBound(params);
    assert params[..|params|] == params && BindArgs(params, args)[..|params|] == BindArgs(params, args);
    ArgsBound(ch, ix, params, args);
    var st := InitCS(pool, params);
    forall x | x in st.locals
      ensures Held(st, st.locals[x])
    {
      assert st.locals[x] == Count(|params|)[Position(BindArgs(params, args), x)];
    }
  }

  lemma PlacedWhole(J: Job, k: Ctl, st0: CS, b: CS)
    requires JobOk(J) && Fine(b) && k.proto < |J.ch.protos| && st0.loops == [] && b.loops == [] && st0.code == []
    requires J.ch.protos[k.proto].code == b.code + [MakeABC(RETN, 0, 0, 0)] && b.pool <= J.ch.consts
    ensures Placed(Site(J, k, 0, false, false), st0, b) && Fetches(J, k, |b.code|, MakeABC(RETN, 0, 0, 0))
  {
    forall i
      ensures !NewBreak(st0, b, i)
    {
      SameLoopsNoBreak(st0, b, i);
    }
    hide NewBreak;
    hide JobOk;
    hide Leap;
  }

  lemma CompiledAt(J: Job, ix: nat)
    requires Compiled(J) && ix < |J.P.funcs|
    ensures var f := J.P.funcs[ix];
      var st := CompileBody(J.P.funcs, CompileFuncs(J.P.funcs, ix).pool, f);
      && JobOk(J) && J.ch.protos[ix].code == st.code && J.ch.protos[ix].numParams == |f.params| % 0x100
      && st.pool <= J.ch.consts && Fine(st) && SafeStmts(f.body, ParamSet(f.params), false, false)
  {
    CompiledJob(J);
    UnitAt(J.P.funcs, |J.P.funcs|, ix);
    hide CompileFuncs;
    hide CompileBody;
    hide SafeStmts;
    hide JobOk;
  }

  /** The body runs in its own frame: where its code lies. */
  lemma BodyPlaced(J: Job, k: Ctl, ix: nat)
    requires Compiled(J) && ix < |J.P.funcs| && k.proto == ix
    ensures var f := J.P.funcs[ix];
      var st0 := InitCS(CompileFuncs(J.P.funcs, ix).pool, f.params);
      var b := CompileBlock(J.P.funcs, st0, f.body);
      && Placed(Site(J, k, 0, false, false), st0, b) && Fetches(J, k, |b.code|, MakeABC(RETN, 0, 0, 0))
      && |f.params| <= 254 && NumParams(J.ch, ix) == |f.params| && SafeStmts(f.body, ParamSet(f.params), false, false)
  {
    hide *;
    var funcs := J.P.funcs;
    var f := funcs[ix];
    var pool := CompileFuncs(funcs, ix).pool;
    var st0 := InitCS(pool, f.params);
    var b := CompileBlock(funcs, st0, f.body);
    CompiledAt(J, ix);
    BodyShape(funcs, pool, f);
    InitStart(pool, f.params);
    FewParams(st0, b, CompileBody(funcs, pool, f), pool, f.params, J, ix);
    PlacedWhole(J, k, st0, b);
  }

  lemma FewParams(st0: CS, b: CS, st: CS, pool: seq<Constant>, params: seq<Text>, J: Job, ix: nat)
    requires st0 == InitCS(pool, params) && Grows(st0, b) && Fine(st) && st.peak == b.peak && st.keys == b.keys
      && st.errs == b.errs
    requires JobOk(J) && ix < |J.P.funcs| && J.ch.protos[ix].numParams == |params| % 0x100
    ensures |params| <= 254 && NumParams(J.ch, ix) == |params| && Fine(b) && ix < |J.ch.protos|
  {
  }

  lemma CallEndsIntro(J: Job, k: Ctl, ix: nat, args: seq<Value>, w: World, fuel: nat, r: Result, n: nat, regs': Regs)
    requires ix < |J.P.funcs| && r == CallFunc(J.P, ix, args, w, fuel)
    requires var s := At(k, 0, NewFrame(J.ch, ix, NoUpvals, args, 0).regs, w);
      && (r.Val? ==> n >= 1 && Goes(J, s, n, Returned(J, k, r.w, r.v)))
      && (r.Fails? ==> n >= 1 && Goes(J, s, n, Throwing(J, k, regs', r.w, r.msg)))
      && (r.Timeout? ==> Lives(J, s, fuel, r.w))
    ensures CallEnds(J, k, ix, args, w, fuel)
  {
    hide CallFunc;
    hide Goes;
    hide Lives;
    hide Returned;
    hide Throwing;
    hide NewFrame;
  }

  lemma CallFuncIs(P: Prog, ix: nat, args: seq<Value>, w: World, fuel: nat)
    requires ix < |P.funcs|
    ensures var eff := ExecBlock(P, BindArgs(P.funcs[ix].params, args), P.funcs[ix].body, w, fuel);
      CallFunc(P, ix, args, w, fuel) ==
        if !eff.Done? then Timeout(eff.w)
        else if eff.sig.Ret? then Val(eff.sig.v, eff.w)
        else if eff.sig.Thrown? then Fails(eff.sig.msg, eff.w)
        else Val(Null, eff.w)
  {
    hide ExecBlock;
  }

  /** What a body's end means for its caller. */
  lemma BodyReturns(J: Job, k: Ctl, s: State, ip: int, E: Scope, rs: seq<int>, regs: Regs, eff: Effect, fuel: nat,
    n: nat, regs': Regs)
    returns (m: nat)
    requires SEnds(Site(J, k, 0, false, false), s, ip, 0, {}, E, rs, regs, eff, fuel, n, regs', rs)
    requires Fetches(J, k, ip, MakeABC(RETN, 0, 0, 0))
    ensures eff.Done? && !eff.sig.Thrown? ==>
      m >= 1 && Goes(J, s, m, Returned(J, k, eff.w, if eff.sig.Ret? then eff.sig.v else Null))
    ensures eff.Done? && eff.sig.Thrown? ==> m >= 1 && Goes(J, s, m, Throwing(J, k, regs', eff.w, eff.sig.msg))
    ensures !eff.Done? ==> Lives(J, s, fuel, eff.w)
  {
    hide Returned;
    hide Throwing;
    hide Bound;
    hide Same;
    m := n;
    if eff.Done? && eff.sig == Next {
      StepReturn(J, k, ip, regs', eff.w, MakeABC(RETN, 0, 0, 0));
      hide Goes;
      m := n + 1;
      GoesTrans(J, s, n, At(k, ip, regs', eff.w), 1, Returned(J, k, eff.w, Null));
    }
  }

  lemma {:induction false} FuncCorrect(J: Job, k: Ctl, ix: nat, args: seq<Value>, w: World, fuel: nat)
    requires Compiled(J) && ix < |J.P.funcs| && k.proto == ix && k.tries == [] && CallsOk(J, fuel)
    ensures CallEnds(J, k, ix, args, w, fuel)
  {
    hide *;
    var f := J.P.funcs[ix];
    var pool := CompileFuncs(J.P.funcs, ix).pool;
    var st0 := InitCS(pool, f.params);
    var b := CompileBlock(J.P.funcs, st0, f.body);
    var X := Site(J, k, 0, false, false);
    var E := BindArgs(f.params, args);
    var regs := NewFrame(J.ch, ix, NoUpvals, args, 0).regs;
    BodyPlaced(J, k, ix);
    InitReady(pool, f.params, J.ch, ix, args);
    InitStart(pool, f.params);
    CallFuncIs(J.P, ix, args, w, fuel);
    var eff := ExecBlock(J.P, E, f.body, w, fuel);
    var n, regs' := BlockCorrect(X, st0, f.body, E, Count(|f.params|), regs, w, {}, fuel);
    var m := BodyReturns(J, k, At(k, 0, regs, w), |b.code|, E, Count(|f.params|), regs, eff, fuel, n, regs');
    CallEndsIntro(J, k, ix, args, w, fuel, CallFunc(J.P, ix, args, w, fuel), m, regs');
  }

  lemma InitStart(pool: seq<Constant>, params: seq<Text>)
    ensures InitCS(pool, params).code == [] && InitCS(pool, params).loops == [] && ContOf(InitCS(pool, params)) == 0
  {
  }

  /** Every call of every function, with any fuel, from any frame, ends as the semantics says. */
  lemma {:induction false} AllCalls(J: Job, fuel: nat)
    requires Compiled(J)
    ensures CallsOk(J, fuel)
    decreases fuel
  {
    hide Compiled;
    if fuel > 0 {
      AllCalls(J, fuel - 1);
      forall k: Ctl, ix: nat, args, w, f: nat | f < fuel && ix < |J.P.funcs| && k.proto == ix && k.tries == []
        ensures CallEnds(J, k, ix, args, w, f)
      {
        if f == fuel - 1 {
          FuncCorrect(J, k, ix, args, w, f);
        }
      }
    }
    hide CallEnds;
  }

  // ---- programs ----

  /** Function names are globals; the last of a name wins. */
  function BindFuncs(funcs: seq<FuncDecl>, globals: map<Text, Value>): map<Text, Value>
    decreases |funcs|
  {
    if funcs == [] then globals else
    var n := |funcs| - 1;
    var g := BindFuncs(funcs[..n], globals);
    if funcs[n].name == [] || funcs[n].name == Ascii("<main>") then g else g[funcs[n].name := Func(n, NoUpvals)]
  }

  lemma {:induction false} SameNames(funcs: seq<FuncDecl>, protos: seq<Proto>, globals: map<Text, Value>)
    requires |protos| == |funcs| && forall i :: 0 <= i < |funcs| ==> protos[i].name == funcs[i].name
    ensures BindNames(protos, globals) == BindFuncs(funcs, globals)
    decreases |funcs|
  {
    if funcs != [] {
      SameNames(funcs[..|funcs| - 1], protos[..|funcs| - 1], globals);
    }
  }

  /** The meaning of a program: the last function named main, applied to the argument array. */
  function RunSource(P: Prog, arg: Value, globals: map<Text, Value>, fuel: nat): Result
    requires FuncIndex(P.funcs, Ascii("main")) < |P.funcs|
  {
    CallFunc(P, FuncIndex(P.funcs, Ascii("main")), [arg], World(BindFuncs(P.funcs, globals + P.env.modules), []), fuel)
  }

  /** The state in which a machine halts that does what the source does. */
  function HaltOf(r: Result): State
    requires !r.Timeout?
  {
    if r.Val? then Halted(Ok(r.v), r.w.globals, r.w.trace) else Halted(Err(FirstLine(r.msg)), r.w.globals, r.w.trace)
  }

  function MainCtl(ix: nat): Ctl { Ctl([], [], ix, NoUpvals, 0, []) }

  lemma StartIs(J: Job, arg: Value, globals: map<Text, Value>)
    requires Compiled(J) && FuncIndex(J.P.funcs, Ascii("main")) < |J.P.funcs|
    ensures var ix := FuncIndex(J.P.funcs, Ascii("main"));
      Start(J.P.env, J.ch, arg, globals) ==
        At(MainCtl(ix), 0, NewFrame(J.ch, ix, NoUpvals, [arg], 0).regs,
          World(BindFuncs(J.P.funcs, globals + J.P.env.modules), []))
  {
    CompiledJob(J);
    var funcs := J.P.funcs;
    forall i | 0 <= i < |funcs|
      ensures J.ch.protos[i].name == funcs[i].name
    {
      UnitAt(funcs, |funcs|, i);
    }
    SameNames(funcs, J.ch.protos, globals + J.P.env.modules);
    var ix := FuncIndex(funcs, Ascii("main"));
    assert [] + [Top(MainCtl(ix), 0, NewFrame(J.ch, ix, NoUpvals, [arg], 0).regs)] ==
      [NewFrame(J.ch, ix, NoUpvals, [arg], 0)];
    hide CompileFuncs;
    hide BindNames;
    hide BindFuncs;
    hide Ascii;
  }

  lemma MainReturns(J: Job, ix: nat, w: World, v: Value)
    ensures Returned(J, MainCtl(ix), w, v) == Halted(Ok(v), w.globals, w.trace)
  {
    var k := MainCtl(ix);
    assert ([] + [Top(k, 0, map[])])[..0] == [];
  }

  lemma MainThrows(J: Job, ix: nat, regs: Regs, w: World, msg: Text)
    ensures Throwing(J, MainCtl(ix), regs, w, msg) == Halted(Err(FirstLine(msg)), w.globals, w.trace)
  {
    var k := MainCtl(ix);
    assert [] + [Top(k, 0, regs)] == [Top(k, 0, regs)];
    UnwindNone(Top(k, 0, regs), msg);
  }

  /**
   Compiler correctness.  The compiled chunk, started by VM.Run, halts with the result, the globals and the trace of
   primitive operations and native calls that the source semantics gives; and as long as the semantics needs more
   fuel, the machine is running after as many steps or more, with the globals and the trace of the semantics so far.
   */
  lemma {:induction false} ProgramCorrect(J: Job, arg: Value, globals: map<Text, Value>, fuel: nat)
    returns (n: nat)
    requires Compiled(J) && FuncIndex(J.P.funcs, Ascii("main")) < |J.P.funcs|
    ensures var r := RunSource(J.P, arg, globals, fuel);
      var s := Start(J.P.env, J.ch, arg, globals);
      if r.Timeout? then
        var t := Run(J.P.env, J.ch, s, n);
        n >= fuel && t.Running? && t.vm.globals == r.w.globals && t.vm.trace == r.w.trace
      else Run(J.P.env, J.ch, s, n) == HaltOf(r)
  {
    hide *;
    var ix := FuncIndex(J.P.funcs, Ascii("main"));
    var k := MainCtl(ix);
    var w := World(BindFuncs(J.P.funcs, globals + J.P.env.modules), []);
    AllCalls(J, fuel + 1);
    MainCtlIs(ix);
    CallEndsElim(J, k, ix, [arg], w, fuel);
    StartIs(J, arg, globals);
    var r := CallFunc(J.P, ix, [arg], w, fuel);
    SourceIs(J.P, arg, globals, fuel);
    var m, regs' := CallEndsRun(J, k, ix, [arg], w, fuel);
    n := m;
    if r.Val? {
      MainReturns(J, ix, r.w, r.v);
    } else if r.Fails? {
      MainThrows(J, ix, regs', r.w, r.msg);
    } else {
      ShowsIs(J, Start(J.P.env, J.ch, arg, globals), m, r.w);
    }
    HaltIs(r);
  }

  lemma MainCtlIs(ix: nat)
    ensures MainCtl(ix) == Ctl([], [], ix, NoUpvals, 0, [])
  {
  }

  lemma SourceIs(P: Prog, arg: Value, globals: map<Text, Value>, fuel: nat)
    requires FuncIndex(P.funcs, Ascii("main")) < |P.funcs|
    ensures RunSource(P, arg, globals, fuel) ==
      CallFunc(P, FuncIndex(P.funcs, Ascii("main")), [arg], World(BindFuncs(P.funcs, globals + P.env.modules), []),
        fuel)
  {
    hide CallFunc;
    hide BindFuncs;
  }

  lemma ShowsIs(J: Job, s: State, n: nat, w: World)
    requires Shows(J, s, n, w)
    ensures var t := Run(J.P.env, J.ch, s, n); t.Running? && t.vm.globals == w.globals && t.vm.trace == w.trace
  {
    hide Run;
  }

  lemma HaltIs(r: Result)
    ensures r.Val? ==> HaltOf(r) == Halted(Ok(r.v), r.w.globals, r.w.trace)
    ensures r.Fails? ==> HaltOf(r) == Halted(Err(FirstLine(r.msg)), r.w.globals, r.w.trace)
  {
    hide FirstLine;
  }

  lemma CallEndsElim(J: Job, k: Ctl, ix: nat, args: seq<Value>, w: World, fuel: nat)
    requires CallsOk(J, fuel + 1) && ix < |J.P.funcs| && k.proto == ix && k.tries == []
    ensures CallEnds(J, k, ix, args, w, fuel)
  {
    hide CallEnds;
  }

  lemma CallEndsRun(J: Job, k: Ctl, ix: nat, args: seq<Value>, w: World, fuel: nat)
    returns (n: nat, regs': Regs)
    requires ix < |J.P.funcs| && CallEnds(J, k, ix, args, w, fuel)
    ensures var s := At(k, 0, NewFrame(J.ch, ix, NoUpvals, args, 0).regs, w);
      var r := CallFunc(J.P, ix, args, w, fuel);
      && (r.Val? ==> Run(J.P.env, J.ch, s, n) == Returned(J, k, r.w, r.v))
      && (r.Fails? ==> Run(J.P.env, J.ch, s, n) == Throwing(J, k, regs', r.w, r.msg))
      && (r.Timeout? ==> n >= fuel && Shows(J, s, n, r.w))
  {
    hide CallFunc;
    hide Returned;
    hide Throwing;
    hide NewFrame;
    hide At;
    hide Run;
    var s := At(k, 0, NewFrame(J.ch, ix, NoUpvals, args, 0).regs, w);
    var r := CallFunc(J.P, ix, args, w, fuel);
    n, regs' := 0, map[];
    if r.Val? {
      n :| n >= 1 && Goes(J, s, n, Returned(J, k, r.w, r.v));
    } else if r.Fails? {
      n, regs' :| n >= 1 && Goes(J, s, n, Throwing(J, k, regs', r.w, r.msg));
    } else {
      n :| n >= fuel && Shows(J, s, n, r.w);
    }
  }

  /** Conversely: however a compiled program halts, the source semantics halts in the same way. */
  lemma {:induction false} ProgramExact(J: Job, arg: Value, globals: map<Text, Value>, n: nat)
    requires Compiled(J) && FuncIndex(J.P.funcs, Ascii("main")) < |J.P.funcs|
    requires Run(J.P.env, J.ch, Start(J.P.env, J.ch, arg, globals), n).Halted?
    ensures !RunSource(J.P, arg, globals, n).Timeout?
    ensures Run(J.P.env, J.ch, Start(J.P.env, J.ch, arg, globals), n) == HaltOf(RunSource(J.P, arg, globals, n))
  {
    hide Compiled;
    hide RunSource;
    hide Start;
    hide Ascii;
    hide FuncIndex;
    var s := Start(J.P.env, J.ch, arg, globals);
    var m := ProgramCorrect(J, arg, globals, n);
    if RunSource(J.P, arg, globals, n).Timeout? {
      AliveMono(J.P.env, J.ch, s, n, m);
      assert false;
    }
    hide HaltOf;
    HaltsOnce(J.P.env, J.ch, s, m, n);
  }
}
