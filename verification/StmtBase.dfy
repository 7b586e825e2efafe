/** The setting in which the code of a statement runs, and what it means that the code ends as the semantics says. */
module StmtBase {
  import opened Bytecode
  import opened Ast
  import opened Vm
  import opened Semantics
  import opened MachineSteps
  import opened Compiler
  import opened CompilerShape
  import opened StmtShape
  import opened ExprBase

  /** Where a statement runs: the job, the frame, the target of its breaks, whether it may break or continue out of
      itself, and whether a handler of the same frame is active. */
  datatype Site = Site(J: Job, k: Ctl, bk: int, brk: bool, inTry: bool)

  /** Register rs[i] holds the value of binding i. */
  ghost predicate Bound(E: Scope, rs: seq<int>, regs: Regs) {
    |rs| == |E| && forall i :: 0 <= i < |E| ==> Get(regs, rs[i]) == E[i].v
  }

  /** The compiler's name table shows the innermost binding of every name. */
  ghost predicate View(locals: map<Text, Byte>, E: Scope, rs: seq<int>) {
    && |rs| == |E|
    && forall x: Text :: (x in locals <==> Position(E, x) >= 0) && (x in locals ==> locals[x] == rs[Position(E, x)])
  }

  ghost predicate Distinct(rs: seq<int>) { forall i, j :: 0 <= i < j < |rs| ==> rs[i] != rs[j] }

  function Live(keep: set<int>, rs: seq<int>): set<int> { keep + set r | r in rs }

  /** The scope is in its registers; `keep` are the other registers in use. */
  ghost predicate Ready(st: CS, E: Scope, rs: seq<int>, regs: Regs, keep: set<int>) {
    && Inv(st) && View(st.locals, E, rs) && Bound(E, rs, regs) && Distinct(rs)
    && (forall q :: q in rs ==> Held(st, q))
    && (forall q :: q in keep ==> Held(st, q) && q !in rs)
  }

  function Leap(ip: int, target: int): Instr { MakeAsBx(JMP, 0, ToI16(target - ip - 1)) }

  /** Where a continue of the innermost loop goes. */
  function ContOf(st: CS): int { if st.loops == [] then 0 else st.loops[|st.loops| - 1].cont }

  /** The running code agrees with what was emitted between the two states, the recorded breaks aimed at bk. */
  ghost predicate Placed(X: Site, st: CS, st': CS) {
    && JobOk(X.J) && Fine(st')
    && X.k.proto < |X.J.ch.protos|
    && |st.code| <= |st'.code| <= |X.J.ch.protos[X.k.proto].code|
    && (forall i :: |st.code| <= i < |st'.code| ==>
         X.J.ch.protos[X.k.proto].code[i] == if NewBreak(st, st', i) then Leap(i, X.bk) else st'.code[i])
    && st'.pool <= X.J.ch.consts
    && 0 <= X.bk < 0x8000 && 0 <= ContOf(st) < 0x8000
  }

  /** Same names in the same places, perhaps with bindings added. */
  ghost predicate Grown(E: Scope, E': Scope) {
    |E| <= |E'| && forall i :: 0 <= i < |E| ==> E'[i].name == E[i].name
  }

  /** From s, the machine ends as the effect says. */
  ghost predicate SEnds(X: Site, s: State, ip': int, ct: int, keep: set<int>, E: Scope, rs: seq<int>, regs: Regs,
    eff: Effect, fuel: nat, n: nat, regs': Regs, rs': seq<int>)
  {
    match eff
    case Stuck(w') => Lives(X.J, s, fuel, w')
    case Done(sig, E', w') =>
      Grown(E, E') &&
      match sig
      case Next => Goes(X.J, s, n, At(X.k, ip', regs', w')) && rs <= rs' && Bound(E', rs', regs')
        && Same(keep, regs, regs')
      case Brk => X.brk && Goes(X.J, s, n, At(X.k, X.bk, regs', w')) && Bound(Trunc(E', |E|), rs, regs')
        && Same(keep, regs, regs')
      case Cont => X.brk && Goes(X.J, s, n, At(X.k, ct, regs', w')) && Bound(Trunc(E', |E|), rs, regs')
        && Same(keep, regs, regs')
      case Ret(v) => n >= 1 && Goes(X.J, s, n, Returned(X.J, X.k, w', v))
      case Thrown(msg) =>
        && n >= 1 && Goes(X.J, s, n, Throwing(X.J, X.k, regs', w', msg)) && Same(keep, regs, regs')
        && (X.inTry ==> Bound(Trunc(E', |E|), rs, regs'))
  }

  lemma BoundTrunc(E: Scope, rs: seq<int>, regs: Regs, n: nat)
    requires Bound(E, rs, regs) && n <= |E|
    ensures Bound(Trunc(E, n), rs[..n], regs)
  {
  }

  lemma GrownTrans(A: Scope, B: Scope, C: Scope)
    requires Grown(A, B) && Grown(B, C)
    ensures Grown(A, C) && Trunc(Trunc(C, |B|), |A|) == Trunc(C, |A|)
  {
  }

  /** What was reached before, and the rest. */
  lemma SSeq(X: Site, s: State, m: nat, t: State, ip': int, ct: int, keep: set<int>, keep1: set<int>, E: Scope,
    rs: seq<int>, regs: Regs, E1: Scope, rs1: seq<int>, regs1: Regs, eff: Effect, fuel: nat, fuel1: nat, n: nat,
    regs': Regs, rs': seq<int>)
    requires fuel <= m + fuel1 && Goes(X.J, s, m, t) && Same(keep, regs, regs1) && Grown(E, E1) && rs <= rs1
      && |rs| == |E| && |rs1| == |E1| && keep <= keep1
    requires SEnds(X, t, ip', ct, keep1, E1, rs1, regs1, eff, fuel1, n, regs', rs')
    ensures SEnds(X, s, ip', ct, keep, E, rs, regs, eff, fuel, m + n, regs', rs')
  {
    hide Goes;
    hide Lives;
    match eff
    case Stuck(w') =>
      LivesAfter(X.J, s, m, t, fuel1, w');
      LivesMono(X.J, s, fuel, m + fuel1, w');
    case Done(sig, E', w') =>
      GrownTrans(E, E1, E');
      assert Bound(Trunc(E', |E1|), rs1, regs') ==> Bound(Trunc(E', |E|), rs, regs') by {
        if Bound(Trunc(E', |E1|), rs1, regs') {
          BoundTrunc(Trunc(E', |E1|), rs1, regs', |E|);
          assert rs1[..|E|] == rs;
        }
      }
      hide Bound;
      hide Trunc;
      hide Grown;
      match sig
      case Next => GoesTrans(X.J, s, m, t, n, At(X.k, ip', regs', w'));
      case Brk => GoesTrans(X.J, s, m, t, n, At(X.k, X.bk, regs', w'));
      case Cont => GoesTrans(X.J, s, m, t, n, At(X.k, ct, regs', w'));
      case Ret(v) => GoesTrans(X.J, s, m, t, n, Returned(X.J, X.k, w', v));
      case Thrown(msg) => GoesTrans(X.J, s, m, t, n, Throwing(X.J, X.k, regs', w', msg));
  }

  /** The end of a block: its own bindings go. */
  lemma SBlock(X: Site, s: State, ip': int, ct: int, keep: set<int>, E: Scope, rs: seq<int>, regs: Regs, eff: Effect,
    eff': Effect, fuel: nat, n: nat, regs': Regs, rs': seq<int>)
    requires SEnds(X, s, ip', ct, keep, E, rs, regs, eff, fuel, n, regs', rs') && |rs| == |E|
    requires eff' == if eff.Done? then Done(eff.sig, Trunc(eff.env, |E|), eff.w) else Stuck(eff.w)
    ensures SEnds(X, s, ip', ct, keep, E, rs, regs, eff', fuel, n, regs', rs)
    ensures eff'.Done? ==> |eff'.env| == |E|
  {
    hide Goes;
    hide Lives;
    if eff.Done? {
      var E' := eff.env;
      assert Trunc(Trunc(E', |E|), |E|) == Trunc(E', |E|);
      if eff.sig == Next {
        BoundTrunc(E', rs', regs', |E|);
        assert rs'[..|E|] == rs;
      }
    }
  }

  lemma {:induction false} PositionNames(E: Scope, E1: Scope, x: Text)
    requires Grown(E, E1) && |E1| == |E|
    ensures Position(E1, x) == Position(E, x)
    decreases |E|
  {
    if E != [] {
      PositionNames(E[..|E| - 1], E1[..|E| - 1], x);
    }
  }

  lemma ViewNames(locals: map<Text, Byte>, E: Scope, rs: seq<int>, E1: Scope)
    requires View(locals, E, rs) && Grown(E, E1) && |E1| == |E|
    ensures View(locals, E1, rs)
  {
    forall x: Text
      ensures Position(E1, x) == Position(E, x)
    {
      PositionNames(E, E1, x);
    }
  }

  /** After a statement that declares nothing. */
  lemma ReadyAgain(st: CS, E: Scope, rs: seq<int>, regs: Regs, keep: set<int>, st': CS, E': Scope, regs': Regs)
    requires Ready(st, E, rs, regs, keep) && Inv(st') && Keeps(st, st') && st'.locals == st.locals
    requires Grown(E, E') && Bound(E', rs, regs')
    ensures Ready(st', E', rs, regs', keep)
  {
    hide Inv;
    hide Held;
    ViewNames(st.locals, E, rs, E');
  }

  lemma GrownSelf(E: Scope)
    ensures Grown(E, E) && Trunc(E, |E|) == E
  {
  }

  lemma SameBound(E: Scope, rs: seq<int>, regs: Regs, keep: set<int>, regs1: Regs)
    requires Bound(E, rs, regs) && Same(Live(keep, rs), regs, regs1)
    ensures Bound(E, rs, regs1) && Same(keep, regs, regs1)
  {
    assert forall i :: 0 <= i < |rs| ==> rs[i] in Live(keep, rs);
  }

  // ---- the code of a part ----

  /** st'.code holds b's code from a on, but for the breaks that b has still to patch. */
  ghost predicate Part(st: CS, a: CS, b: CS, st': CS) {
    && LoopsGrow(st, a) && LoopsGrow(a, b) && LoopsGrow(b, st') && |st.code| <= |a.code| <= |b.code| <= |st'.code|
    && (forall i :: |a.code| <= i < |b.code| ==> st'.code[i] == b.code[i])
    && b.pool <= st'.pool && b.peak <= st'.peak && b.keys <= st'.keys && b.errs <= st'.errs
  }

  lemma LoopsTrans(a: CS, b: CS, c: CS)
    requires LoopsGrow(a, b) && LoopsGrow(b, c) && |a.code| <= |b.code| <= |c.code|
    ensures LoopsGrow(a, c)
  {
    forall i
      ensures NewBreak(a, c, i) <==> NewBreak(a, b, i) || NewBreak(b, c, i)
    {
      BreakSplit(a, b, c, i);
    }
    hide NewBreak;
  }

  /** Between a and b, the breaks of the whole are those of that part. */
  lemma RegionBreak(st: CS, a: CS, b: CS, st': CS, i: int)
    requires LoopsGrow(st, a) && LoopsGrow(a, b) && LoopsGrow(b, st')
      && |st.code| <= |a.code| <= i < |b.code| <= |st'.code|
    ensures NewBreak(st, st', i) <==> NewBreak(a, b, i)
  {
    LoopsTrans(st, a, b);
    BreakSplit(st, a, b, i);
    BreakSplit(st, b, st', i);
    NoBreak(b, st', i);
    NoBreak(st, a, i);
  }

  lemma PlacedPart(X: Site, st: CS, st': CS, a: CS, b: CS)
    requires Placed(X, st, st') && Part(st, a, b, st')
    ensures Placed(X, a, b) && ContOf(a) == ContOf(st)
  {
    forall i | |a.code| <= i < |b.code|
      ensures NewBreak(st, st', i) <==> NewBreak(a, b, i)
    {
      RegionBreak(st, a, b, st', i);
    }
    hide NewBreak;
    hide Leap;
    assert ContOf(a) == ContOf(st);
  }

  /** Code without statements is hosted as it is. */
  lemma ExprSetting(X: Site, st: CS, st': CS, E: Scope, rs: seq<int>, regs: Regs, keep: set<int>, names: set<Text>)
    requires Placed(X, st, st') && Shape(st, st') && Ready(st, E, rs, regs, keep)
    ensures Base(X.J, X.k, st, st', E, regs, Live(keep, rs), names)
  {
    forall i | |st.code| <= i < |st'.code|
      ensures X.J.ch.protos[X.k.proto].code[i] == st'.code[i]
    {
      NoBreak(st, st', i);
    }
    assert Sees(st.locals, E, regs, Live(keep, rs), names);
    hide Inv;
    hide Held;
    hide NewBreak;
    hide Leap;
  }

  /** An instruction of a part is the machine's. */
  lemma FetchPart(X: Site, st: CS, st': CS, i: int)
    requires Placed(X, st, st') && |st.code| <= i < |st'.code| && !NewBreak(st, st', i)
    ensures Fetches(X.J, X.k, i, st'.code[i])
  {
  }

  lemma FetchBreak(X: Site, st: CS, st': CS, i: int)
    requires Placed(X, st, st') && |st.code| <= i < |st'.code| && NewBreak(st, st', i)
    ensures Fetches(X.J, X.k, i, Leap(i, X.bk))
  {
    hide Leap;
  }

  lemma LeapStep(X: Site, ip: int, target: int, regs: Regs, w: World)
    requires Fetches(X.J, X.k, ip, Leap(ip, target)) && 0 <= target < 0x8000 && 0 <= ip < 0x7fff
    ensures Goes(X.J, At(X.k, ip, regs, w), 1, At(X.k, target, regs, w))
  {
    hide Goes;
    StepJump(X.J, X.k, ip, regs, w, Leap(ip, target));
  }
}
