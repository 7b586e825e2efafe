/** The setting in which the code of an expression runs, and what it means that the code ends as the semantics says. */
module ExprBase {
  import opened Bytecode
  import opened Ast
  import opened Vm
  import opened Semantics
  import opened MachineSteps
  import opened Compiler
  import opened CompilerShape

  /** Same function indices, and operands that fit their fields. */
  ghost predicate JobOk(J: Job) {
    && |J.ch.consts| <= 0x1_0000
    && |J.ch.protos| == |J.P.funcs| <= 0x1_0000
    && forall i :: 0 <= i < |J.ch.protos| ==> |J.ch.protos[i].code| < 0x8000
  }

  /** The running code agrees with what was emitted between the two states. */
  ghost predicate Hosted(J: Job, k: Ctl, st: CS, st': CS) {
    && k.proto < |J.ch.protos|
    && |st.code| <= |st'.code| <= |J.ch.protos[k.proto].code|
    && (forall i :: |st.code| <= i < |st'.code| ==> J.ch.protos[k.proto].code[i] == st'.code[i])
    && st'.pool <= J.ch.consts
  }

  /** The names an expression reads. */
  function Mentions(e: Expr): set<Text>
    decreases e, 0
  {
    match e
    case Lit(_) => {}
    case Ident(name) => {name}
    case Unary(_, x) => Mentions(x)
    case Binary(_, l, r) => Mentions(l) + Mentions(r)
    case Ternary(c, t, f) => Mentions(c) + Mentions(t) + Mentions(f)
    case Call(f, args) => Mentions(f) + MentionsList(args)
    case Index(x, i) => Mentions(x) + Mentions(i)
    case Field(x, _) => Mentions(x)
    case ArrayLit(es) => MentionsList(es)
    case MapLit(entries) => MentionsEntries(entries)
  }

  function MentionsList(es: seq<Expr>): set<Text>
    decreases es, 0
  {
    if es == [] then {} else Mentions(es[0]) + MentionsList(es[1..])
  }

  function MentionsEntries(entries: seq<Entry>): set<Text>
    decreases entries, 0
  {
    if entries == [] then {} else MentionsEntry(entries[0]) + MentionsEntries(entries[1..])
  }

  function MentionsEntry(en: Entry): set<Text>
    decreases en, 0
  {
    Mentions(en.key) + Mentions(en.val)
  }

  /** The named locals hold the values the scope gives them, in live registers. */
  ghost predicate Sees(locals: map<Text, Byte>, E: Scope, regs: Regs, live: set<int>, names: set<Text>) {
    forall x :: x in names ==>
      && (x in locals <==> Position(E, x) >= 0)
      && (x in locals ==> Get(regs, locals[x]) == E[Position(E, x)].v && locals[x] in live)
  }

  ghost predicate Same(keep: set<int>, regs: Regs, regs': Regs) {
    forall q :: q in keep ==> Get(regs', q) == Get(regs, q)
  }

  ghost predicate Base(J: Job, k: Ctl, st: CS, st': CS, E: Scope, regs: Regs, live: set<int>, names: set<Text>) {
    && JobOk(J) && Hosted(J, k, st, st')
    && Inv(st) && Fine(st')
    && (forall q :: q in live ==> Held(st, q))
    && Sees(st.locals, E, regs, live, names)
  }

  /** Does compiling e into dest write dest before e's last read of a local kept there?  && and || leave their left
      value in dest, and a map literal is built in dest. */
  ghost predicate DestOk(locals: map<Text, Byte>, e: Expr, dest: int) {
    match e
    case Binary(op, l, r) =>
      op == AndAnd || op == OrOr ==>
        && DestOk(locals, l, dest) && DestOk(locals, r, dest)
        && (InPlace(locals, l, dest) || Unread(locals, Mentions(r), dest))
    case Ternary(_, t, f) => DestOk(locals, t, dest) && DestOk(locals, f, dest)
    case MapLit(entries) => Unread(locals, MentionsEntries(entries), dest)
    case _ => true
  }

  ghost predicate InPlace(locals: map<Text, Byte>, e: Expr, dest: int) {
    e.Ident? && e.name in locals && locals[e.name] == dest
  }

  ghost predicate Unread(locals: map<Text, Byte>, names: set<Text>, dest: int) {
    forall x :: x in names && x in locals ==> locals[x] != dest
  }

  /** The expression's code writes its destination with its last instruction only. */
  predicate Atomic(e: Expr) {
    match e
    case Binary(op, _, _) => op != AndAnd && op != OrOr
    case Ternary(_, t, f) => Atomic(t) && Atomic(f)
    case MapLit(_) => false
    case _ => true
  }

  /** From s, the machine ends as the result says: at ip' with the value in dest; or raising the error; or, when the
      interpreter ran out of fuel, still running after that many steps, with the globals and the trace there are. */
  ghost predicate Ends(J: Job, s: State, k: Ctl, ip': int, dest: int, keep: set<int>, regs: Regs, r: Result, fuel: nat,
    atomic: bool, n: nat, regs': Regs)
  {
    match r
    case Val(v, w') => Goes(J, s, n, At(k, ip', regs', w')) && Get(regs', dest) == v && Same(keep, regs, regs')
    case Fails(msg, w') =>
      && n >= 1 && Goes(J, s, n, Throwing(J, k, regs', w', msg)) && Same(keep, regs, regs')
      && (atomic ==> Get(regs', dest) == Get(regs, dest))
    case Timeout(w') => Lives(J, s, fuel, w')
  }

  /** On the way from s: the machine has reached ip with the live registers of the start unchanged. */
  ghost predicate Reached(J: Job, s: State, n: nat, k: Ctl, ip: int, live: set<int>, regs0: Regs, regs: Regs,
    w: World) {
    Goes(J, s, n, At(k, ip, regs, w)) && Same(live, regs0, regs)
  }

  lemma ReachStart(J: Job, k: Ctl, ip: int, live: set<int>, regs: Regs, w: World)
    ensures Reached(J, At(k, ip, regs, w), 0, k, ip, live, regs, regs, w)
  {
    GoesZero(J, At(k, ip, regs, w));
  }

  lemma ReachNext(J: Job, s: State, n: nat, k: Ctl, ip: int, live: set<int>, regs0: Regs, regs: Regs, w: World,
    ip1: int, tmp: int, keep: set<int>, r: Result, fuel: nat, at: bool, m: nat, regs1: Regs)
    requires Reached(J, s, n, k, ip, live, regs0, regs, w)
    requires Ends(J, At(k, ip, regs, w), k, ip1, tmp, keep, regs, r, fuel, at, m, regs1) && r.Val? && live <= keep
    ensures Reached(J, s, n + m, k, ip1, live, regs0, regs1, r.w)
    ensures Get(regs1, tmp) == r.v && forall q :: q in keep ==> Get(regs1, q) == Get(regs, q)
  {
    hide Goes;
    GoesTrans(J, s, n, At(k, ip, regs, w), m, At(k, ip1, regs1, r.w));
  }

  /** An operand that fails or times out decides the whole expression. */
  lemma ReachFail(J: Job, s: State, n: nat, k: Ctl, ip: int, live: set<int>, regs0: Regs, regs: Regs, w: World,
    ip1: int, tmp: int, keep: set<int>, r: Result, fuel: nat, at: bool, m: nat, regs1: Regs, ip2: int, dest: int,
    atomic: bool)
    requires Reached(J, s, n, k, ip, live, regs0, regs, w) && dest in live
    requires Ends(J, At(k, ip, regs, w), k, ip1, tmp, keep, regs, r, fuel, at, m, regs1) && !r.Val? && live <= keep
    ensures Ends(J, s, k, ip2, dest, live - {dest}, regs0, r, fuel, atomic, n + m, regs1)
  {
    hide Goes;
    hide Lives;
    if r.Fails? {
      GoesTrans(J, s, n, At(k, ip, regs, w), m, Throwing(J, k, regs1, r.w, r.msg));
    } else {
      LivesAfter(J, s, n, At(k, ip, regs, w), fuel, r.w);
    }
  }

  /** The rest of the code, started here, ends as the whole does. */
  lemma ReachEnd(J: Job, s: State, n: nat, k: Ctl, ip: int, live: set<int>, regs0: Regs, regs: Regs, w: World, ip': int,
    dest: int, keep: set<int>, r: Result, fuel: nat, atomic: bool, m: nat, regs': Regs)
    requires Reached(J, s, n, k, ip, live, regs0, regs, w) && keep <= live && (atomic ==> dest in live)
    requires Ends(J, At(k, ip, regs, w), k, ip', dest, keep, regs, r, fuel, atomic, m, regs')
    ensures Ends(J, s, k, ip', dest, keep, regs0, r, fuel, atomic, n + m, regs')
  {
    hide Goes;
    hide Lives;
    match r
    case Val(v, w') => GoesTrans(J, s, n, At(k, ip, regs, w), m, At(k, ip', regs', w'));
    case Fails(msg, w') => GoesTrans(J, s, n, At(k, ip, regs, w), m, Throwing(J, k, regs', w', msg));
    case Timeout(w') => LivesAfter(J, s, n, At(k, ip, regs, w), fuel, w');
  }

  /** The last instruction of an expression. */
  lemma EndsOne(J: Job, k: Ctl, ip: int, regs: Regs, w: World, dest: int, live: set<int>, r: Result, fuel: nat)
    returns (regs': Regs)
    requires r.Val? ==> Goes(J, At(k, ip, regs, w), 1, At(k, ip + 1, regs[dest := r.v], r.w))
    requires r.Fails? ==> Goes(J, At(k, ip, regs, w), 1, Throwing(J, k, regs, r.w, r.msg))
    requires !r.Timeout?
    ensures Ends(J, At(k, ip, regs, w), k, ip + 1, dest, live - {dest}, regs, r, fuel, true, 1, regs')
    ensures r.Val? ==> regs' == regs[dest := r.v]
  {
    regs' := if r.Val? then regs[dest := r.v] else regs;
  }

  /** The code between a and b is also in st', and so are the constants. */
  ghost predicate Within(a: CS, b: CS, st': CS) {
    && |b.code| <= |st'.code|
    && (forall i :: |a.code| <= i < |b.code| ==> st'.code[i] == b.code[i])
    && b.pool <= st'.pool && b.peak <= st'.peak && b.keys <= st'.keys && b.errs <= st'.errs
  }

  lemma WithinGrows(a: CS, b: CS, st': CS)
    requires Grows(b, st')
    ensures Within(a, b, st')
  {
  }

  lemma BaseSub(J: Job, k: Ctl, st: CS, st': CS, E: Scope, regs: Regs, live: set<int>, names: set<Text>, a: CS, b: CS,
    regs1: Regs, live1: set<int>, names1: set<Text>)
    requires Base(J, k, st, st', E, regs, live, names)
    requires Grows(st, a) && a.locals == st.locals && Inv(a) && Grows(a, b) && Within(a, b, st')
    requires Same(live, regs, regs1) && live <= live1 && names1 <= names
    requires forall q :: q in live1 ==> Held(a, q)
    ensures Base(J, k, a, b, E, regs1, live1, names1)
  {
    hide Inv;
    hide Held;
  }

  lemma FetchAt(J: Job, k: Ctl, st: CS, st': CS, i: int, ins: Instr)
    requires Hosted(J, k, st, st') && |st.code| <= i < |st'.code| && st'.code[i] == ins
    ensures Fetches(J, k, i, ins)
  {
  }
}
