/** The whole obfuscator: wipe names, pad the pool, permute it, expand every function. */
module ObfusApply {
  import opened Bytecode
  import opened Vm
  import opened Traces
  import opened Obfus
  import opened ObfusSim
  import opened ObfusPool
  import opened ObfusPoolImpl
  import opened ObfusImpl
  import opened Strip

  datatype Options = Options(nopDensity: nat, junkBlocks: nat, shuffleConsts: bool, stripMeta: bool, bogusConsts: bool)

  datatype Applied = Applied(chunk: Chunk) | Failed(proto: nat)

  /** Every function of dst is an expansion of the same function of src. */
  ghost predicate Expands(src: Chunk, dst: Chunk, plans: seq<Plan>) {
    && dst == src.(protos := dst.protos) && |dst.protos| == |src.protos| == |plans|
    && forall p :: 0 <= p < |plans| ==>
      && IsExpansion(src.protos[p].code, dst.protos[p].code, plans[p])
      && dst.protos[p] == src.protos[p].(code := dst.protos[p].code, lines := [], numRegs := dst.protos[p].numRegs)
  }

  /** The pool, after padding, is the old one and more; then it was permuted, or not. */
  ghost predicate Pooled(src: Chunk, mid: Chunk) {
    exists padded: Chunk :: padded == src.(consts := padded.consts) && src.consts <= padded.consts
      && (mid == padded || exists to: seq<int> :: Shuffled(padded, mid, to))
  }

  /** The chunk is one the obfuscator handles faithfully. */
  ghost predicate Obfuscable(src: Chunk) {
    && PoolOk(src) && |src.consts| + 63 <= 0x1_0000
    && forall p :: 0 <= p < |src.protos| ==> Movable(src.protos[p].code)
  }

  /** The StripMeta branch: an empty name for the main function, made-up names for the others, no line tables. */
  method StripMeta(buf: Buffer, sourceName: Text, name: nat -> Text)
    modifies buf
    ensures Wiped(old(buf.chunk), buf.chunk) && buf.chunk.sourceName == sourceName
    ensures forall i :: 0 <= i < |buf.chunk.protos| ==>
      buf.chunk.protos[i].name == (if i == buf.chunk.mainIndex then [] else name(i)) && buf.chunk.protos[i].lines == []
  {
    ghost var src := buf.chunk;
    buf.chunk := buf.chunk.(sourceName := sourceName);
    for i := 0 to |buf.chunk.protos|
      invariant buf.chunk == src.(sourceName := sourceName, protos := buf.chunk.protos)
      invariant |buf.chunk.protos| == |src.protos| && buf.chunk.protos[i..] == src.protos[i..]
      invariant forall k :: 0 <= k < i ==> buf.chunk.protos[k] == src.protos[k].(
        name := if k == src.mainIndex then [] else name(k), lines := [])
    {
      var p := buf.chunk.protos[i].(name := []);
      assert buf.chunk.protos[i..][0] == src.protos[i..][0];
      if i != buf.chunk.mainIndex {
        p := p.(name := name(i));
      }
      buf.chunk := buf.chunk.(protos := buf.chunk.protos[i := p.(lines := [])]);
    }
  }

  method Apply(src: Chunk, opt: Options, rnd: Random, pick: nat -> nat, name: nat -> Text, funcName: nat -> Text,
    sourceName: Text)
    returns (r: Applied, ghost base: Chunk, ghost mid: Chunk, ghost plans: seq<Plan>)
    modifies rnd
    ensures if opt.stripMeta then Wiped(src, base) else base == src
    ensures r.Applied? ==> Pooled(base, mid) && |mid.consts| <= |base.consts| + 63 && Expands(mid, r.chunk, plans)
  {
    hide IsExpansion, Wiped;
    var buf := new Buffer(src);
    if opt.stripMeta {
      StripMeta(buf, sourceName, funcName);
    }
    base := buf.chunk;
    if opt.bogusConsts {
      var b := rnd.Next();
      buf.PadBogusConsts(24 + b % 40, name);
    }
    ghost var padded := buf.chunk;
    assert padded == base.(consts := padded.consts) && base.consts <= padded.consts;
    if opt.shuffleConsts {
      var done;
      ghost var to;
      done, to := buf.ShuffleConsts(pick);
      assert done ==> Shuffled(padded, buf.chunk, to);
    }
    hide Shuffled;
    mid, plans := buf.chunk, [];
    assert Pooled(base, mid);
    var protos: seq<Proto> := [];
    for pi := 0 to |buf.chunk.protos|
      invariant buf.chunk == mid && |protos| == |plans| == pi
      invariant forall p :: 0 <= p < pi ==>
        && IsExpansion(mid.protos[p].code, protos[p].code, plans[p])
        && protos[p] == mid.protos[p].(code := protos[p].code, lines := [], numRegs := protos[p].numRegs)
    {
      var np;
      ghost var plan;
      np, plan := ExpandProto(buf.chunk.protos[pi], opt.nopDensity, opt.junkBlocks, rnd);
      if np.Overflow? {
        return Failed(pi), base, mid, plans;
      }
      protos, plans := protos + [np.proto], plans + [plan];
    }
    return Applied(buf.chunk.(protos := protos)), base, mid, plans;
  }

  lemma PooledSame(src: Chunk, mid: Chunk)
    requires Pooled(src, mid) && PoolOk(src) && |mid.consts| <= 0x1_0000
    ensures SameCode(src, mid)
  {
    hide SameCode;
    hide PoolOk;
    hide Shuffled;
    var padded: Chunk :| padded == src.(consts := padded.consts) && src.consts <= padded.consts
      && (mid == padded || exists to: seq<int> :: Shuffled(padded, mid, to));
    PadKeeps(src, padded);
    if mid != padded {
      var to: seq<int> :| Shuffled(padded, mid, to);
      ShuffledSize(padded, mid, to);
      ShuffleKeeps(padded, mid, to);
      SameTrans(src, padded, mid);
    }
  }

  lemma PooledNames(src: Chunk, mid: Chunk)
    requires Pooled(src, mid)
    ensures SameNames(src, mid)
  {
  }

  lemma ShuffledSize(src: Chunk, dst: Chunk, to: seq<int>)
    requires Shuffled(src, dst, to)
    ensures |dst.consts| == |src.consts|
  {
  }

  /** Renumbering constants moves no jump and adds no TRY. */
  lemma MovableStays(src: Chunk, mid: Chunk)
    requires SameCode(src, mid) && forall p :: 0 <= p < |src.protos| ==> Movable(src.protos[p].code)
    ensures forall p :: 0 <= p < |mid.protos| ==> Movable(mid.protos[p].code)
  {
    hide ToI16;
    forall p, i | 0 <= p < |mid.protos| && 0 <= i < |mid.protos[p].code|
      ensures mid.protos[p].code[i].op != TRY
      ensures IsJump(mid.protos[p].code[i].op) ==> Target(mid.protos[p].code[i], i) >= 0
    {
      assert SameInstr(src.consts, src.protos[p].code[i], mid.consts, mid.protos[p].code[i]);
      assert Movable(src.protos[p].code);
    }
  }

  /**
   Obfuscation keeps every run: whatever was drawn, the obfuscated chunk ends with an outcome, globals and a trace of
   primitive operations and native calls exactly when the original does; and its run, finite or not, begins with the
   same events.
   */
  lemma ObfuscationCorrect(env: Env, src: Chunk, mid: Chunk, dst: Chunk, plans: seq<Plan>, arg: Value,
    globals: map<Text, Value>, t: State, tr: Trace)
    requires Obfuscable(src) && Pooled(src, mid) && |mid.consts| <= |src.consts| + 63 && Expands(mid, dst, plans)
    ensures EndsIn(env, src, Start(env, src, arg, globals), t) <==> EndsIn(env, dst, Start(env, dst, arg, globals), t)
    ensures Begins(env, src, Start(env, src, arg, globals), tr) <==>
      Begins(env, dst, Start(env, dst, arg, globals), tr)
  {
    hide Pooled;
    hide PoolOk;
    hide Movable;
    hide SameCode;
    hide IsExpansion;
    hide Start;
    hide EndsIn, Begins;
    PooledSame(src, mid);
    PooledNames(src, mid);
    MovableStays(src, mid);
    SameStart(env, src, mid, arg, globals);
    LockstepEnds(env, src, mid, Start(env, src, arg, globals), t, tr);
    var X := Pair(env, mid, dst, plans);
    assert PairOk(X);
    hide PairOk;
    ExpansionCorrect(X, arg, globals, t, tr);
  }

  lemma WipedObfuscable(src: Chunk, base: Chunk)
    requires Obfuscable(src) && Wiped(src, base)
    ensures Obfuscable(base) && PoolOk(src) && base.consts == src.consts
  {
    hide Movable;
  }

  /**
   The obfuscator with its names wiped, as it is by default: for a chunk that loads no global under an old or a new
   function name, whatever was drawn, the same outcome, the same operations and native calls, finite or not, and the
   same globals under all other names.
   */
  lemma ApplyCorrect(env: Env, src: Chunk, base: Chunk, mid: Chunk, dst: Chunk, plans: seq<Plan>, arg: Value,
    globals: map<Text, Value>, t: State, tr: Trace)
    requires Obfuscable(src) && Wiped(src, base) && AllOverlook(env, src, NamesOf(src) + NamesOf(base))
    requires Pooled(base, mid) && |mid.consts| <= |base.consts| + 63 && Expands(mid, dst, plans)
    ensures var N := NamesOf(src) + NamesOf(base);
      EndsLike(N, env, src, Start(env, src, arg, globals), t) <==>
        EndsLike(N, env, dst, Start(env, dst, arg, globals), t)
    ensures Begins(env, src, Start(env, src, arg, globals), tr) <==> Begins(env, dst, Start(env, dst, arg, globals), tr)
  {
    WipedObfuscable(src, base);
    var N := NamesOf(src) + NamesOf(base);
    hide *;
    WipedCorrect(env, src, base, arg, globals, t, tr);
    forall u
      ensures EndsIn(env, base, Start(env, base, arg, globals), u) <==>
        EndsIn(env, dst, Start(env, dst, arg, globals), u)
    {
      ObfuscationCorrect(env, base, mid, dst, plans, arg, globals, u, tr);
    }
    ObfuscationCorrect(env, base, mid, dst, plans, arg, globals, t, tr);
    SameEndings(N, env, base, Start(env, base, arg, globals), dst, Start(env, dst, arg, globals), t);
  }

  lemma SameEndings(N: set<Text>, env: Env, a: Chunk, s: State, b: Chunk, s': State, t: State)
    requires forall u :: EndsIn(env, a, s, u) <==> EndsIn(env, b, s', u)
    ensures EndsLike(N, env, a, s, t) <==> EndsLike(N, env, b, s', t)
  {
    hide EndsIn, Like;
  }

  lemma LockstepEnds(env: Env, a: Chunk, b: Chunk, s: State, t: State, tr: Trace)
    requires SameCode(a, b)
    ensures EndsIn(env, a, s, t) <==> EndsIn(env, b, s, t)
    ensures Begins(env, a, s, tr) <==> Begins(env, b, s, tr)
  {
    hide SameCode;
    hide Run;
    forall n: nat
      ensures Run(env, a, s, n) == Run(env, b, s, n)
    {
      SameRun(env, a, b, s, n);
    }
  }
}
