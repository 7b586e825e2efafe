/**
 The futures protocol (internal/vm/async.go, internal/native/async.go) as a state machine.  Goroutine 0 is the script;
 every other runs a spawned closure on a VM of its own and has one future.  Each VM has a map of the futures it spawned
 and has not heard the end of; handles are looked up in one table.  Any goroutine may make the next move.
 What a closure computes is a value of type V, a result or an error: it does not see this state.
 */
module Futures {
  import Ast
  import Pigeonhole

  datatype Res<V> = Value(v: V) | Error(msg: string)

  /** Where a goroutine is: running its closure; done, its VM released, the result in hand; its future settled; gone. */
  datatype Phase<V> = Running | Released(r: Res<V>) | Settled | Gone

  /** The call a running goroutine is in the middle of, if any. */
  datatype Doing<J, V> =
    | Free
    | Awaiting(handle: nat, fut: nat)
    | Spreading(jobs: seq<J>, futs: seq<nat>)                // a parallel call that is spawning
    | Gathering(jobs: seq<J>, futs: seq<nat>, out: seq<V>)   // and one that is waiting

  /** A goroutine and its future: the job it was spawned for, by whom, its result; live: the futures map of its VM. */
  datatype Task<J, V> = Task(job: J, parent: nat, phase: Phase<V>, res: Ast.Option<Res<V>>, doing: Doing<J, V>,
    live: set<nat>)

  /** The calls that ended. */
  datatype Call<J, V> =
    | Awaited(fut: nat, got: Res<V>)
    | NotAFuture
    | Gathered(owner: nat, jobs: seq<J>, futs: seq<nat>, out: seq<V>)
    | GatherFailed(owner: nat, jobs: seq<J>, futs: seq<nat>, at: nat, msg: string)

  datatype World<J, V> = World(tasks: seq<Task<J, V>>, handles: map<nat, nat>, next: nat, calls: seq<Call<J, V>>)

  /** g is the goroutine that moves. */
  datatype Move<J, V> =
    | Spawn(g: nat, job: J)              // async.spawn: a future, and a handle for it
    | Drop(g: nat, handle: nat)          // async.drop
    | StartAwait(g: nat, handle: nat)    // async.await looks its handle up
    | EndAwait(g: nat)                   // the future it waits for is settled
    | StartPar(g: nat, jobs: seq<J>)     // async.parallel: one job an item
    | ParSpawn(g: nat)
    | ParCollect(g: nat)
    | Release(g: nat, r: Res<V>)         // the closure has its result; its VM is released
    | Settle(g: nat)
    | SettleAgain(g: nat, r: Res<V>)     // settle called once more by whoever holds the future
    | Forget(g: nat)                     // the goroutine takes its future off the map of the VM that spawned it

  function Init<J, V>(job: J): World<J, V> { World([Task(job, 0, Running, Ast.None, Free, {})], map[], 0, []) }

  /** The goroutine's script is between two calls. */
  predicate Ready<J, V>(w: World<J, V>, g: nat) { g < |w.tasks| && w.tasks[g].phase.Running? && w.tasks[g].doing.Free? }

  predicate Has<J, V>(w: World<J, V>, fut: nat) { fut < |w.tasks| && w.tasks[fut].res.Some? }

  predicate Enabled<J, V>(w: World<J, V>, m: Move<J, V>) {
    m.g < |w.tasks| &&
    var t := w.tasks[m.g];
    match m
    case Spawn(_, _) => Ready(w, m.g)
    case Drop(_, _) => Ready(w, m.g)
    case StartAwait(_, _) => Ready(w, m.g)
    case EndAwait(_) => t.doing.Awaiting? && Has(w, t.doing.fut)
    case StartPar(_, _) => Ready(w, m.g)
    case ParSpawn(_) => t.doing.Spreading?
    case ParCollect(_) => t.doing.Gathering? && (|t.doing.out| < |t.doing.futs| ==> Has(w, t.doing.futs[|t.doing.out|]))
    case Release(_, _) => Ready(w, m.g)
    case Settle(_) => m.g > 0 && t.phase.Released?
    case SettleAgain(_, _) => m.g > 0 && t.res.Some?
    case Forget(_) => t.phase.Settled? && t.parent < |w.tasks|
  }

  function Put<J, V>(w: World<J, V>, g: nat, t: Task<J, V>): World<J, V>
    requires g < |w.tasks|
  {
    w.(tasks := w.tasks[g := t])
  }

  /** SpawnClosure: a goroutine, and its future on the map of the VM. */
  function NewTask<J, V>(w: World<J, V>, g: nat, job: J): World<J, V>
    requires g < |w.tasks|
  {
    var n := |w.tasks|;
    w.(tasks := w.tasks[g := w.tasks[g].(live := w.tasks[g].live + {n})] + [Task(job, g, Running, Ast.None, Free, {})])
  }

  /** settle runs its body once: a second call changes nothing. */
  function Once<V>(res: Ast.Option<Res<V>>, r: Res<V>): Ast.Option<Res<V>> { if res.None? then Ast.Some(r) else res }

  /** The call that goroutine g was in is over. */
  function Over<J, V>(w: World<J, V>, g: nat, c: Call<J, V>): World<J, V>
    requires g < |w.tasks|
  {
    Put(w, g, w.tasks[g].(doing := Free)).(calls := w.calls + [c])
  }

  function Collect<J, V>(w: World<J, V>, g: nat): World<J, V>
    requires g < |w.tasks| && w.tasks[g].doing.Gathering?
    requires var d := w.tasks[g].doing; |d.out| < |d.futs| ==> Has(w, d.futs[|d.out|])
  {
    var t := w.tasks[g];
    var d := t.doing;
    if |d.out| >= |d.futs| then Over(w, g, Gathered(g, d.jobs, d.futs, d.out))
    else
      match w.tasks[d.futs[|d.out|]].res.value
      case Value(v) => Put(w, g, t.(doing := d.(out := d.out + [v])))
      case Error(msg) => Over(w, g, GatherFailed(g, d.jobs, d.futs, |d.out|, msg))
  }

  function Step<J, V>(w: World<J, V>, m: Move<J, V>): World<J, V>
    requires Enabled(w, m)
  {
    var t := w.tasks[m.g];
    match m
    case Spawn(g, job) => NewTask(w, g, job).(handles := w.handles[w.next := |w.tasks|], next := w.next + 1)
    case Drop(_, handle) => w.(handles := w.handles - {handle})
    case StartAwait(g, handle) =>
      if handle in w.handles then Put(w, g, t.(doing := Awaiting(handle, w.handles[handle])))
        else Over(w, g, NotAFuture)
    case EndAwait(g) =>
      Over(w, g, Awaited(t.doing.fut, w.tasks[t.doing.fut].res.value)).(handles := w.handles - {t.doing.handle})
    case StartPar(g, jobs) => Put(w, g, t.(doing := Spreading(jobs, [])))
    case ParSpawn(g) =>
      var d := t.doing;
      if |d.futs| < |d.jobs| then
        var x := NewTask(w, g, d.jobs[|d.futs|]);
        Put(x, g, x.tasks[g].(doing := Spreading(d.jobs, d.futs + [|w.tasks|])))
      else Put(w, g, t.(doing := Gathering(d.jobs, d.futs, [])))
    case ParCollect(g) => Collect(w, g)
    case Release(g, r) => Put(w, g, t.(phase := Released(r), live := {}))
    case Settle(g) => Put(w, g, t.(phase := Settled, res := Once(t.res, t.phase.r)))
    case SettleAgain(g, r) => Put(w, g, t.(res := Once(t.res, r)))
    case Forget(g) =>
      var x := Put(w, g, t.(phase := Gone));
      Put(x, t.parent, x.tasks[t.parent].(live := x.tasks[t.parent].live - {g}))
  }

  /** A run: every move is enabled when it is made. */
  predicate Runs<J, V>(w: World<J, V>, ms: seq<Move<J, V>>)
    decreases |ms|
  {
    ms == [] || (Enabled(w, ms[0]) && Runs(Step(w, ms[0]), ms[1..]))
  }

  function After<J, V>(w: World<J, V>, ms: seq<Move<J, V>>): World<J, V>
    requires Runs(w, ms)
    decreases |ms|
  {
    if ms == [] then w else After(Step(w, ms[0]), ms[1..])
  }

  // ---- the invariant ----

  predicate Unfinished<J, V>(w: World<J, V>, u: nat) { 0 < u < |w.tasks| && !w.tasks[u].phase.Gone? }

  /** A VM's map holds exactly the futures it spawned whose goroutine is not gone; a released VM's is empty. */
  ghost predicate LiveOk<J, V>(w: World<J, V>, g: nat)
    requires g < |w.tasks|
  {
    forall u :: u in w.tasks[g].live <==>
      u >= 0 && w.tasks[g].phase.Running? && Unfinished(w, u)
      && w.tasks[u].parent == g
  }

  ghost predicate PhaseOk<J, V>(w: World<J, V>, g: nat)
    requires g < |w.tasks|
  {
    var t := w.tasks[g];
    && (t.res.Some? <==> t.phase.Settled? || t.phase.Gone?)
    && (t.doing.Free? || t.phase.Running?)
    && if g == 0 then t.phase.Running? || t.phase.Released? else t.parent < g
  }

  /** futs are the futures of goroutines that g spawned for the first so many of the jobs, one each, in order. */
  ghost predicate SpawnedFor<J, V>(w: World<J, V>, g: nat, jobs: seq<J>, futs: seq<nat>) {
    && |futs| <= |jobs|
    && (forall i :: 0 <= i < |futs| ==>
      0 < futs[i] < |w.tasks| && w.tasks[futs[i]].job == jobs[i]
      && w.tasks[futs[i]].parent == g)
    && (forall i, j :: 0 <= i < j < |futs| ==> futs[i] < futs[j])
  }

  /** The values are the results of the futures at the same places. */
  ghost predicate ResultsOf<J, V>(w: World<J, V>, futs: seq<nat>, out: seq<V>) {
    |out| <= |futs| && forall i :: 0 <= i < |out| ==>
      futs[i] < |w.tasks| && w.tasks[futs[i]].res == Ast.Some(Value(out[i]))
  }

  ghost predicate DoingOk<J, V>(w: World<J, V>, g: nat, d: Doing<J, V>) {
    match d
    case Free => true
    case Awaiting(_, fut) => 0 < fut < |w.tasks|
    case Spreading(jobs, futs) => SpawnedFor(w, g, jobs, futs)
    case Gathering(jobs, futs, out) => SpawnedFor(w, g, jobs, futs) && |futs| == |jobs| && ResultsOf(w, futs, out)
  }

  ghost predicate CallOk<J, V>(w: World<J, V>, c: Call<J, V>) {
    match c
    case Awaited(fut, got) => 0 < fut < |w.tasks| && w.tasks[fut].res == Ast.Some(got)
    case NotAFuture => true
    case Gathered(owner, jobs, futs, out) => SpawnedFor(w, owner, jobs, futs) && |out| == |futs| == |jobs|
      && ResultsOf(w, futs, out)
    case GatherFailed(owner, jobs, futs, at, msg) =>
      && SpawnedFor(w, owner, jobs, futs) && |futs| == |jobs| && at < |futs|
        && w.tasks[futs[at]].res == Ast.Some(Error(msg))
      && forall i :: 0 <= i < at ==> w.tasks[futs[i]].res.Some? && w.tasks[futs[i]].res.value.Value?
  }

  ghost predicate HandlesOk<J, V>(w: World<J, V>) {
    forall h :: h in w.handles ==> h < w.next && 0 < w.handles[h] < |w.tasks|
  }

  ghost predicate TaskOk<J, V>(w: World<J, V>, g: nat)
    requires g < |w.tasks|
  {
    PhaseOk(w, g) && LiveOk(w, g) && DoingOk(w, g, w.tasks[g].doing)
  }

  ghost predicate Inv<J, V>(w: World<J, V>) {
    && w.tasks != [] && HandlesOk(w)
    && (forall g :: 0 <= g < |w.tasks| ==> TaskOk(w, g))
    && (forall n :: 0 <= n < |w.calls| ==> CallOk(w, w.calls[n]))
  }

  /** Goroutines stay, keep whom they are for, and their result; ended calls stay. */
  ghost predicate Later<J, V>(w: World<J, V>, x: World<J, V>) {
    && |w.tasks| <= |x.tasks| && w.calls <= x.calls
    && (forall g :: 0 <= g < |w.tasks| ==> x.tasks[g].job == w.tasks[g].job && x.tasks[g].parent == w.tasks[g].parent)
    && (forall g :: 0 <= g < |w.tasks| && w.tasks[g].res.Some? ==> x.tasks[g].res == w.tasks[g].res)
  }

  lemma {:induction false} StepLater<J, V>(w: World<J, V>, m: Move<J, V>)
    requires Enabled(w, m)
    ensures Later(w, Step(w, m))
  {
  }

  lemma SpawnedLater<J, V>(w: World<J, V>, x: World<J, V>, g: nat, jobs: seq<J>, futs: seq<nat>)
    requires Later(w, x) && SpawnedFor(w, g, jobs, futs)
    ensures SpawnedFor(x, g, jobs, futs)
  {
  }

  lemma DoingLater<J, V>(w: World<J, V>, x: World<J, V>, g: nat, d: Doing<J, V>)
    requires Later(w, x) && DoingOk(w, g, d)
    ensures DoingOk(x, g, d)
  {
  }

  lemma CallLater<J, V>(w: World<J, V>, x: World<J, V>, c: Call<J, V>)
    requires Later(w, x) && CallOk(w, c)
    ensures CallOk(x, c)
  {
    hide SpawnedFor;
    match c
    case Gathered(owner, jobs, futs, _) => SpawnedLater(w, x, owner, jobs, futs);
    case GatherFailed(owner, jobs, futs, at, _) =>
      SpawnedLater(w, x, owner, jobs, futs);
      FailedLater(w, x, owner, jobs, futs, at);
    case _ =>
  }

  lemma FailedLater<J, V>(w: World<J, V>, x: World<J, V>, owner: nat, jobs: seq<J>, futs: seq<nat>, at: nat)
    requires Later(w, x) && SpawnedFor(w, owner, jobs, futs) && at < |futs|
    ensures forall i :: 0 <= i <= at && w.tasks[futs[i]].res.Some? ==>
      futs[i] < |x.tasks| && x.tasks[futs[i]].res == w.tasks[futs[i]].res
  {
  }

  lemma {:induction false} StepInv<J, V>(w: World<J, V>, m: Move<J, V>)
    requires Inv(w) && Enabled(w, m)
    ensures Inv(Step(w, m))
  {
    hide LiveOk, PhaseOk, DoingOk, CallOk;
    var x := Step(w, m);
    StepHandles(w, m);
    forall g | 0 <= g < |x.tasks|
      ensures TaskOk(x, g)
    {
      StepPhase(w, m, g);
      StepLive(w, m, g);
      StepDoing(w, m, g);
    }
    forall n | 0 <= n < |x.calls|
      ensures CallOk(x, x.calls[n])
    {
      StepCall(w, m, n);
    }
  }

  lemma {:induction false} StepHandles<J, V>(w: World<J, V>, m: Move<J, V>)
    requires Inv(w) && Enabled(w, m)
    ensures HandlesOk(Step(w, m)) && Step(w, m).tasks != []
  {
    hide TaskOk, CallOk;
  }

  lemma {:induction false} StepPhase<J, V>(w: World<J, V>, m: Move<J, V>, g: nat)
    requires Inv(w) && Enabled(w, m) && g < |Step(w, m).tasks|
    ensures PhaseOk(Step(w, m), g)
  {
    hide LiveOk, DoingOk, CallOk, HandlesOk;
    assert TaskOk(w, m.g);
    if g < |w.tasks| {
      assert TaskOk(w, g);
    }
  }

  lemma {:induction false} StepLive<J, V>(w: World<J, V>, m: Move<J, V>, g: nat)
    requires Inv(w) && Enabled(w, m) && g < |Step(w, m).tasks|
    ensures LiveOk(Step(w, m), g)
  {
    hide LiveOk, DoingOk, CallOk, HandlesOk;
    assert TaskOk(w, m.g);
    forall u | 0 < u < |w.tasks|
      ensures w.tasks[u].parent < u
    {
      assert TaskOk(w, u);
    }
    if g < |w.tasks| {
      assert TaskOk(w, g);
    }
    if m.Spawn? || (m.ParSpawn? && |w.tasks[m.g].doing.futs| < |w.tasks[m.g].doing.jobs|) {
      var job := if m.Spawn? then m.job else w.tasks[m.g].doing.jobs[|w.tasks[m.g].doing.futs|];
      LiveSpawn(w, m.g, job, g);
      LiveSame(NewTask(w, m.g, job), Step(w, m), g);
    } else if m.Release? {
      LiveRelease(w, m, g);
    } else if m.Forget? {
      LiveForget(w, m, g);
    } else {
      hide Inv;
      LiveSame(w, Step(w, m), g);
    }
  }

  /** A map is right if nothing it speaks of has changed. */
  lemma LiveSame<J, V>(w: World<J, V>, x: World<J, V>, g: nat)
    requires |x.tasks| == |w.tasks| && g < |w.tasks| && LiveOk(w, g) && x.tasks[g].live == w.tasks[g].live
    requires forall u :: 0 <= u < |w.tasks| ==>
      && x.tasks[u].parent == w.tasks[u].parent && (x.tasks[u].phase.Gone? <==> w.tasks[u].phase.Gone?)
      && (x.tasks[u].phase.Running? <==> w.tasks[u].phase.Running?)
    ensures LiveOk(x, g)
  {
  }

  lemma LiveSpawn<J, V>(w: World<J, V>, who: nat, job: J, g: nat)
    requires who < |w.tasks| && w.tasks[who].phase.Running? && g <= |w.tasks| && (g < |w.tasks| ==> LiveOk(w, g))
    requires forall u :: 0 < u < |w.tasks| ==> w.tasks[u].parent < u
    ensures LiveOk(NewTask(w, who, job), g)
  {
  }

  lemma LiveRelease<J, V>(w: World<J, V>, m: Move<J, V>, g: nat)
    requires Enabled(w, m) && m.Release? && g < |w.tasks| && LiveOk(w, g)
    ensures LiveOk(Step(w, m), g)
  {
  }

  lemma LiveForget<J, V>(w: World<J, V>, m: Move<J, V>, g: nat)
    requires Enabled(w, m) && m.Forget? && g < |w.tasks| && LiveOk(w, g)
    ensures LiveOk(Step(w, m), g)
  {
  }

  lemma {:induction false} StepDoing<J, V>(w: World<J, V>, m: Move<J, V>, g: nat)
    requires Inv(w) && Enabled(w, m) && g < |Step(w, m).tasks|
    ensures DoingOk(Step(w, m), g, Step(w, m).tasks[g].doing)
  {
    hide LiveOk, PhaseOk, DoingOk, CallOk;
    var x := Step(w, m);
    StepLater(w, m);
    if g < |w.tasks| {
      assert TaskOk(w, g);
      DoingLater(w, x, g, w.tasks[g].doing);
      if g == m.g {
        OwnDoing(w, m);
      }
    } else {
      FreeOk(x, g);
    }
  }

  lemma FreeOk<J, V>(w: World<J, V>, g: nat)
    ensures DoingOk(w, g, Free)
  {
  }

  lemma {:induction false} OwnDoing<J, V>(w: World<J, V>, m: Move<J, V>)
    requires Enabled(w, m) && HandlesOk(w) && DoingOk(w, m.g, w.tasks[m.g].doing)
    ensures Step(w, m).tasks[m.g].doing == w.tasks[m.g].doing || DoingOk(Step(w, m), m.g, Step(w, m).tasks[m.g].doing)
  {
  }

  lemma {:induction false} StepCall<J, V>(w: World<J, V>, m: Move<J, V>, n: nat)
    requires Inv(w) && Enabled(w, m) && n < |Step(w, m).calls|
    ensures CallOk(Step(w, m), Step(w, m).calls[n])
  {
    hide LiveOk, PhaseOk, CallOk, HandlesOk, DoingOk;
    var x := Step(w, m);
    StepLater(w, m);
    if n < |w.calls| {
      CallLater(w, x, w.calls[n]);
    } else {
      assert TaskOk(w, m.g);
      EndsWell(w, m);
      CallLater(w, x, x.calls[n]);
    }
  }

  /** A call that ends with this move. */
  lemma {:induction false} EndsWell<J, V>(w: World<J, V>, m: Move<J, V>)
    requires Enabled(w, m) && DoingOk(w, m.g, w.tasks[m.g].doing) && |Step(w, m).calls| > |w.calls|
    ensures |Step(w, m).calls| == |w.calls| + 1 && CallOk(w, Step(w, m).calls[|w.calls|])
  {
  }

  lemma LaterTrans<J, V>(w: World<J, V>, x: World<J, V>, y: World<J, V>)
    requires Later(w, x) && Later(x, y)
    ensures Later(w, y)
  {
  }

  lemma {:induction false} RunInv<J, V>(w: World<J, V>, ms: seq<Move<J, V>>)
    requires Inv(w) && Runs(w, ms)
    ensures Inv(After(w, ms)) && Later(w, After(w, ms))
    decreases |ms|
  {
    hide Step, Enabled, Inv, Later;
    if ms == [] {
      LaterSelf(w);
    } else {
      StepInv(w, ms[0]);
      StepLater(w, ms[0]);
      RunInv(Step(w, ms[0]), ms[1..]);
      LaterTrans(w, Step(w, ms[0]), After(w, ms));
    }
  }

  lemma LaterSelf<J, V>(w: World<J, V>)
    ensures Later(w, w)
  {
  }

  lemma InitInv<J, V>(job: J)
    ensures Inv(Init<J, V>(job))
  {
  }

  /** The worlds a script can get to. */
  ghost predicate Reachable<J(!new), V(!new)>(w: World<J, V>) {
    exists job: J, ms: seq<Move<J, V>> :: Runs(Init<J, V>(job), ms) && After(Init<J, V>(job), ms) == w
  }

  lemma ReachInv<J(!new), V(!new)>(w: World<J, V>)
    requires Reachable(w)
    ensures Inv(w)
  {
    var job: J, ms: seq<Move<J, V>> :| Runs(Init<J, V>(job), ms) && After(Init<J, V>(job), ms) == w;
    hide Runs, After, Inv;
    InitInv<J, V>(job);
    RunInv(Init<J, V>(job), ms);
  }

  // ---- results ----

  /** A result is written once: whatever comes after, settle called again included, it is the same. */
  lemma ResultWrittenOnce<J(!new), V(!new)>(w: World<J, V>, more: seq<Move<J, V>>, fut: nat)
    requires Reachable(w) && Runs(w, more) && Has(w, fut)
    ensures Has(After(w, more), fut) && After(w, more).tasks[fut].res == w.tasks[fut].res
  {
    hide Runs, After, Reachable;
    ReachInv(w);
    RunInv(w, more);
  }

  /** Two awaits on one future return the same result, the one it was settled with. */
  lemma AwaitsAgree<J(!new), V(!new)>(w: World<J, V>, n: nat, k: nat)
    requires Reachable(w) && n < |w.calls| && w.calls[n].Awaited?
    ensures Has(w, w.calls[n].fut) && w.calls[n].got == w.tasks[w.calls[n].fut].res.value
    ensures k < |w.calls| && w.calls[k].Awaited? && w.calls[k].fut == w.calls[n].fut ==>
      w.calls[k].got == w.calls[n].got
  {
    hide Reachable;
    ReachInv(w);
    assert CallOk(w, w.calls[n]);
    if k < |w.calls| {
      assert CallOk(w, w.calls[k]);
    }
  }

  /**
   A parallel call that ended well has one value an item, at place i the result of the closure spawned for item i; one
   that failed has the error of the first closure, in the order of the items, that failed.
   */
  lemma ParallelInOrder<J(!new), V(!new)>(w: World<J, V>, n: nat)
    requires Reachable(w) && n < |w.calls|
    ensures w.calls[n].Gathered? ==>
      var c := w.calls[n];
      && |c.out| == |c.jobs| == |c.futs|
      && forall i :: 0 <= i < |c.jobs| ==>
        var t := c.futs[i];
          0 < t < |w.tasks| && w.tasks[t].job == c.jobs[i] && w.tasks[t].parent == c.owner
          && w.tasks[t].res == Ast.Some(Value(c.out[i]))
    ensures w.calls[n].GatherFailed? ==>
      var c := w.calls[n];
      && c.at < |c.jobs| == |c.futs|
      && (forall i :: 0 <= i < |c.jobs| ==>
        0 < c.futs[i] < |w.tasks| && w.tasks[c.futs[i]].job == c.jobs[i]
        && w.tasks[c.futs[i]].parent == c.owner)
      && w.tasks[c.futs[c.at]].res == Ast.Some(Error(c.msg))
      && forall i :: 0 <= i < c.at ==> w.tasks[c.futs[i]].res.Some? && w.tasks[c.futs[i]].res.value.Value?
  {
    hide Reachable;
    ReachInv(w);
    assert CallOk(w, w.calls[n]);
  }

  // ---- the futures maps ----

  /** Every spawned goroutine is gone. */
  ghost predicate Quiet<J, V>(w: World<J, V>) { forall u :: 0 <= u < |w.tasks| ==> !Unfinished(w, u) }

  ghost predicate AllEmpty<J, V>(w: World<J, V>) { forall g :: 0 <= g < |w.tasks| ==> w.tasks[g].live == {} }

  /** A goroutine still at work whose VM's map was thrown away. */
  predicate Orphan<J, V>(w: World<J, V>, u: nat) {
    Unfinished(w, u) && w.tasks[u].parent < |w.tasks| && !w.tasks[w.tasks[u].parent].phase.Running?
  }

  ghost predicate NoOrphan<J, V>(w: World<J, V>) { forall u :: 0 <= u < |w.tasks| ==> !Orphan(w, u) }

  /** One VM's map: empty exactly when it was released or every goroutine it spawned is gone. */
  lemma MapExact<J(!new), V(!new)>(w: World<J, V>, g: nat)
    requires Reachable(w) && g < |w.tasks|
    ensures w.tasks[g].live == {} <==>
      !w.tasks[g].phase.Running? || forall u :: 0 <= u < |w.tasks| && w.tasks[u].parent == g ==> !Unfinished(w, u)
  {
    hide Reachable, PhaseOk, DoingOk, CallOk, HandlesOk;
    ReachInv(w);
    assert TaskOk(w, g);
    if w.tasks[g].live == {} && w.tasks[g].phase.Running? {
      forall u | 0 <= u < |w.tasks| && w.tasks[u].parent == g
        ensures !Unfinished(w, u)
      {
        assert u !in w.tasks[g].live;
      }
    }
  }

  /**
   All maps are empty exactly when every goroutine still at work is an orphan.  So empty maps mean that all is quiet
   if and only if no VM was released before a goroutine it spawned that is still at work; and when all is quiet, they
   are empty.
   */
  lemma MapsEmptyAtRest<J(!new), V(!new)>(w: World<J, V>)
    requires Reachable(w)
    ensures AllEmpty(w) <==> forall u :: 0 <= u < |w.tasks| && Unfinished(w, u) ==> Orphan(w, u)
    ensures Quiet(w) ==> AllEmpty(w)
    ensures AllEmpty(w) ==> (Quiet(w) <==> NoOrphan(w))
  {
    hide Reachable, LiveOk, DoingOk, CallOk, HandlesOk;
    ReachInv(w);
    if AllEmpty(w) {
      forall u | 0 <= u < |w.tasks| && Unfinished(w, u)
        ensures Orphan(w, u)
      {
        assert TaskOk(w, u);
        MapExact(w, w.tasks[u].parent);
      }
    }
    if forall u :: 0 <= u < |w.tasks| && Unfinished(w, u) ==> Orphan(w, u) {
      forall g | 0 <= g < |w.tasks|
        ensures w.tasks[g].live == {}
      {
        MapExact(w, g);
      }
    }
  }

  /** Orphans are made by releasing a VM that still has goroutines at work, and by nothing else. */
  lemma {:induction false} OrphansMade<J, V>(w: World<J, V>, m: Move<J, V>)
    requires Inv(w) && Enabled(w, m) && NoOrphan(w)
    ensures NoOrphan(Step(w, m)) <==> (m.Release? ==> w.tasks[m.g].live == {})
  {
    hide DoingOk, CallOk, HandlesOk;
    var x := Step(w, m);
    assert TaskOk(w, m.g);
    if m.Release? && w.tasks[m.g].live != {} {
      var u :| u in w.tasks[m.g].live;
      assert Orphan(x, u);
    }
    if m.Release? ==> w.tasks[m.g].live == {} {
      forall u | 0 <= u < |x.tasks|
        ensures !Orphan(x, u)
      {
        if u < |w.tasks| {
          assert TaskOk(w, u) && !Orphan(w, u);
          assert u !in w.tasks[m.g].live || !m.Release?;
        }
      }
    }
  }

  /** A closure spawns another and returns: every map is empty, and the inner closure is still at work. */
  lemma {:induction false} OrphanRun<J, V>(j: J, r: Res<V>) returns (ms: seq<Move<J, V>>)
    ensures Runs(Init<J, V>(j), ms) && AllEmpty(After(Init<J, V>(j), ms)) && Orphan(After(Init<J, V>(j), ms), 2)
  {
    hide Runs, After;
    var w0 := Init<J, V>(j);
    var w1 := Step(w0, Spawn(0, j));
    var w2 := Step(w1, Spawn(1, j));
    var w3 := Step(w2, Release(1, r));
    var w4 := Step(w3, Settle(1));
    assert w4.tasks[0].live == {1} && w4.tasks[1].live == {} && w4.tasks[2].live == {};
    var w5 := Step(w4, Forget(1));
    assert {1} - {1} == {};
    ms := [Forget(1)];
    RunOne(w4, Forget(1));
    ms := RunCons(w3, Settle(1), ms);
    ms := RunCons(w2, Release(1, r), ms);
    ms := RunCons(w1, Spawn(1, j), ms);
    ms := RunCons(w0, Spawn(0, j), ms);
  }

  lemma RunOne<J, V>(w: World<J, V>, m: Move<J, V>)
    requires Enabled(w, m)
    ensures Runs(w, [m]) && After(w, [m]) == Step(w, m)
  {
    hide Enabled, Step;
    assert [m][1..] == [];
  }

  lemma RunCons<J, V>(w: World<J, V>, m: Move<J, V>, ms: seq<Move<J, V>>) returns (all: seq<Move<J, V>>)
    requires Enabled(w, m) && Runs(Step(w, m), ms)
    ensures Runs(w, all) && After(w, all) == After(Step(w, m), ms)
  {
    hide Enabled, Step;
    all := [m] + ms;
    assert all[1..] == ms;
  }

  // ---- who waits for whom ----

  /** The goroutine has something left to do. */
  predicate AtWork<J, V>(w: World<J, V>, g: nat) {
    g < |w.tasks| && if g == 0 then w.tasks[0].phase.Running? else !w.tasks[g].phase.Gone?
  }

  /** It waits for a future that is not settled. */
  predicate Blocked<J, V>(w: World<J, V>, g: nat) {
    g < |w.tasks| &&
    match w.tasks[g].doing
    case Awaiting(_, fut) => !Has(w, fut)
    case Gathering(_, futs, out) => |out| < |futs| && !Has(w, futs[|out|])
    case _ => false
  }

  function WaitsFor<J, V>(w: World<J, V>, g: nat): nat
    requires Blocked(w, g)
  {
    var d := w.tasks[g].doing;
    if d.Awaiting? then d.fut else d.futs[|d.out|]
  }

  /** A move that goes on with something begun, rather than ask for something new. */
  predicate GoesOn<J, V>(m: Move<J, V>) {
    m.EndAwait? || m.ParSpawn? || m.ParCollect? || m.Release? || m.Settle? || m.Forget?
  }

  ghost predicate Stuck<J(!new), V(!new)>(w: World<J, V>) { forall m: Move<J, V> :: GoesOn(m) ==> !Enabled(w, m) }

  /** Goroutines that wait for each other in a ring. */
  ghost predicate Ring<J, V>(w: World<J, V>, c: seq<nat>) {
    c != [] && forall i :: 0 <= i < |c| ==>
      Blocked(w, c[i])
      && WaitsFor(w, c[i]) == c[if i == |c| - 1 then 0 else i + 1]
  }

  /** How a goroutine that is at work and not blocked can go on. */
  function NextMove<J, V>(w: World<J, V>, g: nat): (m: Move<J, V>)
    requires AtWork(w, g)
    ensures GoesOn(m)
  {
    var t := w.tasks[g];
    match t.phase
    case Released(_) => Settle(g)
    case Settled => Forget(g)
    case _ =>
      match t.doing
      case Free => Release(g, Error(""))
      case Awaiting(_, _) => EndAwait(g)
      case Spreading(_, _) => ParSpawn(g)
      case Gathering(_, _, _) => ParCollect(g)
  }

  lemma {:induction false} Goes<J, V>(w: World<J, V>, g: nat)
    requires Inv(w) && AtWork(w, g) && !Blocked(w, g)
    ensures Enabled(w, NextMove(w, g))
  {
    hide LiveOk, DoingOk, CallOk, HandlesOk;
    assert TaskOk(w, g);
  }

  /** Nothing can go on exactly when every goroutine at work is blocked. */
  lemma {:induction false} StuckExact<J(!new), V(!new)>(w: World<J, V>)
    requires Reachable(w)
    ensures Stuck(w) <==> forall g :: 0 <= g < |w.tasks| && AtWork(w, g) ==> Blocked(w, g)
  {
    hide Reachable, LiveOk, DoingOk, CallOk, HandlesOk;
    ReachInv(w);
    if Stuck(w) {
      forall g | 0 <= g < |w.tasks| && AtWork(w, g)
        ensures Blocked(w, g)
      {
        if !Blocked(w, g) {
          Goes(w, g);
        }
      }
    }
    if forall g :: 0 <= g < |w.tasks| && AtWork(w, g) ==> Blocked(w, g) {
      forall m: Move<J, V> | GoesOn(m)
        ensures !Enabled(w, m)
      {
        if m.g < |w.tasks| {
          assert TaskOk(w, m.g);
          assert AtWork(w, m.g) ==> Blocked(w, m.g);
        }
      }
    }
  }

  /** What a blocked goroutine waits for is a goroutine at work. */
  lemma {:induction false} WaitsForWork<J, V>(w: World<J, V>, g: nat)
    requires Inv(w) && Blocked(w, g)
    ensures var f := WaitsFor(w, g); 0 < f < |w.tasks| && !Has(w, f) && AtWork(w, f)
  {
    hide LiveOk, CallOk, HandlesOk;
    assert TaskOk(w, g);
    assert TaskOk(w, WaitsFor(w, g));
  }

  /** Following who waits for whom comes back to where it was. */
  lemma {:induction false} FindRing<J, V>(w: World<J, V>, p: seq<nat>) returns (c: seq<nat>)
    requires Inv(w) && forall g :: 0 <= g < |w.tasks| && AtWork(w, g) ==> Blocked(w, g)
    requires p != [] && (forall i :: 0 <= i < |p| ==> AtWork(w, p[i]))
    requires forall i, j :: 0 <= i < j < |p| ==> p[i] != p[j]
    requires forall i :: 0 <= i < |p| - 1 ==> Blocked(w, p[i]) && WaitsFor(w, p[i]) == p[i + 1]
    ensures Ring(w, c) && forall i, j :: 0 <= i < j < |c| ==> c[i] != c[j]
    decreases |w.tasks| - |p|
  {
    hide Inv, Blocked, WaitsFor;
    var last := p[|p| - 1];
    FewDistinct(p, |w.tasks|);
    assert AtWork(w, last) && last < |w.tasks| && Blocked(w, last);
    WaitsForWork(w, last);
    var f := WaitsFor(w, last);
    if k :| 0 <= k < |p| && p[k] == f {
      c := p[k..];
      forall i | 0 <= i < |c|
        ensures Blocked(w, c[i]) && WaitsFor(w, c[i]) == c[if i == |c| - 1 then 0 else i + 1]
      {
        assert c[i] == p[k + i];
        if i < |c| - 1 {
          assert WaitsFor(w, p[k + i]) == p[k + i + 1];
        }
      }
    } else {
      var q := p + [f];
      forall i | 0 <= i < |q| - 1
        ensures Blocked(w, q[i]) && WaitsFor(w, q[i]) == q[i + 1]
      {
        if i < |p| - 1 {
          assert WaitsFor(w, p[i]) == p[i + 1];
        }
      }
      FewDistinct(q, |w.tasks|);
      c := FindRing(w, q);
    }
  }

  /** Distinct numbers below n are at most n. */
  lemma {:induction false} FewDistinct(p: seq<nat>, n: nat)
    requires (forall i :: 0 <= i < |p| ==> p[i] < n) && forall i, j :: 0 <= i < j < |p| ==> p[i] != p[j]
    ensures |p| <= n
  {
    if |p| > n {
      var i, j := Pigeonhole.Twice(p, 0, n);
    }
  }

  /** When nothing can go on and somebody is still at work, some goroutines wait for each other in a ring. */
  lemma {:induction false} StuckInRing<J(!new), V(!new)>(w: World<J, V>, g: nat) returns (c: seq<nat>)
    requires Reachable(w) && Stuck(w) && AtWork(w, g)
    ensures Ring(w, c) && forall i, j :: 0 <= i < j < |c| ==> c[i] != c[j]
  {
    hide Reachable, Stuck, Inv, Blocked, WaitsFor;
    ReachInv(w);
    StuckExact(w);
    c := FindRing(w, [g]);
  }

  lemma {:induction false} RingStep<J, V>(w: World<J, V>, m: Move<J, V>, c: seq<nat>)
    requires Inv(w) && Enabled(w, m) && Ring(w, c)
    ensures Ring(Step(w, m), c)
  {
    hide Inv, Step, WaitsFor, Blocked;
    var x := Step(w, m);
    forall i | 0 <= i < |c|
      ensures Blocked(x, c[i]) && WaitsFor(x, c[i]) == WaitsFor(w, c[i])
    {
      var next := c[if i == |c| - 1 then 0 else i + 1];
      assert Blocked(w, next);
      BlockedStep(w, m, c[i]);
    }
  }

  /** A goroutine blocked on a blocked one stays so. */
  lemma {:induction false} BlockedStep<J, V>(w: World<J, V>, m: Move<J, V>, g: nat)
    requires Inv(w) && Enabled(w, m) && Blocked(w, g) && Blocked(w, WaitsFor(w, g))
    ensures Blocked(Step(w, m), g) && WaitsFor(Step(w, m), g) == WaitsFor(w, g)
  {
    hide Inv, Step, HandlesOk, LiveOk, CallOk;
    var f := WaitsFor(w, g);
    StaysPut(w, m, g);
    StaysPut(w, m, f);
    WaitsForWork(w, g);
  }

  /** A blocked goroutine makes no move, and its future stays unsettled. */
  lemma {:induction false} StaysPut<J, V>(w: World<J, V>, m: Move<J, V>, g: nat)
    requires Inv(w) && Enabled(w, m) && Blocked(w, g)
    ensures g < |Step(w, m).tasks| && Step(w, m).tasks[g].doing == w.tasks[g].doing && !Has(Step(w, m), g)
  {
    hide HandlesOk, LiveOk, CallOk, DoingOk;
    assert TaskOk(w, g);
    assert TaskOk(w, m.g);
  }

  /**
   A ring is for ever: in every continuation its goroutines are still waiting, and none of their futures is settled.
   */
  lemma {:induction false} RingForEver<J(!new), V(!new)>(w: World<J, V>, ms: seq<Move<J, V>>, c: seq<nat>)
    requires Inv(w) && Runs(w, ms) && Ring(w, c)
    ensures Ring(After(w, ms), c) && forall i :: 0 <= i < |c| ==> !Has(After(w, ms), c[i])
    decreases |ms|
  {
    hide Step, Enabled, Inv, Ring, Has;
    if ms == [] {
      RingUnsettled(w, c);
    } else {
      RingStep(w, ms[0], c);
      StepInv(w, ms[0]);
      RingForEver(Step(w, ms[0]), ms[1..], c);
    }
  }

  lemma RingUnsettled<J, V>(w: World<J, V>, c: seq<nat>)
    requires Inv(w) && Ring(w, c)
    ensures forall i :: 0 <= i < |c| ==> !Has(w, c[i])
  {
    hide HandlesOk, LiveOk, CallOk, DoingOk, WaitsFor;
    forall i | 0 <= i < |c|
      ensures !Has(w, c[i])
    {
      assert TaskOk(w, c[i]);
    }
  }

  /** A closure awaits the handle of its own future, and the script awaits it too: nothing can go on. */
  lemma {:induction false} SelfAwaitRun<J(!new), V(!new)>(j: J) returns (ms: seq<Move<J, V>>)
    ensures Runs(Init<J, V>(j), ms)
    ensures var w := After(Init<J, V>(j), ms); Ring(w, [1]) && AtWork(w, 0) && AtWork(w, 1) && Stuck(w)
  {
    hide Runs, After, Reachable;
    var w0 := Init<J, V>(j);
    var w1 := Step(w0, Spawn(0, j));
    assert w1.handles == map[0 := 1];
    var w2 := Step(w1, StartAwait(1, 0));
    var w3 := Step(w2, StartAwait(0, 0));
    ms := [StartAwait(0, 0)];
    RunOne(w2, StartAwait(0, 0));
    ms := RunCons(w1, StartAwait(1, 0), ms);
    ms := RunCons(w0, Spawn(0, j), ms);
    RunReaches(j, ms);
    StuckExact(w3);
  }

  lemma RunReaches<J(!new), V(!new)>(j: J, ms: seq<Move<J, V>>)
    requires Runs(Init<J, V>(j), ms)
    ensures Reachable(After(Init<J, V>(j), ms))
  {
  }
}
