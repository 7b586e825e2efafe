/**
 The machine object (internal/vm/vm.go): call frames are objects that instructions update in place.  One turn of the
 execute loop is proved to be one `Step` of the machine the theorems are about.
 */
module VmImpl {
  import opened Bytecode
  import opened Vm

  class CallFrame {
    const proto: nat
    const ups: Upvals
    const retReg: nat
    var ip: int
    var regs: Regs
    var tries: seq<TryFrame>

    ghost function View(): Frame
      reads this
    {
      Frame(proto, ip, regs, ups, retReg, tries)
    }

    constructor (proto: nat, ups: Upvals, retReg: nat, regs: Regs)
      ensures View() == Frame(proto, 0, regs, ups, retReg, [])
    {
      this.proto := proto;
      this.ups := ups;
      this.retReg := retReg;
      this.ip, this.regs, this.tries := 0, regs, [];
    }
  }

  /** The frames that CallClosure saves while a native calls back. */
  datatype Suspended = Suspended(frames: seq<CallFrame>, id: nat, args: seq<Value>, answers: seq<Outcome>, retReg: nat)

  ghost function Views(fs: seq<CallFrame>): (r: seq<Frame>)
    reads fs
    ensures |r| == |fs|
  {
    seq(|fs|, i requires 0 <= i < |fs| reads fs => fs[i].View())
  }

  ghost predicate Apart(fs: seq<CallFrame>) { forall i, j :: 0 <= i < j < |fs| ==> fs[i] != fs[j] }

  function PutAside(vm: VM, f: Frame, id: nat, args: seq<Value>, answers: seq<Outcome>, retReg: nat): VM {
    VM([f], vm.callers + [Caller(vm.frames, id, args, answers, retReg)], vm.globals, vm.cells, vm.trace)
  }

  class Machine {
    const env: Env
    const ch: Chunk
    var frames: seq<CallFrame>
    var callers: seq<Suspended>
    var globals: map<Text, Value>
    var cells: seq<seq<Value>>
    var trace: Trace

    ghost function Stacks(): set<CallFrame>
      reads this
    {
      (set g | g in frames) + (set k, g | 0 <= k < |callers| && g in callers[k].frames :: g)
    }

    /** No frame is on the stacks twice. */
    ghost predicate Valid()
      reads this
    {
      && Apart(frames)
      && (forall k :: 0 <= k < |callers| ==> Apart(callers[k].frames))
      && (forall k, g :: 0 <= k < |callers| && g in callers[k].frames ==> g !in frames)
      && forall k, m, g :: 0 <= k < m < |callers| && g in callers[k].frames ==> g !in callers[m].frames
    }

    ghost function Saved(k: nat): Caller
      requires k < |callers|
      reads this, Stacks()
    {
      var c := callers[k];
      assert forall g :: g in c.frames ==> g in Stacks();
      Caller(Views(c.frames), c.id, c.args, c.answers, c.retReg)
    }

    ghost function View(): VM
      reads this, Stacks()
    {
      VM(Views(frames), seq(|callers|, k requires 0 <= k < |callers| reads this, Stacks() => Saved(k)), globals, cells,
        trace)
    }

    ghost function Now(halted: bool, out: Outcome): State
      reads this, Stacks()
    {
      if halted then Halted(out, globals, trace) else Running(View())
    }

    /** f is the running frame, and the machine is vm but for it. */
    ghost predicate At(vm: VM, f: CallFrame)
      reads this, Stacks()
    {
      Valid() && frames != [] && f == frames[|frames| - 1] && vm.frames != [] && View() == SetTop(vm, f.View())
    }

    /** Frames above f may have been dropped; below f nothing was touched, nor in the saved stacks. */
    twostate lemma OnlyTop(f: CallFrame)
      requires old(Valid()) && 0 < |frames| <= |old(frames)| && frames == old(frames)[..|frames|]
        && callers == old(callers)
      requires f == frames[|frames| - 1]
      requires forall g: CallFrame :: g in old(Stacks()) && g != f ==> g.View() == old(g.View())
      ensures Valid() && View().callers == old(View()).callers && Stacks() <= old(Stacks())
      ensures View().frames == old(View()).frames[..|frames| - 1] + [f.View()]
    {
      assert forall g :: g in frames ==> g in old(frames) by {
        forall g | g in frames
          ensures g in old(frames)
        {
          var i :| 0 <= i < |frames| && frames[i] == g;
          assert g == old(frames)[i];
        }
      }
      forall k | 0 <= k < |callers|
        ensures Saved(k) == old(Saved(k))
      {
        forall i | 0 <= i < |callers[k].frames|
          ensures callers[k].frames[i].View() == old(callers[k].frames[i].View())
        {
          assert callers[k].frames[i] in callers[k].frames;
          assert callers[k].frames[i] in old(Stacks());
        }
      }
      forall i | 0 <= i < |frames| - 1
        ensures frames[i].View() == old(frames[i].View())
      {
        assert frames[i] == old(frames)[i];
        assert frames[i] in old(frames);
      }
    }

    method HandleTry(msg: Text) returns (caught: bool)
      requires Valid()
      modifies this`frames, frames
      ensures Valid() && Stacks() <= old(Stacks())
      ensures match Unwind(old(View()).frames, msg)
        case Caught(fs) => caught && View() == old(View()).(frames := fs)
        case Uncaught => !caught && View() == old(View())
    {
      hide Unwind, View, Stacks, Valid;
      ghost var vs := Views(frames);
      ViewIs();
      var fi := |frames| - 1;
      while fi >= 0 && frames[fi].tries == []
        invariant -1 <= fi < |frames|
        invariant forall k :: fi < k < |frames| ==> frames[k].tries == []
        modifies {}
      {
        fi := fi - 1;
      }
      Unhandled(vs, fi + 1, msg);
      if fi < 0 {
        return false;
      }
      var fr := frames[fi];
      HandledAt(vs, fi, msg);
      Resume(fr, fi, msg);
      caught := true;
    }

    lemma ViewIs()
      ensures View().frames == Views(frames)
    {
    }

    /** The frames above the handler are dropped and the handler takes the error. */
    method Resume(fr: CallFrame, fi: nat, msg: Text)
      requires Valid() && fi < |frames| && fr == frames[fi] && fr.tries != []
      modifies this`frames, fr
      ensures Valid() && Stacks() <= old(Stacks())
      ensures var f := old(fr.View());
        var t := f.tries[|f.tries| - 1];
        View() == old(View()).(frames := old(View()).frames[..fi] +
          [f.(regs := f.regs[t.errReg := Str(FirstLine(msg))], ip := t.catchIp, tries := f.tries[..|f.tries| - 1])])
    {
      hide View, Stacks, Valid, FirstLine;
      frames := frames[..fi + 1];
      var t := fr.tries[|fr.tries| - 1];
      fr.tries := fr.tries[..|fr.tries| - 1];
      fr.regs := fr.regs[t.errReg := Str(FirstLine(msg))];
      fr.ip := t.catchIp;
      OnlyTop(fr);
      SameRest();
    }

    twostate lemma SameRest()
      requires globals == old(globals) && cells == old(cells) && trace == old(trace)
        && View().callers == old(View()).callers
      ensures View() == old(View()).(frames := View().frames)
    {
    }

    twostate lemma Pushed(new f: CallFrame)
      requires old(Valid()) && f !in old(Stacks()) && frames == old(frames) + [f] && callers == old(callers)
      requires forall g: CallFrame :: g in old(Stacks()) ==> g.View() == old(g.View())
      requires globals == old(globals) && cells == old(cells)
      ensures Valid() && Stacks() == old(Stacks()) + {f}
      ensures View() == old(View()).(frames := old(View()).frames + [f.View()], trace := trace)
    {
      SavedSame();
      forall i | 0 <= i < |old(frames)|
        ensures frames[i].View() == old(frames[i].View())
      {
        assert old(frames)[i] in old(frames);
      }
    }

    twostate lemma SavedSame()
      requires |callers| >= |old(callers)| && forall k :: 0 <= k < |old(callers)| ==> callers[k] == old(callers)[k]
      requires forall g: CallFrame :: g in old(Stacks()) ==> g.View() == old(g.View())
      ensures forall k :: 0 <= k < |old(callers)| ==> Saved(k) == old(Saved(k))
    {
      forall k | 0 <= k < |old(callers)|
        ensures Saved(k) == old(Saved(k))
      {
        forall i | 0 <= i < |callers[k].frames|
          ensures callers[k].frames[i].View() == old(callers[k].frames[i].View())
        {
          assert callers[k].frames[i] in old(callers)[k].frames;
          assert callers[k].frames[i] in old(Stacks());
        }
      }
    }

    /** The stack is saved and a new one started. */
    twostate lemma SuspendedAt(new f: CallFrame, new id: nat, new args: seq<Value>, new answers: seq<Outcome>,
      new retReg: nat)
      requires old(Valid()) && f !in old(Stacks()) && frames == [f]
      requires callers == old(callers) + [Suspended(old(frames), id, args, answers, retReg)]
      requires forall g: CallFrame :: g in old(Stacks()) ==> g.View() == old(g.View())
      requires globals == old(globals) && cells == old(cells) && trace == old(trace)
      ensures Valid() && Stacks() == old(Stacks()) + {f}
      ensures View() == PutAside(old(View()), f.View(), id, args, answers, retReg)
    {
      SavedSame();
      var n := |old(callers)|;
      forall i | 0 <= i < |old(frames)|
        ensures callers[n].frames[i].View() == old(frames[i].View())
      {
        assert old(frames)[i] in old(frames);
      }
      assert Saved(n) == Caller(old(View()).frames, id, args, answers, retReg);
      var cs := old(View()).callers + [Caller(old(View()).frames, id, args, answers, retReg)];
      forall k | 0 <= k < |callers|
        ensures View().callers[k] == cs[k]
      {
      }
      assert View().callers == cs;
      assert Views(frames) == [f.View()];
    }

    /** The stack saved last is back. */
    twostate lemma Restored()
      requires old(Valid()) && |old(callers)| > 0 && callers == old(callers)[..|old(callers)| - 1]
      requires frames == old(callers)[|old(callers)| - 1].frames
      requires forall g: CallFrame :: g in old(Stacks()) ==> g.View() == old(g.View())
      requires globals == old(globals) && cells == old(cells) && trace == old(trace)
      ensures Valid() && Stacks() <= old(Stacks())
      ensures var vm, c := old(View()), old(View()).callers[|old(callers)| - 1];
        View() == vm.(frames := c.frames, callers := vm.callers[..|vm.callers| - 1])
    {
      var n := |old(callers)| - 1;
      forall k | 0 <= k < n
        ensures Saved(k) == old(Saved(k))
      {
        forall i | 0 <= i < |callers[k].frames|
          ensures callers[k].frames[i].View() == old(callers[k].frames[i].View())
        {
          assert callers[k].frames[i] in old(callers)[k].frames;
          assert callers[k].frames[i] in old(Stacks());
        }
      }
      forall i | 0 <= i < |frames|
        ensures frames[i].View() == old(callers[n].frames[i].View())
      {
        assert frames[i] in old(callers)[n].frames;
        assert frames[i] in old(Stacks());
      }
    }

    twostate lemma TopWritten(f: CallFrame)
      requires old(Valid()) && frames == old(frames) && frames != [] && callers == old(callers)
        && f == frames[|frames| - 1]
      requires forall g: CallFrame :: g in old(Stacks()) && g != f ==> g.View() == old(g.View())
      ensures Valid() && Stacks() <= old(Stacks())
      ensures View() == SetTop(old(View()), f.View()).(globals := globals, cells := cells, trace := trace)
    {
      OnlyTop(f);
    }

    method MakeFrame(proto: nat, ups: Upvals, args: seq<Value>, retReg: nat) returns (f: CallFrame)
      ensures fresh(f) && f.View() == NewFrame(ch, proto, ups, args, retReg)
    {
      f := new CallFrame(proto, ups, retReg, map i | 0 <= i < Min(NumParams(ch, proto), |args|) :: args[i]);
    }

    /** execute returns: to the caller of Run, or to the native that called back. */
    method End(out: Outcome) returns (halted: bool, res: Outcome)
      requires Valid()
      modifies this, Stacks()
      ensures Valid() && fresh(Stacks() - old(Stacks()))
      ensures Now(halted, res) == Finish(env, ch, old(View()), out)
      decreases |callers|, 1
    {
      hide View, Valid, FirstLine, Enter;
      ViewSizes();
      if callers == [] {
        return true, if out.Ok? then out else Err(FirstLine(out.msg));
      }
      var c := callers[|callers| - 1];
      SavedLast();
      frames := c.frames;
      callers := callers[..|callers| - 1];
      Restored();
      ghost var mid := Stacks();
      halted, res := EnterNative(c.id, c.args, c.answers + [out], c.retReg);
      forall g: CallFrame | g in Stacks() - old(Stacks())
        ensures fresh(g)
      {
        assert g in Stacks() - mid;
      }
    }

    lemma ViewSizes()
      ensures |View().callers| == |callers| && |View().frames| == |frames|
      ensures View().globals == globals && View().cells == cells && View().trace == trace
    {
    }

    lemma SavedLast()
      requires callers != []
      ensures |View().callers| == |callers|
      ensures var c, d := callers[|callers| - 1], View().callers[|callers| - 1];
        d.id == c.id && d.args == c.args && d.answers == c.answers && d.retReg == c.retReg
    {
    }

    method EnterNative(id: nat, args: seq<Value>, answers: seq<Outcome>, retReg: nat) returns (halted: bool,
      res: Outcome)
      requires Valid()
      modifies this, Stacks()
      ensures Valid() && fresh(Stacks() - old(Stacks()))
      ensures Now(halted, res) == Enter(env, ch, old(View()), id, args, answers, retReg)
      decreases |callers|, 2
    {
      hide View, Valid, NewFrame, Finish, Unwind;
      ViewSizes();
      halted, res := false, Ok(Null);
      var e := CallNative(id, args, answers);
      var answer := env.native(trace, e);
      trace := trace + [e];
      Settled();
      match answer
      case Return(v) =>
        ViewSizes();
        if frames != [] {
          TopIsView();
          WriteTop(retReg, v);
        }
      case Fail(msg) =>
        ViewSizes();
        FramesIn();
        var caught := HandleTry(msg);
        if !caught {
          ghost var mid := Stacks();
          halted, res := End(Err(msg));
          forall g: CallFrame | g in Stacks() - old(Stacks())
            ensures fresh(g)
          {
            assert g in Stacks() - mid;
          }
        }
      case CallBack(proto, ups, cargs) =>
        Suspend(id, args, answers, retReg, proto, ups, cargs);
    }

    /** The running frame's register r receives v. */
    method WriteTop(r: nat, v: Value)
      requires Valid() && frames != []
      modifies frames[|frames| - 1]
      ensures Valid() && Stacks() <= old(Stacks()) && old(View()).frames != []
      ensures var f := old(View()).frames[|old(View()).frames| - 1];
        View() == SetTop(old(View()), f.(regs := f.regs[r := v]))
    {
      hide View, Stacks, Valid;
      TopIsView();
      var f := frames[|frames| - 1];
      f.regs := f.regs[r := v];
      TopWritten(f);
      Rebuilt();
    }

    twostate lemma Rebuilt()
      requires globals == old(globals) && cells == old(cells) && trace == old(trace)
      ensures old(View()).globals == globals && old(View()).cells == cells && old(View()).trace == trace
    {
    }

    /** CallClosure from a native: the stack is put aside. */
    method Suspend(id: nat, args: seq<Value>, answers: seq<Outcome>, retReg: nat, proto: nat, ups: Upvals,
      cargs: seq<Value>)
      requires Valid()
      modifies this
      ensures Valid() && fresh(Stacks() - old(Stacks()))
      ensures View() == PutAside(old(View()), NewFrame(ch, proto, ups, cargs, 0), id, args, answers, retReg)
    {
      hide View, Valid, NewFrame;
      var f := MakeFrame(proto, ups, cargs, 0);
      callers := callers + [Suspended(frames, id, args, answers, retReg)];
      frames := [f];
      assert f !in old(Stacks());
      SuspendedAt(f, id, args, answers, retReg);
    }

    /** Only globals, cells or the trace were touched. */
    twostate lemma Settled()
      requires old(Valid()) && frames == old(frames) && callers == old(callers)
      requires forall g: CallFrame :: g in old(Stacks()) ==> g.View() == old(g.View())
      ensures Valid() && Stacks() == old(Stacks())
        && View() == VM(old(View()).frames, old(View()).callers, globals, cells, trace)
    {
      SavedSame();
      forall i | 0 <= i < |frames|
        ensures frames[i].View() == old(frames[i].View())
      {
        assert frames[i] in old(frames);
      }
    }

    lemma FramesIn()
      ensures forall g :: g in frames ==> g in Stacks()
    {
    }

    lemma TopIsView()
      requires frames != []
      ensures |View().frames| == |frames| && View().frames[|frames| - 1] == frames[|frames| - 1].View()
      ensures frames[|frames| - 1] in Stacks()
    {
    }

    // ---- in place on the running frame ----

    method Hop(off: int)
      requires Valid() && frames != []
      modifies frames[|frames| - 1]
      ensures Valid() && Stacks() <= old(Stacks()) && old(View()).frames != []
      ensures View() == SetTop(old(View()), Top(old(View())).(ip := Top(old(View())).ip + off))
    {
      hide View, Stacks, Valid;
      TopIsView();
      var f := frames[|frames| - 1];
      f.ip := f.ip + off;
      TopWritten(f);
      Rebuilt();
    }

    method PutTries(tries: seq<TryFrame>)
      requires Valid() && frames != []
      modifies frames[|frames| - 1]
      ensures Valid() && Stacks() <= old(Stacks()) && old(View()).frames != []
      ensures View() == SetTop(old(View()), Top(old(View())).(tries := tries))
    {
      hide View, Stacks, Valid;
      TopIsView();
      var f := frames[|frames| - 1];
      f.tries := tries;
      TopWritten(f);
      Rebuilt();
    }

    method PushFrame(proto: nat, ups: Upvals, args: seq<Value>, retReg: nat)
      requires Valid()
      modifies this
      ensures Valid() && fresh(Stacks() - old(Stacks()))
      ensures View() == old(View()).(frames := old(View()).frames + [NewFrame(ch, proto, ups, args, retReg)])
    {
      hide View, Valid, NewFrame;
      var f := MakeFrame(proto, ups, args, retReg);
      assert f !in old(Stacks());
      frames := frames + [f];
      Pushed(f);
      Rebuilt();
    }

    /** The frame popped has been wiped. */
    twostate lemma Popped()
      requires old(Valid()) && |old(frames)| > 0 && frames == old(frames)[..|old(frames)| - 1]
        && callers == old(callers)
      requires forall g: CallFrame :: g in old(Stacks()) && g != old(frames)[|old(frames)| - 1] ==>
        g.View() == old(g.View())
      ensures Valid() && Stacks() <= old(Stacks())
      ensures View() == VM(old(View()).frames[..|old(frames)| - 1], old(View()).callers, globals, cells, trace)
    {
      var f := old(frames)[|old(frames)| - 1];
      assert f in old(frames);
      assert forall g :: g in frames ==> g in old(frames) by {
        forall g | g in frames
          ensures g in old(frames)
        {
          var i :| 0 <= i < |frames| && frames[i] == g;
          assert g == old(frames)[i];
        }
      }
      forall k | 0 <= k < |callers|
        ensures Saved(k) == old(Saved(k))
      {
        forall i | 0 <= i < |callers[k].frames|
          ensures callers[k].frames[i].View() == old(callers[k].frames[i].View())
        {
          assert callers[k].frames[i] in callers[k].frames;
          assert callers[k].frames[i] in old(Stacks());
        }
      }
      forall i | 0 <= i < |frames|
        ensures frames[i].View() == old(frames[i].View())
      {
        assert frames[i] == old(frames)[i] && frames[i] in old(frames);
      }
    }

    // ---- the instructions ----

    method RaiseError(msg: Text) returns (halted: bool, res: Outcome)
      requires Valid()
      modifies this, Stacks()
      ensures Valid() && fresh(Stacks() - old(Stacks()))
      ensures Now(halted, res) == Raise(env, ch, old(View()), msg)
    {
      hide View, Valid, Unwind, Finish;
      ViewSizes();
      FramesIn();
      halted, res := false, Ok(Null);
      var caught := HandleTry(msg);
      if !caught {
        ghost var mid := Stacks();
        halted, res := End(Err(msg));
        forall g: CallFrame | g in Stacks() - old(Stacks())
          ensures fresh(g)
        {
          assert g in Stacks() - mid;
        }
      }
    }

    method Primitive(op: Byte, operands: seq<Value>, a: Byte) returns (halted: bool, res: Outcome)
      requires Valid() && frames != []
      modifies this, Stacks()
      ensures Valid() && fresh(Stacks() - old(Stacks())) && old(View()).frames != []
      ensures Now(halted, res) == DoPrim(env, ch, old(View()), Top(old(View())), op, operands, a)
    {
      hide View, Valid, Raise;
      ViewSizes();
      TopIsView();
      halted, res := false, Ok(Null);
      var e := Prim(op, operands);
      var answer := env.prim(trace, e);
      trace := trace + [e];
      Settled();
      TopIsView();
      TopStays(old(View()));
      match answer
      case Ok(v) => WriteTop(a, v);
      case Err(msg) =>
        ghost var mid := Stacks();
        halted, res := RaiseError(msg);
        forall g: CallFrame | g in Stacks() - old(Stacks())
          ensures fresh(g)
        {
          assert g in Stacks() - mid;
        }
    }

    method ReturnValue(v: Value) returns (halted: bool, res: Outcome)
      requires Valid() && frames != []
      modifies this, Stacks()
      ensures Valid() && fresh(Stacks() - old(Stacks())) && old(View()).frames != []
      ensures Now(halted, res) == DoReturn(env, ch, old(View()), v)
    {
      hide View, Valid, Release, Finish;
      ViewSizes();
      TopIsView();
      halted, res := false, Ok(Null);
      var fr := frames[|frames| - 1];
      var retReg := fr.retReg;
      frames := frames[..|frames| - 1];
      cells := Release(cells, fr.ups);
      fr.regs, fr.tries := map[], [];
      Popped();
      ViewSizes();
      if frames == [] {
        ghost var mid := Stacks();
        halted, res := End(Ok(v));
        forall g: CallFrame | g in Stacks() - old(Stacks())
          ensures fresh(g)
        {
          assert g in Stacks() - mid;
        }
      } else {
        TopIsView();
        WriteTop(retReg, v);
      }
    }

    method CallRegister(ins: Instr) returns (halted: bool, res: Outcome)
      requires Valid() && frames != []
      modifies this, Stacks()
      ensures Valid() && fresh(Stacks() - old(Stacks())) && old(View()).frames != []
      ensures Now(halted, res) == DoCall(env, ch, old(View()), Top(old(View())), ins)
    {
      hide View, Valid, Raise, Enter, NewFrame, Vm.TypeName;
      TopIsView();
      TopStays(View());
      halted, res := false, Ok(Null);
      var fr := frames[|frames| - 1];
      var args := Vm.Range(fr.regs, ins.b + 1, ins.c);
      match Get(fr.regs, ins.b)
      case Native(id) => halted, res := EnterNative(id, args, [], ins.a);
      case Func(proto, ups) =>
        if proto < |ch.protos| {
          PushFrame(proto, ups, args, ins.a);
        } else {
          halted, res := RaiseError(Ascii("nil func"));
        }
      case v => halted, res := RaiseError(Ascii("cannot call ") + Vm.TypeName(v));
    }

    method UseConstant(ins: Instr, k: Constant) returns (halted: bool, res: Outcome)
      requires Valid() && frames != []
      modifies this, Stacks()
      ensures Valid() && fresh(Stacks() - old(Stacks())) && old(View()).frames != []
      ensures Now(halted, res) == WithConst(env, ch, old(View()), Top(old(View())), ins, k)
    {
      hide View, Valid, Raise, Finish, DoPrim, Truthy, ConstText, ConstToValue;
      ViewSizes();
      TopIsView();
      TopStays(View());
      halted, res := false, Ok(Null);
      var fr := frames[|frames| - 1];
      if ins.op == LOADK || ins.op == LOADF {
        WriteTop(ins.a, ConstToValue(k));
      } else if ins.op == GETK {
        halted, res := Primitive(GETK, [Get(fr.regs, ins.b), Str(ConstText(env, k))], ins.a);
      } else if ins.op == SETK {
        halted, res := Primitive(SETK, [Get(fr.regs, ins.a), Str(ConstText(env, k)), Get(fr.regs, ins.c)], ins.a);
      } else if ins.op == LOADG {
        var name := ConstText(env, k);
        WriteTop(ins.a, if name in globals then globals[name] else Null);
      } else if ins.op == STOREG {
        globals := globals[ConstText(env, k) := Get(fr.regs, ins.a)];
        Settled();
      } else if ins.op == IMPORT {
        var name := ConstText(env, k);
        if name in env.modules {
          globals := globals[name := env.modules[name]];
          Settled();
          TopIsView();
          WriteTop(ins.a, env.modules[name]);
        } else {
          halted, res := End(Err(Ascii("unknown module ") + env.quote(name)));
        }
      } else if !Truthy(env, trace, Get(fr.regs, ins.a)) {
        halted, res := End(Err(ConstText(env, k)));
      }
    }

    method NoConstant(ins: Instr) returns (halted: bool, res: Outcome)
      requires Valid() && frames != []
      modifies this, Stacks()
      ensures Valid() && fresh(Stacks() - old(Stacks())) && old(View()).frames != []
      ensures Now(halted, res) == BadConst(env, ch, old(View()), Top(old(View())), ins)
    {
      hide View, Valid, Finish, Truthy;
      ViewSizes();
      TopIsView();
      TopStays(View());
      halted, res := false, Ok(Null);
      if ins.op == ASSERT {
        if !Truthy(env, trace, Get(frames[|frames| - 1].regs, ins.a)) {
          halted, res := End(Err(Ascii("assertion failed")));
        }
      } else {
        halted, res := End(Err(BadConstText(ins)));
      }
    }

    method Jump(ins: Instr)
      requires Valid() && frames != [] && IsJump(ins.op)
      modifies this, Stacks()
      ensures Valid() && fresh(Stacks() - old(Stacks())) && old(View()).frames != []
      ensures Running(View()) == Exec(env, ch, old(View()), Top(old(View())), ins)
    {
      hide View, Valid, Truthy, Instr.SBx;
      ViewSizes();
      TopIsView();
      TopStays(View());
      if Taken(env, trace, frames[|frames| - 1].regs, ins) {
        Hop(ins.SBx());
      }
    }

    /** The instructions that only move values between registers, cells and the handler stack, or end the call. */
    method Rest(ins: Instr) returns (halted: bool, res: Outcome)
      requires Valid() && frames != []
      modifies this, Stacks()
      ensures Valid() && fresh(Stacks() - old(Stacks())) && old(View()).frames != []
      ensures Now(halted, res) == ExecOther(env, ch, old(View()), Top(old(View())), ins)
    {
      hide View, Valid, Finish, Raise, DoReturn, Truthy, Instr.SBx, Instr.Bx, AsStr;
      ViewSizes();
      TopIsView();
      TopStays(View());
      halted, res := false, Ok(Null);
      var fr := frames[|frames| - 1];
      if ins.op == HALT {
        halted, res := End(Ok(Null));
      } else if ins.op == NOP {
      } else if ins.op == MOVE || ins.op == DUP {
        WriteTop(ins.a, Get(fr.regs, ins.b));
      } else if ins.op == LOADI {
        WriteTop(ins.a, Int(ins.SBx()));
      } else if ins.op == LOADN {
        WriteTop(ins.a, Null);
      } else if ins.op == LOADB {
        WriteTop(ins.a, Bool(ins.b != 0));
      } else if ins.op == RET {
        halted, res := ReturnValue(Get(fr.regs, ins.a));
      } else if ins.op == RETN {
        halted, res := ReturnValue(Null);
      } else if ins.op == MAKEFN {
        if ins.Bx() < |ch.protos| {
          WriteTop(ins.a, Func(ins.Bx(), NoUpvals));
        } else {
          halted, res := End(Err(Ascii("MAKEFN bad proto ") + Digits(ins.Bx())));
        }
      } else {
        halted, res := Rare(ins);
      }
    }

    method Rare(ins: Instr) returns (halted: bool, res: Outcome)
      requires Valid() && frames != []
      requires ins.op !in {HALT, NOP, MOVE, DUP, LOADI, LOADN, LOADB, RET, RETN, MAKEFN}
      modifies this, Stacks()
      ensures Valid() && fresh(Stacks() - old(Stacks())) && old(View()).frames != []
      ensures Now(halted, res) == ExecOther(env, ch, old(View()), Top(old(View())), ins)
    {
      hide View, Valid, Finish, Raise, DoReturn, Truthy, Instr.SBx, Instr.Bx, AsStr;
      ViewSizes();
      TopIsView();
      TopStays(View());
      halted, res := false, Ok(Null);
      var fr := frames[|frames| - 1];
      if ins.op == CLOSURE {
        halted, res := MakeClosure(ins);
      } else if ins.op == GETUPV {
        halted, res := LoadCell(ins);
      } else if ins.op == SETUPV {
        halted, res := StoreCell(ins);
      } else if ins.op == SWAP {
        SwapTop(ins.a, ins.b);
      } else if ins.op == TRY {
        PutTries(fr.tries + [TryFrame(fr.ip + ins.SBx(), ins.a)]);
      } else if ins.op == ENDTRY {
        PutTries(if fr.tries == [] then [] else fr.tries[..|fr.tries| - 1]);
      } else if ins.op == THROW {
        halted, res := RaiseError(AsStr(env, trace, Get(fr.regs, ins.a)));
      } else {
        halted, res := End(Err(UnknownText(ins.op)));
      }
    }

    method MakeClosure(ins: Instr) returns (halted: bool, res: Outcome)
      requires Valid() && frames != [] && ins.op == CLOSURE
      modifies this, Stacks()
      ensures Valid() && fresh(Stacks() - old(Stacks())) && old(View()).frames != []
      ensures Now(halted, res) == ExecOther(env, ch, old(View()), Top(old(View())), ins)
    {
      hide View, Valid, Finish, ExecOther, Cells, Vm.Range;
      ViewSizes();
      TopIsView();
      TopStays(View());
      ClosureIs(env, ch, View(), Top(View()), ins);
      halted, res := false, Ok(Null);
      var fr := frames[|frames| - 1];
      if ins.b < |ch.protos| {
        var id := |cells|;
        cells := cells + [Vm.Range(fr.regs, ins.a + 1, ins.c)];
        Settled();
        TopIsView();
        WriteTop(ins.a, Func(ins.b, Upvals(id)));
      } else {
        halted, res := End(Err(Ascii("CLOSURE bad proto")));
      }
    }

    method LoadCell(ins: Instr) returns (halted: bool, res: Outcome)
      requires Valid() && frames != [] && ins.op == GETUPV
      modifies this, Stacks()
      ensures Valid() && fresh(Stacks() - old(Stacks())) && old(View()).frames != []
      ensures Now(halted, res) == ExecOther(env, ch, old(View()), Top(old(View())), ins)
    {
      hide View, Valid, Finish, ExecOther, Cells, Vm.Range;
      ViewSizes();
      TopIsView();
      TopStays(View());
      LoadCellIs(env, ch, View(), Top(View()), ins);
      halted, res := false, Ok(Null);
      var fr := frames[|frames| - 1];
      var ups := CellsOf(fr.ups);
      if ins.b < |ups| {
        WriteTop(ins.a, ups[ins.b]);
      } else {
        halted, res := End(Err(Ascii("GETUPV OOB")));
      }
    }

    method StoreCell(ins: Instr) returns (halted: bool, res: Outcome)
      requires Valid() && frames != [] && ins.op == SETUPV
      modifies this, Stacks()
      ensures Valid() && fresh(Stacks() - old(Stacks())) && old(View()).frames != []
      ensures Now(halted, res) == ExecOther(env, ch, old(View()), Top(old(View())), ins)
    {
      hide View, Valid, Finish, ExecOther, Cells, Vm.Range;
      ViewSizes();
      TopIsView();
      TopStays(View());
      StoreCellIs(env, ch, View(), Top(View()), ins);
      halted, res := false, Ok(Null);
      var fr := frames[|frames| - 1];
      var ups := CellsOf(fr.ups);
      if ins.a < |ups| {
        cells := cells[fr.ups.id := ups[ins.a := Get(fr.regs, ins.b)]];
        Settled();
      } else {
        halted, res := End(Err(Ascii("SETUPV OOB")));
      }
    }

    method CellsOf(ups: Upvals) returns (r: seq<Value>)
      ensures r == Cells(View(), ups) && (r != [] ==> ups.Upvals? && ups.id < |cells| && r == cells[ups.id])
    {
      ViewSizes();
      r := if ups.Upvals? && ups.id < |cells| then cells[ups.id] else [];
    }

    method SwapTop(a: Byte, b: Byte)
      requires Valid() && frames != []
      modifies frames[|frames| - 1]
      ensures Valid() && Stacks() <= old(Stacks()) && old(View()).frames != []
      ensures var f := Top(old(View()));
        View() == SetTop(old(View()), f.(regs := f.regs[a := Get(f.regs, b)][b := Get(f.regs, a)]))
    {
      hide View, Stacks, Valid;
      TopIsView();
      var f := frames[|frames| - 1];
      f.regs := f.regs[a := Get(f.regs, b)][b := Get(f.regs, a)];
      TopWritten(f);
      Rebuilt();
    }

    method Execute1(ins: Instr) returns (halted: bool, res: Outcome)
      requires Valid() && frames != []
      modifies this, Stacks()
      ensures Valid() && fresh(Stacks() - old(Stacks())) && old(View()).frames != []
      ensures Now(halted, res) == Exec(env, ch, old(View()), Top(old(View())), ins)
    {
      hide View, Valid, Operands, DoPrim, WithConst, BadConst, DoCall, ExecOther, Taken;
      TopIsView();
      halted, res := false, Ok(Null);
      if IsPrim(ins.op) {
        halted, res := Primitive(ins.op, Operands(frames[|frames| - 1].regs, ins), ins.a);
      } else if IsJump(ins.op) {
        Jump(ins);
      } else if UsesConst(ins.op) {
        if ConstIndex(ins) < |ch.consts| {
          halted, res := UseConstant(ins, ch.consts[ConstIndex(ins)]);
        } else {
          halted, res := NoConstant(ins);
        }
      } else if ins.op == CALL {
        halted, res := CallRegister(ins);
      } else {
        halted, res := Rest(ins);
      }
    }

    /** One turn of the execute loop. */
    method Turn() returns (halted: bool, res: Outcome)
      requires Valid()
      modifies this, Stacks()
      ensures Valid() && fresh(Stacks() - old(Stacks()))
      ensures Now(halted, res) == Step(env, ch, Running(old(View())))
    {
      hide View, Valid, Exec, Finish, Release;
      ViewSizes();
      if frames == [] {
        halted, res := End(Ok(Null));
        return;
      }
      TopIsView();
      var fr := frames[|frames| - 1];
      if fr.proto >= |ch.protos| {
        halted, res := End(Err(Ascii("CallClosure: nil closure")));
        return;
      }
      if fr.ip < 0 || fr.ip >= |ch.protos[fr.proto].code| {
        cells := Release(cells, fr.ups);
        Settled();
        ghost var mid := Stacks();
        halted, res := End(Ok(Null));
        return;
      }
      var ins := ch.protos[fr.proto].code[fr.ip];
      Hop(1);
      ghost var mid := Stacks();
      ViewSizes();
      ExecTop(env, ch, old(View()), Top(View()), ins);
      halted, res := Execute1(ins);
      forall g: CallFrame | g in Stacks() - old(Stacks())
        ensures fresh(g)
      {
        assert g in Stacks() - mid;
      }
    }

    /** At most n turns of the loop. */
    method Execute(n: nat) returns (halted: bool, res: Outcome)
      requires Valid()
      modifies this, Stacks()
      ensures Valid() && Now(halted, res) == Run(env, ch, Running(old(View())), n)
    {
      hide View, Valid, Step;
      ghost var s := Running(View());
      halted, res := false, Ok(Null);
      var i := 0;
      while i < n && !halted
        invariant 0 <= i <= n && Valid() && fresh(Stacks() - old(Stacks()))
        invariant Run(env, ch, s, n) == Run(env, ch, Now(halted, res), n - i)
      {
        ghost var mid := Stacks();
        halted, res := Turn();
        i := i + 1;
        forall g: CallFrame | g in Stacks() - old(Stacks())
          ensures fresh(g)
        {
          if g !in mid {
            assert g in Stacks() - mid;
          }
        }
      }
      if halted {
        HaltedStays(env, ch, Now(halted, res), n - i);
      }
    }
  }

  function Top(vm: VM): Frame
    requires vm.frames != []
  {
    vm.frames[|vm.frames| - 1]
  }

  lemma TopStays(vm: VM)
    requires vm.frames != []
    ensures SetTop(vm, Top(vm)) == vm
  {
    assert vm.frames[..|vm.frames| - 1] + [Top(vm)] == vm.frames;
  }

  lemma ClosureIs(env: Env, ch: Chunk, vm: VM, f: Frame, ins: Instr)
    requires vm.frames != [] && ins.op == CLOSURE
    ensures ExecOther(env, ch, vm, f, ins) ==
      if ins.b < |ch.protos| then
        Running(SetTop(vm, f.(regs := f.regs[ins.a := Func(ins.b, Upvals(|vm.cells|))])).(cells :=
          vm.cells + [Vm.Range(f.regs, ins.a + 1, ins.c)]))
      else Finish(env, ch, vm, Err(Ascii("CLOSURE bad proto")))
  {
    hide Finish, SetTop, Vm.Range;
  }

  lemma LoadCellIs(env: Env, ch: Chunk, vm: VM, f: Frame, ins: Instr)
    requires vm.frames != [] && ins.op == GETUPV
    ensures ExecOther(env, ch, vm, f, ins) ==
      if ins.b < |Cells(vm, f.ups)| then Running(SetTop(vm, f.(regs := f.regs[ins.a := Cells(vm, f.ups)[ins.b]])))
      else Finish(env, ch, vm, Err(Ascii("GETUPV OOB")))
  {
    hide Finish, SetTop, Cells;
  }

  lemma StoreCellIs(env: Env, ch: Chunk, vm: VM, f: Frame, ins: Instr)
    requires vm.frames != [] && ins.op == SETUPV
    ensures Cells(vm, f.ups) != [] ==> f.ups.Upvals? && f.ups.id < |vm.cells|
    ensures ExecOther(env, ch, vm, f, ins) ==
      if ins.a < |Cells(vm, f.ups)| then
        Running(SetTop(vm, f).(cells := vm.cells[f.ups.id := Cells(vm, f.ups)[ins.a := Get(f.regs, ins.b)]]))
      else Finish(env, ch, vm, Err(Ascii("SETUPV OOB")))
  {
    hide Finish, SetTop;
  }

  /** Finish does not look at the frames it leaves. */
  lemma FinishAny(env: Env, ch: Chunk, vm: VM, fs: seq<Frame>, out: Outcome)
    ensures Finish(env, ch, vm.(frames := fs), out) == Finish(env, ch, vm, out)
  {
    hide Enter;
  }

  /** Exec replaces the running frame, whatever it was. */
  lemma ExecTop(env: Env, ch: Chunk, vm: VM, f: Frame, ins: Instr)
    requires vm.frames != []
    ensures SetTop(vm, f).frames != [] && Exec(env, ch, SetTop(vm, f), f, ins) == Exec(env, ch, vm, f, ins)
  {
    hide Finish, Enter, Unwind, DoReturn, NewFrame, Truthy, AsStr, ConstText, ConstToValue, Operands, IsPrim, Release;
    var d := SetTop(vm, f);
    assert d.frames[..|d.frames| - 1] == vm.frames[..|vm.frames| - 1];
    forall g: Frame
      ensures SetTop(d, g) == SetTop(vm, g)
    {
    }
    forall out: Outcome
      ensures Finish(env, ch, d, out) == Finish(env, ch, vm, out)
    {
      FinishAny(env, ch, vm, d.frames, out);
    }
  }

  lemma {:induction false} Unhandled(vs: seq<Frame>, n: nat, msg: Text)
    requires n <= |vs| && forall k :: n <= k < |vs| ==> vs[k].tries == []
    ensures Unwind(vs, msg) == Unwind(vs[..n], msg)
    ensures n == 0 ==> Unwind(vs, msg) == Uncaught
    decreases |vs|
  {
    if n < |vs| {
      Unhandled(vs[..|vs| - 1], n, msg);
      assert vs[..|vs| - 1][..n] == vs[..n];
    } else {
      assert vs[..n] == vs;
    }
  }

  lemma {:induction false} HandledAt(vs: seq<Frame>, i: nat, msg: Text)
    requires i < |vs| && vs[i].tries != []
    ensures var f := vs[i];
      var t := f.tries[|f.tries| - 1];
      Unwind(vs[..i + 1], msg) ==
      Caught(vs[..i] + [f.(regs := f.regs[t.errReg := Str(FirstLine(msg))], ip := t.catchIp, tries :=
        f.tries[..|f.tries| - 1])])
  {
    var w := vs[..i + 1];
    assert w[..|w| - 1] == vs[..i] && w[|w| - 1] == vs[i];
  }
}
