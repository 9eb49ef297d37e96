/**
 The calls a program with a meaning makes: along every chain of active frames the functions are
 all different, so no script is entered while a frame of it is active.
 */
module VmCallTree {
  import opened Chars
  import opened VmState
  import opened VmSemantics
  import opened VmEmit
  import opened VmProgram
  import opened VmRuns
  import opened VmBinding
  import opened VmParameters
  import opened VmWorld
  import opened VmBodies
  import opened VmCalls
  import opened VmTraces
  import R = VmRefinement

  /** No active frame runs a function that is free to be called. */
  ghost predicate Outside(vm: Vm, free: set<nat>) {
    forall f :: f in Active(vm.frames, vm.frame) ==> vm.frames[f].fun !in free
  }

  ghost predicate Tame(v: Visit) { NoReentry(v) && Spares(v) }

  ghost predicate AllTame(visits: seq<Visit>) { forall v :: v in visits ==> Tame(v) }

  lemma AllTameAppend(a: seq<Visit>, b: seq<Visit>)
    ensures AllTame(a + b) <==> AllTame(a) && AllTame(b)
  {
    assert forall v :: v in a + b <==> v in a || v in b;
  }

  /** Code without calls, inside a frame, is tame. */
  lemma PlainTame(vm: Vm, depth: nat, script: Script, instrs: seq<Instr>, result: Datum)
    requires NoCalls(instrs) && (vm.frame.Some? || NoAssigns(instrs))
    ensures AllTame(VisitedList(vm, depth, script, instrs, result))
  {
    ListPlain(vm, depth, script, instrs, result);
  }

  lemma OutsideStays(vm: Vm, vm': Vm, free: set<nat>)
    requires Outside(vm, free) && vm'.frame == vm.frame && (vm.frame.Some? ==> vm.frame.value < |vm.frames|)
    requires |vm.frames| <= |vm'.frames|
    requires forall i :: 0 <= i < |vm.frames| ==> vm'.frames[i] == vm.frames[i].(nvars := vm'.frames[i].nvars)
    ensures Outside(vm', free)
  {
    ActiveStays(vm.frames, vm'.frames, vm.frame);
  }

  /** In the callee the new frame is added, of function g itself. */
  lemma OutsideInside(vm: Vm, inner: Vm, prog: Program, free: set<nat>, p: nat, g: nat, vals: seq<int>)
    requires g < |vm.scripts| && g < |prog.fns| && Started(vm, inner, prog, p, g, vals)
    requires Outside(vm, free) && (vm.frame.Some? ==> vm.frame.value < |vm.frames|)
    ensures Outside(inner, free - {g})
  {
    ActiveStays(vm.frames, inner.frames, vm.frame);
    var n := |vm.frames|;
    assert inner.frames[n] == NewFrame(vm, p, g, |vals|);
    forall f | f in Active(inner.frames, inner.frame)
      ensures inner.frames[f].fun !in free - {g}
    {
      if f != n {
        assert f in Active(vm.frames, vm.frame) && inner.frames[f] == vm.frames[f];
      }
    }
  }

  /** A call of a free function reenters nothing. */
  lemma CallTame(vm: Vm, prog: Program, free: set<nat>, genv: Env, env: Env, bound: nat, p: nat, g: nat, vals: seq<int>)
    requires READY(vm, prog, genv, env, bound, p, g, vals) && Outside(vm, free) && g in free
    ensures Tame(Visit(vm, CALL(|vals|)))
  {
    assert FnLoaded(vm, prog, g);
    assert Callee(vm, |vals|) == Some(g);
    forall f | f in Active(vm.frames, vm.frame) && vm.frames[f].fun < |vm.functions|
      ensures vm.functions[vm.frames[f].fun].script != g
    {
      assert FnLoaded(vm, prog, vm.frames[f].fun);
    }
  }

  /** CALL, with all it visits. */
  lemma {:induction false} FnTame(vm: Vm, depth: nat, prog: Program, free: set<nat>, genv: Env, env: Env, bound: nat,
                                  p: nat, g: nat, vals: seq<int>, v: int)
    requires READY(vm, prog, genv, env, bound, p, g, vals) && EvalFn(prog, free, g, vals, genv) == Some(v) && Outside(vm, free)
    requires depth >= |free| && vm.ptr + Room(prog.fns, free) <= |vm.data|
    ensures AllTame(VisitedBy(vm, depth, CALL(|vals|)))
    decreases free, 4
  {
    FreeCallee(prog, free, g, vals, genv);
    var below: nat := depth - 1;
    CallTame(vm, prog, free, genv, env, bound, p, g, vals);
    var inner := InnerOf(vm, depth, below, prog, genv, env, bound, p, g, vals);
    CalleeTame(vm, inner, below, prog, free, genv, p, g, vals, v);
    AllTameAppend([Visit(vm, CALL(|vals|))], VisitedInCall(vm, depth, |vals|));
  }

  lemma InnerOf(vm: Vm, depth: nat, below: nat, prog: Program, genv: Env, env: Env, bound: nat, p: nat, g: nat, vals: seq<int>)
    returns (inner: Vm)
    requires READY(vm, prog, genv, env, bound, p, g, vals) && depth == below + 1
    ensures Started(vm, inner, prog, p, g, vals) && inner.staticLink == |vm.scopes|
    ensures VisitedInCall(vm, depth, |vals|) == Visited(inner, below, vm.scripts[g], 0, Undef)
  {
    EnterRuns(vm, prog, genv, env, bound, p, g, vals);
    assert FnLoaded(vm, prog, g);
    inner := Enter(vm, |vals|).(staticLink := |vm.scopes|);
    VisitedUnfolds(vm, depth, below, |vals|, NewFrame(vm, p, g, |vals|), vm.scripts[g]);
  }

  lemma VisitedUnfolds(vm: Vm, depth: nat, below: nat, argc: nat, frame: Frame, callee: Script)
    requires vm.status == Running && depth == below + 1 && Enter(vm, argc).status == Running
    requires frame == Enter(vm, argc).frames[|vm.frames|] && callee == CalleeOf(Enter(vm, argc), frame)
    ensures VisitedInCall(vm, depth, argc) == Visited(Enter(vm, argc).(staticLink := frame.scope), below, callee, 0, Undef)
  {}

  lemma {:induction false} CalleeTame(vm: Vm, inner: Vm, depth: nat, prog: Program, free: set<nat>, genv: Env, p: nat, g: nat, vals: seq<int>, v: int)
    requires vm.status == Running && Loaded(vm, prog) && GlobalsHold(vm, prog, genv) && Outside(vm, free)
    requires g < |prog.fns| && |prog.fns[g].params| <= |vals| && EvalFn(prog, free, g, vals, genv) == Some(v)
    requires vm.ptr == p + 1 + |vals| && depth + 1 >= |free| && vm.ptr + Room(prog.fns, free) <= |vm.data|
    requires vm.frame.Some? ==> vm.frame.value < |vm.frames|
    requires Started(vm, inner, prog, p, g, vals) && inner.staticLink == |vm.scopes|
    ensures AllTame(Visited(inner, depth, vm.scripts[g], 0, Undef))
    decreases free, 3
  {
    CalleeStarts(vm, inner, prog, genv, p, g, vals);
    OutsideInside(vm, inner, prog, free, p, g, vals);
    BodyTame(inner, depth, prog, free, genv, g, vals, ArgumentSlots(prog.fns[g].params, p + 1), |vm.frames|, v);
  }

  lemma {:induction false} BodyTame(vm: Vm, depth: nat, prog: Program, free: set<nat>, genv: Env, g: nat, vals: seq<int>,
                                    places: map<nat, nat>, f: nat, v: int)
    requires g < |prog.fns| && |prog.fns[g].params| <= |vals| && EvalFn(prog, free, g, vals, genv) == Some(v)
    requires InBody(vm, prog, genv, BindParams(prog.fns[g].params, vals), places, f)
    requires vm.frames[f].fun == g && vm.frames[f].nvars == 0 && Outside(vm, free - {g})
    requires depth + 1 >= |free| && vm.ptr + Room(prog.fns, free) <= |vm.data|
    ensures AllTame(Visited(vm, depth, vm.scripts[g], 0, Undef))
    decreases free, 2
  {
    FreeCallee(prog, free, g, vals, genv);
    assert vm.frame == Some(f);
    hide *;
    var lets, ret := prog.fns[g].body.lets, prog.fns[g].body.ret;
    var vm1, lenv', places' := R.BodyLets(vm, depth, prog, free, genv, g, vals, places, f, v);
    VisitedEncoded(vm, depth, vm.scripts[g], [], GenBody(prog.fns[g].body), Undef);
    R.BodyInParts(prog.fns[g].body);
    OutsideInBody(vm, vm1, f, free - {g});
    RetTame(vm1, depth, prog, free - {g}, genv, g, lenv', places', f, v);
    LetsTame(vm, vm1, depth, vm.scripts[g], lets, GenRet(ret));
  }

  lemma OutsideInBody(vm: Vm, vm': Vm, f: nat, free: set<nat>)
    requires Inside(vm, vm', f) && vm.frame == Some(f) && Outside(vm, free)
    ensures Outside(vm', free)
  {
    OutsideStays(vm, vm', free);
  }

  lemma LetsTame(vm: Vm, vm1: Vm, depth: nat, script: Script, lets: seq<Let>, more: seq<Instr>)
    requires vm.frame.Some? && RunList(vm, depth, script, GenLets(lets), Undef) == Conf(vm1, Undef)
    requires AllTame(VisitedList(vm1, depth, script, more, Undef))
    ensures AllTame(VisitedList(vm, depth, script, GenLets(lets) + more, Undef))
  {
    LetsCode(lets);
    PlainTame(vm, depth, script, GenLets(lets), Undef);
    VisitedAppend(vm, depth, script, GenLets(lets), more, Undef);
    AllTameAppend(VisitedList(vm, depth, script, GenLets(lets), Undef), VisitedList(vm1, depth, script, more, Undef));
  }

  lemma {:induction false} RetTame(vm: Vm, depth: nat, prog: Program, free: set<nat>, genv: Env, g: nat, lenv: Env,
                                   places: map<nat, nat>, f: nat, v: int)
    requires g < |prog.fns| && EvalRet(prog, free, g, genv, lenv) == Some(v) && g !in free
    requires InBody(vm, prog, genv, lenv, places, f) && vm.frames[f].fun == g && Outside(vm, free)
    requires AllEncodable(GenRet(prog.fns[g].body.ret))
    requires depth >= |free| && vm.ptr + |GenRet(prog.fns[g].body.ret)| + Room(prog.fns, free) <= |vm.data|
    ensures AllTame(VisitedList(vm, depth, vm.scripts[g], GenRet(prog.fns[g].body.ret), Undef))
    decreases free, 6
  {
    var def, script := prog.fns[g], vm.scripts[g];
    assert FnLoaded(vm, prog, g);
    match def.body.ret
    case Value(e) =>
      ExprCode(e);
      PlainTame(vm, depth, script, GenExpr(e) + [RETURN(1)], Undef);
    case Tail(fun, args) =>
      AllEncodableAppend(GenCall(fun, args), [RETURN(1)]);
      TailTame(vm, depth, script, prog, free, genv, g, lenv, places, f, fun, args, v);
      VisitedAppend(vm, depth, script, GenCall(fun, args), [RETURN(1)], Undef);
      var c := RunList(vm, depth, script, GenCall(fun, args), Undef);
      PlainTame(c.vm, depth, script, [RETURN(1)], c.result);
      AllTameAppend(VisitedList(vm, depth, script, GenCall(fun, args), Undef), VisitedList(c.vm, depth, script, [RETURN(1)], c.result));
  }

  lemma {:induction false} TailTame(vm: Vm, depth: nat, script: Script, prog: Program, free: set<nat>, genv: Env, g: nat, lenv: Env,
                                    places: map<nat, nat>, f: nat, fun: nat, args: seq<Expr>, v: int)
    requires g < |prog.fns| && prog.fns[g].body.ret == Tail(fun, args) && EvalRet(prog, free, g, genv, lenv) == Some(v) && g !in free
    requires InBody(vm, prog, genv, lenv, places, f) && vm.frames[f].fun == g && Outside(vm, free)
    requires AllEncodable(GenCall(fun, args)) && script.atoms == prog.fns[g].table
    requires depth >= |free| && vm.ptr + |GenCall(fun, args)| + Room(prog.fns, free) <= |vm.data|
    ensures AllTame(VisitedList(vm, depth, script, GenCall(fun, args), Undef))
    decreases free, 5
  {
    var h, xs := TailCallee(prog, free, g, genv, lenv, v);
    var ready := R.BodyCallReady(vm, depth, script, prog, genv, g, lenv, places, f, fun, args, h, xs);
    OutsideStays(vm, ready, free);
    FnTame(ready, depth, prog, free, genv, genv + lenv, vm.ptr, vm.ptr, h, xs, v);
    CallCodeTame(vm, ready, depth, script, fun, args, Undef);
  }

  /** The code of a call visits plain states, then those of CALL. */
  lemma CallCodeTame(vm: Vm, ready: Vm, depth: nat, script: Script, fun: nat, args: seq<Expr>, result: Datum)
    requires RunList(vm, depth, script, [NAME(fun)] + GenArgs(args), result) == Conf(ready, result) && ready.status == Running
    requires AllTame(VisitedBy(ready, depth, CALL(|args|)))
    ensures AllTame(VisitedList(vm, depth, script, GenCall(fun, args), result))
  {
    var first, last := [NAME(fun)] + GenArgs(args), [CALL(|args|)];
    assert GenCall(fun, args) == first + last;
    ArgsCode(args);
    PlainTame(vm, depth, script, first, result);
    VisitedAppend(vm, depth, script, first, last, result);
    VisitedOne(ready, depth, script, CALL(|args|), result);
    AllTameAppend(VisitedList(vm, depth, script, first, result), VisitedBy(ready, depth, CALL(|args|)));
  }

  // ---------- the main program ----------

  /** The target of a top-level assignment is no parameter. */
  lemma TargetIsNoParameter(vm: Vm, prog: Program, genv: Env, a: nat)
    requires Loaded(vm, prog) && GlobalsHold(vm, prog, genv) && vm.staticLink == 0
    requires a < |prog.atoms| && FnIndex(prog.fns, a) == None
    requires 2 <= vm.ptr <= |vm.data| && vm.data[vm.ptr - 1] == AtomRef(a)
    ensures !AssignsParameter(vm)
  {
    assert GlobalHolds(vm, prog, genv, a);
    var s := FindInList(vm.symbols, vm.scopes[0].list, a);
    forall i | s.Some? && 0 <= i < |vm.scripts|
      ensures s.value !in Params(vm, i)
    {
      LoadedBare(vm, prog, i);
    }
  }

  lemma LoadedBare(vm: Vm, prog: Program, i: nat)
    requires Loaded(vm, prog) && i < |vm.scripts|
    ensures forall s :: s in Params(vm, i) ==> IsBare(vm.symbols, s)
  {
    assert FnLoaded(vm, prog, i);
    var chain := Params(vm, i);
    forall s | s in chain
      ensures IsBare(vm.symbols, s)
    {
      var k :| 0 <= k < |chain| && chain[k] == s;
      assert IsParameter(vm.symbols, chain[k], prog.fns[i].params[k]);
    }
  }

  /** The value of a statement. */
  lemma TopValueTame(vm: Vm, depth: nat, script: Script, prog: Program, genv: Env, top: Top, v: int, result: Datum)
    requires AtTop(vm, prog, genv) && script.atoms == prog.table && TopNumber(prog, genv, top) == Some(v)
    requires AllEncodable(GenTop(top)) && depth >= |prog.fns|
    requires vm.ptr + |GenTop(top)| + Room(prog.fns, AllFns(prog)) <= |vm.data|
    ensures AllTame(VisitedList(vm, depth, script, GenTopValue(top), result))
  {
    AllEncodableAppend(GenTopValue(top), GenStore(top.target));
    match top
    case Assign(_, e) =>
      ExprCode(e);
      PlainTame(vm, depth, script, GenExpr(e), result);
    case Call(_, fun, args) =>
      TopCallTame(vm, depth, script, prog, genv, fun, args, v, result);
  }

  lemma NoneActive(vm: Vm, free: set<nat>)
    requires vm.frame == None
    ensures Outside(vm, free)
  {}

  lemma TopFnTame(vm: Vm, depth: nat, prog: Program, genv: Env, p: nat, g: nat, vals: seq<int>, v: int)
    requires READY(vm, prog, genv, genv, p, p, g, vals) && g < |prog.fns| && EvalFn(prog, AllFns(prog), g, vals, genv) == Some(v)
    requires vm.status == Running && vm.frame == None && depth >= |prog.fns| && vm.ptr + Room(prog.fns, AllFns(prog)) <= |vm.data|
    ensures vm.status == Running && AllTame(VisitedBy(vm, depth, CALL(|vals|)))
  {
    hide *;
    NoneActive(vm, AllFns(prog));
    AllFnsSize(prog);
    FnTame(vm, depth, prog, AllFns(prog), genv, genv, p, p, g, vals, v);
  }

  lemma TopCallTame(vm: Vm, depth: nat, script: Script, prog: Program, genv: Env, fun: nat, args: seq<Expr>, v: int, result: Datum)
    requires AtTop(vm, prog, genv) && script.atoms == prog.table && CallNumber(prog, genv, fun, args) == Some(v)
    requires AllEncodable(GenCall(fun, args)) && depth >= |prog.fns|
    requires vm.ptr + |GenCall(fun, args)| + Room(prog.fns, AllFns(prog)) <= |vm.data|
    ensures AllTame(VisitedList(vm, depth, script, GenCall(fun, args), result))
  {
    var g, xs := FnAt(prog, prog.table, genv, fun).value, EvalArgs(prog.atoms, prog.table, genv, args).value;
    var ready := R.TopReady(vm, depth, script, prog, genv, fun, args, g, xs, result);
    TopFnTame(ready, depth, prog, genv, vm.ptr, g, xs, v);
    CallCodeTame(vm, ready, depth, script, fun, args, result);
  }

  /** The assignment behind it. */
  lemma StoreTame(vm: Vm, depth: nat, script: Script, target: nat, a: nat, prog: Program, genv: Env, result: Datum)
    requires vm.status == Running && Loaded(vm, prog) && GlobalsHold(vm, prog, genv) && vm.staticLink == 0
    requires NameAt(prog.atoms, script.atoms, target) == Some(a) && FnIndex(prog.fns, a) == None
    requires 0 < vm.ptr < |vm.data|
    ensures AllTame(VisitedList(vm, depth, script, GenStore(target), result))
  {
    var vm1 := Push(vm, AtomRef(a));
    assert GenStore(target)[1..] == [Instr.ASSIGN];
    VisitedOne(vm1, depth, script, Instr.ASSIGN, result);
    R.WorldStays(vm, vm1, prog, genv);
    TargetIsNoParameter(vm1, prog, genv, a);
    assert VisitedBy(vm, depth, NAME(target)) == [Visit(vm, NAME(target))];
    assert VisitedBy(vm1, depth, Instr.ASSIGN) == [Visit(vm1, Instr.ASSIGN)];
  }

  lemma TopTame(vm: Vm, depth: nat, script: Script, prog: Program, genv: Env, top: Top, genv': Env, result: Datum)
    requires AtTop(vm, prog, genv) && script.atoms == prog.table && EvalTop(prog, genv, top) == Some(genv')
    requires AllEncodable(GenTop(top)) && depth >= |prog.fns|
    requires vm.ptr + |GenTop(top)| + Room(prog.fns, AllFns(prog)) <= |vm.data|
    ensures AllTame(VisitedList(vm, depth, script, GenTop(top), result))
  {
    var a, v := NameAt(prog.atoms, prog.table, top.target).value, TopNumber(prog, genv, top).value;
    var base, left := R.TopValue(vm, depth, script, prog, genv, top, v, result);
    TopValueTame(vm, depth, script, prog, genv, top, v, result);
    R.WorldStays(base, left, prog, genv);
    StoreTame(left, depth, script, top.target, a, prog, genv, result);
    VisitedAppend(vm, depth, script, GenTopValue(top), GenStore(top.target), result);
    AllTameAppend(VisitedList(vm, depth, script, GenTopValue(top), result),
                  VisitedList(left, depth, script, GenStore(top.target), result));
  }

  lemma {:induction false} MainTame(vm: Vm, depth: nat, script: Script, prog: Program, genv: Env, main: seq<Top>, genv': Env, result: Datum)
    requires AtTop(vm, prog, genv) && script.atoms == prog.table && EvalMain(prog, genv, main) == Some(genv')
    requires AllEncodable(GenMain(main)) && depth >= |prog.fns|
    requires vm.ptr + |GenMain(main)| + Room(prog.fns, AllFns(prog)) <= |vm.data|
    ensures AllTame(VisitedList(vm, depth, script, GenMain(main), result))
    decreases |main|
  {
    if main != [] {
      AllEncodableAppend(GenTop(main[0]), GenMain(main[1..]));
      var next := EvalTop(prog, genv, main[0]).value;
      TopTame(vm, depth, script, prog, genv, main[0], next, result);
      R.TopRuns(vm, depth, script, prog, genv, main[0], next, result);
      var mid := RunList(vm, depth, script, GenTop(main[0]), result);
      MainTame(mid.vm, depth, script, prog, next, main[1..], genv', result);
      VisitedAppend(vm, depth, script, GenTop(main[0]), GenMain(main[1..]), result);
      AllTameAppend(VisitedList(vm, depth, script, GenTop(main[0]), result),
                    VisitedList(mid.vm, depth, script, GenMain(main[1..]), mid.result));
    }
  }

  /**
   A program the evaluator gives a meaning never enters a script of which a frame is active, and
   never assigns to a parameter outside all calls, in any state of its run.
   */
  lemma MeaningIsTame(vm: Vm, depth: nat, script: Script, prog: Program, genv: Env, genv': Env, result: Datum)
    requires AtTop(vm, prog, genv) && EvalMain(prog, genv, prog.main) == Some(genv')
    requires script.atoms == prog.table && AllEncodable(GenMain(prog.main)) && script.code == Encode(GenMain(prog.main))
    requires depth >= |prog.fns| && vm.ptr + |GenMain(prog.main)| + Room(prog.fns, AllFns(prog)) <= |vm.data|
    ensures forall v :: v in Visited(vm, depth, script, 0, result) ==> NoReentry(v) && Spares(v)
  {
    assert script.code == [] + Encode(GenMain(prog.main));
    VisitedEncoded(vm, depth, script, [], GenMain(prog.main), result);
    MainTame(vm, depth, script, prog, genv, prog.main, genv', result);
    assert forall v :: v in Visited(vm, depth, script, 0, result) ==> Tame(v);
  }
}
