/**
 The machine refines the evaluator: the run over the code emitted for a program leaves every
 global with the number the evaluator gives it.
 */
module VmRefinement {
  import opened Chars
  import opened VmState
  import opened VmSemantics
  import opened VmEmit
  import opened VmProgram
  import opened VmExpressions
  import opened VmBinding
  import opened VmWorld
  import opened VmBodies
  import opened VmCalls

  /** What a call leaves: the function slot, on it the value; everything older as it was but for rebound parameters. */
  ghost predicate Called(vm: Vm, vm': Vm, p: nat, g: nat, v: int) {
    && vm' == vm.(symbols := vm'.symbols, scopes := vm'.scopes, frames := vm'.frames, data := vm'.data, ptr := vm'.ptr)
    && Extends(vm.symbols, vm'.symbols)
    && |vm.frames| <= |vm'.frames| && (forall i :: 0 <= i < |vm.frames| ==> vm'.frames[i] == vm.frames[i])
    && |vm.scopes| <= |vm'.scopes| && (forall i :: 0 <= i < |vm.scopes| ==> vm'.scopes[i] == vm.scopes[i])
    && |vm'.data| == |vm.data| && (forall i :: 0 <= i < p && i < |vm.data| ==> vm'.data[i] == vm.data[i])
    && vm'.ptr == p + 2 <= |vm.data| && vm'.data[p] == FunctionRef(g) && IsNumber(vm'.data[p + 1], v)
  }

  // As values these are not taken apart where they are only passed on.
  ghost const CALLED: (Vm, Vm, nat, nat, int) -> bool := (vm: Vm, vm': Vm, p: nat, g: nat, v: int) => Called(vm, vm', p, g, v)

  /** CALL comes back with the state left. */
  ghost const COMES_BACK: (Vm, nat, Script, nat, Datum, Vm) -> bool :=
    (vm: Vm, depth: nat, script: Script, argc: nat, result: Datum, left: Vm) =>
      Exec(vm, depth, script, CALL(argc), result) == Conf(left, result)

  /** Code that ends in such a CALL comes back with it. */
  lemma EndsInCall(vm: Vm, ready: Vm, depth: nat, script: Script, code: seq<Instr>, argc: nat, result: Datum, left: Vm)
    requires RunList(vm, depth, script, code, result) == Exec(ready, depth, script, CALL(argc), result)
    requires COMES_BACK(ready, depth, script, argc, result, left)
    ensures RunList(vm, depth, script, code, result) == Conf(left, result)
  {}

  // ---------- the callee's return ----------

  lemma ReturnRuns(vm: Vm, depth: nat, script: Script, env: Env, bound: nat, v: int, result: Datum)
    returns (n: Datum)
    requires vm.status == Running && Reads(vm, env, bound) && bound < vm.ptr <= |vm.data|
    requires Denotes(vm.atoms, env, vm.data[vm.ptr - 1], v)
    ensures IsNumber(n, v)
    ensures RunList(vm, depth, script, [RETURN(1)], result)
         == Conf(vm.(data := vm.data[vm.ptr - 1 := n], ptr := vm.ptr - 1), n)
  {
    RunOne(vm, depth, script, RETURN(1), result);
    n := ResolveDenoted(vm, env, bound, vm.ptr - 1, v);
  }

  lemma NumberReturns(vm: Vm, depth: nat, script: Script, n: Datum, result: Datum)
    requires vm.status == Running && 0 < vm.ptr <= |vm.data| && vm.data[vm.ptr - 1] == n && n.Number?
    ensures RunList(vm, depth, script, [RETURN(1)], result) == Conf(vm.(ptr := vm.ptr - 1), n)
  {
    RunOne(vm, depth, script, RETURN(1), result);
    assert vm.data[vm.ptr - 1 := n] == vm.data;
  }

  /** return e */
  lemma ValueReturns(vm: Vm, depth: nat, script: Script, prog: Program, genv: Env, lenv: Env, places: map<nat, nat>, f: nat,
                     e: Expr, v: int, result: Datum)
    requires InBody(vm, prog, genv, lenv, places, f) && EvalExpr(prog.atoms, script.atoms, genv + lenv, e) == Some(v)
    requires vm.ptr + |GenExpr(e)| <= |vm.data|
    ensures var c := RunList(vm, depth, script, GenRet(Value(e)), result);
            IsNumber(c.result, v) && Inside(vm, c.vm, f)
  {
    var env := genv + lenv;
    BodyReads(vm, prog, genv, lenv, places, f);
    ExprRuns(vm, depth, script, e, env, v, vm.ptr, result);
    var c1 := RunList(vm, depth, script, GenExpr(e), result);
    RunListAppend(vm, depth, script, GenExpr(e), [RETURN(1)], result);
    ReadsStay(vm, c1.vm, env, vm.ptr);
    var n := ReturnRuns(c1.vm, depth, script, env, vm.ptr, v, result);
    BodyStays(vm, c1.vm.(data := c1.vm.data[vm.ptr := n], ptr := vm.ptr), prog, genv, lenv, places, f);
  }

  // ---------- what a body sees of functions ----------

  /** The name stands for function g. */
  ghost predicate Visible(vm: Vm, a: nat, g: nat) {
    var s := FindSymbol(vm.symbols, vm.scopes, Some(vm.staticLink), a);
    s.Some? && vm.symbols[s.value].kind == PROPERTY && vm.symbols[s.value].value == Some(FunctionRef(g))
  }

  lemma VisibleInBody(vm: Vm, prog: Program, genv: Env, lenv: Env, places: map<nat, nat>, f: nat, a: nat, g: nat)
    requires InBody(vm, prog, genv, lenv, places, f) && a < |prog.atoms| && a !in lenv && FnIndex(prog.fns, a) == Some(g)
    ensures Visible(vm, a, g)
  {
    assert LocalHolds(vm, lenv, places, f, a);
    assert GlobalHolds(vm, prog, genv, a);
    assert FindSymbol(vm.symbols, vm.scopes, Some(0), a) == FindInList(vm.symbols, vm.scopes[0].list, a);
  }

  /** A function's names are neither another function's parameters nor younger than its own scope. */
  lemma ApartInBody(vm: Vm, prog: Program, genv: Env, lenv: Env, places: map<nat, nat>, f: nat, g: nat)
    requires InBody(vm, prog, genv, lenv, places, f) && g < |prog.fns| && vm.frames[f].fun != g
    ensures Apart(vm, genv + lenv, Chain(vm.symbols, vm.scripts[g].args))
  {
    var chain, fun := Chain(vm.symbols, vm.scripts[g].args), vm.frames[f].fun;
    assert FnLoaded(vm, prog, g);
    assert forall s :: s in chain ==> s !in Chain(vm.symbols, vm.scripts[fun].args);
    forall a | a in genv + lenv && a < |vm.atoms| && vm.atoms[a].Name?
      ensures ApartName(vm, a, chain)
    {
      assert LocalHolds(vm, lenv, places, f, a);
      assert GlobalHolds(vm, prog, genv, a);
      assert FindSymbol(vm.symbols, vm.scopes, Some(0), a) == FindInList(vm.symbols, vm.scopes[0].list, a);
    }
  }

  // ---------- calls ----------

  /** Nothing but data and pointer changed: what held of the program still does. */
  lemma WorldStays(vm: Vm, vm': Vm, prog: Program, genv: Env)
    requires Loaded(vm, prog) && GlobalsHold(vm, prog, genv) && vm' == vm.(data := vm'.data, ptr := vm'.ptr)
    ensures Loaded(vm', prog) && GlobalsHold(vm', prog, genv)
  {
    assert Extends(vm.symbols, vm'.symbols);
    LoadedExtend(vm, vm', prog);
    GlobalsExtend(vm, vm', prog, genv);
  }

  /** Function slot and arguments are in place: CALL may come. */
  lemma NowReady(vm: Vm, ready: Vm, prog: Program, genv: Env, env: Env, a: nat, g: nat, xs: seq<int>)
    requires vm.status == Running && Loaded(vm, prog) && GlobalsHold(vm, prog, genv) && Reads(vm, env, vm.ptr)
    requires g < |prog.fns| && |prog.fns[g].params| <= |xs| < 256
    requires a < |vm.atoms| && vm.atoms[a].Name? && Visible(vm, a, g)
    requires Apart(vm, env, Chain(vm.symbols, vm.scripts[g].args))
    requires vm.staticLink < |vm.scopes| && (vm.frame.Some? ==> vm.frame.value < |vm.frames|)
    requires SameBelow(vm, ready, vm.ptr) && ready.ptr == vm.ptr + 1 + |xs| <= |vm.data| && ready.data[vm.ptr] == AtomRef(a)
    requires ArgsDenote(ready, env, vm.ptr + 1, xs)
    ensures READY(ready, prog, genv, env, vm.ptr, vm.ptr, g, xs)
  {
    WorldStays(vm, ready, prog, genv);
    ReadsStay(vm, ready, env, vm.ptr);
    ApartStays(vm, ready, env, Chain(vm.symbols, vm.scripts[g].args));
    assert Visible(ready, a, g);
  }

  lemma NameRuns(vm: Vm, depth: nat, script: Script, i: nat, a: nat, more: seq<Instr>, result: Datum)
    requires vm.status == Running && i < |script.atoms| && script.atoms[i] == a
    ensures RunList(vm, depth, script, [NAME(i)] + more, result) == RunList(Push(vm, AtomRef(a)), depth, script, more, result)
  {
    assert ([NAME(i)] + more)[1..] == more;
  }

  /** The code of a call, up to CALL. */
  lemma CallCode(vm: Vm, depth: nat, script: Script, env: Env, fun: nat, args: seq<Expr>, a: nat, xs: seq<int>, result: Datum)
    returns (ready: Vm)
    requires vm.status == Running && Reads(vm, env, vm.ptr)
    requires NameAt(vm.atoms, script.atoms, fun) == Some(a) && EvalArgs(vm.atoms, script.atoms, env, args) == Some(xs)
    requires vm.ptr + |GenCall(fun, args)| <= |vm.data|
    ensures SameBelow(vm, ready, vm.ptr) && ready.ptr == vm.ptr + 1 + |xs| && ready.ptr < vm.ptr + |GenCall(fun, args)|
    ensures ready.data[vm.ptr] == AtomRef(a) && ArgsDenote(ready, env, vm.ptr + 1, xs)
    ensures RunList(vm, depth, script, GenCall(fun, args), result) == Exec(ready, depth, script, CALL(|xs|), result)
    ensures RunList(vm, depth, script, [NAME(fun)] + GenArgs(args), result) == Conf(ready, result)
  {
    var vm1 := Push(vm, AtomRef(a));
    NameRuns(vm, depth, script, fun, a, GenArgs(args) + [CALL(|args|)], result);
    NameRuns(vm, depth, script, fun, a, GenArgs(args), result);
    ReadsStay(vm, vm1, env, vm.ptr);
    ArgsRun(vm1, depth, script, args, env, xs, vm.ptr, result);
    ready := RunList(vm1, depth, script, GenArgs(args), result).vm;
    RunListAppend(vm1, depth, script, GenArgs(args), [CALL(|args|)], result);
    RunOne(ready, depth, script, CALL(|args|), result);
    OverFunctionSlot(vm, vm1, ready, env, a, xs);
  }

  lemma OverFunctionSlot(vm: Vm, vm1: Vm, ready: Vm, env: Env, a: nat, xs: seq<int>)
    requires vm.ptr < |vm.data| && vm1 == Push(vm, AtomRef(a)) && PushesAll(vm1, ready, env, xs)
    ensures SameBelow(vm, ready, vm.ptr) && ready.ptr == vm.ptr + 1 + |xs|
    ensures ready.data[vm.ptr] == AtomRef(a) && ArgsDenote(ready, env, vm.ptr + 1, xs)
  {}

  /** An operand fits a byte, so there are never more arguments than that. */
  lemma FewArguments(fun: nat, args: seq<Expr>)
    requires AllEncodable(GenCall(fun, args))
    ensures |args| < 256
  {
    assert GenCall(fun, args)[|GenCall(fun, args)| - 1] == CALL(|args|);
  }

  /** What the caller sees of a call, put together from its parts. */
  lemma CallerSees(vm: Vm, inner: Vm, done: Vm, prog: Program, p: nat, g: nat, vals: seq<int>, v: int, n: Datum)
    requires IsNumber(n, v) && vm.status == Running && Loaded(vm, prog)
    requires g < |prog.fns| && |prog.fns[g].params| <= |vals| && vm.ptr == p + 1 + |vals| < |vm.data|
    requires Started(vm, inner, prog, p, g, vals) && Inside(inner, done, |vm.frames|)
    ensures Called(vm, Leave(done.(staticLink := vm.staticLink), NewFrame(vm, p, g, |vals|), n), p, g, v)
  {
    StartedSymbols(vm, inner, prog, p, g, vals);
    ExtendsTrans(vm.symbols, inner.symbols, done.symbols);
    assert inner.frames[|vm.frames|] == NewFrame(vm, p, g, |vals|);
    forall i | 0 <= i < |vm.frames|
      ensures done.frames[i] == vm.frames[i]
    {
      assert inner.frames[i] == vm.frames[i];
    }
    forall c | 0 <= c < |vm.scopes|
      ensures done.scopes[c] == vm.scopes[c]
    {
      assert inner.scopes[c] == vm.scopes[c];
    }
  }

  /** The state after a call whose callee's run ended in c. */
  function LeftBy(vm: Vm, c: Conf, frame: Frame): Vm { Leave(c.vm.(staticLink := vm.staticLink), frame, c.result) }

  /** CALL in one piece. */
  lemma CallUnfolds(vm: Vm, depth: nat, below: nat, script: Script, argc: nat, result: Datum, frame: Frame, callee: Script)
    requires vm.status == Running && depth == below + 1
    requires Enter(vm, argc).status == Running && Enter(vm, argc).staticLink == vm.staticLink
    requires frame == Enter(vm, argc).frames[|vm.frames|] && callee == CalleeOf(Enter(vm, argc), frame)
    ensures var c := Run(Enter(vm, argc).(staticLink := frame.scope), below, callee, 0, Undef);
            Exec(vm, depth, script, CALL(argc), result)
            == Conf(if c.vm.status == Running then LeftBy(vm, c, frame) else c.vm, result)
  {
    CallInOne(vm, depth, below, script, argc, result);
  }

  /** CALL: it comes back, with the state left. */
  lemma {:induction false} FnRuns(vm: Vm, depth: nat, script: Script, prog: Program, free: set<nat>, genv: Env, env: Env, bound: nat,
                                  p: nat, g: nat, vals: seq<int>, v: int, result: Datum) returns (left: Vm)
    requires READY(vm, prog, genv, env, bound, p, g, vals) && EvalFn(prog, free, g, vals, genv) == Some(v)
    requires depth >= |free| && vm.ptr + Room(prog.fns, free) <= |vm.data|
    ensures COMES_BACK(vm, depth, script, |vals|, result, left) && CALLED(vm, left, p, g, v)
    decreases free, 4
  {
    FreeCallee(prog, free, g, vals, genv);
    var below: nat := depth - 1;
    var inner := CallOpens(vm, depth, below, script, prog, genv, env, bound, p, g, vals, result);
    left := CallRuns(vm, inner, below, prog, free, genv, p, g, vals, v);
  }

  lemma CallOpens(vm: Vm, depth: nat, below: nat, script: Script, prog: Program, genv: Env, env: Env, bound: nat,
                  p: nat, g: nat, vals: seq<int>, result: Datum) returns (inner: Vm)
    requires READY(vm, prog, genv, env, bound, p, g, vals) && depth == below + 1
    ensures Started(vm, inner, prog, p, g, vals) && inner.staticLink == |vm.scopes|
    ensures var c := Run(inner, below, vm.scripts[g], 0, Undef);
            COMES_BACK(vm, depth, script, |vals|, result,
                       if c.vm.status == Running then LeftBy(vm, c, NewFrame(vm, p, g, |vals|)) else c.vm)
  {
    EnterRuns(vm, prog, genv, env, bound, p, g, vals);
    assert FnLoaded(vm, prog, g);
    CallUnfolds(vm, depth, below, script, |vals|, result, NewFrame(vm, p, g, |vals|), vm.scripts[g]);
    inner := Enter(vm, |vals|).(staticLink := |vm.scopes|);
  }

  /** The callee's run, and its frame taken down. */
  lemma {:induction false} CallRuns(vm: Vm, inner: Vm, depth: nat, prog: Program, free: set<nat>, genv: Env, p: nat, g: nat, vals: seq<int>, v: int)
    returns (left: Vm)
    requires vm.status == Running && Loaded(vm, prog) && GlobalsHold(vm, prog, genv)
    requires g < |prog.fns| && |prog.fns[g].params| <= |vals| && EvalFn(prog, free, g, vals, genv) == Some(v)
    requires vm.ptr == p + 1 + |vals| && depth + 1 >= |free| && vm.ptr + Room(prog.fns, free) <= |vm.data|
    requires Started(vm, inner, prog, p, g, vals) && inner.staticLink == |vm.scopes|
    ensures var c := Run(inner, depth, vm.scripts[g], 0, Undef);
            c.vm.status == Running && left == LeftBy(vm, c, NewFrame(vm, p, g, |vals|))
    ensures CALLED(vm, left, p, g, v)
    decreases free, 3
  {
    FreeCallee(prog, free, g, vals, genv);
    CalleeRuns(vm, inner, depth, prog, free, genv, p, g, vals, v);
    var c := Run(inner, depth, vm.scripts[g], 0, Undef);
    CallerSees(vm, inner, c.vm, prog, p, g, vals, v, c.result);
    left := LeftBy(vm, c, NewFrame(vm, p, g, |vals|));
  }

  lemma {:induction false} CalleeRuns(vm: Vm, inner: Vm, depth: nat, prog: Program, free: set<nat>, genv: Env, p: nat, g: nat, vals: seq<int>, v: int)
    requires vm.status == Running && Loaded(vm, prog) && GlobalsHold(vm, prog, genv)
    requires g < |prog.fns| && |prog.fns[g].params| <= |vals| && EvalFn(prog, free, g, vals, genv) == Some(v)
    requires vm.ptr == p + 1 + |vals| && depth + 1 >= |free| && vm.ptr + Room(prog.fns, free) <= |vm.data|
    requires Started(vm, inner, prog, p, g, vals) && inner.staticLink == |vm.scopes|
    ensures var c := Run(inner, depth, vm.scripts[g], 0, Undef);
            IsNumber(c.result, v) && Inside(inner, c.vm, |vm.frames|)
    decreases free, 2
  {
    CalleeStarts(vm, inner, prog, genv, p, g, vals);
    BodyRuns(inner, depth, prog, free, genv, g, vals, ArgumentSlots(prog.fns[g].params, p + 1), |vm.frames|, v);
  }

  /** The local assignments of a body. */
  lemma BodyLets(vm: Vm, depth: nat, prog: Program, free: set<nat>, genv: Env, g: nat, vals: seq<int>, places: map<nat, nat>, f: nat, v: int)
    returns (vm1: Vm, lenv': Env, places': map<nat, nat>)
    requires g < |prog.fns| && |prog.fns[g].params| <= |vals| && EvalFn(prog, free, g, vals, genv) == Some(v)
    requires InBody(vm, prog, genv, BindParams(prog.fns[g].params, vals), places, f)
    requires vm.frames[f].fun == g && vm.frames[f].nvars == 0 && vm.ptr + Room(prog.fns, free) <= |vm.data|
    ensures g in free && g < |vm.scripts| && vm1.scripts == vm.scripts && f < |vm1.frames| && vm1.frames[f].fun == g
    ensures var body := prog.fns[g].body;
            && AllEncodable(GenBody(body)) && vm.scripts[g].code == [] + Encode(GenBody(body)) && AllEncodable(GenRet(body.ret))
            && RunList(vm, depth, vm.scripts[g], GenLets(body.lets), Undef) == Conf(vm1, Undef)
            && EvalRet(prog, free - {g}, g, genv, lenv') == Some(v) && vm1.ptr + |GenRet(body.ret)| + Room(prog.fns, free - {g}) <= |vm1.data|
    ensures InBody(vm1, prog, genv, lenv', places', f) && Inside(vm, vm1, f)
  {
    FreeCallee(prog, free, g, vals, genv);
    lenv' := EvalLets(prog, prog.fns[g].table, genv, BindParams(prog.fns[g].params, vals), prog.fns[g].body.lets).value;
    vm1, places' := LetsOfBody(vm, depth, prog, free, genv, g, vals, lenv', places, f);
  }

  /** ... whatever is returned behind them. */
  lemma LetsOfBody(vm: Vm, depth: nat, prog: Program, free: set<nat>, genv: Env, g: nat, vals: seq<int>, lenv': Env, places: map<nat, nat>, f: nat)
    returns (vm1: Vm, places': map<nat, nat>)
    requires g < |prog.fns| && g in free && |prog.fns[g].params| <= |vals|
    requires EvalLets(prog, prog.fns[g].table, genv, BindParams(prog.fns[g].params, vals), prog.fns[g].body.lets) == Some(lenv')
    requires InBody(vm, prog, genv, BindParams(prog.fns[g].params, vals), places, f)
    requires vm.frames[f].fun == g && vm.frames[f].nvars == 0 && vm.ptr + Room(prog.fns, free) <= |vm.data|
    ensures g < |vm.scripts| && vm1.scripts == vm.scripts && f < |vm1.frames| && vm1.frames[f].fun == g
    ensures var body := prog.fns[g].body;
            && AllEncodable(GenBody(body)) && vm.scripts[g].code == [] + Encode(GenBody(body)) && AllEncodable(GenRet(body.ret))
            && RunList(vm, depth, vm.scripts[g], GenLets(body.lets), Undef) == Conf(vm1, Undef)
            && vm1.ptr + |GenRet(body.ret)| + Room(prog.fns, free - {g}) <= |vm1.data|
    ensures InBody(vm1, prog, genv, lenv', places', f) && Inside(vm, vm1, f)
  {
    var def, script := prog.fns[g], vm.scripts[g];
    var lenv := BindParams(def.params, vals);
    RoomWithout(prog.fns, free, g);
    assert FnLoaded(vm, prog, g);
    assert script.code == [] + Encode(GenBody(def.body));
    AllEncodableAppend(GenLets(def.body.lets), GenRet(def.body.ret));
    var declared;
    places', declared := LetsRun(vm, depth, script, prog, genv, lenv, {}, places, f, def.body.lets, lenv', Undef);
    vm1 := RunList(vm, depth, script, GenLets(def.body.lets), Undef).vm;
  }

  lemma BodyInParts(body: Body)
    ensures GenBody(body) == GenLets(body.lets) + GenRet(body.ret)
  {}

  /** The callee's code. */
  lemma {:induction false} BodyRuns(vm: Vm, depth: nat, prog: Program, free: set<nat>, genv: Env, g: nat, vals: seq<int>,
                                    places: map<nat, nat>, f: nat, v: int)
    requires g < |prog.fns| && |prog.fns[g].params| <= |vals| && EvalFn(prog, free, g, vals, genv) == Some(v)
    requires InBody(vm, prog, genv, BindParams(prog.fns[g].params, vals), places, f)
    requires vm.frames[f].fun == g && vm.frames[f].nvars == 0
    requires depth + 1 >= |free| && vm.ptr + Room(prog.fns, free) <= |vm.data|
    ensures var c := Run(vm, depth, vm.scripts[g], 0, Undef);
            IsNumber(c.result, v) && Inside(vm, c.vm, f)
    decreases free, 1
  {
    hide *;
    var lets, ret := prog.fns[g].body.lets, prog.fns[g].body.ret;
    var vm1, lenv', places' := BodyLets(vm, depth, prog, free, genv, g, vals, places, f, v);
    RunEncoded(vm, depth, vm.scripts[g], [], GenBody(prog.fns[g].body), Undef);
    BodyInParts(prog.fns[g].body);
    RunListAppend(vm, depth, vm.scripts[g], GenLets(lets), GenRet(ret), Undef);
    RetRuns(vm1, depth, prog, free - {g}, genv, g, lenv', places', f, v);
    InsideTrans(vm, vm1, RunList(vm1, depth, vm.scripts[g], GenRet(ret), Undef).vm, f);
  }

  /** Its return. */
  lemma {:induction false} RetRuns(vm: Vm, depth: nat, prog: Program, free: set<nat>, genv: Env, g: nat, lenv: Env,
                                   places: map<nat, nat>, f: nat, v: int)
    requires g < |prog.fns| && EvalRet(prog, free, g, genv, lenv) == Some(v) && g !in free
    requires InBody(vm, prog, genv, lenv, places, f) && vm.frames[f].fun == g
    requires AllEncodable(GenRet(prog.fns[g].body.ret))
    requires depth >= |free| && vm.ptr + |GenRet(prog.fns[g].body.ret)| + Room(prog.fns, free) <= |vm.data|
    ensures var c := RunList(vm, depth, vm.scripts[g], GenRet(prog.fns[g].body.ret), Undef);
            IsNumber(c.result, v) && Inside(vm, c.vm, f)
    decreases free, 7
  {
    var def, script := prog.fns[g], vm.scripts[g];
    assert FnLoaded(vm, prog, g);
    match def.body.ret
    case Value(e) => ValueReturns(vm, depth, script, prog, genv, lenv, places, f, e, v, Undef);
    case Tail(fun, args) =>
      AllEncodableAppend(GenCall(fun, args), [RETURN(1)]);
      var p, left := TailCalls(vm, depth, script, prog, free, genv, g, lenv, places, f, fun, args, v);
      RunListAppend(vm, depth, script, GenCall(fun, args), [RETURN(1)], Undef);
      NumberReturns(left, depth, script, left.data[p + 1], Undef);
      InsideByPtr(vm, left, f);
  }

  lemma InsideByPtr(vm: Vm, vm': Vm, f: nat)
    requires Inside(vm, vm', f) && vm'.ptr > 0
    ensures Inside(vm, vm'.(ptr := vm'.ptr - 1), f)
  {}

  /** A call in a body, up to CALL. */
  lemma BodyCallReady(vm: Vm, depth: nat, script: Script, prog: Program, genv: Env, g: nat, lenv: Env, places: map<nat, nat>, f: nat,
                  fun: nat, args: seq<Expr>, h: nat, xs: seq<int>) returns (ready: Vm)
    requires g < |prog.fns| && FnAt(prog, script.atoms, genv + lenv, fun) == Some(h) && h != g
    requires EvalArgs(prog.atoms, script.atoms, genv + lenv, args) == Some(xs) && |prog.fns[h].params| <= |xs|
    requires IN_BODY(vm, prog, genv, lenv, places, f) && f < |vm.frames| && vm.frames[f].fun == g
    requires AllEncodable(GenCall(fun, args)) && vm.ptr + |GenCall(fun, args)| <= |vm.data|
    ensures SameBelow(vm, ready, vm.ptr) && ready.ptr < vm.ptr + |GenCall(fun, args)|
    ensures READY(ready, prog, genv, genv + lenv, vm.ptr, vm.ptr, h, xs)
    ensures RunList(vm, depth, script, GenCall(fun, args), Undef) == Exec(ready, depth, script, CALL(|xs|), Undef)
    ensures RunList(vm, depth, script, [NAME(fun)] + GenArgs(args), Undef) == Conf(ready, Undef)
  {
    var a := NameAt(prog.atoms, script.atoms, fun).value;
    FewArguments(fun, args);
    BodyReads(vm, prog, genv, lenv, places, f);
    VisibleInBody(vm, prog, genv, lenv, places, f, a, h);
    ApartInBody(vm, prog, genv, lenv, places, f, h);
    ready := CallCode(vm, depth, script, genv + lenv, fun, args, a, xs, Undef);
    NowReady(vm, ready, prog, genv, genv + lenv, a, h, xs);
  }

  /** A call in a body comes back with the number on the stack, above the function slot. */
  lemma {:induction false} CallInBody(vm: Vm, depth: nat, script: Script, prog: Program, free: set<nat>, genv: Env, g: nat, lenv: Env,
                                      places: map<nat, nat>, f: nat, fun: nat, args: seq<Expr>, h: nat, xs: seq<int>, v: int)
    returns (ready: Vm, left: Vm)
    requires g < |prog.fns| && FnAt(prog, script.atoms, genv + lenv, fun) == Some(h) && h != g
    requires EvalArgs(prog.atoms, script.atoms, genv + lenv, args) == Some(xs) && EvalFn(prog, free, h, xs, genv) == Some(v)
    requires |prog.fns[h].params| <= |xs|
    requires IN_BODY(vm, prog, genv, lenv, places, f) && f < |vm.frames| && vm.frames[f].fun == g
    requires AllEncodable(GenCall(fun, args)) && depth >= |free|
    requires vm.ptr + |GenCall(fun, args)| + Room(prog.fns, free) <= |vm.data|
    ensures SameBelow(vm, ready, vm.ptr) && ready.ptr < vm.ptr + |GenCall(fun, args)| && |ready.data| == |vm.data|
    ensures READY(ready, prog, genv, genv + lenv, vm.ptr, vm.ptr, h, xs)
    ensures COMES_BACK(ready, depth, script, |xs|, Undef, left) && CALLED(ready, left, vm.ptr, h, v)
    ensures RunList(vm, depth, script, GenCall(fun, args), Undef) == Conf(left, Undef)
    decreases free, 5
  {
    ready := BodyCallReady(vm, depth, script, prog, genv, g, lenv, places, f, fun, args, h, xs);
    assert |ready.data| == |vm.data|;
    hide *;
    var p, env := vm.ptr, genv + lenv;
    left := FnRuns(ready, depth, script, prog, free, genv, env, p, p, h, xs, v, Undef);
    EndsInCall(vm, ready, depth, script, GenCall(fun, args), |xs|, Undef, left);
  }

  /** return g(e1, ..., en), up to the return. */
  lemma {:induction false} TailCalls(vm: Vm, depth: nat, script: Script, prog: Program, free: set<nat>, genv: Env, g: nat, lenv: Env,
                                     places: map<nat, nat>, f: nat, fun: nat, args: seq<Expr>, v: int) returns (p: nat, left: Vm)
    requires g < |prog.fns| && prog.fns[g].body.ret == Tail(fun, args) && EvalRet(prog, free, g, genv, lenv) == Some(v) && g !in free
    requires IN_BODY(vm, prog, genv, lenv, places, f) && f < |vm.frames| && vm.frames[f].fun == g
    requires AllEncodable(GenCall(fun, args)) && script.atoms == prog.fns[g].table
    requires depth >= |free| && vm.ptr + |GenCall(fun, args)| + Room(prog.fns, free) <= |vm.data|
    ensures RunList(vm, depth, script, GenCall(fun, args), Undef) == Conf(left, Undef)
    ensures INSIDE(vm, left, f) && left.ptr == p + 2 <= |left.data| && IsNumber(left.data[p + 1], v)
    decreases free, 6
  {
    hide *;
    p := vm.ptr;
    var h, xs := TailCallee(prog, free, g, genv, lenv, v);
    var ready;
    ready, left := CallInBody(vm, depth, script, prog, free, genv, g, lenv, places, f, fun, args, h, xs, v);
    InsideAfterCall(vm, ready, left, prog, genv, lenv, places, f, h, v);
  }

  lemma InsideAfterCall(vm: Vm, ready: Vm, done: Vm, prog: Program, genv: Env, lenv: Env, places: map<nat, nat>,
                        f: nat, g: nat, v: int)
    requires IN_BODY(vm, prog, genv, lenv, places, f) && SameBelow(vm, ready, vm.ptr) && CALLED(ready, done, vm.ptr, g, v)
    ensures INSIDE(vm, done, f) && done.ptr == vm.ptr + 2 <= |done.data| && IsNumber(done.data[vm.ptr + 1], v)
  {}

  // ---------- the main program ----------

  lemma TopApart(vm: Vm, prog: Program, genv: Env, chain: seq<nat>)
    requires AtTop(vm, prog, genv)
    ensures Apart(vm, genv, chain)
  {
    forall a | a in genv && a < |vm.atoms| && vm.atoms[a].Name?
      ensures ApartName(vm, a, chain)
    {
      assert GlobalHolds(vm, prog, genv, a);
    }
  }

  lemma TopStays(vm: Vm, vm': Vm, prog: Program, genv: Env)
    requires AtTop(vm, prog, genv) && Extends(vm.symbols, vm'.symbols) && |vm'.scopes| > 0 && vm'.scopes[0] == vm.scopes[0]
    requires vm' == vm.(symbols := vm'.symbols, scopes := vm'.scopes, frames := vm'.frames, data := vm'.data, ptr := vm'.ptr)
    ensures AtTop(vm', prog, genv)
  {
    LoadedExtend(vm, vm', prog);
    GlobalsExtend(vm, vm', prog, genv);
  }

  /** A call of the main program, up to CALL. */
  lemma TopReady(vm: Vm, depth: nat, script: Script, prog: Program, genv: Env, fun: nat, args: seq<Expr>, g: nat, xs: seq<int>,
                 result: Datum) returns (ready: Vm)
    requires AtTop(vm, prog, genv) && FnAt(prog, script.atoms, genv, fun) == Some(g)
    requires EvalArgs(prog.atoms, script.atoms, genv, args) == Some(xs) && |prog.fns[g].params| <= |xs|
    requires AllEncodable(GenCall(fun, args)) && vm.ptr + |GenCall(fun, args)| <= |vm.data|
    ensures SameBelow(vm, ready, vm.ptr) && ready.ptr < vm.ptr + |GenCall(fun, args)|
    ensures READY(ready, prog, genv, genv, vm.ptr, vm.ptr, g, xs)
    ensures RunList(vm, depth, script, GenCall(fun, args), result) == Exec(ready, depth, script, CALL(|xs|), result)
    ensures RunList(vm, depth, script, [NAME(fun)] + GenArgs(args), result) == Conf(ready, result)
  {
    var a := NameAt(prog.atoms, script.atoms, fun).value;
    assert GlobalHolds(vm, prog, genv, a);
    GlobalsRead(vm, prog, genv, vm.ptr);
    TopApart(vm, prog, genv, Chain(vm.symbols, vm.scripts[g].args));
    FewArguments(fun, args);
    ready := CallCode(vm, depth, script, genv, fun, args, a, xs, result);
    NowReady(vm, ready, prog, genv, genv, a, g, xs);
  }

  /** The value of a statement: on the stack in the end, above at most the slot of a function. */
  lemma TopValue(vm: Vm, depth: nat, script: Script, prog: Program, genv: Env, top: Top, v: int, result: Datum)
    returns (base: Vm, left: Vm)
    requires AtTop(vm, prog, genv) && script.atoms == prog.table && TopNumber(prog, genv, top) == Some(v)
    requires AllEncodable(GenTop(top)) && depth >= |prog.fns|
    requires vm.ptr + |GenTop(top)| + Room(prog.fns, AllFns(prog)) <= |vm.data|
    ensures AtTop(base, prog, genv) && |base.data| == |vm.data| && base.ptr <= vm.ptr + 1 && base.ptr + 2 <= |vm.data|
    ensures RunList(vm, depth, script, GenTopValue(top), result) == Conf(left, result) && Pushes(base, left, genv, v)
  {
    AllEncodableAppend(GenTopValue(top), GenStore(top.target));
    match top
    case Assign(_, e) =>
      base, left := vm, RunList(vm, depth, script, GenExpr(e), result).vm;
      GlobalsRead(vm, prog, genv, vm.ptr);
      ExprRuns(vm, depth, script, e, genv, v, vm.ptr, result);
    case Call(_, fun, args) =>
      base, left := TopCall(vm, depth, script, prog, genv, fun, args, v, result);
  }

  lemma TopCall(vm: Vm, depth: nat, script: Script, prog: Program, genv: Env, fun: nat, args: seq<Expr>, v: int, result: Datum)
    returns (base: Vm, left: Vm)
    requires AtTop(vm, prog, genv) && script.atoms == prog.table && CallNumber(prog, genv, fun, args) == Some(v)
    requires AllEncodable(GenCall(fun, args)) && depth >= |prog.fns|
    requires vm.ptr + |GenCall(fun, args)| + Room(prog.fns, AllFns(prog)) <= |vm.data|
    ensures AtTop(base, prog, genv) && |base.data| == |vm.data| && base.ptr == vm.ptr + 1
    ensures RunList(vm, depth, script, GenCall(fun, args), result) == Conf(left, result) && Pushes(base, left, genv, v)
  {
    var g, xs := FnAt(prog, prog.table, genv, fun).value, EvalArgs(prog.atoms, prog.table, genv, args).value;
    var ready := TopReady(vm, depth, script, prog, genv, fun, args, g, xs, result);
    left := TopFnRuns(ready, depth, script, prog, genv, vm.ptr, g, xs, v, result);
    EndsInCall(vm, ready, depth, script, GenCall(fun, args), |xs|, result, left);
    base := left.(ptr := vm.ptr + 1);
    ResultOnTop(vm, ready, left, genv, g, v);
    TopStays(vm, base, prog, genv);
  }

  lemma TopFnRuns(vm: Vm, depth: nat, script: Script, prog: Program, genv: Env, p: nat, g: nat, vals: seq<int>, v: int, result: Datum)
    returns (left: Vm)
    requires READY(vm, prog, genv, genv, p, p, g, vals) && g < |prog.fns| && EvalFn(prog, AllFns(prog), g, vals, genv) == Some(v)
    requires depth >= |prog.fns| && vm.ptr + Room(prog.fns, AllFns(prog)) <= |vm.data|
    ensures COMES_BACK(vm, depth, script, |vals|, result, left) && CALLED(vm, left, p, g, v)
  {
    hide *;
    AllFnsSize(prog);
    left := FnRuns(vm, depth, script, prog, AllFns(prog), genv, genv, p, p, g, vals, v, result);
  }

  lemma ResultOnTop(vm: Vm, ready: Vm, left: Vm, env: Env, g: nat, v: int)
    requires SameBelow(vm, ready, vm.ptr) && CALLED(ready, left, vm.ptr, g, v)
    ensures var base := left.(ptr := vm.ptr + 1);
            && Pushes(base, left, env, v) && |base.data| == |vm.data| && Extends(vm.symbols, base.symbols)
            && |base.scopes| >= |vm.scopes| && (|vm.scopes| > 0 ==> base.scopes[0] == vm.scopes[0])
            && base == vm.(symbols := base.symbols, scopes := base.scopes, frames := base.frames, data := base.data, ptr := base.ptr)
  {}

  /** One statement. */
  lemma TopRuns(vm: Vm, depth: nat, script: Script, prog: Program, genv: Env, top: Top, genv': Env, result: Datum)
    requires AtTop(vm, prog, genv) && script.atoms == prog.table && EvalTop(prog, genv, top) == Some(genv')
    requires AllEncodable(GenTop(top)) && depth >= |prog.fns|
    requires vm.ptr + |GenTop(top)| + Room(prog.fns, AllFns(prog)) <= |vm.data|
    ensures var c := RunList(vm, depth, script, GenTop(top), result);
            c.result == result && AtTop(c.vm, prog, genv') && c.vm.ptr <= vm.ptr + 1 && |c.vm.data| == |vm.data|
  {
    var a, v := NameAt(prog.atoms, prog.table, top.target).value, TopNumber(prog, genv, top).value;
    var base, left := TopValue(vm, depth, script, prog, genv, top, v, result);
    RunListAppend(vm, depth, script, GenTopValue(top), GenStore(top.target), result);
    GlobalsRead(base, prog, genv, base.ptr);
    var popped, n := StoreRuns(base, left, depth, script, top.target, a, genv, v, result);
    assert Extends(base.symbols, popped.symbols);
    TopStays(base, popped, prog, genv);
    GlobalSet(popped, prog, genv, a, v, n);
  }

  lemma {:induction false} MainRuns(vm: Vm, depth: nat, script: Script, prog: Program, genv: Env, main: seq<Top>, genv': Env, result: Datum)
    requires AtTop(vm, prog, genv) && script.atoms == prog.table && EvalMain(prog, genv, main) == Some(genv')
    requires AllEncodable(GenMain(main)) && depth >= |prog.fns|
    requires vm.ptr + |GenMain(main)| + Room(prog.fns, AllFns(prog)) <= |vm.data|
    ensures var c := RunList(vm, depth, script, GenMain(main), result);
            c.result == result && AtTop(c.vm, prog, genv')
    decreases |main|
  {
    if main != [] {
      AllEncodableAppend(GenTop(main[0]), GenMain(main[1..]));
      var next := EvalTop(prog, genv, main[0]).value;
      TopRuns(vm, depth, script, prog, genv, main[0], next, result);
      RunListAppend(vm, depth, script, GenTop(main[0]), GenMain(main[1..]), result);
      MainRuns(RunList(vm, depth, script, GenTop(main[0]), result).vm, depth, script, prog, next, main[1..], genv', result);
    }
  }

  /** The number `dumpScope` finds under a name in the outermost scope. */
  function GlobalNumber(vm: Vm, a: nat): Option<int>
    requires |vm.scopes| > 0
  {
    var s := FindInList(vm.symbols, vm.scopes[0].list, a);
    if s.Some? && vm.symbols[s.value].value.Some? && vm.symbols[s.value].value.value.Number?
    then Some(vm.symbols[s.value].value.value.nval) else None
  }

  /**
   Refinement: interpreting the bytes emitted for a program from a state between statements ends
   between statements with exactly the globals of the evaluator, each with the evaluator's number,
   and gives the static link back.
   */
  lemma InterpreterRefinesEvaluator(vm: Vm, depth: nat, script: Script, prog: Program, genv: Env, genv': Env, result: Datum)
    requires AtTop(vm, prog, genv) && EvalMain(prog, genv, prog.main) == Some(genv')
    requires script.atoms == prog.table && AllEncodable(GenMain(prog.main)) && script.code == Encode(GenMain(prog.main))
    requires depth >= |prog.fns| && vm.ptr + |GenMain(prog.main)| + Room(prog.fns, AllFns(prog)) <= |vm.data|
    ensures var c := Interpret(vm, depth, script, vm.staticLink, result);
            && c.result == result && AtTop(c.vm, prog, genv')
            && forall a :: 0 <= a < |prog.atoms| && FnIndex(prog.fns, a) == None ==>
                 GlobalNumber(c.vm, a) == if a in genv' then Some(genv'[a]) else None
  {
    assert script.code == [] + Encode(GenMain(prog.main));
    RunEncoded(vm, depth, script, [], GenMain(prog.main), result);
    MainRuns(vm, depth, script, prog, genv, prog.main, genv', result);
    var c := Interpret(vm, depth, script, vm.staticLink, result);
    assert vm.(staticLink := vm.staticLink) == vm;
    forall a | 0 <= a < |prog.atoms| && FnIndex(prog.fns, a) == None
      ensures GlobalNumber(c.vm, a) == if a in genv' then Some(genv'[a]) else None
    {
      assert GlobalHolds(c.vm, prog, genv', a);
    }
  }
}
