/** Calls of what is no function: which exception they end in, for single calls and for whole programs. */
module VmThrows {
  import opened Chars
  import opened VmState
  import opened VmSemantics
  import opened VmEmit
  import opened VmProgram
  import opened VmExpressions
  import opened VmWorld
  import opened VmBodies
  import opened VmCalls
  import opened VmSetup
  import opened VmLoading
  import R = VmRefinement

  // ---------- single calls ----------

  /**
   CALL on a function slot that resolves to something else.  A name, a symbol without an active
   frame and a number read from a literal are named by the exception; with a computed number, or
   nothing, in the slot the machine reads an uninitialized pointer.
   */
  lemma NoFunctionThrows(vm: Vm, depth: nat, script: Script, argc: nat, result: Datum)
    requires vm.status == Running && argc < vm.ptr <= |vm.data|
    ensures var r, c := Resolve(vm, vm.data[vm.ptr - argc - 1]), Exec(vm, depth, script, CALL(argc), result);
            (r.Some? ==> !r.value.FunctionRef?) ==>
              c.vm.status == match r
                             case Some(AtomRef(a)) => Thrown(a)
                             case Some(SymbolRef(s)) => if s < |vm.symbols| then Thrown(vm.symbols[s].key) else Wrong
                             case Some(Number(_, Some(literal))) => Thrown(literal)
                             case _ => Wrong
  {}

  // ---------- what a program blames ----------

  /** The undefined name that is called first, if it comes to that: in a tail call of a function called. */
  function FnBlames(prog: Program, free: set<nat>, f: nat, vals: seq<int>, genv: Env): Option<nat>
    requires f < |prog.fns|
    decreases free, 0
  {
    var def := prog.fns[f];
    if f !in free || |vals| < |def.params| || def.body.ret.Value? then None
    else
      var lenv := EvalLets(prog, def.table, genv, BindParams(def.params, vals), def.body.lets);
      if lenv == None then None
      else CallBlames(prog, free - {f}, def.table, genv, genv + lenv.value, def.body.ret.fun, def.body.ret.args)
  }

  /** ... in a call, whose arguments must have values: its own name, if that is neither a number nor a function. */
  function CallBlames(prog: Program, free: set<nat>, table: seq<nat>, genv: Env, env: Env, fun: nat, args: seq<Expr>): (r: Option<nat>)
    decreases free, 1
  {
    var a, xs := NameAt(prog.atoms, table, fun), EvalArgs(prog.atoms, table, env, args);
    if a == None || a.value in env || xs == None then None
    else
      match FnIndex(prog.fns, a.value)
      case None => a
      case Some(g) => FnBlames(prog, free, g, xs.value, genv)
  }

  /** ... in the first statement without a meaning. */
  function MainBlames(prog: Program, genv: Env, main: seq<Top>): Option<nat>
    decreases |main|
  {
    if main == [] then None
    else
      var next := EvalTop(prog, genv, main[0]);
      if next.Some? then MainBlames(prog, next.value, main[1..])
      else if main[0].Call? then CallBlames(prog, AllFns(prog), prog.table, genv, genv, main[0].fun, main[0].args)
      else None
  }

  // ---------- the run ----------

  /** The code of a call of a name that is no symbol. */
  lemma UndefinedThrows(vm: Vm, depth: nat, script: Script, env: Env, fun: nat, args: seq<Expr>, a: nat, xs: seq<int>, result: Datum)
    requires vm.status == Running && Reads(vm, env, vm.ptr) && ResolveSymbol(vm, AtomRef(a)) == AtomRef(a)
    requires NameAt(vm.atoms, script.atoms, fun) == Some(a) && EvalArgs(vm.atoms, script.atoms, env, args) == Some(xs)
    requires vm.ptr + |GenCall(fun, args)| <= |vm.data|
    ensures RunList(vm, depth, script, GenCall(fun, args), result).vm.status == Thrown(a)
  {
    var ready := R.CallCode(vm, depth, script, env, fun, args, a, xs, result);
    hide Reads, ArgsDenote, RunList, GenCall, Exec, Resolve, ResolveSymbol;
    StaysUndefined(vm, ready, a);
    NoFunctionThrows(ready, depth, script, |xs|, result);
  }

  lemma StaysUndefined(vm: Vm, vm': Vm, a: nat)
    requires vm' == vm.(data := vm'.data, ptr := vm'.ptr) && ResolveSymbol(vm, AtomRef(a)) == AtomRef(a)
    requires a < |vm.atoms| && vm.atoms[a].Name?
    ensures Resolve(vm', AtomRef(a)) == Some(AtomRef(a))
  {}

  /** What has been thrown in front of it, the rest of a code leaves as it is. */
  lemma ThrownStays(vm: Vm, depth: nat, script: Script, a: seq<Instr>, b: seq<Instr>, result: Datum, atom: nat)
    requires RunList(vm, depth, script, a, result).vm.status == Thrown(atom)
    ensures RunList(vm, depth, script, a + b, result).vm.status == Thrown(atom)
  {
    RunListAppend(vm, depth, script, a, b, result);
  }

  /** CALL of a function that blames a name. */
  lemma {:induction false} FnThrows(vm: Vm, depth: nat, script: Script, prog: Program, free: set<nat>, genv: Env, env: Env, bound: nat,
                                    p: nat, g: nat, vals: seq<int>, a: nat, result: Datum)
    requires READY(vm, prog, genv, env, bound, p, g, vals) && g < |prog.fns| && FnBlames(prog, free, g, vals, genv) == Some(a)
    requires depth >= |free| && vm.ptr + Room(prog.fns, free) <= |vm.data|
    ensures Exec(vm, depth, script, CALL(|vals|), result).vm.status == Thrown(a)
    decreases free, 3
  {
    assert g in free && |free| == |free - {g}| + 1;
    var below: nat := depth - 1;
    var inner := R.CallOpens(vm, depth, below, script, prog, genv, env, bound, p, g, vals, result);
    CalleeThrows(vm, inner, below, prog, free, genv, p, g, vals, a);
  }

  /** The callee's run: behind its assignments comes the call. */
  lemma {:induction false} CalleeThrows(vm: Vm, inner: Vm, depth: nat, prog: Program, free: set<nat>, genv: Env, p: nat, g: nat, vals: seq<int>, a: nat)
    requires vm.status == Running && Loaded(vm, prog) && GlobalsHold(vm, prog, genv)
    requires g < |prog.fns| && |prog.fns[g].params| <= |vals| && FnBlames(prog, free, g, vals, genv) == Some(a)
    requires vm.ptr == p + 1 + |vals| && depth + 1 >= |free| && vm.ptr + Room(prog.fns, free) <= |vm.data|
    requires Started(vm, inner, prog, p, g, vals) && inner.staticLink == |vm.scopes|
    ensures Run(inner, depth, vm.scripts[g], 0, Undef).vm.status == Thrown(a)
    decreases free, 2
  {
    var def, f := prog.fns[g], |vm.frames|;
    CalleeStarts(vm, inner, prog, genv, p, g, vals);
    var lenv := EvalLets(prog, def.table, genv, BindParams(def.params, vals), def.body.lets).value;
    var vm1, places := R.LetsOfBody(inner, depth, prog, free, genv, g, vals, lenv, ArgumentSlots(def.params, p + 1), f);
    TailThrows(vm1, depth, prog, free - {g}, genv, g, lenv, places, f, a);
    BodyThrows(inner, vm1, depth, vm.scripts[g], def.body, a);
  }

  lemma BodyThrows(vm: Vm, vm1: Vm, depth: nat, script: Script, body: Body, a: nat)
    requires AllEncodable(GenBody(body)) && script.code == [] + Encode(GenBody(body)) && body.ret.Tail?
    requires RunList(vm, depth, script, GenLets(body.lets), Undef) == Conf(vm1, Undef)
    requires RunList(vm1, depth, script, GenCall(body.ret.fun, body.ret.args), Undef).vm.status == Thrown(a)
    ensures Run(vm, depth, script, 0, Undef).vm.status == Thrown(a)
  {
    RunEncoded(vm, depth, script, [], GenBody(body), Undef);
    RunListAppend(vm, depth, script, GenLets(body.lets), GenRet(body.ret), Undef);
    ThrownStays(vm1, depth, script, GenCall(body.ret.fun, body.ret.args), [RETURN(1)], Undef, a);
  }

  /** A tail call that blames a name. */
  lemma {:induction false} TailThrows(vm: Vm, depth: nat, prog: Program, free: set<nat>, genv: Env, g: nat, lenv: Env,
                                      places: map<nat, nat>, f: nat, a: nat)
    requires g < |prog.fns| && g !in free && prog.fns[g].body.ret.Tail? && InBody(vm, prog, genv, lenv, places, f) && vm.frames[f].fun == g
    requires var def := prog.fns[g];
             && CallBlames(prog, free, def.table, genv, genv + lenv, def.body.ret.fun, def.body.ret.args) == Some(a)
             && AllEncodable(GenRet(def.body.ret)) && vm.ptr + |GenRet(def.body.ret)| + Room(prog.fns, free) <= |vm.data|
    requires depth >= |free|
    ensures g < |vm.scripts|
    ensures var ret := prog.fns[g].body.ret;
            RunList(vm, depth, vm.scripts[g], GenCall(ret.fun, ret.args), Undef).vm.status == Thrown(a)
    decreases free, 4
  {
    var def, env := prog.fns[g], genv + lenv;
    var fun, args := def.body.ret.fun, def.body.ret.args;
    assert FnLoaded(vm, prog, g);
    AllEncodableAppend(GenCall(fun, args), [RETURN(1)]);
    var name := NameAt(prog.atoms, def.table, fun).value;
    var xs := EvalArgs(prog.atoms, def.table, env, args).value;
    match FnIndex(prog.fns, name)
    case None => UndefinedInBody(vm, depth, vm.scripts[g], prog, genv, lenv, places, f, fun, args, name, xs);
    case Some(h) =>
      var ready := R.BodyCallReady(vm, depth, vm.scripts[g], prog, genv, g, lenv, places, f, fun, args, h, xs);
      FnThrows(ready, depth, vm.scripts[g], prog, free, genv, env, vm.ptr, vm.ptr, h, xs, a, Undef);
  }

  lemma UndefinedInBody(vm: Vm, depth: nat, script: Script, prog: Program, genv: Env, lenv: Env, places: map<nat, nat>, f: nat,
                        fun: nat, args: seq<Expr>, a: nat, xs: seq<int>)
    requires InBody(vm, prog, genv, lenv, places, f) && vm.ptr + |GenCall(fun, args)| <= |vm.data|
    requires NameAt(prog.atoms, script.atoms, fun) == Some(a) && a !in genv + lenv && FnIndex(prog.fns, a) == None
    requires EvalArgs(prog.atoms, script.atoms, genv + lenv, args) == Some(xs)
    ensures RunList(vm, depth, script, GenCall(fun, args), Undef).vm.status == Thrown(a)
  {
    BodyReads(vm, prog, genv, lenv, places, f);
    LocalIsNew(vm, prog, genv, lenv, places, f, a);
    hide LocalHolds, GlobalsHold, FrameStands;
    UndefinedThrows(vm, depth, script, genv + lenv, fun, args, a, xs, Undef);
  }

  // ---------- the main program ----------

  lemma TopIsNew(vm: Vm, prog: Program, genv: Env, a: nat)
    requires AtTop(vm, prog, genv) && a < |prog.atoms| && prog.atoms[a].Name? && a !in genv && FnIndex(prog.fns, a) == None
    ensures ResolveSymbol(vm, AtomRef(a)) == AtomRef(a)
  {
    assert GlobalHolds(vm, prog, genv, a);
  }

  /** A call of the main program that blames a name. */
  lemma TopThrows(vm: Vm, depth: nat, script: Script, prog: Program, genv: Env, fun: nat, args: seq<Expr>, a: nat, result: Datum)
    requires AtTop(vm, prog, genv) && script.atoms == prog.table && AllEncodable(GenCall(fun, args)) && depth >= |prog.fns|
    requires CallBlames(prog, AllFns(prog), prog.table, genv, genv, fun, args) == Some(a)
    requires vm.ptr + |GenCall(fun, args)| + Room(prog.fns, AllFns(prog)) <= |vm.data|
    ensures RunList(vm, depth, script, GenCall(fun, args), result).vm.status == Thrown(a)
  {
    var name := NameAt(prog.atoms, prog.table, fun).value;
    var xs := EvalArgs(prog.atoms, prog.table, genv, args).value;
    match FnIndex(prog.fns, name)
    case None =>
      GlobalsRead(vm, prog, genv, vm.ptr);
      TopIsNew(vm, prog, genv, name);
      UndefinedThrows(vm, depth, script, genv, fun, args, name, xs, result);
    case Some(g) =>
      AllFnsSize(prog);
      var ready := R.TopReady(vm, depth, script, prog, genv, fun, args, g, xs, result);
      FnThrows(ready, depth, script, prog, AllFns(prog), genv, genv, vm.ptr, vm.ptr, g, xs, a, result);
  }

  lemma {:induction false} MainThrows(vm: Vm, depth: nat, script: Script, prog: Program, genv: Env, main: seq<Top>, a: nat, result: Datum)
    requires AtTop(vm, prog, genv) && script.atoms == prog.table && MainBlames(prog, genv, main) == Some(a)
    requires AllEncodable(GenMain(main)) && depth >= |prog.fns|
    requires vm.ptr + |GenMain(main)| + Room(prog.fns, AllFns(prog)) <= |vm.data|
    ensures RunList(vm, depth, script, GenMain(main), result).vm.status == Thrown(a)
    decreases |main|
  {
    var top, more := main[0], main[1..];
    AllEncodableAppend(GenTop(top), GenMain(more));
    var next := EvalTop(prog, genv, top);
    if next.Some? {
      R.TopRuns(vm, depth, script, prog, genv, top, next.value, result);
      RunListAppend(vm, depth, script, GenTop(top), GenMain(more), result);
      MainThrows(RunList(vm, depth, script, GenTop(top), result).vm, depth, script, prog, next.value, more, a, result);
    } else {
      AllEncodableAppend(GenCall(top.fun, top.args), GenStore(top.target));
      TopThrows(vm, depth, script, prog, genv, top.fun, top.args, a, result);
      ThrownStays(vm, depth, script, GenCall(top.fun, top.args), GenStore(top.target), result, a);
      ThrownStays(vm, depth, script, GenTop(top), GenMain(more), result, a);
    }
  }

  /**
   A program whose statements have meanings up to a call, of an undefined name or of a function that
   comes to such a call in its tail, ends in the exception for exactly that name.
   */
  lemma ProgramThrows(prog: Program, size: nat, depth: nat, a: nat)
    requires Emittable(prog) && MainBlames(prog, map[], prog.main) == Some(a)
    requires size >= |GenMain(prog.main)| + Room(prog.fns, AllFns(prog)) && depth >= |prog.fns|
    ensures Final(prog, size, depth).status == Thrown(a)
  {
    var vm, script := Load(prog, size), Script(prog.table, None, Encode(GenMain(prog.main)));
    LoadedAtTop(prog, size);
    assert script.code == [] + Encode(GenMain(prog.main));
    RunEncoded(vm, depth, script, [], GenMain(prog.main), Undef);
    MainThrows(vm, depth, script, prog, map[], prog.main, a, Undef);
    assert vm.(staticLink := vm.staticLink) == vm;
  }

  lemma {:induction false} BlamesBehind(prog: Program, genv: Env, before: seq<Top>, genv': Env, main: seq<Top>)
    requires EvalMain(prog, genv, before) == Some(genv')
    ensures MainBlames(prog, genv, before + main) == MainBlames(prog, genv', main)
    decreases |before|
  {
    if before == [] {
      assert before + main == main;
    } else {
      assert (before + main)[1..] == before[1..] + main;
      BlamesBehind(prog, EvalTop(prog, genv, before[0]).value, before[1..], genv', main);
    }
  }

  lemma UndefinedCallBlames(prog: Program, genv: Env, call: Top, after: seq<Top>, a: nat)
    requires call.Call? && EvalArgs(prog.atoms, prog.table, genv, call.args).Some?
    requires NameAt(prog.atoms, prog.table, call.fun) == Some(a) && a !in genv && FnIndex(prog.fns, a) == None
    ensures MainBlames(prog, genv, [call] + after) == Some(a)
  {
    assert CallNumber(prog, genv, call.fun, call.args) == None;
    assert EvalTop(prog, genv, call) == None;
  }

  lemma UndefinedTailBlames(prog: Program, genv: Env, g: nat, xs: seq<int>, lenv: Env, a: nat)
    requires g < |prog.fns| && |prog.fns[g].params| <= |xs|
    requires var def := prog.fns[g];
             && EvalLets(prog, def.table, genv, BindParams(def.params, xs), def.body.lets) == Some(lenv)
             && def.body.ret.Tail? && EvalArgs(prog.atoms, def.table, genv + lenv, def.body.ret.args).Some?
             && NameAt(prog.atoms, def.table, def.body.ret.fun) == Some(a)
    requires a !in genv && a !in lenv && FnIndex(prog.fns, a) == None
    ensures FnBlames(prog, AllFns(prog), g, xs, genv) == Some(a) && EvalFn(prog, AllFns(prog), g, xs, genv) == None
  {
    assert FnAt(prog, prog.fns[g].table, genv + lenv, prog.fns[g].body.ret.fun) == None;
  }

  lemma TailIsCalled(prog: Program, genv: Env, call: Top, after: seq<Top>, g: nat, xs: seq<int>, a: nat)
    requires call.Call? && EvalArgs(prog.atoms, prog.table, genv, call.args) == Some(xs)
    requires FnAt(prog, prog.table, genv, call.fun) == Some(g)
    requires FnBlames(prog, AllFns(prog), g, xs, genv) == Some(a) && EvalFn(prog, AllFns(prog), g, xs, genv) == None
    ensures MainBlames(prog, genv, [call] + after) == Some(a)
  {
    hide EvalFn, FnBlames;
    assert EvalTop(prog, genv, call) == None;
  }

  /**
   Written out: behind statements with a meaning, a call with arguments that have values, of a name
   that is neither a global by then nor a function, ends the run in the exception for this name.
   */
  lemma UndefinedCallThrows(prog: Program, size: nat, depth: nat, before: seq<Top>, call: Top, after: seq<Top>, genv: Env, a: nat)
    requires Emittable(prog) && prog.main == before + ([call] + after) && EvalMain(prog, map[], before) == Some(genv)
    requires call.Call? && EvalArgs(prog.atoms, prog.table, genv, call.args).Some?
    requires NameAt(prog.atoms, prog.table, call.fun) == Some(a) && a !in genv && FnIndex(prog.fns, a) == None
    requires size >= |GenMain(prog.main)| + Room(prog.fns, AllFns(prog)) && depth >= |prog.fns|
    ensures Final(prog, size, depth).status == Thrown(a)
  {
    UndefinedCallBlames(prog, genv, call, after, a);
    BlamesBehind(prog, map[], before, genv, [call] + after);
    hide *;
    ProgramThrows(prog, size, depth, a);
  }

  /** The same for a name undefined in the tail call of a function that is called and whose assignments have values. */
  lemma UndefinedTailThrows(prog: Program, size: nat, depth: nat, before: seq<Top>, call: Top, after: seq<Top>, genv: Env,
                            g: nat, xs: seq<int>, lenv: Env, a: nat)
    requires Emittable(prog) && prog.main == before + ([call] + after) && EvalMain(prog, map[], before) == Some(genv)
    requires call.Call? && EvalArgs(prog.atoms, prog.table, genv, call.args) == Some(xs)
    requires FnAt(prog, prog.table, genv, call.fun) == Some(g) && |prog.fns[g].params| <= |xs|
    requires var def := prog.fns[g];
             && EvalLets(prog, def.table, genv, BindParams(def.params, xs), def.body.lets) == Some(lenv)
             && def.body.ret.Tail? && EvalArgs(prog.atoms, def.table, genv + lenv, def.body.ret.args).Some?
             && NameAt(prog.atoms, def.table, def.body.ret.fun) == Some(a)
    requires a !in genv && a !in lenv && FnIndex(prog.fns, a) == None
    requires size >= |GenMain(prog.main)| + Room(prog.fns, AllFns(prog)) && depth >= |prog.fns|
    ensures Final(prog, size, depth).status == Thrown(a)
  {
    UndefinedTailBlames(prog, genv, g, xs, lenv, a);
    TailIsCalled(prog, genv, call, after, g, xs, a);
    BlamesBehind(prog, map[], before, genv, [call] + after);
    hide *;
    ProgramThrows(prog, size, depth, a);
  }
}
