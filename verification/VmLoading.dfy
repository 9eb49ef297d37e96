/** What setting up a program establishes, and the whole way from a fresh context to the program's globals. */
module VmLoading {
  import opened Chars
  import opened VmState
  import opened VmEmit
  import opened VmProgram
  import opened VmBinding
  import opened VmWorld
  import opened VmCalls
  import opened VmRefinement
  import opened VmSetup
  import opened VmParameters
  import opened VmRuns
  import opened VmCallTree
  import opened VmBoundRuns

  lemma {:induction false} ParametersAdded(symbols: seq<Symbol>, params: seq<nat>)
    ensures var (more, head) := AddParameters(symbols, params);
            && more[..|symbols|] == symbols
            && ChainOfParameters(more, Chain(more, head), params)
            && forall s :: s in Chain(more, head) ==> s >= |symbols|
    decreases params
  {
    if params != [] {
      ParametersAdded(symbols, params[1..]);
      var (less, next) := AddParameters(symbols, params[1..]);
      var (more, head) := AddParameters(symbols, params);
      ChainStays(less, more, next);
      var rest := Chain(more, next);
      assert Chain(more, head) == [|less|] + rest;
      forall k | 0 <= k < |params|
        ensures Chain(more, head)[k] < |more| && IsParameter(more, Chain(more, head)[k], params[k])
      {
        if k > 0 {
          assert IsParameter(less, rest[k - 1], params[1..][k - 1]);
        }
      }
    }
  }

  lemma LoadFnExtends(vm: Vm, def: FnDef)
    requires |vm.scopes| > 0 && AllEncodable(GenBody(def.body)) && vm.staticLink == 0
    ensures var vm' := LoadFn(vm, def);
            && Extends(vm.symbols, vm'.symbols)
            && var script := vm'.scripts[|vm.scripts|];
            && (script.args.Some? ==> script.args.value < |vm'.symbols|)
            && ChainOfParameters(vm'.symbols, Chain(vm'.symbols, script.args), def.params)
            && forall s :: s in Chain(vm'.symbols, script.args) ==> s >= |vm.symbols|
  {
    ParametersAdded(vm.symbols, def.params);
    var (symbols, args) := AddParameters(vm.symbols, def.params);
    var vm' := LoadFn(vm, def);
    assert forall s :: 0 <= s < |vm.symbols| ==> symbols[..|vm.symbols|][s] == vm'.symbols[s];
    ChainStays(symbols, vm'.symbols, args);
    var chain := Chain(symbols, args);
    forall k | 0 <= k < |chain|
      ensures IsParameter(vm'.symbols, chain[k], def.params[k])
    {
      assert IsParameter(symbols, chain[k], def.params[k]);
    }
  }

  /** Loading gives a state between statements, with no globals yet. */
  lemma {:induction false} LoadedAtTop(prog: Program, size: nat)
    requires Emittable(prog)
    ensures AtTop(Load(prog, size), prog, map[])
    decreases |prog.fns|
  {
    if prog.fns != [] {
      var less, def := ButLast(prog), prog.fns[|prog.fns| - 1];
      LoadedAtTop(less, size);
      OneMore(Load(less, size), prog);
    }
  }

  lemma OneMore(vm: Vm, prog: Program)
    requires prog.fns != [] && AtTop(vm, ButLast(prog), map[]) && |vm.scopes| == 1
    requires AllEncodable(GenBody(prog.fns[|prog.fns| - 1].body))
    ensures AtTop(LoadFn(vm, prog.fns[|prog.fns| - 1]), prog, map[])
  {
    var def := prog.fns[|prog.fns| - 1];
    OneMoreFunction(vm, LoadFn(vm, def), prog, def);
    OneMoreGlobal(vm, LoadFn(vm, def), prog, def);
    hide Loaded, GlobalsHold;
  }

  /** The functions loaded before stay loaded, and the new one is loaded. */
  lemma OneMoreFunction(vm: Vm, vm': Vm, prog: Program, def: FnDef)
    requires prog.fns != [] && def == prog.fns[|prog.fns| - 1] && AtTop(vm, ButLast(prog), map[])
    requires |vm.scopes| == 1 && AllEncodable(GenBody(def.body)) && vm' == LoadFn(vm, def)
    ensures Loaded(vm', prog)
  {
    var less, n := ButLast(prog), |prog.fns| - 1;
    LoadFnExtends(vm, def);
    LoadedExtend(vm, vm'.(functions := vm.functions, scripts := vm.scripts), less);
    forall i | 0 <= i < |prog.fns|
      ensures FnLoaded(vm', prog, i)
    {
      if i < n {
        assert FnLoaded(vm'.(functions := vm.functions, scripts := vm.scripts), less, i);
      }
    }
    assert forall i :: 0 <= i < n ==> FnLoaded(vm, less, i);
  }

  /** Every name still leads to its function, the new one too, and there are no other globals. */
  lemma OneMoreGlobal(vm: Vm, vm': Vm, prog: Program, def: FnDef)
    requires prog.fns != [] && def == prog.fns[|prog.fns| - 1] && AtTop(vm, ButLast(prog), map[])
    requires |vm.scopes| == 1 && AllEncodable(GenBody(def.body)) && vm' == LoadFn(vm, def)
    ensures GlobalsHold(vm', prog, map[])
  {
    var less, list := ButLast(prog), vm.scopes[0].list;
    LoadFnExtends(vm, def);
    forall a | 0 <= a < |prog.atoms|
      ensures GlobalHolds(vm', prog, map[], a)
    {
      assert GlobalHolds(vm, less, map[], a);
      FindExtends(vm.symbols, vm'.symbols, list, a);
    }
  }

  // ---------- parameters ----------

  ghost predicate LinksDown(symbols: seq<Symbol>) {
    forall i :: 0 <= i < |symbols| ==> symbols[i].next.Some? ==> symbols[i].next.value < i
  }

  lemma {:induction false} AddedLinksDown(symbols: seq<Symbol>, params: seq<nat>)
    requires LinksDown(symbols)
    ensures LinksDown(AddParameters(symbols, params).0)
    decreases params
  {
    if params != [] {
      AddedLinksDown(symbols, params[1..]);
    }
  }

  lemma {:induction false} LoadLinksDown(prog: Program, size: nat)
    requires Emittable(prog)
    ensures var vm := Load(prog, size);
            && LinksDown(vm.symbols) && vm.frames == [] && vm.frame == None
            && (vm.scopes[0].list.Some? ==> vm.scopes[0].list.value < |vm.symbols|)
    decreases |prog.fns|
  {
    if prog.fns != [] {
      LoadLinksDown(ButLast(prog), size);
      AddedLinksDown(Load(ButLast(prog), size).symbols, prog.fns[|prog.fns| - 1].params);
    }
  }

  /** A loaded program meets the conditions of parameter binding. */
  lemma LoadedIsSound(prog: Program, size: nat)
    requires Emittable(prog)
    ensures var vm := Load(prog, size); Sound(vm) && AllBound(vm) && Bare(vm) && HasCode(vm.scripts)
  {
    var vm := Load(prog, size);
    LoadedAtTop(prog, size);
    LoadLinksDown(prog, size);
    LinkedIsSound(vm, prog);
    forall i | 0 <= i < |vm.scripts|
      ensures forall s :: s in Params(vm, i) ==> IsBare(vm.symbols, s)
    {
      LoadedBare(vm, prog, i);
    }
    LoadedHasCode(vm, prog);
  }

  lemma LoadedHasCode(vm: Vm, prog: Program)
    requires Loaded(vm, prog)
    ensures HasCode(vm.scripts)
  {
    forall i | 0 <= i < |vm.scripts|
      ensures vm.scripts[i].code != []
    {
      assert FnLoaded(vm, prog, i);
      assert GenBody(prog.fns[i].body) != [];
    }
  }

  lemma LinkedIsSound(vm: Vm, prog: Program)
    requires Loaded(vm, prog) && LinksDown(vm.symbols) && vm.frames == [] && vm.frame == None
    requires |vm.scopes| == 1 && (vm.scopes[0].list.Some? ==> vm.scopes[0].list.value < |vm.symbols|)
    ensures Sound(vm)
  {
    forall i | 0 <= i < |vm.scripts|
      ensures vm.scripts[i].args.Some? ==> vm.scripts[i].args.value < |vm.symbols|
    {
      assert FnLoaded(vm, prog, i);
    }
  }

  /** What `dumpScope` finds under name a after the program has run from a fresh context, if it ends normally. */
  function FinalNumber(prog: Program, size: nat, depth: nat, a: nat): Option<int>
    requires Emittable(prog)
  {
    var vm := Final(prog, size, depth);
    if vm.status == Running && |vm.scopes| > 0 then GlobalNumber(vm, a) else None
  }

  /**
   From a fresh context: load the functions, emit the statements, interpret the bytes.  If the
   evaluator gives the program a meaning, every name ends up with its number and nothing else
   becomes a global, as long as the stack has room for the program's own code once over and the
   native stack for one call of each function.
   */
  lemma ProgramRuns(prog: Program, size: nat, depth: nat, globals: Env)
    requires Emittable(prog) && EvalMain(prog, map[], prog.main) == Some(globals)
    requires size >= |GenMain(prog.main)| + Room(prog.fns, AllFns(prog)) && depth >= |prog.fns|
    ensures var vm' := Final(prog, size, depth);
            vm'.status == Running && vm'.staticLink == 0 && vm'.frame == None && |vm'.scopes| > 0
    ensures forall a :: 0 <= a < |prog.atoms| && FnIndex(prog.fns, a) == None ==>
              FinalNumber(prog, size, depth, a) == if a in globals then Some(globals[a]) else None
  {
    LoadedAtTop(prog, size);
    InterpreterRefinesEvaluator(Load(prog, size), depth, Script(prog.table, None, Encode(GenMain(prog.main))),
                                prog, map[], globals, Undef);
  }

  /**
   Parameter binding for programs with a meaning: in every state of the run from a fresh context,
   every active frame called with enough arguments reads its own arguments under its parameters.
   */
  lemma ProgramKeepsParameters(prog: Program, size: nat, depth: nat, globals: Env)
    requires Emittable(prog) && EvalMain(prog, map[], prog.main) == Some(globals)
    requires size >= |GenMain(prog.main)| + Room(prog.fns, AllFns(prog)) && depth >= |prog.fns|
    ensures var script := Script(prog.table, None, Encode(GenMain(prog.main)));
            forall v :: v in Visited(Load(prog, size), depth, script, 0, Undef) ==> NoReentry(v) && ParametersRead(v.vm)
  {
    var vm, script := Load(prog, size), Script(prog.table, None, Encode(GenMain(prog.main)));
    LoadedAtTop(prog, size);
    LoadedIsSound(prog, size);
    MeaningIsTame(vm, depth, script, prog, map[], globals, Undef);
    forall v | v in Visited(vm, depth, script, 0, Undef)
      ensures Fair(v)
    {
      NoReentryIsFair(v);
    }
    ParametersReadTheirArguments(vm, depth, script, Undef);
  }

  // ---------- the program of generateCode ----------

  /** Atoms 0 to 3 are the main script's, 4 to 7 those of `add`; the two names "a" are different atoms. */
  function Sample(): Program {
    Program([Num(2), Num(3), Name("a"), Name("add"), Num(12), Num(3), Name("a"), Name("arg")],
            [FnDef(3, [4, 5, 6, 7], [7], Body([Let(2, Plus(Plus(Lit(0), Var(3)), Lit(1)))], Value(Var(2))))],
            [0, 1, 2, 3],
            [Top.Assign(2, Plus(Lit(0), Lit(1))), Top.Call(2, 3, [Var(2)])])
  }

  lemma SampleCode()
    ensures GenMain(Sample().main)
         == [NUMBER(0), NUMBER(1), Instr.ADD, NAME(2), Instr.ASSIGN, NAME(3), NAME(2), CALL(1), NAME(2), Instr.ASSIGN]
    ensures GenBody(Sample().fns[0].body)
         == [NUMBER(0), NAME(3), Instr.ADD, NUMBER(1), Instr.ADD, NAME(2), Instr.ASSIGN, NAME(2), RETURN(1)]
  {
    var main := Sample().main;
    assert GenArgs([Var(2)]) == [NAME(2)] by {
      assert [Var(2)][1..] == [];
    }
    assert main[1..][1..] == [];
    assert GenMain(main) == GenTop(main[0]) + (GenTop(main[1]) + []);
    var lets := Sample().fns[0].body.lets;
    assert lets[1..] == [];
    assert GenLets(lets) == (GenExpr(lets[0].e) + GenStore(2)) + [];
  }

  /** The first statement as bytes. */
  lemma SampleSum()
    ensures var code := GenTop(Sample().main[0]); AllEncodable(code) && Encode(code) == [0, 0, 0, 1, 2, 1, 2, 3]
  {
    EncodePair(NUMBER(0), NUMBER(1));
    EncodePair(NAME(2), Instr.ASSIGN);
    EncodeAppend([NUMBER(0), NUMBER(1)], [Instr.ADD]);
    EncodeAppend([NUMBER(0), NUMBER(1)] + [Instr.ADD], [NAME(2), Instr.ASSIGN]);
    assert GenTop(Sample().main[0]) == [NUMBER(0), NUMBER(1)] + [Instr.ADD] + [NAME(2), Instr.ASSIGN];
  }

  /** The call in the second. */
  lemma SampleCallBytes()
    ensures var code := GenTopValue(Sample().main[1]); AllEncodable(code) && Encode(code) == [1, 3, 1, 2, 5, 1]
  {
    EncodePair(NAME(3), NAME(2));
    EncodeAppend([NAME(3), NAME(2)], [CALL(1)]);
    assert [Var(2)][1..] == [];
    assert GenTopValue(Sample().main[1]) == [NAME(3), NAME(2)] + [CALL(1)];
  }

  /** The return of the function. */
  lemma SampleReturnBytes()
    ensures var code := GenRet(Sample().fns[0].body.ret); AllEncodable(code) && Encode(code) == [1, 2, 4, 1]
  {
    EncodePair(NAME(2), RETURN(1));
  }

  lemma OneGlobal(prog: Program, size: nat, depth: nat, globals: Env, a: nat)
    requires Emittable(prog) && EvalMain(prog, map[], prog.main) == Some(globals)
    requires size >= |GenMain(prog.main)| + Room(prog.fns, AllFns(prog)) && depth >= |prog.fns|
    requires a < |prog.atoms| && FnIndex(prog.fns, a) == None && a in globals
    ensures FinalNumber(prog, size, depth, a) == Some(globals[a])
  {
    ProgramRuns(prog, size, depth, globals);
  }

  /** a = 2 + 3, then a = add(a), where add(arg) returns 12 + arg + 3: the stack of 1000 is enough, and a is 20. */
  lemma SampleEndsWithTwenty(depth: nat)
    requires depth >= 1
    ensures Emittable(Sample()) && FinalNumber(Sample(), 1000, depth, 2) == Some(20)
  {
    SampleFits();
    SampleValue();
    assert FnIndex(Sample().fns, 2) == None;
    OneGlobal(Sample(), 1000, depth, map[2 := 20], 2);
  }

  lemma SampleFits()
    ensures Emittable(Sample()) && Room(Sample().fns, AllFns(Sample())) == 9 && |GenMain(Sample().main)| == 10
  {
    SampleCode();
    hide GenMain, GenBody, FnIndex;
    assert Sample().fns[..0] == [];
  }

  /** The body of the sample's function, called with 5. */
  lemma SampleBody()
    ensures var prog := Sample();
            0 in AllFns(prog) && EvalFn(prog, AllFns(prog), 0, [5], map[2 := 5]) == Some(20)
  {
    var prog, env := Sample(), map[2 := 5];
    var def, lenv := prog.fns[0], map[7 := 5];
    assert BindParams(def.params, [5]) == lenv;
    var lets := def.body.lets;
    assert lets[1..] == [];
    assert EvalExpr(prog.atoms, def.table, env + lenv, Plus(Lit(0), Var(3))) == Some(17);
    assert EvalExpr(prog.atoms, def.table, env + lenv, lets[0].e) == Some(20);
    var lenv' := lenv[6 := 20];
    assert EvalLets(prog, def.table, env, lenv, lets) == Some(lenv');
  }

  /** The call in the sample's second statement. */
  lemma SampleCall()
    ensures TopNumber(Sample(), map[2 := 5], Sample().main[1]) == Some(20)
  {
    var prog, env, args := Sample(), map[2 := 5], [Var(2)];
    assert args[1..] == [] && [5] + [] == [5];
    assert EvalExpr(prog.atoms, prog.table, env, args[0]) == Some(5);
    assert EvalArgs(prog.atoms, prog.table, env, args[1..]) == Some([]);
    assert EvalArgs(prog.atoms, prog.table, env, args) == Some([5]);
    SampleBody();
    hide EvalFn;
    assert TopNumber(prog, env, prog.main[1]) == Some(20);
  }

  lemma SampleFirst()
    ensures EvalTop(Sample(), map[], Sample().main[0]) == Some(map[2 := 5])
  {}

  lemma SampleValue()
    ensures EvalMain(Sample(), map[], Sample().main) == Some(map[2 := 20])
  {
    var prog := Sample();
    var main, env := prog.main, map[2 := 5];
    SampleFirst();
    SampleCall();
    hide TopNumber;
    assert FnIndex(prog.fns, 2) == None && env[2 := 20] == map[2 := 20];
    assert EvalTop(prog, env, main[1]) == Some(map[2 := 20]);
    assert main[1..][1..] == [];
    assert EvalMain(prog, env, main[1..]) == Some(map[2 := 20]);
  }
}
