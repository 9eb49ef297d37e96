/**
 Parameters stay what loading made them: symbols of kind ARGUMENT without a value of their own.
 With that, a bound parameter reads its frame's argument in every state of a run.
 */
module VmParameters {
  import opened Chars
  import opened VmState
  import opened VmSemantics
  import opened VmRuns
  import opened VmBinding

  ghost predicate IsParam(vm: Vm, s: nat) { exists i :: 0 <= i < |vm.scripts| && s in Params(vm, i) }

  ghost predicate Bare(vm: Vm) {
    forall i, s :: 0 <= i < |vm.scripts| && s in Params(vm, i) ==> IsBare(vm.symbols, s)
  }

  predicate IsBare(symbols: seq<Symbol>, s: nat) { s < |symbols| && symbols[s].kind == ARGUMENT && symbols[s].value == None }

  /** An assignment outside any call whose target is a parameter: it gives the symbol a value of its own. */
  ghost predicate AssignsParameter(vm: Vm) {
    && vm.frame == None && 2 <= vm.ptr <= |vm.data|
    && var target := ResolveSymbol(vm, vm.data[vm.ptr - 1]);
    && target.SymbolRef? && IsParam(vm, target.sym)
  }

  lemma BareAfter(vm: Vm, vm': Vm)
    requires Sound(vm) && Bare(vm) && Grows(vm, vm')
    requires forall s :: 0 <= s < |vm.symbols| && IsParam(vm, s) ==> vm'.symbols[s].value == None
    ensures Bare(vm')
  {
    ParamsStay(vm, vm');
    forall i, s | 0 <= i < |vm'.scripts| && s in Params(vm', i)
      ensures IsBare(vm'.symbols, s)
    {
      assert IsBare(vm.symbols, s) && IsParam(vm, s);
    }
  }

  /** The two pops leave target and value readable and no symbol changed. */
  lemma PopTwoTarget(vm: Vm)
    requires 2 <= vm.ptr <= |vm.data| && vm.status == Running && PopTwo(vm).status == Running
    ensures PopTwo(vm).data[vm.ptr - 1] == ResolveSymbol(vm, vm.data[vm.ptr - 1])
    ensures PopTwo(vm).symbols == vm.symbols && PopTwo(vm).frame == vm.frame && PopTwo(vm).scripts == vm.scripts
  {}

  /** What an assignment does to the values of the symbols there are. */
  lemma AssignToValues(vm: Vm, lval: Datum, rval: Datum, s: nat)
    requires s < |vm.symbols| && vm.symbols[s].kind == ARGUMENT && AssignTo(vm, lval, rval).status == Running
    ensures var vm' := AssignTo(vm, lval, rval);
            && |vm.symbols| <= |vm'.symbols|
            && vm'.symbols[s].value == if vm.frame == None && lval == SymbolRef(s) then Some(rval) else vm.symbols[s].value
  {}

  /** An assignment keeps the parameters bare if and only if it is not one of those. */
  lemma AssignBareIff(vm: Vm)
    requires Sound(vm) && Bare(vm) && vm.status == Running && Assign(vm).status == Running
    ensures Bare(Assign(vm)) <==> !AssignsParameter(vm)
  {
    var popped, vm' := PopTwo(vm), Assign(vm);
    var target := ResolveSymbol(vm, vm.data[vm.ptr - 1]);
    PopTwoTarget(vm);
    AssignGrows(vm);
    ParamsStay(vm, vm');
    forall s | 0 <= s < |vm.symbols| && IsParam(vm, s)
      ensures vm'.symbols[s].value == None <==> !(vm.frame == None && target == SymbolRef(s))
    {
      assert IsBare(vm.symbols, s);
      AssignToValues(popped, target, popped.data[popped.ptr], s);
    }
    if AssignsParameter(vm) {
      var i :| 0 <= i < |vm.scripts| && target.sym in Params(vm, i);
      assert target.sym in Params(vm', i) && !IsBare(vm'.symbols, target.sym);
    } else {
      BareAfter(vm, vm');
    }
  }

  // ---------- every instruction ----------

  /** What keeps a call from taking parameters: it enters no script of which a frame is active. */
  predicate NoReentry(v: Visit) { v.instr.CALL? ==> !Reenters(v.vm, v.instr.argc) }

  lemma NoReentryIsFair(v: Visit)
    requires NoReentry(v)
    ensures Fair(v)
  {
    if v.instr.CALL? && Takes(v.vm, v.instr.argc) {
      TakesReenters(v.vm, v.instr.argc);
      assert false;
    }
  }

  ghost predicate Spares(v: Visit) { v.instr.ASSIGN? ==> !AssignsParameter(v.vm) }

  // The same as values: what is claimed of them is then not taken apart where it is only passed on.
  ghost const BARE: Vm -> bool := (vm: Vm) => Sound(vm) && Bare(vm)
  ghost const SPARES: Visit -> bool := (v: Visit) => Spares(v)
  ghost const BARE_STEADY: nat -> bool := (depth: nat) => Steady(BARE, BACK, SPARES, depth)
  ghost const ALL_SPARE: seq<Visit> -> bool := (visits: seq<Visit>) => AllFair(SPARES, visits)

  lemma PlainBare(vm: Vm, depth: nat, script: Script, instr: Instr, result: Datum)
    requires Starts(BARE, vm, instr) && !instr.CALL? && SPARES(Visit(vm, instr))
    ensures Kept(BARE, BACK, vm, Exec(vm, depth, script, instr, result).vm, VisitedBy(vm, depth, instr))
  {
    var vm' := Exec(vm, depth, script, instr, result).vm;
    assert VisitedBy(vm, depth, instr) == [Visit(vm, instr)];
    ExecGrows(vm, depth, script, instr, result);
    if vm'.status == Running {
      GrowsSound(vm, vm');
      if instr.ASSIGN? {
        AssignBareIff(vm);
      } else {
        OthersBare(vm, depth, script, instr, result);
      }
    }
  }

  lemma OthersBare(vm: Vm, depth: nat, script: Script, instr: Instr, result: Datum)
    requires Sound(vm) && Bare(vm) && vm.status == Running && !instr.CALL? && !instr.ASSIGN?
    ensures Bare(Exec(vm, depth, script, instr, result).vm)
  {
    var vm' := Exec(vm, depth, script, instr, result).vm;
    assert vm'.symbols == vm.symbols && vm'.scripts == vm.scripts;
    assert forall i :: 0 <= i < |vm.scripts| ==> Params(vm', i) == Params(vm, i);
  }

  /** A call on its way in: rebinding changes no kind and no value. */
  lemma EnteredBare(vm: Vm, argc: nat)
    requires vm.status == Running && BARE(vm) && argc < 256 && Enter(vm, argc).status == Running
    ensures BARE(Inner(vm, argc)) && Inner(vm, argc).status == Running
    ensures Callee(vm, argc).Some? && ENTERED(vm, Inner(vm, argc), argc, Callee(vm, argc).value)
  {
    var entered, inner := Enter(vm, argc), Inner(vm, argc);
    EnterEntered(vm, argc);
    var fun := Callee(vm, argc).value;
    EnteredSound(vm, entered, argc, fun);
    SoundOfData(entered, inner);
    ChainDescends(vm.symbols, vm.scripts[vm.functions[fun].script].args);
    RebindFacts(vm.symbols, Params(vm, vm.functions[fun].script), 0, argc, |vm.scopes|);
    forall i, s | 0 <= i < |inner.scripts| && s in Params(inner, i)
      ensures IsBare(inner.symbols, s)
    {
      assert Params(inner, i) == Params(entered, i) == Params(vm, i);
      assert IsBare(vm.symbols, s);
    }
  }

  /** ... and on its way out: the frames and symbols are those the callee's run left. */
  lemma LoweredBare(vm: Vm, inner: Vm, done: Vm, argc: nat, fun: nat, left: Vm)
    requires BARE(vm) && ENTERED(vm, inner, argc, fun) && BARE(done) && BACK(inner, done)
    requires left == done.(frame := vm.frame, data := left.data, ptr := left.ptr, status := left.status, staticLink := left.staticLink)
    ensures BARE(left) && BACK(vm, left)
  {
    EnteredSymbols(vm, inner, argc, fun);
    assert forall i :: 0 <= i < |done.scripts| ==> Params(left, i) == Params(done, i);
    assert forall f :: 0 <= f < |done.frames| ==> GoodFrame(done, f) ==> GoodFrame(left, f);
    forall f | 0 <= f < |vm.frames|
      ensures left.frames[f] == vm.frames[f].(nvars := left.frames[f].nvars)
    {
      assert inner.frames[f] == vm.frames[f];
    }
  }

  lemma RunsKeepBare(vm: Vm, depth: nat, script: Script, pc: nat, result: Datum)
    requires BARE_STEADY(depth) && vm.status == Running && BARE(vm)
    requires ALL_SPARE(Visited(vm, depth, script, pc, result))
    ensures Kept(BARE, BACK, vm, Run(vm, depth, script, pc, result).vm, Visited(vm, depth, script, pc, result))
  {
    BackIsPreorder();
    RunInduction(BARE, BACK, SPARES, vm, depth, script, pc, result);
  }

  /** The run of the callee, seen from the caller. */
  lemma InsideBare(vm: Vm, inner: Vm, argc: nat, fun: nat, callee: Script, below: nat, left: Vm, inside: seq<Visit>)
    requires BARE_STEADY(below) && BARE(vm) && BARE(inner) && inner.status == Running && ENTERED(vm, inner, argc, fun)
    requires inside == Visited(inner, below, callee, 0, Undef) && ALL_SPARE(inside)
    requires left == Lowered(Run(inner, below, callee, 0, Undef).vm, left, vm.frame)
    ensures Kept(BARE, BACK, vm, left, inside)
  {
    RunsKeepBare(inner, below, callee, 0, Undef);
    if Run(inner, below, callee, 0, Undef).vm.status == Running {
      LoweredBare(vm, inner, Run(inner, below, callee, 0, Undef).vm, argc, fun, left);
    }
  }

  lemma CallBare(vm: Vm, depth: nat, below: nat, script: Script, argc: nat, result: Datum)
    requires depth == below + 1 && BARE_STEADY(below)
    requires Starts(BARE, vm, CALL(argc)) && Enter(vm, argc).status == Running && ALL_SPARE(VisitedInCall(vm, depth, argc))
    ensures Kept(BARE, BACK, vm, Exec(vm, depth, script, CALL(argc), result).vm, VisitedInCall(vm, depth, argc))
  {
    EnterEntered(vm, argc);
    EnteredBare(vm, argc);
    hide *;
    var inner, callee, left, inside := CallUnfolds(vm, depth, below, script, argc, result);
    InsideBare(vm, inner, argc, Callee(vm, argc).value, callee, below, left, inside);
  }

  lemma StepBare(vm: Vm, depth: nat, below: nat, script: Script, instr: Instr, result: Datum)
    requires depth == 0 || (depth == below + 1 && BARE_STEADY(below))
    ensures Starts(BARE, vm, instr) && AllFair(SPARES, VisitedBy(vm, depth, instr)) ==>
              Kept(BARE, BACK, vm, Exec(vm, depth, script, instr, result).vm, VisitedBy(vm, depth, instr))
  {
    if Starts(BARE, vm, instr) && AllFair(SPARES, VisitedBy(vm, depth, instr)) {
      if instr.CALL? {
        var inside := VisitedInCall(vm, depth, instr.argc);
        assert forall v :: v in VisitedBy(vm, depth, instr) <==> v == Visit(vm, instr) || v in inside;
        if Enter(vm, instr.argc).status == Running && depth > 0 {
          CallBare(vm, depth, below, script, instr.argc, result);
        }
      } else {
        assert Visit(vm, instr) in VisitedBy(vm, depth, instr);
        PlainBare(vm, depth, script, instr, result);
      }
    }
  }

  lemma {:induction false} AllDepthsBare(depth: nat)
    ensures BARE_STEADY(depth)
  {
    var below: nat := if depth == 0 then 0 else depth - 1;
    if depth > 0 {
      AllDepthsBare(below);
    }
    forall vm: Vm, script: Script, instr: Instr, result: Datum
      ensures Starts(BARE, vm, instr) && AllFair(SPARES, VisitedBy(vm, depth, instr)) ==>
                Kept(BARE, BACK, vm, Exec(vm, depth, script, instr, result).vm, VisitedBy(vm, depth, instr))
    {
      StepBare(vm, depth, below, script, instr, result);
    }
  }

  // ---------- whole runs ----------

  /** The parameters stay bare in every state of a run, at any depth of calls, and with any reentry. */
  lemma ParametersStayBare(vm: Vm, depth: nat, script: Script, result: Datum)
    requires vm.status == Running && Sound(vm) && Bare(vm)
    requires forall v :: v in Visited(vm, depth, script, 0, result) ==> Spares(v)
    ensures forall v :: v in Visited(vm, depth, script, 0, result) ==> Sound(v.vm) && Bare(v.vm)
  {
    AllDepthsBare(depth);
    assert ALL_SPARE(Visited(vm, depth, script, 0, result));
    RunsKeepBare(vm, depth, script, 0, result);
    assert forall v :: v in Visited(vm, depth, script, 0, result) ==> BARE(v.vm);
  }

  /** Every active frame called with enough arguments reads its own arguments under its parameters. */
  ghost predicate ParametersRead(vm: Vm) {
    forall f, i {:trigger ReadsOwn(vm, f, i)} :: f in Active(vm.frames, vm.frame) ==> ReadsOwn(vm, f, i)
  }

  ghost predicate ReadsOwn(vm: Vm, f: nat, i: nat) {
    GoodFrame(vm, f) &&
    var params := Params(vm, ScriptOf(vm, f));
    i < |params| <= vm.frames[f].argc && vm.frames[f].argv + i < |vm.data| ==>
      Resolve(vm, SymbolRef(params[i])) == Some(Primary(vm, vm.data[vm.frames[f].argv + i]))
  }

  lemma BoundAndBareRead(vm: Vm)
    requires Sound(vm) && AllBound(vm) && Bare(vm)
    ensures ParametersRead(vm)
  {
    forall f: nat, i: nat | f in Active(vm.frames, vm.frame)
      ensures ReadsOwn(vm, f, i)
    {
      var params := Params(vm, ScriptOf(vm, f));
      if i < |params| <= vm.frames[f].argc {
        assert IsBare(vm.symbols, params[i]);
        ParameterReadsArgument(vm, f, i);
      }
    }
  }

  /**
   Parameter binding, in every state a run visits, at any depth of calls: under its parameters
   every active frame called with enough arguments reads its own arguments, from any frame above it.
   The run may not take the parameters of an active frame, nor assign to a parameter outside all calls.
   */
  lemma ParametersReadTheirArguments(vm: Vm, depth: nat, script: Script, result: Datum)
    requires vm.status == Running && Sound(vm) && AllBound(vm) && Bare(vm)
    requires forall v :: v in Visited(vm, depth, script, 0, result) ==> Fair(v) && Spares(v)
    ensures forall v :: v in Visited(vm, depth, script, 0, result) ==> ParametersRead(v.vm)
  {
    var visits := Visited(vm, depth, script, 0, result);
    ParametersStayBound(vm, depth, script, result);
    ParametersStayBare(vm, depth, script, result);
    forall v | v in visits
      ensures ParametersRead(v.vm)
    {
      BoundAndBareRead(v.vm);
    }
  }
}
