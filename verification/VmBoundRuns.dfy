/**
 When exactly parameter binding holds through a run: if and only if no call takes the parameters of
 an active frame.
 */
module VmBoundRuns {
  import opened Chars
  import opened VmState
  import opened VmSemantics
  import opened VmRuns
  import opened VmBinding

  /** The state is sound and bound, and so is the one an entered call leads to. */
  ghost predicate Holds(v: Visit) {
    && Sound(v.vm) && AllBound(v.vm)
    && (v.instr.CALL? && Enter(v.vm, v.instr.argc).status == Running ==>
          Sound(Enter(v.vm, v.instr.argc)) && AllBound(Enter(v.vm, v.instr.argc)))
  }

  /** What the loop visits: running states, and operands of one byte. */
  predicate Fetches(v: Visit) { v.vm.status == Running && (v.instr.CALL? ==> v.instr.argc < 256) }

  /** For one visited state. */
  lemma HoldsIffFair(v: Visit)
    requires Fetches(v) && Sound(v.vm) && AllBound(v.vm)
    ensures Holds(v) <==> Fair(v)
  {
    if v.instr.CALL? && Enter(v.vm, v.instr.argc).status == Running {
      EnterEntered(v.vm, v.instr.argc);
      EnterBoundIff(v.vm, Enter(v.vm, v.instr.argc), v.instr.argc, Callee(v.vm, v.instr.argc).value);
    }
  }

  lemma {:induction false} VisitsFetch(vm: Vm, depth: nat, script: Script, pc: nat, result: Datum)
    ensures forall v :: v in Visited(vm, depth, script, pc, result) ==> Fetches(v)
    decreases depth, |script.code| - pc, 1
  {
    hide Exec, Enter, VisitedBy;
    if vm.status == Running && pc < |script.code| && Fetch(script.code, pc).Fetched? {
      var Fetched(instr, size) := Fetch(script.code, pc);
      var next := Exec(vm, depth, script, instr, result);
      VisitsByFetch(vm, depth, instr);
      VisitsFetch(next.vm, depth, script, pc + size, next.result);
    }
  }

  lemma {:induction false} VisitsByFetch(vm: Vm, depth: nat, instr: Instr)
    requires Fetches(Visit(vm, instr))
    ensures forall v :: v in VisitedBy(vm, depth, instr) ==> Fetches(v)
    decreases depth, 0, 0
  {
    if instr.CALL? && Enter(vm, instr.argc).status == Running && depth > 0 {
      var entered := Enter(vm, instr.argc);
      var frame := entered.frames[|vm.frames|];
      VisitsFetch(entered.(staticLink := frame.scope), depth - 1, CalleeOf(entered, frame), 0, Undef);
    }
  }

  /**
   Exactly when parameter binding holds, for any run: every visited state, and every state a visited
   call enters, is sound with all active frames in possession of their parameters, if and only if no
   visited call takes the parameters of an active frame.
   */
  lemma RunBoundIff(vm: Vm, depth: nat, script: Script, result: Datum)
    requires vm.status == Running && Sound(vm) && AllBound(vm)
    ensures (forall v :: v in Visited(vm, depth, script, 0, result) ==> Holds(v))
       <==> (forall v :: v in Visited(vm, depth, script, 0, result) ==> Fair(v))
  {
    var visits := Visited(vm, depth, script, 0, result);
    VisitsFetch(vm, depth, script, 0, result);
    if forall v :: v in visits ==> Fair(v) {
      ParametersStayBound(vm, depth, script, result);
    }
    forall v | v in visits && Sound(v.vm) && AllBound(v.vm)
      ensures Holds(v) <==> Fair(v)
    {
      HoldsIffFair(v);
    }
  }

  // ---------- runs that come to their end ----------

  /** Every script there is has code. */
  ghost predicate HasCode(scripts: seq<Script>) { forall i :: 0 <= i < |scripts| ==> scripts[i].code != [] }

  lemma BindArgsKeepsCode(vm: Vm, frame: Frame, sym: Option<nat>, slot: nat)
    ensures var vm' := BindArgs(vm, frame, sym, slot); vm'.scripts == vm.scripts && vm'.functions == vm.functions
    decreases if sym.Some? then sym.value + 1 else 0
  {
    hide Resolve;
  }

  /** Entering changes no code, and the callee is one of the scripts. */
  lemma EnterKeepsCode(vm: Vm, argc: nat)
    ensures Enter(vm, argc).scripts == vm.scripts
    ensures vm.status == Enter(vm, argc).status == Running ==>
              CalleeOf(Enter(vm, argc), Enter(vm, argc).frames[|vm.frames|]) in vm.scripts
  {
    forall vm1: Vm, frame: Frame, args: Option<nat>
      ensures BindArgs(vm1, frame, args, 0).scripts == vm1.scripts && BindArgs(vm1, frame, args, 0).functions == vm1.functions
    {
      BindArgsKeepsCode(vm1, frame, args, 0);
    }
    hide BindArgs, Resolve;
  }

  lemma PlainKeepsScripts(vm: Vm, depth: nat, script: Script, instr: Instr, result: Datum)
    requires !instr.CALL?
    ensures Exec(vm, depth, script, instr, result).vm.scripts == vm.scripts
  {
    hide Resolve, ResolveSymbol;
  }

  lemma {:induction false} ExecKeepsScripts(vm: Vm, depth: nat, script: Script, instr: Instr, result: Datum)
    ensures Exec(vm, depth, script, instr, result).vm.scripts == vm.scripts
    decreases depth, 0, 0
  {
    if !instr.CALL? {
      PlainKeepsScripts(vm, depth, script, instr, result);
    } else {
      EnterKeepsCode(vm, instr.argc);
      var entered := Enter(vm, instr.argc);
      if vm.status == Running && entered.status == Running && depth > 0 {
        var frame, below: nat := entered.frames[|vm.frames|], depth - 1;
        CallInOne(vm, depth, below, script, instr.argc, result);
        RunKeepsScripts(entered.(staticLink := frame.scope), below, CalleeOf(entered, frame), 0, Undef);
        hide Enter, Run, Exec;
      }
    }
  }

  lemma {:induction false} RunKeepsScripts(vm: Vm, depth: nat, script: Script, pc: nat, result: Datum)
    ensures Run(vm, depth, script, pc, result).vm.scripts == vm.scripts
    decreases depth, |script.code| - pc, 1
  {
    hide Exec;
    if vm.status == Running && pc < |script.code| && Fetch(script.code, pc).Fetched? {
      var Fetched(instr, size) := Fetch(script.code, pc);
      var next := Exec(vm, depth, script, instr, result);
      ExecKeepsScripts(vm, depth, script, instr, result);
      RunKeepsScripts(next.vm, depth, script, pc + size, next.result);
    }
  }

  /** A visited call is entered, and the state in which its callee begins is visited. */
  ghost predicate BeginsIn(v: Visit, visits: seq<Visit>) {
    v.instr.CALL? && v.vm.status == Running ==>
      && Enter(v.vm, v.instr.argc).status == Running
      && exists w :: w in visits && w.vm == Inner(v.vm, v.instr.argc)
  }

  ghost predicate AllBeginIn(some: seq<Visit>, visits: seq<Visit>) { forall v :: v in some ==> BeginsIn(v, visits) }

  lemma AllBeginAppend(a: seq<Visit>, b: seq<Visit>)
    requires AllBeginIn(a, a) && AllBeginIn(b, b)
    ensures AllBeginIn(a + b, a + b)
  {
    forall v | v in a + b
      ensures BeginsIn(v, a + b)
    {
      if v.instr.CALL? && v.vm.status == Running {
        var w :| w in (if v in a then a else b) && w.vm == Inner(v.vm, v.instr.argc);
        assert w in a + b;
      }
    }
  }

  lemma FirstVisit(vm: Vm, depth: nat, script: Script)
    requires vm.status == Running && script.code != [] && Run(vm, depth, script, 0, Undef).vm.status == Running
    ensures exists w :: w in Visited(vm, depth, script, 0, Undef) && w.vm == vm
  {
    hide Exec;
    var Fetched(instr, size) := Fetch(script.code, 0);
    var next := Exec(vm, depth, script, instr, Undef);
    assert Visited(vm, depth, script, 0, Undef) == VisitedBy(vm, depth, instr) + Visited(next.vm, depth, script, size, next.result);
    assert Visit(vm, instr) in VisitedBy(vm, depth, instr);
  }

  lemma {:induction false} CallsBegin(vm: Vm, depth: nat, script: Script, pc: nat, result: Datum)
    requires Run(vm, depth, script, pc, result).vm.status == Running && HasCode(vm.scripts)
    ensures AllBeginIn(Visited(vm, depth, script, pc, result), Visited(vm, depth, script, pc, result))
    decreases depth, |script.code| - pc, 1
  {
    hide Exec, VisitedBy;
    if vm.status == Running && pc < |script.code| {
      var Fetched(instr, size) := Fetch(script.code, pc);
      var next := Exec(vm, depth, script, instr, result);
      CallBegins(vm, depth, script, instr, result);
      ExecKeepsScripts(vm, depth, script, instr, result);
      CallsBegin(next.vm, depth, script, pc + size, next.result);
      AllBeginAppend(VisitedBy(vm, depth, instr), Visited(next.vm, depth, script, pc + size, next.result));
    }
  }

  lemma {:induction false} CallBegins(vm: Vm, depth: nat, script: Script, instr: Instr, result: Datum)
    requires vm.status == Exec(vm, depth, script, instr, result).vm.status == Running && HasCode(vm.scripts)
    ensures AllBeginIn(VisitedBy(vm, depth, instr), VisitedBy(vm, depth, instr))
    decreases depth, 0, 0
  {
    if instr.CALL? {
      var below: nat := depth - 1;
      var inner, callee, left, inside := CallUnfolds(vm, depth, below, script, instr.argc, result);
      EnterKeepsCode(vm, instr.argc);
      CallsBegin(inner, below, callee, 0, Undef);
      FirstVisit(inner, below, callee);
      AllBeginCons(Visit(vm, instr), inside);
    }
  }

  lemma AllBeginCons(first: Visit, inside: seq<Visit>)
    requires AllBeginIn(inside, inside) && BeginsIn(first, inside)
    ensures AllBeginIn([first] + inside, [first] + inside)
  {
    forall v | v in [first] + inside
      ensures BeginsIn(v, [first] + inside)
    {
      if v.instr.CALL? && v.vm.status == Running {
        assert BeginsIn(v, inside);
        var w :| w in inside && w.vm == Inner(v.vm, v.instr.argc);
        assert w in [first] + inside;
      }
    }
  }

  /**
   For a run that comes to its end, with no script empty, the visited states alone tell: all of
   them are sound with all active frames in possession of their parameters if and only if no visited
   call takes the parameters of an active frame.
   */
  lemma EndedRunBoundIff(vm: Vm, depth: nat, script: Script, result: Datum)
    requires vm.status == Running && Sound(vm) && AllBound(vm) && HasCode(vm.scripts)
    requires Run(vm, depth, script, 0, result).vm.status == Running
    ensures (forall v :: v in Visited(vm, depth, script, 0, result) ==> Sound(v.vm) && AllBound(v.vm))
       <==> (forall v :: v in Visited(vm, depth, script, 0, result) ==> Fair(v))
  {
    var visits := Visited(vm, depth, script, 0, result);
    RunBoundIff(vm, depth, script, result);
    VisitsFetch(vm, depth, script, 0, result);
    CallsBegin(vm, depth, script, 0, result);
    if forall v :: v in visits ==> Sound(v.vm) && AllBound(v.vm) {
      forall v | v in visits
        ensures Holds(v)
      {
        if v.instr.CALL? && Enter(v.vm, v.instr.argc).status == Running {
          assert BeginsIn(v, visits);
          var w :| w in visits && w.vm == Inner(v.vm, v.instr.argc);
          BoundOfData(w.vm, Enter(v.vm, v.instr.argc));
        }
      }
    }
  }
}
