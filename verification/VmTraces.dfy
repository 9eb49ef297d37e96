/** The states visited by emitted code, instruction list by instruction list. */
module VmTraces {
  import opened VmState
  import opened VmSemantics
  import opened VmEmit
  import opened VmProgram
  import opened VmBinding
  import opened VmRuns

  /** `Visited` on instructions instead of bytes. */
  function VisitedList(vm: Vm, depth: nat, script: Script, instrs: seq<Instr>, result: Datum): seq<Visit>
    decreases |instrs|
  {
    if vm.status != Running || instrs == [] then []
    else
      var next := Exec(vm, depth, script, instrs[0], result);
      VisitedBy(vm, depth, instrs[0]) + VisitedList(next.vm, depth, script, instrs[1..], next.result)
  }

  lemma {:induction false} VisitedEncoded(vm: Vm, depth: nat, script: Script, before: seq<byte>, instrs: seq<Instr>, result: Datum)
    requires AllEncodable(instrs) && script.code == before + Encode(instrs)
    ensures Visited(vm, depth, script, |before|, result) == VisitedList(vm, depth, script, instrs, result)
    decreases instrs
  {
    if instrs != [] && vm.status == Running {
      var instr, more := instrs[0], instrs[1..];
      FetchEncoded(before, instr, Encode(more));
      var next := Exec(vm, depth, script, instr, result);
      assert script.code == (before + Encode1(instr)) + Encode(more);
      VisitedEncoded(next.vm, depth, script, before + Encode1(instr), more, next.result);
    }
  }

  lemma {:induction false} VisitedAppend(vm: Vm, depth: nat, script: Script, a: seq<Instr>, b: seq<Instr>, result: Datum)
    ensures VisitedList(vm, depth, script, a + b, result)
         == VisitedList(vm, depth, script, a, result)
            + var mid := RunList(vm, depth, script, a, result);
              VisitedList(mid.vm, depth, script, b, mid.result)
    decreases a
  {
    if a == [] {
      assert a + b == b;
    } else if vm.status == Running {
      assert (a + b)[1..] == a[1..] + b;
      var next := Exec(vm, depth, script, a[0], result);
      VisitedAppend(next.vm, depth, script, a[1..], b, next.result);
    }
  }

  lemma VisitedOne(vm: Vm, depth: nat, script: Script, instr: Instr, result: Datum)
    requires vm.status == Running
    ensures VisitedList(vm, depth, script, [instr], result) == VisitedBy(vm, depth, instr)
  {
    assert [instr][1..] == [];
  }

  // ---------- code without calls ----------

  predicate NoCalls(instrs: seq<Instr>) { forall i :: 0 <= i < |instrs| ==> !instrs[i].CALL? }

  predicate NoAssigns(instrs: seq<Instr>) { forall i :: 0 <= i < |instrs| ==> !instrs[i].ASSIGN? }

  /** Such code changes no binding of the symbols there are, and neither calls nor changes the frame. */
  ghost predicate Plain(vm: Vm, vm': Vm) {
    && vm'.frame == vm.frame && |vm.symbols| <= |vm'.symbols|
    && forall s :: 0 <= s < |vm.symbols| ==> vm'.symbols[s] == vm.symbols[s].(value := vm'.symbols[s].value)
  }

  lemma AssignPlain(vm: Vm)
    ensures Plain(vm, VmSemantics.Assign(vm))
  {
    if 2 <= vm.ptr <= |vm.data| {
      PopTwoData(vm);
      hide PopTwo, Resolve;
      assert Plain(PopTwo(vm), VmSemantics.Assign(vm));
    }
  }

  lemma ExecPlain(vm: Vm, depth: nat, script: Script, instr: Instr, result: Datum)
    requires !instr.CALL?
    ensures Plain(vm, Exec(vm, depth, script, instr, result).vm)
  {
    AssignPlain(vm);
    hide VmSemantics.Assign, Resolve;
  }

  lemma {:induction false} ListPlain(vm: Vm, depth: nat, script: Script, instrs: seq<Instr>, result: Datum)
    requires NoCalls(instrs)
    ensures Plain(vm, RunList(vm, depth, script, instrs, result).vm)
    ensures forall v :: v in VisitedList(vm, depth, script, instrs, result) ==> !v.instr.CALL? && v.vm.frame == vm.frame
    ensures NoAssigns(instrs) ==>
              forall v :: v in VisitedList(vm, depth, script, instrs, result) ==> !v.instr.ASSIGN?
    decreases |instrs|
  {
    if vm.status == Running && instrs != [] {
      var next := Exec(vm, depth, script, instrs[0], result);
      var more := instrs[1..];
      ExecPlain(vm, depth, script, instrs[0], result);
      assert forall i :: 0 <= i < |more| ==> more[i] == instrs[i + 1];
      ListPlain(next.vm, depth, script, more, next.result);
      assert VisitedBy(vm, depth, instrs[0]) == [Visit(vm, instrs[0])];
    }
  }

  lemma {:induction false} ExprCode(e: Expr)
    ensures NoCalls(GenExpr(e)) && NoAssigns(GenExpr(e))
    decreases e
  {
    if e.Plus? {
      ExprCode(e.l);
      ExprCode(e.r);
    }
  }

  lemma {:induction false} ArgsCode(args: seq<Expr>)
    ensures NoCalls(GenArgs(args)) && NoAssigns(GenArgs(args))
    decreases args
  {
    if args != [] {
      ExprCode(args[0]);
      ArgsCode(args[1..]);
    }
  }

  lemma {:induction false} LetsCode(lets: seq<Let>)
    ensures NoCalls(GenLets(lets))
    decreases lets
  {
    if lets != [] {
      ExprCode(lets[0].e);
      LetsCode(lets[1..]);
    }
  }
}
