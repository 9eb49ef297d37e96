/** The states a run goes through, and induction over runs. */
module VmRuns {
  import opened VmState
  import opened VmSemantics

  /** A state in which the loop fetches an instruction. */
  datatype Visit = Visit(vm: Vm, instr: Instr)

  /** Every such state of a run, those of the calls it makes included, in order. */
  function Visited(vm: Vm, depth: nat, script: Script, pc: nat, result: Datum): seq<Visit>
    decreases depth, if pc <= |script.code| then |script.code| - pc else 0, 1
  {
    if vm.status != Running || pc >= |script.code| then []
    else
      match Fetch(script.code, pc)
      case OutOfCode => []
      case Fetched(instr, size) =>
        var next := Exec(vm, depth, script, instr, result);
        VisitedBy(vm, depth, instr) + Visited(next.vm, depth, script, pc + size, next.result)
  }

  /** The state an instruction is fetched in, and those of the call it makes. */
  function VisitedBy(vm: Vm, depth: nat, instr: Instr): seq<Visit>
    decreases depth, 0, 1
  {
    [Visit(vm, instr)] + if instr.CALL? then VisitedInCall(vm, depth, instr.argc) else []
  }

  function VisitedInCall(vm: Vm, depth: nat, argc: nat): seq<Visit>
    decreases depth, 0, 0
  {
    var entered := Enter(vm, argc);
    if vm.status != Running || entered.status != Running || depth == 0 then []
    else
      var frame := entered.frames[|vm.frames|];
      Visited(entered.(staticLink := frame.scope), depth - 1, CalleeOf(entered, frame), 0, Undef)
  }

  /**
   One instruction, with all it calls, keeps `good` in every state and again at its end, and its
   end is related to its start -- provided every state it visits is `fair`.
   */
  ghost predicate Steady(good: Vm -> bool, rel: (Vm, Vm) -> bool, fair: Visit -> bool, depth: nat) {
    forall vm: Vm, script: Script, instr: Instr, result: Datum ::
      Starts(good, vm, instr) && AllFair(fair, VisitedBy(vm, depth, instr)) ==>
        Kept(good, rel, vm, Exec(vm, depth, script, instr, result).vm, VisitedBy(vm, depth, instr))
  }

  ghost predicate Starts(good: Vm -> bool, vm: Vm, instr: Instr) {
    vm.status == Running && good(vm) && (instr.CALL? ==> instr.argc < 256)
  }

  ghost predicate AllFair(fair: Visit -> bool, visits: seq<Visit>) { forall v :: v in visits ==> fair(v) }

  ghost predicate Kept(good: Vm -> bool, rel: (Vm, Vm) -> bool, vm: Vm, vm': Vm, visits: seq<Visit>) {
    && (forall v :: v in visits ==> good(v.vm))
    && (vm'.status == Running ==> good(vm') && rel(vm, vm'))
  }

  ghost predicate IsPreorder(rel: (Vm, Vm) -> bool) {
    && (forall a :: rel(a, a))
    && (forall a, b, c :: rel(a, b) && rel(b, c) ==> rel(a, c))
  }

  /** What every instruction keeps, every run keeps. */
  lemma {:induction false} RunInduction(good: Vm -> bool, rel: (Vm, Vm) -> bool, fair: Visit -> bool,
                                        vm: Vm, depth: nat, script: Script, pc: nat, result: Datum)
    requires Steady(good, rel, fair, depth) && IsPreorder(rel)
    requires vm.status == Running && good(vm) && AllFair(fair, Visited(vm, depth, script, pc, result))
    ensures Kept(good, rel, vm, Run(vm, depth, script, pc, result).vm, Visited(vm, depth, script, pc, result))
    decreases |script.code| - pc
  {
    hide Exec, VisitedBy;
    if pc < |script.code| && Fetch(script.code, pc).Fetched? {
      var Fetched(instr, size) := Fetch(script.code, pc);
      var next := Exec(vm, depth, script, instr, result);
      var first, rest := VisitedBy(vm, depth, instr), Visited(next.vm, depth, script, pc + size, next.result);
      assert forall v :: v in first + rest <==> v in first || v in rest;
      assert Starts(good, vm, instr);
      assert Kept(good, rel, vm, next.vm, first);
      if next.vm.status == Running {
        RunInduction(good, rel, fair, next.vm, depth, script, pc + size, next.result);
      }
    }
  }
}
