/**
 Call isolation: as long as every script is depth-checked, a call gives back the frame link and
 the static link it found and leaves every slot below the callee's own function slot alone,
 whatever the callee and the functions it calls do.
 */
module VmIsolation {
  import opened Chars
  import opened VmState
  import opened VmSemantics

  /** How many slots an instruction pops, at most. */
  function Needs(instr: Instr): nat {
    match instr
    case ADD => 2
    case ASSIGN => 2
    case RETURN(hasVal) => if hasVal == 1 then 1 else 0
    case CALL(argc) => argc + 1
    case _ => 0
  }

  /**
   How many of d slots are sure to be there afterwards: CALL leaves the function slot under its
   result, and ASSIGN may or may not keep the value as a new local.
   */
  function Leaves(instr: Instr, d: nat): nat
    requires Needs(instr) <= d
  {
    match instr
    case NUMBER(_) => d + 1
    case NAME(_) => d + 1
    case ADD => d - 1
    case ASSIGN => d - 2
    case RETURN(hasVal) => if hasVal == 1 then d - 1 else d
    case CALL(argc) => d - argc
    case NOP => d
  }

  /** From pc on, with d slots of its own on the stack, the code never pops more than its own. */
  predicate DepthChecked(code: seq<byte>, pc: nat, d: nat)
    decreases if pc <= |code| then |code| - pc else 0
  {
    pc >= |code| ||
    match Fetch(code, pc)
    case OutOfCode => false
    case Fetched(instr, size) => Needs(instr) <= d && DepthChecked(code, pc + size, Leaves(instr, d))
  }

  ghost predicate AllChecked(vm: Vm) {
    forall i :: 0 <= i < |vm.scripts| ==> DepthChecked(vm.scripts[i].code, 0, 0)
  }

  /** The slots from base on are the run's own: d of them hold values, and its frame lies in them. */
  ghost predicate Owns(vm: Vm, base: nat, d: nat) {
    && base + d <= vm.ptr <= |vm.data|
    && (vm.frame.Some? ==>
          && vm.frame.value < |vm.frames|
          && base <= vm.frames[vm.frame.value].argv && base <= vm.frames[vm.frame.value].vars)
  }

  /** Everything a run must not change: links, code, the slots below base, and all of a frame but `nvars`. */
  ghost predicate Keeps(vm: Vm, vm': Vm, base: nat) {
    && vm'.scripts == vm.scripts && vm'.functions == vm.functions && vm'.atoms == vm.atoms
    && vm'.frame == vm.frame && vm'.staticLink == vm.staticLink
    && |vm'.data| == |vm.data|
    && (forall i :: 0 <= i < base && i < |vm.data| ==> vm'.data[i] == vm.data[i])
    && |vm.frames| <= |vm'.frames|
    && (forall i :: 0 <= i < |vm.frames| ==> vm'.frames[i] == vm.frames[i].(nvars := vm'.frames[i].nvars))
  }

  lemma KeepsTrans(a: Vm, b: Vm, c: Vm, base: nat)
    requires Keeps(a, b, base) && Keeps(b, c, base)
    ensures Keeps(a, c, base)
  {
    forall i | 0 <= i < |a.frames|
      ensures c.frames[i] == a.frames[i].(nvars := c.frames[i].nvars)
    {
      assert b.frames[i] == a.frames[i].(nvars := b.frames[i].nvars);
      assert c.frames[i] == b.frames[i].(nvars := c.frames[i].nvars);
    }
  }

  lemma AssignToKeeps(vm: Vm, lval: Datum, rval: Datum, base: nat, d: nat)
    requires Owns(vm, base, d)
    ensures var vm' := AssignTo(vm, lval, rval);
            vm'.status == Running ==> Keeps(vm, vm', base) && Owns(vm', base, d)
  {}

  lemma AssignKeeps(vm: Vm, base: nat, d: nat)
    requires vm.status == Running && Owns(vm, base, d) && 2 <= d
    ensures var vm' := Assign(vm);
            vm'.status == Running ==> Keeps(vm, vm', base) && Owns(vm', base, d - 2)
  {
    var popped := PopTwo(vm);
    PopTwoKeeps(vm, base, d);
    if popped.status == Running {
      var lval, rval := popped.data[popped.ptr + 1], popped.data[popped.ptr];
      AssignToKeeps(popped, lval, rval, base, d - 2);
      FromMiddle(vm, popped, AssignTo(popped, lval, rval), base, d - 2);
    }
  }

  lemma PopTwoKeeps(vm: Vm, base: nat, d: nat)
    requires vm.status == Running && Owns(vm, base, d) && 2 <= d
    ensures var vm' := PopTwo(vm);
            vm'.status == Running ==> Keeps(vm, vm', base) && Owns(vm', base, d - 2)
  {}

  lemma FromMiddle(a: Vm, b: Vm, c: Vm, base: nat, d: nat)
    requires Keeps(a, b, base) && (c.status == Running ==> Keeps(b, c, base) && Owns(c, base, d))
    ensures c.status == Running ==> Keeps(a, c, base) && Owns(c, base, d)
  {
    if c.status == Running {
      KeepsTrans(a, b, c, base);
    }
  }

  lemma AddKeeps(vm: Vm, base: nat, d: nat)
    requires vm.status == Running && Owns(vm, base, d) && 2 <= d
    ensures var vm' := Add(vm);
            vm'.status == Running ==> Keeps(vm, vm', base) && Owns(vm', base, d - 1)
  {}

  /** Only slots from argv on, symbols and the status may have changed. */
  ghost predicate ArgsOnly(vm: Vm, vm': Vm, argv: nat) {
    && vm' == vm.(data := vm'.data, symbols := vm'.symbols, status := vm'.status)
    && |vm'.data| == |vm.data|
    && (forall i :: 0 <= i < argv && i < |vm.data| ==> vm'.data[i] == vm.data[i])
  }

  lemma ArgsOnlyTrans(a: Vm, b: Vm, c: Vm, argv: nat)
    requires ArgsOnly(a, b, argv) && ArgsOnly(b, c, argv)
    ensures ArgsOnly(a, c, argv)
  {}

  /** One round of the binding loop. */
  lemma RoundKeeps(vm: Vm, frame: Frame, s: nat, slot: nat)
    requires s < |vm.symbols|
    ensures var vm1 := ResolveAt(vm, frame.argv + slot);
            && ArgsOnly(vm, vm1, frame.argv) && |vm1.symbols| == |vm.symbols|
            && ArgsOnly(vm, vm1.(symbols := vm1.symbols[s := vm1.symbols[s].(scope := Some(frame.scope), slot := Some(slot % 256))]), frame.argv)
  {
    hide Resolve;
  }

  /** Binding writes only to the argument slots and to parameter symbols. */
  lemma {:induction false} BindKeeps(vm: Vm, frame: Frame, sym: Option<nat>, slot: nat)
    ensures ArgsOnly(vm, BindArgs(vm, frame, sym, slot), frame.argv)
    decreases if sym.Some? then sym.value + 1 else 0
  {
    hide ResolveAt;
    if sym.Some? && slot < frame.argc && sym.value < |vm.symbols| {
      RoundKeeps(vm, frame, sym.value, slot);
      var vm1 := ResolveAt(vm, frame.argv + slot);
      if vm1.status == Running {
        var s := vm1.symbols[sym.value];
        var vm2 := vm1.(symbols := vm1.symbols[sym.value := s.(scope := Some(frame.scope), slot := Some(slot % 256))]);
        if !(s.next.Some? && s.next.value >= sym.value) {
          BindKeeps(vm2, frame, s.next, slot + 1);
          ArgsOnlyTrans(vm, vm2, BindArgs(vm2, frame, s.next, slot + 1), frame.argv);
        }
      }
    }
  }

  /** A call that is entered: a new frame on the old one, and nothing below the function slot touched. */
  ghost predicate NewFrameOn(vm: Vm, vm': Vm, argc: nat) {
    && vm'.scripts == vm.scripts && vm'.functions == vm.functions && vm'.atoms == vm.atoms
    && vm'.staticLink == vm.staticLink && vm'.ptr == vm.ptr <= |vm.data| == |vm'.data|
    && (forall i :: 0 <= i < vm.ptr - argc - 1 ==> vm'.data[i] == vm.data[i])
    && |vm'.frames| == |vm.frames| + 1 && vm'.frames[..|vm.frames|] == vm.frames
    && vm'.frame == Some(|vm.frames|)
    && var frame := vm'.frames[|vm.frames|];
    && frame.down == vm.frame && frame.argv == vm.ptr - argc && frame.vars == vm.ptr
    && frame.fun < |vm.functions| && vm.functions[frame.fun].script < |vm.scripts|
  }

  lemma MakeFrameKeeps(vm: Vm, vm1: Vm, argc: nat, fun: nat)
    requires argc + 1 <= vm.ptr <= |vm.data| && vm1 == vm.(data := vm1.data) && |vm1.data| == |vm.data|
    requires forall i :: 0 <= i < vm.ptr - argc - 1 ==> vm1.data[i] == vm.data[i]
    requires fun < |vm.functions| && vm.functions[fun].script < |vm.scripts|
    ensures NewFrameOn(vm, MakeFrame(vm1, argc, fun), argc)
  {
    var args := vm.scripts[vm.functions[fun].script].args;
    var frame := Frame(argc, vm.ptr - argc, 0, vm.ptr, fun, vm.frame, |vm.scopes|);
    var vm2 := vm1.(frames := vm1.frames + [frame], frame := Some(|vm.frames|),
                    scopes := vm1.scopes + [Scope(args, Some(vm.functions[fun].slink))]);
    BindKeeps(vm2, frame, args, 0);
    assert MakeFrame(vm1, argc, fun) == BindArgs(vm2, frame, args, 0);
  }

  lemma EnterKeeps(vm: Vm, argc: nat)
    requires vm.status == Running && argc + 1 <= vm.ptr
    ensures Enter(vm, argc).status == Running ==> NewFrameOn(vm, Enter(vm, argc), argc)
  {
    hide MakeFrame, Resolve, NewFrameOn;
    var vm1 := ResolveAt(vm, vm.ptr - argc - 1);
    if vm.ptr <= |vm.data| && vm1.status == Running && vm1.data[vm.ptr - argc - 1].FunctionRef? {
      var fun := vm1.data[vm.ptr - argc - 1].fun;
      if fun < |vm.functions| && vm.functions[fun].script < |vm.scripts| {
        MakeFrameKeeps(vm, vm1, argc, fun);
      }
    }
  }

  /** The instructions that neither call nor assign nor add. */
  lemma PlainKeeps(vm: Vm, depth: nat, script: Script, instr: Instr, result: Datum, base: nat, d: nat)
    requires vm.status == Running && Owns(vm, base, d) && Needs(instr) <= d
    requires !instr.CALL? && !instr.ASSIGN? && !instr.ADD?
    ensures var vm' := Exec(vm, depth, script, instr, result).vm;
            vm'.status == Running ==> Keeps(vm, vm', base) && Owns(vm', base, Leaves(instr, d))
  {
    hide Resolve;
  }

  /** One instruction that finds what it needs keeps what is not its own. */
  lemma {:induction false} ExecKeeps(vm: Vm, depth: nat, script: Script, instr: Instr, result: Datum, base: nat, d: nat)
    requires vm.status == Running && AllChecked(vm) && Owns(vm, base, d) && Needs(instr) <= d
    ensures var vm' := Exec(vm, depth, script, instr, result).vm;
            vm'.status == Running ==> Keeps(vm, vm', base) && Owns(vm', base, Leaves(instr, d))
    decreases depth, 0, 1
  {
    hide Resolve, Add, Assign;
    match instr
    case CALL(argc) => CallKeeps(vm, depth, argc, script, result);
    case ASSIGN => AssignKeeps(vm, base, d);
    case ADD => AddKeeps(vm, base, d);
    case _ => PlainKeeps(vm, depth, script, instr, result, base, d);
  }

  /** A call: links restored, nothing below the function slot changed, the arguments gone. */
  lemma {:induction false} CallKeeps(vm: Vm, depth: nat, argc: nat, script: Script, result: Datum)
    requires vm.status == Running && AllChecked(vm) && argc + 1 <= vm.ptr <= |vm.data|
    ensures var c := Exec(vm, depth, script, CALL(argc), result);
            c.vm.status == Running ==>
              && Keeps(vm, c.vm, vm.ptr - argc - 1) && c.result == result
              && vm.ptr - argc <= c.vm.ptr <= vm.ptr - argc + 1 && c.vm.ptr <= |vm.data|
    decreases depth, 0, 0
  {
    var entered := Enter(vm, argc);
    EnterKeeps(vm, argc);
    if entered.status == Running && depth > 0 {
      var below: nat, frame := depth - 1, entered.frames[|vm.frames|];
      var callee, inner := CalleeOf(entered, frame), entered.(staticLink := frame.scope);
      CallInOne(vm, depth, below, script, argc, result);
      RunKeeps(inner, below, callee, 0, Undef, frame.argv, 0);
      var c := Run(inner, below, callee, 0, Undef);
      if c.vm.status == Running {
        LeaveKeeps(vm, entered, c.vm, argc, c.result);
      }
    }
  }

  /** What the call keeps, put together from what entering and the callee's run keep. */
  lemma LeaveKeeps(vm: Vm, entered: Vm, done: Vm, argc: nat, value: Datum)
    requires argc + 1 <= vm.ptr <= |vm.data| && |entered.frames| == |vm.frames| + 1 && entered.frames[..|vm.frames|] == vm.frames
    requires entered.scripts == vm.scripts && entered.functions == vm.functions && entered.atoms == vm.atoms
    requires |entered.data| == |vm.data| && forall i :: 0 <= i < vm.ptr - argc - 1 ==> entered.data[i] == vm.data[i]
    requires var frame := entered.frames[|vm.frames|];
             && frame.down == vm.frame && frame.argv == vm.ptr - argc
             && Keeps(entered.(staticLink := frame.scope), done, frame.argv)
    ensures var left := Leave(done.(staticLink := vm.staticLink), entered.frames[|vm.frames|], value);
            left.status == Running ==>
              && Keeps(vm, left, vm.ptr - argc - 1)
              && vm.ptr - argc <= left.ptr <= vm.ptr - argc + 1 && left.ptr <= |vm.data|
  {
    assert forall i :: 0 <= i < |vm.frames| ==> entered.frames[i] == vm.frames[i];
  }

  /** The loop from pc on, with d slots of its own. */
  lemma {:induction false} RunKeeps(vm: Vm, depth: nat, script: Script, pc: nat, result: Datum, base: nat, d: nat)
    requires vm.status == Running && AllChecked(vm) && DepthChecked(script.code, pc, d) && Owns(vm, base, d)
    ensures var vm' := Run(vm, depth, script, pc, result).vm;
            vm'.status == Running ==> Keeps(vm, vm', base) && Owns(vm', base, 0)
    decreases depth, if pc <= |script.code| then |script.code| - pc else 0, 1
  {
    if pc < |script.code| {
      var Fetched(instr, size) := Fetch(script.code, pc);
      var next := Exec(vm, depth, script, instr, result);
      ExecKeeps(vm, depth, script, instr, result, base, d);
      if next.vm.status == Running {
        RunKeeps(next.vm, depth, script, pc + size, next.result, base, Leaves(instr, d));
        if Run(vm, depth, script, pc, result).vm.status == Running {
          KeepsTrans(vm, next.vm, Run(vm, depth, script, pc, result).vm, base);
        }
      }
    }
  }

  /**
   Call isolation, for any nesting of calls: if CALL comes back, it does so with the same frame
   link and the same static link, with every slot below the callee's function slot unchanged,
   and with the stack cut back to the function slot and at most a result above it.
   */
  lemma CallIsolation(vm: Vm, depth: nat, argc: nat, script: Script, result: Datum)
    requires vm.status == Running && AllChecked(vm) && vm.ptr <= |vm.data|
    ensures var vm' := Exec(vm, depth, script, CALL(argc), result).vm;
            vm'.status == Running ==>
              && argc + 1 <= vm.ptr
              && vm'.frame == vm.frame && vm'.staticLink == vm.staticLink
              && |vm'.data| == |vm.data| && vm'.data[..vm.ptr - argc - 1] == vm.data[..vm.ptr - argc - 1]
              && (vm'.ptr == vm.ptr - argc || vm'.ptr == vm.ptr - argc + 1)
  {
    if argc + 1 <= vm.ptr {
      CallKeeps(vm, depth, argc, script, result);
    }
  }
}
