/**
 What reentry does: a function that calls its own argument, called with itself.  The second call
 takes the parameter away from the first, and the run ends in the call of a number, which throws.
 */
module VmReentry {
  import opened Chars
  import opened VmState
  import opened VmSemantics
  import opened VmEmit
  import opened VmProgram
  import opened VmRuns
  import opened VmBinding
  import opened VmTraces
  import opened VmSetup

  /** f(x) returns x(7); the main program sets a = f(f).  The atoms are f, x, 7 and a. */
  function SelfApplication(): Program {
    Program([Name("f"), Name("x"), Num(7), Name("a")],
            [FnDef(0, [1, 2], [1], Body([], Tail(0, [Lit(1)])))],
            [0, 3],
            [Top.Call(1, 0, [Var(0)])])
  }

  const BODY: seq<Instr> := [NAME(0), NUMBER(1), CALL(1), RETURN(1)]
  const MAIN: seq<Instr> := [NAME(0), NAME(0), CALL(1), NAME(1), Instr.ASSIGN]

  lemma Codes()
    ensures GenBody(SelfApplication().fns[0].body) == BODY && GenMain(SelfApplication().main) == MAIN
    ensures Emittable(SelfApplication())
  {
    var def, main := SelfApplication().fns[0], SelfApplication().main;
    assert GenArgs([Lit(1)]) == [NUMBER(1)] by {
      assert [Lit(1)][1..] == [];
    }
    assert GenArgs([Var(0)]) == [NAME(0)] by {
      assert [Var(0)][1..] == [];
    }
    assert GenLets(def.body.lets) == [];
    assert main[1..] == [];
  }

  function FScript(): Script
    requires AllEncodable(BODY)
  {
    Script([1, 2], Some(0), Encode(BODY))
  }

  /** The argument of the inner call, read from its literal. */
  const SEVEN: Datum := Number(7, Some(2))

  /** The parameter x and the function's own symbol. */
  function X(scope: Option<nat>): Symbol { Symbol(ARGUMENT, if scope.Some? then Some(0) else None, None, scope, 1, None) }

  function F(): Symbol { Symbol(PROPERTY, None, None, Some(0), 0, Some(FunctionRef(0))) }

  /** The machine with so much done: x bound to the scope of the n-th frame, n frames on each other. */
  function Machine(data: seq<Datum>, ptr: nat, n: nat, x: Option<nat>): Vm
    requires n <= 2 && AllEncodable(BODY)
  {
    Vm(SelfApplication().atoms, [FScript()], [Function(0, 0, 0)], [X(x), F()],
       [Scope(Some(1), None), Scope(Some(0), Some(0)), Scope(Some(0), Some(0))][..n + 1],
       [Frame(1, 1, 0, 2, 0, None, 1), Frame(1, 3, 0, 4, 0, Some(0), 2)][..n],
       data, ptr, if n == 0 then None else Some(n - 1), n, Running)
  }

  lemma Loaded(size: nat)
    requires Emittable(SelfApplication())
    ensures AllEncodable(BODY) && Load(SelfApplication(), size) == Machine(seq(size, _ => Undef), 0, 0, None)
  {
    var prog := SelfApplication();
    Codes();
    var less := ButLast(prog);
    assert less.fns == [];
    assert Load(less, size).symbols == [];
    var none: seq<Symbol>, params: seq<nat> := [], [1];
    assert AddParameters(none, params[1..]) == (none, None);
    assert AddParameters(none, params) == (none + [X(None)], Some(0));
    assert [X(None)] + [F()] == [X(None), F()];
  }

  // ---------- the run ----------

  lemma AtomRuns(vm: Vm, depth: nat, script: Script, instr: Instr, i: nat, more: seq<Instr>, result: Datum)
    requires vm.status == Running && i < |script.atoms| && (instr == NAME(i) || instr == NUMBER(i))
    ensures RunList(vm, depth, script, [instr] + more, result) == RunList(Push(vm, AtomRef(script.atoms[i])), depth, script, more, result)
    ensures VisitedList(vm, depth, script, [instr] + more, result)
         == [Visit(vm, instr)] + VisitedList(Push(vm, AtomRef(script.atoms[i])), depth, script, more, result)
  {
    assert ([instr] + more)[1..] == more;
  }

  /** The data stack as the calls find it: f and its argument, then x and 7 for every frame. */
  function Slots(data: seq<Datum>, at: nat, d: Datum, e: Datum): seq<Datum>
    requires at + 2 <= |data|
  {
    data[at := d][at + 1 := e]
  }

  /** f(f) in the main program: f is entered for the first time. */
  lemma FirstCall(data: seq<Datum>)
    requires AllEncodable(BODY) && |data| >= 6 && data[0] == data[1] == AtomRef(0)
    ensures Enter(Machine(data, 2, 0, None), 1).(staticLink := 1) == Machine(Slots(data, 0, FunctionRef(0), FunctionRef(0)), 2, 1, Some(1))
  {
    var vm := Machine(data, 2, 0, None);
    assert FindSymbol(vm.symbols, vm.scopes, Some(0), 0) == Some(1);
    var vm1 := ResolveAt(vm, 0);
    assert vm1 == vm.(data := data[0 := FunctionRef(0)]);
    var frame := Frame(1, 1, 0, 2, 0, None, 1);
    var vm2 := vm1.(frames := [frame], frame := Some(0), scopes := vm.scopes + [Scope(Some(0), Some(0))]);
    assert Enter(vm, 1) == BindArgs(vm2, frame, Some(0), 0);
    assert FindSymbol(vm2.symbols, vm2.scopes, Some(0), 0) == Some(1);
    assert ResolveAt(vm2, 1) == vm2.(data := Slots(data, 0, FunctionRef(0), FunctionRef(0)));
  }

  /** x(7) in the first call: x is f, so f is entered again, and x goes to the second frame. */
  lemma SecondCall(data: seq<Datum>)
    requires AllEncodable(BODY) && |data| >= 6 && data[1] == FunctionRef(0) && data[2] == AtomRef(1) && data[3] == AtomRef(2)
    ensures Callee(Machine(data, 4, 1, Some(1)), 1) == Some(0)
    ensures Enter(Machine(data, 4, 1, Some(1)), 1).(staticLink := 2) == Machine(Slots(data, 2, FunctionRef(0), SEVEN), 4, 2, Some(2))
  {
    var vm := Machine(data, 4, 1, Some(1));
    assert FindSymbol(vm.symbols, vm.scopes, Some(1), 1) == Some(0);
    assert FrameOf(vm.frames, Some(0), Some(1)) == Some(0);
    var vm1 := ResolveAt(vm, 2);
    assert vm1 == vm.(data := data[2 := FunctionRef(0)]);
    var frame := Frame(1, 3, 0, 4, 0, Some(0), 2);
    var vm2 := vm1.(frames := vm.frames + [frame], frame := Some(1), scopes := vm.scopes + [Scope(Some(0), Some(0))]);
    assert Enter(vm, 1) == BindArgs(vm2, frame, Some(0), 0);
    assert ResolveAt(vm2, 3) == vm2.(data := Slots(data, 2, FunctionRef(0), SEVEN));
  }

  /** x(7) in the second call: x is 7. */
  lemma ThirdCall(data: seq<Datum>)
    requires AllEncodable(BODY) && |data| >= 6 && data[3] == SEVEN && data[4] == AtomRef(1)
    ensures Enter(Machine(data, 6, 2, Some(2)), 1).status == Thrown(2)
  {
    var vm := Machine(data, 6, 2, Some(2));
    assert FindSymbol(vm.symbols, vm.scopes, Some(2), 1) == Some(0);
    assert FrameOf(vm.frames, Some(1), Some(2)) == Some(1);
    assert ResolveAt(vm, 4) == vm.(data := data[4 := SEVEN]);
  }

  lemma MachinePushes(data: seq<Datum>, ptr: nat, n: nat, x: Option<nat>, d: Datum, e: Datum)
    requires AllEncodable(BODY) && n <= 2 && ptr + 2 <= |data|
    ensures Push(Push(Machine(data, ptr, n, x), d), e) == Machine(Slots(data, ptr, d, e), ptr + 2, n, x)
  {}

  lemma FirstTwo(code: seq<Instr>)
    requires |code| >= 2
    ensures code == [code[0]] + code[1..] && code[1..] == [code[1]] + code[2..]
  {}

  /** Code that begins with two pushes. */
  lemma TwoPushesRun(vm: Vm, vm': Vm, depth: nat, script: Script, code: seq<Instr>, i: nat, j: nat)
    requires vm.status == Running && vm.ptr + 2 <= |vm.data| && i < |script.atoms| && j < |script.atoms| && |code| >= 2
    requires code[0] in {NAME(i), NUMBER(i)} && code[1] in {NAME(j), NUMBER(j)}
    requires vm' == Push(Push(vm, AtomRef(script.atoms[i])), AtomRef(script.atoms[j]))
    ensures RunList(vm, depth, script, code, Undef) == RunList(vm', depth, script, code[2..], Undef)
    ensures forall v :: v in VisitedList(vm', depth, script, code[2..], Undef) ==> v in VisitedList(vm, depth, script, code, Undef)
  {
    var vm1 := Push(vm, AtomRef(script.atoms[i]));
    assert vm1.status == Running;
    hide *;
    FirstTwo(code);
    AtomRuns(vm, depth, script, code[0], i, code[1..], Undef);
    AtomRuns(vm1, depth, script, code[1], j, code[2..], Undef);
  }

  /** A script that begins with two pushes. */
  lemma TwoPushes(vm: Vm, vm': Vm, depth: nat, script: Script, code: seq<Instr>, i: nat, j: nat)
    requires vm.status == Running && vm.ptr + 2 <= |vm.data| && i < |script.atoms| && j < |script.atoms|
    requires AllEncodable(code) && script.code == Encode(code) && |code| >= 2
    requires code[0] in {NAME(i), NUMBER(i)} && code[1] in {NAME(j), NUMBER(j)}
    requires vm' == Push(Push(vm, AtomRef(script.atoms[i])), AtomRef(script.atoms[j]))
    ensures Run(vm, depth, script, 0, Undef) == RunList(vm', depth, script, code[2..], Undef)
    ensures forall v :: v in VisitedList(vm', depth, script, code[2..], Undef) ==> v in Visited(vm, depth, script, 0, Undef)
  {
    hide *;
    assert script.code == [] + Encode(code);
    RunEncoded(vm, depth, script, [], code, Undef);
    VisitedEncoded(vm, depth, script, [], code, Undef);
    TwoPushesRun(vm, vm', depth, script, code, i, j);
  }

  /** The body of f up to its call, in a frame of its own. */
  lemma BodyStarts(data: seq<Datum>, ptr: nat, n: nat, x: Option<nat>, depth: nat)
    requires AllEncodable(BODY) && n <= 2 && ptr + 2 <= |data|
    ensures var vm, vm' := Machine(data, ptr, n, x), Machine(Slots(data, ptr, AtomRef(1), AtomRef(2)), ptr + 2, n, x);
            && Run(vm, depth, FScript(), 0, Undef) == RunList(vm', depth, FScript(), BODY[2..], Undef)
            && forall v :: v in VisitedList(vm', depth, FScript(), BODY[2..], Undef) ==> v in Visited(vm, depth, FScript(), 0, Undef)
  {
    MachinePushes(data, ptr, n, x, AtomRef(1), AtomRef(2));
    TwoPushes(Machine(data, ptr, n, x), Machine(Slots(data, ptr, AtomRef(1), AtomRef(2)), ptr + 2, n, x),
              depth, FScript(), BODY, 0, 1);
  }

  /** An exception in the callee is one of the call. */
  lemma CallThrows(vm: Vm, inner: Vm, depth: nat, below: nat, script: Script, callee: Script, more: seq<Instr>)
    requires vm.status == Running && Enter(vm, 1).status == Running && depth == below + 1
    requires callee == CalleeOf(Enter(vm, 1), Enter(vm, 1).frames[|vm.frames|])
    requires inner == Enter(vm, 1).(staticLink := Enter(vm, 1).frames[|vm.frames|].scope)
    requires Run(inner, below, callee, 0, Undef).vm.status == Thrown(2)
    ensures RunList(vm, depth, script, [CALL(1)] + more, Undef).vm.status == Thrown(2)
    ensures VisitedList(vm, depth, script, [CALL(1)] + more, Undef) == [Visit(vm, CALL(1))] + Visited(inner, below, callee, 0, Undef)
  {
    assert ([CALL(1)] + more)[1..] == more;
    ThrowingCall(vm, inner, depth, below, script, callee);
    assert VisitedBy(vm, depth, CALL(1)) == [Visit(vm, CALL(1))] + VisitedInCall(vm, depth, 1);
  }

  lemma ThrowingCall(vm: Vm, inner: Vm, depth: nat, below: nat, script: Script, callee: Script)
    requires vm.status == Running && Enter(vm, 1).status == Running && depth == below + 1
    requires callee == CalleeOf(Enter(vm, 1), Enter(vm, 1).frames[|vm.frames|])
    requires inner == Enter(vm, 1).(staticLink := Enter(vm, 1).frames[|vm.frames|].scope)
    requires Run(inner, below, callee, 0, Undef).vm.status == Thrown(2)
    ensures Exec(vm, depth, script, CALL(1), Undef).vm.status == Thrown(2)
    ensures VisitedInCall(vm, depth, 1) == Visited(inner, below, callee, 0, Undef)
  {
    CallInOne(vm, depth, below, script, 1, Undef);
    ThrowingRun(Enter(vm, 1), below, callee, Enter(vm, 1).frames[|vm.frames|].scope);
  }

  lemma ThrowingRun(vm: Vm, depth: nat, callee: Script, slink: nat)
    requires Run(vm.(staticLink := slink), depth, callee, 0, Undef).vm.status == Thrown(2)
    ensures Interpret(vm, depth, callee, slink, Undef).vm.status == Thrown(2)
  {}

  /** The second call of f, from the first, never comes back. */
  lemma SecondThrows(data: seq<Datum>, depth: nat, below: nat)
    requires AllEncodable(BODY) && |data| >= 6 && data[1] == FunctionRef(0) && data[2] == AtomRef(1) && data[3] == AtomRef(2)
    requires depth == below + 1
    ensures RunList(Machine(data, 4, 1, Some(1)), depth, FScript(), BODY[2..], Undef).vm.status == Thrown(2)
    ensures Visit(Machine(data, 4, 1, Some(1)), CALL(1)) in VisitedList(Machine(data, 4, 1, Some(1)), depth, FScript(), BODY[2..], Undef)
  {
    var vm, after := Machine(data, 4, 1, Some(1)), Slots(data, 2, FunctionRef(0), SEVEN);
    var inner := Machine(after, 4, 2, Some(2));
    SecondCall(data);
    ThirdThrows(after, below);
    assert BODY[2..] == [CALL(1)] + [RETURN(1)];
    assert Enter(vm, 1).frames[1] == inner.frames[1];
    CallThrows(vm, inner, depth, below, FScript(), FScript(), [RETURN(1)]);
  }

  lemma ThirdThrows(data: seq<Datum>, depth: nat)
    requires AllEncodable(BODY) && |data| >= 6 && data[3] == SEVEN
    ensures Run(Machine(data, 4, 2, Some(2)), depth, FScript(), 0, Undef).vm.status == Thrown(2)
  {
    BodyStarts(data, 4, 2, Some(2), depth);
    var last := Slots(data, 4, AtomRef(1), AtomRef(2));
    ThirdCall(last);
    assert BODY[2..] == [CALL(1)] + [RETURN(1)] && BODY[2..][1..] == [RETURN(1)];
    assert Exec(Machine(last, 6, 2, Some(2)), depth, FScript(), CALL(1), Undef).vm.status == Thrown(2);
  }

  lemma SecondCallGood(data: seq<Datum>)
    requires AllEncodable(BODY) && |data| >= 6 && data[1] == FunctionRef(0) && data[2] == AtomRef(1) && data[3] == AtomRef(2)
    ensures var vm := Machine(data, 4, 1, Some(1));
            Sound(vm) && AllBound(vm) && Active(vm.frames, vm.frame) == [0] && Params(vm, 0) == [0]
  {
    var vm := Machine(data, 4, 1, Some(1));
    assert Params(vm, 0) == [0];
    assert Active(vm.frames, vm.frame) == [0];
    assert GoodFrame(vm, 0) && Bound(vm, 0);
  }

  lemma SecondCallTakes(data: seq<Datum>)
    requires AllEncodable(BODY) && |data| >= 6 && data[1] == FunctionRef(0) && data[2] == AtomRef(1) && data[3] == AtomRef(2)
    ensures var vm := Machine(data, 4, 1, Some(1));
            && vm.status == Running && Enter(vm, 1).status == Running && Callee(vm, 1) == Some(0)
            && Sound(vm) && AllBound(vm) && Reenters(vm, 1) && Dispossesses(vm, 1, 0)
  {
    var vm := Machine(data, 4, 1, Some(1));
    SecondCallGood(data);
    SecondCall(data);
    hide Sound, AllBound, Params, Active, Enter;
    assert Runs(vm, 0, 0) && ScriptOf(vm, 0) == 0;
  }

  /** The state of the second call: f is active and about to be entered again, which takes x from it. */
  lemma SecondCallReenters(data: seq<Datum>)
    requires AllEncodable(BODY) && |data| >= 6 && data[1] == FunctionRef(0) && data[2] == AtomRef(1) && data[3] == AtomRef(2)
    ensures var vm := Machine(data, 4, 1, Some(1));
            && Sound(vm) && AllBound(vm) && Reenters(vm, 1) && Dispossesses(vm, 1, 0)
            && Sound(Enter(vm, 1)) && !AllBound(Enter(vm, 1))
  {
    var vm := Machine(data, 4, 1, Some(1));
    hide *;
    SecondCallTakes(data);
    EnterEntered(vm, 1);
    EnterBoundIff(vm, Enter(vm, 1), 1, 0);
  }

  lemma MainStarts(data: seq<Datum>, depth: nat, main: Script)
    requires AllEncodable(BODY) && AllEncodable(MAIN) && |data| >= 6 && main == Script([0, 3], None, Encode(MAIN))
    ensures var vm, vm' := Machine(data, 0, 0, None), Machine(Slots(data, 0, AtomRef(0), AtomRef(0)), 2, 0, None);
            && Run(vm, depth, main, 0, Undef) == RunList(vm', depth, main, MAIN[2..], Undef)
            && forall v :: v in VisitedList(vm', depth, main, MAIN[2..], Undef) ==> v in Visited(vm, depth, main, 0, Undef)
  {
    MachinePushes(data, 0, 0, None, AtomRef(0), AtomRef(0));
    TwoPushes(Machine(data, 0, 0, None), Machine(Slots(data, 0, AtomRef(0), AtomRef(0)), 2, 0, None), depth, main, MAIN, 0, 0);
  }

  lemma SecondLoses(data: seq<Datum>)
    requires AllEncodable(BODY) && |data| >= 6 && data[1] == FunctionRef(0) && data[2] == AtomRef(1) && data[3] == AtomRef(2)
    ensures Loses(Machine(data, 4, 1, Some(1)))
  {
    hide Machine, Enter;
    SecondCallReenters(data);
  }

  lemma FirstEnters(data: seq<Datum>)
    requires AllEncodable(BODY) && |data| >= 6 && data[0] == data[1] == AtomRef(0)
    ensures var vm, inner := Machine(data, 2, 0, None), Machine(Slots(data, 0, FunctionRef(0), FunctionRef(0)), 2, 1, Some(1));
            && vm.status == Running && Enter(vm, 1).status == Running
            && FScript() == CalleeOf(Enter(vm, 1), Enter(vm, 1).frames[|vm.frames|])
            && inner == Enter(vm, 1).(staticLink := Enter(vm, 1).frames[|vm.frames|].scope)
  {
    var vm, inner := Machine(data, 2, 0, None), Machine(Slots(data, 0, FunctionRef(0), FunctionRef(0)), 2, 1, Some(1));
    FirstCall(data);
    hide Enter;
    assert Enter(vm, 1).frames[0] == inner.frames[0];
  }

  /** The body of f in the first call, from its start on. */
  lemma FirstInside(data: seq<Datum>, depth: nat, below: nat) returns (v: Visit)
    requires AllEncodable(BODY) && |data| >= 6 && data[1] == FunctionRef(0) && depth == below + 1
    ensures Run(Machine(data, 2, 1, Some(1)), depth, FScript(), 0, Undef).vm.status == Thrown(2)
    ensures v in Visited(Machine(data, 2, 1, Some(1)), depth, FScript(), 0, Undef) && v.instr == CALL(1) && Loses(v.vm)
  {
    var second := Slots(data, 2, AtomRef(1), AtomRef(2));
    assert |second| >= 6 && second[1] == FunctionRef(0) && second[2] == AtomRef(1) && second[3] == AtomRef(2);
    v := Visit(Machine(second, 4, 1, Some(1)), CALL(1));
    hide *;
    SecondLoses(second);
    SecondThrows(second, depth, below);
    BodyStarts(data, 2, 1, Some(1), depth);
  }

  /** The first call, with all that comes of it. */
  lemma FirstThrows(data: seq<Datum>, depth: nat, below: nat, more: nat, main: Script) returns (v: Visit)
    requires AllEncodable(BODY) && |data| >= 6 && data[0] == data[1] == AtomRef(0) && depth == below + 1 && below == more + 1
    ensures RunList(Machine(data, 2, 0, None), depth, main, MAIN[2..], Undef).vm.status == Thrown(2)
    ensures v in VisitedList(Machine(data, 2, 0, None), depth, main, MAIN[2..], Undef)
    ensures v.instr == CALL(1) && Loses(v.vm)
  {
    var first := Slots(data, 0, FunctionRef(0), FunctionRef(0));
    assert |first| >= 6 && first[1] == FunctionRef(0) && MAIN[2..] == [CALL(1)] + MAIN[3..];
    hide *;
    v := FirstInside(first, below, more);
    FirstEnters(data);
    CallThrows(Machine(data, 2, 0, None), Machine(first, 2, 1, Some(1)), depth, below, main, FScript(), MAIN[3..]);
  }

  /** A sound state with all parameters bound, about to enter an active script, whose frame loses its parameters. */
  ghost predicate Loses(vm: Vm) {
    && Sound(vm) && AllBound(vm) && Reenters(vm, 1)
    && Sound(Enter(vm, 1)) && !AllBound(Enter(vm, 1))
  }

  /**
   Under reentry parameter binding fails: the run of f(f) visits a sound state with all parameters
   bound whose call reenters f, after which the first frame has lost its parameter; the run ends in
   the exception of calling the literal 7.
   */
  lemma SelfApplicationReenters(size: nat, depth: nat) returns (v: Visit)
    requires size >= 6 && depth >= 2
    ensures Emittable(SelfApplication()) && AllEncodable(MAIN)
    ensures v in Visited(Load(SelfApplication(), size), depth, Script([0, 3], None, Encode(MAIN)), 0, Undef)
    ensures v.instr == CALL(1) && Loses(v.vm)
    ensures Final(SelfApplication(), size, depth).status == Thrown(2)
  {
    Codes();
    Loaded(size);
    var data: seq<Datum> := seq(size, _ => Undef);
    var main := Script([0, 3], None, Encode(MAIN));
    MainStarts(data, depth, main);
    v := FirstThrows(Slots(data, 0, AtomRef(0), AtomRef(0)), depth, depth - 1, depth - 2, main);
    FinalIsRun(SelfApplication(), size, depth, main);
  }

  lemma FinalIsRun(prog: Program, size: nat, depth: nat, main: Script)
    requires Emittable(prog) && main == Script(prog.table, None, Encode(GenMain(prog.main)))
    ensures Run(Load(prog, size), depth, main, 0, Undef).vm.status == Thrown(2) ==> Final(prog, size, depth).status == Thrown(2)
  {
    var vm := Load(prog, size);
    assert vm.(staticLink := 0) == vm;
  }
}
