/** Corners of the machine that programs with a meaning never reach: a function's name assigned or added, code behind a return. */
module VmCorners {
  import opened Chars
  import opened VmState
  import opened VmSemantics
  import opened VmEmit
  import opened VmProgram
  import opened VmExpressions
  import opened VmWorld
  import opened VmBinding
  import R = VmRefinement

  // ---------- assigning to the name of a function ----------

  /** All names but one resolve to the same in both states. */
  ghost predicate SameNames(vm: Vm, vm': Vm, a: nat) {
    forall b: nat :: b != a ==> Resolve(vm', AtomRef(b)) == Resolve(vm, AtomRef(b))
  }

  lemma PropertySet(vm: Vm, prog: Program, genv: Env, a: nat, n: Datum)
    requires AtTop(vm, prog, genv) && a < |prog.atoms| && prog.atoms[a].Name? && FnIndex(prog.fns, a).Some? && n.Number?
    ensures var vm' := AssignTo(vm, ResolveSymbol(vm, AtomRef(a)), n);
            vm'.status == Running && Resolve(vm', AtomRef(a)) == Some(n) && SameNames(vm, vm', a)
  {
    assert GlobalHolds(vm, prog, genv, a);
    var s := FindInList(vm.symbols, vm.scopes[0].list, a).value;
    assert FindSymbol(vm.symbols, vm.scopes, Some(0), a) == Some(s);
    var vm' := AssignTo(vm, SymbolRef(s), n);
    assert vm' == vm.(symbols := vm.symbols[s := vm.symbols[s].(value := Some(n))]);
    forall b: nat
      ensures FindSymbol(vm'.symbols, vm'.scopes, Some(0), b) == FindSymbol(vm.symbols, vm.scopes, Some(0), b)
    {
      FindWithValue(vm.symbols, vm'.symbols, vm.scopes[0].list, b);
    }
  }

  /** Values play no part in looking up a name. */
  lemma {:induction false} FindWithValue(a: seq<Symbol>, b: seq<Symbol>, s: Option<nat>, key: nat)
    requires |b| == |a| && forall i :: 0 <= i < |a| ==> b[i] == a[i].(value := b[i].value)
    ensures FindInList(b, s, key) == FindInList(a, s, key)
    decreases if s.Some? then s.value + 1 else 0
  {
    if s.Some? && s.value < |a| {
      var next := a[s.value].next;
      if next.Some? && next.value < s.value {
        FindWithValue(a, b, next, key);
      }
    }
  }

  /**
   The name of a function is assigned like any other global: behind f = e it reads the number
   instead of the function, and every other name what it read before.
   */
  lemma FunctionOverwritten(vm: Vm, depth: nat, script: Script, prog: Program, genv: Env, target: nat, e: Expr, a: nat, v: int, result: Datum)
    requires AtTop(vm, prog, genv) && script.atoms == prog.table && EvalExpr(prog.atoms, prog.table, genv, e) == Some(v)
    requires NameAt(prog.atoms, prog.table, target) == Some(a) && FnIndex(prog.fns, a).Some?
    requires vm.ptr + |GenTop(Top.Assign(target, e))| <= |vm.data|
    ensures var vm' := RunList(vm, depth, script, GenTop(Top.Assign(target, e)), result).vm;
            && vm'.status == Running && SameNames(vm, vm', a)
            && var r := Resolve(vm', AtomRef(a)); r.Some? && IsNumber(r.value, v)
  {
    GlobalsRead(vm, prog, genv, vm.ptr);
    ExprRuns(vm, depth, script, e, genv, v, vm.ptr, result);
    var left := RunList(vm, depth, script, GenExpr(e), result).vm;
    RunListAppend(vm, depth, script, GenExpr(e), GenStore(target), result);
    var popped, n := StoreRuns(vm, left, depth, script, target, a, genv, v, result);
    assert Extends(vm.symbols, popped.symbols);
    R.TopStays(vm, popped, prog, genv);
    PropertySet(popped, prog, genv, a, n);
    SameAtTop(vm, popped, prog, genv);
  }

  /** Between statements the data on the stack play no part in what a name resolves to. */
  lemma SameAtTop(vm: Vm, vm': Vm, prog: Program, genv: Env)
    requires AtTop(vm, prog, genv) && vm' == vm.(data := vm'.data, ptr := vm'.ptr)
    ensures forall b: nat :: Resolve(vm', AtomRef(b)) == Resolve(vm, AtomRef(b))
  {}

  // ---------- adding a function ----------

  lemma AddToFunction(vm: Vm, n: Datum, g: nat, v: int)
    requires vm.status == Running && 2 <= vm.ptr <= |vm.data| && IsNumber(n, v)
    requires ResolveAt(vm, vm.ptr - 1) == vm.(data := vm.data[vm.ptr - 1 := n])
    requires Resolve(vm.(data := vm.data[vm.ptr - 1 := n]), vm.data[vm.ptr - 2]) == Some(FunctionRef(g))
    ensures var vm' := Add(vm);
            vm'.status == Running && vm'.ptr == vm.ptr - 1 && |vm'.data| == |vm.data| && IsNumber(vm'.data[vm.ptr - 2], v)
  {
    hide Resolve;
    assert vm.data[vm.ptr - 1 := n][vm.ptr - 2] == vm.data[vm.ptr - 2];
  }

  lemma FunctionRead(vm: Vm, vm2: Vm, prog: Program, genv: Env, a: nat)
    requires AtTop(vm, prog, genv) && vm2 == vm.(data := vm2.data, ptr := vm2.ptr)
    requires a < |prog.atoms| && prog.atoms[a].Name? && FnIndex(prog.fns, a).Some?
    ensures Resolve(vm2, AtomRef(a)) == Some(FunctionRef(FnIndex(prog.fns, a).value))
  {
    assert GlobalHolds(vm, prog, genv, a);
    assert FindSymbol(vm.symbols, vm.scopes, Some(0), a) == FindInList(vm.symbols, vm.scopes[0].list, a);
  }

  /** In a sum the name of a function counts nothing. */
  lemma FunctionAddsNothing(vm: Vm, depth: nat, script: Script, prog: Program, genv: Env, f: nat, e: Expr, a: nat, v: int, result: Datum)
    requires AtTop(vm, prog, genv) && script.atoms == prog.table && EvalExpr(prog.atoms, prog.table, genv, e) == Some(v)
    requires NameAt(prog.atoms, prog.table, f) == Some(a) && FnIndex(prog.fns, a).Some? && a !in genv
    requires vm.ptr + |GenExpr(Plus(Var(f), e))| <= |vm.data|
    ensures var vm' := RunList(vm, depth, script, GenExpr(Plus(Var(f), e)), result).vm;
            vm'.status == Running && vm'.ptr == vm.ptr + 1 && |vm'.data| == |vm.data| && IsNumber(vm'.data[vm.ptr], v)
  {
    hide GlobalsHold, Resolve, Reads, Add;
    var vm1 := Push(vm, AtomRef(a));
    RunOne(vm, depth, script, NAME(f), result);
    GlobalsRead(vm, prog, genv, vm.ptr);
    ReadsStay(vm, vm1, genv, vm.ptr);
    ExprRuns(vm1, depth, script, e, genv, v, vm.ptr, result);
    var vm2 := RunList(vm1, depth, script, GenExpr(e), result).vm;
    ReadsStay(vm1, vm2, genv, vm.ptr);
    SumRuns(vm, depth, script, Var(f), e, result);
    var n := ResolveDenoted(vm2, genv, vm.ptr, vm2.ptr - 1, v);
    FunctionRead(vm, vm2.(data := vm2.data[vm2.ptr - 1 := n]), prog, genv, a);
    AddToFunction(vm2, n, FnIndex(prog.fns, a).value, v);
  }

  // ---------- code behind a return ----------

  /** RETURN does not leave the loop: what stands behind it is run on the state without the result, and may replace it. */
  lemma RunGoesOnBehindReturn(vm: Vm, depth: nat, script: Script, prog: Program, genv: Env, e: Expr, v: int, more: seq<Instr>, result: Datum)
    requires AtTop(vm, prog, genv) && script.atoms == prog.table && EvalExpr(prog.atoms, prog.table, genv, e) == Some(v)
    requires vm.ptr + |GenExpr(e)| <= |vm.data|
    ensures exists left: Vm, n: Datum ::
              && SameBelow(vm, left, vm.ptr) && left.ptr == vm.ptr && IsNumber(n, v)
              && RunList(vm, depth, script, GenRet(Value(e)) + more, result) == RunList(left, depth, script, more, n)
  {
    GlobalsRead(vm, prog, genv, vm.ptr);
    ExprRuns(vm, depth, script, e, genv, v, vm.ptr, result);
    var vm1 := RunList(vm, depth, script, GenExpr(e), result).vm;
    RunListAppend(vm, depth, script, GenExpr(e), [RETURN(1)], result);
    RunListAppend(vm, depth, script, GenRet(Value(e)), more, result);
    ReadsStay(vm, vm1, genv, vm.ptr);
    var n := R.ReturnRuns(vm1, depth, script, genv, vm.ptr, v, result);
    var left := vm1.(data := vm1.data[vm.ptr := n], ptr := vm.ptr);
    assert SameBelow(vm, left, vm.ptr);
  }

  /** A byte that is no opcode is skipped, and so is a RETURN that announces no value, with its operand. */
  lemma BytesSkipped(vm: Vm, depth: nat, script: Script, pc: nat, result: Datum)
    requires vm.status == Running && pc < |script.code|
    ensures script.code[pc] > 5 ==> Run(vm, depth, script, pc, result) == Run(vm, depth, script, pc + 1, result)
    ensures script.code[pc] == 4 && pc + 1 < |script.code| && script.code[pc + 1] != 1 ==>
              Run(vm, depth, script, pc, result) == Run(vm, depth, script, pc + 2, result)
  {}

  // ---------- names out of scope ----------

  lemma {:induction false} NoFrameIff(frames: seq<Frame>, fp: Option<nat>, scope: Option<nat>)
    requires fp.Some? ==> fp.value < |frames|
    requires forall f :: 0 <= f < |frames| ==> frames[f].down.Some? ==> frames[f].down.value < f
    ensures FrameOf(frames, fp, scope) == None
       <==> forall f :: f in Active(frames, fp) && f < |frames| ==> Some(frames[f].scope) != scope
    decreases if fp.Some? then fp.value + 1 else 0
  {
    if fp.Some? {
      var down := frames[fp.value].down;
      NoFrameIff(frames, down, scope);
      assert Active(frames, fp) == [fp.value] + Active(frames, down);
    }
  }

  /** A parameter or local whose scope no active frame has resolves to nothing but itself. */
  lemma OutOfScopeStays(vm: Vm, s: nat)
    requires Sound(vm) && s < |vm.symbols| && vm.symbols[s].kind != PROPERTY && vm.symbols[s].value == None
    requires forall f :: f in Active(vm.frames, vm.frame) && f < |vm.frames| ==> Some(vm.frames[f].scope) != vm.symbols[s].scope
    ensures Resolve(vm, SymbolRef(s)) == Some(SymbolRef(s))
  {
    NoFrameIff(vm.frames, vm.frame, vm.symbols[s].scope);
  }
}
