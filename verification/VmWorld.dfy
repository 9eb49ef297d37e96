/** A loaded program between statements: its functions in place, its globals holding their numbers. */
module VmWorld {
  import opened Chars
  import opened VmState
  import opened VmSemantics
  import opened VmEmit
  import opened VmProgram
  import opened VmExpressions
  import opened VmBinding

  predicate IsParameter(symbols: seq<Symbol>, s: nat, key: nat)
    requires s < |symbols|
  {
    && symbols[s].key == key && symbols[s].kind == ARGUMENT && symbols[s].value == None
    && (symbols[s].next.Some? ==> symbols[s].next.value < s)
  }

  ghost predicate FnLoaded(vm: Vm, prog: Program, i: nat)
    requires i < |prog.fns| && |vm.functions| == |vm.scripts| == |prog.fns|
  {
    var def, chain := prog.fns[i], Chain(vm.symbols, vm.scripts[i].args);
    && vm.functions[i] == Function(def.name, i, 0)
    && vm.scripts[i].atoms == def.table
    && AllEncodable(GenBody(def.body)) && vm.scripts[i].code == Encode(GenBody(def.body))
    && (vm.scripts[i].args.Some? ==> vm.scripts[i].args.value < |vm.symbols|)
    && |chain| == |def.params|
    && forall k :: 0 <= k < |chain| ==>
         IsParameter(vm.symbols, chain[k], def.params[k])
  }

  /** The program's functions are the machine's: the i-th with the i-th script and with parameters of its own. */
  ghost predicate Loaded(vm: Vm, prog: Program) {
    && vm.atoms == prog.atoms && |vm.functions| == |vm.scripts| == |prog.fns|
    && (forall i :: 0 <= i < |prog.fns| ==> FnLoaded(vm, prog, i))
    && (forall i, j, s :: 0 <= i < j < |prog.fns| && s in Chain(vm.symbols, vm.scripts[i].args)
          ==> s !in Chain(vm.symbols, vm.scripts[j].args))
  }

  /** The symbol keeps the number itself. */
  predicate HasNumber(sym: Symbol, v: int) { sym.value.Some? && IsNumber(sym.value.value, v) }

  /** What the outermost scope knows of atom a: the function of that name, or the global, or nothing. */
  ghost predicate GlobalHolds(vm: Vm, prog: Program, genv: Env, a: nat)
    requires |vm.scopes| > 0
  {
    var s := FindInList(vm.symbols, vm.scopes[0].list, a);
    match FnIndex(prog.fns, a)
    case Some(i) => s.Some? && vm.symbols[s.value].kind == PROPERTY && vm.symbols[s.value].value == Some(FunctionRef(i))
    case None =>
      if a in genv then s.Some? && vm.symbols[s.value].kind == VARIABLE && HasNumber(vm.symbols[s.value], genv[a])
      else s == None
  }

  ghost predicate GlobalsHold(vm: Vm, prog: Program, genv: Env) {
    && |vm.scopes| > 0 && vm.scopes[0].parent == None
    && (vm.scopes[0].list.Some? ==> vm.scopes[0].list.value < |vm.symbols|)
    && (forall a :: 0 <= a < |prog.atoms| ==> GlobalHolds(vm, prog, genv, a))
    && (forall a :: a in genv ==> a < |prog.atoms| && FnIndex(prog.fns, a) == None)
  }

  /** Symbols are only added, and of the old ones only parameters are rebound. */
  ghost predicate Extends(a: seq<Symbol>, b: seq<Symbol>) {
    |a| <= |b| && forall s :: 0 <= s < |a| ==> SameButBinding(a[s], b[s])
  }

  predicate SameButBinding(a: Symbol, b: Symbol) {
    b == a.(scope := b.scope, slot := b.slot) && (a.kind != ARGUMENT ==> b == a)
  }

  lemma ExtendsTrans(a: seq<Symbol>, b: seq<Symbol>, c: seq<Symbol>)
    requires Extends(a, b) && Extends(b, c)
    ensures Extends(a, c)
  {
    forall s | 0 <= s < |a|
      ensures SameButBinding(a[s], c[s])
    {
      assert SameButBinding(a[s], b[s]) && SameButBinding(b[s], c[s]);
    }
  }

  lemma {:induction false} FindExtends(a: seq<Symbol>, b: seq<Symbol>, head: Option<nat>, key: nat)
    requires Extends(a, b) && (head.Some? ==> head.value < |a|)
    ensures FindInList(b, head, key) == FindInList(a, head, key)
    decreases if head.Some? then head.value + 1 else 0
  {
    if head.Some? {
      assert SameButBinding(a[head.value], b[head.value]);
      var next := a[head.value].next;
      if next.Some? && next.value < head.value {
        FindExtends(a, b, next, key);
      }
    }
  }

  lemma GlobalsExtend(vm: Vm, vm': Vm, prog: Program, genv: Env)
    requires GlobalsHold(vm, prog, genv) && Extends(vm.symbols, vm'.symbols)
    requires |vm'.scopes| > 0 && vm'.scopes[0] == vm.scopes[0]
    ensures GlobalsHold(vm', prog, genv)
  {
    forall a | 0 <= a < |prog.atoms|
      ensures GlobalHolds(vm', prog, genv, a)
    {
      assert GlobalHolds(vm, prog, genv, a);
      FindExtends(vm.symbols, vm'.symbols, vm.scopes[0].list, a);
    }
  }

  lemma LoadedExtend(vm: Vm, vm': Vm, prog: Program)
    requires Loaded(vm, prog) && vm'.atoms == vm.atoms && vm'.functions == vm.functions && vm'.scripts == vm.scripts
    requires Extends(vm.symbols, vm'.symbols)
    ensures Loaded(vm', prog)
    ensures forall i :: 0 <= i < |vm.scripts| ==> Chain(vm'.symbols, vm.scripts[i].args) == Chain(vm.symbols, vm.scripts[i].args)
  {
    forall i | 0 <= i < |prog.fns|
      ensures FnLoaded(vm', prog, i) && Chain(vm'.symbols, vm.scripts[i].args) == Chain(vm.symbols, vm.scripts[i].args)
    {
      assert FnLoaded(vm, prog, i);
      forall s | 0 <= s < |vm.symbols|
        ensures vm'.symbols[s].next == vm.symbols[s].next
      {
        assert SameButBinding(vm.symbols[s], vm'.symbols[s]);
      }
      ChainStays(vm.symbols, vm'.symbols, vm.scripts[i].args);
      var chain := Chain(vm.symbols, vm.scripts[i].args);
      forall k | 0 <= k < |chain|
        ensures IsParameter(vm'.symbols, chain[k], prog.fns[i].params[k])
      {
        assert IsParameter(vm.symbols, chain[k], prog.fns[i].params[k]);
        assert SameButBinding(vm.symbols[chain[k]], vm'.symbols[chain[k]]);
      }
    }
  }

  // ---------- at the top level ----------

  /** Between top-level statements. */
  ghost predicate AtTop(vm: Vm, prog: Program, genv: Env) {
    && vm.status == Running && vm.frame == None && vm.staticLink == 0
    && Loaded(vm, prog) && GlobalsHold(vm, prog, genv)
  }

  lemma GlobalsRead(vm: Vm, prog: Program, genv: Env, bound: nat)
    requires vm.atoms == prog.atoms && vm.staticLink == 0 && GlobalsHold(vm, prog, genv)
    ensures Reads(vm, genv, bound)
  {
    forall a | a in genv && a < |vm.atoms| && vm.atoms[a].Name?
      ensures ReadsName(vm, a, genv[a], bound)
    {
      assert GlobalHolds(vm, prog, genv, a);
    }
  }

  /** ASSIGN's two pops, on a value that denotes v and a name. */
  lemma PopTwoDenoted(vm: Vm, env: Env, bound: nat, v: int) returns (n: Datum)
    requires vm.status == Running && Reads(vm, env, bound) && bound + 2 <= vm.ptr <= |vm.data|
    requires Denotes(vm.atoms, env, vm.data[vm.ptr - 2], v)
    ensures IsNumber(n, v)
    ensures PopTwo(vm) == vm.(data := vm.data[vm.ptr - 1 := ResolveSymbol(vm, vm.data[vm.ptr - 1])][vm.ptr - 2 := n],
                              ptr := vm.ptr - 2)
  {
    var vm1 := vm.(data := vm.data[vm.ptr - 1 := ResolveSymbol(vm, vm.data[vm.ptr - 1])]);
    ReadsStay(vm, vm1, env, bound);
    n := ResolveDenoted(vm1, env, bound, vm.ptr - 2, v);
  }

  /** The code of an assignment, behind that of its value: the pops, then the assignment proper. */
  lemma StoreRuns(vm: Vm, vm1: Vm, depth: nat, script: Script, target: nat, a: nat, env: Env, v: int, result: Datum)
    returns (popped: Vm, n: Datum)
    requires vm.status == Running && Reads(vm, env, vm.ptr) && Pushes(vm, vm1, env, v) && vm1.ptr < |vm.data|
    requires NameAt(vm.atoms, script.atoms, target) == Some(a)
    ensures SameBelow(vm, popped, vm.ptr) && popped.ptr == vm.ptr && IsNumber(n, v)
    ensures RunList(vm1, depth, script, GenStore(target), result)
         == Conf(AssignTo(popped, ResolveSymbol(popped, AtomRef(a)), n), result)
  {
    var vm2 := Push(vm1, AtomRef(a));
    ReadsStay(vm, vm2, env, vm.ptr);
    n := PopTwoDenoted(vm2, env, vm.ptr, v);
    popped := PopTwo(vm2);
    assert ResolveSymbol(vm2, AtomRef(a)) == ResolveSymbol(popped, AtomRef(a));
    assert GenStore(target)[1..] == [ASSIGN];
    RunOne(vm2, depth, script, ASSIGN, result);
  }

  /** A global is set, or declared when the name is new. */
  lemma GlobalSet(vm: Vm, prog: Program, genv: Env, a: nat, v: int, n: Datum)
    requires IsNumber(n, v) && AtTop(vm, prog, genv) && a < |prog.atoms| && prog.atoms[a].Name? && FnIndex(prog.fns, a) == None
    ensures var vm' := AssignTo(vm, ResolveSymbol(vm, AtomRef(a)), n);
            && vm' == vm.(symbols := vm'.symbols, scopes := vm'.scopes)
            && AtTop(vm', prog, genv[a := v])
  {
    assert GlobalHolds(vm, prog, genv, a);
    var vm' := AssignTo(vm, ResolveSymbol(vm, AtomRef(a)), n);
    var list, genv' := vm.scopes[0].list, genv[a := v];
    var s := FindInList(vm.symbols, list, a);
    if s.Some? {
      ChainsAfterValue(vm, vm', prog, s.value);
      forall b | 0 <= b < |prog.atoms|
        ensures GlobalHolds(vm', prog, genv', b)
      {
        assert GlobalHolds(vm, prog, genv, b);
        ValueChangedFind(vm.symbols, list, s.value, Some(n), b);
        if b != a {
          assert FindInList(vm.symbols, list, b) != s;
        }
      }
    } else {
      assert Extends(vm.symbols, vm'.symbols);
      LoadedExtend(vm, vm', prog);
      forall b | 0 <= b < |prog.atoms|
        ensures GlobalHolds(vm', prog, genv', b)
      {
        assert GlobalHolds(vm, prog, genv, b);
        FindExtends(vm.symbols, vm'.symbols, list, b);
      }
    }
  }

  /** A new value of a symbol changes no chain. */
  lemma {:induction false} ValueChangedFind(symbols: seq<Symbol>, list: Option<nat>, s: nat, value: Option<Datum>, key: nat)
    requires s < |symbols|
    ensures FindInList(symbols[s := symbols[s].(value := value)], list, key) == FindInList(symbols, list, key)
    decreases if list.Some? then list.value + 1 else 0
  {
    if list.Some? && list.value < |symbols| {
      var next := symbols[list.value].next;
      if next.Some? && next.value < list.value {
        ValueChangedFind(symbols, next, s, value, key);
      }
    }
  }

  lemma ChainsAfterValue(vm: Vm, vm': Vm, prog: Program, s: nat)
    requires Loaded(vm, prog) && s < |vm.symbols| && vm.symbols[s].kind != ARGUMENT
    requires |vm'.symbols| == |vm.symbols|
    requires vm' == vm.(symbols := vm.symbols[s := vm.symbols[s].(value := vm'.symbols[s].value)])
    ensures Loaded(vm', prog)
  {
    forall i | 0 <= i < |prog.fns|
      ensures FnLoaded(vm', prog, i) && Chain(vm'.symbols, vm.scripts[i].args) == Chain(vm.symbols, vm.scripts[i].args)
    {
      assert FnLoaded(vm, prog, i);
      ChainStays(vm.symbols, vm'.symbols, vm.scripts[i].args);
    }
  }
}
