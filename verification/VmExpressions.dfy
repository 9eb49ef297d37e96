/** Emitted expressions leave a datum that denotes their value, although names are looked up only when popped. */
module VmExpressions {
  import opened Chars
  import opened VmState
  import opened VmSemantics
  import opened VmEmit
  import opened VmProgram

  /** Where symbol s keeps its value there is v, below the bound if it is a stack slot. */
  ghost predicate Keeps(vm: Vm, s: nat, v: int, bound: nat) {
    s < |vm.symbols|
    && match PlaceOf(vm, s)
       case Inline(d) => IsNumber(d, v)
       case Slot(index) => index < bound && index < |vm.data| && IsNumber(vm.data[index], v)
       case _ => false
  }

  /** Every name of the environment is in scope and keeps its number below the bound. */
  ghost predicate Reads(vm: Vm, env: Env, bound: nat) {
    forall a :: a in env && a < |vm.atoms| && vm.atoms[a].Name? ==> ReadsName(vm, a, env[a], bound)
  }

  ghost predicate ReadsName(vm: Vm, a: nat, v: int, bound: nat) {
    var s := FindSymbol(vm.symbols, vm.scopes, Some(vm.staticLink), a);
    s.Some? && Keeps(vm, s.value, v, bound)
  }

  /** A datum on the stack that will turn out to be v: a number, a literal, or a name not yet looked up. */
  ghost predicate Denotes(atoms: seq<Atom>, env: Env, d: Datum, v: int) {
    IsNumber(d, v)
    || (d.AtomRef? && d.atom < |atoms|
        && match atoms[d.atom]
           case Num(n) => n == v
           case Name(_) => d.atom in env && env[d.atom] == v)
  }

  /** The data stack apart, two states are the same, and they agree below the bound. */
  ghost predicate SameBelow(vm: Vm, vm': Vm, bound: nat) {
    && vm' == vm.(data := vm'.data, ptr := vm'.ptr)
    && |vm'.data| == |vm.data|
    && forall i :: 0 <= i < bound && i < |vm.data| ==> vm'.data[i] == vm.data[i]
  }

  lemma ReadsStay(vm: Vm, vm': Vm, env: Env, bound: nat)
    requires Reads(vm, env, bound) && SameBelow(vm, vm', bound)
    ensures Reads(vm', env, bound)
  {
    forall a | a in env && a < |vm.atoms| && vm.atoms[a].Name?
      ensures ReadsName(vm', a, env[a], bound)
    {
      assert ReadsName(vm, a, env[a], bound);
      var s := FindSymbol(vm.symbols, vm.scopes, Some(vm.staticLink), a).value;
      assert PlaceOf(vm', s) == PlaceOf(vm, s);
    }
  }

  /** Popping it turns it into the number. */
  lemma ResolveDenoted(vm: Vm, env: Env, bound: nat, index: nat, v: int) returns (n: Datum)
    requires Reads(vm, env, bound) && index < |vm.data| && Denotes(vm.atoms, env, vm.data[index], v)
    ensures IsNumber(n, v) && ResolveAt(vm, index) == vm.(data := vm.data[index := n])
  {
    var d := vm.data[index];
    n := Resolve(vm, d).value;
    if d.AtomRef? && vm.atoms[d.atom].Name? {
      assert ReadsName(vm, d.atom, v, bound);
    }
  }

  lemma AddDenoted(vm: Vm, env: Env, bound: nat, x: int, y: int)
    requires vm.status == Running && Reads(vm, env, bound) && bound + 2 <= vm.ptr <= |vm.data|
    requires Denotes(vm.atoms, env, vm.data[vm.ptr - 2], x) && Denotes(vm.atoms, env, vm.data[vm.ptr - 1], y)
    ensures var vm' := Add(vm);
            && SameBelow(vm, vm', vm.ptr - 2) && vm'.ptr == vm.ptr - 1
            && IsNumber(vm'.data[vm.ptr - 2], x + y)
  {
    var n := ResolveDenoted(vm, env, bound, vm.ptr - 1, y);
    var vm1 := vm.(data := vm.data[vm.ptr - 1 := n]);
    ReadsStay(vm, vm1, env, bound);
    var m := ResolveDenoted(vm1, env, bound, vm.ptr - 2, x);
  }

  /** What a stretch of code that computes one value does: one more datum, which denotes v. */
  ghost predicate Pushes(vm: Vm, vm': Vm, env: Env, v: int) {
    && SameBelow(vm, vm', vm.ptr) && vm'.ptr == vm.ptr + 1 <= |vm.data|
    && Denotes(vm.atoms, env, vm'.data[vm.ptr], v)
  }

  lemma PushesSum(vm: Vm, vm1: Vm, vm2: Vm, env: Env, bound: nat, x: int, y: int)
    requires vm.status == Running && Reads(vm, env, bound) && bound <= vm.ptr
    requires Pushes(vm, vm1, env, x) && Pushes(vm1, vm2, env, y)
    ensures Pushes(vm, Add(vm2), env, x + y)
  {
    ReadsStay(vm, vm2, env, bound);
    AddDenoted(vm2, env, bound, x, y);
  }

  /** A single instruction run as a list. */
  lemma RunOne(vm: Vm, depth: nat, script: Script, instr: Instr, result: Datum)
    requires vm.status == Running
    ensures RunList(vm, depth, script, [instr], result) == Exec(vm, depth, script, instr, result)
  {
    assert [instr][1..] == [];
  }

  lemma {:induction false} ExprRuns(vm: Vm, depth: nat, script: Script, e: Expr, env: Env, v: int, bound: nat, result: Datum)
    requires vm.status == Running && Reads(vm, env, bound) && bound <= vm.ptr
    requires vm.ptr + |GenExpr(e)| <= |vm.data|
    requires EvalExpr(vm.atoms, script.atoms, env, e) == Some(v)
    ensures var c := RunList(vm, depth, script, GenExpr(e), result);
            c.result == result && Pushes(vm, c.vm, env, v)
    decreases e
  {
    match e
    case Lit(i) => RunOne(vm, depth, script, NUMBER(i), result);
    case Var(i) => RunOne(vm, depth, script, NAME(i), result);
    case Plus(l, r) =>
      var x, y := EvalExpr(vm.atoms, script.atoms, env, l).value, EvalExpr(vm.atoms, script.atoms, env, r).value;
      var c1 := RunList(vm, depth, script, GenExpr(l), result);
      ExprRuns(vm, depth, script, l, env, x, bound, result);
      ReadsStay(vm, c1.vm, env, bound);
      var c2 := RunList(c1.vm, depth, script, GenExpr(r), result);
      ExprRuns(c1.vm, depth, script, r, env, y, bound, result);
      PushesSum(vm, c1.vm, c2.vm, env, bound, x, y);
      SumRuns(vm, depth, script, l, r, result);
  }

  lemma SumRuns(vm: Vm, depth: nat, script: Script, l: Expr, r: Expr, result: Datum)
    ensures var c1 := RunList(vm, depth, script, GenExpr(l), result);
            var c2 := RunList(c1.vm, depth, script, GenExpr(r), c1.result);
            c2.vm.status == Running ==>
              RunList(vm, depth, script, GenExpr(Plus(l, r)), result) == Conf(Add(c2.vm), c2.result)
  {
    RunListAppend(vm, depth, script, GenExpr(l), GenExpr(r), result);
    RunListAppend(vm, depth, script, GenExpr(l) + GenExpr(r), [ADD], result);
    var c2 := RunList(vm, depth, script, GenExpr(l) + GenExpr(r), result);
    if c2.vm.status == Running {
      RunOne(c2.vm, depth, script, ADD, c2.result);
    }
  }

  /** The arguments of a call, one datum each. */
  ghost predicate PushesAll(vm: Vm, vm': Vm, env: Env, vals: seq<int>) {
    && SameBelow(vm, vm', vm.ptr) && vm'.ptr == vm.ptr + |vals| <= |vm.data|
    && forall k :: 0 <= k < |vals| ==> Denotes(vm.atoms, env, vm'.data[vm.ptr + k], vals[k])
  }

  lemma {:induction false} ArgsRun(vm: Vm, depth: nat, script: Script, args: seq<Expr>, env: Env, vals: seq<int>,
                                   bound: nat, result: Datum)
    requires vm.status == Running && Reads(vm, env, bound) && bound <= vm.ptr
    requires vm.ptr + |GenArgs(args)| <= |vm.data|
    requires EvalArgs(vm.atoms, script.atoms, env, args) == Some(vals)
    ensures var c := RunList(vm, depth, script, GenArgs(args), result);
            c.result == result && PushesAll(vm, c.vm, env, vals)
    decreases args
  {
    if args != [] {
      var c1 := RunList(vm, depth, script, GenExpr(args[0]), result);
      ExprRuns(vm, depth, script, args[0], env, vals[0], bound, result);
      ReadsStay(vm, c1.vm, env, bound);
      ArgsRun(c1.vm, depth, script, args[1..], env, vals[1..], bound, result);
      RunListAppend(vm, depth, script, GenExpr(args[0]), GenArgs(args[1..]), result);
      OneArgMore(vm, c1.vm, RunList(c1.vm, depth, script, GenArgs(args[1..]), result).vm, env, vals);
    }
  }

  lemma OneArgMore(vm: Vm, vm1: Vm, vm2: Vm, env: Env, vals: seq<int>)
    requires vals != [] && Pushes(vm, vm1, env, vals[0]) && PushesAll(vm1, vm2, env, vals[1..])
    ensures PushesAll(vm, vm2, env, vals)
  {
    forall k | 0 <= k < |vals|
      ensures Denotes(vm.atoms, env, vm2.data[vm.ptr + k], vals[k])
    {
      if k > 0 {
        assert vals[1..][k - 1] == vals[k];
        assert Denotes(vm.atoms, env, vm2.data[vm1.ptr + (k - 1)], vals[1..][k - 1]);
      }
    }
  }
}
