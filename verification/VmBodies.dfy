/**
 Inside a function: each local name has a stack slot of its own, the stack pointer stands right
 behind the locals between statements, and every slot holds the last value assigned to its name.
 */
module VmBodies {
  import opened Chars
  import opened VmState
  import opened VmSemantics
  import opened VmEmit
  import opened VmProgram
  import opened VmExpressions
  import opened VmWorld
  import opened VmBinding

  /** The slot a symbol denotes in a frame. */
  function SlotIn(sym: Symbol, fr: Frame): Option<nat> {
    if sym.slot.Some? then Some((if sym.kind == ARGUMENT then fr.argv else fr.vars) + sym.slot.value) else None
  }

  /** A name of the environment is a symbol of the frame's scope, and its slot holds its number; others are no symbols there. */
  ghost predicate LocalHolds(vm: Vm, lenv: Env, places: map<nat, nat>, f: nat, a: nat)
    requires f < |vm.frames| && vm.frames[f].scope < |vm.scopes| && vm.frames[f].fun < |vm.scripts|
  {
    var fr := vm.frames[f];
    var s := FindInList(vm.symbols, vm.scopes[fr.scope].list, a);
    if a in lenv then
      && s.Some? && a in places
      && var sym := vm.symbols[s.value];
      && sym.value == None && sym.kind != PROPERTY && sym.scope == Some(fr.scope) && SlotIn(sym, fr) == Some(places[a])
      && fr.argv <= places[a] < vm.ptr && places[a] < |vm.data| && IsNumber(vm.data[places[a]], lenv[a])
      && (sym.kind == ARGUMENT ==> s.value in Chain(vm.symbols, vm.scripts[fr.fun].args))
    else s == None
  }

  ghost predicate FrameStands(vm: Vm, f: nat) {
    && vm.frame == Some(f) && f < |vm.frames|
    && var fr := vm.frames[f];
    && 0 < fr.scope < |vm.scopes| && vm.staticLink == fr.scope
    && vm.scopes[fr.scope].parent == Some(0)
    && (vm.scopes[fr.scope].list.Some? ==> vm.scopes[fr.scope].list.value < |vm.symbols|)
    && fr.fun < |vm.scripts| && fr.argv <= fr.vars && vm.ptr == fr.vars + fr.nvars <= |vm.data|
  }

  /** Between two statements of a body. */
  ghost predicate InBody(vm: Vm, prog: Program, genv: Env, lenv: Env, places: map<nat, nat>, f: nat) {
    && vm.status == Running && Loaded(vm, prog) && GlobalsHold(vm, prog, genv) && FrameStands(vm, f)
    && (forall a :: 0 <= a < |prog.atoms| ==> LocalHolds(vm, lenv, places, f, a))
    && (forall a, b :: 0 <= a < b < |prog.atoms| && a in lenv && b in lenv ==> a in places && b in places && places[a] != places[b])
  }

  /** What a statement of frame f may change: its own frame's `nvars`, its own scope, new symbols, slots from argv on. */
  ghost predicate Inside(vm: Vm, vm': Vm, f: nat) {
    && vm'.atoms == vm.atoms && vm'.scripts == vm.scripts && vm'.functions == vm.functions
    && vm'.frame == vm.frame && vm'.staticLink == vm.staticLink && vm'.status == vm.status
    && Extends(vm.symbols, vm'.symbols)
    && f < |vm.frames| <= |vm'.frames| && |vm.scopes| <= |vm'.scopes| && |vm'.data| == |vm.data|
    && (forall i :: 0 <= i < |vm.frames| && i != f ==> vm'.frames[i] == vm.frames[i])
    && vm'.frames[f] == vm.frames[f].(nvars := vm'.frames[f].nvars)
    && (forall c :: 0 <= c < |vm.scopes| && c != vm.frames[f].scope ==> vm'.scopes[c] == vm.scopes[c])
    && (forall i :: 0 <= i < vm.frames[f].argv && i < |vm.data| ==> vm'.data[i] == vm.data[i])
  }

  // As values these are not taken apart where they are only passed on.
  ghost const IN_BODY: (Vm, Program, Env, Env, map<nat, nat>, nat) -> bool :=
    (vm: Vm, prog: Program, genv: Env, lenv: Env, places: map<nat, nat>, f: nat) => InBody(vm, prog, genv, lenv, places, f)

  ghost const INSIDE: (Vm, Vm, nat) -> bool := (vm: Vm, vm': Vm, f: nat) => Inside(vm, vm', f)

  lemma InsideTrans(a: Vm, b: Vm, c: Vm, f: nat)
    requires Inside(a, b, f) && Inside(b, c, f)
    ensures Inside(a, c, f)
  {
    ExtendsTrans(a.symbols, b.symbols, c.symbols);
  }

  lemma BodyReads(vm: Vm, prog: Program, genv: Env, lenv: Env, places: map<nat, nat>, f: nat)
    requires InBody(vm, prog, genv, lenv, places, f)
    ensures Reads(vm, genv + lenv, vm.ptr)
  {
    var env := genv + lenv;
    forall a | a in env && a < |vm.atoms| && vm.atoms[a].Name?
      ensures ReadsName(vm, a, env[a], vm.ptr)
    {
      assert LocalHolds(vm, lenv, places, f, a);
      assert GlobalHolds(vm, prog, genv, a);
      assert FindSymbol(vm.symbols, vm.scopes, Some(0), a) == FindInList(vm.symbols, vm.scopes[0].list, a);
    }
  }

  /** Computing on top of the stack does not disturb a body. */
  lemma BodyStays(vm: Vm, vm': Vm, prog: Program, genv: Env, lenv: Env, places: map<nat, nat>, f: nat)
    requires InBody(vm, prog, genv, lenv, places, f) && SameBelow(vm, vm', vm.ptr) && vm'.ptr == vm.ptr
    ensures InBody(vm', prog, genv, lenv, places, f) && Inside(vm, vm', f)
  {
    assert Extends(vm.symbols, vm'.symbols);
    LoadedExtend(vm, vm', prog);
    GlobalsExtend(vm, vm', prog, genv);
    forall a | 0 <= a < |prog.atoms|
      ensures LocalHolds(vm', lenv, places, f, a)
    {
      assert LocalHolds(vm, lenv, places, f, a);
    }
  }

  /** A local is overwritten in its slot. */
  lemma LocalOverwritten(vm: Vm, prog: Program, genv: Env, lenv: Env, places: map<nat, nat>, f: nat, a: nat, v: int, n: Datum)
    requires IsNumber(n, v) && InBody(vm, prog, genv, lenv, places, f) && a < |prog.atoms| && prog.atoms[a].Name? && a in lenv
    ensures var vm' := AssignTo(vm, ResolveSymbol(vm, AtomRef(a)), n);
            && vm' == vm.(data := vm'.data)
            && InBody(vm', prog, genv, lenv[a := v], places, f) && Inside(vm, vm', f)
  {
    assert LocalHolds(vm, lenv, places, f, a);
    var vm' := AssignTo(vm, ResolveSymbol(vm, AtomRef(a)), n);
    var lenv' := lenv[a := v];
    assert vm' == vm.(data := vm.data[places[a] := n]);
    assert Extends(vm.symbols, vm'.symbols);
    LoadedExtend(vm, vm', prog);
    GlobalsExtend(vm, vm', prog, genv);
    forall b | 0 <= b < |prog.atoms|
      ensures LocalHolds(vm', lenv', places, f, b)
    {
      assert LocalHolds(vm, lenv, places, f, b);
      if b in lenv && b != a {
        assert places[a] != places[b];
      }
    }
  }

  /** A new name becomes a local: the value stays where it is, right behind the locals there are. */
  lemma LocalDeclared(vm: Vm, prog: Program, genv: Env, lenv: Env, places: map<nat, nat>, f: nat, a: nat, v: int, n: Datum)
    requires IsNumber(n, v) && InBody(vm, prog, genv, lenv, places, f) && a < |prog.atoms| && prog.atoms[a].Name? && a !in lenv
    requires a !in genv && FnIndex(prog.fns, a) == None && vm.frames[f].nvars < 256 && vm.ptr < |vm.data|
    ensures var vm' := AssignTo(vm, ResolveSymbol(vm, AtomRef(a)), n);
            && vm'.ptr == vm.ptr + 1 && vm'.frames[f].nvars == vm.frames[f].nvars + 1
            && InBody(vm', prog, genv, lenv[a := v], places[a := vm.ptr], f) && Inside(vm, vm', f)
  {
    LocalIsNew(vm, prog, genv, lenv, places, f, a);
    var vm' := AssignTo(vm, AtomRef(a), n);
    AssignDeclares(vm, f, a, n);
    hide ResolveSymbol, AssignTo;
    assert Extends(vm.symbols, vm'.symbols);
    LoadedExtend(vm, vm', prog);
    GlobalsExtend(vm, vm', prog, genv);
    assert Declares(vm, vm', f, a, n);
    DeclaredHolds(vm, vm', prog, lenv, places, lenv[a := v], places[a := vm.ptr], f, a, v, n);
    PlacesDiffer(vm, |prog.atoms|, lenv, places, lenv[a := v], places[a := vm.ptr], f, a, v);
  }

  /** Local a was declared with this value. */
  ghost predicate Declares(vm: Vm, vm': Vm, f: nat, a: nat, n: Datum)
    requires FrameStands(vm, f) && vm.ptr < |vm.data|
  {
    var fr, list := vm.frames[f], vm.scopes[vm.staticLink].list;
    && vm' == vm.(data := vm.data[vm.ptr := n], ptr := vm.ptr + 1,
                  frames := vm.frames[f := fr.(nvars := fr.nvars + 1)],
                  symbols := vm.symbols + [Symbol(VARIABLE, Some(fr.nvars), list, Some(vm.staticLink), a, None)],
                  scopes := vm.scopes[vm.staticLink := vm.scopes[vm.staticLink].(list := Some(|vm.symbols|))])
    && Chain(vm'.symbols, vm.scripts[fr.fun].args) == Chain(vm.symbols, vm.scripts[fr.fun].args)
  }

  lemma LocalIsNew(vm: Vm, prog: Program, genv: Env, lenv: Env, places: map<nat, nat>, f: nat, a: nat)
    requires InBody(vm, prog, genv, lenv, places, f) && a < |prog.atoms| && prog.atoms[a].Name?
    requires a !in lenv && a !in genv && FnIndex(prog.fns, a) == None
    ensures ResolveSymbol(vm, AtomRef(a)) == AtomRef(a)
  {
    assert LocalHolds(vm, lenv, places, f, a);
    assert GlobalHolds(vm, prog, genv, a);
    assert FindSymbol(vm.symbols, vm.scopes, Some(0), a) == None;
  }

  /** What assigning to a name without a symbol does inside a frame. */
  lemma AssignDeclares(vm: Vm, f: nat, a: nat, n: Datum)
    requires vm.status == Running && FrameStands(vm, f) && vm.frames[f].nvars < 256 && vm.ptr < |vm.data|
    ensures var fr, list := vm.frames[f], vm.scopes[vm.staticLink].list;
            && AssignTo(vm, AtomRef(a), n)
            == vm.(data := vm.data[vm.ptr := n], ptr := vm.ptr + 1,
                   frames := vm.frames[f := fr.(nvars := fr.nvars + 1)],
                   symbols := vm.symbols + [Symbol(VARIABLE, Some(fr.nvars), list, Some(vm.staticLink), a, None)],
                   scopes := vm.scopes[vm.staticLink := vm.scopes[vm.staticLink].(list := Some(|vm.symbols|))])
  {}

  lemma DeclaredLocal(vm: Vm, vm': Vm, lenv: Env, places: map<nat, nat>, f: nat, a: nat, v: int, n: Datum, b: nat)
    requires IsNumber(n, v) && FrameStands(vm, f) && vm.ptr < |vm.data| && Declares(vm, vm', f, a, n)
    requires a !in lenv && LocalHolds(vm, lenv, places, f, b)
    ensures FrameStands(vm', f) && LocalHolds(vm', lenv[a := v], places[a := vm.ptr], f, b)
  {
    assert Extends(vm.symbols, vm'.symbols);
    FindExtends(vm.symbols, vm'.symbols, vm.scopes[vm.staticLink].list, b);
    if b != a && b in lenv {
      var s := FindInList(vm.symbols, vm.scopes[vm.staticLink].list, b).value;
      assert vm'.symbols[s] == vm.symbols[s];
    }
  }

  lemma PlacesDiffer(vm: Vm, n: nat, lenv: Env, places: map<nat, nat>, lenv': Env, places': map<nat, nat>, f: nat, a: nat, v: int)
    requires FrameStands(vm, f) && a !in lenv && forall b :: 0 <= b < n ==> LocalHolds(vm, lenv, places, f, b)
    requires forall b, c :: 0 <= b < c < n && b in lenv && c in lenv ==> b in places && c in places && places[b] != places[c]
    requires lenv' == lenv[a := v] && places' == places[a := vm.ptr]
    ensures forall b, c :: 0 <= b < c < n && b in lenv' && c in lenv' ==> b in places' && c in places' && places'[b] != places'[c]
  {
    forall b, c | 0 <= b < c < n && b in lenv' && c in lenv'
      ensures b in places' && c in places' && places'[b] != places'[c]
    {
      assert LocalHolds(vm, lenv, places, f, b) && LocalHolds(vm, lenv, places, f, c);
    }
  }

  lemma DeclaredHolds(vm: Vm, vm': Vm, prog: Program, lenv: Env, places: map<nat, nat>, lenv': Env, places': map<nat, nat>,
                      f: nat, a: nat, v: int, n: Datum)
    requires IsNumber(n, v) && FrameStands(vm, f) && a !in lenv && vm.ptr < |vm.data| && Declares(vm, vm', f, a, n)
    requires |prog.atoms| > 0 && forall b :: 0 <= b < |prog.atoms| ==> LocalHolds(vm, lenv, places, f, b)
    requires lenv' == lenv[a := v] && places' == places[a := vm.ptr]
    ensures FrameStands(vm', f)
    ensures forall b :: 0 <= b < |prog.atoms| ==> LocalHolds(vm', lenv', places', f, b)
  {
    hide LocalHolds, Declares;
    assert LocalHolds(vm, lenv, places, f, 0);
    DeclaredLocal(vm, vm', lenv, places, f, a, v, n, 0);
    forall b | 0 <= b < |prog.atoms|
      ensures LocalHolds(vm', lenv', places', f, b)
    {
      DeclaredLocal(vm, vm', lenv, places, f, a, v, n, b);
    }
  }

  /** One local assignment. */
  lemma LetRuns(vm: Vm, depth: nat, script: Script, prog: Program, genv: Env, lenv: Env, places: map<nat, nat>, f: nat,
                let: Let, a: nat, v: int, result: Datum) returns (places': map<nat, nat>)
    requires InBody(vm, prog, genv, lenv, places, f) && (a in lenv || vm.frames[f].nvars < 256)
    requires NameAt(prog.atoms, script.atoms, let.target) == Some(a)
    requires a in lenv || (a !in genv && FnIndex(prog.fns, a) == None)
    requires EvalExpr(prog.atoms, script.atoms, genv + lenv, let.e) == Some(v)
    requires vm.ptr + |GenExpr(let.e)| + 2 <= |vm.data|
    ensures var c := RunList(vm, depth, script, GenExpr(let.e) + GenStore(let.target), result);
            && c.result == result && Inside(vm, c.vm, f) && InBody(c.vm, prog, genv, lenv[a := v], places', f)
            && c.vm.ptr <= vm.ptr + 1 && c.vm.frames[f].nvars == vm.frames[f].nvars + if a in lenv then 0 else 1
    ensures places' == if a in lenv then places else places[a := vm.ptr]
  {
    var env := genv + lenv;
    BodyReads(vm, prog, genv, lenv, places, f);
    ExprRuns(vm, depth, script, let.e, env, v, vm.ptr, result);
    var c1 := RunList(vm, depth, script, GenExpr(let.e), result);
    RunListAppend(vm, depth, script, GenExpr(let.e), GenStore(let.target), result);
    var popped, n := StoreRuns(vm, c1.vm, depth, script, let.target, a, env, v, result);
    BodyStays(vm, popped, prog, genv, lenv, places, f);
    var vm' := AssignTo(popped, ResolveSymbol(popped, AtomRef(a)), n);
    if a in lenv {
      LocalOverwritten(popped, prog, genv, lenv, places, f, a, v, n);
      places' := places;
    } else {
      LocalDeclared(popped, prog, genv, lenv, places, f, a, v, n);
      places' := places[a := popped.ptr];
    }
    InsideTrans(vm, popped, vm', f);
  }

  /** The names that code can mention: operands are single bytes. */
  function Nameable(table: seq<nat>, n: nat): (r: set<nat>)
    ensures |r| <= n
    ensures forall i :: 0 <= i < n && i < |table| ==> table[i] in r
  {
    if n == 0 then {}
    else if n <= |table| then Nameable(table, n - 1) + {table[n - 1]}
    else Nameable(table, n - 1)
  }

  lemma AllEncodableAppend(a: seq<Instr>, b: seq<Instr>)
    requires AllEncodable(a + b)
    ensures AllEncodable(a) && AllEncodable(b)
  {
    forall i | 0 <= i < |a|
      ensures Encodable(a[i])
    {
      assert (a + b)[i] == a[i];
    }
    forall i | 0 <= i < |b|
      ensures Encodable(b[i])
    {
      assert (a + b)[|a| + i] == b[i];
    }
  }

  /** The names declared so far: as many as the frame counts locals, each with a slot from vars on. */
  ghost predicate AreLocals(vm: Vm, lenv: Env, places: map<nat, nat>, f: nat, declared: set<nat>)
    requires f < |vm.frames|
  {
    && vm.frames[f].nvars == |declared|
    && forall a :: a in declared ==> a in lenv && a in places && vm.frames[f].vars <= places[a]
  }

  /** The first of some assignments that have a meaning. */
  lemma FirstLet(script: Script, prog: Program, genv: Env, lenv: Env, lets: seq<Let>, lenv': Env) returns (a: nat, v: int)
    requires lets != [] && EvalLets(prog, script.atoms, genv, lenv, lets) == Some(lenv') && AllEncodable(GenLets(lets))
    ensures NameAt(prog.atoms, script.atoms, lets[0].target) == Some(a)
    ensures EvalExpr(prog.atoms, script.atoms, genv + lenv, lets[0].e) == Some(v)
    ensures a in lenv || (a !in genv && FnIndex(prog.fns, a) == None)
    ensures EvalLets(prog, script.atoms, genv, lenv[a := v], lets[1..]) == Some(lenv') && AllEncodable(GenLets(lets[1..]))
    ensures GenLets(lets) == (GenExpr(lets[0].e) + GenStore(lets[0].target)) + GenLets(lets[1..])
    ensures |GenLets(lets)| == |GenExpr(lets[0].e)| + 2 + |GenLets(lets[1..])| && a in Nameable(script.atoms, 256)
  {
    a := NameAt(prog.atoms, script.atoms, lets[0].target).value;
    v := EvalExpr(prog.atoms, script.atoms, genv + lenv, lets[0].e).value;
    var first := GenExpr(lets[0].e) + GenStore(lets[0].target);
    AllEncodableAppend(first, GenLets(lets[1..]));
    assert first[|GenExpr(lets[0].e)|] == NAME(lets[0].target);
  }

  /** There is a slot number left for one more name. */
  lemma RoomForName(vm: Vm, table: seq<nat>, lenv: Env, places: map<nat, nat>, f: nat, declared: set<nat>, a: nat)
    requires f < |vm.frames| && AreLocals(vm, lenv, places, f, declared)
    requires declared <= Nameable(table, 256) && a in Nameable(table, 256)
    ensures a in lenv || vm.frames[f].nvars < 256
  {
    SubsetSize(declared + {a}, Nameable(table, 256));
  }

  lemma LocalsGrow(vm: Vm, vm1: Vm, lenv: Env, places: map<nat, nat>, f: nat, declared: set<nat>, a: nat, v: int)
    requires FrameStands(vm, f) && AreLocals(vm, lenv, places, f, declared) && Inside(vm, vm1, f)
    requires vm1.frames[f].nvars == vm.frames[f].nvars + if a in lenv then 0 else 1
    ensures if a in lenv then AreLocals(vm1, lenv[a := v], places, f, declared)
            else AreLocals(vm1, lenv[a := v], places[a := vm.ptr], f, declared + {a})
  {}

  lemma SameData(vm: Vm, vm1: Vm, f: nat)
    requires Inside(vm, vm1, f)
    ensures |vm1.data| == |vm.data| && f < |vm1.frames|
  {}

  /** One assignment, with all that the next one needs. */
  lemma LetsStep(vm: Vm, depth: nat, script: Script, prog: Program, genv: Env, lenv: Env, declared: set<nat>,
                 places: map<nat, nat>, f: nat, lets: seq<Let>, lenv': Env, result: Datum)
    returns (vm1: Vm, lenv1: Env, places1: map<nat, nat>, declared1: set<nat>)
    requires InBody(vm, prog, genv, lenv, places, f) && AreLocals(vm, lenv, places, f, declared)
    requires declared <= Nameable(script.atoms, 256) && lets != []
    requires EvalLets(prog, script.atoms, genv, lenv, lets) == Some(lenv') && AllEncodable(GenLets(lets))
    requires vm.ptr + |GenLets(lets)| <= |vm.data|
    ensures InBody(vm1, prog, genv, lenv1, places1, f) && AreLocals(vm1, lenv1, places1, f, declared1) && Inside(vm, vm1, f)
    ensures declared1 <= Nameable(script.atoms, 256)
    ensures EvalLets(prog, script.atoms, genv, lenv1, lets[1..]) == Some(lenv') && AllEncodable(GenLets(lets[1..]))
    ensures vm1.ptr + |GenLets(lets[1..])| <= vm.ptr + |GenLets(lets)| && |vm1.data| == |vm.data|
    ensures RunList(vm, depth, script, GenLets(lets), result) == RunList(vm1, depth, script, GenLets(lets[1..]), result)
  {
    var a, v := FirstLet(script, prog, genv, lenv, lets, lenv');
    assert FrameStands(vm, f);
    RoomForName(vm, script.atoms, lenv, places, f, declared, a);
    hide *;
    lenv1, declared1 := lenv[a := v], if a in lenv then declared else declared + {a};
    places1 := LetRuns(vm, depth, script, prog, genv, lenv, places, f, lets[0], a, v, result);
    var first := GenExpr(lets[0].e) + GenStore(lets[0].target);
    vm1 := RunList(vm, depth, script, first, result).vm;
    LocalsGrow(vm, vm1, lenv, places, f, declared, a, v);
    SameData(vm, vm1, f);
    RunListAppend(vm, depth, script, first, GenLets(lets[1..]), result);
  }

  lemma NoLets(vm: Vm, depth: nat, script: Script, prog: Program, genv: Env, lenv: Env, f: nat, lenv': Env, result: Datum)
    requires f < |vm.frames| && EvalLets(prog, script.atoms, genv, lenv, []) == Some(lenv')
    ensures RunList(vm, depth, script, GenLets([]), result) == Conf(vm, result) && lenv' == lenv && Inside(vm, vm, f)
  {
    assert Extends(vm.symbols, vm.symbols);
  }

  /** All local assignments of a body; there are never more names than slot numbers. */
  lemma {:induction false} LetsRun(vm: Vm, depth: nat, script: Script, prog: Program, genv: Env, lenv: Env, declared: set<nat>,
                                   places: map<nat, nat>, f: nat, lets: seq<Let>, lenv': Env, result: Datum)
    returns (places': map<nat, nat>, declared': set<nat>)
    requires InBody(vm, prog, genv, lenv, places, f) && AreLocals(vm, lenv, places, f, declared)
    requires declared <= Nameable(script.atoms, 256)
    requires EvalLets(prog, script.atoms, genv, lenv, lets) == Some(lenv') && AllEncodable(GenLets(lets))
    requires vm.ptr + |GenLets(lets)| <= |vm.data|
    ensures var c := RunList(vm, depth, script, GenLets(lets), result);
            && c.result == result && Inside(vm, c.vm, f) && InBody(c.vm, prog, genv, lenv', places', f)
            && AreLocals(c.vm, lenv', places', f, declared') && c.vm.ptr <= vm.ptr + |GenLets(lets)|
    decreases |lets|
  {
    if lets == [] {
      assert f < |vm.frames|;
      NoLets(vm, depth, script, prog, genv, lenv, f, lenv', result);
      places', declared' := places, declared;
    } else {
      hide *;
      var vm1, lenv1, places1, declared1 := LetsStep(vm, depth, script, prog, genv, lenv, declared, places, f, lets, lenv', result);
      places', declared' := LetsRun(vm1, depth, script, prog, genv, lenv1, declared1, places1, f, lets[1..], lenv', result);
      InsideTrans(vm, vm1, RunList(vm1, depth, script, GenLets(lets[1..]), result).vm, f);
    }
  }

  /** One of the names has this slot, with its value in it. */
  ghost predicate IsLocalSlot(vm: Vm, lenv: Env, places: map<nat, nat>, declared: set<nat>, i: nat) {
    exists a :: a in declared && a in places && a in lenv && places[a] == i && i < |vm.data| && IsNumber(vm.data[i], lenv[a])
  }

  /**
   Local slots: between the statements of a body the stack pointer stands at vars + nvars, and the
   slots 0 to nvars - 1 belong one to one to the names declared so far, each holding the value
   last assigned to its name.
   */
  lemma LocalSlots(vm: Vm, prog: Program, genv: Env, lenv: Env, places: map<nat, nat>, f: nat, declared: set<nat>)
    requires InBody(vm, prog, genv, lenv, places, f) && AreLocals(vm, lenv, places, f, declared)
    requires forall a :: a in declared ==> a < |prog.atoms|
    ensures var vars, end := vm.frames[f].vars, vm.frames[f].vars + vm.frames[f].nvars;
            && vm.ptr == end <= |vm.data|
            && (forall a :: a in declared ==> vars <= places[a] < end)
            && (forall a, b :: a in declared && b in declared && a != b ==> places[a] != places[b])
            && forall i: nat :: vars <= i < end ==> IsLocalSlot(vm, lenv, places, declared, i)
  {
    var vars, end := vm.frames[f].vars, vm.frames[f].vars + vm.frames[f].nvars;
    forall a | a in declared
      ensures places[a] < end && IsNumber(vm.data[places[a]], lenv[a])
    {
      assert LocalHolds(vm, lenv, places, f, a);
    }
    forall a, b | a in declared && b in declared && a != b
      ensures places[a] != places[b]
    {
      assert a < b || b < a;
    }
    forall i: nat | vars <= i < end
      ensures IsLocalSlot(vm, lenv, places, declared, i)
    {
      var a := SlotTaken(declared, places, vars, vm.frames[f].nvars, i);
    }
  }

  /** As many different slots as there are: every one is taken. */
  lemma SlotTaken(declared: set<nat>, places: map<nat, nat>, base: nat, n: nat, i: nat) returns (a: nat)
    requires |declared| == n && base <= i < base + n
    requires forall a :: a in declared ==> a in places && base <= places[a] < base + n
    requires forall a, b :: a in declared && b in declared && a != b ==> places[a] != places[b]
    ensures a in declared && places[a] == i
  {
    var free := Interval(base, n) - {i};
    if forall b :: b in declared ==> places[b] != i {
      TooMany(declared, places, free);
      assert false;
    }
    a :| a in declared && places[a] == i;
  }

  /** A one-to-one map does not fit into a smaller set. */
  lemma {:induction false} TooMany(declared: set<nat>, places: map<nat, nat>, slots: set<nat>)
    requires forall a :: a in declared ==> a in places && places[a] in slots
    requires forall a, b :: a in declared && b in declared && a != b ==> places[a] != places[b]
    ensures |declared| <= |slots|
    decreases declared
  {
    if declared != {} {
      var a :| a in declared;
      TooMany(declared - {a}, places, slots - {places[a]});
    }
  }

  lemma {:induction false} SubsetSize(a: set<nat>, b: set<nat>)
    requires a <= b
    ensures |a| <= |b|
    decreases a
  {
    if a != {} {
      var x :| x in a;
      SubsetSize(a - {x}, b - {x});
    }
  }
}
