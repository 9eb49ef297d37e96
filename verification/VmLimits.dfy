/**
 What the shapes of the emitted code are for: they keep every script depth-checked, and the one
 shape left out, a call as the value of a local assignment, does not work.
 */
module VmLimits {
  import opened Chars
  import opened VmState
  import opened VmSemantics
  import opened VmEmit
  import opened VmProgram
  import opened VmExpressions
  import opened VmWorld
  import opened VmBodies
  import opened VmCalls
  import opened VmIsolation
  import opened VmRuns
  import opened VmBinding
  import opened VmCallTree
  import opened VmParameters
  import R = VmRefinement

  // ---------- emitted code is depth-checked ----------

  /** `DepthChecked` on instructions instead of bytes. */
  predicate Checked(instrs: seq<Instr>, d: nat) {
    instrs == [] || (Needs(instrs[0]) <= d && Checked(instrs[1..], Leaves(instrs[0], d)))
  }

  lemma {:induction false} CheckedBytes(before: seq<byte>, instrs: seq<Instr>, d: nat)
    requires AllEncodable(instrs)
    ensures DepthChecked(before + Encode(instrs), |before|, d) == Checked(instrs, d)
    decreases instrs
  {
    if instrs != [] {
      var instr, more := instrs[0], instrs[1..];
      FetchEncoded(before, instr, Encode(more));
      assert before + Encode(instrs) == before + (Encode1(instr) + Encode(more));
      assert before + Encode(instrs) == (before + Encode1(instr)) + Encode(more);
      if Needs(instr) <= d {
        CheckedBytes(before + Encode1(instr), more, Leaves(instr, d));
      }
    }
  }

  lemma CheckedOne(instr: Instr, more: seq<Instr>, d: nat)
    ensures Checked([instr] + more, d) == (Needs(instr) <= d && Checked(more, Leaves(instr, d)))
  {
    assert ([instr] + more)[1..] == more;
  }

  /** An expression adds one slot. */
  lemma {:induction false} ExprChecked(e: Expr, more: seq<Instr>, d: nat)
    ensures Checked(GenExpr(e) + more, d) == Checked(more, d + 1)
    decreases e
  {
    match e
    case Lit(i) => CheckedOne(NUMBER(i), more, d);
    case Var(i) => CheckedOne(NAME(i), more, d);
    case Plus(l, r) =>
      assert GenExpr(e) + more == GenExpr(l) + (GenExpr(r) + ([Instr.ADD] + more));
      ExprChecked(l, GenExpr(r) + ([Instr.ADD] + more), d);
      ExprChecked(r, [Instr.ADD] + more, d + 1);
      CheckedOne(Instr.ADD, more, d + 2);
  }

  lemma {:induction false} ArgsChecked(args: seq<Expr>, more: seq<Instr>, d: nat)
    ensures Checked(GenArgs(args) + more, d) == Checked(more, d + |args|)
    decreases args
  {
    if args == [] {
      assert GenArgs(args) + more == more;
    } else {
      assert GenArgs(args) + more == GenExpr(args[0]) + (GenArgs(args[1..]) + more);
      ExprChecked(args[0], GenArgs(args[1..]) + more, d);
      ArgsChecked(args[1..], more, d + 1);
    }
  }

  lemma CallChecked(fun: nat, args: seq<Expr>, more: seq<Instr>, d: nat)
    ensures Checked(GenCall(fun, args) + more, d) == Checked(more, d + 1)
  {
    assert GenCall(fun, args) + more == [NAME(fun)] + (GenArgs(args) + ([CALL(|args|)] + more));
    CheckedOne(NAME(fun), GenArgs(args) + ([CALL(|args|)] + more), d);
    ArgsChecked(args, [CALL(|args|)] + more, d + 1);
    CheckedOne(CALL(|args|), more, d + 1 + |args|);
  }

  lemma StoreChecked(target: nat, more: seq<Instr>, d: nat)
    ensures Checked(GenStore(target) + more, d + 1) == Checked(more, d)
  {
    assert GenStore(target) + more == [NAME(target)] + ([Instr.ASSIGN] + more);
    CheckedOne(NAME(target), [Instr.ASSIGN] + more, d + 1);
    CheckedOne(Instr.ASSIGN, more, d + 2);
  }

  lemma {:induction false} LetsChecked(lets: seq<Let>, more: seq<Instr>, d: nat)
    ensures Checked(GenLets(lets) + more, d) == Checked(more, d)
    decreases |lets|
  {
    if lets == [] {
      assert GenLets(lets) + more == more;
    } else {
      var rest := GenLets(lets[1..]) + more;
      assert GenLets(lets) + more == GenExpr(lets[0].e) + (GenStore(lets[0].target) + rest);
      ExprChecked(lets[0].e, GenStore(lets[0].target) + rest, d);
      StoreChecked(lets[0].target, rest, d);
      LetsChecked(lets[1..], more, d);
    }
  }

  lemma BodyChecked(body: Body)
    ensures Checked(GenBody(body), 0)
  {
    LetsChecked(body.lets, GenRet(body.ret), 0);
    if body.ret.Value? {
      ExprChecked(body.ret.e, [RETURN(1)], 0);
    } else {
      CallChecked(body.ret.fun, body.ret.args, [RETURN(1)], 0);
    }
    assert [RETURN(1)] == [RETURN(1)] + [];
    CheckedOne(RETURN(1), [], 1);
  }

  lemma {:induction false} MainChecked(main: seq<Top>)
    ensures Checked(GenMain(main), 0)
    decreases |main|
  {
    if main != [] {
      var top, more := main[0], GenMain(main[1..]);
      assert GenMain(main) == GenTopValue(top) + (GenStore(top.target) + more);
      if top.Assign? {
        ExprChecked(top.e, GenStore(top.target) + more, 0);
      } else {
        CallChecked(top.fun, top.args, GenStore(top.target) + more, 0);
      }
      StoreChecked(top.target, more, 0);
      MainChecked(main[1..]);
    }
  }

  /** Every program emitted in these shapes meets the condition of call isolation. */
  lemma EmittedCodeIsChecked(vm: Vm, prog: Program, main: seq<Top>)
    requires Loaded(vm, prog) && AllEncodable(GenMain(main))
    ensures AllChecked(vm) && DepthChecked(Encode(GenMain(main)), 0, 0)
  {
    forall i | 0 <= i < |vm.scripts|
      ensures DepthChecked(vm.scripts[i].code, 0, 0)
    {
      assert FnLoaded(vm, prog, i);
      var body := prog.fns[i].body;
      BodyChecked(body);
      CheckedBytes([], GenBody(body), 0);
      assert [] + Encode(GenBody(body)) == Encode(GenBody(body));
    }
    MainChecked(main);
    CheckedBytes([], GenMain(main), 0);
    assert [] + Encode(GenMain(main)) == Encode(GenMain(main));
  }

  // ---------- the place of a new local ----------

  /** A new local is written where the stack pointer stands, but looked for at vars + nvars, of which eight bits are kept. */
  lemma NewLocalPlace(vm: Vm, f: nat, a: nat, n: Datum)
    requires vm.status == Running && vm.frame == Some(f) && f < |vm.frames| && vm.ptr < |vm.data|
    requires vm.staticLink == vm.frames[f].scope < |vm.scopes|
    ensures var vm' := AssignTo(vm, AtomRef(a), n);
            var s := FindSymbol(vm'.symbols, vm'.scopes, Some(vm'.staticLink), a);
            && vm' == vm.(data := vm.data[vm.ptr := n], ptr := vm.ptr + 1, symbols := vm'.symbols,
                          frames := vm.frames[f := vm.frames[f].(nvars := vm.frames[f].nvars + 1)], scopes := vm'.scopes)
            && |vm'.scopes| == |vm.scopes|
            && s.Some? && PlaceOf(vm', s.value) == Slot(vm.frames[f].vars + vm.frames[f].nvars % 256)
  {
    var vm' := AssignTo(vm, AtomRef(a), n);
    assert FindInList(vm'.symbols, vm'.scopes[vm.staticLink].list, a) == Some(|vm.symbols|);
  }

  /** The name resolves to the number. */
  predicate NameReads(vm: Vm, a: nat, v: int) {
    var r := Resolve(vm, AtomRef(a));
    r.Some? && IsNumber(r.value, v)
  }

  /** Its name reads its value if and only if the two agree, or the other slot happens to hold the same. */
  lemma NewLocalReadsIff(vm: Vm, f: nat, a: nat, v: int, n: Datum)
    requires IsNumber(n, v)
    requires vm.status == Running && vm.frame == Some(f) && f < |vm.frames| && vm.ptr < |vm.data|
    requires vm.staticLink == vm.frames[f].scope < |vm.scopes|
    requires a < |vm.atoms| && vm.atoms[a].Name?
    ensures var vm', place := AssignTo(vm, AtomRef(a), n), vm.frames[f].vars + vm.frames[f].nvars % 256;
            NameReads(vm', a, v) <==> place == vm.ptr || (place < |vm.data| && IsNumber(Primary(vm, vm.data[place]), v))
  {
    NewLocalPlace(vm, f, a, n);
  }

  /** Where a local assignment of a call leaves the machine: one slot further than locals are looked for. */
  predicate OffByOne(vm: Vm, f: nat) {
    && vm.status == Running && vm.frame == Some(f) && f < |vm.frames|
    && vm.staticLink == vm.frames[f].scope < |vm.scopes|
    && vm.ptr == vm.frames[f].vars + vm.frames[f].nvars + 1 <= |vm.data|
  }

  /** ... and what it leaves there: the name reads the number if and only if it was known, and the other datum is on top. */
  predicate AfterLetOfCall(vm: Vm, f: nat, a: nat, h: nat, v: int, known: bool) {
    && OffByOne(vm, f) && (NameReads(vm, a, v) <==> known)
    && if known then vm.data[vm.ptr - 1] == FunctionRef(h) else IsNumber(vm.data[vm.ptr - 1], v)
  }

  /** The call gives the caller's parameters back as they were bound. */
  lemma StillBound(vm: Vm, ready: Vm, left: Vm, depth: nat, script: Script, prog: Program, free: set<nat>, genv: Env, env: Env,
                   f: nat, h: nat, xs: seq<int>, v: int)
    requires FrameStands(vm, f) && Sound(vm) && AllBound(vm) && Outside(vm, free) && SameBelow(vm, ready, vm.ptr)
    requires READY(ready, prog, genv, env, vm.ptr, vm.ptr, h, xs) && EvalFn(prog, free, h, xs, genv) == Some(v)
    requires depth >= |free| && ready.ptr + Room(prog.fns, free) <= |ready.data|
    requires R.COMES_BACK(ready, depth, script, |xs|, Undef, left) && left.status == Running
    ensures Sound(left) && AllBound(left) && left.scripts == vm.scripts
    ensures forall i :: 0 <= i < |vm.scripts| ==> Params(left, i) == Params(vm, i)
  {
    BoundOfData(vm, ready);
    OutsideStays(vm, ready, free);
    FnTame(ready, depth, prog, free, genv, env, vm.ptr, vm.ptr, h, xs, v);
    AllDepthsSteady(depth);
    var visits := VisitedBy(ready, depth, CALL(|xs|));
    forall w | w in visits
      ensures FAIR(w)
    {
      NoReentryIsFair(w);
    }
    assert Starts(GOOD, ready, CALL(|xs|));
    assert Kept(GOOD, BACK, ready, left, visits);
    assert forall i :: 0 <= i < |vm.scripts| ==> Params(ready, i) == Params(vm, i);
    ParamsStay(ready, left);
  }

  /** A name that had a slot has the same symbol, bound to the same slot. */
  lemma StillThere(vm: Vm, ready: Vm, left: Vm, prog: Program, lenv: Env, places: map<nat, nat>, f: nat, a: nat, h: nat, v: int)
    requires FrameStands(vm, f) && LocalHolds(vm, lenv, places, f, a) && a in lenv && SameBelow(vm, ready, vm.ptr)
    requires R.CALLED(ready, left, vm.ptr, h, v) && Loaded(vm, prog) && vm.frames[f].fun < |prog.fns|
    requires Sound(vm) && AllBound(vm) && Sound(left) && AllBound(left) && |Params(vm, vm.frames[f].fun)| <= vm.frames[f].argc
    requires forall i :: 0 <= i < |vm.scripts| ==> Params(left, i) == Params(vm, i)
    ensures var s := FindInList(vm.symbols, vm.scopes[vm.staticLink].list, a);
            && FindSymbol(left.symbols, left.scopes, Some(left.staticLink), a) == s
            && s.Some? && s.value < |left.symbols| && left.symbols[s.value] == vm.symbols[s.value]
  {
    var list := vm.scopes[vm.staticLink].list;
    var s := FindInList(vm.symbols, list, a).value;
    FindExtends(vm.symbols, left.symbols, list, a);
    assert SameButBinding(vm.symbols[s], left.symbols[s]);
    assert FnLoaded(vm, prog, vm.frames[f].fun);
    assert f in Active(vm.frames, vm.frame) && f in Active(left.frames, left.frame);
    assert Bound(vm, f) && Bound(left, f);
    if vm.symbols[s].kind == ARGUMENT {
      var params := Params(vm, vm.frames[f].fun);
      var i :| 0 <= i < |params| && params[i] == s;
    }
  }

  /** The assignment behind the call, to a name that has a slot. */
  lemma StoreInSlot(vm: Vm, depth: nat, script: Script, f: nat, target: nat, a: nat, s: nat, place: nat, p: nat, h: nat, v: int)
    requires vm.status == Running && vm.frame == Some(f) && f < |vm.frames| && vm.ptr == p + 2 < |vm.data|
    requires vm.staticLink == vm.frames[f].scope < |vm.scopes| && vm.frames[f].vars + vm.frames[f].nvars == p
    requires vm.data[p] == FunctionRef(h) && IsNumber(vm.data[p + 1], v) && place < p
    requires NameAt(vm.atoms, script.atoms, target) == Some(a)
    requires FindSymbol(vm.symbols, vm.scopes, Some(vm.staticLink), a) == Some(s) && s < |vm.symbols|
    requires var sym := vm.symbols[s];
             && sym.value == None && sym.kind != PROPERTY && sym.scope == Some(vm.frames[f].scope)
             && SlotIn(sym, vm.frames[f]) == Some(place)
    ensures var c := RunList(vm, depth, script, GenStore(target), Undef);
            AfterLetOfCall(c.vm, f, a, h, v, true)
  {
    var vm1 := Push(vm, AtomRef(a));
    R.NameRuns(vm, depth, script, target, a, [Instr.ASSIGN], Undef);
    RunOne(vm1, depth, script, Instr.ASSIGN, Undef);
    var popped := vm1.(data := vm1.data[p + 2 := SymbolRef(s)], ptr := p + 1);
    assert PopTwo(vm1) == popped by {
      assert popped.data[p + 1 := vm.data[p + 1]] == popped.data;
    }
    SlotStored(popped, f, a, s, place, p, h, v, vm.data[p + 1]);
  }

  lemma SlotStored(vm: Vm, f: nat, a: nat, s: nat, place: nat, p: nat, h: nat, v: int, n: Datum)
    requires IsNumber(n, v)
    requires vm.status == Running && vm.frame == Some(f) && f < |vm.frames| && vm.ptr == p + 1 < |vm.data|
    requires vm.staticLink == vm.frames[f].scope < |vm.scopes| && vm.frames[f].vars + vm.frames[f].nvars == p
    requires vm.data[p] == FunctionRef(h) && place < p && a < |vm.atoms| && vm.atoms[a].Name?
    requires FindSymbol(vm.symbols, vm.scopes, Some(vm.staticLink), a) == Some(s) && s < |vm.symbols|
    requires var sym := vm.symbols[s];
             && sym.value == None && sym.kind != PROPERTY && sym.scope == Some(vm.frames[f].scope)
             && SlotIn(sym, vm.frames[f]) == Some(place)
    ensures var vm' := AssignTo(vm, SymbolRef(s), n);
            AfterLetOfCall(vm', f, a, h, v, true)
  {
    var vm' := vm.(data := vm.data[place := n]);
    assert AssignTo(vm, SymbolRef(s), n) == vm';
    assert PlaceOf(vm', s) == Slot(place);
  }

  lemma StillUnknown(vm: Vm, ready: Vm, left: Vm, prog: Program, genv: Env, lenv: Env, places: map<nat, nat>,
                     f: nat, a: nat, h: nat, v: int)
    requires InBody(vm, prog, genv, lenv, places, f) && SameBelow(vm, ready, vm.ptr) && R.CALLED(ready, left, vm.ptr, h, v)
    requires a < |prog.atoms| && a !in lenv && a !in genv && FnIndex(prog.fns, a) == None
    ensures FindSymbol(left.symbols, left.scopes, Some(left.staticLink), a) == None
  {
    assert LocalHolds(vm, lenv, places, f, a);
    assert GlobalHolds(vm, prog, genv, a);
    FindExtends(vm.symbols, left.symbols, vm.scopes[vm.staticLink].list, a);
    FindExtends(vm.symbols, left.symbols, vm.scopes[0].list, a);
    assert FindSymbol(left.symbols, left.scopes, Some(0), a) == FindInList(left.symbols, left.scopes[0].list, a);
  }

  /** The assignment behind the call, with the function slot where the next local is looked for. */
  lemma StoreAsLocal(vm: Vm, depth: nat, script: Script, f: nat, target: nat, a: nat, p: nat, h: nat, v: int)
    requires vm.status == Running && vm.frame == Some(f) && f < |vm.frames| && vm.ptr == p + 2 < |vm.data|
    requires vm.staticLink == vm.frames[f].scope < |vm.scopes| && vm.frames[f].nvars < 256
    requires vm.frames[f].vars + vm.frames[f].nvars == p && vm.data[p] == FunctionRef(h) && IsNumber(vm.data[p + 1], v)
    requires NameAt(vm.atoms, script.atoms, target) == Some(a)
    requires FindSymbol(vm.symbols, vm.scopes, Some(vm.staticLink), a) == None
    ensures var c := RunList(vm, depth, script, GenStore(target), Undef);
            AfterLetOfCall(c.vm, f, a, h, v, false) && Resolve(c.vm, AtomRef(a)) == Some(FunctionRef(h))
  {
    var popped := StorePops(vm, depth, script, target, a, p);
    NewLocalPlace(popped, f, a, vm.data[p + 1]);
    hide AssignTo, FindSymbol, PlaceOf, Resolve, RunList;
    SlotReads(AssignTo(popped, AtomRef(a), vm.data[p + 1]), a, p);
  }

  /** The two pops of an assignment of a number to a name that is new. */
  lemma StorePops(vm: Vm, depth: nat, script: Script, target: nat, a: nat, p: nat) returns (popped: Vm)
    requires vm.status == Running && vm.ptr == p + 2 < |vm.data| && vm.data[p + 1].Number?
    requires NameAt(vm.atoms, script.atoms, target) == Some(a)
    requires FindSymbol(vm.symbols, vm.scopes, Some(vm.staticLink), a) == None
    ensures popped == vm.(data := vm.data[p + 2 := AtomRef(a)], ptr := p + 1)
    ensures RunList(vm, depth, script, GenStore(target), Undef) == Conf(AssignTo(popped, AtomRef(a), vm.data[p + 1]), Undef)
  {
    var vm1 := Push(vm, AtomRef(a));
    R.NameRuns(vm, depth, script, target, a, [Instr.ASSIGN], Undef);
    RunOne(vm1, depth, script, Instr.ASSIGN, Undef);
    popped := vm1.(ptr := p + 1);
    assert PopTwo(vm1) == popped by {
      assert vm1.data[p + 2 := AtomRef(a)] == vm1.data && vm1.data[p + 1 := vm.data[p + 1]] == vm1.data;
    }
    hide AssignTo;
  }

  lemma SlotReads(vm: Vm, a: nat, p: nat)
    requires a < |vm.atoms| && vm.atoms[a].Name? && p < |vm.data|
    requires var s := FindSymbol(vm.symbols, vm.scopes, Some(vm.staticLink), a);
             s.Some? && PlaceOf(vm, s.value) == Slot(p)
    ensures Resolve(vm, AtomRef(a)) == Some(Primary(vm, vm.data[p]))
  {}

  /** The assignment behind the call, to a name that had a slot before it. */
  lemma StoreOfKnown(vm: Vm, ready: Vm, left: Vm, depth: nat, script: Script, prog: Program, free: set<nat>, genv: Env, lenv: Env, places: map<nat, nat>,
                     f: nat, target: nat, a: nat, h: nat, xs: seq<int>, v: int)
    requires IN_BODY(vm, prog, genv, lenv, places, f) && f < |vm.frames| && vm.frames[f].fun < |prog.fns|
    requires Sound(vm) && AllBound(vm) && Outside(vm, free) && |Params(vm, vm.frames[f].fun)| <= vm.frames[f].argc
    requires NameAt(prog.atoms, script.atoms, target) == Some(a) && a in lenv && SameBelow(vm, ready, vm.ptr)
    requires READY(ready, prog, genv, genv + lenv, vm.ptr, vm.ptr, h, xs) && EvalFn(prog, free, h, xs, genv) == Some(v)
    requires depth >= |free| && ready.ptr + Room(prog.fns, free) <= |ready.data| && vm.ptr + 2 < |vm.data|
    requires R.COMES_BACK(ready, depth, script, |xs|, Undef, left) && R.CALLED(ready, left, vm.ptr, h, v)
    ensures var c := RunList(left, depth, script, GenStore(target), Undef);
            AfterLetOfCall(c.vm, f, a, h, v, true)
  {
    hide *;
    var s := PlaceInBody(vm, prog, genv, lenv, places, f, a);
    AfterCall(vm, ready, left, f, h, v);
    StillBound(vm, ready, left, depth, script, prog, free, genv, genv + lenv, f, h, xs, v);
    StillThere(vm, ready, left, prog, lenv, places, f, a, h, v);
    StoreInSlot(left, depth, script, f, target, a, s, places[a], vm.ptr, h, v);
  }

  lemma PlaceInBody(vm: Vm, prog: Program, genv: Env, lenv: Env, places: map<nat, nat>, f: nat, a: nat) returns (s: nat)
    requires IN_BODY(vm, prog, genv, lenv, places, f) && a < |prog.atoms| && a in lenv
    ensures vm.status == Running && vm.atoms == prog.atoms && Loaded(vm, prog)
    ensures FrameStands(vm, f) && LocalHolds(vm, lenv, places, f, a) && a in places && places[a] < vm.ptr
    ensures FindInList(vm.symbols, vm.scopes[vm.staticLink].list, a) == Some(s) && s < |vm.symbols|
    ensures var sym := vm.symbols[s];
            && sym.value == None && sym.kind != PROPERTY && sym.scope == Some(vm.frames[f].scope)
            && SlotIn(sym, vm.frames[f]) == Some(places[a])
  {
    assert LocalHolds(vm, lenv, places, f, a);
    s := FindInList(vm.symbols, vm.scopes[vm.staticLink].list, a).value;
  }

  /** Where the call leaves the caller's frame. */
  lemma AfterCall(vm: Vm, ready: Vm, left: Vm, f: nat, h: nat, v: int)
    requires FrameStands(vm, f) && SameBelow(vm, ready, vm.ptr) && R.CALLED(ready, left, vm.ptr, h, v)
    ensures left.status == vm.status && left.atoms == vm.atoms
    ensures left.frame == Some(f) && f < |left.frames| && left.frames[f] == vm.frames[f]
    ensures left.staticLink == vm.staticLink == vm.frames[f].scope < |left.scopes|
    ensures vm.frames[f].vars + vm.frames[f].nvars == vm.ptr && left.ptr == vm.ptr + 2 <= |left.data| == |vm.data|
    ensures left.data[vm.ptr] == FunctionRef(h) && IsNumber(left.data[vm.ptr + 1], v)
  {}

  /** ... and to a new name. */
  lemma StoreOfNew(vm: Vm, ready: Vm, left: Vm, depth: nat, script: Script, prog: Program, genv: Env, lenv: Env, places: map<nat, nat>,
                   f: nat, target: nat, a: nat, h: nat, v: int)
    requires IN_BODY(vm, prog, genv, lenv, places, f) && f < |vm.frames| && vm.frames[f].nvars < 256
    requires NameAt(prog.atoms, script.atoms, target) == Some(a) && a !in lenv && a !in genv && FnIndex(prog.fns, a) == None
    requires SameBelow(vm, ready, vm.ptr) && vm.ptr + 2 < |vm.data| && R.CALLED(ready, left, vm.ptr, h, v)
    ensures var c := RunList(left, depth, script, GenStore(target), Undef);
            AfterLetOfCall(c.vm, f, a, h, v, false) && Resolve(c.vm, AtomRef(a)) == Some(FunctionRef(h))
  {
    StillUnknown(vm, ready, left, prog, genv, lenv, places, f, a, h, v);
    StoreAsLocal(left, depth, script, f, target, a, vm.ptr, h, v);
  }

  /** The callee is not the function of the frame, and behind the call there is room for the assignment. */
  lemma CallFits(vm: Vm, prog: Program, free: set<nat>, f: nat, fun: nat, args: seq<Expr>, h: nat, xs: seq<int>, genv: Env)
    requires vm.frame == Some(f) && f < |vm.frames| && Outside(vm, free) && h < |prog.fns| && EvalFn(prog, free, h, xs, genv).Some?
    requires vm.ptr + |GenCall(fun, args)| + Room(prog.fns, free) + 1 <= |vm.data|
    ensures vm.frames[f].fun != h && |prog.fns[h].params| <= |xs| && vm.ptr + 2 < |vm.data|
  {
    FreeCallee(prog, free, h, xs, genv);
    assert f in Active(vm.frames, vm.frame);
  }

  /**
   A call as the value of a local assignment.  CALL leaves the function slot under its result, so
   afterwards the name reads the number returned if and only if it had a slot already; a new name
   turns out to be the function.  Either way the stack pointer is one too far for the locals to come.
   */
  lemma LetOfCallIff(vm: Vm, depth: nat, script: Script, prog: Program, free: set<nat>, genv: Env, lenv: Env, places: map<nat, nat>,
                     f: nat, target: nat, a: nat, fun: nat, args: seq<Expr>, h: nat, xs: seq<int>, v: int)
    requires InBody(vm, prog, genv, lenv, places, f) && vm.frames[f].fun < |prog.fns| && vm.frames[f].nvars < 256
    requires Sound(vm) && AllBound(vm) && Outside(vm, free) && |Params(vm, vm.frames[f].fun)| <= vm.frames[f].argc
    requires NameAt(prog.atoms, script.atoms, target) == Some(a) && (a in lenv || (a !in genv && FnIndex(prog.fns, a) == None))
    requires FnAt(prog, script.atoms, genv + lenv, fun) == Some(h)
    requires EvalArgs(prog.atoms, script.atoms, genv + lenv, args) == Some(xs) && EvalFn(prog, free, h, xs, genv) == Some(v)
    requires AllEncodable(GenCall(fun, args)) && depth >= |free|
    requires vm.ptr + |GenCall(fun, args)| + Room(prog.fns, free) + 1 <= |vm.data|
    ensures var c := RunList(vm, depth, script, GenCall(fun, args) + GenStore(target), Undef);
            AfterLetOfCall(c.vm, f, a, h, v, a in lenv)
  {
    assert IN_BODY(vm, prog, genv, lenv, places, f) && f < |vm.frames|;
    CallFits(vm, prog, free, f, fun, args, h, xs, genv);
    hide *;
    var ready, left := R.CallInBody(vm, depth, script, prog, free, genv, vm.frames[f].fun, lenv, places, f, fun, args, h, xs, v);
    RunListAppend(vm, depth, script, GenCall(fun, args), GenStore(target), Undef);
    if a in lenv {
      StoreOfKnown(vm, ready, left, depth, script, prog, free, genv, lenv, places, f, target, a, h, xs, v);
    } else {
      StoreOfNew(vm, ready, left, depth, script, prog, genv, lenv, places, f, target, a, h, v);
    }
  }

  /** What the locals to come read: their own value only by accident. */
  lemma LocalAfterLetOfCallIff(vm: Vm, f: nat, b: nat, w: int, n: Datum)
    requires IsNumber(n, w) && OffByOne(vm, f) && vm.ptr < |vm.data| && vm.frames[f].nvars < 256 && b < |vm.atoms| && vm.atoms[b].Name?
    ensures NameReads(AssignTo(vm, AtomRef(b), n), b, w) <==> IsNumber(Primary(vm, vm.data[vm.ptr - 1]), w)
  {
    NewLocalReadsIff(vm, f, b, w, n);
  }

  /**
   So a call may not be the value of a local assignment: CALL leaves the function slot under its
   result, and the new local turns out to be the function instead of the number returned.
   */
  lemma LetOfCallReadsTheFunction(vm: Vm, depth: nat, script: Script, prog: Program, free: set<nat>, genv: Env, lenv: Env, places: map<nat, nat>,
                                  f: nat, target: nat, a: nat, fun: nat, args: seq<Expr>, h: nat, xs: seq<int>, v: int)
    requires InBody(vm, prog, genv, lenv, places, f) && vm.frames[f].fun < |prog.fns| && vm.frames[f].fun != h && vm.frames[f].nvars < 256
    requires NameAt(prog.atoms, script.atoms, target) == Some(a) && a !in lenv && a !in genv && FnIndex(prog.fns, a) == None
    requires FnAt(prog, script.atoms, genv + lenv, fun) == Some(h)
    requires EvalArgs(prog.atoms, script.atoms, genv + lenv, args) == Some(xs) && EvalFn(prog, free, h, xs, genv) == Some(v)
    requires AllEncodable(GenCall(fun, args)) && depth >= |free|
    requires vm.ptr + |GenCall(fun, args)| + Room(prog.fns, free) + 1 <= |vm.data|
    ensures var c := RunList(vm, depth, script, GenCall(fun, args) + GenStore(target), Undef);
            c.vm.status == Running && Resolve(c.vm, AtomRef(a)) == Some(FunctionRef(h))
  {
    assert IN_BODY(vm, prog, genv, lenv, places, f) && f < |vm.frames|;
    hide *;
    var ready, left := R.CallInBody(vm, depth, script, prog, free, genv, vm.frames[f].fun, lenv, places, f, fun, args, h, xs, v);
    RunListAppend(vm, depth, script, GenCall(fun, args), GenStore(target), Undef);
    StoreOfNew(vm, ready, left, depth, script, prog, genv, lenv, places, f, target, a, h, v);
  }
}
