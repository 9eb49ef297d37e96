/**
 Entering a function of a loaded program: the argument slots end up holding the arguments'
 numbers, although the parameter symbols are rebound while the arguments are still being looked
 up, and the callee starts with its parameters as its locals.
 */
module VmCalls {
  import opened Chars
  import opened VmState
  import opened VmSemantics
  import opened VmProgram
  import opened VmExpressions
  import opened VmBinding
  import opened VmWorld
  import opened VmBodies

  // ---------- looking names up while parameters are rebound ----------

  /** What a name of the environment stands for is no symbol of the chain, and not younger than the scopes there are. */
  ghost predicate Apart(vm: Vm, env: Env, chain: seq<nat>) {
    forall a :: a in env && a < |vm.atoms| && vm.atoms[a].Name? ==> ApartName(vm, a, chain)
  }

  ghost predicate ApartName(vm: Vm, a: nat, chain: seq<nat>) {
    var s := FindSymbol(vm.symbols, vm.scopes, Some(vm.staticLink), a);
    s.Some? ==>
      vm.symbols[s.value].value.Some?
      || (s.value !in chain && vm.symbols[s.value].scope.Some? && vm.symbols[s.value].scope.value < |vm.scopes|)
  }

  lemma {:induction false} FindInGrownScopes(symbols: seq<Symbol>, scopes: seq<Scope>, new_: Scope, at: nat, key: nat)
    requires at < |scopes|
    ensures FindSymbol(symbols, scopes + [new_], Some(at), key) == FindSymbol(symbols, scopes, Some(at), key)
    decreases at
  {
    var parent := scopes[at].parent;
    if parent.Some? && parent.value < at {
      FindInGrownScopes(symbols, scopes, new_, parent.value, key);
    }
  }

  lemma {:induction false} FrameOfGrown(frames: seq<Frame>, new_: Frame, fp: Option<nat>, scope: Option<nat>)
    requires fp.Some? ==> fp.value < |frames|
    ensures FrameOf(frames + [new_], fp, scope) == FrameOf(frames, fp, scope)
    decreases if fp.Some? then fp.value + 1 else 0
  {
    if fp.Some? {
      var down := frames[fp.value].down;
      if down.Some? && down.value < fp.value {
        FrameOfGrown(frames, new_, down, scope);
      }
    }
  }

  /** The new frame and its scope hide nothing of what the caller sees. */
  lemma ReadsUnderFrame(vm: Vm, vm': Vm, env: Env, bound: nat, chain: seq<nat>, fr: Frame, scope: Scope)
    requires Reads(vm, env, bound) && Apart(vm, env, chain)
    requires vm.staticLink < |vm.scopes| && (vm.frame.Some? ==> vm.frame.value < |vm.frames|)
    requires fr.scope == |vm.scopes| && fr.down == vm.frame
    requires vm' == vm.(frames := vm.frames + [fr], frame := Some(|vm.frames|), scopes := vm.scopes + [scope])
    ensures Reads(vm', env, bound) && Apart(vm', env, chain)
  {
    forall a | a in env && a < |vm.atoms| && vm.atoms[a].Name?
      ensures ReadsName(vm', a, env[a], bound) && ApartName(vm', a, chain)
    {
      assert ReadsName(vm, a, env[a], bound) && ApartName(vm, a, chain);
      FindInGrownScopes(vm.symbols, vm.scopes, scope, vm.staticLink, a);
      var sym := vm.symbols[FindSymbol(vm.symbols, vm.scopes, Some(vm.staticLink), a).value];
      if sym.value == None {
        FrameOfGrown(vm.frames, fr, vm.frame, sym.scope);
        assert FrameOf(vm'.frames, vm'.frame, sym.scope) == FrameOf(vm.frames, vm.frame, sym.scope);
      }
    }
  }

  lemma {:induction false} FindRebound(a: seq<Symbol>, b: seq<Symbol>, head: Option<nat>, key: nat)
    requires |b| == |a| && forall s :: 0 <= s < |a| ==> SameButBinding(a[s], b[s])
    ensures FindInList(b, head, key) == FindInList(a, head, key)
    decreases if head.Some? then head.value + 1 else 0
  {
    if head.Some? && head.value < |a| {
      assert SameButBinding(a[head.value], b[head.value]);
      var next := a[head.value].next;
      if next.Some? && next.value < head.value {
        FindRebound(a, b, next, key);
      }
    }
  }

  lemma {:induction false} FindSymbolRebound(a: seq<Symbol>, b: seq<Symbol>, scopes: seq<Scope>, at: Option<nat>, key: nat)
    requires |b| == |a| && forall s :: 0 <= s < |a| ==> SameButBinding(a[s], b[s])
    ensures FindSymbol(b, scopes, at, key) == FindSymbol(a, scopes, at, key)
    decreases if at.Some? then at.value + 1 else 0
  {
    if at.Some? && at.value < |scopes| {
      FindRebound(a, b, scopes[at.value].list, key);
      var parent := scopes[at.value].parent;
      if parent.Some? && parent.value < at.value {
        FindSymbolRebound(a, b, scopes, parent, key);
      }
    }
  }

  /** Nor does the rebinding of a symbol of the chain. */
  lemma ReadsAfterRebinding(vm: Vm, vm': Vm, env: Env, bound: nat, chain: seq<nat>, s: nat)
    requires Reads(vm, env, bound) && Apart(vm, env, chain) && s in chain
    requires s < |vm.symbols| && vm.symbols[s].kind == ARGUMENT && |vm'.symbols| == |vm.symbols|
    requires vm' == vm.(symbols := vm.symbols[s := vm.symbols[s].(scope := vm'.symbols[s].scope, slot := vm'.symbols[s].slot)])
    ensures Reads(vm', env, bound) && Apart(vm', env, chain)
  {
    forall a | a in env && a < |vm.atoms| && vm.atoms[a].Name?
      ensures ReadsName(vm', a, env[a], bound) && ApartName(vm', a, chain)
    {
      assert ReadsName(vm, a, env[a], bound) && ApartName(vm, a, chain);
      FindSymbolRebound(vm.symbols, vm'.symbols, vm.scopes, Some(vm.staticLink), a);
    }
  }

  // ---------- binding the arguments ----------

  /** Arguments on the stack from argv on, each denoting its value. */
  ghost predicate ArgsDenote(vm: Vm, env: Env, argv: nat, vals: seq<int>) {
    argv + |vals| <= |vm.data|
    && forall k :: 0 <= k < |vals| ==> Denotes(vm.atoms, env, vm.data[argv + k], vals[k])
  }

  ghost predicate ChainOfParameters(symbols: seq<Symbol>, chain: seq<nat>, params: seq<nat>) {
    |chain| == |params| && forall k :: 0 <= k < |chain| ==> chain[k] < |symbols| && IsParameter(symbols, chain[k], params[k])
  }

  /** Behind the loop the slots of the parameters hold their numbers; other slots are as before. */
  ghost predicate ArgsBound(vm: Vm, vm': Vm, argv: nat, slot: nat, n: nat, vals: seq<int>) {
    && vm' == vm.(data := vm'.data, symbols := vm'.symbols) && |vm'.data| == |vm.data|
    && (forall k :: slot <= k < slot + n && k < |vals| && argv + k < |vm.data| ==> IsNumber(vm'.data[argv + k], vals[k]))
    && (forall i :: 0 <= i < |vm.data| && !(argv + slot <= i < argv + slot + n) ==> vm'.data[i] == vm.data[i])
  }

  /** The state after one round of the loop. */
  function Round(vm: Vm, frame: Frame, sym: nat, slot: nat, d: Datum): Vm
    requires sym < |vm.symbols| && frame.argv + slot < |vm.data|
  {
    vm.(data := vm.data[frame.argv + slot := d],
        symbols := vm.symbols[sym := vm.symbols[sym].(scope := Some(frame.scope), slot := Some(slot))])
  }

  lemma RoundRuns(vm: Vm, frame: Frame, sym: nat, slot: nat, env: Env, bound: nat, all: seq<nat>, key: nat, v: int)
    returns (n: Datum)
    requires vm.status == Running && sym < |vm.symbols| && slot < frame.argc < 256 && IsParameter(vm.symbols, sym, key)
    requires SEES(vm, env, bound, all) && frame.argv + slot < |vm.data| && Denotes(vm.atoms, env, vm.data[frame.argv + slot], v)
    ensures IsNumber(n, v)
    ensures BindArgs(vm, frame, Some(sym), slot)
         == BindArgs(Round(vm, frame, sym, slot, n), frame, vm.symbols[sym].next, slot + 1)
  {
    n := ResolveDenoted(vm, env, bound, frame.argv + slot, v);
  }

  // As a value it is not taken apart where it is only passed on.
  ghost const SEES: (Vm, Env, nat, seq<nat>) -> bool :=
    (vm: Vm, env: Env, bound: nat, all: seq<nat>) => Reads(vm, env, bound) && Apart(vm, env, all)

  /** It leaves alone what the remaining rounds look at. */
  lemma RoundReads(vm: Vm, frame: Frame, sym: nat, slot: nat, env: Env, bound: nat, all: seq<nat>, n: Datum)
    requires sym < |vm.symbols| && sym in all && vm.symbols[sym].kind == ARGUMENT
    requires SEES(vm, env, bound, all) && bound <= frame.argv && frame.argv + slot < |vm.data|
    ensures SEES(Round(vm, frame, sym, slot, n), env, bound, all)
  {
    var vm1 := vm.(data := vm.data[frame.argv + slot := n]);
    ReadsStay(vm, vm1, env, bound);
    ApartStays(vm, vm1, env, all);
    ReadsAfterRebinding(vm1, Round(vm, frame, sym, slot, n), env, bound, all, sym);
  }

  lemma RoundChain(vm: Vm, frame: Frame, sym: nat, slot: nat, params: seq<nat>, d: Datum)
    requires sym < |vm.symbols| && frame.argv + slot < |vm.data|
    requires ChainOfParameters(vm.symbols, Chain(vm.symbols, Some(sym)), params)
    ensures var symbols, next := Round(vm, frame, sym, slot, d).symbols, vm.symbols[sym].next;
            && params != [] && IsParameter(vm.symbols, sym, params[0])
            && Chain(symbols, next) == Chain(vm.symbols, Some(sym))[1..]
            && ChainOfParameters(symbols, Chain(symbols, next), params[1..])
  {
    var chain, s := Chain(vm.symbols, Some(sym)), vm.symbols[sym];
    var symbols := Round(vm, frame, sym, slot, d).symbols;
    assert chain[0] == sym && IsParameter(vm.symbols, chain[0], params[0]);
    ChainStays(vm.symbols, symbols, s.next);
    forall k | 0 <= k < |chain| - 1
      ensures chain[1..][k] < |symbols| && IsParameter(symbols, chain[1..][k], params[1..][k])
    {
      assert IsParameter(vm.symbols, chain[k + 1], params[k + 1]);
    }
  }

  /** What the remaining rounds need. */
  ghost predicate Rounds(vm: Vm, frame: Frame, sym: Option<nat>, slot: nat, env: Env, bound: nat, all: seq<nat>,
                         params: seq<nat>, vals: seq<int>)
  {
    && vm.status == Running && (sym.Some? ==> sym.value < |vm.symbols|) && frame.argc == |vals| < 256
    && slot + |params| <= |vals| && (forall s :: s in Chain(vm.symbols, sym) ==> s in all)
    && ChainOfParameters(vm.symbols, Chain(vm.symbols, sym), params)
    && SEES(vm, env, bound, all) && bound <= frame.argv && ArgsDenote(vm, env, frame.argv, vals)
  }

  lemma RoundDone(vm: Vm, frame: Frame, sym: nat, slot: nat, env: Env, bound: nat, all: seq<nat>, params: seq<nat>, vals: seq<int>)
    returns (vm': Vm, next: Option<nat>, n: Datum)
    requires Rounds(vm, frame, Some(sym), slot, env, bound, all, params, vals)
    ensures |params| > 0 && sym < |vm.symbols| && slot < |vals| && frame.argv + slot < |vm.data|
    ensures IsNumber(n, vals[slot]) && vm' == Round(vm, frame, sym, slot, n) && (next.Some? ==> next.value < sym)
    ensures Rounds(vm', frame, next, slot + 1, env, bound, all, params[1..], vals)
    ensures BindArgs(vm, frame, Some(sym), slot) == BindArgs(vm', frame, next, slot + 1)
  {
    var chain, v := Chain(vm.symbols, Some(sym)), vals[slot];
    assert chain[0] == sym;
    next := vm.symbols[sym].next;
    RoundChain(vm, frame, sym, slot, params, Undef);
    n := RoundRuns(vm, frame, sym, slot, env, bound, all, params[0], v);
    vm' := Round(vm, frame, sym, slot, n);
    RoundChain(vm, frame, sym, slot, params, n);
    RoundReads(vm, frame, sym, slot, env, bound, all, n);
    assert forall s :: s in chain[1..] ==> s in chain;
  }

  lemma NoRounds(vm: Vm, frame: Frame, slot: nat, env: Env, bound: nat, all: seq<nat>, params: seq<nat>, vals: seq<int>)
    requires Rounds(vm, frame, None, slot, env, bound, all, params, vals)
    ensures ArgsBound(vm, BindArgs(vm, frame, None, slot), frame.argv, slot, |params|, vals)
  {}

  lemma {:induction false} BindRuns(vm: Vm, frame: Frame, sym: Option<nat>, slot: nat, env: Env, bound: nat,
                                    all: seq<nat>, params: seq<nat>, vals: seq<int>)
    requires Rounds(vm, frame, sym, slot, env, bound, all, params, vals)
    ensures ArgsBound(vm, BindArgs(vm, frame, sym, slot), frame.argv, slot, |params|, vals)
    decreases if sym.Some? then sym.value + 1 else 0
  {
    hide *;
    if sym == None {
      NoRounds(vm, frame, slot, env, bound, all, params, vals);
    } else {
      var vm', next, n := RoundDone(vm, frame, sym.value, slot, env, bound, all, params, vals);
      BindRuns(vm', frame, next, slot + 1, env, bound, all, params[1..], vals);
      BoundAfter(vm, frame, sym.value, slot, BindArgs(vm', frame, next, slot + 1), |params| - 1, vals, n);
    }
  }

  lemma BoundAfter(vm: Vm, frame: Frame, sym: nat, slot: nat, done: Vm, count: nat, vals: seq<int>, n: Datum)
    requires sym < |vm.symbols| && slot < |vals| && frame.argv + slot < |vm.data| && IsNumber(n, vals[slot])
    requires ArgsBound(Round(vm, frame, sym, slot, n), done, frame.argv, slot + 1, count, vals)
    ensures ArgsBound(vm, done, frame.argv, slot, count + 1, vals)
  {}

  lemma ApartStays(vm: Vm, vm': Vm, env: Env, chain: seq<nat>)
    requires Apart(vm, env, chain) && vm' == vm.(data := vm'.data, ptr := vm'.ptr)
    ensures Apart(vm', env, chain)
  {
    forall a | a in env && a < |vm.atoms| && vm.atoms[a].Name?
      ensures ApartName(vm', a, chain)
    {
      assert ApartName(vm, a, chain);
    }
  }

  // ---------- the call ----------

  /** Function slot, arguments and environment as a call of function g on vals finds them. */
  ghost predicate Ready(vm: Vm, prog: Program, genv: Env, env: Env, bound: nat, p: nat, g: nat, vals: seq<int>) {
    && vm.status == Running && Loaded(vm, prog) && GlobalsHold(vm, prog, genv)
    && g < |prog.fns| && |prog.fns[g].params| <= |vals| < 256
    && vm.ptr == p + 1 + |vals| <= |vm.data| && bound <= p
    && Resolve(vm, vm.data[p]) == Some(FunctionRef(g))
    && ArgsDenote(vm, env, p + 1, vals) && Reads(vm, env, bound) && Apart(vm, env, Chain(vm.symbols, vm.scripts[g].args))
    && vm.staticLink < |vm.scopes| && (vm.frame.Some? ==> vm.frame.value < |vm.frames|)
  }

  // As a value it is not taken apart where it is only passed on.
  ghost const READY: (Vm, Program, Env, Env, nat, nat, nat, seq<int>) -> bool :=
    (vm: Vm, prog: Program, genv: Env, env: Env, bound: nat, p: nat, g: nat, vals: seq<int>) =>
      Ready(vm, prog, genv, env, bound, p, g, vals)

  function NewFrame(vm: Vm, p: nat, g: nat, argc: nat): Frame {
    Frame(argc, p + 1, 0, vm.ptr, g, vm.frame, |vm.scopes|)
  }

  /** The state in which the callee's first instruction is fetched, but for the argument slots. */
  ghost predicate Started(vm: Vm, vm': Vm, prog: Program, p: nat, g: nat, vals: seq<int>)
    requires g < |vm.scripts| && g < |prog.fns|
  {
    && vm' == vm.(data := vm'.data, frames := vm.frames + [NewFrame(vm, p, g, |vals|)], frame := Some(|vm.frames|),
                  scopes := vm.scopes + [Scope(vm.scripts[g].args, Some(0))], staticLink := vm'.staticLink,
                  symbols := Rebind(vm.symbols, Chain(vm.symbols, vm.scripts[g].args), 0, |vals|, |vm.scopes|))
    && |vm'.data| == |vm.data| && (forall i :: 0 <= i < p && i < |vm.data| ==> vm'.data[i] == vm.data[i])
    && (p < |vm.data| ==> vm'.data[p] == FunctionRef(g))
    && forall k :: 0 <= k < |prog.fns[g].params| && k < |vals| && p + 1 + k < |vm.data| ==> IsNumber(vm'.data[p + 1 + k], vals[k])
  }

  lemma EnterRuns(vm: Vm, prog: Program, genv: Env, env: Env, bound: nat, p: nat, g: nat, vals: seq<int>)
    requires READY(vm, prog, genv, env, bound, p, g, vals)
    ensures Started(vm, Enter(vm, |vals|), prog, p, g, vals) && Enter(vm, |vals|).staticLink == vm.staticLink
  {
    EnterReady(vm, prog, genv, env, bound, p, g, vals);
  }

  /** Enter, when the function slot holds a function. */
  lemma EnterMakes(vm: Vm, p: nat, argc: nat, g: nat)
    requires vm.status == Running && vm.ptr == p + 1 + argc <= |vm.data| && Resolve(vm, vm.data[p]) == Some(FunctionRef(g))
    requires g < |vm.functions| && vm.functions[g].script < |vm.scripts|
    ensures Enter(vm, argc) == MakeFrame(vm.(data := vm.data[p := FunctionRef(g)]), argc, g)
  {
    assert ResolveAt(vm, p) == vm.(data := vm.data[p := FunctionRef(g)]);
  }

  lemma EnterReady(vm: Vm, prog: Program, genv: Env, env: Env, bound: nat, p: nat, g: nat, vals: seq<int>)
    requires Ready(vm, prog, genv, env, bound, p, g, vals)
    ensures Started(vm, Enter(vm, |vals|), prog, p, g, vals) && Enter(vm, |vals|).staticLink == vm.staticLink
  {
    assert FnLoaded(vm, prog, g);
    var chain := Chain(vm.symbols, vm.scripts[g].args);
    var vm1 := vm.(data := vm.data[p := FunctionRef(g)]);
    EnterMakes(vm, p, |vals|, g);
    ReadsStay(vm, vm1, env, bound);
    ApartStays(vm, vm1, env, chain);
    FrameRuns(vm1, p, g, prog.fns[g].params, env, bound, vals);
  }

  lemma FrameRuns(vm: Vm, p: nat, g: nat, params: seq<nat>, env: Env, bound: nat, vals: seq<int>)
    requires vm.status == Running && vm.ptr == p + 1 + |vals| <= |vm.data| && |params| <= |vals| < 256 && bound <= p
    requires g < |vm.functions| && g < |vm.scripts| && vm.functions[g].script == g && vm.functions[g].slink == 0
    requires var args := vm.scripts[g].args;
             && (args.Some? ==> args.value < |vm.symbols|)
             && ChainOfParameters(vm.symbols, Chain(vm.symbols, args), params)
             && Reads(vm, env, bound) && Apart(vm, env, Chain(vm.symbols, args))
    requires ArgsDenote(vm, env, p + 1, vals)
    requires vm.staticLink < |vm.scopes| && (vm.frame.Some? ==> vm.frame.value < |vm.frames|)
    ensures var vm' := MakeFrame(vm, |vals|, g);
            && vm' == vm.(data := vm'.data, frames := vm.frames + [NewFrame(vm, p, g, |vals|)], frame := Some(|vm.frames|),
                          scopes := vm.scopes + [Scope(vm.scripts[g].args, Some(0))],
                          symbols := Rebind(vm.symbols, Chain(vm.symbols, vm.scripts[g].args), 0, |vals|, |vm.scopes|))
            && ArgsBound(vm, vm.(data := vm'.data), p + 1, 0, |params|, vals)
  {
    var args, fr := vm.scripts[g].args, NewFrame(vm, p, g, |vals|);
    var chain := Chain(vm.symbols, args);
    var vm2 := vm.(frames := vm.frames + [fr], frame := Some(|vm.frames|), scopes := vm.scopes + [Scope(args, Some(0))]);
    ReadsUnderFrame(vm, vm2, env, bound, chain, fr, Scope(args, Some(0)));
    BindRuns(vm2, fr, args, 0, env, bound, chain, params, vals);
    var vm3 := BindArgsBinds(vm2, fr, args, 0);
  }

  function IndexOf(params: seq<nat>, a: nat): (r: Option<nat>)
    ensures r.Some? ==> r.value < |params| && params[r.value] == a
    ensures r == None <==> a !in params
  {
    if params == [] then None
    else if params[0] == a then Some(0)
    else
      var r := IndexOf(params[1..], a);
      if r.Some? then Some(r.value + 1) else None
  }

  lemma {:induction false} ParameterFound(symbols: seq<Symbol>, head: Option<nat>, params: seq<nat>, key: nat)
    requires head.Some? ==> head.value < |symbols|
    requires ChainOfParameters(symbols, Chain(symbols, head), params)
    ensures FindInList(symbols, head, key)
         == match IndexOf(params, key) case None => None case Some(k) => Some(Chain(symbols, head)[k])
    decreases if head.Some? then head.value + 1 else 0
  {
    if head.Some? {
      var chain, next := Chain(symbols, head), symbols[head.value].next;
      assert chain[0] == head.value && IsParameter(symbols, chain[0], params[0]);
      assert chain[1..] == Chain(symbols, next);
      forall k | 0 <= k < |chain| - 1
        ensures chain[1..][k] < |symbols| && IsParameter(symbols, chain[1..][k], params[1..][k])
      {
        assert IsParameter(symbols, chain[k + 1], params[k + 1]);
      }
      ParameterFound(symbols, next, params[1..], key);
    }
  }

  lemma {:induction false} ParameterValue(params: seq<nat>, vals: seq<int>, a: nat)
    requires |params| <= |vals| && a in params
    ensures BindParams(params, vals)[a] == vals[IndexOf(params, a).value]
    decreases params
  {
    if params[0] != a {
      ParameterValue(params[1..], vals[1..], a);
    }
  }

  /** The slots of the parameters. */
  function ArgumentSlots(params: seq<nat>, argv: nat): map<nat, nat> {
    map a | a in params :: argv + IndexOf(params, a).value
  }

  /** Rebinding is no more than that, and afterwards the parameters belong to the new scope. */
  lemma StartedSymbols(vm: Vm, vm': Vm, prog: Program, p: nat, g: nat, vals: seq<int>)
    requires Loaded(vm, prog) && g < |prog.fns| && |prog.fns[g].params| <= |vals| && Started(vm, vm', prog, p, g, vals)
    ensures Extends(vm.symbols, vm'.symbols)
    ensures var chain := Chain(vm.symbols, vm.scripts[g].args);
            && ChainOfParameters(vm'.symbols, chain, prog.fns[g].params)
            && Chain(vm'.symbols, vm.scripts[g].args) == chain
            && forall k :: 0 <= k < |chain| ==> vm'.symbols[chain[k]].scope == Some(|vm.scopes|) && vm'.symbols[chain[k]].slot == Some(k)
  {
    assert FnLoaded(vm, prog, g);
    var chain := Chain(vm.symbols, vm.scripts[g].args);
    ChainDescends(vm.symbols, vm.scripts[g].args);
    RebindFacts(vm.symbols, chain, 0, |vals|, |vm.scopes|);
    forall s | 0 <= s < |vm.symbols|
      ensures SameButBinding(vm.symbols[s], vm'.symbols[s])
    {
      if s in chain {
        var k :| 0 <= k < |chain| && chain[k] == s;
        assert IsParameter(vm.symbols, chain[k], prog.fns[g].params[k]);
      }
    }
    ChainStays(vm.symbols, vm'.symbols, vm.scripts[g].args);
    forall k | 0 <= k < |chain|
      ensures IsParameter(vm'.symbols, chain[k], prog.fns[g].params[k])
    {
      assert IsParameter(vm.symbols, chain[k], prog.fns[g].params[k]);
    }
  }

  lemma SlotsDiffer(params: seq<nat>, argv: nat)
    ensures var places := ArgumentSlots(params, argv);
            forall a, b :: a in params && b in params && a != b ==> places[a] != places[b]
  {
    forall a, b | a in params && b in params && a != b
      ensures IndexOf(params, a) != IndexOf(params, b)
    {}
  }

  /** The frame's parameters are bound to it, and its argument slots hold the numbers. */
  ghost predicate ParametersIn(vm: Vm, f: nat, params: seq<nat>, vals: seq<int>) {
    && f < |vm.frames| && vm.frames[f].scope < |vm.scopes| && vm.frames[f].fun < |vm.scripts| && |params| <= |vals|
    && var fr := vm.frames[f];
    var args := vm.scripts[fr.fun].args;
    var chain := Chain(vm.symbols, args);
    && vm.scopes[fr.scope].list == args && (args.Some? ==> args.value < |vm.symbols|)
    && fr.argv + |params| <= vm.ptr <= |vm.data|
    && ChainOfParameters(vm.symbols, chain, params)
    && (forall k :: 0 <= k < |chain| ==> vm.symbols[chain[k]].scope == Some(fr.scope) && vm.symbols[chain[k]].slot == Some(k))
    && forall k :: 0 <= k < |params| ==> IsNumber(vm.data[fr.argv + k], vals[k])
  }

  lemma StartedFrame(vm: Vm, vm': Vm, prog: Program, p: nat, g: nat, vals: seq<int>)
    requires g < |vm.scripts| && g < |prog.fns| && |prog.fns[g].params| <= |vals| && vm.ptr == p + 1 + |vals| <= |vm.data|
    requires Started(vm, vm', prog, p, g, vals)
    ensures var f, n := |vm.frames|, |vm.scopes|;
            && f < |vm'.frames| && vm'.frames[f] == NewFrame(vm, p, g, |vals|) && vm'.scripts == vm.scripts
            && n < |vm'.scopes| && vm'.scopes[n].list == vm.scripts[g].args && vm'.ptr == vm.ptr <= |vm'.data|
            && forall k :: 0 <= k < |prog.fns[g].params| ==> IsNumber(vm'.data[p + 1 + k], vals[k])
  {}

  lemma StartedParameters(vm: Vm, vm': Vm, prog: Program, p: nat, g: nat, vals: seq<int>)
    requires Loaded(vm, prog)
    requires g < |prog.fns| && |prog.fns[g].params| <= |vals| && vm.ptr == p + 1 + |vals| <= |vm.data|
    requires Started(vm, vm', prog, p, g, vals)
    ensures ParametersIn(vm', |vm.frames|, prog.fns[g].params, vals)
  {
    assert vm.scripts[g].args.Some? ==> vm.scripts[g].args.value < |vm.symbols| by {
      assert FnLoaded(vm, prog, g);
    }
    StartedSymbols(vm, vm', prog, p, g, vals);
    StartedFrame(vm, vm', prog, p, g, vals);
    hide Chain, Rebind, Loaded, Started, FnLoaded, ChainOfParameters, Extends;
    assert |vm'.symbols| >= |vm.symbols|;
  }

  lemma ParameterAt(symbols: seq<Symbol>, head: Option<nat>, params: seq<nat>, key: nat) returns (k: nat)
    requires (head.Some? ==> head.value < |symbols|) && key in params
    requires ChainOfParameters(symbols, Chain(symbols, head), params)
    ensures IndexOf(params, key) == Some(k) && k < |params| && FindInList(symbols, head, key) == Some(Chain(symbols, head)[k])
    ensures Chain(symbols, head)[k] in Chain(symbols, head) && IsParameter(symbols, Chain(symbols, head)[k], params[k])
  {
    ParameterFound(symbols, head, params, key);
    k := IndexOf(params, key).value;
  }

  /** Symbol s is a parameter bound to the frame's slot k, which holds v. */
  ghost predicate InSlot(vm: Vm, f: nat, s: nat, k: nat, v: int)
    requires f < |vm.frames| && vm.frames[f].fun < |vm.scripts|
  {
    && s < |vm.symbols| && s in Chain(vm.symbols, vm.scripts[vm.frames[f].fun].args)
    && var fr, sym := vm.frames[f], vm.symbols[s];
    && sym.kind == ARGUMENT && sym.value == None && sym.scope == Some(fr.scope) && sym.slot == Some(k)
    && fr.argv + k < vm.ptr <= |vm.data| && IsNumber(vm.data[fr.argv + k], v)
  }

  lemma ParameterSlot(vm: Vm, f: nat, params: seq<nat>, vals: seq<int>, a: nat) returns (s: nat, k: nat)
    requires ParametersIn(vm, f, params, vals) && a in params
    ensures IndexOf(params, a) == Some(k) && k < |vals| && InSlot(vm, f, s, k, vals[k])
    ensures FindInList(vm.symbols, vm.scopes[vm.frames[f].scope].list, a) == Some(s)
  {
    var args := vm.scripts[vm.frames[f].fun].args;
    k := ParameterAt(vm.symbols, args, params, a);
    s := Chain(vm.symbols, args)[k];
  }

  lemma SlotHolds(vm: Vm, f: nat, lenv: Env, places: map<nat, nat>, a: nat, s: nat, k: nat, v: int)
    requires f < |vm.frames| && vm.frames[f].scope < |vm.scopes| && vm.frames[f].fun < |vm.scripts| && InSlot(vm, f, s, k, v)
    requires FindInList(vm.symbols, vm.scopes[vm.frames[f].scope].list, a) == Some(s)
    requires a in lenv && lenv[a] == v && a in places && places[a] == vm.frames[f].argv + k
    ensures LocalHolds(vm, lenv, places, f, a)
  {}

  lemma ParameterHolds(vm: Vm, f: nat, params: seq<nat>, vals: seq<int>, a: nat)
    requires ParametersIn(vm, f, params, vals)
    ensures LocalHolds(vm, BindParams(params, vals), ArgumentSlots(params, vm.frames[f].argv), f, a)
  {
    if a in params {
      var s, k := ParameterSlot(vm, f, params, vals, a);
      ParameterValue(params, vals, a);
      SlotHolds(vm, f, BindParams(params, vals), ArgumentSlots(params, vm.frames[f].argv), a, s, k, vals[k]);
    } else {
      ParameterFound(vm.symbols, vm.scripts[vm.frames[f].fun].args, params, a);
    }
  }

  lemma StartedWorld(vm: Vm, vm': Vm, prog: Program, genv: Env, p: nat, g: nat, vals: seq<int>)
    requires vm.status == Running && Loaded(vm, prog) && GlobalsHold(vm, prog, genv)
    requires g < |prog.fns| && |prog.fns[g].params| <= |vals| && Started(vm, vm', prog, p, g, vals)
    ensures vm'.status == Running && Loaded(vm', prog) && GlobalsHold(vm', prog, genv)
  {
    StartedSymbols(vm, vm', prog, p, g, vals);
    LoadedExtend(vm, vm', prog);
    GlobalsExtend(vm, vm', prog, genv);
  }

  lemma StartedStands(vm: Vm, vm': Vm, prog: Program, genv: Env, p: nat, g: nat, vals: seq<int>)
    requires Loaded(vm, prog) && GlobalsHold(vm, prog, genv)
    requires g < |prog.fns| && |prog.fns[g].params| <= |vals| && vm.ptr == p + 1 + |vals| <= |vm.data|
    requires Started(vm, vm', prog, p, g, vals) && vm'.staticLink == |vm.scopes|
    ensures FrameStands(vm', |vm.frames|) && vm'.frames[|vm.frames|].argv == p + 1
  {
    assert FnLoaded(vm, prog, g);
    StartedSymbols(vm, vm', prog, p, g, vals);
  }

  lemma ParametersAreLocals(vm: Vm, n: nat, f: nat, params: seq<nat>, vals: seq<int>)
    requires ParametersIn(vm, f, params, vals)
    ensures forall a :: 0 <= a < n ==> LocalHolds(vm, BindParams(params, vals), ArgumentSlots(params, vm.frames[f].argv), f, a)
  {
    forall a | 0 <= a < n
      ensures LocalHolds(vm, BindParams(params, vals), ArgumentSlots(params, vm.frames[f].argv), f, a)
    {
      hide *;
      ParameterHolds(vm, f, params, vals, a);
    }
  }

  /** The callee starts with its parameters, and nothing else, as locals. */
  lemma CalleeStarts(vm: Vm, vm': Vm, prog: Program, genv: Env, p: nat, g: nat, vals: seq<int>)
    requires vm.status == Running && Loaded(vm, prog) && GlobalsHold(vm, prog, genv)
    requires g < |prog.fns| && |prog.fns[g].params| <= |vals| && vm.ptr == p + 1 + |vals| <= |vm.data|
    requires Started(vm, vm', prog, p, g, vals) && vm'.staticLink == |vm.scopes|
    ensures InBody(vm', prog, genv, BindParams(prog.fns[g].params, vals), ArgumentSlots(prog.fns[g].params, p + 1), |vm.frames|)
  {
    hide Loaded, GlobalsHold, LocalHolds, FrameStands, Started, ParametersIn;
    StartedWorld(vm, vm', prog, genv, p, g, vals);
    StartedStands(vm, vm', prog, genv, p, g, vals);
    StartedParameters(vm, vm', prog, p, g, vals);
    ParametersAreLocals(vm', |prog.atoms|, |vm.frames|, prog.fns[g].params, vals);
    SlotsDiffer(prog.fns[g].params, p + 1);
  }
}
