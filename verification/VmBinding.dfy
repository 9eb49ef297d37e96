/**
 Parameter binding.  The parameter symbols of a script are shared by all its calls, so they serve
 one active frame at a time: through a run in which no call takes the parameters of an active
 frame, every active frame finds its own arguments under its parameter symbols.
 */
module VmBinding {
  import opened Chars
  import opened VmState
  import opened VmSemantics
  import opened VmRuns
  import Isolation = VmIsolation

  /** The symbols of a chain, head first. */
  function Chain(symbols: seq<Symbol>, s: Option<nat>): (r: seq<nat>)
    ensures forall i :: 0 <= i < |r| ==> r[i] < |symbols|
    ensures forall i :: 0 <= i < |r| ==> s.Some? && r[i] <= s.value
    decreases if s.Some? then s.value + 1 else 0
  {
    if s == None || s.value >= |symbols| then []
    else
      var next := symbols[s.value].next;
      [s.value] + if next.Some? && next.value < s.value then Chain(symbols, next) else []
  }

  /** The frames from fp down. */
  function Active(frames: seq<Frame>, fp: Option<nat>): (r: seq<nat>)
    ensures forall i :: 0 <= i < |r| ==> r[i] < |frames| && fp.Some? && r[i] <= fp.value
    decreases if fp.Some? then fp.value + 1 else 0
  {
    if fp == None || fp.value >= |frames| then []
    else
      var down := frames[fp.value].down;
      [fp.value] + if down.Some? && down.value < fp.value then Active(frames, down) else []
  }

  /** The script a frame runs. */
  function ScriptOf(vm: Vm, f: nat): nat
    requires f < |vm.frames| && vm.frames[f].fun < |vm.functions|
  {
    vm.functions[vm.frames[f].fun].script
  }

  function Params(vm: Vm, script: nat): seq<nat>
    requires script < |vm.scripts|
  {
    Chain(vm.symbols, vm.scripts[script].args)
  }

  // ---------- the shape every run keeps ----------

  ghost predicate GoodFrame(vm: Vm, f: nat) {
    f < |vm.frames| && vm.frames[f].fun < |vm.functions| && ScriptOf(vm, f) < |vm.scripts|
  }

  /**
   Links lead to older objects, each frame has a scope of its own, younger than those of the
   frames before it, and no symbol is a parameter of two scripts.
   */
  ghost predicate Sound(vm: Vm) {
    && (forall i :: 0 <= i < |vm.symbols| ==> vm.symbols[i].next.Some? ==> vm.symbols[i].next.value < i)
    && (forall i :: 0 <= i < |vm.scopes| ==> vm.scopes[i].list.Some? ==> vm.scopes[i].list.value < |vm.symbols|)
    && (forall i :: 0 <= i < |vm.scripts| ==> vm.scripts[i].args.Some? ==> vm.scripts[i].args.value < |vm.symbols|)
    && (forall i, j, s :: 0 <= i < j < |vm.scripts| && s in Params(vm, i) ==> s !in Params(vm, j))
    && (forall f :: 0 <= f < |vm.frames| ==>
          GoodFrame(vm, f) && vm.frames[f].scope < |vm.scopes|
          && (vm.frames[f].down.Some? ==> vm.frames[f].down.value < f))
    && (forall f, g :: 0 <= f < g < |vm.frames| ==> vm.frames[f].scope < vm.frames[g].scope)
    && (vm.frame.Some? ==> vm.frame.value < |vm.frames|)
  }

  /** A frame called with enough arguments owns all its parameter symbols. */
  ghost predicate Bound(vm: Vm, f: nat)
    requires GoodFrame(vm, f)
  {
    var params := Params(vm, ScriptOf(vm, f));
    |params| <= vm.frames[f].argc ==>
      forall i :: 0 <= i < |params| ==>
        vm.symbols[params[i]].scope == Some(vm.frames[f].scope) && vm.symbols[params[i]].slot == Some(i)
  }

  ghost predicate AllBound(vm: Vm)
    requires Sound(vm)
  {
    forall f :: f in Active(vm.frames, vm.frame) ==> Bound(vm, f)
  }

  // ---------- instructions other than CALL ----------

  /** Symbols may get new values and new ones may join; links, scopes and slots of the old ones stay. */
  ghost predicate Grows(vm: Vm, vm': Vm) {
    && vm'.scripts == vm.scripts && vm'.functions == vm.functions && vm'.frame == vm.frame
    && |vm.symbols| <= |vm'.symbols|
    && (forall i :: 0 <= i < |vm.symbols| ==> vm'.symbols[i] == vm.symbols[i].(value := vm'.symbols[i].value))
    && (forall i :: |vm.symbols| <= i < |vm'.symbols| ==> vm'.symbols[i].next.Some? ==> vm'.symbols[i].next.value < i)
    && |vm'.scopes| == |vm.scopes|
    && (forall i :: 0 <= i < |vm'.scopes| ==> vm'.scopes[i].list.Some? ==> vm'.scopes[i].list.value < |vm'.symbols|)
    && |vm'.frames| == |vm.frames|
    && (forall f :: 0 <= f < |vm.frames| ==> vm'.frames[f] == vm.frames[f].(nvars := vm'.frames[f].nvars))
  }

  lemma {:induction false} ChainStays(a: seq<Symbol>, b: seq<Symbol>, s: Option<nat>)
    requires |a| <= |b| && (s.Some? ==> s.value < |a|)
    requires forall i :: 0 <= i < |a| ==> b[i].next == a[i].next
    ensures Chain(b, s) == Chain(a, s)
    decreases if s.Some? then s.value + 1 else 0
  {
    if s.Some? {
      var next := a[s.value].next;
      if next.Some? && next.value < s.value {
        ChainStays(a, b, next);
      }
    }
  }

  lemma {:induction false} ActiveStays(a: seq<Frame>, b: seq<Frame>, fp: Option<nat>)
    requires |a| <= |b| && (fp.Some? ==> fp.value < |a|)
    requires forall i :: 0 <= i < |a| ==> b[i].down == a[i].down
    ensures Active(b, fp) == Active(a, fp)
    decreases if fp.Some? then fp.value + 1 else 0
  {
    if fp.Some? {
      var down := a[fp.value].down;
      if down.Some? && down.value < fp.value {
        ActiveStays(a, b, down);
      }
    }
  }

  lemma ParamsStay(vm: Vm, vm': Vm)
    requires Sound(vm) && vm'.scripts == vm.scripts && |vm.symbols| <= |vm'.symbols|
    requires forall i :: 0 <= i < |vm.symbols| ==> vm'.symbols[i].next == vm.symbols[i].next
    ensures forall i :: 0 <= i < |vm.scripts| ==> Params(vm', i) == Params(vm, i)
  {
    forall i | 0 <= i < |vm.scripts|
      ensures Params(vm', i) == Params(vm, i)
    {
      ChainStays(vm.symbols, vm'.symbols, vm.scripts[i].args);
    }
  }

  lemma GrowsSound(vm: Vm, vm': Vm)
    requires Sound(vm) && Grows(vm, vm')
    ensures Sound(vm')
  {
    ParamsStay(vm, vm');
  }

  lemma GrowsBound(vm: Vm, vm': Vm)
    requires Sound(vm) && Grows(vm, vm') && AllBound(vm)
    ensures Sound(vm') && AllBound(vm')
  {
    GrowsSound(vm, vm');
    ParamsStay(vm, vm');
    ActiveStays(vm.frames, vm'.frames, vm.frame);
    forall f | f in Active(vm'.frames, vm'.frame)
      ensures Bound(vm', f)
    {
      assert Bound(vm, f);
    }
  }

  lemma AssignToGrows(vm: Vm, lval: Datum, rval: Datum)
    requires Sound(vm)
    ensures AssignTo(vm, lval, rval).status == Running ==> Grows(vm, AssignTo(vm, lval, rval))
  {}

  /** The shape does not depend on the data stack. */
  lemma SoundOfData(vm: Vm, vm': Vm)
    requires Sound(vm) && vm' == vm.(data := vm'.data, ptr := vm'.ptr, status := vm'.status, staticLink := vm'.staticLink)
    ensures Sound(vm')
  {
    assert forall i :: 0 <= i < |vm.scripts| ==> Params(vm', i) == Params(vm, i);
  }

  lemma PopTwoData(vm: Vm)
    requires 2 <= vm.ptr <= |vm.data|
    ensures var vm' := PopTwo(vm); vm' == vm.(data := vm'.data, ptr := vm'.ptr, status := vm'.status)
  {}

  lemma AssignGrows(vm: Vm)
    requires Sound(vm)
    ensures Assign(vm).status == Running ==> Grows(vm, Assign(vm))
  {
    if 2 <= vm.ptr <= |vm.data| {
      var popped := PopTwo(vm);
      if popped.status == Running {
        PopTwoData(vm);
        SoundOfData(vm, popped);
        AssignToGrows(popped, popped.data[popped.ptr + 1], popped.data[popped.ptr]);
      }
    }
  }

  lemma ExecGrows(vm: Vm, depth: nat, script: Script, instr: Instr, result: Datum)
    requires Sound(vm) && !instr.CALL?
    ensures var vm' := Exec(vm, depth, script, instr, result).vm;
            vm'.status == Running ==> Grows(vm, vm')
  {
    hide Assign;
    if instr.ASSIGN? {
      AssignGrows(vm);
    }
  }

  // ---------- CALL ----------

  /** What CALL finds in the function slot, if it is a function with a script. */
  function Callee(vm: Vm, argc: nat): Option<nat> {
    if vm.ptr < argc + 1 || vm.ptr > |vm.data| then None
    else
      match Resolve(vm, vm.data[vm.ptr - argc - 1])
      case Some(FunctionRef(fun)) =>
        if fun < |vm.functions| && vm.functions[fun].script < |vm.scripts| then Some(fun) else None
      case _ => None
  }

  predicate Runs(vm: Vm, f: nat, script: nat) {
    f < |vm.frames| && vm.frames[f].fun < |vm.functions| && vm.functions[vm.frames[f].fun].script == script
  }

  /** The call would enter a script of which a frame is active. */
  predicate Reenters(vm: Vm, argc: nat) {
    match Callee(vm, argc)
    case None => false
    case Some(fun) => exists f :: f in Active(vm.frames, vm.frame) && Runs(vm, f, vm.functions[fun].script)
  }

  /** The chain's symbols bound to the scope at slot, slot + 1, ... as far as there are arguments. */
  function Rebind(a: seq<Symbol>, chain: seq<nat>, slot: nat, argc: nat, scope: nat): (b: seq<Symbol>)
    ensures |b| == |a|
    decreases chain
  {
    if chain == [] || slot >= argc || chain[0] >= |a| then a
    else Rebind(a[chain[0] := a[chain[0]].(scope := Some(scope), slot := Some(slot))], chain[1..], slot + 1, argc, scope)
  }

  /** What binding does to one symbol. */
  lemma {:induction false} RebindAt(a: seq<Symbol>, chain: seq<nat>, slot: nat, argc: nat, scope: nat, s: nat)
    requires s < |a| && forall i :: 0 <= i < |chain| ==> chain[i] < |a|
    requires forall i, j :: 0 <= i < j < |chain| ==> chain[i] != chain[j]
    ensures var b := Rebind(a, chain, slot, argc, scope);
            && (s !in chain ==> b[s] == a[s])
            && forall i :: 0 <= i < |chain| && chain[i] == s ==>
                 b[s] == if slot + i < argc then a[s].(scope := Some(scope), slot := Some(slot + i)) else a[s]
    decreases chain
  {
    if chain != [] && slot < argc {
      var head, rest := chain[0], chain[1..];
      var a' := a[head := a[head].(scope := Some(scope), slot := Some(slot))];
      RebindAt(a', rest, slot + 1, argc, scope, s);
      assert head !in rest;
      assert forall i :: 0 < i < |chain| ==> chain[i] == rest[i - 1];
    }
  }

  /** Binding changes scope and slot of the symbols it reaches, and nothing else. */
  lemma RebindFacts(a: seq<Symbol>, chain: seq<nat>, slot: nat, argc: nat, scope: nat)
    requires forall i :: 0 <= i < |chain| ==> chain[i] < |a|
    requires forall i, j :: 0 <= i < j < |chain| ==> chain[i] != chain[j]
    ensures var b := Rebind(a, chain, slot, argc, scope);
            && (forall i :: 0 <= i < |chain| && slot + i < argc ==>
                  b[chain[i]].scope == Some(scope) && b[chain[i]].slot == Some(slot + i))
            && (forall i :: 0 <= i < |chain| && slot + i >= argc ==> b[chain[i]] == a[chain[i]])
            && (forall s :: 0 <= s < |a| ==> b[s] == a[s].(scope := b[s].scope, slot := b[s].slot))
            && (forall s :: 0 <= s < |a| && s !in chain ==> b[s] == a[s])
  {
    hide Rebind;
    var b := Rebind(a, chain, slot, argc, scope);
    forall s | 0 <= s < |a|
      ensures b[s] == a[s].(scope := b[s].scope, slot := b[s].slot) && (s !in chain ==> b[s] == a[s])
    {
      RebindAt(a, chain, slot, argc, scope, s);
    }
    forall i | 0 <= i < |chain|
      ensures b[chain[i]] == if slot + i < argc then a[chain[i]].(scope := Some(scope), slot := Some(slot + i)) else a[chain[i]]
    {
      RebindAt(a, chain, slot, argc, scope, chain[i]);
    }
  }

  /** The symbols of a chain are all different, each older than the one before. */
  lemma {:induction false} ChainDescends(symbols: seq<Symbol>, s: Option<nat>)
    ensures forall i, j :: 0 <= i < j < |Chain(symbols, s)| ==> Chain(symbols, s)[i] > Chain(symbols, s)[j]
    decreases if s.Some? then s.value + 1 else 0
  {
    if s.Some? && s.value < |symbols| {
      var next := symbols[s.value].next;
      if next.Some? && next.value < s.value {
        ChainDescends(symbols, next);
      }
    }
  }

  lemma RebindStep(a: seq<Symbol>, a': seq<Symbol>, b: seq<Symbol>, sym: nat, slot: nat, argc: nat, scope: nat)
    requires sym < |a| && slot < argc && (a[sym].next.Some? ==> a[sym].next.value < sym)
    requires a' == a[sym := a[sym].(scope := Some(scope), slot := Some(slot))]
    requires b == Rebind(a', Chain(a', a[sym].next), slot + 1, argc, scope)
    ensures b == Rebind(a, Chain(a, Some(sym)), slot, argc, scope)
  {
    ChainStays(a, a', a[sym].next);
    assert Chain(a, Some(sym))[1..] == Chain(a, a[sym].next);
  }

  lemma NothingBinds(vm: Vm, frame: Frame, sym: Option<nat>, slot: nat)
    requires sym == None || slot >= frame.argc
    ensures BindArgs(vm, frame, sym, slot) == vm
    ensures Rebind(vm.symbols, Chain(vm.symbols, sym), slot, frame.argc, frame.scope) == vm.symbols
  {}

  /** The binding loop: the parameters it reaches are bound in turn, nothing else of a symbol changes. */
  lemma {:induction false} BindArgsBinds(vm: Vm, frame: Frame, sym: Option<nat>, slot: nat) returns (vm': Vm)
    requires vm.status == Running && (sym.Some? ==> sym.value < |vm.symbols|) && frame.argc < 256
    ensures vm' == BindArgs(vm, frame, sym, slot)
    ensures vm'.status == Running ==>
              vm'.symbols == Rebind(vm.symbols, Chain(vm.symbols, sym), slot, frame.argc, frame.scope)
    decreases if sym.Some? then sym.value + 1 else 0
  {
    hide *;
    if sym == None || slot >= frame.argc {
      NothingBinds(vm, frame, sym, slot);
      vm' := vm;
    } else {
      var s, vm1 := sym.value, ResolveAt(vm, frame.argv + slot);
      var next := vm.symbols[s].next;
      if vm1.status == Running && (next.Some? ==> next.value < s) {
        var symbols := vm.symbols[s := vm.symbols[s].(scope := Some(frame.scope), slot := Some(slot))];
        BindArgsStep(vm, vm1, vm1.(symbols := symbols), frame, s, slot);
        vm' := BindArgsBinds(vm1.(symbols := symbols), frame, next, slot + 1);
        if vm'.status == Running {
          RebindStep(vm.symbols, symbols, vm'.symbols, s, slot, frame.argc, frame.scope);
        }
      } else {
        BindArgsFails(vm, frame, s, slot);
        vm' := BindArgs(vm, frame, sym, slot);
      }
    }
  }

  lemma BindArgsFails(vm: Vm, frame: Frame, sym: nat, slot: nat)
    requires sym < |vm.symbols| && slot < frame.argc
    requires ResolveAt(vm, frame.argv + slot).status != Running || (vm.symbols[sym].next.Some? && vm.symbols[sym].next.value >= sym)
    ensures BindArgs(vm, frame, Some(sym), slot).status != Running
  {}

  lemma BindArgsStep(vm: Vm, vm1: Vm, vm2: Vm, frame: Frame, sym: nat, slot: nat)
    requires sym < |vm.symbols| && slot < frame.argc < 256
    requires vm1 == ResolveAt(vm, frame.argv + slot) && vm1.status == Running
    requires var s := vm.symbols[sym];
             && (s.next.Some? ==> s.next.value < sym)
             && vm2 == vm1.(symbols := vm.symbols[sym := s.(scope := Some(frame.scope), slot := Some(slot))])
    ensures BindArgs(vm, frame, Some(sym), slot) == BindArgs(vm2, frame, vm.symbols[sym].next, slot + 1)
  {
    assert slot % 256 == slot && vm1.symbols == vm.symbols;
  }

  /** A call that is entered: a new frame on top, and the callee's parameters bound to it. */
  ghost predicate Entered(vm: Vm, vm': Vm, argc: nat, fun: nat) {
    && fun < |vm.functions| && vm.functions[fun].script < |vm.scripts| && argc <= vm.ptr
    && vm'.scripts == vm.scripts && vm'.functions == vm.functions
    && vm'.frames == vm.frames + [Frame(argc, vm.ptr - argc, 0, vm.ptr, fun, vm.frame, |vm.scopes|)]
    && vm'.frame == Some(|vm.frames|)
    && vm'.scopes == vm.scopes + [Scope(vm.scripts[vm.functions[fun].script].args, Some(vm.functions[fun].slink))]
    && vm'.symbols == Rebind(vm.symbols, Params(vm, vm.functions[fun].script), 0, argc, |vm.scopes|)
  }

  lemma EnterEntered(vm: Vm, argc: nat)
    requires Sound(vm) && vm.status == Running && argc < 256 && Enter(vm, argc).status == Running
    ensures Callee(vm, argc).Some? && Entered(vm, Enter(vm, argc), argc, Callee(vm, argc).value)
  {
    EnterInParts(vm, argc, Callee(vm, argc).value);
  }

  lemma EnterInParts(vm: Vm, argc: nat, fun: nat)
    requires vm.status == Running && argc < 256 && Enter(vm, argc).status == Running && Callee(vm, argc) == Some(fun)
    requires var args := vm.scripts[vm.functions[fun].script].args; args.Some? ==> args.value < |vm.symbols|
    ensures Entered(vm, Enter(vm, argc), argc, fun)
  {
    var vm1 := ResolveAt(vm, vm.ptr - argc - 1);
    var args := vm.scripts[vm.functions[fun].script].args;
    var frame := Frame(argc, vm.ptr - argc, 0, vm.ptr, fun, vm.frame, |vm.scopes|);
    var vm2 := vm1.(frames := vm1.frames + [frame], frame := Some(|vm.frames|),
                    scopes := vm1.scopes + [Scope(args, Some(vm.functions[fun].slink))]);
    assert Enter(vm, argc) == BindArgs(vm2, frame, args, 0);
    var vm3 := BindArgsBinds(vm2, frame, args, 0);
    Isolation.BindKeeps(vm2, frame, args, 0);
  }

  lemma EnteredSymbols(vm: Vm, vm': Vm, argc: nat, fun: nat)
    requires Sound(vm) && Entered(vm, vm', argc, fun)
    ensures var params := Params(vm, vm.functions[fun].script);
            && |vm'.symbols| == |vm.symbols|
            && (forall i :: 0 <= i < |params| && i < argc ==>
                  vm'.symbols[params[i]].scope == Some(|vm.scopes|) && vm'.symbols[params[i]].slot == Some(i))
            && (forall i :: 0 <= i < |params| && i >= argc ==> vm'.symbols[params[i]] == vm.symbols[params[i]])
            && (forall s :: 0 <= s < |vm.symbols| ==> vm'.symbols[s].next == vm.symbols[s].next)
            && (forall s :: 0 <= s < |vm.symbols| && s !in params ==> vm'.symbols[s] == vm.symbols[s])
  {
    ChainDescends(vm.symbols, vm.scripts[vm.functions[fun].script].args);
    RebindFacts(vm.symbols, Params(vm, vm.functions[fun].script), 0, argc, |vm.scopes|);
  }

  lemma EnteredSound(vm: Vm, vm': Vm, argc: nat, fun: nat)
    requires Sound(vm) && Entered(vm, vm', argc, fun)
    ensures Sound(vm')
    ensures forall i :: 0 <= i < |vm.scripts| ==> Params(vm', i) == Params(vm, i)
    ensures Active(vm'.frames, vm'.frame) == [|vm.frames|] + Active(vm.frames, vm.frame)
  {
    EnteredSymbols(vm, vm', argc, fun);
    ParamsStay(vm, vm');
    ActiveStays(vm.frames, vm'.frames, vm.frame);
    forall f | 0 <= f < |vm'.frames|
      ensures GoodFrame(vm', f) && vm'.frames[f].scope < |vm'.scopes|
              && (vm'.frames[f].down.Some? ==> vm'.frames[f].down.value < f)
    {
      if f < |vm.frames| {
        assert GoodFrame(vm, f) && vm'.frames[f] == vm.frames[f];
      }
    }
  }

  /** Some active frame of the callee's script owns parameters that the call takes away from it. */
  ghost predicate Dispossesses(vm: Vm, argc: nat, fun: nat)
    requires Sound(vm) && fun < |vm.functions| && vm.functions[fun].script < |vm.scripts|
  {
    var params := Params(vm, vm.functions[fun].script);
    && params != [] && argc > 0
    && exists f :: f in Active(vm.frames, vm.frame)
                   && ScriptOf(vm, f) == vm.functions[fun].script && |params| <= vm.frames[f].argc
  }

  /**
   A call leaves all active frames, its own included, with their parameters if and only if it
   does not take those of an older frame of the same script.
   */
  lemma EnterBoundIff(vm: Vm, vm': Vm, argc: nat, fun: nat)
    requires Sound(vm) && AllBound(vm) && Entered(vm, vm', argc, fun)
    ensures Sound(vm')
    ensures AllBound(vm') <==> !Dispossesses(vm, argc, fun)
    ensures Dispossesses(vm, argc, fun) ==> exists f :: f in Active(vm.frames, vm.frame) && Runs(vm, f, vm.functions[fun].script)
  {
    EnteredSymbols(vm, vm', argc, fun);
    EnteredSound(vm, vm', argc, fun);
    if Dispossesses(vm, argc, fun) {
      TakenAway(vm, vm', argc, fun);
    } else {
      forall f | f in Active(vm'.frames, vm'.frame)
        ensures Bound(vm', f)
      {
        if f != |vm.frames| {
          StaysBound(vm, vm', argc, fun, f);
        }
      }
    }
  }

  lemma TakenAway(vm: Vm, vm': Vm, argc: nat, fun: nat)
    requires Sound(vm) && Entered(vm, vm', argc, fun) && Dispossesses(vm, argc, fun) && Sound(vm')
    ensures !AllBound(vm')
  {
    EnteredSymbols(vm, vm', argc, fun);
    EnteredSound(vm, vm', argc, fun);
    var script := vm.functions[fun].script;
    var params := Params(vm, script);
    var f :| f in Active(vm.frames, vm.frame) && ScriptOf(vm, f) == script && |params| <= vm.frames[f].argc;
    assert vm'.symbols[params[0]].scope == Some(|vm.scopes|);
    assert vm'.frames[f] == vm.frames[f] && vm.frames[f].scope < |vm.scopes|;
    assert !Bound(vm', f);
    assert f in [|vm.frames|] + Active(vm.frames, vm.frame);
  }

  lemma StaysBound(vm: Vm, vm': Vm, argc: nat, fun: nat, f: nat)
    requires Sound(vm) && AllBound(vm) && Entered(vm, vm', argc, fun) && Sound(vm')
    requires f in Active(vm.frames, vm.frame) && !Dispossesses(vm, argc, fun)
    ensures Bound(vm', f)
  {
    EnteredSymbols(vm, vm', argc, fun);
    EnteredSound(vm, vm', argc, fun);
    var script := vm.functions[fun].script;
    assert Bound(vm, f) && vm'.frames[f] == vm.frames[f];
    if ScriptOf(vm, f) != script {
      OtherParams(vm, ScriptOf(vm, f), script);
    }
  }

  lemma OtherParams(vm: Vm, i: nat, j: nat)
    requires Sound(vm) && i < |vm.scripts| && j < |vm.scripts| && i != j
    ensures forall s :: s in Params(vm, i) ==> s !in Params(vm, j)
  {
    if j < i {
      assert forall s :: s in Params(vm, j) ==> s !in Params(vm, i);
    }
  }

  // ---------- whole runs ----------

  ghost predicate Good(vm: Vm) { Sound(vm) && AllBound(vm) }

  /** The call is entered and takes the parameters of an active frame. */
  ghost predicate Takes(vm: Vm, argc: nat) {
    && Sound(vm) && Enter(vm, argc).status == Running && Callee(vm, argc).Some?
    && Dispossesses(vm, argc, Callee(vm, argc).value)
  }

  /** Only a call that reenters a script takes parameters. */
  lemma TakesReenters(vm: Vm, argc: nat)
    requires Takes(vm, argc)
    ensures Reenters(vm, argc)
  {
    var script := vm.functions[Callee(vm, argc).value].script;
    var f :| f in Active(vm.frames, vm.frame) && ScriptOf(vm, f) == script && |Params(vm, script)| <= vm.frames[f].argc;
    assert Runs(vm, f, script);
  }

  /** A visited state in which no call is about to take parameters. */
  ghost predicate Fair(v: Visit) { v.instr.CALL? ==> !Takes(v.vm, v.instr.argc) }

  /** What is left of a state when a run comes back: the code, the frame link and the frames. */
  ghost predicate Back(vm: Vm, vm': Vm) {
    && vm'.scripts == vm.scripts && vm'.functions == vm.functions && vm'.frame == vm.frame
    && |vm.frames| <= |vm'.frames| && |vm.symbols| <= |vm'.symbols|
    && (forall f :: 0 <= f < |vm.frames| ==> vm'.frames[f] == vm.frames[f].(nvars := vm'.frames[f].nvars))
    && (forall i :: 0 <= i < |vm.symbols| ==> vm'.symbols[i].next == vm.symbols[i].next)
  }

  lemma BackTrans(a: Vm, b: Vm, c: Vm)
    requires Back(a, b) && Back(b, c)
    ensures Back(a, c)
  {
    forall f | 0 <= f < |a.frames|
      ensures c.frames[f] == a.frames[f].(nvars := c.frames[f].nvars)
    {
      assert b.frames[f] == a.frames[f].(nvars := b.frames[f].nvars);
      assert c.frames[f] == b.frames[f].(nvars := c.frames[f].nvars);
    }
  }

  // The same as values: what is claimed of them is then not taken apart where it is only passed on.
  ghost const ENTERED: (Vm, Vm, nat, nat) -> bool := (a: Vm, b: Vm, argc: nat, fun: nat) => Entered(a, b, argc, fun)
  ghost const GOOD: Vm -> bool := (vm: Vm) => Good(vm)
  ghost const BACK: (Vm, Vm) -> bool := (a: Vm, b: Vm) => Back(a, b)
  ghost const FAIR: Visit -> bool := (v: Visit) => Fair(v)

  ghost const STEADY: nat -> bool := (depth: nat) => Steady(GOOD, BACK, FAIR, depth)
  ghost const ALL_FAIR: seq<Visit> -> bool := (visits: seq<Visit>) => AllFair(FAIR, visits)

  lemma BackIsPreorder()
    ensures IsPreorder(BACK)
  {
    forall a, b, c | BACK(a, b) && BACK(b, c)
      ensures BACK(a, c)
    {
      BackTrans(a, b, c);
    }
  }

  lemma RunsKeep(vm: Vm, depth: nat, script: Script, pc: nat, result: Datum)
    requires STEADY(depth) && vm.status == Running && GOOD(vm)
    requires ALL_FAIR(Visited(vm, depth, script, pc, result))
    ensures Kept(GOOD, BACK, vm, Run(vm, depth, script, pc, result).vm, Visited(vm, depth, script, pc, result))
  {
    BackIsPreorder();
    RunInduction(GOOD, BACK, FAIR, vm, depth, script, pc, result);
  }

  /** Every instruction keeps every active frame's parameters, CALL by way of the runs one level deeper. */
  lemma {:induction false} AllDepthsSteady(depth: nat)
    ensures STEADY(depth)
  {
    var below: nat := if depth == 0 then 0 else depth - 1;
    if depth > 0 {
      AllDepthsSteady(below);
    }
    forall vm: Vm, script: Script, instr: Instr, result: Datum
      ensures Starts(GOOD, vm, instr) && AllFair(FAIR, VisitedBy(vm, depth, instr)) ==>
                Kept(GOOD, BACK, vm, Exec(vm, depth, script, instr, result).vm, VisitedBy(vm, depth, instr))
    {
      AnyStep(vm, depth, below, script, instr, result);
    }
  }

  lemma AnyStep(vm: Vm, depth: nat, below: nat, script: Script, instr: Instr, result: Datum)
    requires depth == 0 || (depth == below + 1 && STEADY(below))
    ensures Starts(GOOD, vm, instr) && AllFair(FAIR, VisitedBy(vm, depth, instr)) ==>
              Kept(GOOD, BACK, vm, Exec(vm, depth, script, instr, result).vm, VisitedBy(vm, depth, instr))
  {
    if Starts(GOOD, vm, instr) && AllFair(FAIR, VisitedBy(vm, depth, instr)) {
      if instr.CALL? {
        CallStep(vm, depth, below, script, instr.argc, result);
      } else {
        PlainStep(vm, depth, script, instr, result);
      }
    }
  }

  lemma PlainStep(vm: Vm, depth: nat, script: Script, instr: Instr, result: Datum)
    requires Starts(GOOD, vm, instr) && !instr.CALL?
    ensures Kept(GOOD, BACK, vm, Exec(vm, depth, script, instr, result).vm, VisitedBy(vm, depth, instr))
  {
    assert VisitedBy(vm, depth, instr) == [Visit(vm, instr)];
    ExecGrows(vm, depth, script, instr, result);
    if Exec(vm, depth, script, instr, result).vm.status == Running {
      GrowsBound(vm, Exec(vm, depth, script, instr, result).vm);
    }
  }

  lemma CallStep(vm: Vm, depth: nat, below: nat, script: Script, argc: nat, result: Datum)
    requires depth == 0 || (depth == below + 1 && STEADY(below))
    requires Starts(GOOD, vm, CALL(argc)) && ALL_FAIR(VisitedBy(vm, depth, CALL(argc)))
    ensures Kept(GOOD, BACK, vm, Exec(vm, depth, script, CALL(argc), result).vm, VisitedBy(vm, depth, CALL(argc)))
  {
    var first := Visit(vm, CALL(argc));
    FairParts([first], VisitedInCall(vm, depth, argc));
    assert FAIR(first) by {
      assert first in [first];
    }
    var left, inside := CallOrNot(vm, depth, below, script, argc, result);
    KeptWithFirst(vm, first, inside, left);
  }

  lemma CallOrNot(vm: Vm, depth: nat, below: nat, script: Script, argc: nat, result: Datum) returns (left: Vm, inside: seq<Visit>)
    requires depth == 0 || (depth == below + 1 && STEADY(below))
    requires vm.status == Running && GOOD(vm) && argc < 256 && !Takes(vm, argc) && ALL_FAIR(VisitedInCall(vm, depth, argc))
    ensures left == Exec(vm, depth, script, CALL(argc), result).vm && inside == VisitedInCall(vm, depth, argc)
    ensures Kept(GOOD, BACK, vm, left, inside)
  {
    hide *;
    if Enter(vm, argc).status == Running && depth > 0 {
      left, inside := CallInside(vm, below, script, argc, result);
    } else {
      NotCalled(vm, depth, script, argc, result);
      left, inside := Exec(vm, depth, script, CALL(argc), result).vm, [];
    }
  }

  lemma NotCalled(vm: Vm, depth: nat, script: Script, argc: nat, result: Datum)
    requires vm.status == Running && (Enter(vm, argc).status != Running || depth == 0)
    ensures VisitedInCall(vm, depth, argc) == []
    ensures Kept(GOOD, BACK, vm, Exec(vm, depth, script, CALL(argc), result).vm, [])
  {}

  lemma KeptWithFirst(vm: Vm, first: Visit, inside: seq<Visit>, left: Vm)
    requires GOOD(vm) && first.vm == vm && Kept(GOOD, BACK, vm, left, inside)
    ensures Kept(GOOD, BACK, vm, left, [first] + inside)
  {}

  lemma FairParts(a: seq<Visit>, b: seq<Visit>)
    ensures ALL_FAIR(a + b) <==> ALL_FAIR(a) && ALL_FAIR(b)
  {
    assert forall v :: v in a + b <==> v in a || v in b;
  }

  lemma CallInside(vm: Vm, depth: nat, script: Script, argc: nat, result: Datum) returns (left: Vm, inside: seq<Visit>)
    requires STEADY(depth)
    requires vm.status == Running && GOOD(vm) && argc < 256 && !Takes(vm, argc) && Enter(vm, argc).status == Running
    requires ALL_FAIR(VisitedInCall(vm, depth + 1, argc))
    ensures left == Exec(vm, depth + 1, script, CALL(argc), result).vm && inside == VisitedInCall(vm, depth + 1, argc)
    ensures Kept(GOOD, BACK, vm, left, inside)
  {
    var inner, fun, callee;
    inner, fun, callee, left, inside := CallParts(vm, depth + 1, depth, script, argc, result);
    InsideKeeps(vm, inner, argc, fun, callee, depth, left, inside);
  }

  /** A call in parts: the state it enters, the states visited there, the state it leaves. */
  ghost predicate Parts(vm: Vm, inner: Vm, argc: nat, fun: nat, callee: Script, depth: nat, left: Vm, inside: seq<Visit>) {
    && GOOD(inner) && inner.status == Running && ENTERED(vm, inner, argc, fun)
    && inside == Visited(inner, depth, callee, 0, Undef)
    && left == Lowered(Run(inner, depth, callee, 0, Undef).vm, left, vm.frame)
  }

  lemma CallParts(vm: Vm, depth: nat, below: nat, script: Script, argc: nat, result: Datum)
    returns (inner: Vm, fun: nat, callee: Script, left: Vm, inside: seq<Visit>)
    requires depth == below + 1
    requires vm.status == Running && GOOD(vm) && argc < 256 && !Takes(vm, argc) && Enter(vm, argc).status == Running
    ensures left == Exec(vm, depth, script, CALL(argc), result).vm && inside == VisitedInCall(vm, depth, argc)
    ensures Parts(vm, inner, argc, fun, callee, below, left, inside)
  {
    EnterBinds(vm, argc);
    fun := Callee(vm, argc).value;
    inner, callee, left, inside := CallUnfolds(vm, depth, below, script, argc, result);
  }

  /** The run of the callee, seen from the caller. */
  lemma InsideKeeps(vm: Vm, inner: Vm, argc: nat, fun: nat, callee: Script, depth: nat, left: Vm, inside: seq<Visit>)
    requires STEADY(depth) && GOOD(vm) && ALL_FAIR(inside)
    requires Parts(vm, inner, argc, fun, callee, depth, left, inside)
    ensures Kept(GOOD, BACK, vm, left, inside)
  {
    RunsKeep(inner, depth, callee, 0, Undef);
    if Run(inner, depth, callee, 0, Undef).vm.status == Running {
      TakeDown(vm, inner, Run(inner, depth, callee, 0, Undef).vm, argc, fun, left);
    }
  }

  /** done with the frame link set and the data stack of left; a run that failed stays as it is. */
  function Lowered(done: Vm, left: Vm, frame: Option<nat>): Vm {
    if done.status == Running
    then done.(frame := frame, data := left.data, ptr := left.ptr, status := left.status, staticLink := left.staticLink)
    else done
  }

  /** The state in which the callee's first instruction is fetched. */
  function Inner(vm: Vm, argc: nat): Vm
    requires vm.status == Running && Enter(vm, argc).status == Running
  {
    Enter(vm, argc).(staticLink := Enter(vm, argc).frames[|vm.frames|].scope)
  }

  lemma VisitedInOne(vm: Vm, depth: nat, below: nat, argc: nat)
    requires vm.status == Running && Enter(vm, argc).status == Running && depth == below + 1
    ensures var entered := Enter(vm, argc);
            var frame := entered.frames[|vm.frames|];
            VisitedInCall(vm, depth, argc) == Visited(entered.(staticLink := frame.scope), below, CalleeOf(entered, frame), 0, Undef)
  {
    hide Enter, Visited, CalleeOf;
  }

  lemma CallUnfolds(vm: Vm, depth: nat, below: nat, script: Script, argc: nat, result: Datum)
    returns (inner: Vm, callee: Script, left: Vm, inside: seq<Visit>)
    requires vm.status == Running && Enter(vm, argc).status == Running && depth == below + 1
    ensures inner == Inner(vm, argc) && left == Exec(vm, depth, script, CALL(argc), result).vm
    ensures callee == CalleeOf(Enter(vm, argc), Enter(vm, argc).frames[|vm.frames|])
    ensures inside == VisitedInCall(vm, depth, argc) == Visited(inner, below, callee, 0, Undef)
    ensures left == Lowered(Run(inner, below, callee, 0, Undef).vm, left, Enter(vm, argc).frames[|vm.frames|].down)
  {
    inner := Inner(vm, argc);
    callee := CalleeOf(Enter(vm, argc), Enter(vm, argc).frames[|vm.frames|]);
    left, inside := Exec(vm, depth, script, CALL(argc), result).vm, VisitedInCall(vm, depth, argc);
    VisitedInOne(vm, depth, below, argc);
    CallInOne(vm, depth, below, script, argc, result);
    hide Exec, VisitedInCall, Visited, Run, Enter;
  }

  lemma EnterBinds(vm: Vm, argc: nat)
    requires vm.status == Running && GOOD(vm) && argc < 256 && !Takes(vm, argc)
    requires Enter(vm, argc).status == Running
    ensures Callee(vm, argc).Some? && ENTERED(vm, Inner(vm, argc), argc, Callee(vm, argc).value)
    ensures GOOD(Inner(vm, argc)) && Inner(vm, argc).status == Running
  {
    var entered := Enter(vm, argc);
    EnterEntered(vm, argc);
    EnterBoundIff(vm, entered, argc, Callee(vm, argc).value);
    BoundOfData(entered, Inner(vm, argc));
  }

  lemma BoundOfData(vm: Vm, vm': Vm)
    requires Sound(vm) && AllBound(vm)
    requires vm' == vm.(data := vm'.data, ptr := vm'.ptr, status := vm'.status, staticLink := vm'.staticLink)
    ensures Sound(vm') && AllBound(vm')
  {
    SoundOfData(vm, vm');
    forall f | f in Active(vm'.frames, vm'.frame)
      ensures Bound(vm', f)
    {
      assert Bound(vm, f);
    }
  }

  /** Without the callee's frame on top the program is still sound, and the frames under it still own their parameters. */
  lemma FrameDown(done: Vm, lowered: Vm)
    requires GOOD(done) && done.frame.Some? && done.frame.value < |done.frames|
    requires lowered == done.(frame := done.frames[done.frame.value].down)
    ensures Sound(lowered) && AllBound(lowered)
  {
    assert Sound(lowered) by {
      assert forall i :: 0 <= i < |done.scripts| ==> Params(lowered, i) == Params(done, i);
      assert forall f :: 0 <= f < |done.frames| ==> GoodFrame(done, f) ==> GoodFrame(lowered, f);
    }
    forall f | f in Active(lowered.frames, lowered.frame)
      ensures Bound(lowered, f)
    {
      assert f in [done.frame.value] + Active(done.frames, lowered.frame);
      assert Bound(done, f);
    }
  }

  /** The callee's frame is taken down again: the frames under it keep what they own. */
  lemma TakeDown(vm: Vm, inner: Vm, done: Vm, argc: nat, fun: nat, left: Vm)
    requires GOOD(vm) && Entered(vm, inner, argc, fun) && GOOD(done) && BACK(inner, done)
    requires left == done.(frame := vm.frame, data := left.data, ptr := left.ptr, status := left.status, staticLink := left.staticLink)
    ensures GOOD(left) && BACK(vm, left)
  {
    var fid := |vm.frames|;
    EnteredSymbols(vm, inner, argc, fun);
    assert done.frames[fid] == inner.frames[fid].(nvars := done.frames[fid].nvars);
    assert done.frames[fid].down == vm.frame;
    var lowered := done.(frame := vm.frame);
    FrameDown(done, lowered);
    BoundOfData(lowered, left);
    hide Sound, AllBound, Active;
    forall f | 0 <= f < |vm.frames|
      ensures left.frames[f] == vm.frames[f].(nvars := left.frames[f].nvars)
    {
      assert inner.frames[f] == vm.frames[f];
    }
  }

  /**
   Through a run in which no call takes the parameters of an active frame, in every state it visits,
   at any depth of calls, every active frame called with enough arguments owns its parameters.
   The parameter chain of no script has become longer or shorter at its end.
   */
  lemma ParametersStayBound(vm: Vm, depth: nat, script: Script, result: Datum)
    requires vm.status == Running && Sound(vm) && AllBound(vm)
    requires forall v :: v in Visited(vm, depth, script, 0, result) ==> Fair(v)
    ensures forall v :: v in Visited(vm, depth, script, 0, result) ==> Sound(v.vm) && AllBound(v.vm)
    ensures var vm' := Run(vm, depth, script, 0, result).vm;
            vm'.status == Running ==>
              && Sound(vm') && AllBound(vm') && vm'.scripts == vm.scripts
              && forall i :: 0 <= i < |vm.scripts| ==> Params(vm', i) == Params(vm, i)
  {
    AllDepthsSteady(depth);
    assert ALL_FAIR(Visited(vm, depth, script, 0, result));
    RunsKeep(vm, depth, script, 0, result);
    assert forall v :: v in Visited(vm, depth, script, 0, result) ==> GOOD(v.vm);
    var vm' := Run(vm, depth, script, 0, result).vm;
    if vm'.status == Running {
      ParamsStay(vm, vm');
    }
  }

  /**
   What a bound parameter is worth: as long as the symbol has no value of its own, its resolution
   from any frame above is the frame's own argument.
   */
  lemma ParameterReadsArgument(vm: Vm, f: nat, i: nat)
    requires Sound(vm) && AllBound(vm) && f in Active(vm.frames, vm.frame)
    requires var params := Params(vm, ScriptOf(vm, f));
             && i < |params| <= vm.frames[f].argc
             && vm.symbols[params[i]].kind == ARGUMENT && vm.symbols[params[i]].value == None
    ensures var params := Params(vm, ScriptOf(vm, f));
            var index := vm.frames[f].argv + i;
            index < |vm.data| ==> Resolve(vm, SymbolRef(params[i])) == Some(Primary(vm, vm.data[index]))
  {
    assert Bound(vm, f);
    FrameFound(vm, vm.frame, f);
    BoundReads(vm, f, Params(vm, ScriptOf(vm, f))[i], i);
  }

  lemma BoundReads(vm: Vm, f: nat, s: nat, i: nat)
    requires f < |vm.frames| && FrameOf(vm.frames, vm.frame, Some(vm.frames[f].scope)) == Some(f)
    requires s < |vm.symbols| && vm.symbols[s].kind == ARGUMENT && vm.symbols[s].value == None
    requires vm.symbols[s].scope == Some(vm.frames[f].scope) && vm.symbols[s].slot == Some(i)
    ensures var index := vm.frames[f].argv + i;
            index < |vm.data| ==> Resolve(vm, SymbolRef(s)) == Some(Primary(vm, vm.data[index]))
  {}

  lemma {:induction false} FrameFound(vm: Vm, fp: Option<nat>, f: nat)
    requires Sound(vm) && (fp.Some? ==> fp.value < |vm.frames|) && f in Active(vm.frames, fp)
    ensures FrameOf(vm.frames, fp, Some(vm.frames[f].scope)) == Some(f)
    decreases if fp.Some? then fp.value + 1 else 0
  {
    if fp.value != f {
      var down := vm.frames[fp.value].down;
      assert f in [fp.value] + if down.Some? && down.value < fp.value then Active(vm.frames, down) else [];
      FrameFound(vm, down, f);
    }
  }
}
