/**
 virtual-stack-machine.cpp as it runs: a context whose stack, symbols, scopes and frames are
 updated in place, and `codeInterpret` with its loop and its calls to itself.  Every method is
 tied to the function of VmSemantics on the state before it.
 */
module VmMachine {
  import opened Chars
  import opened VmState
  import S = VmSemantics
  import P = VmProgram
  import E = VmEmit
  import U = VmSetup

  class Context {
    var atoms: seq<Atom>
    var scripts: seq<Script>
    var functions: seq<Function>
    var symbols: seq<Symbol>
    var scopes: seq<Scope>
    var frames: seq<Frame>
    const data: array<Datum>  // the stack from its base on
    var ptr: nat
    var frame: Option<nat>
    var staticLink: nat
    var status: Status

    ghost function State(): Vm
      reads this, data
    {
      Vm(atoms, scripts, functions, symbols, scopes, frames, data[..], ptr, frame, staticLink, status)
    }

    /** `Context(stackSize)`: an empty stack and one scope without a parent. */
    constructor (stackSize: nat)
      ensures fresh(data) && data.Length == stackSize
      ensures State() == Vm([], [], [], [], [Scope(None, None)], [], seq(stackSize, _ => Undef), 0, None, 0, Running)
    {
      atoms, scripts, functions, symbols, scopes, frames := [], [], [], [], [Scope(None, None)], [];
      data := new Datum[stackSize](_ => Undef);
      ptr, frame, staticLink, status := 0, None, 0, Running;
      new;
      assert data[..] == seq(stackSize, _ => Undef);
    }

    /** `findSymbol`: one chain is walked by the loop, the parents by the outer one. */
    method FindSymbol(scope: Option<nat>, key: nat) returns (r: Option<nat>)
      ensures r == S.FindSymbol(symbols, scopes, scope, key)
    {
      var at: Option<nat> := scope;
      while at.Some? && at.value < |scopes|
        invariant S.FindSymbol(symbols, scopes, scope, key) == S.FindSymbol(symbols, scopes, at, key)
        decreases if at.Some? then at.value + 1 else 0
      {
        var sym: Option<nat> := scopes[at.value].list;
        ghost var list := sym;
        while sym.Some? && sym.value < |symbols|
          invariant S.FindInList(symbols, list, key) == S.FindInList(symbols, sym, key)
          decreases if sym.Some? then sym.value + 1 else 0
        {
          if symbols[sym.value].key == key {
            return sym;
          }
          var next := symbols[sym.value].next;
          sym := if next.Some? && next.value < sym.value then next else None;
        }
        var parent := scopes[at.value].parent;
        at := if parent.Some? && parent.value < at.value then parent else None;
      }
      return None;
    }

    /** `resolveSymbol` on a datum. */
    method ResolveSymbol(d: Datum) returns (r: Datum)
      ensures r == S.ResolveSymbol(State(), d)
    {
      r := d;
      if d.AtomRef? && d.atom < |atoms| && atoms[d.atom].Name? {
        var sym := FindSymbol(Some(staticLink), d.atom);
        if sym.Some? {
          r := SymbolRef(sym.value);
        }
      }
    }

    method FrameOf(scope: Option<nat>) returns (r: Option<nat>)
      ensures r == S.FrameOf(frames, frame, scope)
    {
      r := frame;
      while r.Some? && r.value < |frames| && Some(frames[r.value].scope) != scope
        invariant S.FrameOf(frames, frame, scope) == S.FrameOf(frames, r, scope)
        decreases if r.Some? then r.value + 1 else 0
      {
        var down := frames[r.value].down;
        r := if down.Some? && down.value < r.value then down else None;
      }
      if r.Some? && r.value >= |frames| {
        r := None;
      }
    }

    /** `resolveValue` on a datum; None is a null or wild pointer. */
    method Resolve(d: Datum) returns (r: Option<Datum>)
      ensures r == S.Resolve(State(), d)
    {
      var sym := ResolveSymbol(d);
      if !sym.SymbolRef? {
        return Some(Primary(sym));
      }
      if sym.sym >= |symbols| {
        return None;
      }
      var symbol := symbols[sym.sym];
      if symbol.value.Some? {
        return Some(Primary(symbol.value.value));
      }
      if symbol.kind == PROPERTY {
        return None;
      }
      var target := FrameOf(symbol.scope);
      if target == None {
        return Some(sym);
      }
      if symbol.slot == None {
        return None;
      }
      var index := (if symbol.kind == ARGUMENT then frames[target.value].argv else frames[target.value].vars) + symbol.slot.value;
      if index >= data.Length {
        return None;
      }
      return Some(Primary(data[index]));
    }

    function Primary(d: Datum): (r: Datum)
      reads this, data
      ensures r == S.Primary(State(), d)
    {
      if d.AtomRef? && d.atom < |atoms| && atoms[d.atom].Num? then Number(atoms[d.atom].nval, Some(d.atom)) else d
    }

    method ResolveAt(index: nat)
      modifies this`status, data
      ensures State() == S.ResolveAt(old(State()), index)
    {
      if index >= data.Length {
        status := Wrong;
        return;
      }
      var d := Resolve(data[index]);
      if d.Some? {
        data[index] := d.value;
      } else {
        status := Wrong;
      }
    }

    /** `pushDatum`, `pushAtom` and `pushNumber`: the datum is copied into the slot. */
    method Push(d: Datum)
      modifies this`status, this`ptr, data
      ensures State() == S.Push(old(State()), d)
    {
      if ptr < data.Length {
        data[ptr] := d;
        ptr := ptr + 1;
      } else {
        status := Wrong;
      }
    }

    method PushAtom(script: Script, i: nat)
      modifies this`status, this`ptr, data
      ensures State() == S.PushAtom(old(State()), script, i)
    {
      if i < |script.atoms| {
        Push(AtomRef(script.atoms[i]));
      } else {
        status := Wrong;
      }
    }

    method Add()
      requires status == Running
      modifies this`status, this`ptr, data
      ensures State() == S.Add(old(State()))
    {
      hide S.ResolveAt, S.Resolve;
      if ptr < 2 || ptr > data.Length {
        status := Wrong;
        return;
      }
      ResolveAt(ptr - 1);
      if status != Running {
        return;
      }
      ResolveAt(ptr - 2);
      if status != Running {
        return;
      }
      var l, r := S.Operand(data[ptr - 1]), S.Operand(data[ptr - 2]);
      if l.Some? && r.Some? {
        ptr := ptr - 2;
        Push(Number(l.value + r.value, None));
      } else {
        status := Wrong;
      }
    }

    method Declare(sym: Symbol)
      modifies this`symbols, this`scopes, this`status
      ensures State() == S.Declare(old(State()), sym)
    {
      if staticLink >= |scopes| {
        status := Wrong;
        return;
      }
      var next := scopes[staticLink].list;
      scopes := scopes[staticLink := scopes[staticLink].(list := Some(|symbols|))];
      symbols := symbols + [sym.(next := next)];
    }

    method AssignTo(lval: Datum, rval: Datum)
      requires status == Running
      modifies this, data
      ensures State() == S.AssignTo(old(State()), lval, rval)
    {
      match lval
      case AtomRef(atom) =>
        if frame == None {
          Declare(Symbol(VARIABLE, None, None, Some(staticLink), atom, Some(rval)));
        } else if frame.value >= |frames| {
          status := Wrong;
        } else {
          Push(rval);
          if status == Running {
            var slot := frames[frame.value].nvars;
            frames := frames[frame.value := frames[frame.value].(nvars := slot + 1)];
            Declare(Symbol(VARIABLE, Some(slot % 256), None, Some(staticLink), atom, None));
          }
        }
      case SymbolRef(s) =>
        if s >= |symbols| {
          status := Wrong;
        } else if symbols[s].kind == PROPERTY || frame == None {
          symbols := symbols[s := symbols[s].(value := Some(rval))];
        } else if frame.value >= |frames| || symbols[s].slot == None {
          status := Wrong;
        } else {
          var fp := frames[frame.value];
          var index := (if symbols[s].kind == ARGUMENT then fp.argv else fp.vars) + symbols[s].slot.value;
          if index < data.Length {
            data[index] := rval;
          } else {
            status := Wrong;
          }
        }
      case _ =>
        status := Wrong;
    }

    method Assign()
      requires status == Running
      modifies this, data
      ensures State() == S.Assign(old(State()))
    {
      if ptr < 2 || ptr > data.Length {
        status := Wrong;
        return;
      }
      PopTwo();
      if status == Running {
        AssignTo(data[ptr + 1], data[ptr]);
      }
    }

    /** The two pops of ASSIGN: what is popped stays readable above the stack pointer. */
    method PopTwo()
      requires status == Running && 2 <= ptr <= data.Length
      modifies this`status, this`ptr, data
      ensures State() == S.PopTwo(old(State()))
    {
      ghost var vm := State();
      var lval := ResolveSymbol(data[ptr - 1]);
      data[ptr - 1] := lval;
      assert State() == vm.(data := vm.data[vm.ptr - 1 := lval]);
      ResolveAt(ptr - 2);
      if status == Running {
        ptr := ptr - 2;
      }
    }

    /** The loop over the parameter symbols of a call. */
    method BindArgs(frame: Frame, list: Option<nat>)
      requires status == Running
      modifies this`status, this`symbols, data
      ensures State() == S.BindArgs(old(State()), frame, list, 0)
    {
      var sym: Option<nat>, slot: nat := list, 0;
      while sym.Some? && slot < frame.argc
        invariant S.BindArgs(old(State()), frame, list, 0) == S.BindArgs(State(), frame, sym, slot)
        invariant status == Running
        decreases if sym.Some? then sym.value + 1 else 0
      {
        if sym.value >= |symbols| {
          status := Wrong;
          return;
        }
        ResolveAt(frame.argv + slot);
        if status != Running {
          return;
        }
        var s := symbols[sym.value];
        symbols := symbols[sym.value := s.(scope := Some(frame.scope), slot := Some(slot % 256))];
        if s.next.Some? && s.next.value >= sym.value {
          status := Wrong;
          return;
        }
        sym, slot := s.next, slot + 1;
      }
    }

    /** CALL up to the call. */
    method Enter(argc: nat)
      requires status == Running
      modifies this, data
      ensures State() == S.Enter(old(State()), argc)
    {
      hide S.MakeFrame, S.ResolveAt, S.Resolve;
      if ptr < argc + 1 || ptr > data.Length {
        status := Wrong;
        return;
      }
      ResolveAt(ptr - argc - 1);
      if status != Running {
        return;
      }
      ghost var vm1 := State();
      match data[ptr - argc - 1]
      case FunctionRef(fun) =>
        if fun >= |functions| || functions[fun].script >= |scripts| {
          status := Wrong;
        } else {
          MakeFrame(argc, fun);
        }
      case AtomRef(atom) =>
        status := Thrown(atom);
      case Number(_, Some(atom)) =>
        status := Thrown(atom);
      case SymbolRef(s) =>
        status := if s < |symbols| then Thrown(symbols[s].key) else Wrong;
      case _ =>
        status := Wrong;
    }

    /** The new frame, its scope, and the parameters bound in it. */
    method MakeFrame(argc: nat, fun: nat)
      requires status == Running && argc <= ptr && fun < |functions| && functions[fun].script < |scripts|
      modifies this, data
      ensures State() == S.MakeFrame(old(State()), argc, fun)
    {
      var args := scripts[functions[fun].script].args;
      var fp := Frame(argc, ptr - argc, 0, ptr, fun, frame, |scopes|);
      frame := Some(|frames|);
      frames := frames + [fp];
      scopes := scopes + [Scope(args, Some(functions[fun].slink))];
      BindArgs(fp, args);
    }

    method Leave(frame: Frame, result: Datum)
      requires status == Running
      modifies this, data
      ensures State() == S.Leave(old(State()), frame, result)
    {
      this.frame := frame.down;
      ptr := frame.argv;
      if result != Undef {
        Push(result);
      }
    }

    /** One instruction. */
    method Exec(depth: nat, script: Script, instr: Instr, result: Datum) returns (r: Datum)
      requires status == Running
      modifies this, data
      ensures S.Conf(State(), r) == S.Exec(old(State()), depth, script, instr, result)
      decreases depth, 1
    {
      r := result;
      match instr
      case NUMBER(i) => PushAtom(script, i);
      case NAME(i) => PushAtom(script, i);
      case ADD => Add();
      case ASSIGN => Assign();
      case NOP =>
      case RETURN(hasVal) =>
        if hasVal != 1 {
        } else if ptr < 1 || ptr > data.Length {
          status := Wrong;
        } else {
          ResolveAt(ptr - 1);
          if status == Running {
            ptr := ptr - 1;
            r := data[ptr];
          }
        }
      case CALL(argc) =>
        r := Call(depth, argc, result);
    }

    method Call(depth: nat, argc: nat, result: Datum) returns (r: Datum)
      requires status == Running
      modifies this, data
      ensures S.Conf(State(), r) == S.Exec(old(State()), depth, Script([], None, []), CALL(argc), result)
      decreases depth, 0
    {
      r := result;
      ghost var vm := State();
      var fid := |frames|;
      Enter(argc);
      if status != Running {
        return;
      }
      if depth == 0 {
        status := Overflow;
        return;
      }
      S.CallInOne(vm, depth, depth - 1, Script([], None, []), argc, result);
      var fp := frames[fid];
      var callee := if fp.fun < |functions| && functions[fp.fun].script < |scripts|
                    then scripts[functions[fp.fun].script] else Script([], None, []);
      ghost var whole := S.Exec(vm, depth, Script([], None, []), CALL(argc), result);
      assert whole == S.Returned(S.Interpret(State(), depth - 1, callee, fp.scope, Undef), fp, result);
      var value := CodeInterpret(depth - 1, callee, fp.scope, Undef);
      assert whole == S.Returned(S.Conf(State(), value), fp, result);
      if status == Running {
        Leave(fp, value);
      }
    }

    /** `codeInterpret`; `depth` is how often it can still call itself on the native stack. */
    method CodeInterpret(depth: nat, script: Script, slink: nat, result: Datum) returns (r: Datum)
      requires status == Running
      modifies this, data
      ensures S.Conf(State(), r) == S.Interpret(old(State()), depth, script, slink, result)
      decreases depth, 2
    {
      var ptr, end := 0, |script.code|;
      var oldslink := staticLink;
      staticLink := slink;
      r := result;
      while ptr < end
        invariant 0 <= ptr <= end && status == Running
        invariant S.Run(old(State()).(staticLink := slink), depth, script, 0, result)
               == S.Run(State(), depth, script, ptr, r)
      {
        var fetched := S.Fetch(script.code, ptr);
        if fetched.OutOfCode? {
          status := Wrong;
          return;
        }
        r := Exec(depth, script, fetched.instr, r);
        if status != Running {
          return;
        }
        ptr := ptr + fetched.size;
      }
      staticLink := oldslink;
    }

    // ---------- generateCode ----------

    /** The symbols of a script's parameters, chained with the first one at the head. */
    method AddParameters(params: seq<nat>) returns (args: Option<nat>)
      modifies this`symbols
      ensures (symbols, args) == U.AddParameters(old(symbols), params)
    {
      args := None;
      var i := |params|;
      assert params[i..] == [];
      while i > 0
        invariant 0 <= i <= |params|
        invariant (symbols, args) == U.AddParameters(old(symbols), params[i..])
      {
        i := i - 1;
        assert params[i..][1..] == params[i + 1..];
        var sym := Symbol(ARGUMENT, None, args, None, params[i], None);
        args := Some(|symbols|);
        symbols := symbols + [sym];
      }
      assert params[0..] == params;
    }

    /** One function: its code is emitted, its parameters and its own property symbol are made. */
    method LoadFn(def: P.FnDef)
      requires |scopes| > 0 && E.AllEncodable(P.GenBody(def.body)) && |E.Encode(P.GenBody(def.body))| <= U.CODE_LIMIT
      modifies this
      ensures State() == U.LoadFn(old(State()), def)
    {
      var code := EmitScript(P.GenBody(def.body));
      var args := AddParameters(def.params);
      var fund := FunctionRef(|functions|);
      functions := functions + [Function(def.name, |scripts|, 0)];
      scripts := scripts + [Script(def.table, args, code)];
      Declare(Symbol(PROPERTY, None, None, Some(0), def.name, Some(fund)));
    }

    /** All functions of a program, in order, into a fresh context. */
    method Load(prog: P.Program)
      requires U.Emittable(prog)
      requires forall i :: 0 <= i < |prog.fns| ==> |E.Encode(P.GenBody(prog.fns[i].body))| <= U.CODE_LIMIT
      requires State() == Vm([], [], [], [], [Scope(None, None)], [], seq(data.Length, _ => Undef), 0, None, 0, Running)
      modifies this
      ensures State() == U.Load(prog, data.Length)
    {
      hide U.LoadFn, U.AddParameters;
      atoms := prog.atoms;
      var i := 0;
      while i < |prog.fns|
        invariant 0 <= i <= |prog.fns| && U.Emittable(prog.(fns := prog.fns[..i]))
        invariant State() == U.Load(prog.(fns := prog.fns[..i]), data.Length)
      {
        ghost var more := prog.(fns := prog.fns[..i + 1]);
        assert U.ButLast(more) == prog.(fns := prog.fns[..i]);
        LoadFn(prog.fns[i]);
        i := i + 1;
      }
      assert prog.fns[..i] == prog.fns;
    }
  }

  /** Code emitted into a new script. */
  method EmitScript(instrs: seq<Instr>) returns (code: seq<byte>)
    requires E.AllEncodable(instrs) && |E.Encode(instrs)| <= U.CODE_LIMIT
    ensures code == E.Encode(instrs)
  {
    var script := new E.ScriptBuffer(U.CODE_LIMIT);
    script.EmitAll(instrs);
    code := script.code[..script.length];
  }
}
