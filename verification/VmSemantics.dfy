/** virtual-stack-machine.cpp as functions on the machine state. */
module VmSemantics {
  import opened Chars
  import opened VmState

  // ---------- names ----------

  /** The first symbol of a chain with the given key. */
  function FindInList(symbols: seq<Symbol>, s: Option<nat>, key: nat): (r: Option<nat>)
    ensures r.Some? ==> r.value < |symbols| && symbols[r.value].key == key
    decreases if s.Some? then s.value + 1 else 0
  {
    if s == None || s.value >= |symbols| then None
    else if symbols[s.value].key == key then s
    else
      var next := symbols[s.value].next;
      if next.Some? && next.value < s.value then FindInList(symbols, next, key) else None
  }

  /** `findSymbol`: the scope's own chain first, then its parent's. */
  function FindSymbol(symbols: seq<Symbol>, scopes: seq<Scope>, scope: Option<nat>, key: nat): (r: Option<nat>)
    ensures r.Some? ==> r.value < |symbols| && symbols[r.value].key == key
    decreases if scope.Some? then scope.value + 1 else 0
  {
    if scope == None || scope.value >= |scopes| then None
    else
      var here := FindInList(symbols, scopes[scope.value].list, key);
      if here.Some? then here
      else
        var parent := scopes[scope.value].parent;
        if parent.Some? && parent.value < scope.value then FindSymbol(symbols, scopes, parent, key) else None
  }

  /** The innermost active frame of a scope. */
  function FrameOf(frames: seq<Frame>, fp: Option<nat>, scope: Option<nat>): (r: Option<nat>)
    ensures r.Some? ==> r.value < |frames| && Some(frames[r.value].scope) == scope
    decreases if fp.Some? then fp.value + 1 else 0
  {
    if fp == None || fp.value >= |frames| then None
    else if Some(frames[fp.value].scope) == scope then fp
    else
      var down := frames[fp.value].down;
      if down.Some? && down.value < fp.value then FrameOf(frames, down, scope) else None
  }

  /** `resolveSymbol`: only a name that is in scope turns into its symbol. */
  function ResolveSymbol(vm: Vm, d: Datum): Datum {
    if d.AtomRef? && d.atom < |vm.atoms| && vm.atoms[d.atom].Name? then
      match FindSymbol(vm.symbols, vm.scopes, Some(vm.staticLink), d.atom)
      case Some(s) => SymbolRef(s)
      case None => d
    else d
  }

  /** Where the value of a symbol is kept. */
  datatype Place = Inline(d: Datum) | Slot(index: nat) | NoFrame | Null

  function PlaceOf(vm: Vm, s: nat): Place
    requires s < |vm.symbols|
  {
    var sym := vm.symbols[s];
    if sym.value.Some? then Inline(sym.value.value)
    else if sym.kind == PROPERTY then Null
    else
      match FrameOf(vm.frames, vm.frame, sym.scope)
      case None => NoFrame
      case Some(f) =>
        if sym.slot == None then Null
        else Slot((if sym.kind == ARGUMENT then vm.frames[f].argv else vm.frames[f].vars) + sym.slot.value)
  }

  function Primary(vm: Vm, d: Datum): Datum {
    if d.AtomRef? && d.atom < |vm.atoms| && vm.atoms[d.atom].Num? then Number(vm.atoms[d.atom].nval, Some(d.atom)) else d
  }

  /** What `resolveValue` makes of a datum; None is a null or wild pointer. */
  function Resolve(vm: Vm, d: Datum): Option<Datum> {
    var r := ResolveSymbol(vm, d);
    if r.SymbolRef? then
      if r.sym >= |vm.symbols| then None
      else
        match PlaceOf(vm, r.sym)
        case Inline(v) => Some(Primary(vm, v))
        case Slot(index) => if index < |vm.data| then Some(Primary(vm, vm.data[index])) else None
        case NoFrame => Some(r)
        case Null => None
    else Some(Primary(vm, r))
  }

  // ---------- the stack ----------

  function Fail(vm: Vm): Vm { vm.(status := Wrong) }

  function Store(vm: Vm, index: nat, d: Datum): Vm {
    if index < |vm.data| then vm.(data := vm.data[index := d]) else Fail(vm)
  }

  function Push(vm: Vm, d: Datum): Vm {
    if vm.ptr < |vm.data| then vm.(data := vm.data[vm.ptr := d], ptr := vm.ptr + 1) else Fail(vm)
  }

  /** `resolveValue` on a stack slot. */
  function ResolveAt(vm: Vm, index: nat): Vm {
    if index >= |vm.data| then Fail(vm)
    else
      match Resolve(vm, vm.data[index])
      case Some(d) => vm.(data := vm.data[index := d])
      case None => Fail(vm)
  }

  // ---------- instructions ----------

  function PushAtom(vm: Vm, script: Script, i: nat): Vm {
    if i < |script.atoms| then Push(vm, AtomRef(script.atoms[i])) else Fail(vm)
  }

  /** What ADD reads of an operand: the `nval` of a function is 0, that of a name is uninitialized. */
  function Operand(d: Datum): Option<int> {
    match d
    case Number(n, _) => Some(n)
    case FunctionRef(_) => Some(0)
    case _ => None
  }

  /** ADD pops both operands and pushes their sum. */
  function Add(vm: Vm): Vm {
    if vm.ptr < 2 || vm.ptr > |vm.data| then Fail(vm)
    else
      var vm1 := ResolveAt(vm, vm.ptr - 1);
      var vm2 := if vm1.status == Running then ResolveAt(vm1, vm.ptr - 2) else vm1;
      if vm2.status != Running then vm2
      else
        var l, r := Operand(vm2.data[vm.ptr - 1]), Operand(vm2.data[vm.ptr - 2]);
        if l.Some? && r.Some? then Push(vm2.(ptr := vm.ptr - 2), Number(l.value + r.value, None)) else Fail(vm2)
  }

  /** ASSIGN pops the target, which is resolved to a symbol, then the value, which is resolved to a value. */
  function PopTwo(vm: Vm): (r: Vm)
    requires 2 <= vm.ptr <= |vm.data|
    ensures |r.data| == |vm.data| && (r.status == Running ==> r.ptr == vm.ptr - 2)
  {
    var vm1 := ResolveAt(vm.(data := vm.data[vm.ptr - 1 := ResolveSymbol(vm, vm.data[vm.ptr - 1])]), vm.ptr - 2);
    if vm1.status == Running then vm1.(ptr := vm.ptr - 2) else vm1
  }

  function Assign(vm: Vm): Vm {
    if vm.ptr < 2 || vm.ptr > |vm.data| then Fail(vm)
    else
      var popped := PopTwo(vm);
      if popped.status != Running then popped
      else AssignTo(popped, popped.data[popped.ptr + 1], popped.data[popped.ptr])
  }

  /** A name that is no symbol yet becomes one; a symbol is overwritten where it keeps its value. */
  function AssignTo(vm: Vm, lval: Datum, rval: Datum): Vm {
    match lval
    case AtomRef(atom) =>
      if vm.frame == None then Declare(vm, Symbol(VARIABLE, None, None, Some(vm.staticLink), atom, Some(rval)))
      else if vm.frame.value >= |vm.frames| then Fail(vm)
      else
        // the value stays on the stack as the next local; slot is an 8-bit field
        var fp := vm.frames[vm.frame.value];
        var vm1 := Push(vm, rval);
        if vm1.status != Running then vm1
        else
          var vm2 := vm1.(frames := vm1.frames[vm.frame.value := fp.(nvars := fp.nvars + 1)]);
          Declare(vm2, Symbol(VARIABLE, Some(fp.nvars % 256), None, Some(vm.staticLink), atom, None))
    case SymbolRef(s) =>
      if s >= |vm.symbols| then Fail(vm)
      else if vm.symbols[s].kind == PROPERTY || vm.frame == None then
        vm.(symbols := vm.symbols[s := vm.symbols[s].(value := Some(rval))])
      else if vm.frame.value >= |vm.frames| || vm.symbols[s].slot == None then Fail(vm)
      else
        var fp := vm.frames[vm.frame.value];
        Store(vm, (if vm.symbols[s].kind == ARGUMENT then fp.argv else fp.vars) + vm.symbols[s].slot.value, rval)
    case _ => Fail(vm)
  }

  /** `pushSymbol`: the new symbol heads the chain of the current scope. */
  function Declare(vm: Vm, sym: Symbol): Vm {
    if vm.staticLink >= |vm.scopes| then Fail(vm)
    else
      var scope := vm.scopes[vm.staticLink];
      vm.(symbols := vm.symbols + [sym.(next := scope.list)],
          scopes := vm.scopes[vm.staticLink := scope.(list := Some(|vm.symbols|))])
  }

  /** CALL up to the call: resolve the function, make the frame, bind the arguments. */
  function Enter(vm: Vm, argc: nat): (r: Vm)
    ensures r.status == vm.status == Running ==> |r.frames| == |vm.frames| + 1
  {
    if vm.ptr < argc + 1 || vm.ptr > |vm.data| then Fail(vm)
    else
      var vm1 := ResolveAt(vm, vm.ptr - argc - 1);
      if vm1.status != Running then vm1
      else
        match vm1.data[vm.ptr - argc - 1]
        case FunctionRef(fun) =>
          if fun >= |vm.functions| || vm.functions[fun].script >= |vm.scripts| then Fail(vm1)
          else MakeFrame(vm1, argc, fun)
        case AtomRef(atom) => vm1.(status := Thrown(atom))
        case Number(_, Some(atom)) => vm1.(status := Thrown(atom))
        case SymbolRef(s) => if s < |vm1.symbols| then vm1.(status := Thrown(vm1.symbols[s].key)) else Fail(vm1)
        case _ => Fail(vm1)
  }

  function MakeFrame(vm: Vm, argc: nat, fun: nat): (r: Vm)
    requires argc <= vm.ptr && fun < |vm.functions| && vm.functions[fun].script < |vm.scripts|
    ensures |r.frames| == |vm.frames| + 1
  {
    var callee := vm.functions[fun];
    var args := vm.scripts[callee.script].args;
    var frame := Frame(argc, vm.ptr - argc, 0, vm.ptr, fun, vm.frame, |vm.scopes|);
    BindArgs(vm.(frames := vm.frames + [frame], frame := Some(|vm.frames|),
                 scopes := vm.scopes + [Scope(args, Some(callee.slink))]), frame, args, 0)
  }

  /** The parameter symbols in turn: the argument is resolved, the symbol bound to scope and slot. */
  function BindArgs(vm: Vm, frame: Frame, sym: Option<nat>, slot: nat): (r: Vm)
    ensures r.frames == vm.frames
    decreases if sym.Some? then sym.value + 1 else 0
  {
    if sym == None || slot >= frame.argc then vm
    else if sym.value >= |vm.symbols| then Fail(vm)
    else
      var vm1 := ResolveAt(vm, frame.argv + slot);
      if vm1.status != Running then vm1
      else
        var s := vm1.symbols[sym.value];
        var vm2 := vm1.(symbols := vm1.symbols[sym.value := s.(scope := Some(frame.scope), slot := Some(slot % 256))]);
        if s.next.Some? && s.next.value >= sym.value then Fail(vm2) else BindArgs(vm2, frame, s.next, slot + 1)
  }

  /** CALL after the call: the frame is taken down, the arguments dropped, a result pushed. */
  function Leave(vm: Vm, frame: Frame, result: Datum): Vm {
    var vm1 := vm.(frame := frame.down, ptr := frame.argv);
    if result == Undef then vm1 else Push(vm1, result)
  }

  // ---------- the loop ----------

  /** The machine and the datum `*result` a run leaves behind. */
  datatype Conf = Conf(vm: Vm, result: Datum)

  datatype Fetched = Fetched(instr: Instr, size: nat) | OutOfCode

  /** The instruction at pc; an operand beyond the code is uninitialized memory. */
  function Fetch(code: seq<byte>, pc: nat): (r: Fetched)
    requires pc < |code|
    ensures r.Fetched? ==> 0 < r.size <= 2 && pc + r.size <= |code|
  {
    var op := code[pc];
    if op == 2 then Fetched(ADD, 1)
    else if op == 3 then Fetched(ASSIGN, 1)
    else if op > 5 then Fetched(NOP, 1)
    else if pc + 1 >= |code| then OutOfCode
    else
      var operand := code[pc + 1];
      Fetched(if op == 0 then NUMBER(operand) else if op == 1 then NAME(operand)
              else if op == 4 then RETURN(operand) else CALL(operand), 2)
  }

  function Exec(vm: Vm, depth: nat, script: Script, instr: Instr, result: Datum): Conf
    decreases depth, 0, 0
  {
    match instr
    case NUMBER(i) => Conf(PushAtom(vm, script, i), result)
    case NAME(i) => Conf(PushAtom(vm, script, i), result)
    case ADD => Conf(Add(vm), result)
    case ASSIGN => Conf(Assign(vm), result)
    case NOP => Conf(vm, result)
    case RETURN(hasVal) =>
      if hasVal != 1 then Conf(vm, result)
      else if vm.ptr < 1 || vm.ptr > |vm.data| then Conf(Fail(vm), result)
      else
        var vm1 := ResolveAt(vm, vm.ptr - 1);
        if vm1.status != Running then Conf(vm1, result) else Conf(vm1.(ptr := vm.ptr - 1), vm1.data[vm.ptr - 1])
    case CALL(argc) =>
      var entered := Enter(vm, argc);
      if vm.status != Running || entered.status != Running then Conf(entered, result)
      else if depth == 0 then Conf(entered.(status := Overflow), result)
      else
        var frame := entered.frames[|vm.frames|];
        Returned(Interpret(entered, depth - 1, CalleeOf(entered, frame), frame.scope, Undef), frame, result)
  }

  /** CALL after the call, if it came back. */
  function Returned(done: Conf, frame: Frame, result: Datum): Conf {
    if done.vm.status != Running then Conf(done.vm, result) else Conf(Leave(done.vm, frame, done.result), result)
  }

  /** CALL in one piece. */
  lemma CallInOne(vm: Vm, depth: nat, below: nat, script: Script, argc: nat, result: Datum)
    requires vm.status == Running && Enter(vm, argc).status == Running && depth == below + 1
    ensures var entered := Enter(vm, argc);
            var frame := entered.frames[|vm.frames|];
            Exec(vm, depth, script, CALL(argc), result)
            == Returned(Interpret(entered, below, CalleeOf(entered, frame), frame.scope, Undef), frame, result)
  {}

  function CalleeOf(vm: Vm, frame: Frame): Script {
    if frame.fun < |vm.functions| && vm.functions[frame.fun].script < |vm.scripts|
    then vm.scripts[vm.functions[frame.fun].script] else Script([], None, [])
  }

  /** `codeInterpret`: the static link is set for the run and put back after it. */
  function Interpret(vm: Vm, depth: nat, script: Script, slink: nat, result: Datum): Conf
    decreases depth, |script.code| + 1, 1
  {
    var done := Run(vm.(staticLink := slink), depth, script, 0, result);
    if done.vm.status == Running then Conf(done.vm.(staticLink := vm.staticLink), done.result) else done
  }

  /** The fetch loop from pc on. */
  function Run(vm: Vm, depth: nat, script: Script, pc: nat, result: Datum): Conf
    decreases depth, if pc <= |script.code| then |script.code| - pc else 0, 1
  {
    if vm.status != Running || pc >= |script.code| then Conf(vm, result)
    else
      match Fetch(script.code, pc)
      case OutOfCode => Conf(Fail(vm), result)
      case Fetched(instr, size) =>
        var next := Exec(vm, depth, script, instr, result);
        Run(next.vm, depth, script, pc + size, next.result)
  }
}
