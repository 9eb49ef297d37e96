/** What `generateCode` sets up in a fresh context for a program. */
module VmSetup {
  import opened Chars
  import opened VmState
  import opened VmSemantics
  import opened VmEmit
  import opened VmProgram

  /** The size of every script's code buffer. */
  const CODE_LIMIT := 1000

  /** Symbols of the parameters added, the first one last: it heads their chain. */
  function AddParameters(symbols: seq<Symbol>, params: seq<nat>): (r: (seq<Symbol>, Option<nat>))
    ensures |r.0| == |symbols| + |params| && (r.1.Some? ==> r.1.value < |r.0|)
  {
    if params == [] then (symbols, None)
    else
      var (more, next) := AddParameters(symbols, params[1..]);
      (more + [Symbol(ARGUMENT, None, next, None, params[0], None)], Some(|more|))
  }

  predicate Emittable(prog: Program) {
    AllEncodable(GenMain(prog.main)) && forall i :: 0 <= i < |prog.fns| ==> AllEncodable(GenBody(prog.fns[i].body))
  }

  /** A function's script, its parameter symbols, and the property symbol it goes by in the outermost scope. */
  function LoadFn(vm: Vm, def: FnDef): Vm
    requires |vm.scopes| > 0 && AllEncodable(GenBody(def.body))
  {
    var (symbols, args) := AddParameters(vm.symbols, def.params);
    Declare(vm.(symbols := symbols,
                functions := vm.functions + [Function(def.name, |vm.scripts|, 0)],
                scripts := vm.scripts + [Script(def.table, args, Encode(GenBody(def.body)))]),
            Symbol(PROPERTY, None, None, Some(0), def.name, Some(FunctionRef(|vm.functions|))))
  }

  /** A fresh context of the given stack size with the functions loaded in order. */
  function Load(prog: Program, size: nat): (vm: Vm)
    requires Emittable(prog)
    ensures vm.status == Running && vm.staticLink == 0 && |vm.scopes| == 1 && |vm.data| == size && vm.ptr == 0
    decreases |prog.fns|
  {
    if prog.fns == [] then Vm(prog.atoms, [], [], [], [Scope(None, None)], [], seq(size, _ => Undef), 0, None, 0, Running)
    else LoadFn(Load(ButLast(prog), size), prog.fns[|prog.fns| - 1])
  }

  function ButLast(prog: Program): Program
    requires prog.fns != []
  {
    prog.(fns := prog.fns[..|prog.fns| - 1])
  }

  /** The state after the program has run from a fresh context. */
  function Final(prog: Program, size: nat, depth: nat): Vm
    requires Emittable(prog)
  {
    Interpret(Load(prog, size), depth, Script(prog.table, None, Encode(GenMain(prog.main))), 0, Undef).vm
  }
}
