/** `main` for an arbitrary program: a fresh context, the code generated, the code interpreted. */
module VmMain {
  import opened Chars
  import opened VmState
  import P = VmProgram
  import E = VmEmit
  import U = VmSetup
  import L = VmLoading
  import R = VmRefinement
  import M = VmMachine
  import T = VmThrows

  /**
   The context holds, in the end, exactly the globals the evaluator gives the program, as far as
   the evaluator gives it any meaning and the two stacks are large enough; if it comes to the call
   of an undefined name instead, that name is what is thrown.
   */
  method RunProgram(prog: P.Program, stackSize: nat, depth: nat) returns (context: M.Context)
    requires U.Emittable(prog) && |E.Encode(P.GenMain(prog.main))| <= U.CODE_LIMIT
    requires forall i :: 0 <= i < |prog.fns| ==> |E.Encode(P.GenBody(prog.fns[i].body))| <= U.CODE_LIMIT
    ensures fresh(context) && context.State() == U.Final(prog, stackSize, depth)
    ensures var globals := P.EvalMain(prog, map[], prog.main);
            globals.Some? && stackSize >= |P.GenMain(prog.main)| + P.Room(prog.fns, P.AllFns(prog)) && depth >= |prog.fns| ==>
              && context.status == Running && context.staticLink == 0 && context.frame == None && |context.scopes| > 0
              && forall a :: 0 <= a < |prog.atoms| && P.FnIndex(prog.fns, a) == None ==>
                   R.GlobalNumber(context.State(), a) == if a in globals.value then Some(globals.value[a]) else None
    ensures var blamed := T.MainBlames(prog, map[], prog.main);
            blamed.Some? && stackSize >= |P.GenMain(prog.main)| + P.Room(prog.fns, P.AllFns(prog)) && depth >= |prog.fns| ==>
              context.status == Thrown(blamed.value)
  {
    context := new M.Context(stackSize);
    context.Load(prog);
    var code := M.EmitScript(P.GenMain(prog.main));
    var result := context.CodeInterpret(depth, Script(prog.table, None, code), context.staticLink, Undef);
    ghost var globals := P.EvalMain(prog, map[], prog.main);
    if globals.Some? && stackSize >= |P.GenMain(prog.main)| + P.Room(prog.fns, P.AllFns(prog)) && depth >= |prog.fns| {
      L.ProgramRuns(prog, stackSize, depth, globals.value);
      assert forall a :: R.GlobalNumber(context.State(), a) == L.FinalNumber(prog, stackSize, depth, a);
    }
    ghost var blamed := T.MainBlames(prog, map[], prog.main);
    if blamed.Some? && stackSize >= |P.GenMain(prog.main)| + P.Room(prog.fns, P.AllFns(prog)) && depth >= |prog.fns| {
      T.ProgramThrows(prog, stackSize, depth, blamed.value);
    }
  }
}
