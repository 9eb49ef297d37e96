/**
 The programs the code generator is for, the instructions it emits for them, and what they mean.
 Literals and names are indices into a script's table of atoms.
 */
module VmProgram {
  import opened Chars
  import opened VmState

  datatype Expr = Lit(i: nat) | Var(i: nat) | Plus(l: Expr, r: Expr)

  /** A function body: local assignments, then one return of an expression or of a call. */
  datatype Let = Let(target: nat, e: Expr)

  datatype Ret = Value(e: Expr) | Tail(fun: nat, args: seq<Expr>)

  datatype Body = Body(lets: seq<Let>, ret: Ret)

  datatype FnDef = FnDef(name: nat, table: seq<nat>, params: seq<nat>, body: Body)

  /** A top-level statement: x = e or x = f(e1, ..., en). */
  datatype Top = Assign(target: nat, e: Expr) | Call(target: nat, fun: nat, args: seq<Expr>)

  datatype Program = Program(atoms: seq<Atom>, fns: seq<FnDef>, table: seq<nat>, main: seq<Top>)

  // ---------- code ----------

  function GenExpr(e: Expr): (r: seq<Instr>)
    ensures |r| > 0
  {
    match e
    case Lit(i) => [NUMBER(i)]
    case Var(i) => [NAME(i)]
    case Plus(l, r) => GenExpr(l) + GenExpr(r) + [ADD]
  }

  function GenArgs(args: seq<Expr>): (r: seq<Instr>)
    ensures |r| >= |args|
  {
    if args == [] then [] else GenExpr(args[0]) + GenArgs(args[1..])
  }

  function GenCall(fun: nat, args: seq<Expr>): seq<Instr> {
    [NAME(fun)] + (GenArgs(args) + [CALL(|args|)])
  }

  function GenStore(target: nat): seq<Instr> { [NAME(target), ASSIGN] }

  function GenLets(lets: seq<Let>): seq<Instr> {
    if lets == [] then [] else (GenExpr(lets[0].e) + GenStore(lets[0].target)) + GenLets(lets[1..])
  }

  function GenRet(ret: Ret): seq<Instr> {
    (if ret.Value? then GenExpr(ret.e) else GenCall(ret.fun, ret.args)) + [RETURN(1)]
  }

  function GenBody(body: Body): seq<Instr> { GenLets(body.lets) + GenRet(body.ret) }

  function GenTopValue(top: Top): seq<Instr> {
    if top.Assign? then GenExpr(top.e) else GenCall(top.fun, top.args)
  }

  function GenTop(top: Top): seq<Instr> { GenTopValue(top) + GenStore(top.target) }

  function GenMain(main: seq<Top>): seq<Instr> {
    if main == [] then [] else GenTop(main[0]) + GenMain(main[1..])
  }

  // ---------- meaning ----------

  /** The numbers of the names in scope; names are atoms. */
  type Env = map<nat, int>

  /** The atom behind index i of a table, if it is a name. */
  function NameAt(atoms: seq<Atom>, table: seq<nat>, i: nat): (r: Option<nat>)
    ensures r.Some? ==> i < |table| && r.value == table[i] < |atoms| && atoms[r.value].Name?
  {
    if i < |table| && table[i] < |atoms| && atoms[table[i]].Name? then Some(table[i]) else None
  }

  function EvalExpr(atoms: seq<Atom>, table: seq<nat>, env: Env, e: Expr): Option<int> {
    match e
    case Lit(i) =>
      if i < |table| && table[i] < |atoms| && atoms[table[i]].Num? then Some(atoms[table[i]].nval) else None
    case Var(i) =>
      var a := NameAt(atoms, table, i);
      if a.Some? && a.value in env then Some(env[a.value]) else None
    case Plus(l, r) =>
      var x, y := EvalExpr(atoms, table, env, l), EvalExpr(atoms, table, env, r);
      if x.Some? && y.Some? then Some(x.value + y.value) else None
  }

  function EvalArgs(atoms: seq<Atom>, table: seq<nat>, env: Env, args: seq<Expr>): (r: Option<seq<int>>)
    ensures r.Some? ==> |r.value| == |args|
  {
    if args == [] then Some([])
    else
      var x, rest := EvalExpr(atoms, table, env, args[0]), EvalArgs(atoms, table, env, args[1..]);
      if x.Some? && rest.Some? then Some([x.value] + rest.value) else None
  }

  /** The function of a name. */
  function FnIndex(fns: seq<FnDef>, name: nat): (r: Option<nat>)
    ensures r.Some? ==> r.value < |fns| && fns[r.value].name == name
    ensures r == None ==> forall i :: 0 <= i < |fns| ==> fns[i].name != name
  {
    if fns == [] then None
    else if fns[|fns| - 1].name == name then Some(|fns| - 1)
    else FnIndex(fns[..|fns| - 1], name)
  }

  /** Parameters get the arguments in order; of two parameters with one name the first counts. */
  function BindParams(params: seq<nat>, vals: seq<int>): (env: Env)
    requires |params| <= |vals|
    ensures forall a :: a in env <==> a in params
  {
    if params == [] then map[] else BindParams(params[1..], vals[1..])[params[0] := vals[0]]
  }

  /** Locals; a name that is visible from outside the function cannot be one. */
  function EvalLets(prog: Program, table: seq<nat>, genv: Env, lenv: Env, lets: seq<Let>): Option<Env>
    decreases |lets|
  {
    if lets == [] then Some(lenv)
    else
      var a, v := NameAt(prog.atoms, table, lets[0].target), EvalExpr(prog.atoms, table, genv + lenv, lets[0].e);
      if a == None || v == None then None
      else if a.value !in lenv && (a.value in genv || FnIndex(prog.fns, a.value).Some?) then None
      else EvalLets(prog, table, genv, lenv[a.value := v.value], lets[1..])
  }

  /** The number of the function a name stands for, where nothing nearer hides it. */
  function FnAt(prog: Program, table: seq<nat>, env: Env, i: nat): (r: Option<nat>)
    ensures r.Some? ==> r.value < |prog.fns|
  {
    var a := NameAt(prog.atoms, table, i);
    if a.Some? && a.value !in env then FnIndex(prog.fns, a.value) else None
  }

  /** The numbers from base on. */
  function Interval(base: nat, n: nat): (r: set<nat>)
    ensures |r| == n && forall i: nat :: i in r <==> base <= i < base + n
  {
    if n == 0 then {} else Interval(base, n - 1) + {base + n - 1}
  }

  /** The numbers of all functions. */
  function AllFns(prog: Program): set<nat> { Interval(0, |prog.fns|) }

  lemma AllFnsSize(prog: Program)
    ensures |AllFns(prog)| == |prog.fns|
  {}

  /** A call of function f, which must be one of those free to be called: not one that is waiting for its own call to return. */
  function EvalFn(prog: Program, free: set<nat>, f: nat, vals: seq<int>, genv: Env): Option<int>
    requires f < |prog.fns|
    decreases free, 0
  {
    var def := prog.fns[f];
    if f !in free || |vals| < |def.params| then None
    else
      var lenv := EvalLets(prog, def.table, genv, BindParams(def.params, vals), def.body.lets);
      if lenv.Some? then EvalRet(prog, free - {f}, f, genv, lenv.value) else None
  }

  /** What function f returns. */
  function EvalRet(prog: Program, free: set<nat>, f: nat, genv: Env, lenv: Env): Option<int>
    requires f < |prog.fns|
    decreases free, 1
  {
    var table, env := prog.fns[f].table, genv + lenv;
    match prog.fns[f].body.ret
    case Value(e) => EvalExpr(prog.atoms, table, env, e)
    case Tail(fun, args) =>
      var g, xs := FnAt(prog, table, env, fun), EvalArgs(prog.atoms, table, env, args);
      if g.Some? && xs.Some? then EvalFn(prog, free, g.value, xs.value, genv) else None
  }

  /** A tail call with a value calls a free function. */
  lemma TailCallee(prog: Program, free: set<nat>, f: nat, genv: Env, lenv: Env, v: int) returns (g: nat, xs: seq<int>)
    requires f < |prog.fns| && prog.fns[f].body.ret.Tail? && EvalRet(prog, free, f, genv, lenv) == Some(v)
    ensures var def, env := prog.fns[f], genv + lenv;
            && g in free && FnAt(prog, def.table, env, def.body.ret.fun) == Some(g)
            && EvalArgs(prog.atoms, def.table, env, def.body.ret.args) == Some(xs)
            && EvalFn(prog, free, g, xs, genv) == Some(v) && |prog.fns[g].params| <= |xs|
  {
    var def, env := prog.fns[f], genv + lenv;
    g := FnAt(prog, def.table, env, def.body.ret.fun).value;
    xs := EvalArgs(prog.atoms, def.table, env, def.body.ret.args).value;
  }

  /** A call of the main program: every function is free. */
  function CallNumber(prog: Program, genv: Env, fun: nat, args: seq<Expr>): Option<int> {
    var g, xs := FnAt(prog, prog.table, genv, fun), EvalArgs(prog.atoms, prog.table, genv, args);
    if g.Some? && xs.Some? then EvalFn(prog, AllFns(prog), g.value, xs.value, genv) else None
  }

  function TopNumber(prog: Program, genv: Env, top: Top): Option<int> {
    match top
    case Assign(_, e) => EvalExpr(prog.atoms, prog.table, genv, e)
    case Call(_, fun, args) => CallNumber(prog, genv, fun, args)
  }

  /** A top-level statement sets one global. */
  function EvalTop(prog: Program, genv: Env, top: Top): Option<Env> {
    var a := NameAt(prog.atoms, prog.table, top.target);
    if a == None || FnIndex(prog.fns, a.value).Some? then None
    else
      var v := TopNumber(prog, genv, top);
      if v.Some? then Some(genv[a.value := v.value]) else None
  }

  function EvalMain(prog: Program, genv: Env, main: seq<Top>): Option<Env>
    decreases |main|
  {
    if main == [] then Some(genv)
    else
      var next := EvalTop(prog, genv, main[0]);
      if next.Some? then EvalMain(prog, next.value, main[1..]) else None
  }

  // ---------- limits ----------

  /** The stack slots the functions free to be called may need while they wait for each other. */
  function Room(fns: seq<FnDef>, free: set<nat>): nat
    decreases |fns|
  {
    if fns == [] then 0
    else
      var last := |fns| - 1;
      Room(fns[..last], free) + if last in free then |GenBody(fns[last].body)| else 0
  }

  /** One function less is free. */
  lemma {:induction false} RoomWithout(fns: seq<FnDef>, free: set<nat>, f: nat)
    requires f in free
    ensures Room(fns, free) == Room(fns, free - {f}) + if f < |fns| then |GenBody(fns[f].body)| else 0
    decreases |fns|
  {
    hide GenBody;
    if fns != [] {
      RoomWithout(fns[..|fns| - 1], free, f);
    }
  }

  /** A call with a value is one of a free function, whose code takes its part of the room. */
  lemma FreeCallee(prog: Program, free: set<nat>, f: nat, vals: seq<int>, genv: Env)
    requires f < |prog.fns| && EvalFn(prog, free, f, vals, genv).Some?
    ensures f in free && |free| == |free - {f}| + 1
    ensures Room(prog.fns, free) == Room(prog.fns, free - {f}) + |GenBody(prog.fns[f].body)| && |GenBody(prog.fns[f].body)| > 0
  {
    RoomWithout(prog.fns, free, f);
  }
}
