/**
 The state of virtual-stack-machine.h.  A pointer is an index into the sequence of all objects of
 its class, in the order of their allocation; null is None.  Nothing is ever freed.
 */
module VmState {
  import opened Chars

  type byte = b: int | 0 <= b < 256

  /** `Atom`: names are told apart by identity, that is by index, never by their text. */
  datatype Atom = Name(sval: string) | Num(nval: int)

  /**
   `u` is no union: a number that was read from a literal still points to the literal's atom, and
   CALL looks at that pointer.  A computed number has no such atom.
   */
  datatype Datum =
    | Undef
    | Number(nval: int, literal: Option<nat>)
    | FunctionRef(fun: nat)
    | AtomRef(atom: nat)
    | SymbolRef(sym: nat)

  predicate IsNumber(d: Datum, v: int) { d.Number? && d.nval == v }

  datatype SymbolType = ARGUMENT | VARIABLE | PROPERTY

  /**
   `value` is the datum behind `entry.value`: a global's own datum, or that of a property.  The
   constructor leaves `slot` uninitialized, which is None.
   */
  datatype Symbol = Symbol(kind: SymbolType, slot: Option<nat>, next: Option<nat>, scope: Option<nat>, key: nat, value: Option<Datum>)

  datatype Scope = Scope(list: Option<nat>, parent: Option<nat>)

  datatype Script = Script(atoms: seq<nat>, args: Option<nat>, code: seq<byte>)

  datatype Function = Function(name: nat, script: nat, slink: nat)

  datatype Frame = Frame(argc: nat, argv: nat, nvars: nat, vars: nat, fun: nat, down: Option<nat>, scope: nat)

  /**
   `Thrown` is the exception of a call to something that is no function, `Wrong` undefined
   behaviour (an access outside the stack, the use of something uninitialized), `Overflow` the end of the
   native stack on which `codeInterpret` calls itself.
   */
  datatype Status = Running | Thrown(atom: nat) | Wrong | Overflow

  /** Everything reachable from a `Context`. */
  datatype Vm = Vm(
    atoms: seq<Atom>, scripts: seq<Script>, functions: seq<Function>,
    symbols: seq<Symbol>, scopes: seq<Scope>, frames: seq<Frame>,
    data: seq<Datum>, ptr: nat, frame: Option<nat>, staticLink: nat, status: Status)

  datatype Instr = NUMBER(i: nat) | NAME(i: nat) | ADD | ASSIGN | RETURN(hasVal: nat) | CALL(argc: nat) | NOP
}
