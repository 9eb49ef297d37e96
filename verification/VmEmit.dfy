/** Emitting bytecode, and the fetch loop reading back exactly what was emitted. */
module VmEmit {
  import opened VmState
  import opened VmSemantics

  /** The bytes of one instruction, as `emit1` and `emit2` lay them out. */
  function Encode1(instr: Instr): seq<byte>
    requires Encodable(instr)
  {
    match instr
    case NUMBER(i) => [0, i]
    case NAME(i) => [1, i]
    case ADD => [2]
    case ASSIGN => [3]
    case RETURN(h) => [4, h]
    case CALL(n) => [5, n]
  }

  /** Operands are single bytes. */
  predicate Encodable(instr: Instr) {
    match instr
    case NUMBER(i) => i < 256
    case NAME(i) => i < 256
    case RETURN(h) => h < 256
    case CALL(n) => n < 256
    case NOP => false
    case _ => true
  }

  predicate AllEncodable(instrs: seq<Instr>) { forall i :: 0 <= i < |instrs| ==> Encodable(instrs[i]) }

  function Encode(instrs: seq<Instr>): seq<byte>
    requires AllEncodable(instrs)
  {
    if instrs == [] then [] else Encode1(instrs[0]) + Encode(instrs[1..])
  }

  lemma {:induction false} EncodeAppend(a: seq<Instr>, b: seq<Instr>)
    requires AllEncodable(a) && AllEncodable(b)
    ensures AllEncodable(a + b) && Encode(a + b) == Encode(a) + Encode(b)
    decreases a
  {
    if a == [] {
      assert a + b == b;
    } else {
      assert (a + b)[1..] == a[1..] + b;
      EncodeAppend(a[1..], b);
    }
  }

  lemma EncodePair(a: Instr, b: Instr)
    requires Encodable(a) && Encodable(b)
    ensures AllEncodable([a, b]) && Encode([a, b]) == Encode1(a) + Encode1(b)
  {
    assert [a, b][1..] == [b] && [b][1..] == [];
    assert Encode([b]) == Encode1(b) + [];
  }

  /** The bytes of a list, one instruction further. */
  lemma NextEncoded(bytes: seq<byte>, instrs: seq<Instr>, i: nat)
    requires AllEncodable(instrs) && i < |instrs|
    ensures AllEncodable(instrs[i..]) && AllEncodable(instrs[i + 1..])
    ensures bytes + Encode(instrs[i..]) == (bytes + Encode1(instrs[i])) + Encode(instrs[i + 1..])
    ensures |Encode(instrs[i..])| == |Encode1(instrs[i])| + |Encode(instrs[i + 1..])|
  {
    assert instrs[i..][0] == instrs[i] && instrs[i..][1..] == instrs[i + 1..];
    assert bytes + (Encode1(instrs[i]) + Encode(instrs[i + 1..])) == (bytes + Encode1(instrs[i])) + Encode(instrs[i + 1..]);
  }

  /** The instructions one after the other, until something goes wrong. */
  function RunList(vm: Vm, depth: nat, script: Script, instrs: seq<Instr>, result: Datum): Conf
    decreases |instrs|
  {
    if vm.status != Running || instrs == [] then Conf(vm, result)
    else
      var next := Exec(vm, depth, script, instrs[0], result);
      RunList(next.vm, depth, script, instrs[1..], next.result)
  }

  /** Fetching at the place where an instruction was emitted gives that instruction and its size. */
  lemma FetchEncoded(before: seq<byte>, instr: Instr, after: seq<byte>)
    requires Encodable(instr)
    ensures var code := before + (Encode1(instr) + after);
            |before| < |code| && Fetch(code, |before|) == Fetched(instr, |Encode1(instr)|)
  {
    var code := before + (Encode1(instr) + after);
    assert code[|before|] == Encode1(instr)[0];
    if |Encode1(instr)| == 2 {
      assert code[|before| + 1] == Encode1(instr)[1];
    }
  }

  /**
   Round trip: over emitted code the fetch loop executes exactly the emitted instructions, in
   their order, and stops at the end of the code.
   */
  lemma {:induction false} RunEncoded(vm: Vm, depth: nat, script: Script, before: seq<byte>, instrs: seq<Instr>, result: Datum)
    requires AllEncodable(instrs) && script.code == before + Encode(instrs)
    ensures Run(vm, depth, script, |before|, result) == RunList(vm, depth, script, instrs, result)
    decreases instrs
  {
    hide Exec;
    if instrs != [] && vm.status == Running {
      var instr, more := instrs[0], instrs[1..];
      FetchEncoded(before, instr, Encode(more));
      var next := Exec(vm, depth, script, instr, result);
      assert script.code == (before + Encode1(instr)) + Encode(more);
      RunEncoded(next.vm, depth, script, before + Encode1(instr), more, next.result);
    }
  }

  lemma {:induction false} RunListAppend(vm: Vm, depth: nat, script: Script, a: seq<Instr>, b: seq<Instr>, result: Datum)
    ensures RunList(vm, depth, script, a + b, result)
         == var mid := RunList(vm, depth, script, a, result);
            RunList(mid.vm, depth, script, b, mid.result)
    decreases a
  {
    if a == [] {
      assert a + b == b;
    } else if vm.status == Running {
      assert (a + b)[1..] == a[1..] + b;
      var next := Exec(vm, depth, script, a[0], result);
      RunListAppend(next.vm, depth, script, a[1..], b, next.result);
    }
  }

  /** `Script` while code is emitted into it: a buffer of fixed size and the length in use. */
  class ScriptBuffer {
    var code: array<byte>
    var length: nat

    ghost predicate Valid()
      reads this
    {
      length <= code.Length
    }

    /** The bytes emitted so far. */
    ghost function Bytes(): seq<byte>
      requires Valid()
      reads this, code
    {
      code[..length]
    }

    constructor (codeLimit: nat)
      ensures Valid() && fresh(code) && code.Length == codeLimit && Bytes() == []
    {
      code := new byte[codeLimit](_ => 0);
      length := 0;
    }

    method Emit1(op: byte)
      requires Valid() && length + 1 <= code.Length
      modifies this`length, code
      ensures Valid() && Bytes() == old(Bytes()) + [op]
    {
      code[length] := op;
      length := length + 1;
    }

    method Emit2(op: byte, op1: byte)
      requires Valid() && length + 2 <= code.Length
      modifies this`length, code
      ensures Valid() && Bytes() == old(Bytes()) + [op, op1]
    {
      code[length] := op;
      code[length + 1] := op1;
      length := length + 2;
    }

    /** A list of instructions, each by the emitter for its shape. */
    method EmitAll(instrs: seq<Instr>)
      requires Valid() && AllEncodable(instrs) && length + |Encode(instrs)| <= code.Length
      modifies this`length, code
      ensures Valid() && Bytes() == old(Bytes()) + Encode(instrs)
    {
      var i := 0;
      assert instrs[0..] == instrs;
      while i < |instrs|
        invariant 0 <= i <= |instrs| && Valid()
        invariant Bytes() + Encode(instrs[i..]) == old(Bytes()) + Encode(instrs)
      {
        ghost var bytes, more := Bytes(), Encode(instrs[i + 1..]);
        NextEncoded(bytes, instrs, i);
        match instrs[i] {
          case NUMBER(k) => Emit2(0, k);
          case NAME(k) => Emit2(1, k);
          case ADD => Emit1(2);
          case ASSIGN => Emit1(3);
          case RETURN(h) => Emit2(4, h);
          case CALL(n) => Emit2(5, n);
        }
        assert Bytes() == bytes + Encode1(instrs[i]);
        i := i + 1;
      }
      assert instrs[|instrs|..] == [];
    }
  }
}
