/** A decoded function: its signature, its bytecode and cursor, and the two stacks the
    decoder leaves behind, with the in-place operations that fill them. */
module Functions {
  import opened Base
  import opened Opcodes
  import opened OpcodeLookup
  import opened FunctionTypes
  import opened Decoding
  import opened Render

  /** What is still to be read once the current group's outcome is known: the group's
      bytes, then k further groups from where it stopped. */
  function Continue(code: seq<byte>, ins: Ins, k: nat, r: Result<Read, DecodeError>): Result<Read, DecodeError>
  {
    match r
    case Err(e) => Err(e)
    case Ok(g) => Prepend(g.bytes, Groups(code, g.next, ins, k))
  }

  lemma PrependPrepend(a: seq<byte>, b: seq<byte>, r: Result<Read, DecodeError>)
    ensures Prepend(a, Prepend(b, r)) == Prepend(a + b, r)
  {
    match r
    case Err(_) =>
    case Ok(rd) => assert a + (b + rd.bytes) == (a + b) + rd.bytes;
  }

  lemma ContinuePrepend(code: seq<byte>, ins: Ins, k: nat, b: seq<byte>, r: Result<Read, DecodeError>)
    ensures Continue(code, ins, k, Prepend(b, r)) == Prepend(b, Continue(code, ins, k, r))
  {
    match r
    case Err(_) =>
    case Ok(rd) => PrependPrepend(b, rd.bytes, Groups(code, rd.next, ins, k));
  }

  lemma PrependEmpty(r: Result<Read, DecodeError>)
    ensures Prepend([], r) == r
  {
    match r
    case Err(_) =>
    case Ok(rd) => assert [] + rd.bytes == rd.bytes;
  }

  /** Every statement of a state, and every operand on its stack, fits the printer's
      constant buffers. */
  predicate StateFits(st: DecodeState)
  {
    && AllFit(st.stmts)
    && forall i :: 0 <= i < |st.opers| ==> Fits(st.opers[i])
  }

  /** A constant read from the bytecode has at most as many bytes as its printing buffer:
      one group of at most four bytes for i32/f32, eight for i64/f64. */
  lemma ReadInstructionFits(code: seq<byte>, loc: nat)
    requires ReadInstruction(code, loc).Ok?
    ensures Fits(ReadInstruction(code, loc).value.oper)
  {
    var b := code[loc];
    var ins := Find(b);
    ConstantOpcodes(b);
    if 0x41 <= b <= 0x44 {
      ConstantFamily(b);
      GroupsLength(code, loc + 1, ins, 1);
    }
  }

  /** Taking an operand from fitting stacks gives a fitting tree and leaves fitting
      stacks. */
  lemma TakeFits(opers: seq<Oper>, stmts: seq<Statement>, at: nat)
    requires TakeOperand(opers, stmts, at).Ok?
    requires StateFits(DecodeState(at, opers, stmts, 0))
    ensures var t := TakeOperand(opers, stmts, at).value;
      TreeFits(t.operand) && StateFits(DecodeState(at, t.opers, t.stmts, 0))
  {
  }

  /** Dispatching a fitting operation on a fitting state leaves a fitting state. */
  lemma DispatchFits(code: seq<byte>, st: DecodeState, temp: Oper, loc: nat)
    requires StateFits(st) && Fits(temp) && Dispatch(code, st, temp, loc).Ok?
    ensures StateFits(Dispatch(code, st, temp, loc).value.state)
  {
    if !(0x02 <= temp.op.op <= 0x03) && temp.op.bytesConsumed != 0 {
      TakeFits(st.opers, st.stmts, loc);
      var l := TakeOperand(st.opers, st.stmts, loc).value;
      if temp.op.bytesConsumed > 1 {
        TakeFits(l.opers, l.stmts, loc);
      }
    }
  }

  /** A whole run from a fitting state ends in a fitting state. */
  lemma {:induction false} RunFits(code: seq<byte>, st: DecodeState)
    requires StateFits(st) && Run(code, st).Done?
    ensures StateFits(Run(code, st).final)
    decreases if st.loc <= |code| then |code| - st.loc else 0
  {
    if st.endsNeeded != 0 {
      var f := ReadInstruction(code, st.loc).value;
      ReadInstructionFits(code, st.loc);
      DispatchFits(code, st, f.oper, f.next);
      RunFits(code, Step(code, st).value.state);
    }
  }

  /** Whatever a successful decoding leaves behind can be printed: every statement fits,
      and so does every operand, the top one included. */
  lemma DecodedFits(code: seq<byte>, loc: nat)
    requires Decode(code, loc).Done?
    ensures var f := Decode(code, loc).final;
      && AllFit(f.stmts)
      && (|f.opers| > 0 ==> Fits(f.opers[|f.opers| - 1]))
  {
    RunFits(code, Initial(loc));
  }

  /** A run of `size` tabs, none when size is not positive. */
  method TabMaker(size: int) returns (s: string)
    ensures s == Tabs(size)
  {
    s := "";
    var i := 0;
    while i < size
      invariant 0 <= i <= (if size > 0 then size else 0)
      invariant |s| == i && forall j :: 0 <= j < i ==> s[j] == '\t'
    {
      s := s + "\t";
      i := i + 1;
    }
    assert |s| == |Tabs(size)|;
  }

  /** One statement line: an "end" is written one tab further out, and the count
      goes up by one after an opener. */
  method WriteLine(out: string, tabs: int, written: string) returns (out': string, tabs': int)
    ensures out' == out + Tabs(IndentFor(written, tabs)) + written + "\n"
    ensures tabs' == TabsNext(written, tabs)
  {
    tabs' := tabs;
    if written == "end" {
      tabs' := tabs' - 1;
    }
    var indent := TabMaker(tabs');
    out' := out + indent + written + "\n";
    if Opener(written) {
      tabs' := tabs' + 1;
    }
  }

  /** A stack popped element by element onto a fresh one: the fresh stack holds the
      same elements in the opposite order. */
  method ReverseStack<T>(stack: seq<T>) returns (output: seq<T>)
    ensures |output| == |stack| && forall j :: 0 <= j < |stack| ==> output[j] == stack[|stack| - 1 - j]
  {
    var toReverse := stack;
    output := [];
    while |toReverse| > 0
      invariant |toReverse| + |output| == |stack| && toReverse == stack[..|toReverse|]
      invariant forall j :: 0 <= j < |output| ==> output[j] == stack[|stack| - 1 - j]
    {
      output := output + [toReverse[|toReverse| - 1]];
      toReverse := toReverse[..|toReverse| - 1];
    }
  }

  class Function {
    var funcName: string
    var funcInputs: seq<DataDef>
    var funcOutputs: DataDef
    /** The operand stack left by the last decoding, top last. */
    var ops: seq<Oper>
    /** The statement stack left by the last decoding, top last. */
    var statements: seq<Statement>
    var byteCode: seq<byte>
    var loc: nat
    var isImported: bool

    /** A function with nothing set: no name, no inputs, a default output, empty
        bytecode read from position 0. */
    constructor ()
      ensures funcName == "" && funcInputs == [] && funcOutputs == DefaultDataDef
      ensures ops == [] && statements == [] && byteCode == [] && loc == 0 && !isImported
    {
      funcName := "";
      funcInputs := [];
      funcOutputs := DefaultDataDef;
      ops := [];
      statements := [];
      byteCode := [];
      loc := 0;
      isImported := false;
    }

    /** A function with its inputs and output set and everything else as by default. */
    constructor WithSignature(funcIns: seq<DataDef>, funcOuts: DataDef)
      ensures funcInputs == funcIns && funcOutputs == funcOuts
      ensures funcName == "" && ops == [] && statements == [] && byteCode == [] && loc == 0 && !isImported
    {
      funcName := "";
      funcInputs := funcIns;
      funcOutputs := funcOuts;
      ops := [];
      statements := [];
      byteCode := [];
      loc := 0;
      isImported := false;
    }

    method SetInputs(ins: seq<DataDef>)
      modifies this`funcInputs
      ensures funcInputs == ins
    {
      funcInputs := ins;
    }

    method SetOutput(out: DataDef)
      modifies this`funcOutputs
      ensures funcOutputs == out
    {
      funcOutputs := out;
    }

    method SetTitle(name: string)
      modifies this`funcName
      ensures funcName == name
    {
      funcName := name;
    }

    function GetTitle(): (t: string)
      reads this
      ensures t == funcName
    {
      funcName
    }

    function GetInputSize(): (n: nat)
      reads this
      ensures n == |funcInputs|
    {
      |funcInputs|
    }

    /** The byte cursor: the byte under the cursor, which then moves on by one; past the
        end it fails and the cursor stays. */
    method NextByte() returns (r: Result<byte, DecodeError>)
      modifies this`loc
      ensures r == Fetch(byteCode, old(loc))
      ensures loc == if r.Ok? then old(loc) + 1 else old(loc)
    {
      if loc >= |byteCode| {
        return Err(Overrun(loc));
      }
      r := Ok(byteCode[loc]);
      loc := loc + 1;
    }

    /** The function as text: the signature line, every statement in the order it was
        pushed, each at the indentation the openers and ends before it give, then the top
        of the operand stack if any, then the closing end. */
    method Print(f32: FloatText, f64: FloatText) returns (out: string)
      requires AllFit(statements) && (|ops| > 0 ==> Fits(ops[|ops| - 1]))
      ensures out == FunctionText(funcName, funcInputs, funcOutputs, statements, ops, f32, f64)
    {
      out := PrintSignature();
      var body := PrintBody(f32, f64);
      var leftover := PrintLeftover(f32, f64);
      var last := TabMaker(0);
      out := out + body + leftover + "\n" + last + "end" + "\n";
    }

    /** Only the top of the operand stack is printed, as a fresh leaf one tab in. */
    method PrintLeftover(f32: FloatText, f64: FloatText) returns (out: string)
      requires |ops| > 0 ==> Fits(ops[|ops| - 1])
      ensures out == Leftover(ops, f32, f64)
    {
      out := "";
      if |ops| > 0 {
        var temp := Leaf(ops[|ops| - 1]);
        var indent := TabMaker(1);
        out := indent + PrintStatement(temp, f32, f64);
      }
    }

    /** The signature line: the result type, the name, and each parameter followed by
        ", " with the last two characters dropped. */
    method PrintSignature() returns (out: string)
      ensures out == HeaderLine(funcName, funcInputs, funcOutputs)
    {
      out := TypeName(funcOutputs.dtype) + " " + funcName + "(";
      var inputs := "";
      for i := 0 to |funcInputs|
        invariant inputs == InputsText(funcInputs[..i])
      {
        assert funcInputs[..i + 1][..i] == funcInputs[..i];
        ParamAppend(inputs, funcInputs[i]);
        inputs := inputs + TypeName(funcInputs[i].dtype) + " " + funcInputs[i].name + ", ";
      }
      assert funcInputs[..|funcInputs|] == funcInputs;
      inputs := if |inputs| >= 2 then inputs[..|inputs| - 2] else inputs;
      out := out + inputs + ")" + "\n";
    }

    /** The statement lines: the statement stack is reversed, then popped, so the
        statements come out in the order they were pushed. */
    method PrintBody(f32: FloatText, f64: FloatText) returns (out: string)
      requires AllFit(statements)
      ensures out == BodyText(Lines(statements, f32, f64), 1)
    {
      var stmts := statements;
      var output := ReverseStack(stmts);

      ghost var lines := Lines(stmts, f32, f64);
      out := "";
      var tabs := 1;
      ghost var k := 0;
      while |output| > 0
        invariant |output| <= |stmts|
        invariant forall j :: 0 <= j < |output| ==> output[j] == stmts[|stmts| - 1 - j]
        invariant k == |stmts| - |output|
        invariant out == BodyText(lines[..k], 1) && tabs == TabsAfter(lines[..k], 1)
      {
        var top := output[|output| - 1];
        assert top == stmts[k];
        var written := PrintStatement(top, f32, f64);
        output := output[..|output| - 1];
        BodyStep(lines, k, 1);
        out, tabs := WriteLine(out, tabs, written);
        k := k + 1;
      }
      assert lines[..|stmts|] == lines;
    }

    /** Decoding a body in place: the bytecode is replaced, the cursor is not reset, and
        the loop runs until the ends expected reach zero. The stacks it leaves become the
        function's operand and statement stacks. A failure (reading past the end of the
        bytecode, or an instruction finding no operand) stops the decoding with the cursor
        where it failed and the function's stacks as they were. */
    method DecodeFunction(input: seq<byte>) returns (err: Option<DecodeError>)
      modifies this`byteCode, this`loc, this`ops, this`statements
      ensures byteCode == input
      ensures var o := Decode(input, old(loc));
        && (o.Done? ==> err == None && loc == o.final.loc && ops == o.final.opers && statements == o.final.stmts)
        && (o.Failed? ==> err == Some(o.error) && loc == o.error.at && ops == old(ops) && statements == old(statements))
      ensures err.None? ==> AllFit(statements) && (|ops| > 0 ==> Fits(ops[|ops| - 1]))
    {
      byteCode := input;
      ghost var goal := Settle(Decode(input, loc));
      var operStack: seq<Oper> := [];
      var statementStack: seq<Statement> := [];
      var endsNeeded: nat := 1;
      while endsNeeded != 0
        invariant byteCode == input && ops == old(ops) && statements == old(statements)
        invariant Settle(Run(byteCode, DecodeState(loc, operStack, statementStack, endsNeeded))) == goal
        decreases if loc <= |byteCode| then |byteCode| - loc else 0
      {
        ghost var cur := DecodeState(loc, operStack, statementStack, endsNeeded);
        RunStep(byteCode, cur);
        var fetched := ReadNext();
        if fetched.Err? {
          return Some(fetched.error);
        }
        var temp := fetched.value;
        var failure;
        failure, operStack, statementStack, endsNeeded := Execute(cur.loc, temp, operStack, statementStack, endsNeeded);
        if failure.Some? {
          return failure;
        }
        assert Step(byteCode, cur) == Ok(Stepped(DecodeState(loc, operStack, statementStack, endsNeeded), temp));
      }
      assert Run(byteCode, DecodeState(loc, operStack, statementStack, endsNeeded)) == Done(DecodeState(loc, operStack, statementStack, endsNeeded), []);
      ops := operStack;
      statements := statementStack;
      err := None;
      DecodedFits(input, old(loc));
    }

    /** The second half of an iteration, with the cursor after the instruction's
        immediates: a block or loop opens a level and its block type is read and dropped;
        an instruction that consumes operands takes one or two and pushes the node it
        builds; an end closes a level, kept as a statement unless it closes the function;
        anything else is pushed as an operand. `from` is where the iteration began. */
    method Execute(ghost from: nat, temp: Oper, operStack: seq<Oper>, statementStack: seq<Statement>, endsNeeded: nat)
      returns (failure: Option<DecodeError>, opers: seq<Oper>, stmts: seq<Statement>, ends: nat)
      modifies this`loc
      ensures var d := Dispatch(byteCode, DecodeState(from, operStack, statementStack, endsNeeded), temp, old(loc));
        && (failure.None? <==> d.Ok?)
        && (d.Ok? ==> d.value == Stepped(DecodeState(loc, opers, stmts, ends), temp))
        && (d.Err? ==> failure == Some(d.error) && loc == d.error.at)
    {
      var next := temp.op;
      opers, stmts, ends := operStack, statementStack, endsNeeded;
      failure := None;
      if 0x02 <= next.op <= 0x03 {
        ends := ends + 1;
        stmts := stmts + [Leaf(OperOf(next))];
        var blockType := NextByte();
        if blockType.Err? {
          failure := Some(blockType.error);
        }
      } else if next.bytesConsumed != 0 {
        var left: Statement;
        if |opers| == 0 {
          if |stmts| == 0 {
            return Some(StackUnderflow(loc)), opers, stmts, ends;
          }
          left := stmts[|stmts| - 1];
          stmts := stmts[..|stmts| - 1];
        } else {
          left := Leaf(opers[|opers| - 1]);
          opers := opers[..|opers| - 1];
        }
        var right: Option<Statement> := None;
        if next.bytesConsumed > 1 {
          if |opers| == 0 {
            if |stmts| == 0 {
              return Some(StackUnderflow(loc)), opers, stmts, ends;
            }
            right := Some(stmts[|stmts| - 1]);
            stmts := stmts[..|stmts| - 1];
          } else {
            right := Some(Leaf(opers[|opers| - 1]));
            opers := opers[..|opers| - 1];
          }
        }
        stmts := stmts + [Statement(temp, Some(left), right)];
      } else if next.op == 0x0b {
        if ends - 1 != 0 {
          stmts := stmts + [Leaf(OperOf(next))];
        }
        ends := if ends >= 1 then ends - 1 else 0;
      } else {
        opers := opers + [temp];
      }
    }

    /** The first half of an iteration: the opcode under the cursor, looked up in the
        catalog, with its immediates when it has any; the cursor ends after them, or where
        a read failed. */
    method ReadNext() returns (r: Result<Oper, DecodeError>)
      modifies this`loc
      ensures var f := ReadInstruction(byteCode, old(loc));
        && (r.Ok? <==> f.Ok?)
        && (r.Ok? ==> r.value == f.value.oper && loc == f.value.next)
        && (r.Err? ==> r.error == f.error && loc == f.error.at)
    {
      var b := NextByte();
      if b.Err? {
        return Err(b.error);
      }
      var next := Find(b.value);
      var temp := OperOf(next);
      if next.associatedBytes != 0 {
        var v := GetValueBytes(next);
        if v.Err? {
          return Err(v.error);
        }
        temp := Oper(next, v.value);
      }
      r := Ok(temp);
    }

    /** The immediate reader: reads the immediates of `ins` from the cursor, as
        ValueBytes describes them, and leaves the cursor after them; on overrun the
        cursor is where the failing read was attempted. */
    method GetValueBytes(ins: Ins) returns (r: Result<seq<byte>, DecodeError>)
      modifies this`loc
      ensures var v := ValueBytes(byteCode, old(loc), ins);
        && (r.Ok? <==> v.Ok?)
        && (r.Ok? ==> r.value == v.value.bytes && loc == v.value.next)
        && (r.Err? ==> r.error == v.error && loc == v.error.at)
    {
      ghost var v := ValueBytes(byteCode, loc, ins);
      var temp: seq<byte> := [];
      var k := 0;
      PrependEmpty(v);
      while k < ins.associatedBytes
        invariant k <= ins.associatedBytes
        invariant Prepend(temp, Groups(byteCode, loc, ins, ins.associatedBytes - k)) == v
        decreases ins.associatedBytes - k
      {
        ghost var rem := ins.associatedBytes - k - 1;
        ghost var start := loc;
        assert Groups(byteCode, loc, ins, rem + 1) == Continue(byteCode, ins, rem, Group(byteCode, loc, ins));
        var g;
        if IntegerImmediate(ins.op) {
          g := ReadIntegerGroup(ins);
        } else {
          g := ReadFixedGroup(ins);
        }
        if g.Err? {
          return Err(g.error);
        }
        PrependPrepend(temp, g.value, Groups(byteCode, loc, ins, rem));
        temp := temp + g.value;
        k := k + 1;
      }
      assert Groups(byteCode, loc, ins, 0) == Ok(Read([], loc));
      assert temp + [] == temp;
      r := Ok(temp);
    }

    /** One integer group: bytes up to and including the first one at most 0x7f, at
        most maxLength of them; when none of them ends the group, one more byte is read
        and dropped. */
    method ReadIntegerGroup(ins: Ins) returns (r: Result<seq<byte>, DecodeError>)
      requires IntegerImmediate(ins.op)
      modifies this`loc
      ensures var g := Group(byteCode, old(loc), ins);
        && (r.Ok? <==> g.Ok?)
        && (r.Ok? ==> r.value == g.value.bytes && loc == g.value.next)
        && (r.Err? ==> r.error == g.error && loc == g.error.at)
    {
      ghost var g := Group(byteCode, loc, ins);
      var maxLength := MaxLength(ins.op);
      var temp: seq<byte> := [];
      var first := NextByte();
      if first.Err? {
        return Err(first.error);
      }
      var next := first.value;
      var i := 0;
      var ended := false;
      assert g == IntTail(byteCode, loc, next, maxLength);
      PrependEmpty(g);
      while i < maxLength && !ended
        invariant 0 <= i <= maxLength
        invariant ended || i == maxLength ==> g == Ok(Read(temp, loc))
        invariant !ended && i < maxLength ==>
          && 1 <= loc <= |byteCode| && byteCode[loc - 1] == next
          && Prepend(temp, IntTail(byteCode, loc, next, maxLength - i)) == g
        decreases maxLength - i, if ended then 0 else 1
      {
        ghost var tail := IntTail(byteCode, loc, next, maxLength - i);
        if next <= 0x7f {
          assert tail == Ok(Read([next], loc));
          temp := temp + [next];
          ended := true;
        } else {
          var b := NextByte();
          if b.Err? {
            return Err(b.error);
          }
          if i + 1 < maxLength {
            var rest := IntTail(byteCode, loc, b.value, maxLength - i - 1);
            assert tail == Prepend([next], rest);
            PrependPrepend(temp, [next], rest);
          }
          temp := temp + [next];
          next := b.value;
          i := i + 1;
        }
      }
      r := Ok(temp);
    }

    /** One group of any other kind: maxLength bytes in order. */
    method ReadFixedGroup(ins: Ins) returns (r: Result<seq<byte>, DecodeError>)
      requires !IntegerImmediate(ins.op)
      modifies this`loc
      ensures var g := Group(byteCode, old(loc), ins);
        && (r.Ok? <==> g.Ok?)
        && (r.Ok? ==> r.value == g.value.bytes && loc == g.value.next)
        && (r.Err? ==> r.error == g.error && loc == g.error.at)
    {
      ghost var g := Group(byteCode, loc, ins);
      var maxLength := MaxLength(ins.op);
      var temp: seq<byte> := [];
      var i := 0;
      PrependEmpty(g);
      while i < maxLength
        invariant 0 <= i <= maxLength
        invariant Prepend(temp, FixedRead(byteCode, loc, maxLength - i)) == g
        decreases maxLength - i
      {
        ghost var rest := FixedRead(byteCode, loc + 1, maxLength - i - 1);
        var b := NextByte();
        if b.Err? {
          return Err(b.error);
        }
        assert FixedRead(byteCode, loc - 1, maxLength - i) == Prepend([b.value], rest);
        PrependPrepend(temp, [b.value], rest);
        temp := temp + [b.value];
        i := i + 1;
      }
      assert temp + [] == temp;
      r := Ok(temp);
    }
  }
}
