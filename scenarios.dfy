/** Worked decodings: small function bodies followed from bytes to printed text. */
module Scenarios {
  import opened Base
  import opened Opcodes
  import opened OpcodeLookup
  import opened FunctionTypes
  import opened Decoding
  import opened Maths
  import opened Render

  /** The body `i32.const 5; i32.const 3; i32.add; end`, byte by byte. */
  predicate IsAddBody(code: seq<byte>)
  {
    && |code| == 6
    && code[0] == 0x41 && code[1] == 5
    && code[2] == 0x41 && code[3] == 3
    && code[4] == 0x6a && code[5] == 0x0b
  }

  const Five: Oper := Oper(I32Const(), [5])
  const Three: Oper := Oper(I32Const(), [3])

  /** The addition node: the later operand is the left child, the earlier the right. */
  const AddTree: Statement := Statement(OperOf(I32Add()), Some(Leaf(Three)), Some(Leaf(Five)))

  /** The decoder states between the instructions of the body. */
  const AfterFive: DecodeState := DecodeState(2, [Five], [], 1)
  const AfterThree: DecodeState := DecodeState(4, [Five, Three], [], 1)
  const AfterAdd: DecodeState := DecodeState(5, [], [AddTree], 1)
  const AfterEnd: DecodeState := DecodeState(6, [], [AddTree], 0)

  /** Decoding the body leaves one statement, the addition, and an empty operand stack;
      the closing end expected for the body is consumed without a statement. */
  lemma DecodeAdd(code: seq<byte>)
    requires IsAddBody(code)
    ensures Decode(code, 0) == Done(DecodeState(6, [], [AddTree], 0), [Five, Three, OperOf(I32Add()), OperOf(End())])
  {
    StepFive(code);
    StepThree(code);
    StepAdd(code);
    StepEnd(code);
    assert Run(code, AfterEnd) == Done(AfterEnd, []);
    assert Run(code, AfterAdd) == Done(AfterEnd, [OperOf(End())]);
    assert Run(code, AfterThree) == Done(AfterEnd, [OperOf(I32Add()), OperOf(End())]);
    assert Run(code, AfterFive) == Done(AfterEnd, [Three, OperOf(I32Add()), OperOf(End())]);
  }

  /** The first constant is pushed on the operand stack. */
  lemma StepFive(code: seq<byte>)
    requires IsAddBody(code)
    ensures Step(code, Initial(0)) == Ok(Stepped(AfterFive, Five))
  {
    var s0 := Initial(0);
    ConstantRead(code, 0, Five);
    assert Five.op.op == 0x41 && Five.op.bytesConsumed == 0;
    assert s0.opers + [Five] == [Five];
    assert Dispatch(code, s0, Five, 2) == Ok(Stepped(DecodeState(2, s0.opers + [Five], s0.stmts, 1), Five));
  }

  /** The second constant is pushed above the first. */
  lemma StepThree(code: seq<byte>)
    requires IsAddBody(code)
    ensures Step(code, AfterFive) == Ok(Stepped(AfterThree, Three))
  {
    ConstantRead(code, 2, Three);
    assert Three.op.op == 0x41 && Three.op.bytesConsumed == 0;
    assert AfterFive.opers + [Three] == [Five, Three];
    assert Dispatch(code, AfterFive, Three, 4) == Ok(Stepped(AfterThree, Three));
  }

  /** The addition takes the two constants, the later one first, and pushes its tree. */
  lemma StepAdd(code: seq<byte>)
    requires IsAddBody(code)
    ensures Step(code, AfterThree) == Ok(Stepped(AfterAdd, OperOf(I32Add())))
  {
    assert Find(0x6a) == I32Add();
    assert ReadInstruction(code, 4) == Ok(Fetched(OperOf(I32Add()), 5));
    assert [Five, Three][..1] == [Five];
    assert TakeOperand(AfterThree.opers, AfterThree.stmts, 5) == Ok(Taken(Leaf(Three), [Five], []));
    assert [Five][..0] == [];
    assert TakeOperand([Five], [], 5) == Ok(Taken(Leaf(Five), [], []));
    assert I32Add().op == 0x6a && I32Add().bytesConsumed == 2;
    assert [] + [AddTree] == [AddTree];
    assert Dispatch(code, AfterThree, OperOf(I32Add()), 5) == Ok(Stepped(AfterAdd, OperOf(I32Add())));
  }

  /** The closing end lowers the ends expected to zero. */
  lemma StepEnd(code: seq<byte>)
    requires IsAddBody(code)
    ensures Step(code, AfterAdd) == Ok(Stepped(AfterEnd, OperOf(End())))
  {
    assert Find(0x0b) == End();
    assert ReadInstruction(code, 5) == Ok(Fetched(OperOf(End()), 6));
  }

  /** Each constant of the body is read with its one immediate byte. */
  lemma ConstantRead(code: seq<byte>, loc: nat, o: Oper)
    requires IsAddBody(code) && (loc == 0 || loc == 2)
    requires o == Oper(I32Const(), [code[loc + 1]])
    ensures ReadInstruction(code, loc) == Ok(Fetched(o, loc + 2))
  {
    assert Find(0x41) == I32Const();
    IntegerGroup(code, loc + 1, I32Const());
    assert IntTail(code, loc + 2, code[loc + 1], 4) == Ok(Read([code[loc + 1]], loc + 2));
    assert IntGroup(code, loc + 1, 4) == Ok(Read([code[loc + 1]], loc + 2));
  }

  /** The body `block (no result type); nop; end; end`, byte by byte. */
  predicate IsBlockBody(code: seq<byte>)
  {
    && |code| == 5
    && code[0] == 0x02 && code[1] == 0x40
    && code[2] == 0x01 && code[3] == 0x0b && code[4] == 0x0b
  }

  const BlockStart: Statement := Leaf(OperOf(Block()))
  const BlockEnd: Statement := Leaf(OperOf(End()))

  /** The decoder states between the instructions of the block body. */
  const InBlock: DecodeState := DecodeState(2, [], [BlockStart], 2)
  const AfterNop: DecodeState := DecodeState(3, [OperOf(Nop())], [BlockStart], 2)
  const AfterInnerEnd: DecodeState := DecodeState(4, [OperOf(Nop())], [BlockStart, BlockEnd], 1)
  const AfterOuterEnd: DecodeState := DecodeState(5, [OperOf(Nop())], [BlockStart, BlockEnd], 0)

  /** Decoding a block: its start and its end become statements around the nop, which
      stays on the operand stack; the block-type byte is skipped and the function's own
      closing end pushes nothing. */
  lemma DecodeBlock(code: seq<byte>)
    requires IsBlockBody(code)
    ensures Decode(code, 0) ==
      Done(AfterOuterEnd, [OperOf(Block()), OperOf(Nop()), OperOf(End()), OperOf(End())])
  {
    StepBlock(code);
    StepNop(code);
    StepInnerEnd(code);
    StepOuterEnd(code);
    assert Run(code, AfterOuterEnd) == Done(AfterOuterEnd, []);
    assert Run(code, AfterInnerEnd) == Done(AfterOuterEnd, [OperOf(End())]);
    assert Run(code, AfterNop) == Done(AfterOuterEnd, [OperOf(End()), OperOf(End())]);
    assert Run(code, InBlock) == Done(AfterOuterEnd, [OperOf(Nop()), OperOf(End()), OperOf(End())]);
  }

  /** The block opens: its start statement is pushed and a second end is expected. */
  lemma StepBlock(code: seq<byte>)
    requires IsBlockBody(code)
    ensures Step(code, Initial(0)) == Ok(Stepped(InBlock, OperOf(Block())))
  {
    assert Find(0x02) == Block();
    assert ReadInstruction(code, 0) == Ok(Fetched(OperOf(Block()), 1));
    DispatchOpens(code, Initial(0), OperOf(Block()), 1);
    assert [] + [BlockStart] == [BlockStart];
  }

  /** The nop takes no operand and is pushed on the operand stack. */
  lemma StepNop(code: seq<byte>)
    requires IsBlockBody(code)
    ensures Step(code, InBlock) == Ok(Stepped(AfterNop, OperOf(Nop())))
  {
    assert Find(0x01) == Nop();
    assert ReadInstruction(code, 2) == Ok(Fetched(OperOf(Nop()), 3));
    DispatchPushes(code, InBlock, OperOf(Nop()), 3);
    assert [] + [OperOf(Nop())] == [OperOf(Nop())];
  }

  /** The block's end is pushed as a statement, since the body's end is still expected. */
  lemma StepInnerEnd(code: seq<byte>)
    requires IsBlockBody(code)
    ensures Step(code, AfterNop) == Ok(Stepped(AfterInnerEnd, OperOf(End())))
  {
    assert Find(0x0b) == End();
    assert ReadInstruction(code, 3) == Ok(Fetched(OperOf(End()), 4));
    DispatchCloses(code, AfterNop, OperOf(End()), 4);
    assert [BlockStart] + [BlockEnd] == [BlockStart, BlockEnd];
  }

  /** The body's end closes the function and pushes nothing. */
  lemma StepOuterEnd(code: seq<byte>)
    requires IsBlockBody(code)
    ensures Step(code, AfterInnerEnd) == Ok(Stepped(AfterOuterEnd, OperOf(End())))
  {
    assert Find(0x0b) == End();
    assert ReadInstruction(code, 4) == Ok(Fetched(OperOf(End()), 5));
    DispatchCloses(code, AfterInnerEnd, OperOf(End()), 5);
  }

  /** The addition prints in infix order, earlier operand first. */
  lemma PrintAdd(f32: FloatText, f64: FloatText)
    ensures TreeFits(AddTree)
    ensures PrintStatement(AddTree, f32, f64) == "(i32_const 5) i32_add (i32_const 3)"
  {
    ConstantLabel(Five, f32, f64, "5");
    ConstantLabel(Three, f32, f64, "3");
    assert Label(OperOf(I32Add()), f32, f64) == "i32_add";
    assert PrintStatement(Leaf(Five), f32, f64) == "i32_const 5";
    assert PrintStatement(Leaf(Three), f32, f64) == "i32_const 3";
    assert Paren(Some(Leaf(Five)), f32, f64) == "(i32_const 5)";
    assert Paren(Some(Leaf(Three)), f32, f64) == "(i32_const 3)";
  }

  /** A one-byte i32 constant prints as its value. */
  lemma ConstantLabel(o: Oper, f32: FloatText, f64: FloatText, digits: string)
    requires o.op == I32Const() && |o.bytes| == 1 && o.bytes[0] < 10
    requires digits == [DigitChar(o.bytes[0] as nat)]
    ensures Fits(o) && Label(o, f32, f64) == "i32_const " + digits
  {
    SingleGroup(o.bytes);
    IntegerLabelShape(o, f32, f64);
  }

  /** A single byte below 0x80, padded to the four-byte buffer, decodes to itself. */
  lemma SingleGroup(s: seq<byte>)
    requires |s| == 1 && s[0] < 0x80
    ensures ULeb32(PadTo(s, 4)) == s[0] as nat
  {
    var list := PadTo(s, 4);
    assert list[0] == s[0];
    assert Chunks(list, 0) == Low7(list[0]);
  }
}
