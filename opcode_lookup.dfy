/** The total lookup from an opcode byte to its definition. */
module OpcodeLookup {
  import opened Base
  import opened Opcodes

  /** The range blocks the lookup tests, in order; a byte in none of them is outside. */
  datatype Range = ControlRange | VariableRange | MemoryRange | ConstRange
                 | I32Range | I64Range | F32Range | F64Range | Outside

  /** The range tests of the lookup: which block a byte enters. */
  function RangeOf(id: byte): Range
  {
    if (0x00 <= id <= 0x05) || (0x0b <= id <= 0x11) then ControlRange
    else if 0x20 <= id <= 0x24 then VariableRange
    else if 0x28 <= id <= 0x40 then MemoryRange
    else if 0x41 <= id <= 0xbf then
      if 0x41 <= id <= 0x44 then ConstRange
      else if (0x45 <= id <= 0x4f) || (0x67 <= id <= 0x78) || (0xa7 <= id <= 0xab) || id == 0xbc then I32Range
      else if (0x50 <= id <= 0x5a) || (0x79 <= id <= 0x8a) || (0xac <= id <= 0xb1) || id == 0xbd then I64Range
      else if (0x5b <= id <= 0x60) || (0x8b <= id <= 0x98) || (0xb2 <= id <= 0xb6) || id == 0xbe then F32Range
      else if (0x61 <= id <= 0x66) || (0x99 <= id <= 0xa6) || (0xb7 <= id <= 0xbb) || id == 0xbf then F64Range
      else Outside
    else Outside
  }

  /** The range tests, then the switch of the block the byte entered; a byte outside
      every block yields the error definition. */
  function Find(id: byte): Ins
  {
    match RangeOf(id)
    case ControlRange => FindControl(id)
    case VariableRange => FindVariable(id)
    case MemoryRange => FindMemory(id)
    case ConstRange => FindConst(id)
    case I32Range => FindI32(id)
    case I64Range => FindI64(id)
    case F32Range => FindF32(id)
    case F64Range => FindF64(id)
    case Outside => Error()
  }

  /** The control instructions: 0x00..0x05 and 0x0b..0x11. Any other byte yields the
      error definition. */
  function FindControl(id: byte): Ins
  {
    match id
    case 0x00 => Unreachable()
    case 0x01 => Nop()
    case 0x02 => Block()
    case 0x03 => Loop()
    case 0x04 => IfOp()
    case 0x05 => ElseIns()
    case 0x0b => End()
    case 0x0c => Br()
    case 0x0d => BrIf()
    case 0x0e => BrTable()
    case 0x0f => Ret()
    case 0x10 => Call()
    case 0x11 => CallIndir()
    case _ => Error()
  }

  /** The variable instructions: 0x20..0x24. Any other byte yields the error definition. */
  function FindVariable(id: byte): Ins
  {
    match id
    case 0x20 => LocalGet()
    case 0x21 => LocalSet()
    case 0x22 => LocalTee()
    case 0x23 => GlobalGet()
    case 0x24 => GlobalSet()
    case _ => Error()
  }

  /** The memory instructions: 0x28..0x40. Any other byte yields the error definition. */
  function FindMemory(id: byte): Ins
  {
    match id
    case 0x28 => I32Load()
    case 0x29 => I64Load()
    case 0x2a => F32Load()
    case 0x2b => F64Load()
    case 0x2c => I32Load8S()
    case 0x2d => I32Load8U()
    case 0x2e => I32Load16S()
    case 0x2f => I32Load16U()
    case 0x30 => I64Load8S()
    case 0x31 => I64Load8U()
    case 0x32 => I64Load16S()
    case 0x33 => I64Load16U()
    case 0x34 => I64Load32S()
    case 0x35 => I64Load32U()
    case 0x36 => I32Store()
    case 0x37 => I64Store()
    case 0x38 => F32Store()
    case 0x39 => F64Store()
    case 0x3a => I32Store8()
    case 0x3b => I32Store16()
    case 0x3c => I64Store8()
    case 0x3d => I64Store16()
    case 0x3e => I64Store32()
    case 0x3f => MemorySize()
    case 0x40 => MemoryGrow()
    case _ => Error()
  }

  /** The constants: 0x41..0x44. Any other byte yields the error definition. */
  function FindConst(id: byte): Ins
  {
    match id
    case 0x41 => I32Const()
    case 0x42 => I64Const()
    case 0x43 => F32Const()
    case 0x44 => F64Const()
    case _ => Error()
  }

  /** The i32 operators: eqz, comparisons, arithmetic and conversions to i32. Any other byte yields the error definition. */
  function FindI32(id: byte): Ins
  {
    match id
    case 0x45 => I32Eqz()
    case 0x46 => I32Eq()
    case 0x47 => I32Ne()
    case 0x48 => I32LtS()
    case 0x49 => I32LtU()
    case 0x4a => I32GtS()
    case 0x4b => I32GtU()
    case 0x4c => I32LeS()
    case 0x4d => I32LeU()
    case 0x4e => I32GeS()
    case 0x4f => I32GeU()
    case 0x67 => I32Clz()
    case 0x68 => I32Ctz()
    case 0x69 => I32Popcnt()
    case 0x6a => I32Add()
    case 0x6b => I32Sub()
    case 0x6c => I32Mul()
    case 0x6d => I32DivS()
    case 0x6e => I32DivU()
    case 0x6f => I32RemS()
    case 0x70 => I32RemU()
    case 0x71 => I32And()
    case 0x72 => I32Or()
    case 0x73 => I32Xor()
    case 0x74 => I32Shl()
    case 0x75 => I32ShrS()
    case 0x76 => I32ShrU()
    case 0x77 => I32Rotl()
    case 0x78 => I32Rotr()
    case 0xa7 => I32WrapI64()
    case 0xa8 => I32TruncF32S()
    case 0xa9 => I32TruncF32U()
    case 0xaa => I32TruncF64S()
    case 0xab => I32TruncF64U()
    case 0xbc => I32ReinterpretF32()
    case _ => Error()
  }

  /** The i64 operators: eqz, comparisons, arithmetic and conversions to i64. Any other byte yields the error definition. */
  function FindI64(id: byte): Ins
  {
    match id
    case 0x50 => I64Eqz()
    case 0x51 => I64Eq()
    case 0x52 => I64Ne()
    case 0x53 => I64LtS()
    case 0x54 => I64LtU()
    case 0x55 => I64GtS()
    case 0x56 => I64GtU()
    case 0x57 => I64LeS()
    case 0x58 => I64LeU()
    case 0x59 => I64GeS()
    case 0x5a => I64GeU()
    case 0x79 => I64Clz()
    case 0x7a => I64Ctz()
    case 0x7b => I64Popcnt()
    case 0x7c => I64Add()
    case 0x7d => I64Sub()
    case 0x7e => I64Mul()
    case 0x7f => I64DivS()
    case 0x80 => I64DivU()
    case 0x81 => I64RemS()
    case 0x82 => I64RemU()
    case 0x83 => I64And()
    case 0x84 => I64Or()
    case 0x85 => I64Xor()
    case 0x86 => I64Shl()
    case 0x87 => I64ShrS()
    case 0x88 => I64ShrU()
    case 0x89 => I64Rotl()
    case 0x8a => I64Rotr()
    case 0xac => I64ExtendI32S()
    case 0xad => I64ExtendI32U()
    case 0xae => I64TruncF32S()
    case 0xaf => I64TruncF64U()
    case 0xb0 => I64TruncF64S()
    case 0xb1 => I64TruncF64U()
    case 0xbd => I64ReinterpretF64()
    case _ => Error()
  }

  /** The f32 operators: comparisons, arithmetic and conversions to f32. Any other byte yields the error definition. */
  function FindF32(id: byte): Ins
  {
    match id
    case 0x5b => F32Eq()
    case 0x5c => F32Ne()
    case 0x5d => F32Lt()
    case 0x5e => F32Gt()
    case 0x5f => F32Le()
    case 0x60 => F32Ge()
    case 0x8b => F32Abs()
    case 0x8c => F32Neg()
    case 0x8d => F32Ceil()
    case 0x8e => F32Floor()
    case 0x8f => F32Trunc()
    case 0x90 => F32Nearest()
    case 0x91 => F32Sqrt()
    case 0x92 => F32Add()
    case 0x93 => F32Sum()
    case 0x94 => F32Mul()
    case 0x95 => F32Div()
    case 0x96 => F32Min()
    case 0x97 => F32Max()
    case 0x98 => F32Copysign()
    case 0xb2 => F32ConvertI32S()
    case 0xb3 => F32ConvertI32U()
    case 0xb4 => F32ConvertI64S()
    case 0xb5 => F32ConvertI64U()
    case 0xb6 => F32DemoteF64()
    case 0xbe => F32ReinterpretI32()
    case _ => Error()
  }

  /** The f64 operators: comparisons, arithmetic and conversions to f64. Any other byte yields the error definition. */
  function FindF64(id: byte): Ins
  {
    match id
    case 0x61 => F64Eq()
    case 0x62 => F64Ne()
    case 0x63 => F64Lt()
    case 0x64 => F64Gt()
    case 0x65 => F64Le()
    case 0x66 => F64Ge()
    case 0x99 => F64Abs()
    case 0x9a => F64Neg()
    case 0x9b => F64Ceil()
    case 0x9c => F64Floor()
    case 0x9d => F64Trunc()
    case 0x9e => F64Nearest()
    case 0x9f => F64Sqrt()
    case 0xa0 => F64Add()
    case 0xa1 => F64Sub()
    case 0xa2 => F64Mul()
    case 0xa3 => F64Div()
    case 0xa4 => F64Min()
    case 0xa5 => F64Max()
    case 0xa6 => F64Copysign()
    case 0xb7 => F64ConvertI32S()
    case 0xb8 => F64ConvertI32U()
    case 0xb9 => F64ConvertI64S()
    case 0xba => F64ConvertI64U()
    case 0xbb => F64PromoteF32()
    case 0xbf => F64ReinterpretI64()
    case _ => Error()
  }

  /** The bytes no range of the lookup covers. */
  predicate Undefined(b: byte)
  {
    (0x06 <= b <= 0x0a) || (0x12 <= b <= 0x1f) || (0x25 <= b <= 0x27) || 0xc0 <= b
  }

  /** The numeric operators taking two operands: comparisons and binary arithmetic. */
  predicate BinaryNumeric(b: byte)
  {
    (0x46 <= b <= 0x4f) || (0x51 <= b <= 0x66) || (0x6a <= b <= 0x78)
    || (0x7c <= b <= 0x8a) || (0x92 <= b <= 0x98) || (0xa0 <= b <= 0xa6)
  }

  /** What a control definition carries: its own opcode, at most two immediate groups and
      at most one operand. */
  predicate ControlShape(d: Ins, b: byte)
  {
    d.op == b && d.associatedBytes <= 2 && d.bytesConsumed <= 1
  }

  /** What a variable definition carries: its own opcode, one immediate group (the index)
      and at most one operand. */
  predicate VariableShape(d: Ins, b: byte)
  {
    d.op == b && d.associatedBytes == 1 && d.bytesConsumed <= 1
  }

  /** What a memory definition carries: loads and stores (up to 0x3e) take alignment and
      offset and one operand; memory_size (0x3f) takes one group and nothing, memory_grow
      (0x40) one group and one operand. */
  predicate MemoryShape(d: Ins, b: byte)
  {
    && d.op == b
    && d.associatedBytes == (if b <= 0x3e then 2 else 1)
    && d.bytesConsumed == (if b == 0x3f then 0 else 1)
  }

  /** What a constant definition carries: its own opcode, one immediate group, no operands
      and no hints. */
  predicate ConstShape(d: Ins, b: byte)
  {
    d.op == b && d.associatedBytes == 1 && d.bytesConsumed == 0 && d.nextBytes == None
  }

  /** What a numeric definition carries: its own opcode (the entry answering 0xaf is that
      of 0xb1), no immediates, and two operands exactly for the binary operators. */
  predicate NumericShape(d: Ins, b: byte)
  {
    && d.op == (if b == 0xaf then 0xb1 else b)
    && d.associatedBytes == 0
    && d.bytesConsumed == (if BinaryNumeric(b) then 2 else 1)
  }

  /** A byte falls outside every block exactly when it is undefined. */
  lemma OutsideIff(b: byte)
    ensures RangeOf(b) == Outside <==> Undefined(b)
  {
  }

  /** A byte outside every block yields the error definition. */
  lemma OutsideError(b: byte)
    requires RangeOf(b) == Outside
    ensures Find(b) == Error()
  {
  }

  // The control switch, a few cases at a time.

  /** The cases 0x00..0x05 of the control switch. */
  lemma ControlCases1(b: byte)
    requires 0x00 <= b <= 0x05
    ensures ControlShape(FindControl(b), b)
  {
  }

  /** The cases 0x0b..0x11 of the control switch. */
  lemma ControlCases2(b: byte)
    requires 0x0b <= b <= 0x11
    ensures ControlShape(FindControl(b), b)
  {
  }

  /** Every case of the control switch yields a definition of the control shape. */
  lemma ControlSwitch(b: byte)
    requires RangeOf(b) == ControlRange
    ensures ControlShape(FindControl(b), b)
  {
    if b <= 0x05 {
      ControlCases1(b);
    } else {
      ControlCases2(b);
    }
  }

  /** A byte of the control block reaches the control switch. */
  lemma EntersControl(b: byte)
    requires RangeOf(b) == ControlRange
    ensures Find(b) == FindControl(b)
  {
  }

  /** What the lookup yields for a byte of the control block. */
  lemma InControl(b: byte)
    requires RangeOf(b) == ControlRange
    ensures ControlShape(Find(b), b)
  {
    EntersControl(b);
    ControlSwitch(b);
  }

  // The variable switch, a few cases at a time.

  /** The cases 0x20..0x24 of the variable switch. */
  lemma VariableCases1(b: byte)
    requires 0x20 <= b <= 0x24
    ensures VariableShape(FindVariable(b), b)
  {
  }

  /** Every case of the variable switch yields a definition of the variable shape. */
  lemma VariableSwitch(b: byte)
    requires RangeOf(b) == VariableRange
    ensures VariableShape(FindVariable(b), b)
  {
    VariableCases1(b);
  }

  /** A byte of the variable block reaches the variable switch. */
  lemma EntersVariable(b: byte)
    requires RangeOf(b) == VariableRange
    ensures Find(b) == FindVariable(b)
  {
  }

  /** What the lookup yields for a byte of the variable block. */
  lemma InVariable(b: byte)
    requires RangeOf(b) == VariableRange
    ensures VariableShape(Find(b), b)
  {
    EntersVariable(b);
    VariableSwitch(b);
  }

  // The memory switch, a few cases at a time.

  /** The cases 0x28..0x2e of the memory switch. */
  lemma MemoryCases1(b: byte)
    requires 0x28 <= b <= 0x2e
    ensures MemoryShape(FindMemory(b), b)
  {
  }

  /** The cases 0x2f..0x35 of the memory switch. */
  lemma MemoryCases2(b: byte)
    requires 0x2f <= b <= 0x35
    ensures MemoryShape(FindMemory(b), b)
  {
  }

  /** The cases 0x36..0x3b of the memory switch. */
  lemma MemoryCases3(b: byte)
    requires 0x36 <= b <= 0x3b
    ensures MemoryShape(FindMemory(b), b)
  {
  }

  /** The cases 0x3c..0x40 of the memory switch. */
  lemma MemoryCases4(b: byte)
    requires 0x3c <= b <= 0x40
    ensures MemoryShape(FindMemory(b), b)
  {
  }

  /** Every case of the memory switch yields a definition of the memory shape. */
  lemma MemorySwitch(b: byte)
    requires RangeOf(b) == MemoryRange
    ensures MemoryShape(FindMemory(b), b)
  {
    if b <= 0x2e {
      MemoryCases1(b);
    } else if b <= 0x35 {
      MemoryCases2(b);
    } else if b <= 0x3b {
      MemoryCases3(b);
    } else {
      MemoryCases4(b);
    }
  }

  /** A byte of the memory block reaches the memory switch. */
  lemma EntersMemory(b: byte)
    requires RangeOf(b) == MemoryRange
    ensures Find(b) == FindMemory(b)
  {
  }

  /** What the lookup yields for a byte of the memory block. */
  lemma InMemory(b: byte)
    requires RangeOf(b) == MemoryRange
    ensures MemoryShape(Find(b), b)
  {
    EntersMemory(b);
    MemorySwitch(b);
  }

  // The constant switch, a few cases at a time.

  /** The cases 0x41..0x44 of the constant switch. */
  lemma ConstCases1(b: byte)
    requires 0x41 <= b <= 0x44
    ensures ConstShape(FindConst(b), b)
  {
  }

  /** Every case of the constant switch yields a definition of the constant shape. */
  lemma ConstSwitch(b: byte)
    requires RangeOf(b) == ConstRange
    ensures ConstShape(FindConst(b), b)
  {
    ConstCases1(b);
  }

  /** A byte of the constant block reaches the constant switch. */
  lemma EntersConst(b: byte)
    requires RangeOf(b) == ConstRange
    ensures Find(b) == FindConst(b)
  {
  }

  /** What the lookup yields for a byte of the constant block. */
  lemma InConst(b: byte)
    requires RangeOf(b) == ConstRange
    ensures ConstShape(Find(b), b)
  {
    EntersConst(b);
    ConstSwitch(b);
  }

  // The i32 switch, a few cases at a time.

  /** The cases 0x45..0x4b of the i32 switch. */
  lemma I32Cases1(b: byte)
    requires 0x45 <= b <= 0x4b
    ensures NumericShape(FindI32(b), b)
  {
  }

  /** The cases 0x4c..0x4f of the i32 switch. */
  lemma I32Cases2(b: byte)
    requires 0x4c <= b <= 0x4f
    ensures NumericShape(FindI32(b), b)
  {
  }

  /** The cases 0x67..0x6d of the i32 switch. */
  lemma I32Cases3(b: byte)
    requires 0x67 <= b <= 0x6d
    ensures NumericShape(FindI32(b), b)
  {
  }

  /** The cases 0x6e..0x73 of the i32 switch. */
  lemma I32Cases4(b: byte)
    requires 0x6e <= b <= 0x73
    ensures NumericShape(FindI32(b), b)
  {
  }

  /** The cases 0x74..0x78 of the i32 switch. */
  lemma I32Cases5(b: byte)
    requires 0x74 <= b <= 0x78
    ensures NumericShape(FindI32(b), b)
  {
  }

  /** The cases 0xa7..0xab and 0xbc of the i32 switch. */
  lemma I32Cases6(b: byte)
    requires 0xa7 <= b <= 0xab || b == 0xbc
    ensures NumericShape(FindI32(b), b)
  {
  }

  /** Every case of the i32 switch yields a definition of the i32 shape. */
  lemma I32Switch(b: byte)
    requires RangeOf(b) == I32Range
    ensures NumericShape(FindI32(b), b)
  {
    if b <= 0x4b {
      I32Cases1(b);
    } else if b <= 0x4f {
      I32Cases2(b);
    } else if b <= 0x6d {
      I32Cases3(b);
    } else if b <= 0x73 {
      I32Cases4(b);
    } else if b <= 0x78 {
      I32Cases5(b);
    } else {
      I32Cases6(b);
    }
  }

  /** A byte of the i32 block reaches the i32 switch. */
  lemma EntersI32(b: byte)
    requires RangeOf(b) == I32Range
    ensures Find(b) == FindI32(b)
  {
  }

  /** What the lookup yields for a byte of the i32 block. */
  lemma InI32(b: byte)
    requires RangeOf(b) == I32Range
    ensures NumericShape(Find(b), b)
  {
    EntersI32(b);
    I32Switch(b);
  }

  // The i64 switch, a few cases at a time.

  /** The cases 0x50..0x56 of the i64 switch. */
  lemma I64Cases1(b: byte)
    requires 0x50 <= b <= 0x56
    ensures NumericShape(FindI64(b), b)
  {
  }

  /** The cases 0x57..0x5a of the i64 switch. */
  lemma I64Cases2(b: byte)
    requires 0x57 <= b <= 0x5a
    ensures NumericShape(FindI64(b), b)
  {
  }

  /** The cases 0x79..0x7f of the i64 switch. */
  lemma I64Cases3(b: byte)
    requires 0x79 <= b <= 0x7f
    ensures NumericShape(FindI64(b), b)
  {
  }

  /** The cases 0x80..0x85 of the i64 switch. */
  lemma I64Cases4(b: byte)
    requires 0x80 <= b <= 0x85
    ensures NumericShape(FindI64(b), b)
  {
  }

  /** The cases 0x86..0x8a of the i64 switch. */
  lemma I64Cases5(b: byte)
    requires 0x86 <= b <= 0x8a
    ensures NumericShape(FindI64(b), b)
  {
  }

  /** The cases 0xac..0xb1 and 0xbd of the i64 switch. */
  lemma I64Cases6(b: byte)
    requires 0xac <= b <= 0xb1 || b == 0xbd
    ensures NumericShape(FindI64(b), b)
  {
  }

  /** Every case of the i64 switch yields a definition of the i64 shape. */
  lemma I64Switch(b: byte)
    requires RangeOf(b) == I64Range
    ensures NumericShape(FindI64(b), b)
  {
    if b <= 0x56 {
      I64Cases1(b);
    } else if b <= 0x5a {
      I64Cases2(b);
    } else if b <= 0x7f {
      I64Cases3(b);
    } else if b <= 0x85 {
      I64Cases4(b);
    } else if b <= 0x8a {
      I64Cases5(b);
    } else {
      I64Cases6(b);
    }
  }

  /** A byte of the i64 block reaches the i64 switch. */
  lemma EntersI64(b: byte)
    requires RangeOf(b) == I64Range
    ensures Find(b) == FindI64(b)
  {
  }

  /** What the lookup yields for a byte of the i64 block. */
  lemma InI64(b: byte)
    requires RangeOf(b) == I64Range
    ensures NumericShape(Find(b), b)
  {
    EntersI64(b);
    I64Switch(b);
  }

  // The f32 switch, a few cases at a time.

  /** The cases 0x5b..0x60 of the f32 switch. */
  lemma F32Cases1(b: byte)
    requires 0x5b <= b <= 0x60
    ensures NumericShape(FindF32(b), b)
  {
  }

  /** The cases 0x8b..0x91 of the f32 switch. */
  lemma F32Cases2(b: byte)
    requires 0x8b <= b <= 0x91
    ensures NumericShape(FindF32(b), b)
  {
  }

  /** The cases 0x92..0x98 of the f32 switch. */
  lemma F32Cases3(b: byte)
    requires 0x92 <= b <= 0x98
    ensures NumericShape(FindF32(b), b)
  {
  }

  /** The cases 0xb2..0xb6 and 0xbe of the f32 switch. */
  lemma F32Cases4(b: byte)
    requires 0xb2 <= b <= 0xb6 || b == 0xbe
    ensures NumericShape(FindF32(b), b)
  {
  }

  /** Every case of the f32 switch yields a definition of the f32 shape. */
  lemma F32Switch(b: byte)
    requires RangeOf(b) == F32Range
    ensures NumericShape(FindF32(b), b)
  {
    if b <= 0x60 {
      F32Cases1(b);
    } else if b <= 0x91 {
      F32Cases2(b);
    } else if b <= 0x98 {
      F32Cases3(b);
    } else {
      F32Cases4(b);
    }
  }

  /** A byte of the f32 block reaches the f32 switch. */
  lemma EntersF32(b: byte)
    requires RangeOf(b) == F32Range
    ensures Find(b) == FindF32(b)
  {
  }

  /** What the lookup yields for a byte of the f32 block. */
  lemma InF32(b: byte)
    requires RangeOf(b) == F32Range
    ensures NumericShape(Find(b), b)
  {
    EntersF32(b);
    F32Switch(b);
  }

  // The f64 switch, a few cases at a time.

  /** The cases 0x61..0x66 of the f64 switch. */
  lemma F64Cases1(b: byte)
    requires 0x61 <= b <= 0x66
    ensures NumericShape(FindF64(b), b)
  {
  }

  /** The cases 0x99..0x9f of the f64 switch. */
  lemma F64Cases2(b: byte)
    requires 0x99 <= b <= 0x9f
    ensures NumericShape(FindF64(b), b)
  {
  }

  /** The cases 0xa0..0xa6 of the f64 switch. */
  lemma F64Cases3(b: byte)
    requires 0xa0 <= b <= 0xa6
    ensures NumericShape(FindF64(b), b)
  {
  }

  /** The cases 0xb7..0xbb and 0xbf of the f64 switch. */
  lemma F64Cases4(b: byte)
    requires 0xb7 <= b <= 0xbb || b == 0xbf
    ensures NumericShape(FindF64(b), b)
  {
  }

  /** Every case of the f64 switch yields a definition of the f64 shape. */
  lemma F64Switch(b: byte)
    requires RangeOf(b) == F64Range
    ensures NumericShape(FindF64(b), b)
  {
    if b <= 0x66 {
      F64Cases1(b);
    } else if b <= 0x9f {
      F64Cases2(b);
    } else if b <= 0xa6 {
      F64Cases3(b);
    } else {
      F64Cases4(b);
    }
  }

  /** A byte of the f64 block reaches the f64 switch. */
  lemma EntersF64(b: byte)
    requires RangeOf(b) == F64Range
    ensures Find(b) == FindF64(b)
  {
  }

  /** What the lookup yields for a byte of the f64 block. */
  lemma InF64(b: byte)
    requires RangeOf(b) == F64Range
    ensures NumericShape(Find(b), b)
  {
    EntersF64(b);
    F64Switch(b);
  }

  /** Every byte inside a block yields a definition carrying its own opcode (0xaf
      excepted), with at most two immediate groups and at most two operands. */
  lemma Switched(b: byte)
    requires RangeOf(b) != Outside
    ensures b != 0xaf ==> Find(b).op == b
    ensures Find(b).associatedBytes <= 2 && Find(b).bytesConsumed <= 2
  {
    match RangeOf(b)
    case ControlRange => InControl(b);
    case VariableRange => InVariable(b);
    case MemoryRange => InMemory(b);
    case ConstRange => InConst(b);
    case I32Range => InI32(b);
    case I64Range => InI64(b);
    case F32Range => InF32(b);
    case F64Range => InF64(b);
  }

  /** Every byte yields a definition with at most two immediate groups and an arity of
      at most two. */
  lemma FindBounds(b: byte)
    ensures Find(b).associatedBytes <= 2 && Find(b).bytesConsumed <= 2
  {
    if RangeOf(b) == Outside {
      OutsideError(b);
    } else {
      Switched(b);
    }
  }

  /** Exactly the undefined bytes fall back to the error definition; in particular the
      constant and numeric families leave no gap in 0x41..0xbf. */
  lemma FindErrorIff(b: byte)
    ensures Find(b) == Error() <==> Undefined(b)
  {
    OutsideIff(b);
    ErrorEntry();
    if RangeOf(b) == Outside {
      OutsideError(b);
    } else {
      Switched(b);
    }
  }

  /** Every defined byte other than 0xaf maps to the definition carrying that opcode. */
  lemma FindOpcodeIdentity(b: byte)
    requires !Undefined(b) && b != 0xaf
    ensures Find(b).op == b
  {
    OutsideIff(b);
    Switched(b);
  }

  /** The lookup answers 0xaf with the i64_trunc_f64_u entry, whose own opcode is 0xb1. */
  lemma FindQuirk()
    ensures Find(0xaf) == I64TruncF64U() && Find(0xaf).op == 0xb1
    ensures Find(0xaf) == Find(0xb1) && Find(0xaf) != I64TruncF32U()
  {
  }

  /** Only 0x02 and 0x03 yield definitions whose opcode opens a block or loop, and only
      0x0b yields a definition whose opcode is `end`; the decoder tests these opcodes. */
  lemma FindBlockAndEnd(b: byte)
    ensures 0x02 <= Find(b).op <= 0x03 <==> b == 0x02 || b == 0x03
    ensures Find(b) == Block() <==> b == 0x02
    ensures Find(b) == Loop() <==> b == 0x03
    ensures Find(b).op == 0x0b <==> b == 0x0b
    ensures Find(b) == End() <==> b == 0x0b
  {
    ControlEntries();
    FindQuirk();
    if RangeOf(b) == Outside {
      OutsideError(b);
      ErrorEntry();
    } else {
      Switched(b);
    }
  }

  /** The control entries: block and loop have no immediates, arity 0 and hint 0x40;
      call_indir has two groups and the hints 0xff, 0x00 in that order. */
  lemma ControlEntries()
    ensures Find(0x02) == Ins(0x02, 0, 0, "block", Some([0x40]))
    ensures Find(0x03) == Ins(0x03, 0, 0, "loop", Some([0x40]))
    ensures Find(0x04).associatedBytes == 0 && Find(0x04).bytesConsumed == 1
    ensures Find(0x0c).associatedBytes == 1 && Find(0x0c).bytesConsumed == 0
    ensures Find(0x0d).associatedBytes == 1 && Find(0x0d).bytesConsumed == 1
    ensures Find(0x0e).associatedBytes == 2 && Find(0x0e).bytesConsumed == 0
    ensures Find(0x10).associatedBytes == 1 && Find(0x10).bytesConsumed == 0
    ensures Find(0x11) == Ins(0x11, 2, 0, "call_indir", Some([0xff, 0x00]))
    ensures Find(0x0b) == Ins(0x0b, 0, 0, "end", None)
  {
  }

  /** The error entry: opcode 0xef, mnemonic "error", no immediates, arity 0, no hints. */
  lemma ErrorEntry()
    ensures Error() == Ins(0xef, 0, 0, "error", None)
    ensures Find(0xff) == Error()
  {
  }

  /** Every load and store has two immediate groups (alignment and offset) and arity 1;
      memory_size has one group and arity 0, memory_grow one group and arity 1. */
  lemma MemoryFamily(b: byte)
    requires 0x28 <= b <= 0x40
    ensures Find(b).associatedBytes == (if b <= 0x3e then 2 else 1)
    ensures Find(b).bytesConsumed == (if b == 0x3f then 0 else 1)
  {
    InMemory(b);
  }

  /** The four literal opcodes each take exactly one immediate group and no operands. */
  lemma ConstantFamily(b: byte)
    requires 0x41 <= b <= 0x44
    ensures Find(b).associatedBytes == 1 && Find(b).bytesConsumed == 0
    ensures Find(b).op == b && Find(b).nextBytes == None
  {
    InConst(b);
  }

  /** Only the four constant bytes yield a constant definition. */
  lemma ConstantOpcodes(b: byte)
    ensures 0x41 <= Find(b).op <= 0x44 <==> 0x41 <= b <= 0x44
  {
    FindErrorIff(b);
    FindQuirk();
    if !Undefined(b) && b != 0xaf {
      FindOpcodeIdentity(b);
    }
  }

  /** Numeric operators carry no immediates; comparisons and binary arithmetic take two
      operands, eqz, the unary operators and the conversions take one. */
  lemma NumericFamily(b: byte)
    requires 0x45 <= b <= 0xbf
    ensures Find(b).associatedBytes == 0
    ensures Find(b).bytesConsumed == (if BinaryNumeric(b) then 2 else 1)
  {
    match RangeOf(b)
    case I32Range => InI32(b);
    case I64Range => InI64(b);
    case F32Range => InF32(b);
    case F64Range => InF64(b);
  }

  /** Mnemonics are kept verbatim, including the "f32_sum" spelling of 0x93. */
  lemma Mnemonics()
    ensures Find(0x93).symbol == "f32_sum"
    ensures Find(0x6a).symbol == "i32_add"
    ensures Find(0xa1).symbol == "f64_sub"
  {
  }
}
