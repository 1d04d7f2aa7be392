/** The instruction catalog: one definition per opcode byte, as the decompiler's
    header declares them. Opcode numbering follows section 5.4 (Instructions) of the
    WebAssembly Core Specification 1.0. */
module Opcodes {
  import opened Base

  /** One instruction definition. `associatedBytes` is the number of immediate groups
      that follow the opcode, `bytesConsumed` the number of earlier tree nodes the
      instruction takes as operands, `nextBytes` the optional list of expected
      following bytes (a null pointer when the definition gives none). */
  datatype Ins = Ins(
    op: byte,
    associatedBytes: nat,
    bytesConsumed: nat,
    symbol: string,
    nextBytes: Option<seq<byte>>)

  /** The two constructors of the definition struct. Without trailing hint bytes the
      hint pointer stays null; the variadic one allocates a buffer of the hint count and
      copies the hints into it with an index loop, in argument order. Every catalog
      entry below is the value this builds from the entry's arguments. */
  method NewIns(op: byte, name: string, len: nat, typeLength: nat, ts: seq<byte>) returns (r: Ins)
    ensures r.op == op && r.symbol == name
    ensures r.associatedBytes == len && r.bytesConsumed == typeLength
    ensures |ts| == 0 ==> r.nextBytes == None
    ensures |ts| > 0 ==> r.nextBytes == Some(ts)
  {
    r := Ins(op, len, typeLength, name, None);
    if |ts| == 0 {
      return;
    }
    var nextBytes := new byte[|ts|];
    var i := 0;
    while i < |ts|
      invariant 0 <= i <= |ts|
      invariant nextBytes[..i] == ts[..i]
    {
      nextBytes[i] := ts[i];
      i := i + 1;
    }
    assert nextBytes[..] == ts;
    r := r.(nextBytes := Some(nextBytes[..]));
  }

  // The sentinel for bytes the catalog does not define (opcodes.h:66, repeated at opcodes.h:94).
  function Error(): Ins { Ins(0xef, 0, 0, "error", None) }

  // Control instructions (opcodes.h:77-93).
  function Unreachable(): Ins { Ins(0x00, 0, 0, "unreachable", None) }
  function Nop(): Ins { Ins(0x01, 0, 0, "nop", None) }
  function Block(): Ins { Ins(0x02, 0, 0, "block", Some([0x40])) }
  function Loop(): Ins { Ins(0x03, 0, 0, "loop", Some([0x40])) }
  function IfOp(): Ins { Ins(0x04, 0, 1, "if", Some([0x40])) }
  function ElseIns(): Ins { Ins(0x05, 0, 0, "else", None) }
  function End(): Ins { Ins(0x0b, 0, 0, "end", None) }
  function Br(): Ins { Ins(0x0c, 1, 0, "br", None) }
  function BrIf(): Ins { Ins(0x0d, 1, 1, "br_if", None) }
  function BrTable(): Ins { Ins(0x0e, 2, 0, "br_table", None) }
  function Ret(): Ins { Ins(0x0f, 0, 0, "ret", None) }
  function Call(): Ins { Ins(0x10, 1, 0, "call", None) }
  function CallIndir(): Ins { Ins(0x11, 2, 0, "call_indir", Some([0xff, 0x00])) }
  function FuncStart(): Ins { Ins(0xee, 0, 0, "function", None) }

  // Variable instructions (opcodes.h:101-105).
  function LocalGet(): Ins { Ins(0x20, 1, 0, "local_get", None) }
  function LocalSet(): Ins { Ins(0x21, 1, 1, "local_set", None) }
  function LocalTee(): Ins { Ins(0x22, 1, 1, "local_tee", None) }
  function GlobalGet(): Ins { Ins(0x23, 1, 0, "global_get", None) }
  function GlobalSet(): Ins { Ins(0x24, 1, 1, "global_set", None) }

  // Memory instructions, 0x28-0x40 (opcodes.h:111-135).
  function I32Load(): Ins { Ins(0x28, 2, 1, "i32_load", None) }
  function I64Load(): Ins { Ins(0x29, 2, 1, "i64_load", None) }
  function F32Load(): Ins { Ins(0x2a, 2, 1, "f32_load", None) }
  function F64Load(): Ins { Ins(0x2b, 2, 1, "f64_load", None) }
  function I32Load8S(): Ins { Ins(0x2c, 2, 1, "i32_load8_s", None) }
  function I32Load8U(): Ins { Ins(0x2d, 2, 1, "i32_load8_u", None) }
  function I32Load16S(): Ins { Ins(0x2e, 2, 1, "i32_load16_s", None) }
  function I32Load16U(): Ins { Ins(0x2f, 2, 1, "i32_load16_u", None) }
  function I64Load8S(): Ins { Ins(0x30, 2, 1, "i64_load8_s", None) }
  function I64Load8U(): Ins { Ins(0x31, 2, 1, "i64_load8_u", None) }
  function I64Load16S(): Ins { Ins(0x32, 2, 1, "i64_load16_s", None) }
  function I64Load16U(): Ins { Ins(0x33, 2, 1, "i64_load16_u", None) }
  function I64Load32S(): Ins { Ins(0x34, 2, 1, "i64_load32_s", None) }
  function I64Load32U(): Ins { Ins(0x35, 2, 1, "i64_load32_u", None) }
  function I32Store(): Ins { Ins(0x36, 2, 1, "i32_store", None) }
  function I64Store(): Ins { Ins(0x37, 2, 1, "i64_store", None) }
  function F32Store(): Ins { Ins(0x38, 2, 1, "f32_store", None) }
  function F64Store(): Ins { Ins(0x39, 2, 1, "f64_store", None) }
  function I32Store8(): Ins { Ins(0x3a, 2, 1, "i32_store8", None) }
  function I32Store16(): Ins { Ins(0x3b, 2, 1, "i32_store16", None) }
  function I64Store8(): Ins { Ins(0x3c, 2, 1, "i64_store8", None) }
  function I64Store16(): Ins { Ins(0x3d, 2, 1, "i64_store16", None) }
  function I64Store32(): Ins { Ins(0x3e, 2, 1, "i64_store32", None) }
  function MemorySize(): Ins { Ins(0x3f, 1, 0, "memory_size", Some([0x00])) }
  function MemoryGrow(): Ins { Ins(0x40, 1, 1, "memory_grow", Some([0x00])) }

  // Numeric literals (opcodes.h:141-144).
  function I32Const(): Ins { Ins(0x41, 1, 0, "i32_const", None) }
  function I64Const(): Ins { Ins(0x42, 1, 0, "i64_const", None) }
  function F32Const(): Ins { Ins(0x43, 1, 0, "f32_const", None) }
  function F64Const(): Ins { Ins(0x44, 1, 0, "f64_const", None) }

  // i32 operators (opcodes.h:149-188).
  function I32Eqz(): Ins { Ins(0x45, 0, 1, "i32_eqz", None) }
  function I32Eq(): Ins { Ins(0x46, 0, 2, "i32_eq", None) }
  function I32Ne(): Ins { Ins(0x47, 0, 2, "i32_ne", None) }
  function I32LtS(): Ins { Ins(0x48, 0, 2, "i32_lt_s", None) }
  function I32LtU(): Ins { Ins(0x49, 0, 2, "i32_lt_u", None) }
  function I32GtS(): Ins { Ins(0x4a, 0, 2, "i32_gt_s", None) }
  function I32GtU(): Ins { Ins(0x4b, 0, 2, "i32_gt_u", None) }
  function I32LeS(): Ins { Ins(0x4c, 0, 2, "i32_le_s", None) }
  function I32LeU(): Ins { Ins(0x4d, 0, 2, "i32_le_u", None) }
  function I32GeS(): Ins { Ins(0x4e, 0, 2, "i32_ge_s", None) }
  function I32GeU(): Ins { Ins(0x4f, 0, 2, "i32_ge_u", None) }
  function I32Clz(): Ins { Ins(0x67, 0, 1, "i32_clz", None) }
  function I32Ctz(): Ins { Ins(0x68, 0, 1, "i32_ctz", None) }
  function I32Popcnt(): Ins { Ins(0x69, 0, 1, "i32_popcnt", None) }
  function I32Add(): Ins { Ins(0x6a, 0, 2, "i32_add", None) }
  function I32Sub(): Ins { Ins(0x6b, 0, 2, "i32_sub", None) }
  function I32Mul(): Ins { Ins(0x6c, 0, 2, "i32_mul", None) }
  function I32DivS(): Ins { Ins(0x6d, 0, 2, "i32_div_s", None) }
  function I32DivU(): Ins { Ins(0x6e, 0, 2, "i32_div_u", None) }
  function I32RemS(): Ins { Ins(0x6f, 0, 2, "i32_rem_s", None) }
  function I32RemU(): Ins { Ins(0x70, 0, 2, "i32_rem_u", None) }
  function I32And(): Ins { Ins(0x71, 0, 2, "i32_and", None) }
  function I32Or(): Ins { Ins(0x72, 0, 2, "i32_or", None) }
  function I32Xor(): Ins { Ins(0x73, 0, 2, "i32_xor", None) }
  function I32Shl(): Ins { Ins(0x74, 0, 2, "i32_shl", None) }
  function I32ShrS(): Ins { Ins(0x75, 0, 2, "i32_shr_s", None) }
  function I32ShrU(): Ins { Ins(0x76, 0, 2, "i32_shr_u", None) }
  function I32Rotl(): Ins { Ins(0x77, 0, 2, "i32_rotl", None) }
  function I32Rotr(): Ins { Ins(0x78, 0, 2, "i32_rotr", None) }
  function I32WrapI64(): Ins { Ins(0xa7, 0, 1, "i32_wrap_i64", None) }
  function I32TruncF32S(): Ins { Ins(0xa8, 0, 1, "i32_trunc_f32_s", None) }
  function I32TruncF32U(): Ins { Ins(0xa9, 0, 1, "i32_trunc_f32_u", None) }
  function I32TruncF64S(): Ins { Ins(0xaa, 0, 1, "i32_trunc_f64_s", None) }
  function I32TruncF64U(): Ins { Ins(0xab, 0, 1, "i32_trunc_f64_u", None) }
  function I32ReinterpretF32(): Ins { Ins(0xbc, 0, 1, "i32_reinterpret_f32", None) }

  // i64 operators (opcodes.h:194-234).
  function I64Eqz(): Ins { Ins(0x50, 0, 1, "i64_eqz", None) }
  function I64Eq(): Ins { Ins(0x51, 0, 2, "i64_eq", None) }
  function I64Ne(): Ins { Ins(0x52, 0, 2, "i64_ne", None) }
  function I64LtS(): Ins { Ins(0x53, 0, 2, "i64_lt_s", None) }
  function I64LtU(): Ins { Ins(0x54, 0, 2, "i64_lt_u", None) }
  function I64GtS(): Ins { Ins(0x55, 0, 2, "i64_gt_s", None) }
  function I64GtU(): Ins { Ins(0x56, 0, 2, "i64_gt_u", None) }
  function I64LeS(): Ins { Ins(0x57, 0, 2, "i64_le_s", None) }
  function I64LeU(): Ins { Ins(0x58, 0, 2, "i64_le_u", None) }
  function I64GeS(): Ins { Ins(0x59, 0, 2, "i64_ge_s", None) }
  function I64GeU(): Ins { Ins(0x5a, 0, 2, "i64_ge_u", None) }
  function I64Clz(): Ins { Ins(0x79, 0, 1, "i64_clz", None) }
  function I64Ctz(): Ins { Ins(0x7a, 0, 1, "i64_ctz", None) }
  function I64Popcnt(): Ins { Ins(0x7b, 0, 1, "i64_popcnt", None) }
  function I64Add(): Ins { Ins(0x7c, 0, 2, "i64_add", None) }
  function I64Sub(): Ins { Ins(0x7d, 0, 2, "i64_sub", None) }
  function I64Mul(): Ins { Ins(0x7e, 0, 2, "i64_mul", None) }
  function I64DivS(): Ins { Ins(0x7f, 0, 2, "i64_div_s", None) }
  function I64DivU(): Ins { Ins(0x80, 0, 2, "i64_div_u", None) }
  function I64RemS(): Ins { Ins(0x81, 0, 2, "i64_rem_s", None) }
  function I64RemU(): Ins { Ins(0x82, 0, 2, "i64_rem_u", None) }
  function I64And(): Ins { Ins(0x83, 0, 2, "i64_and", None) }
  function I64Or(): Ins { Ins(0x84, 0, 2, "i64_or", None) }
  function I64Xor(): Ins { Ins(0x85, 0, 2, "i64_xor", None) }
  function I64Shl(): Ins { Ins(0x86, 0, 2, "i64_shl", None) }
  function I64ShrS(): Ins { Ins(0x87, 0, 2, "i64_shr_s", None) }
  function I64ShrU(): Ins { Ins(0x88, 0, 2, "i64_shr_u", None) }
  function I64Rotl(): Ins { Ins(0x89, 0, 2, "i64_rotl", None) }
  function I64Rotr(): Ins { Ins(0x8a, 0, 2, "i64_rotr", None) }
  function I64ExtendI32S(): Ins { Ins(0xac, 0, 1, "i64_extend_i32_s", None) }
  function I64ExtendI32U(): Ins { Ins(0xad, 0, 1, "i64_extend_i32_u", None) }
  function I64TruncF32S(): Ins { Ins(0xae, 0, 1, "i64_trunc_f32_s", None) }
  function I64TruncF32U(): Ins { Ins(0xaf, 0, 1, "i64_trunc_f32_u", None) }
  function I64TruncF64S(): Ins { Ins(0xb0, 0, 1, "i64_trunc_f64_s", None) }
  function I64TruncF64U(): Ins { Ins(0xb1, 0, 1, "i64_trunc_f64_u", None) }
  function I64ReinterpretF64(): Ins { Ins(0xbd, 0, 1, "i64_reinterpret_f64", None) }

  // f32 operators (opcodes.h:241-271); 0x93 keeps its mnemonic "f32_sum".
  function F32Eq(): Ins { Ins(0x5b, 0, 2, "f32_eq", None) }
  function F32Ne(): Ins { Ins(0x5c, 0, 2, "f32_ne", None) }
  function F32Lt(): Ins { Ins(0x5d, 0, 2, "f32_lt", None) }
  function F32Gt(): Ins { Ins(0x5e, 0, 2, "f32_gt", None) }
  function F32Le(): Ins { Ins(0x5f, 0, 2, "f32_le", None) }
  function F32Ge(): Ins { Ins(0x60, 0, 2, "f32_ge", None) }
  function F32Abs(): Ins { Ins(0x8b, 0, 1, "f32_abs", None) }
  function F32Neg(): Ins { Ins(0x8c, 0, 1, "f32_neg", None) }
  function F32Ceil(): Ins { Ins(0x8d, 0, 1, "f32_ceil", None) }
  function F32Floor(): Ins { Ins(0x8e, 0, 1, "f32_floor", None) }
  function F32Trunc(): Ins { Ins(0x8f, 0, 1, "f32_trunc", None) }
  function F32Nearest(): Ins { Ins(0x90, 0, 1, "f32_nearest", None) }
  function F32Sqrt(): Ins { Ins(0x91, 0, 1, "f32_sqrt", None) }
  function F32Add(): Ins { Ins(0x92, 0, 2, "f32_add", None) }
  function F32Sum(): Ins { Ins(0x93, 0, 2, "f32_sum", None) }
  function F32Mul(): Ins { Ins(0x94, 0, 2, "f32_mul", None) }
  function F32Div(): Ins { Ins(0x95, 0, 2, "f32_div", None) }
  function F32Min(): Ins { Ins(0x96, 0, 2, "f32_min", None) }
  function F32Max(): Ins { Ins(0x97, 0, 2, "f32_max", None) }
  function F32Copysign(): Ins { Ins(0x98, 0, 2, "f32_copysign", None) }
  function F32ConvertI32S(): Ins { Ins(0xb2, 0, 1, "f32_convert_i32_s", None) }
  function F32ConvertI32U(): Ins { Ins(0xb3, 0, 1, "f32_convert_i32_u", None) }
  function F32ConvertI64S(): Ins { Ins(0xb4, 0, 1, "f32_convert_i64_s", None) }
  function F32ConvertI64U(): Ins { Ins(0xb5, 0, 1, "f32_convert_i64_u", None) }
  function F32DemoteF64(): Ins { Ins(0xb6, 0, 1, "f32_demote_f64", None) }
  function F32ReinterpretI32(): Ins { Ins(0xbe, 0, 1, "f32_reinterpret_i32", None) }

  // f64 operators (opcodes.h:278-308).
  function F64Eq(): Ins { Ins(0x61, 0, 2, "f64_eq", None) }
  function F64Ne(): Ins { Ins(0x62, 0, 2, "f64_ne", None) }
  function F64Lt(): Ins { Ins(0x63, 0, 2, "f64_lt", None) }
  function F64Gt(): Ins { Ins(0x64, 0, 2, "f64_gt", None) }
  function F64Le(): Ins { Ins(0x65, 0, 2, "f64_le", None) }
  function F64Ge(): Ins { Ins(0x66, 0, 2, "f64_ge", None) }
  function F64Abs(): Ins { Ins(0x99, 0, 1, "f64_abs", None) }
  function F64Neg(): Ins { Ins(0x9a, 0, 1, "f64_neg", None) }
  function F64Ceil(): Ins { Ins(0x9b, 0, 1, "f64_ceil", None) }
  function F64Floor(): Ins { Ins(0x9c, 0, 1, "f64_floor", None) }
  function F64Trunc(): Ins { Ins(0x9d, 0, 1, "f64_trunc", None) }
  function F64Nearest(): Ins { Ins(0x9e, 0, 1, "f64_nearest", None) }
  function F64Sqrt(): Ins { Ins(0x9f, 0, 1, "f64_sqrt", None) }
  function F64Add(): Ins { Ins(0xa0, 0, 2, "f64_add", None) }
  function F64Sub(): Ins { Ins(0xa1, 0, 2, "f64_sub", None) }
  function F64Mul(): Ins { Ins(0xa2, 0, 2, "f64_mul", None) }
  function F64Div(): Ins { Ins(0xa3, 0, 2, "f64_div", None) }
  function F64Min(): Ins { Ins(0xa4, 0, 2, "f64_min", None) }
  function F64Max(): Ins { Ins(0xa5, 0, 2, "f64_max", None) }
  function F64Copysign(): Ins { Ins(0xa6, 0, 2, "f64_copysign", None) }
  function F64ConvertI32S(): Ins { Ins(0xb7, 0, 1, "f64_convert_i32_s", None) }
  function F64ConvertI32U(): Ins { Ins(0xb8, 0, 1, "f64_convert_i32_u", None) }
  function F64ConvertI64S(): Ins { Ins(0xb9, 0, 1, "f64_convert_i64_s", None) }
  function F64ConvertI64U(): Ins { Ins(0xba, 0, 1, "f64_convert_i64_u", None) }
  function F64PromoteF32(): Ins { Ins(0xbb, 0, 1, "f64_promote_f32", None) }
  function F64ReinterpretI64(): Ins { Ins(0xbf, 0, 1, "f64_reinterpret_i64", None) }
}
