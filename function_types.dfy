/** The value types the function representation is built from: WebAssembly value types,
    data definitions, decoded operations and the expression tree. */
module FunctionTypes {
  import opened Base
  import opened Opcodes

  /** The value types; `NoneType` stands for void. */
  datatype DataType = I32 | I64 | F32 | F64 | NoneType

  /** A named, typed slot: a parameter or the result of a function. */
  datatype DataDef = DataDef(dtype: DataType, pointer: bool, name: string)

  /** A value-initialised data definition: the first type, not a pointer, no name. */
  const DefaultDataDef: DataDef := DataDef(I32, false, "")

  /** A decoded operation: its catalog definition and the immediate bytes read after it. */
  datatype Oper = Oper(op: Ins, bytes: seq<byte>)

  /** A default operation is the error definition with no bytes. */
  const DefaultOper: Oper := Oper(Error(), [])

  /** The one-argument constructor: the definition with an empty byte list. */
  function OperOf(ins: Ins): (o: Oper)
    ensures o.op == ins && |o.bytes| == 0
  {
    Oper(ins, [])
  }

  /** A node of the expression tree. A fresh node has neither child. */
  datatype Statement = Statement(operation: Oper, left: Option<Statement>, right: Option<Statement>)

  /** A fresh node holding one operation. */
  function Leaf(o: Oper): (s: Statement)
    ensures s.operation == o && s.left == None && s.right == None
  {
    Statement(o, None, None)
  }

  /** The five value types, each spelled as the printer spells it. */
  function TypeName(t: DataType): (s: string)
    ensures |s| >= 3
  {
    match t
    case I32 => "i32"
    case I64 => "i64"
    case F32 => "f32"
    case F64 => "f64"
    case NoneType => "void"
  }

  /** The defaults: an operation is the error entry with no bytes, a data definition is an
      unnamed non-pointer of the first type. */
  lemma Defaults()
    ensures DefaultOper.op.op == 0xef && DefaultOper.op.symbol == "error"
    ensures DefaultOper.bytes == []
    ensures DefaultDataDef.dtype == I32 && !DefaultDataDef.pointer && DefaultDataDef.name == ""
  {
  }
}
