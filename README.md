# cppWasmDecomp core, modelled in Dafny

This project models the bytecode-decoding half of a small C++ WebAssembly decompiler and proves properties of the model. The model has these parts:

- **Instruction catalog** (`Opcodes`, `OpcodeLookup`). There is one definition per opcode byte, and `Find` is the total lookup from a byte to its definition. Like `opcodes::find`, it uses range tests and then one switch per instruction family.
- **Integer helpers** (`Maths`):
  - the unsigned base-128 decoder, capped at four bytes;
  - `nextu32Length` and `getNextu32`, written as loops over a byte sequence and a four-byte array.
- **Decoding engine** (`Decoding`, `Functions`):
  - `Decoding` gives the cursor read, the immediate reader and the two-stack tree builder as functions of the bytecode and a decoder state. One iteration of the loop is one `Step`.
  - `Functions.Function` is the class with the real fields (`byteCode`, `loc`, `ops`, `statements`, the signature). Its methods (`NextByte`, `GetValueBytes`, `DecodeFunction`) update those fields in place. Each method is proved equal to the corresponding function.
- **Renderer** (`Render`, `Functions.Function.Print`):
  - the recursive expression printer;
  - the function printer, which writes the signature line, the indented statements, the leftover operand and the closing `end`.
- **Section parsers** (`Sections`, `Extraction`). These read the type section, the function section, the export section and the code-section framing:
  - `Sections` states them as functions of each section's bytes;
  - `Extraction.Mediator` runs them as the mediator's loops over a list of `Function` objects.

**Errors.** Exceptions and undefined behaviour of the original become explicit error results:
- a read past the end of the bytecode (`Overrun`);
- `top()` on two empty stacks (`StackUnderflow`);
- an out-of-range vector read (`OutOfBounds`);
- a type entry not starting with 0x60 (`MalformedSignature`);
- an index naming no signature or no function (`BadIndex`, `NoFunction`).

The opcode numbering follows section 5.4 of the WebAssembly Core Specification 1.0. The integer decoder is unsigned LEB128 (section 5.2.2) truncated to four bytes.

## Where the model follows the code rather than its comments or the WebAssembly format

- **Where a built node goes.** An instruction that takes operands pushes the node it builds onto the statement stack. It does not go onto the operand stack (Function.cpp:132). `Decoding.DispatchUnary`, `Decoding.DispatchBinary`, `Scenarios.DecodeAdd` and `Scenarios.DecodeBlock` show this.
- **The LEB128 round trip stops at 2^28.** The decoder never reads a fifth byte, so only values below 2^28 round-trip. The value 2^31 − 1 comes back as 2^28 − 1 (`Maths.ULeb32MaxInt32`).
- **Leftover operands.** The operand stack may end holding several operands. Only its top is printed. Nothing bounds the leftover count.
- **The cursor is never reset.** `decodeFunction` does not reset the cursor, so decoding starts wherever `loc` stands. Fresh functions start at 0.
- **`if` (0x04).** It is not a block opener for the decoder, so its block-type byte is read as the next opcode.
- **The 0xaf quirk.** `find(0xaf)` answers with the `i64_trunc_f64_u` entry, whose opcode is 0xb1. This is kept as written (`OpcodeLookup.FindQuirk`).

## Model

| member | source | states |
|---|---|---|
| `Base.NatToString` | Function.cpp:297-302 | The decimal text of a number is non-empty and made of digits only. |
| `Base.NatToStringRoundTrip` | Function.cpp:297-302 | The decimal text of a number reads back as that number. |
| `Base.NatToStringInjective` | Function.cpp:297-302 | Two different numbers never print the same text. |
| `FunctionTypes.OperOf` | Function.h:38-41 | The one-argument `oper` constructor keeps the definition and has no bytes. |
| `FunctionTypes.Leaf` | Function.h:50-55 | A fresh statement holds its operation and has null left and right children. |
| `FunctionTypes.Defaults` | Function.h:24-36 | A default `oper` is the error definition (0xef, "error") with no bytes. A default `dataDef` is an unnamed non-pointer i32. |
| `Opcodes.NewIns` | opcodes.h:24-54 | Both constructors copy the fields. Without hints `nextBytes` stays null. Otherwise it holds a copy of the hints in argument order. |
| `OpcodeLookup.OutsideIff` | opcodes.cpp:5-282 | A byte fails every range test exactly when it is one of the undefined bytes. |
| `OpcodeLookup.OutsideError` | opcodes.cpp:281 | A byte outside every range gets the error definition. |
| `OpcodeLookup.InControl` | opcodes.cpp:8-28 | Each control byte gets a definition with its own opcode, at most two immediate groups and at most one operand. |
| `OpcodeLookup.InVariable` | opcodes.cpp:31-42 | Each variable byte gets its own opcode, one immediate group and at most one operand. |
| `OpcodeLookup.InMemory` | opcodes.cpp:45-76 | Loads and stores get two groups and one operand. memory_size gets one group and no operand; memory_grow one group and one operand. |
| `OpcodeLookup.InConst` | opcodes.cpp:83-93 | The four constants get their own opcode, one group, no operands and no hints. |
| `OpcodeLookup.InI32` | opcodes.cpp:95-143 | Each i32 operator gets its own opcode and no immediates. It takes two operands exactly when it is binary. |
| `OpcodeLookup.InI64` | opcodes.cpp:144-193 | The same for the i64 operators, except that 0xaf gets the entry whose opcode is 0xb1. |
| `OpcodeLookup.InF32` | opcodes.cpp:195-235 | The same for the f32 operators. |
| `OpcodeLookup.InF64` | opcodes.cpp:236-278 | The same for the f64 operators. |
| `OpcodeLookup.Switched` | opcodes.cpp:8-278 | Every byte inside a range gets its own opcode (0xaf excepted), at most two groups and at most two operands. |
| `OpcodeLookup.FindBounds` | opcodes.cpp:5-282 | The lookup is total. Every byte gets at most two immediate groups and an arity of at most two. |
| `OpcodeLookup.FindErrorIff` | opcodes.cpp:5-282 | A byte gets the error entry if and only if it is undefined. So there is no gap in 0x41..0xbf. |
| `OpcodeLookup.FindOpcodeIdentity` | opcodes.cpp:8-278 | Every defined byte other than 0xaf gets the definition carrying that opcode. |
| `OpcodeLookup.FindQuirk` | opcodes.cpp:184-186 | 0xaf gets the i64_trunc_f64_u entry (opcode 0xb1), the same entry as 0xb1, and not i64_trunc_f32_u. |
| `OpcodeLookup.FindBlockAndEnd` | opcodes.cpp:14-19 | Only 0x02 and 0x03 get the block and loop entries. Only 0x0b gets `end`. This holds both by opcode and by entry, in both directions. |
| `OpcodeLookup.ControlEntries` | opcodes.h:79-90 | block and loop: 0 groups, arity 0, hint 0x40. if: arity 1. br: 1 group. br_if: 1 group and arity 1. br_table: 2 groups. call: 1 group. call_indir: 2 groups and hints [0xff, 0x00]. |
| `OpcodeLookup.ErrorEntry` | opcodes.h:66 | The error entry is 0xef, "error", with no immediates, arity 0 and no hints. It answers 0xff. |
| `OpcodeLookup.MemoryFamily` | opcodes.h:111-135 | Each load and store 0x28..0x3e has 2 groups and arity 1. memory_size has 1 group and arity 0; memory_grow has 1 group and arity 1. |
| `OpcodeLookup.ConstantFamily` | opcodes.h:141-144 | Each constant 0x41..0x44 has exactly one group, arity 0, its own opcode and no hints. |
| `OpcodeLookup.ConstantOpcodes` | opcodes.cpp:83-93 | A definition with a constant opcode comes exactly from the four constant bytes. |
| `OpcodeLookup.NumericFamily` | opcodes.h:149-308 | Numeric operators have no immediates. Comparisons and binary arithmetic have arity 2; eqz, unary operators and conversions have arity 1. |
| `OpcodeLookup.Mnemonics` | opcodes.h:165-294 | Mnemonics are kept verbatim: 0x93 is "f32_sum", 0x6a is "i32_add" and 0xa1 is "f64_sub". |
| `Maths.Chunks` | maths.h:16-23 | What the decoder assembles from group i onward is below 2^(7·(4−i)). |
| `Maths.ULeb32` | maths.h:9-26 | The decoder's result is always below 2^28. |
| `Maths.U32Length` | maths.h:103-114 | The length is in 1..4. Every byte before the last one examined has bit 7 set. Below 4, the last one examined is below 0x80. |
| `Maths.ULeb32IsGroupSum` | maths.h:16-23 | The result is the sum of (b_i & 0x7f) << 7i over exactly the bytes read. |
| `Maths.ULeb32ReadsOnlyScanned` | maths.h:16-23 | The decoder reads at most four bytes and stops right after the first byte whose bit 7 is clear. Two buffers that agree on those bytes decode alike. |
| `Maths.ULeb32RoundTrip` | maths.h:9-26 | Every v below 2^28 is decoded back from its LEB128 encoding, whatever padding follows. The encoding fits in four bytes. |
| `Maths.FixedLebRoundTrip` | Mediator.cpp:29-35 | A size written in four continuation bytes reads back as itself. |
| `Maths.ULeb32Truncates` | maths.h:16-23 | No value of 2^28 or more survives the round trip. |
| `Maths.ULeb32MaxInt32` | maths.h:16-23 | 2^31 − 1 encodes in five bytes and decodes as 2^28 − 1. |
| `Maths.UDecLeb32` | maths.h:9-26 | The loop over four bytes computes the decoder's value and the group sum of the bytes it reads. |
| `Maths.NextU32Length` | maths.h:103-114 | The scan returns 1 + the index of the first byte below 0x80 in the next four, or 4. The bytes it examines must exist. |
| `Maths.GetNextU32` | maths.h:118-132 | The length is the scan's. The value is the decoder applied to those bytes, padded to four with 0x80. The value is below 2^28. |
| `Maths.PaddingIsInert` | maths.h:118-132 | The padding never changes the value: with four bytes present, the result equals the decoder on those four bytes. |
| `Decoding.Fetch` | Function.cpp:173-182 | A read succeeds exactly when the cursor is inside the bytecode and yields the byte there. Otherwise it fails at the cursor. |
| `Decoding.IntTail` | Function.cpp:204-214 | The inner integer loop stores between 1 and `remaining` bytes and stays inside the bytecode. An overrun fails at the end. |
| `Decoding.IntTailForm` | Function.cpp:204-214 | The stored bytes are consecutive and all but the last have bit 7 set. Either the last one terminates and the cursor stops after it, or the loop ran out and one more byte was consumed. |
| `Decoding.IntGroup` | Function.cpp:198-216 | An integer group stores 1..maxLength bytes and moves the cursor forward within the bytecode. |
| `Decoding.IntGroupForm` | Function.cpp:198-216 | An integer immediate is the bytes up to and including the first one ≤ 0x7f, at most maxLength of them. When none terminates, one extra byte is consumed and dropped. |
| `Decoding.FixedRead` | Function.cpp:219-229 | n single-byte reads succeed exactly when n bytes are there. Their bytes are the next n, in order. |
| `Decoding.Group` | Function.cpp:198-229 | One group either advances the cursor within the bytecode or fails at the end. |
| `Decoding.Groups` | Function.cpp:188-231 | k groups read in order never move the cursor back. An overrun fails at the end of the bytecode. |
| `Decoding.GroupsLength` | Function.cpp:198-216 | k groups store at most k × maxLength bytes. |
| `Decoding.FixedGroups` | Function.cpp:217-229 | Fixed-width immediates are exactly the next associatedBytes × maxLength bytes, in order. The read fails exactly when they are not all there. |
| `Decoding.IntegerGroup` | Function.cpp:198-216 | An integer constant's immediates are one integer group. |
| `Decoding.Initial` | Function.cpp:46-48 | The loop starts with empty stacks and one end expected. |
| `Decoding.TakeOperand` | Function.cpp:100-126 | An operand is the operand-stack top as a fresh leaf if that stack is non-empty. Otherwise it is the statement-stack top with its subtree. Two empty stacks are an underflow at the cursor. |
| `Decoding.Dispatch` | Function.cpp:67-151 | The second half of an iteration keeps the cursor within the bytecode. |
| `Decoding.DispatchOpens` | Function.cpp:68-80 | A block or loop pushes a start statement on the statement stack, raises the ends expected by one, and skips its block-type byte. It overruns at the cursor when no byte is left for the block type. |
| `Decoding.DispatchUnary` | Function.cpp:92-133 | An instruction taking one operand succeeds exactly when some operation is held. Its only child is the operand stack's top as a leaf, or the statement stack's top when the operand stack is empty. The new node goes on the statement stack. Two empty stacks are an underflow at the cursor. |
| `Decoding.DispatchBinary` | Function.cpp:92-133 | An instruction taking two operands succeeds exactly when two operations are held. The left child is taken first and the right second: from the operand stack while it holds one, then from the statement stack. The new node goes on the statement stack. Otherwise the stack underflows at the cursor. |
| `Decoding.DispatchCloses` | Function.cpp:138-148 | An end lowers the ends expected by one. It pushes an end statement while a block is still open, and pushes nothing when it closes the function body. |
| `Decoding.DispatchPushes` | Function.cpp:150-151 | Every other instruction goes, with its immediates, on top of the operand stack. Nothing else changes. |
| `Decoding.ReadInstruction` | Function.cpp:54-65 | Reading an instruction advances the cursor within the bytecode. It yields the catalog definition of the byte read. |
| `Decoding.ReadInstructionShape` | Function.cpp:54-80 | An instruction that opens or closes a block carries no immediates. One that closes a block takes no operands. |
| `Decoding.Step` | Function.cpp:51-153 | Every iteration that succeeds moves the cursor strictly forward and stays within the bytecode. This is why the loop terminates. |
| `Decoding.Run` | Function.cpp:51-153 | A finished run ends exactly when no end is still expected. |
| `Decoding.RunStep` | Function.cpp:51-153 | One turn of the loop: a run that still expects an end fails with the iteration's error or continues from the iteration's new state. |
| `Decoding.TakeKeeps` | Function.cpp:100-126 | Taking an operand moves operations between the stacks and the operand and loses none. |
| `Decoding.DispatchAccounts` | Function.cpp:67-151 | Each iteration adds its operation to the stacks, except the end that closes the function. The expected ends rise by one on block or loop and fall by one on end. |
| `Decoding.BuildKeeps` | Function.cpp:92-133 | Building a node keeps every operation of its operands and adds its own. |
| `Decoding.StepAccounts` | Function.cpp:54-151 | The accounting of a whole iteration: what it reads, then what it dispatches. |
| `Decoding.RunAccounts` | Function.cpp:35-158 | A completed run loses no operation: every decoded operation but the last is held in the final stacks. The last one is an end. The ends decoded number the ends expected at the start plus the blocks opened. |
| `Decoding.RunOverrunsAtEnd` | Function.cpp:173-182 | A decoding that starts inside the bytecode and overruns fails exactly at its end. |
| `Decoding.StepOverrunsAtEnd` | Function.cpp:173-182 | The same for one iteration. |
| `Functions.ReadInstructionFits` | Function.cpp:262-287 | A constant read from the bytecode fits the printer's buffer: 4 bytes for i32/f32, 8 for i64/f64. |
| `Functions.DecodedFits` | Function.cpp:262-287 | Every statement a successful decoding leaves, and its top operand, can be printed without overflowing a buffer. |
| `Functions.TabMaker` | Function.cpp:410-417 | The result is `size` tabs, or none when size is not positive. |
| `Functions.WriteLine` | Function.cpp:365-381 | An "end" line is written one tab further out. After an opener the count goes up by one. |
| `Functions.ReverseStack` | Function.cpp:316-322 | Popping one stack onto another gives the same elements in the opposite order. |
| `Functions.Function.constructor` | Function.h:80-93 | A fresh function has no name, no inputs, empty bytecode, cursor 0 and empty stacks. |
| `Functions.Function.WithSignature` | Function.cpp:10-14 | The constructor with a signature sets the inputs and the output. Everything else is as by default. |
| `Functions.Function.SetInputs` | Function.cpp:17-20 | Replaces the inputs. |
| `Functions.Function.SetOutput` | Function.cpp:23-26 | Replaces the output. |
| `Functions.Function.SetTitle` | Function.cpp:29-32 | Replaces the name. |
| `Functions.Function.NextByte` | Function.cpp:173-182 | Returns the byte under the cursor and advances the cursor by exactly one. Past the end it fails and the cursor stays. |
| `Functions.Function.Print` | Function.cpp:312-408 | The printed text is the signature line, the statements in push order from indent 1, the leftover top operand, and a final end at indent 0. |
| `Functions.Function.PrintLeftover` | Function.cpp:386-391 | Only the top of the operand stack is printed, as a leaf at indent 1. |
| `Functions.Function.PrintSignature` | Function.cpp:326-358 | The signature line is `<type> name(<type name>, ...)`, built by appending ", " and dropping the last two characters. |
| `Functions.Function.PrintBody` | Function.cpp:361-383 | The statements come out in push order, each indented by the openers and ends before it. |
| `Functions.Function.DecodeFunction` | Function.cpp:35-158 | The bytecode is replaced, and the loop from the current cursor runs as `Decode` describes. On success the stacks are the final ones and can be printed. On failure the error is returned, the cursor is where it was raised and the stacks are unchanged. |
| `Functions.Function.Execute` | Function.cpp:67-151 | An iteration's dispatch in place equals `Dispatch`: block or loop, building a node, end, or pushing an operand. |
| `Functions.Function.ReadNext` | Function.cpp:54-65 | The opcode, its definition and its immediates, read in place, equal `ReadInstruction`. |
| `Functions.Function.GetValueBytes` | Function.cpp:188-231 | The immediate reader's bytes and final cursor equal `ValueBytes`. On overrun the cursor is at the failing read. |
| `Functions.Function.ReadIntegerGroup` | Function.cpp:198-216 | One integer group read in place equals the integer group function. |
| `Functions.Function.ReadFixedGroup` | Function.cpp:217-229 | One fixed group read in place is maxLength bytes in order. |
| `Render.PadTo` | Function.cpp:264-270 | The printing buffer holds the constant's bytes followed by 0x80 to its full width. |
| `Render.IntegerLabel` | Function.cpp:257-293 | An i32 or i64 constant whose bytes are the LEB128 encoding of v < 2^28 prints as its mnemonic, a space and v in decimal. |
| `Render.IntegerLabelShape` | Function.cpp:262-289 | An i32 or i64 constant of at most four bytes always fits its buffer. It prints as its mnemonic, a space and the decoder's value on its buffer: four bytes for i32, eight for i64, padded with 0x80. |
| `Render.I64LabelTruncates` | Function.cpp:278-289 | An i64 constant of four to eight bytes prints as its mnemonic, a space and the value of its first four bytes alone. The bytes past the fourth never affect the text. |
| `Render.PrintBalanced` | Function.cpp:243-253 | When no label holds a parenthesis, the printed tree has exactly one "(" and one ")" per parent-child link. |
| `Render.TabsClosedForm` | Function.cpp:362-381 | The running indent is 1 + the openers − the ends seen so far. |
| `Render.LineIndent` | Function.cpp:362-381 | Line k is written at the start indent, plus the openers before it, minus the ends up to and including it. |
| `Render.SignatureJoin` | Function.cpp:340-356 | Appending "type name, " per parameter, then dropping two characters, joins the parameters with ", ". |
| `Sections.ValueType` | Mediator.cpp:214-233 | A type byte names a value type exactly when it is 0x7c..0x7f, and never void. |
| `Sections.SignatureAt` | Mediator.cpp:189-273 | An entry whose first byte is not 0x60 is rejected as malformed at its offset, and only such an entry is. Every other failure is an out-of-range read. A successful read starts with 0x60 and ends just past the result byte, or just past a zero result count. The offset moves forward within the section. |
| `Sections.SignaturesFrom` | Mediator.cpp:187-279 | count entries read successfully give count signatures. |
| `Sections.ParamDefsOfTypes` | Mediator.cpp:205-236 | Type bytes read back as parameters of those types, named `__<t>_invar_<k>` by position. |
| `Sections.SignatureRoundTrip` | Mediator.cpp:182-273 | Any encoded type entry reads back as the signature it declares, and the offset lands just past it. Parameters are named by position. An empty parameter list gives the void input. One result byte is read whatever the count, and a zero count gives a void result. |
| `Sections.ParamDefsCount` | Mediator.cpp:205-236 | The parameters number exactly the value-type bytes. Any other byte adds none. |
| `Sections.PositionOfName` | Mediator.cpp:210-232 | A parameter name carries its position in the vector. |
| `Sections.PositionsIncrease` | Mediator.cpp:205-236 | The positions named in a parameter list strictly increase and are below the vector length. |
| `Sections.ParamNamesDistinct` | Mediator.cpp:205-236 | No two parameters share a name. |
| `Sections.AssignFrom` | Mediator.cpp:90-99 | At most count signatures are assigned, and exactly count when no error occurs. |
| `Sections.AssignClosedForm` | Mediator.cpp:84-99 | With all index bytes present and valid, function j gets the signature named by the j-th index byte. |
| `Sections.AssignStopsAtBadIndex` | Mediator.cpp:90-99 | An index naming no signature stops the reading there. The functions before it are kept. |
| `Sections.Chars` | Mediator.cpp:311-315 | Each name byte becomes one character, in order. |
| `Sections.ExportAt` | Mediator.cpp:303-323 | An export read moves the offset by the name length plus three. The index byte is the last byte read. |
| `Sections.NamesFrom` | Mediator.cpp:301-332 | The export loop never changes the number of functions. |
| `Sections.ExportRoundTrip` | Mediator.cpp:303-323 | An encoded export `[len][name][kind][index]` reads back as itself. |
| `Sections.ExportOneFunction` | Mediator.cpp:327-330 | An export of kind 0 renames exactly the function it names. |
| `Sections.OtherKindKeepsTitles` | Mediator.cpp:327-330 | Exports of any other kind leave every title as it is. |
| `Sections.BodyAt` | Mediator.cpp:28-65 | A framed body moves the offset forward. |
| `Sections.HandOut` | Mediator.cpp:26-70 | At most count bodies are handed out, and exactly count without error. A body goes only to an existing function. |
| `Sections.HandOutOutcomes` | Mediator.cpp:59-68 | Each recorded outcome is the decoding of its body. Only the last one can be a failure. |
| `Sections.HandOutDecodes` | Mediator.cpp:59-68 | Each outcome is the decoding of its body from its first byte. |
| `Sections.BodyRoundTrip` | Mediator.cpp:28-65 | For a body written with a four-byte size and a pad byte, the framing returns the instructions with the locals (two bytes each) skipped, and moves on just past the body. |
| `Sections.Headers` | Mediator.cpp:11-15 | There is one title per function. There is no error only if the type section read. |
| `Sections.Extract` | Mediator.cpp:11-70 | There is one title per function, one outcome per body, and no more bodies than functions. |
| `Extraction.ReadSignature` | Mediator.cpp:189-273 | The byte-by-byte reading of one type entry equals `SignatureAt`. |
| `Extraction.ResultDef` | Mediator.cpp:255-263 | The result type chain equals `OutputDef`, so an unknown byte leaves the default definition. |
| `Extraction.ReadParams` | Mediator.cpp:203-236 | The parameter loop gives `ParamDefs` of the vector, or fails at the section's end. |
| `Extraction.ReadExport` | Mediator.cpp:303-323 | The byte-by-byte reading of one export equals `ExportAt`. |
| `Extraction.ReadBody` | Mediator.cpp:28-65 | The framing loop of one code entry equals `BodyAt`. |
| `Extraction.ReadSignatures` | Mediator.cpp:186-279 | The type-section loop equals `SignaturesFrom`. |
| `Extraction.HandOver` | Mediator.cpp:68 | A function handed a body is left decoded from it. If the decoding failed, the failure names the function. |
| `Extraction.Round` | Mediator.cpp:26-68 | One round of the code-section loop frames an entry, hands it over, and keeps the loop's account of what has been handed out. |
| `Extraction.HandAll` | Mediator.cpp:20-70 | The code-section loop gives `HandOut`'s error. Every function is decoded from its body or still has none. |
| `Extraction.MakeFunctions` | Mediator.cpp:88-99 | One new, distinct function is made per index byte, in order, with the signature that byte names. |
| `Extraction.Mediator.constructor` | Mediator.h:28-30 | A mediator starts with no functions. |
| `Extraction.Mediator.ExtractSignatures` | Mediator.cpp:172-286 | Byte 0 is the count. The signatures read are assigned to new functions by the function section, or the type section's error is returned. |
| `Extraction.Mediator.PopulateFunctions` | Mediator.cpp:78-101 | A u32 count, then one index byte per function. The functions are appended in order. |
| `Extraction.Mediator.ExtractNames` | Mediator.cpp:292-333 | Every function's title is what `Names` gives from the titles before. The error is `Names`' error. |
| `Extraction.Mediator.DecodeBodies` | Mediator.cpp:18-70 | Each function is decoded from the body the code section frames for it, as `CodeBodies` gives. |
| `Extraction.Mediator.ExtractHeaders` | Mediator.cpp:11-15 | After the signatures and the names, each function has the signature and the title `Headers` gives, and no body. |
| `Extraction.Mediator.ExtractFunctions` | Mediator.cpp:11-71 | Reading a module leaves each function as `Extract` describes: its signature, its title and its decoded body. |
| `Scenarios.DecodeAdd` | Function.cpp:35-158 | Decoding `41 05 41 03 6a 0b` leaves one statement, the addition with 3 on the left and 5 on the right, and an empty operand stack. |
| `Scenarios.StepAdd` | Function.cpp:92-133 | The addition takes the later constant first and pushes its node onto the statement stack. |
| `Scenarios.DecodeBlock` | Function.cpp:35-158 | Decoding `02 40 01 0b 0b` skips the block-type byte and leaves the nop on the operand stack. It leaves the block's start and the inner end, in that order, on the statement stack. The function's closing end pushes nothing. |
| `Scenarios.PrintAdd` | Function.cpp:234-310 | That statement prints as `(i32_const 5) i32_add (i32_const 3)`. |
| `Scenarios.ConstantLabel` | Function.cpp:262-276 | A one-byte i32 constant prints as "i32_const" and its value. |

## Left out

- `Sectioner.cpp`, `Sectioner.h`: file reading, seeking and console reports. Each section's bytes are a parameter instead of a `getSection` call.
- `Translator.cpp`, `Translator.h` and `main.cpp`: a wrapper over a TOML library and argument handling, with no decoding logic.
- `decodeFloat` and `decodeDouble` reinterpret bytes as IEEE-754 values. The printer takes their text as the parameters `f32` and `f64`, which are functions of the padded buffer.
- `u_decLEB64` and `s_decLEB32` are never called. `s_decLEB32` never advances its index, and `u_decLEB64` shifts a 32-bit int past bit 31.
- `Mediator::extractImports` is never called, and its declaration and definition disagree on the return type.
- The `std::cout` printing of each function in `extractFunctions` is left out. The text it would print is `Functions.Function.Print`.
- `getIdxInputSize` and `getOtherInputSize` are declared but not defined in these files. So is `funcSizeTable`.
- The commented-out callee-dependent call arity is left out. The catalog arity is used.
- Pointer ownership, the leaked `new statement` nodes, and sharing between trees are left out. The tree is an inductive datatype.
- Undefined behaviour is not modelled as such. Each case becomes an explicit error result instead:
  - `top()` on an empty stack;
  - a vector read past its end;
  - the `pairs[idx]` and `funcs[idxValue]` reads past their end;
  - `funcs[i]` for a code entry with no function.
- Exceptions become error results. Reading stops at the first error, and everything done before it is kept.
- `funcs` is declared as a map but filled with `push_back`. It is modelled as a sequence indexed by position.
- Integer widths are left out. Offsets and counts are unbounded naturals, and counts read as single bytes stay bytes. The decoder's 32-bit result never exceeds 2^28, so no wrap-around occurs. A negative `tabs` prints no tabs, as the loop does.
- `Extraction.Mediator.DecodeBodies`, `Extraction.Mediator.ExtractFunctions`, `Extraction.HandAll` and `Extraction.Round` state the decoding of each body through a ghost parameter `decode`. `decode` is required to equal decoding from the body's first byte. A fresh function's cursor is 0, so this is what `decodeFunction` does there.
- `Sections.Chars` maps each name byte to the character with the same code (Latin-1). The source keeps the raw bytes in a `std::string`, so a UTF-8 export name prints as its own bytes there. Here it prints as other characters, because strings are sequences of characters and byte encodings are not modelled.
- `isImported` is never set to true by the modelled code. It stays false.
