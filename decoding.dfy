/** The decoding engine as functions of the bytecode and a cursor: the byte reader, the
    immediate reader and the two-stack tree builder, one loop iteration at a time. The
    class `Functions.Function` runs the same steps in place and is proved to agree. */
module Decoding {
  import opened Base
  import opened Opcodes
  import opened OpcodeLookup
  import opened FunctionTypes

  /** Why decoding stops early: a read at or past the end of the bytecode (the cursor's
      exception), or an operand taken from two empty stacks (undefined behaviour in the
      decompiler, recorded here with the cursor position at that moment). */
  datatype DecodeError = Overrun(at: nat) | StackUnderflow(at: nat)

  /** Bytes gathered by a read and the cursor position after it. */
  datatype Read = Read(bytes: seq<byte>, next: nat)

  /** One cursor read: the byte under the cursor, or an overrun at the cursor. */
  function Fetch(code: seq<byte>, loc: nat): (r: Result<byte, DecodeError>)
    ensures r.Ok? <==> loc < |code|
    ensures r.Ok? ==> r.value == code[loc]
    ensures r.Err? ==> r.error == Overrun(loc)
  {
    if loc < |code| then Ok(code[loc]) else Err(Overrun(loc))
  }

  /** The first position a sequential read from loc cannot reach. */
  function EndFrom(code: seq<byte>, loc: nat): nat
  {
    if loc <= |code| then |code| else loc
  }

  /** The prefix `bytes` put in front of a read's bytes; errors pass through. */
  function Prepend(bytes: seq<byte>, r: Result<Read, DecodeError>): Result<Read, DecodeError>
  {
    match r
    case Err(e) => Err(e)
    case Ok(rd) => Ok(Read(bytes + rd.bytes, rd.next))
  }

  /** The inner loop for an integer immediate, entered with `cur` just read from
      loc - 1 and `remaining` iterations left: a byte at most 0x7f is stored and ends the
      group; any other byte is stored and the next one read, even on the last iteration,
      where the byte so read is dropped. */
  function IntTail(code: seq<byte>, loc: nat, cur: byte, remaining: nat): (r: Result<Read, DecodeError>)
    requires 1 <= loc <= |code| && code[loc - 1] == cur && remaining >= 1
    ensures r.Err? ==> r.error == Overrun(|code|)
    ensures r.Ok? ==> loc <= r.value.next <= |code| && 1 <= |r.value.bytes| <= remaining
    decreases remaining
  {
    if cur <= 0x7f then Ok(Read([cur], loc))
    else
      match Fetch(code, loc)
      case Err(e) => Err(e)
      case Ok(b) =>
        if remaining == 1 then Ok(Read([cur], loc + 1))
        else Prepend([cur], IntTail(code, loc + 1, b, remaining - 1))
  }

  /** The stop rule of the inner loop: the stored bytes are the next n from loc - 1, all
      but the last have bit 7 set, and either the last is a terminator and the cursor
      stops right after it, or the iterations ran out and one more byte was read. */
  lemma {:induction false} IntTailForm(code: seq<byte>, loc: nat, cur: byte, remaining: nat)
    requires 1 <= loc <= |code| && code[loc - 1] == cur && remaining >= 1
    requires IntTail(code, loc, cur, remaining).Ok?
    ensures var r := IntTail(code, loc, cur, remaining).value;
      TailShape(code, loc, remaining, r.bytes, r.next)
    decreases remaining
  {
    if cur > 0x7f && remaining > 1 {
      var b := code[loc];
      var rest := IntTail(code, loc + 1, b, remaining - 1);
      assert IntTail(code, loc, cur, remaining) == Prepend([cur], rest);
      IntTailForm(code, loc + 1, b, remaining - 1);
      TailShapeStep(code, loc, remaining, rest.value.bytes, rest.value.next);
    }
  }

  /** The stored bytes are the next n from loc - 1, all but the last have bit 7 set, and
      either the last is a terminator and the cursor stops right after it, or the
      iterations ran out and one more byte was read. */
  predicate TailShape(code: seq<byte>, loc: nat, remaining: nat, bytes: seq<byte>, next: nat)
    requires loc >= 1
  {
    var n := |bytes|;
    && 1 <= n <= remaining && loc - 1 + n <= |code| && bytes == code[loc - 1..loc - 1 + n]
    && (forall j :: loc - 1 <= j < loc - 2 + n ==> code[j] >= 0x80)
    && ((code[loc - 2 + n] < 0x80 && next == loc - 1 + n)
        || (n == remaining && code[loc - 2 + n] >= 0x80 && next == loc + n <= |code|))
  }

  /** A continuation byte in front of a tail of the right shape gives a tail of the right
      shape one position earlier. */
  lemma TailShapeStep(code: seq<byte>, loc: nat, remaining: nat, bytes: seq<byte>, next: nat)
    requires 1 <= loc < |code| && code[loc - 1] > 0x7f && remaining > 1
    requires TailShape(code, loc + 1, remaining - 1, bytes, next)
    ensures TailShape(code, loc, remaining, [code[loc - 1]] + bytes, next)
  {
    var m := |bytes|;
    assert [code[loc - 1]] + code[loc..loc + m] == code[loc - 1..loc + m];
  }

  /** One integer immediate of at most maxLength stored bytes, starting at loc. */
  function IntGroup(code: seq<byte>, loc: nat, maxLength: nat): (r: Result<Read, DecodeError>)
    requires maxLength >= 1
    ensures r.Err? ==> r.error == Overrun(EndFrom(code, loc))
    ensures r.Ok? ==> loc < r.value.next <= |code| && 1 <= |r.value.bytes| <= maxLength
  {
    match Fetch(code, loc)
    case Err(e) => Err(e)
    case Ok(b) => IntTail(code, loc + 1, b, maxLength)
  }

  /** An integer immediate is the bytes up to and including the first terminator (a byte
      at most 0x7f), at most maxLength of them; when none of them terminates, one more
      byte is consumed and dropped. */
  lemma IntGroupForm(code: seq<byte>, loc: nat, maxLength: nat)
    requires maxLength >= 1 && IntGroup(code, loc, maxLength).Ok?
    ensures var r := IntGroup(code, loc, maxLength).value;
      var n := |r.bytes|;
      1 <= n <= maxLength && loc + n <= |code| && r.bytes == code[loc..loc + n]
      && (forall j :: loc <= j < loc + n - 1 ==> code[j] >= 0x80)
      && ((code[loc + n - 1] < 0x80 && r.next == loc + n)
          || (n == maxLength && code[loc + n - 1] >= 0x80 && r.next == loc + n + 1 <= |code|))
  {
    IntTailForm(code, loc + 1, code[loc], maxLength);
    var r := IntGroup(code, loc, maxLength).value;
    assert TailShape(code, loc + 1, maxLength, r.bytes, r.next);
  }

  /** n bytes read one at a time from loc. */
  function FixedRead(code: seq<byte>, loc: nat, n: nat): (r: Result<Read, DecodeError>)
    ensures r.Ok? <==> n == 0 || loc + n <= |code|
    ensures n == 0 ==> r == Ok(Read([], loc))
    ensures n > 0 && loc + n <= |code| ==> r == Ok(Read(code[loc..loc + n], loc + n))
    ensures r.Err? ==> r.error == Overrun(EndFrom(code, loc))
    decreases n
  {
    if n == 0 then Ok(Read([], loc))
    else
      match Fetch(code, loc)
      case Err(e) => Err(e)
      case Ok(b) =>
        var rest := FixedRead(code, loc + 1, n - 1);
        assert loc + n <= |code| ==> rest.Ok? && [b] + rest.value.bytes == code[loc..loc + n] by {
          if loc + n <= |code| && n == 1 {
            assert rest.value.bytes == [];
          }
        }
        Prepend([b], rest)
  }

  /** The longest immediate group of an opcode: 4 for i32/f32 constants, 8 for i64/f64
      constants, 1 otherwise. */
  function MaxLength(op: byte): (m: nat)
    ensures 1 <= m <= 8
  {
    if op == 0x41 || op == 0x43 then 4 else if op == 0x42 || op == 0x44 then 8 else 1
  }

  /** Whether an opcode's immediates are variable-length integers. */
  predicate IntegerImmediate(op: byte)
  {
    op == 0x41 || op == 0x42
  }

  /** One immediate group of `ins` from loc: an integer group or maxLength raw bytes. */
  function Group(code: seq<byte>, loc: nat, ins: Ins): (r: Result<Read, DecodeError>)
    ensures r.Err? ==> r.error == Overrun(EndFrom(code, loc))
    ensures r.Ok? ==> loc < r.value.next <= |code|
  {
    if IntegerImmediate(ins.op) then IntGroup(code, loc, MaxLength(ins.op))
    else FixedRead(code, loc, MaxLength(ins.op))
  }

  /** k immediate groups of `ins` read in order from loc and stored back to back. */
  function Groups(code: seq<byte>, loc: nat, ins: Ins, k: nat): (r: Result<Read, DecodeError>)
    ensures r.Err? ==> r.error == Overrun(EndFrom(code, loc))
    ensures r.Ok? ==> loc <= r.value.next && (k > 0 ==> r.value.next <= |code|)
    decreases k
  {
    if k == 0 then Ok(Read([], loc))
    else
      match Group(code, loc, ins)
      case Err(e) => Err(e)
      case Ok(first) => Prepend(first.bytes, Groups(code, first.next, ins, k - 1))
  }

  /** No group stores more than maxLength bytes. */
  lemma {:induction false} GroupsLength(code: seq<byte>, loc: nat, ins: Ins, k: nat)
    requires Groups(code, loc, ins, k).Ok?
    ensures |Groups(code, loc, ins, k).value.bytes| <= k * MaxLength(ins.op)
    decreases k
  {
    if k > 0 {
      var m := MaxLength(ins.op);
      var g := Group(code, loc, ins);
      GroupsLength(code, g.value.next, ins, k - 1);
      assert (k - 1) * m + m == k * m;
    }
  }

  /** All immediates of an instruction: associatedBytes groups. */
  function ValueBytes(code: seq<byte>, loc: nat, ins: Ins): Result<Read, DecodeError>
  {
    Groups(code, loc, ins, ins.associatedBytes)
  }

  /** The bytes k fixed-width groups occupy. */
  function Width(ins: Ins, k: nat): nat
  {
    if k == 0 then 0 else MaxLength(ins.op) + Width(ins, k - 1)
  }

  lemma {:induction false} WidthIsProduct(ins: Ins, k: nat)
    ensures Width(ins, k) == k * MaxLength(ins.op)
  {
    if k > 0 {
      WidthIsProduct(ins, k - 1);
      assert (k - 1) * MaxLength(ins.op) + MaxLength(ins.op) == k * MaxLength(ins.op);
    }
  }

  /** Fixed-width immediates are exactly the next Width(ins, k) = k * maxLength bytes, in
      order; the read fails precisely when they are not all there. */
  lemma FixedGroups(code: seq<byte>, loc: nat, ins: Ins, k: nat)
    requires !IntegerImmediate(ins.op) && k > 0
    ensures Groups(code, loc, ins, k).Ok? <==> loc + Width(ins, k) <= |code|
    ensures loc + Width(ins, k) <= |code| ==>
      Groups(code, loc, ins, k) == Ok(Read(code[loc..loc + Width(ins, k)], loc + Width(ins, k)))
  {
    if loc + Width(ins, k) <= |code| {
      FixedGroupsFit(code, loc, ins, k, loc + Width(ins, k));
    } else {
      FixedGroupsOverrun(code, loc, ins, k);
    }
  }

  /** The first of k fixed-width groups, when it is there, is the next maxLength bytes. */
  lemma FixedGroupsStep(code: seq<byte>, loc: nat, ins: Ins, k: nat)
    requires !IntegerImmediate(ins.op) && k > 0 && loc + MaxLength(ins.op) <= |code|
    ensures var m := MaxLength(ins.op);
      Groups(code, loc, ins, k) == Prepend(code[loc..loc + m], Groups(code, loc + m, ins, k - 1))
  {
    var m := MaxLength(ins.op);
    assert Group(code, loc, ins) == Ok(Read(code[loc..loc + m], loc + m));
  }

  lemma {:induction false} FixedGroupsFit(code: seq<byte>, loc: nat, ins: Ins, k: nat, end: nat)
    requires !IntegerImmediate(ins.op) && k > 0 && end == loc + Width(ins, k) && end <= |code|
    ensures Groups(code, loc, ins, k) == Ok(Read(code[loc..end], end))
    decreases k
  {
    var m := MaxLength(ins.op);
    assert end == loc + m + Width(ins, k - 1);
    if k == 1 {
      FixedGroupsOne(code, loc, ins);
    } else {
      FixedGroupsFit(code, loc + m, ins, k - 1, end);
      FixedGroupsJoin(code, loc, ins, k, end);
    }
  }

  /** One fixed-width group that is all there is read as the next maxLength bytes. */
  lemma FixedGroupsOne(code: seq<byte>, loc: nat, ins: Ins)
    requires !IntegerImmediate(ins.op) && loc + MaxLength(ins.op) <= |code|
    ensures Groups(code, loc, ins, 1) == Ok(Read(code[loc..loc + MaxLength(ins.op)], loc + MaxLength(ins.op)))
  {
    var m := MaxLength(ins.op);
    FixedGroupsStep(code, loc, ins, 1);
    assert Groups(code, loc + m, ins, 0) == Ok(Read([], loc + m));
    PrependOk(code[loc..loc + m], Ok(Read([], loc + m)));
    assert code[loc..loc + m] + [] == code[loc..loc + m];
  }

  /** The first group followed by the other k - 1 read back to back. */
  lemma FixedGroupsJoin(code: seq<byte>, loc: nat, ins: Ins, k: nat, end: nat)
    requires !IntegerImmediate(ins.op) && k > 1 && loc + MaxLength(ins.op) <= end <= |code|
    requires Groups(code, loc + MaxLength(ins.op), ins, k - 1) == Ok(Read(code[loc + MaxLength(ins.op)..end], end))
    ensures Groups(code, loc, ins, k) == Ok(Read(code[loc..end], end))
  {
    var m := MaxLength(ins.op);
    FixedGroupsStep(code, loc, ins, k);
    PrependOk(code[loc..loc + m], Ok(Read(code[loc + m..end], end)));
    SliceConcat(code, loc, loc + m, end);
  }

  lemma PrependOk(bytes: seq<byte>, r: Result<Read, DecodeError>)
    requires r.Ok?
    ensures Prepend(bytes, r) == Ok(Read(bytes + r.value.bytes, r.value.next))
  {
  }

  lemma SliceConcat(s: seq<byte>, a: nat, b: nat, c: nat)
    requires a <= b <= c <= |s|
    ensures s[a..b] + s[b..c] == s[a..c]
  {
  }

  lemma {:induction false} FixedGroupsOverrun(code: seq<byte>, loc: nat, ins: Ins, k: nat)
    requires !IntegerImmediate(ins.op) && k > 0 && loc + Width(ins, k) > |code|
    ensures Groups(code, loc, ins, k).Err?
    decreases k
  {
    var m := MaxLength(ins.op);
    assert Width(ins, k) == m + Width(ins, k - 1);
    if loc + m <= |code| {
      FixedGroupsStep(code, loc, ins, k);
      FixedGroupsOverrun(code, loc + m, ins, k - 1);
    } else {
      FixedGroupStops(code, loc, ins, k);
    }
  }

  /** When the first fixed-width group is not all there, the read of k groups fails. */
  lemma FixedGroupStops(code: seq<byte>, loc: nat, ins: Ins, k: nat)
    requires !IntegerImmediate(ins.op) && k > 0 && loc + MaxLength(ins.op) > |code|
    ensures Groups(code, loc, ins, k).Err?
  {
    assert Group(code, loc, ins) == FixedRead(code, loc, MaxLength(ins.op));
  }

  /** An integer instruction with one group reads exactly one integer group. */
  lemma IntegerGroup(code: seq<byte>, loc: nat, ins: Ins)
    requires IntegerImmediate(ins.op) && ins.associatedBytes == 1
    ensures ValueBytes(code, loc, ins) == IntGroup(code, loc, MaxLength(ins.op))
  {
    var g := IntGroup(code, loc, MaxLength(ins.op));
    assert Group(code, loc, ins) == g;
    if g.Ok? {
      assert Groups(code, g.value.next, ins, 0) == Ok(Read([], g.value.next));
      assert g.value.bytes + [] == g.value.bytes;
    }
  }

  /** The decoder's working state: cursor, operand stack, statement stack (tops at the
      end of each sequence) and the number of ends still expected. */
  datatype DecodeState = DecodeState(loc: nat, opers: seq<Oper>, stmts: seq<Statement>, endsNeeded: nat)

  /** The state at entry: empty stacks and one end expected, for the function body. */
  function Initial(loc: nat): (st: DecodeState)
    ensures st.opers == [] && st.stmts == [] && st.endsNeeded == 1 && st.loc == loc
  {
    DecodeState(loc, [], [], 1)
  }

  /** An operand and the two stacks left after taking it. */
  datatype Taken = Taken(operand: Statement, opers: seq<Oper>, stmts: seq<Statement>)

  /** One operand of an instruction: the operand-stack top as a fresh leaf when there is
      one, otherwise the statement-stack top with its whole subtree. */
  function TakeOperand(opers: seq<Oper>, stmts: seq<Statement>, at: nat): (r: Result<Taken, DecodeError>)
    ensures r.Err? <==> |opers| == 0 && |stmts| == 0
    ensures r.Err? ==> r.error == StackUnderflow(at)
    ensures r.Ok? && |opers| > 0 ==>
      r.value == Taken(Leaf(opers[|opers| - 1]), opers[..|opers| - 1], stmts)
    ensures r.Ok? && |opers| == 0 ==>
      r.value == Taken(stmts[|stmts| - 1], opers, stmts[..|stmts| - 1])
  {
    if |opers| > 0 then Ok(Taken(Leaf(opers[|opers| - 1]), opers[..|opers| - 1], stmts))
    else if |stmts| > 0 then Ok(Taken(stmts[|stmts| - 1], opers, stmts[..|stmts| - 1]))
    else Err(StackUnderflow(at))
  }

  /** The state after one loop iteration, and the operation the iteration decoded. */
  datatype Stepped = Stepped(state: DecodeState, oper: Oper)

  /** What an iteration does once the instruction and its immediates are read, with the
      cursor at loc: open a block (reading its block type), build a node from earlier
      operands, close a block, or push the operation as an operand. */
  function Dispatch(code: seq<byte>, st: DecodeState, temp: Oper, loc: nat): (r: Result<Stepped, DecodeError>)
    ensures loc <= |code| && r.Ok? ==> loc <= r.value.state.loc <= |code|
  {
    var next := temp.op;
    if 0x02 <= next.op <= 0x03 then
      match Fetch(code, loc)
      case Err(e) => Err(e)
      case Ok(_) =>
        Ok(Stepped(DecodeState(loc + 1, st.opers, st.stmts + [Leaf(OperOf(next))], st.endsNeeded + 1), temp))
    else if next.bytesConsumed != 0 then
      match TakeOperand(st.opers, st.stmts, loc)
      case Err(e) => Err(e)
      case Ok(l) =>
        if next.bytesConsumed > 1 then
          match TakeOperand(l.opers, l.stmts, loc)
          case Err(e) => Err(e)
          case Ok(rt) =>
            var node := Statement(temp, Some(l.operand), Some(rt.operand));
            Ok(Stepped(DecodeState(loc, rt.opers, rt.stmts + [node], st.endsNeeded), temp))
        else
          var node := Statement(temp, Some(l.operand), None);
          Ok(Stepped(DecodeState(loc, l.opers, l.stmts + [node], st.endsNeeded), temp))
    else if next.op == 0x0b then
      var stmts := if st.endsNeeded - 1 != 0 then st.stmts + [Leaf(OperOf(next))] else st.stmts;
      Ok(Stepped(DecodeState(loc, st.opers, stmts, if st.endsNeeded >= 1 then st.endsNeeded - 1 else 0), temp))
    else
      Ok(Stepped(DecodeState(loc, st.opers + [temp], st.stmts, st.endsNeeded), temp))
  }

  /** A block or loop reads and skips its block-type byte, pushes a start statement on
      the statement stack and expects one more end; with no byte left it overruns at the
      cursor. */
  lemma DispatchOpens(code: seq<byte>, st: DecodeState, temp: Oper, loc: nat)
    requires Opens(temp)
    ensures Dispatch(code, st, temp, loc).Ok? <==> loc < |code|
    ensures loc < |code| ==> (Dispatch(code, st, temp, loc) ==
      Ok(Stepped(DecodeState(loc + 1, st.opers, st.stmts + [Leaf(OperOf(temp.op))], st.endsNeeded + 1), temp)))
    ensures loc >= |code| ==> Dispatch(code, st, temp, loc) == Err(Overrun(loc))
  {
  }

  /** An instruction taking one operand builds a node whose only child is the operand
      stack's top as a leaf, or, when that stack is empty, the statement stack's top; the
      node goes on the statement stack. With both stacks empty the stack underflows. */
  lemma DispatchUnary(code: seq<byte>, st: DecodeState, temp: Oper, loc: nat)
    requires !Opens(temp) && temp.op.bytesConsumed == 1
    ensures Dispatch(code, st, temp, loc).Ok? <==> |st.opers| + |st.stmts| >= 1
    ensures Dispatch(code, st, temp, loc).Err? ==> Dispatch(code, st, temp, loc).error == StackUnderflow(loc)
    ensures |st.opers| >= 1 ==>
      var n := |st.opers|;
      Dispatch(code, st, temp, loc) ==
      Ok(Stepped(DecodeState(loc, st.opers[..n - 1], st.stmts + [Statement(temp, Some(Leaf(st.opers[n - 1])), None)], st.endsNeeded), temp))
    ensures |st.opers| == 0 && |st.stmts| >= 1 ==>
      var m := |st.stmts|;
      Dispatch(code, st, temp, loc) ==
      Ok(Stepped(DecodeState(loc, [], st.stmts[..m - 1] + [Statement(temp, Some(st.stmts[m - 1]), None)], st.endsNeeded), temp))
  {
  }

  /** An instruction taking two operands builds a node whose left child is taken first and
      whose right child second, each from the operand stack while it has one and from the
      statement stack after; the node goes on the statement stack. With fewer than two
      operations held the stack underflows. */
  lemma DispatchBinary(code: seq<byte>, st: DecodeState, temp: Oper, loc: nat)
    requires !Opens(temp) && temp.op.bytesConsumed >= 2
    ensures Dispatch(code, st, temp, loc).Ok? <==> |st.opers| + |st.stmts| >= 2
    ensures Dispatch(code, st, temp, loc).Err? ==> Dispatch(code, st, temp, loc).error == StackUnderflow(loc)
    ensures |st.opers| >= 2 ==>
      var n := |st.opers|;
      Dispatch(code, st, temp, loc) ==
      Ok(Stepped(DecodeState(loc, st.opers[..n - 2],
                             st.stmts + [Statement(temp, Some(Leaf(st.opers[n - 1])), Some(Leaf(st.opers[n - 2])))], st.endsNeeded), temp))
    ensures |st.opers| == 1 && |st.stmts| >= 1 ==>
      var m := |st.stmts|;
      Dispatch(code, st, temp, loc) ==
      Ok(Stepped(DecodeState(loc, [], st.stmts[..m - 1] + [Statement(temp, Some(Leaf(st.opers[0])), Some(st.stmts[m - 1]))], st.endsNeeded), temp))
    ensures |st.opers| == 0 && |st.stmts| >= 2 ==>
      var m := |st.stmts|;
      Dispatch(code, st, temp, loc) ==
      Ok(Stepped(DecodeState(loc, [], st.stmts[..m - 2] + [Statement(temp, Some(st.stmts[m - 1]), Some(st.stmts[m - 2]))], st.endsNeeded), temp))
  {
    var n, m := |st.opers|, |st.stmts|;
    if n >= 2 {
      TakeTwoOperands(st.opers, st.stmts, loc);
    } else if n == 1 && m >= 1 {
      assert st.opers[..0] == [];
    } else if n == 0 && m >= 2 {
      TakeTwoStatements(st.opers, st.stmts, loc);
    }
  }

  lemma TakeTwoOperands(opers: seq<Oper>, stmts: seq<Statement>, at: nat)
    requires |opers| >= 2
    ensures var l := TakeOperand(opers, stmts, at).value;
      TakeOperand(l.opers, l.stmts, at) == Ok(Taken(Leaf(opers[|opers| - 2]), opers[..|opers| - 2], stmts))
  {
    var n := |opers|;
    assert opers[..n - 1][..n - 2] == opers[..n - 2];
  }

  lemma TakeTwoStatements(opers: seq<Oper>, stmts: seq<Statement>, at: nat)
    requires |opers| == 0 && |stmts| >= 2
    ensures var l := TakeOperand(opers, stmts, at).value;
      TakeOperand(l.opers, l.stmts, at) == Ok(Taken(stmts[|stmts| - 2], [], stmts[..|stmts| - 2]))
  {
    var m := |stmts|;
    assert stmts[..m - 1][..m - 2] == stmts[..m - 2];
  }

  /** An end lowers the ends expected by one. It pushes an end statement on the statement
      stack when a block is still open, and nothing when it closes the function body. */
  lemma DispatchCloses(code: seq<byte>, st: DecodeState, temp: Oper, loc: nat)
    requires Closes(temp) && temp.op.bytesConsumed == 0
    ensures st.endsNeeded > 1 ==> (Dispatch(code, st, temp, loc) ==
      Ok(Stepped(DecodeState(loc, st.opers, st.stmts + [Leaf(OperOf(temp.op))], st.endsNeeded - 1), temp)))
    ensures st.endsNeeded == 1 ==> (Dispatch(code, st, temp, loc) ==
      Ok(Stepped(DecodeState(loc, st.opers, st.stmts, 0), temp)))
  {
  }

  /** Every other instruction, with its immediates, is pushed on the operand stack and
      nothing else changes. */
  lemma DispatchPushes(code: seq<byte>, st: DecodeState, temp: Oper, loc: nat)
    requires !Opens(temp) && !Closes(temp) && temp.op.bytesConsumed == 0
    ensures Dispatch(code, st, temp, loc) == Ok(Stepped(DecodeState(loc, st.opers + [temp], st.stmts, st.endsNeeded), temp))
  {
  }

  /** An operation read from the bytecode and the cursor position after it. */
  datatype Fetched = Fetched(oper: Oper, next: nat)

  /** The first part of an iteration: read the opcode, look it up, and read its
      immediates when it has any. */
  function ReadInstruction(code: seq<byte>, loc: nat): (r: Result<Fetched, DecodeError>)
    ensures r.Ok? ==> loc < r.value.next <= |code| && r.value.oper.op == Find(code[loc])
  {
    match Fetch(code, loc)
    case Err(e) => Err(e)
    case Ok(b) =>
      var next := Find(b);
      var imm := if next.associatedBytes != 0 then ValueBytes(code, loc + 1, next)
                 else Ok(Read([], loc + 1));
      match imm
      case Err(e) => Err(e)
      case Ok(read) => Ok(Fetched(Oper(next, read.bytes), read.next))
  }

  /** What the catalog guarantees the dispatch: an operation that opens or closes a block
      carries no immediates, and one that closes a block takes no operands. */
  lemma ReadInstructionShape(code: seq<byte>, loc: nat)
    requires ReadInstruction(code, loc).Ok?
    ensures var o := ReadInstruction(code, loc).value.oper;
      && (Opens(o) || Closes(o) ==> o == OperOf(o.op))
      && (Closes(o) ==> o.op.bytesConsumed == 0)
  {
    FindBlockAndEnd(code[loc]);
  }

  /** One iteration of the decoding loop: read an instruction, then dispatch. Every
      iteration that succeeds moves the cursor forward and stays within the bytecode. */
  function Step(code: seq<byte>, st: DecodeState): (r: Result<Stepped, DecodeError>)
    ensures r.Ok? ==> st.loc < r.value.state.loc <= |code|
  {
    match ReadInstruction(code, st.loc)
    case Err(e) => Err(e)
    case Ok(f) => Dispatch(code, st, f.oper, f.next)
  }

  /** How a decoding run ends: the final state and every operation decoded, in order, or
      the error that stopped it. */
  datatype Outcome = Done(final: DecodeState, trace: seq<Oper>) | Failed(error: DecodeError)

  /** The decoding loop: iterate while ends are still expected. */
  function Run(code: seq<byte>, st: DecodeState): (o: Outcome)
    ensures o.Done? ==> o.final.endsNeeded == 0
    decreases if st.loc <= |code| then |code| - st.loc else 0
  {
    if st.endsNeeded == 0 then Done(st, [])
    else
      match Step(code, st)
      case Err(e) => Failed(e)
      case Ok(s) =>
        match Run(code, s.state)
        case Failed(e) => Failed(e)
        case Done(f, t) => Done(f, [s.oper] + t)
  }

  /** The decoding of a whole function body from a cursor position. */
  function Decode(code: seq<byte>, loc: nat): Outcome
  {
    Run(code, Initial(loc))
  }

  /** A run's outcome without its trace: what the in-place decoder leaves behind. */
  function Settle(o: Outcome): Result<DecodeState, DecodeError>
  {
    match o
    case Done(f, _) => Ok(f)
    case Failed(e) => Err(e)
  }

  /** One turn of the loop as the in-place decoder sees it: a run that still expects an
      end fails with the iteration's error, or settles as the run from the iteration's
      new state does. */
  lemma {:induction false} RunStep(code: seq<byte>, st: DecodeState)
    requires st.endsNeeded != 0
    ensures Settle(Run(code, st)) == match Step(code, st)
      case Err(e) => Err(e)
      case Ok(s) => Settle(Run(code, s.state))
  {
  }

  /** Every operation held in a tree. */
  function TreeOpers(s: Statement): multiset<Oper>
  {
    multiset{s.operation}
    + (match s.left case Some(l) => TreeOpers(l) case None => multiset{})
    + (match s.right case Some(r) => TreeOpers(r) case None => multiset{})
  }

  /** Every operation held in a sequence of trees. */
  function StackOpers(stmts: seq<Statement>): multiset<Oper>
  {
    if |stmts| == 0 then multiset{} else StackOpers(stmts[..|stmts| - 1]) + TreeOpers(stmts[|stmts| - 1])
  }

  /** Every operation the state holds, in either stack. */
  function Held(st: DecodeState): multiset<Oper>
  {
    multiset(st.opers) + StackOpers(st.stmts)
  }

  lemma PushTree(stmts: seq<Statement>, s: Statement)
    ensures StackOpers(stmts + [s]) == StackOpers(stmts) + TreeOpers(s)
  {
    assert (stmts + [s])[..|stmts|] == stmts;
  }

  /** Taking an operand moves operations between the stacks and the operand, losing none. */
  lemma TakeKeeps(opers: seq<Oper>, stmts: seq<Statement>, at: nat)
    requires TakeOperand(opers, stmts, at).Ok?
    ensures var t := TakeOperand(opers, stmts, at).value;
      multiset(t.opers) + StackOpers(t.stmts) + TreeOpers(t.operand)
      == multiset(opers) + StackOpers(stmts)
  {
    if |opers| > 0 {
      assert opers == opers[..|opers| - 1] + [opers[|opers| - 1]];
    }
  }

  /** Operations that open a block: only block and loop. */
  predicate Opens(o: Oper)
  {
    0x02 <= o.op.op <= 0x03
  }

  /** Operations that close a block. */
  predicate Closes(o: Oper)
  {
    o.op.op == 0x0b
  }

  function CountOpens(t: seq<Oper>): nat
  {
    if |t| == 0 then 0 else CountOpens(t[..|t| - 1]) + (if Opens(t[|t| - 1]) then 1 else 0)
  }

  function CountCloses(t: seq<Oper>): nat
  {
    if |t| == 0 then 0 else CountCloses(t[..|t| - 1]) + (if Closes(t[|t| - 1]) then 1 else 0)
  }

  /** The accounting of one dispatch, for an operation that carries no immediates when it
      opens or closes a block and takes no operands when it closes one. */
  lemma DispatchAccounts(code: seq<byte>, st: DecodeState, temp: Oper, loc: nat)
    requires st.endsNeeded >= 1 && Dispatch(code, st, temp, loc).Ok?
    requires Opens(temp) || Closes(temp) ==> temp == OperOf(temp.op)
    requires Closes(temp) ==> temp.op.bytesConsumed == 0
    ensures var s := Dispatch(code, st, temp, loc).value;
      && s.oper == temp
      && Held(s.state) == Held(st) + (if s.state.endsNeeded == 0 then multiset{} else multiset{temp})
      && s.state.endsNeeded == st.endsNeeded + (if Opens(temp) then 1 else 0) - (if Closes(temp) then 1 else 0)
      && (s.state.endsNeeded == 0 ==> Closes(temp))
  {
    var next := temp.op;
    if 0x02 <= next.op <= 0x03 {
      PushTree(st.stmts, Leaf(OperOf(next)));
    } else if next.bytesConsumed != 0 {
      BuildKeeps(st, temp, loc);
    } else if next.op == 0x0b {
      if st.endsNeeded - 1 != 0 {
        PushTree(st.stmts, Leaf(OperOf(next)));
      }
    } else {
      assert multiset(st.opers + [temp]) == multiset(st.opers) + multiset{temp};
    }
  }

  /** Building a node keeps the operations of its operands and adds its own. */
  lemma BuildKeeps(st: DecodeState, temp: Oper, loc: nat)
    requires temp.op.bytesConsumed != 0 && TakeOperand(st.opers, st.stmts, loc).Ok?
    requires temp.op.bytesConsumed > 1 ==>
      var l := TakeOperand(st.opers, st.stmts, loc).value;
      TakeOperand(l.opers, l.stmts, loc).Ok?
    ensures var l := TakeOperand(st.opers, st.stmts, loc).value;
      if temp.op.bytesConsumed > 1 then
        var rt := TakeOperand(l.opers, l.stmts, loc).value;
        Held(DecodeState(loc, rt.opers, rt.stmts + [Statement(temp, Some(l.operand), Some(rt.operand))], 0))
        == Held(st) + multiset{temp}
      else
        Held(DecodeState(loc, l.opers, l.stmts + [Statement(temp, Some(l.operand), None)], 0))
        == Held(st) + multiset{temp}
  {
    var l := TakeOperand(st.opers, st.stmts, loc).value;
    TakeKeeps(st.opers, st.stmts, loc);
    if temp.op.bytesConsumed > 1 {
      var rt := TakeOperand(l.opers, l.stmts, loc).value;
      TakeKeeps(l.opers, l.stmts, loc);
      PushTree(rt.stmts, Statement(temp, Some(l.operand), Some(rt.operand)));
    } else {
      PushTree(l.stmts, Statement(temp, Some(l.operand), None));
    }
  }

  /** One iteration keeps every operation: the one it decoded joins the stacks, except
      for the end that closes the function, which leaves nothing behind. It raises the
      expected ends by one on a block or loop, lowers them by one on an end, and leaves
      them alone otherwise. */
  lemma StepAccounts(code: seq<byte>, st: DecodeState)
    requires st.endsNeeded >= 1 && Step(code, st).Ok?
    ensures var s := Step(code, st).value;
      && Held(s.state) == Held(st) + (if s.state.endsNeeded == 0 then multiset{} else multiset{s.oper})
      && s.state.endsNeeded == st.endsNeeded + (if Opens(s.oper) then 1 else 0) - (if Closes(s.oper) then 1 else 0)
      && (s.state.endsNeeded == 0 ==> Closes(s.oper))
  {
    var f := ReadInstruction(code, st.loc).value;
    ReadInstructionShape(code, st.loc);
    DispatchAccounts(code, st, f.oper, f.next);
  }

  /** What a completed run accounts for, from the state it started in: the run decoded
      at least one operation and the last one closes the function; every operation
      before it is held in the final stacks, on top of what the start state held; and
      the ends match the expected count plus one for every block or loop opened. */
  ghost predicate Accounted(st: DecodeState, final: DecodeState, trace: seq<Oper>)
  {
    && |trace| >= 1 && Closes(trace[|trace| - 1])
    && Held(final) == Held(st) + multiset(trace[..|trace| - 1])
    && CountCloses(trace) == st.endsNeeded + CountOpens(trace)
  }

  /** A completed run loses no operation: every operation it decoded, except the final
      end, is held in the final stacks. The final operation closes the function, and the
      ends match the expected count plus one for every block or loop opened. */
  lemma {:induction false} RunAccounts(code: seq<byte>, st: DecodeState)
    requires st.endsNeeded >= 1 && Run(code, st).Done?
    ensures Accounted(st, Run(code, st).final, Run(code, st).trace)
    decreases if st.loc <= |code| then |code| - st.loc else 0
  {
    var s := Step(code, st).value;
    StepAccounts(code, st);
    if s.state.endsNeeded == 0 {
      assert Run(code, s.state) == Done(s.state, []);
      assert Run(code, st) == Done(s.state, [s.oper]);
      AccountsLast(st, s);
    } else {
      RunAccounts(code, s.state);
      var rest := Run(code, s.state);
      assert Run(code, st) == Done(rest.final, [s.oper] + rest.trace);
      AccountsCompose(st, s, rest.final, rest.trace);
    }
  }

  /** The accounting of a run whose first iteration closes the function. */
  lemma AccountsLast(st: DecodeState, s: Stepped)
    requires s.state.endsNeeded == 0 && Held(s.state) == Held(st) && Closes(s.oper)
    requires s.state.endsNeeded == st.endsNeeded + (if Opens(s.oper) then 1 else 0) - (if Closes(s.oper) then 1 else 0)
    ensures Accounted(st, s.state, [s.oper])
  {
    assert [s.oper][..0] == [];
  }

  /** The accounting of one iteration followed by the accounting of the rest of a run
      gives the accounting of the whole run. */
  lemma AccountsCompose(st: DecodeState, s: Stepped, final: DecodeState, trace: seq<Oper>)
    requires s.state.endsNeeded != 0
    requires Held(s.state) == Held(st) + multiset{s.oper}
    requires s.state.endsNeeded == st.endsNeeded + (if Opens(s.oper) then 1 else 0) - (if Closes(s.oper) then 1 else 0)
    requires Accounted(s.state, final, trace)
    ensures Accounted(st, final, [s.oper] + trace)
  {
    TraceCounts(s.oper, trace);
    TraceDropLast(s.oper, trace);
  }

  lemma TraceDropLast(o: Oper, t: seq<Oper>)
    requires |t| >= 1
    ensures ([o] + t)[|t|] == t[|t| - 1]
    ensures multiset(([o] + t)[..|t|]) == multiset{o} + multiset(t[..|t| - 1])
  {
    assert ([o] + t)[..|t|] == [o] + t[..|t| - 1];
  }

  lemma {:induction false} TraceCounts(o: Oper, t: seq<Oper>)
    ensures CountOpens([o] + t) == (if Opens(o) then 1 else 0) + CountOpens(t)
    ensures CountCloses([o] + t) == (if Closes(o) then 1 else 0) + CountCloses(t)
    decreases |t|
  {
    if |t| > 0 {
      assert ([o] + t)[..|t|] == [o] + t[..|t| - 1];
      TraceCounts(o, t[..|t| - 1]);
    }
  }

  /** A run that starts inside the bytecode and overruns does so exactly at its end. */
  lemma {:induction false} RunOverrunsAtEnd(code: seq<byte>, st: DecodeState)
    requires st.loc <= |code| && Run(code, st).Failed? && Run(code, st).error.Overrun?
    ensures Run(code, st).error.at == |code|
    decreases |code| - st.loc
  {
    var r := Step(code, st);
    if r.Ok? {
      RunOverrunsAtEnd(code, r.value.state);
    } else {
      StepOverrunsAtEnd(code, st);
    }
  }

  lemma StepOverrunsAtEnd(code: seq<byte>, st: DecodeState)
    requires st.loc <= |code| && Step(code, st).Err? && Step(code, st).error.Overrun?
    ensures Step(code, st).error.at == |code|
  {
    var r := ReadInstruction(code, st.loc);
    if r.Ok? {
      assert Step(code, st) == Dispatch(code, st, r.value.oper, r.value.next);
    }
  }
}
