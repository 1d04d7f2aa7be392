/** The text renderer: the expression printer for one tree and the function printer
    that lays out the signature, the statements with their indentation, the leftover
    operand and the closing end. */
module Render {
  import opened Base
  import opened Opcodes
  import opened Maths
  import opened FunctionTypes

  /** Text of a reinterpreted floating-point buffer (four bytes for f32, eight for f64):
      the stream formatting of the value is supplied by the caller. */
  type FloatText = seq<byte> -> string

  /** A constant's buffer: its bytes, then 0x80 up to n bytes. */
  function PadTo(s: seq<byte>, n: nat): (p: seq<byte>)
    requires |s| <= n
    ensures |p| == n && p[..|s|] == s
    ensures forall i :: |s| <= i < n ==> p[i] == 0x80
  {
    s + seq(n - |s|, _ => 0x80)
  }

  /** The buffers of the constant printer hold four bytes for i32/f32 and eight for
      i64/f64: a constant with more bytes would overflow them. */
  predicate Fits(o: Oper)
  {
    && (o.op.op == 0x41 || o.op.op == 0x43 ==> |o.bytes| <= 4)
    && (o.op.op == 0x42 || o.op.op == 0x44 ==> |o.bytes| <= 8)
  }

  predicate TreeFits(s: Statement)
    decreases s
  {
    && Fits(s.operation)
    && (s.left.Some? ==> TreeFits(s.left.value))
    && (s.right.Some? ==> TreeFits(s.right.value))
  }

  /** Each immediate byte as " " and its decimal value, in order. */
  function ByteList(bytes: seq<byte>): string
  {
    if |bytes| == 0 then "" else ByteList(bytes[..|bytes| - 1]) + " " + NatToString(bytes[|bytes| - 1] as nat)
  }

  /** The label of one operation: its mnemonic followed by its immediate text. */
  function Label(o: Oper, f32: FloatText, f64: FloatText): string
    requires Fits(o)
  {
    o.op.symbol + Immediate(o, f32, f64)
  }

  /** The decoded value of the four constants, the immediate bytes in decimal for
      anything else. */
  function Immediate(o: Oper, f32: FloatText, f64: FloatText): string
    requires Fits(o)
  {
    if 0x41 <= o.op.op <= 0x44 then ConstantText(o, f32, f64) else ByteList(o.bytes)
  }

  /** A constant's value: integers go through the four-byte decoder on the padded buffer,
      so an i64 constant uses only its first four bytes; floats go to the formatters. */
  function ConstantText(o: Oper, f32: FloatText, f64: FloatText): string
    requires Fits(o) && 0x41 <= o.op.op <= 0x44
  {
    var op := o.op.op;
    if op == 0x41 || op == 0x43 then
      var list := PadTo(o.bytes, 4);
      if op == 0x41 then " " + NatToString(ULeb32(list)) else " " + f32(list)
    else
      var list := PadTo(o.bytes, 8);
      if op == 0x42 then " " + NatToString(ULeb32(list)) else " " + f64(list)
  }

  /** The three shapes of a printed node: the label alone for a leaf, the label then the
      left text when only the left child is present, and otherwise the right text, the
      label and the left text. */
  function Arrange(output: string, leftOut: string, rightOut: string, hasLeft: bool, hasRight: bool): string
  {
    if !hasLeft && !hasRight then output
    else if hasLeft && !hasRight then output + " " + leftOut
    else rightOut + " " + output + " " + leftOut
  }

  /** The expression printer: each present child is printed and parenthesised, and the
      texts are arranged around the node's label. */
  function PrintStatement(s: Statement, f32: FloatText, f64: FloatText): string
    requires TreeFits(s)
    decreases s
  {
    Arrange(Label(s.operation, f32, f64), Paren(s.left, f32, f64), Paren(s.right, f32, f64), s.left.Some?, s.right.Some?)
  }

  /** A child's text in parentheses; an absent child prints as nothing. */
  function Paren(child: Option<Statement>, f32: FloatText, f64: FloatText): string
    requires child.Some? ==> TreeFits(child.value)
    decreases child
  {
    if child.Some? then "(" + PrintStatement(child.value, f32, f64) + ")" else ""
  }

  /** An integer constant prints as its value: for every value below 2^28, an i32 or
      i64 constant whose bytes are its LEB128 encoding prints as the mnemonic, a space and
      the value in decimal. */
  lemma IntegerLabel(v: nat, f32: FloatText, f64: FloatText)
    requires v < 0x1000_0000
    ensures |EncodeULeb(v)| <= 4
    ensures Fits(Oper(I32Const(), EncodeULeb(v))) && Fits(Oper(I64Const(), EncodeULeb(v)))
    ensures Label(Oper(I32Const(), EncodeULeb(v)), f32, f64) == "i32_const " + NatToString(v)
    ensures Label(Oper(I64Const(), EncodeULeb(v)), f32, f64) == "i64_const " + NatToString(v)
  {
    var e := EncodeULeb(v);
    ULeb32RoundTrip(v, [0x80, 0x80, 0x80, 0x80]);
    ULeb32RoundTrip(v, seq(4 - |e|, _ => 0x80));
    ULeb32RoundTrip(v, seq(8 - |e|, _ => 0x80));
    assert PadTo(e, 4) == e + seq(4 - |e|, _ => 0x80);
    assert PadTo(e, 8) == e + seq(8 - |e|, _ => 0x80);
    IntegerLabelShape(Oper(I32Const(), e), f32, f64);
    IntegerLabelShape(Oper(I64Const(), e), f32, f64);
  }

  lemma IntegerLabelShape(o: Oper, f32: FloatText, f64: FloatText)
    requires o.op.op == 0x41 || o.op.op == 0x42
    requires |o.bytes| <= 4
    ensures Fits(o)
    ensures Label(o, f32, f64) == o.op.symbol + " " + NatToString(ULeb32(PadTo(o.bytes, if o.op.op == 0x41 then 4 else 8)))
  {
  }

  /** An i64 constant goes through the four-byte decoder: whatever its bytes past the
      fourth, it prints as the value of its first four alone. */
  lemma I64LabelTruncates(o: Oper, f32: FloatText, f64: FloatText)
    requires o.op.op == 0x42 && 4 <= |o.bytes| <= 8
    ensures Fits(o)
    ensures Label(o, f32, f64) == o.op.symbol + " " + NatToString(ULeb32(o.bytes[..4]))
  {
    var list := PadTo(o.bytes, 8);
    var first := o.bytes[..4];
    assert list[..4] == first;
    var n := U32Length(list);
    assert list[..n] == first[..n];
    ULeb32ReadsOnlyScanned(list, first);
  }

  /** Occurrences of a character. */
  function Count(c: char, s: string): nat
  {
    if |s| == 0 then 0 else Count(c, s[..|s| - 1]) + (if s[|s| - 1] == c then 1 else 0)
  }

  lemma {:induction false} CountConcat(c: char, a: string, b: string)
    ensures Count(c, a + b) == Count(c, a) + Count(c, b)
    decreases |b|
  {
    if |b| > 0 {
      assert (a + b)[..|a + b| - 1] == a + b[..|b| - 1];
      assert (a + b)[|a + b| - 1] == b[|b| - 1];
      CountConcat(c, a, b[..|b| - 1]);
    } else {
      assert a + b == a;
    }
  }

  /** A character that does not occur is counted zero times. */
  lemma {:induction false} CountAbsent(c: char, s: string)
    requires c !in s
    ensures Count(c, s) == 0
    decreases |s|
  {
    if |s| > 0 {
      assert c !in s[..|s| - 1];
      CountAbsent(c, s[..|s| - 1]);
    }
  }

  /** The number of parent-child links in a tree. */
  function Edges(s: Statement): nat
    decreases s
  {
    (if s.left.Some? then 1 + Edges(s.left.value) else 0)
    + (if s.right.Some? then 1 + Edges(s.right.value) else 0)
  }

  /** A tree of label texts: the shape of a statement tree with every operation already
      rendered. */
  datatype TextTree = TextTree(text: string, left: Option<TextTree>, right: Option<TextTree>)

  function Labelled(s: Statement, f32: FloatText, f64: FloatText): (t: TextTree)
    requires TreeFits(s)
    decreases s
  {
    TextTree(Label(s.operation, f32, f64),
             if s.left.Some? then Some(Labelled(s.left.value, f32, f64)) else None,
             if s.right.Some? then Some(Labelled(s.right.value, f32, f64)) else None)
  }

  /** The printer's layout on rendered labels. */
  function Layout(t: TextTree): string
    decreases t
  {
    Arrange(t.text, LayoutParen(t.left), LayoutParen(t.right), t.left.Some?, t.right.Some?)
  }

  function LayoutParen(child: Option<TextTree>): string
    decreases child
  {
    if child.Some? then "(" + Layout(child.value) + ")" else ""
  }

  /** Printing a statement is rendering its labels, then laying them out. */
  lemma {:induction false} PrintIsLayout(s: Statement, f32: FloatText, f64: FloatText)
    requires TreeFits(s)
    ensures PrintStatement(s, f32, f64) == Layout(Labelled(s, f32, f64))
    decreases s
  {
    var t := Labelled(s, f32, f64);
    if s.left.Some? {
      PrintIsLayout(s.left.value, f32, f64);
      assert Paren(s.left, f32, f64) == LayoutParen(t.left);
    } else {
      assert Paren(s.left, f32, f64) == LayoutParen(t.left);
    }
    if s.right.Some? {
      PrintIsLayout(s.right.value, f32, f64);
      assert Paren(s.right, f32, f64) == LayoutParen(t.right);
    } else {
      assert Paren(s.right, f32, f64) == LayoutParen(t.right);
    }
  }

  /** The number of parent-child links in a tree of labels. */
  function TextEdges(t: TextTree): nat
    decreases t
  {
    (if t.left.Some? then 1 + TextEdges(t.left.value) else 0)
    + (if t.right.Some? then 1 + TextEdges(t.right.value) else 0)
  }

  lemma {:induction false} EdgesLabelled(s: Statement, f32: FloatText, f64: FloatText)
    requires TreeFits(s)
    ensures TextEdges(Labelled(s, f32, f64)) == Edges(s)
    decreases s
  {
    if s.left.Some? {
      EdgesLabelled(s.left.value, f32, f64);
    }
    if s.right.Some? {
      EdgesLabelled(s.right.value, f32, f64);
    }
  }

  /** No label of the tree holds character c. */
  predicate Plain(c: char, t: TextTree)
    decreases t
  {
    && c !in t.text
    && (t.left.Some? ==> Plain(c, t.left.value))
    && (t.right.Some? ==> Plain(c, t.right.value))
  }

  /** Every label in the tree is free of parentheses. */
  predicate LabelsPlain(s: Statement, f32: FloatText, f64: FloatText)
    requires TreeFits(s)
  {
    Plain('(', Labelled(s, f32, f64)) && Plain(')', Labelled(s, f32, f64))
  }

  /** Parenthesised children: when no label holds a parenthesis, the printed expression
      has one opening and one closing parenthesis per parent-child link. */
  lemma PrintBalanced(s: Statement, f32: FloatText, f64: FloatText)
    requires TreeFits(s) && LabelsPlain(s, f32, f64)
    ensures Count('(', PrintStatement(s, f32, f64)) == Edges(s)
    ensures Count(')', PrintStatement(s, f32, f64)) == Edges(s)
  {
    PrintIsLayout(s, f32, f64);
    EdgesLabelled(s, f32, f64);
    LayoutCount('(', Labelled(s, f32, f64));
    LayoutCount(')', Labelled(s, f32, f64));
  }

  lemma {:induction false} LayoutCount(c: char, t: TextTree)
    requires c == '(' || c == ')'
    requires Plain(c, t)
    ensures Count(c, Layout(t)) == TextEdges(t)
    decreases t
  {
    Wrapped(c, t.left);
    Wrapped(c, t.right);
    ArrangeCounts(c, t.text, LayoutParen(t.left), LayoutParen(t.right), t.left.Some?, t.right.Some?);
  }

  /** A label free of c adds no c to the arranged node. */
  lemma ArrangeCounts(c: char, output: string, leftOut: string, rightOut: string, hasLeft: bool, hasRight: bool)
    requires c != ' ' && c !in output
    requires !hasLeft ==> leftOut == ""
    requires !hasRight ==> rightOut == ""
    ensures Count(c, Arrange(output, leftOut, rightOut, hasLeft, hasRight)) == Count(c, leftOut) + Count(c, rightOut)
  {
    CountAbsent(c, output);
    CountAbsent(c, " ");
    if !hasLeft && !hasRight {
    } else if hasLeft && !hasRight {
      CountConcat(c, output + " ", leftOut);
      CountConcat(c, output, " ");
    } else {
      CountConcat(c, rightOut + " " + output + " ", leftOut);
      CountConcat(c, rightOut + " " + output, " ");
      CountConcat(c, rightOut + " ", output);
      CountConcat(c, rightOut, " ");
    }
  }

  /** A parenthesised child: one more parenthesis of each kind than the child's own text. */
  lemma Wrapped(c: char, child: Option<TextTree>)
    requires c == '(' || c == ')'
    requires child.Some? ==> Plain(c, child.value)
    ensures Count(c, LayoutParen(child)) == if child.Some? then 1 + TextEdges(child.value) else 0
    decreases child
  {
    if child.Some? {
      var inner := Layout(child.value);
      LayoutCount(c, child.value);
      CountConcat(c, "(" + inner, ")");
      CountConcat(c, "(", inner);
    }
  }

  /** n tab characters; none for n <= 0. */
  function Tabs(n: int): (s: string)
    ensures |s| == (if n > 0 then n else 0)
    ensures forall i :: 0 <= i < |s| ==> s[i] == '\t'
  {
    if n <= 0 then "" else seq(n, _ => '\t')
  }

  /** Whether a line contains "if" anywhere. */
  predicate ContainsIf(w: string)
  {
    exists i | 0 <= i < |w| - 1 :: w[i] == 'i' && w[i + 1] == 'f'
  }

  /** Whether a printed line opens an indentation level: "block", "loop", or any line
      containing "if" whose first five characters are not "br_if". */
  predicate Opener(w: string)
  {
    && (w == "block" || w == "loop" || ContainsIf(w))
    && (if |w| < 5 then w else w[..5]) != "br_if"
  }

  /** The indentation a line is written at: one less than the running count for
      a line that is exactly "end". */
  function IndentFor(w: string, tabs: int): int
  {
    if w == "end" then tabs - 1 else tabs
  }

  /** The running count after a line: one more than its indentation after an opener. */
  function TabsNext(w: string, tabs: int): int
  {
    if Opener(w) then IndentFor(w, tabs) + 1 else IndentFor(w, tabs)
  }

  /** The running count after a sequence of lines, starting from t. */
  function TabsAfter(lines: seq<string>, t: int): int
  {
    if |lines| == 0 then t else TabsNext(lines[|lines| - 1], TabsAfter(lines[..|lines| - 1], t))
  }

  /** The indented lines, each written at its indentation and ended by a newline. */
  function BodyText(lines: seq<string>, t: int): string
  {
    if |lines| == 0 then ""
    else
      var w := lines[|lines| - 1];
      BodyText(lines[..|lines| - 1], t) + Tabs(IndentFor(w, TabsAfter(lines[..|lines| - 1], t))) + w + "\n"
  }

  function CountOpeners(lines: seq<string>): nat
  {
    if |lines| == 0 then 0 else CountOpeners(lines[..|lines| - 1]) + (if Opener(lines[|lines| - 1]) then 1 else 0)
  }

  function CountEnds(lines: seq<string>): nat
  {
    if |lines| == 0 then 0 else CountEnds(lines[..|lines| - 1]) + (if lines[|lines| - 1] == "end" then 1 else 0)
  }

  /** The running count is the start plus the openers minus the ends seen so far. */
  lemma {:induction false} TabsClosedForm(lines: seq<string>, t: int)
    ensures TabsAfter(lines, t) == t + CountOpeners(lines) - CountEnds(lines)
    decreases |lines|
  {
    if |lines| > 0 {
      var w := lines[|lines| - 1];
      TabsClosedForm(lines[..|lines| - 1], t);
      assert !(w == "end" && Opener(w)) by {
        if w == "end" {
          assert !ContainsIf(w);
        }
      }
    }
  }

  /** Line k is written at the start count, plus the openers before it, minus the ends
      up to and including it. */
  lemma LineIndent(lines: seq<string>, t: int, k: nat)
    requires k < |lines|
    ensures BodyText(lines[..k + 1], t)
            == BodyText(lines[..k], t) + Tabs(t + CountOpeners(lines[..k]) - CountEnds(lines[..k + 1])) + lines[k] + "\n"
  {
    var pre := lines[..k + 1];
    assert pre[..k] == lines[..k];
    TabsClosedForm(lines[..k], t);
    assert CountEnds(pre) == CountEnds(lines[..k]) + (if lines[k] == "end" then 1 else 0);
  }

  /** Writing one more line: it goes at the indentation the lines before it give, and the
      running count moves on past it. */
  lemma BodyStep(lines: seq<string>, k: nat, t: int)
    requires k < |lines|
    ensures BodyText(lines[..k + 1], t) == BodyText(lines[..k], t) + Tabs(IndentFor(lines[k], TabsAfter(lines[..k], t))) + lines[k] + "\n"
    ensures TabsAfter(lines[..k + 1], t) == TabsNext(lines[k], TabsAfter(lines[..k], t))
  {
    assert lines[..k + 1][..k] == lines[..k];
  }

  /** One parameter as the signature prints it. */
  function ParamText(d: DataDef): string
  {
    TypeName(d.dtype) + " " + d.name
  }

  /** Appending the pieces of one parameter one after another appends its text. */
  lemma ParamAppend(acc: string, d: DataDef)
    ensures acc + TypeName(d.dtype) + " " + d.name + ", " == acc + ParamText(d) + ", "
  {
    assert acc + TypeName(d.dtype) + " " + d.name == acc + ParamText(d);
  }

  /** The parameter list as accumulated: every parameter followed by ", ". */
  function InputsText(inputs: seq<DataDef>): string
  {
    if |inputs| == 0 then "" else InputsText(inputs[..|inputs| - 1]) + ParamText(inputs[|inputs| - 1]) + ", "
  }

  /** Dropping the trailing comma and space: two characters fewer, or the text itself when
      it is shorter (the subtraction wraps and the whole text is kept). */
  function DropLast2(s: string): string
  {
    if |s| >= 2 then s[..|s| - 2] else s
  }

  /** The reference reading of a parameter list: the parameters separated by ", ". */
  function Join(ws: seq<string>): string
  {
    if |ws| == 0 then "" else if |ws| == 1 then ws[0] else Join(ws[..|ws| - 1]) + ", " + ws[|ws| - 1]
  }

  function Params(inputs: seq<DataDef>): (ps: seq<string>)
    ensures |ps| == |inputs| && forall i :: 0 <= i < |inputs| ==> ps[i] == ParamText(inputs[i])
  {
    seq(|inputs|, i requires 0 <= i < |inputs| => ParamText(inputs[i]))
  }

  /** Accumulating "p, " and dropping the last two characters is joining with ", ". */
  lemma {:induction false} SignatureJoin(inputs: seq<DataDef>)
    ensures DropLast2(InputsText(inputs)) == Join(Params(inputs))
    decreases |inputs|
  {
    if |inputs| > 0 {
      var pre := inputs[..|inputs| - 1];
      var p := ParamText(inputs[|inputs| - 1]);
      assert Params(inputs)[..|inputs| - 1] == Params(pre);
      var acc := InputsText(pre);
      assert InputsText(inputs) == acc + p + ", ";
      assert DropLast2(acc + p + ", ") == acc + p;
      if |pre| > 0 {
        SignatureJoin(pre);
        assert |acc| >= 2 by {
          assert acc == InputsText(pre[..|pre| - 1]) + ParamText(pre[|pre| - 1]) + ", ";
        }
        assert acc == DropLast2(acc) + ", ";
      } else {
        assert acc == "";
      }
    }
  }

  /** The signature line: result type, name, and the parameter list in parentheses. */
  function HeaderLine(name: string, inputs: seq<DataDef>, output: DataDef): string
  {
    TypeName(output.dtype) + " " + name + "(" + DropLast2(InputsText(inputs)) + ")" + "\n"
  }

  predicate AllFit(stmts: seq<Statement>)
  {
    forall i :: 0 <= i < |stmts| ==> TreeFits(stmts[i])
  }

  /** The printed statements in push order. */
  function Lines(stmts: seq<Statement>, f32: FloatText, f64: FloatText): (ls: seq<string>)
    requires AllFit(stmts)
    ensures |ls| == |stmts| && forall i :: 0 <= i < |stmts| ==> ls[i] == PrintStatement(stmts[i], f32, f64)
  {
    seq(|stmts|, i requires 0 <= i < |stmts| && AllFit(stmts) => PrintStatement(stmts[i], f32, f64))
  }

  /** Only the top of a leftover operand stack is printed, as a leaf at indentation 1. */
  function Leftover(ops: seq<Oper>, f32: FloatText, f64: FloatText): string
    requires |ops| > 0 ==> Fits(ops[|ops| - 1])
  {
    if |ops| == 0 then "" else Tabs(1) + PrintStatement(Leaf(ops[|ops| - 1]), f32, f64)
  }

  /** The whole printed function: signature, the statements from indentation 1, the
      leftover operand, and the closing end at indentation 0. */
  function FunctionText(name: string, inputs: seq<DataDef>, output: DataDef, stmts: seq<Statement>,
                        ops: seq<Oper>, f32: FloatText, f64: FloatText): string
    requires AllFit(stmts) && (|ops| > 0 ==> Fits(ops[|ops| - 1]))
  {
    HeaderLine(name, inputs, output) + BodyText(Lines(stmts, f32, f64), 1)
    + Leftover(ops, f32, f64) + "\n" + Tabs(0) + "end" + "\n"
  }
}
