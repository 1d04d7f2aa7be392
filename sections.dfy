/** What the section parsers read, as functions of one section's bytes: the signatures of
    the type section, the signature chosen for each function by the function section, the
    export names, and the framing of the function bodies in the code section. */
module Sections {
  import opened Base
  import opened Maths
  import opened FunctionTypes
  import opened Decoding

  /** Why a parser stopped: a read at or past the end of its section, a type entry that
      does not start with 0x60, an index byte naming no signature or no function, a body
      with no function to receive it, or a body whose decoding failed. */
  datatype SectionError =
    | OutOfBounds(at: nat)
    | MalformedSignature(at: nat)
    | BadIndex(at: nat)
    | NoFunction(index: nat)
    | BodyFailed(index: nat, error: DecodeError)

  /** A function type: its parameters and its result. */
  datatype Signature = Signature(inputs: seq<DataDef>, output: DataDef)

  /** The placeholder for an empty parameter list and for a missing result. */
  const Void: DataDef := DataDef(NoneType, false, "void")

  /** The value type a type byte names: 0x7f, 0x7e, 0x7d and 0x7c are i32, i64, f32, f64. */
  function ValueType(b: byte): (r: Option<DataType>)
    ensures r.Some? <==> 0x7c <= b <= 0x7f
    ensures r.Some? ==> r.value != NoneType
  {
    if b == 0x7f then Some(I32)
    else if b == 0x7e then Some(I64)
    else if b == 0x7d then Some(F32)
    else if b == 0x7c then Some(F64)
    else None
  }

  /** The type byte of a value type; the encoding ValueType reads back. */
  function TypeByte(t: DataType): byte
    requires t != NoneType
  {
    match t
    case I32 => 0x7f
    case I64 => 0x7e
    case F32 => 0x7d
    case F64 => 0x7c
  }

  /** The name of parameter k: `__<type>_invar_<k>`. */
  function ParamName(t: DataType, k: nat): string
  {
    "__" + TypeName(t) + "_invar_" + NatToString(k)
  }

  /** The name of a result: `__<type>_out`. */
  function OutName(t: DataType): string
  {
    "__" + TypeName(t) + "_out"
  }

  /** The parameters a vector of type bytes declares: one for each value-type byte, named
      after its position in the vector; any other byte declares nothing. */
  function ParamDefs(bytes: seq<byte>): seq<DataDef>
    decreases |bytes|
  {
    if |bytes| == 0 then []
    else
      var k := |bytes| - 1;
      ParamDefs(bytes[..k]) +
        match ValueType(bytes[k])
        case Some(t) => [DataDef(t, false, ParamName(t, k))]
        case None => []
  }

  /** The result a type byte declares; an unknown byte leaves the default definition. */
  function OutputDef(b: byte): DataDef
  {
    match ValueType(b)
    case Some(t) => DataDef(t, false, OutName(t))
    case None => DefaultDataDef
  }

  /** A signature read from the type section and the offset after it. */
  datatype Entry = Entry(sig: Signature, next: nat)

  /** One type entry from offset: 0x60, the parameter count and that many type bytes,
      then the result count and, when it is not zero, exactly one result type byte. An
      empty parameter list reads as the single void input; a zero result count as a void
      result. */
  function SignatureAt(s: seq<byte>, offset: nat): (r: Result<Entry, SectionError>)
    ensures r.Ok? ==> offset < r.value.next <= |s|
    ensures r == Err(MalformedSignature(offset)) <==> offset < |s| && s[offset] != 0x60
    ensures r.Err? && !r.error.MalformedSignature? ==> r.error.OutOfBounds?
    ensures r.Ok? ==>
      && offset + 1 < |s| && s[offset] == 0x60
      && var q := offset + 2 + s[offset + 1] as nat;
         q < |s| && r.value.next == (if s[q] == 0 then q + 1 else q + 2)
  {
    if offset >= |s| then Err(OutOfBounds(offset))
    else if s[offset] != 0x60 then Err(MalformedSignature(offset))
    else if offset + 1 >= |s| then Err(OutOfBounds(offset + 1))
    else
      var n := s[offset + 1] as nat;
      var p := offset + 2;
      if p + n > |s| then Err(OutOfBounds(|s|))
      else
        var inputs := if n == 0 then [Void] else ParamDefs(s[p..p + n]);
        var q := p + n;
        if q >= |s| then Err(OutOfBounds(q))
        else if s[q] == 0 then Ok(Entry(Signature(inputs, Void), q + 1))
        else if q + 1 >= |s| then Err(OutOfBounds(q + 1))
        else Ok(Entry(Signature(inputs, OutputDef(s[q + 1])), q + 2))
  }

  /** count type entries, one after the other from offset. */
  function SignaturesFrom(s: seq<byte>, offset: nat, count: nat): (r: Result<seq<Signature>, SectionError>)
    ensures r.Ok? ==> |r.value| == count
    decreases count
  {
    if count == 0 then Ok([])
    else
      match SignatureAt(s, offset)
      case Err(e) => Err(e)
      case Ok(entry) =>
        match SignaturesFrom(s, entry.next, count - 1)
        case Err(e) => Err(e)
        case Ok(rest) => Ok([entry.sig] + rest)
  }

  /** The type section: a one-byte entry count, then the entries. */
  function Signatures(s: seq<byte>): Result<seq<Signature>, SectionError>
  {
    if |s| == 0 then Err(OutOfBounds(0)) else SignaturesFrom(s, 1, s[0] as nat)
  }

  /** The type bytes of a list of value types. */
  function TypeBytes(ts: seq<DataType>): (bs: seq<byte>)
    requires forall i :: 0 <= i < |ts| ==> ts[i] != NoneType
    ensures |bs| == |ts|
  {
    seq(|ts|, i requires 0 <= i < |ts| && ts[i] != NoneType => TypeByte(ts[i]))
  }

  /** A type entry as a producer writes it, with any non-zero result count. */
  function EncodeSignature(ts: seq<DataType>, resultCount: byte, result: DataType): seq<byte>
    requires |ts| < 256 && forall i :: 0 <= i < |ts| ==> ts[i] != NoneType
    requires resultCount != 0 ==> result != NoneType
  {
    [0x60, |ts| as byte] + TypeBytes(ts) + (if resultCount == 0 then [0] else [resultCount, TypeByte(result)])
  }

  /** The signature such an entry declares: the parameters named by position, and the
      result, or void for an empty parameter list or a zero result count. */
  function Declared(ts: seq<DataType>, resultCount: byte, result: DataType): Signature
  {
    Signature(
      if |ts| == 0 then [Void] else seq(|ts|, k requires 0 <= k < |ts| => DataDef(ts[k], false, ParamName(ts[k], k))),
      if resultCount == 0 then Void else DataDef(result, false, OutName(result)))
  }

  /** Type bytes read back as the parameters they declare, in order. */
  lemma {:induction false} ParamDefsOfTypes(ts: seq<DataType>)
    requires forall i :: 0 <= i < |ts| ==> ts[i] != NoneType
    ensures ParamDefs(TypeBytes(ts)) == seq(|ts|, k requires 0 <= k < |ts| => DataDef(ts[k], false, ParamName(ts[k], k)))
    decreases |ts|
  {
    if |ts| > 0 {
      var k := |ts| - 1;
      var pre := ts[..k];
      assert TypeBytes(ts)[..k] == TypeBytes(pre);
      ParamDefsOfTypes(pre);
      assert ValueType(TypeBytes(ts)[k]) == Some(ts[k]) by {
        match ts[k]
        case I32 =>
        case I64 =>
        case F32 =>
        case F64 =>
      }
    }
  }

  /** Round trip: an encoded type entry, followed by anything, reads back as the signature
      it declares, and the parser moves on just past it. However large the result count,
      one result type byte is read. */
  lemma SignatureRoundTrip(ts: seq<DataType>, resultCount: byte, result: DataType, rest: seq<byte>)
    requires |ts| < 256 && forall i :: 0 <= i < |ts| ==> ts[i] != NoneType
    requires resultCount != 0 ==> result != NoneType
    ensures var e := EncodeSignature(ts, resultCount, result);
      SignatureAt(e + rest, 0) == Ok(Entry(Declared(ts, resultCount, result), |e|))
  {
    EncodedLayout(ts, resultCount, result, rest);
    InputsOfTypes(ts);
    if resultCount != 0 {
      OutputOfType(result);
    }
  }

  /** Where the parts of an encoded type entry lie. */
  lemma EncodedLayout(ts: seq<DataType>, resultCount: byte, result: DataType, rest: seq<byte>)
    requires |ts| < 256 && forall i :: 0 <= i < |ts| ==> ts[i] != NoneType
    requires resultCount != 0 ==> result != NoneType
    ensures var e := EncodeSignature(ts, resultCount, result);
      var s := e + rest;
      && |e| == |ts| + (if resultCount == 0 then 3 else 4)
      && s[0] == 0x60 && s[1] as nat == |ts| && s[2..2 + |ts|] == TypeBytes(ts)
      && (resultCount == 0 ==> s[2 + |ts|] == 0)
      && (resultCount != 0 ==> s[2 + |ts|] == resultCount && s[3 + |ts|] == TypeByte(result))
  {
    var e := EncodeSignature(ts, resultCount, result);
    var s := e + rest;
    var n := |ts|;
    assert s[2..2 + n] == TypeBytes(ts);
  }

  /** The parameter list read from the type bytes is the declared one. */
  lemma InputsOfTypes(ts: seq<DataType>)
    requires forall i :: 0 <= i < |ts| ==> ts[i] != NoneType
    ensures (if |ts| == 0 then [Void] else ParamDefs(TypeBytes(ts))) == Declared(ts, 0, NoneType).inputs
  {
    if |ts| > 0 {
      ParamDefsOfTypes(ts);
    }
  }

  lemma OutputOfType(t: DataType)
    requires t != NoneType
    ensures OutputDef(TypeByte(t)) == DataDef(t, false, OutName(t))
  {
    match t
    case I32 =>
    case I64 =>
    case F32 =>
    case F64 =>
  }

  /** The parameters a vector declares number exactly its value-type bytes; the others
      are skipped. */
  function CountTypes(bytes: seq<byte>): nat
  {
    if |bytes| == 0 then 0
    else CountTypes(bytes[..|bytes| - 1]) + (if ValueType(bytes[|bytes| - 1]).Some? then 1 else 0)
  }

  lemma {:induction false} ParamDefsCount(bytes: seq<byte>)
    ensures |ParamDefs(bytes)| == CountTypes(bytes) <= |bytes|
    decreases |bytes|
  {
    if |bytes| > 0 {
      ParamDefsCount(bytes[..|bytes| - 1]);
    }
  }

  /** The position a parameter name carries: the number after `__<type>_invar_`. */
  function Position(name: string): nat
  {
    if |name| >= 12 && forall i :: 12 <= i < |name| ==> '0' <= name[i] <= '9' then ParseNat(name[12..]) else 0
  }

  lemma PositionOfName(t: DataType, k: nat)
    requires t != NoneType
    ensures Position(ParamName(t, k)) == k
  {
    var name := ParamName(t, k);
    assert |TypeName(t)| == 3 by {
      match t
      case I32 =>
      case I64 =>
      case F32 =>
      case F64 =>
    }
    assert name[12..] == NatToString(k);
    NatToStringRoundTrip(k);
  }

  /** The positions named in a parameter list strictly increase and stay below the length
      of the vector. */
  lemma {:induction false} PositionsIncrease(bytes: seq<byte>)
    ensures forall i :: 0 <= i < |ParamDefs(bytes)| ==> Position(ParamDefs(bytes)[i].name) < |bytes|
    ensures forall i, j :: 0 <= i < j < |ParamDefs(bytes)| ==>
      Position(ParamDefs(bytes)[i].name) < Position(ParamDefs(bytes)[j].name)
    decreases |bytes|
  {
    if |bytes| > 0 {
      var k := |bytes| - 1;
      PositionsIncrease(bytes[..k]);
      var pre := ParamDefs(bytes[..k]);
      var ps := ParamDefs(bytes);
      var tail := match ValueType(bytes[k])
        case Some(t) => [DataDef(t, false, ParamName(t, k))]
        case None => [];
      assert ps == pre + tail;
      if ValueType(bytes[k]).Some? {
        PositionOfName(ValueType(bytes[k]).value, k);
      }
      forall i | 0 <= i < |ps|
        ensures Position(ps[i].name) < |bytes|
        ensures i < |pre| ==> Position(ps[i].name) < k
      {
        if i < |pre| {
          assert ps[i] == pre[i];
          assert Position(pre[i].name) < k;
        } else {
          assert ps[i] == tail[0];
        }
      }
      forall i, j | 0 <= i < j < |ps|
        ensures Position(ps[i].name) < Position(ps[j].name)
      {
        assert ps[i] == pre[i];
        if j < |pre| {
          assert ps[j] == pre[j];
        } else {
          assert ps[j] == tail[0];
        }
      }
    }
  }

  /** No two parameters of a signature share a name. */
  lemma ParamNamesDistinct(bytes: seq<byte>)
    ensures forall i, j :: 0 <= i < j < |ParamDefs(bytes)| ==> ParamDefs(bytes)[i].name != ParamDefs(bytes)[j].name
  {
    PositionsIncrease(bytes);
  }

  /** The signatures the function section assigns, in order, and the error that stopped
      the reading if one did; the functions before the error are kept. */
  datatype Assigned = Assigned(sigs: seq<Signature>, error: Option<SectionError>)

  /** count index bytes from offset, each choosing one of the signatures read earlier. */
  function AssignFrom(pairs: seq<Signature>, s: seq<byte>, offset: nat, count: nat): (r: Assigned)
    ensures |r.sigs| <= count
    ensures r.error.None? ==> |r.sigs| == count
    decreases count
  {
    if count == 0 then Assigned([], None)
    else if offset >= |s| then Assigned([], Some(OutOfBounds(offset)))
    else if s[offset] as nat >= |pairs| then Assigned([], Some(BadIndex(offset)))
    else
      var rest := AssignFrom(pairs, s, offset + 1, count - 1);
      Assigned([pairs[s[offset]]] + rest.sigs, rest.error)
  }

  /** The function section: a u32 count, then one index byte per function. A count whose
      scan runs off the end of the section fails there. */
  function Assign(pairs: seq<Signature>, s: seq<byte>): Assigned
  {
    var n := U32Length(s);
    if n > |s| then Assigned([], Some(OutOfBounds(|s|)))
    else AssignFrom(pairs, s, n, ULeb32(Padded(s[..n])))
  }

  /** The reference reading of a function section whose indices are all there and all
      valid: function j gets the signature named by the j-th index byte. */
  lemma {:induction false} AssignClosedForm(pairs: seq<Signature>, s: seq<byte>, offset: nat, count: nat)
    requires offset + count <= |s|
    requires forall j :: offset <= j < offset + count ==> s[j] as nat < |pairs|
    ensures AssignFrom(pairs, s, offset, count)
            == Assigned(seq(count, j requires 0 <= j < count => pairs[s[offset + j]]), None)
    decreases count
  {
    if count > 0 {
      AssignClosedForm(pairs, s, offset + 1, count - 1);
    }
  }

  /** An index byte that names no signature stops the reading there, keeping the
      functions before it. */
  lemma {:induction false} AssignStopsAtBadIndex(pairs: seq<Signature>, s: seq<byte>, offset: nat, count: nat, bad: nat)
    requires offset <= bad < offset + count && bad < |s|
    requires forall j :: offset <= j < bad ==> s[j] as nat < |pairs|
    requires s[bad] as nat >= |pairs|
    ensures AssignFrom(pairs, s, offset, count)
            == Assigned(seq(bad - offset, j requires 0 <= j < bad - offset => pairs[s[offset + j]]), Some(BadIndex(bad)))
    decreases count
  {
    if bad > offset {
      AssignStopsAtBadIndex(pairs, s, offset + 1, count - 1, bad);
    }
  }

  /** An export entry: its name, the kind of what it exports, and that thing's index. */
  datatype Export = Export(name: string, kind: byte, index: byte)

  /** An export read from offset, the offset after it, and where its index byte was. */
  datatype ExportRead = ExportRead(item: Export, next: nat, indexAt: nat)

  /** Bytes taken one by one as characters. */
  function Chars(bytes: seq<byte>): (c: string)
    ensures |c| == |bytes| && forall i :: 0 <= i < |bytes| ==> c[i] == (bytes[i] as int) as char
  {
    seq(|bytes|, i requires 0 <= i < |bytes| => (bytes[i] as int) as char)
  }

  /** One export from offset: the name length, that many name bytes, the kind byte and
      the index byte. */
  function ExportAt(s: seq<byte>, offset: nat): (r: Result<ExportRead, SectionError>)
    ensures r.Ok? ==> r.value.next == offset + |r.value.item.name| + 3 <= |s|
    ensures r.Ok? ==> r.value.indexAt == r.value.next - 1
  {
    if offset >= |s| then Err(OutOfBounds(offset))
    else
      var p := offset + 1;
      var q := p + s[offset] as nat;
      if q > |s| then Err(OutOfBounds(|s|))
      else if q >= |s| then Err(OutOfBounds(q))
      else if q + 1 >= |s| then Err(OutOfBounds(q + 1))
      else Ok(ExportRead(Export(Chars(s[p..q]), s[q], s[q + 1]), q + 2, q + 1))
  }

  /** The function titles after the export section, and the error that stopped the
      reading if one did; the titles set before the error are kept. */
  datatype Named = Named(titles: seq<string>, error: Option<SectionError>)

  /** count exports from offset: an export of kind 0 renames the function its index names;
      exports of other kinds leave every title as it is. */
  function NamesFrom(titles: seq<string>, s: seq<byte>, offset: nat, count: nat): (r: Named)
    ensures |r.titles| == |titles|
    decreases count
  {
    if count == 0 then Named(titles, None)
    else
      match ExportAt(s, offset)
      case Err(e) => Named(titles, Some(e))
      case Ok(x) =>
        if x.item.kind != 0 then NamesFrom(titles, s, x.next, count - 1)
        else if x.item.index as nat >= |titles| then Named(titles, Some(BadIndex(x.indexAt)))
        else NamesFrom(titles[x.item.index := x.item.name], s, x.next, count - 1)
  }

  /** The export section: a one-byte export count, then the exports. */
  function Names(titles: seq<string>, s: seq<byte>): Named
  {
    if |s| == 0 then Named(titles, Some(OutOfBounds(0))) else NamesFrom(titles, s, 1, s[0] as nat)
  }

  /** An export as a producer writes it. */
  function EncodeExport(name: seq<byte>, kind: byte, index: byte): seq<byte>
    requires |name| < 256
  {
    [|name| as byte] + name + [kind, index]
  }

  /** Round trip: an encoded export reads back as itself, and the parser moves on by the
      name length plus three. */
  lemma ExportRoundTrip(prefix: seq<byte>, name: seq<byte>, kind: byte, index: byte, rest: seq<byte>)
    requires |name| < 256
    ensures var e := EncodeExport(name, kind, index);
      ExportAt(prefix + e + rest, |prefix|)
      == Ok(ExportRead(Export(Chars(name), kind, index), |prefix| + |name| + 3, |prefix| + |name| + 2))
  {
    var e := EncodeExport(name, kind, index);
    var s := prefix + e + rest;
    var p := |prefix| + 1;
    assert s[|prefix|] == |name| as byte;
    assert s[p..p + |name|] == name;
    assert s[p + |name|] == kind && s[p + |name| + 1] == index;
  }

  /** A function export renames exactly the function it names. */
  lemma ExportOneFunction(titles: seq<string>, name: seq<byte>, index: byte)
    requires |name| < 256 && (index as nat) < |titles|
    ensures Names(titles, [1] + EncodeExport(name, 0, index)) == Named(titles[index := Chars(name)], None)
  {
    ExportRoundTrip([1], name, 0, index, []);
    assert [1] + EncodeExport(name, 0, index) + [] == [1] + EncodeExport(name, 0, index);
  }

  /** Exports of any kind but functions leave the titles alone. */
  lemma OtherKindKeepsTitles(titles: seq<string>, name: seq<byte>, kind: byte, index: byte)
    requires |name| < 256 && kind != 0
    ensures Names(titles, [1] + EncodeExport(name, kind, index)) == Named(titles, None)
  {
    ExportRoundTrip([1], name, kind, index, []);
    assert [1] + EncodeExport(name, kind, index) + [] == [1] + EncodeExport(name, kind, index);
  }

  /** A body cut out of the code section and the offset after it. */
  datatype Framed = Framed(body: seq<byte>, next: nat)

  /** One code entry from offset: four bytes decoded as the size; the body ends size + 1
      bytes after them; the next byte is skipped unread as padding; the byte after it
      counts the local declarations, two bytes each, which are skipped; what is left
      before the end is the body. */
  function BodyAt(s: seq<byte>, offset: nat): (r: Result<Framed, SectionError>)
    ensures r.Ok? ==> offset < r.value.next
  {
    if offset + 4 > |s| then Err(OutOfBounds(EndFrom(s, offset)))
    else
      var size := ULeb32(s[offset..offset + 4]);
      var o := offset + 4;
      var stop := size + o + 1;
      var l := o + 1;
      if l >= |s| then Err(OutOfBounds(l))
      else
        var start := l + 1 + 2 * (s[l] as nat);
        if start >= stop then Ok(Framed([], start))
        else if stop > |s| then Err(OutOfBounds(EndFrom(s, start)))
        else Ok(Framed(s[start..stop], stop))
  }

  /** The bodies handed to the functions, in order, what decoding each of them came to,
      and the error that stopped the extraction if one did. A body whose decoding failed
      is counted as handed over. */
  datatype Handed = Handed(bodies: seq<seq<byte>>, outcomes: seq<Outcome>, error: Option<SectionError>)

  /** decode is the decoding a function applies to the body it is handed: decoding from
      the body's first byte. The extraction is stated for any such decode, so that its
      proofs need not look inside the decoder. */
  ghost predicate FromStart(decode: seq<byte> -> Outcome)
  {
    forall c {:trigger Decode(c, 0)} :: decode(c) == Decode(c, 0)
  }

  /** count code entries from offset, the i-th going to function i of nfuncs, each decoded
      by decode as soon as it is framed; the first framing or decoding failure stops the
      extraction. */
  function HandOut(s: seq<byte>, offset: nat, count: nat, i: nat, nfuncs: nat, decode: seq<byte> -> Outcome): (r: Handed)
    ensures |r.outcomes| == |r.bodies| <= count
    ensures r.error.None? ==> |r.bodies| == count
    ensures r.error.Some? && r.error.value.BodyFailed? ==> |r.bodies| >= 1
    ensures |r.bodies| > 0 ==> i + |r.bodies| <= nfuncs
    decreases count
  {
    if count == 0 then Handed([], [], None)
    else
      match BodyAt(s, offset)
      case Err(e) => Handed([], [], Some(e))
      case Ok(f) =>
        if i >= nfuncs then Handed([], [], Some(NoFunction(i)))
        else
          var o := decode(f.body);
          match o
          case Failed(e) => Handed([f.body], [o], Some(BodyFailed(i, e)))
          case Done(_, _) =>
            var rest := HandOut(s, f.next, count - 1, i + 1, nfuncs, decode);
            Handed([f.body] + rest.bodies, [o] + rest.outcomes, rest.error)
  }

  /** Every outcome recorded is what decode made of its body, and only the last of them
      can be a failure. */
  ghost predicate Recorded(h: Handed, decode: seq<byte> -> Outcome)
  {
    && |h.outcomes| == |h.bodies|
    && (forall j :: 0 <= j < |h.bodies| ==> h.outcomes[j] == decode(h.bodies[j]))
    && (forall j :: 0 <= j < |h.bodies| - 1 ==> h.outcomes[j].Done?)
  }

  /** A handing out records what decode made of each body, failing at most at the last. */
  lemma {:induction false} HandOutOutcomes(s: seq<byte>, offset: nat, count: nat, i: nat, nfuncs: nat, decode: seq<byte> -> Outcome)
    ensures Recorded(HandOut(s, offset, count, i, nfuncs, decode), decode)
    decreases count
  {
    var r := HandOut(s, offset, count, i, nfuncs, decode);
    if count > 0 && BodyAt(s, offset).Ok? && i < nfuncs {
      var f := BodyAt(s, offset).value;
      var o := decode(f.body);
      if o.Done? {
        var rest := HandOut(s, f.next, count - 1, i + 1, nfuncs, decode);
        HandOutOutcomes(s, f.next, count - 1, i + 1, nfuncs, decode);
        assert r.bodies == [f.body] + rest.bodies && r.outcomes == [o] + rest.outcomes;
        forall j | 0 <= j < |r.bodies|
          ensures r.outcomes[j] == decode(r.bodies[j])
          ensures j < |r.bodies| - 1 ==> r.outcomes[j].Done?
        {
          if j > 0 {
            assert r.outcomes[j] == rest.outcomes[j - 1] && r.bodies[j] == rest.bodies[j - 1];
          } else {
            assert r.outcomes[j] == o && r.bodies[j] == f.body;
          }
        }
      }
    }
  }

  /** With decode decoding from the body's start, every outcome recorded is the decoding
      of its body from its first byte. */
  lemma HandOutDecodes(s: seq<byte>, offset: nat, count: nat, i: nat, nfuncs: nat, decode: seq<byte> -> Outcome)
    requires FromStart(decode)
    ensures var r := HandOut(s, offset, count, i, nfuncs, decode);
      forall j :: 0 <= j < |r.bodies| ==> r.outcomes[j] == Decode(r.bodies[j], 0)
  {
    HandOutOutcomes(s, offset, count, i, nfuncs, decode);
  }

  /** The code section: a one-byte entry count, then the entries, for nfuncs functions. */
  function CodeBodies(s: seq<byte>, nfuncs: nat, decode: seq<byte> -> Outcome): Handed
  {
    if |s| == 0 then Handed([], [], Some(OutOfBounds(0))) else HandOut(s, 1, s[0] as nat, 0, nfuncs, decode)
  }

  /** A code entry as a producer writes it when it pads the size to five bytes: the size
      in four continuation bytes and a final zero, then the local count, the local
      declarations (two bytes each) and the instructions. */
  function EncodeBody(localCount: byte, locals: seq<byte>, code: seq<byte>): seq<byte>
    requires |locals| == 2 * localCount as nat
  {
    var payload := [localCount] + locals + code;
    FixedLeb(|payload|, 4) + [0] + payload
  }

  /** Round trip: a body written with a five-byte size reads back as its instructions,
      with the locals skipped, and the framing moves on just past it. */
  lemma BodyRoundTrip(prefix: seq<byte>, localCount: byte, locals: seq<byte>, code: seq<byte>, rest: seq<byte>)
    requires |locals| == 2 * localCount as nat
    requires 1 + |locals| + |code| < 0x1000_0000
    ensures var e := EncodeBody(localCount, locals, code);
      BodyAt(prefix + e + rest, |prefix|)
      == Ok(Framed(code, |prefix| + |e|))
  {
    var e := EncodeBody(localCount, locals, code);
    var payload := [localCount] + locals + code;
    var s := prefix + e + rest;
    var offset := |prefix|;
    assert s[offset..offset + 4] == FixedLeb(|payload|, 4);
    FixedLebRoundTrip(|payload|);
    assert s[offset + 5] == localCount;
    var start := offset + 6 + |locals|;
    assert s[start..offset + |e|] == code;
  }

  /** What reading the type, function and export sections leaves: the signature and the
      title of each function, and the error that stopped the reading if one did. Titles
      are empty until the export section is read. */
  datatype Headed = Headed(sigs: seq<Signature>, titles: seq<string>, error: Option<SectionError>)

  /** The sections read in the mediator's order: the type section and the function
      section give the functions and their signatures, then the export section their
      titles, the latter only when the former did not fail. */
  function Headers(types: seq<byte>, functions: seq<byte>, exports: seq<byte>): (r: Headed)
    ensures |r.titles| == |r.sigs|
    ensures r.error.None? ==> Signatures(types).Ok?
  {
    match Signatures(types)
    case Err(e) => Headed([], [], Some(e))
    case Ok(pairs) =>
      var a := Assign(pairs, functions);
      var blank := seq(|a.sigs|, _ => "");
      if a.error.Some? then Headed(a.sigs, blank, a.error)
      else
        var n := Names(blank, exports);
        Headed(a.sigs, n.titles, n.error)
  }

  /** What reading a module leaves: the signature, the title, the body and that body's
      decoding for each function, and the error that stopped the reading if one did.
      Functions past the bodies have none. */
  datatype Extracted = Extracted(sigs: seq<Signature>, titles: seq<string>, bodies: seq<seq<byte>>, outcomes: seq<Outcome>, error: Option<SectionError>)

  /** The headers of the module, then, when they were read without error, the code
      section's bodies, each decoded by decode. */
  function Extract(types: seq<byte>, functions: seq<byte>, exports: seq<byte>, code: seq<byte>, decode: seq<byte> -> Outcome): (r: Extracted)
    ensures |r.titles| == |r.sigs| && |r.outcomes| == |r.bodies| <= |r.sigs|
    ensures r.error.None? ==> Signatures(types).Ok?
  {
    var hd := Headers(types, functions, exports);
    if hd.error.Some? then Extracted(hd.sigs, hd.titles, [], [], hd.error)
    else
      var h := CodeBodies(code, |hd.sigs|, decode);
      Extracted(hd.sigs, hd.titles, h.bodies, h.outcomes, h.error)
  }
}
