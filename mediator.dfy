/** The mediator: it reads the type, function, export and code sections into the list of
    functions, giving each its signature, its title and its decoded body. */
module Extraction {
  import opened Base
  import opened Maths
  import opened FunctionTypes
  import opened Decoding
  import opened Sections
  import opened Functions

  /** One type entry, read byte by byte as the type-section loop reads it. */
  method ReadSignature(s: seq<byte>, offset: nat) returns (r: Result<Entry, SectionError>)
    ensures r == SignatureAt(s, offset)
  {
    if offset >= |s| {
      return Err(OutOfBounds(offset));
    }
    if s[offset] != 0x60 {
      return Err(MalformedSignature(offset));
    }
    var at := offset + 1;
    if at >= |s| {
      return Err(OutOfBounds(at));
    }
    var vectorLength := s[at];
    at := at + 1;
    var inputs: seq<DataDef> := [Void];
    if vectorLength != 0 {
      var params := ReadParams(s, at, vectorLength as nat);
      if params.Err? {
        return Err(params.error);
      }
      inputs := params.value;
      at := at + vectorLength as nat;
    }
    if at >= |s| {
      return Err(OutOfBounds(at));
    }
    var resultLength := s[at];
    at := at + 1;
    var output := DefaultDataDef;
    if resultLength != 0 {
      if at >= |s| {
        return Err(OutOfBounds(at));
      }
      output := ResultDef(s[at]);
      at := at + 1;
    } else {
      output := Void;
    }
    return Ok(Entry(Signature(inputs, output), at));
  }

  /** The result a type byte declares; an unknown byte leaves the default definition. */
  method ResultDef(workingByte: byte) returns (output: DataDef)
    ensures output == OutputDef(workingByte)
  {
    output := DefaultDataDef;
    if workingByte == 0x7f {
      output := DataDef(I32, false, OutName(I32));
    } else if workingByte == 0x7e {
      output := DataDef(I64, false, OutName(I64));
    } else if workingByte == 0x7d {
      output := DataDef(F32, false, OutName(F32));
    } else if workingByte == 0x7c {
      output := DataDef(F64, false, OutName(F64));
    }
  }

  /** The n parameter type bytes from p: each value-type byte declares a parameter named
      after its position; any other byte declares nothing. */
  method ReadParams(s: seq<byte>, p: nat, n: nat) returns (r: Result<seq<DataDef>, SectionError>)
    requires p <= |s|
    ensures p + n <= |s| ==> r == Ok(ParamDefs(s[p..p + n]))
    ensures p + n > |s| ==> r == Err(OutOfBounds(|s|))
  {
    var inputs: seq<DataDef> := [];
    var at := p;
    for k := 0 to n
      invariant at == p + k <= |s|
      invariant inputs == ParamDefs(s[p..at])
    {
      if at >= |s| {
        return Err(OutOfBounds(at));
      }
      ParamDefsStep(s, p, k);
      var workingByte := s[at];
      at := at + 1;
      if workingByte == 0x7f {
        inputs := inputs + [DataDef(I32, false, ParamName(I32, k))];
      } else if workingByte == 0x7e {
        inputs := inputs + [DataDef(I64, false, ParamName(I64, k))];
      } else if workingByte == 0x7d {
        inputs := inputs + [DataDef(F32, false, ParamName(F32, k))];
      } else if workingByte == 0x7c {
        inputs := inputs + [DataDef(F64, false, ParamName(F64, k))];
      }
    }
    return Ok(inputs);
  }

  /** One more type byte read: the parameters it declares follow those already read. */
  lemma ParamDefsStep(s: seq<byte>, p: nat, k: nat)
    requires p + k < |s|
    ensures ParamDefs(s[p..p + k + 1]) == ParamDefs(s[p..p + k]) +
      match ValueType(s[p + k])
      case Some(t) => [DataDef(t, false, ParamName(t, k))]
      case None => []
  {
    assert s[p..p + k + 1][..k] == s[p..p + k];
  }

  /** One export, its name copied a byte at a time. */
  method ReadExport(s: seq<byte>, offset: nat) returns (r: Result<ExportRead, SectionError>)
    ensures r == ExportAt(s, offset)
  {
    if offset >= |s| {
      return Err(OutOfBounds(offset));
    }
    var nameLength := s[offset];
    var at := offset + 1;
    var initialOffset := at;
    var name: string := [];
    while at < initialOffset + nameLength as nat
      invariant initialOffset <= at <= initialOffset + nameLength as nat && at <= |s|
      invariant name == Chars(s[initialOffset..at])
    {
      if at >= |s| {
        return Err(OutOfBounds(at));
      }
      name := name + [(s[at] as int) as char];
      at := at + 1;
    }
    if at >= |s| {
      return Err(OutOfBounds(at));
    }
    var idxType := s[at];
    at := at + 1;
    if at >= |s| {
      return Err(OutOfBounds(at));
    }
    var idxValue := s[at];
    at := at + 1;
    return Ok(ExportRead(Export(name, idxType, idxValue), at, at - 1));
  }

  /** One code entry: the four size bytes, the padding byte, the locals skipped, and the
      instructions copied up to the end the size gives. */
  method ReadBody(s: seq<byte>, offset: nat) returns (r: Result<Framed, SectionError>)
    ensures r == BodyAt(s, offset)
  {
    var lebLength: seq<byte> := [];
    var at := offset;
    while |lebLength| < 4
      invariant |lebLength| <= 4 && at == offset + |lebLength| && (|lebLength| > 0 ==> at <= |s|)
      invariant forall m :: 0 <= m < |lebLength| ==> lebLength[m] == s[offset + m]
    {
      if at >= |s| {
        return Err(OutOfBounds(at));
      }
      lebLength := lebLength + [s[at]];
      at := at + 1;
    }
    assert lebLength == s[offset..offset + 4];
    var size := UDecLeb32(lebLength);
    var nextStop := size + at + 1;
    at := at + 1;
    if at >= |s| {
      return Err(OutOfBounds(at));
    }
    var localSize := s[at];
    at := at + 1;
    if localSize != 0 {
      at := at + localSize as nat * 2;
    }
    var start := at;
    var byteCode: seq<byte> := [];
    while at < nextStop
      invariant start <= at && (at > start ==> at <= nextStop && at <= |s|)
      invariant |byteCode| == at - start && forall m :: 0 <= m < |byteCode| ==> byteCode[m] == s[start + m]
    {
      if at >= |s| {
        return Err(OutOfBounds(at));
      }
      byteCode := byteCode + [s[at]];
      at := at + 1;
    }
    if start < nextStop {
      assert byteCode == s[start..nextStop];
    }
    return Ok(Framed(byteCode, at));
  }

  /** The titles of a list of functions, in order. */
  ghost function TitlesOf(fs: seq<Function>): (t: seq<string>)
    reads fs
    ensures |t| == |fs| && forall j :: 0 <= j < |fs| ==> t[j] == fs[j].funcName
  {
    if fs == [] then [] else TitlesOf(fs[..|fs| - 1]) + [fs[|fs| - 1].funcName]
  }

  /** A function with the signature sig and the title title, defined in the module. */
  ghost predicate Titled(f: Function, sig: Signature, title: string)
    reads f`funcInputs, f`funcOutputs, f`isImported, f`funcName
  {
    f.funcInputs == sig.inputs && f.funcOutputs == sig.output && !f.isImported && f.funcName == title
  }

  /** A function with no body yet. */
  ghost predicate Bodiless(f: Function)
    reads f`ops, f`statements, f`byteCode, f`loc
  {
    f.ops == [] && f.statements == [] && f.byteCode == [] && f.loc == 0
  }

  /** A function as it is made from a signature, before it has a title or a body. */
  ghost predicate Blank(f: Function, sig: Signature)
    reads f
  {
    Titled(f, sig, "") && Bodiless(f)
  }

  /** A function that was handed code and decoded it to outcome o: a decoding that
      finished leaves its final stacks and location, one that failed leaves empty stacks
      and the location of the failure. */
  ghost predicate DecodedFrom(f: Function, code: seq<byte>, o: Outcome)
    reads f`ops, f`statements, f`byteCode, f`loc
  {
    && f.byteCode == code
    && match o
       case Done(final, _) => f.loc == final.loc && f.ops == final.opers && f.statements == final.stmts
       case Failed(e) => f.loc == e.at && f.ops == [] && f.statements == []
  }

  /** Function j once the bodies so far were handed out: decoded from its body if it was
      given one, still without a body otherwise. */
  ghost predicate Placed(f: Function, j: nat, bodies: seq<seq<byte>>, outcomes: seq<Outcome>)
    requires |bodies| == |outcomes|
    reads f`ops, f`statements, f`byteCode, f`loc
  {
    if j < |bodies| then DecodedFrom(f, bodies[j], outcomes[j]) else Bodiless(f)
  }

  /** Function j as reading the module leaves it: the signature, the title and the body
      the reading gives it, decoded as the reading records. */
  ghost predicate Made(f: Function, x: Extracted, j: nat)
    requires j < |x.sigs| && |x.titles| == |x.sigs| && |x.outcomes| == |x.bodies|
    reads f
  {
    Titled(f, x.sigs[j], x.titles[j]) && Placed(f, j, x.bodies, x.outcomes)
  }

  /** The remaining entries combined with the bodies already handed out and their
      outcomes. */
  function HandedAfter(bodies: seq<seq<byte>>, outcomes: seq<Outcome>, rest: Handed): Handed
  {
    Handed(bodies + rest.bodies, outcomes + rest.outcomes, rest.error)
  }

  /** The signatures already read combined with the reading of the remaining ones. */
  function ReadAfter(done: seq<Signature>, rest: Result<seq<Signature>, SectionError>): Result<seq<Signature>, SectionError>
  {
    match rest
    case Err(e) => Err(e)
    case Ok(sigs) => Ok(done + sigs)
  }

  /** The signatures already assigned combined with the assigning of the remaining ones. */
  function AssignedAfter(done: seq<Signature>, rest: Assigned): Assigned
  {
    Assigned(done + rest.sigs, rest.error)
  }

  /** count type entries from offset, read one after the other. */
  method ReadSignatures(s: seq<byte>, offset: nat, count: nat) returns (r: Result<seq<Signature>, SectionError>)
    ensures r == SignaturesFrom(s, offset, count)
  {
    ghost var goal := SignaturesFrom(s, offset, count);
    assert goal == ReadAfter([], goal) by {
      match goal
      case Err(_) =>
      case Ok(sigs) => assert [] + sigs == sigs;
    }
    var types: seq<Signature> := [];
    var at := offset;
    for i := 0 to count
      invariant goal == ReadAfter(types, SignaturesFrom(s, at, count - i))
    {
      var entry := ReadSignature(s, at);
      if entry.Err? {
        return Err(entry.error);
      }
      SignaturesStep(s, at, count - i, types);
      types := types + [entry.value.sig];
      at := entry.value.next;
    }
    assert types + [] == types;
    return Ok(types);
  }

  /** One type entry read: its signature joins those already read. */
  lemma SignaturesStep(s: seq<byte>, offset: nat, count: nat, done: seq<Signature>)
    requires count > 0 && SignatureAt(s, offset).Ok?
    ensures var e := SignatureAt(s, offset).value;
      ReadAfter(done, SignaturesFrom(s, offset, count)) == ReadAfter(done + [e.sig], SignaturesFrom(s, e.next, count - 1))
  {
    var e := SignatureAt(s, offset).value;
    match SignaturesFrom(s, e.next, count - 1)
    case Err(_) =>
    case Ok(rest) => assert done + [e.sig] + rest == done + ([e.sig] + rest);
  }

  /** One index byte read: its signature joins those already assigned. */
  lemma AssignStep(pairs: seq<Signature>, s: seq<byte>, offset: nat, count: nat, made: seq<Signature>)
    requires count > 0 && offset < |s| && (s[offset] as nat) < |pairs|
    ensures AssignedAfter(made, AssignFrom(pairs, s, offset, count))
      == AssignedAfter(made + [pairs[s[offset]]], AssignFrom(pairs, s, offset + 1, count - 1))
  {
    assert made + [pairs[s[offset]]] + AssignFrom(pairs, s, offset + 1, count - 1).sigs
      == made + ([pairs[s[offset]]] + AssignFrom(pairs, s, offset + 1, count - 1).sigs);
  }

  /** One body framed and handed to function i: it joins those already handed out, and
      the extraction goes on if its decoding finished and stops if it failed. */
  lemma HandOutStep(s: seq<byte>, offset: nat, count: nat, i: nat, nfuncs: nat, decode: seq<byte> -> Outcome,
                    bodies: seq<seq<byte>>, outcomes: seq<Outcome>, f: Framed)
    requires count > 0 && BodyAt(s, offset) == Ok(f) && i < nfuncs
    ensures var o := decode(f.body);
      HandedAfter(bodies, outcomes, HandOut(s, offset, count, i, nfuncs, decode))
      == if o.Done? then HandedAfter(bodies + [f.body], outcomes + [o], HandOut(s, f.next, count - 1, i + 1, nfuncs, decode))
         else Handed(bodies + [f.body], outcomes + [o], Some(BodyFailed(i, o.error)))
  {
    var o := decode(f.body);
    if o.Done? {
      var rest := HandOut(s, f.next, count - 1, i + 1, nfuncs, decode);
      assert bodies + [f.body] + rest.bodies == bodies + ([f.body] + rest.bodies);
      assert outcomes + [o] + rest.outcomes == outcomes + ([o] + rest.outcomes);
    } else {
      assert bodies + [f.body] + [] == bodies + [f.body];
      assert outcomes + [o] + [] == outcomes + [o];
    }
  }

  /** An entry that cannot be framed, or one with no function left to take it, stops the
      extraction with nothing more handed out. */
  lemma HandOutStops(s: seq<byte>, offset: nat, count: nat, i: nat, nfuncs: nat, decode: seq<byte> -> Outcome,
                     bodies: seq<seq<byte>>, outcomes: seq<Outcome>)
    requires count > 0 && (BodyAt(s, offset).Err? || i >= nfuncs)
    ensures HandedAfter(bodies, outcomes, HandOut(s, offset, count, i, nfuncs, decode))
      == Handed(bodies, outcomes, Some(if BodyAt(s, offset).Err? then BodyAt(s, offset).error else NoFunction(i)))
  {
    assert bodies + [] == bodies && outcomes + [] == outcomes;
  }

  /** Function i decodes the body handed to it; a failure names the function. */
  method HandOver(f: Function, i: nat, code: seq<byte>, ghost decode: seq<byte> -> Outcome) returns (err: Option<SectionError>)
    requires FromStart(decode) && Bodiless(f)
    modifies f`byteCode, f`loc, f`ops, f`statements
    ensures DecodedFrom(f, code, decode(code))
    ensures err == match decode(code) case Failed(e) => Some(BodyFailed(i, e)) case Done(_, _) => None
  {
    var failure := f.DecodeFunction(code);
    assert decode(code) == Decode(code, 0);
    if failure.Some? {
      return Some(BodyFailed(i, failure.value));
    }
    return None;
  }

  /** The function of a list at index i, if there is one. */
  ghost function At(fs: seq<Function>, i: nat): set<Function>
  {
    if i < |fs| then {fs[i]} else {}
  }

  /** The extraction is under way: the bodies handed out so far and their outcomes,
      followed by what the count entries from offset hand out to the functions from i
      on, make up goal. */
  ghost predicate Pending(goal: Handed, s: seq<byte>, offset: nat, count: nat, i: nat, nfuncs: nat, decode: seq<byte> -> Outcome,
                          bodies: seq<seq<byte>>, outcomes: seq<Outcome>)
  {
    goal == HandedAfter(bodies, outcomes, HandOut(s, offset, count, i, nfuncs, decode))
  }

  /** Before the first entry nothing is handed out and everything is still to come. */
  lemma PendingAtStart(goal: Handed, s: seq<byte>, offset: nat, count: nat, nfuncs: nat, decode: seq<byte> -> Outcome)
    requires goal == HandOut(s, offset, count, 0, nfuncs, decode)
    ensures Pending(goal, s, offset, count, 0, nfuncs, decode, [], [])
  {
    assert [] + goal.bodies == goal.bodies && [] + goal.outcomes == goal.outcomes;
  }

  /** Once the count is reached, what has been handed out is all of goal. */
  lemma PendingAtEnd(goal: Handed, s: seq<byte>, offset: nat, i: nat, nfuncs: nat, decode: seq<byte> -> Outcome,
                     bodies: seq<seq<byte>>, outcomes: seq<Outcome>)
    requires Pending(goal, s, offset, 0, i, nfuncs, decode, bodies, outcomes)
    ensures goal == Handed(bodies, outcomes, None)
  {
    assert bodies + [] == bodies && outcomes + [] == outcomes;
  }

  /** One round of the code-section loop: frame the entry at offset and hand it to
      function i. The bodies handed out so far grow by that body when one was framed for
      a function; the extraction goes on from next when its decoding finished. */
  method Round(fs: seq<Function>, s: seq<byte>, offset: nat, count: nat, i: nat, ghost decode: seq<byte> -> Outcome,
               ghost goal: Handed, ghost bodies: seq<seq<byte>>, ghost outcomes: seq<Outcome>)
    returns (err: Option<SectionError>, next: nat, ghost bodies': seq<seq<byte>>, ghost outcomes': seq<Outcome>)
    requires FromStart(decode) && count > 0 && |bodies| == |outcomes| == i <= |fs|
    requires forall j, k :: 0 <= j < k < |fs| ==> fs[j] != fs[k]
    requires forall j :: 0 <= j < |fs| ==> Placed(fs[j], j, bodies, outcomes)
    requires Pending(goal, s, offset, count, i, |fs|, decode, bodies, outcomes)
    modifies At(fs, i)`byteCode, At(fs, i)`loc, At(fs, i)`ops, At(fs, i)`statements
    ensures |bodies'| == |outcomes'| <= |fs| && (err.None? ==> |bodies'| == i + 1)
    ensures forall j :: 0 <= j < |fs| ==> Placed(fs[j], j, bodies', outcomes')
    ensures err.Some? ==> goal == Handed(bodies', outcomes', err)
    ensures err.None? ==> Pending(goal, s, next, count - 1, i + 1, |fs|, decode, bodies', outcomes')
  {
    var entry := ReadBody(s, offset);
    if entry.Err? || i >= |fs| {
      HandOutStops(s, offset, count, i, |fs|, decode, bodies, outcomes);
      return Some(if entry.Err? then entry.error else NoFunction(i)), offset, bodies, outcomes;
    }
    var body := entry.value.body;
    err := HandOver(fs[i], i, body, decode);
    HandOutStep(s, offset, count, i, |fs|, decode, bodies, outcomes, entry.value);
    bodies', outcomes' := bodies + [body], outcomes + [decode(body)];
    next := entry.value.next;
  }

  /** The loop of the code section: each entry framed and handed to the function of
      its index, until the count is reached or an entry stops the reading. */
  method HandAll(fs: seq<Function>, codeSection: seq<byte>, ghost decode: seq<byte> -> Outcome) returns (err: Option<SectionError>)
    requires FromStart(decode) && |codeSection| > 0
    requires forall j, k :: 0 <= j < k < |fs| ==> fs[j] != fs[k]
    requires forall j :: 0 <= j < |fs| ==> Bodiless(fs[j])
    modifies fs`byteCode, fs`loc, fs`ops, fs`statements
    ensures var h := HandOut(codeSection, 1, codeSection[0] as nat, 0, |fs|, decode);
      && err == h.error
      && forall j :: 0 <= j < |fs| ==> Placed(fs[j], j, h.bodies, h.outcomes)
  {
    ghost var goal := HandOut(codeSection, 1, codeSection[0] as nat, 0, |fs|, decode);
    var numberOfFuncs := codeSection[0];
    var offset := 1;
    ghost var bodies: seq<seq<byte>> := [];
    ghost var outcomes: seq<Outcome> := [];
    PendingAtStart(goal, codeSection, offset, numberOfFuncs as nat, |fs|, decode);
    err := None;
    for i := 0 to numberOfFuncs as nat
      invariant err.None? && |bodies| == |outcomes| == i <= |fs|
      invariant Pending(goal, codeSection, offset, numberOfFuncs as nat - i, i, |fs|, decode, bodies, outcomes)
      invariant forall j :: 0 <= j < |fs| ==> Placed(fs[j], j, bodies, outcomes)
    {
      err, offset, bodies, outcomes := Round(fs, codeSection, offset, numberOfFuncs as nat - i, i, decode, goal, bodies, outcomes);
      if err.Some? {
        break;
      }
    }
    if err.None? {
      PendingAtEnd(goal, codeSection, offset, numberOfFuncs as nat, |fs|, decode, bodies, outcomes);
    }
  }

  class Mediator {
    /** The number of entries of the type section. */
    var numberOfFuncs: nat
    /** The functions of the module, in index order. */
    var funcs: seq<Function>

    /** No function appears twice, so changing one changes no other. */
    ghost predicate Distinct()
      reads this
    {
      forall i, j :: 0 <= i < j < |funcs| ==> funcs[i] != funcs[j]
    }

    /** The functions are new, one made from each of sigs and nothing else. */
    ghost predicate Populated(sigs: seq<Signature>)
      reads this, funcs
    {
      |funcs| == |sigs| && forall j :: 0 <= j < |funcs| ==> Blank(funcs[j], sigs[j])
    }

    constructor ()
      ensures numberOfFuncs == 0 && funcs == []
    {
      numberOfFuncs := 0;
      funcs := [];
    }

    /** Reads the type section's signatures, then lets the function section give each
        function one of them. */
    method ExtractSignatures(typeSection: seq<byte>, functionSection: seq<byte>) returns (err: Option<SectionError>)
      requires funcs == []
      modifies this
      ensures Distinct() && forall j :: 0 <= j < |funcs| ==> fresh(funcs[j])
      ensures numberOfFuncs == if |typeSection| > 0 then typeSection[0] as nat else old(numberOfFuncs)
      ensures var sig := Signatures(typeSection);
        && (sig.Err? ==> err == Some(sig.error) && funcs == [])
        && (sig.Ok? ==> err == Assign(sig.value, functionSection).error && Populated(Assign(sig.value, functionSection).sigs))
    {
      if |typeSection| == 0 {
        return Some(OutOfBounds(0));
      }
      numberOfFuncs := typeSection[0] as nat;
      var types := ReadSignatures(typeSection, 1, numberOfFuncs);
      if types.Err? {
        return Some(types.error);
      }
      err := PopulateFunctions(types.value, functionSection);
    }

    /** Makes one function per index byte of the function section, with the signature
        the byte names. */
    method PopulateFunctions(pairs: seq<Signature>, functionSection: seq<byte>) returns (err: Option<SectionError>)
      requires funcs == []
      modifies this`funcs
      ensures Distinct() && forall j :: 0 <= j < |funcs| ==> fresh(funcs[j])
      ensures err == Assign(pairs, functionSection).error && Populated(Assign(pairs, functionSection).sigs)
    {
      if U32Length(functionSection) > |functionSection| {
        return Some(OutOfBounds(|functionSection|));
      }
      var offset, size := GetNextU32(functionSection, 0);
      assert functionSection[0..] == functionSection;
      var made;
      made, err := MakeFunctions(pairs, functionSection, offset, size);
      funcs := made;
    }

    /** Gives each function that the export section exports its exported name. */
    method ExtractNames(exportSection: seq<byte>) returns (err: Option<SectionError>)
      requires Distinct()
      modifies funcs`funcName
      ensures var n := Names(old(TitlesOf(funcs)), exportSection);
        && err == n.error
        && forall j :: 0 <= j < |funcs| ==> funcs[j].funcName == n.titles[j]
    {
      var fs := funcs;
      ghost var titles := TitlesOf(fs);
      ghost var goal := Names(titles, exportSection);
      if |exportSection| == 0 {
        return Some(OutOfBounds(0));
      }
      var numberOfExports := exportSection[0];
      var offset := 1;
      for i := 0 to numberOfExports as nat
        invariant goal == NamesFrom(titles, exportSection, offset, numberOfExports as nat - i)
        invariant |titles| == |fs| && forall j :: 0 <= j < |fs| ==> fs[j].funcName == titles[j]
      {
        var x := ReadExport(exportSection, offset);
        if x.Err? {
          return Some(x.error);
        }
        offset := x.value.next;
        if x.value.item.kind == 0 {
          var idx := x.value.item.index as nat;
          if idx >= |fs| {
            return Some(BadIndex(x.value.indexAt));
          }
          fs[idx].SetTitle(x.value.item.name);
          titles := titles[idx := x.value.item.name];
        }
      }
      return None;
    }

    /** Frames each body of the code section and has the function of the same index
        decode it. */
    method DecodeBodies(codeSection: seq<byte>, ghost decode: seq<byte> -> Outcome) returns (err: Option<SectionError>)
      requires FromStart(decode) && Distinct()
      requires forall j :: 0 <= j < |funcs| ==> Bodiless(funcs[j])
      modifies funcs`byteCode, funcs`loc, funcs`ops, funcs`statements
      ensures var h := CodeBodies(codeSection, |funcs|, decode);
        && err == h.error
        && forall j :: 0 <= j < |funcs| ==> Placed(funcs[j], j, h.bodies, h.outcomes)
    {
      if |codeSection| == 0 {
        return Some(OutOfBounds(0));
      }
      err := HandAll(funcs, codeSection, decode);
    }
    /** Reads the signatures, then the titles: the first half of the mediator's reading
        of a module. */
    method ExtractHeaders(typeSection: seq<byte>, functionSection: seq<byte>, exportSection: seq<byte>)
      returns (err: Option<SectionError>)
      requires funcs == []
      modifies this
      ensures var hd := Headers(typeSection, functionSection, exportSection);
        && err == hd.error && |funcs| == |hd.sigs| && Distinct()
        && forall j :: 0 <= j < |funcs| ==> fresh(funcs[j]) && Titled(funcs[j], hd.sigs[j], hd.titles[j]) && Bodiless(funcs[j])
    {
      err := ExtractSignatures(typeSection, functionSection);
      if err.Some? {
        return;
      }
      ghost var a := Assign(Signatures(typeSection).value, functionSection);
      ghost var blank := seq(|a.sigs|, _ => "");
      assert TitlesOf(funcs) == blank;
      label Signed:
      err := ExtractNames(exportSection);
      ghost var n := Names(blank, exportSection);
      forall j | 0 <= j < |funcs|
        ensures Titled(funcs[j], a.sigs[j], n.titles[j]) && Bodiless(funcs[j])
      {
        assert old@Signed(Blank(funcs[j], a.sigs[j]));
      }
    }

    /** Reads a whole module: the signatures, then the titles, then the bodies, each
        decoded from its start. */
    method ExtractFunctions(typeSection: seq<byte>, functionSection: seq<byte>, exportSection: seq<byte>, codeSection: seq<byte>,
                            ghost decode: seq<byte> -> Outcome)
      returns (err: Option<SectionError>)
      requires FromStart(decode) && funcs == []
      modifies this
      ensures var x := Extract(typeSection, functionSection, exportSection, codeSection, decode);
        && err == x.error && |funcs| == |x.sigs| && Distinct()
        && forall j :: 0 <= j < |funcs| ==> fresh(funcs[j]) && Made(funcs[j], x, j)
    {
      err := ExtractHeaders(typeSection, functionSection, exportSection);
      if err.Some? {
        return;
      }
      err := DecodeBodies(codeSection, decode);
    }
  }

  /** The functions count index bytes from offset make, each new and distinct, and the
      error that stopped the reading if one did. */
  method MakeFunctions(pairs: seq<Signature>, s: seq<byte>, offset: nat, count: nat) returns (made: seq<Function>, err: Option<SectionError>)
    ensures var a := AssignFrom(pairs, s, offset, count);
      && err == a.error && |made| == |a.sigs|
      && forall j :: 0 <= j < |made| ==> Blank(made[j], a.sigs[j])
    ensures forall j :: 0 <= j < |made| ==> fresh(made[j])
    ensures forall j, k :: 0 <= j < k < |made| ==> made[j] != made[k]
  {
    ghost var goal := AssignFrom(pairs, s, offset, count);
    assert goal == AssignedAfter([], goal);
    ghost var chosen: seq<Signature> := [];
    var at := offset;
    made := [];
    err := None;
    for i := 0 to count
      invariant at == offset + i && |chosen| == i && |made| == i
      invariant goal == AssignedAfter(chosen, AssignFrom(pairs, s, at, count - i))
      invariant forall j, k :: 0 <= j < k < i ==> made[j] != made[k]
      invariant forall j :: 0 <= j < i ==> fresh(made[j]) && Blank(made[j], chosen[j])
    {
      if at >= |s| {
        err := Some(OutOfBounds(at));
        break;
      }
      var idx := s[at];
      at := at + 1;
      if idx as nat >= |pairs| {
        err := Some(BadIndex(at - 1));
        break;
      }
      AssignStep(pairs, s, at - 1, count - i, chosen);
      var next := new Function.WithSignature(pairs[idx].inputs, pairs[idx].output);
      made := made + [next];
      chosen := chosen + [pairs[idx]];
    }
    assert chosen + [] == chosen;
  }
}
