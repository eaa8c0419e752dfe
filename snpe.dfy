/**
 * The configuration logic of the SNPE tensor filter: the custom-property
 * parser, the per-tensor element-type override and resolution, and the
 * dimension/stride layout handed to the SDK for each tensor.
 */
module SnpeFilter {
  import opened Base
  import opened GStrings
  import opened TensorTypes

  /** Snpe_Runtime_t values the parser can choose. */
  datatype Runtime = Cpu | Gpu | Dsp | AipFixed8Tf

  /** Snpe_UserBufferEncoding_ElementType_t: what the user or the model asks for. */
  datatype Encoding = UnknownEncoding | FloatEncoding | Tf8Encoding | OtherEncoding(code: int)

  /** What parse_custom_prop fills in. */
  datatype CustomProps = CustomProps(
    runtime: Runtime,
    outputTensors: Option<seq<string>>,
    inputTypes: seq<Encoding>,
    outputTypes: seq<Encoding>)

  datatype SnpeError = InvalidTensorName | UnsupportedType | MissingQuantization

  /** The captured state before parsing: CPU runtime, no names, no types. */
  const Defaults := CustomProps(Cpu, None, [], [])

  /** Runtime option values, matched ignoring ASCII case. */
  function RuntimeNamed(v: string): (r: Option<Runtime>)
    ensures EqualsIgnoreCase(v, "CPU") ==> r == Some(Cpu)
    ensures EqualsIgnoreCase(v, "GPU") ==> r == Some(Gpu)
    ensures EqualsIgnoreCase(v, "DSP") ==> r == Some(Dsp)
    ensures EqualsIgnoreCase(v, "NPU") || EqualsIgnoreCase(v, "AIP") ==> r == Some(AipFixed8Tf)
    ensures r == None <==>
      !(EqualsIgnoreCase(v, "CPU") || EqualsIgnoreCase(v, "GPU") || EqualsIgnoreCase(v, "DSP")
        || EqualsIgnoreCase(v, "NPU") || EqualsIgnoreCase(v, "AIP"))
  {
    if EqualsIgnoreCase(v, "CPU") then Some(Cpu)
    else if EqualsIgnoreCase(v, "GPU") then Some(Gpu)
    else if EqualsIgnoreCase(v, "DSP") then Some(Dsp)
    else if EqualsIgnoreCase(v, "NPU") || EqualsIgnoreCase(v, "AIP") then Some(AipFixed8Tf)
    else None
  }

  /** InputType/OutputType entries, matched ignoring ASCII case. */
  function TypeNamed(t: string): (e: Option<Encoding>)
    ensures EqualsIgnoreCase(t, "FLOAT32") ==> e == Some(FloatEncoding)
    ensures EqualsIgnoreCase(t, "TF8") ==> e == Some(Tf8Encoding)
    ensures e == None <==> !EqualsIgnoreCase(t, "FLOAT32") && !EqualsIgnoreCase(t, "TF8")
  {
    if EqualsIgnoreCase(t, "FLOAT32") then Some(FloatEncoding)
    else if EqualsIgnoreCase(t, "TF8") then Some(Tf8Encoding)
    else None
  }

  /** The recognised entries of a type list, in order; unknown entries are skipped. */
  function KnownTypes(types: seq<string>): (r: seq<Encoding>)
    ensures |r| <= |types|
    ensures forall k :: 0 <= k < |r| ==> r[k] in {FloatEncoding, Tf8Encoding}
    decreases |types|
  {
    if types == [] then []
    else
      match TypeNamed(types[0])
      case Some(e) => [e] + KnownTypes(types[1..])
      case None => KnownTypes(types[1..])
  }

  lemma {:induction false} KnownTypesAppend(a: seq<string>, b: seq<string>)
    ensures KnownTypes(a + b) == KnownTypes(a) + KnownTypes(b)
    decreases |a|
  {
    if a != [] {
      assert (a + b)[1..] == a[1..] + b;
      KnownTypesAppend(a[1..], b);
    } else {
      assert a + b == b;
    }
  }

  /** The effect of one comma-separated option on the parsed properties. */
  function ApplyOption(p: CustomProps, opt: string): Result<CustomProps, SnpeError>
  {
    var option := GSplit(opt, ':');
    if |option| <= 1 then Ok(p)
    else
      var key := Strip(option[0]);
      var value := Strip(option[1]);
      if EqualsIgnoreCase(key, "Runtime") then
        match RuntimeNamed(value)
        case Some(r) => Ok(p.(runtime := r))
        case None => Ok(p)
      else if EqualsIgnoreCase(key, "OutputTensor") then
        var names := GSplit(Join(':', [value] + option[2..]), ';');
        if "" in names then Err(InvalidTensorName) else Ok(p.(outputTensors := Some(names)))
      else if EqualsIgnoreCase(key, "OutputType") then
        Ok(p.(outputTypes := p.outputTypes + KnownTypes(GSplit(value, ';'))))
      else if EqualsIgnoreCase(key, "InputType") then
        Ok(p.(inputTypes := p.inputTypes + KnownTypes(GSplit(value, ';'))))
      else Ok(p)
  }

  /** The options applied left to right; the first error stops the parse. */
  function ApplyOptions(p: CustomProps, opts: seq<string>): Result<CustomProps, SnpeError>
    decreases |opts|
  {
    if opts == [] then Ok(p)
    else
      match ApplyOption(p, opts[0])
      case Ok(q) => ApplyOptions(q, opts[1..])
      case Err(e) => Err(e)
  }

  /** The whole custom property string: no string leaves the defaults. */
  function CustomPropsOf(prop: Option<string>): Result<CustomProps, SnpeError>
  {
    if prop.None? then Ok(Defaults) else ApplyOptions(Defaults, GSplit(prop.value, ','))
  }

  /** Appends the recognised entries of one type list, in order. */
  method AppendTypes(acc: seq<Encoding>, types: seq<string>) returns (r: seq<Encoding>)
    ensures r == acc + KnownTypes(types)
  {
    r := acc;
    var i := 0;
    while i < |types|
      invariant 0 <= i <= |types|
      invariant r + KnownTypes(types[i..]) == acc + KnownTypes(types)
    {
      assert types[i..] == [types[i]] + types[i + 1..];
      match TypeNamed(types[i]) {
        case Some(e) =>
          r := r + [e];
        case None =>
      }
      i := i + 1;
    }
  }

  /** Collects the output tensor names; an empty name is rejected. */
  method CollectNames(names: seq<string>) returns (r: Result<seq<string>, SnpeError>)
    ensures r == if "" in names then Err(InvalidTensorName) else Ok(names)
  {
    var list: seq<string> := [];
    var i := 0;
    while i < |names|
      invariant 0 <= i <= |names|
      invariant list == names[..i]
      invariant "" !in list
    {
      if names[i] == "" {
        return Err(InvalidTensorName);
      }
      list := list + [names[i]];
      i := i + 1;
    }
    assert names[..|names|] == names;
    return Ok(list);
  }

  /** The body of the option loop: one "key:value" option updates the settings. */
  method ParseOption(cur: CustomProps, opt: string) returns (r: Result<CustomProps, SnpeError>)
    ensures r == ApplyOption(cur, opt)
  {
    var runtime, outputTensors, inputTypes, outputTypes :=
      cur.runtime, cur.outputTensors, cur.inputTypes, cur.outputTypes;
    var option := GSplit(opt, ':');
    if |option| > 1 {
      var key := Strip(option[0]);
      var value := Strip(option[1]);
      if EqualsIgnoreCase(key, "Runtime") {
        match RuntimeNamed(value) {
          case Some(rt) => runtime := rt;
          case None =>
        }
      } else if EqualsIgnoreCase(key, "OutputTensor") {
        var names := GSplit(Join(':', [value] + option[2..]), ';');
        var collected := CollectNames(names);
        if collected.Err? {
          return Err(collected.error);
        }
        outputTensors := Some(collected.value);
      } else if EqualsIgnoreCase(key, "OutputType") {
        outputTypes := AppendTypes(outputTypes, GSplit(value, ';'));
      } else if EqualsIgnoreCase(key, "InputType") {
        inputTypes := AppendTypes(inputTypes, GSplit(value, ';'));
      }
    }
    return Ok(CustomProps(runtime, outputTensors, inputTypes, outputTypes));
  }

  /** parse_custom_prop: walks the comma-separated options in order. */
  method ParseCustomProp(prop: Option<string>) returns (r: Result<CustomProps, SnpeError>)
    ensures r == CustomPropsOf(prop)
  {
    if prop.None? {
      return Ok(Defaults);
    }
    var options := GSplit(prop.value, ',');
    var cur := Defaults;
    var op := 0;
    while op < |options|
      invariant 0 <= op <= |options|
      invariant ApplyOptions(cur, options[op..]) == CustomPropsOf(prop)
    {
      assert options[op..][1..] == options[op + 1..];
      var next := ParseOption(cur, options[op]);
      if next.Err? {
        return Err(next.error);
      }
      cur := next.value;
      op := op + 1;
    }
    return Ok(cur);
  }

  // ---------------------------------------------------------------------
  // Properties of the parser
  // ---------------------------------------------------------------------

  /** Applying a concatenation of option lists is applying one after the other. */
  lemma {:induction false} ApplyOptionsAppend(p: CustomProps, a: seq<string>, b: seq<string>)
    ensures ApplyOptions(p, a + b) ==
      match ApplyOptions(p, a) {
        case Ok(q) => ApplyOptions(q, b)
        case Err(e) => Err(e)
      }
    decreases |a|
  {
    if a == [] {
      assert a + b == b;
    } else {
      assert (a + b)[1..] == a[1..] + b;
      match ApplyOption(p, a[0]) {
        case Ok(q) => ApplyOptionsAppend(q, a[1..], b);
        case Err(e) =>
      }
    }
  }

  /** The pieces of "key:value" when the value has no colon. */
  lemma {:induction false} SplitKeyValue(key: string, value: string)
    requires ':' !in key && ':' !in value
    ensures GSplit(key + ":" + value, ':') == [key, value]
  {
    SplitAtFirst(key, ':', value);
    SplitWithoutDelimiter(value, ':');
  }

  /**
   * A Runtime option with a recognised value selects that runtime and
   * changes nothing else; an unrecognised value changes nothing at all, so
   * the runtime chosen earlier (CPU by default) stays.
   */
  lemma {:induction false} RuntimeOption(p: CustomProps, value: string)
    requires ':' !in value
    ensures ApplyOption(p, "Runtime:" + value) ==
      match RuntimeNamed(Strip(value)) {
        case Some(r) => Ok(p.(runtime := r))
        case None => Ok(p)
      }
  {
    assert "Runtime:" + value == "Runtime" + ":" + value;
    SplitKeyValue("Runtime", value);
    StripWithoutSpaces("Runtime");
    EqualsIgnoreCaseIsEquivalence("Runtime", "Runtime", "Runtime");
  }

  /** Of several Runtime options the last recognised one wins. */
  lemma {:induction false} LastRuntimeWins(opts: seq<string>, value: string)
    requires ':' !in value
    requires RuntimeNamed(Strip(value)).Some?
    requires ApplyOptions(Defaults, opts).Ok?
    ensures ApplyOptions(Defaults, opts + ["Runtime:" + value]).Ok?
    ensures ApplyOptions(Defaults, opts + ["Runtime:" + value]).value.runtime
      == RuntimeNamed(Strip(value)).value
  {
    ApplyOptionsAppend(Defaults, opts, ["Runtime:" + value]);
    var q := ApplyOptions(Defaults, opts).value;
    RuntimeOption(q, value);
  }

  /** An OutputTensor option splits into its key, the first name, and the fields of the rest. */
  lemma {:induction false} OutputTensorFields(first: string, rest: string)
    requires ':' !in first
    ensures GSplit("OutputTensor:" + first + ":" + rest, ':') == ["OutputTensor", first] + Split(rest, ':')
  {
    var opt := "OutputTensor:" + first + ":" + rest;
    assert opt == "OutputTensor" + [':'] + (first + [':'] + rest);
    SplitAtFirst("OutputTensor", ':', first + [':'] + rest);
    SplitAtFirst(first, ':', rest);
  }

  /** Joining a value with the fields of the rest puts the colons back. */
  lemma {:induction false} JoinedBack(value: string, rest: string)
    ensures Join(':', [value] + Split(rest, ':')) == value + ":" + rest
  {
    var tail := Split(rest, ':');
    assert [value] + tail == [value] + [tail[0]] + tail[1..];
    assert Join(':', [value] + tail) == value + [':'] + Join(':', tail);
    JoinSplit(rest, ':');
  }

  /**
   * An OutputTensor value is everything after the first colon: the colons
   * inside it are put back before the list is split on ';'.
   */
  lemma {:induction false} OutputTensorKeepsColons(p: CustomProps, first: string, rest: string)
    requires ':' !in first
    ensures var names := GSplit(Strip(first) + ":" + rest, ';');
      ApplyOption(p, "OutputTensor:" + first + ":" + rest) ==
        if "" in names then Err(InvalidTensorName) else Ok(p.(outputTensors := Some(names)))
  {
    var option := GSplit("OutputTensor:" + first + ":" + rest, ':');
    OutputTensorFields(first, rest);
    assert option[2..] == Split(rest, ':');
    StripWithoutSpaces("OutputTensor");
    EqualsIgnoreCaseIsEquivalence("OutputTensor", "OutputTensor", "OutputTensor");
    assert !EqualsIgnoreCase("OutputTensor", "Runtime");
    JoinedBack(Strip(first), rest);
  }


  /** One option only ever appends to the type lists. */
  lemma {:induction false} OptionKeepsTypes(p: CustomProps, opt: string)
    requires ApplyOption(p, opt).Ok?
    ensures var q := ApplyOption(p, opt).value;
      p.inputTypes <= q.inputTypes && p.outputTypes <= q.outputTypes
  {
    var option := GSplit(opt, ':');
    if |option| > 1 {
      var key := Strip(option[0]);
      var value := Strip(option[1]);
      var added := KnownTypes(GSplit(value, ';'));
      if !EqualsIgnoreCase(key, "Runtime") && !EqualsIgnoreCase(key, "OutputTensor") {
        assert p.outputTypes <= p.outputTypes + added;
        assert p.inputTypes <= p.inputTypes + added;
      }
    }
  }

  /** A parse that succeeds only ever appends to the two type lists. */
  lemma {:induction false} TypeListsOnlyGrow(p: CustomProps, opts: seq<string>)
    requires ApplyOptions(p, opts).Ok?
    ensures var q := ApplyOptions(p, opts).value;
      p.inputTypes <= q.inputTypes && p.outputTypes <= q.outputTypes
    decreases |opts|
  {
    if opts != [] {
      var q1 := ApplyOption(p, opts[0]).value;
      OptionKeepsTypes(p, opts[0]);
      TypeListsOnlyGrow(q1, opts[1..]);
    }
  }


  /** An option that fails stops the parse with that failure. */
  lemma {:induction false} FailingOptionStopsParse(p: CustomProps, opts: seq<string>, k: nat)
    requires k < |opts|
    requires forall q :: ApplyOption(q, opts[k]).Err?
    ensures ApplyOptions(p, opts).Err?
  {
    assert opts == opts[..k] + ([opts[k]] + opts[k + 1..]);
    ApplyOptionsAppend(p, opts[..k], [opts[k]] + opts[k + 1..]);
  }

  /** An OutputTensor list with an empty name fails the whole parse. */
  lemma {:induction false} EmptyTensorNameFails(opts: seq<string>, k: nat, first: string, rest: string)
    requires k < |opts| && ':' !in first
    requires opts[k] == "OutputTensor:" + first + ":" + rest
    requires "" in GSplit(Strip(first) + ":" + rest, ';')
    ensures ApplyOptions(Defaults, opts).Err?
  {
    forall q | true
      ensures ApplyOption(q, opts[k]).Err?
    {
      OutputTensorKeepsColons(q, first, rest);
    }
    FailingOptionStopsParse(Defaults, opts, k);
  }

  // ---------------------------------------------------------------------
  // Element-type override and resolution
  // ---------------------------------------------------------------------

  /** configure_instance: tensor i uses the user type list only where it reaches. */
  function TypeFor(types: seq<Encoding>, i: nat): Encoding {
    if i < |types| then types[i] else UnknownEncoding
  }

  /**
   * The element-type switch of handleTensor: the tensor type and the
   * encoding the user buffer is created with, or the error thrown.
   */
  function ResolveType(requested: Encoding, modelDefault: Encoding): (r: Result<(TensorType, Encoding), SnpeError>)
    ensures r.Ok? ==>
      (r.value.0 == Float32 && r.value.1 == FloatEncoding) || (r.value.0 == UInt8 && r.value.1 == Tf8Encoding)
    ensures requested == FloatEncoding ==> r == Ok((Float32, FloatEncoding))
    ensures requested == Tf8Encoding ==>
      r == (if modelDefault == FloatEncoding then Err(MissingQuantization) else Ok((UInt8, Tf8Encoding)))
    ensures requested == UnknownEncoding ==>
      (r.Ok? <==> modelDefault in {FloatEncoding, Tf8Encoding}) &&
      (r.Ok? ==> r.value.1 == modelDefault)
    ensures requested.OtherEncoding? ==> r == Err(UnsupportedType)
  {
    match requested
    case UnknownEncoding =>
      if modelDefault == FloatEncoding then Ok((Float32, FloatEncoding))
      else if modelDefault == Tf8Encoding then Ok((UInt8, Tf8Encoding))
      else Err(UnsupportedType)
    case FloatEncoding => Ok((Float32, FloatEncoding))
    case Tf8Encoding =>
      if modelDefault == FloatEncoding then Err(MissingQuantization) else Ok((UInt8, Tf8Encoding))
    case OtherEncoding(_) => Err(UnsupportedType)
  }

  /** A property string of one "key:value" option is parsed as that option alone. */
  lemma {:induction false} SingleOption(key: string, v: string)
    requires ',' !in key && ',' !in v && ':' !in key && ':' !in v
    ensures CustomPropsOf(Some(key + ":" + v)) == ApplyOption(Defaults, key + ":" + v)
  {
    var opt := key + ":" + v;
    assert opt[|key|] == ':';
    assert ',' !in opt by {
      assert forall c :: c in opt ==> c in key || c == ':' || c in v;
    }
    SplitWithoutDelimiter(opt, ',');
    assert GSplit(opt, ',') == [opt];
    match ApplyOption(Defaults, opt) {
      case Ok(q) =>
        assert [opt][1..] == [];
        assert ApplyOptions(q, []) == Ok(q);
      case Err(e) =>
    }
  }

  /** How the parser's key matching sees the two type keys. */
  lemma {:induction false} TypeKeys()
    ensures Strip("InputType") == "InputType" && Strip("OutputType") == "OutputType"
    ensures EqualsIgnoreCase("InputType", "InputType") && EqualsIgnoreCase("OutputType", "OutputType")
    ensures !EqualsIgnoreCase("InputType", "Runtime") && !EqualsIgnoreCase("InputType", "OutputTensor")
    ensures !EqualsIgnoreCase("InputType", "OutputType")
    ensures !EqualsIgnoreCase("OutputType", "Runtime") && !EqualsIgnoreCase("OutputType", "OutputTensor")
  {
    StripWithoutSpaces("InputType");
    StripWithoutSpaces("OutputType");
    EqualsIgnoreCaseIsEquivalence("InputType", "InputType", "InputType");
    EqualsIgnoreCaseIsEquivalence("OutputType", "OutputType", "OutputType");
  }

  /** One "key:v" option with a key free of colons and spaces has exactly the fields key and v. */
  lemma {:induction false} KeyValueFields(key: string, v: string)
    requires ':' !in key && ':' !in v
    ensures var option := GSplit(key + ":" + v, ':');
      |option| == 2 && option[0] == key && option[1] == v
  {
    SplitKeyValue(key, v);
  }

  /** "InputType:v" appends the recognised entries of v to the input list. */
  lemma {:induction false} InputTypeParsed(v: string)
    requires ',' !in v && ':' !in v
    ensures CustomPropsOf(Some("InputType:" + v)) ==
      Ok(Defaults.(inputTypes := KnownTypes(GSplit(Strip(v), ';'))))
  {
    var opt := "InputType:" + v;
    assert opt == "InputType" + ":" + v;
    SingleOption("InputType", v);
    KeyValueFields("InputType", v);
    TypeKeys();
    var listed := KnownTypes(GSplit(Strip(v), ';'));
    assert Defaults.inputTypes + listed == listed;
  }

  /** "OutputType:v" appends the recognised entries of v to the output list. */
  lemma {:induction false} OutputTypeParsed(v: string)
    requires ',' !in v && ':' !in v
    ensures CustomPropsOf(Some("OutputType:" + v)) ==
      Ok(Defaults.(outputTypes := KnownTypes(GSplit(Strip(v), ';'))))
  {
    var opt := "OutputType:" + v;
    assert opt == "OutputType" + ":" + v;
    SingleOption("OutputType", v);
    KeyValueFields("OutputType", v);
    TypeKeys();
    var listed := KnownTypes(GSplit(Strip(v), ';'));
    assert Defaults.outputTypes + listed == listed;
  }

  /**
   * Tensor i of a list is resolved with its entry while i is below the
   * list's length, and with an UNKNOWN request, that is, with the model's
   * own default, beyond it.
   */
  lemma {:induction false} TypeForResolves(types: seq<Encoding>, i: nat, modelDefault: Encoding)
    ensures i < |types| ==> ResolveType(TypeFor(types, i), modelDefault) == ResolveType(types[i], modelDefault)
    ensures i >= |types| ==> ResolveType(TypeFor(types, i), modelDefault) == ResolveType(UnknownEncoding, modelDefault)
  {
  }

  /**
   * configure_instance under "InputType:v": input tensor i is resolved
   * with the i-th recognised entry of v, or with the model's default once
   * the entries run out.
   */
  lemma {:induction false} InputTypeOverride(v: string, i: nat, modelDefault: Encoding)
    requires ',' !in v && ':' !in v
    ensures CustomPropsOf(Some("InputType:" + v)).Ok?
    ensures var types := CustomPropsOf(Some("InputType:" + v)).value.inputTypes;
      var listed := KnownTypes(GSplit(Strip(v), ';'));
      types == listed &&
      (i < |listed| ==> ResolveType(TypeFor(types, i), modelDefault) == ResolveType(listed[i], modelDefault)) &&
      (i >= |listed| ==> ResolveType(TypeFor(types, i), modelDefault) == ResolveType(UnknownEncoding, modelDefault))
  {
    InputTypeParsed(v);
    TypeForResolves(KnownTypes(GSplit(Strip(v), ';')), i, modelDefault);
  }

  /** The same for "OutputType:v" and the output tensors. */
  lemma {:induction false} OutputTypeOverride(v: string, i: nat, modelDefault: Encoding)
    requires ',' !in v && ':' !in v
    ensures CustomPropsOf(Some("OutputType:" + v)).Ok?
    ensures var types := CustomPropsOf(Some("OutputType:" + v)).value.outputTypes;
      var listed := KnownTypes(GSplit(Strip(v), ';'));
      types == listed &&
      (i < |listed| ==> ResolveType(TypeFor(types, i), modelDefault) == ResolveType(listed[i], modelDefault)) &&
      (i >= |listed| ==> ResolveType(TypeFor(types, i), modelDefault) == ResolveType(UnknownEncoding, modelDefault))
  {
    OutputTypeParsed(v);
    TypeForResolves(KnownTypes(GSplit(Strip(v), ';')), i, modelDefault);
  }

  // ---------------------------------------------------------------------
  // Dimensions and strides
  // ---------------------------------------------------------------------

  /**
   * handleTensor's layout: the SDK shape is stored reversed in the tensor
   * dimensions, and strides are filled from the innermost axis outwards, so
   * each stride is the element size times the product of the later axes.
   */
  method DimsAndStrides(sdims: seq<nat>, elemSize: nat) returns (dims: seq<nat>, strides: seq<nat>)
    requires 1 <= |sdims| <= RANK_LIMIT
    ensures |dims| == RANK_LIMIT
    ensures forall j :: 0 <= j < |sdims| ==> dims[|sdims| - 1 - j] == sdims[j]
    ensures forall j :: |sdims| <= j < RANK_LIMIT ==> dims[j] == 0
    ensures |strides| == |sdims|
    ensures forall k :: 0 <= k < |sdims| ==> strides[k] == elemSize * Product(sdims[k + 1..])
    ensures strides[0] * sdims[0] == elemSize * Product(sdims)
  {
    dims := ReversedDims(sdims);
    strides := Strides(sdims, elemSize);
    var inner := Product(sdims[1..]);
    assert Product(sdims) == sdims[0] * inner;
    StrideTimesAxis(elemSize, inner, sdims[0]);
  }

  /** The SDK shape reversed into RANK_LIMIT tensor dimensions, the unused ones 0. */
  method ReversedDims(sdims: seq<nat>) returns (dims: seq<nat>)
    requires |sdims| <= RANK_LIMIT
    ensures |dims| == RANK_LIMIT
    ensures forall j :: 0 <= j < |sdims| ==> dims[|sdims| - 1 - j] == sdims[j]
    ensures forall j :: |sdims| <= j < RANK_LIMIT ==> dims[j] == 0
  {
    var rank := |sdims|;
    var d := new nat[RANK_LIMIT](_ => 0);
    for j := 0 to rank
      invariant forall m :: 0 <= m < j ==> d[rank - 1 - m] == sdims[m]
      invariant forall m :: rank <= m < RANK_LIMIT ==> d[m] == 0
    {
      d[rank - 1 - j] := sdims[j];
    }
    dims := d[..];
  }

  /** Strides from the innermost axis outwards: the element size times the product of the later axes. */
  method Strides(sdims: seq<nat>, elemSize: nat) returns (strides: seq<nat>)
    requires 1 <= |sdims|
    ensures |strides| == |sdims|
    ensures forall k :: 0 <= k < |sdims| ==> strides[k] == elemSize * Product(sdims[k + 1..])
  {
    var rank := |sdims|;
    var st := new nat[rank];
    st[rank - 1] := elemSize;
    assert sdims[rank..] == [];
    var j := rank - 1;
    while j > 0
      invariant 0 <= j <= rank - 1
      invariant forall k :: j <= k < rank ==> st[k] == elemSize * Product(sdims[k + 1..])
    {
      assert sdims[j..] == [sdims[j]] + sdims[j + 1..];
      StrideTimesAxis(elemSize, Product(sdims[j + 1..]), sdims[j]);
      st[j - 1] := st[j] * sdims[j];
      j := j - 1;
    }
    strides := st[..];
  }

  lemma {:induction false} StrideTimesAxis(e: nat, inner: nat, axis: nat)
    ensures (e * inner) * axis == e * (axis * inner)
  {
  }

}
