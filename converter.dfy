/**
 * The tensor_converter element (GstTensorConverter) as an object: its
 * properties, the state negotiation leaves behind, and the per-stream state
 * the chain function updates. The methods carry out the element's own steps
 * field by field; each is proved to agree with the functions of ConvCaps
 * and ConvChain, whose properties are proved there.
 */
module Converter {
  import opened Base
  import opened Clock
  import opened TensorTypes
  import opened GStrings
  import opened ConvBuffers
  import opened ConvCopy
  import opened ConvFifo
  import opened ConvMedia
  import opened ConvRegistry
  import opened ConvChain
  import opened ConvCaps

  /** DEFAULT_SET_TIMESTAMP. */
  const DEFAULT_SET_TIMESTAMP: bool := true

  /** DEFAULT_FRAMES_PER_TENSOR. */
  const DEFAULT_FRAMES_PER_TENSOR: nat := 1

  /** The framework a custom-script mode runs its script with. */
  const SCRIPT_FRAMEWORK: string := "python3"

  /** The mode property splits `name:option`; with no ':' in either part it splits into the two. */
  lemma {:induction false} ModeStringSplit(name: string, option: string)
    requires ':' !in name && ':' !in option
    ensures GSplit(name + [':'] + option, ':') == [name, option]
  {
    SplitAtFirst(name, ':', option);
    SplitWithoutDelimiter(option, ':');
    assert |name + [':'] + option| > 0;
  }

  class TensorConverter {
    // Properties.
    var framesPerTensor: nat
    var setTimestamp: bool
    var mode: ConverterMode
    var modeOption: Option<string>
    var customFunc: Option<CustomCallback>
    var extFw: Option<string>
    /** The SIZE_LIMIT tensor slots of the input-dim and input-type properties. */
    var propSlots: seq<TensorInfo>
    /** How many of those slots the properties set (num_tensors). */
    var propCount: nat

    // What negotiation leaves behind.
    var inMediaType: MediaType
    var frameSize: nat
    var removePadding: bool
    var external: Option<ExternalConverter>
    var configured: bool
    var config: TensorsConfig

    // Per-stream state.
    var doNotAppendHeader: bool
    var haveSegment: bool
    var needSegment: bool
    var segment: Segment
    var oldTimestamp: nat
    /** One aggregation FIFO per client id. */
    var adapters: map<int, Fifo>
    /** The events sent on the source pad so far. */
    var out: seq<Event>

    /**
     * Every slot is a full tensor, at most SIZE_LIMIT are in use, and a
     * segment is only pending when one was received.
     */
    predicate Valid()
      reads this`propSlots, this`propCount, this`needSegment, this`haveSegment
    {
      PropsValid() && (needSegment ==> haveSegment)
    }

    /** Every property slot is a full tensor and at most SIZE_LIMIT are in use. */
    predicate PropsValid()
      reads this`propSlots, this`propCount
    {
      |propSlots| == SIZE_LIMIT && propCount <= SIZE_LIMIT &&
      (forall i :: 0 <= i < |propSlots| ==> |propSlots[i].dims| == RANK_LIMIT)
    }

    /** The tensors the input-dim and input-type properties fix. */
    function PropInfo(): (ti: TensorsInfo)
      requires PropsValid()
      reads this`propSlots, this`propCount
      ensures |ti.infos| == propCount && ti.format == Static
    {
      TensorsInfo(propSlots[..propCount], Static)
    }

    /** The fields chain reads and never writes. */
    function Conf(): Settings
      requires PropsValid()
      reads this`inMediaType, this`configured, this`frameSize, this`removePadding, this`framesPerTensor,
        this`setTimestamp, this`mode, this`customFunc, this`external, this`propSlots, this`propCount
    {
      Settings(inMediaType, configured, frameSize, removePadding, framesPerTensor, setTimestamp,
               mode, customFunc, external, PropInfo())
    }

    /** The fields chain writes, with the events sent so far. */
    function State(): Stream
      reads this`config, this`doNotAppendHeader, this`haveSegment, this`needSegment, this`segment,
        this`oldTimestamp, this`adapters, this`out
    {
      Stream(config, doNotAppendHeader, haveSegment, needSegment, segment, oldTimestamp, adapters, out)
    }

    /** The fields parse_caps reads; the text size is dimension 0 of property slot 0. */
    function CapsIn(): CapsInput
      requires PropsValid()
      reads this`mode, this`extFw, this`framesPerTensor, this`frameSize, this`removePadding, this`external,
        this`propSlots, this`propCount
    {
      CapsInput(mode, extFw, PropInfo(), propSlots[0].dims[0], framesPerTensor, frameSize, removePadding, external)
    }

    /**
     * gst_tensor_converter_init: default properties, nothing negotiated,
     * empty initialized tensors, no FIFOs, and the stream state reset.
     */
    constructor()
      ensures Valid()
      ensures framesPerTensor == DEFAULT_FRAMES_PER_TENSOR && setTimestamp == DEFAULT_SET_TIMESTAMP
      ensures mode == ModeNone && modeOption.None? && customFunc.None? && extFw.None?
      ensures propCount == 0 && forall i :: 0 <= i < SIZE_LIMIT ==> propSlots[i] == InitInfo()
      ensures inMediaType == MediaInvalid && frameSize == 0 && !removePadding && external.None?
      ensures !configured && config == InitConfig() && !doNotAppendHeader
      ensures !haveSegment && !needSegment && segment == InitSegment(FormatTime) && oldTimestamp == NONE
      ensures adapters == map[] && out == []
    {
      framesPerTensor := DEFAULT_FRAMES_PER_TENSOR;
      setTimestamp := DEFAULT_SET_TIMESTAMP;
      mode := ModeNone;
      modeOption := None;
      customFunc := None;
      extFw := None;
      propSlots := seq(SIZE_LIMIT, _ => InitInfo());
      propCount := 0;
      inMediaType := MediaInvalid;
      frameSize := 0;
      removePadding := false;
      external := None;
      configured := false;
      config := InitConfig();
      doNotAppendHeader := false;
      haveSegment := false;
      needSegment := false;
      segment := InitSegment(FormatTime);
      oldTimestamp := NONE;
      adapters := map[];
      out := [];
      new;
      Reset();
    }

    // -------------------------------------------------------------------
    // Properties
    // -------------------------------------------------------------------

    /**
     * PROP_INPUT_DIMENSION: the dimension-string parser fills the first
     * |dims| slots (its result is an input here); every slot after them gets
     * zero dimensions, and the tensor count becomes |dims|. Types are kept.
     */
    method SetInputDimension(dims: seq<seq<nat>>)
      requires Valid()
      requires |dims| <= SIZE_LIMIT && forall i :: 0 <= i < |dims| ==> |dims[i]| == RANK_LIMIT
      modifies this`propSlots, this`propCount
      ensures Valid()
      ensures propCount == |dims|
      ensures forall i :: 0 <= i < |dims| ==> propSlots[i] == old(propSlots[i]).(dims := dims[i])
      ensures forall i :: |dims| <= i < SIZE_LIMIT ==> propSlots[i] == old(propSlots[i]).(dims := ZeroDims())
    {
      var num := |dims|;
      for i := 0 to num
        invariant |propSlots| == SIZE_LIMIT
        invariant forall j :: 0 <= j < i ==> propSlots[j] == old(propSlots[j]).(dims := dims[j])
        invariant forall j :: i <= j < SIZE_LIMIT ==> propSlots[j] == old(propSlots[j])
      {
        propSlots := propSlots[i := propSlots[i].(dims := dims[i])];
      }
      for i := num to SIZE_LIMIT
        invariant |propSlots| == SIZE_LIMIT
        invariant forall j :: 0 <= j < num ==> propSlots[j] == old(propSlots[j]).(dims := dims[j])
        invariant forall j :: num <= j < i ==> propSlots[j] == old(propSlots[j]).(dims := ZeroDims())
        invariant forall j :: i <= j < SIZE_LIMIT ==> propSlots[j] == old(propSlots[j])
      {
        propSlots := propSlots[i := propSlots[i].(dims := ZeroDims())];
      }
      propCount := num;
    }

    /**
     * PROP_INPUT_TYPE: the type-string parser fills the first |types| slots
     * (its result is an input here); every slot after them gets type END,
     * and the tensor count becomes |types|. Dimensions are kept.
     */
    method SetInputType(types: seq<TensorType>)
      requires Valid()
      requires |types| <= SIZE_LIMIT
      modifies this`propSlots, this`propCount
      ensures Valid()
      ensures propCount == |types|
      ensures forall i :: 0 <= i < |types| ==> propSlots[i] == old(propSlots[i]).(ttype := types[i])
      ensures forall i :: |types| <= i < SIZE_LIMIT ==> propSlots[i] == old(propSlots[i]).(ttype := End)
    {
      var num := |types|;
      for i := 0 to num
        invariant |propSlots| == SIZE_LIMIT
        invariant forall j :: 0 <= j < i ==> propSlots[j] == old(propSlots[j]).(ttype := types[j])
        invariant forall j :: i <= j < SIZE_LIMIT ==> propSlots[j] == old(propSlots[j])
      {
        propSlots := propSlots[i := propSlots[i].(ttype := types[i])];
      }
      for i := num to SIZE_LIMIT
        invariant |propSlots| == SIZE_LIMIT
        invariant forall j :: 0 <= j < num ==> propSlots[j] == old(propSlots[j]).(ttype := types[j])
        invariant forall j :: num <= j < i ==> propSlots[j] == old(propSlots[j]).(ttype := End)
        invariant forall j :: i <= j < SIZE_LIMIT ==> propSlots[j] == old(propSlots[j])
      {
        propSlots := propSlots[i := propSlots[i].(ttype := End)];
      }
      propCount := num;
    }

    /** PROP_FRAMES_PER_TENSOR. */
    method SetFramesPerTensor(n: nat)
      modifies this`framesPerTensor
      ensures framesPerTensor == n
    {
      framesPerTensor := n;
    }

    /** PROP_SET_TIMESTAMP. */
    method SetSetTimestamp(b: bool)
      modifies this`setTimestamp
      ensures setTimestamp == b
    {
      setTimestamp := b;
    }

    /**
     * PROP_MODE: `mode:option`, split at every ':'. The custom callback is
     * cleared first; with fewer than two parts nothing else changes.
     * Otherwise the second part becomes the mode option; "custom-code"
     * (in any case) selects custom-code mode and the callback registered
     * under the option, even when none is; "custom-script" selects
     * custom-script mode with python3 as its framework; any other mode name
     * leaves mode and framework as they were.
     */
    method SetMode(param: string, callbacks: map<string, CustomCallback>)
      modifies this`mode, this`modeOption, this`customFunc, this`extFw
      ensures var parts := GSplit(param, ':');
        var code := |parts| >= 2 && EqualsIgnoreCase(parts[0], "custom-code");
        var script := |parts| >= 2 && !code && EqualsIgnoreCase(parts[0], "custom-script");
        modeOption == (if |parts| >= 2 then Some(parts[1]) else old(modeOption)) &&
        customFunc == (if code then Lookup(callbacks, parts[1]) else None) &&
        mode == (if code then CustomCode else if script then CustomScript else old(mode)) &&
        extFw == (if script then Some(SCRIPT_FRAMEWORK) else old(extFw))
    {
      var strv := GSplit(param, ':');
      customFunc := None;
      if |strv| < 2 {
        return;
      }
      modeOption := Some(strv[1]);
      if EqualsIgnoreCase(strv[0], "custom-code") {
        mode := CustomCode;
        var ptr := Lookup(callbacks, strv[1]);
        if ptr.None? {
          return;
        }
        customFunc := ptr;
      } else if EqualsIgnoreCase(strv[0], "custom-script") {
        mode := CustomScript;
        extFw := Some(SCRIPT_FRAMEWORK);
      }
    }

    // -------------------------------------------------------------------
    // Events
    // -------------------------------------------------------------------

    /**
     * gst_tensor_converter_reset: every FIFO is emptied (the table keeps its
     * clients), no segment is known or pending, the segment is a fresh time
     * segment and there is no previous timestamp.
     */
    method Reset()
      modifies this`adapters, this`haveSegment, this`needSegment, this`segment, this`oldTimestamp
      ensures adapters.Keys == old(adapters).Keys
      ensures forall k :: k in adapters ==> adapters[k] == EmptyFifo()
      ensures !haveSegment && !needSegment && segment == InitSegment(FormatTime) && oldTimestamp == NONE
    {
      adapters := map k | k in adapters :: EmptyFifo();
      haveSegment := false;
      needSegment := false;
      segment := InitSegment(FormatTime);
      oldTimestamp := NONE;
    }

    /**
     * The SEGMENT event: the segment is stored and known. A time segment is
     * sent on at once and the result is whether downstream took it (an
     * input); a byte segment is left for chain to convert; a segment in any
     * other format is refused.
     */
    method SinkSegment(seg: Segment, pushed: bool) returns (ok: bool)
      requires Valid()
      modifies this`segment, this`haveSegment, this`needSegment, this`out
      ensures Valid()
      ensures segment == seg && haveSegment
      ensures seg.format == FormatTime ==> ok == pushed && out == old(out) + [SegmentEvent(seg)] && needSegment == old(needSegment)
      ensures seg.format == FormatBytes ==> ok && out == old(out) && needSegment
      ensures seg.format == FormatOther ==> !ok && out == old(out) && needSegment == old(needSegment)
    {
      segment := seg;
      haveSegment := true;
      if seg.format == FormatTime {
        out := out + [SegmentEvent(seg)];
        return pushed;
      }
      if seg.format == FormatBytes {
        needSegment := true;
        return true;
      }
      ok := false;
    }

    /** The FLUSH_STOP event resets the stream state. */
    method FlushStop()
      requires Valid()
      modifies this`adapters, this`haveSegment, this`needSegment, this`segment, this`oldTimestamp
      ensures Valid()
      ensures adapters.Keys == old(adapters).Keys && forall k :: k in adapters ==> adapters[k] == EmptyFifo()
      ensures !haveSegment && !needSegment && segment == InitSegment(FormatTime) && oldTimestamp == NONE
    {
      Reset();
    }

    // -------------------------------------------------------------------
    // Negotiation
    // -------------------------------------------------------------------

    /**
     * gst_tensor_converter_parse_caps: the per-media parser (custom and
     * external converters looked up in the registry), the frame count
     * written into the frame dimension, validation, and the comparison
     * with the property tensors; the media type, config and configured
     * flag are written only when all of that succeeds.
     */
    method ParseCaps(caps: Caps, env: CapsEnv) returns (ok: bool)
      requires Valid()
      modifies this`inMediaType, this`config, this`configured, this`frameSize, this`removePadding, this`external
      ensures Valid()
      ensures var n := ParseCapsSpec(old(CapsIn()), caps, env);
        ok == n.commit.Some? &&
        frameSize == n.frameSize && removePadding == n.removePadding && external == n.external &&
        (ok ==> inMediaType == n.commit.value.0 && config == n.commit.value.1 && configured) &&
        (!ok ==> inMediaType == old(inMediaType) && config == old(config) && configured == old(configured))
    {
      var p, m, ext := ParseByMedia(caps, env);
      frameSize := p.frameSize;
      removePadding := p.removePadding;
      external := ext;
      if p.config.None? {
        return false;
      }
      var c := p.config.value;
      var d := FramesDim(m);
      if d.Some? {
        c := SetDim(c, d.value, framesPerTensor);
      }
      if !ConfigValid(c) {
        return false;
      }
      var prop := PropInfo();
      if TensorsInfoValid(prop) && !InfoEqual(prop, c.info) {
        return false;
      }
      inMediaType := m;
      config := c;
      configured := true;
      ok := true;
    }

    /**
     * The parser parse_caps picks by media type (any media in a custom
     * mode); the custom parser gets the external converter the registry
     * lists first for the stream's media type.
     */
    method ParseByMedia(caps: Caps, env: CapsEnv) returns (p: Parsed, m: MediaType, ext: Option<ExternalConverter>)
      requires Valid()
      ensures (p, m, ext) == ParseMedia(CapsIn(), caps, env)
    {
      m := DispatchType(mode, caps);
      ext := external;
      match m {
        case Video =>
          p := ParseVideo(caps.video, frameSize, removePadding);
        case Audio =>
          p := ParseAudio(caps.audio, frameSize, removePadding);
        case Text =>
          p := ParseText(propSlots[0].dims[0], caps.fields, frameSize, removePadding);
        case Octet =>
          var peer := if env.peer.Some? then Some(env.peer.value.config) else None;
          p := ParseOctet(PropInfo(), peer, framesPerTensor, caps.fields, frameSize, removePadding);
        case Tensor =>
          p := ParseTensor(PropInfo(), framesPerTensor, caps.fields, frameSize, removePadding);
        case _ =>
          var found := FindExternalConverter(env.listing, env.table, CustomMediaType(mode, extFw, caps.mimetype));
          var cp := ParseCustom(mode, external, PeerOf(env), caps.fields, found, env.outConfig, env.openResult);
          p := Parsed(cp.config, frameSize, removePadding);
          ext := cp.external;
          m := MediaAny;
      }
    }

    // -------------------------------------------------------------------
    // Chain
    // -------------------------------------------------------------------

    /**
     * The per-media switch of chain: the buffer to go on with, the frames
     * in it, the frame size, and the config and header flag to keep.
     */
    method PrepareBuffer(buf: Buffer, converted: Option<(Buffer, TensorsConfig)>) returns (r: Result<Prepared, Flow>)
      requires Valid()
      ensures r == Prepare(Conf(), State(), buf, converted)
    {
      match inMediaType {
        case Video =>
          r := PrepareVideoBuffer(buf);
        case Audio =>
          if frameSize == 0 {
            return Err(FlowAbort);
          }
          return Ok(Prepared(config, doNotAppendHeader, buf, Size(buf) / frameSize, frameSize));
        case Text =>
          r := PrepareTextBuffer(buf);
        case Octet =>
          if config.info.format == Flexible {
            return Ok(Prepared(SetDim(config, 0, Size(buf)), doNotAppendHeader, buf, 1, Size(buf)));
          }
          if frameSize == 0 || Size(buf) % frameSize != 0 {
            return Err(FlowAbort);
          }
          return Ok(Prepared(config, doNotAppendHeader, buf, Size(buf) / frameSize, frameSize));
        case Tensor =>
          r := StripHeaders(buf);
        case MediaAny =>
          r := PrepareAny(Conf(), State(), converted);
        case MediaInvalid =>
          return Err(FlowError);
      }
    }

    /**
     * A video buffer holds exactly one frame; padded rows are copied out
     * without their padding into a new buffer.
     */
    method PrepareVideoBuffer(buf: Buffer) returns (r: Result<Prepared, Flow>)
      requires Valid()
      ensures r == PrepareVideo(Conf(), State(), buf)
    {
      var i0 := Info0(config);
      var esize := ElementSize(i0.ttype);
      var color, width, height := Dim(i0, 0), Dim(i0, 1), Dim(i0, 2);
      var fsize := esize * color * width * height;
      if frameSize == 0 || Size(buf) / frameSize != 1 {
        return Err(FlowAbort);
      }
      if !removePadding {
        return Ok(Prepared(config, doNotAppendHeader, buf, 1, fsize));
      }
      var size := esize * color * width;
      if size % 4 == 0 {
        return Err(FlowAbort);
      }
      var offset := size + 4 - size % 4;
      if !RowsFit(Size(buf), 0, size, offset, height) {
        return Err(FlowAbort);
      }
      var dst := RemovePadding(Payload(buf), size, offset, height);
      return Ok(Prepared(config, doNotAppendHeader, Raw(dst[..], buf), 1, fsize));
    }

    /** A text buffer is cut or zero-padded to the frame size. */
    method PrepareTextBuffer(buf: Buffer) returns (r: Result<Prepared, Flow>)
      requires Valid()
      ensures r == PrepareText(Conf(), State(), buf)
    {
      var inbuf := buf;
      if Size(buf) != frameSize {
        var dst := ResizeText(Payload(buf), frameSize);
        inbuf := Raw(dst[..], buf);
      }
      return Ok(Prepared(config, doNotAppendHeader, inbuf, 1, frameSize));
    }

    /**
     * Flexible tensors to static: memory by memory, the header gives the
     * tensor, its payload must be exactly that tensor's size, and the
     * payload goes on without the header. The headers' tensors then replace
     * the config when they differ from it, unless the properties fix the
     * tensors.
     */
    method StripHeaders(buf: Buffer) returns (r: Result<Prepared, Flow>)
      requires Valid()
      ensures r == PrepareTensor(Conf(), State(), buf)
    {
      var infos: seq<TensorInfo> := [];
      var mems: seq<Mem> := [];
      for n := 0 to |buf.mems|
        invariant |infos| == n && |mems| == n
        invariant forall j :: 0 <= j < n ==> buf.mems[j].header.Some? && |buf.mems[j].data| == TensorSize(buf.mems[j].header.value.info)
        invariant forall j :: 0 <= j < n ==> infos[j] == buf.mems[j].header.value.info && mems[j] == Mem(buf.mems[j].data, None)
      {
        var mem := buf.mems[n];
        if mem.header.None? || |mem.data| != TensorSize(mem.header.value.info) {
          assert !HeadersMatch(buf.mems);
          return Err(FlowError);
        }
        infos := infos + [mem.header.value.info];
        mems := mems + [Mem(mem.data, None)];
      }
      assert infos == HeaderInfos(buf.mems);
      assert mems == Stripped(buf.mems);
      var tmp := TensorsConfig(TensorsInfo(infos, Static), config.rateN, config.rateD);
      var inbuf := WithMems(mems, buf);
      if ConfigEqual(config, tmp) {
        return Ok(Prepared(config, doNotAppendHeader, inbuf, 1, frameSize));
      }
      if TensorsInfoValid(PropInfo()) {
        return Err(FlowError);
      }
      return Ok(Prepared(tmp, doNotAppendHeader, inbuf, 1, frameSize));
    }

    /** _chain_segment: a pending byte segment goes out once, converted to time. */
    method ChainSegment(fsize: nat)
      requires Valid()
      modifies this`segment, this`needSegment, this`out
      ensures Valid()
      ensures State() == SegmentStep(old(State()), fsize)
    {
      if needSegment {
        var start := segment.start;
        var seg := InitSegment(FormatTime);
        if HasFramerate(config) && start > 0 {
          start := ScaleInt(start * config.rateD, SECOND, fsize * config.rateN);
          seg := seg.(start := start, time := start);
        }
        segment := seg;
        needSegment := false;
        out := out + [SegmentEvent(seg)];
      }
    }

    /** _chain_timestamp: missing duration and pts are filled in, and the pts is remembered. */
    method ChainTimestamp(inbuf: Buffer, framesIn: nat, clock: Option<(nat, nat)>) returns (b: Buffer)
      requires Valid()
      modifies this`oldTimestamp
      ensures Valid()
      ensures (State(), b) == TimestampStep(Conf(), old(State()), inbuf, framesIn, clock)
    {
      b := inbuf;
      if setTimestamp {
        var haveFramerate := HasFramerate(config);
        if !IsValid(b.duration) && haveFramerate {
          b := b.(duration := ScaleInt(framesIn * config.rateD, SECOND, config.rateN));
        }
        if !IsValid(b.pts) {
          var pts := segment.start;
          if haveFramerate {
            if IsValid(oldTimestamp) {
              pts := (oldTimestamp + b.duration) % TIME_MODULUS;
            }
          } else if clock.Some? {
            var (base, now) := clock.value;
            pts := if base < now then now - base else 0;
          }
          b := b.(pts := pts);
        }
      }
      oldTimestamp := b.pts;
    }

    /**
     * _chain_octet: a buffer for several tensors is cut into one share per
     * tensor at the running offset; a buffer in several memories becomes
     * one memory.
     */
    method ChainOctet(buf: Buffer) returns (r: Result<Buffer, Flow>)
      requires Valid()
      ensures r == OctetSplit(Conf(), config, buf)
    {
      var multi := |config.info.infos| > 1;
      if !(multi || |buf.mems| > 1) {
        return Ok(buf);
      }
      if framesPerTensor != 1 {
        return Err(FlowAbort);
      }
      var data := Payload(buf);
      if multi {
        var sizes := TensorSizes(config.info.infos);
        if Sum(sizes) > |data| {
          return Err(FlowAbort);
        }
        var parts := SliceOctet(data, sizes);
        return Ok(WithMems(AsMems(parts), buf));
      }
      return Ok(Raw(data, buf));
    }

    /** _chain_flex_tensor: memory i gets a header for tensor i, tagged with the input media type. */
    method ChainFlexTensor(buf: Buffer) returns (r: Result<Buffer, Flow>)
      requires Valid()
      ensures r == FlexStep(Conf(), config, buf)
    {
      var infos := config.info.infos;
      if |infos| > |buf.mems| {
        return Err(FlowAbort);
      }
      var tag := FlexTag(inMediaType);
      var mems: seq<Mem> := [];
      for i := 0 to |infos|
        invariant |mems| == i
        invariant forall j :: 0 <= j < i ==> mems[j] == Mem(buf.mems[j].data, Some(MetaHeader(infos[j], tag)))
      {
        mems := mems + [Mem(buf.mems[i].data, Some(MetaHeader(infos[i], tag)))];
      }
      assert mems == WithHeaders(infos, tag, buf.mems);
      return Ok(WithMems(mems, buf));
    }

    /**
     * _chain_push as the k-th push of this call: the octet split, the
     * flexible headers when the source pad is flexible and the buffer has
     * none, then the push, whose answer downstream(k) is returned.
     */
    method PushBuffer(buf: Buffer, srcFlexible: bool, k: nat, downstream: nat -> Flow) returns (flow: Flow)
      requires Valid()
      modifies this`out
      ensures Valid()
      ensures (State(), flow) == PushOne(Conf(), old(State()), buf, srcFlexible, k, downstream)
    {
      ghost var c0, s0 := Conf(), State();
      var b := Ok(buf);
      if inMediaType == Octet {
        b := ChainOctet(buf);
      }
      if b.Ok? && !doNotAppendHeader && srcFlexible {
        b := ChainFlexTensor(b.value);
      }
      assert b == Shaped(c0, s0, buf, srcFlexible);
      var sent := if b.Err? then [] else [BufferEvent(b.value)];
      out := out + sent;
      flow := if b.Err? then b.error else downstream(k);
      assert Conf() == c0 && State() == s0.(out := s0.out + sent);
    }

    /**
     * _chain_chunk: the buffer goes into its client's FIFO; while the FIFO
     * holds frames-per-tensor frames and pushes succeed, that many bytes
     * are taken, stamped and pushed.
     */
    method ChainChunk(inbuf: Buffer, framesIn: nat, fsize: nat, env: ChainEnv) returns (flow: Flow)
      requires Valid()
      modifies this`adapters, this`out
      ensures Valid()
      ensures (State(), flow) == ChunkStep(Conf(), old(State()), inbuf, framesIn, fsize, env)
    {
      var ctx := ChunkContext(Conf(), inbuf, framesIn, fsize);
      var fifo := if ctx.key in adapters then adapters[ctx.key] else EmptyFifo();
      adapters := adapters[ctx.key := Push(fifo, Payload(inbuf), inbuf.pts, inbuf.dts)];
      if ctx.outSize == 0 {
        return FlowAbort;
      }
      flow := DrainFifo(ctx, env.srcFlexible, env.downstream);
    }

    /** The aggregation loop: take and push while the FIFO holds an output's worth and pushes succeed. */
    method DrainFifo(ctx: ChunkCtx, srcFlexible: bool, downstream: nat -> Flow) returns (flow: Flow)
      requires Valid() && ctx.key in adapters && ctx.outSize > 0
      modifies this`adapters, this`out
      ensures Valid()
      ensures var d := Drain(Conf(), old(State()), ctx, srcFlexible, 0, downstream);
        State() == d.0 && flow == d.1
    {
      ghost var conf := Conf();
      ghost var target := Drain(conf, State(), ctx, srcFlexible, 0, downstream);
      var k: nat := 0;
      flow := FlowOk;
      while |adapters[ctx.key].data| >= ctx.outSize
        invariant Valid() && ctx.key in adapters && Conf() == conf
        invariant Drain(conf, State(), ctx, srcFlexible, k, downstream).0 == target.0
        invariant Drain(conf, State(), ctx, srcFlexible, k, downstream).1 == target.1
        invariant flow == FlowOk
        decreases |adapters[ctx.key].data|
      {
        ghost var before := State();
        DrainUnfold(conf, before, ctx, srcFlexible, k, downstream);
        flow := TakeAndPush(ctx, srcFlexible, k, downstream);
        if flow != FlowOk {
          return;
        }
        k := k + 1;
      }
    }

    /** One round of the aggregation loop: take an output's worth from the FIFO, stamp it and push it. */
    method TakeAndPush(ctx: ChunkCtx, srcFlexible: bool, k: nat, downstream: nat -> Flow) returns (flow: Flow)
      requires Valid() && ctx.key in adapters && ctx.outSize <= |adapters[ctx.key].data|
      modifies this`adapters, this`out
      ensures Valid() && Conf() == old(Conf()) && ctx.key in adapters
      ensures |adapters[ctx.key].data| == |old(adapters[ctx.key].data)| - ctx.outSize
      ensures (State(), flow) == DrainStep(Conf(), old(State()), ctx, srcFlexible, k, downstream)
    {
      var f := adapters[ctx.key];
      var outbuf := TakeOut(f, config, ctx);
      adapters := adapters[ctx.key := Take(f, ctx.outSize)];
      flow := PushBuffer(outbuf, srcFlexible, k, downstream);
    }

    /**
     * gst_tensor_converter_chain: an empty buffer is an error and an
     * unnegotiated element stops; otherwise the per-media switch, the
     * segment, the timestamps, and one push or the aggregation.
     */
    method Chain(buf: Buffer, env: ChainEnv) returns (flow: Flow)
      requires Valid()
      modifies this`config, this`doNotAppendHeader, this`segment, this`needSegment, this`oldTimestamp,
               this`adapters, this`out
      ensures Valid() && Conf() == old(Conf())
      ensures (State(), flow) == ChainSpec(old(Conf()), old(State()), buf, env)
    {
      if Size(buf) == 0 {
        return FlowError;
      }
      if !configured {
        return FlowAbort;
      }
      var p := PrepareBuffer(buf, env.converted);
      if p.Err? {
        return p.error;
      }
      flow := ForwardBuffer(p.value, env);
    }

    /**
     * The rest of chain: keep the prepared config and header flag, send a
     * pending segment, fill in timestamps, then push or aggregate.
     */
    method ForwardBuffer(pr: Prepared, env: ChainEnv) returns (flow: Flow)
      requires Valid()
      modifies this`config, this`doNotAppendHeader, this`segment, this`needSegment, this`oldTimestamp,
               this`adapters, this`out
      ensures Valid() && Conf() == old(Conf())
      ensures (State(), flow) == Forward(old(Conf()), old(State()), pr, env)
    {
      var inbuf := StampBuffer(pr, env.clock);
      flow := Dispatch(inbuf, pr.framesIn, pr.frameSize, env);
    }

    /** Keep the prepared config and header flag, send a pending segment and fill in timestamps. */
    method StampBuffer(pr: Prepared, clock: Option<(nat, nat)>) returns (inbuf: Buffer)
      requires Valid()
      modifies this`config, this`doNotAppendHeader, this`segment, this`needSegment, this`oldTimestamp, this`out
      ensures Valid() && Conf() == old(Conf())
      ensures (State(), inbuf) == Stamped(old(Conf()), old(State()), pr, clock)
    {
      ghost var conf := Conf();
      ghost var s1 := old(State()).(config := pr.config, doNotAppendHeader := pr.doNotAppendHeader);
      config := pr.config;
      doNotAppendHeader := pr.doNotAppendHeader;
      assert State() == s1 && Conf() == conf;
      ChainSegment(pr.frameSize);
      ghost var s2 := State();
      assert s2 == SegmentStep(s1, pr.frameSize) && Conf() == conf;
      inbuf := ChainTimestamp(pr.inbuf, pr.framesIn, clock);
    }

    /** A buffer holding frames-per-tensor frames is pushed as it is; any other goes through its FIFO. */
    method Dispatch(inbuf: Buffer, framesIn: nat, fsize: nat, env: ChainEnv) returns (flow: Flow)
      requires Valid()
      modifies this`adapters, this`out
      ensures Valid() && Conf() == old(Conf())
      ensures (State(), flow) ==
        if framesIn == framesPerTensor then PushOne(Conf(), old(State()), inbuf, env.srcFlexible, 0, env.downstream)
        else ChunkStep(Conf(), old(State()), inbuf, framesIn, fsize, env)
    {
      if framesIn == framesPerTensor {
        flow := PushBuffer(inbuf, env.srcFlexible, 0, env.downstream);
      } else {
        flow := ChainChunk(inbuf, framesIn, fsize, env);
      }
    }
  }
}
