/**
 * What tensor_converter's chain function does to one incoming buffer, as
 * functions of the element's state: the per-media preparation, the
 * one-time segment rebasing, the timestamp synthesis, and either a direct
 * push or the aggregation of frames through the client's FIFO. The class
 * TensorConverter (converter.dfy) carries these steps out field by field and is
 * proved to match them.
 */
module ConvChain {
  import opened Base
  import opened Clock
  import opened TensorTypes
  import opened ConvBuffers
  import opened ConvCopy
  import opened ConvFifo
  import opened ConvRegistry

  /** 2^64: clock-time sums wrap around at this modulus. */
  const TIME_MODULUS: nat := MAX_UINT64 + 1

  /** The element fields chain reads and never writes. */
  datatype Settings = Settings(
    mediaType: MediaType, configured: bool, frameSize: nat, removePadding: bool,
    framesPerTensor: nat, setTimestamp: bool, mode: ConverterMode,
    customFunc: Option<CustomCallback>, external: Option<ExternalConverter>, propInfo: TensorsInfo)

  /** The element fields chain writes, with `out` the events sent on the source pad so far. */
  datatype Stream = Stream(
    config: TensorsConfig, doNotAppendHeader: bool,
    haveSegment: bool, needSegment: bool, segment: Segment,
    oldTimestamp: nat, adapters: map<int, Fifo>, out: seq<Event>)

  /**
   * What one call of chain gets from outside the element: the result of the
   * custom callback or external converter (None when it returns NULL), the
   * element clock's base and current time if it has a clock, whether the
   * source pad's caps are flexible, and what downstream answers to each
   * push of this call (`downstream(k)` is gst_pad_push's result for the
   * k-th push).
   */
  datatype ChainEnv = ChainEnv(converted: Option<(Buffer, TensorsConfig)>, clock: Option<(nat, nat)>,
                               srcFlexible: bool, downstream: nat -> Flow)

  /** The outcome of the per-media switch: the config, the buffer to go on with, frames in it and the frame size. */
  datatype Prepared = Prepared(config: TensorsConfig, doNotAppendHeader: bool, inbuf: Buffer,
                               framesIn: nat, frameSize: nat)

  /** The first tensor of a config; a config without tensors reads the zeroed slot C keeps for it. */
  function Info0(c: TensorsConfig): TensorInfo {
    if |c.info.infos| > 0 then c.info.infos[0] else InitInfo()
  }

  /** Dimension k of a tensor, zero beyond its rank vector. */
  function Dim(t: TensorInfo, k: nat): nat {
    if k < |t.dims| then t.dims[k] else 0
  }

  /** A buffer with other memories and the pts, dts, duration and meta of `like`. */
  function WithMems(mems: seq<Mem>, like: Buffer): Buffer {
    Buffer(mems, like.pts, like.dts, like.duration, like.clientId)
  }

  /** Byte sequences as header-less memories. */
  function AsMems(parts: seq<seq<byte>>): (r: seq<Mem>)
    ensures Datas(r) == parts
  {
    seq(|parts|, i requires 0 <= i < |parts| => Mem(parts[i], None))
  }

  // ---------------------------------------------------------------------
  // The per-media switch
  // ---------------------------------------------------------------------

  /** The padded stride of a row: its size rounded up to a multiple of four. */
  function Stride(rowSize: nat): (s: nat)
    requires rowSize % 4 != 0
    ensures s % 4 == 0 && rowSize < s < rowSize + 4
  {
    rowSize + 4 - rowSize % 4
  }

  /**
   * Video: one frame per buffer is asserted against the element's frame
   * size; with the padding flag, the rows are copied without their padding.
   */
  function PrepareVideo(conf: Settings, st: Stream, buf: Buffer): Result<Prepared, Flow> {
    var i0 := Info0(st.config);
    var esize := ElementSize(i0.ttype);
    var frameSize := esize * Dim(i0, 0) * Dim(i0, 1) * Dim(i0, 2);
    if conf.frameSize == 0 || Size(buf) / conf.frameSize != 1 then Err(FlowAbort)
    else if !conf.removePadding then Ok(Prepared(st.config, st.doNotAppendHeader, buf, 1, frameSize))
    else
      var rowSize := esize * Dim(i0, 0) * Dim(i0, 1);
      if rowSize % 4 == 0 then Err(FlowAbort)
      else if !RowsFit(Size(buf), 0, rowSize, Stride(rowSize), Dim(i0, 2)) then Err(FlowAbort)
      else
        var rows := Unpadded(Payload(buf), 0, rowSize, Stride(rowSize), Dim(i0, 2));
        Ok(Prepared(st.config, st.doNotAppendHeader, Raw(rows, buf), 1, frameSize))
  }

  /** Audio: as many frames as whole frame sizes fit in the buffer. */
  function PrepareAudio(conf: Settings, st: Stream, buf: Buffer): Result<Prepared, Flow> {
    if conf.frameSize == 0 then Err(FlowAbort)
    else Ok(Prepared(st.config, st.doNotAppendHeader, buf, Size(buf) / conf.frameSize, conf.frameSize))
  }

  /** Text: a buffer of another size is cut or zero-padded to the frame size. */
  function PrepareText(conf: Settings, st: Stream, buf: Buffer): Result<Prepared, Flow> {
    var inbuf := if Size(buf) != conf.frameSize then Raw(Resized(Payload(buf), conf.frameSize), buf) else buf;
    Ok(Prepared(st.config, st.doNotAppendHeader, inbuf, 1, conf.frameSize))
  }

  /**
   * Octet: a flexible stream takes the buffer's size as its one tensor's
   * length and frame size; a static one must hold a whole number of frames.
   */
  function PrepareOctet(conf: Settings, st: Stream, buf: Buffer): Result<Prepared, Flow> {
    if st.config.info.format == Flexible then
      Ok(Prepared(SetDim(st.config, 0, Size(buf)), st.doNotAppendHeader, buf, 1, Size(buf)))
    else if conf.frameSize == 0 || Size(buf) % conf.frameSize != 0 then Err(FlowAbort)
    else Ok(Prepared(st.config, st.doNotAppendHeader, buf, Size(buf) / conf.frameSize, conf.frameSize))
  }

  /** Every memory carries a header whose tensor is exactly as large as the memory's payload. */
  predicate HeadersMatch(mems: seq<Mem>) {
    forall i :: 0 <= i < |mems| ==> mems[i].header.Some? && |mems[i].data| == TensorSize(mems[i].header.value.info)
  }

  /** The tensors the headers describe, in order. */
  function HeaderInfos(mems: seq<Mem>): (r: seq<TensorInfo>)
    requires forall i :: 0 <= i < |mems| ==> mems[i].header.Some?
    ensures |r| == |mems|
  {
    seq(|mems|, i requires 0 <= i < |mems| => mems[i].header.value.info)
  }

  /** The memories without their headers. */
  function Stripped(mems: seq<Mem>): (r: seq<Mem>)
    ensures |r| == |mems|
  {
    seq(|mems|, i requires 0 <= i < |mems| => Mem(mems[i].data, None))
  }

  /**
   * Flexible tensors to static: every memory must be as large as its header
   * says; the headers then give a static config at the current rate, which
   * replaces the element's config when they differ, unless the input-dim and
   * input-type properties fix the tensors, which is an error.
   */
  function PrepareTensor(conf: Settings, st: Stream, buf: Buffer): Result<Prepared, Flow> {
    if !HeadersMatch(buf.mems) then Err(FlowError)
    else
      var tmp := TensorsConfig(TensorsInfo(HeaderInfos(buf.mems), Static), st.config.rateN, st.config.rateD);
      var inbuf := WithMems(Stripped(buf.mems), buf);
      if ConfigEqual(st.config, tmp) then Ok(Prepared(st.config, st.doNotAppendHeader, inbuf, 1, conf.frameSize))
      else if TensorsInfoValid(conf.propInfo) then Err(FlowError)
      else Ok(Prepared(tmp, st.doNotAppendHeader, inbuf, 1, conf.frameSize))
  }

  /** The buffer and config a custom or external conversion returned, as one frame. */
  function Converted(st: Stream, r: (Buffer, TensorsConfig)): Prepared {
    var (nb, nc) := r;
    Prepared(if ConfigEqual(st.config, nc) then st.config else nc, nc.info.format == Flexible, nb, 1, Size(nb))
  }

  /**
   * Any other media: the custom callback in custom-code mode, else the
   * external converter's convert; everything else is an error.
   */
  function PrepareAny(conf: Settings, st: Stream, converted: Option<(Buffer, TensorsConfig)>): Result<Prepared, Flow> {
    if conf.mode == CustomCode then
      if conf.customFunc.None? || converted.None? then Err(FlowError)
      else Ok(Converted(st, converted.value))
    else if conf.external.Some? && conf.external.value.hasConvert then
      if converted.None? then Err(FlowError)
      else Ok(Converted(st, converted.value))
    else Err(FlowError)
  }

  /** The per-media switch of chain. */
  function Prepare(conf: Settings, st: Stream, buf: Buffer, converted: Option<(Buffer, TensorsConfig)>): Result<Prepared, Flow> {
    match conf.mediaType
    case Video => PrepareVideo(conf, st, buf)
    case Audio => PrepareAudio(conf, st, buf)
    case Text => PrepareText(conf, st, buf)
    case Octet => PrepareOctet(conf, st, buf)
    case Tensor => PrepareTensor(conf, st, buf)
    case MediaAny => PrepareAny(conf, st, converted)
    case MediaInvalid => Err(FlowError)
  }

  // ---------------------------------------------------------------------
  // Segment and timestamps
  // ---------------------------------------------------------------------

  predicate HasFramerate(c: TensorsConfig) {
    c.rateN > 0 && c.rateD > 0
  }

  /** A segment that is still in bytes goes out once, in time. */
  function SegmentStep(st: Stream, frameSize: nat): Stream
    requires st.needSegment ==> st.haveSegment
  {
    if !st.needSegment then st
    else
      var c := st.config;
      var start := st.segment.start;
      var seg :=
        if HasFramerate(c) && start > 0 then
          var t := ScaleInt(start * c.rateD, SECOND, frameSize * c.rateN);
          Segment(FormatTime, t, t)
        else InitSegment(FormatTime);
      st.(segment := seg, needSegment := false, out := st.out + [SegmentEvent(seg)])
  }

  /** The running time from the element clock (base, now), or the segment start without a clock. */
  function ClockPts(st: Stream, clock: Option<(nat, nat)>): nat {
    match clock
    case None => st.segment.start
    case Some((base, now)) => if base < now then now - base else 0
  }

  /**
   * Timestamp synthesis: with set-timestamp, a missing duration comes from
   * the frame rate and a missing pts from the previous pts plus the
   * duration (or the segment start, or the clock without a rate). The
   * buffer's pts is then remembered.
   */
  function TimestampStep(conf: Settings, st: Stream, inbuf: Buffer, framesIn: nat, clock: Option<(nat, nat)>): (r: (Stream, Buffer))
  {
    var b :=
      if !conf.setTimestamp then inbuf
      else
        var c := st.config;
        var duration :=
          if !IsValid(inbuf.duration) && HasFramerate(c) then ScaleInt(framesIn * c.rateD, SECOND, c.rateN)
          else inbuf.duration;
        var pts :=
          if IsValid(inbuf.pts) then inbuf.pts
          else if HasFramerate(c) then
            (if IsValid(st.oldTimestamp) then (st.oldTimestamp + duration) % TIME_MODULUS else st.segment.start)
          else ClockPts(st, clock);
        inbuf.(duration := duration, pts := pts);
    (st.(oldTimestamp := b.pts), b)
  }

  // ---------------------------------------------------------------------
  // Pushing
  // ---------------------------------------------------------------------

  /**
   * An octet buffer for several tensors, or in several memories, becomes
   * one memory per tensor (a share of the payload at the running offset) or
   * one memory for all; this needs one frame per tensor.
   */
  function OctetSplit(conf: Settings, c: TensorsConfig, buf: Buffer): Result<Buffer, Flow> {
    var multi := |c.info.infos| > 1;
    if !(multi || |buf.mems| > 1) then Ok(buf)
    else if conf.framesPerTensor != 1 then Err(FlowAbort)
    else if multi then
      var sizes := TensorSizes(c.info.infos);
      if Sum(sizes) > Size(buf) then Err(FlowAbort)
      else Ok(WithMems(AsMems(Shares(Payload(buf), sizes)), buf))
    else Ok(Raw(Payload(buf), buf))
  }

  /** Each tensor's memory gets a header describing it, tagged with the input media type. */
  function FlexStep(conf: Settings, c: TensorsConfig, buf: Buffer): Result<Buffer, Flow> {
    if |c.info.infos| > |buf.mems| then Err(FlowAbort)
    else Ok(WithMems(WithHeaders(c.info.infos, FlexTag(conf.mediaType), buf.mems), buf))
  }

  /**
   * What _chain_push does to a buffer before pushing it: the octet split
   * for octet streams, then the flexible headers when the source pad is
   * flexible and the buffer has none yet.
   */
  function Shaped(conf: Settings, st: Stream, buf: Buffer, srcFlexible: bool): (r: Result<Buffer, Flow>)
    ensures r.Err? ==> r.error == FlowAbort
  {
    var b1 := if conf.mediaType == Octet then OctetSplit(conf, st.config, buf) else Ok(buf);
    if b1.Err? || st.doNotAppendHeader || !srcFlexible then b1
    else FlexStep(conf, st.config, b1.value)
  }

  /**
   * _chain_push for the k-th push of this call: the buffer is shaped and
   * pushed, and downstream's answer to the k-th push is returned as it is.
   */
  function PushOne(conf: Settings, st: Stream, buf: Buffer, srcFlexible: bool, k: nat, downstream: nat -> Flow): (r: (Stream, Flow))
    ensures r.0 == st.(out := r.0.out)
    ensures |st.out| <= |r.0.out| <= |st.out| + 1 && r.0.out[..|st.out|] == st.out
    ensures |r.0.out| == |st.out| + 1 ==> r.1 == downstream(k)
    ensures |r.0.out| == |st.out| ==> r.1 == FlowAbort
  {
    var b := Shaped(conf, st, buf, srcFlexible);
    var sent := if b.Err? then [] else [BufferEvent(b.value)];
    (st.(out := st.out + sent), if b.Err? then b.error else downstream(k))
  }

  /** What the aggregation loop keeps fixed: the FIFO's key, the output size, frames in, frame size and the scaled duration. */
  datatype ChunkCtx = ChunkCtx(key: int, outSize: nat, framesIn: nat, frameSize: nat, duration: nat)

  /** A timestamp moved on by the time `dist` bytes take at the config's frame rate, when frames are split. */
  function Advance(t: nat, dist: nat, c: TensorsConfig, ctx: ChunkCtx): nat {
    if ctx.framesIn > 1 && HasFramerate(c) && IsValid(t) then
      (t + ScaleInt(dist * c.rateD, SECOND, c.rateN * ctx.frameSize)) % TIME_MODULUS
    else t
  }

  /** The buffer the aggregation loop takes from the FIFO, with its timestamps. */
  function TakeOut(f: Fifo, c: TensorsConfig, ctx: ChunkCtx): (b: Buffer)
    requires ctx.outSize <= |f.data|
    ensures Payload(b) == f.data[..ctx.outSize] && b.duration == ctx.duration
  {
    var (pts, ptsDist) := Prev(f.stamps, true);
    var (dts, dtsDist) := Prev(f.stamps, false);
    var stamped := Buffer([], Advance(pts, ptsDist, c, ctx), Advance(dts, dtsDist, c, ctx), ctx.duration, None);
    Raw(f.data[..ctx.outSize], stamped)
  }

  /**
   * One round of the aggregation loop: an output's worth of bytes leaves
   * the FIFO and is pushed as the k-th push; nothing else changes.
   */
  function DrainStep(conf: Settings, st: Stream, ctx: ChunkCtx, srcFlexible: bool, k: nat, downstream: nat -> Flow): (r: (Stream, Flow))
    requires ctx.key in st.adapters && ctx.outSize <= |st.adapters[ctx.key].data|
    ensures r.0 == st.(adapters := st.adapters[ctx.key := Take(st.adapters[ctx.key], ctx.outSize)], out := r.0.out)
    ensures |st.out| <= |r.0.out| <= |st.out| + 1 && r.0.out[..|st.out|] == st.out
    ensures |r.0.out| == |st.out| + 1 ==> r.1 == downstream(k)
    ensures |r.0.out| == |st.out| ==> r.1 == FlowAbort
  {
    var f := st.adapters[ctx.key];
    var st1 := st.(adapters := st.adapters[ctx.key := Take(f, ctx.outSize)]);
    PushOne(conf, st1, TakeOut(f, st.config, ctx), srcFlexible, k, downstream)
  }

  /**
   * The aggregation loop from the k-th push on: while the FIFO holds an
   * output's worth of bytes and pushes succeed, take that many bytes and
   * push them. Also yields the byte blocks taken, in order; a loop that
   * fails returns the last push's answer, or stops the element.
   */
  function Drain(conf: Settings, st: Stream, ctx: ChunkCtx, srcFlexible: bool, k: nat, downstream: nat -> Flow): (r: (Stream, Flow, seq<seq<byte>>))
    requires ctx.key in st.adapters && ctx.outSize > 0
    ensures ctx.key in r.0.adapters && r.0.config == st.config
    ensures r.1 != FlowOk ==> |r.2| > 0 && (r.1 == FlowAbort || r.1 == downstream(k + |r.2| - 1))
    decreases |st.adapters[ctx.key].data|
  {
    var f := st.adapters[ctx.key];
    if |f.data| < ctx.outSize then (st, FlowOk, [])
    else
      var pushed := DrainStep(conf, st, ctx, srcFlexible, k, downstream);
      if pushed.1 != FlowOk then (pushed.0, pushed.1, [f.data[..ctx.outSize]])
      else
        var rest := Drain(conf, pushed.0, ctx, srcFlexible, k + 1, downstream);
        (rest.0, rest.1, [f.data[..ctx.outSize]] + rest.2)
  }

  /** The aggregation loop is one round followed, if that push succeeded, by the rest. */
  lemma {:induction false} DrainUnfold(conf: Settings, st: Stream, ctx: ChunkCtx, srcFlexible: bool, k: nat, downstream: nat -> Flow)
    requires ctx.key in st.adapters && ctx.outSize > 0 && ctx.outSize <= |st.adapters[ctx.key].data|
    ensures var pushed := DrainStep(conf, st, ctx, srcFlexible, k, downstream);
      var block := st.adapters[ctx.key].data[..ctx.outSize];
      var d := Drain(conf, st, ctx, srcFlexible, k, downstream);
      if pushed.1 != FlowOk then d == (pushed.0, pushed.1, [block])
      else
        var rest := Drain(conf, pushed.0, ctx, srcFlexible, k + 1, downstream);
        d == (rest.0, rest.1, [block] + rest.2)
  {
  }

  /** The FIFO of a client, a new empty one if it has none yet. */
  function FifoOf(st: Stream, key: int): Fifo {
    if key in st.adapters then st.adapters[key] else EmptyFifo()
  }

  /** The FIFO key of a buffer: its query meta's client id, 0 without one. */
  function KeyOf(b: Buffer): int {
    if b.clientId.Some? then b.clientId.value else 0
  }

  /** The context of the aggregation loop for a prepared buffer. */
  function ChunkContext(conf: Settings, inbuf: Buffer, framesIn: nat, frameSize: nat): ChunkCtx {
    var duration :=
      if IsValid(inbuf.duration) then ScaleInt(inbuf.duration, conf.framesPerTensor, framesIn) else inbuf.duration;
    ChunkCtx(KeyOf(inbuf), conf.framesPerTensor * frameSize, framesIn, frameSize, duration)
  }

  /**
   * _chain_chunk: the buffer goes into its client's FIFO, which is then
   * drained; an output size of zero bytes stops the element (taking no
   * bytes gives no buffer to stamp).
   */
  function ChunkStep(conf: Settings, st: Stream, inbuf: Buffer, framesIn: nat, frameSize: nat, env: ChainEnv): (r: (Stream, Flow))
  {
    var ctx := ChunkContext(conf, inbuf, framesIn, frameSize);
    var f := Push(FifoOf(st, ctx.key), Payload(inbuf), inbuf.pts, inbuf.dts);
    var st1 := st.(adapters := st.adapters[ctx.key := f]);
    if ctx.outSize == 0 then (st1, FlowAbort)
    else
      var (st2, flow, _) := Drain(conf, st1, ctx, env.srcFlexible, 0, env.downstream);
      (st2, flow)
  }

  /**
   * Chain right after the per-media switch: the prepared config and header
   * flag are kept, a pending segment goes out, and the timestamps are
   * filled in.
   */
  function Stamped(conf: Settings, st: Stream, p: Prepared, clock: Option<(nat, nat)>): (r: (Stream, Buffer))
    requires st.needSegment ==> st.haveSegment
  {
    var s1 := st.(config := p.config, doNotAppendHeader := p.doNotAppendHeader);
    var s2 := SegmentStep(s1, p.frameSize);
    TimestampStep(conf, s2, p.inbuf, p.framesIn, clock)
  }

  /**
   * Chain after the per-media switch: the stamped buffer is pushed as it is
   * when it holds frames-per-tensor frames, else aggregated.
   */
  function Forward(conf: Settings, st: Stream, p: Prepared, env: ChainEnv): (r: (Stream, Flow))
    requires st.needSegment ==> st.haveSegment
  {
    var (s3, inbuf) := Stamped(conf, st, p, env.clock);
    if p.framesIn == conf.framesPerTensor then PushOne(conf, s3, inbuf, env.srcFlexible, 0, env.downstream)
    else ChunkStep(conf, s3, inbuf, p.framesIn, p.frameSize, env)
  }

  /** gst_tensor_converter_chain on one buffer. */
  function ChainSpec(conf: Settings, st: Stream, buf: Buffer, env: ChainEnv): (r: (Stream, Flow))
    requires st.needSegment ==> st.haveSegment
  {
    if Size(buf) == 0 then (st, FlowError)
    else if !conf.configured then (st, FlowAbort)
    else
      var p := Prepare(conf, st, buf, env.converted);
      if p.Err? then (st, p.error) else Forward(conf, st, p.value, env)
  }
}
