/**
 * What the chain function of tensor_converter promises, proved about the
 * functions of ConvChain: the byte layout of each per-media preparation,
 * the segment and timestamp rules, the aggregation loop's conservation of
 * bytes, and that an error leaves the element as it was.
 */
module ConvChainProps {
  import opened Base
  import opened Clock
  import opened TensorTypes
  import opened ConvBuffers
  import opened ConvCopy
  import opened ConvFifo
  import opened ConvChain
  import opened ConvRegistry

  // ---------------------------------------------------------------------
  // Per-media preparation
  // ---------------------------------------------------------------------

  /**
   * With the padding flag, video rows are copied without padding: the new
   * buffer is type * color * width * height bytes, the rows of the incoming
   * buffer packed together, each read at a stride of rowSize rounded up to
   * a multiple of four.
   */
  lemma {:induction false} VideoPaddingRemoved(conf: Settings, st: Stream, buf: Buffer)
    requires conf.mediaType == Video && conf.removePadding && PrepareVideo(conf, st, buf).Ok?
    ensures var i0 := Info0(st.config);
      var rowSize := ElementSize(i0.ttype) * Dim(i0, 0) * Dim(i0, 1);
      var p := PrepareVideo(conf, st, buf).value;
      rowSize % 4 != 0 && Stride(rowSize) % 4 == 0 && rowSize < Stride(rowSize) < rowSize + 4 &&
      Size(p.inbuf) == p.frameSize == rowSize * Dim(i0, 2) &&
      RowsFit(Size(buf), 0, rowSize, Stride(rowSize), Dim(i0, 2)) &&
      Payload(p.inbuf) == Unpadded(Payload(buf), 0, rowSize, Stride(rowSize), Dim(i0, 2))
  {
    var i0 := Info0(st.config);
    var esize := ElementSize(i0.ttype);
    var rowSize := esize * Dim(i0, 0) * Dim(i0, 1);
    assert esize * Dim(i0, 0) * Dim(i0, 1) * Dim(i0, 2) == rowSize * Dim(i0, 2);
  }

  /** Row r of an unpadded video buffer is the rowSize bytes at r times the stride in the incoming buffer. */
  lemma {:induction false} VideoRowCopied(conf: Settings, st: Stream, buf: Buffer, r: nat)
    requires conf.mediaType == Video && conf.removePadding && PrepareVideo(conf, st, buf).Ok?
    requires r < Dim(Info0(st.config), 2)
    ensures var i0 := Info0(st.config);
      var rowSize := ElementSize(i0.ttype) * Dim(i0, 0) * Dim(i0, 1);
      var p := PrepareVideo(conf, st, buf).value;
      var at, from := r * rowSize, r * Stride(rowSize);
      0 <= at && 0 <= from && from + rowSize <= Size(buf) && at + rowSize <= Size(p.inbuf) &&
      Payload(p.inbuf)[at .. at + rowSize] == Payload(buf)[from .. from + rowSize]
  {
    var i0 := Info0(st.config);
    var rowSize := ElementSize(i0.ttype) * Dim(i0, 0) * Dim(i0, 1);
    VideoPaddingRemoved(conf, st, buf);
    UnpaddedRow(Payload(buf), 0, rowSize, Stride(rowSize), Dim(i0, 2), r);
  }

  /**
   * A text buffer comes out exactly frame-size bytes long: the first
   * min(buffer size, frame size) bytes are the incoming ones, the rest zero.
   */
  lemma {:induction false} TextFitted(conf: Settings, st: Stream, buf: Buffer)
    ensures var p := PrepareText(conf, st, buf).value;
      Size(p.inbuf) == conf.frameSize && p.framesIn == 1 &&
      (forall k :: 0 <= k < conf.frameSize && k < Size(buf) ==> Payload(p.inbuf)[k] == Payload(buf)[k]) &&
      (forall k :: Size(buf) <= k < conf.frameSize ==> Payload(p.inbuf)[k] == 0)
  {
  }

  /**
   * A flexible octet buffer is one tensor as long as the buffer; a static
   * one is accepted only as a whole number of frames.
   */
  lemma {:induction false} OctetFrames(conf: Settings, st: Stream, buf: Buffer)
    ensures var p := PrepareOctet(conf, st, buf);
      (st.config.info.format == Flexible ==>
        (p.Ok? && p.value.frameSize == Size(buf) && p.value.framesIn == 1 &&
         (|st.config.info.infos| > 0 && |st.config.info.infos[0].dims| > 0 ==>
           p.value.config.info.infos[0].dims[0] == Size(buf)))) &&
      (st.config.info.format != Flexible ==>
        (p.Ok? <==> conf.frameSize > 0 && Size(buf) % conf.frameSize == 0) &&
        (p.Ok? ==> p.value.framesIn * conf.frameSize == Size(buf)))
  {
  }

  /**
   * Flexible tensors become static ones exactly when every memory is as
   * large as its header says and the headers agree with the config or the
   * properties leave the tensors open; the payload is unchanged, and the
   * config becomes the headers' one when they differ.
   */
  lemma {:induction false} TensorStripped(conf: Settings, st: Stream, buf: Buffer)
    ensures var p := PrepareTensor(conf, st, buf);
      (p.Ok? <==>
        HeadersMatch(buf.mems) &&
        (ConfigEqual(st.config, TensorsConfig(TensorsInfo(HeaderInfos(buf.mems), Static), st.config.rateN, st.config.rateD)) ||
         !TensorsInfoValid(conf.propInfo))) &&
      (p.Err? ==> p.error == FlowError) &&
      (p.Ok? ==>
        (Payload(p.value.inbuf) == Payload(buf) &&
         (forall i :: 0 <= i < |p.value.inbuf.mems| ==> p.value.inbuf.mems[i].header.None?) &&
         (p.value.config == st.config ||
          p.value.config == TensorsConfig(TensorsInfo(HeaderInfos(buf.mems), Static), st.config.rateN, st.config.rateD))))
  {
    if HeadersMatch(buf.mems) {
      assert Datas(Stripped(buf.mems)) == Datas(buf.mems);
    }
  }

  /**
   * Custom and external conversion: only a present callback (custom-code
   * mode) or converter with convert can succeed, and only with a result;
   * the header flag then follows the result's format.
   */
  lemma {:induction false} AnyDispatch(conf: Settings, st: Stream, converted: Option<(Buffer, TensorsConfig)>)
    ensures var p := PrepareAny(conf, st, converted);
      (p.Ok? <==>
        converted.Some? &&
        ((conf.mode == CustomCode && conf.customFunc.Some?) ||
         (conf.mode != CustomCode && conf.external.Some? && conf.external.value.hasConvert))) &&
      (p.Err? ==> p.error == FlowError) &&
      (p.Ok? ==>
        (p.value.inbuf == converted.value.0 && p.value.frameSize == Size(converted.value.0) &&
         p.value.doNotAppendHeader == (converted.value.1.info.format == Flexible)))
  {
  }

  // ---------------------------------------------------------------------
  // Pushing
  // ---------------------------------------------------------------------

  /**
   * An octet buffer for several tensors is cut into one memory per tensor,
   * in order: memory i is the bytes from the sum of the earlier tensor
   * sizes on, as many as tensor i has, and together they are the payload's
   * prefix of the total size.
   */
  lemma {:induction false} OctetShares(conf: Settings, c: TensorsConfig, buf: Buffer, i: nat)
    requires |c.info.infos| > 1 && OctetSplit(conf, c, buf).Ok?
    ensures var b := OctetSplit(conf, c, buf).value;
      var sizes := TensorSizes(c.info.infos);
      |b.mems| == |c.info.infos| &&
      Payload(b) == Payload(buf)[..TensorsSize(c.info)] &&
      (i < |sizes| ==>
        (Sum(sizes[..i]) + sizes[i] <= Size(buf) &&
         b.mems[i].data == Payload(buf)[Sum(sizes[..i]) .. Sum(sizes[..i]) + sizes[i]]))
  {
    var sizes := TensorSizes(c.info.infos);
    SharesConcat(Payload(buf), sizes);
    if i < |sizes| {
      SharesAt(Payload(buf), sizes, i);
    }
  }

  /**
   * On a flexible source pad every tensor's memory gets a header that
   * describes that tensor and names the input media type (tensor for
   * anything but video, audio, text and octet); the payloads stay.
   */
  lemma {:induction false} FlexHeaders(conf: Settings, c: TensorsConfig, buf: Buffer)
    ensures FlexStep(conf, c, buf).Ok? <==> |c.info.infos| <= |buf.mems|
    ensures FlexStep(conf, c, buf).Ok? ==>
      var b := FlexStep(conf, c, buf).value;
      |b.mems| == |c.info.infos| &&
      (forall i :: 0 <= i < |b.mems| ==>
        b.mems[i].data == buf.mems[i].data &&
        b.mems[i].header == Some(MetaHeader(c.info.infos[i], FlexTag(conf.mediaType))))
  {
  }

  /** The pushes of the aggregation loop that neither split octets nor add headers send the taken bytes as they are. */
  predicate PlainPush(conf: Settings, st: Stream, srcFlexible: bool) {
    conf.mediaType != Octet && (st.doNotAppendHeader || !srcFlexible)
  }

  /** The aggregation loop stops with less than a block left unless a push fails. */
  lemma {:induction false} DrainStops(conf: Settings, st: Stream, ctx: ChunkCtx, srcFlexible: bool, k: nat, downstream: nat -> Flow)
    requires ctx.key in st.adapters && ctx.outSize > 0
    ensures var r := Drain(conf, st, ctx, srcFlexible, k, downstream);
      r.1 == FlowOk ==> |r.0.adapters[ctx.key].data| < ctx.outSize
    decreases |st.adapters[ctx.key].data|
  {
    var f := st.adapters[ctx.key];
    if |f.data| >= ctx.outSize {
      var pushed := DrainStep(conf, st, ctx, srcFlexible, k, downstream);
      DrainUnfold(conf, st, ctx, srcFlexible, k, downstream);
      if pushed.1 == FlowOk {
        DrainStops(conf, pushed.0, ctx, srcFlexible, k + 1, downstream);
      }
    }
  }

  /** Every push of the aggregation loop but the last was answered OK. */
  lemma {:induction false} DrainAnsweredOk(conf: Settings, st: Stream, ctx: ChunkCtx, srcFlexible: bool, k: nat, downstream: nat -> Flow)
    requires ctx.key in st.adapters && ctx.outSize > 0
    ensures var r := Drain(conf, st, ctx, srcFlexible, k, downstream);
      forall j :: k <= j < k + |r.2| - 1 ==> downstream(j) == FlowOk
    decreases |st.adapters[ctx.key].data|
  {
    var f := st.adapters[ctx.key];
    if |f.data| >= ctx.outSize {
      var pushed := DrainStep(conf, st, ctx, srcFlexible, k, downstream);
      DrainUnfold(conf, st, ctx, srcFlexible, k, downstream);
      if pushed.1 == FlowOk {
        assert downstream(k) == FlowOk;
        var r := Drain(conf, st, ctx, srcFlexible, k, downstream);
        var rest := Drain(conf, pushed.0, ctx, srcFlexible, k + 1, downstream);
        DrainAnsweredOk(conf, pushed.0, ctx, srcFlexible, k + 1, downstream);
        assert |r.2| == 1 + |rest.2|;
        forall j | k <= j < k + |r.2| - 1
          ensures downstream(j) == FlowOk
        {
          if j > k {
            assert k + 1 <= j < (k + 1) + |rest.2| - 1;
          }
        }
      }
    }
  }

  /** Unless the aggregation loop stops the element, every block it takes goes out as one buffer. */
  lemma {:induction false} DrainCountsPushes(conf: Settings, st: Stream, ctx: ChunkCtx, srcFlexible: bool, k: nat, downstream: nat -> Flow)
    requires ctx.key in st.adapters && ctx.outSize > 0
    ensures var r := Drain(conf, st, ctx, srcFlexible, k, downstream);
      r.1 != FlowAbort ==> |r.0.out| == |st.out| + |r.2|
    decreases |st.adapters[ctx.key].data|
  {
    var f := st.adapters[ctx.key];
    if |f.data| >= ctx.outSize {
      var pushed := DrainStep(conf, st, ctx, srcFlexible, k, downstream);
      DrainUnfold(conf, st, ctx, srcFlexible, k, downstream);
      if pushed.1 == FlowOk {
        var rest := Drain(conf, pushed.0, ctx, srcFlexible, k + 1, downstream);
        DrainCountsPushes(conf, pushed.0, ctx, srcFlexible, k + 1, downstream);
        assert |pushed.0.out| == |st.out| + 1;
      }
    }
  }

  /** Two updates of one FIFO and the output leave the rest of the stream as it was. */
  lemma {:induction false} KeepsOthersTwice(st: Stream, mid: Stream, fin: Stream, key: int)
    requires key in mid.adapters && key in fin.adapters
    requires mid == st.(adapters := st.adapters[key := mid.adapters[key]], out := mid.out)
    requires fin == mid.(adapters := mid.adapters[key := fin.adapters[key]], out := fin.out)
    ensures fin == st.(adapters := st.adapters[key := fin.adapters[key]], out := fin.out)
  {
    assert mid.adapters[key := fin.adapters[key]] == st.adapters[key := fin.adapters[key]];
  }

  /** The aggregation loop changes nothing but the FIFO it drains and the events sent. */
  lemma {:induction false} DrainKeepsOthers(conf: Settings, st: Stream, ctx: ChunkCtx, srcFlexible: bool, k: nat, downstream: nat -> Flow)
    requires ctx.key in st.adapters && ctx.outSize > 0
    ensures var r := Drain(conf, st, ctx, srcFlexible, k, downstream);
      r.0 == st.(adapters := st.adapters[ctx.key := r.0.adapters[ctx.key]], out := r.0.out)
    decreases |st.adapters[ctx.key].data|
  {
    var f := st.adapters[ctx.key];
    if |f.data| >= ctx.outSize {
      var pushed := DrainStep(conf, st, ctx, srcFlexible, k, downstream);
      DrainUnfold(conf, st, ctx, srcFlexible, k, downstream);
      if pushed.1 == FlowOk {
        var rest := Drain(conf, pushed.0, ctx, srcFlexible, k + 1, downstream);
        DrainKeepsOthers(conf, pushed.0, ctx, srcFlexible, k + 1, downstream);
        KeepsOthersTwice(st, pushed.0, rest.0, ctx.key);
      }
    }
  }

  /** Every block in the list is n bytes. */
  predicate Blocks(blocks: seq<seq<byte>>, n: nat) {
    forall i :: 0 <= i < |blocks| ==> |blocks[i]| == n
  }

  /**
   * The aggregation loop takes blocks of exactly the output size from the
   * FIFO, and the bytes taken followed by those left are the bytes it held.
   */
  /** A block taken in front of blocks whose bytes, with what is left, make up the rest of the FIFO. */
  lemma {:induction false} TakenInFront(data: seq<byte>, block: seq<byte>, left: seq<byte>, blocks: seq<seq<byte>>, kept: seq<byte>, n: nat)
    requires data == block + left && left == Concat(blocks) + kept
    requires |block| == n && Blocks(blocks, n)
    ensures data == Concat([block] + blocks) + kept && Blocks([block] + blocks, n)
  {
    ConcatPrepend(block, blocks);
    var c := Concat(blocks);
    assert (block + c) + kept == block + (c + kept);
    forall i | 0 <= i < |[block] + blocks|
      ensures |([block] + blocks)[i]| == n
    {
      if i > 0 {
        assert ([block] + blocks)[i] == blocks[i - 1];
      }
    }
  }

  lemma {:induction false} DrainConserves(conf: Settings, st: Stream, ctx: ChunkCtx, srcFlexible: bool, k: nat, downstream: nat -> Flow)
    requires ctx.key in st.adapters && ctx.outSize > 0
    ensures var r := Drain(conf, st, ctx, srcFlexible, k, downstream);
      st.adapters[ctx.key].data == Concat(r.2) + r.0.adapters[ctx.key].data && Blocks(r.2, ctx.outSize)
    decreases |st.adapters[ctx.key].data|
  {
    var f := st.adapters[ctx.key];
    if |f.data| >= ctx.outSize {
      var block := f.data[..ctx.outSize];
      var pushed := DrainStep(conf, st, ctx, srcFlexible, k, downstream);
      DrainUnfold(conf, st, ctx, srcFlexible, k, downstream);
      var left := pushed.0.adapters[ctx.key].data;
      assert f.data == block + left;
      if pushed.1 == FlowOk {
        var rest := Drain(conf, pushed.0, ctx, srcFlexible, k + 1, downstream);
        DrainConserves(conf, pushed.0, ctx, srcFlexible, k + 1, downstream);
        TakenInFront(f.data, block, left, rest.2, rest.0.adapters[ctx.key].data, ctx.outSize);
      } else {
        TakenInFront(f.data, block, left, [], left, ctx.outSize);
      }
    }
  }

  /** Event from + i is a buffer event that carries block i with duration d. */
  predicate CarriesAt(out: seq<Event>, from: nat, blocks: seq<seq<byte>>, d: nat, i: nat)
    requires from + i < |out| && i < |blocks|
  {
    out[from + i].BufferEvent? && Payload(out[from + i].buffer) == blocks[i] && out[from + i].buffer.duration == d
  }

  /** From index `from` on, `out` is one buffer event per block, carrying that block with duration d. */
  predicate Carries(out: seq<Event>, from: nat, blocks: seq<seq<byte>>, d: nat) {
    |out| == from + |blocks| && forall i: nat :: i < |blocks| ==> CarriesAt(out, from, blocks, d, i)
  }

  /** One more buffer event in front of a run of events that carry the given blocks. */
  lemma {:induction false} SentInFront(before: seq<Event>, b: Buffer, mid: seq<Event>, after: seq<Event>, blocks: seq<seq<byte>>, d: nat)
    requires mid == before + [BufferEvent(b)] && b.duration == d
    requires |after| >= |mid| && after[..|mid|] == mid && Carries(after, |mid|, blocks, d)
    ensures |after| >= |before| && after[..|before|] == before
    ensures Carries(after, |before|, [Payload(b)] + blocks, d)
  {
    var n := |before|;
    var m := n + 1;
    var all := [Payload(b)] + blocks;
    assert after[..n] == after[..m][..n];
    assert after[n] == after[..m][n];
    forall i: nat | i < |all|
      ensures CarriesAt(after, n, all, d, i)
    {
      if i > 0 {
        assert CarriesAt(after, m, blocks, d, i - 1);
        assert after[n + i] == after[m + (i - 1)];
      }
    }
  }


  /**
   * Without octet splitting or headers, each block taken is sent as one
   * buffer with the scaled duration, in order, after the events already sent.
   */
  /** A plain push of the aggregation loop sends the buffer taken from the FIFO, whatever downstream answers. */
  lemma {:induction false} PlainStepSends(conf: Settings, st: Stream, ctx: ChunkCtx, srcFlexible: bool, k: nat, downstream: nat -> Flow)
    requires ctx.key in st.adapters && ctx.outSize <= |st.adapters[ctx.key].data| && PlainPush(conf, st, srcFlexible)
    ensures var pushed := DrainStep(conf, st, ctx, srcFlexible, k, downstream);
      pushed.0.out == st.out + [BufferEvent(TakeOut(st.adapters[ctx.key], st.config, ctx))]
  {
  }

  lemma {:induction false} DrainSendsTaken(conf: Settings, st: Stream, ctx: ChunkCtx, srcFlexible: bool, k: nat, downstream: nat -> Flow)
    requires ctx.key in st.adapters && ctx.outSize > 0 && PlainPush(conf, st, srcFlexible)
    ensures var r := Drain(conf, st, ctx, srcFlexible, k, downstream);
      |r.0.out| >= |st.out| && r.0.out[..|st.out|] == st.out && Carries(r.0.out, |st.out|, r.2, ctx.duration)
    decreases |st.adapters[ctx.key].data|
  {
    var f := st.adapters[ctx.key];
    if |f.data| >= ctx.outSize {
      var outbuf := TakeOut(f, st.config, ctx);
      var pushed := DrainStep(conf, st, ctx, srcFlexible, k, downstream);
      PlainStepSends(conf, st, ctx, srcFlexible, k, downstream);
      DrainUnfold(conf, st, ctx, srcFlexible, k, downstream);
      if pushed.1 == FlowOk {
        var rest := Drain(conf, pushed.0, ctx, srcFlexible, k + 1, downstream);
        DrainSendsTaken(conf, pushed.0, ctx, srcFlexible, k + 1, downstream);
        SentInFront(st.out, outbuf, pushed.0.out, rest.0.out, rest.2, ctx.duration);
      } else {
        SentInFront(st.out, outbuf, pushed.0.out, pushed.0.out, [], ctx.duration);
      }
    }
  }


  /**
   * _chain_chunk: when an output holds at least one byte, the bytes the
   * FIFO held plus the incoming ones are exactly the blocks taken followed
   * by what stays in the FIFO; every block is frames-per-tensor frames, and
   * unless a push fails less than one block is left.
   */
  lemma {:induction false} ChunkConserves(conf: Settings, st: Stream, inbuf: Buffer, framesIn: nat, frameSize: nat, env: ChainEnv)
    requires conf.framesPerTensor * frameSize > 0
    ensures var ctx := ChunkContext(conf, inbuf, framesIn, frameSize);
      var st1 := st.(adapters := st.adapters[ctx.key := Push(FifoOf(st, ctx.key), Payload(inbuf), inbuf.pts, inbuf.dts)]);
      var r := Drain(conf, st1, ctx, env.srcFlexible, 0, env.downstream);
      ChunkStep(conf, st, inbuf, framesIn, frameSize, env) == (r.0, r.1) &&
      FifoOf(st, ctx.key).data + Payload(inbuf) == Concat(r.2) + r.0.adapters[ctx.key].data &&
      Blocks(r.2, conf.framesPerTensor * frameSize) &&
      (r.1 == FlowOk ==> |r.0.adapters[ctx.key].data| < conf.framesPerTensor * frameSize)
  {
    var ctx := ChunkContext(conf, inbuf, framesIn, frameSize);
    var st1 := st.(adapters := st.adapters[ctx.key := Push(FifoOf(st, ctx.key), Payload(inbuf), inbuf.pts, inbuf.dts)]);
    DrainConserves(conf, st1, ctx, env.srcFlexible, 0, env.downstream);
    DrainStops(conf, st1, ctx, env.srcFlexible, 0, env.downstream);
  }

  /** A valid incoming duration is scaled by frames out over frames in, rounded down. */
  lemma {:induction false} ChunkDurationScaled(conf: Settings, inbuf: Buffer, framesIn: nat, frameSize: nat)
    requires IsValid(inbuf.duration) && framesIn > 0
    requires inbuf.duration * conf.framesPerTensor / framesIn <= MAX_UINT64
    ensures var d := ChunkContext(conf, inbuf, framesIn, frameSize).duration;
      d * framesIn <= inbuf.duration * conf.framesPerTensor < (d + 1) * framesIn
  {
  }

  // ---------------------------------------------------------------------
  // Segment and timestamps
  // ---------------------------------------------------------------------

  /**
   * A pending byte segment goes out once as a time segment: at the time
   * the bytes before its start take at the frame rate (rounded down) when
   * there is a rate and a positive start, else at zero. A second step sends
   * nothing more.
   */
  lemma {:induction false} SegmentRebased(st: Stream, frameSize: nat)
    requires st.needSegment ==> st.haveSegment
    ensures var s := SegmentStep(st, frameSize);
      !s.needSegment && SegmentStep(s, frameSize) == s &&
      (!st.needSegment ==> s == st) &&
      (st.needSegment ==>
        (s.segment.format == FormatTime && s.segment.start == s.segment.time &&
         s.out == st.out + [SegmentEvent(s.segment)] &&
         s == st.(segment := s.segment, needSegment := false, out := s.out) &&
         (!(HasFramerate(st.config) && st.segment.start > 0) ==> s.segment.start == 0) &&
         (HasFramerate(st.config) && st.segment.start > 0 && frameSize > 0 &&
          st.segment.start * st.config.rateD * SECOND / (frameSize * st.config.rateN) <= MAX_UINT64 ==>
            s.segment.start * (frameSize * st.config.rateN) <= st.segment.start * st.config.rateD * SECOND
              < (s.segment.start + 1) * (frameSize * st.config.rateN))))
  {
  }

  /**
   * With set-timestamp and a frame rate, a missing duration is frames in
   * times the frame period, a missing pts is the previous pts plus the
   * duration, or the segment start when there is no previous pts; whatever
   * the settings, the pts the buffer leaves with is remembered and nothing
   * else in the element changes.
   */
  lemma {:induction false} TimestampRules(conf: Settings, st: Stream, inbuf: Buffer, framesIn: nat, clock: Option<(nat, nat)>)
    ensures var (s, b) := TimestampStep(conf, st, inbuf, framesIn, clock);
      s == st.(oldTimestamp := b.pts) &&
      b.mems == inbuf.mems && b.dts == inbuf.dts && b.clientId == inbuf.clientId &&
      (!conf.setTimestamp ==> b == inbuf) &&
      (IsValid(inbuf.pts) ==> b.pts == inbuf.pts) &&
      (IsValid(inbuf.duration) ==> b.duration == inbuf.duration) &&
      (conf.setTimestamp && HasFramerate(st.config) ==>
        ((!IsValid(inbuf.duration) ==>
           b.duration == ScaleInt(framesIn * st.config.rateD, SECOND, st.config.rateN)) &&
         (!IsValid(inbuf.pts) && IsValid(st.oldTimestamp) ==>
           b.pts == (st.oldTimestamp + b.duration) % TIME_MODULUS) &&
         (!IsValid(inbuf.pts) && !IsValid(st.oldTimestamp) ==> b.pts == st.segment.start))) &&
      (conf.setTimestamp && !HasFramerate(st.config) && !IsValid(inbuf.pts) ==>
        b.pts == ClockPts(st, clock))
  {
  }

  /** The synthesized duration is the frame period times frames in, rounded down. */
  lemma {:induction false} DurationFromRate(frames: nat, c: TensorsConfig)
    requires HasFramerate(c) && frames * c.rateD * SECOND / c.rateN <= MAX_UINT64
    ensures var d := ScaleInt(frames * c.rateD, SECOND, c.rateN);
      d * c.rateN <= frames * c.rateD * SECOND < (d + 1) * c.rateN
  {
  }

  // ---------------------------------------------------------------------
  // The whole chain function
  // ---------------------------------------------------------------------

  /**
   * An error of the aggregation step is downstream's answer to its last
   * push: with n buffers pushed by this call, to the push numbered n - 1.
   */
  lemma {:induction false} ChunkErrorFromDownstream(conf: Settings, st: Stream, inbuf: Buffer, framesIn: nat, frameSize: nat, env: ChainEnv)
    ensures var r := ChunkStep(conf, st, inbuf, framesIn, frameSize, env);
      r.1 == FlowError ==> |st.out| < |r.0.out| && r.1 == env.downstream(|r.0.out| - |st.out| - 1)
  {
    var ctx := ChunkContext(conf, inbuf, framesIn, frameSize);
    if ctx.outSize > 0 {
      var st1 := st.(adapters := st.adapters[ctx.key := Push(FifoOf(st, ctx.key), Payload(inbuf), inbuf.pts, inbuf.dts)]);
      var r := Drain(conf, st1, ctx, env.srcFlexible, 0, env.downstream);
      assert ChunkStep(conf, st, inbuf, framesIn, frameSize, env) == (r.0, r.1);
      DrainCountsPushes(conf, st1, ctx, env.srcFlexible, 0, env.downstream);
    }
  }

  /** A pending segment event and the timestamps add to the output and take nothing from it. */
  lemma {:induction false} StampedKeepsOutput(conf: Settings, st: Stream, p: Prepared, clock: Option<(nat, nat)>)
    requires st.needSegment ==> st.haveSegment
    ensures var s3 := Stamped(conf, st, p, clock).0;
      |st.out| <= |s3.out| && s3.out[..|st.out|] == st.out
  {
  }

  /** An error after the per-media switch is downstream's answer to one of the pushes of this call. */
  lemma {:induction false} ForwardErrorFromDownstream(conf: Settings, st: Stream, p: Prepared, env: ChainEnv)
    requires st.needSegment ==> st.haveSegment
    ensures var r := Forward(conf, st, p, env);
      r.1 == FlowError ==> exists j :: 0 <= j < |r.0.out| - |st.out| && env.downstream(j) == FlowError
  {
    var (s3, inbuf) := Stamped(conf, st, p, env.clock);
    StampedKeepsOutput(conf, st, p, env.clock);
    if p.framesIn == conf.framesPerTensor {
      var pushed := PushOne(conf, s3, inbuf, env.srcFlexible, 0, env.downstream);
      if pushed.1 == FlowError {
        assert env.downstream(0) == FlowError;
      }
    } else {
      var r := ChunkStep(conf, s3, inbuf, p.framesIn, p.frameSize, env);
      ChunkErrorFromDownstream(conf, s3, inbuf, p.framesIn, p.frameSize, env);
      if r.1 == FlowError {
        assert env.downstream(|r.0.out| - |s3.out| - 1) == FlowError;
      }
    }
  }

  /**
   * An error result of chain either comes before the first push, and then
   * leaves every field of the element as it was, or is downstream's answer
   * to one of the pushes this call made.
   */
  lemma {:induction false} ChainErrorChangesNothing(conf: Settings, st: Stream, buf: Buffer, env: ChainEnv)
    requires st.needSegment ==> st.haveSegment
    ensures var r := ChainSpec(conf, st, buf, env);
      r.1 == FlowError ==>
        r.0 == st || exists j :: 0 <= j < |r.0.out| - |st.out| && env.downstream(j) == FlowError
  {
    if Size(buf) > 0 && conf.configured {
      var p := Prepare(conf, st, buf, env.converted);
      if p.Ok? {
        ForwardErrorFromDownstream(conf, st, p.value, env);
      }
    }
  }

  /** Chain refuses an empty buffer, and stops when no caps were configured, before touching anything. */
  lemma {:induction false} ChainGuards(conf: Settings, st: Stream, buf: Buffer, env: ChainEnv)
    requires st.needSegment ==> st.haveSegment
    ensures Size(buf) == 0 ==> ChainSpec(conf, st, buf, env) == (st, FlowError)
    ensures Size(buf) > 0 && !conf.configured ==> ChainSpec(conf, st, buf, env) == (st, FlowAbort)
  {
  }
}
