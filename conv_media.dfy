/**
 * The per-media parsers of tensor_converter: each derives a tensors config
 * from the negotiated caps of one media type, and each may also leave a new
 * frame size (and, for video, a new padding flag) in the element whether or
 * not it succeeds. What GStreamer's own caps parsers read from the caps
 * (video and audio info, the format and framerate fields, the peer's
 * tensors config) is an input here.
 */
module ConvMedia {
  import opened Base
  import opened TensorTypes
  import opened GStrings

  /** The raw video formats the converter distinguishes; OtherVideo is any other. */
  datatype VideoFormat =
    | Gray8 | Gray16Be | Gray16Le | Rgb | Bgr
    | Rgbx | Bgrx | Xrgb | Xbgr | Rgba | Bgra | Argb | Abgr
    | Rgbp | Bgrp | I420 | OtherVideo

  /**
   * What gst_video_info_from_caps reads from fixed video caps; size is
   * GST_VIDEO_INFO_SIZE, the byte size of one frame as GStreamer lays it
   * out (rows padded to its stride).
   */
  datatype VideoInfo = VideoInfo(format: VideoFormat, width: nat, height: nat, fpsN: int, fpsD: int, size: nat)

  /** The raw audio sample formats the converter distinguishes; OtherAudio is any other. */
  datatype AudioFormat = S8 | U8 | S16 | U16 | S32 | U32 | F32 | F64 | OtherAudio

  /** What gst_audio_info_from_caps reads: format, channels, rate and bytes per frame. */
  datatype AudioInfo = AudioInfo(format: AudioFormat, channels: nat, rate: int, bpf: nat)

  /** The fields of the first caps structure the text, octet and tensor parsers read. */
  datatype CapsFields = CapsFields(format: Option<string>, framerate: Option<(int, int)>)

  /**
   * The outcome of a parser: the derived config, or None when the parser
   * returns FALSE; and the element's frame size and padding flag as the
   * parser leaves them.
   */
  datatype Parsed = Parsed(config: Option<TensorsConfig>, frameSize: nat, removePadding: bool)

  /** A rank-limit dimension vector starting with a, b, c, d. */
  function Dims4(a: nat, b: nat, c: nat, d: nat): (r: seq<nat>)
    ensures |r| == RANK_LIMIT && r[0] == a && r[1] == b && r[2] == c && r[3] == d
    ensures forall i :: 4 <= i < RANK_LIMIT ==> r[i] == 0
  {
    [a, b, c, d] + seq(RANK_LIMIT - 4, _ => 0)
  }

  /** The frame rate of the caps fields, 0/1 when there is none. */
  function FieldsRate(f: CapsFields): (r: (int, int))
    ensures f.framerate.None? ==> r == (0, 1)
  {
    if f.framerate.Some? then f.framerate.value else (0, 1)
  }

  /**
   * gst_tensor_converter_video_stride: the formats whose rows GStreamer pads
   * to a multiple of four bytes, at a width that needs the padding.
   */
  predicate VideoStride(format: VideoFormat, width: nat) {
    (format == Gray8 || format == Rgb || format == Bgr || format == I420 ||
     format == Rgbp || format == Bgrp) && width % 4 != 0
  }

  predicate Planar(format: VideoFormat) {
    format == Rgbp || format == Bgrp
  }

  /** The formats parse_video has a tensor layout for. */
  predicate KnownVideo(format: VideoFormat) {
    format != I420 && format != OtherVideo
  }

  /**
   * The single tensor parse_video sets up for a format: colour-major
   * [channels, width, height, 1] for packed formats, [width, height, 3]
   * for the planar ones, and type End with zero sizes for anything else.
   */
  function VideoTensor(format: VideoFormat, width: nat, height: nat): (t: TensorInfo)
    ensures |t.dims| == RANK_LIMIT && t.dims[3] == 1
    ensures forall i :: 4 <= i < RANK_LIMIT ==> t.dims[i] == 0
    ensures t.ttype == End <==> !KnownVideo(format)
  {
    match format
    case Gray8 => TensorInfo(UInt8, Dims4(1, width, height, 1))
    case Gray16Be | Gray16Le => TensorInfo(UInt16, Dims4(1, width, height, 1))
    case Rgb | Bgr => TensorInfo(UInt8, Dims4(3, width, height, 1))
    case Rgbx | Bgrx | Xrgb | Xbgr | Rgba | Bgra | Argb | Abgr => TensorInfo(UInt8, Dims4(4, width, height, 1))
    case Rgbp | Bgrp => TensorInfo(UInt8, Dims4(width, height, 3, 1))
    case I420 | OtherVideo => TensorInfo(End, Dims4(0, 0, 0, 1))
  }

  /**
   * gst_tensor_converter_parse_video. The padding flag is set to whether the
   * new caps need row padding removed; planar formats that would need it
   * are refused before the frame size is taken.
   */
  function ParseVideo(vi: Option<VideoInfo>, frameSize: nat, removePadding: bool): (p: Parsed)
  {
    if vi.None? then Parsed(None, frameSize, removePadding)
    else
      var v := vi.value;
      var stride := VideoStride(v.format, v.width);
      if stride && Planar(v.format) then Parsed(None, frameSize, true)
      else
        var t := VideoTensor(v.format, v.width, v.height);
        var config := TensorsConfig(TensorsInfo([t], Static), v.fpsN, v.fpsD);
        Parsed(if t.ttype != End then Some(config) else None, v.size, stride)
  }

  /**
   * parse_video as written: it only ever sets the padding flag and never
   * clears it, so a flag raised by earlier caps survives caps that need no
   * padding removal.
   */
  function ParseVideoAsWritten(vi: Option<VideoInfo>, frameSize: nat, removePadding: bool): (p: Parsed)
    ensures removePadding ==> p.removePadding
  {
    var q := ParseVideo(vi, frameSize, removePadding);
    q.(removePadding := q.removePadding || removePadding)
  }

  /** Bytes of one unpadded row of a video tensor: element size times channels times width. */
  function RowBytes(t: TensorInfo): nat
    requires |t.dims| >= 2
  {
    ElementSize(t.ttype) * t.dims[0] * t.dims[1]
  }

  /** Bytes per pixel of the packed formats, as GStreamer's raw video layouts define them. */
  function PixelBytes(format: VideoFormat): nat {
    match format
    case Gray8 => 1
    case Gray16Be | Gray16Le => 2
    case Rgb | Bgr => 3
    case Rgbx | Bgrx | Xrgb | Xbgr | Rgba | Bgra | Argb | Abgr => 4
    case Rgbp | Bgrp | I420 | OtherVideo => 0
  }

  /**
   * Parsing succeeds exactly for the known formats that need no padding
   * removal from a planar layout; the result is one static tensor with a
   * frame in dimension 3, the caps' frame rate, and a frame size taken from
   * the video info.
   */
  lemma {:induction false} ParseVideoOutcome(v: VideoInfo, frameSize: nat, removePadding: bool)
    ensures var p := ParseVideo(Some(v), frameSize, removePadding);
      (p.config.Some? <==> KnownVideo(v.format) && !(Planar(v.format) && v.width % 4 != 0)) &&
      (p.config.Some? ==>
        p.frameSize == v.size && p.config.value.rateN == v.fpsN && p.config.value.rateD == v.fpsD &&
        p.config.value.info.format == Static && |p.config.value.info.infos| == 1 &&
        p.config.value.info.infos[0].dims[3] == 1 &&
        (forall i :: 4 <= i < RANK_LIMIT ==> p.config.value.info.infos[0].dims[i] == 0))
  {
  }

  /**
   * A packed frame's tensor holds exactly width * height pixels of the
   * format's pixel size: the unpadded frame.
   */
  lemma {:induction false} VideoTensorHoldsOneFrame(format: VideoFormat, width: nat, height: nat)
    requires KnownVideo(format) && !Planar(format) && width > 0 && height > 0
    ensures TensorSize(VideoTensor(format, width, height)) == PixelBytes(format) * width * height
  {
    var t := VideoTensor(format, width, height);
    var c, es := t.dims[0], ElementSize(t.ttype);
    assert t.dims == Dims4(c, width, height, 1) && c > 0;
    assert PixelBytes(format) == es * c;
    Dims4Count(c, width, height);
    Regroup(es, c, width, height);
  }

  lemma {:induction false} Regroup(a: nat, b: nat, c: nat, d: nat)
    ensures a * (b * (c * d)) == (a * b) * c * d
  {
  }


  /** The element count of [a, b, c, 1] with positive sizes. */
  lemma {:induction false} Dims4Count(a: nat, b: nat, c: nat)
    requires a > 0 && b > 0 && c > 0
    ensures ElementCount(Dims4(a, b, c, 1)) == a * (b * c)
  {
    var d := Dims4(a, b, c, 1);
    assert d[4] == 0;
    assert ElementCount(d[4..]) == 1;
    assert ElementCount(d[3..]) == 1 by { assert d[3..][1..] == d[4..]; }
    assert ElementCount(d[2..]) == c by { assert d[2..][1..] == d[3..]; }
    assert ElementCount(d[1..]) == b * c by { assert d[1..][1..] == d[2..]; }
  }

  /** A known video format at a positive size gives a valid tensor, for any positive frame count. */
  lemma {:induction false} VideoTensorValid(format: VideoFormat, width: nat, height: nat, frames: nat)
    requires KnownVideo(format) && width > 0 && height > 0 && frames > 0
    ensures var t := VideoTensor(format, width, height);
      TensorInfoValid(t.(dims := t.dims[3 := frames]))
  {
    var t := VideoTensor(format, width, height);
    var d := t.dims[3 := frames];
    assert forall i :: 0 <= i < 4 ==> d[i] > 0;
  }

  /** Three times a width that is not a multiple of four is not one either. */
  lemma {:induction false} ThreeTimesUnaligned(w: nat)
    requires w % 4 != 0
    ensures (3 * w) % 4 != 0
  {
    var q, r := w / 4, w % 4;
    assert 3 * w == 12 * q + 3 * r;
    if r == 1 {
      UnalignedBy(3 * q, 3);
    } else if r == 2 {
      UnalignedBy(3 * q + 1, 2);
    } else {
      UnalignedBy(3 * q + 2, 1);
    }
  }

  lemma {:induction false} UnalignedBy(k: nat, c: nat)
    requires 0 < c < 4
    ensures (4 * k + c) % 4 == c
  {
  }


  /**
   * With the flag set from the new caps alone, a successful parse raises it
   * only when a row of the tensor is not a multiple of four bytes, which is
   * what the padding removal in chain asserts.
   */
  lemma {:induction false} PaddingFlagMeansUnalignedRows(v: VideoInfo, frameSize: nat, removePadding: bool)
    ensures var p := ParseVideo(Some(v), frameSize, removePadding);
      p.config.Some? && p.removePadding ==> RowBytes(p.config.value.info.infos[0]) % 4 != 0
  {
    var p := ParseVideo(Some(v), frameSize, removePadding);
    if p.config.Some? && p.removePadding {
      var t := p.config.value.info.infos[0];
      assert t == VideoTensor(v.format, v.width, v.height);
      if v.format == Gray8 {
        assert RowBytes(t) == v.width;
      } else {
        assert v.format == Rgb || v.format == Bgr;
        assert RowBytes(t) == 3 * v.width;
        ThreeTimesUnaligned(v.width);
      }
    }
  }

  /**
   * As written, caps of width 14 followed by caps of width 16 (both RGB)
   * leave the padding flag raised over rows of 48 bytes, a multiple of four:
   * the next video buffer fails chain's alignment assertion.
   */
  lemma {:induction false} StickyPaddingFlagBreaksAlignment()
    ensures var first := ParseVideoAsWritten(Some(VideoInfo(Rgb, 14, 2, 30, 1, 96)), 0, false);
      var second := ParseVideoAsWritten(Some(VideoInfo(Rgb, 16, 2, 30, 1, 96)), first.frameSize, first.removePadding);
      first.removePadding && second.config.Some? && second.removePadding &&
      RowBytes(second.config.value.info.infos[0]) % 4 == 0
  {
    var second := ParseVideoAsWritten(Some(VideoInfo(Rgb, 16, 2, 30, 1, 96)), 96, true);
    assert RowBytes(second.config.value.info.infos[0]) == 48;
  }

  /** Corrected, the same renegotiation clears the flag. */
  lemma {:induction false} RenegotiationClearsPaddingFlag()
    ensures !ParseVideo(Some(VideoInfo(Rgb, 16, 2, 30, 1, 96)), 96, true).removePadding
  {
  }

  /** The tensor type of an audio sample format; End for any other format. */
  function AudioType(f: AudioFormat): TensorType {
    match f
    case S8 => Int8
    case U8 => UInt8
    case S16 => Int16
    case U16 => UInt16
    case S32 => Int32
    case U32 => UInt32
    case F32 => Float32
    case F64 => Float64
    case OtherAudio => End
  }

  /** Bytes of one sample of a format, as GStreamer's audio formats define them. */
  function SampleBytes(f: AudioFormat): nat {
    match f
    case S8 | U8 => 1
    case S16 | U16 => 2
    case S32 | U32 | F32 => 4
    case F64 => 8
    case OtherAudio => 0
  }

  /** gst_tensor_converter_parse_audio: [channels, 1] of the sample type at the sample rate. */
  function ParseAudio(ai: Option<AudioInfo>, frameSize: nat, removePadding: bool): (p: Parsed)
    ensures p.removePadding == removePadding
  {
    if ai.None? then Parsed(None, frameSize, removePadding)
    else
      var a := ai.value;
      var t := TensorInfo(AudioType(a.format), Dims2(a.channels, 1));
      var config := TensorsConfig(TensorsInfo([t], Static), a.rate, 1);
      Parsed(if t.ttype != End then Some(config) else None, a.bpf, removePadding)
  }

  /**
   * Audio parsing succeeds exactly for the eight sample formats, and then
   * one frame of the tensor (all channels of one sample) has the size of
   * a sample times the channels, with the frame size set to the caps' bytes
   * per frame.
   */
  lemma {:induction false} ParseAudioOutcome(a: AudioInfo, frameSize: nat, removePadding: bool)
    ensures var p := ParseAudio(Some(a), frameSize, removePadding);
      (p.config.Some? <==> a.format != OtherAudio) &&
      (p.config.Some? ==>
        p.frameSize == a.bpf && p.config.value.rateN == a.rate && p.config.value.rateD == 1 &&
        |p.config.value.info.infos| == 1 &&
        ElementSize(p.config.value.info.infos[0].ttype) == SampleBytes(a.format) &&
        (a.channels > 0 ==> TensorSize(p.config.value.info.infos[0]) == a.channels * SampleBytes(a.format)))
  {
    var p := ParseAudio(Some(a), frameSize, removePadding);
    if p.config.Some? && a.channels > 0 {
      var d := Dims2(a.channels, 1);
      assert d[2] == 0;
      assert ElementCount(d[2..]) == 1;
      assert ElementCount(d[1..]) == 1 by { assert d[1..][1..] == d[2..]; }
    }
  }

  /**
   * gst_tensor_converter_parse_text: a fixed text size from the input-dim
   * property is required; a format field other than utf8 is refused, and
   * without a format field the type stays End and parsing fails at the end.
   */
  function ParseText(textSize: nat, fields: CapsFields, frameSize: nat, removePadding: bool): (p: Parsed)
    ensures p.removePadding == removePadding
  {
    if textSize == 0 then Parsed(None, frameSize, removePadding)
    else if fields.format.Some? && !EqualsIgnoreCase(fields.format.value, "utf8") then Parsed(None, frameSize, removePadding)
    else
      var ttype := if fields.format.Some? then UInt8 else End;
      var t := TensorInfo(ttype, Dims2(textSize, 1));
      var rate := FieldsRate(fields);
      var config := TensorsConfig(TensorsInfo([t], Static), rate.0, rate.1);
      Parsed(if ttype != End then Some(config) else None, TensorSize(t), removePadding)
  }

  /**
   * Text parsing succeeds exactly with a positive text size and a utf8
   * format field; a frame is then exactly text-size bytes.
   */
  lemma {:induction false} ParseTextOutcome(textSize: nat, fields: CapsFields, frameSize: nat, removePadding: bool)
    ensures var p := ParseText(textSize, fields, frameSize, removePadding);
      (p.config.Some? <==> textSize > 0 && fields.format.Some? && EqualsIgnoreCase(fields.format.value, "utf8")) &&
      (p.config.Some? ==>
        (p.frameSize == textSize && |p.config.value.info.infos| == 1 &&
         p.config.value.info.infos[0].ttype == UInt8 && p.config.value.info.infos[0].dims[0] == textSize))
  {
    var p := ParseText(textSize, fields, frameSize, removePadding);
    if p.config.Some? {
      var d := Dims2(textSize, 1);
      assert d[2] == 0;
      assert ElementCount(d[2..]) == 1;
      assert ElementCount(d[1..]) == 1 by { assert d[1..][1..] == d[2..]; }
    }
  }

  /** The flexible config an octet stream falls back to: one UINT8 [1] tensor. */
  function FlexibleOctet(rate: (int, int)): TensorsConfig {
    TensorsConfig(TensorsInfo([OneByteInfo()], Flexible), rate.0, rate.1)
  }

  /**
   * gst_tensor_converter_parse_octet. Without a valid input-dim/input-type
   * the peer's config is used: a flexible peer gives a flexible stream, a
   * valid static one its tensors. Several frames per tensor are refused for
   * several tensors and for flexible streams.
   */
  function ParseOctet(prop: TensorsInfo, peer: Option<TensorsConfig>, framesPerTensor: nat,
                      fields: CapsFields, frameSize: nat, removePadding: bool): (p: Parsed)
    ensures p.removePadding == removePadding
  {
    var fromPeer := !TensorsInfoValid(prop);
    var flexible := fromPeer && peer.Some? && peer.value.info.format == Flexible;
    var configured := fromPeer && peer.Some? && TensorsInfoValid(peer.value.info);
    var info := if configured then peer.value.info else prop;
    if fromPeer && !flexible && !configured then Parsed(None, frameSize, removePadding)
    else if framesPerTensor > 1 && (|info.infos| > 1 || flexible) then Parsed(None, frameSize, removePadding)
    else
      var rate := FieldsRate(fields);
      if flexible then Parsed(Some(FlexibleOctet(rate)), frameSize, removePadding)
      else Parsed(Some(TensorsConfig(info, rate.0, rate.1)), TensorsSize(info), removePadding)
  }

  /**
   * A valid input-dim/input-type wins over the peer: octet parsing then
   * succeeds with exactly those tensors, and a frame is their total size,
   * unless several frames per tensor meet several tensors.
   */
  lemma {:induction false} ParseOctetFromProperties(prop: TensorsInfo, peer: Option<TensorsConfig>, framesPerTensor: nat,
                                 fields: CapsFields, frameSize: nat, removePadding: bool)
    requires TensorsInfoValid(prop)
    ensures var p := ParseOctet(prop, peer, framesPerTensor, fields, frameSize, removePadding);
      (p.config.Some? <==> framesPerTensor <= 1 || |prop.infos| <= 1) &&
      (p.config.Some? ==>
        (p.config.value.info == prop && p.frameSize == TensorsSize(prop) &&
         (p.config.value.rateN, p.config.value.rateD) == FieldsRate(fields)))
  {
  }

  /** A flexible octet stream is a single byte tensor per buffer and keeps one frame per tensor. */
  lemma {:induction false} ParseOctetFlexible(prop: TensorsInfo, peer: Option<TensorsConfig>, framesPerTensor: nat,
                           fields: CapsFields, frameSize: nat, removePadding: bool)
    requires !TensorsInfoValid(prop) && peer.Some? && peer.value.info.format == Flexible
    ensures var p := ParseOctet(prop, peer, framesPerTensor, fields, frameSize, removePadding);
      (p.config.Some? <==> framesPerTensor <= 1) &&
      (p.config.Some? ==>
        (p.config.value.info.format == Flexible &&
         p.config.value.info.infos == [OneByteInfo()] && p.frameSize == frameSize))
  {
  }

  /** Without a usable property or peer config, an octet stream cannot be configured. */
  lemma {:induction false} ParseOctetUnconfigured(prop: TensorsInfo, peer: Option<TensorsConfig>, framesPerTensor: nat,
                               fields: CapsFields, frameSize: nat, removePadding: bool)
    requires !TensorsInfoValid(prop) && (peer.None? || !TensorsInfoValid(peer.value.info))
    ensures ParseOctet(prop, peer, framesPerTensor, fields, frameSize, removePadding).config.None?
  {
  }

  /**
   * gst_tensor_converter_parse_tensor: flexible tensors become static ones;
   * the shape comes from the properties if they are valid, otherwise it is
   * a placeholder the chain function replaces from the buffers.
   */
  function ParseTensor(prop: TensorsInfo, framesPerTensor: nat, fields: CapsFields,
                       frameSize: nat, removePadding: bool): (p: Parsed)
    ensures p.removePadding == removePadding
  {
    if framesPerTensor > 1 then Parsed(None, frameSize, removePadding)
    else
      var rate := FieldsRate(fields);
      if TensorsInfoValid(prop) then
        Parsed(Some(TensorsConfig(prop, rate.0, rate.1)), TensorsSize(prop), removePadding)
      else
        Parsed(Some(TensorsConfig(TensorsInfo([OneByteInfo()], Static), rate.0, rate.1)), frameSize, removePadding)
  }

  /**
   * Tensor parsing succeeds exactly at one frame per tensor; the result is
   * always a static stream, with the properties' tensors when they are valid.
   */
  lemma {:induction false} ParseTensorOutcome(prop: TensorsInfo, framesPerTensor: nat, fields: CapsFields,
                           frameSize: nat, removePadding: bool)
    ensures var p := ParseTensor(prop, framesPerTensor, fields, frameSize, removePadding);
      (p.config.Some? <==> framesPerTensor <= 1) &&
      (p.config.Some? && TensorsInfoValid(prop) ==> p.config.value.info == prop && p.frameSize == TensorsSize(prop)) &&
      (p.config.Some? && !TensorsInfoValid(prop) ==> p.config.value.info == TensorsInfo([OneByteInfo()], Static) && p.frameSize == frameSize)
  {
  }
}
