/**
 * Caps negotiation of tensor_converter (gst_tensor_converter_parse_caps):
 * the parser chosen by the media type, the frame count written into the
 * frame dimension, the validation of the result, and the comparison with
 * the tensors fixed by the input-dim and input-type properties. What GStreamer
 * reads out of the caps, what the peer pad answers and what an external
 * converter computes are inputs here.
 */
module ConvCaps {
  import opened Base
  import opened TensorTypes
  import opened ConvMedia
  import opened ConvRegistry

  /**
   * Fixed sink caps as the element reads them: the media type of the first
   * structure, its name, the video or audio info GStreamer parses from the
   * caps (None when that fails), and the format and framerate fields.
   */
  datatype Caps = Caps(mediaType: MediaType, mimetype: string, video: Option<VideoInfo>,
                       audio: Option<AudioInfo>, fields: CapsFields)

  /**
   * What negotiation learns from outside the element: the config the source
   * pad's peer offers (None when it offers none), the registered external
   * converters in listing order, and what the found converter's
   * get_out_config and open callbacks return.
   */
  datatype CapsEnv = CapsEnv(peer: Option<PeerConfig>, listing: seq<string>,
                             table: map<string, ExternalConverter>,
                             outConfig: Option<TensorsConfig>, openResult: int)

  /** The element fields parse_caps reads. */
  datatype CapsInput = CapsInput(mode: ConverterMode, extFw: Option<string>, propInfo: TensorsInfo,
                                 textSize: nat, framesPerTensor: nat, frameSize: nat,
                                 removePadding: bool, external: Option<ExternalConverter>)

  /**
   * The outcome of parse_caps: the media type and config it commits (None
   * when it returns FALSE), and the frame size, padding flag and external
   * converter the parsers leave behind, which they write even on failure.
   */
  datatype Negotiated = Negotiated(commit: Option<(MediaType, TensorsConfig)>, frameSize: nat,
                                   removePadding: bool, external: Option<ExternalConverter>)

  /** The converter findExternalConverter returns for a media type. */
  function Found(env: CapsEnv, mediaType: Option<string>): Option<ExternalConverter> {
    var i := FirstMatch(env.listing, env.table, mediaType);
    if i < |env.listing| then Lookup(env.table, env.listing[i]) else None
  }

  /** The peer's config as parse_custom sees it: an initialized, unfixed config when the peer offers none. */
  function PeerOf(env: CapsEnv): PeerConfig {
    if env.peer.Some? then env.peer.value else PeerConfig(InitConfig(), false)
  }

  /** The media type parse_caps dispatches on: any media in a custom mode. */
  function DispatchType(mode: ConverterMode, caps: Caps): (m: MediaType)
    ensures mode != ModeNone ==> m == MediaAny
  {
    if mode != ModeNone then MediaAny else caps.mediaType
  }

  /** The dimension holding the frame count: 3 for video, 1 for audio and text, none otherwise. */
  function FramesDim(m: MediaType): Option<nat> {
    match m
    case Video => Some(3)
    case Audio | Text => Some(1)
    case _ => None
  }

  /** The per-media parser, with the media type committed on success. */
  function ParseMedia(inp: CapsInput, caps: Caps, env: CapsEnv): (r: (Parsed, MediaType, Option<ExternalConverter>))
  {
    var m := DispatchType(inp.mode, caps);
    match m
    case Video => (ParseVideo(caps.video, inp.frameSize, inp.removePadding), Video, inp.external)
    case Audio => (ParseAudio(caps.audio, inp.frameSize, inp.removePadding), Audio, inp.external)
    case Text => (ParseText(inp.textSize, caps.fields, inp.frameSize, inp.removePadding), Text, inp.external)
    case Octet =>
      var peer := if env.peer.Some? then Some(env.peer.value.config) else None;
      (ParseOctet(inp.propInfo, peer, inp.framesPerTensor, caps.fields, inp.frameSize, inp.removePadding), Octet, inp.external)
    case Tensor => (ParseTensor(inp.propInfo, inp.framesPerTensor, caps.fields, inp.frameSize, inp.removePadding), Tensor, inp.external)
    case _ =>
      var found := Found(env, CustomMediaType(inp.mode, inp.extFw, caps.mimetype));
      var cp := ParseCustom(inp.mode, inp.external, PeerOf(env), caps.fields, found, env.outConfig, env.openResult);
      (Parsed(cp.config, inp.frameSize, inp.removePadding), MediaAny, cp.external)
  }

  /** The parser's config with the frame count written into the media type's frame dimension. */
  function Framed(c: TensorsConfig, m: MediaType, framesPerTensor: nat): TensorsConfig {
    var d := FramesDim(m);
    if d.Some? then SetDim(c, d.value, framesPerTensor) else c
  }

  /**
   * gst_tensor_converter_parse_caps: the parser's config gets the frame
   * count in its frame dimension; it is committed when it is valid and, if
   * the properties fix valid tensors, equal to them.
   */
  function ParseCapsSpec(inp: CapsInput, caps: Caps, env: CapsEnv): (n: Negotiated)
  {
    var (p, m, ext) := ParseMedia(inp, caps, env);
    var commit :=
      if p.config.None? then None
      else
        var config := Framed(p.config.value, m, inp.framesPerTensor);
        if !ConfigValid(config) then None
        else if TensorsInfoValid(inp.propInfo) && !InfoEqual(inp.propInfo, config.info) then None
        else Some((m, config));
    Negotiated(commit, p.frameSize, p.removePadding, ext)
  }

  /**
   * What parse_caps commits is always a valid config, and one that agrees
   * with the tensors the properties fix when those are valid; a config that
   * disagrees with them is never committed.
   */
  lemma {:induction false} CommittedConfigValid(inp: CapsInput, caps: Caps, env: CapsEnv)
    ensures var n := ParseCapsSpec(inp, caps, env);
      n.commit.Some? ==>
        ConfigValid(n.commit.value.1) &&
        (TensorsInfoValid(inp.propInfo) ==> InfoEqual(inp.propInfo, n.commit.value.1.info))
  {
  }

  /**
   * In a custom mode the caps' own media type is ignored: anything
   * committed is any-media, and the custom parser decides.
   */
  lemma {:induction false} CustomModeIsAnyMedia(inp: CapsInput, caps: Caps, env: CapsEnv)
    requires inp.mode != ModeNone
    ensures var n := ParseCapsSpec(inp, caps, env);
      (n.commit.Some? ==> n.commit.value.0 == MediaAny) &&
      n.frameSize == inp.frameSize && n.removePadding == inp.removePadding
  {
  }

  /**
   * Video caps: a supported format gives its tensor with frames-per-tensor
   * frames in dimension 3, committed exactly when that config is valid and
   * agrees with valid property tensors; the frame size becomes the caps'
   * frame size and the padding flag whether rows are padded. An unsupported
   * format, or padded rows in a planar format, is refused.
   */
  lemma {:induction false} VideoCapsNegotiated(inp: CapsInput, caps: Caps, env: CapsEnv, v: VideoInfo)
    requires inp.mode == ModeNone && caps.mediaType == Video && caps.video == Some(v)
    ensures var n := ParseCapsSpec(inp, caps, env);
      var t := VideoTensor(v.format, v.width, v.height);
      var c := TensorsConfig(TensorsInfo([t.(dims := t.dims[3 := inp.framesPerTensor])], Static), v.fpsN, v.fpsD);
      (!KnownVideo(v.format) || (VideoStride(v.format, v.width) && Planar(v.format)) ==> n.commit.None?) &&
      (KnownVideo(v.format) && !(VideoStride(v.format, v.width) && Planar(v.format)) ==>
        (n.commit.Some? <==> ConfigValid(c) && (TensorsInfoValid(inp.propInfo) ==> InfoEqual(inp.propInfo, c.info))) &&
        (n.commit.Some? ==> n.commit.value == (Video, c)) &&
        n.frameSize == v.size && n.removePadding == VideoStride(v.format, v.width))
  {
    var p := ParseVideo(caps.video, inp.frameSize, inp.removePadding);
    assert DispatchType(inp.mode, caps) == Video;
    assert ParseMedia(inp, caps, env) == (p, Video, inp.external);
    if KnownVideo(v.format) && !(VideoStride(v.format, v.width) && Planar(v.format)) {
      var t := VideoTensor(v.format, v.width, v.height);
      var config := TensorsConfig(TensorsInfo([t], Static), v.fpsN, v.fpsD);
      assert p.config == Some(config);
      assert Framed(config, Video, inp.framesPerTensor) ==
        TensorsConfig(TensorsInfo([t.(dims := t.dims[3 := inp.framesPerTensor])], Static), v.fpsN, v.fpsD);
    }
  }

  /**
   * Text caps need a text size from the input-dim property: the tensor is
   * [text size, frames-per-tensor] UINT8 bytes, and frames are text-size
   * bytes each.
   */
  lemma {:induction false} TextCapsNegotiated(inp: CapsInput, caps: Caps, env: CapsEnv)
    requires inp.mode == ModeNone && caps.mediaType == Text
    ensures var n := ParseCapsSpec(inp, caps, env);
      (inp.textSize == 0 ==> n.commit.None?) &&
      (n.commit.Some? ==>
        n.commit.value.0 == Text && n.frameSize == inp.textSize &&
        n.commit.value.1.info.infos == [TensorInfo(UInt8, Dims2(inp.textSize, inp.framesPerTensor))])
  {
    ParseTextOutcome(inp.textSize, caps.fields, inp.frameSize, inp.removePadding);
    assert Dims2(inp.textSize, 1)[1 := inp.framesPerTensor] == Dims2(inp.textSize, inp.framesPerTensor);
  }
}
