/**
 * The tensor description types the converter and the decoders exchange:
 * element types, dimensions, the per-stream tensors info and the tensors
 * config with its frame rate. The validation and comparison helpers mirror
 * the nnstreamer utility library, which is not part of this model; they are
 * written here from their documented meaning.
 */
module TensorTypes {
  import opened Base

  /** Maximum rank of a tensor (NNS_TENSOR_RANK_LIMIT). */
  const RANK_LIMIT: nat := 16

  /** Maximum number of tensors in one stream (NNS_TENSOR_SIZE_LIMIT). */
  const SIZE_LIMIT: nat := 256

  /** Element types; End is the "no type" marker (_NNS_END). */
  datatype TensorType =
    | Int32 | UInt32 | Int16 | UInt16 | Int8 | UInt8
    | Float64 | Float32 | Int64 | UInt64 | Float16
    | End

  /** Byte size of one element; 0 for End. */
  function ElementSize(t: TensorType): (n: nat)
    ensures n == 0 <==> t == End
    ensures n in {0, 1, 2, 4, 8}
  {
    match t
    case Int8 | UInt8 => 1
    case Int16 | UInt16 | Float16 => 2
    case Int32 | UInt32 | Float32 => 4
    case Int64 | UInt64 | Float64 => 8
    case End => 0
  }

  /** Media types of an incoming stream (media_type in the source). */
  datatype MediaType = Video | Audio | Text | Octet | Tensor | MediaAny | MediaInvalid

  /** Stream formats of other/tensors. */
  datatype TensorFormat = Static | Flexible | Sparse

  /** One tensor: element type and RANK_LIMIT dimensions (0 = unused). */
  datatype TensorInfo = TensorInfo(ttype: TensorType, dims: seq<nat>)

  /** The tensors of a stream, one entry per tensor (num_tensors == |infos|). */
  datatype TensorsInfo = TensorsInfo(infos: seq<TensorInfo>, format: TensorFormat)

  /** A tensors info plus the frame rate rateN/rateD. */
  datatype TensorsConfig = TensorsConfig(info: TensorsInfo, rateN: int, rateD: int)

  /** RANK_LIMIT zero dimensions. */
  function ZeroDims(): (d: seq<nat>)
    ensures |d| == RANK_LIMIT && forall i :: 0 <= i < |d| ==> d[i] == 0
  {
    seq(RANK_LIMIT, _ => 0)
  }

  /** gst_tensor_info_init: type End, all dimensions zero. */
  function InitInfo(): TensorInfo { TensorInfo(End, ZeroDims()) }

  /** gst_tensors_info_init: a static info with no tensor. */
  function InitTensorsInfo(): TensorsInfo { TensorsInfo([], Static) }

  /** gst_tensors_config_init: no tensor, frame rate -1/-1. */
  function InitConfig(): TensorsConfig { TensorsConfig(InitTensorsInfo(), -1, -1) }

  /**
   * A dimension vector is valid when it has RANK_LIMIT entries, the first is
   * positive and no nonzero entry follows a zero one.
   */
  predicate DimsValid(d: seq<nat>) {
    |d| == RANK_LIMIT && d[0] > 0 &&
    forall i, j :: 0 <= i < j < |d| && d[i] == 0 ==> d[j] == 0
  }

  predicate TensorInfoValid(t: TensorInfo) {
    t.ttype != End && DimsValid(t.dims)
  }

  /**
   * gst_tensors_info_validate: a non-static stream carries its shapes in
   * every buffer and is always valid; a static one needs 1..SIZE_LIMIT
   * valid tensors.
   */
  predicate TensorsInfoValid(ti: TensorsInfo) {
    ti.format != Static ||
    (1 <= |ti.infos| <= SIZE_LIMIT &&
     forall i :: 0 <= i < |ti.infos| ==> TensorInfoValid(ti.infos[i]))
  }

  /** gst_tensors_config_validate: a usable rate and a valid info. */
  predicate ConfigValid(c: TensorsConfig) {
    c.rateN >= 0 && c.rateD > 0 && TensorsInfoValid(c.info)
  }

  /** Number of elements: the product of the dimensions before the first zero. */
  function ElementCount(d: seq<nat>): (n: nat)
    decreases |d|
  {
    if d == [] || d[0] == 0 then 1 else d[0] * ElementCount(d[1..])
  }

  /** gst_tensor_info_get_size: byte size of one tensor. */
  function TensorSize(t: TensorInfo): nat {
    ElementSize(t.ttype) * ElementCount(t.dims)
  }

  /** Byte sizes of the tensors, in order. */
  function TensorSizes(infos: seq<TensorInfo>): (s: seq<nat>)
    ensures |s| == |infos|
    ensures forall i :: 0 <= i < |infos| ==> s[i] == TensorSize(infos[i])
  {
    seq(|infos|, i requires 0 <= i < |infos| => TensorSize(infos[i]))
  }

  /** gst_tensors_info_get_size (info, -1): byte size of all tensors. */
  function TensorsSize(ti: TensorsInfo): nat {
    Sum(TensorSizes(ti.infos))
  }

  /**
   * gst_tensor_dimension_is_equal: both vectors valid, and every axis the
   * same or, where they differ, 1 or unset (0) on both sides, so that an
   * unset trailing axis matches an axis of 1.
   */
  predicate DimsEqual(a: seq<nat>, b: seq<nat>) {
    DimsValid(a) && DimsValid(b) &&
    forall i :: 0 <= i < RANK_LIMIT ==> a[i] == b[i] || (a[i] <= 1 && b[i] <= 1)
  }

  /** gst_tensor_info_is_equal: the same element type and equal dimensions. */
  predicate TensorInfoEqual(a: TensorInfo, b: TensorInfo) {
    a.ttype == b.ttype && DimsEqual(a.dims, b.dims)
  }

  /**
   * gst_tensors_info_is_equal: the same format and, for static streams, as
   * many tensors, pairwise equal.
   */
  predicate InfoEqual(a: TensorsInfo, b: TensorsInfo) {
    a.format == b.format &&
    (a.format != Static ||
     (|a.infos| == |b.infos| && forall i :: 0 <= i < |a.infos| ==> TensorInfoEqual(a.infos[i], b.infos[i])))
  }

  /**
   * An input-dim of three axes matches the caps' four-axis shape whose
   * frame axis is 1, e.g. 3:640:480 against 3:640:480:1.
   */
  lemma {:induction false} UnsetAxisMatchesOne(t: TensorType, d0: nat, d1: nat, d2: nat)
    requires d0 > 0 && d1 > 0 && d2 > 0
    ensures var three := [d0, d1, d2] + seq(RANK_LIMIT - 3, _ => 0);
      var four := [d0, d1, d2, 1] + seq(RANK_LIMIT - 4, _ => 0);
      TensorInfoEqual(TensorInfo(t, three), TensorInfo(t, four)) && three != four
  {
    var three := [d0, d1, d2] + seq(RANK_LIMIT - 3, _ => 0);
    var four := [d0, d1, d2, 1] + seq(RANK_LIMIT - 4, _ => 0);
    assert forall i :: 3 <= i < RANK_LIMIT ==> three[i] == 0;
    assert forall i :: 4 <= i < RANK_LIMIT ==> four[i] == 0;
    assert three[3] != four[3];
  }

  /**
   * gst_tensors_config_is_equal: both configs valid, the same frame rate as
   * a fraction, and equal infos.
   */
  predicate ConfigEqual(a: TensorsConfig, b: TensorsConfig) {
    ConfigValid(a) && ConfigValid(b) &&
    a.rateN * b.rateD == b.rateN * a.rateD &&
    InfoEqual(a.info, b.info)
  }

  /** The config with dimension k of its first tensor set to n (config->info.info[0].dimension[k] = n). */
  function SetDim(c: TensorsConfig, k: nat, n: nat): (r: TensorsConfig)
    ensures r.rateN == c.rateN && r.rateD == c.rateD && r.info.format == c.info.format
    ensures |r.info.infos| == |c.info.infos|
    ensures forall i :: 1 <= i < |c.info.infos| ==> r.info.infos[i] == c.info.infos[i]
    ensures |c.info.infos| > 0 && k < |c.info.infos[0].dims| ==>
      r.info.infos[0] == c.info.infos[0].(dims := c.info.infos[0].dims[k := n])
    ensures |c.info.infos| == 0 || k >= |c.info.infos[0].dims| ==> r == c
  {
    if |c.info.infos| == 0 || k >= |c.info.infos[0].dims| then c
    else
      var t := c.info.infos[0];
      c.(info := c.info.(infos := c.info.infos[0 := t.(dims := t.dims[k := n])]))
  }

  /** A single-tensor dimension vector [d0, d1, 0, ...] padded with zeros. */
  function Dims2(d0: nat, d1: nat): (d: seq<nat>)
    ensures |d| == RANK_LIMIT && d[0] == d0 && d[1] == d1
    ensures forall i :: 2 <= i < RANK_LIMIT ==> d[i] == 0
  {
    [d0, d1] + seq(RANK_LIMIT - 2, _ => 0)
  }

  /** The single UINT8 [1] tensor the parsers fall back to for flexible streams. */
  function OneByteInfo(): TensorInfo { TensorInfo(UInt8, Dims2(1, 0)) }

  lemma {:induction false} OneByteInfoValid()
    ensures TensorInfoValid(OneByteInfo())
    ensures TensorSize(OneByteInfo()) == 1
  {
    var d := Dims2(1, 0);
    assert d[1] == 0;
    assert ElementCount(d[1..]) == 1;
  }
}
