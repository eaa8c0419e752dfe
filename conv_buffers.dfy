/**
 * Buffers as tensor_converter sees them: a list of memory blocks, each
 * possibly carrying the header of a flexible tensor, plus the timestamps
 * and the client id of the query meta. Also what the element sends
 * downstream and the flow results of its chain function.
 */
module ConvBuffers {
  import opened Base
  import opened Clock
  import opened TensorTypes

  /**
   * The header of a flexible tensor memory (GstTensorMetaInfo): the
   * tensor's type and shape and the media type it was made from. Its byte
   * encoding is not part of this model.
   */
  datatype MetaHeader = MetaHeader(info: TensorInfo, mediaType: MediaType)

  /** One memory block: its payload and, for a flexible tensor, its header. */
  datatype Mem = Mem(data: seq<byte>, header: Option<MetaHeader>)

  /** A GstBuffer: memories, pts, dts, duration, and the client id of its query meta if it has one. */
  datatype Buffer = Buffer(mems: seq<Mem>, pts: nat, dts: nat, duration: nat, clientId: Option<int>)

  /** What the element sends out of its source pad, in order. */
  datatype Event = SegmentEvent(segment: Segment) | BufferEvent(buffer: Buffer)

  /**
   * The flow result of chain: OK, an error, any other non-OK flow of
   * downstream passed on (not linked, flushing, end of stream), or a stop
   * where the source has no defined way on (a failed g_assert, a division
   * by zero, a copy past the end of a mapped buffer).
   */
  datatype Flow = FlowOk | FlowError | FlowRefused | FlowAbort

  /** The byte sequences one after the other. */
  function Concat(parts: seq<seq<byte>>): (r: seq<byte>)
    decreases |parts|
  {
    if parts == [] then [] else Concat(parts[..|parts| - 1]) + parts[|parts| - 1]
  }

  lemma {:induction false} ConcatAppend(parts: seq<seq<byte>>, p: seq<byte>)
    ensures Concat(parts + [p]) == Concat(parts) + p
  {
    assert (parts + [p])[..|parts|] == parts;
  }

  lemma {:induction false} ConcatPrepend(p: seq<byte>, parts: seq<seq<byte>>)
    ensures Concat([p] + parts) == p + Concat(parts)
    decreases |parts|
  {
    if parts == [] {
      assert [p] + parts == [p] && [p][..0] == [];
    } else {
      var n := |parts| - 1;
      assert ([p] + parts)[..|parts|] == [p] + parts[..n];
      ConcatPrepend(p, parts[..n]);
    }
  }

  /** The payloads of memories, in order. */
  function Datas(mems: seq<Mem>): (r: seq<seq<byte>>)
    ensures |r| == |mems| && forall i :: 0 <= i < |mems| ==> r[i] == mems[i].data
  {
    seq(|mems|, i requires 0 <= i < |mems| => mems[i].data)
  }

  /** The payload bytes of a buffer (what mapping it reads). */
  function Payload(b: Buffer): seq<byte> {
    Concat(Datas(b.mems))
  }

  /** gst_buffer_get_size; header bytes are not counted in this model. */
  function Size(b: Buffer): nat {
    |Payload(b)|
  }

  /** A single-memory buffer of raw bytes with the pts, dts, duration and meta of another buffer. */
  function Raw(data: seq<byte>, like: Buffer): (b: Buffer)
    ensures Payload(b) == data && Size(b) == |data|
  {
    var b := Buffer([Mem(data, None)], like.pts, like.dts, like.duration, like.clientId);
    assert Datas(b.mems) == [data];
    assert Concat([data]) == Concat([]) + data;
    b
  }

  /**
   * The media type written into the header of a flexible tensor: the
   * incoming media type for video, audio, text and octet streams, tensor
   * for everything else.
   */
  function FlexTag(m: MediaType): (t: MediaType)
    ensures t == m || t == Tensor
    ensures t != MediaAny && t != MediaInvalid
    ensures t == Tensor <==> !(m == Video || m == Audio || m == Text || m == Octet)
  {
    match m
    case Video | Audio | Text | Octet => m
    case _ => Tensor
  }
}
