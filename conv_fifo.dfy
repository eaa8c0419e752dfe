/**
 * The aggregation FIFO of tensor_converter (one GstAdapter per client id):
 * the bytes pushed and not yet taken, and for every pushed buffer its pts
 * and dts with the position of its first byte relative to the read head.
 */
module ConvFifo {
  import opened Base
  import opened Clock

  /** A pushed buffer's timestamps; start is where its first byte lies relative to the read head. */
  datatype Stamp = Stamp(start: int, pts: nat, dts: nat)

  datatype Fifo = Fifo(data: seq<byte>, stamps: seq<Stamp>)

  /** An adapter with nothing in it (gst_adapter_new, gst_adapter_clear). */
  function EmptyFifo(): Fifo { Fifo([], []) }

  /** gst_adapter_push: the bytes go to the end, their timestamps with them. */
  function Push(f: Fifo, bytes: seq<byte>, pts: nat, dts: nat): (g: Fifo)
    ensures g.data == f.data + bytes
  {
    Fifo(f.data + bytes, f.stamps + [Stamp(|f.data|, pts, dts)])
  }

  /** gst_adapter_take_buffer's effect on the adapter: n bytes leave the front and the read head moves on. */
  function Take(f: Fifo, n: nat): (g: Fifo)
    requires n <= |f.data|
    ensures f.data == f.data[..n] + g.data
  {
    Fifo(f.data[n..], seq(|f.stamps|, i requires 0 <= i < |f.stamps| => f.stamps[i].(start := f.stamps[i].start - n)))
  }

  /**
   * gst_adapter_prev_pts (ofPts) or gst_adapter_prev_dts: the latest valid
   * timestamp of a buffer that starts at or before the read head, and how
   * many bytes the read head is past that buffer's start; NONE and 0 when
   * there is none.
   */
  function Prev(stamps: seq<Stamp>, ofPts: bool): (r: (nat, nat))
    ensures r.0 == NONE ==> r.1 == 0
    ensures r.0 != NONE ==>
      (exists i :: 0 <= i < |stamps| && stamps[i].start == -(r.1 as int) &&
                   r.0 == (if ofPts then stamps[i].pts else stamps[i].dts))
    decreases |stamps|
  {
    if stamps == [] then (NONE, 0)
    else
      var s := stamps[|stamps| - 1];
      var t := if ofPts then s.pts else s.dts;
      if s.start <= 0 && IsValid(t) then (t, -s.start)
      else
        var r := Prev(stamps[..|stamps| - 1], ofPts);
        assert forall i :: 0 <= i < |stamps| - 1 ==> stamps[..|stamps| - 1][i] == stamps[i];
        r
  }

  /**
   * The timestamp in force at the read head, once the read head has moved
   * into a buffer pushed with valid timestamps, is that buffer's, at the
   * distance the read head has gone into it.
   */
  lemma {:induction false} PrevAfterPushAndTake(f: Fifo, bytes: seq<byte>, pts: nat, dts: nat, n: nat, ofPts: bool)
    requires |f.data| <= n <= |f.data| + |bytes|
    requires IsValid(if ofPts then pts else dts)
    ensures Prev(Take(Push(f, bytes, pts, dts), n).stamps, ofPts) == (if ofPts then pts else dts, n - |f.data|)
  {
    var g := Take(Push(f, bytes, pts, dts), n);
    var last := g.stamps[|g.stamps| - 1];
    assert last == Stamp(|f.data| - n, pts, dts);
  }
}
