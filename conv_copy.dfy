/**
 * The byte copies of tensor_converter's chain function: removing the row
 * padding of a raw video frame, fitting a text buffer to the configured
 * frame size, cutting an octet buffer into one share per tensor, and
 * putting a flexible-tensor header on each memory.
 */
module ConvCopy {
  import opened Base
  import opened TensorTypes
  import opened ConvBuffers

  // ---------------------------------------------------------------------
  // Video row padding
  // ---------------------------------------------------------------------

  lemma {:induction false} MulSucc(a: nat, b: nat)
    ensures (a + 1) * b == a * b + b
  {
  }

  /** Every one of `rows` rows, `rowSize` bytes each and `stride` bytes apart from `at` on, lies inside `len` bytes. */
  predicate RowsFit(len: nat, at: nat, rowSize: nat, stride: nat, rows: nat)
    decreases rows
  {
    rows == 0 || (at + rowSize <= len && RowsFit(len, at + stride, rowSize, stride, rows - 1))
  }

  /** The rows of `src` from offset `at` on, each `rowSize` bytes starting every `stride` bytes, packed together. */
  function Unpadded(src: seq<byte>, at: nat, rowSize: nat, stride: nat, rows: nat): (r: seq<byte>)
    requires RowsFit(|src|, at, rowSize, stride, rows)
    ensures |r| == rows * rowSize
    decreases rows
  {
    if rows == 0 then []
    else
      MulSucc(rows - 1, rowSize);
      src[at .. at + rowSize] + Unpadded(src, at + stride, rowSize, stride, rows - 1)
  }

  /** Output row r is source bytes [at + r * stride, at + r * stride + rowSize). */
  lemma {:induction false} UnpaddedRow(src: seq<byte>, at: nat, rowSize: nat, stride: nat, rows: nat, r: nat)
    requires RowsFit(|src|, at, rowSize, stride, rows) && r < rows
    ensures at + r * stride + rowSize <= |src|
    ensures (r + 1) * rowSize <= rows * rowSize
    ensures Unpadded(src, at, rowSize, stride, rows)[r * rowSize .. (r + 1) * rowSize]
         == src[at + r * stride .. at + r * stride + rowSize]
    decreases r
  {
    var whole := Unpadded(src, at, rowSize, stride, rows);
    var rest := Unpadded(src, at + stride, rowSize, stride, rows - 1);
    assert whole == src[at .. at + rowSize] + rest;
    MulSucc(r, rowSize);
    MulSucc(rows - 1, rowSize);
    if r > 0 {
      var q := r - 1;
      UnpaddedRow(src, at + stride, rowSize, stride, rows - 1, q);
      MulSucc(q, rowSize);
      MulSucc(q, stride);
      assert whole[r * rowSize .. (r + 1) * rowSize] == rest[q * rowSize .. (q + 1) * rowSize];
    }
  }

  lemma {:induction false} Reassociate(a: seq<byte>, b: seq<byte>, c: seq<byte>)
    ensures a + (b + c) == (a + b) + c
  {
  }

  /** memcpy of `size` bytes from `src` at `from` into `dst` at `to`; the bytes before `to` stay. */
  method CopyRow(dst: array<byte>, to: nat, src: seq<byte>, from: nat, size: nat)
    requires to + size <= dst.Length && from + size <= |src|
    modifies dst
    ensures dst[..to + size] == old(dst[..to]) + src[from .. from + size]
  {
    forall k | 0 <= k < size {
      dst[to + k] := src[from + k];
    }
  }

  /**
   * The padding copy: a zeroed buffer of rowSize * height bytes, filled row
   * by row with rowSize bytes from the source, whose read index advances by
   * the padded stride and whose write index by rowSize. (In chain the frame
   * count is one here, so the loop over frames runs once and is left out.)
   */
  method RemovePadding(src: seq<byte>, rowSize: nat, stride: nat, height: nat) returns (dst: array<byte>)
    requires RowsFit(|src|, 0, rowSize, stride, height)
    ensures fresh(dst)
    ensures dst[..] == Unpadded(src, 0, rowSize, stride, height)
  {
    dst := new byte[rowSize * height](_ => 0);
    ghost var whole := Unpadded(src, 0, rowSize, stride, height);
    var srcIdx: nat, destIdx: nat, rowsLeft: nat := 0, 0, height;
    while rowsLeft > 0
      invariant RowsFit(|src|, srcIdx, rowSize, stride, rowsLeft)
      invariant destIdx <= dst.Length
      invariant dst[..destIdx] + Unpadded(src, srcIdx, rowSize, stride, rowsLeft) == whole
    {
      CopyUnpaddedRow(dst, destIdx, src, srcIdx, rowSize, stride, rowsLeft, whole);
      destIdx := destIdx + rowSize;
      srcIdx := srcIdx + stride;
      rowsLeft := rowsLeft - 1;
    }
    assert dst[..] == dst[..destIdx];
  }

  /** One step of the padding copy: the next row goes in, and what is left to copy is the remaining rows. */
  method CopyUnpaddedRow(dst: array<byte>, destIdx: nat, src: seq<byte>, srcIdx: nat, rowSize: nat,
                         stride: nat, rows: nat, ghost whole: seq<byte>)
    requires rows > 0 && RowsFit(|src|, srcIdx, rowSize, stride, rows)
    requires |whole| == dst.Length && destIdx <= dst.Length
    requires dst[..destIdx] + Unpadded(src, srcIdx, rowSize, stride, rows) == whole
    modifies dst
    ensures destIdx + rowSize <= dst.Length
    ensures RowsFit(|src|, srcIdx + stride, rowSize, stride, rows - 1)
    ensures dst[..destIdx + rowSize] + Unpadded(src, srcIdx + stride, rowSize, stride, rows - 1) == whole
  {
    ghost var before := dst[..destIdx];
    ghost var row := src[srcIdx .. srcIdx + rowSize];
    ghost var rest := Unpadded(src, srcIdx + stride, rowSize, stride, rows - 1);
    assert Unpadded(src, srcIdx, rowSize, stride, rows) == row + rest;
    CopyRow(dst, destIdx, src, srcIdx, rowSize);
    assert dst[..destIdx + rowSize] == before + row;
    Reassociate(before, row, rest);
  }

  // ---------------------------------------------------------------------
  // Text frames
  // ---------------------------------------------------------------------

  /** A text buffer fitted to `size` bytes: cut, or padded with zero bytes. */
  function Resized(src: seq<byte>, size: nat): (r: seq<byte>)
    ensures |r| == size
    ensures forall k :: 0 <= k < size && k < |src| ==> r[k] == src[k]
    ensures forall k :: |src| <= k < size ==> r[k] == 0
  {
    if |src| >= size then src[..size] else src + seq(size - |src|, _ => 0)
  }

  /** A zeroed buffer of the frame size with the first min(|src|, frameSize) bytes copied in. */
  method ResizeText(src: seq<byte>, frameSize: nat) returns (dst: array<byte>)
    ensures fresh(dst)
    ensures dst[..] == Resized(src, frameSize)
  {
    dst := new byte[frameSize](_ => 0);
    var blockSize := Min(|src|, frameSize);
    forall k | 0 <= k < blockSize {
      dst[k] := src[k];
    }
  }

  // ---------------------------------------------------------------------
  // Octet shares
  // ---------------------------------------------------------------------

  /** The shares of `data` for tensors of the given sizes, in order, each starting where the previous ends. */
  function Shares(data: seq<byte>, sizes: seq<nat>): (r: seq<seq<byte>>)
    requires Sum(sizes) <= |data|
    ensures |r| == |sizes|
    decreases |sizes|
  {
    if sizes == [] then []
    else
      var n := |sizes| - 1;
      var init := sizes[..n];
      assert init + [sizes[n]] == sizes;
      SumAppend(init, [sizes[n]]);
      Shares(data, init) + [data[Sum(init) .. Sum(init) + sizes[n]]]
  }

  /** The shares together are the first Sum(sizes) bytes of the data. */
  lemma {:induction false} SharesConcat(data: seq<byte>, sizes: seq<nat>)
    requires Sum(sizes) <= |data|
    ensures Concat(Shares(data, sizes)) == data[..Sum(sizes)]
    decreases |sizes|
  {
    if sizes != [] {
      var n := |sizes| - 1;
      var init := sizes[..n];
      SharesUnfold(data, sizes);
      SharesConcat(data, init);
      var last := data[Sum(init) .. Sum(init) + sizes[n]];
      ConcatAppend(Shares(data, init), last);
      assert data[..Sum(init)] + last == data[..Sum(sizes)];
    }
  }

  /** The last share comes after the shares of the other sizes. */
  lemma {:induction false} SharesUnfold(data: seq<byte>, sizes: seq<nat>)
    requires Sum(sizes) <= |data| && sizes != []
    ensures var n := |sizes| - 1;
      Sum(sizes) == Sum(sizes[..n]) + sizes[n] &&
      Shares(data, sizes) == Shares(data, sizes[..n]) + [data[Sum(sizes[..n]) .. Sum(sizes[..n]) + sizes[n]]]
  {
    var n := |sizes| - 1;
    assert sizes[..n] + [sizes[n]] == sizes;
    SumAppend(sizes[..n], [sizes[n]]);
  }

  /** Share i starts at the sum of the earlier sizes and is as long as tensor i. */
  lemma {:induction false} SharesAt(data: seq<byte>, sizes: seq<nat>, i: nat)
    requires Sum(sizes) <= |data| && i < |sizes|
    ensures Sum(sizes[..i]) + sizes[i] <= |data|
    ensures Shares(data, sizes)[i] == data[Sum(sizes[..i]) .. Sum(sizes[..i]) + sizes[i]]
    decreases |sizes|
  {
    var n := |sizes| - 1;
    var init := sizes[..n];
    SharesUnfold(data, sizes);
    if i < n {
      assert init[..i] == sizes[..i];
      SharesAt(data, init, i);
      assert Shares(data, sizes)[i] == Shares(data, init)[i];
    } else {
      assert sizes[..i] == init;
    }
  }


  /** The shares of the first i + 1 sizes are those of the first i and the next slice. */
  lemma {:induction false} NextShare(data: seq<byte>, sizes: seq<nat>, i: nat)
    requires Sum(sizes) <= |data| && i < |sizes|
    ensures var off := Sum(sizes[..i]);
      Sum(sizes[..i + 1]) == off + sizes[i] && off + sizes[i] <= Sum(sizes) &&
      Shares(data, sizes[..i + 1]) == Shares(data, sizes[..i]) + [data[off .. off + sizes[i]]]
  {
    var pre := sizes[..i + 1];
    assert pre + sizes[i + 1..] == sizes;
    SumAppend(pre, sizes[i + 1..]);
    assert pre[..i] == sizes[..i] && pre[i] == sizes[i];
    SharesUnfold(data, pre);
  }

  /**
   * The offset loop of the octet split: share i is cut at the running
   * offset, which then advances by the tensor's size.
   */
  method SliceOctet(data: seq<byte>, sizes: seq<nat>) returns (parts: seq<seq<byte>>)
    requires Sum(sizes) <= |data|
    ensures parts == Shares(data, sizes)
  {
    parts := [];
    var offset := 0;
    for i := 0 to |sizes|
      invariant offset == Sum(sizes[..i]) && offset <= Sum(sizes)
      invariant parts == Shares(data, sizes[..i])
    {
      NextShare(data, sizes, i);
      var size := sizes[i];
      parts := parts + [data[offset .. offset + size]];
      offset := offset + size;
    }
    assert sizes[..|sizes|] == sizes;
  }

  // ---------------------------------------------------------------------
  // Flexible headers
  // ---------------------------------------------------------------------

  /**
   * The memories of a flexible buffer: tensor i's memory with a header
   * that holds tensor i's info and the given media tag.
   */
  function WithHeaders(infos: seq<TensorInfo>, tag: MediaType, mems: seq<Mem>): (r: seq<Mem>)
    requires |infos| <= |mems|
    ensures |r| == |infos|
  {
    seq(|infos|, i requires 0 <= i < |infos| => Mem(mems[i].data, Some(MetaHeader(infos[i], tag))))
  }

  /** Each header describes its own tensor, and the payloads are the first |infos| memories unchanged. */
  lemma {:induction false} WithHeadersKeepsPayload(infos: seq<TensorInfo>, m: MediaType, mems: seq<Mem>)
    requires |infos| == |mems|
    ensures Concat(Datas(WithHeaders(infos, FlexTag(m), mems))) == Concat(Datas(mems))
    ensures forall i :: 0 <= i < |infos| ==>
      WithHeaders(infos, FlexTag(m), mems)[i].header.value.info == infos[i]
  {
    assert Datas(WithHeaders(infos, FlexTag(m), mems)) == Datas(mems);
  }
}
