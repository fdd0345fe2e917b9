/**
 * I420 to NV21 conversion of a video frame: createNV21Data of the Android WebRTCSubscriber.
 */
module Nv21 {
  import opened Results
  import opened ByteStrings

  // One chroma plane: rows that start `stride` bytes apart.
  datatype Plane = Plane(data: Bytes, stride: nat)

  function Half(n: nat): nat {
    (n + 1) / 2
  }

  // The product, with the sum unfolded so that no proof below needs nonlinear arithmetic.
  function Times(n: nat, size: nat): nat {
    if n == 0 then 0 else Times(n - 1, size) + size
  }

  lemma {:induction false} TimesIsProduct(n: nat, size: nat)
    ensures Times(n, size) == n * size
  {
    if n > 0 {
      TimesIsProduct(n - 1, size);
    }
  }

  function RowStart(p: Plane, y: nat): nat {
    Times(y, p.stride)
  }

  // The first rows of a chroma plane are there in full length.
  ghost predicate Covers(p: Plane, n: nat, rows: nat) {
    forall y: nat :: y < rows ==> RowStart(p, y) + n <= |p.data|
  }

  function Row(data: Bytes, start: nat, n: nat): Bytes
    requires start + n <= |data|
  {
    data[start..start + n]
  }

  // The pixels of a plane, row by row, without what lies between the rows.
  function Packed(p: Plane, n: nat, rows: nat): Bytes
    requires Covers(p, n, rows)
  {
    if rows == 0 then [] else Packed(p, n, rows - 1) + Row(p.data, RowStart(p, rows - 1), n)
  }

  // V and U alternate.
  function Pairs(u: Bytes, v: Bytes): Bytes
    requires |u| == |v|
  {
    if u == [] then []
    else
      var k := |u| - 1;
      Pairs(u[..k], v[..k]) + [v[k], u[k]]
  }

  lemma RowGrows(before: Bytes, data: Bytes, start: nat, n: nat)
    requires start + n < |data|
    ensures before + Row(data, start, n) + [data[start + n]] == before + Row(data, start, n + 1)
  {
  }

  // Reading the pairs back recovers both planes, and every byte is one of theirs.
  lemma {:induction false} PairsReadBack(u: Bytes, v: Bytes)
    requires |u| == |v|
    ensures |Pairs(u, v)| == 2 * |u|
    ensures forall i :: 0 <= i < |u| ==> Pairs(u, v)[2 * i] == v[i] && Pairs(u, v)[2 * i + 1] == u[i]
  {
    if u != [] {
      var k := |u| - 1;
      PairsReadBack(u[..k], v[..k]);
    }
  }

  // An NV21 image: the luma plane, then the V,U pairs.
  function Image(luma: Bytes, u: Bytes, v: Bytes): Bytes
    requires |u| == |v|
  {
    luma + Pairs(u, v)
  }

  // Where the bytes of an image come from.
  lemma ImageLayout(luma: Bytes, u: Bytes, v: Bytes)
    requires |u| == |v|
    ensures |Image(luma, u, v)| == |luma| + 2 * |u| && Image(luma, u, v)[..|luma|] == luma
    ensures forall i :: 0 <= i < |u| ==>
      Image(luma, u, v)[|luma| + 2 * i] == v[i] && Image(luma, u, v)[|luma| + 2 * i + 1] == u[i]
  {
    PairsReadBack(u, v);
  }

  lemma ImageGrows(luma: Bytes, u: Bytes, v: Bytes, a: Byte, b: Byte)
    requires |u| == |v|
    ensures Image(luma, u + [a], v + [b]) == Image(luma, u, v) + [b, a]
  {
    assert (u + [a])[..|u|] == u && (v + [b])[..|v|] == v;
  }

  lemma {:induction false} PackedSize(p: Plane, n: nat, rows: nat)
    requires Covers(p, n, rows)
    ensures |Packed(p, n, rows)| == Times(rows, n)
  {
    if rows > 0 {
      PackedSize(p, n, rows - 1);
    }
  }

  lemma {:induction false} RowInside(width: nat, rows: nat, y: nat)
    requires y < rows
    ensures y == rows - 1 ==> Times(y, width) + width == Times(rows, width)
    ensures y < rows - 1 ==> Times(y, width) + width + width <= Times(rows, width)
  {
    if y < rows - 1 {
      RowInside(width, rows - 1, y);
    }
  }

  // ---------------------------------------------------------------- the conversion

  // The luma area: the first bytes of the plane's buffer as they come, zeros where it ends early.
  function Luma(dataY: Bytes, size: nat): (r: Bytes)
    ensures |r| == size
    ensures forall k :: 0 <= k < size ==> r[k] == if k < |dataY| then dataY[k] else 0
  {
    if size <= |dataY| then dataY[..size] else dataY + seq(size - |dataY|, _ => 0)
  }

  // For an unpadded luma plane that is the plane.
  lemma {:induction false} LumaIsPlane(p: Plane, width: nat, rows: nat)
    requires Covers(p, width, rows) && p.stride == width
    ensures Luma(p.data, Times(rows, width)) == Packed(p, width, rows)
  {
    PackedSize(p, width, rows);
    if rows > 0 {
      LumaIsPlane(p, width, rows - 1);
      var before := Times(rows - 1, width);
      assert RowStart(p, rows - 1) + width <= |p.data|;
      assert p.data[..before + width] == p.data[..before] + p.data[before..before + width];
    }
  }

  // Exactly: the luma area is the plane for every plane of a stride if and only if there is no
  // padding, or at most one row, or no pixel. Otherwise the padding is copied as if it were pixels.
  lemma LumaIff(stride: nat, width: nat, rows: nat)
    requires width <= stride
    ensures (forall p: Plane :: LumaRight(p, stride, width, rows)) <==> stride == width || rows <= 1 || width == 0
  {
    if stride == width || rows <= 1 || width == 0 {
      forall p: Plane ensures LumaRight(p, stride, width, rows) {
        if p.stride == stride && Covers(p, width, rows) {
          LumaOfFew(p, width, rows);
        }
      }
    } else {
      var p := Marked(stride, rows);
      MarkedCovers(stride, width, rows);
      TimesGrows(width, 2, rows);
      TimesGrows(stride, 2, rows);
      SecondRow(p, width, rows);
      assert Luma(p.data, Times(rows, width))[width] == p.data[width] by {
        LumaInside(p.data, Times(rows, width), width);
      }
      assert !LumaRight(p, stride, width, rows);
    }
  }

  ghost predicate LumaRight(p: Plane, stride: nat, width: nat, rows: nat) {
    p.stride == stride && Covers(p, width, rows) ==> Luma(p.data, Times(rows, width)) == Packed(p, width, rows)
  }

  lemma LumaOfFew(p: Plane, width: nat, rows: nat)
    requires Covers(p, width, rows) && (p.stride == width || rows <= 1 || width == 0)
    ensures Luma(p.data, Times(rows, width)) == Packed(p, width, rows)
  {
    if p.stride == width {
      LumaIsPlane(p, width, rows);
    } else if rows == 1 {
      assert RowStart(p, 0) == 0;
      assert Packed(p, width, 1) == Packed(p, width, 0) + Row(p.data, 0, width);
    } else {
      PackedSize(p, width, rows);
      NoWidth(rows);
    }
  }

  lemma {:induction false} NoWidth(rows: nat)
    ensures Times(rows, 0) == 0
  {
    if rows > 0 {
      NoWidth(rows - 1);
    }
  }

  lemma {:induction false} TimesGrows(size: nat, m: nat, n: nat)
    requires m <= n
    ensures Times(m, size) <= Times(n, size)
    ensures Times(2, size) == size + size
  {
    if m < n {
      TimesGrows(size, m, n - 1);
    }
    assert Times(1, size) == size;
  }

  // A plane that is zero but for the first pixel of its second row.
  function Marked(stride: nat, rows: nat): Plane
    requires stride > 0
  {
    Plane(seq(Times(rows, stride), k => if k == stride then 1 else 0), stride)
  }

  lemma MarkedCovers(stride: nat, width: nat, rows: nat)
    requires width <= stride && stride > 0
    ensures Covers(Marked(stride, rows), width, rows)
  {
    var p := Marked(stride, rows);
    forall y: nat | y < rows ensures RowStart(p, y) + width <= |p.data| {
      TimesGrows(stride, y + 1, rows);
    }
  }

  lemma LumaInside(data: Bytes, size: nat, k: nat)
    requires k < size && k < |data|
    ensures Luma(data, size)[k] == data[k]
  {
  }

  // The second row of a plane begins where its stride says.
  lemma {:induction false} SecondRow(p: Plane, width: nat, rows: nat)
    requires rows >= 2 && width > 0 && Covers(p, width, rows)
    ensures |Packed(p, width, rows)| > width && p.stride < |p.data| && Packed(p, width, rows)[width] == p.data[p.stride]
  {
    if rows == 2 {
      TwoRows(p, width);
    } else {
      assert Covers(p, width, rows - 1);
      SecondRow(p, width, rows - 1);
      PackedNext(p, width, rows - 1);
    }
  }

  lemma TwoRows(p: Plane, width: nat)
    requires width > 0 && Covers(p, width, 2)
    ensures |Packed(p, width, 2)| > width && p.stride < |p.data| && Packed(p, width, 2)[width] == p.data[p.stride]
  {
    assert Times(1, width) == width && Times(1, p.stride) == p.stride;
    assert RowStart(p, 1) + width <= |p.data|;
    assert Covers(p, width, 1);
    PackedSize(p, width, 1);
    PackedNext(p, width, 1);
  }

  // An input for which it fails.
  lemma PaddedLumaDiffers(p: Plane)
    requires p.stride == 3 && p.data == [1, 2, 0, 3, 4]
    ensures Covers(p, 2, 2) && Luma(p.data, 4) == [1, 2, 0, 3] && Packed(p, 2, 2) == [1, 2, 3, 4]
  {
    assert RowStart(p, 0) == 0 && RowStart(p, 1) == 3;
    assert Packed(p, 2, 1) == [] + Row(p.data, 0, 2);
    assert Row(p.data, 0, 2) == [1, 2] && Row(p.data, 3, 2) == [3, 4];
  }

  // Java's bounds checks make the conversion fail: for frames of odd width that have rows, and for
  // luma buffers larger than the whole image. `writes` counts the chroma bytes written.
  method CreateNV21Data(width: nat, height: nat, dataY: Bytes, u: Plane, v: Plane)
    returns (nv21: Option<array<Byte>>, ghost writes: nat)
    requires Covers(u, Half(width), Half(height)) && Covers(v, Half(width), Half(height))
    ensures nv21.None? <==> (width % 2 == 1 && height > 0) || |dataY| > width * height + width * Half(height)
    ensures nv21.Some? ==>
      var pu, pv := Packed(u, Half(width), Half(height)), Packed(v, Half(width), Half(height));
      && |pu| == |pv| && nv21.value[..] == Image(Luma(dataY, width * height), pu, pv)
      && writes == width * Half(height)
  {
    TimesIsProduct(Half(height), width);
    var ySize, uvSize := width * height, Half(height) * width;
    var data := new Byte[ySize + uvSize](_ => 0);
    writes := 0;
    if |dataY| > data.Length {
      return None, writes;
    }
    CopyLuma(data, dataY);
    ghost var luma := Luma(dataY, ySize);
    LumaCopied(data[..], dataY, ySize);
    var ok;
    ok, writes := InterleaveRows(data, luma, uvSize, width, Half(width), Half(height), u, v);
    nv21 := if ok then Some(data) else None;
  }

  lemma LumaCopied(data: Bytes, dataY: Bytes, ySize: nat)
    requires |dataY| <= |data| && ySize <= |data|
    requires data[..|dataY|] == dataY && forall k :: |dataY| <= k < |data| ==> data[k] == 0
    ensures data[..ySize] == Luma(dataY, ySize)
  {
    forall k | 0 <= k < |dataY| ensures data[k] == dataY[k] {
      assert data[..|dataY|][k] == data[k];
    }
  }

  method CopyLuma(data: array<Byte>, dataY: Bytes)
    requires |dataY| <= data.Length && forall k :: 0 <= k < data.Length ==> data[k] == 0
    modifies data
    ensures data[..|dataY|] == dataY
    ensures forall k :: |dataY| <= k < data.Length ==> data[k] == 0
  {
    for i := 0 to |dataY|
      invariant data[..i] == dataY[..i]
      invariant forall k :: i <= k < data.Length ==> data[k] == 0
    {
      data[i] := dataY[i];
    }
  }

  // The outer loop.
  method InterleaveRows(data: array<Byte>, ghost luma: Bytes, uvSize: nat, width: nat, chromaWidth: nat, chromaHeight: nat, u: Plane, v: Plane)
    returns (ok: bool, ghost writes: nat)
    requires data.Length == |luma| + uvSize && uvSize == Times(chromaHeight, width)
    requires data[..|luma|] == luma
    requires width <= 2 * chromaWidth <= width + 1
    requires Covers(u, chromaWidth, chromaHeight) && Covers(v, chromaWidth, chromaHeight)
    modifies data
    ensures ok <==> 2 * chromaWidth == width || chromaHeight == 0
    ensures ok ==>
      var pu, pv := Packed(u, chromaWidth, chromaHeight), Packed(v, chromaWidth, chromaHeight);
      && |pu| == |pv| && data[..] == Image(luma, pu, pv) && writes == uvSize
  {
    ghost var even := 2 * chromaWidth == width;
    writes := 0;
    var row := data.Length - uvSize;
    for y := 0 to chromaHeight
      invariant row == |luma| + Times(y, width) <= data.Length
      invariant y == chromaHeight > 0 ==> even
      invariant even || y == 0 ==> Shows(data[..row], luma, u, v, chromaWidth, y) && writes == row - |luma|
    {
      RowInside(width, chromaHeight, y);
      ok, writes := InterleaveAt(data, luma, width, chromaWidth, y == chromaHeight - 1, row, u, v, y, writes);
      if !ok {
        return;
      }
      row := row + width;
    }
    assert data[..row] == data[..];
    ok := true;
  }

  // The loop's body: row y of both planes.
  method InterleaveAt(data: array<Byte>, ghost luma: Bytes, width: nat, chromaWidth: nat, last: bool, start: nat,
                      u: Plane, v: Plane, y: nat, ghost before: nat)
    returns (ok: bool, ghost writes: nat)
    requires width <= 2 * chromaWidth <= width + 1
    requires if last then start + width == data.Length else start + width + width <= data.Length
    requires Covers(u, chromaWidth, y + 1) && Covers(v, chromaWidth, y + 1)
    requires 2 * chromaWidth == width ==> Shows(data[..start], luma, u, v, chromaWidth, y)
    modifies data
    ensures ok <==> 2 * chromaWidth == width || !last
    ensures 2 * chromaWidth == width ==>
      Shows(data[..start + width], luma, u, v, chromaWidth, y + 1) && writes == before + width
  {
    var rowU, rowV := RowStart(u, y), RowStart(v, y);
    SameSize(u, v, chromaWidth, y);
    ok, writes := InterleaveRow(data, luma, width, chromaWidth, last, start,
                                u.data, rowU, v.data, rowV, Packed(u, chromaWidth, y), Packed(v, chromaWidth, y), before);
    if 2 * chromaWidth == width {
      ShowsNext(data[..start + width], luma, u, v, chromaWidth, y);
    }
  }

  // The luma area and the pairs of the first rows.
  ghost predicate Shows(image: Bytes, luma: Bytes, u: Plane, v: Plane, n: nat, rows: nat)
    requires Covers(u, n, rows) && Covers(v, n, rows)
  {
    var pu, pv := Packed(u, n, rows), Packed(v, n, rows);
    |pu| == |pv| && image == Image(luma, pu, pv)
  }

  lemma SameSize(u: Plane, v: Plane, n: nat, rows: nat)
    requires Covers(u, n, rows) && Covers(v, n, rows)
    ensures |Packed(u, n, rows)| == |Packed(v, n, rows)|
  {
    PackedSize(u, n, rows);
    PackedSize(v, n, rows);
  }

  lemma ShowsNext(image: Bytes, luma: Bytes, u: Plane, v: Plane, n: nat, y: nat)
    requires Covers(u, n, y + 1) && Covers(v, n, y + 1) && |Packed(u, n, y)| == |Packed(v, n, y)|
    requires image == Image(luma, Packed(u, n, y) + Row(u.data, RowStart(u, y), n), Packed(v, n, y) + Row(v.data, RowStart(v, y), n))
    ensures Shows(image, luma, u, v, n, y + 1)
  {
    PackedNext(u, n, y);
    PackedNext(v, n, y);
    SameSize(u, v, n, y + 1);
  }

  lemma PackedNext(p: Plane, n: nat, y: nat)
    requires Covers(p, n, y + 1)
    ensures Packed(p, n, y + 1) == Packed(p, n, y) + Row(p.data, RowStart(p, y), n)
  {
  }

  // The inner loop. It gets through unless this is the last row of a frame of odd width.
  method InterleaveRow(data: array<Byte>, ghost luma: Bytes, width: nat, chromaWidth: nat, last: bool, start: nat,
                       u: Bytes, rowU: nat, v: Bytes, rowV: nat, ghost pu: Bytes, ghost pv: Bytes, ghost before: nat)
    returns (ok: bool, ghost writes: nat)
    requires width <= 2 * chromaWidth <= width + 1
    requires if last then start + width == data.Length else start + width + width <= data.Length
    requires rowU + chromaWidth <= |u| && rowV + chromaWidth <= |v|
    requires |pu| == |pv| && (2 * chromaWidth == width ==> data[..start] == Image(luma, pu, pv))
    modifies data
    ensures ok <==> 2 * chromaWidth == width || !last
    ensures 2 * chromaWidth == width ==>
      && data[..start + width] == Image(luma, pu + Row(u, rowU, chromaWidth), pv + Row(v, rowV, chromaWidth))
      && writes == before + width
  {
    ghost var us, vs := pu, pv;
    writes := before;
    for x := 0 to chromaWidth
      invariant start + 2 * x <= data.Length
      invariant us == pu + Row(u, rowU, x) && vs == pv + Row(v, rowV, x) && |us| == |vs|
      invariant 2 * chromaWidth == width ==> data[..start + 2 * x] == Image(luma, us, vs)
      invariant writes == before + 2 * x
    {
      ok := PutPair(data, start + 2 * x, u[rowU + x], v[rowV + x]);
      if !ok {
        return false, writes;
      }
      writes := writes + 2;
      ImageGrows(luma, us, vs, u[rowU + x], v[rowV + x]);
      RowGrows(pu, u, rowU, x);
      RowGrows(pv, v, rowV, x);
      us, vs := us + [u[rowU + x]], vs + [v[rowV + x]];
    }
    return true, writes;
  }

  // The two stores of the inner loop's body; each fails when it is out of bounds.
  method PutPair(data: array<Byte>, at: nat, uValue: Byte, vValue: Byte) returns (ok: bool)
    requires at <= data.Length
    modifies data
    ensures ok <==> at + 2 <= data.Length
    ensures ok ==> data[..at + 2] == old(data[..at]) + [vValue, uValue]
  {
    if at >= data.Length {
      return false;
    }
    data[at] := vValue;
    if at + 1 >= data.Length {
      return false;
    }
    data[at + 1] := uValue;
    return true;
  }
}
