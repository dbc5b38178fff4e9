/** Pixel repacking on both sides of the codec: the worker packs strided, cropped
    YUV planes to I420, the client interleaves I420 to NV12. */
module Pixels {
  import opened Bytes
  import opened CodecStatus

  const COLOR_YUV420_PLANAR: u32 := 19
  const COLOR_YUV420_SEMIPLANAR: u32 := 21
  const COLOR_YUV420_FLEXIBLE: u32 := 0x7f42_0888

  /** A mapped plane; `mapped` is false when one of the platform queries failed. */
  datatype Plane = Plane(mapped: bool, data: seq<byte>, rowStride: int, pixelStride: int)

  datatype Image = Image(isYuv420: bool, planes: seq<Plane>, left: int, top: int, right: int, bottom: int)

  predicate Usable(p: Plane)
  {
    p.mapped && |p.data| > 0 && p.rowStride > 0 && p.pixelStride > 0
  }

  /** Chroma planes are subsampled by two in both directions. */
  function Scaled(plane: nat, v: int): int
  {
    if plane == 0 then v else v / 2
  }

  // ------------------------------------------------------------ specification

  /** Byte index of pixel (row, column) of a plane cropped at (left, top). */
  function Offset(p: Plane, left: int, top: int, row: int, column: int): int
  {
    (top + row) * p.rowStride + left * p.pixelStride + column * p.pixelStride
  }

  predicate RowInside(p: Plane, left: int, top: int, width: int, row: int)
  {
    0 <= Offset(p, left, top, row, 0) && Offset(p, left, top, row, width - 1) < |p.data|
  }

  predicate Inside(p: Plane, left: int, top: int, width: int, height: int)
  {
    Usable(p) && forall row :: 0 <= row < height ==> RowInside(p, left, top, width, row)
  }

  lemma ColumnInside(p: Plane, left: int, top: int, width: int, row: int, column: int)
    requires Usable(p) && RowInside(p, left, top, width, row) && 0 <= column < width
    ensures 0 <= Offset(p, left, top, row, column) < |p.data|
  {
    Monotone(column, width - 1, p.pixelStride);
    Monotone(0, column, p.pixelStride);
  }

  lemma Monotone(a: int, b: int, k: int)
    requires a <= b && 0 <= k
    ensures a * k <= b * k
  {
  }

  function Pixel(p: Plane, left: int, top: int, width: int, row: int, column: int): byte
    requires Usable(p) && RowInside(p, left, top, width, row) && 0 <= column < width
  {
    ColumnInside(p, left, top, width, row, column);
    p.data[Offset(p, left, top, row, column)]
  }

  function Row(p: Plane, left: int, top: int, width: nat, row: int): (r: seq<byte>)
    requires Usable(p) && RowInside(p, left, top, width, row)
    ensures |r| == width
  {
    seq(width, c requires 0 <= c < width => Pixel(p, left, top, width, row, c))
  }

  /** The cropped plane in row-major order. */
  function Rows(p: Plane, left: int, top: int, width: nat, height: nat): (r: seq<byte>)
    requires Inside(p, left, top, width, height)
    ensures |r| == height * width
  {
    if height == 0 then []
    else
      assert height * width == (height - 1) * width + width;
      Rows(p, left, top, width, height - 1) + Row(p, left, top, width, height - 1)
  }

  /** Where pixel (row, column) ends up. */
  lemma {:induction false} RowsAt(p: Plane, left: int, top: int, width: nat, height: nat, row: nat, column: nat)
    requires Inside(p, left, top, width, height) && row < height && column < width
    ensures row * width + column < height * width
    ensures Rows(p, left, top, width, height)[row * width + column] == Pixel(p, left, top, width, row, column)
    decreases height
  {
    Monotone(row + 1, height, width);
    assert (row + 1) * width == row * width + width;
    if row < height - 1 {
      RowsAt(p, left, top, width, height - 1, row, column);
    } else {
      assert row * width == (height - 1) * width;
    }
  }

  function CropWidth(i: Image): int { i.right - i.left }

  function CropHeight(i: Image): int { i.bottom - i.top }

  predicate IsYuv(i: Image)
  {
    i.isYuv420 && |i.planes| == 3
  }

  predicate Fits(i: Image, capacity: nat)
  {
    var w, h := CropWidth(i), CropHeight(i);
    w > 0 && h > 0 && w % 2 == 0 && h % 2 == 0 && w * h * 3 / 2 <= capacity
  }

  predicate PlaneInside(i: Image, plane: nat)
    requires plane < |i.planes|
  {
    Inside(i.planes[plane], Scaled(plane, i.left), Scaled(plane, i.top),
           Scaled(plane, CropWidth(i)), Scaled(plane, CropHeight(i)))
  }

  function PlaneBytes(i: Image, plane: nat): (r: seq<byte>)
    requires plane < |i.planes| && CropWidth(i) >= 0 && CropHeight(i) >= 0 && PlaneInside(i, plane)
    ensures |r| == Scaled(plane, CropHeight(i)) * Scaled(plane, CropWidth(i))
  {
    Rows(i.planes[plane], Scaled(plane, i.left), Scaled(plane, i.top),
         Scaled(plane, CropWidth(i)), Scaled(plane, CropHeight(i)))
  }

  ghost predicate PlanesInside(i: Image, n: nat)
    requires n <= |i.planes|
  {
    forall k :: 0 <= k < n ==> PlaneInside(i, k)
  }

  /** Everything the packer insists on. */
  ghost predicate Packable(i: Image, capacity: nat)
  {
    IsYuv(i) && Fits(i, capacity) && PlanesInside(i, 3)
  }

  predicate EvenCrop(i: Image)
  {
    CropWidth(i) > 0 && CropHeight(i) > 0 && CropWidth(i) % 2 == 0 && CropHeight(i) % 2 == 0
  }

  function PlaneSize(i: Image, plane: nat): nat
    requires EvenCrop(i)
  {
    Scaled(plane, CropHeight(i)) * Scaled(plane, CropWidth(i))
  }

  /** Where plane n starts in the packed frame. */
  function Start(i: Image, n: nat): nat
    requires EvenCrop(i)
  {
    if n == 0 then 0 else Start(i, n - 1) + PlaneSize(i, n - 1)
  }

  /** The first n cropped planes, row-major, one after the other. */
  ghost function PackedPlanes(i: Image, n: nat): (r: seq<byte>)
    requires n <= |i.planes| && EvenCrop(i) && PlanesInside(i, n)
    ensures |r| == Start(i, n)
  {
    if n == 0 then [] else PackedPlanes(i, n - 1) + PlaneBytes(i, n - 1)
  }

  /** The packed frame: Y, then U, then V. */
  ghost function Packed(i: Image): (r: seq<byte>)
    requires IsYuv(i) && EvenCrop(i) && PlanesInside(i, 3)
  {
    PackedPlanes(i, 3)
  }

  lemma FrameLength(i: Image)
    requires EvenCrop(i)
    ensures Start(i, 3) == CropWidth(i) * CropHeight(i) * 3 / 2
    ensures Start(i, 0) <= Start(i, 1) <= Start(i, 2) <= Start(i, 3)
  {
    var w, h := CropWidth(i), CropHeight(i);
    var a, b := w / 2, h / 2;
    assert w == 2 * a && h == 2 * b;
    assert h * w == 4 * (b * a) && w * h == 4 * (b * a);
    assert Start(i, 1) == h * w;
    assert Start(i, 2) == h * w + b * a;
    assert Start(i, 3) == Start(i, 2) + PlaneSize(i, 2);
  }

  // ------------------------------------------------- the frame, sample by sample

  /** Where a plane keeps the sample at (row, column) of a crop at (left, top). */
  function SampleIndex(p: Plane, left: int, top: int, row: int, column: int): int
  {
    (top + row) * p.rowStride + (left + column) * p.pixelStride
  }

  lemma OffsetIsIndex(p: Plane, left: int, top: int, row: int, column: int)
    ensures Offset(p, left, top, row, column) == SampleIndex(p, left, top, row, column)
  {
  }

  /** Every sample of the crop is in the mapped data. */
  ghost predicate SamplesInside(p: Plane, left: int, top: int, width: int, height: int)
  {
    && p.mapped && |p.data| > 0 && p.rowStride > 0 && p.pixelStride > 0
    && forall row, column :: 0 <= row < height && 0 <= column < width ==>
         0 <= SampleIndex(p, left, top, row, column) < |p.data|
  }

  lemma InsideIff(p: Plane, left: int, top: int, width: int, height: int)
    requires width > 0
    ensures Inside(p, left, top, width, height) <==> SamplesInside(p, left, top, width, height)
  {
    if Inside(p, left, top, width, height) {
      forall row, column | 0 <= row < height && 0 <= column < width
        ensures 0 <= SampleIndex(p, left, top, row, column) < |p.data|
      {
        ColumnInside(p, left, top, width, row, column);
        OffsetIsIndex(p, left, top, row, column);
      }
    }
    if SamplesInside(p, left, top, width, height) {
      forall row | 0 <= row < height ensures RowInside(p, left, top, width, row) {
        OffsetIsIndex(p, left, top, row, 0);
        OffsetIsIndex(p, left, top, row, width - 1);
      }
    }
  }

  /** An image can be packed exactly when it has three YUV planes, its crop is even, not
      empty and within the capacity, and every luma sample of the crop and every chroma
      sample of the halved crop is mapped. */
  lemma PackableIff(i: Image, capacity: nat)
    ensures Packable(i, capacity) <==>
            && i.isYuv420 && |i.planes| == 3
            && var w, h := i.right - i.left, i.bottom - i.top;
               && w > 0 && h > 0 && w % 2 == 0 && h % 2 == 0 && w * h * 3 / 2 <= capacity
               && SamplesInside(i.planes[0], i.left, i.top, w, h)
               && SamplesInside(i.planes[1], i.left / 2, i.top / 2, w / 2, h / 2)
               && SamplesInside(i.planes[2], i.left / 2, i.top / 2, w / 2, h / 2)
  {
    if IsYuv(i) && Fits(i, capacity) {
      var w, h := i.right - i.left, i.bottom - i.top;
      InsideIff(i.planes[0], i.left, i.top, w, h);
      InsideIff(i.planes[1], i.left / 2, i.top / 2, w / 2, h / 2);
      InsideIff(i.planes[2], i.left / 2, i.top / 2, w / 2, h / 2);
      assert PlanesInside(i, 3) <==> PlaneInside(i, 0) && PlaneInside(i, 1) && PlaneInside(i, 2);
    }
  }

  lemma PlaneAt(i: Image, plane: nat, row: nat, column: nat)
    requires IsYuv(i) && EvenCrop(i) && PlanesInside(i, 3) && plane < 3
    requires row < Scaled(plane, CropHeight(i)) && column < Scaled(plane, CropWidth(i))
    ensures var k := Start(i, plane) + row * Scaled(plane, CropWidth(i)) + column;
            var n := SampleIndex(i.planes[plane], Scaled(plane, i.left), Scaled(plane, i.top), row, column);
            k < |Packed(i)| && 0 <= n < |i.planes[plane].data| && Packed(i)[k] == i.planes[plane].data[n]
  {
    var p, left, top := i.planes[plane], Scaled(plane, i.left), Scaled(plane, i.top);
    var w, h := Scaled(plane, CropWidth(i)), Scaled(plane, CropHeight(i));
    assert PlaneInside(i, plane);
    RowsAt(p, left, top, w, h, row, column);
    ColumnInside(p, left, top, w, row, column);
    OffsetIsIndex(p, left, top, row, column);
    PlaneSlice(i, 3, plane, row * w + column);
  }

  lemma {:induction false} PlaneSlice(i: Image, n: nat, plane: nat, k: nat)
    requires IsYuv(i) && EvenCrop(i) && n <= 3 && PlanesInside(i, n) && plane < n && k < PlaneSize(i, plane)
    ensures Start(i, plane) + k < Start(i, n) && PackedPlanes(i, n)[Start(i, plane) + k] == PlaneBytes(i, plane)[k]
  {
    if plane < n - 1 { PlaneSlice(i, n - 1, plane, k); }
  }

  /** The packed frame, sample by sample: the luma rows of the crop, then the two chroma
      planes of the halved crop. */
  lemma FrameAt(i: Image, row: nat, column: nat)
    requires IsYuv(i) && EvenCrop(i) && PlanesInside(i, 3)
    ensures var w, h := i.right - i.left, i.bottom - i.top;
            && (row < h && column < w ==>
                  SampleAt(Packed(i), row * w + column, i.planes[0], SampleIndex(i.planes[0], i.left, i.top, row, column)))
            && (row < h / 2 && column < w / 2 ==>
                  && SampleAt(Packed(i), h * w + row * (w / 2) + column, i.planes[1],
                              SampleIndex(i.planes[1], i.left / 2, i.top / 2, row, column))
                  && SampleAt(Packed(i), h * w + h / 2 * (w / 2) + row * (w / 2) + column, i.planes[2],
                              SampleIndex(i.planes[2], i.left / 2, i.top / 2, row, column)))
  {
    var w, h := i.right - i.left, i.bottom - i.top;
    assert Start(i, 1) == h * w;
    assert Start(i, 2) == h * w + h / 2 * (w / 2);
    if row < h && column < w { PlaneAt(i, 0, row, column); }
    if row < h / 2 && column < w / 2 {
      PlaneAt(i, 1, row, column);
      PlaneAt(i, 2, row, column);
    }
  }

  predicate SampleAt(frame: seq<byte>, k: int, p: Plane, n: int)
  {
    0 <= k < |frame| && 0 <= n < |p.data| && frame[k] == p.data[n]
  }

  // ------------------------------------------------------------- normalize_image

  /** One row; the contiguous case is a block copy, the other a loop. */
  method PackRow(p: Plane, left: int, top: int, width: nat, row: int, output: array<byte>, at: nat)
    requires Usable(p) && RowInside(p, left, top, width, row)
    requires at + width <= output.Length
    modifies output
    ensures output[at..at + width] == Row(p, left, top, width, row)
    ensures output[..at] == old(output[..at]) && output[at + width..] == old(output[at + width..])
  {
    var first := Offset(p, left, top, row, 0);
    if p.pixelStride == 1 {
      if width > 0 { ColumnInside(p, left, top, width, row, width - 1); }
      forall c | 0 <= c < width {
        output[at + c] := p.data[first + c];
      }
      forall c | 0 <= c < width
        ensures output[at + c] == Pixel(p, left, top, width, row, c)
      {
        assert first + c == Offset(p, left, top, row, c);
      }
    } else {
      var column := 0;
      while column < width
        invariant 0 <= column <= width
        invariant forall c :: 0 <= c < column ==> output[at + c] == Pixel(p, left, top, width, row, c)
        invariant output[..at] == old(output[..at]) && output[at + width..] == old(output[at + width..])
      {
        ColumnInside(p, left, top, width, row, column);
        output[at + column] := p.data[first + column * p.pixelStride];
        column := column + 1;
      }
    }
  }

  /** One plane: stops at the first row that leaves the mapped data. */
  method PackPlane(p: Plane, left: int, top: int, width: nat, height: nat, output: array<byte>, at: nat)
    returns (status: i32)
    requires Usable(p) && width > 0
    requires at + height * width <= output.Length
    modifies output
    ensures status == if Inside(p, left, top, width, height) then OK else ERROR_CODEC
    ensures status == OK ==> output[at..at + height * width] == Rows(p, left, top, width, height)
    ensures output[..at] == old(output[..at])
    ensures output[at + height * width..] == old(output[at + height * width..])
  {
    var row, done := 0, 0;
    while row < height
      invariant 0 <= row <= height
      invariant done == row * width <= height * width
      invariant Inside(p, left, top, width, row)
      invariant output[at..at + done] == Rows(p, left, top, width, row)
      invariant output[..at] == old(output[..at])
      invariant output[at + height * width..] == old(output[at + height * width..])
    {
      NextRow(row, height, width);
      if !RowInside(p, left, top, width, row) { return ERROR_CODEC; }
      ghost var before := output[..];
      PackRow(p, left, top, width, row, output, at + done);
      RowAppended(output[..], before, at, done, width, at + height * width);
      done := done + width;
      row := row + 1;
    }
    status := OK;
  }

  lemma NextRow(row: nat, height: nat, width: nat)
    requires row < height
    ensures (row + 1) * width == row * width + width <= height * width
  {
    Monotone(row + 1, height, width);
  }

  lemma RowAppended(now: seq<byte>, was: seq<byte>, at: nat, done: nat, width: nat, end: nat)
    requires at + done + width <= end <= |now| == |was|
    requires now[..at + done] == was[..at + done]
    requires now[at + done + width..] == was[at + done + width..]
    ensures now[at..at + done + width] == was[at..at + done] + now[at + done..at + done + width]
    ensures now[..at] == was[..at] && now[end..] == was[end..]
  {
    assert now[at..at + done] == now[..at + done][at..] == was[..at + done][at..] == was[at..at + done];
    assert now[..at] == now[..at + done][..at] && was[..at] == was[..at + done][..at];
    var k := end - (at + done + width);
    assert now[end..] == now[at + done + width..][k..] && was[end..] == was[at + done + width..][k..];
  }

  /** `normalize_image`: succeeds exactly on packable images, and then leaves
      exactly the packed frame and nothing else in the buffer. */
  method NormalizeImage(image: Image, output: array<byte>, capacity: nat) returns (status: i32, length: nat)
    requires capacity <= output.Length
    modifies output
    ensures status == OK <==> Packable(image, capacity)
    ensures status == OK ==> length == CropWidth(image) * CropHeight(image) * 3 / 2 <= capacity
    ensures status == OK ==> output[..length] == Packed(image) && output[length..] == old(output[length..])
    ensures output[capacity..] == old(output[capacity..])
    ensures !IsYuv(image) ==> status == ERROR_UNSUPPORTED
    ensures IsYuv(image) && !Fits(image, capacity) ==> status == ERROR_LIMIT
    ensures IsYuv(image) && Fits(image, capacity) && !Packable(image, capacity) ==> status == ERROR_CODEC
  {
    length := 0;
    if !image.isYuv420 || |image.planes| != 3 { return ERROR_UNSUPPORTED, 0; }
    var width, height := image.right - image.left, image.bottom - image.top;
    if width <= 0 || height <= 0 || width % 2 != 0 || height % 2 != 0 || width * height * 3 / 2 > capacity {
      return ERROR_LIMIT, 0;
    }
    FrameLength(image);
    ghost var total := Start(image, 3);
    status, length := PackPlanes(image, width, height, output);
    TailKept(output[..], old(output[..]), total, capacity);
  }

  /** The next plane behind the ones already packed. */
  method PackNext(image: Image, plane: nat, output: array<byte>, at: nat) returns (status: i32)
    requires IsYuv(image) && EvenCrop(image) && plane < 3 && PlanesInside(image, plane)
    requires at == Start(image, plane) && Start(image, plane + 1) <= output.Length
    requires output[..at] == PackedPlanes(image, plane)
    modifies output
    ensures status == if PlaneInside(image, plane) then OK else ERROR_CODEC
    ensures status == OK ==> PlanesInside(image, plane + 1)
                             && output[..Start(image, plane + 1)] == PackedPlanes(image, plane + 1)
    ensures output[Start(image, plane + 1)..] == old(output[Start(image, plane + 1)..])
  {
    ghost var before, size := output[..], PlaneSize(image, plane);
    assert at + size == Start(image, plane + 1);
    status := PackOne(image, plane, output, at);
    if status == OK {
      PrefixGrows(output[..], before, at, size, PackedPlanes(image, plane), PlaneBytes(image, plane));
    }
  }

  method PackPlanes(image: Image, width: nat, height: nat, output: array<byte>) returns (status: i32, length: nat)
    requires IsYuv(image) && EvenCrop(image) && Start(image, 3) <= output.Length
    requires width == CropWidth(image) && height == CropHeight(image)
    modifies output
    ensures status == if PlanesInside(image, 3) then OK else ERROR_CODEC
    ensures status == OK ==> length == Start(image, 3) && output[..length] == Packed(image)
    ensures output[Start(image, 3)..] == old(output[Start(image, 3)..])
  {
    FrameLength(image);
    ghost var total := Start(image, 3);
    length := 0;
    var plane := 0;
    while plane < 3
      invariant 0 <= plane <= 3
      invariant PlanesInside(image, plane)
      invariant length == Start(image, plane) && output[..length] == PackedPlanes(image, plane)
      invariant output[total..] == old(output[total..])
    {
      ghost var before := output[..];
      ghost var next := Start(image, plane + 1);
      assert next <= total;
      status := PackNext(image, plane, output, length);
      TailKept(output[..], before, next, total);
      if status != OK { return status, 0; }
      length := length + Scaled(plane, height) * Scaled(plane, width);
      plane := plane + 1;
    }
    status := OK;
  }

  method PackOne(image: Image, plane: nat, output: array<byte>, at: nat) returns (status: i32)
    requires IsYuv(image) && EvenCrop(image) && plane < 3
    requires at + PlaneSize(image, plane) <= output.Length
    modifies output
    ensures status == if PlaneInside(image, plane) then OK else ERROR_CODEC
    ensures status == OK ==> output[at..at + PlaneSize(image, plane)] == PlaneBytes(image, plane)
    ensures output[..at] == old(output[..at])
    ensures output[at + PlaneSize(image, plane)..] == old(output[at + PlaneSize(image, plane)..])
  {
    var p := image.planes[plane];
    if !p.mapped || |p.data| <= 0 || p.rowStride <= 0 || p.pixelStride <= 0 { return ERROR_CODEC; }
    status := PackPlane(p, Scaled(plane, image.left), Scaled(plane, image.top),
                        Scaled(plane, CropWidth(image)), Scaled(plane, CropHeight(image)), output, at);
  }

  lemma PrefixGrows(now: seq<byte>, was: seq<byte>, at: nat, size: nat, head: seq<byte>, part: seq<byte>)
    requires at + size <= |now| == |was|
    requires now[..at] == was[..at] == head && now[at..at + size] == part
    ensures now[..at + size] == head + part
  {
    assert now[..at + size] == now[..at] + now[at..at + size];
  }

  lemma TailKept(now: seq<byte>, was: seq<byte>, total: nat, capacity: nat)
    requires total <= capacity <= |now| == |was| && now[total..] == was[total..]
    ensures now[capacity..] == was[capacity..]
  {
    assert now[capacity..] == now[total..][capacity - total..];
    assert was[capacity..] == was[total..][capacity - total..];
  }

  // ---------------------------------------------------- convert_i420_for_encoder

  /** NV12: the luma plane, then U and V samples alternating. */
  function Interleaved(frame: seq<byte>, ySize: nat, chroma: nat): (r: seq<byte>)
    requires |frame| == ySize + 2 * chroma
    ensures |r| == |frame|
  {
    seq(|frame|, k requires 0 <= k < |frame| =>
      if k < ySize then frame[k]
      else if (k - ySize) % 2 == 0 then frame[ySize + (k - ySize) / 2]
      else frame[ySize + chroma + (k - ySize) / 2])
  }

  method ConvertForEncoder(color: u32, width: nat, height: nat, i420: seq<byte>, converted: array<byte>)
    returns (result: int, input: seq<byte>)
    requires |i420| == width * height + 2 * (width * height / 4) && converted.Length == |i420|
    modifies converted
    ensures color == COLOR_YUV420_SEMIPLANAR ==>
              result == 0 && input == converted[..] == Interleaved(i420, width * height, width * height / 4)
    ensures color != COLOR_YUV420_SEMIPLANAR ==> input == i420 && converted[..] == old(converted[..])
    ensures result == 0 <==>
            color == COLOR_YUV420_SEMIPLANAR || color == COLOR_YUV420_PLANAR || color == COLOR_YUV420_FLEXIBLE
  {
    var ySize, chroma := width * height, width * height / 4;
    input := i420;
    if color == COLOR_YUV420_SEMIPLANAR {
      forall k | 0 <= k < ySize { converted[k] := i420[k]; }
      var target := Interleaved(i420, ySize, chroma);
      var index := 0;
      while index < chroma
        invariant 0 <= index <= chroma
        invariant forall k :: 0 <= k < ySize + 2 * index ==> converted[k] == target[k]
      {
        converted[ySize + index * 2] := i420[ySize + index];
        converted[ySize + index * 2 + 1] := i420[ySize + chroma + index];
        index := index + 1;
      }
      assert converted[..] == target;
      input := converted[..];
    } else if color != COLOR_YUV420_PLANAR && color != COLOR_YUV420_FLEXIBLE {
      return 1, input;
    }
    result := 0;
  }

  // --------------------------------------------------------------- round trip

  /** An NV12 buffer seen as a three-plane image, as the platform exposes it. */
  function Nv12View(nv12: seq<byte>, width: nat, height: nat): Image
    requires |nv12| > width * height
  {
    Image(true,
          [Plane(true, nv12[..width * height], width, 1),
           Plane(true, nv12[width * height..], width, 2),
           Plane(true, nv12[width * height + 1..], width, 2)],
          0, 0, width, height)
  }

  function Index(width: nat, row: nat, column: nat): nat
  {
    row * width + column
  }

  /** Position i of a w-wide plane is pixel (i / w, i % w). */
  lemma RowsByIndex(p: Plane, width: nat, height: nat, expected: seq<byte>)
    requires width > 0 && Inside(p, 0, 0, width, height) && |expected| == height * width
    requires forall r: nat, c: nat :: r < height && c < width ==>
               Index(width, r, c) < |expected| && expected[Index(width, r, c)] == Pixel(p, 0, 0, width, r, c)
    ensures Rows(p, 0, 0, width, height) == expected
  {
    var rows := Rows(p, 0, 0, width, height);
    forall i | 0 <= i < |expected|
      ensures rows[i] == expected[i]
    {
      var r, c := i / width, i % width;
      assert i == Index(width, r, c);
      if r >= height { Monotone(height, r, width); }
      RowsAt(p, 0, 0, width, height, r, c);
    }
  }

  lemma GridIndex(p: Plane, width: nat, height: nat, r: nat, c: nat)
    requires r < height && c < width && p.rowStride == width * p.pixelStride
    ensures Index(width, r, c) < height * width
    ensures Offset(p, 0, 0, r, c) == Index(width, r, c) * p.pixelStride
  {
    Monotone(r + 1, height, width);
    assert (r + 1) * width == r * width + width;
    assert r * (width * p.pixelStride) == r * width * p.pixelStride;
    assert Index(width, r, c) * p.pixelStride == r * width * p.pixelStride + c * p.pixelStride;
  }

  /** Sample k of the plane is sample start + k of the frame. */
  predicate Sample(p: Plane, frame: seq<byte>, start: nat, k: nat)
  {
    0 <= k * p.pixelStride < |p.data| && start + k < |frame| && p.data[k * p.pixelStride] == frame[start + k]
  }

  lemma PlaneIsSlice(p: Plane, width: nat, height: nat, frame: seq<byte>, start: nat)
    requires Usable(p) && width > 0 && p.rowStride == width * p.pixelStride
    requires start + height * width <= |frame|
    requires forall k: nat :: k < height * width ==> Sample(p, frame, start, k)
    ensures Inside(p, 0, 0, width, height)
    ensures Rows(p, 0, 0, width, height) == frame[start..start + height * width]
  {
    forall row | 0 <= row < height
      ensures RowInside(p, 0, 0, width, row)
    {
      GridIndex(p, width, height, row, 0);
      GridIndex(p, width, height, row, width - 1);
      assert Sample(p, frame, start, Index(width, row, 0));
      assert Sample(p, frame, start, Index(width, row, width - 1));
    }
    var expected := frame[start..start + height * width];
    forall r: nat, c: nat | r < height && c < width
      ensures Index(width, r, c) < |expected| && expected[Index(width, r, c)] == Pixel(p, 0, 0, width, r, c)
    {
      GridIndex(p, width, height, r, c);
      assert Sample(p, frame, start, Index(width, r, c));
    }
    RowsByIndex(p, width, height, expected);
  }

  lemma EvenSizes(width: nat, height: nat)
    requires width > 0 && height > 0 && width % 2 == 0 && height % 2 == 0
    ensures height / 2 * (width / 2) == width * height / 4 >= 1
    ensures width * height == height * width == 4 * (width * height / 4)
  {
    var a, b := width / 2, height / 2;
    assert width == 2 * a && height == 2 * b;
    assert width * height == 4 * (b * a);
    Monotone(1, b, a);
  }

  lemma {:induction false} LumaSamples(frame: seq<byte>, width: nat, ySize: nat, chroma: nat)
    requires |frame| == ySize + 2 * chroma
    ensures var p := Plane(true, Interleaved(frame, ySize, chroma)[..ySize], width, 1);
            forall k: nat :: k < ySize ==> Sample(p, frame, 0, k)
  {
  }

  lemma {:induction false} ChromaSamples(frame: seq<byte>, width: nat, ySize: nat, chroma: nat)
    requires |frame| == ySize + 2 * chroma && chroma >= 1
    ensures var u := Plane(true, Interleaved(frame, ySize, chroma)[ySize..], width, 2);
            forall k: nat :: k < chroma ==> Sample(u, frame, ySize, k)
    ensures var v, start := Plane(true, Interleaved(frame, ySize, chroma)[ySize + 1..], width, 2), ySize + chroma;
            forall k: nat :: k < chroma ==> Sample(v, frame, start, k)
  {
    var nv12 := Interleaved(frame, ySize, chroma);
    forall k: nat | k < chroma
      ensures nv12[ySize..][k * 2] == frame[ySize + k]
      ensures nv12[ySize + 1..][k * 2] == frame[ySize + chroma + k]
    {
      assert nv12[ySize..][k * 2] == nv12[ySize + 2 * k];
      assert nv12[ySize + 1..][k * 2] == nv12[ySize + 2 * k + 1];
    }
  }

  /** Packing the NV12 form of a frame gives the frame back, for every even size. */
  lemma {:induction false} Nv12RoundTrip(frame: seq<byte>, width: nat, height: nat)
    requires width > 0 && height > 0 && width % 2 == 0 && height % 2 == 0
    requires |frame| == width * height + 2 * (width * height / 4)
    ensures |frame| > width * height
    ensures var view := Nv12View(Interleaved(frame, width * height, width * height / 4), width, height);
            Packable(view, |frame|) && Packed(view) == frame
  {
    EvenSizes(width, height);
    Nv12Planes(frame, width, height, width * height, width * height / 4);
  }

  lemma Nv12Planes(frame: seq<byte>, width: nat, height: nat, ySize: nat, chroma: nat)
    requires width > 0 && height > 0 && width % 2 == 0 && height % 2 == 0
    requires ySize == width * height == height * width && chroma == ySize / 4 >= 1 && height / 2 * (width / 2) == chroma
    requires |frame| == ySize + 2 * chroma
    ensures Packable(Nv12View(Interleaved(frame, ySize, chroma), width, height), |frame|)
    ensures Packed(Nv12View(Interleaved(frame, ySize, chroma), width, height)) == frame
  {
    var view := Nv12View(Interleaved(frame, ySize, chroma), width, height);
    LumaSamples(frame, width, ySize, chroma);
    ChromaSamples(frame, width, ySize, chroma);
    PlaneIsSlice(view.planes[0], width, height, frame, 0);
    HalfPlane(view.planes[1], width, height, frame, ySize);
    HalfPlane(view.planes[2], width, height, frame, ySize + chroma);
    ThreeSlices(view, frame, ySize, chroma);
  }

  lemma HalfPlane(p: Plane, width: nat, height: nat, frame: seq<byte>, start: nat)
    requires Usable(p) && p.rowStride == width && p.pixelStride == 2
    requires width > 0 && height > 0 && width % 2 == 0 && height % 2 == 0
    requires start + width * height / 4 <= |frame|
    requires forall k: nat :: k < width * height / 4 ==> Sample(p, frame, start, k)
    ensures Inside(p, 0, 0, width / 2, height / 2)
    ensures Rows(p, 0, 0, width / 2, height / 2) == frame[start..start + width * height / 4]
  {
    EvenSizes(width, height);
    PlaneIsSlice(p, width / 2, height / 2, frame, start);
  }

  lemma ThreeSlices(view: Image, frame: seq<byte>, ySize: nat, chroma: nat)
    requires IsYuv(view) && EvenCrop(view) && view.left == 0 && view.top == 0
    requires PlanesInside(view, 3) && |frame| == ySize + 2 * chroma
    requires PlaneBytes(view, 0) == frame[0..ySize]
    requires PlaneBytes(view, 1) == frame[ySize..ySize + chroma]
    requires PlaneBytes(view, 2) == frame[ySize + chroma..ySize + chroma + chroma]
    ensures Packable(view, |frame|) && Packed(view) == frame
  {
    FrameLength(view);
    assert PackedPlanes(view, 1) == PackedPlanes(view, 0) + PlaneBytes(view, 0) == frame[..ySize];
    assert PackedPlanes(view, 2) == PackedPlanes(view, 1) + PlaneBytes(view, 1) == frame[..ySize + chroma];
  }
}
