/**
 * What the IDX decoders of module Mnist compute, in closed form: the header
 * layout, and, under a header whose sizes need no 32-bit wrap-around, image
 * `i` holding pixel `k` from byte `16 + i * width * height + k`, or the
 * end-of-file error when the file is shorter than its header claims.
 */
module MnistLaws {
  import opened Results
  import opened Mnist

  const IntLimit: int := 0x8000_0000

  /** Sizes for which `width * height`, `h * width + w`, `width - 1` and `height - 1` do not wrap. */
  predicate Sane(width: int, height: int) {
    0 <= width < IntLimit && 0 <= height < IntLimit && width * height < IntLimit
  }

  /** `data` with entries `lo..hi-1` set from the grey bytes starting at `pos`. */
  function Written(data: seq<Pixel>, bytes: seq<byte>, pos: nat, lo: int, hi: int): (r: seq<Pixel>)
    requires 0 <= lo <= hi <= |data|
    requires pos + (hi - lo) <= |bytes|
    ensures |r| == |data|
    ensures forall k :: 0 <= k < |data| ==>
      r[k] == if lo <= k < hi then GenRgb(bytes[pos + (k - lo)] as int) else data[k]
  {
    seq(|data|, k requires 0 <= k < |data| =>
      if lo <= k < hi then GenRgb(bytes[pos + (k - lo)] as int) else data[k])
  }

  /** The pixels of `n` grey bytes from `pos` on. */
  function Pixels(bytes: seq<byte>, pos: nat, n: nat): (r: seq<Pixel>)
    requires pos + n <= |bytes|
    ensures |r| == n
    ensures forall k :: 0 <= k < n ==> r[k] == GenRgb(bytes[pos + k] as int)
  {
    seq(n, k requires 0 <= k < n => GenRgb(bytes[pos + k] as int))
  }

  /** `count` images of `width` × `height` pixels laid out one after another from `pos`. */
  function Images(bytes: seq<byte>, pos: nat, count: nat, width: nat, height: nat): (r: seq<Image>)
    requires pos + count * (width * height) <= |bytes|
    ensures |r| == count
    decreases count
  {
    if count == 0 then []
    else
      assert count * (width * height) == (count - 1) * (width * height) + width * height;
      [Image(width, height, Pixels(bytes, pos, width * height))]
        + Images(bytes, pos + width * height, count - 1, width, height)
  }

  // ---------------------------------------------------------------------------
  // Writing one row step by step.

  lemma WrittenEmpty(data: seq<Pixel>, bytes: seq<byte>, pos: nat, lo: int)
    requires 0 <= lo <= |data| && pos <= |bytes|
    ensures Written(data, bytes, pos, lo, lo) == data
  {
  }

  lemma WrittenStep(data: seq<Pixel>, bytes: seq<byte>, pos: nat, lo: int, hi: int)
    requires 0 <= lo < hi <= |data|
    requires pos + (hi - lo) <= |bytes|
    ensures Written(data[lo := GenRgb(bytes[pos] as int)], bytes, pos + 1, lo + 1, hi)
         == Written(data, bytes, pos, lo, hi)
  {
  }

  lemma WrittenCompose(data: seq<Pixel>, bytes: seq<byte>, pos: nat, lo: int, mid: int, hi: int)
    requires 0 <= lo <= mid <= hi <= |data|
    requires pos + (hi - lo) <= |bytes|
    ensures Written(Written(data, bytes, pos, lo, mid), bytes, pos + (mid - lo), mid, hi)
         == Written(data, bytes, pos, lo, hi)
  {
  }

  lemma MultiplyMonotone(a: int, b: int, c: int)
    requires 0 <= a <= b && 0 <= c
    ensures a * c <= b * c
  {
  }

  /**
   * The products the row loops meet from row `h` on: `lo` = h * width is where
   * row `h` starts and `count` = (height - h) * width the pixels from there on.
   */
  lemma RowsStep(h: int, height: int, width: int)
    requires 0 <= h <= height && 0 <= width
    ensures 0 <= h * width && 0 <= (height - h) * width
    ensures h * width + (height - h) * width == height * width
    ensures h == height ==> (height - h) * width == 0
    ensures h < height ==> (h + 1) * width == h * width + width
    ensures h < height ==> (height - (h + 1)) * width == (height - h) * width - width
    ensures h < height ==> width <= (height - h) * width
  {
    MultiplyMonotone(h, height, width);
    if h < height {
      MultiplyMonotone(1, height - h, width);
    }
  }

  /** Columns `w..width-1` of the row starting at `lo`, when the bytes last and the row lies inside `data`. */
  lemma {:induction false} FillRowLaw(bytes: seq<byte>, pos: nat, data: seq<Pixel>, width: int, h: int, w: int, lo: int)
    requires 0 <= w <= width && 0 <= lo == h * width
    requires lo + width <= |data| < IntLimit
    requires pos + (width - w) <= |bytes|
    ensures FillRow(bytes, pos, data, width, h, w, width - 1)
         == Ok((Written(data, bytes, pos, lo + w, lo + width), pos + (width - w)))
    decreases width - w
  {
    if w == width {
      WrittenEmpty(data, bytes, pos, lo + w);
    } else {
      assert Wrap32(h * width + w) == lo + w;
      var next := data[lo + w := GenRgb(bytes[pos] as int)];
      FillRowLaw(bytes, pos + 1, next, width, h, w + 1, lo);
      WrittenStep(data, bytes, pos, lo + w, lo + width);
    }
  }

  /** A row that runs out of bytes: end of file. */
  lemma {:induction false} FillRowShort(bytes: seq<byte>, pos: nat, data: seq<Pixel>, width: int, h: int, w: int, lo: int)
    requires 0 <= w <= width && 0 <= lo == h * width
    requires lo + width <= |data| < IntLimit
    requires pos <= |bytes| < pos + (width - w)
    ensures FillRow(bytes, pos, data, width, h, w, width - 1) == Err(EndOfFile)
    decreases width - w
  {
    if pos < |bytes| {
      assert Wrap32(h * width + w) == lo + w;
      FillRowShort(bytes, pos + 1, data[lo + w := GenRgb(bytes[pos] as int)], width, h, w + 1, lo);
    }
  }

  /** Rows `h..height-1`, the `count` pixels from `lo` on, when the bytes last. */
  lemma {:induction false} FillRowsLaw(bytes: seq<byte>, pos: nat, data: seq<Pixel>, width: int, h: int, height: int,
                                       lo: int, count: int)
    requires 0 <= h <= height && 0 <= width
    requires lo == h * width && count == (height - h) * width
    requires lo + count <= |data| < IntLimit
    requires pos + count <= |bytes|
    ensures 0 <= lo && 0 <= count
    ensures FillRows(bytes, pos, data, width, h, height - 1, width - 1)
         == Ok((Written(data, bytes, pos, lo, lo + count), pos + count))
    decreases height - h
  {
    RowsStep(h, height, width);
    if h == height {
      WrittenEmpty(data, bytes, pos, lo);
    } else {
      FillRowLaw(bytes, pos, data, width, h, 0, lo);
      var rowData := Written(data, bytes, pos, lo, lo + width);
      assert FillRows(bytes, pos, data, width, h, height - 1, width - 1)
          == FillRows(bytes, pos + width, rowData, width, h + 1, height - 1, width - 1);
      FillRowsLaw(bytes, pos + width, rowData, width, h + 1, height, lo + width, count - width);
      WrittenCompose(data, bytes, pos, lo, lo + width, lo + count);
    }
  }

  /** Rows that run out of bytes: end of file. */
  lemma {:induction false} FillRowsShort(bytes: seq<byte>, pos: nat, data: seq<Pixel>, width: int, h: int, height: int,
                                         lo: int, count: int)
    requires 0 <= h <= height && 0 <= width
    requires lo == h * width && count == (height - h) * width
    requires lo + count <= |data| < IntLimit
    requires pos <= |bytes| < pos + count
    ensures FillRows(bytes, pos, data, width, h, height - 1, width - 1) == Err(EndOfFile)
    decreases height - h
  {
    RowsStep(h, height, width);
    if |bytes| < pos + width {
      FillRowShort(bytes, pos, data, width, h, 0, lo);
    } else {
      FillRowLaw(bytes, pos, data, width, h, 0, lo);
      var rowData := Written(data, bytes, pos, lo, lo + width);
      FillRowsShort(bytes, pos + width, rowData, width, h + 1, height, lo + width, count - width);
    }
  }

  // ---------------------------------------------------------------------------
  // Whole images.

  /** One image: `width * height` pixels from as many bytes. */
  lemma ReadImageLaw(bytes: seq<byte>, pos: nat, width: int, height: int)
    requires Sane(width, height)
    requires pos + width * height <= |bytes|
    ensures ReadImage(bytes, pos, width, height) == Ok((Pixels(bytes, pos, width * height), pos + width * height))
  {
    var n := width * height;
    assert height * width == n;
    var blank := seq(n, _ => Unset);
    assert NewPixels(Wrap32(n)) == Ok(blank);
    assert Wrap32(height - 1) == height - 1 && Wrap32(width - 1) == width - 1;
    FillRowsLaw(bytes, pos, blank, width, 0, height, 0, n);
    assert Written(blank, bytes, pos, 0, n) == Pixels(bytes, pos, n);
  }

  /** One image without enough bytes left: end of file. */
  lemma ReadImageShort(bytes: seq<byte>, pos: nat, width: int, height: int)
    requires Sane(width, height)
    requires pos <= |bytes| < pos + width * height
    ensures ReadImage(bytes, pos, width, height) == Err(EndOfFile)
  {
    var n := width * height;
    assert height * width == n;
    var blank := seq(n, _ => Unset);
    assert NewPixels(Wrap32(n)) == Ok(blank);
    assert Wrap32(height - 1) == height - 1 && Wrap32(width - 1) == width - 1;
    FillRowsShort(bytes, pos, blank, width, 0, height, 0, n);
  }

  /** The remaining images, when the bytes last. */
  lemma {:induction false} ReadImagesLaw(bytes: seq<byte>, pos: nat, remaining: nat, width: int, height: int, images: seq<Image>)
    requires Sane(width, height)
    requires pos + remaining * (width * height) <= |bytes|
    ensures ReadImages(bytes, pos, remaining, width, height, images)
         == Ok(images + Images(bytes, pos, remaining, width, height))
    decreases remaining
  {
    if remaining > 0 {
      var n := width * height;
      assert remaining * n == (remaining - 1) * n + n;
      ReadImageLaw(bytes, pos, width, height);
      var image := Image(width, height, Pixels(bytes, pos, n));
      assert ReadImages(bytes, pos, remaining, width, height, images)
          == ReadImages(bytes, pos + n, remaining - 1, width, height, images + [image]);
      ReadImagesLaw(bytes, pos + n, remaining - 1, width, height, images + [image]);
      assert images + [image] + Images(bytes, pos + n, remaining - 1, width, height)
          == images + Images(bytes, pos, remaining, width, height);
    } else {
      assert images + [] == images;
    }
  }

  /** More images claimed than the bytes hold: end of file. */
  lemma {:induction false} ReadImagesShort(bytes: seq<byte>, pos: nat, remaining: nat, width: int, height: int, images: seq<Image>)
    requires Sane(width, height)
    requires pos <= |bytes| < pos + remaining * (width * height)
    ensures ReadImages(bytes, pos, remaining, width, height, images) == Err(EndOfFile)
    decreases remaining
  {
    var n := width * height;
    assert remaining * n == (remaining - 1) * n + n;
    if |bytes| < pos + n {
      ReadImageShort(bytes, pos, width, height);
    } else {
      ReadImageLaw(bytes, pos, width, height);
      ReadImagesShort(bytes, pos + n, remaining - 1, width, height, images + [Image(width, height, Pixels(bytes, pos, n))]);
    }
  }

  /** Image `j` of `Images` starts `j * width * height` bytes after the first. */
  lemma {:induction false} ImagesAt(bytes: seq<byte>, pos: nat, count: nat, width: nat, height: nat, j: nat)
    requires pos + count * (width * height) <= |bytes|
    requires j < count
    ensures pos + j * (width * height) + width * height <= |bytes|
    ensures Images(bytes, pos, count, width, height)[j]
         == Image(width, height, Pixels(bytes, pos + j * (width * height), width * height))
    decreases count
  {
    var n := width * height;
    assert count * n == (count - 1) * n + n;
    MultiplyMonotone(j + 1, count, n);
    assert (j + 1) * n == j * n + n;
    if j > 0 {
      ImagesAt(bytes, pos + n, count - 1, width, height, j - 1);
      assert (j - 1) * n + n == j * n;
    }
  }

  // ---------------------------------------------------------------------------
  // Image files.

  /** The header: magic word 0x803, then count, height and width, each a big-endian word. */
  lemma ImageHeaderLayout(bytes: seq<byte>)
    ensures ReadImageHeader(bytes).Ok? <==>
      |bytes| >= ImageHeaderSize && BigEndianInt(bytes[0], bytes[1], bytes[2], bytes[3]) == ImageFileMagic
    ensures |bytes| >= 4 && BigEndianInt(bytes[0], bytes[1], bytes[2], bytes[3]) != ImageFileMagic ==>
      ReadImageHeader(bytes) == Err(BadMagic(BigEndianInt(bytes[0], bytes[1], bytes[2], bytes[3])))
    ensures ReadImageHeader(bytes).Ok? ==>
      ReadImageHeader(bytes).value == ImageHeader(BigEndianInt(bytes[4], bytes[5], bytes[6], bytes[7]),
                                                  BigEndianInt(bytes[8], bytes[9], bytes[10], bytes[11]),
                                                  BigEndianInt(bytes[12], bytes[13], bytes[14], bytes[15]))
  {
  }

  lemma DecodeImageFileUnfold(bytes: seq<byte>, count: int, height: int, width: int)
    requires ReadImageHeader(bytes) == Ok(ImageHeader(count, height, width))
    ensures DecodeImageFile(bytes) == ReadImages(bytes, ImageHeaderSize, Times(count), width, height, [])
  {
  }

  /**
   * A file with a sane header and at least `count * width * height` pixel bytes
   * decodes to `count` images laid out one after another.
   */
  lemma DecodeImageFileLaw(bytes: seq<byte>, count: int, height: int, width: int)
    requires ReadImageHeader(bytes) == Ok(ImageHeader(count, height, width))
    requires Sane(width, height)
    requires ImageHeaderSize + Times(count) * (width * height) <= |bytes|
    ensures DecodeImageFile(bytes) == Ok(Images(bytes, ImageHeaderSize, Times(count), width, height))
  {
    DecodeImageFileUnfold(bytes, count, height, width);
    ReadImagesLaw(bytes, ImageHeaderSize, Times(count), width, height, []);
    assert [] + Images(bytes, ImageHeaderSize, Times(count), width, height)
        == Images(bytes, ImageHeaderSize, Times(count), width, height);
  }

  /** A file with a sane header and fewer pixel bytes than it claims: end of file. */
  lemma DecodeImageFileShort(bytes: seq<byte>, count: int, height: int, width: int)
    requires ReadImageHeader(bytes) == Ok(ImageHeader(count, height, width))
    requires Sane(width, height)
    requires |bytes| < ImageHeaderSize + Times(count) * (width * height)
    ensures DecodeImageFile(bytes) == Err(EndOfFile)
  {
    ImageHeaderLayout(bytes);
    DecodeImageFileUnfold(bytes, count, height, width);
    ReadImagesShort(bytes, ImageHeaderSize, Times(count), width, height, []);
  }

  lemma RowColumnBound(h: nat, w: nat, width: int, height: int)
    requires h < height && w < width
    ensures h * width + w < width * height
  {
    MultiplyMonotone(h + 1, height, width);
    assert (h + 1) * width == h * width + width;
    assert height * width == width * height;
  }

  /**
   * Pixel (`h`, `w`) of image `j` of `Images` — stored at `h * width + w`, as the
   * loops write it — is the grey byte `pos + j * width * height + h * width + w`, inverted.
   */
  lemma ImagesPixel(bytes: seq<byte>, pos: nat, count: nat, width: nat, height: nat, j: nat, h: nat, w: nat)
    requires pos + count * (width * height) <= |bytes|
    requires j < count && h < height && w < width
    ensures h * width + w < |Images(bytes, pos, count, width, height)[j].data|
    ensures pos + j * (width * height) + (h * width + w) < |bytes|
    ensures Images(bytes, pos, count, width, height)[j].data[h * width + w]
         == GenRgb(bytes[pos + j * (width * height) + (h * width + w)] as int)
  {
    RowColumnBound(h, w, width, height);
    ImagesAt(bytes, pos, count, width, height, j);
  }

  // ---------------------------------------------------------------------------
  // Label files.

  /** The header: magic word 0x801, then the count. */
  lemma LabelHeaderLayout(bytes: seq<byte>)
    ensures ReadLabelHeader(bytes).Ok? <==>
      |bytes| >= LabelHeaderSize && BigEndianInt(bytes[0], bytes[1], bytes[2], bytes[3]) == LabelFileMagic
    ensures |bytes| >= 4 && BigEndianInt(bytes[0], bytes[1], bytes[2], bytes[3]) != LabelFileMagic ==>
      ReadLabelHeader(bytes) == Err(BadMagic(BigEndianInt(bytes[0], bytes[1], bytes[2], bytes[3])))
    ensures ReadLabelHeader(bytes).Ok? ==>
      ReadLabelHeader(bytes).value == BigEndianInt(bytes[4], bytes[5], bytes[6], bytes[7])
  {
  }

  /** A label file decodes iff its header does and the bytes hold `count` labels, each a signed byte. */
  lemma DecodeLabelFileLaw(bytes: seq<byte>)
    ensures DecodeLabelFile(bytes).Ok? <==>
      ReadLabelHeader(bytes).Ok? && LabelHeaderSize + Times(ReadLabelHeader(bytes).value) <= |bytes|
    ensures DecodeLabelFile(bytes).Ok? ==>
      var labels := DecodeLabelFile(bytes).value;
      |labels| == Times(ReadLabelHeader(bytes).value)
      && forall k :: 0 <= k < |labels| ==>
           -128 <= labels[k] < 128 && (labels[k] - bytes[LabelHeaderSize + k] as int) % 256 == 0
  {
    if DecodeLabelFile(bytes).Ok? {
      var labels := DecodeLabelFile(bytes).value;
      forall k | 0 <= k < |labels|
        ensures -128 <= labels[k] < 128 && (labels[k] - bytes[LabelHeaderSize + k] as int) % 256 == 0
      {
        assert labels[k] == SignedByte(bytes[LabelHeaderSize + k]);
      }
    }
  }
}
