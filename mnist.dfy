/**
 * Decoders of the IDX files of the MNIST data set (Mnist.kt), over the bytes of a
 * file. A file is read as a stream: big-endian 32-bit words and unsigned bytes
 * taken in order, a read past the end raising an end-of-file error.
 */
module Mnist {
  import opened Results

  /** An unsigned byte of a file. */
  newtype byte = b: int | 0 <= b < 256

  const ImageFileMagic: int := 0x0000_0803
  const LabelFileMagic: int := 0x0000_0801
  /** Offset of the first pixel: magic, count, height, width. */
  const ImageHeaderSize: nat := 16
  /** Offset of the first label: magic, count. */
  const LabelHeaderSize: nat := 8

  const TestImageFile := "t10k-images.idx3-ubyte"
  const TestLabelFile := "t10k-labels.idx1-ubyte"
  const TrainingImageFile := "train-images.idx3-ubyte"
  const TrainingLabelFile := "train-labels.idx1-ubyte"

  datatype MnistError =
    | FileNotFound(name: string)
    | BadMagic(found: int)
    | EndOfFile
    | NegativeArraySize(size: int)
    | IndexOutOfBounds(index: int)

  /** A pixel colour; `Unset` is the 0 that a fresh pixel array holds. */
  datatype Pixel = Unset | Rgb(red: int, green: int, blue: int)

  datatype Image = Image(width: int, height: int, data: seq<Pixel>)

  datatype LabeledDigitImage = LabeledDigitImage(image: Image, labelByte: int)

  /** The signed 32-bit integer congruent to `x` (JVM `Int` arithmetic). */
  function Wrap32(x: int): (r: int)
    ensures -0x8000_0000 <= r < 0x8000_0000
    ensures -0x8000_0000 <= x < 0x8000_0000 ==> r == x
  {
    var m := x % 0x1_0000_0000;
    if m >= 0x8000_0000 then m - 0x1_0000_0000 else m
  }

  /** Wrapping keeps the value modulo 2^32. */
  lemma Wrap32Congruent(x: int)
    ensures (Wrap32(x) - x) % 0x1_0000_0000 == 0
  {
  }

  /** Four bytes, most significant first, as a signed 32-bit integer. */
  function BigEndianInt(b0: byte, b1: byte, b2: byte, b3: byte): (r: int)
    ensures -0x8000_0000 <= r < 0x8000_0000
    ensures b0 < 0x80 ==> r == b0 as int * 0x100_0000 + b1 as int * 0x1_0000 + b2 as int * 0x100 + b3 as int
  {
    Wrap32(b0 as int * 0x100_0000 + b1 as int * 0x1_0000 + b2 as int * 0x100 + b3 as int)
  }

  /** `readInt`: the word at `pos` and the position after it. */
  function ReadInt(bytes: seq<byte>, pos: nat): (r: Result<(int, nat), MnistError>)
    ensures r.Err? <==> |bytes| < pos + 4
    ensures r.Err? ==> r.error == EndOfFile
    ensures r.Ok? ==> r.value.1 == pos + 4 && -0x8000_0000 <= r.value.0 < 0x8000_0000
  {
    if pos + 4 > |bytes| then Err(EndOfFile)
    else Ok((BigEndianInt(bytes[pos], bytes[pos + 1], bytes[pos + 2], bytes[pos + 3]), pos + 4))
  }

  /** The colour stored for a grey byte: grey inverted, equal in red, green and blue. */
  function GenRgb(grey: int): (p: Pixel)
    ensures p.Rgb? && p.red == p.green == p.blue == 255 - grey
  {
    var inverted := 255 - grey;
    Rgb(inverted, inverted, inverted)
  }

  /** `toByte` of an unsigned byte: values from 128 up become negative. */
  function SignedByte(b: byte): (r: int)
    ensures -128 <= r < 128
    ensures (r - b as int) % 256 == 0
  {
    if b as int < 128 then b as int else b as int - 256
  }

  // ---------------------------------------------------------------------------
  // The image loops, step by step: columns `w..wLast` of row `h`, rows
  // `h..hLast`, and the remaining images. Positions are cursors into `bytes`.

  function FillRow(bytes: seq<byte>, pos: nat, data: seq<Pixel>, width: int, h: int, w: int, wLast: int)
    : Result<(seq<Pixel>, nat), MnistError>
    decreases wLast - w + 1
  {
    if w > wLast then Ok((data, pos))
    else if pos >= |bytes| then Err(EndOfFile)
    else
      var index := Wrap32(h * width + w);
      if index < 0 || index >= |data| then Err(IndexOutOfBounds(index))
      else FillRow(bytes, pos + 1, data[index := GenRgb(bytes[pos] as int)], width, h, w + 1, wLast)
  }

  function FillRows(bytes: seq<byte>, pos: nat, data: seq<Pixel>, width: int, h: int, hLast: int, wLast: int)
    : Result<(seq<Pixel>, nat), MnistError>
    decreases hLast - h + 1
  {
    if h > hLast then Ok((data, pos))
    else
      match FillRow(bytes, pos, data, width, h, 0, wLast)
      case Err(e) => Err(e)
      case Ok((rowData, next)) => FillRows(bytes, next, rowData, width, h + 1, hLast, wLast)
  }

  /** A fresh pixel array of `size` entries, or the JVM error for a negative size. */
  function NewPixels(size: int): Result<seq<Pixel>, MnistError> {
    if size < 0 then Err(NegativeArraySize(size)) else Ok(seq(size, _ => Unset))
  }

  /** One image of `width` × `height` pixels read from `pos`: the pixels and the position after them. */
  function ReadImage(bytes: seq<byte>, pos: nat, width: int, height: int): (r: Result<(seq<Pixel>, nat), MnistError>) {
    var blank :- NewPixels(Wrap32(width * height));
    FillRows(bytes, pos, blank, width, 0, Wrap32(height - 1), Wrap32(width - 1))
  }

  function ReadImages(bytes: seq<byte>, pos: nat, remaining: nat, width: int, height: int, images: seq<Image>)
    : Result<seq<Image>, MnistError>
    decreases remaining
  {
    if remaining == 0 then Ok(images)
    else
      match ReadImage(bytes, pos, width, height)
      case Err(e) => Err(e)
      case Ok((data, next)) =>
        ReadImages(bytes, next, remaining - 1, width, height, images + [Image(width, height, data)])
  }

  /** Iterations of `for (i in 1..count)`. */
  function Times(count: int): nat {
    if count > 0 then count else 0
  }

  /** The header fields of an image file, in file order after the magic word. */
  datatype ImageHeader = ImageHeader(count: int, height: int, width: int)

  /** The magic check and the three header words of an image file. */
  function ReadImageHeader(bytes: seq<byte>): (r: Result<ImageHeader, MnistError>) {
    var (magic, p0) :- ReadInt(bytes, 0);
    if magic != ImageFileMagic then Err(BadMagic(magic))
    else
      var (count, p1) :- ReadInt(bytes, p0);
      var (height, p2) :- ReadInt(bytes, p1);
      var (width, p3) :- ReadInt(bytes, p2);
      Ok(ImageHeader(count, height, width))
  }

  /** `readMnistImageFile` over the bytes of the file. */
  function DecodeImageFile(bytes: seq<byte>): (r: Result<seq<Image>, MnistError>)
    ensures |bytes| < ImageHeaderSize ==> r.Err?
    ensures r.Ok? ==> BigEndianInt(bytes[0], bytes[1], bytes[2], bytes[3]) == ImageFileMagic
  {
    var header :- ReadImageHeader(bytes);
    ReadImages(bytes, ImageHeaderSize, Times(header.count), header.width, header.height, [])
  }

  /** The magic check and the count word of a label file. */
  function ReadLabelHeader(bytes: seq<byte>): (r: Result<int, MnistError>)
    ensures r.Ok? ==> LabelHeaderSize <= |bytes| && BigEndianInt(bytes[0], bytes[1], bytes[2], bytes[3]) == LabelFileMagic
  {
    var (magic, p0) :- ReadInt(bytes, 0);
    if magic != LabelFileMagic then Err(BadMagic(magic))
    else
      var (count, p1) :- ReadInt(bytes, p0);
      Ok(count)
  }

  /** `readMnistLabelFile` over the bytes of the file. */
  function DecodeLabelFile(bytes: seq<byte>): (r: Result<seq<int>, MnistError>)
    ensures r.Ok? ==> LabelHeaderSize <= |bytes| && BigEndianInt(bytes[0], bytes[1], bytes[2], bytes[3]) == LabelFileMagic
    ensures r.Ok? ==> LabelHeaderSize + |r.value| <= |bytes|
  {
    var count :- ReadLabelHeader(bytes);
    DecodeLabels(bytes, count)
  }

  /** The `count` label bytes after the header, each as a signed byte, or end of file. */
  function DecodeLabels(bytes: seq<byte>, count: int): (r: Result<seq<int>, MnistError>)
    ensures r.Ok? ==> LabelHeaderSize + |r.value| <= |bytes|
  {
    if LabelHeaderSize + Times(count) > |bytes| then Err(EndOfFile)
    else Ok(seq(Times(count), i requires 0 <= i < Times(count) => SignedByte(bytes[LabelHeaderSize + i])))
  }

  // ---------------------------------------------------------------------------
  // The decoders as the source writes them: a cursor over the stream, nested
  // row and column loops writing into a pixel array.

  method ReadMnistImageFile(bytes: seq<byte>) returns (r: Result<seq<Image>, MnistError>)
    ensures r == DecodeImageFile(bytes)
  {
    var header := ReadImageHeader(bytes);
    if header.Err? { return Err(header.error); }
    var ImageHeader(count, height, width) := header.value;
    var pos := ImageHeaderSize;
    var images: seq<Image> := [];
    var i := 1;
    while i <= count
      invariant 1 <= i <= Times(count) + 1
      invariant DecodeImageFile(bytes) == ReadImages(bytes, pos, Times(count) - (i - 1), width, height, images)
      decreases count - i
    {
      assert Times(count) - (i - 1) > 0;
      var image := ReadPixels(bytes, pos, width, height);
      if image.Err? { return Err(image.error); }
      var data;
      data, pos := image.value.0, image.value.1;
      images := images + [Image(width, height, data)];
      i := i + 1;
    }
    assert Times(count) - (i - 1) == 0;
    return Ok(images);
  }

  /** The pixel loops of one image: rows, then columns, each byte stored at `h * width + w`. */
  method ReadPixels(bytes: seq<byte>, start: nat, width: int, height: int) returns (r: Result<(seq<Pixel>, nat), MnistError>)
    ensures r == ReadImage(bytes, start, width, height)
  {
    var size := Wrap32(width * height);
    if size < 0 { return Err(NegativeArraySize(size)); }
    var data := new Pixel[size](_ => Unset);
    assert data[..] == seq(size, _ => Unset);
    var hLast, wLast := Wrap32(height - 1), Wrap32(width - 1);
    var pos := start;
    var h := 0;
    while h <= hLast
      invariant 0 <= h && (hLast >= 0 ==> h <= hLast + 1)
      invariant ReadImage(bytes, start, width, height) == FillRows(bytes, pos, data[..], width, h, hLast, wLast)
      decreases hLast - h
    {
      var row := FillRowInPlace(data, bytes, pos, width, h, wLast);
      if row.Err? { return Err(row.error); }
      pos := row.value;
      h := h + 1;
    }
    return Ok((data[..], pos));
  }

  /** The column loop of row `h`, writing into `data`. */
  method FillRowInPlace(data: array<Pixel>, bytes: seq<byte>, start: nat, width: int, h: int, wLast: int)
    returns (r: Result<nat, MnistError>)
    modifies data
    ensures FillRow(bytes, start, old(data[..]), width, h, 0, wLast)
         == match r case Err(e) => Err(e) case Ok(next) => Ok((data[..], next))
  {
    var pos: nat := start;
    var w := 0;
    while w <= wLast
      invariant 0 <= w && (wLast >= 0 ==> w <= wLast + 1)
      invariant FillRow(bytes, start, old(data[..]), width, h, 0, wLast)
             == FillRow(bytes, pos, data[..], width, h, w, wLast)
      decreases wLast - w
    {
      if pos >= |bytes| { return Err(EndOfFile); }
      var grey := bytes[pos] as int;
      pos := pos + 1;
      var index := Wrap32(h * width + w);
      if index < 0 || index >= data.Length { return Err(IndexOutOfBounds(index)); }
      data[index] := GenRgb(grey);
      w := w + 1;
    }
    return Ok(pos);
  }

  method ReadMnistLabelFile(bytes: seq<byte>) returns (r: Result<seq<int>, MnistError>)
    ensures r == DecodeLabelFile(bytes)
  {
    var header := ReadLabelHeader(bytes);
    if header.Err? { return Err(header.error); }
    assert ReadInt(bytes, 4).Ok?;
    r := ReadLabels(bytes, header.value);
  }

  /** The label loop: `count` bytes from the end of the header on, once the header has been read. */
  method ReadLabels(bytes: seq<byte>, count: int) returns (r: Result<seq<int>, MnistError>)
    requires LabelHeaderSize <= |bytes|
    ensures r == DecodeLabels(bytes, count)
  {
    var pos := LabelHeaderSize;
    var labels: seq<int> := [];
    var i := 1;
    while i <= count
      invariant 1 <= i <= Times(count) + 1
      invariant pos == LabelHeaderSize + (i - 1) <= |bytes|
      invariant |labels| == i - 1
      invariant forall k :: 0 <= k < |labels| ==> labels[k] == SignedByte(bytes[LabelHeaderSize + k])
      decreases count - i
    {
      if pos >= |bytes| {
        return Err(EndOfFile);
      }
      labels := labels + [SignedByte(bytes[pos])];
      pos := pos + 1;
      i := i + 1;
    }
    assert Times(count) == i - 1;
    assert labels == seq(Times(count), k requires 0 <= k < Times(count) => SignedByte(bytes[LabelHeaderSize + k]));
    return Ok(labels);
  }

  // ---------------------------------------------------------------------------
  // The data sets: an image file and a label file of one folder, paired.

  /** `zip` followed by `map` to `LabeledDigitImage`: pairs up to the shorter list. */
  function ZipLabeled(images: seq<Image>, labels: seq<int>): (r: seq<LabeledDigitImage>)
    ensures |r| == if |images| <= |labels| then |images| else |labels|
    ensures forall i :: 0 <= i < |r| ==> r[i] == LabeledDigitImage(images[i], labels[i])
  {
    if |images| == 0 || |labels| == 0 then []
    else [LabeledDigitImage(images[0], labels[0])] + ZipLabeled(images[1..], labels[1..])
  }

  /**
   * The image file, then the label file, of `folder` (file name to contents),
   * paired; a missing file is reported when it is opened.
   */
  function ReadMnistData(folder: map<string, seq<byte>>, imageFile: string, labelFile: string)
    : (r: Result<seq<LabeledDigitImage>, MnistError>)
    ensures imageFile !in folder ==> r == Err(FileNotFound(imageFile))
    ensures imageFile in folder && DecodeImageFile(folder[imageFile]).Err? ==> r == Err(DecodeImageFile(folder[imageFile]).error)
    ensures r.Ok? <==> imageFile in folder && labelFile in folder
                       && DecodeImageFile(folder[imageFile]).Ok? && DecodeLabelFile(folder[labelFile]).Ok?
    ensures r.Ok? ==>
      var images, labels := DecodeImageFile(folder[imageFile]).value, DecodeLabelFile(folder[labelFile]).value;
      |r.value| == (if |images| <= |labels| then |images| else |labels|)
      && forall i :: 0 <= i < |r.value| ==> r.value[i].image == images[i] && r.value[i].labelByte == labels[i]
  {
    if imageFile !in folder then Err(FileNotFound(imageFile))
    else
      var images :- DecodeImageFile(folder[imageFile]);
      if labelFile !in folder then Err(FileNotFound(labelFile))
      else
        var labels :- DecodeLabelFile(folder[labelFile]);
        Ok(ZipLabeled(images, labels))
  }

  /** `readMnistTestData`: the t10k files of `folder`. */
  function ReadMnistTestData(folder: map<string, seq<byte>>): (r: Result<seq<LabeledDigitImage>, MnistError>)
    ensures TestImageFile !in folder ==> r == Err(FileNotFound(TestImageFile))
    ensures r.Ok? ==> TestImageFile in folder && TestLabelFile in folder
  {
    ReadMnistData(folder, TestImageFile, TestLabelFile)
  }

  /** `readMnistTrainingData`: the train files of `folder`. */
  function ReadMnistTrainingData(folder: map<string, seq<byte>>): (r: Result<seq<LabeledDigitImage>, MnistError>)
    ensures TrainingImageFile !in folder ==> r == Err(FileNotFound(TrainingImageFile))
    ensures r.Ok? ==> TrainingImageFile in folder && TrainingLabelFile in folder
  {
    ReadMnistData(folder, TrainingImageFile, TrainingLabelFile)
  }
}
