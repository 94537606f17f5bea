/** A reference encoder for every bitmap variant the decoder supports, and the
    proof that decoding inverts it. */
module DibEncoder {
  import opened Wrappers
  import opened DibDecoder

  /** Header size, orientation, pixel size, explicit channel masks, alpha. */
  datatype Variant = Variant(size: nat, topDown: bool, bits: nat, masked: bool, alpha: bool)

  predicate Supported(v: Variant) {
    && v.size in {40, 108, 124}
    && (v.bits == 24 || v.bits == 32)
    && (v.masked ==> v.bits == 32)
    && (v.alpha ==> v.masked && v.size != 40)
  }

  predicate Encodable(v: Variant, image: Image) {
    && SizesFit(image.width, image.height)
    && |image.pixels| == Skip(image.height, 4 * image.width)
    && (!v.alpha ==> forall k :: 0 <= k < |image.pixels| && k % 4 == 3 ==> image.pixels[k] == 255)
  }

  function HeaderOf(v: Variant, image: Image): Header {
    Header(image.width, image.height, v.topDown, v.bits, v.alpha, if v.size == 40 && v.masked then 52 else v.size)
  }

  // ------------------------------------------------------------ header words

  type Word = w: nat | w < 0x1_0000_0000

  function LittleEndian(w: Word): (b: Bytes)
    ensures |b| == 4
  {
    [w % 256, w / 256 % 256, w / 65536 % 256, w / 16777216]
  }

  lemma {:induction false} LittleEndianReads(w: Word, bytes: Bytes, n: nat)
    requires n + 4 <= |bytes| && bytes[n..n + 4] == LittleEndian(w)
    ensures U32At(bytes, n) == w
  {
    var b := LittleEndian(w);
    assert bytes[n] == b[0] && bytes[n + 1] == b[1] && bytes[n + 2] == b[2] && bytes[n + 3] == b[3];
    assert w / 65536 == w / 256 / 256 && w / 16777216 == w / 65536 / 256;
  }

  /** Blocks laid end to end. */
  function Stack(blocks: seq<Bytes>): Bytes {
    if blocks == [] then [] else Stack(blocks[..|blocks| - 1]) + blocks[|blocks| - 1]
  }

  lemma {:induction false} StackHolds(blocks: seq<Bytes>, size: nat, i: nat)
    requires forall k :: 0 <= k < |blocks| ==> |blocks[k]| == size
    ensures |Stack(blocks)| == Skip(|blocks|, size)
    ensures i < |blocks| ==> Skip(i, size) + size <= |Stack(blocks)|
    ensures i < |blocks| ==> Stack(blocks)[Skip(i, size)..Skip(i, size) + size] == blocks[i]
    decreases |blocks|
  {
    if blocks != [] {
      StackHolds(blocks[..|blocks| - 1], size, i);
      if i < |blocks| {
        ItemsBefore(i, |blocks|, size);
      }
    }
  }

  function HeaderWord(v: Variant, image: Image, i: nat): Word
    requires Supported(v) && SizesFit(image.width, image.height)
  {
    if i == 0 then v.size
    else if i == 1 then image.width
    else if i == 2 then (if v.topDown then 0x1_0000_0000 - image.height else image.height)
    else if i == 3 then 1 + 65536 * v.bits
    else if i == 4 then (if v.masked then 3 else 0)
    else if i == 10 && v.masked then 0x00ff0000
    else if i == 11 && v.masked then 0x0000ff00
    else if i == 12 && v.masked then 0x000000ff
    else if i == 13 && v.alpha then 0xff000000
    else 0
  }

  function HeaderBytes(v: Variant, image: Image): Bytes
    requires Supported(v) && SizesFit(image.width, image.height)
  {
    Stack(seq(HeaderOf(v, image).offset / 4, i requires 0 <= i => LittleEndian(HeaderWord(v, image, i))))
  }

  /** These bytes begin with the header. */
  ghost predicate Headed(bytes: Bytes, v: Variant, image: Image)
    requires Supported(v) && SizesFit(image.width, image.height)
  {
    && |bytes| >= HeaderOf(v, image).offset
    && forall i :: 0 <= i && 4 * i + 4 <= HeaderOf(v, image).offset ==>
      bytes[4 * i..4 * i + 4] == LittleEndian(HeaderWord(v, image, i))
  }

  lemma {:induction false} HeaderLength(v: Variant, image: Image)
    requires Supported(v) && SizesFit(image.width, image.height)
    ensures |HeaderBytes(v, image)| == HeaderOf(v, image).offset
  {
    var n := HeaderOf(v, image).offset / 4;
    StackHolds(seq(n, i requires 0 <= i => LittleEndian(HeaderWord(v, image, i))), 4, 0);
    SkipIsProduct(n, 4);
  }

  lemma {:induction false} HeaderHeads(v: Variant, image: Image, body: Bytes)
    requires Supported(v) && SizesFit(image.width, image.height)
    ensures Headed(HeaderBytes(v, image) + body, v, image)
  {
    HeaderLength(v, image);
    forall i | 0 <= i && 4 * i + 4 <= HeaderOf(v, image).offset
      ensures (HeaderBytes(v, image) + body)[4 * i..4 * i + 4] == LittleEndian(HeaderWord(v, image, i))
    {
      HeaderHolds(v, image, i);
      PartOfWhole([], HeaderBytes(v, image), body, 4 * i, LittleEndian(HeaderWord(v, image, i)));
      assert [] + (HeaderBytes(v, image) + body) == HeaderBytes(v, image) + body;
    }
  }

  lemma {:induction false} HeaderHolds(v: Variant, image: Image, i: nat)
    requires Supported(v) && SizesFit(image.width, image.height) && 4 * i + 4 <= HeaderOf(v, image).offset
    ensures 4 * i + 4 <= |HeaderBytes(v, image)|
    ensures HeaderBytes(v, image)[4 * i..4 * i + 4] == LittleEndian(HeaderWord(v, image, i))
  {
    var n := HeaderOf(v, image).offset / 4;
    StackHolds(seq(n, k requires 0 <= k => LittleEndian(HeaderWord(v, image, k))), 4, i);
    SkipIsProduct(i, 4);
  }

  lemma {:induction false} HeadedWord(bytes: Bytes, v: Variant, image: Image, i: nat)
    requires Supported(v) && SizesFit(image.width, image.height) && Headed(bytes, v, image)
    requires 4 * i + 4 <= HeaderOf(v, image).offset
    ensures U32At(bytes, 4 * i) == HeaderWord(v, image, i)
  {
    LittleEndianReads(HeaderWord(v, image, i), bytes, 4 * i);
  }

  // --------------------------------------------------------- exact headers

  /** The header words the decoder must look at: sizes, planes and depth,
      compression, colours used, the masks if there are any, and the profile of the
      largest header. */
  predicate Matters(v: Variant, i: nat) {
    i in {0, 1, 2, 3, 4, 8} || (v.masked && i in {10, 11, 12}) || (v.masked && v.size != 40 && i == 13)
    || (v.size == 124 && i in {28, 29})
  }

  predicate WordIs(bytes: Bytes, v: Variant, image: Image, i: nat)
    requires Supported(v) && SizesFit(image.width, image.height)
  {
    4 * i + 4 <= |bytes| && U32At(bytes, 4 * i) == HeaderWord(v, image, i)
  }

  /** Long enough, and every word that matters is the one of this variant. */
  ghost predicate Describes(bytes: Bytes, v: Variant, image: Image)
    requires Supported(v) && SizesFit(image.width, image.height)
  {
    |bytes| >= HeaderOf(v, image).offset && forall i :: Matters(v, i) ==> WordIs(bytes, v, image, i)
  }

  function SizeOnly(h: Header): Image {
    Image(h.width, h.height, [])
  }

  function VariantOf(bytes: Bytes, h: Header): Variant
    requires |bytes| >= 20
  {
    Variant(U32At(bytes, 0), h.topDown, h.bits, U32At(bytes, 16) == 3, h.alpha)
  }

  lemma {:induction false} ParsedWord(bytes: Bytes, i: nat)
    requires ParseHeader(bytes).Some? && |bytes| >= 20
    ensures var h := ParseHeader(bytes).value;
      var v := VariantOf(bytes, h);
      && SizesFit(h.width, h.height) && Supported(v)
      && (Matters(v, i) ==> WordIs(bytes, v, SizeOnly(h), i))
  {
    var h := ParseHeader(bytes).value;
    var size := U32At(bytes, 0);
    assert U32At(bytes, 12) == U16At(bytes, 12) + 65536 * U16At(bytes, 14);
    assert U16At(bytes, 12) == 1;
    assert Masks(bytes, size, U32At(bytes, 16)).Some? && Truecolor(bytes, size);
    if i == 2 {
      assert Signed(U32At(bytes, 8)) == if h.topDown then -(h.height as int) else h.height as int;
    }
  }

  lemma {:induction false} ParsedOffset(bytes: Bytes)
    requires ParseHeader(bytes).Some?
    ensures |bytes| >= 40
    ensures var h := ParseHeader(bytes).value;
      HeaderOf(VariantOf(bytes, h), SizeOnly(h)) == h && |bytes| >= h.offset
  {
    var size, compression := U32At(bytes, 0), U32At(bytes, 16);
    assert Masks(bytes, size, compression).Some?;
    assert Masks(bytes, size, compression).value.0 == if size == 40 && compression == 3 then 52 else size;
  }

  lemma {:induction false} ParsedDescribes(bytes: Bytes)
    requires ParseHeader(bytes).Some?
    ensures |bytes| >= 40
    ensures var h := ParseHeader(bytes).value;
      var v := VariantOf(bytes, h);
      && SizesFit(h.width, h.height) && Supported(v) && HeaderOf(v, SizeOnly(h)) == h
      && Describes(bytes, v, SizeOnly(h))
  {
    var h := ParseHeader(bytes).value;
    var v := VariantOf(bytes, h);
    ParsedOffset(bytes);
    ParsedWord(bytes, 0);
    forall i | Matters(v, i) ensures WordIs(bytes, v, SizeOnly(h), i) {
      ParsedWord(bytes, i);
    }
  }

  lemma {:induction false} DescribedWord(bytes: Bytes, v: Variant, image: Image, i: nat)
    requires Supported(v) && SizesFit(image.width, image.height) && Describes(bytes, v, image) && Matters(v, i)
    ensures WordIs(bytes, v, image, i)
  {
  }

  lemma {:induction false} DescribedFormat(bytes: Bytes, v: Variant, image: Image)
    requires Supported(v) && SizesFit(image.width, image.height) && Describes(bytes, v, image)
    ensures |bytes| >= 40 && bytes[12] == 1 && bytes[13] == 0 && U16At(bytes, 14) == v.bits
  {
    DescribedWord(bytes, v, image, 3);
    assert U32At(bytes, 12) == bytes[12] as nat + 256 * (bytes[13] as nat) + 65536 * U16At(bytes, 14);
  }

  lemma {:induction false} DescribedMasks(bytes: Bytes, v: Variant, image: Image)
    requires Supported(v) && SizesFit(image.width, image.height) && Describes(bytes, v, image)
    ensures Masks(bytes, v.size, if v.masked then 3 else 0) == Some((HeaderOf(v, image).offset, v.alpha))
  {
    if v.masked {
      DescribedWord(bytes, v, image, 10);
      DescribedWord(bytes, v, image, 11);
      DescribedWord(bytes, v, image, 12);
      if v.size != 40 {
        DescribedWord(bytes, v, image, 13);
      }
    }
  }

  lemma {:induction false} DescribedTruecolor(bytes: Bytes, v: Variant, image: Image)
    requires Supported(v) && SizesFit(image.width, image.height) && Describes(bytes, v, image)
    ensures Truecolor(bytes, v.size)
  {
    DescribedWord(bytes, v, image, 8);
    if v.size == 124 {
      DescribedWord(bytes, v, image, 28);
      DescribedWord(bytes, v, image, 29);
    }
  }

  lemma {:induction false} DescribedParses(bytes: Bytes, v: Variant, h: Header)
    requires SizesFit(h.width, h.height) && Supported(v) && HeaderOf(v, SizeOnly(h)) == h
    requires Describes(bytes, v, SizeOnly(h))
    ensures ParseHeader(bytes) == Some(h)
  {
    var image := SizeOnly(h);
    DescribedWord(bytes, v, image, 0);
    DescribedWord(bytes, v, image, 1);
    DescribedWord(bytes, v, image, 2);
    DescribedWord(bytes, v, image, 4);
    DescribedFormat(bytes, v, image);
    DescribedMasks(bytes, v, image);
    DescribedTruecolor(bytes, v, image);
  }

  ghost predicate DescribesHeader(bytes: Bytes, v: Variant, h: Header) {
    SizesFit(h.width, h.height) && Supported(v) && HeaderOf(v, SizeOnly(h)) == h && Describes(bytes, v, SizeOnly(h))
  }

  /** A header parses exactly if some supported variant describes it; nothing that
      is not of one of these forms gets through. */
  lemma {:induction false} HeaderParsesExactly(bytes: Bytes, h: Header)
    ensures ParseHeader(bytes) == Some(h) <==> exists v :: DescribesHeader(bytes, v, h)
  {
    if ParseHeader(bytes) == Some(h) {
      ParsedDescribes(bytes);
      assert DescribesHeader(bytes, VariantOf(bytes, h), h);
    }
    if v :| DescribesHeader(bytes, v, h) {
      DescribedParses(bytes, v, h);
    }
  }

  /** The sizes that fit: up to 8192 each way, 16 Mi pixels in all, none of them
      empty; a negative height counts by its magnitude. */
  lemma {:induction false} SizesFitExactly(width: int, height: int)
    ensures SizesFit(width, height) <==>
      && 1 <= width <= 8192 && height != 0 && -8192 <= height <= 8192
      && (if height < 0 then -height else height) * width <= 16777216
  {
    if width >= 0 {
      SkipIsProduct(Magnitude(height), width);
    }
  }

  lemma {:induction false} HeadedParses(bytes: Bytes, v: Variant, image: Image)
    requires Supported(v) && SizesFit(image.width, image.height) && Headed(bytes, v, image)
    ensures ParseHeader(bytes) == Some(HeaderOf(v, image))
  {
    var h := HeaderOf(v, image);
    forall i | Matters(v, i) ensures WordIs(bytes, v, SizeOnly(h), i) {
      HeadedWord(bytes, v, image, i);
    }
    DescribedParses(bytes, v, h);
  }

  // ------------------------------------------------------------------ body

  /** Blue, green, red, and alpha or a reserved byte. */
  function StoredPixel(v: Variant, image: Image, x: nat, y: nat, filler: Byte): (b: Bytes)
    requires At(image.width, x, y) + 4 <= |image.pixels|
    ensures |b| == if v.bits == 24 then 3 else 4
  {
    var i := At(image.width, x, y);
    var bgr := [image.pixels[i + 2], image.pixels[i + 1], image.pixels[i]];
    if v.bits == 24 then bgr else bgr + [if v.alpha then image.pixels[i + 3] else filler]
  }

  lemma {:induction false} PixelInImage(v: Variant, image: Image, x: nat, y: nat)
    requires Encodable(v, image) && x < image.width && y < image.height
    ensures At(image.width, x, y) + 4 <= |image.pixels|
    ensures At(image.width, x, y) % 4 == 0
  {
    ItemsBefore(y, image.height, 4 * image.width);
    SkipOfFours(y, image.width);
  }

  lemma {:induction false} SkipOfFours(y: nat, width: nat)
    ensures Skip(y, 4 * width) % 4 == 0
  {
    if y > 0 {
      SkipOfFours(y - 1, width);
    }
  }

  function Fill(n: nat, filler: Byte): Bytes {
    seq(n, i => filler)
  }

  function PixelBlocks(v: Variant, image: Image, y: nat, filler: Byte): seq<Bytes>
    requires Encodable(v, image) && y < image.height
  {
    seq(image.width, x requires 0 <= x < image.width =>
      PixelInImage(v, image, x, y);
      StoredPixel(v, image, x, y, filler))
  }

  /** The row shown as `y`, padded. */
  function StoredRowBytes(v: Variant, image: Image, y: nat, filler: Byte): Bytes
    requires Supported(v) && Encodable(v, image) && y < image.height
  {
    var h := HeaderOf(v, image);
    StrideHoldsRow(h);
    Stack(PixelBlocks(v, image, y, filler)) + Fill(Stride(h) - Across(h, image.width), filler)
  }

  /** The rows as they lie in the file. */
  function RowBlocks(v: Variant, image: Image, filler: Byte): seq<Bytes>
    requires Supported(v) && Encodable(v, image)
  {
    seq(image.height, row requires 0 <= row < image.height =>
      StoredRowBytes(v, image, StoredRow(HeaderOf(v, image), row), filler))
  }

  /** The whole file: header, rows, and anything after them. */
  function Encode(v: Variant, image: Image, filler: Byte, trailer: Bytes): Bytes
    requires Supported(v) && Encodable(v, image)
  {
    HeaderBytes(v, image) + (Stack(RowBlocks(v, image, filler)) + trailer)
  }

  lemma {:induction false} SkipAcross(h: Header, x: nat)
    ensures Skip(x, Depth(h)) == Across(h, x)
  {
    if x > 0 {
      SkipAcross(h, x - 1);
    }
  }

  lemma {:induction false} RowHolds(v: Variant, image: Image, y: nat, filler: Byte, x: nat)
    requires Supported(v) && Encodable(v, image) && y < image.height && x < image.width
    ensures At(image.width, x, y) + 4 <= |image.pixels|
    ensures var h, bytes := HeaderOf(v, image), StoredRowBytes(v, image, y, filler);
      var start := Across(h, x);
      && |bytes| == Stride(h) && start + Depth(h) <= |bytes|
      && bytes[start..start + Depth(h)] == StoredPixel(v, image, x, y, filler)
  {
    var h := HeaderOf(v, image);
    var blocks := PixelBlocks(v, image, y, filler);
    PixelInImage(v, image, x, y);
    StackHolds(blocks, Depth(h), x);
    SkipAcross(h, x);
    SkipAcross(h, image.width);
    StrideHoldsRow(h);
    var start := Across(h, x);
    assert StoredRowBytes(v, image, y, filler)[start..start + Depth(h)] == Stack(blocks)[start..start + Depth(h)];
  }

  lemma {:induction false} BodyHolds(v: Variant, image: Image, filler: Byte, row: nat)
    requires Supported(v) && Encodable(v, image) && row < image.height
    ensures var h, body := HeaderOf(v, image), Stack(RowBlocks(v, image, filler));
      var start := Skip(row, Stride(h));
      && |body| == Skip(image.height, Stride(h)) && start + Stride(h) <= |body|
      && body[start..start + Stride(h)] == StoredRowBytes(v, image, StoredRow(h, row), filler)
  {
    var h := HeaderOf(v, image);
    var blocks := RowBlocks(v, image, filler);
    forall k | 0 <= k < |blocks| ensures |blocks[k]| == Stride(h) {
      RowHolds(v, image, StoredRow(h, k), filler, 0);
    }
    StackHolds(blocks, Stride(h), row);
  }

  // ------------------------------------------------------------- round trip

  lemma {:induction false} EncodedParses(v: Variant, image: Image, filler: Byte, trailer: Bytes)
    requires Supported(v) && Encodable(v, image)
    ensures var bytes, h := Encode(v, image, filler, trailer), HeaderOf(v, image);
      ParseHeader(bytes) == Some(h) && ValidHeader(h) && Complete(bytes, h)
  {
    var bytes := Encode(v, image, filler, trailer);
    HeaderHeads(v, image, Stack(RowBlocks(v, image, filler)) + trailer);
    HeaderLength(v, image);
    HeadedParses(bytes, v, image);
    ParsedIsValid(bytes);
    BodyHolds(v, image, filler, 0);
  }

  predicate HasAt(bytes: Bytes, start: nat, part: Bytes) {
    start + |part| <= |bytes| && bytes[start..start + |part|] == part
  }

  function RowStart(h: Header, y: nat): nat
    requires y < h.height
  {
    h.offset + Skip(StoredRow(h, y), Stride(h))
  }

  /** Where a row lies in the file, and that it is the row meant. */
  lemma {:induction false} EncodedRow(v: Variant, image: Image, filler: Byte, trailer: Bytes, y: nat)
    requires Supported(v) && Encodable(v, image) && y < image.height
    ensures var row, start := StoredRowBytes(v, image, y, filler), RowStart(HeaderOf(v, image), y);
      HasAt(Encode(v, image, filler, trailer), start, row)
  {
    var h := HeaderOf(v, image);
    var row := StoredRow(h, y);
    BodyHasRow(v, image, filler, y);
    HeaderLength(v, image);
    PartOfWhole(HeaderBytes(v, image), Stack(RowBlocks(v, image, filler)), trailer, Skip(row, Stride(h)),
      StoredRowBytes(v, image, y, filler));
  }

  lemma {:induction false} BodyHasRow(v: Variant, image: Image, filler: Byte, y: nat)
    requires Supported(v) && Encodable(v, image) && y < image.height
    ensures var h := HeaderOf(v, image);
      HasAt(Stack(RowBlocks(v, image, filler)), Skip(StoredRow(h, y), Stride(h)), StoredRowBytes(v, image, y, filler))
  {
    var h := HeaderOf(v, image);
    var row := StoredRow(h, y);
    assert StoredRow(h, row) == y;
    BodyHolds(v, image, filler, row);
    RowHolds(v, image, y, filler, 0);
  }

  lemma {:induction false} PartOfWhole(head: Bytes, body: Bytes, tail: Bytes, start: nat, part: Bytes)
    requires HasAt(body, start, part)
    ensures HasAt(head + (body + tail), |head| + start, part)
  {
    var whole := head + (body + tail);
    assert whole[|head| + start..|head| + start + |part|] == body[start..start + |part|];
  }

  lemma {:induction false} EncodedPixel(v: Variant, image: Image, filler: Byte, trailer: Bytes, x: nat, y: nat)
    requires Supported(v) && Encodable(v, image) && x < image.width && y < image.height
    requires Complete(Encode(v, image, filler, trailer), HeaderOf(v, image)) && ValidHeader(HeaderOf(v, image))
    ensures Shows(image, x, y, Pixel(Encode(v, image, filler, trailer), HeaderOf(v, image), x, y))
  {
    var bytes, h := Encode(v, image, filler, trailer), HeaderOf(v, image);
    PixelInBounds(bytes, h, x, y);
    PixelInImage(v, image, x, y);
    EncodedStored(v, image, filler, trailer, x, y);
    StoredShows(v, image, filler, bytes, h, x, y);
  }

  lemma {:induction false} EncodedStored(v: Variant, image: Image, filler: Byte, trailer: Bytes, x: nat, y: nat)
    requires Supported(v) && Encodable(v, image) && x < image.width && y < image.height
    requires At(image.width, x, y) + 4 <= |image.pixels|
    ensures HasAt(Encode(v, image, filler, trailer), PixelStart(HeaderOf(v, image), x, y),
      StoredPixel(v, image, x, y, filler))
  {
    EncodedRow(v, image, filler, trailer, y);
    RowHolds(v, image, y, filler, x);
    SliceOfSlice(Encode(v, image, filler, trailer), RowStart(HeaderOf(v, image), y),
      StoredRowBytes(v, image, y, filler), Across(HeaderOf(v, image), x), StoredPixel(v, image, x, y, filler));
  }

  lemma {:induction false} SliceOfSlice(bytes: Bytes, start: nat, row: Bytes, from: nat, pixel: Bytes)
    requires HasAt(bytes, start, row) && HasAt(row, from, pixel)
    ensures HasAt(bytes, start + from, pixel)
  {
    var slice := bytes[start + from..start + from + |pixel|];
    assert forall k :: 0 <= k < |pixel| ==> slice[k] == row[from..from + |pixel|][k];
  }

  lemma {:induction false} StoredShows(
      v: Variant, image: Image, filler: Byte, bytes: Bytes, h: Header, x: nat, y: nat)
    requires Supported(v) && Encodable(v, image) && h == HeaderOf(v, image) && ValidHeader(h) && Complete(bytes, h)
    requires x < image.width && y < image.height
    requires At(image.width, x, y) + 4 <= |image.pixels| && PixelStart(h, x, y) + Depth(h) <= |bytes|
    requires bytes[PixelStart(h, x, y)..PixelStart(h, x, y) + Depth(h)] == StoredPixel(v, image, x, y, filler)
    ensures Shows(image, x, y, Pixel(bytes, h, x, y))
  {
    PixelInImage(v, image, x, y);
    ReadsStored(v, image, x, y, filler, bytes, PixelStart(h, x, y));
  }

  lemma {:induction false} ReadsStored(
      v: Variant, image: Image, x: nat, y: nat, filler: Byte, bytes: Bytes, i: nat)
    requires Supported(v) && Encodable(v, image)
    requires At(image.width, x, y) + 4 <= |image.pixels| && At(image.width, x, y) % 4 == 0
    requires i + |StoredPixel(v, image, x, y, filler)| <= |bytes|
    requires bytes[i..i + |StoredPixel(v, image, x, y, filler)|] == StoredPixel(v, image, x, y, filler)
    ensures Shows(image, x, y, PixelFrom(bytes, i, v.alpha))
  {
    var at, stored := At(image.width, x, y), StoredPixel(v, image, x, y, filler);
    assert bytes[i] == stored[0] && bytes[i + 1] == stored[1] && bytes[i + 2] == stored[2];
    assert v.alpha ==> bytes[i + 3] == stored[3];
    assert !v.alpha ==> image.pixels[at + 3] == 255;
  }

  lemma {:induction false} SlicesJoin(pixels: Bytes, a: nat, b: nat, c: nat)
    requires a <= b <= c <= |pixels|
    ensures pixels[a..b] + pixels[b..c] == pixels[a..c]
  {
  }

  /** From `start` on, these pixels are the decoded row `y`. */
  predicate RowShown(bytes: Bytes, h: Header, y: nat, pixels: Bytes, start: nat)
    requires ValidHeader(h) && Complete(bytes, h) && y < h.height
  {
    && start + 4 * h.width <= |pixels|
    && forall x :: 0 <= x < h.width ==> pixels[start + 4 * x..start + 4 * x + 4] == Pixel(bytes, h, x, y)
  }

  lemma {:induction false} RowIsSlice(bytes: Bytes, h: Header, y: nat, pixels: Bytes, start: nat, n: nat)
    requires ValidHeader(h) && Complete(bytes, h) && y < h.height && n <= h.width
    requires RowShown(bytes, h, y, pixels, start)
    ensures Row(bytes, h, y, n) == pixels[start..start + 4 * n]
  {
    if n > 0 {
      RowIsSlice(bytes, h, y, pixels, start, n - 1);
      SlicesJoin(pixels, start, start + 4 * (n - 1), start + 4 * n);
    }
  }

  lemma {:induction false} RowsAreSlice(bytes: Bytes, h: Header, pixels: Bytes, n: nat)
    requires ValidHeader(h) && Complete(bytes, h) && n <= h.height
    requires |pixels| == Skip(h.height, 4 * h.width)
    requires forall y :: 0 <= y < h.height ==> RowShown(bytes, h, y, pixels, Skip(y, 4 * h.width))
    ensures Skip(n, 4 * h.width) <= |pixels| && Rows(bytes, h, n) == pixels[..Skip(n, 4 * h.width)]
  {
    if n > 0 {
      RowsAreSlice(bytes, h, pixels, n - 1);
      assert RowShown(bytes, h, n - 1, pixels, Skip(n - 1, 4 * h.width));
      RowIsSlice(bytes, h, n - 1, pixels, Skip(n - 1, 4 * h.width), h.width);
      SlicesJoin(pixels, 0, Skip(n - 1, 4 * h.width), Skip(n, 4 * h.width));
    }
  }

  lemma {:induction false} EncodedRowShown(v: Variant, image: Image, filler: Byte, trailer: Bytes, y: nat)
    requires Supported(v) && Encodable(v, image) && y < image.height
    requires Complete(Encode(v, image, filler, trailer), HeaderOf(v, image)) && ValidHeader(HeaderOf(v, image))
    ensures RowShown(Encode(v, image, filler, trailer), HeaderOf(v, image), y, image.pixels, Skip(y, 4 * image.width))
  {
    var bytes, h := Encode(v, image, filler, trailer), HeaderOf(v, image);
    ItemsBefore(y, image.height, 4 * image.width);
    forall x | 0 <= x < h.width ensures Shows(image, x, y, Pixel(bytes, h, x, y)) {
      EncodedPixel(v, image, filler, trailer, x, y);
    }
    assert forall x :: 0 <= x < h.width ==> Shows(image, x, y, Pixel(bytes, h, x, y));
  }

  /** Decoding inverts encoding for every supported variant and image, whatever
      fills the padding and reserved bytes and whatever follows the pixels. */
  lemma {:induction false} DecodeInvertsEncode(v: Variant, image: Image, filler: Byte, trailer: Bytes)
    requires Supported(v) && Encodable(v, image)
    ensures Decode(Encode(v, image, filler, trailer)) == Some(image)
  {
    var bytes, h := Encode(v, image, filler, trailer), HeaderOf(v, image);
    EncodedParses(v, image, filler, trailer);
    forall y | 0 <= y < h.height ensures RowShown(bytes, h, y, image.pixels, Skip(y, 4 * h.width)) {
      EncodedRowShown(v, image, filler, trailer, y);
    }
    RowsAreSlice(bytes, h, image.pixels, h.height);
    assert image.pixels[..Skip(h.height, 4 * h.width)] == image.pixels;
  }
}
