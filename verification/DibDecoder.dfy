/** The clipboard's device-independent bitmaps (decode_dib of
    input-capture/src/clipboard_image.rs): a conservative subset of headers, and
    rows of BGR or BGRA pixels padded to four bytes, stored either way up. */
module DibDecoder {
  import opened Wrappers

  type Byte = b: nat | b < 256
  type Bytes = seq<Byte>

  const MAX_DIMENSION: nat := 8192
  const MAX_PIXELS: nat := 16 * 1024 * 1024

  datatype Image = Image(width: nat, height: nat, pixels: Bytes)

  /** Everything the header says about where the pixels are. */
  datatype Header = Header(width: nat, height: nat, topDown: bool, bits: nat, alpha: bool, offset: nat)

  /** `n` blocks of equal size end to end: their product, in linear steps. */
  function Skip(n: nat, size: nat): nat {
    if n == 0 then 0 else Skip(n - 1, size) + size
  }

  lemma {:induction false} SkipIsProduct(n: nat, size: nat)
    ensures Skip(n, size) == n * size
  {
    if n > 0 {
      SkipIsProduct(n - 1, size);
      assert n * size == (n - 1) * size + size;
    }
  }

  function U16At(bytes: Bytes, n: nat): (v: nat)
    requires n + 2 <= |bytes|
    ensures v < 0x1_0000
  {
    bytes[n] as nat + 256 * (bytes[n + 1] as nat)
  }

  function U32At(bytes: Bytes, n: nat): (v: nat)
    requires n + 4 <= |bytes|
    ensures v < 0x1_0000_0000
  {
    U16At(bytes, n) + 65536 * U16At(bytes, n + 2)
  }

  function Signed(v: nat): int {
    if v < 0x8000_0000 then v else v - 0x1_0000_0000
  }

  function Magnitude(v: int): nat {
    if v < 0 then -v else v
  }

  predicate SizesFit(width: int, height: int) {
    && 0 < width <= MAX_DIMENSION
    && height != -0x8000_0000 && 0 < Magnitude(height) <= MAX_DIMENSION
    && Skip(Magnitude(height), width) <= MAX_PIXELS
  }

  predicate FormatFits(bits: nat, compression: nat) {
    (bits == 24 || bits == 32) && (compression == 0 || (compression == 3 && bits == 32))
  }

  /** Where the pixels start and whether the fourth byte is alpha; only the
      standard channel masks are taken. */
  function Masks(bytes: Bytes, size: nat, compression: nat): Option<(nat, bool)>
    requires size in {40, 108, 124} && size <= |bytes|
  {
    if compression != 3 then Some((size, false))
    else if |bytes| < 52 then None
    else if U32At(bytes, 40) != 0x00ff0000 || U32At(bytes, 44) != 0x0000ff00 || U32At(bytes, 48) != 0x000000ff then None
    else if size == 40 then Some((52, false))
    else
      var mask := U32At(bytes, 52);
      if mask != 0 && mask != 0xff000000 then None else Some((size, mask != 0))
  }

  /** No color table, and no color profile in the largest header. */
  predicate Truecolor(bytes: Bytes, size: nat)
    requires size in {40, 108, 124} && size <= |bytes|
  {
    U32At(bytes, 32) == 0 && (size == 124 ==> U32At(bytes, 112) == 0 && U32At(bytes, 116) == 0)
  }

  function ParseHeader(bytes: Bytes): Option<Header> {
    if |bytes| < 4 then None
    else
      var size := U32At(bytes, 0);
      if size !in {40, 108, 124} || |bytes| < size then None
      else
        var width, height := Signed(U32At(bytes, 4)), Signed(U32At(bytes, 8));
        var bits, compression := U16At(bytes, 14), U32At(bytes, 16);
        if !SizesFit(width, height) || bytes[12] != 1 || bytes[13] != 0 || !FormatFits(bits, compression) then None
        else
          var masks := Masks(bytes, size, compression);
          if masks.None? || !Truecolor(bytes, size) then None
          else Some(Header(width, Magnitude(height), height < 0, bits, masks.value.1, masks.value.0))
  }

  predicate ValidHeader(h: Header) {
    && 0 < h.width <= MAX_DIMENSION && 0 < h.height <= MAX_DIMENSION
    && (h.bits == 24 || h.bits == 32)
    && (h.alpha ==> h.bits == 32)
    && 40 <= h.offset <= 124
  }

  lemma {:induction false} ParsedIsValid(bytes: Bytes)
    ensures ParseHeader(bytes).Some? ==> ValidHeader(ParseHeader(bytes).value)
  {
  }

  // ---------------------------------------------------------------- pixels

  /** Bytes of one pixel. */
  function Depth(h: Header): nat {
    if h.bits == 24 then 3 else 4
  }

  /** Bytes of `x` pixels side by side. */
  function Across(h: Header, x: nat): nat {
    if h.bits == 24 then 3 * x else 4 * x
  }

  /** Rows are padded to a multiple of four bytes. */
  function Stride(h: Header): nat {
    (Across(h, h.width) + 3) / 4 * 4
  }

  /** The row that shows as row `y`. */
  function StoredRow(h: Header, y: nat): nat
    requires y < h.height
  {
    if h.topDown then y else h.height - 1 - y
  }

  function PixelStart(h: Header, x: nat, y: nat): nat
    requires y < h.height
  {
    h.offset + Skip(StoredRow(h, y), Stride(h)) + Across(h, x)
  }

  predicate Complete(bytes: Bytes, h: Header) {
    h.offset + Skip(h.height, Stride(h)) <= |bytes|
  }

  lemma {:induction false} StrideHoldsRow(h: Header)
    ensures Across(h, h.width) <= Stride(h)
  {
  }

  lemma {:induction false} ItemsBefore(i: nat, n: nat, size: nat)
    requires i < n
    ensures Skip(i, size) + size <= Skip(n, size)
    decreases n
  {
    if i < n - 1 {
      ItemsBefore(i, n - 1, size);
    }
  }

  /** No pixel is read out of bounds. */
  lemma {:induction false} PixelInBounds(bytes: Bytes, h: Header, x: nat, y: nat)
    requires Complete(bytes, h) && x < h.width && y < h.height
    ensures PixelStart(h, x, y) + Depth(h) <= |bytes|
  {
    StrideHoldsRow(h);
    ItemsBefore(StoredRow(h, y), h.height, Stride(h));
  }

  /** A negative height says that the rows are stored from the top: the first
      one stored shows at the top and each further one a row below. A positive
      one says that they are stored from the bottom. */
  lemma {:induction false} RowsFollowHeight(bytes: Bytes, h: Header, x: nat, y: nat)
    requires ParseHeader(bytes) == Some(h) && y < h.height
    ensures Magnitude(Signed(U32At(bytes, 8))) == h.height
    ensures Signed(U32At(bytes, 8)) < 0 ==> PixelStart(h, 0, 0) == h.offset
    ensures Signed(U32At(bytes, 8)) > 0 ==> PixelStart(h, 0, h.height - 1) == h.offset
    ensures Signed(U32At(bytes, 8)) < 0 && y > 0 ==> PixelStart(h, x, y) == PixelStart(h, x, y - 1) + Stride(h)
    ensures Signed(U32At(bytes, 8)) > 0 && y > 0 ==> PixelStart(h, x, y - 1) == PixelStart(h, x, y) + Stride(h)
  {
    ParsedIsValid(bytes);
  }

  function PixelFrom(bytes: Bytes, i: nat, alpha: bool): (p: Bytes)
    requires i + (if alpha then 4 else 3) <= |bytes|
    ensures |p| == 4
  {
    [bytes[i + 2], bytes[i + 1], bytes[i], if alpha then bytes[i + 3] else 255]
  }

  lemma {:induction false} SkipAtMost(n: nat, size: nat, most: nat)
    requires size <= most
    ensures Skip(n, size) <= Skip(n, most)
  {
    if n > 0 {
      SkipAtMost(n - 1, size, most);
    }
  }

  /** Every size the decoder computes is far below a 32-bit limit. */
  lemma {:induction false} SizesStaySmall(h: Header)
    requires ValidHeader(h)
    ensures Stride(h) <= 4 * MAX_DIMENSION
    ensures h.offset + Skip(h.height, Stride(h)) <= 124 + 4 * MAX_DIMENSION * MAX_DIMENSION < 0x2000_0000
    ensures Skip(h.height, 4 * h.width) <= 4 * MAX_DIMENSION * MAX_DIMENSION
  {
    SkipAtMost(h.height, Stride(h), 4 * MAX_DIMENSION);
    SkipAtMost(h.height, 4 * h.width, 4 * MAX_DIMENSION);
    SkipIsProduct(h.height, 4 * MAX_DIMENSION);
  }

  /** Red, green, blue, alpha of the pixel shown at (x, y). */
  function Pixel(bytes: Bytes, h: Header, x: nat, y: nat): (p: Bytes)
    requires Complete(bytes, h) && ValidHeader(h) && x < h.width && y < h.height
    ensures |p| == 4
  {
    PixelInBounds(bytes, h, x, y);
    PixelFrom(bytes, PixelStart(h, x, y), h.alpha)
  }

  /** The first `n` pixels of row `y`. */
  function Row(bytes: Bytes, h: Header, y: nat, n: nat): Bytes
    requires Complete(bytes, h) && ValidHeader(h) && y < h.height && n <= h.width
  {
    if n == 0 then [] else Row(bytes, h, y, n - 1) + Pixel(bytes, h, n - 1, y)
  }

  function Rows(bytes: Bytes, h: Header, n: nat): Bytes
    requires Complete(bytes, h) && ValidHeader(h) && n <= h.height
  {
    if n == 0 then [] else Rows(bytes, h, n - 1) + Row(bytes, h, n - 1, h.width)
  }

  function DecodePixels(bytes: Bytes, h: Header): Option<Image>
    requires ValidHeader(h)
  {
    if Complete(bytes, h) then Some(Image(h.width, h.height, Rows(bytes, h, h.height))) else None
  }

  function Decode(bytes: Bytes): Option<Image> {
    var header := ParseHeader(bytes);
    ParsedIsValid(bytes);
    if header.None? then None else DecodePixels(bytes, header.value)
  }

  lemma {:induction false} RowLength(bytes: Bytes, h: Header, y: nat, n: nat)
    requires Complete(bytes, h) && ValidHeader(h) && y < h.height && n <= h.width
    ensures |Row(bytes, h, y, n)| == 4 * n
  {
    if n > 0 {
      RowLength(bytes, h, y, n - 1);
    }
  }

  lemma {:induction false} RowsLength(bytes: Bytes, h: Header, n: nat)
    requires Complete(bytes, h) && ValidHeader(h) && n <= h.height
    ensures |Rows(bytes, h, n)| == Skip(n, 4 * h.width)
  {
    if n > 0 {
      RowsLength(bytes, h, n - 1);
      RowLength(bytes, h, n - 1, h.width);
    }
  }

  lemma {:induction false} AppendKeeps(front: Bytes, back: Bytes, i: nat, j: nat)
    requires i <= j <= |front|
    ensures (front + back)[i..j] == front[i..j]
    ensures (front + back)[|front|..|front| + |back|] == back
  {
  }

  lemma {:induction false} AppendHolds(front: Bytes, back: Bytes, i: nat, n: nat)
    requires i + n <= |back|
    ensures (front + back)[|front| + i..|front| + i + n] == back[i..i + n]
  {
  }

  lemma {:induction false} RowHoldsPixel(bytes: Bytes, h: Header, y: nat, n: nat, x: nat)
    requires Complete(bytes, h) && ValidHeader(h) && y < h.height && x < n <= h.width
    ensures 4 * x + 4 <= |Row(bytes, h, y, n)| && Row(bytes, h, y, n)[4 * x..4 * x + 4] == Pixel(bytes, h, x, y)
  {
    RowLength(bytes, h, y, n - 1);
    var front := Row(bytes, h, y, n - 1);
    if x < n - 1 {
      RowHoldsPixel(bytes, h, y, n - 1, x);
      AppendKeeps(front, Pixel(bytes, h, n - 1, y), 4 * x, 4 * x + 4);
    } else {
      AppendKeeps(front, Pixel(bytes, h, n - 1, y), 0, 0);
    }
  }

  /** Where the pixel shown at (x, y) is found in the result. */
  function At(width: nat, x: nat, y: nat): nat {
    Skip(y, 4 * width) + 4 * x
  }

  lemma {:induction false} RowsHoldPixel(bytes: Bytes, h: Header, n: nat, x: nat, y: nat)
    requires Complete(bytes, h) && ValidHeader(h) && x < h.width && y < n <= h.height
    ensures At(h.width, x, y) + 4 <= |Rows(bytes, h, n)|
    ensures Rows(bytes, h, n)[At(h.width, x, y)..At(h.width, x, y) + 4] == Pixel(bytes, h, x, y)
  {
    RowsLength(bytes, h, n - 1);
    var front, back := Rows(bytes, h, n - 1), Row(bytes, h, n - 1, h.width);
    var at := At(h.width, x, y);
    if y < n - 1 {
      RowsHoldPixel(bytes, h, n - 1, x, y);
      AppendKeeps(front, back, at, at + 4);
    } else {
      RowHoldsPixel(bytes, h, y, h.width, x);
      RowLength(bytes, h, y, h.width);
      AppendHolds(front, back, 4 * x, 4);
    }
  }

  /** The image shows these four bytes at (x, y). */
  predicate Shows(image: Image, x: nat, y: nat, pixel: Bytes) {
    var at := At(image.width, x, y);
    at + 4 <= |image.pixels| && image.pixels[at..at + 4] == pixel
  }

  /** A decoded image has four bytes per pixel, and each pixel is the stored one. */
  lemma {:induction false} DecodedPixels(bytes: Bytes, h: Header, x: nat, y: nat)
    requires ValidHeader(h) && Complete(bytes, h) && x < h.width && y < h.height
    ensures DecodePixels(bytes, h).Some?
    ensures var image := DecodePixels(bytes, h).value;
      && image.width == h.width && image.height == h.height
      && |image.pixels| == Skip(h.height, 4 * h.width)
      && Shows(image, x, y, Pixel(bytes, h, x, y))
  {
    RowsLength(bytes, h, h.height);
    RowsHoldPixel(bytes, h, h.height, x, y);
  }

  // --------------------------------------------------------------- the loop

  /** Rounding bits up to whole 32-bit words is rounding bytes up to four. */
  lemma {:induction false} StrideInWords(h: Header)
    requires h.bits == 24 || h.bits == 32
    ensures (h.width * h.bits + 31) / 32 * 4 == Stride(h)
  {
    if h.bits == 24 {
      assert h.width * h.bits == 24 * h.width;
    } else {
      assert h.width * h.bits == 32 * h.width;
    }
  }

  lemma {:induction false} StepsAcross(h: Header, x: nat)
    requires h.bits == 24 || h.bits == 32
    ensures x * (h.bits / 8) == Across(h, x)
  {
  }

  method CopyRow(bytes: Bytes, h: Header, stride: nat, y: nat, pixels0: Bytes) returns (pixels: Bytes)
    requires ValidHeader(h) && Complete(bytes, h) && stride == Stride(h) && y < h.height
    ensures pixels == pixels0 + Row(bytes, h, y, h.width)
  {
    pixels := pixels0;
    var row := if h.topDown then y else h.height - 1 - y;
    SkipIsProduct(row, stride);
    var start := h.offset + row * stride;
    var step := h.bits / 8;
    for x := 0 to h.width
      invariant pixels == pixels0 + Row(bytes, h, y, x)
    {
      PixelInBounds(bytes, h, x, y);
      StepsAcross(h, x);
      pixels := pixels + PixelFrom(bytes, start + x * step, h.alpha);
    }
  }

  method CopyRows(bytes: Bytes, h: Header) returns (r: Option<Image>)
    requires ValidHeader(h)
    ensures r == DecodePixels(bytes, h)
    ensures r.Some? ==> |r.value.pixels| == h.height * (4 * h.width)
  {
    var stride := (h.width * h.bits + 31) / 32 * 4;
    StrideInWords(h);
    SkipIsProduct(h.height, stride);
    if h.offset + h.height * stride > |bytes| {
      return None;
    }
    var pixels: Bytes := [];
    for y := 0 to h.height
      invariant pixels == Rows(bytes, h, y)
    {
      pixels := CopyRow(bytes, h, stride, y, pixels);
    }
    RowsLength(bytes, h, h.height);
    SkipIsProduct(h.height, 4 * h.width);
    r := Some(Image(h.width, h.height, pixels));
  }

  /** The decoder accepts exactly the supported headers with all their pixels
      present. */
  method DecodeDib(bytes: Bytes) returns (r: Option<Image>)
    ensures r == Decode(bytes)
    ensures r.Some? <==> ParseHeader(bytes).Some? && Complete(bytes, ParseHeader(bytes).value)
  {
    var header := ParseHeader(bytes);
    if header.None? {
      return None;
    }
    ParsedIsValid(bytes);
    r := CopyRows(bytes, header.value);
  }

  // ----------------------------------------------------------------- mirrors

  /** The same bitmap with its rows declared the other way up. */
  predicate FlipOf(bytes: Bytes, flipped: Bytes) {
    && |bytes| == |flipped| && |bytes| >= 16
    && (forall i :: 0 <= i < |bytes| && !(8 <= i < 12) ==> bytes[i] == flipped[i])
    && Signed(U32At(flipped, 8)) == -Signed(U32At(bytes, 8))
  }

  lemma {:induction false} FlipKeepsWord(bytes: Bytes, flipped: Bytes, n: nat)
    requires FlipOf(bytes, flipped) && n + 4 <= |bytes| && (n + 4 <= 8 || 12 <= n)
    ensures U32At(flipped, n) == U32At(bytes, n)
  {
  }

  lemma {:induction false} FlipKeepsMasks(bytes: Bytes, flipped: Bytes, size: nat, compression: nat)
    requires FlipOf(bytes, flipped) && size in {40, 108, 124} && size <= |bytes|
    ensures Masks(flipped, size, compression) == Masks(bytes, size, compression)
    ensures Truecolor(flipped, size) == Truecolor(bytes, size)
  {
    FlipKeepsWord(bytes, flipped, 32);
    if |bytes| >= 52 {
      FlipKeepsWord(bytes, flipped, 40);
      FlipKeepsWord(bytes, flipped, 44);
      FlipKeepsWord(bytes, flipped, 48);
    }
    if size != 40 {
      FlipKeepsWord(bytes, flipped, 52);
    }
    if size == 124 {
      FlipKeepsWord(bytes, flipped, 112);
      FlipKeepsWord(bytes, flipped, 116);
    }
  }

  lemma {:induction false} FlipKeepsHeader(bytes: Bytes, flipped: Bytes)
    requires FlipOf(bytes, flipped) && ParseHeader(bytes).Some?
    ensures ParseHeader(flipped) == Some(Flip(ParseHeader(bytes).value))
  {
    FlipKeepsWord(bytes, flipped, 0);
    FlipKeepsWord(bytes, flipped, 4);
    FlipKeepsWord(bytes, flipped, 16);
    FlipKeepsMasks(bytes, flipped, U32At(bytes, 0), U32At(bytes, 16));
  }

  function Flip(h: Header): Header {
    h.(topDown := !h.topDown)
  }

  lemma {:induction false} FlippedPixel(bytes: Bytes, flipped: Bytes, h: Header, x: nat, y: nat)
    requires FlipOf(bytes, flipped) && ValidHeader(h) && Complete(bytes, h) && x < h.width && y < h.height
    ensures Complete(flipped, Flip(h))
    ensures Pixel(flipped, Flip(h), x, y) == Pixel(bytes, h, x, h.height - 1 - y)
  {
    assert Stride(Flip(h)) == Stride(h);
    assert StoredRow(Flip(h), y) == StoredRow(h, h.height - 1 - y);
    assert PixelStart(Flip(h), x, y) == PixelStart(h, x, h.height - 1 - y) >= 12;
    PixelInBounds(bytes, h, x, h.height - 1 - y);
  }

  /** What one image shows in column x of row y, the other shows in the row
      equally far from its other end. */
  ghost predicate Mirrored(image: Image, mirror: Image, height: nat, x: nat, y: nat)
    requires y < height
  {
    exists pixel :: |pixel| == 4 && Shows(image, x, height - 1 - y, pixel) && Shows(mirror, x, y, pixel)
  }

  /** Top-down and bottom-up declarations of the same rows decode to vertical
      mirror images. */
  lemma {:induction false} FlipsMirror(bytes: Bytes, flipped: Bytes, h: Header, x: nat, y: nat)
    requires FlipOf(bytes, flipped) && ParseHeader(bytes) == Some(h) && Complete(bytes, h)
    requires x < h.width && y < h.height
    ensures Decode(bytes).Some? && Decode(flipped).Some?
    ensures Decode(flipped).value.width == h.width && Decode(flipped).value.height == h.height
    ensures Mirrored(Decode(bytes).value, Decode(flipped).value, h.height, x, y)
  {
    ParsedIsValid(bytes);
    FlipKeepsHeader(bytes, flipped);
    FlippedPixel(bytes, flipped, h, x, y);
    DecodedPixels(bytes, h, x, h.height - 1 - y);
    DecodedPixels(flipped, Flip(h), x, y);
    assert Shows(Decode(bytes).value, x, h.height - 1 - y, Pixel(bytes, h, x, h.height - 1 - y));
  }
}
