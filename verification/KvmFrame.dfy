/** The dirty-rectangle framebuffer: RGB565 bytes, converted incrementally to 32-bit pixels. */
module KvmFrame {
  import opened Arithmetic
  import opened Utf8

  type Pixel = nat

  const FRESH_PIXEL: Pixel := 0xFF10_1010
  const U32_MAX := 0xFFFF_FFFF
  const GENERATIONS := 0x1_0000_0000_0000_0000

  // ---- colours -----------------------------------------------------------------------------

  function Expand5(v: nat): nat { v * 255 / 31 }

  function Expand6(v: nat): nat { v * 255 / 63 }

  function FromChannels(r: nat, g: nat, b: nat): Pixel {
    0xFF00_0000 + Expand5(r) * 0x1_0000 + Expand6(g) * 0x100 + Expand5(b)
  }

  function Raw(lo: Byte, hi: Byte): nat {
    lo as int + 256 * (hi as int)
  }

  function Red(raw: nat): nat { raw / 2048 % 32 }

  function Green(raw: nat): nat { raw / 32 % 64 }

  function Blue(raw: nat): nat { raw % 32 }

  /** The 32-bit pixel two RGB565 bytes stand for, low byte first. */
  function Converted(lo: Byte, hi: Byte): Pixel {
    FromChannels(Red(Raw(lo, hi)), Green(Raw(lo, hi)), Blue(Raw(lo, hi)))
  }

  lemma {:induction false} Expand5Injective(v: nat, v': nat)
    requires v < 32 && v' < 32
    ensures Expand5(v) < 256
    ensures Expand5(v) == Expand5(v') ==> v == v'
  {
  }

  lemma {:induction false} Expand6Injective(v: nat, v': nat)
    requires v < 64 && v' < 64
    ensures Expand6(v) < 256
    ensures Expand6(v) == Expand6(v') ==> v == v'
  {
  }

  lemma {:induction false} ChannelsInjective(r: nat, g: nat, b: nat, r': nat, g': nat, b': nat)
    requires r < 32 && g < 64 && b < 32 && r' < 32 && g' < 64 && b' < 32
    requires FromChannels(r, g, b) == FromChannels(r', g', b')
    ensures r == r' && g == g' && b == b'
  {
    Expand5Injective(r, r');
    Expand5Injective(b, b');
    Expand5Injective(b', b);
    Expand6Injective(g, g');
    Expand6Injective(g', g);
  }

  lemma {:induction false} RawParts(raw: nat)
    requires raw < 65536
    ensures raw == Red(raw) * 2048 + Green(raw) * 32 + Blue(raw)
    ensures Red(raw) < 32 && Green(raw) < 64 && Blue(raw) < 32
  {
    assert raw / 2048 < 32;
    assert raw / 32 / 64 == raw / 2048;
  }

  lemma {:induction false} RawInjective(lo: Byte, hi: Byte, lo': Byte, hi': Byte)
    ensures Raw(lo, hi) < 65536
    ensures Raw(lo, hi) == Raw(lo', hi') ==> lo == lo' && hi == hi'
  {
  }

  /** No two colours are shown the same. */
  lemma {:induction false} ConversionInjective(lo: Byte, hi: Byte, lo': Byte, hi': Byte)
    requires Converted(lo, hi) == Converted(lo', hi')
    ensures lo == lo' && hi == hi'
  {
    var a, a' := Raw(lo, hi), Raw(lo', hi');
    RawInjective(lo, hi, lo', hi');
    RawInjective(lo', hi', lo, hi);
    RawParts(a);
    RawParts(a');
    ChannelsInjective(Red(a), Green(a), Blue(a), Red(a'), Green(a'), Blue(a'));
  }

  /** A fresh framebuffer does not show what its zeroed bytes stand for. */
  lemma {:induction false} FreshPixelIsNotBlack()
    ensures Converted(0, 0) == 0xFF00_0000 != FRESH_PIXEL
  {
  }

  // ---- rectangles --------------------------------------------------------------------------

  datatype Rect = Rect(x: nat, y: nat, width: nat, height: nat)

  function SaturatingAdd(a: nat, b: nat): nat {
    if a + b <= U32_MAX then a + b else U32_MAX
  }

  function Min(a: nat, b: nat): nat {
    if a < b then a else b
  }

  /** Is this place inside the rectangle, clipped to the frame? */
  predicate Covers(rect: Rect, width: nat, height: nat, row: nat, column: nat) {
    rect.y <= row < Min(SaturatingAdd(rect.y, rect.height), height)
    && rect.x <= column < Min(SaturatingAdd(rect.x, rect.width), width)
  }

  function Index(width: nat, row: nat, column: nat): nat {
    row * width + column
  }

  lemma {:induction false} IndexInRange(width: nat, height: nat, row: nat, column: nat)
    requires row < height && column < width
    ensures Index(width, row, column) < width * height
  {
    MulMonotone(row + 1, height, width);
    assert (row + 1) * width == row * width + width;
  }

  lemma {:induction false} IndexDistinct(width: nat, row: nat, column: nat, row': nat, column': nat)
    requires column < width && column' < width && (row != row' || column != column')
    ensures Index(width, row, column) != Index(width, row', column')
  {
    assert (row + 1) * width == row * width + width;
    assert (row' + 1) * width == row' * width + width;
    if row < row' {
      MulMonotone(row + 1, row', width);
    } else if row' < row {
      MulMonotone(row' + 1, row, width);
    }
  }

  // ---- the frame ---------------------------------------------------------------------------

  class Frame {
    const width: nat
    const height: nat
    const rgb565: array<Byte>
    const xrgb8888: array<Pixel>
    var generation: nat

    ghost predicate Valid()
      reads this
    {
      width <= U32_MAX && height <= U32_MAX && generation < GENERATIONS
      && rgb565.Length == 2 * (width * height) && xrgb8888.Length == width * height
    }

    constructor (width: nat, height: nat)
      requires width <= U32_MAX && height <= U32_MAX
      ensures Valid() && fresh(rgb565) && fresh(xrgb8888)
      ensures this.width == width && this.height == height && generation == 0
      ensures forall i :: 0 <= i < rgb565.Length ==> rgb565[i] == 0
      ensures forall i :: 0 <= i < xrgb8888.Length ==> xrgb8888[i] == FRESH_PIXEL
    {
      var pixels := width * height;
      this.width, this.height, generation := width, height, 0;
      rgb565 := new Byte[2 * pixels](_ => 0);
      xrgb8888 := new Pixel[pixels](_ => FRESH_PIXEL);
    }

    method ConvertRect(rect: Rect)
      requires Valid()
      modifies this`generation, xrgb8888
      ensures Valid()
      ensures generation == (old(generation) + 1) % GENERATIONS
      ensures Redrawn(width, height, rgb565[..], old(xrgb8888[..]), rect, xrgb8888[..])
    {
      var endX := Min(SaturatingAdd(rect.x, rect.width), width);
      var endY := Min(SaturatingAdd(rect.y, rect.height), height);
      ghost var before := xrgb8888[..];
      var row := rect.y;
      while row < endY
        invariant rect.y <= row && generation == old(generation)
        invariant PartRedrawn(width, height, rgb565[..], before, rect, row, 0, xrgb8888[..])
      {
        ConvertRow(rect, row, endX, before);
        row := row + 1;
      }
      generation := (generation + 1) % GENERATIONS;
    }

    /** One pixel: it shows what its bytes stand for, and the others stay. */
    method ConvertPixel(row: nat, column: nat)
      requires Valid() && row < height && column < width
      modifies xrgb8888
      ensures Index(width, row, column) < xrgb8888.Length
      ensures xrgb8888[..]
        == old(xrgb8888[..])[Index(width, row, column) := Meant(width, height, rgb565[..], row, column)]
    {
      IndexInRange(width, height, row, column);
      var pixel := row * width + column;
      xrgb8888[pixel] := Converted(rgb565[2 * pixel], rgb565[2 * pixel + 1]);
    }

    /** The inner loop, over one row of the rectangle. */
    method ConvertRow(rect: Rect, row: nat, endX: nat, ghost before: seq<Pixel>)
      requires Valid() && endX == Min(SaturatingAdd(rect.x, rect.width), width)
      requires rect.y <= row < Min(SaturatingAdd(rect.y, rect.height), height)
      requires PartRedrawn(width, height, rgb565[..], before, rect, row, 0, xrgb8888[..])
      modifies xrgb8888
      ensures PartRedrawn(width, height, rgb565[..], before, rect, row + 1, 0, xrgb8888[..])
    {
      var column := rect.x;
      while column < endX
        invariant rect.x <= column
        invariant PartRedrawn(width, height, rgb565[..], before, rect, row, column, xrgb8888[..])
      {
        ghost var was := xrgb8888[..];
        ConvertPixel(row, column);
        PartRedrawnNext(width, height, rgb565[..], before, rect, row, column, was, xrgb8888[..]);
        column := column + 1;
      }
    }
  }

  predicate Sized(width: nat, height: nat, bytes: seq<Byte>, pixels: seq<Pixel>) {
    |bytes| == 2 * (width * height) && |pixels| == width * height
  }

  /** The pixel at a place. */
  function At(width: nat, height: nat, pixels: seq<Pixel>, row: nat, column: nat): Pixel
    requires |pixels| == width * height && row < height && column < width
  {
    IndexInRange(width, height, row, column);
    pixels[Index(width, row, column)]
  }

  /** The pixel the bytes at a place stand for. */
  function Meant(width: nat, height: nat, bytes: seq<Byte>, row: nat, column: nat): Pixel
    requires |bytes| == 2 * (width * height) && row < height && column < width
  {
    IndexInRange(width, height, row, column);
    var i := Index(width, row, column);
    Converted(bytes[2 * i], bytes[2 * i + 1])
  }

  /** Exactly the places the rectangle covers show their current bytes; the others are unchanged. */
  predicate Redrawn(width: nat, height: nat, bytes: seq<Byte>, before: seq<Pixel>, rect: Rect, after: seq<Pixel>) {
    Sized(width, height, bytes, before) && |after| == |before|
    && forall row, column | 0 <= row < height && 0 <= column < width ::
         At(width, height, after, row, column)
         == if Covers(rect, width, height, row, column) then Meant(width, height, bytes, row, column)
            else At(width, height, before, row, column)
  }

  /** The same, with only the rows before `rows` and the columns before `columns` of that row done. */
  predicate PartRedrawn(width: nat, height: nat, bytes: seq<Byte>, before: seq<Pixel>, rect: Rect, rows: nat,
                        columns: nat, after: seq<Pixel>) {
    Sized(width, height, bytes, before) && |after| == |before|
    && forall row, column | 0 <= row < height && 0 <= column < width ::
         At(width, height, after, row, column)
         == if (row < rows || (row == rows && column < columns)) && Covers(rect, width, height, row, column)
            then Meant(width, height, bytes, row, column)
            else At(width, height, before, row, column)
  }

  lemma {:induction false} AtUpdated(
    width: nat, height: nat, pixels: seq<Pixel>, row: nat, column: nat, value: Pixel, r: nat, c: nat)
    requires |pixels| == width * height && row < height && column < width && r < height && c < width
    requires Index(width, row, column) < |pixels|
    ensures At(width, height, pixels[Index(width, row, column) := value], r, c)
      == if r == row && c == column then value else At(width, height, pixels, r, c)
  {
    IndexInRange(width, height, r, c);
    if r != row || c != column {
      IndexDistinct(width, r, c, row, column);
    }
  }

  lemma {:induction false} PartRedrawnNext(
    width: nat, height: nat, bytes: seq<Byte>, before: seq<Pixel>, rect: Rect, row: nat, column: nat,
    was: seq<Pixel>, after: seq<Pixel>)
    requires PartRedrawn(width, height, bytes, before, rect, row, column, was)
    requires row < height && column < width && Covers(rect, width, height, row, column)
    requires Index(width, row, column) < |was|
    requires after == was[Index(width, row, column) := Meant(width, height, bytes, row, column)]
    ensures PartRedrawn(width, height, bytes, before, rect, row, column + 1, after)
  {
    forall r, c | 0 <= r < height && 0 <= c < width
      ensures At(width, height, after, r, c)
        == if (r < row || (r == row && c < column + 1)) && Covers(rect, width, height, r, c)
           then Meant(width, height, bytes, r, c)
           else At(width, height, before, r, c)
    {
      AtUpdated(width, height, was, row, column, Meant(width, height, bytes, row, column), r, c);
    }
  }

  // ---- whole runs of updates ---------------------------------------------------------------

  /** One update: the rectangle received, and the bytes and pixels after it. */
  datatype Update = Update(rect: Rect, bytes: seq<Byte>, pixels: seq<Pixel>)

  /** Received bytes land only inside the clipped rectangle, which is then converted. */
  predicate IsUpdate(width: nat, height: nat, before: Update, u: Update) {
    Sized(width, height, before.bytes, before.pixels)
    && Redrawn(width, height, u.bytes, before.pixels, u.rect, u.pixels)
    && forall row, column | 0 <= row < height && 0 <= column < width ::
         Covers(u.rect, width, height, row, column) || SameBytes(width, height, before.bytes, u.bytes, row, column)
  }

  predicate SameBytes(width: nat, height: nat, a: seq<Byte>, b: seq<Byte>, row: nat, column: nat)
    requires |a| == |b| == 2 * (width * height) && row < height && column < width
  {
    IndexInRange(width, height, row, column);
    var i := Index(width, row, column);
    a[2 * i] == b[2 * i] && a[2 * i + 1] == b[2 * i + 1]
  }

  /** `us[0]` is the frame before any update. */
  predicate IsRun(width: nat, height: nat, us: seq<Update>) {
    us != [] && Sized(width, height, us[0].bytes, us[0].pixels)
    && forall i :: 0 < i < |us| ==> IsUpdate(width, height, us[i - 1], us[i])
  }

  predicate EverCovered(width: nat, height: nat, us: seq<Update>, row: nat, column: nat) {
    exists i :: 0 < i < |us| && Covers(us[i].rect, width, height, row, column)
  }

  /**
   * After any run of updates, every pixel ever covered shows the conversion of its current bytes,
   * and every other pixel shows what it showed at the start.
   */
  lemma {:induction false} IncrementalEqualsFull(width: nat, height: nat, us: seq<Update>, row: nat, column: nat)
    requires IsRun(width, height, us) && row < height && column < width
    ensures var last := us[|us| - 1];
      Sized(width, height, last.bytes, last.pixels)
      && At(width, height, last.pixels, row, column)
         == if EverCovered(width, height, us, row, column) then Meant(width, height, last.bytes, row, column)
            else At(width, height, us[0].pixels, row, column)
  {
    if |us| == 1 {
    } else {
      var n := |us| - 1;
      var front := us[..n];
      assert forall i :: 0 <= i < n ==> front[i] == us[i];
      IncrementalEqualsFull(width, height, front, row, column);
      assert IsUpdate(width, height, us[n - 1], us[n]);
      CoveredSnoc(width, height, us, row, column);
      if !Covers(us[n].rect, width, height, row, column) {
        assert SameBytes(width, height, us[n - 1].bytes, us[n].bytes, row, column);
      }
    }
  }

  /** A place no update has covered keeps its bytes. */
  lemma {:induction false} UncoveredKeepsBytes(width: nat, height: nat, us: seq<Update>, row: nat, column: nat)
    requires IsRun(width, height, us) && row < height && column < width
    requires !EverCovered(width, height, us, row, column)
    ensures Sized(width, height, us[|us| - 1].bytes, us[|us| - 1].pixels)
    ensures SameBytes(width, height, us[0].bytes, us[|us| - 1].bytes, row, column)
  {
    if |us| == 1 {
    } else {
      var n := |us| - 1;
      var front := us[..n];
      assert forall i :: 0 <= i < n ==> front[i] == us[i];
      CoveredSnoc(width, height, us, row, column);
      UncoveredKeepsBytes(width, height, front, row, column);
      assert IsUpdate(width, height, us[n - 1], us[n]);
    }
  }

  /** A frame as it is created. */
  predicate IsFresh(width: nat, height: nat, u: Update) {
    Sized(width, height, u.bytes, u.pixels)
    && (forall i :: 0 <= i < |u.bytes| ==> u.bytes[i] == 0)
    && (forall i :: 0 <= i < |u.pixels| ==> u.pixels[i] == FRESH_PIXEL)
  }

  /**
   * In every run from a fresh frame, a pixel shows what its bytes stand for exactly when some
   * update has covered it.
   */
  lemma {:induction false} ShowsItsBytesIffCovered(width: nat, height: nat, us: seq<Update>, row: nat, column: nat)
    requires IsRun(width, height, us) && IsFresh(width, height, us[0]) && row < height && column < width
    ensures var last := us[|us| - 1];
      Sized(width, height, last.bytes, last.pixels)
      && (At(width, height, last.pixels, row, column) == Meant(width, height, last.bytes, row, column)
          <==> EverCovered(width, height, us, row, column))
  {
    IncrementalEqualsFull(width, height, us, row, column);
    IndexInRange(width, height, row, column);
    if !EverCovered(width, height, us, row, column) {
      UncoveredKeepsBytes(width, height, us, row, column);
      FreshPixelIsNotBlack();
    }
  }

  lemma {:induction false} CoveredSnoc(width: nat, height: nat, us: seq<Update>, row: nat, column: nat)
    requires |us| > 1
    ensures var n := |us| - 1;
      EverCovered(width, height, us, row, column)
      <==> EverCovered(width, height, us[..n], row, column) || Covers(us[n].rect, width, height, row, column)
  {
    var n := |us| - 1;
    if EverCovered(width, height, us[..n], row, column) {
      var i :| 0 < i < n && Covers(us[..n][i].rect, width, height, row, column);
      assert Covers(us[i].rect, width, height, row, column);
    }
    if EverCovered(width, height, us, row, column) {
      var i :| 0 < i < |us| && Covers(us[i].rect, width, height, row, column);
      assert i < n ==> us[..n][i] == us[i];
    }
  }

  // ---- drawing -----------------------------------------------------------------------------

  function Max1(n: nat): nat {
    if n < 1 then 1 else n
  }

  /** The source coordinate a window coordinate shows. */
  function Scaled(at: nat, source: nat, target: nat): nat {
    at * source / Max1(target)
  }

  lemma {:induction false} ScaledInRange(at: nat, source: nat, target: nat)
    requires at < target
    ensures Scaled(at, source, target) < source <==> source > 0
  {
    if source > 0 {
      MulMonotone(at + 1, target, source);
      assert (at + 1) * source == at * source + source;
      DivBelow(at * source, source, target);
    }
  }

  lemma {:induction false} DivBelow(n: nat, bound: nat, d: nat)
    requires d > 0 && n < d * bound
    ensures n / d < bound
  {
    assert n == d * (n / d) + n % d;
    if bound <= n / d {
      MulMonotone(bound, n / d, d);
    }
  }

  /** Every pixel a window asks for exists exactly when the frame is not empty. */
  lemma {:induction false} DrawIndicesInRangeIff(
    frameWidth: nat, frameHeight: nat, width: nat, height: nat, x: nat, y: nat)
    requires x < width && y < height
    ensures Index(frameWidth, Scaled(y, frameHeight, height), Scaled(x, frameWidth, width)) < frameWidth * frameHeight
      <==> frameWidth > 0 && frameHeight > 0
  {
    ScaledInRange(x, frameWidth, width);
    ScaledInRange(y, frameHeight, height);
    if frameWidth > 0 && frameHeight > 0 {
      IndexInRange(frameWidth, frameHeight, Scaled(y, frameHeight, height), Scaled(x, frameWidth, width));
    } else {
      assert frameWidth * frameHeight == 0;
    }
  }
}
