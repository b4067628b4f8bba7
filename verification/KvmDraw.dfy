/** Drawing the framebuffer into a window of any size, and when drawing may be skipped. */
module KvmDraw {
  import opened Arithmetic
  import opened Wrappers
  import opened KvmFrame

  datatype Size = Size(width: nat, height: nat)

  /** What a frame shows: its own size and pixels. */
  datatype Image = Image(width: nat, height: nat, pixels: seq<Pixel>) {
    predicate Valid() {
      |pixels| == width * height
    }

    predicate IsEmpty() {
      width == 0 || height == 0
    }
  }

  /** A window with any place in it can only show an image that is not empty. */
  predicate Drawable(image: Image, size: Size) {
    image.Valid() && (size.width > 0 && size.height > 0 ==> !image.IsEmpty())
  }

  /** A window's buffer is never empty, whatever its size. */
  predicate Fits(buffer: seq<Pixel>, size: Size) {
    |buffer| == Max1(size.width) * Max1(size.height)
  }

  /** The pixel of an image that a place of the window shows. */
  function Sampled(image: Image, size: Size, y: nat, x: nat): Pixel
    requires Drawable(image, size) && y < size.height && x < size.width
  {
    ScaledInRange(y, image.height, size.height);
    ScaledInRange(x, image.width, size.width);
    At(image.width, image.height, image.pixels,
       Scaled(y, image.height, size.height), Scaled(x, image.width, size.width))
  }

  /** The first `rows` rows of the window, and `columns` places of the next, show the image. */
  predicate ShowsPart(buffer: seq<Pixel>, image: Image, size: Size, rows: nat, columns: nat)
    requires Drawable(image, size) && Fits(buffer, size)
  {
    forall y, x | 0 <= y < size.height && 0 <= x < size.width && (y < rows || (y == rows && x < columns)) ::
      At(size.width, size.height, buffer, y, x) == Sampled(image, size, y, x)
  }

  /** Every place of the window shows its sample of the image. */
  predicate Shows(buffer: seq<Pixel>, image: Image, size: Size)
    requires Drawable(image, size) && Fits(buffer, size)
  {
    forall y, x | 0 <= y < size.height && 0 <= x < size.width ::
      At(size.width, size.height, buffer, y, x) == Sampled(image, size, y, x)
  }

  class View {
    var renderedGeneration: nat
    var renderedSize: Option<Size>

    constructor ()
      ensures renderedGeneration == GENERATIONS - 1 && renderedSize == None
    {
      renderedGeneration, renderedSize := GENERATIONS - 1, None;
    }

    method Draw(frame: Frame, size: Size, buffer: array<Pixel>) returns (presented: bool)
      requires frame.Valid() && buffer != frame.xrgb8888 && Fits(buffer[..], size)
      requires Drawable(Image(frame.width, frame.height, frame.xrgb8888[..]), size)
      modifies this, buffer
      ensures presented <==> !(old(renderedGeneration) == frame.generation && old(renderedSize) == Some(size))
      ensures renderedGeneration == frame.generation && renderedSize == Some(size)
      ensures presented ==> Shows(buffer[..], Image(frame.width, frame.height, frame.xrgb8888[..]), size)
      ensures !presented ==> buffer[..] == old(buffer[..])
    {
      if frame.generation == renderedGeneration && renderedSize == Some(size) {
        return false;
      }
      ghost var image := Image(frame.width, frame.height, frame.xrgb8888[..]);
      for y := 0 to size.height
        invariant ShowsPart(buffer[..], image, size, y, 0)
      {
        var sourceY := y * frame.height / Max1(size.height);
        for x := 0 to size.width
          invariant ShowsPart(buffer[..], image, size, y, x)
        {
          var sourceX := x * frame.width / Max1(size.width);
          ScaledInRange(y, frame.height, size.height);
          ScaledInRange(x, frame.width, size.width);
          IndexInRange(size.width, size.height, y, x);
          IndexInRange(frame.width, frame.height, sourceY, sourceX);
          ghost var was := buffer[..];
          buffer[y * size.width + x] := frame.xrgb8888[sourceY * frame.width + sourceX];
          assert buffer[..] == was[Index(size.width, y, x) := Sampled(image, size, y, x)];
          forall r, c | 0 <= r < size.height && 0 <= c < size.width && (r < y || (r == y && c < x + 1))
            ensures At(size.width, size.height, buffer[..], r, c) == Sampled(image, size, r, c)
          {
            AtUpdated(size.width, size.height, was, y, x, Sampled(image, size, y, x), r, c);
          }
        }
      }
      renderedGeneration := frame.generation;
      renderedSize := Some(size);
      presented := true;
    }
  }

  // ---- runs of updates and redraws ---------------------------------------------------------

  /** What the window shows: an image at a size. */
  datatype Picture = Picture(image: Image, size: Size)

  /** `drawn` counts the updates there had been when the window was last drawn. */
  datatype Screen = Screen(
    image: Image, updates: nat, drawn: nat, renderedGeneration: nat, renderedSize: Option<Size>,
    shown: Option<Picture>)

  datatype Action = Update(image: Image) | Redraw(size: Size)

  function Fresh(image: Image): Screen {
    Screen(image, 0, 0, GENERATIONS - 1, None, None)
  }

  function Generation(s: Screen): nat {
    s.updates % GENERATIONS
  }

  predicate Skips(s: Screen, size: Size) {
    s.renderedGeneration == Generation(s) && s.renderedSize == Some(size)
  }

  function Step(s: Screen, a: Action): Screen {
    match a
    case Update(image) => s.(image := image, updates := s.updates + 1)
    case Redraw(size) =>
      if Skips(s, size) then s
      else s.(drawn := s.updates, renderedGeneration := Generation(s), renderedSize := Some(size),
              shown := Some(Picture(s.image, size)))
  }

  function Run(s: Screen, actions: seq<Action>): Screen {
    if actions == [] then s else Step(Run(s, actions[..|actions| - 1]), actions[|actions| - 1])
  }

  /** The record of the last drawing is right, and the window is current if nothing came since. */
  predicate Recorded(s: Screen) {
    s.drawn <= s.updates
    && (s.renderedSize.Some? ==>
          s.renderedGeneration == s.drawn % GENERATIONS && s.shown.Some? && s.shown.value.size == s.renderedSize.value)
    && (s.renderedSize.Some? && s.drawn == s.updates ==> s.shown.value.image == s.image)
  }

  lemma {:induction false} RunRecorded(image: Image, actions: seq<Action>)
    ensures Recorded(Run(Fresh(image), actions))
  {
    if actions == [] {
    } else {
      RunRecorded(image, actions[..|actions| - 1]);
    }
  }

  lemma {:induction false} SameRemainder(a: nat, b: nat, m: nat)
    requires a <= b < a + m && a % m == b % m
    ensures a == b
  {
    var turns := b / m - a / m;
    assert b - a == m * turns;
    if turns >= 1 {
      MulMonotone(1, turns, m);
    }
  }

  /**
   * After any run, a redraw leaves the window showing the current frame at the window's size,
   * whether or not it skips, unless a whole turn of the 64-bit counter has gone by undrawn.
   */
  lemma {:induction false} RedrawIsCurrent(image: Image, actions: seq<Action>, size: Size)
    ensures var before := Run(Fresh(image), actions);
      var after := Step(before, Redraw(size));
      before.updates - before.drawn < GENERATIONS ==> after.shown == Some(Picture(before.image, size))
  {
    var before := Run(Fresh(image), actions);
    RunRecorded(image, actions);
    if Skips(before, size) && before.updates - before.drawn < GENERATIONS {
      SameRemainder(before.drawn, before.updates, GENERATIONS);
    }
  }
}
