/**
 * The integer pixel filters of client/src/filters.js. An `ImageData` buffer holds four bytes
 * per pixel (red, green, blue, alpha); each filter walks it four bytes at a time, rewrites
 * the three colour bytes of the pixel and leaves alpha alone. The model reads the buffer as
 * a sequence of pixels (`Pixels`, the inverse of `Bytes`) and walks that.
 */
module Filters {

  /** One element of a `Uint8ClampedArray`. */
  type Byte = x: int | 0 <= x < 256

  datatype Rgba = Rgba(r: Byte, g: Byte, b: Byte, a: Byte)

  type Frame = seq<Rgba>

  /** The amount `brightness` adds to each colour byte. */
  const Boost := 50

  // ---------------------------------------------------------------------------------------
  // The buffer layout
  // ---------------------------------------------------------------------------------------

  /** The `ImageData` buffer of a frame: the pixels' bytes in order, four per pixel. */
  function Bytes(f: Frame): (data: seq<Byte>)
    ensures |data| == 4 * |f|
  {
    if |f| == 0 then [] else [f[0].r, f[0].g, f[0].b, f[0].a] + Bytes(f[1..])
  }

  /** The pixels of a buffer whose length is a multiple of four. */
  function Pixels(data: seq<Byte>): (f: Frame)
    requires |data| % 4 == 0
    ensures 4 * |f| == |data|
    decreases |data|
  {
    if |data| == 0 then [] else [Rgba(data[0], data[1], data[2], data[3])] + Pixels(data[4..])
  }

  lemma {:induction false} PixelsOfBytes(f: Frame)
    ensures Pixels(Bytes(f)) == f
    decreases |f|
  {
    if |f| > 0 {
      PixelsOfBytes(f[1..]);
    }
  }

  lemma {:induction false} BytesOfPixels(data: seq<Byte>)
    requires |data| % 4 == 0
    ensures Bytes(Pixels(data)) == data
    decreases |data|
  {
    if |data| > 0 {
      assert Pixels(data) == [Rgba(data[0], data[1], data[2], data[3])] + Pixels(data[4..]);
      BytesOfPixels(data[4..]);
      assert data == data[..4] + data[4..];
    }
  }

  /** Byte `4 k + c` of the buffer is channel `c` of pixel `k`; in particular the bytes whose
      index is 3 modulo 4 are exactly the alpha bytes. */
  lemma {:induction false} ByteAt(f: Frame, k: nat)
    requires k < |f|
    ensures Bytes(f)[4 * k] == f[k].r && Bytes(f)[4 * k + 1] == f[k].g
    ensures Bytes(f)[4 * k + 2] == f[k].b && Bytes(f)[4 * k + 3] == f[k].a
    decreases k
  {
    var head := [f[0].r, f[0].g, f[0].b, f[0].a];
    var rest := Bytes(f[1..]);
    assert Bytes(f) == head + rest;
    if k > 0 {
      ByteAt(f[1..], k - 1);
      assert f[1..][k - 1] == f[k];
      var j := 4 * (k - 1);
      assert 4 * k == j + 4;
      assert Bytes(f)[j + 4] == rest[j] && Bytes(f)[j + 5] == rest[j + 1];
      assert Bytes(f)[j + 6] == rest[j + 2] && Bytes(f)[j + 7] == rest[j + 3];
    }
  }

  // ---------------------------------------------------------------------------------------
  // One pixel
  // ---------------------------------------------------------------------------------------

  /** What storing a non-negative integer into a `Uint8ClampedArray` keeps. */
  function Clamp(x: nat): (r: Byte)
    ensures r <= x && (r == x || r == 255)
  {
    if x < 256 then x else 255
  }

  /** invert's pixel: each colour byte `x` becomes `255 - x`. */
  function InvertPixel(p: Rgba): (q: Rgba)
    ensures q.r as int + p.r as int == 255 && q.g as int + p.g as int == 255 && q.b as int + p.b as int == 255
    ensures q.a == p.a
  {
    Rgba(255 - p.r, 255 - p.g, 255 - p.b, p.a)
  }

  /** brightness's pixel: each colour byte raised by 50, but never past 255. */
  function BrightenPixel(p: Rgba): (q: Rgba)
    ensures q.a == p.a
    ensures p.r <= q.r && p.g <= q.g && p.b <= q.b
    ensures q.r == (if p.r + Boost <= 255 then p.r + Boost else 255)
    ensures q.g == (if p.g + Boost <= 255 then p.g + Boost else 255)
    ensures q.b == (if p.b + Boost <= 255 then p.b + Boost else 255)
  {
    Rgba(Clamp(p.r + Boost), Clamp(p.g + Boost), Clamp(p.b + Boost), p.a)
  }

  /** The grey level blackwhite stores for a pixel, from its red, green and blue bytes
      (the clamped, rounded `0.299 r + 0.587 g + 0.114 b`). */
  type Luma = (Byte, Byte, Byte) -> Byte

  /** blackwhite's pixel: the three colour bytes all take the pixel's grey. */
  function GrayPixel(p: Rgba, gray: Luma): (q: Rgba)
    ensures q.r == q.g == q.b == gray(p.r, p.g, p.b)
    ensures q.a == p.a
  {
    var level := gray(p.r, p.g, p.b);
    Rgba(level, level, level, p.a)
  }

  // ---------------------------------------------------------------------------------------
  // The filters
  // ---------------------------------------------------------------------------------------

  /** invert: one pass over the pixels, rewriting each in place. */
  method Invert(data: Frame) returns (out: Frame)
    ensures |out| == |data|
    ensures forall k :: 0 <= k < |data| ==> out[k] == InvertPixel(data[k])
  {
    out := data;
    var i := 0;
    while i < |data|
      invariant 0 <= i <= |data| && |out| == |data|
      invariant forall k :: 0 <= k < i ==> out[k] == InvertPixel(data[k])
      invariant forall k :: i <= k < |data| ==> out[k] == data[k]
    {
      out := out[i := InvertPixel(out[i])];
      i := i + 1;
    }
  }

  /** brightness: as invert, with `Math.min(255, x + 50)` for each colour byte. */
  method Brighten(data: Frame) returns (out: Frame)
    ensures |out| == |data|
    ensures forall k :: 0 <= k < |data| ==> out[k] == BrightenPixel(data[k])
  {
    out := data;
    var i := 0;
    while i < |data|
      invariant 0 <= i <= |data| && |out| == |data|
      invariant forall k :: 0 <= k < i ==> out[k] == BrightenPixel(data[k])
      invariant forall k :: i <= k < |data| ==> out[k] == data[k]
    {
      out := out[i := BrightenPixel(out[i])];
      i := i + 1;
    }
  }

  /** blackwhite: the grey is taken from the pixel's own bytes before any is overwritten. */
  method BlackWhite(data: Frame, gray: Luma) returns (out: Frame)
    ensures |out| == |data|
    ensures forall k :: 0 <= k < |data| ==> out[k] == GrayPixel(data[k], gray)
  {
    out := data;
    var i := 0;
    while i < |data|
      invariant 0 <= i <= |data| && |out| == |data|
      invariant forall k :: 0 <= k < i ==> out[k] == GrayPixel(data[k], gray)
      invariant forall k :: i <= k < |data| ==> out[k] == data[k]
    {
      out := out[i := GrayPixel(out[i], gray)];
      i := i + 1;
    }
  }

  /** The filters of the `Filters` table that work on whole bytes. */
  datatype Filter = NoFilter | InvertFilter | BrightnessFilter | BlackWhiteFilter

  /** Runs one filter over a frame; `none` does nothing at all. Every filter keeps each
      pixel's alpha byte and the frame's size. */
  method Apply(filter: Filter, data: Frame, gray: Luma) returns (out: Frame)
    ensures |out| == |data|
    ensures forall k :: 0 <= k < |data| ==> out[k].a == data[k].a
    ensures filter == NoFilter ==> out == data
    ensures filter == InvertFilter ==> forall k :: 0 <= k < |data| ==> out[k] == InvertPixel(data[k])
    ensures filter == BrightnessFilter ==> forall k :: 0 <= k < |data| ==> out[k] == BrightenPixel(data[k])
    ensures filter == BlackWhiteFilter ==> forall k :: 0 <= k < |data| ==> out[k] == GrayPixel(data[k], gray)
  {
    match filter
    case NoFilter => out := data;
    case InvertFilter => out := Invert(data);
    case BrightnessFilter => out := Brighten(data);
    case BlackWhiteFilter => out := BlackWhite(data, gray);
  }

  // ---------------------------------------------------------------------------------------
  // Properties
  // ---------------------------------------------------------------------------------------

  /** Inverting a pixel twice gives it back. */
  lemma InvertInvolution(p: Rgba)
    ensures InvertPixel(InvertPixel(p)) == p
  {
  }

  /** The brightness function composed with itself `n` times: algebra of the pixel function
      only, since the processor draws every frame afresh from the camera and never brightens
      its own output. */
  function BrightenTimes(p: Rgba, n: nat): (q: Rgba)
    ensures q.a == p.a
    ensures q.r == Clamp(p.r + n * Boost) && q.g == Clamp(p.g + n * Boost) && q.b == Clamp(p.b + n * Boost)
  {
    if n == 0 then p else BrightenPixel(BrightenTimes(p, n - 1))
  }

  /** Six passes of brightness saturate every colour byte, whatever the pixel. */
  lemma BrightnessSaturates(p: Rgba)
    ensures var q := BrightenTimes(p, 6); q.r == 255 && q.g == 255 && q.b == 255
  {
  }

  /** With a grey level that maps an already grey pixel to its own level (true of the weights
      0.299, 0.587 and 0.114, which sum to 1), blackwhite is idempotent. */
  lemma BlackWhiteIdempotent(p: Rgba, gray: Luma)
    requires forall v: Byte :: gray(v, v, v) == v
    ensures GrayPixel(GrayPixel(p, gray), gray) == GrayPixel(p, gray)
  {
    var level := gray(p.r, p.g, p.b);
    assert gray(level, level, level) == level;
  }
}
