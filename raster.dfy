/** The part of the Pillow imaging library that the print tool relies on.

    An image is modelled twice: as a value (`Image`, the content of a bitmap at one moment) and
    as a pixel buffer (`array2<Rgb>`, what Pillow draws and pastes into in place). A buffer is
    indexed `[x, y]`, the way Pillow addresses pixels; `Snapshot` reads a buffer back as a value.
    The resampling filters are not modelled: `Resampling` holds them as functions whose only
    guarantee is the size of what they produce. */
module Raster {

  newtype byte = x: int | 0 <= x < 256

  /** One pixel of an image in Pillow's "RGB" mode. */
  datatype Rgb = Rgb(r: byte, g: byte, b: byte)

  const White := Rgb(255, 255, 255)

  /** A `width` x `height` bitmap; `rows[y][x]` is the pixel Pillow calls (x, y). */
  datatype Image = Image(width: nat, height: nat, rows: seq<seq<Rgb>>)
  {
    predicate Valid()
    {
      |rows| == height && forall y :: 0 <= y < height ==> |rows[y]| == width
    }

    predicate Contains(x: int, y: int)
    {
      0 <= x < width && 0 <= y < height
    }

    function At(x: int, y: int): Rgb
      requires Valid() && Contains(x, y)
    {
      rows[y][x]
    }
  }

  /** Two well-formed images of the same size with the same pixels are the same value. */
  lemma SameImage(a: Image, b: Image)
    requires a.Valid() && b.Valid() && a.width == b.width && a.height == b.height
    requires forall x, y :: a.Contains(x, y) ==> a.At(x, y) == b.At(x, y)
    ensures a == b
  {
    forall y | 0 <= y < a.height
      ensures a.rows[y] == b.rows[y]
    {
      assert |a.rows[y]| == |b.rows[y]| == a.width;
      forall x | 0 <= x < a.width
        ensures a.rows[y][x] == b.rows[y][x]
      {
        assert a.Contains(x, y);
      }
    }
  }

  /** `Image.new("RGB", (w, h), c)`: every pixel has colour `c`. */
  function Blank(w: nat, h: nat, c: Rgb): (r: Image)
    ensures r.Valid() && r.width == w && r.height == h
    ensures forall x, y :: r.Contains(x, y) ==> r.At(x, y) == c
  {
    Image(w, h, seq(h, _ => seq(w, _ => c)))
  }

  /** `canvas.paste(p, (ox, oy))`: the part of `p` that falls inside the canvas replaces the
      canvas pixels under it; everything else, and the canvas size, stays as it was. */
  function Pasted(canvas: Image, p: Image, ox: int, oy: int): (r: Image)
    requires canvas.Valid() && p.Valid()
    ensures r.Valid() && r.width == canvas.width && r.height == canvas.height
    ensures forall x, y :: r.Contains(x, y) ==>
      r.At(x, y) == if p.Contains(x - ox, y - oy) then p.At(x - ox, y - oy) else canvas.At(x, y)
  {
    Image(canvas.width, canvas.height,
      seq(canvas.height, y requires 0 <= y < canvas.height =>
        seq(canvas.width, x requires 0 <= x < canvas.width =>
          if p.Contains(x - ox, y - oy) then p.At(x - ox, y - oy) else canvas.rows[y][x])))
  }

  /** A resampling filter: the colour of pixel (x, y) when `src` is resized to `w` x `h`. */
  type Kernel = (Image, nat, nat, int, int) -> Rgb

  /** Pillow's resampling, which the model does not see: the filter `resize` uses, the size
      `thumbnail` picks for an image that does not fit its box, and the filter it then uses. */
  datatype Resampling = Resampling(
    resize: Kernel,
    thumbnailSize: (nat, nat, nat, nat) -> (nat, nat),
    thumbnail: Kernel)

  /** What Pillow documents of `thumbnail`'s size rule: an image that does not fit the box is
      shrunk so that it fits, in both directions, and is never enlarged. */
  ghost predicate ThumbnailShrinks(lib: Resampling)
  {
    forall w: nat, h: nat, bw: nat, bh: nat :: !(w <= bw && h <= bh) ==>
      lib.thumbnailSize(w, h, bw, bh).0 <= w && lib.thumbnailSize(w, h, bw, bh).0 <= bw &&
      lib.thumbnailSize(w, h, bw, bh).1 <= h && lib.thumbnailSize(w, h, bw, bh).1 <= bh
  }

  /** `p.resize((w, h), filter)`: a new `w` x `h` image, whatever the aspect ratio of `p`. */
  function Resized(p: Image, w: nat, h: nat, filter: Kernel): (r: Image)
    ensures r.Valid() && r.width == w && r.height == h
    ensures forall x, y :: r.Contains(x, y) ==> r.At(x, y) == filter(p, w, h, x, y)
  {
    Image(w, h, seq(h, y => seq(w, x => filter(p, w, h, x, y))))
  }

  /** `p.thumbnail((bw, bh), filter)`: an image that already fits the box is left as it is;
      any other is resized to the size the library picks. */
  function Thumbnail(p: Image, bw: nat, bh: nat, lib: Resampling): (r: Image)
    requires p.Valid()
    ensures r.Valid()
    ensures p.width <= bw && p.height <= bh ==> r == p
    ensures ThumbnailShrinks(lib) ==>
      r.width <= p.width && r.width <= bw && r.height <= p.height && r.height <= bh
  {
    if p.width <= bw && p.height <= bh then p
    else
      var size := lib.thumbnailSize(p.width, p.height, bw, bh);
      Resized(p, size.0, size.1, lib.thumbnail)
  }

  /** `p.rotate(-90, expand=True)`: a quarter turn clockwise onto a canvas of the swapped size.
      Pillow does this as an exact transpose, so no pixel is resampled: the pixel at (x, y)
      lands at (height - 1 - y, x). */
  function RotatedClockwise(p: Image): (r: Image)
    requires p.Valid()
    ensures r.Valid() && r.width == p.height && r.height == p.width
    ensures forall x, y :: p.Contains(x, y) ==> r.At(p.height - 1 - y, x) == p.At(x, y)
  {
    Image(p.height, p.width,
      seq(p.width, y requires 0 <= y < p.width =>
        seq(p.height, x requires 0 <= x < p.height => p.rows[p.height - 1 - x][y])))
  }

  /** A quarter turn counter-clockwise: the pixel at (x, y) lands at (y, width - 1 - x). */
  function RotatedCounterClockwise(p: Image): (r: Image)
    requires p.Valid()
    ensures r.Valid() && r.width == p.height && r.height == p.width
    ensures forall x, y :: p.Contains(x, y) ==> r.At(y, p.width - 1 - x) == p.At(x, y)
  {
    Image(p.height, p.width,
      seq(p.width, y requires 0 <= y < p.width =>
        seq(p.height, x requires 0 <= x < p.height => p.rows[x][p.width - 1 - y])))
  }

  /** The clockwise rotation loses nothing: turning back counter-clockwise gives the image back,
      and the other way round. */
  lemma RotationsInverse(p: Image)
    requires p.Valid()
    ensures RotatedCounterClockwise(RotatedClockwise(p)) == p
    ensures RotatedClockwise(RotatedCounterClockwise(p)) == p
  {
    var q := RotatedClockwise(p);
    var back := RotatedCounterClockwise(q);
    forall x, y | p.Contains(x, y)
      ensures back.At(x, y) == p.At(x, y)
    {
      assert q.At(p.height - 1 - y, x) == p.At(x, y);
    }
    SameImage(back, p);
    var q' := RotatedCounterClockwise(p);
    var back' := RotatedClockwise(q');
    forall x, y | p.Contains(x, y)
      ensures back'.At(x, y) == p.At(x, y)
    {
      assert q'.At(y, p.width - 1 - x) == p.At(x, y);
    }
    SameImage(back', p);
  }

  /** A buffer's pixels, read back as an image value. */
  function Snapshot(a: array2<Rgb>): (r: Image)
    reads a
    ensures r.Valid() && r.width == a.Length0 && r.height == a.Length1
    ensures forall x, y :: r.Contains(x, y) ==> r.At(x, y) == a[x, y]
  {
    Image(a.Length0, a.Length1,
      seq(a.Length1, y requires 0 <= y < a.Length1 reads a =>
        seq(a.Length0, x requires 0 <= x < a.Length0 reads a => a[x, y])))
  }

  /** A new buffer holding the pixels of `p` (an image object Pillow hands back). */
  method NewBuffer(p: Image) returns (a: array2<Rgb>)
    requires p.Valid()
    ensures fresh(a) && Snapshot(a) == p
  {
    a := new Rgb[p.width, p.height]((x, y) requires 0 <= x < p.width && 0 <= y < p.height => p.At(x, y));
    SameImage(Snapshot(a), p);
  }

  /** `Image.new("RGB", (w, h), c)` as a buffer. */
  method NewCanvas(w: nat, h: nat, c: Rgb) returns (a: array2<Rgb>)
    ensures fresh(a) && Snapshot(a) == Blank(w, h, c)
  {
    a := new Rgb[w, h]((x, y) => c);
    SameImage(Snapshot(a), Blank(w, h, c));
  }

  /** `canvas.paste(p, (ox, oy))`, in place. */
  method Paste(canvas: array2<Rgb>, p: Image, ox: int, oy: int)
    requires p.Valid()
    modifies canvas
    ensures Snapshot(canvas) == Pasted(old(Snapshot(canvas)), p, ox, oy)
  {
    ghost var before := Snapshot(canvas);
    forall x, y | 0 <= x < canvas.Length0 && 0 <= y < canvas.Length1 && p.Contains(x - ox, y - oy) {
      canvas[x, y] := p.At(x - ox, y - oy);
    }
    SameImage(Snapshot(canvas), Pasted(before, p, ox, oy));
  }

  /** Whether (x, y) lies on the one-pixel outline of the rectangle [x0, x1] x [y0, y1], both
      corners included, as `ImageDraw.rectangle` draws it. */
  predicate OnOutline(x: int, y: int, x0: int, y0: int, x1: int, y1: int)
  {
    x0 <= x <= x1 && y0 <= y <= y1 && (x == x0 || x == x1 || y == y0 || y == y1)
  }

  /** `ImageDraw.Draw(img).rectangle([x0, y0, x1, y1], outline=c)`, in place: the outline pixels
      inside the image become `c`, every other pixel is kept. Pillow refuses a rectangle whose
      second corner lies left of or above the first. */
  method DrawOutline(img: array2<Rgb>, x0: int, y0: int, x1: int, y1: int, c: Rgb)
    requires x0 <= x1 && y0 <= y1
    modifies img
    ensures forall x, y :: 0 <= x < img.Length0 && 0 <= y < img.Length1 ==>
      img[x, y] == if OnOutline(x, y, x0, y0, x1, y1) then c else old(img[x, y])
  {
    forall x, y | 0 <= x < img.Length0 && 0 <= y < img.Length1 && OnOutline(x, y, x0, y0, x1, y1) {
      img[x, y] := c;
    }
  }
}
