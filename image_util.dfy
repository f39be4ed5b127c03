/** The image utilities of the print tool: the border stamper and the Fit/Fill resizer that turn
    one source photo into a fixed-size ID picture. */
module ImageUtil {
  import opened Raster

  /** The ID picture box: 3.5 x 2.3 inches at 300 dots per inch. */
  const IdWidth: nat := 1050
  const IdHeight: nat := 690

  const BorderColor := Rgb(180, 180, 180)
  const BorderWidth: nat := 2

  function Min(a: int, b: int): int
  {
    if a <= b then a else b
  }

  /** How far (x, y) lies inside a `w` x `h` image: its distance to the nearest edge. */
  function Inset(x: int, y: int, w: int, h: int): int
  {
    Min(Min(x, y), Min(w - 1 - x, h - 1 - y))
  }

  /** Whether (x, y) lies in the border ring of a `w` x `h` image. */
  predicate InBorder(x: int, y: int, w: int, h: int)
  {
    Inset(x, y, w, h) < BorderWidth
  }

  /** The outline of the rectangle inset by `i` from every edge is exactly the set of pixels
      that lie `i` pixels inside the image. */
  lemma OutlineIsInset(x: int, y: int, w: int, h: int, i: int)
    requires 0 <= x < w && 0 <= y < h && 0 <= i && i <= w - 1 - i && i <= h - 1 - i
    ensures OnOutline(x, y, i, i, w - i - 1, h - i - 1) <==> Inset(x, y, w, h) == i
  {
  }

  /** `p` with its border ring painted in the border colour. */
  function Bordered(p: Image): (r: Image)
    requires p.Valid()
    ensures r.Valid() && r.width == p.width && r.height == p.height
    ensures forall x, y :: r.Contains(x, y) ==>
      r.At(x, y) == if InBorder(x, y, p.width, p.height) then BorderColor else p.At(x, y)
  {
    Image(p.width, p.height,
      seq(p.height, y requires 0 <= y < p.height =>
        seq(p.width, x requires 0 <= x < p.width =>
          if InBorder(x, y, p.width, p.height) then BorderColor else p.rows[y][x])))
  }

  /** Stamping the border a second time changes nothing: it paints the same ring in the same
      colour. */
  lemma BorderedIdempotent(p: Image)
    requires p.Valid()
    ensures Bordered(Bordered(p)) == Bordered(p)
  {
    var once := Bordered(p);
    var twice := Bordered(once);
    forall x, y | once.Contains(x, y)
      ensures twice.At(x, y) == once.At(x, y)
    {
    }
    SameImage(twice, once);
  }

  /** `add_border`: draws `BorderWidth` nested one-pixel outlines in the border colour, the i-th
      inset by i from every edge, into the image in place. */
  method AddBorder(img: array2<Rgb>)
    requires 2 * BorderWidth - 1 <= img.Length0 && 2 * BorderWidth - 1 <= img.Length1
    modifies img
    ensures Snapshot(img) == Bordered(old(Snapshot(img)))
  {
    ghost var before := Snapshot(img);
    var w, h := img.Length0, img.Length1;
    for i := 0 to BorderWidth
      invariant forall x, y :: 0 <= x < w && 0 <= y < h ==>
        img[x, y] == if Inset(x, y, w, h) < i then BorderColor else before.At(x, y)
    {
      DrawOutline(img, i, i, w - i - 1, h - i - 1, BorderColor);
      forall x, y | 0 <= x < w && 0 <= y < h {
        OutlineIsInset(x, y, w, h, i);
      }
    }
    SameImage(Snapshot(img), Bordered(before));
  }

  /** The Fit canvas: a white ID box with `t` pasted at the floor-divided centring offsets. */
  function Letterboxed(t: Image): (r: Image)
    requires t.Valid()
    ensures r.Valid() && r.width == IdWidth && r.height == IdHeight
  {
    Pasted(Blank(IdWidth, IdHeight, White), t, (IdWidth - t.width) / 2, (IdHeight - t.height) / 2)
  }

  /** What `process_image` produces from `src` in layout mode `mode`: "fill" stretches the photo
      to the box, any other mode shrinks it into the box and centres it on white; either way the
      border is stamped last. The result is always exactly the ID box, with its ring in the
      border colour. */
  function Processed(src: Image, mode: string, lib: Resampling): (r: Image)
    requires src.Valid()
    ensures r.Valid() && r.width == IdWidth && r.height == IdHeight
    ensures forall x, y :: r.Contains(x, y) && InBorder(x, y, IdWidth, IdHeight) ==> r.At(x, y) == BorderColor
  {
    Bordered(
      if mode == "fill" then Resized(src, IdWidth, IdHeight, lib.resize)
      else Letterboxed(Thumbnail(src, IdWidth, IdHeight, lib)))
  }

  /** Fill: every pixel inside the border is the filter's pixel for a resize to exactly the box,
      whatever the aspect ratio of the photo. */
  lemma FillStretches(src: Image, lib: Resampling)
    requires src.Valid()
    ensures forall x, y :: 0 <= x < IdWidth && 0 <= y < IdHeight && !InBorder(x, y, IdWidth, IdHeight) ==>
      Processed(src, "fill", lib).At(x, y) == lib.resize(src, IdWidth, IdHeight, x, y)
  {
  }

  /** The Fit canvas for a photo `t` that fits the box: `t` lands at non-negative offsets,
      wholly inside the box and centred (the right and bottom margins equal the left and top
      ones or exceed them by one pixel); every pixel is the photo's where the photo was pasted
      and white elsewhere. */
  lemma LetterboxCentres(t: Image)
    requires t.Valid() && t.width <= IdWidth && t.height <= IdHeight
    ensures
      var x0, y0 := (IdWidth - t.width) / 2, (IdHeight - t.height) / 2;
      0 <= x0 && x0 + t.width <= IdWidth && 0 <= y0 && y0 + t.height <= IdHeight &&
      x0 <= IdWidth - (x0 + t.width) <= x0 + 1 && y0 <= IdHeight - (y0 + t.height) <= y0 + 1 &&
      forall x, y :: 0 <= x < IdWidth && 0 <= y < IdHeight ==>
        Letterboxed(t).At(x, y) == if t.Contains(x - x0, y - y0) then t.At(x - x0, y - y0) else White
  {
  }

  /** Fit: in every mode other than "fill" the photo is shrunk to fit the box, never enlarged,
      and inside the border the picture is the letterbox canvas: the shrunk photo where it was
      pasted at the centring offsets and white elsewhere. */
  lemma FitCentres(src: Image, mode: string, lib: Resampling)
    requires src.Valid() && mode != "fill" && ThumbnailShrinks(lib)
    ensures
      var t := Thumbnail(src, IdWidth, IdHeight, lib);
      var x0, y0 := (IdWidth - t.width) / 2, (IdHeight - t.height) / 2;
      var r := Processed(src, mode, lib);
      t.width <= src.width && t.width <= IdWidth && t.height <= src.height && t.height <= IdHeight &&
      forall x, y :: 0 <= x < IdWidth && 0 <= y < IdHeight && !InBorder(x, y, IdWidth, IdHeight) ==>
        r.At(x, y) == if t.Contains(x - x0, y - y0) then t.At(x - x0, y - y0) else White
  {
    var t := Thumbnail(src, IdWidth, IdHeight, lib);
    LetterboxCentres(t);
    assert Processed(src, mode, lib) == Bordered(Letterboxed(t));
  }

  /** `process_image`: the Fill branch resizes into a new image; the Fit branch shrinks a copy,
      allocates a white box and pastes the copy at the centring offsets; then the border is drawn
      in place. */
  method ProcessImage(src: Image, mode: string, lib: Resampling) returns (out: Image)
    requires src.Valid()
    ensures out == Processed(src, mode, lib)
  {
    var img: array2<Rgb>;
    if mode == "fill" {
      img := NewBuffer(Resized(src, IdWidth, IdHeight, lib.resize));
    } else {
      var thumb := Thumbnail(src, IdWidth, IdHeight, lib);
      img := NewCanvas(IdWidth, IdHeight, White);
      var x := (IdWidth - thumb.width) / 2;
      var y := (IdHeight - thumb.height) / 2;
      Paste(img, thumb, x, y);
    }
    AddBorder(img);
    out := Snapshot(img);
  }
}
