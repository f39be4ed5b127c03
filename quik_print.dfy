/** The print tool's core logic: the session state (the selected photos and their processed ID
    pictures), the commands that change it, and the page that a print request composes. */
module QuikPrint {
  import opened Raster
  import opened ImageUtil

  /** The page: A4 at 300 dots per inch. */
  const PageWidth: nat := 2480
  const PageHeight: nat := 3508

  /** Where the two ID pictures go: horizontally centred, the first 400 pixels from the top,
      the second 900 pixels below the first. */
  const PageLeft: int := (PageWidth - IdWidth) / 2
  const FirstTop: int := 400
  const SecondTop: int := FirstTop + IdHeight + 900

  datatype Option<T> = None | Some(value: T)

  /** The error dialogs the commands show. */
  datatype Notice = SelectExactlyTwo | SelectTwoFirst | NoPrinterSelected

  /** The outcome of a print request: refused with a notice, or a composed page handed to the
      print service for the named printer. */
  datatype PrintRequest = Refused(notice: Notice) | Dispatched(page: Image, printer: string)

  /** A selected photo after orientation normalisation: a portrait photo is turned a quarter
      clockwise so that every photo ends up landscape, and a landscape or square one is kept. */
  function Normalized(p: Image): (r: Image)
    requires p.Valid()
    ensures r.Valid() && r.width >= r.height
    ensures p.height > p.width ==>
      r.width == p.height && r.height == p.width &&
      forall x, y :: p.Contains(x, y) ==> r.At(p.height - 1 - y, x) == p.At(x, y)
    ensures p.height <= p.width ==> r == p
  {
    if p.height > p.width then RotatedClockwise(p) else p
  }

  /** Normalising twice is normalising once. */
  lemma NormalizedIdempotent(p: Image)
    requires p.Valid()
    ensures Normalized(Normalized(p)) == Normalized(p)
  {
  }

  /** The pair of photos after a swap: two photos change places, any other list is kept. */
  function Swapped(s: seq<Image>): (r: seq<Image>)
    ensures |r| == |s| && multiset(r) == multiset(s)
    ensures |s| == 2 ==> r[0] == s[1] && r[1] == s[0]
    ensures |s| != 2 ==> r == s
  {
    if |s| == 2 then assert s == [s[0]] + [s[1]]; [s[1], s[0]] else s
  }

  /** Swapping twice restores the original order. */
  lemma SwapTwiceRestores(s: seq<Image>)
    ensures Swapped(Swapped(s)) == s
  {
  }

  /** Whether (x, y) lies in the page slot whose top edge is `top`. */
  predicate InSlot(x: int, y: int, top: int)
  {
    PageLeft <= x < PageLeft + IdWidth && top <= y < top + IdHeight
  }

  /** What `build_page` composes: a white page with `first` pasted at (PageLeft, FirstTop) and
      `second` at (PageLeft, SecondTop). */
  function ComposedPage(first: Image, second: Image): (r: Image)
    requires first.Valid() && second.Valid()
    ensures r.Valid() && r.width == PageWidth && r.height == PageHeight
  {
    Pasted(Pasted(Blank(PageWidth, PageHeight, White), first, PageLeft, FirstTop), second, PageLeft, SecondTop)
  }

  /** The layout of a page that shows two ID pictures: each pixel of the first slot comes from
      the first picture, each pixel of the second slot from the second, and every other pixel
      is white. */
  ghost predicate Shows(page: Image, first: Image, second: Image)
    requires first.Valid() && second.Valid()
    requires first.width == second.width == IdWidth && first.height == second.height == IdHeight
  {
    page.Valid() && page.width == PageWidth && page.height == PageHeight &&
    forall x, y :: page.Contains(x, y) ==>
      page.At(x, y) ==
        if InSlot(x, y, FirstTop) then first.At(x - PageLeft, y - FirstTop)
        else if InSlot(x, y, SecondTop) then second.At(x - PageLeft, y - SecondTop)
        else White
  }

  /** Two ID pictures composed onto the page: the first occupies [715, 1765) x [400, 1090), the
      second [715, 1765) x [1990, 2680); both slots lie inside the page, they do not overlap,
      and the page shows the two pictures on white. */
  lemma PageLayout(first: Image, second: Image)
    requires first.Valid() && second.Valid()
    requires first.width == second.width == IdWidth && first.height == second.height == IdHeight
    ensures PageLeft == 715 && PageLeft + IdWidth == 1765 && PageLeft + IdWidth <= PageWidth
    ensures FirstTop == 400 && FirstTop + IdHeight == 1090
    ensures SecondTop == 1990 && SecondTop + IdHeight == 2680 && SecondTop + IdHeight <= PageHeight
    ensures FirstTop + IdHeight <= SecondTop
    ensures Shows(ComposedPage(first, second), first, second)
  {
    var page := ComposedPage(first, second);
    forall x, y | page.Contains(x, y)
      ensures page.At(x, y) ==
        if InSlot(x, y, FirstTop) then first.At(x - PageLeft, y - FirstTop)
        else if InSlot(x, y, SecondTop) then second.At(x - PageLeft, y - SecondTop)
        else White
    {
      assert !(InSlot(x, y, FirstTop) && InSlot(x, y, SecondTop));
    }
  }

  /** `build_page`: allocates a white page and pastes the first two processed pictures into it. */
  method BuildPage(processed: seq<Image>) returns (page: Image)
    requires 2 <= |processed| && processed[0].Valid() && processed[1].Valid()
    ensures page == ComposedPage(processed[0], processed[1])
  {
    var canvas := NewCanvas(PageWidth, PageHeight, White);
    var x := (PageWidth - IdWidth) / 2;
    Paste(canvas, processed[0], x, FirstTop);
    Paste(canvas, processed[1], x, FirstTop + IdHeight + 900);
    page := Snapshot(canvas);
  }

  /** The tool's state: the normalised photos, their processed ID pictures, the layout mode the
      radio buttons hold and the printer the drop-down holds. `lib` is Pillow's resampling. */
  class Session {
    var originals: seq<Image>
    var processed: seq<Image>
    var mode: string
    var printer: string
    const lib: Resampling

    /** No photo or exactly two, each well formed and landscape. */
    ghost predicate Selected()
      reads this
    {
      (|originals| == 0 || |originals| == 2) &&
      forall i :: 0 <= i < |originals| ==> originals[i].Valid() && originals[i].width >= originals[i].height
    }

    /** Every photo has its processed picture, in the same order, for the current mode. */
    ghost predicate UpToDate()
      reads this
      requires Selected()
    {
      |processed| == |originals| &&
      forall i :: 0 <= i < |processed| ==> processed[i] == Processed(originals[i], mode, lib)
    }

    ghost predicate Valid()
      reads this
    {
      Selected() && UpToDate()
    }

    /** The tool at start-up: nothing selected, Fill mode, and the printer found at start-up
        (the system default, or "" when there is none). */
    constructor (lib: Resampling, printer: string)
      ensures Valid() && originals == [] && processed == [] && mode == "fill"
      ensures this.printer == printer && this.lib == lib
    {
      originals, processed := [], [];
      mode := "fill";
      this.printer := printer;
      this.lib := lib;
    }

    /** `rebuild_images`: processes every photo again, in order, for the current mode. */
    method Rebuild()
      requires Selected()
      modifies this`processed
      ensures Valid()
    {
      processed := [];
      for k := 0 to |originals|
        invariant |processed| == k
        invariant forall i :: 0 <= i < k ==> processed[i] == Processed(originals[i], mode, lib)
      {
        var picture := ProcessImage(originals[k], mode, lib);
        processed := processed + [picture];
      }
    }

    /** `select_images`, given the photos the file dialog returned, decoded: anything but two
        photos is refused with a notice and changes nothing; two photos replace the pair, each
        normalised to landscape, and are processed. */
    method Select(files: seq<Image>) returns (notice: Option<Notice>)
      requires Valid()
      requires forall i :: 0 <= i < |files| ==> files[i].Valid()
      modifies this`originals, this`processed
      ensures Valid()
      ensures |files| != 2 ==>
        notice == Some(SelectExactlyTwo) && originals == old(originals) && processed == old(processed)
      ensures |files| == 2 ==>
        notice == None && originals == [Normalized(files[0]), Normalized(files[1])]
    {
      if |files| != 2 {
        return Some(SelectExactlyTwo);
      }
      originals, processed := [], [];
      for k := 0 to |files|
        invariant |originals| == k
        invariant forall i :: 0 <= i < k ==> originals[i] == Normalized(files[i])
      {
        var img := files[k];
        if img.height > img.width {
          img := RotatedClockwise(img);
        }
        originals := originals + [img];
      }
      Rebuild();
      notice := None;
    }

    /** The Fill and Fit radio buttons: store the mode, then rebuild. */
    method ChooseMode(m: string)
      requires Valid()
      modifies this`mode, this`processed
      ensures Valid() && mode == m
    {
      mode := m;
      Rebuild();
    }

    /** The printer drop-down. */
    method ChoosePrinter(name: string)
      modifies this`printer
      ensures printer == name
    {
      printer := name;
    }

    /** `swap_images`: without two photos nothing happens; otherwise the photos change places
        and so do their processed pictures. */
    method Swap()
      requires Valid()
      modifies this`originals, this`processed
      ensures Valid()
      ensures originals == Swapped(old(originals))
      ensures processed == Swapped(old(processed))
    {
      if |originals| != 2 {
        return;
      }
      ghost var before := processed;
      originals := [originals[1], originals[0]];
      Rebuild();
      assert processed[0] == before[1] && processed[1] == before[0];
      assert processed == [before[1], before[0]];
    }

    /** `print_images`: refused unless there are two processed pictures and a printer is
        chosen; otherwise the composed page goes to the chosen printer, laid out as
        `PageLayout` describes. */
    method Print() returns (request: PrintRequest)
      requires Valid()
      ensures |processed| != 2 ==> request == Refused(SelectTwoFirst)
      ensures |processed| == 2 && printer == "" ==> request == Refused(NoPrinterSelected)
      ensures |processed| == 2 && printer != "" ==>
        request == Dispatched(ComposedPage(processed[0], processed[1]), printer) &&
        Shows(request.page, processed[0], processed[1])
    {
      if |processed| != 2 {
        return Refused(SelectTwoFirst);
      }
      if printer == "" {
        return Refused(NoPrinterSelected);
      }
      var page := BuildPage(processed);
      PageLayout(processed[0], processed[1]);
      request := Dispatched(page, printer);
    }
  }

  /** Toggling to another layout mode and back gives the same ID pictures as before: processing
      depends only on the photo and the mode. */
  method ToggleModeTwice(s: Session, other: string)
    requires s.Valid()
    modifies s
    ensures s.Valid() && s.mode == old(s.mode)
    ensures s.originals == old(s.originals) && s.processed == old(s.processed)
  {
    var m := s.mode;
    s.ChooseMode(other);
    s.ChooseMode(m);
  }

  /** Swapping twice restores the pair and its processed pictures in their original order. */
  method SwapTwice(s: Session)
    requires s.Valid()
    modifies s
    ensures s.Valid()
    ensures s.originals == old(s.originals) && s.processed == old(s.processed)
  {
    s.Swap();
    s.Swap();
    SwapTwiceRestores(old(s.originals));
    SwapTwiceRestores(old(s.processed));
  }

  /** A first use: a 2000 x 1000 photo and a 1000 x 2000 photo are selected; the portrait one is
      turned to 2000 x 1000, both become bordered 1050 x 690 ID pictures in Fill mode, and
      printing with no printer chosen is refused. */
  method FirstUseWithoutPrinter(lib: Resampling, a: Image, b: Image)
    returns (photos: seq<Image>, pictures: seq<Image>, request: PrintRequest)
    requires a.Valid() && a.width == 2000 && a.height == 1000
    requires b.Valid() && b.width == 1000 && b.height == 2000
    ensures |photos| == 2 && photos[0] == a && photos[1] == RotatedClockwise(b)
    ensures photos[1].width == 2000 && photos[1].height == 1000
    ensures |pictures| == 2
    ensures forall i :: 0 <= i < 2 ==> pictures[i] == Processed(photos[i], "fill", lib)
    ensures forall i :: 0 <= i < 2 ==> pictures[i].width == IdWidth && pictures[i].height == IdHeight
    ensures request == Refused(NoPrinterSelected)
  {
    var s := new Session(lib, "");
    var notice := s.Select([a, b]);
    photos, pictures := s.originals, s.processed;
    request := s.Print();
  }
}
