# Quik Print Solutions — image-layout core in Dafny

Quik Print Solutions is a desktop tool that prints two ID-style photos on one A4 page. The user
picks two photos. Each photo is turned to landscape if it is portrait. Each is then made into a
1050 x 690 pixel "ID picture" (3.5 x 2.3 inches at 300 dpi), either by stretching it to the box
(Fill) or by shrinking it into the box and centring it on white (Fit). A 2-pixel grey border is
stamped on every ID picture. On a print request the two pictures are pasted onto a white
2480 x 3508 page, horizontally centred, 400 pixels from the top and 900 pixels apart.

This project models that pipeline and the small session state behind it:

- `raster.dfy` (module `Raster`): the parts of the Pillow library the tool uses. An image is a
  value (`Image`, with `rows[y][x]` the pixel Pillow calls (x, y)) or a pixel buffer
  (`array2<Rgb>` indexed `[x, y]`) that Pillow draws and pastes into in place. `Image.new`,
  `paste` and `ImageDraw.rectangle` are methods on buffers. `rotate(-90, expand=True)` is an
  exact quarter turn. The resampling filters are not modelled: `Resampling` carries them as
  functions, so `resize` and `thumbnail` guarantee only the size of their result.
- `image_util.dfy` (module `ImageUtil`): `add_border` as a loop drawing nested outlines into a
  buffer, and `process_image` with its Fill and Fit branches. Each is proved against a
  specification function (`Bordered`, `Processed`).
- `quik_print.dfy` (module `QuikPrint`): orientation normalisation, `build_page`, and a
  `Session` class. The class holds the module-level lists `original_images` and
  `processed_images`, the Fill/Fit choice and the chosen printer. Its methods are
  `select_images`, `rebuild_images`, `swap_images`, the mode and printer choices and the guard
  logic of `print_images`. The class invariant `Valid()` says there are no photos or exactly
  two, each landscape. It also says each processed picture is the processing of the photo at
  the same position under the current mode.

Two facts about the code shape the model:

- Stamping the border a second time paints the same ring in the same colour, so
  `BorderedIdempotent` proves the stamp idempotent.
- `build_page` indexes the list without checking its length; the refusal is in `print_images`,
  so `BuildPage` requires two pictures and `Session.Print` models the refusal.

## Model

| member | source | states |
|---|---|---|
| `Raster.Blank` | quik_print_solutions_final.py:45 | a new image has the requested size and every pixel has the requested colour |
| `Raster.Pasted` | quik_print_solutions_final.py:48 | pasting keeps the canvas size; a canvas pixel under the pasted image takes that image's pixel at the offset position, every other pixel is kept, and the part outside the canvas is clipped |
| `Raster.Paste` | quik_print_solutions_final.py:48 | the in-place paste leaves the buffer equal to `Pasted` of its old content |
| `Raster.NewCanvas` | quik_print_solutions_final.py:45 | `Image.new` gives a fresh buffer of the given size, filled with one colour |
| `Raster.NewBuffer` | quik_print_solutions_final.py:42 | the image `resize` returns is a fresh buffer holding exactly the resized pixels |
| `Raster.Resized` | quik_print_solutions_final.py:42 | `resize` gives exactly the requested size, whatever the aspect ratio; each pixel is the filter's |
| `Raster.Thumbnail` | quik_print_solutions_final.py:44 | `thumbnail` leaves an image that already fits the box unchanged; under the library's size rule the result is never larger than the image or the box in either direction |
| `Raster.RotatedClockwise` | quik_print_solutions_final.py:71 | `rotate(-90, expand=True)` swaps width and height and moves the pixel at (x, y) to (height-1-y, x) |
| `Raster.RotatedCounterClockwise` | quik_print_solutions_final.py:71 | the reverse quarter turn moves the pixel at (x, y) to (y, width-1-x) |
| `Raster.RotationsInverse` | quik_print_solutions_final.py:70-71 | the clockwise rotation loses no pixel: the counter-clockwise turn undoes it, and the other way round |
| `Raster.DrawOutline` | quik_print_solutions_final.py:34 | `rectangle(..., outline=c)` paints exactly the in-image pixels on the one-pixel outline of the inclusive rectangle and keeps every other pixel |
| `ImageUtil.OutlineIsInset` | quik_print_solutions_final.py:33-34 | the i-th rectangle drawn by `add_border` is exactly the set of pixels at distance i from the nearest edge |
| `ImageUtil.Bordered` | quik_print_solutions_final.py:30-35 | the bordered image has the same size; pixels with min(x, y, w-1-x, h-1-y) < 2 are (180,180,180) and every other pixel is unchanged |
| `ImageUtil.BorderedIdempotent` | quik_print_solutions_final.py:33-34 | stamping the border twice gives the same image as stamping it once |
| `ImageUtil.AddBorder` | quik_print_solutions_final.py:30-35 | after the loop of outlines the buffer equals `Bordered` of its old content: same size, ring in the border colour, interior untouched |
| `ImageUtil.Letterboxed` | quik_print_solutions_final.py:45-49 | the Fit canvas is always exactly 1050 x 690, whatever the size of the shrunk photo |
| `ImageUtil.Processed` | quik_print_solutions_final.py:37-51 | in every mode the processed picture is exactly 1050 x 690 and its border ring is (180,180,180) |
| `ImageUtil.FillStretches` | quik_print_solutions_final.py:41-42 | in Fill mode every pixel inside the border is the filter's pixel for a resize to exactly 1050 x 690 |
| `ImageUtil.LetterboxCentres` | quik_print_solutions_final.py:45-49 | a photo that fits the box lands at x = (1050-w)//2 >= 0 and y = (690-h)//2 >= 0, wholly inside the box and centred to within one pixel; the canvas is the photo within the pasted region and white everywhere else |
| `ImageUtil.FitCentres` | quik_print_solutions_final.py:43-49 | in any mode other than "fill" the photo is shrunk into the box and never enlarged; inside the border each pixel is the shrunk photo's within the region pasted at the centring offsets and white outside it |
| `ImageUtil.ProcessImage` | quik_print_solutions_final.py:37-51 | the Fill resize or the Fit white canvas with its paste, followed by the in-place border, yields exactly `Processed` |
| `QuikPrint.Normalized` | quik_print_solutions_final.py:70-71 | after normalisation width >= height; a portrait photo has its size swapped and every pixel moved as by a clockwise quarter turn; any other photo is unchanged |
| `QuikPrint.NormalizedIdempotent` | quik_print_solutions_final.py:70-71 | normalising a normalised photo changes nothing |
| `QuikPrint.Swapped` | quik_print_solutions_final.py:98-101 | a list of exactly two photos is exchanged; any other list is kept; nothing is lost or added |
| `QuikPrint.SwapTwiceRestores` | quik_print_solutions_final.py:98-101 | swapping twice restores the original order |
| `QuikPrint.ComposedPage` | quik_print_solutions_final.py:104-109 | the composed page is always 2480 x 3508 |
| `QuikPrint.PageLayout` | quik_print_solutions_final.py:104-109 | with two 1050 x 690 pictures, picture 0 occupies [715,1765) x [400,1090) and picture 1 occupies [715,1765) x [1990,2680); both slots are inside the page and disjoint, and every other pixel is white |
| `QuikPrint.BuildPage` | quik_print_solutions_final.py:104-109 | the white page with the two pastes is exactly `ComposedPage` of the first two processed pictures |
| `QuikPrint.Session.constructor` | quik_print_solutions_final.py:24-25 | the tool starts with both lists empty, in Fill mode, with the given printer name and resampling, a state in which the invariant holds |
| `QuikPrint.Session.Rebuild` | quik_print_solutions_final.py:76-79 | afterwards there is one processed picture per photo, in the same order, each the processing of that photo under the current mode |
| `QuikPrint.Session.Select` | quik_print_solutions_final.py:55-74 | a selection of other than 2 files shows the notice and leaves both lists unchanged; 2 files replace the photos by their normalised forms, in order, and rebuild, so both lists have length 2 |
| `QuikPrint.Session.ChooseMode` | quik_print_solutions_final.py:194-204 | choosing Fill or Fit stores the mode and rebuilds, keeping the invariant |
| `QuikPrint.Session.ChoosePrinter` | quik_print_solutions_final.py:236-241 | choosing a printer stores its name |
| `QuikPrint.Session.Swap` | quik_print_solutions_final.py:98-102 | with exactly two photos the photos and their processed pictures exchange places; otherwise nothing changes |
| `QuikPrint.Session.Print` | quik_print_solutions_final.py:111-121 | no page is built unless there are exactly 2 processed pictures and a non-empty printer name; otherwise the composed page goes to that printer, laid out as `PageLayout` states |
| `QuikPrint.ToggleModeTwice` | quik_print_solutions_final.py:194-204 | switching to another mode and back gives the same processed pictures as before |
| `QuikPrint.SwapTwice` | quik_print_solutions_final.py:98-102 | two swaps restore both the photos and the processed pictures |
| `QuikPrint.FirstUseWithoutPrinter` | quik_print_solutions_final.py:55-121 | selecting a 2000 x 1000 and a 1000 x 2000 photo keeps the first and turns the second to 2000 x 1000; both become the Fill-mode processing of those photos: bordered 1050 x 690 pictures; printing with no printer is refused with "No printer selected" |

## Left out

- The Tkinter window, its widgets, key bindings and the preview thumbnails of `update_preview` are not modelled. They are event-loop plumbing with no checkable logic. `Session.Rebuild` therefore ends without refreshing a preview.
- Pillow's LANCZOS filter and `thumbnail`'s size rounding are floating-point internals of the library. `Resampling` carries them as functions. Its filters fix only the size of their output. `ThumbnailShrinks` states Pillow's documented promise that a thumbnail fits the box and is never enlarged. The Fit lemmas assume it.
- ImageUtil.FitCentres: does not state that the shrunk photo keeps the photo's aspect ratio to within rounding, because `thumbnail`'s size rule is not modelled.
- `thumbnail`'s reducing step (`reducing_gap`) is folded into its own abstract filter, separate from the one `resize` uses.
- The box size `int(3.5 * 300)` by `int(2.3 * 300)` is computed in floating point. The model uses the integers 1050 and 690 that these expressions evaluate to.
- The file dialog and `Image.open(...).convert("RGB")` are I/O. `Session.Select` receives the chosen photos already decoded. A photo that fails to decode part-way through `select_images` would leave one photo and no processed pictures, breaking the invariant. That path is not modelled.
- Printing itself is not modelled: the temporary JPEG, the A4 PDF built with ReportLab, `os.remove` and `win32api.ShellExecute`. `Session.Print` returns the composed page and the printer name that these steps would receive.
- Printer enumeration and the default-printer lookup are OS calls. The session is created with the printer name they would yield, or "" when there is none.
- The logo, the website link and the version label are cosmetic and not modelled.
- Python's lists hold references to Pillow image objects, while the model's lists hold image values. No stored image is changed after it is stored, so nothing observable is lost. `thumbnail` resizes a private copy in place, and it is modelled as a function on values because a buffer cannot change size.
- ImageUtil.AddBorder: requires both sides to be at least 3 pixels, because Pillow rejects a rectangle whose second corner lies before its first. The only caller passes 1050 x 690 pictures.
