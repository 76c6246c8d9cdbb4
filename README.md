# ascii-art in Dafny

A Dafny model of the conversion core of `asciiArtPython.py` from the ascii-art project.
The model covers four pieces:

- **Quantizer.** Each 8-bit grayscale sample picks one of the 12 glyphs of the ramp
  `#@&${(=*;:. ` through the index `int(v/256*12)`.
- **Canvas builder.** `AsciiArtImage` applies a pixel-budget resize guard, then builds one
  line of glyphs per pixel row.
- **Serialisation and export.** The text form keeps rows 0, 2, 4, … joined by line breaks.
  The exporter writes that text, or describes a PNG in which every row is drawn in a
  20-pixel cell. Any other mode does nothing.
- **Video.** `vidéo_vers_images` keeps every `interval`-th frame and writes it to the data
  directory under a consecutive number. `AsciiArtVideo` then builds one canvas per kept
  frame, in order, and exports them as numbered images.

Files:

- `outcomes.dfy`: the Python exceptions that are modelled and a `Result` type.
- `glyphs.dfy`: the ramp and the quantizer.
- `decimal.dfy`: `str()` of a frame number and its inverse.
- `canvas.dfy`: grayscale rasters, the glyph grid, the text form, `split`/`join`, and the widest row.
- `frames.dfy`: the frame interval, the kept indices and the frame-extraction loop.
- `ascii_art.dfy`: the classes `AsciiArtImage` and `AsciiArtVideo`.

How the model represents the source:

- Floats become integers. `v/256` is a float with at most eight significant bits, and
  multiplying it by 12 is exact. So `int(v/256*12)` equals the integer `v*12 div 256`.
  `GlyphIndexIsFloor` ties that integer to the real quotient.
- PIL's resize is a function parameter `resize(image, budget)`. It stands for the resize
  to the scaled, truncated dimensions. The guard around it is modelled in `Sampled`:
  - an image with at most `taille_maxi` pixels is used as it is;
  - otherwise an empty image (the budget is then negative) divides by zero;
  - a negative budget makes the square root complex, and `int()` of it raises a TypeError;
  - a zero budget asks PIL for a (0, 0) image, which it refuses with a ValueError;
  - a positive budget fails the same way when `resize` gives an image with a zero side.
- `AsciiArtImage(source, taille_maxi)` is `AsciiArtImage.New`, which returns the
  exception or a fresh object. Its constructor holds the quantizing loops of lines 118-124.
- Python's `//` is written out as `FloorDiv`, because Dafny's `/` is Euclidean and gives a
  different answer for a negative `fps_max`. A zero test of `%` gives the same answer in
  Python and in Dafny.
- The data directory is a `map` from path to frame. Frames are written at
  `./data/{nom}{count}.png`, and the video reads back the same paths.
  `FramePathInjective` shows that no kept frame overwrites another.
- Frame extraction raises a `ZeroDivisionError` exactly when `fps == 0 || fps_max == 0`:
  - `fps_max == 0` with `fps > 0` fails at the interval (line 42);
  - a zero interval fails at the remainder (line 47);
  - `fps == 0` fails at the duration `round(TMP/fps)` (line 55).
- `max([])` raises on an image export of a canvas without rows (line 149).
- The source's default arguments are declared as Dafny defaults. The inputs that stand
  for I/O (the frames, the data directory, `resize`) come before them.

Quirks of the code that the model keeps:

- The quantizer index is never clamped. The `Sample` range, 0 to 255, is what keeps it
  inside the ramp.
- The interval is `fps // fps_max`. A 19 fps source with a maximum of 10 therefore keeps
  every frame, at 19 frames per second (`NineteenFpsKeepsEveryFrame`).
  `FrameIntervalPositive` states what holds for `fps_max >= 1`:
  - when `fps <= fps_max` the interval is 1 and every frame is kept, at the source rate;
  - when `fps > fps_max` the kept rate `fps / interval` lies in `[fps_max, 2·fps_max)`.
- A degenerate image within the budget is not rejected. A canvas with no rows serialises
  to `""`, and its image export raises at `max([])`.
- An unknown export mode is a silent no-op.
- `taille_frame_maxi` is accepted by both `vidéo_vers_images` and `AsciiArtVideo` and
  never used. Every video frame is converted with the default budget 10000.

## Model

| member | source | states |
|---|---|---|
| `Glyphs.GlyphIndex` | asciiArtPython.py:114-123 | the ramp index of every sample 0..255 is below the ramp length 12, so the lookup never goes out of range |
| `Glyphs.Glyph` | asciiArtPython.py:123 | the character chosen for a sample is a glyph of the ramp |
| `Glyphs.GlyphIndexIsFloor` | asciiArtPython.py:123 | the integer index is the floor of the real value v / 256 × 12 the source computes |
| `Glyphs.GlyphIndexMonotone` | asciiArtPython.py:123 | a brighter sample never gets a lower ramp index |
| `Glyphs.GlyphExamples` | asciiArtPython.py:114-123 | 0 gives index 0 '#', 255 gives the last index ' ', 128 gives index 6 '=' |
| `Glyphs.RampHasNoNewline` | asciiArtPython.py:114 | no glyph of the ramp is a line break |
| `Decimal.DecimalString` | asciiArtPython.py:48 | str(n) is a non-empty digit string that starts with '0' only for zero |
| `Decimal.DecimalRoundTrip` | asciiArtPython.py:48 | reading the digits of str(n) back gives n |
| `Decimal.DecimalStringInjective` | asciiArtPython.py:48 | different numbers have different decimal strings |
| `Canvas.Sampled` | asciiArtPython.py:116-117 | a source within the budget is kept as it is; the guard raises exactly when the source exceeds the budget and the budget is not positive or the resized image has a zero side; above the budget a success is always the resized image; an empty source above the budget raises ZeroDivisionError, a non-empty source under a negative budget raises the complex-scale TypeError, and every other failure of a non-empty source is PIL's ValueError |
| `Canvas.ResizeGuardExamples` | asciiArtPython.py:116-117 | an empty image under budget -1 divides by zero, a 1×1 image under budget -1 takes a complex root, under budget 0 it is resized to nothing, and a 100×50 image fits budget 10000 unchanged |
| `Canvas.RowText` | asciiArtPython.py:121-123 | a row of samples becomes a line as long as the row, made of ramp glyphs |
| `Canvas.AsciiRows` | asciiArtPython.py:119-124 | the canvas has one line per pixel row |
| `Canvas.AsciiRowsShape` | asciiArtPython.py:118-124 | the canvas has one line per pixel row, each as long as the row width, and every character is the ramp glyph of its sample |
| `Canvas.AsciiRowsHaveNoNewline` | asciiArtPython.py:118-124 | no line of a canvas contains a line break |
| `Canvas.TerminatedIsJoinPlusNewline` | asciiArtPython.py:129-132 | lines each followed by "\n" equal the lines joined by "\n" plus one final "\n", so dropping the last character yields the join |
| `Canvas.SplitJoin` | asciiArtPython.py:129-132 | splitting joined lines without line breaks at "\n" gives the lines back |
| `Canvas.TextLines` | asciiArtPython.py:129-132 | the text of a canvas is "" without rows; otherwise its lines are the rows at even indices 0, 2, 4, …, in order, ceil(R/2) of them |
| `Canvas.MaxLen` | asciiArtPython.py:149 | the value is the length of some row and no row is longer |
| `Frames.FloorDiv` | asciiArtPython.py:42 | `fps // fps_max` is the floor of the quotient for either sign of the divisor |
| `Frames.FrameInterval` | asciiArtPython.py:42-47 | with fps > 0 and fps_max ≠ 0 the interval is never zero, so the remainder at line 47 is defined |
| `Frames.FrameIntervalPositive` | asciiArtPython.py:42 | for fps_max ≥ 1 the interval is at least 1, equals 1 when fps ≤ fps_max, and otherwise interval·fps_max ≤ fps < 2·interval·fps_max |
| `Frames.KeptIndices` | asciiArtPython.py:44-51 | every kept index is below the number of frames read |
| `Frames.KeptIndicesMembers` | asciiArtPython.py:46-49 | an index is kept if and only if it is below n and its remainder by the interval is zero |
| `Frames.KeptIndicesIncreasing` | asciiArtPython.py:44-51 | kept indices are listed in strictly increasing source order |
| `Frames.KeptIndicesCount` | asciiArtPython.py:44-51 | exactly ceil(n / abs(interval)) frames are kept |
| `Frames.EveryThirdFrameAtThirtyFps` | asciiArtPython.py:42-51 | at 30 fps with a maximum of 10 the interval is 3 and frames 0, 3, 6 of seven are kept |
| `Frames.NineteenFpsKeepsEveryFrame` | asciiArtPython.py:42-51 | at 19 fps with a maximum of 10 the interval is 1 and all ten of ten frames are kept |
| `Frames.FramePath` | asciiArtPython.py:48 | frame number `count` is stored at ./data/{prefix}{count}.png, the same path the video reads back at line 178 |
| `Frames.FramePathInjective` | asciiArtPython.py:48 | two frame numbers with the same file path are equal |
| `Frames.WrittenExtend` | asciiArtPython.py:47-49 | writing the next kept frame under the next number keeps every earlier frame file and every unrelated file |
| `Frames.VideoToImages` | asciiArtPython.py:21-55 | raises ZeroDivisionError exactly when fps is 0 or fps_max is 0; otherwise it returns the count of kept frames, frame j of the kept indices is stored at ./data/{noms}{j}.png, and every other file of the directory is unchanged |
| `AsciiArt.PngOf` | asciiArtPython.py:149-154 | an image export of rows is 20 × widest row wide and 20 × row count high, with every row i drawn at x = 0, y = 20·i |
| `AsciiArt.AsciiArtImage.constructor` | asciiArtPython.py:118-124 | the canvas has one line per row of the sampled image, line i has the image's width, and each character is grille at the sample's index |
| `AsciiArt.AsciiArtImage.New` | asciiArtPython.py:103-124 | raises exactly the error of the resize guard; an image within the budget is kept unchanged; otherwise the object holds the sampled image and its canvas, with grille the ramp |
| `AsciiArt.AsciiArtImage.ToString` | asciiArtPython.py:125-132 | the stride-2 loop with the last character dropped yields the even rows joined by "\n" |
| `AsciiArt.AsciiArtImage.Exporter` | asciiArtPython.py:133-155 | "txt" writes exactly str(self) to name.txt; "img" on a canvas with rows gives a PNG of 20 × widest row by 20 × row count with every row i drawn at y = 20·i; "img" without rows raises; any other mode does nothing |
| `AsciiArt.KeptFrames` | asciiArtPython.py:178 | the frames the video converts are the kept frames, one per kept index |
| `AsciiArt.AsciiArtVideo.ConvertFrames` | asciiArtPython.py:178 | converts the stored frames in order with the default budget 10000; raises the error of the first frame the resize guard rejects, and otherwise gives one canvas per frame |
| `AsciiArt.AsciiArtVideo.New` | asciiArtPython.py:161-178 | raises ZeroDivisionError exactly when extraction fails and otherwise the error of the first kept frame that fails the resize guard; on success holds nb_images canvases, one per kept frame in source order, each built with the default budget 10000 whatever taille_frame_maxi is |
| `AsciiArt.ExportBase` | asciiArtPython.py:184 | canvas i of a video is exported under the base name data/{nom_fichier}{i} |
| `AsciiArt.AsciiArtVideo.Exporter` | asciiArtPython.py:179-184 | raises exactly when some canvas has no rows; otherwise gives nb_images PNG files, the i-th at data/{nom_fichier}{i}.png and exported from canvas i |

## Left out

- The module-level font check and the creation of `data/` (asciiArtPython.py:15-18) are left out. They are filesystem side effects.
- Image decoding and grayscale conversion (asciiArtPython.py:115) are left out. The model is given the grayscale raster.
- Video frames are taken as already grayscale. Writing a frame to PNG and reading it back is taken to give the same raster.
- The resized dimensions (asciiArtPython.py:117) use a float square root. The abstract `resize` parameter stands for them, so whether a side truncates to zero is decided by `resize`.
- `fps` is a float from OpenCV. It is modelled as a non-negative integer, so non-integer rates such as 29.97 are not covered.
- The duration `round(TMP/fps)` (asciiArtPython.py:52-55) is left out, because it is float arithmetic. Only its `ZeroDivisionError` for `fps == 0` is modelled.
- Frames.VideoToImages: an error result does not carry the frames already written before the exception at line 55. In the source those files stay in `data/`.
- AsciiArt.AsciiArtVideo.New: the `self.duree` attribute is not modelled, and an error result from the conversion does not carry the frame files already written.
- AsciiArt.AsciiArtVideo.Exporter: an error result does not carry the PNG files already exported before the failing canvas. A video that keeps no frames gives `Ok([])`, whereas the source then always raises: `ZeroDivisionError` at line 185 when the duration is 0, and otherwise `IndexError` at line 71 on the empty path list.
- `images_vers_vidéo` (asciiArtPython.py:56-78) and the call to it at line 185 are left out. They are video codec I/O, and the frame rate `nb_images/self.duree` is float arithmetic that can divide by zero.
- Font rendering, `Image.new` and `.save` (asciiArtPython.py:148-155) are left out. They are foreign library calls. An exported PNG is described by its size and its list of text draws.
- Exports are returned as file descriptions. They are not written to disk.
- `tqdm` progress bars are left out as cosmetic.
- `asciiArtLive.py` is left out. It does camera capture, terminal output, a sleep and an interrupt-terminated loop. Its one conversion, `AsciiArtImage(..., 15000)` with `str()`, is `AsciiArtImage.New` with a budget of 15000.
