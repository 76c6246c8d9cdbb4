/** The ASCII-art objects: AsciiArtImage (one converted image, its text form and its
    export) and AsciiArtVideo (one canvas per kept video frame and their export). */
module AsciiArt {
  import opened Outcomes
  import opened Glyphs
  import opened Decimal
  import opened Canvas
  import opened Frames

  /** Default pixel budget of AsciiArtImage; the video frames always get it. */
  const DefaultBudget := 10000

  /** Side in pixels of the cell one character takes in an exported image (font size 20). */
  const CellSize := 20

  /** One call of ImageDraw.text: draw `text` in black with its top-left corner at (x, y). */
  datatype Draw = Draw(x: int, y: int, text: string)

  /** A file the exporter writes: a UTF-8 text file, or a PNG of the given size with a
      white background and the given text draws. */
  datatype ExportFile =
    | TextFile(path: string, content: string)
    | PngFile(path: string, width: nat, height: nat, draws: seq<Draw>)

  /** What one call of the exporter does: write a file, nothing, or raise. */
  datatype Export = Written(file: ExportFile) | NoOutput | Raised(error: Error)

  /** `f` is the image export of `rows` at `path`: 20 times the widest row wide, 20 times
      the number of rows high, and row i (every row, not only the even ones) drawn at
      x = 0, y = 20 * i. */
  predicate PngOf(f: ExportFile, path: string, rows: seq<string>)
    requires |rows| > 0
  {
    && f.PngFile?
    && f.path == path
    && f.width == CellSize * MaxLen(rows)
    && f.height == CellSize * |rows|
    && |f.draws| == |rows|
    && forall i :: 0 <= i < |rows| ==> f.draws[i] == Draw(0, CellSize * i, rows[i])
  }

  class AsciiArtImage {
    /** The glyph ramp. */
    const grille: seq<char>
    /** The grayscale image after the resize guard. */
    const image: Raster
    /** One line of glyphs per pixel row. */
    const ascii: seq<string>

    /** The loops of __init__: one line of glyphs, grille at each sample's index, per
        pixel row of the (already sampled) image. */
    constructor (image: Raster)
      ensures grille == Ramp && this.image == image
      ensures ascii == AsciiRows(image)
      ensures |ascii| == image.height
      ensures forall i :: 0 <= i < |ascii| ==> |ascii[i]| == image.width
      ensures forall i, j :: 0 <= i < |ascii| && 0 <= j < |ascii[i]| ==>
        ascii[i][j] == grille[GlyphIndex(image.pixels[i][j])]
    {
      var g := Ramp;
      var rows: seq<string> := [];
      for r := 0 to |image.pixels|
        invariant rows == AsciiRows(image)[..r]
      {
        var ligne := image.pixels[r];
        var chaine := "";
        for c := 0 to |ligne|
          invariant chaine == RowText(ligne)[..c]
        {
          chaine := chaine + [g[GlyphIndex(ligne[c])]];
        }
        assert RowText(ligne)[..|ligne|] == RowText(ligne);
        rows := rows + [chaine];
      }
      assert AsciiRows(image)[..|image.pixels|] == AsciiRows(image);
      AsciiRowsShape(image);
      grille, this.image, ascii := g, image, rows;
    }

    /** AsciiArtImage(source, taille_maxi): apply the resize guard, which raises for some
        budgets and sizes, then quantize the sampled image. */
    static method New(source: Raster, resize: (Raster, int) -> Raster,
                      tailleMaxi: int := DefaultBudget)
      returns (r: Result<AsciiArtImage>)
      ensures r.Err? <==> Sampled(source, tailleMaxi, resize).Err?
      ensures r.Err? ==> r.error == Sampled(source, tailleMaxi, resize).error
      ensures source.width * source.height <= tailleMaxi ==> r.Ok? && r.value.image == source
      ensures r.Ok? ==>
        && fresh(r.value)
        && r.value.image == Sampled(source, tailleMaxi, resize).value
        && r.value.grille == Ramp
        && r.value.ascii == AsciiRows(r.value.image)
    {
      var sampled := Sampled(source, tailleMaxi, resize);
      if sampled.Err? {
        return Err(sampled.error);
      }
      var img := new AsciiArtImage(sampled.value);
      r := Ok(img);
    }

    /** __str__: rows 0, 2, 4, ... each followed by a line break, then the last
        character dropped. */
    method ToString() returns (txt: string)
      ensures txt == Text(ascii)
    {
      var even := EvenRows(ascii);
      var acc := "";
      var i := 0;
      while i < |ascii|
        invariant 0 <= i <= |ascii| + 1 && i % 2 == 0
        invariant acc == Terminated(even[..i / 2])
      {
        assert even[..i / 2 + 1][..i / 2] == even[..i / 2];
        acc := acc + ascii[i] + "\n";
        i := i + 2;
      }
      assert even[..i / 2] == even;
      if |even| > 0 {
        TerminatedIsJoinPlusNewline(even);
      }
      txt := if |acc| == 0 then acc else acc[..|acc| - 1];
    }

    /** exporter: mode "txt" writes str(self) to name.txt; mode "img" draws every row
        into a PNG sized from the rows, and raises for a canvas without rows; any other
        mode does nothing. */
    method Exporter(nomFichier: string := "mika_export", mode: string := "img") returns (out: Export)
      ensures mode == "txt" ==> out == Written(TextFile(nomFichier + ".txt", Text(ascii)))
      ensures mode == "img" && |ascii| == 0 ==> out == Raised(EmptyMaxError)
      ensures mode == "img" && |ascii| > 0 ==>
        out.Written? && PngOf(out.file, nomFichier + ".png", ascii)
      ensures mode != "txt" && mode != "img" ==> out == NoOutput
    {
      if mode == "txt" {
        var content := ToString();
        out := Written(TextFile(nomFichier + ".txt", content));
      } else if mode == "img" {
        if |ascii| == 0 {
          return Raised(EmptyMaxError);
        }
        var largeur := MaxLen(ascii) * CellSize;
        var hauteur := |ascii| * CellSize;
        var draws: seq<Draw> := [];
        for i := 0 to |ascii|
          invariant |draws| == i
          invariant forall k :: 0 <= k < i ==> draws[k] == Draw(0, CellSize * k, ascii[k])
        {
          draws := draws + [Draw(0, i * CellSize, ascii[i])];
        }
        out := Written(PngFile(nomFichier + ".png", largeur, hauteur, draws));
      } else {
        out := NoOutput;
      }
    }
  }

  /** Base name of the i-th exported frame of a video: f"data/{nom_fichier}{i}". */
  function ExportBase(nomFichier: string, i: nat): string
  {
    "data/" + nomFichier + DecimalString(i)
  }

  /** The kept frames themselves, in order. */
  function KeptFrames(frames: seq<Raster>, kept: seq<nat>): (r: seq<Raster>)
    requires forall j :: 0 <= j < |kept| ==> kept[j] < |frames|
    ensures |r| == |kept|
  {
    seq(|kept|, j requires 0 <= j < |kept| => frames[kept[j]])
  }

  /** Image i is the first, in order, that fails the resize guard at the default
      budget: AsciiArtImage raises for it. */
  ghost predicate FirstFailure(sources: seq<Raster>, resize: (Raster, int) -> Raster, i: nat)
  {
    && i < |sources|
    && Sampled(sources[i], DefaultBudget, resize).Err?
    && forall j :: 0 <= j < i ==> Sampled(sources[j], DefaultBudget, resize).Ok?
  }

  /** Converting `sources` in order raises. */
  ghost predicate ConversionFails(sources: seq<Raster>, resize: (Raster, int) -> Raster)
  {
    exists i: nat :: FirstFailure(sources, resize, i)
  }

  /** Converting `sources` in order raises `e`: the error of the first image that fails. */
  ghost predicate RaisedBy(sources: seq<Raster>, resize: (Raster, int) -> Raster, e: Error)
  {
    exists i: nat :: FirstFailure(sources, resize, i) && e == Sampled(sources[i], DefaultBudget, resize).error
  }

  class AsciiArtVideo {
    const source: string
    const nbImages: nat
    /** One canvas per kept frame, in frame order. */
    const images: seq<AsciiArtImage>

    predicate Valid()
    {
      nbImages == |images|
    }

    constructor (source: string, images: seq<AsciiArtImage>)
      ensures Valid()
      ensures this.source == source && this.images == images
    {
      this.source := source;
      this.nbImages := |images|;
      this.images := images;
    }

    /** The list comprehension of line 178: AsciiArtImage of every stored frame with the
        default budget, in order; the first frame the resize guard rejects raises. */
    static method ConvertFrames(sources: seq<Raster>, resize: (Raster, int) -> Raster)
      returns (r: Result<seq<AsciiArtImage>>)
      ensures r.Err? <==> ConversionFails(sources, resize)
      ensures r.Err? ==> RaisedBy(sources, resize, r.error)
      ensures r.Ok? ==> |r.value| == |sources| && forall i :: 0 <= i < |sources| ==>
        && Sampled(sources[i], DefaultBudget, resize).Ok?
        && r.value[i].image == Sampled(sources[i], DefaultBudget, resize).value
        && r.value[i].ascii == AsciiRows(r.value[i].image)
    {
      var images: seq<AsciiArtImage> := [];
      for i := 0 to |sources|
        invariant |images| == i
        invariant forall k :: 0 <= k < i ==>
          && Sampled(sources[k], DefaultBudget, resize).Ok?
          && images[k].image == Sampled(sources[k], DefaultBudget, resize).value
          && images[k].ascii == AsciiRows(images[k].image)
      {
        var img := AsciiArtImage.New(sources[i], resize);
        if img.Err? {
          assert FirstFailure(sources, resize, i);
          return Err(img.error);
        }
        images := images + [img.value];
      }
      forall i: nat ensures !FirstFailure(sources, resize, i) {
        if i < |sources| {
          assert Sampled(sources[i], DefaultBudget, resize).Ok?;
        }
      }
      r := Ok(images);
    }

    /** AsciiArtVideo(source, fps_max, taille_frame_maxi, nom): split the decoded frames
        into the data directory, then build AsciiArtImage(f"./data/{nom}{i}.png") with the
        default budget for every i below the number of kept frames, in order. */
    static method New(source: string, frames: seq<Raster>, fps: nat,
                      dataDir: map<string, Raster>, resize: (Raster, int) -> Raster,
                      fpsMax: int := 10, tailleFrameMaxi: int := 2000, nom: string := "mika_frame")
      returns (r: Result<AsciiArtVideo>)
      ensures (fps == 0 || fpsMax == 0) ==> r == Err(ZeroDivisionError)
      ensures fps != 0 && fpsMax != 0 ==>
        var stored := KeptFrames(frames, KeptIndices(|frames|, FrameInterval(fps, fpsMax)));
        && (r.Err? <==> ConversionFails(stored, resize))
        && (r.Err? ==> RaisedBy(stored, resize, r.error))
        && (r.Ok? ==>
              && fresh(r.value) && r.value.Valid() && r.value.source == source
              && r.value.nbImages == |stored|
              && forall i :: 0 <= i < |stored| ==>
                   && Sampled(stored[i], DefaultBudget, resize).Ok?
                   && r.value.images[i].image == Sampled(stored[i], DefaultBudget, resize).value
                   && r.value.images[i].ascii == AsciiRows(r.value.images[i].image))
    {
      var e := VideoToImages(frames, fps, dataDir, fpsMax, tailleFrameMaxi, nom);
      if e.Err? {
        return Err(e.error);
      }
      ghost var kept := KeptIndices(|frames|, FrameInterval(fps, fpsMax));
      var count, dir := e.value.count, e.value.dir;
      var stored := seq(count, i requires 0 <= i < count => dir[FramePath(nom, i)]);
      assert stored == KeptFrames(frames, kept);
      var images := ConvertFrames(stored, resize);
      if images.Err? {
        return Err(images.error);
      }
      var video := new AsciiArtVideo(source, images.value);
      r := Ok(video);
    }

    /** exporter: export every canvas as an image at data/{nom_fichier}{i}.png, in order;
        the first canvas without rows raises. Assembling the video is not modelled. */
    method Exporter(nomFichier: string := "mika_video_export") returns (r: Result<seq<ExportFile>>)
      requires Valid()
      ensures r.Err? <==> exists i :: 0 <= i < nbImages && |images[i].ascii| == 0
      ensures r.Err? ==> r.error == EmptyMaxError
      ensures r.Ok? ==> |r.value| == nbImages && forall i :: 0 <= i < nbImages ==>
        |images[i].ascii| > 0 && PngOf(r.value[i], ExportBase(nomFichier, i) + ".png", images[i].ascii)
    {
      var files: seq<ExportFile> := [];
      for i := 0 to nbImages
        invariant |files| == i
        invariant forall k :: 0 <= k < i ==>
          |images[k].ascii| > 0 && PngOf(files[k], ExportBase(nomFichier, k) + ".png", images[k].ascii)
      {
        var out := images[i].Exporter(ExportBase(nomFichier, i), "img");
        if out.Raised? {
          return Err(out.error);
        }
        files := files + [out.file];
      }
      r := Ok(files);
    }
  }
}
