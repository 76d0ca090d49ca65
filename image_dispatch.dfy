/** `mlabimg` and `mlabtex` of mlabtex/core.py: resolve the image type, pick
    the reader from `IMREAD` (or raise `ValueError`), load the image, and
    build the surface grid that carries it as a texture. */
module ImageDispatch {
  import opened Results
  import opened PathExt
  import opened ImRead
  import opened Points
  import opened Grid
  import Render

  const UnsupportedPrefix := "The file type is not supported: "

  /** `ext[1:]`: the extension without its dot (empty stays empty). */
  function DropDot(ext: string): string {
    if ext == [] then [] else ext[1..]
  }

  /** The image type `mlabimg` looks up: `typ` as given, or else the path's
      extension without its dot, lower-cased. */
  function ResolveType(path: string, typ: Option<string>): (t: string)
    ensures typ.Some? ==> t == typ.value
    ensures typ.None? && SplitExt(path).1 == [] ==> t == []
    ensures typ.None? && SplitExt(path).1 != [] ==> Lower(SplitExt(path).1) == ['.'] + t
  {
    match typ
    case Some(given) => given
    case None => Lower(DropDot(SplitExt(path).1))
  }

  /** A type taken from the path has no dot, no slash and no capital. */
  lemma ResolvedFromPathIsPlain(path: string)
    ensures var t := ResolveType(path, None);
      forall k :: 0 <= k < |t| ==> t[k] != '.' && t[k] != '/' && !IsUpper(t[k])
  {
    ExtensionShape(path);
    var e := SplitExt(path).1;
    var t := ResolveType(path, None);
    forall k | 0 <= k < |t|
      ensures t[k] != '.' && t[k] != '/' && !IsUpper(t[k])
    {
      assert t[k] == LowerChar(e[k + 1]);
    }
  }

  /** The type taken from a path does not depend on the case of the path. */
  lemma ResolveIgnoresCase(path: string)
    ensures ResolveType(Lower(path), None) == ResolveType(path, None)
  {
    SplitExtLower(path);
    var e := SplitExt(path).1;
    if e != [] {
      LowerSlice(e, 1, |e|);
      assert e[1..|e|] == e[1..];
      LowerIdempotent(e[1..]);
    }
  }

  /** The reader `mlabimg` constructs, or the `ValueError` it raises. */
  function ReaderFor(path: string, typ: Option<string>): (r: Result<Reader, Error>)
    ensures r.Ok? <==> ResolveType(path, typ) in IMREAD
    ensures r.Ok? ==> r.value == IMREAD[ResolveType(path, typ)]
  {
    var t := ResolveType(path, typ);
    if t in IMREAD then Ok(IMREAD[t]) else Err(ValueError(UnsupportedPrefix + t))
  }

  /** A rejected type is named at the end of the `ValueError` message. */
  lemma UnsupportedNamesType(path: string, typ: Option<string>)
    requires ReaderFor(path, typ).Err?
    ensures var e := ReaderFor(path, typ).error;
      var t := ResolveType(path, typ);
      e.ValueError? && |t| <= |e.msg| && e.msg[|e.msg| - |t|..] == t &&
      e.msg[..|UnsupportedPrefix|] == UnsupportedPrefix
  {
    var t := ResolveType(path, typ);
    var msg := UnsupportedPrefix + t;
    assert msg[|msg| - |t|..] == t;
    assert msg[..|UnsupportedPrefix|] == UnsupportedPrefix;
  }

  /** A path without an extension is always rejected, whatever its name. */
  lemma NoExtensionRejected(path: string)
    requires SplitExt(path).1 == []
    ensures ReaderFor(path, None) == Err(ValueError(UnsupportedPrefix))
  {
    assert ResolveType(path, None) == [];
    if [] in IMREAD {
      KeysAreLowerWords([]);
    }
    assert UnsupportedPrefix + [] == UnsupportedPrefix;
  }

  /** An explicit type is used verbatim: a capitalised one is rejected even
      where the same letters as an extension would be accepted. */
  lemma ExplicitTypeVerbatim(path: string, typ: string)
    ensures ReaderFor(path, Some(typ)).Ok? <==> typ in IMREAD
    ensures ReaderFor("A.PNG", Some("PNG")).Err?
    ensures ReaderFor("A.PNG", None) == Ok(PNGReader)
  {
    ResolveUpperCase();
  }

  /** Types taken from paths: the extension after the last dot, lower-cased. */
  lemma ResolveUpperCase()
    ensures ResolveType("A.PNG", None) == "png"
  {
    SplitUpperPng();
    assert DropDot(".PNG") == "PNG";
    LowerPng();
  }

  lemma LowerPng()
    ensures Lower("PNG") == "png"
  {
    assert LowerChar('P') == 'p' && LowerChar('N') == 'n' && LowerChar('G') == 'g';
    var lowered := Lower("PNG");
    assert lowered[0] == 'p' && lowered[1] == 'n' && lowered[2] == 'g';
  }

  lemma SplitUpperPng()
    ensures SplitExt("A.PNG").1 == ".PNG"
  {
    var p := "A.PNG";
    assert p[0] == 'A' && p[1] == '.' && p[2] == 'P' && p[3] == 'N' && p[4] == 'G';
    SplitPlainName(p, 1);
    assert p[1..] == ".PNG";
  }

  /** Only the part after the last dot is the type. */
  lemma ResolveLastDot()
    ensures ResolveType("a.tar.gz", None) == "gz"
  {
    SplitTarGz();
    assert DropDot(".gz") == "gz";
    var lowered := Lower("gz");
    assert lowered[0] == 'g' && lowered[1] == 'z';
  }

  lemma SplitTarGz()
    ensures SplitExt("a.tar.gz").1 == ".gz"
  {
    var q := "a.tar.gz";
    assert q[0] == 'a' && q[1] == '.' && q[2] == 't' && q[3] == 'a' && q[4] == 'r';
    assert q[5] == '.' && q[6] == 'g' && q[7] == 'z';
    SplitPlainName(q, 5);
    assert q[5..] == ".gz";
  }

  /** The leading dot of a file name does not start an extension, and a dot
      in a directory name does not count. */
  lemma ResolveHiddenFile()
    ensures ResolveType("dir.d/.bashrc", None) == ""
  {
    var h := "dir.d/.bashrc";
    assert h[3] == '.' && h[5] == '/' && h[6] == '.';
    assert h[7] == 'b' && h[8] == 'a' && h[9] == 's' && h[10] == 'h' && h[11] == 'r' && h[12] == 'c';
    RFindUnique(h, '/', 5);
    RFindUnique(h, '.', 6);
    assert AllDots(h[6..6]);
  }

  /** The extension of a slash-free name that does not start with a dot and
      has its last dot at `k`. */
  lemma SplitPlainName(p: string, k: nat)
    requires 0 < k < |p| && p[k] == '.' && p[0] != '.'
    requires forall j :: k < j < |p| ==> p[j] != '.'
    requires forall j :: 0 <= j < |p| ==> p[j] != '/'
    ensures SplitExt(p).1 == p[k..]
  {
    RFindUnique(p, '/', -1);
    RFindUnique(p, '.', k);
    assert p[0..k][0] == p[0];
  }

  /** `mlabtex` always dispatches with `typ = "png"`: it never raises
      `ValueError` and always reads with the PNG reader. */
  lemma PngDispatch(path: string)
    ensures ReaderFor(path, Some("png")) == Ok(PNGReader)
  {
  }

  /** The pixel extents a tvtk reader reports: `data_extent[1]` and
      `data_extent[3]`. */
  datatype Extent = Extent(dimX: nat, dimY: nat)

  /** One image load: the reader class and the file it was pointed at. */
  datatype LoadRecord = LoadRecord(reader: Reader, fileName: string)

  /** The image files on disk as the readers see them, and the log of the
      loads performed so far. */
  class ImageFiles {
    const extentOf: string -> Extent
    var loads: seq<LoadRecord>

    constructor (extentOf: string -> Extent)
      ensures this.extentOf == extentOf && loads == []
    {
      this.extentOf := extentOf;
      loads := [];
    }

    /** `img = reader(); img.file_name = path; img.update()`. */
    method Load(reader: Reader, fileName: string) returns (e: Extent)
      modifies this
      ensures loads == old(loads) + [LoadRecord(reader, fileName)]
      ensures e == extentOf(fileName)
    {
      loads := loads + [LoadRecord(reader, fileName)];
      e := extentOf(fileName);
    }
  }

  /** The angles of `orientation`, in degrees, handed to the actor as given. */
  datatype Angles = Angles(ax: real, ay: real, az: real)

  /** What `mlabimg` puts in the scene: the textured surface, its grid, and
      the orientation and position of its actor. */
  datatype ImageSurface = ImageSurface(
    reader: Reader,
    fileName: string,
    mesh: Mesh,
    orientation: Angles,
    position: Point)

  /** `ref_y_extent`, or the image's own height when it is `None`. */
  function RefExtent(refYExtent: Option<nat>, dimY: nat): nat {
    if refYExtent.Some? then refYExtent.value else dimY
  }

  /** `scale` is "the vertical scale of the image": without a reference
      extent the top column of the grid lies exactly at height `scale`. */
  lemma DefaultRefTopAtScale(dimX: nat, dimY: nat, scale: real)
    requires dimY > 0
    ensures var g := MGrid(dimX, dimY, scale, RefExtent(None, dimY) as real);
      forall i :: 0 <= i <= dimX ==> g[i][dimY].y == scale
  {
    GridFarCorner(dimX, dimY, scale, RefExtent(None, dimY) as real);
  }

  /** `mlabimg`: the type check comes before any reader is constructed, so
      an unsupported type loads nothing. */
  method MlabImg(
    files: ImageFiles, x: real, y: real, z: real, path: string,
    orientation: Angles, scale: real, typ: Option<string>, refYExtent: Option<nat>)
    returns (r: Result<ImageSurface, Error>)
    requires refYExtent.Some? ==> refYExtent.value > 0
    requires ReaderFor(path, typ).Ok? && refYExtent.None? ==> files.extentOf(path).dimY > 0
    modifies files
    ensures ReaderFor(path, typ).Err? ==>
      r == Err(ReaderFor(path, typ).error) && files.loads == old(files.loads)
    ensures ReaderFor(path, typ).Ok? ==>
      var reader := ReaderFor(path, typ).value;
      var e := files.extentOf(path);
      files.loads == old(files.loads) + [LoadRecord(reader, path)] &&
      r == Ok(ImageSurface(reader, path,
        MGrid(e.dimX, e.dimY, scale, RefExtent(refYExtent, e.dimY) as real),
        orientation, Point(x, y, z)))
  {
    var chosen := ReaderFor(path, typ);
    if chosen.Err? {
      return Err(chosen.error);
    }
    var e := files.Load(chosen.value, path);
    var ref := RefExtent(refYExtent, e.dimY);
    var mesh := MGrid(e.dimX, e.dimY, scale, ref as real);
    r := Ok(ImageSurface(chosen.value, path, mesh, orientation, Point(x, y, z)));
  }

  /** `mlabtex` of mlabtex/core.py: render "I" and read its height as the
      reference, render the text, and map it with `mlabimg` as a PNG.
      `refFile` and `pngFile` are the names of its two temporary files. */
  method MlabTex(
    files: ImageFiles, x: real, y: real, z: real, orientation: Angles, scale: real,
    refRuns: Render.Runs, textRuns: Render.Runs, refFile: string, pngFile: string, sep: string)
    returns (r: Result<ImageSurface, Error>)
    requires files.extentOf(refFile).dimY > 0
    modifies files
    ensures r.Err? ==> r.error.RenderError?
    ensures !Render.AnySucceeds(refRuns) ==>
      r == Err(RenderError(Render.RenderErrorMessage(refRuns.sympy.msg, refRuns.mpl.msg, sep))) &&
      files.loads == old(files.loads)
    ensures Render.AnySucceeds(refRuns) && !Render.AnySucceeds(textRuns) ==>
      r == Err(RenderError(Render.RenderErrorMessage(textRuns.sympy.msg, textRuns.mpl.msg, sep))) &&
      files.loads == old(files.loads) + [LoadRecord(PNGReader, refFile)]
    ensures Render.AnySucceeds(refRuns) && Render.AnySucceeds(textRuns) ==>
      var e := files.extentOf(pngFile);
      files.loads == old(files.loads) + [LoadRecord(PNGReader, refFile), LoadRecord(PNGReader, pngFile)] &&
      r == Ok(ImageSurface(PNGReader, pngFile,
        MGrid(e.dimX, e.dimY, scale, files.extentOf(refFile).dimY as real),
        orientation, Point(x, y, z)))
  {
    var refOut, _ := Render.RenderLatex(refRuns, sep);
    if refOut.Failed? {
      return Err(RenderError(refOut.msg));
    }
    var refExtent := files.Load(PNGReader, refFile);
    var refY := refExtent.dimY;
    var textOut, _ := Render.RenderLatex(textRuns, sep);
    if textOut.Failed? {
      return Err(RenderError(textOut.msg));
    }
    PngDispatch(pngFile);
    r := MlabImg(files, x, y, z, pngFile, orientation, scale, Some("png"), Some(refY));
  }
}
