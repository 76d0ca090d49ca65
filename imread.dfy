/** The table of image readers `mlabimg` dispatches on (`IMREAD` in
    mlabtex/core.py): file type to tvtk reader class. */
module ImRead {

  /** The tvtk reader classes the table names. */
  datatype Reader =
    | BMPReader
    | JPEGReader
    | PNGReader
    | PNMReader
    | DICOMImageReader
    | TIFFReader
    | GESignaReader
    | DEMReader
    | MetaImageReader
    | MINCImageReader

  const IMREAD: map<string, Reader> := map[
    "bmp" := BMPReader,
    "jpg" := JPEGReader,
    "jpeg" := JPEGReader,
    "png" := PNGReader,
    "pnm" := PNMReader,
    "dcm" := DICOMImageReader,
    "tiff" := TIFFReader,
    "ximg" := GESignaReader,
    "dem" := DEMReader,
    "mha" := MetaImageReader,
    "mhd" := MetaImageReader,
    "mnc" := MINCImageReader
  ]

  /** The inverse of the table: the types that select reader `r`. */
  function TypesOf(r: Reader): (ts: set<string>)
    ensures forall t :: t in ts <==> t in IMREAD && IMREAD[t] == r
  {
    match r
    case BMPReader => {"bmp"}
    case JPEGReader => {"jpg", "jpeg"}
    case PNGReader => {"png"}
    case PNMReader => {"pnm"}
    case DICOMImageReader => {"dcm"}
    case TIFFReader => {"tiff"}
    case GESignaReader => {"ximg"}
    case DEMReader => {"dem"}
    case MetaImageReader => {"mha", "mhd"}
    case MINCImageReader => {"mnc"}
  }

  /** The supported types, in the order the table lists them. */
  const SupportedTypes: seq<string> :=
    ["bmp", "jpg", "jpeg", "png", "pnm", "dcm", "tiff", "ximg", "dem", "mha", "mhd", "mnc"]

  /** The table's keys are the twelve listed types, each listed once. */
  lemma SupportedKeys()
    ensures IMREAD.Keys == set t | t in SupportedTypes
    ensures |SupportedTypes| == 12
    ensures forall i, j :: 0 <= i < j < |SupportedTypes| ==> SupportedTypes[i] != SupportedTypes[j]
  {
  }

  /** Every key is a non-empty run of lower-case letters: no dot, no capital. */
  lemma KeysAreLowerWords(t: string)
    requires t in IMREAD
    ensures t != [] && forall k :: 0 <= k < |t| ==> 'a' <= t[k] <= 'z'
  {
  }

  /** Two different types share a reader only for the spellings of JPEG
      (`jpg`, `jpeg`) and of MetaImage (`mha`, `mhd`). */
  lemma SharedReaders(t1: string, t2: string)
    requires t1 in IMREAD && t2 in IMREAD && t1 != t2
    ensures IMREAD[t1] == IMREAD[t2] <==>
      ({t1, t2} == {"jpg", "jpeg"} || {t1, t2} == {"mha", "mhd"})
  {
  }

  /** Every reader class in the table is reached by some type. */
  lemma EveryReaderReachable(r: Reader)
    ensures exists t :: t in IMREAD && IMREAD[t] == r
  {
    var t := match r
      case BMPReader => "bmp"
      case JPEGReader => "jpg"
      case PNGReader => "png"
      case PNMReader => "pnm"
      case DICOMImageReader => "dcm"
      case TIFFReader => "tiff"
      case GESignaReader => "ximg"
      case DEMReader => "dem"
      case MetaImageReader => "mha"
      case MINCImageReader => "mnc";
    assert t in IMREAD && IMREAD[t] == r;
  }
}
