/**
 * `$image` of `image-service.ts`: the image for a TMDB path (or a list of path
 * segments) at a requested size, or a bundled placeholder when there is no path.
 */
module ImageService {
  import opened Wrappers
  import opened Text

  const BaseOriginal: string := "https://image.tmdb.org/t/p/original"
  const Base500: string := "https://image.tmdb.org/t/p/w500"
  const Base780: string := "https://image.tmdb.org/t/p/w780"
  const Base1280: string := "https://image.tmdb.org/t/p/w1280"

  /** `null | string | string[] | undefined`. */
  datatype Paths = Null | Undefined | Path(path: string) | Segments(segments: seq<string>)

  datatype Size = Size1280 | Size500 | Size780 | SizeOriginal

  datatype ImageType = Cover | Poster

  /** The options object; an absent `options` is `ImageOptions(None, None)`, as `options?.` reads it. */
  datatype ImageOptions = ImageOptions(size: Option<Size>, imageType: Option<ImageType>)

  /** The bundled `cover` or `poster` asset, or a TMDB URL. */
  datatype Image = CoverPlaceholder | PosterPlaceholder | Url(url: string)

  /** `!paths || paths?.length === 0`: null, undefined, "" or []. */
  predicate NoPath(paths: Paths) {
    match paths
    case Null => true
    case Undefined => true
    case Path(p) => p == ""
    case Segments(ss) => ss == []
  }

  /** The base URL for a size: w500, w780, w1280, and the original for anything else. */
  function BaseUrl(size: Option<Size>): (r: string)
    ensures size == Some(Size500) <==> r == Base500
    ensures size == Some(Size780) <==> r == Base780
    ensures size == Some(Size1280) <==> r == Base1280
    ensures size != Some(Size500) && size != Some(Size780) && size != Some(Size1280) <==> r == BaseOriginal
  {
    if size == Some(Size500) then Base500
    else if size == Some(Size780) then Base780
    else if size == Some(Size1280) then Base1280
    else BaseOriginal
  }

  function ImageFor(paths: Paths, options: ImageOptions): (r: Image)
    ensures NoPath(paths) <==> !r.Url?
    ensures NoPath(paths) ==> (r == CoverPlaceholder <==> options.imageType == Some(Cover))
    ensures r.Url? ==> |BaseUrl(options.size)| <= |r.url| && r.url[..|BaseUrl(options.size)|] == BaseUrl(options.size)
  {
    if NoPath(paths) then
      match options.imageType
      case Some(Cover) => CoverPlaceholder
      case Some(Poster) => PosterPlaceholder
      case None => PosterPlaceholder
    else
      var baseUrl := BaseUrl(options.size);
      match paths
      case Segments(ss) => Url(baseUrl + Join(ss, "/"))
      case Path(p) => Url(baseUrl + p)
  }

  /** A non-empty path is appended to the base: what follows the base is exactly the path. */
  lemma PathUrl(p: string, options: ImageOptions)
    requires p != ""
    ensures ImageFor(Path(p), options) == Url(BaseUrl(options.size) + p)
    ensures ImageFor(Path(p), options).url[|BaseUrl(options.size)|..] == p
  {
  }

  /** A non-empty list of segments is joined with "/" after the base. */
  lemma SegmentsUrl(ss: seq<string>, options: ImageOptions)
    requires ss != []
    ensures ImageFor(Segments(ss), options) == Url(BaseUrl(options.size) + Join(ss, "/"))
  {
  }

  /** A one-segment list gives the same image as that segment given as a path. */
  lemma SingleSegment(p: string, options: ImageOptions)
    requires p != ""
    ensures ImageFor(Segments([p]), options) == ImageFor(Path(p), options)
  {
  }

  /** Two segments are joined by a single "/". */
  lemma TwoSegments(a: string, b: string, options: ImageOptions)
    ensures ImageFor(Segments([a, b]), options) == Url(BaseUrl(options.size) + a + "/" + b)
  {
    assert Join([a, b], "/") == a + "/" + Join([b], "/");
  }

  /** With a path, the image type option makes no difference. */
  lemma TypeIrrelevantWithPath(paths: Paths, size: Option<Size>, t1: Option<ImageType>, t2: Option<ImageType>)
    requires !NoPath(paths)
    ensures ImageFor(paths, ImageOptions(size, t1)) == ImageFor(paths, ImageOptions(size, t2))
  {
  }

  /** Without a path, the size option makes no difference, and only 'cover' selects the cover asset. */
  lemma PlaceholderChoice(paths: Paths, options: ImageOptions)
    requires NoPath(paths)
    ensures ImageFor(paths, options) == (if options.imageType == Some(Cover) then CoverPlaceholder else PosterPlaceholder)
  {
  }
}
