/**
 * The download-fragment extractors of `use-almas-data.ts`: `enrichQualityWithInfo`,
 * `extractMovie` and `extractSeries`.
 *
 * What the browser supplies (DOMParser, `querySelectorAll`, `nextElementSibling`,
 * `outerHTML`) and what the regular expressions find are inputs: the parsed
 * `<h3>` elements come in document order, each with what the code reads from it,
 * and the matches of a regular expression come as a list (for the series button
 * expression, as a function of the markup segment the code builds).
 */
module Extractor {
  import opened Wrappers
  import opened Text
  import opened Classifier
  import opened Seqs

  /** `MovieQuality`; `None` stands for `null` (and for an absent field). */
  datatype MovieQuality = MovieQuality(
    downloadLink: Option<string>,
    info: Option<Info>,
    quality: string,
    size: Option<string>,
    subtitleLink: Option<string>)

  /** `Season`. */
  datatype Season = Season(qualities: seq<MovieQuality>, season: nat)

  // ---------------------------------------------------------------------------
  // The shared post-processing
  // ---------------------------------------------------------------------------

  /** `s || null` for a string. */
  function OrNull(s: string): (r: Option<string>)
    ensures r == None <==> s == ""
    ensures r.Some? ==> r.value == s
  {
    if s == "" then None else Some(s)
  }

  /** `links[k] || null`. */
  function LinkAt(links: seq<string>, k: nat): (r: Option<string>)
    ensures r.Some? <==> k < |links| && links[k] != ""
    ensures r.Some? ==> r.value == links[k]
  {
    if k < |links| then OrNull(links[k]) else None
  }

  /**
   * Attach to a record the classification of its download link (of "" when
   * there is none). The extractors below are stated for any classification
   * function `classify`; the scraper's is `DetectMovieOrTVShowInfo`.
   */
  function Enrich(classify: string -> Info, q: MovieQuality): (r: MovieQuality)
    ensures r.downloadLink == q.downloadLink && r.quality == q.quality
    ensures r.size == q.size && r.subtitleLink == q.subtitleLink
    ensures r.info == Some(classify(q.downloadLink.GetOr("")))
  {
    q.(info := Some(classify(q.downloadLink.GetOr(""))))
  }

  /** `enrichQualityWithInfo`: classify the download link (or "" when there is none). */
  function EnrichQualityWithInfo(q: MovieQuality): (r: MovieQuality)
    ensures r.downloadLink == q.downloadLink && r.quality == q.quality
    ensures r.size == q.size && r.subtitleLink == q.subtitleLink
    ensures q.downloadLink.Some? ==> r.info == Some(DetectMovieOrTVShowInfo(q.downloadLink.value))
    ensures q.downloadLink.None? ==> r.info == Some(DetectMovieOrTVShowInfo(""))
  {
    Enrich(DetectMovieOrTVShowInfo, q)
  }

  /** Enriching twice is enriching once: the info is recomputed from the same link. */
  lemma EnrichIdempotent(q: MovieQuality)
    ensures EnrichQualityWithInfo(EnrichQualityWithInfo(q)) == EnrichQualityWithInfo(q)
  {
  }

  /** The info depends on the download link alone. */
  lemma EnrichDependsOnlyOnLink(p: MovieQuality, q: MovieQuality)
    requires p.downloadLink == q.downloadLink
    ensures EnrichQualityWithInfo(p).info == EnrichQualityWithInfo(q).info
  {
  }

  /**
   * The record every strategy builds: the label split on `/\s\/\s/` with each
   * piece trimmed, quality = the first piece or 'unknown', size = the second
   * piece or null, the two links as given, then enriched.
   */
  function BuildEntry(classify: string -> Info, qualitySize: string, downloadLink: Option<string>,
                      subtitleLink: Option<string>): (r: MovieQuality)
    ensures r.downloadLink == downloadLink && r.subtitleLink == subtitleLink
    ensures r.quality != "" && r.size != Some("")
    ensures r.info == Some(classify(downloadLink.GetOr("")))
  {
    var parts := SplitOnSlash(qualitySize);
    var quality := Trim(parts[0]);
    var size := if |parts| > 1 then Trim(parts[1]) else "";
    Enrich(classify, MovieQuality(
      downloadLink := downloadLink,
      info := None,
      quality := if quality == "" then "unknown" else quality,
      size := OrNull(size),
      subtitleLink := subtitleLink))
  }

  /** With the scraper's classification, a built record is an enriched one. */
  lemma BuildEntryEnriched(qualitySize: string, d: Option<string>, s: Option<string>)
    ensures var r := BuildEntry(DetectMovieOrTVShowInfo, qualitySize, d, s);
      r == EnrichQualityWithInfo(r)
  {
  }

  /**
   * Quality is the trimmed text before the first separator (all of it when
   * there is none), or 'unknown' when that is blank; size is the trimmed text
   * between the first and second separators, null when there is no separator
   * or that text is blank. Anything after a second separator is dropped.
   */
  lemma BuildEntryLabel(classify: string -> Info, caption: string, d: Option<string>, s: Option<string>)
    ensures var r := BuildEntry(classify, caption, d, s);
      match FirstSlashSep(caption)
      case None =>
        r.quality == (if Trim(caption) == "" then "unknown" else Trim(caption)) && r.size == None
      case Some(i) =>
        var second := match FirstSlashSepFrom(caption, i + 3)
          case Some(j) => caption[i + 3..j]
          case None => caption[i + 3..];
        r.quality == (if Trim(caption[..i]) == "" then "unknown" else Trim(caption[..i]))
        && r.size == OrNull(Trim(second))
  {
    SplitOnSlashFirst(caption);
  }

  predicate HasNoSlash(s: string) {
    forall j :: 0 <= j < |s| ==> s[j] != '/'
  }

  predicate IsTrimmed(s: string) {
    s != [] && !IsWhitespace(s[0]) && !IsWhitespace(s[|s| - 1])
  }

  /**
   * A label written `quality + " / " + size` (two non-blank, trimmed pieces
   * without '/') gives back exactly that quality and size.
   */
  lemma BuildEntryOfLabel(classify: string -> Info, quality: string, size: string, d: Option<string>,
                          s: Option<string>)
    requires IsTrimmed(quality) && IsTrimmed(size) && HasNoSlash(quality) && HasNoSlash(size)
    ensures var r := BuildEntry(classify, quality + " / " + size, d, s);
      r.quality == quality && r.size == Some(size)
  {
    assert Join([quality, size], " / ") == quality + " / " + size;
    assert NoSlashIn([quality, size]) by {
      forall k, j | 0 <= k < 2 && 0 <= j < |[quality, size][k]|
        ensures [quality, size][k][j] != '/'
      {
      }
    }
    SplitOnSlashOfJoin([quality, size]);
    TrimOfTrimmed(quality);
    TrimOfTrimmed(size);
  }

  // ---------------------------------------------------------------------------
  // extractMovie
  // ---------------------------------------------------------------------------

  /** An `<a>` element: its text content and its `href` attribute. */
  datatype Anchor = Anchor(text: string, href: Option<string>)

  /**
   * An `<h3>` of the parsed fragment: its text content and the `<a>` elements
   * inside its next element sibling, in document order (`None` when the
   * heading has no next element sibling).
   */
  datatype MovieHeading = MovieHeading(text: string, nextAnchors: Option<seq<Anchor>>)

  /**
   * One match of the fallback's `qualityRegex`: the heading's inner markup,
   * and the hrefs that `linkRegex` finds, in order, in the div that follows it.
   */
  datatype RawQualityMatch = RawQualityMatch(headingHtml: string, links: seq<string>)

  const DownloadPhrase: string := "دانلود فیلم با این کیفیت"
  const SubtitlePhrase: string := "دانلود زیرنویس فارسی این کیفیت"

  /** `/(HD|4K|480|720|1080|کیفیت)/i` matches the heading text. */
  predicate IsQualityHeading(h: MovieHeading) {
    var lower := ToLower(h.text);
    Contains(lower, "hd") || Contains(lower, "4k") || Contains(lower, "480")
    || Contains(lower, "720") || Contains(lower, "1080") || Contains(lower, "کیفیت")
  }

  /** The anchor's text contains one of the two link phrases. */
  predicate IsLinkAnchor(a: Anchor) {
    Contains(a.text, DownloadPhrase) || Contains(a.text, SubtitlePhrase)
  }

  function QualityHeadings(h3s: seq<MovieHeading>): seq<MovieHeading> {
    Filter(h3s, IsQualityHeading)
  }

  function LinkAnchors(anchors: seq<Anchor>): seq<Anchor> {
    Filter(anchors, IsLinkAnchor)
  }

  /** `getAttribute('href') || ''` of each anchor. */
  function Hrefs(anchors: seq<Anchor>): (r: seq<string>)
    ensures |r| == |anchors|
  {
    seq(|anchors|, i requires 0 <= i < |anchors| => anchors[i].href.GetOr(""))
  }

  /** The links collected for a heading by the DOM strategy. */
  function HeadingLinks(h: MovieHeading): seq<string> {
    match h.nextAnchors
    case None => []
    case Some(anchors) => Hrefs(LinkAnchors(anchors))
  }

  /** The record the DOM strategy builds for a heading. */
  function DomEntry(classify: string -> Info, h: MovieHeading): MovieQuality {
    var links := HeadingLinks(h);
    BuildEntry(classify, Trim(h.text), LinkAt(links, 0), LinkAt(links, 1))
  }

  function DomEntryOf(classify: string -> Info): MovieHeading -> MovieQuality {
    h => DomEntry(classify, h)
  }

  /** The record the regular-expression strategy builds for a match. */
  function FallbackEntry(classify: string -> Info, m: RawQualityMatch): MovieQuality {
    BuildEntry(classify, Trim(StripTags(m.headingHtml)), LinkAt(m.links, 0), LinkAt(m.links, 1))
  }

  function FallbackEntryOf(classify: string -> Info): RawQualityMatch -> MovieQuality {
    m => FallbackEntry(classify, m)
  }

  /** The DOM strategy's inner loop: the hrefs of the link anchors in the heading's next sibling. */
  method CollectDomLinks(h: MovieHeading) returns (links: seq<string>)
    ensures links == HeadingLinks(h)
  {
    links := [];
    if h.nextAnchors.Some? {
      var anchors := LinkAnchors(h.nextAnchors.value);
      for j := 0 to |anchors|
        invariant links == Hrefs(anchors[..j])
      {
        links := links + [anchors[j].href.GetOr("")];
      }
      assert anchors[..|anchors|] == anchors;
    }
  }

  /** The loop body of the DOM strategy: the record for one quality heading. */
  method BuildDomEntry(classify: string -> Info, h: MovieHeading) returns (entry: MovieQuality)
    ensures entry == DomEntry(classify, h)
  {
    var qualitySize := Trim(h.text);
    var links := CollectDomLinks(h);
    entry := BuildEntry(classify, qualitySize, LinkAt(links, 0), LinkAt(links, 1));
  }

  /** The DOM strategy: one record per quality heading, in order. */
  method DomStrategy(classify: string -> Info, headings: seq<MovieHeading>) returns (qualities: seq<MovieQuality>)
    ensures qualities == Map(DomEntryOf(classify), headings)
  {
    qualities := [];
    for i := 0 to |headings|
      invariant qualities == Map(DomEntryOf(classify), headings[..i])
    {
      var entry := BuildDomEntry(classify, headings[i]);
      assert headings[..i + 1][..i] == headings[..i];
      qualities := qualities + [entry];
    }
    assert headings[..|headings|] == headings;
  }

  /** The fallback's inner loop: every `linkRegex` match of the div, in order. */
  method CollectFallbackLinks(qm: RawQualityMatch) returns (links: seq<string>)
    ensures links == qm.links
  {
    links := [];
    var j := 0;
    while j < |qm.links|
      invariant 0 <= j <= |qm.links|
      invariant links == qm.links[..j]
    {
      links := links + [qm.links[j]];
      j := j + 1;
    }
  }

  /** The loop body of the regular-expression strategy: the record for one match. */
  method BuildFallbackEntry(classify: string -> Info, qm: RawQualityMatch) returns (entry: MovieQuality)
    ensures entry == FallbackEntry(classify, qm)
  {
    var qualitySize := Trim(StripTags(qm.headingHtml));
    var links := CollectFallbackLinks(qm);
    entry := BuildEntry(classify, qualitySize, LinkAt(links, 0), LinkAt(links, 1));
  }

  /** The regular-expression strategy: one record per `qualityRegex` match, in order. */
  method FallbackStrategy(classify: string -> Info, rawMatches: seq<RawQualityMatch>)
    returns (qualities: seq<MovieQuality>)
    ensures qualities == Map(FallbackEntryOf(classify), rawMatches)
  {
    qualities := [];
    for i := 0 to |rawMatches|
      invariant qualities == Map(FallbackEntryOf(classify), rawMatches[..i])
    {
      var entry := BuildFallbackEntry(classify, rawMatches[i]);
      assert rawMatches[..i + 1][..i] == rawMatches[..i];
      qualities := qualities + [entry];
    }
    assert rawMatches[..|rawMatches|] == rawMatches;
  }

  /**
   * `extractMovie`: nothing for an empty fragment; otherwise one record per
   * quality heading, in document order; and only when there is no quality
   * heading, one record per match of the regular-expression fallback, in order.
   */
  method ExtractMovie(downloadHtml: string, h3s: seq<MovieHeading>, rawMatches: seq<RawQualityMatch>)
    returns (qualities: seq<MovieQuality>)
    ensures downloadHtml == "" ==> qualities == []
    ensures downloadHtml != "" && QualityHeadings(h3s) != [] ==>
      qualities == Map(DomEntryOf(DetectMovieOrTVShowInfo), QualityHeadings(h3s))
    ensures downloadHtml != "" && QualityHeadings(h3s) == [] ==>
      qualities == Map(FallbackEntryOf(DetectMovieOrTVShowInfo), rawMatches)
  {
    if downloadHtml == "" {
      return [];
    }
    var headings := QualityHeadings(h3s);
    if |headings| > 0 {
      qualities := DomStrategy(DetectMovieOrTVShowInfo, headings);
    } else {
      qualities := FallbackStrategy(DetectMovieOrTVShowInfo, rawMatches);
    }
  }

  /** "1080p / 1.2GB" passes the quality-heading filter. */
  lemma ExampleIsQualityHeading(next: Option<seq<Anchor>>)
    ensures IsQualityHeading(MovieHeading("1080p / 1.2GB", next))
  {
    var lower := ToLower("1080p / 1.2GB");
    assert lower[0..4] == "1080" by {
      assert lower[0] == '1' && lower[1] == '0' && lower[2] == '8' && lower[3] == '0';
    }
    ContainsIff(lower, "1080");
  }

  /** Anchors carrying the two phrases are link anchors; their hrefs are the heading's links, in order. */
  lemma PhraseAnchorLinks(text: string, download: string, subtitle: string)
    ensures HeadingLinks(MovieHeading(text,
      Some([Anchor(DownloadPhrase, Some(download)), Anchor(SubtitlePhrase, Some(subtitle))])))
      == [download, subtitle]
  {
    var anchors := [Anchor(DownloadPhrase, Some(download)), Anchor(SubtitlePhrase, Some(subtitle))];
    assert IsLinkAnchor(anchors[0]) by {
      assert OccursAt(DownloadPhrase, DownloadPhrase, 0);
    }
    assert IsLinkAnchor(anchors[1]) by {
      assert OccursAt(SubtitlePhrase, SubtitlePhrase, 0);
    }
    assert anchors[..1][..0] == [];
    assert anchors[..1] == [anchors[0]];
    assert LinkAnchors(anchors) == anchors;
  }

  /** The example label splits into quality "1080p" and size "1.2GB". */
  lemma ExampleLabel(classify: string -> Info, d: Option<string>, s: Option<string>)
    ensures var e := BuildEntry(classify, "1080p / 1.2GB", d, s);
      e.quality == "1080p" && e.size == Some("1.2GB")
  {
    assert "1080p / 1.2GB" == "1080p" + " / " + "1.2GB";
    BuildEntryOfLabel(classify, "1080p", "1.2GB", d, s);
  }

  /**
   * A heading "1080p / 1.2GB" whose next sibling holds the download anchor and
   * then the subtitle anchor gives quality "1080p", size "1.2GB" and the two hrefs.
   */
  lemma DomExample(classify: string -> Info, download: string, subtitle: string)
    requires download != "" && subtitle != ""
    ensures var e := DomEntry(classify, MovieHeading("1080p / 1.2GB",
        Some([Anchor(DownloadPhrase, Some(download)), Anchor(SubtitlePhrase, Some(subtitle))])));
      && e.quality == "1080p" && e.size == Some("1.2GB")
      && e.downloadLink == Some(download) && e.subtitleLink == Some(subtitle)
  {
    var caption := "1080p / 1.2GB";
    PhraseAnchorLinks(caption, download, subtitle);
    TrimOfTrimmed(caption);
    ExampleLabel(classify, Some(download), Some(subtitle));
  }

  /** The same block, found by the fallback, gives the same record as the DOM strategy. */
  lemma StrategiesAgree(classify: string -> Info, download: string, subtitle: string)
    requires download != "" && subtitle != ""
    ensures FallbackEntry(classify, RawQualityMatch("1080p / 1.2GB", [download, subtitle]))
      == DomEntry(classify, MovieHeading("1080p / 1.2GB",
        Some([Anchor(DownloadPhrase, Some(download)), Anchor(SubtitlePhrase, Some(subtitle))])))
  {
    var caption := "1080p / 1.2GB";
    var anchors := [Anchor(DownloadPhrase, Some(download)), Anchor(SubtitlePhrase, Some(subtitle))];
    assert StripTags(caption) == caption by {
      StripTagsPlainText(caption);
    }
    PhraseAnchorLinks(caption, download, subtitle);
    var links := HeadingLinks(MovieHeading(caption, Some(anchors)));
    assert LinkAt(links, 0) == LinkAt([download, subtitle], 0);
    assert LinkAt(links, 1) == LinkAt([download, subtitle], 1);
  }

  /**
   * Links are assigned by position, not by phrase: when the only link anchor
   * is a subtitle anchor, its href becomes the download link.
   */
  lemma LinksByPosition(classify: string -> Info, text: string, subtitle: string)
    requires subtitle != ""
    ensures var e := DomEntry(classify, MovieHeading(text, Some([Anchor(SubtitlePhrase, Some(subtitle))])));
      e.downloadLink == Some(subtitle) && e.subtitleLink == None
  {
    var anchors := [Anchor(SubtitlePhrase, Some(subtitle))];
    assert IsLinkAnchor(anchors[0]) by {
      assert OccursAt(SubtitlePhrase, SubtitlePhrase, 0);
    }
    assert anchors[..0] == [];
    assert LinkAnchors(anchors) == anchors;
  }

  // ---------------------------------------------------------------------------
  // extractSeries
  // ---------------------------------------------------------------------------

  /** An element of the parsed fragment: an identity, its text content and its `outerHTML`. */
  datatype Element = Element(id: nat, text: string, outerHtml: string)

  /** An `<h3>` of the parsed fragment and the element siblings that follow it, in order. */
  datatype SeriesHeading = SeriesHeading(element: Element, following: seq<Element>)

  /** A match of `buttonRegex`: the button's inner markup, then the two hrefs. */
  datatype ButtonMatch = ButtonMatch(buttonHtml: string, downloadHref: string, subtitleHref: string)

  const SeasonPhrase: string := "دانلود فصل"

  /** `\s*\d` matches `s` at index `i`. */
  predicate DigitAfterSpaces(s: string, i: nat)
    decreases |s| - i
  {
    i < |s| && (IsDigit(s[i]) || (IsWhitespace(s[i]) && DigitAfterSpaces(s, i + 1)))
  }

  /** `/دانلود فصل\s*\d+/` matches `text` at index `i`. */
  predicate SeasonMarkAt(text: string, i: nat) {
    OccursAt(text, SeasonPhrase, i) && DigitAfterSpaces(text, i + |SeasonPhrase|)
  }

  /** `/دانلود فصل\s*\d+/` matches `text` at index `i` or later. */
  predicate SeasonMarkFrom(text: string, i: nat)
    decreases |text| - i
  {
    SeasonMarkAt(text, i) || (i < |text| && SeasonMarkFrom(text, i + 1))
  }

  /** `/دانلود فصل\s*\d+/i` matches somewhere in `text`. */
  predicate IsSeasonText(text: string) {
    SeasonMarkFrom(text, 0)
  }

  predicate IsSeasonHeading(h: SeriesHeading) {
    IsSeasonText(h.element.text)
  }

  function SeasonHeadings(h3s: seq<SeriesHeading>): seq<SeriesHeading> {
    Filter(h3s, IsSeasonHeading)
  }

  function HeadingElements(headings: seq<SeriesHeading>): (r: seq<Element>)
    ensures |r| == |headings|
  {
    seq(|headings|, i requires 0 <= i < |headings| => headings[i].element)
  }

  /** `match ? Number(match[1]) : index + 1` for the heading text and its position. */
  function SeasonNumber(text: string, index: nat): nat {
    match FirstDigitRun(text)
    case Some(ds) => DigitsValue(ds)
    case None => index + 1
  }

  /**
   * Where the sibling walk from `j` stops: the first index at or after `j`
   * holding a season heading, or the end.
   */
  function ContainerEnd(following: seq<Element>, headings: seq<Element>, j: nat): (e: nat)
    requires j <= |following|
    ensures j <= e <= |following|
    ensures e < |following| ==> following[e] in headings
    decreases |following| - j
  {
    if j == |following| || following[j] in headings then j else ContainerEnd(following, headings, j + 1)
  }

  lemma {:induction false} ContainerEndSpan(following: seq<Element>, headings: seq<Element>, j: nat)
    requires j <= |following|
    ensures forall k :: j <= k < ContainerEnd(following, headings, j) ==> following[k] !in headings
    decreases |following| - j
  {
    if j < |following| && following[j] !in headings {
      ContainerEndSpan(following, headings, j + 1);
    }
  }

  /**
   * The siblings collected for a heading: those after it up to, not including,
   * the next season heading (or to the end).
   */
  function ContainerOf(following: seq<Element>, headings: seq<Element>): (r: seq<Element>)
    ensures |r| <= |following| && r == following[..|r|]
    ensures forall k :: 0 <= k < |r| ==> r[k] !in headings
    ensures |r| < |following| ==> following[|r|] in headings
  {
    ContainerEndSpan(following, headings, 0);
    following[..ContainerEnd(following, headings, 0)]
  }

  /** `containerElements.map(e => e.outerHTML).join('\n')`. */
  function Segment(container: seq<Element>): string {
    Join(seq(|container|, i requires 0 <= i < |container| => container[i].outerHtml), "\n")
  }

  /** The record built for one button match. */
  function ButtonEntry(classify: string -> Info, m: ButtonMatch): MovieQuality {
    BuildEntry(classify, StripTags(Trim(m.buttonHtml)), OrNull(m.downloadHref), OrNull(m.subtitleHref))
  }

  function ButtonEntryOf(classify: string -> Info): ButtonMatch -> MovieQuality {
    m => ButtonEntry(classify, m)
  }

  /** The sibling walk: collect siblings until the next season heading or the end. */
  method CollectContainer(following: seq<Element>, headings: seq<Element>) returns (container: seq<Element>)
    ensures container == ContainerOf(following, headings)
  {
    container := [];
    var j := 0;
    while j < |following|
      invariant 0 <= j <= |following|
      invariant container == following[..j]
      invariant ContainerEnd(following, headings, j) == ContainerEnd(following, headings, 0)
    {
      var sib := following[j];
      if sib in headings {
        break;
      }
      container := container + [sib];
      j := j + 1;
    }
  }

  /** The record for one button match: its stripped caption and its two links. */
  method BuildButtonEntry(classify: string -> Info, bm: ButtonMatch) returns (entry: MovieQuality)
    ensures entry == ButtonEntry(classify, bm)
  {
    var qualitySize := StripTags(Trim(bm.buttonHtml));
    entry := BuildEntry(classify, qualitySize, OrNull(bm.downloadHref), OrNull(bm.subtitleHref));
  }

  /** The button loop: one record per `buttonRegex` match, in order. */
  method CollectButtons(classify: string -> Info, matches: seq<ButtonMatch>) returns (qualities: seq<MovieQuality>)
    ensures qualities == Map(ButtonEntryOf(classify), matches)
  {
    qualities := [];
    for q := 0 to |matches|
      invariant qualities == Map(ButtonEntryOf(classify), matches[..q])
    {
      var entry := BuildButtonEntry(classify, matches[q]);
      assert matches[..q + 1][..q] == matches[..q];
      qualities := qualities + [entry];
    }
    assert matches[..|matches|] == matches;
  }

  /** What `extractSeries` promises for the season built from the kept heading at `k`. */
  predicate SeasonFor(classify: string -> Info, s: Season, headings: seq<SeriesHeading>, k: nat,
                      buttonRegex: string -> seq<ButtonMatch>)
    requires k < |headings|
  {
    var matches := buttonRegex(Segment(ContainerOf(headings[k].following, HeadingElements(headings))));
    && s.season == SeasonNumber(headings[k].element.text, k)
    && s.qualities == Map(ButtonEntryOf(classify), matches)
  }

  /**
   * `extractSeries`: nothing for an empty fragment; otherwise one season per
   * season heading, in document order (also when a season has no buttons),
   * numbered by the heading's first digit run, holding one record per button
   * match found in the markup of the siblings up to the next season heading.
   */
  method ExtractSeries(downloadHtml: string, h3s: seq<SeriesHeading>, buttonRegex: string -> seq<ButtonMatch>)
    returns (seasons: seq<Season>)
    ensures downloadHtml == "" ==> seasons == []
    ensures downloadHtml != "" ==>
      |seasons| == |SeasonHeadings(h3s)|
      && forall k :: 0 <= k < |seasons| ==> SeasonFor(DetectMovieOrTVShowInfo, seasons[k], SeasonHeadings(h3s), k, buttonRegex)
  {
    seasons := [];
    if downloadHtml == "" {
      return;
    }
    var headings := SeasonHeadings(h3s);
    var elements := HeadingElements(headings);
    for index := 0 to |headings|
      invariant |seasons| == index
      invariant forall k :: 0 <= k < index ==> SeasonFor(DetectMovieOrTVShowInfo, seasons[k], headings, k, buttonRegex)
    {
      var h := headings[index];
      var seasonNumber := SeasonNumber(h.element.text, index);
      var containerElements := CollectContainer(h.following, elements);
      var htmlSegment := Segment(containerElements);
      var qualities := CollectButtons(DetectMovieOrTVShowInfo, buttonRegex(htmlSegment));
      seasons := seasons + [Season(qualities, seasonNumber)];
      assert SeasonFor(DetectMovieOrTVShowInfo, seasons[index], headings, index, buttonRegex);
    }
  }

  /** A text that `\s*\d` matches at `i` holds a digit at or after `i`. */
  lemma {:induction false} DigitAfterSpacesHasDigit(s: string, i: nat)
    requires DigitAfterSpaces(s, i)
    ensures !NoDigits(s)
    decreases |s| - i
  {
    if !IsDigit(s[i]) {
      DigitAfterSpacesHasDigit(s, i + 1);
    }
  }

  /** A text where the season pattern matches at `i` or later holds a digit. */
  lemma {:induction false} SeasonMarkHasDigit(text: string, i: nat)
    requires SeasonMarkFrom(text, i)
    ensures !NoDigits(text)
    decreases |text| - i
  {
    if SeasonMarkAt(text, i) {
      DigitAfterSpacesHasDigit(text, i + |SeasonPhrase|);
    } else {
      SeasonMarkHasDigit(text, i + 1);
    }
  }

  /**
   * The positional fallback `index + 1` is never used for a kept heading: its
   * number is always the value of the text's first digit run.
   */
  lemma SeasonNumberFromDigits(text: string, index: nat)
    requires IsSeasonText(text)
    ensures FirstDigitRun(text).Some?
    ensures SeasonNumber(text, index) == DigitsValue(FirstDigitRun(text).value)
  {
    SeasonMarkHasDigit(text, 0);
    FirstDigitRunSpec(text);
  }

  /**
   * A heading "دانلود فصل N" is a season heading, and its season number is N
   * whatever its position; so headings for seasons 1 and 2 give seasons 1 and 2.
   */
  lemma SeasonHeadingNumber(n: nat, index: nat)
    ensures IsSeasonText(SeasonPhrase + " " + NatToString(n))
    ensures SeasonNumber(SeasonPhrase + " " + NatToString(n), index) == n
  {
    var digits := NatToString(n);
    var text := SeasonPhrase + " " + digits;
    var at := |SeasonPhrase|;
    assert OccursAt(text, SeasonPhrase, 0) by {
      assert text[0..at] == SeasonPhrase;
    }
    assert DigitAfterSpaces(text, at) by {
      assert text[at] == ' ' && text[at + 1] == digits[0];
      assert DigitAfterSpaces(text, at + 1);
    }
    assert SeasonMarkAt(text, 0);
    assert NoDigits(SeasonPhrase + " ");
    assert text == (SeasonPhrase + " ") + digits;
    FirstDigitRunAfter(SeasonPhrase + " ", digits);
    NatToStringRoundTrip(n);
  }
}
