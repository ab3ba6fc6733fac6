/**
 * The link builders of `FilmDownloadSection` (`film-download-section.tsx`):
 * the short IMDb id, the release year and the encoded title, then the three
 * mirror download links, the subtitle link and the labels of the link buttons.
 *
 * `encodeURIComponent` is a parameter `encode`.
 */
module FilmDownload {
  import opened Wrappers
  import opened Text
  import opened Seqs

  /** The fields of the movie details the section reads; the title may be missing. */
  datatype MovieDetails = MovieDetails(imdbId: string, title: Option<string>, releaseDate: string)

  datatype LinkGenerationData = LinkGenerationData(encodedTitle: string, imdbShort: string, releaseYear: string)

  datatype Links = Links(downloadLinks: seq<string>, subtitleLink: string)

  const ServerBaseUrls: seq<string> := [
    "https://berlin.saymyname.website",
    "https://tokyo.saymyname.website",
    "https://nairobi.saymyname.website"
  ]

  const SubtitlePrefix: string := "http://subtitlestar.com/go-to.php?imdb-id="
  const MovieNameParam: string := "&movie-name="

  /** `imdb_id.replace('tt', '')`: the first "tt" removed. */
  function ImdbShort(imdbId: string): string {
    ReplaceFirst(imdbId, "tt", "")
  }

  /** `release_date.slice(0, 4)`. */
  function ReleaseYear(releaseDate: string): string {
    Take(releaseDate, 4)
  }

  /** The `linkGenerationData` memo; a missing title is encoded as "". */
  function GenerationData(encode: string -> string, m: MovieDetails): LinkGenerationData {
    LinkGenerationData(
      encodedTitle := encode(m.title.GetOr("")),
      imdbShort := ImdbShort(m.imdbId),
      releaseYear := ReleaseYear(m.releaseDate))
  }

  /** `/Movies/${releaseYear}/${imdbShort}`. */
  function DownloadPath(d: LinkGenerationData): string {
    "/Movies/" + d.releaseYear + "/" + d.imdbShort
  }

  /** The `links` memo. */
  function BuildLinks(imdbId: string, d: LinkGenerationData): (r: Links)
    ensures |r.downloadLinks| == |ServerBaseUrls| == 3
  {
    var path := DownloadPath(d);
    Links(
      downloadLinks := Map(url => url + path, ServerBaseUrls),
      subtitleLink := SubtitlePrefix + imdbId + MovieNameParam + d.encodedTitle)
  }

  /** What the section builds for a movie. */
  function FilmLinks(encode: string -> string, m: MovieDetails): Links {
    BuildLinks(m.imdbId, GenerationData(encode, m))
  }

  /** An IMDb id "tt…" loses its leading "tt" only, even when another "tt" follows. */
  lemma ImdbShortOfPrefixedId(rest: string)
    ensures ImdbShort("tt" + rest) == rest
  {
    var id := "tt" + rest;
    assert OccursAt(id, "tt", 0) by {
      assert id[0..2] == "tt";
    }
    ReplaceFirstAt(id, "tt", "", 0);
    assert id[2..] == rest;
  }

  /** An id without "tt" is kept as it is. */
  lemma ImdbShortWithoutTt(imdbId: string)
    requires !Contains(imdbId, "tt")
    ensures ImdbShort(imdbId) == imdbId
  {
    ReplaceFirstAbsent(imdbId, "tt", "");
  }

  /** Only the first "tt" goes: the id is what precedes it, then what follows it. */
  lemma ImdbShortRemovesFirst(imdbId: string, i: nat)
    requires OccursAt(imdbId, "tt", i)
    requires forall j :: 0 <= j < i ==> !OccursAt(imdbId, "tt", j)
    ensures ImdbShort(imdbId) == imdbId[..i] + imdbId[i + 2..]
    ensures |ImdbShort(imdbId)| == |imdbId| - 2
  {
    ReplaceFirstAt(imdbId, "tt", "", i);
  }

  /** The release year is the first four characters, or the whole date when it is shorter. */
  lemma ReleaseYearSpec(releaseDate: string)
    ensures |releaseDate| >= 4 ==> ReleaseYear(releaseDate) == releaseDate[..4]
    ensures |releaseDate| < 4 ==> ReleaseYear(releaseDate) == releaseDate
  {
  }

  /**
   * Three download links, in the order berlin, tokyo, nairobi, each the server's
   * base URL then "/Movies/", the release year, "/" and the short id.
   */
  lemma DownloadLinksSpec(imdbId: string, d: LinkGenerationData)
    ensures var links := BuildLinks(imdbId, d).downloadLinks;
      forall k :: 0 <= k < 3 ==>
        links[k] == ServerBaseUrls[k] + "/Movies/" + d.releaseYear + "/" + d.imdbShort
  {
    forall k | 0 <= k < 3
      ensures BuildLinks(imdbId, d).downloadLinks[k] == ServerBaseUrls[k] + DownloadPath(d)
    {
      MapAt(url => url + DownloadPath(d), ServerBaseUrls, k);
    }
  }

  /**
   * A download link gives back the year and the short id it was built from:
   * for a full-length year, they sit at fixed offsets after the server's base URL.
   */
  lemma DownloadLinkDecodes(imdbId: string, d: LinkGenerationData, k: nat)
    requires k < 3 && |d.releaseYear| == 4
    ensures var link := BuildLinks(imdbId, d).downloadLinks[k];
      var n := |ServerBaseUrls[k]|;
      && |link| == n + 13 + |d.imdbShort|
      && link[..n] == ServerBaseUrls[k]
      && link[n + 8..n + 12] == d.releaseYear
      && link[n + 13..] == d.imdbShort
  {
    DownloadLinksSpec(imdbId, d);
  }

  /** The subtitle link carries the full IMDb id (with "tt") and then the encoded title. */
  lemma SubtitleLinkDecodes(imdbId: string, d: LinkGenerationData)
    ensures var link := BuildLinks(imdbId, d).subtitleLink;
      var n := |SubtitlePrefix|;
      && link[..n] == SubtitlePrefix
      && link[n..n + |imdbId|] == imdbId
      && link[n + |imdbId| + |MovieNameParam|..] == d.encodedTitle
  {
  }

  /**
   * For a movie: the subtitle link uses the id unshortened and the encoded
   * title, or the encoding of "" when there is no title.
   */
  lemma FilmLinksUseTitle(encode: string -> string, m: MovieDetails)
    ensures m.title.Some? ==>
      FilmLinks(encode, m).subtitleLink == SubtitlePrefix + m.imdbId + MovieNameParam + encode(m.title.value)
    ensures m.title.None? ==>
      FilmLinks(encode, m).subtitleLink == SubtitlePrefix + m.imdbId + MovieNameParam + encode("")
  {
  }

  /**
   * For a movie whose id is "tt" + digits and whose date starts with a year:
   * download link `k` is the server's base URL, "/Movies/", the year, "/" and the digits.
   */
  lemma FilmDownloadLink(encode: string -> string, digits: string, year: string, rest: string, title: Option<string>, k: nat)
    requires k < 3 && |year| == 4
    ensures FilmLinks(encode, MovieDetails("tt" + digits, title, year + rest)).downloadLinks[k]
      == ServerBaseUrls[k] + "/Movies/" + year + "/" + digits
  {
    var m := MovieDetails("tt" + digits, title, year + rest);
    ImdbShortOfPrefixedId(digits);
    assert (year + rest)[..4] == year;
    DownloadLinksSpec(m.imdbId, GenerationData(encode, m));
  }

  /** The caption of the link button at a position: the main server, then auxiliary servers 1, 2, … */
  datatype ServerLabel = Main | Auxiliary(n: nat)

  datatype ButtonVariant = DefaultVariant | Destructive

  function LabelAt(linkIndex: nat): (r: ServerLabel)
    ensures r.Main? <==> linkIndex == 0
    ensures r.Auxiliary? ==> r.n == linkIndex
  {
    if linkIndex == 0 then Main else Auxiliary(linkIndex)
  }

  function VariantAt(linkIndex: nat): (r: ButtonVariant)
    ensures r == DefaultVariant <==> linkIndex == 0
  {
    if linkIndex == 0 then DefaultVariant else Destructive
  }
}
