/**
 * The `links` memo of `TvShowDownloadSection` (`tv-show-download-section.tsx`):
 * for a show with an IMDb id and at least one season, one record per season,
 * numbered from 1, each holding the four quality links of that season.
 */
module TvShowDownload {
  import opened Text

  datatype QualityLink = QualityLink(link: string, quality: nat)

  datatype SeasonLinks = SeasonLinks(qualities: seq<QualityLink>, season: nat)

  /** The memo's result: the failure record, or the show's id and its seasons. */
  datatype DownloadLinks =
    | Failure(message: string)
    | Success(imdbId: string, seasons: seq<SeasonLinks>)

  const FailureMessage: string := "لینک‌های دانلود در حال حاضر در دسترس نیستند."
  const LinkBase: string := "https://subtitle.saymyname.website/DL/filmgir/?i="
  const SeasonParam: string := "&f="
  const QualityParam: string := "&q="

  /** The quality numbers of every season: 1 to 4. */
  const QualityCount: nat := 4

  /** The link for a season and a quality, both written in decimal. */
  function QualityUrl(imdbId: string, season: nat, quality: nat): string {
    LinkBase + imdbId + SeasonParam + NatToString(season) + QualityParam + NatToString(quality)
  }

  /**
   * The nested loops: with no IMDb id or no season, the failure record;
   * otherwise season records 1..seasonCount in order, each with qualities 1..4
   * in order, each link built from the id, the season and the quality.
   */
  method BuildSeasonLinks(imdbId: string, seasonCount: nat) returns (r: DownloadLinks)
    ensures imdbId == "" || seasonCount == 0 <==> r.Failure?
    ensures r.Failure? ==> r.message == FailureMessage
    ensures r.Success? ==> r.imdbId == imdbId && |r.seasons| == seasonCount
    ensures r.Success? ==> forall s :: 0 <= s < |r.seasons| ==>
      && r.seasons[s].season == s + 1
      && |r.seasons[s].qualities| == QualityCount
      && forall q :: 0 <= q < QualityCount ==>
        r.seasons[s].qualities[q] == QualityLink(QualityUrl(imdbId, s + 1, q + 1), q + 1)
  {
    if imdbId == "" || seasonCount == 0 {
      return Failure(FailureMessage);
    }
    var seasons: seq<SeasonLinks> := [];
    var season := 1;
    while season <= seasonCount
      invariant 1 <= season <= seasonCount + 1
      invariant |seasons| == season - 1
      invariant forall s :: 0 <= s < |seasons| ==>
        && seasons[s].season == s + 1
        && |seasons[s].qualities| == QualityCount
        && forall q :: 0 <= q < QualityCount ==>
          seasons[s].qualities[q] == QualityLink(QualityUrl(imdbId, s + 1, q + 1), q + 1)
    {
      var qualities: seq<QualityLink> := [];
      var quality := 1;
      while quality <= QualityCount
        invariant 1 <= quality <= QualityCount + 1
        invariant |qualities| == quality - 1
        invariant forall q :: 0 <= q < |qualities| ==>
          qualities[q] == QualityLink(QualityUrl(imdbId, season, q + 1), q + 1)
      {
        qualities := qualities + [QualityLink(QualityUrl(imdbId, season, quality), quality)];
        quality := quality + 1;
      }
      seasons := seasons + [SeasonLinks(qualities, season)];
      season := season + 1;
    }
    return Success(imdbId, seasons);
  }

  /**
   * Two digit strings followed by the same separator, whose first character is
   * not a digit, can only be equal prefixes: the separator marks where each ends.
   */
  lemma DigitsThenSeparator(a: string, b: string, sep: string, x: string, y: string)
    requires AllDigits(a) && AllDigits(b) && sep != [] && !IsDigit(sep[0])
    requires a + sep + x == b + sep + y
    ensures a == b && x == y
  {
    var l := a + sep + x;
    assert forall i :: 0 <= i < |a| ==> IsDigit(l[i]);
    assert !IsDigit(l[|a|]);
    assert l == b + sep + y;
    assert forall i :: 0 <= i < |b| ==> IsDigit(l[i]);
    assert !IsDigit(l[|b|]);
    assert |a| == |b|;
    assert a == l[..|a|] == b;
    assert x == l[|a| + |sep|..] == y;
  }

  /**
   * Different (season, quality) pairs of the same show never share a link: the
   * link determines the season and the quality.
   */
  lemma QualityUrlInjective(imdbId: string, s1: nat, q1: nat, s2: nat, q2: nat)
    requires QualityUrl(imdbId, s1, q1) == QualityUrl(imdbId, s2, q2)
    ensures s1 == s2 && q1 == q2
  {
    var p := LinkBase + imdbId + SeasonParam;
    var d1, d2 := NatToString(s1), NatToString(s2);
    var e1, e2 := NatToString(q1), NatToString(q2);
    assert QualityUrl(imdbId, s1, q1) == p + (d1 + QualityParam + e1);
    assert QualityUrl(imdbId, s2, q2) == p + (d2 + QualityParam + e2);
    assert (p + (d1 + QualityParam + e1))[|p|..] == d1 + QualityParam + e1;
    assert (p + (d2 + QualityParam + e2))[|p|..] == d2 + QualityParam + e2;
    DigitsThenSeparator(d1, d2, QualityParam, e1, e2);
    NatToStringInjective(s1, s2);
    NatToStringInjective(q1, q2);
  }

  /** Within one result, all the links are distinct. */
  lemma LinksDistinct(imdbId: string, r: DownloadLinks, s1: nat, q1: nat, s2: nat, q2: nat)
    requires r.Success? && r.imdbId == imdbId
    requires forall s :: 0 <= s < |r.seasons| ==>
      && |r.seasons[s].qualities| == QualityCount
      && forall q :: 0 <= q < QualityCount ==>
        r.seasons[s].qualities[q] == QualityLink(QualityUrl(imdbId, s + 1, q + 1), q + 1)
    requires s1 < |r.seasons| && s2 < |r.seasons| && q1 < QualityCount && q2 < QualityCount
    requires (s1, q1) != (s2, q2)
    ensures r.seasons[s1].qualities[q1].link != r.seasons[s2].qualities[q2].link
  {
    if r.seasons[s1].qualities[q1].link == r.seasons[s2].qualities[q2].link {
      QualityUrlInjective(imdbId, s1 + 1, q1 + 1, s2 + 1, q2 + 1);
    }
  }
}
