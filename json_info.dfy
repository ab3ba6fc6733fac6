/**
 * `parseJsonInfoFromHtml` of `use-almas-data.ts`: find the page's
 * `<link rel="alternate" type="application/json" title="json">` and read the
 * numeric id and the kind of title (movie or series) from its `href`.
 *
 * The `<link rel>` elements of the parsed page, in document order, are an
 * input; their attributes are read as the code reads them.
 */
module JsonInfo {
  import opened Wrappers
  import opened Text

  /** A `<link>` element that has a `rel` attribute, with the attributes the code reads. */
  datatype LinkElement = LinkElement(rel: string, linkType: Option<string>, title: Option<string>,
                                     href: Option<string>)

  /** `AlmasType`. */
  datatype AlmasType = Movie | TvShow

  datatype Info = Info(id: string, almasType: AlmasType)

  /** The `find` predicate: rel, type and title equal, ignoring case, to 'alternate', 'application/json', 'json'. */
  predicate IsJsonLink(l: LinkElement) {
    && ToLower(l.rel) == "alternate"
    && ToLower(l.linkType.GetOr("")) == "application/json"
    && ToLower(l.title.GetOr("")) == "json"
  }

  /** `[...links].find(IsJsonLink)`, from index `i`. */
  function FindFrom(links: seq<LinkElement>, i: nat): (r: Option<nat>)
    ensures r.Some? ==> i <= r.value < |links| && IsJsonLink(links[r.value])
    decreases |links| - i
  {
    if i >= |links| then None
    else if IsJsonLink(links[i]) then Some(i)
    else FindFrom(links, i + 1)
  }

  predicate IsTerminator(c: char) {
    c == '/' || c == '?' || c == '#'
  }

  /**
   * `/\/(\d+)(?=([\/\?#]|$))/` matches at `i`: a '/', then the whole digit run
   * after it (non-empty), then '/', '?', '#' or the end. Backtracking into a
   * shorter run cannot help, since a digit would follow it.
   */
  predicate IdAt(href: string, i: nat) {
    i < |href| && href[i] == '/' &&
    var e := DigitRunEnd(href, i + 1);
    e > i + 1 && (e == |href| || IsTerminator(href[e]))
  }

  /** The leftmost match position at or after `i`. */
  function IdMatchFrom(href: string, i: nat): (r: Option<nat>)
    ensures r.Some? ==> i <= r.value && IdAt(href, r.value)
    decreases |href| - i
  {
    if i >= |href| then None
    else if IdAt(href, i) then Some(i)
    else IdMatchFrom(href, i + 1)
  }

  /** `match[1]`: the digit run after the matched '/'. */
  function IdOf(href: string, i: nat): (id: string)
    requires IdAt(href, i)
    ensures id != [] && AllDigits(id)
  {
    DigitRunEndSpan(href, i + 1);
    href[i + 1..DigitRunEnd(href, i + 1)]
  }

  function ParseJsonInfoFromHtml(html: string, links: seq<LinkElement>): (r: Option<Info>)
    ensures html == "" ==> r == None
    ensures r.Some? ==> r.value.id != [] && AllDigits(r.value.id)
  {
    if html == "" then None
    else match FindFrom(links, 0)
      case None => None
      case Some(k) =>
        var href := links[k].href.GetOr("");
        match IdMatchFrom(href, 0)
        case None => None
        case Some(i) =>
          Some(Info(IdOf(href, i), if Contains(href, "/series/") then TvShow else Movie))
  }

  lemma {:induction false} FindFromSpec(links: seq<LinkElement>, i: nat)
    ensures FindFrom(links, i).None? <==> forall k :: i <= k < |links| ==> !IsJsonLink(links[k])
    ensures FindFrom(links, i).Some? ==> forall k :: i <= k < FindFrom(links, i).value ==> !IsJsonLink(links[k])
    decreases |links| - i
  {
    if i < |links| && !IsJsonLink(links[i]) {
      FindFromSpec(links, i + 1);
    }
  }

  lemma {:induction false} IdMatchFromSpec(href: string, i: nat)
    ensures IdMatchFrom(href, i).None? <==> forall k :: i <= k < |href| ==> !IdAt(href, k)
    ensures IdMatchFrom(href, i).Some? ==> forall k :: i <= k < IdMatchFrom(href, i).value ==> !IdAt(href, k)
    decreases |href| - i
  {
    if i < |href| && !IdAt(href, i) {
      IdMatchFromSpec(href, i + 1);
    }
  }

  /** With no JSON link on the page, there is no info. */
  lemma NoJsonLink(html: string, links: seq<LinkElement>)
    requires forall k :: 0 <= k < |links| ==> !IsJsonLink(links[k])
    ensures ParseJsonInfoFromHtml(html, links) == None
  {
    FindFromSpec(links, 0);
  }

  /** With no '/'-prefixed digit run ending at '/', '?', '#' or the end of the first JSON link's href, there is no info. */
  lemma NoIdInHref(html: string, links: seq<LinkElement>, k: nat)
    requires k < |links| && IsJsonLink(links[k])
    requires forall j :: 0 <= j < k ==> !IsJsonLink(links[j])
    requires forall i :: 0 <= i < |links[k].href.GetOr("")| ==> !IdAt(links[k].href.GetOr(""), i)
    ensures ParseJsonInfoFromHtml(html, links) == None
  {
    FindFromSpec(links, 0);
    IdMatchFromSpec(links[k].href.GetOr(""), 0);
  }

  /**
   * Otherwise: the info comes from the first JSON link; its id is the whole
   * digit run of the leftmost match, and its type is 'tvshow' exactly when the
   * href contains "/series/".
   */
  lemma InfoOfFirstJsonLink(html: string, links: seq<LinkElement>, k: nat, i: nat)
    requires html != ""
    requires k < |links| && IsJsonLink(links[k])
    requires forall j :: 0 <= j < k ==> !IsJsonLink(links[j])
    requires IdAt(links[k].href.GetOr(""), i)
    requires forall j :: 0 <= j < i ==> !IdAt(links[k].href.GetOr(""), j)
    ensures var href := links[k].href.GetOr("");
      var r := ParseJsonInfoFromHtml(html, links);
      && r.Some?
      && r.value.id == IdOf(href, i)
      && (r.value.almasType == TvShow <==> Contains(href, "/series/"))
  {
    FindFromSpec(links, 0);
    var href := links[k].href.GetOr("");
    IdMatchFromSpec(href, 0);
  }

  /** The id is the whole run: the character after it is not a digit. */
  lemma IdIsWholeRun(href: string, i: nat)
    requires IdAt(href, i)
    ensures var e := i + 1 + |IdOf(href, i)|;
      e <= |href| && (e == |href| || !IsDigit(href[e]))
  {
  }

  /** An href "…/movie/<digits>/" of a movie page gives that id, typed movie. */
  lemma MovieHref(html: string, digits: string, link: LinkElement)
    requires html != "" && IsJsonLink(link)
    requires digits != [] && AllDigits(digits)
    requires link.href == Some("/movie/" + digits + "/")
    ensures ParseJsonInfoFromHtml(html, [link]) == Some(Info(digits, Movie))
  {
    var href := "/movie/" + digits + "/";
    var e := 7 + |digits|;
    assert href[6] == '/' && href[e] == '/';
    assert forall k :: 7 <= k < e ==> IsDigit(href[k]);
    DigitRunEndPrefix(href, 7, e);
    assert IdAt(href, 6);
    assert !IdAt(href, 0) && !IdAt(href, 1) && !IdAt(href, 2) && !IdAt(href, 3);
    assert !IdAt(href, 4) && !IdAt(href, 5);
    assert href[7..e] == digits;
    InfoOfFirstJsonLink(html, [link], 0, 6);
    assert forall j :: 0 <= j < |href| ==> href[j] != 's';
    if Contains(href, "/series/") {
      ContainsChar(href, "/series/", 1);
    }
  }

  /** A digit run from `i` that stops at a non-digit `e` ends at `e`. */
  lemma {:induction false} DigitRunEndPrefix(s: string, i: nat, e: nat)
    requires i <= e < |s| && !IsDigit(s[e])
    requires forall k :: i <= k < e ==> IsDigit(s[k])
    ensures DigitRunEnd(s, i) == e
    decreases e - i
  {
    if i < e {
      DigitRunEndPrefix(s, i + 1, e);
    }
  }
}
