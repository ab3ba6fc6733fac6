# open-movie: the scraper, the confirm dialog and the link builders, in Dafny

open-movie is a React front end for browsing films and series. Besides its
pages it has a few pieces of real logic, and this project models them and
proves what they promise:

- **The download-link scraper** (`src/hooks/use-almas-data.ts`):
  - It classifies a release filename into bilingual resolution, source and audio tiers, an encoder tag and four flags (`Classifier`).
  - It reads a page's numeric id and its kind, movie or series, from the page's JSON `<link>` (`JsonInfo`).
  - It turns the download fragment into ordered quality records for a movie, or into seasons of quality records for a series (`Extractor`).
  - Every record goes through one shared step: the caption is split into quality and size, the links are assigned by position, and the record is enriched with the classification of its download link.
- **The confirm-dialog provider** (`src/components/ui/confirm-dialog.tsx`) is a state machine over the dialog's options, an internal loading flag, whether the dialog is open, and the pending promise. `ConfirmDialog.ConfirmDialogProvider` is a class whose methods are the provider's transitions.
- **`Switch`** (`src/components/utilities/switch-case.tsx`) picks the first strictly-equal `Case`, else the last `Default` (`SwitchCase`).
- **`$image`** (`src/services/image-service.ts`) chooses a TMDB base URL by size, or a placeholder when there is no path (`ImageService`).
- **The download sections' link builders:**
  - For series, a season × quality link table built by nested loops (`TvShowDownload`).
  - For films, three mirror links and a subtitle link (`FilmDownload`).

Shared pieces:

- `Text` writes out the JavaScript string operations the code relies on over `seq<char>`: `toLowerCase`, `includes`, `trim`, `split(/\s\/\s/)`, `replaceAll(/<[^>]+>/g, '')`, `replace`, `slice`, `join`, `match(/(\d+)/)`, and number formatting in template strings.
- `Seqs` holds `Filter` and `Map`.
- `Wrappers` holds `Option`.

The browser's DOM parser and the regular-expression engine are not modelled. What they return is an input: the `<h3>` elements in document order with what the code reads from them, the anchors of each heading's next sibling, and the list of matches of each regular expression. The series button expression is a function of the markup segment the code builds. The model checks everything done with those lists: filtering, ordering, the choice between the two strategies, the caption split, the assignment of links by position, and the season numbering.

Some behaviours of the code are easy to misread, and the model keeps them as written:

- **Resolution tiers.** A name containing "1080p" is classified 1080p only when it contains none of 2160p, 4k, 1440p and 2k. The higher tiers are tested first, so "4k 1080p" is 4K (`Classifier.FourKWins`, `Classifier.TenEightyTier`).
- **Link assignment.** Links are assigned by position among the anchors that carry either phrase. The first such anchor gives the download link and the second the subtitle link, whichever phrase each carries (`Extractor.LinksByPosition`).
- **Caption split.** The caption splits only at `/\s\/\s/`, a slash with white space on both sides, so "1080p/1.2GB" has no size (`Extractor.BuildEntryLabel`).

Two more behaviours of the code are stated as lemmas:

- The encoder allow-list entry 'anoXmous' can never be detected (`Classifier.AnoXmousNeverDetected`).
- An asynchronous `onConfirm` that resolves to `undefined` keeps the dialog open, while a synchronous one that returns nothing closes it (`ConfirmDialog.VoidPromiseKeepsOpen`).

## Model

| member | source | states |
|---|---|---|
| Classifier.DetectEncoder | src/hooks/use-almas-data.ts:169-187 | The loop returns the first allow-list entry contained in the lower-cased name, in allow-list order. It returns 'نامشخص' exactly when no entry occurs. |
| Classifier.EncoderSpec | src/hooks/use-almas-data.ts:169-187 | The classification's encoder is 'نامشخص' exactly when no allow-list entry occurs in the lower-cased name. Otherwise it is the first entry that occurs. |
| Classifier.AnoXmousNeverDetected | src/hooks/use-almas-data.ts:170-186 | 'anoXmous' is never the detected encoder, because a lower-cased name cannot contain its upper-case 'X'. |
| Classifier.ClassificationIgnoresCase | src/hooks/use-almas-data.ts:189-259 | A name and its lower-cased form get the same classification. |
| Classifier.ResolutionRulesFire | src/hooks/use-almas-data.ts:192-215 | Each rule of the resolution cascade fires exactly when one of its tokens occurs: 2160p\|4k, 1440p\|2k, 1080p, 720p, 480p, 360p, 240p. |
| Classifier.FourKWins | src/hooks/use-almas-data.ts:194-196 | "2160p" or "4k" anywhere gives 4K/۴کی, whatever else the name contains. |
| Classifier.TenEightyTier | src/hooks/use-almas-data.ts:194-202 | A name containing "1080p" gets 1080p/۱۰۸۰p exactly when it contains none of 2160p, 4k, 1440p, 2k. |
| Classifier.ResolutionUnknownIff | src/hooks/use-almas-data.ts:192-215 | The resolution is Unknown/نامشخص exactly when none of the nine resolution tokens occurs. |
| Classifier.SourceRulesFire | src/hooks/use-almas-data.ts:217-240 | Each rule of the source cascade fires exactly when its tokens occur: bluray, brrip, webrip, web-dl\|webdl, hdrip, dvdrip, cam. |
| Classifier.SourceUnknownIff | src/hooks/use-almas-data.ts:217-240 | The source is Unknown/نامشخص exactly when none of the eight source tokens occurs. |
| Classifier.AudioChannelRulesFire | src/hooks/use-almas-data.ts:136-159 | The four channel rules of `detectAudio` fire exactly on 5.1\|5ch, 7.1\|7ch, 6ch\|aac6.0 and 2.0\|2ch. The aac5.1, aac7.1 and aac2.0 tests add nothing. |
| Classifier.AudioCodecRulesFire | src/hooks/use-almas-data.ts:160-165 | The codec rules fire exactly on stereo, aac, dts, truehd and atmos. |
| Classifier.AudioUnknownIff | src/hooks/use-almas-data.ts:134-167 | `detectAudio` gives Unknown/نامشخص exactly when none of its thirteen distinct tokens occurs. |
| Classifier.FlagsAreSubstringTests | src/hooks/use-almas-data.ts:242-257 | Each of the four flags is its own substring test, independent of the others and of the tiers: bit10 (10bit), imax, x265 (x265\|hevc) and dubbed (dubbed, dual audio, dual-audio, farsi, persian). |
| Extractor.LinkAt | src/hooks/use-almas-data.ts:295-298 | `links[k] \|\| null` is a link exactly when position k exists and holds a non-empty href, and then it is that href. |
| Extractor.Enrich | src/hooks/use-almas-data.ts:261-267 | Enrichment keeps downloadLink, quality, size and subtitleLink. It sets info to the classification of the download link, or of "" when there is none. |
| Extractor.EnrichQualityWithInfo | src/hooks/use-almas-data.ts:261-267 | The same promise, with the scraper's classifier: the info of a linked record is `detectMovieOrTVShowInfo(link)`, and of an unlinked one `detectMovieOrTVShowInfo("")`. |
| Extractor.EnrichIdempotent | src/hooks/use-almas-data.ts:261-267 | Enriching an enriched record changes nothing. |
| Extractor.EnrichDependsOnlyOnLink | src/hooks/use-almas-data.ts:261-267 | Two records with the same download link get the same info. |
| Extractor.BuildEntry | src/hooks/use-almas-data.ts:281-300 | A built record keeps the two links it is given. Its quality is never empty, its size is never the empty string, and its info is the classification of its download link. |
| Extractor.BuildEntryEnriched | src/hooks/use-almas-data.ts:293-300 | With the scraper's classifier, a built record is a fixed point of `enrichQualityWithInfo`. |
| Extractor.BuildEntryLabel | src/hooks/use-almas-data.ts:281 | The caption is cut at `/\s\/\s/`. Quality is the trimmed text before the first separator, or 'unknown' when that is blank. Size is the trimmed text between the first and second separators, or null. Anything after the second separator is dropped. |
| Extractor.BuildEntryOfLabel | src/hooks/use-almas-data.ts:281 | A caption `quality + " / " + size`, with trimmed, slash-free, non-empty parts, gives back exactly that quality and size. |
| Extractor.Hrefs | src/hooks/use-almas-data.ts:290 | One href (or "") per anchor. |
| Extractor.CollectDomLinks | src/hooks/use-almas-data.ts:282-291 | The inner loop collects the hrefs of the next sibling's anchors that carry either link phrase, in document order. It collects none when there is no next sibling. |
| Extractor.BuildDomEntry | src/hooks/use-almas-data.ts:279-300 | The loop body builds the DOM strategy's record for one heading. |
| Extractor.DomStrategy | src/hooks/use-almas-data.ts:278-301 | One record per quality heading, in document order, each built from that heading alone. |
| Extractor.CollectFallbackLinks | src/hooks/use-almas-data.ts:312-315 | The `linkRegex` loop collects every match's href, in order. |
| Extractor.BuildFallbackEntry | src/hooks/use-almas-data.ts:308-323 | The loop body builds the fallback's record for one match: tags stripped, then trimmed, then the shared build. |
| Extractor.FallbackStrategy | src/hooks/use-almas-data.ts:302-325 | One record per `qualityRegex` match, in order. |
| Extractor.ExtractMovie | src/hooks/use-almas-data.ts:269-328 | An empty fragment gives []. Otherwise there is one record per quality heading, in document order. Only when no heading passes the filter are the fallback's records returned, one per match, in order. |
| Extractor.ExampleIsQualityHeading | src/hooks/use-almas-data.ts:274-276 | The heading "1080p / 1.2GB" passes the quality filter. |
| Extractor.PhraseAnchorLinks | src/hooks/use-almas-data.ts:284-291 | Anchors carrying the download phrase and then the subtitle phrase give their two hrefs, in that order. |
| Extractor.ExampleLabel | src/hooks/use-almas-data.ts:281 | "1080p / 1.2GB" gives quality "1080p" and size "1.2GB". |
| Extractor.DomExample | src/hooks/use-almas-data.ts:279-300 | A heading "1080p / 1.2GB" whose next sibling holds the two phrase anchors gives one record: quality "1080p", size "1.2GB" and the two hrefs. |
| Extractor.StrategiesAgree | src/hooks/use-almas-data.ts:278-325 | The same block gives the same record whether the DOM strategy or the fallback finds it. |
| Extractor.LinksByPosition | src/hooks/use-almas-data.ts:290-298 | A lone subtitle anchor becomes the download link and leaves the subtitle link null: links are assigned by position, not by phrase. |
| Extractor.ContainerEnd | src/hooks/use-almas-data.ts:345-348 | The sibling walk stops at a season heading or at the end. |
| Extractor.ContainerOf | src/hooks/use-almas-data.ts:343-348 | The container is the longest prefix of the following siblings that holds no season heading, and it stops right before one when it does not reach the end. |
| Extractor.CollectContainer | src/hooks/use-almas-data.ts:343-348 | The sibling loop collects exactly that container. |
| Extractor.BuildButtonEntry | src/hooks/use-almas-data.ts:359-368 | The loop body builds the record for one button match: trimmed, then tags stripped, then the shared build. |
| Extractor.CollectButtons | src/hooks/use-almas-data.ts:356-369 | One record per `buttonRegex` match, in order. |
| Extractor.ExtractSeries | src/hooks/use-almas-data.ts:330-375 | An empty fragment gives []. Otherwise there is one season per season heading, in document order, even when it has no buttons. Each season is numbered from its heading and holds one record per button match in the markup of the siblings up to the next season heading. |
| Extractor.DigitAfterSpacesHasDigit | src/hooks/use-almas-data.ts:336 | Where `\s*\d` matches, the text holds a digit. |
| Extractor.SeasonMarkHasDigit | src/hooks/use-almas-data.ts:336 | A text that the season filter `/دانلود فصل\s*\d+/` accepts holds a digit. |
| Extractor.SeasonNumberFromDigits | src/hooks/use-almas-data.ts:341-342 | For a kept heading, `match(/(\d+)/)` always succeeds, so the `index + 1` fallback is never used. The season number is the value of the text's first digit run. |
| Extractor.SeasonHeadingNumber | src/hooks/use-almas-data.ts:335-342 | "دانلود فصل N" is kept, and its season is N whatever its position. |
| JsonInfo.FindFrom | src/hooks/use-almas-data.ts:381-390 | The search returns only a JSON link (alternate, application/json, json, ignoring case). |
| JsonInfo.FindFromSpec | src/hooks/use-almas-data.ts:381-390 | `find` returns the first JSON link, and nothing exactly when there is none. |
| JsonInfo.IdMatchFrom | src/hooks/use-almas-data.ts:394 | A match is a '/', a non-empty digit run, then '/', '?', '#' or the end. |
| JsonInfo.IdMatchFromSpec | src/hooks/use-almas-data.ts:394 | The leftmost such match is found, and none is found exactly when there is none. |
| JsonInfo.IdOf | src/hooks/use-almas-data.ts:394-396 | The id is a non-empty run of ASCII digits. |
| JsonInfo.IdIsWholeRun | src/hooks/use-almas-data.ts:394-396 | The id is the whole digit run after the '/': the next character is not a digit. |
| JsonInfo.ParseJsonInfoFromHtml | src/hooks/use-almas-data.ts:377-402 | Empty html gives null. Any id returned is a non-empty string of digits. |
| JsonInfo.NoJsonLink | src/hooks/use-almas-data.ts:381-392 | Without a JSON link the result is null. |
| JsonInfo.NoIdInHref | src/hooks/use-almas-data.ts:393-395 | When the first JSON link's href has no id match, the result is null. |
| JsonInfo.InfoOfFirstJsonLink | src/hooks/use-almas-data.ts:393-398 | Otherwise the info comes from the first JSON link. Its id is the leftmost match's digit run, and its type is 'tvshow' exactly when the href contains "/series/". |
| JsonInfo.MovieHref | src/hooks/use-almas-data.ts:393-398 | The href "/movie/<digits>/" gives that id, typed 'movie'. |
| ConfirmDialog.Spread | src/components/ui/confirm-dialog.tsx:305 | `{ ...a, ...b }` has the keys of both, with b's value wherever b has the key (also an undefined one), and a's elsewhere. |
| ConfirmDialog.ConfirmConfigPrecedence | src/components/ui/confirm-dialog.tsx:278-284 | For each key, the options `confirm` installs take the call's value, else the provider default, else the base default. |
| ConfirmDialog.DefaultButtonTexts | src/components/ui/confirm-dialog.tsx:90-102 | Without overrides, the buttons read "Confirm" and "Cancel". |
| ConfirmDialog.EffectiveIsLoading | src/components/ui/confirm-dialog.tsx:262-265 | Effective loading is the options' `isLoading` when that is defined, and the internal flag otherwise. |
| ConfirmDialog.ExternalLoadingPrecedence | src/components/ui/confirm-dialog.tsx:262-265 | With external loading, the internal flag does not matter. Without it, effective loading follows the internal flag exactly. |
| ConfirmDialog.ShouldClose | src/components/ui/confirm-dialog.tsx:334-349 | Without `onConfirm` the answer is close. Otherwise a returned boolean decides and any other returned value closes. A resolved promise decides by its value's truthiness, and a throw or a rejection is the error path. |
| ConfirmDialog.VoidPromiseKeepsOpen | src/components/ui/confirm-dialog.tsx:340-348 | A promise that resolves to undefined does not close the dialog. A synchronous void return does. |
| ConfirmDialog.TryOnConfirm | src/components/ui/confirm-dialog.tsx:333-349 | The `try` block's `shouldClose` starts true and is overridden as `ShouldClose` says. The catch path is taken exactly on its error case. |
| ConfirmDialog.ActionsKindOf | src/components/ui/confirm-dialog.tsx:137-171 | Custom actions are rendered by the legacy two-argument call exactly when they are a function declaring two parameters (`isLegacyCustomActions`). Without custom actions the default buttons are rendered, and otherwise the props-object call. |
| ConfirmDialog.ConfirmDialogProvider.constructor | src/components/ui/confirm-dialog.tsx:250-259 | The provider starts closed, not loading, with no resolver and the base default options. |
| ConfirmDialog.ConfirmDialogProvider.Confirm | src/components/ui/confirm-dialog.tsx:303-319 | The dialog opens, not loading, with the layered options and a new pending promise. A still-pending earlier promise is dropped without being settled. |
| ConfirmDialog.ConfirmDialogProvider.UpdateConfig | src/components/ui/confirm-dialog.tsx:286-301 | An object is shallow-merged over the options, and a function replaces them by its result. Open, loading and resolver do not change. |
| ConfirmDialog.ConfirmDialogProvider.Settle | src/components/ui/confirm-dialog.tsx:396-404 | The pending promise, if any, is settled once with the given value, and the resolver is cleared. |
| ConfirmDialog.ConfirmDialogProvider.StartLoading | src/components/ui/confirm-dialog.tsx:322-331 | The internal flag is set when the options leave `isLoading` undefined. Otherwise `setIsLoading(true)` is called when it is given. |
| ConfirmDialog.ConfirmDialogProvider.StopLoading | src/components/ui/confirm-dialog.tsx:366-375 | The internal flag is cleared when the options leave `isLoading` undefined. Otherwise `setIsLoading(false)` is called when it is given. |
| ConfirmDialog.ConfirmDialogProvider.CloseConfirmed | src/components/ui/confirm-dialog.tsx:351-367 | The pending promise settles with true, and the dialog closes, not loading, with no resolver. `setIsLoading(false)` is called when it is given. |
| ConfirmDialog.ConfirmDialogProvider.HandleConfirm | src/components/ui/confirm-dialog.tsx:321-390 | Loading is turned on. On close, the promise settles with true and the dialog closes, not loading. On "do not close" or on an error, the dialog stays open with its promise pending and loading is turned off. The calls of `setIsLoading` are logged in order. |
| ConfirmDialog.ConfirmDialogProvider.HandleCancel | src/components/ui/confirm-dialog.tsx:392-406 | Nothing happens while effectively loading. Otherwise the pending promise settles with false and the dialog closes. |
| ConfirmDialog.ConfirmDialogProvider.HandleOpenChange | src/components/ui/confirm-dialog.tsx:408-416 | Only a request to close, made while not loading, cancels. A request to open is ignored. |
| ConfirmDialog.ConfirmThenCancel | src/components/ui/confirm-dialog.tsx:392-406 | A promise from `confirm`, cancelled while not loading, settles with false. |
| ConfirmDialog.ConfirmThenAccept | src/components/ui/confirm-dialog.tsx:321-362 | Confirming without `onConfirm` closes the dialog and settles the promise with true. |
| ConfirmDialog.ConfirmTwice | src/components/ui/confirm-dialog.tsx:303-319 | After a second `confirm`, the first promise can never be settled. |
| SwitchCase.Switch | src/components/utilities/switch-case.tsx:20-43 | The loop returns the first matching `Case`, else the last `Default`, else nothing (`Selected`). |
| SwitchCase.FirstCaseSpec | src/components/utilities/switch-case.tsx:25-35 | The case chosen is the lowest-indexed child that matches, and there is none exactly when no child matches. |
| SwitchCase.LastDefaultSpec | src/components/utilities/switch-case.tsx:37-42 | The default chosen is the highest-indexed `Default`, and there is none exactly when there is no `Default`. |
| SwitchCase.FirstMatchingCaseWins | src/components/utilities/switch-case.tsx:33-35 | The first matching `Case` is rendered, even after a `Default`. |
| SwitchCase.LastDefaultWhenNoMatch | src/components/utilities/switch-case.tsx:37-42 | With no matching `Case`, the last `Default` is rendered. |
| SwitchCase.NothingIff | src/components/utilities/switch-case.tsx:23-42 | Nothing is rendered exactly when no `Case` matches and there is no `Default`. |
| SwitchCase.NonElementsIgnored | src/components/utilities/switch-case.tsx:26 | Removing the non-element children does not change the result. |
| SwitchCase.FirstCaseFiltered | src/components/utilities/switch-case.tsx:26 | Non-elements do not change the first matching case. |
| SwitchCase.LastDefaultFiltered | src/components/utilities/switch-case.tsx:26 | Non-elements do not change the last default. |
| SwitchCase.NoCoercion | src/components/utilities/switch-case.tsx:33 | `===` does not coerce: 1 never equals "1", true never equals "true", and NaN never equals NaN. |
| ImageService.BaseUrl | src/services/image-service.ts:30-37 | Sizes '500', '780' and '1280' select the w500, w780 and w1280 bases. Any other size, or none, selects the original base. |
| ImageService.ImageFor | src/services/image-service.ts:9-42 | A placeholder is returned exactly when the path is null, undefined, "" or []. Then it is the cover exactly for type 'cover'. Every URL starts with the base for the size. |
| ImageService.PathUrl | src/services/image-service.ts:41 | A non-empty path gives base + path, and what follows the base is exactly the path. |
| ImageService.SegmentsUrl | src/services/image-service.ts:39-40 | A non-empty list gives base + the list joined with "/". |
| ImageService.SingleSegment | src/services/image-service.ts:39-41 | A one-element list gives the same URL as that element given as a string. |
| ImageService.TwoSegments | src/services/image-service.ts:40 | Two segments are joined by one "/". |
| ImageService.TypeIrrelevantWithPath | src/services/image-service.ts:30-41 | With a path, the type option does not change the result. |
| ImageService.PlaceholderChoice | src/services/image-service.ts:16-28 | Without a path, the size option does not matter, and only 'cover' selects the cover. |
| TvShowDownload.BuildSeasonLinks | src/pages/tv-show/components/tv-show-download-section.tsx:28-89 | With no IMDb id or no season, the result is the failure record with its fixed message. Otherwise it carries the id and seasons 1..n in order, each with qualities 1..4 in order, each link `…?i=<id>&f=<season>&q=<quality>`. |
| TvShowDownload.QualityUrlInjective | src/pages/tv-show/components/tv-show-download-section.tsx:76 | A link determines its season and quality. |
| TvShowDownload.LinksDistinct | src/pages/tv-show/components/tv-show-download-section.tsx:68-85 | All links of one result are distinct. |
| FilmDownload.ImdbShortOfPrefixedId | src/pages/movie/components/film-download-section.tsx:18 | "tt" + rest gives rest: only the leading "tt" goes, even when another follows. |
| FilmDownload.ImdbShortWithoutTt | src/pages/movie/components/film-download-section.tsx:18 | An id without "tt" is kept as it is. |
| FilmDownload.ImdbShortRemovesFirst | src/pages/movie/components/film-download-section.tsx:18 | Exactly the first occurrence of "tt" is removed. |
| FilmDownload.ReleaseYearSpec | src/pages/movie/components/film-download-section.tsx:20 | The release year is the first four characters, or the whole date when it is shorter. |
| FilmDownload.BuildLinks | src/pages/movie/components/film-download-section.tsx:29-48 | There are exactly three download links, one per server. |
| FilmDownload.DownloadLinksSpec | src/pages/movie/components/film-download-section.tsx:31-40 | Link k is server k (berlin, tokyo, nairobi) + "/Movies/" + year + "/" + short id. |
| FilmDownload.DownloadLinkDecodes | src/pages/movie/components/film-download-section.tsx:36-40 | For a four-character year, the year and the short id can be read back from a download link at fixed offsets. |
| FilmDownload.SubtitleLinkDecodes | src/pages/movie/components/film-download-section.tsx:30 | The subtitle link holds the unshortened id and then the encoded title. |
| FilmDownload.FilmLinksUseTitle | src/pages/movie/components/film-download-section.tsx:17-30 | The subtitle link encodes the title, or "" when there is none. |
| FilmDownload.FilmDownloadLink | src/pages/movie/components/film-download-section.tsx:17-40 | For id "tt" + digits and a date starting with a year, link k is server k + "/Movies/" + year + "/" + digits. |
| FilmDownload.LabelAt | src/pages/movie/components/film-download-section.tsx:66 | Link 0 is labelled the main server, and link i > 0 auxiliary server i. |
| FilmDownload.VariantAt | src/pages/movie/components/film-download-section.tsx:61 | Only link 0 gets the default variant. The others get the destructive one. |
| Text.TrimIdempotent | src/hooks/use-almas-data.ts:280-281 | Trimming a trimmed caption changes nothing. |
| Text.SplitOnSlashOfJoin | src/hooks/use-almas-data.ts:281 | Splitting parts joined by " / " gives the parts back, when no part contains a slash. |
| Text.StripTagsPlainText | src/hooks/use-almas-data.ts:309 | Removing tags leaves text without '<' unchanged. |
| Text.NatToStringInjective | src/pages/tv-show/components/tv-show-download-section.tsx:76 | Distinct numbers are written as distinct decimal strings. |

## Left out

- **The `useAlmasMovieData` hook body** (`use-almas-data.ts:26-132`) is left out: fetching through the CORS proxy, aborts, timeouts, React state and the liveness reference are I/O and cancellation.
- **Browser parsing and regular-expression matching** are inputs, as described above. The model does not check that a given HTML string parses to those lists, or that the expressions' lazy quantifiers find those matches. `DOMParser`, `querySelectorAll`, `nextElementSibling`, `outerHTML` and `regex.exec` belong to the browser.
- **The `try`/`catch` around `DOMParser`** in `parseJsonInfoFromHtml` is left out. Its catch path is unreachable once parsing is an input.
- **Extractor.SeasonNumber: `Number(match[1])`** is modelled as the exact value of the digit run. JavaScript's conversion to a double loses precision above 2^53.
- **Text.ToLower** lower-cases ASCII letters only. `toLowerCase` is full Unicode. Every token the code compares against is ASCII or Persian, but this can still change a classification. A non-ASCII upper-case letter in a filename is lower-cased by JavaScript and kept by the model. Some of them lower-case to ASCII letters: the Kelvin sign U+212A becomes 'k', so "4" followed by U+212A is 4K for the code and Unknown for the model.
- **JsonInfo.IsJsonLink** reads a missing attribute as "", as the code does. An attribute's presence or absence is part of the input.
- **The `useEffect` that mirrors the internal loading flag into `setIsLoading`** (`confirm-dialog.tsx:267-276`) is left out. It runs after rendering, so it is a React effect; only the `setIsLoading` calls made by `handleConfirm` are logged.
- **ConfirmDialog.ConfirmDialogProvider.HandleConfirm** takes the outcome of `onConfirm` as a parameter and runs as one step. A `confirm`, `updateConfig` or cancel arriving while the promise is awaited is not interleaved. The `console.error` on the error path is left out.
- **Rendering:**
  - `ConfirmDialogContent` beyond the choice of actions, `ConfirmDialog` and `useConfirm` are presentation.
  - The JSX of both download sections is presentation.
  - The `moviePath` memo of the series section calls `slugify`, which is not part of this model.
- **SwitchCase.Switch** returns `None` where the component returns an empty fragment. Both render nothing.
- **`encodeURIComponent`** is a parameter `encode` of `FilmDownload.GenerationData`.
- **A null or undefined IMDb id** is the empty string in `TvShowDownload.BuildSeasonLinks`: `!imdb_id` treats all three alike. The `console.warn` on the failure path is left out.
- **The images behind the `cover` and `poster` placeholders** are the values `CoverPlaceholder` and `PosterPlaceholder`.
