/**
 * The release-filename classifier of `use-almas-data.ts`: `detectAudio`,
 * `detectEncoder` and `detectMovieOrTVShowInfo`.
 *
 * Each tier group (resolution, source, audio) is an ordered table of rules;
 * a rule fires when one of its tokens occurs in the lower-cased filename, and
 * the first rule that fires gives the bilingual label. The tables list the
 * tokens and labels of the source's `if` / `else if` chains in their order.
 */
module Classifier {
  import opened Wrappers
  import opened Text

  /** A bilingual label, `{ en, fa }`. */
  datatype Tier = Tier(en: string, fa: string)

  const Unknown: Tier := Tier("Unknown", "نامشخص")

  /** One branch of a cascade: the tokens tested with `includes`, and the label it gives. */
  datatype Rule = Rule(tokens: seq<string>, tier: Tier)

  const ResolutionRules: seq<Rule> := [
    Rule(["2160p", "4k"], Tier("4K", "۴کی")),
    Rule(["1440p", "2k"], Tier("2K", "۲کی")),
    Rule(["1080p"], Tier("1080p", "۱۰۸۰p")),
    Rule(["720p"], Tier("720p", "۷۲۰p")),
    Rule(["480p"], Tier("480p", "۴۸۰p")),
    Rule(["360p"], Tier("360p", "۳۶۰p")),
    Rule(["240p"], Tier("240p", "۲۴۰p"))
  ]

  const SourceRules: seq<Rule> := [
    Rule(["bluray"], Tier("BluRay", "بلوری")),
    Rule(["brrip"], Tier("BRRip", "بی\U{200C}ریپ")),
    Rule(["webrip"], Tier("WEBRip", "وب\U{200C}ریپ")),
    Rule(["web-dl", "webdl"], Tier("WEB-DL", "وب-دی\U{200C}ال")),
    Rule(["hdrip"], Tier("HDRip", "اچ\U{200C}دی\U{200C}ریپ")),
    Rule(["dvdrip"], Tier("DVDRip", "دی\U{200C}وی\U{200C}دی\U{200C}ریپ")),
    Rule(["cam"], Tier("CAM", "کَم (دوربینی)"))
  ]

  /** The `detectAudio` chain; its third test lists '6ch' twice, as the source does. */
  const AudioRules: seq<Rule> := [
    Rule(["5.1", "aac5.1", "5ch"], Tier("5.1 Channels", "۵.۱ کانال")),
    Rule(["7.1", "aac7.1", "7ch"], Tier("7.1 Channels", "۷.۱ کانال")),
    Rule(["6ch", "aac6.0", "6ch"], Tier("6 Channels", "۶ کانال")),
    Rule(["2.0", "aac2.0", "2ch"], Tier("2 Channels", "۲ کانال")),
    Rule(["stereo"], Tier("Stereo", "استریو")),
    Rule(["aac"], Tier("AAC Audio", "صدای AAC")),
    Rule(["dts"], Tier("DTS Audio", "صدای DTS")),
    Rule(["truehd"], Tier("Dolby TrueHD", "دالبی TrueHD")),
    Rule(["atmos"], Tier("Dolby Atmos", "دالبی اتموس"))
  ]

  /** The encoder allow-list of `detectEncoder`, in its order. */
  const KnownEncoders: seq<string> :=
    ["ganool", "pahe", "tigole", "yify", "rarbg", "ettv", "shaanig", "anoXmous", "juggs", "nimitmak"]

  const UnknownEncoder: string := "نامشخص"

  // The cascades below walk their table by index. `lower` is named in each
  // `decreases` clause so that a cascade over one of the constant tables is
  // unfolded step by step, as a proof needs it, rather than all at once.

  /** Some token of `tokens[i..]` occurs in `lower` (an `a || b || c` of `includes` tests). */
  predicate AnyContainedFrom(lower: string, tokens: seq<string>, i: nat)
    decreases |lower|, |tokens| - i
  {
    i < |tokens| && (Contains(lower, tokens[i]) || AnyContainedFrom(lower, tokens, i + 1))
  }

  predicate AnyContained(lower: string, tokens: seq<string>) {
    AnyContainedFrom(lower, tokens, 0)
  }

  lemma {:induction false} AnyContainedFromIff(lower: string, tokens: seq<string>, i: nat)
    ensures AnyContainedFrom(lower, tokens, i) <==> exists k :: i <= k < |tokens| && Contains(lower, tokens[k])
    decreases |tokens| - i
  {
    if i < |tokens| {
      AnyContainedFromIff(lower, tokens, i + 1);
    }
  }

  /** The disjunction of `includes` tests holds exactly when one of the tokens occurs. */
  lemma AnyContainedIff(lower: string, tokens: seq<string>)
    ensures AnyContained(lower, tokens) <==> exists k :: 0 <= k < |tokens| && Contains(lower, tokens[k])
  {
    AnyContainedFromIff(lower, tokens, 0);
  }

  predicate Fires(rule: Rule, lower: string) {
    AnyContained(lower, rule.tokens)
  }

  /** A rule with tokens `[a]`, `[a, b]` or `[a, b, c]` fires exactly when one of them occurs. */
  lemma FiresIff(rule: Rule, lower: string)
    requires 1 <= |rule.tokens| <= 3
    ensures |rule.tokens| == 1 ==> (Fires(rule, lower) <==> Contains(lower, rule.tokens[0]))
    ensures |rule.tokens| == 2 ==>
      (Fires(rule, lower) <==> Contains(lower, rule.tokens[0]) || Contains(lower, rule.tokens[1]))
    ensures |rule.tokens| == 3 ==>
      (Fires(rule, lower) <==> Contains(lower, rule.tokens[0]) || Contains(lower, rule.tokens[1])
                               || Contains(lower, rule.tokens[2]))
  {
    var t := rule.tokens;
    assert AnyContainedFrom(lower, t, 0) <==> Contains(lower, t[0]) || AnyContainedFrom(lower, t, 1);
    assert AnyContainedFrom(lower, t, 1) <==> |t| > 1 && (Contains(lower, t[1]) || AnyContainedFrom(lower, t, 2));
    assert AnyContainedFrom(lower, t, 2) <==> |t| > 2 && (Contains(lower, t[2]) || AnyContainedFrom(lower, t, 3));
    assert !AnyContainedFrom(lower, t, 3) by {
      assert |t| <= 3;
    }
  }

  /** The label of the first rule of `rules[i..]` that fires, or `Unknown` when none does. */
  function FirstMatchFrom(rules: seq<Rule>, lower: string, i: nat): Tier
    decreases |lower|, |rules| - i
  {
    if i >= |rules| then Unknown
    else if Fires(rules[i], lower) then rules[i].tier
    else FirstMatchFrom(rules, lower, i + 1)
  }

  /** The label of the first rule that fires, or `Unknown` when none does. */
  function FirstMatch(rules: seq<Rule>, lower: string): Tier {
    FirstMatchFrom(rules, lower, 0)
  }

  lemma {:induction false} FirstMatchFromAt(rules: seq<Rule>, lower: string, start: nat, i: nat)
    requires start <= i < |rules| && Fires(rules[i], lower)
    requires forall j :: start <= j < i ==> !Fires(rules[j], lower)
    ensures FirstMatchFrom(rules, lower, start) == rules[i].tier
    decreases i - start
  {
    if start < i {
      FirstMatchFromAt(rules, lower, start + 1, i);
    }
  }

  /** When rule `i` is the first to fire, the cascade gives its label. */
  lemma FirstMatchAt(rules: seq<Rule>, lower: string, i: nat)
    requires i < |rules| && Fires(rules[i], lower)
    requires forall j :: 0 <= j < i ==> !Fires(rules[j], lower)
    ensures FirstMatch(rules, lower) == rules[i].tier
  {
    FirstMatchFromAt(rules, lower, 0, i);
  }

  lemma {:induction false} FirstMatchFromUnknownIff(rules: seq<Rule>, lower: string, i: nat)
    requires forall j :: 0 <= j < |rules| ==> rules[j].tier != Unknown
    ensures FirstMatchFrom(rules, lower, i) == Unknown <==> forall j :: i <= j < |rules| ==> !Fires(rules[j], lower)
    decreases |rules| - i
  {
    if i < |rules| {
      FirstMatchFromUnknownIff(rules, lower, i + 1);
    }
  }

  /**
   * For a table whose labels are all known ones, the cascade gives `Unknown`
   * exactly when no rule fires.
   */
  lemma FirstMatchUnknownIff(rules: seq<Rule>, lower: string)
    requires forall j :: 0 <= j < |rules| ==> rules[j].tier != Unknown
    ensures FirstMatch(rules, lower) == Unknown <==> forall j :: 0 <= j < |rules| ==> !Fires(rules[j], lower)
  {
    FirstMatchFromUnknownIff(rules, lower, 0);
  }

  /** The first entry of `encoders[i..]` that occurs in `lower`, or `UnknownEncoder`. */
  function FirstEncoderFrom(encoders: seq<string>, lower: string, i: nat): string
    decreases |lower|, |encoders| - i
  {
    if i >= |encoders| then UnknownEncoder
    else if Contains(lower, encoders[i]) then encoders[i]
    else FirstEncoderFrom(encoders, lower, i + 1)
  }

  /** The first allow-list entry that occurs in `lower`, or `UnknownEncoder`. */
  function FirstEncoder(encoders: seq<string>, lower: string): string {
    FirstEncoderFrom(encoders, lower, 0)
  }

  /** Entry `j` is the first entry of `encoders[start..]` that occurs in `lower`. */
  predicate FirstOccurring(encoders: seq<string>, lower: string, start: nat, j: nat) {
    start <= j < |encoders| && Contains(lower, encoders[j])
    && forall k :: start <= k < j ==> !Contains(lower, encoders[k])
  }

  lemma {:induction false} FirstEncoderFromSpec(encoders: seq<string>, lower: string, start: nat)
    requires UnknownEncoder !in encoders
    ensures var e := FirstEncoderFrom(encoders, lower, start);
      && (e == UnknownEncoder <==> forall j :: start <= j < |encoders| ==> !Contains(lower, encoders[j]))
      && (e != UnknownEncoder ==> exists j: nat :: FirstOccurring(encoders, lower, start, j) && e == encoders[j])
    decreases |encoders| - start
  {
    if start < |encoders| {
      FirstEncoderFromSpec(encoders, lower, start + 1);
      var e := FirstEncoderFrom(encoders, lower, start);
      if Contains(lower, encoders[start]) {
        assert FirstOccurring(encoders, lower, start, start);
      } else if e != UnknownEncoder {
        var j: nat :| FirstOccurring(encoders, lower, start + 1, j) && e == encoders[j];
        assert FirstOccurring(encoders, lower, start, j);
      }
    }
  }

  /**
   * The encoder found is `UnknownEncoder` exactly when no entry occurs in the
   * name; otherwise it is entry `j` for the first `j` whose entry occurs.
   */
  lemma FirstEncoderSpec(encoders: seq<string>, lower: string)
    requires UnknownEncoder !in encoders
    ensures var e := FirstEncoder(encoders, lower);
      && (e == UnknownEncoder <==> forall j :: 0 <= j < |encoders| ==> !Contains(lower, encoders[j]))
      && (e != UnknownEncoder ==> exists j: nat :: FirstOccurring(encoders, lower, 0, j) && e == encoders[j])
  {
    FirstEncoderFromSpec(encoders, lower, 0);
  }

  /** The result of `detectMovieOrTVShowInfo`. */
  datatype Info = Info(
    audio: Tier,
    bit10: bool,
    dubbed: bool,
    encoder: string,
    imax: bool,
    quality: Tier,
    source: Tier,
    x265: bool)

  function Resolution(filename: string): Tier {
    FirstMatch(ResolutionRules, ToLower(filename))
  }

  function Source(filename: string): Tier {
    FirstMatch(SourceRules, ToLower(filename))
  }

  /** `detectAudio(filename)`. */
  function DetectAudio(filename: string): Tier {
    FirstMatch(AudioRules, ToLower(filename))
  }

  /** What `detectEncoder(filename)` returns. */
  function EncoderOf(filename: string): string {
    FirstEncoder(KnownEncoders, ToLower(filename))
  }

  /**
   * `detectEncoder`: a loop over the allow-list that returns the first entry
   * the lower-cased name contains, or 'نامشخص' when it contains none.
   */
  method DetectEncoder(filename: string) returns (enc: string)
    ensures enc == EncoderOf(filename)
    ensures enc == UnknownEncoder <==>
      forall j :: 0 <= j < |KnownEncoders| ==> !Contains(ToLower(filename), KnownEncoders[j])
    ensures enc != UnknownEncoder ==>
      exists j: nat :: FirstOccurring(KnownEncoders, ToLower(filename), 0, j) && enc == KnownEncoders[j]
  {
    var lower := ToLower(filename);
    var i := 0;
    while i < |KnownEncoders|
      invariant 0 <= i <= |KnownEncoders|
      invariant FirstEncoder(KnownEncoders, lower) == FirstEncoderFrom(KnownEncoders, lower, i)
      invariant forall k :: 0 <= k < i ==> !Contains(lower, KnownEncoders[k])
    {
      if Contains(lower, KnownEncoders[i]) {
        assert FirstOccurring(KnownEncoders, lower, 0, i);
        return KnownEncoders[i];
      }
      i := i + 1;
    }
    return UnknownEncoder;
  }

  predicate IsDubbed(lower: string) {
    Contains(lower, "dubbed") || Contains(lower, "dual audio") || Contains(lower, "dual-audio")
    || Contains(lower, "farsi") || Contains(lower, "persian")
  }

  /** `detectMovieOrTVShowInfo(filename)`. */
  function DetectMovieOrTVShowInfo(filename: string): Info {
    var lower := ToLower(filename);
    Info(
      audio := DetectAudio(filename),
      bit10 := Contains(lower, "10bit"),
      dubbed := IsDubbed(lower),
      encoder := EncoderOf(filename),
      imax := Contains(lower, "imax"),
      quality := Resolution(filename),
      source := Source(filename),
      x265 := Contains(lower, "x265") || Contains(lower, "hevc"))
  }

  // ---------------------------------------------------------------------------
  // Properties of the classifier
  // ---------------------------------------------------------------------------

  /**
   * Classification depends only on the lower-cased name: a name and its
   * lower-cased form (hence any two spellings differing in ASCII case) get the
   * same classification.
   */
  lemma ClassificationIgnoresCase(filename: string)
    ensures DetectMovieOrTVShowInfo(filename) == DetectMovieOrTVShowInfo(ToLower(filename))
  {
    ToLowerIdempotent(filename);
  }

  /** What makes each rule of the resolution table fire. */
  lemma ResolutionRulesFire(lower: string)
    ensures Fires(ResolutionRules[0], lower) <==> Contains(lower, "2160p") || Contains(lower, "4k")
    ensures Fires(ResolutionRules[1], lower) <==> Contains(lower, "1440p") || Contains(lower, "2k")
    ensures Fires(ResolutionRules[2], lower) <==> Contains(lower, "1080p")
    ensures Fires(ResolutionRules[3], lower) <==> Contains(lower, "720p")
    ensures Fires(ResolutionRules[4], lower) <==> Contains(lower, "480p")
    ensures Fires(ResolutionRules[5], lower) <==> Contains(lower, "360p")
    ensures Fires(ResolutionRules[6], lower) <==> Contains(lower, "240p")
  {
    forall j | 0 <= j < |ResolutionRules| {
      FiresIff(ResolutionRules[j], lower);
    }
  }

  /** "2160p" or "4k" anywhere makes the name 4K, whatever else it contains (even "1080p"). */
  lemma FourKWins(filename: string)
    requires Contains(ToLower(filename), "2160p") || Contains(ToLower(filename), "4k")
    ensures DetectMovieOrTVShowInfo(filename).quality == Tier("4K", "۴کی")
  {
    ResolutionRulesFire(ToLower(filename));
    FirstMatchAt(ResolutionRules, ToLower(filename), 0);
  }

  /** "1080p" gives the 1080p tier exactly when none of the higher tiers' tokens occurs. */
  lemma TenEightyTier(filename: string)
    requires Contains(ToLower(filename), "1080p")
    ensures var lower := ToLower(filename);
      DetectMovieOrTVShowInfo(filename).quality == Tier("1080p", "۱۰۸۰p")
      <==> !Contains(lower, "2160p") && !Contains(lower, "4k")
           && !Contains(lower, "1440p") && !Contains(lower, "2k")
  {
    var lower := ToLower(filename);
    ResolutionRulesFire(lower);
    if Fires(ResolutionRules[0], lower) {
      FirstMatchAt(ResolutionRules, lower, 0);
    } else if Fires(ResolutionRules[1], lower) {
      FirstMatchAt(ResolutionRules, lower, 1);
    } else {
      FirstMatchAt(ResolutionRules, lower, 2);
    }
  }

  /**
   * The resolution tier is `Unknown` exactly when none of the tokens 2160p, 4k,
   * 1440p, 2k, 1080p, 720p, 480p, 360p, 240p occurs.
   */
  lemma ResolutionUnknownIff(filename: string)
    ensures var lower := ToLower(filename);
      DetectMovieOrTVShowInfo(filename).quality == Unknown
      <==> !(Contains(lower, "2160p") || Contains(lower, "4k") || Contains(lower, "1440p")
             || Contains(lower, "2k") || Contains(lower, "1080p") || Contains(lower, "720p")
             || Contains(lower, "480p") || Contains(lower, "360p") || Contains(lower, "240p"))
  {
    var lower := ToLower(filename);
    FirstMatchUnknownIff(ResolutionRules, lower);
    ResolutionRulesFire(lower);
  }

  /** What makes each rule of the source table fire. */
  lemma SourceRulesFire(lower: string)
    ensures Fires(SourceRules[0], lower) <==> Contains(lower, "bluray")
    ensures Fires(SourceRules[1], lower) <==> Contains(lower, "brrip")
    ensures Fires(SourceRules[2], lower) <==> Contains(lower, "webrip")
    ensures Fires(SourceRules[3], lower) <==> Contains(lower, "web-dl") || Contains(lower, "webdl")
    ensures Fires(SourceRules[4], lower) <==> Contains(lower, "hdrip")
    ensures Fires(SourceRules[5], lower) <==> Contains(lower, "dvdrip")
    ensures Fires(SourceRules[6], lower) <==> Contains(lower, "cam")
  {
    forall j | 0 <= j < |SourceRules| {
      FiresIff(SourceRules[j], lower);
    }
  }

  /**
   * The source tier is `Unknown` exactly when none of bluray, brrip, webrip,
   * web-dl, webdl, hdrip, dvdrip, cam occurs.
   */
  lemma SourceUnknownIff(filename: string)
    ensures var lower := ToLower(filename);
      DetectMovieOrTVShowInfo(filename).source == Unknown
      <==> !(Contains(lower, "bluray") || Contains(lower, "brrip") || Contains(lower, "webrip")
             || Contains(lower, "web-dl") || Contains(lower, "webdl") || Contains(lower, "hdrip")
             || Contains(lower, "dvdrip") || Contains(lower, "cam"))
  {
    var lower := ToLower(filename);
    FirstMatchUnknownIff(SourceRules, lower);
    SourceRulesFire(lower);
  }

  /**
   * The audio label is `Unknown` exactly when none of 5.1, 5ch, 7.1, 7ch, 6ch,
   * aac6.0, 2.0, 2ch, stereo, aac, dts, truehd, atmos occurs (aac5.1, aac7.1
   * and aac2.0 contain 5.1, 7.1 and 2.0, so they add nothing to the list).
   */
  lemma AudioUnknownIff(filename: string)
    ensures var lower := ToLower(filename);
      DetectMovieOrTVShowInfo(filename).audio == Unknown
      <==> !(Contains(lower, "5.1") || Contains(lower, "5ch") || Contains(lower, "7.1")
             || Contains(lower, "7ch") || Contains(lower, "6ch") || Contains(lower, "aac6.0")
             || Contains(lower, "2.0") || Contains(lower, "2ch") || Contains(lower, "stereo")
             || Contains(lower, "aac") || Contains(lower, "dts") || Contains(lower, "truehd")
             || Contains(lower, "atmos"))
  {
    var lower := ToLower(filename);
    FirstMatchUnknownIff(AudioRules, lower);
    AudioChannelRulesFire(lower);
    AudioCodecRulesFire(lower);
  }

  /** What makes each channel rule of the audio table fire, with the redundant aac tokens dropped. */
  lemma AudioChannelRulesFire(lower: string)
    ensures Fires(AudioRules[0], lower) <==> Contains(lower, "5.1") || Contains(lower, "5ch")
    ensures Fires(AudioRules[1], lower) <==> Contains(lower, "7.1") || Contains(lower, "7ch")
    ensures Fires(AudioRules[2], lower) <==> Contains(lower, "6ch") || Contains(lower, "aac6.0")
    ensures Fires(AudioRules[3], lower) <==> Contains(lower, "2.0") || Contains(lower, "2ch")
  {
    FiresIff(AudioRules[0], lower);
    FiresIff(AudioRules[1], lower);
    FiresIff(AudioRules[2], lower);
    FiresIff(AudioRules[3], lower);
    if Contains(lower, "aac5.1") { ContainsTransitive(lower, "aac5.1", "5.1"); }
    if Contains(lower, "aac7.1") { ContainsTransitive(lower, "aac7.1", "7.1"); }
    if Contains(lower, "aac2.0") { ContainsTransitive(lower, "aac2.0", "2.0"); }
  }

  /** What makes each codec rule of the audio table fire: its one token. */
  lemma AudioCodecRulesFire(lower: string)
    ensures Fires(AudioRules[4], lower) <==> Contains(lower, "stereo")
    ensures Fires(AudioRules[5], lower) <==> Contains(lower, "aac")
    ensures Fires(AudioRules[6], lower) <==> Contains(lower, "dts")
    ensures Fires(AudioRules[7], lower) <==> Contains(lower, "truehd")
    ensures Fires(AudioRules[8], lower) <==> Contains(lower, "atmos")
  {
    FiresIff(AudioRules[4], lower);
    FiresIff(AudioRules[5], lower);
    FiresIff(AudioRules[6], lower);
    FiresIff(AudioRules[7], lower);
    FiresIff(AudioRules[8], lower);
  }

  /**
   * The four flags: each is its own substring test on the lower-cased name,
   * so none of them depends on another flag or on the tiers.
   */
  lemma FlagsAreSubstringTests(filename: string)
    ensures var info := DetectMovieOrTVShowInfo(filename);
      var lower := ToLower(filename);
      && (info.bit10 <==> Contains(lower, "10bit"))
      && (info.imax <==> Contains(lower, "imax"))
      && (info.x265 <==> Contains(lower, "x265") || Contains(lower, "hevc"))
      && (info.dubbed <==>
            (Contains(lower, "dubbed") || Contains(lower, "dual audio") || Contains(lower, "dual-audio")
             || Contains(lower, "farsi") || Contains(lower, "persian")))
  {
  }

  /**
   * The encoder is `UnknownEncoder` exactly when no allow-list entry occurs in
   * the lower-cased name; otherwise it is the first entry that occurs.
   */
  lemma EncoderSpec(filename: string)
    ensures var e := DetectMovieOrTVShowInfo(filename).encoder;
      var lower := ToLower(filename);
      && (e == UnknownEncoder <==> forall j :: 0 <= j < |KnownEncoders| ==> !Contains(lower, KnownEncoders[j]))
      && (e != UnknownEncoder ==> exists j: nat :: FirstOccurring(KnownEncoders, lower, 0, j) && e == KnownEncoders[j])
  {
    FirstEncoderSpec(KnownEncoders, ToLower(filename));
  }

  /**
   * The allow-list entry 'anoXmous' has an upper-case letter, so it never
   * occurs in a lower-cased name and is never the detected encoder.
   */
  lemma AnoXmousNeverDetected(filename: string)
    ensures DetectMovieOrTVShowInfo(filename).encoder != "anoXmous"
  {
    LowerNeverContainsUpper(filename, "anoXmous", 3);
    FirstEncoderSpec(KnownEncoders, ToLower(filename));
  }
}
