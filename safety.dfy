/**
 * The episode generator's safety scan: `collectOutputText` gathers every
 * free-text field of a generated episode into one corpus, and
 * `collectRatingIssues` checks it against the story's hard-forbidden topics
 * (at every rating) and the rating-tiered pattern lists.
 *
 * Each `/\bphrase\b/i` regex is a whole-word match of the lower-cased
 * phrase in the lower-cased text; alternations such as `self[- ]?harm` are
 * listed phrase by phrase. `/how to/i`, `/instructions/i` and the
 * `lowerText.includes(topic)` fallback have no word boundary and are plain
 * substring matches.
 */
module SafetyPolicy {
  import opened Wrappers
  import opened Text
  import opened StoryTypes

  // ---------------------------------------------------------------------
  // collectOutputText
  // ---------------------------------------------------------------------

  function ChoiceParts(choices: seq<Choice>): seq<string>
    ensures |ChoiceParts(choices)| == 3 * |choices|
  {
    if choices == [] then []
    else [choices[0].text, choices[0].intent, choices[0].leadsTo] + ChoiceParts(choices[1..])
  }

  /** The parts in the order they are pushed: title, text, each choice's text/intent/leads_to, each assumption. */
  function OutputParts(output: EpisodeOutput): seq<string> {
    [output.segment.title, output.segment.text] + ChoiceParts(output.choices) + output.assumptions
  }

  /** `parts.filter(Boolean)`. */
  function NonEmpty(parts: seq<string>): (r: seq<string>)
    ensures forall i :: 0 <= i < |r| ==> r[i] != ""
    ensures forall p :: p in r <==> p in parts && p != ""
  {
    if parts == [] then []
    else if parts[0] == "" then NonEmpty(parts[1..])
    else [parts[0]] + NonEmpty(parts[1..])
  }

  /** `collectOutputText`. */
  function CollectOutputText(output: EpisodeOutput): (text: string)
    ensures text == "" <==> forall p :: p in OutputParts(output) ==> p == ""
    ensures output.segment.title != "" ==> StartsWith(text, output.segment.title)
  {
    var parts := NonEmpty(OutputParts(output));
    assert parts != [] ==> parts[0] in parts && Join(parts, " ")[..|parts[0]|] == parts[0];
    Join(parts, " ")
  }

  /** A part framed by spaces keeps its whole-word matches once the whole text is lower-cased. */
  lemma FramedPartWord(pre: string, part: string, post: string, phrase: string)
    requires pre == [] || pre[|pre| - 1] == ' '
    requires post == [] || post[0] == ' '
    requires ContainsWord(Lower(part), phrase)
    ensures ContainsWord(Lower(pre + part + post), phrase)
  {
    var k := ContainsWordFromWitness(Lower(part), phrase, 0);
    LowerConcat(pre, part);
    LowerConcat(pre + part, post);
    LowerAt(pre);
    LowerAt(post);
    WordAtFramed(Lower(pre), Lower(part), Lower(post), phrase, k);
    ContainsWordAt(Lower(pre + part + post), phrase, |pre| + k);
  }

  /** A whole-word match inside one joined part is a whole-word match in the lower-cased join. */
  lemma PartWordInJoin(parts: seq<string>, j: nat, phrase: string)
    requires j < |parts|
    requires ContainsWord(Lower(parts[j]), phrase)
    ensures ContainsWord(Lower(Join(parts, " ")), phrase)
  {
    var pre, post := JoinPlacesPart(parts, " ", j);
    assert pre != [] ==> pre[|pre| - 1] == ' ' by {
      if pre != [] { assert pre[|pre| - 1..] == " "; }
    }
    assert post != [] ==> post[0] == ' ' by {
      if post != [] { assert post[..1] == " "; }
    }
    FramedPartWord(pre, parts[j], post, phrase);
  }

  /**
   * No field hides a phrase from the scan: a whole-word match inside any
   * field of the episode is a whole-word match in the lower-cased corpus.
   */
  lemma CorpusCoversEveryPart(output: EpisodeOutput, part: string, phrase: string)
    requires part in OutputParts(output) && phrase != ""
    requires ContainsWord(Lower(part), phrase)
    ensures ContainsWord(Lower(CollectOutputText(output)), phrase)
  {
    assert Lower(part) != "";
    var parts := NonEmpty(OutputParts(output));
    assert part in parts;
    var j :| 0 <= j < |parts| && parts[j] == part;
    PartWordInJoin(parts, j, phrase);
  }

  // ---------------------------------------------------------------------
  // Pattern tables
  // ---------------------------------------------------------------------

  /** Does any of the phrases occur as a whole word? */
  function AnyWord(text: string, phrases: seq<string>): bool {
    if phrases == [] then false
    else ContainsWord(text, phrases[0]) || AnyWord(text, phrases[1..])
  }

  lemma {:induction false} AnyWordIff(text: string, phrases: seq<string>)
    ensures AnyWord(text, phrases) <==> exists i :: 0 <= i < |phrases| && ContainsWord(text, phrases[i])
  {
    if phrases != [] {
      AnyWordIff(text, phrases[1..]);
      assert forall i :: 0 < i < |phrases| ==> phrases[1..][i - 1] == phrases[i];
    }
  }

  const HatePhrases: seq<string> := ["hate speech", "hate crime"]
  const SexualViolencePhrases: seq<string> := ["sexual violence", "rape", "sexual assault"]
  /** `self[- ]?harm`, `suicide` and `kill myself`. */
  const SelfHarmTopicPhrases: seq<string> := ["self-harm", "self harm", "selfharm", "suicide", "kill myself"]
  const ExplicitSexPhrases: seq<string> := ["explicit sex", "erotic", "nude", "nudity", "sexual content", "sex"]
  /** `gore`, `entrails`, `dismember(ed|ment)?`, `decapitat(ed|ion)`, `mutilat(ed|ion)`. */
  const GraphicGorePhrases: seq<string> := [
    "gore", "entrails", "dismember", "dismembered", "dismemberment",
    "decapitated", "decapitation", "mutilated", "mutilation"]
  /** `graphic torture`, `torture`, `flay(ed|ing)?`. */
  const GraphicTorturePhrases: seq<string> := ["graphic torture", "torture", "flay", "flayed", "flaying"]
  /** The self-harm terms of the ADULT instructions rule: `self[- ]?harm` and `suicide`. */
  const SelfHarmInstructionTerms: seq<string> := ["self-harm", "self harm", "selfharm", "suicide"]

  const SexIssue := "Rating violation: explicit sexual content"
  const GoreIssue := "Rating violation: graphic violence/gore"
  const TortureIssue := "Rating violation: graphic torture"
  const SelfHarmInstructionsIssue := "Rating violation: self-harm instructions"
  const HardTopicPrefix := "Hard forbidden topic: "

  // ---------------------------------------------------------------------
  // collectRatingIssues
  // ---------------------------------------------------------------------

  /** The issue one configured topic raises against the lower-cased corpus, if any. */
  function TopicIssue(topic: string, lowerText: string): (r: seq<string>)
    ensures |r| <= 1
    ensures r != [] ==> StartsWith(r[0], HardTopicPrefix)
  {
    var normalized := Lower(topic);
    if normalized == "hate" then
      if AnyWord(lowerText, HatePhrases) then [HardTopicPrefix + "hate"] else []
    else if normalized == "sexual violence" then
      if AnyWord(lowerText, SexualViolencePhrases) then [HardTopicPrefix + "sexual violence"] else []
    else if normalized == "self-harm" then
      if AnyWord(lowerText, SelfHarmTopicPhrases) then [HardTopicPrefix + "self-harm"] else []
    else if Contains(lowerText, normalized) then [HardTopicPrefix + topic]
    else []
  }

  /** The hard-forbidden loop: one entry per flagged topic, in topic order. */
  function HardForbiddenIssues(topics: seq<string>, lowerText: string): (r: seq<string>)
    ensures |r| <= |topics|
  {
    if topics == [] then []
    else TopicIssue(topics[0], lowerText) + HardForbiddenIssues(topics[1..], lowerText)
  }

  /** The rating-tiered checks. */
  function RatingIssues(rating: string, lowerText: string): (r: seq<string>)
    ensures |r| <= 2
    ensures forall x :: x in r ==> x == SexIssue || x == GoreIssue || x == TortureIssue || x == SelfHarmInstructionsIssue
    ensures rating != "PG" && rating != "PG-13" && rating != "ADULT" ==> r == []
  {
    if rating == "PG" || rating == "PG-13" then
      (if AnyWord(lowerText, ExplicitSexPhrases) then [SexIssue] else [])
      + (if AnyWord(lowerText, GraphicGorePhrases) then [GoreIssue] else [])
    else if rating == "ADULT" then
      (if AnyWord(lowerText, GraphicTorturePhrases) then [TortureIssue] else [])
      + (if (Contains(lowerText, "how to") || Contains(lowerText, "instructions"))
            && AnyWord(lowerText, SelfHarmInstructionTerms)
         then [SelfHarmInstructionsIssue] else [])
    else []
  }

  /** `storyProfile.content_rating ?? canon.locked.narrative_style.content_rating ?? ""`. */
  function ContentRating(profile: StoryProfile): string {
    profile.contentRating.GetOr(profile.locked.narrativeStyle.contentRating.GetOr(""))
  }

  /** `canon.locked.hard_forbidden_topics ?? []`. */
  function HardForbiddenTopics(profile: StoryProfile): seq<string> {
    profile.locked.hardForbiddenTopics.GetOr([])
  }

  /** `collectRatingIssues`. */
  function CollectRatingIssues(output: EpisodeOutput, profile: StoryProfile): (issues: seq<string>)
    ensures |issues| <= |HardForbiddenTopics(profile)| + 2
  {
    var lowerText := Lower(CollectOutputText(output));
    HardForbiddenIssues(HardForbiddenTopics(profile), lowerText)
      + RatingIssues(ContentRating(profile), lowerText)
  }

  // ---------------------------------------------------------------------
  // Properties
  // ---------------------------------------------------------------------

  /** Each configured topic contributes at most one issue. */
  lemma TopicAtMostOneIssue(topic: string, lowerText: string)
    ensures |TopicIssue(topic, lowerText)| <= 1
  {
  }

  /**
   * The `hate` topic is flagged exactly when "hate speech" or "hate crime"
   * occurs as a phrase; the word "hate" alone does not flag it.
   */
  lemma HateTopicIff(topic: string, lowerText: string)
    requires Lower(topic) == "hate"
    ensures TopicIssue(topic, lowerText) == [HardTopicPrefix + "hate"]
        <==> ContainsWord(lowerText, "hate speech") || ContainsWord(lowerText, "hate crime")
    ensures TopicIssue(topic, lowerText) == []
        <==> !ContainsWord(lowerText, "hate speech") && !ContainsWord(lowerText, "hate crime")
  {
    AnyWordIff(lowerText, HatePhrases);
  }

  /** An unrecognised topic is flagged exactly when its lower-cased form is a substring of the corpus. */
  lemma OtherTopicIff(topic: string, lowerText: string)
    requires Lower(topic) !in {"hate", "sexual violence", "self-harm"}
    ensures TopicIssue(topic, lowerText) == (if Contains(lowerText, Lower(topic)) then [HardTopicPrefix + topic] else [])
  {
  }

  /** An empty topic string is a substring of every corpus, so it is always flagged. */
  lemma EmptyTopicAlwaysFlagged(lowerText: string)
    ensures TopicIssue("", lowerText) == [HardTopicPrefix]
  {
    assert OccursAt(lowerText, "", 0);
    ContainsAt(lowerText, "", 0);
    assert HardTopicPrefix + "" == HardTopicPrefix;
  }

  /** A rating other than PG, PG-13 and ADULT adds nothing beyond the hard-forbidden issues. */
  lemma OtherRatingOnlyHardIssues(output: EpisodeOutput, profile: StoryProfile)
    requires ContentRating(profile) !in {"PG", "PG-13", "ADULT"}
    ensures CollectRatingIssues(output, profile)
         == HardForbiddenIssues(HardForbiddenTopics(profile), Lower(CollectOutputText(output)))
  {
  }

  lemma {:induction false} HardIssuesArePrefixed(topics: seq<string>, lowerText: string)
    ensures forall i :: 0 <= i < |HardForbiddenIssues(topics, lowerText)| ==>
      StartsWith(HardForbiddenIssues(topics, lowerText)[i], HardTopicPrefix)
  {
    if topics != [] {
      HardIssuesArePrefixed(topics[1..], lowerText);
      var t := TopicIssue(topics[0], lowerText);
      assert forall i :: 0 <= i < |t| ==> StartsWith(t[i], HardTopicPrefix);
    }
  }

  /** No topic issue reads like a rating issue: topic issues start with "H", rating issues with "R". */
  lemma HardIssuesAreNotRated(topics: seq<string>, lowerText: string)
    ensures var hard := HardForbiddenIssues(topics, lowerText);
      SexIssue !in hard && GoreIssue !in hard && TortureIssue !in hard && SelfHarmInstructionsIssue !in hard
  {
    HardIssuesArePrefixed(topics, lowerText);
    assert HardTopicPrefix[0] == 'H';
    assert SexIssue[0] == GoreIssue[0] == TortureIssue[0] == SelfHarmInstructionsIssue[0] == 'R';
  }

  /** The tier a rating issue comes from: sex and gore under PG and PG-13, torture and self-harm under ADULT. */
  lemma RatedIssueTier(rating: string, lowerText: string)
    ensures var rated := RatingIssues(rating, lowerText);
      && (SexIssue in rated || GoreIssue in rated ==> rating == "PG" || rating == "PG-13")
      && (TortureIssue in rated || SelfHarmInstructionsIssue in rated ==> rating == "ADULT")
  {
    assert SexIssue != TortureIssue && SexIssue != SelfHarmInstructionsIssue;
    assert GoreIssue != TortureIssue && GoreIssue != SelfHarmInstructionsIssue;
  }

  /**
   * Which rule raised an issue pins down the rating: sexual-content and gore
   * issues only under PG and PG-13, torture and self-harm-instruction issues
   * only under ADULT.
   */
  lemma RatingTiers(output: EpisodeOutput, profile: StoryProfile)
    ensures var issues := CollectRatingIssues(output, profile); var rating := ContentRating(profile);
      && (SexIssue in issues || GoreIssue in issues ==> rating == "PG" || rating == "PG-13")
      && (TortureIssue in issues || SelfHarmInstructionsIssue in issues ==> rating == "ADULT")
  {
    var lowerText := Lower(CollectOutputText(output));
    var rating := ContentRating(profile);
    HardIssuesAreNotRated(HardForbiddenTopics(profile), lowerText);
    RatedIssueTier(rating, lowerText);
    assert CollectRatingIssues(output, profile)
        == HardForbiddenIssues(HardForbiddenTopics(profile), lowerText) + RatingIssues(rating, lowerText);
  }

  /** Total issue count: at most one per topic plus two rating issues. */
  lemma IssueCountBound(output: EpisodeOutput, profile: StoryProfile)
    ensures |CollectRatingIssues(output, profile)| <= |HardForbiddenTopics(profile)| + 2
  {
  }

  // ---------------------------------------------------------------------
  // Concrete cases
  // ---------------------------------------------------------------------

  /** Every character of a phrase found in a text is a character of that text. */
  lemma WordCharsInText(text: string, phrase: string)
    ensures ContainsWord(text, phrase) ==> forall c :: c in phrase ==> c in text
  {
    if ContainsWord(text, phrase) {
      var k := ContainsWordFromWitness(text, phrase, 0);
      assert text[k..k + |phrase|] == phrase;
    }
  }

  /** A PG story whose episode mentions a "nude beach scene" is flagged. */
  lemma NudeBeachUnderPG()
    ensures SexIssue in RatingIssues("PG", "a nude beach scene")
  {
    var t := "a nude beach scene";
    assert t[2..6] == "nude";
    ContainsWordAt(t, "nude", 2);
    assert ExplicitSexPhrases[2] == "nude";
    AnyWordIff(t, ExplicitSexPhrases);
  }

  /** The word "hate" alone does not raise the hate topic. */
  lemma BareHateNotFlagged()
    ensures TopicIssue("hate", "i hate this town") == []
  {
    var t := "i hate this town";
    assert Lower("hate") == "hate";
    assert 'p' in "hate speech" && 'p' !in t;
    assert 'c' in "hate crime" && 'c' !in t;
    WordCharsInText(t, "hate speech");
    WordCharsInText(t, "hate crime");
    AnyWordIff(t, HatePhrases);
  }

  /** "graphic torture" is flagged under ADULT. */
  lemma GraphicTortureUnderAdult()
    ensures TortureIssue in RatingIssues("ADULT", "graphic torture")
  {
    var t := "graphic torture";
    assert t[0..|t|] == t;
    ContainsWordAt(t, t, 0);
    assert GraphicTorturePhrases[0] == t;
    AnyWordIff(t, GraphicTorturePhrases);
  }
}
