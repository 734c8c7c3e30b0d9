/**
 * The `story-create` edge function: the initial story profile, the bearer
 * token and user-id resolution, the world-rule continuity notes and the
 * rows written for a new story (user, onboarding inputs, story, profile
 * version 1, notes, episode 1 and the session).
 *
 * The profile validator, the auth service (`validateAndGetUserId`) and the
 * story-content model call are parameters; each write takes its fault.
 */
module StoryCreate {
  import opened Wrappers
  import opened Text
  import opened StoryTypes
  import opened Validation
  import opened CanonLifecycle
  import opened Store

  /** The request body; `content_rating` is carried as the string it was sent as. */
  datatype CreateInput = CreateInput(
    genre: string,
    contentRating: string,
    appLang: string,
    userId: Option<string>,
    isAnonymous: Option<bool>)

  /** The generated opening of the story. */
  datatype StoryContent = StoryContent(
    title: string, logline: string, episodeTitle: string, episodeText: string, choices: seq<Choice>)

  // ---------------------------------------------------------------------
  // buildStoryProfile
  // ---------------------------------------------------------------------

  const WorldRules: seq<string> := ["Death is permanent; resurrection is impossible.", "Time travel is impossible."]
  const ForbiddenTopics: seq<string> := ["hate", "sexual violence", "self-harm"]

  /** "Kerem" for a noir genre (any letter case), "Aylin" otherwise. */
  function MainCharacterName(genre: string): (name: string)
    ensures name == "Kerem" || name == "Aylin"
    ensures name == "Kerem" <==> Contains(Lower(genre), "noir")
  {
    if Contains(Lower(genre), "noir") then "Kerem" else "Aylin"
  }

  function Seed(value: string): (item: CanonItem)
    ensures item.value == value && item.status == Tentative && item.evidence == []
  {
    CanonItem(value, Tentative, [])
  }

  function InitialFlexible(): FlexibleCanon {
    FlexibleCanon(
      map[SupportingRoles := [Seed("mentor"), Seed("rival")],
          LocationsSeed := [Seed("Old Harbor"), Seed("Shadow Bazaar")],
          KeyItemsOrSecrets := [Seed("A map that glows in moonlight")]],
      Seed("Find a lost relic"))
  }

  function OpeningState(name: string): DynamicState {
    DynamicState(
      Some("Night"), None, Some("old_harbor"), Some([name]), Some(["field notebook"]),
      Some(["Who stole the relic?"]), Some("Find the first clue"), Some("A hidden sigil appears on the map"))
  }

  /** `buildStoryProfile`. */
  function BuildStoryProfile(input: CreateInput): (p: StoryProfile)
    ensures p.version == Some(1)
    ensures p.language == input.appLang && p.genre == input.genre && p.contentRating == Some(input.contentRating)
    ensures p.locked.themeTone == input.genre + " adventure"
    ensures p.locked.hardForbiddenTopics == Some(ForbiddenTopics)
    ensures p.locked.worldRules == WorldRules
    ensures |p.locked.mainCharacters| == 1
    ensures p.locked.mainCharacters[0].name == "Kerem" <==> Contains(Lower(input.genre), "noir")
    ensures p.locked.mainCharacters[0].name == "Aylin" <==> !Contains(Lower(input.genre), "noir")
    ensures p.dynamicState.Some? && p.dynamicState.value.charactersPresent == Some([p.locked.mainCharacters[0].name])
    ensures p.flexible == Some(InitialFlexible())
  {
    var name := MainCharacterName(input.genre);
    StoryProfile(
      Some(1), input.appLang, input.genre, Some(input.contentRating),
      LockedCanon(
        WorldRules,
        [Character(name, "A resourceful traveler surviving through wit and courage.",
          ["brave", "curious", "stubborn"], "Protect loved ones.", "Losing control.")],
        NarrativeStyle("third", "past", "young_adult", ["immersive", "emotional"], None),
        input.genre + " adventure",
        Some(ForbiddenTopics)),
      Some(InitialFlexible()),
      Some(OpeningState(name)))
  }

  /** Every initial flexible item, the core conflict included, is tentative with no evidence. */
  lemma InitialCanonTentative(input: CreateInput)
    ensures var flex := BuildStoryProfile(input).flexible.value;
      && flex.coreConflict.status == Tentative && flex.coreConflict.evidence == []
      && forall c, k :: c in flex.lists && 0 <= k < |flex.lists[c]| ==>
           flex.lists[c][k].status == Tentative && flex.lists[c][k].evidence == []
  {
  }

  /**
   * A new story's flexible canon is consistent (status matches distinct
   * evidence), and stays so through any sequence of finalizations.
   */
  lemma CreatedCanonStaysConsistent(input: CreateInput, batches: seq<seq<Hit>>, episodes: seq<nat>)
    requires |batches| == |episodes|
    ensures CanonConsistent(FinalizeAll(InitialFlexible(), batches, episodes))
  {
    InitialCanonTentative(input);
    var flex := InitialFlexible();
    forall c, k | c in flex.lists && 0 <= k < |flex.lists[c]|
      ensures ItemConsistent(flex.lists[c][k])
    {
      assert flex.lists[c][k].evidence == [];
    }
    FinalizeAllConsistent(flex, batches, episodes);
  }

  /** The flexible canon after one hit batch per finalized episode, in order. */
  function FinalizeAll(flex: FlexibleCanon, batches: seq<seq<Hit>>, episodes: seq<nat>): FlexibleCanon
    requires |batches| == |episodes|
    decreases |batches|
  {
    if batches == [] then flex
    else FinalizeAll(ApplyHits(flex, batches[0], episodes[0]), batches[1..], episodes[1..])
  }

  lemma {:induction false} FinalizeAllConsistent(flex: FlexibleCanon, batches: seq<seq<Hit>>, episodes: seq<nat>)
    requires |batches| == |episodes| && CanonConsistent(flex)
    ensures CanonConsistent(FinalizeAll(flex, batches, episodes))
    decreases |batches|
  {
    if batches != [] {
      ApplyHitsKeepsConsistent(flex, batches[0], episodes[0]);
      FinalizeAllConsistent(ApplyHits(flex, batches[0], episodes[0]), batches[1..], episodes[1..]);
    }
  }

  // ---------------------------------------------------------------------
  // Continuity notes
  // ---------------------------------------------------------------------

  const KeyPrefix := "world_rule_"

  /** `world_rule_${index + 1}`. */
  function RuleKey(index: nat): (key: string)
    ensures StartsWith(key, KeyPrefix)
  {
    var key := KeyPrefix + NatToDecimal(index + 1);
    assert key[..|KeyPrefix|] == KeyPrefix;
    key
  }

  /** The notes for `rules[from..]`, numbered from `from`. */
  function NotesFrom(storyId: string, rules: seq<string>, from: nat): (notes: seq<NoteRow>)
    requires from <= |rules|
    ensures |notes| == |rules| - from
    ensures forall i :: 0 <= i < |notes| ==>
      notes[i] == NoteRow(storyId, RuleKey(from + i), rules[from + i], Active, 1)
    decreases |rules| - from
  {
    if from == |rules| then []
    else [NoteRow(storyId, RuleKey(from), rules[from], Active, 1)] + NotesFrom(storyId, rules, from + 1)
  }

  /** `worldRules.map((rule, index) => …)`: one active note per rule, introduced in episode 1. */
  function ContinuityNotes(storyId: string, rules: seq<string>): (notes: seq<NoteRow>)
    ensures |notes| == |rules|
    ensures forall i :: 0 <= i < |rules| ==>
      notes[i] == NoteRow(storyId, RuleKey(i), rules[i], Active, 1)
  {
    NotesFrom(storyId, rules, 0)
  }

  /** Different rule positions get different keys. */
  lemma RuleKeysDistinct(i: nat, j: nat)
    requires i != j
    ensures RuleKey(i) != RuleKey(j)
  {
    if RuleKey(i) == RuleKey(j) {
      assert RuleKey(i)[|KeyPrefix|..] == NatToDecimal(i + 1);
      assert RuleKey(j)[|KeyPrefix|..] == NatToDecimal(j + 1);
      DecimalInjective(i + 1, j + 1);
    }
  }

  /** The notes of a new story have pairwise distinct keys. */
  lemma ContinuityKeysUnique(storyId: string, rules: seq<string>)
    ensures var notes := ContinuityNotes(storyId, rules);
      forall i, j :: 0 <= i < j < |notes| ==> notes[i].key != notes[j].key
  {
    var notes := ContinuityNotes(storyId, rules);
    forall i, j | 0 <= i < j < |notes|
      ensures notes[i].key != notes[j].key
    {
      RuleKeysDistinct(i, j);
    }
  }

  // ---------------------------------------------------------------------
  // Token and user id
  // ---------------------------------------------------------------------

  const BearerPrefix := "Bearer "

  /** `getTokenFromRequest`: the trimmed text after "Bearer ", or nothing when that is empty. */
  function GetToken(authHeader: Option<string>): (token: Option<string>)
    ensures token.Some? ==> token.value != "" && !IsSpace(token.value[0]) && !IsSpace(token.value[|token.value| - 1])
    ensures token.Some? ==> authHeader.Some? && StartsWith(authHeader.value, BearerPrefix)
  {
    var header := authHeader.GetOr("");
    if !StartsWith(header, BearerPrefix) then None
    else
      var t := Trim(header[|BearerPrefix|..]);
      if t == "" then None else Some(t)
  }

  /** A header built from a token with no surrounding whitespace yields that token back. */
  lemma GetTokenRoundTrip(t: string)
    requires t != [] && !IsSpace(t[0]) && !IsSpace(t[|t| - 1])
    ensures GetToken(Some(BearerPrefix + t)) == Some(t)
  {
    var header := BearerPrefix + t;
    assert header[..|BearerPrefix|] == BearerPrefix;
    assert header[|BearerPrefix|..] == t;
    TrimTrimmed(t);
  }

  /** Any other scheme, or no header at all, gives no token. */
  lemma NoBearerNoToken(authHeader: Option<string>)
    requires authHeader.None? || !StartsWith(authHeader.value, BearerPrefix)
    ensures GetToken(authHeader) == None
  {
  }

  /** JavaScript truthiness of an optional string. */
  predicate Truthy(s: Option<string>) {
    s.Some? && s.value != ""
  }

  /**
   * The resolved user: the token's user when the auth service accepts the
   * token, else the body's `user_id` for an anonymous caller, else none.
   */
  function ResolveUserId(
    token: Option<string>, getUser: string -> Option<string>,
    bodyUserId: Option<string>, isAnonymous: Option<bool>): (r: Option<string>)
    ensures r.Some? ==> r.value != ""
    ensures token.Some? && Truthy(getUser(token.value)) ==> r == getUser(token.value)
    ensures r.None? <==>
      !(token.Some? && Truthy(getUser(token.value))) && !(Truthy(bodyUserId) && isAnonymous == Some(true))
    ensures r.Some? && !(token.Some? && r == getUser(token.value)) ==>
      r == bodyUserId && isAnonymous == Some(true)
  {
    var fromToken := if token.Some? then getUser(token.value) else None;
    if Truthy(fromToken) then fromToken
    else if Truthy(bodyUserId) && isAnonymous == Some(true) then bodyUserId
    else None
  }

  /** A body `user_id` is never used for a caller that is not marked anonymous. */
  lemma BodyUserNeedsAnonymous(
    token: Option<string>, getUser: string -> Option<string>, bodyUserId: Option<string>, isAnonymous: Option<bool>)
    requires isAnonymous != Some(true)
    ensures ResolveUserId(token, getUser, bodyUserId, isAnonymous).Some? ==>
      token.Some? && ResolveUserId(token, getUser, bodyUserId, isAnonymous) == getUser(token.value)
  {
  }

  // ---------------------------------------------------------------------
  // The handler
  // ---------------------------------------------------------------------

  /** The fault each write may meet, in the order the writes happen. */
  datatype CreateFaults = CreateFaults(
    user: Option<string>, input: Option<string>, story: Option<string>, profile: Option<string>,
    notes: Option<string>, episode: Option<string>, session: Option<string>)

  /** The ids the database gives the new rows. */
  datatype NewIds = NewIds(story: string, episode: string, session: string)

  const RequiredFieldsMessage := "Missing required fields: genre, content_rating, app_lang"
  const ProfileInvalidMessage := "story_profile schema validation failed"
  const StoreConfigMessage := "Missing SUPABASE_URL or SUPABASE_SERVICE_ROLE_KEY"
  const InvalidJwtMessage := "Invalid JWT"
  const UserFailedMessage := "Failed to upsert user"
  const InputFailedMessage := "Failed to store onboarding inputs"
  const ContentFailedMessage := "Failed to generate story content"
  const StoryFailedMessage := "Failed to create story"
  const ProfileFailedMessage := "Failed to create story profile"
  const NotesFailedMessage := "Failed to create continuity notes"
  const EpisodeFailedMessage := "Failed to create episode_1"
  const SessionFailedMessage := "Failed to create session"

  /** `!genre || !content_rating || !app_lang`. */
  predicate MissingRequired(input: CreateInput) {
    input.genre == "" || input.contentRating == "" || input.appLang == ""
  }

  /** The story rows, in write order, that a fully successful creation adds. */
  function StoryRowFor(ids: NewIds, input: CreateInput, content: StoryContent): StoryRow {
    StoryRow(ids.story, content.title, content.logline, input.genre, input.contentRating, "active")
  }

  function EpisodeOneRow(ids: NewIds, input: CreateInput, content: StoryContent): (row: EpisodeRow)
    ensures row.episodeNumber == 1 && row.recap.None?
    ensures row.stateSnapshot == InitialState(BuildStoryProfile(input).dynamicState.value)
  {
    EpisodeRow(ids.episode, ids.story, 1, content.episodeTitle, content.episodeText, content.choices, None,
      InitialState(BuildStoryProfile(input).dynamicState.value))
  }

  /** No write and no model call failed. */
  predicate AllClear(faults: CreateFaults, content: Result<StoryContent, string>) {
    faults == CreateFaults(None, None, None, None, None, None, None) && content.Success?
  }

  /**
   * The response of the write sequence: the first failing step decides it,
   * a failed user upsert being the one 400 among the 500s.
   */
  function PersistOutcome(faults: CreateFaults, content: Result<StoryContent, string>): (r: Response)
    ensures r == Ok(201) <==> AllClear(faults, content)
    ensures r.Fail? && r.status == 400 <==> faults.user.Some?
    ensures r.Fail? ==> r.status == 400 || r.status == 500
    ensures r.Fail? ==> |r.details| == 1
  {
    if faults.user.Some? then Fail(400, UserFailedMessage, [faults.user.value])
    else if faults.input.Some? then Fail(500, InputFailedMessage, [faults.input.value])
    else if content.Failure? then Fail(500, ContentFailedMessage, [content.error])
    else if faults.story.Some? then Fail(500, StoryFailedMessage, [faults.story.value])
    else if faults.profile.Some? then Fail(500, ProfileFailedMessage, [faults.profile.value])
    else if faults.notes.Some? then Fail(500, NotesFailedMessage, [faults.notes.value])
    else if faults.episode.Some? then Fail(500, EpisodeFailedMessage, [faults.episode.value])
    else if faults.session.Some? then Fail(500, SessionFailedMessage, [faults.session.value])
    else Ok(201)
  }

  /**
   * The writes after authentication: the user and the onboarding inputs,
   * then the model call, then the story and everything hanging off it. A
   * failure stops the sequence and leaves the earlier rows in place.
   */
  method PersistStory(
    db: Database, input: CreateInput, userId: string, content: Result<StoryContent, string>,
    ids: NewIds, faults: CreateFaults)
    returns (response: Response, generated: bool)
    modifies db
    ensures faults.user.Some? ==>
      response == Fail(400, UserFailedMessage, [faults.user.value]) && !generated && db.users == old(db.users)
    ensures faults.user.None? ==> db.users == old(db.users)[userId := UserRow(userId, input.isAnonymous.GetOr(true), input.appLang)]
    ensures faults.user.None? && faults.input.None? ==>
      generated && db.inputs == old(db.inputs) + [InputRow(userId, [input.genre], input.contentRating, input.appLang)]
    ensures generated ==> faults.user.None? && faults.input.None?
    ensures response.Fail? && response.status != 500 ==>
      && response.error == UserFailedMessage && db.users == old(db.users) && db.inputs == old(db.inputs)
      && db.stories == old(db.stories) && db.profiles == old(db.profiles) && db.notes == old(db.notes)
      && db.episodes == old(db.episodes) && db.sessions == old(db.sessions)
    ensures !generated ==>
      && db.stories == old(db.stories) && db.profiles == old(db.profiles) && db.notes == old(db.notes)
      && db.episodes == old(db.episodes) && db.sessions == old(db.sessions)
    ensures db.stories != old(db.stories) ==> generated && content.Success?
    ensures response == Ok(201) ==>
      && content.Success? && generated
      && db.stories == old(db.stories) + [StoryRowFor(ids, input, content.value)]
      && db.profiles == old(db.profiles) + [ProfileRow(ids.story, 1, BuildStoryProfile(input))]
      && db.notes == old(db.notes) + ContinuityNotes(ids.story, WorldRules)
      && db.episodes == old(db.episodes) + [EpisodeOneRow(ids, input, content.value)]
      && db.sessions == old(db.sessions) + [SessionRow(ids.session, userId, ids.story, 1)]
    ensures faults == CreateFaults(None, None, None, None, None, None, None) && content.Success? ==> response == Ok(201)
    ensures response == PersistOutcome(faults, content)
    ensures faults.user.None? && faults.input.Some? ==> db.inputs == old(db.inputs) && !generated
    ensures faults.user.None? && faults.input.None? && content.Failure? ==> db.stories == old(db.stories)
    ensures faults.user.None? && faults.input.None? && content.Success? ==>
      var c := content.value;
      && (faults.story.Some? ==>
            && db.stories == old(db.stories) && db.profiles == old(db.profiles) && db.notes == old(db.notes)
            && db.episodes == old(db.episodes) && db.sessions == old(db.sessions))
      && (faults.story.None? ==> db.stories == old(db.stories) + [StoryRowFor(ids, input, c)])
      && (faults.story.None? && faults.profile.Some? ==>
            && db.profiles == old(db.profiles) && db.notes == old(db.notes)
            && db.episodes == old(db.episodes) && db.sessions == old(db.sessions))
      && (faults.story.None? && faults.profile.None? ==>
            db.profiles == old(db.profiles) + [ProfileRow(ids.story, 1, BuildStoryProfile(input))])
      && (faults.story.None? && faults.profile.None? && faults.notes.Some? ==>
            db.notes == old(db.notes) && db.episodes == old(db.episodes) && db.sessions == old(db.sessions))
      && (faults.story.None? && faults.profile.None? && faults.notes.None? ==>
            db.notes == old(db.notes) + ContinuityNotes(ids.story, WorldRules))
      && (faults.story.None? && faults.profile.None? && faults.notes.None? && faults.episode.Some? ==>
            db.episodes == old(db.episodes) && db.sessions == old(db.sessions))
      && (faults.story.None? && faults.profile.None? && faults.notes.None? && faults.episode.None? ==>
            db.episodes == old(db.episodes) + [EpisodeOneRow(ids, input, c)])
      && ((faults.story.None? && faults.profile.None? && faults.notes.None? && faults.episode.None?
           && faults.session.Some?) ==> db.sessions == old(db.sessions))
  {
    generated := false;
    var err := db.UpsertUser(UserRow(userId, input.isAnonymous.GetOr(true), input.appLang), faults.user);
    if err.Some? {
      return Fail(400, UserFailedMessage, [err.value]), generated;
    }
    err := db.InsertInput(InputRow(userId, [input.genre], input.contentRating, input.appLang), faults.input);
    if err.Some? {
      return Fail(500, InputFailedMessage, [err.value]), generated;
    }
    generated := true;
    if content.Failure? {
      return Fail(500, ContentFailedMessage, [content.error]), generated;
    }
    var storyContent := content.value;
    err := db.InsertStory(StoryRow(ids.story, storyContent.title, storyContent.logline, input.genre, input.contentRating, "active"), faults.story);
    if err.Some? {
      return Fail(500, StoryFailedMessage, [err.value]), generated;
    }
    var storyProfile := BuildStoryProfile(input);
    err := db.InsertProfile(ProfileRow(ids.story, 1, storyProfile), faults.profile);
    if err.Some? {
      return Fail(500, ProfileFailedMessage, [err.value]), generated;
    }
    err := db.InsertNotes(ContinuityNotes(ids.story, storyProfile.locked.worldRules), faults.notes);
    if err.Some? {
      return Fail(500, NotesFailedMessage, [err.value]), generated;
    }
    var stateSnapshot := storyProfile.dynamicState.value;
    err := db.InsertEpisode(EpisodeRow(ids.episode, ids.story, 1, storyContent.episodeTitle, storyContent.episodeText,
      storyContent.choices, None, InitialState(stateSnapshot)), faults.episode);
    if err.Some? {
      return Fail(500, EpisodeFailedMessage, [err.value]), generated;
    }
    err := db.InsertSession(SessionRow(ids.session, userId, ids.story, 1), faults.session);
    if err.Some? {
      return Fail(500, SessionFailedMessage, [err.value]), generated;
    }
    response := Ok(201);
  }

  /**
   * The handler's user resolution: the token's user when the auth service
   * accepts the token, then the body's `user_id` for an anonymous caller.
   */
  method ResolveUser(
    authHeader: Option<string>, getUser: string -> Option<string>,
    bodyUserId: Option<string>, isAnonymous: Option<bool>)
    returns (resolvedUserId: Option<string>)
    ensures !Truthy(resolvedUserId) ==> ResolveUserId(GetToken(authHeader), getUser, bodyUserId, isAnonymous).None?
    ensures Truthy(resolvedUserId) ==> resolvedUserId == ResolveUserId(GetToken(authHeader), getUser, bodyUserId, isAnonymous)
  {
    resolvedUserId := None;
    var token := GetToken(authHeader);
    if token.Some? {
      var validation := getUser(token.value);
      if validation.Some? {
        resolvedUserId := validation;
      }
    }
    if !Truthy(resolvedUserId) && Truthy(bodyUserId) && isAnonymous == Some(true) {
      resolvedUserId := bodyUserId;
    }
  }

  /**
   * The handler after parsing. `generated` reports whether the story-content
   * model was called.
   */
  method HandleCreate(
    db: Database, input: CreateInput, authHeader: Option<string>, getUser: string -> Option<string>,
    profileCheck: ValidationResult, storeConfigured: bool, content: Result<StoryContent, string>,
    ids: NewIds, faults: CreateFaults)
    returns (response: Response, generated: bool)
    modifies db
    ensures MissingRequired(input) ==>
      response == Fail(400, RequiredFieldsMessage, []) && !generated
    ensures !MissingRequired(input) && !profileCheck.valid ==>
      response == Fail(500, ProfileInvalidMessage, FormatAjvErrors(profileCheck.errors)) && !generated
    ensures (!MissingRequired(input) && profileCheck.valid && storeConfigured
      && ResolveUserId(GetToken(authHeader), getUser, input.userId, input.isAnonymous).None?) ==>
      response == Fail(401, InvalidJwtMessage, []) && !generated
    ensures response.Fail? && response.status != 500 ==>
      && !generated && db.users == old(db.users) && db.inputs == old(db.inputs)
      && db.stories == old(db.stories) && db.profiles == old(db.profiles) && db.notes == old(db.notes)
      && db.episodes == old(db.episodes) && db.sessions == old(db.sessions)
    ensures !generated ==>
      && db.stories == old(db.stories) && db.profiles == old(db.profiles) && db.notes == old(db.notes)
      && db.episodes == old(db.episodes) && db.sessions == old(db.sessions)
    ensures response == Ok(201) ==>
      && !MissingRequired(input) && profileCheck.valid && storeConfigured && content.Success?
      && var userId := ResolveUserId(GetToken(authHeader), getUser, input.userId, input.isAnonymous);
      && userId.Some?
      && db.users == old(db.users)[userId.value := UserRow(userId.value, input.isAnonymous.GetOr(true), input.appLang)]
      && db.stories == old(db.stories) + [StoryRowFor(ids, input, content.value)]
      && db.profiles == old(db.profiles) + [ProfileRow(ids.story, 1, BuildStoryProfile(input))]
      && db.notes == old(db.notes) + ContinuityNotes(ids.story, WorldRules)
      && db.episodes == old(db.episodes) + [EpisodeOneRow(ids, input, content.value)]
      && db.sessions == old(db.sessions) + [SessionRow(ids.session, userId.value, ids.story, 1)]
    ensures !MissingRequired(input) && profileCheck.valid && !storeConfigured ==>
      && response == Fail(500, StoreConfigMessage, []) && !generated
      && db.users == old(db.users) && db.inputs == old(db.inputs)
    ensures (!MissingRequired(input) && profileCheck.valid && storeConfigured
             && ResolveUserId(GetToken(authHeader), getUser, input.userId, input.isAnonymous).Some?) ==>
      response == PersistOutcome(faults, content)
    ensures MissingRequired(input) || !profileCheck.valid || !storeConfigured ==>
      db.users == old(db.users) && db.inputs == old(db.inputs)
  {
    generated := false;
    if MissingRequired(input) {
      return Fail(400, RequiredFieldsMessage, []), generated;
    }
    if !profileCheck.valid {
      return Fail(500, ProfileInvalidMessage, FormatAjvErrors(profileCheck.errors)), generated;
    }
    if !storeConfigured {
      return Fail(500, StoreConfigMessage, []), generated;
    }
    var resolvedUserId := ResolveUser(authHeader, getUser, input.userId, input.isAnonymous);
    if !Truthy(resolvedUserId) {
      return Fail(401, InvalidJwtMessage, []), generated;
    }
    response, generated := PersistStory(db, input, resolvedUserId.value, content, ids, faults);
  }
}
