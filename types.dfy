/**
 * The documents the edge functions exchange: the versioned story profile
 * with its locked and flexible canon and its dynamic state, the episode a
 * generator produces, and the rows of the persistent store. JSON fields
 * that may be absent are `Option`s; `??` and `Array.isArray` defaults are
 * applied where the code reads them.
 */
module StoryTypes {
  import opened Wrappers

  /** Lifecycle of a flexible canon item; it only moves left to right. */
  datatype Status = Tentative | Confirmed | Locked

  /** Position of a status along tentative -> confirmed -> locked. */
  function Rank(s: Status): (r: nat)
    ensures r <= 2
    ensures r == 0 <==> s == Tentative
    ensures r == 2 <==> s == Locked
  {
    match s
    case Tentative => 0
    case Confirmed => 1
    case Locked => 2
  }

  datatype CanonItem = CanonItem(value: string, status: Status, evidence: seq<string>)

  /** The list-valued categories of the flexible canon. */
  datatype ListCategory = SupportingRoles | LocationsSeed | KeyItemsOrSecrets

  /** The category a finalizer hit names: one of the lists or the singleton core conflict. */
  datatype Category = ListOf(list: ListCategory) | CoreConflict

  /**
   * `canon.flexible`: a list per category (a category may be missing from
   * the document) and the singleton `core_conflict`.
   */
  datatype FlexibleCanon = FlexibleCanon(lists: map<ListCategory, seq<CanonItem>>, coreConflict: CanonItem)

  datatype Character = Character(name: string, identity: string, traits: seq<string>, motivation: string, fear: string)

  datatype NarrativeStyle = NarrativeStyle(
    pov: string, tense: string, readingLevel: string, toneKeywords: seq<string>,
    contentRating: Option<string>)

  datatype LockedCanon = LockedCanon(
    worldRules: seq<string>,
    mainCharacters: seq<Character>,
    narrativeStyle: NarrativeStyle,
    themeTone: string,
    hardForbiddenTopics: Option<seq<string>>)

  /**
   * `flow.dynamic_state`. `time` is a separate key from `current_time`:
   * story creation writes `current_time`, the finalizer writes `time`.
   */
  datatype DynamicState = DynamicState(
    currentTime: Option<string>,
    time: Option<string>,
    currentLocationId: Option<string>,
    charactersPresent: Option<seq<string>>,
    inventory: Option<seq<string>>,
    openThreads: Option<seq<string>>,
    segmentGoal: Option<string>,
    cliffhangerSeed: Option<string>)

  /** The `{}` the episode generator falls back to when the profile has no dynamic state. */
  const EmptyState := DynamicState(None, None, None, None, None, None, None, None)

  datatype StoryProfile = StoryProfile(
    version: Option<int>,
    language: string,
    genre: string,
    contentRating: Option<string>,
    locked: LockedCanon,
    flexible: Option<FlexibleCanon>,
    dynamicState: Option<DynamicState>)

  datatype ChoiceId = A | B
  datatype RiskLevel = Low | Medium | High

  datatype Choice = Choice(choiceId: ChoiceId, text: string, intent: string, riskLevel: RiskLevel, leadsTo: string)

  datatype Segment = Segment(title: string, text: string, wordCount: int)

  datatype CheckResult = Pass | Warn
  datatype ContinuityCheck = ContinuityCheck(rule: string, result: CheckResult, note: string)

  /** One `inventory_delta` entry; an `op` other than add/remove/update is kept as `OtherOp`. */
  datatype InventoryOp = Add | Remove | Update | OtherOp(name: string)
  datatype InventoryDelta = InventoryDelta(op: InventoryOp, item: Option<string>)

  /** `open_threads_delta`; a non-array `add` or `resolve` is `None`. */
  datatype ThreadsDelta = ThreadsDelta(add: Option<seq<string>>, resolve: Option<seq<string>>)

  /** `state_update` of a generated episode; a non-array `inventory_delta` is `None`. */
  datatype StateUpdate = StateUpdate(
    time: Option<string>,
    locationId: Option<string>,
    charactersPresent: Option<seq<string>>,
    inventoryDelta: Option<seq<InventoryDelta>>,
    openThreadsDelta: Option<ThreadsDelta>)

  /** The schema-conforming episode the generator returns. */
  datatype EpisodeOutput = EpisodeOutput(
    episodeId: string,
    segment: Segment,
    choices: seq<Choice>,
    stateUpdate: StateUpdate,
    continuityChecks: seq<ContinuityCheck>,
    assumptions: seq<string>)

  /** The `state_snapshot` stored with an episode, merged from a base state and an update. */
  datatype Snapshot = Snapshot(
    time: string, locationId: string, charactersPresent: seq<string>,
    inventory: seq<string>, openThreads: seq<string>)

  /** The finalizer's `state_snapshot`. */
  datatype FinalSnapshot = FinalSnapshot(
    time: Option<string>, locationId: string, charactersPresent: seq<string>, inventory: seq<string>)

  /** What an episode row's `state_snapshot` column holds, depending on which function wrote it. */
  datatype EpisodeState =
    | InitialState(state: DynamicState)
    | MergedState(snapshot: Snapshot)
    | FinalizedState(final: FinalSnapshot)

  datatype NoteStatus = Active | Resolved

  /**
   * What an edge function answers: a success status, or an error status with
   * the `error` message and the `details` lines of its JSON body.
   */
  datatype Response = Ok(status: int) | Fail(status: int, error: string, details: seq<string>)
}
