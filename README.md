# fictionengine — a verified model of the story pipeline

fictionengine is an interactive-fiction back end: Supabase edge functions written for Deno,
plus a React Native client. This project models the deterministic core of that pipeline in
Dafny and proves properties of it:

- **story-create** builds the initial story profile. That profile holds the locked canon, the
  flexible canon and the dynamic state. The function also resolves the caller's user id from
  the bearer token or from an anonymous body `user_id`. It seeds the world-rule continuity
  notes and writes the user, onboarding-input, story, profile, notes, episode-1 and session
  rows in order. It stops at the first failed write.
- **episode-generate** runs the generate-then-repair loop, at most two provider calls. Every
  draft is validated against the episode schema and scanned for continuity warnings and for
  content-rating issues. The loop ends at the first clean draft. The accepted episode is stored
  with a state snapshot merged from the base dynamic state and the episode's state update. The
  session's episode number is then advanced.
- **episode-finalize** applies the finalizer's flexible-canon hits. Each hit touches an item:
  it records the evidence entry `episode:<N> <evidence>` once, and promotes the item
  tentative → confirmed → locked at 2 and 3 distinct entries. A hit replaces an unlocked core
  conflict whose value differs. Finalize overrides the dynamic state with the finalizer's
  snapshot and stores the next profile version. It writes the recap and inserts the new
  facts whose keys are not active notes yet.
- **_shared**: `extractOutputText` and the guards of `createStructuredOutput` for the provider's
  structured-output replies, plus `validateSchema`/`formatAjvErrors` for schema errors.
- **mobile story cache**: a key/value store that falls back to an in-memory map when device
  storage throws. It caches the current session and the story list, with the keyed upsert and
  removal on that list.

The edge-function handlers, the canon update loop, the snapshot loops, the output-text loops
and the cache are imperative methods. The database and the cache are classes with `modifies`
frames. The loops and the cache methods are proved equal to specification functions, and the
lemmas state the properties of those functions. The handlers and the database methods have
one postcondition per outcome instead: each rejection and each write fault gives its response
and the tables it leaves untouched, and the all-clear case gives the success status and every
row written. The following are parameters of the model:
- the language model (`gen`, `finalizer`, `content`);
- the JSON Schema validator (`profileCheck`, `validate`);
- the auth service (`getUser`);
- the HTTP exchange (`send`);
- `JSON.parse` (`parse`, `Codec`);
- the fault of every storage call (`…Fault`, `fails`).

Two behaviours of the code are stated as lemmas rather than corrected:

- **A cleared session can come back.** `StoryCache.ClearedSessionResurfaces` shows a session
  whose write fell back to memory survives `clearStorySession`. The removal reaches device
  storage only, and the next read falls through to the memory map.
- **The finalizer's time is not read by the next generation.** `EpisodeFinalize.FinalizedTimeNotRead`
  shows that finalize writes the time under `time`, while `buildStateSnapshot` reads
  `current_time`.

## Model

| member | source | states |
|---|---|---|
| Text.LowerIdempotent | supabase/functions/episode-generate/index.ts:121-131 | `toLowerCase` is idempotent and leaves no upper-case letter |
| Text.TrimIsMiddle | supabase/functions/story-create/index.ts:52 | `trim()` returns the middle of the string, with only whitespace cut from either end |
| Text.TrimTrimmed | supabase/functions/story-create/index.ts:52 | a string without edge whitespace is its own trim |
| Text.DecimalRoundTrip | supabase/functions/story-create/index.ts:389 | the decimal rendering of a number reads back as that number |
| Text.DecimalInjective | supabase/functions/story-create/index.ts:389 | different numbers render differently |
| CanonLifecycle.EvidenceEntry | supabase/functions/episode-finalize/index.ts:68 | the evidence entry starts with `episode:` |
| CanonLifecycle.EvidenceEntryInjective | supabase/functions/episode-finalize/index.ts:68 | equal entries have equal episode numbers and equal evidence texts |
| CanonLifecycle.Touch | supabase/functions/episode-finalize/index.ts:64-78 | the entry is recorded once; the status moves at most one step; tentative becomes confirmed iff there are at least 2 distinct entries, and confirmed becomes locked iff there are at least 3 |
| CanonLifecycle.SingleEntryCount | supabase/functions/episode-finalize/index.ts:92-99 | touching a fresh item leaves it tentative with its one entry |
| CanonLifecycle.FindByValue | supabase/functions/episode-finalize/index.ts:93 | the index found is the first item with that value, or there is none |
| CanonLifecycle.TouchInList | supabase/functions/episode-finalize/index.ts:92-99 | a list hit keeps the existing values in place and appends one item exactly when no item has the hit's value |
| CanonLifecycle.ApplyHit | supabase/functions/episode-finalize/index.ts:80-100 | a core hit leaves the lists alone, a list hit leaves the core and every other category alone |
| CanonLifecycle.ApplyHits | supabase/functions/episode-finalize/index.ts:80-100 | core-only batches never touch the lists, and list-only batches never touch the core |
| CanonLifecycle.CanonUpdated | supabase/functions/episode-finalize/index.ts:53-103 | only the flexible canon changes, it exists afterwards iff it existed before, and no hits change nothing |
| CanonLifecycle.ApplyFlexibleCanonUpdates | supabase/functions/episode-finalize/index.ts:53-103 | the hit loop returns exactly the profile of the in-order fold of the hits |
| CanonLifecycle.ApplyHitStep | supabase/functions/episode-finalize/index.ts:81-99 | one loop iteration applies exactly one hit |
| CanonLifecycle.ApplyHitsSnoc | supabase/functions/episode-finalize/index.ts:80-100 | one more hit is one more loop iteration |
| CanonLifecycle.PushThenTouch | supabase/functions/episode-finalize/index.ts:94-99 | pushing a new item and touching it in place is appending the touched item |
| CanonLifecycle.LockedCoreUnchanged | supabase/functions/episode-finalize/index.ts:81-89 | a locked core conflict keeps its value and its locked status under any hit |
| CanonLifecycle.CoreConflictReplaced | supabase/functions/episode-finalize/index.ts:82-89 | an unlocked core conflict with a different value is replaced by a fresh item carrying only this entry; the lists are untouched |
| CanonLifecycle.ListHitEffect | supabase/functions/episode-finalize/index.ts:92-99 | a list hit touches the first item with that value, or appends a fresh touched item; other categories and the core are untouched |
| CanonLifecycle.RepeatedTouchKeepsEvidence | supabase/functions/episode-finalize/index.ts:69-71 | a second touch with the same entry never grows the evidence |
| CanonLifecycle.DistinctCountNoDup | supabase/functions/episode-finalize/index.ts:72 | without duplicates, the `Set` size is the length |
| CanonLifecycle.TouchKeepsConsistent | supabase/functions/episode-finalize/index.ts:64-78 | a touch keeps the evidence duplicate-free and the status equal to the one earned by the evidence count |
| CanonLifecycle.TouchPresentIsIdentity | supabase/functions/episode-finalize/index.ts:69-77 | on a consistent item, touching with a recorded entry changes nothing |
| CanonLifecycle.FreshItemConsistent | supabase/functions/episode-finalize/index.ts:95 | a fresh item is consistent |
| CanonLifecycle.TouchInListKeepsConsistent | supabase/functions/episode-finalize/index.ts:92-99 | a list hit keeps every item of the list consistent |
| CanonLifecycle.ApplyHitKeepsConsistent | supabase/functions/episode-finalize/index.ts:80-100 | one hit keeps the whole flexible canon consistent |
| CanonLifecycle.ApplyHitsKeepsConsistent | supabase/functions/episode-finalize/index.ts:80-100 | a whole batch keeps the flexible canon consistent |
| CanonLifecycle.TouchInListIdempotent | supabase/functions/episode-finalize/index.ts:92-99 | replaying a list hit is a no-op on a consistent list |
| CanonLifecycle.ApplyHitIdempotent | supabase/functions/episode-finalize/index.ts:80-100 | replaying a hit in the same episode is a no-op on a consistent canon |
| CanonLifecycle.ApplyHitGrows | supabase/functions/episode-finalize/index.ts:80-100 | lists only grow, and each item's evidence only gains entries at its end |
| CanonLifecycle.ListsGrowTransitive | supabase/functions/episode-finalize/index.ts:80-100 | growth composes across hits |
| CanonLifecycle.ApplyHitsGrows | supabase/functions/episode-finalize/index.ts:80-100 | a batch never removes an item or an evidence entry |
| CanonLifecycle.ApplyHitsLockedCore | supabase/functions/episode-finalize/index.ts:81-89 | a locked core conflict keeps its value and stays locked through a batch |
| CanonLifecycle.ApplyHitsKeepsValuesUnique | supabase/functions/episode-finalize/index.ts:92-99 | hits never add a second item with a value the list already holds |
| CanonLifecycle.CanonUpdateTouchesOnlyFlexible | supabase/functions/episode-finalize/index.ts:58-62 | only `canon.flexible` differs from the input profile, and a profile without it is returned unchanged |
| SnapshotMerger.IndexOf | supabase/functions/episode-generate/index.ts:234 | the first index holding the item, or -1 exactly when it is absent |
| SnapshotMerger.RemoveFirst | supabase/functions/episode-generate/index.ts:234-237 | one element shorter exactly when the item is present, and no new element |
| SnapshotMerger.ApplyInventoryDelta | supabase/functions/episode-generate/index.ts:225-246 | the list changes length by at most one, and an applied add or update leaves the item listed |
| SnapshotMerger.ApplyInventoryDeltas | supabase/functions/episode-generate/index.ts:221-247 | each delta adds at most one item |
| SnapshotMerger.AddThreads | supabase/functions/episode-generate/index.ts:251-255 | every base thread stays, and every thread comes from the base or the adds |
| SnapshotMerger.ResolveThreads | supabase/functions/episode-generate/index.ts:256-261 | resolving never grows the list or adds a thread |
| SnapshotMerger.Merged | supabase/functions/episode-generate/index.ts:213-271 | the snapshot's inventory grows by at most one per delta, and its threads come from the base or the adds |
| SnapshotMerger.ApplyDeltaStep | supabase/functions/episode-generate/index.ts:225-246 | one loop iteration applies exactly one inventory delta |
| SnapshotMerger.ApplyInventoryLoop | supabase/functions/episode-generate/index.ts:221-247 | the inventory loop yields the in-order fold of the deltas |
| SnapshotMerger.AddThreadsLoop | supabase/functions/episode-generate/index.ts:251-255 | the add loop yields the in-order fold of the adds |
| SnapshotMerger.ResolveThreadsLoop | supabase/functions/episode-generate/index.ts:256-261 | the resolve loop yields the in-order fold of the resolves |
| SnapshotMerger.BuildStateSnapshot | supabase/functions/episode-generate/index.ts:213-272 | the snapshot takes time, location and characters from the update, else from the base, and holds the merged lists |
| SnapshotMerger.RemoveFirstEffect | supabase/functions/episode-generate/index.ts:234-237 | `splice(indexOf)` removes exactly the first occurrence (multiset minus one), and an absent item changes nothing |
| SnapshotMerger.InventoryAdd | supabase/functions/episode-generate/index.ts:229-232 | `add` appends an absent item and leaves a present one alone |
| SnapshotMerger.InventoryUpdate | supabase/functions/episode-generate/index.ts:238-245 | `update` of a present item leaves the list unchanged, and of an absent item appends it |
| SnapshotMerger.InventoryRemove | supabase/functions/episode-generate/index.ts:233-237 | `remove` drops one copy of a present item and ignores an absent one |
| SnapshotMerger.InventorySkips | supabase/functions/episode-generate/index.ts:225-227 | a delta with a missing or empty item, or an unknown op, changes nothing |
| SnapshotMerger.RemoveFirstNoDup | supabase/functions/episode-generate/index.ts:234-237 | on a duplicate-free list, removal deletes the item and keeps everything else |
| SnapshotMerger.InventoryDeltaAsSet | supabase/functions/episode-generate/index.ts:224-246 | on a duplicate-free inventory, each delta acts as set insertion or deletion |
| SnapshotMerger.InventoryDeltasNoDup | supabase/functions/episode-generate/index.ts:224-246 | a duplicate-free inventory stays duplicate-free |
| SnapshotMerger.InventoryDeltasAsSet | supabase/functions/episode-generate/index.ts:221-247 | on a duplicate-free inventory the delta loop computes the set fold `InventorySet` (insert on add and update, delete on remove, skip otherwise) and stays duplicate-free |
| SnapshotMerger.AddThreadsAsSet | supabase/functions/episode-generate/index.ts:251-255 | adding threads is set union with the non-empty adds, without duplicates |
| SnapshotMerger.ResolveThreadsAsSet | supabase/functions/episode-generate/index.ts:256-261 | resolving threads is set difference, without duplicates |
| SnapshotMerger.ResolveTwiceRemovesOnce | supabase/functions/episode-generate/index.ts:256-261 | resolving a thread twice removes it once |
| SnapshotMerger.MergedMeaning | supabase/functions/episode-generate/index.ts:213-272 | time, location and characters come from the update, else the base, else the empty default; for duplicate-free base lists the inventory, as a set, is `InventorySet` of the base, the open threads are the base plus the non-empty adds minus the resolves, and both stay duplicate-free |
| SnapshotMerger.MergeWithoutDeltasCopiesBase | supabase/functions/episode-generate/index.ts:214-220 | without deltas the base lists are copied unchanged |
| SafetyPolicy.ChoiceParts | supabase/functions/episode-generate/index.ts:106-108 | three parts per choice |
| SafetyPolicy.NonEmpty | supabase/functions/episode-generate/index.ts:112 | `filter(Boolean)` keeps exactly the non-empty parts |
| SafetyPolicy.CollectOutputText | supabase/functions/episode-generate/index.ts:103-113 | the scanned text is empty iff every part is empty, and starts with the title when there is one |
| SafetyPolicy.FramedPartWord | supabase/functions/episode-generate/index.ts:112 | a word match inside a part survives framing by the joining spaces |
| SafetyPolicy.PartWordInJoin | supabase/functions/episode-generate/index.ts:112 | a word match in one part is a word match in the joined text |
| SafetyPolicy.CorpusCoversEveryPart | supabase/functions/episode-generate/index.ts:103-113 | any phrase matched in any title, text, choice field or assumption is matched in the scanned corpus |
| SafetyPolicy.AnyWordIff | supabase/functions/episode-generate/index.ts:183 | `patterns.some(test)` holds iff some pattern matches |
| SafetyPolicy.HardForbiddenIssues | supabase/functions/episode-generate/index.ts:130-157 | at most one issue per configured topic |
| SafetyPolicy.TopicIssue | supabase/functions/episode-generate/index.ts:130-157 | a topic raises at most one issue, and it starts with "Hard forbidden topic: " |
| SafetyPolicy.RatingIssues | supabase/functions/episode-generate/index.ts:182-209 | at most two issues, only the four rating messages, and none for a rating other than PG, PG-13 and ADULT |
| SafetyPolicy.CollectRatingIssues | supabase/functions/episode-generate/index.ts:115-211 | at most one issue per configured topic plus two rating issues |
| SafetyPolicy.TopicAtMostOneIssue | supabase/functions/episode-generate/index.ts:130-157 | one topic raises at most one issue |
| SafetyPolicy.HateTopicIff | supabase/functions/episode-generate/index.ts:132-137 | the topic "hate" (any case) is flagged iff "hate speech" or "hate crime" occurs as whole words |
| SafetyPolicy.OtherTopicIff | supabase/functions/episode-generate/index.ts:154-156 | any other topic is flagged iff its lower-cased text is a substring of the lower-cased corpus |
| SafetyPolicy.EmptyTopicAlwaysFlagged | supabase/functions/episode-generate/index.ts:154-156 | an empty topic is always flagged |
| SafetyPolicy.OtherRatingOnlyHardIssues | supabase/functions/episode-generate/index.ts:182-209 | a rating other than PG, PG-13 and ADULT adds no rating issue |
| SafetyPolicy.HardIssuesArePrefixed | supabase/functions/episode-generate/index.ts:134-155 | every topic issue reads `Hard forbidden topic: …` |
| SafetyPolicy.RatingTiers | supabase/functions/episode-generate/index.ts:182-209 | PG and PG-13 check sex and gore only; ADULT checks torture and self-harm instructions only |
| SafetyPolicy.HardIssuesAreNotRated | supabase/functions/episode-generate/index.ts:134-155 | no topic issue equals a rating issue |
| SafetyPolicy.RatedIssueTier | supabase/functions/episode-generate/index.ts:182-209 | a sex or gore issue implies PG or PG-13, a torture or self-harm issue implies ADULT |
| SafetyPolicy.IssueCountBound | supabase/functions/episode-generate/index.ts:115-211 | at most one issue per topic plus two rating issues |
| SafetyPolicy.WordCharsInText | supabase/functions/episode-generate/index.ts:133 | every character of a whole-word match occurs in the text |
| SafetyPolicy.NudeBeachUnderPG | supabase/functions/episode-generate/index.ts:182-185 | "a nude beach scene" under PG raises the explicit-sexual-content issue |
| SafetyPolicy.BareHateNotFlagged | supabase/functions/episode-generate/index.ts:132-137 | the word "hate" alone does not raise the hate topic |
| SafetyPolicy.GraphicTortureUnderAdult | supabase/functions/episode-generate/index.ts:200-203 | "graphic torture" under ADULT raises the torture issue |
| OpenAI.ExtractSpec | supabase/functions/_shared/openai.ts:61-85 | a string `output_text` wins; otherwise a refusal anywhere fails; otherwise it succeeds exactly with the non-empty join of the chunks |
| OpenAI.Chunks | supabase/functions/_shared/openai.ts:66-78 | the reference definition of `chunks`: the `output_text` fragments' texts, item by item; its meaning is stated by `OpenAI.ChunksMembers` and `OpenAI.ChunksAppend` |
| OpenAI.Refuses | supabase/functions/_shared/openai.ts:74-76 | the reference definition of a refusal anywhere in the output; `OpenAI.ExtractSpec` and `OpenAI.RefusalOverridesText` state its effect |
| OpenAI.CollectFragments | supabase/functions/_shared/openai.ts:70-77 | the inner loop reports a refusal iff some fragment is one, and otherwise appends exactly the item's chunks |
| OpenAI.ExtractOutputText | supabase/functions/_shared/openai.ts:61-85 | the nested loops with their early throw return exactly the specified text or error |
| OpenAI.FragmentChunksAppend | supabase/functions/_shared/openai.ts:70-77 | chunks of concatenated fragments concatenate in order |
| OpenAI.ChunksAppend | supabase/functions/_shared/openai.ts:68-78 | chunks of concatenated items concatenate in order |
| OpenAI.FragmentChunksMembers | supabase/functions/_shared/openai.ts:71-73 | a chunk is exactly the text of an `output_text` fragment with string text |
| OpenAI.ChunksMembers | supabase/functions/_shared/openai.ts:66-78 | the collected text comes from those fragments of those items and nowhere else |
| OpenAI.RefusalOverridesText | supabase/functions/_shared/openai.ts:74-76 | a refusal after some text still fails |
| OpenAI.MissingOutputHasNoText | supabase/functions/_shared/openai.ts:66-82 | a reply without `output` fails with "No output text found" |
| OpenAI.EmptyChunkIsText | supabase/functions/_shared/openai.ts:80-84 | one empty chunk is a successful empty text |
| OpenAI.BuildPayload | supabase/functions/_shared/openai.ts:25-48 | system and user messages, a strict json_schema format, the bearer header, and max tokens defaulting to 1200 |
| OpenAI.CreateStructuredOutput | supabase/functions/_shared/openai.ts:12-59 | no request without a key; a non-OK reply throws its message or the default; success means extraction and parsing succeeded |
| Validation.ValidateSchema | supabase/functions/_shared/validation.ts:5-12 | the verdict is kept, and missing errors become [] |
| Validation.FormatAjvError | supabase/functions/_shared/validation.ts:15-18 | the line is the path, one space, then the message |
| Validation.FormatAjvErrors | supabase/functions/_shared/validation.ts:14-19 | one line per error, in order |
| Validation.RootPathRendered | supabase/functions/_shared/validation.ts:16 | a root error line starts with "(root) " |
| Validation.MissingMessageRendered | supabase/functions/_shared/validation.ts:17 | a message-less error line ends with " is invalid" |
| Validation.FormatSplitsBack | supabase/functions/_shared/validation.ts:17 | a line splits back at its first space into path and message when the path has no space |
| Validation.FormatInjective | supabase/functions/_shared/validation.ts:15-18 | distinct rendered (path, message) pairs with space-free paths give distinct lines |
| Store.WithRecap | supabase/functions/episode-finalize/index.ts:245-254 | only the row with that id gets the recap and the snapshot |
| Store.WithEpisodeNumber | supabase/functions/episode-generate/index.ts:431-436 | only the session with that id gets the new episode number |
| Store.Database.UpsertUser | supabase/functions/story-create/index.ts:302-316 | on success the user row is set by id; on a fault nothing changes |
| Store.Database.InsertInput | supabase/functions/story-create/index.ts:318-331 | on success the row is appended; nothing else changes |
| Store.Database.InsertStory | supabase/functions/story-create/index.ts:348-363 | on success the row is appended; nothing else changes |
| Store.Database.InsertProfile | supabase/functions/episode-finalize/index.ts:228-236 | on success the row is appended; nothing else changes |
| Store.Database.InsertNotes | supabase/functions/episode-finalize/index.ts:280-292 | on success the rows are appended; nothing else changes |
| Store.Database.InsertEpisode | supabase/functions/episode-generate/index.ts:410-422 | on success the row is appended; nothing else changes |
| Store.Database.UpdateEpisodeRecap | supabase/functions/episode-finalize/index.ts:245-254 | on success the episode's recap and snapshot are set; nothing else changes |
| Store.Database.InsertSession | supabase/functions/story-create/index.ts:434-442 | on success the row is appended; nothing else changes |
| Store.Database.UpdateSessionEpisode | supabase/functions/episode-generate/index.ts:431-436 | on success the session's episode number is set; nothing else changes |
| EpisodeGenerate.EpisodeId | supabase/functions/episode-generate/index.ts:314 | the id is the story id, a dash, then the episode number |
| EpisodeGenerate.SegmentGoal | supabase/functions/episode-generate/index.ts:315-318 | the request's goal wins, then the profile's dynamic-state goal, then "Advance the plot" |
| EpisodeGenerate.AttemptIssues | supabase/functions/episode-generate/index.ts:367-383 | the warning notes come first, and there are at most one issue per check and per topic plus two |
| EpisodeGenerate.RequestFor | supabase/functions/episode-generate/index.ts:326-338 | the first attempt sends the prompt; a later one is a repair carrying the previous draft and its issues; both carry the segment goal |
| EpisodeGenerate.WarnNotes | supabase/functions/episode-generate/index.ts:368-377 | no more notes than checks |
| EpisodeGenerate.RunFrom | supabase/functions/episode-generate/index.ts:326-388 | the loop from one attempt sends that attempt's request first and at most the remaining attempts |
| EpisodeGenerate.RunFromStep | supabase/functions/episode-generate/index.ts:326-388 | one loop iteration: provider error, schema error, clean draft, or a repair request with the draft's issues |
| EpisodeGenerate.Generation | supabase/functions/episode-generate/index.ts:322-395 | one or two requests, the first being the first-draft prompt |
| EpisodeGenerate.Attempt | supabase/functions/episode-generate/index.ts:324-394 | one attempt stops the loop with the specified outcome for a provider failure, a schema failure or a clean draft, and otherwise hands on the draft and its non-empty issues, which give the repair request or the final safety failure |
| EpisodeGenerate.GenerateWithRepair | supabase/functions/episode-generate/index.ts:322-395 | the loop's outcome and its requests are exactly the specified generation |
| EpisodeGenerate.WarnNotesMembers | supabase/functions/episode-generate/index.ts:368-377 | the notes kept are exactly those of warning checks |
| EpisodeGenerate.CleanAttempt | supabase/functions/episode-generate/index.ts:367-387 | an attempt is clean iff no check warns and the rating scan finds nothing |
| EpisodeGenerate.CallsBounded | supabase/functions/episode-generate/index.ts:324-326 | one or two provider calls, the first for the first draft |
| EpisodeGenerate.CleanFirstDraftAccepted | supabase/functions/episode-generate/index.ts:385-387 | a clean, valid first draft is accepted with no repair |
| EpisodeGenerate.ProviderErrorNoRetry | supabase/functions/episode-generate/index.ts:341-351 | a provider error ends the loop, labelled "generate" on the first call and "repair" on the second |
| EpisodeGenerate.SchemaErrorNoRetry | supabase/functions/episode-generate/index.ts:353-365 | a schema failure ends the loop with the formatted errors of the last draft |
| EpisodeGenerate.RepairCarriesFirstIssues | supabase/functions/episode-generate/index.ts:328-338 | the repair request carries the first draft and exactly its issues |
| EpisodeGenerate.ExhaustionReportsLastIssues | supabase/functions/episode-generate/index.ts:367-395 | after two unclean drafts, the failure reports only the second draft's issues |
| EpisodeGenerate.AcceptedIsClean | supabase/functions/episode-generate/index.ts:385-390 | an accepted episode is the last draft; it is valid and raises no issue |
| EpisodeGenerate.AcceptedRow | supabase/functions/episode-generate/index.ts:407-422 | the stored row carries the story, the episode number, the draft's title, text and choices, no recap, and the merged snapshot |
| EpisodeGenerate.HandleGenerate | supabase/functions/episode-generate/index.ts:290-445 | the rejections in order (400 missing, 400 missing profile, 400 invalid profile, loop errors, 500 store, 500 insert fault); only an accepted episode is stored (201); on a 201 with a non-empty session id and no session fault the session gets the episode number, and otherwise no session changes |
| EpisodeFinalize.WithFinalState | supabase/functions/episode-finalize/index.ts:213-223 | only the dynamic state is replaced, and only when there is one |
| EpisodeFinalize.NextVersion | supabase/functions/episode-finalize/index.ts:225-226 | the next version exceeds the current one, and is 2 for an unversioned profile |
| EpisodeFinalize.VersionedRow | supabase/functions/episode-finalize/index.ts:228-236 | the column and the document carry the same bumped version |
| EpisodeFinalize.OverrideFields | supabase/functions/episode-finalize/index.ts:213-223 | the finalizer's location, characters, inventory and threads replace the state; its time, when present, goes to `time`, else the old `time` stays; `current_time`, the segment goal and the cliffhanger seed are kept |
| EpisodeFinalize.FinalizedTimeNotRead | supabase/functions/episode-finalize/index.ts:216-217 | the next merge's time ignores the finalizer's time |
| EpisodeFinalize.NewFacts | supabase/functions/episode-finalize/index.ts:276-278 | no more facts than given |
| EpisodeFinalize.FactRows | supabase/functions/episode-finalize/index.ts:283-289 | one active note per fact, introduced in this episode |
| EpisodeFinalize.ActiveNotes | supabase/functions/episode-finalize/index.ts:266-271 | exactly the story's active notes |
| EpisodeFinalize.KeysOf | supabase/functions/episode-finalize/index.ts:272-274 | exactly the keys of the notes |
| EpisodeFinalize.KeysOfSnoc | supabase/functions/episode-finalize/index.ts:272-274 | one more note adds its key |
| EpisodeFinalize.CollectKeys | supabase/functions/episode-finalize/index.ts:266-274 | the loop collects exactly the keys of the selected notes, and none when the select returns nothing |
| EpisodeFinalize.ExistingKeys | supabase/functions/episode-finalize/index.ts:266-274 | exactly the keys of the story's active notes, and none when the query fails |
| EpisodeFinalize.FactsToInsert | supabase/functions/episode-finalize/index.ts:276-292 | every inserted note is an active note of this story and episode whose key is not an existing key |
| EpisodeFinalize.NewFactsMembers | supabase/functions/episode-finalize/index.ts:276-278 | a fact is kept iff its key is not an existing key |
| EpisodeFinalize.NewFactsAppend | supabase/functions/episode-finalize/index.ts:276-278 | the filter keeps the order |
| EpisodeFinalize.BatchDuplicatesKept | supabase/functions/episode-finalize/index.ts:276-278 | two new facts with one key are both kept |
| EpisodeFinalize.PersistFinalization | supabase/functions/episode-finalize/index.ts:205-310 | a profile fault is a 500 that writes nothing; a recap fault is a 500 after the profile row only; a notes fault with facts to insert is a 500 after profile and recap; otherwise 200 with the profile row, the recap and exactly the new facts' notes |
| EpisodeFinalize.HandleFinalize | supabase/functions/episode-finalize/index.ts:121-310 | the rejections in order (400 missing, 400 invalid profile, 500 provider, 500 output, 500 store) write nothing; once every check passes, each write fault gives its 500 and leaves the later tables alone, and with no fault the answer is 200 with the profile row, the recap and the new facts' notes |
| StoryCreate.Seed | supabase/functions/story-create/index.ts:112-131 | a seeded item is tentative with no evidence |
| StoryCreate.MainCharacterName | supabase/functions/story-create/index.ts:76-78 | "Kerem" iff the lower-cased genre contains "noir", else "Aylin" |
| StoryCreate.BuildStoryProfile | supabase/functions/story-create/index.ts:75-146 | version 1, the request's language, genre and rating, the two world rules and three forbidden topics; the main character is Kerem iff the genre contains "noir" (any case), else Aylin, and is the one character present |
| StoryCreate.InitialCanonTentative | supabase/functions/story-create/index.ts:112-131 | every seeded flexible item is tentative with no evidence |
| StoryCreate.CreatedCanonStaysConsistent | supabase/functions/story-create/index.ts:112-131 | a new story's flexible canon is consistent, and stays so through any sequence of finalizations |
| StoryCreate.FinalizeAllConsistent | supabase/functions/episode-finalize/index.ts:53-103 | successive finalizations keep a consistent canon consistent |
| StoryCreate.RuleKey | supabase/functions/story-create/index.ts:389 | every key starts with `world_rule_` |
| StoryCreate.NotesFrom | supabase/functions/story-create/index.ts:388-394 | one active episode-1 note per rule, keyed by its 1-based position |
| StoryCreate.ContinuityNotes | supabase/functions/story-create/index.ts:387-394 | one active episode-1 note per rule, keyed by its 1-based position |
| StoryCreate.RuleKeysDistinct | supabase/functions/story-create/index.ts:389 | different positions give different keys |
| StoryCreate.ContinuityKeysUnique | supabase/functions/story-create/index.ts:387-394 | the seeded notes have pairwise distinct keys |
| StoryCreate.GetToken | supabase/functions/story-create/index.ts:47-53 | a token exists only after "Bearer ", and is non-empty and trimmed |
| StoryCreate.GetTokenRoundTrip | supabase/functions/story-create/index.ts:47-53 | "Bearer " plus a trimmed non-empty token yields that token |
| StoryCreate.NoBearerNoToken | supabase/functions/story-create/index.ts:48-51 | no header, or another scheme, gives no token |
| StoryCreate.ResolveUserId | supabase/functions/story-create/index.ts:275-296 | the token's user wins; the body's `user_id` is used only for an anonymous caller; no user iff neither applies |
| StoryCreate.BodyUserNeedsAnonymous | supabase/functions/story-create/index.ts:290-293 | without `is_anonymous`, only the token's user can be resolved |
| StoryCreate.EpisodeOneRow | supabase/functions/story-create/index.ts:411-424 | episode 1 has no recap and the profile's dynamic state as snapshot |
| StoryCreate.ResolveUser | supabase/functions/story-create/index.ts:275-298 | the step-by-step assignment resolves the specified user |
| StoryCreate.PersistOutcome | supabase/functions/story-create/index.ts:300-458 | 201 iff no write and no model call fails; a 400 iff the user upsert fails; every other failure is a 500 with one detail |
| StoryCreate.PersistStory | supabase/functions/story-create/index.ts:300-458 | the response is the first failing step's (`PersistOutcome`); a user fault is a 400 that writes nothing; each later fault leaves its own table and every later one unchanged; 201 means every row was written |
| StoryCreate.HandleCreate | supabase/functions/story-create/index.ts:243-458 | 400 missing fields, 500 invalid profile, 500 store not configured and 401 no user write no row; once a user is resolved the response is `PersistOutcome`, so 201 exactly when no write and no model call fails, with all seven writes done |
| StoryCache.Get | mobile/src/services/story-cache.ts:50-60 | device storage answers when it can and holds the key; otherwise the memory map answers |
| StoryCache.Set | mobile/src/services/story-cache.ts:62-70 | the write goes to device storage, or to memory only when storage throws |
| StoryCache.Remove | mobile/src/services/story-cache.ts:72-80 | the removal hits device storage, or memory only when storage throws |
| StoryCache.SetThenGet | mobile/src/services/story-cache.ts:50-70 | a value set is read back, except that a failed write is shadowed by an older stored value |
| StoryCache.OtherKeysUntouched | mobile/src/services/story-cache.ts:50-80 | writes and removals of one key do not change another |
| StoryCache.ClearSession | mobile/src/services/story-cache.ts:107-110 | the cached session is reset and the list cache kept |
| StoryCache.WriteSession | mobile/src/services/story-cache.ts:85-88 | the session is cached; with working storage it reads back from storage, otherwise it sits in memory |
| StoryCache.WriteList | mobile/src/services/story-cache.ts:112-115 | the list is cached; with working storage it reads back from storage, otherwise it sits in memory |
| StoryCache.ReadSession | mobile/src/services/story-cache.ts:90-105 | the cached session when set; a session read back is cached; storage changes only by removing a corrupt text |
| StoryCache.ReadList | mobile/src/services/story-cache.ts:117-132 | the cached list when set; a list read back is cached; storage changes only by removing a corrupt text, and then [] is returned |
| StoryCache.SessionSetThenGet | mobile/src/services/story-cache.ts:85-93 | after `setStorySession(s)`, `getStorySession` returns `s` |
| StoryCache.SessionSurvivesRestart | mobile/src/services/story-cache.ts:85-105 | a session stored with working storage is read back after a restart |
| StoryCache.ClearedSessionGone | mobile/src/services/story-cache.ts:107-110 | after a successful clear, no session is read unless memory holds one |
| StoryCache.ClearedSessionResurfaces | mobile/src/services/story-cache.ts:62-110 | a session written to memory comes back after a successful clear |
| StoryCache.NothingStoredEmptyList | mobile/src/services/story-cache.ts:121-124 | nothing stored reads as [] with no change |
| StoryCache.CorruptListRemoved | mobile/src/services/story-cache.ts:125-130 | a corrupt list reads as [] and is removed from storage |
| StoryCache.IndexFrom | mobile/src/services/story-cache.ts:136 | the first match from a position, or -1 iff none |
| StoryCache.IndexOfStory | mobile/src/services/story-cache.ts:136 | `findIndex` gives the first entry with the story id, or -1 iff none |
| StoryCache.WithoutStory | mobile/src/services/story-cache.ts:148 | the entries kept are exactly those of other stories |
| StoryCache.Upserted | mobile/src/services/story-cache.ts:134-143 | the item is listed, and the list grows by one exactly when its story was not listed |
| StoryCache.UpsertExisting | mobile/src/services/story-cache.ts:136-138 | an existing story is replaced at its index; the length and the other entries stay |
| StoryCache.UpsertNew | mobile/src/services/story-cache.ts:139-141 | a new story goes first, and the length grows by one |
| StoryCache.UpsertKeepsUnique | mobile/src/services/story-cache.ts:134-143 | the item is listed, and unique story ids stay unique |
| StoryCache.UpsertIdempotent | mobile/src/services/story-cache.ts:134-143 | upserting twice is upserting once |
| StoryCache.RemovalDistributes | mobile/src/services/story-cache.ts:148 | removal keeps the order of the remaining entries |
| StoryCache.RemovalOfAbsentIsIdentity | mobile/src/services/story-cache.ts:148 | removing an unlisted story changes nothing |
| StoryCache.RemovalKeepsUnique | mobile/src/services/story-cache.ts:148 | removal keeps ids unique |
| StoryCache.RemoveUndoesNewUpsert | mobile/src/services/story-cache.ts:134-150 | removing a story just added undoes the upsert |
| StoryCache.UpsertSpec | mobile/src/services/story-cache.ts:134-144 | the upserted list contains the item and is what is cached |
| StoryCache.RemoveSpec | mobile/src/services/story-cache.ts:146-151 | the filtered list has no entry of the story and is what is cached |
| StoryCache.UpsertCachedUnique | mobile/src/services/story-cache.ts:117-143 | an upsert into a cached list of unique stories keeps it unique |
| StoryCache.FindStoryIndex | mobile/src/services/story-cache.ts:136 | the scan finds the specified index |
| StoryCache.Cache.constructor | mobile/src/services/story-cache.ts:48-83 | an app start has empty memory and caches over what storage holds |
| StoryCache.Cache.GetItem | mobile/src/services/story-cache.ts:50-60 | the read is the specified lookup |
| StoryCache.Cache.SetItem | mobile/src/services/story-cache.ts:62-70 | the state is the specified write; the caches are untouched |
| StoryCache.Cache.RemoveItem | mobile/src/services/story-cache.ts:72-80 | the state is the specified removal; the caches are untouched |
| StoryCache.Cache.SetStorySession | mobile/src/services/story-cache.ts:85-88 | the session is cached and written |
| StoryCache.Cache.GetStorySession | mobile/src/services/story-cache.ts:90-105 | the answer and the new state are the specified read |
| StoryCache.Cache.ClearStorySession | mobile/src/services/story-cache.ts:107-110 | the cache is reset and the key removed |
| StoryCache.Cache.SetStoryList | mobile/src/services/story-cache.ts:112-115 | the list is cached and written |
| StoryCache.Cache.GetStoryList | mobile/src/services/story-cache.ts:117-132 | the answer and the new state are the specified read |
| StoryCache.Cache.UpsertStoryListItem | mobile/src/services/story-cache.ts:134-144 | the answer and the new state are the specified upsert |
| StoryCache.Cache.RemoveStoryFromList | mobile/src/services/story-cache.ts:146-151 | the answer and the new state are the specified removal |

## Left out

- HTTP plumbing: CORS, the `OPTIONS`/405 branches, `req.json()` failing (400 "Invalid JSON
  body"), `jsonResponse` and the environment lookups. The store configuration is one boolean.
- The response bodies returned on success are not modelled: the stored rows, the
  `continuity_notes ?? []` echo and the `output` echo.
- The network call inside `createStructuredOutput`, `response.json()` throwing, and
  `JSON.parse`/`JSON.stringify`. These are the parameters `send`, `parse` and `Codec`.
- `validateSchema`'s Ajv compilation: the verdict and the error list are inputs.
- The prompt builders (`buildPrompt`, `buildCreationPrompt`) and the model names, system
  prompts and token limits each caller passes. The repair request keeps the issues, the
  previous draft and the segment goal, which are what the loop decides.
- `temperature` and its default (a floating-point value sent to the provider).
- The console logging and the elapsed-time measurement in story creation.
- `String(topic)`, `String(delta.item)` and `Number(version)`: topics, items and versions are
  modelled as strings and integers. Non-string values are not modelled.
- SafetyPolicy.CollectRatingIssues: `/\b…\b/i` is a whole-word match over ASCII word
  characters after ASCII lower-casing. Unicode case folding and Unicode letters are not
  modelled. `self[- ]?harm`, `dismember(ed|ment)?` and the other alternations are written
  out as lists of phrases.
- StoryCreate.GetToken: `trim` removes ASCII whitespace and the no-break space only, not
  every Unicode space character.
- Episode numbers are `nat`, so negative and fractional numbers are not modelled. A 0 is
  rejected as a missing field, as `!episode_number` does.
- StoryCache.Cache.UpsertStoryListItem: the list is a value, so the in-place `list[index] =
  item`/`unshift` on the array that is also `cachedList` is not modelled as aliasing. The
  code stores that same array again, so the resulting state is the same.
- StoryCache: a stored text that `JSON.parse` accepts but that is not a story or a list (a
  number, say) is not modelled. The codec's decoder yields a document, `null`, or a failure.
- Concurrency between handler invocations and the absence of transactions: each handler runs
  alone over the database, and a failed write leaves the earlier writes in place, as the code
  does.
- In these places the model follows the code as written:
  - After two unclean drafts, the reported issues are those of the second draft only. The
    code resets `issues` at the start of each attempt (episode-generate/index.ts:367).
  - An inventory `update` of a present item writes the same string back, so the list is
    unchanged.
  - Under PG-13 the scan checks sexual content and gore only, so "graphic torture" raises
    nothing.
  - Finalize stores the finalizer's time under `time`, not under `current_time`.
- OpenAI.Chunks and OpenAI.Refuses carry no postcondition of their own. Their meaning is stated
  by `OpenAI.ChunksMembers`, `OpenAI.ChunksAppend` and `OpenAI.ExtractSpec`. A quantified
  postcondition on them would be unfolded at every use inside `ExtractOutputText`.
