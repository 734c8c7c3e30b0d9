/**
 * The `episode-finalize` edge function after its flexible-canon update: the
 * dynamic-state override, the version bump, the recap write and the
 * insertion of the persistent facts that are not yet active notes.
 *
 * The finalizer model call and both schema validators are parameters; each
 * database write takes the fault it may meet.
 */
module EpisodeFinalize {
  import opened Wrappers
  import opened Text
  import opened StoryTypes
  import opened Validation
  import opened CanonLifecycle
  import opened SnapshotMerger
  import opened Store

  datatype Fact = Fact(key: string, value: string)

  /** The finalizer's schema-conforming answer. */
  datatype FinalizerOutput = FinalizerOutput(
    summaryBullets: seq<string>,
    openThreads: seq<string>,
    stateSnapshot: FinalSnapshot,
    newFacts: seq<Fact>,
    hits: seq<Hit>)

  /** The request body; a missing or non-object `story_profile` is `None`. */
  datatype FinalizeInput = FinalizeInput(
    storyId: string,
    episodeId: string,
    episodeNumber: nat,
    episodeText: string,
    storyProfile: Option<StoryProfile>)

  // ---------------------------------------------------------------------
  // Dynamic state and version
  // ---------------------------------------------------------------------

  /**
   * The override of `flow.dynamic_state`: the snapshot's time (or the old
   * `time`) goes to the `time` key, location, characters, inventory and open
   * threads are replaced, every other key is kept. A profile without a
   * dynamic state is left alone.
   */
  function WithFinalState(profile: StoryProfile, out: FinalizerOutput): (r: StoryProfile)
    ensures r.dynamicState.None? <==> profile.dynamicState.None?
    ensures r == profile.(dynamicState := r.dynamicState)
  {
    match profile.dynamicState
    case None => profile
    case Some(ds) =>
      var snap := out.stateSnapshot;
      profile.(dynamicState := Some(ds.(
        time := if snap.time.Some? then snap.time else ds.time,
        currentLocationId := Some(snap.locationId),
        charactersPresent := Some(snap.charactersPresent),
        inventory := Some(snap.inventory),
        openThreads := Some(out.openThreads))))
  }

  /** `Number(version ?? 1) + 1`. */
  function NextVersion(profile: StoryProfile): (v: int)
    ensures v > profile.version.GetOr(1)
    ensures profile.version.None? ==> v == 2
  {
    profile.version.GetOr(1) + 1
  }

  /** The stored row: the bumped version in the column and in the document. */
  function VersionedRow(storyId: string, profile: StoryProfile): (row: ProfileRow)
    ensures row.profile.version == Some(row.version)
    ensures row.version == NextVersion(profile)
    ensures row.profile == profile.(version := Some(NextVersion(profile)))
  {
    var next := NextVersion(profile);
    ProfileRow(storyId, next, profile.(version := Some(next)))
  }

  /** The override writes the finalizer's time under `time` and never touches `current_time`. */
  lemma OverrideFields(profile: StoryProfile, out: FinalizerOutput)
    requires profile.dynamicState.Some?
    ensures var ds := profile.dynamicState.value; var ds' := WithFinalState(profile, out).dynamicState.value;
      && ds'.currentTime == ds.currentTime
      && ds'.segmentGoal == ds.segmentGoal && ds'.cliffhangerSeed == ds.cliffhangerSeed
      && (out.stateSnapshot.time.Some? ==> ds'.time == out.stateSnapshot.time)
      && (out.stateSnapshot.time.None? ==> ds'.time == ds.time)
      && ds'.currentLocationId == Some(out.stateSnapshot.locationId)
      && ds'.charactersPresent == Some(out.stateSnapshot.charactersPresent)
      && ds'.inventory == Some(out.stateSnapshot.inventory)
      && ds'.openThreads == Some(out.openThreads)
  {
  }

  /**
   * The time the finalizer records is not the one the episode generator
   * reads: the next merged snapshot takes `current_time`, so without a time
   * in the state update it shows the time from before the finalizer ran.
   */
  lemma FinalizedTimeNotRead(profile: StoryProfile, out: FinalizerOutput, update: StateUpdate)
    requires profile.dynamicState.Some? && update.time.None?
    ensures Merged(WithFinalState(profile, out).dynamicState.value, update).time
         == profile.dynamicState.value.currentTime.GetOr("")
  {
  }

  // ---------------------------------------------------------------------
  // Continuity facts
  // ---------------------------------------------------------------------

  /** `new_persistent_facts.filter(fact => !existingKeys.has(fact.key))`. */
  function NewFacts(facts: seq<Fact>, existing: set<string>): (r: seq<Fact>)
    ensures |r| <= |facts|
  {
    if facts == [] then []
    else (if facts[0].key in existing then [] else [facts[0]]) + NewFacts(facts[1..], existing)
  }

  /** The rows inserted for the new facts. */
  function FactRows(facts: seq<Fact>, storyId: string, episode: int): (rows: seq<NoteRow>)
    ensures |rows| == |facts|
    ensures forall i :: 0 <= i < |facts| ==>
      rows[i] == NoteRow(storyId, facts[i].key, facts[i].value, Active, episode)
  {
    if facts == [] then [] else [NoteRow(storyId, facts[0].key, facts[0].value, Active, episode)] + FactRows(facts[1..], storyId, episode)
  }

  /** The notes the existing-keys query returns: the active notes of the story. */
  function ActiveNotes(notes: seq<NoteRow>, storyId: string): (r: seq<NoteRow>)
    ensures forall n :: n in r <==> n in notes && n.storyId == storyId && n.status == Active
  {
    if notes == [] then []
    else (if notes[0].storyId == storyId && notes[0].status == Active then [notes[0]] else []) + ActiveNotes(notes[1..], storyId)
  }

  /** The keys of a list of notes. */
  function KeysOf(notes: seq<NoteRow>): (keys: set<string>)
    ensures forall k :: k in keys <==> exists n :: n in notes && n.key == k
  {
    set n | n in notes :: n.key
  }

  lemma KeysOfSnoc(notes: seq<NoteRow>, n: NoteRow)
    ensures KeysOf(notes + [n]) == KeysOf(notes) + {n.key}
  {
    assert forall m :: m in notes + [n] <==> m in notes || m == n;
  }

  /** The `for (const note of existingNotes ?? [])` loop that fills `existingKeys`. */
  method CollectKeys(selected: Option<seq<NoteRow>>) returns (existingKeys: set<string>)
    ensures existingKeys == KeysOf(selected.GetOr([]))
  {
    var rows := selected.GetOr([]);
    existingKeys := {};
    var i := 0;
    while i < |rows|
      invariant 0 <= i <= |rows|
      invariant existingKeys == KeysOf(rows[..i])
    {
      KeysOfSnoc(rows[..i], rows[i]);
      assert rows[..i + 1] == rows[..i] + [rows[i]];
      existingKeys := existingKeys + {rows[i].key};
      i := i + 1;
    }
    assert rows[..i] == rows;
  }

  /** A fact is kept exactly when its key is not an existing key. */
  lemma {:induction false} NewFactsMembers(facts: seq<Fact>, existing: set<string>, f: Fact)
    ensures f in NewFacts(facts, existing) <==> f in facts && f.key !in existing
  {
    if facts != [] {
      NewFactsMembers(facts[1..], existing, f);
      assert f in facts <==> f == facts[0] || f in facts[1..];
    }
  }

  /** The filter keeps the order: filtering a concatenation concatenates the filtered halves. */
  lemma {:induction false} NewFactsAppend(a: seq<Fact>, b: seq<Fact>, existing: set<string>)
    ensures NewFacts(a + b, existing) == NewFacts(a, existing) + NewFacts(b, existing)
  {
    if a == [] {
      assert a + b == b;
    } else {
      assert (a + b)[1..] == a[1..] + b;
      NewFactsAppend(a[1..], b, existing);
    }
  }

  /** Facts that repeat a key within one batch are both kept: only keys already stored are filtered. */
  lemma BatchDuplicatesKept(f: Fact, existing: set<string>)
    requires f.key !in existing
    ensures NewFacts([f, f], existing) == [f, f]
  {
    assert [f, f][1..] == [f];
  }

  // ---------------------------------------------------------------------
  // The handler
  // ---------------------------------------------------------------------

  const RequiredFieldsMessage := "Missing required fields: story_id, episode_id, episode_number, episode_text, story_profile"
  const ProfileInvalidMessage := "story_profile schema validation failed"
  const FinalizerFailedMessage := "Failed to generate finalizer output"
  const OutputInvalidMessage := "Finalizer output failed schema validation"
  const StoreConfigMessage := "Missing SUPABASE_URL or SUPABASE_SERVICE_ROLE_KEY"
  const ProfileStoreMessage := "Failed to store updated story profile"
  const RecapFailedMessage := "Failed to update episode recap/state"
  const NotesFailedMessage := "Failed to insert continuity notes"

  predicate MissingRequired(input: FinalizeInput) {
    input.storyId == "" || input.episodeId == "" || input.episodeNumber == 0
      || input.episodeText == "" || input.storyProfile.None?
  }

  /** The profile document the finalizer stores for a run. */
  function FinalProfile(input: FinalizeInput, out: FinalizerOutput): StoryProfile
    requires input.storyProfile.Some?
  {
    WithFinalState(CanonUpdated(input.storyProfile.value, out.hits, input.episodeNumber), out)
  }

  /** The keys the existing-keys query yields; a failed query yields none (`existingNotes ?? []`). */
  function ExistingKeys(notes: seq<NoteRow>, storyId: string, readFails: bool): (keys: set<string>)
    ensures readFails ==> keys == {}
    ensures !readFails ==> forall k :: k in keys <==> exists n :: n in notes && n.storyId == storyId && n.status == Active && n.key == k
  {
    if readFails then {} else KeysOf(ActiveNotes(notes, storyId))
  }

  /** The note rows a finalization inserts: one per new fact whose key is not active yet. */
  function FactsToInsert(notes: seq<NoteRow>, input: FinalizeInput, out: FinalizerOutput, readFails: bool): (rows: seq<NoteRow>)
    ensures forall r :: r in rows ==>
      && r.storyId == input.storyId && r.status == Active && r.introducedInEpisode == input.episodeNumber
      && r.key !in ExistingKeys(notes, input.storyId, readFails)
  {
    var existing := ExistingKeys(notes, input.storyId, readFails);
    var facts := NewFacts(out.newFacts, existing);
    assert forall f :: f in facts ==> f.key !in existing by {
      forall f | f in facts ensures f.key !in existing {
        NewFactsMembers(out.newFacts, existing, f);
      }
    }
    FactRows(facts, input.storyId, input.episodeNumber)
  }

  /** Every check before the first write passed. */
  predicate ChecksPass(
    input: FinalizeInput, profileCheck: ValidationResult, finalizer: Result<FinalizerOutput, string>,
    outputCheck: ValidationResult, storeConfigured: bool)
  {
    !MissingRequired(input) && profileCheck.valid && finalizer.Success? && outputCheck.valid && storeConfigured
  }

  /**
   * The writes of a finalization whose output passed validation: the new
   * profile version, the episode's recap and final state, then the facts
   * whose keys are not active yet. Nothing is undone when a later write
   * fails.
   */
  method PersistFinalization(
    db: Database, input: FinalizeInput, out: FinalizerOutput,
    profileFault: Option<string>, recapFault: Option<string>, readFails: bool, notesFault: Option<string>)
    returns (response: Response)
    requires input.storyProfile.Some?
    modifies db
    ensures profileFault.Some? ==>
      && response == Fail(500, ProfileStoreMessage, [profileFault.value])
      && db.profiles == old(db.profiles) && db.episodes == old(db.episodes) && db.notes == old(db.notes)
    ensures profileFault.None? ==>
      db.profiles == old(db.profiles) + [VersionedRow(input.storyId, FinalProfile(input, out))]
    ensures profileFault.None? && recapFault.Some? ==>
      && response == Fail(500, RecapFailedMessage, [recapFault.value])
      && db.episodes == old(db.episodes) && db.notes == old(db.notes)
    ensures profileFault.None? && recapFault.None? ==>
      db.episodes == WithRecap(old(db.episodes), input.episodeId,
                       Recap(out.summaryBullets, out.openThreads), FinalizedState(out.stateSnapshot))
    ensures profileFault.None? && recapFault.None? && notesFault.Some?
            && FactsToInsert(old(db.notes), input, out, readFails) != [] ==>
      response == Fail(500, NotesFailedMessage, [notesFault.value]) && db.notes == old(db.notes)
    ensures profileFault.None? && recapFault.None?
            && (notesFault.None? || FactsToInsert(old(db.notes), input, out, readFails) == []) ==>
      response == Ok(200) && db.notes == old(db.notes) + FactsToInsert(old(db.notes), input, out, readFails)
    ensures response == Ok(200) ==> profileFault.None? && recapFault.None?
    ensures db.notes != old(db.notes) ==> response == Ok(200)
    ensures db.users == old(db.users) && db.inputs == old(db.inputs) && db.stories == old(db.stories)
    ensures db.sessions == old(db.sessions)
  {
    var updated := ApplyFlexibleCanonUpdates(input.storyProfile.value, out.hits, input.episodeNumber);
    updated := WithFinalState(updated, out);
    var nextVersion := updated.version.GetOr(1) + 1;

    var err := db.InsertProfile(ProfileRow(input.storyId, nextVersion, updated.(version := Some(nextVersion))), profileFault);
    if err.Some? {
      return Fail(500, ProfileStoreMessage, [err.value]);
    }
    err := db.UpdateEpisodeRecap(input.episodeId, Recap(out.summaryBullets, out.openThreads),
      FinalizedState(out.stateSnapshot), recapFault);
    if err.Some? {
      return Fail(500, RecapFailedMessage, [err.value]);
    }

    var selected := if readFails then None else Some(ActiveNotes(db.notes, input.storyId));
    var existingKeys := CollectKeys(selected);
    assert db.notes == old(db.notes);
    assert existingKeys == ExistingKeys(old(db.notes), input.storyId, readFails);
    var newFacts := NewFacts(out.newFacts, existingKeys);
    if |newFacts| > 0 {
      err := db.InsertNotes(FactRows(newFacts, input.storyId, input.episodeNumber), notesFault);
      if err.Some? {
        return Fail(500, NotesFailedMessage, [err.value]);
      }
    } else {
      assert db.notes + FactRows(newFacts, input.storyId, input.episodeNumber) == db.notes;
    }
    response := Ok(200);
  }

  /**
   * The handler after parsing. `finalizer` is the model call's result;
   * `readFails` says whether the existing-keys query failed (its rows are
   * then taken as none).
   */
  method HandleFinalize(
    db: Database, input: FinalizeInput, profileCheck: ValidationResult,
    finalizer: Result<FinalizerOutput, string>, outputCheck: ValidationResult, storeConfigured: bool,
    profileFault: Option<string>, recapFault: Option<string>, readFails: bool, notesFault: Option<string>)
    returns (response: Response)
    modifies db
    ensures MissingRequired(input) ==> response == Fail(400, RequiredFieldsMessage, [])
    ensures !MissingRequired(input) && !profileCheck.valid ==>
      response == Fail(400, ProfileInvalidMessage, FormatAjvErrors(profileCheck.errors))
    ensures !MissingRequired(input) && profileCheck.valid && finalizer.Failure? ==>
      response == Fail(500, FinalizerFailedMessage, [finalizer.error])
    ensures !MissingRequired(input) && profileCheck.valid && finalizer.Success? && !outputCheck.valid ==>
      response == Fail(500, OutputInvalidMessage, FormatAjvErrors(outputCheck.errors))
    ensures !MissingRequired(input) && profileCheck.valid && finalizer.Success? && outputCheck.valid && !storeConfigured ==>
      response == Fail(500, StoreConfigMessage, [])
    ensures db.profiles != old(db.profiles) ==>
      && !MissingRequired(input) && profileCheck.valid && finalizer.Success? && outputCheck.valid && storeConfigured
      && db.profiles == old(db.profiles) + [VersionedRow(input.storyId, FinalProfile(input, finalizer.value))]
    ensures response == Ok(200) ==>
      && !MissingRequired(input) && finalizer.Success?
      && var out := finalizer.value;
      var existing := if readFails then {} else KeysOf(ActiveNotes(old(db.notes), input.storyId));
      && db.profiles == old(db.profiles) + [VersionedRow(input.storyId, FinalProfile(input, out))]
      && db.episodes == WithRecap(old(db.episodes), input.episodeId,
                          Recap(out.summaryBullets, out.openThreads), FinalizedState(out.stateSnapshot))
      && db.notes == old(db.notes) + FactRows(NewFacts(out.newFacts, existing), input.storyId, input.episodeNumber)
    ensures db.notes != old(db.notes) ==> response == Ok(200)
    ensures !ChecksPass(input, profileCheck, finalizer, outputCheck, storeConfigured) ==>
      db.profiles == old(db.profiles) && db.episodes == old(db.episodes) && db.notes == old(db.notes)
    ensures ChecksPass(input, profileCheck, finalizer, outputCheck, storeConfigured) ==>
      var out := finalizer.value;
      var facts := FactsToInsert(old(db.notes), input, out, readFails);
      && (profileFault.Some? ==>
            response == Fail(500, ProfileStoreMessage, [profileFault.value]) && db.episodes == old(db.episodes))
      && (profileFault.None? && recapFault.Some? ==>
            response == Fail(500, RecapFailedMessage, [recapFault.value]) && db.notes == old(db.notes))
      && (profileFault.None? && recapFault.None? && notesFault.Some? && facts != [] ==>
            response == Fail(500, NotesFailedMessage, [notesFault.value]) && db.notes == old(db.notes))
      && (profileFault.None? && recapFault.None? && (notesFault.None? || facts == []) ==>
            && response == Ok(200)
            && db.profiles == old(db.profiles) + [VersionedRow(input.storyId, FinalProfile(input, out))]
            && db.episodes == WithRecap(old(db.episodes), input.episodeId,
                                Recap(out.summaryBullets, out.openThreads), FinalizedState(out.stateSnapshot))
            && db.notes == old(db.notes) + facts)
    ensures db.users == old(db.users) && db.inputs == old(db.inputs) && db.stories == old(db.stories)
    ensures db.sessions == old(db.sessions)
  {
    if MissingRequired(input) {
      return Fail(400, RequiredFieldsMessage, []);
    }
    if !profileCheck.valid {
      return Fail(400, ProfileInvalidMessage, FormatAjvErrors(profileCheck.errors));
    }
    if finalizer.Failure? {
      return Fail(500, FinalizerFailedMessage, [finalizer.error]);
    }
    if !outputCheck.valid {
      return Fail(500, OutputInvalidMessage, FormatAjvErrors(outputCheck.errors));
    }
    if !storeConfigured {
      return Fail(500, StoreConfigMessage, []);
    }
    response := PersistFinalization(db, input, finalizer.value, profileFault, recapFault, readFails, notesFault);
  }
}
