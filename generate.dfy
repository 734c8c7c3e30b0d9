/**
 * The `episode-generate` edge function: the required-field and profile
 * checks, the generate / validate / repair loop of at most two provider
 * calls, and the persistence of an accepted episode.
 *
 * The provider (`generateEpisode`, which wraps `createStructuredOutput`) and
 * the episode schema validator are function parameters; prompts are
 * represented by what they carry that the handler decides.
 */
module EpisodeGenerate {
  import opened Wrappers
  import opened Text
  import opened StoryTypes
  import opened Validation
  import opened SafetyPolicy
  import opened SnapshotMerger
  import opened Store

  const MaxAttempts := 2
  const DefaultSegmentGoal := "Advance the plot"

  /** The request body of a generation. */
  datatype GenerateInput = GenerateInput(
    storyId: string,
    episodeNumber: nat,
    hasUserChoice: bool,
    storyProfile: Option<StoryProfile>,
    segmentGoal: Option<string>,
    sessionId: Option<string>)

  /**
   * What one provider call is asked for: the first draft (from the
   * episode id and segment goal) or a repair of the previous draft against
   * the issues it raised.
   */
  datatype GenRequest =
    | FirstDraft(episodeId: string, segmentGoal: string)
    | RepairDraft(issues: seq<string>, previous: EpisodeOutput, segmentGoal: string)

  /** How the loop ends. */
  datatype LoopOutcome =
    | Accepted(output: EpisodeOutput)
    | ProviderFailed(error: string, detail: string)
    | SchemaFailed(details: seq<string>)
    | SafetyFailed(issues: seq<string>)

  /** The outcome together with the requests sent to the provider, in order. */
  datatype Run = Run(outcome: LoopOutcome, requests: seq<GenRequest>)

  const GenerateFailedMessage := "Failed to generate episode"
  const RepairFailedMessage := "Failed to repair episode"

  /** `${story_id}-${episode_number}`. */
  function EpisodeId(storyId: string, n: nat): (id: string)
    ensures StartsWith(id, storyId + "-")
  {
    var id := storyId + "-" + NatToDecimal(n);
    assert id[..|storyId + "-"|] == storyId + "-";
    id
  }

  /** `payload.segment_goal ?? story_profile.flow.dynamic_state.segment_goal ?? "Advance the plot"`. */
  function SegmentGoal(input: GenerateInput, profile: StoryProfile): (goal: string)
    ensures input.segmentGoal.Some? ==> goal == input.segmentGoal.value
    ensures input.segmentGoal.None? && profile.dynamicState.Some? && profile.dynamicState.value.segmentGoal.Some? ==>
      goal == profile.dynamicState.value.segmentGoal.value
    ensures input.segmentGoal.None? && (profile.dynamicState.None? || profile.dynamicState.value.segmentGoal.None?) ==>
      goal == DefaultSegmentGoal
  {
    match input.segmentGoal
    case Some(g) => g
    case None =>
      match profile.dynamicState
      case Some(ds) => ds.segmentGoal.GetOr(DefaultSegmentGoal)
      case None => DefaultSegmentGoal
  }

  /** The notes of the continuity checks that warn, in order. */
  function WarnNotes(checks: seq<ContinuityCheck>): (notes: seq<string>)
    ensures |notes| <= |checks|
  {
    if checks == [] then []
    else (if checks[0].result == Warn then [checks[0].note] else []) + WarnNotes(checks[1..])
  }

  /** The issues of one attempt: warning notes first, then the rating scan. */
  function AttemptIssues(output: EpisodeOutput, profile: StoryProfile): (issues: seq<string>)
    ensures |issues| <= |output.continuityChecks| + |HardForbiddenTopics(profile)| + 2
    ensures WarnNotes(output.continuityChecks) <= issues
  {
    WarnNotes(output.continuityChecks) + CollectRatingIssues(output, profile)
  }

  /** The request of attempt `attempt`, given what the previous attempt left. */
  function RequestFor(attempt: nat, episodeId: string, goal: string, issues: seq<string>, previous: Option<EpisodeOutput>): (req: GenRequest)
    requires attempt > 0 ==> previous.Some?
    ensures req.segmentGoal == goal
    ensures req.RepairDraft? <==> attempt > 0
    ensures req.RepairDraft? ==> req.issues == issues && req.previous == previous.value
  {
    if attempt == 0 then FirstDraft(episodeId, goal) else RepairDraft(issues, previous.value, goal)
  }

  function Prepend(requests: seq<GenRequest>, run: Run): Run {
    Run(run.outcome, requests + run.requests)
  }

  /** The loop from attempt `attempt` on, whose request is `req`. */
  function RunFrom(
    gen: GenRequest -> Result<EpisodeOutput, string>, validate: EpisodeOutput -> ValidationResult,
    profile: StoryProfile, goal: string, attempt: nat, req: GenRequest): (r: Run)
    requires attempt < MaxAttempts
    ensures 1 <= |r.requests| <= MaxAttempts - attempt && r.requests[0] == req
    decreases MaxAttempts - attempt
  {
    match gen(req)
    case Failure(m) =>
      Run(ProviderFailed(if attempt == 0 then GenerateFailedMessage else RepairFailedMessage, m), [req])
    case Success(output) =>
      var v := validate(output);
      if !v.valid then Run(SchemaFailed(FormatAjvErrors(v.errors)), [req])
      else
        var issues := AttemptIssues(output, profile);
        if issues == [] then Run(Accepted(output), [req])
        else if attempt + 1 == MaxAttempts then Run(SafetyFailed(issues), [req])
        else Prepend([req], RunFrom(gen, validate, profile, goal, attempt + 1, RepairDraft(issues, output, goal)))
  }

  /** One step of the loop, read off `RunFrom` case by case. */
  lemma RunFromStep(
    gen: GenRequest -> Result<EpisodeOutput, string>, validate: EpisodeOutput -> ValidationResult,
    profile: StoryProfile, goal: string, attempt: nat, req: GenRequest)
    requires attempt < MaxAttempts
    ensures var r := RunFrom(gen, validate, profile, goal, attempt, req);
      && (gen(req).Failure? ==>
            r == Run(ProviderFailed(if attempt == 0 then GenerateFailedMessage else RepairFailedMessage, gen(req).error), [req]))
      && (gen(req).Success? && !validate(gen(req).value).valid ==>
            r == Run(SchemaFailed(FormatAjvErrors(validate(gen(req).value).errors)), [req]))
      && (gen(req).Success? && validate(gen(req).value).valid && AttemptIssues(gen(req).value, profile) == [] ==>
            r == Run(Accepted(gen(req).value), [req]))
      && (gen(req).Success? && validate(gen(req).value).valid && AttemptIssues(gen(req).value, profile) != [] ==>
            if attempt + 1 == MaxAttempts then r == Run(SafetyFailed(AttemptIssues(gen(req).value, profile)), [req])
            else r == Prepend([req], RunFrom(gen, validate, profile, goal, attempt + 1,
                                      RepairDraft(AttemptIssues(gen(req).value, profile), gen(req).value, goal))))
  {
  }

  /** The whole loop. */
  function Generation(
    gen: GenRequest -> Result<EpisodeOutput, string>, validate: EpisodeOutput -> ValidationResult,
    profile: StoryProfile, episodeId: string, goal: string): (run: Run)
    ensures 1 <= |run.requests| <= MaxAttempts && run.requests[0] == FirstDraft(episodeId, goal)
  {
    RunFrom(gen, validate, profile, goal, 0, FirstDraft(episodeId, goal))
  }

  /**
   * One attempt of the loop: call the provider, validate the draft and scan it.
   * `done` is set when the loop stops here, with `outcome` as its result; a
   * draft with issues leaves the loop going with that draft and its issues.
   */
  method Attempt(
    gen: GenRequest -> Result<EpisodeOutput, string>, validate: EpisodeOutput -> ValidationResult,
    profile: StoryProfile, goal: string, attempt: nat, req: GenRequest)
    returns (done: bool, outcome: LoopOutcome, draft: Option<EpisodeOutput>, issues: seq<string>)
    requires attempt < MaxAttempts
    ensures done ==> RunFrom(gen, validate, profile, goal, attempt, req) == Run(outcome, [req])
    ensures done && outcome.Accepted? ==> draft == Some(outcome.output) && issues == []
    ensures !done ==> draft.Some? && issues != [] && issues == AttemptIssues(draft.value, profile)
    ensures !done && attempt + 1 == MaxAttempts ==>
      RunFrom(gen, validate, profile, goal, attempt, req) == Run(SafetyFailed(issues), [req])
    ensures !done && attempt + 1 < MaxAttempts ==>
      RunFrom(gen, validate, profile, goal, attempt, req)
        == Prepend([req], RunFrom(gen, validate, profile, goal, attempt + 1, RepairDraft(issues, draft.value, goal)))
  {
    RunFromStep(gen, validate, profile, goal, attempt, req);
    issues := [];
    var generated := gen(req);
    if generated.Failure? {
      return true, ProviderFailed(if attempt == 0 then GenerateFailedMessage else RepairFailedMessage, generated.error), None, issues;
    }
    draft := Some(generated.value);
    var validation := validate(generated.value);
    if !validation.valid {
      return true, SchemaFailed(FormatAjvErrors(validation.errors)), draft, issues;
    }
    var warnings := WarnNotes(generated.value.continuityChecks);
    var ratingIssues := CollectRatingIssues(generated.value, profile);
    issues := warnings + ratingIssues;
    assert issues == AttemptIssues(generated.value, profile);
    if |issues| == 0 {
      return true, Accepted(generated.value), draft, issues;
    }
    done, outcome := false, SafetyFailed(issues);
  }

  /** The handler's `for (attempt …)` loop, with its `break` on a clean attempt. */
  method GenerateWithRepair(
    gen: GenRequest -> Result<EpisodeOutput, string>, validate: EpisodeOutput -> ValidationResult,
    profile: StoryProfile, episodeId: string, goal: string)
    returns (outcome: LoopOutcome, requests: seq<GenRequest>)
    ensures Run(outcome, requests) == Generation(gen, validate, profile, episodeId, goal)
  {
    ghost var spec := Generation(gen, validate, profile, episodeId, goal);
    var episodeOutput: Option<EpisodeOutput> := None;
    var issues: seq<string> := [];
    requests := [];
    var attempt := 0;
    while attempt < MaxAttempts
      invariant 0 <= attempt <= MaxAttempts
      invariant attempt == 0 ==> requests == []
      invariant attempt > 0 ==> episodeOutput.Some? && issues != []
      invariant attempt < MaxAttempts ==>
        spec == Prepend(requests, RunFrom(gen, validate, profile, goal, attempt,
                                          RequestFor(attempt, episodeId, goal, issues, episodeOutput)))
      invariant attempt == MaxAttempts ==> spec == Run(SafetyFailed(issues), requests)
    {
      var req := RequestFor(attempt, episodeId, goal, issues, episodeOutput);
      ghost var before := requests;
      requests := requests + [req];
      var done, stepOutcome;
      done, stepOutcome, episodeOutput, issues := Attempt(gen, validate, profile, goal, attempt, req);
      if done {
        if stepOutcome.Accepted? {
          break;
        }
        outcome := stepOutcome;
        return;
      }
      if attempt + 1 < MaxAttempts {
        ghost var rest := RunFrom(gen, validate, profile, goal, attempt + 1, RepairDraft(issues, episodeOutput.value, goal));
        assert before + ([req] + rest.requests) == requests + rest.requests;
      }
      attempt := attempt + 1;
    }
    if episodeOutput.None? || |issues| > 0 {
      outcome := SafetyFailed(issues);
    } else {
      outcome := Accepted(episodeOutput.value);
    }
  }

  // ---------------------------------------------------------------------
  // Properties of the loop
  // ---------------------------------------------------------------------

  /** The notes kept are exactly those of the warning checks. */
  lemma {:induction false} WarnNotesMembers(checks: seq<ContinuityCheck>, n: string)
    ensures n in WarnNotes(checks) <==> exists i :: 0 <= i < |checks| && checks[i].result == Warn && checks[i].note == n
  {
    if checks != [] {
      WarnNotesMembers(checks[1..], n);
      assert forall i :: 0 < i < |checks| ==> checks[1..][i - 1] == checks[i];
    }
  }

  /** An attempt is clean exactly when no check warns and the rating scan finds nothing. */
  lemma CleanAttempt(output: EpisodeOutput, profile: StoryProfile)
    ensures AttemptIssues(output, profile) == [] <==>
      (forall i :: 0 <= i < |output.continuityChecks| ==> output.continuityChecks[i].result == Pass)
      && CollectRatingIssues(output, profile) == []
  {
    var checks := output.continuityChecks;
    if WarnNotes(checks) != [] {
      WarnNotesMembers(checks, WarnNotes(checks)[0]);
    } else {
      forall i | 0 <= i < |checks|
        ensures checks[i].result == Pass
      {
        if checks[i].result == Warn {
          WarnNotesMembers(checks, checks[i].note);
        }
      }
    }
  }

  /** The provider is called once or twice, first for the first draft. */
  lemma CallsBounded(
    gen: GenRequest -> Result<EpisodeOutput, string>, validate: EpisodeOutput -> ValidationResult,
    profile: StoryProfile, episodeId: string, goal: string)
    ensures var r := Generation(gen, validate, profile, episodeId, goal);
      1 <= |r.requests| <= MaxAttempts && r.requests[0] == FirstDraft(episodeId, goal)
  {
  }

  /** A first draft that validates and raises no issue is accepted without a repair call. */
  lemma CleanFirstDraftAccepted(
    gen: GenRequest -> Result<EpisodeOutput, string>, validate: EpisodeOutput -> ValidationResult,
    profile: StoryProfile, episodeId: string, goal: string)
    requires gen(FirstDraft(episodeId, goal)).Success?
    requires validate(gen(FirstDraft(episodeId, goal)).value).valid
    requires AttemptIssues(gen(FirstDraft(episodeId, goal)).value, profile) == []
    ensures Generation(gen, validate, profile, episodeId, goal)
         == Run(Accepted(gen(FirstDraft(episodeId, goal)).value), [FirstDraft(episodeId, goal)])
  {
  }

  /**
   * A provider error ends the loop at once: it is the last request's error,
   * labelled by whether that request was the first draft or the repair.
   */
  lemma ProviderErrorNoRetry(
    gen: GenRequest -> Result<EpisodeOutput, string>, validate: EpisodeOutput -> ValidationResult,
    profile: StoryProfile, episodeId: string, goal: string)
    ensures var r := Generation(gen, validate, profile, episodeId, goal);
      r.outcome.ProviderFailed? ==>
        && gen(r.requests[|r.requests| - 1]) == Failure(r.outcome.detail)
        && (r.outcome.error == GenerateFailedMessage <==> |r.requests| == 1)
        && (r.outcome.error == RepairFailedMessage <==> |r.requests| == 2)
  {
    var first := FirstDraft(episodeId, goal);
    if gen(first).Success? && validate(gen(first).value).valid && AttemptIssues(gen(first).value, profile) != [] {
      var out := gen(first).value;
      var rest := RunFrom(gen, validate, profile, goal, 1, RepairDraft(AttemptIssues(out, profile), out, goal));
      assert Generation(gen, validate, profile, episodeId, goal) == Prepend([first], rest);
    }
  }

  /** A draft that fails the episode schema ends the loop at once with the formatted errors. */
  lemma SchemaErrorNoRetry(
    gen: GenRequest -> Result<EpisodeOutput, string>, validate: EpisodeOutput -> ValidationResult,
    profile: StoryProfile, episodeId: string, goal: string)
    ensures var r := Generation(gen, validate, profile, episodeId, goal); var last := r.requests[|r.requests| - 1];
      r.outcome.SchemaFailed? ==>
        && gen(last).Success? && !validate(gen(last).value).valid
        && r.outcome.details == FormatAjvErrors(validate(gen(last).value).errors)
  {
    var first := FirstDraft(episodeId, goal);
    if gen(first).Success? && validate(gen(first).value).valid && AttemptIssues(gen(first).value, profile) != [] {
      var out := gen(first).value;
      var rest := RunFrom(gen, validate, profile, goal, 1, RepairDraft(AttemptIssues(out, profile), out, goal));
      assert Generation(gen, validate, profile, episodeId, goal) == Prepend([first], rest);
    }
  }

  /**
   * The repair request carries the first draft and exactly the issues that
   * draft raised.
   */
  lemma RepairCarriesFirstIssues(
    gen: GenRequest -> Result<EpisodeOutput, string>, validate: EpisodeOutput -> ValidationResult,
    profile: StoryProfile, episodeId: string, goal: string)
    ensures var r := Generation(gen, validate, profile, episodeId, goal); var first := FirstDraft(episodeId, goal);
      |r.requests| == 2 ==>
        && gen(first).Success? && validate(gen(first).value).valid
        && AttemptIssues(gen(first).value, profile) != []
        && r.requests[1] == RepairDraft(AttemptIssues(gen(first).value, profile), gen(first).value, goal)
  {
    var first := FirstDraft(episodeId, goal);
    if gen(first).Success? && validate(gen(first).value).valid && AttemptIssues(gen(first).value, profile) != [] {
      var out := gen(first).value;
      var rest := RunFrom(gen, validate, profile, goal, 1, RepairDraft(AttemptIssues(out, profile), out, goal));
      assert Generation(gen, validate, profile, episodeId, goal) == Prepend([first], rest);
    }
  }

  /**
   * When both attempts raise issues, the failure carries the repaired
   * draft's issues only: those of the first draft are dropped.
   */
  lemma ExhaustionReportsLastIssues(
    gen: GenRequest -> Result<EpisodeOutput, string>, validate: EpisodeOutput -> ValidationResult,
    profile: StoryProfile, episodeId: string, goal: string)
    ensures var r := Generation(gen, validate, profile, episodeId, goal);
      r.outcome.SafetyFailed? ==>
        && |r.requests| == MaxAttempts
        && gen(r.requests[1]).Success?
        && r.outcome.issues == AttemptIssues(gen(r.requests[1]).value, profile)
        && r.outcome.issues != []
  {
    var first := FirstDraft(episodeId, goal);
    if gen(first).Success? && validate(gen(first).value).valid && AttemptIssues(gen(first).value, profile) != [] {
      var out := gen(first).value;
      var rest := RunFrom(gen, validate, profile, goal, 1, RepairDraft(AttemptIssues(out, profile), out, goal));
      assert Generation(gen, validate, profile, episodeId, goal) == Prepend([first], rest);
    }
  }

  /** An accepted episode is the last draft, and it passed the schema and every check. */
  lemma AcceptedIsClean(
    gen: GenRequest -> Result<EpisodeOutput, string>, validate: EpisodeOutput -> ValidationResult,
    profile: StoryProfile, episodeId: string, goal: string)
    ensures var r := Generation(gen, validate, profile, episodeId, goal); var last := r.requests[|r.requests| - 1];
      r.outcome.Accepted? ==>
        && gen(last) == Success(r.outcome.output)
        && validate(r.outcome.output).valid
        && AttemptIssues(r.outcome.output, profile) == []
  {
    var first := FirstDraft(episodeId, goal);
    if gen(first).Success? && validate(gen(first).value).valid && AttemptIssues(gen(first).value, profile) != [] {
      var out := gen(first).value;
      var rest := RunFrom(gen, validate, profile, goal, 1, RepairDraft(AttemptIssues(out, profile), out, goal));
      assert Generation(gen, validate, profile, episodeId, goal) == Prepend([first], rest);
    }
  }

  // ---------------------------------------------------------------------
  // The handler
  // ---------------------------------------------------------------------

  const RequiredFieldsMessage := "Missing required fields: story_id, episode_number, user_choice"
  const MissingProfileMessage := "Missing required field: story_profile"
  const ProfileInvalidMessage := "story_profile schema validation failed"
  const OutputInvalidMessage := "Episode output failed schema validation"
  const SafetyMessage := "Episode output failed safety checks"
  const StoreConfigMessage := "Missing SUPABASE_URL or SUPABASE_SERVICE_ROLE_KEY"
  const PersistFailedMessage := "Failed to persist episode"

  /** `!story_id || !episode_number || !user_choice`. */
  predicate MissingRequired(input: GenerateInput) {
    input.storyId == "" || input.episodeNumber == 0 || !input.hasUserChoice
  }

  /** The error response of a loop that did not accept an episode. */
  function LoopFailure(outcome: LoopOutcome): Response
    requires !outcome.Accepted?
  {
    match outcome
    case ProviderFailed(e, d) => Fail(500, e, [d])
    case SchemaFailed(d) => Fail(500, OutputInvalidMessage, d)
    case SafetyFailed(found) => Fail(500, SafetyMessage, found)
  }

  /** The episode row an accepted episode is stored as. */
  function AcceptedRow(id: string, input: GenerateInput, output: EpisodeOutput, base: DynamicState): (row: EpisodeRow)
    ensures row.storyId == input.storyId && row.episodeNumber == input.episodeNumber && row.recap.None?
    ensures row.title == output.segment.title && row.text == output.segment.text && row.choices == output.choices
    ensures row.stateSnapshot == MergedState(Merged(base, output.stateUpdate))
  {
    EpisodeRow(id, input.storyId, input.episodeNumber, output.segment.title, output.segment.text,
      output.choices, None, MergedState(Merged(base, output.stateUpdate)))
  }

  /**
   * The handler after the request has been parsed. `profileCheck` is the
   * profile validator's report; `storeConfigured` whether the service URL and
   * key are set; `newEpisodeId` the id the database gives the new row.
   */
  method HandleGenerate(
    db: Database, input: GenerateInput, profileCheck: ValidationResult,
    gen: GenRequest -> Result<EpisodeOutput, string>, validate: EpisodeOutput -> ValidationResult,
    storeConfigured: bool, newEpisodeId: string, insertFault: Option<string>, sessionFault: Option<string>)
    returns (response: Response, requests: seq<GenRequest>)
    modifies db
    ensures MissingRequired(input) ==> response == Fail(400, RequiredFieldsMessage, []) && requests == []
    ensures !MissingRequired(input) && input.storyProfile.None? ==> response == Fail(400, MissingProfileMessage, []) && requests == []
    ensures !MissingRequired(input) && input.storyProfile.Some? && !profileCheck.valid ==>
      response == Fail(400, ProfileInvalidMessage, FormatAjvErrors(profileCheck.errors)) && requests == []
    ensures !MissingRequired(input) && input.storyProfile.Some? && profileCheck.valid ==>
      var profile := input.storyProfile.value;
      var run := Generation(gen, validate, profile, EpisodeId(input.storyId, input.episodeNumber), SegmentGoal(input, profile));
      && requests == run.requests
      && (!run.outcome.Accepted? ==> response == LoopFailure(run.outcome))
      && (run.outcome.Accepted? && !storeConfigured ==> response == Fail(500, StoreConfigMessage, []))
      && (run.outcome.Accepted? && storeConfigured && insertFault.Some? ==>
            response == Fail(500, PersistFailedMessage, [insertFault.value]))
      && (run.outcome.Accepted? && storeConfigured && insertFault.None? ==>
            && response == Ok(201)
            && db.episodes == old(db.episodes)
                 + [AcceptedRow(newEpisodeId, input, run.outcome.output, profile.dynamicState.GetOr(EmptyState))])
    ensures db.episodes != old(db.episodes) ==> response == Ok(201)
    ensures db.sessions == old(db.sessions) || (response == Ok(201) && input.sessionId.Some?
      && db.sessions == WithEpisodeNumber(old(db.sessions), input.sessionId.value, input.episodeNumber))
    ensures response == Ok(201) && input.sessionId.Some? && input.sessionId.value != "" && sessionFault.None? ==>
      db.sessions == WithEpisodeNumber(old(db.sessions), input.sessionId.value, input.episodeNumber)
    ensures response != Ok(201) || input.sessionId.None? || input.sessionId.value == "" || sessionFault.Some? ==>
      db.sessions == old(db.sessions)
    ensures db.users == old(db.users) && db.inputs == old(db.inputs) && db.stories == old(db.stories)
    ensures db.profiles == old(db.profiles) && db.notes == old(db.notes)
  {
    requests := [];
    if MissingRequired(input) {
      return Fail(400, RequiredFieldsMessage, []), requests;
    }
    if input.storyProfile.None? {
      return Fail(400, MissingProfileMessage, []), requests;
    }
    if !profileCheck.valid {
      return Fail(400, ProfileInvalidMessage, FormatAjvErrors(profileCheck.errors)), requests;
    }
    var profile := input.storyProfile.value;
    var episodeId := EpisodeId(input.storyId, input.episodeNumber);
    var goal := SegmentGoal(input, profile);
    var outcome;
    outcome, requests := GenerateWithRepair(gen, validate, profile, episodeId, goal);
    if !outcome.Accepted? {
      return LoopFailure(outcome), requests;
    }
    if !storeConfigured {
      return Fail(500, StoreConfigMessage, []), requests;
    }
    var base := profile.dynamicState.GetOr(EmptyState);
    var snapshot := BuildStateSnapshot(base, outcome.output.stateUpdate);
    var row := EpisodeRow(newEpisodeId, input.storyId, input.episodeNumber, outcome.output.segment.title,
      outcome.output.segment.text, outcome.output.choices, None, MergedState(snapshot));
    var err := db.InsertEpisode(row, insertFault);
    if err.Some? {
      return Fail(500, PersistFailedMessage, [err.value]), requests;
    }
    if input.sessionId.Some? && input.sessionId.value != "" {
      // The session update's error is not inspected.
      var _ := db.UpdateSessionEpisode(input.sessionId.value, input.episodeNumber, sessionFault);
    }
    response := Ok(201);
  }
}
