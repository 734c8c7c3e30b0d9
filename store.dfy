/**
 * The Supabase tables the edge functions write, as a single in-memory
 * database. Every write may be refused by the service: the refusal is a
 * parameter (`fault`), carrying the message the client would report, and a
 * refused write leaves every table as it was.
 */
module Store {
  import opened Wrappers
  import opened StoryTypes

  datatype UserRow = UserRow(id: string, isAnonymous: bool, appLang: string)
  datatype InputRow = InputRow(userId: string, genres: seq<string>, contentRating: string, language: string)
  datatype StoryRow = StoryRow(id: string, title: string, logline: string, genre: string, contentRating: string, status: string)
  datatype ProfileRow = ProfileRow(storyId: string, version: int, profile: StoryProfile)
  datatype NoteRow = NoteRow(storyId: string, key: string, value: string, status: NoteStatus, introducedInEpisode: int)
  datatype Recap = Recap(summaryBullets: seq<string>, openThreads: seq<string>)
  datatype EpisodeRow = EpisodeRow(
    id: string, storyId: string, episodeNumber: int, title: string, text: string,
    choices: seq<Choice>, recap: Option<Recap>, stateSnapshot: EpisodeState)
  datatype SessionRow = SessionRow(id: string, userId: string, storyId: string, currentEpisodeNumber: int)

  /** `update(...).eq("id", id)` on the episodes table: every row with that id gets the recap and snapshot. */
  function WithRecap(episodes: seq<EpisodeRow>, id: string, recap: Recap, snapshot: EpisodeState): (r: seq<EpisodeRow>)
    ensures |r| == |episodes|
    ensures forall i :: 0 <= i < |r| ==>
      r[i] == if episodes[i].id == id then episodes[i].(recap := Some(recap), stateSnapshot := snapshot) else episodes[i]
  {
    if episodes == [] then []
    else
      var first := if episodes[0].id == id then episodes[0].(recap := Some(recap), stateSnapshot := snapshot) else episodes[0];
      [first] + WithRecap(episodes[1..], id, recap, snapshot)
  }

  /** `update({ current_episode_number }).eq("id", id)` on the sessions table. */
  function WithEpisodeNumber(sessions: seq<SessionRow>, id: string, n: int): (r: seq<SessionRow>)
    ensures |r| == |sessions|
    ensures forall i :: 0 <= i < |r| ==>
      r[i] == if sessions[i].id == id then sessions[i].(currentEpisodeNumber := n) else sessions[i]
  {
    if sessions == [] then []
    else
      var first := if sessions[0].id == id then sessions[0].(currentEpisodeNumber := n) else sessions[0];
      [first] + WithEpisodeNumber(sessions[1..], id, n)
  }

  class Database {
    var users: map<string, UserRow>
    var inputs: seq<InputRow>
    var stories: seq<StoryRow>
    var profiles: seq<ProfileRow>
    var notes: seq<NoteRow>
    var episodes: seq<EpisodeRow>
    var sessions: seq<SessionRow>

    constructor()
      ensures users == map[] && inputs == [] && stories == [] && profiles == []
      ensures notes == [] && episodes == [] && sessions == []
    {
      users := map[];
      inputs := [];
      stories := [];
      profiles := [];
      notes := [];
      episodes := [];
      sessions := [];
    }

    /** `upsert(row, { onConflict: "id" })` on users. */
    method UpsertUser(row: UserRow, fault: Option<string>) returns (err: Option<string>)
      modifies this
      ensures err == fault
      ensures users == if fault.None? then old(users)[row.id := row] else old(users)
      ensures inputs == old(inputs) && stories == old(stories) && profiles == old(profiles)
      ensures notes == old(notes) && episodes == old(episodes) && sessions == old(sessions)
    {
      err := fault;
      if fault.None? {
        users := users[row.id := row];
      }
    }

    method InsertInput(row: InputRow, fault: Option<string>) returns (err: Option<string>)
      modifies this
      ensures err == fault
      ensures inputs == if fault.None? then old(inputs) + [row] else old(inputs)
      ensures users == old(users) && stories == old(stories) && profiles == old(profiles)
      ensures notes == old(notes) && episodes == old(episodes) && sessions == old(sessions)
    {
      err := fault;
      if fault.None? {
        inputs := inputs + [row];
      }
    }

    method InsertStory(row: StoryRow, fault: Option<string>) returns (err: Option<string>)
      modifies this
      ensures err == fault
      ensures stories == if fault.None? then old(stories) + [row] else old(stories)
      ensures users == old(users) && inputs == old(inputs) && profiles == old(profiles)
      ensures notes == old(notes) && episodes == old(episodes) && sessions == old(sessions)
    {
      err := fault;
      if fault.None? {
        stories := stories + [row];
      }
    }

    method InsertProfile(row: ProfileRow, fault: Option<string>) returns (err: Option<string>)
      modifies this
      ensures err == fault
      ensures profiles == if fault.None? then old(profiles) + [row] else old(profiles)
      ensures users == old(users) && inputs == old(inputs) && stories == old(stories)
      ensures notes == old(notes) && episodes == old(episodes) && sessions == old(sessions)
    {
      err := fault;
      if fault.None? {
        profiles := profiles + [row];
      }
    }

    /** A multi-row insert: all rows or none. */
    method InsertNotes(rows: seq<NoteRow>, fault: Option<string>) returns (err: Option<string>)
      modifies this
      ensures err == fault
      ensures notes == if fault.None? then old(notes) + rows else old(notes)
      ensures users == old(users) && inputs == old(inputs) && stories == old(stories)
      ensures profiles == old(profiles) && episodes == old(episodes) && sessions == old(sessions)
    {
      err := fault;
      if fault.None? {
        notes := notes + rows;
      }
    }

    method InsertEpisode(row: EpisodeRow, fault: Option<string>) returns (err: Option<string>)
      modifies this
      ensures err == fault
      ensures episodes == if fault.None? then old(episodes) + [row] else old(episodes)
      ensures users == old(users) && inputs == old(inputs) && stories == old(stories)
      ensures profiles == old(profiles) && notes == old(notes) && sessions == old(sessions)
    {
      err := fault;
      if fault.None? {
        episodes := episodes + [row];
      }
    }

    method UpdateEpisodeRecap(id: string, recap: Recap, snapshot: EpisodeState, fault: Option<string>)
      returns (err: Option<string>)
      modifies this
      ensures err == fault
      ensures episodes == if fault.None? then WithRecap(old(episodes), id, recap, snapshot) else old(episodes)
      ensures users == old(users) && inputs == old(inputs) && stories == old(stories)
      ensures profiles == old(profiles) && notes == old(notes) && sessions == old(sessions)
    {
      err := fault;
      if fault.None? {
        episodes := WithRecap(episodes, id, recap, snapshot);
      }
    }

    method InsertSession(row: SessionRow, fault: Option<string>) returns (err: Option<string>)
      modifies this
      ensures err == fault
      ensures sessions == if fault.None? then old(sessions) + [row] else old(sessions)
      ensures users == old(users) && inputs == old(inputs) && stories == old(stories)
      ensures profiles == old(profiles) && notes == old(notes) && episodes == old(episodes)
    {
      err := fault;
      if fault.None? {
        sessions := sessions + [row];
      }
    }

    method UpdateSessionEpisode(id: string, n: int, fault: Option<string>) returns (err: Option<string>)
      modifies this
      ensures err == fault
      ensures sessions == if fault.None? then WithEpisodeNumber(old(sessions), id, n) else old(sessions)
      ensures users == old(users) && inputs == old(inputs) && stories == old(stories)
      ensures profiles == old(profiles) && notes == old(notes) && episodes == old(episodes)
    {
      err := fault;
      if fault.None? {
        sessions := WithEpisodeNumber(sessions, id, n);
      }
    }
  }
}
