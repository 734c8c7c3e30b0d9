/**
 * The mobile story cache: a key/value store that writes to the device's
 * persistent storage and falls back to an in-memory map when that storage
 * throws, an in-memory cache of the current story session and of the story
 * list, and the keyed upsert and removal on that list.
 *
 * Persistent storage is the `disk` map; each storage call takes a flag
 * saying whether it throws. `JSON.stringify`/`JSON.parse` are a codec
 * parameter whose decoder may report a malformed text or a literal null.
 */
module StoryCache {
  import opened Wrappers
  import StoryTypes

  // ---------------------------------------------------------------------
  // Cached documents
  // ---------------------------------------------------------------------

  datatype StorySummary = StorySummary(id: string, title: string, logline: string, genre: string, contentRating: string)
  datatype SessionSummary = SessionSummary(id: string, storyId: string, currentEpisodeNumber: int)
  datatype EpisodeSummary = EpisodeSummary(
    id: string, storyId: string, episodeNumber: int, title: string, text: string, choices: seq<StoryTypes.Choice>)
  datatype ProfileSummary = ProfileSummary(id: string, storyId: string, version: int)
  datatype NoteSummary = NoteSummary(id: string, key: string, value: string)

  /** What story creation returns and the app keeps as the current session. */
  datatype StoryCreateResponse = StoryCreateResponse(
    story: StorySummary, storyProfile: ProfileSummary, continuityNotes: seq<NoteSummary>,
    episode1: EpisodeSummary, session: SessionSummary)

  datatype StoryListItem = StoryListItem(story: StorySummary, session: SessionSummary, episode: Option<EpisodeSummary>)

  /** The outcome of `JSON.parse`: a throw, the literal `null`, or a document. */
  datatype Parsed<T> = Malformed | Null | Value(value: T)

  datatype Codec<!T> = Codec(encode: T -> string, decode: string -> Parsed<T>)

  /** `JSON.stringify` of a document is never empty and parses back to it. */
  ghost predicate Faithful<T(!new)>(codec: Codec<T>) {
    forall t :: codec.decode(codec.encode(t)) == Value(t) && codec.encode(t) != ""
  }

  const SessionKey := "fictionengine:story_session"
  const ListKey := "fictionengine:story_list"

  // ---------------------------------------------------------------------
  // Storage with an in-memory fallback
  // ---------------------------------------------------------------------

  /** Persistent storage and the in-memory fallback map. */
  datatype Storage = Storage(disk: map<string, string>, memory: map<string, string>)

  /** `getItem`: the stored value when storage answers with one, else the fallback's. */
  function Get(st: Storage, key: string, fails: bool): (v: Option<string>)
    ensures !fails && key in st.disk ==> v == Some(st.disk[key])
    ensures (fails || key !in st.disk) ==> (v.Some? <==> key in st.memory)
    ensures (fails || key !in st.disk) && key in st.memory ==> v == Some(st.memory[key])
  {
    if !fails && key in st.disk then Some(st.disk[key])
    else if key in st.memory then Some(st.memory[key])
    else None
  }

  /** `setItem`: storage takes the value; only when it throws does the fallback. */
  function Set(st: Storage, key: string, value: string, fails: bool): (r: Storage)
    ensures !fails ==> r.disk == st.disk[key := value] && r.memory == st.memory
    ensures fails ==> r.disk == st.disk && r.memory == st.memory[key := value]
  {
    if !fails then st.(disk := st.disk[key := value]) else st.(memory := st.memory[key := value])
  }

  /** `removeItem`: storage forgets the key; only when it throws does the fallback. */
  function Remove(st: Storage, key: string, fails: bool): (r: Storage)
    ensures !fails ==> r.disk == st.disk - {key} && r.memory == st.memory
    ensures fails ==> r.disk == st.disk && r.memory == st.memory - {key}
  {
    if !fails then st.(disk := st.disk - {key}) else st.(memory := st.memory - {key})
  }

  /** A value set is read back, unless a failed write went to the fallback while storage still holds an older value. */
  lemma SetThenGet(st: Storage, key: string, value: string, setFails: bool, getFails: bool)
    ensures var v := Get(Set(st, key, value, setFails), key, getFails);
      && (!setFails && !getFails ==> v == Some(value))
      && (setFails && (getFails || key !in st.disk) ==> v == Some(value))
      && (setFails && !getFails && key in st.disk ==> v == Some(st.disk[key]))
  {
  }

  /** Other keys are not disturbed by a write or a removal. */
  lemma OtherKeysUntouched(st: Storage, key: string, other: string, value: string, fails: bool, getFails: bool)
    requires key != other
    ensures Get(Set(st, key, value, fails), other, getFails) == Get(st, other, getFails)
    ensures Get(Remove(st, key, fails), other, getFails) == Get(st, other, getFails)
  {
  }

  // ---------------------------------------------------------------------
  // The whole cache state and the operations on it
  // ---------------------------------------------------------------------

  datatype CacheState = CacheState(
    store: Storage, cachedStory: Option<StoryCreateResponse>, cachedList: Option<seq<StoryListItem>>)

  /** `setStorySession`. */
  function WriteSession(st: CacheState, story: StoryCreateResponse, codec: Codec<StoryCreateResponse>, fails: bool): (r: CacheState)
    ensures r.cachedStory == Some(story) && r.cachedList == st.cachedList
    ensures !fails ==> Get(r.store, SessionKey, false) == Some(codec.encode(story))
    ensures fails ==> SessionKey in r.store.memory && r.store.memory[SessionKey] == codec.encode(story)
  {
    st.(cachedStory := Some(story), store := Set(st.store, SessionKey, codec.encode(story), fails))
  }

  /** `clearStorySession`. */
  function ClearSession(st: CacheState, fails: bool): (r: CacheState)
    ensures r.cachedStory.None? && r.cachedList == st.cachedList
  {
    st.(cachedStory := None, store := Remove(st.store, SessionKey, fails))
  }

  /**
   * `getStorySession`: the cached session; otherwise the stored one, which
   * is then cached. A stored text that does not parse is removed.
   */
  function ReadSession(st: CacheState, codec: Codec<StoryCreateResponse>, readFails: bool, removeFails: bool)
    : (r: (Option<StoryCreateResponse>, CacheState))
    ensures st.cachedStory.Some? ==> r == (st.cachedStory, st)
    ensures r.1.cachedList == st.cachedList
    ensures r.0.Some? ==> r.1.cachedStory == r.0
    ensures r.1.store != st.store ==> r.0.None? && r.1.store == Remove(st.store, SessionKey, removeFails)
  {
    if st.cachedStory.Some? then (st.cachedStory, st)
    else
      var raw := Get(st.store, SessionKey, readFails);
      if raw.None? || raw.value == "" then (None, st)
      else
        match codec.decode(raw.value)
        case Malformed => (None, st.(store := Remove(st.store, SessionKey, removeFails)))
        case Null => (None, st)
        case Value(story) => (Some(story), st.(cachedStory := Some(story)))
  }

  /** `setStoryList`. */
  function WriteList(st: CacheState, items: seq<StoryListItem>, codec: Codec<seq<StoryListItem>>, fails: bool): (r: CacheState)
    ensures r.cachedList == Some(items) && r.cachedStory == st.cachedStory
    ensures !fails ==> Get(r.store, ListKey, false) == Some(codec.encode(items))
    ensures fails ==> ListKey in r.store.memory && r.store.memory[ListKey] == codec.encode(items)
  {
    st.(cachedList := Some(items), store := Set(st.store, ListKey, codec.encode(items), fails))
  }

  /**
   * `getStoryList`: the cached list (an empty array is still a cached
   * list); otherwise the stored one, which is then cached; [] when nothing
   * is stored, when the text is `null`, and when it does not parse, in which
   * case it is removed.
   */
  function ReadList(st: CacheState, codec: Codec<seq<StoryListItem>>, readFails: bool, removeFails: bool)
    : (r: (seq<StoryListItem>, CacheState))
    ensures st.cachedList.Some? ==> r == (st.cachedList.value, st)
    ensures r.1.cachedStory == st.cachedStory
    ensures r.1.cachedList.Some? ==> r.1.cachedList == Some(r.0)
    ensures r.1.store != st.store ==> r.0 == [] && r.1.store == Remove(st.store, ListKey, removeFails)
  {
    if st.cachedList.Some? then (st.cachedList.value, st)
    else
      var raw := Get(st.store, ListKey, readFails);
      if raw.None? || raw.value == "" then ([], st)
      else
        match codec.decode(raw.value)
        case Malformed => ([], st.(store := Remove(st.store, ListKey, removeFails)))
        case Null => ([], st)
        case Value(items) => (items, st.(cachedList := Some(items)))
  }

  /** After `setStorySession(s)`, `getStorySession` answers `s` from the cache, whatever storage does. */
  lemma SessionSetThenGet(
    st: CacheState, story: StoryCreateResponse, codec: Codec<StoryCreateResponse>,
    setFails: bool, readFails: bool, removeFails: bool)
    ensures ReadSession(WriteSession(st, story, codec, setFails), codec, readFails, removeFails).0 == Some(story)
  {
  }

  /** A session written to working storage is read back after a restart empties every in-memory map. */
  lemma SessionSurvivesRestart(
    st: CacheState, story: StoryCreateResponse, codec: Codec<StoryCreateResponse>, removeFails: bool)
    requires Faithful(codec)
    ensures var written := WriteSession(st, story, codec, false);
      var restarted := CacheState(Storage(written.store.disk, map[]), None, None);
      ReadSession(restarted, codec, false, removeFails).0 == Some(story)
  {
    var written := WriteSession(st, story, codec, false);
    assert written.store.disk[SessionKey] == codec.encode(story);
  }

  /** Once cleared with working storage, no session is read while the fallback holds none either. */
  lemma ClearedSessionGone(
    st: CacheState, codec: Codec<StoryCreateResponse>, readFails: bool, removeFails: bool)
    requires SessionKey !in st.store.memory
    ensures ReadSession(ClearSession(st, false), codec, readFails, removeFails).0 == None
  {
  }

  /**
   * A session whose write fell back to memory comes back after
   * `clearStorySession` succeeds: the removal reaches storage only, and
   * the next read falls through to the fallback map.
   */
  lemma ClearedSessionResurfaces(st: CacheState, story: StoryCreateResponse, codec: Codec<StoryCreateResponse>)
    requires Faithful(codec)
    ensures var cleared := ClearSession(WriteSession(st, story, codec, true), false);
      ReadSession(cleared, codec, false, false).0 == Some(story)
  {
    var written := WriteSession(st, story, codec, true);
    assert written.store.memory[SessionKey] == codec.encode(story);
  }

  /** `getStoryList` answers [] when no text is stored, with nothing changed. */
  lemma NothingStoredEmptyList(st: CacheState, codec: Codec<seq<StoryListItem>>, readFails: bool, removeFails: bool)
    requires st.cachedList.None? && Get(st.store, ListKey, readFails).None?
    ensures ReadList(st, codec, readFails, removeFails) == ([], st)
  {
  }

  /** A corrupt stored list reads as [] and, with working storage, is gone from it afterwards. */
  lemma CorruptListRemoved(st: CacheState, codec: Codec<seq<StoryListItem>>, readFails: bool)
    requires st.cachedList.None?
    requires var raw := Get(st.store, ListKey, readFails); raw.Some? && raw.value != "" && codec.decode(raw.value).Malformed?
    ensures var r := ReadList(st, codec, readFails, false);
      r.0 == [] && ListKey !in r.1.store.disk && r.1.cachedList.None?
  {
  }

  // ---------------------------------------------------------------------
  // Keyed list operations
  // ---------------------------------------------------------------------

  predicate UniqueIds(list: seq<StoryListItem>) {
    forall i, j :: 0 <= i < j < |list| ==> list[i].story.id != list[j].story.id
  }

  /** The first index from `from` on whose story id is `id`, or -1. */
  function IndexFrom(list: seq<StoryListItem>, id: string, from: nat): (i: int)
    requires from <= |list|
    ensures -1 <= i < |list|
    ensures i >= 0 ==> from <= i && list[i].story.id == id && forall j :: from <= j < i ==> list[j].story.id != id
    ensures i == -1 <==> forall j :: from <= j < |list| ==> list[j].story.id != id
    decreases |list| - from
  {
    if from == |list| then -1
    else if list[from].story.id == id then from
    else IndexFrom(list, id, from + 1)
  }

  /** `findIndex(entry => entry.story.id === id)`. */
  function IndexOfStory(list: seq<StoryListItem>, id: string): (i: int)
    ensures -1 <= i < |list|
    ensures i >= 0 ==> list[i].story.id == id && forall j :: 0 <= j < i ==> list[j].story.id != id
    ensures i == -1 <==> forall j :: 0 <= j < |list| ==> list[j].story.id != id
  {
    IndexFrom(list, id, 0)
  }

  /** The list after upserting `item`: replaced in place when its story is listed, otherwise put first. */
  function Upserted(list: seq<StoryListItem>, item: StoryListItem): (r: seq<StoryListItem>)
    ensures item in r
    ensures |r| == if IndexOfStory(list, item.story.id) >= 0 then |list| else |list| + 1
  {
    var index := IndexOfStory(list, item.story.id);
    if index >= 0 then assert list[index := item][index] == item; list[index := item] else [item] + list
  }

  /** `filter(entry => entry.story.id !== id)`. */
  function WithoutStory(list: seq<StoryListItem>, id: string): (r: seq<StoryListItem>)
    ensures |r| <= |list|
    ensures forall e :: e in r <==> e in list && e.story.id != id
  {
    if list == [] then []
    else if list[0].story.id == id then WithoutStory(list[1..], id)
    else [list[0]] + WithoutStory(list[1..], id)
  }

  /** An existing story is replaced at its index; length and every other entry stay. */
  lemma UpsertExisting(list: seq<StoryListItem>, item: StoryListItem)
    requires exists k :: 0 <= k < |list| && list[k].story.id == item.story.id
    ensures var r := Upserted(list, item);
      var i := IndexOfStory(list, item.story.id);
      && 0 <= i < |list| && list[i].story.id == item.story.id
      && |r| == |list| && r[i] == item
      && forall j :: 0 <= j < |list| && j != i ==> r[j] == list[j]
  {
  }

  /** A new story goes to the front; the old list follows unchanged. */
  lemma UpsertNew(list: seq<StoryListItem>, item: StoryListItem)
    requires forall k :: 0 <= k < |list| ==> list[k].story.id != item.story.id
    ensures Upserted(list, item) == [item] + list
    ensures |Upserted(list, item)| == |list| + 1
  {
  }

  /** After an upsert the item is listed, and it is the only entry of its story when ids were unique. */
  lemma UpsertKeepsUnique(list: seq<StoryListItem>, item: StoryListItem)
    requires UniqueIds(list)
    ensures UniqueIds(Upserted(list, item))
    ensures item in Upserted(list, item)
  {
    var r := Upserted(list, item);
    var i := IndexOfStory(list, item.story.id);
    if i >= 0 {
      assert r[i] == item;
      forall a, b | 0 <= a < b < |r|
        ensures r[a].story.id != r[b].story.id
      {
        assert r[a].story.id == list[a].story.id;
        assert r[b].story.id == list[b].story.id;
      }
    } else {
      forall a, b | 0 <= a < b < |r|
        ensures r[a].story.id != r[b].story.id
      {
        assert r[b] == list[b - 1];
        if a > 0 {
          assert r[a] == list[a - 1];
        }
      }
    }
  }

  /** Upserting the same item twice is the same as once. */
  lemma UpsertIdempotent(list: seq<StoryListItem>, item: StoryListItem)
    ensures Upserted(Upserted(list, item), item) == Upserted(list, item)
  {
    var r := Upserted(list, item);
    var i := IndexOfStory(list, item.story.id);
    if i < 0 {
      assert r[0] == item;
      assert IndexOfStory(r, item.story.id) == 0;
    } else {
      assert r[i] == item;
      assert IndexOfStory(r, item.story.id) == i by {
        forall j | 0 <= j < i
          ensures r[j].story.id != item.story.id
        {
          assert r[j] == list[j];
        }
      }
    }
  }

  /** Removal keeps the remaining entries in their order: it distributes over concatenation. */
  lemma {:induction false} RemovalDistributes(a: seq<StoryListItem>, b: seq<StoryListItem>, id: string)
    ensures WithoutStory(a + b, id) == WithoutStory(a, id) + WithoutStory(b, id)
    decreases |a|
  {
    if a != [] {
      assert (a + b)[1..] == a[1..] + b;
      RemovalDistributes(a[1..], b, id);
    } else {
      assert a + b == b;
    }
  }

  /** Removing a story that is not listed changes nothing. */
  lemma {:induction false} RemovalOfAbsentIsIdentity(list: seq<StoryListItem>, id: string)
    requires forall k :: 0 <= k < |list| ==> list[k].story.id != id
    ensures WithoutStory(list, id) == list
    decreases |list|
  {
    if list != [] {
      RemovalOfAbsentIsIdentity(list[1..], id);
      assert [list[0]] + list[1..] == list;
    }
  }

  /** Removal keeps story ids unique. */
  lemma {:induction false} RemovalKeepsUnique(list: seq<StoryListItem>, id: string)
    requires UniqueIds(list)
    ensures UniqueIds(WithoutStory(list, id))
    decreases |list|
  {
    if list != [] {
      var tail := list[1..];
      assert UniqueIds(tail) by {
        forall a, b | 0 <= a < b < |tail|
          ensures tail[a].story.id != tail[b].story.id
        {
          assert tail[a] == list[a + 1] && tail[b] == list[b + 1];
        }
      }
      RemovalKeepsUnique(tail, id);
      if list[0].story.id != id {
        var rest := WithoutStory(tail, id);
        var r := [list[0]] + rest;
        forall a, b | 0 <= a < b < |r|
          ensures r[a].story.id != r[b].story.id
        {
          assert r[b] == rest[b - 1];
          assert rest[b - 1] in tail;
          if a > 0 {
            assert r[a] == rest[a - 1];
          } else {
            var m :| 0 <= m < |tail| && tail[m] == rest[b - 1];
            assert list[m + 1] == r[b];
          }
        }
      }
    }
  }

  /** Removing a story that an upsert just added as new gives back the original list. */
  lemma RemoveUndoesNewUpsert(list: seq<StoryListItem>, item: StoryListItem)
    requires forall k :: 0 <= k < |list| ==> list[k].story.id != item.story.id
    ensures WithoutStory(Upserted(list, item), item.story.id) == list
  {
    UpsertNew(list, item);
    var r := [item] + list;
    assert r[1..] == list;
    RemovalOfAbsentIsIdentity(list, item.story.id);
  }

  /** `upsertStoryListItem`: read the list, upsert, write it back; the result is what is cached. */
  function UpsertSpec(
    st: CacheState, item: StoryListItem, codec: Codec<seq<StoryListItem>>,
    readFails: bool, removeFails: bool, writeFails: bool): (r: (seq<StoryListItem>, CacheState))
    ensures r.1.cachedList == Some(r.0)
    ensures item in r.0
  {
    var (list, read) := ReadList(st, codec, readFails, removeFails);
    var updated := Upserted(list, item);
    assert item in updated by {
      var i := IndexOfStory(list, item.story.id);
      if i >= 0 { assert updated[i] == item; } else { assert updated[0] == item; }
    }
    (updated, WriteList(read, updated, codec, writeFails))
  }

  /** `removeStoryFromList`: read the list, drop the story, write it back. */
  function RemoveSpec(
    st: CacheState, id: string, codec: Codec<seq<StoryListItem>>,
    readFails: bool, removeFails: bool, writeFails: bool): (r: (seq<StoryListItem>, CacheState))
    ensures r.1.cachedList == Some(r.0)
    ensures forall e :: e in r.0 ==> e.story.id != id
  {
    var (list, read) := ReadList(st, codec, readFails, removeFails);
    var filtered := WithoutStory(list, id);
    (filtered, WriteList(read, filtered, codec, writeFails))
  }

  /** An upsert into a cached list of unique stories leaves a cached list of unique stories. */
  lemma UpsertCachedUnique(
    st: CacheState, item: StoryListItem, codec: Codec<seq<StoryListItem>>,
    readFails: bool, removeFails: bool, writeFails: bool)
    requires st.cachedList.Some? && UniqueIds(st.cachedList.value)
    ensures var r := UpsertSpec(st, item, codec, readFails, removeFails, writeFails);
      r.0 == Upserted(st.cachedList.value, item) && UniqueIds(r.0)
  {
    UpsertKeepsUnique(st.cachedList.value, item);
  }

  /** `list.findIndex(...)` as a scan. */
  method FindStoryIndex(list: seq<StoryListItem>, id: string) returns (index: int)
    ensures index == IndexOfStory(list, id)
  {
    var i := 0;
    while i < |list|
      invariant 0 <= i <= |list|
      invariant IndexFrom(list, id, i) == IndexFrom(list, id, 0)
    {
      if list[i].story.id == id {
        return i;
      }
      i := i + 1;
    }
    return -1;
  }

  // ---------------------------------------------------------------------
  // The module-level state
  // ---------------------------------------------------------------------

  /** The module's mutable state: storage, the fallback map and the two caches. */
  class Cache {
    var disk: map<string, string>
    var memory: map<string, string>
    var cachedStory: Option<StoryCreateResponse>
    var cachedList: Option<seq<StoryListItem>>

    function State(): CacheState
      reads this
    {
      CacheState(Storage(disk, memory), cachedStory, cachedList)
    }

    /** A fresh start of the app over what storage already holds. */
    constructor(persisted: map<string, string>)
      ensures State() == CacheState(Storage(persisted, map[]), None, None)
    {
      disk := persisted;
      memory := map[];
      cachedStory := None;
      cachedList := None;
    }

    method GetItem(key: string, fails: bool) returns (value: Option<string>)
      ensures value == Get(State().store, key, fails)
    {
      if !fails && key in disk {
        return Some(disk[key]);
      }
      value := if key in memory then Some(memory[key]) else None;
    }

    method SetItem(key: string, value: string, fails: bool)
      modifies this
      ensures State() == old(State()).(store := Set(old(State()).store, key, value, fails))
    {
      if !fails {
        disk := disk[key := value];
        return;
      }
      memory := memory[key := value];
    }

    method RemoveItem(key: string, fails: bool)
      modifies this
      ensures State() == old(State()).(store := Remove(old(State()).store, key, fails))
    {
      if !fails {
        disk := disk - {key};
        return;
      }
      memory := memory - {key};
    }

    method SetStorySession(story: StoryCreateResponse, codec: Codec<StoryCreateResponse>, fails: bool)
      modifies this
      ensures State() == WriteSession(old(State()), story, codec, fails)
    {
      cachedStory := Some(story);
      SetItem(SessionKey, codec.encode(story), fails);
    }

    method GetStorySession(codec: Codec<StoryCreateResponse>, readFails: bool, removeFails: bool)
      returns (story: Option<StoryCreateResponse>)
      modifies this
      ensures (story, State()) == ReadSession(old(State()), codec, readFails, removeFails)
    {
      if cachedStory.Some? {
        return cachedStory;
      }
      var raw := GetItem(SessionKey, readFails);
      if raw.None? || raw.value == "" {
        return None;
      }
      match codec.decode(raw.value)
      case Malformed =>
        RemoveItem(SessionKey, removeFails);
        return None;
      case Null =>
        return None;
      case Value(parsed) =>
        cachedStory := Some(parsed);
        return cachedStory;
    }

    method ClearStorySession(fails: bool)
      modifies this
      ensures State() == ClearSession(old(State()), fails)
    {
      cachedStory := None;
      RemoveItem(SessionKey, fails);
    }

    method SetStoryList(items: seq<StoryListItem>, codec: Codec<seq<StoryListItem>>, fails: bool)
      modifies this
      ensures State() == WriteList(old(State()), items, codec, fails)
    {
      cachedList := Some(items);
      SetItem(ListKey, codec.encode(items), fails);
    }

    method GetStoryList(codec: Codec<seq<StoryListItem>>, readFails: bool, removeFails: bool)
      returns (list: seq<StoryListItem>)
      modifies this
      ensures (list, State()) == ReadList(old(State()), codec, readFails, removeFails)
    {
      if cachedList.Some? {
        return cachedList.value;
      }
      var raw := GetItem(ListKey, readFails);
      if raw.None? || raw.value == "" {
        return [];
      }
      match codec.decode(raw.value)
      case Malformed =>
        RemoveItem(ListKey, removeFails);
        return [];
      case Null =>
        return [];
      case Value(items) =>
        cachedList := Some(items);
        return items;
    }

    method UpsertStoryListItem(
      item: StoryListItem, codec: Codec<seq<StoryListItem>>, readFails: bool, removeFails: bool, writeFails: bool)
      returns (list: seq<StoryListItem>)
      modifies this
      ensures (list, State()) == UpsertSpec(old(State()), item, codec, readFails, removeFails, writeFails)
    {
      list := GetStoryList(codec, readFails, removeFails);
      var index := FindStoryIndex(list, item.story.id);
      if index >= 0 {
        list := list[index := item];
      } else {
        list := [item] + list;
      }
      SetStoryList(list, codec, writeFails);
    }

    method RemoveStoryFromList(
      id: string, codec: Codec<seq<StoryListItem>>, readFails: bool, removeFails: bool, writeFails: bool)
      returns (filtered: seq<StoryListItem>)
      modifies this
      ensures (filtered, State()) == RemoveSpec(old(State()), id, codec, readFails, removeFails, writeFails)
    {
      var list := GetStoryList(codec, readFails, removeFails);
      filtered := WithoutStory(list, id);
      SetStoryList(filtered, codec, writeFails);
    }
  }
}
