/**
 * The flexible-canon lifecycle of the episode finalizer
 * (`applyFlexibleCanonUpdates` and its inner `touchItem`). Each finalizer
 * hit tags its evidence with the episode number, appends it to the item it
 * names unless that exact entry is already there, and promotes the item
 * tentative -> confirmed -> locked by the number of distinct entries.
 */
module CanonLifecycle {
  import opened Wrappers
  import opened Text
  import opened StoryTypes

  /** A flexible canon element the finalizer saw reinforced in an episode. */
  datatype Hit = Hit(category: Category, value: string, evidence: string)

  /** The evidence entry `episode:<N> <evidence>`. */
  function EvidenceEntry(episode: nat, evidence: string): (e: string)
    ensures StartsWith(e, "episode:")
  {
    "episode:" + NatToDecimal(episode) + " " + evidence
  }

  /** An evidence entry determines both the episode number and the evidence text. */
  lemma EvidenceEntryInjective(n1: nat, e1: string, n2: nat, e2: string)
    requires EvidenceEntry(n1, e1) == EvidenceEntry(n2, e2)
    ensures n1 == n2 && e1 == e2
  {
    var d1, d2 := NatToDecimal(n1), NatToDecimal(n2);
    var s := EvidenceEntry(n1, e1);
    assert s == "episode:" + (d1 + " " + e1);
    assert s == "episode:" + (d2 + " " + e2);
    assert d1 + " " + e1 == s[8..] == d2 + " " + e2;
    SpaceSplit(d1, e1, d2, e2);
    DecimalInjective(n1, n2);
  }

  /** `new Set(evidence).size`. */
  function DistinctCount(evidence: seq<string>): nat {
    |set e | e in evidence|
  }

  /** `touchItem`: record the entry once, then promote by at most one step. */
  function Touch(item: CanonItem, entry: string): (r: CanonItem)
    ensures r.value == item.value
    ensures entry in r.evidence
    ensures entry in item.evidence ==> r.evidence == item.evidence
    ensures entry !in item.evidence ==> r.evidence == item.evidence + [entry]
    ensures Rank(item.status) <= Rank(r.status) <= Rank(item.status) + 1
    ensures item.status == Tentative ==> (r.status == Confirmed <==> DistinctCount(r.evidence) >= 2)
    ensures item.status == Confirmed ==> (r.status == Locked <==> DistinctCount(r.evidence) >= 3)
  {
    var evidence := if entry in item.evidence then item.evidence else item.evidence + [entry];
    var count := DistinctCount(evidence);
    var status :=
      if item.status == Tentative && count >= 2 then Confirmed
      else if item.status == Confirmed && count >= 3 then Locked
      else item.status;
    CanonItem(item.value, status, evidence)
  }

  /** Touching a fresh item records the one entry and leaves it tentative. */
  lemma SingleEntryCount(entry: string)
    ensures DistinctCount([entry]) == 1
    ensures forall v :: Touch(NewItem(v), entry) == CanonItem(v, Tentative, [entry])
  {
    assert (set e | e in [entry]) == {entry};
    forall v
      ensures Touch(NewItem(v), entry) == CanonItem(v, Tentative, [entry])
    {
      assert [] + [entry] == [entry];
    }
  }

  /** The fresh item `{ value, status: "tentative", evidence: [] }`. */
  function NewItem(value: string): CanonItem {
    CanonItem(value, Tentative, [])
  }

  /** `list.find(entry => entry.value === value)`, as the index it finds. */
  function FindByValue(list: seq<CanonItem>, value: string): (r: Option<nat>)
    ensures r.Some? ==> r.value < |list| && list[r.value].value == value
    ensures r.Some? ==> forall j :: 0 <= j < r.value ==> list[j].value != value
    ensures r.None? ==> forall j :: 0 <= j < |list| ==> list[j].value != value
  {
    if list == [] then None
    else if list[0].value == value then Some(0)
    else match FindByValue(list[1..], value)
      case None => None
      case Some(k) => Some(k + 1)
  }

  /** `flexible[category] ?? []`. */
  function ListOrEmpty(lists: map<ListCategory, seq<CanonItem>>, c: ListCategory): seq<CanonItem> {
    if c in lists then lists[c] else []
  }

  /** A list-category hit: touch the first item with that value, or append a new one. */
  function TouchInList(list: seq<CanonItem>, value: string, entry: string): (r: seq<CanonItem>)
    ensures |list| <= |r| <= |list| + 1
    ensures forall k :: 0 <= k < |list| ==> r[k].value == list[k].value
    ensures |r| == |list| + 1 <==> forall k :: 0 <= k < |list| ==> list[k].value != value
  {
    match FindByValue(list, value)
    case Some(k) => list[k := Touch(list[k], entry)]
    case None => list + [Touch(NewItem(value), entry)]
  }

  /** The core conflict before it is touched: replaced when unlocked and the value differs. */
  function CoreBeforeTouch(core: CanonItem, value: string): CanonItem {
    if core.status != Locked && core.value != value then NewItem(value) else core
  }

  /** One iteration of the hit loop. */
  function ApplyHit(flex: FlexibleCanon, hit: Hit, episode: nat): (r: FlexibleCanon)
    ensures hit.category.CoreConflict? ==> r.lists == flex.lists
    ensures hit.category.ListOf? ==> r.coreConflict == flex.coreConflict
    ensures forall c :: c in flex.lists && hit.category != ListOf(c) ==> c in r.lists && r.lists[c] == flex.lists[c]
  {
    var entry := EvidenceEntry(episode, hit.evidence);
    match hit.category
    case CoreConflict =>
      flex.(coreConflict := Touch(CoreBeforeTouch(flex.coreConflict, hit.value), entry))
    case ListOf(c) =>
      flex.(lists := flex.lists[c := TouchInList(ListOrEmpty(flex.lists, c), hit.value, entry)])
  }

  /** The hits applied in order, first to last. */
  function ApplyHits(flex: FlexibleCanon, hits: seq<Hit>, episode: nat): (r: FlexibleCanon)
    ensures (forall i :: 0 <= i < |hits| ==> hits[i].category.CoreConflict?) ==> r.lists == flex.lists
    ensures (forall i :: 0 <= i < |hits| ==> hits[i].category.ListOf?) ==> r.coreConflict == flex.coreConflict
    decreases |hits|
  {
    if hits == [] then flex
    else ApplyHit(ApplyHits(flex, hits[..|hits| - 1], episode), hits[|hits| - 1], episode)
  }

  /** The profile `applyFlexibleCanonUpdates` returns. */
  function CanonUpdated(profile: StoryProfile, hits: seq<Hit>, episode: nat): (p: StoryProfile)
    ensures p.flexible.None? <==> profile.flexible.None?
    ensures p == profile.(flexible := p.flexible)
    ensures hits == [] ==> p == profile
  {
    match profile.flexible
    case None => profile
    case Some(flex) => profile.(flexible := Some(ApplyHits(flex, hits, episode)))
  }

  lemma ApplyHitsSnoc(flex: FlexibleCanon, hits: seq<Hit>, i: nat, episode: nat)
    requires i < |hits|
    ensures ApplyHits(flex, hits[..i + 1], episode) == ApplyHit(ApplyHits(flex, hits[..i], episode), hits[i], episode)
  {
    assert hits[..i + 1][..i] == hits[..i];
  }

  /** Pushing a fresh item and touching it in place is appending the touched item. */
  lemma PushThenTouch(list: seq<CanonItem>, value: string, entry: string)
    ensures (list + [NewItem(value)])[|list| := Touch(NewItem(value), entry)] == list + [Touch(NewItem(value), entry)]
  {
  }

  /**
   * `applyFlexibleCanonUpdates`. The profile is a value, so the
   * `structuredClone` copy is implicit and the caller's profile cannot change.
   */
  method ApplyFlexibleCanonUpdates(profile: StoryProfile, hits: seq<Hit>, episode: nat)
    returns (updated: StoryProfile)
    ensures updated == CanonUpdated(profile, hits, episode)
  {
    updated := profile;
    if profile.flexible.None? {
      return;
    }
    var flexible := profile.flexible.value;
    var i := 0;
    while i < |hits|
      invariant 0 <= i <= |hits|
      invariant flexible == ApplyHits(profile.flexible.value, hits[..i], episode)
    {
      ApplyHitsSnoc(profile.flexible.value, hits, i, episode);
      flexible := ApplyHitStep(flexible, hits[i], episode);
      i := i + 1;
    }
    assert hits[..|hits|] == hits;
    updated := profile.(flexible := Some(flexible));
  }

  /** The body of the hit loop: one hit applied to the local flexible canon. */
  method ApplyHitStep(flexible: FlexibleCanon, hit: Hit, episode: nat) returns (updated: FlexibleCanon)
    ensures updated == ApplyHit(flexible, hit, episode)
  {
    var entry := EvidenceEntry(episode, hit.evidence);
    match hit.category {
      case CoreConflict =>
        var core := flexible.coreConflict;
        if core.status != Locked && core.value != hit.value {
          core := core.(value := hit.value, status := Tentative, evidence := []);
        }
        core := Touch(core, entry);
        updated := flexible.(coreConflict := core);
      case ListOf(c) =>
        var list := if c in flexible.lists then flexible.lists[c] else [];
        var found := FindByValue(list, hit.value);
        var index: nat;
        ghost var original := list;
        if found.None? {
          list := list + [NewItem(hit.value)];
          index := |list| - 1;
        } else {
          index := found.value;
        }
        list := list[index := Touch(list[index], entry)];
        if found.None? {
          PushThenTouch(original, hit.value, entry);
        }
        assert list == TouchInList(original, hit.value, entry);
        updated := flexible.(lists := flexible.lists[c := list]);
    }
  }

  // ---------------------------------------------------------------------
  // Properties of one hit
  // ---------------------------------------------------------------------

  /** A locked core conflict keeps its value and status under any hit. */
  lemma LockedCoreUnchanged(flex: FlexibleCanon, hit: Hit, episode: nat)
    requires flex.coreConflict.status == Locked
    ensures var r := ApplyHit(flex, hit, episode).coreConflict;
      r.value == flex.coreConflict.value && r.status == Locked
  {
  }

  /**
   * An unlocked core conflict hit with a new value replaces the value and
   * restarts it as tentative with exactly the hit's evidence entry.
   */
  lemma CoreConflictReplaced(flex: FlexibleCanon, hit: Hit, episode: nat)
    requires hit.category == CoreConflict
    requires flex.coreConflict.status != Locked && flex.coreConflict.value != hit.value
    ensures ApplyHit(flex, hit, episode).coreConflict
         == CanonItem(hit.value, Tentative, [EvidenceEntry(episode, hit.evidence)])
    ensures ApplyHit(flex, hit, episode).lists == flex.lists
  {
    var entry := EvidenceEntry(episode, hit.evidence);
    SingleEntryCount(entry);
  }

  /**
   * A list-category hit touches the first item with that value, or appends
   * one new tentative item when none has it; every other item keeps its
   * place, every other category is untouched, and a missing list is created.
   */
  lemma ListHitEffect(flex: FlexibleCanon, hit: Hit, episode: nat)
    requires hit.category.ListOf?
    ensures var c := hit.category.list; var r := ApplyHit(flex, hit, episode);
      var old_ := ListOrEmpty(flex.lists, c); var new_ := r.lists[c];
      var entry := EvidenceEntry(episode, hit.evidence);
      && r.coreConflict == flex.coreConflict
      && r.lists.Keys == flex.lists.Keys + {c}
      && (forall c' :: c' in flex.lists && c' != c ==> r.lists[c'] == flex.lists[c'])
      && ((exists k :: 0 <= k < |old_| && old_[k].value == hit.value) ==>
            exists k :: 0 <= k < |old_| && old_[k].value == hit.value
              && (forall j :: 0 <= j < k ==> old_[j].value != hit.value)
              && new_ == old_[k := Touch(old_[k], entry)])
      && ((forall k :: 0 <= k < |old_| ==> old_[k].value != hit.value) ==>
            new_ == old_ + [CanonItem(hit.value, Tentative, [entry])])
  {
    var entry := EvidenceEntry(episode, hit.evidence);
    SingleEntryCount(entry);
  }

  /** Touching with an entry that is already recorded never grows the evidence. */
  lemma RepeatedTouchKeepsEvidence(item: CanonItem, entry: string)
    ensures Touch(Touch(item, entry), entry).evidence == Touch(item, entry).evidence
  {
  }

  // ---------------------------------------------------------------------
  // The consistency invariant: status is what the distinct evidence earns
  // ---------------------------------------------------------------------

  /** The status an item started fresh has earned after `n` distinct entries. */
  function StatusFor(n: nat): Status {
    if n >= 3 then Locked else if n >= 2 then Confirmed else Tentative
  }

  /** No duplicate evidence, and the status matches the evidence count. */
  ghost predicate ItemConsistent(item: CanonItem) {
    NoDup(item.evidence) && item.status == StatusFor(|item.evidence|)
  }

  ghost predicate CanonConsistent(flex: FlexibleCanon) {
    && ItemConsistent(flex.coreConflict)
    && forall c, k :: c in flex.lists && 0 <= k < |flex.lists[c]| ==> ItemConsistent(flex.lists[c][k])
  }

  /** Without duplicates, the distinct count is the length. */
  lemma {:induction false} DistinctCountNoDup(s: seq<string>)
    requires NoDup(s)
    ensures DistinctCount(s) == |s|
  {
    if s != [] {
      var t := s[..|s| - 1];
      assert NoDup(t);
      DistinctCountNoDup(t);
      assert (set e | e in s) == (set e | e in t) + {s[|s| - 1]};
      assert s[|s| - 1] !in (set e | e in t);
    }
  }

  /** A touch keeps an item consistent. */
  lemma TouchKeepsConsistent(item: CanonItem, entry: string)
    requires ItemConsistent(item)
    ensures ItemConsistent(Touch(item, entry))
  {
    var r := Touch(item, entry);
    assert NoDup(r.evidence);
    DistinctCountNoDup(r.evidence);
  }

  /** Touching a consistent item with an entry it already has changes nothing. */
  lemma TouchPresentIsIdentity(item: CanonItem, entry: string)
    requires ItemConsistent(item) && entry in item.evidence
    ensures Touch(item, entry) == item
  {
    DistinctCountNoDup(item.evidence);
  }

  lemma FreshItemConsistent(value: string)
    ensures ItemConsistent(NewItem(value))
  {
  }

  lemma TouchInListKeepsConsistent(list: seq<CanonItem>, value: string, entry: string)
    requires forall k :: 0 <= k < |list| ==> ItemConsistent(list[k])
    ensures var r := TouchInList(list, value, entry);
      forall k :: 0 <= k < |r| ==> ItemConsistent(r[k])
  {
    match FindByValue(list, value)
    case Some(k) => TouchKeepsConsistent(list[k], entry);
    case None => TouchKeepsConsistent(NewItem(value), entry);
  }

  /** One hit keeps the whole flexible canon consistent. */
  lemma ApplyHitKeepsConsistent(flex: FlexibleCanon, hit: Hit, episode: nat)
    requires CanonConsistent(flex)
    ensures CanonConsistent(ApplyHit(flex, hit, episode))
  {
    var entry := EvidenceEntry(episode, hit.evidence);
    match hit.category
    case CoreConflict =>
      TouchKeepsConsistent(CoreBeforeTouch(flex.coreConflict, hit.value), entry);
    case ListOf(c) =>
      TouchInListKeepsConsistent(ListOrEmpty(flex.lists, c), hit.value, entry);
  }

  /** A whole batch of hits keeps the flexible canon consistent. */
  lemma {:induction false} ApplyHitsKeepsConsistent(flex: FlexibleCanon, hits: seq<Hit>, episode: nat)
    requires CanonConsistent(flex)
    ensures CanonConsistent(ApplyHits(flex, hits, episode))
    decreases |hits|
  {
    if hits != [] {
      ApplyHitsKeepsConsistent(flex, hits[..|hits| - 1], episode);
      ApplyHitKeepsConsistent(ApplyHits(flex, hits[..|hits| - 1], episode), hits[|hits| - 1], episode);
    }
  }

  /** In a consistent list, touching the same value with the same entry twice is touching once. */
  lemma TouchInListIdempotent(list: seq<CanonItem>, value: string, entry: string)
    requires forall k :: 0 <= k < |list| ==> ItemConsistent(list[k])
    ensures TouchInList(TouchInList(list, value, entry), value, entry) == TouchInList(list, value, entry)
  {
    var list1 := TouchInList(list, value, entry);
    TouchInListKeepsConsistent(list, value, entry);
    match FindByValue(list, value)
    case Some(k) =>
      assert forall j :: 0 <= j < |list| ==> list1[j].value == list[j].value;
      assert FindByValue(list1, value) == Some(k);
      TouchPresentIsIdentity(list1[k], entry);
      assert list1[k := Touch(list1[k], entry)] == list1;
    case None =>
      var n := |list|;
      assert forall j :: 0 <= j < n ==> list1[j].value == list[j].value;
      assert list1[n].value == value;
      assert FindByValue(list1, value) == Some(n);
      TouchPresentIsIdentity(list1[n], entry);
      assert list1[n := Touch(list1[n], entry)] == list1;
  }

  /** For a consistent canon, applying the same hit twice is the same as once. */
  lemma ApplyHitIdempotent(flex: FlexibleCanon, hit: Hit, episode: nat)
    requires CanonConsistent(flex)
    ensures ApplyHit(ApplyHit(flex, hit, episode), hit, episode) == ApplyHit(flex, hit, episode)
  {
    var entry := EvidenceEntry(episode, hit.evidence);
    var once := ApplyHit(flex, hit, episode);
    match hit.category
    case CoreConflict =>
      var core := CoreBeforeTouch(flex.coreConflict, hit.value);
      TouchKeepsConsistent(core, entry);
      assert CoreBeforeTouch(once.coreConflict, hit.value) == once.coreConflict;
      TouchPresentIsIdentity(once.coreConflict, entry);
    case ListOf(c) =>
      TouchInListIdempotent(ListOrEmpty(flex.lists, c), hit.value, entry);
      assert ListOrEmpty(once.lists, c) == TouchInList(ListOrEmpty(flex.lists, c), hit.value, entry);
  }

  // ---------------------------------------------------------------------
  // Forward-only evolution across a batch
  // ---------------------------------------------------------------------

  /** `s` starts with `prefix`. */
  predicate IsPrefix(prefix: seq<string>, s: seq<string>) {
    |prefix| <= |s| && s[..|prefix|] == prefix
  }

  /**
   * `after` extends `before`: every list item keeps its place and value,
   * its status never moves back, and its evidence only grows.
   */
  ghost predicate ListsGrow(before: FlexibleCanon, after: FlexibleCanon) {
    forall c :: c in before.lists ==>
      && c in after.lists
      && |before.lists[c]| <= |after.lists[c]|
      && forall k :: 0 <= k < |before.lists[c]| ==>
           && after.lists[c][k].value == before.lists[c][k].value
           && Rank(before.lists[c][k].status) <= Rank(after.lists[c][k].status)
           && IsPrefix(before.lists[c][k].evidence, after.lists[c][k].evidence)
  }

  lemma ApplyHitGrows(flex: FlexibleCanon, hit: Hit, episode: nat)
    ensures ListsGrow(flex, ApplyHit(flex, hit, episode))
  {
    var r := ApplyHit(flex, hit, episode);
    forall c | c in flex.lists
      ensures c in r.lists && |flex.lists[c]| <= |r.lists[c]|
      ensures forall k :: 0 <= k < |flex.lists[c]| ==>
           && r.lists[c][k].value == flex.lists[c][k].value
           && Rank(flex.lists[c][k].status) <= Rank(r.lists[c][k].status)
           && IsPrefix(flex.lists[c][k].evidence, r.lists[c][k].evidence)
    {
      var l := flex.lists[c];
      forall k | 0 <= k < |l|
        ensures IsPrefix(l[k].evidence, r.lists[c][k].evidence)
      {
        assert (l[k].evidence + [EvidenceEntry(episode, hit.evidence)])[..|l[k].evidence|] == l[k].evidence;
      }
    }
  }

  lemma ListsGrowTransitive(a: FlexibleCanon, b: FlexibleCanon, c: FlexibleCanon)
    requires ListsGrow(a, b) && ListsGrow(b, c)
    ensures ListsGrow(a, c)
  {
    forall cat, k | cat in a.lists && 0 <= k < |a.lists[cat]|
      ensures IsPrefix(a.lists[cat][k].evidence, c.lists[cat][k].evidence)
    {
      var e1, e2, e3 := a.lists[cat][k].evidence, b.lists[cat][k].evidence, c.lists[cat][k].evidence;
      assert e3[..|e1|] == e3[..|e2|][..|e1|];
    }
  }

  /**
   * Across a whole batch no list item is removed, moved, renamed or
   * demoted, and no evidence is lost.
   */
  lemma {:induction false} ApplyHitsGrows(flex: FlexibleCanon, hits: seq<Hit>, episode: nat)
    ensures ListsGrow(flex, ApplyHits(flex, hits, episode))
    decreases |hits|
  {
    if hits == [] {
      assert forall c, k :: c in flex.lists && 0 <= k < |flex.lists[c]| ==>
        flex.lists[c][k].evidence[..|flex.lists[c][k].evidence|] == flex.lists[c][k].evidence;
    } else {
      var mid := ApplyHits(flex, hits[..|hits| - 1], episode);
      ApplyHitsGrows(flex, hits[..|hits| - 1], episode);
      ApplyHitGrows(mid, hits[|hits| - 1], episode);
      ListsGrowTransitive(flex, mid, ApplyHits(flex, hits, episode));
    }
  }

  /** A locked core conflict keeps its value and stays locked through a whole batch. */
  lemma {:induction false} ApplyHitsLockedCore(flex: FlexibleCanon, hits: seq<Hit>, episode: nat)
    requires flex.coreConflict.status == Locked
    ensures ApplyHits(flex, hits, episode).coreConflict.value == flex.coreConflict.value
    ensures ApplyHits(flex, hits, episode).coreConflict.status == Locked
    decreases |hits|
  {
    if hits != [] {
      ApplyHitsLockedCore(flex, hits[..|hits| - 1], episode);
      LockedCoreUnchanged(ApplyHits(flex, hits[..|hits| - 1], episode), hits[|hits| - 1], episode);
    }
  }

  /** No two items of a list share a value. */
  predicate ValuesUnique(list: seq<CanonItem>) {
    forall i, j :: 0 <= i < j < |list| ==> list[i].value != list[j].value
  }

  ghost predicate ListsValuesUnique(flex: FlexibleCanon) {
    forall c :: c in flex.lists ==> ValuesUnique(flex.lists[c])
  }

  /** Hits never create a second item with a value a list already holds. */
  lemma {:induction false} ApplyHitsKeepsValuesUnique(flex: FlexibleCanon, hits: seq<Hit>, episode: nat)
    requires ListsValuesUnique(flex)
    ensures ListsValuesUnique(ApplyHits(flex, hits, episode))
    decreases |hits|
  {
    if hits != [] {
      ApplyHitsKeepsValuesUnique(flex, hits[..|hits| - 1], episode);
      var mid := ApplyHits(flex, hits[..|hits| - 1], episode);
      var hit := hits[|hits| - 1];
      if hit.category.ListOf? {
        var c := hit.category.list;
        var l := ListOrEmpty(mid.lists, c);
        var r := TouchInList(l, hit.value, EvidenceEntry(episode, hit.evidence));
        assert ValuesUnique(r);
      }
    }
  }

  /** Only `canon.flexible` differs between a profile and its updated copy. */
  lemma CanonUpdateTouchesOnlyFlexible(profile: StoryProfile, hits: seq<Hit>, episode: nat)
    ensures var u := CanonUpdated(profile, hits, episode);
      u.(flexible := profile.flexible) == profile
    ensures profile.flexible.None? ==> CanonUpdated(profile, hits, episode) == profile
  {
  }
}
