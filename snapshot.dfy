/**
 * `buildStateSnapshot` of the episode generator: applies the inventory
 * deltas and the open-thread adds and resolves of a generated episode's
 * `state_update` to copies of the base state's lists, and picks time,
 * location and characters from the update or the base.
 */
module SnapshotMerger {
  import opened Wrappers
  import opened Text
  import opened StoryTypes

  /** `Array.prototype.indexOf`: the first index holding `x`, or -1. */
  function IndexOf(s: seq<string>, x: string): (r: int)
    ensures -1 <= r < |s|
    ensures r >= 0 ==> s[r] == x && forall j :: 0 <= j < r ==> s[j] != x
    ensures r == -1 <==> x !in s
  {
    if s == [] then -1
    else if s[0] == x then 0
    else var k := IndexOf(s[1..], x); if k == -1 then -1 else k + 1
  }

  /** `splice(indexOf(x), 1)` when `x` is present; unchanged otherwise. */
  function RemoveFirst(s: seq<string>, x: string): (r: seq<string>)
    ensures |r| == if x in s then |s| - 1 else |s|
    ensures forall y :: y in r ==> y in s
  {
    var k := IndexOf(s, x);
    if k >= 0 then s[..k] + s[k + 1..] else s
  }

  /** `!delta?.item`: a missing or empty item is skipped. */
  predicate Skipped(item: Option<string>) {
    item.None? || item.value == ""
  }

  /** One inventory delta. */
  function ApplyInventoryDelta(inventory: seq<string>, delta: InventoryDelta): (r: seq<string>)
    ensures |inventory| - 1 <= |r| <= |inventory| + 1
    ensures !Skipped(delta.item) && (delta.op == Add || delta.op == Update) ==> delta.item.value in r
  {
    if Skipped(delta.item) then inventory
    else
      var item := delta.item.value;
      match delta.op
      case Add => if item in inventory then inventory else inventory + [item]
      case Remove => RemoveFirst(inventory, item)
      case Update =>
        var k := IndexOf(inventory, item);
        if k >= 0 then assert inventory[k := item][k] == item; inventory[k := item] else inventory + [item]
      case OtherOp(_) => inventory
  }

  function ApplyInventoryDeltas(inventory: seq<string>, deltas: seq<InventoryDelta>): (r: seq<string>)
    ensures |r| <= |inventory| + |deltas|
    decreases |deltas|
  {
    if deltas == [] then inventory
    else ApplyInventoryDelta(ApplyInventoryDeltas(inventory, deltas[..|deltas| - 1]), deltas[|deltas| - 1])
  }

  /** Each thread that is non-empty and not yet present is appended. */
  function AddThreads(threads: seq<string>, adds: seq<string>): (r: seq<string>)
    ensures forall y :: y in threads ==> y in r
    ensures forall y :: y in r ==> y in threads || y in adds
    decreases |adds|
  {
    if adds == [] then threads
    else
      var t := AddThreads(threads, adds[..|adds| - 1]);
      var x := adds[|adds| - 1];
      if x != "" && x !in t then t + [x] else t
  }

  /** Each resolve removes the first occurrence of its thread, if any. */
  function ResolveThreads(threads: seq<string>, resolves: seq<string>): (r: seq<string>)
    ensures |r| <= |threads|
    ensures forall y :: y in r ==> y in threads
    decreases |resolves|
  {
    if resolves == [] then threads
    else RemoveFirst(ResolveThreads(threads, resolves[..|resolves| - 1]), resolves[|resolves| - 1])
  }

  function ListOr(s: Option<seq<string>>): seq<string> {
    s.GetOr([])
  }

  /** `update?.open_threads_delta ?? { add: [], resolve: [] }`, with non-arrays read as empty. */
  function ThreadAdds(update: StateUpdate): seq<string> {
    match update.openThreadsDelta
    case None => []
    case Some(d) => ListOr(d.add)
  }

  function ThreadResolves(update: StateUpdate): seq<string> {
    match update.openThreadsDelta
    case None => []
    case Some(d) => ListOr(d.resolve)
  }

  /** The snapshot `buildStateSnapshot` returns. */
  function Merged(base: DynamicState, update: StateUpdate): (m: Snapshot)
    ensures |m.inventory| <= |ListOr(base.inventory)| + |update.inventoryDelta.GetOr([])|
    ensures forall y :: y in m.openThreads ==> y in ListOr(base.openThreads) || y in ThreadAdds(update)
  {
    Snapshot(
      update.time.GetOr(base.currentTime.GetOr("")),
      update.locationId.GetOr(base.currentLocationId.GetOr("")),
      update.charactersPresent.GetOr(base.charactersPresent.GetOr([])),
      ApplyInventoryDeltas(ListOr(base.inventory), update.inventoryDelta.GetOr([])),
      ResolveThreads(AddThreads(ListOr(base.openThreads), ThreadAdds(update)), ThreadResolves(update)))
  }

  /** The body of the inventory loop: one delta applied to the local inventory. */
  method ApplyDeltaStep(inventory: seq<string>, delta: InventoryDelta) returns (updated: seq<string>)
    ensures updated == ApplyInventoryDelta(inventory, delta)
  {
    updated := inventory;
    if Skipped(delta.item) {
      return;
    }
    var item := delta.item.value;
    match delta.op
    case Add =>
      if item !in updated {
        updated := updated + [item];
      }
    case Remove =>
      var index := IndexOf(updated, item);
      if index >= 0 {
        updated := updated[..index] + updated[index + 1..];
      }
    case Update =>
      var index := IndexOf(updated, item);
      if index >= 0 {
        updated := updated[index := item];
      } else {
        updated := updated + [item];
      }
    case OtherOp(_) =>
  }

  /** The inventory loop of `buildStateSnapshot`: each delta in order, on a local copy. */
  method ApplyInventoryLoop(start: seq<string>, deltas: seq<InventoryDelta>) returns (inventory: seq<string>)
    ensures inventory == ApplyInventoryDeltas(start, deltas)
  {
    inventory := start;
    var i := 0;
    while i < |deltas|
      invariant 0 <= i <= |deltas|
      invariant inventory == ApplyInventoryDeltas(start, deltas[..i])
    {
      PrefixStep(deltas, i);
      inventory := ApplyDeltaStep(inventory, deltas[i]);
      i := i + 1;
    }
    assert deltas[..i] == deltas;
  }

  /** The thread-add loop: each non-empty thread not yet open is appended. */
  method AddThreadsLoop(start: seq<string>, adds: seq<string>) returns (openThreads: seq<string>)
    ensures openThreads == AddThreads(start, adds)
  {
    openThreads := start;
    var i := 0;
    while i < |adds|
      invariant 0 <= i <= |adds|
      invariant openThreads == AddThreads(start, adds[..i])
    {
      var thread := adds[i];
      PrefixStep(adds, i);
      if thread != "" && thread !in openThreads {
        openThreads := openThreads + [thread];
      }
      i := i + 1;
    }
    assert adds[..i] == adds;
  }

  /** The thread-resolve loop: each resolve splices out the first occurrence. */
  method ResolveThreadsLoop(start: seq<string>, resolves: seq<string>) returns (openThreads: seq<string>)
    ensures openThreads == ResolveThreads(start, resolves)
  {
    openThreads := start;
    var i := 0;
    while i < |resolves|
      invariant 0 <= i <= |resolves|
      invariant openThreads == ResolveThreads(start, resolves[..i])
    {
      var thread := resolves[i];
      PrefixStep(resolves, i);
      ghost var before := openThreads;
      var index := IndexOf(openThreads, thread);
      if index >= 0 {
        openThreads := openThreads[..index] + openThreads[index + 1..];
      }
      assert openThreads == RemoveFirst(before, thread);
      i := i + 1;
    }
    assert resolves[..i] == resolves;
  }

  /** `buildStateSnapshot`: the three loops over local copies of the base lists. */
  method BuildStateSnapshot(base: DynamicState, update: StateUpdate) returns (snapshot: Snapshot)
    ensures snapshot == Merged(base, update)
  {
    var inventory := ApplyInventoryLoop(ListOr(base.inventory), update.inventoryDelta.GetOr([]));
    var openThreads := AddThreadsLoop(ListOr(base.openThreads), ThreadAdds(update));
    openThreads := ResolveThreadsLoop(openThreads, ThreadResolves(update));
    snapshot := Snapshot(
      update.time.GetOr(base.currentTime.GetOr("")),
      update.locationId.GetOr(base.currentLocationId.GetOr("")),
      update.charactersPresent.GetOr(base.charactersPresent.GetOr([])),
      inventory,
      openThreads);
  }

  // ---------------------------------------------------------------------
  // One delta
  // ---------------------------------------------------------------------

  /**
   * `RemoveFirst` deletes exactly the first occurrence: everything before it
   * and after it keeps its order, and an absent item leaves the list as is.
   */
  lemma RemoveFirstEffect(s: seq<string>, x: string)
    ensures x !in s ==> RemoveFirst(s, x) == s
    ensures x in s ==> exists k :: 0 <= k < |s| && s[k] == x && x !in s[..k]
                         && RemoveFirst(s, x) == s[..k] + s[k + 1..]
    ensures x in s ==> |RemoveFirst(s, x)| == |s| - 1
    ensures multiset(RemoveFirst(s, x)) == multiset(s) - multiset{x}
  {
    var k := IndexOf(s, x);
    if k >= 0 {
      assert s == s[..k] + [x] + s[k + 1..];
      assert x !in s[..k];
    }
  }

  /** Inventory `add`: unchanged when present (idempotent), appended at the end otherwise. */
  lemma InventoryAdd(inventory: seq<string>, item: string)
    requires item != ""
    ensures item in inventory ==> ApplyInventoryDelta(inventory, InventoryDelta(Add, Some(item))) == inventory
    ensures item !in inventory ==> ApplyInventoryDelta(inventory, InventoryDelta(Add, Some(item))) == inventory + [item]
  {
  }

  /** Inventory `update`: leaves the list as it is when present, behaves like `add` when absent. */
  lemma InventoryUpdate(inventory: seq<string>, item: string)
    requires item != ""
    ensures ApplyInventoryDelta(inventory, InventoryDelta(Update, Some(item)))
         == ApplyInventoryDelta(inventory, InventoryDelta(Add, Some(item)))
  {
    var k := IndexOf(inventory, item);
    if k >= 0 {
      assert inventory[k := item] == inventory;
    }
  }

  /** Inventory `remove` of an absent item is a no-op; of a present one removes one copy. */
  lemma InventoryRemove(inventory: seq<string>, item: string)
    requires item != ""
    ensures item !in inventory ==> ApplyInventoryDelta(inventory, InventoryDelta(Remove, Some(item))) == inventory
    ensures item in inventory ==>
      |ApplyInventoryDelta(inventory, InventoryDelta(Remove, Some(item)))| == |inventory| - 1
    ensures multiset(ApplyInventoryDelta(inventory, InventoryDelta(Remove, Some(item))))
         == multiset(inventory) - multiset{item}
  {
    RemoveFirstEffect(inventory, item);
  }

  /** Deltas with a missing or empty item, or an unknown op, change nothing. */
  lemma InventorySkips(inventory: seq<string>, delta: InventoryDelta)
    requires Skipped(delta.item) || delta.op.OtherOp?
    ensures ApplyInventoryDelta(inventory, delta) == inventory
  {
  }

  // ---------------------------------------------------------------------
  // Set semantics: no duplicates in, none out
  // ---------------------------------------------------------------------

  lemma RemoveFirstNoDup(s: seq<string>, x: string)
    requires NoDup(s)
    ensures NoDup(RemoveFirst(s, x))
    ensures x !in RemoveFirst(s, x)
    ensures forall y :: y in RemoveFirst(s, x) <==> y in s && y != x
  {
    var k := IndexOf(s, x);
    if k >= 0 {
      var r := s[..k] + s[k + 1..];
      forall y | y in s && y != x ensures y in r {
        var j :| 0 <= j < |s| && s[j] == y;
        if j < k { assert r[j] == y; } else { assert r[j - 1] == y; }
      }
    }
  }

  /**
   * One delta on a duplicate-free inventory: it stays duplicate-free, and its
   * members gain the item (add, update) or lose it (remove).
   */
  lemma InventoryDeltaAsSet(inventory: seq<string>, delta: InventoryDelta)
    requires NoDup(inventory)
    ensures var r := ApplyInventoryDelta(inventory, delta);
      && NoDup(r)
      && (Skipped(delta.item) || delta.op.OtherOp? ==> r == inventory)
      && (!Skipped(delta.item) && (delta.op == Add || delta.op == Update) ==>
            forall y :: y in r <==> y in inventory || y == delta.item.value)
      && (!Skipped(delta.item) && delta.op == Remove ==>
            forall y :: y in r <==> y in inventory && y != delta.item.value)
  {
    if !Skipped(delta.item) {
      var item := delta.item.value;
      if delta.op == Remove {
        RemoveFirstNoDup(inventory, item);
      } else if delta.op == Update {
        InventoryUpdate(inventory, item);
      }
    }
  }

  /** A duplicate-free base inventory stays duplicate-free after any deltas. */
  lemma {:induction false} InventoryDeltasNoDup(inventory: seq<string>, deltas: seq<InventoryDelta>)
    requires NoDup(inventory)
    ensures NoDup(ApplyInventoryDeltas(inventory, deltas))
    decreases |deltas|
  {
    if deltas != [] {
      InventoryDeltasNoDup(inventory, deltas[..|deltas| - 1]);
      InventoryDeltaAsSet(ApplyInventoryDeltas(inventory, deltas[..|deltas| - 1]), deltas[|deltas| - 1]);
    }
  }

  /** The elements of a list, as a set. */
  function Members(s: seq<string>): (r: set<string>)
    ensures forall y :: y in r <==> y in s
  {
    set y | y in s
  }

  /**
   * The inventory as a set after the deltas, in order: add and update insert
   * the item, remove deletes it, a skipped delta or an unknown op changes
   * nothing. The reference the list fold is compared with.
   */
  function InventorySet(items: set<string>, deltas: seq<InventoryDelta>): set<string>
    decreases |deltas|
  {
    if deltas == [] then items
    else
      var before := InventorySet(items, deltas[..|deltas| - 1]);
      var delta := deltas[|deltas| - 1];
      if Skipped(delta.item) then before
      else match delta.op
        case Add => before + {delta.item.value}
        case Update => before + {delta.item.value}
        case Remove => before - {delta.item.value}
        case OtherOp(_) => before
  }

  /** On a duplicate-free inventory the list fold computes the set fold, and stays duplicate-free. */
  lemma {:induction false} InventoryDeltasAsSet(inventory: seq<string>, deltas: seq<InventoryDelta>)
    requires NoDup(inventory)
    ensures NoDup(ApplyInventoryDeltas(inventory, deltas))
    ensures Members(ApplyInventoryDeltas(inventory, deltas)) == InventorySet(Members(inventory), deltas)
    decreases |deltas|
  {
    if deltas != [] {
      var init := deltas[..|deltas| - 1];
      var delta := deltas[|deltas| - 1];
      InventoryDeltasAsSet(inventory, init);
      var before := ApplyInventoryDeltas(inventory, init);
      InventoryDeltaAsSet(before, delta);
      var after := ApplyInventoryDelta(before, delta);
      assert ApplyInventoryDeltas(inventory, deltas) == after;
      var expected := InventorySet(Members(inventory), deltas);
      assert Members(before) == InventorySet(Members(inventory), init);
      forall y ensures y in after <==> y in expected {
      }
    }
  }

  /**
   * Adding threads to a duplicate-free list keeps the base as a prefix, stays
   * duplicate-free, and yields the base plus every non-empty added thread.
   */
  lemma {:induction false} AddThreadsAsSet(threads: seq<string>, adds: seq<string>)
    requires NoDup(threads)
    ensures var r := AddThreads(threads, adds);
      && NoDup(r)
      && |threads| <= |r| && r[..|threads|] == threads
      && forall y :: y in r <==> y in threads || (y != "" && y in adds)
    decreases |adds|
  {
    if adds != [] {
      var init := adds[..|adds| - 1];
      AddThreadsAsSet(threads, init);
      var t := AddThreads(threads, init);
      var x := adds[|adds| - 1];
      assert adds == init + [x];
      if x != "" && x !in t {
        assert (t + [x])[..|threads|] == t[..|threads|];
      }
    }
  }

  /**
   * Resolving threads in a duplicate-free list stays duplicate-free and
   * removes exactly the resolved threads.
   */
  lemma {:induction false} ResolveThreadsAsSet(threads: seq<string>, resolves: seq<string>)
    requires NoDup(threads)
    ensures var r := ResolveThreads(threads, resolves);
      && NoDup(r)
      && forall y :: y in r <==> y in threads && y !in resolves
    decreases |resolves|
  {
    if resolves != [] {
      var init := resolves[..|resolves| - 1];
      ResolveThreadsAsSet(threads, init);
      RemoveFirstNoDup(ResolveThreads(threads, init), resolves[|resolves| - 1]);
      assert resolves == init + [resolves[|resolves| - 1]];
    }
  }

  /** Resolving the same thread twice in one delta removes at most one occurrence. */
  lemma ResolveTwiceRemovesOnce(threads: seq<string>, x: string)
    requires NoDup(threads)
    ensures ResolveThreads(threads, [x, x]) == RemoveFirst(threads, x)
  {
    assert [x, x][..1] == [x];
    assert [x][..0] == [];
    assert ResolveThreads(threads, [x]) == RemoveFirst(threads, x);
    RemoveFirstNoDup(threads, x);
    RemoveFirstEffect(RemoveFirst(threads, x), x);
  }

  /**
   * The merged snapshot against an independent description: the scalar
   * fields come from the update, else the base, else the empty default; for
   * duplicate-free base lists the open threads are the base threads plus the
   * non-empty adds minus the resolves, and both lists stay duplicate-free.
   */
  lemma MergedMeaning(base: DynamicState, update: StateUpdate)
    requires NoDup(ListOr(base.inventory)) && NoDup(ListOr(base.openThreads))
    ensures var m := Merged(base, update);
      && (update.time.Some? ==> m.time == update.time.value)
      && (update.time.None? && base.currentTime.Some? ==> m.time == base.currentTime.value)
      && (update.time.None? && base.currentTime.None? ==> m.time == "")
      && (update.locationId.Some? ==> m.locationId == update.locationId.value)
      && (update.locationId.None? && base.currentLocationId.Some? ==> m.locationId == base.currentLocationId.value)
      && (update.locationId.None? && base.currentLocationId.None? ==> m.locationId == "")
      && (update.charactersPresent.Some? ==> m.charactersPresent == update.charactersPresent.value)
      && (update.charactersPresent.None? ==> m.charactersPresent == ListOr(base.charactersPresent))
      && NoDup(m.inventory)
      && Members(m.inventory) == InventorySet(Members(ListOr(base.inventory)), update.inventoryDelta.GetOr([]))
      && NoDup(m.openThreads)
      && forall y :: y in m.openThreads <==>
           (y in ListOr(base.openThreads) || (y != "" && y in ThreadAdds(update))) && y !in ThreadResolves(update)
  {
    InventoryDeltasAsSet(ListOr(base.inventory), update.inventoryDelta.GetOr([]));
    var added := AddThreads(ListOr(base.openThreads), ThreadAdds(update));
    AddThreadsAsSet(ListOr(base.openThreads), ThreadAdds(update));
    ResolveThreadsAsSet(added, ThreadResolves(update));
  }

  /** The base lists are read, never written: merging returns new lists and leaves `base` as it was. */
  lemma MergeWithoutDeltasCopiesBase(base: DynamicState, update: StateUpdate)
    requires update.inventoryDelta.None? && update.openThreadsDelta.None?
    ensures Merged(base, update).inventory == ListOr(base.inventory)
    ensures Merged(base, update).openThreads == ListOr(base.openThreads)
  {
  }
}
