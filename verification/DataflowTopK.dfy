// OrderTopKOperator and OutputOperator (dataflow.ts).
module DataflowTopK {
  import opened Query
  import opened Dataflow
  import opened DataflowContracts
  import opened DataflowOperators

  // What one group contributes to the output.
  ghost function Chosen(order: seq<OrderTerm>, limit: Option<nat>, m: Coll, group: Id): seq<Id> {
    Take(limit, Sorted(order, GroupOf(m, group)))
  }

  lemma ChosenFacts(order: seq<OrderTerm>, limit: Option<nat>, m: Coll, group: Id)
    ensures Distinct(Chosen(order, limit, m, group))
    ensures forall id :: id in Chosen(order, limit, m, group) <==> id in TopK(order, limit, m) && m[id].group == group
  {
    hide Sorted, Sorts, Before;
    var s := Sorted(order, GroupOf(m, group));
    SortedDistinct(order, GroupOf(m, group));
    SortedSorts(order, GroupOf(m, group));
    SortsMembers(order, GroupOf(m, group), s);
    var ids := Chosen(order, limit, m, group);
    forall id | id in ids ensures id in TopK(order, limit, m) && m[id].group == group {
      var i :| 0 <= i < |ids| && ids[i] == id;
      assert s[i] == id;
    }
  }

  // What is selected in a group is what the operator holds for the matches whose home it is.
  lemma SelectionOf(order: seq<OrderTerm>, limit: Option<nat>, m: Coll, group: Id)
    requires Homed(m)
    ensures Distinct(Chosen(order, limit, m, group))
    ensures forall id :: id in Chosen(order, limit, m, group) ==>
      id in m && HomeOf(id) == group && Get(TopK(order, limit, m), id) == Some(m[id])
    ensures forall id :: id in TopK(order, limit, m) && HomeOf(id) == group ==> id in Chosen(order, limit, m, group)
  {
    ChosenFacts(order, limit, m, group);
  }

  class OrderTopKOperator {
    const order: seq<OrderTerm>
    const limit: Option<nat>
    var records: Coll

    constructor (order: seq<OrderTerm>, limit: Option<nat>)
      ensures this.order == order && this.limit == limit && records == map[]
    {
      this.order, this.limit := order, limit;
      records := map[];
    }

    ghost function Emitted(): Coll
      reads this
    {
      TopK(order, limit, records)
    }

    method Selected(group: Id) returns (ids: seq<Id>)
      ensures ids == Chosen(order, limit, records, group)
    {
      var sorted := SortMatches(order, GroupOf(records, group));
      ids := Take(limit, sorted);
    }

    method SelectedAll(groups: seq<Id>) returns (all: seq<seq<Id>>)
      ensures |all| == |groups|
      ensures forall i :: 0 <= i < |groups| ==> all[i] == Chosen(order, limit, records, groups[i])
    {
      all := [];
      for i := 0 to |groups|
        invariant |all| == i
        invariant forall j :: 0 <= j < i ==> all[j] == Chosen(order, limit, records, groups[j])
      {
        var ids := Selected(groups[i]);
        all := all + [ids];
      }
    }

    // Deletions of what is no longer selected.
    method EmitRemoved(previous: Coll, oldIds: seq<Id>, newIds: seq<Id>, ghost m: Coll, ghost m': Coll)
      returns (output: Batch, ghost ids: seq<Id>)
      requires Distinct(oldIds)
      requires forall id :: id in oldIds ==> id in previous && Get(m, id) == Some(previous[id])
      requires forall id :: id in oldIds && id !in newIds ==> id !in m'
      ensures forall id :: id in ids <==> id in oldIds && id !in newIds
      ensures Distinct(ids) && output == ReplaceAll(ids, m, m')
    {
      hide Distinct, ReplaceAll;
      output, ids := [], [];
      NothingReplaced(m, m');
      NothingDistinct();
      for i := 0 to |oldIds|
        invariant forall id :: id in ids <==> id in oldIds[..i] && id !in newIds
        invariant Distinct(ids)
        invariant output == ReplaceAll(ids, m, m')
      {
        var id := oldIds[i];
        assert oldIds[..i + 1] == oldIds[..i] + [id];
        DistinctPrefix(oldIds, i);
        if id !in newIds {
          assert Replacement(id, Get(m, id), Get(m', id)) == [Change(id, previous[id], -1)];
          output := output + [Change(id, previous[id], -1)];
          ReplaceAllAppend(ids, id, m, m');
          AppendDistinct(ids, id);
          ids := ids + [id];
        }
      }
      assert oldIds[..|oldIds|] == oldIds;
    }

    // Insertions and replacements of what is selected.
    method EmitSelected(previous: Coll, oldIds: seq<Id>, newIds: seq<Id>, ghost m: Coll, ghost m': Coll) returns (output: Batch)
      requires forall id :: id in oldIds ==> id in previous && Get(m, id) == Some(previous[id])
      requires forall id :: id in newIds && id !in oldIds ==> id !in m
      requires forall id :: id in newIds ==> id in records && Get(m', id) == Some(records[id])
      ensures output == ReplaceAll(newIds, m, m')
    {
      hide ReplaceAll;
      output := [];
      NothingReplaced(m, m');
      for i := 0 to |newIds|
        invariant output == ReplaceAll(newIds[..i], m, m')
      {
        var id := newIds[i];
        assert newIds[..i + 1] == newIds[..i] + [id];
        ReplaceAllAppend(newIds[..i], id, m, m');
        if id in oldIds {
          output := output + Replacement(id, Some(previous[id]), Some(records[id]));
        } else {
          assert Replacement(id, Get(m, id), Get(m', id)) == [Change(id, records[id], 1)];
          output := output + [Change(id, records[id], 1)];
        }
      }
      assert newIds[..|newIds|] == newIds;
    }

    method EmitGroup(previous: Coll, group: Id, oldIds: seq<Id>, newIds: seq<Id>) returns (output: Batch, ghost ids: seq<Id>)
      requires oldIds == Chosen(order, limit, previous, group)
      requires newIds == Chosen(order, limit, records, group)
      requires Homed(previous) && Homed(records)
      ensures forall id :: id in ids <==> id in oldIds || id in newIds
      ensures Distinct(ids) && forall id :: id in ids ==> HomeOf(id) == group
      ensures output == ReplaceAll(ids, TopK(order, limit, previous), Emitted())
    {
      hide Distinct, TopK, Chosen, Homed, Get, ReplaceAll;
      ghost var m, m' := TopK(order, limit, previous), Emitted();
      SelectionOf(order, limit, previous, group);
      SelectionOf(order, limit, records, group);
      var removed, gone := EmitRemoved(previous, oldIds, newIds, m, m');
      var selected := EmitSelected(previous, oldIds, newIds, m, m');
      ReplaceAllConcat(gone, newIds, m, m');
      DistinctConcat(gone, newIds);
      output, ids := removed + selected, gone + newIds;
    }

    method Handle(changes: Batch) returns (output: Batch)
      requires Ready(TopKOp(order, limit, 0), [records], 0, changes)
      modifies this`records
      ensures records == Apply(old(records), changes) && Homed(records)
      ensures Tracks(old(Emitted()), output, Emitted())
      ensures Handled(TopKOp(order, limit, 0), [old(records)], 0, changes, output)
    {
      hide Distinct, Chosen, TopK, Homed, HomedBatch, Get, ReplaceAll, Valid, Apply, Tracks, Handled;
      var groups := AffectedGroups(changes);
      var before := SelectedAll(groups);
      var previous := records;
      records := ApplyChanges(records, changes);
      HomedApply(previous, changes);
      ghost var m, m' := TopK(order, limit, previous), Emitted();
      output := [];
      ghost var done: seq<Id> := [];
      NothingReplaced(m, m');
      NothingDistinct();
      for i := 0 to |groups|
        invariant records == Apply(previous, changes)
        invariant output == ReplaceAll(done, m, m')
        invariant Distinct(done)
        invariant forall id :: id in done ==> HomeOf(id) in groups[..i]
        invariant forall id :: (id in m || id in m') && HomeOf(id) in groups[..i] ==> id in done
      {
        var newIds := Selected(groups[i]);
        var emitted, ids := EmitGroup(previous, groups[i], before[i], newIds);
        assert groups[..i + 1] == groups[..i] + [groups[i]] && groups[i] !in groups[..i];
        ReplaceAllConcat(done, ids, m, m');
        DistinctConcat(done, ids);
        SelectionOf(order, limit, previous, groups[i]);
        SelectionOf(order, limit, records, groups[i]);
        output := output + emitted;
        done := done + ids;
      }
      assert groups[..|groups|] == groups;
      forall id | id !in done ensures Get(m, id) == Get(m', id) {
        OtherGroupsKept(order, limit, previous, changes, id, groups);
      }
      ReplaceAllTracks(done, m, m');
      SelectionHandled(order, limit, previous, changes, done, output);
    }
  }

  lemma {:induction false} ReplacementsAreEntries(ids: seq<Id>, m: Coll, m': Coll)
    ensures forall c :: c in ReplaceAll(ids, m, m') ==> Entry(m, c) || Entry(m', c)
  {
    if ids != [] {
      ReplacementsAreEntries(ids[..|ids| - 1], m, m');
    }
  }

  // What is selected anew or no more is a record held before or after the batch.
  lemma SelectionHandled(order: seq<OrderTerm>, limit: Option<nat>, m: Coll, changes: Batch, ids: seq<Id>, output: Batch)
    requires output == ReplaceAll(ids, TopK(order, limit, m), TopK(order, limit, Apply(m, changes)))
    requires Tracks(TopK(order, limit, m), output, TopK(order, limit, Apply(m, changes)))
    ensures Handled(TopKOp(order, limit, 0), [m], 0, changes, output)
  {
    hide Tracks, Apply, ReplaceAll, Sorted, Take;
    assert [m][0 := Apply(m, changes)] == [Apply(m, changes)];
    ReplacementsAreEntries(ids, TopK(order, limit, m), TopK(order, limit, Apply(m, changes)));
    forall k | 0 <= k < |output| ensures PassedOn(m, changes, output[k]) {
      assert output[k] in output;
      if !Entry(m, output[k]) {
        AppliedRecords(m, changes, output[k].id);
      }
    }
  }

  lemma DistinctPrefix(ids: seq<Id>, i: nat)
    requires Distinct(ids) && i < |ids|
    ensures ids[i] !in ids[..i]
  {
  }

  lemma AppendDistinct(ids: seq<Id>, id: Id)
    requires Distinct(ids) && id !in ids
    ensures Distinct(ids + [id])
  {
  }

  lemma ReplaceAllAppend(ids: seq<Id>, id: Id, m: Coll, m': Coll)
    ensures ReplaceAll(ids + [id], m, m') == ReplaceAll(ids, m, m') + Replacement(id, Get(m, id), Get(m', id))
  {
    assert (ids + [id])[..|ids|] == ids;
  }

  lemma NothingDistinct()
    ensures Distinct([])
  {
  }

  lemma NothingReplaced(m: Coll, m': Coll)
    ensures ReplaceAll([], m, m') == []
  {
  }

  lemma DistinctConcat(a: seq<Id>, b: seq<Id>)
    requires Distinct(a) && Distinct(b) && forall id :: id in a ==> id !in b
    ensures Distinct(a + b)
  {
    forall i, j | 0 <= i < j < |a + b| ensures (a + b)[i] != (a + b)[j] {
      if i < |a| <= j {
        assert a[i] in a && b[j - |a|] in b;
      }
    }
  }

  lemma {:induction false} ReplaceAllConcat(a: seq<Id>, b: seq<Id>, m: Coll, m': Coll)
    ensures ReplaceAll(a + b, m, m') == ReplaceAll(a, m, m') + ReplaceAll(b, m, m')
  {
    hide Get, Replacement;
    if b == [] {
      assert a + b == a;
    } else {
      assert (a + b)[..|a + b| - 1] == a + b[..|b| - 1];
      ReplaceAllConcat(a, b[..|b| - 1], m, m');
    }
  }

  lemma OtherGroupsKept(order: seq<OrderTerm>, limit: Option<nat>, m: Coll, changes: Batch, id: Id, groups: seq<Id>)
    requires Valid(m, changes) && Homed(m) && Homed(Apply(m, changes))
    requires forall k :: 0 <= k < |changes| ==> changes[k].value.group in groups
    requires HomeOf(id) in groups ==> id !in TopK(order, limit, m) && id !in TopK(order, limit, Apply(m, changes))
    ensures Get(TopK(order, limit, m), id) == Get(TopK(order, limit, Apply(m, changes)), id)
  {
    hide Sorted;
    var g := HomeOf(id);
    if g !in groups {
      ApplyOtherGroup(m, changes, g);
      assert id in GroupOf(m, g) <==> id in m;
      assert id in GroupOf(Apply(m, changes), g) <==> id in Apply(m, changes);
      if id in m {
        assert GroupOf(m, g)[id] == GroupOf(Apply(m, changes), g)[id];
      }
    }
  }

  // The listener is called with the initial value, and then only when the value has changed.
  class OutputOperator {
    var values: Coll
    var before: Option<Rec>

    constructor ()
      ensures values == map[]
    {
      values, before := map[], None;
    }

    function Current(): Option<Rec>
      reads this
    {
      Get(values, RootGroup)
    }

    method Handle(changes: Batch)
      modifies this`values
      ensures values == Apply(old(values), changes)
    {
      values := ApplyChanges(values, changes);
    }

    method Begin()
      modifies this`before
      ensures before == Current()
    {
      before := Current();
    }

    method Flush() returns (published: Option<Result>)
      modifies this`before
      ensures published.Some? <==> old(before) != Current()
      ensures published.Some? ==> published.value == if Current().Some? then Current().value.value else NoValue
    {
      published := if before == Current() then None
        else Some(if Current().Some? then Current().value.value else NoValue);
      before := None;
    }
  }

  // The whole output of a query's network in a quiet state.
  function Answer(value: Result): Coll {
    map[RootGroup := MaterializedRecord(RootGroup, value)]
  }

  /** One commit through the output: whatever batches take the output from one answer to the next, the listener is
      called exactly if the answer has changed, once, with the new answer. */
  method PublishCommit(output: OutputOperator, batches: seq<Batch>, ghost was: Result, ghost now: Result)
    returns (published: Option<Result>)
    requires output.values == Answer(was) && ApplyAll(output.values, batches) == Answer(now)
    modifies output
    ensures output.values == Answer(now)
    ensures published == if was == now then None else Some(now)
  {
    ghost var start := output.values;
    output.Begin();
    for i := 0 to |batches|
      invariant output.before == Get(start, RootGroup)
      invariant ApplyAll(output.values, batches[i..]) == ApplyAll(start, batches)
    {
      assert batches[i..][0] == batches[i] && batches[i..][1..] == batches[i + 1..];
      output.Handle(batches[i]);
    }
    assert batches[|batches|..] == [];
    assert Answer(was)[RootGroup] == MaterializedRecord(RootGroup, was) && Answer(now)[RootGroup] == MaterializedRecord(RootGroup, now);
    published := output.Flush();
  }
}
