// What the handlers of dataflow.ts need of the batch they receive, and what they promise of the batch they emit.
module DataflowContracts {
  import opened Query
  import opened Dataflow

  // The group a match belongs to, read off its id: a row id is in the root group, and a joined id
  // starts with its parent's id.
  function HomeOf(id: Id): Id {
    if id.MatchId? then id.parent else RootGroup
  }

  ghost predicate Homed(m: Coll) {
    forall id :: id in m ==> m[id].group == HomeOf(id)
  }

  ghost predicate HomedBatch(changes: Batch) {
    forall k :: 0 <= k < |changes| ==> changes[k].value.group == HomeOf(changes[k].id)
  }

  // Allowed rows have different keys, so a child meets at most one of them.
  ghost predicate KeyedOn(column: string, allowed: Coll) {
    forall i, j :: i in allowed && j in allowed && ColumnOf(allowed[i].row, column) == ColumnOf(allowed[j].row, column) ==> i == j
  }

  // They have before every change of the batch and after the last.
  ghost predicate KeyedOnThroughout(column: string, allowed: Coll, changes: Batch)
    decreases changes
  {
    && KeyedOn(column, allowed)
    && (changes != [] ==> KeyedOnThroughout(column, ApplyChange(allowed, changes[0]), changes[1..]))
  }

  function KeyOf(columns: seq<string>, row: Row): seq<Value> {
    seq(|columns|, i requires 0 <= i < |columns| => ColumnOf(row, columns[i]))
  }

  // The record of a row under the id that its primary key gives.
  predicate Rooted(columns: seq<string>, id: Id, r: Rec) {
    id == RowId(KeyOf(columns, r.row)) && r.group == RootGroup
  }

  ghost predicate RootedColl(columns: seq<string>, m: Coll) {
    forall id :: id in m ==> Rooted(columns, id, m[id])
  }

  ghost predicate RootedBatch(columns: seq<string>, batch: Batch) {
    forall k :: 0 <= k < |batch| ==> Rooted(columns, batch[k].id, batch[k].value)
  }

  // What a handler requires of a batch that arrives on port p.
  ghost predicate Ready(op: Op, ins: seq<Coll>, p: nat, batch: Batch)
    requires |ins| == |Inputs(op)| && p < |ins|
  {
    && Valid(ins[p], batch)
    && match op
       case AuthorizeOp(_, parentColumn, _, _) =>
         if p == 0 then KeyedOn(parentColumn, ins[1]) else KeyedOnThroughout(parentColumn, ins[1], batch)
       case TopKOp(_, _, _) => Homed(ins[0]) && HomedBatch(batch)
       case _ => true
  }

  // The change is of a record that the collection holds.
  predicate Entry(m: Coll, c: Change) {
    c.id in m && m[c.id] == c.value
  }

  // The change is of a record that the batch brings or takes.
  predicate Brought(batch: Batch, c: Change) {
    exists j :: 0 <= j < |batch| && batch[j].id == c.id && batch[j].value == c.value
  }

  predicate PassedOn(m: Coll, batch: Batch, c: Change) {
    Entry(m, c) || Brought(batch, c)
  }

  // The change is a root match of a row that the batch brings or takes.
  predicate RootMatchOf(batch: Batch, c: Change) {
    c.value.group == RootGroup && exists j :: 0 <= j < |batch| && batch[j].id == c.id && batch[j].value.row == c.value.row
  }

  predicate JoinedChange(c: Change) {
    c.id.MatchId? && c.value.group == c.id.parent
  }

  // Which records the emitted changes are of.
  ghost predicate Derived(op: Op, ins: seq<Coll>, p: nat, batch: Batch, output: Batch)
    requires |ins| == |Inputs(op)| && p < |ins|
  {
    match op
    case RootMatchOp(_, _) => forall k :: 0 <= k < |output| ==> RootMatchOf(batch, output[k])
    case CorrelateOp(_, _, _) => forall k :: 0 <= k < |output| ==> JoinedChange(output[k])
    case AuthorizeOp(_, _, _, _) => forall k :: 0 <= k < |output| ==> PassedOn(ins[0], if p == 0 then batch else [], output[k])
    case FilterOp(_, _) => forall k :: 0 <= k < |output| ==> PassedOn(ins[0], batch, output[k])
    case TopKOp(_, _, _) => forall k :: 0 <= k < |output| ==> PassedOn(ins[0], batch, output[k])
    case _ => true
  }

  // What a handler promises: the emitted batch is a valid change of the operator's function, and brings no records of its own.
  ghost predicate Handled(op: Op, ins: seq<Coll>, p: nat, batch: Batch, output: Batch)
    requires |ins| == |Inputs(op)| && p < |ins|
  {
    && Tracks(Denote(op, ins), output, Denote(op, ins[p := Apply(ins[p], batch)]))
    && Derived(op, ins, p, batch, output)
  }

  lemma {:induction false} HomedApply(m: Coll, changes: Batch)
    requires Homed(m) && HomedBatch(changes)
    ensures Homed(Apply(m, changes))
    decreases changes
  {
    if changes != [] {
      assert changes[0].value.group == HomeOf(changes[0].id);
      forall k | 0 <= k < |changes[1..]| ensures changes[1..][k].value.group == HomeOf(changes[1..][k].id) {
        assert changes[1..][k] == changes[k + 1];
      }
      HomedApply(ApplyChange(m, changes[0]), changes[1..]);
    }
  }

  // Every record after a batch was there before or was brought by the batch.
  lemma {:induction false} AppliedRecords(m: Coll, batch: Batch, id: Id)
    requires id in Apply(m, batch)
    ensures PassedOn(m, batch, Change(id, Apply(m, batch)[id], 1))
    decreases batch
  {
    if batch != [] {
      AppliedRecords(ApplyChange(m, batch[0]), batch[1..], id);
      var c := Change(id, Apply(m, batch)[id], 1);
      if Brought(batch[1..], c) {
        var j :| 0 <= j < |batch[1..]| && batch[1..][j].id == c.id && batch[1..][j].value == c.value;
        assert batch[j + 1] == batch[1..][j];
      } else if batch[0].id == id {
        assert Brought(batch, c);
      }
    }
  }
}
