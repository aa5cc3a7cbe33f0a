// The operator classes of dataflow.ts. Each handler takes one batch and returns the batch it
// emits; its contract is the one the network relies on: the emitted batch is a valid change from
// the operator's function of its old inputs to the same function of its new inputs.
module DataflowOperators {
  import opened Query
  import opened Dataflow
  import opened DataflowContracts

  // ---------- replacements ----------

  function Get(m: Coll, id: Id): Option<Rec> {
    if id in m then Some(m[id]) else None
  }

  function Replacement(id: Id, before: Option<Rec>, after: Option<Rec>): Batch {
    if before.Some? && before == after then []
    else
      (if before.Some? then [Change(id, before.value, -1)] else [])
      + (if after.Some? then [Change(id, after.value, 1)] else [])
  }

  function ReplaceAll(ids: seq<Id>, m: Coll, m': Coll): Batch {
    if ids == [] then []
    else ReplaceAll(ids[..|ids| - 1], m, m') + Replacement(ids[|ids| - 1], Get(m, ids[|ids| - 1]), Get(m', ids[|ids| - 1]))
  }

  predicate Distinct(ids: seq<Id>) {
    forall i, j :: 0 <= i < j < |ids| ==> ids[i] != ids[j]
  }

  // m' on the given ids, m elsewhere.
  function Mixed(ids: seq<Id>, m: Coll, m': Coll): (r: Coll)
    ensures forall id :: Get(r, id) == if id in ids then Get(m', id) else Get(m, id)
  {
    map id | id in m.Keys + m'.Keys && (if id in ids then id in m' else id in m) :: if id in ids then m'[id] else m[id]
  }

  lemma SameGets(m: Coll, m': Coll)
    requires forall id :: Get(m, id) == Get(m', id)
    ensures m == m'
  {
    forall id ensures id in m <==> id in m' {
      assert Get(m, id) == Get(m', id);
    }
    forall id | id in m ensures m[id] == m'[id] {
      assert Get(m, id) == Get(m', id);
    }
  }

  lemma ReplacementTracks(m: Coll, m': Coll, id: Id)
    requires forall x :: x != id ==> Get(m, x) == Get(m', x)
    ensures Tracks(m, Replacement(id, Get(m, id), Get(m', id)), m')
  {
    var before, after := Get(m, id), Get(m', id);
    var n := m - {id};
    forall x ensures Get(n, x) == if x == id then None else Get(m', x) {
      assert x != id ==> Get(m, x) == Get(m', x);
    }
    if before == after {
      SameGets(m, m');
    } else if before.None? {
      SameGets(m[id := m'[id]], m');
      OneTracks(m, Change(id, m'[id], 1));
    } else if after.None? {
      SameGets(n, m');
      OneTracks(m, Change(id, m[id], -1));
    } else {
      SameGets(n[id := m'[id]], m');
      OneTracks(m, Change(id, m[id], -1));
      OneTracks(n, Change(id, m'[id], 1));
      TracksConcat(m, [Change(id, m[id], -1)], n, [Change(id, m'[id], 1)], m');
    }
  }

  lemma OneTracks(m: Coll, c: Change)
    requires Fits(m, c)
    ensures Tracks(m, [c], ApplyChange(m, c))
  {
    assert [c][1..] == [];
  }

  lemma {:induction false} ReplaceAllMixes(ids: seq<Id>, m: Coll, m': Coll)
    requires Distinct(ids)
    ensures Tracks(m, ReplaceAll(ids, m, m'), Mixed(ids, m, m'))
  {
    hide Tracks, Replacement;
    if ids == [] {
      SameGets(Mixed(ids, m, m'), m);
      NothingTracks(m);
    } else {
      var rest, id := ids[..|ids| - 1], ids[|ids| - 1];
      ReplaceAllMixes(rest, m, m');
      var a, b := Mixed(rest, m, m'), Mixed(ids, m, m');
      assert forall x :: x in ids <==> x in rest || x == id;
      assert id !in rest;
      ReplacementTracks(a, b, id);
      TracksConcat(m, ReplaceAll(rest, m, m'), a, Replacement(id, Get(m, id), Get(m', id)), b);
    }
  }

  lemma NothingTracks(m: Coll)
    ensures Tracks(m, [], m)
  {
  }

  /** Emitting the replacement of every affected id changes m into m'. */
  lemma ReplaceAllTracks(ids: seq<Id>, m: Coll, m': Coll)
    requires Distinct(ids)
    requires forall id :: id !in ids ==> Get(m, id) == Get(m', id)
    ensures Tracks(m, ReplaceAll(ids, m, m'), m')
  {
    ReplaceAllMixes(ids, m, m');
    var mixed := Mixed(ids, m, m');
    forall id ensures Get(mixed, id) == Get(m', id) {
      assert id !in ids ==> Get(m, id) == Get(m', id);
    }
    SameGets(mixed, m');
  }

  // The ids of a batch, each once, in order of first appearance.
  method AffectedIds(changes: Batch) returns (ids: seq<Id>)
    ensures Distinct(ids)
    ensures forall id :: id in ids <==> exists k :: 0 <= k < |changes| && changes[k].id == id
  {
    ids := [];
    for i := 0 to |changes|
      invariant Distinct(ids)
      invariant forall id :: id in ids <==> exists k :: 0 <= k < i && changes[k].id == id
    {
      if changes[i].id !in ids {
        ids := ids + [changes[i].id];
      }
      assert changes[i].id in ids;
    }
  }

  method AffectedGroups(changes: Batch) returns (ids: seq<Id>)
    ensures Distinct(ids)
    ensures forall id :: id in ids <==> exists k :: 0 <= k < |changes| && changes[k].value.group == id
  {
    ids := [];
    for i := 0 to |changes|
      invariant Distinct(ids)
      invariant forall id :: id in ids <==> exists k :: 0 <= k < i && changes[k].value.group == id
    {
      if changes[i].value.group !in ids {
        ids := ids + [changes[i].value.group];
      }
      assert changes[i].value.group in ids;
    }
  }

  // applyChanges, one change after the other.
  method ApplyChanges(state: Coll, changes: Batch) returns (next: Coll)
    ensures next == Apply(state, changes)
  {
    next := state;
    for i := 0 to |changes|
      invariant Apply(next, changes[i..]) == Apply(state, changes)
    {
      assert changes[i..][0] == changes[i] && changes[i..][1..] == changes[i + 1..];
      next := ApplyChange(next, changes[i]);
    }
    assert changes[|changes|..] == [];
  }

  lemma {:induction false} ApplyUntouched(m: Coll, changes: Batch, id: Id)
    requires forall k :: 0 <= k < |changes| ==> changes[k].id != id
    ensures Get(Apply(m, changes), id) == Get(m, id)
    decreases changes
  {
    if changes != [] {
      assert changes[0].id != id;
      forall k | 0 <= k < |changes[1..]| ensures changes[1..][k].id != id {
        assert changes[1..][k] == changes[k + 1];
      }
      ApplyUntouched(ApplyChange(m, changes[0]), changes[1..], id);
    }
  }

  lemma {:induction false} ApplyOtherGroup(m: Coll, changes: Batch, group: Id)
    requires Valid(m, changes)
    requires forall k :: 0 <= k < |changes| ==> changes[k].value.group != group
    ensures GroupOf(Apply(m, changes), group) == GroupOf(m, group)
    decreases changes
  {
    if changes != [] {
      var c := changes[0];
      var n := ApplyChange(m, c);
      assert c.value.group != group;
      forall k | 0 <= k < |changes[1..]| ensures changes[1..][k].value.group != group {
        assert changes[1..][k] == changes[k + 1];
      }
      ApplyOtherGroup(n, changes[1..], group);
      assert GroupOf(n, group) == GroupOf(m, group);
    }
  }

  // ---------- input ----------

  // A committed change of one row: what the row is afterwards, if it still exists.
  datatype RowChange = RowChange(key: seq<Value>, after: Option<Row>)

  datatype InputState = InputState(rows: Coll, next: nat)

  // A row that is already stored keeps its arrival ordinal; a new one gets the next.
  function PutRow(s: InputState, id: Id, row: Row): InputState {
    if id in s.rows then s.(rows := s.rows[id := RowRecord(row, s.rows[id].ordinal)])
    else InputState(s.rows[id := RowRecord(row, s.next)], s.next + 1)
  }

  function AcceptRow(s: InputState, c: RowChange): InputState {
    if c.after.Some? then PutRow(s, RowId(c.key), c.after.value) else s.(rows := s.rows - {RowId(c.key)})
  }

  function AcceptRows(s: InputState, changes: seq<RowChange>): InputState {
    if changes == [] then s
    else AcceptRow(AcceptRows(s, changes[..|changes| - 1]), changes[|changes| - 1])
  }

  ghost predicate DistinctOrdinals(s: InputState) {
    && (forall id :: id in s.rows ==> s.rows[id].ordinal < s.next)
    && (forall i, j :: i in s.rows && j in s.rows && i != j ==> s.rows[i].ordinal != s.rows[j].ordinal)
  }

  function RowsOf(m: Coll): map<Id, Row> {
    map id | id in m :: m[id].row
  }

  function ApplyRows(rows: map<Id, Row>, changes: seq<RowChange>): map<Id, Row> {
    if changes == [] then rows
    else
      var c := changes[|changes| - 1];
      var before := ApplyRows(rows, changes[..|changes| - 1]);
      if c.after.Some? then before[RowId(c.key) := c.after.value] else before - {RowId(c.key)}
  }

  function SeedAll(s: InputState, loaded: seq<(Id, Row)>): InputState {
    if loaded == [] then s
    else PutRow(SeedAll(s, loaded[..|loaded| - 1]), loaded[|loaded| - 1].0, loaded[|loaded| - 1].1)
  }

  function SeedRows(rows: map<Id, Row>, loaded: seq<(Id, Row)>): map<Id, Row> {
    if loaded == [] then rows
    else SeedRows(rows, loaded[..|loaded| - 1])[loaded[|loaded| - 1].0 := loaded[|loaded| - 1].1]
  }

  lemma PutRowOrdinals(s: InputState, id: Id, row: Row)
    requires DistinctOrdinals(s)
    ensures DistinctOrdinals(PutRow(s, id, row))
  {
  }

  lemma PutRowRows(s: InputState, id: Id, row: Row)
    ensures RowsOf(PutRow(s, id, row).rows) == RowsOf(s.rows)[id := row]
  {
  }

  lemma AcceptRowFacts(s: InputState, c: RowChange)
    requires DistinctOrdinals(s)
    ensures DistinctOrdinals(AcceptRow(s, c))
    ensures RowsOf(AcceptRow(s, c).rows) ==
      if c.after.Some? then RowsOf(s.rows)[RowId(c.key) := c.after.value] else RowsOf(s.rows) - {RowId(c.key)}
  {
    hide PutRow;
    if c.after.Some? {
      PutRowOrdinals(s, RowId(c.key), c.after.value);
      PutRowRows(s, RowId(c.key), c.after.value);
    }
  }

  /** An input holds the committed rows, each with an arrival ordinal of its own. */
  lemma {:induction false} InputHoldsRows(s: InputState, changes: seq<RowChange>)
    requires DistinctOrdinals(s)
    ensures DistinctOrdinals(AcceptRows(s, changes))
    ensures RowsOf(AcceptRows(s, changes).rows) == ApplyRows(RowsOf(s.rows), changes)
  {
    hide DistinctOrdinals, AcceptRow;
    if changes != [] {
      InputHoldsRows(s, changes[..|changes| - 1]);
      AcceptRowFacts(AcceptRows(s, changes[..|changes| - 1]), changes[|changes| - 1]);
    }
  }

  predicate Deletes(changes: seq<RowChange>, id: Id) {
    exists k :: 0 <= k < |changes| && RowId(changes[k].key) == id && changes[k].after.None?
  }

  /** A row that is only updated keeps its place among rows with equal order terms. */
  lemma {:induction false} UpdatesKeepOrdinals(s: InputState, changes: seq<RowChange>, id: Id)
    requires id in s.rows && !Deletes(changes, id)
    ensures id in AcceptRows(s, changes).rows
    ensures AcceptRows(s, changes).rows[id].ordinal == s.rows[id].ordinal
  {
    if changes != [] {
      var most := changes[..|changes| - 1];
      assert !Deletes(most, id) by {
        assert forall k :: 0 <= k < |most| ==> most[k] == changes[k];
      }
      UpdatesKeepOrdinals(s, most, id);
    }
  }

  /** Seeding a demand's rows overwrites exactly the loaded rows. */
  lemma {:induction false} SeedHoldsRows(s: InputState, loaded: seq<(Id, Row)>)
    requires DistinctOrdinals(s)
    ensures DistinctOrdinals(SeedAll(s, loaded))
    ensures RowsOf(SeedAll(s, loaded).rows) == SeedRows(RowsOf(s.rows), loaded)
  {
    hide DistinctOrdinals, PutRow;
    if loaded != [] {
      var last := loaded[|loaded| - 1];
      SeedHoldsRows(s, loaded[..|loaded| - 1]);
      PutRowOrdinals(SeedAll(s, loaded[..|loaded| - 1]), last.0, last.1);
      PutRowRows(SeedAll(s, loaded[..|loaded| - 1]), last.0, last.1);
    }
  }

  // The committed rows lie under the ids of their primary keys.
  ghost predicate KeyedChanges(columns: seq<string>, changes: seq<RowChange>) {
    forall k :: 0 <= k < |changes| && changes[k].after.Some? ==> changes[k].key == KeyOf(columns, changes[k].after.value)
  }

  ghost predicate KeyedRows(columns: seq<string>, loaded: seq<(Id, Row)>) {
    forall k :: 0 <= k < |loaded| ==> loaded[k].0 == RowId(KeyOf(columns, loaded[k].1))
  }

  // From rows under their keys come records under their keys.
  ghost predicate StaysRooted(columns: seq<string>, rows: Coll, sound: bool, output: Batch, rows': Coll) {
    RootedColl(columns, rows) && sound ==> RootedColl(columns, rows') && RootedBatch(columns, output)
  }

  class InputOperator {
    var rows: Coll
    var nextOrdinal: nat

    function State(): InputState
      reads this
    {
      InputState(rows, nextOrdinal)
    }

    constructor ()
      ensures State() == InputState(map[], 0)
    {
      rows, nextOrdinal := map[], 0;
    }

    method Handle(changes: seq<RowChange>) returns (output: Batch)
      modifies this
      ensures State() == AcceptRows(old(State()), changes)
      ensures Tracks(old(rows), output, rows)
      ensures forall columns :: StaysRooted(columns, old(rows), KeyedChanges(columns, changes), output, rows)
    {
      output := [];
      ghost var start := rows;
      NothingTracks(rows);
      for i := 0 to |changes|
        invariant State() == AcceptRows(old(State()), changes[..i])
        invariant Tracks(start, output, rows)
        invariant forall columns :: StaysRooted(columns, start, KeyedChanges(columns, changes), output, rows)
      {
        assert changes[..i + 1][..i] == changes[..i];
        ghost var emitted := output;
        var id := RowId(changes[i].key);
        var before := Get(rows, id);
        ghost var was := rows;
        if before.Some? {
          output := output + [Change(id, before.value, -1)];
          OneTracks(rows, Change(id, before.value, -1));
          rows := rows - {id};
          TracksConcat(start, output[..|output| - 1], was, [Change(id, before.value, -1)], rows);
        }
        if changes[i].after.Some? {
          var ordinal := if before.Some? then before.value.ordinal else nextOrdinal;
          if before.None? {
            nextOrdinal := nextOrdinal + 1;
          }
          var after := RowRecord(changes[i].after.value, ordinal);
          ghost var cleared := rows;
          OneTracks(rows, Change(id, after, 1));
          rows := rows[id := after];
          TracksConcat(start, output, cleared, [Change(id, after, 1)], rows);
          output := output + [Change(id, after, 1)];
          assert was[id := after] == rows;
        }
        forall columns ensures StaysRooted(columns, start, KeyedChanges(columns, changes), output, rows) {
          assert StaysRooted(columns, start, KeyedChanges(columns, changes), emitted, was);
          RootedStep(columns, was, changes[i], emitted, output, rows);
        }
      }
      assert changes[..|changes|] == changes;
    }

    // Rows loaded for a new demand; a row that is already there unchanged emits nothing.
    method Seed(loaded: seq<(Id, Row)>) returns (output: Batch)
      modifies this
      ensures Tracks(old(rows), output, rows)
      ensures State() == SeedAll(old(State()), loaded)
      ensures forall columns :: StaysRooted(columns, old(rows), KeyedRows(columns, loaded), output, rows)
    {
      output := [];
      ghost var start := rows;
      NothingTracks(rows);
      for i := 0 to |loaded|
        invariant Tracks(start, output, rows)
        invariant State() == SeedAll(old(State()), loaded[..i])
        invariant forall columns :: StaysRooted(columns, start, KeyedRows(columns, loaded), output, rows)
      {
        assert loaded[..i + 1][..i] == loaded[..i];
        ghost var emitted := output;
        var (id, row) := loaded[i];
        var before := Get(rows, id);
        var ordinal := if before.Some? then before.value.ordinal else nextOrdinal;
        if before.None? {
          nextOrdinal := nextOrdinal + 1;
        }
        var after := RowRecord(row, ordinal);
        ghost var was := rows;
        rows := rows[id := after];
        ReplacementTracks(was, rows, id);
        TracksConcat(start, output, was, Replacement(id, before, Some(after)), rows);
        output := output + Replacement(id, before, Some(after));
        forall columns ensures StaysRooted(columns, start, KeyedRows(columns, loaded), output, rows) {
          assert StaysRooted(columns, start, KeyedRows(columns, loaded), emitted, was);
        }
      }
      assert loaded[..|loaded|] == loaded;
    }

    // Rows that no demand needs any more.
    method Remove(ids: seq<Id>) returns (output: Batch)
      modifies this`rows
      ensures Tracks(old(rows), output, rows)
      ensures rows == map id | id in old(rows) && id !in ids :: old(rows)[id]
      ensures forall columns :: StaysRooted(columns, old(rows), true, output, rows)
    {
      output := [];
      ghost var start := rows;
      NothingTracks(rows);
      for i := 0 to |ids|
        invariant Tracks(start, output, rows)
        invariant rows == map id | id in old(rows) && id !in ids[..i] :: old(rows)[id]
        invariant forall columns :: StaysRooted(columns, start, true, output, rows)
      {
        ghost var emitted := output;
        var id := ids[i];
        ghost var was := rows;
        if id in rows {
          var c := Change(id, rows[id], -1);
          OneTracks(rows, c);
          rows := rows - {id};
          TracksConcat(start, output, was, [c], rows);
          output := output + [c];
        }
        assert ids[..i + 1] == ids[..i] + [id];
        forall columns ensures StaysRooted(columns, start, true, output, rows) {
          assert StaysRooted(columns, start, true, emitted, was);
        }
      }
      assert ids[..|ids|] == ids;
    }
  }

  lemma RootedStep(columns: seq<string>, was: Coll, change: RowChange, emitted: Batch, output: Batch, rows: Coll)
    requires var id := RowId(change.key);
      var gone := if id in was then [Change(id, was[id], -1)] else [];
      match change.after
      case None => output == emitted + gone && rows == was - {id}
      case Some(row) => exists ordinal: nat ::
        output == emitted + gone + [Change(id, RowRecord(row, ordinal), 1)] && rows == was[id := RowRecord(row, ordinal)]
    ensures RootedColl(columns, was) && RootedBatch(columns, emitted) && (change.after.Some? ==> change.key == KeyOf(columns, change.after.value)) ==>
      RootedColl(columns, rows) && RootedBatch(columns, output)
  {
  }

  // ---------- map and filter ----------

  // Stateless: the collection received so far is ghost.
  class FilterOperator {
    const filters: seq<Expr>
    ghost var received: Coll

    constructor (filters: seq<Expr>)
      ensures this.filters == filters && received == map[]
    {
      this.filters := filters;
      received := map[];
    }

    method Handle(changes: Batch) returns (output: Batch)
      requires Valid(received, changes)
      modifies this
      ensures received == Apply(old(received), changes)
      ensures Tracks(Passed(filters, old(received)), output, Passed(filters, received))
      ensures Handled(FilterOp(filters, 0), [old(received)], 0, changes, output)
    {
      output := [];
      ghost var start := received;
      NothingTracks(Passed(filters, start));
      for i := 0 to |changes|
        invariant Valid(received, changes[i..])
        invariant Apply(received, changes[i..]) == Apply(start, changes)
        invariant Tracks(Passed(filters, start), output, Passed(filters, received))
        invariant forall k :: 0 <= k < |output| ==> Brought(changes, output[k])
      {
        var c := changes[i];
        assert changes[i..][0] == c && changes[i..][1..] == changes[i + 1..];
        ghost var was := received;
        received := ApplyChange(received, c);
        if Passes(filters, c.value.context) {
          PassedStep(filters, was, c);
          TracksConcat(Passed(filters, start), output, Passed(filters, was), [c], Passed(filters, received));
          output := output + [c];
        } else {
          assert Passed(filters, received) == Passed(filters, was);
        }
      }
      assert changes[|changes|..] == [];
      assert [start][0 := received] == [received];
    }
  }

  lemma PassedStep(filters: seq<Expr>, m: Coll, c: Change)
    requires Fits(m, c) && Passes(filters, c.value.context)
    ensures Tracks(Passed(filters, m), [c], Passed(filters, ApplyChange(m, c)))
  {
    OneTracks(Passed(filters, m), c);
    var a, b := ApplyChange(Passed(filters, m), c), Passed(filters, ApplyChange(m, c));
    assert a.Keys == b.Keys;
    assert a == b;
  }

  // The three maps that the compiler builds: a root query's rows, the groups of parents, and projections.
  datatype MapKind = MapRows(source: SourceId) | MapGroups | MapFields(selection: Option<Fields>)

  function MappedRec(kind: MapKind, r: Rec): Rec {
    match kind
    case MapRows(source) => MatchOf(RootGroup, source, map[], r)
    case MapGroups => GroupRecord(r.group)
    case MapFields(selection) => r.(value := ProjectValue(selection, r))
  }

  function Mapped(kind: MapKind, m: Coll): Coll {
    map id | id in m :: MappedRec(kind, m[id])
  }

  function MapOp(kind: MapKind): (op: Op)
    ensures |Inputs(op)| == 1
  {
    match kind
    case MapRows(source) => RootMatchOp(source, 0)
    case MapGroups => GroupsOp(0)
    case MapFields(selection) => ProjectOp(selection, 0)
  }

  lemma DenotesMap(kind: MapKind, m: Coll)
    ensures Denote(MapOp(kind), [m]) == Mapped(kind, m)
  {
  }

  class MapOperator {
    const kind: MapKind
    ghost var received: Coll

    constructor (kind: MapKind)
      ensures this.kind == kind && received == map[]
    {
      this.kind := kind;
      received := map[];
    }

    method Handle(changes: Batch) returns (output: Batch)
      requires Valid(received, changes)
      modifies this
      ensures received == Apply(old(received), changes)
      ensures Tracks(Mapped(kind, old(received)), output, Mapped(kind, received))
      ensures Handled(MapOp(kind), [old(received)], 0, changes, output)
    {
      hide MappedRec, MapOp, Denote, Inputs, Derived;
      output := [];
      ghost var start := received;
      NothingTracks(Mapped(kind, start));
      for i := 0 to |changes|
        invariant Valid(received, changes[i..])
        invariant Apply(received, changes[i..]) == Apply(start, changes)
        invariant Tracks(Mapped(kind, start), output, Mapped(kind, received))
        invariant |output| == i && forall k :: 0 <= k < i ==> output[k] == Change(changes[k].id, MappedRec(kind, changes[k].value), changes[k].diff)
      {
        var c := changes[i];
        assert changes[i..][0] == c && changes[i..][1..] == changes[i + 1..];
        ghost var was := received;
        received := ApplyChange(received, c);
        var mapped := Change(c.id, MappedRec(kind, c.value), c.diff);
        MappedStep(kind, was, c);
        TracksConcat(Mapped(kind, start), output, Mapped(kind, was), [mapped], Mapped(kind, received));
        output := output + [mapped];
      }
      assert changes[|changes|..] == [];
      assert [start][0 := received] == [received];
      DenotesMap(kind, start);
      DenotesMap(kind, received);
      MappedDerived(kind, start, changes, output);
    }
  }

  lemma MappedDerived(kind: MapKind, m: Coll, changes: Batch, output: Batch)
    requires |output| == |changes|
    requires forall k :: 0 <= k < |output| ==> output[k] == Change(changes[k].id, MappedRec(kind, changes[k].value), changes[k].diff)
    ensures Derived(MapOp(kind), [m], 0, changes, output)
  {
  }

  lemma MappedStep(kind: MapKind, m: Coll, c: Change)
    requires Fits(m, c)
    ensures Tracks(Mapped(kind, m), [Change(c.id, MappedRec(kind, c.value), c.diff)], Mapped(kind, ApplyChange(m, c)))
  {
    hide MappedRec;
    var mapped := Change(c.id, MappedRec(kind, c.value), c.diff);
    OneTracks(Mapped(kind, m), mapped);
    var a, b := ApplyChange(Mapped(kind, m), mapped), Mapped(kind, ApplyChange(m, c));
    assert a.Keys == b.Keys;
    assert a == b;
  }

  // ---------- nest ----------

  class NestOperator {
    const property: string
    var left: Coll
    var right: Coll

    constructor (property: string)
      ensures this.property == property && left == map[] && right == map[]
    {
      this.property := property;
      left, right := map[], map[];
    }

    ghost function Emitted(): Coll
      reads this
    {
      Nested(property, left, right)
    }

    function Combined(id: Id): (r: Option<Rec>)
      reads this
      ensures r == Get(Emitted(), id)
    {
      if id in left && id in right then
        Some(left[id].(value := NestValue(property, left[id].value, right[id].value)))
      else None
    }

    method HandleLeft(changes: Batch) returns (output: Batch)
      modifies this`left
      ensures left == Apply(old(left), changes)
      ensures Tracks(old(Emitted()), output, Emitted())
      ensures Handled(NestOp(property, 0, 0), [old(left), right], 0, changes, output)
    {
      var ids := AffectedIds(changes);
      var before := CombineAll(ids);
      ghost var was := Emitted();
      left := ApplyChanges(left, changes);
      forall id | id !in ids ensures Get(was, id) == Get(Emitted(), id) {
        ApplyUntouched(old(left), changes, id);
        assert Get(left, id) == Get(old(left), id);
      }
      output := EmitReplacements(ids, before, was);
      assert [old(left), right][0 := left] == [left, right];
    }

    method HandleRight(changes: Batch) returns (output: Batch)
      modifies this`right
      ensures right == Apply(old(right), changes)
      ensures Tracks(old(Emitted()), output, Emitted())
      ensures Handled(NestOp(property, 0, 0), [left, old(right)], 1, changes, output)
    {
      var ids := AffectedIds(changes);
      var before := CombineAll(ids);
      ghost var was := Emitted();
      right := ApplyChanges(right, changes);
      forall id | id !in ids ensures Get(was, id) == Get(Emitted(), id) {
        ApplyUntouched(old(right), changes, id);
        assert Get(right, id) == Get(old(right), id);
      }
      output := EmitReplacements(ids, before, was);
      assert [left, old(right)][1 := right] == [left, right];
    }

    method CombineAll(ids: seq<Id>) returns (values: seq<Option<Rec>>)
      ensures |values| == |ids| && forall i :: 0 <= i < |ids| ==> values[i] == Get(Emitted(), ids[i])
    {
      values := [];
      for i := 0 to |ids|
        invariant |values| == i && forall j :: 0 <= j < i ==> values[j] == Get(Emitted(), ids[j])
      {
        values := values + [Combined(ids[i])];
      }
    }

    method EmitReplacements(ids: seq<Id>, before: seq<Option<Rec>>, ghost was: Coll) returns (output: Batch)
      requires Distinct(ids) && |before| == |ids|
      requires forall i :: 0 <= i < |ids| ==> before[i] == Get(was, ids[i])
      requires forall id :: id !in ids ==> Get(was, id) == Get(Emitted(), id)
      ensures Tracks(was, output, Emitted())
    {
      output := [];
      for i := 0 to |ids|
        invariant output == ReplaceAll(ids[..i], was, Emitted())
      {
        assert ids[..i + 1][..i] == ids[..i];
        output := output + Replacement(ids[i], before[i], Combined(ids[i]));
      }
      assert ids[..|ids|] == ids;
      ReplaceAllTracks(ids, was, Emitted());
    }
  }

  // ---------- reduce and cardinality ----------

  lemma GroupGains(m: Coll, id: Id, r: Rec)
    requires id !in m
    ensures |GroupOf(m[id := r], r.group)| == |GroupOf(m, r.group)| + 1
  {
    var a, b := GroupOf(m, r.group).Keys, GroupOf(m[id := r], r.group).Keys;
    assert b == a + {id};
  }

  lemma GroupLoses(m: Coll, id: Id)
    requires id in m
    ensures |GroupOf(m - {id}, m[id].group)| == |GroupOf(m, m[id].group)| - 1
  {
    var a, b := GroupOf(m, m[id].group).Keys, GroupOf(m - {id}, m[id].group).Keys;
    assert a == b + {id};
  }

  lemma GroupKeeps(m: Coll, c: Change, group: Id)
    requires Fits(m, c) && c.value.group != group
    ensures GroupOf(ApplyChange(m, c), group) == GroupOf(m, group)
  {
  }

  lemma GroupSize(m: Coll, c: Change, group: Id)
    requires Fits(m, c)
    ensures |GroupOf(ApplyChange(m, c), group)| == |GroupOf(m, group)| + (if c.value.group == group then c.diff else 0)
  {
    hide GroupOf;
    if c.value.group != group {
      GroupKeeps(m, c, group);
    } else if c.diff == 1 {
      GroupGains(m, c.id, c.value);
    } else {
      GroupLoses(m, c.id);
    }
  }

  function DeltaAt(deltas: map<Id, int>, group: Id): int {
    if group in deltas then deltas[group] else 0
  }

  class ReduceOperator {
    const existence: bool
    var counts: map<Id, int>
    var groups: Coll
    ghost var received: Coll

    constructor (existence: bool)
      ensures this.existence == existence && Consistent() && received == map[] && groups == map[]
    {
      this.existence := existence;
      counts, groups, received := map[], map[], map[];
    }

    function CountAt(group: Id): int
      reads this
    {
      if group in counts then counts[group] else 0
    }

    // A group's count is the number of its matches; empty groups have no entry.
    ghost predicate Consistent()
      reads this
    {
      && (forall g :: CountAt(g) == |GroupOf(received, g)|)
      && (forall g :: g in counts ==> counts[g] != 0)
    }

    ghost function Emitted(): Coll
      reads this
    {
      Reduced(existence, received, groups)
    }

    function Materialized(group: Id): Option<Rec>
      requires CountAt(group) >= 0
      reads this
    {
      if group in groups then Some(MaterializedRecord(groups[group].group, CountResult(existence, CountAt(group))))
      else None
    }

    method MaterializeAll(ids: seq<Id>) returns (values: seq<Option<Rec>>)
      requires Consistent()
      ensures |values| == |ids| && forall i :: 0 <= i < |ids| ==> values[i] == Get(Emitted(), ids[i])
    {
      values := [];
      for i := 0 to |ids|
        invariant |values| == i && forall j :: 0 <= j < i ==> values[j] == Get(Emitted(), ids[j])
      {
        values := values + [Materialized(ids[i])];
      }
    }

    method EmitGroups(ids: seq<Id>, before: seq<Option<Rec>>, ghost was: Coll) returns (output: Batch)
      requires Consistent()
      requires Distinct(ids) && |before| == |ids|
      requires forall i :: 0 <= i < |ids| ==> before[i] == Get(was, ids[i])
      requires forall id :: id !in ids ==> Get(was, id) == Get(Emitted(), id)
      ensures Tracks(was, output, Emitted())
    {
      var after := MaterializeAll(ids);
      output := [];
      for i := 0 to |ids|
        invariant output == ReplaceAll(ids[..i], was, Emitted())
      {
        assert ids[..i + 1][..i] == ids[..i];
        output := output + Replacement(ids[i], before[i], after[i]);
      }
      assert ids[..|ids|] == ids;
      ReplaceAllTracks(ids, was, Emitted());
    }

    // How much the batch adds to or takes from every group.
    method Deltas(changes: Batch, ghost m: Coll) returns (deltas: map<Id, int>)
      requires Valid(m, changes)
      ensures forall g :: DeltaAt(deltas, g) == |GroupOf(Apply(m, changes), g)| - |GroupOf(m, g)|
    {
      deltas := map[];
      ghost var now := m;
      for i := 0 to |changes|
        invariant Valid(now, changes[i..])
        invariant Apply(now, changes[i..]) == Apply(m, changes)
        invariant forall g :: DeltaAt(deltas, g) == |GroupOf(now, g)| - |GroupOf(m, g)|
      {
        var c := changes[i];
        assert changes[i..][0] == c && changes[i..][1..] == changes[i + 1..];
        forall g {
          GroupSize(now, c, g);
        }
        deltas := deltas[c.value.group := DeltaAt(deltas, c.value.group) + c.diff];
        now := ApplyChange(now, c);
      }
      assert changes[|changes|..] == [];
    }

    // Count every affected group anew; a group whose count becomes zero loses its entry.
    method AddDeltas(ids: seq<Id>, deltas: map<Id, int>)
      requires Distinct(ids) && forall g :: g in counts ==> counts[g] != 0
      modifies this`counts
      ensures forall g :: g in counts ==> counts[g] != 0
      ensures forall g :: CountAt(g) == old(CountAt(g)) + (if g in ids then DeltaAt(deltas, g) else 0)
    {
      for i := 0 to |ids|
        invariant forall g :: g in counts ==> counts[g] != 0
        invariant forall g :: CountAt(g) == old(CountAt(g)) + (if g in ids[..i] then DeltaAt(deltas, g) else 0)
      {
        assert ids[i] !in ids[..i];
        assert ids[..i + 1] == ids[..i] + [ids[i]];
        var count := CountAt(ids[i]) + DeltaAt(deltas, ids[i]);
        counts := if count == 0 then counts - {ids[i]} else counts[ids[i] := count];
      }
      assert ids[..|ids|] == ids;
    }

    method HandleInput(changes: Batch) returns (output: Batch)
      requires Consistent() && Valid(received, changes)
      modifies this`counts, this`received
      ensures Consistent() && received == Apply(old(received), changes)
      ensures Tracks(old(Emitted()), output, Emitted())
      ensures Handled(ReduceOp(existence, 0, 0), [old(received), groups], 0, changes, output)
    {
      hide GroupOf, Handled;
      var ids := AffectedGroups(changes);
      var deltas := Deltas(changes, received);
      var before := MaterializeAll(ids);
      ghost var was, start := Emitted(), received;
      AddDeltas(ids, deltas);
      received := Apply(received, changes);
      forall id | id !in ids ensures GroupOf(start, id) == GroupOf(received, id) {
        ApplyOtherGroup(start, changes, id);
      }
      output := EmitGroups(ids, before, was);
      CountsHandled(existence, start, groups, changes, output);
    }

    method HandleGroups(changes: Batch) returns (output: Batch)
      requires Consistent()
      modifies this`groups
      ensures Consistent() && groups == Apply(old(groups), changes)
      ensures Tracks(old(Emitted()), output, Emitted())
      ensures Handled(ReduceOp(existence, 0, 0), [received, old(groups)], 1, changes, output)
    {
      var ids := AffectedIds(changes);
      var before := MaterializeAll(ids);
      ghost var was := Emitted();
      groups := ApplyChanges(groups, changes);
      forall id | id !in ids ensures Get(was, id) == Get(Emitted(), id) {
        ApplyUntouched(old(groups), changes, id);
        assert Get(groups, id) == Get(old(groups), id);
      }
      output := EmitGroups(ids, before, was);
      assert [received, old(groups)][1 := groups] == [received, groups];
    }
  }

  lemma CountsHandled(existence: bool, received: Coll, groups: Coll, changes: Batch, output: Batch)
    requires Tracks(Reduced(existence, received, groups), output, Reduced(existence, Apply(received, changes), groups))
    ensures Handled(ReduceOp(existence, 0, 0), [received, groups], 0, changes, output)
  {
    hide Reduced, Tracks, Apply;
    assert [received, groups][0 := Apply(received, changes)] == [Apply(received, changes), groups];
  }

  lemma SortedDistinct(order: seq<OrderTerm>, m: Coll)
    ensures Distinct(Sorted(order, m))
  {
    var s := Sorted(order, m);
    SortedSorts(order, m);
    forall i, j | 0 <= i < j < |s| ensures s[i] != s[j] {
      BeforeIsOrder(order, s[i], m[s[i]], s[j], m[s[j]], s[i], m[s[i]]);
    }
  }

  // Array.prototype.sort on the entries of a collection, whatever order they come in.
  method SortMatches(order: seq<OrderTerm>, m: Coll) returns (s: seq<Id>)
    ensures s == Sorted(order, m)
  {
    hide Before, Sorts;
    s := [];
    var remaining := m.Keys;
    ghost var done: Coll := map[];
    NothingSorts(order);
    while remaining != {}
      invariant remaining <= m.Keys
      invariant done.Keys == m.Keys - remaining
      invariant forall id :: id in done ==> done[id] == m[id]
      invariant Sorts(order, done, s)
      decreases remaining
    {
      var id :| id in remaining;
      SortsMembers(order, done, s);
      var k := 0;
      while k < |s| && Before(order, s[k], m[s[k]], id, m[id])
        invariant 0 <= k <= |s|
        invariant forall i :: 0 <= i < k ==> Before(order, s[i], m[s[i]], id, m[id])
      {
        k := k + 1;
      }
      InsertSorts(order, done, s, id, m[id], k);
      s := s[..k] + [id] + s[k..];
      done := done[id := m[id]];
      remaining := remaining - {id};
    }
    assert done.Keys == m.Keys;
    assert done == m;
    SortsUnique(order, m, s);
  }

  lemma NothingSorts(order: seq<OrderTerm>)
    ensures Sorts(order, map[], [])
  {
  }

  lemma SortsMembers(order: seq<OrderTerm>, m: Coll, s: seq<Id>)
    requires Sorts(order, m, s)
    ensures forall i :: 0 <= i < |s| ==> s[i] in m
  {
    forall i | 0 <= i < |s| ensures s[i] in m {
      assert s[i] in s;
    }
  }

  lemma InsertSorts(order: seq<OrderTerm>, m: Coll, s: seq<Id>, id: Id, r: Rec, k: nat)
    requires Sorts(order, m, s) && id !in m && k <= |s|
    requires forall i :: 0 <= i < |s| ==> s[i] in m
    requires forall i :: 0 <= i < k ==> Before(order, s[i], m[s[i]], id, r)
    requires k < |s| ==> !Before(order, s[k], m[s[k]], id, r)
    ensures Sorts(order, m[id := r], s[..k] + [id] + s[k..])
  {
    hide Before;
    var t, n := s[..k] + [id] + s[k..], m[id := r];
    forall i | k <= i < |s| ensures Before(order, id, r, s[i], m[s[i]]) {
      BeforeIsOrder(order, id, r, s[k], m[s[k]], s[i], m[s[i]]);
      BeforeIsOrder(order, s[k], m[s[k]], id, r, id, r);
    }
    forall i, j | 0 <= i < j < |t|
      ensures t[i] in n && t[j] in n && Before(order, t[i], n[t[i]], t[j], n[t[j]])
    {
      InsertedBefore(order, m, s, id, r, k, i, j);
    }
    InsertedMembers(m, s, id, r, k);
  }

  lemma InsertedMembers(m: Coll, s: seq<Id>, id: Id, r: Rec, k: nat)
    requires k <= |s| && forall x :: x in s <==> x in m
    ensures forall x :: x in s[..k] + [id] + s[k..] <==> x in m[id := r]
  {
    assert s == s[..k] + s[k..];
  }

  lemma InsertedBefore(order: seq<OrderTerm>, m: Coll, s: seq<Id>, id: Id, r: Rec, k: nat, i: nat, j: nat)
    requires id !in m && k <= |s| && i < j < |s| + 1
    requires forall i :: 0 <= i < |s| ==> s[i] in m
    requires forall i, j :: 0 <= i < j < |s| ==> Before(order, s[i], m[s[i]], s[j], m[s[j]])
    requires forall i :: 0 <= i < k ==> Before(order, s[i], m[s[i]], id, r)
    requires forall i :: k <= i < |s| ==> Before(order, id, r, s[i], m[s[i]])
    ensures var t, n := s[..k] + [id] + s[k..], m[id := r];
      t[i] in n && t[j] in n && Before(order, t[i], n[t[i]], t[j], n[t[j]])
  {
    hide Before;
    var t := s[..k] + [id] + s[k..];
    assert i != k ==> t[i] == s[if i < k then i else i - 1];
    assert j != k ==> t[j] == s[if j < k then j else j - 1];
  }

  class CardinalityOperator {
    const order: seq<OrderTerm>
    const cardinality: Cardinality
    var items: Coll
    var groups: Coll

    constructor (order: seq<OrderTerm>, cardinality: Cardinality)
      ensures this.order == order && this.cardinality == cardinality && items == map[] && groups == map[]
    {
      this.order, this.cardinality := order, cardinality;
      items, groups := map[], map[];
    }

    ghost function Emitted(): Coll
      reads this
    {
      Concluded(order, cardinality, items, groups)
    }

    method Materialized(group: Id) returns (r: Option<Rec>)
      ensures r == Get(Emitted(), group)
    {
      if group !in groups {
        return None;
      }
      var entries := GroupOf(items, group);
      var sorted := SortMatches(order, entries);
      r := Some(MaterializedRecord(groups[group].group, Conclude(cardinality, ValuesAt(entries, sorted))));
    }

    method MaterializeAll(ids: seq<Id>) returns (values: seq<Option<Rec>>)
      ensures |values| == |ids| && forall i :: 0 <= i < |ids| ==> values[i] == Get(Emitted(), ids[i])
    {
      values := [];
      for i := 0 to |ids|
        invariant |values| == i && forall j :: 0 <= j < i ==> values[j] == Get(Emitted(), ids[j])
      {
        var value := Materialized(ids[i]);
        values := values + [value];
      }
    }

    method EmitGroups(ids: seq<Id>, before: seq<Option<Rec>>, ghost was: Coll) returns (output: Batch)
      requires Distinct(ids) && |before| == |ids|
      requires forall i :: 0 <= i < |ids| ==> before[i] == Get(was, ids[i])
      requires forall id :: id !in ids ==> Get(was, id) == Get(Emitted(), id)
      ensures Tracks(was, output, Emitted())
    {
      var after := MaterializeAll(ids);
      output := [];
      for i := 0 to |ids|
        invariant output == ReplaceAll(ids[..i], was, Emitted())
      {
        assert ids[..i + 1][..i] == ids[..i];
        output := output + Replacement(ids[i], before[i], after[i]);
      }
      assert ids[..|ids|] == ids;
      ReplaceAllTracks(ids, was, Emitted());
    }

    method HandleItems(changes: Batch) returns (output: Batch)
      requires Valid(items, changes)
      modifies this`items
      ensures items == Apply(old(items), changes)
      ensures Tracks(old(Emitted()), output, Emitted())
      ensures Handled(CardinalityOp(order, cardinality, 0, 0), [old(items), groups], 0, changes, output)
    {
      var ids := AffectedGroups(changes);
      var before := MaterializeAll(ids);
      ghost var was := Emitted();
      items := ApplyChanges(items, changes);
      forall id | id !in ids ensures Get(was, id) == Get(Emitted(), id) {
        ApplyOtherGroup(old(items), changes, id);
      }
      output := EmitGroups(ids, before, was);
      assert [old(items), groups][0 := items] == [items, groups];
    }

    method HandleGroups(changes: Batch) returns (output: Batch)
      modifies this`groups
      ensures groups == Apply(old(groups), changes)
      ensures Tracks(old(Emitted()), output, Emitted())
      ensures Handled(CardinalityOp(order, cardinality, 0, 0), [items, old(groups)], 1, changes, output)
    {
      var ids := AffectedIds(changes);
      var before := MaterializeAll(ids);
      ghost var was := Emitted();
      groups := ApplyChanges(groups, changes);
      forall id | id !in ids ensures Get(was, id) == Get(Emitted(), id) {
        ApplyUntouched(old(groups), changes, id);
        assert Get(groups, id) == Get(old(groups), id);
      }
      output := EmitGroups(ids, before, was);
      assert [items, old(groups)][1 := groups] == [items, groups];
    }
  }
}
