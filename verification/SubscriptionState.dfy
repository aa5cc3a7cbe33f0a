// The values that the subscription runtime keeps (subscription.ts): rows of a scope under its live
// keys, reference counts of demands, and what each of its steps does to them.
module SubscriptionState {
  import opened Query
  import opened Dataflow
  import opened DataflowCompiler
  import opened DataflowOperators
  import opened Demands
  import opened DemandFlow
  import Executor
  import PlannedQueries
  import Planner

  // ---------- tables and commits ----------

  type TableRows = map<Id, Row>
  type Tables = map<string, TableRows>

  datatype TableChange = TableChange(table: string, change: RowChange)

  datatype Commit = Commit(sequence: int, changes: seq<TableChange>)

  function TableOf(tables: Tables, table: string): TableRows {
    if table in tables then tables[table] else map[]
  }

  function CommitRow(rows: TableRows, c: RowChange): TableRows {
    if c.after.Some? then rows[RowId(c.key) := c.after.value] else rows - {RowId(c.key)}
  }

  function Committed(tables: Tables, changes: seq<TableChange>): Tables {
    if changes == [] then tables
    else
      var before, c := Committed(tables, changes[..|changes| - 1]), changes[|changes| - 1];
      before[c.table := CommitRow(TableOf(before, c.table), c.change)]
  }

  // Rows are stored under their primary keys, with a value for every column that a key uses.
  predicate StoredTable(def: Planner.TableDef, rows: TableRows) {
    forall id :: id in rows ==> StoredRow(def, rows[id]) && id == RowId(Executor.ColumnValues(def.primaryColumns, rows[id]))
  }

  ghost predicate StoredTables(schema: Planner.Schema, tables: Tables) {
    forall table :: table in schema ==> StoredTable(schema[table], TableOf(tables, table))
  }

  // ---------- the rows of a scope ----------

  function Held(scope: Scope, live: set<Key>, rows: TableRows): TableRows {
    map id | id in rows && RowKey(scope, rows[id]) in live :: rows[id]
  }

  type Counts = map<Key, nat>

  function CountOf(counts: Counts, key: Key): nat {
    if key in counts then counts[key] else 0
  }

  function LiveOf(scope: Scope, counts: Counts): set<Key> {
    if scope.mode.OnDemand? then counts.Keys else {Executor.ResolveAll(scope.key, map[])}
  }

  function WithKey(scope: Scope, m: Coll, key: Key): set<Id> {
    set id | id in m && ResolveKey(scope.key, m[id].context) == Some(key)
  }

  // The reference counts are the numbers of parent matches.
  ghost predicate Counted(scope: Scope, m: Coll, counts: Counts) {
    && (forall key :: key in counts ==> counts[key] > 0)
    && (scope.mode.OnDemand? ==> forall key :: CountOf(counts, key) == |WithKey(scope, m, key)|)
    && (!scope.mode.OnDemand? ==> counts == map[])
  }

  function Recount(counts: Counts, key: Key, references: nat): Counts {
    if references == 0 then counts - {key} else counts[key := references]
  }

  /** A demand that fits the counted matches never makes a count negative. */
  lemma CountStep(scope: Scope, m: Coll, counts: Counts, c: Change, key: Key)
    requires scope.mode.OnDemand? && Counted(scope, m, counts) && Fits(m, c)
    requires ResolveKey(scope.key, c.value.context) == Some(key)
    ensures CountOf(counts, key) + c.diff >= 0
    ensures Counted(scope, ApplyChange(m, c), Recount(counts, key, CountOf(counts, key) + c.diff))
  {
    hide ResolveKey;
    var m' := ApplyChange(m, c);
    var was, now := WithKey(scope, m, key), WithKey(scope, m', key);
    if c.diff == -1 {
      assert c.id in was && now == was - {c.id};
    } else {
      assert c.id !in was && now == was + {c.id};
    }
    var counts' := Recount(counts, key, CountOf(counts, key) + c.diff);
    forall k ensures CountOf(counts', k) == |WithKey(scope, m', k)| {
      assert CountOf(counts, k) == |WithKey(scope, m, k)|;
      if k != key {
        assert WithKey(scope, m', k) == WithKey(scope, m, k);
      }
    }
  }

  lemma CountSkip(scope: Scope, m: Coll, counts: Counts, c: Change)
    requires Counted(scope, m, counts) && Fits(m, c)
    requires scope.mode.OnDemand? ==> ResolveKey(scope.key, c.value.context).None?
    ensures Counted(scope, ApplyChange(m, c), counts)
  {
    hide ResolveKey;
    forall k | scope.mode.OnDemand? ensures WithKey(scope, ApplyChange(m, c), k) == WithKey(scope, m, k) {
    }
  }

  lemma EmptyCounted(scope: Scope)
    ensures Counted(scope, map[], map[])
  {
    forall k ensures WithKey(scope, map[], k) == {} {
    }
  }

  lemma HeldMore(scope: Scope, live: set<Key>, key: Key, rows: TableRows)
    ensures Held(scope, live, rows) + Held(scope, {key}, rows) == Held(scope, live + {key}, rows)
  {
    hide RowKey;
  }

  // ---------- loading ----------

  predicate Lists(loaded: seq<(Id, Row)>, id: Id) {
    exists i :: 0 <= i < |loaded| && loaded[i].0 == id
  }

  lemma ListsLonger(loaded: seq<(Id, Row)>, last: (Id, Row), id: Id)
    ensures Lists(loaded + [last], id) <==> id == last.0 || Lists(loaded, id)
  {
    var longer := loaded + [last];
    assert longer[|loaded|] == last;
    if Lists(loaded, id) {
      var i :| 0 <= i < |loaded| && loaded[i].0 == id;
      assert longer[i].0 == id;
    }
  }

  predicate Agrees(loaded: seq<(Id, Row)>, rows: TableRows) {
    forall i :: 0 <= i < |loaded| ==> loaded[i].0 in rows && rows[loaded[i].0] == loaded[i].1
  }

  // The loaded rows, in any order.
  ghost predicate Loads(loaded: seq<(Id, Row)>, rows: TableRows) {
    Agrees(loaded, rows) && forall id :: id in rows ==> Lists(loaded, id)
  }

  lemma {:induction false} SeedRowsMerge(base: TableRows, loaded: seq<(Id, Row)>, rows: TableRows)
    requires Agrees(loaded, rows)
    ensures forall id :: id in SeedRows(base, loaded) <==> id in base || Lists(loaded, id)
    ensures forall id :: id in SeedRows(base, loaded) ==> SeedRows(base, loaded)[id] == if Lists(loaded, id) then rows[id] else base[id]
  {
    if loaded != [] {
      var most, last := loaded[..|loaded| - 1], loaded[|loaded| - 1];
      assert loaded == most + [last];
      SeedRowsMerge(base, most, rows);
      forall id ensures Lists(loaded, id) <==> id == last.0 || Lists(most, id) {
        ListsLonger(most, last, id);
      }
    }
  }

  lemma SeedLoads(base: TableRows, loaded: seq<(Id, Row)>, rows: TableRows)
    requires Loads(loaded, rows)
    ensures SeedRows(base, loaded) == base + rows
  {
    SeedRowsMerge(base, loaded, rows);
    var s := SeedRows(base, loaded);
    forall id ensures id in s <==> id in base + rows {
    }
  }

  /** What a scope loads for a key, in whatever order the storage engine returns it. */
  method LoadRows(def: Planner.TableDef, rows: TableRows, scope: Scope, key: Key) returns (loaded: seq<(Id, Row)>)
    requires StoredTable(def, rows) && (scope.primary ==> scope.columns == def.primaryColumns && |scope.key| == |scope.columns|)
    ensures Loads(loaded, Held(scope, {key}, rows))
  {
    hide StoredRow;
    loaded := [];
    if scope.primary {
      if RowId(key) in rows {
        loaded := [(RowId(key), rows[RowId(key)])];
      }
      PrimaryLoads(def, rows, scope, key);
    } else {
      var todo := rows.Keys;
      while todo != {}
        invariant todo <= rows.Keys
        invariant Loads(loaded, Held(scope, {key}, map id | id in rows && id !in todo :: rows[id]))
      {
        var id :| id in todo;
        var was := loaded;
        if RowKey(scope, rows[id]) == key {
          loaded := loaded + [(id, rows[id])];
        }
        LoadsMore(scope, key, rows, todo, id, was);
        todo := todo - {id};
      }
      assert (map id | id in rows && id !in todo :: rows[id]) == rows;
    }
  }

  lemma PrimaryLoads(def: Planner.TableDef, rows: TableRows, scope: Scope, key: Key)
    requires StoredTable(def, rows) && scope.columns == def.primaryColumns && |scope.key| == |scope.columns|
    ensures Loads(if RowId(key) in rows then [(RowId(key), rows[RowId(key)])] else [], Held(scope, {key}, rows))
  {
    hide StoredRow;
    forall id | id in rows ensures RowKey(scope, rows[id]) == key <==> id == RowId(key) {
      var values := Executor.ColumnValues(scope.columns, rows[id]);
      assert values[..|scope.key|] == values;
    }
    if RowId(key) in rows {
      ListsLonger([], (RowId(key), rows[RowId(key)]), RowId(key));
      assert [] + [(RowId(key), rows[RowId(key)])] == [(RowId(key), rows[RowId(key)])];
    }
  }

  lemma LoadsMore(scope: Scope, key: Key, rows: TableRows, todo: set<Id>, id: Id, loaded: seq<(Id, Row)>)
    requires id in todo && todo <= rows.Keys
    requires Loads(loaded, Held(scope, {key}, map i | i in rows && i !in todo :: rows[i]))
    ensures Loads(if RowKey(scope, rows[id]) == key then loaded + [(id, rows[id])] else loaded,
                  Held(scope, {key}, map i | i in rows && i !in todo - {id} :: rows[i]))
  {
    hide RowKey;
    var before, after := Held(scope, {key}, map i | i in rows && i !in todo :: rows[i]), Held(scope, {key}, map i | i in rows && i !in todo - {id} :: rows[i]);
    var longer := if RowKey(scope, rows[id]) == key then loaded + [(id, rows[id])] else loaded;
    forall x | x in after ensures Lists(longer, x) {
      assert x != id ==> x in before;
      ListsLonger(loaded, (id, rows[id]), x);
    }
  }

  // ---------- the state of a subscription ----------

  type Acknowledged = map<SourceId, Coll>

  function At(m: Acknowledged, s: SourceId): Coll {
    if s in m then m[s] else map[]
  }

  function RowsAt(inputs: map<SourceId, InputState>): Database {
    map s | s in inputs :: inputs[s].rows
  }

  function CountsAt(demands: map<SourceId, Counts>, s: SourceId): Counts {
    if s in demands then demands[s] else map[]
  }

  // The waiting demands lead from the acknowledged parent matches to the present ones.
  ghost predicate Pends(root: Node, ack: Acknowledged, pending: seq<Demand>, db: Database) {
    && (forall i :: 0 <= i < |pending| ==> pending[i].source in Depths(root, 1))
    && (forall s :: s in Depths(root, 1) ==> PendsAt(root, ack, pending, db, s))
    && (forall s :: s !in Depths(root, 1) ==> At(ack, s) == map[])
  }

  ghost predicate PendsAt(root: Node, ack: Acknowledged, pending: seq<Demand>, db: Database, s: SourceId) {
    Tracks(At(ack, s), Of(pending, s), MatchesFor(root, db, s))
  }

  ghost predicate AllCounted(scopes: map<SourceId, Scope>, ack: Acknowledged, demands: map<SourceId, Counts>) {
    forall s :: s in scopes ==> Counted(scopes[s], At(ack, s), CountsAt(demands, s))
  }

  // The scope's input holds exactly the table's rows under the live keys.
  ghost predicate Exact(scope: Scope, input: InputState, live: set<Key>, tables: Tables) {
    DistinctOrdinals(input) && RowsOf(input.rows) == Held(scope, live, TableOf(tables, scope.table))
  }

  ghost predicate AllExact(scopes: map<SourceId, Scope>, inputs: map<SourceId, InputState>, demands: map<SourceId, Counts>, tables: Tables) {
    forall s :: s in scopes ==> s in inputs && Exact(scopes[s], inputs[s], LiveOf(scopes[s], CountsAt(demands, s)), tables)
  }

  predicate Deep(root: Node, pending: seq<Demand>, floor: nat) {
    forall i :: 0 <= i < |pending| ==> pending[i].source in Depths(root, 1) && Depths(root, 1)[pending[i].source] >= floor
  }

  // Receiving one demand.
  function Acknowledge(ack: Acknowledged, d: Demand): Acknowledged {
    ack[d.source := ApplyChange(At(ack, d.source), d.change)]
  }

  lemma AcknowledgeFirst(root: Node, ack: Acknowledged, pending: seq<Demand>, db: Database)
    requires pending != [] && Pends(root, ack, pending, db)
    ensures Fits(At(ack, pending[0].source), pending[0].change)
    ensures Pends(root, Acknowledge(ack, pending[0]), pending[1..], db)
  {
    hide Depths, MatchesFor;
    var d := pending[0];
    assert PendsAt(root, ack, pending, db, d.source);
    assert Of(pending, d.source) == [d.change] + Of(pending[1..], d.source);
    assert Of(pending, d.source)[1..] == Of(pending[1..], d.source);
    forall s | s in Depths(root, 1) ensures PendsAt(root, Acknowledge(ack, d), pending[1..], db, s) {
      assert PendsAt(root, ack, pending, db, s);
      if s != d.source {
        assert Of(pending, s) == [] + Of(pending[1..], s) == Of(pending[1..], s);
      }
    }
  }

  lemma PendMore(root: Node, ack: Acknowledged, pending: seq<Demand>, db: Database, x: SourceId, reply: seq<Demand>, db': Database)
    requires Pends(root, ack, pending, db) && Replies(root, x, db, db', reply)
    ensures Pends(root, ack, pending + reply, db')
  {
    hide Depths, MatchesFor, Tracks;
    var more := pending + reply;
    forall i | 0 <= i < |more| ensures more[i].source in Depths(root, 1) {
      assert more[i] == if i < |pending| then pending[i] else reply[i - |pending|];
      assert i >= |pending| ==> DeeperThan(Depths(root, 1), x, reply[i - |pending|].source);
    }
    forall s | s in Depths(root, 1) ensures PendsAt(root, ack, more, db', s) {
      assert PendsAt(root, ack, pending, db, s) && ReportsChange(root, db, db', reply, s);
      OfConcat(pending, reply, s);
      TracksConcat(At(ack, s), Of(pending, s), MatchesFor(root, db, s), Of(reply, s), MatchesFor(root, db', s));
    }
  }

  lemma NothingPends(root: Node, ack: Acknowledged, db: Database)
    requires Pends(root, ack, [], db)
    ensures forall s :: At(ack, s) == MatchesFor(root, db, s)
  {
    hide MatchesOf, Below, Depths;
    BelowKeys(root, 1, db, MatchesOf(root, db, true, RootParents));
    forall s ensures At(ack, s) == MatchesFor(root, db, s) {
      if s in Depths(root, 1) {
        assert PendsAt(root, ack, [], db, s);
      }
    }
  }

  // What was touched, with the counts before.
  type Before = map<(SourceId, Key), nat>

  ghost predicate Recorded(scopes: map<SourceId, Scope>, before: Before, was: map<SourceId, Counts>, now: map<SourceId, Counts>) {
    && (forall p :: p in before ==> p.0 in scopes && scopes[p.0].mode.OnDemand? && before[p] == CountOf(CountsAt(was, p.0), p.1))
    && (forall s, key :: s in scopes && (s, key) !in before ==> CountOf(CountsAt(now, s), key) == CountOf(CountsAt(was, s), key))
  }

  // The count that a demand changes, if any.
  function KeyOfDemand(scopes: map<SourceId, Scope>, d: Demand): Option<Key> {
    if d.source in scopes && scopes[d.source].mode.OnDemand? then ResolveKey(scopes[d.source].key, d.change.value.context) else None
  }

  lemma TakeDemand(scopes: map<SourceId, Scope>, ack: Acknowledged, demands: map<SourceId, Counts>, d: Demand, key: Key)
    requires AllCounted(scopes, ack, demands) && Fits(At(ack, d.source), d.change) && KeyOfDemand(scopes, d) == Some(key)
    ensures var references := CountOf(CountsAt(demands, d.source), key) + d.change.diff;
      references >= 0 && AllCounted(scopes, Acknowledge(ack, d), demands[d.source := Recount(CountsAt(demands, d.source), key, references)])
  {
    hide Counted, ResolveKey, Recount, CountOf, ApplyChange;
    var counts := CountsAt(demands, d.source);
    assert Counted(scopes[d.source], At(ack, d.source), counts);
    CountStep(scopes[d.source], At(ack, d.source), counts, d.change, key);
    var demands' := demands[d.source := Recount(counts, key, CountOf(counts, key) + d.change.diff)];
    forall s | s in scopes ensures Counted(scopes[s], At(Acknowledge(ack, d), s), CountsAt(demands', s)) {
      assert Counted(scopes[s], At(ack, s), CountsAt(demands, s));
    }
  }

  lemma SkipDemand(scopes: map<SourceId, Scope>, ack: Acknowledged, demands: map<SourceId, Counts>, d: Demand)
    requires AllCounted(scopes, ack, demands) && Fits(At(ack, d.source), d.change) && KeyOfDemand(scopes, d).None?
    ensures AllCounted(scopes, Acknowledge(ack, d), demands)
  {
    hide Counted, ResolveKey, ApplyChange;
    forall s | s in scopes ensures Counted(scopes[s], At(Acknowledge(ack, d), s), CountsAt(demands, s)) {
      assert Counted(scopes[s], At(ack, s), CountsAt(demands, s));
      if s == d.source {
        CountSkip(scopes[s], At(ack, s), CountsAt(demands, s), d.change);
      }
    }
  }

  lemma NothingRecorded(scopes: map<SourceId, Scope>, demands: map<SourceId, Counts>)
    ensures Recorded(scopes, map[], demands, demands)
  {
  }

  lemma RecordDemand(scopes: map<SourceId, Scope>, before: Before, was: map<SourceId, Counts>, now: map<SourceId, Counts>, s: SourceId, key: Key, references: nat)
    requires Recorded(scopes, before, was, now) && s in scopes && scopes[s].mode.OnDemand?
    ensures Recorded(scopes, if (s, key) in before then before else before[(s, key) := CountOf(CountsAt(now, s), key)], was,
                     now[s := Recount(CountsAt(now, s), key, references)])
  {
    var before' := if (s, key) in before then before else before[(s, key) := CountOf(CountsAt(now, s), key)];
    var now' := now[s := Recount(CountsAt(now, s), key, references)];
    forall t, k | t in scopes && (t, k) !in before' ensures CountOf(CountsAt(now', t), k) == CountOf(CountsAt(was, t), k) {
      assert (t, k) !in before && (t, k) != (s, key);
      assert CountOf(CountsAt(now, t), k) == CountOf(CountsAt(was, t), k);
    }
  }

  // ---------- filtering a commit ----------

  // The row after a change, if the scope holds it.
  function Visible(scope: Scope, live: set<Key>, after: Option<Row>): Option<Row> {
    if after.Some? && RowKey(scope, after.value) in live then after else None
  }

  lemma FilterStep(scope: Scope, live: set<Key>, input: InputState, rows: TableRows, c: RowChange)
    requires DistinctOrdinals(input) && RowsOf(input.rows) == Held(scope, live, rows)
    ensures var filtered := RowChange(c.key, Visible(scope, live, c.after));
      && DistinctOrdinals(AcceptRow(input, filtered))
      && RowsOf(AcceptRow(input, filtered).rows) == Held(scope, live, CommitRow(rows, c))
  {
    hide RowKey, DistinctOrdinals, AcceptRow, RowsOf;
    AcceptRowFacts(input, RowChange(c.key, Visible(scope, live, c.after)));
  }

  lemma CommitStep(scope: Scope, live: set<Key>, input: InputState, tables: Tables, changes: seq<TableChange>, i: nat)
    requires i < |changes| && Exact(scope, input, live, Committed(tables, changes[..i]))
    ensures var c := changes[i];
      Exact(scope, if c.table == scope.table then AcceptRow(input, RowChange(c.change.key, Visible(scope, live, c.change.after))) else input, live, Committed(tables, changes[..i + 1]))
  {
    hide DistinctOrdinals, AcceptRow, RowsOf, Held, CommitRow, Visible;
    assert changes[..i + 1][..i] == changes[..i];
    if changes[i].table == scope.table {
      FilterStep(scope, live, input, TableOf(Committed(tables, changes[..i]), scope.table), changes[i].change);
    }
  }

  lemma NothingCommitted(tables: Tables)
    ensures Committed(tables, []) == tables
  {
  }

  lemma SkipAbsent(input: InputState, key: seq<Value>)
    requires RowId(key) !in input.rows
    ensures AcceptRow(input, RowChange(key, None)) == input
  {
    assert input.rows - {RowId(key)} == input.rows;
  }

  // ---------- loading and evicting ----------

  predicate LoadableScope(schema: Planner.Schema, scope: Scope) {
    && scope.table in schema
    && (scope.primary ==> scope.columns == schema[scope.table].primaryColumns && |scope.key| == |scope.columns|)
    && (scope.mode.OnDemand? <==> exists i :: 0 <= i < |scope.key| && scope.key[i].OuterField?)
  }

  lemma ScopeLoadable(schema: Planner.Schema, node: Node)
    requires node.table in schema
    ensures LoadableScope(schema, ScopeOf(schema, node))
  {
    hide Planner.HasEquality, Planner.FlatFilters;
    if PlannedQueries.ChosenFor(schema[node.table], node).access.PrimaryKey? {
      PlannedQueries.PrimaryChosen(node, schema[node.table]);
    }
  }

  lemma {:induction false} ScopesLoadable(schema: Planner.Schema, node: Node)
    requires Known(schema, node)
    ensures forall s :: s in Scopes(schema, node) ==> LoadableScope(schema, Scopes(schema, node)[s])
    decreases node
  {
    hide LoadableScope, ScopeOf;
    ScopeLoadable(schema, node);
    if node.authorization.Some? {
      ScopesLoadable(schema, node.authorization.value.parent);
    }
    if node.selection.Some? {
      FieldScopesLoadable(schema, node.selection.value);
    }
  }

  lemma {:induction false} FieldScopesLoadable(schema: Planner.Schema, fields: Fields)
    requires KnownFields(schema, fields)
    ensures forall s :: s in FieldScopes(schema, fields) ==> LoadableScope(schema, FieldScopes(schema, fields)[s])
    decreases fields
  {
    hide LoadableScope, ScopeOf;
    match fields
    case NoFields =>
    case ExprField(_, _, rest) => FieldScopesLoadable(schema, rest);
    case QueryField(_, node, rest) =>
      ScopesLoadable(schema, node);
      FieldScopesLoadable(schema, rest);
  }

  function Added(before: Before, demands: map<SourceId, Counts>): set<(SourceId, Key)> {
    set p | p in before && before[p] == 0 && p.1 in CountsAt(demands, p.0)
  }

  function Dropped(before: Before, demands: map<SourceId, Counts>): set<SourceId> {
    set p | p in before && before[p] > 0 && p.1 !in CountsAt(demands, p.0) :: p.0
  }

  // The keys covered while new ones are being loaded.
  function Covered(scope: Scope, counts: Counts, loaded: set<(SourceId, Key)>, s: SourceId): set<Key> {
    LiveOf(scope, counts) + set p | p in loaded && p.0 == s :: p.1
  }

  ghost predicate AllCovered(scopes: map<SourceId, Scope>, inputs: map<SourceId, InputState>, was: map<SourceId, Counts>, loaded: set<(SourceId, Key)>, tables: Tables) {
    forall s :: s in scopes ==> s in inputs && Exact(scopes[s], inputs[s], Covered(scopes[s], CountsAt(was, s), loaded, s), tables)
  }

  lemma NothingLoaded(scopes: map<SourceId, Scope>, inputs: map<SourceId, InputState>, was: map<SourceId, Counts>, tables: Tables)
    requires AllExact(scopes, inputs, was, tables)
    ensures AllCovered(scopes, inputs, was, {}, tables)
  {
    hide Exact;
    forall s | s in scopes ensures s in inputs && Exact(scopes[s], inputs[s], Covered(scopes[s], CountsAt(was, s), {}, s), tables) {
      assert Covered(scopes[s], CountsAt(was, s), {}, s) == LiveOf(scopes[s], CountsAt(was, s));
    }
  }

  lemma LoadStep(scopes: map<SourceId, Scope>, inputs: map<SourceId, InputState>, was: map<SourceId, Counts>, done: set<(SourceId, Key)>, tables: Tables,
      s: SourceId, key: Key, loaded: seq<(Id, Row)>)
    requires AllCovered(scopes, inputs, was, done, tables) && s in scopes
    requires Loads(loaded, Held(scopes[s], {key}, TableOf(tables, scopes[s].table)))
    ensures s in inputs && AllCovered(scopes, inputs[s := SeedAll(inputs[s], loaded)], was, done + {(s, key)}, tables)
  {
    hide LiveOf, Held, SeedAll, Loads, DistinctOrdinals;
    var rows := TableOf(tables, scopes[s].table);
    var keys := Covered(scopes[s], CountsAt(was, s), done, s);
    assert Exact(scopes[s], inputs[s], keys, tables);
    SeedHoldsRows(inputs[s], loaded);
    SeedLoads(RowsOf(inputs[s].rows), loaded, Held(scopes[s], {key}, rows));
    HeldMore(scopes[s], keys, key, rows);
    assert Covered(scopes[s], CountsAt(was, s), done + {(s, key)}, s) == keys + {key};
    forall t | t in scopes && t != s ensures Exact(scopes[t], inputs[t], Covered(scopes[t], CountsAt(was, t), done + {(s, key)}, t), tables) {
      assert Exact(scopes[t], inputs[t], Covered(scopes[t], CountsAt(was, t), done, t), tables);
      assert Covered(scopes[t], CountsAt(was, t), done + {(s, key)}, t) == Covered(scopes[t], CountsAt(was, t), done, t);
    }
  }

  // Once the added keys are loaded, only a scope that dropped a key covers too much.
  lemma AddedCover(scope: Scope, before: Before, was: map<SourceId, Counts>, now: map<SourceId, Counts>, s: SourceId, m: Coll, m': Coll)
    requires Counted(scope, m, CountsAt(was, s)) && Counted(scope, m', CountsAt(now, s))
    requires forall key :: (s, key) in before ==> scope.mode.OnDemand? && before[(s, key)] == CountOf(CountsAt(was, s), key)
    requires forall key :: (s, key) !in before ==> CountOf(CountsAt(now, s), key) == CountOf(CountsAt(was, s), key)
    ensures LiveOf(scope, CountsAt(now, s)) <= Covered(scope, CountsAt(was, s), Added(before, now), s)
    ensures s !in Dropped(before, now) ==> Covered(scope, CountsAt(was, s), Added(before, now), s) == LiveOf(scope, CountsAt(now, s))
  {
    hide WithKey;
    var covered := Covered(scope, CountsAt(was, s), Added(before, now), s);
    forall key | key in LiveOf(scope, CountsAt(now, s)) ensures key in covered {
      if scope.mode.OnDemand? && key !in CountsAt(was, s) {
        assert CountOf(CountsAt(now, s), key) > 0;
        assert (s, key) in Added(before, now);
      }
    }
    forall key | scope.mode.OnDemand? && key in CountsAt(was, s) && key !in CountsAt(now, s) ensures s in Dropped(before, now) {
      assert CountOf(CountsAt(was, s), key) > 0 && CountOf(CountsAt(now, s), key) == 0;
      assert (s, key) in before && before[(s, key)] > 0;
      assert (s, key).0 in Dropped(before, now);
    }
  }

  lemma AllAddedCover(scopes: map<SourceId, Scope>, before: Before, ack: Acknowledged, was: map<SourceId, Counts>, ack': Acknowledged, now: map<SourceId, Counts>)
    requires AllCounted(scopes, ack, was) && AllCounted(scopes, ack', now) && Recorded(scopes, before, was, now)
    ensures forall s :: s in scopes ==> CoversLive(scopes[s], before, was, now, s)
  {
    hide Counted, LiveOf, Added, Dropped;
    forall s | s in scopes ensures CoversLive(scopes[s], before, was, now, s) {
      assert Counted(scopes[s], At(ack, s), CountsAt(was, s)) && Counted(scopes[s], At(ack', s), CountsAt(now, s));
      AddedCover(scopes[s], before, was, now, s, At(ack, s), At(ack', s));
    }
  }

  predicate CoversLive(scope: Scope, before: Before, was: map<SourceId, Counts>, now: map<SourceId, Counts>, s: SourceId) {
    var covered := Covered(scope, CountsAt(was, s), Added(before, now), s);
    LiveOf(scope, CountsAt(now, s)) <= covered && (s !in Dropped(before, now) ==> covered == LiveOf(scope, CountsAt(now, s)))
  }

  function Kept(scope: Scope, input: InputState, live: set<Key>): InputState {
    input.(rows := RelevantRows(scope, live, input.rows))
  }

  lemma KeptExact(scope: Scope, input: InputState, covered: set<Key>, live: set<Key>, tables: Tables)
    requires Exact(scope, input, covered, tables) && live <= covered
    ensures Exact(scope, Kept(scope, input, live), live, tables)
  {
    hide RowKey;
    var rows, few := RowsOf(input.rows), RowsOf(Kept(scope, input, live).rows);
    assert forall id :: id in input.rows ==> rows[id] == input.rows[id].row;
    var all := TableOf(tables, scope.table);
    var many := Held(scope, covered, all);
    assert rows == many;
    forall id ensures id in few <==> id in Held(scope, live, all) {
      assert id in few <==> id in rows && RowKey(scope, rows[id]) in live;
      assert id in many <==> id in all && RowKey(scope, all[id]) in covered;
    }
    forall id | id in few ensures few[id] == all[id] {
      assert few[id] == rows[id] == many[id];
    }
  }

  // While evicting: the scopes still to do cover their live keys, the others are exact.
  ghost predicate Evicting(scopes: map<SourceId, Scope>, inputs: map<SourceId, InputState>, before: Before, was: map<SourceId, Counts>, now: map<SourceId, Counts>, todo: set<SourceId>, tables: Tables) {
    forall s :: s in scopes ==> s in inputs && EvictingAt(scopes[s], inputs[s], before, was, now, s in todo, s, tables)
  }

  ghost predicate EvictingAt(scope: Scope, input: InputState, before: Before, was: map<SourceId, Counts>, now: map<SourceId, Counts>, waiting: bool, s: SourceId, tables: Tables) {
    var covered, live := Covered(scope, CountsAt(was, s), Added(before, now), s), LiveOf(scope, CountsAt(now, s));
    if waiting then live <= covered && Exact(scope, input, covered, tables) else Exact(scope, input, live, tables)
  }

  lemma StartEvicting(scopes: map<SourceId, Scope>, inputs: map<SourceId, InputState>, before: Before, was: map<SourceId, Counts>, now: map<SourceId, Counts>, tables: Tables)
    requires AllCovered(scopes, inputs, was, Added(before, now), tables)
    requires forall s :: s in scopes ==> CoversLive(scopes[s], before, was, now, s)
    ensures Evicting(scopes, inputs, before, was, now, Dropped(before, now), tables)
  {
    hide Exact, LiveOf, Added, Dropped, Covered;
    forall s | s in scopes ensures s in inputs && EvictingAt(scopes[s], inputs[s], before, was, now, s in Dropped(before, now), s, tables) {
      assert CoversLive(scopes[s], before, was, now, s);
    }
  }

  lemma EvictStep(scopes: map<SourceId, Scope>, inputs: map<SourceId, InputState>, before: Before, was: map<SourceId, Counts>, now: map<SourceId, Counts>, todo: set<SourceId>, tables: Tables, s: SourceId)
    requires Evicting(scopes, inputs, before, was, now, todo, tables) && s in todo && s in scopes
    ensures s in inputs && Evicting(scopes, inputs[s := Kept(scopes[s], inputs[s], LiveOf(scopes[s], CountsAt(now, s)))], before, was, now, todo - {s}, tables)
  {
    hide Exact, LiveOf, Added, Covered, Kept;
    var live := LiveOf(scopes[s], CountsAt(now, s));
    assert EvictingAt(scopes[s], inputs[s], before, was, now, true, s, tables);
    KeptExact(scopes[s], inputs[s], Covered(scopes[s], CountsAt(was, s), Added(before, now), s), live, tables);
    var inputs' := inputs[s := Kept(scopes[s], inputs[s], live)];
    forall t | t in scopes ensures EvictingAt(scopes[t], inputs'[t], before, was, now, t in todo - {s}, t, tables) {
      assert EvictingAt(scopes[t], inputs[t], before, was, now, t in todo, t, tables);
    }
  }

  lemma EndEvicting(scopes: map<SourceId, Scope>, inputs: map<SourceId, InputState>, before: Before, was: map<SourceId, Counts>, now: map<SourceId, Counts>, tables: Tables)
    requires Evicting(scopes, inputs, before, was, now, {}, tables)
    ensures AllExact(scopes, inputs, now, tables)
  {
    hide Exact, LiveOf, Added, Covered;
    forall s | s in scopes ensures s in inputs && Exact(scopes[s], inputs[s], LiveOf(scopes[s], CountsAt(now, s)), tables) {
      assert EvictingAt(scopes[s], inputs[s], before, was, now, false, s, tables);
    }
  }

  // Every touched scope is at least that deep.
  ghost predicate AllDeep(scopes: map<SourceId, Scope>, root: Node, before: Before, floor: nat) {
    forall p :: p in before ==> p.0 in scopes && p.0 in Depths(root, 1) && Depths(root, 1)[p.0] >= floor
  }

  lemma DroppedDeep(scopes: map<SourceId, Scope>, root: Node, before: Before, demands: map<SourceId, Counts>, s: SourceId, floor: nat)
    requires AllDeep(scopes, root, before, floor) && s in Dropped(before, demands)
    ensures s in scopes && s in Depths(root, 1) && Depths(root, 1)[s] >= floor
  {
    hide Depths;
  }

  lemma ShallowPending(root: Node, ack: Acknowledged, pending: seq<Demand>, db: Database)
    requires Pends(root, ack, pending, db)
    ensures Deep(root, pending, 1)
  {
    hide MatchesFor, Depths;
    DepthsFrom(root, 1);
  }

  lemma StillDeep(root: Node, pending: seq<Demand>, longer: seq<Demand>, x: SourceId, floor: nat)
    requires Deep(root, pending, floor + 1) && |pending| <= |longer| && longer[..|pending|] == pending
    requires forall i :: |pending| <= i < |longer| ==> DeeperThan(Depths(root, 1), x, longer[i].source)
    requires x in Depths(root, 1) && Depths(root, 1)[x] >= floor
    ensures Deep(root, longer, floor + 1)
  {
    hide Depths;
    forall i | 0 <= i < |longer| ensures longer[i].source in Depths(root, 1) && Depths(root, 1)[longer[i].source] >= floor + 1 {
      if i < |pending| {
        assert longer[i] == longer[..|pending|][i];
      }
    }
  }

  // ---------- the published result ----------

  // A database with whole tables that agrees with the inputs on the rows they hold; the arrival
  // ordinals of the other rows are arbitrary.
  ghost predicate Completes(scopes: map<SourceId, Scope>, inputs: map<SourceId, InputState>, tables: Tables, full: Database) {
    forall s :: s in scopes && s in inputs ==>
      && RowsOf(Rows(full, s)) == TableOf(tables, scopes[s].table)
      && Within(inputs[s].rows, Rows(full, s))
  }

  lemma StaticKey(key: seq<Planner.PlannedValue>, ctx: Context)
    ensures if exists i :: 0 <= i < |key| && key[i].OuterField? then ResolveKey(key, map[]).None?
      else ResolveKey(key, ctx) == Some(Executor.ResolveAll(key, map[]))
  {
    if i :| 0 <= i < |key| && key[i].OuterField? {
      assert Executor.Resolve(key[i], map[]) == Undefined;
    } else {
      assert Executor.ResolveAll(key, ctx) == Executor.ResolveAll(key, map[]);
    }
  }

  lemma MatchAsks(scope: Scope, m: Coll, counts: Counts, pid: Id)
    requires Counted(scope, m, counts) && pid in m
    requires scope.mode.OnDemand? <==> exists i :: 0 <= i < |scope.key| && scope.key[i].OuterField?
    ensures Asks(scope, m[pid].context, LiveOf(scope, counts))
  {
    hide ResolveKey;
    StaticKey(scope.key, m[pid].context);
    if scope.mode.OnDemand? && ResolveKey(scope.key, m[pid].context).Some? {
      var key := ResolveKey(scope.key, m[pid].context).value;
      assert pid in WithKey(scope, m, key);
      assert CountOf(counts, key) == |WithKey(scope, m, key)|;
    }
  }

  lemma RestrictsAt(schema: Planner.Schema, scope: Scope, input: InputState, live: set<Key>, tables: Tables, all: Coll)
    requires Exact(scope, input, live, tables) && StoredTables(schema, tables) && scope.table in schema
    requires RowsOf(all) == TableOf(tables, scope.table) && Within(input.rows, all)
    ensures input.rows == RelevantRows(scope, live, all)
    ensures forall id :: id in all ==> StoredRow(schema[scope.table], all[id].row)
  {
    hide RowKey, StoredRow, DistinctOrdinals;
    var table := TableOf(tables, scope.table);
    var few := RelevantRows(scope, live, all);
    assert StoredTable(schema[scope.table], table);
    forall id | id in all ensures table[id] == all[id].row && StoredRow(schema[scope.table], all[id].row) {
      assert RowsOf(all)[id] == all[id].row;
    }
    forall id ensures id in few <==> id in input.rows {
      assert id in input.rows <==> id in RowsOf(input.rows);
      assert id in all <==> id in table;
    }
    assert few.Keys == input.rows.Keys;
  }

  ghost predicate CountedMatches(root: Node, scopes: map<SourceId, Scope>, inputs: map<SourceId, InputState>, demands: map<SourceId, Counts>) {
    forall s :: s in scopes ==> Counted(scopes[s], MatchesFor(root, RowsAt(inputs), s), CountsAt(demands, s))
  }

  lemma SettledCounts(root: Node, scopes: map<SourceId, Scope>, ack: Acknowledged, inputs: map<SourceId, InputState>, demands: map<SourceId, Counts>)
    requires Pends(root, ack, [], RowsAt(inputs)) && AllCounted(scopes, ack, demands)
    ensures CountedMatches(root, scopes, inputs, demands)
  {
    hide Pends, Counted, MatchesFor;
    NothingPends(root, ack, RowsAt(inputs));
    forall s | s in scopes ensures Counted(scopes[s], MatchesFor(root, RowsAt(inputs), s), CountsAt(demands, s)) {
      assert Counted(scopes[s], At(ack, s), CountsAt(demands, s));
    }
  }

  // ---------- starting ----------

  const NoInput: InputState := InputState(map[], 0)

  lemma NoMatches(node: Node, db: Database, root: bool, parents: Coll)
    requires if root then Rows(db, node.source) == map[] else parents == map[]
    ensures MatchesOf(node, db, root, parents) == map[]
  {
    hide AdmittedOf, Passed, TopK;
    assert Joined(node, db, root, parents) == map[];
    NothingPasses(node, db);
  }

  lemma NothingPasses(node: Node, db: Database)
    ensures TopK(node.order, node.limit, Passed(node.filters, AdmittedOf(node, db, map[]))) == map[]
  {
    assert AdmittedOf(node, db, map[]) == map[];
    assert Passed(node.filters, map[]) == map[];
    assert TopK(node.order, node.limit, map[]) == map[];
  }

  lemma {:induction false} NothingBelow(node: Node, db: Database)
    ensures forall s :: s in Below(node, db, map[]) ==> Below(node, db, map[])[s] == map[]
    decreases node
  {
    if node.selection.Some? {
      NothingBelowFields(node.selection.value, db);
    }
  }

  lemma {:induction false} NothingBelowFields(fields: Fields, db: Database)
    ensures forall s :: s in BelowFields(fields, db, map[]) ==> BelowFields(fields, db, map[])[s] == map[]
    decreases fields
  {
    hide MatchesOf;
    match fields
    case NoFields =>
    case ExprField(_, _, rest) => NothingBelowFields(rest, db);
    case QueryField(_, node, rest) =>
      NoMatches(node, db, false, map[]);
      NothingBelow(node, db);
      NothingBelowFields(rest, db);
  }

  lemma NothingStarts(root: Node, scopes: map<SourceId, Scope>, inputs: map<SourceId, InputState>)
    requires forall s :: s in inputs ==> inputs[s] == NoInput
    ensures Pends(root, map[], [], RowsAt(inputs)) && AllCounted(scopes, map[], map[])
  {
    hide MatchesOf, Depths, Counted, Below;
    var db := RowsAt(inputs);
    NoMatches(root, db, true, RootParents);
    NothingBelow(root, db);
    forall s | s in scopes ensures Counted(scopes[s], At(map[], s), CountsAt(map[], s)) {
      EmptyCounted(scopes[s]);
    }
    forall s | s in Depths(root, 1) ensures PendsAt(root, map[], [], db, s) {
      NothingTracks(map[]);
    }
  }

  function NotOnDemand(scopes: map<SourceId, Scope>): set<SourceId> {
    set s | s in scopes && !scopes[s].mode.OnDemand?
  }

  // While loading: the static scopes still to do are empty, every other scope is exact.
  ghost predicate Loading(scopes: map<SourceId, Scope>, inputs: map<SourceId, InputState>, todo: set<SourceId>, tables: Tables) {
    forall s :: s in scopes ==> s in inputs && if s in todo then inputs[s] == NoInput else Exact(scopes[s], inputs[s], LiveOf(scopes[s], map[]), tables)
  }

  lemma StartLoading(scopes: map<SourceId, Scope>, inputs: map<SourceId, InputState>, tables: Tables)
    requires inputs.Keys == scopes.Keys && forall s :: s in inputs ==> inputs[s] == NoInput
    ensures Loading(scopes, inputs, NotOnDemand(scopes), tables)
  {
    forall s | s in scopes && scopes[s].mode.OnDemand? ensures Exact(scopes[s], inputs[s], LiveOf(scopes[s], map[]), tables) {
      assert RowsOf(NoInput.rows) == map[] == Held(scopes[s], {}, TableOf(tables, scopes[s].table));
    }
  }

  lemma LoadStatic(scopes: map<SourceId, Scope>, inputs: map<SourceId, InputState>, todo: set<SourceId>, tables: Tables, s: SourceId, loaded: seq<(Id, Row)>)
    requires Loading(scopes, inputs, todo, tables) && s in scopes && s in todo && !scopes[s].mode.OnDemand?
    requires Loads(loaded, Held(scopes[s], {Executor.ResolveAll(scopes[s].key, map[])}, TableOf(tables, scopes[s].table)))
    ensures s in inputs && Loading(scopes, inputs[s := SeedAll(inputs[s], loaded)], todo - {s}, tables)
  {
    hide Held, Loads, SeedAll, Exact;
    assert inputs[s] == NoInput;
    var held := Held(scopes[s], {Executor.ResolveAll(scopes[s].key, map[])}, TableOf(tables, scopes[s].table));
    SeedLoads(map[], loaded, held);
    SeedEmpty(loaded);
    assert map[] + held == held;
    ExactFrom(scopes[s], SeedAll(NoInput, loaded), LiveOf(scopes[s], map[]), tables);
  }

  lemma SeedEmpty(loaded: seq<(Id, Row)>)
    ensures DistinctOrdinals(SeedAll(NoInput, loaded)) && RowsOf(SeedAll(NoInput, loaded).rows) == SeedRows(map[], loaded)
  {
    SeedHoldsRows(NoInput, loaded);
    assert RowsOf(NoInput.rows) == map[];
  }

  lemma ExactFrom(scope: Scope, input: InputState, live: set<Key>, tables: Tables)
    requires DistinctOrdinals(input) && RowsOf(input.rows) == Held(scope, live, TableOf(tables, scope.table))
    ensures Exact(scope, input, live, tables)
  {
  }

  lemma LoadedAll(scopes: map<SourceId, Scope>, inputs: map<SourceId, InputState>, tables: Tables)
    requires Loading(scopes, inputs, {}, tables)
    ensures AllExact(scopes, inputs, map[], tables)
  {
    hide Exact;
  }

  // ---------- applying a commit ----------

  predicate Touches(scopes: map<SourceId, Scope>, changes: seq<TableChange>) {
    exists i, s :: 0 <= i < |changes| && s in scopes && scopes[s].table == changes[i].table
  }

  lemma {:induction false} UntouchedTable(tables: Tables, changes: seq<TableChange>, table: string)
    requires forall i :: 0 <= i < |changes| ==> changes[i].table != table
    ensures TableOf(Committed(tables, changes), table) == TableOf(tables, table)
  {
    if changes != [] {
      UntouchedTable(tables, changes[..|changes| - 1], table);
    }
  }

  lemma UntouchedExact(scopes: map<SourceId, Scope>, inputs: map<SourceId, InputState>, demands: map<SourceId, Counts>, tables: Tables, changes: seq<TableChange>)
    requires AllExact(scopes, inputs, demands, tables) && !Touches(scopes, changes)
    ensures AllExact(scopes, inputs, demands, Committed(tables, changes))
  {
    hide LiveOf, DistinctOrdinals;
    forall s | s in scopes ensures Exact(scopes[s], inputs[s], LiveOf(scopes[s], CountsAt(demands, s)), Committed(tables, changes)) {
      assert Exact(scopes[s], inputs[s], LiveOf(scopes[s], CountsAt(demands, s)), tables);
      UntouchedTable(tables, changes, scopes[s].table);
    }
  }

  // While a commit is applied: the scopes still to do are exact before it, the others after it.
  ghost predicate Applying(scopes: map<SourceId, Scope>, inputs: map<SourceId, InputState>, demands: map<SourceId, Counts>, todo: set<SourceId>, before: Tables, after: Tables) {
    forall s :: s in scopes ==> s in inputs && Exact(scopes[s], inputs[s], LiveOf(scopes[s], CountsAt(demands, s)), if s in todo then before else after)
  }

  lemma StartApplying(scopes: map<SourceId, Scope>, inputs: map<SourceId, InputState>, demands: map<SourceId, Counts>, before: Tables, after: Tables)
    requires AllExact(scopes, inputs, demands, before)
    ensures Applying(scopes, inputs, demands, scopes.Keys, before, after)
  {
    hide Exact, LiveOf;
  }

  lemma EndApplying(scopes: map<SourceId, Scope>, inputs: map<SourceId, InputState>, demands: map<SourceId, Counts>, before: Tables, after: Tables)
    requires Applying(scopes, inputs, demands, {}, before, after)
    ensures AllExact(scopes, inputs, demands, after)
  {
    hide Exact, LiveOf;
  }

  /** The rows that the demands loaded are enough: the query over them is the query over the whole tables. */
  lemma PublishedIsWhole(schema: Planner.Schema, root: Node, scopes: map<SourceId, Scope>, inputs: map<SourceId, InputState>,
      demands: map<SourceId, Counts>, tables: Tables, full: Database)
    requires Known(schema, root) && OwnSources(root) && WellScoped(root, false) && scopes == Scopes(schema, root)
    requires CountedMatches(root, scopes, inputs, demands)
    requires AllExact(scopes, inputs, demands, tables) && StoredTables(schema, tables)
    requires Completes(scopes, inputs, tables, full)
    ensures Evaluate(root, RowsAt(inputs), map[]) == Evaluate(root, full, map[])
  {
    hide Known, OwnSources, WellScoped, Scopes, MatchesOf, Below, Depths, Evaluate, Exact, Counted, LiveOf, Asks, StoredTables, StoredRow, RelevantRows, Live, ResolveKey;
    var part := RowsAt(inputs);
    var live: LiveKeys := map s | s in scopes :: LiveOf(scopes[s], CountsAt(demands, s));
    ScopesLoadable(schema, root);
    forall s | s in scopes
      ensures Rows(part, s) == RelevantRows(scopes[s], KeysAt(live, s), Rows(full, s)) && scopes[s].table in schema
      ensures forall id :: id in Rows(full, s) ==> StoredRow(schema[scopes[s].table], Rows(full, s)[id].row)
      ensures Asks(scopes[s], map[], KeysAt(live, s))
    {
      assert Exact(scopes[s], inputs[s], LiveOf(scopes[s], CountsAt(demands, s)), tables);
      RestrictsAt(schema, scopes[s], inputs[s], KeysAt(live, s), tables, Rows(full, s));
      RootAsks(scopes[s], CountsAt(demands, s));
    }
    var below: map<SourceId, Coll> := ParentMatches(root, part);
    forall s: SourceId, pid: Id | s in below && pid in below[s] ensures s in scopes && Asks(scopes[s], below[s][pid].context, KeysAt(live, s)) {
      BelowKeys(root, 1, part, MatchesOf(root, part, true, RootParents));
      assert Counted(scopes[s], MatchesFor(root, part, s), CountsAt(demands, s));
      MatchAsks(scopes[s], below[s], CountsAt(demands, s), pid);
    }
    AuthorizationScopes(schema, root, scopes);
    AskedIsLive(schema, root, true, part, RootParents, scopes, live);
    EvaluatedSame(schema, root, true, scopes, live, part, full, RootParents, RootGroup);
  }

  lemma RootAsks(scope: Scope, counts: Counts)
    requires scope.mode.OnDemand? <==> exists i :: 0 <= i < |scope.key| && scope.key[i].OuterField?
    ensures Asks(scope, map[], LiveOf(scope, counts))
  {
    StaticKey(scope.key, map[]);
  }
}
