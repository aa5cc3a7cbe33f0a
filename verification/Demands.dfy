// Which rows a subscription needs (subscription.ts): every query node has a scope, the key its
// access asks for is resolved in the contexts of its parent's matches, and rows under any other
// key never reach the result.
module Demands {
  import opened Query
  import opened Dataflow
  import opened DataflowCompiler
  import opened DataflowOperators
  import Planner
  import Executor
  import PlannedQueries

  type Key = seq<Value>

  datatype Mode = Static | OnDemand | Fallback

  // Columns are those of the chosen access; the key gives values for a prefix of them.
  datatype Scope = Scope(table: string, primary: bool, columns: seq<string>, key: seq<Planner.PlannedValue>, mode: Mode)

  function ModeFor(key: seq<Planner.PlannedValue>): Mode {
    if exists i :: 0 <= i < |key| && key[i].OuterField? then OnDemand else Static
  }

  function ScopeOf(schema: Planner.Schema, node: Node): (scope: Scope)
    requires node.table in schema
    ensures scope.table == node.table
  {
    match PlannedQueries.ChosenFor(schema[node.table], node).access
    case PrimaryKey(key) => Scope(node.table, true, schema[node.table].primaryColumns, key, ModeFor(key))
    case TableScan(_, _) => Scope(node.table, false, [], [], Fallback)
    case IndexScan(index, key, _, _) => Scope(node.table, false, index.columns, key, ModeFor(key))
  }

  function RowKey(scope: Scope, row: Row): Key {
    var values := Executor.ColumnValues(scope.columns, row);
    if |scope.key| <= |values| then values[..|scope.key|] else values
  }

  // No key when an outer column has no value.
  function ResolveKey(key: seq<Planner.PlannedValue>, ctx: Context): Option<Key> {
    if exists i :: 0 <= i < |key| && key[i].OuterField? && Executor.Resolve(key[i], ctx) == Undefined then None
    else Some(Executor.ResolveAll(key, ctx))
  }

  predicate StoredRow(def: Planner.TableDef, row: Row) {
    && Executor.Present(def.primaryColumns, row)
    && forall i :: 0 <= i < |def.indexes| ==> Executor.Present(def.indexes[i].columns, row)
  }

  // The filters that the access enforces, as an equation between the row's key and the resolved key.
  lemma ScopeKey(schema: Planner.Schema, node: Node, ctx: Context, row: Row)
    requires node.table in schema && StoredRow(schema[node.table], row)
    requires PlannedQueries.UsedHold(Planner.FlatFilters(node.filters), PlannedQueries.ChosenFor(schema[node.table], node).used, ctx[node.source := row])
    ensures Executor.ResolveAll(ScopeOf(schema, node).key, ctx) == RowKey(ScopeOf(schema, node), row)
    ensures Undefined !in RowKey(ScopeOf(schema, node), row)
  {
    hide Planner.FlatFilters, PlannedQueries.UsedHold, Planner.HasEquality, PlannedQueries.ChosenFor;
    var def := schema[node.table];
    var filters, chosen := Planner.FlatFilters(node.filters), PlannedQueries.ChosenFor(def, node);
    match chosen.access
    case PrimaryKey(key) =>
      PlannedQueries.PrimaryChosen(node, def);
      PlannedQueries.UsedMeans(filters, node.source, def.primaryColumns, ctx, row);
    case TableScan(_, _) =>
    case IndexScan(index, key, _, _) =>
      var n := PlannedQueries.IndexChosen(node, def);
      var k := Planner.EquatedPrefix(filters, node.source, index.columns);
      PlannedQueries.UsedMeans(filters, node.source, index.columns[..k], ctx, row);
      assert Executor.ColumnValues(index.columns, row)[..k] == Executor.ColumnValues(index.columns[..k], row);
      assert Executor.Present(def.indexes[n].columns, row);
  }

  /** A row that passes a node's filters carries the key that the node's context resolves to. */
  lemma FilteredRowHasKey(schema: Planner.Schema, node: Node, ctx: Context, row: Row)
    requires node.table in schema && StoredRow(schema[node.table], row)
    requires Passes(node.filters, ctx[node.source := row])
    ensures ResolveKey(ScopeOf(schema, node).key, ctx) == Some(RowKey(ScopeOf(schema, node), row))
  {
    hide Planner.FlatFilters, ScopeOf, PlannedQueries.ChosenFor;
    PlannedQueries.FlatFiltersMean(node.filters, ctx[node.source := row]);
    ScopeKey(schema, node, ctx, row);
    var key, values := ScopeOf(schema, node).key, RowKey(ScopeOf(schema, node), row);
    forall i | 0 <= i < |key| ensures Executor.Resolve(key[i], ctx) != Undefined {
      assert values[i] == Executor.ResolveAll(key, ctx)[i];
    }
  }

  // ---------- the scopes of a query ----------

  predicate Reduces(node: Node) {
    node.cardinality.Count? || node.cardinality.Exists?
  }

  predicate Known(schema: Planner.Schema, node: Node)
    decreases node
  {
    && node.table in schema
    && (node.authorization.Some? ==> Known(schema, node.authorization.value.parent))
    && (node.selection.Some? ==> KnownFields(schema, node.selection.value))
  }

  predicate KnownFields(schema: Planner.Schema, fields: Fields)
    decreases fields
  {
    match fields
    case NoFields => true
    case ExprField(_, _, rest) => KnownFields(schema, rest)
    case QueryField(_, node, rest) => Known(schema, node) && KnownFields(schema, rest)
  }

  function Sources(node: Node): set<SourceId>
    decreases node
  {
    {node.source}
    + (if node.authorization.Some? then Sources(node.authorization.value.parent) else {})
    + (if node.selection.Some? then FieldSources(node.selection.value) else {})
  }

  function FieldSources(fields: Fields): set<SourceId>
    decreases fields
  {
    match fields
    case NoFields => {}
    case ExprField(_, _, rest) => FieldSources(rest)
    case QueryField(_, node, rest) => Sources(node) + FieldSources(rest)
  }

  // Every query node has a source of its own.
  predicate OwnSources(node: Node)
    decreases node
  {
    var a := if node.authorization.Some? then Sources(node.authorization.value.parent) else {};
    var f := if node.selection.Some? then FieldSources(node.selection.value) else {};
    && node.source !in a && node.source !in f && a !! f
    && (node.authorization.Some? ==> OwnSources(node.authorization.value.parent))
    && (node.selection.Some? ==> OwnFieldSources(node.selection.value))
  }

  predicate OwnFieldSources(fields: Fields)
    decreases fields
  {
    match fields
    case NoFields => true
    case ExprField(_, _, rest) => OwnFieldSources(rest)
    case QueryField(_, node, rest) => OwnSources(node) && OwnFieldSources(rest) && Sources(node) !! FieldSources(rest)
  }

  function Scopes(schema: Planner.Schema, node: Node): (r: map<SourceId, Scope>)
    requires Known(schema, node)
    ensures r.Keys == Sources(node)
    decreases node
  {
    map[node.source := ScopeOf(schema, node)]
    + (if node.authorization.Some? then Scopes(schema, node.authorization.value.parent) else map[])
    + (if node.selection.Some? then FieldScopes(schema, node.selection.value) else map[])
  }

  function FieldScopes(schema: Planner.Schema, fields: Fields): (r: map<SourceId, Scope>)
    requires KnownFields(schema, fields)
    ensures r.Keys == FieldSources(fields)
    decreases fields
  {
    match fields
    case NoFields => map[]
    case ExprField(_, _, rest) => FieldScopes(schema, rest)
    case QueryField(_, node, rest) => Scopes(schema, node) + FieldScopes(schema, rest)
  }

  // ---------- live keys ----------

  ghost function MatchesOf(node: Node, db: Database, root: bool, parents: Coll): Coll {
    TopK(node.order, node.limit, Passed(node.filters, AdmittedOf(node, db, Joined(node, db, root, parents))))
  }

  lemma MatchesOfNode(node: Node, db: Database, root: bool, parents: Coll)
    requires WellScoped(node, !root) && (root ==> parents == RootParents)
    ensures MatchesAre(node, db, root, parents, MatchesOf(node, db, root, parents))
  {
    hide Joined, AdmittedOf, Passed, TopK, MatchesAre;
    var joined := Joined(node, db, root, parents);
    var admitted := AdmittedOf(node, db, joined);
    MatchesFromParts(node, root, db, parents, joined, admitted, Passed(node.filters, admitted), MatchesOf(node, db, root, parents));
  }

  type LiveKeys = map<SourceId, set<Key>>

  function KeysAt(live: LiveKeys, s: SourceId): set<Key> {
    if s in live then live[s] else {}
  }

  // For a policy's parent query, which has no outer context.
  predicate LiveParents(schema: Planner.Schema, node: Node, live: LiveKeys)
    requires Known(schema, node)
    decreases node
  {
    && Asks(ScopeOf(schema, node), map[], KeysAt(live, node.source))
    && (node.authorization.Some? ==> LiveParents(schema, node.authorization.value.parent, live))
  }

  ghost predicate Live(schema: Planner.Schema, node: Node, root: bool, db: Database, parents: Coll, live: LiveKeys)
    requires Known(schema, node)
    decreases node
  {
    && (forall pid :: pid in parents ==> Asks(ScopeOf(schema, node), parents[pid].context, KeysAt(live, node.source)))
    && (node.authorization.Some? ==> LiveParents(schema, node.authorization.value.parent, live))
    && (node.selection.Some? && !Reduces(node) ==> LiveFields(schema, node.selection.value, db, MatchesOf(node, db, root, parents), live))
  }

  ghost predicate LiveFields(schema: Planner.Schema, fields: Fields, db: Database, matches: Coll, live: LiveKeys)
    requires KnownFields(schema, fields)
    decreases fields
  {
    match fields
    case NoFields => true
    case ExprField(_, _, rest) => LiveFields(schema, rest, db, matches, live)
    case QueryField(_, node, rest) => Live(schema, node, false, db, matches, live) && LiveFields(schema, rest, db, matches, live)
  }

  predicate Asks(scope: Scope, ctx: Context, keys: set<Key>) {
    ResolveKey(scope.key, ctx).Some? ==> ResolveKey(scope.key, ctx).value in keys
  }

  function RelevantRows(scope: Scope, keys: set<Key>, rows: Coll): Coll {
    map id | id in rows && RowKey(scope, rows[id].row) in keys :: rows[id]
  }

  // Every scope of part holds exactly the rows of full that carry a live key.
  ghost predicate Restricts(schema: Planner.Schema, scopes: map<SourceId, Scope>, live: LiveKeys, part: Database, full: Database) {
    forall s :: s in scopes ==>
      && Rows(part, s) == RelevantRows(scopes[s], KeysAt(live, s), Rows(full, s))
      && scopes[s].table in schema
      && forall id :: id in Rows(full, s) ==> StoredRow(schema[scopes[s].table], Rows(full, s)[id].row)
  }

  predicate Within<K, V(==)>(a: map<K, V>, b: map<K, V>) {
    forall k :: k in a ==> k in b && b[k] == a[k]
  }

  lemma AuthorizationScopes(schema: Planner.Schema, node: Node, scopes: map<SourceId, Scope>)
    requires Known(schema, node) && OwnSources(node) && Within(Scopes(schema, node), scopes)
    ensures node.source in scopes && scopes[node.source] == ScopeOf(schema, node)
    ensures node.authorization.Some? ==> Within(Scopes(schema, node.authorization.value.parent), scopes)
    ensures node.selection.Some? ==> Within(FieldScopes(schema, node.selection.value), scopes)
  {
    hide ScopeOf;
    var all := Scopes(schema, node);
    assert node.source in all && all[node.source] == ScopeOf(schema, node);
    if node.authorization.Some? {
      var a := Scopes(schema, node.authorization.value.parent);
      forall s | s in a ensures s in scopes && scopes[s] == a[s] {
        assert s in all && all[s] == a[s];
      }
    }
    if node.selection.Some? {
      var f := FieldScopes(schema, node.selection.value);
      forall s | s in f ensures s in scopes && scopes[s] == f[s] {
        assert s in all && all[s] == f[s];
      }
    }
  }

  lemma FirstFieldScopes(schema: Planner.Schema, fields: Fields, scopes: map<SourceId, Scope>)
    requires fields.QueryField? && KnownFields(schema, fields) && OwnFieldSources(fields)
    requires Within(FieldScopes(schema, fields), scopes)
    ensures Within(Scopes(schema, fields.node), scopes) && Within(FieldScopes(schema, fields.rest), scopes)
  {
    var all, n, r := FieldScopes(schema, fields), Scopes(schema, fields.node), FieldScopes(schema, fields.rest);
    forall s | s in n ensures s in scopes && scopes[s] == n[s] {
      assert s in all && all[s] == n[s];
    }
    forall s | s in r ensures s in scopes && scopes[s] == r[s] {
      assert s in all && all[s] == r[s];
    }
  }

  lemma FilteredAlike(schema: Planner.Schema, node: Node, part: Database, full: Database, ctx: Context, keys: set<Key>)
    requires node.table in schema
    requires Rows(part, node.source) == RelevantRows(ScopeOf(schema, node), keys, Rows(full, node.source))
    requires forall id :: id in Rows(full, node.source) ==> StoredRow(schema[node.table], Rows(full, node.source)[id].row)
    requires Asks(ScopeOf(schema, node), ctx, keys)
    requires node.authorization.Some? ==> forall row :: Authorized(node.authorization.value, part, row) == Authorized(node.authorization.value, full, row)
    ensures Filtered(node, part, ctx) == Filtered(node, full, ctx)
  {
    hide ScopeOf, ResolveKey, RowKey, Passes, Authorized, StoredRow;
    var few, all := Rows(part, node.source), Rows(full, node.source);
    forall id | id in all && Passes(node.filters, ctx[node.source := all[id].row]) ensures id in few {
      FilteredRowHasKey(schema, node, ctx, all[id].row);
    }
    var x, y := Filtered(node, part, ctx), Filtered(node, full, ctx);
    forall id ensures id in x <==> id in y {
      FilteredAt(node, part, ctx, id);
      FilteredAt(node, full, ctx, id);
    }
    assert x.Keys == y.Keys;
  }

  lemma AuthorizedSame(a: Authorization, part: Database, full: Database)
    requires Filtered(a.parent, part, map[]) == Filtered(a.parent, full, map[])
    ensures forall row :: Authorized(a, part, row) == Authorized(a, full, row)
  {
  }

  lemma {:induction false} FilteredSame(schema: Planner.Schema, node: Node, scopes: map<SourceId, Scope>, live: LiveKeys,
      part: Database, full: Database, ctx: Context)
    requires Known(schema, node) && OwnSources(node) && Within(Scopes(schema, node), scopes)
    requires Restricts(schema, scopes, live, part, full)
    requires Asks(ScopeOf(schema, node), ctx, KeysAt(live, node.source))
    requires node.authorization.Some? ==> LiveParents(schema, node.authorization.value.parent, live)
    ensures Filtered(node, part, ctx) == Filtered(node, full, ctx)
    decreases node
  {
    hide ScopeOf, ResolveKey, RowKey, Scopes, RelevantRows, Filtered, FieldScopes, StoredRow;
    AuthorizationScopes(schema, node, scopes);
    if node.authorization.Some? {
      var a := node.authorization.value;
      FilteredSame(schema, a.parent, scopes, live, part, full, map[]);
      AuthorizedSame(a, part, full);
    }
    FilteredAlike(schema, node, part, full, ctx, KeysAt(live, node.source));
  }

  // The rows that the limit keeps are matches, each with its row in the context.
  lemma SelectedMatches(node: Node, root: bool, db: Database, parents: Coll, pid: Id, id: Id)
    requires WellScoped(node, !root) && (root ==> parents == RootParents)
    requires pid in parents && id in Selected(node, db, parents[pid].context)
    ensures var m := MatchesOf(node, db, root, parents);
      exists mid :: mid in m && m[mid].context == parents[pid].context[node.source := RowAt(db, node.source, id)]
  {
    hide MatchesOf, Selected, Limited, Filtered;
    var ctx := parents[pid].context;
    var m := MatchesOf(node, db, root, parents);
    MatchesOfNode(node, db, root, parents);
    assert GroupMatches(node, db, root, pid, ctx, m);
    SelectedAreLimited(node, db, ctx);
    MatchAt(node, db, root, pid, ctx, m, id);
  }

  // Enough of the recursive hypotheses, in one place.
  ghost predicate Suffices(schema: Planner.Schema, scopes: map<SourceId, Scope>, live: LiveKeys, part: Database, full: Database, node: Node, root: bool, parents: Coll) {
    && Known(schema, node) && OwnSources(node) && WellScoped(node, !root) && (root ==> parents == RootParents)
    && Within(Scopes(schema, node), scopes)
    && Restricts(schema, scopes, live, part, full)
    && Live(schema, node, root, part, parents, live)
  }

  /** Rows without a live key are not missed: the query has the same value in every context. */
  lemma {:induction false} EvaluatedSame(schema: Planner.Schema, node: Node, root: bool, scopes: map<SourceId, Scope>, live: LiveKeys,
      part: Database, full: Database, parents: Coll, pid: Id)
    requires Suffices(schema, scopes, live, part, full, node, root, parents) && pid in parents
    ensures Evaluate(node, part, parents[pid].context) == Evaluate(node, full, parents[pid].context)
    decreases node, 1
  {
    hide Filtered, MatchesOf, Scopes, ScopeOf, Restricts;
    var ctx := parents[pid].context;
    FilteredSame(schema, node, scopes, live, part, full, ctx);
    if !Reduces(node) {
      ProjectedSame(schema, node, root, scopes, live, part, full, parents, pid, Selected(node, part, ctx));
    }
  }

  lemma {:induction false} ProjectedSame(schema: Planner.Schema, node: Node, root: bool, scopes: map<SourceId, Scope>, live: LiveKeys,
      part: Database, full: Database, parents: Coll, pid: Id, ids: seq<Id>)
    requires Suffices(schema, scopes, live, part, full, node, root, parents) && pid in parents && !Reduces(node)
    requires forall id :: id in ids ==> id in Selected(node, part, parents[pid].context)
    ensures Project(node, part, parents[pid].context, ids) == Project(node, full, parents[pid].context, ids)
    decreases node, 0, |ids|
  {
    hide Filtered, MatchesOf, Scopes, ScopeOf, Selected;
    if ids != [] {
      var ctx, id := parents[pid].context, ids[0];
      AuthorizationScopes(schema, node, scopes);
      ProjectedSame(schema, node, root, scopes, live, part, full, parents, pid, ids[1..]);
      SelectedRow(node, part, ctx, id);
      var row := RowAt(part, node.source, id);
      assert RowAt(full, node.source, id) == row;
      if node.selection.Some? {
        var m := MatchesOf(node, part, root, parents);
        SelectedMatches(node, root, part, parents, pid, id);
        var mid :| mid in m && m[mid].context == ctx[node.source := row];
        SelectSame(schema, node.selection.value, scopes, live, part, full, m, mid);
      }
    }
  }

  lemma SelectedRow(node: Node, db: Database, ctx: Context, id: Id)
    requires id in Selected(node, db, ctx)
    ensures id in Rows(db, node.source)
  {
    SortedSorts(node.order, Filtered(node, db, ctx));
  }

  lemma {:induction false} SelectSame(schema: Planner.Schema, fields: Fields, scopes: map<SourceId, Scope>, live: LiveKeys,
      part: Database, full: Database, matches: Coll, mid: Id)
    requires KnownFields(schema, fields) && OwnFieldSources(fields) && WellScopedFields(fields)
    requires Within(FieldScopes(schema, fields), scopes)
    requires Restricts(schema, scopes, live, part, full)
    requires LiveFields(schema, fields, part, matches, live) && mid in matches
    ensures Select(fields, part, matches[mid].context) == Select(fields, full, matches[mid].context)
    decreases fields
  {
    hide Evaluate, MatchesOf, Restricts, Scopes, ScopeOf;
    match fields
    case NoFields =>
    case ExprField(_, _, rest) => SelectSame(schema, rest, scopes, live, part, full, matches, mid);
    case QueryField(_, node, rest) =>
      FirstFieldScopes(schema, fields, scopes);
      EvaluatedSame(schema, node, false, scopes, live, part, full, matches, mid);
      SelectSame(schema, rest, scopes, live, part, full, matches, mid);
  }
}
