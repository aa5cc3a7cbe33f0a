// Running physical plans against a snapshot (executor.ts), and what answers a query may have when
// rows that tie in its order may come in any order.
module Executor {
  import opened Query
  import opened Planner
  import SpillSort

  // ---------- snapshots ----------

  function ColumnValues(columns: seq<string>, row: Row): (key: seq<Value>)
    ensures |key| == |columns|
  {
    seq(|columns|, i requires 0 <= i < |columns| => ColumnOf(row, columns[i]))
  }

  // Rows are stored under their primary keys, and have values for every column that a key uses.
  predicate StoredRows(def: TableDef, rows: Coll) {
    && (forall id :: id in rows ==> id == RowId(ColumnValues(def.primaryColumns, rows[id].row)))
    && (forall id :: id in rows ==> Present(def.primaryColumns, rows[id].row))
    && (forall id, i :: id in rows && 0 <= i < |def.indexes| ==> Present(def.indexes[i].columns, rows[id].row))
  }

  predicate Present(columns: seq<string>, row: Row) {
    forall i :: 0 <= i < |columns| ==> ColumnOf(row, columns[i]) != Undefined
  }

  function Resolve(v: PlannedValue, ctx: Context): Value {
    match v
    case LiteralValue(value) => value
    case OuterField(source, column) => if source in ctx then ColumnOf(ctx[source], column) else Undefined
  }

  function ResolveAll(key: seq<PlannedValue>, ctx: Context): (r: seq<Value>)
    ensures |r| == |key|
  {
    seq(|key|, i requires 0 <= i < |key| => Resolve(key[i], ctx))
  }

  // ---------- scans ----------

  // The ids, each once, of the rows that satisfy a condition.
  ghost predicate Lists(s: seq<Id>, rows: Coll, keep: Row -> bool) {
    && (forall id :: id in s <==> id in rows && keep(rows[id].row))
    && (forall i, j :: 0 <= i < j < |s| ==> s[i] != s[j])
  }

  // Ascending in the given columns, or descending; ties in any order.
  ghost predicate InColumnOrder(s: seq<Id>, rows: Coll, columns: seq<string>, reverse: bool) {
    forall i, j :: 0 <= i < j < |s| && s[i] in rows && s[j] in rows ==>
      Directed(CompareKeys(ColumnValues(columns, rows[s[i]].row), ColumnValues(columns, rows[s[j]].row)), reverse) <= 0
  }

  function Directed(c: int, reverse: bool): int {
    if reverse then -c else c
  }

  function HasKey(columns: seq<string>, key: seq<Value>): Row -> bool
    requires |key| <= |columns|
  {
    row => ColumnValues(columns, row)[..|key|] == key
  }

  function AnyRow(): Row -> bool {
    row => true
  }

  // What a snapshot may return for an access: the rows in key order, up to the limit.
  ghost predicate ScanOf(def: TableDef, rows: Coll, access: Access, ctx: Context, s: seq<Id>) {
    match access
    case PrimaryKey(key) =>
      var id := RowId(ResolveAll(key, ctx));
      s == if Undefined !in ResolveAll(key, ctx) && id in rows then [id] else []
    case TableScan(reverse, limit) =>
      exists full :: Lists(full, rows, AnyRow()) && InColumnOrder(full, rows, def.primaryColumns, reverse) && s == Take(limit, full)
    case IndexScan(index, key, reverse, limit) =>
      if Undefined in ResolveAll(key, ctx) || |key| > |index.columns| then s == []
      else exists full ::
        Lists(full, rows, HasKey(index.columns, ResolveAll(key, ctx))) && InColumnOrder(full, rows, index.columns, reverse) && s == Take(limit, full)
  }

  // A storage engine's scans.
  type Scanner = (TableDef, Coll, Access, Context) -> seq<Id>

  ghost predicate ValidScanner(scan: Scanner) {
    forall def, rows, access, ctx :: ScanOf(def, rows, access, ctx, scan(def, rows, access, ctx))
  }

  // ---------- running a plan ----------

  function RowOfId(rows: Coll, id: Id): Row {
    if id in rows then rows[id].row else map[]
  }

  function Kept(ids: seq<Id>, keep: Id -> bool): seq<Id> {
    if ids == [] then []
    else if keep(ids[0]) then [ids[0]] + Kept(ids[1..], keep)
    else Kept(ids[1..], keep)
  }

  // The build side of a hash join, probed with one key.
  function WithValue(rows: Coll, column: string, value: Value): Id -> bool {
    id => ColumnOf(RowOfId(rows, id), column) == value
  }

  function Matching(rows: Coll, filters: seq<Expr>, source: SourceId, ctx: Context): Id -> bool {
    id => Passes(filters, ctx[source := RowOfId(rows, id)])
  }

  function Input(scan: Scanner, def: TableDef, plan: Plan, rows: Coll, ctx: Context, nested: bool): seq<Id> {
    if nested && plan.join.Hash? then
      Kept(scan(def, rows, plan.access, map[]), WithValue(rows, plan.join.childColumn, Resolve(plan.join.parent, ctx)))
    else scan(def, rows, plan.access, ctx)
  }

  function CompareMatches(order: seq<OrderTerm>, rows: Coll, source: SourceId, ctx: Context): (Id, Id) -> int {
    (i, j) =>
      var c := CompareOrders(order, ctx[source := RowOfId(rows, i)], ctx[source := RowOfId(rows, j)]);
      if c != 0 then c else CompareIds(i, j)
  }

  function Ordered(plan: Plan, rows: Coll, ctx: Context, matches: seq<Id>): seq<Id> {
    if plan.order == [] then matches
    else SpillSort.StableSort(CompareMatches(plan.order, rows, plan.source, ctx), matches)
  }

  // The rows that a plan projects or counts.
  function Taken(scan: Scanner, schema: Schema, plan: Plan, db: Database, ctx: Context, nested: bool): seq<Id> {
    if plan.table !in schema then []
    else
      var rows := Rows(db, plan.source);
      var input := Input(scan, schema[plan.table], plan, rows, ctx, nested);
      Take(plan.limit, Ordered(plan, rows, ctx, Kept(input, Matching(rows, plan.filters, plan.source, ctx))))
  }

  function Execute(scan: Scanner, schema: Schema, plan: Plan, db: Database, ctx: Context, nested: bool): Result
    decreases plan, 1
  {
    var taken := Taken(scan, schema, plan, db, ctx, nested);
    if plan.cardinality.Count? || plan.cardinality.Exists? then CountResult(plan.cardinality.Exists?, |taken|)
    else Conclude(plan.cardinality, ExecuteRows(scan, schema, plan, db, ctx, taken))
  }

  function ExecuteRows(scan: Scanner, schema: Schema, plan: Plan, db: Database, ctx: Context, ids: seq<Id>): (r: seq<Result>)
    ensures |r| == |ids|
    decreases plan, 0, |ids|
  {
    if ids == [] then []
    else
      var row := RowOfId(Rows(db, plan.source), ids[0]);
      [if plan.selection.None? then RowOf(row) else ExecuteFields(scan, schema, plan.selection.value, db, ctx[plan.source := row])]
      + ExecuteRows(scan, schema, plan, db, ctx, ids[1..])
  }

  function ExecuteFields(scan: Scanner, schema: Schema, fields: PlannedFields, db: Database, ctx: Context): Result
    decreases fields
  {
    match fields
    case NoPlanned => Object(map[])
    case PlannedExpr(name, expr, rest) => AddField(name, Scalar(EvalExpr(expr, ctx)), ExecuteFields(scan, schema, rest, db, ctx))
    case PlannedQuery(name, plan, rest) =>
      AddField(name, Execute(scan, schema, plan, db, ctx, true), ExecuteFields(scan, schema, rest, db, ctx))
  }

  // ---------- answers, ties in any order ----------

  ghost predicate InOrder(s: seq<Id>, rows: Coll, order: seq<OrderTerm>, source: SourceId, ctx: Context) {
    forall i, j :: 0 <= i < j < |s| ==>
      CompareOrders(order, ctx[source := RowOfId(rows, s[i])], ctx[source := RowOfId(rows, s[j])]) <= 0
  }

  function Keeps(filters: seq<Expr>, source: SourceId, ctx: Context): Row -> bool {
    row => Passes(filters, ctx[source := row])
  }

  // The matching rows, in some order that the query allows.
  ghost predicate Arranged(node: Node, db: Database, ctx: Context, s: seq<Id>) {
    && Lists(s, Rows(db, node.source), Keeps(node.filters, node.source, ctx))
    && InOrder(s, Rows(db, node.source), node.order, node.source, ctx)
  }

  /** The results that the query's meaning allows. */
  ghost predicate Answer(node: Node, db: Database, ctx: Context, r: Result)
    decreases node, 2
  {
    exists s :: Arranged(node, db, ctx, s) && AnswerFor(node, db, ctx, Take(node.limit, s), r)
  }

  ghost predicate AnswerFor(node: Node, db: Database, ctx: Context, ids: seq<Id>, r: Result)
    decreases node, 1
  {
    if node.cardinality.Count? || node.cardinality.Exists? then r == CountResult(node.cardinality.Exists?, |ids|)
    else exists rs :: AnswerRows(node, db, ctx, ids, rs) && r == Conclude(node.cardinality, rs)
  }

  ghost predicate AnswerRows(node: Node, db: Database, ctx: Context, ids: seq<Id>, rs: seq<Result>)
    decreases node, 0, 1
  {
    |rs| == |ids| && forall i :: 0 <= i < |ids| ==> AnswerRow(node, db, ctx, ids[i], rs[i])
  }

  ghost predicate AnswerRow(node: Node, db: Database, ctx: Context, id: Id, r: Result)
    decreases node, 0, 0
  {
    var row := RowOfId(Rows(db, node.source), id);
    if node.selection.None? then r == RowOf(row) else AnswerFields(node.selection.value, db, ctx[node.source := row], r)
  }

  ghost predicate AnswerFields(fields: Fields, db: Database, ctx: Context, r: Result)
    decreases fields
  {
    match fields
    case NoFields => r == Object(map[])
    case ExprField(name, expr, rest) =>
      exists w :: AnswerFields(rest, db, ctx, w) && r == AddField(name, Scalar(EvalExpr(expr, ctx)), w)
    case QueryField(name, node, rest) =>
      exists v, w :: Answer(node, db, ctx, v) && AnswerFields(rest, db, ctx, w) && r == AddField(name, v, w)
  }
}
