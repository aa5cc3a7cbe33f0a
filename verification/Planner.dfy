// From logical queries to physical plans (planner.ts), for queries without a semijoin.
module Planner {
  import opened Query
  import ReadPolicy

  datatype IndexDef = IndexDef(name: string, unique: bool, columns: seq<string>)

  datatype TableDef = TableDef(primaryColumns: seq<string>, indexes: seq<IndexDef>)

  type Schema = map<string, TableDef>

  datatype PlannedValue = LiteralValue(value: Value) | OuterField(source: SourceId, column: string)

  datatype Access =
    | PrimaryKey(key: seq<PlannedValue>)
    | TableScan(reverse: bool, limit: Option<nat>)
    | IndexScan(index: IndexDef, key: seq<PlannedValue>, reverse: bool, limit: Option<nat>)

  datatype Join = NoJoin | IndexedLoop | Hash(childColumn: string, parent: PlannedValue)

  datatype Plan = Plan(
    source: SourceId,
    table: string,
    access: Access,
    filters: seq<Expr>,
    order: seq<OrderTerm>,
    limit: Option<nat>,
    cardinality: Cardinality,
    join: Join,
    selection: Option<PlannedFields>)

  datatype PlannedFields =
    | NoPlanned
    | PlannedExpr(name: string, expr: Expr, rest: PlannedFields)
    | PlannedQuery(name: string, plan: Plan, rest: PlannedFields)

  // ---------- equalities ----------

  datatype Equality = Equality(column: string, value: PlannedValue)

  function PlannedValueOf(e: Expr, local: SourceId): Option<PlannedValue> {
    match e
    case Literal(value) => Some(LiteralValue(value))
    case Field(source, column) => if source != local then Some(OuterField(source, column)) else None
    case _ => None
  }

  function EqualityOf(column: string, e: Expr, local: SourceId): Option<Equality> {
    match PlannedValueOf(e, local)
    case Some(v) => Some(Equality(column, v))
    case None => None
  }

  function EqualityFor(e: Expr, local: SourceId): Option<Equality> {
    if !e.Comparison? || !e.op.Eq? then None
    else if e.left.Field? && e.left.source == local then EqualityOf(e.left.column, e.right, local)
    else if e.right.Field? && e.right.source == local then EqualityOf(e.right.column, e.left, local)
    else None
  }

  function FlatFilters(filters: seq<Expr>): seq<Expr> {
    if filters == [] then [] else ReadPolicy.Conjunctions(filters[0]) + FlatFilters(filters[1..])
  }

  // The first filter from position i on that equates the column.
  function FirstEquality(filters: seq<Expr>, local: SourceId, column: string, i: nat): (p: Option<nat>)
    requires i <= |filters|
    ensures p.Some? ==> i <= p.value < |filters| && EqualityFor(filters[p.value], local).Some?
                        && EqualityFor(filters[p.value], local).value.column == column
    decreases |filters| - i
  {
    if i == |filters| then None
    else if EqualityFor(filters[i], local).Some? && EqualityFor(filters[i], local).value.column == column then Some(i)
    else FirstEquality(filters, local, column, i + 1)
  }

  function PositionOf(filters: seq<Expr>, local: SourceId, column: string): (p: Option<nat>)
    ensures p.Some? ==> p.value < |filters| && EqualityFor(filters[p.value], local).Some?
                        && EqualityFor(filters[p.value], local).value.column == column
  {
    FirstEquality(filters, local, column, 0)
  }

  predicate HasEquality(filters: seq<Expr>, local: SourceId, column: string) {
    PositionOf(filters, local, column).Some?
  }

  // How many leading columns are equated.
  function EquatedPrefix(filters: seq<Expr>, local: SourceId, columns: seq<string>): (k: nat)
    ensures k <= |columns| && forall i :: 0 <= i < k ==> HasEquality(filters, local, columns[i])
  {
    if columns == [] || !HasEquality(filters, local, columns[0]) then 0
    else 1 + EquatedPrefix(filters, local, columns[1..])
  }

  function ValueAt(filters: seq<Expr>, local: SourceId, column: string): PlannedValue
    requires HasEquality(filters, local, column)
  {
    EqualityFor(filters[PositionOf(filters, local, column).value], local).value.value
  }

  function KeyOf(filters: seq<Expr>, local: SourceId, columns: seq<string>): (key: seq<PlannedValue>)
    requires forall i :: 0 <= i < |columns| ==> HasEquality(filters, local, columns[i])
    ensures |key| == |columns|
  {
    seq(|columns|, i requires 0 <= i < |columns| => ValueAt(filters, local, columns[i]))
  }

  // The filters that the access itself enforces.
  function UsedBy(filters: seq<Expr>, local: SourceId, columns: seq<string>): set<nat>
    requires forall i :: 0 <= i < |columns| ==> HasEquality(filters, local, columns[i])
  {
    set i | 0 <= i < |columns| && HasEquality(filters, local, columns[i]) :: PositionOf(filters, local, columns[i]).value
  }

  function Residual(filters: seq<Expr>, used: set<nat>, i: nat): seq<Expr>
    requires i <= |filters|
    decreases |filters| - i
  {
    if i == |filters| then []
    else (if i in used then [] else [filters[i]]) + Residual(filters, used, i + 1)
  }

  // ---------- order ----------

  predicate IsColumn(e: Expr, local: SourceId, column: string) {
    e == Field(local, column)
  }

  predicate OnEquatedColumn(e: Expr, local: SourceId, filters: seq<Expr>) {
    e.Field? && e.source == local && HasEquality(filters, local, e.column)
  }

  function RemainingOrder(order: seq<OrderTerm>, local: SourceId, filters: seq<Expr>): seq<OrderTerm> {
    if order == [] then []
    else (if OnEquatedColumn(order[0].expr, local, filters) then [] else [order[0]]) + RemainingOrder(order[1..], local, filters)
  }

  // The terms name consecutive columns, all in one direction.
  predicate Follows(order: seq<OrderTerm>, local: SourceId, columns: seq<string>, from: nat, descending: bool) {
    forall i :: 0 <= i < |order| ==>
      from + i < |columns| && IsColumn(order[i].expr, local, columns[from + i]) && order[i].descending == descending
  }

  function Direction(order: seq<OrderTerm>): bool {
    order != [] && order[0].descending
  }

  predicate CoversColumns(order: seq<OrderTerm>, local: SourceId, columns: seq<string>, from: nat) {
    Follows(order, local, columns, from, Direction(order))
  }

  // ---------- index choice ----------

  datatype Candidate = Candidate(index: IndexDef, equated: nat, orderCovered: bool, reverse: bool, uniqueExact: bool)

  function IndexCandidate(index: IndexDef, filters: seq<Expr>, order: seq<OrderTerm>, local: SourceId): Option<Candidate> {
    var k := EquatedPrefix(filters, local, index.columns);
    var remaining := RemainingOrder(order, local, filters);
    var covered := CoversColumns(remaining, local, index.columns, k);
    if k == 0 && (order == [] || !covered) then None
    else Some(Candidate(index, k, covered, Direction(remaining), index.unique && k == |index.columns|))
  }

  predicate Better(a: Candidate, b: Candidate) {
    if a.uniqueExact != b.uniqueExact then a.uniqueExact
    else if a.equated != b.equated then a.equated > b.equated
    else a.orderCovered && !b.orderCovered
  }

  // The first of the best.
  function BestCandidate(indexes: seq<IndexDef>, filters: seq<Expr>, order: seq<OrderTerm>, local: SourceId): Option<Candidate> {
    if indexes == [] then None
    else
      var rest := BestCandidate(indexes[1..], filters, order, local);
      match IndexCandidate(indexes[0], filters, order, local)
      case None => rest
      case Some(c) => if rest.Some? && Better(rest.value, c) then rest else Some(c)
  }

  // ---------- plans ----------

  function CardinalityLimit(cardinality: Cardinality): Option<nat> {
    match cardinality
    case Exists => Some(1)
    case One => Some(2)
    case Require => Some(2)
    case _ => None
  }

  function ScanLimit(limit: Option<nat>, cardinality: Cardinality): Option<nat> {
    match (limit, CardinalityLimit(cardinality))
    case (_, None) => limit
    case (None, c) => c
    case (Some(l), Some(c)) => Some(if l < c then l else c)
  }

  datatype Chosen = Chosen(access: Access, used: set<nat>, orderCovered: bool)

  predicate AllEquated(filters: seq<Expr>, local: SourceId, columns: seq<string>) {
    forall i :: 0 <= i < |columns| ==> HasEquality(filters, local, columns[i])
  }

  function ChooseAccess(def: TableDef, filters: seq<Expr>, order: seq<OrderTerm>, local: SourceId, scanLimit: Option<nat>): Chosen {
    if AllEquated(filters, local, def.primaryColumns) then
      Chosen(PrimaryKey(KeyOf(filters, local, def.primaryColumns)), UsedBy(filters, local, def.primaryColumns), true)
    else
      match BestCandidate(def.indexes, filters, order, local)
      case None =>
        var covered := CoversColumns(order, local, def.primaryColumns, 0);
        Chosen(TableScan(covered && Direction(order), if filters == [] && covered then scanLimit else None), {}, covered)
      case Some(c) =>
        var columns := c.index.columns[..EquatedPrefix(filters, local, c.index.columns)];
        var used := UsedBy(filters, local, columns);
        var limit := if Residual(filters, used, 0) == [] && c.orderCovered then scanLimit else None;
        Chosen(IndexScan(c.index, KeyOf(filters, local, columns), c.reverse, limit), used, c.orderCovered)
  }

  // The first equality with an outer field.
  function Correlated(filters: seq<Expr>, local: SourceId, i: nat): (r: Option<Equality>)
    requires i <= |filters|
    ensures r.Some? ==> exists j :: i <= j < |filters| && EqualityFor(filters[j], local) == r
    decreases |filters| - i
  {
    if i == |filters| then None
    else if EqualityFor(filters[i], local).Some? && EqualityFor(filters[i], local).value.value.OuterField? then EqualityFor(filters[i], local)
    else Correlated(filters, local, i + 1)
  }

  function JoinFor(filters: seq<Expr>, local: SourceId, access: Access): Join {
    match Correlated(filters, local, 0)
    case None => NoJoin
    case Some(e) => if access.TableScan? then Hash(e.column, e.value) else IndexedLoop
  }

  function PlanNode(schema: Schema, node: Node): Option<Plan>
    decreases node
  {
    if node.table !in schema then None
    else
      var cardinality := if node.cardinality.Unspecified? then Many else node.cardinality;
      var filters := FlatFilters(node.filters);
      var chosen := ChooseAccess(schema[node.table], filters, node.order, node.source, ScanLimit(node.limit, cardinality));
      var selection: Option<Option<PlannedFields>> :=
        match node.selection
        case None => Some(None)
        case Some(fields) =>
          (match PlanFields(schema, fields)
           case None => None
           case Some(f) => Some(Some(f)));
      if selection == None then None
      else Some(Plan(node.source, node.table, chosen.access, Residual(filters, chosen.used, 0),
                     if chosen.orderCovered then [] else node.order, node.limit, cardinality,
                     JoinFor(filters, node.source, chosen.access), selection.value))
  }

  function PlanFields(schema: Schema, fields: Fields): Option<PlannedFields>
    decreases fields
  {
    match fields
    case NoFields => Some(NoPlanned)
    case ExprField(name, expr, rest) =>
      (match PlanFields(schema, rest)
       case None => None
       case Some(r) => Some(PlannedExpr(name, expr, r)))
    case QueryField(name, node, rest) =>
      match (PlanNode(schema, node), PlanFields(schema, rest))
      case (Some(p), Some(r)) => Some(PlannedQuery(name, p, r))
      case _ => None
  }
}
