// The query language and its reference meaning (query.ts), with the meaning of a read-policy
// semijoin taken from the executor (executor.ts).
module Query {
  import Lex

  datatype Option<+T> = None | Some(value: T)

  type SourceId = nat

  // A stored scalar, or the JavaScript value `undefined`. Strings are their UTF-16 code units.
  datatype Value =
    | Undefined
    | Null
    | Bool(b: bool)
    | Num(n: real)
    | Date(time: int)
    | Str(units: seq<int>)

  type Row = map<string, Value>
  type Context = map<SourceId, Row>

  datatype Operator = Eq | Ne | Gt | Lt | Gte | Lte

  datatype Expr =
    | Field(source: SourceId, column: string)
    | Literal(value: Value)
    | Comparison(op: Operator, left: Expr, right: Expr)
    | In(left: Expr, candidates: seq<Value>)
    | Logical(conjunction: bool, left: Expr, right: Expr)
    | Not(operand: Expr)

  datatype OrderTerm = OrderTerm(expr: Expr, descending: bool)

  datatype Cardinality = Many | One | Require | Exists | Count | Unspecified

  datatype Node = Node(
    source: SourceId,
    table: string,
    filters: seq<Expr>,
    order: seq<OrderTerm>,
    limit: Option<nat>,
    selection: Option<Fields>,
    cardinality: Cardinality,
    authorization: Option<Authorization>)

  datatype Authorization = Through(parent: Node, childColumn: string, parentColumn: string)

  // The entries of a selection object, in order.
  datatype Fields =
    | NoFields
    | ExprField(name: string, expr: Expr, rest: Fields)
    | QueryField(name: string, node: Node, rest: Fields)

  // What a query returns. Failed stands for every thrown error and every failure record.
  datatype Result =
    | Scalar(value: Value)
    | RowOf(row: Row)
    | Object(fields: map<string, Result>)
    | List(items: seq<Result>)
    | Failed

  // A row id is the encoded primary key; a match id is the parent's match id joined with the
  // child's table and row id. Both encodings are injective, so ids are kept structured.
  datatype Id = RootGroup | RowId(key: seq<Value>) | MatchId(parent: Id, table: string, row: Id)

  // RowRecord, MatchRecord, ProjectedRecord, GroupRecord and MaterializedRecord of dataflow.ts:
  // one record whose unused fields keep a default.
  datatype Rec = Rec(group: Id, context: Context, row: Row, ordinal: nat, value: Result)

  type Coll = map<Id, Rec>
  type Database = map<SourceId, Coll>

  const NoValue: Result := Scalar(Undefined)

  function RowRecord(row: Row, ordinal: nat): Rec {
    Rec(RootGroup, map[], row, ordinal, NoValue)
  }

  function GroupRecord(group: Id): Rec {
    Rec(group, map[], map[], 0, NoValue)
  }

  function MaterializedRecord(group: Id, value: Result): Rec {
    Rec(group, map[], map[], 0, value)
  }

  // ---------- scalars and expressions ----------

  function ColumnOf(row: Row, column: string): Value {
    if column in row then row[column] else Undefined
  }

  // Types are ranked so that the comparison is total; compareQueryValues throws on two
  // different non-null types.
  function Rank(v: Value): int {
    match v
    case Undefined => 0
    case Null => 1
    case Bool(_) => 2
    case Num(_) => 3
    case Date(_) => 4
    case Str(_) => 5
  }

  function CompareValues(a: Value, b: Value): int {
    if a == b then 0
    else if Rank(a) != Rank(b) then (if Rank(a) < Rank(b) then -1 else 1)
    else match a
      case Bool(x) => if x then 1 else -1
      case Num(x) => if x < b.n then -1 else 1
      case Date(x) => if x < b.time then -1 else 1
      case Str(x) => Lex.Compare(x, b.units)
      case _ => 0
  }

  predicate Truthy(v: Value) {
    match v
    case Undefined => false
    case Null => false
    case Bool(b) => b
    case Num(n) => n != 0.0
    case Date(_) => true
    case Str(u) => u != []
  }

  function EvalExpr(e: Expr, ctx: Context): Value {
    match e
    case Field(source, column) =>
      if source in ctx then ColumnOf(ctx[source], column) else Undefined
    case Literal(value) => value
    case Comparison(op, l, r) =>
      var a, b := EvalExpr(l, ctx), EvalExpr(r, ctx);
      Bool(match op
        case Eq => a == b
        case Ne => a != b
        case Gt => CompareValues(a, b) > 0
        case Lt => CompareValues(a, b) < 0
        case Gte => CompareValues(a, b) >= 0
        case Lte => CompareValues(a, b) <= 0)
    case In(l, candidates) => Bool(EvalExpr(l, ctx) in candidates)
    case Logical(conjunction, l, r) =>
      Bool(if conjunction
        then Truthy(EvalExpr(l, ctx)) && Truthy(EvalExpr(r, ctx))
        else Truthy(EvalExpr(l, ctx)) || Truthy(EvalExpr(r, ctx)))
    case Not(operand) => Bool(!Truthy(EvalExpr(operand, ctx)))
  }

  predicate Passes(filters: seq<Expr>, ctx: Context) {
    forall i :: 0 <= i < |filters| ==> Truthy(EvalExpr(filters[i], ctx))
  }

  predicate References(e: Expr, source: SourceId) {
    match e
    case Field(s, _) => s == source
    case Literal(_) => false
    case Comparison(_, l, r) => References(l, source) || References(r, source)
    case In(l, _) => References(l, source)
    case Logical(_, l, r) => References(l, source) || References(r, source)
    case Not(operand) => References(operand, source)
  }

  // ---------- ordering ----------

  function CompareOrders(order: seq<OrderTerm>, a: Context, b: Context): int {
    if order == [] then 0
    else
      var c := CompareValues(EvalExpr(order[0].expr, a), EvalExpr(order[0].expr, b));
      if c != 0 then (if order[0].descending then -c else c)
      else CompareOrders(order[1..], a, b)
  }

  function CodeUnits(s: string): seq<int> {
    seq(|s|, i requires 0 <= i < |s| => s[i] as int)
  }

  function CompareKeys(a: seq<Value>, b: seq<Value>): int {
    if a == [] then (if b == [] then 0 else -1)
    else if b == [] then 1
    else
      var c := CompareValues(a[0], b[0]);
      if c != 0 then c else CompareKeys(a[1..], b[1..])
  }

  // A fixed total order of ids, for records whose order terms and ordinals agree.
  function CompareIds(a: Id, b: Id): int {
    match (a, b)
    case (RootGroup, RootGroup) => 0
    case (RootGroup, _) => -1
    case (_, RootGroup) => 1
    case (RowId(x), RowId(y)) => CompareKeys(x, y)
    case (RowId(_), _) => -1
    case (_, RowId(_)) => 1
    case (MatchId(p, t, r), MatchId(q, u, s)) =>
      var c := CompareIds(p, q);
      if c != 0 then c
      else
        var d := Lex.Compare(CodeUnits(t), CodeUnits(u));
        if d != 0 then d else CompareIds(r, s)
  }

  // The order of matches: the order terms, then the arrival ordinal, then the id.
  predicate Before(order: seq<OrderTerm>, i: Id, x: Rec, j: Id, y: Rec) {
    var c := CompareOrders(order, x.context, y.context);
    c < 0 || (c == 0 && (x.ordinal < y.ordinal || (x.ordinal == y.ordinal && CompareIds(i, j) < 0)))
  }

  lemma CompareValuesOrder(a: Value, b: Value, c: Value)
    ensures CompareValues(a, b) == -CompareValues(b, a)
    ensures -1 <= CompareValues(a, b) <= 1
    ensures CompareValues(a, b) == 0 <==> a == b
    ensures CompareValues(a, b) < 0 && CompareValues(b, c) < 0 ==> CompareValues(a, c) < 0
  {
    Lex.StrictTotalOrder();
    if a.Str? && b.Str? && c.Str? {
      assert Lex.Less(a.units, b.units) && Lex.Less(b.units, c.units)
             ==> Lex.Less(a.units, c.units);
    }
  }

  lemma {:induction false} CompareOrdersOrder(order: seq<OrderTerm>, a: Context, b: Context, c: Context)
    ensures CompareOrders(order, a, b) == -CompareOrders(order, b, a)
    ensures CompareOrders(order, a, b) < 0 && CompareOrders(order, b, c) <= 0 ==> CompareOrders(order, a, c) < 0
    ensures CompareOrders(order, a, b) <= 0 && CompareOrders(order, b, c) < 0 ==> CompareOrders(order, a, c) < 0
    ensures CompareOrders(order, a, b) == 0 && CompareOrders(order, b, c) == 0 ==> CompareOrders(order, a, c) == 0
  {
    if order != [] {
      CompareValuesOrder(EvalExpr(order[0].expr, a), EvalExpr(order[0].expr, b), EvalExpr(order[0].expr, c));
      CompareValuesOrder(EvalExpr(order[0].expr, b), EvalExpr(order[0].expr, a), EvalExpr(order[0].expr, c));
      CompareValuesOrder(EvalExpr(order[0].expr, c), EvalExpr(order[0].expr, b), EvalExpr(order[0].expr, a));
      CompareValuesOrder(EvalExpr(order[0].expr, a), EvalExpr(order[0].expr, c), EvalExpr(order[0].expr, b));
      CompareOrdersOrder(order[1..], a, b, c);
    }
  }

  lemma {:induction false} CompareKeysOrder(a: seq<Value>, b: seq<Value>, c: seq<Value>)
    ensures CompareKeys(a, b) == -CompareKeys(b, a)
    ensures CompareKeys(a, b) == 0 <==> a == b
    ensures CompareKeys(a, b) < 0 && CompareKeys(b, c) < 0 ==> CompareKeys(a, c) < 0
  {
    if a != [] && b != [] {
      CompareValuesOrder(a[0], b[0], a[0]);
      assert a == [a[0]] + a[1..] && b == [b[0]] + b[1..];
      if c != [] {
        CompareValuesOrder(a[0], b[0], c[0]);
        CompareValuesOrder(b[0], c[0], a[0]);
        CompareKeysOrder(a[1..], b[1..], c[1..]);
      } else {
        CompareKeysOrder(a[1..], b[1..], c);
      }
    }
  }

  lemma CodeUnitsOrder(a: string, b: string, c: string)
    ensures Lex.Compare(CodeUnits(a), CodeUnits(b)) == -Lex.Compare(CodeUnits(b), CodeUnits(a))
    ensures Lex.Compare(CodeUnits(a), CodeUnits(b)) == 0 <==> a == b
    ensures Lex.Less(CodeUnits(a), CodeUnits(b)) && Lex.Less(CodeUnits(b), CodeUnits(c))
            ==> Lex.Less(CodeUnits(a), CodeUnits(c))
  {
    Lex.StrictTotalOrder();
    if CodeUnits(a) == CodeUnits(b) {
      assert |a| == |b|;
      forall i | 0 <= i < |a| ensures a[i] == b[i] {
        assert CodeUnits(a)[i] == CodeUnits(b)[i];
      }
    }
  }

  lemma {:induction false} CompareIdsSwaps(a: Id, b: Id)
    ensures CompareIds(a, b) == -CompareIds(b, a)
    ensures CompareIds(a, b) == 0 <==> a == b
  {
    if a.RowId? && b.RowId? {
      CompareKeysOrder(a.key, b.key, []);
    } else if a.MatchId? && b.MatchId? {
      CompareIdsSwaps(a.parent, b.parent);
      CodeUnitsOrder(a.table, b.table, a.table);
      CompareIdsSwaps(a.row, b.row);
    }
  }

  lemma {:induction false} CompareIdsTransitive(a: Id, b: Id, c: Id)
    requires CompareIds(a, b) < 0 && CompareIds(b, c) < 0
    ensures CompareIds(a, c) < 0
  {
    if a.RowId? && c.RowId? {
      CompareKeysOrder(a.key, b.key, c.key);
    } else if a.MatchId? && c.MatchId? {
      CompareIdsSwaps(a.parent, b.parent);
      CompareIdsSwaps(b.parent, c.parent);
      CodeUnitsOrder(a.table, b.table, c.table);
      CodeUnitsOrder(b.table, c.table, a.table);
      if CompareIds(a.parent, b.parent) < 0 && CompareIds(b.parent, c.parent) < 0 {
        CompareIdsTransitive(a.parent, b.parent, c.parent);
      }
      if CompareIds(a.row, b.row) < 0 && CompareIds(b.row, c.row) < 0 {
        CompareIdsTransitive(a.row, b.row, c.row);
      }
    }
  }

  /** Before is a strict order, total between different ids. */
  lemma BeforeIsOrder(order: seq<OrderTerm>, i: Id, x: Rec, j: Id, y: Rec, k: Id, z: Rec)
    ensures !(Before(order, i, x, j, y) && Before(order, j, y, i, x))
    ensures i != j ==> Before(order, i, x, j, y) || Before(order, j, y, i, x)
    ensures i == j && x == y ==> !Before(order, i, x, j, y)
    ensures Before(order, i, x, j, y) && Before(order, j, y, k, z) ==> Before(order, i, x, k, z)
  {
    CompareOrdersOrder(order, x.context, x.context, x.context);
    CompareOrdersOrder(order, x.context, y.context, z.context);
    CompareIdsSwaps(i, j);
    CompareIdsSwaps(j, k);
    if CompareIds(i, j) < 0 && CompareIds(j, k) < 0 {
      CompareIdsTransitive(i, j, k);
    }
  }

  ghost predicate IsLeast(order: seq<OrderTerm>, m: Coll, id: Id) {
    id in m && forall j :: j in m && j != id ==> Before(order, id, m[id], j, m[j])
  }

  lemma {:induction false} LeastExists(order: seq<OrderTerm>, m: Coll)
    requires m != map[]
    ensures exists id :: IsLeast(order, m, id)
    decreases |m|
  {
    var id :| id in m;
    var rest := m - {id};
    if rest == map[] {
      assert m.Keys == rest.Keys + {id};
      assert IsLeast(order, m, id);
    } else {
      assert |rest| < |m|;
      LeastExists(order, rest);
      var least :| IsLeast(order, rest, least);
      BeforeIsOrder(order, id, m[id], least, m[least], id, m[id]);
      if Before(order, id, m[id], least, m[least]) {
        forall j | j in m && j != id ensures Before(order, id, m[id], j, m[j]) {
          assert j in rest;
          BeforeIsOrder(order, id, m[id], least, m[least], j, m[j]);
        }
        assert IsLeast(order, m, id);
      } else {
        forall j | j in m && j != least ensures Before(order, least, m[least], j, m[j]) {
          assert j == id || j in rest;
        }
        assert IsLeast(order, m, least);
      }
    }
  }

  /** The ids of m in Before order. */
  ghost function Sorted(order: seq<OrderTerm>, m: Coll): (s: seq<Id>)
    decreases |m|
  {
    if m == map[] then []
    else
      LeastExists(order, m);
      var least :| IsLeast(order, m, least);
      assert |m - {least}| < |m|;
      [least] + Sorted(order, m - {least})
  }

  ghost predicate Sorts(order: seq<OrderTerm>, m: Coll, s: seq<Id>) {
    && (forall id :: id in s <==> id in m)
    && (forall i, j :: 0 <= i < j < |s| ==>
          s[i] in m && s[j] in m && Before(order, s[i], m[s[i]], s[j], m[s[j]]))
  }

  lemma {:induction false} SortedSorts(order: seq<OrderTerm>, m: Coll)
    ensures Sorts(order, m, Sorted(order, m))
    decreases |m|
  {
    if m != map[] {
      var s := Sorted(order, m);
      var rest := m - {s[0]};
      assert IsLeast(order, m, s[0]) && s == [s[0]] + Sorted(order, rest) by {
        LeastExists(order, m);
      }
      assert |rest| < |m|;
      SortedSorts(order, rest);
      forall i, j | 0 <= i < j < |s|
        ensures s[i] in m && s[j] in m && Before(order, s[i], m[s[i]], s[j], m[s[j]])
      {
        assert s[j] == Sorted(order, rest)[j - 1] && s[j] in rest;
        if i > 0 {
          assert s[i] == Sorted(order, rest)[i - 1];
        }
      }
    }
  }

  lemma LeastUnique(order: seq<OrderTerm>, m: Coll, x: Id, y: Id)
    requires IsLeast(order, m, x) && IsLeast(order, m, y)
    ensures x == y
  {
    if x != y {
      BeforeIsOrder(order, x, m[x], y, m[y], x, m[x]);
    }
  }

  lemma SortsEmpty(order: seq<OrderTerm>, m: Coll, s: seq<Id>)
    requires Sorts(order, m, s)
    ensures s == [] <==> m == map[]
  {
    if s != [] {
      assert s[0] in s;
    }
    if m != map[] {
      var id :| id in m;
      assert id in s;
    }
  }

  lemma SortsHead(order: seq<OrderTerm>, m: Coll, s: seq<Id>)
    requires Sorts(order, m, s) && m != map[]
    ensures s != [] && IsLeast(order, m, s[0])
  {
    var id :| id in m;
    assert id in s;
    forall j | j in m && j != s[0] ensures Before(order, s[0], m[s[0]], j, m[j]) {
      var k :| 0 <= k < |s| && s[k] == j;
    }
  }

  lemma SortsTail(order: seq<OrderTerm>, m: Coll, s: seq<Id>)
    requires Sorts(order, m, s) && s != []
    ensures Sorts(order, m - {s[0]}, s[1..])
  {
    var rest := m - {s[0]};
    forall i | 0 <= i < |s[1..]| ensures s[1..][i] in rest {
      assert Before(order, s[0], m[s[0]], s[i + 1], m[s[i + 1]]);
      BeforeIsOrder(order, s[0], m[s[0]], s[i + 1], m[s[i + 1]], s[0], m[s[0]]);
    }
    forall id | id in rest ensures id in s[1..] {
      var k :| 0 <= k < |s| && s[k] == id;
      assert s[1..][k - 1] == id;
    }
  }

  /** A collection has one sorted sequence. */
  lemma {:induction false} SortsUnique(order: seq<OrderTerm>, m: Coll, s: seq<Id>)
    requires Sorts(order, m, s)
    ensures s == Sorted(order, m)
    decreases |m|
  {
    if m == map[] {
      SortsEmpty(order, m, s);
    } else {
      SortsHead(order, m, s);
      SortsTail(order, m, s);
      LeastExists(order, m);
      var least := Sorted(order, m)[0];
      LeastUnique(order, m, s[0], least);
      assert |m - {least}| < |m|;
      SortsUnique(order, m - {least}, s[1..]);
      assert s == [s[0]] + s[1..];
    }
  }

  function Take<T>(limit: Option<nat>, s: seq<T>): seq<T> {
    if limit.Some? && limit.value < |s| then s[..limit.value] else s
  }

  // ---------- the reference evaluator ----------

  function Rows(db: Database, source: SourceId): Coll {
    if source in db then db[source] else map[]
  }

  function MatchOf(group: Id, source: SourceId, ctx: Context, r: Rec): Rec {
    Rec(group, ctx[source := r.row], r.row, r.ordinal, NoValue)
  }

  // The rows of the node's table that pass its semijoin and its filters, before its limit.
  ghost function Filtered(node: Node, db: Database, ctx: Context): (m: Coll)
    ensures m.Keys <= Rows(db, node.source).Keys
    ensures forall id :: id in m ==> m[id] == MatchOf(RootGroup, node.source, ctx, Rows(db, node.source)[id])
    decreases node, 0
  {
    var rows := Rows(db, node.source);
    map id | id in rows
      && (node.authorization.Some? ==>
          Authorized(node.authorization.value, db, rows[id].row))
      && Passes(node.filters, ctx[node.source := rows[id].row])
      :: MatchOf(RootGroup, node.source, ctx, rows[id])
  }

  // Some authorized parent row carries the child's key.
  ghost predicate Authorized(a: Authorization, db: Database, row: Row)
    decreases a
  {
    var parents := Filtered(a.parent, db, map[]);
    exists id :: id in Take(a.parent.limit, Sorted(a.parent.order, parents)) && id in parents
      && ColumnOf(parents[id].row, a.parentColumn) == ColumnOf(row, a.childColumn)
  }

  // Matching row ids in result order, after the limit.
  ghost function Selected(node: Node, db: Database, ctx: Context): seq<Id>
    decreases node, 1
  {
    Take(node.limit, Sorted(node.order, Filtered(node, db, ctx)))
  }

  ghost function Evaluate(node: Node, db: Database, ctx: Context): Result
    decreases node, 2
  {
    var ids := Selected(node, db, ctx);
    if node.cardinality.Count? || node.cardinality.Exists? then CountResult(node.cardinality.Exists?, |ids|)
    else Conclude(node.cardinality, Project(node, db, ctx, ids))
  }

  ghost function Project(node: Node, db: Database, ctx: Context, ids: seq<Id>): (r: seq<Result>)
    ensures |r| == |ids|
    decreases node, 1, |ids|
  {
    if ids == [] then []
    else
      [var row := RowAt(db, node.source, ids[0]);
       if node.selection.None? then RowOf(row)
       else Select(node.selection.value, db, ctx[node.source := row])]
      + Project(node, db, ctx, ids[1..])
  }

  function RowAt(db: Database, source: SourceId, id: Id): Row {
    var rows := Rows(db, source);
    if id in rows then rows[id].row else map[]
  }

  ghost function Select(fields: Fields, db: Database, ctx: Context): Result
    decreases fields
  {
    match fields
    case NoFields => Object(map[])
    case ExprField(name, expr, rest) =>
      AddField(name, Scalar(EvalExpr(expr, ctx)), Select(rest, db, ctx))
    case QueryField(name, node, rest) =>
      AddField(name, Evaluate(node, db, ctx), Select(rest, db, ctx))
  }

  function CountResult(existence: bool, count: nat): Result {
    if existence then Scalar(Bool(count > 0)) else Scalar(Num(count as real))
  }

  // A failing property fails the whole object.
  function AddField(name: string, value: Result, whole: Result): Result {
    if value.Failed? || !whole.Object? then Failed
    else if name in whole.fields then whole
    else Object(whole.fields[name := value])
  }

  // The cardinality check on the projected rows.
  function Conclude(cardinality: Cardinality, values: seq<Result>): Result {
    if exists i :: 0 <= i < |values| && values[i].Failed? then Failed
    else match cardinality
      case Many => List(values)
      case One => if |values| > 1 then Failed else if |values| == 1 then values[0] else Scalar(Null)
      case Require => if |values| == 1 then values[0] else Failed
      case Exists => Scalar(Bool(|values| > 0))
      case Count => Scalar(Num(|values| as real))
      case Unspecified => Failed
  }
}
