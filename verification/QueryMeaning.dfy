// What comparisons, orders and cardinalities mean on the values themselves (query.ts).
module QueryMeaning {
  import opened Query
  import Lex

  // ---------- strings by code unit ----------

  // The first k units agree, and then the first string ends or has the smaller unit.
  predicate PartsAt(a: seq<int>, b: seq<int>, k: nat) {
    k <= |a| && k < |b| && a[..k] == b[..k] && (k == |a| || a[k] < b[k])
  }

  ghost predicate UnitsBefore(a: seq<int>, b: seq<int>) {
    exists k: nat :: PartsAt(a, b, k)
  }

  lemma {:induction false} CompareParts(a: seq<int>, b: seq<int>, i: nat)
    requires i <= |a| && i <= |b| && a[..i] == b[..i]
    ensures Lex.CompareFrom(a, b, i) < 0 ==> UnitsBefore(a, b)
    decreases |a| - i
  {
    if i < |a| && i < |b| && a[i] == b[i] {
      assert a[..i + 1] == a[..i] + [a[i]] && b[..i + 1] == b[..i] + [b[i]];
      CompareParts(a, b, i + 1);
    } else if Lex.CompareFrom(a, b, i) < 0 {
      assert PartsAt(a, b, i);
    }
  }

  lemma {:induction false} PartsCompare(a: seq<int>, b: seq<int>, k: nat, i: nat)
    requires PartsAt(a, b, k) && i <= k
    ensures Lex.CompareFrom(a, b, i) < 0
    decreases k - i
  {
    if i < k {
      assert a[i] == a[..k][i] && b[i] == b[..k][i];
      PartsCompare(a, b, k, i + 1);
    }
  }

  lemma LexMeans(a: seq<int>, b: seq<int>)
    ensures Lex.Compare(a, b) < 0 <==> UnitsBefore(a, b)
    ensures Lex.Compare(a, b) > 0 <==> UnitsBefore(b, a)
    ensures Lex.Compare(a, b) == 0 <==> a == b
  {
    Lex.StrictTotalOrder();
    CompareParts(a, b, 0);
    CompareParts(b, a, 0);
    if UnitsBefore(a, b) {
      var k: nat :| PartsAt(a, b, k);
      PartsCompare(a, b, k, 0);
    }
    if UnitsBefore(b, a) {
      var k: nat :| PartsAt(b, a, k);
      PartsCompare(b, a, k, 0);
    }
  }

  // ---------- comparisons ----------

  predicate Tests(op: Operator, l: Expr, r: Expr, ctx: Context) {
    Truthy(EvalExpr(Comparison(op, l, r), ctx))
  }

  /** Comparisons of numbers. */
  lemma NumbersCompare(l: Expr, r: Expr, ctx: Context, x: real, y: real)
    requires EvalExpr(l, ctx) == Num(x) && EvalExpr(r, ctx) == Num(y)
    ensures Tests(Gt, l, r, ctx) <==> x > y
    ensures Tests(Lt, l, r, ctx) <==> x < y
    ensures Tests(Gte, l, r, ctx) <==> x >= y
    ensures Tests(Lte, l, r, ctx) <==> x <= y
    ensures Tests(Eq, l, r, ctx) <==> x == y
    ensures Tests(Ne, l, r, ctx) <==> x != y
  {
  }

  /** Comparisons of dates, by their times. */
  lemma DatesCompare(l: Expr, r: Expr, ctx: Context, x: int, y: int)
    requires EvalExpr(l, ctx) == Date(x) && EvalExpr(r, ctx) == Date(y)
    ensures Tests(Gt, l, r, ctx) <==> x > y
    ensures Tests(Lt, l, r, ctx) <==> x < y
    ensures Tests(Gte, l, r, ctx) <==> x >= y
    ensures Tests(Lte, l, r, ctx) <==> x <= y
    ensures Tests(Eq, l, r, ctx) <==> x == y
    ensures Tests(Ne, l, r, ctx) <==> x != y
  {
  }

  /** Comparisons of booleans: false comes before true. */
  lemma BoolsCompare(l: Expr, r: Expr, ctx: Context, x: bool, y: bool)
    requires EvalExpr(l, ctx) == Bool(x) && EvalExpr(r, ctx) == Bool(y)
    ensures Tests(Gt, l, r, ctx) <==> x && !y
    ensures Tests(Lt, l, r, ctx) <==> !x && y
    ensures Tests(Gte, l, r, ctx) <==> x || !y
    ensures Tests(Lte, l, r, ctx) <==> !x || y
    ensures Tests(Eq, l, r, ctx) <==> x == y
    ensures Tests(Ne, l, r, ctx) <==> x != y
  {
  }

  /** Comparisons of strings, by code unit. */
  lemma StringsCompare(l: Expr, r: Expr, ctx: Context, x: seq<int>, y: seq<int>)
    requires EvalExpr(l, ctx) == Str(x) && EvalExpr(r, ctx) == Str(y)
    ensures Tests(Gt, l, r, ctx) <==> UnitsBefore(y, x)
    ensures Tests(Lt, l, r, ctx) <==> UnitsBefore(x, y)
    ensures Tests(Gte, l, r, ctx) <==> x == y || UnitsBefore(y, x)
    ensures Tests(Lte, l, r, ctx) <==> x == y || UnitsBefore(x, y)
    ensures Tests(Eq, l, r, ctx) <==> x == y
    ensures Tests(Ne, l, r, ctx) <==> x != y
  {
    LexMeans(x, y);
  }

  predicate Nullish(v: Value) {
    v.Undefined? || v.Null?
  }

  /** Null and undefined come before every other value. */
  lemma NullsCompare(l: Expr, r: Expr, ctx: Context)
    requires Nullish(EvalExpr(l, ctx)) && !Nullish(EvalExpr(r, ctx))
    ensures Tests(Lt, l, r, ctx) && Tests(Lte, l, r, ctx) && Tests(Ne, l, r, ctx)
    ensures !Tests(Gt, l, r, ctx) && !Tests(Gte, l, r, ctx) && !Tests(Eq, l, r, ctx)
    ensures Tests(Gt, r, l, ctx) && Tests(Gte, r, l, ctx) && Tests(Ne, r, l, ctx)
    ensures !Tests(Lt, r, l, ctx) && !Tests(Lte, r, l, ctx) && !Tests(Eq, r, l, ctx)
  {
  }

  /** Equality is equality of values, and the logical operators are those of truth values. */
  lemma LogicMeans(l: Expr, r: Expr, candidates: seq<Value>, ctx: Context)
    ensures Tests(Eq, l, r, ctx) <==> EvalExpr(l, ctx) == EvalExpr(r, ctx)
    ensures Tests(Ne, l, r, ctx) <==> EvalExpr(l, ctx) != EvalExpr(r, ctx)
    ensures Truthy(EvalExpr(In(l, candidates), ctx)) <==> exists i :: 0 <= i < |candidates| && candidates[i] == EvalExpr(l, ctx)
    ensures Truthy(EvalExpr(Logical(true, l, r), ctx)) <==> Truthy(EvalExpr(l, ctx)) && Truthy(EvalExpr(r, ctx))
    ensures Truthy(EvalExpr(Logical(false, l, r), ctx)) <==> Truthy(EvalExpr(l, ctx)) || Truthy(EvalExpr(r, ctx))
    ensures Truthy(EvalExpr(Not(l), ctx)) <==> !Truthy(EvalExpr(l, ctx))
  {
  }

  /** A field is the column of its source's row, a literal its value. */
  lemma LeavesMean(source: SourceId, column: string, value: Value, ctx: Context)
    ensures EvalExpr(Literal(value), ctx) == value
    ensures source in ctx && column in ctx[source] ==> EvalExpr(Field(source, column), ctx) == ctx[source][column]
    ensures source !in ctx || column !in ctx[source] ==> EvalExpr(Field(source, column), ctx) == Undefined
  {
  }

  /** What counts as true: true, numbers but zero, strings with a unit, dates. */
  lemma TruthMeans(v: Value)
    ensures v.Bool? ==> (Truthy(v) <==> v.b)
    ensures v.Num? ==> (Truthy(v) <==> v.n < 0.0 || v.n > 0.0)
    ensures v.Str? ==> (Truthy(v) <==> |v.units| > 0)
    ensures v.Date? ==> Truthy(v)
    ensures Nullish(v) ==> !Truthy(v)
  {
  }

  // ---------- orders ----------

  // Values of one type, or one of them null.
  predicate Comparable(v: Value, w: Value) {
    v == w || (Nullish(v) != Nullish(w)) || (v.Bool? && w.Bool?) || (v.Num? && w.Num?) || (v.Date? && w.Date?) || (v.Str? && w.Str?)
  }

  // Strictly before, in ascending order.
  ghost predicate Precedes(v: Value, w: Value) {
    || (Nullish(v) && !Nullish(w))
    || (v.Bool? && w.Bool? && !v.b && w.b)
    || (v.Num? && w.Num? && v.n < w.n)
    || (v.Date? && w.Date? && v.time < w.time)
    || (v.Str? && w.Str? && UnitsBefore(v.units, w.units))
  }

  lemma CompareMeans(v: Value, w: Value)
    requires Comparable(v, w)
    ensures CompareValues(v, w) < 0 <==> Precedes(v, w)
    ensures CompareValues(v, w) > 0 <==> Precedes(w, v)
    ensures CompareValues(v, w) == 0 <==> v == w
  {
    if v.Str? && w.Str? {
      LexMeans(v.units, w.units);
    }
  }

  // At the first term whose values differ, the first context comes first in the term's direction.
  ghost predicate InOrderFrom(order: seq<OrderTerm>, a: Context, b: Context)
    decreases order
  {
    order != [] ==>
      var v, w := EvalExpr(order[0].expr, a), EvalExpr(order[0].expr, b);
      if v == w then InOrderFrom(order[1..], a, b)
      else if order[0].descending then Precedes(w, v) else Precedes(v, w)
  }

  ghost predicate AllComparable(order: seq<OrderTerm>, a: Context, b: Context) {
    forall k :: 0 <= k < |order| ==> Comparable(EvalExpr(order[k].expr, a), EvalExpr(order[k].expr, b))
  }

  /** Two contexts are in order exactly if their first differing values are, in the direction of their term. */
  lemma {:induction false} OrdersMean(order: seq<OrderTerm>, a: Context, b: Context)
    requires AllComparable(order, a, b)
    ensures CompareOrders(order, a, b) <= 0 <==> InOrderFrom(order, a, b)
  {
    hide Comparable, Precedes, CompareValues;
    if order != [] {
      assert Comparable(EvalExpr(order[0].expr, a), EvalExpr(order[0].expr, b));
      CompareMeans(EvalExpr(order[0].expr, a), EvalExpr(order[0].expr, b));
      CompareValuesOrder(EvalExpr(order[0].expr, a), EvalExpr(order[0].expr, b), Null);
      PrecedesOnce(EvalExpr(order[0].expr, a), EvalExpr(order[0].expr, b));
      assert AllComparable(order[1..], a, b) by {
        forall k | 0 <= k < |order[1..]| ensures Comparable(EvalExpr(order[1..][k].expr, a), EvalExpr(order[1..][k].expr, b)) {
          assert order[1..][k] == order[k + 1];
        }
      }
      OrdersMean(order[1..], a, b);
    }
  }

  lemma PrecedesOnce(v: Value, w: Value)
    requires Comparable(v, w)
    ensures Precedes(v, w) ==> !Precedes(w, v) && v != w
    ensures v != w ==> Precedes(v, w) || Precedes(w, v)
  {
    CompareMeans(v, w);
    CompareMeans(w, v);
    CompareValuesOrder(v, w, v);
  }

  function ContextOf(node: Node, db: Database, ctx: Context, id: Id): Context {
    ctx[node.source := RowAt(db, node.source, id)]
  }

  lemma SelectedBefore(node: Node, db: Database, ctx: Context, i: nat, j: nat)
    requires i < j < |Selected(node, db, ctx)|
    ensures var s := Selected(node, db, ctx);
      && s[i] in Filtered(node, db, ctx) && s[j] in Filtered(node, db, ctx) && s[i] != s[j]
      && CompareOrders(node.order, ContextOf(node, db, ctx, s[i]), ContextOf(node, db, ctx, s[j])) <= 0
  {
    hide Filtered, CompareOrders;
    var m := Filtered(node, db, ctx);
    var s, all := Selected(node, db, ctx), Sorted(node.order, m);
    SortedSorts(node.order, m);
    assert s[i] == all[i] && s[j] == all[j];
    assert Before(node.order, all[i], m[all[i]], all[j], m[all[j]]);
    BeforeIsOrder(node.order, all[i], m[all[i]], all[j], m[all[j]], all[i], m[all[i]]);
  }

  /** The rows of a result come in the query's order. */
  lemma ResultsInOrder(node: Node, db: Database, ctx: Context, i: nat, j: nat)
    requires i < j < |Selected(node, db, ctx)|
    requires AllComparable(node.order, ContextOf(node, db, ctx, Selected(node, db, ctx)[i]), ContextOf(node, db, ctx, Selected(node, db, ctx)[j]))
    ensures InOrderFrom(node.order, ContextOf(node, db, ctx, Selected(node, db, ctx)[i]), ContextOf(node, db, ctx, Selected(node, db, ctx)[j]))
  {
    hide Selected, CompareOrders, AllComparable;
    SelectedBefore(node, db, ctx, i, j);
    OrdersMean(node.order, ContextOf(node, db, ctx, Selected(node, db, ctx)[i]), ContextOf(node, db, ctx, Selected(node, db, ctx)[j]));
  }

  /** Ordered by a column of numbers, results ascend; in the other direction they descend. */
  lemma NumbersInOrder(node: Node, db: Database, ctx: Context, column: string, descending: bool, i: nat, j: nat, x: real, y: real)
    requires node.order == [OrderTerm(Field(node.source, column), descending)] && i < j < |Selected(node, db, ctx)|
    requires ColumnOf(RowAt(db, node.source, Selected(node, db, ctx)[i]), column) == Num(x)
    requires ColumnOf(RowAt(db, node.source, Selected(node, db, ctx)[j]), column) == Num(y)
    ensures if descending then x >= y else x <= y
  {
    hide Selected;
    SelectedBefore(node, db, ctx, i, j);
    assert node.order[1..] == [];
  }

  /** Rows that tie in every term come in the order in which they arrived. */
  lemma TiesByArrival(node: Node, db: Database, ctx: Context, i: nat, j: nat)
    requires i < j < |Selected(node, db, ctx)|
    requires forall k :: 0 <= k < |node.order| ==>
      EvalExpr(node.order[k].expr, ContextOf(node, db, ctx, Selected(node, db, ctx)[i]))
        == EvalExpr(node.order[k].expr, ContextOf(node, db, ctx, Selected(node, db, ctx)[j]))
    ensures var s, rows := Selected(node, db, ctx), Rows(db, node.source);
      s[i] in rows && s[j] in rows && rows[s[i]].ordinal <= rows[s[j]].ordinal
  {
    hide Filtered, CompareOrders;
    var m := Filtered(node, db, ctx);
    var s, all := Selected(node, db, ctx), Sorted(node.order, m);
    SelectedBefore(node, db, ctx, i, j);
    SortedSorts(node.order, m);
    assert s[i] == all[i] && s[j] == all[j];
    assert Before(node.order, all[i], m[all[i]], all[j], m[all[j]]);
    TiesCompare(node.order, m[all[i]].context, m[all[j]].context);
  }

  lemma {:induction false} TiesCompare(order: seq<OrderTerm>, a: Context, b: Context)
    requires forall k :: 0 <= k < |order| ==> EvalExpr(order[k].expr, a) == EvalExpr(order[k].expr, b)
    ensures CompareOrders(order, a, b) == 0
  {
    if order != [] {
      TiesCompare(order[1..], a, b);
    }
  }

  // ---------- cardinalities ----------

  // The rows that the query's policy and filters let through.
  ghost predicate Passing(node: Node, db: Database, ctx: Context, id: Id) {
    && id in Rows(db, node.source)
    && (node.authorization.Some? ==> Authorized(node.authorization.value, db, Rows(db, node.source)[id].row))
    && forall i :: 0 <= i < |node.filters| ==> Truthy(EvalExpr(node.filters[i], ctx[node.source := Rows(db, node.source)[id].row]))
  }

  ghost function PassingIds(node: Node, db: Database, ctx: Context): set<Id> {
    set id | id in Rows(db, node.source) && Passing(node, db, ctx, id)
  }

  lemma FilteredIds(node: Node, db: Database, ctx: Context)
    ensures Filtered(node, db, ctx).Keys == PassingIds(node, db, ctx)
  {
  }

  lemma {:induction false} SortedSize(order: seq<OrderTerm>, m: Coll)
    ensures |Sorted(order, m)| == |m.Keys|
    decreases |m|
  {
    if m != map[] {
      LeastExists(order, m);
      var least := Sorted(order, m)[0];
      assert (m - {least}).Keys == m.Keys - {least};
      assert |m - {least}| < |m|;
      SortedSize(order, m - {least});
    }
  }

  /** As many rows are returned as pass, up to the limit, and each of them passes. */
  lemma SelectedMeans(node: Node, db: Database, ctx: Context)
    ensures var s := Selected(node, db, ctx);
      && |s| == (if node.limit.Some? && node.limit.value < |PassingIds(node, db, ctx)| then node.limit.value else |PassingIds(node, db, ctx)|)
      && (forall i :: 0 <= i < |s| ==> Passing(node, db, ctx, s[i]))
      && (forall i, j :: 0 <= i < j < |s| ==> s[i] != s[j])
  {
    hide Filtered;
    var m := Filtered(node, db, ctx);
    FilteredIds(node, db, ctx);
    SortedSize(node.order, m);
    SortedSorts(node.order, m);
    var s, all := Selected(node, db, ctx), Sorted(node.order, m);
    forall i | 0 <= i < |s| ensures Passing(node, db, ctx, s[i]) {
      assert s[i] == all[i] && all[i] in all;
    }
    forall i, j | 0 <= i < j < |s| ensures s[i] != s[j] {
      SelectedBefore(node, db, ctx, i, j);
    }
  }

  /** The limit leaves out rows from the end only: a row that passes and is not returned does not belong before any that is. */
  lemma LimitKeepsFirst(node: Node, db: Database, ctx: Context, id: Id, i: nat)
    requires Passing(node, db, ctx, id) && id !in Selected(node, db, ctx) && i < |Selected(node, db, ctx)|
    requires AllComparable(node.order, ContextOf(node, db, ctx, Selected(node, db, ctx)[i]), ContextOf(node, db, ctx, id))
    ensures InOrderFrom(node.order, ContextOf(node, db, ctx, Selected(node, db, ctx)[i]), ContextOf(node, db, ctx, id))
  {
    hide Filtered, CompareOrders, AllComparable;
    var m := Filtered(node, db, ctx);
    var s, all := Selected(node, db, ctx), Sorted(node.order, m);
    FilteredIds(node, db, ctx);
    PassingThere(node, db, ctx, id);
    assert id in PassingIds(node, db, ctx);
    SortedSorts(node.order, m);
    var j :| 0 <= j < |all| && all[j] == id;
    assert forall k :: 0 <= k < |s| ==> all[k] == s[k] && s[k] in s;
    assert s[i] == all[i] && Before(node.order, all[i], m[all[i]], all[j], m[all[j]]);
    OrdersMean(node.order, ContextOf(node, db, ctx, s[i]), ContextOf(node, db, ctx, id));
  }

  /** A count is the number of rows that pass, up to the limit. */
  lemma CountMeans(node: Node, db: Database, ctx: Context)
    requires node.cardinality.Count?
    ensures Evaluate(node, db, ctx) == Scalar(Num(
      (if node.limit.Some? && node.limit.value < |PassingIds(node, db, ctx)| then node.limit.value else |PassingIds(node, db, ctx)|) as real))
  {
    hide Selected, PassingIds;
    SelectedMeans(node, db, ctx);
  }

  /** An existence test is true exactly if some row passes and the limit is not zero. */
  lemma ExistsMeans(node: Node, db: Database, ctx: Context)
    requires node.cardinality.Exists?
    ensures Evaluate(node, db, ctx) == Scalar(Bool(node.limit != Some(0) && exists id :: Passing(node, db, ctx, id)))
  {
    hide Selected, Passing;
    SelectedMeans(node, db, ctx);
    if id :| Passing(node, db, ctx, id) {
      PassingThere(node, db, ctx, id);
      assert id in PassingIds(node, db, ctx);
    }
    if |PassingIds(node, db, ctx)| > 0 {
      var id :| id in PassingIds(node, db, ctx);
      assert Passing(node, db, ctx, id);
    }
  }

  lemma PassingThere(node: Node, db: Database, ctx: Context, id: Id)
    requires Passing(node, db, ctx, id)
    ensures id in Rows(db, node.source)
  {
  }

  // A row as the query returns it.
  ghost function ShownRow(node: Node, db: Database, ctx: Context, id: Id): Result {
    if node.selection.None? then RowOf(RowAt(db, node.source, id))
    else Select(node.selection.value, db, ctx[node.source := RowAt(db, node.source, id)])
  }

  lemma {:induction false} ProjectShows(node: Node, db: Database, ctx: Context, ids: seq<Id>)
    ensures forall i :: 0 <= i < |ids| ==> Project(node, db, ctx, ids)[i] == ShownRow(node, db, ctx, ids[i])
    decreases |ids|
  {
    if ids != [] {
      ProjectShows(node, db, ctx, ids[1..]);
      forall i | 0 <= i < |ids| ensures Project(node, db, ctx, ids)[i] == ShownRow(node, db, ctx, ids[i]) {
        if i > 0 {
          assert Project(node, db, ctx, ids)[i] == Project(node, db, ctx, ids[1..])[i - 1];
        }
      }
    }
  }

  /** What a query of each cardinality returns for the rows it selects: all of them, at most one or null, exactly one. A row
      whose nested queries fail fails the whole, and so does a wrong number of rows. */
  lemma RowsMean(node: Node, db: Database, ctx: Context)
    requires node.cardinality.Many? || node.cardinality.One? || node.cardinality.Require?
    ensures var s, result := Selected(node, db, ctx), Evaluate(node, db, ctx);
      var broken := exists i :: 0 <= i < |s| && ShownRow(node, db, ctx, s[i]).Failed?;
      && (broken ==> result == Failed)
      && (!broken && node.cardinality.Many? ==>
            result.List? && |result.items| == |s| && forall i :: 0 <= i < |s| ==> result.items[i] == ShownRow(node, db, ctx, s[i]))
      && (!broken && node.cardinality.One? && |s| == 0 ==> result == Scalar(Null))
      && (!broken && (node.cardinality.One? || node.cardinality.Require?) && |s| == 1 ==> result == ShownRow(node, db, ctx, s[0]))
      && (!broken && node.cardinality.One? && |s| > 1 ==> result == Failed)
      && (!broken && node.cardinality.Require? && |s| != 1 ==> result == Failed)
  {
    hide Selected, ShownRow;
    ProjectShows(node, db, ctx, Selected(node, db, ctx));
    var values := Project(node, db, ctx, Selected(node, db, ctx));
    assert forall i :: 0 <= i < |values| ==> values[i].Failed? == ShownRow(node, db, ctx, Selected(node, db, ctx)[i]).Failed?;
  }

  /** A selection's first field has its expression's value or its nested query's, and the other fields are those of the rest. */
  lemma SelectMeans(fields: Fields, db: Database, ctx: Context)
    requires Select(fields, db, ctx).Object?
    ensures fields.NoFields? ==> Select(fields, db, ctx).fields == map[]
    ensures !fields.NoFields? ==>
      && Select(fields.rest, db, ctx).Object?
      && var value := if fields.ExprField? then Scalar(EvalExpr(fields.expr, ctx)) else Evaluate(fields.node, db, ctx);
         && !value.Failed?
         && Select(fields, db, ctx).fields.Keys == {fields.name} + Select(fields.rest, db, ctx).fields.Keys
         && (fields.name !in Select(fields.rest, db, ctx).fields ==> Select(fields, db, ctx).fields[fields.name] == value)
         && (forall n :: n in Select(fields.rest, db, ctx).fields ==> Select(fields, db, ctx).fields[n] == Select(fields.rest, db, ctx).fields[n])
  {
    hide Evaluate;
  }
}
