// Executing a plan gives an answer that the query's meaning allows.
module PlannedQueries {
  import opened Query
  import opened Planner
  import opened Executor
  import ReadPolicy
  import SpillSort

  // ---------- filters ----------

  lemma {:induction false} ConjunctionsMean(e: Expr, ctx: Context)
    ensures Truthy(EvalExpr(e, ctx)) <==> Passes(ReadPolicy.Conjunctions(e), ctx)
  {
    if e.Logical? && e.conjunction {
      ConjunctionsMean(e.left, ctx);
      ConjunctionsMean(e.right, ctx);
      ReadPolicy.PassesBoth(ReadPolicy.Conjunctions(e.left), ReadPolicy.Conjunctions(e.right), ctx);
    } else {
      assert ReadPolicy.Conjunctions(e)[0] == e;
    }
  }

  lemma {:induction false} FlatFiltersMean(filters: seq<Expr>, ctx: Context)
    ensures Passes(filters, ctx) <==> Passes(FlatFilters(filters), ctx)
  {
    if filters != [] {
      ConjunctionsMean(filters[0], ctx);
      FlatFiltersMean(filters[1..], ctx);
      ReadPolicy.PassesBoth([filters[0]], filters[1..], ctx);
      assert [filters[0]] + filters[1..] == filters;
      ReadPolicy.PassesBoth(ReadPolicy.Conjunctions(filters[0]), FlatFilters(filters[1..]), ctx);
      assert [filters[0]][0] == filters[0];
    }
  }

  lemma EqualityMeans(e: Expr, local: SourceId, ctx: Context, row: Row)
    requires EqualityFor(e, local).Some?
    ensures var eq := EqualityFor(e, local).value;
      Truthy(EvalExpr(e, ctx[local := row])) <==> ColumnOf(row, eq.column) == Resolve(eq.value, ctx)
  {
    var c := ctx[local := row];
    assert EvalExpr(e, c) == Bool(EvalExpr(e.left, c) == EvalExpr(e.right, c));
    var eq := EqualityFor(e, local).value;
    assert EvalExpr(Field(local, eq.column), c) == ColumnOf(row, eq.column);
  }

  lemma {:induction false} ResidualMeans(filters: seq<Expr>, used: set<nat>, i: nat, ctx: Context)
    requires i <= |filters|
    ensures Passes(filters[i..], ctx) <==>
      Passes(Residual(filters, used, i), ctx) && forall p :: i <= p < |filters| && p in used ==> Truthy(EvalExpr(filters[p], ctx))
    decreases |filters| - i
  {
    if i < |filters| {
      ResidualMeans(filters, used, i + 1, ctx);
      assert filters[i..] == [filters[i]] + filters[i + 1..];
      ReadPolicy.PassesBoth([filters[i]], filters[i + 1..], ctx);
      ReadPolicy.PassesBoth([filters[i]], Residual(filters, used, i + 1), ctx);
      assert [filters[i]][0] == filters[i];
      if i in used {
        assert [] + Residual(filters, used, i + 1) == Residual(filters, used, i + 1);
      }
    }
  }

  predicate UsedHold(filters: seq<Expr>, used: set<nat>, ctx: Context) {
    forall p :: 0 <= p < |filters| && p in used ==> Truthy(EvalExpr(filters[p], ctx))
  }

  lemma UsedMeans(filters: seq<Expr>, local: SourceId, columns: seq<string>, ctx: Context, row: Row)
    requires AllEquated(filters, local, columns)
    ensures UsedHold(filters, UsedBy(filters, local, columns), ctx[local := row])
       <==> ColumnValues(columns, row) == ResolveAll(KeyOf(filters, local, columns), ctx)
  {
    hide EqualityFor;
    var values, key := ColumnValues(columns, row), ResolveAll(KeyOf(filters, local, columns), ctx);
    forall i | 0 <= i < |columns|
      ensures Truthy(EvalExpr(filters[PositionOf(filters, local, columns[i]).value], ctx[local := row])) <==> values[i] == key[i]
    {
      EqualityMeans(filters[PositionOf(filters, local, columns[i]).value], local, ctx, row);
    }
    if values == key {
      forall p | 0 <= p < |filters| && p in UsedBy(filters, local, columns) ensures Truthy(EvalExpr(filters[p], ctx[local := row])) {
        var i :| 0 <= i < |columns| && HasEquality(filters, local, columns[i]) && PositionOf(filters, local, columns[i]).value == p;
        assert values[i] == key[i];
      }
    }
    if UsedHold(filters, UsedBy(filters, local, columns), ctx[local := row]) {
      forall i | 0 <= i < |columns| ensures values[i] == key[i] {
        assert PositionOf(filters, local, columns[i]).value in UsedBy(filters, local, columns);
      }
    }
  }

  // Rows that pass the filters agree wherever a filter equates a column.
  lemma EquatedAgree(filters: seq<Expr>, local: SourceId, ctx: Context, column: string, a: Row, b: Row)
    requires HasEquality(filters, local, column) && Passes(filters, ctx[local := a]) && Passes(filters, ctx[local := b])
    ensures ColumnOf(a, column) == ColumnOf(b, column)
  {
    var p := PositionOf(filters, local, column).value;
    EqualityMeans(filters[p], local, ctx, a);
    EqualityMeans(filters[p], local, ctx, b);
  }

  // ---------- order ----------

  lemma {:induction false} CompareAt(x: seq<Value>, y: seq<Value>, k: nat)
    requires k < |x| && k < |y| && x[..k] == y[..k]
    ensures CompareValues(x[k], y[k]) != 0 ==> CompareKeys(x, y) == CompareValues(x[k], y[k])
  {
    if k > 0 {
      assert x[0] == x[..k][0] && y[0] == y[..k][0];
      assert x[1..][..k - 1] == x[..k][1..] && y[1..][..k - 1] == y[..k][1..];
      CompareAt(x[1..], y[1..], k - 1);
      CompareValuesOrder(x[0], y[0], x[0]);
    }
  }

  lemma {:induction false} TermsFollow(order: seq<OrderTerm>, local: SourceId, filters: seq<Expr>, columns: seq<string>, k: nat,
      descending: bool, ctx: Context, a: Row, b: Row)
    requires Follows(RemainingOrder(order, local, filters), local, columns, k, descending) && k <= |columns|
    requires forall column :: HasEquality(filters, local, column) ==> ColumnOf(a, column) == ColumnOf(b, column)
    requires ColumnValues(columns, a)[..k] == ColumnValues(columns, b)[..k]
    requires Executor.Directed(CompareKeys(ColumnValues(columns, a), ColumnValues(columns, b)), descending) <= 0
    ensures CompareOrders(order, ctx[local := a], ctx[local := b]) <= 0
  {
    hide HasEquality, CompareKeys;
    if order != [] {
      var e := order[0].expr;
      if OnEquatedColumn(e, local, filters) {
        CompareValuesOrder(ColumnOf(a, e.column), ColumnOf(b, e.column), Null);
        assert RemainingOrder(order, local, filters) == [] + RemainingOrder(order[1..], local, filters) == RemainingOrder(order[1..], local, filters);
        TermsFollow(order[1..], local, filters, columns, k, descending, ctx, a, b);
      } else {
        var remaining := RemainingOrder(order, local, filters);
        assert remaining == [order[0]] + RemainingOrder(order[1..], local, filters);
        assert IsColumn(remaining[0].expr, local, columns[k]) && remaining[0].descending == descending;
        var x, y := ColumnValues(columns, a), ColumnValues(columns, b);
        CompareAt(x, y, k);
        CompareValuesOrder(x[k], y[k], Null);
        if CompareValues(x[k], y[k]) == 0 {
          assert x[..k + 1] == x[..k] + [x[k]] && y[..k + 1] == y[..k] + [y[k]];
          FollowsTail(remaining, local, columns, k, descending);
          assert remaining[1..] == RemainingOrder(order[1..], local, filters);
          TermsFollow(order[1..], local, filters, columns, k + 1, descending, ctx, a, b);
        }
      }
    }
  }

  lemma FollowsAt(order: seq<OrderTerm>, local: SourceId, columns: seq<string>, k: nat, descending: bool, i: nat)
    requires Follows(order, local, columns, k, descending) && i < |order|
    ensures k + i < |columns| && IsColumn(order[i].expr, local, columns[k + i]) && order[i].descending == descending
  {
  }

  lemma FollowsTail(order: seq<OrderTerm>, local: SourceId, columns: seq<string>, k: nat, descending: bool)
    requires order != [] && Follows(order, local, columns, k, descending)
    ensures Follows(order[1..], local, columns, k + 1, descending)
  {
    var rest := order[1..];
    forall i | 0 <= i < |rest|
      ensures k + 1 + i < |columns| && IsColumn(rest[i].expr, local, columns[k + 1 + i]) && rest[i].descending == descending
    {
      FollowsAt(order, local, columns, k, descending, i + 1);
    }
    assert Follows(rest, local, columns, k + 1, descending);
  }

  lemma {:induction false} RemainingWhole(order: seq<OrderTerm>, local: SourceId)
    ensures RemainingOrder(order, local, []) == order
  {
    if order != [] {
      RemainingWhole(order[1..], local);
    }
  }

  // ---------- filtered sequences ----------

  lemma {:induction false} KeptMembers(ids: seq<Id>, keep: Id -> bool)
    ensures forall id :: id in Kept(ids, keep) <==> id in ids && keep(id)
  {
    if ids != [] {
      KeptMembers(ids[1..], keep);
      assert ids == [ids[0]] + ids[1..];
    }
  }

  // What holds of all pairs in order still holds of those that are kept.
  lemma {:induction false} KeptPairs(ids: seq<Id>, keep: Id -> bool, related: (Id, Id) -> bool)
    requires forall i, j :: 0 <= i < j < |ids| ==> related(ids[i], ids[j])
    ensures forall i, j :: 0 <= i < j < |Kept(ids, keep)| ==> related(Kept(ids, keep)[i], Kept(ids, keep)[j])
  {
    if ids != [] {
      var rest := ids[1..];
      forall i, j | 0 <= i < j < |rest| ensures related(rest[i], rest[j]) {
        assert rest[i] == ids[i + 1] && rest[j] == ids[j + 1];
      }
      KeptPairs(rest, keep, related);
      KeptMembers(rest, keep);
      forall id | id in Kept(rest, keep) ensures related(ids[0], id) {
        assert id in rest;
        var j :| 0 <= j < |rest| && rest[j] == id;
        assert ids[j + 1] == id;
      }
    }
  }

  lemma {:induction false} KeptTwice(ids: seq<Id>, first: Id -> bool, second: Id -> bool)
    requires forall id :: id in ids && second(id) ==> first(id)
    ensures Kept(Kept(ids, first), second) == Kept(ids, second)
  {
    if ids != [] {
      KeptTwice(ids[1..], first, second);
    }
  }

  lemma {:induction false} KeptAll(ids: seq<Id>, keep: Id -> bool)
    requires forall id :: id in ids ==> keep(id)
    ensures Kept(ids, keep) == ids
  {
    if ids != [] {
      KeptAll(ids[1..], keep);
    }
  }

  lemma ListsKept(s: seq<Id>, rows: Coll, keep: Row -> bool, filters: seq<Expr>, source: SourceId, ctx: Context, all: Row -> bool)
    requires Lists(s, rows, keep)
    requires forall id :: id in rows ==> (all(rows[id].row) <==> keep(rows[id].row) && Passes(filters, ctx[source := rows[id].row]))
    ensures Lists(Kept(s, Matching(rows, filters, source, ctx)), rows, all)
  {
    hide Passes;
    KeptMembers(s, Matching(rows, filters, source, ctx));
    KeptPairs(s, Matching(rows, filters, source, ctx), (i, j) => i != j);
  }

  // ---------- what each access scans ----------

  // The rows that pass the filters enforced by the access.
  function Enforced(filters: seq<Expr>, used: set<nat>, source: SourceId, ctx: Context): Row -> bool {
    row => UsedHold(filters, used, ctx[source := row])
  }

  // A whole scan, before its limit: the enforced rows, in an order that lets the query's order be dropped.
  ghost predicate Scans(node: Node, def: TableDef, chosen: Chosen, rows: Coll, ctx: Context, full: seq<Id>) {
    var filters := FlatFilters(node.filters);
    && Lists(full, rows, Enforced(filters, chosen.used, node.source, ctx))
    && (chosen.orderCovered ==> forall i, j :: 0 <= i < j < |full| ==> TermsAgree(node, rows, ctx, full[i], full[j]))
  }

  // If both rows pass the query's filters, they are in the query's order.
  ghost predicate TermsAgree(node: Node, rows: Coll, ctx: Context, i: Id, j: Id) {
    var a, b := RowOfId(rows, i), RowOfId(rows, j);
    Passes(node.filters, ctx[node.source := a]) && Passes(node.filters, ctx[node.source := b]) ==>
      CompareOrders(node.order, ctx[node.source := a], ctx[node.source := b]) <= 0
  }

  function LimitOf(access: Access): Option<nat> {
    match access
    case PrimaryKey(_) => None
    case TableScan(_, limit) => limit
    case IndexScan(_, _, _, limit) => limit
  }

  function ChosenFor(def: TableDef, node: Node): Chosen {
    ChooseAccess(def, FlatFilters(node.filters), node.order, node.source, ScanLimit(node.limit, node.cardinality))
  }

  // One row at most, with the key's values.
  lemma PrimaryScans(node: Node, def: TableDef, rows: Coll, ctx: Context, s: seq<Id>)
    requires StoredRows(def, rows) && ChosenFor(def, node).access.PrimaryKey?
    requires ScanOf(def, rows, ChosenFor(def, node).access, ctx, s)
    ensures Scans(node, def, ChosenFor(def, node), rows, ctx, s)
  {
    hide UsedHold, CompareOrders, HasEquality, FlatFilters;
    var filters, chosen := FlatFilters(node.filters), ChosenFor(def, node);
    var key := ResolveAll(chosen.access.key, ctx);
    PrimaryChosen(node, def);
    forall id | id in rows
      ensures Enforced(filters, chosen.used, node.source, ctx)(rows[id].row) <==> id == RowId(key) && Undefined !in key
    {
      UsedMeans(filters, node.source, def.primaryColumns, ctx, rows[id].row);
      if Undefined in key {
        var i :| 0 <= i < |key| && key[i] == Undefined;
        assert Present(def.primaryColumns, rows[id].row);
        assert ColumnValues(def.primaryColumns, rows[id].row)[i] != Undefined;
      }
    }
    assert forall id :: id in s <==> id in rows && Enforced(filters, chosen.used, node.source, ctx)(rows[id].row);
  }

  lemma PrimaryChosen(node: Node, def: TableDef)
    requires ChosenFor(def, node).access.PrimaryKey?
    ensures var filters, chosen := FlatFilters(node.filters), ChosenFor(def, node);
      && AllEquated(filters, node.source, def.primaryColumns)
      && chosen.used == UsedBy(filters, node.source, def.primaryColumns)
      && chosen.access.key == KeyOf(filters, node.source, def.primaryColumns)
  {
  }

  lemma TableChosen(node: Node, def: TableDef)
    requires ChosenFor(def, node).access.TableScan?
    ensures var chosen := ChosenFor(def, node);
      && chosen.used == {}
      && chosen.orderCovered == CoversColumns(node.order, node.source, def.primaryColumns, 0)
      && (chosen.orderCovered ==> chosen.access.reverse == Direction(node.order))
      && (chosen.access.limit != None ==> chosen.orderCovered && FlatFilters(node.filters) == [] && chosen.access.limit == ScanLimit(node.limit, node.cardinality))
  {
  }

  lemma TableScans(node: Node, def: TableDef, rows: Coll, ctx: Context, full: seq<Id>)
    requires StoredRows(def, rows) && ChosenFor(def, node).access.TableScan?
    requires Lists(full, rows, AnyRow()) && InColumnOrder(full, rows, def.primaryColumns, ChosenFor(def, node).access.reverse)
    ensures Scans(node, def, ChosenFor(def, node), rows, ctx, full)
  {
    hide CompareOrders, HasEquality, FlatFilters, Passes, CompareKeys;
    var chosen := ChosenFor(def, node);
    TableChosen(node, def);
    if chosen.orderCovered {
      RemainingWhole(node.order, node.source);
      forall i, j | 0 <= i < j < |full| ensures TermsAgree(node, rows, ctx, full[i], full[j]) {
        assert full[i] in full && full[j] in full;
        NothingEquated(node.source);
        TermsFollow(node.order, node.source, [], def.primaryColumns, 0, chosen.access.reverse, ctx, RowOfId(rows, full[i]), RowOfId(rows, full[j]));
      }
    }
  }

  lemma NothingEquated(local: SourceId)
    ensures forall column :: !HasEquality([], local, column)
  {
  }

  lemma {:induction false} BestIsCandidate(indexes: seq<IndexDef>, filters: seq<Expr>, order: seq<OrderTerm>, local: SourceId)
    ensures var best := BestCandidate(indexes, filters, order, local);
      best.Some? ==> exists i :: 0 <= i < |indexes| && IndexCandidate(indexes[i], filters, order, local) == best
  {
    hide IndexCandidate, Better;
    if indexes != [] {
      BestIsCandidate(indexes[1..], filters, order, local);
      var rest := BestCandidate(indexes[1..], filters, order, local);
      if rest.Some? {
        var i :| 0 <= i < |indexes[1..]| && IndexCandidate(indexes[1..][i], filters, order, local) == rest;
        assert indexes[i + 1] == indexes[1..][i];
      }
      assert indexes[0] == indexes[0];
    }
  }

  lemma IndexChosen(node: Node, def: TableDef) returns (i: nat)
    requires ChosenFor(def, node).access.IndexScan?
    ensures i < |def.indexes|
    ensures var filters, chosen := FlatFilters(node.filters), ChosenFor(def, node);
      var index := def.indexes[i];
      var k := EquatedPrefix(filters, node.source, index.columns);
      var columns := index.columns[..k];
      && chosen.access.index == index && chosen.used == UsedBy(filters, node.source, columns)
      && chosen.access.key == KeyOf(filters, node.source, columns)
      && chosen.orderCovered == CoversColumns(RemainingOrder(node.order, node.source, filters), node.source, index.columns, k)
      && chosen.access.reverse == Direction(RemainingOrder(node.order, node.source, filters))
      && (chosen.access.limit != None ==> chosen.orderCovered && Residual(filters, chosen.used, 0) == [] && chosen.access.limit == ScanLimit(node.limit, node.cardinality))
  {
    var filters := FlatFilters(node.filters);
    BestIsCandidate(def.indexes, filters, node.order, node.source);
    var best := BestCandidate(def.indexes, filters, node.order, node.source);
    i :| 0 <= i < |def.indexes| && IndexCandidate(def.indexes[i], filters, node.order, node.source) == best;
  }

  lemma IndexScans(node: Node, def: TableDef, rows: Coll, ctx: Context, full: seq<Id>)
    requires StoredRows(def, rows) && ChosenFor(def, node).access.IndexScan?
    requires var access := ChosenFor(def, node).access;
      var key := ResolveAll(access.key, ctx);
      if Undefined in key || |key| > |access.index.columns| then full == []
      else Lists(full, rows, HasKey(access.index.columns, key)) && InColumnOrder(full, rows, access.index.columns, access.reverse)
    ensures Scans(node, def, ChosenFor(def, node), rows, ctx, full)
  {
    hide CompareOrders, HasEquality, FlatFilters, Passes, CompareKeys, UsedHold, ChosenFor;
    var filters, chosen := FlatFilters(node.filters), ChosenFor(def, node);
    var n := IndexChosen(node, def);
    var index := def.indexes[n];
    var k := EquatedPrefix(filters, node.source, index.columns);
    var columns := index.columns[..k];
    var key := ResolveAll(chosen.access.key, ctx);
    forall id | id in rows
      ensures Enforced(filters, chosen.used, node.source, ctx)(rows[id].row) <==> ColumnValues(index.columns, rows[id].row)[..k] == key
      ensures ColumnValues(index.columns, rows[id].row)[..k] == key ==> Undefined !in key
    {
      UsedMeans(filters, node.source, columns, ctx, rows[id].row);
      assert ColumnValues(index.columns, rows[id].row)[..k] == ColumnValues(columns, rows[id].row);
      PresentKey(def, n, k, rows, id);
    }
    assert Lists(full, rows, Enforced(filters, chosen.used, node.source, ctx));
    if chosen.orderCovered && full != [] {
      forall i, j | 0 <= i < j < |full| ensures TermsAgree(node, rows, ctx, full[i], full[j]) {
        assert full[i] in full && full[j] in full;
        IndexPair(node, filters, index.columns, k, chosen.access.reverse, rows, ctx, full[i], full[j]);
      }
    }
  }

  lemma PresentKey(def: TableDef, n: nat, k: nat, rows: Coll, id: Id)
    requires StoredRows(def, rows) && n < |def.indexes| && k <= |def.indexes[n].columns| && id in rows
    ensures Undefined !in ColumnValues(def.indexes[n].columns, rows[id].row)[..k]
  {
    assert Present(def.indexes[n].columns, rows[id].row);
  }

  lemma IndexPair(node: Node, filters: seq<Expr>, columns: seq<string>, k: nat, reverse: bool, rows: Coll, ctx: Context, i: Id, j: Id)
    requires filters == FlatFilters(node.filters) && k <= |columns|
    requires CoversColumns(RemainingOrder(node.order, node.source, filters), node.source, columns, k)
    requires reverse == Direction(RemainingOrder(node.order, node.source, filters))
    requires ColumnValues(columns, RowOfId(rows, i))[..k] == ColumnValues(columns, RowOfId(rows, j))[..k]
    requires Executor.Directed(CompareKeys(ColumnValues(columns, RowOfId(rows, i)), ColumnValues(columns, RowOfId(rows, j))), reverse) <= 0
    ensures TermsAgree(node, rows, ctx, i, j)
  {
    hide CompareOrders, HasEquality, CompareKeys, Follows, RemainingOrder, Passes, FlatFilters;
    var a, b := RowOfId(rows, i), RowOfId(rows, j);
    if Passes(node.filters, ctx[node.source := a]) && Passes(node.filters, ctx[node.source := b]) {
      FlatFiltersMean(node.filters, ctx[node.source := a]);
      FlatFiltersMean(node.filters, ctx[node.source := b]);
      forall column | HasEquality(filters, node.source, column) ensures ColumnOf(a, column) == ColumnOf(b, column) {
        EquatedAgree(filters, node.source, ctx, column, a, b);
      }
      TermsFollow(node.order, node.source, filters, columns, k, reverse, ctx, a, b);
    }
  }

  // ---------- sorting ----------

  lemma CompareMatchesConsistent(order: seq<OrderTerm>, rows: Coll, source: SourceId, ctx: Context)
    ensures SpillSort.Consistent(CompareMatches(order, rows, source, ctx))
  {
    hide CompareOrders, CompareIds;
    var compare := CompareMatches(order, rows, source, ctx);
    forall x, y, z
      ensures compare(x, x) == 0
      ensures compare(x, y) < 0 <==> compare(y, x) > 0
      ensures compare(x, y) <= 0 && compare(y, z) <= 0 ==> compare(x, z) <= 0
    {
      MatchesOrder(order, rows, source, ctx, x, y, z);
    }
  }

  lemma MatchesOrder(order: seq<OrderTerm>, rows: Coll, source: SourceId, ctx: Context, x: Id, y: Id, z: Id)
    ensures var compare := CompareMatches(order, rows, source, ctx);
      && compare(x, x) == 0
      && (compare(x, y) < 0 <==> compare(y, x) > 0)
      && (compare(x, y) <= 0 && compare(y, z) <= 0 ==> compare(x, z) <= 0)
  {
    hide CompareOrders, CompareIds;
    var a, b, c := ctx[source := RowOfId(rows, x)], ctx[source := RowOfId(rows, y)], ctx[source := RowOfId(rows, z)];
    CompareOrdersOrder(order, a, a, a);
    CompareOrdersOrder(order, a, b, c);
    CompareOrdersOrder(order, b, a, c);
    CompareIdsSwaps(x, x);
    CompareIdsSwaps(x, y);
    CompareIdsSwaps(y, z);
    if CompareIds(x, y) < 0 && CompareIds(y, z) < 0 {
      CompareIdsTransitive(x, y, z);
    }
  }

  lemma {:induction false} DistinctCounts(s: seq<Id>, id: Id)
    requires forall i, j :: 0 <= i < j < |s| ==> s[i] != s[j]
    ensures multiset(s)[id] <= 1
  {
    if s != [] {
      var init := s[..|s| - 1];
      DistinctCounts(init, id);
      assert s == init + [s[|s| - 1]];
      if id == s[|s| - 1] {
        assert id !in init;
        assert multiset(init)[id] == 0;
      }
    }
  }

  lemma RepeatedCounts(s: seq<Id>, i: nat, j: nat)
    requires i < j < |s| && s[i] == s[j]
    ensures multiset(s)[s[i]] >= 2
  {
    assert s == s[..j] + ([s[j]] + s[j + 1..]);
    assert s[i] in s[..j];
    assert multiset(s[..j])[s[i]] >= 1;
    assert multiset(s) == multiset(s[..j]) + (multiset{s[j]} + multiset(s[j + 1..]));
  }

  lemma CountsDistinct(s: seq<Id>, i: nat, j: nat)
    requires i < j < |s| && multiset(s)[s[i]] <= 1
    ensures s[i] != s[j]
  {
    if s[i] == s[j] {
      RepeatedCounts(s, i, j);
    }
  }

  // The same rows, sorted.
  lemma SortedLists(s: seq<Id>, t: seq<Id>, rows: Coll, keep: Row -> bool)
    requires Lists(s, rows, keep) && multiset(s) == multiset(t)
    ensures Lists(t, rows, keep)
  {
    forall id ensures id in t <==> id in s {
      assert id in t <==> id in multiset(t);
    }
    forall i, j | 0 <= i < j < |t| ensures t[i] != t[j] {
      DistinctCounts(s, t[i]);
      CountsDistinct(t, i, j);
    }
  }

  lemma SortedInOrder(order: seq<OrderTerm>, rows: Coll, source: SourceId, ctx: Context, s: seq<Id>)
    ensures var t := SpillSort.StableSort(CompareMatches(order, rows, source, ctx), s);
      InOrder(t, rows, order, source, ctx) && multiset(t) == multiset(s)
  {
    hide CompareOrders, CompareIds;
    var compare := CompareMatches(order, rows, source, ctx);
    CompareMatchesConsistent(order, rows, source, ctx);
    SpillSort.StableSortIs(compare, s);
    SpillSort.StableSortMultiset(compare, s);
    var t := SpillSort.StableSort(compare, s);
    forall i, j | 0 <= i < j < |t|
      ensures CompareOrders(order, ctx[source := RowOfId(rows, t[i])], ctx[source := RowOfId(rows, t[j])]) <= 0
    {
      assert compare(t[i], t[j]) <= 0;
    }
  }

  // ---------- the rows of one plan ----------

  // A whole scan filtered by the remaining filters lists the query's matches, in its order where that was dropped.
  lemma ScanMatches(node: Node, def: TableDef, rows: Coll, ctx: Context, full: seq<Id>)
    requires Scans(node, def, ChosenFor(def, node), rows, ctx, full)
    ensures var chosen := ChosenFor(def, node);
      var matches := Kept(full, Matching(rows, Residual(FlatFilters(node.filters), chosen.used, 0), node.source, ctx));
      && Lists(matches, rows, Keeps(node.filters, node.source, ctx))
      && (chosen.orderCovered ==> InOrder(matches, rows, node.order, node.source, ctx))
  {
    hide Passes, UsedHold, ChosenFor, CompareOrders, FlatFilters, Residual;
    var filters, chosen := FlatFilters(node.filters), ChosenFor(def, node);
    var residual := Residual(filters, chosen.used, 0);
    forall id | id in rows
      ensures Keeps(node.filters, node.source, ctx)(rows[id].row)
         <==> Enforced(filters, chosen.used, node.source, ctx)(rows[id].row) && Passes(residual, ctx[node.source := rows[id].row])
    {
      SplitFilters(node.filters, chosen.used, ctx[node.source := rows[id].row]);
    }
    ListsKept(full, rows, Enforced(filters, chosen.used, node.source, ctx), residual, node.source, ctx, Keeps(node.filters, node.source, ctx));
    if chosen.orderCovered {
      OrderKept(node, rows, ctx, full, Matching(rows, residual, node.source, ctx));
    }
  }

  lemma SplitFilters(filters: seq<Expr>, used: set<nat>, ctx: Context)
    ensures Passes(filters, ctx) <==> Passes(Residual(FlatFilters(filters), used, 0), ctx) && UsedHold(FlatFilters(filters), used, ctx)
  {
    hide Residual;
    FlatFiltersMean(filters, ctx);
    ResidualMeans(FlatFilters(filters), used, 0, ctx);
    assert FlatFilters(filters)[0..] == FlatFilters(filters);
  }

  lemma OrderKept(node: Node, rows: Coll, ctx: Context, full: seq<Id>, keep: Id -> bool)
    requires forall i, j :: 0 <= i < j < |full| ==> TermsAgree(node, rows, ctx, full[i], full[j])
    requires Lists(Kept(full, keep), rows, Keeps(node.filters, node.source, ctx))
    ensures InOrder(Kept(full, keep), rows, node.order, node.source, ctx)
  {
    hide CompareOrders, Passes;
    var s := Kept(full, keep);
    KeptAgree(node, rows, ctx, full, keep);
    forall i, j | 0 <= i < j < |s|
      ensures CompareOrders(node.order, ctx[node.source := RowOfId(rows, s[i])], ctx[node.source := RowOfId(rows, s[j])]) <= 0
    {
      assert s[i] in s && s[j] in s;
      assert Keeps(node.filters, node.source, ctx)(rows[s[i]].row) && Keeps(node.filters, node.source, ctx)(rows[s[j]].row);
    }
  }

  lemma {:induction false} KeptAgree(node: Node, rows: Coll, ctx: Context, ids: seq<Id>, keep: Id -> bool)
    requires forall i, j :: 0 <= i < j < |ids| ==> TermsAgree(node, rows, ctx, ids[i], ids[j])
    ensures forall i, j :: 0 <= i < j < |Kept(ids, keep)| ==> TermsAgree(node, rows, ctx, Kept(ids, keep)[i], Kept(ids, keep)[j])
  {
    hide TermsAgree;
    if ids != [] {
      var rest := ids[1..];
      forall i, j | 0 <= i < j < |rest| ensures TermsAgree(node, rows, ctx, rest[i], rest[j]) {
        assert rest[i] == ids[i + 1] && rest[j] == ids[j + 1];
      }
      KeptAgree(node, rows, ctx, rest, keep);
      KeptMembers(rest, keep);
      forall id | id in Kept(rest, keep) ensures TermsAgree(node, rows, ctx, ids[0], id) {
        assert id in rest;
        var j :| 0 <= j < |rest| && rest[j] == id;
        assert ids[j + 1] == id;
      }
    }
  }

  // The parts of a plan that its rows depend on.
  lemma PlanParts(schema: Schema, node: Node)
    requires PlanNode(schema, node).Some? && node.cardinality != Unspecified
    ensures node.table in schema
    ensures var plan := PlanNode(schema, node).value; var chosen := ChosenFor(schema[node.table], node);
      var filters := FlatFilters(node.filters);
      && plan.source == node.source && plan.table == node.table && plan.access == chosen.access && plan.limit == node.limit
      && plan.cardinality == node.cardinality && plan.filters == Residual(filters, chosen.used, 0)
      && plan.order == (if chosen.orderCovered then [] else node.order)
      && plan.join == JoinFor(filters, node.source, chosen.access)
      && (node.selection.None? ==> plan.selection == None)
      && (node.selection.Some? ==> PlanFields(schema, node.selection.value).Some? && plan.selection == Some(PlanFields(schema, node.selection.value).value))
  {
  }

  // A scan returns the first rows of some whole scan; a limit goes with an order that is covered and no filters left.
  lemma ScanIsPrefix(node: Node, def: TableDef, rows: Coll, ctx: Context, s: seq<Id>) returns (full: seq<Id>)
    requires StoredRows(def, rows) && ScanOf(def, rows, ChosenFor(def, node).access, ctx, s)
    ensures Scans(node, def, ChosenFor(def, node), rows, ctx, full) && s == Take(LimitOf(ChosenFor(def, node).access), full)
    ensures LimitOf(ChosenFor(def, node).access) != None ==>
      && LimitOf(ChosenFor(def, node).access) == ScanLimit(node.limit, node.cardinality)
      && ChosenFor(def, node).orderCovered && Residual(FlatFilters(node.filters), ChosenFor(def, node).used, 0) == []
  {
    hide Scans, ChosenFor, Lists, InColumnOrder, FlatFilters, StoredRows;
    var access := ChosenFor(def, node).access;
    match access
    case PrimaryKey(_) =>
      full := s;
      PrimaryScans(node, def, rows, ctx, s);
    case TableScan(reverse, limit) =>
      full :| Lists(full, rows, AnyRow()) && InColumnOrder(full, rows, def.primaryColumns, reverse) && s == Take(limit, full);
      TableChosen(node, def);
      TableScans(node, def, rows, ctx, full);
    case IndexScan(index, key, reverse, limit) =>
      var n := IndexChosen(node, def);
      if Undefined in ResolveAll(key, ctx) || |key| > |index.columns| {
        full := [];
      } else {
        full :| Lists(full, rows, HasKey(index.columns, ResolveAll(key, ctx))) && InColumnOrder(full, rows, index.columns, reverse) && s == Take(limit, full);
      }
      IndexScans(node, def, rows, ctx, full);
  }

  // ---------- hash joins ----------

  // Rows that pass the filters have the join's value.
  lemma HashKeeps(filters: seq<Expr>, local: SourceId, ctx: Context, row: Row)
    requires Correlated(filters, local, 0).Some? && Passes(filters, ctx[local := row])
    ensures var e := Correlated(filters, local, 0).value; ColumnOf(row, e.column) == Resolve(e.value, ctx)
  {
    var e := Correlated(filters, local, 0).value;
    var j :| 0 <= j < |filters| && EqualityFor(filters[j], local) == Some(e);
    EqualityMeans(filters[j], local, ctx, row);
  }

  lemma HashedInput(node: Node, schema: Schema, rows: Coll, ctx: Context, s: seq<Id>)
    requires PlanNode(schema, node).Some? && node.cardinality != Unspecified && PlanNode(schema, node).value.join.Hash?
    ensures var plan := PlanNode(schema, node).value;
      && plan.access.TableScan? && plan.access.limit == None
      && Kept(Kept(s, WithValue(rows, plan.join.childColumn, Resolve(plan.join.parent, ctx))), Matching(rows, plan.filters, node.source, ctx))
           == Kept(s, Matching(rows, plan.filters, node.source, ctx))
  {
    hide Passes, FlatFilters, Correlated;
    var plan, filters := PlanNode(schema, node).value, FlatFilters(node.filters);
    PlanParts(schema, node);
    var def := schema[node.table];
    TableChosen(node, def);
    WholeResidual(filters, 0);
    assert plan.filters == filters by {
      assert filters[0..] == filters;
    }
    SomeFilter(filters, node.source);
    forall id | id in s && Matching(rows, plan.filters, node.source, ctx)(id)
      ensures WithValue(rows, plan.join.childColumn, Resolve(plan.join.parent, ctx))(id)
    {
      HashKeeps(filters, node.source, ctx, RowOfId(rows, id));
    }
    KeptTwice(s, WithValue(rows, plan.join.childColumn, Resolve(plan.join.parent, ctx)), Matching(rows, plan.filters, node.source, ctx));
  }

  lemma SomeFilter(filters: seq<Expr>, local: SourceId)
    ensures Correlated(filters, local, 0).Some? ==> filters != []
  {
  }

  lemma {:induction false} WholeResidual(filters: seq<Expr>, i: nat)
    requires i <= |filters|
    ensures Residual(filters, {}, i) == filters[i..]
    decreases |filters| - i
  {
    if i < |filters| {
      WholeResidual(filters, i + 1);
    }
  }

  // ---------- the main theorem ----------

  // Every query names its cardinality and a known table, whose rows are stored; none carries a semijoin.
  ghost predicate Plannable(schema: Schema, node: Node, db: Database)
    decreases node
  {
    && node.cardinality != Unspecified && node.authorization.None?
    && node.table in schema && StoredRows(schema[node.table], Rows(db, node.source))
    && (node.selection.Some? ==> PlannableFields(schema, node.selection.value, db))
  }

  ghost predicate PlannableFields(schema: Schema, fields: Fields, db: Database)
    decreases fields
  {
    match fields
    case NoFields => true
    case ExprField(_, _, rest) => PlannableFields(schema, rest, db)
    case QueryField(_, node, rest) => Plannable(schema, node, db) && PlannableFields(schema, rest, db)
  }

  /** Every such query has a plan. */
  lemma {:induction false} PlanExists(schema: Schema, node: Node, db: Database)
    requires Plannable(schema, node, db)
    ensures PlanNode(schema, node).Some?
    decreases node
  {
    if node.selection.Some? {
      PlanFieldsExist(schema, node.selection.value, db);
    }
  }

  lemma {:induction false} PlanFieldsExist(schema: Schema, fields: Fields, db: Database)
    requires PlannableFields(schema, fields, db)
    ensures PlanFields(schema, fields).Some?
    decreases fields
  {
    match fields
    case NoFields =>
    case ExprField(_, _, rest) => PlanFieldsExist(schema, rest, db);
    case QueryField(_, node, rest) =>
      PlanExists(schema, node, db);
      PlanFieldsExist(schema, rest, db);
  }

  // What the plan takes are the first rows of an arrangement, perhaps cut short by the scan's limit.
  ghost predicate TakenFrom(node: Node, db: Database, ctx: Context, s: seq<Id>, scanLimit: Option<nat>, taken: seq<Id>) {
    && Arranged(node, db, ctx, s)
    && (scanLimit != None ==> scanLimit == ScanLimit(node.limit, node.cardinality))
    && taken == Take(node.limit, Take(scanLimit, s))
  }

  lemma TakenIsArranged(scan: Scanner, schema: Schema, node: Node, db: Database, ctx: Context, nested: bool) returns (s: seq<Id>, scanLimit: Option<nat>)
    requires ValidScanner(scan) && Plannable(schema, node, db) && PlanNode(schema, node).Some?
    ensures TakenFrom(node, db, ctx, s, scanLimit, Taken(scan, schema, PlanNode(schema, node).value, db, ctx, nested))
  {
    hide Scans, ChosenFor, Lists, InOrder, FlatFilters, StoredRows, ScanOf, PlanNode, Residual, ScanLimit;
    var plan, def, rows := PlanNode(schema, node).value, schema[node.table], Rows(db, node.source);
    var chosen := ChosenFor(def, node);
    PlanParts(schema, node);
    var hashed := nested && plan.join.Hash?;
    var scanned := scan(def, rows, plan.access, if hashed then map[] else ctx);
    var scanCtx := if hashed then map[] else ctx;
    assert ScanOf(def, rows, chosen.access, scanCtx, scanned);
    var input := Input(scan, def, plan, rows, ctx, nested);
    var keep := Matching(rows, plan.filters, node.source, ctx);
    var full: seq<Id>;
    if hashed {
      HashedInput(node, schema, rows, ctx, scanned);
      TableScanAnyContext(def, rows, chosen.access, map[], ctx, scanned);
    }
    full := ScanIsPrefix(node, def, rows, ctx, scanned);
    scanLimit := LimitOf(chosen.access);
    ScanMatches(node, def, rows, ctx, full);
    var matches := Kept(full, keep);
    if scanLimit == None {
      assert scanned == full;
      assert Kept(input, keep) == matches;
    } else {
      NoFilters(rows, node.source, ctx);
      KeptAll(full, keep);
      KeptAll(scanned, keep);
      assert input == scanned;
    }
    if chosen.orderCovered {
      s := matches;
    } else {
      s := SpillSort.StableSort(CompareMatches(node.order, rows, node.source, ctx), matches);
      SortedInOrder(node.order, rows, node.source, ctx, matches);
      SortedLists(matches, s, rows, Keeps(node.filters, node.source, ctx));
      UnorderedSort(node, def, rows, ctx, matches);
    }
  }

  // An order that is not covered has terms to sort by.
  lemma UnorderedSort(node: Node, def: TableDef, rows: Coll, ctx: Context, matches: seq<Id>)
    requires !ChosenFor(def, node).orderCovered
    ensures node.order != []
    ensures LimitOf(ChosenFor(def, node).access) == None
  {
    var chosen := ChosenFor(def, node);
    match chosen.access
    case PrimaryKey(_) =>
    case TableScan(_, _) => TableChosen(node, def);
    case IndexScan(_, _, _, _) => var i := IndexChosen(node, def);
  }

  lemma TableScanAnyContext(def: TableDef, rows: Coll, access: Access, a: Context, b: Context, s: seq<Id>)
    requires access.TableScan? && ScanOf(def, rows, access, a, s)
    ensures ScanOf(def, rows, access, b, s)
  {
  }

  lemma NoFilters(rows: Coll, source: SourceId, ctx: Context)
    ensures forall id :: Matching(rows, [], source, ctx)(id)
  {
  }

  // Cutting the scan short never changes a count, an existence, or a cardinality check.
  lemma CutIsHarmless(node: Node, s: seq<Id>, scanLimit: Option<nat>)
    requires scanLimit != None ==> scanLimit == ScanLimit(node.limit, node.cardinality)
    ensures var ids, taken := Take(node.limit, s), Take(node.limit, Take(scanLimit, s));
      && (node.cardinality.Many? || node.cardinality.Count? || node.cardinality.Unspecified? ==> taken == ids)
      && (node.cardinality.Exists? ==> (|taken| > 0 <==> |ids| > 0))
      && (node.cardinality.One? || node.cardinality.Require? ==> taken == ids || (|taken| == 2 && |ids| > 2))
  {
  }

  lemma TooMany(cardinality: Cardinality, values: seq<Result>)
    requires cardinality.One? || cardinality.Require?
    requires |values| >= 2
    ensures Conclude(cardinality, values) == Failed
  {
  }

  /** Executing the plan of a query gives one of its answers, whatever access paths, dropped sorts, limits and joins it uses. */
  lemma {:induction false} PlannedAnswer(scan: Scanner, schema: Schema, node: Node, db: Database, ctx: Context, nested: bool)
    requires ValidScanner(scan) && Plannable(schema, node, db) && PlanNode(schema, node).Some?
    ensures Answer(node, db, ctx, Execute(scan, schema, PlanNode(schema, node).value, db, ctx, nested))
    decreases node, 1
  {
    hide Taken, PlanNode, ValidScanner, Arranged, AnswerRows, ScanLimit, Conclude, ExecuteRows;
    var plan := PlanNode(schema, node).value;
    PlanParts(schema, node);
    var s, scanLimit := TakenIsArranged(scan, schema, node, db, ctx, nested);
    var taken, ids := Taken(scan, schema, plan, db, ctx, nested), Take(node.limit, s);
    CutIsHarmless(node, s, scanLimit);
    var r := Execute(scan, schema, plan, db, ctx, nested);
    if !node.cardinality.Count? && !node.cardinality.Exists? {
      PlannedRows(scan, schema, node, db, ctx, ids);
      var rs := ExecuteRows(scan, schema, plan, db, ctx, ids);
      if taken != ids {
        TooMany(node.cardinality, rs);
        TooMany(node.cardinality, ExecuteRows(scan, schema, plan, db, ctx, taken));
      }
      assert AnswerRows(node, db, ctx, ids, rs) && r == Conclude(node.cardinality, rs);
    }
    assert AnswerFor(node, db, ctx, ids, r);
  }

  lemma {:induction false} PlannedRows(scan: Scanner, schema: Schema, node: Node, db: Database, ctx: Context, ids: seq<Id>)
    requires ValidScanner(scan) && Plannable(schema, node, db) && PlanNode(schema, node).Some?
    ensures AnswerRows(node, db, ctx, ids, ExecuteRows(scan, schema, PlanNode(schema, node).value, db, ctx, ids))
    decreases node, 0, |ids|
  {
    hide PlanNode, ValidScanner, ExecuteFields, AnswerFields, StoredRows;
    var plan := PlanNode(schema, node).value;
    PlanParts(schema, node);
    if ids != [] {
      PlannedRows(scan, schema, node, db, ctx, ids[1..]);
      var row := RowOfId(Rows(db, node.source), ids[0]);
      if node.selection.Some? {
        PlannedFieldsAnswer(scan, schema, node.selection.value, db, ctx[node.source := row]);
      }
      RowsCons(scan, schema, node, db, ctx, ids);
    }
  }

  // The first row's result and the results of the rest.
  lemma RowsCons(scan: Scanner, schema: Schema, node: Node, db: Database, ctx: Context, ids: seq<Id>)
    requires PlanNode(schema, node).Some? && ids != []
    requires var plan := PlanNode(schema, node).value;
      && plan.source == node.source
      && AnswerRows(node, db, ctx, ids[1..], ExecuteRows(scan, schema, plan, db, ctx, ids[1..]))
      && AnswerRow(node, db, ctx, ids[0], ExecuteRows(scan, schema, plan, db, ctx, ids)[0])
    ensures AnswerRows(node, db, ctx, ids, ExecuteRows(scan, schema, PlanNode(schema, node).value, db, ctx, ids))
  {
    hide PlanNode, ExecuteFields, AnswerFields;
    var plan := PlanNode(schema, node).value;
    var rs := ExecuteRows(scan, schema, plan, db, ctx, ids);
    var rest := ExecuteRows(scan, schema, plan, db, ctx, ids[1..]);
    assert rs == [rs[0]] + rest;
    forall i | 0 <= i < |ids| ensures AnswerRow(node, db, ctx, ids[i], rs[i]) {
      if i > 0 {
        assert ids[i] == ids[1..][i - 1] && rs[i] == rest[i - 1];
        assert AnswerRow(node, db, ctx, ids[1..][i - 1], rest[i - 1]);
      }
    }
  }

  lemma {:induction false} PlannedFieldsAnswer(scan: Scanner, schema: Schema, fields: Fields, db: Database, ctx: Context)
    requires ValidScanner(scan) && PlannableFields(schema, fields, db) && PlanFields(schema, fields).Some?
    ensures AnswerFields(fields, db, ctx, ExecuteFields(scan, schema, PlanFields(schema, fields).value, db, ctx))
    decreases fields
  {
    hide PlanNode, ValidScanner, Execute, Answer;
    match fields
    case NoFields =>
    case ExprField(_, _, rest) => PlannedFieldsAnswer(scan, schema, rest, db, ctx);
    case QueryField(_, node, rest) =>
      PlannedAnswer(scan, schema, node, db, ctx, true);
      PlannedFieldsAnswer(scan, schema, rest, db, ctx);
  }

  /** A query that names no cardinality has no result in the reference evaluator, but the planner
      takes it as many: its plan answers that query instead. */
  lemma UnspecifiedIsMany(scan: Scanner, schema: Schema, node: Node, db: Database, ctx: Context, nested: bool)
    requires ValidScanner(scan) && node.cardinality.Unspecified? && Plannable(schema, node.(cardinality := Many), db)
    ensures PlanNode(schema, node).Some? && Answer(node.(cardinality := Many), db, ctx, Execute(scan, schema, PlanNode(schema, node).value, db, ctx, nested))
    ensures forall r :: Answer(node, db, ctx, r) ==> r == Failed
  {
    var many := node.(cardinality := Many);
    SamePlan(schema, node, many);
    PlanExists(schema, many, db);
    PlannedAnswer(scan, schema, many, db, ctx, nested);
    forall r | Answer(node, db, ctx, r) ensures r == Failed {
      OnlyFails(node, db, ctx, r);
    }
  }

  lemma SamePlan(schema: Schema, node: Node, many: Node)
    requires node.cardinality.Unspecified? && many == node.(cardinality := Many)
    ensures PlanNode(schema, node) == PlanNode(schema, many)
  {
  }

  lemma OnlyFails(node: Node, db: Database, ctx: Context, r: Result)
    requires node.cardinality.Unspecified? && Answer(node, db, ctx, r)
    ensures r == Failed
  {
    hide Arranged, AnswerRows;
  }

  // ---------- a snapshot that sorts ----------

  function ByColumns(rows: Coll, columns: seq<string>, reverse: bool): (Id, Id) -> int {
    (i, j) => Executor.Directed(CompareKeys(ColumnValues(columns, RowOfId(rows, i)), ColumnValues(columns, RowOfId(rows, j))), reverse)
  }

  lemma ByColumnsConsistent(rows: Coll, columns: seq<string>, reverse: bool)
    ensures SpillSort.Consistent(ByColumns(rows, columns, reverse))
  {
    hide CompareKeys;
    var compare := ByColumns(rows, columns, reverse);
    forall x, y, z
      ensures compare(x, x) == 0
      ensures compare(x, y) < 0 <==> compare(y, x) > 0
      ensures compare(x, y) <= 0 && compare(y, z) <= 0 ==> compare(x, z) <= 0
    {
      var a, b, c := ColumnValues(columns, RowOfId(rows, x)), ColumnValues(columns, RowOfId(rows, y)), ColumnValues(columns, RowOfId(rows, z));
      CompareKeysOrder(a, a, a);
      CompareKeysOrder(a, b, a);
      KeysTransitive(a, b, c);
      KeysTransitive(c, b, a);
      CompareKeysOrder(b, c, b);
      CompareKeysOrder(a, c, a);
    }
  }

  lemma KeysTransitive(a: seq<Value>, b: seq<Value>, c: seq<Value>)
    ensures CompareKeys(a, b) <= 0 && CompareKeys(b, c) <= 0 ==> CompareKeys(a, c) <= 0
  {
    CompareKeysOrder(a, b, c);
    CompareKeysOrder(b, c, a);
  }

  function KeepRow(rows: Coll, keep: Row -> bool): Id -> bool {
    id => keep(RowOfId(rows, id))
  }

  ghost function SortedScan(rows: Coll, columns: seq<string>, reverse: bool, keep: Row -> bool): seq<Id> {
    SpillSort.StableSort(ByColumns(rows, columns, reverse), Kept(Sorted([], rows), KeepRow(rows, keep)))
  }

  lemma SortedScanIs(rows: Coll, columns: seq<string>, reverse: bool, keep: Row -> bool)
    ensures Lists(SortedScan(rows, columns, reverse, keep), rows, keep)
    ensures InColumnOrder(SortedScan(rows, columns, reverse, keep), rows, columns, reverse)
  {
    hide CompareKeys, Before;
    var all := Sorted([], rows);
    SortedSorts([], rows);
    forall i, j | 0 <= i < j < |all| ensures all[i] != all[j] {
      BeforeIsOrder([], all[i], rows[all[i]], all[j], rows[all[j]], all[i], rows[all[i]]);
    }
    var kept := Kept(all, KeepRow(rows, keep));
    KeptMembers(all, KeepRow(rows, keep));
    KeptPairs(all, KeepRow(rows, keep), (i, j) => i != j);
    forall id ensures id in kept <==> id in rows && keep(rows[id].row) {
      assert id in all <==> id in rows;
      assert KeepRow(rows, keep)(id) == keep(RowOfId(rows, id));
    }
    var compare := ByColumns(rows, columns, reverse);
    ByColumnsConsistent(rows, columns, reverse);
    SpillSort.StableSortIs(compare, kept);
    SpillSort.StableSortMultiset(compare, kept);
    var s := SpillSort.StableSort(compare, kept);
    SortedLists(kept, s, rows, keep);
    forall i, j | 0 <= i < j < |s| && s[i] in rows && s[j] in rows
      ensures Executor.Directed(CompareKeys(ColumnValues(columns, rows[s[i]].row), ColumnValues(columns, rows[s[j]].row)), reverse) <= 0
    {
      assert compare(s[i], s[j]) <= 0;
    }
  }

  ghost function SortingScan(def: TableDef, rows: Coll, access: Access, ctx: Context): seq<Id> {
    match access
    case PrimaryKey(key) =>
      var id := RowId(ResolveAll(key, ctx));
      if Undefined !in ResolveAll(key, ctx) && id in rows then [id] else []
    case TableScan(reverse, limit) => Take(limit, SortedScan(rows, def.primaryColumns, reverse, AnyRow()))
    case IndexScan(index, key, reverse, limit) =>
      if Undefined in ResolveAll(key, ctx) || |key| > |index.columns| then []
      else Take(limit, SortedScan(rows, index.columns, reverse, HasKey(index.columns, ResolveAll(key, ctx))))
  }

  /** There are snapshots of the kind that the main theorem speaks of. */
  lemma ScansExist(def: TableDef, rows: Coll, access: Access, ctx: Context)
    ensures ScanOf(def, rows, access, ctx, SortingScan(def, rows, access, ctx))
  {
    hide Lists, InColumnOrder, SortedScan;
    match access
    case PrimaryKey(_) =>
    case TableScan(reverse, limit) =>
      SortedScanIs(rows, def.primaryColumns, reverse, AnyRow());
    case IndexScan(index, key, reverse, limit) =>
      if !(Undefined in ResolveAll(key, ctx) || |key| > |index.columns|) {
        SortedScanIs(rows, index.columns, reverse, HasKey(index.columns, ResolveAll(key, ctx)));
      }
  }

  // ---------- answers and the reference evaluator ----------

  /** The reference evaluator, which breaks ties by arrival, gives an answer. */
  lemma {:induction false} EvaluateIsAnswer(node: Node, db: Database, ctx: Context)
    requires NoSemijoins(node)
    ensures Answer(node, db, ctx, Evaluate(node, db, ctx))
    decreases node, 2
  {
    hide Filtered, Sorted, Project, Conclude, InOrder, Lists;
    var s := Sorted(node.order, Filtered(node, db, ctx));
    SelectedArranged(node, db, ctx);
    assert Arranged(node, db, ctx, s);
    var ids := Take(node.limit, s);
    if !node.cardinality.Count? && !node.cardinality.Exists? {
      ProjectIsAnswer(node, db, ctx, ids);
      assert AnswerRows(node, db, ctx, ids, Project(node, db, ctx, ids));
    }
    assert AnswerFor(node, db, ctx, ids, Evaluate(node, db, ctx));
  }

  predicate NoSemijoins(node: Node)
    decreases node
  {
    node.authorization.None? && (node.selection.Some? ==> NoSemijoinsIn(node.selection.value))
  }

  predicate NoSemijoinsIn(fields: Fields)
    decreases fields
  {
    match fields
    case NoFields => true
    case ExprField(_, _, rest) => NoSemijoinsIn(rest)
    case QueryField(_, node, rest) => NoSemijoins(node) && NoSemijoinsIn(rest)
  }

  lemma SelectedArranged(node: Node, db: Database, ctx: Context)
    requires node.authorization.None?
    ensures Arranged(node, db, ctx, Sorted(node.order, Filtered(node, db, ctx)))
  {
    hide Passes, CompareOrders, CompareIds;
    var m, rows := Filtered(node, db, ctx), Rows(db, node.source);
    var s := Sorted(node.order, m);
    SortedSorts(node.order, m);
    forall i, j | 0 <= i < j < |s|
      ensures s[i] != s[j]
      ensures CompareOrders(node.order, ctx[node.source := RowOfId(rows, s[i])], ctx[node.source := RowOfId(rows, s[j])]) <= 0
    {
      BeforeIsOrder(node.order, s[i], m[s[i]], s[j], m[s[j]], s[i], m[s[i]]);
      assert m[s[i]].context == ctx[node.source := RowOfId(rows, s[i])];
      assert m[s[j]].context == ctx[node.source := RowOfId(rows, s[j])];
    }
  }

  lemma {:induction false} ProjectIsAnswer(node: Node, db: Database, ctx: Context, ids: seq<Id>)
    requires NoSemijoins(node)
    ensures AnswerRows(node, db, ctx, ids, Project(node, db, ctx, ids))
    decreases node, 1, |ids|
  {
    hide Select, AnswerFields;
    if ids != [] {
      ProjectIsAnswer(node, db, ctx, ids[1..]);
      var row := RowAt(db, node.source, ids[0]);
      if node.selection.Some? {
        SelectIsAnswer(node.selection.value, db, ctx[node.source := row]);
      }
      var rs, rest := Project(node, db, ctx, ids), Project(node, db, ctx, ids[1..]);
      assert rs == [rs[0]] + rest;
      forall i | 0 <= i < |ids| ensures AnswerRow(node, db, ctx, ids[i], rs[i]) {
        if i > 0 {
          assert ids[i] == ids[1..][i - 1] && rs[i] == rest[i - 1];
          assert AnswerRow(node, db, ctx, ids[1..][i - 1], rest[i - 1]);
        }
      }
    }
  }

  lemma {:induction false} SelectIsAnswer(fields: Fields, db: Database, ctx: Context)
    requires NoSemijoinsIn(fields)
    ensures AnswerFields(fields, db, ctx, Select(fields, db, ctx))
    decreases fields
  {
    hide Evaluate, Answer;
    match fields
    case NoFields =>
    case ExprField(_, _, rest) => SelectIsAnswer(rest, db, ctx);
    case QueryField(_, node, rest) =>
      EvaluateIsAnswer(node, db, ctx);
      SelectIsAnswer(rest, db, ctx);
  }

  // No two matches of the query tie, here and in every nested query.
  ghost predicate Untied(node: Node, db: Database, ctx: Context)
    decreases node
  {
    var rows := Rows(db, node.source);
    && (forall i, j :: i in rows && j in rows && i != j && Passes(node.filters, ctx[node.source := rows[i].row]) && Passes(node.filters, ctx[node.source := rows[j].row]) ==>
          CompareOrders(node.order, ctx[node.source := rows[i].row], ctx[node.source := rows[j].row]) != 0)
    && (node.selection.Some? ==> forall i :: i in rows ==> UntiedFields(node.selection.value, db, ctx[node.source := rows[i].row]))
  }

  ghost predicate UntiedFields(fields: Fields, db: Database, ctx: Context)
    decreases fields
  {
    match fields
    case NoFields => true
    case ExprField(_, _, rest) => UntiedFields(rest, db, ctx)
    case QueryField(_, node, rest) => Untied(node, db, ctx) && UntiedFields(rest, db, ctx)
  }

  // Two arrangements of matches that do not tie are one.
  lemma {:induction false} SameArrangement(node: Node, db: Database, ctx: Context, s: seq<Id>, t: seq<Id>)
    requires Untied(node, db, ctx) && Arranged(node, db, ctx, s) && Arranged(node, db, ctx, t)
    ensures s == t
  {
    hide CompareOrders, Passes, UntiedFields;
    var order := (i: Id, j: Id) => CompareOrders(node.order, ctx[node.source := RowOfId(Rows(db, node.source), i)], ctx[node.source := RowOfId(Rows(db, node.source), j)]) < 0;
    forall i, j | 0 <= i < j < |s| ensures order(s[i], s[j]) {
      assert s[i] in s && s[j] in s;
    }
    forall i, j | 0 <= i < j < |t| ensures order(t[i], t[j]) {
      assert t[i] in t && t[j] in t;
    }
    forall i, j | order(i, j) ensures !order(j, i) {
      var a, b := ctx[node.source := RowOfId(Rows(db, node.source), i)], ctx[node.source := RowOfId(Rows(db, node.source), j)];
      CompareOrdersOrder(node.order, a, b, a);
    }
    OneSequence(s, t, order);
  }

  lemma {:induction false} OneSequence(s: seq<Id>, t: seq<Id>, order: (Id, Id) -> bool)
    requires forall id :: id in s <==> id in t
    requires forall i, j :: 0 <= i < j < |s| ==> order(s[i], s[j])
    requires forall i, j :: 0 <= i < j < |t| ==> order(t[i], t[j])
    requires forall i, j :: order(i, j) ==> !order(j, i)
    ensures s == t
  {
    assert t == [] || t[0] in t;
    if s != [] {
      assert s[0] in t;
      HeadFirst(s, order, t[0]);
      HeadFirst(t, order, s[0]);
      forall id ensures id in s[1..] <==> id in t[1..] {
        TailMembers(s, order, id);
        TailMembers(t, order, id);
      }
      OneSequence(s[1..], t[1..], order);
    }
  }

  lemma HeadFirst(s: seq<Id>, order: (Id, Id) -> bool, x: Id)
    requires x in s && forall i, j :: 0 <= i < j < |s| ==> order(s[i], s[j])
    ensures x == s[0] || order(s[0], x)
  {
    var i :| 0 <= i < |s| && s[i] == x;
  }

  lemma TailMembers(s: seq<Id>, order: (Id, Id) -> bool, id: Id)
    requires s != [] && forall i, j :: 0 <= i < j < |s| ==> order(s[i], s[j])
    requires forall i, j :: order(i, j) ==> !order(j, i)
    ensures id in s[1..] <==> id in s && id != s[0]
  {
    if id in s[1..] {
      var i :| 0 <= i < |s[1..]| && s[1..][i] == id;
      assert order(s[0], s[i + 1]);
      assert !order(s[0], s[0]);
    }
    assert s == [s[0]] + s[1..];
  }

  /** Where nothing ties, a query has one answer: the reference evaluator's. */
  lemma {:induction false} UntiedAnswer(node: Node, db: Database, ctx: Context, r: Result)
    requires NoSemijoins(node) && Untied(node, db, ctx) && Answer(node, db, ctx, r)
    ensures r == Evaluate(node, db, ctx)
    decreases node, 2
  {
    hide Filtered, Sorted, Project, Conclude, Lists, InOrder, Untied, AnswerRows;
    var s :| Arranged(node, db, ctx, s) && AnswerFor(node, db, ctx, Take(node.limit, s), r);
    SelectedArranged(node, db, ctx);
    SameArrangement(node, db, ctx, s, Sorted(node.order, Filtered(node, db, ctx)));
    var ids := Take(node.limit, s);
    if !node.cardinality.Count? && !node.cardinality.Exists? {
      var rs :| AnswerRows(node, db, ctx, ids, rs) && r == Conclude(node.cardinality, rs);
      ArrangedInRows(node, db, ctx, s);
      UntiedRows(node, db, ctx, ids, rs);
    }
  }

  lemma ArrangedInRows(node: Node, db: Database, ctx: Context, s: seq<Id>)
    requires Arranged(node, db, ctx, s)
    ensures forall i :: 0 <= i < |Take(node.limit, s)| ==> Take(node.limit, s)[i] in Rows(db, node.source)
  {
    hide Passes, InOrder;
    forall i | 0 <= i < |Take(node.limit, s)| ensures Take(node.limit, s)[i] in Rows(db, node.source) {
      assert Take(node.limit, s)[i] == s[i] && s[i] in s;
    }
  }

  lemma {:induction false} UntiedRows(node: Node, db: Database, ctx: Context, ids: seq<Id>, rs: seq<Result>)
    requires NoSemijoins(node) && Untied(node, db, ctx) && AnswerRows(node, db, ctx, ids, rs)
    requires forall i :: 0 <= i < |ids| ==> ids[i] in Rows(db, node.source)
    ensures rs == Project(node, db, ctx, ids)
    decreases node, 1, |ids|
  {
    hide Select, AnswerFields, UntiedFields, Passes, CompareOrders;
    if ids != [] {
      assert AnswerRow(node, db, ctx, ids[0], rs[0]);
      forall i | 0 <= i < |ids[1..]| ensures AnswerRow(node, db, ctx, ids[1..][i], rs[1..][i]) {
        assert AnswerRow(node, db, ctx, ids[i + 1], rs[i + 1]);
      }
      UntiedRows(node, db, ctx, ids[1..], rs[1..]);
      if node.selection.Some? {
        UntiedSelect(node.selection.value, db, ctx[node.source := Rows(db, node.source)[ids[0]].row], rs[0]);
      }
      assert rs == [rs[0]] + rs[1..];
    }
  }

  lemma {:induction false} UntiedSelect(fields: Fields, db: Database, ctx: Context, r: Result)
    requires NoSemijoinsIn(fields) && UntiedFields(fields, db, ctx) && AnswerFields(fields, db, ctx, r)
    ensures r == Select(fields, db, ctx)
    decreases fields
  {
    hide Evaluate, Answer, Untied;
    match fields
    case NoFields =>
    case ExprField(name, expr, rest) =>
      var w :| AnswerFields(rest, db, ctx, w) && r == AddField(name, Scalar(EvalExpr(expr, ctx)), w);
      UntiedSelect(rest, db, ctx, w);
    case QueryField(name, node, rest) =>
      var v, w :| Answer(node, db, ctx, v) && AnswerFields(rest, db, ctx, w) && r == AddField(name, v, w);
      UntiedAnswer(node, db, ctx, v);
      UntiedSelect(rest, db, ctx, w);
  }
}
