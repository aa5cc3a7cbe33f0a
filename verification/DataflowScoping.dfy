// Why correlations must read their own row only: a compiled query that settles on another value than the query has.
module DataflowScoping {
  import opened Query
  import opened Dataflow
  import opened DataflowCompiler

  // The child side of the correlation also reads the parent: flag == (child.a == parent.b).
  function MixedFilter(): Expr {
    Comparison(Eq, Field(0, "flag"), Comparison(Eq, Field(1, "a"), Field(0, "b")))
  }

  function ChildQuery(): Node {
    Node(1, "child", [MixedFilter()], [], None, None, Exists, None)
  }

  function RootQuery(): Node {
    Node(0, "parent", [], [], None, Some(QueryField("c", ChildQuery(), NoFields)), Many, None)
  }

  function ParentRow(): Row {
    map["flag" := Bool(true), "b" := Num(1.0)]
  }

  function ChildRow(): Row {
    map["a" := Num(1.0)]
  }

  const P: Id := RowId([Num(1.0)])
  const C: Id := RowId([Num(2.0)])

  function Tables(): Database {
    map[0 := map[P := RowRecord(ParentRow(), 0)], 1 := map[C := RowRecord(ChildRow(), 0)]]
  }

  function Shown(present: bool): Result {
    List([Object(map["c" := Scalar(Bool(present))])])
  }

  // ---------- collections of one record ----------

  lemma OneSorted(order: seq<OrderTerm>, id: Id, r: Rec)
    ensures Sorted(order, map[id := r]) == [id]
  {
    assert Sorts(order, map[id := r], [id]);
    SortsUnique(order, map[id := r], [id]);
  }

  lemma OneGroup(id: Id, r: Rec)
    ensures GroupOf(map[id := r], r.group) == map[id := r]
  {
  }

  lemma OneTopK(order: seq<OrderTerm>, id: Id, r: Rec)
    ensures TopK(order, None, map[id := r]) == map[id := r]
  {
    OneSorted(order, id, r);
    OneGroup(id, r);
    assert id in [id];
  }

  // ---------- what the query means ----------

  lemma FilterAccepts()
    ensures Passes([MixedFilter()], map[0 := ParentRow(), 1 := ChildRow()])
  {
    var ctx: Context := map[0 := ParentRow(), 1 := ChildRow()];
    assert EvalExpr(Field(1, "a"), ctx) == Num(1.0) && EvalExpr(Field(0, "b"), ctx) == Num(1.0);
    assert EvalExpr(Field(0, "flag"), ctx) == Bool(true);
    assert EvalExpr(MixedFilter(), ctx) == Bool(true);
  }

  lemma ChildMeans()
    ensures Evaluate(ChildQuery(), Tables(), map[0 := ParentRow()]) == Scalar(Bool(true))
  {
    var ctx: Context := map[0 := ParentRow()];
    assert ctx[1 := ChildRow()] == map[0 := ParentRow(), 1 := ChildRow()];
    FilterAccepts();
    var m := Filtered(ChildQuery(), Tables(), ctx);
    var r := MatchOf(RootGroup, 1, ctx, RowRecord(ChildRow(), 0));
    assert m == map[C := r];
    OneSorted([], C, r);
    assert Selected(ChildQuery(), Tables(), ctx) == [C];
  }

  lemma QueryMeans()
    ensures Evaluate(RootQuery(), Tables(), map[]) == Shown(true)
  {
    hide Filtered, Sorted;
    var ctx: Context := map[];
    var r := MatchOf(RootGroup, 0, ctx, RowRecord(ParentRow(), 0));
    RootFiltered();
    OneSorted([], P, r);
    assert Selected(RootQuery(), Tables(), ctx) == [P];
    assert ctx[0 := ParentRow()] == map[0 := ParentRow()];
    ChildMeans();
    var fields := RootQuery().selection.value;
    assert Select(NoFields, Tables(), map[0 := ParentRow()]) == Object(map[]);
    assert Select(fields, Tables(), map[0 := ParentRow()]) == Object(map["c" := Scalar(Bool(true))]);
    assert [P][1..] == [];
    assert Project(RootQuery(), Tables(), ctx, []) == [];
    assert Project(RootQuery(), Tables(), ctx, [P]) == [Object(map["c" := Scalar(Bool(true))])];
  }

  lemma RootFiltered()
    ensures Filtered(RootQuery(), Tables(), map[]) == map[P := MatchOf(RootGroup, 0, map[], RowRecord(ParentRow(), 0))]
  {
    assert Passes([], map[0 := ParentRow()]);
  }

  // ---------- what the network settles on ----------

  lemma NothingCorrelates(parent: Rec)
    requires parent.context == map[0 := ParentRow()]
    ensures Correlated(ChildQuery(), map[P := parent], map[C := RowRecord(ChildRow(), 0)]) == map[]
  {
    var test := Comparison(Eq, Field(1, "a"), Field(0, "b"));
    assert CorrelationOf([MixedFilter()], 1) == Some(Correlation(test, Field(0, "flag")));
    var own: Context := map[1 := ChildRow()];
    assert EvalExpr(Field(1, "a"), own) == Num(1.0) && EvalExpr(Field(0, "b"), own) == Undefined;
    assert EvalExpr(test, own) == Bool(false);
    assert EvalExpr(Field(0, "flag"), parent.context) == Bool(true);
    assert ParentKey(ChildQuery(), parent) == Bool(true);
    assert ChildKey(ChildQuery(), RowRecord(ChildRow(), 0)) == Bool(false);
  }

  function ChildOps(): seq<Op> {
    [InputOp(1), CorrelateOp(ChildQuery(), 4, 6), GroupsOp(4), FilterOp([MixedFilter()], 7), TopKOp([], None, 9), ReduceOp(true, 10, 8)]
  }

  function RootOps(): seq<Op> {
    [RootGroupsOp, InputOp(0), RootMatchOp(0, 1), FilterOp([], 2), TopKOp([], None, 3), ProjectOp(RootQuery().selection, 4)]
    + ChildOps() + [NestOp("c", 5, 11), CardinalityOp([], Many, 12, 0)]
  }

  lemma RootCompiled()
    ensures CompileMatches(RootQuery(), None, [RootGroupsOp])
      == ([RootGroupsOp, InputOp(0), RootMatchOp(0, 1), FilterOp([], 2), TopKOp([], None, 3)], 4, 0)
  {
    var ops := [RootGroupsOp, InputOp(0), RootMatchOp(0, 1)];
    assert [RootGroupsOp] + [InputOp(0)] + [RootMatchOp(0, 1)] == ops;
    assert CompileSource(RootQuery(), None, [RootGroupsOp]) == (ops, 2, 0);
    assert CompileAuthorization(RootQuery(), 2, ops) == (ops, 2);
    assert ops + [FilterOp([], 2)] + [TopKOp([], None, 3)]
      == [RootGroupsOp, InputOp(0), RootMatchOp(0, 1), FilterOp([], 2), TopKOp([], None, 3)];
  }

  lemma ChildCompiled(ops: seq<Op>)
    requires |ops| == 6
    ensures CompileMatches(ChildQuery(), Some(4), ops)
      == (ops + [InputOp(1), CorrelateOp(ChildQuery(), 4, 6), GroupsOp(4), FilterOp([MixedFilter()], 7), TopKOp([], None, 9)], 10, 8)
  {
    var longer := ops + [InputOp(1), CorrelateOp(ChildQuery(), 4, 6), GroupsOp(4)];
    assert ops + [InputOp(1)] + [CorrelateOp(ChildQuery(), 4, 6)] + [GroupsOp(4)] == longer;
    assert CompileSource(ChildQuery(), Some(4), ops) == (longer, 7, 8);
    assert CompileAuthorization(ChildQuery(), 7, longer) == (longer, 7);
    assert longer + [FilterOp([MixedFilter()], 7)] + [TopKOp([], None, 9)]
      == ops + [InputOp(1), CorrelateOp(ChildQuery(), 4, 6), GroupsOp(4), FilterOp([MixedFilter()], 7), TopKOp([], None, 9)];
  }

  lemma Compiled()
    ensures Compile(RootQuery()) == (RootOps(), 13)
  {
    var ops1 := [RootGroupsOp, InputOp(0), RootMatchOp(0, 1), FilterOp([], 2), TopKOp([], None, 3)];
    RootCompiled();
    var ops2 := ops1 + [ProjectOp(RootQuery().selection, 4)];
    var ops3 := ops2 + [InputOp(1), CorrelateOp(ChildQuery(), 4, 6), GroupsOp(4), FilterOp([MixedFilter()], 7), TopKOp([], None, 9)];
    ChildCompiled(ops2);
    assert CompileNode(ChildQuery(), Some(4), ops2) == (ops3 + [ReduceOp(true, 10, 8)], 11);
    var ops4 := ops3 + [ReduceOp(true, 10, 8)] + [NestOp("c", 5, 11)];
    assert CompileFields(NoFields, 4, 12, ops4) == (ops4, 12);
    assert CompileFields(RootQuery().selection.value, 4, 5, ops2) == (ops4, 12);
    assert ops4 + [CardinalityOp([], Many, 12, 0)] == RootOps();
  }

  function ParentMatch(): Rec {
    MatchOf(RootGroup, 0, map[], RowRecord(ParentRow(), 0))
  }

  lemma RootMatchesHere(n: Solved)
    requires n.ops == RootOps() && n.db == Tables()
    ensures |n.out| == 14 && n.out[4] == map[P := ParentMatch()]
  {
    hide TopK;
    OutputAt(n.ops, n, 1);
    Unary(n.ops, n, 2, RootMatchOp(0, 1), 1);
    Unary(n.ops, n, 3, FilterOp([], 2), 2);
    Unary(n.ops, n, 4, TopKOp([], None, 3), 3);
    assert n.out[2] == map[P := ParentMatch()];
    assert n.out[3] == n.out[2];
    OneTopK([], P, ParentMatch());
  }

  lemma NothingReachesChild(n: Solved)
    requires n.ops == RootOps() && n.db == Tables()
    ensures |n.out| == 14 && n.out[7] == map[]
  {
    hide Correlated, TopK, Sorted;
    RootMatchesHere(n);
    OutputAt(n.ops, n, 6);
    Binary(n.ops, n, 7, CorrelateOp(ChildQuery(), 4, 6), 4, 6);
    NothingCorrelates(ParentMatch());
  }

  lemma ChildIsEmpty(n: Solved)
    requires n.ops == RootOps() && n.db == Tables()
    ensures |n.out| == 14 && n.out[10] == map[]
  {
    NothingReachesChild(n);
    Unary(n.ops, n, 9, FilterOp([MixedFilter()], 7), 7);
    Unary(n.ops, n, 10, TopKOp([], None, 9), 9);
    assert n.out[9] == map[];
  }

  lemma ChildSaysNo(n: Solved)
    requires n.ops == RootOps() && n.db == Tables()
    ensures |n.out| == 14 && n.out[11] == map[P := MaterializedRecord(RootGroup, Scalar(Bool(false)))]
  {
    RootMatchesHere(n);
    ChildIsEmpty(n);
    Unary(n.ops, n, 8, GroupsOp(4), 4);
    Binary(n.ops, n, 11, ReduceOp(true, 10, 8), 10, 8);
    assert GroupOf(map[], P) == map[];
  }

  function Item(): Rec {
    ParentMatch().(value := Object(map["c" := Scalar(Bool(false))]))
  }

  lemma ItemSaysNo(n: Solved)
    requires n.ops == RootOps() && n.db == Tables()
    ensures |n.out| == 14 && n.out[12] == map[P := Item()]
  {
    ChildSaysNo(n);
    RootMatchesHere(n);
    Unary(n.ops, n, 5, ProjectOp(RootQuery().selection, 4), 4);
    Binary(n.ops, n, 12, NestOp("c", 5, 11), 5, 11);
    assert ProjectValue(RootQuery().selection, ParentMatch()) == Object(map[]);
  }

  lemma NetworkSaysNo(n: Solved)
    requires n.ops == RootOps() && n.db == Tables()
    ensures |n.out| == 14 && n.out[13] == map[RootGroup := MaterializedRecord(RootGroup, Shown(false))]
  {
    hide Sorted, Item, RootOps;
    ItemSaysNo(n);
    assert n.ops[13] == CardinalityOp([], Many, 12, 0) by {
      LastOp();
    }
    Binary(n.ops, n, 13, CardinalityOp([], Many, 12, 0), 12, 0);
    ItemConcluded();
  }

  lemma LastOp()
    ensures |RootOps()| == 14 && RootOps()[13] == CardinalityOp([], Many, 12, 0)
  {
  }

  lemma ItemConcluded()
    ensures Concluded([], Many, map[P := Item()], RootParents) == map[RootGroup := MaterializedRecord(RootGroup, Shown(false))]
  {
    hide Sorted;
    OneGroup(P, Item());
    OneSorted([], P, Item());
    assert ValuesAt(map[P := Item()], [P]) == [Item().value];
  }

  /** Without well-scoped correlations incremental does not equal recompute: whatever run of this compiled query settles
      on these tables, the value it shows is not the query's value. */
  lemma UnscopedQueryDiffers(run: seq<Config>)
    requires Run(Compile(RootQuery()).0, run)
    requires var c := run[|run| - 1]; Quiet(c) && c.external != [] && c.external[0] == RootParents && Holds(Compile(RootQuery()).0, c, Tables())
    ensures !WellScoped(RootQuery(), false) && Compile(RootQuery()).1 < |Compile(RootQuery()).0|
    ensures Emitted(Compile(RootQuery()).0, run[|run| - 1], Compile(RootQuery()).1)
         != map[RootGroup := MaterializedRecord(RootGroup, Evaluate(RootQuery(), Tables(), map[]))]
  {
    hide Evaluate, Quiet, Step, InStep, Denote, Compile, WellScoped;
    Compiled();
    NotScoped();
    var ops := RootOps();
    var c := run[|run| - 1];
    OpsOrdered();
    QuietRunSolves(ops, run);
    var out := seq(|ops|, i requires 0 <= i < |ops| => Emitted(ops, c, i));
    var n := Network(ops, out, Tables());
    assert ops[0] == RootGroupsOp;
    assert forall i :: 0 <= i < |ops| ==> SourcedAt(n, i);
    NetworkSaysNo(n);
    QueryMeans();
    ShownDiffer();
    assert out[13][RootGroup].value == Shown(false);
    assert map[RootGroup := MaterializedRecord(RootGroup, Shown(true))][RootGroup].value == Shown(true);
  }

  lemma ShownDiffer()
    ensures Shown(false) != Shown(true)
  {
    var no, yes := map["c" := Scalar(Bool(false))], map["c" := Scalar(Bool(true))];
    assert no["c"] != yes["c"];
    assert Shown(false).items[0] == Object(no) && Shown(true).items[0] == Object(yes);
  }

  lemma ChildNotScoped()
    ensures !WellScoped(ChildQuery(), true)
  {
    var test := Comparison(Eq, Field(1, "a"), Field(0, "b"));
    assert CorrelationOf([MixedFilter()], 1) == Some(Correlation(test, Field(0, "flag")));
    assert !ReadsOnly(Field(0, "b"), 1);
    assert !ReadsOnly(test, 1);
  }

  lemma NotScoped()
    ensures !WellScoped(RootQuery(), false)
  {
    hide CorrelationOf, ReadsOnly, ChildQuery;
    ChildNotScoped();
    assert !WellScopedFields(QueryField("c", ChildQuery(), NoFields));
  }

  lemma OpsOrdered()
    ensures Ordered(RootOps())
  {
    Compiled();
    var base := [RootGroupsOp];
    assert Grows(base, base) by {
      assert OrderedAt(base, 0);
    }
    NodeGrows(RootQuery(), None, base);
  }
}
