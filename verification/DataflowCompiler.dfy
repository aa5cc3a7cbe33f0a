// QueryCompiler (dataflow.ts): query nodes become operators appended to one network, and the
// network's solution is the recursive evaluation of the query.
module DataflowCompiler {
  import opened Query
  import opened Dataflow

  // ---------- compilation ----------

  // The rows of the node's table, joined with the parents' matches when there are parents.
  // Operator 0 is the root group.
  function CompileSource(node: Node, parents: Option<nat>, ops: seq<Op>): (seq<Op>, nat, nat) {
    var ops1 := ops + [InputOp(node.source)];
    match parents
    case None => (ops1 + [RootMatchOp(node.source, |ops|)], |ops1|, 0)
    case Some(p) => (ops1 + [CorrelateOp(node, p, |ops|)] + [GroupsOp(p)], |ops1|, |ops1| + 1)
  }

  function CompileAuthorization(node: Node, matches: nat, ops: seq<Op>): (seq<Op>, nat)
    decreases node, 0
  {
    match node.authorization
    case None => (ops, matches)
    case Some(a) =>
      var (ops1, allowed, _) := CompileMatches(a.parent, None, ops);
      (ops1 + [AuthorizeOp(a.childColumn, a.parentColumn, matches, allowed)], |ops1|)
  }

  // The operators of a node, its match stream and its group stream.
  function CompileMatches(node: Node, parents: Option<nat>, ops: seq<Op>): (seq<Op>, nat, nat)
    decreases node, 1
  {
    var (ops1, joined, groups) := CompileSource(node, parents, ops);
    var (ops2, matches) := CompileAuthorization(node, joined, ops1);
    var ops3 := ops2 + [FilterOp(node.filters, matches)];
    (ops3 + [TopKOp(node.order, node.limit, |ops2|)], |ops3|, groups)
  }

  function CompileNode(node: Node, parents: Option<nat>, ops: seq<Op>): (seq<Op>, nat)
    decreases node, 2
  {
    var (ops1, matches, groups) := CompileMatches(node, parents, ops);
    if node.cardinality.Count? || node.cardinality.Exists? then
      (ops1 + [ReduceOp(node.cardinality.Exists?, matches, groups)], |ops1|)
    else
      var ops2 := ops1 + [ProjectOp(node.selection, matches)];
      var (ops3, projected) :=
        if node.selection.None? then (ops2, |ops1|)
        else CompileFields(node.selection.value, matches, |ops1|, ops2);
      (ops3 + [CardinalityOp(node.order, node.cardinality, projected, groups)], |ops3|)
  }

  // One NestOperator for every nested query of a selection.
  function CompileFields(fields: Fields, matches: nat, projected: nat, ops: seq<Op>): (seq<Op>, nat)
    decreases fields
  {
    match fields
    case NoFields => (ops, projected)
    case ExprField(_, _, rest) => CompileFields(rest, matches, projected, ops)
    case QueryField(name, node, rest) =>
      var (ops1, nested) := CompileNode(node, Some(matches), ops);
      CompileFields(rest, matches, |ops1|, ops1 + [NestOp(name, projected, nested)])
  }

  function Compile(node: Node): (seq<Op>, nat) {
    CompileNode(node, None, [RootGroupsOp])
  }

  ghost predicate Extends(ops: seq<Op>, longer: seq<Op>) {
    |ops| <= |longer| && forall i :: 0 <= i < |ops| ==> longer[i] == ops[i]
  }

  // longer is an ordered network that starts with ops.
  ghost predicate Grows(ops: seq<Op>, longer: seq<Op>) {
    Extends(ops, longer) && Ordered(longer)
  }

  lemma AppendGrows(ops: seq<Op>, longer: seq<Op>, op: Op)
    requires Grows(ops, longer)
    requires forall p :: 0 <= p < |Inputs(op)| ==> Inputs(op)[p] < |longer|
    ensures Grows(ops, longer + [op])
  {
    forall i | 0 <= i < |longer + [op]| ensures OrderedAt(longer + [op], i) {
      if i < |longer| {
        assert OrderedAt(longer, i);
      }
    }
  }

  lemma GrowsFacts(a: seq<Op>, b: seq<Op>)
    requires Grows(a, b)
    ensures Extends(a, b) && Grows(b, b)
  {
  }

  lemma AppendExtends(ops: seq<Op>, op: Op)
    ensures Extends(ops, ops + [op])
  {
  }

  lemma GrowsTransitive(a: seq<Op>, b: seq<Op>, c: seq<Op>)
    requires Grows(a, b) && Grows(b, c)
    ensures Grows(a, c)
  {
  }

  lemma SourceGrows(node: Node, parents: Option<nat>, ops: seq<Op>)
    requires Grows(ops, ops) && ops != [] && (parents.Some? ==> parents.value < |ops|)
    ensures var (ops', matches, groups) := CompileSource(node, parents, ops);
            Grows(ops, ops') && matches < |ops'| && groups < |ops'|
  {
    var ops1 := ops + [InputOp(node.source)];
    AppendGrows(ops, ops, InputOp(node.source));
    match parents
    case None =>
      AppendGrows(ops, ops1, RootMatchOp(node.source, |ops|));
    case Some(p) =>
      AppendGrows(ops, ops1, CorrelateOp(node, p, |ops|));
      AppendGrows(ops, ops1 + [CorrelateOp(node, p, |ops|)], GroupsOp(p));
  }

  lemma {:induction false} AuthorizationGrows(node: Node, matches: nat, ops: seq<Op>)
    requires Grows(ops, ops) && matches < |ops|
    ensures var (ops', m) := CompileAuthorization(node, matches, ops);
            Grows(ops, ops') && m < |ops'|
    decreases node, 0
  {
    if node.authorization.Some? {
      var a := node.authorization.value;
      MatchesGrow(a.parent, None, ops);
      var (ops1, allowed, _) := CompileMatches(a.parent, None, ops);
      AppendGrows(ops, ops1, AuthorizeOp(a.childColumn, a.parentColumn, matches, allowed));
    }
  }

  lemma {:induction false} MatchesGrow(node: Node, parents: Option<nat>, ops: seq<Op>)
    requires Grows(ops, ops) && ops != [] && (parents.Some? ==> parents.value < |ops|)
    ensures var (ops', matches, groups) := CompileMatches(node, parents, ops);
            Grows(ops, ops') && matches < |ops'| && groups < |ops'|
    decreases node, 1
  {
    var (ops1, joined, groups) := CompileSource(node, parents, ops);
    SourceGrows(node, parents, ops);
    var (ops2, matches) := CompileAuthorization(node, joined, ops1);
    AuthorizationGrows(node, joined, ops1);
    GrowsTransitive(ops, ops1, ops2);
    AppendGrows(ops, ops2, FilterOp(node.filters, matches));
    AppendGrows(ops, ops2 + [FilterOp(node.filters, matches)], TopKOp(node.order, node.limit, |ops2|));
  }

  lemma {:induction false} NodeGrows(node: Node, parents: Option<nat>, ops: seq<Op>)
    requires Grows(ops, ops) && ops != [] && (parents.Some? ==> parents.value < |ops|)
    ensures var (ops', result) := CompileNode(node, parents, ops);
            Grows(ops, ops') && result < |ops'|
    decreases node, 2
  {
    MatchesGrow(node, parents, ops);
    var (ops1, matches, groups) := CompileMatches(node, parents, ops);
    if node.cardinality.Count? || node.cardinality.Exists? {
      AppendGrows(ops, ops1, ReduceOp(node.cardinality.Exists?, matches, groups));
    } else {
      var ops2 := ops1 + [ProjectOp(node.selection, matches)];
      AppendGrows(ops, ops1, ProjectOp(node.selection, matches));
      if node.selection.None? {
        AppendGrows(ops, ops2, CardinalityOp(node.order, node.cardinality, |ops1|, groups));
      } else {
        FieldsGrow(node.selection.value, matches, |ops1|, ops2);
        var (ops3, projected) := CompileFields(node.selection.value, matches, |ops1|, ops2);
        GrowsTransitive(ops, ops2, ops3);
        AppendGrows(ops, ops3, CardinalityOp(node.order, node.cardinality, projected, groups));
      }
    }
  }

  lemma {:induction false} FieldsGrow(fields: Fields, matches: nat, projected: nat, ops: seq<Op>)
    requires Grows(ops, ops) && matches < |ops| && projected < |ops|
    ensures var (ops', result) := CompileFields(fields, matches, projected, ops);
            Grows(ops, ops') && result < |ops'|
    decreases fields
  {
    match fields
    case NoFields =>
    case ExprField(_, _, rest) => FieldsGrow(rest, matches, projected, ops);
    case QueryField(name, node, rest) =>
      NodeGrows(node, Some(matches), ops);
      var (ops1, nested) := CompileNode(node, Some(matches), ops);
      var ops2 := ops1 + [NestOp(name, projected, nested)];
      AppendGrows(ops, ops1, NestOp(name, projected, nested));
      FieldsGrow(rest, matches, |ops1|, ops2);
      GrowsTransitive(ops, ops2, CompileFields(rest, matches, |ops1|, ops2).0);
  }

  // ---------- scoping ----------

  predicate ReadsOnly(e: Expr, source: SourceId) {
    match e
    case Field(s, _) => s == source
    case Literal(_) => true
    case Comparison(_, l, r) => ReadsOnly(l, source) && ReadsOnly(r, source)
    case In(l, _) => ReadsOnly(l, source)
    case Logical(_, l, r) => ReadsOnly(l, source) && ReadsOnly(r, source)
    case Not(operand) => ReadsOnly(operand, source)
  }

  // The child side of the chosen correlation reads no outer row, and selections are objects.
  predicate WellScoped(node: Node, nested: bool)
    decreases node, 0
  {
    && (nested && CorrelationOf(node.filters, node.source).Some? ==>
          ReadsOnly(CorrelationOf(node.filters, node.source).value.child, node.source))
    && (node.authorization.Some? ==> WellScoped(node.authorization.value.parent, false))
    && (node.selection.Some? ==>
          WellScopedFields(node.selection.value) && DistinctNames(node.selection.value))
  }

  predicate WellScopedFields(fields: Fields)
    decreases fields
  {
    match fields
    case NoFields => true
    case ExprField(_, _, rest) => WellScopedFields(rest)
    case QueryField(_, node, rest) => WellScoped(node, true) && WellScopedFields(rest)
  }

  function Names(fields: Fields): set<string> {
    match fields
    case NoFields => {}
    case ExprField(name, _, rest) => {name} + Names(rest)
    case QueryField(name, _, rest) => {name} + Names(rest)
  }

  predicate DistinctNames(fields: Fields) {
    match fields
    case NoFields => true
    case ExprField(name, _, rest) => name !in Names(rest) && DistinctNames(rest)
    case QueryField(name, _, rest) => name !in Names(rest) && DistinctNames(rest)
  }

  lemma {:induction e} EvalInOwnContext(e: Expr, source: SourceId, ctx: Context, row: Row)
    ensures ReadsOnly(e, source) ==> EvalExpr(e, map[source := row]) == EvalExpr(e, ctx[source := row])
    ensures !References(e, source) ==> EvalExpr(e, ctx) == EvalExpr(e, ctx[source := row])
  {
  }

  lemma {:induction false} CorrelationIsFilter(filters: seq<Expr>, source: SourceId)
    ensures var c := CorrelationOf(filters, source);
      c.Some? ==>
        && !References(c.value.parent, source)
        && exists i :: 0 <= i < |filters| && (filters[i] == Comparison(Eq, c.value.child, c.value.parent)
                                              || filters[i] == Comparison(Eq, c.value.parent, c.value.child))
  {
    if filters != [] {
      CorrelationIsFilter(filters[1..], source);
      var c := CorrelationOf(filters[1..], source);
      if CorrelationOf(filters, source) == c && c.Some? {
        var i :| 0 <= i < |filters[1..]| && (filters[1..][i] == Comparison(Eq, c.value.child, c.value.parent)
                                              || filters[1..][i] == Comparison(Eq, c.value.parent, c.value.child));
        assert filters[i + 1] == filters[1..][i];
      } else if CorrelationOf(filters, source).Some? {
        var d := CorrelationOf(filters, source).value;
        assert filters[0] == Comparison(Eq, d.child, d.parent) || filters[0] == Comparison(Eq, d.parent, d.child);
      }
    }
  }

  /** A child row that passes the node's filters meets its parent in the join. */
  lemma FilteredIsCorrelated(node: Node, parent: Rec, child: Rec)
    requires WellScoped(node, true)
    requires Passes(node.filters, parent.context[node.source := child.row])
    ensures ParentKey(node, parent) == ChildKey(node, child)
  {
    var c := CorrelationOf(node.filters, node.source);
    if c.Some? {
      var ctx := parent.context[node.source := child.row];
      CorrelationIsFilter(node.filters, node.source);
      EvalInOwnContext(c.value.child, node.source, parent.context, child.row);
      EvalInOwnContext(c.value.parent, node.source, parent.context, child.row);
      var i :| 0 <= i < |node.filters| && (node.filters[i] == Comparison(Eq, c.value.child, c.value.parent)
                                            || node.filters[i] == Comparison(Eq, c.value.parent, c.value.child));
      assert Truthy(EvalExpr(node.filters[i], ctx));
    }
  }

  /** WellScoped is needed: a correlation whose child side also reads the parent is evaluated
      without the parent, so the join misses a row that passes every filter. */
  lemma UnscopedCorrelationLosesRow()
    ensures exists node: Node, parent: Rec, child: Rec ::
      && !WellScoped(node, true)
      && Passes(node.filters, parent.context[node.source := child.row])
      && (forall pid, rid :: MatchId(pid, node.table, rid) !in Correlated(node, map[pid := parent], map[rid := child]))
  {
    var test := Comparison(Eq, Field(1, "a"), Field(0, "b"));
    var filter := Comparison(Eq, Field(0, "flag"), test);
    var node := Node(1, "child", [filter], [], None, None, Many, None);
    var outer: Row := map["flag" := Bool(true), "b" := Num(1.0)];
    var inner: Row := map["a" := Num(1.0)];
    var parent, child := Rec(RootGroup, map[0 := outer], outer, 0, NoValue), RowRecord(inner, 0);
    assert CorrelationOf(node.filters, 1) == Some(Correlation(test, Field(0, "flag")));
    var ctx := parent.context[1 := inner];
    assert EvalExpr(Field(1, "a"), ctx) == Num(1.0) && EvalExpr(Field(0, "b"), ctx) == Num(1.0);
    assert EvalExpr(filter, ctx) == Bool(true);
    var own: Context := map[1 := inner];
    assert EvalExpr(Field(1, "a"), own) == Num(1.0) && EvalExpr(Field(0, "b"), own) == Undefined;
    assert ParentKey(node, parent) == Bool(true) && ChildKey(node, child) == Bool(false);
    assert !WellScoped(node, true) by {
      assert !ReadsOnly(Field(0, "b"), 1);
    }
  }

  // ---------- groups of matches ----------

  function Tag(root: bool, pid: Id, table: string, rid: Id): Id {
    if root then rid else MatchId(pid, table, rid)
  }

  // The matches of one parent, as they appear in the network.
  ghost function Tagged(root: bool, pid: Id, table: string, m: Coll): (t: Coll)
    ensures forall rid :: rid in m ==>
      Tag(root, pid, table, rid) in t && t[Tag(root, pid, table, rid)] == m[rid].(group := pid)
    ensures forall id :: id in t ==> exists rid :: rid in m && id == Tag(root, pid, table, rid)
  {
    if root then map rid | rid in m :: m[rid].(group := pid)
    else map rid | rid in m :: MatchId(pid, table, rid) := m[rid].(group := pid)
  }

  function TagAll(root: bool, pid: Id, table: string, ids: seq<Id>): (t: seq<Id>)
    ensures |t| == |ids|
    ensures forall i :: 0 <= i < |ids| ==> t[i] == Tag(root, pid, table, ids[i])
  {
    seq(|ids|, i requires 0 <= i < |ids| => Tag(root, pid, table, ids[i]))
  }

  lemma BeforeTagged(order: seq<OrderTerm>, root: bool, pid: Id, table: string, i: Id, x: Rec, j: Id, y: Rec)
    ensures Before(order, Tag(root, pid, table, i), x.(group := pid), Tag(root, pid, table, j), y.(group := pid))
        <==> Before(order, i, x, j, y)
  {
    CompareIdsSwaps(pid, pid);
    CodeUnitsOrder(table, table, table);
  }

  lemma SortedTagged(order: seq<OrderTerm>, root: bool, pid: Id, table: string, m: Coll)
    ensures Sorted(order, Tagged(root, pid, table, m)) == TagAll(root, pid, table, Sorted(order, m))
  {
    var s := Sorted(order, m);
    var t := TagAll(root, pid, table, s);
    var tagged := Tagged(root, pid, table, m);
    SortedSorts(order, m);
    forall i, j | 0 <= i < j < |t|
      ensures t[i] in tagged && t[j] in tagged && Before(order, t[i], tagged[t[i]], t[j], tagged[t[j]])
    {
      BeforeTagged(order, root, pid, table, s[i], m[s[i]], s[j], m[s[j]]);
    }
    forall id ensures id in t <==> id in tagged {
      if id in t {
        var i :| 0 <= i < |t| && t[i] == id;
        assert s[i] in s;
      }
      if id in tagged {
        var rid :| rid in m && id == Tag(root, pid, table, rid);
        assert rid in s;
        var i :| 0 <= i < |s| && s[i] == rid;
        assert t[i] == id;
      }
    }
    SortsUnique(order, tagged, t);
  }

  // Order looks at contexts, ordinals and ids only.
  lemma SortedSame(order: seq<OrderTerm>, m: Coll, n: Coll)
    requires m.Keys == n.Keys
    requires forall id :: id in m ==> m[id].context == n[id].context && m[id].ordinal == n[id].ordinal
    ensures Sorted(order, m) == Sorted(order, n)
  {
    var s := Sorted(order, m);
    SortedSorts(order, m);
    assert Sorts(order, n, s) by {
      forall i, j | 0 <= i < j < |s|
        ensures s[i] in n && s[j] in n && Before(order, s[i], n[s[i]], s[j], n[s[j]])
      {
        assert Before(order, s[i], m[s[i]], s[j], m[s[j]]);
      }
      forall id ensures id in s <==> id in n {
        assert id in m.Keys <==> id in n.Keys;
      }
    }
    SortsUnique(order, n, s);
  }

  // The first records of one group.
  ghost function Keep(order: seq<OrderTerm>, limit: Option<nat>, m: Coll): Coll {
    map id | id in m && id in Take(limit, Sorted(order, m)) :: m[id]
  }

  ghost function Limited(node: Node, db: Database, ctx: Context): Coll {
    Keep(node.order, node.limit, Filtered(node, db, ctx))
  }

  lemma SortedLimited(node: Node, db: Database, ctx: Context)
    ensures Sorted(node.order, Limited(node, db, ctx)) == Selected(node, db, ctx)
  {
    var m := Filtered(node, db, ctx);
    var s := Sorted(node.order, m);
    var ids := Selected(node, db, ctx);
    SortedSorts(node.order, m);
    assert forall i :: 0 <= i < |ids| ==> ids[i] == s[i] && s[i] in s;
    SortsUnique(node.order, Limited(node, db, ctx), ids);
  }

  lemma {:induction false} SortedLength(order: seq<OrderTerm>, m: Coll)
    ensures |Sorted(order, m)| == |m|
    decreases |m|
  {
    if m != map[] {
      LeastExists(order, m);
      var least := Sorted(order, m)[0];
      assert IsLeast(order, m, least);
      assert m.Keys == (m - {least}).Keys + {least};
      assert |m| == |m.Keys| && |m - {least}| == |(m - {least}).Keys|;
      SortedLength(order, m - {least});
    }
  }

  // ---------- the solution of a compiled node ----------

  const RootParents: Coll := map[RootGroup := GroupRecord(RootGroup)]

  // A whole network, its solution and the rows its sources hold.
  datatype Network = Network(ops: seq<Op>, out: seq<Coll>, db: Database)

  ghost predicate SourcedAt(n: Network, i: nat)
    requires i < |n.ops| == |n.out|
  {
    n.ops[i].InputOp? ==> n.out[i] == Rows(n.db, n.ops[i].source)
  }

  ghost predicate Solves(n: Network) {
    && Solution(n.ops, n.out)
    && n.out != [] && n.out[0] == RootParents
    && forall i :: 0 <= i < |n.ops| ==> SourcedAt(n, i)
  }

  type Solved = n: Network | Solves(n)
    ghost witness Network([RootGroupsOp], [RootParents], map[])

  lemma OutputAt(ops: seq<Op>, n: Solved, i: nat)
    requires Extends(ops, n.ops) && i < |ops|
    ensures i < |n.out| == |n.ops| && n.ops[i] == ops[i] && OrderedAt(n.ops, i)
    ensures ops[i].InputOp? ==> n.out[i] == Rows(n.db, ops[i].source)
    ensures !External(ops[i]) ==> n.out[i] == Denote(ops[i], InputsOf(n.ops, n.out, i))
    ensures |InputsOf(n.ops, n.out, i)| == |Inputs(ops[i])|
    ensures forall p :: 0 <= p < |Inputs(ops[i])| ==>
      Inputs(ops[i])[p] < |n.out| && InputsOf(n.ops, n.out, i)[p] == n.out[Inputs(ops[i])[p]]
  {
    assert OrderedAt(n.ops, i) && SolvedAt(n.ops, n.out, i) && SourcedAt(n, i);
  }

  lemma Unary(ops: seq<Op>, n: Solved, i: nat, op: Op, a: nat)
    requires Extends(ops, n.ops) && i < |ops| && ops[i] == op && Inputs(op) == [a]
    ensures i < |n.out| && a < |n.out| && n.out[i] == Denote(op, [n.out[a]])
  {
    OutputAt(ops, n, i);
    assert Inputs(op)[0] == a;
    assert InputsOf(n.ops, n.out, i) == [n.out[a]];
  }

  lemma Binary(ops: seq<Op>, n: Solved, i: nat, op: Op, a: nat, b: nat)
    requires Extends(ops, n.ops) && i < |ops| && ops[i] == op && Inputs(op) == [a, b]
    ensures i < |n.out| && a < |n.out| && b < |n.out| && n.out[i] == Denote(op, [n.out[a], n.out[b]])
  {
    OutputAt(ops, n, i);
    assert Inputs(op)[0] == a && Inputs(op)[1] == b;
    assert InputsOf(n.ops, n.out, i) == [n.out[a], n.out[b]];
  }

  lemma ExtendsTransitive(a: seq<Op>, b: seq<Op>, c: seq<Op>)
    requires Extends(a, b) && Extends(b, c)
    ensures Extends(a, c)
  {
  }

  // The matches that a node's parents stream carries.
  ghost function ParentsOf(parents: Option<nat>, n: Solved): Coll {
    if parents.Some? && parents.value < |n.out| then n.out[parents.value] else RootParents
  }

  ghost function Joined(node: Node, db: Database, root: bool, parents: Coll): Coll {
    var rows := Rows(db, node.source);
    if root then RootMatches(node.source, rows)
    else Correlated(node, parents, rows)
  }

  ghost predicate Admitted(node: Node, db: Database, row: Row) {
    node.authorization.Some? ==> Authorized(node.authorization.value, db, row)
  }

  ghost function AdmittedOf(node: Node, db: Database, joined: Coll): Coll {
    map id | id in joined && Admitted(node, db, joined[id].row) :: joined[id]
  }

  ghost predicate GroupFiltered(node: Node, db: Database, root: bool, pid: Id, ctx: Context, m: Coll) {
    GroupOf(m, pid) == Tagged(root, pid, node.table, Filtered(node, db, ctx))
  }

  ghost predicate GroupMatches(node: Node, db: Database, root: bool, pid: Id, ctx: Context, m: Coll) {
    GroupOf(m, pid) == Tagged(root, pid, node.table, Limited(node, db, ctx))
  }

  ghost predicate Grouped(parents: Coll, m: Coll) {
    forall id :: id in m ==> m[id].group in parents
  }

  ghost predicate FilteredAre(node: Node, db: Database, root: bool, parents: Coll, m: Coll) {
    && Grouped(parents, m)
    && forall pid {:trigger GroupFiltered(node, db, root, pid, parents[pid].context, m)} :: pid in parents ==>
         GroupFiltered(node, db, root, pid, parents[pid].context, m)
  }

  // The matches of every parent are the selected rows of the node evaluated in its context.
  ghost predicate MatchesAre(node: Node, db: Database, root: bool, parents: Coll, m: Coll) {
    && Grouped(parents, m)
    && forall pid {:trigger GroupMatches(node, db, root, pid, parents[pid].context, m)} :: pid in parents ==>
         GroupMatches(node, db, root, pid, parents[pid].context, m)
  }

  ghost function Evaluated(node: Node, db: Database, parents: Coll): Coll {
    map pid | pid in parents :: MaterializedRecord(parents[pid].group, Evaluate(node, db, parents[pid].context))
  }

  ghost predicate Passing(node: Node, db: Database, joined: Coll, m: Coll) {
    && m.Keys <= joined.Keys
    && (forall id :: id in m ==> m[id] == joined[id])
    && (forall id :: id in joined ==>
          (id in m <==> Admitted(node, db, joined[id].row) && Passes(node.filters, joined[id].context)))
  }

  lemma TaggedIs(root: bool, pid: Id, table: string, m: Coll, g: Coll)
    requires forall rid :: rid in m ==> Tag(root, pid, table, rid) in g
    requires forall rid :: rid in m ==> g[Tag(root, pid, table, rid)] == m[rid].(group := pid)
    requires forall id :: id in g ==> exists rid :: rid in m && id == Tag(root, pid, table, rid)
    ensures g == Tagged(root, pid, table, m)
  {
    var t := Tagged(root, pid, table, m);
    forall id ensures id in g <==> id in t {
    }
  }

  lemma FilteredAt(node: Node, db: Database, ctx: Context, rid: Id)
    ensures rid in Filtered(node, db, ctx) <==>
      && rid in Rows(db, node.source)
      && Admitted(node, db, Rows(db, node.source)[rid].row)
      && Passes(node.filters, ctx[node.source := Rows(db, node.source)[rid].row])
  {
  }

  lemma RootFiltered(node: Node, db: Database, m: Coll)
    requires Passing(node, db, Joined(node, db, true, RootParents), m)
    ensures FilteredAre(node, db, true, RootParents, m)
  {
    var filtered := Filtered(node, db, map[]);
    forall id ensures id in m <==> id in filtered {
      FilteredAt(node, db, map[], id);
    }
    var group := GroupOf(m, RootGroup);
    assert group == m;
    forall rid | rid in filtered
      ensures Tag(true, RootGroup, node.table, rid) in group
      ensures group[Tag(true, RootGroup, node.table, rid)] == filtered[rid].(group := RootGroup)
    {
    }
    forall id | id in group ensures exists rid :: rid in filtered && id == Tag(true, RootGroup, node.table, rid) {
      assert id in filtered && id == Tag(true, RootGroup, node.table, id);
    }
    TaggedIs(true, RootGroup, node.table, filtered, group);
    assert GroupFiltered(node, db, true, RootGroup, map[], m);
  }

  lemma NestedFilteredGroup(node: Node, db: Database, parents: Coll, m: Coll, pid: Id)
    requires WellScoped(node, true) && pid in parents
    requires Passing(node, db, Joined(node, db, false, parents), m)
    ensures GroupFiltered(node, db, false, pid, parents[pid].context, m)
  {
    var rows := Rows(db, node.source);
    var joined := Joined(node, db, false, parents);
    var filtered := Filtered(node, db, parents[pid].context);
    var group := GroupOf(m, pid);
    forall rid | rid in filtered
      ensures Tag(false, pid, node.table, rid) in group
      ensures group[Tag(false, pid, node.table, rid)] == filtered[rid].(group := pid)
    {
      FilteredAt(node, db, parents[pid].context, rid);
      FilteredIsCorrelated(node, parents[pid], rows[rid]);
      assert MatchId(pid, node.table, rid) in joined;
    }
    forall id | id in group ensures exists rid :: rid in filtered && id == Tag(false, pid, node.table, rid) {
      assert id in joined;
      var p, rid :| p in parents && rid in rows && id == MatchId(p, node.table, rid);
      FilteredAt(node, db, parents[pid].context, rid);
      assert p == pid && rid in filtered;
      assert id == Tag(false, pid, node.table, rid);
    }
    TaggedIs(false, pid, node.table, filtered, group);
  }

  lemma NestedFiltered(node: Node, db: Database, parents: Coll, m: Coll)
    requires WellScoped(node, true)
    requires Passing(node, db, Joined(node, db, false, parents), m)
    ensures FilteredAre(node, db, false, parents, m)
  {
    forall pid | pid in parents
      ensures GroupFiltered(node, db, false, pid, parents[pid].context, m)
    {
      NestedFilteredGroup(node, db, parents, m, pid);
    }
    var joined := Joined(node, db, false, parents);
    forall id | id in m ensures m[id].group in parents {
      assert id in joined;
    }
  }

  lemma TakeTagged(limit: Option<nat>, root: bool, pid: Id, table: string, s: seq<Id>, rid: Id)
    ensures Tag(root, pid, table, rid) in Take(limit, TagAll(root, pid, table, s)) <==> rid in Take(limit, s)
  {
    var kept, ids := Take(limit, TagAll(root, pid, table, s)), Take(limit, s);
    assert |kept| == |ids| && forall i :: 0 <= i < |ids| ==> kept[i] == Tag(root, pid, table, ids[i]);
    if rid in ids {
      var i :| 0 <= i < |ids| && ids[i] == rid;
      assert kept[i] == Tag(root, pid, table, rid);
    }
    if Tag(root, pid, table, rid) in kept {
      var i :| 0 <= i < |kept| && kept[i] == Tag(root, pid, table, rid);
      assert ids[i] == rid;
    }
  }

  lemma KeepTagged(order: seq<OrderTerm>, limit: Option<nat>, root: bool, pid: Id, table: string, m: Coll)
    ensures Keep(order, limit, Tagged(root, pid, table, m)) == Tagged(root, pid, table, Keep(order, limit, m))
  {
    var s := Sorted(order, m);
    SortedTagged(order, root, pid, table, m);
    var g := Keep(order, limit, Tagged(root, pid, table, m));
    var k := Keep(order, limit, m);
    forall rid | rid in k ensures Tag(root, pid, table, rid) in g {
      TakeTagged(limit, root, pid, table, s, rid);
    }
    forall id | id in g ensures exists rid :: rid in k && id == Tag(root, pid, table, rid) {
      var rid :| rid in m && id == Tag(root, pid, table, rid);
      TakeTagged(limit, root, pid, table, s, rid);
      assert rid in k;
    }
    TaggedIs(root, pid, table, k, g);
  }

  lemma TopKOfGroup(order: seq<OrderTerm>, limit: Option<nat>, m: Coll, pid: Id)
    ensures GroupOf(TopK(order, limit, m), pid) == Keep(order, limit, GroupOf(m, pid))
  {
    var g := GroupOf(TopK(order, limit, m), pid);
    var k := Keep(order, limit, GroupOf(m, pid));
    forall id ensures id in g <==> id in k {
    }
    assert g.Keys == k.Keys;
  }

  /** Keeping the first records of every group is evaluating the node's order and limit. */
  lemma TopKSelects(node: Node, db: Database, root: bool, parents: Coll, m: Coll)
    requires FilteredAre(node, db, root, parents, m)
    ensures MatchesAre(node, db, root, parents, TopK(node.order, node.limit, m))
  {
    forall pid | pid in parents
      ensures GroupMatches(node, db, root, pid, parents[pid].context, TopK(node.order, node.limit, m))
    {
      assert GroupFiltered(node, db, root, pid, parents[pid].context, m);
      TopKOfGroup(node.order, node.limit, m, pid);
      KeepTagged(node.order, node.limit, root, pid, node.table, Filtered(node, db, parents[pid].context));
    }
  }

  // ---------- projection and cardinality ----------

  ghost function ProjectedValue(node: Node, db: Database, ctx: Context, row: Row): Result {
    if node.selection.None? then RowOf(row) else Select(node.selection.value, db, ctx)
  }

  lemma {:induction false} ProjectAt(node: Node, db: Database, ctx: Context, ids: seq<Id>, i: nat)
    requires i < |ids|
    ensures var row := RowAt(db, node.source, ids[i]);
      Project(node, db, ctx, ids)[i] == ProjectedValue(node, db, ctx[node.source := row], row)
    decreases i
  {
    if i > 0 {
      assert ids[1..][i - 1] == ids[i];
      ProjectAt(node, db, ctx, ids[1..], i - 1);
    }
  }

  // Records that carry the projected value of every match.
  ghost predicate Projects(node: Node, db: Database, m: Coll, items: Coll) {
    && items.Keys == m.Keys
    && forall id :: id in m ==> items[id] == m[id].(value := ProjectedValue(node, db, m[id].context, m[id].row))
  }

  lemma SelectedAreLimited(node: Node, db: Database, ctx: Context)
    ensures forall i :: 0 <= i < |Selected(node, db, ctx)| ==> Selected(node, db, ctx)[i] in Limited(node, db, ctx)
  {
    var s := Sorted(node.order, Filtered(node, db, ctx));
    SortedSorts(node.order, Filtered(node, db, ctx));
    forall i | 0 <= i < |Selected(node, db, ctx)| ensures Selected(node, db, ctx)[i] in Limited(node, db, ctx) {
      assert Selected(node, db, ctx)[i] == s[i] && s[i] in s;
    }
  }

  lemma MatchAt(node: Node, db: Database, root: bool, pid: Id, ctx: Context, m: Coll, rid: Id)
    requires GroupMatches(node, db, root, pid, ctx, m)
    requires rid in Limited(node, db, ctx)
    ensures var id := Tag(root, pid, node.table, rid); var row := RowAt(db, node.source, rid);
      id in m && m[id].group == pid && m[id].row == row && m[id].context == ctx[node.source := row]
  {
    var id := Tag(root, pid, node.table, rid);
    assert id in GroupOf(m, pid);
    assert GroupOf(m, pid)[id] == Limited(node, db, ctx)[rid].(group := pid);
    assert rid in Filtered(node, db, ctx);
  }

  lemma GroupOrder(node: Node, db: Database, root: bool, pid: Id, ctx: Context, m: Coll)
    requires GroupMatches(node, db, root, pid, ctx, m)
    ensures Sorted(node.order, GroupOf(m, pid)) == TagAll(root, pid, node.table, Selected(node, db, ctx))
    ensures |GroupOf(m, pid)| == |Selected(node, db, ctx)|
  {
    SortedTagged(node.order, root, pid, node.table, Limited(node, db, ctx));
    SortedLimited(node, db, ctx);
    SortedLength(node.order, GroupOf(m, pid));
  }

  lemma ItemAt(node: Node, db: Database, root: bool, pid: Id, ctx: Context, m: Coll, items: Coll, rid: Id)
    requires GroupMatches(node, db, root, pid, ctx, m)
    requires Projects(node, db, m, items)
    requires rid in Limited(node, db, ctx)
    ensures var id := Tag(root, pid, node.table, rid); var row := RowAt(db, node.source, rid);
      id in GroupOf(items, pid) && items[id].value == ProjectedValue(node, db, ctx[node.source := row], row)
  {
    MatchAt(node, db, root, pid, ctx, m, rid);
  }

  lemma ItemsOrder(node: Node, db: Database, root: bool, pid: Id, ctx: Context, m: Coll, items: Coll)
    requires GroupMatches(node, db, root, pid, ctx, m)
    requires Projects(node, db, m, items)
    ensures Sorted(node.order, GroupOf(items, pid)) == TagAll(root, pid, node.table, Selected(node, db, ctx))
  {
    var a, b := GroupOf(m, pid), GroupOf(items, pid);
    forall id ensures id in a.Keys <==> id in b.Keys {
      assert id in items.Keys <==> id in m.Keys;
    }
    SortedSame(node.order, a, b);
    GroupOrder(node, db, root, pid, ctx, m);
  }

  lemma ValuesOfGroup(node: Node, db: Database, root: bool, pid: Id, ctx: Context, m: Coll, items: Coll)
    requires GroupMatches(node, db, root, pid, ctx, m)
    requires Projects(node, db, m, items)
    ensures ValuesAt(GroupOf(items, pid), TagAll(root, pid, node.table, Selected(node, db, ctx)))
         == Project(node, db, ctx, Selected(node, db, ctx))
  {
    var ids := Selected(node, db, ctx);
    SelectedAreLimited(node, db, ctx);
    var values := ValuesAt(GroupOf(items, pid), TagAll(root, pid, node.table, ids));
    forall i | 0 <= i < |ids| ensures values[i] == Project(node, db, ctx, ids)[i] {
      ProjectAt(node, db, ctx, ids, i);
      ItemAt(node, db, root, pid, ctx, m, items, ids[i]);
    }
  }

  // Adding the nested results to a projected object, one NestOperator at a time.
  ghost function NestAll(value: Result, fields: Fields, db: Database, ctx: Context): Result
    decreases fields
  {
    match fields
    case NoFields => value
    case ExprField(_, _, rest) => NestAll(value, rest, db, ctx)
    case QueryField(name, node, rest) =>
      NestAll(NestValue(name, value, Evaluate(node, db, ctx)), rest, db, ctx)
  }

  ghost function WithNested(item: Rec, fields: Fields, db: Database, ctx: Context): Rec {
    item.(value := NestAll(item.value, fields, db, ctx))
  }

  // No nested query of the selection fails.
  ghost predicate Succeeds(fields: Fields, db: Database, ctx: Context) {
    match fields
    case NoFields => true
    case ExprField(_, _, rest) => Succeeds(rest, db, ctx)
    case QueryField(_, node, rest) => !Evaluate(node, db, ctx).Failed? && Succeeds(rest, db, ctx)
  }

  ghost function NestedResults(fields: Fields, db: Database, ctx: Context): (m: map<string, Result>)
    ensures m.Keys <= Names(fields)
  {
    match fields
    case NoFields => map[]
    case ExprField(_, _, rest) => NestedResults(rest, db, ctx)
    case QueryField(name, node, rest) => map[name := Evaluate(node, db, ctx)] + NestedResults(rest, db, ctx)
  }

  lemma {:induction false} ExprValuesNames(fields: Fields, ctx: Context)
    ensures ExprValues(fields, ctx).Keys <= Names(fields)
  {
    match fields
    case NoFields =>
    case ExprField(_, _, rest) => ExprValuesNames(rest, ctx);
    case QueryField(_, _, rest) => ExprValuesNames(rest, ctx);
  }

  lemma PutFirst(base: map<string, Result>, name: string, v: Result, rest: map<string, Result>)
    ensures base[name := v] + rest == base + (map[name := v] + rest)
  {
  }

  lemma {:induction false} NestAllResult(base: map<string, Result>, fields: Fields, db: Database, ctx: Context)
    ensures NestAll(Object(base), fields, db, ctx) ==
      if Succeeds(fields, db, ctx) then Object(base + NestedResults(fields, db, ctx)) else Failed
    ensures NestAll(Failed, fields, db, ctx) == Failed
    decreases fields
  {
    match fields
    case NoFields =>
    case ExprField(_, _, rest) => NestAllResult(base, rest, db, ctx);
    case QueryField(name, node, rest) =>
      var v := Evaluate(node, db, ctx);
      NestAllResult(base[name := v], rest, db, ctx);
      PutFirst(base, name, v, NestedResults(rest, db, ctx));
  }

  lemma AddToMaps(name: string, v: Result, e: map<string, Result>, n: map<string, Result>)
    requires name !in e && name !in n
    ensures name !in e + n
    ensures (e + n)[name := v] == (map[name := v] + e) + n
    ensures (e + n)[name := v] == e + (map[name := v] + n)
  {
  }

  lemma {:induction false} SelectResult(fields: Fields, db: Database, ctx: Context)
    requires DistinctNames(fields)
    ensures Select(fields, db, ctx) ==
      if Succeeds(fields, db, ctx) then Object(ExprValues(fields, ctx) + NestedResults(fields, db, ctx)) else Failed
    decreases fields
  {
    match fields
    case NoFields =>
    case ExprField(name, expr, rest) =>
      SelectResult(rest, db, ctx);
      ExprValuesNames(rest, ctx);
      AddToMaps(name, Scalar(EvalExpr(expr, ctx)), ExprValues(rest, ctx), NestedResults(rest, db, ctx));
    case QueryField(name, node, rest) =>
      SelectResult(rest, db, ctx);
      ExprValuesNames(rest, ctx);
      AddToMaps(name, Evaluate(node, db, ctx), ExprValues(rest, ctx), NestedResults(rest, db, ctx));
  }

  // ---------- the main induction ----------

  lemma FilterStage(node: Node, db: Database, root: bool, p: Coll, m: Coll, f: Coll)
    requires WellScoped(node, !root) && (root ==> p == RootParents)
    requires m == AdmittedOf(node, db, Joined(node, db, root, p))
    requires f == Passed(node.filters, m)
    ensures FilteredAre(node, db, root, p, f)
  {
    assert Passing(node, db, Joined(node, db, root, p), f);
    if root {
      RootFiltered(node, db, f);
    } else {
      NestedFiltered(node, db, p, f);
    }
  }

  lemma MatchesFromParts(node: Node, root: bool, db: Database, p: Coll, joined: Coll, m: Coll, f: Coll, top: Coll)
    requires WellScoped(node, !root) && (root ==> p == RootParents)
    requires joined == Joined(node, db, root, p)
    requires m == AdmittedOf(node, db, joined)
    requires f == Passed(node.filters, m)
    requires top == TopK(node.order, node.limit, f)
    ensures MatchesAre(node, db, root, p, top)
  {
    hide Joined, AdmittedOf, Passed, TopK, FilteredAre, MatchesAre;
    FilterStage(node, db, root, p, m, f);
    TopKSelects(node, db, root, p, f);
  }

  lemma AllowedAreLimited(parent: Node, db: Database, allowed: Coll)
    requires MatchesAre(parent, db, true, RootParents, allowed)
    ensures allowed.Keys == Limited(parent, db, map[]).Keys
    ensures forall id :: id in allowed ==> allowed[id].row == Filtered(parent, db, map[])[id].row
  {
    var t := Tagged(true, RootGroup, parent.table, Limited(parent, db, map[]));
    assert GroupMatches(parent, db, true, RootGroup, RootParents[RootGroup].context, allowed);
    assert GroupOf(allowed, RootGroup) == allowed;
    forall id ensures id in allowed <==> id in Limited(parent, db, map[]) {
      assert Tag(true, RootGroup, parent.table, id) == id;
    }
  }

  lemma CountOfGroup(node: Node, db: Database, root: bool, pid: Id, ctx: Context, m: Coll)
    requires GroupMatches(node, db, root, pid, ctx, m)
    requires node.cardinality.Count? || node.cardinality.Exists?
    ensures ReduceValue(node.cardinality.Exists?, m, pid) == Evaluate(node, db, ctx)
  {
    GroupOrder(node, db, root, pid, ctx, m);
  }

  lemma ReduceCorrect(node: Node, db: Database, root: bool, p: Coll, m: Coll, groups: Coll, result: Coll)
    requires MatchesAre(node, db, root, p, m)
    requires groups == Groups(p)
    requires node.cardinality.Count? || node.cardinality.Exists?
    requires result == Reduced(node.cardinality.Exists?, m, groups)
    ensures result == Evaluated(node, db, p)
  {
    hide GroupOf, Limited, Evaluate, ReduceValue, MaterializedRecord, GroupMatches;
    forall pid | pid in p
      ensures ReduceValue(node.cardinality.Exists?, m, pid) == Evaluate(node, db, p[pid].context)
    {
      assert GroupMatches(node, db, root, pid, p[pid].context, m);
      CountOfGroup(node, db, root, pid, p[pid].context, m);
    }
  }

  lemma CardinalityCorrect(node: Node, db: Database, root: bool, p: Coll, m: Coll, items: Coll, groups: Coll, result: Coll)
    requires MatchesAre(node, db, root, p, m) && Projects(node, db, m, items)
    requires groups == Groups(p)
    requires !(node.cardinality.Count? || node.cardinality.Exists?)
    requires result == Concluded(node.order, node.cardinality, items, groups)
    ensures result == Evaluated(node, db, p)
  {
    hide GroupOf, Limited, GroupMatches, Selected, Filtered, Project, Sorted, ValuesAt, Conclude;
    forall pid | pid in p
      ensures Materialize(node.order, node.cardinality, items, pid) == Evaluate(node, db, p[pid].context)
    {
      assert GroupMatches(node, db, root, pid, p[pid].context, m);
      ItemsOrder(node, db, root, pid, p[pid].context, m, items);
      ValuesOfGroup(node, db, root, pid, p[pid].context, m, items);
    }
  }

  lemma ProjectsRows(node: Node, db: Database, m: Coll, items: Coll)
    requires node.selection.None?
    requires items == Projected(node.selection, m)
    ensures Projects(node, db, m, items)
  {
  }

  lemma ProjectsSelection(node: Node, db: Database, m: Coll, base: Coll, items: Coll)
    requires node.selection.Some? && DistinctNames(node.selection.value)
    requires base == Projected(node.selection, m)
    requires items.Keys == m.Keys
    requires forall id :: id in m ==> items[id] == WithNested(base[id], node.selection.value, db, m[id].context)
    ensures Projects(node, db, m, items)
  {
    forall id | id in m
      ensures items[id] == m[id].(value := ProjectedValue(node, db, m[id].context, m[id].row))
    {
      SelectResult(node.selection.value, db, m[id].context);
      NestAllResult(ExprValues(node.selection.value, m[id].context), node.selection.value, db, m[id].context);
    }
  }

  lemma SourceCorrect(node: Node, parents: Option<nat>, ops: seq<Op>, n: Solved)
    requires parents.Some? ==> parents.value < |ops|
    requires Extends(CompileSource(node, parents, ops).0, n.ops)
    ensures var (_, joined, groups) := CompileSource(node, parents, ops);
      && joined < |n.out| && groups < |n.out|
      && n.out[joined] == Joined(node, n.db, parents.None?, ParentsOf(parents, n))
      && n.out[groups] == Groups(ParentsOf(parents, n))
  {
    hide RootMatches, Correlated, Groups, Rows;
    match parents
    case None => RootSourceCorrect(node, ops, n);
    case Some(q) => NestedSourceCorrect(node, q, ops, n);
  }

  lemma RootSourceCorrect(node: Node, ops: seq<Op>, n: Solved)
    requires Extends(ops + [InputOp(node.source)] + [RootMatchOp(node.source, |ops|)], n.ops)
    ensures |ops| + 1 < |n.out| && n.out[|ops| + 1] == RootMatches(node.source, Rows(n.db, node.source))
    ensures n.out[0] == Groups(RootParents)
  {
    var ops' := ops + [InputOp(node.source)] + [RootMatchOp(node.source, |ops|)];
    OutputAt(ops', n, |ops|);
    Unary(ops', n, |ops| + 1, RootMatchOp(node.source, |ops|), |ops|);
  }

  lemma NestedSourceCorrect(node: Node, q: nat, ops: seq<Op>, n: Solved)
    requires Extends(ops + [InputOp(node.source)] + [CorrelateOp(node, q, |ops|)] + [GroupsOp(q)], n.ops)
    ensures |ops| + 2 < |n.out| && q < |n.out|
    ensures n.out[|ops| + 1] == Correlated(node, n.out[q], Rows(n.db, node.source))
    ensures n.out[|ops| + 2] == Groups(n.out[q])
  {
    hide Groups, Correlated, GroupRecord, Rows;
    var join := CorrelateOp(node, q, |ops|);
    var ops' := ops + [InputOp(node.source)] + [join] + [GroupsOp(q)];
    assert ops'[|ops|] == InputOp(node.source) && ops'[|ops| + 1] == join && ops'[|ops| + 2] == GroupsOp(q);
    OutputAt(ops', n, |ops|);
    CorrelateAt(ops', n, |ops| + 1, node, q, |ops|);
    Unary(ops', n, |ops| + 2, GroupsOp(q), q);
  }

  lemma CorrelateAt(ops: seq<Op>, n: Solved, i: nat, node: Node, q: nat, rows: nat)
    requires Extends(ops, n.ops) && i < |ops| && ops[i] == CorrelateOp(node, q, rows)
    ensures i < |n.out| && q < |n.out| && rows < |n.out|
    ensures n.out[i] == Correlated(node, n.out[q], n.out[rows])
  {
    Binary(ops, n, i, CorrelateOp(node, q, rows), q, rows);
  }

  lemma LastTwo(ops: seq<Op>, f: Op, k: Op, n: Solved)
    requires f.FilterOp? && k.TopKOp? && k.input == |ops|
    requires Extends(ops + [f] + [k], n.ops)
    ensures |ops| + 1 < |n.out| && f.input < |n.out|
    ensures n.out[|ops| + 1] == TopK(k.order, k.limit, Passed(f.filters, n.out[f.input]))
  {
    Unary(ops + [f] + [k], n, |ops|, f, f.input);
    Unary(ops + [f] + [k], n, |ops| + 1, k, k.input);
  }

  // The parts of a compiled node are parts of the network the node is in.
  lemma MatchesParts(node: Node, parents: Option<nat>, ops: seq<Op>, n: Solved)
    requires Grows(ops, ops) && ops != [] && (parents.Some? ==> parents.value < |ops|)
    requires Extends(CompileMatches(node, parents, ops).0, n.ops)
    ensures var (ops1, joined, groups) := CompileSource(node, parents, ops);
      var (ops2, matches) := CompileAuthorization(node, joined, ops1);
      && Grows(ops1, ops1) && joined < |ops1| && Extends(ops1, n.ops) && Extends(ops2, n.ops)
      && matches < |n.out| && |ops2| + 1 < |n.out|
      && n.out[|ops2| + 1] == TopK(node.order, node.limit, Passed(node.filters, n.out[matches]))
  {
    hide TopK, Passed;
    var (ops1, joined, groups) := CompileSource(node, parents, ops);
    var (ops2, matches) := CompileAuthorization(node, joined, ops1);
    var f, k := FilterOp(node.filters, matches), TopKOp(node.order, node.limit, |ops2|);
    LastTwo(ops2, f, k, n);
    SourceGrows(node, parents, ops);
    AuthorizationGrows(node, joined, ops1);
    assert Extends(ops2, ops2 + [f] + [k]);
    ExtendsTransitive(ops2, ops2 + [f] + [k], n.ops);
    ExtendsTransitive(ops1, ops2, n.ops);
  }

  lemma {:induction false} AuthorizationCorrect(node: Node, matches: nat, ops: seq<Op>, n: Solved)
    requires Grows(ops, ops) && ops != [] && matches < |ops|
    requires node.authorization.Some? ==> WellScoped(node.authorization.value.parent, false)
    requires Extends(CompileAuthorization(node, matches, ops).0, n.ops)
    ensures var (ops', m) := CompileAuthorization(node, matches, ops);
      m < |n.out| && matches < |n.out| && n.out[m] == AdmittedOf(node, n.db, n.out[matches])
    decreases node, 0
  {
    hide MatchesAre, TopK, Passed, Groups;
    if node.authorization.Some? {
      var a := node.authorization.value;
      var (ops1, allowed, groups) := CompileMatches(a.parent, None, ops);
      var op := AuthorizeOp(a.childColumn, a.parentColumn, matches, allowed);
      assert Extends(ops1, ops1 + [op]);
      ExtendsTransitive(ops1, ops1 + [op], n.ops);
      MatchesCorrect(a.parent, None, ops, n);
      Binary(ops1 + [op], n, |ops1|, op, matches, allowed);
      AllowedAreLimited(a.parent, n.db, n.out[allowed]);
    }
  }

  lemma {:induction false} MatchesCorrect(node: Node, parents: Option<nat>, ops: seq<Op>, n: Solved)
    requires Grows(ops, ops) && ops != [] && (parents.Some? ==> parents.value < |ops|)
    requires WellScoped(node, parents.Some?)
    requires Extends(CompileMatches(node, parents, ops).0, n.ops)
    ensures var (_, matches, groups) := CompileMatches(node, parents, ops);
      && matches < |n.out| && groups < |n.out|
      && MatchesAre(node, n.db, parents.None?, ParentsOf(parents, n), n.out[matches])
      && n.out[groups] == Groups(ParentsOf(parents, n))
    decreases node, 1
  {
    hide MatchesAre, Joined, AdmittedOf, TopK, Passed, Groups, Extends;
    var (ops1, joined, groups) := CompileSource(node, parents, ops);
    var (ops2, matches) := CompileAuthorization(node, joined, ops1);
    MatchesParts(node, parents, ops, n);
    SourceCorrect(node, parents, ops, n);
    AuthorizationCorrect(node, joined, ops1, n);
    MatchesFromParts(node, parents.None?, n.db, ParentsOf(parents, n), n.out[joined], n.out[matches],
      Passed(node.filters, n.out[matches]), n.out[|ops2| + 1]);
  }

  lemma {:induction false} NodeCorrect(node: Node, parents: Option<nat>, ops: seq<Op>, n: Solved)
    requires Grows(ops, ops) && ops != [] && (parents.Some? ==> parents.value < |ops|)
    requires WellScoped(node, parents.Some?)
    requires Extends(CompileNode(node, parents, ops).0, n.ops)
    ensures var (_, result) := CompileNode(node, parents, ops);
      result < |n.out| && n.out[result] == Evaluated(node, n.db, ParentsOf(parents, n))
    decreases node, 2
  {
    hide MatchesAre, Reduced, Groups;
    if node.cardinality.Count? || node.cardinality.Exists? {
      var (ops1, matches, groups) := CompileMatches(node, parents, ops);
      var op := ReduceOp(node.cardinality.Exists?, matches, groups);
      assert Extends(ops1, ops1 + [op]);
      ExtendsTransitive(ops1, ops1 + [op], n.ops);
      MatchesCorrect(node, parents, ops, n);
      Binary(ops1 + [op], n, |ops1|, op, matches, groups);
      ReduceCorrect(node, n.db, parents.None?, ParentsOf(parents, n), n.out[matches], n.out[groups], n.out[|ops1|]);
    } else {
      RowsCorrect(node, parents, ops, n);
    }
  }

  // The nodes that return rows.
  lemma {:induction false} RowsCorrect(node: Node, parents: Option<nat>, ops: seq<Op>, n: Solved)
    requires Grows(ops, ops) && ops != [] && (parents.Some? ==> parents.value < |ops|)
    requires WellScoped(node, parents.Some?)
    requires !(node.cardinality.Count? || node.cardinality.Exists?)
    requires Extends(CompileNode(node, parents, ops).0, n.ops)
    ensures var (_, result) := CompileNode(node, parents, ops);
      result < |n.out| && n.out[result] == Evaluated(node, n.db, ParentsOf(parents, n))
    decreases node, 1, 1
  {
    hide MatchesAre, TopK, Passed, Concluded, Evaluated, Projects, Projected, WithNested;
    hide Extends, Ordered, Grows;
    var (ops1, matches, groups) := CompileMatches(node, parents, ops);
    var project := ProjectOp(node.selection, matches);
    var ops2 := ops1 + [project];
    var (ops3, projected) := if node.selection.None? then (ops2, |ops1|)
      else CompileFields(node.selection.value, matches, |ops1|, ops2);
    var op := CardinalityOp(node.order, node.cardinality, projected, groups);
    MatchesGrow(node, parents, ops);
    GrowsFacts(ops, ops1);
    AppendGrows(ops1, ops1, project);
    GrowsFacts(ops1, ops2);
    if node.selection.Some? {
      FieldsGrow(node.selection.value, matches, |ops1|, ops2);
    }
    GrowsFacts(ops2, ops3);
    AppendExtends(ops3, op);
    ExtendsTransitive(ops3, ops3 + [op], n.ops);
    ExtendsTransitive(ops2, ops3, n.ops);
    ExtendsTransitive(ops1, ops2, n.ops);
    MatchesCorrect(node, parents, ops, n);
    Unary(ops2, n, |ops1|, project, matches);
    if node.selection.Some? {
      FieldsCorrect(node.selection.value, matches, |ops1|, ops2, n);
      ProjectsSelection(node, n.db, n.out[matches], n.out[|ops1|], n.out[projected]);
    } else {
      ProjectsRows(node, n.db, n.out[matches], n.out[projected]);
    }
    Binary(ops3 + [op], n, |ops3|, op, projected, groups);
    CardinalityCorrect(node, n.db, parents.None?, ParentsOf(parents, n), n.out[matches], n.out[projected], n.out[groups], n.out[|ops3|]);
  }

  lemma {:induction false} FieldsCorrect(fields: Fields, matches: nat, projected: nat, ops: seq<Op>, n: Solved)
    requires Grows(ops, ops) && matches < |ops| && projected < |ops|
    requires WellScopedFields(fields)
    requires Extends(CompileFields(fields, matches, projected, ops).0, n.ops)
    requires matches < |n.out| && projected < |n.out| && n.out[projected].Keys == n.out[matches].Keys
    ensures var (_, result) := CompileFields(fields, matches, projected, ops);
      && result < |n.out| && n.out[result].Keys == n.out[matches].Keys
      && (forall id :: id in n.out[matches] ==>
            n.out[result][id] == WithNested(n.out[projected][id], fields, n.db, n.out[matches][id].context))
    decreases fields
  {
    hide Evaluate;
    match fields
    case NoFields =>
    case ExprField(_, _, rest) => FieldsCorrect(rest, matches, projected, ops, n);
    case QueryField(name, node, rest) =>
      var (ops1, nested) := CompileNode(node, Some(matches), ops);
      var op := NestOp(name, projected, nested);
      var ops2 := ops1 + [op];
      NodeGrows(node, Some(matches), ops);
      AppendGrows(ops1, ops1, op);
      assert Extends(ops2, ops2);
      FieldsGrow(rest, matches, |ops1|, ops2);
      ExtendsTransitive(ops2, CompileFields(rest, matches, |ops1|, ops2).0, n.ops);
      ExtendsTransitive(ops1, ops2, n.ops);
      NodeCorrect(node, Some(matches), ops, n);
      Binary(ops2, n, |ops1|, op, projected, nested);
      FieldsCorrect(rest, matches, |ops1|, ops2, n);
  }

  // ---------- the theorem ----------

  // The rows that every table source has emitted.
  ghost predicate Holds(ops: seq<Op>, c: Config, db: Database)
    requires Shaped(ops, c)
  {
    forall i :: 0 <= i < |ops| && ops[i].InputOp? ==> c.external[i] == Rows(db, ops[i].source)
  }

  /** Incremental equals recompute: after any run of the compiled network, under any schedule of
      deliveries, once no batch is waiting the output operator holds exactly the value of the
      query over the rows its sources have emitted. */
  lemma IncrementalEqualsRecompute(node: Node, run: seq<Config>, db: Database)
    requires WellScoped(node, false)
    requires Run(Compile(node).0, run)
    requires var c := run[|run| - 1]; Quiet(c) && c.external != [] && c.external[0] == RootParents && Holds(Compile(node).0, c, db)
    ensures Compile(node).1 < |Compile(node).0|
    ensures Emitted(Compile(node).0, run[|run| - 1], Compile(node).1)
         == map[RootGroup := MaterializedRecord(RootGroup, Evaluate(node, db, map[]))]
  {
    hide Evaluate, Quiet, Step, InStep, Denote;
    var (ops, result) := Compile(node);
    var c := run[|run| - 1];
    var base := [RootGroupsOp];
    assert Grows(base, base) by {
      assert OrderedAt(base, 0);
    }
    NodeGrows(node, None, base);
    assert ops[0] == base[0];
    QuietRunSolves(ops, run);
    var out := seq(|ops|, i requires 0 <= i < |ops| => Emitted(ops, c, i));
    var n := Network(ops, out, db);
    assert forall i :: 0 <= i < |ops| ==> SourcedAt(n, i);
    NodeCorrect(node, None, base, n);
  }
}
