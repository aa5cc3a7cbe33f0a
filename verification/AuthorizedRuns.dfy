// A query under read policies, from its rewriting (read-policy.ts) to what the engine publishes (dataflow.ts).
module AuthorizedRuns {
  import opened Query
  import opened Dataflow
  import opened DataflowCompiler
  import opened DataflowHandlers
  import R = ReadPolicy
  import PolicyMeaning

  type PrimaryKeys = map<string, seq<string>>

  // A relationship ends in the parent table's only primary-key column; the policy builder accepts no other.
  predicate KeyedCatalog(primaryKeys: PrimaryKeys, catalog: R.Catalog) {
    forall t :: t in catalog && catalog[t].ThroughParent? ==>
      catalog[t].parent in primaryKeys && primaryKeys[catalog[t].parent] == [catalog[t].parentColumn]
  }

  function KeysOf(primaryKeys: PrimaryKeys, home: map<SourceId, string>): KeyColumns {
    map s | s in home && home[s] in primaryKeys :: primaryKeys[home[s]]
  }

  lemma {:induction false} AuthorizedIsKeyed(primaryKeys: PrimaryKeys, catalog: R.Catalog, reserved: map<string, SourceId>,
      home: map<SourceId, string>, node: Node, facts: seq<R.Fact>, stack: seq<string>)
    requires R.Ready(catalog, reserved, home) && R.Placed(node, home, catalog) && KeyedCatalog(primaryKeys, catalog)
    requires R.AuthorizeNode(catalog, reserved, node, facts, stack).Ok?
    ensures var a := R.AuthorizeNode(catalog, reserved, node, facts, stack).value;
      a.source == node.source && PoliciesKeyed(KeysOf(primaryKeys, home), a)
    decreases R.Depth(node.selection), |catalog.Keys - R.Elements(stack)|
  {
    var definition := catalog[node.table];
    if definition.ThroughParent? && !R.Proven(node, facts, definition) {
      R.Shrinks(catalog, node.table, stack);
      assert R.ReadyParent(definition.parent, catalog, reserved, home);
      AuthorizedIsKeyed(primaryKeys, catalog, reserved, home, R.ParentNode(definition.parent, reserved), [], stack + [node.table]);
    }
    if node.selection.Some? {
      AuthorizedFieldsKeyed(primaryKeys, catalog, reserved, home, node.selection.value, facts + [R.Fact(node.table, node.source)]);
    }
  }

  lemma {:induction false} AuthorizedFieldsKeyed(primaryKeys: PrimaryKeys, catalog: R.Catalog, reserved: map<string, SourceId>,
      home: map<SourceId, string>, fields: Fields, facts: seq<R.Fact>)
    requires R.Ready(catalog, reserved, home) && R.PlacedFields(fields, home, catalog) && KeyedCatalog(primaryKeys, catalog)
    requires R.AuthorizeFields(catalog, reserved, fields, facts).Ok?
    ensures FieldPoliciesKeyed(KeysOf(primaryKeys, home), R.AuthorizeFields(catalog, reserved, fields, facts).value)
    decreases R.FieldsDepth(fields), |catalog.Keys| + 1
  {
    match fields
    case NoFields =>
    case ExprField(_, _, rest) => AuthorizedFieldsKeyed(primaryKeys, catalog, reserved, home, rest, facts);
    case QueryField(_, node, rest) =>
      AuthorizedIsKeyed(primaryKeys, catalog, reserved, home, node, facts, []);
      AuthorizedFieldsKeyed(primaryKeys, catalog, reserved, home, rest, facts);
  }

  // ---------- scoping of the rewritten query ----------

  lemma {:induction e} LocalizedReadsOnly(e: Expr, source: SourceId)
    ensures ReadsOnly(R.Localize(e, source), source)
  {
  }

  lemma {:induction false} OwnCorrelation(filters: seq<Expr>, added: seq<Expr>, source: SourceId)
    requires forall i :: 0 <= i < |added| ==> ReadsOnly(added[i], source)
    ensures CorrelationOf(filters, source).Some? ==> CorrelationOf(filters + added, source) == CorrelationOf(filters, source)
    ensures CorrelationOf(filters, source).None? && CorrelationOf(filters + added, source).Some? ==>
      ReadsOnly(CorrelationOf(filters + added, source).value.child, source)
    decreases |filters| + |added|
  {
    if filters != [] {
      assert (filters + added)[1..] == filters[1..] + added;
      OwnCorrelation(filters[1..], added, source);
    } else if added != [] {
      assert filters + added == added && [] + added[1..] == added[1..];
      OwnCorrelation([], added[1..], source);
    } else {
      assert filters + added == [];
    }
  }

  lemma {:induction false} AuthorizedIsScoped(catalog: R.Catalog, reserved: map<string, SourceId>, node: Node, facts: seq<R.Fact>,
      stack: seq<string>, nested: bool)
    requires WellScoped(node, nested) && R.AuthorizeNode(catalog, reserved, node, facts, stack).Ok?
    ensures WellScoped(R.AuthorizeNode(catalog, reserved, node, facts, stack).value, nested)
    decreases R.Depth(node.selection), |catalog.Keys - R.Elements(stack)|
  {
    var definition := catalog[node.table];
    var added := R.AddedFilters(definition, node.source);
    if definition.Where? {
      LocalizedReadsOnly(definition.test, node.source);
    }
    OwnCorrelation(node.filters, added, node.source);
    if definition.ThroughParent? && !R.Proven(node, facts, definition) {
      R.Shrinks(catalog, node.table, stack);
      AuthorizedIsScoped(catalog, reserved, R.ParentNode(definition.parent, reserved), [], stack + [node.table], false);
    }
    if node.selection.Some? {
      AuthorizedFieldsScoped(catalog, reserved, node.selection.value, facts + [R.Fact(node.table, node.source)]);
    }
  }

  lemma {:induction false} AuthorizedFieldsScoped(catalog: R.Catalog, reserved: map<string, SourceId>, fields: Fields, facts: seq<R.Fact>)
    requires WellScopedFields(fields) && R.AuthorizeFields(catalog, reserved, fields, facts).Ok?
    ensures var f := R.AuthorizeFields(catalog, reserved, fields, facts).value;
      WellScopedFields(f) && Names(f) == Names(fields) && (DistinctNames(fields) ==> DistinctNames(f))
    decreases R.FieldsDepth(fields), |catalog.Keys| + 1
  {
    match fields
    case NoFields =>
    case ExprField(_, _, rest) => AuthorizedFieldsScoped(catalog, reserved, rest, facts);
    case QueryField(_, node, rest) =>
      AuthorizedIsScoped(catalog, reserved, node, facts, [], true);
      AuthorizedFieldsScoped(catalog, reserved, rest, facts);
  }

  // ---------- the theorem ----------

  /** A principal's query, rewritten and run by the handlers, settles on the query's value over the rows that the policies
      grant: all rows of an open table, none of a denied one, those that a predicate approves, those with a readable parent. */
  lemma HandlersShowVisible(primaryKeys: PrimaryKeys, catalog: R.Catalog, reserved: map<string, SourceId>, home: map<SourceId, string>,
      tables: R.Tables, readable: Database, query: Node, run: seq<Config>)
    requires R.Ready(catalog, reserved, home) && R.Placed(query, home, catalog) && KeyedCatalog(primaryKeys, catalog) && WellScoped(query, false)
    requires PolicyMeaning.Granted(catalog, reserved, home, tables, readable)
    requires R.AuthorizeNode(catalog, reserved, query, [], []).Ok? ==>
      SettledRun(KeysOf(primaryKeys, home), R.AuthorizeNode(catalog, reserved, query, [], []).value, run, R.Instance(home, tables))
    ensures R.AuthorizeNode(catalog, reserved, query, [], []).Ok?
    ensures var (ops, result) := Compile(R.AuthorizeNode(catalog, reserved, query, [], []).value);
      && result < |ops| && Shaped(ops, run[|run| - 1])
      && Emitted(ops, run[|run| - 1], result) == map[RootGroup := MaterializedRecord(RootGroup, Evaluate(query, readable, map[]))]
  {
    hide Evaluate, R.Instance, HandlerRun, Compile, Holds, PoliciesKeyed, WellScoped, PolicyMeaning.Granted;
    PolicyMeaning.RewrittenMeans(catalog, reserved, home, tables, readable, query);
    AuthorizedIsKeyed(primaryKeys, catalog, reserved, home, query, [], []);
    AuthorizedIsScoped(catalog, reserved, query, [], [], false);
    HandlersEqualRecompute(KeysOf(primaryKeys, home), R.AuthorizeNode(catalog, reserved, query, [], []).value, run, R.Instance(home, tables));
  }

  // The handlers have run until no batch is waiting, and the sources have emitted the rows of the database.
  ghost predicate SettledRun(keys: KeyColumns, node: Node, run: seq<Config>, db: Database) {
    && HandlerRun(keys, Compile(node).0, run)
    && var c := run[|run| - 1];
       Quiet(c) && c.external != [] && c.external[0] == RootParents && Holds(Compile(node).0, c, db)
  }
}
