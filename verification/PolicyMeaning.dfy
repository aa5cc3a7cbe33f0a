// What a principal may read, policy by policy, and what a rewritten query therefore returns (read-policy.ts).
module PolicyMeaning {
  import opened Query
  import R = ReadPolicy

  // ---------- predicates about a row ----------

  function ReadSources(e: Expr): set<SourceId> {
    match e
    case Field(s, _) => {s}
    case Literal(_) => {}
    case Comparison(_, l, r) => ReadSources(l) + ReadSources(r)
    case In(l, _) => ReadSources(l)
    case Logical(_, l, r) => ReadSources(l) + ReadSources(r)
    case Not(operand) => ReadSources(operand)
  }

  // Every field of the predicate is a column of the row.
  predicate Approves(test: Expr, row: Row) {
    Truthy(EvalExpr(test, map s | s in ReadSources(test) :: row))
  }

  lemma {:induction false} LocalizedSame(e: Expr, source: SourceId, own: Context, ctx: Context, row: Row)
    requires source in own && own[source] == row
    requires forall s :: s in ReadSources(e) ==> s in ctx && ctx[s] == row
    ensures EvalExpr(R.Localize(e, source), own) == EvalExpr(e, ctx)
  {
    match e
    case Field(_, _) =>
    case Literal(_) =>
    case Comparison(_, l, r) =>
      LocalizedSame(l, source, own, ctx, row);
      LocalizedSame(r, source, own, ctx, row);
    case In(l, _) =>
      LocalizedSame(l, source, own, ctx, row);
    case Logical(_, l, r) =>
      LocalizedSame(l, source, own, ctx, row);
      LocalizedSame(r, source, own, ctx, row);
    case Not(operand) =>
      LocalizedSame(operand, source, own, ctx, row);
  }

  lemma ApprovedLocally(test: Expr, row: Row)
    ensures Approves(test, row) <==> Truthy(EvalExpr(R.Localize(test, 0), map[0 := row]))
  {
    LocalizedSame(test, 0, map[0 := row], map s | s in ReadSources(test) :: row, row);
  }

  // ---------- parents ----------

  // Each table of the path is read through the next one.
  predicate Climbs(catalog: R.Catalog, path: seq<string>) {
    forall i :: 0 <= i < |path| - 1 ==>
      path[i] in catalog && catalog[path[i]].ThroughParent? && catalog[path[i]].parent == path[i + 1]
  }

  predicate Circle(catalog: R.Catalog, path: seq<string>) {
    |path| > 1 && path[0] == path[|path| - 1] && Climbs(catalog, path)
  }

  lemma TailClimbs(catalog: R.Catalog, path: seq<string>, n: nat)
    requires Climbs(catalog, path) && n < |path|
    ensures Climbs(catalog, path[n..])
  {
    var rest := path[n..];
    forall i | 0 <= i < |rest| - 1
      ensures rest[i] in catalog && catalog[rest[i]].ThroughParent? && catalog[rest[i]].parent == rest[i + 1]
    {
      assert rest[i] == path[n + i] && rest[i + 1] == path[n + i + 1];
    }
  }

  lemma FurtherClimbs(catalog: R.Catalog, stack: seq<string>, table: string)
    requires Climbs(catalog, stack + [table]) && table in catalog && catalog[table].ThroughParent?
    ensures Climbs(catalog, stack + [table] + [catalog[table].parent])
  {
    var walked := stack + [table];
    var path := walked + [catalog[table].parent];
    forall i | 0 <= i < |path| - 1
      ensures path[i] in catalog && catalog[path[i]].ThroughParent? && catalog[path[i]].parent == path[i + 1]
    {
      assert path[i] == walked[i];
      if i + 1 < |walked| {
        assert path[i + 1] == walked[i + 1];
      }
    }
  }

  lemma {:induction false} WalkFindsCircle(catalog: R.Catalog, table: string, stack: seq<string>) returns (path: seq<string>)
    requires !R.Grounded(catalog, table, stack) && Climbs(catalog, stack + [table])
    ensures Circle(catalog, path)
    decreases |catalog.Keys - R.Elements(stack)|
  {
    var walked := stack + [table];
    if table in stack {
      var i :| 0 <= i < |stack| && stack[i] == table;
      path := walked[i..];
      TailClimbs(catalog, walked, i);
    } else {
      R.Shrinks(catalog, table, stack);
      FurtherClimbs(catalog, stack, table);
      hide Climbs;
      path := WalkFindsCircle(catalog, catalog[table].parent, walked);
    }
  }

  lemma {:induction false} CircleIsWalked(catalog: R.Catalog, path: seq<string>, n: nat)
    requires Climbs(catalog, path) && n < |path| && R.Grounded(catalog, path[0], [])
    ensures R.Grounded(catalog, path[n], path[..n]) && (n > 0 ==> path[n] != path[0])
  {
    if n > 0 {
      CircleIsWalked(catalog, path, n - 1);
      assert path[..n] == path[..n - 1] + [path[n - 1]];
      assert path[..n][0] == path[0];
    }
  }

  /** A catalog is acyclic exactly if no table is read through itself, however many tables lie between. */
  lemma AcyclicExactly(catalog: R.Catalog)
    ensures R.Acyclic(catalog) <==> !exists path :: Circle(catalog, path)
  {
    if !R.Acyclic(catalog) {
      var t :| t in catalog && !R.Grounded(catalog, t, []);
      var path := WalkFindsCircle(catalog, t, []);
    } else if path :| Circle(catalog, path) {
      CircleIsWalked(catalog, path, |path| - 1);
    }
  }

  // ---------- readable databases ----------

  // Some of the rows.
  ghost predicate PartOf(readable: Coll, rows: Coll) {
    forall id :: id in readable ==> id in rows && readable[id] == rows[id]
  }

  ghost predicate HasKey(parents: Coll, column: string, value: Value) {
    exists p :: p in parents && ColumnOf(parents[p].row, column) == value
  }

  // What the policy of a table lets through: everything, nothing, the rows that a predicate approves, or the rows
  // whose parent can be read.
  ghost predicate Grants(definition: R.Definition, rows: Coll, parents: Coll, readable: Coll) {
    && PartOf(readable, rows)
    && match definition
       case Allow => readable == rows
       case Deny => readable == map[]
       case Where(test) => forall id :: id in rows ==> (id in readable <==> Approves(test, rows[id].row))
       case ThroughParent(_, childColumn, parentColumn) =>
         forall id :: id in rows ==> (id in readable <==> HasKey(parents, parentColumn, ColumnOf(rows[id].row, childColumn)))
  }

  // The parent table's readable rows are those of the source reserved for it.
  ghost predicate GrantedAt(catalog: R.Catalog, reserved: map<string, SourceId>, home: map<SourceId, string>, tables: R.Tables, readable: Database, s: SourceId)
    requires s in home && home[s] in catalog && s in readable
  {
    var definition := catalog[home[s]];
    var parents := if definition.ThroughParent? && definition.parent in reserved then Rows(readable, reserved[definition.parent]) else map[];
    Grants(definition, R.TableRows(tables, home[s]), parents, readable[s])
  }

  // Every source holds what its table's policy grants.
  ghost predicate Granted(catalog: R.Catalog, reserved: map<string, SourceId>, home: map<SourceId, string>, tables: R.Tables, readable: Database) {
    && readable.Keys == home.Keys
    && forall s :: s in home ==> home[s] in catalog && GrantedAt(catalog, reserved, home, tables, readable, s)
  }

  lemma GrantsIsReadable(definition: R.Definition, rows: Coll, parents: Coll, readable: Coll)
    requires Grants(definition, rows, parents, readable)
    ensures readable == map id | id in rows && R.Readable(definition, parents, rows[id].row) :: rows[id]
  {
    hide R.Localize, EvalExpr, Truthy;
    forall id | id in rows ensures id in readable <==> R.Readable(definition, parents, rows[id].row) {
      if definition.Where? {
        ApprovedLocally(definition.test, rows[id].row);
      }
    }
  }

  lemma {:induction false} GrantedIsVisible(catalog: R.Catalog, reserved: map<string, SourceId>, home: map<SourceId, string>, tables: R.Tables,
      readable: Database, s: SourceId, stack: seq<string>)
    requires R.Ready(catalog, reserved, home) && Granted(catalog, reserved, home, tables, readable) && s in home
    requires R.Grounded(catalog, home[s], stack)
    ensures readable[s] == R.Visible(catalog, tables, home[s])
    decreases |catalog.Keys - R.Elements(stack)|
  {
    hide Grants, R.Visible, R.Readable;
    var definition := catalog[home[s]];
    assert GrantedAt(catalog, reserved, home, tables, readable, s);
    R.VisibleUnfolds(catalog, tables, home[s]);
    var parents := if definition.ThroughParent? && definition.parent in reserved then Rows(readable, reserved[definition.parent]) else map[];
    GrantsIsReadable(definition, R.TableRows(tables, home[s]), parents, readable[s]);
    if definition.ThroughParent? {
      assert R.ReadyParent(definition.parent, catalog, reserved, home);
      R.Shrinks(catalog, home[s], stack);
      GrantedIsVisible(catalog, reserved, home, tables, readable, reserved[definition.parent], stack + [home[s]]);
    } else {
      NoParents(definition, R.TableRows(tables, home[s]), parents, R.VisibleParents(catalog, tables, definition));
    }
  }

  /** What is visible of a table is what its policy grants, given what is visible of the parent table. */
  lemma VisibleIsGranted(catalog: R.Catalog, tables: R.Tables, table: string)
    requires R.Acyclic(catalog) && table in catalog
    ensures var definition := catalog[table];
      var parents := if definition.ThroughParent? then R.Visible(catalog, tables, definition.parent) else map[];
      Grants(definition, R.TableRows(tables, table), parents, R.Visible(catalog, tables, table))
  {
    hide R.Visible, Approves;
    R.VisibleUnfolds(catalog, tables, table);
    var definition, rows := catalog[table], R.TableRows(tables, table);
    forall id | id in rows && definition.Where? ensures Approves(definition.test, rows[id].row) <==> R.Holds(definition.test, rows[id].row) {
      ApprovedLocally(definition.test, rows[id].row);
    }
  }

  lemma NoParents(definition: R.Definition, rows: Coll, a: Coll, b: Coll)
    requires !definition.ThroughParent?
    ensures forall id :: id in rows ==> (R.Readable(definition, a, rows[id].row) <==> R.Readable(definition, b, rows[id].row))
  {
  }

  lemma GrantedIsInstance(catalog: R.Catalog, reserved: map<string, SourceId>, home: map<SourceId, string>, tables: R.Tables, readable: Database)
    requires R.Ready(catalog, reserved, home) && Granted(catalog, reserved, home, tables, readable)
    ensures readable == R.ReadableInstance(catalog, home, tables)
  {
    hide R.Visible;
    forall s | s in home ensures readable[s] == R.Visible(catalog, tables, home[s]) {
      assert R.Grounded(catalog, home[s], []);
      GrantedIsVisible(catalog, reserved, home, tables, readable, s, []);
    }
  }

  /** There is such a database, and only one. */
  lemma InstanceIsGranted(catalog: R.Catalog, reserved: map<string, SourceId>, home: map<SourceId, string>, tables: R.Tables)
    requires R.Ready(catalog, reserved, home) && forall s :: s in home ==> home[s] in catalog
    ensures Granted(catalog, reserved, home, tables, R.ReadableInstance(catalog, home, tables))
  {
    hide R.Visible, Approves, Grants;
    var readable := R.ReadableInstance(catalog, home, tables);
    forall s | s in home ensures GrantedAt(catalog, reserved, home, tables, readable, s) {
      VisibleIsGranted(catalog, tables, home[s]);
      var definition := catalog[home[s]];
      if definition.ThroughParent? {
        assert R.ReadyParent(definition.parent, catalog, reserved, home);
      }
    }
  }

  // ---------- rewritten queries ----------

  /** A rewritten query on the whole tables has the value of the query on what the policies grant. */
  lemma RewrittenMeans(catalog: R.Catalog, reserved: map<string, SourceId>, home: map<SourceId, string>, tables: R.Tables, readable: Database, query: Node)
    requires R.Ready(catalog, reserved, home) && R.Placed(query, home, catalog) && Granted(catalog, reserved, home, tables, readable)
    ensures R.AuthorizeNode(catalog, reserved, query, [], []).Ok?
    ensures Evaluate(R.AuthorizeNode(catalog, reserved, query, [], []).value, R.Instance(home, tables), map[]) == Evaluate(query, readable, map[])
  {
    hide Evaluate, R.Instance, R.ReadableInstance, R.Visible;
    GrantedIsInstance(catalog, reserved, home, tables, readable);
    R.AuthorizePreservesMeaning(catalog, reserved, home, tables, query);
  }

  /** On a denied table every rewritten query has the value that it has over no rows at all. */
  lemma DeniedIsEmpty(catalog: R.Catalog, reserved: map<string, SourceId>, home: map<SourceId, string>, tables: R.Tables, query: Node)
    requires R.Ready(catalog, reserved, home) && R.Placed(query, home, catalog) && (forall s :: s in home ==> home[s] in catalog)
    requires catalog[query.table].Deny?
    ensures R.AuthorizeNode(catalog, reserved, query, [], []).Ok?
    ensures Evaluate(R.AuthorizeNode(catalog, reserved, query, [], []).value, R.Instance(home, tables), map[]) == Evaluate(query, map[], map[])
  {
    hide R.Instance, R.ReadableInstance, R.Visible, R.AuthorizeNode;
    var readable := R.ReadableInstance(catalog, home, tables);
    InstanceIsGranted(catalog, reserved, home, tables);
    RewrittenMeans(catalog, reserved, home, tables, readable, query);
    assert GrantedAt(catalog, reserved, home, tables, readable, query.source);
    assert Filtered(query, readable, map[]) == map[] == Filtered(query, map[], map[]);
    assert Project(query, readable, map[], []) == [] == Project(query, map[], map[], []);
  }

  // Queries on one table.
  predicate Flat(query: Node) {
    query.selection.None? && query.authorization.None?
  }

  lemma FlatReadsOwn(query: Node, a: Database, b: Database, ctx: Context)
    requires Flat(query) && Rows(a, query.source) == Rows(b, query.source)
    ensures Evaluate(query, a, ctx) == Evaluate(query, b, ctx)
  {
    assert Filtered(query, a, ctx) == Filtered(query, b, ctx);
    FlatProjects(query, a, b, ctx, Selected(query, a, ctx));
  }

  lemma {:induction false} FlatProjects(query: Node, a: Database, b: Database, ctx: Context, ids: seq<Id>)
    requires Flat(query) && Rows(a, query.source) == Rows(b, query.source)
    ensures Project(query, a, ctx, ids) == Project(query, b, ctx, ids)
    decreases |ids|
  {
    if ids != [] {
      FlatProjects(query, a, b, ctx, ids[1..]);
    }
  }

  // The approved rows of a table.
  function ApprovedRows(test: Expr, rows: Coll): Coll {
    map id | id in rows && Approves(test, rows[id].row) :: rows[id]
  }

  /** A query on one table: an open table is queried whole, a table with a predicate over the rows that it approves. */
  lemma FlatMeans(catalog: R.Catalog, reserved: map<string, SourceId>, home: map<SourceId, string>, tables: R.Tables, query: Node)
    requires R.Ready(catalog, reserved, home) && R.Placed(query, home, catalog) && Flat(query) && (forall s :: s in home ==> home[s] in catalog)
    ensures R.AuthorizeNode(catalog, reserved, query, [], []).Ok?
    ensures var result := Evaluate(R.AuthorizeNode(catalog, reserved, query, [], []).value, R.Instance(home, tables), map[]);
      var rows := R.TableRows(tables, query.table);
      && (catalog[query.table].Allow? ==> result == Evaluate(query, map[query.source := rows], map[]))
      && (catalog[query.table].Deny? ==> result == Evaluate(query, map[query.source := map[]], map[]))
      && (catalog[query.table].Where? ==> result == Evaluate(query, map[query.source := ApprovedRows(catalog[query.table].test, rows)], map[]))
  {
    hide R.Instance, R.ReadableInstance, R.Visible, R.AuthorizeNode, Evaluate, Approves;
    var readable, rows := R.ReadableInstance(catalog, home, tables), R.TableRows(tables, query.table);
    InstanceIsGranted(catalog, reserved, home, tables);
    RewrittenMeans(catalog, reserved, home, tables, readable, query);
    assert GrantedAt(catalog, reserved, home, tables, readable, query.source);
    FlatReadsOwn(query, readable, map[query.source := readable[query.source]], map[]);
    if catalog[query.table].Where? {
      assert readable[query.source] == ApprovedRows(catalog[query.table].test, rows);
    }
  }
}
