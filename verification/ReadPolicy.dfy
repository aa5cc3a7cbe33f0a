// Read policies rewrite a query so that it sees only the rows its principal may read (read-policy.ts).
module ReadPolicy {
  import opened Query

  // A policy with its principal already filled in. A predicate's fields are those of the row it judges.
  datatype Definition =
    | Allow
    | Deny
    | Where(test: Expr)
    | ThroughParent(parent: string, childColumn: string, parentColumn: string)

  type Catalog = map<string, Definition>

  datatype Error = MissingPolicy | CyclicPolicy | DuplicatePolicy | OutsideSchema

  datatype Outcome<+T> = Ok(value: T) | Err(error: Error)

  // An ancestor whose row has passed its own policy.
  datatype Fact = Fact(table: string, source: SourceId)

  type Tables = map<string, Coll>

  function Elements(stack: seq<string>): set<string> {
    set t | t in stack
  }

  // ---------- the catalog ----------

  // The walk of assertAcyclic from one table.
  predicate Grounded(catalog: Catalog, table: string, stack: seq<string>)
    decreases |catalog.Keys - Elements(stack)|
  {
    && table !in stack
    && (table in catalog && catalog[table].ThroughParent? ==> (
          Shrinks(catalog, table, stack);
          Grounded(catalog, catalog[table].parent, stack + [table])))
  }

  predicate Acyclic(catalog: Catalog) {
    forall t :: t in catalog ==> Grounded(catalog, t, [])
  }

  lemma Shrinks(catalog: Catalog, table: string, stack: seq<string>)
    requires table in catalog && table !in stack
    ensures |catalog.Keys - Elements(stack + [table])| < |catalog.Keys - Elements(stack)|
  {
    var small, big := catalog.Keys - Elements(stack + [table]), catalog.Keys - Elements(stack);
    assert big == small + {table};
  }

  lemma {:induction false} GroundedSooner(catalog: Catalog, table: string, less: seq<string>, more: seq<string>)
    requires Grounded(catalog, table, more) && Elements(less) <= Elements(more)
    ensures Grounded(catalog, table, less)
    decreases |catalog.Keys - Elements(more)|
  {
    assert forall t :: t in less ==> t in Elements(more);
    if table in catalog && catalog[table].ThroughParent? {
      Shrinks(catalog, table, more);
      assert Elements(less + [table]) <= Elements(more + [table]);
      GroundedSooner(catalog, catalog[table].parent, less + [table], more + [table]);
    }
  }

  datatype Policy = Policy(table: string, definition: Definition)

  function Stated(policies: seq<Policy>): Catalog {
    if policies == [] then map[]
    else Stated(policies[..|policies| - 1])[policies[|policies| - 1].table := policies[|policies| - 1].definition]
  }

  lemma {:induction false} StatedKeys(policies: seq<Policy>, t: string)
    ensures t in Stated(policies) <==> exists i :: 0 <= i < |policies| && policies[i].table == t
    ensures t in Stated(policies) ==> exists i :: 0 <= i < |policies| && policies[i] == Policy(t, Stated(policies)[t])
  {
    if policies != [] {
      var rest := policies[..|policies| - 1];
      StatedKeys(rest, t);
      if i :| 0 <= i < |rest| && rest[i].table == t {
        assert policies[i].table == t;
      }
      if t in Stated(rest) {
        var i :| 0 <= i < |rest| && rest[i] == Policy(t, Stated(rest)[t]);
        assert policies[i] == rest[i];
      }
      assert policies[|policies| - 1] == Policy(policies[|policies| - 1].table, policies[|policies| - 1].definition);
    }
  }

  method AssertGrounded(catalog: Catalog, table: string, stack: seq<string>) returns (ok: bool)
    ensures ok == Grounded(catalog, table, stack)
    decreases |catalog.Keys - Elements(stack)|
  {
    if table in stack {
      return false;
    }
    if table !in catalog || !catalog[table].ThroughParent? {
      return true;
    }
    Shrinks(catalog, table, stack);
    ok := AssertGrounded(catalog, catalog[table].parent, stack + [table]);
  }

  // Policies about the schema's own tables, one for a table.
  predicate Distinct(schema: seq<string>, policies: seq<Policy>) {
    && (forall i :: 0 <= i < |policies| ==> Inside(schema, policies[i]))
    && (forall i, j :: 0 <= i < j < |policies| ==> policies[i].table != policies[j].table)
  }

  predicate Inside(schema: seq<string>, p: Policy) {
    p.table in schema && (p.definition.ThroughParent? ==> p.definition.parent in schema)
  }

  predicate WellStated(schema: seq<string>, policies: seq<Policy>) {
    && Distinct(schema, policies)
    && forall t :: t in schema ==> t in Stated(policies)
  }

  method CollectPolicies(schema: seq<string>, policies: seq<Policy>) returns (r: Outcome<Catalog>)
    ensures r.Ok? <==> Distinct(schema, policies)
    ensures r.Ok? ==> r.value == Stated(policies)
  {
    hide Inside;
    var catalog: Catalog := map[];
    for k := 0 to |policies|
      invariant catalog == Stated(policies[..k])
      invariant forall i :: 0 <= i < k ==> Inside(schema, policies[i])
      invariant forall i, j :: 0 <= i < j < k ==> policies[i].table != policies[j].table
    {
      if !Inside(schema, policies[k]) {
        return Err(OutsideSchema);
      }
      StatedKeys(policies[..k], policies[k].table);
      if policies[k].table in catalog {
        return Err(DuplicatePolicy);
      }
      forall i | 0 <= i < k ensures policies[i].table != policies[k].table {
        assert policies[..k][i] == policies[i];
      }
      catalog := catalog[policies[k].table := policies[k].definition];
      assert policies[..k + 1][..k] == policies[..k];
    }
    assert policies[..|policies|] == policies;
    r := Ok(catalog);
  }

  method AssertAcyclic(catalog: Catalog) returns (ok: bool)
    ensures ok == Acyclic(catalog)
  {
    var left := catalog.Keys;
    while left != {}
      invariant left <= catalog.Keys && forall t :: t in catalog && t !in left ==> Grounded(catalog, t, [])
      decreases |left|
    {
      var t :| t in left;
      var grounded := AssertGrounded(catalog, t, []);
      if !grounded {
        return false;
      }
      left := left - {t};
    }
    ok := true;
  }

  /** A catalog is built exactly when the policies are well stated and acyclic. */
  method BuildCatalog(schema: seq<string>, policies: seq<Policy>) returns (r: Outcome<Catalog>)
    ensures r.Ok? <==> WellStated(schema, policies) && Acyclic(Stated(policies))
    ensures r.Ok? ==> r.value == Stated(policies)
  {
    var collected := CollectPolicies(schema, policies);
    if collected.Err? {
      return collected;
    }
    for k := 0 to |schema|
      invariant forall i :: 0 <= i < k ==> schema[i] in collected.value
    {
      if schema[k] !in collected.value {
        return Err(MissingPolicy);
      }
    }
    var acyclic := AssertAcyclic(collected.value);
    r := if acyclic then collected else Err(CyclicPolicy);
  }

  /** A built catalog has a policy for every parent it mentions. */
  lemma BuiltIsComplete(schema: seq<string>, policies: seq<Policy>, t: string)
    requires WellStated(schema, policies) && t in Stated(policies) && Stated(policies)[t].ThroughParent?
    ensures Stated(policies)[t].parent in Stated(policies)
  {
    StatedKeys(policies, t);
    var i :| 0 <= i < |policies| && policies[i] == Policy(t, Stated(policies)[t]);
    assert Inside(schema, policies[i]);
  }

  // ---------- what a principal may read ----------

  // A predicate about one row, asked of a query's own source.
  function Localize(e: Expr, source: SourceId): Expr {
    match e
    case Field(_, column) => Field(source, column)
    case Literal(_) => e
    case Comparison(op, l, r) => Comparison(op, Localize(l, source), Localize(r, source))
    case In(l, candidates) => In(Localize(l, source), candidates)
    case Logical(conjunction, l, r) => Logical(conjunction, Localize(l, source), Localize(r, source))
    case Not(operand) => Not(Localize(operand, source))
  }

  predicate Holds(test: Expr, row: Row) {
    Truthy(EvalExpr(Localize(test, 0), map[0 := row]))
  }

  lemma {:induction false} LocalizedValue(e: Expr, s: SourceId, a: Context, t: SourceId, b: Context)
    requires s in a && t in b && a[s] == b[t]
    ensures EvalExpr(Localize(e, s), a) == EvalExpr(Localize(e, t), b)
  {
    match e
    case Field(_, _) =>
    case Literal(_) =>
    case Comparison(_, l, r) =>
      LocalizedValue(l, s, a, t, b);
      LocalizedValue(r, s, a, t, b);
    case In(l, _) =>
      LocalizedValue(l, s, a, t, b);
    case Logical(_, l, r) =>
      LocalizedValue(l, s, a, t, b);
      LocalizedValue(r, s, a, t, b);
    case Not(operand) =>
      LocalizedValue(operand, s, a, t, b);
  }

  function TableRows(tables: Tables, table: string): Coll {
    if table in tables then tables[table] else map[]
  }

  predicate HasParent(parents: Coll, parentColumn: string, row: Row, childColumn: string) {
    exists id :: id in parents && ColumnOf(parents[id].row, parentColumn) == ColumnOf(row, childColumn)
  }

  predicate Readable(definition: Definition, parents: Coll, row: Row) {
    match definition
    case Allow => true
    case Deny => false
    case Where(test) => Holds(test, row)
    case ThroughParent(_, childColumn, parentColumn) => HasParent(parents, parentColumn, row, childColumn)
  }

  function VisibleFrom(catalog: Catalog, tables: Tables, table: string, stack: seq<string>): Coll
    decreases |catalog.Keys - Elements(stack)|
  {
    if table in stack || table !in catalog then map[]
    else
      var definition := catalog[table];
      var parents :=
        if definition.ThroughParent? then
          Shrinks(catalog, table, stack);
          VisibleFrom(catalog, tables, definition.parent, stack + [table])
        else map[];
      var rows := TableRows(tables, table);
      map id | id in rows && Readable(definition, parents, rows[id].row) :: rows[id]
  }

  // The rows of a table that the principal may read.
  function Visible(catalog: Catalog, tables: Tables, table: string): Coll {
    VisibleFrom(catalog, tables, table, [])
  }

  lemma {:induction false} VisibleFromAnywhere(catalog: Catalog, tables: Tables, table: string, a: seq<string>, b: seq<string>)
    requires Grounded(catalog, table, a) && Grounded(catalog, table, b)
    ensures VisibleFrom(catalog, tables, table, a) == VisibleFrom(catalog, tables, table, b)
    decreases |catalog.Keys - Elements(a)|
  {
    if table in catalog && catalog[table].ThroughParent? {
      Shrinks(catalog, table, a);
      VisibleFromAnywhere(catalog, tables, catalog[table].parent, a + [table], b + [table]);
    }
  }

  function VisibleParents(catalog: Catalog, tables: Tables, definition: Definition): Coll {
    if definition.ThroughParent? then Visible(catalog, tables, definition.parent) else map[]
  }

  lemma VisibleUnfolds(catalog: Catalog, tables: Tables, table: string)
    requires Acyclic(catalog) && table in catalog
    ensures var rows := TableRows(tables, table);
      Visible(catalog, tables, table)
        == map id | id in rows && Readable(catalog[table], VisibleParents(catalog, tables, catalog[table]), rows[id].row) :: rows[id]
  {
    var definition := catalog[table];
    assert Grounded(catalog, table, []);
    if definition.ThroughParent? {
      GroundedSooner(catalog, definition.parent, [], [] + [table]);
      VisibleFromAnywhere(catalog, tables, definition.parent, [] + [table], []);
    }
  }

  // ---------- rewriting ----------

  function Conjunctions(e: Expr): seq<Expr> {
    if e.Logical? && e.conjunction then Conjunctions(e.left) + Conjunctions(e.right) else [e]
  }

  predicate Matches(source: SourceId, fact: Fact, childColumn: string, parentColumn: string, l: Expr, r: Expr) {
    l == Field(source, childColumn) && r == Field(fact.source, parentColumn)
  }

  predicate Proves(source: SourceId, fact: Fact, childColumn: string, parentColumn: string, e: Expr) {
    e.Comparison? && e.op.Eq?
    && (Matches(source, fact, childColumn, parentColumn, e.left, e.right)
        || Matches(source, fact, childColumn, parentColumn, e.right, e.left))
  }

  predicate ProvesRelationship(node: Node, fact: Fact, childColumn: string, parentColumn: string) {
    exists i :: 0 <= i < |node.filters| && exists e :: e in Conjunctions(node.filters[i]) && Proves(node.source, fact, childColumn, parentColumn, e)
  }

  predicate Proven(node: Node, facts: seq<Fact>, definition: Definition)
    requires definition.ThroughParent?
  {
    exists i :: 0 <= i < |facts| && facts[i].table == definition.parent
      && ProvesRelationship(node, facts[i], definition.childColumn, definition.parentColumn)
  }

  // The bare query on a parent table, over the source reserved for it.
  function ParentNode(table: string, reserved: map<string, SourceId>): Node {
    Node(if table in reserved then reserved[table] else 0, table, [], [], None, None, Many, None)
  }

  function Depth(fields: Option<Fields>): nat
    decreases fields
  {
    match fields
    case None => 0
    case Some(f) => 1 + FieldsDepth(f)
  }

  function FieldsDepth(fields: Fields): nat
    decreases fields
  {
    match fields
    case NoFields => 0
    case ExprField(_, _, rest) => 1 + FieldsDepth(rest)
    case QueryField(_, node, rest) => 1 + Depth(node.selection) + FieldsDepth(rest)
  }

  function AddedFilters(definition: Definition, source: SourceId): seq<Expr> {
    match definition
    case Deny => [Literal(Bool(false))]
    case Where(test) => [Localize(test, source)]
    case _ => []
  }

  function AuthorizeNode(catalog: Catalog, reserved: map<string, SourceId>, node: Node, facts: seq<Fact>, stack: seq<string>): Outcome<Node>
    decreases Depth(node.selection), |catalog.Keys - Elements(stack)|
  {
    if node.table !in catalog then Err(MissingPolicy)
    else if node.table in stack then Err(CyclicPolicy)
    else
      var definition := catalog[node.table];
      var filters := node.filters + AddedFilters(definition, node.source);
      var authorization: Outcome<Option<Authorization>> :=
        if definition.ThroughParent? && !Proven(node, facts, definition) then
          Shrinks(catalog, node.table, stack);
          match AuthorizeNode(catalog, reserved, ParentNode(definition.parent, reserved), [], stack + [node.table])
          case Err(e) => Err(e)
          case Ok(parent) => Ok(Some(Through(parent, definition.childColumn, definition.parentColumn)))
        else Ok(node.authorization);
      var selection: Outcome<Option<Fields>> :=
        match node.selection
        case None => Ok(None)
        case Some(fields) =>
          (match AuthorizeFields(catalog, reserved, fields, facts + [Fact(node.table, node.source)])
           case Err(e) => Err(e)
           case Ok(f) => Ok(Some(f)));
      match (authorization, selection)
      case (Ok(a), Ok(s)) => Ok(node.(filters := filters, authorization := a, selection := s))
      case (Err(e), _) => Err(e)
      case (_, Err(e)) => Err(e)
  }

  function AuthorizeFields(catalog: Catalog, reserved: map<string, SourceId>, fields: Fields, facts: seq<Fact>): Outcome<Fields>
    decreases FieldsDepth(fields), |catalog.Keys| + 1
  {
    match fields
    case NoFields => Ok(NoFields)
    case ExprField(name, expr, rest) =>
      (match AuthorizeFields(catalog, reserved, rest, facts)
       case Err(e) => Err(e)
       case Ok(r) => Ok(ExprField(name, expr, r)))
    case QueryField(name, node, rest) =>
      match (AuthorizeNode(catalog, reserved, node, facts, []), AuthorizeFields(catalog, reserved, rest, facts))
      case (Ok(n), Ok(r)) => Ok(QueryField(name, n, r))
      case (Err(e), _) => Err(e)
      case (_, Err(e)) => Err(e)
  }

  // ---------- where a query's sources live ----------

  // Every source belongs to one table; a query as written carries no semijoin of its own.
  predicate Placed(node: Node, home: map<SourceId, string>, catalog: Catalog)
    decreases node
  {
    && node.source in home && home[node.source] == node.table && node.table in catalog && node.authorization.None?
    && (node.selection.Some? ==> PlacedFields(node.selection.value, home, catalog))
  }

  predicate PlacedFields(fields: Fields, home: map<SourceId, string>, catalog: Catalog)
    decreases fields
  {
    match fields
    case NoFields => true
    case ExprField(_, _, rest) => PlacedFields(rest, home, catalog)
    case QueryField(_, node, rest) => Placed(node, home, catalog) && PlacedFields(rest, home, catalog)
  }

  // Parents have policies, and sources reserved for them.
  predicate Ready(catalog: Catalog, reserved: map<string, SourceId>, home: map<SourceId, string>) {
    && Acyclic(catalog)
    && forall t :: t in catalog && catalog[t].ThroughParent? ==> ReadyParent(catalog[t].parent, catalog, reserved, home)
  }

  predicate ReadyParent(parent: string, catalog: Catalog, reserved: map<string, SourceId>, home: map<SourceId, string>) {
    parent in catalog && parent in reserved && reserved[parent] in home && home[reserved[parent]] == parent
  }

  function Instance(home: map<SourceId, string>, tables: Tables): Database {
    map s | s in home :: TableRows(tables, home[s])
  }

  function ReadableInstance(catalog: Catalog, home: map<SourceId, string>, tables: Tables): Database {
    map s | s in home :: Visible(catalog, tables, home[s])
  }

  // The row of every authorized ancestor is one that the principal may read.
  predicate FactHolds(fact: Fact, ctx: Context, home: map<SourceId, string>, catalog: Catalog, tables: Tables) {
    && fact.source in home && home[fact.source] == fact.table && fact.source in ctx
    && exists id :: id in Visible(catalog, tables, fact.table) && Visible(catalog, tables, fact.table)[id].row == ctx[fact.source]
  }

  predicate FactsHold(facts: seq<Fact>, ctx: Context, home: map<SourceId, string>, catalog: Catalog, tables: Tables) {
    forall i :: 0 <= i < |facts| ==> FactHolds(facts[i], ctx, home, catalog, tables)
  }

  // ---------- rewriting succeeds ----------

  lemma NotItsOwnParent(catalog: Catalog, table: string)
    requires Acyclic(catalog) && table in catalog && catalog[table].ThroughParent?
    ensures catalog[table].parent != table
  {
    assert Grounded(catalog, table, []);
    assert Grounded(catalog, catalog[table].parent, [] + [table]);
    assert table in [] + [table];
  }

  /** On a complete, acyclic catalog rewriting never fails. */
  lemma {:induction false} AuthorizeSucceeds(catalog: Catalog, reserved: map<string, SourceId>, home: map<SourceId, string>,
      node: Node, facts: seq<Fact>, stack: seq<string>)
    requires Ready(catalog, reserved, home) && Placed(node, home, catalog) && Grounded(catalog, node.table, stack)
    ensures AuthorizeNode(catalog, reserved, node, facts, stack).Ok?
    decreases Depth(node.selection), |catalog.Keys - Elements(stack)|
  {
    var definition := catalog[node.table];
    if definition.ThroughParent? && !Proven(node, facts, definition) {
      Shrinks(catalog, node.table, stack);
      assert ReadyParent(definition.parent, catalog, reserved, home);
      AuthorizeSucceeds(catalog, reserved, home, ParentNode(definition.parent, reserved), [], stack + [node.table]);
    }
    if node.selection.Some? {
      AuthorizeFieldsSucceeds(catalog, reserved, home, node.selection.value, facts + [Fact(node.table, node.source)]);
    }
  }

  lemma {:induction false} AuthorizeFieldsSucceeds(catalog: Catalog, reserved: map<string, SourceId>, home: map<SourceId, string>,
      fields: Fields, facts: seq<Fact>)
    requires Ready(catalog, reserved, home) && PlacedFields(fields, home, catalog)
    ensures AuthorizeFields(catalog, reserved, fields, facts).Ok?
    decreases FieldsDepth(fields), |catalog.Keys| + 1
  {
    match fields
    case NoFields =>
    case ExprField(_, _, rest) => AuthorizeFieldsSucceeds(catalog, reserved, home, rest, facts);
    case QueryField(_, node, rest) =>
      assert Grounded(catalog, node.table, []);
      AuthorizeSucceeds(catalog, reserved, home, node, facts, []);
      AuthorizeFieldsSucceeds(catalog, reserved, home, rest, facts);
  }

  // ---------- the meaning of what is added ----------

  lemma PassesBoth(a: seq<Expr>, b: seq<Expr>, ctx: Context)
    ensures Passes(a + b, ctx) <==> Passes(a, ctx) && Passes(b, ctx)
  {
    if Passes(a + b, ctx) {
      forall i | 0 <= i < |a| ensures Truthy(EvalExpr(a[i], ctx)) {
        assert (a + b)[i] == a[i];
      }
      forall i | 0 <= i < |b| ensures Truthy(EvalExpr(b[i], ctx)) {
        assert (a + b)[|a| + i] == b[i];
      }
    }
  }

  lemma AddedFiltersMean(definition: Definition, source: SourceId, ctx: Context, row: Row)
    requires !definition.ThroughParent? && source in ctx && ctx[source] == row
    ensures Passes(AddedFilters(definition, source), ctx) <==> Readable(definition, map[], row)
  {
    match definition
    case Allow =>
    case Deny =>
      assert !Truthy(EvalExpr(AddedFilters(definition, source)[0], ctx));
    case Where(test) =>
      LocalizedValue(test, source, ctx, 0, map[0 := row]);
      assert AddedFilters(definition, source)[0] == Localize(test, source);
  }

  lemma {:induction false} ConjunctionHolds(e: Expr, ctx: Context, part: Expr)
    requires Truthy(EvalExpr(e, ctx)) && part in Conjunctions(e)
    ensures Truthy(EvalExpr(part, ctx))
  {
    if e.Logical? && e.conjunction {
      if part in Conjunctions(e.left) {
        ConjunctionHolds(e.left, ctx, part);
      } else {
        ConjunctionHolds(e.right, ctx, part);
      }
    }
  }

  /** The semijoin may be left out: the filters already tie the row to an ancestor that is visible. */
  lemma ProofImpliesParent(catalog: Catalog, home: map<SourceId, string>, tables: Tables, node: Node, facts: seq<Fact>, ctx: Context, row: Row)
    requires Acyclic(catalog) && node.table in catalog && node.source in home && home[node.source] == node.table
    requires FactsHold(facts, ctx, home, catalog, tables)
    requires catalog[node.table].ThroughParent? && Proven(node, facts, catalog[node.table])
    requires Passes(node.filters, ctx[node.source := row])
    ensures Readable(catalog[node.table], VisibleParents(catalog, tables, catalog[node.table]), row)
  {
    hide Visible, Localize;
    var definition := catalog[node.table];
    NotItsOwnParent(catalog, node.table);
    var i :| 0 <= i < |facts| && facts[i].table == definition.parent
      && ProvesRelationship(node, facts[i], definition.childColumn, definition.parentColumn);
    var fact := facts[i];
    assert FactHolds(fact, ctx, home, catalog, tables);
    var k :| 0 <= k < |node.filters| && exists e :: e in Conjunctions(node.filters[k]) && Proves(node.source, fact, definition.childColumn, definition.parentColumn, e);
    var e :| e in Conjunctions(node.filters[k]) && Proves(node.source, fact, definition.childColumn, definition.parentColumn, e);
    var ctx' := ctx[node.source := row];
    ConjunctionHolds(node.filters[k], ctx', e);
    assert ctx'[fact.source] == ctx[fact.source] && ctx'[node.source] == row;
    ProofEquates(node.source, fact, definition.childColumn, definition.parentColumn, e, ctx');
  }

  lemma ProofEquates(source: SourceId, fact: Fact, childColumn: string, parentColumn: string, e: Expr, ctx: Context)
    requires Proves(source, fact, childColumn, parentColumn, e) && Truthy(EvalExpr(e, ctx))
    requires source in ctx && fact.source in ctx
    ensures ColumnOf(ctx[fact.source], parentColumn) == ColumnOf(ctx[source], childColumn)
  {
    assert EvalExpr(Field(source, childColumn), ctx) == ColumnOf(ctx[source], childColumn);
    assert EvalExpr(Field(fact.source, parentColumn), ctx) == ColumnOf(ctx[fact.source], parentColumn);
    assert EvalExpr(e, ctx) == Bool(EvalExpr(e.left, ctx) == EvalExpr(e.right, ctx));
  }

  // A semijoin with a parent query that returns exactly the visible parents.
  lemma SemijoinMeans(a: Authorization, db: Database, vdb: Database, bare: Node, parents: Coll, row: Row)
    requires a.parent.limit == None && a.parent.order == []
    requires bare.filters == [] && bare.authorization == None
    requires Filtered(a.parent, db, map[]) == Filtered(bare, vdb, map[]) && Rows(vdb, bare.source) == parents
    ensures Authorized(a, db, row) <==> HasParent(parents, a.parentColumn, row, a.childColumn)
  {
    var found := Filtered(a.parent, db, map[]);
    SortedSorts(a.parent.order, found);
    assert found.Keys == parents.Keys;
    forall id | id in parents ensures found[id].row == parents[id].row {
    }
  }

  // ---------- the rewriting preserves meaning ----------

  // What AuthorizeNode does to the parts of one node.
  lemma AuthorizedParts(catalog: Catalog, reserved: map<string, SourceId>, node: Node, facts: seq<Fact>, stack: seq<string>)
    requires AuthorizeNode(catalog, reserved, node, facts, stack).Ok?
    ensures node.table in catalog && node.table !in stack
    ensures var a := AuthorizeNode(catalog, reserved, node, facts, stack).value;
      var definition := catalog[node.table];
      && a.source == node.source && a.table == node.table && a.order == node.order && a.limit == node.limit && a.cardinality == node.cardinality
      && a.filters == node.filters + AddedFilters(definition, node.source)
      && (definition.ThroughParent? && !Proven(node, facts, definition) ==>
            && AuthorizeNode(catalog, reserved, ParentNode(definition.parent, reserved), [], stack + [node.table]).Ok?
            && a.authorization == Some(Through(AuthorizeNode(catalog, reserved, ParentNode(definition.parent, reserved), [], stack + [node.table]).value,
                                               definition.childColumn, definition.parentColumn)))
      && (!(definition.ThroughParent? && !Proven(node, facts, definition)) ==> a.authorization == node.authorization)
      && (node.selection.None? ==> a.selection == None)
      && (node.selection.Some? ==>
            && AuthorizeFields(catalog, reserved, node.selection.value, facts + [Fact(node.table, node.source)]).Ok?
            && a.selection == Some(AuthorizeFields(catalog, reserved, node.selection.value, facts + [Fact(node.table, node.source)]).value))
  {
  }

  lemma InstanceRows(catalog: Catalog, home: map<SourceId, string>, tables: Tables, node: Node)
    requires Acyclic(catalog) && node.table in catalog && node.source in home && home[node.source] == node.table
    ensures var rows, seen := Rows(Instance(home, tables), node.source), Rows(ReadableInstance(catalog, home, tables), node.source);
      var definition := catalog[node.table];
      && rows == TableRows(tables, node.table) && seen == Visible(catalog, tables, node.table)
      && (forall id :: id in seen <==> id in rows && Readable(definition, VisibleParents(catalog, tables, definition), rows[id].row))
      && (forall id :: id in seen ==> seen[id] == rows[id])
  {
    hide Visible, Readable, VisibleParents;
    VisibleUnfolds(catalog, tables, node.table);
  }

  // Which rows an authorized node keeps, when what was added means what the policy says.
  lemma FilteredBy(a: Node, node: Node, db: Database, vdb: Database, ctx: Context)
    requires a.source == node.source && node.authorization == None
    requires var rows, seen := Rows(db, node.source), Rows(vdb, node.source);
      && (forall id :: id in seen ==> id in rows && seen[id] == rows[id])
      && forall id :: id in rows ==>
           (KeptBy(a, db, ctx, rows[id].row) <==> id in seen && Passes(node.filters, ctx[node.source := rows[id].row]))
    ensures Filtered(a, db, ctx) == Filtered(node, vdb, ctx)
  {
    hide Passes, Authorized;
    var f, g := Filtered(a, db, ctx), Filtered(node, vdb, ctx);
    forall id ensures id in f <==> id in g {
    }
  }

  ghost predicate KeptBy(a: Node, db: Database, ctx: Context, row: Row) {
    (a.authorization.Some? ==> Authorized(a.authorization.value, db, row)) && Passes(a.filters, ctx[a.source := row])
  }

  /** One authorized query keeps exactly the readable rows that pass its own filters. */
  lemma {:induction false} FilteredAuthorized(catalog: Catalog, reserved: map<string, SourceId>, home: map<SourceId, string>,
      tables: Tables, node: Node, facts: seq<Fact>, stack: seq<string>, ctx: Context)
    requires Ready(catalog, reserved, home) && Placed(node, home, catalog) && Grounded(catalog, node.table, stack)
    requires FactsHold(facts, ctx, home, catalog, tables)
    requires AuthorizeNode(catalog, reserved, node, facts, stack).Ok?
    ensures Filtered(AuthorizeNode(catalog, reserved, node, facts, stack).value, Instance(home, tables), ctx)
         == Filtered(node, ReadableInstance(catalog, home, tables), ctx)
    decreases |catalog.Keys - Elements(stack)|
  {
    hide Visible, AuthorizeNode, Filtered, Authorized, Passes, Readable, Instance, ReadableInstance, AddedFilters, FactsHold, Proven;
    var a := AuthorizeNode(catalog, reserved, node, facts, stack).value;
    var db, vdb := Instance(home, tables), ReadableInstance(catalog, home, tables);
    AuthorizedParts(catalog, reserved, node, facts, stack);
    InstanceRows(catalog, home, tables, node);
    var definition, rows := catalog[node.table], Rows(db, node.source);
    if definition.ThroughParent? && !Proven(node, facts, definition) {
      Shrinks(catalog, node.table, stack);
      assert ReadyParent(definition.parent, catalog, reserved, home);
      NoFacts(home, catalog, tables);
      FilteredAuthorized(catalog, reserved, home, tables, ParentNode(definition.parent, reserved), [], stack + [node.table], map[]);
    }
    forall id | id in rows
      ensures KeptBy(a, db, ctx, rows[id].row)
         <==> Readable(definition, VisibleParents(catalog, tables, definition), rows[id].row) && Passes(node.filters, ctx[node.source := rows[id].row])
    {
      KeptMeans(catalog, reserved, home, tables, node, facts, stack, ctx, rows[id].row);
    }
    FilteredBy(a, node, db, vdb, ctx);
  }

  lemma NoFacts(home: map<SourceId, string>, catalog: Catalog, tables: Tables)
    ensures FactsHold([], map[], home, catalog, tables)
  {
  }

  ghost predicate ParentQueryMeans(catalog: Catalog, reserved: map<string, SourceId>, home: map<SourceId, string>, tables: Tables,
      definition: Definition, stack: seq<string>)
    requires definition.ThroughParent?
  {
    var bare := ParentNode(definition.parent, reserved);
    var parent := AuthorizeNode(catalog, reserved, bare, [], stack);
    parent.Ok? && Filtered(parent.value, Instance(home, tables), map[]) == Filtered(bare, ReadableInstance(catalog, home, tables), map[])
  }

  lemma KeptMeans(catalog: Catalog, reserved: map<string, SourceId>, home: map<SourceId, string>, tables: Tables,
      node: Node, facts: seq<Fact>, stack: seq<string>, ctx: Context, row: Row)
    requires Ready(catalog, reserved, home) && Placed(node, home, catalog) && FactsHold(facts, ctx, home, catalog, tables)
    requires AuthorizeNode(catalog, reserved, node, facts, stack).Ok?
    requires catalog[node.table].ThroughParent? && !Proven(node, facts, catalog[node.table]) ==>
               ParentQueryMeans(catalog, reserved, home, tables, catalog[node.table], stack + [node.table])
    ensures KeptBy(AuthorizeNode(catalog, reserved, node, facts, stack).value, Instance(home, tables), ctx, row)
       <==> Readable(catalog[node.table], VisibleParents(catalog, tables, catalog[node.table]), row) && Passes(node.filters, ctx[node.source := row])
  {
    hide AuthorizeNode, Filtered, Authorized, Passes, Localize, Instance, ReadableInstance, FactsHold, Proven, Readable, Visible, AddedFilters;
    var definition := catalog[node.table];
    AuthorizedParts(catalog, reserved, node, facts, stack);
    PassesBoth(node.filters, AddedFilters(definition, node.source), ctx[node.source := row]);
    if !definition.ThroughParent? {
      AddedFiltersMean(definition, node.source, ctx[node.source := row], row);
    } else {
      NothingAdded(definition, node.source, ctx[node.source := row]);
      if Proven(node, facts, definition) {
        if Passes(node.filters, ctx[node.source := row]) {
          ProofImpliesParent(catalog, home, tables, node, facts, ctx, row);
        }
      } else {
        SemijoinKeeps(catalog, reserved, home, tables, definition, stack + [node.table], row);
      }
    }
  }

  lemma NothingAdded(definition: Definition, source: SourceId, ctx: Context)
    requires definition.ThroughParent?
    ensures Passes(AddedFilters(definition, source), ctx)
  {
  }

  lemma SemijoinKeeps(catalog: Catalog, reserved: map<string, SourceId>, home: map<SourceId, string>, tables: Tables,
      definition: Definition, stack: seq<string>, row: Row)
    requires definition.ThroughParent? && Acyclic(catalog) && ReadyParent(definition.parent, catalog, reserved, home)
    requires ParentQueryMeans(catalog, reserved, home, tables, definition, stack)
    ensures var parent := AuthorizeNode(catalog, reserved, ParentNode(definition.parent, reserved), [], stack).value;
      var semijoin := Through(parent, definition.childColumn, definition.parentColumn);
      Authorized(semijoin, Instance(home, tables), row) <==> Readable(definition, VisibleParents(catalog, tables, definition), row)
  {
    hide AuthorizeNode, Filtered, Authorized, Instance, ReadableInstance, Visible;
    var bare := ParentNode(definition.parent, reserved);
    var parent := AuthorizeNode(catalog, reserved, bare, [], stack).value;
    AuthorizedParts(catalog, reserved, bare, [], stack);
    InstanceRows(catalog, home, tables, bare);
    SemijoinMeans(Through(parent, definition.childColumn, definition.parentColumn), Instance(home, tables),
      ReadableInstance(catalog, home, tables), bare, Visible(catalog, tables, definition.parent), row);
  }

  // ---------- the whole query ----------

  lemma ContextStep(facts: seq<Fact>, ctx: Context, home: map<SourceId, string>, catalog: Catalog, tables: Tables, node: Node, id: Id)
    requires FactsHold(facts, ctx, home, catalog, tables) && node.source in home && home[node.source] == node.table
    requires id in Visible(catalog, tables, node.table)
    ensures FactsHold(facts + [Fact(node.table, node.source)], ctx[node.source := Visible(catalog, tables, node.table)[id].row], home, catalog, tables)
  {
    hide Visible;
    var row := Visible(catalog, tables, node.table)[id].row;
    var facts', ctx' := facts + [Fact(node.table, node.source)], ctx[node.source := row];
    forall i | 0 <= i < |facts'| ensures FactHolds(facts'[i], ctx', home, catalog, tables) {
      if i < |facts| {
        assert FactHolds(facts[i], ctx, home, catalog, tables);
      }
    }
  }

  lemma SelectedReadable(node: Node, vdb: Database, ctx: Context)
    ensures forall i :: 0 <= i < |Selected(node, vdb, ctx)| ==> Selected(node, vdb, ctx)[i] in Rows(vdb, node.source)
  {
    SortedSorts(node.order, Filtered(node, vdb, ctx));
    forall i | 0 <= i < |Selected(node, vdb, ctx)| ensures Selected(node, vdb, ctx)[i] in Filtered(node, vdb, ctx) {
      assert Selected(node, vdb, ctx)[i] == Sorted(node.order, Filtered(node, vdb, ctx))[i];
    }
  }

  /** The rewritten query means the original query on the readable part of the database. */
  lemma {:induction false} AuthorizedEvaluates(catalog: Catalog, reserved: map<string, SourceId>, home: map<SourceId, string>,
      tables: Tables, node: Node, facts: seq<Fact>, ctx: Context)
    requires Ready(catalog, reserved, home) && Placed(node, home, catalog)
    requires FactsHold(facts, ctx, home, catalog, tables)
    requires AuthorizeNode(catalog, reserved, node, facts, []).Ok?
    ensures Evaluate(AuthorizeNode(catalog, reserved, node, facts, []).value, Instance(home, tables), ctx)
         == Evaluate(node, ReadableInstance(catalog, home, tables), ctx)
    decreases node, 1
  {
    hide AuthorizeNode, Filtered, Project, Instance, ReadableInstance, Visible, FactsHold, Proven, AddedFilters, Conclude;
    var a := AuthorizeNode(catalog, reserved, node, facts, []).value;
    var db, vdb := Instance(home, tables), ReadableInstance(catalog, home, tables);
    assert Grounded(catalog, node.table, []);
    AuthorizedParts(catalog, reserved, node, facts, []);
    FilteredAuthorized(catalog, reserved, home, tables, node, facts, [], ctx);
    var ids := Selected(node, vdb, ctx);
    assert Selected(a, db, ctx) == ids;
    SelectedReadable(node, vdb, ctx);
    AuthorizedProjects(catalog, reserved, home, tables, node, facts, ctx, ids);
  }

  lemma {:induction false} AuthorizedProjects(catalog: Catalog, reserved: map<string, SourceId>, home: map<SourceId, string>,
      tables: Tables, node: Node, facts: seq<Fact>, ctx: Context, ids: seq<Id>)
    requires Ready(catalog, reserved, home) && Placed(node, home, catalog)
    requires FactsHold(facts, ctx, home, catalog, tables)
    requires AuthorizeNode(catalog, reserved, node, facts, []).Ok?
    requires forall i :: 0 <= i < |ids| ==> ids[i] in Rows(ReadableInstance(catalog, home, tables), node.source)
    ensures Project(AuthorizeNode(catalog, reserved, node, facts, []).value, Instance(home, tables), ctx, ids)
         == Project(node, ReadableInstance(catalog, home, tables), ctx, ids)
    decreases node, 0, |ids|
  {
    hide AuthorizeNode, Filtered, Instance, ReadableInstance, Visible, FactsHold, Proven, AddedFilters, Select;
    if ids != [] {
      var a := AuthorizeNode(catalog, reserved, node, facts, []).value;
      var db, vdb := Instance(home, tables), ReadableInstance(catalog, home, tables);
      AuthorizedParts(catalog, reserved, node, facts, []);
      InstanceRows(catalog, home, tables, node);
      var row := RowAt(vdb, node.source, ids[0]);
      assert RowAt(db, node.source, ids[0]) == row;
      if node.selection.Some? {
        ContextStep(facts, ctx, home, catalog, tables, node, ids[0]);
        AuthorizedSelects(catalog, reserved, home, tables, node.selection.value, facts + [Fact(node.table, node.source)], ctx[node.source := row]);
      }
      AuthorizedProjects(catalog, reserved, home, tables, node, facts, ctx, ids[1..]);
    }
  }

  lemma {:induction false} AuthorizedSelects(catalog: Catalog, reserved: map<string, SourceId>, home: map<SourceId, string>,
      tables: Tables, fields: Fields, facts: seq<Fact>, ctx: Context)
    requires Ready(catalog, reserved, home) && PlacedFields(fields, home, catalog)
    requires FactsHold(facts, ctx, home, catalog, tables)
    requires AuthorizeFields(catalog, reserved, fields, facts).Ok?
    ensures Select(AuthorizeFields(catalog, reserved, fields, facts).value, Instance(home, tables), ctx)
         == Select(fields, ReadableInstance(catalog, home, tables), ctx)
    decreases fields
  {
    hide AuthorizeNode, Evaluate, Instance, ReadableInstance, Visible, FactsHold;
    match fields
    case NoFields =>
    case ExprField(_, _, rest) =>
      AuthorizedSelects(catalog, reserved, home, tables, rest, facts, ctx);
    case QueryField(_, node, rest) =>
      AuthorizedEvaluates(catalog, reserved, home, tables, node, facts, ctx);
      AuthorizedSelects(catalog, reserved, home, tables, rest, facts, ctx);
  }

  /** Authorizing a query never fails, and its result is the query's result on what the principal may read. */
  lemma AuthorizePreservesMeaning(catalog: Catalog, reserved: map<string, SourceId>, home: map<SourceId, string>, tables: Tables, query: Node)
    requires Ready(catalog, reserved, home) && Placed(query, home, catalog)
    ensures AuthorizeNode(catalog, reserved, query, [], []).Ok?
    ensures Evaluate(AuthorizeNode(catalog, reserved, query, [], []).value, Instance(home, tables), map[])
         == Evaluate(query, ReadableInstance(catalog, home, tables), map[])
  {
    hide AuthorizeNode, Evaluate, Instance, ReadableInstance, Visible;
    assert Grounded(catalog, query.table, []);
    AuthorizeSucceeds(catalog, reserved, home, query, [], []);
    NoFacts(home, catalog, tables);
    AuthorizedEvaluates(catalog, reserved, home, tables, query, [], map[]);
  }
}
