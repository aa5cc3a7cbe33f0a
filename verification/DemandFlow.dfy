// How the query engine asks for rows: every nested query reports the changes of its parent's
// matches as demands (dataflow.ts), and a demand names rows of a deeper query only.
module DemandFlow {
  import opened Query
  import opened Dataflow
  import opened DataflowCompiler
  import opened DataflowOperators
  import opened Demands
  import Planner

  datatype Demand = Demand(source: SourceId, change: Change)

  function Of(demands: seq<Demand>, s: SourceId): Batch {
    if demands == [] then []
    else (if demands[0].source == s then [demands[0].change] else []) + Of(demands[1..], s)
  }

  lemma {:induction false} OfConcat(a: seq<Demand>, b: seq<Demand>, s: SourceId)
    ensures Of(a + b, s) == Of(a, s) + Of(b, s)
  {
    if a == [] {
      assert a + b == b;
    } else {
      assert (a + b)[1..] == a[1..] + b;
      OfConcat(a[1..], b, s);
    }
  }

  // ---------- the matches that nested queries join with ----------

  // A nested query between the queries below it and those beside it.
  function Merge<V>(below: map<SourceId, V>, s: SourceId, own: V, rest: map<SourceId, V>): map<SourceId, V> {
    below + map[s := own] + rest
  }

  // For every query nested in the node, its parent's matches.
  ghost function Below(node: Node, db: Database, matches: Coll): map<SourceId, Coll>
    decreases node
  {
    if Reduces(node) || node.selection.None? then map[] else BelowFields(node.selection.value, db, matches)
  }

  ghost function BelowFields(fields: Fields, db: Database, matches: Coll): map<SourceId, Coll>
    decreases fields
  {
    match fields
    case NoFields => map[]
    case ExprField(_, _, rest) => BelowFields(rest, db, matches)
    case QueryField(_, node, rest) =>
      Merge(Below(node, db, MatchesOf(node, db, false, matches)), node.source, matches, BelowFields(rest, db, matches))
  }

  // The nesting depth of those queries.
  function Depths(node: Node, depth: nat): map<SourceId, nat>
    decreases node
  {
    if Reduces(node) || node.selection.None? then map[] else FieldDepths(node.selection.value, depth)
  }

  function FieldDepths(fields: Fields, depth: nat): map<SourceId, nat>
    decreases fields
  {
    match fields
    case NoFields => map[]
    case ExprField(_, _, rest) => FieldDepths(rest, depth)
    case QueryField(_, node, rest) => Merge(Depths(node, depth + 1), node.source, depth, FieldDepths(rest, depth))
  }

  // How deep queries nest below the node.
  function Height(node: Node): nat
    decreases node
  {
    if Reduces(node) || node.selection.None? then 0 else FieldHeight(node.selection.value)
  }

  function FieldHeight(fields: Fields): nat
    decreases fields
  {
    match fields
    case NoFields => 0
    case ExprField(_, _, rest) => FieldHeight(rest)
    case QueryField(_, node, rest) =>
      var h, r := 1 + Height(node), FieldHeight(rest);
      if h < r then r else h
  }

  lemma {:induction false} DepthsFrom(node: Node, depth: nat)
    ensures forall s :: s in Depths(node, depth) ==> Depths(node, depth)[s] >= depth
    decreases node
  {
    if node.selection.Some? {
      FieldDepthsFrom(node.selection.value, depth);
    }
  }

  lemma {:induction false} FieldDepthsFrom(fields: Fields, depth: nat)
    ensures forall s :: s in FieldDepths(fields, depth) ==> FieldDepths(fields, depth)[s] >= depth
    decreases fields
  {
    match fields
    case NoFields =>
    case ExprField(_, _, rest) => FieldDepthsFrom(rest, depth);
    case QueryField(_, node, rest) =>
      DepthsFrom(node, depth + 1);
      FieldDepthsFrom(rest, depth);
  }

  lemma {:induction false} DepthBelowHeight(node: Node, depth: nat)
    ensures forall s :: s in Depths(node, depth) ==> Depths(node, depth)[s] < depth + Height(node)
    decreases node
  {
    if node.selection.Some? {
      FieldDepthBelowHeight(node.selection.value, depth);
    }
  }

  lemma {:induction false} FieldDepthBelowHeight(fields: Fields, depth: nat)
    ensures forall s :: s in FieldDepths(fields, depth) ==> FieldDepths(fields, depth)[s] < depth + FieldHeight(fields)
    decreases fields
  {
    match fields
    case NoFields =>
    case ExprField(_, _, rest) => FieldDepthBelowHeight(rest, depth);
    case QueryField(_, node, rest) =>
      DepthBelowHeight(node, depth + 1);
      FieldDepthBelowHeight(rest, depth);
  }

  ghost function ParentMatches(root: Node, db: Database): map<SourceId, Coll> {
    Below(root, db, MatchesOf(root, db, true, RootParents))
  }

  lemma {:induction false} BelowKeys(node: Node, depth: nat, db: Database, matches: Coll)
    ensures Below(node, db, matches).Keys == Depths(node, depth).Keys
    ensures Depths(node, depth).Keys <= Sources(node)
    ensures OwnSources(node) ==> node.source !in Depths(node, depth)
    ensures node.selection.Some? ==> Depths(node, depth).Keys <= FieldSources(node.selection.value)
    decreases node
  {
    if node.selection.Some? {
      BelowFieldKeys(node.selection.value, depth, db, matches);
    }
  }

  lemma {:induction false} BelowFieldKeys(fields: Fields, depth: nat, db: Database, matches: Coll)
    ensures BelowFields(fields, db, matches).Keys == FieldDepths(fields, depth).Keys
    ensures FieldDepths(fields, depth).Keys <= FieldSources(fields)
    decreases fields
  {
    hide MatchesOf, Merge, Below, Depths, Sources;
    match fields
    case NoFields =>
    case ExprField(_, _, rest) => BelowFieldKeys(rest, depth, db, matches);
    case QueryField(_, node, rest) =>
      BelowKeys(node, depth + 1, db, MatchesOf(node, db, false, matches));
      BelowFieldKeys(rest, depth, db, matches);
      MergeKeys(Below(node, db, MatchesOf(node, db, false, matches)), node.source, matches, BelowFields(rest, db, matches));
      MergeKeys(Depths(node, depth + 1), node.source, depth, FieldDepths(rest, depth));
      OwnSource(node);
  }

  lemma OwnSource(node: Node)
    ensures node.source in Sources(node)
  {
  }

  lemma MergeKeys<V>(below: map<SourceId, V>, s: SourceId, own: V, rest: map<SourceId, V>)
    ensures Merge(below, s, own, rest).Keys == below.Keys + {s} + rest.Keys
  {
  }

  // ---------- live keys cover every context ----------

  ghost predicate Asked(scopes: map<SourceId, Scope>, below: map<SourceId, Coll>, live: LiveKeys) {
    forall s, pid :: s in below && pid in below[s] ==> s in scopes && Asks(scopes[s], below[s][pid].context, KeysAt(live, s))
  }

  ghost predicate AskedAtRoot(scopes: map<SourceId, Scope>, live: LiveKeys) {
    forall s :: s in scopes ==> Asks(scopes[s], map[], KeysAt(live, s))
  }

  lemma {:induction false} AskedIsLive(schema: Planner.Schema, node: Node, root: bool, db: Database, parents: Coll, scopes: map<SourceId, Scope>, live: LiveKeys)
    requires Known(schema, node) && OwnSources(node) && Within(Scopes(schema, node), scopes)
    requires AskedAtRoot(scopes, live)
    requires forall pid :: pid in parents ==> Asks(ScopeOf(schema, node), parents[pid].context, KeysAt(live, node.source))
    requires Asked(scopes, Below(node, db, MatchesOf(node, db, root, parents)), live)
    ensures Live(schema, node, root, db, parents, live)
    decreases node
  {
    hide Asks, MatchesOf, Scopes, ScopeOf;
    AuthorizationScopes(schema, node, scopes);
    if node.authorization.Some? {
      AuthorizationLive(schema, node.authorization.value.parent, scopes, live);
    }
    if node.selection.Some? && !Reduces(node) {
      AskedFieldsLive(schema, node.selection.value, db, MatchesOf(node, db, root, parents), scopes, live);
    }
  }

  lemma {:induction false} AuthorizationLive(schema: Planner.Schema, node: Node, scopes: map<SourceId, Scope>, live: LiveKeys)
    requires Known(schema, node) && OwnSources(node) && Within(Scopes(schema, node), scopes)
    requires AskedAtRoot(scopes, live)
    ensures LiveParents(schema, node, live)
    decreases node
  {
    hide Asks, Scopes, ScopeOf;
    AuthorizationScopes(schema, node, scopes);
    if node.authorization.Some? {
      AuthorizationLive(schema, node.authorization.value.parent, scopes, live);
    }
  }

  lemma {:induction false} AskedFieldsLive(schema: Planner.Schema, fields: Fields, db: Database, matches: Coll, scopes: map<SourceId, Scope>, live: LiveKeys)
    requires KnownFields(schema, fields) && OwnFieldSources(fields) && Within(FieldScopes(schema, fields), scopes)
    requires AskedAtRoot(scopes, live)
    requires Asked(scopes, BelowFields(fields, db, matches), live)
    ensures LiveFields(schema, fields, db, matches, live)
    decreases fields
  {
    hide Asks, MatchesOf, Scopes, ScopeOf;
    match fields
    case NoFields =>
    case ExprField(_, _, rest) => AskedFieldsLive(schema, rest, db, matches, scopes, live);
    case QueryField(_, node, rest) =>
      FirstFieldScopes(schema, fields, scopes);
      AuthorizationScopes(schema, node, scopes);
      FirstBelow(fields, db, matches);
      AskedFieldsLive(schema, rest, db, matches, scopes, live);
      AskedIsLive(schema, node, false, db, matches, scopes, live);
  }

  lemma FirstBelow(fields: Fields, db: Database, matches: Coll)
    requires fields.QueryField? && OwnFieldSources(fields)
    ensures var all := BelowFields(fields, db, matches);
      && Within(Below(fields.node, db, MatchesOf(fields.node, db, false, matches)), all)
      && Within(BelowFields(fields.rest, db, matches), all)
      && fields.node.source in all && all[fields.node.source] == matches
  {
    hide MatchesOf;
    BelowKeys(fields.node, 0, db, MatchesOf(fields.node, db, false, matches));
    BelowFieldKeys(fields.rest, 0, db, matches);
  }

  // ---------- the engine ----------

  ghost predicate DiffersAt(db: Database, db': Database, x: SourceId) {
    forall s :: s != x ==> Rows(db, s) == Rows(db', s)
  }

  // What the engine may report when the rows of one source change: for every nested query, a valid
  // change of its parent's matches; and nothing for a query that is not nested below the source.
  ghost predicate Replies(root: Node, x: SourceId, db: Database, db': Database, reply: seq<Demand>) {
    var depths := Depths(root, 1);
    && (forall i :: 0 <= i < |reply| ==> DeeperThan(depths, x, reply[i].source))
    && (forall s :: s in depths ==> ReportsChange(root, db, db', reply, s))
  }

  predicate DeeperThan(depths: map<SourceId, nat>, x: SourceId, s: SourceId) {
    s in depths && (x in depths ==> depths[x] < depths[s])
  }

  ghost function MatchesFor(root: Node, db: Database, s: SourceId): Coll {
    if s in ParentMatches(root, db) then ParentMatches(root, db)[s] else map[]
  }

  ghost predicate ReportsChange(root: Node, db: Database, db': Database, reply: seq<Demand>, s: SourceId) {
    Tracks(MatchesFor(root, db, s), Of(reply, s), MatchesFor(root, db', s))
  }

  // Any deterministic engine: the first argument counts its calls, so its history may matter.
  type Engine = (nat, SourceId, Database, Database) -> seq<Demand>

  ghost predicate Faithful(root: Node, engine: Engine) {
    forall tick: nat, x: SourceId, db: Database, db': Database :: DiffersAt(db, db', x) ==> Replies(root, x, db, db', engine(tick, x, db, db'))
  }

  // ---------- there is such an engine ----------

  lemma {:induction false} FilteredFrame(node: Node, db: Database, db': Database, x: SourceId)
    requires DiffersAt(db, db', x) && x !in Sources(node)
    ensures forall ctx :: Filtered(node, db, ctx) == Filtered(node, db', ctx)
    decreases node
  {
    if node.authorization.Some? {
      var a := node.authorization.value;
      FilteredFrame(a.parent, db, db', x);
      AuthorizedSame(a, db, db');
    }
    forall ctx ensures Filtered(node, db, ctx) == Filtered(node, db', ctx) {
      assert Rows(db, node.source) == Rows(db', node.source);
    }
  }

  lemma MatchesFrame(node: Node, db: Database, db': Database, root: bool, parents: Coll, x: SourceId)
    requires DiffersAt(db, db', x) && x != node.source
    requires node.authorization.Some? ==> x !in Sources(node.authorization.value.parent)
    ensures MatchesOf(node, db, root, parents) == MatchesOf(node, db', root, parents)
  {
    hide TopK, Passed, Authorized, Filtered, AdmittedOf, RootMatches, Dataflow.Correlated, Sources;
    assert Rows(db, node.source) == Rows(db', node.source);
    AdmittedFrame(node, db, db', x, Joined(node, db, root, parents));
  }

  lemma AdmittedFrame(node: Node, db: Database, db': Database, x: SourceId, joined: Coll)
    requires DiffersAt(db, db', x)
    requires node.authorization.Some? ==> x !in Sources(node.authorization.value.parent)
    ensures AdmittedOf(node, db, joined) == AdmittedOf(node, db', joined)
  {
    hide Authorized, Filtered, Sources;
    if node.authorization.Some? {
      var a := node.authorization.value;
      FilteredFrame(a.parent, db, db', x);
      AuthorizedSame(a, db, db');
    }
    assert forall id :: id in joined ==> Admitted(node, db, joined[id].row) == Admitted(node, db', joined[id].row);
  }

  ghost predicate AgreeUpTo(depths: map<SourceId, nat>, a: map<SourceId, Coll>, b: map<SourceId, Coll>, bound: nat) {
    forall s :: AgreeAt(depths, a, b, bound, s)
  }

  ghost predicate AgreeAt(depths: map<SourceId, nat>, a: map<SourceId, Coll>, b: map<SourceId, Coll>, bound: nat, s: SourceId) {
    && (s in depths <==> s in a) && (s in depths <==> s in b)
    && (s in depths && depths[s] <= bound ==> a[s] == b[s])
  }

  lemma MergeAt<V>(below: map<SourceId, V>, s: SourceId, own: V, rest: map<SourceId, V>, t: SourceId)
    ensures t in Merge(below, s, own, rest) <==> t in below || t == s || t in rest
    ensures t in Merge(below, s, own, rest) ==>
      Merge(below, s, own, rest)[t] == if t in rest then rest[t] else if t == s then own else below[t]
  {
  }

  lemma AgreeMerge(d: map<SourceId, nat>, a: map<SourceId, Coll>, b: map<SourceId, Coll>, s: SourceId, depth: nat, m: Coll, m': Coll,
      d': map<SourceId, nat>, a': map<SourceId, Coll>, b': map<SourceId, Coll>, bound: nat)
    requires AgreeUpTo(d, a, b, bound) && AgreeUpTo(d', a', b', bound) && (depth <= bound ==> m == m')
    ensures AgreeUpTo(Merge(d, s, depth, d'), Merge(a, s, m, a'), Merge(b, s, m', b'), bound)
  {
    hide Merge;
    forall t ensures AgreeAt(Merge(d, s, depth, d'), Merge(a, s, m, a'), Merge(b, s, m', b'), bound, t) {
      assert AgreeAt(d, a, b, bound, t) && AgreeAt(d', a', b', bound, t);
      MergeAt(d, s, depth, d', t);
      MergeAt(a, s, m, a', t);
      MergeAt(b, s, m', b', t);
    }
  }

  // The only place of the source in the tree is at the given depth.
  predicate PlacedAt(fields: Fields, depth: nat, x: SourceId, bound: nat) {
    && (x in FieldSources(fields) ==> x in FieldDepths(fields, depth))
    && (x in FieldDepths(fields, depth) ==> FieldDepths(fields, depth)[x] == bound)
  }

  predicate PlacedIn(node: Node, depth: nat, x: SourceId, bound: nat) {
    && (x in Sources(node) ==> x == node.source || x in Depths(node, depth))
    && (x in Depths(node, depth) ==> Depths(node, depth)[x] == bound)
  }

  // The nested sources are neither the node's own nor its policy's.
  lemma DepthsInside(node: Node, depth: nat)
    requires OwnSources(node)
    ensures Depths(node, depth).Keys <= Sources(node) && node.source in Sources(node)
    ensures node.source !in Depths(node, depth)
    ensures node.authorization.Some? ==> Sources(node.authorization.value.parent) <= Sources(node) - {node.source} - Depths(node, depth).Keys
  {
    BelowKeys(node, depth, map[], map[]);
  }

  lemma FirstPlaced(fields: Fields, depth: nat, x: SourceId, bound: nat)
    requires fields.QueryField? && OwnFieldSources(fields) && PlacedAt(fields, depth, x, bound)
    ensures PlacedIn(fields.node, depth + 1, x, bound) && PlacedAt(fields.rest, depth, x, bound)
    ensures x == fields.node.source ==> depth == bound
    ensures fields.node.authorization.Some? ==> x !in Sources(fields.node.authorization.value.parent)
  {
    DepthsInside(fields.node, depth + 1);
    BelowFieldKeys(fields.rest, depth, map[], map[]);
    hide Sources, OwnSources, Depths;
    var own, rest := Sources(fields.node), FieldSources(fields.rest);
    assert FieldSources(fields) == own + rest && own !! rest;
    var d, e := Depths(fields.node, depth + 1), FieldDepths(fields.rest, depth);
    MergeAt(d, fields.node.source, depth, e, x);
    assert d.Keys <= own && e.Keys <= rest;
  }

  lemma {:induction false} BelowFrame(node: Node, depth: nat, db: Database, db': Database, m: Coll, m': Coll, x: SourceId, bound: nat)
    requires DiffersAt(db, db', x) && OwnSources(node) && PlacedIn(node, depth, x, bound)
    requires depth <= bound ==> m == m'
    ensures AgreeUpTo(Depths(node, depth), Below(node, db, m), Below(node, db', m'), bound)
    decreases node
  {
    if node.selection.Some? && !Reduces(node) {
      BelowKeys(node, depth, db, m);
      BelowFieldsFrame(node.selection.value, depth, db, db', m, m', x, bound);
    }
  }

  lemma {:induction false} BelowFieldsFrame(fields: Fields, depth: nat, db: Database, db': Database, m: Coll, m': Coll, x: SourceId, bound: nat)
    requires DiffersAt(db, db', x) && OwnFieldSources(fields) && PlacedAt(fields, depth, x, bound)
    requires depth <= bound ==> m == m'
    ensures AgreeUpTo(FieldDepths(fields, depth), BelowFields(fields, db, m), BelowFields(fields, db', m'), bound)
    decreases fields
  {
    hide MatchesOf, PlacedIn, AgreeUpTo, Sources, OwnSources, Below, Depths;
    match fields
    case NoFields => NoneAgree(bound);
    case ExprField(_, _, rest) => BelowFieldsFrame(rest, depth, db, db', m, m', x, bound);
    case QueryField(_, node, rest) =>
      FirstPlaced(fields, depth, x, bound);
      var n, n' := MatchesOf(node, db, false, m), MatchesOf(node, db', false, m');
      if depth + 1 <= bound {
        MatchesFrame(node, db, db', false, m, x);
      }
      BelowFrame(node, depth + 1, db, db', n, n', x, bound);
      BelowFieldsFrame(rest, depth, db, db', m, m', x, bound);
      FirstAgrees(fields, depth, db, db', m, m', n, n', bound);
  }

  lemma FirstAgrees(fields: Fields, depth: nat, db: Database, db': Database, m: Coll, m': Coll, n: Coll, n': Coll, bound: nat)
    requires fields.QueryField? && (depth <= bound ==> m == m')
    requires n == MatchesOf(fields.node, db, false, m) && n' == MatchesOf(fields.node, db', false, m')
    requires AgreeUpTo(Depths(fields.node, depth + 1), Below(fields.node, db, n), Below(fields.node, db', n'), bound)
    requires AgreeUpTo(FieldDepths(fields.rest, depth), BelowFields(fields.rest, db, m), BelowFields(fields.rest, db', m'), bound)
    ensures AgreeUpTo(FieldDepths(fields, depth), BelowFields(fields, db, m), BelowFields(fields, db', m'), bound)
  {
    hide MatchesOf, AgreeUpTo, Below, Depths, Merge;
    var node, rest := fields.node, fields.rest;
    AgreeMerge(Depths(node, depth + 1), Below(node, db, n), Below(node, db', n'), node.source, depth, m, m',
      FieldDepths(rest, depth), BelowFields(rest, db, m), BelowFields(rest, db', m'), bound);
  }

  lemma NoneAgree(bound: nat)
    ensures AgreeUpTo(map[], map[], map[], bound)
  {
  }

  /** A change of one source leaves the parent matches of every query that is not nested below it. */
  lemma ShallowUnchanged(root: Node, db: Database, db': Database, x: SourceId)
    requires DiffersAt(db, db', x) && OwnSources(root) && x in Depths(root, 1)
    ensures AgreeUpTo(Depths(root, 1), ParentMatches(root, db), ParentMatches(root, db'), Depths(root, 1)[x])
  {
    hide MatchesOf, Sources, AgreeUpTo;
    DepthsInside(root, 1);
    MatchesFrame(root, db, db', true, RootParents, x);
    BelowFrame(root, 1, db, db', MatchesOf(root, db, true, RootParents), MatchesOf(root, db', true, RootParents), x, Depths(root, 1)[x]);
  }

  ghost function IdSeq(ids: set<Id>): (s: seq<Id>)
    ensures Distinct(s) && forall id :: id in s <==> id in ids
    decreases |ids|
  {
    if ids == {} then []
    else
      var id :| id in ids;
      [id] + IdSeq(ids - {id})
  }

  // Replace every match that differs.
  ghost function Between(m: Coll, m': Coll): (b: Batch)
    ensures Tracks(m, b, m')
  {
    if m == m' then
      NothingTracks(m);
      []
    else
      ReplaceAllTracks(IdSeq(m.Keys + m'.Keys), m, m');
      ReplaceAll(IdSeq(m.Keys + m'.Keys), m, m')
  }

  function DemandsAt(s: SourceId, batch: Batch): seq<Demand> {
    seq(|batch|, i requires 0 <= i < |batch| => Demand(s, batch[i]))
  }

  lemma {:induction false} OfDemandsAt(s: SourceId, batch: Batch, t: SourceId)
    ensures Of(DemandsAt(s, batch), t) == if s == t then batch else []
    decreases batch
  {
    if batch != [] {
      OfDemandsAt(s, batch[1..], t);
      assert DemandsAt(s, batch)[1..] == DemandsAt(s, batch[1..]);
    }
  }

  ghost function Pick(sources: set<SourceId>): (s: SourceId)
    requires sources != {}
    ensures s in sources
  {
    var s :| s in sources;
    s
  }

  ghost function Rewriting(m: Coll, m': Coll): Batch {
    if m == m' then [] else Between(m, m')
  }

  ghost function ReplyFor(sources: set<SourceId>, a: map<SourceId, Coll>, b: map<SourceId, Coll>): seq<Demand>
    requires sources <= a.Keys && sources <= b.Keys
    decreases |sources|
  {
    if sources == {} then []
    else
      var s := Pick(sources);
      DemandsAt(s, Rewriting(a[s], b[s])) + ReplyFor(sources - {s}, a, b)
  }

  lemma {:induction false} ReplyForReports(sources: set<SourceId>, a: map<SourceId, Coll>, b: map<SourceId, Coll>, t: SourceId)
    requires sources <= a.Keys && sources <= b.Keys
    ensures Of(ReplyFor(sources, a, b), t) == if t in sources then Rewriting(a[t], b[t]) else []
    decreases |sources|
  {
    hide Rewriting, Of, DemandsAt;
    if sources != {} {
      var s := Pick(sources);
      var batch := Rewriting(a[s], b[s]);
      OfDemandsAt(s, batch, t);
      OfConcat(DemandsAt(s, batch), ReplyFor(sources - {s}, a, b), t);
      ReplyForReports(sources - {s}, a, b, t);
      assert batch + [] == batch;
    } else {
      OfNothing(t);
    }
  }

  lemma OfNothing(t: SourceId)
    ensures Of([], t) == []
  {
  }

  lemma {:induction false} OfMember(demands: seq<Demand>, i: nat)
    requires i < |demands|
    ensures Of(demands, demands[i].source) != []
  {
    if i > 0 {
      OfMember(demands[1..], i - 1);
    }
  }

  lemma NothingRewritten(m: Coll)
    ensures Rewriting(m, m) == []
  {
  }

  lemma RewritingTracks(m: Coll, m': Coll)
    ensures Tracks(m, Rewriting(m, m'), m')
  {
    if m == m' {
      NothingTracks(m);
    }
  }

  ghost function ReplacingEngine(root: Node): Engine {
    (tick, x, db, db') => ReplyFor(ParentMatches(root, db).Keys * ParentMatches(root, db').Keys, ParentMatches(root, db), ParentMatches(root, db'))
  }

  /** The contract that the runtime relies on can be met. */
  lemma FaithfulEngineExists(root: Node)
    requires OwnSources(root)
    ensures Faithful(root, ReplacingEngine(root))
  {
    hide MatchesOf, Tracks, ReplyFor, Of, Rewriting, Below;
    var depths := Depths(root, 1);
    forall tick: nat, x: SourceId, db: Database, db': Database | DiffersAt(db, db', x) ensures Replies(root, x, db, db', ReplacingEngine(root)(tick, x, db, db')) {
      var a, b := ParentMatches(root, db), ParentMatches(root, db');
      BelowKeys(root, 1, db, MatchesOf(root, db, true, RootParents));
      BelowKeys(root, 1, db', MatchesOf(root, db', true, RootParents));
      var reply := ReplyFor(a.Keys * b.Keys, a, b);
      if x in depths {
        ShallowUnchanged(root, db, db', x);
      }
      forall i | 0 <= i < |reply| ensures DeeperThan(depths, x, reply[i].source) {
        ReplyForReports(a.Keys * b.Keys, a, b, reply[i].source);
        OfMember(reply, i);
        assert x in depths ==> AgreeAt(depths, a, b, depths[x], reply[i].source);
        if x in depths && depths[reply[i].source] <= depths[x] {
          NothingRewritten(a[reply[i].source]);
        }
      }
      forall s | s in depths ensures ReportsChange(root, db, db', reply, s) {
        ReplyForReports(a.Keys * b.Keys, a, b, s);
        RewritingTracks(a[s], b[s]);
      }
    }
  }
}
