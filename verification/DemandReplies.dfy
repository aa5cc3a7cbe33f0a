// What the compiled network replies to a change of one table source: the demands that its nested queries report
// while the change passes through it are a reply that the subscription runtime is prepared for.
module DemandReplies {
  import opened Query
  import opened Dataflow
  import opened DataflowCompiler
  import opened Demands
  import opened DemandFlow
  import opened DemandNetwork
  import opened DemandDepth

  // ---------- one join for every nested query ----------

  predicate JoinsSource(op: Op, s: SourceId) {
    op.CorrelateOp? && op.node.source == s
  }

  function Joins(ops: seq<Op>, s: SourceId): nat {
    if ops == [] then 0 else Joins(ops[..|ops| - 1], s) + One(JoinsSource(ops[|ops| - 1], s))
  }

  function One(b: bool): nat {
    if b then 1 else 0
  }

  lemma JoinsAppend(ops: seq<Op>, op: Op, s: SourceId)
    ensures Joins(ops + [op], s) == Joins(ops, s) + One(JoinsSource(op, s))
  {
    assert (ops + [op])[..|ops|] == ops;
  }

  lemma {:induction false} PolicyJoins(node: Node, matches: nat, ops: seq<Op>, s: SourceId)
    ensures Joins(CompileAuthorization(node, matches, ops).0, s) == Joins(ops, s)
    decreases node, 0
  {
    if node.authorization.Some? {
      var a := node.authorization.value;
      MatchesJoin(a.parent, None, ops, s);
      var (ops1, allowed, _) := CompileMatches(a.parent, None, ops);
      JoinsAppend(ops1, AuthorizeOp(a.childColumn, a.parentColumn, matches, allowed), s);
    }
  }

  lemma {:induction false} MatchesJoin(node: Node, parents: Option<nat>, ops: seq<Op>, s: SourceId)
    ensures Joins(CompileMatches(node, parents, ops).0, s) == Joins(ops, s) + One(parents.Some? && node.source == s)
    decreases node, 1
  {
    var (ops1, joined, groups) := CompileSource(node, parents, ops);
    SourceJoins(node, parents, ops, s);
    var (ops2, matches) := CompileAuthorization(node, joined, ops1);
    PolicyJoins(node, joined, ops1, s);
    var filter := FilterOp(node.filters, matches);
    JoinsAppend(ops2, filter, s);
    JoinsAppend(ops2 + [filter], TopKOp(node.order, node.limit, |ops2|), s);
  }

  lemma SourceJoins(node: Node, parents: Option<nat>, ops: seq<Op>, s: SourceId)
    ensures Joins(CompileSource(node, parents, ops).0, s) == Joins(ops, s) + One(parents.Some? && node.source == s)
  {
    var ops1 := ops + [InputOp(node.source)];
    JoinsAppend(ops, InputOp(node.source), s);
    match parents
    case None => JoinsAppend(ops1, RootMatchOp(node.source, |ops|), s);
    case Some(p) =>
      JoinsAppend(ops1, CorrelateOp(node, p, |ops|), s);
      JoinsAppend(ops1 + [CorrelateOp(node, p, |ops|)], GroupsOp(p), s);
  }

  /** Compiling a node adds one join for its own source, if it is nested, and one for every query nested in it. */
  lemma {:induction false} NodeJoins(node: Node, parents: Option<nat>, depth: nat, ops: seq<Op>, s: SourceId)
    requires OwnSources(node)
    ensures Joins(CompileNode(node, parents, ops).0, s)
      == Joins(ops, s) + One(parents.Some? && node.source == s) + One(s in Depths(node, depth))
    decreases node, 2
  {
    MatchesJoin(node, parents, ops, s);
    var (ops1, matches, groups) := CompileMatches(node, parents, ops);
    if Reduces(node) {
      JoinsAppend(ops1, ReduceOp(node.cardinality.Exists?, matches, groups), s);
    } else {
      var ops2 := ops1 + [ProjectOp(node.selection, matches)];
      JoinsAppend(ops1, ProjectOp(node.selection, matches), s);
      if node.selection.None? {
        JoinsAppend(ops2, CardinalityOp(node.order, node.cardinality, |ops1|, groups), s);
      } else {
        FieldsJoin(node.selection.value, matches, |ops1|, depth, ops2, s);
        var (ops3, projected) := CompileFields(node.selection.value, matches, |ops1|, ops2);
        JoinsAppend(ops3, CardinalityOp(node.order, node.cardinality, projected, groups), s);
      }
    }
  }

  lemma {:induction false} FieldsJoin(fields: Fields, matches: nat, projected: nat, depth: nat, ops: seq<Op>, s: SourceId)
    requires OwnFieldSources(fields)
    ensures Joins(CompileFields(fields, matches, projected, ops).0, s) == Joins(ops, s) + One(s in FieldDepths(fields, depth))
    decreases fields
  {
    hide Merge, Sources, FieldSources;
    match fields
    case NoFields =>
    case ExprField(_, _, rest) => FieldsJoin(rest, matches, projected, depth, ops, s);
    case QueryField(name, node, rest) =>
      var (ops1, nested) := CompileNode(node, Some(matches), ops);
      NodeJoins(node, Some(matches), depth + 1, ops, s);
      JoinsAppend(ops1, NestOp(name, projected, nested), s);
      FieldsJoin(rest, matches, |ops1|, depth, ops1 + [NestOp(name, projected, nested)], s);
      MergeAt(Depths(node, depth + 1), node.source, depth, FieldDepths(rest, depth), s);
      DepthsInside(node, depth + 1);
      OwnSource(node);
      BelowFieldKeys(rest, depth, map[], map[]);
  }

  lemma OneJoin(root: Node, s: SourceId)
    requires OwnSources(root)
    ensures Joins(Compile(root).0, s) == One(s in Depths(root, 1))
  {
    NodeJoins(root, None, 1, [RootGroupsOp], s);
    assert [RootGroupsOp][..0] == [];
  }

  lemma {:induction false} JoinFound(ops: seq<Op>, s: SourceId)
    requires Joins(ops, s) > 0
    ensures exists i :: 0 <= i < |ops| && JoinsSource(ops[i], s)
  {
    if !JoinsSource(ops[|ops| - 1], s) {
      JoinFound(ops[..|ops| - 1], s);
      var i :| 0 <= i < |ops[..|ops| - 1]| && JoinsSource(ops[..|ops| - 1][i], s);
      assert JoinsSource(ops[i], s);
    }
  }

  lemma {:induction false} JoinCounted(ops: seq<Op>, s: SourceId, i: nat)
    requires i < |ops| && JoinsSource(ops[i], s)
    ensures Joins(ops, s) >= 1 && (Joins(ops, s) == 1 ==> forall j :: 0 <= j < |ops| && JoinsSource(ops[j], s) ==> j == i)
  {
    var init := ops[..|ops| - 1];
    if i < |init| {
      JoinCounted(init, s, i);
      assert forall j :: 0 <= j < |init| ==> init[j] == ops[j];
    } else {
      forall j | 0 <= j < |init| && JoinsSource(ops[j], s) ensures Joins(ops, s) > 1 {
        assert init[j] == ops[j];
        JoinCounted(init, s, j);
      }
    }
  }

  // ---------- what the nested queries report ----------

  // One step of the network: operator op emits a batch.
  datatype Event = Event(op: nat, batch: Batch)

  function DemandsFor(s: SourceId, batch: Batch): seq<Demand> {
    seq(|batch|, i requires 0 <= i < |batch| => Demand(s, batch[i]))
  }

  // Every join that listens to the operator reports its changes, the first n joins in order.
  function ReportedTo(ops: seq<Op>, e: Event, n: nat): seq<Demand>
    requires n <= |ops|
  {
    if n == 0 then []
    else
      ReportedTo(ops, e, n - 1)
      + if ops[n - 1].CorrelateOp? && ops[n - 1].parents == e.op then DemandsFor(ops[n - 1].node.source, e.batch) else []
  }

  function Reported(ops: seq<Op>, events: seq<Event>): seq<Demand> {
    if events == [] then []
    else Reported(ops, events[..|events| - 1]) + ReportedTo(ops, events[|events| - 1], |ops|)
  }

  lemma {:induction false} OfDemandsFor(s: SourceId, batch: Batch, t: SourceId)
    ensures Of(DemandsFor(s, batch), t) == if s == t then batch else []
  {
    if batch != [] {
      hide Of, DemandsFor;
      OfDemandsFor(s, batch[1..], t);
      DemandsForSplit(s, batch);
      OfConcat([Demand(s, batch[0])], DemandsFor(s, batch[1..]), t);
      OfOne(Demand(s, batch[0]), t);
      assert [batch[0]] + batch[1..] == batch;
    } else {
      OfNothing(t);
    }
  }

  lemma DemandsForSplit(s: SourceId, batch: Batch)
    requires batch != []
    ensures DemandsFor(s, batch) == [Demand(s, batch[0])] + DemandsFor(s, batch[1..])
  {
  }

  lemma OfOne(d: Demand, t: SourceId)
    ensures Of([d], t) == if d.source == t then [d.change] else []
  {
    assert [d][1..] == [];
    OfNothing(t);
  }

  lemma {:induction false} OfReportedTo(ops: seq<Op>, e: Event, n: nat, s: SourceId, i: nat)
    requires n <= |ops| && i < |ops| && JoinsSource(ops[i], s) && forall j :: 0 <= j < |ops| && JoinsSource(ops[j], s) ==> j == i
    ensures Of(ReportedTo(ops, e, n), s) == if i < n && ops[i].parents == e.op then e.batch else []
  {
    if n > 0 {
      OfReportedTo(ops, e, n - 1, s, i);
      var last := if ops[n - 1].CorrelateOp? && ops[n - 1].parents == e.op then DemandsFor(ops[n - 1].node.source, e.batch) else [];
      OfConcat(ReportedTo(ops, e, n - 1), last, s);
      if ops[n - 1].CorrelateOp? {
        OfDemandsFor(ops[n - 1].node.source, e.batch, s);
        assert JoinsSource(ops[n - 1], s) ==> n - 1 == i;
      }
    }
  }

  // What one operator emits in the events.
  function EmittedBy(q: nat, events: seq<Event>): (batches: seq<Batch>)
    ensures |batches| == |events|
  {
    seq(|events|, k requires 0 <= k < |events| => if events[k].op == q then events[k].batch else [])
  }

  lemma {:induction false} OfReported(ops: seq<Op>, events: seq<Event>, s: SourceId, i: nat)
    requires i < |ops| && JoinsSource(ops[i], s) && forall j :: 0 <= j < |ops| && JoinsSource(ops[j], s) ==> j == i
    ensures Of(Reported(ops, events), s) == Flattened(EmittedBy(ops[i].parents, events))
  {
    hide Of, ReportedTo;
    if events == [] {
      OfNothing(s);
    } else {
      var n := |events| - 1;
      OfReported(ops, events[..n], s, i);
      OfReportedTo(ops, events[n], |ops|, s, i);
      OfConcat(Reported(ops, events[..n]), ReportedTo(ops, events[n], |ops|), s);
      assert EmittedBy(ops[i].parents, events)[..n] == EmittedBy(ops[i].parents, events[..n]);
    }
  }

  // ---------- joins listen to match streams ----------

  predicate Selects(ops: seq<Op>, i: nat) {
    i < |ops| && ops[i].TopKOp?
  }

  ghost predicate Listening(ops: seq<Op>) {
    forall i :: 0 <= i < |ops| && ops[i].CorrelateOp? ==> Selects(ops, ops[i].parents)
  }

  lemma ListenMore(ops: seq<Op>, op: Op)
    requires Listening(ops) && (op.CorrelateOp? ==> Selects(ops, op.parents))
    ensures Listening(ops + [op]) && forall i: nat :: Selects(ops, i) ==> Selects(ops + [op], i)
  {
  }

  lemma {:induction false} PolicyListens(node: Node, matches: nat, ops: seq<Op>)
    requires Listening(ops)
    ensures var ops' := CompileAuthorization(node, matches, ops).0;
      Listening(ops') && forall i: nat :: Selects(ops, i) ==> Selects(ops', i)
    decreases node, 0
  {
    hide Listening, Selects;
    if node.authorization.Some? {
      var a := node.authorization.value;
      MatchesListen(a.parent, None, ops);
      var (ops1, allowed, _) := CompileMatches(a.parent, None, ops);
      ListenMore(ops1, AuthorizeOp(a.childColumn, a.parentColumn, matches, allowed));
    }
  }

  lemma {:induction false} MatchesListen(node: Node, parents: Option<nat>, ops: seq<Op>)
    requires Listening(ops) && (parents.Some? ==> Selects(ops, parents.value))
    ensures var (ops', matches, _) := CompileMatches(node, parents, ops);
      Listening(ops') && Selects(ops', matches) && forall i: nat :: Selects(ops, i) ==> Selects(ops', i)
    decreases node, 1
  {
    hide Listening;
    var (ops1, joined, groups) := CompileSource(node, parents, ops);
    SourceListens(node, parents, ops);
    var (ops2, matches) := CompileAuthorization(node, joined, ops1);
    PolicyListens(node, joined, ops1);
    var filter := FilterOp(node.filters, matches);
    ListenMore(ops2, filter);
    ListenMore(ops2 + [filter], TopKOp(node.order, node.limit, |ops2|));
  }

  lemma SourceListens(node: Node, parents: Option<nat>, ops: seq<Op>)
    requires Listening(ops) && (parents.Some? ==> Selects(ops, parents.value))
    ensures var ops' := CompileSource(node, parents, ops).0;
      Listening(ops') && forall i: nat :: Selects(ops, i) ==> Selects(ops', i)
  {
    hide Listening, Selects;
    var ops1 := ops + [InputOp(node.source)];
    ListenMore(ops, InputOp(node.source));
    match parents
    case None => ListenMore(ops1, RootMatchOp(node.source, |ops|));
    case Some(p) =>
      ListenMore(ops1, CorrelateOp(node, p, |ops|));
      ListenMore(ops1 + [CorrelateOp(node, p, |ops|)], GroupsOp(p));
  }

  lemma {:induction false} NodeListens(node: Node, parents: Option<nat>, ops: seq<Op>)
    requires Listening(ops) && (parents.Some? ==> Selects(ops, parents.value))
    ensures var ops' := CompileNode(node, parents, ops).0;
      Listening(ops') && forall i: nat :: Selects(ops, i) ==> Selects(ops', i)
    decreases node, 2
  {
    hide Listening, Selects;
    MatchesListen(node, parents, ops);
    var (ops1, matches, groups) := CompileMatches(node, parents, ops);
    if node.cardinality.Count? || node.cardinality.Exists? {
      ListenMore(ops1, ReduceOp(node.cardinality.Exists?, matches, groups));
    } else {
      var ops2 := ops1 + [ProjectOp(node.selection, matches)];
      ListenMore(ops1, ProjectOp(node.selection, matches));
      if node.selection.None? {
        ListenMore(ops2, CardinalityOp(node.order, node.cardinality, |ops1|, groups));
      } else {
        FieldsListen(node.selection.value, matches, |ops1|, ops2);
        var (ops3, projected) := CompileFields(node.selection.value, matches, |ops1|, ops2);
        ListenMore(ops3, CardinalityOp(node.order, node.cardinality, projected, groups));
      }
    }
  }

  lemma {:induction false} FieldsListen(fields: Fields, matches: nat, projected: nat, ops: seq<Op>)
    requires Listening(ops) && Selects(ops, matches)
    ensures var ops' := CompileFields(fields, matches, projected, ops).0;
      Listening(ops') && forall i: nat :: Selects(ops, i) ==> Selects(ops', i)
    decreases fields
  {
    hide Listening, Selects;
    match fields
    case NoFields =>
    case ExprField(_, _, rest) => FieldsListen(rest, matches, projected, ops);
    case QueryField(name, node, rest) =>
      NodeListens(node, Some(matches), ops);
      var (ops1, nested) := CompileNode(node, Some(matches), ops);
      ListenMore(ops1, NestOp(name, projected, nested));
      FieldsListen(rest, matches, |ops1|, ops1 + [NestOp(name, projected, nested)]);
  }

  // ---------- the reply ----------

  ghost predicate Happens(ops: seq<Op>, c: Config, c': Config, e: Event)
    requires Shaped(ops, c)
  {
    ExternalStep(ops, c, c', e.op, e.batch) || exists p :: DeliverStep(ops, c, c', e.op, p, e.batch)
  }

  // The steps of a stretch in which no source but x changes.
  ghost predicate Traced(ops: seq<Op>, stretch: seq<Config>, events: seq<Event>, x: SourceId) {
    && |stretch| == |events| + 1
    && (forall k :: 0 <= k < |stretch| ==> Shaped(ops, stretch[k]))
    && (forall k :: 0 <= k < |events| ==> TracedAt(ops, stretch[k], stretch[k + 1], events[k], x))
  }

  ghost predicate TracedAt(ops: seq<Op>, c: Config, c': Config, e: Event, x: SourceId)
    requires Shaped(ops, c)
  {
    e.op < |ops| && (External(ops[e.op]) ==> ops[e.op] == InputOp(x)) && Happens(ops, c, c', e)
  }

  // A settled state of the compiled query over some rows, after some run.
  ghost predicate SettledOn(root: Node, run: seq<Config>, db: Database) {
    && Run(Compile(root).0, run)
    && var c := run[|run| - 1];
       Quiet(c) && c.external != [] && c.external[0] == RootParents && Holds(Compile(root).0, c, db)
  }

  lemma EventEmits(ops: seq<Op>, c: Config, c': Config, e: Event, q: nat)
    requires Shaped(ops, c) && e.op < |ops| && Happens(ops, c, c', e) && q < |ops| && !External(ops[q])
    ensures Emits(ops, c, c', q, if e.op == q then e.batch else [])
  {
    hide ExternalStep, DeliverStep;
    if ExternalStep(ops, c, c', e.op, e.batch) {
      ExternalMoves(ops, c, c', e);
    }
  }

  lemma ExternalMoves(ops: seq<Op>, c: Config, c': Config, e: Event)
    requires Shaped(ops, c) && ExternalStep(ops, c, c', e.op, e.batch)
    ensures e.op < |ops| && External(ops[e.op])
  {
  }

  lemma EventSteps(ops: seq<Op>, c: Config, c': Config, e: Event, x: SourceId)
    requires Shaped(ops, c) && TracedAt(ops, c, c', e, x)
    ensures StepFrom(ops, c, c', x)
  {
    hide ExternalStep, DeliverStep;
    if ExternalStep(ops, c, c', e.op, e.batch) {
      ExternalMoves(ops, c, c', e);
    }
  }

  /** Over a stretch between two settled states in which only the rows of x change, what the nested query of s reports
      is a valid change of its parent's matches. */
  lemma NetworkReports(root: Node, before: seq<Config>, after: seq<Config>, stretch: seq<Config>, events: seq<Event>, x: SourceId,
      db: Database, db': Database, s: SourceId)
    requires WellScoped(root, false) && OwnSources(root) && s in Depths(root, 1)
    requires SettledOn(root, before, db) && SettledOn(root, after, db') && Traced(Compile(root).0, stretch, events, x)
    requires stretch[0] == before[|before| - 1] && stretch[|events|] == after[|after| - 1]
    ensures ReportsChange(root, db, db', Reported(Compile(root).0, events), s)
  {
    hide Compile, Depths, Run, Quiet, Holds, Denote, MatchesFor, ParentMatches, Joins, Happens, Emits, Tracks, Shaped, Reported, Flattened;
    var ops := Compile(root).0;
    OneJoin(root, s);
    JoinFound(ops, s);
    var i :| 0 <= i < |ops| && JoinsSource(ops[i], s);
    JoinCounted(ops, s, i);
    OfReported(ops, events, s, i);
    DemandStreamsCarryMatches(root, before, db, i);
    DemandStreamsCarryMatches(root, after, db', i);
    CompiledListens(root);
    var q, batches := ops[i].parents, EmittedBy(ops[i].parents, events);
    forall k | 0 <= k < |batches| ensures Emits(ops, stretch[k], stretch[k + 1], q, batches[k]) {
      assert TracedAt(ops, stretch[k], stretch[k + 1], events[k], x);
      EventEmits(ops, stretch[k], stretch[k + 1], events[k], q);
    }
    EmissionsTrack(ops, stretch, q, batches);
  }

  lemma CompiledListens(root: Node)
    ensures Listening(Compile(root).0)
  {
    NodeListens(root, None, [RootGroupsOp]);
  }

  // ---------- only deeper queries report ----------

  lemma {:induction false} ReportedToMember(ops: seq<Op>, e: Event, n: nat, d: Demand)
    requires n <= |ops| && d in ReportedTo(ops, e, n)
    ensures exists i :: 0 <= i < n && ops[i].CorrelateOp? && ops[i].parents == e.op && d.source == ops[i].node.source
  {
    if d in ReportedTo(ops, e, n - 1) {
      ReportedToMember(ops, e, n - 1, d);
    }
  }

  lemma {:induction false} ReportedMember(ops: seq<Op>, events: seq<Event>, d: Demand) returns (k: nat, i: nat)
    requires d in Reported(ops, events)
    ensures k < |events| && i < |ops| && ops[i].CorrelateOp? && ops[i].parents == events[k].op && d.source == ops[i].node.source
  {
    if d in Reported(ops, events[..|events| - 1]) {
      k, i := ReportedMember(ops, events[..|events| - 1], d);
    } else {
      k := |events| - 1;
      ReportedToMember(ops, events[k], |ops|, d);
      i :| 0 <= i < |ops| && ops[i].CorrelateOp? && ops[i].parents == events[k].op && d.source == ops[i].node.source;
    }
  }

  /** A report comes from a query nested below x. */
  lemma ReportIsDeeper(root: Node, stretch: seq<Config>, events: seq<Event>, x: SourceId, d: Demand)
    requires OwnSources(root) && Traced(Compile(root).0, stretch, events, x) && Quiet(stretch[0])
    requires d in Reported(Compile(root).0, events)
    ensures DeeperThan(Depths(root, 1), x, d.source)
  {
    hide Compile, Depths, Quiet, Joins, Happens;
    var ops := Compile(root).0;
    var k, i := ReportedMember(ops, events, d);
    assert JoinsSource(ops[i], d.source);
    JoinCounted(ops, d.source, i);
    OneJoin(root, d.source);
    CompiledListens(root);
    assert TracedAt(ops, stretch[k], stretch[k + 1], events[k], x);
    if x in Depths(root, 1) {
      var p := Delivered(ops, stretch[k], stretch[k + 1], events[k]);
      var start := stretch[..k + 1];
      forall j | 0 <= j < |start| - 1 ensures StepFrom(ops, start[j], start[j + 1], x) {
        assert TracedAt(ops, stretch[j], stretch[j + 1], events[j], x);
        EventSteps(ops, stretch[j], stretch[j + 1], events[j], x);
      }
      DemandsComeFromBelow(root, start, x, i, p, stretch[k + 1], events[k].batch);
    }
  }

  lemma Delivered(ops: seq<Op>, c: Config, c': Config, e: Event) returns (p: nat)
    requires Shaped(ops, c) && e.op < |ops| && !External(ops[e.op]) && Happens(ops, c, c', e)
    ensures DeliverStep(ops, c, c', e.op, p, e.batch)
  {
    p :| DeliverStep(ops, c, c', e.op, p, e.batch);
  }

  // ---------- the theorem ----------

  /** The compiled network keeps the contract that the runtime relies on: between two settled states in which only the
      rows of x have changed, the demands it reports form a reply, and no query beside or above x reports one. */
  lemma NetworkReplies(root: Node, before: seq<Config>, after: seq<Config>, stretch: seq<Config>, events: seq<Event>, x: SourceId,
      db: Database, db': Database)
    requires WellScoped(root, false) && OwnSources(root)
    requires SettledOn(root, before, db) && SettledOn(root, after, db') && Traced(Compile(root).0, stretch, events, x)
    requires stretch[0] == before[|before| - 1] && stretch[|events|] == after[|after| - 1]
    ensures Replies(root, x, db, db', Reported(Compile(root).0, events))
  {
    hide Compile, Depths, Run, Holds, ReportsChange, Reported, TracedAt, WellScoped, OwnSources;
    var reply := Reported(Compile(root).0, events);
    forall i | 0 <= i < |reply| ensures DeeperThan(Depths(root, 1), x, reply[i].source) {
      ReportIsDeeper(root, stretch, events, x, reply[i]);
    }
    forall s | s in Depths(root, 1) ensures ReportsChange(root, db, db', reply, s) {
      NetworkReports(root, before, after, stretch, events, x, db, db', s);
    }
  }

  // ---------- engines that reply as the network did ----------

  // The runtime's k-th call and what it was told.
  datatype Exchange = Exchange(source: SourceId, db: Database, db': Database, reply: seq<Demand>)

  ghost function RepliesOf(root: Node, exchanges: seq<Exchange>): Engine {
    (tick: nat, x: SourceId, db: Database, db': Database) =>
      if tick < |exchanges| && exchanges[tick].source == x && exchanges[tick].db == db && exchanges[tick].db' == db'
      then exchanges[tick].reply else ReplacingEngine(root)(tick, x, db, db')
  }

  /** Whatever the network replied to the runtime's calls, the runtime's results hold of it: an engine that the
      runtime is proved against gives the same replies. */
  lemma NetworkIsAnEngine(root: Node, exchanges: seq<Exchange>)
    requires OwnSources(root)
    requires forall k :: 0 <= k < |exchanges| ==>
      Replies(root, exchanges[k].source, exchanges[k].db, exchanges[k].db', exchanges[k].reply)
    ensures Faithful(root, RepliesOf(root, exchanges))
    ensures forall k :: 0 <= k < |exchanges| ==>
      RepliesOf(root, exchanges)(k, exchanges[k].source, exchanges[k].db, exchanges[k].db') == exchanges[k].reply
  {
    hide Replies, ReplacingEngine;
    FaithfulEngineExists(root);
  }
}
