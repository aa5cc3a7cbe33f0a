// Runs of handlers: every handler promises its batch only for batches that meet what it requires. In a compiled
// network with keyed policies they all do, so a run of handlers is a run of the network.
module DataflowHandlers {
  import opened Query
  import opened Dataflow
  import opened DataflowContracts
  import opened DataflowCompiler
  import DataflowJoin

  // ---------- runs of handlers ----------

  // The handler of operator i takes the oldest batch on port p.
  ghost predicate HandleStep(ops: seq<Op>, c: Config, c': Config, i: nat, p: nat, batch: Batch)
    requires Shaped(ops, c)
  {
    && i < |ops| && !External(ops[i]) && p < |Inputs(ops[i])|
    && c.queues[i][p] != []
    && c'.ins == c.ins[i := Received(c, i, p)]
    && c'.external == c.external
    && (Ready(ops[i], c.ins[i], p, c.queues[i][p][0]) ==> Handled(ops[i], c.ins[i], p, c.queues[i][p][0], batch))
    && Sent(ops, c.queues[i := c.queues[i][p := c.queues[i][p][1..]]], i, batch, c'.queues)
  }

  // The primary-key columns of the table behind every source.
  type KeyColumns = map<SourceId, seq<string>>

  // A source emits rows under their primary keys.
  ghost predicate SourceBatch(keys: KeyColumns, op: Op, batch: Batch) {
    op.InputOp? ==> op.source in keys && RootedBatch(keys[op.source], batch)
  }

  ghost predicate HandlerStep(keys: KeyColumns, ops: seq<Op>, c: Config, c': Config)
    requires Shaped(ops, c)
  {
    || (exists i: nat, batch :: ExternalStep(ops, c, c', i, batch) && SourceBatch(keys, ops[i], batch))
    || (exists i: nat, p: nat, batch :: HandleStep(ops, c, c', i, p, batch))
  }

  ghost predicate HandlerRun(keys: KeyColumns, ops: seq<Op>, run: seq<Config>) {
    && run != [] && Initial(ops, run[0])
    && (forall k :: 0 <= k < |run| ==> Shaped(ops, run[k]))
    && (forall k :: 0 <= k < |run| - 1 ==> HandlerStep(keys, ops, run[k], run[k + 1]))
  }

  // ---------- what records a stream carries ----------

  // Rows of a source under their keys, joined matches, or anything.
  datatype Stream = Rows(source: SourceId) | Joined | Other

  ghost function StreamOf(ops: seq<Op>, i: nat): Stream
    requires Ordered(ops) && i < |ops|
    decreases i
  {
    assert OrderedAt(ops, i);
    match ops[i]
    case InputOp(source) => Rows(source)
    case RootMatchOp(_, input) => assert Inputs(ops[i])[0] == input; StreamOf(ops, input)
    case CorrelateOp(_, _, _) => Joined
    case AuthorizeOp(_, _, children, _) => assert Inputs(ops[i])[0] == children; StreamOf(ops, children)
    case FilterOp(_, input) => assert Inputs(ops[i])[0] == input; StreamOf(ops, input)
    case TopKOp(_, _, input) => assert Inputs(ops[i])[0] == input; StreamOf(ops, input)
    case _ => Other
  }

  ghost predicate FineRecord(keys: KeyColumns, s: Stream, id: Id, r: Rec) {
    match s
    case Rows(source) => source in keys && Rooted(keys[source], id, r)
    case Joined => id.MatchId? && r.group == id.parent
    case Other => true
  }

  ghost predicate FineColl(keys: KeyColumns, s: Stream, m: Coll) {
    forall id :: id in m ==> FineRecord(keys, s, id, m[id])
  }

  ghost predicate FineBatch(keys: KeyColumns, s: Stream, batch: Batch) {
    forall k :: 0 <= k < |batch| ==> FineRecord(keys, s, batch[k].id, batch[k].value)
  }

  // Policies allow rows of a source by its only key column; matches are ordered in streams that fix their groups.
  ghost predicate GuardedAt(keys: KeyColumns, ops: seq<Op>, i: nat)
    requires Ordered(ops) && i < |ops|
  {
    OrderedAt(ops, i) &&
    match ops[i]
    case RootMatchOp(_, input) => Inputs(ops[i])[0] == input && StreamOf(ops, input).Rows?
    case AuthorizeOp(_, parentColumn, _, allowed) =>
      && Inputs(ops[i])[1] == allowed
      && StreamOf(ops, allowed).Rows? && StreamOf(ops, allowed).source in keys && keys[StreamOf(ops, allowed).source] == [parentColumn]
    case TopKOp(_, _, input) => Inputs(ops[i])[0] == input && !StreamOf(ops, input).Other?
    case _ => true
  }

  ghost predicate Guarded(keys: KeyColumns, ops: seq<Op>) {
    Ordered(ops) && forall i :: 0 <= i < |ops| ==> GuardedAt(keys, ops, i)
  }

  lemma {:induction false} FineApply(keys: KeyColumns, s: Stream, m: Coll, batch: Batch)
    requires FineColl(keys, s, m) && FineBatch(keys, s, batch)
    ensures FineColl(keys, s, Apply(m, batch))
  {
    hide FineRecord;
    forall id | id in Apply(m, batch) ensures FineRecord(keys, s, id, Apply(m, batch)[id]) {
      AppliedRecords(m, batch, id);
    }
  }

  // ---------- one delivery ----------

  lemma HomedFrom(keys: KeyColumns, s: Stream, m: Coll, batch: Batch)
    requires !s.Other? && FineColl(keys, s, m) && FineBatch(keys, s, batch)
    ensures Homed(m) && HomedBatch(batch)
  {
  }

  lemma KeyedFrom(keys: KeyColumns, source: SourceId, column: string, m: Coll, batch: Batch)
    requires source in keys && keys[source] == [column] && FineColl(keys, Rows(source), m) && FineBatch(keys, Rows(source), batch)
    ensures KeyedOnThroughout(column, m, batch) && KeyedOn(column, m)
  {
    var kind := DataflowJoin.Authorizing("", column);
    forall id | id in m ensures DataflowJoin.IdIsKey(column, id, m[id]) {
      assert FineRecord(keys, Rows(source), id, m[id]);
    }
    forall k | 0 <= k < |batch| ensures DataflowJoin.IdIsKey(column, batch[k].id, batch[k].value) {
      assert FineRecord(keys, Rows(source), batch[k].id, batch[k].value);
    }
    DataflowJoin.PrimaryKeysAreKeyed(kind, m, batch);
  }

  // What arrives on an operator's ports.
  ghost predicate FinePort(keys: KeyColumns, ops: seq<Op>, c: Config, i: nat, p: nat)
    requires Ordered(ops) && Shaped(ops, c) && i < |ops| && p < |Inputs(ops[i])|
  {
    && OrderedAt(ops, i)
    && var s := StreamOf(ops, Inputs(ops[i])[p]);
       && FineColl(keys, s, c.ins[i][p])
       && forall k :: 0 <= k < |c.queues[i][p]| ==> FineBatch(keys, s, c.queues[i][p][k])
  }

  ghost predicate Fine(keys: KeyColumns, ops: seq<Op>, c: Config)
    requires Ordered(ops) && Shaped(ops, c)
  {
    forall i, p :: 0 <= i < |ops| && 0 <= p < |Inputs(ops[i])| ==> FinePort(keys, ops, c, i, p)
  }

  /** Whatever is next on a port meets what its handler requires. */
  lemma NextIsReady(keys: KeyColumns, ops: seq<Op>, c: Config, i: nat, p: nat)
    requires Guarded(keys, ops) && Shaped(ops, c) && InStep(ops, c) && Fine(keys, ops, c)
    requires i < |ops| && p < |Inputs(ops[i])| && c.queues[i][p] != []
    ensures Ready(ops[i], c.ins[i], p, c.queues[i][p][0])
  {
    hide FineColl, FineBatch, KeyedOn, KeyedOnThroughout, Homed, HomedBatch, Fine, InStep;
    assert GuardedAt(keys, ops, i);
    NextIsValid(ops, c, i, p);
    FineNext(keys, ops, c, i, p);
    match ops[i]
    case AuthorizeOp(_, parentColumn, _, allowed) =>
      FinePorts(keys, ops, c, i, 1);
      var s := StreamOf(ops, allowed);
      NothingIsFine(keys, s);
      KeyedFrom(keys, s.source, parentColumn, c.ins[i][1], []);
      if p == 1 {
        KeyedFrom(keys, s.source, parentColumn, c.ins[i][1], c.queues[i][1][0]);
      }
    case TopKOp(_, _, input) =>
      HomedFrom(keys, StreamOf(ops, input), c.ins[i][0], c.queues[i][0][0]);
    case _ =>
  }

  lemma NothingIsFine(keys: KeyColumns, s: Stream)
    ensures FineBatch(keys, s, [])
  {
  }

  lemma NextIsValid(ops: seq<Op>, c: Config, i: nat, p: nat)
    requires Ordered(ops) && Shaped(ops, c) && InStep(ops, c)
    requires i < |ops| && p < |Inputs(ops[i])| && c.queues[i][p] != []
    ensures Valid(c.ins[i][p], c.queues[i][p][0])
  {
    assert ValidAll(c.ins[i][p], c.queues[i][p]);
  }

  lemma FinePorts(keys: KeyColumns, ops: seq<Op>, c: Config, i: nat, p: nat)
    requires Ordered(ops) && Shaped(ops, c) && Fine(keys, ops, c) && i < |ops| && p < |Inputs(ops[i])|
    ensures OrderedAt(ops, i) && FineColl(keys, StreamOf(ops, Inputs(ops[i])[p]), c.ins[i][p])
  {
    assert FinePort(keys, ops, c, i, p);
  }

  lemma FineNext(keys: KeyColumns, ops: seq<Op>, c: Config, i: nat, p: nat)
    requires Ordered(ops) && Shaped(ops, c) && Fine(keys, ops, c) && i < |ops| && p < |Inputs(ops[i])| && c.queues[i][p] != []
    ensures OrderedAt(ops, i) && FineColl(keys, StreamOf(ops, Inputs(ops[i])[p]), c.ins[i][p])
    ensures FineBatch(keys, StreamOf(ops, Inputs(ops[i])[p]), c.queues[i][p][0])
  {
    assert FinePort(keys, ops, c, i, p);
  }

  // What the handler emits from fine records is fine.
  lemma EmittedIsFine(keys: KeyColumns, ops: seq<Op>, i: nat, p: nat, ins: seq<Coll>, batch: Batch, output: Batch)
    requires Guarded(keys, ops) && i < |ops| && !External(ops[i]) && |ins| == |Inputs(ops[i])| && p < |ins| && OrderedAt(ops, i)
    requires Derived(ops[i], ins, p, batch, output)
    requires forall r :: 0 <= r < |ins| ==> FineColl(keys, StreamOf(ops, Inputs(ops[i])[r]), ins[r])
    requires FineBatch(keys, StreamOf(ops, Inputs(ops[i])[p]), batch)
    ensures FineBatch(keys, StreamOf(ops, i), output)
  {
    assert GuardedAt(keys, ops, i);
    var s := StreamOf(ops, i);
    forall k | 0 <= k < |output| ensures FineRecord(keys, s, output[k].id, output[k].value) {
      match ops[i]
      case RootMatchOp(_, input) => assert RootMatchOf(batch, output[k]);
      case CorrelateOp(_, _, _) => assert JoinedChange(output[k]);
      case AuthorizeOp(_, _, children, _) => assert PassedOn(ins[0], if p == 0 then batch else [], output[k]);
      case FilterOp(_, input) => assert PassedOn(ins[0], batch, output[k]);
      case TopKOp(_, _, input) => assert PassedOn(ins[0], batch, output[k]);
      case _ =>
    }
  }

  // ---------- whole runs ----------

  lemma FineStart(keys: KeyColumns, ops: seq<Op>, c: Config)
    requires Ordered(ops) && Initial(ops, c)
    ensures Fine(keys, ops, c)
  {
    hide FineRecord;
    forall i, p | 0 <= i < |ops| && 0 <= p < |Inputs(ops[i])| ensures FinePort(keys, ops, c, i, p) {
      assert OrderedAt(ops, i) && c.ins[i][p] == map[] && c.queues[i][p] == [];
    }
  }

  // Sending a fine batch leaves every queue fine.
  lemma SentIsFine(keys: KeyColumns, ops: seq<Op>, c: Config, c': Config, producer: nat, batch: Batch)
    requires Ordered(ops) && Shaped(ops, c) && Shaped(ops, c') && Fine(keys, ops, c) && producer < |ops|
    requires c'.ins == c.ins && Sent(ops, c.queues, producer, batch, c'.queues) && FineBatch(keys, StreamOf(ops, producer), batch)
    ensures Fine(keys, ops, c')
  {
    hide FineBatch, FineColl;
    forall i, p | 0 <= i < |ops| && 0 <= p < |Inputs(ops[i])| ensures FinePort(keys, ops, c', i, p) {
      assert FinePort(keys, ops, c, i, p);
    }
  }

  // Taking a batch from a queue.
  lemma TakenIsFine(keys: KeyColumns, ops: seq<Op>, c: Config, i: nat, p: nat)
    requires Ordered(ops) && Shaped(ops, c) && Fine(keys, ops, c) && i < |ops| && p < |Inputs(ops[i])| && c.queues[i][p] != []
    ensures var taken := c.(ins := c.ins[i := Received(c, i, p)], queues := c.queues[i := c.queues[i][p := c.queues[i][p][1..]]]);
      Shaped(ops, taken) && Fine(keys, ops, taken)
  {
    hide FineBatch, FineColl;
    var taken := c.(ins := c.ins[i := Received(c, i, p)], queues := c.queues[i := c.queues[i][p := c.queues[i][p][1..]]]);
    forall j, r | 0 <= j < |ops| && 0 <= r < |Inputs(ops[j])| ensures FinePort(keys, ops, taken, j, r) {
      assert FinePort(keys, ops, c, j, r);
      if j == i && r == p {
        FineNext(keys, ops, c, i, p);
        FineApply(keys, StreamOf(ops, Inputs(ops[i])[p]), c.ins[i][p], c.queues[i][p][0]);
      }
    }
  }

  lemma ExternalIsFine(keys: KeyColumns, ops: seq<Op>, c: Config, c': Config, i: nat, batch: Batch)
    requires Ordered(ops) && Shaped(ops, c) && Shaped(ops, c') && Fine(keys, ops, c)
    requires ExternalStep(ops, c, c', i, batch) && SourceBatch(keys, ops[i], batch)
    ensures Fine(keys, ops, c')
  {
    hide Fine;
    SentIsFine(keys, ops, c, c', i, batch);
  }

  /** Every delivery of a handler run is one that the handler is ready for, so it is a delivery of the network. */
  lemma HandleIsDelivery(keys: KeyColumns, ops: seq<Op>, c: Config, c': Config, i: nat, p: nat, batch: Batch)
    requires Guarded(keys, ops) && Shaped(ops, c) && Shaped(ops, c') && InStep(ops, c) && Fine(keys, ops, c)
    requires HandleStep(ops, c, c', i, p, batch)
    ensures DeliverStep(ops, c, c', i, p, batch) && Fine(keys, ops, c')
  {
    hide Fine, InStep, FineColl, FineBatch, Derived, Denote, Tracks, Ready, Sent;
    NextIsReady(keys, ops, c, i, p);
    FineNext(keys, ops, c, i, p);
    forall r | 0 <= r < |c.ins[i]| ensures FineColl(keys, StreamOf(ops, Inputs(ops[i])[r]), c.ins[i][r]) {
      FinePorts(keys, ops, c, i, r);
    }
    EmittedIsFine(keys, ops, i, p, c.ins[i], c.queues[i][p][0], batch);
    TakenIsFine(keys, ops, c, i, p);
    var taken := c.(ins := c.ins[i := Received(c, i, p)], queues := c.queues[i := c.queues[i][p := c.queues[i][p][1..]]]);
    SentIsFine(keys, ops, taken, c', i, batch);
  }

  /** A run of handlers over a guarded network is a run of the network. */
  lemma {:induction false} HandlerRunIsRun(keys: KeyColumns, ops: seq<Op>, run: seq<Config>)
    requires Guarded(keys, ops) && HandlerRun(keys, ops, run)
    ensures Run(ops, run) && InStep(ops, run[|run| - 1]) && Fine(keys, ops, run[|run| - 1])
    decreases |run|
  {
    hide Fine, InStep, Guarded, HandleStep, DeliverStep, Initial, Shaped, Sent, Valid, Apply;
    var last := run[|run| - 1];
    GuardedOrdered(keys, ops);
    if |run| == 1 {
      FineStart(keys, ops, last);
    } else {
      var before := run[..|run| - 1];
      var c := before[|before| - 1];
      assert c == run[|run| - 2];
      HandlerRunIsRun(keys, ops, before);
      assert HandlerStep(keys, ops, run[|run| - 2], run[|run| - 1]);
      if i: nat, batch :| ExternalStep(ops, c, last, i, batch) && i < |ops| && SourceBatch(keys, ops[i], batch) {
        ExternalIsFine(keys, ops, c, last, i, batch);
      } else {
        var i: nat, p: nat, batch :| HandleStep(ops, c, last, i, p, batch);
        HandleIsDelivery(keys, ops, c, last, i, p, batch);
      }
      assert Step(ops, c, last);
      forall k | 0 <= k < |run| - 1 ensures Step(ops, run[k], run[k + 1]) {
        assert k < |run| - 2 ==> before[k] == run[k] && before[k + 1] == run[k + 1];
      }
    }
    RunKeepsInStep(ops, run);
  }

  lemma GuardedOrdered(keys: KeyColumns, ops: seq<Op>)
    requires Guarded(keys, ops)
    ensures Ordered(ops)
  {
  }

  // ---------- compiled networks are guarded ----------

  // Every policy of the query names a parent row by its table's only primary-key column.
  predicate PoliciesKeyed(keys: KeyColumns, node: Node)
    decreases node, 0
  {
    && (node.authorization.Some? ==>
          var a := node.authorization.value;
          a.parent.source in keys && keys[a.parent.source] == [a.parentColumn] && PoliciesKeyed(keys, a.parent))
    && (node.selection.Some? ==> FieldPoliciesKeyed(keys, node.selection.value))
  }

  predicate FieldPoliciesKeyed(keys: KeyColumns, fields: Fields)
    decreases fields
  {
    match fields
    case NoFields => true
    case ExprField(_, _, rest) => FieldPoliciesKeyed(keys, rest)
    case QueryField(_, node, rest) => PoliciesKeyed(keys, node) && FieldPoliciesKeyed(keys, rest)
  }

  lemma {:induction false} StreamExtends(a: seq<Op>, b: seq<Op>, i: nat)
    requires Ordered(a) && Ordered(b) && Extends(a, b) && i < |a|
    ensures StreamOf(b, i) == StreamOf(a, i)
    decreases i
  {
    assert OrderedAt(a, i);
    match a[i]
    case RootMatchOp(_, input) =>
      assert Inputs(a[i])[0] == input;
      StreamExtends(a, b, input);
    case AuthorizeOp(_, _, children, _) =>
      assert Inputs(a[i])[0] == children;
      StreamExtends(a, b, children);
    case FilterOp(_, input) =>
      assert Inputs(a[i])[0] == input;
      StreamExtends(a, b, input);
    case TopKOp(_, _, input) =>
      assert Inputs(a[i])[0] == input;
      StreamExtends(a, b, input);
    case _ =>
  }

  // What may be appended, by the streams it reads.
  ghost predicate Appendable(keys: KeyColumns, ops: seq<Op>, op: Op)
    requires Ordered(ops)
  {
    && (forall p :: 0 <= p < |Inputs(op)| ==> Inputs(op)[p] < |ops|)
    && match op
       case RootMatchOp(_, input) => Inputs(op)[0] == input && StreamOf(ops, input).Rows?
       case AuthorizeOp(_, parentColumn, children, allowed) =>
         && Inputs(op)[0] == children && Inputs(op)[1] == allowed
         && StreamOf(ops, allowed).Rows? && StreamOf(ops, allowed).source in keys && keys[StreamOf(ops, allowed).source] == [parentColumn]
       case FilterOp(_, input) => Inputs(op)[0] == input
       case TopKOp(_, _, input) => Inputs(op)[0] == input && !StreamOf(ops, input).Other?
       case _ => true
  }

  ghost function AppendedStream(keys: KeyColumns, ops: seq<Op>, op: Op): Stream
    requires Ordered(ops) && Appendable(keys, ops, op)
  {
    match op
    case InputOp(source) => Rows(source)
    case RootMatchOp(_, input) => StreamOf(ops, input)
    case CorrelateOp(_, _, _) => Joined
    case AuthorizeOp(_, _, children, _) => StreamOf(ops, children)
    case FilterOp(_, input) => StreamOf(ops, input)
    case TopKOp(_, _, input) => StreamOf(ops, input)
    case _ => Other
  }

  lemma AppendGuarded(keys: KeyColumns, ops: seq<Op>, op: Op)
    requires Guarded(keys, ops) && Appendable(keys, ops, op)
    ensures Guarded(keys, ops + [op]) && StreamOf(ops + [op], |ops|) == AppendedStream(keys, ops, op)
    ensures Extends(ops, ops + [op]) && forall i: nat :: i < |ops| ==> StreamOf(ops + [op], i) == StreamOf(ops, i)
  {
    var longer := ops + [op];
    assert Grows(ops, ops);
    AppendGrows(ops, ops, op);
    forall i: nat | i < |ops| ensures StreamOf(longer, i) == StreamOf(ops, i) {
      StreamExtends(ops, longer, i);
    }
    forall i | 0 <= i < |longer| ensures GuardedAt(keys, longer, i) {
      assert OrderedAt(longer, i);
      if i < |ops| {
        assert GuardedAt(keys, ops, i) && OrderedAt(ops, i);
      }
    }
  }

  lemma SourceGuarded(keys: KeyColumns, node: Node, parents: Option<nat>, ops: seq<Op>)
    requires Guarded(keys, ops) && ops != [] && (parents.Some? ==> parents.value < |ops|)
    ensures var (ops', matches, _) := CompileSource(node, parents, ops);
      && Guarded(keys, ops') && Extends(ops, ops') && matches < |ops'|
      && StreamOf(ops', matches) == if parents.None? then Rows(node.source) else Joined
  {
    hide Guarded, StreamOf;
    GuardedOrdered(keys, ops);
    var ops1 := ops + [InputOp(node.source)];
    AppendGuarded(keys, ops, InputOp(node.source));
    GuardedOrdered(keys, ops1);
    match parents
    case None =>
      AppendGuarded(keys, ops1, RootMatchOp(node.source, |ops|));
    case Some(p) =>
      var join := CorrelateOp(node, p, |ops|);
      AppendGuarded(keys, ops1, join);
      GuardedOrdered(keys, ops1 + [join]);
      AppendGuarded(keys, ops1 + [join], GroupsOp(p));
  }

  lemma {:induction false} AuthorizationGuarded(keys: KeyColumns, node: Node, matches: nat, ops: seq<Op>)
    requires Guarded(keys, ops) && matches < |ops| && PoliciesKeyed(keys, node)
    ensures var (ops', m) := CompileAuthorization(node, matches, ops);
      Guarded(keys, ops') && Ordered(ops) && Extends(ops, ops') && m < |ops'| && StreamOf(ops', m) == StreamOf(ops, matches)
    decreases node, 0
  {
    hide Guarded, StreamOf;
    GuardedOrdered(keys, ops);
    if node.authorization.Some? {
      var a := node.authorization.value;
      MatchesGuarded(keys, a.parent, None, ops);
      var (ops1, allowed, _) := CompileMatches(a.parent, None, ops);
      GuardedOrdered(keys, ops1);
      StreamExtends(ops, ops1, matches);
      AppendGuarded(keys, ops1, AuthorizeOp(a.childColumn, a.parentColumn, matches, allowed));
    }
  }

  lemma {:induction false} MatchesGuarded(keys: KeyColumns, node: Node, parents: Option<nat>, ops: seq<Op>)
    requires Guarded(keys, ops) && ops != [] && (parents.Some? ==> parents.value < |ops|) && PoliciesKeyed(keys, node)
    ensures var (ops', matches, groups) := CompileMatches(node, parents, ops);
      && Guarded(keys, ops') && Extends(ops, ops') && matches < |ops'| && groups < |ops'|
      && StreamOf(ops', matches) == if parents.None? then Rows(node.source) else Joined
    decreases node, 1
  {
    hide Guarded, StreamOf;
    GuardedOrdered(keys, ops);
    MatchesGrow(node, parents, ops) by {
      assert Grows(ops, ops);
    }
    var (ops1, joined, groups) := CompileSource(node, parents, ops);
    SourceGuarded(keys, node, parents, ops);
    var (ops2, matches) := CompileAuthorization(node, joined, ops1);
    AuthorizationGuarded(keys, node, joined, ops1);
    var filter := FilterOp(node.filters, matches);
    GuardedOrdered(keys, ops2);
    AppendGuarded(keys, ops2, filter);
    GuardedOrdered(keys, ops2 + [filter]);
    AppendGuarded(keys, ops2 + [filter], TopKOp(node.order, node.limit, |ops2|));
  }

  lemma {:induction false} NodeGuarded(keys: KeyColumns, node: Node, parents: Option<nat>, ops: seq<Op>)
    requires Guarded(keys, ops) && ops != [] && (parents.Some? ==> parents.value < |ops|) && PoliciesKeyed(keys, node)
    ensures Guarded(keys, CompileNode(node, parents, ops).0) && Extends(ops, CompileNode(node, parents, ops).0)
    decreases node, 2
  {
    hide Guarded, StreamOf;
    GuardedOrdered(keys, ops);
    MatchesGuarded(keys, node, parents, ops);
    var (ops1, matches, groups) := CompileMatches(node, parents, ops);
    GuardedOrdered(keys, ops1);
    if node.cardinality.Count? || node.cardinality.Exists? {
      AppendGuarded(keys, ops1, ReduceOp(node.cardinality.Exists?, matches, groups));
    } else {
      var ops2 := ops1 + [ProjectOp(node.selection, matches)];
      AppendGuarded(keys, ops1, ProjectOp(node.selection, matches));
      GuardedOrdered(keys, ops2);
      if node.selection.None? {
        AppendGuarded(keys, ops2, CardinalityOp(node.order, node.cardinality, |ops1|, groups));
      } else {
        FieldsGuarded(keys, node.selection.value, matches, |ops1|, ops2);
        var (ops3, projected) := CompileFields(node.selection.value, matches, |ops1|, ops2);
        GuardedOrdered(keys, ops3);
        AppendGuarded(keys, ops3, CardinalityOp(node.order, node.cardinality, projected, groups));
      }
    }
  }

  lemma {:induction false} FieldsGuarded(keys: KeyColumns, fields: Fields, matches: nat, projected: nat, ops: seq<Op>)
    requires Guarded(keys, ops) && matches < |ops| && projected < |ops| && FieldPoliciesKeyed(keys, fields)
    ensures var (ops', result) := CompileFields(fields, matches, projected, ops);
      Guarded(keys, ops') && Extends(ops, ops') && result < |ops'|
    decreases fields
  {
    hide Guarded, StreamOf;
    match fields
    case NoFields =>
    case ExprField(_, _, rest) => FieldsGuarded(keys, rest, matches, projected, ops);
    case QueryField(name, node, rest) =>
      NodeGuarded(keys, node, Some(matches), ops);
      var (ops1, nested) := CompileNode(node, Some(matches), ops);
      GuardedOrdered(keys, ops);
      GuardedOrdered(keys, ops1);
      NodeGrows(node, Some(matches), ops) by {
        assert Grows(ops, ops);
      }
      AppendGuarded(keys, ops1, NestOp(name, projected, nested));
      FieldsGuarded(keys, rest, matches, |ops1|, ops1 + [NestOp(name, projected, nested)]);
  }

  // ---------- the theorem ----------

  /** Handlers equal recompute: in any run of the handlers of a compiled query whose policies are keyed, every handler gets
      batches it is ready for, and once no batch is waiting the network has emitted the value of the query. */
  lemma HandlersEqualRecompute(keys: KeyColumns, node: Node, run: seq<Config>, db: Database)
    requires WellScoped(node, false) && PoliciesKeyed(keys, node)
    requires HandlerRun(keys, Compile(node).0, run)
    requires var c := run[|run| - 1]; Quiet(c) && c.external != [] && c.external[0] == RootParents && Holds(Compile(node).0, c, db)
    ensures Run(Compile(node).0, run) && Compile(node).1 < |Compile(node).0|
    ensures Emitted(Compile(node).0, run[|run| - 1], Compile(node).1)
         == map[RootGroup := MaterializedRecord(RootGroup, Evaluate(node, db, map[]))]
  {
    hide Evaluate, Quiet, HandlerStep, Guarded, InStep, Fine;
    CompiledIsGuarded(keys, node);
    HandlerRunIsRun(keys, Compile(node).0, run);
    IncrementalEqualsRecompute(node, run, db);
  }

  /** At any moment of such a run, whatever is next in a queue meets what its handler requires. */
  lemma DeliveriesAreReady(keys: KeyColumns, node: Node, run: seq<Config>, k: nat, i: nat, p: nat)
    requires PoliciesKeyed(keys, node) && HandlerRun(keys, Compile(node).0, run) && k < |run|
    requires i < |Compile(node).0| && p < |Inputs(Compile(node).0[i])| && run[k].queues[i][p] != []
    ensures Ready(Compile(node).0[i], run[k].ins[i], p, run[k].queues[i][p][0])
  {
    hide HandlerStep, Guarded, InStep, Fine, Ready;
    var ops, start := Compile(node).0, run[..k + 1];
    CompiledIsGuarded(keys, node);
    forall j | 0 <= j < |start| - 1 ensures HandlerStep(keys, ops, start[j], start[j + 1]) {
      assert HandlerStep(keys, ops, run[j], run[j + 1]);
    }
    HandlerRunIsRun(keys, ops, start);
    NextIsReady(keys, ops, run[k], i, p);
  }

  lemma CompiledIsGuarded(keys: KeyColumns, node: Node)
    requires PoliciesKeyed(keys, node)
    ensures Guarded(keys, Compile(node).0)
  {
    var base := [RootGroupsOp];
    assert Guarded(keys, base) by {
      assert OrderedAt(base, 0);
      assert GuardedAt(keys, base, 0);
    }
    NodeGuarded(keys, node, None, base);
  }
}
