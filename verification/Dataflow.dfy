// The incremental query engine (dataflow.ts) as a network of operators joined by queues of change
// batches. Every operator keeps the collections its inputs have sent it; its contract is that
// what it has emitted always sums to a fixed function of those collections.
module Dataflow {
  import opened Query

  // ---------- changes ----------

  datatype Change = Change(id: Id, value: Rec, diff: int)

  type Batch = seq<Change>

  function ApplyChange(m: Coll, c: Change): Coll {
    if c.diff == -1 then m - {c.id} else m[c.id := c.value]
  }

  function Apply(m: Coll, batch: Batch): Coll
    decreases batch
  {
    if batch == [] then m else Apply(ApplyChange(m, batch[0]), batch[1..])
  }

  // A deletion carries the value stored under its id; an insertion meets no stored value.
  predicate Fits(m: Coll, c: Change) {
    || (c.diff == -1 && c.id in m && m[c.id] == c.value)
    || (c.diff == 1 && c.id !in m)
  }

  predicate Valid(m: Coll, batch: Batch)
    decreases batch
  {
    batch != [] ==> Fits(m, batch[0]) && Valid(ApplyChange(m, batch[0]), batch[1..])
  }

  // The batch is a valid change from m to m'.
  predicate Tracks(m: Coll, batch: Batch, m': Coll) {
    Valid(m, batch) && Apply(m, batch) == m'
  }

  lemma {:induction false} TracksConcat(m: Coll, a: Batch, m': Coll, b: Batch, m'': Coll)
    requires Tracks(m, a, m') && Tracks(m', b, m'')
    ensures Tracks(m, a + b, m'')
    decreases a
  {
    if a == [] {
      assert a + b == b;
    } else {
      assert (a + b)[1..] == a[1..] + b;
      TracksConcat(ApplyChange(m, a[0]), a[1..], m', b, m'');
    }
  }

  function ApplyAll(m: Coll, batches: seq<Batch>): Coll
    decreases batches
  {
    if batches == [] then m else ApplyAll(Apply(m, batches[0]), batches[1..])
  }

  predicate ValidAll(m: Coll, batches: seq<Batch>)
    decreases batches
  {
    batches != [] ==> Valid(m, batches[0]) && ValidAll(Apply(m, batches[0]), batches[1..])
  }

  lemma {:induction false} AppendBatch(m: Coll, batches: seq<Batch>, batch: Batch)
    requires ValidAll(m, batches) && Valid(ApplyAll(m, batches), batch)
    ensures ValidAll(m, batches + [batch])
    ensures ApplyAll(m, batches + [batch]) == Apply(ApplyAll(m, batches), batch)
    decreases batches
  {
    var longer := batches + [batch];
    if batches == [] {
      assert longer == [batch] && longer[1..] == [];
    } else {
      assert longer[0] == batches[0] && longer[1..] == batches[1..] + [batch];
      AppendBatch(Apply(m, batches[0]), batches[1..], batch);
    }
  }

  // ---------- operators ----------

  // Operator inputs are indices of earlier operators. CorrelateOp and AuthorizeOp are a
  // JoinOperator together with the two ArrangeOperators that feed it.
  datatype Op =
    | RootGroupsOp
    | InputOp(source: SourceId)
    | RootMatchOp(source: SourceId, input: nat)
    | CorrelateOp(node: Node, parents: nat, rows: nat)
    | AuthorizeOp(childColumn: string, parentColumn: string, children: nat, allowed: nat)
    | FilterOp(filters: seq<Expr>, input: nat)
    | TopKOp(order: seq<OrderTerm>, limit: Option<nat>, input: nat)
    | GroupsOp(parents: nat)
    | ProjectOp(selection: Option<Fields>, input: nat)
    | NestOp(property: string, left: nat, right: nat)
    | ReduceOp(existence: bool, input: nat, groups: nat)
    | CardinalityOp(order: seq<OrderTerm>, cardinality: Cardinality, items: nat, groups: nat)

  predicate External(op: Op) {
    op.RootGroupsOp? || op.InputOp?
  }

  function Inputs(op: Op): seq<nat> {
    match op
    case RootGroupsOp => []
    case InputOp(_) => []
    case RootMatchOp(_, input) => [input]
    case CorrelateOp(_, parents, rows) => [parents, rows]
    case AuthorizeOp(_, _, children, allowed) => [children, allowed]
    case FilterOp(_, input) => [input]
    case TopKOp(_, _, input) => [input]
    case GroupsOp(parents) => [parents]
    case ProjectOp(_, input) => [input]
    case NestOp(_, left, right) => [left, right]
    case ReduceOp(_, input, groups) => [input, groups]
    case CardinalityOp(_, _, items, groups) => [items, groups]
  }

  datatype Correlation = Correlation(child: Expr, parent: Expr)

  // The first equality filter with exactly one side that reads the node's own source.
  function CorrelationOf(filters: seq<Expr>, source: SourceId): Option<Correlation> {
    if filters == [] then None
    else
      var f := filters[0];
      if f.Comparison? && f.op.Eq? && References(f.left, source) != References(f.right, source)
      then
        if References(f.left, source) then Some(Correlation(f.left, f.right))
        else Some(Correlation(f.right, f.left))
      else CorrelationOf(filters[1..], source)
  }

  function ParentKey(node: Node, parent: Rec): Value {
    match CorrelationOf(node.filters, node.source)
    case None => Undefined
    case Some(key) => EvalExpr(key.parent, parent.context)
  }

  function ChildKey(node: Node, child: Rec): Value {
    match CorrelationOf(node.filters, node.source)
    case None => Undefined
    case Some(key) => EvalExpr(key.child, map[node.source := child.row])
  }

  function Correlated(node: Node, parents: Coll, rows: Coll): Coll {
    map pid, rid | pid in parents && rid in rows && ParentKey(node, parents[pid]) == ChildKey(node, rows[rid])
      :: MatchId(pid, node.table, rid) := MatchOf(pid, node.source, parents[pid].context, rows[rid])
  }

  function AuthorizedChildren(childColumn: string, parentColumn: string, children: Coll, allowed: Coll): Coll {
    map id | id in children
      && exists a :: a in allowed && ColumnOf(allowed[a].row, parentColumn) == ColumnOf(children[id].row, childColumn)
      :: children[id]
  }

  function GroupOf(m: Coll, group: Id): Coll {
    map id | id in m && m[id].group == group :: m[id]
  }

  ghost function TopK(order: seq<OrderTerm>, limit: Option<nat>, m: Coll): Coll {
    map id | id in m && id in Take(limit, Sorted(order, GroupOf(m, m[id].group))) :: m[id]
  }

  function ExprValues(fields: Fields, ctx: Context): map<string, Result> {
    match fields
    case NoFields => map[]
    case ExprField(name, expr, rest) => map[name := Scalar(EvalExpr(expr, ctx))] + ExprValues(rest, ctx)
    case QueryField(_, _, rest) => ExprValues(rest, ctx)
  }

  function ProjectValue(selection: Option<Fields>, m: Rec): Result {
    if selection.None? then RowOf(m.row) else Object(ExprValues(selection.value, m.context))
  }

  function NestValue(property: string, left: Result, right: Result): Result {
    if left.Failed? || right.Failed? || !left.Object? then Failed
    else Object(left.fields[property := right])
  }

  function Nested(property: string, left: Coll, right: Coll): Coll {
    map id | id in left && id in right
      :: left[id].(value := NestValue(property, left[id].value, right[id].value))
  }

  function ReduceValue(existence: bool, m: Coll, group: Id): Result {
    CountResult(existence, |GroupOf(m, group)|)
  }

  function ValuesAt(m: Coll, ids: seq<Id>): seq<Result> {
    seq(|ids|, i requires 0 <= i < |ids| => if ids[i] in m then m[ids[i]].value else Failed)
  }

  ghost function Materialize(order: seq<OrderTerm>, cardinality: Cardinality, items: Coll, group: Id): Result {
    var entries := GroupOf(items, group);
    Conclude(cardinality, ValuesAt(entries, Sorted(order, entries)))
  }

  function RootMatches(source: SourceId, rows: Coll): Coll {
    map id | id in rows :: MatchOf(RootGroup, source, map[], rows[id])
  }

  function Passed(filters: seq<Expr>, m: Coll): Coll {
    map id | id in m && Passes(filters, m[id].context) :: m[id]
  }

  function Groups(parents: Coll): Coll {
    map id | id in parents :: GroupRecord(parents[id].group)
  }

  function Projected(selection: Option<Fields>, m: Coll): (items: Coll)
    ensures items.Keys == m.Keys
  {
    map id | id in m :: m[id].(value := ProjectValue(selection, m[id]))
  }

  function Reduced(existence: bool, m: Coll, groups: Coll): Coll {
    map g | g in groups :: MaterializedRecord(groups[g].group, ReduceValue(existence, m, g))
  }

  ghost function Concluded(order: seq<OrderTerm>, cardinality: Cardinality, items: Coll, groups: Coll): Coll {
    map g | g in groups :: MaterializedRecord(groups[g].group, Materialize(order, cardinality, items, g))
  }

  // What the operator has emitted, as a function of what it has received.
  ghost function Denote(op: Op, ins: seq<Coll>): Coll
    requires |ins| == |Inputs(op)|
  {
    match op
    case RootGroupsOp => map[]
    case InputOp(_) => map[]
    case RootMatchOp(source, _) => RootMatches(source, ins[0])
    case CorrelateOp(node, _, _) => Correlated(node, ins[0], ins[1])
    case AuthorizeOp(childColumn, parentColumn, _, _) =>
      AuthorizedChildren(childColumn, parentColumn, ins[0], ins[1])
    case FilterOp(filters, _) => Passed(filters, ins[0])
    case TopKOp(order, limit, _) => TopK(order, limit, ins[0])
    case GroupsOp(_) => Groups(ins[0])
    case ProjectOp(selection, _) => Projected(selection, ins[0])
    case NestOp(property, _, _) => Nested(property, ins[0], ins[1])
    case ReduceOp(existence, _, _) => Reduced(existence, ins[0], ins[1])
    case CardinalityOp(order, cardinality, _, _) => Concluded(order, cardinality, ins[0], ins[1])
  }

  lemma DenoteEmpty(op: Op, ins: seq<Coll>)
    requires |ins| == |Inputs(op)| && forall p :: 0 <= p < |ins| ==> ins[p] == map[]
    ensures Denote(op, ins) == map[]
  {
  }

  // ---------- the network ----------

  ghost predicate OrderedAt(ops: seq<Op>, i: nat)
    requires i < |ops|
  {
    forall p :: 0 <= p < |Inputs(ops[i])| ==> Inputs(ops[i])[p] < i
  }

  // Every operator reads earlier operators.
  ghost predicate Ordered(ops: seq<Op>) {
    forall i :: 0 <= i < |ops| ==> OrderedAt(ops, i)
  }

  // ins: what each operator received on each port; queues: batches emitted but not yet received;
  // external: what the external operators have emitted.
  datatype Config = Config(ins: seq<seq<Coll>>, queues: seq<seq<seq<Batch>>>, external: seq<Coll>)

  ghost predicate Shaped(ops: seq<Op>, c: Config) {
    && |c.ins| == |c.queues| == |c.external| == |ops|
    && forall i :: 0 <= i < |ops| ==> |c.ins[i]| == |c.queues[i]| == |Inputs(ops[i])|
  }

  ghost function Emitted(ops: seq<Op>, c: Config, i: nat): Coll
    requires Shaped(ops, c) && i < |ops|
  {
    if External(ops[i]) then c.external[i] else Denote(ops[i], c.ins[i])
  }

  // Queue a batch on every port fed by the producer; empty batches are not sent.
  ghost predicate Sent(ops: seq<Op>, q: seq<seq<seq<Batch>>>, producer: nat, batch: Batch, q': seq<seq<seq<Batch>>>)
    requires |q| == |ops| && forall i :: 0 <= i < |ops| ==> |q[i]| == |Inputs(ops[i])|
  {
    && |q'| == |q|
    && (forall i :: 0 <= i < |q| ==> |q'[i]| == |q[i]|)
    && forall i, p :: 0 <= i < |q| && 0 <= p < |q[i]| ==>
         q'[i][p] == if Inputs(ops[i])[p] == producer && batch != [] then q[i][p] + [batch] else q[i][p]
  }

  // A table source, or the constant root group, emits a change batch.
  ghost predicate ExternalStep(ops: seq<Op>, c: Config, c': Config, i: nat, batch: Batch)
    requires Shaped(ops, c)
  {
    && i < |ops| && External(ops[i])
    && Valid(c.external[i], batch)
    && c'.ins == c.ins
    && c'.external == c.external[i := Apply(c.external[i], batch)]
    && Sent(ops, c.queues, i, batch, c'.queues)
  }

  ghost function Received(c: Config, i: nat, p: nat): seq<Coll>
    requires i < |c.ins| == |c.queues| && p < |c.ins[i]| == |c.queues[i]| && c.queues[i][p] != []
  {
    c.ins[i][p := Apply(c.ins[i][p], c.queues[i][p][0])]
  }

  // Operator i takes the oldest batch waiting on port p and emits any batch that meets its contract.
  ghost predicate DeliverStep(ops: seq<Op>, c: Config, c': Config, i: nat, p: nat, batch: Batch)
    requires Shaped(ops, c)
  {
    && i < |ops| && !External(ops[i]) && p < |Inputs(ops[i])|
    && c.queues[i][p] != []
    && c'.ins == c.ins[i := Received(c, i, p)]
    && c'.external == c.external
    && Tracks(Denote(ops[i], c.ins[i]), batch, Denote(ops[i], Received(c, i, p)))
    && Sent(ops, c.queues[i := c.queues[i][p := c.queues[i][p][1..]]], i, batch, c'.queues)
  }

  ghost predicate Step(ops: seq<Op>, c: Config, c': Config)
    requires Shaped(ops, c)
  {
    || (exists i, batch :: ExternalStep(ops, c, c', i, batch))
    || (exists i, p, batch :: DeliverStep(ops, c, c', i, p, batch))
  }

  ghost predicate Initial(ops: seq<Op>, c: Config) {
    && Shaped(ops, c)
    && (forall i :: 0 <= i < |ops| ==> c.external[i] == map[])
    && (forall i, p :: 0 <= i < |ops| && 0 <= p < |c.ins[i]| ==> c.ins[i][p] == map[])
    && (forall i, p :: 0 <= i < |ops| && 0 <= p < |c.queues[i]| ==> c.queues[i][p] == [])
  }

  ghost predicate Run(ops: seq<Op>, run: seq<Config>) {
    && run != [] && Initial(ops, run[0])
    && (forall k :: 0 <= k < |run| ==> Shaped(ops, run[k]))
    && (forall k :: 0 <= k < |run| - 1 ==> Step(ops, run[k], run[k + 1]))
  }

  ghost predicate Quiet(c: Config) {
    forall i, p :: 0 <= i < |c.queues| && 0 <= p < |c.queues[i]| ==> c.queues[i][p] == []
  }

  // What an operator received plus what is waiting for it is what its producer emitted.
  ghost predicate InStep(ops: seq<Op>, c: Config)
    requires Ordered(ops) && Shaped(ops, c)
  {
    forall i, p :: 0 <= i < |ops| && 0 <= p < |Inputs(ops[i])| ==>
      && OrderedAt(ops, i)
      && ValidAll(c.ins[i][p], c.queues[i][p])
      && ApplyAll(c.ins[i][p], c.queues[i][p]) == Emitted(ops, c, Inputs(ops[i])[p])
  }

  lemma ExternalStepKeepsInStep(ops: seq<Op>, c: Config, c': Config, i: nat, batch: Batch)
    requires Ordered(ops) && Shaped(ops, c) && Shaped(ops, c') && InStep(ops, c)
    requires ExternalStep(ops, c, c', i, batch)
    ensures InStep(ops, c')
  {
    forall j, p | 0 <= j < |ops| && 0 <= p < |Inputs(ops[j])|
      ensures OrderedAt(ops, j)
      ensures ValidAll(c'.ins[j][p], c'.queues[j][p])
      ensures ApplyAll(c'.ins[j][p], c'.queues[j][p]) == Emitted(ops, c', Inputs(ops[j])[p])
    {
      if Inputs(ops[j])[p] == i {
        AppendBatch(c.ins[j][p], c.queues[j][p], batch);
      }
    }
  }

  lemma DeliverStepKeepsInStep(ops: seq<Op>, c: Config, c': Config, i: nat, p: nat, batch: Batch)
    requires Ordered(ops) && Shaped(ops, c) && Shaped(ops, c') && InStep(ops, c)
    requires DeliverStep(ops, c, c', i, p, batch)
    ensures InStep(ops, c')
  {
    var popped := c.queues[i := c.queues[i][p := c.queues[i][p][1..]]];
    forall j, r | 0 <= j < |ops| && 0 <= r < |Inputs(ops[j])|
      ensures OrderedAt(ops, j)
      ensures ValidAll(c'.ins[j][r], c'.queues[j][r])
      ensures ApplyAll(c'.ins[j][r], c'.queues[j][r]) == Emitted(ops, c', Inputs(ops[j])[r])
    {
      var producer := Inputs(ops[j])[r];
      assert ValidAll(c'.ins[j][r], popped[j][r])
             && ApplyAll(c'.ins[j][r], popped[j][r]) == Emitted(ops, c, producer);
      if producer == i && batch != [] {
        AppendBatch(c'.ins[j][r], popped[j][r], batch);
      }
    }
  }

  lemma {:induction false} RunKeepsInStep(ops: seq<Op>, run: seq<Config>)
    requires Ordered(ops) && Run(ops, run)
    ensures InStep(ops, run[|run| - 1])
  {
    var last := run[|run| - 1];
    if |run| == 1 {
      forall i | 0 <= i < |ops| ensures Emitted(ops, last, i) == map[] {
        DenoteEmpty(ops[i], last.ins[i]);
      }
    } else {
      var before := run[..|run| - 1];
      assert forall k :: 0 <= k < |before| - 1 ==> Step(ops, run[k], run[k + 1]);
      RunKeepsInStep(ops, before);
      var c := before[|before| - 1];
      assert Step(ops, c, last);
      if i, batch :| ExternalStep(ops, c, last, i, batch) {
        ExternalStepKeepsInStep(ops, c, last, i, batch);
      } else {
        var i, p, batch :| DeliverStep(ops, c, last, i, p, batch);
        DeliverStepKeepsInStep(ops, c, last, i, p, batch);
      }
    }
  }

  // An assignment of collections to operators that agrees with every operator's function.
  ghost predicate Solution(ops: seq<Op>, out: seq<Coll>) {
    && |out| == |ops| && Ordered(ops)
    && forall i :: 0 <= i < |ops| ==> SolvedAt(ops, out, i)
  }

  ghost predicate SolvedAt(ops: seq<Op>, out: seq<Coll>, i: nat)
    requires i < |ops| <= |out|
  {
    OrderedAt(ops, i) && (!External(ops[i]) ==> out[i] == Denote(ops[i], InputsOf(ops, out, i)))
  }

  ghost function InputsOf(ops: seq<Op>, out: seq<Coll>, i: nat): seq<Coll>
    requires i < |ops| <= |out| && OrderedAt(ops, i)
  {
    seq(|Inputs(ops[i])|, p requires 0 <= p < |Inputs(ops[i])| => out[Inputs(ops[i])[p]])
  }

  /** Whatever the schedule, once no batch is waiting every operator has emitted its function
      of its producers' emissions. */
  lemma QuietRunSolves(ops: seq<Op>, run: seq<Config>)
    requires Ordered(ops) && Run(ops, run) && Quiet(run[|run| - 1])
    ensures Solution(ops, seq(|ops|, i requires 0 <= i < |ops| => Emitted(ops, run[|run| - 1], i)))
  {
    var c := run[|run| - 1];
    RunKeepsInStep(ops, run);
    var out := seq(|ops|, i requires 0 <= i < |ops| => Emitted(ops, c, i));
    forall i | 0 <= i < |ops| ensures SolvedAt(ops, out, i) {
      assert OrderedAt(ops, i);
      forall p | 0 <= p < |Inputs(ops[i])| ensures c.ins[i][p] == InputsOf(ops, out, i)[p] {
        assert c.queues[i][p] == [];
      }
      assert c.ins[i] == InputsOf(ops, out, i);
    }
  }
}
