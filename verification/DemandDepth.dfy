// Where demands come from, in the compiled network: a change of one table source reaches only the
// operators that read it, so it raises demands for more deeply nested queries only.
module DemandDepth {
  import opened Query
  import opened Dataflow
  import opened DataflowCompiler
  import opened Demands
  import opened DemandFlow
  import opened DemandNetwork

  // ---------- what an operator reads ----------

  // The table sources upstream of an operator; no operator has more than two inputs.
  ghost function ReadsOf(ops: seq<Op>, i: nat): set<SourceId>
    requires Ordered(ops) && i < |ops|
    decreases i
  {
    assert OrderedAt(ops, i);
    var ins := Inputs(ops[i]);
    (if ops[i].InputOp? then {ops[i].source} else {})
    + (if |ins| > 0 then ReadsOf(ops, ins[0]) else {})
    + (if |ins| > 1 then ReadsOf(ops, ins[1]) else {})
  }

  lemma ReadsInput(ops: seq<Op>, i: nat, p: nat)
    requires Ordered(ops) && i < |ops| && p < |Inputs(ops[i])|
    ensures Inputs(ops[i])[p] < i && ReadsOf(ops, Inputs(ops[i])[p]) <= ReadsOf(ops, i)
  {
    AtMostTwo(ops[i]);
    hide Inputs;
    assert OrderedAt(ops, i);
    assert p == 0 || p == 1;
  }

  lemma AtMostTwo(op: Op)
    ensures |Inputs(op)| <= 2 && (op.InputOp? ==> Inputs(op) == [])
  {
  }

  lemma ReadsSource(ops: seq<Op>, i: nat)
    requires Ordered(ops) && i < |ops| && ops[i].InputOp?
    ensures ReadsOf(ops, i) == {ops[i].source}
  {
  }

  ghost function ParentReads(ops: seq<Op>, parents: Option<nat>): set<SourceId>
    requires Ordered(ops)
  {
    if parents.Some? && parents.value < |ops| then ReadsOf(ops, parents.value) else {}
  }

  function PolicySources(node: Node): set<SourceId> {
    if node.authorization.Some? then Sources(node.authorization.value.parent) else {}
  }

  lemma ReadsUnary(ops: seq<Op>, all: seq<Op>, i: nat, a: nat)
    requires Ordered(all) && Extends(ops, all) && i < |ops| && Inputs(ops[i]) == [a] && !ops[i].InputOp?
    ensures i < |all| && a < |all| && ReadsOf(all, i) == ReadsOf(all, a)
  {
    assert OrderedAt(all, i) && Inputs(ops[i])[0] == a;
  }

  lemma ReadsBinary(ops: seq<Op>, all: seq<Op>, i: nat, a: nat, b: nat)
    requires Ordered(all) && Extends(ops, all) && i < |ops| && Inputs(ops[i]) == [a, b] && !ops[i].InputOp?
    ensures i < |all| && a < |all| && b < |all| && ReadsOf(all, i) == ReadsOf(all, a) + ReadsOf(all, b)
  {
    assert OrderedAt(all, i) && Inputs(ops[i])[0] == a && Inputs(ops[i])[1] == b;
  }

  lemma SourceReads(node: Node, parents: Option<nat>, ops: seq<Op>, all: seq<Op>)
    requires Ordered(all) && Extends(CompileSource(node, parents, ops).0, all)
    ensures var joined := CompileSource(node, parents, ops).1;
      joined < |all| && ReadsOf(all, joined) <= {node.source} + ParentReads(all, parents)
  {
    hide Extends, ReadsOf, Ordered;
    var longer := CompileSource(node, parents, ops).0;
    assert longer[|ops|] == InputOp(node.source);
    ExtendedHere(longer, all, |ops|);
    ReadsSource(all, |ops|);
    match parents
    case None => ReadsUnary(longer, all, |ops| + 1, |ops|);
    case Some(q) =>
      assert longer[|ops| + 1] == CorrelateOp(node, q, |ops|);
      ReadsBinary(longer, all, |ops| + 1, q, |ops|);
  }

  lemma ExtendedHere(ops: seq<Op>, all: seq<Op>, i: nat)
    requires Extends(ops, all) && i < |ops|
    ensures i < |all| && all[i] == ops[i]
  {
  }

  lemma {:induction false} PolicyReads(node: Node, matches: nat, ops: seq<Op>, all: seq<Op>)
    requires Grows(ops, ops) && ops != [] && matches < |ops|
    requires Ordered(all) && Extends(CompileAuthorization(node, matches, ops).0, all)
    ensures var m := CompileAuthorization(node, matches, ops).1;
      m < |all| && matches < |all| && ReadsOf(all, m) <= ReadsOf(all, matches) + PolicySources(node)
    decreases node, 0
  {
    if node.authorization.Some? {
      var a := node.authorization.value;
      var (ops1, allowed, groups) := CompileMatches(a.parent, None, ops);
      var op := AuthorizeOp(a.childColumn, a.parentColumn, matches, allowed);
      assert Extends(ops1, ops1 + [op]);
      ExtendsTransitive(ops1, ops1 + [op], all);
      MatchesRead(a.parent, None, ops, all);
      ReadsBinary(ops1 + [op], all, |ops1|, matches, allowed);
    }
  }

  lemma OwnInSources(node: Node)
    ensures PolicySources(node) + {node.source} <= Sources(node)
  {
  }

  /** The matches of a query depend on its own source, its policy's sources and its parents' matches only. */
  lemma {:induction false} MatchesRead(node: Node, parents: Option<nat>, ops: seq<Op>, all: seq<Op>)
    requires Grows(ops, ops) && ops != [] && (parents.Some? ==> parents.value < |ops|)
    requires Ordered(all) && Extends(CompileMatches(node, parents, ops).0, all)
    ensures var matches := CompileMatches(node, parents, ops).1;
      && matches < |all| && ReadsOf(all, matches) <= {node.source} + PolicySources(node) + ParentReads(all, parents)
      && PolicySources(node) + {node.source} <= Sources(node)
    decreases node, 1
  {
    hide Extends, Ordered, ReadsOf, CompileSource, CompileAuthorization, Sources;
    OwnInSources(node);
    var (ops1, joined, groups) := CompileSource(node, parents, ops);
    var (ops2, matches) := CompileAuthorization(node, joined, ops1);
    var f, k := FilterOp(node.filters, matches), TopKOp(node.order, node.limit, |ops2|);
    var ops3 := ops2 + [f] + [k];
    SourceGrows(node, parents, ops);
    AuthorizationGrows(node, joined, ops1);
    AppendExtends(ops2, f);
    AppendExtends(ops2 + [f], k);
    ExtendsTransitive(ops2, ops2 + [f], ops3);
    ExtendsTransitive(ops2, ops3, all);
    GrowsFacts(ops1, ops2);
    ExtendsTransitive(ops1, ops2, all);
    SourceReads(node, parents, ops, all);
    PolicyReads(node, joined, ops1, all);
    ReadsUnary(ops3, all, |ops2|, matches);
    ReadsUnary(ops3, all, |ops2| + 1, |ops2|);
  }

  // ---------- demands of deeper queries only ----------

  // If the nested query's parents read the source, the query nests deeper than the source.
  ghost predicate Deeper(all: seq<Op>, i: nat, x: SourceId, bound: nat, depths: map<SourceId, nat>)
    requires Ordered(all) && i < |all|
  {
    all[i].CorrelateOp? ==>
      && all[i].node.source in depths && all[i].parents < |all|
      && (x in ReadsOf(all, all[i].parents) ==> bound < depths[all[i].node.source])
  }

  ghost predicate AllDeeper(all: seq<Op>, from: nat, to: nat, x: SourceId, bound: nat, depths: map<SourceId, nat>)
    requires Ordered(all)
  {
    forall i :: from <= i < to && i < |all| ==> Deeper(all, i, x, bound, depths)
  }

  predicate ReadsParents(all: seq<Op>, i: nat, node: Node, parents: Option<nat>)
    requires i < |all|
  {
    all[i].CorrelateOp? && parents.Some? && all[i].node == node && all[i].parents == parents.value
  }

  ghost predicate NodeDeeper(all: seq<Op>, from: nat, to: nat, node: Node, parents: Option<nat>, x: SourceId, bound: nat, depths: map<SourceId, nat>)
    requires Ordered(all)
  {
    forall i :: from <= i < to && i < |all| ==> ReadsParents(all, i, node, parents) || Deeper(all, i, x, bound, depths)
  }

  lemma MatchesDeeper(node: Node, parents: Option<nat>, ops: seq<Op>, all: seq<Op>, x: SourceId, bound: nat, depths: map<SourceId, nat>)
    requires Ordered(all) && Extends(CompileMatches(node, parents, ops).0, all)
    ensures |ops| <= |CompileMatches(node, parents, ops).0|
    ensures NodeDeeper(all, |ops|, |CompileMatches(node, parents, ops).0|, node, parents, x, bound, depths)
  {
    hide CompileMatches;
    MatchesAskOnce(node, parents, ops);
    var longer := CompileMatches(node, parents, ops).0;
    forall i | |ops| <= i < |longer| && i < |all| ensures ReadsParents(all, i, node, parents) || Deeper(all, i, x, bound, depths) {
      assert all[i] == longer[i];
    }
  }

  lemma OtherDeeper(all: seq<Op>, i: nat, x: SourceId, bound: nat, depths: map<SourceId, nat>)
    requires Ordered(all) && i < |all| && !all[i].CorrelateOp?
    ensures Deeper(all, i, x, bound, depths)
  {
  }

  // Where the source may be read: by the node's children only if the source is above them.
  ghost predicate ReadAbove(all: seq<Op>, node: Node, parents: Option<nat>, depth: nat, x: SourceId, bound: nat)
    requires Ordered(all)
  {
    && PlacedIn(node, depth, x, bound) && x !in PolicySources(node)
    && (x == node.source ==> bound < depth)
    && (x in ParentReads(all, parents) ==> bound < depth)
  }

  lemma {:induction false} NodeAsksDeeper(node: Node, parents: Option<nat>, depth: nat, ops: seq<Op>, all: seq<Op>, x: SourceId, bound: nat)
    requires Grows(ops, ops) && ops != [] && (parents.Some? ==> parents.value < |ops|) && OwnSources(node)
    requires Ordered(all) && Extends(CompileNode(node, parents, ops).0, all)
    requires ReadAbove(all, node, parents, depth, x, bound)
    ensures NodeDeeper(all, |ops|, |CompileNode(node, parents, ops).0|, node, parents, x, bound, Depths(node, depth))
    decreases node, 1
  {
    hide Extends, Grows, Ordered, Deeper, ReadsParents, CompileMatches, Depths, ReadAbove;
    var (ops1, matches, groups) := CompileMatches(node, parents, ops);
    MatchesGrow(node, parents, ops);
    GrowsFacts(ops, ops1);
    if Reduces(node) {
      var op := ReduceOp(node.cardinality.Exists?, matches, groups);
      AppendExtends(ops1, op);
      ExtendsTransitive(ops1, ops1 + [op], all);
      MatchesDeeper(node, parents, ops, all, x, bound, Depths(node, depth));
      ExtendedHere(ops1 + [op], all, |ops1|);
      OtherDeeper(all, |ops1|, x, bound, Depths(node, depth));
    } else {
      RowsAskDeeper(node, parents, depth, ops, all, x, bound, Depths(node, depth));
    }
  }

  lemma {:induction false} RowsAskDeeper(node: Node, parents: Option<nat>, depth: nat, ops: seq<Op>, all: seq<Op>, x: SourceId, bound: nat, depths: map<SourceId, nat>)
    requires Grows(ops, ops) && ops != [] && (parents.Some? ==> parents.value < |ops|) && OwnSources(node) && !Reduces(node)
    requires Ordered(all) && Extends(CompileNode(node, parents, ops).0, all)
    requires ReadAbove(all, node, parents, depth, x, bound) && depths == Depths(node, depth)
    ensures NodeDeeper(all, |ops|, |CompileNode(node, parents, ops).0|, node, parents, x, bound, depths)
    decreases node, 0, 1
  {
    hide Extends, Grows, Ordered, Deeper, ReadsParents, CompileMatches, CompileFields, ParentReads, ReadsOf, Sources, FieldSources, FieldDepths;
    var (ops1, matches, groups) := CompileMatches(node, parents, ops);
    var project := ProjectOp(node.selection, matches);
    var ops2 := ops1 + [project];
    var (ops3, projected) := if node.selection.None? then (ops2, |ops1|)
      else CompileFields(node.selection.value, matches, |ops1|, ops2);
    var op := CardinalityOp(node.order, node.cardinality, projected, groups);
    MatchesGrow(node, parents, ops);
    GrowsFacts(ops, ops1);
    AppendGrows(ops1, ops1, project);
    GrowsFacts(ops1, ops2);
    if node.selection.Some? {
      FieldsGrow(node.selection.value, matches, |ops1|, ops2);
    }
    GrowsFacts(ops2, ops3);
    AppendExtends(ops3, op);
    ExtendsTransitive(ops3, ops3 + [op], all);
    ExtendsTransitive(ops2, ops3, all);
    ExtendsTransitive(ops1, ops2, all);
    MatchesDeeper(node, parents, ops, all, x, bound, depths);
    MatchesRead(node, parents, ops, all);
    ExtendedHere(ops2, all, |ops1|);
    OtherDeeper(all, |ops1|, x, bound, depths);
    ExtendedHere(ops3 + [op], all, |ops3|);
    OtherDeeper(all, |ops3|, x, bound, depths);
    if node.selection.Some? {
      FieldsPlaced(node, depth, x, bound);
      FieldsAskDeeper(node.selection.value, depth, matches, |ops1|, ops2, all, x, bound);
    }
  }

  lemma FieldsPlaced(node: Node, depth: nat, x: SourceId, bound: nat)
    requires node.selection.Some? && !Reduces(node) && OwnSources(node) && PlacedIn(node, depth, x, bound)
    ensures OwnFieldSources(node.selection.value) && PlacedAt(node.selection.value, depth, x, bound)
  {
    hide FieldSources;
    assert node.source !in FieldSources(node.selection.value);
    assert FieldSources(node.selection.value) <= Sources(node);
  }

  lemma {:induction false} FieldsAskDeeper(fields: Fields, depth: nat, matches: nat, projected: nat, ops: seq<Op>, all: seq<Op>, x: SourceId, bound: nat)
    requires Grows(ops, ops) && matches < |ops| && projected < |ops| && OwnFieldSources(fields)
    requires Ordered(all) && Extends(CompileFields(fields, matches, projected, ops).0, all)
    requires PlacedAt(fields, depth, x, bound) && matches < |all| && (x in ReadsOf(all, matches) ==> bound < depth)
    ensures AllDeeper(all, |ops|, |CompileFields(fields, matches, projected, ops).0|, x, bound, FieldDepths(fields, depth))
    decreases fields
  {
    hide Extends, Grows, Ordered, Deeper, ReadsParents, CompileNode, Depths, ReadsOf, Sources, PlacedIn, OwnSources, Merge;
    match fields
    case NoFields =>
    case ExprField(_, _, rest) => FieldsAskDeeper(rest, depth, matches, projected, ops, all, x, bound);
    case QueryField(name, node, rest) =>
      var (ops1, nested) := CompileNode(node, Some(matches), ops);
      var op := NestOp(name, projected, nested);
      var ops2 := ops1 + [op];
      NodeGrows(node, Some(matches), ops);
      GrowsFacts(ops, ops1);
      AppendGrows(ops1, ops1, op);
      AppendExtends(ops1, op);
      GrowsFacts(ops1, ops2);
      FieldsGrow(rest, matches, |ops1|, ops2);
      GrowsFacts(ops2, CompileFields(rest, matches, |ops1|, ops2).0);
      ExtendsTransitive(ops2, CompileFields(rest, matches, |ops1|, ops2).0, all);
      ExtendsTransitive(ops1, ops2, all);
      FirstPlaced(fields, depth, x, bound);
      NodeAsksDeeper(node, Some(matches), depth + 1, ops, all, x, bound);
      FieldsAskDeeper(rest, depth, matches, |ops1|, ops2, all, x, bound);
      ExtendedHere(ops2, all, |ops1|);
      JoinDeeper(fields, depth, matches, |ops|, |ops1|, |CompileFields(rest, matches, |ops1|, ops2).0|, all, x, bound);
  }

  lemma JoinDeeper(fields: Fields, depth: nat, matches: nat, from: nat, middle: nat, to: nat, all: seq<Op>, x: SourceId, bound: nat)
    requires fields.QueryField? && OwnFieldSources(fields) && Ordered(all) && matches < |all| && from <= middle < |all| && !all[middle].CorrelateOp?
    requires x in ReadsOf(all, matches) ==> bound < depth
    requires NodeDeeper(all, from, middle, fields.node, Some(matches), x, bound, Depths(fields.node, depth + 1))
    requires AllDeeper(all, middle + 1, to, x, bound, FieldDepths(fields.rest, depth))
    ensures AllDeeper(all, from, to, x, bound, FieldDepths(fields, depth))
  {
    hide ReadsOf, Ordered, Depths, Sources, OwnSources, Merge;
    var whole, mine, others := FieldDepths(fields, depth), Depths(fields.node, depth + 1), FieldDepths(fields.rest, depth);
    DepthsInside(fields.node, depth + 1);
    BelowFieldKeys(fields.rest, depth, map[], map[]);
    forall i | from <= i < to && i < |all| && all[i].CorrelateOp? ensures Deeper(all, i, x, bound, whole) {
      MergeAt(mine, fields.node.source, depth, others, all[i].node.source);
      if i < middle {
        assert ReadsParents(all, i, fields.node, Some(matches)) || Deeper(all, i, x, bound, mine);
      } else {
        assert Deeper(all, i, x, bound, others);
      }
    }
  }

  /** In a compiled query, a nested query whose parents depend on the rows of another nested query is nested deeper. */
  lemma ParentsReadAbove(root: Node, x: SourceId, i: nat)
    requires OwnSources(root) && x in Depths(root, 1)
    requires i < |Compile(root).0| && Compile(root).0[i].CorrelateOp?
    ensures var ops := Compile(root).0; var parents, s := ops[i].parents, ops[i].node.source;
      Ordered(ops) && parents < |ops| && s in Depths(root, 1) && (x in ReadsOf(ops, parents) ==> Depths(root, 1)[x] < Depths(root, 1)[s])
  {
    hide Depths, ReadsOf, CompileNode, Sources;
    var (ops, result) := Compile(root);
    var base := [RootGroupsOp];
    assert Grows(base, base) by {
      assert OrderedAt(base, 0);
    }
    NodeGrows(root, None, base);
    assert ops[0] == base[0];
    DepthsInside(root, 1);
    assert ReadAbove(ops, root, None, 1, x, Depths(root, 1)[x]);
    NodeAsksDeeper(root, None, 1, base, ops, x, Depths(root, 1)[x]);
    assert ReadsParents(ops, i, root, None) || Deeper(ops, i, x, Depths(root, 1)[x], Depths(root, 1));
  }

  // ---------- what a change of one source moves ----------

  // Only operators that read the source have a batch waiting.
  ghost predicate OnlyFrom(ops: seq<Op>, c: Config, x: SourceId)
    requires Ordered(ops) && Shaped(ops, c)
  {
    forall j, p :: 0 <= j < |ops| && 0 <= p < |Inputs(ops[j])| && c.queues[j][p] != [] ==>
      OrderedAt(ops, j) && x in ReadsOf(ops, Inputs(ops[j])[p])
  }

  // A change of the source, or any delivery.
  ghost predicate StepFrom(ops: seq<Op>, c: Config, c': Config, x: SourceId)
    requires Shaped(ops, c)
  {
    || (exists i: nat, b :: i < |ops| && ops[i] == InputOp(x) && ExternalStep(ops, c, c', i, b))
    || (exists i, p, b :: DeliverStep(ops, c, c', i, p, b))
  }

  lemma QuietOnlyFrom(ops: seq<Op>, c: Config, x: SourceId)
    requires Ordered(ops) && Shaped(ops, c) && Quiet(c)
    ensures OnlyFrom(ops, c, x)
  {
    hide ReadsOf;
  }

  lemma StepKeepsOnlyFrom(ops: seq<Op>, c: Config, c': Config, x: SourceId)
    requires Ordered(ops) && Shaped(ops, c) && Shaped(ops, c') && OnlyFrom(ops, c, x) && StepFrom(ops, c, c', x)
    ensures OnlyFrom(ops, c', x)
  {
    hide Denote, ReadsOf, Valid;
    var producer: nat;
    if i: nat, b :| i < |ops| && ops[i] == InputOp(x) && ExternalStep(ops, c, c', i, b) {
      ReadsSource(ops, i);
      producer := i;
    } else {
      var i, p, b :| DeliverStep(ops, c, c', i, p, b);
      ReadsInput(ops, i, p);
      producer := i;
    }
    assert x in ReadsOf(ops, producer);
    forall j, p | 0 <= j < |ops| && 0 <= p < |Inputs(ops[j])| && c'.queues[j][p] != []
      ensures OrderedAt(ops, j) && x in ReadsOf(ops, Inputs(ops[j])[p])
    {
      assert Inputs(ops[j])[p] == producer || c.queues[j][p] != [];
    }
  }

  /** While only the rows of source x change, an operator that does not read x emits nothing; so the
      queries that report demands are nested below x. */
  lemma DemandsComeFromBelow(root: Node, run: seq<Config>, x: SourceId, i: nat, p: nat, c': Config, batch: Batch)
    requires OwnSources(root) && x in Depths(root, 1) && run != []
    requires forall k :: 0 <= k < |run| ==> Shaped(Compile(root).0, run[k])
    requires Quiet(run[0]) && forall k :: 0 <= k < |run| - 1 ==> StepFrom(Compile(root).0, run[k], run[k + 1], x)
    requires i < |Compile(root).0| && Compile(root).0[i].CorrelateOp?
    requires DeliverStep(Compile(root).0, run[|run| - 1], c', Compile(root).0[i].parents, p, batch)
    ensures DeeperThan(Depths(root, 1), x, Compile(root).0[i].node.source)
  {
    hide Depths, ReadsOf, Denote, Compile, Sent;
    var ops := Compile(root).0;
    ParentsReadAbove(root, x, i);
    RunOnlyFrom(ops, run, x);
    ReadsInput(ops, ops[i].parents, p);
  }

  lemma {:induction false} RunOnlyFrom(ops: seq<Op>, run: seq<Config>, x: SourceId)
    requires Ordered(ops) && run != [] && forall k :: 0 <= k < |run| ==> Shaped(ops, run[k])
    requires Quiet(run[0]) && forall k :: 0 <= k < |run| - 1 ==> StepFrom(ops, run[k], run[k + 1], x)
    ensures OnlyFrom(ops, run[|run| - 1], x)
  {
    hide StepFrom, OnlyFrom, Shaped, Quiet;
    if |run| == 1 {
      QuietOnlyFrom(ops, run[0], x);
    } else {
      var most := run[..|run| - 1];
      assert forall k :: 0 <= k < |most| ==> most[k] == run[k];
      forall k | 0 <= k < |most| - 1 ensures StepFrom(ops, most[k], most[k + 1], x) {
        assert StepFrom(ops, run[k], run[k + 1], x);
      }
      RunOnlyFrom(ops, most, x);
      assert StepFrom(ops, run[|run| - 2], run[|run| - 1], x);
      StepKeepsOnlyFrom(ops, run[|run| - 2], run[|run| - 1], x);
    }
  }
}
