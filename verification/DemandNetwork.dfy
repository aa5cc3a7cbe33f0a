// The streams that demands are read from, in the compiled network: what the parents stream of every
// nested query has carried is exactly the parent matches that the subscription runtime counts.
module DemandNetwork {
  import opened Query
  import opened Dataflow
  import opened DataflowCompiler
  import opened Demands
  import opened DemandFlow

  // The stream that a nested query subscribes to for its demands carries its parent's matches.
  ghost predicate Carries(n: Network, i: nat, below: map<SourceId, Coll>)
    requires i < |n.ops| == |n.out|
  {
    n.ops[i].CorrelateOp? ==>
      n.ops[i].node.source in below && n.ops[i].parents < |n.out| && n.out[n.ops[i].parents] == below[n.ops[i].node.source]
  }

  ghost predicate CarriesAll(n: Network, from: nat, to: nat, below: map<SourceId, Coll>)
    requires |n.ops| == |n.out|
  {
    forall i :: from <= i < to && i < |n.ops| ==> Carries(n, i, below)
  }

  lemma MatchesExactly(node: Node, parents: Option<nat>, ops: seq<Op>, n: Solved)
    requires Grows(ops, ops) && ops != [] && (parents.Some? ==> parents.value < |ops|)
    requires WellScoped(node, parents.Some?)
    requires Extends(CompileMatches(node, parents, ops).0, n.ops)
    ensures CompileMatches(node, parents, ops).1 < |n.out|
    ensures n.out[CompileMatches(node, parents, ops).1] == MatchesOf(node, n.db, parents.None?, ParentsOf(parents, n))
  {
    hide Joined, AdmittedOf, TopK, Passed, Groups, Extends;
    var (ops1, joined, groups) := CompileSource(node, parents, ops);
    MatchesParts(node, parents, ops, n);
    SourceCorrect(node, parents, ops, n);
    AuthorizationCorrect(node, joined, ops1, n);
  }

  // A policy's parent query is compiled without a parents stream.
  lemma {:induction false} AuthorizationAsksNothing(node: Node, matches: nat, ops: seq<Op>)
    ensures var longer := CompileAuthorization(node, matches, ops).0;
      |ops| <= |longer| && longer[..|ops|] == ops && forall i :: |ops| <= i < |longer| ==> !longer[i].CorrelateOp?
    decreases node, 0
  {
    if node.authorization.Some? {
      MatchesAskOnce(node.authorization.value.parent, None, ops);
    }
  }

  lemma {:induction false} MatchesAskOnce(node: Node, parents: Option<nat>, ops: seq<Op>)
    ensures var longer := CompileMatches(node, parents, ops).0;
      && |ops| <= |longer| && longer[..|ops|] == ops
      && forall i :: |ops| <= i < |longer| && longer[i].CorrelateOp? ==> parents.Some? && longer[i].node == node && longer[i].parents == parents.value
    decreases node, 1
  {
    var (ops1, joined, groups) := CompileSource(node, parents, ops);
    AuthorizationAsksNothing(node, joined, ops1);
    var ops2 := CompileAuthorization(node, joined, ops1).0;
    assert ops2[..|ops1|] == ops1;
    var longer := CompileMatches(node, parents, ops).0;
    forall i | |ops| <= i < |longer| && longer[i].CorrelateOp?
      ensures parents.Some? && longer[i].node == node && longer[i].parents == parents.value
    {
      if i < |ops1| {
        assert longer[i] == ops2[i] == ops2[..|ops1|][i] == ops1[i];
      }
      assert i < |ops2| ==> longer[i] == ops2[i];
    }
    assert longer[..|ops|] == ops2[..|ops|] == ops1[..|ops|] == ops;
  }

  ghost predicate AsksParents(n: Network, i: nat, node: Node, parents: Option<nat>)
    requires i < |n.ops|
  {
    n.ops[i].CorrelateOp? && parents.Some? && n.ops[i].node == node && n.ops[i].parents == parents.value
  }

  // In the operators of a node: its own join reads its parents, every deeper one what it should.
  ghost predicate NodeCarries(n: Network, from: nat, to: nat, node: Node, parents: Option<nat>, below: map<SourceId, Coll>)
    requires |n.ops| == |n.out|
  {
    forall i :: from <= i < to && i < |n.ops| ==> AsksParents(n, i, node, parents) || Carries(n, i, below)
  }

  lemma MatchesCarry(node: Node, parents: Option<nat>, ops: seq<Op>, n: Solved, below: map<SourceId, Coll>)
    requires Extends(CompileMatches(node, parents, ops).0, n.ops)
    ensures |ops| <= |CompileMatches(node, parents, ops).0|
    ensures NodeCarries(n, |ops|, |CompileMatches(node, parents, ops).0|, node, parents, below)
  {
    hide CompileMatches;
    MatchesAskOnce(node, parents, ops);
    var longer := CompileMatches(node, parents, ops).0;
    forall i | |ops| <= i < |longer| && i < |n.ops| ensures AsksParents(n, i, node, parents) || Carries(n, i, below) {
      assert n.ops[i] == longer[i];
    }
  }

  lemma OtherCarries(n: Solved, i: nat, below: map<SourceId, Coll>)
    requires i < |n.ops| && !n.ops[i].CorrelateOp?
    ensures Carries(n, i, below)
  {
  }

  lemma {:induction false} NodeReports(node: Node, parents: Option<nat>, ops: seq<Op>, n: Solved)
    requires Grows(ops, ops) && ops != [] && (parents.Some? ==> parents.value < |ops|)
    requires WellScoped(node, parents.Some?) && OwnSources(node)
    requires Extends(CompileNode(node, parents, ops).0, n.ops)
    ensures NodeCarries(n, |ops|, |CompileNode(node, parents, ops).0|, node, parents,
                        Below(node, n.db, MatchesOf(node, n.db, parents.None?, ParentsOf(parents, n))))
    decreases node, 1
  {
    hide MatchesOf, Extends, Grows, Ordered, Carries, AsksParents, CompileMatches, Below;
    var below := Below(node, n.db, MatchesOf(node, n.db, parents.None?, ParentsOf(parents, n)));
    var (ops1, matches, groups) := CompileMatches(node, parents, ops);
    MatchesGrow(node, parents, ops);
    GrowsFacts(ops, ops1);
    if Reduces(node) {
      var op := ReduceOp(node.cardinality.Exists?, matches, groups);
      AppendExtends(ops1, op);
      ExtendsTransitive(ops1, ops1 + [op], n.ops);
      MatchesCarry(node, parents, ops, n, below);
      ExtendedAt(ops1 + [op], n, |ops1|);
      OtherCarries(n, |ops1|, below);
    } else {
      RowsReport(node, parents, ops, n, below);
    }
  }

  lemma ExtendedAt(ops: seq<Op>, n: Solved, i: nat)
    requires Extends(ops, n.ops) && i < |ops|
    ensures i < |n.ops| && n.ops[i] == ops[i]
  {
  }

  lemma {:induction false} RowsReport(node: Node, parents: Option<nat>, ops: seq<Op>, n: Solved, below: map<SourceId, Coll>)
    requires Grows(ops, ops) && ops != [] && (parents.Some? ==> parents.value < |ops|)
    requires WellScoped(node, parents.Some?) && OwnSources(node) && !Reduces(node)
    requires Extends(CompileNode(node, parents, ops).0, n.ops)
    requires below == Below(node, n.db, MatchesOf(node, n.db, parents.None?, ParentsOf(parents, n)))
    ensures NodeCarries(n, |ops|, |CompileNode(node, parents, ops).0|, node, parents, below)
    decreases node, 0, 1
  {
    hide MatchesOf, Extends, Grows, Ordered, Carries, AsksParents, CompileMatches, CompileFields, ParentsOf;
    var (ops1, matches, groups) := CompileMatches(node, parents, ops);
    var project := ProjectOp(node.selection, matches);
    var ops2 := ops1 + [project];
    var (ops3, projected) := if node.selection.None? then (ops2, |ops1|)
      else CompileFields(node.selection.value, matches, |ops1|, ops2);
    var op := CardinalityOp(node.order, node.cardinality, projected, groups);
    MatchesGrow(node, parents, ops);
    GrowsFacts(ops, ops1);
    AppendGrows(ops1, ops1, project);
    GrowsFacts(ops1, ops2);
    if node.selection.Some? {
      FieldsGrow(node.selection.value, matches, |ops1|, ops2);
    }
    GrowsFacts(ops2, ops3);
    AppendExtends(ops3, op);
    ExtendsTransitive(ops3, ops3 + [op], n.ops);
    ExtendsTransitive(ops2, ops3, n.ops);
    ExtendsTransitive(ops1, ops2, n.ops);
    MatchesCarry(node, parents, ops, n, below);
    MatchesExactly(node, parents, ops, n);
    ExtendedAt(ops2, n, |ops1|);
    OtherCarries(n, |ops1|, below);
    ExtendedAt(ops3 + [op], n, |ops3|);
    OtherCarries(n, |ops3|, below);
    if node.selection.Some? {
      FieldsReport(node.selection.value, matches, |ops1|, ops2, n);
    }
  }

  lemma {:induction false} FieldsReport(fields: Fields, matches: nat, projected: nat, ops: seq<Op>, n: Solved)
    requires Grows(ops, ops) && matches < |ops| && projected < |ops|
    requires WellScopedFields(fields) && OwnFieldSources(fields)
    requires Extends(CompileFields(fields, matches, projected, ops).0, n.ops)
    requires matches < |n.out|
    ensures CarriesAll(n, |ops|, |CompileFields(fields, matches, projected, ops).0|, BelowFields(fields, n.db, n.out[matches]))
    decreases fields
  {
    hide MatchesOf, Extends, Grows, Ordered, Carries, AsksParents, CompileNode, Below;
    match fields
    case NoFields =>
    case ExprField(_, _, rest) => FieldsReport(rest, matches, projected, ops, n);
    case QueryField(name, node, rest) =>
      var (ops1, nested) := CompileNode(node, Some(matches), ops);
      var op := NestOp(name, projected, nested);
      var ops2 := ops1 + [op];
      NodeGrows(node, Some(matches), ops);
      GrowsFacts(ops, ops1);
      AppendGrows(ops1, ops1, op);
      AppendExtends(ops1, op);
      GrowsFacts(ops1, ops2);
      FieldsGrow(rest, matches, |ops1|, ops2);
      GrowsFacts(ops2, CompileFields(rest, matches, |ops1|, ops2).0);
      ExtendsTransitive(ops2, CompileFields(rest, matches, |ops1|, ops2).0, n.ops);
      ExtendsTransitive(ops1, ops2, n.ops);
      NodeReports(node, Some(matches), ops, n);
      FieldsReport(rest, matches, |ops1|, ops2, n);
      ExtendedAt(ops2, n, |ops1|);
      JoinReports(fields, matches, |ops|, |ops1|, |CompileFields(rest, matches, |ops1|, ops2).0|, n);
  }

  lemma JoinReports(fields: Fields, matches: nat, from: nat, middle: nat, to: nat, n: Solved)
    requires fields.QueryField? && OwnFieldSources(fields) && matches < |n.out| && from <= middle < |n.ops| && !n.ops[middle].CorrelateOp?
    requires NodeCarries(n, from, middle, fields.node, Some(matches), Below(fields.node, n.db, MatchesOf(fields.node, n.db, false, n.out[matches])))
    requires CarriesAll(n, middle + 1, to, BelowFields(fields.rest, n.db, n.out[matches]))
    ensures CarriesAll(n, from, to, BelowFields(fields, n.db, n.out[matches]))
  {
    hide MatchesOf, Below, BelowFields;
    FirstBelow(fields, n.db, n.out[matches]);
    var all := BelowFields(fields, n.db, n.out[matches]);
    var mine := Below(fields.node, n.db, MatchesOf(fields.node, n.db, false, n.out[matches]));
    forall i | from <= i < to && i < |n.ops| ensures Carries(n, i, all) {
      if i < middle {
        assert AsksParents(n, i, fields.node, Some(matches)) || Carries(n, i, mine);
      } else if i > middle {
        assert Carries(n, i, BelowFields(fields.rest, n.db, n.out[matches]));
      }
    }
  }

  /** After any run of the compiled network, once no batch is waiting, the stream that every nested
      query takes its demands from has carried exactly its parent's matches over the present rows. */
  lemma DemandStreamsCarryMatches(root: Node, run: seq<Config>, db: Database, i: nat)
    requires WellScoped(root, false) && OwnSources(root)
    requires Run(Compile(root).0, run)
    requires var c := run[|run| - 1]; Quiet(c) && c.external != [] && c.external[0] == RootParents && Holds(Compile(root).0, c, db)
    requires i < |Compile(root).0| && Compile(root).0[i].CorrelateOp?
    ensures Compile(root).0[i].parents < |Compile(root).0|
    ensures Compile(root).0[i].node.source in ParentMatches(root, db)
    ensures Emitted(Compile(root).0, run[|run| - 1], Compile(root).0[i].parents) == MatchesFor(root, db, Compile(root).0[i].node.source)
  {
    hide Evaluate, Quiet, Step, InStep, Denote, MatchesOf, Below;
    var (ops, result) := Compile(root);
    var c := run[|run| - 1];
    var base := [RootGroupsOp];
    assert Grows(base, base) by {
      assert OrderedAt(base, 0);
    }
    NodeGrows(root, None, base);
    assert ops[0] == base[0];
    QuietRunSolves(ops, run);
    var out := seq(|ops|, k requires 0 <= k < |ops| => Emitted(ops, c, k));
    var n := Network(ops, out, db);
    assert forall k :: 0 <= k < |ops| ==> SourcedAt(n, k);
    NodeReports(root, None, base, n);
    assert AsksParents(n, i, root, None) || Carries(n, i, ParentMatches(root, db));
  }

  // The batch that operator q emits in one step of the network; nothing when another one moves.
  ghost predicate Emits(ops: seq<Op>, c: Config, c': Config, q: nat, batch: Batch)
    requires Shaped(ops, c)
  {
    || (exists p :: DeliverStep(ops, c, c', q, p, batch))
    || (batch == [] && (exists i, b :: ExternalStep(ops, c, c', i, b)))
    || (batch == [] && (exists i, p, b :: i != q && DeliverStep(ops, c, c', i, p, b)))
  }

  function Flattened(batches: seq<Batch>): Batch {
    if batches == [] then [] else Flattened(batches[..|batches| - 1]) + batches[|batches| - 1]
  }

  /** Over any stretch of a run, what an operator emits is a valid change from what it had carried
      to what it has carried: together with the streams above, this is the contract of a demand. */
  lemma {:induction false} EmissionsTrack(ops: seq<Op>, run: seq<Config>, q: nat, batches: seq<Batch>)
    requires |run| == |batches| + 1 && q < |ops| && !External(ops[q])
    requires forall k :: 0 <= k < |run| ==> Shaped(ops, run[k])
    requires forall k :: 0 <= k < |batches| ==> Emits(ops, run[k], run[k + 1], q, batches[k])
    ensures Tracks(Emitted(ops, run[0], q), Flattened(batches), Emitted(ops, run[|run| - 1], q))
  {
    hide Denote;
    if batches != [] {
      var n := |batches| - 1;
      var most, few := run[..n + 1], batches[..n];
      assert forall k :: 0 <= k < |most| ==> most[k] == run[k];
      forall k | 0 <= k < |few| ensures Emits(ops, most[k], most[k + 1], q, few[k]) {
        assert Emits(ops, run[k], run[k + 1], q, batches[k]);
      }
      EmissionsTrack(ops, most, q, few);
      assert Emits(ops, run[n], run[n + 1], q, batches[n]);
      LastTracks(ops, run[n], run[n + 1], q, batches[n]);
      TracksConcat(Emitted(ops, run[0], q), Flattened(few), Emitted(ops, run[n], q), batches[n], Emitted(ops, run[n + 1], q));
    }
  }

  lemma LastTracks(ops: seq<Op>, c: Config, c': Config, q: nat, batch: Batch)
    requires Shaped(ops, c) && Shaped(ops, c') && q < |ops| && !External(ops[q]) && Emits(ops, c, c', q, batch)
    ensures Tracks(Emitted(ops, c, q), batch, Emitted(ops, c', q))
  {
    hide Denote;
    if p :| DeliverStep(ops, c, c', q, p, batch) {
    } else {
      assert c'.ins[q] == c.ins[q];
    }
  }
}
