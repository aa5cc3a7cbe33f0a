// What the listener of a query is told: one commit passes through the compiled network and its output operator.
module Publication {
  import opened Query
  import opened Dataflow
  import opened DataflowCompiler
  import opened DataflowOperators
  import opened DataflowTopK
  import opened DemandNetwork
  import opened DemandReplies

  // The steps between two settled states, whatever sources change.
  ghost predicate Passage(ops: seq<Op>, stretch: seq<Config>, events: seq<Event>) {
    && |stretch| == |events| + 1
    && (forall k :: 0 <= k < |stretch| ==> Shaped(ops, stretch[k]))
    && (forall k :: 0 <= k < |events| ==> PassageAt(ops, stretch[k], stretch[k + 1], events[k]))
  }

  ghost predicate PassageAt(ops: seq<Op>, c: Config, c': Config, e: Event)
    requires Shaped(ops, c)
  {
    e.op < |ops| && Happens(ops, c, c', e)
  }

  lemma ResultIsInside(root: Node)
    ensures var (ops, result) := Compile(root); result < |ops| && !External(ops[result])
  {
  }

  lemma {:induction false} AppliedFlat(m: Coll, batches: seq<Batch>)
    ensures ApplyAll(m, batches) == Apply(m, Flattened(batches))
  {
    hide Apply;
    if batches == [] {
      ApplyNothing(m);
    } else {
      var n := |batches| - 1;
      AppliedFlat(m, batches[..n]);
      ApplyConcat(m, Flattened(batches[..n]), batches[n]);
      AppliedLast(m, batches[..n], batches[n]);
      assert batches[..n] + [batches[n]] == batches;
    }
  }

  lemma ApplyNothing(m: Coll)
    ensures Apply(m, []) == m
  {
  }

  lemma {:induction false} ApplyConcat(m: Coll, a: Batch, b: Batch)
    ensures Apply(m, a + b) == Apply(Apply(m, a), b)
    decreases a
  {
    if a == [] {
      assert a + b == b;
    } else {
      assert (a + b)[1..] == a[1..] + b;
      ApplyConcat(ApplyChange(m, a[0]), a[1..], b);
    }
  }

  lemma {:induction false} AppliedLast(m: Coll, batches: seq<Batch>, batch: Batch)
    ensures ApplyAll(m, batches + [batch]) == Apply(ApplyAll(m, batches), batch)
    decreases batches
  {
    var longer := batches + [batch];
    if batches == [] {
      assert longer == [batch] && longer[1..] == [];
    } else {
      assert longer[0] == batches[0] && longer[1..] == batches[1..] + [batch];
      AppliedLast(Apply(m, batches[0]), batches[1..], batch);
    }
  }

  /** One commit: the listener is called exactly if the query's value over the rows has changed, and it is told the new
      value. The output operator gets the batches that the network's result operator emits on the way. */
  method PublishChange(output: OutputOperator, root: Node, ghost before: seq<Config>, ghost after: seq<Config>,
      ghost stretch: seq<Config>, ghost events: seq<Event>, batches: seq<Batch>, ghost db: Database, ghost db': Database)
    returns (published: Option<Result>)
    requires WellScoped(root, false)
    requires SettledOn(root, before, db) && SettledOn(root, after, db') && Passage(Compile(root).0, stretch, events)
    requires stretch[0] == before[|before| - 1] && stretch[|events|] == after[|after| - 1]
    requires batches == EmittedBy(Compile(root).1, events)
    requires output.values == Answer(Evaluate(root, db, map[]))
    modifies output
    ensures output.values == Answer(Evaluate(root, db', map[]))
    ensures published == if Evaluate(root, db, map[]) == Evaluate(root, db', map[]) then None else Some(Evaluate(root, db', map[]))
  {
    ResultTracks(root, before, after, stretch, events, db, db');
    AppliedFlat(output.values, batches);
    published := PublishCommit(output, batches, Evaluate(root, db, map[]), Evaluate(root, db', map[]));
  }

  lemma ResultTracks(root: Node, before: seq<Config>, after: seq<Config>, stretch: seq<Config>, events: seq<Event>, db: Database, db': Database)
    requires WellScoped(root, false)
    requires SettledOn(root, before, db) && SettledOn(root, after, db') && Passage(Compile(root).0, stretch, events)
    requires stretch[0] == before[|before| - 1] && stretch[|events|] == after[|after| - 1]
    ensures Tracks(Answer(Evaluate(root, db, map[])), Flattened(EmittedBy(Compile(root).1, events)), Answer(Evaluate(root, db', map[])))
  {
    hide Compile, Evaluate, Run, Quiet, Holds, Denote, Tracks, Emits, Happens, Flattened;
    var (ops, result) := Compile(root);
    ResultIsInside(root);
    IncrementalEqualsRecompute(root, before, db);
    IncrementalEqualsRecompute(root, after, db');
    var batches := EmittedBy(result, events);
    forall k | 0 <= k < |batches| ensures Emits(ops, stretch[k], stretch[k + 1], result, batches[k]) {
      assert PassageAt(ops, stretch[k], stretch[k + 1], events[k]);
      EventEmits(ops, stretch[k], stretch[k + 1], events[k], result);
    }
    EmissionsTrack(ops, stretch, result, batches);
  }
}
