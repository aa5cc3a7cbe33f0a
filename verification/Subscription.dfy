// The subscription runtime (subscription.ts): it keeps only the rows that live demands ask for,
// counts the demands by key, and loads or evicts rows as keys appear and disappear.
module Subscription {
  import opened Query
  import opened Dataflow
  import opened DataflowCompiler
  import opened DataflowOperators
  import opened Demands
  import opened DemandFlow
  import opened SubscriptionState
  import Executor
  import Planner

  // ---------- the order of commits ----------

  // The commits of a branch by sequence number; start is how many were published before the
  // subscription was registered.
  datatype History = History(base: Tables, commits: nat -> Commit, start: nat)

  ghost function TablesAt(h: History, n: nat): Tables {
    if n == 0 then h.base else Committed(TablesAt(h, n - 1), h.commits(n).changes)
  }

  ghost predicate Numbered(schema: Planner.Schema, h: History) {
    (forall n: nat :: h.commits(n).sequence == n) && (forall n: nat :: StoredTables(schema, TablesAt(h, n)))
  }

  // The buffer is in order, and holds every delivered commit that is not yet applied.
  ghost predicate Buffered(h: History, buffer: seq<Commit>, applied: nat, delivered: nat) {
    && (forall i, j :: 0 <= i < j < |buffer| ==> buffer[i].sequence < buffer[j].sequence)
    && (forall i :: 0 <= i < |buffer| ==> 0 <= buffer[i].sequence <= delivered && buffer[i] == h.commits(buffer[i].sequence))
    && (forall n: nat :: applied < n <= delivered ==> h.commits(n) in buffer)
  }

  lemma BufferMore(h: History, buffer: seq<Commit>, applied: nat, delivered: nat, commit: Commit)
    requires Buffered(h, buffer, applied, delivered)
    requires commit == h.commits(delivered + 1) && commit.sequence == delivered + 1
    ensures Buffered(h, buffer + [commit], applied, delivered + 1)
  {
    forall n: nat | applied < n <= delivered + 1 ensures h.commits(n) in buffer + [commit] {
      assert n <= delivered ==> h.commits(n) in buffer;
    }
  }

  /** The first buffered commit was applied before, or is the next one. */
  lemma BufferFirst(h: History, buffer: seq<Commit>, applied: nat, delivered: nat)
    requires Buffered(h, buffer, applied, delivered) && buffer != [] && forall n: nat :: h.commits(n).sequence == n
    ensures buffer[0].sequence <= applied || buffer[0].sequence == applied + 1
    ensures 0 <= buffer[0].sequence && buffer[0] == h.commits(buffer[0].sequence)
    ensures Buffered(h, buffer[1..], if buffer[0].sequence <= applied then applied else applied + 1, delivered)
  {
    if buffer[0].sequence > applied {
      assert h.commits(applied + 1) in buffer;
      var i :| 0 <= i < |buffer| && buffer[i] == h.commits(applied + 1);
      assert i > 0 ==> buffer[0].sequence < buffer[i].sequence;
    }
    var now := if buffer[0].sequence <= applied then applied else applied + 1;
    forall n: nat | now < n <= delivered ensures h.commits(n) in buffer[1..] {
      assert h.commits(n) in buffer && h.commits(n) != buffer[0];
    }
  }

  lemma BufferedNone(h: History, applied: nat, delivered: nat)
    requires Buffered(h, [], applied, delivered)
    ensures delivered <= applied
  {
    var none: seq<Commit> := [];
    assert applied < delivered ==> h.commits(delivered) in none;
  }

  lemma StartBuffer(h: History, buffer: seq<Commit>, sequence: nat, delivered: nat)
    requires Buffered(h, buffer, h.start, delivered) && h.start <= sequence
    ensures Buffered(h, buffer, sequence, delivered)
  {
  }

  lemma DeliverOld(h: History, buffer: seq<Commit>, applied: nat, delivered: nat)
    requires Buffered(h, buffer, applied, delivered) && delivered + 1 <= applied
    ensures Buffered(h, buffer, applied, delivered + 1)
  {
  }

  lemma BufferLive(h: History, applied: nat, delivered: nat)
    requires Buffered(h, [], applied, delivered) && delivered + 1 > applied
    ensures delivered == applied && Buffered(h, [], applied + 1, delivered + 1)
  {
    BufferedNone(h, applied, delivered);
  }

  class SubscriptionRuntime {
    const schema: Planner.Schema
    const root: Node
    const engine: Engine
    const scopes: map<SourceId, Scope>
    var inputs: map<SourceId, InputState>
    var demands: map<SourceId, Counts>
    var pending: seq<Demand>
    var ticks: nat
    ghost var acknowledged: Acknowledged
    var lastSequence: int
    var live: bool
    var buffer: seq<Commit>
    ghost const history: History
    ghost var delivered: nat

    ghost predicate Compiled() {
      && Known(schema, root) && OwnSources(root) && WellScoped(root, false) && Faithful(root, engine) && scopes == Scopes(schema, root)
      && (forall s :: s in scopes ==> LoadableScope(schema, scopes[s]))
    }
    ghost predicate Valid()
      reads this`inputs, this`demands, this`pending, this`acknowledged
    {
      && Compiled()
      && inputs.Keys == scopes.Keys
      && Pends(root, acknowledged, pending, RowsAt(inputs))
      && AllCounted(scopes, acknowledged, demands)
    }

    // No demand waits; every scope holds exactly the table's rows under its live keys, and every
    // key is counted once for each parent match that resolves to it.
    ghost predicate Settled(tables: Tables)
      reads this`inputs, this`demands, this`pending, this`acknowledged
    {
      Valid() && pending == [] && AllExact(scopes, inputs, demands, tables) && CountedMatches(root, scopes, inputs, demands)
    }

    // The rows of one input change, and the engine reports what that does to the parent matches.
    method Emit(s: SourceId, next: InputState)
      requires Valid() && s in scopes
      modifies this`inputs, this`pending, this`ticks
      ensures Valid() && inputs == old(inputs)[s := next]
      ensures |old(pending)| <= |pending| && pending[..|old(pending)|] == old(pending)
      ensures forall i :: |old(pending)| <= i < |pending| ==> DeeperThan(Depths(root, 1), s, pending[i].source)
    {
      hide Known, OwnSources, WellScoped, Scopes, Depths, AllCounted, Pends;
      var db := RowsAt(inputs);
      inputs := inputs[s := next];
      var reply := engine(ticks, s, db, RowsAt(inputs));
      assert DiffersAt(db, RowsAt(inputs), s);
      PendMore(root, acknowledged, pending, db, s, reply, RowsAt(inputs));
      pending := pending + reply;
      ticks := ticks + 1;
    }

    // Takes every waiting demand into the reference counts; the error is a count below zero.
    method CountDemands(ghost floor: nat) returns (before: Before, failed: bool)
      requires Valid() && Deep(root, pending, floor)
      modifies this`demands, this`pending, this`acknowledged
      ensures !failed && Valid() && pending == []
      ensures Recorded(scopes, before, old(demands), demands) && AllDeep(scopes, root, before, floor)
    {
      hide Compiled, ResolveKey, Depths, Pends, AllCounted, Recorded, Recount;
      before, failed := map[], false;
      NothingRecorded(scopes, demands);
      var rest := pending;
      pending := [];
      ghost var db := RowsAt(inputs);
      while rest != []
        invariant pending == [] && RowsAt(inputs) == db
        invariant Pends(root, acknowledged, rest, db)
        invariant AllCounted(scopes, acknowledged, demands)
        invariant Recorded(scopes, before, old(demands), demands)
        invariant AllDeep(scopes, root, before, floor) && Deep(root, rest, floor)
        decreases |rest|
      {
        var d := rest[0];
        AcknowledgeFirst(root, acknowledged, rest, db);
        match KeyOfDemand(scopes, d) {
          case None =>
            SkipDemand(scopes, acknowledged, demands, d);
          case Some(key) =>
            var counts := CountsAt(demands, d.source);
            var references := CountOf(counts, key);
            TakeDemand(scopes, acknowledged, demands, d, key);
            if references + d.change.diff < 0 {
              failed := true;
              return;
            }
            RecordDemand(scopes, before, old(demands), demands, d.source, key, references + d.change.diff);
            if (d.source, key) !in before {
              before := before[(d.source, key) := references];
            }
            demands := demands[d.source := Recount(counts, key, references + d.change.diff)];
        }
        acknowledged := Acknowledge(acknowledged, d);
        rest := rest[1..];
      }
    }

    // Loads one key's rows; the engine's demands come from deeper queries only.
    method LoadKey(s: SourceId, key: Key, tables: Tables, ghost was: map<SourceId, Counts>, ghost done: set<(SourceId, Key)>, ghost floor: nat)
      requires Valid() && StoredTables(schema, tables)
      requires s in scopes && s in Depths(root, 1) && Depths(root, 1)[s] >= floor
      requires AllCovered(scopes, inputs, was, done, tables)
      requires Deep(root, pending, floor + 1)
      modifies this`inputs, this`pending, this`ticks
      ensures Valid() && AllCovered(scopes, inputs, was, done + {(s, key)}, tables)
      ensures Deep(root, pending, floor + 1)
    {
      hide Pends, AllCounted, AllCovered, Depths, StoredTable, Known, OwnSources, WellScoped, Faithful, Scopes, Deep, Loads, Held, SeedAll;
      var scope := scopes[s];
      var loaded := LoadRows(schema[scope.table], TableOf(tables, scope.table), scope, key);
      LoadStep(scopes, inputs, was, done, tables, s, key, loaded);
      ghost var waiting := pending;
      Emit(s, SeedAll(inputs[s], loaded));
      StillDeep(root, waiting, pending, s, floor);
    }

    // Loads the rows of every key that was not live before and is now, in any order.
    method LoadAdded(before: Before, tables: Tables, ghost was: map<SourceId, Counts>, ghost floor: nat)
      requires Valid() && StoredTables(schema, tables)
      requires AllDeep(scopes, root, before, floor)
      requires AllExact(scopes, inputs, was, tables)
      requires Deep(root, pending, floor + 1)
      modifies this`inputs, this`pending, this`ticks
      ensures Valid() && AllCovered(scopes, inputs, was, Added(before, demands), tables)
      ensures Deep(root, pending, floor + 1)
    {
      hide Pends, AllCounted, AllCovered, AllExact, Depths, StoredTable, Compiled, Deep;
      var todo := Added(before, demands);
      ghost var done := {};
      NothingLoaded(scopes, inputs, was, tables);
      while todo != {}
        invariant Valid() && todo + done == Added(before, demands)
        invariant AllCovered(scopes, inputs, was, done, tables)
        invariant Deep(root, pending, floor + 1)
        decreases |todo|
      {
        var p :| p in todo;
        LoadKey(p.0, p.1, tables, was, done, floor);
        todo, done := todo - {p}, done + {p};
      }
      assert done == Added(before, demands);
    }

    method EvictIrrelevantRows(s: SourceId, ghost before: Before, ghost tables: Tables, ghost was: map<SourceId, Counts>, ghost todo: set<SourceId>, ghost floor: nat)
      requires Valid() && s in todo
      requires s in scopes && s in Depths(root, 1) && Depths(root, 1)[s] >= floor
      requires Evicting(scopes, inputs, before, was, demands, todo, tables)
      requires Deep(root, pending, floor + 1)
      modifies this`inputs, this`pending, this`ticks
      ensures Valid() && Evicting(scopes, inputs, before, was, demands, todo - {s}, tables)
      ensures Deep(root, pending, floor + 1)
    {
      hide Pends, AllCounted, Depths, Compiled, Deep, Evicting, Kept;
      EvictStep(scopes, inputs, before, was, demands, todo, tables, s);
      ghost var waiting := pending;
      Emit(s, Kept(scopes[s], inputs[s], LiveOf(scopes[s], CountsAt(demands, s))));
      StillDeep(root, waiting, pending, s, floor);
    }

    // Removes, from every scope that lost a key, the rows that no live key asks for.
    method EvictDropped(before: Before, tables: Tables, ghost was: map<SourceId, Counts>, ghost floor: nat)
      requires Valid()
      requires AllDeep(scopes, root, before, floor)
      requires AllCovered(scopes, inputs, was, Added(before, demands), tables)
      requires forall s :: s in scopes ==> CoversLive(scopes[s], before, was, demands, s)
      requires Deep(root, pending, floor + 1)
      modifies this`inputs, this`pending, this`ticks
      ensures Valid() && AllExact(scopes, inputs, demands, tables)
      ensures Deep(root, pending, floor + 1)
    {
      hide Pends, AllCounted, AllCovered, AllExact, Depths, Compiled, Deep, CoversLive, Evicting, AllDeep, Dropped, Valid;
      var todo := Dropped(before, demands);
      StartEvicting(scopes, inputs, before, was, demands, tables);
      while todo != {}
        invariant Valid() && todo <= Dropped(before, demands)
        invariant Evicting(scopes, inputs, before, was, demands, todo, tables)
        invariant Deep(root, pending, floor + 1)
        decreases |todo|
      {
        var s :| s in todo;
        DroppedDeep(scopes, root, before, demands, s, floor);
        EvictIrrelevantRows(s, before, tables, was, todo, floor);
        todo := todo - {s};
      }
      EndEvicting(scopes, inputs, before, was, demands, tables);
    }

    // Handles waiting demands until none is left: every round asks for rows of deeper queries only.
    method SettleDemands(tables: Tables) returns (rounds: nat, failed: bool)
      requires Valid() && StoredTables(schema, tables)
      requires AllExact(scopes, inputs, demands, tables)
      modifies this`inputs, this`demands, this`pending, this`ticks, this`acknowledged
      ensures !failed && rounds <= Height(root)
      ensures Settled(tables)
    {
      hide Compiled, CountedMatches, AllCounted, AllExact, Pends, Depths, Height, AllCovered, Recorded, CoversLive, AllDeep, StoredTables;
      rounds, failed := 0, false;
      DepthBelowHeight(root, 1);
      ShallowPending(root, acknowledged, pending, RowsAt(inputs));
      while pending != []
        invariant Valid() && AllExact(scopes, inputs, demands, tables)
        invariant rounds <= Height(root) && Deep(root, pending, rounds + 1)
        decreases Height(root) - rounds
      {
        ghost var was, ack := demands, acknowledged;
        assert pending[0].source in Depths(root, 1);
        var before, wrong := CountDemands(rounds + 1);
        if wrong {
          failed := true;
          return;
        }
        AllAddedCover(scopes, before, ack, was, acknowledged, demands);
        LoadAdded(before, tables, was, rounds + 1);
        EvictDropped(before, tables, was, rounds + 1);
        rounds := rounds + 1;
      }
      SettledCounts(root, scopes, acknowledged, inputs, demands);
    }

    // What a commit changes in one scope; rows under keys that are not live are ignored.
    method FilterChanges(s: SourceId, commit: Commit, ghost tables: Tables) returns (changes: seq<RowChange>)
      requires s in scopes && s in inputs && Exact(scopes[s], inputs[s], LiveOf(scopes[s], CountsAt(demands, s)), tables)
      ensures Exact(scopes[s], AcceptRows(inputs[s], changes), LiveOf(scopes[s], CountsAt(demands, s)), Committed(tables, commit.changes))
    {
      hide Exact, AcceptRow, RowKey, LiveOf, Committed;
      var scope, live := scopes[s], LiveOf(scopes[s], CountsAt(demands, s));
      var input := inputs[s];
      changes := [];
      assert commit.changes[..0] == [];
      NothingCommitted(tables);
      for i := 0 to |commit.changes|
        invariant input == AcceptRows(inputs[s], changes)
        invariant Exact(scope, input, live, Committed(tables, commit.changes[..i]))
      {
        var c := commit.changes[i];
        CommitStep(scope, live, input, tables, commit.changes, i);
        if c.table == scope.table {
          var filtered := RowChange(c.change.key, Visible(scope, live, c.change.after));
          if RowId(c.change.key) in input.rows || filtered.after.Some? {
            assert (changes + [filtered])[..|changes|] == changes;
            changes := changes + [filtered];
            input := AcceptRow(input, filtered);
          } else {
            SkipAbsent(input, c.change.key);
          }
        }
      }
      assert commit.changes[..|commit.changes|] == commit.changes;
    }

    constructor (schema: Planner.Schema, root: Node, engine: Engine, ghost history: History)
      requires Numbered(schema, history)
      requires Known(schema, root) && OwnSources(root) && WellScoped(root, false) && Faithful(root, engine)
      ensures Following() && lastSequence == -1 && delivered == history.start
      ensures this.root == root && this.schema == schema && this.history == history
    {
      this.schema, this.root, this.engine, this.history := schema, root, engine, history;
      lastSequence, live, buffer, delivered := -1, false, [], history.start;
      var all := Scopes(schema, root);
      var empty := map s | s in all :: NoInput;
      scopes, inputs := all, empty;
      demands, pending, ticks := map[], [], 0;
      acknowledged := map[];
      ScopesLoadable(schema, root);
      NothingStarts(root, all, empty);
    }

    // Loads what needs no outer row, then whatever the engine asks for.
    method Bootstrap(tables: Tables) returns (failed: bool)
      requires Valid() && pending == [] && demands == map[] && StoredTables(schema, tables)
      requires forall s :: s in inputs ==> inputs[s] == NoInput
      modifies this`inputs, this`demands, this`pending, this`ticks, this`acknowledged
      ensures !failed && Settled(tables)
    {
      hide AllCounted, AllExact, Pends, Depths, StoredTable, Known, OwnSources, WellScoped, Faithful, Scopes, Loading, CountedMatches, Loads, Held, SeedAll;
      var todo := NotOnDemand(scopes);
      StartLoading(scopes, inputs, tables);
      while todo != {}
        invariant Valid() && demands == map[]
        invariant todo <= NotOnDemand(scopes)
        invariant Loading(scopes, inputs, todo, tables)
        decreases |todo|
      {
        var s :| s in todo;
        var scope := scopes[s];
        var loaded := LoadRows(schema[scope.table], TableOf(tables, scope.table), scope, Executor.ResolveAll(scope.key, map[]));
        LoadStatic(scopes, inputs, todo, tables, s, loaded);
        Emit(s, SeedAll(inputs[s], loaded));
        todo := todo - {s};
      }
      LoadedAll(scopes, inputs, tables);
      var rounds;
      rounds, failed := SettleDemands(tables);
    }

    method ApplyScope(s: SourceId, commit: Commit, ghost todo: set<SourceId>, ghost tables: Tables)
      requires Valid() && s in scopes && s in todo
      requires Applying(scopes, inputs, demands, todo, tables, Committed(tables, commit.changes))
      modifies this`inputs, this`pending, this`ticks
      ensures Valid() && Applying(scopes, inputs, demands, todo - {s}, tables, Committed(tables, commit.changes))
    {
      hide AllCounted, Pends, Depths, Compiled, Exact, LiveOf, Committed, AcceptRows;
      assert Exact(scopes[s], inputs[s], LiveOf(scopes[s], CountsAt(demands, s)), tables);
      var changes := FilterChanges(s, commit, tables);
      Emit(s, AcceptRows(inputs[s], changes));
    }

    // After a commit the rows, the counts and the result are those of the committed tables.
    method Apply(commit: Commit, ghost tables: Tables, after: Tables) returns (failed: bool)
      requires Settled(tables) && after == Committed(tables, commit.changes) && StoredTables(schema, after)
      modifies this`inputs, this`demands, this`pending, this`ticks, this`acknowledged
      ensures !failed && Settled(after)
    {
      hide AllCounted, AllExact, Pends, Depths, Compiled, Applying, Exact, CountedMatches, StoredTables, Touches;
      failed := false;
      if Touches(scopes, commit.changes) {
        var todo := scopes.Keys;
        StartApplying(scopes, inputs, demands, tables, after);
        while todo != {}
          invariant Valid() && todo <= scopes.Keys
          invariant Applying(scopes, inputs, demands, todo, tables, after)
          decreases |todo|
        {
          var s :| s in todo;
          ApplyScope(s, commit, todo, tables);
          todo := todo - {s};
        }
        EndApplying(scopes, inputs, demands, tables, after);
        if pending != [] {
          var rounds;
          rounds, failed := SettleDemands(after);
        } else {
          SettledCounts(root, scopes, acknowledged, inputs, demands);
        }
      } else {
        UntouchedExact(scopes, inputs, demands, tables, commit.changes);
      }
    }

    /** Whatever was loaded so far, the query over it is the query over the whole tables. */
    lemma Published(tables: Tables, full: Database)
      requires Settled(tables) && StoredTables(schema, tables) && Completes(scopes, inputs, tables, full)
      ensures Evaluate(root, RowsAt(inputs), map[]) == Evaluate(root, full, map[])
    {
      hide Evaluate, CountedMatches, AllExact, Completes, StoredTables, Pends, AllCounted;
      PublishedIsWhole(schema, root, scopes, inputs, demands, tables, full);
    }

    ghost predicate Following()
      reads this
    {
      && Numbered(schema, history)
      && lastSequence >= -1
      && (lastSequence == -1 ==> Valid() && pending == [] && demands == map[] && !live && forall s :: s in inputs ==> inputs[s] == NoInput)
      && (lastSequence >= 0 ==> history.start <= lastSequence && Settled(TablesAt(history, lastSequence)))
      && Buffered(history, buffer, if lastSequence == -1 then history.start else lastSequence, delivered)
      && (live ==> lastSequence >= 0 && buffer == [] && delivered <= lastSequence)
    }

    // The storage publishes the next commit; the snapshot is the one opened at that commit.
    method Accept(commit: Commit, snapshot: Tables) returns (failed: bool)
      requires Following() && commit == history.commits(delivered + 1) && snapshot == TablesAt(history, delivered + 1)
      modifies this
      ensures !failed && Following() && delivered == old(delivered) + 1
      ensures live == old(live) && lastSequence >= old(lastSequence)
    {
      hide Settled, Buffered, Valid, StoredTables;
      failed := false;
      delivered := delivered + 1;
      if commit.sequence <= lastSequence {
        DeliverOld(history, buffer, lastSequence, delivered - 1);
      } else if !live {
        BufferMore(history, buffer, if lastSequence == -1 then history.start else lastSequence, delivered - 1, commit);
        buffer := buffer + [commit];
      } else {
        BufferLive(history, lastSequence, delivered - 1);
        failed := Apply(commit, TablesAt(history, lastSequence), snapshot);
        lastSequence := commit.sequence;
      }
    }

    // The first snapshot: it is not older than the registration.
    method Start(sequence: nat, tables: Tables) returns (failed: bool)
      requires Following() && lastSequence == -1
      requires history.start <= sequence && tables == TablesAt(history, sequence)
      modifies this
      ensures !failed && Following() && lastSequence == sequence && delivered == old(delivered)
    {
      hide Settled, Valid, StoredTables, TablesAt;
      StartBuffer(history, buffer, sequence, delivered);
      failed := Bootstrap(tables);
      lastSequence := sequence;
    }

    // One commit that arrived while the subscription was starting.
    method Drain(snapshot: Tables) returns (failed: bool)
      requires Following() && lastSequence >= 0 && buffer != []
      requires 0 <= buffer[0].sequence && snapshot == TablesAt(history, buffer[0].sequence)
      modifies this
      ensures !failed && Following() && |buffer| == |old(buffer)| - 1 && delivered == old(delivered)
    {
      hide Settled, Buffered, Valid, StoredTables;
      failed := false;
      var commit := buffer[0];
      BufferFirst(history, buffer, lastSequence, delivered);
      buffer := buffer[1..];
      if commit.sequence > lastSequence {
        failed := Apply(commit, TablesAt(history, lastSequence), snapshot);
        lastSequence := commit.sequence;
      }
    }

    method GoLive()
      requires Following() && lastSequence >= 0 && buffer == []
      modifies this`live
      ensures Following() && live
    {
      BufferedNone(history, lastSequence, delivered);
      live := true;
    }
  }
}
