// What a collection takes, over whole runs: commits that the retention policy gives up, and pages that nothing reaches.
module KeyValueRetention {
  import opened PageGraph
  import opened KeyValueStorage
  import opened KeyValueInvariants
  import opened KeyValueCommits
  import opened KeyValueCollection
  import opened KeyValueSafety

  // ---------- which commits a slice loses ----------

  // The commit is old in its branch, and old in time if the policy has an age.
  predicate Expired(retention: Retention, sequences: map<Name, nat>, now: int, c: Commit) {
    && retention.Window? && c.branch in sequences
    && c.sequence + retention.keepAtLeast <= sequences[c.branch]
    && (retention.keepYoungerThan.Some? ==> c.committedAt.Some? && c.committedAt.value < now - retention.keepYoungerThan.value)
  }

  /** A slice loses exactly its expired commits that no snapshot pins, no name retains, no branch starts or ends at and no
      stream has still to deliver. */
  lemma SelectedExactly(s: State, cycle: Cycle, slice: set<CommitId>, id: CommitId)
    ensures id in Selected(s, cycle, slice) ==> id in s.store.commits
    ensures id in s.store.commits ==>
      var c := s.store.commits[id];
      (id in Selected(s, cycle, slice) <==>
        (&& id in slice && Expired(cycle.retention, cycle.sequences, cycle.now, c)
         && s.pins[id] == 0 && id !in s.retains.Values
         && (forall b :: b in s.branches ==> s.branches[b].head != id && s.branches[b].base != id)
         && (forall i :: i in s.readers && s.readers[i].branch == c.branch ==> c.sequence <= s.readers[i].retainAfter)))
  {
    assert id in Heads(s.branches) <==> exists b :: b in s.branches && s.branches[b].head == id;
    assert id in Bases(s.branches) <==> exists b :: b in s.branches && s.branches[b].base == id;
  }

  // ---------- where a cycle comes from ----------

  // The cycle was captured by the collection that started at step k.
  ghost predicate CapturedAt(states: seq<State>, steps: seq<Step>, k: nat, cycle: Cycle) {
    && k < |steps| && k < |states| && steps[k].StartStep?
    && cycle.retention == states[k].store.retention && cycle.now == steps[k].now
    && cycle.sequences == (map b | b in states[k].branches :: states[k].branches[b].sequence)
    && cycle.cutoff == states[k].nextPageId
  }

  lemma PhaseStep(s: State, step: Step)
    requires Enabled(s, step)
    ensures step.StartStep? ==>
      && Active(Do(s, step).phase) && Do(s, step).phase.cycle.retention == s.store.retention && Do(s, step).phase.cycle.now == step.now
      && Do(s, step).phase.cycle.sequences == (map b | b in s.branches :: s.branches[b].sequence)
      && Do(s, step).phase.cycle.cutoff == s.nextPageId
    ensures !step.StartStep? && Active(Do(s, step).phase) ==> Active(s.phase) && Do(s, step).phase.cycle == s.phase.cycle
  {
    hide CanBeginCommit, CanSelect, CanSubscribe, PushedAll, WithFloors, Moments, Selected, RaisedFloors, Garbage, Skipped;
  }

  lemma {:induction false} CycleCaptured(states: seq<State>, steps: seq<Step>, i: nat)
    requires IsRun(states, steps) && i < |states| && Active(states[i].phase)
    ensures exists k: nat :: k < i && CapturedAt(states, steps, k, states[i].phase.cycle)
  {
    hide Enabled, Do;
    if i == 0 {
      StartsResting(states, steps);
    } else {
      assert steps[i - 1] == steps[i - 1];
      PhaseStep(states[i - 1], steps[i - 1]);
      if steps[i - 1].StartStep? {
        assert CapturedAt(states, steps, i - 1, states[i].phase.cycle);
      } else {
        CycleCaptured(states, steps, i - 1);
      }
    }
  }

  // ---------- what is removed has expired ----------

  // A prune in progress removes expired commits of its cycle only.
  ghost predicate RemovesExpired(s: State) {
    s.job.Pruning? && !s.job.published ==>
      && Active(s.phase)
      && forall id :: id in s.job.removed ==>
           id in s.store.commits && Expired(s.phase.cycle.retention, s.phase.cycle.sequences, s.phase.cycle.now, s.store.commits[id])
  }

  lemma SelectRemovesExpired(s: State, slice: set<CommitId>, floors: map<Name, nat>)
    requires CanSelect(s, slice, floors)
    ensures RemovesExpired(Select(s, slice, floors))
  {
    hide RaisedFloors;
    forall id | id in Selected(s, s.phase.cycle, slice)
      ensures id in s.store.commits && Expired(s.phase.cycle.retention, s.phase.cycle.sequences, s.phase.cycle.now, s.store.commits[id])
    {
      SelectedExactly(s, s.phase.cycle, slice, id);
    }
  }

  lemma Selecting(s: State, step: Step)
    requires Enabled(s, step) && step.SelectStep?
    ensures CanSelect(s, step.slice, step.floors) && Do(s, step) == Select(s, step.slice, step.floors)
  {
  }

  // A prune that is not published yet keeps its selection, and the commits stay.
  ghost predicate SamePrune(s: State, s': State) {
    s'.job.Pruning? && !s'.job.published ==>
      s'.job == s.job && s'.store.commits == s.store.commits && (Active(s.phase) ==> Active(s'.phase) && s'.phase.cycle == s.phase.cycle)
  }

  predicate Queued(step: Step) {
    || step.BeginCommitStep? || step.PublishCommitStep? || step.SettleCommitStep? || step.AbortCommitStep? || step.CreateBranchStep?
    || step.RetainStep? || step.ReleaseStep? || step.PublishPruneStep? || step.SettlePruneStep? || step.ReopenStep?
  }

  // Nothing that is queued runs meanwhile.
  lemma QueuedPrune(s: State, step: Step)
    requires Enabled(s, step) && Queued(step)
    ensures SamePrune(s, Do(s, step))
  {
    hide PushedAll, WithFloors, Moments, Derived, DerivedRoots;
  }

  lemma SnapshotPrune(s: State, step: Step)
    requires Enabled(s, step)
    requires step.PinStep? || step.OpenStep? || step.FailToOpenStep? || step.CloseStep? || step.SubscribeStep? || step.ReplayStep? || step.DeliverStep? || step.UnsubscribeStep?
    ensures SamePrune(s, Do(s, step))
  {
    hide CanBeginCommit, CanSelect, CanMarkCommit, CanMarkPage;
  }

  lemma CollectorPrune(s: State, step: Step)
    requires Enabled(s, step)
    requires step.StartStep? || step.StopStep? || step.BeginMarkStep? || step.MarkCommitStep? || step.MarkPageStep? || step.BeginSweepStep? || step.SweepSliceStep?
    ensures SamePrune(s, Do(s, step))
  {
    hide CanBeginCommit, CanSelect, Garbage, Skipped, Sequences, Heads;
  }

  lemma PruningStep(s: State, step: Step)
    requires Enabled(s, step) && !step.SelectStep?
    ensures SamePrune(s, Do(s, step))
  {
    hide Enabled, Do, SamePrune;
    match step
    case PinStep(_) | OpenStep(_) | FailToOpenStep(_) | CloseStep(_) => SnapshotPrune(s, step);
    case SubscribeStep(_, _, _) | ReplayStep(_) | DeliverStep(_) | UnsubscribeStep(_) => SnapshotPrune(s, step);
    case StartStep(_) | StopStep | BeginMarkStep | MarkCommitStep(_, _) | MarkPageStep | BeginSweepStep | SweepSliceStep(_) => CollectorPrune(s, step);
    case _ => QueuedPrune(s, step);
  }

  lemma StepRemovesExpired(s: State, step: Step)
    requires RemovesExpired(s) && Enabled(s, step)
    ensures RemovesExpired(Do(s, step))
  {
    hide Enabled, Do, Expired;
    if step.SelectStep? {
      Selecting(s, step);
      SelectRemovesExpired(s, step.slice, step.floors);
    } else {
      PruningStep(s, step);
    }
  }

  lemma {:induction false} RunRemovesExpired(states: seq<State>, steps: seq<Step>, i: nat)
    requires IsRun(states, steps) && i < |states|
    ensures RemovesExpired(states[i])
  {
    hide Enabled, Do, Expired;
    if i == 0 {
      StartsResting(states, steps);
    } else {
      assert steps[i - 1] == steps[i - 1];
      RunRemovesExpired(states, steps, i - 1);
      StepRemovesExpired(states[i - 1], steps[i - 1]);
    }
  }

  // Only publishing a prune takes commits from the store.
  lemma StepKeepsCommits(s: State, step: Step)
    requires Enabled(s, step)
    ensures !step.PublishPruneStep? ==> s.store.commits.Keys <= Do(s, step).store.commits.Keys
    ensures step.PublishPruneStep? ==> s.job.Pruning? && !s.job.published && Do(s, step).store.commits == s.store.commits - s.job.removed
  {
    hide CanBeginCommit, CanMarkCommit, CanSelect, CanSubscribe, PushedAll, WithFloors, Moments, Selected, RaisedFloors, Garbage, Skipped;
  }

  /** A commit record disappears only because the policy in force when the collection started gave it up: it was at least
      keepAtLeast behind its branch then, and older than the policy's age if there is one. */
  lemma RemovedHasExpired(states: seq<State>, steps: seq<Step>, i: nat, id: CommitId)
    requires IsRun(states, steps) && i < |steps| && id in states[i].store.commits && id !in states[i + 1].store.commits
    ensures exists k: nat :: k < i && GivenUpAt(states, steps, k, states[i].store.commits[id])
  {
    hide Enabled, Do;
    assert steps[i] == steps[i];
    StepKeepsCommits(states[i], steps[i]);
    RunRemovesExpired(states, steps, i);
    CycleCaptured(states, steps, i);
    var k: nat :| k < i && CapturedAt(states, steps, k, states[i].phase.cycle);
    assert GivenUpAt(states, steps, k, states[i].store.commits[id]);
  }

  // The collection that starts at step k no longer keeps the commit.
  ghost predicate GivenUpAt(states: seq<State>, steps: seq<Step>, k: nat, c: Commit) {
    && k < |states| && k < |steps| && steps[k].StartStep?
    && RemovedBy(states[k].store.retention, states[k].branches, steps[k].now, c)
  }

  predicate RemovedBy(retention: Retention, branches: Branches, now: int, c: Commit) {
    && retention.Window? && c.branch in branches
    && c.sequence + retention.keepAtLeast <= branches[c.branch].sequence
    && (retention.keepYoungerThan.Some? ==> c.committedAt.Some? && c.committedAt.value < now - retention.keepYoungerThan.value)
  }

  // ---------- floors ----------

  // A floor only rises to the sequence of a commit that goes.
  ghost predicate FloorsStay(s: State, s': State) {
    forall b :: b in s.store.branches ==> FloorStays(s, s', b)
  }

  ghost predicate FloorStays(s: State, s': State, b: Name)
    requires b in s.store.branches
  {
    b in s'.store.branches && (s'.store.branches[b].floor == s.store.branches[b].floor || GoesAt(s, s', b))
  }

  ghost predicate GoesAt(s: State, s': State, b: Name)
    requires b in s'.store.branches
  {
    exists id :: id in s.store.commits && id !in s'.store.commits
      && s.store.commits[id].branch == b && s.store.commits[id].sequence == s'.store.branches[b].floor
  }

  lemma StepFloors(s: State, step: Step)
    requires Inv(s) && Enabled(s, step)
    ensures FloorsStay(s, Do(s, step))
  {
    hide Inv, Enabled, Do;
    if step.PublishPruneStep? {
      Pruned(s, step);
      PruneFloors(s);
    } else {
      OtherFloors(s, step);
    }
  }

  lemma Pruned(s: State, step: Step)
    requires Enabled(s, step) && step.PublishPruneStep?
    ensures CanPublishPrune(s) && Do(s, step) == PublishPrune(s)
  {
  }

  lemma PruneFloors(s: State)
    requires Inv(s) && CanPublishPrune(s)
    ensures FloorsStay(s, PublishPrune(s))
  {
    hide StoreOk, CollectionOk, Named, Opened, ReadersOk, CommitReady, Unnamed, Unpinned, Moments;
    var s' := PublishPrune(s);
    forall b | b in s.store.branches ensures FloorStays(s, s', b) {
      if b in s.job.floors && s.job.floors[b] != s.branches[b].floor {
        var id :| id in s.job.removed && id in s.store.commits && s.store.commits[id].branch == b && s.store.commits[id].sequence == s.job.floors[b];
        assert GoesAt(s, s', b);
      }
    }
  }

  lemma OtherFloors(s: State, step: Step)
    requires Inv(s) && Enabled(s, step) && !step.PublishPruneStep?
    ensures FloorsStay(s, Do(s, step))
  {
    hide StoreOk, CollectionOk, Named, Opened, ReadersOk, PruneReady, CanBeginCommit, CanMarkCommit, CanSelect, CanSubscribe, PushedAll, Moments,
      Selected, RaisedFloors, Garbage, Skipped, GoesAt, CommitReady;
  }

  /** A floor that rises has lost the commit at its new place. */
  lemma FloorRisesByLoss(states: seq<State>, steps: seq<Step>, i: nat, b: Name)
    requires IsRun(states, steps) && i < |steps| && b in states[i].store.branches
    ensures b in states[i + 1].store.branches
    ensures states[i + 1].store.branches[b].floor != states[i].store.branches[b].floor ==> GoesAt(states[i], states[i + 1], b)
  {
    hide Inv, Enabled, Do, GoesAt;
    assert steps[i] == steps[i];
    RunKeeps(states, steps, i);
    StepFloors(states[i], steps[i]);
  }

  /** While the policy is to keep forever, no commit record disappears and no floor rises. */
  lemma {:induction false} ForeverKeepsAll(states: seq<State>, steps: seq<Step>, i: nat, j: nat)
    requires IsRun(states, steps) && i <= j < |states|
    requires forall k :: 0 <= k < j ==> states[k].store.retention.Forever?
    ensures forall id :: id in states[i].store.commits ==> id in states[j].store.commits
    ensures forall b :: b in states[i].store.branches ==>
      b in states[j].store.branches && states[j].store.branches[b].floor == states[i].store.branches[b].floor
    decreases j
  {
    hide IsRun, RemovedBy;
    if i < j {
      ForeverKeepsAll(states, steps, i, j - 1);
      RunShape(states, steps);
      forall id | id in states[j - 1].store.commits ensures id in states[j].store.commits {
        if id !in states[j].store.commits {
          RemovedHasExpired(states, steps, j - 1, id);
          var k: nat :| k < j - 1 && GivenUpAt(states, steps, k, states[j - 1].store.commits[id]);
          NotForever(states[k].store.retention, states[k].branches, steps[k].now, states[j - 1].store.commits[id]);
        }
      }
      forall b | b in states[j - 1].store.branches
        ensures b in states[j].store.branches && states[j].store.branches[b].floor == states[j - 1].store.branches[b].floor
      {
        FloorRisesByLoss(states, steps, j - 1, b);
      }
    }
  }

  lemma RunShape(states: seq<State>, steps: seq<Step>)
    requires IsRun(states, steps)
    ensures |states| == |steps| + 1
  {
  }

  lemma NotForever(retention: Retention, branches: Branches, now: int, c: Commit)
    requires RemovedBy(retention, branches, now, c)
    ensures !retention.Forever?
  {
  }

  // ---------- what a completed sweep leaves ----------

  // While marking and sweeping, every marked page is one that a present commit reaches.
  ghost predicate MarkedAlive(s: State) {
    (s.phase.Mark? || s.phase.Sweep?) ==> forall p :: p in s.phase.marked ==> Alive(s.store.commits, s.graph, p)
  }

  lemma AliveLater(commits: Commits, graph: Graph, limit: PageId, commits': Commits, graph': Graph, p: PageId)
    requires Alive(commits, graph, p) && WellFounded(graph, limit) && Grows(graph, graph')
    requires forall c :: c in commits ==> c in commits' && commits'[c] == commits[c] && forall r :: r in commits[c].roots ==> r in graph
    ensures Alive(commits', graph', p)
  {
    hide ReachedBy;
    var c :| c in commits && ReachedBy(graph, commits[c].roots, p);
    ReachedStable(graph, limit, graph', commits[c].roots, p);
  }

  // Whatever else happens in these phases, commits and pages are only added.
  lemma MarkingStep(s: State, step: Step)
    requires Inv(s) && Enabled(s, step) && (s.phase.Mark? || s.phase.Sweep?)
    ensures !step.ReopenStep? ==> forall c :: c in s.store.commits ==> c in Do(s, step).store.commits && Do(s, step).store.commits[c] == s.store.commits[c]
    ensures Grows(s.graph, Do(s, step).graph)
    ensures !step.SweepSliceStep? ==> s.store.pages <= Do(s, step).store.pages
    ensures forall p :: p in Do(s, step).store.pages && p !in s.store.pages ==> p >= s.phase.cycle.cutoff
    ensures step.SweepSliceStep? ==>
      Do(s, step).store.pages == set p | p in s.store.pages && !(p in step.pages && p < s.phase.cycle.cutoff && p !in s.phase.marked)
    ensures Do(s, step).phase.Sweep? ==>
      Do(s, step).phase.cycle == s.phase.cycle && Do(s, step).phase.marked == s.phase.marked
  {
    hide Inv, Enabled, Do;
    NotPruning(s);
    StepChangesNothing(s, step);
    StepKeepsCommits(s, step);
    hide Keeps;
    Pages(s, step);
  }

  lemma Pages(s: State, step: Step)
    requires Inv(s) && Enabled(s, step) && (s.phase.Mark? || s.phase.Sweep?)
    ensures !step.SweepSliceStep? ==> s.store.pages <= Do(s, step).store.pages
    ensures forall p :: p in Do(s, step).store.pages && p !in s.store.pages ==> p >= s.phase.cycle.cutoff
    ensures step.SweepSliceStep? ==>
      Do(s, step).store.pages == set p | p in s.store.pages && !(p in step.pages && p < s.phase.cycle.cutoff && p !in s.phase.marked)
    ensures Do(s, step).phase.Sweep? ==>
      Do(s, step).phase.cycle == s.phase.cycle && Do(s, step).phase.marked == s.phase.marked
  {
    hide StoreOk, MemoryOk, CycleOk, PhaseOk, CanBeginCommit, CanSelect, CanSubscribe, PushedAll, WithFloors, Moments,
      Selected, RaisedFloors, Skipped;
  }

  lemma RootsThere(s: State)
    requires Inv(s)
    ensures WellFounded(s.graph, s.store.nextPageId)
    ensures forall c, r :: c in s.store.commits && r in s.store.commits[c].roots ==> r in s.graph
  {
    hide MemoryOk, CollectionOk, Named, Shape, NoGaps, Dense, Recorded, Retained, WellFounded, ReachedBy;
  }

  // What a step adds to the marks.
  lemma MarkedBy(s: State, step: Step)
    requires Enabled(s, step)
    ensures step.BeginMarkStep? ==> Do(s, step).phase.Mark? && Do(s, step).phase.marked == {}
    ensures var s' := Do(s, step);
      (s'.phase.Mark? || s'.phase.Sweep?) ==>
        || (step.BeginMarkStep? && s'.phase.marked == {})
        || ((s.phase.Mark? || s.phase.Sweep?) && s'.phase.marked == s.phase.marked)
        || (step.MarkPageStep? && s.phase.Mark? && s.phase.pending != []
            && s'.phase.marked == s.phase.marked + {s.phase.pending[|s.phase.pending| - 1]})
  {
    hide CanBeginCommit, CanSelect, CanSubscribe, PushedAll, WithFloors, Moments, Selected, RaisedFloors, Garbage;
  }

  lemma PendingAlive(s: State, p: PageId)
    requires Inv(s) && s.phase.Mark? && p in s.phase.pending
    ensures Alive(s.store.commits, s.graph, p)
  {
    hide StoreOk, MemoryOk, CycleOk, Alive;
    hide Inv;
    NotPruning(s);
  }

  lemma StepMarksAlive(s: State, step: Step)
    requires Inv(s) && Enabled(s, step) && MarkedAlive(s)
    ensures MarkedAlive(Do(s, step))
  {
    hide Inv, Enabled, Do, Alive;
    var s' := Do(s, step);
    MarkedBy(s, step);
    if (s'.phase.Mark? || s'.phase.Sweep?) && (s.phase.Mark? || s.phase.Sweep?) && !step.BeginMarkStep? {
      StillMarking(s, step);
      MarkingStep(s, step);
      RootsThere(s);
      forall p | p in s'.phase.marked ensures Alive(s'.store.commits, s'.graph, p) {
        if p !in s.phase.marked {
          PendingAlive(s, p);
        }
        AliveLater(s.store.commits, s.graph, s.store.nextPageId, s'.store.commits, s'.graph, p);
      }
    }
  }

  lemma StillMarking(s: State, step: Step)
    requires Enabled(s, step) && (Do(s, step).phase.Mark? || Do(s, step).phase.Sweep?)
    ensures !step.ReopenStep?
  {
  }

  lemma {:induction false} RunMarksAlive(states: seq<State>, steps: seq<Step>, i: nat)
    requires IsRun(states, steps) && i < |states|
    ensures MarkedAlive(states[i])
  {
    hide Enabled, Do, Inv, Alive;
    if i == 0 {
      StartsResting(states, steps);
    } else {
      assert steps[i - 1] == steps[i - 1];
      RunMarksAlive(states, steps, i - 1);
      RunKeeps(states, steps, i - 1);
      StepMarksAlive(states[i - 1], steps[i - 1]);
    }
  }

  // From step a on the run only sweeps, whatever other operations do between the slices.
  ghost predicate Sweeping(states: seq<State>, steps: seq<Step>, a: nat, e: nat) {
    && a <= e < |states| && |states| == |steps| + 1
    && forall k :: a <= k <= e ==> states[k].phase.Sweep?
  }

  // Some slice between has the page.
  ghost predicate Offered(steps: seq<Step>, a: nat, e: nat, p: PageId) {
    exists k :: a <= k < e && k < |steps| && steps[k].SweepSliceStep? && p in steps[k].pages
  }

  // An old page that is still there was there all the time, and no slice that had it found it unmarked.
  lemma {:induction false} SurvivorIsMarked(states: seq<State>, steps: seq<Step>, a: nat, e: nat, p: PageId)
    requires IsRun(states, steps) && Sweeping(states, steps, a, e)
    requires p in states[e].store.pages && p < states[a].phase.cycle.cutoff
    ensures p in states[a].store.pages && states[e].phase.marked == states[a].phase.marked && states[e].phase.cycle == states[a].phase.cycle
    ensures Offered(steps, a, e, p) ==> p in states[a].phase.marked
    decreases e
  {
    hide Enabled, Do, Inv;
    if a < e {
      assert steps[e - 1] == steps[e - 1];
      RunKeeps(states, steps, e - 1);
      MarkingStep(states[e - 1], steps[e - 1]);
      SweepGoesOn(states, steps, a, e - 1);
      SurvivorIsMarked(states, steps, a, e - 1, p);
    }
  }

  lemma {:induction false} SweepGoesOn(states: seq<State>, steps: seq<Step>, a: nat, e: nat)
    requires IsRun(states, steps) && Sweeping(states, steps, a, e)
    ensures states[e].phase.cycle == states[a].phase.cycle
    decreases e
  {
    hide Enabled, Do, Inv;
    if a < e {
      assert steps[e - 1] == steps[e - 1];
      RunKeeps(states, steps, e - 1);
      MarkingStep(states[e - 1], steps[e - 1]);
      SweepGoesOn(states, steps, a, e - 1);
    }
  }

  /** When every old page has been in some slice of a sweep, the old pages that are left are exactly those that a present
      commit reaches. */
  lemma SweepReclaims(states: seq<State>, steps: seq<Step>, a: nat, e: nat, p: PageId)
    requires IsRun(states, steps) && Sweeping(states, steps, a, e) && p < states[a].phase.cycle.cutoff
    requires forall q :: q in states[a].store.pages && q < states[a].phase.cycle.cutoff ==> Offered(steps, a, e, q)
    ensures p in states[e].store.pages
      <==> exists c :: c in states[e].store.commits && ReachedBy(states[e].graph, states[e].store.commits[c].roots, p)
  {
    hide Enabled, Do, Inv, ReachedBy;
    if p in states[e].store.pages {
      SurvivorIsMarked(states, steps, a, e, p);
      RunMarksAlive(states, steps, e);
      assert Alive(states[e].store.commits, states[e].graph, p);
    } else if c :| c in states[e].store.commits && ReachedBy(states[e].graph, states[e].store.commits[c].roots, p) {
      RunKeeps(states, steps, e);
      InvPages(states[e]);
    }
  }
}
