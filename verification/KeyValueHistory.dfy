// What callers of the key-value database can count on over whole runs: a commit lands as it was asked for, what they hold
// stays, and a stream delivers from the cursor that it was given.
module KeyValueHistory {
  import opened PageGraph
  import opened KeyValueStorage
  import opened KeyValueInvariants
  import opened KeyValueSafety

  // ---------- commits ----------

  // The commit in progress is the one asked for at step k, on the branches of that moment.
  ghost predicate BegunAt(states: seq<State>, steps: seq<Step>, k: nat, s: State) {
    && k < |steps| && k < |states| && steps[k].BeginCommitStep? && steps[k].b in states[k].branches
    && states[k].job == NoJob && s.job.Committing?
    && s.job.id == steps[k].id && s.job.written == steps[k].written && s.branches == states[k].branches
    && s.job.commit == Commit(steps[k].b, states[k].branches[steps[k].b].sequence + 1, steps[k].roots, Some(steps[k].at))
  }

  lemma JobStep(s: State, step: Step)
    requires Enabled(s, step) && Do(s, step).job.Committing?
    ensures !step.BeginCommitStep? ==>
      && s.job.Committing? && Do(s, step).branches == s.branches
      && Do(s, step).job.id == s.job.id && Do(s, step).job.commit == s.job.commit && Do(s, step).job.written == s.job.written
    ensures step.BeginCommitStep? ==>
      && s.job == NoJob && step.b in s.branches && Do(s, step).branches == s.branches
      && Do(s, step).job.id == step.id && Do(s, step).job.written == step.written
      && Do(s, step).job.commit == Commit(step.b, s.branches[step.b].sequence + 1, step.roots, Some(step.at))
  {
    hide CanSelect, CanSubscribe, PushedAll, WithFloors, Moments, Selected, RaisedFloors, Garbage, Skipped, Derived, DerivedRoots;
  }

  lemma {:induction false} CommitBegun(states: seq<State>, steps: seq<Step>, i: nat)
    requires IsRun(states, steps) && i < |states| && states[i].job.Committing?
    ensures exists k: nat :: k < i && BegunAt(states, steps, k, states[i])
  {
    hide Enabled, Do;
    if i == 0 {
      StartsResting(states, steps);
    } else {
      assert steps[i - 1] == steps[i - 1];
      JobStep(states[i - 1], steps[i - 1]);
      if steps[i - 1].BeginCommitStep? {
        assert BegunAt(states, steps, i - 1, states[i]);
      } else {
        CommitBegun(states, steps, i - 1);
        var k: nat :| k < i - 1 && BegunAt(states, steps, k, states[i - 1]);
        assert BegunAt(states, steps, k, states[i]);
      }
    }
  }

  // Step j publishes what step k asked for, on the head that the branch had then.
  ghost predicate Lands(states: seq<State>, steps: seq<Step>, k: nat, j: nat) {
    && k < j < |steps| && j + 1 < |states| && steps[k].BeginCommitStep? && steps[k].b in states[k].store.branches
    && Landed(steps[k], states[k].store.branches[steps[k].b], states[j], states[j + 1])
  }

  ghost predicate Landed(step: Step, branch: Branch, s: State, s': State)
    requires step.BeginCommitStep?
  {
    var moment := Moment(step.b, branch.sequence + 1);
    && step.id !in s.store.commits && step.b in s.store.branches && s.store.branches[step.b] == branch
    && s'.store.commits == s.store.commits[step.id := Commit(step.b, moment.sequence, step.roots, Some(step.at))]
    && s'.store.branches == s.store.branches[step.b := Branch(step.id, branch.base, moment.sequence, branch.floor)]
    && s'.store.pages == s.store.pages + step.written.Keys && s'.graph == s.graph + step.written
    && s'.store.history == s.store.history[moment := step.id] && s'.ever == s.ever[moment := step.id]
    && s'.store.retains == s.store.retains && s'.store.retention == s.store.retention
  }

  lemma QuietBranches(s: State)
    requires Inv(s)
    ensures s.job == NoJob ==> s.branches == s.store.branches
    ensures s.job.Committing? && !s.job.published ==> s.branches == s.store.branches && s.job.id !in s.store.commits
  {
    hide StoreOk, CollectionOk, Named, Opened, ReadersOk, PruneReady;
  }

  lemma PublishLands(step: Step, branch: Branch, s: State)
    requires Inv(s) && CanPublishCommit(s) && step.BeginCommitStep? && step.b in s.branches && branch == s.branches[step.b]
    requires s.job.id == step.id && s.job.written == step.written
    requires s.job.commit == Commit(step.b, branch.sequence + 1, step.roots, Some(step.at))
    ensures Landed(step, branch, s, PublishCommit(s))
  {
    hide Inv;
    QuietBranches(s);
  }

  lemma PublishStep(s: State, step: Step)
    requires Enabled(s, step) && step.PublishCommitStep?
    ensures CanPublishCommit(s) && Do(s, step) == PublishCommit(s)
  {
  }

  /** What a commit publishes is what was asked for: its record with the given roots, the next sequence on the branch as it was
      when the commit began, its pages, and nothing else. */
  lemma CommitLands(states: seq<State>, steps: seq<Step>, j: nat)
    requires IsRun(states, steps) && j < |steps| && steps[j].PublishCommitStep?
    ensures exists k: nat :: k < j && Lands(states, steps, k, j)
  {
    hide Enabled, Do, Inv, Landed, CanPublishCommit, PublishCommit;
    assert steps[j] == steps[j];
    PublishStep(states[j], steps[j]);
    Publishing(states[j]);
    CommitBegun(states, steps, j);
    var k: nat :| k < j && BegunAt(states, steps, k, states[j]);
    RunKeeps(states, steps, k);
    RunKeeps(states, steps, j);
    QuietBranches(states[k]);
    PublishLands(steps[k], states[k].branches[steps[k].b], states[j]);
    assert Lands(states, steps, k, j);
  }

  lemma Publishing(s: State)
    requires CanPublishCommit(s)
    ensures s.job.Committing? && !s.job.published
  {
  }

  // ---------- streams ----------

  // The commit that step j published as number n of the branch.
  ghost predicate Published(states: seq<State>, steps: seq<Step>, k: nat, j: nat, b: Name, n: nat, id: CommitId) {
    Lands(states, steps, k, j) && steps[k].b == b && steps[k].id == id && states[k].store.branches[b].sequence + 1 == n
  }

  ghost predicate PublishedBefore(states: seq<State>, steps: seq<Step>, i: nat, b: Name, n: nat, id: CommitId) {
    exists k: nat, j: nat :: j < i && Published(states, steps, k, j, b, n, id)
  }

  // What only publishing a commit does, and what only branch operations do.
  ghost predicate Untouched(s: State, s': State, branches: bool) {
    s'.ever == s.ever && (branches ==> s'.store.branches == s.store.branches)
  }

  lemma QueuedStep(s: State, step: Step)
    requires Enabled(s, step)
    requires step.BeginCommitStep? || step.AbortCommitStep? || step.CreateBranchStep? || step.RetainStep? || step.ReleaseStep? || step.ReopenStep?
    ensures Untouched(s, Do(s, step), !step.CreateBranchStep?)
  {
    hide CanBeginCommit;
  }

  lemma StreamStep(s: State, step: Step)
    requires Enabled(s, step) && (step == SettleCommitStep || step.SubscribeStep? || step.ReplayStep? || step.DeliverStep? || step.UnsubscribeStep?)
    ensures Untouched(s, Do(s, step), true)
  {
    hide PushedAll;
  }

  lemma SnapshotStep(s: State, step: Step)
    requires Enabled(s, step) && (step.PinStep? || step.OpenStep? || step.FailToOpenStep? || step.CloseStep?)
    ensures Untouched(s, Do(s, step), true)
  {
    hide CanBeginCommit, CanPublishCommit, CanSettleCommit, CanAbortCommit, CanCreateBranch, CanRetain, CanRelease, CanSubscribe, CanReplay,
      CanDeliver, CanStart, CanSelect, CanPublishPrune, CanSettlePrune, CanBeginMark, CanMarkCommit, CanMarkPage, CanBeginSweep, CanSweep, CanStop;
  }

  lemma CollectorStep(s: State, step: Step)
    requires Enabled(s, step)
    requires step.StartStep? || step.StopStep? || step.SelectStep? || step.PublishPruneStep? || step.SettlePruneStep? || step.BeginMarkStep? || step.MarkCommitStep?
    ensures Untouched(s, Do(s, step), !step.PublishPruneStep?)
  {
    hide Selected, CanSelect, Sequences, Heads, CanMarkCommit, WithFloors, Moments;
  }

  lemma PageStep(s: State, step: Step)
    requires Enabled(s, step) && (step.MarkPageStep? || step.BeginSweepStep? || step.SweepSliceStep?)
    ensures Untouched(s, Do(s, step), true)
  {
    hide Garbage, Skipped, CanMarkPage, MarkedPage;
  }

  lemma OtherStep(s: State, step: Step)
    requires Enabled(s, step) && !step.PublishCommitStep?
    ensures Untouched(s, Do(s, step), !step.CreateBranchStep? && !step.PublishPruneStep?)
  {
    hide Enabled, Do;
    match step
    case SettleCommitStep | SubscribeStep(_, _, _) | ReplayStep(_) | DeliverStep(_) | UnsubscribeStep(_) => StreamStep(s, step);
    case PinStep(_) | OpenStep(_) | FailToOpenStep(_) | CloseStep(_) => SnapshotStep(s, step);
    case MarkPageStep | BeginSweepStep | SweepSliceStep(_) => PageStep(s, step);
    case StartStep(_) | StopStep | SelectStep(_, _) | PublishPruneStep | SettlePruneStep | BeginMarkStep | MarkCommitStep(_, _) =>
      CollectorStep(s, step);
    case _ => QueuedStep(s, step);
  }

  lemma {:induction false} HistoryIsPublished(states: seq<State>, steps: seq<Step>, i: nat, m: Moment)
    requires IsRun(states, steps) && i < |states| && m in states[i].ever
    ensures PublishedBefore(states, steps, i, m.branch, m.sequence, states[i].ever[m])
  {
    hide Enabled, Do;
    if i == 0 {
      StartsResting(states, steps);
    } else {
      assert steps[i - 1] == steps[i - 1];
      var id := states[i].ever[m];
      if !steps[i - 1].PublishCommitStep? {
        OtherStep(states[i - 1], steps[i - 1]);
      }
      if m in states[i - 1].ever && states[i - 1].ever[m] == id {
        HistoryIsPublished(states, steps, i - 1, m);
        var k: nat, j: nat :| j < i - 1 && Published(states, steps, k, j, m.branch, m.sequence, id);
        assert Published(states, steps, k, j, m.branch, m.sequence, id);
      } else {
        CommitLands(states, steps, i - 1);
        var k: nat :| k < i - 1 && Lands(states, steps, k, i - 1);
        assert Published(states, steps, k, i - 1, m.branch, m.sequence, id);
      }
    }
  }

  // A stream opened at step k and not closed since.
  ghost predicate Subscribed(steps: seq<Step>, k: nat, i: nat, reader: ReaderId) {
    && k < i <= |steps| && steps[k].SubscribeStep? && steps[k].reader == reader
    && forall m :: k < m < i ==> steps[m] != UnsubscribeStep(reader) && !steps[m].ReopenStep?
  }

  lemma ReaderStep(s: State, step: Step, reader: ReaderId)
    requires Enabled(s, step)
    ensures reader in s.readers && step != UnsubscribeStep(reader) && !step.ReopenStep? ==> reader in Do(s, step).readers
    ensures step.SubscribeStep? && step.reader == reader ==>
      && reader in Do(s, step).readers && Do(s, step).readers[reader].branch == step.b
      && Do(s, step).readers[reader].start == step.after && Do(s, step).readers[reader].delivered == []
  {
    hide CanBeginCommit, CanSelect, Pushed, WithFloors, Moments, Selected, RaisedFloors, Garbage, Skipped;
  }

  lemma {:induction false} ReaderStays(states: seq<State>, steps: seq<Step>, k: nat, i: nat, reader: ReaderId)
    requires IsRun(states, steps) && Subscribed(steps, k, i, reader)
    ensures reader in states[i].readers && states[i].readers[reader].branch == steps[k].b && states[i].readers[reader].start == steps[k].after
    decreases i
  {
    hide Enabled, Do, Inv;
    assert steps[i - 1] == steps[i - 1];
    ReaderStep(states[i - 1], steps[i - 1], reader);
    if k < i - 1 {
      ReaderStays(states, steps, k, i - 1, reader);
      RunKeeps(states, steps, i - 1);
      StepChangesNothing(states[i - 1], steps[i - 1]);
    }
  }

  /** The n-th batch of a stream names the commit that was published as number cursor + 1 + n of its branch, whatever was
      committed, replayed and collected since the stream was opened. */
  lemma StreamFollowsCursor(states: seq<State>, steps: seq<Step>, k: nat, i: nat, reader: ReaderId, n: nat)
    requires IsRun(states, steps) && Subscribed(steps, k, i, reader)
    ensures reader in states[i].readers
    ensures n < |states[i].readers[reader].delivered| ==>
      var batch := states[i].readers[reader].delivered[n];
      batch.sequence == steps[k].after + 1 + n && PublishedBefore(states, steps, i, steps[k].b, batch.sequence, batch.commit)
  {
    hide Enabled, Do;
    ReaderStays(states, steps, k, i, reader);
    StreamsHaveNoGaps(states, steps, i, reader);
    if n < |states[i].readers[reader].delivered| {
      var r := states[i].readers[reader];
      assert BatchAt(states[i].ever, r.branch, r.start + 1 + n, r.delivered[n]);
      HistoryIsPublished(states, steps, i, Moment(r.branch, r.start + 1 + n));
    }
  }

  // ---------- what callers hold ----------

  // The commit is there, and so is every page below its roots.
  ghost predicate Readable(s: State, id: CommitId) {
    id in s.store.commits && forall x :: ReachedBy(s.graph, s.store.commits[id].roots, x) ==> x in s.store.pages && x in s.graph
  }

  lemma PresentIsReadable(states: seq<State>, steps: seq<Step>, i: nat, id: CommitId)
    requires IsRun(states, steps) && i < |states| && id in states[i].store.commits
    ensures Readable(states[i], id)
  {
    hide Enabled, Do, Inv, ReachedBy;
    RunKeeps(states, steps, i);
    InvPages(states[i]);
  }

  ghost predicate Holding(steps: seq<Step>, k: nat, i: nat, ends: Step) {
    k < i <= |steps| && forall m :: k < m < i ==> steps[m] != ends
  }

  lemma OpenStepMeans(s: State, step: Step, id: CommitId)
    requires Enabled(s, step)
    ensures step == OpenStep(id) ==> Do(s, step).open[id] > 0
    ensures s.open[id] > 0 && step != CloseStep(id) && !step.ReopenStep? ==> Do(s, step).open[id] > 0
  {
    hide CanBeginCommit, CanSelect, CanSubscribe, PushedAll, WithFloors, Moments, Selected, RaisedFloors, Garbage, Skipped;
  }

  lemma {:induction false} StaysOpen(states: seq<State>, steps: seq<Step>, k: nat, i: nat, id: CommitId)
    requires IsRun(states, steps) && k < |steps| && steps[k] == OpenStep(id) && Holding(steps, k, i, CloseStep(id))
    requires forall m :: k < m < i ==> !steps[m].ReopenStep?
    ensures states[i].open[id] > 0
    decreases i
  {
    hide Enabled, Do;
    assert steps[i - 1] == steps[i - 1];
    OpenStepMeans(states[i - 1], steps[i - 1], id);
    if k < i - 1 {
      StaysOpen(states, steps, k, i - 1, id);
    }
  }

  /** A snapshot can be read from the moment it is opened until it is closed, or the process ends. */
  lemma SnapshotStands(states: seq<State>, steps: seq<Step>, k: nat, i: nat, id: CommitId)
    requires IsRun(states, steps) && k < |steps| && steps[k] == OpenStep(id) && Holding(steps, k, i, CloseStep(id))
    requires forall m :: k < m < i ==> !steps[m].ReopenStep?
    ensures Readable(states[i], id)
  {
    hide Enabled, Do, Inv;
    StaysOpen(states, steps, k, i, id);
    RunKeeps(states, steps, i);
    InvPresent(states[i]);
    assert id in states[i].open;
    PresentIsReadable(states, steps, i, id);
  }

  lemma RetainStepMeans(s: State, step: Step, name: Name)
    requires Enabled(s, step)
    ensures step.RetainStep? && step.b == name ==> name in Do(s, step).store.retains && Do(s, step).store.retains[name] == step.id
    ensures name in s.store.retains && step != ReleaseStep(name) ==>
      name in Do(s, step).store.retains && (Do(s, step).store.retains[name] == s.store.retains[name])
  {
    hide CanBeginCommit, CanPublishCommit, CanSettleCommit, CanAbortCommit, CanCreateBranch, CanRelease, CanPin,
      CanOpen, CanFailToOpen, CanClose, CanSubscribe, CanReplay, CanDeliver, CanStart, CanSelect, CanPublishPrune, CanSettlePrune,
      CanBeginMark, CanMarkCommit, CanMarkPage, CanBeginSweep, CanSweep, CanStop;
    hide PushedAll, WithFloors, Moments, Selected, RaisedFloors, Garbage, Skipped, MarkedPage, Sequences, Heads;
  }

  lemma BranchStepMeans(s: State, step: Step, name: Name)
    requires Inv(s) && Enabled(s, step)
    ensures step.CreateBranchStep? && step.b == name ==>
      name in Do(s, step).store.branches && Do(s, step).store.branches[name].base == step.id
    ensures name in s.store.branches ==>
      name in Do(s, step).store.branches && Do(s, step).store.branches[name].base == s.store.branches[name].base
  {
    hide Inv;
    QuietBranches(s);
    match step
    case PublishCommitStep =>
    case CreateBranchStep(_, _) =>
    case PublishPruneStep => PruneBranches(s);
    case _ => OtherStep(s, step);
  }

  lemma PruneBranches(s: State)
    requires Inv(s) && CanPublishPrune(s)
    ensures s.branches == s.store.branches
  {
    hide StoreOk, CollectionOk, Named, Opened, ReadersOk, PruneReady, CommitReady;
  }

  lemma {:induction false} StaysRetained(states: seq<State>, steps: seq<Step>, k: nat, i: nat, name: Name, id: CommitId)
    requires IsRun(states, steps) && k < |steps| && steps[k] == RetainStep(name, id) && Holding(steps, k, i, ReleaseStep(name))
    ensures name in states[i].store.retains && states[i].store.retains[name] == id
    decreases i
  {
    hide Enabled, Do, Inv;
    assert steps[i - 1] == steps[i - 1];
    RunKeeps(states, steps, i - 1);
    RetainStepMeans(states[i - 1], steps[i - 1], name);
    if k < i - 1 {
      StaysRetained(states, steps, k, i - 1, name, id);
    }
  }

  lemma InvStored(s: State)
    requires Inv(s)
    ensures forall n :: n in s.store.retains ==> s.store.retains[n] in s.store.commits
    ensures forall b :: b in s.store.branches ==> s.store.branches[b].head in s.store.commits && s.store.branches[b].base in s.store.commits
  {
    hide CollectionOk, MemoryOk, Held, WellFounded, Shape, NoGaps, Dense, Recorded;
    forall b | b in s.store.branches ensures s.store.branches[b].head in s.store.commits && s.store.branches[b].base in s.store.commits {
      assert Present(s.store.branches[b], s.store.commits);
    }
  }

  /** A retained commit can be read until its name is released, even by another process. */
  lemma RetainedStands(states: seq<State>, steps: seq<Step>, k: nat, i: nat, name: Name, id: CommitId)
    requires IsRun(states, steps) && k < |steps| && steps[k] == RetainStep(name, id) && Holding(steps, k, i, ReleaseStep(name))
    ensures Readable(states[i], id)
  {
    hide Enabled, Do, Inv;
    StaysRetained(states, steps, k, i, name, id);
    RunKeeps(states, steps, i);
    InvStored(states[i]);
    PresentIsReadable(states, steps, i, id);
  }

  lemma {:induction false} BaseStays(states: seq<State>, steps: seq<Step>, k: nat, i: nat, name: Name, id: CommitId)
    requires IsRun(states, steps) && k < i <= |steps| && steps[k] == CreateBranchStep(name, id)
    ensures name in states[i].store.branches && states[i].store.branches[name].base == id
    decreases i
  {
    hide Enabled, Do, Inv;
    assert steps[i - 1] == steps[i - 1];
    RunKeeps(states, steps, i - 1);
    BranchStepMeans(states[i - 1], steps[i - 1], name);
    if k < i - 1 {
      BaseStays(states, steps, k, i - 1, name, id);
    }
  }

  /** A branch starts at the commit it was created from, and that commit can be read for ever. */
  lemma BaseStands(states: seq<State>, steps: seq<Step>, k: nat, i: nat, name: Name, id: CommitId)
    requires IsRun(states, steps) && k < i <= |steps| && steps[k] == CreateBranchStep(name, id)
    ensures states[k + 1].store.branches == states[k].store.branches[name := Branch(id, id, 0, 0)]
    ensures Readable(states[i], id)
  {
    hide Enabled, Do, Inv;
    assert steps[k] == steps[k];
    RunKeeps(states, steps, k);
    BranchMade(states[k], name, id);
    BaseStays(states, steps, k, i, name, id);
    RunKeeps(states, steps, i);
    InvStored(states[i]);
    PresentIsReadable(states, steps, i, id);
  }

  lemma BranchMade(s: State, name: Name, id: CommitId)
    requires Inv(s) && Enabled(s, CreateBranchStep(name, id))
    ensures Do(s, CreateBranchStep(name, id)).store.branches == s.store.branches[name := Branch(id, id, 0, 0)]
  {
    hide Inv;
    QuietBranches(s);
  }
}
