// What holds in every state of every run of the key-value database.
module KeyValueSafety {
  import opened PageGraph
  import opened KeyValueStorage
  import opened KeyValueInvariants
  import opened KeyValueCommits
  import opened KeyValueCollection

  ghost predicate IsRun(states: seq<State>, steps: seq<Step>) {
    && |states| == |steps| + 1
    && (exists id, main, at, retention :: ValidRetention(retention) && states[0] == Created(id, main, at, retention))
    && forall i {:trigger steps[i]} :: 0 <= i < |steps| ==> Enabled(states[i], steps[i]) && states[i + 1] == Do(states[i], steps[i])
  }

  lemma StartsResting(states: seq<State>, steps: seq<Step>)
    requires IsRun(states, steps)
    ensures states[0].phase == Resting && states[0].job == NoJob && states[0].ever == map[]
  {
    var id, main, at, retention :| ValidRetention(retention) && states[0] == Created(id, main, at, retention);
  }

  lemma StepKeeps(s: State, step: Step)
    requires Inv(s) && Enabled(s, step)
    ensures Inv(Do(s, step))
  {
    hide Inv, CanBeginCommit, CanPublishCommit, CanSettleCommit, CanAbortCommit, CanCreateBranch, CanRetain, CanRelease, CanPin,
      CanOpen, CanFailToOpen, CanClose, CanSubscribe, CanReplay, CanDeliver, CanStart, CanSelect, CanPublishPrune, CanSettlePrune,
      CanBeginMark, CanMarkCommit, CanMarkPage, CanBeginSweep, CanSweep, CanStop;
    match step
    case BeginCommitStep(b, id, roots, written, next, at) => BeginCommitKeeps(s, b, id, roots, written, next, at);
    case PublishCommitStep => PublishCommitKeeps(s);
    case SettleCommitStep => SettleCommitKeeps(s);
    case AbortCommitStep => AbortCommitKeeps(s);
    case CreateBranchStep(b, id) => CreateBranchKeeps(s, b, id);
    case RetainStep(b, id) => RetainKeeps(s, b, id);
    case ReleaseStep(b) => ReleaseKeeps(s, b);
    case PinStep(id) => PinKeeps(s, id);
    case OpenStep(id) => OpenKeeps(s, id);
    case FailToOpenStep(id) => FailToOpenKeeps(s, id);
    case CloseStep(id) => CloseKeeps(s, id);
    case SubscribeStep(i, b, after) => SubscribeKeeps(s, i, b, after);
    case ReplayStep(i) => ReplayKeeps(s, i);
    case DeliverStep(i) => DeliverKeeps(s, i);
    case UnsubscribeStep(i) => UnsubscribeKeeps(s, i);
    case StartStep(now) => StartKeeps(s, now);
    case SelectStep(slice, floors) => SelectKeeps(s, slice, floors);
    case PublishPruneStep => PublishPruneKeeps(s);
    case SettlePruneStep => SettlePruneKeeps(s);
    case BeginMarkStep => BeginMarkKeeps(s);
    case MarkCommitStep(id, order) => MarkCommitKeeps(s, id, order);
    case MarkPageStep => MarkPageKeeps(s);
    case BeginSweepStep => BeginSweepKeeps(s);
    case SweepSliceStep(pages) => SweepKeeps(s, pages);
    case StopStep => StopKeeps(s);
    case ReopenStep(retention) => ReopenKeeps(s, retention);
  }

  lemma {:induction false} RunKeeps(states: seq<State>, steps: seq<Step>, i: nat)
    requires IsRun(states, steps) && i < |states|
    ensures Inv(states[i])
  {
    hide Inv, Enabled, Do;
    if i == 0 {
      var id, main, at, retention :| ValidRetention(retention) && states[0] == Created(id, main, at, retention);
      CreatedOk(id, main, at, retention);
    } else {
      RunKeeps(states, steps, i - 1);
      assert steps[i - 1] == steps[i - 1];
      StepKeeps(states[i - 1], steps[i - 1]);
    }
  }

  // Every commit that has a name is there.
  ghost predicate NamesPresent(s: State) {
    && (forall b :: b in s.branches ==> s.branches[b].head in s.store.commits && s.branches[b].base in s.store.commits)
    && (forall n :: n in s.retains ==> s.retains[n] in s.store.commits)
    && (forall id :: id in s.open ==> id in s.store.commits)
  }

  // Every page of every present commit is there.
  ghost predicate PagesPresent(s: State) {
    forall c, x :: c in s.store.commits && ReachedBy(s.graph, s.store.commits[c].roots, x) ==> x in s.store.pages && x in s.graph
  }

  // No stream finds its history gone, and the collector finds every page and branch it looks up.
  ghost predicate NothingFails(s: State) {
    && (forall i :: i in s.readers && Replaying(s, i) ==> CanReplay(s, i))
    && (s.phase.Mark? && s.phase.pending != [] ==> CanMarkPage(s))
    && (forall c :: c in s.store.commits ==> s.store.commits[c].branch in s.branches)
  }

  ghost predicate Safe(s: State) {
    NamesPresent(s) && PagesPresent(s) && NothingFails(s)
  }

  lemma InvPresent(s: State)
    requires Inv(s)
    ensures NamesPresent(s)
  {
    hide CollectionOk, Held, WellFounded, Shape, NoGaps, Dense, Recorded, ReadersOk, CommitReady, PruneReady, Synced;
    forall b | b in s.branches ensures s.branches[b].head in s.store.commits && s.branches[b].base in s.store.commits {
      assert Present(s.branches[b], s.store.commits);
    }
  }

  lemma InvPages(s: State)
    requires Inv(s)
    ensures PagesPresent(s)
  {
    hide CollectionOk, MemoryOk, WellFounded, Named, Retained, Shape, NoGaps, Dense, Recorded, ReachedBy;
    forall c, x | c in s.store.commits && ReachedBy(s.graph, s.store.commits[c].roots, x) ensures x in s.store.pages && x in s.graph {
      ParentPages(s.store.commits, s.graph, s.store.pages, c);
    }
  }

  // No commit is ever met whose branch is unknown.
  lemma InvBranches(s: State, c: CommitId)
    requires Inv(s) && c in s.store.commits
    ensures s.store.commits[c].branch in s.branches
  {
    hide CollectionOk, Held, WellFounded, AtHead, NoGaps, Dense, Recorded, Named, Retained, ReadersOk, CommitReady, PruneReady, Opened;
    assert Belongs(s.store.commits[c], s.store.branches);
  }

  lemma InvAnswers(s: State)
    requires Inv(s)
    ensures NothingFails(s)
  {
    hide Inv, Replaying, CanReplay, CanMarkPage;
    forall c | c in s.store.commits ensures s.store.commits[c].branch in s.branches {
      InvBranches(s, c);
    }
    forall r | r in s.readers && Replaying(s, r) ensures CanReplay(s, r) {
      StreamReads(s, r);
    }
    if s.phase.Mark? && s.phase.pending != [] {
      MarkNeverMisses(s);
    }
  }

  lemma StreamReads(s: State, r: ReaderId)
    requires Inv(s) && Replaying(s, r)
    ensures CanReplay(s, r)
  {
    hide Inv;
    ReplayNeverFails(s, r);
  }

  /** Over every interleaving, collection takes nothing that a head, base, retained commit, open snapshot or stream needs. */
  lemma NothingNeededIsCollected(states: seq<State>, steps: seq<Step>, i: nat)
    requires IsRun(states, steps) && i < |states|
    ensures Safe(states[i])
  {
    hide Inv, NamesPresent, PagesPresent, NothingFails;
    RunKeeps(states, steps, i);
    InvPresent(states[i]);
    InvPages(states[i]);
    InvAnswers(states[i]);
  }

  // ---------- streams ----------

  /** A stream has delivered the commits after its cursor, each once and in order. */
  lemma StreamsHaveNoGaps(states: seq<State>, steps: seq<Step>, i: nat, reader: ReaderId)
    requires IsRun(states, steps) && i < |states| && reader in states[i].readers
    ensures var r := states[i].readers[reader];
      && r.branch in states[i].branches
      && |r.delivered| == r.retainAfter - r.start
      && (forall k :: 0 <= k < |r.delivered| ==> BatchAt(states[i].ever, r.branch, r.start + 1 + k, r.delivered[k]))
  {
    hide Inv, BatchAt;
    RunKeeps(states, steps, i);
    ReaderAt(states[i], reader);
  }

  /** A stream with nothing left to replay or to take from its queue has delivered up to the head. */
  lemma IdleStreamIsCaughtUp(states: seq<State>, steps: seq<Step>, i: nat, reader: ReaderId)
    requires IsRun(states, steps) && i < |states| && reader in states[i].readers
    requires !Replaying(states[i], reader) && states[i].readers[reader].queue == []
    ensures var r := states[i].readers[reader];
      r.branch in states[i].branches && r.start + |r.delivered| == Max(states[i].branches[r.branch].sequence, r.start)
  {
    hide Inv, Consecutive;
    RunKeeps(states, steps, i);
    ReaderAt(states[i], reader);
  }

  // What a step leaves alone: history, commit records and page contents, and what streams delivered.
  ghost predicate Keeps(s: State, s': State) {
    && (forall m :: m in s.ever ==> m in s'.ever && s'.ever[m] == s.ever[m])
    && (forall c :: c in s.store.commits && c in s'.store.commits ==> s'.store.commits[c] == s.store.commits[c])
    && Grows(s.graph, s'.graph)
    && (forall i :: i in s.readers && i in s'.readers ==> Continues(s.readers[i], s'.readers[i]))
  }

  predicate Continues(r: Reader, r': Reader) {
    r'.branch == r.branch && r'.start == r.start && r.delivered <= r'.delivered
  }

  lemma OnlyReaders(s: State, s': State)
    requires s'.ever == s.ever && s'.graph == s.graph && s'.store == s.store
    requires forall i :: i in s.readers && i in s'.readers ==> Continues(s.readers[i], s'.readers[i])
    ensures Keeps(s, s')
  {
  }

  lemma NoReaders(s: State, s': State)
    requires s'.ever == s.ever && s'.graph == s.graph && (s'.readers == s.readers || s'.readers == map[])
    requires s'.store.commits == s.store.commits
    ensures Keeps(s, s')
  {
  }

  lemma PublishChangesNothing(s: State)
    requires Inv(s) && CanPublishCommit(s)
    ensures Keeps(s, PublishCommit(s))
  {
    hide CollectionOk, Held, Named, Retained, Shape, NoGaps, Recorded, Dense, WellFounded, Opened, ReadersOk, DerivedRoots, ReachedBy, Derived;
    HistoryByCommit(s.store.branches, s.store.commits, s.store.history, s.ever, s.job.id, s.job.commit);
    DerivedGrows(s.graph, s.store.nextPageId, s.job.written, s.nextPageId, s.store.commits[s.branches[s.job.commit.branch].head].roots);
  }

  lemma StreamStepChangesNothing(s: State, step: Step)
    requires Enabled(s, step) && (step == SettleCommitStep || step.SubscribeStep? || step.ReplayStep? || step.DeliverStep? || step.UnsubscribeStep?)
    ensures Keeps(s, Do(s, step))
  {
    var s' := Do(s, step);
    forall i | i in s.readers && i in s'.readers ensures Continues(s.readers[i], s'.readers[i]) {
    }
    hide Continues;
    OnlyReaders(s, s');
  }

  lemma QueuedStepChangesNothing(s: State, step: Step)
    requires Enabled(s, step)
    requires step.BeginCommitStep? || step.AbortCommitStep? || step.CreateBranchStep? || step.RetainStep? || step.ReleaseStep? || step.ReopenStep?
    ensures Keeps(s, Do(s, step))
  {
    hide Keeps, CanBeginCommit;
    NoReaders(s, Do(s, step));
  }

  lemma SnapshotStepChangesNothing(s: State, step: Step)
    requires Enabled(s, step) && (step.PinStep? || step.OpenStep? || step.FailToOpenStep? || step.CloseStep?)
    ensures Keeps(s, Do(s, step))
  {
    hide Keeps;
    NoReaders(s, Do(s, step));
  }

  lemma PhaseStepChangesNothing(s: State, step: Step)
    requires Enabled(s, step)
    requires step.StartStep? || step.StopStep? || step.SelectStep? || step.SettlePruneStep? || step.BeginMarkStep? || step.MarkCommitStep?
    ensures Keeps(s, Do(s, step))
  {
    hide Keeps, Selected, CanSelect, Sequences, Heads, CanMarkCommit, WithFloors;
    NoReaders(s, Do(s, step));
  }

  lemma PageStepChangesNothing(s: State, step: Step)
    requires Enabled(s, step) && (step.MarkPageStep? || step.BeginSweepStep? || step.SweepSliceStep?)
    ensures Keeps(s, Do(s, step))
  {
    hide Keeps, Garbage, Skipped, CanMarkPage, MarkedPage;
    NoReaders(s, Do(s, step));
  }

  lemma PublishStepChangesNothing(s: State, step: Step)
    requires Inv(s) && Enabled(s, step) && (step.PublishCommitStep? || step.PublishPruneStep?)
    ensures Keeps(s, Do(s, step))
  {
    hide Inv, WithFloors, Moments;
    if step.PublishCommitStep? {
      PublishChangesNothing(s);
    }
  }

  /** History is written once: no step changes a recorded commit, a page, or what a stream has delivered. */
  lemma StepChangesNothing(s: State, step: Step)
    requires Inv(s) && Enabled(s, step)
    ensures Keeps(s, Do(s, step))
  {
    hide Inv, Keeps, Enabled, Do;
    match step
    case PublishCommitStep | PublishPruneStep => PublishStepChangesNothing(s, step);
    case SettleCommitStep | SubscribeStep(_, _, _) | ReplayStep(_) | DeliverStep(_) | UnsubscribeStep(_) =>
      StreamStepChangesNothing(s, step);
    case PinStep(_) | OpenStep(_) | FailToOpenStep(_) | CloseStep(_) => SnapshotStepChangesNothing(s, step);
    case MarkPageStep | BeginSweepStep | SweepSliceStep(_) => PageStepChangesNothing(s, step);
    case StartStep(_) | StopStep | SelectStep(_, _) | SettlePruneStep | BeginMarkStep | MarkCommitStep(_, _) =>
      PhaseStepChangesNothing(s, step);
    case _ => QueuedStepChangesNothing(s, step);
  }
}
