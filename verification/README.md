# HyDB: a verified model

HyDB is a versioned database with branches, snapshots, change streams and live queries. This project
models its core in Dafny and proves what each part is for. Source locations below are paths in the
repository.

## What is modelled

**Queries** (`Query`, `QueryMeaning`, `Planner`, `Executor`, `PlannedQueries`, `StringOrder`, `StoredValues`,
`StorageOrder`, `ReadPolicy`, `PolicyMeaning`). `Query.Evaluate` is the
meaning of a query: filters, policy semijoins, order, limit, nested selections, cardinality. `QueryMeaning`
says what it gives in terms of the values themselves: which comparisons hold, in what order rows come, which
rows a limit keeps. The planner's access paths, dropped sorts, pushed-down limits and hash joins are proved to give one of the
answers this meaning allows (`PlannedAnswer`); rows that tie in the query's order may come in any
order, and where nothing ties the answers are equal (`UntiedAnswer`). The planner drops sorts because it takes
a tree scan to be in the order of query values; `StorageOrder` proves when the scans of the real trees are.
Rewriting a query for a principal is proved to give the query's value on the visible rows
(`AuthorizePreservesMeaning`), which are the rows that the policies grant (`VisibleIsGranted`, `RewrittenMeans`).

**Incremental queries** (`Dataflow`, `DataflowContracts`, `DataflowCompiler`, `DataflowOperators`, `DataflowTopK`,
`DataflowJoin`, `DataflowHandlers`, `AuthorizedRuns`, `Publication`, `DataflowScoping`). The operators are
classes; each handler's contract is that its emitted batch is a valid change from the operator's function
of its old inputs to the same function of its new inputs, for batches that meet what the handler requires
(`Ready`, `Handled` in `DataflowContracts`). The network of operators is a state machine in which any
waiting batch may be delivered next. `IncrementalEqualsRecompute` is about every query and every run of
operators that keep their functions; `HandlersEqualRecompute` about every run of handlers that only keep
them for batches they are ready for, which all batches of a compiled query turn out to be.
`HandlersShowVisible` joins it to the read policies: a principal's query, rewritten, compiled and run,
settles on the query's value over the visible rows. `PublishChange` says what the listener is told.

**Subscriptions** (`Demands`, `DemandFlow`, `DemandNetwork`, `DemandDepth`, `DemandReplies`, `SubscriptionState`,
`Subscription`). The runtime holds only the rows that reference-counted demands ask for. Settling is
proved to end, to leave exact rows and exact counts, and the published value is the one over the whole
tables. The runtime is proved against any engine that meets a contract: its demands are a valid change of
every nested query's parent matches, and only queries nested below the changed source report any. The
compiled network meets it: `NetworkReplies` is about everything that the network reports between two
settled states in which one source changed, and `NetworkIsAnEngine` carries it to the runtime.

**The B+ tree** (`Entries`, `PageTrees`, `BPlusTree`). Pages are an ever-growing map; `Insert`,
`Remove`, `RebalanceChildren` and the rest write new pages and leave old ones, and every root is
well formed and means a sorted map.

**Collection of garbage** (`PageGraph`, `KeyValueStorage`, `KeyValueInvariants`, `KeyValueCommits`,
`KeyValueCollection`, `KeyValueSafety`, `KeyValueRetention`, `KeyValueHistory`, `KeyValuePages`, `TreeCommits`, `CommitPages`). Commit, branch creation,
retains, snapshots, streams and the slices of prune, mark and sweep are the steps of one state machine,
one step between two awaits; writes go through one queue. An inductive invariant gives safety over every
interleaving. `KeyValueRetention` is about what a collection takes over whole runs: only commits that the
policy gave up, none under the default policy, and every unreachable old page. `KeyValueHistory` is about what callers
count on: a commit lands as asked, and snapshots, retained commits and streams keep what they were given.
`TreeCommits` discharges what the machine assumes of a commit from the tree's own contract,
and `CommitPages` follows the staged pages through a whole commit.

**Storage** (`Codec`, `TableModel`, `TreeMaps`, `TreeStorage`, `CommittedChanges`, `Command`). The key encoding preserves order.
Mutations of several tables run on the B+ trees themselves; index trees agree with rows, and a commit
publishes the whole list or nothing. The changes it reports replay to the new rows, in storage and in
subscriptions (`CommitReaches`). A command's transaction records mutations against a snapshot, and
replaying them on the same head is proved to fail exactly where a row is rejected or two forms of one key
were mixed.

**The log** (`PageStore`, `NodeLog`, `NodeCatalog`, `NodeCompaction`, `NodeCollector`, `NodeEngine`,
`NodeRecovery`). The engine runs from an empty file through initialization, commits, branches, metadata,
compactions and crashes. Loading a file cut at any byte gives a state that the database had. Compaction,
from the choice of retained commits to the copied trees and history floors, is one of the steps.

**Spilling** (`SpillSort`, `SpillRuns`, `SpillJoin`, `SpillArrangement`). The memory-bounded forms give
the results of the simple ones for every limit and every partitioning.

## Results about the code's own limits

- The two forms of an arrangement differ when an insertion moves a record to another key without a
  deletion; `FormsAgreeExactly` says exactly when they agree. The joins only send replacements that
  delete first.
- Queries order strings by UTF-16 unit (query.ts:466-480), storage keys by UTF-8 byte (node/codec.ts:31-40). The
  orders differ between a character beyond U+FFFF and one from U+E000 to U+FFFF, and then a plan that drops its sort
  is out of order (`PlanesDisagree`). `KeyOrderExactly`, `PairedAgreeExactly` and `SafeExactly` say exactly where,
  `IndexScanStands` and `TableScanStands` what it means for plans.
- In the range of an index scan the inclusive bound replaces the exclusive one where both are given
  (node/tree-snapshot.ts:18-43): `IndexRangeMeans`. A table's range heeds both: `TableRangeMeans`.
- A query without a cardinality fails in the reference evaluator (query.ts:603-607) and is planned as
  "many" (planner.ts:255): `UnspecifiedIsMany`.
- A correlation whose child side also reads the parent loses rows (`UnscopedQueryDiffers` is a compiled
  query that settles on a wrong value), so the compiler theorems ask that the child side reads the child only.
- The policy join is right exactly if allowed rows do not share a key that a child has
  (`LeftStepExactly`, `RightStepExactly`, `SharedKeyLosesChild`). Read policies ensure it by accepting only
  single-column primary keys as targets (read-policy.ts:136-143).
- A transaction remembers rows under keys that tell -0 from 0 and lone surrogates apart (storage.ts:220-232),
  the trees do not (node/codec.ts:6-40). Mixing two forms of one key can make a recorded list fail on
  replay (`TwoZerosFail`); `ReplayExactly` says exactly when, and one form of each key is enough to rule it
  out (`PlainIsCoherent`).

## Model

| member | source | states |
|---|---|---|
| Query.BeforeIsOrder | packages/hydb/src/dataflow.ts:534-550 | Order terms, then arrival ordinals, then ids: a strict order in which any two different matches are comparable. |
| Query.SortsUnique | packages/hydb/src/query.ts:565-578 | A collection of matches has exactly one sequence that lists it in result order, so "the sorted matches" is well defined. |
| QueryMeaning.NumbersCompare | packages/hydb/src/query.ts:435-447 | On numbers x and y the six comparisons are true exactly if x > y, x < y, x >= y, x <= y, x = y, x differs from y. |
| QueryMeaning.DatesCompare | packages/hydb/src/query.ts:466-480 | The same for dates, by their times. |
| QueryMeaning.BoolsCompare | packages/hydb/src/query.ts:466-480 | The same for booleans, false before true. |
| QueryMeaning.StringsCompare | packages/hydb/src/query.ts:466-480 | The same for strings, by code unit: the first unit that differs decides, and a string comes before those it begins. |
| QueryMeaning.NullsCompare | packages/hydb/src/query.ts:468-469 | Null and undefined come before every other value. |
| QueryMeaning.LogicMeans | packages/hydb/src/query.ts:448-463 | Membership is equality with some candidate, and conjunction, disjunction and negation are those of truth values. |
| QueryMeaning.LeavesMean | packages/hydb/src/query.ts:423-426 | A field is the column of its source's row, or undefined where there is none; a literal is its value. |
| QueryMeaning.TruthMeans | packages/hydb/src/query.ts:455-462 | True are: true, numbers but zero, strings with a unit, dates; never null or undefined. |
| QueryMeaning.OrdersMean | packages/hydb/src/query.ts:565-578 | Two contexts are in order exactly if the values of the first order term that tells them apart are, ascending or descending. |
| QueryMeaning.ResultsInOrder | packages/hydb/src/query.ts:565-578 | The rows of a result come in the query's order, value by value. |
| QueryMeaning.NumbersInOrder | packages/hydb/src/query.ts:565-578 | Ordered by a column of numbers, the rows of a result ascend; in the other direction they descend. |
| QueryMeaning.TiesByArrival | packages/hydb/src/query.ts:565-578 | Rows that tie in every term come in the order in which they arrived. |
| QueryMeaning.SelectedMeans | packages/hydb/src/query.ts:548-580 | Returned are rows of the source that the policy and all filters let through, each once, and as many of them as pass, up to the limit. |
| QueryMeaning.LimitKeepsFirst | packages/hydb/src/query.ts:565-580 | A row that passes and is not returned does not belong before any that is. |
| QueryMeaning.CountMeans | packages/hydb/src/query.ts:582-582 | A count is the number of rows that pass, up to the limit. |
| QueryMeaning.ExistsMeans | packages/hydb/src/query.ts:583-583 | An existence test is true exactly if some row passes and the limit is not zero. |
| QueryMeaning.RowsMean | packages/hydb/src/query.ts:585-610 | The rows that pass become a list, one row or null, or exactly one row; a wrong number of rows or a nested failure fails the whole. |
| QueryMeaning.SelectMeans | packages/hydb/src/query.ts:585-595 | Each selected field has the value of its expression or of its nested query. |
| Dataflow.QuietRunSolves | packages/hydb/src/dataflow.ts:67-78 | Whatever the schedule of deliveries, once no batch is waiting every operator has emitted exactly its function of what its producers emitted. |
| DataflowCompiler.FilteredIsCorrelated | packages/hydb/src/dataflow.ts:851-872 | A child row that passes all filters of a nested query has the join key of its parent, so the chosen correlation loses no row. |
| DataflowCompiler.UnscopedCorrelationLosesRow | packages/hydb/src/dataflow.ts:851-872 | A correlation whose child side also reads the parent loses a row that passes every filter. |
| DataflowScoping.UnscopedQueryDiffers | packages/hydb/src/dataflow.ts:851-872 | A concrete compiled query with such a correlation: every run of it that settles on these tables shows another value than the query has, so the scoping condition of the main theorem is needed. |
| DataflowCompiler.TopKSelects | packages/hydb/src/dataflow.ts:467-532 | Keeping the first records of every group equals evaluating order and limit of the query once per parent. |
| DataflowCompiler.MatchesCorrect | packages/hydb/src/dataflow.ts:991-1114 | The match stream of a compiled query holds, for every parent, exactly the rows that the reference evaluator selects in the parent's context (policy semijoin, filters, order, limit). |
| DataflowCompiler.NodeCorrect | packages/hydb/src/dataflow.ts:938-989 | The output stream of a compiled query holds, for every parent, the value of the query in the parent's context, failures included. |
| DataflowCompiler.IncrementalEqualsRecompute | packages/hydb/src/dataflow.ts:938-1114 | After any run of the compiled network from the empty state, under any interleaving of source batches and deliveries, a quiet network outputs exactly the recomputed query over the present rows. |
| DataflowHandlers.CompiledIsGuarded | packages/hydb/src/dataflow.ts:938-1114 | In the network of a query whose policies are keyed, every ordering operator reads matches that stay in one group, and every policy join reads rows of one table by its only key column. |
| DataflowHandlers.HandlerRunIsRun | packages/hydb/src/dataflow.ts:67-78 | Suppose that a handler keeps its promise only for batches that meet what it requires. Then still every run of the handlers of such a network is a run of the network, so every handler does keep it. |
| DataflowHandlers.DeliveriesAreReady | packages/hydb/src/dataflow.ts:67-78 | At any moment of such a run, whatever is next in a queue meets what its handler requires: deletions carry the stored value, groups stay, allowed rows have different keys before every change of the batch. |
| DataflowHandlers.HandlersEqualRecompute | packages/hydb/src/dataflow.ts:938-1114 | Incremental equals recompute for the handlers themselves: sources that emit rows under their primary keys and handlers that promise nothing for other batches settle on the value of the query. |
| AuthorizedRuns.AuthorizedIsKeyed | packages/hydb/src/read-policy.ts:250-347 | A query rewritten by a catalog whose relationships end in single-column primary keys (read-policy.ts:136-143) has keyed policies only. |
| AuthorizedRuns.AuthorizedIsScoped | packages/hydb/src/read-policy.ts:250-347 | Rewriting leaves correlations well scoped, also where an added predicate becomes the correlation. |
| AuthorizedRuns.HandlersShowVisible | packages/hydb/src/dataflow.ts:938-1114 | From a principal's query to the engine's output: rewritten, compiled and run by the handlers in any order, it settles on the query's value over exactly the rows that the policies grant. |
| DataflowOperators.ReplaceAllTracks | packages/hydb/src/dataflow.ts:187-203 | Emitting the replacement of every affected id is a valid change from the old collection to the new one. |
| DataflowOperators.InputHoldsRows | packages/hydb/src/dataflow.ts:254-274 | An input holds exactly the committed rows, and no two rows share an arrival ordinal. |
| DataflowOperators.UpdatesKeepOrdinals | packages/hydb/src/dataflow.ts:264-270 | A row that is updated but not deleted keeps its arrival ordinal. |
| DataflowOperators.SeedHoldsRows | packages/hydb/src/dataflow.ts:227-240 | Seeding overwrites exactly the loaded rows and keeps ordinals distinct. |
| DataflowOperators.InputOperator.Handle | packages/hydb/src/dataflow.ts:254-274 | The emitted batch is a valid change between the stored row collections, deletions carrying the stored value. |
| DataflowOperators.InputOperator.Seed | packages/hydb/src/dataflow.ts:227-240 | The same for rows loaded on demand; an unchanged row emits nothing. |
| DataflowOperators.InputOperator.Remove | packages/hydb/src/dataflow.ts:242-252 | Exactly the named rows leave, and the batch says so. |
| DataflowOperators.FilterOperator.Handle | packages/hydb/src/dataflow.ts:310-320 | The emitted batches sum to the matches that pass every filter. |
| DataflowOperators.MapOperator.Handle | packages/hydb/src/dataflow.ts:294-308 | The emitted batches sum to the mapped records, for each of the three maps the compiler builds (root matches, groups, projections). |
| DataflowOperators.NestOperator.HandleLeft | packages/hydb/src/dataflow.ts:582-590 | The emitted batches sum to the left records that have a nested value, each with that value as a property. |
| DataflowOperators.NestOperator.HandleRight | packages/hydb/src/dataflow.ts:592-600 | The same when the nested side changes. |
| DataflowOperators.ReduceOperator.HandleInput | packages/hydb/src/dataflow.ts:643-662 | The counters kept by adding up differences always equal group sizes, and the batches sum to the counts of the groups. |
| DataflowOperators.ReduceOperator.HandleGroups | packages/hydb/src/dataflow.ts:664-672 | The same when groups appear or disappear. |
| DataflowOperators.CardinalityOperator.HandleItems | packages/hydb/src/dataflow.ts:755-765 | The emitted batches sum to the sorted and cardinality-checked result of every group. |
| DataflowOperators.CardinalityOperator.HandleGroups | packages/hydb/src/dataflow.ts:767-775 | The same when groups appear or disappear. |
| DataflowTopK.OrderTopKOperator.Handle | packages/hydb/src/dataflow.ts:504-532 | The emitted batches sum to the first records of every group, where a record entering, leaving or changing inside the limit is reported once. |
| DataflowTopK.OutputOperator.Handle | packages/hydb/src/dataflow.ts:806-810 | The output holds the sum of what it received. |
| DataflowTopK.PublishCommit | packages/hydb/src/dataflow.ts:806-826 | One commit through the output, from begin to flush: whatever batches take the output from one answer to the next, the listener is called exactly if the answer has changed, once, with the new answer. |
| Publication.PublishChange | packages/hydb/src/dataflow.ts:806-826 | With the batches that the compiled network emits between two settled states: the listener is called exactly if the query's value over the rows has changed, with the new value. |
| DataflowJoin.ArrangeOperator.Handle | packages/hydb/src/dataflow.ts:357-401 | The buckets stay an exact index of the records by key. |
| DataflowJoin.ArrangeOperator.Lookup | packages/hydb/src/dataflow.ts:403-413 | A lookup returns each record with the key once. |
| DataflowJoin.JoinOperator.HandleLeft | packages/hydb/src/dataflow.ts:425-445 | The bilinear delta for left changes: emitted batches sum to the join of the two arrangements, both for correlated and for policy joins, and bring no records but joined ones. |
| DataflowJoin.JoinOperator.HandleRight | packages/hydb/src/dataflow.ts:446-464 | The same for right changes. |
| DataflowJoin.PrimaryKeysAreKeyed | packages/hydb/src/dataflow.ts:1077-1105 | If the ids of the parent rows determine the parent column, the policy join never sees two right records under one key while a batch is processed. |
| DataflowJoin.LeftStepExactly | packages/hydb/src/dataflow.ts:425-445 | A changed child makes the policy join emit a valid change exactly if at most one allowed row has its key. |
| DataflowJoin.RightStepExactly | packages/hydb/src/dataflow.ts:446-464 | A changed allowed row makes it emit a valid change exactly if no child has its key or no other allowed row has it. |
| DataflowJoin.SharedKeyLosesChild | packages/hydb/src/dataflow.ts:446-464 | Two allowed rows under one key: when one goes, the join reports the child as gone although the other still allows it. Policies may therefore only name single-column primary keys. |
| Entries.PutAtPosition | packages/hydb/src/node/bplus-tree.ts:53-62 | The lower bound found by binary search is where a put inserts or overwrites. |
| Entries.PutInside | packages/hydb/src/node/bplus-tree.ts:64-73 | A put stays inside the part that the separators assign its key to. |
| Entries.MapPut | packages/hydb/src/node/bplus-tree.ts:229-262 | On sorted entries a put is the map update. |
| BPlusTree.ImmutableBPlusTree.Get | packages/hydb/src/node/bplus-tree.ts:125-140 | A lookup is the map lookup. |
| BPlusTree.ImmutableBPlusTree.Insert | packages/hydb/src/node/bplus-tree.ts:229-296 | The result, split or not, is a well-formed tree (or two with a separator) of the old entries with the put; the old pages are untouched. |
| BPlusTree.ImmutableBPlusTree.Remove | packages/hydb/src/node/bplus-tree.ts:298-356 | The result holds the old entries without the key; an absent key returns the same page and writes nothing; otherwise only the returned page may be underfull. |
| BPlusTree.ImmutableBPlusTree.RebalanceChildren | packages/hydb/src/node/bplus-tree.ts:358-427 | With one underfull child, borrowing or merging gives well-formed children with the same entries, one separator fewer at most. |
| BPlusTree.ImmutableBPlusTree.FirstKey | packages/hydb/src/node/bplus-tree.ts:429-441 | The first key of a non-empty tree; the error for an empty leaf is not reached. |
| BPlusTree.ImmutableBPlusTree.Mutate | packages/hydb/src/node/bplus-tree.ts:142-170 | From a well-formed root, any puts and deletes give a well-formed root (uniform depth, separators, minimum and maximum sizes) with the folded entries; deletes of absent keys return the same root; every page below the new root is new or below the old one. |
| BPlusTree.ImmutableBPlusTree.Walk | packages/hydb/src/node/bplus-tree.ts:443-466 | The entries in key order, or in reverse. |
| BPlusTree.ImmutableBPlusTree.Scan | packages/hydb/src/node/bplus-tree.ts:172-182 | The entries within the range, in the asked direction, up to the limit. |
| BPlusTree.ImmutableBPlusTree.CopyRootsTo | packages/hydb/src/node/bplus-tree.ts:190-227 | Copies of the roots have the same trees in the target store, each reachable page is copied once, and pages shared by roots are still shared. |
| PageTrees.MutatedIsFolded | packages/hydb/src/node/bplus-tree.ts:142-170 | The entries after a mutation list are the map of the old entries with the mutations folded over it. |
| PageTrees.OldRootsStand | packages/hydb/src/node/bplus-tree.ts:468-474 | An old root keeps its tree and its entries after any later writes. |
| PageTrees.FilledNotEmpty | packages/hydb/src/node/bplus-tree.ts:429-441 | No page below the root is empty, so the first key always exists. |
| PageTrees.JoinKids | packages/hydb/src/node/bplus-tree.ts:358-427 | Children of two neighbours can hang from one page in order. |
| PageTrees.RelocatedTree | packages/hydb/src/node/bplus-tree.ts:190-227 | A copied tree is well formed and holds the same entries. |
| PageGraph.DerivedReach | packages/hydb/src/node/key-value-gc.ts:98-100 | A root made by a commit reaches only pages of that commit or pages that its parent's roots reach. |
| PageGraph.ClosedReach | packages/hydb/src/node/key-value-gc.ts:186-192 | A set of pages closed under children contains all that its members reach. |
| TreeCommits.ReachIsReaches | packages/hydb/src/node/bplus-tree.ts:184-188 | Reachability over page children is membership in the tree. |
| TreeCommits.TreeCommitIsDerived | packages/hydb/src/node/key-value-storage.ts:261-329 | A commit built by tree mutations meets what the collector assumes of a commit: its roots reach new pages or pages of the parent. |
| TreeCommits.MutationsOwn | packages/hydb/src/node/tree-storage-model.ts:230-325 | Mutating the trees of a manifest one by one gives roots of that kind. |
| KeyValueCommits.ReplayNeverFails | packages/hydb/src/node/key-value-storage.ts:331-379 | The next record of a replaying stream is always present, however far the collector has come. |
| KeyValueCommits.PublishCommitKeeps | packages/hydb/src/node/key-value-storage.ts:261-329 | Publishing a commit keeps the whole invariant, in the middle of any collection phase. |
| KeyValueCommits.CreateBranchKeeps | packages/hydb/src/node/key-value-storage.ts:250-259 | So does creating a branch at any commit that is present and not being retired. |
| KeyValueCommits.SubscribeKeeps | packages/hydb/src/node/key-value-storage.ts:331-352 | So does admitting a stream above the floor and the floor about to be published. |
| KeyValueCommits.ReopenKeeps | packages/hydb/src/node/key-value-storage.ts:100-208 | So does closing at any moment and opening again from the store. |
| KeyValueCollection.SelectedSparesHeads | packages/hydb/src/node/key-value-gc.ts:98-131 | A pruning slice never selects a head at the start of the cycle. |
| KeyValueCollection.FloorsBehindReaders | packages/hydb/src/node/key-value-gc.ts:132-160 | The floors that pruning raises stay behind every stream. |
| KeyValueCollection.MarkNeverMisses | packages/hydb/src/node/key-value-gc.ts:177-194 | Every page that marking wants to read is in the store. |
| KeyValueCollection.ReachedIsMarked | packages/hydb/src/node/key-value-gc.ts:177-194 | After marking, a page below the cutoff that any present commit reaches, even one committed during the cycle, is marked. |
| KeyValueCollection.HeldBySweep | packages/hydb/src/node/key-value-gc.ts:196-249 | Deleting unmarked pages below the cutoff leaves every page of every present commit. |
| KeyValueRetention.SelectedExactly | packages/hydb/src/node/key-value-gc.ts:101-131 | A slice loses exactly those of its commits that are old by the policy and that no snapshot pins, no name retains, no branch starts or ends at and no stream has still to deliver. |
| KeyValueRetention.RemovedHasExpired | packages/hydb/src/node/key-value-gc.ts:101-131 | Over every run: when a commit record disappears, some collection started before, under a window, when the commit was at least keepAtLeast sequences behind its branch and, if there is an age, recorded earlier than that. |
| KeyValueRetention.FloorRisesByLoss | packages/hydb/src/node/key-value-gc.ts:132-160 | Over every run: a floor only moves to the sequence of a commit that is removed with it. |
| KeyValueRetention.ForeverKeepsAll | packages/hydb/src/node/key-value-gc.ts:103-103 | Over every run: while the policy is to keep forever no commit record disappears and no floor rises. |
| KeyValueRetention.SweepReclaims | packages/hydb/src/node/key-value-gc.ts:196-249 | When every page below the cutoff has been in some slice of a sweep, the pages below it that are left are exactly those that a present commit reaches, whatever was committed in between. |
| KeyValueSafety.StepKeeps | packages/hydb/src/node/key-value-gc.ts:98-249 | Every step of every operation keeps the invariant, whatever the others are doing. |
| KeyValueSafety.NothingNeededIsCollected | packages/hydb/src/node/key-value-gc.ts:98-249 | Over every interleaving of commits, branches, retains, snapshots, streams and collection slices: heads, bases, retained commits and open snapshots are present, and so is every page reachable from any present commit; no internal lookup fails. |
| KeyValueSafety.StreamsHaveNoGaps | packages/hydb/src/node/key-value-storage.ts:331-379 | A stream admitted at a cursor has delivered the following sequences, each once and in order, across replay, live queue and pruning. |
| KeyValueSafety.IdleStreamIsCaughtUp | packages/hydb/src/node/key-value-storage.ts:331-379 | A stream with nothing to replay and an empty queue has delivered up to the head. |
| KeyValueSafety.StepChangesNothing | packages/hydb/src/node/key-value-storage.ts:440-464 | No step changes a recorded commit, a page, or what a stream has delivered. |
| KeyValueHistory.CommitLands | packages/hydb/src/node/key-value-storage.ts:261-329 | Over every run: what a commit publishes is what was asked for, on the head that its branch had when it began: its record with the given roots and the next sequence, its pages, the moved head, and nothing else. |
| KeyValueHistory.StreamFollowsCursor | packages/hydb/src/node/key-value-storage.ts:331-379 | Over every run: the n-th batch of a stream names the commit that was published as number cursor + 1 + n of its branch. |
| KeyValueHistory.SnapshotStands | packages/hydb/src/node/key-value-storage.ts:215-248 | From the moment it is opened until it is closed or the process ends, a snapshot's commit and every page below its roots are in the store. |
| KeyValueHistory.RetainedStands | packages/hydb/src/node/key-value-storage.ts:381-403 | So are those of a retained commit until its name is released, across restarts. |
| KeyValueHistory.BaseStands | packages/hydb/src/node/key-value-storage.ts:250-259 | A branch starts at the commit it was created from with sequence 0, and that commit and its pages stay for ever. |
| KeyValuePages.KeyValuePages.Trace | packages/hydb/src/node/key-value-pages.ts:50-63 | The worklist finds exactly the staged pages that the roots reach. |
| KeyValuePages.KeyValuePages.RetainRoots | packages/hydb/src/node/key-value-pages.ts:50-63 | Exactly those pages stay staged, unchanged. |
| KeyValuePages.KeyValuePages.WritePageOwned | packages/hydb/src/node/key-value-pages.ts:36-48 | A page gets an id never used before. |
| CommitPages.TreesChain | packages/hydb/src/node/key-value-storage.ts:280-293 | Tree mutations are what a commit stages: what the roots reach after each is written by it or was reached before it, among all pages of the commit, dropped or not. |
| CommitPages.StageCommit | packages/hydb/src/node/key-value-pages.ts:36-75 | A whole commit: pages are staged, and after every mutation what its roots do not reach is dropped; at the end the records to publish are exactly the pages of this commit that the final roots reach, each as it was written. Nothing dropped on the way is needed. |
| CommitPages.PublishTrees | packages/hydb/src/node/key-value-storage.ts:278-315 | For a list of tree mutations: published are exactly the pages below the final roots that no earlier commit has. |
| ReadPolicy.BuildCatalog | packages/hydb/src/read-policy.ts:205-248 | A catalog is built exactly if the policies are complete and stated once, name tables of the schema, and have no cycle. |
| ReadPolicy.AssertAcyclic | packages/hydb/src/read-policy.ts:349-360 | The recursive check decides acyclicity. |
| ReadPolicy.BuiltIsComplete | packages/hydb/src/read-policy.ts:205-248 | In a built catalog every parent table has a policy. |
| PolicyMeaning.VisibleIsGranted | packages/hydb/src/read-policy.ts:250-347 | What is visible of a table is what its policy grants: everything for allow, nothing for deny, for a predicate exactly the rows that it approves, and for a policy through a parent exactly the rows whose child column equals the parent column of some visible parent. |
| PolicyMeaning.AcyclicExactly | packages/hydb/src/read-policy.ts:349-360 | A catalog is acyclic exactly if no table is read through itself, however many tables lie between. |
| ReadPolicy.AuthorizeSucceeds | packages/hydb/src/read-policy.ts:250-347 | On a complete, acyclic catalog rewriting a query never fails. |
| ReadPolicy.ProofImpliesParent | packages/hydb/src/read-policy.ts:178-201 | When the filters tie a row to an ancestor that was authorized, its policy parent is visible, so the omitted semijoin would have let it through. |
| ReadPolicy.FilteredAuthorized | packages/hydb/src/read-policy.ts:250-347 | One rewritten query keeps exactly the visible rows that pass its own filters. |
| ReadPolicy.AuthorizePreservesMeaning | packages/hydb/src/read-policy.ts:250-347 | The rewritten query on the database has the value of the original query on the visible rows, at every nesting level. |
| PolicyMeaning.RewrittenMeans | packages/hydb/src/read-policy.ts:250-347 | A rewritten query on the whole tables has the value of the query on any tables that hold exactly what the policies grant. |
| PolicyMeaning.DeniedIsEmpty | packages/hydb/src/read-policy.ts:276-277 | On a denied table every rewritten query has the value that it has over no rows at all. |
| PolicyMeaning.FlatMeans | packages/hydb/src/read-policy.ts:250-347 | A rewritten query on one table: an open table is queried whole, a table with a predicate over exactly the rows that it approves, a denied table over none. |
| Codec.EncodeNumber | packages/hydb/src/node/codec.ts:6-20 | The in-place byte flips produce the comparable word of a finite binary64, or an error. |
| Codec.EncodeDate | packages/hydb/src/node/codec.ts:22-29 | The same for a valid date's time. |
| Codec.EncodeString | packages/hydb/src/node/codec.ts:31-40 | UTF-8 of the code points, a lone surrogate as U+FFFD, with 00 escaped as 00 FF and the terminator 00 00. |
| Codec.EncodeOrderedKey | packages/hydb/src/node/codec.ts:42-59 | The bytes of every part, or an error exactly if some part cannot be encoded. |
| Codec.ScaledOrder | packages/hydb/src/node/codec.ts:6-20 | The bit patterns of non-negative binary64 numbers are ordered as their values. |
| Codec.PointOrder | packages/hydb/src/node/codec.ts:31-40 | UTF-8 keeps the order of code points, and no character begins another. |
| Codec.Utf8Means | packages/hydb/src/node/codec.ts:31-40 | The bytes of a character hold its bits, six to each byte that follows the first, in as many bytes as UTF-8 gives it. |
| Codec.OrderPreserved | packages/hydb/src/node/codec.ts:42-59 | Byte order of encoded keys is tuple order on null < boolean < number < date < string, both ways. |
| Codec.EncodingInjective | packages/hydb/src/node/codec.ts:42-59 | Two keys share an encoding exactly if they are equal part by part, where -0 equals 0 and lone surrogates equal each other. |
| Codec.PrefixRange | packages/hydb/src/node/codec.ts:61-63 | Between the encoding of a prefix and its upper bound lie exactly the keys that begin with it. |
| StringOrder.PairedAgreeExactly | packages/hydb/src/query.ts:473-477 | Order by UTF-16 unit, which queries use, and by code point, which storage keys have: on strings without lone surrogates they agree exactly if the strings do not part at a surrogate and a unit from U+E000 on. |
| StringOrder.SafeExactly | packages/hydb/src/query.ts:473-477 | A string is ordered alike against every other exactly if all its units come before the surrogates. |
| StoredValues.ValuesOrder | packages/hydb/src/query.ts:466-480 | Values of queries and the parts that storage encodes for them are in the same order, except between strings that part that way. |
| StoredValues.KeyOrderExactly | packages/hydb/src/node/codec.ts:42-59 | The order of keys in a query is the byte order of their encodings exactly if the first values that differ are not two such strings; equal keys have equal bytes. |
| TableModel.IndexKeyInjective | packages/hydb/src/node/tree-storage-model.ts:222-228 | Index entries of different rows never collide. |
| TableModel.EntryInRange | packages/hydb/src/node/tree-storage-model.ts:215-228 | An index entry lies in a prefix range exactly if the row's columns begin with the prefix. |
| TableModel.UniqueScan | packages/hydb/src/node/tree-storage-model.ts:285-298 | The range scan of a unique index finds an entry exactly if another row has the same columns. |
| TableModel.InsertMeans | packages/hydb/src/node/tree-storage-model.ts:255-308 | An insertion succeeds exactly if its key is free, the row can be written and no unique index has its columns; then the row is there as it is read back and no other row has changed. Each error has its condition. |
| TableModel.UpdateMeans | packages/hydb/src/node/tree-storage-model.ts:255-308 | An update succeeds exactly if its key is taken, the row has that key and fits; only the row under the key changes. |
| TableModel.DeleteMeans | packages/hydb/src/node/tree-storage-model.ts:261-263 | A deletion succeeds exactly if its key is taken; then the key is free and no other row has changed. |
| TableModel.ReplayedChanges | packages/hydb/src/node/tree-storage-model.ts:309-325 | Putting and removing the rows that the reported changes name, in order, takes the old rows to the new ones, at every point of the list. |
| TreeStorage.UpdateIndex | packages/hydb/src/node/tree-storage-model.ts:277-308 | One index tree follows one row change, or rejects it exactly when the rows say so, by deleting, scanning for one entry and putting in the tree. |
| TreeStorage.TreeDatabase.ApplyMutation | packages/hydb/src/node/tree-storage-model.ts:230-325 | A mutation of one of several tables is accepted exactly if the rows allow it, and then the trees stand for the new rows, every index tree for exactly their entries, and the reported change is what the mutation means. |
| TreeStorage.TreeDatabase.ApplyMutations | packages/hydb/src/node/tree-storage-model.ts:230-325 | The same for a list across tables, or its first error; every page below a new root is new or belongs to the table's old tree. One change is reported for each mutation, in order, with its table, its key and the rows under that key just before and just after it; replaying the changes gives the new rows. |
| TreeStorage.TreeDatabase.Commit | packages/hydb/src/node/node-storage.ts:1235-1317 | On the expected head a commit publishes the rows after the whole list and changes that report each mutation in order and replay to those rows; on another head, or at the first error, the published manifest and its rows stay. |
| CommittedChanges.CommittedIsReplayed | packages/hydb/src/subscription.ts:488-519 | What a subscription makes of reported changes, applied in order to its tables, is what the changes make of the stored rows. |
| CommittedChanges.CommitReaches | packages/hydb/src/subscription.ts:488-519 | So a commit's changes take a subscription's tables from the stored rows before the commit to those after it. |
| TreeStorage.ManifestStands | packages/hydb/src/node/tree-storage-model.ts:119-131 | A published manifest stands for the same rows after any later writes. |
| TreeStorage.TreeDatabase.Get | packages/hydb/src/node/tree-snapshot.ts:60-71 | A snapshot read gives the row under the encoded key. |
| TreeStorage.TreeDatabase.ScanTable | packages/hydb/src/node/tree-snapshot.ts:93-100 | Scanning a table gives exactly the rows whose keys are in the range, each once, in key order or in reverse, the first ones if there is a limit. |
| TreeStorage.TableRangeMeans | packages/hydb/src/node/tree-snapshot.ts:18-43 | The encoded range of a table holds exactly the keys within the bounds, inclusive or not. |
| TreeStorage.IndexRangeMeans | packages/hydb/src/node/tree-snapshot.ts:18-43 | That of an index holds exactly the entries whose first columns are within the bounds; of two lower bounds, or two upper ones, the inclusive one alone counts. |
| TreeMaps.MapStands | packages/hydb/src/node/bplus-tree.ts:142-170 | A root stands for the same map after any later writes. |
| TreeMaps.UpToScans | packages/hydb/src/node/bplus-tree.ts:172-182 | A scan lists the map's entries in range, in key order or against it, and leaves out only entries that come after all it lists when the limit is reached. |
| TreeStorage.TreeDatabase.ScanIndex | packages/hydb/src/node/tree-snapshot.ts:73-126 | Scanning the index tree for a key returns exactly the rows whose indexed columns and primary key begin with it, each once, in index order or in reverse, the first ones if there is a limit. |
| StorageOrder.PairInTurn | packages/hydb/src/planner.ts:253-345 | Two rows that a tree lists one after the other are in the order of query values exactly if their columns do not part at strings of the two orders. |
| StorageOrder.IndexScanStands | packages/hydb/src/node/tree-snapshot.ts:101-125 | A scan of an index tree is a scan as the planner takes it - the rows with the key, in the order of query values, the first ones up to the limit - if no two rows with the key disagree in the columns; without a limit, only if no two that it lists do. |
| StorageOrder.TableScanStands | packages/hydb/src/node/tree-snapshot.ts:93-100 | The same for a scan of a whole table. |
| StorageOrder.PointReadStands | packages/hydb/src/node/tree-snapshot.ts:60-71 | Reading one key of the tree is the planner's access by primary key. |
| StorageOrder.PlanesDisagree | packages/hydb/src/planner.ts:253-345 | U+E000 comes before U+10000 in a tree and behind it in a query, so where both begin strings of an ordered column a plan that drops the sort is out of order. |
| StorageOrder.ScanOfNumbers | packages/hydb/src/planner.ts:253-345 | Scanned by a column of numbers, rows ascend; scanned backwards they descend. |
| SpillSort.StableSortUnique | packages/hydb/src/spill-sort.ts:9-99 | A sequence has one stable sort. |
| SpillSort.StableSortMultiset | packages/hydb/src/spill-sort.ts:9-99 | Sorting keeps every element. |
| SpillSort.SpillableSorter.Finish | packages/hydb/src/spill-sort.ts:40-52 | For any memory bound the output is the stable sort of everything pushed. |
| SpillSort.SpillableSorter.MergeRuns | packages/hydb/src/spill-sort.ts:67-99 | The k-way merge of sorted consecutive chunks, taking the earliest run on ties, is the stable sort of their concatenation. |
| SpillSort.TakeChosen | packages/hydb/src/spill-sort.ts:67-99 | Taking the chosen head keeps the order within every class of equal elements. |
| SpillRuns.Flush | packages/hydb/src/spill-arrangement.ts:170-190 | Flushing appends each partition's entries to what it stores. |
| SpillRuns.FlushedKey | packages/hydb/src/spill-arrangement.ts:170-190 | A key's entries move behind those already stored, in order. |
| SpillRuns.OfKeyMeans | packages/hydb/src/spill-arrangement.ts:116-142 | The entries of a key are exactly those that carry it, in their order. |
| SpillJoin.SpillableHashIndex.Push | packages/hydb/src/spill-join.ts:78-101 | A push adds one entry to the history, spilled or not. |
| SpillJoin.PushedMeans | packages/hydb/src/spill-join.ts:109-123 | What a lookup is to give: the value of every push under the key and of no other, in push order. |
| SpillJoin.SpillableHashIndex.Lookup | packages/hydb/src/spill-join.ts:109-123 | A lookup is the pushed values under the key, in push order, whatever was spilled. |
| SpillArrangement.FormsAgreeExactly | packages/hydb/src/spill-arrangement.ts:67-190 | The in-memory and the logged form answer every lookup alike at every moment exactly if every change carries the key of the record it changes. |
| SpillArrangement.ReplayMeans | packages/hydb/src/spill-arrangement.ts:116-142 | A record is live exactly if the last change of its id inserted it. |
| SpillArrangement.ReplayOrder | packages/hydb/src/spill-arrangement.ts:116-142 | Live records come in the order in which their ids came to life; one that is replaced keeps its place. |
| SpillArrangement.SpilledAgreesExactly | packages/hydb/src/spill-arrangement.ts:102-190 | So do an arrangement that spills a snapshot at any moment and logs what follows, and one that stays in memory. |
| SpillArrangement.SpillableArrangement.Apply | packages/hydb/src/spill-arrangement.ts:102-114 | Changes are added to the history through the memory form, the spill transition or the hot log. |
| SpillArrangement.SpillableArrangement.Lookup | packages/hydb/src/spill-arrangement.ts:116-142 | A lookup gives the live records of the key in the order of the multimap, in either form. |
| SpillArrangement.SpillableArrangement.SpillSnapshot | packages/hydb/src/spill-arrangement.ts:160-168 | The transition to the spilled form changes no lookup. |
| PageStore.HeaderParses | packages/hydb/src/node/page-store.ts:41-54 | At a record boundary of a cut file a header parses exactly if its whole record survived. |
| PageStore.AppendOnlyPageStore.constructor | packages/hydb/src/node/page-store.ts:203-216 | Recovery of a file cut at any byte, from any record boundary on, keeps exactly the longest prefix of whole records. |
| PageStore.KeepsMost | packages/hydb/src/node/page-store.ts:203-216 | The number of records kept is the greatest that fits the cut. |
| PageStore.AppendOnlyPageStore.Append | packages/hydb/src/node/page-store.ts:140-157 | A record within the payload limit goes behind the kept prefix; a larger one is an error and changes nothing. |
| PageStore.AppendOnlyPageStore.Records | packages/hydb/src/node/page-store.ts:172-190 | Reading gives the records and their offsets, in order. |
| NodeLog.CutOrdered | packages/hydb/src/node/node-storage.ts:1235-1317 | Page before commit before ref: an order that any cut keeps. |
| NodeLog.RecoveredHeadsAreWhole | packages/hydb/src/node/node-storage.ts:645-746 | After any cut, every recovered head and base has its commit record, and every page below a head lies in the kept prefix. |
| NodeEngine.StepIsFaithful | packages/hydb/src/node/node-storage.ts:645-746 | After every operation - initialization, commit, abandoned commit, branch, metadata, compaction, reopening after a crash - loading the log gives what memory holds. |
| NodeEngine.StepMeans | packages/hydb/src/node/node-storage.ts:1183-1317 | What each operation appends to the log and makes of the catalog: a commit its pages, its record, its head and nothing else; a compaction keeps branches and retains. |
| NodeEngine.CutWithinStep | packages/hydb/src/node/node-storage.ts:1235-1317 | Cut within one operation, the log loads as before it or as after it. |
| NodeEngine.StepKeepsInv | packages/hydb/src/node/node-storage.ts:1235-1530 | Every operation, compaction included, keeps the log faithful and durable: each commit of the catalog has its record and its whole trees in the log. |
| NodeEngine.RunKeepsInv | packages/hydb/src/node/node-storage.ts:1183-1530 | From an empty file, over every run of operations, compactions and crashes. |
| NodeEngine.CrashRecoversAState | packages/hydb/src/node/node-storage.ts:645-746 | Wherever a crash cuts the log of such a run, the loaded catalog is one that the running database had, and no operation whose records survived is lost. |
| NodeRecovery.ReadLog | packages/hydb/src/node/page-store.ts:203-216 | A file cut at any byte opens as a cut of the log, at the last whole record. |
| NodeRecovery.Recover | packages/hydb/src/node/node-storage.ts:645-746 | Opening a file cut at any byte, above what the last compaction synced, loads a catalog that the database had; every operation whose records lie within the cut is in it. |
| NodeCatalog.KeptLonger | packages/hydb/src/node/node-storage.ts:1235-1317 | Appending to the log loses no commit of the catalog: its record and trees stay where they were. |
| NodeCatalog.KeptCommit | packages/hydb/src/node/node-storage.ts:1235-1317 | Recording a commit keeps the invariant that every commit of the catalog is in the log with whole trees. |
| NodeCollector.RetainedCommitIds | packages/hydb/src/node/node-storage.ts:1329-1376 | Retained are exactly the commits that the retention mode asks for: all, or heads, bases, named retains and open snapshots, the young ones, the last ones of every branch, and those that a stream has not delivered. |
| NodeCollector.RetainsMeans | packages/hydb/src/node/node-storage.ts:1329-1376 | Forever retains every commit; a window retains one exactly if it is a head, a base, named or open, young enough, followed by fewer than keepAtLeast commits of its branch, or not yet delivered to some stream. |
| NodeCompaction.CompactionKeepsCatalog | packages/hydb/src/node/node-storage.ts:1398-1530 | From any state that a run reaches and any retained set with its heads, bases and retains: the compacted log is in order and loads to the same branches and retains and exactly the retained commits, each with roots of relocated copies of the same trees, and for every branch the least floor. |
| NodeCollector.CollectGarbageNow | packages/hydb/src/node/node-storage.ts:1398-1530 | The method that gathers roots, copies trees, writes pages, commits and refs produces exactly that log. |
| NodeCollector.Collect | packages/hydb/src/node/node-storage.ts:1398-1530 | So one collection, from the choice of retained commits on, is the compaction step of the runs above. |
| NodeCompaction.HistoryFloor | packages/hydb/src/node/node-storage.ts:1378-1396 | The least sequence such that all later ones up to the head are retained. |
| NodeCompaction.FloorIsLeast | packages/hydb/src/node/node-storage.ts:1378-1396 | There is one such sequence. |
| Command.CommandTransaction.Get | packages/hydb/src/command.ts:132-160 | A read sees the snapshot with the mutations recorded so far; an unknown table or a key that cannot be encoded is refused. |
| Command.SeenMore | packages/hydb/src/command.ts:132-160 | After a mutation is recorded, reads of its key see its row, or none for a deletion, and reads of every other key see what they did. |
| Command.CommandTransaction.Insert | packages/hydb/src/command.ts:162-180 | The insertion is recorded exactly if the transaction is active, its key is free and the policy agrees; otherwise nothing changes. |
| Command.CommandTransaction.Update | packages/hydb/src/command.ts:182-211 | The changed row is recorded exactly if the row exists, the changes name known columns outside the key, the key stays and the policy agrees. Its columns are those of the row that was seen and of the changes; every changed column has the changed value, every other one the value that was seen; later reads of the transaction give this row. |
| Command.UpdateAndGet | packages/hydb/src/command.ts:132-211 | A transaction reads its own update, with every changed column changed. |
| Command.CommandTransaction.Delete | packages/hydb/src/command.ts:213-229 | The deletion is recorded exactly if the row exists and the policy agrees. |
| Command.ReplayedRows | packages/hydb/src/node/tree-storage-model.ts:230-325 | After a replay every key of every table holds what the last mutation of a key with its bytes left, read back. |
| Command.ReplayExactly | packages/hydb/src/node/tree-storage-model.ts:230-325 | Replaying a recorded list on the same head fails with an error exactly if some mutation is reached whose row cannot be written or indexed or is taken in a unique index, with that error, or whose key the transaction misjudged, with a duplicate key or missing row. |
| Command.CoherentReplay | packages/hydb/src/command.ts:268-272 | A list that misjudges no key is rejected for its rows alone, never for a duplicate key, a missing row or a changed key. |
| Command.PlainIsCoherent | packages/hydb/src/storage.ts:220-232 | A transaction that uses one form of each key misjudges none. |
| Command.SeenIsReplayed | packages/hydb/src/command.ts:132-160 | What the transaction reads in a cell whose key was used in one form is what the replay leaves there. |
| Command.TwoZerosFail | packages/hydb/src/storage.ts:220-232 | A transaction that inserts keys 0 and -0 records both; storage takes them for one key and rejects the command as a duplicate. |
| Command.CommitCommand | packages/hydb/src/node/node-storage.ts:1235-1317 | Committing what a transaction recorded on the head it had read publishes exactly what it saw, with changes that report its mutations in order and replay to the new rows, or the head stays: for a conflict, for a row, or for a misjudged key, and exactly then. |
| PlannedQueries.FlatFiltersMean | packages/hydb/src/planner.ts:94-101 | Flattening conjunctions keeps what the filters accept. |
| PlannedQueries.UsedMeans | packages/hydb/src/planner.ts:120-146 | The filters that an access enforces hold exactly if the row's columns equal the resolved key. |
| PlannedQueries.ScanMatches | packages/hydb/src/planner.ts:253-345 | A scan followed by the residual filters lists exactly the matching rows; if the plan drops the order, the scan is already in the query's order. |
| PlannedQueries.HashKeeps | packages/hydb/src/executor.ts:371-406 | A row that passes the filters is found by probing the hash index with the parent's value. |
| PlannedQueries.CutIsHarmless | packages/hydb/src/planner.ts:256-266 | The limit pushed into a scan changes neither rows nor counts, and keeps cardinality errors. |
| PlannedQueries.PlanExists | packages/hydb/src/planner.ts:242-247 | Every query over known tables has a plan. |
| PlannedQueries.PlannedAnswer | packages/hydb/src/executor.ts:204-406 | For every schema, storage order and query without semijoin, executing its plan gives one of the answers that the query allows, cardinality failures included. |
| PlannedQueries.EvaluateIsAnswer | packages/hydb/src/query.ts:548-610 | The reference evaluator gives one of these answers. |
| StorageOrder.AnswersInOrder | packages/hydb/src/executor.ts:151-166 | The rows of every answer that a query allows come in the query's order, value by value. |
| StorageOrder.AnswersPass | packages/hydb/src/executor.ts:204-239 | They are the rows whose filters are all true, each once. |
| PlannedQueries.UntiedAnswer | packages/hydb/src/executor.ts:151-166 | Where no two matches tie, there is only one answer: executor and reference evaluator agree exactly. |
| PlannedQueries.ScansExist | packages/hydb/src/executor.ts:204-239 | Scans of the kind assumed exist for every access, so the main theorem is not empty. |
| PlannedQueries.UnspecifiedIsMany | packages/hydb/src/planner.ts:255-255 | Without a cardinality the reference evaluator only fails, while the plan answers the query as "many": the one difference between the two. |
| Demands.FilteredRowHasKey | packages/hydb/src/subscription.ts:81-95 | A row that passes a query's filters carries exactly the key that its access resolves to in the parent's context; without a resolved key no row passes. |
| Demands.EvaluatedSame | packages/hydb/src/subscription.ts:521-533 | If every scope holds the rows under its live keys, and live keys cover every parent match, the query has the same value as over the whole tables, in every context. |
| DemandFlow.AskedIsLive | packages/hydb/src/subscription.ts:419-447 | Keys asked by the parent matches of every nested query are live at every level of the query. |
| DemandFlow.ShallowUnchanged | packages/hydb/src/dataflow.ts:1013-1021 | A change of a source leaves the parent matches of every query that is not nested below it. |
| DemandFlow.FaithfulEngineExists | packages/hydb/src/dataflow.ts:1013-1021 | The engine contract that the runtime relies on can be met. |
| DemandReplies.NodeJoins | packages/hydb/src/dataflow.ts:1013-1021 | Compiling a query adds exactly one demand stream for every query nested in it. |
| DemandReplies.NetworkReports | packages/hydb/src/dataflow.ts:1013-1021 | Between two settled states of the compiled network in which only one source changed, what each nested query reports is a valid change of its parent's matches. |
| DemandReplies.NetworkReplies | packages/hydb/src/dataflow.ts:908-924 | The compiled network keeps that contract: all demands it reports between two such states, in the order of its steps, form a reply, and no query at or above the changed source reports one. |
| DemandReplies.NetworkIsAnEngine | packages/hydb/src/subscription.ts:419-447 | Whatever the network replied to the runtime's calls, an engine that the runtime is proved against replies the same. |
| DemandNetwork.DemandStreamsCarryMatches | packages/hydb/src/dataflow.ts:1013-1021 | In a quiet compiled network the stream that a nested query takes its demands from has carried exactly its parent's matches. |
| DemandNetwork.EmissionsTrack | packages/hydb/src/dataflow.ts:67-78 | Over any stretch of a run, the batches an operator emits are a valid change of what it has carried. |
| DemandDepth.MatchesRead | packages/hydb/src/dataflow.ts:991-1114 | The matches of a compiled query depend on its own source, its policy's sources and its parents' matches only. |
| DemandDepth.ParentsReadAbove | packages/hydb/src/dataflow.ts:1013-1021 | In a compiled query, a nested query whose parents depend on the rows of another nested query is nested deeper. |
| DemandDepth.DemandsComeFromBelow | packages/hydb/src/dataflow.ts:908-924 | While only the rows of one nested query change, only queries nested deeper report demands. |
| SubscriptionState.LoadRows | packages/hydb/src/subscription.ts:144-181 | What is loaded for a key is exactly the table's rows under it, in whatever order the storage returns them. |
| SubscriptionState.CountStep | packages/hydb/src/subscription.ts:437-446 | Taking a demand keeps every count equal to the number of parent matches with the key; the count never becomes negative. |
| SubscriptionState.AddedCover | packages/hydb/src/subscription.ts:449-466 | After the new keys are loaded, only scopes that dropped a key hold rows no key asks for. |
| SubscriptionState.PublishedIsWhole | packages/hydb/src/subscription.ts:408-408 | The query over the loaded rows equals the query over the whole tables of the commit, whatever the ordinals of the rows that were not loaded. |
| Subscription.SubscriptionRuntime.CountDemands | packages/hydb/src/subscription.ts:420-447 | All waiting demands are counted; the negative-count error is unreachable. |
| Subscription.SubscriptionRuntime.LoadAdded | packages/hydb/src/subscription.ts:449-457 | Rows of newly live keys are loaded; new demands come from deeper queries only. |
| Subscription.SubscriptionRuntime.EvictDropped | packages/hydb/src/subscription.ts:459-467 | Scopes that dropped a key are left with exactly the rows under live keys. |
| Subscription.SubscriptionRuntime.SettleDemands | packages/hydb/src/subscription.ts:419-469 | Settling ends after at most as many rounds as queries nest, with exact rows and exact reference counts in every scope. |
| Subscription.SubscriptionRuntime.FilterChanges | packages/hydb/src/subscription.ts:488-519 | The filtered changes turn the scope's rows before the commit into those after it. |
| Subscription.SubscriptionRuntime.Bootstrap | packages/hydb/src/subscription.ts:279-343 | The first load and the settling after it give exact rows and counts at the snapshot. |
| Subscription.SubscriptionRuntime.Apply | packages/hydb/src/subscription.ts:372-417 | Applying a commit, relevant or not, gives exact rows and counts at that commit. |
| Subscription.SubscriptionRuntime.Published | packages/hydb/src/subscription.ts:408-408 | In a settled state the published query value is the one over the whole tables. |
| Subscription.SubscriptionRuntime.Accept | packages/hydb/src/subscription.ts:230-240 | Commits are applied once and in sequence: a live subscription is settled at the last commit delivered, and one that is starting keeps what it has not applied. |
| Subscription.SubscriptionRuntime.Drain | packages/hydb/src/subscription.ts:345-354 | Buffered commits are skipped or are the next in sequence. |
| Subscription.SubscriptionRuntime.GoLive | packages/hydb/src/subscription.ts:355-355 | With an empty buffer no delivered commit is missing. |
| Subscription.BufferFirst | packages/hydb/src/subscription.ts:230-240 | The first buffered commit was already applied or is the next one. |

## Left out

- Values: numbers of queries are reals; NaN, -0 and comparisons of different types are not modelled there. A total order stands in for the last: they throw in the code, but a number and a date compare by time, and of null and undefined the first one given comes first. Keys (`Codec`, `Command`) have binary64 numbers with -0 and UTF-16 strings.
- Ids and storage keys are kept structured where the code joins or encodes them to strings; the encodings are injective (`Codec.EncodingInjective`).
- Every query node has a source of its own; a source shared by two nodes is not modelled.
- One record type stands for the row, match, projection and group records of the dataflow; its unused fields keep a default.
- JSON, base64, SHA-256, structured clones, page caches, memory accounting, tracing and file handles: abstract or absent. The page store's checksum is any function to 16 bytes.
- BPlusTree.ImmutableBPlusTree.RebalanceChildren: takes and returns the separator and child lists as values where the code changes its array arguments in place; heights are ghost parameters; one fixed maxEntries of at least 4.
- KeyValueSafety.NothingNeededIsCollected: operations are steps of a state machine on values instead of methods of a class, since the property is about their interleavings; conflict errors are steps that are not enabled, commit ids are never reused, and a failed write of the underlying store (which makes the database refuse further work) is not modelled.
- NodeEngine.CrashRecoversAState: the log is a state machine on values; migrations (sequences of commits, branches and metadata) and the startup checkpoint file are not modelled; compaction is one step, since its file replaces the old one by a rename.
- NodeCollector.RetainedCommitIds: the retention policy and commit times are arguments; the clock is one of them.
- NodeRecovery.Recover: how entries are written as bytes is any format in which an entry can be read back when the records it names are known.
- PageStore.AppendOnlyPageStore.Append: retries after a partial write are not modelled; a start offset beyond the file, which is an error, is not an argument.
- TreeStorage.TreeDatabase.ApplyMutations: rows and keys are written by any encoding whose values come back as the same key parts and read back stably (JSON turns -0 into 0). After an error the draft manifest is discarded, so nothing is stated about it.
- TreeStorage.TreeDatabase.ScanIndex: scans of a key; for scans of an index by bounds only the encoded range is stated (`IndexRangeMeans`). The batches of 1024 rows are one sequence.
- StorageOrder.IndexScanStands: strings of stored values have no lone surrogates; those are one character to storage and different ones to queries.
- Command.CommandTransaction.Update: policy callbacks are booleans given by the caller; scopes with an admin policy and the defaults of missing columns are left out. Keys are kept as sequences of parts, which `encodeStorageKey` encodes injectively.
- CommitPages.PublishTrees: the staged store and the tree store are two views of the pages, tied by ids and contents; reads of staged pages go through `KeyValuePages.KeyValuePages.ReadPage`.
- ReadPolicy.AuthorizePreservesMeaning: the principal is already applied to the policies, every parent table has one reserved source, and write policies are left out.
- PlannedQueries.PlannedAnswer: queries without semijoins; stored rows have a value for every column that a primary key or an index uses; a hash join whose parent value is undefined finds no rows where the code throws.
- DataflowTopK.OrderTopKOperator.Handle: requires that a match id keeps its group; `DeliveriesAreReady` shows that it does in every run.
- DataflowJoin.JoinOperator.HandleRight: for policy joins requires that no two right records share a key; `DeliveriesAreReady` shows that it holds in every run with keyed policies, and `RightStepExactly` what happens without.
- SpillSort.SpillableSorter.Finish: run codecs are the identity, partition functions any function of the key.
- Subscription.SubscriptionRuntime.Apply: the awaits inside one commit are one step; disposing a subscription and errors thrown by the storage are left out. Ordinals are those of the loaded rows, so ties between rows may be broken differently than by an engine that loaded every row.
- MemoryStorage (storage.ts), database.ts, gateways, migrations, the Babel compiler and the LMDB and HTTP adapters are not part of this model; the in-memory storage repeats what `TableModel` and `KeyValueStorage` state for trees.
- Executing a semijoin (executor.ts:251-294) is taken as the meaning of authorization in `Query.Evaluate`; its spilled key set is not modelled.
