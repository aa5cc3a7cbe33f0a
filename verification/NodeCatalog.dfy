// What the catalog of the file storage engine promises about its log (node-storage.ts): commits have a
// place on their branch, heads are the last ones, and every tree of a commit is whole.
module NodeCatalog {
  import opened NodeLog
  import P = PageTrees

  function EntryOf(log: Log, catalog: Catalog, id: CommitId): Entry {
    if id in catalog.commits && catalog.commits[id] < |log| then log[catalog.commits[id]] else MetaEntry(map[], map[])
  }

  // Only the first commit of a storage has sequence 0; it is the base of its own branch.
  predicate PlacedCommit(log: Log, catalog: Catalog, id: CommitId) {
    var c := EntryOf(log, catalog, id);
    && c.CommitEntry? && c.id == id
    && c.branch in catalog.branches && c.sequence <= catalog.branches[c.branch].sequence
    && (c.sequence == 0 ==> catalog.branches[c.branch].base == id)
  }

  predicate SameMoment(log: Log, catalog: Catalog, i: CommitId, j: CommitId) {
    var c, d := EntryOf(log, catalog, i), EntryOf(log, catalog, j);
    c.CommitEntry? && d.CommitEntry? && c.branch == d.branch && c.sequence == d.sequence
  }

  // The head is the branch's last commit, or its base while it has none.
  predicate HeadAt(log: Log, catalog: Catalog, b: Name)
    requires b in catalog.branches
  {
    var state := catalog.branches[b];
    && state.head in catalog.commits && state.base in catalog.commits
    && (state.sequence == 0 ==> state.head == state.base)
    && (state.sequence > 0 ==>
          var c := EntryOf(log, catalog, state.head); c.CommitEntry? && c.branch == b && c.sequence == state.sequence)
  }

  // A well-formed tree of some height.
  ghost predicate Sound(pages: P.Pages, root: P.Root, m: nat) {
    exists h :: P.SoundRoot(pages, root, h, m)
  }

  ghost predicate SoundAll(pages: P.Pages, roots: seq<P.Root>, m: nat) {
    forall k :: 0 <= k < |roots| ==> Sound(pages, roots[k], m)
  }

  ghost predicate SoundCommit(log: Log, catalog: Catalog, id: CommitId, m: nat) {
    var c := EntryOf(log, catalog, id);
    c.CommitEntry? ==> SoundAll(PagesOf(log), c.roots, m)
  }

  ghost predicate Kept(log: Log, catalog: Catalog, m: nat) {
    && (forall id :: id in catalog.commits ==> PlacedCommit(log, catalog, id) && SoundCommit(log, catalog, id, m))
    && (forall i, j :: i in catalog.commits && j in catalog.commits && SameMoment(log, catalog, i, j) ==> i == j)
    && (forall b :: b in catalog.branches ==> HeadAt(log, catalog, b))
    && (forall name :: name in catalog.retains ==> catalog.retains[name] in catalog.commits)
  }

  lemma SoundLonger(a: P.Pages, b: P.Pages, roots: seq<P.Root>, m: nat)
    requires P.Extends(a, b) && SoundAll(a, roots, m)
    ensures SoundAll(b, roots, m)
  {
    forall k | 0 <= k < |roots| ensures Sound(b, roots[k], m) {
      assert Sound(a, roots[k], m);
      var h :| P.SoundRoot(a, roots[k], h, m);
      P.OldRootsStand(a, b, roots[k], h, m);
    }
  }

  // Branches only move on, and keep their base.
  predicate BranchesMoveOn(a: Catalog, b: Catalog) {
    forall x :: x in a.branches ==> x in b.branches && a.branches[x].sequence <= b.branches[x].sequence && a.branches[x].base == b.branches[x].base
  }

  lemma SamePlace(log: Log, catalog: Catalog, log': Log, catalog': Catalog, id: CommitId, m: nat)
    requires PlacedCommit(log, catalog, id) && SoundCommit(log, catalog, id, m)
    requires EntryOf(log', catalog', id) == EntryOf(log, catalog, id)
    requires BranchesMoveOn(catalog, catalog') && P.Extends(PagesOf(log), PagesOf(log'))
    ensures PlacedCommit(log', catalog', id) && SoundCommit(log', catalog', id, m)
  {
    hide SoundAll, PagesOf, EntryOf;
    SoundLonger(PagesOf(log), PagesOf(log'), EntryOf(log, catalog, id).roots, m);
  }

  lemma SameHead(log: Log, catalog: Catalog, log': Log, catalog': Catalog, b: Name)
    requires b in catalog.branches && b in catalog'.branches && catalog'.branches[b] == catalog.branches[b]
    requires HeadAt(log, catalog, b) && catalog.commits.Keys <= catalog'.commits.Keys
    requires EntryOf(log', catalog', catalog.branches[b].head) == EntryOf(log, catalog, catalog.branches[b].head)
    ensures HeadAt(log', catalog', b)
  {
    hide EntryOf;
  }

  ghost predicate SameEntries(log: Log, catalog: Catalog, log': Log, catalog': Catalog) {
    && catalog.commits.Keys <= catalog'.commits.Keys
    && forall id :: id in catalog.commits ==> EntryOf(log', catalog', id) == EntryOf(log, catalog, id)
  }

  lemma LongerEntries(log: Log, longer: Log, catalog: Catalog, catalog': Catalog, m: nat)
    requires log <= longer && Kept(log, catalog, m)
    requires forall id :: id in catalog.commits ==> id in catalog'.commits && catalog'.commits[id] == catalog.commits[id]
    ensures SameEntries(log, catalog, longer, catalog')
  {
    forall id | id in catalog.commits ensures EntryOf(longer, catalog', id) == EntryOf(log, catalog, id) {
      assert PlacedCommit(log, catalog, id);
      assert longer[catalog.commits[id]] == log[catalog.commits[id]];
    }
  }

  // The commits that were there before.
  lemma OldCommits(log: Log, catalog: Catalog, log': Log, catalog': Catalog, m: nat)
    requires Kept(log, catalog, m) && log <= log' && SameEntries(log, catalog, log', catalog') && BranchesMoveOn(catalog, catalog')
    ensures forall id :: id in catalog.commits ==> PlacedCommit(log', catalog', id) && SoundCommit(log', catalog', id, m)
    ensures forall i, j :: i in catalog.commits && j in catalog.commits && SameMoment(log', catalog', i, j) ==> i == j
    ensures forall b :: b in catalog.branches && catalog'.branches[b] == catalog.branches[b] ==> HeadAt(log', catalog', b)
  {
    hide PlacedCommit, SoundCommit, HeadAt, EntryOf, P.Extends, PagesOf;
    PagesGrow(log, log');
    forall id | id in catalog.commits ensures PlacedCommit(log', catalog', id) && SoundCommit(log', catalog', id, m) {
      SamePlace(log, catalog, log', catalog', id, m);
    }
    forall i, j | i in catalog.commits && j in catalog.commits && SameMoment(log', catalog', i, j) ensures i == j {
      assert SameMoment(log, catalog, i, j);
    }
    forall b | b in catalog.branches && catalog'.branches[b] == catalog.branches[b] ensures HeadAt(log', catalog', b) {
      HeadPresent(log, catalog, b);
      SameHead(log, catalog, log', catalog', b);
    }
  }

  lemma HeadPresent(log: Log, catalog: Catalog, b: Name)
    requires b in catalog.branches && HeadAt(log, catalog, b)
    ensures catalog.branches[b].head in catalog.commits && catalog.branches[b].base in catalog.commits
  {
  }

  /** Records appended later leave the catalog's promises alone. */
  lemma KeptLonger(log: Log, longer: Log, catalog: Catalog, m: nat)
    requires log <= longer && Kept(log, catalog, m)
    ensures Kept(longer, catalog, m)
  {
    hide PlacedCommit, SoundCommit, HeadAt, SameMoment, EntryOf;
    LongerEntries(log, longer, catalog, catalog, m);
    OldCommits(log, catalog, longer, catalog, m);
  }

  // A commit at the end of the log becomes the head of its branch.
  function WithCommit(catalog: Catalog, c: Entry, slot: Slot): Catalog
    requires c.CommitEntry? && c.branch in catalog.branches
  {
    catalog.(branches := catalog.branches[c.branch := BranchState(c.id, c.sequence, catalog.branches[c.branch].base)],
             commits := catalog.commits[c.id := slot])
  }

  lemma KeptCommit(log: Log, catalog: Catalog, m: nat, c: Entry)
    requires Kept(log, catalog, m) && c.CommitEntry? && c.branch in catalog.branches
    requires c.sequence == catalog.branches[c.branch].sequence + 1 && c.id !in catalog.commits
    requires SoundAll(PagesOf(log), c.roots, m)
    ensures Kept(log + [c], WithCommit(catalog, c, |log|), m)
  {
    hide PlacedCommit, SoundCommit, HeadAt, SameMoment, EntryOf;
    var longer, catalog' := log + [c], WithCommit(catalog, c, |log|);
    LongerEntries(log, longer, catalog, catalog', m);
    OldCommits(log, catalog, longer, catalog', m);
    LastCommit(log, catalog, m, c);
    forall i, j | i in catalog'.commits && j in catalog'.commits && SameMoment(longer, catalog', i, j) ensures i == j {
      if i == c.id && j != c.id {
        EarlierMoment(log, catalog, m, c, j);
        assert false;
      } else if j == c.id && i != c.id {
        EarlierMoment(log, catalog, m, c, i);
        assert false;
      }
    }
    assert forall b :: b in catalog'.branches && b != c.branch ==> b in catalog.branches && catalog'.branches[b] == catalog.branches[b];
  }

  lemma LastCommit(log: Log, catalog: Catalog, m: nat, c: Entry)
    requires Kept(log, catalog, m) && c.CommitEntry? && c.branch in catalog.branches
    requires c.sequence == catalog.branches[c.branch].sequence + 1 && c.id !in catalog.commits
    requires SoundAll(PagesOf(log), c.roots, m)
    ensures var longer, catalog' := log + [c], WithCommit(catalog, c, |log|);
      PlacedCommit(longer, catalog', c.id) && SoundCommit(longer, catalog', c.id, m) && HeadAt(longer, catalog', c.branch)
  {
    hide SoundAll, PlacedCommit, SoundCommit, SameMoment, PagesOf, P.Extends;
    var longer, catalog' := log + [c], WithCommit(catalog, c, |log|);
    PagesGrow(log, longer);
    SoundLonger(PagesOf(log), PagesOf(longer), c.roots, m);
    assert EntryOf(longer, catalog', c.id) == c;
    assert HeadAt(log, catalog, c.branch);
    NewPlace(longer, catalog', c, m);
  }

  lemma NewPlace(log: Log, catalog: Catalog, c: Entry, m: nat)
    requires c.CommitEntry? && EntryOf(log, catalog, c.id) == c && SoundAll(PagesOf(log), c.roots, m)
    requires c.branch in catalog.branches && c.sequence <= catalog.branches[c.branch].sequence
    requires c.sequence == 0 ==> catalog.branches[c.branch].base == c.id
    ensures PlacedCommit(log, catalog, c.id) && SoundCommit(log, catalog, c.id, m)
  {
  }

  // No earlier commit of the branch has the new sequence.
  lemma EarlierMoment(log: Log, catalog: Catalog, m: nat, c: Entry, id: CommitId)
    requires Kept(log, catalog, m) && c.CommitEntry? && c.branch in catalog.branches
    requires c.sequence == catalog.branches[c.branch].sequence + 1 && c.id !in catalog.commits && id in catalog.commits
    ensures var longer, catalog' := log + [c], WithCommit(catalog, c, |log|);
      !SameMoment(longer, catalog', id, c.id) && !SameMoment(longer, catalog', c.id, id)
  {
    hide SoundCommit, HeadAt, SameMoment;
    var longer, catalog' := log + [c], WithCommit(catalog, c, |log|);
    LongerEntries(log, longer, catalog, catalog', m);
    assert PlacedCommit(log, catalog, id);
    DifferentMoments(longer, catalog', id, c.id);
  }

  lemma DifferentMoments(log: Log, catalog: Catalog, i: CommitId, j: CommitId)
    requires var c, d := EntryOf(log, catalog, i), EntryOf(log, catalog, j);
      c.CommitEntry? && d.CommitEntry? && (c.branch == d.branch ==> c.sequence != d.sequence)
    ensures !SameMoment(log, catalog, i, j) && !SameMoment(log, catalog, j, i)
  {
  }

  lemma KeptBranch(log: Log, catalog: Catalog, m: nat, b: Name, from: CommitId)
    requires Kept(log, catalog, m) && b !in catalog.branches && from in catalog.commits
    ensures Kept(log, catalog.(branches := catalog.branches[b := BranchState(from, 0, from)]), m)
  {
    hide PlacedCommit, SoundCommit, SameMoment, EntryOf;
    var catalog' := catalog.(branches := catalog.branches[b := BranchState(from, 0, from)]);
    LongerEntries(log, log, catalog, catalog', m);
    OldCommits(log, catalog, log, catalog', m);
  }

  lemma KeptRetains(log: Log, catalog: Catalog, m: nat, retains: map<Name, CommitId>)
    requires Kept(log, catalog, m) && forall name :: name in retains ==> retains[name] in catalog.commits
    ensures Kept(log, catalog.(retains := retains), m)
  {
    hide PlacedCommit, SoundCommit, HeadAt, SameMoment, EntryOf;
    LongerEntries(log, log, catalog, catalog.(retains := retains), m);
    OldCommits(log, catalog, log, catalog.(retains := retains), m);
  }

  // The first commit of a storage: no rows, sequence 0, the base of its branch.
  lemma KeptFirst(log: Log, catalog: Catalog, m: nat, c: Entry)
    requires m >= 4 && Kept(log, catalog, m) && catalog.branches == map[]
    requires c.CommitEntry? && c.sequence == 0 && forall k :: 0 <= k < |c.roots| ==> c.roots[k] == P.Root.None
    ensures catalog.commits == map[]
    ensures Kept(log + [c], catalog.(branches := map[c.branch := BranchState(c.id, 0, c.id)], commits := map[c.id := |log|]), m)
  {
    forall id ensures id !in catalog.commits {
      assert id in catalog.commits ==> PlacedCommit(log, catalog, id);
    }
    var longer := log + [c];
    forall k | 0 <= k < |c.roots| ensures Sound(PagesOf(longer), c.roots[k], m) {
      assert P.SoundRoot(PagesOf(longer), c.roots[k], 0, m);
    }
    var catalog' := catalog.(branches := map[c.branch := BranchState(c.id, 0, c.id)], commits := map[c.id := |log|]);
    assert EntryOf(longer, catalog', c.id) == c;
    assert SoundCommit(longer, catalog', c.id, m);
  }
}
