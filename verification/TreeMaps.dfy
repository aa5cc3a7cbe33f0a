// Roots of a tree store as maps from keys to values: lookups, mutations and scans, with heights out of sight.
module TreeMaps {
  import opened Entries
  import P = PageTrees
  import B = BPlusTree
  import Lex

  ghost predicate Sound(pages: P.Pages, root: P.Root, m: nat) {
    exists h: nat :: P.SoundRoot(pages, root, h, m)
  }

  lemma {:induction false} TreeHeight(pages: P.Pages, id: P.PageId, h: nat, k: nat)
    requires P.Shaped(pages, id, h) && P.Shaped(pages, id, k)
    ensures h == k
    decreases h
  {
    if pages[id].Internal? {
      TreeHeight(pages, pages[id].children[0], h - 1, k - 1);
    }
  }

  lemma HeightUnique(pages: P.Pages, root: P.Root, h: nat, k: nat, m: nat)
    requires P.SoundRoot(pages, root, h, m) && P.SoundRoot(pages, root, k, m)
    ensures h == k
  {
    hide P.WellFormed, P.Shaped, Sorted;
    if root.Some? {
      TreeHeight(pages, root.value, h, k);
    }
  }

  ghost function Height(pages: P.Pages, root: P.Root, m: nat): nat
    requires Sound(pages, root, m)
  {
    var h: nat :| P.SoundRoot(pages, root, h, m);
    h
  }

  ghost function Listed(pages: P.Pages, root: P.Root, m: nat): seq<Entry>
    requires Sound(pages, root, m)
  {
    P.Contents(pages, root, Height(pages, root, m))
  }

  ghost function Mapped(pages: P.Pages, root: P.Root, m: nat): map<Bytes, Bytes>
    requires Sound(pages, root, m)
  {
    ToMap(Listed(pages, root, m))
  }

  lemma ListedIs(pages: P.Pages, root: P.Root, h: nat, m: nat)
    requires P.SoundRoot(pages, root, h, m)
    ensures Sound(pages, root, m) && Height(pages, root, m) == h && Listed(pages, root, m) == P.Contents(pages, root, h)
  {
    hide P.SoundRoot;
    HeightUnique(pages, root, h, Height(pages, root, m), m);
  }

  lemma ListedSorted(pages: P.Pages, root: P.Root, m: nat)
    requires Sound(pages, root, m)
    ensures Sorted(Listed(pages, root, m))
  {
  }

  /** A root stands for the same map after any later writes. */
  lemma MapStands(a: P.Pages, b: P.Pages, root: P.Root, m: nat)
    requires P.Extends(a, b) && Sound(a, root, m)
    ensures Sound(b, root, m) && Listed(b, root, m) == Listed(a, root, m) && Mapped(b, root, m) == Mapped(a, root, m)
  {
    hide P.SoundRoot, P.Extends, P.Contents;
    var h := Height(a, root, m);
    P.OldRootsStand(a, b, root, h, m);
    ListedIs(b, root, h, m);
  }

  // The pages of a new root are new or belong to the old one.
  ghost predicate OwnedFrom(before: P.Pages, root: P.Root, newFrom: nat, after: P.Pages, root': P.Root, m: nat) {
    && Sound(before, root, m) && Sound(after, root', m)
    && P.OwnedRoot(after, root', Height(after, root', m), newFrom, P.RootReach(before, root, Height(before, root, m)))
  }

  lemma EmptyRoot(pages: P.Pages, m: nat)
    ensures Sound(pages, None, m) && Mapped(pages, None, m) == map[]
  {
    assert P.SoundRoot(pages, None, 0, m);
    ListedIs(pages, None, 0, m);
  }

  function Changed(m: map<Bytes, Bytes>, mutation: P.Mutation): map<Bytes, Bytes> {
    match mutation
    case PutEntry(k, v) => m[k := v]
    case DeleteKey(k) => m - {k}
  }

  method MutateTree(tree: B.ImmutableBPlusTree, root: P.Root, mutation: P.Mutation) returns (current: P.Root)
    requires tree.Consistent() && Sound(tree.pages, root, tree.maxEntries)
    modifies tree`pages, tree`nextId
    ensures tree.Consistent() && P.Extends(old(tree.pages), tree.pages) && tree.nextId >= old(tree.nextId)
    ensures Sound(tree.pages, current, tree.maxEntries)
    ensures OwnedFrom(old(tree.pages), root, old(tree.nextId), tree.pages, current, tree.maxEntries)
    ensures Mapped(tree.pages, current, tree.maxEntries) == Changed(Mapped(old(tree.pages), root, tree.maxEntries), mutation)
  {
    hide P.SoundRoot, P.OwnedRoot, P.Contents, P.Mutated, Sorted, ToMap, P.Absent;
    ghost var h := Height(tree.pages, root, tree.maxEntries);
    ListedIs(tree.pages, root, h, tree.maxEntries);
    ListedSorted(tree.pages, root, tree.maxEntries);
    ghost var was := Listed(tree.pages, root, tree.maxEntries);
    ghost var height;
    current, height := tree.Mutate(root, [mutation], h);
    ListedIs(tree.pages, current, height, tree.maxEntries);
    P.MutatedIsFolded(was, [mutation]);
    FoldedOne(ToMap(was), mutation);
  }

  lemma FoldedOne(m: map<Bytes, Bytes>, mutation: P.Mutation)
    ensures P.Folded(m, [mutation]) == Changed(m, mutation)
  {
    assert [mutation][..0] == [];
    assert P.Folded(m, []) == m;
  }

  method GetIn(tree: B.ImmutableBPlusTree, root: P.Root, key: Bytes) returns (value: Option<Bytes>)
    requires tree.Consistent() && Sound(tree.pages, root, tree.maxEntries)
    ensures var m := Mapped(tree.pages, root, tree.maxEntries); value == if key in m then Some(m[key]) else None
  {
    value := tree.Get(root, key, Height(tree.pages, root, tree.maxEntries));
  }

  // ---------- scans ----------

  predicate Before(reverse: bool, a: Bytes, b: Bytes) {
    if reverse then Less(b, a) else Less(a, b)
  }

  predicate Runs(s: seq<Entry>, reverse: bool) {
    forall i, j :: 0 <= i < j < |s| ==> Before(reverse, s[i].key, s[j].key)
  }

  lemma {:induction false} InRangeRuns(s: seq<Entry>, range: TreeRange, reverse: bool)
    requires Runs(s, reverse)
    ensures Runs(InRange(s, range), reverse)
    ensures forall e :: e in InRange(s, range) <==> e in s && range.Contains(e.key)
  {
    hide Less;
    if s != [] {
      var init, last := s[..|s| - 1], s[|s| - 1];
      InRangeRuns(init, range, reverse);
      assert s == init + [last];
      forall i | 0 <= i < |InRange(init, range)| ensures Before(reverse, InRange(init, range)[i].key, last.key) {
        assert InRange(init, range)[i] in init;
      }
    }
  }

  lemma DirectedRuns(s: seq<Entry>, reverse: bool)
    requires Sorted(s)
    ensures Runs(Directed(s, reverse), reverse)
    ensures forall e :: e in Directed(s, reverse) <==> e in s
  {
    hide Less;
    DirectedAt(s, reverse);
    var t := Directed(s, reverse);
    forall e | e in s ensures e in t {
      var i :| 0 <= i < |s| && s[i] == e;
      assert t[if reverse then |s| - 1 - i else i] == e;
    }
  }

  lemma InMap(s: seq<Entry>, e: Entry)
    requires Sorted(s)
    ensures e in s <==> e.key in ToMap(s) && ToMap(s)[e.key] == e.value
  {
    hide Less;
    ToMapKeys(s, e.key);
    forall i | 0 <= i < |s| && s[i].key == e.key ensures Find(s, e.key) == Some(s[i].value) {
      FindAt(s, i);
    }
    if e.key in ToMap(s) {
      var i :| 0 <= i < |s| && s[i].key == e.key;
      assert s[i] == Entry(e.key, s[i].value);
    }
  }

  lemma {:induction false} FindAt(s: seq<Entry>, i: nat)
    requires Sorted(s) && i < |s|
    ensures Find(s, s[i].key) == Some(s[i].value)
  {
    hide Less;
    if i > 0 {
      OrderAt(s[0].key, s[i].key);
      FindAt(s[1..], i - 1);
    }
  }

  // The entries of a map in range, in order, the first ones if there is a limit.
  ghost predicate Scanned(m: map<Bytes, Bytes>, range: TreeRange, reverse: bool, limit: Option<nat>, entries: seq<Entry>) {
    && Runs(entries, reverse)
    && (forall e :: e in entries ==> e.key in m && m[e.key] == e.value && range.Contains(e.key))
    && (limit.Some? ==> |entries| <= limit.value)
    && (forall k :: k in m && range.Contains(k) ==> Entry(k, m[k]) in entries || Beyond(entries, reverse, limit, k))
  }

  // The limit was reached before the key.
  predicate Beyond(entries: seq<Entry>, reverse: bool, limit: Option<nat>, k: Bytes) {
    limit == Some(|entries|) && forall i :: 0 <= i < |entries| ==> Before(reverse, entries[i].key, k)
  }

  lemma UpToScans(s: seq<Entry>, range: TreeRange, reverse: bool, limit: Option<nat>)
    requires Sorted(s)
    ensures Scanned(ToMap(s), range, reverse, limit, UpTo(InRange(Directed(s, reverse), range), limit))
  {
    hide Less, Sorted, ToMap, TreeRange.Contains, InRange, Directed;
    var m := ToMap(s);
    var all := InRange(Directed(s, reverse), range);
    var entries := UpTo(all, limit);
    DirectedRuns(s, reverse);
    InRangeRuns(Directed(s, reverse), range, reverse);
    forall e | e in entries ensures e.key in m && m[e.key] == e.value && range.Contains(e.key) {
      assert e in all;
      InMap(s, e);
    }
    forall k | k in m && range.Contains(k) ensures Entry(k, m[k]) in entries || Beyond(entries, reverse, limit, k) {
      InMap(s, Entry(k, m[k]));
      var i :| 0 <= i < |all| && all[i] == Entry(k, m[k]);
      assert i < |entries| ==> entries[i] == all[i];
    }
  }

  method ScanIn(tree: B.ImmutableBPlusTree, root: P.Root, range: TreeRange, reverse: bool, limit: Option<nat>) returns (entries: seq<Entry>)
    requires tree.Consistent() && Sound(tree.pages, root, tree.maxEntries)
    ensures Scanned(Mapped(tree.pages, root, tree.maxEntries), range, reverse, limit, entries)
  {
    hide P.WellFormed, P.Shaped, Sorted, P.Contents, ToMap, Scanned, UpTo, InRange, Directed;
    ListedSorted(tree.pages, root, tree.maxEntries);
    UpToScans(Listed(tree.pages, root, tree.maxEntries), range, reverse, limit);
    entries := tree.Scan(root, range, reverse, limit, Height(tree.pages, root, tree.maxEntries));
  }
}
