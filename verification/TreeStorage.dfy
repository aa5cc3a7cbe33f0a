// Mutations on the trees of a database (tree-storage-model.ts), commits that publish them
// (key-value-storage.ts, node-storage.ts) and scans by an index (tree-snapshot.ts).
module TreeStorage {
  import opened Codec
  import opened TableModel
  import opened TreeMaps
  import E = Entries
  import P = PageTrees
  import B = BPlusTree
  import TreeCommits
  import Lex

  datatype TableManifest = TableManifest(primary: P.Root, indexes: seq<P.Root>)

  type Manifest = map<string, TableManifest>

  // ---------- what a manifest stands for ----------

  function RowsIn(v: Values, m: map<Bytes, Bytes>): Primary {
    map b | b in m :: v.decodeRow(m[b])
  }

  function KeysIn(v: Values, m: map<Bytes, Bytes>): IndexTree {
    map b | b in m :: v.decodeKey(m[b])
  }

  ghost function RowsAt(v: Values, pages: P.Pages, root: P.Root, m: nat): Primary
    requires Sound(pages, root, m)
  {
    RowsIn(v, Mapped(pages, root, m))
  }

  ghost predicate GoodIndex(v: Values, pages: P.Pages, m: nat, index: Index, root: P.Root, primary: Primary) {
    Sound(pages, root, m) && Agrees(index, KeysIn(v, Mapped(pages, root, m)), primary)
  }

  ghost predicate AllDistinct(table: Table, primary: Primary) {
    forall i :: 0 <= i < |table.indexes| && table.indexes[i].unique ==> Distinct(table.indexes[i], primary)
  }

  // Rows lie under their keys, every index tree holds exactly their entries, unique ones without repetition.
  ghost predicate GoodTable(v: Values, pages: P.Pages, m: nat, table: Table, t: TableManifest) {
    && Sound(pages, t.primary, m) && |t.indexes| == |table.indexes|
    && Keyed(table, RowsAt(v, pages, t.primary, m))
    && AllDistinct(table, RowsAt(v, pages, t.primary, m))
    && forall i :: 0 <= i < |t.indexes| ==> GoodIndex(v, pages, m, table.indexes[i], t.indexes[i], RowsAt(v, pages, t.primary, m))
  }

  ghost predicate Good(v: Values, pages: P.Pages, m: nat, schema: Schema, manifest: Manifest) {
    forall name :: name in manifest && name in schema ==> GoodTable(v, pages, m, schema[name], manifest[name])
  }

  ghost function RowsOf(v: Values, pages: P.Pages, m: nat, schema: Schema, manifest: Manifest): Rows
    requires Good(v, pages, m, schema, manifest)
  {
    map name | name in manifest && name in schema :: RowsAt(v, pages, GoodPrimary(v, pages, m, schema, manifest, name), m)
  }

  ghost function GoodPrimary(v: Values, pages: P.Pages, m: nat, schema: Schema, manifest: Manifest, name: string): (root: P.Root)
    requires Good(v, pages, m, schema, manifest) && name in manifest && name in schema
    ensures Sound(pages, root, m) && root == manifest[name].primary
  {
    assert GoodTable(v, pages, m, schema[name], manifest[name]);
    manifest[name].primary
  }

  lemma TableStands(v: Values, a: P.Pages, b: P.Pages, m: nat, table: Table, t: TableManifest)
    requires P.Extends(a, b) && GoodTable(v, a, m, table, t)
    ensures GoodTable(v, b, m, table, t) && RowsAt(v, b, t.primary, m) == RowsAt(v, a, t.primary, m)
  {
    hide Sound, Mapped, P.Extends, Keyed, Agrees, AllDistinct;
    MapStands(a, b, t.primary, m);
    forall i | 0 <= i < |t.indexes| ensures GoodIndex(v, b, m, table.indexes[i], t.indexes[i], RowsAt(v, b, t.primary, m)) {
      assert GoodIndex(v, a, m, table.indexes[i], t.indexes[i], RowsAt(v, a, t.primary, m));
      MapStands(a, b, t.indexes[i], m);
    }
  }

  /** A published manifest means the same rows after any later writes. */
  lemma ManifestStands(v: Values, a: P.Pages, b: P.Pages, m: nat, schema: Schema, manifest: Manifest)
    requires P.Extends(a, b) && Good(v, a, m, schema, manifest)
    ensures Good(v, b, m, schema, manifest) && RowsOf(v, b, m, schema, manifest) == RowsOf(v, a, m, schema, manifest)
  {
    hide GoodTable, P.Extends;
    forall name | name in manifest && name in schema
      ensures GoodTable(v, b, m, schema[name], manifest[name])
      ensures Sound(a, manifest[name].primary, m) && Sound(b, manifest[name].primary, m)
      ensures RowsAt(v, b, manifest[name].primary, m) == RowsAt(v, a, manifest[name].primary, m)
    {
      var root := GoodPrimary(v, a, m, schema, manifest, name);
      TableStands(v, a, b, m, schema[name], manifest[name]);
    }
  }

  // ---------- which pages belong to whom ----------

  ghost predicate OwnedTable(before: P.Pages, t: TableManifest, newFrom: nat, after: P.Pages, t': TableManifest, m: nat) {
    && OwnedFrom(before, t.primary, newFrom, after, t'.primary, m)
    && |t'.indexes| == |t.indexes|
    && forall i :: 0 <= i < |t.indexes| ==> OwnedFrom(before, t.indexes[i], newFrom, after, t'.indexes[i], m)
  }

  lemma OwnedStays(a: P.Pages, b: P.Pages, root: P.Root, newFrom: nat, m: nat)
    requires P.Extends(a, b) && Sound(a, root, m)
    ensures OwnedFrom(a, root, newFrom, b, root, m)
  {
    hide P.WellFormed, P.Shaped, P.Reach, P.Flat, E.Sorted;
    var h := Height(a, root, m);
    P.OldRootsStand(a, b, root, h, m);
    ListedIs(b, root, h, m);
  }

  lemma OwnedThen(a: P.Pages, r0: P.Root, n0: nat, b: P.Pages, r1: P.Root, n1: nat, c: P.Pages, r2: P.Root, m: nat)
    requires OwnedFrom(a, r0, n0, b, r1, m) && OwnedFrom(b, r1, n1, c, r2, m) && n0 <= n1
    ensures OwnedFrom(a, r0, n0, c, r2, m)
  {
    hide P.SoundRoot, P.OwnedRoot, P.RootReach;
    TreeCommits.OwnedAgain(a, r0, Height(a, r0, m), n0, b, r1, Height(b, r1, m), n1, c, r2, Height(c, r2, m), m);
  }

  lemma OwnedLater(a: P.Pages, r0: P.Root, n0: nat, b: P.Pages, r1: P.Root, c: P.Pages, m: nat)
    requires OwnedFrom(a, r0, n0, b, r1, m) && P.Extends(b, c)
    ensures OwnedFrom(a, r0, n0, c, r1, m)
  {
    hide P.SoundRoot, P.OwnedRoot, P.RootReach, P.Extends;
    OwnedStays(b, c, r1, n0, m);
    OwnedThen(a, r0, n0, b, r1, n0, c, r1, m);
  }

  // ---------- decoded entries ----------

  lemma RowsChanged(v: Values, m: map<Bytes, Bytes>, b: Bytes, after: Option<Row>)
    requires Kept(v, after)
    ensures after.None? ==> RowsIn(v, m - {b}) == WithRow(RowsIn(v, m), b, after)
    ensures after.Some? ==> RowsIn(v, m[b := v.encodeRow(after.value).value]) == WithRow(RowsIn(v, m), b, after)
  {
  }

  lemma KeysChanged(v: Values, m: map<Bytes, Bytes>, x: Bytes, key: Key)
    ensures KeysIn(v, m - {x}) == KeysIn(v, m) - {x}
    ensures KeysIn(v, m[x := v.encodeKey(key)]) == KeysIn(v, m)[x := v.decodeKey(v.encodeKey(key))]
  {
  }

  lemma DecodedKey(v: Values, key: Key)
    requires Preserving(v) && EncodableKey(key)
    ensures var k := v.decodeKey(v.encodeKey(key)); EncodableKey(k) && KeyBytes(k) == KeyBytes(key)
  {
    hide KeyBytes, Encodable, SamePart;
    assert KeepsKey(v, key);
    EncodingInjective(key, v.decodeKey(v.encodeKey(key)));
  }

  function PrefixOf(p: Bytes): E.TreeRange {
    E.TreeRange(E.None, E.Some(p), E.Some(KeyPrefixUpperBound(p)), E.None)
  }

  // A scan for one entry of the prefix range finds one exactly if there is one.
  lemma FoundByPrefix(v: Values, m: map<Bytes, Bytes>, p: Key, entries: seq<E.Entry>)
    requires EncodableKey(p) && Scanned(m, PrefixOf(KeyBytes(p)), false, E.Some(1), entries)
    ensures entries != [] <==> exists x :: x in KeysIn(v, m) && InPrefixRange(x, p)
  {
    hide KeyBytes, Lex.Less, KeyPrefixUpperBound, EncodableKey;
    if entries != [] {
      assert entries[0] in entries;
      assert entries[0].key in KeysIn(v, m) && InPrefixRange(entries[0].key, p);
    }
    forall x | x in KeysIn(v, m) && InPrefixRange(x, p) ensures entries != [] {
      assert PrefixOf(KeyBytes(p)).Contains(x);
    }
  }

  /** One index tree follows one mutation, or the mutation is rejected for the reason the rows give. */
  method UpdateIndex(tree: B.ImmutableBPlusTree, v: Values, table: Table, index: Index, root: P.Root, ghost primary: Primary,
      key: Key, before: Option<Row>, after: Option<Row>)
    returns (r: Outcome<P.Root>)
    requires tree.Consistent() && Preserving(v) && EncodableKey(key) && Keyed(table, primary)
    requires GoodIndex(v, tree.pages, tree.maxEntries, index, root, primary)
    requires before == Lookup(primary, KeyBytes(key))
    requires after.Some? ==> KeyedRow(table, KeyBytes(key), after.value)
    modifies tree`pages, tree`nextId
    ensures tree.Consistent() && P.Extends(old(tree.pages), tree.pages) && tree.nextId >= old(tree.nextId)
    ensures r.Ok? ==> GoodIndex(v, tree.pages, tree.maxEntries, index, r.value, WithRow(primary, KeyBytes(key), after))
    ensures r.Ok? ==> OwnedFrom(old(tree.pages), root, old(tree.nextId), tree.pages, r.value, tree.maxEntries)
    ensures after.None? ==> r.Ok?
    ensures after.Some? ==> (r.Ok? <==> IndexError(index, primary, KeyBytes(key), after.value) == None)
    ensures after.Some? && r.Err? ==> IndexError(index, primary, KeyBytes(key), after.value) == Some(r.error)
  {
    hide Columns, PrimaryKey, KeyedRow, InPrefixRange, SameColumns, Agrees, Keyed, KeyBytes, EncodableKey, Lex.Less;
    hide Sound, Mapped, OwnedFrom, P.Extends, Scanned, Preserving;
    var b := KeyBytes(key);
    var current := root;
    ghost var was, from := tree.pages, tree.nextId;
    ghost var others := primary - {b};
    SoundStays(was, root, tree.maxEntries);
    if before.Some? {
      EntryRemoved(table, index, KeysIn(v, Mapped(was, root, tree.maxEntries)), primary, b);
      KeysChanged(v, Mapped(was, root, tree.maxEntries), IndexKey(index, before.value, b), key);
      current := MutateTree(tree, root, P.DeleteKey(IndexKey(index, before.value, b)));
    }
    ghost var middle, middleId := tree.pages, tree.nextId;
    assert before.None? ==> others == primary;
    assert GoodIndex(v, middle, tree.maxEntries, index, current, others);
    OthersKeyed(table, primary, b);
    if after.None? {
      return Ok(current);
    }
    var row := after.value;
    var prefix := Columns(index.columns, row);
    if !EncodableKey(prefix) {
      return Err(Unencodable);
    }
    ghost var entries := Mapped(middle, current, tree.maxEntries);
    UniqueScan(table, index, KeysIn(v, entries), others, b, row);
    TakenElsewhere(index, primary, b, row);
    if index.unique {
      var existing := ScanIn(tree, current, PrefixOf(KeyBytes(prefix)), false, E.Some(1));
      FoundByPrefix(v, entries, prefix, existing);
      if existing != [] {
        return Err(NotUnique(index.name));
      }
    }
    DecodedKey(v, key);
    EntryAdded(table, index, KeysIn(v, entries), others, b, row, v.decodeKey(v.encodeKey(key)));
    KeysChanged(v, entries, IndexKey(index, row, b), key);
    assert others[b := row] == primary[b := row];
    ghost var kept := current;
    current := MutateTree(tree, current, P.PutEntry(IndexKey(index, row, b), v.encodeKey(key)));
    OwnedThen(was, root, from, middle, kept, middleId, tree.pages, current, tree.maxEntries);
    ExtendsThen(was, middle, tree.pages);
    r := Ok(current);
  }

  lemma SoundStays(pages: P.Pages, root: P.Root, m: nat)
    requires Sound(pages, root, m)
    ensures P.Extends(pages, pages)
    ensures forall newFrom: nat :: OwnedFrom(pages, root, newFrom, pages, root, m)
  {
    forall newFrom: nat ensures OwnedFrom(pages, root, newFrom, pages, root, m) {
      OwnedStays(pages, pages, root, newFrom, m);
    }
  }

  lemma ExtendsThen(a: P.Pages, b: P.Pages, c: P.Pages)
    requires P.Extends(a, b) && P.Extends(b, c)
    ensures P.Extends(a, c)
  {
  }

  // ---------- manifests ----------

  // Every table's new trees consist of new pages and pages of its old trees.
  ghost predicate OwnedManifest(schema: Schema, before: P.Pages, was: Manifest, newFrom: nat, after: P.Pages, manifest: Manifest, m: nat) {
    && manifest.Keys == was.Keys
    && forall name :: name in was ==>
         if name in schema then OwnedTable(before, was[name], newFrom, after, manifest[name], m) else manifest[name] == was[name]
  }

  // The index trees after a mutation: the first k follow it, the others are as before.
  ghost predicate Followed(v: Values, pages: P.Pages, m: nat, table: Table, indexes: seq<P.Root>, k: nat, was: Primary, now: Primary) {
    && |indexes| == |table.indexes|
    && (forall i :: 0 <= i < k && i < |indexes| ==> GoodIndex(v, pages, m, table.indexes[i], indexes[i], now))
    && (forall i :: k <= i < |indexes| ==> GoodIndex(v, pages, m, table.indexes[i], indexes[i], was))
  }

  ghost predicate OwnedSeq(before: P.Pages, roots: seq<P.Root>, newFrom: nat, after: P.Pages, roots': seq<P.Root>, m: nat) {
    && |roots'| == |roots|
    && forall i :: 0 <= i < |roots| ==> OwnedFrom(before, roots[i], newFrom, after, roots'[i], m)
  }

  lemma IndexStands(v: Values, a: P.Pages, b: P.Pages, m: nat, index: Index, root: P.Root, primary: Primary)
    requires P.Extends(a, b) && GoodIndex(v, a, m, index, root, primary)
    ensures GoodIndex(v, b, m, index, root, primary)
  {
    hide Sound, Mapped, P.Extends, Agrees;
    MapStands(a, b, root, m);
  }

  lemma FollowedStep(v: Values, a: P.Pages, b: P.Pages, m: nat, table: Table, indexes: seq<P.Root>, k: nat, was: Primary, now: Primary, root: P.Root)
    requires P.Extends(a, b) && Followed(v, a, m, table, indexes, k, was, now) && k < |indexes|
    requires GoodIndex(v, b, m, table.indexes[k], root, now)
    ensures Followed(v, b, m, table, indexes[k := root], k + 1, was, now)
  {
    hide GoodIndex, P.Extends;
    forall i | 0 <= i < |indexes| && i != k ensures GoodIndex(v, b, m, table.indexes[i], indexes[i], if i < k then now else was) {
      IndexStands(v, a, b, m, table.indexes[i], indexes[i], if i < k then now else was);
    }
  }

  lemma OwnedSeqStep(before: P.Pages, roots: seq<P.Root>, newFrom: nat, a: P.Pages, middle: seq<P.Root>, aFrom: nat, b: P.Pages, k: nat, root: P.Root, m: nat)
    requires OwnedSeq(before, roots, newFrom, a, middle, m) && P.Extends(a, b) && k < |roots|
    requires OwnedFrom(a, middle[k], aFrom, b, root, m) && newFrom <= aFrom
    ensures OwnedSeq(before, roots, newFrom, b, middle[k := root], m)
  {
    hide OwnedFrom, P.Extends;
    forall i | 0 <= i < |roots| ensures OwnedFrom(before, roots[i], newFrom, b, middle[k := root][i], m) {
      if i == k {
        OwnedThen(before, roots[k], newFrom, a, middle[k], aFrom, b, root, m);
      } else {
        OwnedLater(before, roots[i], newFrom, a, middle[i], b, m);
      }
    }
  }

  lemma OwnedSeqSame(pages: P.Pages, roots: seq<P.Root>, newFrom: nat, m: nat)
    requires forall i :: 0 <= i < |roots| ==> Sound(pages, roots[i], m)
    ensures P.Extends(pages, pages) && OwnedSeq(pages, roots, newFrom, pages, roots, m)
  {
    hide OwnedFrom, Sound;
    forall i | 0 <= i < |roots| ensures OwnedFrom(pages, roots[i], newFrom, pages, roots[i], m) {
      SoundStays(pages, roots[i], m);
    }
  }

  lemma TableFollows(v: Values, a: P.Pages, b: P.Pages, m: nat, table: Table, indexes: seq<P.Root>, root: P.Root, was: Primary, now: Primary)
    requires P.Extends(a, b) && Followed(v, a, m, table, indexes, |indexes|, was, now)
    requires Sound(b, root, m) && RowsAt(v, b, root, m) == now && Keyed(table, now) && AllDistinct(table, now)
    ensures GoodTable(v, b, m, table, TableManifest(root, indexes))
  {
    hide GoodIndex, P.Extends, Sound, RowsAt;
    forall i | 0 <= i < |indexes| ensures GoodIndex(v, b, m, table.indexes[i], indexes[i], now) {
      IndexStands(v, a, b, m, table.indexes[i], indexes[i], now);
    }
  }

  lemma ManifestFollows(v: Values, a: P.Pages, b: P.Pages, m: nat, schema: Schema, was: Manifest, name: string, t: TableManifest)
    requires P.Extends(a, b) && Good(v, a, m, schema, was) && name in was && name in schema
    requires GoodTable(v, b, m, schema[name], t)
    ensures Good(v, b, m, schema, was[name := t])
    ensures RowsOf(v, b, m, schema, was[name := t]) == RowsOf(v, a, m, schema, was)[name := RowsAt(v, b, t.primary, m)]
  {
    hide P.Extends, GoodTable, Sound, RowsAt, Good, RowsOf;
    ManifestStands(v, a, b, m, schema, was);
    OneTable(v, b, m, schema, was, name, t);
  }

  lemma OneTable(v: Values, pages: P.Pages, m: nat, schema: Schema, was: Manifest, name: string, t: TableManifest)
    requires Good(v, pages, m, schema, was) && name in was && name in schema
    requires GoodTable(v, pages, m, schema[name], t)
    ensures Good(v, pages, m, schema, was[name := t])
    ensures Sound(pages, t.primary, m)
    ensures RowsOf(v, pages, m, schema, was[name := t]) == RowsOf(v, pages, m, schema, was)[name := RowsAt(v, pages, t.primary, m)]
  {
    hide Sound, RowsAt;
    assert Sound(pages, t.primary, m);
    hide GoodTable;
  }

  /** The trees of a database: the manifest of the latest commit, and the clone that mutations change in place. */
  class TreeDatabase {
    const tree: B.ImmutableBPlusTree
    const v: Values
    const schema: Schema
    var draft: Manifest
    var head: Manifest
    var version: nat

    constructor (maxEntries: nat, v: Values, schema: Schema)
      requires maxEntries >= 4 && Preserving(v)
      ensures this.v == v && this.schema == schema && version == 0 && Valid()
      ensures fresh(tree) && HeadRows() == map name | name in schema :: map[]
    {
      hide Preserving, GoodTable, RowsAt;
      tree := new B.ImmutableBPlusTree(maxEntries);
      this.v, this.schema, version := v, schema, 0;
      head := map name | name in schema :: EmptyManifest(schema[name]);
      draft := map[];
      new;
      forall name | name in schema
        ensures GoodTable(v, tree.pages, maxEntries, schema[name], EmptyManifest(schema[name]))
        ensures Sound(tree.pages, E.None, maxEntries) && RowsAt(v, tree.pages, E.None, maxEntries) == map[]
      {
        EmptyTable(v, tree.pages, maxEntries, schema[name]);
      }
    }

    ghost predicate Sane()
      reads this, tree
    {
      tree.Consistent() && Preserving(v)
    }

    ghost predicate Valid()
      reads this, tree
    {
      Sane() && Good(v, tree.pages, tree.maxEntries, schema, head)
    }

    ghost function DraftRows(): Rows
      reads this, tree
      requires Good(v, tree.pages, tree.maxEntries, schema, draft)
    {
      RowsOf(v, tree.pages, tree.maxEntries, schema, draft)
    }

    // The rows of the latest commit.
    ghost function HeadRows(): Rows
      reads this, tree
      requires Good(v, tree.pages, tree.maxEntries, schema, head)
    {
      RowsOf(v, tree.pages, tree.maxEntries, schema, head)
    }

    // Every index of one table, in place and in turn, up to the first that rejects.
    method UpdateIndexes(name: string, key: Key, before: Option<Row>, after: Option<Row>, ghost primary: Primary)
      returns (rejected: Option<Error>)
      requires Sane() && name in draft && name in schema && EncodableKey(key)
      requires GoodTable(v, tree.pages, tree.maxEntries, schema[name], draft[name])
      requires primary == RowsAt(v, tree.pages, draft[name].primary, tree.maxEntries) && before == Lookup(primary, KeyBytes(key))
      requires after.Some? ==> KeyedRow(schema[name], KeyBytes(key), after.value)
      modifies this`draft, tree`pages, tree`nextId
      ensures Sane() && P.Extends(old(tree.pages), tree.pages) && tree.nextId >= old(tree.nextId)
      ensures rejected == if after.Some? then FirstIndexError(schema[name].indexes, primary, KeyBytes(key), after.value) else None
      ensures rejected.None? ==>
        && draft.Keys == old(draft).Keys && draft == old(draft)[name := draft[name]] && draft[name].primary == old(draft)[name].primary
        && Followed(v, tree.pages, tree.maxEntries, schema[name], draft[name].indexes, |draft[name].indexes|,
             primary, WithRow(primary, KeyBytes(key), after))
        && OwnedSeq(old(tree.pages), old(draft)[name].indexes, old(tree.nextId), tree.pages, draft[name].indexes, tree.maxEntries)
    {
      hide Columns, PrimaryKey, KeyedRow, Keyed, KeyBytes, EncodableKey, IndexError, WithRow, Preserving;
      hide Sound, Mapped, OwnedFrom, P.Extends, GoodIndex, AllDistinct, B.ImmutableBPlusTree.Consistent, RowsAt;
      var table := schema[name];
      ghost var was := draft;
      ghost var pages, from := tree.pages, tree.nextId;
      ghost var now := WithRow(primary, KeyBytes(key), after);
      SoundIndexes(v, pages, tree.maxEntries, table, draft[name]);
      OwnedSeqSame(pages, draft[name].indexes, from, tree.maxEntries);
      for k := 0 to |table.indexes|
        invariant Sane() && P.Extends(pages, tree.pages) && tree.nextId >= from
        invariant name in draft && draft == was[name := draft[name]] && draft[name].primary == was[name].primary
        invariant Followed(v, tree.pages, tree.maxEntries, table, draft[name].indexes, k, primary, now)
        invariant OwnedSeq(pages, was[name].indexes, from, tree.pages, draft[name].indexes, tree.maxEntries)
        invariant after.Some? ==> SameErrors(table.indexes, k, primary, KeyBytes(key), after.value)
      {
        if after.Some? {
          FirstErrorStep(table.indexes, primary, KeyBytes(key), after.value, k);
        }
        ghost var middle, middleFrom, indexes := tree.pages, tree.nextId, draft[name].indexes;
        var updated := UpdateIndex(tree, v, table, table.indexes[k], draft[name].indexes[k], primary, key, before, after);
        if updated.Err? {
          ExtendsThen(pages, middle, tree.pages);
          return Some(updated.error);
        }
        draft := draft[name := TableManifest(draft[name].primary, draft[name].indexes[k := updated.value])];
        ExtendsThen(pages, middle, tree.pages);
        FollowedStep(v, middle, tree.pages, tree.maxEntries, table, indexes, k, primary, now, updated.value);
        OwnedSeqStep(pages, was[name].indexes, from, middle, indexes, middleFrom, tree.pages, k, updated.value, tree.maxEntries);
      }
      rejected := None;
    }

    // The row before and after a mutation of one table, or why there is none.
    method Plan(name: string, m: Mutation, ghost primary: Primary) returns (before: Option<Row>, r: Outcome<Option<Row>>)
      requires tree.Consistent() && name in draft && name in schema
      requires Sound(tree.pages, draft[name].primary, tree.maxEntries)
      requires primary == RowsAt(v, tree.pages, draft[name].primary, tree.maxEntries)
      ensures r == After(v, schema[name], primary, m)
      ensures EncodableKey(Target(schema[name], m)) ==> before == Lookup(primary, KeyBytes(Target(schema[name], m)))
    {
      hide PrimaryKey, KeyBytes, EncodableKey, Sound, Mapped, B.ImmutableBPlusTree.Consistent;
      before := None;
      var key := Target(schema[name], m);
      if !EncodableKey(key) {
        return before, Err(Unencodable);
      }
      var b := KeyBytes(key);
      var bytes := GetIn(tree, draft[name].primary, b);
      before := if bytes.Some? then Some(v.decodeRow(bytes.value)) else None;
      match m {
        case Insert(row) =>
          if before.Some? {
            return before, Err(DuplicateKey);
          }
          r := Stored(v, row);
        case Update(_, row) =>
          if before.None? {
            return before, Err(MissingRow);
          }
          var own := PrimaryKey(schema[name], row);
          if !EncodableKey(own) {
            return before, Err(Unencodable);
          }
          if KeyBytes(own) != b {
            return before, Err(KeyChanged);
          }
          r := Stored(v, row);
        case Delete(_) =>
          if before.None? {
            return before, Err(MissingRow);
          }
          r := Ok(None);
      }
    }

    // The primary tree follows the mutation.
    method UpdatePrimary(root: P.Root, b: Bytes, after: Option<Row>) returns (current: P.Root)
      requires Sane() && Sound(tree.pages, root, tree.maxEntries) && Kept(v, after)
      modifies tree`pages, tree`nextId
      ensures Sane() && P.Extends(old(tree.pages), tree.pages) && tree.nextId >= old(tree.nextId)
      ensures Sound(tree.pages, current, tree.maxEntries)
      ensures RowsAt(v, tree.pages, current, tree.maxEntries) == WithRow(old(RowsAt(v, tree.pages, root, tree.maxEntries)), b, after)
      ensures OwnedFrom(old(tree.pages), root, old(tree.nextId), tree.pages, current, tree.maxEntries)
    {
      hide Sound, Mapped, OwnedFrom, P.Extends, Preserving, B.ImmutableBPlusTree.Consistent;
      RowsChanged(v, Mapped(tree.pages, root, tree.maxEntries), b, after);
      current := MutateTree(tree, root, if after.None? then P.DeleteKey(b) else P.PutEntry(b, v.encodeRow(after.value).value));
    }

    method ApplyMutation(m: StorageMutation) returns (r: Outcome<StoredChange>)
      requires Sane() && Good(v, tree.pages, tree.maxEntries, schema, draft)
      modifies this`draft, tree`pages, tree`nextId
      ensures Sane() && P.Extends(old(tree.pages), tree.pages) && tree.nextId >= old(tree.nextId)
      ensures r.Ok? <==> SteppedIn(v, schema, old(DraftRows()), m).Ok?
      ensures r.Err? ==> SteppedIn(v, schema, old(DraftRows()), m) == Err(r.error)
      ensures r.Ok? ==> Good(v, tree.pages, tree.maxEntries, schema, draft)
      ensures r.Ok? ==> DraftRows() == SteppedIn(v, schema, old(DraftRows()), m).value && r.value == ChangeIn(v, schema, old(DraftRows()), m)
      ensures r.Ok? ==> OwnedManifest(schema, old(tree.pages), old(draft), old(tree.nextId), tree.pages, draft, tree.maxEntries)
    {
      hide Columns, PrimaryKey, KeyedRow, Keyed, KeyBytes, EncodableKey, FirstIndexError, WithRow, Preserving, After, Followed, OwnedSeq;
      hide Sound, RowsAt, OwnedFrom, P.Extends, GoodIndex, AllDistinct, B.ImmutableBPlusTree.Consistent, Good, RowsOf, GoodTable;
      var name := m.table;
      DraftFacts(v, tree.pages, tree.maxEntries, schema, draft, name);
      if name !in schema || name !in draft {
        return Err(UnknownTable);
      }
      var table := schema[name];
      ghost var was, pages, from, max := draft, tree.pages, tree.nextId, tree.maxEntries;
      ghost var primary := RowsAt(v, pages, draft[name].primary, max);
      var before, planned := Plan(name, m.mutation, primary);
      if planned.Err? {
        return Err(planned.error);
      }
      var after := planned.value;
      var key := Target(table, m.mutation);
      AfterKeyed(v, table, primary, m.mutation);
      var b := KeyBytes(key);
      ghost var now := WithRow(primary, b, after);
      var rejected := UpdateIndexes(name, key, before, after, primary);
      SteppedBy(v, schema, old(DraftRows()), m, after);
      if rejected.Some? {
        return Err(rejected.value);
      }
      DistinctFollows(table, primary, b, after);
      ghost var middle, middleFrom, indexes := tree.pages, tree.nextId, draft[name].indexes;
      RowsStand(v, pages, middle, draft[name].primary, max);
      var current := UpdatePrimary(draft[name].primary, b, after);
      draft := draft[name := TableManifest(current, draft[name].indexes)];
      assert draft == was[name := draft[name]];
      ExtendsThen(pages, middle, tree.pages);
      TableFollows(v, middle, tree.pages, max, table, indexes, current, primary, now);
      ManifestFollows(v, pages, tree.pages, max, schema, was, name, draft[name]);
      OwnedTableStep(pages, was[name], from, middle, indexes, middleFrom, tree.pages, current, max);
      OwnedOne(v, schema, pages, was, from, tree.pages, name, draft[name], max);
      r := Ok(StoredChange(name, Change(key, before, after)));
    }

    /** The whole list across tables, or its first error. */
    method ApplyMutations(ms: seq<StorageMutation>) returns (r: Outcome<seq<StoredChange>>)
      requires Sane() && Good(v, tree.pages, tree.maxEntries, schema, draft)
      modifies this`draft, tree`pages, tree`nextId
      ensures Sane() && P.Extends(old(tree.pages), tree.pages) && tree.nextId >= old(tree.nextId)
      ensures r.Ok? <==> SteppedAll(v, schema, old(DraftRows()), ms).Ok?
      ensures r.Err? ==> SteppedAll(v, schema, old(DraftRows()), ms) == Err(r.error)
      ensures r.Ok? ==> Good(v, tree.pages, tree.maxEntries, schema, draft)
      ensures r.Ok? ==> DraftRows() == SteppedAll(v, schema, old(DraftRows()), ms).value && Reports(v, schema, old(DraftRows()), ms, r.value)
      ensures r.Ok? ==> DraftRows() == Replayed(old(DraftRows()), r.value)
      ensures r.Ok? ==> OwnedManifest(schema, old(tree.pages), old(draft), old(tree.nextId), tree.pages, draft, tree.maxEntries)
    {
      hide Preserving, P.Extends, B.ImmutableBPlusTree.Consistent, Good, RowsOf, SteppedIn, ChangeIn, OwnedManifest, Reports, Replayed;
      ghost var rows, pages, from, was := DraftRows(), tree.pages, tree.nextId, draft;
      var changes: seq<StoredChange> := [];
      NothingReports(v, schema, rows);
      OwnedManifestStays(v, schema, pages, was, from, tree.maxEntries);
      for k := 0 to |ms|
        invariant Sane() && P.Extends(pages, tree.pages) && tree.nextId >= from
        invariant Good(v, tree.pages, tree.maxEntries, schema, draft) && SteppedAll(v, schema, rows, ms[..k]) == Ok(DraftRows())
        invariant Reports(v, schema, rows, ms[..k], changes)
        invariant OwnedManifest(schema, pages, was, from, tree.pages, draft, tree.maxEntries)
      {
        assert ms[..k + 1][..k] == ms[..k];
        ghost var middle, middleFrom, before := tree.pages, tree.nextId, draft;
        var change := ApplyMutation(ms[k]);
        ExtendsThen(pages, middle, tree.pages);
        if change.Err? {
          StaysFailed(v, schema, rows, ms, k + 1);
          return Err(change.error);
        }
        OwnedManifestThen(schema, pages, was, from, middle, before, middleFrom, tree.pages, draft, tree.maxEntries);
        ReportsMore(v, schema, rows, ms[..k], changes, ms[k]);
        assert ms[..k] + [ms[k]] == ms[..k + 1];
        changes := changes + [change.value];
      }
      assert ms[..|ms|] == ms;
      ChangesReplay(v, schema, rows, ms, changes);
      r := Ok(changes);
    }

    /** A commit on the expected head publishes the rows after the whole list, or publishes nothing. */
    method Commit(expected: nat, ms: seq<StorageMutation>) returns (r: Outcome<seq<StoredChange>>)
      requires Valid()
      modifies this`draft, this`head, this`version, tree`pages, tree`nextId
      ensures Valid() && P.Extends(old(tree.pages), tree.pages)
      ensures r.Err? ==> head == old(head) && version == old(version) && HeadRows() == old(HeadRows())
      ensures expected != old(version) ==> r == Err(Conflict)
      ensures expected == old(version) ==> (r.Ok? <==> SteppedAll(v, schema, old(HeadRows()), ms).Ok?)
      ensures expected == old(version) && r.Err? ==> SteppedAll(v, schema, old(HeadRows()), ms) == Err(r.error)
      ensures r.Ok? ==> version == expected + 1 && HeadRows() == SteppedAll(v, schema, old(HeadRows()), ms).value
      ensures r.Ok? ==> Reports(v, schema, old(HeadRows()), ms, r.value) && HeadRows() == Replayed(old(HeadRows()), r.value)
      ensures r.Ok? ==> OwnedManifest(schema, old(tree.pages), old(head), old(tree.nextId), tree.pages, head, tree.maxEntries)
    {
      hide Preserving, P.Extends, B.ImmutableBPlusTree.Consistent, Good, RowsOf, SteppedAll, Reports, Replayed, OwnedManifest;
      ghost var pages := tree.pages;
      if expected != version {
        OwnedManifestStays(v, schema, pages, head, tree.nextId, tree.maxEntries);
        return Err(Conflict);
      }
      draft := head;
      var changes := ApplyMutations(ms);
      ManifestStands(v, pages, tree.pages, tree.maxEntries, schema, head);
      if changes.Err? {
        return Err(changes.error);
      }
      head, version := draft, version + 1;
      r := changes;
    }

    // A snapshot of the latest commit.
    method Get(name: string, key: Key) returns (r: Outcome<Option<Row>>)
      requires Valid() && name in schema
      ensures r == if name !in HeadRows() then Err(UnknownTable)
                   else if !EncodableKey(key) then Err(Unencodable)
                   else Ok(Lookup(HeadRows()[name], KeyBytes(key)))
    {
      hide Sound, Mapped, GoodTable, KeyBytes, EncodableKey, Preserving, B.ImmutableBPlusTree.Consistent, Good;
      DraftFacts(v, tree.pages, tree.maxEntries, schema, head, name);
      if name !in head {
        return Err(UnknownTable);
      }
      if !EncodableKey(key) {
        return Err(Unencodable);
      }
      var bytes := GetIn(tree, head[name].primary, KeyBytes(key));
      r := Ok(if bytes.Some? then Some(v.decodeRow(bytes.value)) else None);
    }

    /** The rows of a table with keys in a range, in key order or against it, the first ones if there is a limit. */
    method ScanTable(name: string, range: KeyRange, reverse: bool, limit: E.Option<nat>) returns (rows: seq<Row>, ghost ids: seq<Bytes>)
      requires Valid() && name in schema && name in head && range.Encodable()
      ensures name in HeadRows() && Ranged(schema[name], HeadRows()[name], range, reverse, limit, rows, ids)
    {
      hide Sound, Mapped, GoodTable, KeyBytes, EncodableKey, Preserving, B.ImmutableBPlusTree.Consistent, Good, Scanned, Keyed, Ranged, EncodedRange, KeyRange.Encodable;
      DraftFacts(v, tree.pages, tree.maxEntries, schema, head, name);
      ghost var m := Mapped(tree.pages, head[name].primary, tree.maxEntries);
      var entries := ScanIn(tree, head[name].primary, EncodedRange(range, false), reverse, limit);
      rows, ids := [], [];
      for i := 0 to |entries|
        invariant |rows| == |ids| == i
        invariant forall j :: 0 <= j < i ==> ids[j] == entries[j].key && rows[j] == v.decodeRow(entries[j].value)
      {
        rows := rows + [v.decodeRow(entries[i].value)];
        ids := ids + [entries[i].key];
      }
      RangeSelects(v, schema[name], m, range, reverse, limit, entries, rows, ids);
    }

    /** The rows whose indexed columns begin with the key, in index order or against it, the first ones if there is a limit. */
    method ScanIndex(name: string, k: nat, p: Key, reverse: bool, limit: E.Option<nat>) returns (rows: seq<Row>, ghost ids: seq<Bytes>)
      requires Valid() && name in schema && name in head && k < |schema[name].indexes| && EncodableKey(p)
      ensures name in HeadRows() && Selected(schema[name], schema[name].indexes[k], HeadRows()[name], p, reverse, limit, rows, ids)
    {
      hide Sound, Mapped, GoodTable, KeyBytes, EncodableKey, Preserving, B.ImmutableBPlusTree.Consistent, Good, Scanned, Agrees, Keyed, Lex.Less;
      DraftFacts(v, tree.pages, tree.maxEntries, schema, head, name);
      ghost var table, index, primary := schema[name], schema[name].indexes[k], HeadRows()[name];
      IndexFacts(v, tree.pages, tree.maxEntries, table, head[name], k);
      var entries := ScanIn(tree, head[name].indexes[k], PrefixOf(KeyBytes(p)), reverse, limit);
      ghost var m := Mapped(tree.pages, head[name].indexes[k], tree.maxEntries);
      rows, ids := [], [];
      for i := 0 to |entries|
        invariant |rows| == |ids| == i
        invariant forall j :: 0 <= j < i ==> EntryMeans(v, primary, entries[j], rows[j], ids[j])
      {
        ScannedEntry(v, table, index, m, primary, p, reverse, limit, entries, i);
        var key := v.decodeKey(entries[i].value);
        var value := GetIn(tree, head[name].primary, KeyBytes(key));
        if value.Some? {
          rows := rows + [v.decodeRow(value.value)];
          ids := ids + [KeyBytes(key)];
        }
      }
      ScanSelects(v, table, index, m, primary, p, reverse, limit, entries, rows, ids);
    }
  }

  lemma OwnedTableStays(v: Values, a: P.Pages, b: P.Pages, table: Table, t: TableManifest, newFrom: nat, m: nat)
    requires GoodTable(v, a, m, table, t) && P.Extends(a, b)
    ensures OwnedTable(a, t, newFrom, b, t, m)
  {
    hide OwnedFrom, P.Extends, Sound, Mapped, Agrees, AllDistinct, Keyed;
    OwnedStays(a, b, t.primary, newFrom, m);
    forall i | 0 <= i < |t.indexes| ensures OwnedFrom(a, t.indexes[i], newFrom, b, t.indexes[i], m) {
      assert GoodIndex(v, a, m, table.indexes[i], t.indexes[i], RowsAt(v, a, t.primary, m));
      OwnedStays(a, b, t.indexes[i], newFrom, m);
    }
  }

  lemma OwnedOne(v: Values, schema: Schema, a: P.Pages, was: Manifest, newFrom: nat, b: P.Pages, name: string, t: TableManifest, m: nat)
    requires Good(v, a, m, schema, was) && P.Extends(a, b) && name in was && name in schema && OwnedTable(a, was[name], newFrom, b, t, m)
    ensures OwnedManifest(schema, a, was, newFrom, b, was[name := t], m)
  {
    hide GoodTable, OwnedTable, P.Extends;
    forall other | other in was && other in schema ensures OwnedTable(a, was[other], newFrom, b, was[name := t][other], m) {
      if other != name {
        OwnedTableStays(v, a, b, schema[other], was[other], newFrom, m);
      }
    }
  }

  lemma OwnedTableThen(a: P.Pages, t0: TableManifest, n0: nat, b: P.Pages, t1: TableManifest, n1: nat, c: P.Pages, t2: TableManifest, m: nat)
    requires OwnedTable(a, t0, n0, b, t1, m) && OwnedTable(b, t1, n1, c, t2, m) && n0 <= n1
    ensures OwnedTable(a, t0, n0, c, t2, m)
  {
    hide OwnedFrom;
    OwnedThen(a, t0.primary, n0, b, t1.primary, n1, c, t2.primary, m);
    forall i | 0 <= i < |t0.indexes| ensures OwnedFrom(a, t0.indexes[i], n0, c, t2.indexes[i], m) {
      OwnedThen(a, t0.indexes[i], n0, b, t1.indexes[i], n1, c, t2.indexes[i], m);
    }
  }

  lemma OwnedManifestThen(schema: Schema, a: P.Pages, d0: Manifest, n0: nat, b: P.Pages, d1: Manifest, n1: nat, c: P.Pages, d2: Manifest, m: nat)
    requires OwnedManifest(schema, a, d0, n0, b, d1, m) && OwnedManifest(schema, b, d1, n1, c, d2, m) && n0 <= n1
    ensures OwnedManifest(schema, a, d0, n0, c, d2, m)
  {
    hide OwnedTable;
    forall name | name in d0 && name in schema ensures OwnedTable(a, d0[name], n0, c, d2[name], m) {
      OwnedTableThen(a, d0[name], n0, b, d1[name], n1, c, d2[name], m);
    }
  }

  lemma OwnedManifestStays(v: Values, schema: Schema, a: P.Pages, was: Manifest, newFrom: nat, m: nat)
    requires Good(v, a, m, schema, was)
    ensures P.Extends(a, a) && OwnedManifest(schema, a, was, newFrom, a, was, m)
  {
    hide GoodTable, OwnedTable;
    forall name | name in was && name in schema ensures OwnedTable(a, was[name], newFrom, a, was[name], m) {
      OwnedTableStays(v, a, a, schema[name], was[name], newFrom, m);
    }
  }

  lemma RowsStand(v: Values, a: P.Pages, b: P.Pages, root: P.Root, m: nat)
    requires P.Extends(a, b) && Sound(a, root, m)
    ensures Sound(b, root, m) && RowsAt(v, b, root, m) == RowsAt(v, a, root, m)
  {
    hide P.Extends, Sound, Mapped;
    MapStands(a, b, root, m);
  }

  lemma DistinctFollows(table: Table, primary: Primary, b: Bytes, after: Option<Row>)
    requires AllDistinct(table, primary) && (after.Some? ==> FirstIndexError(table.indexes, primary, b, after.value) == None)
    ensures AllDistinct(table, WithRow(primary, b, after))
  {
    hide Distinct, FirstIndexError, WithRow;
    StillDistinct(table, primary, b, after);
  }

  lemma OwnedTableStep(a: P.Pages, t: TableManifest, newFrom: nat, b: P.Pages, indexes: seq<P.Root>, bFrom: nat, c: P.Pages, root: P.Root, m: nat)
    requires Sound(a, t.primary, m) && OwnedSeq(a, t.indexes, newFrom, b, indexes, m) && P.Extends(a, b) && P.Extends(b, c)
    requires OwnedFrom(b, t.primary, bFrom, c, root, m) && newFrom <= bFrom
    ensures OwnedTable(a, t, newFrom, c, TableManifest(root, indexes), m)
  {
    hide Sound, OwnedFrom, P.Extends;
    OwnedStays(a, b, t.primary, newFrom, m);
    OwnedThen(a, t.primary, newFrom, b, t.primary, bFrom, c, root, m);
    forall i | 0 <= i < |indexes| ensures OwnedFrom(a, t.indexes[i], newFrom, c, indexes[i], m) {
      OwnedLater(a, t.indexes[i], newFrom, b, indexes[i], c, m);
    }
  }

  lemma SteppedBy(v: Values, schema: Schema, rows: Rows, m: StorageMutation, after: Option<Row>)
    requires m.table in schema && m.table in rows && EncodableKey(Target(schema[m.table], m.mutation))
    requires After(v, schema[m.table], rows[m.table], m.mutation) == Ok(after)
    ensures var table, primary, b := schema[m.table], rows[m.table], KeyBytes(Target(schema[m.table], m.mutation));
      && (after.Some? && FirstIndexError(table.indexes, primary, b, after.value).Some? ==>
            SteppedIn(v, schema, rows, m) == Err(FirstIndexError(table.indexes, primary, b, after.value).value))
      && (after.None? || FirstIndexError(table.indexes, primary, b, after.value).None? ==>
            && SteppedIn(v, schema, rows, m) == Ok(rows[m.table := WithRow(primary, b, after)])
            && ChangeIn(v, schema, rows, m)
               == StoredChange(m.table, Change(Target(table, m.mutation), Lookup(primary, b), after)))
  {
    hide FirstIndexError, KeyBytes, EncodableKey, After, Target;
  }

  lemma DraftFacts(v: Values, pages: P.Pages, m: nat, schema: Schema, manifest: Manifest, name: string)
    requires Good(v, pages, m, schema, manifest)
    ensures P.Extends(pages, pages)
    ensures name in schema && name in manifest <==> name in schema && name in RowsOf(v, pages, m, schema, manifest)
    ensures name in schema && name in manifest ==>
      && GoodTable(v, pages, m, schema[name], manifest[name])
      && Sound(pages, manifest[name].primary, m)
      && RowsOf(v, pages, m, schema, manifest)[name] == RowsAt(v, pages, manifest[name].primary, m)
      && Keyed(schema[name], RowsAt(v, pages, manifest[name].primary, m))
      && AllDistinct(schema[name], RowsAt(v, pages, manifest[name].primary, m))
  {
    hide Sound, RowsAt, Keyed, AllDistinct, GoodIndex;
  }

  lemma ChangesReplay(v: Values, schema: Schema, rows: Rows, ms: seq<StorageMutation>, changes: seq<StoredChange>)
    requires Reports(v, schema, rows, ms, changes)
    ensures SteppedAll(v, schema, rows, ms) == Ok(Replayed(rows, changes))
  {
    hide SteppedAll, Replayed;
    assert |changes| == |ms|;
    ReplayedChanges(v, schema, rows, ms, changes, |ms|);
    assert ms[..|ms|] == ms && changes[..|ms|] == changes;
  }

  lemma OwnOrdered(table: Table, primary: Primary, reverse: bool, a: Bytes, b: Bytes)
    requires Keyed(table, primary) && a in primary && b in primary && Before(reverse, a, b)
    ensures a != b && KeyBefore(reverse, PrimaryKey(table, primary[a]), PrimaryKey(table, primary[b]))
  {
    hide KeyBytes, EncodableKey, PrimaryKey, KeyLess, Before;
    assert KeyedRow(table, a, primary[a]) && KeyedRow(table, b, primary[b]);
    KeysFollow(reverse, PrimaryKey(table, primary[a]), PrimaryKey(table, primary[b]));
  }

  function EmptyManifest(table: Table): TableManifest {
    TableManifest(E.None, seq(|table.indexes|, i => E.None))
  }

  lemma EmptyTable(v: Values, pages: P.Pages, m: nat, table: Table)
    ensures GoodTable(v, pages, m, table, EmptyManifest(table))
    ensures Sound(pages, E.None, m) && RowsAt(v, pages, E.None, m) == map[]
  {
    hide Sound, Mapped;
    EmptyRoot(pages, m);
  }

  ghost predicate SameErrors(indexes: seq<Index>, k: nat, primary: Primary, b: Bytes, row: Row)
    requires k <= |indexes|
  {
    FirstIndexError(indexes, primary, b, row) == FirstIndexError(indexes[k..], primary, b, row)
  }

  lemma SoundIndexes(v: Values, pages: P.Pages, m: nat, table: Table, t: TableManifest)
    requires GoodTable(v, pages, m, table, t)
    ensures Followed(v, pages, m, table, t.indexes, 0, RowsAt(v, pages, t.primary, m), RowsAt(v, pages, t.primary, m))
    ensures forall now :: Followed(v, pages, m, table, t.indexes, 0, RowsAt(v, pages, t.primary, m), now)
    ensures Keyed(table, RowsAt(v, pages, t.primary, m)) && AllDistinct(table, RowsAt(v, pages, t.primary, m))
    ensures Sound(pages, t.primary, m) && forall i :: 0 <= i < |t.indexes| ==> Sound(pages, t.indexes[i], m)
  {
    hide Sound, Mapped, Agrees, Keyed, AllDistinct;
  }

  // ---------- scanning by an index ----------

  // What an index sorts by.
  function FullKey(table: Table, index: Index, row: Row): Key {
    Columns(index.columns, row) + PrimaryKey(table, row)
  }

  predicate KeyBefore(reverse: bool, a: Key, b: Key) {
    if reverse then KeyLess(b, a) else KeyLess(a, b)
  }

  predicate Matches(table: Table, index: Index, p: Key, row: Row) {
    BeginsKey(p, FullKey(table, index, row))
  }

  // The limit was reached before the row.
  predicate CutBefore(table: Table, index: Index, reverse: bool, limit: E.Option<nat>, rows: seq<Row>, row: Row) {
    && limit == E.Some(|rows|)
    && forall i :: 0 <= i < |rows| ==> KeyBefore(reverse, FullKey(table, index, rows[i]), FullKey(table, index, row))
  }

  // Exactly the matching rows of the table in order, up to the limit.
  ghost predicate Selected(table: Table, index: Index, primary: Primary, p: Key, reverse: bool, limit: E.Option<nat>, rows: seq<Row>, ids: seq<Bytes>) {
    && |rows| == |ids| && (limit.Some? ==> |rows| <= limit.value)
    && (forall i :: 0 <= i < |ids| ==> ids[i] in primary && rows[i] == primary[ids[i]] && Matches(table, index, p, rows[i]))
    && (forall i, j :: 0 <= i < j < |ids| ==> ids[i] != ids[j] && KeyBefore(reverse, FullKey(table, index, rows[i]), FullKey(table, index, rows[j])))
    && (forall b :: b in primary && Matches(table, index, p, primary[b]) ==> b in ids || CutBefore(table, index, reverse, limit, rows, primary[b]))
  }

  ghost predicate EntryMeans(v: Values, primary: Primary, e: E.Entry, row: Row, id: Bytes) {
    EncodableKey(v.decodeKey(e.value)) && id == KeyBytes(v.decodeKey(e.value)) && id in primary && row == primary[id]
  }

  lemma IndexFacts(v: Values, pages: P.Pages, m: nat, table: Table, t: TableManifest, k: nat)
    requires GoodTable(v, pages, m, table, t) && k < |table.indexes|
    ensures k < |t.indexes| && Sound(pages, t.primary, m)
    ensures GoodIndex(v, pages, m, table.indexes[k], t.indexes[k], RowsAt(v, pages, t.primary, m))
  {
    hide Sound, Mapped, Agrees, Keyed, AllDistinct;
    assert GoodIndex(v, pages, m, table.indexes[k], t.indexes[k], RowsAt(v, pages, t.primary, m));
  }

  // The row of an entry, and the entry's place in key order.
  lemma EntryRow(table: Table, index: Index, tree: IndexTree, primary: Primary, p: Key, x: Bytes)
    requires Keyed(table, primary) && Agrees(index, tree, primary) && x in tree && EncodableKey(p)
    ensures EncodableKey(tree[x]) && KeyBytes(tree[x]) in primary
    ensures var row := primary[KeyBytes(tree[x])];
      && EncodableKey(FullKey(table, index, row)) && KeyBytes(FullKey(table, index, row)) == x
      && (InPrefixRange(x, p) <==> Matches(table, index, p, row))
  {
    hide BeginsKey, Encodable, InPrefixRange;
    assert Owned(index, tree, primary, x);
    var b := KeyBytes(tree[x]);
    var row := primary[b];
    assert KeyedRow(table, b, row);
    EntryMatches(table, index, row, b, p);
    KeyBytesAppend(Columns(index.columns, row), PrimaryKey(table, row));
  }

  /** An index entry lies in the range of a prefix exactly if its row's indexed columns and key begin with it. */
  lemma EntryMatches(table: Table, index: Index, r: Row, b: Bytes, p: Key)
    requires KeyedRow(table, b, r) && EncodableKey(Columns(index.columns, r)) && EncodableKey(p)
    ensures InPrefixRange(IndexKey(index, r, b), p) <==> Matches(table, index, p, r)
  {
    hide KeyBytes, Encodable, BeginsKey;
    var x, k := Columns(index.columns, r), PrimaryKey(table, r);
    KeyBytesAppend(x, k);
    PrefixRange(p, x + k);
  }

  lemma EntryOf(table: Table, index: Index, tree: IndexTree, primary: Primary, p: Key, b: Bytes)
    requires Keyed(table, primary) && Agrees(index, tree, primary) && b in primary && EncodableKey(p)
    requires Matches(table, index, p, primary[b])
    ensures exists x :: x in tree && InPrefixRange(x, p) && EncodableKey(tree[x]) && KeyBytes(tree[x]) == b
  {
    hide BeginsKey, Encodable, InPrefixRange;
    assert Indexed(index, tree, b, primary[b]);
    assert KeyedRow(table, b, primary[b]);
    EntryMatches(table, index, primary[b], b, p);
    assert IndexKey(index, primary[b], b) in tree;
  }

  lemma ScannedEntry(v: Values, table: Table, index: Index, m: map<Bytes, Bytes>, primary: Primary, p: Key, reverse: bool, limit: E.Option<nat>,
      entries: seq<E.Entry>, i: nat)
    requires Keyed(table, primary) && Agrees(index, KeysIn(v, m), primary) && EncodableKey(p) && i < |entries|
    requires Scanned(m, PrefixOf(KeyBytes(p)), reverse, limit, entries)
    ensures entries[i].key in m && m[entries[i].key] == entries[i].value && InPrefixRange(entries[i].key, p)
    ensures EncodableKey(v.decodeKey(entries[i].value)) && KeyBytes(v.decodeKey(entries[i].value)) in primary
    ensures var row := primary[KeyBytes(v.decodeKey(entries[i].value))];
      && EncodableKey(FullKey(table, index, row)) && KeyBytes(FullKey(table, index, row)) == entries[i].key && Matches(table, index, p, row)
  {
    hide KeyBytes, Lex.Less, KeyPrefixUpperBound, EncodableKey, Keyed, Agrees, Matches, FullKey, Runs, Beyond;
    assert entries[i] in entries;
    EntryRow(table, index, KeysIn(v, m), primary, p, entries[i].key);
  }

  lemma ScanSelects(v: Values, table: Table, index: Index, m: map<Bytes, Bytes>, primary: Primary, p: Key, reverse: bool, limit: E.Option<nat>,
      entries: seq<E.Entry>, rows: seq<Row>, ids: seq<Bytes>)
    requires Keyed(table, primary) && Agrees(index, KeysIn(v, m), primary) && EncodableKey(p)
    requires Scanned(m, PrefixOf(KeyBytes(p)), reverse, limit, entries) && |rows| == |ids| == |entries|
    requires forall j :: 0 <= j < |entries| ==> EntryMeans(v, primary, entries[j], rows[j], ids[j])
    ensures Selected(table, index, primary, p, reverse, limit, rows, ids)
  {
    hide KeyBytes, Lex.Less, KeyPrefixUpperBound, EncodableKey, Keyed, Agrees, Matches, FullKey, InPrefixRange, KeyBefore, Scanned;
    ScannedShape(m, PrefixOf(KeyBytes(p)), reverse, limit, entries);
    forall i | 0 <= i < |ids| ensures Matches(table, index, p, rows[i]) {
      ScannedEntry(v, table, index, m, primary, p, reverse, limit, entries, i);
    }
    forall i, j | 0 <= i < j < |ids|
      ensures ids[i] != ids[j] && KeyBefore(reverse, FullKey(table, index, rows[i]), FullKey(table, index, rows[j]))
    {
      ScannedEntry(v, table, index, m, primary, p, reverse, limit, entries, i);
      ScannedEntry(v, table, index, m, primary, p, reverse, limit, entries, j);
      KeysFollow(reverse, FullKey(table, index, rows[i]), FullKey(table, index, rows[j]));
    }
    forall b | b in primary && Matches(table, index, p, primary[b]) ensures b in ids || CutBefore(table, index, reverse, limit, rows, primary[b]) {
      EntryOf(table, index, KeysIn(v, m), primary, p, b);
      var x :| x in KeysIn(v, m) && InPrefixRange(x, p) && EncodableKey(KeysIn(v, m)[x]) && KeyBytes(KeysIn(v, m)[x]) == b;
      RowReached(v, table, index, m, primary, p, reverse, limit, entries, rows, ids, x, b);
    }
  }

  lemma ScannedShape(m: map<Bytes, Bytes>, range: E.TreeRange, reverse: bool, limit: E.Option<nat>, entries: seq<E.Entry>)
    requires Scanned(m, range, reverse, limit, entries)
    ensures limit.Some? ==> |entries| <= limit.value
    ensures forall i, j :: 0 <= i < j < |entries| ==> Before(reverse, entries[i].key, entries[j].key)
  {
  }

  lemma KeysFollow(reverse: bool, a: Key, b: Key)
    requires EncodableKey(a) && EncodableKey(b) && Before(reverse, KeyBytes(a), KeyBytes(b))
    ensures KeyBytes(a) != KeyBytes(b) && KeyBefore(reverse, a, b)
  {
    hide KeyBytes, EncodableKey, KeyLess;
    OrderPreserved(a, b);
    OrderPreserved(b, a);
    Lex.StrictTotalOrder();
  }

  // A matching row was returned, or all that was returned comes before it.
  lemma RowReached(v: Values, table: Table, index: Index, m: map<Bytes, Bytes>, primary: Primary, p: Key, reverse: bool, limit: E.Option<nat>,
      entries: seq<E.Entry>, rows: seq<Row>, ids: seq<Bytes>, x: Bytes, b: Bytes)
    requires Keyed(table, primary) && Agrees(index, KeysIn(v, m), primary) && EncodableKey(p)
    requires Scanned(m, PrefixOf(KeyBytes(p)), reverse, limit, entries) && |rows| == |ids| == |entries|
    requires forall j :: 0 <= j < |entries| ==> EntryMeans(v, primary, entries[j], rows[j], ids[j])
    requires x in m && InPrefixRange(x, p) && EncodableKey(v.decodeKey(m[x])) && KeyBytes(v.decodeKey(m[x])) == b && b in primary
    ensures b in ids || CutBefore(table, index, reverse, limit, rows, primary[b])
  {
    hide KeyBytes, Lex.Less, KeyPrefixUpperBound, EncodableKey, Keyed, Agrees, Matches, FullKey, KeyBefore, Runs, Before;
    assert PrefixOf(KeyBytes(p)).Contains(x);
    if j :| 0 <= j < |entries| && entries[j] == E.Entry(x, m[x]) {
      assert ids[j] == b;
    } else {
      EntryRow(table, index, KeysIn(v, m), primary, p, x);
      forall i | 0 <= i < |rows| ensures KeyBefore(reverse, FullKey(table, index, rows[i]), FullKey(table, index, primary[b])) {
        ScannedEntry(v, table, index, m, primary, p, reverse, limit, entries, i);
        KeysFollow(reverse, FullKey(table, index, rows[i]), FullKey(table, index, primary[b]));
      }
    }
  }

  // ---------- ranges ----------

  // Bounds on keys, or on the first parts of longer keys.
  datatype KeyRange = KeyRange(gt: Option<Key>, gte: Option<Key>, lt: Option<Key>, lte: Option<Key>) {
    predicate Encodable() {
      && (gt.Some? ==> EncodableKey(gt.value)) && (gte.Some? ==> EncodableKey(gte.value))
      && (lt.Some? ==> EncodableKey(lt.value)) && (lte.Some? ==> EncodableKey(lte.value))
    }
  }

  function Bound(key: Option<Key>, above: bool): E.Option<Bytes>
    requires key.Some? ==> EncodableKey(key.value)
  {
    match key
    case None => E.None
    case Some(k) => E.Some(if above then KeyPrefixUpperBound(KeyBytes(k)) else KeyBytes(k))
  }

  function Or(a: E.Option<Bytes>, b: E.Option<Bytes>): E.Option<Bytes> {
    if a.Some? then a else b
  }

  // With prefix values, keys that begin with an excluded lower bound are out and those that begin with an included upper
  // bound are in; a later bound of the same kind replaces an earlier one.
  function EncodedRange(range: KeyRange, prefixValues: bool): E.TreeRange
    requires range.Encodable()
  {
    if prefixValues then
      E.TreeRange(E.None, Or(Bound(range.gte, false), Bound(range.gt, true)), Or(Bound(range.lte, true), Bound(range.lt, false)), E.None)
    else
      E.TreeRange(Bound(range.gt, false), Bound(range.gte, false), Bound(range.lt, false), Bound(range.lte, false))
  }

  lemma BelowUpper(k: Key, p: Key)
    requires EncodableKey(k) && EncodableKey(p)
    ensures Lex.Less(KeyBytes(k), KeyPrefixUpperBound(KeyBytes(p))) <==> KeyLess(k, p) || BeginsKey(p, k)
  {
    hide KeyBytes, EncodableKey, KeyLess, BeginsKey, Lex.Less, KeyPrefixUpperBound;
    PrefixRange(p, k);
    OrderPreserved(k, p);
    UpperAbove(KeyBytes(p));
    Lex.StrictTotalOrder();
  }

  lemma UpperAbove(b: Bytes)
    ensures Lex.Less(b, KeyPrefixUpperBound(b))
  {
    PrefixIsLess(b, [0xFF]);
  }

  /** The encoded range of a table holds exactly the keys within the bounds. */
  lemma TableRangeMeans(range: KeyRange, k: Key)
    requires range.Encodable() && EncodableKey(k)
    ensures EncodedRange(range, false).Contains(KeyBytes(k)) <==>
      (&& (range.gt.Some? ==> KeyLess(range.gt.value, k))
       && (range.gte.Some? ==> !KeyLess(k, range.gte.value))
       && (range.lt.Some? ==> KeyLess(k, range.lt.value))
       && (range.lte.Some? ==> !KeyLess(range.lte.value, k)))
  {
    hide KeyBytes, EncodableKey, KeyLess, Lex.Less;
    var bounds := [range.gt, range.gte, range.lt, range.lte];
    forall i | 0 <= i < 4 && bounds[i].Some?
      ensures Lex.Less(KeyBytes(k), KeyBytes(bounds[i].value)) <==> KeyLess(k, bounds[i].value)
      ensures Lex.Less(KeyBytes(bounds[i].value), KeyBytes(k)) <==> KeyLess(bounds[i].value, k)
    {
      OrderPreserved(k, bounds[i].value);
      OrderPreserved(bounds[i].value, k);
    }
    assert bounds[0] == range.gt && bounds[1] == range.gte && bounds[2] == range.lt && bounds[3] == range.lte;
  }

  /** That of an index holds exactly the entries whose first columns are within the bounds; of two lower bounds, or two upper
      ones, the inclusive one alone counts. */
  lemma IndexRangeMeans(range: KeyRange, k: Key)
    requires range.Encodable() && EncodableKey(k)
    ensures EncodedRange(range, true).Contains(KeyBytes(k)) <==>
      (&& (range.gte.Some? ==> !KeyLess(k, range.gte.value))
       && (range.gte.None? && range.gt.Some? ==> !KeyLess(k, range.gt.value) && !BeginsKey(range.gt.value, k))
       && (range.lte.Some? ==> KeyLess(k, range.lte.value) || BeginsKey(range.lte.value, k))
       && (range.lte.None? && range.lt.Some? ==> KeyLess(k, range.lt.value)))
  {
    hide KeyBytes, EncodableKey, KeyLess, BeginsKey, Lex.Less, KeyPrefixUpperBound;
    if range.gt.Some? {
      BelowUpper(k, range.gt.value);
    }
    if range.gte.Some? {
      OrderPreserved(k, range.gte.value);
    }
    if range.lt.Some? {
      OrderPreserved(k, range.lt.value);
    }
    if range.lte.Some? {
      BelowUpper(k, range.lte.value);
    }
  }

  predicate InBounds(range: KeyRange, k: Key) {
    && (range.gt.Some? ==> KeyLess(range.gt.value, k))
    && (range.gte.Some? ==> !KeyLess(k, range.gte.value))
    && (range.lt.Some? ==> KeyLess(k, range.lt.value))
    && (range.lte.Some? ==> !KeyLess(range.lte.value, k))
  }

  function Unbounded(): KeyRange {
    KeyRange(None, None, None, None)
  }

  // Exactly the rows of the table whose keys are within the bounds, in key order or against it, up to the limit.
  ghost predicate Ranged(table: Table, primary: Primary, range: KeyRange, reverse: bool, limit: E.Option<nat>, rows: seq<Row>, ids: seq<Bytes>) {
    && |rows| == |ids| && (limit.Some? ==> |rows| <= limit.value)
    && (forall i :: 0 <= i < |ids| ==> ids[i] in primary && rows[i] == primary[ids[i]] && InBounds(range, PrimaryKey(table, rows[i])))
    && (forall i, j :: 0 <= i < j < |ids| ==> ids[i] != ids[j] && KeyBefore(reverse, PrimaryKey(table, rows[i]), PrimaryKey(table, rows[j])))
    && (forall b :: b in primary && InBounds(range, PrimaryKey(table, primary[b])) ==> b in ids || CutOff(table, reverse, limit, rows, primary[b]))
  }

  predicate CutOff(table: Table, reverse: bool, limit: E.Option<nat>, rows: seq<Row>, row: Row) {
    && limit == E.Some(|rows|)
    && forall i :: 0 <= i < |rows| ==> KeyBefore(reverse, PrimaryKey(table, rows[i]), PrimaryKey(table, row))
  }

  lemma RangeSelects(v: Values, table: Table, m: map<Bytes, Bytes>, range: KeyRange, reverse: bool, limit: E.Option<nat>, entries: seq<E.Entry>,
      rows: seq<Row>, ids: seq<Bytes>)
    requires range.Encodable()
    requires Keyed(table, RowsIn(v, m)) && Scanned(m, EncodedRange(range, false), reverse, limit, entries) && |rows| == |ids| == |entries|
    requires forall i :: 0 <= i < |entries| ==> ids[i] == entries[i].key && rows[i] == v.decodeRow(entries[i].value)
    ensures Ranged(table, RowsIn(v, m), range, reverse, limit, rows, ids)
  {
    hide KeyBytes, EncodableKey, PrimaryKey, KeyLess, Before, Columns, EncodedRange, InBounds, KeyRange.Encodable;
    var primary := RowsIn(v, m);
    forall b | b in primary ensures EncodedRange(range, false).Contains(b) <==> InBounds(range, PrimaryKey(table, primary[b])) {
      assert KeyedRow(table, b, primary[b]);
      BoundsMean(range, PrimaryKey(table, primary[b]));
    }
    forall i | 0 <= i < |ids|
      ensures ids[i] in m && m[ids[i]] == entries[i].value && ids[i] in primary && rows[i] == primary[ids[i]]
      ensures InBounds(range, PrimaryKey(table, rows[i]))
    {
      assert entries[i] in entries;
    }
    forall i, j | 0 <= i < j < |ids| ensures ids[i] != ids[j] && KeyBefore(reverse, PrimaryKey(table, rows[i]), PrimaryKey(table, rows[j])) {
      assert Before(reverse, entries[i].key, entries[j].key);
      OwnOrdered(table, primary, reverse, ids[i], ids[j]);
    }
    forall b | b in primary && InBounds(range, PrimaryKey(table, primary[b])) ensures b in ids || CutOff(table, reverse, limit, rows, primary[b]) {
      if j :| 0 <= j < |entries| && entries[j] == E.Entry(b, m[b]) {
        assert ids[j] == b;
      } else {
        assert Beyond(entries, reverse, limit, b);
        forall i | 0 <= i < |rows| ensures KeyBefore(reverse, PrimaryKey(table, rows[i]), PrimaryKey(table, primary[b])) {
          OwnOrdered(table, primary, reverse, ids[i], b);
        }
      }
    }
  }

  lemma BoundsMean(range: KeyRange, k: Key)
    requires range.Encodable() && EncodableKey(k)
    ensures EncodedRange(range, false).Contains(KeyBytes(k)) <==> InBounds(range, k)
  {
    hide KeyBytes, EncodableKey, KeyLess, EncodedRange;
    TableRangeMeans(range, k);
  }
}
