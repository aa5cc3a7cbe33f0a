// Immutable B+ tree pages in a store that only grows: what a page id stands for.
module PageTrees {
  import opened Entries

  type PageId = nat

  datatype Page =
    | Leaf(entries: seq<Entry>)
    | Internal(keys: seq<Bytes>, children: seq<PageId>)

  type Pages = map<PageId, Page>

  function ChildrenOf(page: Page): seq<PageId> {
    if page.Leaf? then [] else page.children
  }

  // Ids are handed out in order, and a page is written after its children.
  ghost predicate Ascending(pages: Pages, nextId: PageId) {
    && (forall id :: id in pages ==> id < nextId)
    && (forall id, i :: id in pages && 0 <= i < |ChildrenOf(pages[id])| ==> ChildrenOf(pages[id])[i] < id && ChildrenOf(pages[id])[i] in pages)
  }

  // A store that holds nothing but the pages of the ids handed out.
  ghost predicate Gapless(pages: Pages, nextId: PageId) {
    forall id: PageId :: id in pages <==> id < nextId
  }

  // A page of height h: every leaf below it is h levels down.
  ghost predicate Shaped(pages: Pages, id: PageId, h: nat)
    decreases h
  {
    && id in pages
    && match pages[id] {
         case Leaf(_) => h == 0
         case Internal(keys, children) =>
           && h > 0
           && |children| == |keys| + 1
           && forall i :: 0 <= i < |children| ==> Shaped(pages, children[i], h - 1)
       }
  }

  // The entries below a page, in key order.
  ghost function Flat(pages: Pages, id: PageId, h: nat): seq<Entry>
    requires Shaped(pages, id, h)
    decreases h, 0
  {
    match pages[id]
    case Leaf(entries) => entries
    case Internal(_, children) => Concat(Parts(pages, children, h - 1))
  }

  ghost predicate AllShaped(pages: Pages, ids: seq<PageId>, h: nat) {
    forall i :: 0 <= i < |ids| ==> Shaped(pages, ids[i], h)
  }

  ghost function Parts(pages: Pages, ids: seq<PageId>, h: nat): (parts: seq<seq<Entry>>)
    requires AllShaped(pages, ids, h)
    ensures |parts| == |ids|
    ensures forall i :: 0 <= i < |ids| ==> parts[i] == Flat(pages, ids[i], h)
    decreases h, 1
  {
    seq(|ids|, i requires 0 <= i < |ids| => Flat(pages, ids[i], h))
  }

  // The least size of a page other than the root.
  ghost predicate Filled(pages: Pages, id: PageId, m: nat)
    requires id in pages
  {
    match pages[id]
    case Leaf(entries) => |entries| >= (m + 1) / 2
    case Internal(keys, _) => |keys| >= m / 2
  }

  // One entry or key short of it, as a deletion may leave a page.
  ghost predicate NearlyFilled(pages: Pages, id: PageId, m: nat)
    requires id in pages
  {
    match pages[id]
    case Leaf(entries) => |entries| + 1 >= (m + 1) / 2
    case Internal(keys, _) => |keys| + 1 >= m / 2
  }

  // No page too large, separators in place, every page below the given one filled.
  ghost predicate WellFormed(pages: Pages, id: PageId, h: nat, m: nat)
    requires Shaped(pages, id, h)
    decreases h
  {
    match pages[id]
    case Leaf(entries) => |entries| <= m
    case Internal(keys, children) =>
      && |keys| <= m
      && Cuts(keys, Parts(pages, children, h - 1))
      && forall i :: 0 <= i < |children| ==> WellFormed(pages, children[i], h - 1, m) && Filled(pages, children[i], m)
  }

  ghost predicate GoodKid(pages: Pages, id: PageId, h: nat, m: nat) {
    id in pages && Shaped(pages, id, h) && WellFormed(pages, id, h, m) && Filled(pages, id, m)
  }

  // Children and separators that an internal page of height h + 1 may hold.
  ghost predicate Kids(pages: Pages, keys: seq<Bytes>, children: seq<PageId>, h: nat, m: nat) {
    && (forall i :: 0 <= i < |children| ==> GoodKid(pages, children[i], h, m))
    && Cuts(keys, Parts(pages, children, h))
  }

  ghost function Reach(pages: Pages, id: PageId, h: nat): set<PageId>
    requires Shaped(pages, id, h)
    decreases h, 0
  {
    match pages[id]
    case Leaf(_) => {id}
    case Internal(_, children) => {id} + ReachAll(pages, children, h - 1)
  }

  ghost function ReachAll(pages: Pages, ids: seq<PageId>, h: nat): set<PageId>
    requires AllShaped(pages, ids, h)
    decreases h, 1, |ids|
  {
    if ids == [] then {}
    else Reach(pages, ids[0], h) + ReachAll(pages, ids[1..], h)
  }

  lemma {:induction false} ReachAllIs(pages: Pages, ids: seq<PageId>, h: nat)
    requires AllShaped(pages, ids, h)
    ensures forall x :: x in ReachAll(pages, ids, h) ==> exists i :: 0 <= i < |ids| && x in Reach(pages, ids[i], h)
    ensures forall i :: 0 <= i < |ids| ==> Reach(pages, ids[i], h) <= ReachAll(pages, ids, h)
  {
    hide Reach, Shaped;
    if ids != [] {
      var rest := ids[1..];
      ReachAllIs(pages, rest, h);
      forall i | 0 <= i < |ids| ensures Reach(pages, ids[i], h) <= ReachAll(pages, ids, h) {
        assert i > 0 ==> ids[i] == rest[i - 1];
      }
      forall x | x in ReachAll(pages, ids, h) ensures exists i :: 0 <= i < |ids| && x in Reach(pages, ids[i], h) {
        if x !in Reach(pages, ids[0], h) {
          var i :| 0 <= i < |rest| && x in Reach(pages, rest[i], h);
          assert x in Reach(pages, ids[i + 1], h);
        }
      }
    }
  }

  // Pages are never changed, only added.
  ghost predicate Extends(a: Pages, b: Pages) {
    forall id :: id in a ==> id in b && b[id] == a[id]
  }

  lemma {:induction false} StableFlat(a: Pages, b: Pages, id: PageId, h: nat)
    requires Extends(a, b) && Shaped(a, id, h)
    ensures Shaped(b, id, h) && Flat(b, id, h) == Flat(a, id, h)
    decreases h
  {
    match a[id]
    case Leaf(_) =>
    case Internal(_, children) =>
      forall i | 0 <= i < |children|
        ensures Shaped(b, children[i], h - 1) && Flat(b, children[i], h - 1) == Flat(a, children[i], h - 1)
      {
        StableFlat(a, b, children[i], h - 1);
      }
      assert Parts(b, children, h - 1) == Parts(a, children, h - 1);
  }

  lemma StableParts(a: Pages, b: Pages, ids: seq<PageId>, h: nat)
    requires Extends(a, b) && AllShaped(a, ids, h)
    ensures AllShaped(b, ids, h) && Parts(b, ids, h) == Parts(a, ids, h)
  {
    forall i | 0 <= i < |ids|
      ensures Shaped(b, ids[i], h) && Flat(b, ids[i], h) == Flat(a, ids[i], h)
    {
      StableFlat(a, b, ids[i], h);
    }
    assert Parts(b, ids, h) == Parts(a, ids, h);
  }

  lemma {:induction false} StableReach(a: Pages, b: Pages, id: PageId, h: nat)
    requires Extends(a, b) && Shaped(a, id, h)
    ensures Shaped(b, id, h) && Reach(b, id, h) == Reach(a, id, h)
    decreases h, 0
  {
    StableFlat(a, b, id, h);
    match a[id]
    case Leaf(_) =>
    case Internal(_, children) =>
      StableReachAll(a, b, children, h - 1);
  }

  lemma {:induction false} StableReachAll(a: Pages, b: Pages, ids: seq<PageId>, h: nat)
    requires Extends(a, b) && AllShaped(a, ids, h) && AllShaped(b, ids, h)
    ensures ReachAll(b, ids, h) == ReachAll(a, ids, h)
    decreases h, 1, |ids|
  {
    if ids != [] {
      StableReach(a, b, ids[0], h);
      StableReachAll(a, b, ids[1..], h);
    }
  }

  lemma {:induction false} StableWellFormed(a: Pages, b: Pages, id: PageId, h: nat, m: nat)
    requires Extends(a, b) && Shaped(a, id, h) && Shaped(b, id, h)
    ensures WellFormed(a, id, h, m) ==> WellFormed(b, id, h, m)
    ensures Filled(a, id, m) <==> Filled(b, id, m)
    decreases h
  {
    hide Cuts;
    match a[id]
    case Leaf(_) =>
    case Internal(keys, children) =>
      StableParts(a, b, children, h - 1);
      forall i | 0 <= i < |children|
        ensures WellFormed(a, children[i], h - 1, m) ==> WellFormed(b, children[i], h - 1, m)
        ensures Filled(a, children[i], m) <==> Filled(b, children[i], m)
      {
        StableWellFormed(a, b, children[i], h - 1, m);
      }
  }

  /** A page stands for the same tree however many pages are added later. */
  lemma Stable(a: Pages, b: Pages, id: PageId, h: nat, m: nat)
    requires Extends(a, b) && Shaped(a, id, h)
    ensures Shaped(b, id, h) && Flat(b, id, h) == Flat(a, id, h)
    ensures Reach(b, id, h) == Reach(a, id, h)
    ensures WellFormed(a, id, h, m) ==> WellFormed(b, id, h, m)
    ensures Filled(a, id, m) <==> Filled(b, id, m)
  {
    StableFlat(a, b, id, h);
    StableReach(a, b, id, h);
    StableWellFormed(a, b, id, h, m);
  }

  lemma StableKids(a: Pages, b: Pages, keys: seq<Bytes>, children: seq<PageId>, h: nat, m: nat)
    requires Extends(a, b) && Kids(a, keys, children, h, m)
    ensures Kids(b, keys, children, h, m) && Parts(b, children, h) == Parts(a, children, h)
  {
    StableParts(a, b, children, h);
    forall i | 0 <= i < |children| ensures GoodKid(b, children[i], h, m) {
      Stable(a, b, children[i], h, m);
    }
  }

  lemma {:induction false} ConcatFirst(parts: seq<seq<Entry>>)
    requires parts != [] && parts[0] != []
    ensures Concat(parts) != [] && Concat(parts)[0] == parts[0][0]
  {
  }

  /** No page below the root is empty. */
  lemma {:induction false} FilledNotEmpty(pages: Pages, id: PageId, h: nat, m: nat)
    requires m >= 4 && Shaped(pages, id, h) && WellFormed(pages, id, h, m)
    requires h == 0 ==> Filled(pages, id, m)
    ensures Flat(pages, id, h) != []
    decreases h
  {
    match pages[id]
    case Leaf(_) =>
    case Internal(keys, children) =>
      FilledNotEmpty(pages, children[0], h - 1, m);
      ConcatFirst(Parts(pages, children, h - 1));
  }

  lemma KidsNotEmpty(pages: Pages, keys: seq<Bytes>, children: seq<PageId>, h: nat, m: nat)
    requires m >= 4 && Kids(pages, keys, children, h, m)
    ensures forall i :: 0 <= i < |children| ==> Parts(pages, children, h)[i] != []
  {
    forall i | 0 <= i < |children| ensures Parts(pages, children, h)[i] != [] {
      FilledNotEmpty(pages, children[i], h, m);
    }
  }

  lemma SortedMiddle(a: seq<Entry>, s: seq<Entry>, b: seq<Entry>)
    requires Sorted(a + s + b)
    ensures Sorted(s)
  {
    hide Less;
    var all := a + s + b;
    forall i, j | 0 <= i < j < |s| ensures Less(s[i].key, s[j].key) {
      assert all[|a| + i] == s[i] && all[|a| + j] == s[j];
    }
  }

  lemma SortedPart(parts: seq<seq<Entry>>, p: nat)
    requires p < |parts| && Sorted(Concat(parts))
    ensures Sorted(parts[p])
  {
    ConcatAround(parts, p);
    SortedMiddle(Concat(parts[..p]), parts[p], Concat(parts[p + 1..]));
  }

  lemma SortedHalves(s: seq<Entry>, p: nat)
    requires Sorted(s) && 0 < p < |s|
    ensures Sorted(s[..p]) && Sorted(s[p..]) && AllBelow(s[..p], s[p].key) && AllFrom(s[p].key, s[p..])
  {
    hide Less;
    OrderFacts();
  }

  lemma SortedPair(parts: seq<seq<Entry>>, p: nat)
    requires p + 1 < |parts| && Sorted(Concat(parts))
    ensures Sorted(parts[p] + parts[p + 1])
  {
    hide Less, Sorted, Concat;
    ConcatMerge(parts, p);
    var parts' := parts[..p] + [parts[p] + parts[p + 1]] + parts[p + 2..];
    SortedPart(parts', p);
  }

  lemma DescendFirst(pages: Pages, id: PageId, h: nat, m: nat)
    requires m >= 4 && Tree(pages, id, h, m) && pages[id].Internal?
    ensures var c := pages[id].children[0];
      && h > 0 && GoodKid(pages, c, h - 1, m)
      && Flat(pages, c, h - 1) != [] && Flat(pages, id, h) != []
      && Flat(pages, c, h - 1)[0] == Flat(pages, id, h)[0]
  {
    hide Less, Cuts, Concat;
    var children := pages[id].children;
    FilledNotEmpty(pages, children[0], h - 1, m);
    ConcatFirst(Parts(pages, children, h - 1));
  }

  // ---------- replacing children ----------

  lemma ReplaceKid(pages: Pages, keys: seq<Bytes>, children: seq<PageId>, h: nat, m: nat, p: nat, c: PageId)
    requires Kids(pages, keys, children, h, m) && p < |children|
    requires GoodKid(pages, c, h, m) && Within(keys, p, Flat(pages, c, h))
    ensures Kids(pages, keys, children[p := c], h, m)
    ensures Parts(pages, children[p := c], h) == Parts(pages, children, h)[p := Flat(pages, c, h)]
  {
    hide Less, WellFormed, Cuts, Within;
    var parts := Parts(pages, children, h);
    CutsUpdate(keys, parts, p, Flat(pages, c, h));
    assert Parts(pages, children[p := c], h) == parts[p := Flat(pages, c, h)];
  }

  lemma SplitKid(pages: Pages, keys: seq<Bytes>, children: seq<PageId>, h: nat, m: nat, p: nat, l: PageId, sep: Bytes, r: PageId)
    requires Kids(pages, keys, children, h, m) && p < |children|
    requires GoodKid(pages, l, h, m) && GoodKid(pages, r, h, m)
    requires Within(keys, p, Flat(pages, l, h)) && Within(keys, p, Flat(pages, r, h))
    requires Flat(pages, l, h) != [] && Flat(pages, r, h) != []
    requires AllBelow(Flat(pages, l, h), sep) && AllFrom(sep, Flat(pages, r, h))
    ensures var children' := children[..p] + [l, r] + children[p + 1..];
      && Kids(pages, keys[..p] + [sep] + keys[p..], children', h, m)
      && Parts(pages, children', h) == Parts(pages, children, h)[..p] + [Flat(pages, l, h), Flat(pages, r, h)] + Parts(pages, children, h)[p + 1..]
  {
    hide Less, WellFormed, Shaped, Filled, Flat, Cuts, Within, AllBelow, AllFrom;
    var parts := Parts(pages, children, h);
    CutsLength(keys, parts);
    CutsSplit(keys, parts, p, Flat(pages, l, h), sep, Flat(pages, r, h));
    SpliceParts(pages, children, h, p, l, r);
    var children' := children[..p] + [l, r] + children[p + 1..];
    forall i | 0 <= i < |children'| ensures GoodKid(pages, children'[i], h, m) {
    }
  }

  lemma SpliceParts(pages: Pages, ids: seq<PageId>, h: nat, p: nat, l: PageId, r: PageId)
    requires AllShaped(pages, ids, h) && p < |ids| && Shaped(pages, l, h) && Shaped(pages, r, h)
    ensures var ids' := ids[..p] + [l, r] + ids[p + 1..];
      && AllShaped(pages, ids', h)
      && Parts(pages, ids', h) == Parts(pages, ids, h)[..p] + [Flat(pages, l, h), Flat(pages, r, h)] + Parts(pages, ids, h)[p + 1..]
  {
    hide Shaped, Flat;
    var ids' := ids[..p] + [l, r] + ids[p + 1..];
    assert AllShaped(pages, ids', h);
    assert Parts(pages, ids', h) == Parts(pages, ids, h)[..p] + [Flat(pages, l, h), Flat(pages, r, h)] + Parts(pages, ids, h)[p + 1..];
  }

  lemma CutsNeighbours(keys: seq<Bytes>, parts: seq<seq<Entry>>, p: nat)
    requires Cuts(keys, parts) && p < |keys|
    ensures p + 1 < |parts| && AllBelow(parts[p], keys[p]) && AllFrom(keys[p], parts[p + 1])
  {
  }

  lemma CutsLength(keys: seq<Bytes>, parts: seq<seq<Entry>>)
    requires Cuts(keys, parts)
    ensures |parts| == |keys| + 1
    ensures forall i, j :: 0 <= i < j < |keys| ==> Less(keys[i], keys[j])
  {
  }

  // Splitting the parts of a page at one of its keys.
  lemma HalfKids(pages: Pages, keys: seq<Bytes>, children: seq<PageId>, h: nat, m: nat, mid: nat)
    requires Kids(pages, keys, children, h, m) && mid < |keys|
    ensures |children| == |keys| + 1
    ensures Kids(pages, keys[..mid], children[..mid + 1], h, m) && Kids(pages, keys[mid + 1..], children[mid + 1..], h, m)
    ensures AllBelow(Concat(Parts(pages, children[..mid + 1], h)), keys[mid])
    ensures AllFrom(keys[mid], Concat(Parts(pages, children[mid + 1..], h)))
    ensures Concat(Parts(pages, children, h)) == Concat(Parts(pages, children[..mid + 1], h)) + Concat(Parts(pages, children[mid + 1..], h))
  {
    hide Less, WellFormed, Cuts, AllBelow, AllFrom;
    var parts := Parts(pages, children, h);
    CutsLength(keys, parts);
    CutsHalves(keys, parts, mid);
    assert Parts(pages, children[..mid + 1], h) == parts[..mid + 1];
    assert Parts(pages, children[mid + 1..], h) == parts[mid + 1..];
  }

  // ---------- results ----------

  type Root = Option<PageId>

  datatype Split = Split(separator: Bytes, right: PageId)

  datatype InsertResult = InsertResult(page: PageId, split: Option<Split>)

  datatype DeleteResult = DeleteResult(page: PageId, changed: bool, underflow: bool, firstKey: Option<Bytes>)

  // A well-formed page, of any size up to the maximum.
  ghost predicate Tree(pages: Pages, id: PageId, h: nat, m: nat) {
    id in pages && Shaped(pages, id, h) && WellFormed(pages, id, h, m)
  }

  ghost predicate RootTree(pages: Pages, root: Root, h: nat, m: nat) {
    if root.None? then h == 0
    else Tree(pages, root.value, h, m) && Sorted(Flat(pages, root.value, h))
  }

  ghost function Contents(pages: Pages, root: Root, h: nat): seq<Entry>
    requires root.Some? ==> Shaped(pages, root.value, h)
  {
    if root.None? then [] else Flat(pages, root.value, h)
  }

  ghost function RootReach(pages: Pages, root: Root, h: nat): set<PageId>
    requires root.Some? ==> Shaped(pages, root.value, h)
  {
    if root.None? then {} else Reach(pages, root.value, h)
  }

  // The one or two pages of an insertion, together holding the given entries.
  ghost predicate Inserted(pages: Pages, r: InsertResult, h: nat, m: nat, entries: seq<Entry>) {
    match r.split
    case None => Tree(pages, r.page, h, m) && Flat(pages, r.page, h) == entries
    case Some(s) =>
      && GoodKid(pages, r.page, h, m) && GoodKid(pages, s.right, h, m)
      && Flat(pages, r.page, h) + Flat(pages, s.right, h) == entries
      && AllBelow(Flat(pages, r.page, h), s.separator)
      && AllFrom(s.separator, Flat(pages, s.right, h))
  }

  // Every page below is new or was already owned.
  ghost predicate Owned(pages: Pages, id: PageId, h: nat, newFrom: nat, before: set<PageId>)
    requires Shaped(pages, id, h)
  {
    forall x :: x in Reach(pages, id, h) ==> x in before || x >= newFrom
  }

  ghost predicate OwnedResult(pages: Pages, r: InsertResult, h: nat, m: nat, entries: seq<Entry>, newFrom: nat, before: set<PageId>)
    requires Inserted(pages, r, h, m, entries)
  {
    && Owned(pages, r.page, h, newFrom, before)
    && (r.split.Some? ==> Owned(pages, r.split.value.right, h, newFrom, before))
  }

  ghost predicate OwnedAll(pages: Pages, ids: seq<PageId>, h: nat, newFrom: nat, before: set<PageId>) {
    && AllShaped(pages, ids, h)
    && forall i :: 0 <= i < |ids| ==> Owned(pages, ids[i], h, newFrom, before)
  }

  ghost function Size(pages: Pages, id: PageId): nat
    requires id in pages
  {
    match pages[id]
    case Leaf(entries) => |entries|
    case Internal(keys, _) => |keys|
  }

  lemma FilledBySize(a: Pages, x: PageId, b: Pages, y: PageId, h: nat, m: nat)
    requires Shaped(a, x, h) && Shaped(b, y, h) && Filled(a, x, m) && Size(b, y) >= Size(a, x)
    ensures Filled(b, y, m)
  {
  }

  lemma FilledSize(pages: Pages, id: PageId, h: nat, m: nat)
    requires m >= 4 && Shaped(pages, id, h) && Filled(pages, id, m)
    ensures Size(pages, id) > 0
  {
  }

  // What an internal page says of its children.
  lemma OpenInternal(pages: Pages, id: PageId, h: nat, m: nat)
    requires Tree(pages, id, h, m) && pages[id].Internal?
    ensures h > 0 && |pages[id].keys| <= m && |pages[id].children| == |pages[id].keys| + 1
    ensures Kids(pages, pages[id].keys, pages[id].children, h - 1, m)
    ensures Flat(pages, id, h) == Concat(Parts(pages, pages[id].children, h - 1))
    ensures Reach(pages, id, h) == {id} + ReachAll(pages, pages[id].children, h - 1)
  {
    hide Less, Cuts, Concat;
    var children := pages[id].children;
    forall i | 0 <= i < |children| ensures GoodKid(pages, children[i], h - 1, m) {
      assert Shaped(pages, children[i], h - 1);
    }
  }

  // A child can be changed on its own.
  lemma OpenChild(pages: Pages, keys: seq<Bytes>, children: seq<PageId>, h: nat, m: nat, p: nat)
    requires Kids(pages, keys, children, h, m) && p < |children| && Sorted(Concat(Parts(pages, children, h)))
    ensures RootTree(pages, Some(children[p]), h, m)
    ensures Flat(pages, children[p], h) == Parts(pages, children, h)[p]
    ensures Reach(pages, children[p], h) <= ReachAll(pages, children, h)
  {
    hide Less, Cuts, WellFormed, Flat, Reach, Concat, Filled, Sorted;
    SortedPart(Parts(pages, children, h), p);
    ReachAllIs(pages, children, h);
  }

  // ---------- one insertion below an internal page ----------

  function SplicedKeys(keys: seq<Bytes>, p: nat, r: InsertResult): seq<Bytes>
    requires p <= |keys|
  {
    match r.split
    case None => keys
    case Some(s) => keys[..p] + [s.separator] + keys[p..]
  }

  function SplicedChildren(children: seq<PageId>, p: nat, r: InsertResult): seq<PageId>
    requires p < |children|
  {
    match r.split
    case None => children[p := r.page]
    case Some(s) => children[..p] + [r.page, s.right] + children[p + 1..]
  }

  // A changed part stays between its separators.
  lemma PutWithin(keys: seq<Bytes>, parts: seq<seq<Entry>>, p: nat, k: Bytes, v: Bytes)
    requires Cuts(keys, parts) && ChildAt(keys, k, p)
    ensures Within(keys, p, Put(parts[p], k, v)) && Within(keys, p, Del(parts[p], k))
    ensures Within(keys, p, parts[p])
  {
    hide Less, AllBelow, AllFrom;
    forall i | 0 <= i < |keys| && i < p
      ensures AllFrom(keys[i], Put(parts[p], k, v)) && AllFrom(keys[i], Del(parts[p], k))
    {
      PutBounds(parts[p], k, v, keys[i]);
    }
    forall i | p <= i < |keys|
      ensures AllBelow(Put(parts[p], k, v), keys[i]) && AllBelow(Del(parts[p], k), keys[i])
    {
      PutBounds(parts[p], k, v, keys[i]);
    }
  }

  lemma KidsAfterInsert(a: Pages, b: Pages, keys: seq<Bytes>, children: seq<PageId>, h: nat, m: nat, p: nat,
      k: Bytes, v: Bytes, r: InsertResult)
    requires m >= 4 && Extends(a, b) && Kids(a, keys, children, h, m) && ChildAt(keys, k, p)
    requires |children| == |keys| + 1
    requires Inserted(b, r, h, m, Put(Parts(a, children, h)[p], k, v))
    requires r.split.None? ==> Filled(b, r.page, m)
    ensures Kids(b, SplicedKeys(keys, p, r), SplicedChildren(children, p, r), h, m)
    ensures Concat(Parts(b, SplicedChildren(children, p, r), h)) == Put(Concat(Parts(a, children, h)), k, v)
  {
    hide Less, WellFormed, Shaped, Filled, Flat, Cuts, Within, AllBelow, AllFrom, AllAbove, Put, Concat;
    var parts := Parts(a, children, h);
    StableKids(a, b, keys, children, h, m);
    PutWithin(keys, parts, p, k, v);
    CutsAround(keys, parts, k, p);
    ConcatAround(parts, p);
    PutInside(Concat(parts[..p]), parts[p], Concat(parts[p + 1..]), k, v);
    match r.split
    case None =>
      ReplaceKid(b, keys, children, h, m, p, r.page);
      ConcatUpdate(parts, p, Flat(b, r.page, h), []);
    case Some(s) =>
      var l, q := Flat(b, r.page, h), Flat(b, s.right, h);
      WithinHalves(keys, p, l, q);
      FilledNotEmpty(b, r.page, h, m);
      FilledNotEmpty(b, s.right, h, m);
      SplitKid(b, keys, children, h, m, p, r.page, s.separator, s.right);
      ConcatUpdate(parts, p, l, q);
  }

  lemma OwnedAllStable(a: Pages, b: Pages, ids: seq<PageId>, h: nat, newFrom: nat, before: set<PageId>)
    requires Extends(a, b) && OwnedAll(a, ids, h, newFrom, before)
    ensures OwnedAll(b, ids, h, newFrom, before)
  {
    forall i | 0 <= i < |ids| ensures Shaped(b, ids[i], h) && Owned(b, ids[i], h, newFrom, before) {
      StableReach(a, b, ids[i], h);
    }
  }

  // A new internal page over known children.
  lemma WrittenInternal(a: Pages, b: Pages, id: PageId, keys: seq<Bytes>, children: seq<PageId>, h: nat, m: nat,
      before: set<PageId>, newFrom: nat)
    requires Extends(a, b) && id in b && b[id] == Internal(keys, children) && newFrom <= id && |keys| <= m
    requires Kids(a, keys, children, h, m) && OwnedAll(a, children, h, newFrom, before)
    ensures Tree(b, id, h + 1, m) && Flat(b, id, h + 1) == Concat(Parts(a, children, h))
    ensures Owned(b, id, h + 1, newFrom, before)
  {
    WrittenTree(a, b, id, keys, children, h, m);
    WrittenOwned(a, b, id, keys, children, h, before, newFrom);
  }

  lemma WrittenTree(a: Pages, b: Pages, id: PageId, keys: seq<Bytes>, children: seq<PageId>, h: nat, m: nat)
    requires Extends(a, b) && id in b && b[id] == Internal(keys, children) && |keys| <= m && Kids(a, keys, children, h, m)
    ensures Tree(b, id, h + 1, m) && Flat(b, id, h + 1) == Concat(Parts(a, children, h))
  {
    hide Less, Cuts, Concat, Extends;
    StableKids(a, b, keys, children, h, m);
    CutsLength(keys, Parts(a, children, h));
    assert forall i :: 0 <= i < |children| ==> GoodKid(b, children[i], h, m);
  }

  lemma WrittenOwned(a: Pages, b: Pages, id: PageId, keys: seq<Bytes>, children: seq<PageId>, h: nat,
      before: set<PageId>, newFrom: nat)
    requires Extends(a, b) && id in b && b[id] == Internal(keys, children) && newFrom <= id
    requires Shaped(b, id, h + 1) && OwnedAll(a, children, h, newFrom, before)
    ensures Owned(b, id, h + 1, newFrom, before)
  {
    hide Shaped, Reach, Extends;
    ReachChildren(b, id, h + 1);
    OwnedAllStable(a, b, children, h, newFrom, before);
    ReachAllIs(b, children, h);
  }

  lemma OwnedAfterInsert(a: Pages, b: Pages, keys: seq<Bytes>, children: seq<PageId>, h: nat, m: nat, p: nat,
      r: InsertResult, entries: seq<Entry>, newFrom: nat, before: set<PageId>)
    requires Extends(a, b) && AllShaped(a, children, h) && p < |children|
    requires Inserted(b, r, h, m, entries) && OwnedResult(b, r, h, m, entries, newFrom, Reach(a, children[p], h))
    requires ReachAll(a, children, h) <= before
    ensures OwnedAll(b, SplicedChildren(children, p, r), h, newFrom, before)
  {
    hide Less, WellFormed, Shaped, Filled, Flat, Reach, AllBelow, AllFrom;
    ReachAllIs(a, children, h);
    forall i | 0 <= i < |children| ensures Shaped(b, children[i], h) && Owned(b, children[i], h, newFrom, before) {
      StableReach(a, b, children[i], h);
      assert Reach(a, children[i], h) <= before;
    }
  }

  // ---------- one removal below an internal page ----------

  function FirstOf(s: seq<Entry>): Option<Bytes> {
    if s == [] then None else Some(s[0].key)
  }

  // The page of a deletion, one entry or key short of filled at worst.
  ghost predicate Removed(pages: Pages, r: DeleteResult, h: nat, m: nat, root: bool, entries: seq<Entry>) {
    && Tree(pages, r.page, h, m) && Flat(pages, r.page, h) == entries
    && (r.underflow <==> !root && !Filled(pages, r.page, m))
    && (!root ==> NearlyFilled(pages, r.page, m))
    && r.firstKey == FirstOf(entries)
  }

  // Children in order, all but two of which are known to be filled.
  ghost predicate KidsBut(pages: Pages, keys: seq<Bytes>, children: seq<PageId>, h: nat, m: nat, l: nat, r: nat) {
    && (forall i :: 0 <= i < |children| ==> Tree(pages, children[i], h, m))
    && (forall i :: 0 <= i < |children| && i != l && i != r ==> GoodKid(pages, children[i], h, m))
    && Cuts(keys, Parts(pages, children, h))
  }

  lemma StableKidsBut(a: Pages, b: Pages, keys: seq<Bytes>, children: seq<PageId>, h: nat, m: nat, l: nat, r: nat)
    requires Extends(a, b) && KidsBut(a, keys, children, h, m, l, r)
    ensures KidsBut(b, keys, children, h, m, l, r) && Parts(b, children, h) == Parts(a, children, h)
  {
    hide Less, Cuts, WellFormed, Flat, Shaped, Filled;
    StableParts(a, b, children, h);
    forall i | 0 <= i < |children|
      ensures Tree(b, children[i], h, m) && (GoodKid(a, children[i], h, m) ==> GoodKid(b, children[i], h, m))
    {
      Stable(a, b, children[i], h, m);
    }
  }

  lemma KidsAfterRemove(a: Pages, b: Pages, keys: seq<Bytes>, children: seq<PageId>, h: nat, m: nat, p: nat,
      k: Bytes, c: PageId)
    requires Extends(a, b) && Kids(a, keys, children, h, m) && ChildAt(keys, k, p)
    requires |children| == |keys| + 1
    requires Tree(b, c, h, m) && Flat(b, c, h) == Del(Parts(a, children, h)[p], k)
    ensures KidsBut(b, keys, children[p := c], h, m, p, p)
    ensures Concat(Parts(b, children[p := c], h)) == Del(Concat(Parts(a, children, h)), k)
  {
    hide Less, WellFormed, Shaped, Filled, Flat, Cuts, Within, AllBelow, AllFrom, AllAbove, Del, Concat;
    var parts := Parts(a, children, h);
    StableKids(a, b, keys, children, h, m);
    PutWithin(keys, parts, p, k, []);
    CutsUpdate(keys, parts, p, Flat(b, c, h));
    assert Parts(b, children[p := c], h) == parts[p := Flat(b, c, h)];
    RemoveInside(keys, parts, p, k);
    ConcatUpdate(parts, p, Flat(b, c, h), []);
  }

  lemma RemoveInside(keys: seq<Bytes>, parts: seq<seq<Entry>>, p: nat, k: Bytes)
    requires Cuts(keys, parts) && ChildAt(keys, k, p)
    ensures Del(Concat(parts), k) == Concat(parts[..p]) + Del(parts[p], k) + Concat(parts[p + 1..])
    ensures Find(Concat(parts), k) == Find(parts[p], k)
    ensures Find(parts[p], k) == None && Del(parts[p], k) == parts[p] ==> Del(Concat(parts), k) == Concat(parts)
  {
    hide Less, AllBelow, AllFrom, AllAbove, Del, Find, Concat;
    CutsAround(keys, parts, k, p);
    ConcatAround(parts, p);
    PutInside(Concat(parts[..p]), parts[p], Concat(parts[p + 1..]), k, []);
  }

  lemma RekeyKids(pages: Pages, keys: seq<Bytes>, children: seq<PageId>, h: nat, m: nat, p: nat, k: Bytes)
    requires KidsBut(pages, keys, children, h, m, p, p) && 0 < p < |children|
    requires Sorted(Concat(Parts(pages, children, h))) && FirstOf(Flat(pages, children[p], h)) == Some(k)
    ensures p <= |keys| && KidsBut(pages, keys[p - 1 := k], children, h, m, p, p)
  {
    hide Less, WellFormed, Shaped, Filled, Flat, Cuts, Sorted, Concat;
    var parts := Parts(pages, children, h);
    CutsLength(keys, parts);
    SortedPart(parts, p);
    CutsRekey(keys, parts, p - 1, k);
  }

  // ---------- merging and sharing between neighbours ----------

  lemma KidsAfterMerge(a: Pages, b: Pages, keys: seq<Bytes>, children: seq<PageId>, h: nat, m: nat, l: nat, c: PageId)
    requires Extends(a, b) && l < |keys| && |children| == |keys| + 1 && KidsBut(a, keys, children, h, m, l, l + 1)
    requires GoodKid(b, c, h, m) && Flat(b, c, h) == Parts(a, children, h)[l] + Parts(a, children, h)[l + 1]
    ensures var children' := children[..l] + [c] + children[l + 2..];
      && Kids(b, keys[..l] + keys[l + 1..], children', h, m)
      && Concat(Parts(b, children', h)) == Concat(Parts(a, children, h))
  {
    hide Less, WellFormed, Shaped, Filled, Flat, Cuts, Concat;
    var parts := Parts(a, children, h);
    StableKidsBut(a, b, keys, children, h, m, l, l + 1);
    CutsMerge(keys, parts, l);
    ConcatMerge(parts, l);
    var children' := children[..l] + [c] + children[l + 2..];
    forall i | 0 <= i < |children'| ensures GoodKid(b, children'[i], h, m) {
      assert children'[i] == if i < l then children[i] else if i == l then c else children[i + 1];
    }
    assert Parts(b, children', h) == parts[..l] + [parts[l] + parts[l + 1]] + parts[l + 2..];
  }

  lemma KidsAfterShift(a: Pages, b: Pages, keys: seq<Bytes>, children: seq<PageId>, h: nat, m: nat, l: nat,
      x: PageId, sep: Bytes, y: PageId)
    requires Extends(a, b) && l < |keys| && |children| == |keys| + 1 && KidsBut(a, keys, children, h, m, l, l + 1)
    requires GoodKid(b, x, h, m) && GoodKid(b, y, h, m)
    requires Flat(b, x, h) + Flat(b, y, h) == Parts(a, children, h)[l] + Parts(a, children, h)[l + 1]
    requires Flat(b, x, h) != [] && Flat(b, y, h) != []
    requires AllBelow(Flat(b, x, h), sep) && AllFrom(sep, Flat(b, y, h))
    ensures var children' := children[l := x][l + 1 := y];
      && Kids(b, keys[l := sep], children', h, m)
      && Concat(Parts(b, children', h)) == Concat(Parts(a, children, h))
  {
    hide Less, WellFormed, Shaped, Filled, Flat, Cuts, Concat, AllBelow, AllFrom;
    var parts := Parts(a, children, h);
    StableKidsBut(a, b, keys, children, h, m, l, l + 1);
    CutsShift(keys, parts, l, Flat(b, x, h), sep, Flat(b, y, h));
    var children' := children[l := x][l + 1 := y];
    forall i | 0 <= i < |children'| ensures GoodKid(b, children'[i], h, m) {
    }
    assert Parts(b, children', h) == parts[l := Flat(b, x, h)][l + 1 := Flat(b, y, h)];
  }

  /** The children of two neighbours, with the separator between them, can hang from one page. */
  lemma JoinKids(pages: Pages, lk: seq<Bytes>, lc: seq<PageId>, k: Bytes, rk: seq<Bytes>, rc: seq<PageId>, h: nat, m: nat)
    requires m >= 4 && Kids(pages, lk, lc, h, m) && Kids(pages, rk, rc, h, m)
    requires AllBelow(Concat(Parts(pages, lc, h)), k) && AllFrom(k, Concat(Parts(pages, rc, h)))
    ensures Kids(pages, lk + [k] + rk, lc + rc, h, m)
    ensures Concat(Parts(pages, lc + rc, h)) == Concat(Parts(pages, lc, h)) + Concat(Parts(pages, rc, h))
  {
    hide Less, WellFormed, Shaped, Filled, Flat, Cuts, Concat, AllBelow, AllFrom;
    var lp, rp := Parts(pages, lc, h), Parts(pages, rc, h);
    KidsNotEmpty(pages, lk, lc, h, m);
    KidsNotEmpty(pages, rk, rc, h, m);
    forall j | 0 <= j < |lp| ensures AllBelow(lp[j], k) {
      ConcatPart(lp, j, k);
    }
    forall j | 0 <= j < |rp| ensures AllFrom(k, rp[j]) {
      ConcatPart(rp, j, k);
    }
    CutsJoin(lk, lp, k, rk, rp);
    assert Parts(pages, lc + rc, h) == lp + rp;
    ConcatAppend(lp, rp);
  }

  lemma OwnedAfterRemove(a: Pages, b: Pages, children: seq<PageId>, h: nat, m: nat, p: nat, c: PageId,
      newFrom: nat, before: set<PageId>)
    requires Extends(a, b) && AllShaped(a, children, h) && p < |children| && ReachAll(a, children, h) <= before
    requires Shaped(b, c, h) && Owned(b, c, h, newFrom, Reach(a, children[p], h))
    ensures OwnedAll(b, children[p := c], h, newFrom, before)
  {
    hide Shaped, Reach;
    ReachAllIs(a, children, h);
    forall i | 0 <= i < |children| ensures Shaped(b, children[i], h) && Owned(b, children[i], h, newFrom, before) {
      StableReach(a, b, children[i], h);
      assert Reach(a, children[i], h) <= before;
    }
  }

  lemma GoodFirst(pages: Pages, keys: seq<Bytes>, children: seq<PageId>, h: nat, m: nat)
    requires m >= 4 && Kids(pages, keys, children, h, m)
    ensures |children| > 0 && Flat(pages, children[0], h) != []
    ensures FirstOf(Concat(Parts(pages, children, h))) == FirstOf(Flat(pages, children[0], h))
  {
    hide Less, WellFormed, Shaped, Filled, Flat, Cuts, Concat;
    CutsLength(keys, Parts(pages, children, h));
    FilledNotEmpty(pages, children[0], h, m);
    ConcatFirst(Parts(pages, children, h));
  }

  lemma OwnedChildren(pages: Pages, id: PageId, h: nat, newFrom: nat, before: set<PageId>)
    requires Shaped(pages, id, h) && pages[id].Internal? && Owned(pages, id, h, newFrom, before)
    ensures OwnedAll(pages, pages[id].children, h - 1, newFrom, before)
  {
    ReachAllIs(pages, pages[id].children, h - 1);
  }

  lemma OwnedAllFrom(a: Pages, b: Pages, ids: seq<PageId>, ids': seq<PageId>, h: nat, newFrom: nat, before: set<PageId>)
    requires Extends(a, b) && OwnedAll(a, ids, h, newFrom, before)
    requires forall i :: 0 <= i < |ids'| ==> ids'[i] in ids || (Shaped(b, ids'[i], h) && Owned(b, ids'[i], h, newFrom, before))
    ensures OwnedAll(b, ids', h, newFrom, before)
  {
    hide Shaped, Owned;
    OwnedAllStable(a, b, ids, h, newFrom, before);
    forall i | 0 <= i < |ids'| ensures Shaped(b, ids'[i], h) && Owned(b, ids'[i], h, newFrom, before) {
    }
  }

  // ---------- roots ----------

  // What a tree's root always is: no page at all, or a well-formed page that is not empty.
  ghost predicate SoundRoot(pages: Pages, root: Root, h: nat, m: nat) {
    RootTree(pages, root, h, m) && (root.Some? ==> Size(pages, root.value) > 0)
  }

  ghost predicate OwnedRoot(pages: Pages, root: Root, h: nat, newFrom: nat, before: set<PageId>)
    requires root.Some? ==> Shaped(pages, root.value, h)
  {
    root.Some? ==> Owned(pages, root.value, h, newFrom, before)
  }

  datatype Mutation = PutEntry(key: Bytes, value: Bytes) | DeleteKey(key: Bytes)

  function Mutated(s: seq<Entry>, mutations: seq<Mutation>): seq<Entry> {
    if mutations == [] then s
    else
      var before := Mutated(s, mutations[..|mutations| - 1]);
      match mutations[|mutations| - 1]
      case PutEntry(k, v) => Put(before, k, v)
      case DeleteKey(k) => Del(before, k)
  }

  // The same fold over a map.
  function Folded(m: map<Bytes, Bytes>, mutations: seq<Mutation>): map<Bytes, Bytes> {
    if mutations == [] then m
    else
      var before := Folded(m, mutations[..|mutations| - 1]);
      match mutations[|mutations| - 1]
      case PutEntry(k, v) => before[k := v]
      case DeleteKey(k) => before - {k}
  }

  // Nothing but deletions of keys that are not there.
  predicate Absent(s: seq<Entry>, mutations: seq<Mutation>) {
    forall i :: 0 <= i < |mutations| ==> mutations[i].DeleteKey? && Find(s, mutations[i].key) == None
  }

  /** The entries of a mutated tree are the map of the old one with the puts and deletes folded over it. */
  lemma {:induction false} MutatedIsFolded(s: seq<Entry>, mutations: seq<Mutation>)
    requires Sorted(s)
    ensures Sorted(Mutated(s, mutations)) && ToMap(Mutated(s, mutations)) == Folded(ToMap(s), mutations)
  {
    hide Sorted, Put, Del, ToMap;
    if mutations != [] {
      MutatedIsFolded(s, mutations[..|mutations| - 1]);
      var before := Mutated(s, mutations[..|mutations| - 1]);
      match mutations[|mutations| - 1]
      case PutEntry(k, v) =>
        PutSorted(before, k, v);
        MapPut(before, k, v);
      case DeleteKey(k) =>
        PutSorted(before, k, []);
        MapDel(before, k);
    }
  }

  lemma LeafFlat(pages: Pages, id: PageId, h: nat)
    requires Shaped(pages, id, h) && pages[id].Leaf?
    ensures Flat(pages, id, h) == pages[id].entries && Size(pages, id) == |pages[id].entries|
  {
  }

  lemma PutNotEmpty(s: seq<Entry>, k: Bytes, v: Bytes)
    ensures Put(s, k, v) != []
  {
  }

  lemma SizeOfFlat(pages: Pages, id: PageId, h: nat)
    requires Shaped(pages, id, h) && Flat(pages, id, h) != []
    ensures pages[id].Leaf? ==> Size(pages, id) > 0
    ensures pages[id].Internal? <==> h > 0
  {
  }

  lemma OpenSize(pages: Pages, id: PageId, h: nat)
    requires Shaped(pages, id, h)
    ensures pages[id].Internal? ==> |pages[id].children| == Size(pages, id) + 1
  {
  }

  // The two halves of a split root.
  lemma PairKids(pages: Pages, r: InsertResult, h: nat, m: nat, entries: seq<Entry>)
    requires r.split.Some? && Inserted(pages, r, h, m, entries)
    ensures Kids(pages, [r.split.value.separator], [r.page, r.split.value.right], h, m)
    ensures Concat(Parts(pages, [r.page, r.split.value.right], h)) == entries
  {
    hide Less, WellFormed, Shaped, Filled, Flat, AllBelow, AllFrom;
    var parts := Parts(pages, [r.page, r.split.value.right], h);
    ConcatOne(parts[1]);
    assert parts[1..] == [parts[1]];
  }

  lemma OnlyChild(pages: Pages, id: PageId, h: nat, m: nat)
    requires m >= 4 && RootTree(pages, Some(id), h, m) && pages[id].Internal? && |pages[id].children| == 1
    ensures h > 0 && SoundRoot(pages, Some(pages[id].children[0]), h - 1, m)
    ensures Flat(pages, pages[id].children[0], h - 1) == Flat(pages, id, h)
    ensures Reach(pages, pages[id].children[0], h - 1) <= Reach(pages, id, h)
  {
    hide Less, Cuts, WellFormed, Shaped, Flat, Reach, Concat, Filled;
    OpenInternal(pages, id, h, m);
    var c := pages[id].children[0];
    ConcatOne(Flat(pages, c, h - 1));
    assert Parts(pages, pages[id].children, h - 1) == [Flat(pages, c, h - 1)];
    FilledSize(pages, c, h - 1, m);
  }

  // ---------- copies ----------

  // The pages of a under new names in b; equal pages stay shared and different ones stay apart.
  ghost predicate Relocated(a: Pages, b: Pages, f: map<PageId, PageId>) {
    && (forall x :: x in f ==> x in a && f[x] in b && SameUpTo(a[x], b[f[x]], f))
    && (forall x, y :: x in f && y in f && f[x] == f[y] ==> x == y)
  }

  ghost predicate SameUpTo(page: Page, copy: Page, f: map<PageId, PageId>) {
    match page
    case Leaf(_) => copy == page
    case Internal(keys, children) =>
      && copy.Internal? && copy.keys == keys && |copy.children| == |children|
      && forall i :: 0 <= i < |children| ==> children[i] in f && copy.children[i] == f[children[i]]
  }

  // A relocation extended by exactly the given pages.
  ghost predicate Further(a: Pages, b: Pages, f: map<PageId, PageId>, f': map<PageId, PageId>, more: set<PageId>) {
    && Relocated(a, b, f')
    && f'.Keys == f.Keys + more
    && forall x :: x in f ==> f'[x] == f[x]
  }

  ghost predicate Renamed(ids: seq<PageId>, f: map<PageId, PageId>, copies: seq<PageId>) {
    |copies| == |ids| && forall i :: 0 <= i < |ids| ==> ids[i] in f && copies[i] == f[ids[i]]
  }

  lemma CopiesPresent(a: Pages, b: Pages, f: map<PageId, PageId>, ids: seq<PageId>, copies: seq<PageId>)
    requires Relocated(a, b, f) && Renamed(ids, f, copies)
    ensures forall i :: 0 <= i < |copies| ==> copies[i] in b
  {
    hide SameUpTo;
  }

  lemma CopyStep(a: Pages, b: Pages, f: map<PageId, PageId>, f1: map<PageId, PageId>, b': Pages, f2: map<PageId, PageId>,
      ids: seq<PageId>, copies: seq<PageId>, i: nat, h: nat)
    requires AllShaped(a, ids, h) && i < |ids|
    requires Further(a, b, f, f1, ReachAll(a, ids[..i], h)) && Renamed(ids[..i], f1, copies)
    requires Further(a, b', f1, f2, Reach(a, ids[i], h)) && ids[i] in f2
    ensures Further(a, b', f, f2, ReachAll(a, ids[..i + 1], h)) && Renamed(ids[..i + 1], f2, copies + [f2[ids[i]]])
  {
    hide Relocated, Shaped, Reach;
    ReachAllAppend(a, ids[..i], ids[i], h);
    assert ids[..i + 1] == ids[..i] + [ids[i]];
  }

  function Moved(root: Root, f: map<PageId, PageId>): Root {
    if root.Some? && root.value in f then Some(f[root.value]) else None
  }

  lemma {:induction false} RelocatedReach(a: Pages, b: Pages, f: map<PageId, PageId>, id: PageId, h: nat)
    requires Relocated(a, b, f) && id in f && Shaped(a, id, h)
    ensures Reach(a, id, h) <= f.Keys
    decreases h
  {
    hide Relocated, Reach;
    RelocatedPage(a, b, f, id);
    ReachChildren(a, id, h);
    match a[id]
    case Leaf(_) =>
    case Internal(_, children) =>
      ReachAllIs(a, children, h - 1);
      forall i | 0 <= i < |children| ensures Reach(a, children[i], h - 1) <= f.Keys {
        RelocatedReach(a, b, f, children[i], h - 1);
      }
  }

  lemma SameChildren(page: Page, f: map<PageId, PageId>, copies: seq<PageId>)
    requires page.Internal? && Renamed(page.children, f, copies)
    ensures SameUpTo(page, Internal(page.keys, copies), f)
  {
  }

  // Renaming further pages does not change the copy of a page that is complete.
  lemma SameFurther(page: Page, copy: Page, f: map<PageId, PageId>, id: PageId, to: PageId)
    requires SameUpTo(page, copy, f) && id !in f
    ensures SameUpTo(page, copy, f[id := to])
  {
  }

  lemma RelocateOne(a: Pages, b: Pages, b': Pages, f: map<PageId, PageId>, id: PageId, to: PageId)
    requires Relocated(a, b, f) && Extends(b, b') && id in a && id !in f && to !in b && to in b'
    requires SameUpTo(a[id], b'[to], f)
    ensures Relocated(a, b', f[id := to])
  {
    var f' := f[id := to];
    forall x | x in f' ensures x in a && f'[x] in b' && SameUpTo(a[x], b'[f'[x]], f') {
      if x != id {
        SameFurther(a[x], b[f[x]], f, id, to);
      }
    }
  }

  lemma {:induction false} ReachAllAppend(pages: Pages, ids: seq<PageId>, id: PageId, h: nat)
    requires AllShaped(pages, ids, h) && Shaped(pages, id, h)
    ensures ReachAll(pages, ids + [id], h) == ReachAll(pages, ids, h) + Reach(pages, id, h)
  {
    hide Shaped, Reach;
    if ids == [] {
      assert ids + [id] == [id] && [id][1..] == [];
    } else {
      assert (ids + [id])[1..] == ids[1..] + [id];
      ReachAllAppend(pages, ids[1..], id, h);
    }
  }

  lemma {:induction false} HeightUnique(pages: Pages, id: PageId, h: nat, k: nat)
    requires Shaped(pages, id, h) && Shaped(pages, id, k)
    ensures h == k
    decreases h
  {
    match pages[id]
    case Leaf(_) =>
    case Internal(_, children) =>
      HeightUnique(pages, children[0], h - 1, k - 1);
  }

  lemma ReachChildren(pages: Pages, id: PageId, h: nat)
    requires Shaped(pages, id, h)
    ensures pages[id].Leaf? ==> Reach(pages, id, h) == {id}
    ensures pages[id].Internal? ==> Reach(pages, id, h) == {id} + ReachAll(pages, pages[id].children, h - 1)
  {
  }

  lemma {:induction false} ReachBelow(pages: Pages, id: PageId, h: nat, x: PageId) returns (k: nat)
    requires Shaped(pages, id, h) && x in Reach(pages, id, h)
    ensures k <= h && Shaped(pages, x, k)
    decreases h
  {
    k := h;
    if x != id {
      hide Reach;
      ReachChildren(pages, id, h);
      var children := pages[id].children;
      ReachAllIs(pages, children, h - 1);
      var i :| 0 <= i < |children| && x in Reach(pages, children[i], h - 1);
      k := ReachBelow(pages, children[i], h - 1, x);
    }
  }

  lemma NotBelowItself(pages: Pages, id: PageId, h: nat)
    requires Shaped(pages, id, h) && pages[id].Internal?
    ensures id !in ReachAll(pages, pages[id].children, h - 1)
  {
    hide Reach;
    var children := pages[id].children;
    if id in ReachAll(pages, children, h - 1) {
      ReachAllIs(pages, children, h - 1);
      var i :| 0 <= i < |children| && id in Reach(pages, children[i], h - 1);
      var k := ReachBelow(pages, children[i], h - 1, id);
      HeightUnique(pages, id, h, k);
    }
  }

  /** A copied tree is as well formed as the original and holds the same entries. */
  lemma {:induction false} RelocatedTree(a: Pages, b: Pages, f: map<PageId, PageId>, id: PageId, h: nat, m: nat)
    requires Relocated(a, b, f) && id in f && Shaped(a, id, h)
    ensures Shaped(b, f[id], h) && Flat(b, f[id], h) == Flat(a, id, h) && Size(b, f[id]) == Size(a, id)
    ensures WellFormed(a, id, h, m) ==> WellFormed(b, f[id], h, m)
    ensures Filled(a, id, m) ==> Filled(b, f[id], m)
    decreases h
  {
    hide Cuts, Concat, Relocated;
    RelocatedPage(a, b, f, id);
    match a[id]
    case Leaf(_) =>
    case Internal(keys, children) =>
      var copies := b[f[id]].children;
      forall i | 0 <= i < |children|
        ensures Shaped(b, copies[i], h - 1) && Flat(b, copies[i], h - 1) == Flat(a, children[i], h - 1)
        ensures WellFormed(a, children[i], h - 1, m) ==> WellFormed(b, copies[i], h - 1, m)
        ensures Filled(a, children[i], m) ==> Filled(b, copies[i], m)
      {
        RelocatedTree(a, b, f, children[i], h - 1, m);
      }
      assert Parts(b, copies, h - 1) == Parts(a, children, h - 1);
  }

  lemma RelocatedPage(a: Pages, b: Pages, f: map<PageId, PageId>, x: PageId)
    requires Relocated(a, b, f) && x in f
    ensures x in a && f[x] in b && SameUpTo(a[x], b[f[x]], f)
  {
  }

  ghost predicate SoundRoots(pages: Pages, roots: seq<Root>, heights: seq<nat>, m: nat) {
    && |heights| == |roots|
    && forall i :: 0 <= i < |roots| ==> SoundRoot(pages, roots[i], heights[i], m)
  }

  ghost function RootsReach(pages: Pages, roots: seq<Root>, heights: seq<nat>, m: nat): set<PageId>
    requires SoundRoots(pages, roots, heights, m)
  {
    if roots == [] then {}
    else
      var last := |roots| - 1;
      assert SoundRoot(pages, roots[last], heights[last], m);
      RootsReach(pages, roots[..last], heights[..last], m) + RootReach(pages, roots[last], heights[last])
  }

  ghost predicate SameTree(a: Pages, root: Root, b: Pages, copy: Root, h: nat, m: nat)
    requires SoundRoot(a, root, h, m)
  {
    SoundRoot(b, copy, h, m) && Contents(b, copy, h) == Contents(a, root, h)
  }

  lemma RelocatedRoot(a: Pages, b: Pages, f: map<PageId, PageId>, root: Root, h: nat, m: nat)
    requires Relocated(a, b, f) && SoundRoot(a, root, h, m) && (root.Some? ==> root.value in f)
    ensures SameTree(a, root, b, Moved(root, f), h, m)
  {
    hide Relocated, WellFormed, Sorted, Reach;
    if root.Some? {
      RelocatedTree(a, b, f, root.value, h, m);
      RelocatedPage(a, b, f, root.value);
    }
  }

  // The copies of some roots, and a relocation of exactly the pages below them.
  ghost predicate CopiedRoots(pages: Pages, roots: seq<Root>, heights: seq<nat>, m: nat, f: map<PageId, PageId>, copied: seq<Root>)
    requires SoundRoots(pages, roots, heights, m)
  {
    && f.Keys == RootsReach(pages, roots, heights, m) && |copied| == |roots|
    && forall i :: 0 <= i < |roots| ==> (roots[i].Some? ==> roots[i].value in f) && copied[i] == Moved(roots[i], f)
  }

  lemma CopyRootStep(pages: Pages, b: Pages, roots: seq<Root>, heights: seq<nat>, m: nat, f: map<PageId, PageId>,
      f': map<PageId, PageId>, copied: seq<Root>, i: nat)
    requires SoundRoots(pages, roots, heights, m) && i < |roots|
    requires SoundRoot(pages, roots[i], heights[i], m)
    requires CopiedRoots(pages, roots[..i], heights[..i], m, f, copied)
    requires roots[i].Some? ==> roots[i].value in f' && Further(pages, b, f, f', Reach(pages, roots[i].value, heights[i]))
    requires roots[i].None? ==> f' == f
    ensures CopiedRoots(pages, roots[..i + 1], heights[..i + 1], m, f', copied + [Moved(roots[i], f')])
  {
    hide Relocated, WellFormed, Shaped, Reach, Sorted, RootsReach, SoundRoot;
    var rs, hs := roots[..i + 1], heights[..i + 1];
    assert rs[..i] == roots[..i] && hs[..i] == heights[..i];
    RootsReachLast(pages, rs, hs, m);
  }

  lemma NothingCopied(pages: Pages, b: Pages, roots: seq<Root>, heights: seq<nat>, m: nat)
    requires SoundRoots(pages, roots, heights, m)
    ensures Extends(b, b) && Relocated(pages, b, map[])
    ensures SoundRoots(pages, roots[..0], heights[..0], m) && CopiedRoots(pages, roots[..0], heights[..0], m, map[], [])
  {
    hide SoundRoot, Reach;
  }

  lemma ExtendsOn(a: Pages, b: Pages, c: Pages)
    ensures Extends(b, b)
    ensures Extends(a, b) && Extends(b, c) ==> Extends(a, c)
  {
  }

  lemma AllRelocated(pages: Pages, b: Pages, roots: seq<Root>, heights: seq<nat>, m: nat, f: map<PageId, PageId>, copied: seq<Root>)
    requires SoundRoots(pages, roots, heights, m) && Relocated(pages, b, f) && CopiedRoots(pages, roots, heights, m, f, copied)
    ensures |copied| == |roots| && forall i :: 0 <= i < |roots| ==> SameTree(pages, roots[i], b, copied[i], heights[i], m)
  {
    hide Relocated, SoundRoot, SameTree, RootsReach;
    forall i | 0 <= i < |roots| ensures SameTree(pages, roots[i], b, copied[i], heights[i], m) {
      assert SoundRoot(pages, roots[i], heights[i], m);
      RelocatedRoot(pages, b, f, roots[i], heights[i], m);
    }
  }

  lemma RootsReachLast(pages: Pages, roots: seq<Root>, heights: seq<nat>, m: nat)
    requires SoundRoots(pages, roots, heights, m) && roots != []
    ensures var last := |roots| - 1;
      && SoundRoot(pages, roots[last], heights[last], m)
      && RootsReach(pages, roots, heights, m) == RootsReach(pages, roots[..last], heights[..last], m) + RootReach(pages, roots[last], heights[last])
  {
    hide Shaped, Reach, Sorted, WellFormed;
  }

  /** An old root means the same tree after any later writes. */
  lemma OldRootsStand(a: Pages, b: Pages, root: Root, h: nat, m: nat)
    requires Extends(a, b) && SoundRoot(a, root, h, m)
    ensures SoundRoot(b, root, h, m) && Contents(b, root, h) == Contents(a, root, h)
    ensures RootReach(b, root, h) == RootReach(a, root, h)
  {
    hide WellFormed, Flat, Reach, Sorted;
    if root.Some? {
      Stable(a, b, root.value, h, m);
    }
  }
}
