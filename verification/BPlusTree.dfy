// ImmutableBPlusTree (bplus-tree.ts). Pages live in a store that hands out increasing ids; the
// height of a tree is ghost.
module BPlusTree {
  import opened Entries
  import opened PageTrees

  class ImmutableBPlusTree {
    const maxEntries: nat
    var pages: Pages
    var nextId: PageId

    constructor (maxEntries: nat)
      requires maxEntries >= 4
      ensures this.maxEntries == maxEntries && pages == map[] && nextId == 0 && Consistent()
    {
      this.maxEntries := maxEntries;
      pages, nextId := map[], 0;
    }

    ghost predicate Consistent()
      reads this
    {
      maxEntries >= 4 && Ascending(pages, nextId)
    }

    // ---------- binary searches ----------

    static method LowerBound(entries: seq<Entry>, key: Bytes) returns (low: nat)
      requires Sorted(entries)
      ensures low <= |entries| && AllBelow(entries[..low], key) && AllFrom(key, entries[low..])
    {
      hide Less;
      low := 0;
      var high := |entries|;
      while low < high
        invariant 0 <= low <= high <= |entries|
        invariant forall i :: 0 <= i < low ==> Less(entries[i].key, key)
        invariant forall i :: high <= i < |entries| ==> !Less(entries[i].key, key)
      {
        var middle := (low + high) / 2;
        if Less(entries[middle].key, key) {
          forall i | 0 <= i <= middle ensures Less(entries[i].key, key) {
            if i < middle {
              Transitive(entries[i].key, entries[middle].key, key);
            }
          }
          low := middle + 1;
        } else {
          forall i | middle <= i < |entries| ensures !Less(entries[i].key, key) {
            if i > middle && Less(entries[i].key, key) {
              Transitive(entries[middle].key, entries[i].key, key);
            }
          }
          high := middle;
        }
      }
    }

    static method ChildIndex(keys: seq<Bytes>, key: Bytes) returns (low: nat)
      requires forall i, j :: 0 <= i < j < |keys| ==> Less(keys[i], keys[j])
      ensures ChildAt(keys, key, low)
    {
      hide Less;
      low := 0;
      var high := |keys|;
      while low < high
        invariant 0 <= low <= high <= |keys|
        invariant forall i :: 0 <= i < low ==> !Less(key, keys[i])
        invariant forall i :: high <= i < |keys| ==> Less(key, keys[i])
      {
        var middle := (low + high) / 2;
        if !Less(key, keys[middle]) {
          forall i | 0 <= i <= middle ensures !Less(key, keys[i]) {
            if i < middle && Less(key, keys[i]) {
              Transitive(key, keys[i], keys[middle]);
            }
          }
          low := middle + 1;
        } else {
          forall i | middle <= i < |keys| ensures Less(key, keys[i]) {
            if i > middle {
              Transitive(key, keys[middle], keys[i]);
            }
          }
          high := middle;
        }
      }
    }

    // ---------- writing pages ----------

    method WritePage(page: Page) returns (id: PageId)
      requires Consistent() && forall i :: 0 <= i < |ChildrenOf(page)| ==> ChildrenOf(page)[i] in pages
      modifies this`pages, this`nextId
      ensures Consistent() && Extends(old(pages), pages)
      ensures id == old(nextId) && pages == old(pages)[id := page] && nextId == old(nextId) + 1
    {
      id := nextId;
      nextId := nextId + 1;
      pages := pages[id := page];
    }

    method WriteLeaf(entries: seq<Entry>) returns (id: PageId)
      requires Consistent() && |entries| <= maxEntries
      modifies this`pages, this`nextId
      ensures Consistent() && Extends(old(pages), pages) && nextId >= old(nextId)
      ensures Tree(pages, id, 0, maxEntries) && Flat(pages, id, 0) == entries
      ensures pages[id] == Leaf(entries) && Reach(pages, id, 0) == {id} && id >= old(nextId)
    {
      id := WritePage(Leaf(entries));
    }

    method WriteInternal(keys: seq<Bytes>, children: seq<PageId>, ghost h: nat, ghost before: set<PageId>, ghost newFrom: nat) returns (id: PageId)
      requires Consistent() && |keys| <= maxEntries
      requires Kids(pages, keys, children, h, maxEntries)
      requires newFrom <= nextId && OwnedAll(pages, children, h, newFrom, before)
      modifies this`pages, this`nextId
      ensures Consistent() && Extends(old(pages), pages) && nextId >= old(nextId)
      ensures Tree(pages, id, h + 1, maxEntries)
      ensures Flat(pages, id, h + 1) == Concat(Parts(old(pages), children, h))
      ensures pages[id] == Internal(keys, children)
      ensures Owned(pages, id, h + 1, newFrom, before)
    {
      id := WritePage(Internal(keys, children));
      WrittenInternal(old(pages), pages, id, keys, children, h, maxEntries, before, newFrom);
    }

    // ---------- insertion ----------

    // Writes one page, or two halves of it when it has grown too large.
    method WriteSplittingLeaf(entries: seq<Entry>) returns (r: InsertResult)
      requires Consistent() && Sorted(entries) && 1 <= |entries| <= 2 * maxEntries
      modifies this`pages, this`nextId
      ensures Consistent() && Extends(old(pages), pages) && nextId >= old(nextId)
      ensures Inserted(pages, r, 0, maxEntries, entries)
      ensures OwnedResult(pages, r, 0, maxEntries, entries, old(nextId), {})
      ensures r.split.None? ==> pages[r.page] == Leaf(entries)
    {
      hide Less;
      if |entries| <= maxEntries {
        var page := WriteLeaf(entries);
        return InsertResult(page, None);
      }
      var middle := |entries| / 2;
      var left, right := entries[..middle], entries[middle..];
      SortedHalves(entries, middle);
      var leftId := WriteLeaf(left);
      var rightId := WriteLeaf(right);
      assert left + right == entries;
      r := InsertResult(leftId, Some(Split(right[0].key, rightId)));
    }

    method WriteSplittingInternal(keys: seq<Bytes>, children: seq<PageId>, ghost h: nat, ghost before: set<PageId>,
        ghost newFrom: nat) returns (r: InsertResult)
      requires Consistent() && |keys| <= 2 * maxEntries + 1
      requires Kids(pages, keys, children, h, maxEntries)
      requires newFrom <= nextId && OwnedAll(pages, children, h, newFrom, before)
      modifies this`pages, this`nextId
      ensures Consistent() && Extends(old(pages), pages) && nextId >= old(nextId)
      ensures var entries := Concat(Parts(old(pages), children, h));
        && Inserted(pages, r, h + 1, maxEntries, entries)
        && OwnedResult(pages, r, h + 1, maxEntries, entries, newFrom, before)
      ensures r.split.None? ==> r.page in pages && pages[r.page] == Internal(keys, children)
    {
      hide Less, WellFormed, Flat, Cuts, AllBelow, AllFrom, Concat, Reach;
      if |keys| <= maxEntries {
        var page := WriteInternal(keys, children, h, before, newFrom);
        return InsertResult(page, None);
      }
      var middle := |keys| / 2;
      HalfKids(pages, keys, children, h, maxEntries, middle);
      var leftId := WriteInternal(keys[..middle], children[..middle + 1], h, before, newFrom);
      label Left:
      StableKids(old(pages), pages, keys[middle + 1..], children[middle + 1..], h, maxEntries);
      OwnedAllStable(old(pages), pages, children[middle + 1..], h, newFrom, before);
      var rightId := WriteInternal(keys[middle + 1..], children[middle + 1..], h, before, newFrom);
      Stable(old@Left(pages), pages, leftId, h + 1, maxEntries);
      r := InsertResult(leftId, Some(Split(keys[middle], rightId)));
    }

    method Insert(id: Root, key: Bytes, value: Bytes, ghost h: nat) returns (r: InsertResult)
      requires Consistent() && RootTree(pages, id, h, maxEntries)
      modifies this`pages, this`nextId
      ensures Consistent() && Extends(old(pages), pages) && nextId >= old(nextId)
      ensures var entries := Put(Contents(old(pages), id, h), key, value);
        && Inserted(pages, r, h, maxEntries, entries)
        && OwnedResult(pages, r, h, maxEntries, entries, old(nextId), RootReach(old(pages), id, h))
      ensures id.Some? && r.split.None? ==> Size(pages, r.page) >= Size(old(pages), id.value)
      decreases h
    {
      hide Less;
      if id == None {
        var page := WriteLeaf([Entry(key, value)]);
        return InsertResult(page, None);
      }
      match pages[id.value]
      case Leaf(leaf) =>
        var entries := leaf;
        var position := LowerBound(entries, key);
        PutAtPosition(entries, key, value, position);
        PutSorted(entries, key, value);
        if position < |entries| && entries[position].key == key {
          entries := entries[position := Entry(key, value)];
        } else {
          entries := entries[..position] + [Entry(key, value)] + entries[position..];
        }
        r := WriteSplittingLeaf(entries);
      case Internal(keys, children) =>
        r := InsertBelow(id.value, keys, children, key, value, h);
    }

    method InsertBelow(id: PageId, oldKeys: seq<Bytes>, oldChildren: seq<PageId>, key: Bytes, value: Bytes, ghost h: nat)
      returns (r: InsertResult)
      requires Consistent() && RootTree(pages, Some(id), h, maxEntries) && pages[id] == Internal(oldKeys, oldChildren)
      modifies this`pages, this`nextId
      ensures Consistent() && Extends(old(pages), pages) && nextId >= old(nextId)
      ensures var entries := Put(Flat(old(pages), id, h), key, value);
        && Inserted(pages, r, h, maxEntries, entries)
        && OwnedResult(pages, r, h, maxEntries, entries, old(nextId), Reach(old(pages), id, h))
      ensures r.split.None? ==> Size(pages, r.page) >= Size(old(pages), id)
      decreases h, 0
    {
      hide Less, Cuts, WellFormed, Shaped, Filled, Flat, Reach, AllBelow, AllFrom, Concat, Put, Sorted, OwnedAll, Owned;
      OpenInternal(pages, id, h, maxEntries);
      ghost var was, parts, before := pages, Parts(pages, oldChildren, h - 1), Reach(pages, id, h);
      CutsLength(oldKeys, parts);
      var position := ChildIndex(oldKeys, key);
      OpenChild(pages, oldKeys, oldChildren, h - 1, maxEntries, position);
      var child := Insert(Some(oldChildren[position]), key, value, h - 1);
      if child.split == None {
        FilledBySize(was, oldChildren[position], pages, child.page, h - 1, maxEntries);
      }
      KidsAfterInsert(was, pages, oldKeys, oldChildren, h - 1, maxEntries, position, key, value, child);
      OwnedAfterInsert(was, pages, oldKeys, oldChildren, h - 1, maxEntries, position, child,
        Put(parts[position], key, value), old(nextId), before);
      var keys, children := oldKeys, oldChildren[position := child.page];
      if child.split.Some? {
        keys := keys[..position] + [child.split.value.separator] + keys[position..];
        children := children[..position + 1] + [child.split.value.right] + children[position + 1..];
      }
      assert keys == SplicedKeys(oldKeys, position, child) && children == SplicedChildren(oldChildren, position, child);
      r := WriteSplittingInternal(keys, children, h - 1, before, old(nextId));
    }

    // ---------- deletion ----------

    // The least key below a page; no leaf that the loop can reach is empty.
    method FirstKey(id: PageId, ghost h: nat) returns (k: Bytes)
      requires maxEntries >= 4 && Tree(pages, id, h, maxEntries)
      requires h == 0 ==> Flat(pages, id, h) != []
      ensures FirstOf(Flat(pages, id, h)) == Some(k)
    {
      hide Less, Cuts, Concat;
      var current := id;
      ghost var height := h;
      if h > 0 {
        DescendFirst(pages, id, h, maxEntries);
      }
      while true
        invariant Tree(pages, current, height, maxEntries)
        invariant height == 0 ==> Flat(pages, current, height) != []
        invariant FirstOf(Flat(pages, current, height)) == FirstOf(Flat(pages, id, h)) != None
        decreases height
      {
        match pages[current]
        case Leaf(entries) =>
          if entries == [] {
            assert false; // no empty leaf below the root
          }
          return entries[0].key;
        case Internal(keys, children) =>
          DescendFirst(pages, current, height, maxEntries);
          current, height := children[0], height - 1;
      }
    }

    // One page for two neighbours, or two that share their entries evenly.
    method Combine(leftId: PageId, separator: Bytes, rightId: PageId, ghost h: nat, ghost before: set<PageId>,
        ghost newFrom: nat) returns (r: InsertResult)
      requires Consistent() && newFrom <= nextId
      requires Tree(pages, leftId, h, maxEntries) && Tree(pages, rightId, h, maxEntries)
      requires Filled(pages, leftId, maxEntries) || Filled(pages, rightId, maxEntries)
      requires Sorted(Flat(pages, leftId, h) + Flat(pages, rightId, h))
      requires AllBelow(Flat(pages, leftId, h), separator) && AllFrom(separator, Flat(pages, rightId, h))
      requires Owned(pages, leftId, h, newFrom, before) && Owned(pages, rightId, h, newFrom, before)
      modifies this`pages, this`nextId
      ensures Consistent() && Extends(old(pages), pages) && nextId >= old(nextId)
      ensures var entries := Flat(old(pages), leftId, h) + Flat(old(pages), rightId, h);
        && Inserted(pages, r, h, maxEntries, entries)
        && OwnedResult(pages, r, h, maxEntries, entries, newFrom, before)
      ensures r.split == None ==> GoodKid(pages, r.page, h, maxEntries)
    {
      hide Less, Cuts, Concat, AllBelow, AllFrom, Sorted;
      match (pages[leftId], pages[rightId])
      case (Leaf(left), Leaf(right)) =>
        r := WriteSplittingLeaf(left + right);
      case (Internal(leftKeys, leftChildren), Internal(rightKeys, rightChildren)) =>
        OpenInternal(pages, leftId, h, maxEntries);
        OpenInternal(pages, rightId, h, maxEntries);
        JoinKids(pages, leftKeys, leftChildren, separator, rightKeys, rightChildren, h - 1, maxEntries);
        OwnedChildren(pages, leftId, h, newFrom, before);
        OwnedChildren(pages, rightId, h, newFrom, before);
        r := WriteSplittingInternal(leftKeys + [separator] + rightKeys, leftChildren + rightChildren, h - 1, before, newFrom);
      case _ =>
        assert false; // siblings are of the same kind
    }

    method RebalanceChildren(parentKeys: seq<Bytes>, oldChildren: seq<PageId>, childPosition: nat, ghost h: nat,
        ghost before: set<PageId>, ghost newFrom: nat) returns (keys: seq<Bytes>, children: seq<PageId>)
      requires Consistent() && newFrom <= nextId && 0 < |parentKeys| && |oldChildren| == |parentKeys| + 1
      requires childPosition < |oldChildren|
      requires KidsBut(pages, parentKeys, oldChildren, h, maxEntries, childPosition, childPosition)
      requires Sorted(Concat(Parts(pages, oldChildren, h))) && OwnedAll(pages, oldChildren, h, newFrom, before)
      modifies this`pages, this`nextId
      ensures Consistent() && Extends(old(pages), pages) && nextId >= old(nextId)
      ensures Kids(pages, keys, children, h, maxEntries) && |parentKeys| - 1 <= |keys| <= |parentKeys|
      ensures Concat(Parts(pages, children, h)) == Concat(Parts(old(pages), oldChildren, h))
      ensures OwnedAll(pages, children, h, newFrom, before)
    {
      hide Less, WellFormed, Shaped, Flat, Reach, Cuts, Concat, AllBelow, AllFrom, Filled, Owned;
      var l := if childPosition > 0 then childPosition - 1 else childPosition;
      ghost var was, parts := pages, Parts(pages, oldChildren, h);
      SortedPair(parts, l);
      CutsNeighbours(parentKeys, parts, l);
      var written := Combine(oldChildren[l], parentKeys[l], oldChildren[l + 1], h, before, newFrom);
      if written.split == None {
        KidsAfterMerge(was, pages, parentKeys, oldChildren, h, maxEntries, l, written.page);
        keys := parentKeys[..l] + parentKeys[l + 1..];
        children := oldChildren[..l] + [written.page] + oldChildren[l + 2..];
      } else {
        var x, sep, y := written.page, written.split.value.separator, written.split.value.right;
        FilledNotEmpty(pages, x, h, maxEntries);
        FilledNotEmpty(pages, y, h, maxEntries);
        KidsAfterShift(was, pages, parentKeys, oldChildren, h, maxEntries, l, x, sep, y);
        keys := parentKeys[l := sep];
        children := oldChildren[l := x][l + 1 := y];
      }
      OwnedAllFrom(was, pages, oldChildren, children, h, newFrom, before);
    }

    method Remove(id: PageId, key: Bytes, root: bool, ghost h: nat) returns (r: DeleteResult)
      requires Consistent() && RootTree(pages, Some(id), h, maxEntries) && Size(pages, id) > 0
      requires !root ==> Filled(pages, id, maxEntries)
      modifies this`pages, this`nextId
      ensures Consistent() && Extends(old(pages), pages) && nextId >= old(nextId)
      ensures Removed(pages, r, h, maxEntries, root, Del(Flat(old(pages), id, h), key))
      ensures r.changed <==> Find(Flat(old(pages), id, h), key) != None
      ensures !r.changed ==> r.page == id && pages == old(pages) && nextId == old(nextId)
      ensures !r.changed ==> Del(Flat(old(pages), id, h), key) == Flat(old(pages), id, h)
      ensures Owned(pages, r.page, h, old(nextId), Reach(old(pages), id, h))
      decreases h
    {
      hide Less;
      match pages[id]
      case Leaf(leaf) =>
        var entries := leaf;
        var position := LowerBound(entries, key);
        PutAtPosition(entries, key, [], position);
        if position >= |entries| || entries[position].key != key {
          return DeleteResult(id, false, false, FirstOf(entries));
        }
        entries := entries[..position] + entries[position + 1..];
        var page := WriteLeaf(entries);
        r := DeleteResult(page, true, !root && |entries| < (maxEntries + 1) / 2, FirstOf(entries));
      case Internal(keys, children) =>
        r := RemoveBelow(id, keys, children, key, root, h);
    }

    method RemoveBelow(id: PageId, oldKeys: seq<Bytes>, oldChildren: seq<PageId>, key: Bytes, root: bool, ghost h: nat)
      returns (r: DeleteResult)
      requires Consistent() && RootTree(pages, Some(id), h, maxEntries) && pages[id] == Internal(oldKeys, oldChildren)
      requires Size(pages, id) > 0 && (!root ==> Filled(pages, id, maxEntries))
      modifies this`pages, this`nextId
      ensures Consistent() && Extends(old(pages), pages) && nextId >= old(nextId)
      ensures Removed(pages, r, h, maxEntries, root, Del(Flat(old(pages), id, h), key))
      ensures r.changed <==> Find(Flat(old(pages), id, h), key) != None
      ensures !r.changed ==> r.page == id && pages == old(pages) && nextId == old(nextId)
      ensures !r.changed ==> Del(Flat(old(pages), id, h), key) == Flat(old(pages), id, h)
      ensures Owned(pages, r.page, h, old(nextId), Reach(old(pages), id, h))
      decreases h, 0
    {
      hide Less, WellFormed, Shaped, Flat, Reach, Cuts, Concat, AllBelow, AllFrom, Del, Find, Sorted;
      OpenInternal(pages, id, h, maxEntries);
      ghost var was, parts, before := pages, Parts(pages, oldChildren, h - 1), Reach(pages, id, h);
      CutsLength(oldKeys, parts);
      var position := ChildIndex(oldKeys, key);
      OpenChild(pages, oldKeys, oldChildren, h - 1, maxEntries, position);
      RemoveInside(oldKeys, parts, position, key);
      FilledSize(pages, oldChildren[position], h - 1, maxEntries);
      var next := Remove(oldChildren[position], key, false, h - 1);
      if !next.changed {
        var first := FirstKey(id, h);
        return DeleteResult(id, false, false, Some(first));
      }
      r := RemoveAbove(id, oldKeys, oldChildren, key, position, next, root, h, was, old(nextId));
    }

    // Puts a changed child back in place, its separator and its neighbours adjusted.
    method PlaceChild(oldKeys: seq<Bytes>, oldChildren: seq<PageId>, ghost key: Bytes, position: nat, next: DeleteResult,
        ghost h: nat, ghost was: Pages, ghost before: set<PageId>, ghost newFrom: nat)
      returns (keys: seq<Bytes>, children: seq<PageId>)
      requires Consistent() && Extends(was, pages) && newFrom <= nextId
      requires Kids(was, oldKeys, oldChildren, h, maxEntries) && |oldKeys| > 0 && |oldChildren| == |oldKeys| + 1
      requires ChildAt(oldKeys, key, position) && Sorted(Concat(Parts(was, oldChildren, h)))
      requires Removed(pages, next, h, maxEntries, false, Del(Parts(was, oldChildren, h)[position], key))
      requires Owned(pages, next.page, h, newFrom, Reach(was, oldChildren[position], h))
      requires ReachAll(was, oldChildren, h) <= before
      modifies this`pages, this`nextId
      ensures Consistent() && Extends(old(pages), pages) && nextId >= old(nextId)
      ensures Kids(pages, keys, children, h, maxEntries) && |oldKeys| - 1 <= |keys| <= |oldKeys|
      ensures Concat(Parts(pages, children, h)) == Del(Concat(Parts(was, oldChildren, h)), key)
      ensures OwnedAll(pages, children, h, newFrom, before)
    {
      hide Less, WellFormed, Shaped, Flat, Reach, Cuts, Concat, AllBelow, AllFrom, Owned, OwnedAll, Del, Sorted, Filled, NearlyFilled;
      keys, children := oldKeys, oldChildren[position := next.page];
      KidsAfterRemove(was, pages, oldKeys, oldChildren, h, maxEntries, position, key, next.page);
      OwnedAfterRemove(was, pages, oldChildren, h, maxEntries, position, next.page, newFrom, before);
      PutSorted(Concat(Parts(was, oldChildren, h)), key, []);
      if position > 0 && next.firstKey.Some? {
        RekeyKids(pages, keys, children, h, maxEntries, position, next.firstKey.value);
        keys := keys[position - 1 := next.firstKey.value];
      }
      if next.underflow && |children| > 1 {
        keys, children := RebalanceChildren(keys, children, position, h, before, newFrom);
      }
    }

    method RemoveAbove(ghost id: PageId, oldKeys: seq<Bytes>, oldChildren: seq<PageId>, ghost key: Bytes, position: nat,
        next: DeleteResult, root: bool, ghost h: nat, ghost was: Pages, ghost newFrom: nat) returns (r: DeleteResult)
      requires Consistent() && Extends(was, pages) && newFrom <= nextId
      requires RootTree(was, Some(id), h, maxEntries) && was[id] == Internal(oldKeys, oldChildren)
      requires Size(was, id) > 0 && (!root ==> Filled(was, id, maxEntries))
      requires ChildAt(oldKeys, key, position)
      requires Removed(pages, next, h - 1, maxEntries, false, Del(Parts(was, oldChildren, h - 1)[position], key))
      requires Owned(pages, next.page, h - 1, newFrom, Reach(was, oldChildren[position], h - 1))
      modifies this`pages, this`nextId
      ensures Consistent() && Extends(old(pages), pages) && nextId >= old(nextId)
      ensures Removed(pages, r, h, maxEntries, root, Del(Flat(was, id, h), key)) && r.changed
      ensures Owned(pages, r.page, h, newFrom, Reach(was, id, h))
    {
      hide Less, WellFormed, Shaped, Flat, Reach, Cuts, Concat, AllBelow, AllFrom, Owned, OwnedAll, Del, Sorted;
      OpenInternal(was, id, h, maxEntries);
      ghost var before := Reach(was, id, h);
      var keys, children := PlaceChild(oldKeys, oldChildren, key, position, next, h - 1, was, before, newFrom);
      GoodFirst(pages, keys, children, h - 1, maxEntries);
      ghost var rebalanced := pages;
      var written := WriteInternal(keys, children, h - 1, before, newFrom);
      Stable(rebalanced, pages, children[0], h - 1, maxEntries);
      var first := FirstKey(children[0], h - 1);
      r := DeleteResult(written, true, !root && |keys| < maxEntries / 2, Some(first));
    }

    // ---------- whole-tree operations ----------

    method Get(root: Root, key: Bytes, ghost h: nat) returns (value: Option<Bytes>)
      requires maxEntries >= 4 && SoundRoot(pages, root, h, maxEntries)
      ensures value == Find(Contents(pages, root, h), key)
      ensures var m := ToMap(Contents(pages, root, h));
        value == if key in m then Some(m[key]) else None
    {
      hide Less, WellFormed, Shaped, Flat, Reach, Cuts, Concat, AllBelow, AllFrom, Filled, Find, Sorted, Del;
      ToMapKeys(Contents(pages, root, h), key);
      var current := root;
      ghost var height := h;
      while current.Some?
        invariant RootTree(pages, current, height, maxEntries)
        invariant Find(Contents(pages, current, height), key) == Find(Contents(pages, root, h), key)
        invariant current.None? ==> root.None?
        decreases height
      {
        match pages[current.value]
        case Internal(keys, children) =>
          OpenInternal(pages, current.value, height, maxEntries);
          ghost var parts := Parts(pages, children, height - 1);
          CutsLength(keys, parts);
          var position := ChildIndex(keys, key);
          OpenChild(pages, keys, children, height - 1, maxEntries, position);
          RemoveInside(keys, parts, position, key);
          current, height := Some(children[position]), height - 1;
        case Leaf(entries) =>
          LeafFlat(pages, current.value, height);
          var position := LowerBound(entries, key);
          PutAtPosition(entries, key, [], position);
          return if position < |entries| && entries[position].key == key then Some(entries[position].value) else None;
      }
      value := None;
    }

    method PutOne(root: Root, key: Bytes, value: Bytes, ghost h: nat) returns (current: Root, ghost height: nat)
      requires Consistent() && SoundRoot(pages, root, h, maxEntries)
      modifies this`pages, this`nextId
      ensures Consistent() && Extends(old(pages), pages) && nextId >= old(nextId)
      ensures SoundRoot(pages, current, height, maxEntries)
      ensures Contents(pages, current, height) == Put(Contents(old(pages), root, h), key, value)
      ensures OwnedRoot(pages, current, height, old(nextId), RootReach(old(pages), root, h))
    {
      hide Less, WellFormed, Shaped, Flat, Reach, Cuts, Concat, AllBelow, AllFrom, Filled, Put;
      ghost var entries := Put(Contents(pages, root, h), key, value);
      PutSorted(Contents(pages, root, h), key, value);
      var result := Insert(root, key, value, h);
      height := h;
      if result.split == None {
        current := Some(result.page);
        PutNotEmpty(Contents(old(pages), root, h), key, value);
        SizeOfFlat(pages, result.page, h);
      } else {
        var children := [result.page, result.split.value.right];
        PairKids(pages, result, h, maxEntries, entries);
        var page := WriteInternal([result.split.value.separator], children, h, RootReach(old(pages), root, h), old(nextId));
        current, height := Some(page), h + 1;
      }
    }

    method DeleteOne(root: PageId, key: Bytes, ghost h: nat) returns (current: Root, ghost height: nat)
      requires Consistent() && SoundRoot(pages, Some(root), h, maxEntries)
      modifies this`pages, this`nextId
      ensures Consistent() && Extends(old(pages), pages) && nextId >= old(nextId)
      ensures SoundRoot(pages, current, height, maxEntries)
      ensures Contents(pages, current, height) == Del(Flat(old(pages), root, h), key)
      ensures OwnedRoot(pages, current, height, old(nextId), Reach(old(pages), root, h))
      ensures Find(Flat(old(pages), root, h), key) == None ==> current == Some(root) && height == h && pages == old(pages) && nextId == old(nextId)
    {
      hide Less, WellFormed, Shaped, Flat, Reach, Cuts, Concat, AllBelow, AllFrom, Filled, NearlyFilled, Del, Find, Sorted;
      PutSorted(Flat(pages, root, h), key, []);
      var removed := Remove(root, key, true, h);
      current, height := Some(root), h;
      if removed.changed {
        var page := pages[removed.page];
        if page.Leaf? && |page.entries| == 0 {
          LeafFlat(pages, removed.page, h);
          current, height := None, 0;
        } else if page.Internal? && |page.children| == 1 {
          OnlyChild(pages, removed.page, h, maxEntries);
          current, height := Some(page.children[0]), h - 1;
        } else {
          OpenSize(pages, removed.page, h);
          current := Some(removed.page);
        }
      }
    }

    /** The fold of all mutations; changes that find nothing to delete return the root itself. */
    method Mutate(root: Root, mutations: seq<Mutation>, ghost h: nat) returns (current: Root, ghost height: nat)
      requires Consistent() && SoundRoot(pages, root, h, maxEntries)
      modifies this`pages, this`nextId
      ensures Consistent() && Extends(old(pages), pages) && nextId >= old(nextId)
      ensures SoundRoot(pages, current, height, maxEntries)
      ensures Contents(pages, current, height) == Mutated(Contents(old(pages), root, h), mutations)
      ensures OwnedRoot(pages, current, height, old(nextId), RootReach(old(pages), root, h))
      ensures Absent(Contents(old(pages), root, h), mutations) ==> current == root && pages == old(pages)
    {
      hide Less, WellFormed, Shaped, Flat, Reach, Cuts, Concat, AllBelow, AllFrom, Filled, Put, Sorted;
      current, height := root, h;
      ghost var was := Contents(pages, root, h);
      for i := 0 to |mutations|
        invariant Consistent() && Extends(old(pages), pages) && nextId >= old(nextId)
        invariant SoundRoot(pages, current, height, maxEntries)
        invariant Contents(pages, current, height) == Mutated(was, mutations[..i])
        invariant OwnedRoot(pages, current, height, old(nextId), RootReach(old(pages), root, h))
        invariant Absent(was, mutations[..i]) ==> current == root && height == h && pages == old(pages)
      {
        assert mutations[..i + 1][..i] == mutations[..i];
        match mutations[i]
        case PutEntry(key, value) =>
          current, height := PutOne(current, key, value, height);
        case DeleteKey(key) =>
          if current.Some? {
            current, height := DeleteOne(current.value, key, height);
          }
      }
      assert mutations[..|mutations|] == mutations;
    }

    // ---------- scanning ----------

    method Walk(id: PageId, reverse: bool, ghost h: nat) returns (entries: seq<Entry>)
      requires Shaped(pages, id, h)
      ensures entries == Directed(Flat(pages, id, h), reverse)
      decreases h, 0
    {
      match pages[id]
      case Leaf(own) =>
        entries := Directed(own, reverse);
      case Internal(_, own) =>
        entries := WalkChildren(own, reverse, h - 1);
    }

    method WalkChildren(own: seq<PageId>, reverse: bool, ghost h: nat) returns (entries: seq<Entry>)
      requires AllShaped(pages, own, h)
      ensures entries == Directed(Concat(Parts(pages, own, h)), reverse)
      decreases h, 1
    {
      hide Shaped, Flat, Concat, Directed, Met;
      var children := Directed(own, reverse);
      ghost var parts := Parts(pages, own, h);
      DirectedAt(own, reverse);
      WalkEnds(parts, reverse);
      entries := [];
      for i := 0 to |children|
        invariant entries == Directed(Met(parts, i, reverse), reverse)
      {
        WalkStep(parts, i, reverse);
        var below := Walk(children[i], reverse, h);
        entries := entries + below;
      }
    }

    // The entries in range, in key order or against it, up to a limit.
    method Scan(root: Root, range: TreeRange, reverse: bool, limit: Option<nat>, ghost h: nat) returns (entries: seq<Entry>)
      requires root.Some? ==> Shaped(pages, root.value, h)
      ensures entries == UpTo(InRange(Directed(Contents(pages, root, h), reverse), range), limit)
    {
      hide Shaped, Flat, Directed, InRange;
      if root == None || limit == Some(0) {
        InRangeEmpty(Contents(pages, root, h), reverse, range);
        return [];
      }
      var walked := Walk(root.value, reverse, h);
      entries := [];
      InRangeEmpty([], false, range);
      assert walked[..0] == [];
      for i := 0 to |walked|
        invariant entries == InRange(walked[..i], range)
        invariant limit.Some? ==> |entries| < limit.value
      {
        InRangeStep(walked, i, range);
        if range.Contains(walked[i].key) {
          entries := entries + [walked[i]];
          if limit.Some? && |entries| >= limit.value {
            InRangePrefix(walked, i + 1, range);
            return;
          }
        }
      }
      assert walked[..|walked|] == walked;
    }

    // ---------- copying to another tree ----------

    method Copy(id: PageId, target: ImmutableBPlusTree, relocated: map<PageId, PageId>, ghost h: nat)
      returns (moved: map<PageId, PageId>)
      requires target != this && target.Consistent() && Shaped(pages, id, h)
      requires Relocated(pages, target.pages, relocated)
      modifies target`pages, target`nextId
      ensures target.Consistent() && Extends(old(target.pages), target.pages)
      ensures old(Gapless(target.pages, target.nextId)) ==> Gapless(target.pages, target.nextId)
      ensures Further(pages, target.pages, relocated, moved, Reach(pages, id, h)) && id in moved
      decreases h, 0
    {
      hide Relocated, Reach, Renamed;
      ReachChildren(pages, id, h);
      if id in relocated {
        RelocatedReach(pages, target.pages, relocated, id, h);
        return relocated;
      }
      var page := pages[id];
      moved := relocated;
      if page.Internal? {
        var copies;
        moved, copies := CopyChildren(page.children, target, relocated, h - 1);
        NotBelowItself(pages, id, h);
        SameChildren(page, moved, copies);
        CopiesPresent(pages, target.pages, moved, page.children, copies);
        page := Internal(page.keys, copies);
      }
      ghost var was := target.pages;
      var written := target.WritePage(page);
      RelocateOne(pages, was, target.pages, moved, id, written);
      moved := moved[id := written];
    }

    method CopyChildren(children: seq<PageId>, target: ImmutableBPlusTree, relocated: map<PageId, PageId>, ghost h: nat)
      returns (moved: map<PageId, PageId>, copies: seq<PageId>)
      requires target != this && target.Consistent() && AllShaped(pages, children, h)
      requires Relocated(pages, target.pages, relocated)
      modifies target`pages, target`nextId
      ensures target.Consistent() && Extends(old(target.pages), target.pages)
      ensures old(Gapless(target.pages, target.nextId)) ==> Gapless(target.pages, target.nextId)
      ensures Further(pages, target.pages, relocated, moved, ReachAll(pages, children, h)) && Renamed(children, moved, copies)
      decreases h, 1
    {
      moved := relocated;
      copies := [];
      for i := 0 to |children|
        invariant target.Consistent() && Extends(old(target.pages), target.pages)
        invariant old(Gapless(target.pages, target.nextId)) ==> Gapless(target.pages, target.nextId)
        invariant Further(pages, target.pages, relocated, moved, ReachAll(pages, children[..i], h))
        invariant Renamed(children[..i], moved, copies)
      {
        hide Relocated, Reach, Shaped, ReachAll;
        ghost var was := target.pages;
        var next := Copy(children[i], target, moved, h);
        CopyStep(pages, was, relocated, moved, target.pages, next, children, copies, i, h);
        moved := next;
        copies := copies + [moved[children[i]]];
      }
      assert children[..|children|] == children;
    }

    /** Every root's tree is copied, and nothing else; trees that shared pages still share them. */
    method CopyRootsTo(roots: seq<Root>, target: ImmutableBPlusTree, ghost heights: seq<nat>)
      returns (copied: seq<Root>, pagesCopied: nat, ghost relocated: map<PageId, PageId>)
      requires target != this && target.Consistent() && SoundRoots(pages, roots, heights, maxEntries)
      modifies target`pages, target`nextId
      ensures target.Consistent() && Extends(old(target.pages), target.pages) && |copied| == |roots|
      ensures old(Gapless(target.pages, target.nextId)) ==> Gapless(target.pages, target.nextId)
      ensures Relocated(pages, target.pages, relocated) && pagesCopied == |relocated|
      ensures CopiedRoots(pages, roots, heights, maxEntries, relocated, copied)
      ensures forall i :: 0 <= i < |roots| ==> SameTree(pages, roots[i], target.pages, copied[i], heights[i], maxEntries)
    {
      hide Gapless, Ascending, Relocated, CopiedRoots, Extends, SameTree, WellFormed, Shaped, Reach, Sorted;
      var so: map<PageId, PageId> := map[];
      copied := [];
      NothingCopied(pages, target.pages, roots, heights, maxEntries);
      for i := 0 to |roots|
        invariant target.Consistent() && Extends(old(target.pages), target.pages)
        invariant old(Gapless(target.pages, target.nextId)) ==> Gapless(target.pages, target.nextId)
        invariant |copied| == i && Relocated(pages, target.pages, so)
        invariant CopiedRoots(pages, roots[..i], heights[..i], maxEntries, so, copied)
      {
        assert SoundRoot(pages, roots[i], heights[i], maxEntries);
        ghost var were := target.pages;
        var more := so;
        if roots[i].Some? {
          more := Copy(roots[i].value, target, so, heights[i]);
        }
        ExtendsOn(old(target.pages), were, target.pages);
        CopyRootStep(pages, target.pages, roots, heights, maxEntries, so, more, copied, i);
        so := more;
        copied := copied + [if roots[i].Some? then Some(so[roots[i].value]) else None];
      }
      assert roots[..|roots|] == roots && heights[..|roots|] == heights;
      relocated, pagesCopied := so, |so|;
      AllRelocated(pages, target.pages, roots, heights, maxEntries, relocated, copied);
    }
  }
}
