// The arrangement of a join side, in memory or spilled by partition (spill-arrangement.ts).
module SpillArrangement {
  import opened SpillRuns

  // A change with the key of its value.
  datatype Entry<T> = Entry(key: string, id: string, value: T, diff: int)

  datatype Item<T> = Item(key: string, id: string, value: T)

  function KeyOf<T>(e: Entry<T>): string {
    e.key
  }

  function ItemOf<T>(e: Entry<T>): Item<T> {
    Item(e.key, e.id, e.value)
  }

  // ---------- JavaScript maps and sets: insertion order, replacement in place ----------

  function Put<T>(items: seq<Item<T>>, item: Item<T>): seq<Item<T>> {
    if items == [] then [item]
    else if items[0].id == item.id then [item] + items[1..]
    else [items[0]] + Put(items[1..], item)
  }

  function Remove<T>(items: seq<Item<T>>, id: string): seq<Item<T>> {
    if items == [] then []
    else if items[0].id == id then Remove(items[1..], id)
    else [items[0]] + Remove(items[1..], id)
  }

  function Change<T>(items: seq<Item<T>>, e: Entry<T>): seq<Item<T>> {
    if e.diff < 0 then Remove(items, e.id) else Put(items, ItemOf(e))
  }

  function AddId(ids: seq<string>, id: string): seq<string> {
    if id in ids then ids else ids + [id]
  }

  function DropId(ids: seq<string>, id: string): seq<string> {
    if ids == [] then []
    else if ids[0] == id then DropId(ids[1..], id)
    else [ids[0]] + DropId(ids[1..], id)
  }

  function Ids<T>(items: seq<Item<T>>): (ids: seq<string>)
    ensures |ids| == |items|
  {
    seq(|items|, i requires 0 <= i < |items| => items[i].id)
  }

  ghost predicate Distinct<T>(items: seq<Item<T>>) {
    forall i, j :: 0 <= i < j < |items| ==> items[i].id != items[j].id
  }

  // The value of an id, if it has one.
  function Find<T>(items: seq<Item<T>>, id: string): seq<Item<T>> {
    if items == [] then []
    else if items[0].id == id then [items[0]]
    else Find(items[1..], id)
  }

  // ---------- the two forms, over a whole history ----------

  function Replay<T>(history: seq<Entry<T>>): seq<Item<T>> {
    if history == [] then [] else Change(Replay(history[..|history| - 1]), history[|history| - 1])
  }

  // The never-spilled form: the ids of a key's bucket.
  function BucketIds<T>(history: seq<Entry<T>>, k: string): seq<string> {
    if history == [] then []
    else
      ChangedBucket(BucketIds(history[..|history| - 1], k), history[|history| - 1], k)
  }

  function ChangedBucket<T>(ids: seq<string>, e: Entry<T>, k: string): seq<string> {
    if e.key != k then ids
    else if e.diff < 0 then DropId(ids, e.id)
    else AddId(ids, e.id)
  }

  // Each id of the bucket with its current record, if there is one.
  function Gathered<T>(records: seq<Item<T>>, ids: seq<string>): seq<Item<T>> {
    if ids == [] then [] else Gathered(records, ids[..|ids| - 1]) + Find(records, ids[|ids| - 1])
  }

  function MemoryLookup<T>(history: seq<Entry<T>>, k: string): seq<Item<T>> {
    Gathered(Replay(history), BucketIds(history, k))
  }

  // The spilled form: the replayed log of one key.
  function LogLookup<T>(history: seq<Entry<T>>, k: string): seq<Item<T>> {
    Replay(OfKey(history, KeyOf, k))
  }

  // What both should give: the live items of a key.
  function Matching<T>(items: seq<Item<T>>, k: string): seq<Item<T>> {
    if items == [] then []
    else if items[0].key == k then [items[0]] + Matching(items[1..], k)
    else Matching(items[1..], k)
  }

  // A change to an id that is present carries the key it has.
  ghost predicate Carries<T>(items: seq<Item<T>>, e: Entry<T>) {
    forall i :: 0 <= i < |items| && items[i].id == e.id ==> items[i].key == e.key
  }

  ghost predicate Disciplined<T>(history: seq<Entry<T>>) {
    forall n :: 0 <= n < |history| ==> Carries(Replay(history[..n]), history[n])
  }

  // ---------- changes to lists without repeated ids ----------

  lemma DistinctCons<T(!new)>(x: Item<T>, rest: seq<Item<T>>)
    requires Distinct(rest) && forall y :: y in rest ==> y.id != x.id
    ensures Distinct([x] + rest)
  {
  }

  lemma DistinctParts<T(!new)>(items: seq<Item<T>>)
    requires Distinct(items) && items != []
    ensures Distinct(items[1..]) && forall y :: y in items[1..] ==> y.id != items[0].id
  {
  }

  lemma {:induction false} RemoveIs<T(!new)>(items: seq<Item<T>>, id: string)
    requires Distinct(items)
    ensures forall x :: x in Remove(items, id) <==> x in items && x.id != id
    ensures Distinct(Remove(items, id))
  {
    if items != [] {
      assert items == [items[0]] + items[1..];
      DistinctParts(items);
      RemoveIs(items[1..], id);
      var rest := Remove(items[1..], id);
      forall y | y in rest ensures y.id != items[0].id {
        assert y in items[1..];
      }
      DistinctCons(items[0], rest);
    }
  }

  lemma {:induction false} PutIs<T(!new)>(items: seq<Item<T>>, item: Item<T>)
    requires Distinct(items)
    ensures forall x :: x in Put(items, item) <==> x == item || (x in items && x.id != item.id)
    ensures Distinct(Put(items, item))
  {
    if items != [] {
      assert items == [items[0]] + items[1..];
      DistinctParts(items);
      if items[0].id == item.id {
        DistinctCons(item, items[1..]);
      } else {
        PutIs(items[1..], item);
        var rest := Put(items[1..], item);
        forall y | y in rest ensures y.id != items[0].id {
          assert y == item || y in items[1..];
        }
        DistinctCons(items[0], rest);
      }
    }
  }

  lemma {:induction false} ReplayDistinct<T(!new)>(history: seq<Entry<T>>)
    ensures Distinct(Replay(history))
  {
    if history != [] {
      var before, e := Replay(history[..|history| - 1]), history[|history| - 1];
      ReplayDistinct(history[..|history| - 1]);
      PutIs(before, ItemOf(e));
      RemoveIs(before, e.id);
    }
  }

  // The last change of the id, if there is one.
  function LastOf<T>(history: seq<Entry<T>>, id: string): (n: int)
    ensures -1 <= n < |history| && (n >= 0 ==> history[n].id == id)
    ensures forall k :: n < k < |history| ==> history[k].id != id
  {
    if history == [] then -1
    else if history[|history| - 1].id == id then |history| - 1
    else LastOf(history[..|history| - 1], id)
  }

  /** An item is live exactly if the last change of its id put it there. */
  lemma {:induction false} ReplayMeans<T(!new)>(history: seq<Entry<T>>, x: Item<T>)
    ensures x in Replay(history) <==>
      var n := LastOf(history, x.id);
      n >= 0 && history[n].diff >= 0 && history[n].key == x.key && history[n].value == x.value
  {
    if history != [] {
      var init, e := history[..|history| - 1], history[|history| - 1];
      ReplayMeans(init, x);
      ReplayDistinct(init);
      PutIs(Replay(init), ItemOf(e));
      RemoveIs(Replay(init), e.id);
    }
  }

  // The change since which the id is live, if it is.
  function Born<T>(history: seq<Entry<T>>, id: string): (n: int)
    ensures -1 <= n < |history| && (n >= 0 ==> history[n].id == id && history[n].diff >= 0)
  {
    if history == [] then -1
    else
      var init, e := history[..|history| - 1], history[|history| - 1];
      if e.id != id then Born(init, id)
      else if e.diff < 0 then -1
      else if Born(init, id) < 0 then |history| - 1
      else Born(init, id)
  }

  lemma {:induction false} DropIdKeeps(ids: seq<string>, id: string, f: string -> int)
    requires forall i, j :: 0 <= i < j < |ids| ==> f(ids[i]) < f(ids[j])
    ensures forall i, j :: 0 <= i < j < |DropId(ids, id)| ==> f(DropId(ids, id)[i]) < f(DropId(ids, id)[j])
    ensures forall x :: x in DropId(ids, id) <==> x in ids && x != id
  {
    if ids != [] {
      DropIdKeeps(ids[1..], id, f);
      if ids[0] != id {
        assert forall x :: x in DropId(ids[1..], id) ==> f(ids[0]) < f(x);
        assert forall j :: 0 < j < |DropId(ids, id)| ==> DropId(ids, id)[j] == DropId(ids[1..], id)[j - 1] && DropId(ids, id)[j] in DropId(ids[1..], id);
      }
    }
  }

  // The ids are those that are live, in the order in which they came to life.
  ghost predicate InBirthOrder<T>(history: seq<Entry<T>>, ids: seq<string>) {
    && (forall id :: id in ids <==> Born(history, id) >= 0)
    && (forall i, j :: 0 <= i < j < |ids| ==> Born(history, ids[i]) < Born(history, ids[j]))
  }

  lemma BornLater<T>(history: seq<Entry<T>>, id: string)
    requires history != []
    ensures var init, e := history[..|history| - 1], history[|history| - 1];
      Born(history, id) == if e.id != id then Born(init, id) else if e.diff < 0 then -1 else if Born(init, id) < 0 then |init| else Born(init, id)
  {
  }

  lemma BirthStep<T>(history: seq<Entry<T>>, ids: seq<string>)
    requires history != [] && InBirthOrder(history[..|history| - 1], ids)
    ensures var e := history[|history| - 1];
      InBirthOrder(history, if e.diff < 0 then DropId(ids, e.id) else AddId(ids, e.id))
  {
    hide Born;
    var init, e := history[..|history| - 1], history[|history| - 1];
    forall id ensures Born(history, id) == if e.id != id then Born(init, id) else if e.diff < 0 then -1 else if Born(init, id) < 0 then |init| else Born(init, id) {
      BornLater(history, id);
    }
    if e.diff < 0 {
      DropIdKeeps(ids, e.id, id => Born(init, id));
      assert forall x :: x in DropId(ids, e.id) ==> Born(history, x) == Born(init, x);
    } else {
      assert forall x :: x in ids ==> Born(history, x) == Born(init, x);
    }
  }

  /** Live items come in the order in which their ids came to life: a replaced item keeps its place. */
  lemma {:induction false} ReplayOrder<T(!new)>(history: seq<Entry<T>>)
    ensures InBirthOrder(history, Ids(Replay(history)))
  {
    if history != [] {
      var init, e := history[..|history| - 1], history[|history| - 1];
      ReplayOrder(init);
      BirthStep(history, Ids(Replay(init)));
      IdsOfPut(Replay(init), ItemOf(e));
      IdsOfRemove(Replay(init), e.id);
    }
  }

  lemma CarriesTail<T(!new)>(items: seq<Item<T>>, e: Entry<T>)
    requires items != [] && Carries(items, e)
    ensures Carries(items[1..], e) && (items[0].id == e.id ==> items[0].key == e.key)
  {
  }

  lemma MatchingCons<T(!new)>(x: Item<T>, rest: seq<Item<T>>, k: string)
    ensures Matching([x] + rest, k) == if x.key == k then [x] + Matching(rest, k) else Matching(rest, k)
  {
    assert ([x] + rest)[1..] == rest;
  }

  lemma RemoveCons<T(!new)>(x: Item<T>, rest: seq<Item<T>>, id: string)
    ensures Remove([x] + rest, id) == if x.id == id then Remove(rest, id) else [x] + Remove(rest, id)
  {
    assert ([x] + rest)[1..] == rest;
  }

  lemma PutCons<T(!new)>(x: Item<T>, rest: seq<Item<T>>, item: Item<T>)
    ensures Put([x] + rest, item) == if x.id == item.id then [item] + rest else [x] + Put(rest, item)
  {
    assert ([x] + rest)[1..] == rest;
  }

  lemma {:induction false} RemoveMatching<T(!new)>(items: seq<Item<T>>, e: Entry<T>, k: string)
    requires Carries(items, e)
    ensures Matching(Remove(items, e.id), k) == if e.key == k then Remove(Matching(items, k), e.id) else Matching(items, k)
  {
    hide Carries;
    if items != [] {
      CarriesTail(items, e);
      RemoveMatching(items[1..], e, k);
      MatchingCons(items[0], Remove(items[1..], e.id), k);
      RemoveCons(items[0], Matching(items[1..], k), e.id);
    }
  }

  lemma {:induction false} PutMatching<T(!new)>(items: seq<Item<T>>, e: Entry<T>, k: string)
    requires Carries(items, e)
    ensures Matching(Put(items, ItemOf(e)), k) == if e.key == k then Put(Matching(items, k), ItemOf(e)) else Matching(items, k)
  {
    hide Carries;
    if items == [] {
      MatchingCons(ItemOf(e), [], k);
      assert [ItemOf(e)] + [] == [ItemOf(e)];
    } else {
      CarriesTail(items, e);
      PutMatching(items[1..], e, k);
      MatchingCons(ItemOf(e), items[1..], k);
      MatchingCons(items[0], Put(items[1..], ItemOf(e)), k);
      PutCons(items[0], Matching(items[1..], k), ItemOf(e));
    }
  }

  /** A disciplined change touches its own key's items and no others. */
  lemma ChangeMatching<T(!new)>(items: seq<Item<T>>, e: Entry<T>, k: string)
    requires Carries(items, e)
    ensures Matching(Change(items, e), k) == if e.key == k then Change(Matching(items, k), e) else Matching(items, k)
  {
    if e.diff < 0 {
      RemoveMatching(items, e, k);
    } else {
      PutMatching(items, e, k);
    }
  }

  /** The log of a key replays to the key's live items. */
  lemma {:induction false} LogIsMatching<T(!new)>(history: seq<Entry<T>>, k: string)
    requires Disciplined(history)
    ensures LogLookup(history, k) == Matching(Replay(history), k)
  {
    if history != [] {
      var init, e := history[..|history| - 1], history[|history| - 1];
      DisciplinedInit(history);
      LogIsMatching(init, k);
      ChangeMatching(Replay(init), e, k);
      LogStep(init, e, k);
    }
  }

  lemma LogStep<T(!new)>(init: seq<Entry<T>>, e: Entry<T>, k: string)
    ensures LogLookup(init + [e], k) == if e.key == k then Change(LogLookup(init, k), e) else LogLookup(init, k)
  {
    assert (init + [e])[..|init|] == init;
    var log := OfKey(init, KeyOf, k);
    assert (log + [e])[..|log|] == log && log + [] == log;
  }

  lemma DisciplinedInit<T(!new)>(history: seq<Entry<T>>)
    requires Disciplined(history) && history != []
    ensures Disciplined(history[..|history| - 1]) && Carries(Replay(history[..|history| - 1]), history[|history| - 1])
  {
    var init := history[..|history| - 1];
    forall n | 0 <= n < |init| ensures Carries(Replay(init[..n]), init[n]) {
      assert init[..n] == history[..n];
    }
  }

  // ---------- the bucket form ----------

  // The bucket of a key lists the ids of its live items, in order.
  lemma {:induction false} BucketIsMatching<T(!new)>(history: seq<Entry<T>>, k: string)
    requires Disciplined(history)
    ensures BucketIds(history, k) == Ids(Matching(Replay(history), k))
  {
    if history != [] {
      var init, e := history[..|history| - 1], history[|history| - 1];
      DisciplinedInit(history);
      BucketIsMatching(init, k);
      ChangeMatching(Replay(init), e, k);
      IdsOfPut(Matching(Replay(init), k), ItemOf(e));
      IdsOfRemove(Matching(Replay(init), k), e.id);
    }
  }

  lemma IdsCons<T(!new)>(x: Item<T>, rest: seq<Item<T>>)
    ensures Ids([x] + rest) == [x.id] + Ids(rest)
  {
  }

  lemma {:induction false} IdsOfRemove<T(!new)>(items: seq<Item<T>>, id: string)
    ensures Ids(Remove(items, id)) == DropId(Ids(items), id)
  {
    if items != [] {
      IdsOfRemove(items[1..], id);
      assert Ids(items)[1..] == Ids(items[1..]);
      IdsCons(items[0], Remove(items[1..], id));
    }
  }

  lemma {:induction false} IdsOfPut<T(!new)>(items: seq<Item<T>>, item: Item<T>)
    ensures Ids(Put(items, item)) == AddId(Ids(items), item.id)
  {
    if items != [] {
      IdsOfPut(items[1..], item);
      assert Ids(items) == [items[0].id] + Ids(items[1..]);
      IdsCons(items[0], Put(items[1..], item));
      IdsCons(item, items[1..]);
    }
  }

  // Gathering the ids of live items gives the items.
  lemma {:induction false} GatheredIs<T(!new)>(records: seq<Item<T>>, items: seq<Item<T>>)
    requires Distinct(records) && forall x :: x in items ==> x in records
    ensures Gathered(records, Ids(items)) == items
  {
    if items != [] {
      var init, last := items[..|items| - 1], items[|items| - 1];
      GatheredIs(records, init);
      assert Ids(items)[..|items| - 1] == Ids(init);
      FindIs(records, last);
    }
  }

  lemma {:induction false} FindIs<T(!new)>(records: seq<Item<T>>, x: Item<T>)
    requires Distinct(records) && x in records
    ensures Find(records, x.id) == [x]
  {
    assert records == [records[0]] + records[1..];
    DistinctParts(records);
    if records[0] != x {
      FindIs(records[1..], x);
    }
  }

  lemma {:induction false} MatchingFrom<T(!new)>(items: seq<Item<T>>, k: string)
    ensures forall x :: x in Matching(items, k) <==> x in items && x.key == k
  {
    if items != [] {
      assert items == [items[0]] + items[1..];
      MatchingFrom(items[1..], k);
    }
  }

  /** In memory, a lookup gives the key's live items. */
  lemma MemoryIsMatching<T(!new)>(history: seq<Entry<T>>, k: string)
    requires Disciplined(history)
    ensures MemoryLookup(history, k) == Matching(Replay(history), k)
  {
    hide Distinct, Disciplined;
    BucketIsMatching(history, k);
    ReplayDistinct(history);
    MatchingFrom(Replay(history), k);
    var items := Matching(Replay(history), k);
    forall x | x in items ensures x in Replay(history) {
    }
    GatheredIs(Replay(history), Matching(Replay(history), k));
  }

  /** The two forms agree on every key at every moment exactly if every change carries the key of what it changes. */
  lemma FormsAgreeExactly<T(!new)>(history: seq<Entry<T>>)
    ensures Disciplined(history) <==> forall n, k :: 0 <= n <= |history| ==> MemoryLookup(history[..n], k) == LogLookup(history[..n], k)
  {
    hide MemoryLookup, LogLookup;
    if Disciplined(history) {
      forall n, k | 0 <= n <= |history| ensures MemoryLookup(history[..n], k) == LogLookup(history[..n], k) {
        DisciplinedPrefix(history, n);
        MemoryIsMatching(history[..n], k);
        LogIsMatching(history[..n], k);
      }
    } else {
      assert history[..|history|] == history;
      var n := FirstBreach(history, |history|);
      var i := BreachedItem(Replay(history[..n]), history[n]);
      BreachShows(history[..n], history[n], i);
      assert history[..n + 1] == history[..n] + [history[n]];
    }
  }

  lemma DisciplinedPrefix<T(!new)>(history: seq<Entry<T>>, n: nat)
    requires Disciplined(history) && n <= |history|
    ensures Disciplined(history[..n])
  {
    forall m | 0 <= m < n ensures Carries(Replay(history[..n][..m]), history[..n][m]) {
      assert history[..n][..m] == history[..m];
    }
  }

  lemma {:induction false} FirstBreach<T(!new)>(history: seq<Entry<T>>, upTo: nat) returns (n: nat)
    requires upTo <= |history| && !Disciplined(history[..upTo])
    ensures n < upTo && Disciplined(history[..n]) && !Carries(Replay(history[..n]), history[n])
  {
    var m :| 0 <= m < upTo && !Carries(Replay(history[..upTo][..m]), history[..upTo][m]);
    assert history[..upTo][..m] == history[..m];
    if Disciplined(history[..m]) {
      n := m;
    } else {
      n := FirstBreach(history, m);
    }
  }

  lemma BreachedItem<T(!new)>(items: seq<Item<T>>, e: Entry<T>) returns (i: nat)
    requires !Carries(items, e)
    ensures i < |items| && items[i].id == e.id && items[i].key != e.key
  {
    i :| 0 <= i < |items| && items[i].id == e.id && items[i].key != e.key;
  }

  // After the first breach, the log still shows the old item under its old key; memory does not.
  lemma BreachShows<T(!new)>(history: seq<Entry<T>>, e: Entry<T>, i: nat)
    requires Disciplined(history) && i < |Replay(history)| && Replay(history)[i].id == e.id && Replay(history)[i].key != e.key
    ensures var k := Replay(history)[i].key; MemoryLookup(history + [e], k) != LogLookup(history + [e], k)
  {
    var x := Replay(history)[i];
    LogKeeps(history, e, x);
    MemoryLoses(history, e, x);
  }

  lemma LogKeeps<T(!new)>(history: seq<Entry<T>>, e: Entry<T>, x: Item<T>)
    requires Disciplined(history) && x in Replay(history) && x.key != e.key
    ensures x in LogLookup(history + [e], x.key)
  {
    hide Replay, Disciplined;
    LogIsMatching(history, x.key);
    LogStep(history, e, x.key);
    MatchingFrom(Replay(history), x.key);
  }

  lemma MemoryLoses<T(!new)>(history: seq<Entry<T>>, e: Entry<T>, x: Item<T>)
    requires x in Replay(history) && x.id == e.id && x.key != e.key
    ensures x !in MemoryLookup(history + [e], x.key)
  {
    assert (history + [e])[..|history|] == history;
    ReplayDistinct(history);
    PutIs(Replay(history), ItemOf(e));
    RemoveIs(Replay(history), e.id);
    GatheredFrom(Replay(history + [e]), BucketIds(history + [e], x.key));
  }

  lemma {:induction false} GatheredFrom<T(!new)>(records: seq<Item<T>>, ids: seq<string>)
    ensures forall x :: x in Gathered(records, ids) ==> x in records
  {
    if ids != [] {
      GatheredFrom(records, ids[..|ids| - 1]);
      FindFrom(records, ids[|ids| - 1]);
    }
  }

  lemma {:induction false} FindFrom<T(!new)>(records: seq<Item<T>>, id: string)
    ensures forall x :: x in Find(records, id) ==> x in records
  {
    if records != [] {
      FindFrom(records[1..], id);
    }
  }

  // ---------- the snapshot that begins spilling ----------

  function Inserts<T>(items: seq<Item<T>>): seq<Entry<T>> {
    seq(|items|, i requires 0 <= i < |items| => Entry(items[i].key, items[i].id, items[i].value, 1))
  }

  // Replaying the snapshot of a list without repeated ids gives the list.
  lemma {:induction false} InsertsReplay<T(!new)>(items: seq<Item<T>>)
    requires Distinct(items)
    ensures Replay(Inserts(items)) == items
  {
    if items != [] {
      var init, last := items[..|items| - 1], items[|items| - 1];
      InsertsReplay(init);
      assert Inserts(items)[..|items| - 1] == Inserts(init);
      PutLast(init, last);
      assert init + [last] == items;
    }
  }

  lemma {:induction false} PutLast<T(!new)>(items: seq<Item<T>>, item: Item<T>)
    requires forall i :: 0 <= i < |items| ==> items[i].id != item.id
    ensures Put(items, item) == items + [item]
  {
    if items != [] {
      PutLast(items[1..], item);
    }
  }

  lemma {:induction false} InsertsOfKey<T(!new)>(items: seq<Item<T>>, k: string)
    ensures OfKey(Inserts(items), KeyOf, k) == Inserts(Matching(items, k))
  {
    if items != [] {
      var init, last := items[..|items| - 1], items[|items| - 1];
      InsertsOfKey(init, k);
      assert Inserts(items)[..|items| - 1] == Inserts(init);
      assert items == init + [last];
      MatchingAppend(init, last, k);
      assert Inserts(Matching(init, k)) + [Entry(last.key, last.id, last.value, 1)] == Inserts(Matching(init, k) + [last]);
    }
  }

  lemma {:induction false} MatchingAppend<T(!new)>(items: seq<Item<T>>, last: Item<T>, k: string)
    ensures Matching(items + [last], k) == Matching(items, k) + if last.key == k then [last] else []
  {
    if items == [] {
      assert items + [last] == [last];
    } else {
      assert (items + [last])[1..] == items[1..] + [last];
      MatchingAppend(items[1..], last, k);
    }
  }

  lemma {:induction false} MatchingDistinct<T(!new)>(items: seq<Item<T>>, k: string)
    requires Distinct(items)
    ensures Distinct(Matching(items, k))
  {
    if items != [] {
      DistinctParts(items);
      MatchingDistinct(items[1..], k);
      MatchingFrom(items[1..], k);
      if items[0].key == k {
        DistinctCons(items[0], Matching(items[1..], k));
      }
    }
  }

  lemma SnapshotMeans<T(!new)>(items: seq<Item<T>>, k: string)
    requires Distinct(items)
    ensures Replay(OfKey(Inserts(items), KeyOf, k)) == Matching(items, k)
  {
    InsertsOfKey(items, k);
    MatchingDistinct(items, k);
    InsertsReplay(Matching(items, k));
  }

  lemma {:induction false} SnapshotReplays<T(!new)>(history: seq<Entry<T>>, changes: seq<Entry<T>>)
    ensures Replay(Inserts(Replay(history)) + changes) == Replay(history + changes)
  {
    if changes == [] {
      ReplayDistinct(history);
      InsertsReplay(Replay(history));
      assert Inserts(Replay(history)) + changes == Inserts(Replay(history)) && history + changes == history;
    } else {
      var init, e := changes[..|changes| - 1], changes[|changes| - 1];
      SnapshotReplays(history, init);
      ReplayStep(Inserts(Replay(history)) + init, e);
      ReplayStep(history + init, e);
      assert Inserts(Replay(history)) + changes == Inserts(Replay(history)) + init + [e] && history + changes == history + init + [e];
    }
  }

  lemma {:induction false} SnapshotDisciplined<T(!new)>(items: seq<Item<T>>)
    requires Distinct(items)
    ensures Disciplined(Inserts(items))
  {
    hide Disciplined;
    if items == [] {
      NothingDisciplined<T>();
    } else {
      var init, last := items[..|items| - 1], items[|items| - 1];
      SnapshotDisciplined(init);
      InsertsReplay(init);
      DisciplinedMore(Inserts(init), Inserts([last])[0]);
      assert Inserts(items) == Inserts(init) + [Inserts([last])[0]];
    }
  }

  lemma NothingDisciplined<T(!new)>()
    ensures Disciplined<T>([])
  {
  }

  // What is logged behind a snapshot is as disciplined as the history it stands for.
  lemma {:induction false} LoggedDisciplined<T(!new)>(history: seq<Entry<T>>, changes: seq<Entry<T>>)
    requires Disciplined(history + changes)
    ensures Disciplined(Inserts(Replay(history)) + changes)
  {
    hide Disciplined, Carries;
    var snapshot := Inserts(Replay(history));
    if changes == [] {
      ReplayDistinct(history);
      SnapshotDisciplined(Replay(history));
      assert snapshot + changes == snapshot;
    } else {
      var init, e := changes[..|changes| - 1], changes[|changes| - 1];
      assert (history + changes)[..|history + changes| - 1] == history + init;
      DisciplinedInit(history + changes);
      LoggedDisciplined(history, init);
      SnapshotReplays(history, init);
      DisciplinedMore(snapshot + init, e);
      assert snapshot + changes == snapshot + init + [e];
    }
  }

  lemma SpillAgrees<T(!new)>(history: seq<Entry<T>>, changes: seq<Entry<T>>, n: nat, k: string)
    requires Disciplined(history + changes) && n <= |changes|
    ensures MemoryLookup(history + changes[..n], k) == LogLookup(Inserts(Replay(history)) + changes[..n], k)
  {
    hide MemoryLookup, LogLookup, Disciplined, Replay, Inserts, Matching;
    DisciplinedPrefix(history + changes, |history| + n);
    assert (history + changes)[..|history| + n] == history + changes[..n];
    LoggedDisciplined(history, changes[..n]);
    SnapshotReplays(history, changes[..n]);
    MemoryIsMatching(history + changes[..n], k);
    LogIsMatching(Inserts(Replay(history)) + changes[..n], k);
  }

  lemma SpillDisagrees<T(!new)>(history: seq<Entry<T>>, changes: seq<Entry<T>>) returns (n: nat, k: string)
    requires Disciplined(history) && !Disciplined(history + changes)
    ensures n <= |changes| && MemoryLookup(history + changes[..n], k) != LogLookup(Inserts(Replay(history)) + changes[..n], k)
  {
    hide MemoryLookup, LogLookup, Disciplined, Replay, Inserts, Carries;
    var all, snapshot := history + changes, Inserts(Replay(history));
    assert all[..|all|] == all;
    var m := FirstBreach(all, |all|);
    if m < |history| {
      BreachInside(history, changes, m);
    }
    var j := m - |history|;
    assert all[..m] == history + changes[..j] && all[m] == changes[j];
    var i := BreachedItem(Replay(all[..m]), all[m]);
    var x := Replay(all[..m])[i];
    LoggedDisciplined(history, changes[..j]);
    SnapshotReplays(history, changes[..j]);
    LogKeeps(snapshot + changes[..j], changes[j], x);
    MemoryLoses(history + changes[..j], changes[j], x);
    n, k := j + 1, x.key;
    assert history + changes[..j + 1] == history + changes[..j] + [changes[j]];
    assert snapshot + changes[..j + 1] == snapshot + changes[..j] + [changes[j]];
  }

  /** An arrangement that spills and one that stays in memory agree on every key after every later change exactly if
      every later change carries the key of what it changes. */
  lemma SpilledAgreesExactly<T(!new)>(history: seq<Entry<T>>, changes: seq<Entry<T>>)
    requires Disciplined(history)
    ensures Disciplined(history + changes) <==> forall n, k :: 0 <= n <= |changes| ==>
      MemoryLookup(history + changes[..n], k) == LogLookup(Inserts(Replay(history)) + changes[..n], k)
  {
    hide MemoryLookup, LogLookup, Disciplined, Replay, Inserts;
    if Disciplined(history + changes) {
      forall n, k | 0 <= n <= |changes|
        ensures MemoryLookup(history + changes[..n], k) == LogLookup(Inserts(Replay(history)) + changes[..n], k)
      {
        SpillAgrees(history, changes, n, k);
      }
    } else {
      var n, k := SpillDisagrees(history, changes);
    }
  }

  lemma BreachInside<T(!new)>(history: seq<Entry<T>>, changes: seq<Entry<T>>, m: nat)
    requires Disciplined(history) && m < |history|
    ensures Carries(Replay((history + changes)[..m]), (history + changes)[m])
  {
    assert (history + changes)[..m] == history[..m];
  }

  // ---------- the arrangement ----------

  function Bucket(buckets: map<string, seq<string>>, k: string): seq<string> {
    if k in buckets then buckets[k] else []
  }

  /** A multimap from keys to items, the same whether or not it was spilled. */
  class SpillableArrangement<T(!new)> {
    const limitBytes: nat
    const size: Entry<T> -> nat
    const hash: string -> nat
    var records: seq<Item<T>>
    var buckets: map<string, seq<string>>
    var hot: seq<Entry<T>>
    var runs: Runs<Entry<T>>
    var hotBytes: nat
    var spilled: bool
    // Every change so far.
    ghost var history: seq<Entry<T>>

    constructor (limitBytes: nat, size: Entry<T> -> nat, hash: string -> nat)
      requires limitBytes > 0
      ensures Valid() && history == []
    {
      this.limitBytes, this.size, this.hash := limitBytes, size, hash;
      records, buckets, hot, runs, hotBytes, spilled, history := [], map[], [], map[], 0, false, [];
    }

    function Part(): Entry<T> -> nat
      reads this
    {
      var hash := hash;
      (e: Entry<T>) => hash(e.key)
    }

    // In memory: the records and buckets of the history. Spilled: a log that replays, key by key, to its live items.
    ghost predicate Valid()
      reads this
    {
      && Disciplined(history)
      && (!spilled ==> hot == [] && runs == map[] && records == Replay(history) && forall k :: Bucket(buckets, k) == BucketIds(history, k))
      && (spilled ==> forall k :: Replay(OfKey(Stored(runs, hash(k)) + hot, KeyOf, k)) == Matching(Replay(history), k))
    }

    method ApplyMemory(e: Entry<T>)
      requires Valid() && !spilled && Carries(Replay(history), e)
      modifies this`records, this`buckets, this`hotBytes, this`history
      ensures Valid() && history == old(history) + [e]
    {
      hide Replay, BucketIds, Carries;
      DisciplinedMore(history, e);
      MemoryStep(history, e);
      if e.diff < 0 {
        records := Remove(records, e.id);
        if e.key in buckets {
          var bucket := DropId(buckets[e.key], e.id);
          buckets := if bucket == [] then buckets - {e.key} else buckets[e.key := bucket];
        }
      } else {
        records := Put(records, ItemOf(e));
        buckets := buckets[e.key := AddId(Bucket(buckets, e.key), e.id)];
      }
      history := history + [e];
      hotBytes := |records| * 112 + |buckets| * 48;
    }

    method AppendHot(e: Entry<T>)
      requires Valid() && spilled && Carries(Replay(history), e)
      modifies this`hot, this`hotBytes, this`history
      ensures Valid() && history == old(history) + [e]
    {
      hide Replay, Carries, OfKey, Stored, Matching;
      DisciplinedMore(history, e);
      ghost var was := hot;
      hot := hot + [e];
      hotBytes := hotBytes + size(e) + 64;
      history := history + [e];
      forall k ensures Replay(OfKey(Stored(runs, hash(k)) + hot, KeyOf, k)) == Matching(Replay(history), k) {
        assert Stored(runs, hash(k)) + hot == Stored(runs, hash(k)) + was + [e];
        LogStep(Stored(runs, hash(k)) + was, e, k);
        LogIs(Stored(runs, hash(k)) + was, k);
        LogIs(Stored(runs, hash(k)) + was + [e], k);
        ReplayStep(old(history), e);
        ChangeMatching(Replay(old(history)), e, k);
      }
    }

    method FlushHot()
      requires Valid() && spilled
      modifies this`hot, this`runs, this`hotBytes
      ensures Valid() && hot == []
    {
      hide Replay, OfKey, Stored, Matching, Disciplined;
      ghost var was, entries := runs, hot;
      var flushed := Flush(runs, hot, Part());
      forall k ensures OfKey(Stored(flushed, hash(k)), KeyOf, k) == OfKey(Stored(was, hash(k)) + entries, KeyOf, k) {
        FlushedKey(was, flushed, entries, KeyOf, hash, Part(), k);
      }
      runs, hot, hotBytes := flushed, [], 0;
      forall k ensures Replay(OfKey(Stored(runs, hash(k)) + hot, KeyOf, k)) == Matching(Replay(history), k) {
        assert Stored(runs, hash(k)) + hot == Stored(runs, hash(k));
      }
    }

    method SpillSnapshot()
      requires Valid() && !spilled
      modifies this
      ensures Valid() && spilled && history == old(history)
    {
      hide Replay, OfKey, Matching, Disciplined;
      spilled := true;
      hot := Inserts(records);
      ReplayDistinct(history);
      forall k ensures Replay(OfKey(Stored(runs, hash(k)) + hot, KeyOf, k)) == Matching(Replay(history), k) {
        assert Stored(runs, hash(k)) + hot == hot;
        SnapshotMeans(records, k);
      }
      records, buckets := [], map[];
      FlushHot();
    }

    method Apply(changes: seq<Entry<T>>)
      requires Valid() && Disciplined(history + changes)
      modifies this
      ensures Valid() && history == old(history) + changes
    {
      hide Replay, Carries, BucketIds, Stored, OfKey, Matching;
      ghost var was := history;
      if !spilled {
        for i := 0 to |changes|
          invariant Valid() && !spilled && history == was + changes[..i]
        {
          CarriesNext(was, changes, i);
          ApplyMemory(changes[i]);
          assert was + changes[..i + 1] == was + changes[..i] + [changes[i]];
        }
        assert changes[..|changes|] == changes;
        if hotBytes > limitBytes {
          SpillSnapshot();
        }
        return;
      }
      for i := 0 to |changes|
        invariant Valid() && spilled && history == was + changes[..i]
      {
        CarriesNext(was, changes, i);
        AppendHot(changes[i]);
        assert was + changes[..i + 1] == was + changes[..i] + [changes[i]];
      }
      assert changes[..|changes|] == changes;
      if hotBytes >= limitBytes {
        FlushHot();
      }
    }

    method Lookup(k: string) returns (values: seq<Item<T>>)
      requires Valid()
      ensures values == Matching(Replay(history), k)
    {
      hide Distinct, Disciplined;
      if !spilled {
        MemoryIsMatching(history, k);
        var ids := Bucket(buckets, k);
        values := [];
        for i := 0 to |ids|
          invariant values == Gathered(records, ids[..i])
        {
          assert ids[..i + 1][..i] == ids[..i];
          values := values + Find(records, ids[i]);
        }
        assert ids[..|ids|] == ids;
        return;
      }
      var log := Stored(runs, hash(k)) + hot;
      values := [];
      for i := 0 to |log|
        invariant values == Replay(OfKey(log[..i], KeyOf, k))
      {
        assert log[..i + 1] == log[..i] + [log[i]];
        LogStep(log[..i], log[i], k);
        LogIs(log[..i], k);
        LogIs(log[..i + 1], k);
        if log[i].key == k {
          values := Change(values, log[i]);
        }
      }
      assert log[..|log|] == log;
    }
  }

  lemma LogIs<T(!new)>(log: seq<Entry<T>>, k: string)
    ensures LogLookup(log, k) == Replay(OfKey(log, KeyOf, k))
  {
  }

  lemma ReplayStep<T(!new)>(history: seq<Entry<T>>, e: Entry<T>)
    ensures Replay(history + [e]) == Change(Replay(history), e)
  {
    assert (history + [e])[..|history|] == history;
  }

  lemma MemoryStep<T(!new)>(history: seq<Entry<T>>, e: Entry<T>)
    ensures Replay(history + [e]) == Change(Replay(history), e)
    ensures forall k :: BucketIds(history + [e], k) == ChangedBucket(BucketIds(history, k), e, k)
  {
    assert (history + [e])[..|history|] == history;
  }

  lemma DisciplinedMore<T(!new)>(history: seq<Entry<T>>, e: Entry<T>)
    requires Disciplined(history) && Carries(Replay(history), e)
    ensures Disciplined(history + [e])
  {
    hide Carries;
    var longer := history + [e];
    forall n | 0 <= n < |longer| ensures Carries(Replay(longer[..n]), longer[n]) {
      assert longer[..n] == history[..n];
      assert history[..|history|] == history;
    }
  }

  lemma CarriesNext<T(!new)>(was: seq<Entry<T>>, changes: seq<Entry<T>>, i: nat)
    requires Disciplined(was + changes) && i < |changes|
    ensures Carries(Replay(was + changes[..i]), changes[i])
  {
    hide Carries;
    var all := was + changes;
    assert all[..|was| + i] == was + changes[..i] && all[|was| + i] == changes[i];
  }
}
