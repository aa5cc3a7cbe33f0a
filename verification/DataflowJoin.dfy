// ArrangeOperator and JoinOperator (dataflow.ts).
module DataflowJoin {
  import opened Query
  import opened Dataflow
  import opened DataflowContracts
  import opened DataflowOperators

  // The two joins the compiler builds: a node with its parents' matches, and a node's matches
  // with the rows its policy allows.
  datatype JoinKind =
    | Correlating(node: Node)
    | Authorizing(childColumn: string, parentColumn: string)

  function LeftKey(kind: JoinKind, left: Rec): Value {
    match kind
    case Correlating(node) => ParentKey(node, left)
    case Authorizing(childColumn, _) => ColumnOf(left.row, childColumn)
  }

  function RightKey(kind: JoinKind, right: Rec): Value {
    match kind
    case Correlating(node) => ChildKey(node, right)
    case Authorizing(_, parentColumn) => ColumnOf(right.row, parentColumn)
  }

  function JoinedId(kind: JoinKind, leftId: Id, rightId: Id): Id {
    match kind
    case Correlating(node) => MatchId(leftId, node.table, rightId)
    case Authorizing(_, _) => leftId
  }

  function JoinedRec(kind: JoinKind, leftId: Id, left: Rec, right: Rec): Rec {
    match kind
    case Correlating(node) => MatchOf(leftId, node.source, left.context, right)
    case Authorizing(_, _) => left
  }

  function Join(kind: JoinKind, left: Coll, right: Coll): Coll {
    match kind
    case Correlating(node) => Correlated(node, left, right)
    case Authorizing(childColumn, parentColumn) => AuthorizedChildren(childColumn, parentColumn, left, right)
  }

  ghost predicate Keyed(kind: JoinKind, right: Coll) {
    kind.Authorizing? ==> KeyedOn(kind.parentColumn, right)
  }

  lemma JoinGet(kind: JoinKind, left: Coll, right: Coll, l: Id, r: Id)
    requires l in left && r in right && LeftKey(kind, left[l]) == RightKey(kind, right[r])
    ensures Get(Join(kind, left, right), JoinedId(kind, l, r)) == Some(JoinedRec(kind, l, left[l], right[r]))
  {
  }

  lemma JoinPair(kind: JoinKind, left: Coll, right: Coll, id: Id) returns (l: Id, r: Id)
    requires id in Join(kind, left, right)
    ensures l in left && r in right && LeftKey(kind, left[l]) == RightKey(kind, right[r]) && id == JoinedId(kind, l, r)
  {
    match kind {
      case Correlating(node) =>
        l, r :| l in left && r in right && ParentKey(node, left[l]) == ChildKey(node, right[r]) && id == MatchId(l, node.table, r);
      case Authorizing(childColumn, parentColumn) =>
        l := id;
        r :| r in right && ColumnOf(right[r].row, parentColumn) == ColumnOf(left[id].row, childColumn);
    }
  }

  function LeftIds(kind: JoinKind, l: Id, rs: seq<Id>): seq<Id> {
    seq(|rs|, i requires 0 <= i < |rs| => JoinedId(kind, l, rs[i]))
  }

  function RightIds(kind: JoinKind, ls: seq<Id>, r: Id): seq<Id> {
    seq(|ls|, i requires 0 <= i < |ls| => JoinedId(kind, ls[i], r))
  }

  // How the join changes when one left record is added.
  lemma LeftAdds(kind: JoinKind, left: Coll, right: Coll, l: Id, v: Rec, rs: seq<Id>)
    requires l !in left && Distinct(rs) && (kind.Authorizing? ==> |rs| <= 1)
    requires forall r :: r in rs <==> r in right && RightKey(kind, right[r]) == LeftKey(kind, v)
    ensures var ids, m, m' := LeftIds(kind, l, rs), Join(kind, left, right), Join(kind, left[l := v], right);
      && Distinct(ids)
      && (forall k :: 0 <= k < |rs| ==> Get(m, ids[k]) == None && rs[k] in right && Get(m', ids[k]) == Some(JoinedRec(kind, l, v, right[rs[k]])))
      && (forall id :: id !in ids ==> Get(m, id) == Get(m', id))
  {
    hide Join;
    var ids, m, m' := LeftIds(kind, l, rs), Join(kind, left, right), Join(kind, left[l := v], right);
    forall k | 0 <= k < |rs|
      ensures Get(m, ids[k]) == None && rs[k] in right && Get(m', ids[k]) == Some(JoinedRec(kind, l, v, right[rs[k]]))
    {
      assert rs[k] in rs;
      JoinGet(kind, left[l := v], right, l, rs[k]);
      if ids[k] in m {
        var a, b := JoinPair(kind, left, right, ids[k]);
      }
    }
    forall id ensures id in ids || Get(m, id) == Get(m', id) {
      if id in m {
        var a, b := JoinPair(kind, left, right, id);
        JoinGet(kind, left, right, a, b);
        JoinGet(kind, left[l := v], right, a, b);
      } else if id in m' {
        var a, b := JoinPair(kind, left[l := v], right, id);
        if a == l {
          var k :| 0 <= k < |rs| && rs[k] == b;
          assert ids[k] == id;
        } else {
          JoinGet(kind, left, right, a, b);
        }
      }
    }
    assert Distinct(ids) by {
      forall i, j | 0 <= i < j < |rs| ensures ids[i] != ids[j] {
        assert rs[i] in rs && rs[j] in rs;
      }
    }
  }

  // No other allowed row has the key.
  ghost predicate Alone(kind: JoinKind, right: Coll, r: Id, v: Rec) {
    kind.Authorizing? ==> forall b :: b in right && b != r ==> RightKey(kind, right[b]) != RightKey(kind, v)
  }

  // How the join changes when one right record is added.
  lemma RightAdds(kind: JoinKind, left: Coll, right: Coll, r: Id, v: Rec, ls: seq<Id>)
    requires r !in right && Distinct(ls) && (ls != [] ==> Alone(kind, right, r, v))
    requires forall l :: l in ls <==> l in left && LeftKey(kind, left[l]) == RightKey(kind, v)
    ensures var ids, m, m' := RightIds(kind, ls, r), Join(kind, left, right), Join(kind, left, right[r := v]);
      && Distinct(ids)
      && (forall k :: 0 <= k < |ls| ==> Get(m, ids[k]) == None && ls[k] in left && Get(m', ids[k]) == Some(JoinedRec(kind, ls[k], left[ls[k]], v)))
      && (forall id :: id !in ids ==> Get(m, id) == Get(m', id))
  {
    hide Join;
    var right' := right[r := v];
    var ids, m, m' := RightIds(kind, ls, r), Join(kind, left, right), Join(kind, left, right');
    forall k | 0 <= k < |ls|
      ensures Get(m, ids[k]) == None && ls[k] in left && Get(m', ids[k]) == Some(JoinedRec(kind, ls[k], left[ls[k]], v))
    {
      assert ls[k] in ls;
      JoinGet(kind, left, right', ls[k], r);
      if ids[k] in m {
        var a, b := JoinPair(kind, left, right, ids[k]);
      }
    }
    forall id ensures id in ids || Get(m, id) == Get(m', id) {
      if id in m {
        var a, b := JoinPair(kind, left, right, id);
        JoinGet(kind, left, right, a, b);
        JoinGet(kind, left, right', a, b);
      } else if id in m' {
        var a, b := JoinPair(kind, left, right', id);
        if b == r {
          var k :| 0 <= k < |ls| && ls[k] == a;
          assert ids[k] == id;
        } else {
          JoinGet(kind, left, right, a, b);
        }
      }
    }
    assert Distinct(ids) by {
      forall i, j | 0 <= i < j < |ls| ensures ids[i] != ids[j] {
        assert ls[i] in ls && ls[j] in ls;
      }
    }
  }

  lemma {:induction false} AllInserted(ids: seq<Id>, values: seq<Rec>, m: Coll, m': Coll, batch: Batch)
    requires |values| == |ids| == |batch|
    requires forall k :: 0 <= k < |ids| ==> batch[k] == Change(ids[k], values[k], 1)
    requires forall k :: 0 <= k < |ids| ==> Get(m, ids[k]) == None && Get(m', ids[k]) == Some(values[k])
    ensures ReplaceAll(ids, m, m') == batch
  {
    hide Get;
    if ids != [] {
      var n := |ids| - 1;
      AllInserted(ids[..n], values[..n], m, m', batch[..n]);
      assert batch == batch[..n] + [batch[n]];
    }
  }

  lemma {:induction false} AllDeleted(ids: seq<Id>, values: seq<Rec>, m: Coll, m': Coll, batch: Batch)
    requires |values| == |ids| == |batch|
    requires forall k :: 0 <= k < |ids| ==> batch[k] == Change(ids[k], values[k], -1)
    requires forall k :: 0 <= k < |ids| ==> Get(m, ids[k]) == Some(values[k]) && Get(m', ids[k]) == None
    ensures ReplaceAll(ids, m, m') == batch
  {
    hide Get;
    if ids != [] {
      var n := |ids| - 1;
      AllDeleted(ids[..n], values[..n], m, m', batch[..n]);
      assert batch == batch[..n] + [batch[n]];
    }
  }

  // The changes that one changed left record causes.
  function LeftBatch(kind: JoinKind, c: Change, right: Coll, rs: seq<Id>): Batch
    requires forall r :: r in rs ==> r in right
  {
    seq(|rs|, k requires 0 <= k < |rs| =>
      Change(JoinedId(kind, c.id, rs[k]), JoinedRec(kind, c.id, c.value, right[rs[k]]), c.diff))
  }

  function RightBatch(kind: JoinKind, c: Change, left: Coll, ls: seq<Id>): Batch
    requires forall l :: l in ls ==> l in left
  {
    seq(|ls|, k requires 0 <= k < |ls| =>
      Change(JoinedId(kind, ls[k], c.id), JoinedRec(kind, ls[k], left[ls[k]], c.value), c.diff))
  }

  lemma LeftStep(kind: JoinKind, left: Coll, right: Coll, c: Change, rs: seq<Id>)
    requires Fits(left, c) && Distinct(rs) && (kind.Authorizing? ==> |rs| <= 1)
    requires forall r :: r in rs <==> r in right && RightKey(kind, right[r]) == LeftKey(kind, c.value)
    ensures Tracks(Join(kind, left, right), LeftBatch(kind, c, right, rs), Join(kind, ApplyChange(left, c), right))
  {
    hide Join, Get;
    var m, m' := Join(kind, left, right), Join(kind, ApplyChange(left, c), right);
    var ids := LeftIds(kind, c.id, rs);
    var values := seq(|rs|, k requires 0 <= k < |rs| => JoinedRec(kind, c.id, c.value, right[rs[k]]));
    if c.diff == 1 {
      LeftAdds(kind, left, right, c.id, c.value, rs);
      AllInserted(ids, values, m, m', LeftBatch(kind, c, right, rs));
    } else {
      assert (left - {c.id})[c.id := c.value] == left;
      LeftAdds(kind, left - {c.id}, right, c.id, c.value, rs);
      AllDeleted(ids, values, m, m', LeftBatch(kind, c, right, rs));
    }
    ReplaceAllTracks(ids, m, m');
  }

  lemma RightStep(kind: JoinKind, left: Coll, right: Coll, c: Change, ls: seq<Id>)
    requires Fits(right, c) && Distinct(ls) && (ls != [] ==> Alone(kind, right, c.id, c.value))
    requires forall l :: l in ls <==> l in left && LeftKey(kind, left[l]) == RightKey(kind, c.value)
    ensures Tracks(Join(kind, left, right), RightBatch(kind, c, left, ls), Join(kind, left, ApplyChange(right, c)))
  {
    hide Join, Get;
    var m, m' := Join(kind, left, right), Join(kind, left, ApplyChange(right, c));
    var ids := RightIds(kind, ls, c.id);
    var values := seq(|ls|, k requires 0 <= k < |ls| => JoinedRec(kind, ls[k], left[ls[k]], c.value));
    if c.diff == 1 {
      RightAdds(kind, left, right, c.id, c.value, ls);
      AllInserted(ids, values, m, m', RightBatch(kind, c, left, ls));
    } else {
      assert (right - {c.id})[c.id := c.value] == right;
      RightAdds(kind, left, right - {c.id}, c.id, c.value, ls);
      AllDeleted(ids, values, m, m', RightBatch(kind, c, left, ls));
    }
    ReplaceAllTracks(ids, m, m');
  }

  lemma KeyedLookup(kind: JoinKind, right: Coll, left: Rec, rs: seq<Id>)
    requires Keyed(kind, right) && Distinct(rs)
    requires forall r :: r in rs <==> r in right && RightKey(kind, right[r]) == LeftKey(kind, left)
    ensures kind.Authorizing? ==> |rs| <= 1
  {
    if |rs| > 1 {
      assert rs[0] in rs && rs[1] in rs;
    }
  }

  lemma KeyedAlone(kind: JoinKind, right: Coll, c: Change)
    requires Keyed(kind, right) && Keyed(kind, ApplyChange(right, c)) && Fits(right, c)
    ensures Alone(kind, right, c.id, c.value)
  {
    if kind.Authorizing? {
      forall b | b in right && b != c.id ensures RightKey(kind, right[b]) != RightKey(kind, c.value) {
        assert c.diff == 1 ==> b in ApplyChange(right, c) && c.id in ApplyChange(right, c);
      }
    }
  }

  // ---------- allowed rows that share a key ----------

  /** A changed child makes the policy join emit a valid change exactly if at most one allowed row has its key. */
  lemma LeftStepExactly(kind: JoinKind, left: Coll, right: Coll, c: Change, rs: seq<Id>)
    requires kind.Authorizing? && Fits(left, c) && Distinct(rs)
    requires forall r :: r in rs <==> r in right && RightKey(kind, right[r]) == LeftKey(kind, c.value)
    ensures Tracks(Join(kind, left, right), LeftBatch(kind, c, right, rs), Join(kind, ApplyChange(left, c), right)) <==> |rs| <= 1
  {
    if |rs| <= 1 {
      LeftStep(kind, left, right, c, rs);
    } else {
      var batch := LeftBatch(kind, c, right, rs);
      assert batch[0] == Change(c.id, c.value, c.diff) && batch[1..][0] == batch[0];
      var m := Join(kind, left, right);
      assert |batch[1..]| == |rs| - 1;
      assert Valid(m, batch) ==> Fits(m, batch[0]) && Valid(ApplyChange(m, batch[0]), batch[1..]);
      assert Valid(ApplyChange(m, batch[0]), batch[1..]) ==> Fits(ApplyChange(m, batch[0]), batch[1..][0]);
    }
  }

  /** A changed allowed row makes it emit a valid change exactly if no child has its key or no other allowed row has it. */
  lemma RightStepExactly(kind: JoinKind, left: Coll, right: Coll, c: Change, ls: seq<Id>)
    requires kind.Authorizing? && Fits(right, c) && Distinct(ls)
    requires forall l :: l in ls <==> l in left && LeftKey(kind, left[l]) == RightKey(kind, c.value)
    ensures Tracks(Join(kind, left, right), RightBatch(kind, c, left, ls), Join(kind, left, ApplyChange(right, c)))
      <==> ls == [] || Alone(kind, right, c.id, c.value)
  {
    if ls == [] || Alone(kind, right, c.id, c.value) {
      RightStep(kind, left, right, c, ls);
    } else {
      var b :| b in right && b != c.id && RightKey(kind, right[b]) == RightKey(kind, c.value);
      var batch := RightBatch(kind, c, left, ls);
      var m, m' := Join(kind, left, right), Join(kind, left, ApplyChange(right, c));
      assert ls[0] in ls;
      JoinGet(kind, left, right, ls[0], b);
      JoinGet(kind, left, ApplyChange(right, c), ls[0], b);
      assert batch[0].id == ls[0] && batch[0].diff == c.diff;
      if c.diff == -1 {
        forall k | 0 <= k < |batch[1..]| ensures batch[1..][k].id != ls[0] {
          assert batch[1..][k] == batch[k + 1];
        }
        ApplyUntouched(ApplyChange(m, batch[0]), batch[1..], ls[0]);
      }
    }
  }

  /** Two allowed rows under one key: taking one away reports its child as gone, and the join keeps the child. */
  lemma SharedKeyLosesChild(child: Rec, a: Id, b: Id, parent: Rec, l: Id)
    requires a != b && ColumnOf(child.row, "parent") == ColumnOf(parent.row, "id")
    ensures var kind, left, right, c := Authorizing("parent", "id"), map[l := child], map[a := parent, b := parent], Change(a, parent, -1);
      && Fits(right, c) && Join(kind, left, ApplyChange(right, c)) == Join(kind, left, right) == left
      && RightBatch(kind, c, left, [l]) == [Change(l, child, -1)]
      && !Tracks(Join(kind, left, right), RightBatch(kind, c, left, [l]), Join(kind, left, ApplyChange(right, c)))
  {
    var kind, left, right, c := Authorizing("parent", "id"), map[l := child], map[a := parent, b := parent], Change(a, parent, -1);
    assert b in ApplyChange(right, c) && ApplyChange(right, c)[b] == parent;
    assert Distinct([l]);
    RightStepExactly(kind, left, right, c, [l]);
    assert !Alone(kind, right, a, parent);
  }

  // ---------- the arrangement ----------

  function Without(ids: seq<Id>, id: Id): (r: seq<Id>)
    ensures forall x :: x in r <==> x in ids && x != id
  {
    if ids == [] then []
    else
      assert ids == [ids[0]] + ids[1..];
      if ids[0] == id then Without(ids[1..], id)
      else [ids[0]] + Without(ids[1..], id)
  }

  lemma {:induction false} WithoutDistinct(ids: seq<Id>, id: Id)
    requires Distinct(ids)
    ensures Distinct(Without(ids, id))
  {
    if ids != [] {
      WithoutDistinct(ids[1..], id);
      assert ids[0] !in ids[1..];
    }
  }

  // The buckets hold the ids of every key, each once.
  ghost predicate Indexed(keyOf: Rec -> Value, records: Coll, buckets: map<Value, seq<Id>>) {
    && (forall key :: key in buckets ==> Distinct(buckets[key]) && buckets[key] != [])
    && (forall key, id :: key in buckets && id in buckets[key] ==> id in records && keyOf(records[id]) == key)
    && (forall id :: id in records ==> keyOf(records[id]) in buckets && id in buckets[keyOf(records[id])])
  }

  function BucketsAfter(buckets: map<Value, seq<Id>>, key: Value, c: Change): map<Value, seq<Id>> {
    if c.diff < 0 then
      if key !in buckets then buckets
      else if Without(buckets[key], c.id) == [] then buckets - {key} else buckets[key := Without(buckets[key], c.id)]
    else
      var bucket := if key in buckets then buckets[key] else [];
      buckets[key := if c.id in bucket then bucket else bucket + [c.id]]
  }

  lemma IndexedKey(keyOf: Rec -> Value, records: Coll, buckets: map<Value, seq<Id>>, c: Change)
    requires Indexed(keyOf, records, buckets) && Fits(records, c)
    ensures Indexed(keyOf, ApplyChange(records, c), BucketsAfter(buckets, keyOf(c.value), c))
  {
    if c.diff < 0 {
      IndexedLess(keyOf, records, buckets, c);
    } else {
      IndexedMore(keyOf, records, buckets, c);
    }
  }

  lemma IndexedLess(keyOf: Rec -> Value, records: Coll, buckets: map<Value, seq<Id>>, c: Change)
    requires Indexed(keyOf, records, buckets) && Fits(records, c) && c.diff < 0
    ensures Indexed(keyOf, records - {c.id}, BucketsAfter(buckets, keyOf(c.value), c))
  {
    hide Distinct;
    var key := keyOf(c.value);
    WithoutDistinct(buckets[key], c.id);
  }

  lemma IndexedMore(keyOf: Rec -> Value, records: Coll, buckets: map<Value, seq<Id>>, c: Change)
    requires Indexed(keyOf, records, buckets) && Fits(records, c) && c.diff >= 0
    ensures Indexed(keyOf, records[c.id := c.value], BucketsAfter(buckets, keyOf(c.value), c))
  {
    var key := keyOf(c.value);
    assert key in buckets ==> c.id !in buckets[key];
  }

  // Records by id, and the ids of every key in insertion order.
  class ArrangeOperator {
    const keyOf: Rec -> Value
    var records: Coll
    var buckets: map<Value, seq<Id>>

    constructor (keyOf: Rec -> Value)
      ensures this.keyOf == keyOf && records == map[] && Consistent()
    {
      this.keyOf := keyOf;
      records, buckets := map[], map[];
    }

    ghost predicate Consistent()
      reads this
    {
      Indexed(keyOf, records, buckets)
    }

    method Handle(changes: Batch)
      requires Consistent() && Valid(records, changes)
      modifies this
      ensures Consistent() && records == Apply(old(records), changes)
    {
      ghost var start := records;
      for i := 0 to |changes|
        invariant Consistent() && Valid(records, changes[i..])
        invariant Apply(records, changes[i..]) == Apply(start, changes)
      {
        var c := changes[i];
        assert changes[i..][0] == c && changes[i..][1..] == changes[i + 1..];
        HandleOne(c);
      }
      assert changes[|changes|..] == [];
    }

    method HandleOne(c: Change)
      requires Consistent() && Fits(records, c)
      modifies this
      ensures Consistent() && records == ApplyChange(old(records), c)
    {
      hide Indexed;
      var key := keyOf(c.value);
      IndexedKey(keyOf, records, buckets, c);
      if c.diff < 0 {
        records := records - {c.id};
        if key in buckets {
          var bucket := Without(buckets[key], c.id);
          buckets := if bucket == [] then buckets - {key} else buckets[key := bucket];
        }
      } else {
        records := records[c.id := c.value];
        var bucket := if key in buckets then buckets[key] else [];
        buckets := buckets[key := if c.id in bucket then bucket else bucket + [c.id]];
      }
    }

    method Lookup(key: Value) returns (ids: seq<Id>)
      requires Consistent()
      ensures Distinct(ids) && forall id :: id in ids <==> id in records && keyOf(records[id]) == key
    {
      ids := if key in buckets then buckets[key] else [];
    }
  }

  // ---------- the join ----------

  class JoinOperator {
    const kind: JoinKind
    const left: ArrangeOperator
    const right: ArrangeOperator

    constructor (kind: JoinKind)
      ensures this.kind == kind && Consistent() && fresh(left) && fresh(right)
      ensures left.records == map[] && right.records == map[]
    {
      this.kind := kind;
      left := new ArrangeOperator(r => LeftKey(kind, r));
      right := new ArrangeOperator(r => RightKey(kind, r));
    }

    ghost predicate Consistent()
      reads this, left, right
    {
      && left != right && left.Consistent() && right.Consistent()
      && (forall r: Rec :: left.keyOf(r) == LeftKey(kind, r))
      && (forall r: Rec :: right.keyOf(r) == RightKey(kind, r))
    }

    ghost function Emitted(): Coll
      reads this, left, right
    {
      Join(kind, left.records, right.records)
    }

    // Each change of a left record meets the right records with its key.
    method HandleLeft(changes: Batch) returns (output: Batch)
      requires Consistent() && Ready(OpOf(kind), [left.records, right.records], 0, changes)
      modifies left
      ensures Consistent() && left.records == Apply(old(left.records), changes)
      ensures Tracks(old(Emitted()), output, Emitted())
      ensures Handled(OpOf(kind), [old(left.records), right.records], 0, changes, output)
    {
      hide Join, Keyed, Tracks, LeftBatch, RightBatch, LeftDerived;
      ghost var start, now := left.records, left.records;
      left.Handle(changes);
      output := [];
      NothingTracks(Join(kind, start, right.records));
      for i := 0 to |changes|
        invariant Consistent() && left.records == Apply(start, changes)
        invariant Valid(now, changes[i..]) && Apply(now, changes[i..]) == Apply(start, changes)
        invariant Tracks(Join(kind, start, right.records), output, Join(kind, now, right.records))
        invariant forall k :: 0 <= k < |output| ==> LeftDerived(kind, changes, output[k])
      {
        var c := changes[i];
        assert changes[i..][0] == c && changes[i..][1..] == changes[i + 1..];
        var ids := right.Lookup(LeftKey(kind, c.value));
        var joined := LeftBatch(kind, c, right.records, ids);
        KeyedLookup(kind, right.records, c.value, ids);
        LeftStep(kind, now, right.records, c, ids);
        LeftBatchDerived(kind, changes, i, right.records, ids);
        TracksConcat(Join(kind, start, right.records), output, Join(kind, now, right.records), joined, Join(kind, ApplyChange(now, c), right.records));
        output := output + joined;
        now := ApplyChange(now, c);
      }
      assert changes[|changes|..] == [];
      LeftHandled(kind, start, right.records, changes, output);
    }

    // Each change of a right record meets the left records with its key.
    method HandleRight(changes: Batch) returns (output: Batch)
      requires Consistent() && Ready(OpOf(kind), [left.records, right.records], 1, changes)
      modifies right
      ensures Consistent() && right.records == Apply(old(right.records), changes)
      ensures Tracks(old(Emitted()), output, Emitted())
      ensures Handled(OpOf(kind), [left.records, old(right.records)], 1, changes, output)
    {
      hide Join, Keyed, Tracks, LeftBatch, RightBatch, RightDerived;
      ghost var start, now := right.records, right.records;
      right.Handle(changes);
      output := [];
      NothingTracks(Join(kind, left.records, start));
      for i := 0 to |changes|
        invariant Consistent() && right.records == Apply(start, changes)
        invariant Valid(now, changes[i..]) && Apply(now, changes[i..]) == Apply(start, changes)
        invariant KeyedThroughout(kind, now, changes[i..])
        invariant Tracks(Join(kind, left.records, start), output, Join(kind, left.records, now))
        invariant forall k :: 0 <= k < |output| ==> RightDerived(kind, left.records, output[k])
      {
        var c := changes[i];
        assert changes[i..][0] == c && changes[i..][1..] == changes[i + 1..];
        var ids := left.Lookup(RightKey(kind, c.value));
        var joined := RightBatch(kind, c, left.records, ids);
        ThroughoutStep(kind, now, changes[i..]);
        KeyedAlone(kind, now, c);
        RightStep(kind, left.records, now, c, ids);
        RightBatchDerived(kind, c, left.records, ids);
        TracksConcat(Join(kind, left.records, start), output, Join(kind, left.records, now), joined, Join(kind, left.records, ApplyChange(now, c)));
        output := output + joined;
        now := ApplyChange(now, c);
      }
      assert changes[|changes|..] == [];
      RightHandled(kind, left.records, start, changes, output);
    }
  }

  function OpOf(kind: JoinKind): (op: Op)
    ensures |Inputs(op)| == 2
  {
    match kind
    case Correlating(node) => CorrelateOp(node, 0, 0)
    case Authorizing(childColumn, parentColumn) => AuthorizeOp(childColumn, parentColumn, 0, 0)
  }

  predicate LeftDerived(kind: JoinKind, changes: Batch, o: Change) {
    if kind.Correlating? then JoinedChange(o) else Brought(changes, o)
  }

  predicate RightDerived(kind: JoinKind, left: Coll, o: Change) {
    if kind.Correlating? then JoinedChange(o) else Entry(left, o)
  }

  lemma LeftBatchDerived(kind: JoinKind, changes: Batch, i: nat, right: Coll, rs: seq<Id>)
    requires i < |changes| && forall r :: r in rs ==> r in right
    ensures forall o :: o in LeftBatch(kind, changes[i], right, rs) ==> LeftDerived(kind, changes, o)
  {
  }

  lemma RightBatchDerived(kind: JoinKind, c: Change, left: Coll, ls: seq<Id>)
    requires forall l :: l in ls ==> l in left
    ensures forall o :: o in RightBatch(kind, c, left, ls) ==> RightDerived(kind, left, o)
  {
    forall k | 0 <= k < |ls| ensures RightDerived(kind, left, RightBatch(kind, c, left, ls)[k]) {
      assert ls[k] in ls;
    }
  }

  lemma DenotesJoin(kind: JoinKind, left: Coll, right: Coll)
    ensures Denote(OpOf(kind), [left, right]) == Join(kind, left, right)
  {
    hide Correlated, AuthorizedChildren;
  }

  lemma LeftIsDerived(kind: JoinKind, left: Coll, right: Coll, changes: Batch, output: Batch)
    requires forall k :: 0 <= k < |output| ==> LeftDerived(kind, changes, output[k])
    ensures Derived(OpOf(kind), [left, right], 0, changes, output)
  {
    hide JoinedChange, Brought, Entry;
  }

  lemma RightIsDerived(kind: JoinKind, left: Coll, right: Coll, changes: Batch, output: Batch)
    requires forall k :: 0 <= k < |output| ==> RightDerived(kind, left, output[k])
    ensures Derived(OpOf(kind), [left, right], 1, changes, output)
  {
    hide JoinedChange, Brought, Entry;
  }

  lemma LeftHandled(kind: JoinKind, left: Coll, right: Coll, changes: Batch, output: Batch)
    requires Tracks(Join(kind, left, right), output, Join(kind, Apply(left, changes), right))
    requires forall k :: 0 <= k < |output| ==> LeftDerived(kind, changes, output[k])
    ensures Handled(OpOf(kind), [left, right], 0, changes, output)
  {
    hide Tracks, LeftDerived, Join, Denote, Apply, Derived, Inputs, OpOf;
    LeftIsDerived(kind, left, right, changes, output);
    assert [left, right][0 := Apply(left, changes)] == [Apply(left, changes), right];
    DenotesJoin(kind, left, right);
    DenotesJoin(kind, Apply(left, changes), right);
  }

  lemma RightHandled(kind: JoinKind, left: Coll, right: Coll, changes: Batch, output: Batch)
    requires Tracks(Join(kind, left, right), output, Join(kind, left, Apply(right, changes)))
    requires forall k :: 0 <= k < |output| ==> RightDerived(kind, left, output[k])
    ensures Handled(OpOf(kind), [left, right], 1, changes, output)
  {
    hide Tracks, RightDerived, Join, Denote, Apply, Derived, Inputs, OpOf;
    RightIsDerived(kind, left, right, changes, output);
    assert [left, right][1 := Apply(right, changes)] == [left, Apply(right, changes)];
    DenotesJoin(kind, left, right);
    DenotesJoin(kind, left, Apply(right, changes));
  }

  lemma ThroughoutStep(kind: JoinKind, right: Coll, changes: Batch)
    requires KeyedThroughout(kind, right, changes) && changes != []
    ensures Keyed(kind, right) && Keyed(kind, ApplyChange(right, changes[0]))
    ensures KeyedThroughout(kind, ApplyChange(right, changes[0]), changes[1..])
  {
    if kind.Authorizing? {
      assert KeyedOnThroughout(kind.parentColumn, ApplyChange(right, changes[0]), changes[1..]);
    }
  }

  ghost predicate KeyedThroughout(kind: JoinKind, right: Coll, changes: Batch) {
    kind.Authorizing? ==> KeyedOnThroughout(kind.parentColumn, right, changes)
  }

  // A read policy's parent column is the parent table's only primary-key column.
  predicate IdIsKey(column: string, id: Id, r: Rec) {
    id.RowId? && id.key == [ColumnOf(r.row, column)]
  }

  /** Rows whose ids encode the parent column never share a key, whatever is deleted or inserted. */
  lemma {:induction false} PrimaryKeysAreKeyed(kind: JoinKind, right: Coll, changes: Batch)
    requires kind.Authorizing?
    requires forall id :: id in right ==> IdIsKey(kind.parentColumn, id, right[id])
    requires forall k :: 0 <= k < |changes| ==> IdIsKey(kind.parentColumn, changes[k].id, changes[k].value)
    ensures KeyedThroughout(kind, right, changes)
    decreases changes
  {
    forall i, j | i in right && j in right && RightKey(kind, right[i]) == RightKey(kind, right[j])
      ensures i == j
    {
      assert IdIsKey(kind.parentColumn, i, right[i]) && IdIsKey(kind.parentColumn, j, right[j]);
    }
    if changes != [] {
      assert IdIsKey(kind.parentColumn, changes[0].id, changes[0].value);
      forall k | 0 <= k < |changes[1..]| ensures IdIsKey(kind.parentColumn, changes[1..][k].id, changes[1..][k].value) {
        assert changes[1..][k] == changes[k + 1];
      }
      PrimaryKeysAreKeyed(kind, ApplyChange(right, changes[0]), changes[1..]);
    }
  }
}
