// What the planner relies on when it drops a sort (planner.ts, executor.ts), for the trees that storage keeps
// (tree-snapshot.ts): whether a tree scan comes in the order of query values.
module StorageOrder {
  import opened Query
  import Planner
  import Executor
  import PlannedQueries
  import C = Codec
  import T = TableModel
  import S = TreeStorage
  import E = Entries
  import opened StoredValues
  import StringOrder
  import Lex
  import QueryMeaning

  // ---------- tables ----------

  ghost predicate RowStands(columns: seq<string>, row: Row, stored: T.Row) {
    KeyStands(Executor.ColumnValues(columns, row), T.Columns(columns, stored)) && AllFormed(Executor.ColumnValues(columns, row))
  }

  // The collection holds the table's rows, at ids of their own; the columns have the stored values.
  ghost predicate TableStands(columns: seq<string>, rows: Coll, primary: T.Primary, at: map<C.Bytes, Id>) {
    && at.Keys == primary.Keys
    && (forall b :: b in at ==> at[b] in rows && RowStands(columns, rows[at[b]].row, primary[b]))
    && (forall b, c :: b in at && c in at && at[b] == at[c] ==> b == c)
    && (forall id :: id in rows ==> exists b :: b in at && at[b] == id)
  }

  function IdsAt(at: map<C.Bytes, Id>, ids: seq<C.Bytes>): (r: seq<Id>)
    requires forall i :: 0 <= i < |ids| ==> ids[i] in at
    ensures |r| == |ids|
  {
    seq(|ids|, i requires 0 <= i < |ids| => at[ids[i]])
  }

  function Limit(limit: E.Option<nat>): Option<nat> {
    match limit
    case None => None
    case Some(n) => Some(n)
  }

  // ---------- one pair of rows ----------

  lemma {:induction false} FrontLess(x: C.Key, y: C.Key, k: C.Key, l: C.Key)
    requires |x| == |y| && C.KeyLess(x + k, y + l)
    ensures C.KeyLess(x, y) || C.SameKey(x, y)
  {
    hide C.PartLess, C.SamePart;
    if x != [] {
      assert (x + k)[1..] == x[1..] + k && (y + l)[1..] == y[1..] + l;
      if C.SamePart(x[0], y[0]) && C.KeyLess(x[1..] + k, y[1..] + l) {
        FrontLess(x[1..], y[1..], k, l);
        if C.SameKey(x[1..], y[1..]) {
          forall i | 0 <= i < |x| ensures C.SamePart(x[i], y[i]) {
            assert i > 0 ==> C.SamePart(x[1..][i - 1], y[1..][i - 1]);
          }
        }
      }
    }
  }

  // The rows' columns are the same way round in a query as in the tree's order.
  ghost predicate InTurn(columns: seq<string>, reverse: bool, a: Row, b: Row) {
    Executor.Directed(CompareKeys(Executor.ColumnValues(columns, a), Executor.ColumnValues(columns, b)), reverse) <= 0
  }

  // The first row's key comes first, or last, in the tree; the columns are the first of the key.
  ghost predicate Follows(columns: seq<string>, reverse: bool, a: T.Row, b: T.Row) {
    exists k: C.Key, l: C.Key :: S.KeyBefore(reverse, T.Columns(columns, a) + k, T.Columns(columns, b) + l)
  }

  /** Rows that a scan lists one after the other are in query order exactly if their columns agree. */
  lemma PairInTurn(columns: seq<string>, reverse: bool, a: Row, b: Row, stored: T.Row, stored': T.Row)
    requires RowStands(columns, a, stored) && RowStands(columns, b, stored') && Follows(columns, reverse, stored, stored')
    ensures InTurn(columns, reverse, a, b) <==> KeysAgree(Executor.ColumnValues(columns, a), Executor.ColumnValues(columns, b))
  {
    hide C.KeyLess, C.SameKey, KeyStands, AllFormed, KeysAgree, CompareKeys, T.Columns, Executor.ColumnValues;
    var x, y := T.Columns(columns, stored), T.Columns(columns, stored');
    var v, w := Executor.ColumnValues(columns, a), Executor.ColumnValues(columns, b);
    var k: C.Key, l: C.Key :| S.KeyBefore(reverse, x + k, y + l);
    if reverse {
      FrontLess(y, x, l, k);
      OneWay(w, v, y, x);
      AgreeSwaps(v, w);
      CompareKeysOrder(v, w, v);
    } else {
      FrontLess(x, y, k, l);
      OneWay(v, w, x, y);
    }
  }

  lemma OneWay(v: seq<Value>, w: seq<Value>, x: C.Key, y: C.Key)
    requires KeyStands(v, x) && KeyStands(w, y) && AllFormed(v) && AllFormed(w)
    requires C.KeyLess(x, y) || C.SameKey(x, y)
    ensures CompareKeys(v, w) <= 0 <==> KeysAgree(v, w)
  {
    hide KeyStands, AllFormed, C.KeyBytes, CompareKeys;
    KeyOrder(v, w, x, y);
    SameKeys(v, w, x, y);
    CompareKeysOrder(v, w, v);
    if C.SameKey(x, y) {
      SelfAgrees(v);
    } else {
      NotBoth(x, y);
      LessIsStrict(v, w, x, y);
    }
  }

  lemma {:induction false} SelfAgrees(v: seq<Value>)
    ensures KeysAgree(v, v)
  {
    if v != [] {
      SelfAgrees(v[1..]);
    }
  }

  lemma NotBoth(x: C.Key, y: C.Key)
    ensures C.KeyLess(x, y) ==> !C.KeyLess(y, x)
  {
    C.KeyCases(x, y);
    C.KeyCases(y, x);
  }

  lemma LessIsStrict(v: seq<Value>, w: seq<Value>, x: C.Key, y: C.Key)
    requires C.KeyLess(x, y) && !C.SameKey(x, y) && (v == w <==> C.SameKey(x, y))
    ensures CompareKeys(v, w) != 0
  {
    CompareKeysOrder(v, w, v);
  }

  lemma {:induction false} AgreeSwaps(v: seq<Value>, w: seq<Value>)
    ensures KeysAgree(v, w) <==> KeysAgree(w, v)
  {
    if v != [] && w != [] {
      AgreeSwaps(v[1..], w[1..]);
      MixedSwaps(v[0], w[0]);
    }
  }

  lemma MixedSwaps(v: Value, w: Value)
    ensures Agree(v, w) <==> Agree(w, v)
  {
    if v.Str? && w.Str? && Formed(v) && Formed(w) {
      forall k: nat ensures StringOrder.MixedAt(v.units, w.units, k) <==> StringOrder.MixedAt(w.units, v.units, k) {
      }
    }
  }

  // ---------- scans ----------

  // The rows that satisfy a condition, each once, in the tree's order of the columns, up to a limit.
  ghost predicate Fetched(columns: seq<string>, rows: Coll, primary: T.Primary, at: map<C.Bytes, Id>, keep: Row -> bool, reverse: bool,
      limit: Option<nat>, ids: seq<C.Bytes>)
    requires TableStands(columns, rows, primary, at)
  {
    && (forall i :: 0 <= i < |ids| ==> ids[i] in primary && keep(rows[at[ids[i]]].row))
    && (forall i, j :: 0 <= i < j < |ids| ==> ids[i] != ids[j] && Follows(columns, reverse, primary[ids[i]], primary[ids[j]]))
    && (limit.Some? ==> |ids| <= limit.value)
    && (forall b :: b in primary && keep(rows[at[b]].row) ==> b in ids || LeftOut(columns, primary, reverse, limit, ids, b))
  }

  ghost predicate LeftOut(columns: seq<string>, primary: T.Primary, reverse: bool, limit: Option<nat>, ids: seq<C.Bytes>, b: C.Bytes)
    requires b in primary && forall i :: 0 <= i < |ids| ==> ids[i] in primary
  {
    limit == Some(|ids|) && forall i :: 0 <= i < |ids| ==> Follows(columns, reverse, primary[ids[i]], primary[b])
  }

  // The columns of two rows of the table agree.
  ghost predicate RowsAgree(columns: seq<string>, a: Row, b: Row) {
    KeysAgree(Executor.ColumnValues(columns, a), Executor.ColumnValues(columns, b))
  }

  lemma FetchedLists(columns: seq<string>, rows: Coll, primary: T.Primary, at: map<C.Bytes, Id>, keep: Row -> bool, reverse: bool, ids: seq<C.Bytes>)
    requires TableStands(columns, rows, primary, at) && Fetched(columns, rows, primary, at, keep, reverse, None, ids)
    ensures Executor.Lists(IdsAt(at, ids), rows, keep)
  {
    hide RowStands, Follows;
    var s := IdsAt(at, ids);
    forall id | id in rows && keep(rows[id].row) ensures id in s {
      var b :| b in at && at[b] == id;
      var i :| 0 <= i < |ids| && ids[i] == b;
      assert s[i] == id;
    }
  }

  lemma FetchedPair(columns: seq<string>, rows: Coll, primary: T.Primary, at: map<C.Bytes, Id>, reverse: bool, a: C.Bytes, b: C.Bytes)
    requires TableStands(columns, rows, primary, at) && a in primary && b in primary && Follows(columns, reverse, primary[a], primary[b])
    ensures InTurn(columns, reverse, rows[at[a]].row, rows[at[b]].row) <==> RowsAgree(columns, rows[at[a]].row, rows[at[b]].row)
  {
    hide RowStands, Follows, InTurn;
    PairInTurn(columns, reverse, rows[at[a]].row, rows[at[b]].row, primary[a], primary[b]);
  }

  /** A whole scan of a tree lists the rows, and it lists them in the order of query values exactly if no two of them
      disagree in the columns. */
  lemma FetchedExactly(columns: seq<string>, rows: Coll, primary: T.Primary, at: map<C.Bytes, Id>, keep: Row -> bool, reverse: bool, ids: seq<C.Bytes>)
    requires TableStands(columns, rows, primary, at) && Fetched(columns, rows, primary, at, keep, reverse, None, ids)
    ensures Executor.Lists(IdsAt(at, ids), rows, keep)
    ensures Executor.InColumnOrder(IdsAt(at, ids), rows, columns, reverse)
      <==> forall i, j :: 0 <= i < j < |ids| ==> RowsAgree(columns, rows[at[ids[i]]].row, rows[at[ids[j]]].row)
  {
    FetchedLists(columns, rows, primary, at, keep, reverse, ids);
    hide RowStands, Follows, RowsAgree, CompareKeys, Executor.Lists;
    var s := IdsAt(at, ids);
    forall i, j | 0 <= i < j < |ids|
      ensures InTurn(columns, reverse, rows[s[i]].row, rows[s[j]].row) <==> RowsAgree(columns, rows[at[ids[i]]].row, rows[at[ids[j]]].row)
    {
      FetchedPair(columns, rows, primary, at, reverse, ids[i], ids[j]);
    }
    assert forall i :: 0 <= i < |ids| ==> s[i] in rows;
    InTurnOrders(s, rows, columns, reverse);
  }

  lemma InTurnOrders(s: seq<Id>, rows: Coll, columns: seq<string>, reverse: bool)
    requires forall i :: 0 <= i < |s| ==> s[i] in rows
    ensures Executor.InColumnOrder(s, rows, columns, reverse)
      <==> forall i, j :: 0 <= i < j < |s| ==> InTurn(columns, reverse, rows[s[i]].row, rows[s[j]].row)
  {
    hide CompareKeys;
  }

  // ---------- scans with a limit ----------

  // The rows that a scan has not listed.
  function Others(s: seq<Id>, rows: Coll): Coll {
    map id | id in rows && id !in s :: rows[id]
  }

  lemma JoinedOrder(s: seq<Id>, rest: seq<Id>, rows: Coll, columns: seq<string>, reverse: bool)
    requires (forall i :: 0 <= i < |s| ==> s[i] in rows) && (forall i :: 0 <= i < |rest| ==> rest[i] in rows)
    requires forall i, j :: 0 <= i < j < |s| ==> InTurn(columns, reverse, rows[s[i]].row, rows[s[j]].row)
    requires forall i, j :: 0 <= i < j < |rest| ==> InTurn(columns, reverse, rows[rest[i]].row, rows[rest[j]].row)
    requires forall i, j :: 0 <= i < |s| && 0 <= j < |rest| ==> InTurn(columns, reverse, rows[s[i]].row, rows[rest[j]].row)
    ensures Executor.InColumnOrder(s + rest, rows, columns, reverse)
  {
    hide InTurn;
    var full := s + rest;
    forall i, j | 0 <= i < j < |full| ensures InTurn(columns, reverse, rows[full[i]].row, rows[full[j]].row) {
    }
    InTurnOrders(full, rows, columns, reverse);
  }

  lemma JoinedLists(s: seq<Id>, rest: seq<Id>, rows: Coll, keep: Row -> bool)
    requires forall i :: 0 <= i < |s| ==> s[i] in rows && keep(rows[s[i]].row)
    requires forall i, j :: 0 <= i < j < |s| ==> s[i] != s[j]
    requires Executor.Lists(rest, Others(s, rows), keep)
    ensures Executor.Lists(s + rest, rows, keep)
  {
    var full := s + rest;
    forall id ensures id in full <==> id in rows && keep(rows[id].row) {
      assert id in full <==> id in s || id in rest;
      if id in s {
        var i :| 0 <= i < |s| && s[i] == id;
      }
    }
    forall i, j | 0 <= i < j < |full| ensures full[i] != full[j] {
      if i < |s| <= j {
        assert s[i] in s && rest[j - |s|] in rest;
      }
    }
  }

  /** If no two rows disagree in the columns, a limited scan of a tree gives the first rows in the order of query values. */
  lemma FetchedTakes(columns: seq<string>, rows: Coll, primary: T.Primary, at: map<C.Bytes, Id>, keep: Row -> bool, reverse: bool,
      limit: Option<nat>, ids: seq<C.Bytes>)
    requires TableStands(columns, rows, primary, at) && Fetched(columns, rows, primary, at, keep, reverse, limit, ids)
    requires forall b, c :: b in primary && c in primary && keep(rows[at[b]].row) && keep(rows[at[c]].row) ==>
      RowsAgree(columns, rows[at[b]].row, rows[at[c]].row)
    ensures exists full ::
      Executor.Lists(full, rows, keep) && Executor.InColumnOrder(full, rows, columns, reverse) && IdsAt(at, ids) == Take(limit, full)
  {
    hide RowStands, Follows, RowsAgree, CompareKeys, InTurn, Executor.Lists, Executor.InColumnOrder;
    var s := IdsAt(at, ids);
    var rest := PlannedQueries.SortedScan(Others(s, rows), columns, reverse, keep);
    PlannedQueries.SortedScanIs(Others(s, rows), columns, reverse, keep);
    ListedThere(rest, s, rows, keep);
    forall i, j | 0 <= i < j < |s| ensures s[i] != s[j] && InTurn(columns, reverse, rows[s[i]].row, rows[s[j]].row) {
      FetchedPair(columns, rows, primary, at, reverse, ids[i], ids[j]);
    }
    forall i, j | 0 <= i < |s| && 0 <= j < |rest| ensures InTurn(columns, reverse, rows[s[i]].row, rows[rest[j]].row) {
      RestFollows(columns, rows, primary, at, keep, reverse, limit, ids, rest[j]);
      var b :| b in at && at[b] == rest[j];
      FetchedPair(columns, rows, primary, at, reverse, ids[i], b);
    }
    OthersInTurn(rest, s, rows, columns, reverse);
    JoinedOrder(s, rest, rows, columns, reverse);
    JoinedLists(s, rest, rows, keep);
    if rest != [] {
      RestFollows(columns, rows, primary, at, keep, reverse, limit, ids, rest[0]);
    }
    TakesFront(s, rest, limit);
  }

  lemma TakesFront(s: seq<Id>, rest: seq<Id>, limit: Option<nat>)
    requires limit.Some? ==> |s| <= limit.value
    requires rest != [] ==> limit == Some(|s|)
    ensures s == Take(limit, s + rest)
  {
  }

  lemma ListedThere(rest: seq<Id>, s: seq<Id>, rows: Coll, keep: Row -> bool)
    requires Executor.Lists(rest, Others(s, rows), keep)
    ensures forall i :: 0 <= i < |rest| ==> rest[i] in rows && rest[i] !in s && keep(rows[rest[i]].row)
  {
    assert forall i :: 0 <= i < |rest| ==> rest[i] in rest;
  }

  lemma OthersInTurn(rest: seq<Id>, s: seq<Id>, rows: Coll, columns: seq<string>, reverse: bool)
    requires (forall i :: 0 <= i < |rest| ==> rest[i] in rows && rest[i] !in s)
    requires Executor.InColumnOrder(rest, Others(s, rows), columns, reverse)
    ensures forall i, j :: 0 <= i < j < |rest| ==> InTurn(columns, reverse, rows[rest[i]].row, rows[rest[j]].row)
  {
    hide CompareKeys;
    InTurnOrders(rest, Others(s, rows), columns, reverse);
  }

  // A row that a limited scan does not list follows all that it lists.
  lemma RestFollows(columns: seq<string>, rows: Coll, primary: T.Primary, at: map<C.Bytes, Id>, keep: Row -> bool, reverse: bool,
      limit: Option<nat>, ids: seq<C.Bytes>, id: Id)
    requires TableStands(columns, rows, primary, at) && Fetched(columns, rows, primary, at, keep, reverse, limit, ids)
    requires id in rows && keep(rows[id].row) && id !in IdsAt(at, ids)
    ensures limit == Some(|ids|)
    ensures forall b :: b in at && at[b] == id ==> LeftOut(columns, primary, reverse, limit, ids, b)
  {
    hide RowStands, Follows;
    var b :| b in at && at[b] == id;
    InIds(at, ids, b);
    forall c | c in at && at[c] == id ensures c == b {
    }
  }

  lemma InIds(at: map<C.Bytes, Id>, ids: seq<C.Bytes>, b: C.Bytes)
    requires b in at && forall i :: 0 <= i < |ids| ==> ids[i] in at
    ensures b in ids ==> at[b] in IdsAt(at, ids)
  {
    if b in ids {
      var i :| 0 <= i < |ids| && ids[i] == b;
      assert IdsAt(at, ids)[i] == at[b];
    }
  }

  // ---------- the scans of the database ----------

  lemma {:induction false} PrefixStands(columns: seq<string>, row: Row, stored: T.Row, n: nat)
    requires RowStands(columns, row, stored) && n <= |columns|
    ensures KeyStands(Executor.ColumnValues(columns, row)[..n], T.Columns(columns, stored)[..n])
    ensures AllFormed(Executor.ColumnValues(columns, row)[..n])
  {
    hide Stands, Formed, Executor.ColumnValues, T.Columns;
  }

  // A row has the scanned key exactly if its stored columns begin with it.
  lemma KeyMatches(table: T.Table, index: T.Index, row: Row, stored: T.Row, key: seq<Value>, p: C.Key)
    requires RowStands(index.columns, row, stored) && KeyStands(key, p) && AllFormed(key) && |key| <= |index.columns|
    ensures S.Matches(table, index, p, stored) <==> Executor.HasKey(index.columns, key)(row)
  {
    hide Stands, Formed, C.SamePart, KeyStands, AllFormed, RowStands;
    KeyLength(key, p);
    PrefixStands(index.columns, row, stored, |key|);
    var v, x := Executor.ColumnValues(index.columns, row)[..|key|], T.Columns(index.columns, stored)[..|key|];
    SameKeys(key, v, p, x);
    assert S.FullKey(table, index, stored)[..|p|] == x;
  }

  lemma KeyLength(key: seq<Value>, p: C.Key)
    requires KeyStands(key, p)
    ensures |key| == |p|
  {
  }

  lemma SelectedFetches(table: T.Table, index: T.Index, primary: T.Primary, rows: Coll, at: map<C.Bytes, Id>, key: seq<Value>, p: C.Key,
      reverse: bool, limit: E.Option<nat>, stored: seq<T.Row>, ids: seq<C.Bytes>)
    requires S.Selected(table, index, primary, p, reverse, limit, stored, ids)
    requires TableStands(index.columns, rows, primary, at) && KeyStands(key, p) && AllFormed(key) && |key| <= |index.columns|
    ensures Fetched(index.columns, rows, primary, at, Executor.HasKey(index.columns, key), reverse, Limit(limit), ids)
  {
    hide RowStands, Follows, S.Matches, S.KeyBefore, S.FullKey, KeyStands, AllFormed, Executor.HasKey;
    forall b | b in primary ensures S.Matches(table, index, p, primary[b]) <==> Executor.HasKey(index.columns, key)(rows[at[b]].row) {
      KeyMatches(table, index, rows[at[b]].row, primary[b], key, p);
    }
    forall i, j | 0 <= i < j < |ids| ensures Follows(index.columns, reverse, primary[ids[i]], primary[ids[j]]) {
      FullFollows(table, index, reverse, primary[ids[i]], primary[ids[j]]);
    }
    forall b | b in primary && S.Matches(table, index, p, primary[b]) && b !in ids
      ensures LeftOut(index.columns, primary, reverse, Limit(limit), ids, b)
    {
      forall i | 0 <= i < |ids| ensures Follows(index.columns, reverse, primary[ids[i]], primary[b]) {
        FullFollows(table, index, reverse, primary[ids[i]], primary[b]);
      }
    }
  }

  lemma FullFollows(table: T.Table, index: T.Index, reverse: bool, a: T.Row, b: T.Row)
    requires S.KeyBefore(reverse, S.FullKey(table, index, a), S.FullKey(table, index, b))
    ensures Follows(index.columns, reverse, a, b)
  {
    hide C.KeyLess;
    assert S.KeyBefore(reverse, T.Columns(index.columns, a) + T.PrimaryKey(table, a), T.Columns(index.columns, b) + T.PrimaryKey(table, b));
  }

  lemma OwnFollows(table: T.Table, reverse: bool, a: T.Row, b: T.Row)
    requires S.KeyBefore(reverse, T.PrimaryKey(table, a), T.PrimaryKey(table, b))
    ensures Follows(table.primaryColumns, reverse, a, b)
  {
    hide C.KeyLess;
    assert T.PrimaryKey(table, a) + [] == T.PrimaryKey(table, a) && T.PrimaryKey(table, b) + [] == T.PrimaryKey(table, b);
    assert S.KeyBefore(reverse, T.Columns(table.primaryColumns, a) + [], T.Columns(table.primaryColumns, b) + []);
  }

  lemma TableFetches(table: T.Table, primary: T.Primary, rows: Coll, at: map<C.Bytes, Id>, reverse: bool, limit: E.Option<nat>,
      stored: seq<T.Row>, ids: seq<C.Bytes>)
    requires S.Ranged(table, primary, S.Unbounded(), reverse, limit, stored, ids)
    requires TableStands(table.primaryColumns, rows, primary, at)
    ensures Fetched(table.primaryColumns, rows, primary, at, Executor.AnyRow(), reverse, Limit(limit), ids)
  {
    hide RowStands, Follows, S.KeyBefore, T.PrimaryKey;
    forall i, j | 0 <= i < j < |ids| ensures Follows(table.primaryColumns, reverse, primary[ids[i]], primary[ids[j]]) {
      OwnFollows(table, reverse, primary[ids[i]], primary[ids[j]]);
    }
    forall b | b in primary && b !in ids ensures LeftOut(table.primaryColumns, primary, reverse, Limit(limit), ids, b) {
      forall i | 0 <= i < |ids| ensures Follows(table.primaryColumns, reverse, primary[ids[i]], primary[b]) {
        OwnFollows(table, reverse, primary[ids[i]], primary[b]);
      }
    }
  }

  // No two rows that satisfy the condition disagree in the columns.
  ghost predicate NoneDisagree(columns: seq<string>, rows: Coll, keep: Row -> bool) {
    forall i, j :: i in rows && j in rows && keep(rows[i].row) && keep(rows[j].row) ==> RowsAgree(columns, rows[i].row, rows[j].row)
  }

  lemma FetchedIndex(columns: seq<string>, primary: T.Primary, rows: Coll, at: map<C.Bytes, Id>, def: Planner.TableDef, indexDef: Planner.IndexDef,
      key: seq<Planner.PlannedValue>, ctx: Context, reverse: bool, limit: Option<nat>, ids: seq<C.Bytes>)
    requires TableStands(columns, rows, primary, at) && indexDef.columns == columns && |key| <= |columns|
    requires Undefined !in Executor.ResolveAll(key, ctx)
    requires Fetched(columns, rows, primary, at, Executor.HasKey(columns, Executor.ResolveAll(key, ctx)), reverse, limit, ids)
    ensures NoneDisagree(columns, rows, Executor.HasKey(columns, Executor.ResolveAll(key, ctx))) ==>
      Executor.ScanOf(def, rows, Planner.IndexScan(indexDef, key, reverse, limit), ctx, IdsAt(at, ids))
    ensures limit == None && Executor.ScanOf(def, rows, Planner.IndexScan(indexDef, key, reverse, limit), ctx, IdsAt(at, ids)) ==>
      forall i, j :: 0 <= i < j < |ids| ==> RowsAgree(columns, rows[at[ids[i]]].row, rows[at[ids[j]]].row)
  {
    hide RowStands, RowsAgree, Executor.Lists, Executor.InColumnOrder, Follows, Executor.HasKey;
    var keep := Executor.HasKey(columns, Executor.ResolveAll(key, ctx));
    if NoneDisagree(columns, rows, keep) {
      FetchedTakes(columns, rows, primary, at, keep, reverse, limit, ids);
    }
    if limit == None {
      FetchedExactly(columns, rows, primary, at, keep, reverse, ids);
    }
  }

  /** An index scan of the trees is a scan as the planner takes it if no two rows with the key disagree in the indexed
      columns; without a limit, only if no two of them do in the order in which they are listed. */
  lemma IndexScanStands(table: T.Table, index: T.Index, primary: T.Primary, rows: Coll, at: map<C.Bytes, Id>, def: Planner.TableDef,
      indexDef: Planner.IndexDef, key: seq<Planner.PlannedValue>, ctx: Context, p: C.Key, reverse: bool, limit: E.Option<nat>,
      stored: seq<T.Row>, ids: seq<C.Bytes>)
    requires S.Selected(table, index, primary, p, reverse, limit, stored, ids)
    requires TableStands(index.columns, rows, primary, at) && indexDef.columns == index.columns
    requires KeyStands(Executor.ResolveAll(key, ctx), p) && AllFormed(Executor.ResolveAll(key, ctx)) && |key| <= |index.columns|
    ensures NoneDisagree(index.columns, rows, Executor.HasKey(index.columns, Executor.ResolveAll(key, ctx))) ==>
      Executor.ScanOf(def, rows, Planner.IndexScan(indexDef, key, reverse, Limit(limit)), ctx, IdsAt(at, ids))
    ensures limit == E.None && Executor.ScanOf(def, rows, Planner.IndexScan(indexDef, key, reverse, None), ctx, IdsAt(at, ids)) ==>
      forall i, j :: 0 <= i < j < |ids| ==> RowsAgree(index.columns, rows[at[ids[i]]].row, rows[at[ids[j]]].row)
  {
    hide RowStands, RowsAgree, NoneDisagree, KeyStands, AllFormed, Executor.ScanOf, Follows, Executor.HasKey, S.KeyBefore, S.Matches;
    SelectedFetches(table, index, primary, rows, at, Executor.ResolveAll(key, ctx), p, reverse, limit, stored, ids);
    NoneUndefined(Executor.ResolveAll(key, ctx), p);
    FetchedIndex(index.columns, primary, rows, at, def, indexDef, key, ctx, reverse, Limit(limit), ids);
  }

  lemma NoneUndefined(key: seq<Value>, p: C.Key)
    requires KeyStands(key, p)
    ensures Undefined !in key
  {
    forall i | 0 <= i < |key| ensures key[i] != Undefined {
      assert Stands(key[i], p[i]);
    }
  }

  /** The same for a scan of a table in key order. */
  lemma TableScanStands(table: T.Table, primary: T.Primary, rows: Coll, at: map<C.Bytes, Id>, def: Planner.TableDef, ctx: Context,
      reverse: bool, limit: E.Option<nat>, stored: seq<T.Row>, ids: seq<C.Bytes>)
    requires S.Ranged(table, primary, S.Unbounded(), reverse, limit, stored, ids)
    requires TableStands(table.primaryColumns, rows, primary, at) && def.primaryColumns == table.primaryColumns
    ensures NoneDisagree(table.primaryColumns, rows, Executor.AnyRow()) ==>
      Executor.ScanOf(def, rows, Planner.TableScan(reverse, Limit(limit)), ctx, IdsAt(at, ids))
    ensures limit == E.None && Executor.ScanOf(def, rows, Planner.TableScan(reverse, None), ctx, IdsAt(at, ids)) ==>
      forall i, j :: 0 <= i < j < |ids| ==> RowsAgree(table.primaryColumns, rows[at[ids[i]]].row, rows[at[ids[j]]].row)
  {
    hide RowStands, RowsAgree, S.Ranged, Executor.Lists, Executor.InColumnOrder, Follows;
    TableFetches(table, primary, rows, at, reverse, limit, stored, ids);
    if NoneDisagree(table.primaryColumns, rows, Executor.AnyRow()) {
      FetchedTakes(table.primaryColumns, rows, primary, at, Executor.AnyRow(), reverse, Limit(limit), ids);
    }
    if limit == E.None {
      FetchedExactly(table.primaryColumns, rows, primary, at, Executor.AnyRow(), reverse, ids);
    }
  }

  /** Reading one key of the tree is the planner's access by primary key. */
  lemma PointReadStands(table: T.Table, primary: T.Primary, rows: Coll, at: map<C.Bytes, Id>, def: Planner.TableDef,
      key: seq<Planner.PlannedValue>, ctx: Context, p: C.Key)
    requires T.Keyed(table, primary) && TableStands(table.primaryColumns, rows, primary, at) && def.primaryColumns == table.primaryColumns
    requires forall id :: id in rows ==> id == RowId(Executor.ColumnValues(def.primaryColumns, rows[id].row))
    requires KeyStands(Executor.ResolveAll(key, ctx), p) && AllFormed(Executor.ResolveAll(key, ctx))
    ensures C.EncodableKey(p)
    ensures Executor.ScanOf(def, rows, Planner.PrimaryKey(key), ctx, if C.KeyBytes(p) in primary then [at[C.KeyBytes(p)]] else [])
  {
    hide KeyStands, AllFormed, C.KeyBytes, C.SameKey, C.EncodableKey, Executor.ColumnValues, T.Columns;
    var values := Executor.ResolveAll(key, ctx);
    StandsEncodes(values, p);
    NoneUndefined(values, p);
    forall b | b in primary ensures b == C.KeyBytes(p) <==> at[b] == RowId(values) {
      assert T.KeyedRow(table, b, primary[b]);
      C.EncodingInjective(T.PrimaryKey(table, primary[b]), p);
      SameKeys(Executor.ColumnValues(def.primaryColumns, rows[at[b]].row), values, T.Columns(table.primaryColumns, primary[b]), p);
    }
  }

  /** U+E000 comes before U+10000 in a tree, and behind it in a query: where both begin strings of an ordered column, a plan
      without a sort is out of order. */
  lemma PlanesDisagree()
    ensures var high, far := [0xE000], [0xD800, 0xDC00];
      && CompareKeys([Str(far)], [Str(high)]) < 0
      && Lex.Less(C.KeyBytes([C.Text(high)]), C.KeyBytes([C.Text(far)]))
      && !KeysAgree([Str(high)], [Str(far)])
  {
    var high: seq<C.Unit>, far: seq<C.Unit> := [0xE000], [0xD800, 0xDC00];
    StringOrder.CompareFirst(far, high);
    assert far[2..] == [] && high[1..] == [];
    assert StringOrder.Paired(high) && StringOrder.Paired(far);
    assert StringOrder.MixedAt(high, far, 0);
    KeyOrderExactly([Str(high)], [Str(far)], [C.Text(high)], [C.Text(far)]);
    StringOrder.PointsStep(high);
    StringOrder.PointsStep(far);
    StringOrder.CompareFirst(C.Points(high), C.Points(far));
    C.OrderPreserved([C.Text(high)], [C.Text(far)]);
  }

  // ---------- what the orders mean ----------

  /** Scanned by a column of numbers, rows ascend; scanned backwards they descend. */
  lemma ScanOfNumbers(s: seq<Id>, rows: Coll, column: string, reverse: bool, i: nat, j: nat, x: real, y: real)
    requires Executor.InColumnOrder(s, rows, [column], reverse) && i < j < |s| && s[i] in rows && s[j] in rows
    requires ColumnOf(rows[s[i]].row, column) == Num(x) && ColumnOf(rows[s[j]].row, column) == Num(y)
    ensures if reverse then x >= y else x <= y
  {
    var v, w := Executor.ColumnValues([column], rows[s[i]].row), Executor.ColumnValues([column], rows[s[j]].row);
    assert v == [Num(x)] && w == [Num(y)] && v[1..] == [] && w[1..] == [];
    assert Executor.Directed(CompareKeys(v, w), reverse) <= 0;
  }

  /** The rows of every answer that a query allows come in the query's order, value by value. */
  lemma AnswersInOrder(node: Node, db: Database, ctx: Context, s: seq<Id>, i: nat, j: nat)
    requires Executor.Arranged(node, db, ctx, s) && i < j < |s|
    requires QueryMeaning.AllComparable(node.order, QueryMeaning.ContextOf(node, db, ctx, s[i]), QueryMeaning.ContextOf(node, db, ctx, s[j]))
    ensures QueryMeaning.InOrderFrom(node.order, QueryMeaning.ContextOf(node, db, ctx, s[i]), QueryMeaning.ContextOf(node, db, ctx, s[j]))
  {
    hide CompareOrders, Executor.Lists, QueryMeaning.AllComparable;
    QueryMeaning.OrdersMean(node.order, QueryMeaning.ContextOf(node, db, ctx, s[i]), QueryMeaning.ContextOf(node, db, ctx, s[j]));
  }

  /** They are the rows whose filters are all true, each once. */
  lemma AnswersPass(node: Node, db: Database, ctx: Context, s: seq<Id>, id: Id)
    requires Executor.Arranged(node, db, ctx, s)
    ensures id in s ==> id in Rows(db, node.source)
    ensures id in Rows(db, node.source) ==>
      var row := Rows(db, node.source)[id].row;
      (id in s <==> forall i :: 0 <= i < |node.filters| ==> Truthy(EvalExpr(node.filters[i], ctx[node.source := row])))
    ensures forall i, j :: 0 <= i < j < |s| ==> s[i] != s[j]
  {
    hide EvalExpr, Truthy;
  }
}
