// The changes that a commit reports (tree-storage-model.ts) as subscriptions apply them (subscription.ts).
module CommittedChanges {
  import opened Query
  import opened DataflowOperators
  import C = Codec
  import T = TableModel
  import opened StoredValues
  import Lex
  import S = SubscriptionState

  // The key of a row in a query is encoded as the bytes.
  ghost predicate Names(key: seq<Value>, b: C.Bytes) {
    AllFormed(key) && exists p :: NamesBy(key, p, b)
  }

  ghost predicate NamesBy(key: seq<Value>, p: C.Key, b: C.Bytes) {
    KeyStands(key, p) && C.EncodableKey(p) && C.KeyBytes(p) == b
  }

  lemma NamesOnce(k: seq<Value>, b: C.Bytes, l: seq<Value>, c: C.Bytes)
    requires Names(k, b) && Names(l, c)
    ensures k == l <==> b == c
  {
    hide KeyStands, AllFormed, C.KeyBytes, C.EncodableKey, Lex.Less, CompareKeys, KeysAgree;
    var p :| NamesBy(k, p, b);
    var q :| NamesBy(l, q, c);
    KeyOrderExactly(k, l, p, q);
  }

  // The columns of a row as a query sees them have the stored values.
  ghost predicate RowIs(columns: set<string>, row: Row, stored: T.Row) {
    forall column :: column in columns ==> Stands(ColumnOf(row, column), T.ColumnPart(stored, column))
  }

  ghost predicate Stored(id: Id, primary: T.Primary) {
    id.RowId? && exists b :: b in primary && Names(id.key, b)
  }

  ghost predicate Seen(b: C.Bytes, rows: S.TableRows) {
    exists key :: RowId(key) in rows && Names(key, b)
  }

  // The rows of a table as a query sees them are the stored rows, under the same keys.
  ghost predicate Mirrors(columns: set<string>, rows: S.TableRows, primary: T.Primary) {
    && (forall id :: id in rows ==> Stored(id, primary))
    && (forall b :: b in primary ==> Seen(b, rows))
    && (forall key, b :: Names(key, b) && RowId(key) in rows && b in primary ==> RowIs(columns, rows[RowId(key)], primary[b]))
  }

  ghost predicate MirrorsAll(columns: map<string, set<string>>, tables: S.Tables, rows: T.Rows) {
    forall t :: t in rows ==> t in columns && Mirrors(columns[t], S.TableOf(tables, t), rows[t])
  }

  // A reported change as a subscription receives it.
  ghost predicate ChangeIs(columns: map<string, set<string>>, c: S.TableChange, stored: T.StoredChange) {
    && c.table == stored.table && c.table in columns
    && C.EncodableKey(stored.change.key) && KeyStands(c.change.key, stored.change.key) && AllFormed(c.change.key)
    && (c.change.after.Some? <==> stored.change.after.Some?)
    && (c.change.after.Some? ==> RowIs(columns[c.table], c.change.after.value, stored.change.after.value))
  }

  lemma RowChanges(columns: set<string>, rows: S.TableRows, primary: T.Primary, key: seq<Value>, b: C.Bytes, after: Option<Row>, stored: C.Option<T.Row>)
    requires Mirrors(columns, rows, primary) && Names(key, b)
    requires (after.Some? <==> stored.Some?) && (after.Some? ==> RowIs(columns, after.value, stored.value))
    ensures Mirrors(columns, S.CommitRow(rows, RowChange(key, after)), T.WithRow(primary, b, stored))
  {
    hide Names, RowIs, Stored, Seen;
    var rows', primary' := S.CommitRow(rows, RowChange(key, after)), T.WithRow(primary, b, stored);
    forall id | id in rows' ensures Stored(id, primary') {
      StoredStill(rows, primary, key, b, after, stored, id);
    }
    forall c | c in primary' ensures Seen(c, rows') {
      SeenStill(rows, primary, key, b, after, stored, c);
    }
    forall k, c | Names(k, c) && RowId(k) in rows' && c in primary' ensures RowIs(columns, rows'[RowId(k)], primary'[c]) {
      NamesOnce(key, b, k, c);
    }
  }

  lemma StoredStill(rows: S.TableRows, primary: T.Primary, key: seq<Value>, b: C.Bytes, after: Option<Row>, stored: C.Option<T.Row>, id: Id)
    requires Names(key, b) && (after.Some? <==> stored.Some?) && id in S.CommitRow(rows, RowChange(key, after))
    requires id in rows ==> Stored(id, primary)
    ensures Stored(id, T.WithRow(primary, b, stored))
  {
    hide Names;
    if id == RowId(key) {
      assert b in T.WithRow(primary, b, stored);
    } else {
      var c :| c in primary && Names(id.key, c);
      NamesOnce(key, b, id.key, c);
      assert c in T.WithRow(primary, b, stored);
    }
  }

  lemma SeenStill(rows: S.TableRows, primary: T.Primary, key: seq<Value>, b: C.Bytes, after: Option<Row>, stored: C.Option<T.Row>, c: C.Bytes)
    requires Names(key, b) && (after.Some? <==> stored.Some?) && c in T.WithRow(primary, b, stored)
    requires c in primary ==> Seen(c, rows)
    ensures Seen(c, S.CommitRow(rows, RowChange(key, after)))
  {
    hide Names;
    if c == b {
      assert RowId(key) in S.CommitRow(rows, RowChange(key, after));
    } else {
      var k :| RowId(k) in rows && Names(k, c);
      NamesOnce(key, b, k, c);
      assert RowId(k) in S.CommitRow(rows, RowChange(key, after));
    }
  }

  lemma ChangeNames(columns: map<string, set<string>>, c: S.TableChange, stored: T.StoredChange)
    requires ChangeIs(columns, c, stored)
    ensures C.EncodableKey(stored.change.key) && Names(c.change.key, C.KeyBytes(stored.change.key))
  {
    assert NamesBy(c.change.key, stored.change.key, C.KeyBytes(stored.change.key));
  }

  /** What subscriptions make of the reported changes, applied in order, is what the changes make of the stored rows. */
  lemma {:induction false} CommittedIsReplayed(columns: map<string, set<string>>, tables: S.Tables, rows: T.Rows,
      changes: seq<S.TableChange>, stored: seq<T.StoredChange>)
    requires MirrorsAll(columns, tables, rows) && |changes| == |stored|
    requires forall i :: 0 <= i < |changes| ==> ChangeIs(columns, changes[i], stored[i]) && stored[i].table in rows
    ensures T.Replayed(rows, stored).Keys == rows.Keys
    ensures MirrorsAll(columns, S.Committed(tables, changes), T.Replayed(rows, stored))
  {
    hide ChangeIs, Mirrors, C.KeyBytes, C.EncodableKey, S.CommitRow, T.WithRow;
    if changes != [] {
      var n := |changes| - 1;
      CommittedIsReplayed(columns, tables, rows, changes[..n], stored[..n]);
      OneCommitted(columns, S.Committed(tables, changes[..n]), T.Replayed(rows, stored[..n]), changes[n], stored[n]);
    }
  }

  lemma OneCommitted(columns: map<string, set<string>>, tables: S.Tables, rows: T.Rows, c: S.TableChange, stored: T.StoredChange)
    requires MirrorsAll(columns, tables, rows) && ChangeIs(columns, c, stored) && stored.table in rows
    ensures C.EncodableKey(stored.change.key)
    ensures MirrorsAll(columns, tables[c.table := S.CommitRow(S.TableOf(tables, c.table), c.change)],
      rows[stored.table := T.WithRow(rows[stored.table], C.KeyBytes(stored.change.key), stored.change.after)])
  {
    hide Mirrors, Names, RowIs, C.KeyBytes, C.EncodableKey, KeyStands, AllFormed, S.CommitRow, T.WithRow;
    ChangeNames(columns, c, stored);
    RowChanges(columns[c.table], S.TableOf(tables, c.table), rows[c.table], c.change.key, C.KeyBytes(stored.change.key), c.change.after, stored.change.after);
    assert c.change == RowChange(c.change.key, c.change.after);
  }

  /** A commit's changes take a subscription's tables from the rows before the commit to the rows after it. */
  lemma CommitReaches(v: T.Values, schema: T.Schema, columns: map<string, set<string>>, tables: S.Tables, rows: T.Rows,
      ms: seq<T.StorageMutation>, stored: seq<T.StoredChange>, changes: seq<S.TableChange>)
    requires T.Reports(v, schema, rows, ms, stored) && MirrorsAll(columns, tables, rows) && |changes| == |stored|
    requires forall i :: 0 <= i < |changes| ==> ChangeIs(columns, changes[i], stored[i])
    ensures T.SteppedAll(v, schema, rows, ms).Ok?
    ensures MirrorsAll(columns, S.Committed(tables, changes), T.SteppedAll(v, schema, rows, ms).value)
  {
    hide ChangeIs, MirrorsAll, T.SteppedAll, S.Committed, T.Replayed;
    T.ReplayedChanges(v, schema, rows, ms, stored, |ms|);
    assert ms[..|ms|] == ms && stored[..|ms|] == stored;
    forall i | 0 <= i < |changes| ensures stored[i].table in rows {
      TableThere(v, schema, rows, ms, stored, i);
    }
    CommittedIsReplayed(columns, tables, rows, changes, stored);
  }

  lemma TableThere(v: T.Values, schema: T.Schema, rows: T.Rows, ms: seq<T.StorageMutation>, stored: seq<T.StoredChange>, i: nat)
    requires T.Reports(v, schema, rows, ms, stored) && i < |ms|
    ensures stored[i].table in rows
  {
    hide T.SteppedAll, T.Replayed;
    assert T.ReportsAt(v, schema, rows, ms, i, stored[i]);
    T.ReplayedChanges(v, schema, rows, ms, stored, i);
    SameTables(rows, stored[..i]);
  }

  lemma {:induction false} SameTables(rows: T.Rows, stored: seq<T.StoredChange>)
    ensures T.Replayed(rows, stored).Keys == rows.Keys
  {
    if stored != [] {
      SameTables(rows, stored[..|stored| - 1]);
    }
  }
}
