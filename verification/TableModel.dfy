// Tables as a map of rows and one map per index (tree-storage-model.ts). TreeStorage keeps them in trees.
module TableModel {
  import opened Codec
  import Lex

  type Row = map<string, Part>

  datatype Index = Index(name: string, unique: bool, columns: seq<string>)

  datatype Table = Table(columns: set<string>, primaryColumns: seq<string>, indexes: seq<Index>)

  type Primary = map<Bytes, Row>
  type IndexTree = map<Bytes, Key>

  datatype Mutation = Insert(row: Row) | Update(key: Key, row: Row) | Delete(key: Key)

  datatype Change = Change(key: Key, before: Option<Row>, after: Option<Row>)

  datatype Error =
    | Unencodable
    | DuplicateKey
    | MissingRow
    | KeyChanged
    | NotUnique(index: string)
    | Unstorable
    | UnknownTable
    | Conflict

  datatype Outcome<+T> = Ok(value: T) | Err(error: Error)

  // How rows and primary keys are written as tree values; some rows cannot be written.
  datatype Values = Values(encodeRow: Row -> Option<Bytes>, decodeRow: Bytes -> Row, encodeKey: Key -> Bytes, decodeKey: Bytes -> Key) {
    // The row as it is read back.
    function Clone(row: Row): Option<Row> {
      match encodeRow(row)
      case None => None
      case Some(b) => Some(decodeRow(b))
    }
  }

  ghost predicate KeepsColumn(v: Values, row: Row, column: string) {
    match v.Clone(row)
    case None => true
    case Some(stored) =>
      Encodable(ColumnPart(row, column)) ==> Encodable(ColumnPart(stored, column)) && SamePart(ColumnPart(row, column), ColumnPart(stored, column))
  }

  ghost predicate KeepsKey(v: Values, key: Key) {
    EncodableKey(key) ==> EncodableKey(v.decodeKey(v.encodeKey(key))) && SameKey(key, v.decodeKey(v.encodeKey(key)))
  }

  // What was read back reads back as itself.
  ghost predicate KeepsClone(v: Values, row: Row) {
    match v.Clone(row)
    case None => true
    case Some(stored) => v.Clone(stored) == Some(stored)
  }

  // Writing may turn -0 into 0, but a part that can stand in a key comes back as the same part.
  ghost predicate Preserving(v: Values) {
    && (forall row, column :: KeepsColumn(v, row, column))
    && (forall row :: KeepsClone(v, row))
    && (forall key :: KeepsKey(v, key))
  }

  lemma ClonedColumns(v: Values, columns: seq<string>, row: Row)
    requires Preserving(v) && v.Clone(row).Some? && EncodableKey(Columns(columns, row))
    ensures var k := Columns(columns, v.Clone(row).value); EncodableKey(k) && KeyBytes(k) == KeyBytes(Columns(columns, row))
  {
    hide KeyBytes, Encodable, SamePart;
    var stored := v.Clone(row).value;
    forall i | 0 <= i < |columns|
      ensures Encodable(Columns(columns, stored)[i]) && SamePart(Columns(columns, row)[i], Columns(columns, stored)[i])
    {
      assert Encodable(Columns(columns, row)[i]);
      assert KeepsColumn(v, row, columns[i]);
    }
    EncodingInjective(Columns(columns, row), Columns(columns, stored));
  }

  function ColumnPart(row: Row, column: string): Part {
    if column in row then row[column] else Unsupported
  }

  function Columns(columns: seq<string>, row: Row): (k: Key)
    ensures |k| == |columns|
  {
    seq(|columns|, i requires 0 <= i < |columns| => ColumnPart(row, columns[i]))
  }

  function PrimaryKey(table: Table, row: Row): Key {
    Columns(table.primaryColumns, row)
  }

  // The encoded key of an index entry: the indexed columns, then the primary key.
  function IndexKey(index: Index, row: Row, encoded: Bytes): Bytes
    requires EncodableKey(Columns(index.columns, row))
  {
    KeyBytes(Columns(index.columns, row)) + encoded
  }

  lemma {:induction false} KeyBytesAppend(a: Key, b: Key)
    requires EncodableKey(a) && EncodableKey(b)
    ensures EncodableKey(a + b) && KeyBytes(a + b) == KeyBytes(a) + KeyBytes(b)
  {
    hide Encodable, PartBytes;
    if a == [] {
      assert a + b == b;
    } else {
      assert (a + b)[1..] == a[1..] + b;
      KeyBytesAppend(a[1..], b);
    }
  }

  // ---------- what tables and indexes look like ----------

  // A row is stored under its own primary key.
  predicate Keyed(table: Table, primary: Primary) {
    forall b :: b in primary ==> KeyedRow(table, b, primary[b])
  }

  predicate KeyedRow(table: Table, b: Bytes, row: Row) {
    EncodableKey(PrimaryKey(table, row)) && KeyBytes(PrimaryKey(table, row)) == b
  }

  // The row's entry is in the index and points back at the row.
  predicate Indexed(index: Index, tree: IndexTree, b: Bytes, row: Row) {
    && EncodableKey(Columns(index.columns, row))
    && IndexKey(index, row, b) in tree
    && EncodableKey(tree[IndexKey(index, row, b)])
    && KeyBytes(tree[IndexKey(index, row, b)]) == b
  }

  // An entry belongs to a row.
  predicate Owned(index: Index, tree: IndexTree, primary: Primary, x: Bytes)
    requires x in tree
  {
    && EncodableKey(tree[x]) && KeyBytes(tree[x]) in primary
    && EncodableKey(Columns(index.columns, primary[KeyBytes(tree[x])]))
    && IndexKey(index, primary[KeyBytes(tree[x])], KeyBytes(tree[x])) == x
  }

  // The index holds exactly the entries of the table's rows.
  predicate Agrees(index: Index, tree: IndexTree, primary: Primary) {
    && (forall b :: b in primary ==> Indexed(index, tree, b, primary[b]))
    && (forall x :: x in tree ==> Owned(index, tree, primary, x))
  }

  predicate SameColumns(index: Index, r: Row, s: Row) {
    SameKey(Columns(index.columns, r), Columns(index.columns, s))
  }

  // No two rows share the indexed columns.
  predicate Distinct(index: Index, primary: Primary) {
    forall b, c :: b in primary && c in primary && b != c ==> !SameColumns(index, primary[b], primary[c])
  }

  // ---------- index keys ----------

  /** Index entries of different rows never collide. */
  lemma IndexKeyInjective(table: Table, index: Index, r: Row, b: Bytes, s: Row, c: Bytes)
    requires KeyedRow(table, b, r) && KeyedRow(table, c, s)
    requires EncodableKey(Columns(index.columns, r)) && EncodableKey(Columns(index.columns, s))
    requires IndexKey(index, r, b) == IndexKey(index, s, c)
    ensures b == c
  {
    hide KeyBytes, Encodable, SamePart;
    var p, q := PrimaryKey(table, r), PrimaryKey(table, s);
    var x, y := Columns(index.columns, r), Columns(index.columns, s);
    KeyBytesAppend(x, p);
    KeyBytesAppend(y, q);
    EncodingInjective(x + p, y + q);
    assert SameKey(p, q) by {
      forall i | 0 <= i < |p| ensures SamePart(p[i], q[i]) {
        assert SamePart((x + p)[|x| + i], (y + q)[|x| + i]);
      }
    }
    EncodingInjective(p, q);
  }

  lemma BeginsConcat(p: Key, x: Key, y: Key)
    requires |p| <= |x|
    ensures BeginsKey(p, x + y) <==> BeginsKey(p, x)
  {
    assert (x + y)[..|p|] == x[..|p|];
  }

  /** An index entry lies in the range of a prefix of the indexed columns exactly if its row's columns begin with it. */
  lemma EntryInRange(table: Table, index: Index, r: Row, b: Bytes, p: Key)
    requires KeyedRow(table, b, r) && EncodableKey(Columns(index.columns, r)) && EncodableKey(p) && |p| <= |index.columns|
    ensures InPrefixRange(IndexKey(index, r, b), p) <==> BeginsKey(p, Columns(index.columns, r))
  {
    hide KeyBytes, Encodable, BeginsKey;
    var x, k := Columns(index.columns, r), PrimaryKey(table, r);
    KeyBytesAppend(x, k);
    PrefixRange(p, x + k);
    BeginsConcat(p, x, k);
  }

  predicate InPrefixRange(x: Bytes, p: Key)
    requires EncodableKey(p)
  {
    !Lex.Less(x, KeyBytes(p)) && Lex.Less(x, KeyPrefixUpperBound(KeyBytes(p)))
  }

  lemma WholeColumns(index: Index, r: Row, s: Row)
    ensures BeginsKey(Columns(index.columns, r), Columns(index.columns, s)) <==> SameColumns(index, r, s)
  {
    assert Columns(index.columns, s)[..|index.columns|] == Columns(index.columns, s);
  }

  // ---------- one mutation, row by row ----------

  function Target(table: Table, m: Mutation): Key {
    match m
    case Insert(row) => PrimaryKey(table, row)
    case Update(key, _) => key
    case Delete(key) => key
  }

  function Lookup<T>(tree: map<Bytes, T>, b: Bytes): Option<T> {
    if b in tree then Some(tree[b]) else None
  }

  function Stored(v: Values, row: Row): Outcome<Option<Row>> {
    match v.Clone(row)
    case None => Err(Unstorable)
    case Some(stored) => Ok(Some(stored))
  }

  // The row after the mutation, or the reason why there is none to be.
  function After(v: Values, table: Table, primary: Primary, m: Mutation): Outcome<Option<Row>> {
    if !EncodableKey(Target(table, m)) then Err(Unencodable)
    else
      var b := KeyBytes(Target(table, m));
      match m
      case Insert(row) => if b in primary then Err(DuplicateKey) else Stored(v, row)
      case Update(_, row) =>
        if b !in primary then Err(MissingRow)
        else if !EncodableKey(PrimaryKey(table, row)) then Err(Unencodable)
        else if KeyBytes(PrimaryKey(table, row)) != b then Err(KeyChanged)
        else Stored(v, row)
      case Delete(_) => if b !in primary then Err(MissingRow) else Ok(None)
  }

  // Another row already has the indexed columns.
  predicate Taken(index: Index, primary: Primary, b: Bytes, row: Row) {
    exists c :: c in primary && c != b && SameColumns(index, row, primary[c])
  }

  function IndexError(index: Index, primary: Primary, b: Bytes, row: Row): Option<Error> {
    if !EncodableKey(Columns(index.columns, row)) then Some(Unencodable)
    else if index.unique && Taken(index, primary, b, row) then Some(NotUnique(index.name))
    else None
  }

  function FirstIndexError(indexes: seq<Index>, primary: Primary, b: Bytes, row: Row): Option<Error> {
    if indexes == [] then None
    else if IndexError(indexes[0], primary, b, row).Some? then IndexError(indexes[0], primary, b, row)
    else FirstIndexError(indexes[1..], primary, b, row)
  }

  function WithRow(primary: Primary, b: Bytes, after: Option<Row>): Primary {
    match after
    case Some(row) => primary[b := row]
    case None => primary - {b}
  }

  /** What a mutation means for the rows alone. */
  function Stepped(v: Values, table: Table, primary: Primary, m: Mutation): Outcome<Primary> {
    match After(v, table, primary, m)
    case Err(e) => Err(e)
    case Ok(after) =>
      var b := KeyBytes(Target(table, m));
      if after.Some? && FirstIndexError(table.indexes, primary, b, after.value).Some?
      then Err(FirstIndexError(table.indexes, primary, b, after.value).value)
      else Ok(WithRow(primary, b, after))
  }

  // Only the row under the key changes.
  ghost predicate Replaces(primary: Primary, primary': Primary, b: Bytes, row: Option<Row>) {
    && Lookup(primary', b) == row
    && forall c :: c != b ==> Lookup(primary', c) == Lookup(primary, c)
  }

  lemma WithRowReplaces(primary: Primary, b: Bytes, row: Option<Row>)
    ensures Replaces(primary, WithRow(primary, b, row), b, row)
  {
  }

  // The row fits the table: it can be written and every index takes it.
  ghost predicate Fits(v: Values, table: Table, primary: Primary, b: Bytes, row: Row) {
    && v.Clone(row).Some?
    && forall i :: 0 <= i < |table.indexes| ==> FitsIndex(table.indexes[i], primary, b, v.Clone(row).value)
  }

  ghost predicate FitsIndex(index: Index, primary: Primary, b: Bytes, row: Row) {
    && EncodableKey(Columns(index.columns, row))
    && (index.unique ==> forall c :: c in primary && c != b ==> !SameKey(Columns(index.columns, row), Columns(index.columns, primary[c])))
  }

  lemma {:induction false} FitsIndexes(indexes: seq<Index>, primary: Primary, b: Bytes, row: Row)
    ensures FirstIndexError(indexes, primary, b, row) == None <==> forall i :: 0 <= i < |indexes| ==> FitsIndex(indexes[i], primary, b, row)
  {
    hide SameKey, EncodableKey, Columns;
    if indexes != [] {
      FitsIndexes(indexes[1..], primary, b, row);
      assert FitsIndex(indexes[0], primary, b, row) <==> IndexError(indexes[0], primary, b, row) == None;
      assert forall i :: 1 <= i < |indexes| ==> indexes[i] == indexes[1..][i - 1];
      assert forall i :: 0 <= i < |indexes[1..]| ==> indexes[1..][i] == indexes[i + 1];
    }
  }

  /** An insertion succeeds exactly if its key is free and the row fits; then the row is there, as it is read back. */
  lemma InsertMeans(v: Values, table: Table, primary: Primary, row: Row)
    requires EncodableKey(PrimaryKey(table, row))
    ensures var b, r := KeyBytes(PrimaryKey(table, row)), Stepped(v, table, primary, Insert(row));
      && (r.Ok? <==> b !in primary && Fits(v, table, primary, b, row))
      && (r.Ok? ==> Replaces(primary, r.value, b, v.Clone(row)))
      && (r == Err(DuplicateKey) <==> b in primary)
      && (r == Err(Unstorable) <==> b !in primary && v.Clone(row).None?)
  {
    hide KeyBytes, EncodableKey, PrimaryKey;
    StoredMeans(v, table, primary, KeyBytes(PrimaryKey(table, row)), row);
  }

  /** An update succeeds exactly if its key is taken, the row has the key and the row fits. */
  lemma UpdateMeans(v: Values, table: Table, primary: Primary, key: Key, row: Row)
    requires EncodableKey(key) && EncodableKey(PrimaryKey(table, row))
    ensures var b, r := KeyBytes(key), Stepped(v, table, primary, Update(key, row));
      && (r.Ok? <==> b in primary && SameKey(PrimaryKey(table, row), key) && Fits(v, table, primary, b, row))
      && (r.Ok? ==> Replaces(primary, r.value, b, v.Clone(row)))
      && (r == Err(MissingRow) <==> b !in primary)
      && (r == Err(KeyChanged) <==> b in primary && !SameKey(PrimaryKey(table, row), key))
  {
    hide KeyBytes, EncodableKey, PrimaryKey, SameKey;
    EncodingInjective(PrimaryKey(table, row), key);
    StoredMeans(v, table, primary, KeyBytes(key), row);
  }

  /** A deletion succeeds exactly if its key is taken, and then it is free. */
  lemma DeleteMeans(v: Values, table: Table, primary: Primary, key: Key)
    requires EncodableKey(key)
    ensures var b, r := KeyBytes(key), Stepped(v, table, primary, Delete(key));
      && (r.Ok? <==> b in primary)
      && (r.Ok? ==> Replaces(primary, r.value, b, None))
      && (r.Err? ==> r.error == MissingRow)
  {
    hide KeyBytes, EncodableKey;
    WithRowReplaces(primary, KeyBytes(key), None);
  }

  lemma StoredMeans(v: Values, table: Table, primary: Primary, b: Bytes, row: Row)
    ensures Stored(v, row) == if v.Clone(row).None? then Err(Unstorable) else Ok(v.Clone(row))
    ensures v.Clone(row).Some? ==>
      && (FirstIndexError(table.indexes, primary, b, v.Clone(row).value) == None <==> Fits(v, table, primary, b, row))
      && IndexErrorKind(FirstIndexError(table.indexes, primary, b, v.Clone(row).value))
      && Replaces(primary, WithRow(primary, b, v.Clone(row)), b, v.Clone(row))
  {
    hide FitsIndex;
    if v.Clone(row).Some? {
      FitsIndexes(table.indexes, primary, b, v.Clone(row).value);
      IndexErrorKinds(table.indexes, primary, b, v.Clone(row).value);
    }
  }

  predicate IndexErrorKind(e: Option<Error>) {
    e.Some? ==> e.value.Unencodable? || e.value.NotUnique?
  }

  lemma {:induction false} IndexErrorKinds(indexes: seq<Index>, primary: Primary, b: Bytes, row: Row)
    ensures IndexErrorKind(FirstIndexError(indexes, primary, b, row))
  {
    if indexes != [] {
      IndexErrorKinds(indexes[1..], primary, b, row);
    }
  }

  function ChangeOf(v: Values, table: Table, primary: Primary, m: Mutation): Change
    requires After(v, table, primary, m).Ok?
  {
    Change(Target(table, m), Lookup(primary, KeyBytes(Target(table, m))), After(v, table, primary, m).value)
  }

  // ---------- an index entry removed, an index entry added ----------

  lemma EntryRemoved(table: Table, index: Index, tree: IndexTree, primary: Primary, b: Bytes)
    requires Keyed(table, primary) && Agrees(index, tree, primary) && b in primary
    ensures EncodableKey(Columns(index.columns, primary[b]))
    ensures Agrees(index, tree - {IndexKey(index, primary[b], b)}, primary - {b})
  {
    hide KeyBytes, EncodableKey, Columns, PrimaryKey, KeyedRow;
    assert Indexed(index, tree, b, primary[b]);
    var x := IndexKey(index, primary[b], b);
    var tree', primary' := tree - {x}, primary - {b};
    forall c | c in primary' ensures Indexed(index, tree', c, primary'[c]) {
      assert Indexed(index, tree, c, primary[c]);
      if IndexKey(index, primary[c], c) == x {
        IndexKeyInjective(table, index, primary[c], c, primary[b], b);
      }
    }
    forall y | y in tree' ensures Owned(index, tree', primary', y) {
      assert Owned(index, tree, primary, y);
    }
  }

  lemma EntryAdded(table: Table, index: Index, tree: IndexTree, primary: Primary, b: Bytes, row: Row, key: Key)
    requires Keyed(table, primary) && Agrees(index, tree, primary) && b !in primary
    requires KeyedRow(table, b, row) && EncodableKey(Columns(index.columns, row)) && EncodableKey(key) && KeyBytes(key) == b
    ensures Agrees(index, tree[IndexKey(index, row, b) := key], primary[b := row])
  {
    hide KeyBytes, EncodableKey, Columns, PrimaryKey, KeyedRow;
    var x := IndexKey(index, row, b);
    var tree', primary' := tree[x := key], primary[b := row];
    forall c | c in primary' ensures Indexed(index, tree', c, primary'[c]) {
      if c != b {
        assert Indexed(index, tree, c, primary[c]);
        if IndexKey(index, primary[c], c) == x {
          IndexKeyInjective(table, index, primary[c], c, row, b);
        }
      }
    }
    forall y | y in tree' ensures Owned(index, tree', primary', y) {
      if y != x {
        assert Owned(index, tree, primary, y);
      }
    }
  }

  // What a unique index finds under the new row's columns.
  lemma UniqueScan(table: Table, index: Index, tree: IndexTree, primary: Primary, b: Bytes, row: Row)
    requires Keyed(table, primary) && Agrees(index, tree, primary) && b !in primary
    requires EncodableKey(Columns(index.columns, row))
    ensures (exists x :: x in tree && InPrefixRange(x, Columns(index.columns, row))) <==> Taken(index, primary, b, row)
  {
    hide KeyBytes, EncodableKey, Columns, PrimaryKey, KeyedRow, InPrefixRange, SameColumns, IndexKey;
    if x :| x in tree && InPrefixRange(x, Columns(index.columns, row)) {
      assert Owned(index, tree, primary, x);
      var c := KeyBytes(tree[x]);
      EntryInRange(table, index, primary[c], c, Columns(index.columns, row));
      WholeColumns(index, row, primary[c]);
      assert Taken(index, primary, b, row);
    }
    if Taken(index, primary, b, row) {
      var c :| c in primary && c != b && SameColumns(index, row, primary[c]);
      assert Indexed(index, tree, c, primary[c]);
      EntryInRange(table, index, primary[c], c, Columns(index.columns, row));
      WholeColumns(index, row, primary[c]);
      assert IndexKey(index, primary[c], c) in tree;
    }
  }

  lemma OthersKeyed(table: Table, primary: Primary, b: Bytes)
    requires Keyed(table, primary)
    ensures Keyed(table, primary - {b})
  {
    hide KeyedRow;
  }

  lemma TakenElsewhere(index: Index, primary: Primary, b: Bytes, row: Row)
    ensures Taken(index, primary - {b}, b, row) <==> Taken(index, primary, b, row)
  {
    hide SameColumns;
    if c :| c in primary && c != b && SameColumns(index, row, primary[c]) {
      assert c in primary - {b};
    }
  }

  lemma FirstErrorStep(indexes: seq<Index>, primary: Primary, b: Bytes, row: Row, k: nat)
    requires k < |indexes|
    ensures FirstIndexError(indexes[k..], primary, b, row)
      == if IndexError(indexes[k], primary, b, row).Some? then IndexError(indexes[k], primary, b, row)
         else FirstIndexError(indexes[k + 1..], primary, b, row)
  {
    assert indexes[k..][0] == indexes[k] && indexes[k..][1..] == indexes[k + 1..];
  }

  // A row that no unique index rejected leaves every unique index without repetition.
  lemma DistinctAfter(index: Index, primary: Primary, b: Bytes, after: Option<Row>)
    requires Distinct(index, primary)
    requires after.Some? ==> !Taken(index, primary, b, after.value)
    ensures Distinct(index, WithRow(primary, b, after))
  {
    hide SamePart, Columns;
    forall c, d | c in WithRow(primary, b, after) && d in WithRow(primary, b, after) && c != d
      ensures !SameColumns(index, WithRow(primary, b, after)[c], WithRow(primary, b, after)[d])
    {
      if after.Some? && d == b {
        SameColumnsSwaps(index, primary[c], after.value);
      }
    }
  }

  lemma SameColumnsSwaps(index: Index, r: Row, s: Row)
    ensures SameColumns(index, r, s) <==> SameColumns(index, s, r)
  {
    hide SamePart;
    var x, y := Columns(index.columns, r), Columns(index.columns, s);
    forall i | 0 <= i < |x| ensures SamePart(x[i], y[i]) <==> SamePart(y[i], x[i]) {
      SameSwaps(x[i], y[i]);
    }
  }

  lemma {:induction false} NoErrorAnywhere(indexes: seq<Index>, primary: Primary, b: Bytes, row: Row, k: nat)
    requires FirstIndexError(indexes, primary, b, row) == None && k < |indexes|
    ensures IndexError(indexes[k], primary, b, row) == None
  {
    hide IndexError;
    if k > 0 {
      NoErrorAnywhere(indexes[1..], primary, b, row, k - 1);
    }
  }

  predicate Kept(v: Values, after: Option<Row>) {
    after.Some? ==> v.Clone(after.value) == after
  }

  lemma AfterKeyed(v: Values, table: Table, primary: Primary, m: Mutation)
    requires Preserving(v) && Keyed(table, primary) && After(v, table, primary, m).Ok?
    ensures EncodableKey(Target(table, m)) && Kept(v, After(v, table, primary, m).value)
    ensures var after := After(v, table, primary, m).value; var b := KeyBytes(Target(table, m));
      && (after.Some? ==> KeyedRow(table, b, after.value))
      && Keyed(table, WithRow(primary, b, after))
  {
    hide KeyBytes, EncodableKey, Preserving;
    if m.Insert? || m.Update? {
      ClonedColumns(v, table.primaryColumns, m.row);
      CloneKept(v, m.row);
    }
  }

  lemma CloneKept(v: Values, row: Row)
    requires Preserving(v)
    ensures KeepsClone(v, row)
  {
  }

  lemma StillDistinct(table: Table, primary: Primary, b: Bytes, after: Option<Row>)
    requires forall i :: 0 <= i < |table.indexes| && table.indexes[i].unique ==> Distinct(table.indexes[i], primary)
    requires after.Some? ==> FirstIndexError(table.indexes, primary, b, after.value) == None
    ensures forall i :: 0 <= i < |table.indexes| && table.indexes[i].unique ==> Distinct(table.indexes[i], WithRow(primary, b, after))
  {
    hide Distinct, Taken, WithRow;
    forall i | 0 <= i < |table.indexes| && table.indexes[i].unique
      ensures Distinct(table.indexes[i], WithRow(primary, b, after))
    {
      if after.Some? {
        NoErrorAnywhere(table.indexes, primary, b, after.value, i);
      }
      DistinctAfter(table.indexes[i], primary, b, after);
    }
  }

  // ---------- lists of mutations across tables ----------

  datatype StorageMutation = StorageMutation(table: string, mutation: Mutation)

  datatype StoredChange = StoredChange(table: string, change: Change)

  type Schema = map<string, Table>

  type Rows = map<string, Primary>

  function SteppedIn(v: Values, schema: Schema, rows: Rows, m: StorageMutation): Outcome<Rows> {
    if m.table !in schema || m.table !in rows then Err(UnknownTable)
    else
      match Stepped(v, schema[m.table], rows[m.table], m.mutation)
      case Err(e) => Err(e)
      case Ok(primary) => Ok(rows[m.table := primary])
  }

  /** What a list of mutations means for the rows of all tables: each in turn, up to the first error. */
  function SteppedAll(v: Values, schema: Schema, rows: Rows, ms: seq<StorageMutation>): Outcome<Rows> {
    if ms == [] then Ok(rows)
    else
      match SteppedAll(v, schema, rows, ms[..|ms| - 1])
      case Err(e) => Err(e)
      case Ok(before) => SteppedIn(v, schema, before, ms[|ms| - 1])
  }

  function ChangeIn(v: Values, schema: Schema, rows: Rows, m: StorageMutation): StoredChange
    requires SteppedIn(v, schema, rows, m).Ok?
  {
    StoredChange(m.table, ChangeOf(v, schema[m.table], rows[m.table], m.mutation))
  }

  // A change names its mutation's table and key, and holds the rows under the key before and after the mutation.
  ghost predicate ReportsAt(v: Values, schema: Schema, rows: Rows, ms: seq<StorageMutation>, i: nat, c: StoredChange)
    requires i < |ms|
  {
    var before, after := SteppedAll(v, schema, rows, ms[..i]), SteppedAll(v, schema, rows, ms[..i + 1]);
    && before.Ok? && after.Ok?
    && c.table == ms[i].table && c.table in schema && c.table in before.value && c.table in after.value
    && c.change.key == (match ms[i].mutation
         case Insert(row) => PrimaryKey(schema[c.table], row)
         case Update(key, _) => key
         case Delete(key) => key)
    && EncodableKey(c.change.key)
    && c.change.before == Lookup(before.value[c.table], KeyBytes(c.change.key))
    && c.change.after == Lookup(after.value[c.table], KeyBytes(c.change.key))
  }

  ghost predicate Reports(v: Values, schema: Schema, rows: Rows, ms: seq<StorageMutation>, changes: seq<StoredChange>) {
    |changes| == |ms| && forall i :: 0 <= i < |ms| ==> ReportsAt(v, schema, rows, ms, i, changes[i])
  }

  lemma NothingReports(v: Values, schema: Schema, rows: Rows)
    ensures Reports(v, schema, rows, [], [])
  {
  }

  lemma ReportsMore(v: Values, schema: Schema, rows: Rows, ms: seq<StorageMutation>, changes: seq<StoredChange>, m: StorageMutation)
    requires Reports(v, schema, rows, ms, changes) && SteppedAll(v, schema, rows, ms).Ok?
    requires SteppedIn(v, schema, SteppedAll(v, schema, rows, ms).value, m).Ok?
    ensures Reports(v, schema, rows, ms + [m], changes + [ChangeIn(v, schema, SteppedAll(v, schema, rows, ms).value, m)])
  {
    hide FirstIndexError, KeyBytes, EncodableKey, PrimaryKey;
    var before, longer := SteppedAll(v, schema, rows, ms).value, ms + [m];
    var c := ChangeIn(v, schema, before, m);
    assert longer[..|ms|] == ms && longer[..|ms| + 1] == longer;
    forall i | 0 <= i < |ms| ensures ReportsAt(v, schema, rows, longer, i, (changes + [c])[i]) {
      assert ReportsAt(v, schema, rows, ms, i, changes[i]);
      assert longer[..i] == ms[..i] && longer[..i + 1] == ms[..i + 1];
    }
    assert ReportsAt(v, schema, rows, longer, |ms|, c);
  }

  // A consumer that applies reported changes, one after another.
  function Replayed(rows: Rows, changes: seq<StoredChange>): Rows {
    if changes == [] then rows
    else
      var before, c := Replayed(rows, changes[..|changes| - 1]), changes[|changes| - 1];
      if c.table in before && EncodableKey(c.change.key)
      then before[c.table := WithRow(before[c.table], KeyBytes(c.change.key), c.change.after)]
      else before
  }

  lemma StepTouches(v: Values, schema: Schema, rows: Rows, m: StorageMutation)
    requires SteppedIn(v, schema, rows, m).Ok?
    ensures m.table in schema && m.table in rows && EncodableKey(Target(schema[m.table], m.mutation))
    ensures var b, rows' := KeyBytes(Target(schema[m.table], m.mutation)), SteppedIn(v, schema, rows, m).value;
      && rows'.Keys == rows.Keys
      && (forall table :: table in rows && table != m.table ==> rows'[table] == rows[table])
      && rows'[m.table] == WithRow(rows[m.table], b, Lookup(rows'[m.table], b))
  {
    hide FirstIndexError, KeyBytes, EncodableKey, PrimaryKey;
  }

  /** Applying the reported changes in order to the old rows gives the new rows, at every point of the list. */
  lemma {:induction false} ReplayedChanges(v: Values, schema: Schema, rows: Rows, ms: seq<StorageMutation>, changes: seq<StoredChange>, n: nat)
    requires Reports(v, schema, rows, ms, changes) && n <= |ms|
    ensures SteppedAll(v, schema, rows, ms[..n]) == Ok(Replayed(rows, changes[..n]))
  {
    hide KeyBytes, EncodableKey, PrimaryKey, SteppedIn, WithRow;
    if n > 0 {
      ReplayedChanges(v, schema, rows, ms, changes, n - 1);
      assert ReportsAt(v, schema, rows, ms, n - 1, changes[n - 1]);
      assert ms[..n][..n - 1] == ms[..n - 1] && changes[..n][..n - 1] == changes[..n - 1];
      var before := SteppedAll(v, schema, rows, ms[..n - 1]).value;
      assert SteppedAll(v, schema, rows, ms[..n]) == SteppedIn(v, schema, before, ms[n - 1]);
      StepTouches(v, schema, before, ms[n - 1]);
      var after := SteppedIn(v, schema, before, ms[n - 1]).value;
      assert after == before[ms[n - 1].table := after[ms[n - 1].table]];
    }
  }

  lemma {:induction false} StaysFailed(v: Values, schema: Schema, rows: Rows, ms: seq<StorageMutation>, k: nat)
    requires k <= |ms| && SteppedAll(v, schema, rows, ms[..k]).Err?
    ensures SteppedAll(v, schema, rows, ms) == SteppedAll(v, schema, rows, ms[..k])
    decreases |ms| - k
  {
    hide SteppedIn;
    if k == |ms| {
      assert ms[..k] == ms;
    } else {
      assert ms[..k + 1][..k] == ms[..k];
      StaysFailed(v, schema, rows, ms, k + 1);
    }
  }
}
