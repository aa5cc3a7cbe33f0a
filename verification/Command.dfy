// A command's transaction over one snapshot (command.ts), and committing what it recorded.
module Command {
  import opened Codec
  import opened TableModel
  import T = TreeStorage
  import E = Entries

  // Rows are remembered under their exact key; the trees take some different keys for one, such as -0 and 0.
  datatype Cell = Cell(table: string, key: Key)

  datatype Refusal = Inactive | NoTable | NoKey | Duplicate | Missing | BadColumns | KeyMoved | Unauthorized

  datatype Reply<+T> = Done(value: T) | Refused(refusal: Refusal)

  // ---------- what a list of mutations leaves in a cell ----------

  predicate Known(schema: Schema, snapshot: Rows, c: Cell) {
    c.table in schema && c.table in snapshot && EncodableKey(c.key)
  }

  function CellOf(schema: Schema, m: StorageMutation): Cell
    requires m.table in schema
  {
    Cell(m.table, Target(schema[m.table], m.mutation))
  }

  function RowOf(m: Mutation): Option<Row> {
    match m
    case Insert(row) => Some(row)
    case Update(_, row) => Some(row)
    case Delete(_) => None
  }

  // The last mutation of exactly this key, if there is one.
  function Overlaid(schema: Schema, ms: seq<StorageMutation>, c: Cell): Option<Option<Row>> {
    if ms == [] then None
    else
      var last := ms[|ms| - 1];
      if last.table in schema && CellOf(schema, last) == c then Some(RowOf(last.mutation)) else Overlaid(schema, ms[..|ms| - 1], c)
  }

  // The last mutation of any key with these bytes.
  function Replaced(schema: Schema, ms: seq<StorageMutation>, table: string, b: Bytes): Option<Option<Row>> {
    if ms == [] then None
    else
      var last := ms[|ms| - 1];
      if last.table == table && table in schema && Hits(schema[table], last.mutation, b) then Some(RowOf(last.mutation))
      else Replaced(schema, ms[..|ms| - 1], table, b)
  }

  predicate Hits(table: Table, m: Mutation, b: Bytes) {
    EncodableKey(Target(table, m)) && KeyBytes(Target(table, m)) == b
  }

  // What the transaction reads.
  function Seen(schema: Schema, snapshot: Rows, ms: seq<StorageMutation>, c: Cell): Option<Row>
    requires Known(schema, snapshot, c)
  {
    match Overlaid(schema, ms, c)
    case Some(row) => row
    case None => Lookup(snapshot[c.table], KeyBytes(c.key))
  }

  // Whether the trees would hold a row under the bytes.
  predicate Present(schema: Schema, snapshot: Rows, ms: seq<StorageMutation>, table: string, b: Bytes)
    requires table in snapshot
  {
    match Replaced(schema, ms, table, b)
    case Some(row) => row.Some?
    case None => b in snapshot[table]
  }

  // The transaction and the trees agree on whether the mutation's row is there.
  predicate Coherent(schema: Schema, snapshot: Rows, before: seq<StorageMutation>, m: StorageMutation)
    requires m.table in schema && Known(schema, snapshot, CellOf(schema, m))
  {
    Seen(schema, snapshot, before, CellOf(schema, m)).Some? <==> Present(schema, snapshot, before, m.table, KeyBytes(CellOf(schema, m).key))
  }

  // What a transaction may record behind the mutations it has.
  predicate Allowed(schema: Schema, snapshot: Rows, before: seq<StorageMutation>, m: StorageMutation) {
    && m.table in schema && Known(schema, snapshot, CellOf(schema, m))
    && match m.mutation
       case Insert(_) => Seen(schema, snapshot, before, CellOf(schema, m)).None?
       case Update(key, row) => Seen(schema, snapshot, before, CellOf(schema, m)).Some? && PrimaryKey(schema[m.table], row) == key
       case Delete(_) => Seen(schema, snapshot, before, CellOf(schema, m)).Some?
  }

  ghost predicate Recorded(schema: Schema, snapshot: Rows, ms: seq<StorageMutation>) {
    forall i :: 0 <= i < |ms| ==> Allowed(schema, snapshot, ms[..i], ms[i])
  }

  ghost predicate AllCoherent(schema: Schema, snapshot: Rows, ms: seq<StorageMutation>)
    requires Recorded(schema, snapshot, ms)
  {
    forall i :: 0 <= i < |ms| ==> Agreed(schema, snapshot, ms, i)
  }

  ghost predicate Agreed(schema: Schema, snapshot: Rows, ms: seq<StorageMutation>, i: nat)
    requires i < |ms| && Allowed(schema, snapshot, ms[..i], ms[i])
  {
    Coherent(schema, snapshot, ms[..i], ms[i])
  }

  // No two of the mutations are of different keys with the same bytes.
  ghost predicate Plain(schema: Schema, ms: seq<StorageMutation>) {
    forall i, j :: 0 <= i < |ms| && 0 <= j < |ms| ==> !Twins(schema, ms[i], ms[j])
  }

  predicate Twins(schema: Schema, m: StorageMutation, n: StorageMutation) {
    n.table in schema && IsTwin(schema, m, CellOf(schema, n))
  }

  predicate IsTwin(schema: Schema, m: StorageMutation, c: Cell) {
    && m.table == c.table && m.table in schema
    && var p := Target(schema[m.table], m.mutation);
       p != c.key && EncodableKey(p) && EncodableKey(c.key) && KeyBytes(p) == KeyBytes(c.key)
  }

  // ---------- replaying a list ----------

  // What the trees hold under a key after the list.
  function Left(v: Values, schema: Schema, snapshot: Rows, ms: seq<StorageMutation>, table: string, b: Bytes): Option<Row>
    requires table in snapshot
  {
    match Replaced(schema, ms, table, b)
    case None => Lookup(snapshot[table], b)
    case Some(None) => None
    case Some(Some(row)) => v.Clone(row)
  }

  /** After a replay every key holds what its last mutation left. */
  lemma {:induction false} ReplayedRows(v: Values, schema: Schema, snapshot: Rows, ms: seq<StorageMutation>)
    requires SteppedAll(v, schema, snapshot, ms).Ok?
    ensures var rows := SteppedAll(v, schema, snapshot, ms).value;
      && rows.Keys == snapshot.Keys
      && (forall table, b :: table in snapshot ==> Lookup(rows[table], b) == Left(v, schema, snapshot, ms, table, b))
      && (forall table, b :: table in snapshot ==> (b in rows[table] <==> Present(schema, snapshot, ms, table, b)))
  {
    hide KeyBytes, EncodableKey, FirstIndexError, PrimaryKey;
    if ms != [] {
      var init, last := ms[..|ms| - 1], ms[|ms| - 1];
      ReplayedRows(v, schema, snapshot, init);
      var before, rows := SteppedAll(v, schema, snapshot, init).value, SteppedAll(v, schema, snapshot, ms).value;
      forall table, b | table in snapshot
        ensures Lookup(rows[table], b) == Left(v, schema, snapshot, ms, table, b)
        ensures b in rows[table] <==> Present(schema, snapshot, ms, table, b)
      {
        assert Lookup(before[table], b) == Left(v, schema, snapshot, init, table, b);
        assert b in before[table] <==> Present(schema, snapshot, init, table, b);
        StepLeaves(v, schema[last.table], before[last.table], last.mutation, b);
      }
    }
  }

  lemma StepLeaves(v: Values, table: Table, primary: Primary, m: Mutation, b: Bytes)
    requires Stepped(v, table, primary, m).Ok?
    ensures EncodableKey(Target(table, m))
    ensures Lookup(Stepped(v, table, primary, m).value, b)
      == if !Hits(table, m, b) then Lookup(primary, b) else if RowOf(m).None? then None else v.Clone(RowOf(m).value)
    ensures Hits(table, m, b) ==> (b in Stepped(v, table, primary, m).value <==> RowOf(m).Some?)
  {
    hide KeyBytes, EncodableKey, FirstIndexError, PrimaryKey;
  }

  // What can reject a mutation for its row: it cannot be written, or an index.
  function RowError(v: Values, table: Table, primary: Primary, m: Mutation): Option<Error>
    requires EncodableKey(Target(table, m))
  {
    match RowOf(m)
    case None => None
    case Some(row) =>
      match v.Clone(row)
      case None => Some(Unstorable)
      case Some(stored) => FirstIndexError(table.indexes, primary, KeyBytes(Target(table, m)), stored)
  }

  function IncoherentError(m: Mutation): Error {
    if m.Insert? then DuplicateKey else MissingRow
  }

  /** One recorded mutation replays unless its row is rejected, or the transaction had misjudged whether it was there. */
  lemma StepExactly(v: Values, schema: Schema, snapshot: Rows, before: seq<StorageMutation>, m: StorageMutation)
    requires SteppedAll(v, schema, snapshot, before).Ok? && Allowed(schema, snapshot, before, m)
    ensures m.table in SteppedAll(v, schema, snapshot, before).value
    ensures var rows := SteppedAll(v, schema, snapshot, before).value;
      var rejected := RowError(v, schema[m.table], rows[m.table], m.mutation);
      && (!Coherent(schema, snapshot, before, m) ==> SteppedIn(v, schema, rows, m) == Err(IncoherentError(m.mutation)))
      && (Coherent(schema, snapshot, before, m) && rejected.Some? ==> SteppedIn(v, schema, rows, m) == Err(rejected.value))
      && (Coherent(schema, snapshot, before, m) && rejected.None? ==> SteppedIn(v, schema, rows, m).Ok?)
  {
    hide KeyBytes, EncodableKey, FirstIndexError, Columns, Replaced, SteppedAll, Overlaid;
    ReplayedRows(v, schema, snapshot, before);
    var rows := SteppedAll(v, schema, snapshot, before).value;
    var b := KeyBytes(Target(schema[m.table], m.mutation));
    assert b in rows[m.table] <==> Present(schema, snapshot, before, m.table, b);
  }

  // The i-th mutation is reached and fails with the error.
  ghost predicate FailsAt(v: Values, schema: Schema, snapshot: Rows, ms: seq<StorageMutation>, i: nat, e: Error)
    requires i < |ms| && Allowed(schema, snapshot, ms[..i], ms[i])
  {
    match SteppedAll(v, schema, snapshot, ms[..i])
    case Err(_) => false
    case Ok(rows) =>
      if !Coherent(schema, snapshot, ms[..i], ms[i]) then e == IncoherentError(ms[i].mutation)
      else ms[i].table in rows && RowError(v, schema[ms[i].table], rows[ms[i].table], ms[i].mutation) == Some(e)
  }

  ghost predicate Fails(v: Values, schema: Schema, snapshot: Rows, ms: seq<StorageMutation>, e: Error)
    requires Recorded(schema, snapshot, ms)
  {
    exists i: nat :: i < |ms| && FailsAt(v, schema, snapshot, ms, i, e)
  }

  lemma PrefixStep(v: Values, schema: Schema, snapshot: Rows, ms: seq<StorageMutation>, i: nat)
    requires i < |ms| && Allowed(schema, snapshot, ms[..i], ms[i]) && SteppedAll(v, schema, snapshot, ms[..i]).Ok?
    ensures forall e :: SteppedAll(v, schema, snapshot, ms[..i + 1]) == Err(e) <==> FailsAt(v, schema, snapshot, ms, i, e)
    ensures SteppedAll(v, schema, snapshot, ms[..i + 1]).Ok? ==> Coherent(schema, snapshot, ms[..i], ms[i])
  {
    hide SteppedIn, Coherent, RowError, Allowed;
    assert ms[..i + 1][..i] == ms[..i];
    StepExactly(v, schema, snapshot, ms[..i], ms[i]);
  }

  lemma {:induction false} FirstFailure(v: Values, schema: Schema, snapshot: Rows, ms: seq<StorageMutation>, k: nat)
    requires Recorded(schema, snapshot, ms) && k <= |ms| && SteppedAll(v, schema, snapshot, ms[..k]).Err?
    ensures exists i: nat :: i < k && FailsAt(v, schema, snapshot, ms, i, SteppedAll(v, schema, snapshot, ms[..k]).error)
  {
    hide SteppedIn, FailsAt, Allowed;
    assert k > 0 && ms[..k][..k - 1] == ms[..k - 1];
    if SteppedAll(v, schema, snapshot, ms[..k - 1]).Err? {
      FirstFailure(v, schema, snapshot, ms, k - 1);
    } else {
      PrefixStep(v, schema, snapshot, ms, k - 1);
    }
  }

  /** Replaying a recorded list fails exactly where a row is rejected or the transaction misjudged a key, with that error. */
  lemma ReplayExactly(v: Values, schema: Schema, snapshot: Rows, ms: seq<StorageMutation>)
    requires Recorded(schema, snapshot, ms)
    ensures forall e :: SteppedAll(v, schema, snapshot, ms) == Err(e) <==> Fails(v, schema, snapshot, ms, e)
    ensures SteppedAll(v, schema, snapshot, ms).Ok? ==> AllCoherent(schema, snapshot, ms)
  {
    hide FailsAt, Allowed, SteppedAll, Coherent;
    assert ms[..|ms|] == ms;
    if SteppedAll(v, schema, snapshot, ms).Err? {
      FirstFailure(v, schema, snapshot, ms, |ms|);
    }
    forall i: nat, e | i < |ms| && FailsAt(v, schema, snapshot, ms, i, e) ensures SteppedAll(v, schema, snapshot, ms) == Err(e) {
      FailureIsReached(v, schema, snapshot, ms, i, e);
    }
    forall i | 0 <= i < |ms| && SteppedAll(v, schema, snapshot, ms).Ok? ensures Agreed(schema, snapshot, ms, i) {
      PrefixPasses(v, schema, snapshot, ms, i);
      PrefixPasses(v, schema, snapshot, ms, i + 1);
      PrefixStep(v, schema, snapshot, ms, i);
    }
  }

  lemma FailureIsReached(v: Values, schema: Schema, snapshot: Rows, ms: seq<StorageMutation>, i: nat, e: Error)
    requires Recorded(schema, snapshot, ms) && i < |ms| && FailsAt(v, schema, snapshot, ms, i, e)
    ensures SteppedAll(v, schema, snapshot, ms) == Err(e)
  {
    hide Allowed, SteppedAll, Coherent, RowError;
    PrefixStep(v, schema, snapshot, ms, i);
    StaysFailed(v, schema, snapshot, ms, i + 1);
  }

  lemma PrefixPasses(v: Values, schema: Schema, snapshot: Rows, ms: seq<StorageMutation>, k: nat)
    requires k <= |ms| && SteppedAll(v, schema, snapshot, ms).Ok?
    ensures SteppedAll(v, schema, snapshot, ms[..k]).Ok?
  {
    hide SteppedAll;
    if SteppedAll(v, schema, snapshot, ms[..k]).Err? {
      StaysFailed(v, schema, snapshot, ms, k);
    }
  }

  /** A list that misjudges no key is rejected for its rows alone: a value that cannot be written or indexed, or a unique index. */
  lemma CoherentReplay(v: Values, schema: Schema, snapshot: Rows, ms: seq<StorageMutation>)
    requires Recorded(schema, snapshot, ms) && AllCoherent(schema, snapshot, ms)
    ensures match SteppedAll(v, schema, snapshot, ms) case Ok(_) => true case Err(e) => e.NotUnique? || e.Unencodable? || e.Unstorable?
  {
    hide SteppedAll, FirstIndexError, Coherent, Seen, KeyBytes, EncodableKey;
    ReplayExactly(v, schema, snapshot, ms);
    var r := SteppedAll(v, schema, snapshot, ms);
    if r.Err? {
      var i: nat :| i < |ms| && FailsAt(v, schema, snapshot, ms, i, r.error);
      assert Allowed(schema, snapshot, ms[..i], ms[i]) && Agreed(schema, snapshot, ms, i);
      var rows := SteppedAll(v, schema, snapshot, ms[..i]).value;
      RowErrors(v, schema[ms[i].table], rows[ms[i].table], ms[i].mutation);
    }
  }

  lemma RowErrors(v: Values, table: Table, primary: Primary, m: Mutation)
    requires EncodableKey(Target(table, m))
    ensures match RowError(v, table, primary, m) case None => true case Some(e) => e.NotUnique? || e.Unencodable? || e.Unstorable?
  {
    hide FirstIndexError, KeyBytes, EncodableKey;
    if RowOf(m).Some? && v.Clone(RowOf(m).value).Some? {
      IndexErrorKinds(table.indexes, primary, KeyBytes(Target(table, m)), v.Clone(RowOf(m).value).value);
    }
  }

  // ---------- keys with one form ----------

  lemma {:induction false} OneForm(schema: Schema, ms: seq<StorageMutation>, c: Cell)
    requires c.table in schema && EncodableKey(c.key) && forall i :: 0 <= i < |ms| ==> !IsTwin(schema, ms[i], c)
    ensures Overlaid(schema, ms, c) == Replaced(schema, ms, c.table, KeyBytes(c.key))
  {
    hide KeyBytes, EncodableKey, Target;
    if ms != [] {
      assert !IsTwin(schema, ms[|ms| - 1], c);
      assert forall i :: 0 <= i < |ms[..|ms| - 1]| ==> ms[..|ms| - 1][i] == ms[i];
      OneForm(schema, ms[..|ms| - 1], c);
    }
  }

  /** A transaction that uses one form of each key misjudges none. */
  lemma PlainIsCoherent(schema: Schema, snapshot: Rows, ms: seq<StorageMutation>)
    requires Recorded(schema, snapshot, ms) && Plain(schema, ms)
    ensures AllCoherent(schema, snapshot, ms)
  {
    hide KeyBytes, EncodableKey, Overlaid, Replaced, Target;
    forall i | 0 <= i < |ms| ensures Agreed(schema, snapshot, ms, i) {
      assert Allowed(schema, snapshot, ms[..i], ms[i]);
      forall j | 0 <= j < i ensures !IsTwin(schema, ms[..i][j], CellOf(schema, ms[i])) {
        assert !Twins(schema, ms[j], ms[i]);
      }
      OneForm(schema, ms[..i], CellOf(schema, ms[i]));
    }
  }

  // What the transaction reads, a row of its own as it would be read back from storage.
  function ReadBack(v: Values, schema: Schema, snapshot: Rows, ms: seq<StorageMutation>, c: Cell): Option<Row>
    requires Known(schema, snapshot, c)
  {
    match Overlaid(schema, ms, c)
    case Some(Some(row)) => v.Clone(row)
    case _ => Seen(schema, snapshot, ms, c)
  }

  /** What the transaction reads is what a replay leaves, read back. */
  lemma SeenIsReplayed(v: Values, schema: Schema, snapshot: Rows, ms: seq<StorageMutation>, c: Cell)
    requires SteppedAll(v, schema, snapshot, ms).Ok? && Known(schema, snapshot, c)
    requires forall i :: 0 <= i < |ms| ==> !IsTwin(schema, ms[i], c)
    ensures c.table in SteppedAll(v, schema, snapshot, ms).value
    ensures Lookup(SteppedAll(v, schema, snapshot, ms).value[c.table], KeyBytes(c.key)) == ReadBack(v, schema, snapshot, ms, c)
  {
    hide KeyBytes, EncodableKey, Overlaid, Replaced, SteppedAll;
    OneForm(schema, ms, c);
    ReplayedRows(v, schema, snapshot, ms);
    var rows := SteppedAll(v, schema, snapshot, ms).value;
    assert Lookup(rows[c.table], KeyBytes(c.key)) == Left(v, schema, snapshot, ms, c.table, KeyBytes(c.key));
  }

  // Later reads of the cell give the row, or none, and reads of all other cells are as before.
  ghost predicate Writes(schema: Schema, snapshot: Rows, ms: seq<StorageMutation>, longer: seq<StorageMutation>, c: Cell, row: Option<Row>) {
    && Known(schema, snapshot, c) && Seen(schema, snapshot, longer, c) == row
    && forall d :: d != c && Known(schema, snapshot, d) ==> Seen(schema, snapshot, longer, d) == Seen(schema, snapshot, ms, d)
  }

  // Before anything is recorded, reads give the snapshot.
  lemma SeenFirst(schema: Schema, snapshot: Rows, c: Cell)
    requires Known(schema, snapshot, c)
    ensures Seen(schema, snapshot, [], c) == if KeyBytes(c.key) in snapshot[c.table] then Some(snapshot[c.table][KeyBytes(c.key)]) else None
  {
  }

  lemma SeenMore(schema: Schema, snapshot: Rows, ms: seq<StorageMutation>, m: StorageMutation)
    requires m.table in schema && Known(schema, snapshot, CellOf(schema, m))
    ensures Writes(schema, snapshot, ms, ms + [m], CellOf(schema, m),
      match m.mutation case Insert(row) => Some(row) case Update(_, row) => Some(row) case Delete(_) => None)
  {
    hide KeyBytes, EncodableKey;
    assert (ms + [m])[..|ms|] == ms;
  }

  // ---------- two forms of one key ----------

  function OneColumn(): Schema {
    map["t" := Table({"id"}, ["id"], [])]
  }

  function NumberRow(negative: bool): Row {
    map["id" := Number(Double(negative, 0))]
  }

  // A row with key 0 and a row with key -0.
  function TwoZeros(): seq<StorageMutation> {
    [StorageMutation("t", Insert(NumberRow(false))), StorageMutation("t", Insert(NumberRow(true)))]
  }

  /** A transaction inserts 0 and then -0, and reads both; storage takes them for one key and rejects the command. */
  lemma TwoZerosFail(v: Values)
    requires v.Clone(NumberRow(false)).Some? && v.Clone(NumberRow(true)).Some?
    ensures Recorded(OneColumn(), map["t" := map[]], TwoZeros())
    ensures SteppedAll(v, OneColumn(), map["t" := map[]], TwoZeros()) == Err(DuplicateKey)
  {
    var schema, snapshot: Rows, ms := OneColumn(), map["t" := map[]], TwoZeros();
    var p, q := [Number(Double(false, 0))], [Number(Double(true, 0))];
    assert PrimaryKey(schema["t"], NumberRow(false)) == p && PrimaryKey(schema["t"], NumberRow(true)) == q;
    assert EncodableKey(p) && EncodableKey(q);
    EncodingInjective(p, q);
    assert ms[..0] == [] && ms[..1] == [ms[0]] && ms[..1][..0] == [];
    assert Allowed(schema, snapshot, ms[..0], ms[0]);
    assert p[0] != q[0] && CellOf(schema, ms[0]) == Cell("t", p) && CellOf(schema, ms[1]) == Cell("t", q);
    assert Overlaid(schema, [], Cell("t", q)) == None && Overlaid(schema, ms[..1], Cell("t", q)) == None;
    assert Allowed(schema, snapshot, ms[..1], ms[1]);
    var one := Stepped(v, schema["t"], map[], Insert(NumberRow(false)));
    assert one.Ok? && KeyBytes(p) in one.value;
    assert SteppedAll(v, schema, snapshot, ms[..0]) == Ok(snapshot);
    assert SteppedAll(v, schema, snapshot, ms[..1]) == SteppedIn(v, schema, snapshot, ms[0]);
  }

  /** Reads see the snapshot with the recorded mutations over it; the list records what the transaction allowed. */
  class CommandTransaction {
    const schema: Schema
    const snapshot: Rows
    var overlays: map<Cell, Option<Row>>
    var mutations: seq<StorageMutation>
    var cached: map<Cell, Option<Row>>
    var active: bool

    constructor (schema: Schema, snapshot: Rows)
      ensures this.schema == schema && this.snapshot == snapshot && active && mutations == [] && Valid()
    {
      this.schema, this.snapshot := schema, snapshot;
      overlays, mutations, cached, active := map[], [], map[], true;
    }

    ghost predicate Valid()
      reads this
    {
      && Recorded(schema, snapshot, mutations)
      && (forall c :: OverlayIs(schema, mutations, overlays, c))
      && (forall c :: c in overlays ==> Known(schema, snapshot, c))
      && (forall c :: c in cached ==> Known(schema, snapshot, c) && cached[c] == Lookup(snapshot[c.table], KeyBytes(c.key)))
    }

    /** The row after the recorded mutations; an unknown table or a key that cannot be encoded is refused. */
    method Get(c: Cell) returns (r: Reply<Option<Row>>)
      requires Valid()
      modifies this`cached
      ensures Valid()
      ensures active && Known(schema, snapshot, c) ==> r == Done(Seen(schema, snapshot, mutations, c))
      ensures !active ==> r == Refused(Inactive)
      ensures active && !Known(schema, snapshot, c) ==> r == Refused(if c.table in schema && c.table in snapshot then NoKey else NoTable)
    {
      hide KeyBytes, EncodableKey, Allowed, Overlaid;
      assert OverlayIs(schema, mutations, overlays, c);
      if !active {
        return Refused(Inactive);
      }
      if c.table !in schema {
        return Refused(NoTable);
      }
      if c in overlays {
        return Done(overlays[c]);
      }
      if c !in cached {
        if c.table !in snapshot {
          return Refused(NoTable);
        }
        if !EncodableKey(c.key) {
          return Refused(NoKey);
        }
        cached := cached[c := Lookup(snapshot[c.table], KeyBytes(c.key))];
      }
      r := Done(cached[c]);
    }

    method Record(m: StorageMutation)
      requires Valid() && Allowed(schema, snapshot, mutations, m)
      modifies this`overlays, this`mutations
      ensures Valid() && mutations == old(mutations) + [m]
    {
      hide KeyBytes, EncodableKey, Allowed, Target;
      assert m.table in schema && Known(schema, snapshot, CellOf(schema, m)) by {
        AllowedKnown(schema, snapshot, mutations, m);
      }
      ghost var was := mutations;
      overlays := overlays[CellOf(schema, m) := RowOf(m.mutation)];
      mutations := mutations + [m];
      RecordedMore(schema, snapshot, was, m);
      forall c ensures OverlayIs(schema, mutations, overlays, c) {
        assert OverlayIs(schema, was, old(overlays), c);
        assert mutations[..|was|] == was;
      }
    }

    method Insert(table: string, row: Row, authorized: bool) returns (r: Reply<Row>)
      requires Valid()
      modifies this`overlays, this`mutations, this`cached
      ensures Valid() && (r.Done? ==> r.value == row)
      ensures var m := StorageMutation(table, TableModel.Insert(row));
        && (r.Done? <==> active && Allowed(schema, snapshot, old(mutations), m) && authorized)
        && mutations == old(mutations) + if r.Done? then [m] else []
      ensures r.Done? ==> table in schema && Writes(schema, snapshot, old(mutations), mutations, Cell(table, PrimaryKey(schema[table], row)), Some(row))
    {
      hide KeyBytes, EncodableKey, Seen;
      if !active {
        return Refused(Inactive);
      }
      if table !in schema {
        return Refused(NoTable);
      }
      var current := Get(Cell(table, PrimaryKey(schema[table], row)));
      if current.Refused? {
        return Refused(current.refusal);
      }
      if current.value.Some? {
        return Refused(Duplicate);
      }
      if !authorized {
        return Refused(Unauthorized);
      }
      SeenMore(schema, snapshot, mutations, StorageMutation(table, TableModel.Insert(row)));
      Record(StorageMutation(table, TableModel.Insert(row)));
      r := Done(row);
    }

    // The changed row; columns that are unknown or part of the key cannot be changed.
    method Update(c: Cell, changes: Row, authorized: bool) returns (r: Reply<Row>)
      requires Valid()
      modifies this`overlays, this`mutations, this`cached
      ensures Valid()
      ensures r.Done? <==> active && UpdateAllowed(schema, snapshot, old(mutations), c, changes) && authorized
      ensures r.Done? ==> Known(schema, snapshot, c) && Seen(schema, snapshot, old(mutations), c).Some?
      ensures r.Done? ==> var seen := Seen(schema, snapshot, old(mutations), c).value;
        && r.value.Keys == seen.Keys + changes.Keys
        && (forall column :: column in changes ==> r.value[column] == changes[column])
        && (forall column :: column in seen && column !in changes ==> r.value[column] == seen[column])
      ensures mutations == old(mutations) + if r.Done? then [StorageMutation(c.table, TableModel.Update(c.key, r.value))] else []
      ensures r.Done? ==> Writes(schema, snapshot, old(mutations), mutations, c, Some(r.value))
    {
      hide KeyBytes, EncodableKey, Seen;
      var current := Get(c);
      if current.Refused? {
        return Refused(current.refusal);
      }
      if current.value.None? {
        return Refused(Missing);
      }
      if !ChangesAllowed(schema[c.table], changes) {
        return Refused(BadColumns);
      }
      var row := current.value.value + changes;
      if PrimaryKey(schema[c.table], row) != c.key {
        return Refused(KeyMoved);
      }
      if !authorized {
        return Refused(Unauthorized);
      }
      SeenMore(schema, snapshot, mutations, StorageMutation(c.table, TableModel.Update(c.key, row)));
      Record(StorageMutation(c.table, TableModel.Update(c.key, row)));
      r := Done(row);
    }

    method Delete(c: Cell, authorized: bool) returns (r: Reply<()>)
      requires Valid()
      modifies this`overlays, this`mutations, this`cached
      ensures Valid()
      ensures var m := StorageMutation(c.table, TableModel.Delete(c.key));
        && (r.Done? <==> active && Allowed(schema, snapshot, old(mutations), m) && authorized)
        && mutations == old(mutations) + if r.Done? then [m] else []
      ensures r.Done? ==> Writes(schema, snapshot, old(mutations), mutations, c, None)
    {
      hide KeyBytes, EncodableKey, Seen;
      var current := Get(c);
      if current.Refused? {
        return Refused(current.refusal);
      }
      if current.value.None? {
        return Refused(Missing);
      }
      if !authorized {
        return Refused(Unauthorized);
      }
      SeenMore(schema, snapshot, mutations, StorageMutation(c.table, TableModel.Delete(c.key)));
      Record(StorageMutation(c.table, TableModel.Delete(c.key)));
      r := Done(());
    }

    // Hands over the list; the transaction is over.
    method Finish() returns (r: Reply<seq<StorageMutation>>)
      requires Valid()
      modifies this`active
      ensures Valid() && !active && mutations == old(mutations)
      ensures r == if old(active) then Done(mutations) else Refused(Inactive)
    {
      if !active {
        return Refused(Inactive);
      }
      active := false;
      r := Done(mutations);
    }
  }

  // The row is there and the changes leave its key alone.
  predicate UpdateAllowed(schema: Schema, snapshot: Rows, before: seq<StorageMutation>, c: Cell, changes: Row) {
    && Known(schema, snapshot, c) && Seen(schema, snapshot, before, c).Some? && ChangesAllowed(schema[c.table], changes)
    && KeyStays(schema[c.table], Seen(schema, snapshot, before, c).value, changes, c.key)
  }

  // With the changes, every key column has the value that the key gives it.
  predicate KeyStays(table: Table, row: Row, changes: Row, key: Key) {
    && |key| == |table.primaryColumns|
    && forall i :: 0 <= i < |key| ==>
         var column := table.primaryColumns[i];
         key[i] == if column in changes then changes[column] else if column in row then row[column] else Unsupported
  }

  /** A transaction reads its own update. */
  method UpdateAndGet(transaction: CommandTransaction, c: Cell, changes: Row, authorized: bool) returns (r: Reply<Row>, read: Reply<Option<Row>>)
    requires transaction.Valid()
    modifies transaction`overlays, transaction`mutations, transaction`cached
    ensures transaction.Valid()
    ensures r.Done? ==> read == Done(Some(r.value)) && forall column :: column in changes ==> column in r.value && r.value[column] == changes[column]
  {
    r := transaction.Update(c, changes, authorized);
    read := transaction.Get(c);
  }

  predicate ChangesAllowed(table: Table, changes: Row) {
    changes.Keys <= table.columns && forall i :: 0 <= i < |table.primaryColumns| ==> table.primaryColumns[i] !in changes
  }

  ghost predicate OverlayIs(schema: Schema, ms: seq<StorageMutation>, overlays: map<Cell, Option<Row>>, c: Cell) {
    Overlaid(schema, ms, c) == if c in overlays then Some(overlays[c]) else None
  }

  lemma AllowedKnown(schema: Schema, snapshot: Rows, before: seq<StorageMutation>, m: StorageMutation)
    requires Allowed(schema, snapshot, before, m)
    ensures m.table in schema && Known(schema, snapshot, CellOf(schema, m))
  {
  }

  lemma RecordedMore(schema: Schema, snapshot: Rows, ms: seq<StorageMutation>, m: StorageMutation)
    requires Recorded(schema, snapshot, ms) && Allowed(schema, snapshot, ms, m)
    ensures Recorded(schema, snapshot, ms + [m])
  {
    hide Allowed;
    forall i | 0 <= i < |ms + [m]| ensures Allowed(schema, snapshot, (ms + [m])[..i], (ms + [m])[i]) {
      assert (ms + [m])[..i] == ms[..i];
      assert ms[..|ms|] == ms;
    }
  }

  // A cell whose key was used in one form holds what the transaction saw.
  ghost predicate ReadsBack(v: Values, schema: Schema, snapshot: Rows, ms: seq<StorageMutation>, rows: Rows, c: Cell) {
    Known(schema, snapshot, c) && (forall i :: 0 <= i < |ms| ==> !IsTwin(schema, ms[i], c)) ==>
      c.table in rows && Lookup(rows[c.table], KeyBytes(c.key)) == ReadBack(v, schema, snapshot, ms, c)
  }

  /** Commits what a transaction recorded on the head it had read. It is published whole, with the rows that the transaction saw,
      or the head stays; unless two forms of one key were mixed, only a row of its own can be the reason. */
  method CommitCommand(transaction: CommandTransaction, db: T.TreeDatabase, expected: nat) returns (r: Outcome<seq<StoredChange>>)
    requires transaction.Valid() && transaction.active && db.Valid() && transaction.schema == db.schema
    requires expected == db.version ==> transaction.snapshot == db.HeadRows()
    modifies transaction`active, db`draft, db`head, db`version, db.tree`pages, db.tree`nextId
    ensures db.Valid() && (r.Ok? <==> db.version == old(db.version) + 1)
    ensures r.Err? ==> db.head == old(db.head) && db.version == old(db.version) && db.HeadRows() == old(db.HeadRows())
    ensures r == Err(Conflict) <==> expected != old(db.version)
    ensures expected == old(db.version) ==> forall e ::
      r == Err(e) <==> Fails(db.v, db.schema, transaction.snapshot, transaction.mutations, e)
    ensures expected == old(db.version) && AllCoherent(db.schema, transaction.snapshot, transaction.mutations) && r.Err? ==>
      r.error.NotUnique? || r.error.Unencodable? || r.error.Unstorable?
    ensures r.Ok? ==> AllCoherent(db.schema, transaction.snapshot, transaction.mutations)
    ensures r.Ok? ==> Reports(db.v, db.schema, transaction.snapshot, transaction.mutations, r.value)
    ensures r.Ok? ==> db.HeadRows() == Replayed(transaction.snapshot, r.value)
    ensures r.Ok? ==> forall c :: ReadsBack(db.v, db.schema, transaction.snapshot, transaction.mutations, db.HeadRows(), c)
  {
    hide SteppedAll, T.Good, Allowed, KeyBytes, EncodableKey, FailsAt, Coherent, Reports, Replayed;
    ghost var v, schema, snapshot, ms := db.v, db.schema, transaction.snapshot, transaction.mutations;
    var finished := transaction.Finish();
    r := db.Commit(expected, finished.value);
    if expected == old(db.version) {
      ReplayExactly(v, schema, snapshot, ms);
      if AllCoherent(schema, snapshot, ms) {
        CoherentReplay(v, schema, snapshot, ms);
      }
      forall c | r.Ok? ensures ReadsBack(v, schema, snapshot, ms, db.HeadRows(), c) {
        ReplayReadsBack(v, schema, snapshot, ms, c);
      }
      NotConflict(v, schema, snapshot, ms);
    }
  }

  lemma NotConflict(v: Values, schema: Schema, snapshot: Rows, ms: seq<StorageMutation>)
    requires Recorded(schema, snapshot, ms)
    ensures !Fails(v, schema, snapshot, ms, Conflict)
  {
    hide SteppedAll, RowError, Coherent, Seen, KeyBytes, EncodableKey;
    forall i: nat | i < |ms| ensures !FailsAt(v, schema, snapshot, ms, i, Conflict) {
      assert Allowed(schema, snapshot, ms[..i], ms[i]);
      var before := SteppedAll(v, schema, snapshot, ms[..i]);
      if before.Ok? && ms[i].table in before.value {
        RowErrors(v, schema[ms[i].table], before.value[ms[i].table], ms[i].mutation);
      }
    }
  }

  lemma ReplayReadsBack(v: Values, schema: Schema, snapshot: Rows, ms: seq<StorageMutation>, c: Cell)
    requires SteppedAll(v, schema, snapshot, ms).Ok?
    ensures ReadsBack(v, schema, snapshot, ms, SteppedAll(v, schema, snapshot, ms).value, c)
  {
    hide SteppedAll, KeyBytes, EncodableKey, IsTwin;
    if Known(schema, snapshot, c) && forall i :: 0 <= i < |ms| ==> !IsTwin(schema, ms[i], c) {
      SeenIsReplayed(v, schema, snapshot, ms, c);
    }
  }
}
