// Opening a file that was cut at any byte: the page store keeps whole records (page-store.ts), they
// decode to a cut of the engine's log, and loading that gives a state the database had (node-storage.ts).
module NodeRecovery {
  import opened NodeLog
  import opened NodeEngine
  import S = PageStore
  import Codec

  // How entries are written as records: slots become the byte offsets of the records they name.
  datatype Format = Format(encode: (Entry, seq<nat>) -> S.Record, decode: (S.Record, seq<nat>) -> Entry)

  predicate Distinct(offsets: seq<nat>) {
    forall i, j :: 0 <= i < j < |offsets| ==> offsets[i] != offsets[j]
  }

  // The encoding of payloads is injective; what an entry names are offsets of earlier records.
  ghost predicate RoundTrips(f: Format) {
    forall log: Log, i: nat, offsets: seq<nat> :: i < |log| && InOrder(log, i) && |offsets| == i && Distinct(offsets) ==>
      f.decode(f.encode(log[i], offsets), offsets) == log[i]
  }

  function Offsets(checksum: S.Checksum, rs: seq<S.Record>): (r: seq<nat>)
    ensures |r| == |rs|
  {
    seq(|rs|, i requires 0 <= i < |rs| => S.Offset(checksum, rs, i))
  }

  function RecordsOf(f: Format, checksum: S.Checksum, log: Log): (rs: seq<S.Record>)
    ensures |rs| == |log|
  {
    if log == [] then []
    else
      var init := RecordsOf(f, checksum, log[..|log| - 1]);
      init + [f.encode(log[|log| - 1], Offsets(checksum, init))]
  }

  lemma {:induction false} RecordsPrefix(f: Format, checksum: S.Checksum, log: Log, k: nat)
    requires k <= |log|
    ensures RecordsOf(f, checksum, log)[..k] == RecordsOf(f, checksum, log[..k])
    decreases |log|
  {
    if k < |log| {
      RecordsPrefix(f, checksum, log[..|log| - 1], k);
      assert log[..|log| - 1][..k] == log[..k];
    } else {
      assert log[..k] == log;
    }
  }

  lemma OffsetsDistinct(checksum: S.Checksum, rs: seq<S.Record>)
    requires S.Digests(checksum)
    ensures Distinct(Offsets(checksum, rs))
  {
    forall i, j | 0 <= i < j < |rs| ensures Offsets(checksum, rs)[i] != Offsets(checksum, rs)[j] {
      S.OffsetsIncrease(checksum, rs, i, j);
    }
  }

  // One record after k others decodes to its entry.
  lemma DecodesAt(f: Format, checksum: S.Checksum, log: Log, k: nat)
    requires S.Digests(checksum) && RoundTrips(f) && Ordered(log) && k < |log|
    ensures var rs := RecordsOf(f, checksum, log); f.decode(rs[k], Offsets(checksum, rs[..k])) == log[k]
  {
    RecordsPrefix(f, checksum, log, k + 1);
    RecordsPrefix(f, checksum, log, k);
    var rs := RecordsOf(f, checksum, log);
    assert log[..k + 1][..k] == log[..k];
    assert rs[k] == rs[..k + 1][k];
    OffsetsDistinct(checksum, rs[..k]);
    assert InOrder(log, k);
  }

  lemma OffsetsOfPrefix(checksum: S.Checksum, rs: seq<S.Record>, k: nat, i: nat)
    requires k <= |rs| && i <= k
    ensures S.Offset(checksum, rs[..k], i) == S.Offset(checksum, rs, i)
  {
    assert rs[..k][..i] == rs[..i];
  }

  // Entries are decoded in order; each may name the offsets of those before it.
  method Decode(f: Format, checksum: S.Checksum, records: seq<S.Stored>, ghost log: Log) returns (read: Log)
    requires S.Digests(checksum) && RoundTrips(f) && Ordered(log) && |records| <= |log|
    requires var rs := RecordsOf(f, checksum, log);
      forall i :: 0 <= i < |records| ==> records[i] == S.Stored(S.Offset(checksum, rs, i), rs[i])
    ensures read == log[..|records|]
  {
    hide S.Digests, Ordered, RoundTrips, RecordsOf, Offsets;
    ghost var rs := RecordsOf(f, checksum, log);
    read := [];
    var offsets: seq<nat> := [];
    assert Offsets(checksum, rs[..0]) == [];
    for i := 0 to |records|
      invariant read == log[..i] && offsets == Offsets(checksum, rs[..i])
    {
      DecodesAt(f, checksum, log, i);
      MoreOffsets(checksum, rs, i);
      read := read + [f.decode(records[i].record, offsets)];
      offsets := offsets + [records[i].id];
    }
  }

  /** Opens a cut file: what is kept decodes to a cut of the log, at the record the page store says. */
  method ReadLog(f: Format, checksum: S.Checksum, file: Codec.Bytes, start: nat, ghost log: Log, ghost first: nat) returns (read: Log)
    requires S.Digests(checksum) && RoundTrips(f) && Ordered(log)
    requires S.AllFit(RecordsOf(f, checksum, log)) && file <= S.Log(checksum, RecordsOf(f, checksum, log))
    requires first <= |log| && start == S.Offset(checksum, RecordsOf(f, checksum, log), first) <= |file|
    ensures read <= log && S.Keeps(checksum, RecordsOf(f, checksum, log), |file|, |read|)
  {
    hide S.Digests, S.AllFit, Ordered, RoundTrips, RecordsOf, S.Keeps, S.Log, S.Encoded, S.AppendOnlyPageStore.Valid, S.Offset;
    ghost var rs := RecordsOf(f, checksum, log);
    var store := new S.AppendOnlyPageStore(checksum, file, start, rs, first);
    var records := store.Records();
    ghost var k := |store.log|;
    assert store.log == rs[..k];
    forall i: nat | i < k ensures records[i] == S.Stored(S.Offset(checksum, rs, i), rs[i]) {
      OffsetsOfPrefix(checksum, rs, k, i);
    }
    read := Decode(f, checksum, records, log);
  }

  lemma MoreOffsets(checksum: S.Checksum, rs: seq<S.Record>, i: nat)
    requires i < |rs|
    ensures Offsets(checksum, rs[..i + 1]) == Offsets(checksum, rs[..i]) + [S.Offset(checksum, rs, i)]
  {
    forall k | 0 <= k <= i ensures Offsets(checksum, rs[..i + 1])[k] == S.Offset(checksum, rs, k) {
      OffsetsOfPrefix(checksum, rs, i + 1, k);
    }
    forall k | 0 <= k < i ensures Offsets(checksum, rs[..i])[k] == S.Offset(checksum, rs, k) {
      OffsetsOfPrefix(checksum, rs, i, k);
    }
  }

  /** Whatever byte a crash cuts the file at, above what the last compaction synced, opening it loads a catalog
      that the running database had before; no operation is lost whose records are all within the cut. */
  method Recover(f: Format, checksum: S.Checksum, file: Codec.Bytes, start: nat, ghost states: seq<Engine>, ghost steps: seq<Step>,
      ghost i: nat, ghost first: nat)
    returns (catalog: Catalog, ghost m: nat)
    requires S.Digests(checksum) && RoundTrips(f) && IsRun(states, steps) && i < |states|
    requires var rs := RecordsOf(f, checksum, states[i].log);
      S.AllFit(rs) && file <= S.Log(checksum, rs) && states[i].base <= |rs| && S.Offset(checksum, rs, states[i].base) <= |file|
    requires var rs := RecordsOf(f, checksum, states[i].log); first <= |rs| && start == S.Offset(checksum, rs, first) <= |file|
    ensures m <= i && catalog == states[m].catalog
    ensures var rs := RecordsOf(f, checksum, states[i].log);
      forall j :: 0 <= j <= i && |states[j].log| <= |rs| && S.Offset(checksum, rs, |states[j].log|) <= |file| ==> j <= m
  {
    hide S.Digests, S.AllFit, RoundTrips, RecordsOf, S.Log, IsRun, Load, S.Keeps;
    ghost var log := states[i].log;
    ghost var rs := RecordsOf(f, checksum, log);
    RunKeepsInv(states, steps, i);
    var read := ReadLog(f, checksum, file, start, log, first);
    assert read == log[..|read|];
    S.KeepsMost(checksum, rs, |file|, |read|, states[i].base);
    m := CrashRecoversAState(states, steps, i, |read|);
    forall j | 0 <= j <= i && |states[j].log| <= |rs| && S.Offset(checksum, rs, |states[j].log|) <= |file| ensures j <= m {
      S.KeepsMost(checksum, rs, |file|, |read|, |states[j].log|);
    }
    catalog := Load(read);
  }
}
