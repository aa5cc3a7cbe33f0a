// The append-only file of records (page-store.ts), as bytes.
module PageStore {
  import opened Codec

  datatype Kind = Page | Commit | Ref | Meta

  datatype Record = Record(kind: Kind, payload: Bytes)

  // A record with its offset, which is its id.
  datatype Stored = Stored(id: nat, record: Record)

  const MAGIC: Bytes := [0x48, 0x59, 0x44, 0x42]
  const VERSION := 1
  const CHECKSUM_BYTES := 16
  const HEADER_BYTES := 26
  const MAX_PAYLOAD := 0xFFFF_FFFF

  type Checksum = Bytes -> Bytes

  ghost predicate Digests(checksum: Checksum) {
    forall b :: |checksum(b)| == CHECKSUM_BYTES
  }

  function TypeCode(kind: Kind): int {
    match kind
    case Page => 1
    case Commit => 2
    case Ref => 3
    case Meta => 4
  }

  function CodeType(code: int): Option<Kind> {
    match code
    case 1 => Some(Page)
    case 2 => Some(Commit)
    case 3 => Some(Ref)
    case 4 => Some(Meta)
    case _ => None
  }

  function ReadInt(b: Bytes): int {
    if b == [] then 0 else 256 * ReadInt(b[..|b| - 1]) + b[|b| - 1]
  }

  lemma {:induction false} ReadWritten(n: nat, width: nat)
    requires n < Range(width)
    ensures ReadInt(BigEndian(n, width)) == n
  {
    if width > 0 {
      ReadWritten(n / 256, width - 1);
      assert BigEndian(n, width)[..width - 1] == BigEndian(n / 256, width - 1);
    }
  }

  // Magic, version, type, length; then the checksum and the payload.
  function Fixed(r: Record): (b: Bytes)
    ensures |b| == 10
  {
    MAGIC + [VERSION, TypeCode(r.kind)] + BigEndian(|r.payload|, 4)
  }

  function HeaderBytes(checksum: Checksum, r: Record): Bytes {
    Fixed(r) + checksum(r.payload)
  }

  function Encoded(checksum: Checksum, r: Record): Bytes {
    HeaderBytes(checksum, r) + r.payload
  }

  predicate Fits(r: Record) {
    |r.payload| <= MAX_PAYLOAD
  }

  datatype Header = Header(kind: Kind, length: int)

  // The header at a position, if a whole record can follow it.
  function ParseHeader(file: Bytes, position: nat, size: nat): (h: Option<Header>)
    requires size <= |file|
    ensures h.Some? ==> position + HEADER_BYTES + h.value.length <= size
  {
    if position + HEADER_BYTES > size then None
    else
      var header := file[position..position + HEADER_BYTES];
      if header[..4] != MAGIC || header[4] != VERSION then None
      else
        var kind := CodeType(header[5]);
        if kind == None then None
        else
          var length := ReadInt(header[6..10]);
          if position + HEADER_BYTES + length > size then None
          else Some(Header(kind.value, length))
  }

  // ---------- logs of records ----------

  function Log(checksum: Checksum, rs: seq<Record>): Bytes {
    if rs == [] then [] else Log(checksum, rs[..|rs| - 1]) + Encoded(checksum, rs[|rs| - 1])
  }

  ghost predicate AllFit(rs: seq<Record>) {
    forall i :: 0 <= i < |rs| ==> Fits(rs[i])
  }

  function Offset(checksum: Checksum, rs: seq<Record>, i: nat): nat
    requires i <= |rs|
  {
    |Log(checksum, rs[..i])|
  }

  lemma LogStep(checksum: Checksum, rs: seq<Record>, i: nat)
    requires i < |rs|
    ensures Log(checksum, rs[..i + 1]) == Log(checksum, rs[..i]) + Encoded(checksum, rs[i])
  {
    assert rs[..i + 1][..i] == rs[..i];
  }

  lemma {:induction false} LogPrefix(checksum: Checksum, rs: seq<Record>, i: nat)
    requires i <= |rs|
    ensures Log(checksum, rs[..i]) <= Log(checksum, rs)
    decreases |rs| - i
  {
    if i == |rs| {
      assert rs[..i] == rs;
    } else {
      LogStep(checksum, rs, i);
      LogPrefix(checksum, rs, i + 1);
    }
  }

  // The bytes of record i where the log has them.
  lemma LogAt(checksum: Checksum, rs: seq<Record>, i: nat)
    requires i < |rs|
    ensures var p := Offset(checksum, rs, i);
      && p + |Encoded(checksum, rs[i])| == Offset(checksum, rs, i + 1) <= |Log(checksum, rs)|
      && Log(checksum, rs)[p..Offset(checksum, rs, i + 1)] == Encoded(checksum, rs[i])
  {
    LogStep(checksum, rs, i);
    LogPrefix(checksum, rs, i + 1);
    var p := Offset(checksum, rs, i);
    var q := Offset(checksum, rs, i + 1);
    assert Log(checksum, rs)[..q] == Log(checksum, rs[..i]) + Encoded(checksum, rs[i]);
    assert Log(checksum, rs)[p..q] == Log(checksum, rs)[..q][p..];
  }

  lemma EncodedSize(checksum: Checksum, r: Record)
    requires Digests(checksum)
    ensures |Encoded(checksum, r)| == HEADER_BYTES + |r.payload|
    ensures Encoded(checksum, r)[..10] == Fixed(r)
    ensures Encoded(checksum, r)[10..26] == checksum(r.payload) && Encoded(checksum, r)[26..] == r.payload
  {
    assert |checksum(r.payload)| == CHECKSUM_BYTES;
  }

  lemma FixedParts(r: Record)
    requires Fits(r)
    ensures Fixed(r)[..4] == MAGIC && Fixed(r)[4] == VERSION && CodeType(Fixed(r)[5]) == Some(r.kind)
    ensures ReadInt(Fixed(r)[6..10]) == |r.payload|
  {
    assert Range(4) == 0x1_0000_0000;
    ReadWritten(|r.payload|, 4);
    assert Fixed(r)[6..10] == BigEndian(|r.payload|, 4);
  }

  /** A header parses exactly when its whole record is within the file. */
  lemma HeaderParses(checksum: Checksum, rs: seq<Record>, i: nat, file: Bytes)
    requires Digests(checksum) && AllFit(rs) && i < |rs|
    requires file <= Log(checksum, rs) && Offset(checksum, rs, i) <= |file|
    ensures ParseHeader(file, Offset(checksum, rs, i), |file|)
      == if Offset(checksum, rs, i + 1) <= |file| then Some(Header(rs[i].kind, |rs[i].payload|)) else None
    ensures Offset(checksum, rs, i + 1) == Offset(checksum, rs, i) + HEADER_BYTES + |rs[i].payload|
  {
    hide Log, Encoded, Fixed, ReadInt, HeaderBytes;
    var p := Offset(checksum, rs, i);
    LogAt(checksum, rs, i);
    EncodedSize(checksum, rs[i]);
    assert Fits(rs[i]);
    FixedParts(rs[i]);
    if p + HEADER_BYTES <= |file| {
      var q := Offset(checksum, rs, i + 1);
      var header := file[p..p + HEADER_BYTES];
      assert header == Log(checksum, rs)[p..q][..HEADER_BYTES];
      assert header[..10] == Fixed(rs[i]);
      assert header[..4] == header[..10][..4] && header[6..10] == header[..10][6..10];
    }
  }

  // How many whole records a cut file keeps.
  ghost predicate Keeps(checksum: Checksum, rs: seq<Record>, n: nat, k: nat) {
    k <= |rs| && Offset(checksum, rs, k) <= n && (k < |rs| ==> n < Offset(checksum, rs, k + 1))
  }

  /** The file and the end of what has been written to it. */
  class AppendOnlyPageStore {
    const checksum: Checksum
    var file: Bytes
    var end: nat
    // The records written or recovered.
    ghost var log: seq<Record>

    // Opens a log cut at any byte, looking for whole records from a record boundary on that lies within the file.
    constructor (checksum: Checksum, file: Bytes, start: nat, ghost rs: seq<Record>, ghost first: nat)
      requires Digests(checksum) && AllFit(rs) && file <= Log(checksum, rs)
      requires first <= |rs| && start == Offset(checksum, rs, first) <= |file|
      ensures this.checksum == checksum && Valid() && log <= rs && Keeps(checksum, rs, |file|, |log|)
    {
      hide Log;
      this.checksum := checksum;
      this.file := file;
      var position := start;
      ghost var k := first;
      while position < |file|
        invariant first <= k <= |rs| && position == Offset(checksum, rs, k) <= |file|
        decreases |rs| - k
      {
        OffsetEnd(checksum, rs);
        if k == |rs| {
          assert false; // nothing follows the last record
        }
        HeaderParses(checksum, rs, k, file);
        var header := ParseHeader(file, position, |file|);
        if header == None {
          break;
        }
        position := position + HEADER_BYTES + header.value.length;
        k := k + 1;
      }
      end := position;
      this.file := file[..position];
      log := rs[..k];
      new;
      LogPrefix(checksum, rs, k);
      assert file[..position] == Log(checksum, rs)[..position];
      if k < |rs| {
        HeaderParses(checksum, rs, k, file);
      }
    }

    ghost predicate Valid()
      reads this
    {
      Digests(checksum) && AllFit(log) && file == Log(checksum, log) && end == |file|
    }

    method Append(kind: Kind, payload: Bytes) returns (id: Option<nat>)
      requires Valid()
      modifies this
      ensures Valid()
      ensures |payload| > MAX_PAYLOAD ==> id == None && log == old(log)
      ensures |payload| <= MAX_PAYLOAD ==> id == Some(old(end)) && log == old(log) + [Record(kind, payload)] && old(file) <= file
    {
      if |payload| > MAX_PAYLOAD {
        return None;
      }
      hide Log, HeaderBytes, Fixed;
      var r := Record(kind, payload);
      var header := HeaderBytes(checksum, r);
      EncodedSize(checksum, r);
      LogMore(checksum, log, r);
      id := Some(end);
      assert file[..end] == file;
      Grouped(file, header, payload);
      file := file[..end] + header;
      file := file + payload;
      end := end + HEADER_BYTES + |payload|;
      log := log + [r];
    }

    /** Every record, in order; no header or checksum is found corrupt. */
    method Records() returns (records: seq<Stored>)
      requires Valid()
      ensures |records| == |log|
      ensures forall i :: 0 <= i < |log| ==> records[i] == Stored(Offset(checksum, log, i), log[i])
    {
      hide Log, Encoded;
      records := [];
      var position := 0;
      assert log[..0] == [] && log[..|log|] == log;
      LogEmpty(checksum);
      while position < end
        invariant |records| <= |log| && position == Offset(checksum, log, |records|) <= end
        invariant forall i :: 0 <= i < |records| ==> records[i] == Stored(Offset(checksum, log, i), log[i])
        decreases |log| - |records|
      {
        var i := |records|;
        if i == |log| {
          assert false; // the end is the end of the last record
        }
        LogPrefix(checksum, log, i + 1);
        HeaderParses(checksum, log, i, file);
        var header := ParseHeader(file, position, end);
        if header == None {
          assert false; // no corrupt header
        }
        var payload := file[position + HEADER_BYTES..position + HEADER_BYTES + header.value.length];
        LogAt(checksum, log, i);
        EncodedSize(checksum, log[i]);
        SliceOfSlice(file, position, Offset(checksum, log, i + 1), 10, 26);
        SliceOfSlice(file, position, Offset(checksum, log, i + 1), HEADER_BYTES, HEADER_BYTES + header.value.length);
        if file[position + 10..position + 26] != checksum(payload) {
          assert false; // no corrupt payload
        }
        records := records + [Stored(position, Record(header.value.kind, payload))];
        position := position + HEADER_BYTES + header.value.length;
      }
      if |records| < |log| {
        LogPrefix(checksum, log, |records| + 1);
        HeaderParses(checksum, log, |records|, file);
      }
    }
  }

  lemma SliceOfSlice(s: Bytes, p: nat, q: nat, a: nat, b: nat)
    requires p <= q <= |s| && a <= b <= q - p
    ensures s[p..q][a..b] == s[p + a..p + b]
  {
    forall i | 0 <= i < b - a ensures s[p..q][a..b][i] == s[p + a..p + b][i] {
      assert s[p..q][a + i] == s[p + (a + i)];
    }
  }

  lemma Grouped(a: Bytes, b: Bytes, c: Bytes)
    ensures a + b + c == a + (b + c)
  {
  }

  lemma LogMore(checksum: Checksum, rs: seq<Record>, r: Record)
    ensures Log(checksum, rs + [r]) == Log(checksum, rs) + Encoded(checksum, r)
  {
    assert (rs + [r])[..|rs|] == rs;
  }

  lemma OffsetEnd(checksum: Checksum, rs: seq<Record>)
    ensures Offset(checksum, rs, |rs|) == |Log(checksum, rs)|
  {
    assert rs[..|rs|] == rs;
  }

  lemma LogEmpty(checksum: Checksum)
    ensures Log(checksum, []) == []
  {
  }

  lemma {:induction false} OffsetsIncrease(checksum: Checksum, rs: seq<Record>, i: nat, j: nat)
    requires Digests(checksum) && i < j <= |rs|
    ensures Offset(checksum, rs, i) < Offset(checksum, rs, j)
    decreases j
  {
    LogStep(checksum, rs, j - 1);
    EncodedSize(checksum, rs[j - 1]);
    if i < j - 1 {
      OffsetsIncrease(checksum, rs, i, j - 1);
    }
  }

  /** A cut file keeps one number of records: the greatest that fits. */
  lemma KeepsMost(checksum: Checksum, rs: seq<Record>, n: nat, k: nat, j: nat)
    requires Digests(checksum) && Keeps(checksum, rs, n, k) && j <= |rs|
    ensures Offset(checksum, rs, j) <= n <==> j <= k
  {
    if j < k {
      OffsetsIncrease(checksum, rs, j, k);
    }
    if k + 1 < j {
      OffsetsIncrease(checksum, rs, k + 1, j);
    }
  }
}
