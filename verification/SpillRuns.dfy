// Runs of spilled entries by partition, shared by the spilling index and arrangement (flush in
// spill-join.ts, flushHot in spill-arrangement.ts). A run keeps the order in which it was written.
module SpillRuns {

  // The entries of one partition, in order.
  function InPart<E>(entries: seq<E>, part: E -> nat, p: nat): seq<E> {
    if entries == [] then []
    else InPart(entries[..|entries| - 1], part, p) + if part(entries[|entries| - 1]) == p then [entries[|entries| - 1]] else []
  }

  function Flat<E>(runs: seq<seq<E>>): seq<E> {
    if runs == [] then [] else Flat(runs[..|runs| - 1]) + runs[|runs| - 1]
  }

  type Runs<E> = map<nat, seq<seq<E>>>

  // What reading all runs of a partition yields.
  function Stored<E>(runs: Runs<E>, p: nat): seq<E> {
    if p in runs then Flat(runs[p]) else []
  }

  function Of<E>(m: map<nat, seq<E>>, p: nat): seq<E> {
    if p in m then m[p] else []
  }

  lemma StoredMore<E>(runs: Runs<E>, p: nat, before: seq<seq<E>>, run: seq<E>)
    requires before == if p in runs then runs[p] else []
    ensures forall q :: Stored(runs[p := before + [run]], q) == Stored(runs, q) + if q == p then run else []
  {
    var after := before + [run];
    assert after[..|after| - 1] == before;
    assert Flat(after) == Flat(before) + run;
    forall q ensures Stored(runs[p := after], q) == Stored(runs, q) + if q == p then run else [] {
    }
  }

  method Group<E>(entries: seq<E>, part: E -> nat) returns (byPartition: map<nat, seq<E>>)
    ensures forall p :: Of(byPartition, p) == InPart(entries, part, p)
  {
    byPartition := map[];
    for i := 0 to |entries|
      invariant forall p :: Of(byPartition, p) == InPart(entries[..i], part, p)
    {
      var p := part(entries[i]);
      assert entries[..i + 1][..i] == entries[..i];
      byPartition := byPartition[p := Of(byPartition, p) + [entries[i]]];
    }
    assert entries[..|entries|] == entries;
  }

  /** Flushing appends each partition's entries to what the partition already stores. */
  method Flush<E>(runs: Runs<E>, entries: seq<E>, part: E -> nat) returns (r: Runs<E>)
    ensures forall p :: Stored(r, p) == Stored(runs, p) + InPart(entries, part, p)
  {
    var byPartition := Group(entries, part);
    r := runs;
    var left := byPartition.Keys;
    while left != {}
      invariant left <= byPartition.Keys
      invariant forall p :: Stored(r, p) == Stored(runs, p) + if p in left then [] else Of(byPartition, p)
      decreases |left|
    {
      var p :| p in left;
      var before := if p in r then r[p] else [];
      StoredMore(r, p, before, byPartition[p]);
      r := r[p := before + [byPartition[p]]];
      left := left - {p};
    }
  }

  // The entries of one key, in order.
  function OfKey<E>(entries: seq<E>, key: E -> string, k: string): seq<E> {
    if entries == [] then []
    else OfKey(entries[..|entries| - 1], key, k) + if key(entries[|entries| - 1]) == k then [entries[|entries| - 1]] else []
  }

  // The entries at the positions, which ascend.
  ghost predicate PickedAt<E>(entries: seq<E>, at: seq<nat>, picked: seq<E>) {
    && |picked| == |at|
    && (forall i :: 0 <= i < |at| ==> at[i] < |entries| && picked[i] == entries[at[i]])
    && (forall i, j :: 0 <= i < j < |at| ==> at[i] < at[j])
  }

  ghost predicate AllPicked<E>(entries: seq<E>, at: seq<nat>, key: E -> string, k: string) {
    forall n: nat :: n < |entries| ==> (n in at <==> key(entries[n]) == k)
  }

  lemma PickedMore<E>(init: seq<E>, at: seq<nat>, picked: seq<E>, e: E, key: E -> string, k: string)
    requires PickedAt(init, at, picked) && AllPicked(init, at, key, k)
    ensures key(e) == k ==> PickedAt(init + [e], at + [|init|], picked + [e]) && AllPicked(init + [e], at + [|init|], key, k)
    ensures key(e) != k ==> PickedAt(init + [e], at, picked) && AllPicked(init + [e], at, key, k)
  {
    assert forall i :: 0 <= i < |at| ==> at[i] != |init|;
  }

  /** The entries of a key are exactly those that carry it, in their order. */
  lemma {:induction false} OfKeyMeans<E>(entries: seq<E>, key: E -> string, k: string) returns (at: seq<nat>)
    ensures PickedAt(entries, at, OfKey(entries, key, k)) && AllPicked(entries, at, key, k)
  {
    if entries == [] {
      at := [];
    } else {
      var init, e := entries[..|entries| - 1], entries[|entries| - 1];
      var before := OfKeyMeans(init, key, k);
      PickedMore(init, before, OfKey(init, key, k), e, key, k);
      at := if key(e) == k then before + [|init|] else before;
      assert entries == init + [e];
      assert OfKey(entries, key, k) == OfKey(init, key, k) + if key(e) == k then [e] else [];
      hide PickedAt, AllPicked, OfKey;
    }
  }

  lemma {:induction false} OfKeyAppend<E>(a: seq<E>, b: seq<E>, key: E -> string, k: string)
    ensures OfKey(a + b, key, k) == OfKey(a, key, k) + OfKey(b, key, k)
  {
    if b == [] {
      assert a + b == a;
    } else {
      assert (a + b)[..|a + b| - 1] == a + b[..|b| - 1];
      OfKeyAppend(a, b[..|b| - 1], key, k);
    }
  }

  lemma OfKeyOne<E>(e: E, key: E -> string, k: string)
    ensures OfKey([e], key, k) == if key(e) == k then [e] else []
  {
    assert [e][..0] == [];
  }

  /** A key's entries all lie in its own partition. */
  lemma {:induction false} OfKeyInPart<E>(entries: seq<E>, key: E -> string, hash: string -> nat, part: E -> nat, k: string)
    requires forall e :: part(e) == hash(key(e))
    ensures OfKey(InPart(entries, part, hash(k)), key, k) == OfKey(entries, key, k)
  {
    if entries != [] {
      var init, last := entries[..|entries| - 1], entries[|entries| - 1];
      OfKeyInPart(init, key, hash, part, k);
      assert part(last) == hash(key(last));
      if part(last) == hash(k) {
        OfKeyAppend(InPart(init, part, hash(k)), [last], key, k);
        OfKeyOne(last, key, k);
      } else {
        assert InPart(entries, part, hash(k)) == InPart(init, part, hash(k)) + [] == InPart(init, part, hash(k));
      }
      assert OfKey(entries, key, k) == OfKey(init, key, k) + if key(last) == k then [last] else [];
    }
  }

  /** So flushing moves a key's entries behind those already stored, in order. */
  lemma FlushedKey<E>(runs: Runs<E>, flushed: Runs<E>, entries: seq<E>, key: E -> string, hash: string -> nat, part: E -> nat, k: string)
    requires forall e :: part(e) == hash(key(e))
    requires forall p :: Stored(flushed, p) == Stored(runs, p) + InPart(entries, part, p)
    ensures OfKey(Stored(flushed, hash(k)), key, k) == OfKey(Stored(runs, hash(k)) + entries, key, k)
  {
    OfKeyInPart(entries, key, hash, part, k);
    OfKeyAppend(Stored(runs, hash(k)), InPart(entries, part, hash(k)), key, k);
    OfKeyAppend(Stored(runs, hash(k)), entries, key, k);
  }
}
