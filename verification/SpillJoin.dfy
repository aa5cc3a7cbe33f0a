// The build side of a hash join, in memory or spilled by partition (spill-join.ts).
module SpillJoin {
  import opened SpillRuns

  datatype Entry<T> = Entry(key: string, value: T)

  function KeyOf<T>(e: Entry<T>): string {
    e.key
  }

  function Values<T>(entries: seq<Entry<T>>): seq<T> {
    seq(|entries|, i requires 0 <= i < |entries| => entries[i].value)
  }

  // What was pushed under a key, in push order.
  function Pushed<T>(pushed: seq<Entry<T>>, k: string): seq<T> {
    Values(OfKey(pushed, KeyOf, k))
  }

  function Bucket<T>(memory: map<string, seq<T>>, k: string): seq<T> {
    if k in memory then memory[k] else []
  }

  lemma PushOne<T>(pushed: seq<Entry<T>>, e: Entry<T>, k: string)
    ensures Pushed(pushed + [e], k) == Pushed(pushed, k) + if e.key == k then [e.value] else []
  {
    assert (pushed + [e])[..|pushed|] == pushed;
  }

  lemma PushedIs<T>(entries: seq<Entry<T>>, k: string)
    ensures Pushed(entries, k) == Values(OfKey(entries, KeyOf, k))
  {
  }

  /** What a lookup is to give: the value of every push under the key, and of no other, in push order. */
  lemma PushedMeans<T>(pushed: seq<Entry<T>>, k: string) returns (at: seq<nat>)
    ensures |at| == |Pushed(pushed, k)|
    ensures forall i :: 0 <= i < |at| ==> at[i] < |pushed| && pushed[at[i]] == Entry(k, Pushed(pushed, k)[i])
    ensures forall i, j :: 0 <= i < j < |at| ==> at[i] < at[j]
    ensures forall n: nat :: n < |pushed| && pushed[n].key == k ==> n in at
  {
    at := OfKeyMeans(pushed, KeyOf, k);
    assert forall i :: 0 <= i < |at| ==> at[i] in at;
  }

  function Labelled<T>(key: string, values: seq<T>): seq<Entry<T>> {
    seq(|values|, i requires 0 <= i < |values| => Entry(key, values[i]))
  }

  lemma NoEntries<T>(k: string)
    ensures Values(OfKey<Entry<T>>([], KeyOf, k)) == []
  {
  }

  lemma {:induction false} LabelledOfKey<T>(key: string, values: seq<T>, k: string)
    ensures OfKey(Labelled(key, values), KeyOf, k) == if key == k then Labelled(key, values) else []
  {
    if values != [] {
      var init := values[..|values| - 1];
      assert Labelled(key, values)[..|values| - 1] == Labelled(key, init);
      LabelledOfKey(key, init, k);
      assert Labelled(key, init) + [Entry(key, values[|values| - 1])] == Labelled(key, values);
    }
  }

  lemma BucketMoved<T>(entries: seq<Entry<T>>, key: string, values: seq<T>, k: string)
    ensures Values(OfKey(entries + Labelled(key, values), KeyOf, k)) == Values(OfKey(entries, KeyOf, k)) + if k == key then values else []
  {
    hide OfKey;
    OfKeyAppend(entries, Labelled(key, values), KeyOf, k);
    LabelledOfKey(key, values, k);
    ValuesAppend(OfKey(entries, KeyOf, k), OfKey(Labelled(key, values), KeyOf, k));
    assert Values(Labelled(key, values)) == values;
  }

  lemma ValuesAppend<T>(a: seq<Entry<T>>, b: seq<Entry<T>>)
    ensures Values(a + b) == Values(a) + Values(b)
  {
  }

  /** A lookup gives what was pushed under the key, in push order, whether or not anything was spilled. */
  class SpillableHashIndex<T(!new)> {
    const limitBytes: nat
    const size: Entry<T> -> nat
    const hash: string -> nat
    var memory: map<string, seq<T>>
    var buffer: seq<Entry<T>>
    var runs: Runs<Entry<T>>
    var memoryBytes: nat
    var finished: bool
    var spilled: bool
    // The input.
    ghost var pushed: seq<Entry<T>>

    constructor (limitBytes: nat, size: Entry<T> -> nat, hash: string -> nat)
      requires limitBytes > 0
      ensures Valid() && pushed == [] && !finished
    {
      this.limitBytes, this.size, this.hash := limitBytes, size, hash;
      memory, buffer, runs, memoryBytes, finished, spilled, pushed := map[], [], map[], 0, false, false, [];
    }

    function Part(): Entry<T> -> nat
      reads this
    {
      var hash := hash;
      (e: Entry<T>) => hash(e.key)
    }

    ghost predicate Valid()
      reads this
    {
      && (!spilled ==> buffer == [] && runs == map[] && forall k :: Bucket(memory, k) == Pushed(pushed, k))
      && (spilled ==> forall k :: Values(OfKey(Stored(runs, hash(k)) + buffer, KeyOf, k)) == Pushed(pushed, k))
      && (spilled && finished ==> buffer == [])
    }

    method Push(key: string, value: T)
      requires Valid() && !finished
      modifies this
      ensures Valid() && !finished && pushed == old(pushed) + [Entry(key, value)]
    {
      hide OfKey, Stored;
      var bytes := size(Entry(key, value)) + 96;
      ghost var was := pushed;
      forall k ensures Pushed(was + [Entry(key, value)], k) == Pushed(was, k) + if key == k then [value] else [] {
        PushOne(was, Entry(key, value), k);
      }
      if !spilled && memoryBytes + bytes <= limitBytes {
        memory := memory[key := Bucket(memory, key) + [value]];
        memoryBytes := memoryBytes + bytes;
        pushed := pushed + [Entry(key, value)];
        return;
      }
      if !spilled {
        Spill();
      }
      AppendEntry(key, value);
      memoryBytes := memoryBytes + bytes;
      if memoryBytes >= limitBytes {
        FlushBuffer();
      }
    }

    // The entries of all buckets, one bucket after another.
    static method Drain(memory: map<string, seq<T>>) returns (entries: seq<Entry<T>>)
      ensures forall k :: Values(OfKey(entries, KeyOf, k)) == Bucket(memory, k)
    {
      hide OfKey, Values, Labelled;
      var rest := memory;
      entries := [];
      forall k ensures Values(OfKey(entries, KeyOf, k)) == [] {
        NoEntries<T>(k);
      }
      while rest.Keys != {}
        invariant rest.Keys <= memory.Keys && forall k :: k in rest ==> rest[k] == memory[k]
        invariant forall k :: Values(OfKey(entries, KeyOf, k)) == if k in rest then [] else Bucket(memory, k)
        decreases |rest.Keys|
      {
        var key :| key in rest;
        forall k ensures Values(OfKey(entries + Labelled(key, rest[key]), KeyOf, k)) == Values(OfKey(entries, KeyOf, k)) + if k == key then rest[key] else [] {
          BucketMoved(entries, key, rest[key], k);
        }
        entries := entries + Labelled(key, rest[key]);
        assert |rest.Keys - {key}| < |rest.Keys|;
        rest := rest - {key};
      }
    }

    method Spill()
      requires Valid() && !spilled && !finished
      modifies this`memory, this`buffer, this`memoryBytes, this`spilled
      ensures Valid() && spilled
    {
      hide OfKey, Pushed, Values;
      spilled := true;
      var entries := Drain(memory);
      buffer := entries;
      forall k ensures Values(OfKey(Stored(runs, hash(k)) + buffer, KeyOf, k)) == Pushed(pushed, k) {
        assert Stored(runs, hash(k)) + buffer == buffer;
      }
      memory, memoryBytes := map[], 0;
    }

    method FlushBuffer()
      requires Valid() && spilled
      modifies this`buffer, this`runs, this`memoryBytes
      ensures Valid() && buffer == []
    {
      hide OfKey, Stored, Pushed, Values;
      ghost var was, entries := runs, buffer;
      var flushed := Flush(runs, buffer, Part());
      forall k ensures OfKey(Stored(flushed, hash(k)), KeyOf, k) == OfKey(Stored(was, hash(k)) + entries, KeyOf, k) {
        FlushedKey(was, flushed, entries, KeyOf, hash, Part(), k);
      }
      runs, buffer, memoryBytes := flushed, [], 0;
      forall k ensures Values(OfKey(Stored(runs, hash(k)) + buffer, KeyOf, k)) == Pushed(pushed, k) {
        assert Stored(runs, hash(k)) + buffer == Stored(runs, hash(k));
      }
    }

    method AppendEntry(key: string, value: T)
      requires Valid() && spilled && !finished
      modifies this`buffer, this`pushed
      ensures Valid() && pushed == old(pushed) + [Entry(key, value)]
    {
      hide OfKey, Stored, Pushed, Values;
      ghost var was := buffer;
      buffer := buffer + [Entry(key, value)];
      pushed := pushed + [Entry(key, value)];
      forall k ensures Values(OfKey(Stored(runs, hash(k)) + buffer, KeyOf, k)) == Pushed(pushed, k) {
        assert Stored(runs, hash(k)) + buffer == Stored(runs, hash(k)) + was + [Entry(key, value)];
        PushOne(old(pushed), Entry(key, value), k);
        PushOne(Stored(runs, hash(k)) + was, Entry(key, value), k);
        PushedIs(Stored(runs, hash(k)) + was, k);
        PushedIs(Stored(runs, hash(k)) + was + [Entry(key, value)], k);
      }
    }

    method Finish()
      requires Valid()
      modifies this
      ensures Valid() && finished && pushed == old(pushed)
    {
      if finished {
        return;
      }
      if spilled && |buffer| > 0 {
        FlushBuffer();
      }
      finished := true;
    }

    method Lookup(key: string) returns (values: seq<T>)
      requires Valid() && finished
      ensures values == Pushed(pushed, key)
    {
      if !spilled {
        return Bucket(memory, key);
      }
      var entries := Stored(runs, hash(key));
      values := [];
      for i := 0 to |entries|
        invariant values == Values(OfKey(entries[..i], KeyOf, key))
      {
        assert entries[..i + 1][..i] == entries[..i];
        if entries[i].key == key {
          values := values + [entries[i].value];
        }
      }
      assert entries[..|entries|] == entries && entries + buffer == entries;
    }
  }
}
