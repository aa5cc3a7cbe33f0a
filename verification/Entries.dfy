// Sorted lists of key-value entries: what a B+ tree holds, without its pages.
module Entries {
  import Lex

  // A byte string; the order of byte strings is all that a tree needs of it.
  type Bytes = seq<int>

  datatype Option<+T> = None | Some(value: T)

  datatype Entry = Entry(key: Bytes, value: Bytes)

  predicate Less(a: Bytes, b: Bytes) {
    Lex.Less(a, b)
  }

  lemma OrderFacts()
    ensures forall a: Bytes :: !Less(a, a)
    ensures forall a: Bytes, b: Bytes :: Less(a, b) || a == b || Less(b, a)
    ensures forall a: Bytes, b: Bytes :: !(Less(a, b) && Less(b, a))
    ensures forall a: Bytes, b: Bytes, c: Bytes :: Less(a, b) && Less(b, c) ==> Less(a, c)
  {
    Lex.StrictTotalOrder();
  }

  lemma OrderAt(a: Bytes, b: Bytes)
    ensures !(Less(a, b) && Less(b, a))
    ensures Less(a, b) || a == b || Less(b, a)
    ensures a == b ==> !Less(a, b)
  {
    Lex.StrictTotalOrder();
  }

  lemma Transitive(a: Bytes, b: Bytes, c: Bytes)
    requires Less(a, b) && Less(b, c)
    ensures Less(a, c)
  {
    Lex.StrictTotalOrder();
  }

  ghost predicate Sorted(s: seq<Entry>) {
    forall i, j :: 0 <= i < j < |s| ==> Less(s[i].key, s[j].key)
  }

  // Every key is below k.
  ghost predicate AllBelow(s: seq<Entry>, k: Bytes) {
    forall i :: 0 <= i < |s| ==> Less(s[i].key, k)
  }

  // Every key is k or above.
  ghost predicate AllFrom(k: Bytes, s: seq<Entry>) {
    forall i :: 0 <= i < |s| ==> !Less(s[i].key, k)
  }

  ghost predicate AllAbove(k: Bytes, s: seq<Entry>) {
    forall i :: 0 <= i < |s| ==> Less(k, s[i].key)
  }

  function Put(s: seq<Entry>, k: Bytes, v: Bytes): seq<Entry> {
    if s == [] || Less(k, s[0].key) then [Entry(k, v)] + s
    else if s[0].key == k then [Entry(k, v)] + s[1..]
    else [s[0]] + Put(s[1..], k, v)
  }

  function Del(s: seq<Entry>, k: Bytes): seq<Entry> {
    if s == [] then []
    else if s[0].key == k then s[1..]
    else [s[0]] + Del(s[1..], k)
  }

  function Find(s: seq<Entry>, k: Bytes): Option<Bytes> {
    if s == [] then None
    else if s[0].key == k then Some(s[0].value)
    else Find(s[1..], k)
  }

  // ---------- locality: only the part around the key matters ----------

  lemma {:induction false} PutAfter(a: seq<Entry>, s: seq<Entry>, k: Bytes, v: Bytes)
    requires AllBelow(a, k)
    ensures Put(a + s, k, v) == a + Put(s, k, v)
    ensures Del(a + s, k) == a + Del(s, k)
    ensures Find(a + s, k) == Find(s, k)
  {
    hide Less;
    if a == [] {
      assert a + s == s;
    } else {
      assert Less(a[0].key, k);
      OrderAt(a[0].key, k);
      PutAfter(a[1..], s, k, v);
      PutAfterOne(a[0], a[1..] + s, k, v);
      assert a == [a[0]] + a[1..];
      Associative([a[0]], a[1..], s);
      Associative([a[0]], a[1..], Put(s, k, v));
      Associative([a[0]], a[1..], Del(s, k));
    }
  }

  lemma PutAfterOne(e: Entry, s: seq<Entry>, k: Bytes, v: Bytes)
    requires e.key != k && !Less(k, e.key)
    ensures Put([e] + s, k, v) == [e] + Put(s, k, v)
    ensures Del([e] + s, k) == [e] + Del(s, k)
    ensures Find([e] + s, k) == Find(s, k)
  {
    assert ([e] + s)[1..] == s;
  }

  lemma PutSplit(e: Entry, s: seq<Entry>, k: Bytes, v: Bytes)
    ensures Put([e] + s, k, v) == if Less(k, e.key) then [Entry(k, v)] + ([e] + s) else if e.key == k then [Entry(k, v)] + s else [e] + Put(s, k, v)
  {
    hide Less;
    assert ([e] + s)[1..] == s;
  }

  lemma DelSplit(e: Entry, s: seq<Entry>, k: Bytes)
    ensures Del([e] + s, k) == if e.key == k then s else [e] + Del(s, k)
    ensures Find([e] + s, k) == if e.key == k then Some(e.value) else Find(s, k)
  {
    assert ([e] + s)[1..] == s;
  }

  lemma {:induction false} PutBefore(s: seq<Entry>, b: seq<Entry>, k: Bytes, v: Bytes)
    requires AllAbove(k, b)
    ensures Put(s + b, k, v) == Put(s, k, v) + b
    ensures Del(s + b, k) == Del(s, k) + b
    ensures Find(s + b, k) == Find(s, k)
  {
    hide Less, Put, Del, Find;
    if s == [] {
      assert s + b == b;
      PutNothing(b, k, v);
      DelAbove(b, k);
    } else {
      var e, t := s[0], s[1..];
      PutBefore(t, b, k, v);
      assert s == [e] + t && s + b == [e] + (t + b);
      PutSplit(e, t, k, v);
      DelSplit(e, t, k);
      PutSplit(e, t + b, k, v);
      DelSplit(e, t + b, k);
      var put := [Entry(k, v)];
      Associative([e], t, b);
      Associative(put, [e] + t, b);
      Associative(put, t, b);
      Associative([e], Put(t, k, v), b);
      Associative([e], Del(t, k), b);
    }
  }

  lemma PutNothing(b: seq<Entry>, k: Bytes, v: Bytes)
    requires AllAbove(k, b)
    ensures Put([], k, v) == [Entry(k, v)] && Put(b, k, v) == [Entry(k, v)] + b && Del([], k) == [] && Find([], k) == None
  {
    hide Less;
  }

  lemma {:induction false} DelAbove(b: seq<Entry>, k: Bytes)
    requires AllAbove(k, b)
    ensures Del(b, k) == b && Find(b, k) == None
  {
    hide Less;
    if b != [] {
      assert Less(k, b[0].key);
      OrderAt(k, b[0].key);
      DelAbove(b[1..], k);
    }
  }

  /** Changes stay inside the part that the separators assign the key to. */
  lemma PutInside(a: seq<Entry>, s: seq<Entry>, b: seq<Entry>, k: Bytes, v: Bytes)
    requires AllBelow(a, k) && AllAbove(k, b)
    ensures Put(a + s + b, k, v) == a + Put(s, k, v) + b
    ensures Del(a + s + b, k) == a + Del(s, k) + b
    ensures Find(a + s + b, k) == Find(s, k)
  {
    PutBefore(a + s, b, k, v);
    PutAfter(a, s, k, v);
  }

  /** The list operations in terms of a lower-bound position. */
  lemma PutAtPosition(s: seq<Entry>, k: Bytes, v: Bytes, p: nat)
    requires Sorted(s) && p <= |s| && AllBelow(s[..p], k) && AllFrom(k, s[p..])
    ensures var hit := p < |s| && s[p].key == k;
      && Put(s, k, v) == (if hit then s[p := Entry(k, v)] else s[..p] + [Entry(k, v)] + s[p..])
      && Del(s, k) == (if hit then s[..p] + s[p + 1..] else s)
      && Find(s, k) == (if hit then Some(s[p].value) else None)
  {
    hide Less, AllBelow, AllFrom, Put, Del, Find, Sorted;
    assert s == s[..p] + s[p..];
    PutAfter(s[..p], s[p..], k, v);
    SortedSlice(s, p);
    PutAtHead(s[p..], k, v);
    if p < |s| {
      SliceAt(s, p, Entry(k, v));
    }
    Associative(s[..p], [Entry(k, v)], s[p..]);
  }

  lemma SliceAt(s: seq<Entry>, p: nat, e: Entry)
    requires p < |s|
    ensures s[p..][0] == s[p] && s[p..][1..] == s[p + 1..]
    ensures s[..p] + ([e] + s[p + 1..]) == s[p := e]
  {
  }

  lemma SortedSlice(s: seq<Entry>, p: nat)
    requires Sorted(s) && p <= |s|
    ensures Sorted(s[p..]) && Sorted(s[..p])
  {
  }

  lemma PutAtHead(s: seq<Entry>, k: Bytes, v: Bytes)
    requires Sorted(s) && AllFrom(k, s)
    ensures var hit := s != [] && s[0].key == k;
      && Put(s, k, v) == (if hit then [Entry(k, v)] + s[1..] else [Entry(k, v)] + s)
      && Del(s, k) == (if hit then s[1..] else s)
      && Find(s, k) == (if hit then Some(s[0].value) else None)
  {
    hide Less;
    if s != [] {
      OrderAt(s[0].key, k);
      if s[0].key != k {
        forall i | 0 <= i < |s| ensures Less(k, s[i].key) {
          if i > 0 {
            Transitive(k, s[0].key, s[i].key);
          }
        }
        DelAbove(s, k);
      }
    }
  }

  // ---------- the operations keep lists sorted and change one mapping ----------

  lemma {:induction false} PutBounds(s: seq<Entry>, k: Bytes, v: Bytes, bound: Bytes)
    ensures AllBelow(s, bound) && Less(k, bound) ==> AllBelow(Put(s, k, v), bound)
    ensures AllFrom(bound, s) && !Less(k, bound) ==> AllFrom(bound, Put(s, k, v))
    ensures AllBelow(s, bound) ==> AllBelow(Del(s, k), bound)
    ensures AllFrom(bound, s) ==> AllFrom(bound, Del(s, k))
  {
    hide Less;
    if s != [] {
      PutBounds(s[1..], k, v, bound);
    }
  }

  // A key below the first one is in no entry.
  lemma PutAtHeadSorted(s: seq<Entry>, k: Bytes)
    requires Sorted(s) && s != [] && Less(k, s[0].key)
    ensures AllAbove(k, s) && Del(s, k) == s
  {
    hide Less;
    forall i | 0 <= i < |s| ensures Less(k, s[i].key) {
      if i > 0 {
        Transitive(k, s[0].key, s[i].key);
      }
    }
    DelAbove(s, k);
  }

  lemma {:induction false} PutSorted(s: seq<Entry>, k: Bytes, v: Bytes)
    requires Sorted(s)
    ensures Sorted(Put(s, k, v)) && Sorted(Del(s, k))
  {
    hide Less;
    if s != [] {
      PutSorted(s[1..], k, v);
      OrderAt(s[0].key, k);
      if Less(k, s[0].key) {
        PutAtHeadSorted(s, k);
      } else {
        assert AllAbove(s[0].key, s[1..]);
        PutAboveFirst(s[1..], k, v, s[0].key);
      }
    }
  }

  lemma {:induction false} PutAboveFirst(s: seq<Entry>, k: Bytes, v: Bytes, bound: Bytes)
    requires AllAbove(bound, s)
    ensures Less(bound, k) ==> AllAbove(bound, Put(s, k, v))
    ensures AllAbove(bound, Del(s, k))
  {
    hide Less;
    if s != [] {
      PutAboveFirst(s[1..], k, v, bound);
    }
  }

  function ToMap(s: seq<Entry>): map<Bytes, Bytes> {
    if s == [] then map[] else ToMap(s[1..])[s[0].key := s[0].value]
  }

  lemma {:induction false} ToMapKeys(s: seq<Entry>, k: Bytes)
    ensures k in ToMap(s) <==> exists i :: 0 <= i < |s| && s[i].key == k
    ensures Find(s, k) == if k in ToMap(s) then Some(ToMap(s)[k]) else None
  {
    hide Less;
    if s != [] {
      ToMapKeys(s[1..], k);
      if i :| 0 <= i < |s| && s[i].key == k {
        assert i == 0 || s[1..][i - 1].key == k;
      }
      if i :| 0 <= i < |s[1..]| && s[1..][i].key == k {
        assert s[i + 1].key == k;
      }
    }
  }

  /** On sorted lists Put and Del are the map operations (Find is lookup, by ToMapKeys). */
  lemma {:induction false} MapPut(s: seq<Entry>, k: Bytes, v: Bytes)
    ensures ToMap(Put(s, k, v)) == ToMap(s)[k := v]
  {
    hide Less;
    if s != [] && !Less(k, s[0].key) && s[0].key != k {
      MapPut(s[1..], k, v);
      assert ([s[0]] + Put(s[1..], k, v))[1..] == Put(s[1..], k, v);
    } else {
      assert ([Entry(k, v)] + s)[1..] == s;
      assert s != [] ==> ([Entry(k, v)] + s[1..])[1..] == s[1..];
    }
  }

  lemma {:induction false} MapDel(s: seq<Entry>, k: Bytes)
    requires Sorted(s)
    ensures ToMap(Del(s, k)) == ToMap(s) - {k}
  {
    hide Less;
    if s != [] {
      if s[0].key == k {
        assert k !in ToMap(s[1..]) by {
          ToMapKeys(s[1..], k);
          forall i | 0 <= i < |s[1..]| ensures s[1..][i].key != k {
            OrderAt(s[0].key, s[i + 1].key);
          }
        }
        assert ToMap(s) - {k} == ToMap(s[1..]);
      } else {
        MapDel(s[1..], k);
        assert ([s[0]] + Del(s[1..], k))[1..] == Del(s[1..], k);
        assert (ToMap(s[1..]) - {k})[s[0].key := s[0].value] == ToMap(s) - {k};
      }
    }
  }

  // ---------- parts and the separators between them ----------

  function Concat(parts: seq<seq<Entry>>): seq<Entry> {
    if parts == [] then [] else parts[0] + Concat(parts[1..])
  }

  lemma {:induction false} ConcatAppend(a: seq<seq<Entry>>, b: seq<seq<Entry>>)
    ensures Concat(a + b) == Concat(a) + Concat(b)
  {
    if a == [] {
      assert a + b == b;
    } else {
      assert (a + b)[1..] == a[1..] + b;
      ConcatAppend(a[1..], b);
    }
  }

  lemma ConcatAround(parts: seq<seq<Entry>>, p: nat)
    requires p < |parts|
    ensures Concat(parts) == Concat(parts[..p]) + parts[p] + Concat(parts[p + 1..])
  {
    var rest := parts[p..];
    assert parts == parts[..p] + rest && rest[0] == parts[p] && rest[1..] == parts[p + 1..];
    ConcatAppend(parts[..p], rest);
    Associative(Concat(parts[..p]), parts[p], Concat(parts[p + 1..]));
  }

  lemma Associative(a: seq<Entry>, b: seq<Entry>, c: seq<Entry>)
    ensures a + (b + c) == a + b + c
  {
  }

  // keys[i] separates parts 0..i from parts i + 1 and later.
  ghost predicate Cuts(keys: seq<Bytes>, parts: seq<seq<Entry>>) {
    && |parts| == |keys| + 1
    && (forall i, j :: 0 <= i < j < |keys| ==> Less(keys[i], keys[j]))
    && (forall i, j :: 0 <= j <= i < |keys| ==> AllBelow(parts[j], keys[i]))
    && (forall i, j :: 0 <= i < |keys| && i < j < |parts| ==> AllFrom(keys[i], parts[j]))
  }

  lemma {:induction false} ConcatBounds(parts: seq<seq<Entry>>, k: Bytes)
    ensures (forall j :: 0 <= j < |parts| ==> AllBelow(parts[j], k)) ==> AllBelow(Concat(parts), k)
    ensures (forall j :: 0 <= j < |parts| ==> AllFrom(k, parts[j])) ==> AllFrom(k, Concat(parts))
    ensures (forall j :: 0 <= j < |parts| ==> AllAbove(k, parts[j])) ==> AllAbove(k, Concat(parts))
  {
    hide Less;
    if parts != [] {
      ConcatBounds(parts[1..], k);
      if forall j :: 0 <= j < |parts| ==> AllBelow(parts[j], k) {
        assert forall j :: 0 <= j < |parts[1..]| ==> parts[1..][j] == parts[j + 1];
        assert AllBelow(parts[0], k);
      }
      if forall j :: 0 <= j < |parts| ==> AllFrom(k, parts[j]) {
        assert forall j :: 0 <= j < |parts[1..]| ==> parts[1..][j] == parts[j + 1];
        assert AllFrom(k, parts[0]);
      }
      if forall j :: 0 <= j < |parts| ==> AllAbove(k, parts[j]) {
        assert forall j :: 0 <= j < |parts[1..]| ==> parts[1..][j] == parts[j + 1];
        assert AllAbove(k, parts[0]);
      }
    }
  }

  // Where a binary search for the child of k ends.
  ghost predicate ChildAt(keys: seq<Bytes>, k: Bytes, p: nat) {
    && p <= |keys|
    && (forall i :: 0 <= i < p ==> !Less(k, keys[i]))
    && (forall i :: p <= i < |keys| ==> Less(k, keys[i]))
  }

  lemma CutsAround(keys: seq<Bytes>, parts: seq<seq<Entry>>, k: Bytes, p: nat)
    requires Cuts(keys, parts) && ChildAt(keys, k, p)
    ensures AllBelow(Concat(parts[..p]), k) && AllAbove(k, Concat(parts[p + 1..]))
  {
    hide Less;
    OrderFacts();
    var before := parts[..p];
    forall j | 0 <= j < |before| ensures AllBelow(before[j], k) {
      assert AllBelow(parts[j], keys[j]);
    }
    var after := parts[p + 1..];
    forall j | 0 <= j < |after| ensures AllAbove(k, after[j]) {
      assert AllFrom(keys[p], parts[p + 1 + j]);
    }
    ConcatBounds(parts[..p], k);
    ConcatBounds(parts[p + 1..], k);
  }

  // A list within the bounds of part p.
  ghost predicate Within(keys: seq<Bytes>, p: nat, s: seq<Entry>) {
    && (forall i :: 0 <= i < |keys| && i < p ==> AllFrom(keys[i], s))
    && (forall i :: p <= i < |keys| ==> AllBelow(s, keys[i]))
  }

  lemma CutsUpdate(keys: seq<Bytes>, parts: seq<seq<Entry>>, p: nat, s: seq<Entry>)
    requires Cuts(keys, parts) && p < |parts| && Within(keys, p, s)
    ensures Cuts(keys, parts[p := s])
  {
  }

  lemma CutsSplit(keys: seq<Bytes>, parts: seq<seq<Entry>>, p: nat, l: seq<Entry>, sep: Bytes, r: seq<Entry>)
    requires Cuts(keys, parts) && p < |parts|
    requires Within(keys, p, l) && Within(keys, p, r) && l != [] && r != []
    requires AllBelow(l, sep) && AllFrom(sep, r)
    ensures Cuts(keys[..p] + [sep] + keys[p..], parts[..p] + [l, r] + parts[p + 1..])
  {
    hide Less, AllBelow, AllFrom;
    forall i | 0 <= i < |keys| ensures if i < p then Less(keys[i], sep) else Less(sep, keys[i]) {
      SeparatorBetween(l, sep, r, keys[i]);
    }
    forall j | 0 <= j < |parts| ensures (j < p ==> AllBelow(parts[j], sep)) && (p < j ==> AllFrom(sep, parts[j])) {
      PartsAroundSeparator(keys, parts, p, sep, j);
    }
    SpliceCuts(keys, parts, p, l, sep, r, keys[..p] + [sep] + keys[p..], parts[..p] + [l, r] + parts[p + 1..]);
  }

  lemma SpliceCuts(keys: seq<Bytes>, parts: seq<seq<Entry>>, p: nat, l: seq<Entry>, sep: Bytes, r: seq<Entry>,
      keys': seq<Bytes>, parts': seq<seq<Entry>>)
    requires Cuts(keys, parts) && p < |parts|
    requires Within(keys, p, l) && Within(keys, p, r)
    requires AllBelow(l, sep) && AllFrom(sep, r)
    requires forall i :: 0 <= i < |keys| ==> if i < p then Less(keys[i], sep) else Less(sep, keys[i])
    requires forall j :: 0 <= j < |parts| ==> (j < p ==> AllBelow(parts[j], sep)) && (p < j ==> AllFrom(sep, parts[j]))
    requires |keys'| == |keys| + 1 && |parts'| == |parts| + 1
    requires forall i :: 0 <= i < p ==> keys'[i] == keys[i]
    requires keys'[p] == sep && forall i :: p < i < |keys'| ==> keys'[i] == keys[i - 1]
    requires forall j :: 0 <= j < p ==> parts'[j] == parts[j]
    requires parts'[p] == l && parts'[p + 1] == r && forall j :: p + 1 < j < |parts'| ==> parts'[j] == parts[j - 1]
    ensures Cuts(keys', parts')
  {
    hide Less, AllBelow, AllFrom;
    forall i, j | 0 <= i < j < |keys'| ensures Less(keys'[i], keys'[j]) {
      var a, b := if i < p then i else i - 1, if j < p then j else j - 1;
      assert i != p ==> keys'[i] == keys[a];
      assert j != p ==> keys'[j] == keys[b];
    }
    forall i, j | 0 <= j <= i < |keys'| ensures AllBelow(parts'[j], keys'[i]) {
      var a, b := if i < p then i else i - 1, if j < p then j else j - 1;
      assert i != p ==> keys'[i] == keys[a];
      assert j < p || j > p + 1 ==> parts'[j] == parts[b];
    }
    forall i, j | 0 <= i < |keys'| && i < j < |parts'| ensures AllFrom(keys'[i], parts'[j]) {
      var a, b := if i < p then i else i - 1, if j < p then j else j - 1;
      assert i != p ==> keys'[i] == keys[a];
      assert j < p || j > p + 1 ==> parts'[j] == parts[b];
    }
  }

  lemma SeparatorBetween(l: seq<Entry>, sep: Bytes, r: seq<Entry>, k: Bytes)
    requires l != [] && r != [] && AllBelow(l, sep) && AllFrom(sep, r)
    ensures AllFrom(k, l) ==> Less(k, sep)
    ensures AllBelow(r, k) ==> Less(sep, k)
  {
    hide Less;
    OrderFacts();
    assert Less(l[0].key, sep) && !Less(r[0].key, sep);
  }

  lemma PartsAroundSeparator(keys: seq<Bytes>, parts: seq<seq<Entry>>, p: nat, sep: Bytes, j: nat)
    requires Cuts(keys, parts) && p < |parts| && j < |parts|
    requires forall i :: 0 <= i < |keys| ==> if i < p then Less(keys[i], sep) else Less(sep, keys[i])
    ensures j < p ==> AllBelow(parts[j], sep)
    ensures p < j ==> AllFrom(sep, parts[j])
  {
    hide Less;
    OrderFacts();
    if j < p {
      assert AllBelow(parts[j], keys[j]);
    }
    if p < j {
      assert AllFrom(keys[p], parts[j]);
    }
  }

  lemma CutsMerge(keys: seq<Bytes>, parts: seq<seq<Entry>>, p: nat)
    requires Cuts(keys, parts) && p < |keys|
    ensures Cuts(keys[..p] + keys[p + 1..], parts[..p] + [parts[p] + parts[p + 1]] + parts[p + 2..])
  {
    hide Less;
    var keys', parts' := keys[..p] + keys[p + 1..], parts[..p] + [parts[p] + parts[p + 1]] + parts[p + 2..];
    forall i | 0 <= i < |keys'| ensures keys'[i] == keys[if i < p then i else i + 1] {
    }
    forall j | 0 <= j < |parts'|
      ensures parts'[j] == if j < p then parts[j] else if j == p then parts[p] + parts[p + 1] else parts[j + 1]
    {
    }
  }

  lemma CutsHalves(keys: seq<Bytes>, parts: seq<seq<Entry>>, mid: nat)
    requires Cuts(keys, parts) && mid < |keys|
    ensures Cuts(keys[..mid], parts[..mid + 1]) && Cuts(keys[mid + 1..], parts[mid + 1..])
    ensures AllBelow(Concat(parts[..mid + 1]), keys[mid]) && AllFrom(keys[mid], Concat(parts[mid + 1..]))
    ensures Concat(parts) == Concat(parts[..mid + 1]) + Concat(parts[mid + 1..])
  {
    hide Cuts, AllBelow, AllFrom;
    CutsLow(keys, parts, mid);
    CutsHigh(keys, parts, mid);
    assert parts == parts[..mid + 1] + parts[mid + 1..];
    ConcatAppend(parts[..mid + 1], parts[mid + 1..]);
  }

  lemma CutsLow(keys: seq<Bytes>, parts: seq<seq<Entry>>, mid: nat)
    requires Cuts(keys, parts) && mid < |keys|
    ensures mid + 1 < |parts| && Cuts(keys[..mid], parts[..mid + 1]) && AllBelow(Concat(parts[..mid + 1]), keys[mid])
  {
    hide Less, AllBelow, AllFrom;
    ConcatBounds(parts[..mid + 1], keys[mid]);
  }

  lemma CutsHigh(keys: seq<Bytes>, parts: seq<seq<Entry>>, mid: nat)
    requires Cuts(keys, parts) && mid < |keys|
    ensures mid + 1 < |parts| && Cuts(keys[mid + 1..], parts[mid + 1..]) && AllFrom(keys[mid], Concat(parts[mid + 1..]))
  {
    hide Less, AllBelow, AllFrom;
    ConcatBounds(parts[mid + 1..], keys[mid]);
  }

  lemma CutsJoin(lk: seq<Bytes>, lp: seq<seq<Entry>>, k: Bytes, rk: seq<Bytes>, rp: seq<seq<Entry>>)
    requires Cuts(lk, lp) && Cuts(rk, rp)
    requires forall j :: 0 <= j < |lp| ==> lp[j] != []
    requires forall j :: 0 <= j < |rp| ==> rp[j] != []
    requires forall j :: 0 <= j < |lp| ==> AllBelow(lp[j], k)
    requires forall j :: 0 <= j < |rp| ==> AllFrom(k, rp[j])
    ensures Cuts(lk + [k] + rk, lp + rp)
  {
    hide Less, AllBelow, AllFrom;
    OrderFacts();
    forall i | 0 <= i < |lk| ensures Less(lk[i], k) && forall j :: 0 <= j < |rp| ==> AllFrom(lk[i], rp[j]) {
      SeparatorBetween(lp[i + 1], k, rp[0], lk[i]);
      forall j | 0 <= j < |rp| ensures AllFrom(lk[i], rp[j]) {
        FromLower(lk[i], k, rp[j]);
      }
    }
    forall i | 0 <= i < |rk| ensures Less(k, rk[i]) && forall j :: 0 <= j < |lp| ==> AllBelow(lp[j], rk[i]) {
      SeparatorBetween(lp[0], k, rp[0], rk[i]);
      forall j | 0 <= j < |lp| ensures AllBelow(lp[j], rk[i]) {
        BelowUpper(lp[j], k, rk[i]);
      }
    }
    var keys', parts' := lk + [k] + rk, lp + rp;
    forall i | 0 <= i < |keys'|
      ensures keys'[i] == if i < |lk| then lk[i] else if i == |lk| then k else rk[i - |lk| - 1]
    {
    }
    forall j | 0 <= j < |parts'| ensures parts'[j] == if j < |lp| then lp[j] else rp[j - |lp|] {
    }
  }

  lemma FromLower(a: Bytes, b: Bytes, s: seq<Entry>)
    requires Less(a, b) && AllFrom(b, s)
    ensures AllFrom(a, s)
  {
    hide Less;
    OrderFacts();
  }

  lemma BelowUpper(s: seq<Entry>, a: Bytes, b: Bytes)
    requires AllBelow(s, a) && Less(a, b)
    ensures AllBelow(s, b)
  {
    hide Less;
    OrderFacts();
  }

  // A separator may move up to the first key of the part after it.
  lemma CutsRekey(keys: seq<Bytes>, parts: seq<seq<Entry>>, p: nat, k: Bytes)
    requires Cuts(keys, parts) && p < |keys|
    requires parts[p + 1] != [] && parts[p + 1][0].key == k && Sorted(parts[p + 1])
    ensures Cuts(keys[p := k], parts)
  {
    hide Less;
    OrderFacts();
    var s := parts[p + 1];
    assert forall i :: 0 <= i < |keys| ==> if i <= p then !Less(k, keys[i]) else Less(k, keys[i]) by {
      forall i | 0 <= i < |keys| ensures if i <= p then !Less(k, keys[i]) else Less(k, keys[i]) {
        assert i <= p ==> AllFrom(keys[i], s);
        assert i > p ==> AllBelow(s, keys[i]);
      }
    }
    forall j | 0 <= j <= p ensures AllBelow(parts[j], k) {
      assert AllBelow(parts[j], keys[p]);
    }
    forall j | p < j < |parts| ensures AllFrom(k, parts[j]) {
      if j > p + 1 {
        assert AllFrom(keys[p + 1], parts[j]);
      }
    }
    var keys' := keys[p := k];
    forall i, j | 0 <= i < j < |keys'| ensures Less(keys'[i], keys'[j]) {
      if j == p {
        assert !Less(k, keys[p]);
      }
    }
  }

  lemma {:induction false} ConcatPart(parts: seq<seq<Entry>>, p: nat, k: Bytes)
    requires p < |parts|
    ensures AllBelow(Concat(parts), k) ==> AllBelow(parts[p], k)
    ensures AllFrom(k, Concat(parts)) ==> AllFrom(k, parts[p])
  {
    hide Less, Concat;
    ConcatAround(parts, p);
    var a, s, b := Concat(parts[..p]), parts[p], Concat(parts[p + 1..]);
    var all := a + s + b;
    assert forall i :: 0 <= i < |s| ==> s[i] == all[|a| + i];
  }

  lemma PartWithin(keys: seq<Bytes>, parts: seq<seq<Entry>>, p: nat)
    requires Cuts(keys, parts) && p < |parts|
    ensures Within(keys, p, parts[p])
  {
  }

  // Two neighbours may divide their entries anew.
  lemma CutsShift(keys: seq<Bytes>, parts: seq<seq<Entry>>, p: nat, l: seq<Entry>, sep: Bytes, r: seq<Entry>)
    requires Cuts(keys, parts) && p < |keys| && l + r == parts[p] + parts[p + 1]
    requires l != [] && r != [] && AllBelow(l, sep) && AllFrom(sep, r)
    ensures Cuts(keys[p := sep], parts[p := l][p + 1 := r])
    ensures Concat(parts[p := l][p + 1 := r]) == Concat(parts)
  {
    hide Less, AllBelow, AllFrom, Concat, Within;
    CutsMerge(keys, parts, p);
    var keys', parts' := keys[..p] + keys[p + 1..], parts[..p] + [parts[p] + parts[p + 1]] + parts[p + 2..];
    PartWithin(keys', parts', p);
    WithinHalves(keys', p, l, r);
    CutsSplit(keys', parts', p, l, sep, r);
    assert keys'[..p] + [sep] + keys'[p..] == keys[p := sep];
    assert parts'[..p] + [l, r] + parts'[p + 1..] == parts[p := l][p + 1 := r];
    ConcatUpdate(parts', p, l, r);
    ConcatMerge(parts, p);
    ConcatAround(parts', p);
  }

  lemma ConcatMerge(parts: seq<seq<Entry>>, p: nat)
    requires p + 1 < |parts|
    ensures Concat(parts[..p] + [parts[p] + parts[p + 1]] + parts[p + 2..]) == Concat(parts)
  {
    hide Concat;
    var parts' := parts[..p] + [parts[p] + parts[p + 1]] + parts[p + 2..];
    assert parts == parts'[..p] + [parts[p], parts[p + 1]] + parts'[p + 1..];
    ConcatUpdate(parts', p, parts[p], parts[p + 1]);
    ConcatAround(parts', p);
  }

  lemma WithinHalves(keys: seq<Bytes>, p: nat, l: seq<Entry>, r: seq<Entry>)
    requires Within(keys, p, l + r)
    ensures Within(keys, p, l) && Within(keys, p, r)
  {
    hide Less;
    var s := l + r;
    assert forall i :: 0 <= i < |l| ==> s[i] == l[i];
    assert forall i :: 0 <= i < |r| ==> s[|l| + i] == r[i];
  }

  lemma ConcatUpdate(parts: seq<seq<Entry>>, p: nat, l: seq<Entry>, r: seq<Entry>)
    requires p < |parts|
    ensures Concat(parts[p := l]) == Concat(parts[..p]) + l + Concat(parts[p + 1..])
    ensures Concat(parts[..p] + [l, r] + parts[p + 1..]) == Concat(parts[..p]) + (l + r) + Concat(parts[p + 1..])
  {
    ConcatAround(parts[p := l], p);
    assert parts[p := l][..p] == parts[..p] && parts[p := l][p + 1..] == parts[p + 1..];
    var two := parts[..p] + [l, r] + parts[p + 1..];
    ConcatAround(two, p);
    assert two[..p] == parts[..p] && two[p + 1..] == [r] + parts[p + 1..];
    assert ([r] + parts[p + 1..])[1..] == parts[p + 1..];
    Associative(Concat(parts[..p]) + l, r, Concat(parts[p + 1..]));
    Associative(Concat(parts[..p]), l, r);
  }

  // ---------- ranges and directions ----------

  datatype TreeRange = TreeRange(gt: Option<Bytes>, gte: Option<Bytes>, lt: Option<Bytes>, lte: Option<Bytes>) {
    predicate Contains(key: Bytes) {
      && (gt.Some? ==> Less(gt.value, key))
      && (gte.Some? ==> !Less(key, gte.value))
      && (lt.Some? ==> Less(key, lt.value))
      && (lte.Some? ==> !Less(lte.value, key))
    }
  }

  function InRange(s: seq<Entry>, range: TreeRange): seq<Entry> {
    if s == [] then []
    else InRange(s[..|s| - 1], range) + if range.Contains(s[|s| - 1].key) then [s[|s| - 1]] else []
  }

  function UpTo(s: seq<Entry>, limit: Option<nat>): seq<Entry> {
    if limit.Some? && limit.value < |s| then s[..limit.value] else s
  }

  function Reversed<T>(s: seq<T>): seq<T> {
    if s == [] then [] else Reversed(s[1..]) + [s[0]]
  }

  lemma {:induction false} ReversedAt<T>(s: seq<T>)
    ensures |Reversed(s)| == |s| && forall i :: 0 <= i < |s| ==> Reversed(s)[i] == s[|s| - 1 - i]
  {
    if s != [] {
      ReversedAt(s[1..]);
    }
  }

  // In key order or against it.
  function Directed<T>(s: seq<T>, reverse: bool): seq<T> {
    if reverse then Reversed(s) else s
  }

  lemma DirectedAt<T>(s: seq<T>, reverse: bool)
    ensures |Directed(s, reverse)| == |s|
    ensures forall i :: 0 <= i < |s| ==> Directed(s, reverse)[i] == s[if reverse then |s| - 1 - i else i]
  {
    ReversedAt(s);
  }

  // The entries of the first i parts of a walk.
  function Met(parts: seq<seq<Entry>>, i: nat, reverse: bool): seq<Entry>
    requires i <= |parts|
  {
    if reverse then Concat(parts[|parts| - i..]) else Concat(parts[..i])
  }

  lemma WalkEnds(parts: seq<seq<Entry>>, reverse: bool)
    ensures Directed(Met(parts, 0, reverse), reverse) == [] && Met(parts, |parts|, reverse) == Concat(parts)
  {
    assert parts[..|parts|] == parts && parts[0..] == parts && parts[|parts|..] == [];
  }

  lemma WalkStep(parts: seq<seq<Entry>>, i: nat, reverse: bool)
    requires i < |parts|
    ensures var p := if reverse then |parts| - 1 - i else i;
      Directed(Met(parts, i + 1, reverse), reverse) == Directed(Met(parts, i, reverse), reverse) + Directed(parts[p], reverse)
  {
    if reverse {
      var p := |parts| - 1 - i;
      assert parts[p..] == [parts[p]] + parts[p + 1..];
      ReversedAppend(parts[p], Concat(parts[p + 1..]));
    } else {
      assert parts[..i + 1] == parts[..i] + [parts[i]];
      ConcatAppend(parts[..i], [parts[i]]);
      ConcatOne(parts[i]);
    }
  }

  lemma ConcatOne(s: seq<Entry>)
    ensures Concat([s]) == s
  {
  }

  lemma {:induction false} ReversedAppend<T>(a: seq<T>, b: seq<T>)
    ensures Reversed(a + b) == Reversed(b) + Reversed(a)
  {
    if a == [] {
      assert a + b == b;
    } else {
      ReversedAppend(a[1..], b);
      assert (a + b)[1..] == a[1..] + b;
    }
  }

  lemma InRangeEmpty(s: seq<Entry>, reverse: bool, range: TreeRange)
    ensures s == [] ==> InRange(Directed(s, reverse), range) == [] && InRange(s, range) == []
  {
  }

  lemma InRangeStep(s: seq<Entry>, i: nat, range: TreeRange)
    requires i < |s|
    ensures InRange(s[..i + 1], range) == InRange(s[..i], range) + if range.Contains(s[i].key) then [s[i]] else []
  {
    assert s[..i + 1][..i] == s[..i];
  }

  lemma {:induction false} InRangePrefix(s: seq<Entry>, i: nat, range: TreeRange)
    requires i <= |s|
    ensures InRange(s[..i], range) <= InRange(s, range)
    decreases |s| - i
  {
    if i == |s| {
      assert s[..i] == s;
    } else {
      InRangePrefix(s, i + 1, range);
      InRangeStep(s, i, range);
    }
  }
}
