// The values of queries (query.ts) as the parts of storage keys (codec.ts), and the orders of both.
module StoredValues {
  import opened Query
  import C = Codec
  import Lex
  import opened StringOrder

  // ---------- values and parts ----------

  // Numbers are in units of 2 to the power -1074.
  function Units(): (r: real)
    ensures r > 0.0
  {
    C.Pow2(1074) as real
  }

  // The query value and the key part are the same stored value.
  ghost predicate Stands(v: Value, p: C.Part) {
    match v
    case Undefined => false
    case Null => p == C.Null
    case Bool(b) => p == C.Bool(b)
    case Num(n) => p.Number? && C.Finite(p.d) && n * Units() == C.NumberValue(p.d) as real
    case Date(time) => p == C.Date(time) && C.ValidTime(time)
    case Str(units) => p.Text? && p.units == units
  }

  ghost predicate KeyStands(a: seq<Value>, p: C.Key) {
    |a| == |p| && forall i :: 0 <= i < |a| ==> Stands(a[i], p[i])
  }

  // Strings are well formed.
  predicate Formed(v: Value) {
    v.Str? ==> (forall i :: 0 <= i < |v.units| ==> 0 <= v.units[i] < 0x1_0000) && Paired(v.units)
  }

  predicate AllFormed(a: seq<Value>) {
    forall i :: 0 <= i < |a| ==> Formed(a[i])
  }

  // The values are not two strings that part at a surrogate and a unit above all surrogates.
  ghost predicate Agree(v: Value, w: Value) {
    v.Str? && w.Str? && Formed(v) && Formed(w) ==> !Mixed(v.units, w.units)
  }

  // The first values that differ agree.
  ghost predicate KeysAgree(a: seq<Value>, b: seq<Value>) {
    if a == [] || b == [] then true
    else if a[0] == b[0] then KeysAgree(a[1..], b[1..])
    else Agree(a[0], b[0])
  }

  lemma ProductOrder(x: real, y: real, u: real)
    requires u > 0.0
    ensures x * u < y * u <==> x < y
    ensures x * u == y * u <==> x == y
  {
    if x < y {
      assert (y - x) * u > 0.0;
    } else if y < x {
      assert (x - y) * u > 0.0;
    }
  }

  lemma NumbersOrder(x: real, y: real, p: C.Part, q: C.Part)
    requires Stands(Num(x), p) && Stands(Num(y), q)
    ensures x < y <==> C.PartLess(p, q)
    ensures x == y <==> C.SamePart(p, q)
  {
    hide C.NumberValue, Units;
    ProductOrder(x, y, Units());
    SameDouble(p, q);
  }

  lemma SameDouble(p: C.Part, q: C.Part)
    requires p.Number? && q.Number?
    ensures C.SamePart(p, q) <==> C.NumberValue(p.d) == C.NumberValue(q.d)
  {
  }

  lemma StringsOrder(x: seq<int>, y: seq<int>, p: C.Part, q: C.Part)
    requires Stands(Str(x), p) && Stands(Str(y), q) && Formed(Str(x)) && Formed(Str(y))
    ensures x == y <==> C.SamePart(p, q)
    ensures !Mixed(x, y) <==> ((Lex.Less(x, y) <==> C.PartLess(p, q)) && (Lex.Less(y, x) <==> C.PartLess(q, p)))
  {
    hide Lex.Less, C.Points;
    PairedAgreeExactly(x, y);
  }

  /** Query order and part order are the same, except between strings that do not agree. */
  lemma ValuesOrder(v: Value, w: Value, p: C.Part, q: C.Part)
    requires Stands(v, p) && Stands(w, q) && Formed(v) && Formed(w)
    ensures v == w <==> C.SamePart(p, q)
    ensures Agree(v, w) <==> ((CompareValues(v, w) < 0 <==> C.PartLess(p, q)) && (CompareValues(v, w) > 0 <==> C.PartLess(q, p)))
  {
    hide C.NumberValue, Units, Lex.Compare, C.Points;
    if v.Num? && w.Num? {
      NumbersOrder(v.n, w.n, p, q);
      NumbersOrder(w.n, v.n, q, p);
    } else if v.Str? && w.Str? {
      StringsOrder(v.units, w.units, p, q);
      Lex.StrictTotalOrder();
    }
  }

  lemma StandsEncodes(a: seq<Value>, p: C.Key)
    requires KeyStands(a, p)
    ensures C.EncodableKey(p)
  {
    hide C.NumberValue, Units;
    forall i | 0 <= i < |p| ensures C.Encodable(p[i]) {
      assert Stands(a[i], p[i]);
    }
  }

  lemma {:induction false} SameKeys(a: seq<Value>, b: seq<Value>, p: C.Key, q: C.Key)
    requires KeyStands(a, p) && KeyStands(b, q) && AllFormed(a) && AllFormed(b)
    ensures a == b <==> C.SameKey(p, q)
  {
    hide Stands, Formed, C.SamePart;
    forall i | 0 <= i < |a| && i < |b| ensures a[i] == b[i] <==> C.SamePart(p[i], q[i]) {
      ValuesOrder(a[i], b[i], p[i], q[i]);
    }
  }

  lemma TailStands(a: seq<Value>, p: C.Key)
    requires KeyStands(a, p) && AllFormed(a) && a != []
    ensures KeyStands(a[1..], p[1..]) && AllFormed(a[1..]) && Stands(a[0], p[0]) && Formed(a[0])
  {
    hide Stands, Formed;
  }

  lemma {:induction false} KeyOrder(a: seq<Value>, b: seq<Value>, p: C.Key, q: C.Key)
    requires KeyStands(a, p) && KeyStands(b, q) && AllFormed(a) && AllFormed(b)
    ensures KeysAgree(a, b) <==> ((CompareKeys(a, b) < 0 <==> C.KeyLess(p, q)) && (CompareKeys(a, b) > 0 <==> C.KeyLess(q, p)))
  {
    hide Stands, Formed, C.SamePart, C.PartLess, CompareValues, Agree;
    if a != [] && b != [] {
      TailStands(a, p);
      TailStands(b, q);
      ValuesOrder(a[0], b[0], p[0], q[0]);
      ValuesOrder(b[0], a[0], q[0], p[0]);
      CompareValuesOrder(a[0], b[0], a[0]);
      C.PartsCompare(p[0], q[0]);
      C.PartsCompare(q[0], p[0]);
      C.SameSwaps(p[0], q[0]);
      if a[0] == b[0] {
        KeyOrder(a[1..], b[1..], p[1..], q[1..]);
      }
    }
  }

  /** The order of keys in a query is the byte order of their encodings exactly if the first values that differ are not
      two strings that part at a surrogate and a unit above all surrogates. */
  lemma KeyOrderExactly(a: seq<Value>, b: seq<Value>, p: C.Key, q: C.Key)
    requires KeyStands(a, p) && KeyStands(b, q) && AllFormed(a) && AllFormed(b)
    ensures C.EncodableKey(p) && C.EncodableKey(q)
    ensures a == b <==> C.KeyBytes(p) == C.KeyBytes(q)
    ensures KeysAgree(a, b)
      <==> ((CompareKeys(a, b) < 0 <==> Lex.Less(C.KeyBytes(p), C.KeyBytes(q))) && (CompareKeys(a, b) > 0 <==> Lex.Less(C.KeyBytes(q), C.KeyBytes(p))))
  {
    hide KeyStands, AllFormed, KeysAgree, C.KeyBytes, C.KeyLess, Lex.Less, CompareKeys, C.SameKey;
    StandsEncodes(a, p);
    StandsEncodes(b, q);
    KeyOrder(a, b, p, q);
    SameKeys(a, b, p, q);
    C.EncodingInjective(p, q);
    C.OrderPreserved(p, q);
    C.OrderPreserved(q, p);
  }
}
