// Strings are compared by UTF-16 code unit in queries (query.ts) and by code point in storage keys (codec.ts).
module StringOrder {
  import opened Codec
  import Lex

  predicate Surrogate(c: Unit) {
    Leads(c) || Trails(c)
  }

  // No lone surrogates.
  predicate Paired(s: seq<Unit>) {
    if s == [] then true
    else if Leads(s[0]) then |s| > 1 && Trails(s[1]) && Paired(s[2..])
    else !Trails(s[0]) && Paired(s[1..])
  }

  // The two orders put the strings the same way round.
  predicate SameOrder(a: seq<Unit>, b: seq<Unit>) {
    && (Lex.Less(a, b) <==> Lex.Less(Points(a), Points(b)))
    && (Lex.Less(b, a) <==> Lex.Less(Points(b), Points(a)))
  }

  // Where the strings part, one has a surrogate and the other a unit above all surrogates.
  predicate MixedAt(a: seq<Unit>, b: seq<Unit>, k: nat) {
    && k < |a| && k < |b| && a[..k] == b[..k]
    && ((Surrogate(a[k]) && b[k] >= 0xE000) || (Surrogate(b[k]) && a[k] >= 0xE000))
  }

  ghost predicate Mixed(a: seq<Unit>, b: seq<Unit>) {
    exists k: nat :: MixedAt(a, b, k)
  }

  // ---------- comparing behind a common beginning ----------

  lemma {:induction false} ShiftCompare(a: seq<int>, b: seq<int>, i: nat)
    requires a != [] && b != [] && i < |a| && i < |b|
    ensures Lex.CompareFrom(a, b, i + 1) == Lex.CompareFrom(a[1..], b[1..], i)
    decreases |a| - i
  {
    if i + 1 < |a| && i + 1 < |b| {
      ShiftCompare(a, b, i + 1);
    }
  }

  lemma CompareFirst(a: seq<int>, b: seq<int>)
    requires a != [] && b != []
    ensures Lex.Compare(a, b) == if a[0] < b[0] then -1 else if b[0] < a[0] then 1 else Lex.Compare(a[1..], b[1..])
  {
    ShiftCompare(a, b, 0);
  }

  lemma CompareEmpty(a: seq<int>)
    ensures a != [] ==> Lex.Compare([], a) == -1 && Lex.Compare(a, []) == 1
    ensures Lex.Compare([], []) == 0
  {
  }

  lemma MixedFirst(a: seq<Unit>, b: seq<Unit>)
    requires a != [] && b != []
    ensures Mixed(a, b) <==> if a[0] == b[0] then Mixed(a[1..], b[1..]) else MixedAt(a, b, 0)
  {
    forall k: nat | 0 < k <= |a| && k <= |b| && a[..k] == b[..k] ensures a[0] == b[0] {
      assert a[..k][0] == b[..k][0];
    }
    if a[0] == b[0] {
      if k: nat :| MixedAt(a, b, k) {
        assert a[1..][..k - 1] == a[..k][1..] && b[1..][..k - 1] == b[..k][1..];
        assert MixedAt(a[1..], b[1..], k - 1);
      }
      if k: nat :| MixedAt(a[1..], b[1..], k) {
        assert a[..k + 1] == [a[0]] + a[1..][..k] && b[..k + 1] == [b[0]] + b[1..][..k];
        assert MixedAt(a, b, k + 1);
      }
    }
  }

  // ---------- characters ----------

  // The first character and the rest.
  lemma PointsStep(s: seq<Unit>)
    requires s != []
    ensures Points(s) != []
    ensures Leads(s[0]) && |s| > 1 && Trails(s[1]) ==>
      var lead: int, trail: int := s[0], s[1];
      Points(s)[0] == 0x1_0000 + 0x400 * (lead - 0xD800) + trail - 0xDC00 && Points(s)[1..] == Points(s[2..])
    ensures !(Leads(s[0]) && |s| > 1 && Trails(s[1])) ==>
      Points(s)[0] == (if Surrogate(s[0]) then 0xFFFD else s[0]) && Points(s)[1..] == Points(s[1..])
  {
  }

  lemma OrderSwaps(a: seq<int>, b: seq<int>)
    ensures Lex.Compare(a, b) == -Lex.Compare(b, a)
  {
    Lex.StrictTotalOrder();
  }

  /** Without lone surrogates the orders agree exactly if the strings do not part at a surrogate and a unit above all
      surrogates, that is, at a character beyond U+FFFF and one from U+E000 to U+FFFF. */
  lemma {:induction false} PairedAgreeExactly(a: seq<Unit>, b: seq<Unit>)
    requires Paired(a) && Paired(b)
    ensures SameOrder(a, b) <==> !Mixed(a, b)
    ensures a != b ==> Points(a) != Points(b)
    decreases |a|
  {
    hide Lex.Compare, Points, Mixed;
    OrderSwaps(a, b);
    OrderSwaps(Points(a), Points(b));
    if a == [] || b == [] {
      EndsAgree(a, b);
    } else {
      PointsStep(a);
      PointsStep(b);
      CompareFirst(a, b);
      CompareFirst(Points(a), Points(b));
      MixedFirst(a, b);
      if a[0] == b[0] && !Leads(a[0]) {
        PairedAgreeExactly(a[1..], b[1..]);
        OrderSwaps(a[1..], b[1..]);
        OrderSwaps(Points(a[1..]), Points(b[1..]));
      } else if a[0] == b[0] {
        PairsAgree(a, b);
      }
    }
  }

  lemma EndsAgree(a: seq<Unit>, b: seq<Unit>)
    requires a == [] || b == []
    ensures SameOrder(a, b) && !Mixed(a, b) && (a != b ==> Points(a) != Points(b))
  {
    hide Lex.Compare;
    CompareEmpty(a);
    CompareEmpty(b);
    CompareEmpty(Points(a));
    CompareEmpty(Points(b));
    assert a != [] ==> Points(a) != [];
    assert b != [] ==> Points(b) != [];
  }

  // Both begin with a pair that has the same lead.
  lemma {:induction false} PairsAgree(a: seq<Unit>, b: seq<Unit>)
    requires Paired(a) && Paired(b) && a != [] && b != [] && a[0] == b[0] && Leads(a[0])
    ensures SameOrder(a, b) <==> !Mixed(a, b)
    ensures a != b ==> Points(a) != Points(b)
    decreases |a|, 0
  {
    hide Lex.Compare, Points, Mixed;
    OrderSwaps(a, b);
    OrderSwaps(Points(a), Points(b));
    PointsStep(a);
    PointsStep(b);
    CompareFirst(a, b);
    CompareFirst(a[1..], b[1..]);
    CompareFirst(Points(a), Points(b));
    MixedFirst(a, b);
    MixedFirst(a[1..], b[1..]);
    assert a[1..][1..] == a[2..] && b[1..][1..] == b[2..];
    if a[1] == b[1] {
      PairedAgreeExactly(a[2..], b[2..]);
      OrderSwaps(a[2..], b[2..]);
      OrderSwaps(Points(a[2..]), Points(b[2..]));
      assert a == [a[0], a[1]] + a[2..] && b == [b[0], b[1]] + b[2..];
    }
  }

  // ---------- strings that are safe to order ----------

  predicate Safe(s: seq<Unit>) {
    forall i :: 0 <= i < |s| ==> s[i] < 0xD800
  }

  lemma {:induction false} SafeAgrees(a: seq<Unit>, b: seq<Unit>)
    requires Safe(a)
    ensures SameOrder(a, b)
  {
    hide Lex.Compare, Points;
    OrderSwaps(a, b);
    OrderSwaps(Points(a), Points(b));
    if a == [] || b == [] {
      EndsAgree(a, b);
    } else {
      PointsStep(a);
      PointsStep(b);
      CompareFirst(a, b);
      CompareFirst(Points(a), Points(b));
      if a[0] == b[0] {
        SafeAgrees(a[1..], b[1..]);
        OrderSwaps(a[1..], b[1..]);
        OrderSwaps(Points(a[1..]), Points(b[1..]));
      }
    }
  }

  lemma {:induction false} CompareBehind(p: seq<int>, s: seq<int>, t: seq<int>)
    ensures Lex.Compare(p + s, p + t) == Lex.Compare(s, t)
  {
    hide Lex.Compare;
    if p == [] {
      assert p + s == s && p + t == t;
    } else {
      assert (p + s)[1..] == p[1..] + s && (p + t)[1..] == p[1..] + t;
      CompareBehind(p[1..], s, t);
      CompareFirst(p + s, p + t);
    }
  }

  lemma FrontBack(s: seq<int>, first: int, rest: seq<int>)
    requires s != [] && s[0] == first && s[1..] == rest
    ensures s == [first] + rest
  {
  }

  lemma {:induction false} PointsBehind(p: seq<Unit>, s: seq<Unit>)
    requires Safe(p)
    ensures Points(p + s) == p + Points(s)
  {
    hide Points;
    if p == [] {
      assert p + s == s && p + Points(s) == Points(s);
    } else {
      assert (p + s)[1..] == p[1..] + s;
      PointsBehind(p[1..], s);
      PointsStep(p + s);
      assert (p + s)[0] == p[0];
      FrontBack(Points(p + s), p[0], p[1..] + Points(s));
      FrontBack(p + Points(s), p[0], p[1..] + Points(s));
    }
  }

  // Behind a safe beginning, the rests decide.
  lemma RestsDecide(p: seq<Unit>, s: seq<Unit>, t: seq<Unit>)
    requires Safe(p)
    ensures SameOrder(p + s, p + t) <==> SameOrder(s, t)
  {
    hide Lex.Compare, Points;
    CompareBehind(p, s, t);
    CompareBehind(p, t, s);
    PointsBehind(p, s);
    PointsBehind(p, t);
    CompareBehind(p, Points(s), Points(t));
    CompareBehind(p, Points(t), Points(s));
  }

  // A string that begins at a surrogate or above is on the wrong side of some other string.
  lemma UnsafeDisagrees(s: seq<Unit>) returns (t: seq<Unit>)
    requires s != [] && s[0] >= 0xD800
    ensures !SameOrder(s, t)
  {
    hide Lex.Compare, Points;
    PointsStep(s);
    if s[0] >= 0xE000 {
      t := [0xD800, 0xDC00];
      PointsStep(t);
      CompareFirst(s, t);
      CompareFirst(Points(s), Points(t));
      CompareFirst(t, s);
    } else if Leads(s[0]) && |s| > 1 && Trails(s[1]) {
      t := [0xE000];
      PointsStep(t);
      CompareFirst(s, t);
      CompareFirst(Points(s), Points(t));
    } else {
      t := [0xFFFD] + s[1..];
      PointsStep(t);
      assert t[1..] == s[1..];
      assert Points(s) == [0xFFFD] + Points(s[1..]) == Points(t);
      CompareFirst(s, t);
      OrderSwaps(Points(s), Points(t));
    }
  }

  /** A string is ordered alike against every other string exactly if all its units come before the surrogates. */
  lemma SafeExactly(a: seq<Unit>)
    ensures (forall b :: SameOrder(a, b)) <==> forall i :: 0 <= i < |a| ==> a[i] < 0xD800
  {
    if Safe(a) {
      forall b ensures SameOrder(a, b) {
        SafeAgrees(a, b);
      }
    } else {
      var i := FirstUnsafe(a);
      var t := UnsafeDisagrees(a[i..]);
      RestsDecide(a[..i], a[i..], t);
      assert a[..i] + a[i..] == a;
      assert !SameOrder(a, a[..i] + t);
    }
  }

  lemma {:induction false} FirstUnsafe(a: seq<Unit>) returns (i: nat)
    requires !Safe(a)
    ensures i < |a| && Safe(a[..i]) && a[i] >= 0xD800
  {
    if a[0] >= 0xD800 {
      i := 0;
    } else {
      var j := FirstUnsafe(a[1..]);
      i := j + 1;
      assert forall k :: 0 < k < i ==> a[k] == a[1..][..j][k - 1];
    }
  }
}
