// Lexicographic comparison of sequences of code units: the order of Buffer.compare on byte
// strings and of the JavaScript operators < and > on strings.
module Lex {

  // -1, 0 or 1, looking at positions i and later only.
  function CompareFrom(a: seq<int>, b: seq<int>, i: nat): (r: int)
    requires i <= |a| && i <= |b|
    decreases |a| - i
  {
    if i == |a| then (if i == |b| then 0 else -1)
    else if i == |b| then 1
    else if a[i] < b[i] then -1
    else if b[i] < a[i] then 1
    else CompareFrom(a, b, i + 1)
  }

  function Compare(a: seq<int>, b: seq<int>): int {
    CompareFrom(a, b, 0)
  }

  predicate Less(a: seq<int>, b: seq<int>) {
    Compare(a, b) < 0
  }

  lemma {:induction false} CompareFromSwaps(a: seq<int>, b: seq<int>, i: nat)
    requires i <= |a| && i <= |b|
    ensures CompareFrom(a, b, i) == -CompareFrom(b, a, i)
    ensures -1 <= CompareFrom(a, b, i) <= 1
    ensures CompareFrom(a, b, i) == 0 <==> a[i..] == b[i..]
    decreases |a| - i
  {
    if i < |a| && i < |b| {
      assert a[i..] == [a[i]] + a[i + 1..];
      assert b[i..] == [b[i]] + b[i + 1..];
      if a[i] == b[i] {
        CompareFromSwaps(a, b, i + 1);
      } else {
        assert a[i..][0] != b[i..][0];
      }
    }
  }

  lemma {:induction false} CompareFromTransitive(a: seq<int>, b: seq<int>, c: seq<int>, i: nat)
    requires i <= |a| && i <= |b| && i <= |c|
    requires CompareFrom(a, b, i) < 0 && CompareFrom(b, c, i) < 0
    ensures CompareFrom(a, c, i) < 0
    decreases |a| - i
  {
    if i < |a| && i < |b| && i < |c| && a[i] == b[i] == c[i] {
      CompareFromTransitive(a, b, c, i + 1);
    }
  }

  /** Less is a strict total order whose equality is equality of sequences. */
  lemma StrictTotalOrder()
    ensures forall a :: !Less(a, a)
    ensures forall a, b :: Less(a, b) || a == b || Less(b, a)
    ensures forall a, b :: !(Less(a, b) && Less(b, a))
    ensures forall a, b, c :: Less(a, b) && Less(b, c) ==> Less(a, c)
    ensures forall a, b :: Compare(a, b) == -Compare(b, a)
    ensures forall a, b :: Compare(a, b) == 0 <==> a == b
    ensures forall a, b :: Compare(a, b) == -1 || Compare(a, b) == 0 || Compare(a, b) == 1
  {
    forall a: seq<int>, b: seq<int>
      ensures Compare(a, b) == -Compare(b, a)
      ensures Compare(a, b) == 0 <==> a == b
      ensures Compare(a, b) == -1 || Compare(a, b) == 0 || Compare(a, b) == 1
    {
      CompareFromSwaps(a, b, 0);
      assert a[0..] == a && b[0..] == b;
    }
    forall a, b, c | Less(a, b) && Less(b, c)
      ensures Less(a, c)
    {
      CompareFromTransitive(a, b, c, 0);
    }
  }
}
