// External sorting (spill-sort.ts): sorted runs of consecutive input, merged with the earliest run
// first on ties, give the stable sort of the whole input.
module SpillSort {

  type Comparator<!T> = (T, T) -> int

  // What a comparator must satisfy: a total preorder.
  ghost predicate Consistent<T(!new)>(compare: Comparator<T>) {
    && (forall x :: compare(x, x) == 0)
    && (forall x, y :: compare(x, y) < 0 <==> compare(y, x) > 0)
    && (forall x, y, z :: compare(x, y) <= 0 && compare(y, z) <= 0 ==> compare(x, z) <= 0)
  }

  ghost predicate Sorted<T>(compare: Comparator<T>, s: seq<T>) {
    forall i, j :: 0 <= i < j < |s| ==> compare(s[i], s[j]) <= 0
  }

  // The elements that compare equal to x, in order.
  function Class<T>(compare: Comparator<T>, s: seq<T>, x: T): seq<T> {
    if s == [] then []
    else (if compare(x, s[0]) == 0 then [s[0]] else []) + Class(compare, s[1..], x)
  }

  /** t is s sorted, elements that compare equal keeping their order. */
  ghost predicate IsStableSort<T(!new)>(compare: Comparator<T>, s: seq<T>, t: seq<T>) {
    Sorted(compare, t) && forall x :: Class(compare, t, x) == Class(compare, s, x)
  }

  lemma {:induction false} ClassAppend<T>(compare: Comparator<T>, s: seq<T>, t: seq<T>, x: T)
    ensures Class(compare, s + t, x) == Class(compare, s, x) + Class(compare, t, x)
  {
    if s == [] {
      assert s + t == t;
    } else {
      assert (s + t)[0] == s[0] && (s + t)[1..] == s[1..] + t;
      ClassAppend(compare, s[1..], t, x);
      Associative(if compare(x, s[0]) == 0 then [s[0]] else [], Class(compare, s[1..], x), Class(compare, t, x));
    }
  }

  lemma {:induction false} ClassEmpty<T>(compare: Comparator<T>, s: seq<T>, x: T)
    requires forall i :: 0 <= i < |s| ==> compare(x, s[i]) != 0
    ensures Class(compare, s, x) == []
  {
    if s != [] {
      ClassEmpty(compare, s[1..], x);
    }
  }

  lemma {:induction false} ClassMember<T>(compare: Comparator<T>, s: seq<T>, x: T, i: nat)
    requires i < |s| && compare(x, s[i]) == 0
    ensures Class(compare, s, x) != []
  {
    if i > 0 {
      ClassMember(compare, s[1..], x, i - 1);
    }
  }

  lemma {:induction false} ClassFrom<T>(compare: Comparator<T>, s: seq<T>, x: T)
    ensures forall i :: 0 <= i < |Class(compare, s, x)| ==> Class(compare, s, x)[i] in s && compare(x, Class(compare, s, x)[i]) == 0
  {
    if s != [] {
      ClassFrom(compare, s[1..], x);
    }
  }

  // The head of a sorted sequence leads its own class.
  lemma HeadLeads<T>(compare: Comparator<T>, s: seq<T>)
    requires s != [] && compare(s[0], s[0]) == 0
    ensures Class(compare, s, s[0]) == [s[0]] + Class(compare, s[1..], s[0])
  {
  }

  /** A sequence has one stable sort. */
  lemma {:induction false} StableSortUnique<T(!new)>(compare: Comparator<T>, s: seq<T>, t: seq<T>)
    requires Consistent(compare) && Sorted(compare, s) && Sorted(compare, t)
    requires forall x :: Class(compare, s, x) == Class(compare, t, x)
    ensures s == t
    decreases |s|
  {
    if s == [] {
      if t != [] {
        HeadLeads(compare, t);
      }
    } else {
      HeadLeads(compare, s);
      assert Class(compare, t, s[0]) != [];
      HeadLeads(compare, t);
      SameHead(compare, s, t);
      forall x ensures Class(compare, s[1..], x) == Class(compare, t[1..], x) {
        assert Class(compare, s, x) == Class(compare, t, x);
        SameTail(if compare(x, s[0]) == 0 then [s[0]] else [], Class(compare, s[1..], x), Class(compare, t[1..], x));
      }
      StableSortUnique(compare, s[1..], t[1..]);
    }
  }

  lemma SameTail<T>(head: seq<T>, a: seq<T>, b: seq<T>)
    requires head + a == head + b
    ensures a == b
  {
    assert (head + a)[|head|..] == a && (head + b)[|head|..] == b;
  }

  lemma SameHead<T(!new)>(compare: Comparator<T>, s: seq<T>, t: seq<T>)
    requires Consistent(compare) && Sorted(compare, s) && Sorted(compare, t) && s != [] && t != []
    requires forall x :: Class(compare, s, x) == Class(compare, t, x)
    ensures s[0] == t[0]
  {
    var a, b := s[0], t[0];
    HeadLeads(compare, s);
    HeadLeads(compare, t);
    ClassFrom(compare, t, a);
    ClassFrom(compare, s, b);
    assert Class(compare, t, a)[0] in t && Class(compare, s, b)[0] in s;
    var i :| 0 <= i < |t| && t[i] == Class(compare, t, a)[0];
    var j :| 0 <= j < |s| && s[j] == Class(compare, s, b)[0];
    assert compare(b, t[i]) <= 0 && compare(a, s[j]) <= 0;
    assert compare(a, b) == 0;
  }

  // ---------- in memory ----------

  // Places x after everything that is not greater.
  function Insert<T>(compare: Comparator<T>, s: seq<T>, x: T): seq<T> {
    if s == [] || compare(s[|s| - 1], x) <= 0 then s + [x]
    else Insert(compare, s[..|s| - 1], x) + [s[|s| - 1]]
  }

  function StableSort<T>(compare: Comparator<T>, s: seq<T>): seq<T> {
    if s == [] then [] else Insert(compare, StableSort(compare, s[..|s| - 1]), s[|s| - 1])
  }

  lemma {:induction false} InsertMembers<T>(compare: Comparator<T>, s: seq<T>, x: T)
    ensures forall y :: y in Insert(compare, s, x) ==> y in s || y == x
  {
    if s != [] && compare(s[|s| - 1], x) > 0 {
      InsertMembers(compare, s[..|s| - 1], x);
    }
  }

  lemma {:induction false} InsertSorted<T(!new)>(compare: Comparator<T>, s: seq<T>, x: T)
    requires Consistent(compare) && Sorted(compare, s)
    ensures Sorted(compare, Insert(compare, s, x))
  {
    if s != [] && compare(s[|s| - 1], x) > 0 {
      var init, last := s[..|s| - 1], s[|s| - 1];
      InsertSorted(compare, init, x);
      InsertMembers(compare, init, x);
      var t := Insert(compare, init, x);
      forall i | 0 <= i < |t| ensures compare(t[i], last) <= 0 {
        assert t[i] in init || t[i] == x;
      }
    } else if s != [] {
      forall i | 0 <= i < |s| ensures compare(s[i], x) <= 0 {
        assert compare(s[i], s[|s| - 1]) <= 0;
      }
    }
  }

  lemma {:induction false} InsertClass<T(!new)>(compare: Comparator<T>, s: seq<T>, x: T, y: T)
    requires Consistent(compare)
    ensures Class(compare, Insert(compare, s, x), y) == Class(compare, s + [x], y)
  {
    hide Consistent;
    if s != [] && compare(s[|s| - 1], x) > 0 {
      var init, last := s[..|s| - 1], s[|s| - 1];
      InsertClass(compare, init, x, y);
      ClassAppend(compare, Insert(compare, init, x), [last], y);
      ClassAppend(compare, init, [x], y);
      assert s + [x] == init + ([last] + [x]);
      ClassAppend(compare, init, [last] + [x], y);
      ClassAppend(compare, [last], [x], y);
      ClassApart(compare, last, x, y);
      Associative(Class(compare, init, y), Class(compare, [x], y), Class(compare, [last], y));
    }
  }

  lemma Associative<T>(a: seq<T>, b: seq<T>, c: seq<T>)
    ensures a + b + c == a + (b + c)
  {
  }

  // Two elements that differ are never in one class.
  lemma ClassApart<T(!new)>(compare: Comparator<T>, a: T, b: T, y: T)
    requires Consistent(compare) && compare(a, b) != 0
    ensures Class(compare, [a], y) + Class(compare, [b], y) == Class(compare, [b], y) + Class(compare, [a], y)
  {
    if compare(y, a) == 0 && compare(y, b) == 0 {
      OneClass(compare, y, a, b);
    }
  }

  lemma OneClass<T(!new)>(compare: Comparator<T>, y: T, a: T, b: T)
    requires Consistent(compare) && compare(y, a) == 0 && compare(y, b) == 0
    ensures compare(a, b) == 0
  {
    assert compare(a, y) <= 0 && compare(b, y) <= 0;
  }

  lemma {:induction false} StableSortIs<T(!new)>(compare: Comparator<T>, s: seq<T>)
    requires Consistent(compare)
    ensures IsStableSort(compare, s, StableSort(compare, s))
  {
    if s != [] {
      var init, last := s[..|s| - 1], s[|s| - 1];
      StableSortIs(compare, init);
      InsertSorted(compare, StableSort(compare, init), last);
      forall x ensures Class(compare, StableSort(compare, s), x) == Class(compare, s, x) {
        InsertClass(compare, StableSort(compare, init), last, x);
        ClassAppend(compare, StableSort(compare, init), [last], x);
        ClassAppend(compare, init, [last], x);
        assert s == init + [last];
      }
    }
  }

  lemma {:induction false} InsertMultiset<T>(compare: Comparator<T>, s: seq<T>, x: T)
    ensures multiset(Insert(compare, s, x)) == multiset(s) + multiset{x}
  {
    if s != [] && compare(s[|s| - 1], x) > 0 {
      InsertMultiset(compare, s[..|s| - 1], x);
      assert s == s[..|s| - 1] + [s[|s| - 1]];
    }
  }

  lemma {:induction false} StableSortMultiset<T>(compare: Comparator<T>, s: seq<T>)
    ensures multiset(StableSort(compare, s)) == multiset(s)
  {
    if s != [] {
      StableSortMultiset(compare, s[..|s| - 1]);
      InsertMultiset(compare, StableSort(compare, s[..|s| - 1]), s[|s| - 1]);
      assert s == s[..|s| - 1] + [s[|s| - 1]];
    }
  }

  // ---------- merging ----------

  function Flat<T>(runs: seq<seq<T>>): seq<T> {
    if runs == [] then [] else runs[0] + Flat(runs[1..])
  }

  lemma {:induction false} FlatAppend<T>(a: seq<seq<T>>, b: seq<seq<T>>)
    ensures Flat(a + b) == Flat(a) + Flat(b)
  {
    if a == [] {
      assert a + b == b;
    } else {
      assert (a + b)[1..] == a[1..] + b;
      FlatAppend(a[1..], b);
      assert a[0] + (Flat(a[1..]) + Flat(b)) == a[0] + Flat(a[1..]) + Flat(b);
    }
  }

  lemma FlatOne<T>(run: seq<T>)
    ensures Flat([run]) == run
  {
    assert [run][1..] == [];
  }

  lemma {:induction false} ClassesEmpty<T>(compare: Comparator<T>, runs: seq<seq<T>>, x: T)
    requires forall j :: 0 <= j < |runs| ==> Class(compare, runs[j], x) == []
    ensures Class(compare, Flat(runs), x) == []
  {
    if runs != [] {
      ClassAppend(compare, runs[0], Flat(runs[1..]), x);
      assert forall j :: 0 <= j < |runs[1..]| ==> runs[1..][j] == runs[j + 1];
      ClassesEmpty(compare, runs[1..], x);
    }
  }

  // Runs that replace sorted chunks class by class.
  lemma {:induction false} ClassesSame<T>(compare: Comparator<T>, a: seq<seq<T>>, b: seq<seq<T>>, x: T)
    requires |a| == |b| && forall j :: 0 <= j < |a| ==> Class(compare, a[j], x) == Class(compare, b[j], x)
    ensures Class(compare, Flat(a), x) == Class(compare, Flat(b), x)
  {
    if a != [] {
      ClassAppend(compare, a[0], Flat(a[1..]), x);
      ClassAppend(compare, b[0], Flat(b[1..]), x);
      ClassesSame(compare, a[1..], b[1..], x);
    }
  }

  // The earliest run whose head is least.
  ghost predicate Chosen<T>(compare: Comparator<T>, rests: seq<seq<T>>, selected: nat, upTo: nat) {
    && selected < |rests| && rests[selected] != [] && upTo <= |rests|
    && (forall j :: 0 <= j < selected && rests[j] != [] ==> compare(rests[selected][0], rests[j][0]) < 0)
    && (forall j :: 0 <= j < upTo && rests[j] != [] ==> compare(rests[selected][0], rests[j][0]) <= 0)
  }

  // Earlier runs hold nothing that ties with the chosen head.
  lemma NoneBefore<T(!new)>(compare: Comparator<T>, rests: seq<seq<T>>, selected: nat, x: T)
    requires Consistent(compare) && Chosen(compare, rests, selected, |rests|)
    requires forall j :: 0 <= j < |rests| ==> Sorted(compare, rests[j])
    requires compare(x, rests[selected][0]) == 0
    ensures Class(compare, Flat(rests[..selected]), x) == []
  {
    hide Consistent;
    var before := rests[..selected];
    forall j | 0 <= j < |before| ensures Class(compare, before[j], x) == [] {
      forall i | 0 <= i < |before[j]| ensures compare(x, before[j][i]) != 0 {
        Beyond(compare, x, rests[selected][0], before[j], i);
      }
      ClassEmpty(compare, before[j], x);
    }
    ClassesEmpty(compare, before, x);
  }

  lemma Beyond<T(!new)>(compare: Comparator<T>, x: T, head: T, run: seq<T>, i: nat)
    requires Consistent(compare) && compare(x, head) == 0 && Sorted(compare, run) && i < |run| && compare(head, run[0]) < 0
    ensures compare(x, run[i]) != 0
  {
    if compare(x, run[i]) == 0 {
      OneClass(compare, x, head, run[i]);
      Lower(compare, run[0], run[i], head);
    }
  }

  lemma Lower<T(!new)>(compare: Comparator<T>, a: T, b: T, c: T)
    requires Consistent(compare) && compare(c, b) == 0 && (a == b || compare(a, b) <= 0)
    ensures compare(a, c) <= 0
  {
    assert compare(b, c) <= 0;
  }

  /** Taking the chosen head keeps every class in order. */
  lemma TakeChosen<T(!new)>(compare: Comparator<T>, output: seq<T>, rests: seq<seq<T>>, selected: nat, x: T)
    requires Consistent(compare) && Chosen(compare, rests, selected, |rests|)
    requires forall j :: 0 <= j < |rests| ==> Sorted(compare, rests[j])
    ensures var head := rests[selected][0];
      Class(compare, output + [head], x) + Class(compare, Flat(rests[selected := rests[selected][1..]]), x)
        == Class(compare, output, x) + Class(compare, Flat(rests), x)
  {
    hide Consistent, Sorted, Class, Flat;
    var head, rest := rests[selected][0], rests[selected][1..];
    var before, after := rests[..selected], rests[selected + 1..];
    ClassAround(compare, rests, selected, x);
    ClassAround(compare, rests[selected := rest], selected, x);
    assert rests[selected := rest][..selected] == before && rests[selected := rest][selected + 1..] == after;
    ClassAppend(compare, output, [head], x);
    assert rests[selected] == [head] + rest;
    ClassAppend(compare, [head], rest, x);
    if compare(x, head) == 0 {
      NoneBefore(compare, rests, selected, x);
    } else {
      NotInClass(compare, head, x);
    }
  }

  lemma NotInClass<T>(compare: Comparator<T>, head: T, x: T)
    requires compare(x, head) != 0
    ensures Class(compare, [head], x) == []
  {
  }

  lemma ClassAround<T>(compare: Comparator<T>, runs: seq<seq<T>>, p: nat, x: T)
    requires p < |runs|
    ensures Class(compare, Flat(runs), x) == Class(compare, Flat(runs[..p]), x) + Class(compare, runs[p], x) + Class(compare, Flat(runs[p + 1..]), x)
  {
    hide Class, Flat;
    FlatAround(runs, p);
    ClassAppend(compare, Flat(runs[..p]) + runs[p], Flat(runs[p + 1..]), x);
    ClassAppend(compare, Flat(runs[..p]), runs[p], x);
  }

  lemma FlatAround<T>(runs: seq<seq<T>>, p: nat)
    requires p < |runs|
    ensures Flat(runs) == Flat(runs[..p]) + runs[p] + Flat(runs[p + 1..])
  {
    var rest := runs[p..];
    assert runs == runs[..p] + rest;
    assert rest[0] == runs[p] && rest[1..] == runs[p + 1..];
    FlatAppend(runs[..p], rest);
    Associative(Flat(runs[..p]), runs[p], Flat(runs[p + 1..]));
  }

  // ---------- the sorter ----------

  /** Values pushed in, and given back in stable order however little memory there is. */
  class SpillableSorter<T(!new)> {
    const compare: Comparator<T>
    const size: T -> nat
    const memoryBytes: nat
    var buffer: seq<T>
    var runs: seq<seq<T>>
    var bufferBytes: nat
    var finished: bool
    // The input, and how the runs divide it.
    ghost var pushed: seq<T>
    ghost var chunks: seq<seq<T>>

    constructor (compare: Comparator<T>, size: T -> nat, memoryBytes: nat)
      requires memoryBytes > 0 && Consistent(compare)
      ensures this.compare == compare && Valid() && pushed == [] && !finished
    {
      this.compare, this.size, this.memoryBytes := compare, size, memoryBytes;
      buffer, runs, bufferBytes, finished := [], [], 0, false;
      pushed, chunks := [], [];
    }

    ghost predicate Valid()
      reads this
    {
      && Consistent(compare)
      && |chunks| == |runs|
      && (forall j :: 0 <= j < |runs| ==> IsStableSort(compare, chunks[j], runs[j]))
      && pushed == Flat(chunks) + buffer
    }

    method Push(value: T)
      requires Valid() && !finished
      modifies this
      ensures Valid() && !finished && pushed == old(pushed) + [value]
    {
      hide Consistent, IsStableSort, Flat;
      var bytes := size(value) + 64;
      if |buffer| > 0 && bufferBytes + bytes > memoryBytes {
        SpillBuffer();
      }
      Associative(Flat(chunks), buffer, [value]);
      buffer := buffer + [value];
      bufferBytes := bufferBytes + bytes;
      pushed := pushed + [value];
      if bufferBytes > memoryBytes {
        SpillBuffer();
      }
    }

    method SpillBuffer()
      requires Valid()
      modifies this`buffer, this`runs, this`bufferBytes, this`chunks
      ensures Valid() && buffer == [] && |runs| == |old(runs)| + 1
    {
      hide Consistent, IsStableSort, Flat, Class;
      StableSortIs(compare, buffer);
      FlatAppend(chunks, [buffer]);
      FlatOne(buffer);
      runs, chunks := runs + [StableSort(compare, buffer)], chunks + [buffer];
      buffer, bufferBytes := [], 0;
      assert Flat(chunks) + buffer == Flat(chunks);
    }

    method Finish() returns (output: seq<T>)
      requires Valid() && !finished
      modifies this
      ensures finished && output == StableSort(compare, old(pushed))
    {
      finished := true;
      if |runs| == 0 {
        output := StableSort(compare, buffer);
        assert Flat(chunks) + buffer == buffer;
        buffer, bufferBytes := [], 0;
        return;
      }
      if |buffer| > 0 {
        SpillBuffer();
      }
      assert pushed == Flat(chunks);
      output := MergeRuns();
    }

    // The index of the earliest run with the least head, if any run has one left.
    method Select(rests: seq<seq<T>>) returns (selected: int)
      requires Consistent(compare)
      ensures selected == -1 ==> forall j :: 0 <= j < |rests| ==> rests[j] == []
      ensures selected != -1 ==> selected >= 0 && Chosen(compare, rests, selected, |rests|)
    {
      selected := -1;
      for index := 0 to |rests|
        invariant selected == -1 ==> forall j :: 0 <= j < index ==> rests[j] == []
        invariant selected != -1 ==> 0 <= selected < index && Chosen(compare, rests, selected, index)
      {
        if rests[index] == [] {
          continue;
        }
        if selected == -1 || compare(rests[index][0], rests[selected][0]) < 0 {
          if selected != -1 {
            ChooseSmaller(compare, rests, selected, index);
          }
          selected := index;
        }
      }
    }

    method MergeRuns() returns (output: seq<T>)
      requires Valid() && buffer == []
      ensures output == StableSort(compare, pushed)
    {
      hide Consistent, Chosen, Class;
      var rests := runs;
      output := [];
      ghost var total := Flat(chunks);
      forall x ensures Class(compare, Flat(runs), x) == Class(compare, total, x) && Class(compare, output, x) == [] {
        ClassEmpty(compare, output, x);
        ClassesSame(compare, runs, chunks, x);
      }
      while true
        invariant Merging(compare, output, rests)
        invariant forall x :: Class(compare, output, x) + Class(compare, Flat(rests), x) == Class(compare, total, x)
        decreases |Flat(rests)|
      {
        var selected := Select(rests);
        if selected == -1 {
          break;
        }
        MergeStep(compare, output, rests, selected, total);
        output, rests := output + [rests[selected][0]], rests[selected := rests[selected][1..]];
      }
      MergeDone(compare, output, rests, total);
      assert Flat(chunks) + buffer == total;
    }
  }

  // Output and rests are sorted, and the output comes first.
  ghost predicate Merging<T>(compare: Comparator<T>, output: seq<T>, rests: seq<seq<T>>) {
    && Sorted(compare, output)
    && (forall j :: 0 <= j < |rests| ==> Sorted(compare, rests[j]))
    && (forall i, j, k :: 0 <= i < |output| && 0 <= j < |rests| && 0 <= k < |rests[j]| ==> compare(output[i], rests[j][k]) <= 0)
  }

  lemma ChooseSmaller<T(!new)>(compare: Comparator<T>, rests: seq<seq<T>>, selected: nat, index: nat)
    requires Consistent(compare) && Chosen(compare, rests, selected, index) && selected < index < |rests| && rests[index] != []
    requires compare(rests[index][0], rests[selected][0]) < 0
    ensures Chosen(compare, rests, index, index + 1)
  {
    forall j | 0 <= j < index && rests[j] != [] ensures compare(rests[index][0], rests[j][0]) < 0 {
      StrictThen(compare, rests[index][0], rests[selected][0], rests[j][0]);
    }
  }

  lemma StrictThen<T(!new)>(compare: Comparator<T>, a: T, b: T, c: T)
    requires Consistent(compare) && compare(a, b) < 0 && compare(b, c) <= 0
    ensures compare(a, c) < 0
  {
    assert compare(b, a) > 0;
    assert compare(a, c) <= 0;
    assert compare(c, a) <= 0 ==> compare(b, a) <= 0;
  }

  lemma MergeStep<T(!new)>(compare: Comparator<T>, output: seq<T>, rests: seq<seq<T>>, selected: nat, total: seq<T>)
    requires Consistent(compare) && Merging(compare, output, rests) && Chosen(compare, rests, selected, |rests|)
    requires forall x :: Class(compare, output, x) + Class(compare, Flat(rests), x) == Class(compare, total, x)
    ensures var output', rests' := output + [rests[selected][0]], rests[selected := rests[selected][1..]];
      && Merging(compare, output', rests')
      && (forall x :: Class(compare, output', x) + Class(compare, Flat(rests'), x) == Class(compare, total, x))
      && |Flat(rests')| < |Flat(rests)|
  {
    var output', rests' := output + [rests[selected][0]], rests[selected := rests[selected][1..]];
    forall x ensures Class(compare, output', x) + Class(compare, Flat(rests'), x) == Class(compare, total, x) {
      TakeChosen(compare, output, rests, selected, x);
    }
    MergingStep(compare, output, rests, selected);
    FlatAround(rests, selected);
    FlatAround(rests', selected);
    assert rests'[..selected] == rests[..selected] && rests'[selected + 1..] == rests[selected + 1..];
  }

  lemma MergingStep<T(!new)>(compare: Comparator<T>, output: seq<T>, rests: seq<seq<T>>, selected: nat)
    requires Consistent(compare) && Merging(compare, output, rests) && Chosen(compare, rests, selected, |rests|)
    ensures Merging(compare, output + [rests[selected][0]], rests[selected := rests[selected][1..]])
  {
    var head := rests[selected][0];
    var rests' := rests[selected := rests[selected][1..]];
    forall j, k | 0 <= j < |rests'| && 0 <= k < |rests'[j]| ensures compare(head, rests'[j][k]) <= 0 {
      var k' := if j == selected then k + 1 else k;
      assert rests'[j][k] == rests[j][k'];
      assert compare(head, rests[j][0]) <= 0;
      assert k' > 0 ==> compare(rests[j][0], rests[j][k']) <= 0;
    }
  }

  lemma MergeDone<T(!new)>(compare: Comparator<T>, output: seq<T>, rests: seq<seq<T>>, total: seq<T>)
    requires Consistent(compare) && Merging(compare, output, rests) && forall j :: 0 <= j < |rests| ==> rests[j] == []
    requires forall x :: Class(compare, output, x) + Class(compare, Flat(rests), x) == Class(compare, total, x)
    ensures output == StableSort(compare, total)
  {
    StableSortIs(compare, total);
    forall x ensures Class(compare, output, x) == Class(compare, StableSort(compare, total), x) {
      ClassesEmpty(compare, rests, x);
      assert Class(compare, output, x) + Class(compare, Flat(rests), x) == Class(compare, total, x);
    }
    StableSortUnique(compare, output, StableSort(compare, total));
  }
}
