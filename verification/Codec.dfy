// The order-preserving key encoding (codec.ts). Numbers are binary64 (IEEE 754-2019, section 3.4),
// strings are UTF-8 (RFC 3629, section 3).
module Codec {
  import Lex

  type Bytes = seq<int>

  datatype Option<+T> = None | Some(value: T)

  // ---------- strings of bytes that differ before either ends ----------

  ghost predicate Diverges(x: Bytes, y: Bytes) {
    exists k: nat :: DivergesAt(x, y, k)
  }

  predicate DivergesAt(x: Bytes, y: Bytes, k: nat) {
    k < |x| && k < |y| && x[..k] == y[..k] && x[k] < y[k]
  }

  lemma {:induction false} CompareAt(x: Bytes, y: Bytes, k: nat, i: nat)
    requires i <= k && DivergesAt(x, y, k)
    ensures Lex.CompareFrom(x, y, i) == -1
    decreases k - i
  {
    if i < k {
      assert x[i] == x[..k][i] && y[i] == y[..k][i];
      CompareAt(x, y, k, i + 1);
    }
  }

  lemma DivergesLess(x: Bytes, y: Bytes)
    requires Diverges(x, y)
    ensures Lex.Less(x, y)
  {
    var k: nat :| DivergesAt(x, y, k);
    CompareAt(x, y, k, 0);
  }

  lemma DivergesAppend(x: Bytes, s: Bytes, y: Bytes, t: Bytes)
    requires Diverges(x, y)
    ensures Diverges(x + s, y + t)
  {
    var k: nat :| DivergesAt(x, y, k);
    assert (x + s)[..k] == x[..k] && (y + t)[..k] == y[..k];
    assert DivergesAt(x + s, y + t, k);
  }

  lemma DivergesPrepend(p: Bytes, x: Bytes, y: Bytes)
    requires Diverges(x, y)
    ensures Diverges(p + x, p + y)
  {
    var k: nat :| DivergesAt(x, y, k);
    assert (p + x)[..|p| + k] == p + x[..k] && (p + y)[..|p| + k] == p + y[..k];
    assert DivergesAt(p + x, p + y, |p| + k);
  }

  lemma DivergesFirst(x: Bytes, y: Bytes)
    requires x != [] && y != [] && x[0] < y[0]
    ensures Diverges(x, y)
  {
    assert x[..0] == y[..0];
    assert DivergesAt(x, y, 0);
  }

  lemma {:induction false} PrefixCompare(x: Bytes, s: Bytes, i: nat)
    requires i <= |x| && s != []
    ensures Lex.CompareFrom(x, x + s, i) == -1
    decreases |x| - i
  {
    if i < |x| {
      PrefixCompare(x, s, i + 1);
    }
  }

  lemma {:induction false} LessCases(a: seq<int>, b: seq<int>, i: nat)
    requires i <= |a| && i <= |b| && a[..i] == b[..i] && Lex.CompareFrom(a, b, i) < 0
    ensures Diverges(a, b) || (|a| < |b| && a == b[..|a|])
    decreases |a| - i
  {
    if i < |a| && i < |b| {
      if a[i] == b[i] {
        assert a[..i + 1] == a[..i] + [a[i]] && b[..i + 1] == b[..i] + [b[i]];
        LessCases(a, b, i + 1);
      } else {
        assert DivergesAt(a, b, i);
      }
    } else {
      assert a[..i] == a;
    }
  }

  // ---------- eight bytes, most significant first ----------

  const TOP := 0x8000_0000_0000_0000

  function Range(width: nat): nat {
    if width == 0 then 1 else 256 * Range(width - 1)
  }

  function BigEndian(n: nat, width: nat): (b: Bytes)
    ensures |b| == width
    ensures forall i :: 0 <= i < width ==> 0 <= b[i] < 256
  {
    if width == 0 then [] else BigEndian(n / 256, width - 1) + [n % 256]
  }

  lemma {:induction false} BigEndianOrder(a: nat, b: nat, width: nat)
    requires a < b < Range(width)
    ensures Diverges(BigEndian(a, width), BigEndian(b, width))
  {
    if a / 256 < b / 256 {
      BigEndianOrder(a / 256, b / 256, width - 1);
      DivergesAppend(BigEndian(a / 256, width - 1), [a % 256], BigEndian(b / 256, width - 1), [b % 256]);
    } else {
      assert a / 256 == b / 256 && a % 256 < b % 256;
      DivergesFirst([a % 256], [b % 256]);
      DivergesPrepend(BigEndian(a / 256, width - 1), [a % 256], [b % 256]);
    }
  }

  function Complemented(b: Bytes): Bytes {
    seq(|b|, i requires 0 <= i < |b| => 255 - b[i])
  }

  lemma {:induction false} ComplementedBigEndian(n: nat, width: nat)
    requires n < Range(width)
    ensures Complemented(BigEndian(n, width)) == BigEndian(Range(width) - 1 - n, width)
  {
    if width > 0 {
      var m := Range(width) - 1 - n;
      assert m / 256 == Range(width - 1) - 1 - n / 256 && m % 256 == 255 - n % 256;
      ComplementedBigEndian(n / 256, width - 1);
      assert Complemented(BigEndian(n, width)) == Complemented(BigEndian(n / 256, width - 1)) + [255 - n % 256];
    }
  }

  lemma {:induction false} BigEndianFront(n: nat, width: nat)
    requires width > 0 && n < Range(width)
    ensures BigEndian(n, width)[0] == n / Range(width - 1)
    ensures BigEndian(n, width)[1..] == BigEndian(n % Range(width - 1), width - 1)
  {
    if width > 1 {
      var r := Range(width - 2);
      assert Range(width - 1) == 256 * r;
      BigEndianFront(n / 256, width - 1);
      DivideTwice(n, r);
      assert BigEndian(n, width)[1..] == BigEndian(n / 256, width - 1)[1..] + [n % 256];
    } else {
      assert BigEndian(n, width) == [n % 256];
    }
  }

  lemma DivideTwice(n: nat, r: nat)
    requires r > 0
    ensures n / 256 / r == n / (256 * r)
    ensures n % (256 * r) / 256 == n / 256 % r && n % (256 * r) % 256 == n % 256
  {
    var q, s := n / 256 / r, n / 256 % r;
    assert n / 256 == q * r + s;
    assert n == 256 * (q * r + s) + n % 256;
    assert n == (256 * r) * q + (256 * s + n % 256);
    QuotientUnique(n, 256 * r, q, 256 * s + n % 256);
  }

  lemma QuotientUnique(n: nat, d: nat, q: nat, s: nat)
    requires d > 0 && n == d * q + s && s < d
    ensures n / d == q && n % d == s
  {
    var q', s' := n / d, n % d;
    assert d * q' + s' == d * q + s;
    if q < q' {
      Multiple(d, q' - q);
    } else if q' < q {
      Multiple(d, q - q');
    }
  }

  lemma Multiple(d: nat, k: nat)
    requires k >= 1
    ensures d * k >= d
  {
  }

  lemma RangeFacts()
    ensures Range(7) == 0x100_0000_0000_0000 && Range(8) == 2 * TOP
  {
    assert Range(3) == 0x100_0000;
    assert Range(5) == 0x100_0000_0000;
  }

  lemma ToggledParts(n: nat, n': nat)
    requires n < 2 * TOP && n' == if n >= TOP then n - TOP else n + TOP
    ensures Range(8) == 2 * TOP && n' / Range(7) == (if n / Range(7) >= 128 then n / Range(7) - 128 else n / Range(7) + 128)
    ensures n' % Range(7) == n % Range(7)
  {
    RangeFacts();
  }

  // Toggling the sign bit moves a word by half the range.
  lemma ToggledBigEndian(n: nat)
    requires n < 2 * TOP
    ensures Toggled(BigEndian(n, 8)) == BigEndian(if n >= TOP then n - TOP else n + TOP, 8)
  {
    hide BigEndian, Range;
    var n' := if n >= TOP then n - TOP else n + TOP;
    ToggledParts(n, n');
    BigEndianFront(n, 8);
    BigEndianFront(n', 8);
    var b, b' := BigEndian(n, 8), BigEndian(n', 8);
    assert b' == [b'[0]] + b'[1..];
  }

  function Toggled(b: Bytes): Bytes
    requires b != []
  {
    [if b[0] >= 128 then b[0] - 128 else b[0] + 128] + b[1..]
  }

  // ---------- numbers ----------

  // A binary64 datum: its sign, and its exponent and fraction read as one integer.
  datatype Double = Double(negative: bool, magnitude: nat)

  const FRACTION := 0x10_0000_0000_0000
  const INFINITY := 0x7FF0_0000_0000_0000

  predicate Finite(d: Double) {
    d.magnitude < INFINITY
  }

  function Pow2(n: nat): (p: nat)
    ensures p >= 1
  {
    if n == 0 then 1 else 2 * Pow2(n - 1)
  }

  // The absolute value in units of 2 to the power -1074.
  function Scaled(magnitude: nat): nat {
    var exponent, fraction := magnitude / FRACTION, magnitude % FRACTION;
    if exponent == 0 then fraction else (FRACTION + fraction) * Pow2(exponent - 1)
  }

  function NumberValue(d: Double): int {
    var size: int := Scaled(d.magnitude);
    if d.negative then -size else size
  }

  lemma ScaledStep(m: nat)
    ensures Scaled(m) < Scaled(m + 1)
  {
    var e, f := m / FRACTION, m % FRACTION;
    if f + 1 < FRACTION {
      assert (m + 1) / FRACTION == e && (m + 1) % FRACTION == f + 1;
      if e > 0 {
        ScaledNext(FRACTION + f, Pow2(e - 1));
      }
    } else {
      assert (m + 1) / FRACTION == e + 1 && (m + 1) % FRACTION == 0;
      if e > 0 {
        ScaledCarry(f, Pow2(e - 1));
      }
    }
  }

  lemma ScaledNext(n: nat, p: nat)
    requires p >= 1
    ensures n * p < (n + 1) * p
  {
  }

  lemma ScaledCarry(f: nat, p: nat)
    requires p >= 1 && f + 1 == FRACTION
    ensures (FRACTION + f) * p < FRACTION * (2 * p)
  {
    assert FRACTION * (2 * p) == (FRACTION + f + 1) * p;
  }

  lemma {:induction false} ScaledOrder(m: nat, n: nat)
    requires m < n
    ensures Scaled(m) < Scaled(n)
    decreases n - m
  {
    ScaledStep(m);
    if m + 1 < n {
      ScaledOrder(m + 1, n);
    }
  }

  // The word whose unsigned order is the order of numbers; -0 is stored as 0.
  function NumberWord(d: Double): nat
    requires Finite(d)
  {
    if d.negative && d.magnitude > 0 then TOP - 1 - d.magnitude else TOP + d.magnitude
  }

  lemma NumberWordOrder(a: Double, b: Double)
    requires Finite(a) && Finite(b)
    ensures NumberValue(a) < NumberValue(b) <==> NumberWord(a) < NumberWord(b)
  {
    assert Scaled(0) == 0;
    if a.magnitude < b.magnitude {
      ScaledOrder(a.magnitude, b.magnitude);
    }
    if b.magnitude < a.magnitude {
      ScaledOrder(b.magnitude, a.magnitude);
    }
    if a.magnitude > 0 {
      ScaledOrder(0, a.magnitude);
    }
    if b.magnitude > 0 {
      ScaledOrder(0, b.magnitude);
    }
  }

  // The eight bytes of the datum, before they are made comparable.
  function DoubleBytes(d: Double): Bytes {
    BigEndian((if d.negative then TOP else 0) + d.magnitude, 8)
  }

  function NumberBytes(d: Double): Bytes
    requires Finite(d)
  {
    BigEndian(NumberWord(d), 8)
  }

  method FillArray(source: Bytes) returns (bytes: array<int>)
    ensures fresh(bytes) && bytes[..] == source
  {
    bytes := new int[|source|](i requires 0 <= i < |source| => source[i]);
  }

  /** Flipping the bytes in place gives the comparable word. */
  method EncodeNumber(d: Double) returns (r: Option<Bytes>)
    ensures r == if Finite(d) then Some(NumberBytes(d)) else None
  {
    if !Finite(d) {
      return None;
    }
    var stored := if d == Double(true, 0) then Double(false, 0) else d;
    var bytes := FillArray(DoubleBytes(stored));
    ghost var was := DoubleBytes(stored);
    SignByte(stored);
    if bytes[0] >= 128 {
      for i := 0 to bytes.Length
        invariant bytes.Length == 8 && |was| == 8
        invariant forall k :: 0 <= k < i ==> bytes[k] == 255 - was[k]
        invariant forall k :: i <= k < 8 ==> bytes[k] == was[k]
      {
        bytes[i] := 255 - bytes[i];
      }
      RangeFacts();
      ComplementedBigEndian(TOP + stored.magnitude, 8);
      assert bytes[..] == Complemented(was);
    } else {
      bytes[0] := bytes[0] + 128;
      ToggledBigEndian(stored.magnitude);
      assert bytes[..] == Toggled(was);
    }
    r := Some(bytes[..]);
  }

  lemma SignByte(d: Double)
    requires Finite(d)
    ensures DoubleBytes(d)[0] >= 128 <==> d.negative
  {
    RangeFacts();
    BigEndianFront((if d.negative then TOP else 0) + d.magnitude, 8);
  }

  // ---------- dates ----------

  const MAX_TIME := 8_640_000_000_000_000

  predicate ValidTime(time: int) {
    -MAX_TIME <= time <= MAX_TIME
  }

  // Two's complement with its sign bit toggled.
  function DateBytes(time: int): Bytes
    requires ValidTime(time)
  {
    BigEndian(time + TOP, 8)
  }

  method EncodeDate(time: int) returns (r: Option<Bytes>)
    ensures r == if ValidTime(time) then Some(DateBytes(time)) else None
  {
    if !ValidTime(time) {
      return None;
    }
    var word: nat := if time < 0 then time + 2 * TOP else time;
    var bytes := FillArray(BigEndian(word, 8));
    ghost var was := BigEndian(word, 8);
    bytes[0] := if bytes[0] >= 128 then bytes[0] - 128 else bytes[0] + 128;
    ToggledBigEndian(word);
    assert bytes[..] == Toggled(was);
    r := Some(bytes[..]);
  }

  // ---------- text ----------

  predicate IsScalarValue(c: int) {
    0 <= c < 0xD800 || 0xE000 <= c < 0x11_0000
  }

  predicate IsText(s: seq<int>) {
    forall i :: 0 <= i < |s| ==> IsScalarValue(s[i])
  }

  function Utf8(c: int): Bytes
    requires IsScalarValue(c)
  {
    if c < 0x80 then [c]
    else if c < 0x800 then [0xC0 + c / 64, 0x80 + c % 64]
    else if c < 0x1_0000 then [0xE0 + c / 4096, 0x80 + c / 64 % 64, 0x80 + c % 64]
    else [0xF0 + c / 262144, 0x80 + c / 4096 % 64, 0x80 + c / 64 % 64, 0x80 + c % 64]
  }

  /** The leading byte says how many bytes follow, and the bytes hold the character's bits, six to each that follows. */
  lemma Utf8Means(c: int)
    requires IsScalarValue(c)
    ensures forall i :: 1 <= i < |Utf8(c)| ==> 0x80 <= Utf8(c)[i] < 0xC0
    ensures var b := Utf8(c);
      || (|b| == 1 && c < 0x80 && c == b[0])
      || (|b| == 2 && 0x80 <= c < 0x800 && c == (b[0] - 0xC0) * 64 + b[1] - 0x80)
      || (|b| == 3 && 0x800 <= c < 0x1_0000 && c == (b[0] - 0xE0) * 4096 + (b[1] - 0x80) * 64 + b[2] - 0x80)
      || (|b| == 4 && 0x1_0000 <= c && c == (b[0] - 0xF0) * 262144 + (b[1] - 0x80) * 4096 + (b[2] - 0x80) * 64 + b[3] - 0x80)
  {
    assert c / 4096 == c / 64 / 64 && c / 262144 == c / 4096 / 64;
  }

  function Utf8All(s: seq<int>): Bytes
    requires IsText(s)
  {
    if s == [] then [] else Utf8(s[0]) + Utf8All(s[1..])
  }

  function Escaped(b: Bytes): Bytes {
    if b == [] then [] else (if b[0] == 0 then [0, 0xFF] else [b[0]]) + Escaped(b[1..])
  }

  function StringBytes(s: seq<int>): Bytes
    requires IsText(s)
  {
    Escaped(Utf8All(s)) + [0, 0]
  }

  // A UTF-16 code unit; text is any sequence of them, with or without lone surrogates.
  type Unit = c: int | 0 <= c < 0x1_0000

  predicate Leads(c: Unit) {
    0xD800 <= c < 0xDC00
  }

  predicate Trails(c: Unit) {
    0xDC00 <= c < 0xE000
  }

  // Surrogate pairs are joined; a lone surrogate becomes the replacement character.
  function Points(units: seq<Unit>): (s: seq<int>)
    ensures IsText(s)
  {
    if units == [] then []
    else if Leads(units[0]) && |units| > 1 && Trails(units[1]) then
      [0x1_0000 + 0x400 * (units[0] - 0xD800) + units[1] - 0xDC00] + Points(units[2..])
    else [if Leads(units[0]) || Trails(units[0]) then 0xFFFD else units[0]] + Points(units[1..])
  }

  method EncodeString(units: seq<Unit>) returns (output: Bytes)
    ensures output == StringBytes(Points(units))
  {
    hide Points, Utf8All;
    var input := Utf8All(Points(units));
    output := [];
    for i := 0 to |input|
      invariant output + Escaped(input[i..]) == Escaped(input)
    {
      assert input[i..][1..] == input[i + 1..];
      if input[i] == 0 {
        output := output + [0, 0xFF];
      } else {
        output := output + [input[i]];
      }
    }
    output := output + [0, 0];
  }

  // One character, escaped.
  function Point(c: int): Bytes
    requires IsScalarValue(c)
  {
    if c == 0 then [0, 0xFF] else Utf8(c)
  }

  lemma EscapedPoint(c: int, rest: Bytes)
    requires IsScalarValue(c)
    ensures Escaped(Utf8(c) + rest) == Point(c) + Escaped(rest)
  {
    if c == 0 {
      assert ([0] + rest)[1..] == rest;
    } else {
      EscapedPlain(Utf8(c), rest);
    }
  }

  lemma {:induction false} EscapedPlain(plain: Bytes, rest: Bytes)
    requires forall i :: 0 <= i < |plain| ==> plain[i] != 0
    ensures Escaped(plain + rest) == plain + Escaped(rest)
  {
    if plain == [] {
      assert plain + rest == rest;
    } else {
      assert (plain + rest)[1..] == plain[1..] + rest;
      EscapedPlain(plain[1..], rest);
    }
  }

  lemma StringStep(c: int, s: seq<int>)
    requires IsScalarValue(c) && IsText(s)
    ensures IsText([c] + s) && StringBytes([c] + s) == Point(c) + StringBytes(s)
  {
    assert ([c] + s)[1..] == s;
    EscapedPoint(c, Utf8All(s));
  }

  // Byte strings of one length, compared at their first differing byte.
  lemma FirstDifference(x: Bytes, y: Bytes, k: nat)
    requires k < |x| && k < |y| && x[k] < y[k] && forall i :: 0 <= i < k ==> x[i] == y[i]
    ensures Diverges(x, y)
  {
    assert x[..k] == y[..k];
    assert DivergesAt(x, y, k);
  }

  lemma TwoBytes(a: int, b: int)
    requires 0x80 <= a < b < 0x800
    ensures Diverges(Utf8(a), Utf8(b))
  {
    FirstDifference(Utf8(a), Utf8(b), if a / 64 < b / 64 then 0 else 1);
  }

  lemma ThreeBytes(a: int, b: int)
    requires 0x800 <= a < b < 0x1_0000 && IsScalarValue(a) && IsScalarValue(b)
    ensures Diverges(Utf8(a), Utf8(b))
  {
    assert a / 4096 == a / 64 / 64 && b / 4096 == b / 64 / 64;
    FirstDifference(Utf8(a), Utf8(b), if a / 4096 < b / 4096 then 0 else if a / 64 < b / 64 then 1 else 2);
  }

  lemma FourBytes(a: int, b: int)
    requires 0x1_0000 <= a < b < 0x11_0000
    ensures Diverges(Utf8(a), Utf8(b))
  {
    assert a / 262144 == a / 4096 / 64 && b / 262144 == b / 4096 / 64;
    assert a / 4096 == a / 64 / 64 && b / 4096 == b / 64 / 64;
    FirstDifference(Utf8(a), Utf8(b),
      if a / 262144 < b / 262144 then 0 else if a / 4096 < b / 4096 then 1 else if a / 64 < b / 64 then 2 else 3);
  }

  /** UTF-8 keeps the order of code points, and no character's bytes begin another's. */
  lemma PointOrder(a: int, b: int)
    requires IsScalarValue(a) && IsScalarValue(b) && a < b
    ensures Diverges(Point(a), Point(b))
  {
    if 0x80 <= a && b < 0x800 {
      TwoBytes(a, b);
    } else if 0x800 <= a && b < 0x1_0000 {
      ThreeBytes(a, b);
    } else if 0x1_0000 <= a {
      FourBytes(a, b);
    } else {
      DivergesFirst(Point(a), Point(b));
    }
  }

  lemma TerminatorOrder(c: int)
    requires IsScalarValue(c)
    ensures Diverges([0, 0], Point(c))
  {
    if c == 0 {
      assert DivergesAt([0, 0], Point(c), 1);
    } else {
      DivergesFirst([0, 0], Point(c));
    }
  }

  lemma {:induction false} StringOrder(a: seq<int>, b: seq<int>)
    requires IsText(a) && IsText(b) && (Diverges(a, b) || (|a| < |b| && a == b[..|a|]))
    ensures Diverges(StringBytes(a), StringBytes(b))
  {
    hide StringBytes;
    assert b == [b[0]] + b[1..];
    StringStep(b[0], b[1..]);
    if a == [] {
      assert StringBytes(a) == [0, 0] + [] by {
        EmptyString();
      }
      TerminatorOrder(b[0]);
      DivergesAppend([0, 0], [], Point(b[0]), StringBytes(b[1..]));
    } else {
      assert a == [a[0]] + a[1..];
      StringStep(a[0], a[1..]);
      if a[0] == b[0] {
        TailCases(a, b);
        StringOrder(a[1..], b[1..]);
        DivergesPrepend(Point(a[0]), StringBytes(a[1..]), StringBytes(b[1..]));
      } else {
        HeadCases(a, b);
        PointOrder(a[0], b[0]);
        DivergesAppend(Point(a[0]), StringBytes(a[1..]), Point(b[0]), StringBytes(b[1..]));
      }
    }
  }

  lemma EmptyString()
    ensures StringBytes([]) == [0, 0]
  {
  }

  lemma TailCases(a: seq<int>, b: seq<int>)
    requires a != [] && b != [] && a[0] == b[0] && (Diverges(a, b) || (|a| < |b| && a == b[..|a|]))
    ensures Diverges(a[1..], b[1..]) || (|a[1..]| < |b[1..]| && a[1..] == b[1..][..|a[1..]|])
  {
    if Diverges(a, b) {
      var k: nat :| DivergesAt(a, b, k);
      assert a[1..][..k - 1] == a[..k][1..] && b[1..][..k - 1] == b[..k][1..];
      assert DivergesAt(a[1..], b[1..], k - 1);
    }
  }

  lemma HeadCases(a: seq<int>, b: seq<int>)
    requires a != [] && b != [] && a[0] != b[0] && (Diverges(a, b) || (|a| < |b| && a == b[..|a|]))
    ensures a[0] < b[0]
  {
    if Diverges(a, b) {
      var k: nat :| DivergesAt(a, b, k);
      assert k == 0 || a[..k][0] == b[..k][0];
    }
  }

  // ---------- keys ----------

  datatype Part =
    | Null
    | Bool(b: bool)
    | Number(d: Double)
    | Date(time: int)
    | Text(units: seq<Unit>)
    | Unsupported

  type Key = seq<Part>

  predicate Encodable(p: Part) {
    match p
    case Number(d) => Finite(d)
    case Date(time) => ValidTime(time)
    case Unsupported => false
    case _ => true
  }

  predicate EncodableKey(k: Key) {
    forall i :: 0 <= i < |k| ==> Encodable(k[i])
  }

  function Tag(p: Part): int {
    match p
    case Null => 0x10
    case Bool(b) => if b then 0x21 else 0x20
    case Number(_) => 0x30
    case Date(_) => 0x40
    case Text(_) => 0x50
    case Unsupported => 0
  }

  function Body(p: Part): Bytes
    requires Encodable(p)
  {
    match p
    case Number(d) => NumberBytes(d)
    case Date(time) => DateBytes(time)
    case Text(units) => StringBytes(Points(units))
    case _ => []
  }

  function PartBytes(p: Part): Bytes
    requires Encodable(p)
  {
    [Tag(p)] + Body(p)
  }

  function KeyBytes(k: Key): Bytes
    requires EncodableKey(k)
  {
    if k == [] then [] else PartBytes(k[0]) + KeyBytes(k[1..])
  }

  // null, then false and true, then numbers, dates and strings by code point.
  predicate PartLess(p: Part, q: Part) {
    if p.Number? && q.Number? then NumberValue(p.d) < NumberValue(q.d)
    else if p.Date? && q.Date? then p.time < q.time
    else if p.Text? && q.Text? then Lex.Less(Points(p.units), Points(q.units))
    else Tag(p) < Tag(q)
  }

  // Equal, counting -0 and 0 as one number and lone surrogates as one character.
  predicate SamePart(p: Part, q: Part) {
    || p == q
    || (p.Number? && q.Number? && NumberValue(p.d) == NumberValue(q.d))
    || (p.Text? && q.Text? && Points(p.units) == Points(q.units))
  }

  predicate KeyLess(a: Key, b: Key) {
    if a == [] then b != []
    else b != [] && (PartLess(a[0], b[0]) || (SamePart(a[0], b[0]) && KeyLess(a[1..], b[1..])))
  }

  predicate SameKey(a: Key, b: Key) {
    |a| == |b| && forall i :: 0 <= i < |a| ==> SamePart(a[i], b[i])
  }

  // Element by element, p begins k.
  predicate BeginsKey(p: Key, k: Key) {
    |p| <= |k| && SameKey(p, k[..|p|])
  }

  lemma PartOrder(p: Part, q: Part)
    requires Encodable(p) && Encodable(q) && PartLess(p, q)
    ensures Diverges(PartBytes(p), PartBytes(q))
  {
    hide NumberValue, StringBytes, IsText, Lex.Less, BigEndian, NumberWord;
    if Tag(p) < Tag(q) {
      DivergesFirst(PartBytes(p), PartBytes(q));
    } else {
      BodyOrder(p, q);
      DivergesPrepend([Tag(p)], Body(p), Body(q));
    }
  }

  lemma BodyOrder(p: Part, q: Part)
    requires Encodable(p) && Encodable(q) && PartLess(p, q) && Tag(p) >= Tag(q)
    ensures Tag(p) == Tag(q) && Diverges(Body(p), Body(q))
  {
    hide StringBytes, BigEndian, NumberWord, NumberValue, Lex.Less, Diverges;
    match p
    case Number(d) =>
      NumberWordOrder(d, q.d);
      WordRange(d);
      WordRange(q.d);
      BigEndianOrder(NumberWord(d), NumberWord(q.d), 8);
    case Date(time) =>
      RangeFacts();
      BigEndianOrder(time + TOP, q.time + TOP, 8);
    case Text(units) =>
      TextOrder(Points(units), Points(q.units));
  }

  lemma WordRange(d: Double)
    requires Finite(d)
    ensures NumberWord(d) < Range(8)
  {
    RangeFacts();
  }

  lemma TextOrder(a: seq<int>, b: seq<int>)
    requires IsText(a) && IsText(b) && Lex.Less(a, b)
    ensures Diverges(StringBytes(a), StringBytes(b))
  {
    LessCases(a, b, 0);
    StringOrder(a, b);
  }

  lemma SamePartBytes(p: Part, q: Part)
    requires Encodable(p) && Encodable(q) && SamePart(p, q)
    ensures PartBytes(p) == PartBytes(q)
  {
    if p.Number? {
      NumberWordOrder(p.d, q.d);
      NumberWordOrder(q.d, p.d);
    }
  }

  lemma PartsCompare(p: Part, q: Part)
    ensures PartLess(p, q) || SamePart(p, q) || PartLess(q, p)
    ensures PartLess(p, q) ==> !SamePart(p, q) && !PartLess(q, p)
  {
    Lex.StrictTotalOrder();
  }

  // Neither key begins the other, and a is the smaller where they part.
  predicate KeyDiverges(a: Key, b: Key) {
    a != [] && b != [] && (PartLess(a[0], b[0]) || (SamePart(a[0], b[0]) && KeyDiverges(a[1..], b[1..])))
  }

  lemma {:induction false} KeyCases(a: Key, b: Key)
    ensures KeyDiverges(a, b) || KeyDiverges(b, a) || BeginsKey(a, b) || BeginsKey(b, a)
    ensures KeyLess(a, b) <==> KeyDiverges(a, b) || (BeginsKey(a, b) && |a| < |b|)
    ensures KeyDiverges(a, b) ==> !KeyDiverges(b, a) && !BeginsKey(a, b) && !BeginsKey(b, a)
  {
    hide PartLess, SamePart;
    if a != [] && b != [] {
      PartsCompare(a[0], b[0]);
      PartsCompare(b[0], a[0]);
      SameSwaps(a[0], b[0]);
      KeyCases(a[1..], b[1..]);
      BeginsStep(a, b);
      BeginsStep(b, a);
    }
  }

  lemma SameSwaps(p: Part, q: Part)
    ensures SamePart(p, q) <==> SamePart(q, p)
  {
  }

  lemma BeginsStep(a: Key, b: Key)
    requires a != [] && b != []
    ensures BeginsKey(a, b) <==> SamePart(a[0], b[0]) && BeginsKey(a[1..], b[1..])
  {
    hide SamePart;
    if |a| <= |b| {
      if SamePart(a[0], b[0]) && BeginsKey(a[1..], b[1..]) {
        forall i | 0 <= i < |a| ensures SamePart(a[i], b[..|a|][i]) {
          if i > 0 {
            assert SamePart(a[1..][i - 1], b[1..][..|a[1..]|][i - 1]);
          }
        }
      }
      if BeginsKey(a, b) {
        assert SamePart(a[0], b[..|a|][0]);
        forall i | 0 <= i < |a[1..]| ensures SamePart(a[1..][i], b[1..][..|a[1..]|][i]) {
          assert SamePart(a[i + 1], b[..|a|][i + 1]);
        }
      }
    }
  }

  lemma {:induction false} DivergingKeys(a: Key, b: Key)
    requires EncodableKey(a) && EncodableKey(b) && KeyDiverges(a, b)
    ensures Diverges(KeyBytes(a), KeyBytes(b))
  {
    hide PartLess, SamePart, PartBytes, Encodable;
    if PartLess(a[0], b[0]) {
      PartOrder(a[0], b[0]);
      DivergesAppend(PartBytes(a[0]), KeyBytes(a[1..]), PartBytes(b[0]), KeyBytes(b[1..]));
    } else {
      SamePartBytes(a[0], b[0]);
      DivergingKeys(a[1..], b[1..]);
      DivergesPrepend(PartBytes(a[0]), KeyBytes(a[1..]), KeyBytes(b[1..]));
    }
  }

  lemma {:induction false} BeginningKeys(p: Key, k: Key)
    requires EncodableKey(p) && EncodableKey(k) && BeginsKey(p, k)
    ensures KeyBytes(k) == KeyBytes(p) + KeyBytes(k[|p|..])
  {
    hide SamePart, PartBytes, Encodable;
    if p == [] {
      assert k[0..] == k;
    } else {
      BeginsStep(p, k);
      SamePartBytes(p[0], k[0]);
      BeginningKeys(p[1..], k[1..]);
      assert k[1..][|p[1..]|..] == k[|p|..];
    }
  }

  lemma KeyFirst(k: Key)
    requires EncodableKey(k)
    ensures k == [] <==> KeyBytes(k) == []
    ensures k != [] ==> 0x10 <= KeyBytes(k)[0] <= 0x50
  {
    if k != [] {
      assert Encodable(k[0]);
    }
  }

  lemma BeginningIsSmaller(p: Key, k: Key)
    requires EncodableKey(p) && EncodableKey(k) && BeginsKey(p, k)
    ensures |p| < |k| ==> Lex.Less(KeyBytes(p), KeyBytes(k))
    ensures |p| == |k| ==> KeyBytes(p) == KeyBytes(k)
  {
    BeginningKeys(p, k);
    KeyFirst(k[|p|..]);
    if |p| < |k| {
      PrefixCompare(KeyBytes(p), KeyBytes(k[|p|..]), 0);
    }
  }

  // The order of two encodings.
  lemma KeysCompare(a: Key, b: Key)
    requires EncodableKey(a) && EncodableKey(b)
    ensures KeyLess(a, b) ==> Lex.Less(KeyBytes(a), KeyBytes(b))
    ensures SameKey(a, b) <==> !KeyLess(a, b) && !KeyLess(b, a)
    ensures SameKey(a, b) ==> KeyBytes(a) == KeyBytes(b)
  {
    hide KeyLess, KeyDiverges, Lex.Less, SamePart, KeyBytes;
    KeyCases(a, b);
    KeyCases(b, a);
    if KeyDiverges(a, b) {
      DivergingKeys(a, b);
      DivergesLess(KeyBytes(a), KeyBytes(b));
    }
    assert |a| == |b| ==> b[..|a|] == b && a[..|b|] == a;
    if BeginsKey(a, b) {
      BeginningIsSmaller(a, b);
    }
    forall i | 0 <= i < |a| && i < |b| ensures SamePart(a[i], b[i]) <==> SamePart(b[i], a[i]) {
      SameSwaps(a[i], b[i]);
    }
  }

  /** The order of encoded keys is the order of keys. */
  lemma OrderPreserved(a: Key, b: Key)
    requires EncodableKey(a) && EncodableKey(b)
    ensures Lex.Less(KeyBytes(a), KeyBytes(b)) <==> KeyLess(a, b)
  {
    hide KeyLess, KeyBytes, SameKey, EncodableKey;
    KeysCompare(a, b);
    KeysCompare(b, a);
    Lex.StrictTotalOrder();
  }

  /** Only equal keys share an encoding. */
  lemma EncodingInjective(a: Key, b: Key)
    requires EncodableKey(a) && EncodableKey(b)
    ensures KeyBytes(a) == KeyBytes(b) <==> SameKey(a, b)
  {
    hide KeyLess, KeyBytes, SameKey, EncodableKey;
    KeysCompare(a, b);
    KeysCompare(b, a);
    Lex.StrictTotalOrder();
  }

  function KeyPrefixUpperBound(prefix: Bytes): Bytes {
    prefix + [0xFF]
  }

  /** Between a prefix's encoding and its upper bound lie exactly the keys that begin with it. */
  lemma PrefixRange(p: Key, k: Key)
    requires EncodableKey(p) && EncodableKey(k)
    ensures !Lex.Less(KeyBytes(k), KeyBytes(p)) && Lex.Less(KeyBytes(k), KeyPrefixUpperBound(KeyBytes(p)))
       <==> BeginsKey(p, k)
  {
    hide KeyDiverges, KeyBytes, EncodableKey, KeyLess, BeginsKey;
    KeyCases(p, k);
    KeyCases(k, p);
    Lex.StrictTotalOrder();
    if BeginsKey(p, k) {
      BelowUpperBound(p, k);
    } else if KeyDiverges(p, k) {
      DivergingKeys(p, k);
      DivergesAppend(KeyBytes(p), [0xFF], KeyBytes(k), []);
      assert KeyBytes(k) + [] == KeyBytes(k);
      DivergesLess(KeyPrefixUpperBound(KeyBytes(p)), KeyBytes(k));
    } else if KeyDiverges(k, p) {
      DivergingKeys(k, p);
      DivergesLess(KeyBytes(k), KeyBytes(p));
    } else {
      ShorterBeginning(k, p);
    }
  }

  lemma ShorterBeginning(k: Key, p: Key)
    requires EncodableKey(p) && EncodableKey(k) && BeginsKey(k, p) && !BeginsKey(p, k)
    ensures Lex.Less(KeyBytes(k), KeyBytes(p))
  {
    hide SamePart, KeyBytes, Lex.Less;
    if |k| == |p| {
      assert p[..|k|] == p && k[..|p|] == k;
      forall i | 0 <= i < |p| ensures SamePart(p[i], k[i]) {
        SameSwaps(p[i], k[i]);
      }
    }
    BeginningIsSmaller(k, p);
  }

  lemma BelowUpperBound(p: Key, k: Key)
    requires EncodableKey(p) && EncodableKey(k) && BeginsKey(p, k)
    ensures !Lex.Less(KeyBytes(k), KeyBytes(p)) && Lex.Less(KeyBytes(k), KeyPrefixUpperBound(KeyBytes(p)))
  {
    hide SamePart, KeyBytes, Lex.Less, BeginsKey;
    BeginningKeys(p, k);
    BeginningIsSmaller(p, k);
    Longer(p, k);
    KeyFirst(k[|p|..]);
    Lex.StrictTotalOrder();
    var rest := KeyBytes(k[|p|..]);
    if rest == [] {
      assert KeyBytes(k) == KeyBytes(p);
      PrefixIsLess(KeyBytes(p), [0xFF]);
    } else {
      DivergesFirst(rest, [0xFF]);
      DivergesPrepend(KeyBytes(p), rest, [0xFF]);
      DivergesLess(KeyBytes(k), KeyPrefixUpperBound(KeyBytes(p)));
    }
  }

  lemma Longer(p: Key, k: Key)
    requires BeginsKey(p, k)
    ensures |p| <= |k|
  {
  }

  lemma PrefixIsLess(x: Bytes, s: Bytes)
    requires s != []
    ensures Lex.Less(x, x + s)
  {
    PrefixCompare(x, s, 0);
  }

  /** The encoder: the bytes of every part, or an error for a value that cannot be a key. */
  method EncodeOrderedKey(key: Key) returns (r: Option<Bytes>)
    ensures r == if EncodableKey(key) then Some(KeyBytes(key)) else None
  {
    hide PartBytes, Encodable;
    var chunks: Bytes := [];
    assert key[0..] == key;
    for i := 0 to |key|
      invariant forall j :: 0 <= j < i ==> Encodable(key[j])
      invariant EncodableKey(key[i..]) ==> EncodableKey(key) && chunks + KeyBytes(key[i..]) == KeyBytes(key)
    {
      var part := key[i];
      var body := EncodePart(part);
      if body == None {
        return None;
      }
      assert key[i..][0] == part && key[i..][1..] == key[i + 1..];
      chunks := chunks + body.value;
    }
    assert key[|key|..] == [] && chunks + [] == chunks;
    r := Some(chunks);
  }

  method EncodePart(part: Part) returns (r: Option<Bytes>)
    ensures r == if Encodable(part) then Some(PartBytes(part)) else None
  {
    match part
    case Null =>
      r := Some([0x10]);
      assert [0x10] + [] == [0x10];
    case Bool(b) =>
      r := Some([if b then 0x21 else 0x20]);
      assert r.value + [] == r.value;
    case Number(d) =>
      var body := EncodeNumber(d);
      r := if body.Some? then Some([0x30] + body.value) else None;
    case Date(time) =>
      var body := EncodeDate(time);
      r := if body.Some? then Some([0x40] + body.value) else None;
    case Text(units) =>
      var body := EncodeString(units);
      r := Some([0x50] + body);
    case Unsupported => r := None;
  }
}
