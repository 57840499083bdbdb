/** Byte strings as Go compares and sorts them, and their hexadecimal form. */
module Bytes {
  type byte = x: int | 0 <= x < 256
  type ByteString = seq<byte>

  // --- Lexicographic order (bytes.Compare, and < on Go strings) ---

  predicate LexLeq(a: ByteString, b: ByteString) {
    a == [] || (b != [] && (a[0] < b[0] || (a[0] == b[0] && LexLeq(a[1..], b[1..]))))
  }

  lemma {:induction false} LexReflexive(a: ByteString)
    ensures LexLeq(a, a)
  {
    if a != [] { LexReflexive(a[1..]); }
  }

  lemma {:induction false} LexTotal(a: ByteString, b: ByteString)
    ensures LexLeq(a, b) || LexLeq(b, a)
  {
    if a != [] && b != [] { LexTotal(a[1..], b[1..]); }
  }

  lemma {:induction false} LexAntisymmetric(a: ByteString, b: ByteString)
    requires LexLeq(a, b) && LexLeq(b, a)
    ensures a == b
  {
    if a != [] {
      LexAntisymmetric(a[1..], b[1..]);
      assert a == [a[0]] + a[1..] && b == [b[0]] + b[1..];
    }
  }

  lemma {:induction false} LexTransitive(a: ByteString, b: ByteString, c: ByteString)
    requires LexLeq(a, b) && LexLeq(b, c)
    ensures LexLeq(a, c)
  {
    if a != [] && a[0] == b[0] == c[0] {
      LexTransitive(a[1..], b[1..], c[1..]);
    }
  }

  lemma {:induction false} CommonPrefixCancels(p: ByteString, a: ByteString, b: ByteString)
    ensures LexLeq(p + a, p + b) <==> LexLeq(a, b)
  {
    if p == [] {
      assert p + a == a && p + b == b;
    } else {
      assert (p + a)[1..] == p[1..] + a && (p + b)[1..] == p[1..] + b;
      CommonPrefixCancels(p[1..], a, b);
    }
  }

  /** The first byte that differs decides, and a prefix comes before what continues it. */
  lemma {:induction false} LexMeans(p: ByteString, x: byte, y: byte, a: ByteString, b: ByteString)
    ensures x < y ==> LexLeq(p + ([x] + a), p + ([y] + b)) && !LexLeq(p + ([y] + b), p + ([x] + a))
    ensures LexLeq(p, p + ([x] + a)) && !LexLeq(p + ([x] + a), p)
  {
    CommonPrefixCancels(p, [x] + a, [y] + b);
    CommonPrefixCancels(p, [y] + b, [x] + a);
    CommonPrefixCancels(p, [], [x] + a);
    CommonPrefixCancels(p, [x] + a, []);
    assert p + [] == p;
  }

  // --- Sorting ---

  predicate Sorted(s: seq<ByteString>) {
    forall i, j :: 0 <= i < j < |s| ==> LexLeq(s[i], s[j])
  }

  function Insert(x: ByteString, s: seq<ByteString>): seq<ByteString> {
    if s == [] || LexLeq(x, s[0]) then [x] + s else [s[0]] + Insert(x, s[1..])
  }

  function Sort(s: seq<ByteString>): seq<ByteString> {
    if s == [] then [] else Insert(s[0], Sort(s[1..]))
  }

  lemma {:induction false} InsertSorts(x: ByteString, s: seq<ByteString>)
    requires Sorted(s)
    ensures Sorted(Insert(x, s)) && multiset(Insert(x, s)) == multiset{x} + multiset(s)
  {
    var r := Insert(x, s);
    if s == [] {
    } else if LexLeq(x, s[0]) {
      forall j | 0 <= j < |s| ensures LexLeq(x, s[j]) {
        LexReflexive(s[0]);
        LexTransitive(x, s[0], s[j]);
      }
    } else {
      InsertSorts(x, s[1..]);
      assert s == [s[0]] + s[1..];
      LexTotal(x, s[0]);
      var t := Insert(x, s[1..]);
      forall j | 0 <= j < |t| ensures LexLeq(s[0], t[j]) {
        assert t[j] in multiset(t);
      }
    }
  }

  lemma {:induction false} SortSorts(s: seq<ByteString>)
    ensures Sorted(Sort(s)) && multiset(Sort(s)) == multiset(s)
  {
    if s != [] {
      SortSorts(s[1..]);
      InsertSorts(s[0], Sort(s[1..]));
      assert s == [s[0]] + s[1..];
    }
  }

  lemma {:induction false} SortedHead(s: seq<ByteString>, x: ByteString)
    requires Sorted(s) && x in s
    ensures LexLeq(s[0], x)
  {
    LexReflexive(s[0]);
  }

  lemma SortedHeadsAgree(a: seq<ByteString>, b: seq<ByteString>)
    requires Sorted(a) && Sorted(b) && multiset(a) == multiset(b) && a != []
    ensures b != [] && a[0] == b[0]
  {
    assert a[0] in multiset(a) && a[0] in multiset(b);
    assert b[0] in multiset(b) && b[0] in multiset(a);
    SortedHead(a, b[0]);
    SortedHead(b, a[0]);
    LexAntisymmetric(a[0], b[0]);
  }

  lemma MultisetOfTail(a: seq<ByteString>)
    requires a != []
    ensures multiset(a[1..]) == multiset(a) - multiset{a[0]}
  {
    assert a == [a[0]] + a[1..];
  }

  /** There is only one sorted arrangement, so it does not matter which algorithm sorts. */
  lemma {:induction false} SortedUnique(a: seq<ByteString>, b: seq<ByteString>)
    requires Sorted(a) && Sorted(b) && multiset(a) == multiset(b)
    ensures a == b
  {
    if a != [] {
      SortedHeadsAgree(a, b);
      MultisetOfTail(a);
      MultisetOfTail(b);
      SortedUnique(a[1..], b[1..]);
      assert a == [a[0]] + a[1..] && b == [b[0]] + b[1..];
    } else if b != [] {
      SortedHeadsAgree(b, a);
    }
  }

  // --- Hexadecimal ---

  function HexDigit(d: int): char
    requires 0 <= d < 16
  {
    "0123456789abcdef"[d]
  }

  /** hex.EncodeToString, and the %x verb on a byte slice. */
  function Hex(b: ByteString): (s: string)
    ensures |s| == 2 * |b|
  {
    if b == [] then "" else [HexDigit(b[0] / 16), HexDigit(b[0] % 16)] + Hex(b[1..])
  }

  function DigitValue(c: char): int {
    if '0' <= c <= '9' then c as int - '0' as int else if 'a' <= c <= 'f' then c as int - 'a' as int + 10 else 0
  }

  function Unhex(s: string): seq<int> {
    if |s| < 2 then [] else [16 * DigitValue(s[0]) + DigitValue(s[1])] + Unhex(s[2..])
  }

  predicate IsDigit(c: char) { '0' <= c <= '9' || 'a' <= c <= 'f' }

  lemma DigitFacts(d: int)
    requires 0 <= d < 16
    ensures IsDigit(HexDigit(d)) && DigitValue(HexDigit(d)) == d
  {}

  lemma {:induction false} HexIsDigits(b: ByteString)
    ensures forall c :: c in Hex(b) ==> IsDigit(c)
  {
    if b != [] {
      DigitFacts(b[0] / 16);
      DigitFacts(b[0] % 16);
      HexIsDigits(b[1..]);
    }
  }

  /** Two lower-case digits per byte, the higher half first. */
  lemma {:induction false} UnhexInvertsHex(b: ByteString)
    ensures Unhex(Hex(b)) == b && forall c :: c in Hex(b) ==> IsDigit(c)
  {
    HexIsDigits(b);
    if b != [] {
      DigitFacts(b[0] / 16);
      DigitFacts(b[0] % 16);
      HexOfHead(b);
      UnhexInvertsHex(b[1..]);
      assert b == [b[0]] + b[1..];
    }
  }

  lemma HexDigitInjective(d: int, e: int)
    requires 0 <= d < 16 && 0 <= e < 16 && HexDigit(d) == HexDigit(e)
    ensures d == e
  {
    assert forall i, j :: 0 <= i < j < 16 ==> "0123456789abcdef"[i] < "0123456789abcdef"[j];
  }

  lemma {:induction false} HexInjective(a: ByteString, b: ByteString)
    requires Hex(a) == Hex(b)
    ensures a == b
  {
    if a != [] && b != [] {
      HexOfHead(a);
      HexOfHead(b);
      HexDigitInjective(a[0] / 16, b[0] / 16);
      HexDigitInjective(a[0] % 16, b[0] % 16);
      HexInjective(a[1..], b[1..]);
      assert a == [a[0]] + a[1..] && b == [b[0]] + b[1..];
    }
  }

  lemma {:induction false} HexOfHead(a: ByteString)
    requires a != []
    ensures Hex(a)[0] == HexDigit(a[0] / 16) && Hex(a)[1] == HexDigit(a[0] % 16) && Hex(a)[2..] == Hex(a[1..])
  {}

  // --- Concatenation of equally long blocks ---

  /** bytes.Join with an empty separator. */
  function Concat(s: seq<ByteString>): (r: ByteString)
    ensures s != [] ==> |r| >= |s[0]|
  {
    if s == [] then [] else s[0] + Concat(s[1..])
  }

  /** Blocks of one length can be told apart in their concatenation. */
  lemma {:induction false} ConcatInjective(a: seq<ByteString>, b: seq<ByteString>, n: nat)
    requires n > 0
    requires forall i :: 0 <= i < |a| ==> |a[i]| == n
    requires forall i :: 0 <= i < |b| ==> |b[i]| == n
    requires Concat(a) == Concat(b)
    ensures a == b
  {
    if a != [] && b != [] {
      assert a[0] == Concat(a)[..n] == Concat(b)[..n] == b[0];
      assert Concat(a[1..]) == Concat(a)[n..] == Concat(b)[n..] == Concat(b[1..]);
      ConcatInjective(a[1..], b[1..], n);
      assert a == [a[0]] + a[1..] && b == [b[0]] + b[1..];
    }
  }
}
