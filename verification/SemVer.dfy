/** Precedence of versions as section 11 of Semantic Versioning 2.0.0 defines it. */
module SemVer {

  datatype Identifier = Numeric(n: nat) | Alphanumeric(s: string)

  datatype Version = Version(major: nat, minor: nat, patch: nat, pre: seq<Identifier>, build: string)

  /** -1, 0 or 1 for lower, equal and higher. */
  type Order = x: int | -1 <= x <= 1

  function CompareNat(a: nat, b: nat): Order { if a < b then -1 else if a > b then 1 else 0 }

  function CompareString(a: string, b: string): Order {
    if a == "" && b == "" then 0 else if a == "" then -1 else if b == "" then 1
    else if a[0] < b[0] then -1 else if a[0] > b[0] then 1 else CompareString(a[1..], b[1..])
  }

  function CompareIdentifier(a: Identifier, b: Identifier): Order {
    match (a, b)
    case (Numeric(m), Numeric(n)) => CompareNat(m, n)
    case (Numeric(_), Alphanumeric(_)) => -1
    case (Alphanumeric(_), Numeric(_)) => 1
    case (Alphanumeric(s), Alphanumeric(t)) => CompareString(s, t)
  }

  /** Field by field; when all fields of one are a prefix of the other's, the longer one is higher. */
  function CompareFields(a: seq<Identifier>, b: seq<Identifier>): Order {
    if a == [] && b == [] then 0 else if a == [] then -1 else if b == [] then 1 else
      var c := CompareIdentifier(a[0], b[0]);
      if c != 0 then c else CompareFields(a[1..], b[1..])
  }

  /** A version without pre-release fields is higher than its pre-releases. */
  function ComparePre(a: seq<Identifier>, b: seq<Identifier>): Order {
    if a == [] && b == [] then 0 else if a == [] then 1 else if b == [] then -1 else CompareFields(a, b)
  }

  /** Build metadata does not take part. */
  function Compare(a: Version, b: Version): Order {
    if a.major != b.major then CompareNat(a.major, b.major)
    else if a.minor != b.minor then CompareNat(a.minor, b.minor)
    else if a.patch != b.patch then CompareNat(a.patch, b.patch)
    else ComparePre(a.pre, b.pre)
  }

  predicate Leq(a: Version, b: Version) { Compare(a, b) <= 0 }

  // --- Precedence is a total preorder ---

  lemma {:induction false} StringMirror(a: string, b: string)
    ensures CompareString(b, a) == -CompareString(a, b)
    ensures CompareString(a, b) == 0 ==> a == b
  {
    if a != "" && b != "" {
      StringMirror(a[1..], b[1..]);
      if CompareString(a, b) == 0 {
        assert a == [a[0]] + a[1..] && b == [b[0]] + b[1..];
      }
    }
  }

  lemma {:induction false} StringTransitive(a: string, b: string, c: string)
    requires CompareString(a, b) <= 0 && CompareString(b, c) <= 0
    ensures CompareString(a, c) <= 0
  {
    if a != "" && a[0] == b[0] == c[0] {
      StringTransitive(a[1..], b[1..], c[1..]);
    }
  }

  lemma IdentifierMirror(a: Identifier, b: Identifier)
    ensures CompareIdentifier(b, a) == -CompareIdentifier(a, b)
    ensures CompareIdentifier(a, b) == 0 ==> a == b
  {
    if a.Alphanumeric? && b.Alphanumeric? { StringMirror(a.s, b.s); }
  }

  lemma IdentifierTransitive(a: Identifier, b: Identifier, c: Identifier)
    requires CompareIdentifier(a, b) <= 0 && CompareIdentifier(b, c) <= 0
    ensures CompareIdentifier(a, c) <= 0
  {
    if a.Alphanumeric? { StringTransitive(a.s, b.s, c.s); }
  }

  lemma {:induction false} FieldsMirror(a: seq<Identifier>, b: seq<Identifier>)
    ensures CompareFields(b, a) == -CompareFields(a, b)
  {
    if a != [] && b != [] {
      IdentifierMirror(a[0], b[0]);
      FieldsMirror(a[1..], b[1..]);
    }
  }

  lemma {:induction false} FieldsTransitive(a: seq<Identifier>, b: seq<Identifier>, c: seq<Identifier>)
    requires CompareFields(a, b) <= 0 && CompareFields(b, c) <= 0
    ensures CompareFields(a, c) <= 0
  {
    if a != [] {
      IdentifierTransitive(a[0], b[0], c[0]);
      IdentifierMirror(a[0], b[0]);
      IdentifierMirror(b[0], c[0]);
      IdentifierMirror(a[0], c[0]);
      if a[0] == b[0] == c[0] {
        FieldsTransitive(a[1..], b[1..], c[1..]);
      }
      if CompareIdentifier(a[0], c[0]) == 0 {
        IdentifierTransitive(c[0], a[0], b[0]);
      }
    }
  }

  lemma Mirror(a: Version, b: Version)
    ensures Compare(b, a) == -Compare(a, b)
  {
    FieldsMirror(a.pre, b.pre);
  }

  lemma Total(a: Version, b: Version)
    ensures Leq(a, b) || Leq(b, a)
  {
    Mirror(a, b);
  }

  lemma Reflexive(a: Version)
    ensures Leq(a, a)
  {
    Mirror(a, a);
  }

  lemma Transitive(a: Version, b: Version, c: Version)
    requires Leq(a, b) && Leq(b, c)
    ensures Leq(a, c)
  {
    if a.pre != [] && b.pre != [] && c.pre != [] && CompareFields(a.pre, b.pre) <= 0 && CompareFields(b.pre, c.pre) <= 0 {
      FieldsTransitive(a.pre, b.pre, c.pre);
    }
  }

  // --- Section 11, clause by clause ---

  /** `a` is lower than `b`. */
  predicate Below(a: Version, b: Version) { !Leq(b, a) }

  /** The first difference among major, minor and patch decides, whatever follows. */
  lemma CoreDecides(a: Version, b: Version)
    ensures a.major < b.major ==> Below(a, b)
    ensures a.major == b.major && a.minor < b.minor ==> Below(a, b)
    ensures a.major == b.major && a.minor == b.minor && a.patch < b.patch ==> Below(a, b)
  {}

  ghost predicate SameCore(a: Version, b: Version) { a.major == b.major && a.minor == b.minor && a.patch == b.patch }

  /** A release is higher than each of its pre-releases, and build metadata is ignored. */
  lemma ReleaseIsHighest(a: Version, b: Version)
    requires SameCore(a, b)
    ensures a.pre != [] && b.pre == [] ==> Below(a, b)
    ensures a.pre == b.pre ==> Leq(a, b) && Leq(b, a)
  {
    Reflexive(a);
  }

  lemma {:induction false} CommonFieldsCancel(p: seq<Identifier>, x: seq<Identifier>, y: seq<Identifier>)
    ensures CompareFields(p + x, p + y) == CompareFields(x, y)
  {
    if p == [] {
      assert p + x == x && p + y == y;
    } else {
      IdentifierMirror(p[0], p[0]);
      assert (p + x)[1..] == p[1..] + x && (p + y)[1..] == p[1..] + y;
      CommonFieldsCancel(p[1..], x, y);
    }
  }

  /** Pre-release fields that continue all fields of the other version make a version higher. */
  lemma LongerIsHigher(a: Version, b: Version, more: seq<Identifier>)
    requires SameCore(a, b) && a.pre != [] && more != [] && b.pre == a.pre + more
    ensures Below(a, b)
  {
    assert a.pre + [] == a.pre;
    CommonFieldsCancel(a.pre, more, []);
  }

  lemma {:induction false} CommonLettersCancel(q: string, s: string, t: string)
    ensures CompareString(q + s, q + t) == CompareString(s, t)
  {
    if q == "" {
      assert q + s == s && q + t == t;
    } else {
      assert (q + s)[1..] == q[1..] + s && (q + t)[1..] == q[1..] + t;
      CommonLettersCancel(q[1..], s, t);
    }
  }

  /** Numbers by value and below words; words letter by letter in ASCII order, a prefix below what continues it. */
  lemma IdentifierOrder(m: nat, n: nat, q: string, c: char, d: char, s: string, t: string)
    ensures m < n ==> CompareIdentifier(Numeric(m), Numeric(n)) < 0
    ensures CompareIdentifier(Numeric(m), Alphanumeric(s)) < 0
    ensures c < d ==> CompareIdentifier(Alphanumeric(q + ([c] + s)), Alphanumeric(q + ([d] + t))) < 0
    ensures CompareIdentifier(Alphanumeric(q), Alphanumeric(q + ([c] + s))) < 0
  {
    CommonLettersCancel(q, [c] + s, [d] + t);
    CommonLettersCancel(q, "", [c] + s);
    assert q + "" == q;
  }

  /** The first difference among the pre-release fields decides, whatever follows. */
  lemma FirstFieldDecides(a: Version, b: Version, p: seq<Identifier>, x: Identifier, y: Identifier,
                          s: seq<Identifier>, t: seq<Identifier>)
    requires SameCore(a, b) && a.pre == p + ([x] + s) && b.pre == p + ([y] + t) && CompareIdentifier(x, y) < 0
    ensures Below(a, b)
  {
    CommonFieldsCancel(p, [y] + t, [x] + s);
    IdentifierMirror(x, y);
  }
}
