/** The textual form of a digest, `algorithm:value[normalisation]`, and the annotations it is spread over. */
module DigestSpec {
  import opened Results

  datatype Spec = Spec(algorithm: string, value: string, normalisation: string)

  predicate IsWord(c: char) { 'a' <= c <= 'z' || 'A' <= c <= 'Z' || '0' <= c <= '9' || c == '_' }
  predicate IsAlgorithm(c: char) { IsWord(c) || c == '-' }
  predicate IsHex(c: char) { 'a' <= c <= 'f' || 'A' <= c <= 'F' || '0' <= c <= '9' }
  predicate IsNormalisation(c: char) { IsWord(c) || c == '/' }

  const DIGITS := "0123456789"
  const LOWER := "abcdefghijklmnopqrstuvwxyz"
  const UPPER := "ABCDEFGHIJKLMNOPQRSTUVWXYZ"

  lemma DigitsListed(c: char)
    ensures c in DIGITS <==> '0' <= c <= '9'
  {
    if '0' <= c <= '9' { assert DIGITS[c as int - '0' as int] == c; }
  }

  lemma LowerListed(c: char)
    ensures c in LOWER <==> 'a' <= c <= 'z'
  {
    if 'a' <= c <= 'z' { assert LOWER[c as int - 'a' as int] == c; }
  }

  lemma UpperListed(c: char)
    ensures c in UPPER <==> 'A' <= c <= 'Z'
  {
    if 'A' <= c <= 'Z' { assert UPPER[c as int - 'A' as int] == c; }
  }

  /** The classes, character by character. */
  lemma Classes(c: char)
    ensures IsHex(c) <==> c in DIGITS || c in LOWER[..6] || c in UPPER[..6]
    ensures IsAlgorithm(c) <==> c in DIGITS || c in LOWER || c in UPPER || c in "_-"
    ensures IsNormalisation(c) <==> c in DIGITS || c in LOWER || c in UPPER || c in "_/"
  {
    DigitsListed(c);
    LowerListed(c);
    UpperListed(c);
    FirstSix(c);
  }

  lemma FirstSix(c: char)
    ensures c in LOWER[..6] <==> 'a' <= c <= 'f'
    ensures c in UPPER[..6] <==> 'A' <= c <= 'F'
  {
    assert LOWER[..6] == "abcdef" && UPPER[..6] == "ABCDEF";
  }

  predicate All(s: string, class_: char -> bool) { forall i :: 0 <= i < |s| ==> class_(s[i]) }

  /** Each field is nonempty and made of the characters of its class. */
  predicate ValidSpec(d: Spec) {
    && d.algorithm != "" && All(d.algorithm, IsAlgorithm)
    && d.value != "" && All(d.value, IsHex)
    && d.normalisation != "" && All(d.normalisation, IsNormalisation)
  }

  function Print(d: Spec): string { d.algorithm + ":" + d.value + "[" + d.normalisation + "]" }

  /** The length of the longest prefix of characters of a class. */
  function Span(s: string, class_: char -> bool): (n: nat)
    ensures n <= |s| && All(s[..n], class_)
    ensures n < |s| ==> !class_(s[n])
  {
    if s == "" || !class_(s[0]) then 0 else 1 + Span(s[1..], class_)
  }

  /** A nonempty field of a class and what follows the delimiter after it. */
  function Field(s: string, class_: char -> bool, delimiter: char): Option<(string, string)> {
    var n := Span(s, class_);
    if 0 < n < |s| && s[n] == delimiter then Some((s[..n], s[n + 1..])) else None
  }

  function Parse(s: string): Option<Spec> {
    var algorithm := Field(s, IsAlgorithm, ':');
    if algorithm.None? then None else
      var value := Field(algorithm.value.1, IsHex, '[');
      if value.None? then None else
        var normalisation := Field(value.value.1, IsNormalisation, ']');
        if normalisation.None? || normalisation.value.1 != "" then None else
          Some(Spec(algorithm.value.0, value.value.0, normalisation.value.0))
  }

  /** A field ends at its delimiter, and nowhere else, as the delimiter is not of its class. */
  lemma {:induction false} FieldMeans(s: string, class_: char -> bool, delimiter: char, x: string, rest: string)
    requires !class_(delimiter)
    ensures Field(s, class_, delimiter) == Some((x, rest)) <==>
      x != "" && All(x, class_) && s == x + [delimiter] + rest
  {
    var n := Span(s, class_);
    if x != "" && All(x, class_) && s == x + [delimiter] + rest {
      assert s[|x|] == delimiter;
      assert forall i :: 0 <= i < |x| ==> class_(s[i]);
      assert n == |x|;
      assert s[..n] == x && s[n + 1..] == rest;
    }
    if Field(s, class_, delimiter) == Some((x, rest)) {
      assert s == s[..n] + [s[n]] + s[n + 1..];
    }
  }

  lemma PrintParses(d: Spec)
    requires ValidSpec(d)
    ensures Parse(Print(d)) == Some(d)
  {
    var r2 := d.normalisation + "]";
    var r1 := d.value + "[" + r2;
    assert Print(d) == d.algorithm + ":" + r1;
    FieldMeans(Print(d), IsAlgorithm, ':', d.algorithm, r1);
    FieldMeans(r1, IsHex, '[', d.value, r2);
    assert r2 == d.normalisation + "]" + "";
    FieldMeans(r2, IsNormalisation, ']', d.normalisation, "");
  }

  lemma FieldGives(s: string, class_: char -> bool, delimiter: char)
    requires Field(s, class_, delimiter).Some?
    ensures var (x, rest) := Field(s, class_, delimiter).value;
      x != "" && All(x, class_) && s == x + [delimiter] + rest
  {
    var n := Span(s, class_);
    assert s == s[..n] + [s[n]] + s[n + 1..];
  }

  lemma PrintInParts(d: Spec, r1: string, r2: string)
    requires r2 == d.normalisation + "]" + "" && r1 == d.value + "[" + r2
    ensures Print(d) == d.algorithm + ":" + r1
  {}

  lemma ParsedPrints(s: string)
    requires Parse(s).Some?
    ensures ValidSpec(Parse(s).value) && Print(Parse(s).value) == s
  {
    var r1 := Field(s, IsAlgorithm, ':').value.1;
    var r2 := Field(r1, IsHex, '[').value.1;
    FieldGives(s, IsAlgorithm, ':');
    FieldGives(r1, IsHex, '[');
    FieldGives(r2, IsNormalisation, ']');
    PrintInParts(Parse(s).value, r1, r2);
  }

  /** Parsing and printing undo each other, in both directions: a string parses to a digest exactly if the digest's
      fields match their classes and it prints as that string. */
  lemma ParseInvertsPrint(s: string, d: Spec)
    ensures Parse(s) == Some(d) <==> ValidSpec(d) && s == Print(d)
  {
    if Parse(s).Some? { ParsedPrints(s); }
    if ValidSpec(d) { PrintParses(d); }
  }

  // ---------------------------------------------------------------------------------------------------
  // Annotations
  // ---------------------------------------------------------------------------------------------------

  const VALUE := "value"
  const ALGORITHM := "hashAlgorithm"
  const NORMALISATION := "normalisationAlgorithm"
  const RAW := "raw"

  /** The digest annotations of a deployed object, by the part of their names after the common prefix. */
  function Annotate(anns: map<string, string>, digest: string): map<string, string> {
    if digest == "" then anns else
      match Parse(digest)
      case Some(d) => anns[VALUE := d.value][ALGORITHM := d.algorithm][NORMALISATION := d.normalisation]
      case None => anns[RAW := digest]
  }

  /** What can be read from these annotations. */
  ghost function Recover(anns: map<string, string>): string {
    if RAW in anns then anns[RAW]
    else if VALUE in anns && ALGORITHM in anns && NORMALISATION in anns
    then Print(Spec(anns[ALGORITHM], anns[VALUE], anns[NORMALISATION]))
    else ""
  }

  lemma DigestSurvivesAnnotation(anns: map<string, string>, digest: string)
    requires RAW !in anns && !(VALUE in anns && ALGORITHM in anns && NORMALISATION in anns)
    ensures Recover(Annotate(anns, digest)) == digest
  {
    if Parse(digest).Some? {
      ParseInvertsPrint(digest, Parse(digest).value);
    }
  }

  /** The annotations by name: the three parts of a digest that can be parsed. */
  lemma PartsByName(anns: map<string, string>, d: Spec)
    requires ValidSpec(d)
    ensures Annotate(anns, Print(d)) ==
      anns + map["value" := d.value, "hashAlgorithm" := d.algorithm, "normalisationAlgorithm" := d.normalisation]
  {
    PrintParses(d);
    assert |Print(d)| > 0;
  }

  /** And the raw text of any other. */
  lemma RawByName(anns: map<string, string>, raw: string)
    requires raw != "" && forall d :: ValidSpec(d) ==> Print(d) != raw
    ensures Annotate(anns, raw) == anns + map["raw" := raw]
    ensures Annotate(anns, "") == anns
  {
    if Parse(raw).Some? { ParsedPrints(raw); }
  }

  /** No digest is lost: on an object without digest annotations, different digests, well-formed or not, leave different
      annotations. */
  lemma AnnotationsTellDigestsApart(anns: map<string, string>, d1: string, d2: string)
    requires RAW !in anns && !(VALUE in anns && ALGORITHM in anns && NORMALISATION in anns)
    ensures Annotate(anns, d1) == Annotate(anns, d2) <==> d1 == d2
  {
    DigestSurvivesAnnotation(anns, d1);
    DigestSurvivesAnnotation(anns, d2);
  }
}
