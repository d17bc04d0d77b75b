/**
  Canonical cache-key strings. A key is the namespace, a colon, the prefix,
  then, for every key part in order, an underscore and the part's
  text (a string as itself, an integer in decimal): ("a", 1) under namespace "ns" and prefix "prefix" gives
  "ns:prefix_a_1". ParseKey is the reverse reading, used to state when two
  part tuples can and cannot share a key.
 */
module KeyFormat {
  import opened Options
  import opened Decimal

  /** Separator written before every key part. */
  const Sep: char := '_'
  /** Separator between namespace and prefix. */
  const NamespaceSep: char := ':'

  /** A key part: the test keys mix strings and integers. */
  datatype Part = Text(text: string) | Number(number: int)

  /** The text of a part: a string as itself, an integer in decimal. */
  function Render(p: Part): (s: string)
    ensures p.Number? ==> Sep !in s
  {
    match p
    case Text(t) => t
    case Number(n) => IntToDecimal(n)
  }

  function Header(namespace: string, prefix: string): string {
    namespace + [NamespaceSep] + prefix
  }

  /** "_" followed by the rendered part, for each part in order. */
  function JoinParts(parts: seq<Part>): (s: string)
    ensures parts != [] ==> s != [] && s[0] == Sep
    ensures parts == [] ==> s == []
    decreases |parts|
  {
    if parts == [] then []
    else JoinParts(parts[..|parts| - 1]) + [Sep] + Render(parts[|parts| - 1])
  }

  /** The key string of Operation.Key. */
  function FormatKey(namespace: string, prefix: string, parts: seq<Part>): (k: string)
    ensures Header(namespace, prefix) <= k
  {
    Header(namespace, prefix) + JoinParts(parts)
  }

  /** The rendered parts, in order. */
  function RenderAll(parts: seq<Part>): (r: seq<string>)
    ensures |r| == |parts|
    decreases |parts|
  {
    if parts == [] then [] else RenderAll(parts[..|parts| - 1]) + [Render(parts[|parts| - 1])]
  }

  /** No rendered part contains the part separator. */
  predicate SeparatorFree(parts: seq<Part>) {
    forall i :: 0 <= i < |parts| ==> Sep !in Render(parts[i])
  }

  /** Position of the last separator in s, if any. */
  function LastSeparator(s: string): (r: Option<nat>)
    ensures r.Some? ==> r.value < |s| && s[r.value] == Sep && Sep !in s[r.value + 1..]
    ensures r.None? ==> Sep !in s
    decreases |s|
  {
    if s == [] then None
    else if s[|s| - 1] == Sep then Some(|s| - 1)
    else LastSeparator(s[..|s| - 1])
  }

  /** Splits a suffix of the form ("_" part)* back into its parts. */
  function DecodeParts(s: string): Option<seq<string>>
    decreases |s|
  {
    if s == [] then Some([])
    else match LastSeparator(s)
      case None => None
      case Some(i) =>
        match DecodeParts(s[..i])
        case None => None
        case Some(init) => Some(init + [s[i + 1..]])
  }

  /** Reads a key of the given namespace and prefix back into rendered parts. */
  function ParseKey(namespace: string, prefix: string, k: string): Option<seq<string>> {
    var h := Header(namespace, prefix);
    if h <= k then DecodeParts(k[|h|..]) else None
  }

  lemma {:induction false} LastSeparatorAfter(a: string, b: string)
    requires Sep !in b
    ensures LastSeparator(a + [Sep] + b) == Some(|a|)
    decreases |b|
  {
    var s := a + [Sep] + b;
    if b == [] {
      assert s[|s| - 1] == Sep;
    } else {
      var b' := b[..|b| - 1];
      assert s[|s| - 1] == b[|b| - 1];
      assert s[..|s| - 1] == a + [Sep] + b';
      assert Sep !in b' by { assert forall k :: 0 <= k < |b'| ==> b'[k] == b[k]; }
      LastSeparatorAfter(a, b');
    }
  }

  lemma {:induction false} DecodeJoin(parts: seq<Part>)
    requires SeparatorFree(parts)
    ensures DecodeParts(JoinParts(parts)) == Some(RenderAll(parts))
    decreases |parts|
  {
    if parts != [] {
      var init := parts[..|parts| - 1];
      var last := Render(parts[|parts| - 1]);
      var j := JoinParts(init);
      var s := JoinParts(parts);
      assert s == j + [Sep] + last;
      assert Sep !in last;
      LastSeparatorAfter(j, last);
      assert s[..|j|] == j;
      assert s[|j| + 1..] == last;
      assert SeparatorFree(init) by {
        forall i | 0 <= i < |init| ensures Sep !in Render(init[i]) {
          assert init[i] == parts[i];
        }
      }
      DecodeJoin(init);
    }
  }

  /** A key whose parts hold no separator reads back as exactly its rendered parts. */
  lemma KeyRoundTrip(namespace: string, prefix: string, parts: seq<Part>)
    requires SeparatorFree(parts)
    ensures ParseKey(namespace, prefix, FormatKey(namespace, prefix, parts)) == Some(RenderAll(parts))
  {
    var h := Header(namespace, prefix);
    var k := FormatKey(namespace, prefix, parts);
    assert k[|h|..] == JoinParts(parts);
    DecodeJoin(parts);
  }

  /** Two separator-free tuples that share a key render identically, part by part. */
  lemma FormatKeyInjective(namespace: string, prefix: string, a: seq<Part>, b: seq<Part>)
    requires SeparatorFree(a) && SeparatorFree(b)
    requires FormatKey(namespace, prefix, a) == FormatKey(namespace, prefix, b)
    ensures RenderAll(a) == RenderAll(b)
  {
    KeyRoundTrip(namespace, prefix, a);
    KeyRoundTrip(namespace, prefix, b);
  }

  /** A (string, int) key, as the typed operation of the tests builds, identifies both parts. */
  lemma TextNumberKeyInjective(namespace: string, prefix: string, s1: string, n1: int, s2: string, n2: int)
    requires Sep !in s1 && Sep !in s2
    requires FormatKey(namespace, prefix, [Text(s1), Number(n1)]) == FormatKey(namespace, prefix, [Text(s2), Number(n2)])
    ensures s1 == s2 && n1 == n2
  {
    var a, b := [Text(s1), Number(n1)], [Text(s2), Number(n2)];
    FormatKeyInjective(namespace, prefix, a, b);
    assert RenderAll(a) == [s1, IntToDecimal(n1)] by { assert a[..1] == [Text(s1)]; }
    assert RenderAll(b) == [s2, IntToDecimal(n2)] by { assert b[..1] == [Text(s2)]; }
    IntToDecimalInjective(n1, n2);
  }

  /** Appending parts only extends the key: a key is a prefix of every longer key of the same operation. */
  lemma {:induction false} FormatKeyExtends(namespace: string, prefix: string, parts: seq<Part>, more: seq<Part>)
    ensures FormatKey(namespace, prefix, parts) <= FormatKey(namespace, prefix, parts + more)
    decreases |more|
  {
    if more != [] {
      var shorter := parts + more[..|more| - 1];
      var longer := parts + more;
      assert longer[..|longer| - 1] == shorter;
      assert FormatKey(namespace, prefix, longer)
          == FormatKey(namespace, prefix, shorter) + [Sep] + Render(longer[|longer| - 1]);
      FormatKeyExtends(namespace, prefix, parts, more[..|more| - 1]);
    } else {
      assert parts + more == parts;
    }
  }

  /** The separator is not escaped: a text part holding "_" collides with two parts. */
  lemma SeparatorInTextCollides(namespace: string, prefix: string, x: string, y: string)
    ensures FormatKey(namespace, prefix, [Text(x + [Sep] + y)])
         == FormatKey(namespace, prefix, [Text(x), Text(y)])
  {
    assert [Text(x), Text(y)][..1] == [Text(x)];
    assert JoinParts([Text(x)]) == [Sep] + x;
    assert JoinParts([Text(x), Text(y)]) == [Sep] + x + [Sep] + y;
    assert JoinParts([Text(x + [Sep] + y)]) == [Sep] + (x + [Sep] + y);
  }

  /** Keys are distinct only within one namespace and prefix: a prefix holding "_" collides with a part. */
  lemma PrefixSeparatorCollides()
    ensures FormatKey("ns", "p_x", []) == FormatKey("ns", "p", [Text("x")])
  {
    assert JoinParts([Text("x")]) == [Sep] + "x";
  }

  /** The key the tests expect for ("a", 1) under "ns" and "prefix". */
  lemma ExampleKey()
    ensures FormatKey("ns", "prefix", [Text("a"), Number(1)]) == "ns:prefix_a_1"
  {
  }
}
