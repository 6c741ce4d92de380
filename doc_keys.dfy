/**
 * Composite document ids. The progress and activity collections address a document by
 * the string `first + "_" + second`; this module says when that string determines the pair.
 */
module DocKeys {

  const Separator: char := '_'

  /** The document id `${first}_${second}`: both parts can be read back at known positions. */
  function CompositeKey(first: string, second: string): (k: string)
    ensures |k| == |first| + 1 + |second|
    ensures k[..|first|] == first && k[|first|] == Separator && k[|first| + 1..] == second
  {
    first + [Separator] + second
  }

  predicate NoSeparator(s: string) {
    forall i :: 0 <= i < |s| ==> s[i] != Separator
  }

  /** The position of the first separator in `s`, or `|s|` when there is none. */
  function FirstSeparator(s: string): (n: nat)
    ensures n <= |s|
    ensures forall i :: 0 <= i < n ==> s[i] != Separator
    ensures n < |s| ==> s[n] == Separator
  {
    if s == [] then 0
    else if s[0] == Separator then 0
    else 1 + FirstSeparator(s[1..])
  }

  /** Reads a composite id back as the part before its first separator and the part after. */
  function SplitKey(k: string): (string, string) {
    var n := FirstSeparator(k);
    if n < |k| then (k[..n], k[n + 1..]) else (k, "")
  }

  /** Splitting undoes the composition when the first part contains no separator. */
  lemma SplitKeyRoundTrip(first: string, second: string)
    requires NoSeparator(first)
    ensures SplitKey(CompositeKey(first, second)) == (first, second)
  {
    var k := CompositeKey(first, second);
    var n := FirstSeparator(k);
    assert k[|first|] == Separator;
    assert forall i :: 0 <= i < |first| ==> k[i] == first[i] && k[i] != Separator;
    assert n == |first|;
    assert k[..n] == first;
    assert k[n + 1..] == second;
  }

  /**
   * The converse: when the first part contains a separator, splitting stops inside it and
   * does not give the first part back.
   */
  lemma SeparatedFirstIsNotRecovered(first: string, second: string)
    requires !NoSeparator(first)
    ensures SplitKey(CompositeKey(first, second)).0 != first
  {
    var k := CompositeKey(first, second);
    var i :| 0 <= i < |first| && first[i] == Separator;
    assert k[i] == first[i];
    var n := FirstSeparator(k);
    assert n <= i;
    assert |SplitKey(k).0| == n;
  }

  /**
   * The composite id is injective on pairs whose first parts contain no separator;
   * the second parts may contain anything.
   */
  lemma KeyInjective(a: string, b: string, c: string, d: string)
    requires NoSeparator(a) && NoSeparator(c)
    ensures CompositeKey(a, b) == CompositeKey(c, d) <==> a == c && b == d
  {
    SplitKeyRoundTrip(a, b);
    SplitKeyRoundTrip(c, d);
  }

  /** With a separator inside the first part, two different pairs share one id. */
  lemma KeysCollideWithSeparator()
    ensures ("a", "b_c") != ("a_b", "c")
    ensures CompositeKey("a", "b_c") == CompositeKey("a_b", "c")
  {
  }
}
