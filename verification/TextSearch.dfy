/** Substring search as both host languages provide it. */
module TextSearch {
  predicate At(s: string, pattern: string, i: int) {
    0 <= i && i + |pattern| <= |s| && s[i..i + |pattern|] == pattern
  }

  /** The first occurrence at or after `from`, or -1: str.find and String.indexOf. */
  function Find(s: string, pattern: string, from: nat): (index: int)
    ensures index == -1 || (index >= from && At(s, pattern, index))
    ensures forall i :: from <= i && (index == -1 || i < index) ==> !At(s, pattern, i)
    decreases |s| - from
  {
    if from + |pattern| > |s| then -1
    else if At(s, pattern, from) then from
    else Find(s, pattern, from + 1)
  }

  /** The least occurrence is the one Find reports. */
  lemma {:induction false} FindIs(s: string, pattern: string, from: nat, i: nat)
    requires from <= i && At(s, pattern, i)
    requires forall j :: from <= j < i ==> !At(s, pattern, j)
    ensures Find(s, pattern, from) == i
  {}

  lemma {:induction false} FindNothing(s: string, pattern: string, from: nat)
    requires forall j :: from <= j ==> !At(s, pattern, j)
    ensures Find(s, pattern, from) == -1
  {}

  /** Occurrences inside a middle piece are occurrences of that piece, shifted. */
  lemma AtShift(before: string, piece: string, after: string, pattern: string, i: int)
    requires 0 <= i && i + |pattern| <= |piece|
    ensures At(before + piece + after, pattern, |before| + i) <==> At(piece, pattern, i)
  {
    var s := before + piece + after;
    assert s[|before| + i..|before| + i + |pattern|] == piece[i..i + |pattern|];
  }

  /** Appending text changes no occurrence that ended before it. */
  lemma AtPrefix(prefix: string, rest: string, pattern: string, i: int)
    requires 0 <= i && i + |pattern| <= |prefix|
    ensures At(prefix + rest, pattern, i) <==> At(prefix, pattern, i)
  {
    assert (prefix + rest)[i..i + |pattern|] == prefix[i..i + |pattern|];
  }

  lemma FirstChar(s: string, pattern: string, i: int)
    requires pattern != "" && At(s, pattern, i)
    ensures s[i] == pattern[0]
  {
    assert s[i..i + |pattern|][0] == s[i];
  }

  lemma AtTake(s: string, k: nat, pattern: string, i: int)
    requires 0 <= i && i + |pattern| <= k <= |s|
    ensures At(s[..k], pattern, i) <==> At(s, pattern, i)
  {
    assert s[..k][i..i + |pattern|] == s[i..i + |pattern|];
  }
}
