/** The scan that keeps original repository roots out of text handed to an agent. */
module RootScan {
  import opened TextSearch

  const PATH_SEP := '/'

  predicate IsAlnum(c: char) {
    'A' <= c <= 'Z' || 'a' <= c <= 'z' || '0' <= c <= '9'
  }

  /** [A-Za-z0-9._/-] */
  predicate IsPathChar(c: char) {
    IsAlnum(c) || c == '.' || c == '_' || c == '/' || c == '-'
  }

  predicate BoundaryBefore(value: string, index: nat)
    requires index <= |value|
  {
    index == 0 || !IsPathChar(value[index - 1])
  }

  predicate BoundaryAfter(value: string, index: nat) {
    if index >= |value| then true
    else if value[index] == '.' then
      index + 1 >= |value|
      || !(IsAlnum(value[index + 1]) || value[index + 1] == '_' || value[index + 1] == '/' || value[index + 1] == '-')
    else
      value[index] == PATH_SEP
      || !(IsAlnum(value[index]) || value[index] == '.' || value[index] == '_' || value[index] == '-')
  }

  predicate AllowedAt(value: string, index: nat, allowed: seq<string>) {
    exists k :: 0 <= k < |allowed| && At(value, allowed[k], index) && BoundaryAfter(value, index + |allowed[k]|)
  }

  /** A boundary-delimited occurrence of the root that is not an occurrence of an allowed root. */
  predicate Hit(value: string, root: string, allowed: seq<string>, index: int) {
    && At(value, root, index)
    && BoundaryBefore(value, index) && BoundaryAfter(value, index + |root|)
    && !AllowedAt(value, index, allowed)
  }

  /** The answer of the scan from a position; each match moves on by the whole root. */
  function Scan(value: string, root: string, allowed: seq<string>, from: nat): bool
    requires root != ""
    decreases |value| - from
  {
    if from >= |value| then false
    else
      var index := Find(value, root, from);
      if index == -1 then false
      else Hit(value, root, allowed, index) || Scan(value, root, allowed, index + |root|)
  }

  /** Scan the text; canonical roots are never empty, and an empty one would not advance. */
  method TextContainsRoot(value: string, root: string, allowed: seq<string>) returns (found: bool)
    requires root != ""
    ensures found == Scan(value, root, allowed, 0)
  {
    var searchFrom := 0;
    while searchFrom < |value|
      invariant Scan(value, root, allowed, 0) == Scan(value, root, allowed, searchFrom)
      decreases |value| - searchFrom
    {
      var index, hit := NextOccurrence(value, root, allowed, searchFrom);
      if index == -1 {
        return false;
      }
      if hit {
        return true;
      }
      searchFrom := index + |root|;
    }
    return false;
  }

  /** The next occurrence, and whether it is a hit. */
  method NextOccurrence(value: string, root: string, allowed: seq<string>, from: nat) returns (index: int, hit: bool)
    requires root != "" && from < |value|
    ensures index == -1 || from <= index <= |value| - |root|
    ensures Scan(value, root, allowed, from) <==> index != -1 && (hit || Scan(value, root, allowed, index + |root|))
  {
    index := Find(value, root, from);
    ScanStep(value, root, allowed, from, index);
    hit := index != -1 && BoundaryBefore(value, index) && BoundaryAfter(value, index + |root|)
           && !AllowedAt(value, index, allowed);
  }

  lemma ScanStep(value: string, root: string, allowed: seq<string>, from: nat, index: int)
    requires root != "" && from < |value| && index == Find(value, root, from)
    ensures index == -1 ==> !Scan(value, root, allowed, from)
    ensures index != -1 && Hit(value, root, allowed, index) ==> Scan(value, root, allowed, from)
    ensures index != -1 && !Hit(value, root, allowed, index) ==>
              Scan(value, root, allowed, from) == Scan(value, root, allowed, index + |root|)
  {}

  /** The root can overlap itself by k characters, just after a character that ends a path. */
  predicate HasBoundaryOverlap(root: string) {
    exists k :: 0 < k < |root| && OverlapsAt(root, k)
  }

  predicate OverlapsAt(root: string, k: nat)
    requires 0 < k < |root|
  {
    root[k..] == root[..|root| - k] && !IsPathChar(root[k - 1])
  }

  /** A skipped position is a hit only if the root overlaps itself there. */
  lemma SkippedHitOverlaps(value: string, root: string, allowed: seq<string>, p: nat, q: nat)
    requires At(value, root, p) && p < q < p + |root| && Hit(value, root, allowed, q)
    ensures OverlapsAt(root, q - p)
  {
    var k := q - p;
    var here, there := value[p..p + |root|], value[q..q + |root|];
    assert root[k..] == here[k..] == value[q..p + |root|] == there[..|root| - k] == root[..|root| - k];
    assert root[k - 1] == here[k - 1] == value[q - 1];
  }

  /** Nothing is a hit between the search position and the match, or inside a match that is none. */
  lemma {:induction false} NextHit(value: string, root: string, allowed: seq<string>, from: nat, index: int)
    requires root != "" && !HasBoundaryOverlap(root) && index == Find(value, root, from)
    requires index != -1 && !Hit(value, root, allowed, index)
    ensures forall i :: i >= from && Hit(value, root, allowed, i) ==> i >= index + |root|
  {
    forall i | i >= from && Hit(value, root, allowed, i) ensures i >= index + |root| {
      if index < i < index + |root| {
        SkippedHitOverlaps(value, root, allowed, index, i);
      }
    }
  }

  /** With no such overlap, skipping a whole match never skips a hit. */
  lemma {:induction false} ScanIsExact(value: string, root: string, allowed: seq<string>, from: nat)
    requires root != "" && !HasBoundaryOverlap(root)
    ensures Scan(value, root, allowed, from) <==> exists i :: i >= from && Hit(value, root, allowed, i)
    decreases |value| - from
  {
    if from < |value| {
      var index := Find(value, root, from);
      ScanStep(value, root, allowed, from, index);
      if index != -1 && !Hit(value, root, allowed, index) {
        ScanIsExact(value, root, allowed, index + |root|);
        NextHit(value, root, allowed, from, index);
      }
    }
  }

  /** [c] + root[..k] + root holds the overlapping root at positions 1 and k + 1. */
  lemma OverlappingText(root: string, k: nat, c: char)
    requires 0 < k < |root| && root[k..] == root[..|root| - k]
    ensures var value := [c] + root[..k] + root;
            At(value, root, 1) && At(value, root, k + 1) && value[0] == c && value[k] == root[k - 1]
  {
    var value := [c] + root[..k] + root;
    assert root == root[..k] + root[k..];
    assert value[1 + k..1 + |root|] == root[..|root| - k];
    assert value[1..1 + |root|] == value[1..1 + k] + value[1 + k..1 + |root|];
    assert value[1..1 + k] == root[..k];
    assert value[k + 1..k + 1 + |root|] == root;
  }

  /** A root with such an overlap has a text in which the scan misses a plain occurrence. */
  lemma OverlapIsMissed(root: string, k: nat) returns (value: string)
    requires 0 < k < |root| && OverlapsAt(root, k)
    ensures !Scan(value, root, [], 0) && Hit(value, root, [], k + 1)
  {
    var c := if root[0] == 'x' then 'y' else 'x';
    value := [c] + root[..k] + root;
    OverlappingText(root, k, c);
    if At(value, root, 0) {
      FirstChar(value, root, 0);
    }
    FindIs(value, root, 0, 1);
    assert !BoundaryBefore(value, 1);
    FindNothing(value, root, 1 + |root|);
  }

  /** The skip-ahead scan answers exactly "some position is a hit", for every text and every list of
      allowed roots, precisely for the roots without a boundary overlap. */
  lemma {:induction false} ScanExactIff(root: string)
    requires root != ""
    ensures (forall value, allowed :: Scan(value, root, allowed, 0) <==> exists i :: Hit(value, root, allowed, i))
            <==> !HasBoundaryOverlap(root)
  {
    if HasBoundaryOverlap(root) {
      var k :| 0 < k < |root| && OverlapsAt(root, k);
      var value := OverlapIsMissed(root, k);
    } else {
      forall value, allowed
        ensures Scan(value, root, allowed, 0) <==> exists i :: Hit(value, root, allowed, i)
      {
        ScanIsExact(value, root, allowed, 0);
        assert forall i :: Hit(value, root, allowed, i) ==> i >= 0;
      }
    }
  }

  /** Roots made only of path characters, the ones that occur in practice, are always scanned exactly. */
  lemma {:induction false} PathRootsAreExact(value: string, root: string, allowed: seq<string>)
    requires root != "" && forall c :: c in root ==> IsPathChar(c)
    ensures Scan(value, root, allowed, 0) <==> exists i :: Hit(value, root, allowed, i)
  {
    forall k | 0 < k < |root| ensures !OverlapsAt(root, k) {
      assert root[k - 1] in root;
    }
    ScanExactIff(root);
  }

  // ----- what counts as an occurrence ---------------------------------------------

  /** A letter, a digit, an underscore or a dash: what a longer name would go on with. */
  ghost predicate NameChar(c: char) {
    'a' <= c <= 'z' || 'A' <= c <= 'Z' || '0' <= c <= '9' || c == '_' || c == '-'
  }

  /** In this text the pattern stands between `before` and `after` as a path of its own: nothing that belongs to a path
      comes before it, and what follows does not make it a longer name - the end, a slash, a full stop that ends there,
      or any other character. */
  ghost predicate StandsAlone(before: string, after: string) {
    && (before != "" ==> var c := before[|before| - 1]; !NameChar(c) && c != '.' && c != '/')
    && EndsHere(after)
  }

  ghost predicate EndsHere(after: string) {
    after != "" ==>
      && !NameChar(after[0])
      && (after[0] == '.' && |after| > 1 ==> !NameChar(after[1]) && after[1] != '/')
  }

  lemma BoundaryAfterIff(value: string, index: nat)
    requires index <= |value|
    ensures BoundaryAfter(value, index) <==> EndsHere(value[index..])
  {
    var after := value[index..];
    assert after != "" ==> after[0] == value[index];
    assert |after| > 1 ==> after[1] == value[index + 1];
  }

  /** A hit is an occurrence of the root that stands alone, unless an allowed root stands at the same place and ends
      there. */
  lemma HitIff(before: string, root: string, after: string, allowed: seq<string>)
    ensures var value := before + root + after;
            Hit(value, root, allowed, |before|) <==>
            && StandsAlone(before, after)
            && forall a, rest :: a in allowed && root + after == a + rest ==> !EndsHere(rest)
  {
    var value, index := before + root + after, |before|;
    assert value[index..index + |root|] == root && value[index + |root|..] == after;
    assert value[index..] == root + after;
    BoundaryAfterIff(value, index + |root|);
    assert before != "" ==> value[index - 1] == before[|before| - 1];
    AllowedAtIff(value, index, root + after, allowed);
  }

  lemma AllowedAtIff(value: string, index: nat, tail: string, allowed: seq<string>)
    requires index <= |value| && value[index..] == tail
    ensures AllowedAt(value, index, allowed) <==> exists a, rest :: a in allowed && tail == a + rest && EndsHere(rest)
  {
    if AllowedAt(value, index, allowed) {
      var k :| 0 <= k < |allowed| && At(value, allowed[k], index) && BoundaryAfter(value, index + |allowed[k]|);
      AllowedIff(value, index, tail, allowed[k]);
      assert allowed[k] in allowed;
    }
    if a, rest :| a in allowed && tail == a + rest && EndsHere(rest) {
      AllowedIff(value, index, tail, a);
      var k :| 0 <= k < |allowed| && allowed[k] == a;
    }
  }

  lemma AllowedIff(value: string, index: nat, tail: string, a: string)
    requires index <= |value| && value[index..] == tail
    ensures At(value, a, index) && BoundaryAfter(value, index + |a|) <==> exists rest :: tail == a + rest && EndsHere(rest)
  {
    if At(value, a, index) && BoundaryAfter(value, index + |a|) {
      var rest := value[index + |a|..];
      BoundaryAfterIff(value, index + |a|);
      assert tail == value[index..index + |a|] + rest;
    }
    if rest :| tail == a + rest && EndsHere(rest) {
      assert value[index..index + |a|] == tail[..|a|] == a;
      assert value[index + |a|..] == tail[|a|..] == rest;
      BoundaryAfterIff(value, index + |a|);
    }
  }
}
