/** Reading `git status --porcelain=v1 -z`: NUL-terminated records, where renames and copies take two. */
module PorcelainStatus {
  const NUL := '\0'

  /** split on NUL: one more part than there are NULs. */
  function Split(raw: string): (parts: seq<string>)
    ensures |parts| > 0
  {
    if raw == "" then [""]
    else
      var rest := Split(raw[1..]);
      if raw[0] == NUL then [""] + rest else [[raw[0]] + rest[0]] + rest[1..]
  }

  predicate HasSource(status: string) {
    'R' in status || 'C' in status
  }

  /** The first two characters of a part. */
  function StatusOf(part: string): string {
    if |part| <= 2 then part else part[..2]
  }

  /** What follows the status and one separator. */
  function PathOf(part: string): string {
    if |part| <= 3 then "" else part[3..]
  }

  /** The paths the loop collects from a list of parts. */
  function Collected(parts: seq<string>): seq<string>
    decreases |parts|
  {
    if parts == [] then []
    else if parts[0] == "" then Collected(parts[1..])
    else
      var path := if PathOf(parts[0]) == "" then [] else [PathOf(parts[0])];
      var skip := if HasSource(StatusOf(parts[0])) && |parts| > 1 then 2 else 1;
      path + Collected(parts[skip..])
  }

  function CollectedFrom(parts: seq<string>, index: nat): seq<string> {
    if index <= |parts| then Collected(parts[index..]) else []
  }

  function PathEntry(part: string): seq<string> {
    if PathOf(part) == "" then [] else [PathOf(part)]
  }

  /** Where the loop goes on after a part that is not empty. */
  function NextIndex(parts: seq<string>, index: nat): nat
    requires index < |parts|
  {
    if parts[index] != "" && HasSource(StatusOf(parts[index])) then index + 2 else index + 1
  }

  function PathAt(parts: seq<string>, index: nat): seq<string>
    requires index < |parts|
  {
    if parts[index] == "" then [] else PathEntry(parts[index])
  }

  lemma CollectedStep(parts: seq<string>, index: nat, found: seq<string>)
    requires index < |parts|
    ensures found + CollectedFrom(parts, index)
            == (found + PathAt(parts, index)) + CollectedFrom(parts, NextIndex(parts, index))
  {
    var rest := parts[index..];
    assert rest[0] == parts[index] && rest[1..] == parts[index + 1..];
    if index + 1 < |parts| {
      assert rest[2..] == parts[index + 2..];
    } else {
      assert rest[1..] == [] && CollectedFrom(parts, index + 1) == [] && CollectedFrom(parts, index + 2) == [];
    }
    assert CollectedFrom(parts, index) == PathAt(parts, index) + CollectedFrom(parts, NextIndex(parts, index));
  }

  /** Every path of the output that the loop collects. */
  function ChangedPaths(raw: string): seq<string> {
    if raw == "" then [] else Collected(Split(raw))
  }

  /** The record-skipping loop. */
  method CollectPaths(raw: string) returns (paths: seq<string>)
    ensures paths == ChangedPaths(raw)
  {
    if raw == "" {
      return [];
    }
    var parts := Split(raw);
    paths := [];
    var index := 0;
    ghost var all := CollectedFrom(parts, 0);
    assert parts[0..] == parts;
    while index < |parts|
      invariant 0 <= index
      invariant all == paths + CollectedFrom(parts, index)
    {
      CollectedStep(parts, index, paths);
      ghost var next, found := NextIndex(parts, index), paths + PathAt(parts, index);
      var entry := parts[index];
      if entry == "" {
        assert found == paths;
        index := index + 1;
        continue;
      }
      if PathOf(entry) != "" {
        paths := paths + [PathOf(entry)];
      }
      assert paths == found;
      if HasSource(StatusOf(entry)) {
        index := index + 1;
      }
      index := index + 1;
      assert index == next;
    }
    assert CollectedFrom(parts, index) == [];
  }

  /** listChangedPaths: each collected path normalised, and each result listed once. */
  method ListChangedPaths(raw: string, normalize: string -> string) returns (paths: seq<string>)
    ensures forall i, j :: 0 <= i < j < |paths| ==> paths[i] != paths[j]
    ensures forall x :: x in paths <==> exists path :: path in ChangedPaths(raw) && x == normalize(path)
  {
    var collected := CollectPaths(raw);
    paths := [];
    for i := 0 to |collected|
      invariant forall k, j :: 0 <= k < j < |paths| ==> paths[k] != paths[j]
      invariant forall x :: x in paths <==> exists k :: 0 <= k < i && x == normalize(collected[k])
    {
      var path := normalize(collected[i]);
      if path !in paths {
        paths := paths + [path];
      }
    }
  }

  // ----- what git prints --------------------------------------------------------

  /** One changed path; a rename or copy also names where it came from. */
  datatype Change = Change(x: char, y: char, path: string, source: string)

  ghost predicate Printable(c: Change) {
    && c.x != NUL && c.y != NUL && c.path != "" && NUL !in c.path && NUL !in c.source
  }

  /** A rename or a copy, in the index or in the work tree, is followed by where it came from. */
  function Print(c: Change): string {
    [c.x, c.y, ' '] + c.path + [NUL]
    + if c.x == 'R' || c.x == 'C' || c.y == 'R' || c.y == 'C' then c.source + [NUL] else ""
  }

  function PrintAll(changes: seq<Change>): string {
    if changes == [] then "" else Print(changes[0]) + PrintAll(changes[1..])
  }

  function PathsOf(changes: seq<Change>): seq<string> {
    seq(|changes|, i requires 0 <= i < |changes| => changes[i].path)
  }

  lemma {:induction false} SplitAtNul(part: string, rest: string)
    requires NUL !in part
    ensures Split(part + [NUL] + rest) == [part] + Split(rest)
  {
    if part == "" {
      assert part + [NUL] + rest == [NUL] + rest;
      assert ([NUL] + rest)[1..] == rest;
    } else {
      SplitAtNul(part[1..], rest);
      assert (part + [NUL] + rest)[1..] == part[1..] + [NUL] + rest;
      assert [part[0]] + part[1..] == part;
      assert part[0] in part;
    }
  }

  lemma {:induction false} PrintedChange(c: Change, rest: string)
    requires Printable(c)
    ensures Collected(Split(Print(c) + rest)) == [c.path] + Collected(Split(rest))
  {
    var part := [c.x, c.y, ' '] + c.path;
    assert HasSource([c.x, c.y]) <==> c.x == 'R' || c.x == 'C' || c.y == 'R' || c.y == 'C';
    assert StatusOf(part) == [c.x, c.y] && PathOf(part) == c.path;
    if HasSource([c.x, c.y]) {
      assert Print(c) + rest == part + [NUL] + (c.source + [NUL] + rest);
      SplitAtNul(part, c.source + [NUL] + rest);
      SplitAtNul(c.source, rest);
      var parts := [part] + ([c.source] + Split(rest));
      assert parts[2..] == Split(rest);
    } else {
      assert Print(c) + rest == part + [NUL] + rest;
      SplitAtNul(part, rest);
      assert ([part] + Split(rest))[1..] == Split(rest);
    }
  }

  /** Whatever the paths look like, the loop recovers exactly the resulting path of every change, in order: no
      rename source is ever taken for a change of its own, and no change is skipped. */
  lemma {:induction false} PathsAreRecovered(changes: seq<Change>)
    requires forall c :: c in changes ==> Printable(c)
    ensures Collected(Split(PrintAll(changes))) == PathsOf(changes)
  {
    if changes == [] {
      assert Split("") == [""] && Collected([""]) == [];
    } else {
      PathsAreRecovered(changes[1..]);
      PrintedChange(changes[0], PrintAll(changes[1..]));
      assert PathsOf(changes) == [changes[0].path] + PathsOf(changes[1..]);
    }
  }

  /** So what is listed is exactly the normalised resulting paths of what git reported. */
  lemma {:induction false} PathsAreListed(changes: seq<Change>)
    requires forall c :: c in changes ==> Printable(c)
    ensures ChangedPaths(PrintAll(changes)) == PathsOf(changes)
  {
    PathsAreRecovered(changes);
    if changes != [] {
      assert PrintAll(changes)[0] == changes[0].x;
    }
  }
}
