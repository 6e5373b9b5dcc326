/** The folder delta between a workspace file and the folders a context pack wants managed. */
module WorkspacePreview {
  import opened StringSets
  import opened Wrappers

  /** A folder object of the workspace file: its path and whatever else the user wrote there. */
  datatype Folder = Folder(path: string, settings: map<string, string>)

  datatype WorkspaceFolderEntry = WorkspaceFolderEntry(raw: Folder, path: string)

  datatype Preview = Preview(
    foldersToAdd: seq<string>, foldersToRemove: seq<string>, managedFolders: seq<string>, resultFolders: seq<Folder>)

  // ----- specification --------------------------------------------------------

  function Filter<T>(xs: seq<T>, keep: T -> bool): seq<T> {
    if xs == [] then [] else Filter(xs[..|xs| - 1], keep) + if keep(xs[|xs| - 1]) then [xs[|xs| - 1]] else []
  }

  function Map<T, U>(xs: seq<T>, f: T -> U): seq<U> {
    seq(|xs|, i requires 0 <= i < |xs| => f(xs[i]))
  }

  /** First appearances, in order. */
  function Unique(xs: seq<string>): seq<string> {
    if xs == [] then []
    else Unique(xs[..|xs| - 1]) + if xs[|xs| - 1] in xs[..|xs| - 1] then [] else [xs[|xs| - 1]]
  }

  function Paths(entries: seq<WorkspaceFolderEntry>): set<string> {
    set i | 0 <= i < |entries| :: entries[i].path
  }

  /** The raw entry a path maps to; a later entry with the same path wins. */
  function RawFor(entries: seq<WorkspaceFolderEntry>, path: string): Option<Folder> {
    if entries == [] then None
    else if entries[|entries| - 1].path == path then Some(entries[|entries| - 1].raw)
    else RawFor(entries[..|entries| - 1], path)
  }

  function Unmanaged(entries: seq<WorkspaceFolderEntry>, managed: set<string>): seq<WorkspaceFolderEntry> {
    Filter(entries, (e: WorkspaceFolderEntry) => e.path !in managed)
  }

  function NextManaged(entries: seq<WorkspaceFolderEntry>, managed: set<string>, targets: seq<string>): seq<string> {
    Filter(Unique(targets), t => t !in Paths(entries) - managed)
  }

  function ToFolder(entries: seq<WorkspaceFolderEntry>, path: string): Folder {
    RawFor(entries, path).GetOr(Folder(path, map[]))
  }

  function Result(entries: seq<WorkspaceFolderEntry>, managed: set<string>, targets: seq<string>): seq<Folder> {
    Map(Unmanaged(entries, managed), (e: WorkspaceFolderEntry) => e.raw)
    + Map(NextManaged(entries, managed, targets), t => ToFolder(entries, t))
  }

  function Removals(entries: seq<WorkspaceFolderEntry>, managed: set<string>, next: seq<string>): seq<string> {
    Map(Filter(entries, (e: WorkspaceFolderEntry) => e.path in managed && e.path !in next),
        (e: WorkspaceFolderEntry) => e.path)
  }

  function PreviewOf(entries: seq<WorkspaceFolderEntry>, managed: set<string>, targets: seq<string>): Preview {
    var next := NextManaged(entries, managed, targets);
    Preview(
      Filter(next, p => p !in Paths(entries)),
      Removals(entries, managed, next),
      next,
      Result(entries, managed, targets))
  }

  // ----- the computation, list by list ------------------------------------------

  lemma FilterSnoc<T>(xs: seq<T>, i: nat, keep: T -> bool)
    requires i < |xs|
    ensures Filter(xs[..i + 1], keep) == Filter(xs[..i], keep) + if keep(xs[i]) then [xs[i]] else []
  {
    assert xs[..i + 1][..i] == xs[..i];
  }

  method UniquePreservingOrder(values: seq<string>) returns (ordered: seq<string>)
    ensures ordered == Unique(values)
  {
    var seen: set<string> := {};
    ordered := [];
    for i := 0 to |values|
      invariant ordered == Unique(values[..i])
      invariant forall v :: v in seen <==> v in values[..i]
    {
      assert values[..i + 1][..i] == values[..i];
      if values[i] !in seen {
        seen := seen + {values[i]};
        ordered := ordered + [values[i]];
      }
    }
    assert values[..|values|] == values;
  }

  method SelectManaged(deduped: seq<string>, nonmanaged: set<string>) returns (next: seq<string>)
    ensures next == Filter(deduped, t => t !in nonmanaged)
  {
    next := [];
    ghost var keepTarget := (t: string) => t !in nonmanaged;
    for i := 0 to |deduped|
      invariant next == Filter(deduped[..i], keepTarget)
    {
      FilterSnoc(deduped, i, keepTarget);
      if deduped[i] in nonmanaged {
        continue;
      }
      next := next + [deduped[i]];
    }
    assert deduped[..|deduped|] == deduped;
  }

  /** One folder for each wanted path that is not preserved: the user's own when there is one. */
  method ManagedFolders(entries: seq<WorkspaceFolderEntry>, deduped: seq<string>, preservedPaths: set<string>)
    returns (folders: seq<Folder>)
    ensures folders == Map(Filter(deduped, t => t !in preservedPaths), t => ToFolder(entries, t))
  {
    folders := [];
    ghost var keepTarget := (t: string) => t !in preservedPaths;
    for i := 0 to |deduped|
      invariant folders == Map(Filter(deduped[..i], keepTarget), t => ToFolder(entries, t))
    {
      FilterSnoc(deduped, i, keepTarget);
      if deduped[i] in preservedPaths {
        continue;
      }
      var existing := RawFor(entries, deduped[i]);
      if existing.Some? {
        folders := folders + [existing.value];
      } else {
        folders := folders + [Folder(deduped[i], map[])];
      }
    }
    assert deduped[..|deduped|] == deduped;
  }

  method BuildSyncPreview(entries: seq<WorkspaceFolderEntry>, managedFolders: seq<string>, targets: seq<string>)
    returns (preview: Preview)
    ensures preview == PreviewOf(entries, AsSet(managedFolders), targets)
  {
    var managed := AsSet(managedFolders);
    var current := Paths(entries);
    var nonmanaged := current - managed;
    var deduped := UniquePreservingOrder(targets);

    var next := SelectManaged(deduped, nonmanaged);

    var toAdd := Filter(next, p => p !in current);
    var toRemove := Map(Filter(entries, (e: WorkspaceFolderEntry) => e.path in managed && e.path !in next),
                        (e: WorkspaceFolderEntry) => e.path);
    var preserved := Unmanaged(entries, managed);
    var preservedPaths := Paths(preserved);
    PreservedPathsAreUnmanaged(entries, managed);

    var managedPart := ManagedFolders(entries, deduped, preservedPaths);
    assert nonmanaged == preservedPaths;
    var folders := Map(preserved, (e: WorkspaceFolderEntry) => e.raw) + managedPart;
    preview := Preview(toAdd, toRemove, next, folders);
    assert toAdd == Filter(next, p => p !in Paths(entries)) by {
      FilterCongruent(next, p => p !in current, p => p !in Paths(entries));
    }
  }

  // ----- lemmas ------------------------------------------------------------------

  lemma {:induction false} FilterMembers<T>(xs: seq<T>, keep: T -> bool)
    ensures forall x :: x in Filter(xs, keep) <==> x in xs && keep(x)
  {
    if xs != [] {
      FilterMembers(xs[..|xs| - 1], keep);
      assert xs == xs[..|xs| - 1] + [xs[|xs| - 1]];
    }
  }

  lemma {:induction false} FilterCongruent<T>(xs: seq<T>, p: T -> bool, q: T -> bool)
    requires forall x :: x in xs ==> p(x) == q(x)
    ensures Filter(xs, p) == Filter(xs, q)
  {
    if xs != [] {
      FilterCongruent(xs[..|xs| - 1], p, q);
    }
  }

  lemma {:induction false} FilterAll<T>(xs: seq<T>, keep: T -> bool)
    requires forall x :: x in xs ==> keep(x)
    ensures Filter(xs, keep) == xs
  {
    if xs != [] {
      FilterAll(xs[..|xs| - 1], keep);
      assert xs == xs[..|xs| - 1] + [xs[|xs| - 1]];
    }
  }

  lemma {:induction false} FilterNone<T>(xs: seq<T>, keep: T -> bool)
    requires forall x :: x in xs ==> !keep(x)
    ensures Filter(xs, keep) == []
  {
    if xs != [] {
      FilterNone(xs[..|xs| - 1], keep);
    }
  }

  lemma {:induction false} FilterConcat<T>(xs: seq<T>, ys: seq<T>, keep: T -> bool)
    ensures Filter(xs + ys, keep) == Filter(xs, keep) + Filter(ys, keep)
    decreases |ys|
  {
    if ys == [] {
      assert xs + ys == xs;
    } else {
      assert (xs + ys)[..|xs + ys| - 1] == xs + ys[..|ys| - 1];
      FilterConcat(xs, ys[..|ys| - 1], keep);
    }
  }

  lemma PreservedPathsAreUnmanaged(entries: seq<WorkspaceFolderEntry>, managed: set<string>)
    ensures Paths(Unmanaged(entries, managed)) == Paths(entries) - managed
  {
    var kept := Unmanaged(entries, managed);
    FilterMembers(entries, (e: WorkspaceFolderEntry) => e.path !in managed);
    forall p | p in Paths(entries) - managed ensures p in Paths(kept) {
      var i :| 0 <= i < |entries| && entries[i].path == p;
      assert entries[i] in kept;
    }
    forall p | p in Paths(kept) ensures p in Paths(entries) - managed {
      var i :| 0 <= i < |kept| && kept[i].path == p;
      assert kept[i] in entries;
    }
  }

  lemma {:induction false} UniqueMembers(xs: seq<string>)
    ensures forall x :: x in Unique(xs) <==> x in xs
    ensures forall i, j :: 0 <= i < j < |Unique(xs)| ==> Unique(xs)[i] != Unique(xs)[j]
  {
    if xs != [] {
      UniqueMembers(xs[..|xs| - 1]);
      assert xs == xs[..|xs| - 1] + [xs[|xs| - 1]];
    }
  }

  lemma {:induction false} RawForMember(entries: seq<WorkspaceFolderEntry>, path: string)
    ensures RawFor(entries, path).Some? <==> path in Paths(entries)
    ensures RawFor(entries, path).Some? ==> WorkspaceFolderEntry(RawFor(entries, path).value, path) in entries
  {
    if entries != [] {
      var init, last := entries[..|entries| - 1], entries[|entries| - 1];
      RawForMember(init, path);
      assert entries == init + [last];
      forall i | 0 <= i < |init| ensures init[i] == entries[i] {}
      if path in Paths(entries) && last.path != path {
        var i :| 0 <= i < |entries| && entries[i].path == path;
        assert init[i].path == path;
      }
      if path in Paths(init) {
        var i :| 0 <= i < |init| && init[i].path == path;
        assert entries[i].path == path;
      }
    }
  }

  // ----- main results ---------------------------------------------------------------

  /** Reading the written folders back; `norm` is the file system's path normalisation. */
  function Reload(folders: seq<Folder>, norm: string -> string): seq<WorkspaceFolderEntry> {
    Map(folders, (f: Folder) => WorkspaceFolderEntry(f, norm(f.path)))
  }

  /** The entries came from the workspace file, and the targets are normalised paths. */
  ghost predicate Loaded(entries: seq<WorkspaceFolderEntry>, targets: seq<string>, norm: string -> string) {
    && (forall e :: e in entries ==> e.path == norm(e.raw.path))
    && (forall t :: t in targets ==> norm(t) == t)
  }

  /** The written folders read back as the kept entries followed by the managed paths. */
  lemma ReloadedResult(entries: seq<WorkspaceFolderEntry>, managed: set<string>, targets: seq<string>,
                       norm: string -> string)
    requires Loaded(entries, targets, norm)
    ensures var kept, next := Unmanaged(entries, managed), NextManaged(entries, managed, targets);
            Reload(Result(entries, managed, targets), norm) ==
            kept + Map(next, t => WorkspaceFolderEntry(ToFolder(entries, t), t))
  {
    KeptReload(entries, managed, targets, norm);
    ManagedReload(entries, managed, targets, norm);
    var kept, next := Unmanaged(entries, managed), NextManaged(entries, managed, targets);
    var x, y := Map(kept, (e: WorkspaceFolderEntry) => e.raw), Map(next, t => ToFolder(entries, t));
    assert Result(entries, managed, targets) == x + y;
    assert Reload(x + y, norm) == Reload(x, norm) + Reload(y, norm);
  }

  lemma KeptReload(entries: seq<WorkspaceFolderEntry>, managed: set<string>, targets: seq<string>,
                   norm: string -> string)
    requires Loaded(entries, targets, norm)
    ensures var kept := Unmanaged(entries, managed);
            Reload(Map(kept, (e: WorkspaceFolderEntry) => e.raw), norm) == kept
  {
    var kept := Unmanaged(entries, managed);
    FilterMembers(entries, (e: WorkspaceFolderEntry) => e.path !in managed);
    forall i | 0 <= i < |kept| ensures WorkspaceFolderEntry(kept[i].raw, norm(kept[i].raw.path)) == kept[i] {
      assert kept[i] in entries;
    }
  }

  lemma ManagedReload(entries: seq<WorkspaceFolderEntry>, managed: set<string>, targets: seq<string>,
                      norm: string -> string)
    requires Loaded(entries, targets, norm)
    ensures var next := NextManaged(entries, managed, targets);
            Reload(Map(next, t => ToFolder(entries, t)), norm)
            == Map(next, t => WorkspaceFolderEntry(ToFolder(entries, t), t))
  {
    var next := NextManaged(entries, managed, targets);
    FilterMembers(Unique(targets), t => t !in Paths(entries) - managed);
    UniqueMembers(targets);
    forall i | 0 <= i < |next| ensures norm(ToFolder(entries, next[i]).path) == next[i] {
      assert next[i] in targets;
      RawForMember(entries, next[i]);
    }
  }

  /** The folder set after the sync is what was there, less the removals, plus the additions. */
  lemma PathSetBalances(entries: seq<WorkspaceFolderEntry>, managed: set<string>, targets: seq<string>,
                        norm: string -> string)
    requires Loaded(entries, targets, norm)
    ensures var p := PreviewOf(entries, managed, targets);
            Paths(Reload(p.resultFolders, norm)) ==
            (Paths(entries) - AsSet(p.foldersToRemove)) + AsSet(p.foldersToAdd)
  {
    var p, next := PreviewOf(entries, managed, targets), NextManaged(entries, managed, targets);
    var kept := Unmanaged(entries, managed);
    var after := Reload(p.resultFolders, norm);
    ReloadedResult(entries, managed, targets, norm);
    PreservedPathsAreUnmanaged(entries, managed);
    AppendedPaths(kept, next, t => WorkspaceFolderEntry(ToFolder(entries, t), t));
    FilterMembers(next, x => x !in Paths(entries));
    FilterMembers(Unique(targets), t => t !in Paths(entries) - managed);
    RemovedPaths(entries, managed, next);
  }

  lemma AppendedPaths(kept: seq<WorkspaceFolderEntry>, next: seq<string>, f: string -> WorkspaceFolderEntry)
    requires forall t :: f(t).path == t
    ensures Paths(kept + Map(next, f)) == Paths(kept) + AsSet(next)
  {
    var all := kept + Map(next, f);
    forall i | 0 <= i < |kept| ensures kept[i].path in Paths(all) {
      assert all[i] == kept[i];
    }
    forall i | 0 <= i < |next| ensures next[i] in Paths(all) {
      assert all[|kept| + i].path == next[i];
    }
    forall i | 0 <= i < |all| ensures all[i].path in Paths(kept) + AsSet(next) {
      if i >= |kept| {
        assert all[i].path == next[i - |kept|];
      }
    }
  }

  lemma RemovedPaths(entries: seq<WorkspaceFolderEntry>, managed: set<string>, next: seq<string>)
    ensures AsSet(Removals(entries, managed, next)) == Paths(entries) * managed - AsSet(next)
  {
    var gone := (e: WorkspaceFolderEntry) => e.path in managed && e.path !in next;
    var out := Filter(entries, gone);
    var paths := Map(out, (e: WorkspaceFolderEntry) => e.path);
    FilterMembers(entries, gone);
    forall x | x in Paths(entries) && x in managed && x !in next ensures x in paths {
      var i :| 0 <= i < |entries| && entries[i].path == x;
      assert entries[i] in out;
      var j :| 0 <= j < |out| && out[j] == entries[i];
      assert paths[j] == x;
    }
    forall x | x in paths ensures x in Paths(entries) && x in managed && x !in next {
      var j :| 0 <= j < |paths| && paths[j] == x;
      assert out[j] in entries;
    }
  }

  /** The synced workspace: the kept entries, then one entry per managed path. */
  ghost predicate Synced(after: seq<WorkspaceFolderEntry>, kept: seq<WorkspaceFolderEntry>, next: seq<string>,
                         f: string -> WorkspaceFolderEntry)
  {
    && after == kept + Map(next, f)
    && (forall t :: f(t).path == t)
    && (forall t :: t in next ==> t !in Paths(kept))
  }

  lemma KeptStayUnmanaged(after: seq<WorkspaceFolderEntry>, kept: seq<WorkspaceFolderEntry>, next: seq<string>,
                          f: string -> WorkspaceFolderEntry)
    requires Synced(after, kept, next, f)
    ensures Unmanaged(after, AsSet(next)) == kept
    ensures Paths(after) == Paths(kept) + AsSet(next)
    ensures Removals(after, AsSet(next), next) == []
  {
    var managed := AsSet(next);
    var free := (e: WorkspaceFolderEntry) => e.path !in managed;
    AppendedPaths(kept, next, f);
    forall e | e in kept ensures free(e) {
      var i :| 0 <= i < |kept| && kept[i] == e;
      assert kept[i].path in Paths(kept);
    }
    FilterConcat(kept, Map(next, f), free);
    FilterAll(kept, free);
    FilterNone(Map(next, f), free);
    FilterNone(after, (e: WorkspaceFolderEntry) => e.path in managed && e.path !in next);
  }

  lemma SameFolders(after: seq<WorkspaceFolderEntry>, kept: seq<WorkspaceFolderEntry>, next: seq<string>,
                    f: string -> WorkspaceFolderEntry)
    requires Synced(after, kept, next, f)
    ensures forall t :: t in next ==> ToFolder(after, t) == f(t).raw
  {
    AppendedPaths(kept, next, f);
    forall t | t in next ensures ToFolder(after, t) == f(t).raw {
      RawForMember(after, t);
      var e := WorkspaceFolderEntry(RawFor(after, t).value, t);
      var i :| 0 <= i < |after| && after[i] == e;
      assert forall k :: 0 <= k < |kept| ==> kept[k].path in Paths(kept);
    }
  }

  /** Syncing again from the synced workspace adds nothing, removes nothing and writes the same folders. */
  lemma PreviewIsFixpoint(entries: seq<WorkspaceFolderEntry>, managed: set<string>, targets: seq<string>,
                          norm: string -> string)
    requires Loaded(entries, targets, norm)
    ensures var once := PreviewOf(entries, managed, targets);
            var again := PreviewOf(Reload(once.resultFolders, norm), AsSet(once.managedFolders), targets);
            again == Preview([], [], once.managedFolders, once.resultFolders)
  {
    var once, next := PreviewOf(entries, managed, targets), NextManaged(entries, managed, targets);
    var kept := Unmanaged(entries, managed);
    var f := (t: string) => WorkspaceFolderEntry(ToFolder(entries, t), t);
    var after := Reload(once.resultFolders, norm);
    ReloadedResult(entries, managed, targets, norm);
    PreservedPathsAreUnmanaged(entries, managed);
    FilterMembers(Unique(targets), t => t !in Paths(entries) - managed);
    assert Synced(after, kept, next, f);
    KeptStayUnmanaged(after, kept, next, f);
    assert Paths(after) - AsSet(next) == Paths(entries) - managed;
    FilterCongruent(Unique(targets), t => t !in Paths(entries) - managed, t => t !in Paths(after) - AsSet(next));
    assert NextManaged(after, AsSet(next), targets) == next;
    FilterNone(next, x => x !in Paths(after));
    SameFolders(after, kept, next, f);
    assert Map(next, t => ToFolder(after, t)) == Map(next, t => ToFolder(entries, t));
  }

  // ----- the preview, folder by folder ------------------------------------------------

  /** The paths the workspace keeps whatever the pack wants: those of its entries that are not managed. */
  ghost predicate KeptPath(entries: seq<WorkspaceFolderEntry>, managed: set<string>, path: string) {
    path !in managed && exists i :: 0 <= i < |entries| && entries[i].path == path
  }

  ghost predicate FirstAt(xs: seq<string>, x: string, i: int) {
    0 <= i < |xs| && xs[i] == x && forall j :: 0 <= j < i ==> xs[j] != x
  }

  ghost predicate LastAt(entries: seq<WorkspaceFolderEntry>, path: string, i: int) {
    0 <= i < |entries| && entries[i].path == path && forall j :: i < j < |entries| ==> entries[j].path != path
  }

  /** The folder written for a managed path: the last one the workspace has for it, with the user's settings, or else
      a bare one. */
  ghost predicate FolderFor(f: Folder, entries: seq<WorkspaceFolderEntry>, path: string) {
    && (forall i :: LastAt(entries, path, i) ==> f == entries[i].raw)
    && ((forall i :: 0 <= i < |entries| ==> entries[i].path != path) ==> f == Folder(path, map[]))
  }

  lemma {:induction false} ToFolderSays(entries: seq<WorkspaceFolderEntry>, path: string)
    ensures FolderFor(ToFolder(entries, path), entries, path)
  {
    RawForLast(entries, path);
  }

  lemma {:induction false} RawForLast(entries: seq<WorkspaceFolderEntry>, path: string)
    ensures forall i :: LastAt(entries, path, i) ==> RawFor(entries, path) == Some(entries[i].raw)
    ensures (forall i :: 0 <= i < |entries| ==> entries[i].path != path) ==> RawFor(entries, path).None?
  {
    if entries != [] && entries[|entries| - 1].path != path {
      var n := |entries| - 1;
      RawForLast(entries[..n], path);
      forall i | LastAt(entries, path, i) ensures LastAt(entries[..n], path, i) {}
    }
  }

  /** xs is what stands in ys at these rising positions. */
  ghost predicate TakenAt<T>(xs: seq<T>, ys: seq<T>, at: seq<int>) {
    && |at| == |xs| && (forall i :: 0 <= i < |at| ==> 0 <= at[i] < |ys| && xs[i] == ys[at[i]])
    && (forall i, j :: 0 <= i < j < |at| ==> at[i] < at[j])
  }

  /** A filter takes what it keeps, in order, from where it stands. */
  lemma {:induction false} FilterPicks<T>(ys: seq<T>, keep: T -> bool) returns (at: seq<int>)
    ensures TakenAt(Filter(ys, keep), ys, at)
    ensures forall k :: 0 <= k < |ys| ==> (k in at <==> keep(ys[k]))
  {
    at := [];
    if ys != [] {
      var n := |ys| - 1;
      var before := FilterPicks(ys[..n], keep);
      at := before + if keep(ys[n]) then [n] else [];
      PickedSnoc(ys, keep, before);
      if keep(ys[n]) {
        TakenSnoc(Filter(ys[..n], keep), ys, before);
      } else {
        TakenFromFront(Filter(ys[..n], keep), ys, before);
        assert before + [] == before && Filter(ys[..n], keep) + [] == Filter(ys[..n], keep);
      }
    }
  }

  lemma PickedSnoc<T>(ys: seq<T>, keep: T -> bool, before: seq<int>)
    requires ys != [] && forall i :: 0 <= i < |before| ==> before[i] < |ys| - 1
    requires forall k :: 0 <= k < |ys| - 1 ==> (k in before <==> keep(ys[..|ys| - 1][k]))
    ensures var at := before + if keep(ys[|ys| - 1]) then [|ys| - 1] else [];
            forall k :: 0 <= k < |ys| ==> (k in at <==> keep(ys[k]))
  {
    var n := |ys| - 1;
    assert forall k :: 0 <= k < n ==> ys[..n][k] == ys[k];
    assert keep(ys[n]) ==> (before + [n])[|before|] == n;
  }

  lemma TakenFromFront<T>(xs: seq<T>, ys: seq<T>, at: seq<int>)
    requires ys != [] && TakenAt(xs, ys[..|ys| - 1], at)
    ensures TakenAt(xs, ys, at)
  {}

  lemma TakenSnoc<T>(xs: seq<T>, ys: seq<T>, at: seq<int>)
    requires ys != [] && TakenAt(xs, ys[..|ys| - 1], at)
    ensures TakenAt(xs + [ys[|ys| - 1]], ys, at + [|ys| - 1])
  {}

  lemma {:induction false} UniqueInOrder(xs: seq<string>)
    ensures forall i, j, a, b :: 0 <= i < j < |Unique(xs)| && FirstAt(xs, Unique(xs)[i], a) && FirstAt(xs, Unique(xs)[j], b) ==> a < b
  {
    if xs != [] {
      var n := |xs| - 1;
      var front, u := xs[..n], Unique(xs[..n]);
      UniqueInOrder(front);
      UniqueMembers(front);
      forall i, j, a, b | 0 <= i < j < |Unique(xs)| && FirstAt(xs, Unique(xs)[i], a) && FirstAt(xs, Unique(xs)[j], b)
        ensures a < b
      {
        assert Unique(xs)[i] == u[i];
        EarlyFirst(xs, u[i], a);
        if j < |u| {
          assert Unique(xs)[j] == u[j];
          EarlyFirst(xs, u[j], b);
        } else {
          assert b == n;
        }
      }
    }
  }

  /** What occurs before the last position occurs first before it. */
  lemma EarlyFirst(xs: seq<string>, x: string, a: int)
    requires xs != [] && FirstAt(xs, x, a) && x in xs[..|xs| - 1]
    ensures FirstAt(xs[..|xs| - 1], x, a)
  {
    var k :| 0 <= k < |xs| - 1 && xs[..|xs| - 1][k] == x;
    assert xs[k] == x;
  }

  /** The preview of a sync. Managed are the wanted paths the workspace does not keep on its own account, once each and
      in the order they are first wanted; added are those it does not have; removed are the managed entries that are
      not wanted; and the result is the kept entries as they are, followed by a folder for each managed path. */
  lemma {:induction false} PreviewSays(entries: seq<WorkspaceFolderEntry>, managed: set<string>, targets: seq<string>)
    returns (keptAt: seq<int>, removedAt: seq<int>)
    ensures var p := PreviewOf(entries, managed, targets);
            && (forall t :: t in p.managedFolders <==> t in targets && !KeptPath(entries, managed, t))
            && (forall i, j :: 0 <= i < j < |p.managedFolders| ==> p.managedFolders[i] != p.managedFolders[j])
            && (forall i, j, a, b ::
                  0 <= i < j < |p.managedFolders|
                  && FirstAt(targets, p.managedFolders[i], a) && FirstAt(targets, p.managedFolders[j], b) ==>
                  a < b)
            && (forall t :: t in p.foldersToAdd <==>
                  t in p.managedFolders && forall i :: 0 <= i < |entries| ==> entries[i].path != t)
            && |removedAt| == |p.foldersToRemove|
            && (forall i, j :: 0 <= i < j < |removedAt| ==> removedAt[i] < removedAt[j])
            && (forall i :: 0 <= i < |removedAt| ==>
                  0 <= removedAt[i] < |entries| && p.foldersToRemove[i] == entries[removedAt[i]].path)
            && (forall k :: 0 <= k < |entries| ==>
                  (k in removedAt <==> entries[k].path in managed && entries[k].path !in p.managedFolders))
            && |p.resultFolders| == |keptAt| + |p.managedFolders|
            && (forall i, j :: 0 <= i < j < |keptAt| ==> keptAt[i] < keptAt[j])
            && (forall k :: 0 <= k < |entries| ==> (k in keptAt <==> entries[k].path !in managed))
            && (forall i :: 0 <= i < |keptAt| ==>
                  0 <= keptAt[i] < |entries| && p.resultFolders[i] == entries[keptAt[i]].raw)
            && (forall i :: 0 <= i < |p.managedFolders| ==>
                  FolderFor(p.resultFolders[|keptAt| + i], entries, p.managedFolders[i]))
  {
    var p, next := PreviewOf(entries, managed, targets), NextManaged(entries, managed, targets);
    keptAt := KeptSays(entries, managed, targets);
    removedAt := RemovedSays(entries, managed, next);
    ManagedSays(entries, managed, targets);
    FilterMembers(next, x => x !in Paths(entries));
    FoldersSay(entries, managed, targets, |keptAt|);
  }

  lemma {:induction false} FoldersSay(entries: seq<WorkspaceFolderEntry>, managed: set<string>, targets: seq<string>,
                                      n: nat)
    requires n == |Unmanaged(entries, managed)|
    ensures var (next, result) := (NextManaged(entries, managed, targets), Result(entries, managed, targets));
            |result| == n + |next| && forall i :: 0 <= i < |next| ==> FolderFor(result[n + i], entries, next[i])
  {
    var next, result := NextManaged(entries, managed, targets), Result(entries, managed, targets);
    ResultBehind(entries, managed, targets, n);
    forall i | 0 <= i < |next| ensures FolderFor(result[n + i], entries, next[i]) {
      ToFolderSays(entries, next[i]);
    }
  }

  lemma {:induction false} ResultBehind(entries: seq<WorkspaceFolderEntry>, managed: set<string>, targets: seq<string>,
                                        n: nat)
    requires n == |Unmanaged(entries, managed)|
    ensures var (next, result) := (NextManaged(entries, managed, targets), Result(entries, managed, targets));
            |result| == n + |next| && forall i :: 0 <= i < |next| ==> result[n + i] == ToFolder(entries, next[i])
  {}

  lemma {:induction false} KeptSays(entries: seq<WorkspaceFolderEntry>, managed: set<string>, targets: seq<string>)
    returns (at: seq<int>)
    ensures var result := Result(entries, managed, targets);
            && |at| == |Unmanaged(entries, managed)|
            && |result| == |at| + |NextManaged(entries, managed, targets)|
            && (forall i, j :: 0 <= i < j < |at| ==> at[i] < at[j])
            && (forall k :: 0 <= k < |entries| ==> (k in at <==> entries[k].path !in managed))
            && (forall i :: 0 <= i < |at| ==> 0 <= at[i] < |entries| && result[i] == entries[at[i]].raw)
  {
    at := FilterPicks(entries, (e: WorkspaceFolderEntry) => e.path !in managed);
  }

  lemma {:induction false} RemovedSays(entries: seq<WorkspaceFolderEntry>, managed: set<string>, next: seq<string>)
    returns (at: seq<int>)
    ensures var removed := Removals(entries, managed, next);
            && |at| == |removed|
            && (forall i, j :: 0 <= i < j < |at| ==> at[i] < at[j])
            && (forall i :: 0 <= i < |at| ==> 0 <= at[i] < |entries| && removed[i] == entries[at[i]].path)
            && (forall k :: 0 <= k < |entries| ==>
                  (k in at <==> entries[k].path in managed && entries[k].path !in next))
  {
    at := FilterPicks(entries, (e: WorkspaceFolderEntry) => e.path in managed && e.path !in next);
  }

  lemma {:induction false} ManagedSays(entries: seq<WorkspaceFolderEntry>, managed: set<string>, targets: seq<string>)
    ensures var next := NextManaged(entries, managed, targets);
            && (forall t :: t in next <==> t in targets && !KeptPath(entries, managed, t))
            && (forall i, j :: 0 <= i < j < |next| ==> next[i] != next[j])
            && (forall i, j, a, b :: 0 <= i < j < |next| && FirstAt(targets, next[i], a) && FirstAt(targets, next[j], b) ==>
                  a < b)
  {
    var keep := (t: string) => t !in Paths(entries) - managed;
    UniqueMembers(targets);
    UniqueInOrder(targets);
    FilterMembers(Unique(targets), keep);
    var at := FilterPicks(Unique(targets), keep);
    forall t ensures KeptPath(entries, managed, t) <==> t in Paths(entries) - managed {}
  }
}
