/** What a manifest update does, on manifest values. */
module ManifestUpdates {
  import opened StringSets
  import opened Wrappers

  /** repo_focus and the legacy repository_type: the two allowed words, the empty string, or anything else on disk. */
  datatype Focus = Primary | Support | Blank | OtherFocus(raw: string)

  datatype Category =
    | Service | Application | Frontend | Library | Infrastructure | Data | Documentation | Tool | Unknown
    | OtherCategory(raw: string)

  datatype Repo = Repo(
    repoId: string, repoName: string,
    focus: Focus, category: Category, categoryAuthored: bool, repositoryType: Focus,
    hosts: seq<string>, containers: seq<Option<string>>)

  datatype Area = Area(focusId: string, repositoryType: Focus)

  /** Absent and empty focusable_areas load alike, so they are one empty list here. */
  datatype Manifest = Manifest(
    repositories: Option<seq<Repo>>, repository: Option<Repo>, areas: seq<Area>, primaryFocusAreaIds: seq<string>)

  /** The mount configuration's host-to-container path translation. */
  type Mounts = string -> Option<string>

  type Mutator = Manifest -> Manifest

  // ----- loading -------------------------------------------------------------

  function CoerceFocus(f: Focus): Focus {
    if f.OtherFocus? then Blank else f
  }

  function CoerceCategory(c: Category): Category {
    if c.OtherCategory? then Unknown else c
  }

  function LoadRepo(r: Repo): Repo {
    r.(focus := CoerceFocus(r.focus), category := CoerceCategory(r.category))
  }

  function MapRepos(rs: seq<Repo>, f: Repo -> Repo): seq<Repo> {
    seq(|rs|, i requires 0 <= i < |rs| => f(rs[i]))
  }

  function OnRepos(m: Manifest, f: Repo -> Repo): Manifest {
    m.(repositories := match m.repositories case None => None case Some(rs) => Some(MapRepos(rs, f)),
       repository := match m.repository case None => None case Some(r) => Some(f(r)))
  }

  function Load(disk: Manifest): Manifest {
    OnRepos(disk, LoadRepo)
  }

  /** The listed repositories, then the monolith's one. */
  function AllRepos(m: Manifest): seq<Repo> {
    m.repositories.GetOr([]) + match m.repository case None => [] case Some(r) => [r]
  }

  /** Dictionary by repo id: a later repository with the same id wins. */
  function ById(rs: seq<Repo>, id: string): Option<Repo> {
    if rs == [] then None
    else if rs[|rs| - 1].repoId == id then Some(rs[|rs| - 1])
    else ById(rs[..|rs| - 1], id)
  }

  // ----- guard, mirror, derive -------------------------------------------------

  function GuardRepo(r: Repo, disk: seq<Repo>): Repo {
    match ById(disk, r.repoId)
    case None => r
    case Some(d) => r.(focus := d.focus, category := if d.categoryAuthored then d.category else r.category)
  }

  function Guard(proposed: Manifest, disk: Manifest): Manifest {
    OnRepos(proposed, r => GuardRepo(r, AllRepos(disk)))
  }

  function MirrorRepo(r: Repo): Repo {
    r.(repositoryType := r.focus)
  }

  function MountRepo(r: Repo, mounts: Mounts): Repo {
    r.(containers := seq(|r.hosts|, i requires 0 <= i < |r.hosts| => mounts(r.hosts[i])))
  }

  function PrimaryIds(areas: seq<Area>): seq<string> {
    if areas == [] then []
    else PrimaryIds(areas[..|areas| - 1]) +
         if areas[|areas| - 1].repositoryType == Primary then [areas[|areas| - 1].focusId] else []
  }

  function DeriveArea(a: Area, primary: set<string>): Area {
    a.(repositoryType := if a.focusId in primary then Primary else Support)
  }

  function DeriveAreas(areas: seq<Area>, primary: set<string>): seq<Area> {
    seq(|areas|, i requires 0 <= i < |areas| => DeriveArea(areas[i], primary))
  }

  function Derive(m: Manifest): Manifest {
    if m.areas == [] then m
    else
      var ids := if m.primaryFocusAreaIds == [] then PrimaryIds(m.areas) else m.primaryFocusAreaIds;
      m.(primaryFocusAreaIds := ids, areas := DeriveAreas(m.areas, AsSet(ids)))
  }

  /** What write_manifest puts on disk. */
  function Written(m: Manifest, mounts: Mounts): Manifest {
    OnRepos(Derive(OnRepos(m, MirrorRepo)), r => MountRepo(r, mounts))
  }

  /** The required fields of the schema that the model carries. */
  predicate ValidManifest(m: Manifest) {
    && (forall i :: 0 <= i < |AllRepos(m)| ==> AllRepos(m)[i].repoId != "" && AllRepos(m)[i].repoName != "")
    && (forall i :: 0 <= i < |m.areas| ==> m.areas[i].focusId != "")
  }

  function Update(disk: Manifest, mutator: Mutator, mounts: Mounts): Manifest {
    var written := Written(Guard(mutator(Load(disk)), Load(disk)), mounts);
    if ValidManifest(written) then written else disk
  }

  function Updates(disk: Manifest, mutators: seq<Mutator>, mounts: Mounts): Manifest {
    if mutators == [] then disk
    else Update(Updates(disk, mutators[..|mutators| - 1], mounts), mutators[|mutators| - 1], mounts)
  }
}

/** What guarded updates keep, whatever the mutators do. */
module ManifestLaws {
  import opened Wrappers
  import opened ManifestUpdates

  ghost predicate HasRepo(m: Manifest, id: string) {
    exists i :: 0 <= i < |AllRepos(m)| && AllRepos(m)[i].repoId == id
  }

  /** The focus the operator chose for a repository, as a reader of the manifest sees it. */
  function FocusOf(m: Manifest, id: string): Option<Focus> {
    match ById(AllRepos(Load(m)), id)
    case None => None
    case Some(r) => Some(r.focus)
  }

  lemma {:induction false} ByIdFinds(rs: seq<Repo>, id: string)
    ensures ById(rs, id).None? <==> forall i :: 0 <= i < |rs| ==> rs[i].repoId != id
    ensures ById(rs, id).Some? ==> ById(rs, id).value in rs && ById(rs, id).value.repoId == id
  {
    if rs != [] {
      ByIdFinds(rs[..|rs| - 1], id);
    }
  }

  /** Mapping the repositories of a manifest maps the list of all of them. */
  lemma AllReposOnRepos(m: Manifest, f: Repo -> Repo)
    ensures AllRepos(OnRepos(m, f)) == MapRepos(AllRepos(m), f)
  {}

  /** The repositories an update writes, one by one. */
  lemma WrittenRepos(m: Manifest, disk: Manifest, mounts: Mounts)
    ensures var out := AllRepos(Written(Guard(m, disk), mounts));
            && |out| == |AllRepos(m)|
            && forall i :: 0 <= i < |out| ==>
                 out[i] == MountRepo(MirrorRepo(GuardRepo(AllRepos(m)[i], AllRepos(disk))), mounts)
  {
    var guarded := Guard(m, disk);
    var mirrored := OnRepos(guarded, MirrorRepo);
    AllReposOnRepos(m, r => GuardRepo(r, AllRepos(disk)));
    AllReposOnRepos(guarded, MirrorRepo);
    assert AllRepos(Derive(mirrored)) == AllRepos(mirrored);
    AllReposOnRepos(Derive(mirrored), r => MountRepo(r, mounts));
  }

  /** Loading changes no id and leaves only the allowed focus words. */
  lemma LoadedRepos(m: Manifest)
    ensures |AllRepos(Load(m))| == |AllRepos(m)|
    ensures forall i :: 0 <= i < |AllRepos(m)| ==> AllRepos(Load(m))[i] == LoadRepo(AllRepos(m)[i])
  {
    AllReposOnRepos(m, LoadRepo);
  }

  /** Every repository written by an update carries the focus its id had on disk, and the category
      the operator authored for it there. */
  lemma SurvivorIsGuarded(disk: Manifest, mutator: Mutator, mounts: Mounts, i: nat)
    requires var written := Written(Guard(mutator(Load(disk)), Load(disk)), mounts); i < |AllRepos(written)|
    ensures var r := AllRepos(Written(Guard(mutator(Load(disk)), Load(disk)), mounts))[i];
            var d := ById(AllRepos(Load(disk)), r.repoId);
            d.Some? ==>
              && LoadRepo(r).focus == r.focus == d.value.focus
              && (d.value.categoryAuthored ==> LoadRepo(r).category == d.value.category)
  {
    var loaded := AllRepos(Load(disk));
    WrittenRepos(mutator(Load(disk)), Load(disk), mounts);
    var id := AllRepos(mutator(Load(disk)))[i].repoId;
    ByIdFinds(loaded, id);
    LoadedRepos(disk);
  }

  function CategoryIfAuthored(m: Manifest, id: string): Option<Category> {
    match ById(AllRepos(Load(m)), id)
    case None => None
    case Some(r) => if r.categoryAuthored then Some(r.category) else None
  }

  function CategoryOf(m: Manifest, id: string): Option<Category> {
    match ById(AllRepos(Load(m)), id)
    case None => None
    case Some(r) => Some(r.category)
  }

  /** A repository that survives an update keeps its focus; an authored category is kept as well. */
  lemma UpdateKeepsFocus(disk: Manifest, mutator: Mutator, mounts: Mounts, id: string)
    requires HasRepo(disk, id) && HasRepo(Update(disk, mutator, mounts), id)
    ensures FocusOf(Update(disk, mutator, mounts), id) == FocusOf(disk, id)
    ensures CategoryIfAuthored(disk, id).Some? ==>
              CategoryOf(Update(disk, mutator, mounts), id) == CategoryIfAuthored(disk, id)
  {
    var end := Update(disk, mutator, mounts);
    if end != disk {
      LoadedRepos(disk);
      LoadedRepos(end);
      ByIdFinds(AllRepos(Load(disk)), id);
      ByIdFinds(AllRepos(Load(end)), id);
      var i :| 0 <= i < |AllRepos(Load(end))| && AllRepos(Load(end))[i] == ById(AllRepos(Load(end)), id).value;
      SurvivorIsGuarded(disk, mutator, mounts, i);
      assert AllRepos(end)[i].repoId == id;
    }
  }

  /** Over any sequence of updates during which the repository is never dropped, its focus never changes. */
  lemma {:induction false} FocusNeverChanges(disk: Manifest, mutators: seq<Mutator>, mounts: Mounts, id: string)
    requires forall k :: 0 <= k <= |mutators| ==> HasRepo(Updates(disk, mutators[..k], mounts), id)
    ensures FocusOf(Updates(disk, mutators, mounts), id) == FocusOf(disk, id)
    decreases |mutators|
  {
    assert mutators[..|mutators|] == mutators;
    if mutators != [] {
      var before := mutators[..|mutators| - 1];
      forall k | 0 <= k <= |before| ensures HasRepo(Updates(disk, before[..k], mounts), id) {
        assert before[..k] == mutators[..k];
      }
      FocusNeverChanges(disk, before, mounts, id);
      assert before == mutators[..|mutators| - 1];
      assert HasRepo(Updates(disk, mutators[..|mutators| - 1], mounts), id);
      UpdateKeepsFocus(Updates(disk, before, mounts), mutators[|mutators| - 1], mounts, id);
    }
  }

  /** The legacy field mirrors the focus, and an area is primary exactly when it is listed. */
  ghost predicate Consistent(m: Manifest) {
    && (forall i :: 0 <= i < |AllRepos(m)| ==> AllRepos(m)[i].repositoryType == AllRepos(m)[i].focus)
    && (forall i :: 0 <= i < |m.areas| ==>
          m.areas[i].repositoryType == if m.areas[i].focusId in m.primaryFocusAreaIds then Primary else Support)
  }

  lemma WrittenIsConsistent(m: Manifest, mounts: Mounts)
    ensures Consistent(Written(m, mounts))
  {
    var mirrored := OnRepos(m, MirrorRepo);
    AllReposOnRepos(m, MirrorRepo);
    assert AllRepos(Derive(mirrored)) == AllRepos(mirrored);
    AllReposOnRepos(Derive(mirrored), r => MountRepo(r, mounts));
  }

  /** From a consistent manifest every sequence of updates stays consistent, and one accepted
      update makes any manifest consistent. */
  lemma {:induction false} UpdatesStayConsistent(disk: Manifest, mutators: seq<Mutator>, mounts: Mounts)
    ensures Consistent(disk) || Updates(disk, mutators, mounts) != disk ==> Consistent(Updates(disk, mutators, mounts))
    decreases |mutators|
  {
    if mutators != [] {
      var before := Updates(disk, mutators[..|mutators| - 1], mounts);
      UpdatesStayConsistent(disk, mutators[..|mutators| - 1], mounts);
      WrittenIsConsistent(Guard(mutators[|mutators| - 1](Load(before)), Load(before)), mounts);
    }
  }

  // ----- the identity mutator ----------------------------------------------------

  lemma {:induction false} NoPrimaryIds(areas: seq<Area>)
    requires forall i :: 0 <= i < |areas| ==> areas[i].repositoryType != Primary
    ensures PrimaryIds(areas) == []
  {
    if areas != [] {
      NoPrimaryIds(areas[..|areas| - 1]);
    }
  }

  lemma DeriveTwice(m: Manifest)
    ensures Derive(Derive(m)) == Derive(m)
  {
    var once := Derive(m);
    if m.areas != [] {
      if once.primaryFocusAreaIds == [] {
        NoPrimaryIds(once.areas);
      }
    }
  }

  lemma DeriveOnRepos(m: Manifest, f: Repo -> Repo)
    ensures Derive(OnRepos(m, f)) == OnRepos(Derive(m), f)
  {}

  /** Repositories with one id share one focus, and the authored category of the last of them. */
  ghost predicate SettledRepos(rs: seq<Repo>, mounts: Mounts) {
    forall i :: 0 <= i < |rs| ==>
      && LoadRepo(rs[i]) == rs[i] && GuardRepo(rs[i], rs) == rs[i]
      && MirrorRepo(rs[i]) == rs[i] && MountRepo(rs[i], mounts) == rs[i]
  }

  lemma {:induction false} ByIdCommutes(rs: seq<Repo>, out: seq<Repo>, id: string)
    requires |out| == |rs| && forall i :: 0 <= i < |rs| ==> out[i].repoId == rs[i].repoId
    ensures ById(out, id).Some? <==> ById(rs, id).Some?
    ensures ById(rs, id).Some? ==> exists i :: 0 <= i < |rs| && ById(rs, id).value == rs[i] && ById(out, id).value == out[i]
  {
    if rs != [] && rs[|rs| - 1].repoId != id {
      var n := |rs| - 1;
      ByIdCommutes(rs[..n], out[..n], id);
      if ById(rs, id).Some? {
        var i :| 0 <= i < n && ById(rs[..n], id).value == rs[..n][i] && ById(out[..n], id).value == out[..n][i];
        assert rs[..n][i] == rs[i] && out[..n][i] == out[i];
      }
    }
  }

  function SettleRepo(r: Repo, rs: seq<Repo>, mounts: Mounts): Repo {
    MountRepo(MirrorRepo(GuardRepo(r, rs)), mounts)
  }

  lemma IdentitySettles(rs: seq<Repo>, mounts: Mounts)
    requires forall i :: 0 <= i < |rs| ==> LoadRepo(rs[i]) == rs[i]
    ensures SettledRepos(MapRepos(rs, r => SettleRepo(r, rs, mounts)), mounts)
  {
    var out := MapRepos(rs, r => SettleRepo(r, rs, mounts));
    forall i | 0 <= i < |rs|
      ensures LoadRepo(out[i]) == out[i] && GuardRepo(out[i], out) == out[i]
      ensures MirrorRepo(out[i]) == out[i] && MountRepo(out[i], mounts) == out[i]
    {
      var id := rs[i].repoId;
      ByIdFinds(rs, id);
      ByIdCommutes(rs, out, id);
      var k :| 0 <= k < |rs| && ById(rs, id).value == rs[k] && ById(out, id).value == out[k];
      assert ById(rs, rs[k].repoId) == Some(rs[k]);
      assert out[k] == MountRepo(MirrorRepo(rs[k]), mounts);
    }
  }

  /** After one update with the identity mutator, another one changes nothing. */
  lemma IdentityIsFixpoint(disk: Manifest, mounts: Mounts)
    ensures var id := (m: Manifest) => m;
            Update(Update(disk, id, mounts), id, mounts) == Update(disk, id, mounts)
  {
    var id := (m: Manifest) => m;
    var once := Update(disk, id, mounts);
    var loaded := Load(disk);
    var written := Written(Guard(loaded, loaded), mounts);
    if ValidManifest(written) {
      LoadedRepos(disk);
      WrittenRepos(loaded, loaded, mounts);
      var rs := AllRepos(loaded);
      IdentitySettles(rs, mounts);
      assert AllRepos(once) == MapRepos(rs, r => SettleRepo(r, rs, mounts));
      var mirrored := OnRepos(Guard(loaded, loaded), MirrorRepo);
      DeriveTwice(mirrored);
      DeriveOnRepos(Derive(mirrored), r => MountRepo(r, mounts));
      SettledIsFixed(once, mounts);
    }
  }

  lemma SettledIsFixed(m: Manifest, mounts: Mounts)
    requires SettledRepos(AllRepos(m), mounts) && Derive(m) == m
    ensures Load(m) == m && Written(Guard(m, m), mounts) == m
  {
    var rs := AllRepos(m);
    UnchangedByMap(m, LoadRepo);
    UnchangedByMap(m, r => GuardRepo(r, rs));
    UnchangedByMap(m, MirrorRepo);
    UnchangedByMap(m, r => MountRepo(r, mounts));
  }

  lemma UnchangedByMap(m: Manifest, f: Repo -> Repo)
    requires forall i :: 0 <= i < |AllRepos(m)| ==> f(AllRepos(m)[i]) == AllRepos(m)[i]
    ensures OnRepos(m, f) == m
  {
    var rs := AllRepos(m);
    if m.repositories.Some? {
      var listed := m.repositories.value;
      forall i | 0 <= i < |listed| ensures f(listed[i]) == listed[i] {
        assert rs[i] == listed[i];
      }
      assert MapRepos(listed, f) == listed;
    }
    if m.repository.Some? {
      assert rs[|rs| - 1] == m.repository.value;
    }
  }

  // ----- what an update takes over --------------------------------------------------

  /** What a manifest on disk says of a repository's focus and category, once it is loaded. */
  ghost predicate LoadsAs(f: Focus, loaded: Focus) {
    if f == Primary || f == Support then loaded == f else loaded == Blank
  }

  ghost predicate CategoryLoadsAs(c: Category, loaded: Category) {
    loaded == match c case OtherCategory(_) => Unknown case _ => c
  }

  /** Repository q as the mutator left it is written as r: its names, hosts and authored flag are taken over, the legacy
      type mirrors the focus, and the containers are where the mounts put the hosts. */
  ghost predicate TakenOver(r: Repo, q: Repo, mounts: Mounts) {
    && r.repoId == q.repoId && r.repoName == q.repoName && r.hosts == q.hosts && r.categoryAuthored == q.categoryAuthored
    && r.repositoryType == r.focus
    && |r.containers| == |r.hosts| && forall j :: 0 <= j < |r.hosts| ==> r.containers[j] == mounts(r.hosts[j])
  }

  /** The last repository of that id on disk, which decides the guarded fields. */
  ghost predicate LastWith(rs: seq<Repo>, id: string, k: int) {
    0 <= k < |rs| && rs[k].repoId == id && forall j :: k < j < |rs| ==> rs[j].repoId != id
  }

  /** The guarded fields of q: those on disk when its id is there, else the proposed ones. */
  ghost predicate Guarded(r: Repo, q: Repo, disk: seq<Repo>) {
    && (forall k :: LastWith(disk, q.repoId, k) ==>
          && LoadsAs(disk[k].focus, r.focus)
          && (if disk[k].categoryAuthored then CategoryLoadsAs(disk[k].category, r.category) else r.category == q.category))
    && ((forall k :: 0 <= k < |disk| ==> disk[k].repoId != q.repoId) ==> r.focus == q.focus && r.category == q.category)
  }

  lemma {:induction false} ByIdIsLast(rs: seq<Repo>, id: string)
    ensures ById(rs, id).None? <==> forall k :: 0 <= k < |rs| ==> rs[k].repoId != id
    ensures forall k :: LastWith(rs, id, k) ==> ById(rs, id) == Some(rs[k])
  {
    if rs != [] && rs[|rs| - 1].repoId != id {
      var n := |rs| - 1;
      ByIdIsLast(rs[..n], id);
      LastInFront(rs, id);
    }
  }

  lemma LastInFront(rs: seq<Repo>, id: string)
    requires rs != [] && rs[|rs| - 1].repoId != id
    ensures forall k :: 0 <= k < |rs| - 1 ==> rs[..|rs| - 1][k] == rs[k]
    ensures forall k :: LastWith(rs, id, k) ==> LastWith(rs[..|rs| - 1], id, k)
  {}

  lemma LoadedIds(disk: Manifest)
    ensures |AllRepos(Load(disk))| == |AllRepos(disk)|
    ensures forall k :: 0 <= k < |AllRepos(disk)| ==> AllRepos(Load(disk))[k] == LoadRepo(AllRepos(disk)[k])
  {
    AllReposOnRepos(disk, LoadRepo);
  }

  lemma SameLast(rs: seq<Repo>, loaded: seq<Repo>, id: string)
    requires |rs| == |loaded| && forall k :: 0 <= k < |rs| ==> loaded[k].repoId == rs[k].repoId
    ensures forall k :: LastWith(rs, id, k) ==> LastWith(loaded, id, k)
  {}

  lemma {:induction false} SettledRepoSays(q: Repo, disk: Manifest, mounts: Mounts)
    ensures var r := SettleRepo(q, AllRepos(Load(disk)), mounts);
            TakenOver(r, q, mounts) && Guarded(r, q, AllRepos(disk))
  {
    var rs, loaded := AllRepos(disk), AllRepos(Load(disk));
    LoadedIds(disk);
    SameLast(rs, loaded, q.repoId);
    GuardedSays(q, rs, loaded);
  }

  lemma {:induction false} GuardedSays(q: Repo, rs: seq<Repo>, loaded: seq<Repo>)
    requires |rs| == |loaded| && forall k :: 0 <= k < |rs| ==> loaded[k] == LoadRepo(rs[k])
    requires forall k :: LastWith(rs, q.repoId, k) ==> LastWith(loaded, q.repoId, k)
    ensures Guarded(GuardRepo(q, loaded), q, rs)
  {
    ByIdIsLast(loaded, q.repoId);
    var r := GuardRepo(q, loaded);
    forall k | LastWith(rs, q.repoId, k)
      ensures LoadsAs(rs[k].focus, r.focus)
      ensures if rs[k].categoryAuthored then CategoryLoadsAs(rs[k].category, r.category) else r.category == q.category
    {
      assert ById(loaded, q.repoId) == Some(LoadRepo(rs[k]));
    }
    if forall k :: 0 <= k < |rs| ==> rs[k].repoId != q.repoId {
      assert forall k :: 0 <= k < |rs| ==> loaded[k].repoId == rs[k].repoId;
    }
  }

  /** Every repository and area has its required fields. */
  ghost predicate Complete(m: Manifest) {
    && (forall i :: 0 <= i < |AllRepos(m)| ==> AllRepos(m)[i].repoId != "" && AllRepos(m)[i].repoName != "")
    && (forall i :: 0 <= i < |m.areas| ==> m.areas[i].focusId != "")
  }

  /** The areas are taken over in order, primary exactly when listed; without a list, those proposed as primary are. */
  ghost predicate AreasTakenOver(after: Manifest, proposed: Manifest) {
    && |after.areas| == |proposed.areas|
    && (forall i :: 0 <= i < |after.areas| ==>
          && after.areas[i].focusId == proposed.areas[i].focusId
          && after.areas[i].repositoryType == if after.areas[i].focusId in after.primaryFocusAreaIds then Primary else Support)
    && (proposed.primaryFocusAreaIds != [] || proposed.areas == [] ==>
          after.primaryFocusAreaIds == proposed.primaryFocusAreaIds)
    && (proposed.primaryFocusAreaIds == [] ==> forall id :: id in after.primaryFocusAreaIds <==>
          exists i :: 0 <= i < |proposed.areas| && proposed.areas[i].focusId == id && proposed.areas[i].repositoryType == Primary)
  }

  lemma {:induction false} PrimaryIdsIff(areas: seq<Area>, id: string)
    ensures id in PrimaryIds(areas) <==>
            exists i :: 0 <= i < |areas| && areas[i].focusId == id && areas[i].repositoryType == Primary
  {
    if areas != [] {
      var n := |areas| - 1;
      PrimaryIdsIff(areas[..n], id);
      assert forall i :: 0 <= i < n ==> areas[..n][i] == areas[i];
    }
  }

  lemma {:induction false} DerivedAreas(m: Manifest)
    ensures AreasTakenOver(Derive(m), m)
  {
    forall id ensures id in PrimaryIds(m.areas) <==>
        exists i :: 0 <= i < |m.areas| && m.areas[i].focusId == id && m.areas[i].repositoryType == Primary
    {
      PrimaryIdsIff(m.areas, id);
    }
  }

  /** An update writes what the mutator proposed, guarded and derived, exactly when that is complete; otherwise it
      changes nothing. */
  lemma {:induction false} UpdateWrites(disk: Manifest, mutator: Mutator, mounts: Mounts)
    ensures var (proposed, after) := (mutator(Load(disk)), Update(disk, mutator, mounts));
            if !Complete(proposed) then after == disk
            else
              && after.repositories.Some? == proposed.repositories.Some?
              && after.repository.Some? == proposed.repository.Some?
              && |AllRepos(after)| == |AllRepos(proposed)|
              && (forall i :: 0 <= i < |AllRepos(after)| ==>
                    && TakenOver(AllRepos(after)[i], AllRepos(proposed)[i], mounts)
                    && Guarded(AllRepos(after)[i], AllRepos(proposed)[i], AllRepos(disk)))
              && AreasTakenOver(after, proposed)
  {
    var proposed := mutator(Load(disk));
    WrittenSays(proposed, disk, mounts);
    WrittenAreas(proposed, Load(disk), mounts);
    CompleteIff(Written(Guard(proposed, Load(disk)), mounts), proposed, mounts);
  }

  lemma {:induction false} WrittenSays(proposed: Manifest, disk: Manifest, mounts: Mounts)
    ensures var rs := AllRepos(Written(Guard(proposed, Load(disk)), mounts));
            && |rs| == |AllRepos(proposed)|
            && forall i :: 0 <= i < |rs| ==>
                 TakenOver(rs[i], AllRepos(proposed)[i], mounts) && Guarded(rs[i], AllRepos(proposed)[i], AllRepos(disk))
  {
    WrittenRepos(proposed, Load(disk), mounts);
    var rs, qs := AllRepos(Written(Guard(proposed, Load(disk)), mounts)), AllRepos(proposed);
    forall i | 0 <= i < |rs| ensures TakenOver(rs[i], qs[i], mounts) && Guarded(rs[i], qs[i], AllRepos(disk)) {
      SettledRepoSays(qs[i], disk, mounts);
      assert rs[i] == SettleRepo(qs[i], AllRepos(Load(disk)), mounts);
    }
  }

  lemma CompleteIff(written: Manifest, proposed: Manifest, mounts: Mounts)
    requires |AllRepos(written)| == |AllRepos(proposed)| && |written.areas| == |proposed.areas|
    requires forall i :: 0 <= i < |AllRepos(written)| ==> TakenOver(AllRepos(written)[i], AllRepos(proposed)[i], mounts)
    requires forall i :: 0 <= i < |written.areas| ==> written.areas[i].focusId == proposed.areas[i].focusId
    ensures ValidManifest(written) <==> Complete(proposed)
  {
    assert forall i :: 0 <= i < |AllRepos(written)| ==>
             AllRepos(written)[i].repoId == AllRepos(proposed)[i].repoId
             && AllRepos(written)[i].repoName == AllRepos(proposed)[i].repoName;
  }

  lemma {:induction false} WrittenAreas(proposed: Manifest, loaded: Manifest, mounts: Mounts)
    ensures var written := Written(Guard(proposed, loaded), mounts);
            && AreasTakenOver(written, proposed)
            && written.repositories.Some? == proposed.repositories.Some?
            && written.repository.Some? == proposed.repository.Some?
  {
    var m := OnRepos(Guard(proposed, loaded), MirrorRepo);
    DerivedAreas(m);
  }
}
