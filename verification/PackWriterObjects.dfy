/** The manifest writer itself: mutable model objects, a deep-copied snapshot, loops that assign fields in place. */
module PackWriter {
  import opened Wrappers
  import opened ManifestUpdates
  import opened StringSets

  class RepositoryModel {
    var repoId: string
    var repoName: string
    var focus: Focus
    var category: Category
    var categoryAuthored: bool
    var repositoryType: Focus
    var hosts: seq<string>
    var containers: seq<Option<string>>

    function V(): Repo
      reads this
    {
      Repo(repoId, repoName, focus, category, categoryAuthored, repositoryType, hosts, containers)
    }

    constructor (v: Repo)
      ensures V() == v
    {
      repoId, repoName, focus, category := v.repoId, v.repoName, v.focus, v.category;
      categoryAuthored, repositoryType := v.categoryAuthored, v.repositoryType;
      hosts, containers := v.hosts, v.containers;
    }
  }

  class AreaModel {
    var focusId: string
    var repositoryType: Focus

    function V(): Area
      reads this
    {
      Area(focusId, repositoryType)
    }

    constructor (v: Area)
      ensures V() == v
    {
      focusId, repositoryType := v.focusId, v.repositoryType;
    }
  }

  ghost function RepoValues(rs: seq<RepositoryModel>): seq<Repo>
    reads rs
  {
    seq(|rs|, i requires 0 <= i < |rs| reads rs => rs[i].V())
  }

  ghost function AreaValues(areas: seq<AreaModel>): seq<Area>
    reads areas
  {
    seq(|areas|, i requires 0 <= i < |areas| reads areas => areas[i].V())
  }

  class ManifestModel {
    var hasRepositories: bool
    var repositories: seq<RepositoryModel>
    var repository: RepositoryModel?
    var areas: seq<AreaModel>
    var primaryFocusAreaIds: seq<string>

    /** list(model.repositories or []), then the monolith repository if there is one. */
    function Repos(): seq<RepositoryModel>
      reads this
    {
      (if hasRepositories then repositories else []) + if repository == null then [] else [repository]
    }

    /** The objects of this model. */
    ghost var Repr: set<object>

    ghost predicate Valid()
      reads this
    {
      && this in Repr
      && (forall r :: r in repositories ==> r in Repr)
      && (repository != null ==> repository in Repr)
      && (forall a :: a in areas ==> a in Repr)
    }

    ghost function V(): Manifest
      requires Valid()
      reads this, Repr
    {
      Manifest(
        if hasRepositories then Some(RepoValues(repositories)) else None,
        if repository == null then None else Some(repository.V()),
        AreaValues(areas),
        primaryFocusAreaIds)
    }

    constructor (hasRepositories: bool, repositories: seq<RepositoryModel>, repository: RepositoryModel?,
                 areas: seq<AreaModel>, primaryFocusAreaIds: seq<string>, ghost parts: set<object>)
      requires forall r :: r in repositories ==> r in parts
      requires repository != null ==> repository in parts
      requires forall a :: a in areas ==> a in parts
      ensures Valid() && Repr == parts + {this}
      ensures this.hasRepositories == hasRepositories && this.repositories == repositories
      ensures this.repository == repository && this.areas == areas && this.primaryFocusAreaIds == primaryFocusAreaIds
    {
      this.hasRepositories, this.repositories, this.repository := hasRepositories, repositories, repository;
      this.areas, this.primaryFocusAreaIds := areas, primaryFocusAreaIds;
      Repr := parts + {this};
    }
  }

  method NewRepos(vs: seq<Repo>) returns (rs: seq<RepositoryModel>, ghost parts: set<object>)
    ensures |rs| == |vs| && fresh(parts)
    ensures forall i :: 0 <= i < |vs| ==> rs[i] in parts && rs[i].V() == vs[i]
  {
    rs, parts := [], {};
    for i := 0 to |vs|
      invariant |rs| == i && fresh(parts)
      invariant forall j :: 0 <= j < i ==> rs[j] in parts && rs[j].V() == vs[j]
    {
      var r := new RepositoryModel(vs[i]);
      rs, parts := rs + [r], parts + {r};
    }
  }

  method NewAreas(vs: seq<Area>) returns (areas: seq<AreaModel>, ghost parts: set<object>)
    ensures |areas| == |vs| && fresh(parts)
    ensures forall i :: 0 <= i < |vs| ==> areas[i] in parts && areas[i].V() == vs[i]
  {
    areas, parts := [], {};
    for i := 0 to |vs|
      invariant |areas| == i && fresh(parts)
      invariant forall j :: 0 <= j < i ==> areas[j] in parts && areas[j].V() == vs[j]
    {
      var a := new AreaModel(vs[i]);
      areas, parts := areas + [a], parts + {a};
    }
  }

  /** A new object graph holding this value, sharing nothing with any other. */
  method Build(v: Manifest) returns (m: ManifestModel)
    ensures m.Valid() && fresh(m.Repr) && m.V() == v
  {
    var repositories, repoParts := NewRepos(v.repositories.GetOr([]));
    var areas, areaParts := NewAreas(v.areas);
    var repository: RepositoryModel? := null;
    ghost var parts: set<object> := repoParts + areaParts;
    if v.repository.Some? {
      repository := new RepositoryModel(v.repository.value);
      parts := parts + {repository};
    }
    m := new ManifestModel(v.repositories.Some?, repositories, repository, areas, v.primaryFocusAreaIds, parts);
    assert RepoValues(repositories) == v.repositories.GetOr([]);
    assert AreaValues(areas) == v.areas;
  }

  /** Field assignments in a loop over objects: when each repository object ended as f of what it was and
      nothing else changed, the manifest's value is the mapped value. */
  lemma InPlaceMap(m: ManifestModel, was: Manifest, f: Repo -> Repo)
    requires m.Valid() && was.repositories.Some? == m.hasRepositories && was.repository.Some? == (m.repository != null)
    requires m.hasRepositories ==> |was.repositories.value| == |m.repositories|
    requires was.areas == AreaValues(m.areas) && was.primaryFocusAreaIds == m.primaryFocusAreaIds
    requires |AllRepos(was)| == |m.Repos()|
    requires forall k :: 0 <= k < |m.Repos()| ==> m.Repos()[k].V() == f(AllRepos(was)[k])
    ensures m.V() == OnRepos(was, f)
  {
    var rs := m.repositories;
    if m.hasRepositories {
      forall i | 0 <= i < |rs| ensures rs[i].V() == f(was.repositories.value[i]) {
        assert rs[i] == m.Repos()[i] && AllRepos(was)[i] == was.repositories.value[i];
      }
      assert RepoValues(rs) == MapRepos(was.repositories.value, f);
    }
    if m.repository != null {
      var last := |m.Repos()| - 1;
      assert m.Repos()[last] == m.repository && AllRepos(was)[last] == was.repository.value;
    }
  }

  lemma ReposOfValue(m: ManifestModel)
    requires m.Valid()
    ensures RepoValues(m.Repos()) == AllRepos(m.V())
    ensures forall r :: r in m.Repos() ==> r in m.Repr
  {}

  lemma GuardTwice(r: Repo, disk: seq<Repo>)
    ensures GuardRepo(GuardRepo(r, disk), disk) == GuardRepo(r, disk)
  {}

  class Writer {
    var disk: Manifest
    const mounts: Mounts

    constructor (disk: Manifest, mounts: Mounts)
      ensures this.disk == disk && this.mounts == mounts
    {
      this.disk, this.mounts := disk, mounts;
    }

    /** disk_by_id: later repositories with the same id replace earlier ones. */
    method IndexById(rs: seq<RepositoryModel>) returns (byId: map<string, RepositoryModel>)
      ensures forall id :: id in byId <==> ById(RepoValues(rs), id).Some?
      ensures forall id :: id in byId ==> byId[id] in rs && byId[id].V() == ById(RepoValues(rs), id).value
    {
      byId := map[];
      for i := 0 to |rs|
        invariant forall id :: id in byId <==> ById(RepoValues(rs[..i]), id).Some?
        invariant forall id :: id in byId ==> byId[id] in rs[..i] && byId[id].V() == ById(RepoValues(rs[..i]), id).value
      {
        assert RepoValues(rs[..i + 1]) == RepoValues(rs[..i]) + [rs[i].V()];
        assert RepoValues(rs[..i + 1])[..i] == RepoValues(rs[..i]);
        byId := byId[rs[i].repoId := rs[i]];
      }
      assert rs[..|rs|] == rs;
    }

    /** One repository against the indexed snapshot, which it is not part of. */
    method ApplyAuthorshipGuard(repo: RepositoryModel, byId: map<string, RepositoryModel>, ghost disk: seq<Repo>)
      requires forall id :: id in byId <==> ById(disk, id).Some?
      requires forall id :: id in byId ==> byId[id] != repo && byId[id].V() == ById(disk, id).value
      modifies repo
      ensures repo.V() == GuardRepo(old(repo.V()), disk)
    {
      if repo.repoId !in byId {
        return;
      }
      var diskRepo := byId[repo.repoId];
      if repo.focus != diskRepo.focus {
        repo.focus := diskRepo.focus;
      }
      if diskRepo.categoryAuthored && repo.category != diskRepo.category {
        repo.category := diskRepo.category;
      }
    }

    method GuardEach(repos: seq<RepositoryModel>, byId: map<string, RepositoryModel>, ghost disk: seq<Repo>)
      requires forall id :: id in byId <==> ById(disk, id).Some?
      requires forall id :: id in byId ==> byId[id] !in repos && byId[id].V() == ById(disk, id).value
      modifies repos
      ensures forall k :: 0 <= k < |repos| ==> repos[k].V() == GuardRepo(old(repos[k].V()), disk)
    {
      for i := 0 to |repos|
        invariant forall id :: id in byId ==> byId[id].V() == old(byId[id].V())
        invariant forall r :: r in repos ==> r.V() == if r in repos[..i] then GuardRepo(old(r.V()), disk) else old(r.V())
      {
        GuardTwice(old(repos[i].V()), disk);
        ApplyAuthorshipGuard(repos[i], byId, disk);
        assert repos[..i + 1] == repos[..i] + [repos[i]];
      }
    }

    method EnforceAuthorship(snapshot: ManifestModel, proposed: ManifestModel, ghost disk: seq<Repo>)
      requires snapshot.Valid() && proposed.Valid() && snapshot.Repr !! proposed.Repr
      requires disk == RepoValues(snapshot.Repos())
      modifies proposed.Repos()
      ensures proposed.Valid() && proposed.V() == OnRepos(old(proposed.V()), r => GuardRepo(r, disk))
    {
      ghost var was := proposed.V();
      var byId := IndexById(snapshot.Repos());
      ReposOfValue(snapshot);
      ReposOfValue(proposed);
      GuardEach(proposed.Repos(), byId, disk);
      InPlaceMap(proposed, was, r => GuardRepo(r, disk));
    }

    /** repo_focus is copied to repository_type, never the other way. */
    method MirrorRepoFields(m: ManifestModel)
      requires m.Valid()
      modifies m.Repos()
      ensures m.Valid() && m.V() == OnRepos(old(m.V()), MirrorRepo)
    {
      var repos := m.Repos();
      ghost var was := m.V();
      ReposOfValue(m);
      for i := 0 to |repos|
        invariant forall r :: r in repos ==> r.V() == if r in repos[..i] then MirrorRepo(old(r.V())) else old(r.V())
      {
        assert repos[..i + 1] == repos[..i] + [repos[i]];
        repos[i].repositoryType := repos[i].focus;
      }
      InPlaceMap(m, was, MirrorRepo);
    }

    method SynthesizePrimaryIds(areas: seq<AreaModel>) returns (ids: seq<string>)
      ensures ids == PrimaryIds(AreaValues(areas))
    {
      ids := [];
      for i := 0 to |areas|
        invariant ids == PrimaryIds(AreaValues(areas[..i]))
      {
        assert AreaValues(areas[..i + 1])[..i] == AreaValues(areas[..i]);
        if areas[i].repositoryType == Primary {
          ids := ids + [areas[i].focusId];
        }
      }
      assert areas[..|areas|] == areas;
    }

    method AssignAreaTypes(areas: seq<AreaModel>, primary: set<string>)
      modifies areas
      ensures AreaValues(areas) == DeriveAreas(old(AreaValues(areas)), primary)
    {
      for i := 0 to |areas|
        invariant forall a :: a in areas ==> a.V() == if a in areas[..i] then DeriveArea(old(a.V()), primary) else old(a.V())
      {
        assert areas[..i + 1] == areas[..i] + [areas[i]];
        areas[i].repositoryType := if areas[i].focusId in primary then Primary else Support;
      }
    }

    method DeriveFocusAreaTypes(m: ManifestModel)
      requires m.Valid()
      modifies m, m.areas
      ensures m.Valid() && m.Repr == old(m.Repr) && m.V() == Derive(old(m.V()))
    {
      if m.areas == [] {
        return;
      }
      if m.primaryFocusAreaIds == [] {
        var synthesized := SynthesizePrimaryIds(m.areas);
        if synthesized != [] {
          m.primaryFocusAreaIds := synthesized;
        }
      }
      ghost var was := AreaValues(m.areas);
      AssignAreaTypes(m.areas, AsSet(m.primaryFocusAreaIds));
      assert AreaValues(m.areas) == DeriveAreas(was, AsSet(m.primaryFocusAreaIds));
    }

    method PopulateContainerPaths(m: ManifestModel)
      requires m.Valid()
      modifies m.Repos()
      ensures m.Valid() && m.V() == OnRepos(old(m.V()), r => MountRepo(r, mounts))
    {
      var repos := m.Repos();
      ghost var was := m.V();
      ReposOfValue(m);
      for i := 0 to |repos|
        invariant forall r :: r in repos ==> r.V() == if r in repos[..i] then MountRepo(old(r.V()), mounts) else old(r.V())
      {
        assert repos[..i + 1] == repos[..i] + [repos[i]];
        var hosts := repos[i].hosts;
        var containers: seq<Option<string>> := [];
        for k := 0 to |hosts|
          invariant containers == MountRepo(repos[i].V(), mounts).containers[..k]
        {
          containers := containers + [mounts(hosts[k])];
        }
        repos[i].containers := containers;
      }
      InPlaceMap(m, was, r => MountRepo(r, mounts));
    }

    /** Mirror, derive, translate paths, validate; only a valid manifest reaches the disk. */
    method WriteManifest(m: ManifestModel, ghost value: Manifest) returns (ok: bool)
      requires m.Valid() && this !in m.Repr && m.V() == value
      modifies this, m.Repr
      ensures ok == ValidManifest(Written(value, mounts))
      ensures disk == if ok then Written(value, mounts) else old(disk)
    {
      MirrorRepoFields(m);
      DeriveFocusAreaTypes(m);
      PopulateContainerPaths(m);
      var dumped := Dump(m);
      ok := ValidManifest(dumped);
      if ok {
        disk := dumped;
      }
    }

    method Dump(m: ManifestModel) returns (v: Manifest)
      requires m.Valid()
      ensures v == m.V()
    {
      var repos: seq<Repo> := [];
      for i := 0 to |m.repositories|
        invariant repos == RepoValues(m.repositories)[..i]
      {
        repos := repos + [m.repositories[i].V()];
      }
      var areas: seq<Area> := [];
      for i := 0 to |m.areas|
        invariant areas == AreaValues(m.areas)[..i]
      {
        areas := areas + [m.areas[i].V()];
      }
      assert repos == RepoValues(m.repositories) && areas == AreaValues(m.areas);
      v := Manifest(if m.hasRepositories then Some(repos) else None,
                    if m.repository == null then None else Some(m.repository.V()),
                    areas, m.primaryFocusAreaIds);
    }

    method DeepCopy(m: ManifestModel) returns (copy: ManifestModel)
      requires m.Valid()
      ensures copy.Valid() && fresh(copy.Repr) && copy.V() == m.V()
    {
      var v := Dump(m);
      copy := Build(v);
    }

    /** A mutator may assign fields of the very model it is handed and return it, or return a new one.
        Callers know only that the returned graph holds `mutator` of the old value and reaches no object
        other than the model's own and new ones. */
    method RunMutator(m: ManifestModel, mutator: Mutator, inPlace: bool) returns (proposed: ManifestModel)
      requires m.Valid()
      modifies m.Repr
      ensures proposed.Valid() && proposed.V() == mutator(old(m.V()))
      ensures fresh(proposed.Repr - old(m.Repr))
    {
      var v := Dump(m);
      var built := Build(mutator(v));
      if inPlace {
        m.hasRepositories, m.repositories, m.repository := built.hasRepositories, built.repositories, built.repository;
        m.areas, m.primaryFocusAreaIds := built.areas, built.primaryFocusAreaIds;
        m.Repr := m.Repr + built.Repr;
        assert m.V() == built.V();
        return m;
      }
      return built;
    }

    /** Read, copy, mutate, guard against the copy. */
    method ProposeGuarded(mutator: Mutator, inPlace: bool) returns (proposed: ManifestModel)
      ensures proposed.Valid() && fresh(proposed.Repr) && proposed.V() == Guard(mutator(Load(disk)), Load(disk))
    {
      ghost var loaded := Load(disk);
      var diskModel := Build(Load(disk));
      var snapshot := DeepCopy(diskModel);
      proposed := RunMutator(diskModel, mutator, inPlace);
      assert snapshot.V() == loaded;
      ReposOfValue(snapshot);
      EnforceAuthorship(snapshot, proposed, AllRepos(loaded));
    }

    method UpdateManifest(mutator: Mutator, inPlace: bool) returns (ok: bool)
      modifies this
      ensures disk == Update(old(disk), mutator, mounts)
      ensures ok == ValidManifest(Written(Guard(mutator(Load(old(disk))), Load(old(disk))), mounts))
    {
      var proposed := ProposeGuarded(mutator, inPlace);
      ok := WriteManifest(proposed, Guard(mutator(Load(disk)), Load(disk)));
    }
  }
}
