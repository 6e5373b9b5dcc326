/** When the catalog's operations succeed, and what exactly a success leaves behind. */
module ExtensionOutcomes {
  import opened ExtensionAssignments
  import opened ExtensionDisk
  import opened ExtensionInvariant
  import opened ExtensionReconcile
  import opened ExtensionScripts
  import opened ExtensionStages
  import opened JsText
  import opened Wrappers

  // ----- materialising ----------------------------------------------------------

  /** The entry's source can be had and passes inspection. */
  ghost predicate Obtainable(d: Disk, e: Entry, p: Platform, env: Env) {
    Obtain(d, e.source, env).Some? && p.Inspect(e.kind, Obtain(d, e.source, env).value.tree).Some?
  }

  ghost predicate NoCopyFault(env: Env, id: string) {
    !env.fails(Validation, id) && !env.fails(TargetRename, id) && !env.fails(ReceiptWrite, id)
  }

  lemma MaterializeSucceedsIff(d: Disk, e: Entry, existing: Option<Receipt>, p: Platform, env: Env)
    ensures MaterializeScript(d, e, existing, p, env).ok <==>
            e.provider == p.provider && Obtainable(d, e, p, env) && NoCopyFault(env, e.id)
  {}

  /** A receipt says what was copied, for which entry, from what kind of source, and when. */
  ghost predicate ReceiptFor(r: Receipt, e: Entry, tree: Content) {
    && r.id == e.id && r.kind == e.kind && r.provider == e.provider && r.digest == DigestOf(tree)
    && r.runtimePath == (match e.kind case Skill => ".platform-state/skills/" case Plugin => ".platform-state/plugins/") + e.id
    && r.sourceType == match e.source
                       case Git(_, _, _) => GitSource
                       case Local(_, _) => LocalSource
                       case DirectAttachment(_) => AuthoredSource
  }

  /** After a materialisation: the obtained tree is the copy, and its receipt is complete. */
  lemma {:induction false} MaterializeLeaves(d: Disk, e: Entry, existing: Option<Receipt>, p: Platform, env: Env)
    requires MaterializeScript(d, e, existing, p, env).ok
    ensures var v := Perform(d, MaterializeScript(d, e, existing, p, env).actions);
            var f := Obtain(d, e.source, env).value;
            && e.At() in v.copies && v.copies[e.At()] == f.tree
            && e.At() in v.receipts && ReceiptFor(v.receipts[e.At()], e, f.tree)
            && v.receipts[e.At()].commitSha == f.commitSha && (!e.source.Git? ==> f.commitSha == "")
            && v.receipts[e.At()].importedAt == (if existing.Some? then existing.value.importedAt else env.now)
            && v.receipts[e.At()].reseededAt == (if existing.Some? then Some(env.now) else None)
  {
    MaterializeEffect(d, e, existing, p, env);
  }

  /** An entry is healthy exactly when its copy and receipt are what some materialisation would leave. */
  lemma HealthyIff(d: Disk, e: Entry)
    ensures Healthy(d, e) <==>
            && e.At() in d.copies && e.At() in d.receipts && ReceiptFor(d.receipts[e.At()], e, d.copies[e.At()])
            && (e.source.Git? ==> d.receipts[e.At()].commitSha != "")
  {}

  // ----- add ---------------------------------------------------------------------

  /** A request the catalog takes: for its own provider, a well-formed id that is not in use, and no plugin from
      pasted text. */
  ghost predicate Acceptable(d: Disk, p: Platform, req: AddRequest) {
    && req.provider == p.provider && (req.source.AddAuthored? ==> req.kind == Skill)
    && Readable(d.manifest, p.provider) && ValidId(req.id) && (forall e :: e in d.manifest ==> e.id != req.id)
  }

  /** The entry an add enters. */
  ghost predicate Enters(e: Entry, req: AddRequest, m: Metadata) {
    && e.id == req.id && e.kind == req.kind && e.provider == req.provider && e.enabled
    && e.displayName == m.displayName && e.description == m.description
    && e.source == match req.source
                   case AddGit(url, ref, subpath) => Git(url, ref, subpath)
                   case AddLocal(path, subpath) => Local(path, subpath)
                   case AddAuthored(_) => DirectAttachment("config/skill-authored/" + req.id + "/SKILL.md")
  }

  /** What an add fetches: the pasted document itself, or what its source gives. */
  function Offered(req: AddRequest, env: Env): Option<Content> {
    match req.source
    case AddAuthored(markdown) => Some(map["SKILL.md" := markdown])
    case AddGit(url, ref, subpath) =>
      (match env.fetch(Git(url, ref, subpath)) case Some(f) => Some(f.tree) case None => None)
    case AddLocal(path, subpath) =>
      (match env.fetch(Local(path, subpath)) case Some(f) => Some(f.tree) case None => None)
  }

  ghost predicate NoAddFault(env: Env, req: AddRequest) {
    && NoCopyFault(env, req.id) && !env.fails(Inspection, req.id) && !env.fails(ManifestWrite, req.id)
    && (req.source.AddAuthored? ==> !env.fails(AuthoredWrite, req.id))
  }

  lemma {:induction false} OfferedIsObtained(d: Disk, p: Platform, req: AddRequest, env: Env, m: Metadata)
    ensures var found := Obtain(Perform(d, AuthorScript(req)), AddedEntry(req, p, m).source, env);
            && (found.Some? <==> Offered(req, env).Some?)
            && (found.Some? ==> found.value.tree == Offered(req, env).value)
  {
    if req.source.AddAuthored? {
      PerformOne(d, WriteAuthored(req.id, req.source.markdown));
    }
  }

  /** An add succeeds exactly when the request is acceptable, what it offers passes inspection, and nothing throws. */
  lemma {:induction false} AddSucceedsIff(d: Disk, p: Platform, env: Env, req: AddRequest)
    ensures AddScript(d, p, env, req).ok <==>
            && Acceptable(d, p, req) && NoAddFault(env, req)
            && Offered(req, env).Some? && p.Inspect(req.kind, Offered(req, env).value).Some?
  {
    if AddAccepted(d, p, req) {
      var pending := AddedEntry(req, p, Metadata(req.id, "pending"));
      var authored := AuthorScript(req);
      var w := Perform(d, authored);
      OfferedIsObtained(d, p, req, env, Metadata(req.id, "pending"));
      MaterializeSucceedsIff(w, pending, None, p, env);
      if MaterializeScript(w, pending, None, p, env).ok {
        var mat := MaterializeScript(w, pending, None, p, env);
        PerformConcat(d, authored, mat.actions);
        MaterializeEffect(w, pending, None, p, env);
      }
    }
  }

  /** A successful add leaves one new entry, enabled and as requested, with what was offered as its copy and a
      complete receipt; every other entry and all assignments stay. */
  lemma {:induction false} AddLeaves(d: Disk, p: Platform, env: Env, req: AddRequest) returns (e: Entry)
    requires AddScript(d, p, env, req).ok
    ensures Offered(req, env).Some? && p.Inspect(req.kind, Offered(req, env).value).Some?
    ensures Enters(e, req, p.Inspect(req.kind, Offered(req, env).value).value)
    ensures var v := Perform(d, AddScript(d, p, env, req).actions);
            && (forall x :: x in v.manifest <==> x in d.manifest || x == e)
            && v.assignments == d.assignments && SameOthers(d, v, req.id)
            && e.At() in v.copies && v.copies[e.At()] == Offered(req, env).value
            && e.At() in v.receipts && ReceiptFor(v.receipts[e.At()], e, Offered(req, env).value)
            && v.receipts[e.At()].importedAt == env.now && v.receipts[e.At()].reseededAt.None?
  {
    var f, m := AddedIsHealthy(d, p, env, req);
    e := AddedEntry(req, p, m);
    AddedTree(d, p, env, req, f);
    AddedReceipt(d, p, env, req, e);
    AddedForProvider(d, p, env, req);
    EntersAsAsked(p, req, m);
    Appended(d.manifest, e);
  }

  lemma {:induction false} Appended<T>(xs: seq<T>, x: T)
    ensures forall y :: y in xs + [x] <==> y in xs || y == x
  {}

  lemma AddedForProvider(d: Disk, p: Platform, env: Env, req: AddRequest)
    requires AddScript(d, p, env, req).ok
    ensures req.provider == p.provider
  {}

  lemma EntersAsAsked(p: Platform, req: AddRequest, m: Metadata)
    requires req.provider == p.provider
    ensures Enters(AddedEntry(req, p, m), req, m)
  {}

  lemma {:induction false} AddedTree(d: Disk, p: Platform, env: Env, req: AddRequest, f: Fetched)
    requires Obtain(Perform(d, AuthorScript(req)), AddedSource(req), env) == Some(f)
    ensures Offered(req, env) == Some(f.tree)
  {
    OfferedIsObtained(d, p, req, env, Metadata("", ""));
  }

  lemma {:induction false} AddedReceipt(d: Disk, p: Platform, env: Env, req: AddRequest, e: Entry)
    requires AddScript(d, p, env, req).ok && e.kind == req.kind && e.id == req.id && e.provider == p.provider
    requires e.source == AddedSource(req)
    ensures var v := Perform(d, AddScript(d, p, env, req).actions);
            && e.At() in v.copies && e.At() in v.receipts && ReceiptFor(v.receipts[e.At()], e, v.copies[e.At()])
            && v.receipts[e.At()].importedAt == env.now && v.receipts[e.At()].reseededAt.None?
  {
    var f, m := AddEffect(d, p, env, req);
  }

  // ----- reseed, delete, save ---------------------------------------------------------

  lemma {:induction false} ReseedSucceedsIff(d: Disk, p: Platform, env: Env, id: string)
    ensures ReseedScript(d, p, env, id).ok <==>
            && Readable(d.manifest, p.provider) && !env.fails(Inspection, id) && !env.fails(ManifestWrite, id)
            && NoCopyFault(env, id) && exists e :: e in d.manifest && e.id == id && Obtainable(d, e, p, env)
  {
    if Readable(d.manifest, p.provider) && Find(d.manifest, id).Some? {
      var e := Find(d.manifest, id).value;
      var existing := ReadReceipt(d, e.At());
      OnlyEntry(d.manifest, e);
      ProviderOf(d.manifest, p.provider, e);
      MaterializeSucceedsIff(d, e, existing, p, env);
      if MaterializeScript(d, e, existing, p, env).ok {
        MaterializeEffect(d, e, existing, p, env);
      }
    }
  }

  lemma OnlyEntry(entries: seq<Entry>, e: Entry)
    requires DistinctIds(entries) && e in entries
    ensures forall x :: x in entries && x.id == e.id ==> x == e
  {}

  lemma ProviderOf(entries: seq<Entry>, provider: string, e: Entry)
    requires Readable(entries, provider) && e in entries
    ensures e.provider == provider
  {}

  /** A successful reseed renews the entry's description and its copy, and nothing else of the manifest. */
  lemma {:induction false} ReseedLeaves(d: Disk, p: Platform, env: Env, id: string) returns (e: Entry)
    requires ReseedScript(d, p, env, id).ok
    ensures e in d.manifest && e.id == id && Obtainable(d, e, p, env)
    ensures var v := Perform(d, ReseedScript(d, p, env, id).actions);
            var tree := Obtain(d, e.source, env).value.tree;
            var m := p.Inspect(e.kind, tree).value;
            && |v.manifest| == |d.manifest|
            && (forall i :: 0 <= i < |d.manifest| ==>
                  v.manifest[i] == if d.manifest[i].id == id
                                   then d.manifest[i].(displayName := m.displayName, description := m.description)
                                   else d.manifest[i])
            && v.assignments == d.assignments && e.At() in v.copies && v.copies[e.At()] == tree
            && e.At() in v.receipts && ReceiptFor(v.receipts[e.At()], e, tree)
            && v.receipts[e.At()].reseededAt == (if ReadReceipt(d, e.At()).Some? then Some(env.now) else None)
  {
    var m;
    e, m := ReseededKeepsIdentity(d, p, env, id);
    ReseedFiles(d, p, env, id, e, m);
  }

  lemma {:induction false} ReseedFiles(d: Disk, p: Platform, env: Env, id: string, e: Entry, m: Metadata)
    requires ReseedScript(d, p, env, id).ok && Find(d.manifest, id) == Some(e)
    ensures Obtainable(d, e, p, env) && NoCopyFault(env, id)
    ensures var v := Perform(d, ReseedScript(d, p, env, id).actions);
            var tree := Obtain(d, e.source, env).value.tree;
            && e.At() in v.copies && v.copies[e.At()] == tree
            && e.At() in v.receipts && ReceiptFor(v.receipts[e.At()], e, tree)
            && v.receipts[e.At()].reseededAt == (if ReadReceipt(d, e.At()).Some? then Some(env.now) else None)
  {
    var existing := ReadReceipt(d, e.At());
    var mat := MaterializeScript(d, e, existing, p, env);
    MaterializeSucceedsIff(d, e, existing, p, env);
    MaterializeLeaves(d, e, existing, p, env);
    var n := InspectCopy(Perform(d, mat.actions), e.At(), p, env).value;
    PerformThen(d, mat.actions, WriteManifest(WithMetadata(d.manifest, id, n)));
  }

  /** A delete succeeds exactly when the id is in the catalog, nobody launches with it unless that may be undone, and
      nothing throws. */
  lemma {:induction false} DeleteSucceedsIff(d: Disk, p: Platform, env: Env, id: string, removeAssignments: bool)
    ensures DeleteScript(d, p, env, id, removeAssignments).ok <==>
            && Readable(d.manifest, p.provider) && (exists e :: e in d.manifest && e.id == id)
            && ((exists agent :: Holds(Load(d.assignments, p.roster), agent, id)) ==>
                  removeAssignments && !env.fails(AssignmentsWrite, id))
            && !env.fails(ManifestWrite, id)
  {
    AssignedIffHeld(Load(d.assignments, p.roster), id);
  }

  lemma AssignedIffHeld(file: seq<Assignment>, id: string)
    ensures AssignedIn(file, id) <==> exists agent :: Holds(file, agent, id)
  {
    if i :| 0 <= i < |file| && id in file[i].ids {
      assert Holds(file, file[i].agent, id);
    }
  }

  /** A save succeeds exactly when the manifest can be read, only known agents and enabled extensions are named, and
      the write does not throw. */
  lemma {:induction false} SaveSucceedsIff(d: Disk, p: Platform, env: Env, file: seq<Assignment>)
    ensures SaveScript(d, p, env, file).ok <==>
            && Readable(d.manifest, p.provider) && !env.fails(AssignmentsWrite, "")
            && (forall i :: 0 <= i < |file| ==> file[i].agent in p.roster)
            && (forall agent, id :: Holds(file, agent, id) ==> exists e :: e in d.manifest && e.id == id && e.enabled)
  {
    if forall agent, id :: Holds(file, agent, id) ==> exists e :: e in d.manifest && e.id == id && e.enabled {
      forall i, j | 0 <= i < |file| && 0 <= j < |file[i].ids| ensures EnabledIn(d.manifest, file[i].ids[j]) {
        assert Holds(file, file[i].agent, file[i].ids[j]);
      }
    }
    if AssignmentsAccepted(d.manifest, p.roster, file) {
      forall agent, id | Holds(file, agent, id) ensures EnabledIn(d.manifest, id) {
        var i :| 0 <= i < |file| && file[i].agent == agent && id in file[i].ids;
        assert AssignmentAccepted(d.manifest, p.roster, file[i]);
      }
    }
  }

  // ----- the counts of a reconciliation --------------------------------------------------

  ghost function HowMany(entries: seq<Entry>, f: Entry -> bool): nat {
    if entries == [] then 0
    else HowMany(entries[..|entries| - 1], f) + if f(entries[|entries| - 1]) then 1 else 0
  }

  ghost predicate CanRepair(d: Disk, e: Entry, p: Platform, env: Env) {
    e.provider == p.provider && Obtainable(d, e, p, env) && NoCopyFault(env, e.id)
  }

  /** Materialised: no copy before and one now; repaired: a copy before that was not healthy; unavailable: the rest of
      the unhealthy ones. */
  lemma {:induction false} ReconcileCounts(d: Disk, p: Platform, env: Env)
    requires Readable(d.manifest, p.provider)
    ensures var c := ReconcileScript(d, p, env).counts;
            && c.materialized == HowMany(d.manifest, e => !Healthy(d, e) && CanRepair(d, e, p, env) && e.At() !in d.copies)
            && c.repaired == HowMany(d.manifest, e => !Healthy(d, e) && CanRepair(d, e, p, env) && e.At() in d.copies)
            && c.unavailable == HowMany(d.manifest, e => !Healthy(d, e) && !CanRepair(d, e, p, env))
  {
    CountsAreIndependent(d, d.manifest, p, env);
    TallyCounts(d, d.manifest, p, env);
  }

  lemma {:induction false} TallyCounts(d: Disk, entries: seq<Entry>, p: Platform, env: Env)
    ensures var c := TallyAll(d, entries, p, env);
            && c.materialized == HowMany(entries, e => !Healthy(d, e) && CanRepair(d, e, p, env) && e.At() !in d.copies)
            && c.repaired == HowMany(entries, e => !Healthy(d, e) && CanRepair(d, e, p, env) && e.At() in d.copies)
            && c.unavailable == HowMany(entries, e => !Healthy(d, e) && !CanRepair(d, e, p, env))
    decreases |entries|
  {
    if entries != [] {
      TallyCounts(d, entries[..|entries| - 1], p, env);
      MaterializeSucceedsIff(d, entries[|entries| - 1], None, p, env);
    }
  }

  // ----- staging ---------------------------------------------------------------------------

  lemma {:induction false} CopiesSucceedIff(d: Disk, launch: string, entries: seq<Entry>, env: Env)
    ensures CopyScript(d, launch, entries, env).ok <==>
            forall e :: e in entries ==> e.At() in d.copies && !env.fails(StageCopy, e.id)
    decreases |entries|
  {
    if entries != [] {
      CopiesSucceedIff(d, launch, entries[..|entries| - 1], env);
      assert forall e :: e in entries <==> e in entries[..|entries| - 1] || e == entries[|entries| - 1];
    }
  }

  /** Staging for a launch succeeds exactly when its id is well-formed and either nothing is assigned, or every assigned
      id is an enabled entry with a copy and nothing throws. */
  lemma {:induction false} StageSucceedsIff(d: Disk, p: Platform, env: Env, agent: string, launch: string)
    ensures var ids := IdsOf(Load(d.assignments, p.roster), agent);
            StageScript(d, p, env, agent, launch).ok <==>
            && ValidLaunchId(launch)
            && (ids != [] ==>
                  && Readable(d.manifest, p.provider) && !env.fails(StageBegin, "") && !env.fails(StageManifest, "")
                  && (forall id :: id in ids ==> !env.fails(StageCopy, id))
                  && (forall id :: id in ids ==>
                        exists e :: e in d.manifest && e.id == id && e.enabled && e.At() in d.copies))
  {
    var ids := IdsOf(Load(d.assignments, p.roster), agent);
    if ids != [] && Readable(d.manifest, p.provider) {
      var sorted := Sort(ids);
      assert forall id :: id in sorted <==> id in ids by {
        forall id ensures id in sorted <==> id in ids {
          SortKeepsMembers(ids, id);
        }
      }
      ResolveIff(d, p, sorted);
      if Resolve(d, sorted).Some? {
        ResolvedEntries(d, sorted);
        CopiesSucceedIff(d, launch, Resolve(d, sorted).value, env);
        ResolvedIds(Resolve(d, sorted).value, sorted);
      }
    }
  }

  lemma ResolvedIds(entries: seq<Entry>, ids: seq<string>)
    requires |entries| == |ids| && forall i :: 0 <= i < |ids| ==> entries[i].id == ids[i]
    ensures forall id :: id in ids <==> exists e :: e in entries && e.id == id
  {
    forall id | id in ids ensures exists e :: e in entries && e.id == id {
      var i :| 0 <= i < |ids| && ids[i] == id;
      assert entries[i] in entries;
    }
  }

  lemma {:induction false} ResolveIff(d: Disk, p: Platform, ids: seq<string>)
    requires Readable(d.manifest, p.provider)
    ensures Resolve(d, ids).Some? <==>
            forall id :: id in ids ==> exists e :: e in d.manifest && e.id == id && e.enabled && e.At() in d.copies
  {
    ResolveSucceedsIff(d, ids);
    forall e | e in d.manifest ensures Find(d.manifest, e.id) == Some(e) {
      FindDistinct(d.manifest, e);
    }
  }

  /** Cleaning up after a launch removes its stage and nothing else; an ill-formed id is refused. */
  lemma {:induction false} CleanupLeaves(d: Disk, p: Platform, env: Env, launch: string)
    ensures var s := ScriptOf(d, p, env, CleanupStage(launch));
            && (s.ok <==> ValidLaunchId(launch))
            && Perform(d, s.actions) == if ValidLaunchId(launch) then d.(stages := d.stages - {launch}) else d
  {
    if ValidLaunchId(launch) {
      PerformOne(d, RmStage(launch));
    }
  }

  /** A launch id is one component of a path: 1 to 128 letters, digits, dots, underscores and dashes, and neither of
      the two dot directories. */
  lemma LaunchIdIsComponent(launch: string)
    ensures ValidLaunchId(launch) <==>
            && 0 < |launch| < 129 && launch != "." && launch != ".."
            && forall c :: c in launch ==>
                 'a' <= c <= 'z' || 'A' <= c <= 'Z' || '0' <= c <= '9' || c == '.' || c == '_' || c == '-'
    ensures ValidLaunchId(launch) ==> '/' !in launch && '\\' !in launch && '\0' !in launch
  {
    assert forall i :: 0 <= i < |launch| ==> launch[i] in launch;
  }

  // ----- what inspection reads -------------------------------------------------------------

  /** A skill is described by the trimmed name and description of its front matter, and refused when one of them is
      blank; a plugin by the name its provider reports, and its description or else a sentence with that name. */
  lemma InspectSays(p: Platform, kind: Kind, tree: Content)
    ensures kind == Skill ==>
              var f := p.frontMatter(tree);
              && (p.Inspect(kind, tree).Some? <==> f.Some? && !IsBlank(f.value.name) && !IsBlank(f.value.description))
              && (p.Inspect(kind, tree).Some? ==>
                    var m := p.Inspect(kind, tree).value;
                    Trims(f.value.name, m.displayName) && Trims(f.value.description, m.description))
    ensures kind == Plugin ==>
              var s := p.summarize(tree);
              && (p.Inspect(kind, tree).Some? <==> s.Some?)
              && (s.Some? ==>
                    var m := p.Inspect(kind, tree).value;
                    && m.displayName == s.value.name
                    && (if IsBlank(s.value.description) then m.description == "Plugin " + s.value.name + "."
                        else Trims(s.value.description, m.description)))
  {
    if kind == Skill && p.frontMatter(tree).Some? {
      TrimSays(p.frontMatter(tree).value.name);
      TrimSays(p.frontMatter(tree).value.description);
    }
    if kind == Plugin && p.summarize(tree).Some? {
      TrimSays(p.summarize(tree).value.description);
    }
  }

  // ----- what a readable manifest holds ------------------------------------------------------

  /** One component of the path is the parent directory. */
  ghost predicate ClimbsUp(path: string) {
    exists before, after :: ClimbsBetween(path, before, after)
  }

  ghost predicate ClimbsBetween(path: string, before: string, after: string) {
    && path == before + ".." + after
    && (before == "" || IsSlash(before[|before| - 1])) && (after == "" || IsSlash(after[0]))
  }

  lemma ClimbsAt(path: string, i: nat)
    requires i < |path| && ParentAt(path, i)
    ensures ClimbsBetween(path, path[..i], path[i + 2..])
  {
    assert path == path[..i] + ".." + path[i + 2..];
  }

  lemma ParentBetween(path: string, before: string, after: string)
    requires ClimbsBetween(path, before, after)
    ensures |before| < |path| && ParentAt(path, |before|)
  {
    var i := |before|;
    assert path[i] == ".."[0] && path[i + 1] == ".."[1];
    assert after != "" ==> path[i + 2] == after[0];
  }

  lemma ParentAtIff(path: string)
    ensures (exists i :: 0 <= i < |path| && ParentAt(path, i)) <==> ClimbsUp(path)
  {
    if i :| 0 <= i < |path| && ParentAt(path, i) {
      ClimbsAt(path, i);
    }
    if ClimbsUp(path) {
      var before, after :| ClimbsBetween(path, before, after);
      ParentBetween(path, before, after);
    }
  }

  /** A path that a source may give: neither absolute nor climbing up. */
  lemma SafePathIff(path: string)
    ensures SafeRelativePath(path) <==> !("/" <= path) && !ClimbsUp(path)
  {
    ParentAtIff(path);
  }

  ghost predicate PathOk(path: Option<string>) {
    path.Some? ==> !("/" <= path.value) && !ClimbsUp(path.value)
  }

  /** The manifest can be read exactly when its ids are distinct and well-formed, every entry is the provider's, says
      something about itself, has a source that stays where it is, and no plugin comes from an attached document. */
  lemma {:induction false} ReadableIff(entries: seq<Entry>, provider: string)
    ensures Readable(entries, provider) <==>
            && (forall i, j :: 0 <= i < j < |entries| ==> entries[i].id != entries[j].id)
            && forall e :: e in entries ==>
                 && ValidId(e.id) && e.provider == provider
                 && (exists c :: c in e.displayName && !IsTrimmed(c)) && (exists c :: c in e.description && !IsTrimmed(c))
                 && (match e.source
                     case Git(_, _, subpath) => PathOk(subpath)
                     case Local(_, subpath) => PathOk(subpath)
                     case DirectAttachment(path) => PathOk(Some(path)) && e.kind == Skill)
  {
    forall e | e in entries ensures SafeSource(e.source) <==> SourceOk(e.source) {
      SafeSourceIff(e.source);
    }
    assert forall i :: 0 <= i < |entries| ==> entries[i] in entries;
  }

  ghost predicate SourceOk(source: Source) {
    match source
    case Git(_, _, subpath) => PathOk(subpath)
    case Local(_, subpath) => PathOk(subpath)
    case DirectAttachment(path) => PathOk(Some(path))
  }

  lemma SafeSourceIff(source: Source)
    ensures SafeSource(source) <==> SourceOk(source)
  {
    match source
    case Git(_, _, subpath) => if subpath.Some? { SafePathIff(subpath.value); }
    case Local(_, subpath) => if subpath.Some? { SafePathIff(subpath.value); }
    case DirectAttachment(path) => SafePathIff(path);
  }

  /** An id is 1 to 64 lower-case letters, digits and dashes, and does not begin with a dash. */
  lemma ValidIdIff(id: string)
    ensures ValidId(id) <==>
            && 0 < |id| < 65 && id[0] != '-'
            && forall c :: c in id ==> 'a' <= c <= 'z' || '0' <= c <= '9' || c == '-'
  {
    assert forall i :: 0 <= i < |id| ==> id[i] in id;
  }
}
