/** The catalog's operations, each a sequence of calls on the file system, proved to take exactly the steps of
    its script. */
module ExtensionCatalog {
  import opened JsText
  import opened Wrappers
  import opened ExtensionAssignments
  import opened ExtensionDisk
  import opened ExtensionScripts

  /** The file-system adapter. `log` records every step since `base`: its prefixes are what a crash can leave. */
  class FileSystem {
    var disk: Disk
    ghost var base: Disk
    ghost var log: seq<Action>

    ghost predicate Valid()
      reads this
    {
      disk == Perform(base, log)
    }

    constructor (d: Disk)
      ensures Valid() && disk == base == d && log == []
    {
      disk, base, log := d, d, [];
    }

    method Do(a: Action)
      requires Valid()
      modifies this
      ensures Valid() && base == old(base) && log == old(log) + [a] && disk == Apply(old(disk), a)
    {
      disk := Apply(disk, a);
      PerformThen(base, log, a);
      log := log + [a];
    }
  }

  /** The steps `actions`, and no others, were taken. */
  twostate predicate Took(fs: FileSystem, actions: seq<Action>)
    reads fs
  {
    && fs.Valid() && fs.base == old(fs.base) && fs.log == old(fs.log) + actions
    && fs.disk == Perform(old(fs.disk), actions)
  }

  lemma Join<T>(x: seq<T>, y: seq<T>, z: seq<T>)
    ensures (x + y) + z == x + (y + z)
  {}

  method FetchSource(fs: FileSystem, source: Source, env: Env) returns (fetched: Option<Fetched>)
    ensures fetched == Obtain(fs.disk, source, env)
  {
    match source
    case Git(_, _, _) => fetched := env.fetch(source);
    case Local(_, _) =>
      fetched := env.fetch(source);
      if fetched.Some? {
        fetched := Some(fetched.value.(commitSha := ""));
      }
    case DirectAttachment(path) =>
      if path in fs.disk.authored {
        fetched := Some(Fetched(map["SKILL.md" := fs.disk.authored[path]], ""));
      } else {
        fetched := None;
      }
  }

  /** Remove a stale temporary tree, then fetch the source into a new one. */
  method FillTempDir(fs: FileSystem, e: Entry, t: TempKey, env: Env) returns (fetched: Option<Fetched>)
    requires fs.Valid()
    modifies fs
    ensures fetched == Obtain(old(fs.disk), e.source, env)
    ensures Took(fs, if fetched.Some? then FillScript(t, env.torn) + [FillTemp(t, fetched.value.tree)]
                     else FillScript(t, env.torn))
    ensures fs.disk.copies == old(fs.disk).copies
  {
    ghost var log := fs.log;
    fs.Do(RmTemp(t));
    fs.Do(FillTemp(t, map[]));
    fetched := FetchSource(fs, e.source, env);
    fs.Do(FillTemp(t, env.torn));
    ghost var done := FillScript(t, env.torn);
    assert fs.log == log + done;
    if fetched.Some? {
      fs.Do(FillTemp(t, fetched.value.tree));
      Join(log, done, [FillTemp(t, fetched.value.tree)]);
      done := done + [FillTemp(t, fetched.value.tree)];
    }
    PerformConcat(fs.base, log, done);
  }

  /** Remove the existing copy, then rename the temporary tree into its place. */
  method SafeDirReplace(fs: FileSystem, t: TempKey, key: Key, fails: bool)
    requires fs.Valid()
    modifies fs
    ensures Took(fs, if fails then ClearScript(old(fs.disk), key)
                     else ClearScript(old(fs.disk), key) + [Rename(t, key)])
  {
    ghost var log := fs.log;
    ghost var done := if fails then ClearScript(fs.disk, key) else ClearScript(fs.disk, key) + [Rename(t, key)];
    if key in fs.disk.copies {
      fs.Do(RmCopy(key));
    }
    if !fails {
      fs.Do(Rename(t, key));
    }
    assert fs.log == log + done;
    PerformConcat(fs.base, log, done);
  }

  lemma PlaceReadsCopies(d: Disk, w: Disk, e: Entry, f: Fetched, existing: Option<Receipt>, env: Env)
    requires d.copies == w.copies
    ensures PlaceScript(d, e, f, existing, env) == PlaceScript(w, e, f, existing, env)
  {}

  method PlaceCopy(fs: FileSystem, e: Entry, f: Fetched, existing: Option<Receipt>, env: Env) returns (ok: bool)
    requires fs.Valid()
    modifies fs
    ensures ok == PlaceScript(old(fs.disk), e, f, existing, env).ok
    ensures Took(fs, PlaceScript(old(fs.disk), e, f, existing, env).actions)
  {
    ghost var log := fs.log;
    PerformConcat(fs.base, log, PlaceScript(fs.disk, e, f, existing, env).actions);
    var t := TempKey(e.id, env.pid);
    SafeDirReplace(fs, t, e.At(), env.fails(TargetRename, e.id));
    ghost var replaced := fs.log[|log|..];
    ok := !env.fails(TargetRename, e.id) && !env.fails(ReceiptWrite, e.id);
    var last := if ok then WriteReceipt(e.At(), NewReceipt(e, f, existing, env.now)) else RmTemp(t);
    fs.Do(last);
    Join(log, replaced, [last]);
  }

  /** materializeExtension and reseedExtension. */
  method MaterializeExtension(fs: FileSystem, e: Entry, existing: Option<Receipt>, p: Platform, env: Env)
    returns (ok: bool)
    requires fs.Valid()
    modifies fs
    ensures ok == MaterializeScript(old(fs.disk), e, existing, p, env).ok
    ensures Took(fs, MaterializeScript(old(fs.disk), e, existing, p, env).actions)
  {
    ghost var log := fs.log;
    ghost var s := MaterializeScript(fs.disk, e, existing, p, env);
    PerformConcat(fs.base, log, s.actions);
    assert log + [] == log;
    if e.provider != p.provider {
      return false;
    }
    var t := TempKey(e.id, env.pid);
    ghost var d := fs.disk;
    var fetched := FillTempDir(fs, e, t, env);
    ghost var filled := fs.log[|log|..];
    if fetched.None? || p.Inspect(e.kind, fetched.value.tree).None? || env.fails(Validation, e.id) {
      fs.Do(RmTemp(t));
      Join(log, filled, [RmTemp(t)]);
      return false;
    }
    PlaceReadsCopies(d, fs.disk, e, fetched.value, existing, env);
    ok := PlaceCopy(fs, e, fetched.value, existing, env);
    Join(log, filled, PlaceScript(d, e, fetched.value, existing, env).actions);
  }

  method CleanupFailedAdd(fs: FileSystem, req: AddRequest)
    requires fs.Valid()
    modifies fs
    ensures Took(fs, CleanupScript(req))
  {
    ghost var log := fs.log;
    PerformConcat(fs.base, log, CleanupScript(req));
    var key := Key(req.kind, req.id);
    fs.Do(RmCopy(key));
    fs.Do(RmReceipt(key));
    if req.source.AddAuthored? {
      fs.Do(RmAuthored(req.id));
    }
    assert fs.log == log + CleanupScript(req);
  }

  /** resolveAddSource: the authored document of a direct attachment is written first. */
  method ResolveAddSource(fs: FileSystem, req: AddRequest, env: Env) returns (ok: bool)
    requires fs.Valid()
    modifies fs
    ensures ok == !(req.source.AddAuthored? && env.fails(AuthoredWrite, req.id))
    ensures Took(fs, if ok then AuthorScript(req) else [])
  {
    ghost var log := fs.log;
    assert log + [] == log;
    PerformConcat(fs.base, log, AuthorScript(req));
    if req.source.AddAuthored? {
      if env.fails(AuthoredWrite, req.id) {
        return false;
      }
      fs.Do(WriteAuthored(req.id, req.source.markdown));
    }
    return true;
  }

  /** Author, materialise and inspect: everything an add does between its checks and its manifest write. */
  method MakeExtension(fs: FileSystem, req: AddRequest, p: Platform, env: Env) returns (meta: Option<Metadata>)
    requires fs.Valid() && !(req.source.AddAuthored? && env.fails(AuthoredWrite, req.id))
    modifies fs
    ensures var authored := AuthorScript(req);
            var pending := AddedEntry(req, p, Metadata(req.id, "pending"));
            var mat := MaterializeScript(Perform(old(fs.disk), authored), pending, None, p, env);
            && Took(fs, authored + mat.actions)
            && meta == if mat.ok then InspectCopy(Perform(old(fs.disk), authored + mat.actions), pending.At(), p, env)
                       else None
  {
    ghost var d, log, authored := fs.disk, fs.log, AuthorScript(req);
    var resolved := ResolveAddSource(fs, req, env);
    var pending := AddedEntry(req, p, Metadata(req.id, "pending"));
    ghost var mat := MaterializeScript(fs.disk, pending, None, p, env);
    var materialized := MaterializeExtension(fs, pending, None, p, env);
    PerformConcat(d, authored, mat.actions);
    Join(log, authored, mat.actions);
    if !materialized {
      return None;
    }
    meta := InspectCopy(fs.disk, pending.At(), p, env);
  }

  /** The checks of an add, before anything is written. */
  method CheckAdd(fs: FileSystem, req: AddRequest, p: Platform) returns (ok: bool)
    ensures ok == AddAccepted(fs.disk, p, req)
  {
    if req.provider != p.provider || (req.kind == Plugin && req.source.AddAuthored?) {
      return false;
    }
    if !Readable(fs.disk.manifest, p.provider) || !ValidId(req.id) {
      return false;
    }
    return Find(fs.disk.manifest, req.id).None?;
  }

  method AddAgentExtension(fs: FileSystem, req: AddRequest, p: Platform, env: Env) returns (ok: bool)
    requires fs.Valid()
    modifies fs
    ensures ok == AddScript(old(fs.disk), p, env, req).ok
    ensures Took(fs, AddScript(old(fs.disk), p, env, req).actions)
  {
    ghost var log := fs.log;
    ghost var s := AddScript(fs.disk, p, env, req);
    PerformConcat(fs.base, log, s.actions);
    assert log + [] == log;
    var accepted := CheckAdd(fs, req, p);
    if !accepted {
      return false;
    }
    var manifest := fs.disk.manifest;
    if req.source.AddAuthored? && env.fails(AuthoredWrite, req.id) {
      CleanupFailedAdd(fs, req);
      return false;
    }
    var meta := MakeExtension(fs, req, p, env);
    ghost var made := fs.log[|log|..];
    if meta.None? || env.fails(ManifestWrite, req.id) {
      CleanupFailedAdd(fs, req);
      Join(log, made, CleanupScript(req));
      return false;
    }
    var last := WriteManifest(manifest + [AddedEntry(req, p, meta.value)]);
    fs.Do(last);
    Join(log, made, [last]);
    return true;
  }

  method ReseedAgentExtension(fs: FileSystem, id: string, p: Platform, env: Env) returns (ok: bool)
    requires fs.Valid()
    modifies fs
    ensures ok == ReseedScript(old(fs.disk), p, env, id).ok
    ensures Took(fs, ReseedScript(old(fs.disk), p, env, id).actions)
  {
    ghost var d, log := fs.disk, fs.log;
    ghost var s := ReseedScript(d, p, env, id);
    PerformConcat(fs.base, log, s.actions);
    assert log + [] == log;
    var manifest := fs.disk.manifest;
    if !Readable(manifest, p.provider) {
      return false;
    }
    var found := Find(manifest, id);
    if found.None? {
      return false;
    }
    var e := found.value;
    var existing := ReadReceipt(fs.disk, e.At());
    var materialized := MaterializeExtension(fs, e, existing, p, env);
    if !materialized {
      return false;
    }
    var meta := InspectCopy(fs.disk, e.At(), p, env);
    if meta.None? || env.fails(ManifestWrite, id) {
      return false;
    }
    fs.Do(WriteManifest(WithMetadata(manifest, id, meta.value)));
    assert fs.log == log + s.actions;
    return true;
  }

  /** Assignments first, then the runtime copy, then the receipt. */
  method RemoveFiles(fs: FileSystem, e: Entry, unassign: seq<Action>)
    requires fs.Valid() && |unassign| <= 1
    modifies fs
    ensures Took(fs, unassign + [RmCopy(e.At()), RmReceipt(e.At())])
  {
    ghost var log, files := fs.log, [RmCopy(e.At()), RmReceipt(e.At())];
    PerformConcat(fs.base, log, unassign + files);
    Join(log, unassign, files);
    Join(log + unassign, [RmCopy(e.At())], [RmReceipt(e.At())]);
    if unassign != [] {
      fs.Do(unassign[0]);
    }
    assert fs.log == log + unassign;
    fs.Do(RmCopy(e.At()));
    fs.Do(RmReceipt(e.At()));
  }

  method DeleteAgentExtension(fs: FileSystem, id: string, removeAssignments: bool, p: Platform, env: Env)
    returns (ok: bool)
    requires fs.Valid()
    modifies fs
    ensures ok == DeleteScript(old(fs.disk), p, env, id, removeAssignments).ok
    ensures Took(fs, DeleteScript(old(fs.disk), p, env, id, removeAssignments).actions)
  {
    ghost var log := fs.log;
    ghost var s := DeleteScript(fs.disk, p, env, id, removeAssignments);
    PerformConcat(fs.base, log, s.actions);
    assert log + [] == log;
    var manifest := fs.disk.manifest;
    if !Readable(manifest, p.provider) {
      return false;
    }
    var found := Find(manifest, id);
    if found.None? {
      return false;
    }
    var current := Load(fs.disk.assignments, p.roster);
    var unassign := [];
    if AssignedIn(current, id) {
      if !removeAssignments || env.fails(AssignmentsWrite, id) {
        return false;
      }
      unassign := [WriteAssignments(Normalize(RemoveExtension(current, id), p.roster))];
    }
    RemoveFiles(fs, found.value, unassign);
    if env.fails(ManifestWrite, id) {
      return false;
    }
    ghost var removed := unassign + [RmCopy(found.value.At()), RmReceipt(found.value.At())];
    fs.Do(WriteManifest(WithoutEntry(manifest, id)));
    Join(log, removed, [WriteManifest(WithoutEntry(manifest, id))]);
    return true;
  }

  /** The validation loops of saveAssignmentsUnderLock, stopping at the first unknown agent, unknown extension
      or disabled extension. */
  method CheckAssignments(manifest: seq<Entry>, roster: seq<string>, file: seq<Assignment>) returns (ok: bool)
    ensures ok == AssignmentsAccepted(manifest, roster, file)
  {
    for i := 0 to |file|
      invariant forall k :: 0 <= k < i ==> AssignmentAccepted(manifest, roster, file[k])
    {
      var assignment := file[i];
      if assignment.agent !in roster {
        return false;
      }
      for j := 0 to |assignment.ids|
        invariant forall k :: 0 <= k < j ==> EnabledIn(manifest, assignment.ids[k])
      {
        if !EnabledIn(manifest, assignment.ids[j]) {
          return false;
        }
      }
    }
    return true;
  }

  method SaveAssignments(fs: FileSystem, file: seq<Assignment>, p: Platform, env: Env)
    returns (saved: Option<seq<Assignment>>)
    requires fs.Valid()
    modifies fs
    ensures saved.Some? == SaveScript(old(fs.disk), p, env, file).ok
    ensures Took(fs, SaveScript(old(fs.disk), p, env, file).actions)
    ensures saved.Some? ==> saved.value == Load(fs.disk.assignments, p.roster)
    ensures saved.Some? ==> forall agent, id :: Holds(saved.value, agent, id) <==> Holds(file, agent, id)
  {
    ghost var log := fs.log;
    ghost var s := SaveScript(fs.disk, p, env, file);
    PerformConcat(fs.base, log, s.actions);
    assert log + [] == log;
    if !Readable(fs.disk.manifest, p.provider) {
      return None;
    }
    var accepted := CheckAssignments(fs.disk.manifest, p.roster, file);
    if !accepted || env.fails(AssignmentsWrite, "") {
      return None;
    }
    var text := Normalize(file, p.roster);
    fs.Do(WriteAssignments(text));
    forall agent, id ensures Holds(Normalize(text, p.roster), agent, id) <==> Holds(file, agent, id) {
      SavedHolds(file, fs.disk.manifest, p.roster, agent, id);
    }
    assert fs.log == log + s.actions;
    return Some(Normalize(text, p.roster));
  }

  method ReconcileEntry(fs: FileSystem, e: Entry, p: Platform, env: Env) returns (outcome: Outcome)
    requires fs.Valid()
    modifies fs
    ensures outcome == ReconcileEntryScript(old(fs.disk), e, p, env).1
    ensures Took(fs, ReconcileEntryScript(old(fs.disk), e, p, env).0.actions)
  {
    ghost var log := fs.log;
    assert log + [] == log;
    var receipt := ReadReceipt(fs.disk, e.At());
    var runtimeExists := e.At() in fs.disk.copies;
    var receiptValid := receipt.Some? && Consistent(receipt.value, e)
                        && !(e.source.Git? && receipt.value.commitSha == "");
    if !runtimeExists || !receiptValid {
      var ok := MaterializeExtension(fs, e, None, p, env);
      if !ok {
        return Unavailable;
      }
      return if runtimeExists then Repaired else Materialized;
    }
    if DigestOf(fs.disk.copies[e.At()]) != receipt.value.digest {
      var ok := MaterializeExtension(fs, e, None, p, env);
      return if ok then Repaired else Unavailable;
    }
    return Fine;
  }

  method ReconcileAgentExtensions(fs: FileSystem, p: Platform, env: Env) returns (counts: Counts)
    requires fs.Valid()
    modifies fs
    ensures counts == ReconcileScript(old(fs.disk), p, env).counts
    ensures Took(fs, ReconcileScript(old(fs.disk), p, env).actions)
  {
    ghost var d, log := fs.disk, fs.log;
    assert log + [] == log;
    counts := Counts(0, 0, 0);
    var manifest := fs.disk.manifest;
    if !Readable(manifest, p.provider) {
      return;
    }
    for i := 0 to |manifest|
      invariant fs.Valid() && fs.base == old(fs.base)
      invariant counts == SweepScript(d, manifest[..i], p, env).counts
      invariant fs.log == log + SweepScript(d, manifest[..i], p, env).actions
      invariant fs.disk == Perform(d, SweepScript(d, manifest[..i], p, env).actions)
    {
      SweepStep(d, manifest, p, env, i);
      Join(log, SweepScript(d, manifest[..i], p, env).actions, ReconcileEntryScript(fs.disk, manifest[i], p, env).0.actions);
      var outcome := ReconcileEntry(fs, manifest[i], p, env);
      counts := Tally(counts, outcome);
    }
    assert manifest[..|manifest|] == manifest;
  }

  lemma {:induction false} SweepStep(d: Disk, entries: seq<Entry>, p: Platform, env: Env, i: nat)
    requires i < |entries|
    ensures var before := SweepScript(d, entries[..i], p, env);
            var step := ReconcileEntryScript(Perform(d, before.actions), entries[i], p, env);
            && SweepScript(d, entries[..i + 1], p, env)
               == Sweep(before.actions + step.0.actions, Tally(before.counts, step.1))
            && Perform(d, before.actions + step.0.actions) == Perform(Perform(d, before.actions), step.0.actions)
  {
    assert entries[..i + 1][..i] == entries[..i];
    var before := SweepScript(d, entries[..i], p, env);
    PerformConcat(d, before.actions, ReconcileEntryScript(Perform(d, before.actions), entries[i], p, env).0.actions);
  }

  /** The staging checks, in id order. */
  method ResolveAssigned(fs: FileSystem, ids: seq<string>) returns (resolved: Option<seq<Entry>>)
    ensures resolved == Resolve(fs.disk, ids)
  {
    var entries: seq<Entry> := [];
    assert ids[0..] == ids;
    assert forall r: seq<Entry> :: entries + r == r;
    for i := 0 to |ids|
      invariant var rest := Resolve(fs.disk, ids[i..]);
                Resolve(fs.disk, ids) == if rest.None? then None else Some(entries + rest.value)
    {
      assert ids[i..][0] == ids[i] && ids[i..][1..] == ids[i + 1..];
      var found := Find(fs.disk.manifest, ids[i]);
      if found.None? || !found.value.enabled || IsBlank(found.value.displayName) || IsBlank(found.value.description) {
        return None;
      }
      if found.value.At() !in fs.disk.copies {
        return None;
      }
      ghost var rest := Resolve(fs.disk, ids[i + 1..]);
      assert rest.Some? ==> entries + ([found.value] + rest.value) == entries + [found.value] + rest.value;
      entries := entries + [found.value];
    }
    assert entries + [] == entries;
    return Some(entries);
  }

  /** One directory copy, which may throw halfway. */
  method CopyEntry(fs: FileSystem, launch: string, key: Key, env: Env) returns (ok: bool)
    requires fs.Valid() && key in fs.disk.copies
    modifies fs
    ensures fs.Valid() && fs.base == old(fs.base) && fs.disk.copies == old(fs.disk).copies
    ensures ok == !env.fails(StageCopy, key.id)
    ensures var (torn, whole) := (CopyToStage(launch, key, env.torn), CopyToStage(launch, key, old(fs.disk).copies[key]));
            fs.log == if ok then old(fs.log) + [torn] + [whole] else old(fs.log) + [torn]
  {
    fs.Do(CopyToStage(launch, key, env.torn));
    if env.fails(StageCopy, key.id) {
      return false;
    }
    fs.Do(CopyToStage(launch, key, fs.disk.copies[key]));
    return true;
  }

  method CopyEntries(fs: FileSystem, launch: string, entries: seq<Entry>, env: Env) returns (ok: bool)
    requires fs.Valid() && forall e :: e in entries ==> e.At() in fs.disk.copies
    modifies fs
    ensures ok == CopyScript(old(fs.disk), launch, entries, env).ok
    ensures Took(fs, CopyScript(old(fs.disk), launch, entries, env).actions)
  {
    ghost var d, log := fs.disk, fs.log;
    assert log + [] == log;
    PerformConcat(fs.base, log, CopyScript(d, launch, entries, env).actions);
    for i := 0 to |entries|
      invariant fs.Valid() && fs.base == old(fs.base) && fs.disk.copies == d.copies
      invariant CopyScript(d, launch, entries[..i], env).ok
      invariant fs.log == log + CopyScript(d, launch, entries[..i], env).actions
    {
      CopyStep(d, launch, entries, env, i, log);
      ok := CopyEntry(fs, launch, entries[i].At(), env);
      if !ok {
        CopyStopsAt(d, launch, entries, env, i);
        return;
      }
    }
    assert entries[..|entries|] == entries;
    return true;
  }

  lemma {:induction false} CopyStep(d: Disk, launch: string, entries: seq<Entry>, env: Env, i: nat, log: seq<Action>)
    requires i < |entries| && CopyScript(d, launch, entries[..i], env).ok && entries[i].At() in d.copies
    ensures var before := CopyScript(d, launch, entries[..i], env).actions;
            var s := CopyScript(d, launch, entries[..i + 1], env);
            var (torn, whole) := (CopyToStage(launch, entries[i].At(), env.torn),
                                  CopyToStage(launch, entries[i].At(), d.copies[entries[i].At()]));
            && s.ok == !env.fails(StageCopy, entries[i].id)
            && log + s.actions == if s.ok then log + before + [torn] + [whole] else log + before + [torn]
  {
    assert entries[..i + 1][..i] == entries[..i];
    var before := CopyScript(d, launch, entries[..i], env).actions;
    var torn := CopyToStage(launch, entries[i].At(), env.torn);
    Join(log, before, [torn]);
    Join(log, before + [torn], [CopyToStage(launch, entries[i].At(), d.copies[entries[i].At()])]);
  }

  /** Nothing is copied after the copy that threw. */
  lemma {:induction false} CopyStopsAt(d: Disk, launch: string, entries: seq<Entry>, env: Env, i: nat)
    requires i < |entries| && !CopyScript(d, launch, entries[..i + 1], env).ok
    ensures CopyScript(d, launch, entries, env) == CopyScript(d, launch, entries[..i + 1], env)
    decreases |entries|
  {
    if i + 1 < |entries| {
      assert entries[..|entries| - 1][..i + 1] == entries[..i + 1];
      CopyStopsAt(d, launch, entries[..|entries| - 1], env, i);
    } else {
      assert entries[..i + 1] == entries;
    }
  }

  method BeginStage(fs: FileSystem, agent: string, launch: string, keys: seq<Key>)
    requires fs.Valid()
    modifies fs
    ensures fs.Valid() && fs.base == old(fs.base) && fs.disk.copies == old(fs.disk).copies
    ensures fs.log == old(fs.log) + BeginScript(launch, agent, keys)
  {
    Join(fs.log, [RmStage(launch)], [WriteStageManifest(launch, Creating, agent, keys)]);
    fs.Do(RmStage(launch));
    fs.Do(WriteStageManifest(launch, Creating, agent, keys));
  }

  method RemoveTwice(fs: FileSystem, launch: string)
    requires fs.Valid()
    modifies fs
    ensures Took(fs, [RmStage(launch), RmStage(launch)])
  {
    ghost var log := fs.log;
    fs.Do(RmStage(launch));
    fs.Do(RmStage(launch));
    Join(log, [RmStage(launch)], [RmStage(launch)]);
    PerformConcat(fs.base, log, [RmStage(launch), RmStage(launch)]);
  }

  method StageEntries(fs: FileSystem, agent: string, launch: string, entries: seq<Entry>, env: Env) returns (ok: bool)
    requires fs.Valid() && forall e :: e in entries ==> e.At() in fs.disk.copies
    modifies fs
    ensures ok == StageEntriesScript(old(fs.disk), env, agent, launch, entries).ok
    ensures Took(fs, StageEntriesScript(old(fs.disk), env, agent, launch, entries).actions)
  {
    if env.fails(StageBegin, "") {
      RemoveTwice(fs, launch);
      return false;
    }
    ghost var d, log := fs.disk, fs.log;
    var keys := StagedKeys(entries);
    ghost var begun := BeginScript(launch, agent, keys) + CopyScript(d, launch, entries, env).actions;
    BeginStage(fs, agent, launch, keys);
    CopyReadsCopies(fs.disk, d, launch, entries, env);
    var copied := CopyEntries(fs, launch, entries, env);
    Join(log, BeginScript(launch, agent, keys), CopyScript(d, launch, entries, env).actions);
    ok := copied && !env.fails(StageManifest, "");
    var last := if ok then WriteStageManifest(launch, Created, agent, keys) else RmStage(launch);
    fs.Do(last);
    Join(log, begun, [last]);
    PerformConcat(fs.base, log, begun + [last]);
  }

  method CreateAgentExtensionStage(fs: FileSystem, agent: string, launch: string, p: Platform, env: Env)
    returns (ok: bool)
    requires fs.Valid()
    modifies fs
    ensures ok == StageScript(old(fs.disk), p, env, agent, launch).ok
    ensures Took(fs, StageScript(old(fs.disk), p, env, agent, launch).actions)
  {
    ghost var log := fs.log;
    PerformConcat(fs.base, log, [RmStage(launch)]);
    assert log + [] == log;
    if !ValidLaunchId(launch) {
      return false;
    }
    var ids := IdsOf(Load(fs.disk.assignments, p.roster), agent);
    if ids == [] {
      return true;
    }
    var resolved := None;
    if Readable(fs.disk.manifest, p.provider) {
      resolved := ResolveAssigned(fs, Sort(ids));
    }
    if resolved.None? {
      fs.Do(RmStage(launch));
      return false;
    }
    ResolvedHaveCopies(fs.disk, Sort(ids));
    ok := StageEntries(fs, agent, launch, resolved.value, env);
  }

  lemma {:induction false} ResolvedHaveCopies(d: Disk, ids: seq<string>)
    ensures Resolve(d, ids).Some? ==> forall e :: e in Resolve(d, ids).value ==> e.At() in d.copies
  {
    if ids != [] {
      ResolvedHaveCopies(d, ids[1..]);
    }
  }

  lemma {:induction false} CopyReadsCopies(d: Disk, w: Disk, launch: string, entries: seq<Entry>, env: Env)
    requires d.copies == w.copies
    ensures CopyScript(d, launch, entries, env) == CopyScript(w, launch, entries, env)
    decreases |entries|
  {
    if entries != [] {
      CopyReadsCopies(d, w, launch, entries[..|entries| - 1], env);
    }
  }

  method CleanupAgentExtensionStage(fs: FileSystem, launch: string) returns (ok: bool)
    requires fs.Valid()
    modifies fs
    ensures ok == ValidLaunchId(launch)
    ensures Took(fs, if ok then [RmStage(launch)] else [])
  {
    ghost var log := fs.log;
    assert log + [] == log;
    PerformConcat(fs.base, log, [RmStage(launch)]);
    if !ValidLaunchId(launch) {
      return false;
    }
    fs.Do(RmStage(launch));
    return true;
  }

  /** recoverAgentExtensionStagesOnStartup: links, files and directories outside the root are skipped. */
  method RecoverStagesOnStartup(fs: FileSystem, listing: seq<Dirent>) returns (removed: nat, skipped: nat)
    requires fs.Valid()
    modifies fs
    ensures removed == |StaleNames(listing)| && removed + skipped == |listing|
    ensures Took(fs, RecoverScript(listing).actions)
  {
    ghost var log := fs.log;
    assert log + [] == log;
    removed, skipped := 0, 0;
    for i := 0 to |listing|
      invariant fs.Valid() && fs.base == old(fs.base)
      invariant removed == |StaleNames(listing[..i])| && removed + skipped == i
      invariant fs.log == log + RemoveScript(StaleNames(listing[..i]))
    {
      ghost var names := StaleNames(listing[..i]);
      assert listing[..i + 1][..i] == listing[..i];
      if !listing[i].isDirectory {
        skipped := skipped + 1;
        continue;
      }
      if !listing[i].inside {
        skipped := skipped + 1;
        continue;
      }
      Join(log, RemoveScript(names), [RmStage(listing[i].name)]);
      assert RemoveScript(names + [listing[i].name]) == RemoveScript(names) + [RmStage(listing[i].name)];
      fs.Do(RmStage(listing[i].name));
      removed := removed + 1;
    }
    assert listing[..|listing|] == listing;
    PerformConcat(fs.base, log, RecoverScript(listing).actions);
  }
}
