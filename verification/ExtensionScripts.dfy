/** The catalog's operations as scripts: the file-system steps each one takes, in order, and whether it succeeds. */
module ExtensionScripts {
  import opened JsText
  import opened Wrappers
  import opened ExtensionAssignments
  import opened ExtensionDisk

  datatype Metadata = Metadata(displayName: string, description: string)

  /** A materialised source tree; only git resolves a commit. */
  datatype Fetched = Fetched(tree: Content, commitSha: string)

  datatype FaultPoint =
    | AuthoredWrite | Validation | TargetRename | ReceiptWrite | Inspection | ManifestWrite | AssignmentsWrite
    | StageBegin | StageCopy | StageManifest

  /** The name and description lines of a skill document's front matter, empty when absent. */
  datatype FrontMatter = FrontMatter(name: string, description: string)

  /** What the provider reports about a plugin; an absent description is empty. */
  datatype PluginSummary = PluginSummary(name: string, description: string)

  /** What is fixed while the platform runs. Inspection depends on nothing but the tree. */
  datatype Platform = Platform(provider: string, roster: seq<string>, frontMatter: Content -> Option<FrontMatter>,
                               summarize: Content -> Option<PluginSummary>)
  {
    /** inspectAgentExtensionMetadata: a skill without a name or a description is refused; a plugin without a
        description gets one, and its name is the provider's business. */
    function Inspect(kind: Kind, tree: Content): Option<Metadata> {
      match kind
      case Skill =>
        (match frontMatter(tree)
         case None => None
         case Some(f) =>
           if IsBlank(f.name) || IsBlank(f.description) then None
           else Some(Metadata(Trim(f.name), Trim(f.description))))
      case Plugin =>
        (match summarize(tree)
         case None => None
         case Some(s) =>
           Some(Metadata(s.name, if IsBlank(s.description) then "Plugin " + s.name + "." else Trim(s.description))))
    }
  }

  /** What an operation meets: its process and time, the sources as they are now, the tree a copy in progress
      has reached, and the steps that throw. */
  datatype Env = Env(pid: nat, now: nat, fetch: Source -> Option<Fetched>, torn: Content,
                     fails: (FaultPoint, string) -> bool)

  datatype AddSource = AddGit(url: string, ref: string, subpath: Option<string>)
                     | AddLocal(path: string, subpath: Option<string>)
                     | AddAuthored(markdown: string)

  datatype AddRequest = AddRequest(id: string, kind: Kind, provider: string, source: AddSource)

  datatype Script = Script(actions: seq<Action>, ok: bool)

  // ----- reading the manifest ---------------------------------------------------

  predicate ValidId(id: string) {
    && 1 <= |id| <= 64 && id[0] != '-'
    && forall i :: 0 <= i < |id| ==> 'a' <= id[i] <= 'z' || '0' <= id[i] <= '9' || id[i] == '-'
  }

  predicate IsSlash(c: char) {
    c == '/' || c == '\\'
  }

  /** A component `..` starts at position i. */
  predicate ParentAt(p: string, i: int)
    requires 0 <= i < |p|
  {
    && i + 1 < |p| && p[i] == '.' && p[i + 1] == '.'
    && (i == 0 || IsSlash(p[i - 1])) && (i + 2 == |p| || IsSlash(p[i + 2]))
  }

  predicate SafeRelativePath(p: string) {
    !(p != "" && p[0] == '/') && forall i :: 0 <= i < |p| ==> !ParentAt(p, i)
  }

  predicate SafeSource(source: Source) {
    match source
    case Git(_, _, subpath) => subpath.Some? ==> SafeRelativePath(subpath.value)
    case Local(_, subpath) => subpath.Some? ==> SafeRelativePath(subpath.value)
    case DirectAttachment(path) => SafeRelativePath(path)
  }

  predicate EntryReadable(e: Entry, provider: string) {
    && ValidId(e.id) && e.provider == provider && !IsBlank(e.displayName) && !IsBlank(e.description)
    && SafeSource(e.source) && !(e.kind == Plugin && e.source.DirectAttachment?)
  }

  predicate DistinctIds(entries: seq<Entry>) {
    forall i, j :: 0 <= i < j < |entries| ==> entries[i].id != entries[j].id
  }

  /** readSourceManifest does not throw. */
  predicate Readable(entries: seq<Entry>, provider: string) {
    DistinctIds(entries) && forall i :: 0 <= i < |entries| ==> EntryReadable(entries[i], provider)
  }

  function Find(entries: seq<Entry>, id: string): (r: Option<Entry>)
    ensures r.None? <==> forall e :: e in entries ==> e.id != id
    ensures r.Some? ==> r.value in entries && r.value.id == id
  {
    if entries == [] then None else if entries[0].id == id then Some(entries[0]) else Find(entries[1..], id)
  }

  function WithoutEntry(entries: seq<Entry>, id: string): seq<Entry> {
    if entries == [] then []
    else if entries[0].id == id then WithoutEntry(entries[1..], id)
    else [entries[0]] + WithoutEntry(entries[1..], id)
  }

  function WithMetadata(entries: seq<Entry>, id: string, m: Metadata): seq<Entry> {
    seq(|entries|, i requires 0 <= i < |entries| =>
      if entries[i].id == id then entries[i].(displayName := m.displayName, description := m.description)
      else entries[i])
  }

  // ----- one runtime copy -------------------------------------------------------

  /** readImportReceipt: a receipt that does not name the place it is filed under is no receipt. */
  function ReadReceipt(d: Disk, key: Key): Option<Receipt> {
    if key in d.receipts && d.receipts[key].id == key.id && d.receipts[key].kind == key.kind
    then Some(d.receipts[key]) else None
  }

  predicate Consistent(r: Receipt, e: Entry) {
    && r.id == e.id && r.kind == e.kind && r.provider == e.provider
    && r.sourceType == e.source.Type() && r.runtimePath == RuntimePath(e.At())
  }

  predicate ReceiptValid(d: Disk, e: Entry) {
    var r := ReadReceipt(d, e.At());
    r.Some? && Consistent(r.value, e) && !(e.source.Git? && r.value.commitSha == "")
  }

  /** The copy is there, its receipt is valid, and its digest is the one on the receipt. */
  predicate Healthy(d: Disk, e: Entry) {
    && e.At() in d.copies && ReceiptValid(d, e)
    && d.receipts[e.At()].digest == DigestOf(d.copies[e.At()])
  }

  function Obtain(d: Disk, source: Source, env: Env): Option<Fetched> {
    match source
    case DirectAttachment(path) =>
      if path in d.authored then Some(Fetched(map["SKILL.md" := d.authored[path]], "")) else None
    case Local(_, _) =>
      (match env.fetch(source) case Some(f) => Some(f.(commitSha := "")) case None => None)
    case Git(_, _, _) => env.fetch(source)
  }

  function NewReceipt(e: Entry, f: Fetched, existing: Option<Receipt>, now: nat): Receipt {
    Receipt(e.id, e.kind, e.provider, e.source.Type(), DigestOf(f.tree), f.commitSha, RuntimePath(e.At()),
            if existing.Some? then existing.value.importedAt else now,
            if existing.Some? then Some(now) else None)
  }

  /** Fill a temporary tree: what was there is removed first, and the copy is not atomic. */
  function FillScript(t: TempKey, torn: Content): seq<Action> {
    [RmTemp(t), FillTemp(t, map[]), FillTemp(t, torn)]
  }

  /** Remove the old copy if there is one, then move the tree in. */
  function ClearScript(d: Disk, key: Key): seq<Action> {
    if key in d.copies then [RmCopy(key)] else []
  }

  /** What follows the inspection: replace the copy, then write the receipt, or clean up. */
  function PlaceScript(d: Disk, e: Entry, f: Fetched, existing: Option<Receipt>, env: Env): Script {
    var t, clear := TempKey(e.id, env.pid), ClearScript(d, e.At());
    if env.fails(TargetRename, e.id) then Script(clear + [RmTemp(t)], false)
    else
      var moved := clear + [Rename(t, e.At())];
      if env.fails(ReceiptWrite, e.id) then Script(moved + [RmTemp(t)], false)
      else Script(moved + [WriteReceipt(e.At(), NewReceipt(e, f, existing, env.now))], true)
  }

  /** materializeExtension, or reseedExtension when there is a receipt to keep the import time of. */
  function MaterializeScript(d: Disk, e: Entry, existing: Option<Receipt>, p: Platform, env: Env): Script {
    var t := TempKey(e.id, env.pid);
    if e.provider != p.provider then Script([], false)
    else
      match Obtain(d, e.source, env)
      case None => Script(FillScript(t, env.torn) + [RmTemp(t)], false)
      case Some(f) =>
        var filled := FillScript(t, env.torn) + [FillTemp(t, f.tree)];
        if p.Inspect(e.kind, f.tree).None? || env.fails(Validation, e.id) then Script(filled + [RmTemp(t)], false)
        else
          var place := PlaceScript(d, e, f, existing, env);
          Script(filled + place.actions, place.ok)
  }

  // ----- catalog operations -----------------------------------------------------

  function AddedSource(req: AddRequest): Source {
    match req.source
    case AddGit(url, ref, subpath) => Git(url, ref, subpath)
    case AddLocal(path, subpath) => Local(path, subpath)
    case AddAuthored(_) => DirectAttachment(AuthoredPath(req.id))
  }

  function AddedEntry(req: AddRequest, p: Platform, m: Metadata): Entry {
    Entry(req.id, req.kind, p.provider, m.displayName, m.description, true, AddedSource(req))
  }

  predicate AddAccepted(d: Disk, p: Platform, req: AddRequest) {
    && req.provider == p.provider && !(req.kind == Plugin && req.source.AddAuthored?)
    && Readable(d.manifest, p.provider) && ValidId(req.id) && Find(d.manifest, req.id).None?
  }

  /** cleanupFailedAdd. */
  function CleanupScript(req: AddRequest): seq<Action> {
    var key := Key(req.kind, req.id);
    [RmCopy(key), RmReceipt(key)] + if req.source.AddAuthored? then [RmAuthored(req.id)] else []
  }

  function AuthorScript(req: AddRequest): seq<Action> {
    if req.source.AddAuthored? then [WriteAuthored(req.id, req.source.markdown)] else []
  }

  /** The metadata of the copy just materialised. */
  function InspectCopy(d: Disk, key: Key, p: Platform, env: Env): Option<Metadata> {
    if env.fails(Inspection, key.id) || key !in d.copies then None else p.Inspect(key.kind, d.copies[key])
  }

  function AddScript(d: Disk, p: Platform, env: Env, req: AddRequest): Script {
    if !AddAccepted(d, p, req) then Script([], false)
    else if req.source.AddAuthored? && env.fails(AuthoredWrite, req.id) then Script(CleanupScript(req), false)
    else
      var pending := AddedEntry(req, p, Metadata(req.id, "pending"));
      var authored := AuthorScript(req);
      var mat := MaterializeScript(Perform(d, authored), pending, None, p, env);
      var made := authored + mat.actions;
      if !mat.ok then Script(made + CleanupScript(req), false)
      else
        match InspectCopy(Perform(d, made), pending.At(), p, env)
        case None => Script(made + CleanupScript(req), false)
        case Some(m) =>
          if env.fails(ManifestWrite, req.id) then Script(made + CleanupScript(req), false)
          else Script(made + [WriteManifest(d.manifest + [AddedEntry(req, p, m)])], true)
  }

  function ReseedScript(d: Disk, p: Platform, env: Env, id: string): Script {
    if !Readable(d.manifest, p.provider) then Script([], false)
    else
      match Find(d.manifest, id)
      case None => Script([], false)
      case Some(e) =>
        var mat := MaterializeScript(d, e, ReadReceipt(d, e.At()), p, env);
        if !mat.ok then mat
        else
          match InspectCopy(Perform(d, mat.actions), e.At(), p, env)
          case None => Script(mat.actions, false)
          case Some(m) =>
            if env.fails(ManifestWrite, id) then Script(mat.actions, false)
            else Script(mat.actions + [WriteManifest(WithMetadata(d.manifest, id, m))], true)
  }

  function DeleteScript(d: Disk, p: Platform, env: Env, id: string, removeAssignments: bool): Script {
    if !Readable(d.manifest, p.provider) then Script([], false)
    else
      match Find(d.manifest, id)
      case None => Script([], false)
      case Some(e) =>
        var current := Load(d.assignments, p.roster);
        var inUse := AssignedIn(current, id);
        if inUse && (!removeAssignments || env.fails(AssignmentsWrite, id)) then Script([], false)
        else
          var unassign :=
            if inUse then [WriteAssignments(Normalize(RemoveExtension(current, id), p.roster))] else [];
          var removed := unassign + [RmCopy(e.At()), RmReceipt(e.At())];
          if env.fails(ManifestWrite, id) then Script(removed, false)
          else Script(removed + [WriteManifest(WithoutEntry(d.manifest, id))], true)
  }

  predicate EnabledIn(entries: seq<Entry>, id: string) {
    exists e :: e in entries && e.id == id && e.enabled
  }

  predicate AssignmentAccepted(entries: seq<Entry>, roster: seq<string>, a: Assignment) {
    a.agent in roster && forall j :: 0 <= j < |a.ids| ==> EnabledIn(entries, a.ids[j])
  }

  predicate AssignmentsAccepted(entries: seq<Entry>, roster: seq<string>, file: seq<Assignment>) {
    forall i :: 0 <= i < |file| ==> AssignmentAccepted(entries, roster, file[i])
  }

  function SaveScript(d: Disk, p: Platform, env: Env, file: seq<Assignment>): Script {
    if !Readable(d.manifest, p.provider) || !AssignmentsAccepted(d.manifest, p.roster, file)
       || env.fails(AssignmentsWrite, "") then Script([], false)
    else Script([WriteAssignments(Normalize(file, p.roster))], true)
  }

  /** What is written reads back as what was asked for; an accepted file names agents of the roster only. */
  lemma {:induction false} SavedHolds(file: seq<Assignment>, manifest: seq<Entry>, roster: seq<string>, agent: string,
                                      id: string)
    requires AssignmentsAccepted(manifest, roster, file)
    ensures Holds(Load(Some(Normalize(file, roster)), roster), agent, id) <==> Holds(file, agent, id)
  {
    LoadHolds(Normalize(file, roster), roster, agent, id);
    NormalizeHolds(file, roster, agent, id);
    if i :| 0 <= i < |file| && file[i].agent == agent && id in file[i].ids {
      assert AssignmentAccepted(manifest, roster, file[i]);
    }
  }

  // ----- reconciliation ---------------------------------------------------------

  datatype Outcome = Fine | Materialized | Repaired | Unavailable
  datatype Counts = Counts(materialized: nat, repaired: nat, unavailable: nat)
  datatype Sweep = Sweep(actions: seq<Action>, counts: Counts)

  function Tally(c: Counts, outcome: Outcome): Counts {
    match outcome
    case Fine => c
    case Materialized => c.(materialized := c.materialized + 1)
    case Repaired => c.(repaired := c.repaired + 1)
    case Unavailable => c.(unavailable := c.unavailable + 1)
  }

  function ReconcileEntryScript(d: Disk, e: Entry, p: Platform, env: Env): (Script, Outcome) {
    if Healthy(d, e) then (Script([], true), Fine)
    else
      var mat := MaterializeScript(d, e, None, p, env);
      (mat, if !mat.ok then Unavailable else if e.At() in d.copies then Repaired else Materialized)
  }

  function SweepScript(d: Disk, entries: seq<Entry>, p: Platform, env: Env): Sweep {
    if entries == [] then Sweep([], Counts(0, 0, 0))
    else
      var before := SweepScript(d, entries[..|entries| - 1], p, env);
      var (script, outcome) := ReconcileEntryScript(Perform(d, before.actions), entries[|entries| - 1], p, env);
      Sweep(before.actions + script.actions, Tally(before.counts, outcome))
  }

  /** An unreadable manifest is logged, and counts nothing. */
  function ReconcileScript(d: Disk, p: Platform, env: Env): Sweep {
    if Readable(d.manifest, p.provider) then SweepScript(d, d.manifest, p, env) else Sweep([], Counts(0, 0, 0))
  }

  // ----- launch stages ----------------------------------------------------------

  predicate ValidLaunchId(launch: string) {
    && 1 <= |launch| <= 128 && launch != "." && launch != ".."
    && forall i :: 0 <= i < |launch| ==>
         || 'A' <= launch[i] <= 'Z' || 'a' <= launch[i] <= 'z' || '0' <= launch[i] <= '9'
         || launch[i] == '.' || launch[i] == '_' || launch[i] == '-'
  }

  /** The catalog entries of the assigned ids, or a refusal. */
  function Resolve(d: Disk, ids: seq<string>): Option<seq<Entry>> {
    if ids == [] then Some([])
    else
      var e := Find(d.manifest, ids[0]);
      if e.None? || !e.value.enabled || IsBlank(e.value.displayName) || IsBlank(e.value.description)
         || e.value.At() !in d.copies
      then None
      else
        var rest := Resolve(d, ids[1..]);
        if rest.None? then None else Some([e.value] + rest.value)
  }

  function StagedKeys(entries: seq<Entry>): seq<Key> {
    seq(|entries|, i requires 0 <= i < |entries| => entries[i].At())
  }

  /** Copy each entry into the stage, in order, up to the first copy that throws. */
  function CopyScript(d: Disk, launch: string, entries: seq<Entry>, env: Env): Script {
    if entries == [] then Script([], true)
    else
      var before := CopyScript(d, launch, entries[..|entries| - 1], env);
      var key := entries[|entries| - 1].At();
      var started := before.actions + [CopyToStage(launch, key, env.torn)];
      if !before.ok || key !in d.copies then before.(ok := false)
      else if env.fails(StageCopy, key.id) then Script(started, false)
      else Script(started + [CopyToStage(launch, key, d.copies[key])], true)
  }

  function StageScript(d: Disk, p: Platform, env: Env, agent: string, launch: string): Script {
    var ids := IdsOf(Load(d.assignments, p.roster), agent);
    if !ValidLaunchId(launch) then Script([], false)
    else if ids == [] then Script([], true)
    else
      match if Readable(d.manifest, p.provider) then Resolve(d, Sort(ids)) else None
      case None => Script([RmStage(launch)], false)
      case Some(entries) => StageEntriesScript(d, env, agent, launch, entries)
  }

  function BeginScript(launch: string, agent: string, keys: seq<Key>): seq<Action> {
    [RmStage(launch), WriteStageManifest(launch, Creating, agent, keys)]
  }

  /** Replace the stage directory: manifest first, then the copies, then the manifest again. */
  function StageEntriesScript(d: Disk, env: Env, agent: string, launch: string, entries: seq<Entry>): Script {
    var keys := StagedKeys(entries);
    var copies := CopyScript(d, launch, entries, env);
    var begun := BeginScript(launch, agent, keys) + copies.actions;
    if env.fails(StageBegin, "") then Script([RmStage(launch), RmStage(launch)], false)
    else if !copies.ok || env.fails(StageManifest, "") then Script(begun + [RmStage(launch)], false)
    else Script(begun + [WriteStageManifest(launch, Created, agent, keys)], true)
  }

  /** An entry of the stage root: only a real directory that stays inside the root is a stale stage. */
  datatype Dirent = Dirent(name: string, isDirectory: bool, inside: bool) {
    predicate IsStale() {
      isDirectory && inside
    }
  }

  function StaleNames(listing: seq<Dirent>): seq<string> {
    if listing == [] then [] else
    var last := listing[|listing| - 1];
    StaleNames(listing[..|listing| - 1]) + if last.IsStale() then [last.name] else []
  }

  function RemoveScript(names: seq<string>): seq<Action> {
    seq(|names|, i requires 0 <= i < |names| => RmStage(names[i]))
  }

  function RecoverScript(listing: seq<Dirent>): Script {
    Script(RemoveScript(StaleNames(listing)), true)
  }

  // ----- any operation ----------------------------------------------------------

  datatype Op =
    | Add(req: AddRequest)
    | Reseed(id: string)
    | Delete(id: string, removeAssignments: bool)
    | SaveAssignments(file: seq<Assignment>)
    | Reconcile
    | CreateStage(agent: string, launch: string)
    | CleanupStage(launch: string)
    | RecoverStages(listing: seq<Dirent>)

  function ScriptOf(d: Disk, p: Platform, env: Env, op: Op): Script {
    match op
    case Add(req) => AddScript(d, p, env, req)
    case Reseed(id) => ReseedScript(d, p, env, id)
    case Delete(id, removeAssignments) => DeleteScript(d, p, env, id, removeAssignments)
    case SaveAssignments(file) => SaveScript(d, p, env, file)
    case Reconcile => Script(ReconcileScript(d, p, env).actions, true)
    case CreateStage(agent, launch) => StageScript(d, p, env, agent, launch)
    case CleanupStage(launch) => if ValidLaunchId(launch) then Script([RmStage(launch)], true) else Script([], false)
    case RecoverStages(listing) => RecoverScript(listing)
  }
}
