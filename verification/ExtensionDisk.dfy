/** What the extension catalog keeps on disk, and the single file-system steps that change it. */
module ExtensionDisk {
  import opened Wrappers
  import opened ExtensionAssignments
  import opened ExtensionDigest

  datatype Kind = Skill | Plugin
  datatype SourceType = GitSource | LocalSource | AuthoredSource

  datatype Source =
    | Git(url: string, ref: string, gitSubpath: Option<string>)
    | Local(path: string, localSubpath: Option<string>)
    | DirectAttachment(configPath: string)
  {
    function Type(): SourceType {
      match this
      case Git(_, _, _) => GitSource
      case Local(_, _) => LocalSource
      case DirectAttachment(_) => AuthoredSource
    }
  }

  datatype Entry = Entry(id: string, kind: Kind, provider: string, displayName: string, description: string,
                         enabled: bool, source: Source)
  {
    function At(): Key {
      Key(kind, id)
    }
  }

  /** Where a runtime copy and its receipt live. */
  datatype Key = Key(kind: Kind, id: string)

  /** A directory tree: file paths and their bytes. */
  type Content = map<string, string>

  /** A hash without collisions: two digests agree exactly when the same bytes were fed. */
  datatype Digest = Sha256(fed: string)

  function DigestOf(tree: Content): Digest {
    Sha256(Stream(tree))
  }

  /** An absent commit is the empty string. */
  datatype Receipt = Receipt(id: string, kind: Kind, provider: string, sourceType: SourceType, digest: Digest,
                             commitSha: string, runtimePath: string, importedAt: nat, reseededAt: Option<nat>)

  /** A process writes its temporary tree under its own pid. */
  datatype TempKey = TempKey(id: string, pid: nat)

  datatype StageStatus = Creating | Created
  datatype Stage = Stage(status: StageStatus, agent: string, entries: seq<Key>, copies: map<Key, Content>)

  datatype Disk = Disk(
    manifest: seq<Entry>,
    assignments: Option<seq<Assignment>>,
    copies: map<Key, Content>,
    receipts: map<Key, Receipt>,
    temps: map<TempKey, Content>,
    authored: map<string, string>,
    stages: map<string, Stage>)

  datatype Action =
    | WriteManifest(entries: seq<Entry>)
    | WriteAssignments(file: seq<Assignment>)
    | RmCopy(key: Key)
    | RmReceipt(key: Key)
    | WriteReceipt(key: Key, receipt: Receipt)
    | RmTemp(temp: TempKey)
    | FillTemp(temp: TempKey, tree: Content)
    | Rename(temp: TempKey, key: Key)
    | WriteAuthored(id: string, text: string)
    | RmAuthored(id: string)
    | RmStage(launch: string)
    | WriteStageManifest(launch: string, status: StageStatus, agent: string, staged: seq<Key>)
    | CopyToStage(launch: string, key: Key, tree: Content)

  function RuntimePath(key: Key): string {
    (if key.kind == Skill then ".platform-state/skills/" else ".platform-state/plugins/") + key.id
  }

  const AUTHORED_ROOT := "config/skill-authored/"

  function AuthoredDir(id: string): string {
    AUTHORED_ROOT + id + "/"
  }

  function AuthoredPath(id: string): string {
    AuthoredDir(id) + "SKILL.md"
  }

  /** One step of the file system. */
  function Apply(d: Disk, a: Action): Disk {
    match a
    case WriteManifest(entries) => d.(manifest := entries)
    case WriteAssignments(file) => d.(assignments := Some(file))
    case RmCopy(key) => d.(copies := d.copies - {key})
    case RmReceipt(key) => d.(receipts := d.receipts - {key})
    case WriteReceipt(key, receipt) => d.(receipts := d.receipts[key := receipt])
    case RmTemp(temp) => d.(temps := d.temps - {temp})
    case FillTemp(temp, tree) => d.(temps := d.temps[temp := tree])
    case Rename(temp, key) =>
      if temp in d.temps then d.(copies := d.copies[key := d.temps[temp]], temps := d.temps - {temp}) else d
    case WriteAuthored(id, text) => d.(authored := d.authored[AuthoredPath(id) := text])
    case RmAuthored(id) =>
      d.(authored := map p | p in d.authored && !(AuthoredDir(id) <= p) :: d.authored[p])
    case RmStage(launch) => d.(stages := d.stages - {launch})
    case WriteStageManifest(launch, status, agent, staged) =>
      d.(stages := d.stages[launch := Stage(status, agent, staged,
                                            if launch in d.stages then d.stages[launch].copies else map[])])
    case CopyToStage(launch, key, tree) =>
      if launch in d.stages
      then d.(stages := d.stages[launch := d.stages[launch].(copies := d.stages[launch].copies[key := tree])])
      else d
  }

  function Perform(d: Disk, actions: seq<Action>): Disk {
    if actions == [] then d else Apply(Perform(d, actions[..|actions| - 1]), actions[|actions| - 1])
  }

  lemma {:induction false} PerformConcat(d: Disk, x: seq<Action>, y: seq<Action>)
    ensures Perform(d, x + y) == Perform(Perform(d, x), y)
    decreases |y|
  {
    if y == [] {
      assert x + y == x;
    } else {
      var n := |y| - 1;
      assert (x + y)[..|x + y| - 1] == x + y[..n] && (x + y)[|x + y| - 1] == y[n];
      PerformConcat(d, x, y[..n]);
    }
  }

  lemma {:induction false} PerformThen(d: Disk, x: seq<Action>, a: Action)
    ensures Perform(d, x + [a]) == Apply(Perform(d, x), a)
  {
    assert (x + [a])[..|x|] == x;
  }

  lemma {:induction false} PerformOne(d: Disk, a: Action)
    ensures Perform(d, [a]) == Apply(d, a)
  {
    assert [] + [a] == [a];
    PerformThen(d, [], a);
  }

  lemma {:induction false} PerformTwo(d: Disk, a: Action, b: Action)
    ensures Perform(d, [a, b]) == Apply(Apply(d, a), b)
  {
    assert [a] + [b] == [a, b];
    PerformThen(d, [a], b);
    PerformOne(d, a);
  }

  lemma ReplaceKey<K, V>(m: map<K, V>, k: K, v: V)
    ensures (m - {k})[k := v] == m[k := v]
  {}

  // ----- which steps concern which extension ------------------------------------

  /** The step changes only the runtime copy, receipt or temporary tree of extension `id`. */
  predicate RuntimeOnly(a: Action, id: string) {
    match a
    case RmCopy(key) => key.id == id
    case RmReceipt(key) => key.id == id
    case WriteReceipt(key, _) => key.id == id
    case RmTemp(temp) => temp.id == id
    case FillTemp(temp, _) => temp.id == id
    case Rename(temp, key) => temp.id == id && key.id == id
    case _ => false
  }

  /** ... or its authored document. */
  predicate OwnOnly(a: Action, id: string) {
    || RuntimeOnly(a, id)
    || (a.WriteAuthored? && a.id == id)
    || (a.RmAuthored? && a.id == id)
  }

  predicate AllRuntime(actions: seq<Action>, id: string) {
    forall i :: 0 <= i < |actions| ==> RuntimeOnly(actions[i], id)
  }

  predicate AllOwn(actions: seq<Action>, id: string) {
    forall i :: 0 <= i < |actions| ==> OwnOnly(actions[i], id)
  }

  /** Everything except the runtime copies, receipts and temporary trees. */
  ghost predicate SameCatalog(d: Disk, e: Disk) {
    d.manifest == e.manifest && d.assignments == e.assignments && d.stages == e.stages
  }

  /** The files of every extension other than `id` are untouched. */
  ghost predicate SameOthers(d: Disk, e: Disk, id: string) {
    && (forall k: Key :: k.id != id ==> (k in d.copies <==> k in e.copies) && (k in d.receipts <==> k in e.receipts))
    && (forall k: Key :: k.id != id && k in d.copies ==> d.copies[k] == e.copies[k])
    && (forall k: Key :: k.id != id && k in d.receipts ==> d.receipts[k] == e.receipts[k])
    && (forall t: TempKey :: t.id != id ==> (t in d.temps <==> t in e.temps))
    && (forall t: TempKey :: t.id != id && t in d.temps ==> d.temps[t] == e.temps[t])
  }

  ghost predicate SameAuthoredOutside(d: Disk, e: Disk, id: string) {
    && (forall p :: !(AuthoredDir(id) <= p) ==> (p in d.authored <==> p in e.authored))
    && (forall p :: !(AuthoredDir(id) <= p) && p in d.authored ==> d.authored[p] == e.authored[p])
  }

  lemma RuntimeStep(d: Disk, a: Action, id: string)
    requires RuntimeOnly(a, id)
    ensures SameCatalog(d, Apply(d, a)) && d.authored == Apply(d, a).authored && SameOthers(d, Apply(d, a), id)
  {}

  lemma {:induction false} RuntimeFrame(d: Disk, actions: seq<Action>, id: string)
    requires AllRuntime(actions, id)
    ensures SameCatalog(d, Perform(d, actions)) && d.authored == Perform(d, actions).authored
    ensures SameOthers(d, Perform(d, actions), id)
    decreases |actions|
  {
    var n := |actions| - 1;
    if n >= 0 {
      RuntimeFrame(d, actions[..n], id);
      RuntimeStep(Perform(d, actions[..n]), actions[n], id);
    }
  }

  lemma OwnStep(d: Disk, a: Action, id: string)
    requires OwnOnly(a, id)
    ensures SameCatalog(d, Apply(d, a)) && SameAuthoredOutside(d, Apply(d, a), id) && SameOthers(d, Apply(d, a), id)
  {
    if RuntimeOnly(a, id) {
      RuntimeStep(d, a, id);
    } else {
      assert AuthoredDir(id) <= AuthoredPath(id);
    }
  }

  lemma {:induction false} OwnFrame(d: Disk, actions: seq<Action>, id: string)
    requires AllOwn(actions, id)
    ensures SameCatalog(d, Perform(d, actions)) && SameAuthoredOutside(d, Perform(d, actions), id)
    ensures SameOthers(d, Perform(d, actions), id)
    decreases |actions|
  {
    var n := |actions| - 1;
    if n >= 0 {
      OwnFrame(d, actions[..n], id);
      OwnStep(Perform(d, actions[..n]), actions[n], id);
    }
  }

  /** Documents of different extensions live in different directories. */
  lemma AuthoredDirsAreApart(id: string, other: string)
    requires '/' !in id && '/' !in other && AuthoredDir(id) <= AuthoredPath(other)
    ensures id == other
  {
    var p, q, n := AuthoredDir(id), AuthoredPath(other), |AUTHORED_ROOT|;
    assert forall i :: 0 <= i < |id| ==> p[n + i] == id[i] && id[i] != '/';
    assert forall i :: 0 <= i < |other| ==> q[n + i] == other[i] && other[i] != '/';
    assert p[n + |id|] == '/' && q[n + |other|] == '/' && q[n + |id|] == p[n + |id|];
    assert |id| <= |other|;
    assert |id| == |other|;
    assert forall i :: 0 <= i < |id| ==> id[i] == p[n + i] == q[n + i] == other[i];
  }
}
