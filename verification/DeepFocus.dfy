/** Deep-focus selections: normalisation, stored form, derived roots. */
module DeepFocus {
  import opened Wrappers
  import opened PythonText

  datatype Kind = Directory | File
  datatype Role = Anchor | Primary

  datatype Error = NotAString | BadKind | BadRole | TwoAnchors | NotAnObject | NotAList | NullEntry | AbsolutePath

  // ----- values as they arrive from JSON ------------------------------------------

  datatype RawString = Missing | Null | Str(value: string) | NotString
  datatype RawKind = KindMissing | KindNull | OfKind(kind: Kind) | OtherKind
  datatype RawRole = RoleAbsent | OfRole(role: Role) | OtherRole

  /** A target object may spell its keys in snake case or in camel case. */
  datatype RawTarget = RawTarget(
    path: RawString, kind: RawKind, role: RawRole,
    repoLocalPath: RawString, repoLocalPathCamel: RawString,
    repoId: RawString, repoIdCamel: RawString,
    focusId: RawString, focusIdCamel: RawString,
    testTarget: RawValue, testTargetCamel: RawValue,
    supportTargets: RawList, supportTargetsCamel: RawList)

  datatype RawValue = Absent | NullValue | Object(target: RawTarget) | NotObject
  datatype RawList = ListAbsent | NullList | List(items: seq<RawValue>) | NotList

  datatype RawSelection = RawSelection(
    enabled: bool, primaryRepoId: Option<string>, primaryFocusId: Option<string>,
    focusPath: RawString, focusKind: RawKind,
    focusTargets: RawList, testTarget: RawValue, testProvided: bool, supportTargets: RawList)

  // ----- normalised values -----------------------------------------------------------

  datatype Target = Target(
    path: string, kind: Kind, repoLocalPath: Option<string>, repoId: Option<string>, focusId: Option<string>)

  datatype PrimaryTarget = PrimaryTarget(target: Target, role: Role, test: Option<Target>, support: Option<seq<Target>>)

  datatype Reason =
    | SelectedPrimary | PrimaryFocusParent | ScopedTestTarget | TestTarget | ScopedSupportTarget | SupportTarget

  datatype Root = Root(
    path: string, kind: Kind, reason: Reason, repoLocalPath: Option<string>, sources: Option<seq<PrimaryTarget>>)

  datatype Selection = Selection(
    enabled: bool, primaryRepoId: Option<string>, primaryFocusId: Option<string>,
    focusPath: Option<string>, focusKind: Option<Kind>,
    primary: seq<PrimaryTarget>, support: seq<Target>, test: Option<Option<Target>>,
    writable: seq<Root>, readonly: seq<Root>)

  // ----- targets -------------------------------------------------------------------------

  /** value.get(snake, value.get(camel)): a key that is present wins, even with a null value. */
  function Get(snake: RawString, camel: RawString): RawString {
    if snake.Missing? then camel else snake
  }

  function OptionalString(v: RawString): Result<Option<string>, Error> {
    match v
    case Str(s) => Ok(Some(s))
    case NotString => Err(NotAString)
    case _ => Ok(None)
  }

  function NormalizeObject(r: RawTarget): Result<Target, Error> {
    if !r.path.Str? then Err(NotAString)
    else if !r.kind.OfKind? then Err(BadKind)
    else
      var repoLocalPath := OptionalString(Get(r.repoLocalPath, r.repoLocalPathCamel));
      var repoId := OptionalString(Get(r.repoId, r.repoIdCamel));
      var focusId := OptionalString(Get(r.focusId, r.focusIdCamel));
      if repoLocalPath.Err? || repoId.Err? || focusId.Err? then Err(NotAString)
      else Ok(Target(r.path.value, r.kind.kind, repoLocalPath.value, repoId.value, focusId.value))
  }

  function NormalizeTarget(v: RawValue): Result<Option<Target>, Error> {
    match v
    case Object(r) => (match NormalizeObject(r) case Ok(t) => Ok(Some(t)) case Err(e) => Err(e))
    case NotObject => Err(NotAnObject)
    case _ => Ok(None)
  }

  function NormalizeItem(v: RawValue): Result<Target, Error> {
    match NormalizeTarget(v)
    case Err(e) => Err(e)
    case Ok(None) => Err(NullEntry)
    case Ok(Some(t)) => Ok(t)
  }

  function NormalizeItems(items: seq<RawValue>): Result<seq<Target>, Error> {
    if items == [] then Ok([])
    else
      match NormalizeItems(items[..|items| - 1])
      case Err(e) => Err(e)
      case Ok(done) =>
        match NormalizeItem(items[|items| - 1])
        case Err(e) => Err(e)
        case Ok(t) => Ok(done + [t])
  }

  function NormalizeTargets(v: RawList): Result<seq<Target>, Error> {
    match v
    case List(items) => NormalizeItems(items)
    case NotList => Err(NotAList)
    case _ => Ok([])
  }

  // ----- primary targets -------------------------------------------------------------------

  /** A primary target before the anchor has been decided. */
  datatype Draft = Draft(target: Target, role: Option<Role>, test: Option<Target>, support: Option<seq<Target>>)

  function RoleOf(r: RawRole): Result<Option<Role>, Error> {
    match r
    case RoleAbsent => Ok(None)
    case OfRole(role) => Ok(Some(role))
    case OtherRole => Err(BadRole)
  }

  function NormalizeDraft(v: RawValue, anchored: bool): Result<Draft, Error> {
    match NormalizeItem(v)
    case Err(e) => Err(e)
    case Ok(t) =>
      match RoleOf(v.target.role)
      case Err(e) => Err(e)
      case Ok(role) =>
        if role == Some(Anchor) && anchored then Err(TwoAnchors)
        else
          var rawTest := if v.target.testTarget.Absent? then v.target.testTargetCamel else v.target.testTarget;
          var rawSupport := if v.target.supportTargets.ListAbsent? then v.target.supportTargetsCamel else v.target.supportTargets;
          match NormalizeTarget(rawTest)
          case Err(e) => Err(e)
          case Ok(test) =>
            if rawSupport.ListAbsent? || rawSupport.NullList? then Ok(Draft(t, role, test, None))
            else
              match NormalizeTargets(rawSupport)
              case Err(e) => Err(e)
              case Ok(support) => Ok(Draft(t, role, test, Some(support)))
  }

  predicate HasAnchor(drafts: seq<Draft>) {
    exists i :: 0 <= i < |drafts| && drafts[i].role == Some(Anchor)
  }

  function NormalizeDrafts(items: seq<RawValue>): Result<seq<Draft>, Error> {
    if items == [] then Ok([])
    else
      match NormalizeDrafts(items[..|items| - 1])
      case Err(e) => Err(e)
      case Ok(done) =>
        match NormalizeDraft(items[|items| - 1], HasAnchor(done))
        case Err(e) => Err(e)
        case Ok(d) => Ok(done + [d])
  }

  /** The first draft marked anchor, or the first draft. */
  function AnchorIndex(drafts: seq<Draft>): (i: nat)
    ensures drafts != [] ==> i < |drafts|
  {
    if HasAnchor(drafts) then FirstAnchor(drafts, 0) else 0
  }

  function FirstAnchor(drafts: seq<Draft>, from: nat): (i: nat)
    requires exists k :: from <= k < |drafts| && drafts[k].role == Some(Anchor)
    ensures from <= i < |drafts| && drafts[i].role == Some(Anchor)
    ensures forall k :: from <= k < i ==> drafts[k].role != Some(Anchor)
    decreases |drafts| - from
  {
    if drafts[from].role == Some(Anchor) then from else FirstAnchor(drafts, from + 1)
  }

  function Finish(drafts: seq<Draft>): seq<PrimaryTarget> {
    seq(|drafts|, i requires 0 <= i < |drafts| =>
      PrimaryTarget(drafts[i].target, if i == AnchorIndex(drafts) then Anchor else Primary, drafts[i].test, drafts[i].support))
  }

  function NormalizePrimary(v: RawList): Result<seq<PrimaryTarget>, Error> {
    match v
    case List(items) => (match NormalizeDrafts(items) case Ok(drafts) => Ok(Finish(drafts)) case Err(e) => Err(e))
    case NotList => Err(NotAList)
    case _ => Ok([])
  }

  /** The loop of normalize_primary_focus_targets, with its explicit-anchor flag. */
  method NormalizePrimaryFocusTargets(v: RawList) returns (result: Result<seq<PrimaryTarget>, Error>)
    ensures result == NormalizePrimary(v)
  {
    if v.ListAbsent? || v.NullList? {
      return Ok([]);
    }
    if v.NotList? {
      return Err(NotAList);
    }
    var drafts := NormalizeDraftList(v.items);
    match drafts
    case Ok(ds) => return Ok(Finish(ds));
    case Err(e) => return Err(e);
  }

  method NormalizeDraftList(items: seq<RawValue>) returns (result: Result<seq<Draft>, Error>)
    ensures result == NormalizeDrafts(items)
  {
    var drafts, explicitAnchor := [], false;
    for i := 0 to |items|
      invariant NormalizeDrafts(items[..i]) == Ok(drafts)
      invariant explicitAnchor == HasAnchor(drafts)
    {
      var draft := NormalizeDraft(items[i], explicitAnchor);
      DraftsStep(items, i, drafts, draft);
      if draft.Err? {
        PrefixError(items, i + 1);
        return Err(draft.error);
      }
      AnchorSnoc(drafts, draft.value);
      drafts := drafts + [draft.value];
      explicitAnchor := explicitAnchor || draft.value.role == Some(Anchor);
    }
    assert items[..|items|] == items;
    return Ok(drafts);
  }

  lemma {:induction false} DraftsStep(items: seq<RawValue>, i: nat, drafts: seq<Draft>, draft: Result<Draft, Error>)
    requires i < |items| && NormalizeDrafts(items[..i]) == Ok(drafts) && draft == NormalizeDraft(items[i], HasAnchor(drafts))
    ensures NormalizeDrafts(items[..i + 1]) == if draft.Ok? then Ok(drafts + [draft.value]) else Err(draft.error)
  {
    assert items[..i + 1][..i] == items[..i];
  }

  lemma AnchorSnoc(drafts: seq<Draft>, d: Draft)
    ensures HasAnchor(drafts + [d]) <==> HasAnchor(drafts) || d.role == Some(Anchor)
  {
    assert (drafts + [d])[|drafts|] == d;
    if HasAnchor(drafts) {
      var k :| 0 <= k < |drafts| && drafts[k].role == Some(Anchor);
      assert (drafts + [d])[k] == drafts[k];
    }
  }

  lemma {:induction false} PrefixError(items: seq<RawValue>, k: nat)
    requires k <= |items| && NormalizeDrafts(items[..k]).Err?
    ensures NormalizeDrafts(items) == NormalizeDrafts(items[..k])
    decreases |items|
  {
    if k == |items| {
      assert items[..k] == items;
    } else {
      assert items[..|items| - 1][..k] == items[..k];
      PrefixError(items[..|items| - 1], k);
    }
  }

  // ----- paths -----------------------------------------------------------------------------

  function NormalizeRelativePath(value: string): Result<string, Error> {
    var candidate := Strip(ReplaceChar(value, '\\', '/'));
    if candidate != "" && candidate[0] == '/' then Err(AbsolutePath) else Ok(RStripChar(candidate, '/'))
  }

  function ParentRelativePath(value: string): Result<string, Error> {
    match NormalizeRelativePath(value)
    case Err(e) => Err(e)
    case Ok(normalized) =>
      var slash := LastIndexOf(normalized, '/');
      Ok(if slash == -1 then "" else normalized[..slash])
  }

  /** The path is the root, or lies under it when the root is a directory. */
  predicate Within(path: string, root: Root) {
    || path == root.path
    || (root.kind == Directory && (root.path == "" || (|root.path| < |path| && root.path <= path && path[|root.path|] == '/')))
  }

  // ----- deriving roots ---------------------------------------------------------------------

  /** An identity falls back to another one when the target names no repository of its own. */
  function OwnRepo(own: Option<string>, otherwise: Option<string>): Option<string> {
    if own.Some? then own else otherwise
  }

  function PrimaryRoot(p: PrimaryTarget): Result<Root, Error> {
    match NormalizeRelativePath(p.target.path)
    case Err(e) => Err(e)
    case Ok(path) =>
      var source := p.(target := p.target.(path := path));
      if path == "" || p.target.kind == Directory then
        Ok(Root(path, Directory, SelectedPrimary, p.target.repoLocalPath, Some([source])))
      else
        match ParentRelativePath(path)
        case Err(e) => Err(e)
        case Ok(parent) => Ok(Root(parent, Directory, PrimaryFocusParent, p.target.repoLocalPath, Some([source])))
  }

  function TargetRoot(t: Target, reason: Reason, otherwise: Option<string>): Result<Root, Error> {
    match NormalizeRelativePath(t.path)
    case Err(e) => Err(e)
    case Ok(path) => Ok(Root(path, t.kind, reason, OwnRepo(t.repoLocalPath, otherwise), None))
  }

  function TargetRoots(ts: seq<Target>, reason: Reason, otherwise: Option<string>): Result<seq<Root>, Error> {
    if ts == [] then Ok([])
    else
      match TargetRoots(ts[..|ts| - 1], reason, otherwise)
      case Err(e) => Err(e)
      case Ok(done) =>
        match TargetRoot(ts[|ts| - 1], reason, otherwise)
        case Err(e) => Err(e)
        case Ok(root) => Ok(done + [root])
  }

  datatype Roots = Roots(writable: seq<Root>, readonly: seq<Root>)

  /** The roots of one primary target: its own, its scoped test target's, its scoped support targets'. */
  function PrimaryRoots(p: PrimaryTarget): Result<Roots, Error> {
    match PrimaryRoot(p)
    case Err(e) => Err(e)
    case Ok(root) =>
      var test := TargetRoots(match p.test case None => [] case Some(t) => [t], ScopedTestTarget, p.target.repoLocalPath);
      match test
      case Err(e) => Err(e)
      case Ok(testRoots) =>
        match TargetRoots(p.support.GetOr([]), ScopedSupportTarget, p.target.repoLocalPath)
        case Err(e) => Err(e)
        case Ok(supportRoots) => Ok(Roots([root] + testRoots, supportRoots))
  }

  function AllPrimaryRoots(ps: seq<PrimaryTarget>): Result<Roots, Error> {
    if ps == [] then Ok(Roots([], []))
    else
      match AllPrimaryRoots(ps[..|ps| - 1])
      case Err(e) => Err(e)
      case Ok(done) =>
        match PrimaryRoots(ps[|ps| - 1])
        case Err(e) => Err(e)
        case Ok(more) => Ok(Roots(done.writable + more.writable, done.readonly + more.readonly))
  }

  /** The anchor's repository, else the first target's. */
  function AnchorRepo(ps: seq<PrimaryTarget>): Option<string> {
    var anchored := FirstAnchorRepo(ps);
    if anchored.None? && ps != [] then ps[0].target.repoLocalPath else anchored
  }

  function FirstAnchorRepo(ps: seq<PrimaryTarget>): Option<string> {
    if ps == [] then None
    else if ps[0].role == Anchor && ps[0].target.repoLocalPath.Some? then ps[0].target.repoLocalPath
    else FirstAnchorRepo(ps[1..])
  }

  /** With nothing selected the whole repository is the one primary target. */
  function PrimaryOrDefault(ps: seq<PrimaryTarget>, path: string, kind: Option<Kind>): seq<PrimaryTarget> {
    if ps != [] then ps
    else [PrimaryTarget(Target(path, kind.GetOr(Directory), None, None, None), Anchor, None, None)]
  }

  function DeriveRoots(focusPath: Option<string>, focusKind: Option<Kind>, primary: seq<PrimaryTarget>,
                       test: Option<Target>, support: seq<Target>): Result<Roots, Error>
  {
    match NormalizeRelativePath(focusPath.GetOr(""))
    case Err(e) => Err(e)
    case Ok(path) =>
      var ps := PrimaryOrDefault(primary, path, focusKind);
      match AllPrimaryRoots(ps)
      case Err(e) => Err(e)
      case Ok(roots) =>
        match TargetRoots(match test case None => [] case Some(t) => [t], TestTarget, AnchorRepo(ps))
        case Err(e) => Err(e)
        case Ok(testRoots) =>
          match TargetRoots(support, SupportTarget, AnchorRepo(ps))
          case Err(e) => Err(e)
          case Ok(supportRoots) =>
            Ok(Roots(Dedupe(roots.writable + testRoots), Dedupe(roots.readonly + supportRoots)))
  }

  // ----- deduplication --------------------------------------------------------------------------

  datatype Key = Key(repo: string, path: string, kind: Kind, reason: Reason)

  function KeyOf(r: Root): Key {
    Key(r.repoLocalPath.GetOr(""), r.path, r.kind, r.reason)
  }

  /** Source targets are told apart by repository, ids, path and kind. */
  function IdentityOf(p: PrimaryTarget): Target {
    p.target
  }

  function Identities(ps: seq<PrimaryTarget>): set<Target> {
    set i | 0 <= i < |ps| :: IdentityOf(ps[i])
  }

  function MergeInto(existing: seq<PrimaryTarget>, incoming: seq<PrimaryTarget>): seq<PrimaryTarget> {
    if incoming == [] then existing
    else
      var done := MergeInto(existing, incoming[..|incoming| - 1]);
      var next := incoming[|incoming| - 1];
      if IdentityOf(next) in Identities(done) then done else done + [next]
  }

  function Merge(existing: Root, incoming: Root): Root {
    if incoming.sources.None? then existing
    else existing.(sources := Some(MergeInto(existing.sources.GetOr([]), incoming.sources.value)))
  }

  function IndexOfKey(roots: seq<Root>, key: Key): (i: int)
    ensures -1 <= i < |roots|
    ensures i != -1 ==> KeyOf(roots[i]) == key
    ensures i == -1 ==> forall j :: 0 <= j < |roots| ==> KeyOf(roots[j]) != key
  {
    if roots == [] then -1
    else
      var i := IndexOfKey(roots[..|roots| - 1], key);
      if i != -1 then i else if KeyOf(roots[|roots| - 1]) == key then |roots| - 1 else -1
  }

  function DedupeStep(done: seq<Root>, root: Root): seq<Root> {
    var i := IndexOfKey(done, KeyOf(root));
    if i == -1 then done + [root] else done[i := Merge(done[i], root)]
  }

  function Dedupe(roots: seq<Root>): seq<Root> {
    if roots == [] then [] else DedupeStep(Dedupe(roots[..|roots| - 1]), roots[|roots| - 1])
  }

  /** merge_source_targets: append the incoming targets whose identity is new. */
  method MergeSourceTargets(existing: Root, incoming: Root) returns (merged: Root)
    ensures merged == Merge(existing, incoming)
  {
    if incoming.sources.None? {
      return existing;
    }
    var targets := existing.sources.GetOr([]);
    var seen := Identities(targets);
    var incomingTargets := incoming.sources.value;
    for i := 0 to |incomingTargets|
      invariant targets == MergeInto(existing.sources.GetOr([]), incomingTargets[..i])
      invariant seen == Identities(targets)
    {
      assert incomingTargets[..i + 1][..i] == incomingTargets[..i];
      if IdentityOf(incomingTargets[i]) !in seen {
        IdentitiesSnoc(targets, incomingTargets[i]);
        seen := seen + {IdentityOf(incomingTargets[i])};
        targets := targets + [incomingTargets[i]];
      }
    }
    assert incomingTargets[..|incomingTargets|] == incomingTargets;
    return existing.(sources := Some(targets));
  }

  lemma IdentitiesSnoc(ps: seq<PrimaryTarget>, p: PrimaryTarget)
    ensures Identities(ps + [p]) == Identities(ps) + {IdentityOf(p)}
  {
    var all := ps + [p];
    assert all[|ps|] == p;
    forall i | 0 <= i < |ps| ensures IdentityOf(ps[i]) in Identities(all) {
      assert all[i] == ps[i];
    }
  }

  /** dedupe_roots: `seen` maps each key to the entry of `result` that is updated in place. */
  method DedupeRoots(roots: seq<Root>) returns (result: seq<Root>)
    ensures result == Dedupe(roots)
  {
    var seen: map<Key, nat> := map[];
    result := [];
    for i := 0 to |roots|
      invariant result == Dedupe(roots[..i])
      invariant forall k :: k in seen <==> IndexOfKey(result, k) != -1
      invariant forall k :: k in seen ==> seen[k] == IndexOfKey(result, k)
    {
      assert roots[..i + 1][..i] == roots[..i];
      var root := roots[i];
      var key := KeyOf(root);
      ghost var before := result;
      if key in seen {
        var merged := MergeSourceTargets(result[seen[key]], root);
        result := result[seen[key] := merged];
        forall k { SameKeysSameIndex(before, result, k); }
      } else {
        seen := seen[key := |result|];
        result := result + [root];
        forall k { IndexSnoc(before, root, k); }
      }
    }
    assert roots[..|roots|] == roots;
  }

  lemma {:induction false} SameKeysSameIndex(a: seq<Root>, b: seq<Root>, k: Key)
    requires |a| == |b| && forall i :: 0 <= i < |a| ==> KeyOf(a[i]) == KeyOf(b[i])
    ensures IndexOfKey(a, k) == IndexOfKey(b, k)
  {
    if a != [] {
      SameKeysSameIndex(a[..|a| - 1], b[..|b| - 1], k);
    }
  }

  lemma {:induction false} IndexSnoc(a: seq<Root>, r: Root, k: Key)
    ensures IndexOfKey(a + [r], k) ==
            if IndexOfKey(a, k) != -1 then IndexOfKey(a, k) else if KeyOf(r) == k then |a| else -1
  {
    assert (a + [r])[..|a|] == a;
  }

  // ----- the whole normalisation -------------------------------------------------------------------

  /** A stored focus path with no primary list becomes the one anchor target. */
  function WithSyntheticAnchor(primary: seq<PrimaryTarget>, focusPath: Option<string>, focusKind: Option<Kind>,
                               repoId: Option<string>, focusId: Option<string>): seq<PrimaryTarget>
  {
    if primary == [] && focusPath.Some? then
      [PrimaryTarget(Target(focusPath.value, focusKind.GetOr(Directory), None, repoId, focusId), Anchor, None, None)]
    else primary
  }

  function Normalize(raw: RawSelection): Result<Selection, Error> {
    if raw.focusPath.NotString? then Err(NotAString)
    else if raw.focusKind.OtherKind? then Err(BadKind)
    else
      var focusPath := if raw.focusPath.Str? then Some(raw.focusPath.value) else None;
      var focusKind := if raw.focusKind.OfKind? then Some(raw.focusKind.kind) else None;
      match if raw.testProvided then NormalizeTarget(raw.testTarget) else Ok(None)
      case Err(e) => Err(e)
      case Ok(test) =>
        match NormalizeTargets(raw.supportTargets)
        case Err(e) => Err(e)
        case Ok(support) =>
          match NormalizePrimary(raw.focusTargets)
          case Err(e) => Err(e)
          case Ok(listed) =>
            var primary := WithSyntheticAnchor(listed, focusPath, focusKind, raw.primaryRepoId, raw.primaryFocusId);
            match DeriveRoots(focusPath, focusKind, primary, test, support)
            case Err(e) => Err(e)
            case Ok(roots) =>
              Ok(Selection(raw.enabled, raw.primaryRepoId, raw.primaryFocusId, focusPath, focusKind, primary, support,
                           if raw.testProvided then Some(test) else None, roots.writable, roots.readonly))
  }

  // ----- the stored form ------------------------------------------------------------------------------

  function StoreString(s: Option<string>): RawString {
    match s case None => Missing case Some(v) => Str(v)
  }

  function StoreTarget(t: Target): RawTarget {
    RawTarget(Str(t.path), OfKind(t.kind), RoleAbsent,
              StoreString(t.repoLocalPath), Missing, StoreString(t.repoId), Missing, StoreString(t.focusId), Missing,
              Absent, Absent, ListAbsent, ListAbsent)
  }

  function StoreTargets(ts: seq<Target>): seq<RawValue> {
    seq(|ts|, i requires 0 <= i < |ts| => Object(StoreTarget(ts[i])))
  }

  function StorePrimary(p: PrimaryTarget): RawTarget {
    StoreTarget(p.target).(
      role := OfRole(p.role),
      testTarget := match p.test case None => Absent case Some(t) => Object(StoreTarget(t)),
      supportTargets := match p.support case None => ListAbsent case Some(ts) => List(StoreTargets(ts)))
  }

  function StorePrimaries(ps: seq<PrimaryTarget>): seq<RawValue> {
    seq(|ps|, i requires 0 <= i < |ps| => Object(StorePrimary(ps[i])))
  }

  /** The state file's fields; a null focus path or kind is written as null, and the test key only when given. */
  function Store(s: Selection): RawSelection {
    RawSelection(s.enabled, s.primaryRepoId, s.primaryFocusId,
                 match s.focusPath case None => Null case Some(p) => Str(p),
                 match s.focusKind case None => KindNull case Some(k) => OfKind(k),
                 List(StorePrimaries(s.primary)),
                 match s.test case None => Absent case Some(None) => NullValue case Some(Some(t)) => Object(StoreTarget(t)),
                 s.test.Some?,
                 List(StoreTargets(s.support)))
  }
}
