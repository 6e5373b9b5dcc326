/** Round trips, anchors, and what the derived roots cover. */
module DeepFocusLaws {
  import opened Wrappers
  import opened PythonText
  import opened DeepFocus

  // ----- anchors -----------------------------------------------------------------

  ghost predicate OneAnchorAt(ps: seq<PrimaryTarget>, k: nat) {
    && k < |ps| && ps[k].role == Anchor
    && forall i :: 0 <= i < |ps| && i != k ==> ps[i].role == Primary
  }

  lemma {:induction false} DraftsSnoc(items: seq<RawValue>)
    requires items != [] && NormalizeDrafts(items).Ok?
    ensures var (init, drafts) := (NormalizeDrafts(items[..|items| - 1]), NormalizeDrafts(items).value);
            && init.Ok? && |drafts| == |init.value| + 1 && drafts[..|init.value|] == init.value
            && NormalizeDraft(items[|items| - 1], HasAnchor(init.value)) == Ok(drafts[|init.value|])
  {}

  /** Each draft is its item, in place. */
  lemma {:induction false} DraftsFollowItems(items: seq<RawValue>)
    requires NormalizeDrafts(items).Ok?
    ensures var drafts := NormalizeDrafts(items).value;
            && |drafts| == |items|
            && (forall i :: 0 <= i < |items| ==>
                  NormalizeItem(items[i]) == Ok(drafts[i].target) && RoleOf(items[i].target.role) == Ok(drafts[i].role))
  {
    if items != [] {
      var n := |items| - 1;
      DraftsSnoc(items);
      DraftsFollowItems(items[..n]);
      var drafts := NormalizeDrafts(items).value;
      forall i | 0 <= i < n ensures items[i] == items[..n][i] && drafts[i] == drafts[..n][i] {}
    }
  }

  /** At most one draft says it is the anchor. */
  lemma {:induction false} OneDraftIsAnchor(items: seq<RawValue>)
    requires NormalizeDrafts(items).Ok?
    ensures var drafts := NormalizeDrafts(items).value;
            forall i, j :: 0 <= i < j < |drafts| ==> !(drafts[i].role == drafts[j].role == Some(Anchor))
  {
    if items != [] {
      var n := |items| - 1;
      DraftsSnoc(items);
      OneDraftIsAnchor(items[..n]);
      var drafts := NormalizeDrafts(items).value;
      forall i, j | 0 <= i < j < |drafts| ensures !(drafts[i].role == drafts[j].role == Some(Anchor)) {
        assert drafts[i] == drafts[..|drafts| - 1][i];
        assert j < |drafts| - 1 ==> drafts[j] == drafts[..|drafts| - 1][j];
      }
    }
  }

  /** A primary list keeps its length and order, and a non-empty one has exactly one anchor:
      the item that asked to be it, or else the first. */
  lemma PrimaryListHasOneAnchor(items: seq<RawValue>, ps: seq<PrimaryTarget>)
    requires NormalizePrimary(List(items)) == Ok(ps)
    ensures |ps| == |items| && forall i :: 0 <= i < |items| ==> NormalizeItem(items[i]) == Ok(ps[i].target)
    ensures forall i :: 0 <= i < |items| && items[i].Object? && items[i].target.role == OfRole(Anchor) ==> OneAnchorAt(ps, i)
    ensures (forall i :: 0 <= i < |items| && items[i].Object? ==> items[i].target.role != OfRole(Anchor)) ==>
              ps == [] || OneAnchorAt(ps, 0)
  {
    DraftsFollowItems(items);
    OneDraftIsAnchor(items);
    var drafts := NormalizeDrafts(items).value;
    forall i | 0 <= i < |items| && items[i].Object? && items[i].target.role == OfRole(Anchor) ensures OneAnchorAt(ps, i) {
      assert drafts[i].role == Some(Anchor);
      assert HasAnchor(drafts) && AnchorIndex(drafts) == i;
    }
    if forall i :: 0 <= i < |items| && items[i].Object? ==> items[i].target.role != OfRole(Anchor) {
      forall i | 0 <= i < |drafts| ensures drafts[i].role != Some(Anchor) {
        assert NormalizeItem(items[i]).Ok?;
      }
    }
  }

  lemma FinishHasOneAnchor(drafts: seq<Draft>)
    ensures drafts != [] ==> OneAnchorAt(Finish(drafts), AnchorIndex(drafts))
  {}

  // ----- storing and loading -------------------------------------------------------

  lemma TargetRoundTrip(t: Target)
    ensures NormalizeObject(StoreTarget(t)) == Ok(t)
  {}

  lemma {:induction false} TargetsRoundTrip(ts: seq<Target>)
    ensures NormalizeItems(StoreTargets(ts)) == Ok(ts)
  {
    if ts != [] {
      var n := |ts| - 1;
      TargetsRoundTrip(ts[..n]);
      TargetRoundTrip(ts[n]);
      assert StoreTargets(ts)[..n] == StoreTargets(ts[..n]);
      assert ts == ts[..n] + [ts[n]];
    }
  }

  function DraftOf(p: PrimaryTarget): Draft {
    Draft(p.target, Some(p.role), p.test, p.support)
  }

  lemma DraftRoundTrip(p: PrimaryTarget, anchored: bool)
    requires p.role == Anchor ==> !anchored
    ensures NormalizeDraft(Object(StorePrimary(p)), anchored) == Ok(DraftOf(p))
  {
    if p.test.Some? {
      TargetRoundTrip(p.test.value);
    }
    if p.support.Some? {
      TargetsRoundTrip(p.support.value);
    }
  }

  function DraftsOf(ps: seq<PrimaryTarget>): seq<Draft> {
    seq(|ps|, i requires 0 <= i < |ps| => DraftOf(ps[i]))
  }

  lemma {:induction false} DraftsRoundTrip(ps: seq<PrimaryTarget>)
    requires forall i, j :: 0 <= i < j < |ps| ==> !(ps[i].role == ps[j].role == Anchor)
    ensures NormalizeDrafts(StorePrimaries(ps)) == Ok(DraftsOf(ps))
  {
    if ps != [] {
      var n := |ps| - 1;
      DraftsRoundTrip(ps[..n]);
      assert StorePrimaries(ps)[..n] == StorePrimaries(ps[..n]);
      assert DraftsOf(ps) == DraftsOf(ps[..n]) + [DraftOf(ps[n])];
      DraftRoundTrip(ps[n], HasAnchor(DraftsOf(ps[..n])));
    }
  }

  lemma PrimaryRoundTrip(ps: seq<PrimaryTarget>, k: nat)
    requires ps != [] ==> OneAnchorAt(ps, k)
    ensures NormalizePrimary(List(StorePrimaries(ps))) == Ok(ps)
  {
    DraftsRoundTrip(ps);
    var drafts := DraftsOf(ps);
    if ps != [] {
      assert drafts[k].role == Some(Anchor);
      assert AnchorIndex(drafts) == k;
    }
    assert Finish(drafts) == ps;
  }

  lemma NormalizedPrimaryHasAnchor(raw: RawSelection, s: Selection) returns (k: nat)
    requires Normalize(raw) == Ok(s)
    ensures s.primary != [] ==> OneAnchorAt(s.primary, k)
    ensures s.primary == [] ==> s.focusPath.None?
  {
    var listed := NormalizePrimary(raw.focusTargets).value;
    k := 0;
    if raw.focusTargets.List? {
      var drafts := NormalizeDrafts(raw.focusTargets.items).value;
      FinishHasOneAnchor(drafts);
      if listed != [] {
        k := AnchorIndex(drafts);
      }
    }
  }

  /** What storing needs: one anchor, and the roots that the targets give. */
  ghost predicate Storable(s: Selection, k: nat) {
    && (s.primary != [] ==> OneAnchorAt(s.primary, k)) && (s.primary == [] ==> s.focusPath.None?)
    && DeriveRoots(s.focusPath, s.focusKind, s.primary, s.test.GetOr(None), s.support) == Ok(Roots(s.writable, s.readonly))
  }

  lemma NormalizedIsStorable(raw: RawSelection, s: Selection) returns (k: nat)
    requires Normalize(raw) == Ok(s)
    ensures Storable(s, k)
  {
    k := NormalizedPrimaryHasAnchor(raw, s);
  }

  lemma NormalizeFrom(raw: RawSelection, focusPath: Option<string>, focusKind: Option<Kind>, test: Option<Target>,
                      support: seq<Target>, primary: seq<PrimaryTarget>, roots: Roots)
    requires !raw.focusPath.NotString? && !raw.focusKind.OtherKind?
    requires focusPath == if raw.focusPath.Str? then Some(raw.focusPath.value) else None
    requires focusKind == if raw.focusKind.OfKind? then Some(raw.focusKind.kind) else None
    requires (if raw.testProvided then NormalizeTarget(raw.testTarget) else Ok(None)) == Ok(test)
    requires NormalizeTargets(raw.supportTargets) == Ok(support)
    requires NormalizePrimary(raw.focusTargets) == Ok(primary) && (primary == [] ==> focusPath.None?)
    requires DeriveRoots(focusPath, focusKind, primary, test, support) == Ok(roots)
    ensures Normalize(raw) ==
            Ok(Selection(raw.enabled, raw.primaryRepoId, raw.primaryFocusId, focusPath, focusKind, primary, support,
                         if raw.testProvided then Some(test) else None, roots.writable, roots.readonly))
  {}

  lemma TestRoundTrip(s: Selection)
    ensures (if Store(s).testProvided then NormalizeTarget(Store(s).testTarget) else Ok(None)) == Ok(s.test.GetOr(None))
  {
    if s.test.Some? && s.test.value.Some? {
      TargetRoundTrip(s.test.value.value);
    }
  }

  lemma StorableReloads(s: Selection, k: nat)
    requires Storable(s, k)
    ensures Normalize(Store(s)) == Ok(s)
  {
    PrimaryRoundTrip(s.primary, k);
    TargetsRoundTrip(s.support);
    TestRoundTrip(s);
    NormalizeFrom(Store(s), s.focusPath, s.focusKind, s.test.GetOr(None), s.support, s.primary, Roots(s.writable, s.readonly));
  }

  /** Loading a normalised selection from its own stored form gives the same selection, roots included. */
  lemma ReloadIsIdentity(raw: RawSelection, s: Selection)
    requires Normalize(raw) == Ok(s)
    ensures Normalize(Store(s)) == Ok(s)
  {
    var k := NormalizedIsStorable(raw, s);
    StorableReloads(s, k);
  }

  function Iterated<T, E>(f: T -> Result<T, E>, x: T, times: nat): Result<T, E> {
    if times == 0 then Ok(x)
    else
      match Iterated(f, x, times - 1)
      case Err(e) => Err(e)
      case Ok(y) => f(y)
  }

  lemma {:induction false} IteratedStays<T, E>(f: T -> Result<T, E>, x: T, times: nat)
    requires f(x) == Ok(x)
    ensures Iterated(f, x, times) == Ok(x)
  {
    if times > 0 {
      IteratedStays(f, x, times - 1);
    }
  }

  function Reloads(s: Selection, times: nat): Result<Selection, Error> {
    Iterated(x => Normalize(Store(x)), s, times)
  }

  /** However often a selection is stored and loaded again, it survives unchanged. */
  lemma {:induction false} ReloadsArePreserving(raw: RawSelection, s: Selection, times: nat)
    requires Normalize(raw) == Ok(s)
    ensures Reloads(s, times) == Ok(s)
  {
    ReloadIsIdentity(raw, s);
    IteratedStays(x => Normalize(Store(x)), s, times);
  }

  // ----- deduplication --------------------------------------------------------------

  /** The keys of a list in order of first appearance. */
  function FirstKeys(roots: seq<Root>): seq<Key> {
    if roots == [] then []
    else
      var before := FirstKeys(roots[..|roots| - 1]);
      if KeyOf(roots[|roots| - 1]) in before then before else before + [KeyOf(roots[|roots| - 1])]
  }

  function Keys(roots: seq<Root>): seq<Key> {
    seq(|roots|, i requires 0 <= i < |roots| => KeyOf(roots[i]))
  }

  /** Everything that contributed to a key. */
  ghost function IdentitiesFor(roots: seq<Root>, k: Key): set<Target> {
    if roots == [] then {}
    else
      var last := roots[|roots| - 1];
      IdentitiesFor(roots[..|roots| - 1], k) + if KeyOf(last) == k then Identities(last.sources.GetOr([])) else {}
  }

  lemma {:induction false} MergeUnion(existing: seq<PrimaryTarget>, incoming: seq<PrimaryTarget>)
    ensures Identities(MergeInto(existing, incoming)) == Identities(existing) + Identities(incoming)
  {
    if incoming != [] {
      var n := |incoming| - 1;
      MergeUnion(existing, incoming[..n]);
      IdentitiesSnoc(incoming[..n], incoming[n]);
      assert incoming == incoming[..n] + [incoming[n]];
      IdentitiesSnoc(MergeInto(existing, incoming[..n]), incoming[n]);
    }
  }

  lemma {:induction false} KeyMember(roots: seq<Root>, k: Key)
    ensures k in Keys(roots) <==> IndexOfKey(roots, k) != -1
  {
    var i := IndexOfKey(roots, k);
    if i != -1 {
      assert Keys(roots)[i] == k;
    }
  }

  /** One entry per key, in order of first appearance. */
  lemma {:induction false} DedupeKeys(roots: seq<Root>)
    ensures Keys(Dedupe(roots)) == FirstKeys(roots)
    ensures forall i, j :: 0 <= i < j < |Dedupe(roots)| ==> KeyOf(Dedupe(roots)[i]) != KeyOf(Dedupe(roots)[j])
    ensures forall k :: k in FirstKeys(roots) <==> k in Keys(roots)
  {
    if roots != [] {
      var n := |roots| - 1;
      var done, root := Dedupe(roots[..n]), roots[n];
      DedupeKeys(roots[..n]);
      KeyMember(done, KeyOf(root));
      assert Keys(roots) == Keys(roots[..n]) + [KeyOf(root)];
      var i := IndexOfKey(done, KeyOf(root));
      if i == -1 {
        assert Keys(done + [root]) == Keys(done) + [KeyOf(root)];
      } else {
        assert KeyOf(Merge(done[i], root)) == KeyOf(done[i]);
        assert Keys(done[i := Merge(done[i], root)]) == Keys(done);
      }
    }
  }

  lemma {:induction false} IdentitiesForUpdate(roots: seq<Root>, i: nat, r: Root, k: Key)
    requires i < |roots| && KeyOf(r) == KeyOf(roots[i])
    requires Identities(roots[i].sources.GetOr([])) <= Identities(r.sources.GetOr([]))
    ensures IdentitiesFor(roots[i := r], k) ==
            IdentitiesFor(roots, k) + if KeyOf(r) == k then Identities(r.sources.GetOr([])) else {}
  {
    var n := |roots| - 1;
    if i < n {
      assert roots[i := r][..n] == roots[..n][i := r];
      IdentitiesForUpdate(roots[..n], i, r, k);
    } else {
      assert roots[i := r][..n] == roots[..n];
    }
  }

  lemma {:induction false} IdentitiesForIncludes(roots: seq<Root>, i: nat)
    requires i < |roots|
    ensures Identities(roots[i].sources.GetOr([])) <= IdentitiesFor(roots, KeyOf(roots[i]))
  {
    var n := |roots| - 1;
    if i < n {
      IdentitiesForIncludes(roots[..n], i);
    }
  }

  /** No source target is lost or invented: per key the union of identities is conserved. */
  lemma {:induction false} DedupeConserves(roots: seq<Root>, k: Key)
    ensures IdentitiesFor(Dedupe(roots), k) == IdentitiesFor(roots, k)
  {
    if roots != [] {
      var n := |roots| - 1;
      var done, root := Dedupe(roots[..n]), roots[n];
      DedupeConserves(roots[..n], k);
      var i := IndexOfKey(done, KeyOf(root));
      if i == -1 {
        assert (done + [root])[..|done|] == done;
      } else {
        var merged := Merge(done[i], root);
        if root.sources.Some? {
          MergeUnion(done[i].sources.GetOr([]), root.sources.value);
        }
        assert Identities([]) == {};
        assert Identities(merged.sources.GetOr([])) ==
               Identities(done[i].sources.GetOr([])) + Identities(root.sources.GetOr([]));
        IdentitiesForUpdate(done, i, merged, k);
        IdentitiesForIncludes(done, i);
      }
    }
  }

  // ----- coverage ------------------------------------------------------------------------

  /** Some root of this repository contains the path. */
  ghost predicate Covered(roots: seq<Root>, repo: Option<string>, path: string) {
    exists i :: 0 <= i < |roots| && KeyOf(roots[i]).repo == repo.GetOr("") && Within(path, roots[i])
  }

  lemma {:induction false} CoveredAfterDedupe(roots: seq<Root>, repo: Option<string>, path: string)
    requires Covered(roots, repo, path)
    ensures Covered(Dedupe(roots), repo, path)
  {
    DedupeKeys(roots);
    var i :| 0 <= i < |roots| && KeyOf(roots[i]).repo == repo.GetOr("") && Within(path, roots[i]);
    assert Keys(roots)[i] in FirstKeys(roots);
    var j :| 0 <= j < |Keys(Dedupe(roots))| && Keys(Dedupe(roots))[j] == KeyOf(roots[i]);
    assert KeyOf(Dedupe(roots)[j]) == KeyOf(roots[i]);
  }

  lemma {:induction false} RStripCharPrefix(s: string, c: char)
    ensures RStripChar(s, c) <= s
  {
    if s != "" && s[|s| - 1] == c {
      RStripCharPrefix(s[..|s| - 1], c);
    }
  }

  lemma {:induction false} RStripPrefix(s: string)
    ensures RStrip(s) <= s
  {
    if s != "" && IsSpace(s[|s| - 1]) {
      RStripPrefix(s[..|s| - 1]);
    }
  }

  lemma {:induction false} LStripClean(s: string)
    ensures LStrip(s) == "" || !IsSpace(LStrip(s)[0])
    ensures forall c :: c in LStrip(s) ==> c in s
  {
    if s != "" && IsSpace(s[0]) {
      LStripClean(s[1..]);
    }
  }

  /** A normalised path starts with neither a space nor a slash, and has no backslash. */
  lemma NormalizedShape(value: string, path: string)
    requires NormalizeRelativePath(value) == Ok(path)
    ensures path != "" ==> !IsSpace(path[0]) && path[0] != '/'
    ensures '\\' !in path
  {
    var replaced := ReplaceChar(value, '\\', '/');
    LStripClean(replaced);
    RStripPrefix(LStrip(replaced));
    RStripCharPrefix(Strip(replaced), '/');
    assert path <= LStrip(replaced);
    forall i | 0 <= i < |path| ensures path[i] != '\\' {
      assert path[i] == LStrip(replaced)[i] && LStrip(replaced)[i] in replaced;
    }
  }

  /** The parent of a normalised file path is a directory that contains it. */
  lemma ParentContains(value: string, path: string, parent: string)
    requires NormalizeRelativePath(value) == Ok(path) && ParentRelativePath(path) == Ok(parent)
    ensures parent == "" || (|parent| < |path| && parent <= path && path[|parent|] == '/')
  {
    NormalizedShape(value, path);
    assert ReplaceChar(path, '\\', '/') == path;
    assert LStrip(path) == path;
    RStripPrefix(path);
    RStripCharPrefix(RStrip(path), '/');
    var again := NormalizeRelativePath(path).value;
    assert again <= path;
  }

  /** A path never normalises to an absolute one, so taking the parent of a normalised path cannot fail. */
  lemma PrimaryRootCovers(p: PrimaryTarget, root: Root, path: string)
    requires PrimaryRoot(p) == Ok(root) && NormalizeRelativePath(p.target.path) == Ok(path)
    ensures Within(path, root) && KeyOf(root).repo == p.target.repoLocalPath.GetOr("")
  {
    if path != "" && p.target.kind == File {
      ParentContains(p.target.path, path, root.path);
    }
  }

  lemma {:induction false} TargetRootsCover(ts: seq<Target>, reason: Reason, otherwise: Option<string>,
                                            roots: seq<Root>)
    requires TargetRoots(ts, reason, otherwise) == Ok(roots)
    ensures |roots| == |ts|
    ensures forall i :: 0 <= i < |ts| ==>
              && NormalizeRelativePath(ts[i].path) == Ok(roots[i].path)
              && roots[i].kind == ts[i].kind && roots[i].reason == reason
              && roots[i].repoLocalPath == OwnRepo(ts[i].repoLocalPath, otherwise)
  {
    if ts != [] {
      TargetRootAt(ts, reason, otherwise, roots, 0);
    }
    forall i | 0 <= i < |ts|
      ensures NormalizeRelativePath(ts[i].path) == Ok(roots[i].path)
      ensures roots[i].kind == ts[i].kind && roots[i].reason == reason
      ensures roots[i].repoLocalPath == OwnRepo(ts[i].repoLocalPath, otherwise)
    {
      TargetRootAt(ts, reason, otherwise, roots, i);
      TargetRootCovers(ts[i], reason, otherwise, roots[i]);
    }
  }

  lemma {:induction false} TargetRootAt(ts: seq<Target>, reason: Reason, otherwise: Option<string>, roots: seq<Root>,
                                        i: nat)
    requires TargetRoots(ts, reason, otherwise) == Ok(roots) && i < |ts|
    ensures |roots| == |ts| && TargetRoot(ts[i], reason, otherwise) == Ok(roots[i])
  {
    var n := |ts| - 1;
    TargetRootsSnoc(ts, reason, otherwise, roots);
    if n > 0 {
      TargetRootAt(ts[..n], reason, otherwise, roots[..|roots| - 1], if i < n then i else 0);
    }
  }

  lemma {:induction false} TargetRootsSnoc(ts: seq<Target>, reason: Reason, otherwise: Option<string>, roots: seq<Root>)
    requires ts != [] && TargetRoots(ts, reason, otherwise) == Ok(roots)
    ensures roots != [] && TargetRoots(ts[..|ts| - 1], reason, otherwise) == Ok(roots[..|roots| - 1])
    ensures TargetRoot(ts[|ts| - 1], reason, otherwise) == Ok(roots[|roots| - 1])
  {}

  lemma TargetRootCovers(t: Target, reason: Reason, otherwise: Option<string>, root: Root)
    requires TargetRoot(t, reason, otherwise) == Ok(root)
    ensures NormalizeRelativePath(t.path) == Ok(root.path) && root.kind == t.kind && root.reason == reason
    ensures root.repoLocalPath == OwnRepo(t.repoLocalPath, otherwise)
  {}

  ghost predicate Includes(all: Roots, part: Roots) {
    && (forall i :: 0 <= i < |part.writable| ==> part.writable[i] in all.writable)
    && (forall i :: 0 <= i < |part.readonly| ==> part.readonly[i] in all.readonly)
  }

  ghost predicate ReasonsSeparate(roots: Roots) {
    && (forall r :: r in roots.writable ==> r.reason in {SelectedPrimary, PrimaryFocusParent, ScopedTestTarget, TestTarget})
    && (forall r :: r in roots.readonly ==> r.reason in {ScopedSupportTarget, SupportTarget})
  }

  lemma PrimaryRootsSeparate(p: PrimaryTarget, roots: Roots)
    requires PrimaryRoots(p) == Ok(roots)
    ensures ReasonsSeparate(roots)
  {
    var test := match p.test case None => [] case Some(t) => [t];
    var tests := TargetRoots(test, ScopedTestTarget, p.target.repoLocalPath).value;
    TargetRootsCover(test, ScopedTestTarget, p.target.repoLocalPath, tests);
    TargetRootsCover(p.support.GetOr([]), ScopedSupportTarget, p.target.repoLocalPath, roots.readonly);
  }

  ghost function JoinRoots(a: Roots, b: Roots): Roots {
    Roots(a.writable + b.writable, a.readonly + b.readonly)
  }

  lemma JoinIncludes(a: Roots, b: Roots, part: Roots)
    ensures Includes(a, part) || Includes(b, part) ==> Includes(JoinRoots(a, b), part)
    ensures Includes(b, b)
    ensures ReasonsSeparate(a) && ReasonsSeparate(b) ==> ReasonsSeparate(JoinRoots(a, b))
  {}

  lemma {:induction false} AllPrimaryRootsSnoc(ps: seq<PrimaryTarget>, roots: Roots) returns (done: Roots, more: Roots)
    requires ps != [] && AllPrimaryRoots(ps) == Ok(roots)
    ensures AllPrimaryRoots(ps[..|ps| - 1]) == Ok(done) && PrimaryRoots(ps[|ps| - 1]) == Ok(more)
    ensures roots == JoinRoots(done, more)
  {
    done, more := AllPrimaryRoots(ps[..|ps| - 1]).value, PrimaryRoots(ps[|ps| - 1]).value;
  }

  lemma JoinContains(a: Roots, b: Roots, part: Roots)
    ensures Includes(a, part) || part == b ==> Includes(JoinRoots(a, b), part)
  {}

  lemma {:induction false} AllPrimaryRootsInclude(ps: seq<PrimaryTarget>, roots: Roots, i: nat) returns (part: Roots)
    requires AllPrimaryRoots(ps) == Ok(roots) && i < |ps|
    ensures PrimaryRoots(ps[i]) == Ok(part) && Includes(roots, part)
    decreases |ps|
  {
    var done, more := AllPrimaryRootsSnoc(ps, roots);
    if i < |ps| - 1 {
      part := AllPrimaryRootsInclude(ps[..|ps| - 1], done, i);
    } else {
      part := more;
    }
    JoinContains(done, more, part);
  }

  lemma {:induction false} AllPrimaryRootsSeparate(ps: seq<PrimaryTarget>, roots: Roots)
    requires AllPrimaryRoots(ps) == Ok(roots)
    ensures ReasonsSeparate(roots)
    decreases |ps|
  {
    if ps != [] {
      var n := |ps| - 1;
      var done, more := AllPrimaryRootsSnoc(ps, roots);
      AllPrimaryRootsSeparate(ps[..n], done);
      PrimaryRootsSeparate(ps[n], more);
      JoinIncludes(done, more, more);
    }
  }

  lemma CoveredByMember(roots: seq<Root>, r: Root, repo: Option<string>, path: string)
    requires r in roots && KeyOf(r).repo == repo.GetOr("") && Within(path, r)
    ensures Covered(roots, repo, path)
  {}

  /** What must hold of the writable roots for one primary target: its own path and that of its scoped test
      target lie inside a writable root of the right repository. */
  ghost predicate PrimaryCovered(writable: seq<Root>, p: PrimaryTarget) {
    && NormalizeRelativePath(p.target.path).Ok?
    && Covered(writable, p.target.repoLocalPath, NormalizeRelativePath(p.target.path).value)
    && (p.test.Some? ==>
          && NormalizeRelativePath(p.test.value.path).Ok?
          && Covered(writable, OwnRepo(p.test.value.repoLocalPath, p.target.repoLocalPath),
                     NormalizeRelativePath(p.test.value.path).value))
  }

  lemma {:induction false} PrimaryRootsCover(all: seq<Root>, p: PrimaryTarget)
    requires PrimaryRoots(p).Ok? && forall i :: 0 <= i < |PrimaryRoots(p).value.writable| ==> PrimaryRoots(p).value.writable[i] in all
    ensures PrimaryCovered(Dedupe(all), p)
  {
    var roots := PrimaryRoots(p).value.writable;
    var path := NormalizeRelativePath(p.target.path).value;
    PrimaryRootCovers(p, roots[0], path);
    CoveredByMember(all, roots[0], p.target.repoLocalPath, path);
    CoveredAfterDedupe(all, p.target.repoLocalPath, path);
    if p.test.Some? {
      var t := p.test.value;
      var tests := TargetRoots([t], ScopedTestTarget, p.target.repoLocalPath).value;
      TargetRootsCover([t], ScopedTestTarget, p.target.repoLocalPath, tests);
      assert roots[1] == tests[0];
      CoveredByMember(all, roots[1], OwnRepo(t.repoLocalPath, p.target.repoLocalPath), tests[0].path);
      CoveredAfterDedupe(all, OwnRepo(t.repoLocalPath, p.target.repoLocalPath), tests[0].path);
    }
  }

  lemma {:induction false} DedupeKeepsReasons(roots: seq<Root>, ok: set<Reason>)
    requires forall r :: r in roots ==> r.reason in ok
    ensures forall r :: r in Dedupe(roots) ==> r.reason in ok
  {
    if roots != [] {
      assert roots == roots[..|roots| - 1] + [roots[|roots| - 1]];
      DedupeKeepsReasons(roots[..|roots| - 1], ok);
    }
  }

  ghost predicate DistinctIdentities(ps: seq<PrimaryTarget>) {
    forall i, j :: 0 <= i < j < |ps| ==> ps[i].target != ps[j].target
  }

  /** Merging keeps the sources there are, in front, appends incoming ones only, and no identity twice. */
  lemma {:induction false} MergedSources(existing: seq<PrimaryTarget>, incoming: seq<PrimaryTarget>)
    ensures var all := MergeInto(existing, incoming);
            && existing <= all && (forall i :: |existing| <= i < |all| ==> all[i] in incoming)
            && (DistinctIdentities(existing) ==> DistinctIdentities(all))
            && (forall p :: p in incoming ==> exists q :: q in all && q.target == p.target)
  {
    if incoming != [] {
      var n := |incoming| - 1;
      var done, next := MergeInto(existing, incoming[..n]), incoming[n];
      MergedSources(existing, incoming[..n]);
      assert forall p :: p in incoming <==> p in incoming[..n] || p == next;
      NewIdentity(done, next);
    }
  }

  lemma NewIdentity(done: seq<PrimaryTarget>, next: PrimaryTarget)
    ensures next.target in Identities(done) <==> exists q :: q in done && q.target == next.target
    ensures next in done + [next] && forall q :: q in done ==> q in done + [next]
  {
    if i :| 0 <= i < |done| && done[i].target == next.target {
      assert done[i] in done;
    }
  }

  /** Roots made one for one from targets keep covering them after deduplication with other roots. */
  lemma {:induction false} TargetsCovered(others: seq<Root>, ts: seq<Target>, reason: Reason,
                                          otherwise: Option<string>, roots: seq<Root>, i: nat)
    requires TargetRoots(ts, reason, otherwise) == Ok(roots) && i < |ts|
    ensures NormalizeRelativePath(ts[i].path).Ok?
    ensures Covered(Dedupe(others + roots), OwnRepo(ts[i].repoLocalPath, otherwise), NormalizeRelativePath(ts[i].path).value)
  {
    TargetRootsCover(ts, reason, otherwise, roots);
    var repo := OwnRepo(ts[i].repoLocalPath, otherwise);
    assert roots[i] in others + roots;
    CoveredByMember(others + roots, roots[i], repo, roots[i].path);
    CoveredAfterDedupe(others + roots, repo, roots[i].path);
  }

  lemma SeparateAfterDedupe(roots: Roots)
    requires ReasonsSeparate(roots)
    ensures ReasonsSeparate(Roots(Dedupe(roots.writable), Dedupe(roots.readonly)))
  {
    DedupeKeepsReasons(roots.writable, {SelectedPrimary, PrimaryFocusParent, ScopedTestTarget, TestTarget});
    DedupeKeepsReasons(roots.readonly, {ScopedSupportTarget, SupportTarget});
  }

  lemma {:induction false} TargetRootsSeparate(tests: seq<Target>, support: seq<Target>, otherwise: Option<string>)
    requires TargetRoots(tests, TestTarget, otherwise).Ok? && TargetRoots(support, SupportTarget, otherwise).Ok?
    ensures ReasonsSeparate(Roots(TargetRoots(tests, TestTarget, otherwise).value,
                                  TargetRoots(support, SupportTarget, otherwise).value))
  {
    TargetRootsCover(tests, TestTarget, otherwise, TargetRoots(tests, TestTarget, otherwise).value);
    TargetRootsCover(support, SupportTarget, otherwise, TargetRoots(support, SupportTarget, otherwise).value);
  }

  /** The parts a successful derivation is made of. */
  lemma DerivedParts(focusPath: Option<string>, focusKind: Option<Kind>, primary: seq<PrimaryTarget>,
                     test: Option<Target>, support: seq<Target>, roots: Roots)
    returns (ps: seq<PrimaryTarget>, scoped: Roots, tests: seq<Target>, own: Roots)
    requires DeriveRoots(focusPath, focusKind, primary, test, support) == Ok(roots)
    ensures NormalizeRelativePath(focusPath.GetOr("")).Ok?
    ensures ps == PrimaryOrDefault(primary, NormalizeRelativePath(focusPath.GetOr("")).value, focusKind)
    ensures AllPrimaryRoots(ps) == Ok(scoped)
    ensures tests == (match test case None => [] case Some(t) => [t])
    ensures TargetRoots(tests, TestTarget, AnchorRepo(ps)) == Ok(own.writable)
    ensures TargetRoots(support, SupportTarget, AnchorRepo(ps)) == Ok(own.readonly)
    ensures roots == Roots(Dedupe(scoped.writable + own.writable), Dedupe(scoped.readonly + own.readonly))
  {
    ps := PrimaryOrDefault(primary, NormalizeRelativePath(focusPath.GetOr("")).value, focusKind);
    scoped := AllPrimaryRoots(ps).value;
    tests := match test case None => [] case Some(t) => [t];
    own := Roots(TargetRoots(tests, TestTarget, AnchorRepo(ps)).value, TargetRoots(support, SupportTarget, AnchorRepo(ps)).value);
  }

  /** Every primary and test target lies inside a derived writable root of its own repository; every support
      target inside a read-only one; and only support targets yield read-only roots. */
  lemma DerivedRootsCover(focusPath: Option<string>, focusKind: Option<Kind>, primary: seq<PrimaryTarget>,
                          test: Option<Target>, support: seq<Target>, roots: Roots)
    requires DeriveRoots(focusPath, focusKind, primary, test, support) == Ok(roots)
    ensures forall i :: 0 <= i < |primary| ==> PrimaryCovered(roots.writable, primary[i])
    ensures ReasonsSeparate(roots)
    ensures NormalizeRelativePath(focusPath.GetOr("")).Ok?
    ensures var ps := PrimaryOrDefault(primary, NormalizeRelativePath(focusPath.GetOr("")).value, focusKind);
            && (test.Some? ==>
                  && NormalizeRelativePath(test.value.path).Ok?
                  && Covered(roots.writable, OwnRepo(test.value.repoLocalPath, AnchorRepo(ps)),
                             NormalizeRelativePath(test.value.path).value))
            && (forall i :: 0 <= i < |support| ==>
                  && NormalizeRelativePath(support[i].path).Ok?
                  && Covered(roots.readonly, OwnRepo(support[i].repoLocalPath, AnchorRepo(ps)),
                             NormalizeRelativePath(support[i].path).value))
  {
    var ps, scoped, tests, own := DerivedParts(focusPath, focusKind, primary, test, support, roots);
    AllPrimaryRootsSeparate(ps, scoped);
    forall i | 0 <= i < |primary| ensures PrimaryCovered(roots.writable, primary[i]) {
      var part := AllPrimaryRootsInclude(ps, scoped, i);
      PrimaryRootsCover(scoped.writable + own.writable, ps[i]);
    }
    if test.Some? {
      TargetsCovered(scoped.writable, tests, TestTarget, AnchorRepo(ps), own.writable, 0);
    }
    forall i | 0 <= i < |support|
      ensures NormalizeRelativePath(support[i].path).Ok?
      ensures Covered(roots.readonly, OwnRepo(support[i].repoLocalPath, AnchorRepo(ps)), NormalizeRelativePath(support[i].path).value)
    {
      TargetsCovered(scoped.readonly, support, SupportTarget, AnchorRepo(ps), own.readonly, i);
    }
    TargetRootsSeparate(tests, support, AnchorRepo(ps));
    JoinIncludes(scoped, own, own);
    SeparateAfterDedupe(JoinRoots(scoped, own));
  }
}
