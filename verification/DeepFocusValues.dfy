/** What a deep-focus selection says after normalisation, field by field. */
module DeepFocusValues {
  import opened Wrappers
  import opened DeepFocus
  import opened DeepFocusLaws

  /** The snake-case key when it is there, even as null, else the camel-case one; null and absent say nothing. */
  ghost predicate ReadsString(snake: RawString, camel: RawString, v: Option<string>) {
    match if snake.Missing? then camel else snake
    case Str(s) => v == Some(s)
    case NotString => false
    case _ => v.None?
  }

  ghost predicate ReadsTarget(r: RawTarget, t: Target) {
    && r.path == Str(t.path) && r.kind == OfKind(t.kind)
    && ReadsString(r.repoLocalPath, r.repoLocalPathCamel, t.repoLocalPath)
    && ReadsString(r.repoId, r.repoIdCamel, t.repoId) && ReadsString(r.focusId, r.focusIdCamel, t.focusId)
  }

  ghost predicate ReadsOptional(v: RawValue, t: Option<Target>) {
    match v
    case Object(r) => t.Some? && ReadsTarget(r, t.value)
    case NotObject => false
    case _ => t.None?
  }

  ghost predicate ReadsItems(items: seq<RawValue>, ts: seq<Target>) {
    |ts| == |items| && forall i :: 0 <= i < |items| ==> items[i].Object? && ReadsTarget(items[i].target, ts[i])
  }

  ghost predicate ReadsList(v: RawList, ts: seq<Target>) {
    match v
    case List(items) => ReadsItems(items, ts)
    case NotList => false
    case _ => ts == []
  }

  /** A primary target with its scoped test and support targets; its role is decided with the whole list. */
  ghost predicate ReadsPrimary(v: RawValue, target: Target, test: Option<Target>, support: Option<seq<Target>>) {
    && v.Object? && ReadsTarget(v.target, target) && !v.target.role.OtherRole?
    && ReadsOptional(if v.target.testTarget.Absent? then v.target.testTargetCamel else v.target.testTarget, test)
    && var list := if v.target.supportTargets.ListAbsent? then v.target.supportTargetsCamel else v.target.supportTargets;
       if list.ListAbsent? || list.NullList? then support.None? else support.Some? && ReadsList(list, support.value)
  }

  lemma TargetSays(r: RawTarget, t: Target)
    ensures NormalizeObject(r) == Ok(t) <==> ReadsTarget(r, t)
  {}

  lemma OptionalSays(v: RawValue, t: Option<Target>)
    ensures NormalizeTarget(v) == Ok(t) <==> ReadsOptional(v, t)
  {
    if v.Object? && t.Some? {
      TargetSays(v.target, t.value);
    }
  }

  lemma ItemSays(v: RawValue, t: Target)
    ensures NormalizeItem(v) == Ok(t) <==> v.Object? && ReadsTarget(v.target, t)
  {
    OptionalSays(v, Some(t));
  }

  lemma {:induction false} ItemsSay(items: seq<RawValue>, ts: seq<Target>)
    ensures NormalizeItems(items) == Ok(ts) <==> ReadsItems(items, ts)
  {
    if items == [] {
    } else {
      var n := |items| - 1;
      if NormalizeItems(items) == Ok(ts) {
        ItemsSay(items[..n], ts[..|ts| - 1]);
        ItemSays(items[n], ts[|ts| - 1]);
        ReadsSnoc(items, ts);
      }
      if ReadsItems(items, ts) {
        ReadsFront(items, ts);
        ItemsSay(items[..n], ts[..n]);
        ItemSays(items[n], ts[n]);
        assert ts == ts[..n] + [ts[n]];
      }
    }
  }

  lemma ReadsSnoc(items: seq<RawValue>, ts: seq<Target>)
    requires items != [] && ts != [] && ReadsItems(items[..|items| - 1], ts[..|ts| - 1])
    requires items[|items| - 1].Object? && ReadsTarget(items[|items| - 1].target, ts[|ts| - 1])
    ensures ReadsItems(items, ts)
  {
    var n := |items| - 1;
    forall i | 0 <= i < |items| ensures items[i].Object? && ReadsTarget(items[i].target, ts[i]) {
      if i < n {
        assert items[..n][i] == items[i] && ts[..n][i] == ts[i];
      }
    }
  }

  lemma ReadsFront(items: seq<RawValue>, ts: seq<Target>)
    requires items != [] && ReadsItems(items, ts)
    ensures ReadsItems(items[..|items| - 1], ts[..|ts| - 1])
  {}

  lemma {:induction false} ListSays(v: RawList, ts: seq<Target>)
    ensures NormalizeTargets(v) == Ok(ts) <==> ReadsList(v, ts)
  {
    if v.List? {
      ItemsSay(v.items, ts);
    }
  }

  /** A draft is what its item says, refused when it would be a second anchor. */
  lemma {:induction false} DraftSays(v: RawValue, anchored: bool, d: Draft)
    ensures NormalizeDraft(v, anchored) == Ok(d) <==>
            && ReadsPrimary(v, d.target, d.test, d.support)
            && d.role == (if v.target.role.OfRole? then Some(v.target.role.role) else None)
            && !(d.role == Some(Anchor) && anchored)
  {
    ItemSays(v, d.target);
    if v.Object? {
      OptionalSays(if v.target.testTarget.Absent? then v.target.testTargetCamel else v.target.testTarget, d.test);
      if d.support.Some? {
        ListSays(if v.target.supportTargets.ListAbsent? then v.target.supportTargetsCamel else v.target.supportTargets,
                 d.support.value);
      }
    }
  }

  lemma {:induction false} DraftsSay(items: seq<RawValue>)
    requires NormalizeDrafts(items).Ok?
    ensures var drafts := NormalizeDrafts(items).value;
            |drafts| == |items|
            && forall i :: 0 <= i < |items| ==>
                 ReadsPrimary(items[i], drafts[i].target, drafts[i].test, drafts[i].support)
  {
    if items != [] {
      var n := |items| - 1;
      DraftsSnoc(items);
      DraftsSay(items[..n]);
      var drafts := NormalizeDrafts(items).value;
      DraftSays(items[n], HasAnchor(drafts[..n]), drafts[n]);
      forall i | 0 <= i < n ensures items[i] == items[..n][i] && drafts[i] == drafts[..n][i] {}
    }
  }

  /** The primary targets: those listed, in order; or else the focus path as the one anchor; or none. */
  ghost predicate PrimarySays(raw: RawSelection, s: Selection) {
    if raw.focusTargets.List? && raw.focusTargets.items != [] then
      |s.primary| == |raw.focusTargets.items|
      && forall i :: 0 <= i < |s.primary| ==>
           ReadsPrimary(raw.focusTargets.items[i], s.primary[i].target, s.primary[i].test, s.primary[i].support)
    else if raw.focusPath.Str? then
      s.primary == [PrimaryTarget(Target(raw.focusPath.value, if raw.focusKind.OfKind? then raw.focusKind.kind else Directory,
                                         None, raw.primaryRepoId, raw.primaryFocusId), Anchor, None, None)]
    else s.primary == []
  }

  /** A normalised selection says what the raw one says. */
  lemma {:induction false} SelectionSays(raw: RawSelection, s: Selection)
    requires Normalize(raw) == Ok(s)
    ensures s.enabled == raw.enabled && s.primaryRepoId == raw.primaryRepoId && s.primaryFocusId == raw.primaryFocusId
    ensures s.focusPath == (if raw.focusPath.Str? then Some(raw.focusPath.value) else None) && !raw.focusPath.NotString?
    ensures s.focusKind == (if raw.focusKind.OfKind? then Some(raw.focusKind.kind) else None) && !raw.focusKind.OtherKind?
    ensures if raw.testProvided then s.test.Some? && ReadsOptional(raw.testTarget, s.test.value) else s.test.None?
    ensures ReadsList(raw.supportTargets, s.support)
    ensures PrimarySays(raw, s)
  {
    ListSays(raw.supportTargets, s.support);
    if raw.testProvided {
      OptionalSays(raw.testTarget, s.test.value);
    }
    ListedSays(raw, s);
  }

  lemma {:induction false} ListedSays(raw: RawSelection, s: Selection)
    requires Normalize(raw) == Ok(s)
    ensures PrimarySays(raw, s)
  {
    if raw.focusTargets.List? {
      DraftsSay(raw.focusTargets.items);
    }
  }
}
