/** When the manifest stays readable, over whole runs, and what one reconciliation then repairs. */
module ExtensionReadable {
  import opened ExtensionAssignments
  import opened ExtensionDisk
  import opened ExtensionInvariant
  import opened ExtensionReconcile
  import opened ExtensionScripts
  import opened JsText
  import opened Wrappers

  // ----- what inspection finds --------------------------------------------------

  /** A plugin whose provider reports a blank name; skills without a name never pass inspection. */
  ghost predicate NamelessPlugin(p: Platform, kind: Kind, tree: Content) {
    kind == Plugin && p.summarize(tree).Some? && IsBlank(p.summarize(tree).value.name)
  }

  /** Inspection always finds a description, and a name except for such a plugin. */
  lemma InspectedSaysSomething(p: Platform, kind: Kind, tree: Content)
    requires p.Inspect(kind, tree).Some?
    ensures var m := p.Inspect(kind, tree).value;
            !IsBlank(m.description) && (IsBlank(m.displayName) <==> NamelessPlugin(p, kind, tree))
  {
    match kind
    case Skill =>
      var f := p.frontMatter(tree).value;
      TrimKeepsMarks(f.name);
      TrimKeepsMarks(f.description);
    case Plugin =>
      var s := p.summarize(tree).value;
      if IsBlank(s.description) {
        assert ("Plugin " + s.name + ".")[0] == 'P' && !IsTrimmed('P');
      } else {
        TrimKeepsMarks(s.description);
      }
  }

  // ----- keeping the manifest readable ------------------------------------------

  /** The path an add derives for a document is always one the manifest reader accepts. */
  lemma AuthoredPathIsSafe(id: string)
    requires ValidId(id)
    ensures SafeRelativePath(AuthoredPath(id))
  {
    var path := AuthoredPath(id);
    forall i | 0 <= i < |path| ensures !ParentAt(path, i) {
      if i != |path| - 3 {
        DotsInAuthoredPath(id, i);
      } else {
        DotsInAuthoredPath(id, i + 1);
      }
    }
  }

  lemma DotsInAuthoredPath(id: string, i: nat)
    requires ValidId(id) && i < |AuthoredPath(id)| && i != |AuthoredPath(id)| - 3
    ensures AuthoredPath(id)[i] != '.'
  {
    var n := |AUTHORED_ROOT|;
    if i < n {
      assert AuthoredPath(id)[i] == AUTHORED_ROOT[i];
    } else if i < n + |id| {
      assert AuthoredPath(id)[i] == id[i - n];
    } else {
      assert AuthoredPath(id)[i] == "/SKILL.md"[i - n - |id|];
    }
  }

  /** A completed add keeps the manifest readable exactly when its source is one the reader accepts and the tree
      it materialised is not a plugin whose name is blank. */
  lemma AddKeepsReadableIff(d: Disk, p: Platform, env: Env, req: AddRequest) returns (f: Fetched, m: Metadata)
    requires AddScript(d, p, env, req).ok
    ensures Obtain(Perform(d, AuthorScript(req)), AddedSource(req), env) == Some(f)
    ensures p.Inspect(req.kind, f.tree) == Some(m)
    ensures var v := Perform(d, AddScript(d, p, env, req).actions);
            && v.manifest == d.manifest + [AddedEntry(req, p, m)]
            && (Readable(v.manifest, p.provider)
                <==> SafeSource(AddedSource(req)) && !NamelessPlugin(p, req.kind, f.tree))
            && (req.source.AddAuthored? ==> SafeSource(AddedSource(req)))
  {
    f, m := AddedIsHealthy(d, p, env, req);
    InspectedSaysSomething(p, req.kind, f.tree);
    var e := AddedEntry(req, p, m);
    if req.source.AddAuthored? {
      AuthoredPathIsSafe(req.id);
    }
    AppendedReadableIff(d.manifest, e, p.provider);
  }

  lemma {:induction false} AppendedReadableIff(entries: seq<Entry>, e: Entry, provider: string)
    requires Readable(entries, provider) && Find(entries, e.id).None?
    ensures Readable(entries + [e], provider) <==> EntryReadable(e, provider)
  {
    var all := entries + [e];
    assert all[|entries|] == e;
    forall i, j | 0 <= i < j < |all| ensures all[i].id != all[j].id {
      assert all[i] in entries;
    }
  }

  /** Once the manifest is unreadable no catalog operation changes anything, so only a hand edit recovers it. */
  lemma UnreadableStopsEverything(d: Disk, p: Platform, env: Env, op: Op)
    requires !Readable(d.manifest, p.provider) && !StageOp(op)
    ensures ScriptOf(d, p, env, op).actions == [] && (!op.Reconcile? ==> !ScriptOf(d, p, env, op).ok)
  {}

  lemma {:induction false} RenamedReadableIff(entries: seq<Entry>, i: nat, provider: string, m: Metadata)
    requires Readable(entries, provider) && i < |entries|
    ensures Readable(WithMetadata(entries, entries[i].id, m), provider)
            <==> !IsBlank(m.displayName) && !IsBlank(m.description)
  {
    var renamed := WithMetadata(entries, entries[i].id, m);
    assert EntryReadable(renamed[i], provider) <==> !IsBlank(m.displayName) && !IsBlank(m.description);
    forall j | 0 <= j < |entries| && j != i ensures EntryReadable(renamed[j], provider) {
      assert EntryReadable(entries[j], provider) && entries[j].id != entries[i].id;
    }
  }

  /** A completed reseed keeps the manifest readable exactly when the tree is not a plugin whose name is blank. */
  lemma {:induction false} ReseedKeepsReadableIff(d: Disk, p: Platform, env: Env, id: string)
    returns (e: Entry, f: Fetched, m: Metadata)
    requires ReseedScript(d, p, env, id).ok
    ensures Find(d.manifest, id) == Some(e) && Obtain(d, e.source, env) == Some(f) && p.Inspect(e.kind, f.tree) == Some(m)
    ensures var v := Perform(d, ReseedScript(d, p, env, id).actions);
            && v.manifest == WithMetadata(d.manifest, id, m)
            && (Readable(v.manifest, p.provider) <==> !NamelessPlugin(p, e.kind, f.tree))
  {
    e, m := ReseededKeepsIdentity(d, p, env, id);
    f := ReseededFrom(d, p, env, id);
    InspectedSaysSomething(p, e.kind, f.tree);
    var i :| 0 <= i < |d.manifest| && d.manifest[i] == e;
    RenamedReadableIff(d.manifest, i, p.provider, m);
  }

  /** A completed reseed leaves the tree it obtained. */
  lemma ReseededFrom(d: Disk, p: Platform, env: Env, id: string) returns (f: Fetched)
    requires ReseedScript(d, p, env, id).ok
    ensures var e := Find(d.manifest, id);
            && e.Some? && Obtain(d, e.value.source, env) == Some(f)
            && e.value.At() in Perform(d, ReseedScript(d, p, env, id).actions).copies
            && Perform(d, ReseedScript(d, p, env, id).actions).copies[e.value.At()] == f.tree
  {
    var e := Find(d.manifest, id).value;
    var mat := MaterializeScript(d, e, ReadReceipt(d, e.At()), p, env);
    MaterializeEffect(d, e, ReadReceipt(d, e.At()), p, env);
    f := Obtain(d, e.source, env).value;
    var m := InspectCopy(Perform(d, mat.actions), e.At(), p, env).value;
    PerformThen(d, mat.actions, WriteManifest(WithMetadata(d.manifest, id, m)));
  }

  // ----- runs -------------------------------------------------------------------

  /** All of the turn's steps land and the operation succeeds. */
  ghost predicate Completes(d: Disk, p: Platform, t: Turn) {
    var s := ScriptOf(d, p, t.env, t.op);
    s.ok && t.landed >= |s.actions|
  }

  /** The turn is a completed add whose source the reader refuses, or a completed add or reseed of a plugin whose
      provider reports a blank name. */
  ghost predicate Breaks(d: Disk, p: Platform, t: Turn) {
    && Completes(d, p, t)
    && match t.op
       case Add(req) =>
         var f := Obtain(Perform(d, AuthorScript(req)), AddedSource(req), t.env);
         !SafeSource(AddedSource(req)) || (f.Some? && NamelessPlugin(p, req.kind, f.value.tree))
       case Reseed(id) =>
         var e := Find(d.manifest, id);
         && e.Some? && Obtain(d, e.value.source, t.env).Some?
         && NamelessPlugin(p, e.value.kind, Obtain(d, e.value.source, t.env).value.tree)
       case _ => false
  }

  lemma AddTurnReadable(d: Disk, p: Platform, t: Turn)
    requires t.op.Add? && Readable(d.manifest, p.provider)
    ensures Readable(Play(d, p, t).manifest, p.provider) <==> !Breaks(d, p, t)
  {
    var req := t.op.req;
    var s := AddScript(d, p, t.env, req);
    var own := AddShape(d, p, t.env, req);
    if Completes(d, p, t) {
      assert s.actions[..|s.actions|] == s.actions;
      var f, m := AddKeepsReadableIff(d, p, t.env, req);
    } else {
      var k := if t.landed <= |s.actions| then t.landed else |s.actions|;
      assert s.actions[..|s.actions|] == s.actions && s.actions[..k] == own[..k];
      OwnFrame(d, own[..k], req.id);
    }
  }

  lemma ReseedTurnReadable(d: Disk, p: Platform, t: Turn)
    requires t.op.Reseed? && Readable(d.manifest, p.provider)
    ensures Readable(Play(d, p, t).manifest, p.provider) <==> !Breaks(d, p, t)
  {
    var s := ReseedScript(d, p, t.env, t.op.id);
    if Completes(d, p, t) {
      assert s.actions[..|s.actions|] == s.actions;
      var e, f, m := ReseedKeepsReadableIff(d, p, t.env, t.op.id);
    } else if Find(d.manifest, t.op.id).Some? {
      var e := Find(d.manifest, t.op.id).value;
      var mat := MaterializeScript(d, e, ReadReceipt(d, e.At()), p, t.env).actions;
      var k := if t.landed <= |s.actions| then t.landed else |s.actions|;
      MaterializeIsRuntime(d, e, ReadReceipt(d, e.At()), p, t.env);
      assert s.actions[..|s.actions|] == s.actions && s.actions[..k] == mat[..k];
      RuntimeFrame(d, mat[..k], e.id);
    }
  }

  lemma {:induction false} WithoutEntryReadable(entries: seq<Entry>, id: string, provider: string)
    requires Readable(entries, provider)
    ensures Readable(WithoutEntry(entries, id), provider)
  {
    WithoutEntryDistinct(entries, id);
    var left := WithoutEntry(entries, id);
    forall i | 0 <= i < |left| ensures EntryReadable(left[i], provider) {
      WithoutEntryIff(entries, id, left[i]);
    }
  }

  lemma StepKeepsManifest(d: Disk, a: Action)
    requires !a.WriteManifest?
    ensures Apply(d, a).manifest == d.manifest
  {}

  lemma {:induction false} ManifestFrame(d: Disk, actions: seq<Action>)
    requires forall a :: a in actions ==> !a.WriteManifest?
    ensures Perform(d, actions).manifest == d.manifest
    decreases |actions|
  {
    if actions != [] {
      assert actions[|actions| - 1] in actions;
      ManifestFrame(d, actions[..|actions| - 1]);
      StepKeepsManifest(Perform(d, actions[..|actions| - 1]), actions[|actions| - 1]);
    }
  }

  lemma DeleteTurnReadable(d: Disk, p: Platform, t: Turn)
    requires t.op.Delete? && Readable(d.manifest, p.provider)
    ensures Readable(Play(d, p, t).manifest, p.provider)
  {
    var s := DeleteScript(d, p, t.env, t.op.id, t.op.removeAssignments);
    if s.actions != [] {
      var k := if t.landed <= |s.actions| then t.landed else |s.actions|;
      assert s.actions[..|s.actions|] == s.actions;
      if !s.ok || k < |s.actions| {
        CutDelete(d, p, t.env, t.op.id, t.op.removeAssignments, k);
      } else {
        DeletedManifest(d, p, t.env, t.op.id, t.op.removeAssignments);
        WithoutEntryReadable(d.manifest, t.op.id, p.provider);
      }
    }
  }

  /** Only the last step of a delete writes the manifest. */
  lemma {:induction false} CutDelete(d: Disk, p: Platform, env: Env, id: string, removeAssignments: bool, k: nat)
    requires var s := DeleteScript(d, p, env, id, removeAssignments);
             s.actions != [] && k <= |s.actions| && (!s.ok || k < |s.actions|)
    ensures Perform(d, DeleteScript(d, p, env, id, removeAssignments).actions[..k]).manifest == d.manifest
  {
    var a := DeleteScript(d, p, env, id, removeAssignments).actions;
    var e := DeleteShape(d, p, env, id, removeAssignments);
    var front := UnassignScript(d, p, id) + [RmCopy(e.At()), RmReceipt(e.At())];
    assert k <= |front| && a[..k] == front[..k];
    ManifestFrame(d, front[..k]);
  }

  /** Saving, reconciling and staging never write the manifest. */
  lemma OtherTurnReadable(d: Disk, p: Platform, t: Turn)
    requires !t.op.Add? && !t.op.Reseed? && !t.op.Delete?
    ensures Play(d, p, t).manifest == d.manifest
  {
    var a := ScriptOf(d, p, t.env, t.op).actions;
    if t.op.Reconcile? {
      SweepIsRuntime(d, d.manifest, p, t.env);
    } else if StageOp(t.op) {
      StageOpsTouchStages(d, p, t.env, t.op);
    }
    var k := if t.landed <= |a| then t.landed else |a|;
    assert a[..|a|] == a;
    forall x | x in a[..k] ensures !x.WriteManifest? {
      assert x in a;
    }
    ManifestFrame(d, a[..k]);
  }

  /** One turn keeps a readable manifest readable exactly when it does not break it, and never mends a broken one. */
  lemma TurnReadableIff(d: Disk, p: Platform, t: Turn)
    ensures Readable(Play(d, p, t).manifest, p.provider) <==> Readable(d.manifest, p.provider) && !Breaks(d, p, t)
  {
    if !Readable(d.manifest, p.provider) {
      if StageOp(t.op) {
        OtherTurnReadable(d, p, t);
      } else {
        UnreadableStopsEverything(d, p, t.env, t.op);
      }
    } else {
      match t.op
      case Add(_) => AddTurnReadable(d, p, t);
      case Reseed(_) => ReseedTurnReadable(d, p, t);
      case Delete(_, _) => DeleteTurnReadable(d, p, t);
      case _ => OtherTurnReadable(d, p, t);
    }
  }

  /** None of the turns breaks the manifest it meets. */
  ghost predicate NothingBreaks(start: Disk, p: Platform, turns: seq<Turn>) {
    var n := |turns| - 1;
    n >= 0 ==> NothingBreaks(start, p, turns[..n]) && !Breaks(Run(start, p, turns[..n]), p, turns[n])
  }

  /** After any run with crashes the manifest is readable if and only if it was readable at the start and no turn
      completed an add the reader refuses, or an add or reseed of a nameless plugin. */
  lemma {:induction false} RunReadableIff(start: Disk, p: Platform, turns: seq<Turn>)
    ensures Readable(Run(start, p, turns).manifest, p.provider)
            <==> Readable(start.manifest, p.provider) && NothingBreaks(start, p, turns)
    decreases |turns|
  {
    var n := |turns| - 1;
    if n >= 0 {
      RunReadableIff(start, p, turns[..n]);
      TurnReadableIff(Run(start, p, turns[..n]), p, turns[n]);
    }
  }

  /** Every plugin the provider accepts has a name. */
  ghost predicate NamesPlugins(p: Platform) {
    forall tree :: p.summarize(tree).Some? ==> !IsBlank(p.summarize(tree).value.name)
  }

  /** Every add that is asked for has a source the reader accepts. */
  ghost predicate AsksForSafeSources(turns: seq<Turn>) {
    forall i :: 0 <= i < |turns| && turns[i].op.Add? ==> SafeSource(AddedSource(turns[i].op.req))
  }

  lemma SafeTurnBreaksNothing(d: Disk, p: Platform, t: Turn)
    requires NamesPlugins(p) && (t.op.Add? ==> SafeSource(AddedSource(t.op.req)))
    ensures !Breaks(d, p, t)
  {}

  lemma {:induction false} SafeTurnsBreakNothing(start: Disk, p: Platform, turns: seq<Turn>)
    requires NamesPlugins(p) && AsksForSafeSources(turns)
    ensures NothingBreaks(start, p, turns)
    decreases |turns|
  {
    var n := |turns| - 1;
    if n >= 0 {
      SafeTurnsBreakNothing(start, p, turns[..n]);
      SafeTurnBreaksNothing(Run(start, p, turns[..n]), p, turns[n]);
    }
  }

  /** Known before the run: when plugins have names and adds ask only for sources the reader accepts, the manifest
      stays readable. */
  lemma {:induction false} RunKeepsReadable(start: Disk, p: Platform, turns: seq<Turn>)
    requires Readable(start.manifest, p.provider) && NamesPlugins(p) && AsksForSafeSources(turns)
    ensures Readable(Run(start, p, turns).manifest, p.provider)
  {
    SafeTurnsBreakNothing(start, p, turns);
    RunReadableIff(start, p, turns);
  }

  /** An add of an outside source that can be fetched, passes inspection and meets no fault completes. */
  lemma OutsideAddCompletes(d: Disk, p: Platform, env: Env, req: AddRequest, f: Fetched)
    requires AddAccepted(d, p, req) && req.source.AddLocal? && env.fetch(AddedSource(req)) == Some(f)
    requires p.Inspect(req.kind, f.tree).Some? && forall point, id :: !env.fails(point, id)
    ensures AddScript(d, p, env, req).ok
  {
    var pending := AddedEntry(req, p, Metadata(req.id, "pending"));
    var mat := MaterializeScript(d, pending, None, p, env);
    OutsideMaterializes(d, pending, p, env, f);
    assert AuthorScript(req) + mat.actions == mat.actions;
    assert Perform(d, AuthorScript(req)) == d;
  }

  lemma {:induction false} OutsideMaterializes(d: Disk, e: Entry, p: Platform, env: Env, f: Fetched)
    requires e.provider == p.provider && e.source.Local? && env.fetch(e.source) == Some(f)
    requires p.Inspect(e.kind, f.tree).Some? && forall point, id :: !env.fails(point, id)
    ensures MaterializeScript(d, e, None, p, env).ok
    ensures InspectCopy(Perform(d, MaterializeScript(d, e, None, p, env).actions), e.At(), p, env).Some?
  {
    MaterializeEffect(d, e, None, p, env);
  }

  /** The failing input: `a/../b` stays inside the source, so materialising accepts it, and the add completes; the
      reader refuses it. On any readable disk that does not have the id, with any tree that passes inspection. */
  lemma ParentSubpathBreaks(d: Disk, p: Platform, tree: Content) returns (env: Env, req: AddRequest)
    requires Readable(d.manifest, p.provider) && Find(d.manifest, "x").None? && p.Inspect(Skill, tree).Some?
    ensures req == AddRequest("x", Skill, p.provider, AddLocal("source", Some("a/../b")))
    ensures AddScript(d, p, env, req).ok
    ensures var v := Perform(d, AddScript(d, p, env, req).actions);
            Find(v.manifest, "x").Some? && !Readable(v.manifest, p.provider)
  {
    req := AddRequest("x", Skill, p.provider, AddLocal("source", Some("a/../b")));
    env := Env(0, 0, _ => Some(Fetched(tree, "")), map[], (_, _) => false);
    OutsideAddCompletes(d, p, env, req, Fetched(tree, ""));
    assert ParentAt("a/../b", 2);
    var f, m := AddKeepsReadableIff(d, p, env, req);
    assert (d.manifest + [AddedEntry(req, p, m)])[|d.manifest|].id == "x";
  }

  // ----- repair after any run ---------------------------------------------------

  /** No step of this reconciliation throws, and every source outside the repository that is needed materialises. */
  ghost predicate SourcesMaterialise(d: Disk, p: Platform, env: Env) {
    && (forall id :: !env.fails(Validation, id) && !env.fails(TargetRename, id) && !env.fails(ReceiptWrite, id))
    && (forall e :: e in d.manifest && e.source != DirectAttachment(AuthoredPath(e.id)) ==>
          Healthy(d, e) || Mends(d, e, p, env))
  }

  lemma SourcesSuffice(d: Disk, p: Platform, env: Env)
    requires Inv(d, p) && Readable(d.manifest, p.provider) && SourcesMaterialise(d, p, env)
    ensures AllMend(d, p, env)
  {
    forall e | e in d.manifest ensures Healthy(d, e) || Mends(d, e, p, env) {
      if e.source == DirectAttachment(AuthoredPath(e.id)) {
        var i :| 0 <= i < |d.manifest| && d.manifest[i] == e;
        assert EntryReadable(d.manifest[i], p.provider);
        AttachedAlwaysMends(d, p, env, e);
      }
    }
  }

  /** Any run of operations and crashes from a good state, then one reconciliation: every entry, hence every
      assigned extension, is healthy, the catalog itself is untouched, and the next reconciliation does nothing.
      The run may do anything except complete an add or reseed that makes the manifest unreadable. */
  lemma {:induction false} RepairedUnlessBroken(start: Disk, p: Platform, turns: seq<Turn>, env: Env, next: Env)
    requires Inv(start, p) && Readable(start.manifest, p.provider) && NothingBreaks(start, p, turns)
    requires SourcesMaterialise(Run(start, p, turns), p, env)
    ensures var d := Run(start, p, turns);
            var v := Perform(d, ReconcileScript(d, p, env).actions);
            && Inv(v, p) && (forall e :: e in v.manifest ==> Healthy(v, e)) && SameCatalog(d, v)
            && (forall id :: AssignedIn(Load(v.assignments, p.roster), id) ==>
                  exists e :: e in v.manifest && e.id == id && e.enabled && Healthy(v, e))
            && ReconcileScript(v, p, next) == Sweep([], Counts(0, 0, 0))
  {
    RunKeepsInv(start, p, turns);
    RunReadableIff(start, p, turns);
    var d := Run(start, p, turns);
    SourcesSuffice(d, p, env);
    var actions := ReconcileScript(d, p, env).actions;
    ReconcileHeals(d, p, env, next);
    assert actions[..|actions|] == actions;
    OpKeepsInv(d, p, env, Reconcile, |actions|);
    var v := Perform(d, actions);
    forall id | AssignedIn(Load(v.assignments, p.roster), id)
      ensures exists e :: e in v.manifest && e.id == id && e.enabled && Healthy(v, e)
    {
      assert EnabledIn(v.manifest, id);
    }
  }

  /** The same with conditions known before the run: plugins have names and adds ask for sources the reader accepts. */
  lemma {:induction false} CrashesAreRepaired(start: Disk, p: Platform, turns: seq<Turn>, env: Env, next: Env)
    requires Inv(start, p) && Readable(start.manifest, p.provider) && NamesPlugins(p) && AsksForSafeSources(turns)
    requires SourcesMaterialise(Run(start, p, turns), p, env)
    ensures var d := Run(start, p, turns);
            var v := Perform(d, ReconcileScript(d, p, env).actions);
            && Inv(v, p) && (forall e :: e in v.manifest ==> Healthy(v, e)) && SameCatalog(d, v)
            && (forall id :: AssignedIn(Load(v.assignments, p.roster), id) ==>
                  exists e :: e in v.manifest && e.id == id && e.enabled && Healthy(v, e))
            && ReconcileScript(v, p, next) == Sweep([], Counts(0, 0, 0))
  {
    SafeTurnsBreakNothing(start, p, turns);
    RepairedUnlessBroken(start, p, turns, env, next);
  }
}
