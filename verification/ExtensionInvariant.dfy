/** What the catalog keeps through every step of every operation, wherever a crash cuts it off. */
module ExtensionInvariant {
  import opened Wrappers
  import opened ExtensionAssignments
  import opened ExtensionDisk
  import opened ExtensionScripts

  /** Every id assigned to an agent is in the manifest and enabled. */
  ghost predicate AssignedOk(d: Disk, p: Platform) {
    forall id :: AssignedIn(Load(d.assignments, p.roster), id) ==> EnabledIn(d.manifest, id)
  }

  /** A skill attached directly has its authored document, and that document passes inspection. */
  ghost predicate AuthoredOk(d: Disk, p: Platform) {
    forall e :: e in d.manifest && e.source == DirectAttachment(AuthoredPath(e.id)) ==> DocumentOk(d, p, e)
  }

  ghost predicate DocumentOk(d: Disk, p: Platform, e: Entry) {
    var path := AuthoredPath(e.id);
    path in d.authored && p.Inspect(e.kind, map["SKILL.md" := d.authored[path]]).Some?
  }

  ghost predicate IdsOk(entries: seq<Entry>) {
    DistinctIds(entries) && forall e :: e in entries ==> ValidId(e.id)
  }

  ghost predicate Inv(d: Disk, p: Platform) {
    IdsOk(d.manifest) && AssignedOk(d, p) && AuthoredOk(d, p)
  }

  // ----- the shape of the scripts -----------------------------------------------

  lemma ConcatOwn(x: seq<Action>, y: seq<Action>, id: string)
    requires AllOwn(x, id) && AllOwn(y, id)
    ensures AllOwn(x + y, id)
  {}

  lemma ConcatRuntime(x: seq<Action>, y: seq<Action>, id: string)
    requires AllRuntime(x, id) && AllRuntime(y, id)
    ensures AllRuntime(x + y, id)
  {}

  lemma MaterializeIsRuntime(d: Disk, e: Entry, existing: Option<Receipt>, p: Platform, env: Env)
    ensures AllRuntime(MaterializeScript(d, e, existing, p, env).actions, e.id)
  {
    var t := TempKey(e.id, env.pid);
    var fill := FillScript(t, env.torn);
    ConcatRuntime(fill, [RmTemp(t)], e.id);
    match Obtain(d, e.source, env)
    case None =>
    case Some(f) =>
      var filled := fill + [FillTemp(t, f.tree)];
      ConcatRuntime(fill, [FillTemp(t, f.tree)], e.id);
      ConcatRuntime(filled, [RmTemp(t)], e.id);
      PlaceIsRuntime(d, e, f, existing, env);
      ConcatRuntime(filled, PlaceScript(d, e, f, existing, env).actions, e.id);
  }

  lemma PlaceIsRuntime(d: Disk, e: Entry, f: Fetched, existing: Option<Receipt>, env: Env)
    ensures AllRuntime(PlaceScript(d, e, f, existing, env).actions, e.id)
  {
    var t, clear := TempKey(e.id, env.pid), ClearScript(d, e.At());
    var moved := clear + [Rename(t, e.At())];
    ConcatRuntime(clear, [RmTemp(t)], e.id);
    ConcatRuntime(clear, [Rename(t, e.At())], e.id);
    ConcatRuntime(moved, [RmTemp(t)], e.id);
    ConcatRuntime(moved, [WriteReceipt(e.At(), NewReceipt(e, f, existing, env.now))], e.id);
  }

  lemma CleanupIsOwn(req: AddRequest)
    ensures AllOwn(CleanupScript(req), req.id)
  {}

  /** Before its final manifest write an add touches only files of its own id. */
  lemma AddShape(d: Disk, p: Platform, env: Env, req: AddRequest) returns (own: seq<Action>)
    ensures AllOwn(own, req.id)
    ensures var s := AddScript(d, p, env, req);
            if s.ok then |s.actions| == |own| + 1 && s.actions[..|own|] == own && s.actions[|own|].WriteManifest?
            else s.actions == own
  {
    var s := AddScript(d, p, env, req);
    own := if s.ok then s.actions[..|s.actions| - 1] else s.actions;
    CleanupIsOwn(req);
    if AddAccepted(d, p, req) && !(req.source.AddAuthored? && env.fails(AuthoredWrite, req.id)) {
      var pending := AddedEntry(req, p, Metadata(req.id, "pending"));
      var authored := AuthorScript(req);
      var mat := MaterializeScript(Perform(d, authored), pending, None, p, env);
      MaterializeIsRuntime(Perform(d, authored), pending, None, p, env);
      ConcatOwn(authored, mat.actions, req.id);
      ConcatOwn(authored + mat.actions, CleanupScript(req), req.id);
    }
  }

  // ----- steps that keep the invariant ------------------------------------------

  lemma {:induction false} RuntimeKeepsInv(d: Disk, actions: seq<Action>, id: string, p: Platform)
    requires Inv(d, p) && AllRuntime(actions, id)
    ensures Inv(Perform(d, actions), p)
  {
    RuntimeFrame(d, actions, id);
  }

  lemma ValidIdHasNoSlash(id: string)
    requires ValidId(id)
    ensures '/' !in id
  {}

  lemma {:induction false} OwnKeepsInv(d: Disk, actions: seq<Action>, id: string, p: Platform)
    requires Inv(d, p) && AllOwn(actions, id) && ValidId(id) && Find(d.manifest, id).None?
    ensures Inv(Perform(d, actions), p)
  {
    OwnFrame(d, actions, id);
    var v := Perform(d, actions);
    forall e | e in v.manifest && e.source == DirectAttachment(AuthoredPath(e.id)) ensures DocumentOk(v, p, e) {
      assert DocumentOk(d, p, e);
      ValidIdHasNoSlash(id);
      ValidIdHasNoSlash(e.id);
      if AuthoredDir(id) <= AuthoredPath(e.id) {
        AuthoredDirsAreApart(id, e.id);
      }
    }
  }

  /** Either the cut falls within x, or all of x has landed. */
  lemma {:induction false} CutOf(d: Disk, x: seq<Action>, y: seq<Action>, k: nat)
    requires k <= |x + y|
    ensures k <= |x| ==> (x + y)[..k] == x[..k]
    ensures k >= |x| ==> Perform(d, (x + y)[..k]) == Perform(Perform(d, x), y[..k - |x|])
  {
    if k >= |x| {
      assert (x + y)[..k] == x + y[..k - |x|];
      PerformConcat(d, x, y[..k - |x|]);
    }
  }

  // ----- add --------------------------------------------------------------------

  /** A successful materialisation: the copy and its receipt are the new ones, and nothing else moves. */
  lemma {:induction false} MaterializeEffect(d: Disk, e: Entry, existing: Option<Receipt>, p: Platform, env: Env)
    requires MaterializeScript(d, e, existing, p, env).ok
    ensures Obtain(d, e.source, env).Some?
    ensures p.Inspect(e.kind, Obtain(d, e.source, env).value.tree).Some?
    ensures var f := Obtain(d, e.source, env).value;
            Perform(d, MaterializeScript(d, e, existing, p, env).actions)
            == Replaced(d, e.At(), TempKey(e.id, env.pid), f.tree, NewReceipt(e, f, existing, env.now))
  {
    var t := TempKey(e.id, env.pid);
    var f := Obtain(d, e.source, env).value;
    var filled, clear := FillScript(t, env.torn) + [FillTemp(t, f.tree)], ClearScript(d, e.At());
    Regroup(filled, clear, [Rename(t, e.At())], [WriteReceipt(e.At(), NewReceipt(e, f, existing, env.now))]);
    ReplaceEffect(d, e.At(), t, env.torn, f.tree, NewReceipt(e, f, existing, env.now));
  }

  lemma {:induction false} Regroup<T>(a: seq<T>, b: seq<T>, c: seq<T>, d: seq<T>)
    ensures a + (b + c + d) == a + b + c + d
  {}

  /** The disk with a new copy and receipt at `key`, and no temporary tree at `t`. */
  function Replaced(d: Disk, key: Key, t: TempKey, tree: Content, receipt: Receipt): Disk {
    d.(copies := d.copies[key := tree], receipts := d.receipts[key := receipt], temps := d.temps - {t})
  }

  lemma {:induction false} ReplaceEffect(d: Disk, key: Key, t: TempKey, torn: Content, tree: Content, receipt: Receipt)
    ensures Perform(d, FillScript(t, torn) + [FillTemp(t, tree)] + ClearScript(d, key) + [Rename(t, key)]
                       + [WriteReceipt(key, receipt)])
            == Replaced(d, key, t, tree, receipt)
  {
    var filled := FillScript(t, torn) + [FillTemp(t, tree)];
    FilledEffect(d, t, torn, tree);
    ClearedEffect(d, filled, key);
    PerformThen(d, filled + ClearScript(d, key), Rename(t, key));
    PerformThen(d, filled + ClearScript(d, key) + [Rename(t, key)], WriteReceipt(key, receipt));
    ReplaceKey(d.copies, key, tree);
  }

  lemma OverwrittenElsewhere<K, V>(m: map<K, V>, k: K, a: V, b: V, c: V)
    ensures (m - {k})[k := a][k := b][k := c] - {k} == m - {k}
  {}

  lemma {:induction false} FilledEffect(d: Disk, t: TempKey, torn: Content, tree: Content)
    ensures var v := Perform(d, FillScript(t, torn) + [FillTemp(t, tree)]);
            v == d.(temps := v.temps) && t in v.temps && v.temps[t] == tree && v.temps - {t} == d.temps - {t}
  {
    FilledTemps(d, t, torn, tree);
    OverwrittenElsewhere(d.temps, t, map[], torn, tree);
  }

  lemma {:induction false} FilledTemps(d: Disk, t: TempKey, torn: Content, tree: Content)
    ensures Perform(d, FillScript(t, torn) + [FillTemp(t, tree)])
            == d.(temps := (d.temps - {t})[t := map[]][t := torn][t := tree])
  {
    var x := [RmTemp(t), FillTemp(t, map[])];
    PerformTwo(d, RmTemp(t), FillTemp(t, map[]));
    PerformThen(d, x, FillTemp(t, torn));
    assert x + [FillTemp(t, torn)] == FillScript(t, torn);
    PerformThen(d, FillScript(t, torn), FillTemp(t, tree));
  }

  lemma {:induction false} ClearedEffect(d: Disk, filled: seq<Action>, key: Key)
    requires Perform(d, filled).copies == d.copies
    ensures Perform(d, filled + ClearScript(d, key)) == Perform(d, filled).(copies := d.copies - {key})
  {
    if key in d.copies {
      PerformThen(d, filled, RmCopy(key));
    } else {
      assert filled + [] == filled;
      assert d.copies - {key} == d.copies;
    }
  }

  /** What a successful add has made before it writes the manifest. */
  lemma AddEffect(d: Disk, p: Platform, env: Env, req: AddRequest) returns (f: Fetched, m: Metadata)
    requires AddScript(d, p, env, req).ok
    ensures var authored := Perform(d, AuthorScript(req));
            && Obtain(authored, AddedSource(req), env) == Some(f) && p.Inspect(req.kind, f.tree) == Some(m)
            && Perform(d, AddScript(d, p, env, req).actions)
               == Replaced(authored, Key(req.kind, req.id), TempKey(req.id, env.pid), f.tree,
                           NewReceipt(AddedEntry(req, p, m), f, None, env.now))
                    .(manifest := d.manifest + [AddedEntry(req, p, m)])
  {
    var pending := AddedEntry(req, p, Metadata(req.id, "pending"));
    var authored := AuthorScript(req);
    var mat := MaterializeScript(Perform(d, authored), pending, None, p, env);
    MaterializeEffect(Perform(d, authored), pending, None, p, env);
    PerformConcat(d, authored, mat.actions);
    f := Obtain(Perform(d, authored), AddedSource(req), env).value;
    m := p.Inspect(req.kind, f.tree).value;
    PerformThen(d, authored + mat.actions, WriteManifest(d.manifest + [AddedEntry(req, p, m)]));
  }

  lemma {:induction false} AuthoredEffect(d: Disk, req: AddRequest)
    ensures Perform(d, AuthorScript(req)) ==
            if req.source.AddAuthored? then d.(authored := d.authored[AuthoredPath(req.id) := req.source.markdown]) else d
  {
    if req.source.AddAuthored? {
      PerformOne(d, WriteAuthored(req.id, req.source.markdown));
    }
  }

  lemma {:induction false} AddKeepsInv(d: Disk, p: Platform, env: Env, req: AddRequest, k: nat)
    requires Inv(d, p) && k <= |AddScript(d, p, env, req).actions|
    ensures Inv(Perform(d, AddScript(d, p, env, req).actions[..k]), p)
  {
    var s := AddScript(d, p, env, req);
    if AddAccepted(d, p, req) {
      var own := AddShape(d, p, env, req);
      if k <= |own| {
        assert s.actions[..k] == own[..k];
        OwnKeepsInv(d, own[..k], req.id, p);
      } else {
        assert s.actions[..k] == s.actions;
        OwnKeepsInv(d, own, req.id, p);
        OwnFrame(d, own, req.id);
        PerformThen(d, own, s.actions[|own|]);
        assert s.actions == own + [s.actions[|own|]];
        AddedInv(d, Perform(d, own), p, env, req);
      }
    }
  }

  /** A new entry with a new id, and a good document if it has one, may be appended. */
  lemma AppendEntryInv(w: Disk, p: Platform, e: Entry)
    requires Inv(w, p) && Find(w.manifest, e.id).None? && ValidId(e.id)
    requires e.source == DirectAttachment(AuthoredPath(e.id)) ==> DocumentOk(w, p, e)
    ensures Inv(w.(manifest := w.manifest + [e]), p)
  {
    var v := w.(manifest := w.manifest + [e]);
    forall x | x in v.manifest && x.source == DirectAttachment(AuthoredPath(x.id)) ensures DocumentOk(v, p, x) {
      if x in w.manifest {
        assert DocumentOk(w, p, x);
      } else {
        assert DocumentOk(w, p, e);
      }
    }
    forall id | AssignedIn(Load(v.assignments, p.roster), id) ensures EnabledIn(v.manifest, id) {
      assert EnabledIn(w.manifest, id);
    }
    forall i, j | 0 <= i < j < |v.manifest| ensures v.manifest[i].id != v.manifest[j].id {
      assert v.manifest[i] in w.manifest;
    }
  }

  lemma {:induction false} AddedInv(d: Disk, w: Disk, p: Platform, env: Env, req: AddRequest)
    requires AddScript(d, p, env, req).ok && Inv(w, p) && w.manifest == d.manifest
    requires var v := Perform(d, AddScript(d, p, env, req).actions); v == w.(manifest := v.manifest)
    ensures Inv(Perform(d, AddScript(d, p, env, req).actions), p)
  {
    var f, m := AddEffect(d, p, env, req);
    AuthoredEffect(d, req);
    AppendEntryInv(w, p, AddedEntry(req, p, m));
  }

  // ----- reseed, delete, assign -------------------------------------------------

  lemma WithMetadataInv(d: Disk, p: Platform, id: string, m: Metadata)
    requires Inv(d, p)
    ensures Inv(d.(manifest := WithMetadata(d.manifest, id, m)), p)
  {
    var v := d.(manifest := WithMetadata(d.manifest, id, m));
    forall x | x in v.manifest ensures ValidId(x.id)
      ensures x.source == DirectAttachment(AuthoredPath(x.id)) ==> DocumentOk(v, p, x)
    {
      var i :| 0 <= i < |v.manifest| && v.manifest[i] == x;
      assert d.manifest[i] in d.manifest;
      if x.source == DirectAttachment(AuthoredPath(x.id)) {
        assert DocumentOk(d, p, d.manifest[i]);
      }
    }
    forall x | AssignedIn(Load(v.assignments, p.roster), x) ensures EnabledIn(v.manifest, x) {
      assert EnabledIn(d.manifest, x);
      var e :| e in d.manifest && e.id == x && e.enabled;
      var i :| 0 <= i < |d.manifest| && d.manifest[i] == e;
      assert v.manifest[i] in v.manifest;
    }
  }

  lemma {:induction false} ReseedKeepsInv(d: Disk, p: Platform, env: Env, id: string, k: nat)
    requires Inv(d, p) && k <= |ReseedScript(d, p, env, id).actions|
    ensures Inv(Perform(d, ReseedScript(d, p, env, id).actions[..k]), p)
  {
    var s := ReseedScript(d, p, env, id);
    if Readable(d.manifest, p.provider) && Find(d.manifest, id).Some? {
      var e := Find(d.manifest, id).value;
      var mat := MaterializeScript(d, e, ReadReceipt(d, e.At()), p, env);
      MaterializeIsRuntime(d, e, ReadReceipt(d, e.At()), p, env);
      if k <= |mat.actions| {
        assert s.actions[..k] == mat.actions[..k];
        RuntimeKeepsInv(d, mat.actions[..k], id, p);
      } else {
        assert s.actions[..k] == s.actions;
        RuntimeKeepsInv(d, mat.actions, id, p);
        RuntimeFrame(d, mat.actions, id);
        var m := InspectCopy(Perform(d, mat.actions), e.At(), p, env).value;
        PerformThen(d, mat.actions, WriteManifest(WithMetadata(d.manifest, id, m)));
        WithMetadataInv(Perform(d, mat.actions), p, id, m);
      }
    }
  }

  lemma {:induction false} WithoutEntryIff(entries: seq<Entry>, id: string, e: Entry)
    ensures e in WithoutEntry(entries, id) <==> e in entries && e.id != id
  {
    if entries != [] {
      WithoutEntryIff(entries[1..], id, e);
    }
  }

  lemma {:induction false} WithoutEntryDistinct(entries: seq<Entry>, id: string)
    requires DistinctIds(entries)
    ensures DistinctIds(WithoutEntry(entries, id))
  {
    if entries != [] {
      var rest := WithoutEntry(entries[1..], id);
      WithoutEntryDistinct(entries[1..], id);
      if entries[0].id != id {
        forall j | 0 <= j < |rest| ensures rest[j].id != entries[0].id {
          WithoutEntryIff(entries[1..], id, rest[j]);
          var i :| 0 <= i < |entries[1..]| && entries[1..][i] == rest[j];
          assert entries[i + 1] == rest[j];
        }
      }
    }
  }

  /** An entry whose id nobody is assigned may go. */
  lemma {:induction false} WithoutEntryInv(d: Disk, p: Platform, id: string)
    requires Inv(d, p) && !AssignedIn(Load(d.assignments, p.roster), id)
    ensures Inv(d.(manifest := WithoutEntry(d.manifest, id)), p)
  {
    var v := d.(manifest := WithoutEntry(d.manifest, id));
    WithoutEntryDistinct(d.manifest, id);
    forall e ensures e in v.manifest <==> e in d.manifest && e.id != id {
      WithoutEntryIff(d.manifest, id, e);
    }
    forall e | e in v.manifest && e.source == DirectAttachment(AuthoredPath(e.id)) ensures DocumentOk(v, p, e) {
      assert DocumentOk(d, p, e);
    }
    forall x | AssignedIn(Load(v.assignments, p.roster), x) ensures EnabledIn(v.manifest, x) {
      assert EnabledIn(d.manifest, x);
    }
  }

  /** The file written by an unassignment assigns what was assigned, less the one id. */
  lemma {:induction false} UnassignedIff(file: Option<seq<Assignment>>, roster: seq<string>, id: string, x: string)
    ensures var current := Load(file, roster);
            var saved := Normalize(RemoveExtension(current, id), roster);
            && (AssignedIn(saved, x) ==> AssignedIn(current, x) && x != id)
            && (AssignedIn(Load(Some(saved), roster), x) ==> AssignedIn(current, x) && x != id)
  {
    var current := Load(file, roster);
    var cleared := RemoveExtension(current, id);
    NormalizeAssigns(cleared, roster, x);
    NormalizeAssigns(Normalize(cleared, roster), roster, x);
    forall i | 0 <= i < |cleared| && x in cleared[i].ids ensures x in current[i].ids && x != id {
      RemovedIff(current, id, x, i);
    }
  }

  lemma UnassignInv(d: Disk, p: Platform, id: string)
    requires Inv(d, p)
    ensures var v := d.(assignments := Some(Normalize(RemoveExtension(Load(d.assignments, p.roster), id), p.roster)));
            Inv(v, p) && !AssignedIn(Load(v.assignments, p.roster), id)
  {
    var v := d.(assignments := Some(Normalize(RemoveExtension(Load(d.assignments, p.roster), id), p.roster)));
    UnassignedIff(d.assignments, p.roster, id, id);
    forall x | AssignedIn(Load(v.assignments, p.roster), x) ensures EnabledIn(v.manifest, x) {
      UnassignedIff(d.assignments, p.roster, id, x);
      assert EnabledIn(d.manifest, x);
    }
    assert AuthoredOk(v, p) by {
      forall e | e in v.manifest && e.source == DirectAttachment(AuthoredPath(e.id)) ensures DocumentOk(v, p, e) {
        assert DocumentOk(d, p, e);
      }
    }
  }

  /** The disk once a delete has made sure that nobody is assigned the id. */
  function Unassigned(d: Disk, p: Platform, id: string): Disk {
    var current := Load(d.assignments, p.roster);
    if AssignedIn(current, id) then d.(assignments := Some(Normalize(RemoveExtension(current, id), p.roster))) else d
  }

  function UnassignScript(d: Disk, p: Platform, id: string): seq<Action> {
    var current := Load(d.assignments, p.roster);
    if AssignedIn(current, id) then [WriteAssignments(Normalize(RemoveExtension(current, id), p.roster))] else []
  }

  lemma {:induction false} UnassignEffect(d: Disk, p: Platform, id: string)
    ensures Perform(d, UnassignScript(d, p, id)) == Unassigned(d, p, id)
  {
    if AssignedIn(Load(d.assignments, p.roster), id) {
      PerformOne(d, UnassignScript(d, p, id)[0]);
    }
  }

  lemma UnassignedInv(d: Disk, p: Platform, id: string)
    requires Inv(d, p)
    ensures Inv(Unassigned(d, p, id), p) && !AssignedIn(Load(Unassigned(d, p, id).assignments, p.roster), id)
  {
    UnassignInv(d, p, id);
  }

  lemma UnassignedIsClear(d: Disk, p: Platform, id: string)
    requires Inv(d, p)
    ensures !AssignedIn(Load(Unassigned(d, p, id).assignments, p.roster), id)
  {
    UnassignedInv(d, p, id);
  }

  lemma {:induction false} UnassignedKeepsOthers(d: Disk, p: Platform, id: string)
    ensures forall agent, x :: Holds(Load(Unassigned(d, p, id).assignments, p.roster), agent, x) <==>
              Holds(Load(d.assignments, p.roster), agent, x) && x != id
  {
    var current := Load(d.assignments, p.roster);
    forall agent, x
      ensures Holds(Load(Unassigned(d, p, id).assignments, p.roster), agent, x) <==> Holds(current, agent, x) && x != id
    {
      NormalizeHolds(d.assignments.GetOr([]), p.roster, agent, x);
      if AssignedIn(current, id) {
        var removed := RemoveExtension(current, id);
        LoadHolds(Normalize(removed, p.roster), p.roster, agent, x);
        NormalizeHolds(removed, p.roster, agent, x);
        RemovedHolds(current, id, agent, x);
      } else {
        UnheldElsewhere(current, id, agent);
      }
    }
  }

  lemma UnheldElsewhere(file: seq<Assignment>, id: string, agent: string)
    requires !AssignedIn(file, id)
    ensures !Holds(file, agent, id)
  {}

  /** A delete that got past its checks: unassign, remove the runtime files, write the manifest last. */
  lemma DeleteShape(d: Disk, p: Platform, env: Env, id: string, removeAssignments: bool) returns (e: Entry)
    requires DeleteScript(d, p, env, id, removeAssignments).actions != []
    ensures Readable(d.manifest, p.provider) && Find(d.manifest, id) == Some(e)
    ensures DeleteScript(d, p, env, id, removeAssignments)
            == var files := [RmCopy(e.At()), RmReceipt(e.At())];
               if env.fails(ManifestWrite, id) then Script(UnassignScript(d, p, id) + files, false)
               else Script(UnassignScript(d, p, id) + files + [WriteManifest(WithoutEntry(d.manifest, id))], true)
  {
    e := Find(d.manifest, id).value;
  }

  lemma {:induction false} DeleteParts(d: Disk, p: Platform, env: Env, id: string, removeAssignments: bool)
    returns (e: Entry, y: seq<Action>)
    requires DeleteScript(d, p, env, id, removeAssignments).actions != []
    ensures Find(d.manifest, id) == Some(e) && e.id == id
    ensures DeleteScript(d, p, env, id, removeAssignments).actions == UnassignScript(d, p, id) + y
    ensures var files := [RmCopy(e.At()), RmReceipt(e.At())];
            y == files || y == files + [WriteManifest(WithoutEntry(d.manifest, id))]
  {
    e := DeleteShape(d, p, env, id, removeAssignments);
    var x, files := UnassignScript(d, p, id), [RmCopy(e.At()), RmReceipt(e.At())];
    y := if env.fails(ManifestWrite, id) then files else files + [WriteManifest(WithoutEntry(d.manifest, id))];
    assert DeleteScript(d, p, env, id, removeAssignments).actions == x + y;
  }

  lemma {:induction false} DeleteKeepsInv(d: Disk, p: Platform, env: Env, id: string, removeAssignments: bool, k: nat)
    requires Inv(d, p) && k <= |DeleteScript(d, p, env, id, removeAssignments).actions|
    ensures Inv(Perform(d, DeleteScript(d, p, env, id, removeAssignments).actions[..k]), p)
  {
    if DeleteScript(d, p, env, id, removeAssignments).actions != [] {
      var x := UnassignScript(d, p, id);
      var e, y := DeleteParts(d, p, env, id, removeAssignments);
      UnassignEffect(d, p, id);
      UnassignedInv(d, p, id);
      CutOf(d, x, y, k);
      if k < |x| {
        assert k == 0;
      } else {
        DeleteRestKeepsInv(Unassigned(d, p, id), p, e, y, k - |x|);
      }
    }
  }

  lemma {:induction false} DeleteRestKeepsInv(d: Disk, p: Platform, e: Entry, y: seq<Action>, k: nat)
    requires Inv(d, p) && !AssignedIn(Load(d.assignments, p.roster), e.id) && k <= |y|
    requires var files := [RmCopy(e.At()), RmReceipt(e.At())];
             y == files || y == files + [WriteManifest(WithoutEntry(d.manifest, e.id))]
    ensures Inv(Perform(d, y[..k]), p)
  {
    var files := [RmCopy(e.At()), RmReceipt(e.At())];
    if k <= 2 {
      assert y[..k] == files[..k];
      RuntimeKeepsInv(d, files[..k], e.id, p);
    } else {
      RuntimeKeepsInv(d, files, e.id, p);
      RuntimeFrame(d, files, e.id);
      assert y[..k] == files + [y[2]];
      PerformThen(d, files, y[2]);
      WithoutEntryInv(Perform(d, files), p, e.id);
    }
  }

  lemma {:induction false} SaveKeepsInv(d: Disk, p: Platform, env: Env, file: seq<Assignment>, k: nat)
    requires Inv(d, p) && k <= |SaveScript(d, p, env, file).actions|
    ensures Inv(Perform(d, SaveScript(d, p, env, file).actions[..k]), p)
  {
    var s := SaveScript(d, p, env, file);
    if k == 1 {
      var saved := Normalize(file, p.roster);
      assert s.actions[..k] == [WriteAssignments(saved)];
      PerformOne(d, WriteAssignments(saved));
      var v := d.(assignments := Some(saved));
      forall x | AssignedIn(Load(v.assignments, p.roster), x) ensures EnabledIn(v.manifest, x) {
        NormalizeAssigns(saved, p.roster, x);
        NormalizeAssigns(file, p.roster, x);
        var i :| 0 <= i < |file| && file[i].agent in p.roster && x in file[i].ids;
        var j :| 0 <= j < |file[i].ids| && file[i].ids[j] == x;
      }
      forall e | e in v.manifest && e.source == DirectAttachment(AuthoredPath(e.id)) ensures DocumentOk(v, p, e) {
        assert DocumentOk(d, p, e);
      }
    }
  }

  /** After a save that succeeds, every agent has exactly the extensions it was saved with. */
  lemma {:induction false} SavedAsAsked(d: Disk, p: Platform, env: Env, file: seq<Assignment>)
    requires SaveScript(d, p, env, file).ok
    ensures var v := Perform(d, SaveScript(d, p, env, file).actions);
            && v == d.(assignments := v.assignments)
            && forall agent, id :: Holds(Load(v.assignments, p.roster), agent, id) <==> Holds(file, agent, id)
  {
    var written := Normalize(file, p.roster);
    PerformOne(d, WriteAssignments(written));
    forall agent, id ensures Holds(Load(Some(written), p.roster), agent, id) <==> Holds(file, agent, id) {
      SavedHolds(file, d.manifest, p.roster, agent, id);
    }
  }

  // ----- reconcile, stages, any run ---------------------------------------------

  predicate StageAction(a: Action) {
    a.RmStage? || a.WriteStageManifest? || a.CopyToStage?
  }

  predicate RuntimeAction(a: Action) {
    a.RmCopy? || a.RmReceipt? || a.WriteReceipt? || a.RmTemp? || a.FillTemp? || a.Rename?
  }

  lemma {:induction false} StageFrame(d: Disk, actions: seq<Action>)
    requires forall a :: a in actions ==> StageAction(a)
    ensures Perform(d, actions) == d.(stages := Perform(d, actions).stages)
    decreases |actions|
  {
    if actions != [] {
      StageFrame(d, actions[..|actions| - 1]);
      assert actions[|actions| - 1] in actions;
    }
  }

  lemma StepKeepsStages(d: Disk, a: Action)
    requires !StageAction(a)
    ensures Apply(d, a).stages == d.stages
  {}

  lemma {:induction false} CatalogFrame(d: Disk, actions: seq<Action>)
    requires forall a :: a in actions ==> !StageAction(a)
    ensures Perform(d, actions).stages == d.stages
    decreases |actions|
  {
    if actions != [] {
      CatalogFrame(d, actions[..|actions| - 1]);
      assert actions[|actions| - 1] in actions;
      StepKeepsStages(Perform(d, actions[..|actions| - 1]), actions[|actions| - 1]);
    }
  }

  lemma {:induction false} RuntimeActionFrame(d: Disk, actions: seq<Action>)
    requires forall a :: a in actions ==> RuntimeAction(a)
    ensures SameCatalog(d, Perform(d, actions)) && d.authored == Perform(d, actions).authored
    decreases |actions|
  {
    if actions != [] {
      RuntimeActionFrame(d, actions[..|actions| - 1]);
      assert actions[|actions| - 1] in actions;
    }
  }

  lemma {:induction false} SweepIsRuntime(d: Disk, entries: seq<Entry>, p: Platform, env: Env)
    ensures forall a :: a in SweepScript(d, entries, p, env).actions ==> RuntimeAction(a)
    decreases |entries|
  {
    if entries != [] {
      var before := SweepScript(d, entries[..|entries| - 1], p, env);
      SweepIsRuntime(d, entries[..|entries| - 1], p, env);
      MaterializeIsRuntime(Perform(d, before.actions), entries[|entries| - 1], None, p, env);
    }
  }

  lemma {:induction false} CopyIsStage(d: Disk, launch: string, entries: seq<Entry>, env: Env)
    ensures forall a :: a in CopyScript(d, launch, entries, env).actions ==> StageAction(a)
    decreases |entries|
  {
    if entries != [] {
      CopyIsStage(d, launch, entries[..|entries| - 1], env);
    }
  }

  lemma StageIsStage(d: Disk, p: Platform, env: Env, agent: string, launch: string)
    ensures forall a :: a in StageScript(d, p, env, agent, launch).actions ==> StageAction(a)
  {
    var resolved := if Readable(d.manifest, p.provider)
                    then Resolve(d, Sort(IdsOf(Load(d.assignments, p.roster), agent))) else None;
    if resolved.Some? {
      EntriesAreStage(d, env, agent, launch, resolved.value);
    }
  }

  lemma EntriesAreStage(d: Disk, env: Env, agent: string, launch: string, entries: seq<Entry>)
    ensures forall a :: a in StageEntriesScript(d, env, agent, launch, entries).actions ==> StageAction(a)
  {
    CopyIsStage(d, launch, entries, env);
  }

  predicate StageOp(op: Op) {
    op.CreateStage? || op.CleanupStage? || op.RecoverStages?
  }

  lemma StageOpsTouchStages(d: Disk, p: Platform, env: Env, op: Op)
    requires StageOp(op)
    ensures forall a :: a in ScriptOf(d, p, env, op).actions ==> StageAction(a)
  {
    if op.CreateStage? {
      StageIsStage(d, p, env, op.agent, op.launch);
    }
  }

  lemma OtherOpsTouchNoStage(d: Disk, p: Platform, env: Env, op: Op)
    requires !StageOp(op)
    ensures forall a :: a in ScriptOf(d, p, env, op).actions ==> !StageAction(a)
  {
    match op
    case Add(req) => AddTouchesNoStage(d, p, env, req);
    case Reseed(id) => ReseedTouchesNoStage(d, p, env, id);
    case Reconcile => SweepIsRuntime(d, d.manifest, p, env);
    case Delete(id, removeAssignments) => DeleteTouchesNoStage(d, p, env, id, removeAssignments);
    case SaveAssignments(_) =>
  }

  /** An add takes steps on its own files, and writes the manifest. */
  lemma AddActions(d: Disk, p: Platform, env: Env, req: AddRequest)
    ensures forall a :: a in AddScript(d, p, env, req).actions ==> OwnOnly(a, req.id) || a.WriteManifest?
  {
    var own := AddShape(d, p, env, req);
    var s := AddScript(d, p, env, req);
    OwnMembers(own, req.id);
    assert s.ok ==> s.actions == own + [s.actions[|own|]];
  }

  lemma OwnMembers(actions: seq<Action>, id: string)
    requires AllOwn(actions, id)
    ensures forall a :: a in actions ==> OwnOnly(a, id)
  {}

  lemma OwnTouchesNoStage(actions: seq<Action>, id: string)
    requires forall a :: a in actions ==> OwnOnly(a, id) || a.WriteManifest?
    ensures forall a :: a in actions ==> !StageAction(a) && !a.WriteAssignments?
  {}

  lemma AddTouchesNoStage(d: Disk, p: Platform, env: Env, req: AddRequest)
    ensures forall a :: a in AddScript(d, p, env, req).actions ==> !StageAction(a)
  {
    AddActions(d, p, env, req);
    OwnTouchesNoStage(AddScript(d, p, env, req).actions, req.id);
  }

  lemma DeleteTouchesNoStage(d: Disk, p: Platform, env: Env, id: string, removeAssignments: bool)
    ensures forall a :: a in DeleteScript(d, p, env, id, removeAssignments).actions ==> !StageAction(a)
  {
    if DeleteScript(d, p, env, id, removeAssignments).actions != [] {
      var e := DeleteShape(d, p, env, id, removeAssignments);
      assert forall a :: a in UnassignScript(d, p, id) ==> !StageAction(a);
    }
  }

  lemma ReseedTouchesNoStage(d: Disk, p: Platform, env: Env, id: string)
    ensures forall a :: a in ReseedScript(d, p, env, id).actions ==> !StageAction(a)
  {
    if Find(d.manifest, id).Some? {
      var e := Find(d.manifest, id).value;
      MaterializeIsRuntime(d, e, ReadReceipt(d, e.At()), p, env);
    }
  }

  /** No cut of any operation assigns an unknown or disabled extension, or loses a document. */
  lemma {:induction false} OpKeepsInv(d: Disk, p: Platform, env: Env, op: Op, k: nat)
    requires Inv(d, p) && k <= |ScriptOf(d, p, env, op).actions|
    ensures Inv(Perform(d, ScriptOf(d, p, env, op).actions[..k]), p)
  {
    match op
    case Add(req) => AddKeepsInv(d, p, env, req, k);
    case Reseed(id) => ReseedKeepsInv(d, p, env, id, k);
    case Delete(id, removeAssignments) => DeleteKeepsInv(d, p, env, id, removeAssignments, k);
    case SaveAssignments(file) => SaveKeepsInv(d, p, env, file, k);
    case Reconcile =>
      SweepIsRuntime(d, d.manifest, p, env);
      RuntimeActionFrame(d, ScriptOf(d, p, env, op).actions[..k]);
    case _ =>
      StageOpsTouchStages(d, p, env, op);
      StageFrame(d, ScriptOf(d, p, env, op).actions[..k]);
  }

  /** One operation of a run, of which the first `landed` steps reach the disk: fewer than all is a crash. */
  datatype Turn = Turn(op: Op, env: Env, landed: nat)

  function Play(d: Disk, p: Platform, t: Turn): Disk {
    var actions := ScriptOf(d, p, t.env, t.op).actions;
    Perform(d, if t.landed <= |actions| then actions[..t.landed] else actions)
  }

  function Run(d: Disk, p: Platform, turns: seq<Turn>): Disk {
    if turns == [] then d else Play(Run(d, p, turns[..|turns| - 1]), p, turns[|turns| - 1])
  }

  lemma {:induction false} RunKeepsInv(d: Disk, p: Platform, turns: seq<Turn>)
    requires Inv(d, p)
    ensures Inv(Run(d, p, turns), p)
    decreases |turns|
  {
    if turns != [] {
      var (before, t) := (Run(d, p, turns[..|turns| - 1]), turns[|turns| - 1]);
      RunKeepsInv(d, p, turns[..|turns| - 1]);
      var actions := ScriptOf(before, p, t.env, t.op).actions;
      assert actions[..|actions|] == actions;
      OpKeepsInv(before, p, t.env, t.op, if t.landed <= |actions| then t.landed else |actions|);
    }
  }

  /** The platform starts with nothing. */
  const EMPTY_DISK := Disk([], None, map[], map[], map[], map[], map[])

  lemma EmptyDiskInv(p: Platform)
    ensures Inv(EMPTY_DISK, p) && Readable(EMPTY_DISK.manifest, p.provider)
  {
    forall id ensures !AssignedIn(Load(None, p.roster), id) {
      NormalizeAssigns([], p.roster, id);
    }
  }

  // ----- who may change an assignment -------------------------------------------

  lemma StepKeepsAssignments(d: Disk, a: Action)
    requires !a.WriteAssignments?
    ensures Apply(d, a).assignments == d.assignments
  {}

  lemma {:induction false} AssignmentFrame(d: Disk, actions: seq<Action>)
    requires forall a :: a in actions ==> !a.WriteAssignments?
    ensures Perform(d, actions).assignments == d.assignments
    decreases |actions|
  {
    if actions != [] {
      assert actions[|actions| - 1] in actions;
      AssignmentFrame(d, actions[..|actions| - 1]);
      StepKeepsAssignments(Perform(d, actions[..|actions| - 1]), actions[|actions| - 1]);
    }
  }

  /** The assignment check: a delete of an assigned id without the caller's consent changes nothing. */
  lemma DeleteIsFailClosed(d: Disk, p: Platform, env: Env, id: string)
    requires AssignedIn(Load(d.assignments, p.roster), id)
    ensures DeleteScript(d, p, env, id, false) == Script([], false)
  {}

  /** Only saving assignments, or deleting with consent, writes the assignment file. */
  predicate MayUnassign(op: Op) {
    op.SaveAssignments? || (op.Delete? && op.removeAssignments)
  }

  lemma AddWritesNoAssignment(d: Disk, p: Platform, env: Env, req: AddRequest)
    ensures forall a :: a in AddScript(d, p, env, req).actions ==> !a.WriteAssignments?
  {
    AddActions(d, p, env, req);
    OwnTouchesNoStage(AddScript(d, p, env, req).actions, req.id);
  }

  lemma ReseedWritesNoAssignment(d: Disk, p: Platform, env: Env, id: string)
    ensures forall a :: a in ReseedScript(d, p, env, id).actions ==> !a.WriteAssignments?
  {
    if Find(d.manifest, id).Some? {
      var e := Find(d.manifest, id).value;
      MaterializeIsRuntime(d, e, ReadReceipt(d, e.At()), p, env);
    }
  }

  lemma DeleteWritesNoAssignment(d: Disk, p: Platform, env: Env, id: string)
    ensures forall a :: a in DeleteScript(d, p, env, id, false).actions ==> !a.WriteAssignments?
  {
    if AssignedIn(Load(d.assignments, p.roster), id) {
      DeleteIsFailClosed(d, p, env, id);
    } else if DeleteScript(d, p, env, id, false).actions != [] {
      var e := DeleteShape(d, p, env, id, false);
    }
  }

  lemma OpKeepsAssignments(d: Disk, p: Platform, env: Env, op: Op)
    requires !MayUnassign(op)
    ensures forall a :: a in ScriptOf(d, p, env, op).actions ==> !a.WriteAssignments?
  {
    match op
    case Add(req) => AddWritesNoAssignment(d, p, env, req);
    case Reseed(id) => ReseedWritesNoAssignment(d, p, env, id);
    case Delete(id, _) => DeleteWritesNoAssignment(d, p, env, id);
    case Reconcile => SweepIsRuntime(d, d.manifest, p, env);
    case _ => StageOpsTouchStages(d, p, env, op);
  }

  /** Through any run with crashes in which nobody saves assignments or deletes with consent, every agent keeps
      exactly the extensions it was assigned, and each of them stays an enabled entry of the manifest. */
  lemma {:induction false} RunKeepsAssignments(d: Disk, p: Platform, turns: seq<Turn>)
    requires Inv(d, p) && forall i :: 0 <= i < |turns| ==> !MayUnassign(turns[i].op)
    ensures Run(d, p, turns).assignments == d.assignments
    ensures forall id :: AssignedIn(Load(d.assignments, p.roster), id) ==> EnabledIn(Run(d, p, turns).manifest, id)
    decreases |turns|
  {
    if turns != [] {
      var (before, t) := (Run(d, p, turns[..|turns| - 1]), turns[|turns| - 1]);
      RunKeepsAssignments(d, p, turns[..|turns| - 1]);
      OpKeepsAssignments(before, p, t.env, t.op);
      var a := ScriptOf(before, p, t.env, t.op).actions;
      AssignmentFrame(before, if t.landed <= |a| then a[..t.landed] else a);
    }
    RunKeepsInv(d, p, turns);
  }

  /** A completed delete leaves no trace of the id in the manifest, the assignments, the copies or the receipts,
      and keeps every other extension as it was. */
  lemma {:induction false} DeletedIsGone(d: Disk, p: Platform, env: Env, id: string, removeAssignments: bool)
    requires Inv(d, p) && DeleteScript(d, p, env, id, removeAssignments).ok
    ensures var v := Perform(d, DeleteScript(d, p, env, id, removeAssignments).actions);
            && !AssignedIn(Load(v.assignments, p.roster), id)
            && (forall agent, x :: Holds(Load(v.assignments, p.roster), agent, x) <==>
                  Holds(Load(d.assignments, p.roster), agent, x) && x != id)
            && (forall e :: e in v.manifest <==> e in d.manifest && e.id != id)
            && SameOthers(d, v, id) && v.authored == d.authored && v.stages == d.stages
            && Find(d.manifest, id).Some? && Find(d.manifest, id).value.At() !in v.copies
            && Find(d.manifest, id).value.At() !in v.receipts
            && v.assignments == Unassigned(d, p, id).assignments
  {
    DeletedEffect(d, p, env, id, removeAssignments);
    UnassignedIsClear(d, p, id);
    UnassignedKeepsOthers(d, p, id);
    WithoutEntryMembers(d.manifest, id);
    ErasedOthers(d, Unassigned(d, p, id), Find(d.manifest, id).value.At(), WithoutEntry(d.manifest, id));
  }

  lemma {:induction false} WithoutEntryMembers(entries: seq<Entry>, id: string)
    ensures forall e :: e in WithoutEntry(entries, id) <==> e in entries && e.id != id
  {
    forall e ensures e in WithoutEntry(entries, id) <==> e in entries && e.id != id {
      WithoutEntryIff(entries, id, e);
    }
  }

  /** Removing the files of a key touches no other id's. */
  lemma {:induction false} ErasedOthers(d: Disk, w: Disk, key: Key, manifest: seq<Entry>)
    requires w == d.(assignments := w.assignments)
    ensures SameOthers(d, w.(copies := w.copies - {key}, receipts := w.receipts - {key}, manifest := manifest), key.id)
  {}

  lemma {:induction false} DeletedEffect(d: Disk, p: Platform, env: Env, id: string, removeAssignments: bool)
    requires DeleteScript(d, p, env, id, removeAssignments).ok
    ensures Find(d.manifest, id).Some?
    ensures var (w, key) := (Unassigned(d, p, id), Find(d.manifest, id).value.At());
            Perform(d, DeleteScript(d, p, env, id, removeAssignments).actions)
            == w.(copies := w.copies - {key}, receipts := w.receipts - {key}, manifest := WithoutEntry(d.manifest, id))
  {
    var e := DeleteShape(d, p, env, id, removeAssignments);
    var x, files := UnassignScript(d, p, id), [RmCopy(e.At()), RmReceipt(e.At())];
    UnassignEffect(d, p, id);
    PerformConcat(d, x, files);
    RemovalEffect(Unassigned(d, p, id), e.At());
    PerformThen(d, x + files, WriteManifest(WithoutEntry(d.manifest, id)));
  }

  lemma {:induction false} RemovalEffect(w: Disk, key: Key)
    ensures Perform(w, [RmCopy(key), RmReceipt(key)])
            == w.(copies := w.copies - {key}, receipts := w.receipts - {key})
  {
    PerformTwo(w, RmCopy(key), RmReceipt(key));
  }

  /** A failed add changes nothing but the files of its own id, and once it got past its checks leaves
      neither copy, receipt nor document of that id. */
  lemma {:induction false} FailedAddIsInert(d: Disk, p: Platform, env: Env, req: AddRequest)
    requires !AddScript(d, p, env, req).ok
    ensures var v := Perform(d, AddScript(d, p, env, req).actions);
            && SameCatalog(d, v) && SameOthers(d, v, req.id) && SameAuthoredOutside(d, v, req.id)
            && if AddAccepted(d, p, req)
               then && Key(req.kind, req.id) !in v.copies && Key(req.kind, req.id) !in v.receipts
                    && (req.source.AddAuthored? ==> AuthoredPath(req.id) !in v.authored)
               else v == d
  {
    var s := AddScript(d, p, env, req);
    if AddAccepted(d, p, req) {
      var own := AddShape(d, p, env, req);
      OwnFrame(d, own, req.id);
      var cleanup := CleanupScript(req);
      var made := s.actions[..|s.actions| - |cleanup|];
      assert s.actions == made + cleanup by {
        if !(req.source.AddAuthored? && env.fails(AuthoredWrite, req.id)) {
          FailedAddEndsInCleanup(d, p, env, req);
        }
      }
      PerformConcat(d, made, cleanup);
      CleanupEffect(Perform(d, made), req);
    }
  }

  lemma {:induction false} FailedAddEndsInCleanup(d: Disk, p: Platform, env: Env, req: AddRequest)
    requires AddAccepted(d, p, req) && !AddScript(d, p, env, req).ok
    requires !(req.source.AddAuthored? && env.fails(AuthoredWrite, req.id))
    ensures var authored := AuthorScript(req);
            var mat := MaterializeScript(Perform(d, authored), AddedEntry(req, p, Metadata(req.id, "pending")), None, p, env);
            AddScript(d, p, env, req).actions == authored + mat.actions + CleanupScript(req)
  {}

  lemma {:induction false} CleanupEffect(d: Disk, req: AddRequest)
    ensures var v := Perform(d, CleanupScript(req));
            && Key(req.kind, req.id) !in v.copies && Key(req.kind, req.id) !in v.receipts
            && (req.source.AddAuthored? ==> AuthoredPath(req.id) !in v.authored)
  {
    var key := Key(req.kind, req.id);
    PerformTwo(d, RmCopy(key), RmReceipt(key));
    if req.source.AddAuthored? {
      PerformThen(d, [RmCopy(key), RmReceipt(key)], RmAuthored(req.id));
      assert AuthoredDir(req.id) <= AuthoredPath(req.id);
    } else {
      assert CleanupScript(req) == [RmCopy(key), RmReceipt(key)];
    }
  }
}
