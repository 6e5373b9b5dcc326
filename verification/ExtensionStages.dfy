/** Launch stages: snapshots of the assigned extensions that nothing changes afterwards. */
module ExtensionStages {
  import opened JsText
  import opened StringSets
  import opened Wrappers
  import opened ExtensionAssignments
  import opened ExtensionDisk
  import opened ExtensionScripts
  import opened ExtensionInvariant

  function KeySet(entries: seq<Entry>): set<Key> {
    set e | e in entries :: e.At()
  }

  /** The runtime copies of the entries as they are on this disk. */
  function Snapshot(d: Disk, entries: seq<Entry>): map<Key, Content> {
    map k | k in KeySet(entries) && k in d.copies :: d.copies[k]
  }

  /** The entries an agent's stage holds, if staging accepts them. */
  function Assigned(d: Disk, p: Platform, agent: string): Option<seq<Entry>> {
    if Readable(d.manifest, p.provider) then Resolve(d, Sort(IdsOf(Load(d.assignments, p.roster), agent))) else None
  }

  lemma {:induction false} ResolvedEntries(d: Disk, ids: seq<string>)
    ensures var r := Resolve(d, ids);
            r.Some? ==> && |r.value| == |ids|
                        && forall i :: 0 <= i < |ids| ==>
                             && r.value[i] in d.manifest && r.value[i].id == ids[i] && r.value[i].enabled
                             && r.value[i].At() in d.copies
  {
    if ids != [] {
      ResolvedEntries(d, ids[1..]);
    }
  }

  lemma {:induction false} ResolveSucceedsIff(d: Disk, ids: seq<string>)
    requires forall e :: e in d.manifest ==> !IsBlank(e.displayName) && !IsBlank(e.description)
    ensures Resolve(d, ids).Some? <==>
            forall id :: id in ids ==> Find(d.manifest, id).Some? && Find(d.manifest, id).value.enabled
                                       && Find(d.manifest, id).value.At() in d.copies
  {
    if ids != [] {
      ResolveSucceedsIff(d, ids[1..]);
      assert forall id :: id in ids <==> id == ids[0] || id in ids[1..];
    }
  }

  lemma {:induction false} FindDistinct(entries: seq<Entry>, e: Entry)
    requires DistinctIds(entries) && e in entries
    ensures Find(entries, e.id) == Some(e)
  {
    if entries[0] != e {
      assert DistinctIds(entries[1..]) && e in entries[1..];
      var i :| 0 <= i < |entries[1..]| && entries[1..][i] == e;
      assert entries[i + 1] == e;
      FindDistinct(entries[1..], e);
    }
  }

  lemma {:induction false} IdsOfAreAssigned(entries: seq<Assignment>, agent: string, id: string)
    requires id in IdsOf(entries, agent)
    ensures AssignedIn(entries, id)
  {
    if entries[0].agent != agent {
      IdsOfAreAssigned(entries[1..], agent, id);
      var i :| 0 <= i < |entries[1..]| && id in entries[1..][i].ids;
      assert id in entries[i + 1].ids;
    } else {
      assert id in entries[0].ids;
    }
  }

  /** In a reachable state whose copies are all in place, every agent's stage resolves: staging is never
      refused for an unknown or disabled extension, only for a missing copy. */
  lemma StagingResolves(d: Disk, p: Platform, agent: string)
    requires Inv(d, p) && Readable(d.manifest, p.provider)
    requires forall e :: e in d.manifest ==> e.At() in d.copies
    ensures Assigned(d, p, agent).Some?
  {
    var ids := IdsOf(Load(d.assignments, p.roster), agent);
    forall id | id in Sort(ids)
      ensures Find(d.manifest, id).Some? && Find(d.manifest, id).value.enabled && Find(d.manifest, id).value.At() in d.copies
    {
      SortKeepsMembers(ids, id);
      IdsOfAreAssigned(Load(d.assignments, p.roster), agent, id);
      assert EnabledIn(d.manifest, id);
      var e :| e in d.manifest && e.id == id && e.enabled;
      FindDistinct(d.manifest, e);
    }
    ResolveSucceedsIff(d, Sort(ids));
  }

  // ----- copying ----------------------------------------------------------------

  predicate CopiesInto(actions: seq<Action>, launch: string) {
    forall i :: 0 <= i < |actions| ==> actions[i].CopyToStage? && actions[i].launch == launch
  }

  lemma {:induction false} CopyIsInto(d: Disk, launch: string, entries: seq<Entry>, env: Env)
    ensures CopiesInto(CopyScript(d, launch, entries, env).actions, launch)
    decreases |entries|
  {
    if entries != [] {
      CopyIsInto(d, launch, entries[..|entries| - 1], env);
    }
  }

  /** Copying changes only the copies of the one stage. */
  lemma {:induction false} CopyFrame(w: Disk, actions: seq<Action>, launch: string)
    requires CopiesInto(actions, launch) && launch in w.stages
    ensures var v := Perform(w, actions);
            && launch in v.stages && v.stages - {launch} == w.stages - {launch}
            && v.stages[launch] == w.stages[launch].(copies := v.stages[launch].copies)
    decreases |actions|
  {
    if actions != [] {
      CopyFrame(w, actions[..|actions| - 1], launch);
    }
  }

  lemma KeySetGrows(entries: seq<Entry>)
    requires entries != []
    ensures KeySet(entries) == KeySet(entries[..|entries| - 1]) + {entries[|entries| - 1].At()}
  {
    var n := |entries| - 1;
    forall k | k in KeySet(entries) ensures k in KeySet(entries[..n]) + {entries[n].At()} {
      var i :| 0 <= i < |entries| && entries[i].At() == k;
      if i < n {
        assert entries[..n][i] == entries[i] && entries[i] in entries[..n];
      }
    }
    forall k | k in KeySet(entries[..n]) ensures k in KeySet(entries) {
      var e :| e in entries[..n] && e.At() == k;
      assert e in entries;
    }
    assert entries[n] in entries;
  }

  /** When every copy went through, the stage holds exactly the snapshot. */
  lemma {:induction false} CopyEffect(d: Disk, w: Disk, launch: string, entries: seq<Entry>, env: Env)
    requires launch in w.stages && w.stages[launch].copies == map[] && CopyScript(d, launch, entries, env).ok
    ensures var v := Perform(w, CopyScript(d, launch, entries, env).actions);
            launch in v.stages && v.stages[launch].copies == Snapshot(d, entries)
    decreases |entries|
  {
    if entries == [] {
      assert Snapshot(d, entries) == map[];
    } else {
      var front, key := entries[..|entries| - 1], entries[|entries| - 1].At();
      var before := CopyScript(d, launch, front, env).actions;
      CopyEffect(d, w, launch, front, env);
      CopiedTwice(w, before, launch, key, env.torn, d.copies[key]);
      KeySetGrows(entries);
      assert Snapshot(d, entries) == Snapshot(d, front)[key := env.torn][key := d.copies[key]];
    }
  }

  /** A copy that is torn first and whole then. */
  lemma {:induction false} CopiedTwice(w: Disk, before: seq<Action>, launch: string, key: Key, torn: Content,
                                       tree: Content)
    requires launch in Perform(w, before).stages
    ensures var v := Perform(w, before + [CopyToStage(launch, key, torn)] + [CopyToStage(launch, key, tree)]);
            launch in v.stages && v.stages[launch].copies == Perform(w, before).stages[launch].copies[key := torn][key := tree]
  {
    PerformThen(w, before, CopyToStage(launch, key, torn));
    PerformThen(w, before + [CopyToStage(launch, key, torn)], CopyToStage(launch, key, tree));
  }

  // ----- creating a stage -------------------------------------------------------

  lemma {:induction false} BeginEffect(d: Disk, launch: string, agent: string, keys: seq<Key>)
    ensures Perform(d, BeginScript(launch, agent, keys)[..1]) == d.(stages := d.stages - {launch})
    ensures var v := Perform(d, BeginScript(launch, agent, keys));
            v.stages == d.stages[launch := Stage(Creating, agent, keys, map[])]
  {
    var a := WriteStageManifest(launch, Creating, agent, keys);
    assert BeginScript(launch, agent, keys)[..1] == [RmStage(launch)];
    PerformOne(d, RmStage(launch));
    PerformTwo(d, RmStage(launch), a);
    ReplaceKey(d.stages, launch, Stage(Creating, agent, keys, map[]));
  }

  /** While the copies go in, the stage says `creating`. */
  lemma {:induction false} CreatingMeanwhile(d: Disk, launch: string, agent: string, keys: seq<Key>,
                                             copies: seq<Action>, k: nat)
    requires CopiesInto(copies, launch) && 0 < k <= |BeginScript(launch, agent, keys) + copies|
    ensures var v := Perform(d, (BeginScript(launch, agent, keys) + copies)[..k]);
            && v.stages - {launch} == d.stages - {launch}
            && (launch in v.stages ==> v.stages[launch].status == Creating)
  {
    var x := BeginScript(launch, agent, keys);
    BeginEffect(d, launch, agent, keys);
    CutOf(d, x, copies, k);
    if k >= 2 {
      CopyFrame(Perform(d, x), copies[..k - 2], launch);
      assert d.stages[launch := Stage(Creating, agent, keys, map[])] - {launch} == d.stages - {launch};
    } else {
      assert (x + copies)[..k] == x[..1];
    }
  }

  lemma {:induction false} StagedEffect(d: Disk, launch: string, agent: string, entries: seq<Entry>, env: Env)
    requires CopyScript(d, launch, entries, env).ok
    ensures var keys := StagedKeys(entries);
            var v := Perform(d, BeginScript(launch, agent, keys) + CopyScript(d, launch, entries, env).actions
                                  + [WriteStageManifest(launch, Created, agent, keys)]);
            v == d.(stages := d.stages[launch := Stage(Created, agent, keys, Snapshot(d, entries))])
  {
    var keys, copies := StagedKeys(entries), CopyScript(d, launch, entries, env).actions;
    var x := BeginScript(launch, agent, keys);
    var last := WriteStageManifest(launch, Created, agent, keys);
    BeginEffect(d, launch, agent, keys);
    PerformConcat(d, x, copies);
    CopyEffect(d, Perform(d, x), launch, entries, env);
    CopyIsInto(d, launch, entries, env);
    CopyFrame(Perform(d, x), copies, launch);
    CopyIsStage(d, launch, entries, env);
    StageFrame(d, x + copies);
    PerformThen(d, x + copies, last);
    assert Perform(d, x).stages - {launch} == d.stages - {launch};
    SameOutside(d.stages, Perform(d, x + copies + [last]).stages, launch);
  }

  lemma SameOutside<K, V>(m: map<K, V>, n: map<K, V>, k: K)
    requires k in n && m - {k} == n - {k}
    ensures n == m[k := n[k]]
  {
    forall x ensures x in n <==> x in m[k := n[k]] {
      assert x != k ==> (x in n <==> x in n - {k}) && (x in m <==> x in m - {k});
    }
    forall x | x in n && x != k ensures n[x] == m[x] {
      assert x in n - {k} && (n - {k})[x] == (m - {k})[x];
    }
  }

  lemma {:induction false} StageShape(d: Disk, p: Platform, env: Env, agent: string, launch: string)
    requires ValidLaunchId(launch) && IdsOf(Load(d.assignments, p.roster), agent) != []
    ensures var s := StageScript(d, p, env, agent, launch);
            match Assigned(d, p, agent)
            case None => s == Script([RmStage(launch)], false)
            case Some(entries) =>
              var keys, copies := StagedKeys(entries), CopyScript(d, launch, entries, env);
              var begun := BeginScript(launch, agent, keys) + copies.actions;
              if env.fails(StageBegin, "") then s == Script([RmStage(launch), RmStage(launch)], false)
              else if copies.ok && !env.fails(StageManifest, "")
              then s == Script(begun + [WriteStageManifest(launch, Created, agent, keys)], true)
              else s == Script(begun + [RmStage(launch)], false)
  {}

  /** A completed create leaves a stage that says `created` and holds exactly the runtime copies of the agent's
      assigned extensions, as they were when it was staged; nothing else on the disk moves. */
  lemma CreatedStageIsSnapshot(d: Disk, p: Platform, env: Env, agent: string,
                               launch: string) returns (entries: seq<Entry>)
    requires StageScript(d, p, env, agent, launch).ok && IdsOf(Load(d.assignments, p.roster), agent) != []
    ensures Assigned(d, p, agent) == Some(entries)
    ensures Perform(d, StageScript(d, p, env, agent, launch).actions)
            == d.(stages := d.stages[launch := Stage(Created, agent, StagedKeys(entries), Snapshot(d, entries))])
    ensures forall id :: id in IdsOf(Load(d.assignments, p.roster), agent) ==>
              exists e :: e in entries && e in d.manifest && e.id == id && e.enabled && e.At() in Snapshot(d, entries)
    ensures forall e :: e in entries ==> e.id in IdsOf(Load(d.assignments, p.roster), agent)
  {
    StageShape(d, p, env, agent, launch);
    entries := Assigned(d, p, agent).value;
    StagedEffect(d, launch, agent, entries, env);
    var ids := IdsOf(Load(d.assignments, p.roster), agent);
    ResolvedEntries(d, Sort(ids));
    forall e | e in entries ensures e.id in ids {
      var i :| 0 <= i < |entries| && entries[i] == e;
      SortKeepsMembers(ids, Sort(ids)[i]);
    }
    forall id | id in ids
      ensures exists e :: e in entries && e in d.manifest && e.id == id && e.enabled && e.At() in Snapshot(d, entries)
    {
      SortKeepsMembers(ids, id);
      var i :| 0 <= i < |Sort(ids)| && Sort(ids)[i] == id;
      assert entries[i] in entries;
    }
  }

  lemma {:induction false} EndsInRemoval(d: Disk, actions: seq<Action>, launch: string)
    ensures launch !in Perform(d, actions + [RmStage(launch)]).stages
  {
    PerformThen(d, actions, RmStage(launch));
  }

  /** A failed create that got as far as the disk leaves no stage directory. */
  lemma {:induction false} FailedStageIsGone(d: Disk, p: Platform, env: Env, agent: string, launch: string)
    requires !StageScript(d, p, env, agent, launch).ok && ValidLaunchId(launch)
    ensures launch !in Perform(d, StageScript(d, p, env, agent, launch).actions).stages
  {
    StageShape(d, p, env, agent, launch);
    match Assigned(d, p, agent)
    case None =>
      assert [] + [RmStage(launch)] == [RmStage(launch)];
      EndsInRemoval(d, [], launch);
    case Some(entries) =>
      EndsInRemoval(d, [RmStage(launch)], launch);
      EndsInRemoval(d, BeginScript(launch, agent, StagedKeys(entries)) + CopyScript(d, launch, entries, env).actions, launch);
  }

  /** The stage of a create cut anywhere: absent, or `creating`, or the whole snapshot. */
  ghost predicate CutOk(d: Disk, v: Disk, agent: string, launch: string, entries: seq<Entry>) {
    && v.stages - {launch} == d.stages - {launch}
    && (launch in v.stages && v.stages[launch].status == Created ==>
          v.stages[launch] == Stage(Created, agent, StagedKeys(entries), Snapshot(d, entries)))
  }

  lemma {:induction false} CutCopies(d: Disk, env: Env, agent: string, launch: string, entries: seq<Entry>,
                                     last: Action, k: nat)
    requires var keys, copies := StagedKeys(entries), CopyScript(d, launch, entries, env);
             && 0 < k <= 2 + |copies.actions| + 1
             && (last == RmStage(launch) || (copies.ok && last == WriteStageManifest(launch, Created, agent, keys)))
    ensures var begun := BeginScript(launch, agent, StagedKeys(entries)) + CopyScript(d, launch, entries, env).actions;
            CutOk(d, Perform(d, (begun + [last])[..k]), agent, launch, entries)
  {
    var keys, copies := StagedKeys(entries), CopyScript(d, launch, entries, env);
    var begun := BeginScript(launch, agent, keys) + copies.actions;
    CopyIsInto(d, launch, entries, env);
    CreatingMeanwhile(d, launch, agent, keys, copies.actions, if k <= |begun| then k else |begun|);
    if k <= |begun| {
      assert (begun + [last])[..k] == begun[..k];
    } else {
      assert begun[..|begun|] == begun && (begun + [last])[..k] == begun + [last];
      PerformThen(d, begun, last);
      if copies.ok {
        StagedEffect(d, launch, agent, entries, env);
      }
    }
  }

  lemma {:induction false} CutRefusal(d: Disk, agent: string, launch: string, k: nat)
    requires 0 < k <= |[RmStage(launch)]|
    ensures CutOk(d, Perform(d, [RmStage(launch)][..k]), agent, launch, [])
    ensures launch !in Perform(d, [RmStage(launch)][..k]).stages
  {
    assert [RmStage(launch)][..k] == [RmStage(launch)];
    PerformOne(d, RmStage(launch));
  }

  /** The first manifest write threw: the directory is removed, and removed again by the cleanup. */
  lemma {:induction false} CutBeforeManifest(d: Disk, agent: string, launch: string, entries: seq<Entry>, k: nat)
    requires 0 < k <= 2
    ensures CutOk(d, Perform(d, [RmStage(launch), RmStage(launch)][..k]), agent, launch, entries)
  {
    var a := RmStage(launch);
    assert [a, a][..k] == if k == 1 then [a] else [a, a];
    PerformOne(d, a);
    PerformTwo(d, a, a);
  }

  lemma {:induction false} CutStage(d: Disk, p: Platform, env: Env, agent: string, launch: string, k: nat)
    requires 0 < k <= |StageScript(d, p, env, agent, launch).actions|
    ensures CutOk(d, Perform(d, StageScript(d, p, env, agent, launch).actions[..k]), agent, launch,
                  Assigned(d, p, agent).GetOr([]))
    ensures Assigned(d, p, agent).None? ==>
              launch !in Perform(d, StageScript(d, p, env, agent, launch).actions[..k]).stages
  {
    StageShape(d, p, env, agent, launch);
    match Assigned(d, p, agent)
    case None => CutRefusal(d, agent, launch, k);
    case Some(entries) =>
      var keys, copies := StagedKeys(entries), CopyScript(d, launch, entries, env);
      var last := if copies.ok && !env.fails(StageManifest, "") then WriteStageManifest(launch, Created, agent, keys)
                  else RmStage(launch);
      if env.fails(StageBegin, "") {
        CutBeforeManifest(d, agent, launch, entries, k);
      } else {
        CutCopies(d, env, agent, launch, entries, last, k);
      }
  }

  // ----- afterwards -------------------------------------------------------------

  /** The operations that may change the stage of this launch. */
  predicate Restages(op: Op, launch: string) {
    || (op.CreateStage? && op.launch == launch)
    || (op.CleanupStage? && op.launch == launch)
    || (op.RecoverStages? && launch in StaleNames(op.listing))
  }

  ghost predicate SameStage(d: Disk, v: Disk, launch: string) {
    (launch in d.stages <==> launch in v.stages) && (launch in d.stages ==> d.stages[launch] == v.stages[launch])
  }

  lemma {:induction false} RecoverFrame(d: Disk, names: seq<string>, k: nat)
    requires k <= |names|
    ensures Perform(d, RemoveScript(names)[..k]) == d.(stages := d.stages - AsSet(names[..k]))
  {
    var a := RemoveScript(names);
    if k == 0 {
      assert d.stages - AsSet(names[..k]) == d.stages;
    } else {
      RecoverFrame(d, names, k - 1);
      assert a[..k] == a[..k - 1] + [RmStage(names[k - 1])];
      PerformThen(d, a[..k - 1], RmStage(names[k - 1]));
      assert AsSet(names[..k]) == AsSet(names[..k - 1]) + {names[k - 1]};
      assert d.stages - AsSet(names[..k - 1]) - {names[k - 1]} == d.stages - AsSet(names[..k]);
    }
  }

  lemma {:induction false} StaleNamesIff(listing: seq<Dirent>, name: string)
    ensures name in StaleNames(listing) <==> Dirent(name, true, true) in listing
    decreases |listing|
  {
    if listing != [] {
      StaleNamesIff(listing[..|listing| - 1], name);
      assert listing == listing[..|listing| - 1] + [listing[|listing| - 1]];
    }
  }

  /** Recovery removes exactly the stages whose directories it finds inside the stage root, and nothing else;
      links and files there are skipped. */
  lemma {:induction false} RecoverRemoves(d: Disk, listing: seq<Dirent>)
    ensures var v := Perform(d, RecoverScript(listing).actions);
            && v == d.(stages := v.stages)
            && forall l :: l in v.stages <==> l in d.stages && Dirent(l, true, true) !in listing
    ensures var v := Perform(d, RecoverScript(listing).actions);
            forall l :: l in v.stages ==> v.stages[l] == d.stages[l]
  {
    var names := StaleNames(listing);
    RecoverFrame(d, names, |names|);
    assert RemoveScript(names)[..|names|] == RemoveScript(names) && names[..|names|] == names;
    forall l ensures l in names <==> Dirent(l, true, true) in listing {
      StaleNamesIff(listing, l);
    }
  }

  /** A listing that finds every stage leaves none. */
  lemma {:induction false} RecoverRemovesAll(d: Disk, listing: seq<Dirent>)
    requires forall l :: l in d.stages ==> Dirent(l, true, true) in listing
    ensures Perform(d, RecoverScript(listing).actions) == d.(stages := map[])
  {
    RecoverRemoves(d, listing);
    assert Perform(d, RecoverScript(listing).actions).stages == map[];
  }

  lemma {:induction false} OtherStageCut(d: Disk, p: Platform, env: Env, agent: string, other: string, k: nat,
                                         launch: string)
    requires other != launch && k <= |StageScript(d, p, env, agent, other).actions|
    ensures SameStage(d, Perform(d, StageScript(d, p, env, agent, other).actions[..k]), launch)
  {
    if k > 0 {
      CutStage(d, p, env, agent, other, k);
      var v := Perform(d, StageScript(d, p, env, agent, other).actions[..k]);
      assert launch in d.stages <==> launch in d.stages - {other};
      assert launch in v.stages <==> launch in v.stages - {other};
    }
  }

  lemma {:induction false} RemovalSparesOthers(d: Disk, other: string, launch: string)
    requires other != launch
    ensures SameStage(d, Perform(d, [RmStage(other)]), launch)
  {
    PerformOne(d, RmStage(other));
  }

  /** No other operation, complete or cut, touches the stage. */
  lemma StageIsFrozen(d: Disk, p: Platform, t: Turn, launch: string)
    requires !Restages(t.op, launch)
    ensures SameStage(d, Play(d, p, t), launch)
  {
    var a := ScriptOf(d, p, t.env, t.op).actions;
    var k := if t.landed <= |a| then t.landed else |a|;
    assert a[..|a|] == a;
    if !StageOp(t.op) {
      OtherOpsTouchNoStage(d, p, t.env, t.op);
      CatalogFrame(d, a[..k]);
    } else {
      match t.op
      case CreateStage(agent, other) => OtherStageCut(d, p, t.env, agent, other, k, launch);
      case CleanupStage(other) =>
        if k > 0 {
          RemovalSparesOthers(d, other, launch);
        }
      case RecoverStages(listing) =>
        RecoverFrame(d, StaleNames(listing), k);
        assert launch !in AsSet(StaleNames(listing)[..k]);
    }
  }

  lemma {:induction false} RunKeepsStage(d: Disk, p: Platform, turns: seq<Turn>, launch: string)
    requires forall i :: 0 <= i < |turns| ==> !Restages(turns[i].op, launch)
    ensures SameStage(d, Run(d, p, turns), launch)
    decreases |turns|
  {
    if turns != [] {
      RunKeepsStage(d, p, turns[..|turns| - 1], launch);
      StageIsFrozen(Run(d, p, turns[..|turns| - 1]), p, turns[|turns| - 1], launch);
    }
  }

  /** Whatever is added, reseeded, deleted, reconciled or staged later, and wherever it crashes, a launch keeps
      seeing the copies taken when it was staged. */
  lemma {:induction false} SnapshotSurvives(d: Disk, p: Platform, env: Env, agent: string, launch: string,
                                            turns: seq<Turn>)
    requires StageScript(d, p, env, agent, launch).ok && IdsOf(Load(d.assignments, p.roster), agent) != []
    requires forall i :: 0 <= i < |turns| ==> !Restages(turns[i].op, launch)
    ensures Assigned(d, p, agent).Some?
    ensures var entries := Assigned(d, p, agent).value;
            var v := Run(Perform(d, StageScript(d, p, env, agent, launch).actions), p, turns);
            launch in v.stages && v.stages[launch] == Stage(Created, agent, StagedKeys(entries), Snapshot(d, entries))
  {
    var entries := CreatedStageIsSnapshot(d, p, env, agent, launch);
    RunKeepsStage(Perform(d, StageScript(d, p, env, agent, launch).actions), p, turns, launch);
  }

  /** Every stage marked `created` is complete: it has a copy of each entry it lists, and of nothing else. */
  ghost predicate StagesComplete(d: Disk) {
    forall l :: l in d.stages && d.stages[l].status == Created ==> Complete(d.stages[l])
  }

  ghost predicate Complete(s: Stage) {
    s.copies.Keys == set k | k in s.entries
  }

  lemma SnapshotIsComplete(d: Disk, p: Platform, agent: string)
    requires Assigned(d, p, agent).Some?
    ensures var entries := Assigned(d, p, agent).value;
            Complete(Stage(Created, agent, StagedKeys(entries), Snapshot(d, entries)))
  {
    var entries := Assigned(d, p, agent).value;
    ResolvedEntries(d, Sort(IdsOf(Load(d.assignments, p.roster), agent)));
    forall k ensures k in Snapshot(d, entries) <==> k in StagedKeys(entries) {
      if k in StagedKeys(entries) {
        var i :| 0 <= i < |entries| && StagedKeys(entries)[i] == k;
        assert entries[i] in entries;
      }
      if k in KeySet(entries) {
        var i :| 0 <= i < |entries| && entries[i].At() == k;
        assert StagedKeys(entries)[i] == k;
      }
    }
  }

  lemma {:induction false} RunKeepsStagesComplete(d: Disk, p: Platform, turns: seq<Turn>)
    requires StagesComplete(d)
    ensures StagesComplete(Run(d, p, turns))
    decreases |turns|
  {
    if turns != [] {
      var (before, t) := (Run(d, p, turns[..|turns| - 1]), turns[|turns| - 1]);
      RunKeepsStagesComplete(d, p, turns[..|turns| - 1]);
      var v := Play(before, p, t);
      forall l | l in v.stages && v.stages[l].status == Created ensures Complete(v.stages[l]) {
        StageStaysComplete(before, p, t, l);
      }
    }
  }

  lemma {:induction false} CutStageIsComplete(d: Disk, p: Platform, env: Env, agent: string, launch: string, k: nat)
    requires 0 < k <= |StageScript(d, p, env, agent, launch).actions|
    ensures var v := Perform(d, StageScript(d, p, env, agent, launch).actions[..k]);
            launch in v.stages && v.stages[launch].status == Created ==> Complete(v.stages[launch])
  {
    CutStage(d, p, env, agent, launch, k);
    if Assigned(d, p, agent).Some? {
      SnapshotIsComplete(d, p, agent);
    }
  }

  lemma StageStaysComplete(d: Disk, p: Platform, t: Turn, l: string)
    requires StagesComplete(d) && l in Play(d, p, t).stages && Play(d, p, t).stages[l].status == Created
    ensures Complete(Play(d, p, t).stages[l])
  {
    var a := ScriptOf(d, p, t.env, t.op).actions;
    var k := if t.landed <= |a| then t.landed else |a|;
    assert a[..|a|] == a;
    if !Restages(t.op, l) {
      StageIsFrozen(d, p, t, l);
    } else if k > 0 {
      match t.op
      case CreateStage(agent, launch) => CutStageIsComplete(d, p, t.env, agent, launch, k);
      case CleanupStage(launch) => EndsInRemoval(d, [], launch);
      case RecoverStages(listing) => RecoverFrame(d, StaleNames(listing), k);
    }
  }

  /** The stage is the snapshot that staging for this agent would take of this disk. */
  ghost predicate IsSnapshotOf(s: Stage, d: Disk, p: Platform, agent: string) {
    && Assigned(d, p, agent).Some?
    && s == Stage(Created, agent, StagedKeys(Assigned(d, p, agent).value), Snapshot(d, Assigned(d, p, agent).value))
  }

  /** A stage that says `created` after a turn was there before it, or is the snapshot the turn took. */
  lemma CreatedByTurn(d: Disk, p: Platform, t: Turn, l: string)
    requires l in Play(d, p, t).stages && Play(d, p, t).stages[l].status == Created
    ensures SameStage(d, Play(d, p, t), l)
            || (t.op.CreateStage? && t.op.launch == l && IsSnapshotOf(Play(d, p, t).stages[l], d, p, t.op.agent))
  {
    var a := ScriptOf(d, p, t.env, t.op).actions;
    var k := if t.landed <= |a| then t.landed else |a|;
    assert a[..|a|] == a;
    if !Restages(t.op, l) {
      StageIsFrozen(d, p, t, l);
    } else if k > 0 {
      match t.op
      case CreateStage(agent, launch) => CutStage(d, p, t.env, agent, launch, k);
      case CleanupStage(launch) => EndsInRemoval(d, [], launch);
      case RecoverStages(listing) => RecoverFrame(d, StaleNames(listing), k);
    }
  }

  /** In any run with crashes that starts without the stage: if the stage says `created` at the end, some turn of
      the run staged it, and it holds for every assigned extension of its agent, and for nothing else, exactly the
      runtime copy on the disk that turn met. */
  lemma {:induction false} CreatedStagesAreSnapshots(d: Disk, p: Platform, turns: seq<Turn>, l: string) returns (j: nat)
    requires l !in d.stages
    requires l in Run(d, p, turns).stages && Run(d, p, turns).stages[l].status == Created
    ensures j < |turns| && turns[j].op.CreateStage? && turns[j].op.launch == l
    ensures IsSnapshotOf(Run(d, p, turns).stages[l], Run(d, p, turns[..j]), p, turns[j].op.agent)
    decreases |turns|
  {
    var n := |turns| - 1;
    var before := Run(d, p, turns[..n]);
    CreatedByTurn(before, p, turns[n], l);
    if SameStage(before, Play(before, p, turns[n]), l) {
      j := CreatedStagesAreSnapshots(d, p, turns[..n], l);
      assert turns[..n][..j] == turns[..j] && turns[..n][j] == turns[j];
    } else {
      j := n;
    }
  }
}
