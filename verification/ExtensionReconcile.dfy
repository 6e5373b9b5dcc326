/** What one reconciliation repairs, from any disk, and what add and delete leave behind. */
module ExtensionReconcile {
  import opened JsText
  import opened Wrappers
  import opened ExtensionAssignments
  import opened ExtensionDisk
  import opened ExtensionScripts
  import opened ExtensionInvariant

  /** The source of the entry materialises, to a tree that can also be accounted for. */
  ghost predicate Mends(d: Disk, e: Entry, p: Platform, env: Env) {
    && MaterializeScript(d, e, None, p, env).ok
    && (e.source.Git? ==> Obtain(d, e.source, env).value.commitSha != "")
  }

  /** The two disks agree on everything that decides the fate of extension `id`. */
  ghost predicate SameFor(d: Disk, w: Disk, id: string) {
    && d.authored == w.authored
    && (forall k: Key :: k.id == id ==> (k in d.copies <==> k in w.copies) && (k in d.receipts <==> k in w.receipts))
    && (forall k: Key :: k.id == id && k in d.copies ==> d.copies[k] == w.copies[k])
    && (forall k: Key :: k.id == id && k in d.receipts ==> d.receipts[k] == w.receipts[k])
  }

  lemma SameFate(d: Disk, w: Disk, e: Entry, p: Platform, env: Env)
    requires SameFor(d, w, e.id)
    ensures Healthy(d, e) <==> Healthy(w, e)
    ensures MaterializeScript(d, e, None, p, env) == MaterializeScript(w, e, None, p, env)
    ensures ReconcileEntryScript(d, e, p, env) == ReconcileEntryScript(w, e, p, env)
    ensures Mends(d, e, p, env) <==> Mends(w, e, p, env)
  {
    assert e.At().id == e.id;
  }

  /** A successful materialisation makes the entry healthy unless git named no commit: such an entry is
      materialised again by every reconciliation. */
  lemma {:induction false} MaterializedIsHealthyIff(d: Disk, e: Entry, existing: Option<Receipt>, p: Platform, env: Env)
    requires MaterializeScript(d, e, existing, p, env).ok
    ensures Obtain(d, e.source, env).Some?
    ensures Healthy(Perform(d, MaterializeScript(d, e, existing, p, env).actions), e)
            <==> (e.source.Git? ==> Obtain(d, e.source, env).value.commitSha != "")
  {
    MaterializeEffect(d, e, existing, p, env);
  }

  lemma {:induction false} EntryTouchesOnlyItself(d: Disk, e: Entry, p: Platform, env: Env, id: string)
    requires id != e.id
    ensures SameFor(d, Perform(d, ReconcileEntryScript(d, e, p, env).0.actions), id)
  {
    MaterializeIsRuntime(d, e, None, p, env);
    RuntimeFrame(d, ReconcileEntryScript(d, e, p, env).0.actions, e.id);
  }

  /** A sweep leaves the files of every extension it does not visit alone. */
  lemma {:induction false} SweepTouchesOnlyEntries(d: Disk, entries: seq<Entry>, p: Platform, env: Env, id: string)
    requires forall e :: e in entries ==> e.id != id
    ensures SameFor(d, Perform(d, SweepScript(d, entries, p, env).actions), id)
    decreases |entries|
  {
    if entries != [] {
      var (front, last) := (entries[..|entries| - 1], entries[|entries| - 1]);
      var before := SweepScript(d, front, p, env);
      SweepTouchesOnlyEntries(d, front, p, env, id);
      var w := Perform(d, before.actions);
      EntryTouchesOnlyItself(w, last, p, env, id);
      PerformConcat(d, before.actions, ReconcileEntryScript(w, last, p, env).0.actions);
    }
  }

  /** The counts, read off the disk the reconciliation started from. */
  function TallyAll(d: Disk, entries: seq<Entry>, p: Platform, env: Env): Counts {
    if entries == [] then Counts(0, 0, 0)
    else Tally(TallyAll(d, entries[..|entries| - 1], p, env),
               ReconcileEntryScript(d, entries[|entries| - 1], p, env).1)
  }

  lemma FrontIsDistinct(entries: seq<Entry>)
    requires DistinctIds(entries) && entries != []
    ensures DistinctIds(entries[..|entries| - 1])
    ensures forall e :: e in entries[..|entries| - 1] ==> e.id != entries[|entries| - 1].id
  {}

  /** Entries do not influence each other: each counts as it would on its own. */
  lemma {:induction false} CountsAreIndependent(d: Disk, entries: seq<Entry>, p: Platform, env: Env)
    requires DistinctIds(entries)
    ensures SweepScript(d, entries, p, env).counts == TallyAll(d, entries, p, env)
    decreases |entries|
  {
    if entries != [] {
      var (front, last) := (entries[..|entries| - 1], entries[|entries| - 1]);
      FrontIsDistinct(entries);
      CountsAreIndependent(d, front, p, env);
      SweepTouchesOnlyEntries(d, front, p, env, last.id);
      SameFate(d, Perform(d, SweepScript(d, front, p, env).actions), last, p, env);
    }
  }

  /** Every entry that is healthy, or whose source materialises, is healthy afterwards. */
  lemma {:induction false} SweepHeals(d: Disk, entries: seq<Entry>, p: Platform, env: Env, e: Entry)
    requires DistinctIds(entries) && e in entries && (Healthy(d, e) || Mends(d, e, p, env))
    ensures Healthy(Perform(d, SweepScript(d, entries, p, env).actions), e)
    decreases |entries|
  {
    var (front, last) := (entries[..|entries| - 1], entries[|entries| - 1]);
    var before := SweepScript(d, front, p, env);
    var w := Perform(d, before.actions);
    var script := ReconcileEntryScript(w, last, p, env).0;
    FrontIsDistinct(entries);
    PerformConcat(d, before.actions, script.actions);
    if e in front {
      SweepHeals(d, front, p, env, e);
      EntryTouchesOnlyItself(w, last, p, env, e.id);
      SameFate(w, Perform(w, script.actions), e, p, env);
    } else {
      SweepTouchesOnlyEntries(d, front, p, env, e.id);
      SameFate(d, w, e, p, env);
      if !Healthy(w, e) {
        MaterializedIsHealthyIff(w, e, None, p, env);
      }
    }
  }

  /** On a healthy catalog a reconciliation does nothing, whatever the sources now hold. */
  lemma {:induction false} HealthyIsQuiet(d: Disk, entries: seq<Entry>, p: Platform, env: Env)
    requires forall e :: e in entries ==> Healthy(d, e)
    ensures SweepScript(d, entries, p, env) == Sweep([], Counts(0, 0, 0))
    decreases |entries|
  {
    if entries != [] {
      assert entries[|entries| - 1] in entries;
      HealthyIsQuiet(d, entries[..|entries| - 1], p, env);
    }
  }

  /** How many entries need repair. */
  function Unhealthy(d: Disk, entries: seq<Entry>): nat {
    if entries == [] then 0
    else Unhealthy(d, entries[..|entries| - 1]) + if Healthy(d, entries[|entries| - 1]) then 0 else 1
  }

  lemma {:induction false} TallyIsUnhealthy(d: Disk, entries: seq<Entry>, p: Platform, env: Env)
    ensures var c := TallyAll(d, entries, p, env);
            c.materialized + c.repaired + c.unavailable == Unhealthy(d, entries)
    ensures (forall e :: e in entries ==> Healthy(d, e) || Mends(d, e, p, env)) ==>
              TallyAll(d, entries, p, env).unavailable == 0
    decreases |entries|
  {
    if entries != [] {
      assert entries[|entries| - 1] in entries;
      TallyIsUnhealthy(d, entries[..|entries| - 1], p, env);
    }
  }

  ghost predicate AllMend(d: Disk, p: Platform, env: Env) {
    forall e :: e in d.manifest ==> Healthy(d, e) || Mends(d, e, p, env)
  }

  /** From any disk with a readable manifest, however it came about, a reconciliation whose sources all
      materialise makes every entry healthy, counts exactly the entries that were not, changes neither
      manifest, assignments, documents nor stages, and leaves nothing for the next one to do. */
  lemma {:induction false} ReconcileHeals(d: Disk, p: Platform, env: Env, next: Env)
    requires Readable(d.manifest, p.provider) && AllMend(d, p, env)
    ensures var s := ReconcileScript(d, p, env);
            var v := Perform(d, s.actions);
            && SameCatalog(d, v) && v.authored == d.authored
            && (forall e :: e in v.manifest ==> Healthy(v, e))
            && s.counts.materialized + s.counts.repaired == Unhealthy(d, d.manifest) && s.counts.unavailable == 0
            && ReconcileScript(v, p, next) == Sweep([], Counts(0, 0, 0))
  {
    var v := Perform(d, ReconcileScript(d, p, env).actions);
    SweepIsRuntime(d, d.manifest, p, env);
    RuntimeActionFrame(d, ReconcileScript(d, p, env).actions);
    forall e | e in d.manifest ensures Healthy(v, e) {
      SweepHeals(d, d.manifest, p, env, e);
    }
    CountsAreIndependent(d, d.manifest, p, env);
    TallyIsUnhealthy(d, d.manifest, p, env);
    HealthyIsQuiet(v, v.manifest, p, next);
  }

  /** A reconciliation touches no file of an extension that is not in the manifest. */
  lemma {:induction false} ReconcileLeavesStrangers(d: Disk, p: Platform, env: Env, id: string)
    requires Find(d.manifest, id).None?
    ensures SameFor(d, Perform(d, ReconcileScript(d, p, env).actions), id)
  {
    SweepTouchesOnlyEntries(d, d.manifest, p, env, id);
  }

  /** Skills attached directly never depend on an outside source: in every reachable state they mend. */
  lemma AttachedAlwaysMends(d: Disk, p: Platform, env: Env, e: Entry)
    requires Inv(d, p) && e in d.manifest && e.source == DirectAttachment(AuthoredPath(e.id)) && e.provider == p.provider
    requires !env.fails(Validation, e.id) && !env.fails(TargetRename, e.id) && !env.fails(ReceiptWrite, e.id)
    ensures Mends(d, e, p, env)
  {
    assert DocumentOk(d, p, e);
  }

  // ----- an entry that cannot be healed -----------------------------------------

  function Reconciled(d: Disk, p: Platform, env: Env): Disk {
    Perform(d, ReconcileScript(d, p, env).actions)
  }

  /** The entry is materialised, but from a git source whose commit comes back empty. */
  ghost predicate CommitIsEmpty(e: Entry, p: Platform, env: Env) {
    && e.source.Git? && e.provider == p.provider && env.fetch(e.source).Some?
    && env.fetch(e.source).value.commitSha == "" && p.Inspect(e.kind, env.fetch(e.source).value.tree).Some?
    && !env.fails(Validation, e.id) && !env.fails(TargetRename, e.id) && !env.fails(ReceiptWrite, e.id)
  }

  lemma {:induction false} SweepCannotHeal(d: Disk, entries: seq<Entry>, p: Platform, env: Env, e: Entry)
    requires DistinctIds(entries) && e in entries && !Healthy(d, e) && CommitIsEmpty(e, p, env)
    ensures !Healthy(Perform(d, SweepScript(d, entries, p, env).actions), e)
    decreases |entries|
  {
    var (front, last) := (entries[..|entries| - 1], entries[|entries| - 1]);
    var before := SweepScript(d, front, p, env);
    var w := Perform(d, before.actions);
    var script := ReconcileEntryScript(w, last, p, env).0;
    FrontIsDistinct(entries);
    PerformConcat(d, before.actions, script.actions);
    if e in front {
      SweepCannotHeal(d, front, p, env, e);
      EntryTouchesOnlyItself(w, last, p, env, e.id);
      SameFate(w, Perform(w, script.actions), e, p, env);
    } else {
      SweepTouchesOnlyEntries(d, front, p, env, e.id);
      SameFate(d, w, e, p, env);
      MaterializedIsHealthyIff(w, e, None, p, env);
    }
  }

  ghost predicate Stuck(d: Disk, p: Platform, env: Env, e: Entry) {
    Readable(d.manifest, p.provider) && e in d.manifest && !Healthy(d, e) && CommitIsEmpty(e, p, env)
  }

  lemma {:induction false} ReconcileCannotHeal(d: Disk, p: Platform, env: Env, e: Entry)
    requires Stuck(d, p, env, e)
    ensures Stuck(Reconciled(d, p, env), p, env, e) && Reconciled(d, p, env).manifest == d.manifest
  {
    SweepCannotHeal(d, d.manifest, p, env, e);
    SweepIsRuntime(d, d.manifest, p, env);
    RuntimeActionFrame(d, ReconcileScript(d, p, env).actions);
  }

  /** The disk and the ones its reconciliations leave, in order. */
  ghost predicate ReconcileChain(disks: seq<Disk>, p: Platform, env: Env) {
    forall i :: 0 <= i < |disks| - 1 ==> Follows(disks, i, p, env)
  }

  ghost predicate Follows(disks: seq<Disk>, i: nat, p: Platform, env: Env)
    requires i < |disks| - 1
  {
    disks[i + 1] == Reconciled(disks[i], p, env)
  }

  lemma {:induction false} StaysStuck(disks: seq<Disk>, p: Platform, env: Env, e: Entry, i: nat)
    requires i < |disks| && ReconcileChain(disks, p, env) && Stuck(disks[0], p, env, e)
    ensures Stuck(disks[i], p, env, e) && disks[i].manifest == disks[0].manifest
  {
    if i > 0 {
      StaysStuck(disks, p, env, e, i - 1);
      ReconcileCannotHeal(disks[i - 1], p, env, e);
      assert Follows(disks, i - 1, p, env);
    }
  }

  /** Such an entry, once unhealthy, is materialised again by every reconciliation, however many follow each other:
      each of them counts something, and none leaves it healthy. */
  lemma {:induction false} EmptyCommitNeverHeals(disks: seq<Disk>, p: Platform, env: Env, e: Entry, i: nat)
    requires i < |disks| && ReconcileChain(disks, p, env) && Stuck(disks[0], p, env, e)
    ensures Stuck(disks[i], p, env, e) && disks[i].manifest == disks[0].manifest
    ensures var outcome := ReconcileEntryScript(disks[i], e, p, env).1; outcome == Materialized || outcome == Repaired
    ensures var c := ReconcileScript(disks[i], p, env).counts; c.materialized + c.repaired + c.unavailable >= 1
  {
    StaysStuck(disks, p, env, e, i);
    StillCounted(disks[i], p, env, e);
  }

  lemma StillCounted(d: Disk, p: Platform, env: Env, e: Entry)
    requires Stuck(d, p, env, e)
    ensures ReconcileEntryScript(d, e, p, env).1 == Materialized || ReconcileEntryScript(d, e, p, env).1 == Repaired
    ensures var c := ReconcileScript(d, p, env).counts; c.materialized + c.repaired + c.unavailable >= 1
  {
    CountsAreIndependent(d, d.manifest, p, env);
    TallyIsUnhealthy(d, d.manifest, p, env);
    OneIsUnhealthy(d, d.manifest, e);
  }

  lemma {:induction false} OneIsUnhealthy(d: Disk, entries: seq<Entry>, e: Entry)
    requires e in entries && !Healthy(d, e)
    ensures Unhealthy(d, entries) >= 1
    decreases |entries|
  {
    if entries[|entries| - 1] != e {
      OneIsUnhealthy(d, entries[..|entries| - 1], e);
    }
  }

  // ----- crash safety of one replacement ----------------------------------------

  predicate TempOnly(a: Action) {
    a.RmTemp? || a.FillTemp?
  }

  lemma {:induction false} TempFrame(d: Disk, actions: seq<Action>)
    requires forall a :: a in actions ==> TempOnly(a)
    ensures Perform(d, actions) == d.(temps := Perform(d, actions).temps)
    decreases |actions|
  {
    if actions != [] {
      assert actions[|actions| - 1] in actions;
      TempFrame(d, actions[..|actions| - 1]);
    }
  }

  /** A source that cannot be fetched or does not pass inspection costs the entry nothing, wherever the attempt
      is cut: the copy and the receipt it had stay. */
  lemma {:induction false} FailedFetchKeepsCopy(d: Disk, e: Entry, existing: Option<Receipt>, p: Platform, env: Env,
                                                k: nat)
    requires var f := Obtain(d, e.source, env);
             f.None? || p.Inspect(e.kind, f.value.tree).None? || env.fails(Validation, e.id)
    requires k <= |MaterializeScript(d, e, existing, p, env).actions|
    ensures var v := Perform(d, MaterializeScript(d, e, existing, p, env).actions[..k]);
            v == d.(temps := v.temps)
  {
    TempFrame(d, MaterializeScript(d, e, existing, p, env).actions[..k]);
  }

  predicate MovesIn(actions: seq<Action>, key: Key, t: TempKey) {
    forall i :: 0 <= i < |actions| ==>
      actions[i] == RmCopy(key) || actions[i] == RmTemp(t) || actions[i] == Rename(t, key)
  }

  /** What a cut replacement leaves at `key`: the old copy, none, or the whole new tree; the receipt it had. */
  ghost predicate Replacing(d: Disk, v: Disk, key: Key, t: TempKey, tree: Content) {
    && v.copies - {key} == d.copies - {key} && v.receipts == d.receipts
    && (key in v.copies ==> (key in d.copies && v.copies[key] == d.copies[key]) || v.copies[key] == tree)
    && (t in v.temps ==> v.temps[t] == tree)
  }

  lemma {:induction false} ReplacingStep(d: Disk, v: Disk, key: Key, t: TempKey, tree: Content, a: Action)
    requires Replacing(d, v, key, t, tree) && (a == RmCopy(key) || a == RmTemp(t) || a == Rename(t, key))
    ensures Replacing(d, Apply(v, a), key, t, tree)
  {}

  lemma {:induction false} ReplacingTail(d: Disk, w: Disk, key: Key, t: TempKey, tree: Content, tail: seq<Action>)
    requires Replacing(d, w, key, t, tree)
    requires MovesIn(tail, key, t)
    ensures Replacing(d, Perform(w, tail), key, t, tree)
    decreases |tail|
  {
    if tail != [] {
      var n := |tail| - 1;
      ReplacingTail(d, w, key, t, tree, tail[..n]);
      ReplacingStep(d, Perform(w, tail[..n]), key, t, tree, tail[n]);
    }
  }

  /** The steps after the temporary tree is complete, up to the receipt. */
  lemma {:induction false} MaterializeSplit(d: Disk, e: Entry, existing: Option<Receipt>, p: Platform, env: Env)
    returns (f: Fetched, filled: seq<Action>, tail: seq<Action>)
    requires e.provider == p.provider && Obtain(d, e.source, env).Some? && !env.fails(Validation, e.id)
    requires p.Inspect(e.kind, Obtain(d, e.source, env).value.tree).Some?
    ensures Obtain(d, e.source, env) == Some(f)
    ensures var t := TempKey(e.id, env.pid);
            && filled == FillScript(t, env.torn) + [FillTemp(t, f.tree)]
            && MovesIn(tail, e.At(), t)
    ensures var s := MaterializeScript(d, e, existing, p, env);
            s.actions == filled + tail + if s.ok then [WriteReceipt(e.At(), NewReceipt(e, f, existing, env.now))] else []
  {
    var t, key := TempKey(e.id, env.pid), e.At();
    f := Obtain(d, e.source, env).value;
    filled := FillScript(t, env.torn) + [FillTemp(t, f.tree)];
    var clear := ClearScript(d, key);
    tail := if env.fails(TargetRename, e.id) then clear + [RmTemp(t)]
            else if env.fails(ReceiptWrite, e.id) then clear + [Rename(t, key)] + [RmTemp(t)]
            else clear + [Rename(t, key)];
  }

  /** The copy is the old one, absent, or the whole inspected tree, and a new receipt is not without its copy. */
  ghost predicate CutCopyOk(d: Disk, v: Disk, e: Entry, p: Platform, env: Env) {
    var f := Obtain(d, e.source, env);
    && v.copies - {e.At()} == d.copies - {e.At()}
    && (e.At() in v.copies ==>
          || (e.At() in d.copies && v.copies[e.At()] == d.copies[e.At()])
          || (f.Some? && v.copies[e.At()] == f.value.tree && p.Inspect(e.kind, f.value.tree).Some?))
    && (v.receipts == d.receipts || Healthy(v, e) || (e.source.Git? && f.Some? && f.value.commitSha == ""))
  }

  lemma {:induction false} WholeCopyOk(d: Disk, e: Entry, existing: Option<Receipt>, p: Platform, env: Env)
    requires MaterializeScript(d, e, existing, p, env).ok
    ensures CutCopyOk(d, Perform(d, MaterializeScript(d, e, existing, p, env).actions), e, p, env)
  {
    MaterializeEffect(d, e, existing, p, env);
    MaterializedIsHealthyIff(d, e, existing, p, env);
  }

  lemma {:induction false} PartialCopyOk(d: Disk, e: Entry, existing: Option<Receipt>, p: Platform, env: Env, k: nat)
    requires e.provider == p.provider && Obtain(d, e.source, env).Some? && !env.fails(Validation, e.id)
    requires p.Inspect(e.kind, Obtain(d, e.source, env).value.tree).Some?
    requires var s := MaterializeScript(d, e, existing, p, env); k <= |s.actions| && (s.ok ==> k < |s.actions|)
    ensures CutCopyOk(d, Perform(d, MaterializeScript(d, e, existing, p, env).actions[..k]), e, p, env)
  {
    var f, filled, tail := MaterializeSplit(d, e, existing, p, env);
    assert MaterializeScript(d, e, existing, p, env).actions[..k] == (filled + tail)[..k];
    CutReplacement(d, e, f.tree, env, filled, tail, k);
  }

  /** Wherever a materialisation is cut, a torn or refused tree is never in place. */
  lemma {:induction false} CopyIsNeverTorn(d: Disk, e: Entry, existing: Option<Receipt>, p: Platform, env: Env, k: nat)
    requires k <= |MaterializeScript(d, e, existing, p, env).actions|
    ensures CutCopyOk(d, Perform(d, MaterializeScript(d, e, existing, p, env).actions[..k]), e, p, env)
  {
    var s := MaterializeScript(d, e, existing, p, env);
    if e.provider != p.provider {
      assert s.actions[..k] == [];
    } else if Obtain(d, e.source, env).None? || env.fails(Validation, e.id)
              || p.Inspect(e.kind, Obtain(d, e.source, env).value.tree).None? {
      FailedFetchKeepsCopy(d, e, existing, p, env, k);
    } else if s.ok && k == |s.actions| {
      assert s.actions[..k] == s.actions;
      WholeCopyOk(d, e, existing, p, env);
    } else {
      PartialCopyOk(d, e, existing, p, env, k);
    }
  }

  lemma {:induction false} CutReplacement(d: Disk, e: Entry, tree: Content, env: Env, filled: seq<Action>,
                                          tail: seq<Action>, k: nat)
    requires var t := TempKey(e.id, env.pid);
             && filled == FillScript(t, env.torn) + [FillTemp(t, tree)] && k <= |filled + tail|
             && MovesIn(tail, e.At(), t)
    ensures var v := Perform(d, (filled + tail)[..k]);
            && v.copies - {e.At()} == d.copies - {e.At()} && v.receipts == d.receipts
            && (e.At() in v.copies ==>
                  (e.At() in d.copies && v.copies[e.At()] == d.copies[e.At()]) || v.copies[e.At()] == tree)
  {
    var t := TempKey(e.id, env.pid);
    CutOf(d, filled, tail, k);
    if k <= |filled| {
      TempFrame(d, filled[..k]);
    } else {
      FilledEffect(d, t, env.torn, tree);
      ReplacingTail(d, Perform(d, filled), e.At(), t, tree, tail[..k - |filled|]);
    }
  }

  // ----- add, reseed, delete ----------------------------------------------------

  /** A completed add enters the extension, enabled and (unless git named no commit) healthy. */
  lemma AddedIsHealthy(d: Disk, p: Platform, env: Env, req: AddRequest) returns (f: Fetched, m: Metadata)
    requires AddScript(d, p, env, req).ok
    ensures var v := Perform(d, AddScript(d, p, env, req).actions);
            var e := AddedEntry(req, p, m);
            && v.manifest == d.manifest + [e] && v.assignments == d.assignments && v.stages == d.stages
            && SameOthers(d, v, req.id)
            && Obtain(Perform(d, AuthorScript(req)), e.source, env) == Some(f)
            && e.At() in v.copies && v.copies[e.At()] == f.tree && p.Inspect(e.kind, f.tree) == Some(m)
            && (Healthy(v, e) <==> (e.source.Git? ==> f.commitSha != ""))
  {
    f, m := AddEffect(d, p, env, req);
    var e := AddedEntry(req, p, m);
    var authored := Perform(d, AuthorScript(req));
    AuthoredEffect(d, req);
    ReplacedIsHealthyIff(authored, e, TempKey(req.id, env.pid), f, env.now, d.manifest + [e]);
  }

  lemma ReplacedIsHealthyIff(d: Disk, e: Entry, t: TempKey, f: Fetched, now: nat, manifest: seq<Entry>)
    requires t.id == e.id
    ensures var v := Replaced(d, e.At(), t, f.tree, NewReceipt(e, f, None, now)).(manifest := manifest);
            && (Healthy(v, e) <==> (e.source.Git? ==> f.commitSha != ""))
            && SameOthers(d, v, e.id) && e.At() in v.copies && v.copies[e.At()] == f.tree
  {}

  lemma {:induction false} WithoutStranger(entries: seq<Entry>, e: Entry)
    requires forall x :: x in entries ==> x.id != e.id
    ensures WithoutEntry(entries + [e], e.id) == entries
  {
    if entries == [] {
      assert [e][1..] == [];
    } else {
      assert (entries + [e])[0] == entries[0] && (entries + [e])[1..] == entries[1..] + [e];
      WithoutStranger(entries[1..], e);
    }
  }

  /** Adding and then deleting restores the manifest and the assignments, and disturbs no other extension. */
  lemma {:induction false} AddThenDelete(d: Disk, p: Platform, env: Env, req: AddRequest, then_: Env)
    requires Inv(d, p) && AddScript(d, p, env, req).ok
    requires var w := Perform(d, AddScript(d, p, env, req).actions); DeleteScript(w, p, then_, req.id, false).ok
    ensures var w := Perform(d, AddScript(d, p, env, req).actions);
            var v := Perform(w, DeleteScript(w, p, then_, req.id, false).actions);
            && v.manifest == d.manifest && v.assignments == d.assignments && v.stages == d.stages
            && SameOthers(d, v, req.id)
  {
    var w := Perform(d, AddScript(d, p, env, req).actions);
    var f, m := AddedIsHealthy(d, p, env, req);
    var s := AddScript(d, p, env, req);
    assert s.actions[..|s.actions|] == s.actions;
    AddKeepsInv(d, p, env, req, |s.actions|);
    DeletedIsGone(w, p, then_, req.id, false);
    DeletedManifest(w, p, then_, req.id, false);
    WithoutStranger(d.manifest, AddedEntry(req, p, m));
  }

  lemma {:induction false} DeletedManifest(d: Disk, p: Platform, env: Env, id: string, removeAssignments: bool)
    requires DeleteScript(d, p, env, id, removeAssignments).ok
    ensures Perform(d, DeleteScript(d, p, env, id, removeAssignments).actions).manifest == WithoutEntry(d.manifest, id)
  {
    var e := DeleteShape(d, p, env, id, removeAssignments);
    PerformThen(d, UnassignScript(d, p, id) + [RmCopy(e.At()), RmReceipt(e.At())],
                WriteManifest(WithoutEntry(d.manifest, id)));
  }

  /** A completed reseed keeps the entry's identity, its enabled flag and the time of its first import. */
  lemma ReseededKeepsIdentity(d: Disk, p: Platform, env: Env, id: string) returns (e: Entry, m: Metadata)
    requires ReseedScript(d, p, env, id).ok
    ensures Find(d.manifest, id) == Some(e)
    ensures var v := Perform(d, ReseedScript(d, p, env, id).actions);
            && v.manifest == WithMetadata(d.manifest, id, m) && v.assignments == d.assignments && v.stages == d.stages
            && SameOthers(d, v, id) && v.authored == d.authored
            && e.At() in v.copies && p.Inspect(e.kind, v.copies[e.At()]) == Some(m)
            && e.At() in v.receipts && Consistent(v.receipts[e.At()], e)
            && v.receipts[e.At()].digest == DigestOf(v.copies[e.At()])
            && v.receipts[e.At()].importedAt ==
               (if ReadReceipt(d, e.At()).Some? then ReadReceipt(d, e.At()).value.importedAt else env.now)
  {
    e := Find(d.manifest, id).value;
    var existing := ReadReceipt(d, e.At());
    var mat := MaterializeScript(d, e, existing, p, env);
    MaterializeEffect(d, e, existing, p, env);
    MaterializeIsRuntime(d, e, existing, p, env);
    RuntimeFrame(d, mat.actions, id);
    m := InspectCopy(Perform(d, mat.actions), e.At(), p, env).value;
    PerformThen(d, mat.actions, WriteManifest(WithMetadata(d.manifest, id, m)));
  }
}
