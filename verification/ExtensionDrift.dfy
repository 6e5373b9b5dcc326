/** Which changes of a runtime copy a reconciliation notices. */
module ExtensionDrift {
  import opened Wrappers
  import opened ExtensionAssignments
  import opened ExtensionDigest
  import opened ExtensionDisk
  import opened ExtensionScripts
  import opened ExtensionReconcile

  /** The disk with the copy of an entry replaced behind the catalog's back. */
  function Tampered(d: Disk, key: Key, tree: Content): Disk {
    d.(copies := d.copies[key := tree])
  }

  lemma {:induction false} TamperedHealthIff(d: Disk, e: Entry, tree: Content)
    requires Healthy(d, e)
    ensures Healthy(Tampered(d, e.At(), tree), e) <==> Stream(tree) == Stream(d.copies[e.At()])
  {}

  /** Every change of a healthy copy is noticed exactly when no other tree feeds the digest the same bytes:
      the copy is empty, or it is a single file whose bytes hold no later path in front of a NUL. */
  lemma DriftIsNoticedIff(d: Disk, e: Entry)
    requires Healthy(d, e) && IsTree(d.copies[e.At()])
    ensures (forall tree: Content :: IsTree(tree) && tree != d.copies[e.At()] ==> !Healthy(Tampered(d, e.At(), tree), e))
            <==> Identified(d.copies[e.At()])
  {
    var t := d.copies[e.At()];
    DigestIdentifiesIff(t);
    if Identified(t) {
      forall tree: Content | IsTree(tree) && tree != t ensures !Healthy(Tampered(d, e.At(), tree), e) {
        TamperedHealthIff(d, e, tree);
      }
    } else {
      var tree: Content :| IsTree(tree) && Stream(tree) == Stream(t) && tree != t;
      TamperedHealthIff(d, e, tree);
    }
  }

  /** An edit of text files under their names is always noticed, and repaired by a reconciliation that can mend. */
  lemma {:induction false} TextEditIsRepaired(d: Disk, e: Entry, tree: Content, p: Platform, env: Env)
    requires Healthy(d, e) && IsTree(d.copies[e.At()]) && IsText(d.copies[e.At()])
    requires IsTree(tree) && tree.Keys == d.copies[e.At()].Keys && tree != d.copies[e.At()]
    requires e in d.manifest && Readable(d.manifest, p.provider) && AllMend(Tampered(d, e.At(), tree), p, env)
    ensures var w := Tampered(d, e.At(), tree);
            !Healthy(w, e) && Healthy(Perform(w, ReconcileScript(w, p, env).actions), e)
  {
    var w := Tampered(d, e.At(), tree);
    if Stream(tree) == Stream(d.copies[e.At()]) {
      SameNamesAreToldApart(d.copies[e.At()], tree);
    }
    ReconcileHeals(w, p, env, env);
  }

  /** In a healthy catalog where one copy has two files or more, some other tree in its place is left there by
      every reconciliation, whatever the sources hold. */
  lemma {:induction false} SomeDriftStays(d: Disk, e: Entry) returns (tree: Content)
    requires e in d.manifest && Healthy(d, e) && forall x :: x in d.manifest ==> Healthy(d, x)
    requires IsTree(d.copies[e.At()]) && |d.copies[e.At()]| >= 2
    ensures IsTree(tree) && tree != d.copies[e.At()]
    ensures forall p: Platform, env: Env :: ReconcileScript(Tampered(d, e.At(), tree), p, env).actions == []
  {
    tree := ManyCollide(d.copies[e.At()]);
    var w := Tampered(d, e.At(), tree);
    forall x | x in w.manifest ensures Healthy(w, x) {
      if x.At() == e.At() {
        TamperedHealthIff(d, x, tree);
      }
    }
    forall p: Platform, env: Env ensures ReconcileScript(w, p, env).actions == [] {
      HealthyIsQuiet(w, w.manifest, p, env);
    }
  }
}
