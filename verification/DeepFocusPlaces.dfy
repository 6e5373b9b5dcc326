/** Exactly which places a deep-focus selection opens, for writing and for reading. */
module DeepFocusPlaces {
  import opened Wrappers
  import opened PythonText
  import opened DeepFocus
  import opened DeepFocusLaws

  // ----- normalised paths -----------------------------------------------------------

  ghost predicate AllSlashes(s: string) {
    forall i :: 0 <= i < |s| ==> s[i] == '/'
  }

  ghost predicate Stripped(s: string) {
    s != "" ==> !IsSpace(s[0]) && !IsSpace(s[|s| - 1])
  }

  /** With backslashes read as slashes: blank text, the path, slashes, blank text; and not an absolute path. */
  ghost predicate NormalParts(value: string, before: string, path: string, slashes: string, after: string) {
    var s := before + (path + slashes) + after;
    && |s| == |value| && (forall i :: 0 <= i < |s| ==> s[i] == if value[i] == '\\' then '/' else value[i])
    && IsBlank(before) && IsBlank(after) && AllSlashes(slashes) && Stripped(path + slashes)
    && (path == "" ==> slashes == "") && (path != "" ==> path[0] != '/' && path[|path| - 1] != '/')
  }

  ghost predicate NormalizesTo(value: string, path: string) {
    exists before, slashes, after :: NormalParts(value, before, path, slashes, after)
  }

  lemma {:induction false} LStripCut(s: string) returns (before: string)
    ensures s == before + LStrip(s) && IsBlank(before) && (LStrip(s) != "" ==> !IsSpace(LStrip(s)[0]))
  {
    before := "";
    if s != "" && IsSpace(s[0]) {
      var rest := LStripCut(s[1..]);
      before := [s[0]] + rest;
      assert s == [s[0]] + s[1..];
    }
  }

  lemma {:induction false} RStripCut(s: string) returns (after: string)
    ensures s == RStrip(s) + after && IsBlank(after) && (RStrip(s) != "" ==> !IsSpace(RStrip(s)[|RStrip(s)| - 1]))
  {
    after := "";
    if s != "" && IsSpace(s[|s| - 1]) {
      var rest := RStripCut(s[..|s| - 1]);
      after := rest + [s[|s| - 1]];
      LastBehind(s, RStrip(s), rest);
    }
  }

  /** A text whose front is cut in two is cut there itself, with its last character behind. */
  lemma LastBehind(s: string, front: string, tail: string)
    requires s != "" && s[..|s| - 1] == front + tail
    ensures s == front + (tail + [s[|s| - 1]])
  {
    assert s == s[..|s| - 1] + [s[|s| - 1]];
  }

  lemma {:induction false} RStripCharCut(s: string, c: char) returns (tail: string)
    ensures s == RStripChar(s, c) + tail && forall i :: 0 <= i < |tail| ==> tail[i] == c
    ensures RStripChar(s, c) != "" ==> RStripChar(s, c)[|RStripChar(s, c)| - 1] != c
  {
    tail := "";
    if s != "" && s[|s| - 1] == c {
      var rest := RStripCharCut(s[..|s| - 1], c);
      tail := rest + [c];
      LastBehind(s, RStripChar(s, c), rest);
    }
  }

  lemma {:induction false} LStripOf(before: string, rest: string)
    requires IsBlank(before) && (rest != "" ==> !IsSpace(rest[0]))
    ensures LStrip(before + rest) == rest
  {
    if before == "" {
      assert before + rest == rest;
    } else {
      assert before[0] in before;
      assert (before + rest)[1..] == before[1..] + rest;
      LStripOf(before[1..], rest);
    }
  }

  lemma {:induction false} RStripOf(rest: string, after: string)
    requires IsBlank(after) && (rest != "" ==> !IsSpace(rest[|rest| - 1]))
    ensures RStrip(rest + after) == rest
  {
    if after == "" {
      assert rest + after == rest;
    } else {
      assert after[|after| - 1] in after;
      assert (rest + after)[..|rest + after| - 1] == rest + after[..|after| - 1];
      RStripOf(rest, after[..|after| - 1]);
    }
  }

  lemma {:induction false} RStripCharOf(rest: string, tail: string, c: char)
    requires (forall i :: 0 <= i < |tail| ==> tail[i] == c) && (rest != "" ==> rest[|rest| - 1] != c)
    ensures RStripChar(rest + tail, c) == rest
  {
    if tail == "" {
      assert rest + tail == rest;
    } else {
      assert (rest + tail)[..|rest + tail| - 1] == rest + tail[..|tail| - 1];
      RStripCharOf(rest, tail[..|tail| - 1], c);
    }
  }

  lemma StripOf(before: string, middle: string, after: string)
    requires IsBlank(before) && IsBlank(after) && Stripped(middle)
    ensures Strip(before + middle + after) == middle
  {
    if middle == "" {
      assert before + middle + after == (before + after) + "";
      LStripOf(before + after, "");
    } else {
      assert before + middle + after == before + (middle + after);
      LStripOf(before, middle + after);
      RStripOf(middle, after);
    }
  }

  /** The normalised path of a value, when it has one. */
  lemma {:induction false} NormalizesToIff(value: string, path: string)
    ensures NormalizeRelativePath(value) == Ok(path) <==> NormalizesTo(value, path)
  {
    var s := ReplaceChar(value, '\\', '/');
    if NormalizeRelativePath(value) == Ok(path) {
      NormalPartsOf(value, path);
    }
    if NormalizesTo(value, path) {
      var before, slashes, after :| NormalParts(value, before, path, slashes, after);
      assert s == before + (path + slashes) + after;
      StripOf(before, path + slashes, after);
      RStripCharOf(path, slashes, '/');
      assert path != "" ==> (path + slashes)[0] == path[0];
    }
  }

  lemma {:induction false} NormalPartsOf(value: string, path: string)
    requires NormalizeRelativePath(value) == Ok(path)
    ensures NormalizesTo(value, path)
  {
    var s := ReplaceChar(value, '\\', '/');
    var before, middle, after := StripCut(s);
    var slashes := RStripCharCut(middle, '/');
    FirstOfParts(middle, path, slashes);
    assert NormalParts(value, before, path, slashes, after);
  }

  lemma StripCut(s: string) returns (before: string, middle: string, after: string)
    ensures middle == Strip(s) && s == before + middle + after
    ensures IsBlank(before) && IsBlank(after) && Stripped(middle)
  {
    before := LStripCut(s);
    after := RStripCut(LStrip(s));
    middle := Strip(s);
    assert LStrip(s) == middle + after;
    assert middle != "" ==> middle[0] == LStrip(s)[0];
  }

  lemma FirstOfParts(middle: string, path: string, slashes: string)
    requires middle == path + slashes
    ensures path != "" ==> path[0] == middle[0]
    ensures path == "" ==> middle == slashes
  {}

  // ----- parents --------------------------------------------------------------------

  /** The directory that holds a path: everything in front of the last slash, if there is one. */
  ghost predicate DirectoryOf(dir: string, path: string) {
    || (dir == "" && '/' !in path)
    || exists name :: '/' !in name && path == dir + "/" + name
  }

  /** The path ends in a blank name behind `front`. */
  ghost predicate BlankBehind(path: string, front: string, slashes: string, blank: string) {
    && path == front + slashes + blank && AllSlashes(slashes) && slashes != "" && IsBlank(blank)
    && (front != "" ==> front[|front| - 1] != '/')
  }

  ghost predicate EndsInBlank(path: string) {
    exists front, slashes, blank :: BlankBehind(path, front, slashes, blank)
  }

  /** The directory that holds the path - or, of a path whose last name is blank, the directory of what is left
      without that name. */
  ghost predicate ParentOf(dir: string, path: string) {
    || (!EndsInBlank(path) && DirectoryOf(dir, path))
    || exists front, slashes, blank :: BlankBehind(path, front, slashes, blank) && DirectoryOf(dir, front)
  }

  /** What normalising leaves: no slash at either end, and no blank in front. */
  ghost predicate Normal(path: string) {
    path != "" ==> path[0] != '/' && !IsSpace(path[0]) && path[|path| - 1] != '/'
  }

  lemma NormalizedIsNormal(value: string, path: string)
    requires NormalizesTo(value, path)
    ensures Normal(path)
  {
    var before, slashes, after :| NormalParts(value, before, path, slashes, after);
    assert path != "" ==> (path + slashes)[0] == path[0];
  }

  lemma {:induction false} DirectoryByIndex(path: string)
    ensures var slash := LastIndexOf(path, '/'); DirectoryOf(if slash == -1 then "" else path[..slash], path)
  {
    var slash := LastIndexOf(path, '/');
    if slash != -1 {
      var name := path[slash + 1..];
      assert path == path[..slash] + "/" + name;
      forall i | 0 <= i < |name| ensures name[i] != '/' {
        assert name[i] == path[slash + 1 + i];
      }
    }
  }

  lemma SlashIsNoSpace()
    ensures !IsSpace('/')
  {}

  lemma NoBackslash(path: string)
    requires '\\' !in path
    ensures ReplaceChar(path, '\\', '/') == path
  {}

  lemma {:induction false} NormalizedHasNoBackslash(value: string, path: string)
    requires NormalizesTo(value, path)
    ensures '\\' !in path
  {
    var before, slashes, after :| NormalParts(value, before, path, slashes, after);
    var s := before + (path + slashes) + after;
    forall i | 0 <= i < |path| ensures path[i] != '\\' {
      assert path[i] == s[|before| + i];
    }
  }

  /** Normalising a normalised path once more may take a blank name off its end. */
  lemma {:induction false} NormalizedAgain(path: string) returns (m: string, slashes: string, blank: string)
    requires Normal(path) && path != "" && '\\' !in path
    ensures NormalizeRelativePath(path) == Ok(m) && path == m + slashes + blank && m != "" && m[|m| - 1] != '/'
    ensures AllSlashes(slashes) && IsBlank(blank) && (slashes == "" ==> !IsSpace(m[|m| - 1]))
  {
    NoBackslash(path);
    assert LStrip(path) == path;
    blank := RStripCut(path);
    var t := RStrip(path);
    FirstKept(path, t, blank);
    slashes := RStripCharCut(t, '/');
    m := RStripChar(t, '/');
    assert |m| == 0 ==> t == slashes;
  }

  /** The parent that the code computes, which normalises once more, of a normalised path. */
  lemma {:induction false} ParentIs(path: string)
    requires Normal(path) && path != "" && '\\' !in path
    ensures ParentRelativePath(path).Ok? && ParentOf(ParentRelativePath(path).value, path)
  {
    var m, slashes, blank := NormalizedAgain(path);
    DirectoryByIndex(m);
    if slashes != "" {
      assert BlankBehind(path, m, slashes, blank);
    } else {
      assert m + slashes + blank == m + blank;
      NotBlankNamed(path, m, blank);
    }
  }

  lemma FirstKept(path: string, t: string, blank: string)
    requires path != "" && path == t + blank && IsBlank(blank) && !IsSpace(path[0])
    ensures t != "" && t[0] == path[0]
  {
    BlankChars(blank);
    assert |t| == 0 ==> path == blank;
  }

  lemma BlankChars(s: string)
    requires IsBlank(s)
    ensures forall i :: 0 <= i < |s| ==> IsSpace(s[i])
  {
    forall i | 0 <= i < |s| ensures IsSpace(s[i]) {
      assert s[i] in s;
    }
  }

  /** Blanks behind a name change neither that it is one nor where it lies. */
  lemma NotBlankNamed(path: string, m: string, blank: string)
    requires path == m + blank && IsBlank(blank) && m != "" && !IsSpace(m[|m| - 1]) && m[|m| - 1] != '/'
    ensures !EndsInBlank(path)
    ensures forall dir :: DirectoryOf(dir, m) ==> DirectoryOf(dir, path)
  {
    SlashIsNoSpace();
    if EndsInBlank(path) {
      var front, slashes, bl :| BlankBehind(path, front, slashes, bl);
      SameEnd(path, m, blank, front + slashes, bl);
    }
    forall dir | DirectoryOf(dir, m) ensures DirectoryOf(dir, path) {
      BlankHasNoSlash(blank);
      if dir == "" && '/' !in m {
      } else {
        var name :| '/' !in name && m == dir + "/" + name;
        assert path == dir + "/" + (name + blank);
      }
    }
  }

  lemma BlankHasNoSlash(blank: string)
    requires IsBlank(blank)
    ensures '/' !in blank
  {
    SlashIsNoSpace();
  }

  /** A text ends in exactly one way in a non-blank character followed by blanks. */
  lemma SameEnd(s: string, a: string, x: string, b: string, y: string)
    requires s == a + x == b + y && IsBlank(x) && IsBlank(y)
    requires a != "" && b != "" && !IsSpace(a[|a| - 1]) && !IsSpace(b[|b| - 1])
    ensures a == b && x == y
  {
    BlankChars(x);
    BlankChars(y);
    assert s[|a| - 1] == a[|a| - 1] && s[|b| - 1] == b[|b| - 1];
    assert forall i :: |a| <= i < |s| ==> s[i] == x[i - |a|];
    assert forall i :: |b| <= i < |s| ==> s[i] == y[i - |b|];
    assert a == s[..|a|] && b == s[..|b|];
  }

  lemma {:induction false} DirectoryIsUnique(dir: string, path: string)
    requires DirectoryOf(dir, path)
    ensures var slash := LastIndexOf(path, '/'); dir == if slash == -1 then "" else path[..slash]
  {
    var slash := LastIndexOf(path, '/');
    if name :| '/' !in name && path == dir + "/" + name {
      assert path[|dir|] == '/';
      assert forall i :: |dir| < i < |path| ==> path[i] == name[i - |dir| - 1];
      assert slash == |dir|;
    }
  }

  lemma {:induction false} BlankBehindIsUnique(path: string, front: string, slashes: string, blank: string)
    requires BlankBehind(path, front, slashes, blank)
    ensures var slash := LastIndexOf(path, '/');
            slash == |front| + |slashes| - 1 && front == RStripChar(path[..slash + 1], '/')
  {
    var slash := LastIndexOf(path, '/');
    var body := front + slashes;
    BlankHasNoSlash(blank);
    assert path[|body| - 1] == body[|body| - 1] == slashes[|slashes| - 1];
    assert forall i :: |body| <= i < |path| ==> path[i] == blank[i - |body|];
    assert slash == |body| - 1;
    assert path[..slash + 1] == body;
    RStripCharOf(front, slashes, '/');
  }

  lemma {:induction false} ParentIsUnique(x: string, y: string, path: string)
    requires ParentOf(x, path) && ParentOf(y, path)
    ensures x == y
  {
    if EndsInBlank(path) {
      var a, s, b :| BlankBehind(path, a, s, b) && DirectoryOf(x, a);
      var c, t, d :| BlankBehind(path, c, t, d) && DirectoryOf(y, c);
      BlankBehindIsUnique(path, a, s, b);
      BlankBehindIsUnique(path, c, t, d);
      DirectoryIsUnique(x, a);
      DirectoryIsUnique(y, a);
    } else {
      assert forall a, s, b :: !BlankBehind(path, a, s, b);
      DirectoryIsUnique(x, path);
      DirectoryIsUnique(y, path);
    }
  }

  // ----- the places of a selection -----------------------------------------------------

  /** The selected targets; with none, the focus path is the one target. */
  ghost predicate FocusTargets(ps: seq<PrimaryTarget>, primary: seq<PrimaryTarget>, focusPath: Option<string>,
                               focusKind: Option<Kind>)
  {
    if primary != [] then ps == primary
    else
      && |ps| == 1 && ps[0].role == Anchor && ps[0].test.None? && ps[0].support.None?
      && NormalizesTo(focusPath.GetOr(""), ps[0].target.path)
      && ps[0].target == Target(ps[0].target.path, focusKind.GetOr(Directory), None, None, None)
  }

  /** The repository of the first anchor that names one, else that of the first target. */
  ghost predicate AnchorsRepo(ps: seq<PrimaryTarget>, repo: Option<string>) {
    if exists i :: 0 <= i < |ps| && NamesRepo(ps[i]) then
      exists i :: 0 <= i < |ps| && NamesRepo(ps[i]) && repo == ps[i].target.repoLocalPath
                  && forall j :: 0 <= j < i ==> !NamesRepo(ps[j])
    else repo == if ps == [] then None else ps[0].target.repoLocalPath
  }

  ghost predicate NamesRepo(p: PrimaryTarget) {
    p.role == Anchor && p.target.repoLocalPath.Some?
  }

  /** A selected directory, or the parent directory of a selected file; an empty path is the whole repository. */
  ghost predicate PrimaryPlace(k: Key, p: PrimaryTarget) {
    && k.repo == p.target.repoLocalPath.GetOr("") && k.kind == Directory
    && exists path :: NormalizesTo(p.target.path, path) &&
         if path == "" || p.target.kind == Directory then k.path == path && k.reason == SelectedPrimary
         else ParentOf(k.path, path) && k.reason == PrimaryFocusParent
  }

  /** A selected test or support target, in its own repository or else in the given one. */
  ghost predicate TargetPlace(k: Key, t: Target, reason: Reason, otherwise: Option<string>) {
    && NormalizesTo(t.path, k.path) && k.kind == t.kind && k.reason == reason
    && k.repo == (if t.repoLocalPath.Some? then t.repoLocalPath.value else otherwise.GetOr(""))
  }

  ghost predicate WritableOf(k: Key, p: PrimaryTarget) {
    PrimaryPlace(k, p) || (p.test.Some? && TargetPlace(k, p.test.value, ScopedTestTarget, p.target.repoLocalPath))
  }

  ghost predicate ReadonlyOf(k: Key, p: PrimaryTarget) {
    exists i :: 0 <= i < |p.support.GetOr([])| &&
      TargetPlace(k, p.support.GetOr([])[i], ScopedSupportTarget, p.target.repoLocalPath)
  }

  ghost predicate WritablePlace(k: Key, ps: seq<PrimaryTarget>, test: Option<Target>, anchorRepo: Option<string>) {
    || (exists i :: 0 <= i < |ps| && WritableOf(k, ps[i]))
    || (test.Some? && TargetPlace(k, test.value, TestTarget, anchorRepo))
  }

  ghost predicate ReadonlyPlace(k: Key, ps: seq<PrimaryTarget>, support: seq<Target>, anchorRepo: Option<string>) {
    || (exists i :: 0 <= i < |ps| && ReadonlyOf(k, ps[i]))
    || (exists i :: 0 <= i < |support| && TargetPlace(k, support[i], SupportTarget, anchorRepo))
  }

  // ----- the code opens exactly them -----------------------------------------------------

  ghost predicate HasKey(roots: seq<Root>, k: Key) {
    exists i :: 0 <= i < |roots| && KeyOf(roots[i]) == k
  }

  lemma HasKeyConcat(a: seq<Root>, b: seq<Root>, k: Key)
    ensures HasKey(a + b, k) <==> HasKey(a, k) || HasKey(b, k)
  {
    if i :| 0 <= i < |a| && KeyOf(a[i]) == k {
      assert (a + b)[i] == a[i];
    }
    if i :| 0 <= i < |b| && KeyOf(b[i]) == k {
      assert (a + b)[|a| + i] == b[i];
    }
  }

  lemma {:induction false} HasKeyDeduped(roots: seq<Root>, k: Key)
    ensures HasKey(Dedupe(roots), k) <==> HasKey(roots, k)
  {
    DedupeKeys(roots);
    var out := Dedupe(roots);
    assert HasKey(roots, k) <==> k in Keys(roots) by {
      assert forall i :: 0 <= i < |roots| ==> Keys(roots)[i] == KeyOf(roots[i]);
    }
    assert HasKey(out, k) <==> k in Keys(out) by {
      assert forall i :: 0 <= i < |out| ==> Keys(out)[i] == KeyOf(out[i]);
    }
  }

  lemma {:induction false} PrimaryRootIff(p: PrimaryTarget, root: Root, k: Key)
    requires PrimaryRoot(p) == Ok(root)
    ensures KeyOf(root) == k <==> PrimaryPlace(k, p)
  {
    var path := NormalizeRelativePath(p.target.path).value;
    NormalizesToIff(p.target.path, path);
    NormalizedIsNormal(p.target.path, path);
    NormalizedHasNoBackslash(p.target.path, path);
    if path != "" && p.target.kind != Directory {
      ParentIs(path);
    }
    assert PrimaryPlace(KeyOf(root), p);
    if PrimaryPlace(k, p) {
      SamePlace(p, k, KeyOf(root));
    }
  }

  lemma {:induction false} SamePlace(p: PrimaryTarget, x: Key, y: Key)
    requires PrimaryPlace(x, p) && PrimaryPlace(y, p)
    ensures x == y
  {
    var a :| NormalizesTo(p.target.path, a) &&
      if a == "" || p.target.kind == Directory then x.path == a && x.reason == SelectedPrimary
      else ParentOf(x.path, a) && x.reason == PrimaryFocusParent;
    var b :| NormalizesTo(p.target.path, b) &&
      if b == "" || p.target.kind == Directory then y.path == b && y.reason == SelectedPrimary
      else ParentOf(y.path, b) && y.reason == PrimaryFocusParent;
    NormalizesToIff(p.target.path, a);
    NormalizesToIff(p.target.path, b);
    if a != "" && p.target.kind != Directory {
      ParentIsUnique(x.path, y.path, a);
    }
  }

  lemma {:induction false} TargetRootIff(t: Target, reason: Reason, otherwise: Option<string>, root: Root, k: Key)
    requires TargetRoot(t, reason, otherwise) == Ok(root)
    ensures KeyOf(root) == k <==> TargetPlace(k, t, reason, otherwise)
  {
    NormalizesToIff(t.path, root.path);
    NormalizesToIff(t.path, k.path);
  }

  lemma {:induction false} TargetRootsIff(ts: seq<Target>, reason: Reason, otherwise: Option<string>, roots: seq<Root>,
                                          k: Key)
    requires TargetRoots(ts, reason, otherwise) == Ok(roots)
    ensures HasKey(roots, k) <==> exists i :: 0 <= i < |ts| && TargetPlace(k, ts[i], reason, otherwise)
  {
    TargetRootsCover(ts, reason, otherwise, roots);
    forall i | 0 <= i < |ts| ensures KeyOf(roots[i]) == k <==> TargetPlace(k, ts[i], reason, otherwise) {
      TargetRootAt(ts, reason, otherwise, roots, i);
      TargetRootIff(ts[i], reason, otherwise, roots[i], k);
    }
  }

  lemma {:induction false} PrimaryRootsIff(p: PrimaryTarget, roots: Roots, k: Key)
    requires PrimaryRoots(p) == Ok(roots)
    ensures HasKey(roots.writable, k) <==> WritableOf(k, p)
    ensures HasKey(roots.readonly, k) <==> ReadonlyOf(k, p)
  {
    var tests := match p.test case None => [] case Some(t) => [t];
    var root, testRoots := PrimaryRoot(p).value, TargetRoots(tests, ScopedTestTarget, p.target.repoLocalPath).value;
    PrimaryRootIff(p, root, k);
    TargetRootsIff(tests, ScopedTestTarget, p.target.repoLocalPath, testRoots, k);
    TargetRootsIff(p.support.GetOr([]), ScopedSupportTarget, p.target.repoLocalPath, roots.readonly, k);
    HasKeyConcat([root], testRoots, k);
    assert HasKey([root], k) <==> KeyOf(root) == k by {
      assert [root][0] == root;
    }
    assert p.test.Some? ==> tests[0] == p.test.value;
  }

  ghost predicate AnyWritable(k: Key, ps: seq<PrimaryTarget>) {
    exists i :: 0 <= i < |ps| && WritableOf(k, ps[i])
  }

  ghost predicate AnyReadonly(k: Key, ps: seq<PrimaryTarget>) {
    exists i :: 0 <= i < |ps| && ReadonlyOf(k, ps[i])
  }

  lemma AnySnoc(k: Key, ps: seq<PrimaryTarget>)
    requires ps != []
    ensures AnyWritable(k, ps) <==> AnyWritable(k, ps[..|ps| - 1]) || WritableOf(k, ps[|ps| - 1])
    ensures AnyReadonly(k, ps) <==> AnyReadonly(k, ps[..|ps| - 1]) || ReadonlyOf(k, ps[|ps| - 1])
  {
    var n := |ps| - 1;
    assert forall i :: 0 <= i < n ==> ps[..n][i] == ps[i];
  }

  lemma {:induction false} AllPrimaryRootsIff(ps: seq<PrimaryTarget>, roots: Roots, k: Key)
    requires AllPrimaryRoots(ps) == Ok(roots)
    ensures HasKey(roots.writable, k) <==> AnyWritable(k, ps)
    ensures HasKey(roots.readonly, k) <==> AnyReadonly(k, ps)
    decreases |ps|
  {
    if ps != [] {
      var n := |ps| - 1;
      var done, more := AllPrimaryRootsSnoc(ps, roots);
      AllPrimaryRootsIff(ps[..n], done, k);
      PrimaryRootsIff(ps[n], more, k);
      HasKeyConcat(done.writable, more.writable, k);
      HasKeyConcat(done.readonly, more.readonly, k);
      AnySnoc(k, ps);
    }
  }

  lemma {:induction false} FirstAnchorIs(ps: seq<PrimaryTarget>)
    ensures if exists i :: 0 <= i < |ps| && NamesRepo(ps[i])
            then exists i :: 0 <= i < |ps| && NamesRepo(ps[i]) && FirstAnchorRepo(ps) == ps[i].target.repoLocalPath
                             && forall j :: 0 <= j < i ==> !NamesRepo(ps[j])
            else FirstAnchorRepo(ps).None?
  {
    if ps != [] && !NamesRepo(ps[0]) {
      var rest := ps[1..];
      FirstAnchorIs(rest);
      assert forall i :: 0 < i < |ps| ==> ps[i] == rest[i - 1];
      if exists i :: 0 <= i < |rest| && NamesRepo(rest[i]) {
        var i :| 0 <= i < |rest| && NamesRepo(rest[i]) && FirstAnchorRepo(rest) == rest[i].target.repoLocalPath
                 && forall j :: 0 <= j < i ==> !NamesRepo(rest[j]);
        assert NamesRepo(ps[i + 1]) && forall j :: 0 <= j < i + 1 ==> !NamesRepo(ps[j]);
      }
    }
  }

  lemma {:induction false} AnchorRepoIs(ps: seq<PrimaryTarget>)
    ensures AnchorsRepo(ps, AnchorRepo(ps))
  {
    FirstAnchorIs(ps);
  }

  /** A successful derivation opens exactly the places the selection names, nothing less and nothing wider: for writing
      the selected directories, the parent directories of selected files and the test targets, for reading the support
      targets, each in its own repository, else the primary target's, else the anchor's. */
  lemma {:induction false} DerivedRootsAreExact(focusPath: Option<string>, focusKind: Option<Kind>,
                                                primary: seq<PrimaryTarget>, test: Option<Target>, support: seq<Target>,
                                                roots: Roots)
    returns (ps: seq<PrimaryTarget>, anchorRepo: Option<string>)
    requires DeriveRoots(focusPath, focusKind, primary, test, support) == Ok(roots)
    ensures FocusTargets(ps, primary, focusPath, focusKind) && AnchorsRepo(ps, anchorRepo)
    ensures forall k :: HasKey(roots.writable, k) <==> WritablePlace(k, ps, test, anchorRepo)
    ensures forall k :: HasKey(roots.readonly, k) <==> ReadonlyPlace(k, ps, support, anchorRepo)
  {
    var scoped, tests, own;
    ps, scoped, tests, own := DerivedParts(focusPath, focusKind, primary, test, support, roots);
    anchorRepo := AnchorRepo(ps);
    AnchorRepoIs(ps);
    NormalizesToIff(focusPath.GetOr(""), NormalizeRelativePath(focusPath.GetOr("")).value);
    forall k
      ensures HasKey(roots.writable, k) <==> WritablePlace(k, ps, test, anchorRepo)
      ensures HasKey(roots.readonly, k) <==> ReadonlyPlace(k, ps, support, anchorRepo)
    {
      WritablePlaceIff(ps, scoped, test, own.writable, anchorRepo, k);
      ReadonlyPlaceIff(ps, scoped, support, own.readonly, anchorRepo, k);
    }
  }

  lemma {:induction false} WritablePlaceIff(ps: seq<PrimaryTarget>, scoped: Roots, test: Option<Target>, own: seq<Root>,
                                            anchorRepo: Option<string>, k: Key)
    requires AllPrimaryRoots(ps) == Ok(scoped)
    requires TargetRoots(match test case None => [] case Some(t) => [t], TestTarget, anchorRepo) == Ok(own)
    ensures HasKey(Dedupe(scoped.writable + own), k) <==> WritablePlace(k, ps, test, anchorRepo)
  {
    var tests := match test case None => [] case Some(t) => [t];
    AllPrimaryRootsIff(ps, scoped, k);
    HasKeyDeduped(scoped.writable + own, k);
    HasKeyConcat(scoped.writable, own, k);
    TargetRootsIff(tests, TestTarget, anchorRepo, own, k);
    assert test.Some? ==> tests[0] == test.value;
  }

  lemma {:induction false} ReadonlyPlaceIff(ps: seq<PrimaryTarget>, scoped: Roots, support: seq<Target>, own: seq<Root>,
                                            anchorRepo: Option<string>, k: Key)
    requires AllPrimaryRoots(ps) == Ok(scoped) && TargetRoots(support, SupportTarget, anchorRepo) == Ok(own)
    ensures HasKey(Dedupe(scoped.readonly + own), k) <==> ReadonlyPlace(k, ps, support, anchorRepo)
  {
    AllPrimaryRootsIff(ps, scoped, k);
    HasKeyDeduped(scoped.readonly + own, k);
    HasKeyConcat(scoped.readonly, own, k);
    TargetRootsIff(support, SupportTarget, anchorRepo, own, k);
  }

  /** The root of a selected file is the directory that holds it, exactly when its name is not blank. */
  lemma {:induction false} FileParentIff(p: PrimaryTarget, root: Root, path: string)
    requires PrimaryRoot(p) == Ok(root) && p.target.kind == File && NormalizesTo(p.target.path, path) && path != ""
    ensures DirectoryOf(root.path, path) <==> !EndsInBlank(path)
  {
    PrimaryRootIff(p, root, KeyOf(root));
    NormalizesToIff(p.target.path, path);
    var other :| NormalizesTo(p.target.path, other) && ParentOf(root.path, other);
    NormalizesToIff(p.target.path, other);
    if EndsInBlank(path) {
      var front, slashes, blank :| BlankBehind(path, front, slashes, blank) && DirectoryOf(root.path, front);
      NormalizedIsNormal(p.target.path, path);
      BlankParentIsWider(path, root.path, front, slashes, blank);
    }
  }

  lemma BlankParentIsWider(path: string, dir: string, front: string, slashes: string, blank: string)
    requires Normal(path) && path != "" && BlankBehind(path, front, slashes, blank) && DirectoryOf(dir, front)
    ensures !DirectoryOf(dir, path)
  {
    BlankBehindIsUnique(path, front, slashes, blank);
    DirectoryIsUnique(dir, front);
    assert |front| == 0 ==> path == slashes + blank;
    assert |dir| < LastIndexOf(path, '/');
    if DirectoryOf(dir, path) {
      DirectoryIsUnique(dir, path);
    }
  }

  /** A path in a place: the place itself, or below it when it is a directory. */
  ghost predicate InPlace(path: string, k: Key) {
    path == k.path || (k.kind == Directory && (k.path == "" || k.path + "/" <= path))
  }

  lemma WithinIsInPlace(path: string, root: Root)
    ensures Within(path, root) <==> InPlace(path, KeyOf(root))
  {
    assert |root.path| < |path| && root.path <= path && path[|root.path|] == '/' ==>
      path == root.path + "/" + path[|root.path| + 1..];
  }

  ghost predicate MayWrite(roots: seq<Root>, repo: string, path: string) {
    exists i :: 0 <= i < |roots| && KeyOf(roots[i]).repo == repo && Within(path, roots[i])
  }

  ghost predicate Selected(ps: seq<PrimaryTarget>, test: Option<Target>, anchorRepo: Option<string>, repo: string,
                           path: string)
  {
    exists k :: WritablePlace(k, ps, test, anchorRepo) && k.repo == repo && InPlace(path, k)
  }

  lemma {:induction false} MayWriteIff(ws: seq<Root>, ps: seq<PrimaryTarget>, test: Option<Target>,
                                       anchorRepo: Option<string>, repo: string, path: string)
    requires forall k :: HasKey(ws, k) <==> WritablePlace(k, ps, test, anchorRepo)
    ensures MayWrite(ws, repo, path) <==> Selected(ps, test, anchorRepo, repo, path)
  {
    if MayWrite(ws, repo, path) {
      var i :| 0 <= i < |ws| && KeyOf(ws[i]).repo == repo && Within(path, ws[i]);
      WithinIsInPlace(path, ws[i]);
      assert HasKey(ws, KeyOf(ws[i]));
    }
    if Selected(ps, test, anchorRepo, repo, path) {
      var k :| WritablePlace(k, ps, test, anchorRepo) && k.repo == repo && InPlace(path, k);
      assert HasKey(ws, k);
      var i :| 0 <= i < |ws| && KeyOf(ws[i]) == k;
      WithinIsInPlace(path, ws[i]);
    }
  }

  /** A path of a repository may be written exactly when it lies in a place of that repository that the selection
      names. */
  lemma {:induction false} WritableIff(focusPath: Option<string>, focusKind: Option<Kind>, primary: seq<PrimaryTarget>,
                                       test: Option<Target>, support: seq<Target>, roots: Roots)
    returns (ps: seq<PrimaryTarget>, anchorRepo: Option<string>)
    requires DeriveRoots(focusPath, focusKind, primary, test, support) == Ok(roots)
    ensures FocusTargets(ps, primary, focusPath, focusKind) && AnchorsRepo(ps, anchorRepo)
    ensures forall repo, path :: MayWrite(roots.writable, repo, path) <==> Selected(ps, test, anchorRepo, repo, path)
  {
    ps, anchorRepo := DerivedRootsAreExact(focusPath, focusKind, primary, test, support, roots);
    forall repo, path
      ensures MayWrite(roots.writable, repo, path) <==> Selected(ps, test, anchorRepo, repo, path)
    {
      MayWriteIff(roots.writable, ps, test, anchorRepo, repo, path);
    }
  }

  /** A file with a blank name: normalising leaves "x/ ", and normalising that once more leaves "x". */
  lemma BlankNameOpensTheRepository()
    ensures var p := PrimaryTarget(Target("x/ /", File, None, None, None), Anchor, None, None);
            && PrimaryRoot(p).Ok? && PrimaryRoot(p).value.path == ""
            && NormalizesTo("x/ /", "x/ ") && DirectoryOf("x", "x/ ")
  {
    BlankNameNormalized();
    assert "x/ " == "x" + "/" + " " && '/' !in " ";
    assert LastIndexOf("x", '/') == -1;
  }

  lemma BlankNameNormalized()
    ensures NormalizesTo("x/ /", "x/ ") && NormalizeRelativePath("x/ /") == Ok("x/ ")
    ensures NormalizeRelativePath("x/ ") == Ok("x")
  {
    assert NormalParts("x/ /", "", "x/ ", "/", "");
    NormalizesToIff("x/ /", "x/ ");
    assert NormalParts("x/ ", "", "x", "/", " ");
    NormalizesToIff("x/ ", "x");
  }
}
