/** What the digest of a directory tree is taken of, and which trees it can tell apart. */
module ExtensionDigest {
  import opened ExtensionAssignments
  import opened TextSearch

  /** File paths relative to the tree's root, and their bytes. */
  type Files = map<string, string>

  // ----- an order on paths ------------------------------------------------------

  lemma {:induction false} LeqIsAntisymmetric(a: string, b: string)
    requires Leq(a, b) && Leq(b, a)
    ensures a == b
  {
    if a != "" {
      LeqIsAntisymmetric(a[1..], b[1..]);
      assert a == [a[0]] + a[1..] && b == [b[0]] + b[1..];
    }
  }

  lemma {:induction false} LeqIsTransitive(a: string, b: string, c: string)
    requires Leq(a, b) && Leq(b, c)
    ensures Leq(a, c)
  {
    if a != "" && a[0] == c[0] {
      LeqIsTransitive(a[1..], b[1..], c[1..]);
    }
  }

  predicate IsLeast(keys: set<string>, p: string) {
    p in keys && forall q :: q in keys ==> Leq(p, q)
  }

  lemma {:induction false} LeastExists(keys: set<string>)
    requires keys != {}
    ensures exists p :: IsLeast(keys, p)
  {
    var k :| k in keys;
    LeqIsTotal(k, k);
    var rest := keys - {k};
    assert forall q :: q in keys ==> q == k || q in rest;
    if rest == {} {
      assert IsLeast(keys, k);
    } else {
      LeastExists(rest);
      var m :| IsLeast(rest, m);
      LeqIsTotal(k, m);
      if Leq(k, m) {
        LessThanLeast(rest, m, k);
        assert IsLeast(keys, k);
      } else {
        assert IsLeast(keys, m);
      }
    }
  }

  lemma {:induction false} LessThanLeast(keys: set<string>, m: string, k: string)
    requires IsLeast(keys, m) && Leq(k, m)
    ensures forall q :: q in keys ==> Leq(k, q)
  {
    forall q | q in keys ensures Leq(k, q) {
      LeqIsTransitive(k, m, q);
    }
  }

  /** The least path is the only one with nothing before it. */
  lemma LeastIsUnique(keys: set<string>, p: string, q: string)
    requires IsLeast(keys, p) && IsLeast(keys, q)
    ensures p == q
  {
    LeqIsAntisymmetric(p, q);
  }

  function Least(keys: set<string>): (p: string)
    requires keys != {}
    ensures IsLeast(keys, p)
  {
    LeastExists(keys);
    assert forall p, q | IsLeast(keys, p) && IsLeast(keys, q) :: p == q by {
      forall p, q | IsLeast(keys, p) && IsLeast(keys, q) ensures p == q {
        LeastIsUnique(keys, p, q);
      }
    }
    var p :| p in keys && IsLeast(keys, p);
    p
  }

  // ----- the stream -------------------------------------------------------------

  /** In path order: the path, a NUL, and the bytes of each file; no length is fed. */
  function Stream(t: Files): string {
    if t == map[] then ""
    else
      var p := Least(t.Keys);
      p + "\0" + t[p] + Stream(t - {p})
  }

  method ComputeSourceDigest(t: Files) returns (stream: string)
    ensures stream == Stream(t)
  {
    stream := "";
    var rest := t;
    while rest != map[]
      invariant stream + Stream(rest) == Stream(t)
      decreases |rest|
    {
      var p := Least(rest.Keys);
      stream := stream + (p + "\0" + rest[p]);
      rest := rest - {p};
    }
  }

  /** A relative path: components between single slashes, none of them empty or a dot directory, and no NUL. */
  predicate IsPath(p: string) {
    && p != "" && '\0' !in p
    && Find("/" + p + "/", "//", 0) == -1 && Find("/" + p + "/", "/./", 0) == -1 && Find("/" + p + "/", "/../", 0) == -1
  }

  /** The files of a directory: every name is a path, and no file is also a directory of another. */
  ghost predicate IsTree(t: Files) {
    (forall p :: p in t ==> IsPath(p)) && (forall p, q :: p in t && q in t ==> !(p + "/" <= q))
  }

  /** The bytes could as well be a shorter file and a second one behind it: a later path stands in front of a NUL. */
  ghost predicate SplitsAt(p: string, bytes: string, i: nat, j: nat) {
    && i <= j < |bytes| && bytes[j] == '\0'
    && IsPath(bytes[i..j]) && Leq(p, bytes[i..j]) && bytes[i..j] != p && !(p + "/" <= bytes[i..j])
  }

  ghost predicate Splits(p: string, bytes: string) {
    exists i: nat, j: nat :: SplitsAt(p, bytes, i, j)
  }

  /** The digest belongs to this tree alone. */
  ghost predicate Identified(t: Files) {
    t == map[] || exists p :: t.Keys == {p} && !Splits(p, t[p])
  }

  lemma {:induction false} FirstNul(a: string, x: string, b: string, y: string)
    requires '\0' !in a && '\0' !in b && a + "\0" + x == b + "\0" + y
    ensures a == b && x == y
  {
    var s := a + "\0" + x;
    assert s[|a|] == '\0' && s[|b|] == '\0';
    assert |a| == |b| by {
      assert forall i :: 0 <= i < |a| ==> s[i] == a[i];
      assert s == b + "\0" + y;
      assert forall i :: 0 <= i < |b| ==> s[i] == b[i];
    }
    assert s[..|a|] == a && s[..|a|] == b;
    assert s[|a| + 1..] == x && s[|a| + 1..] == y;
  }

  lemma StreamOfOne(p: string, bytes: string)
    ensures Stream(map[p := bytes]) == p + "\0" + bytes
  {
    var t := map[p := bytes];
    assert t.Keys == {p} && t - {p} == map[];
    assert Stream(map[]) == "";
  }

  lemma {:induction false} StreamOfTwo(p: string, first: string, q: string, second: string)
    requires Leq(p, q) && p != q
    ensures Stream(map[p := first, q := second]) == p + "\0" + (first + (q + "\0" + second))
  {
    var t := map[p := first, q := second];
    LeqIsTotal(p, p);
    LeastIsUnique(t.Keys, p, Least(t.Keys));
    assert t - {p} == map[q := second];
    StreamOfOne(q, second);
  }

  /** A stream begins with the tree's first path. */
  lemma {:induction false} StreamSplits(t: Files)
    requires t != map[]
    ensures var p := Least(t.Keys); Stream(t) == p + "\0" + (t[p] + Stream(t - {p}))
  {}

  /** All files from the first on, read as one. */
  lemma {:induction false} ManyCollide(t: Files) returns (u: Files)
    requires IsTree(t) && |t| >= 2
    ensures IsTree(u) && u != t && Stream(u) == Stream(t)
  {
    var p := Least(t.Keys);
    u := map[p := t[p] + Stream(t - {p})];
    StreamOfOne(p, u[p]);
    StreamSplits(t);
    assert |u| == 1;
  }

  lemma SplitCollides(p: string, bytes: string) returns (u: Files)
    requires IsPath(p) && Splits(p, bytes)
    ensures IsTree(u) && u != map[p := bytes] && Stream(u) == Stream(map[p := bytes])
  {
    var i: nat, j: nat :| SplitsAt(p, bytes, i, j);
    var q := bytes[i..j];
    u := map[p := bytes[..i], q := bytes[j + 1..]];
    StreamOfTwo(p, bytes[..i], q, bytes[j + 1..]);
    StreamOfOne(p, bytes);
    CutAtNul(bytes, i, j);
    TwoFiles(p, bytes[..i], q, bytes[j + 1..]);
  }

  lemma CutAtNul(bytes: string, i: nat, j: nat)
    requires i <= j < |bytes| && bytes[j] == '\0'
    ensures bytes[..i] + (bytes[i..j] + "\0" + bytes[j + 1..]) == bytes
  {}

  lemma {:induction false} TwoFiles(p: string, first: string, q: string, second: string)
    requires IsPath(p) && IsPath(q) && Leq(p, q) && p != q && !(p + "/" <= q)
    ensures IsTree(map[p := first, q := second]) && forall bytes :: map[p := first, q := second] != map[p := bytes]
  {
    LaterIsNoPrefix(p, q);
    assert q in map[p := first, q := second];
  }

  lemma {:induction false} LaterIsNoPrefix(p: string, q: string)
    requires Leq(p, q) && p != q
    ensures !(q + "/" <= p) && !(q + "/" <= q) && !(p + "/" <= p)
  {
    if q + "/" <= p {
      PrefixIsLess(q, p);
      LeqIsAntisymmetric(p, q);
    }
  }

  lemma {:induction false} PrefixIsLess(a: string, b: string)
    requires a <= b
    ensures Leq(a, b)
  {
    if a != "" {
      assert a[1..] <= b[1..];
      PrefixIsLess(a[1..], b[1..]);
    }
  }

  lemma LastFile(u: Files, p: string)
    requires p in u && u - {p} == map[]
    ensures u == map[p := u[p]] && u[p] + Stream(u - {p}) == u[p]
  {
    assert u == (u - {p})[p := u[p]];
  }

  /** Any other reading of a single file's stream splits its bytes. */
  lemma {:induction false} OtherReadingSplits(p: string, bytes: string, u: Files)
    requires IsTree(map[p := bytes]) && IsTree(u)
    requires u != map[p := bytes] && Stream(u) == Stream(map[p := bytes])
    ensures Splits(p, bytes)
  {
    StreamOfOne(p, bytes);
    assert p in map[p := bytes];
    assert u != map[] by {
      assert Stream(map[]) == "";
    }
    var first := Least(u.Keys);
    StreamSplits(u);
    FirstNul(first, u[first] + Stream(u - {first}), p, bytes);
    if u - {p} == map[] {
      LastFile(u, p);
    } else {
      SecondFileSplits(p, bytes, u);
    }
  }

  lemma SecondFileSplits(p: string, bytes: string, u: Files)
    requires IsTree(u) && p in u && Least(u.Keys) == p && u - {p} != map[] && bytes == u[p] + Stream(u - {p})
    ensures Splits(p, bytes)
  {
    var rest := u - {p};
    var q := Least(rest.Keys);
    StreamSplits(rest);
    SecondName(bytes, u[p], q, rest[q] + Stream(rest - {q}));
    assert q in rest && q in u && q != p;
    assert SplitsAt(p, bytes, |u[p]|, |u[p]| + |q|);
  }

  lemma SecondName(bytes: string, first: string, q: string, more: string)
    requires bytes == first + (q + "\0" + more)
    ensures |first| + |q| < |bytes| && bytes[|first|..|first| + |q|] == q && bytes[|first| + |q|] == '\0'
  {}

  /** No other tree has the same digest exactly when there is no file, or a single one whose bytes do not split. */
  lemma {:induction false} DigestIdentifiesIff(t: Files)
    requires IsTree(t)
    ensures (forall u: Files :: IsTree(u) && Stream(u) == Stream(t) ==> u == t) <==> Identified(t)
  {
    if t == map[] {
      forall u: Files | IsTree(u) && Stream(u) == Stream(t) ensures u == t {
        if u != map[] {
          StreamSplits(u);
        }
      }
    } else if |t| >= 2 {
      var u := ManyCollide(t);
    } else {
      var p := Least(t.Keys);
      OnlyKey(t, p);
      if Splits(p, t[p]) {
        var u := SplitCollides(p, t[p]);
      } else {
        forall u: Files | IsTree(u) && Stream(u) == Stream(t) ensures u == t {
          if u != t {
            OtherReadingSplits(p, t[p], u);
          }
        }
      }
    }
  }

  lemma OnlyKey(t: Files, p: string)
    requires |t| == 1 && p in t
    ensures t.Keys == {p} && t == map[p := t[p]]
  {
    assert |t.Keys - {p}| == 0;
    assert t.Keys == {p};
  }

  // ----- edits that keep the names ---------------------------------------------------

  function Nuls(s: string): nat {
    if s == "" then 0 else (if s[0] == '\0' then 1 else 0) + Nuls(s[1..])
  }

  lemma {:induction false} NulsConcat(a: string, b: string)
    ensures Nuls(a + b) == Nuls(a) + Nuls(b)
  {
    if a == "" {
      assert a + b == b;
    } else {
      assert (a + b)[1..] == a[1..] + b;
      NulsConcat(a[1..], b);
    }
  }

  lemma {:induction false} NoNuls(s: string)
    ensures Nuls(s) == 0 <==> '\0' !in s
  {
    if s != "" {
      NoNuls(s[1..]);
      assert s == [s[0]] + s[1..];
    }
  }

  ghost predicate IsText(t: Files) {
    forall p :: p in t ==> '\0' !in t[p]
  }

  lemma {:induction false} FileNuls(p: string, bytes: string, rest: string)
    requires '\0' !in p
    ensures Nuls(p + "\0" + (bytes + rest)) == 1 + Nuls(bytes) + Nuls(rest)
  {
    NoNuls(p);
    NulsConcat(p + "\0", bytes + rest);
    NulsConcat(p, "\0");
    NulsConcat(bytes, rest);
  }

  /** A stream holds one NUL for each file, and those in the files. */
  lemma {:induction false} StreamNuls(t: Files)
    requires IsTree(t)
    ensures Nuls(Stream(t)) >= |t| && (Nuls(Stream(t)) == |t| <==> IsText(t))
    decreases |t|
  {
    if t != map[] {
      var p := Least(t.Keys);
      var rest := t - {p};
      StreamSplits(t);
      FileNuls(p, t[p], Stream(rest));
      NoNuls(t[p]);
      StreamNuls(rest);
      TextOf(t, p);
    }
  }

  lemma TextOf(t: Files, p: string)
    requires p in t
    ensures IsText(t) <==> '\0' !in t[p] && IsText(t - {p})
    ensures |t - {p}| == |t| - 1
  {
    var rest := t - {p};
    assert forall q :: q in t <==> q == p || q in rest;
    assert t.Keys == rest.Keys + {p};
  }

  /** Editing text files under the same names always changes the digest, whatever is written into them. */
  lemma {:induction false} SameNamesAreToldApart(t: Files, u: Files)
    requires IsTree(t) && IsTree(u) && t.Keys == u.Keys && IsText(t)
    requires Stream(t) == Stream(u)
    ensures t == u
  {
    StreamNuls(t);
    StreamNuls(u);
    assert |t| == |t.Keys| && |u| == |u.Keys|;
    TextsAreToldApart(t, u);
  }

  lemma {:induction false} TextsAreToldApart(t: Files, u: Files)
    requires IsTree(t) && IsTree(u) && t.Keys == u.Keys && IsText(t) && IsText(u)
    requires Stream(t) == Stream(u)
    ensures t == u
    decreases |t|
  {
    if t != map[] {
      var p := Least(t.Keys);
      var t', u' := t - {p}, u - {p};
      StreamSplits(t);
      StreamSplits(u);
      FirstNul(p, t[p] + Stream(t'), p, u[p] + Stream(u'));
      TextOf(t, p);
      TextOf(u, p);
      FirstFileAgrees(t[p], t', u[p], u');
      TextsAreToldApart(t', u');
      SameRest(t, u, p);
    }
  }

  lemma SameRest(t: Files, u: Files, p: string)
    requires p in t && p in u && t[p] == u[p] && t - {p} == u - {p}
    ensures t == u
  {
    assert t == (t - {p})[p := t[p]] && u == (u - {p})[p := u[p]];
  }

  lemma {:induction false} FirstFileAgrees(x: string, t: Files, y: string, u: Files)
    requires '\0' !in x && '\0' !in y && x + Stream(t) == y + Stream(u)
    requires IsTree(t) && t.Keys == u.Keys
    ensures x == y && Stream(t) == Stream(u)
  {
    if t == map[] {
      assert u == map[];
      assert x + "" == x && y + "" == y;
    } else {
      var q := Least(t.Keys);
      StreamSplits(t);
      StreamSplits(u);
      CutBehind(x, y, q, t[q] + Stream(t - {q}), u[q] + Stream(u - {q}));
    }
  }

  lemma CutBehind(x: string, y: string, q: string, a: string, b: string)
    requires '\0' !in x && '\0' !in y && '\0' !in q && x + (q + "\0" + a) == y + (q + "\0" + b)
    ensures x == y && q + "\0" + a == q + "\0" + b
  {
    assert x + (q + "\0" + a) == (x + q) + "\0" + a;
    assert y + (q + "\0" + b) == (y + q) + "\0" + b;
    FirstNul(x + q, a, y + q, b);
    assert (x + q)[..|x|] == x && (y + q)[..|y|] == y;
  }

  // ----- trees the digest confuses ------------------------------------------------------

  /** A second file can be read as part of the first one. */
  lemma SecondFileIsSwallowed()
    ensures Stream(map["a" := "x", "b" := "y"]) == Stream(map["a" := "xb\0y"])
  {
    StreamOfTwo("a", "x", "b", "y");
    StreamOfOne("a", "xb\0y");
    assert "x" + ("b" + "\0" + "y") == "xb\0y";
  }

  /** Even among text files, bytes can move from the end of one file into the next one's name. */
  lemma RenamedFileIsConfused()
    ensures Stream(map["a" := "x", "b" := "y"]) == Stream(map["a" := "", "xb" := "y"])
  {
    StreamOfTwo("a", "x", "b", "y");
    StreamOfTwo("a", "", "xb", "y");
    assert "x" + ("b" + "\0" + "y") == "" + ("xb" + "\0" + "y");
  }
}
