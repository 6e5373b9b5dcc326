/** The pieces of JavaScript's String the models share. */
module JsText {
  /** The characters trim() removes. */
  predicate IsTrimmed(c: char) {
    var n := c as int;
    || 0x09 <= n <= 0x0D || n == 0x20 || n == 0xA0 || n == 0x1680 || 0x2000 <= n <= 0x200A
    || n == 0x2028 || n == 0x2029 || n == 0x202F || n == 0x205F || n == 0x3000 || n == 0xFEFF
  }

  function TrimStart(s: string): string {
    if s != "" && IsTrimmed(s[0]) then TrimStart(s[1..]) else s
  }

  function TrimEnd(s: string): string {
    if s != "" && IsTrimmed(s[|s| - 1]) then TrimEnd(s[..|s| - 1]) else s
  }

  function Trim(s: string): string {
    TrimEnd(TrimStart(s))
  }

  /** trim() would leave nothing. */
  predicate IsBlank(s: string) {
    forall c :: c in s ==> IsTrimmed(c)
  }

  lemma {:induction false} StartKeepsMark(s: string, c: char)
    requires c in s && !IsTrimmed(c)
    ensures c in TrimStart(s)
  {
    if IsTrimmed(s[0]) {
      assert c in s[1..];
      StartKeepsMark(s[1..], c);
    }
  }

  lemma {:induction false} EndKeepsMark(s: string, c: char)
    requires c in s && !IsTrimmed(c)
    ensures c in TrimEnd(s)
  {
    var n := |s| - 1;
    if IsTrimmed(s[n]) {
      assert c in s[..n];
      EndKeepsMark(s[..n], c);
    }
  }

  /** Trimming never empties a text that says something. */
  lemma TrimKeepsMarks(s: string)
    requires !IsBlank(s)
    ensures !IsBlank(Trim(s))
  {
    var c :| c in s && !IsTrimmed(c);
    StartKeepsMark(s, c);
    EndKeepsMark(TrimStart(s), c);
  }

  /** t is s without the blank text at both ends. */
  ghost predicate Trims(s: string, t: string) {
    && (exists before, after :: s == before + t + after && IsBlank(before) && IsBlank(after))
    && (t != "" ==> !IsTrimmed(t[0]) && !IsTrimmed(t[|t| - 1]))
  }

  lemma {:induction false} StartCut(s: string) returns (before: string)
    ensures s == before + TrimStart(s) && IsBlank(before)
    ensures TrimStart(s) != "" ==> !IsTrimmed(TrimStart(s)[0])
  {
    before := "";
    if s != "" && IsTrimmed(s[0]) {
      var rest := StartCut(s[1..]);
      before := [s[0]] + rest;
      assert s == [s[0]] + s[1..];
    }
  }

  lemma {:induction false} EndCut(s: string) returns (after: string)
    ensures s == TrimEnd(s) + after && IsBlank(after)
    ensures TrimEnd(s) != "" ==> !IsTrimmed(TrimEnd(s)[|TrimEnd(s)| - 1])
  {
    after := "";
    if s != "" && IsTrimmed(s[|s| - 1]) {
      var rest := EndCut(s[..|s| - 1]);
      after := rest + [s[|s| - 1]];
      assert s == s[..|s| - 1] + [s[|s| - 1]];
    }
  }

  lemma TrimSays(s: string)
    ensures Trims(s, Trim(s))
  {
    var before := StartCut(s);
    var after := EndCut(TrimStart(s));
    var t := Trim(s);
    assert TrimStart(s) == t + after;
    assert t != "" ==> t[0] == TrimStart(s)[0];
    assert s == before + t + after;
  }
}
