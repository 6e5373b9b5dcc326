/** What replacing a managed section means for a document read line by line. */
module SectionLines {
  import opened TextSearch
  import opened ManagedSection

  /** A line that is the heading and nothing else. */
  predicate TitledAt(s: string, heading: string, i: int) {
    StartsLine(s, i) && At(s, heading, i) && (i + |heading| == |s| || s[i + |heading|] == '\n')
  }

  function NextHeadingLine(s: string, i: nat): (n: nat)
    requires i <= |s|
    ensures i <= n <= |s| && (n < |s| ==> HeadingLineAt(s, n))
    ensures forall j :: i <= j < n ==> !HeadingLineAt(s, j)
    decreases |s| - i
  {
    if i == |s| || HeadingLineAt(s, i) then i else NextHeadingLine(s, i + 1)
  }

  /** The first line titled `heading`, or the length of the document. */
  function FirstTitle(s: string, heading: string, i: nat): (n: nat)
    requires i <= |s| && heading != ""
    ensures i <= n <= |s| && (n < |s| ==> TitledAt(s, heading, n))
    ensures forall j :: i <= j < n ==> !TitledAt(s, heading, j)
    decreases |s| - i
  {
    if i == |s| || TitledAt(s, heading, i) then i else FirstTitle(s, heading, i + 1)
  }

  /** The document cut in front of every level-two heading line: a preamble, if any, and the sections. */
  function Pieces(s: string): seq<string> {
    if s == "" then []
    else
      var n := NextHeadingLine(s, 1);
      [s[..n]] + Pieces(s[n..])
  }

  /** A managed section; the newline in front of a heading that follows it belongs to it. */
  function NewSection(heading: string, body: string, last: bool): string {
    heading + "\n" + ("\n" + body + "\n") + (if last then "" else "\n")
  }

  /** The documented replacement: the section runs from its heading line to the next heading line. */
  function Documented(content: string, heading: string, body: string): string
    requires heading != ""
  {
    var start := FirstTitle(content, heading, 0);
    if start == |content| then Opening(content) + heading + "\n" + ("\n" + body + "\n")
    else
      var next := NextHeadingLine(content, start + 1);
      content[..start] + NewSection(heading, body, next == |content|) + content[next..]
  }

  /** What a caller can check beforehand: the first marker begins a line and no heading line follows it
      at once; without a marker, the last line is not the bare heading. */
  predicate WellPlaced(content: string, heading: string) {
    var start := Find(content, heading + "\n", 0);
    if start == -1 then !TitledAt(content, heading, |content| - |heading|)
    else StartsLine(content, start) && !OpensHeading(content, start + |heading| + 1)
  }

  // ----- lines ---------------------------------------------------------------------

  lemma HeadingOpens(heading: string)
    requires IsHeading(heading)
    ensures OpensHeading(heading, 0)
  {
    var w := heading[..3];
    assert w[0] == heading[0] && w[1] == heading[1] && w[2] == heading[2];
  }

  lemma TitleIsHeadingLine(s: string, heading: string, i: int)
    requires IsHeading(heading) && TitledAt(s, heading, i)
    ensures HeadingLineAt(s, i)
  {
    var w := s[i..i + |heading|];
    HeadingOpens(heading);
    assert w[0] == s[i] && w[1] == s[i + 1] && w[2] == s[i + 2];
  }

  /** A terminated title is the marker at the start of a line. */
  lemma TitleIsMarker(s: string, heading: string, i: int)
    requires 0 <= i && i + |heading| < |s|
    ensures TitledAt(s, heading, i) <==> StartsLine(s, i) && At(s, heading + "\n", i)
  {
    var w := s[i..i + |heading| + 1];
    assert w[..|heading|] == s[i..i + |heading|] && w[|heading|] == s[i + |heading|];
    assert w == w[..|heading|] + [w[|heading|]];
    assert w == heading + "\n" ==> w[..|heading|] == heading && w[|heading|] == '\n';
  }

  lemma MarkerIsTitle(s: string, heading: string, i: nat)
    requires At(s, heading + "\n", i)
    ensures At(s, heading, i) && (StartsLine(s, i) ==> TitledAt(s, heading, i))
  {
    var w := s[i..i + |heading| + 1];
    assert s[i..i + |heading|] == w[..|heading|];
    assert s[i + |heading|] == w[|heading|];
  }

  /** Behind a heading at `i`, the next line start is behind its newline. */
  lemma NoLineInside(s: string, heading: string, i: nat, j: nat)
    requires IsHeading(heading) && At(s, heading, i) && StartsLine(s, j) && i < j
    ensures i + |heading| < j
  {
    var w := s[i..i + |heading|];
    forall k | i <= k < i + |heading| ensures s[k] != '\n' {
      assert s[k] == w[k - i];
    }
  }

  /** Without a terminated title there is at most the bare one that ends the document. */
  lemma {:induction false} TitleWithoutMarker(content: string, heading: string)
    requires IsHeading(heading) && Find(content, heading + "\n", 0) == -1
    ensures var start := FirstTitle(content, heading, 0);
            start == if WellPlaced(content, heading) then |content| else |content| - |heading|
  {
    var start := FirstTitle(content, heading, 0);
    if start < |content| && start + |heading| < |content| {
      TitleIsMarker(content, heading, start);
    }
  }

  /** No title precedes the first marker. */
  lemma {:induction false} TitleBehindMarker(content: string, heading: string)
    requires IsHeading(heading) && Find(content, heading + "\n", 0) != -1
    ensures var found, start := Find(content, heading + "\n", 0), FirstTitle(content, heading, 0);
            if StartsLine(content, found) then start == found
            else start == |content| || found + |heading| < start
  {
    var found, start := Find(content, heading + "\n", 0), FirstTitle(content, heading, 0);
    MarkerIsTitle(content, heading, found);
    if start < |content| && start != found {
      if start < found {
        TitleIsMarker(content, heading, start);
      }
      NoLineInside(content, heading, found, start);
    }
  }

  /** The first heading line behind a title is the first one behind its line. */
  lemma {:induction false} NextBehindTitle(content: string, heading: string, start: nat)
    requires IsHeading(heading) && At(content, heading, start) && start + |heading| < |content|
    ensures NextHeadingLine(content, start + 1) == NextHeadingLine(content, start + |heading| + 1)
  {
    var n, m := NextHeadingLine(content, start + 1), NextHeadingLine(content, start + |heading| + 1);
    if n < |content| {
      NoLineInside(content, heading, start, n);
    }
  }

  // ----- the code and its documentation -----------------------------------------------

  lemma {:induction false} EndIsNextHeadingLine(content: string, heading: string)
    requires IsHeading(heading) && Section(content, heading).Some?
    requires !OpensHeading(content, Section(content, heading).value.0)
    ensures var (from, to) := Section(content, heading).value;
            var next := NextHeadingLine(content, from);
            if next == |content| then to == next else to == next - 1 && content[to] == '\n'
  {
    EndsBeforeHeadingLine(content, heading);
  }

  /** On a well-placed document the two searches find the documented bounds. */
  lemma {:induction false} FoundAsDocumented(content: string, heading: string)
    requires IsHeading(heading) && Section(content, heading).Some? && WellPlaced(content, heading)
    ensures var (from, to) := Section(content, heading).value;
            var start := FirstTitle(content, heading, 0);
            && start < from <= |content| && content[start..from] == heading + "\n"
            && var next := NextHeadingLine(content, start + 1);
               if next == |content| then to == next else to == next - 1 && content[to] == '\n'
  {
    TitleIsFound(content, heading);
    EndIsNextHeadingLine(content, heading);
  }

  lemma {:induction false} TitleIsFound(content: string, heading: string)
    requires IsHeading(heading) && Section(content, heading).Some? && WellPlaced(content, heading)
    ensures var (from, start) := (Section(content, heading).value.0, FirstTitle(content, heading, 0));
            && start < from <= |content| && content[start..from] == heading + "\n"
            && NextHeadingLine(content, start + 1) == NextHeadingLine(content, from)
            && !OpensHeading(content, from)
  {
    var start := Find(content, heading + "\n", 0);
    TitleBehindMarker(content, heading);
    MarkerIsTitle(content, heading, start);
    NextBehindTitle(content, heading, start);
  }

  lemma MeetsExisting(content: string, heading: string, body: string)
    requires IsHeading(heading) && Section(content, heading).Some? && WellPlaced(content, heading)
    ensures ReplaceManagedSection(content, heading, body) == Documented(content, heading, body)
  {
    var (from, to) := Section(content, heading).value;
    var start := FirstTitle(content, heading, 0);
    FoundAsDocumented(content, heading);
    SpliceAtLine(content, start, from, to, NextHeadingLine(content, start + 1), heading, body);
  }

  /** Keeping the heading line and the newline before the next one, or writing both anew. */
  lemma SpliceAtLine(s: string, start: nat, from: nat, to: nat, next: nat, heading: string, body: string)
    requires start <= from <= to <= |s| && s[start..from] == heading + "\n"
    requires if next == |s| then to == next else to == next - 1 && to < |s| && s[to] == '\n'
    ensures s[..from] + ("\n" + body + "\n") + s[to..] == s[..start] + NewSection(heading, body, next == |s|) + s[next..]
  {
    var written := "\n" + body + "\n";
    assert s[..from] == s[..start] + (heading + "\n");
    if next < |s| {
      assert s[to..] == "\n" + s[next..];
      FourParts(s[..start], heading + "\n", written, "\n", s[next..]);
    } else {
      FourParts(s[..start], heading + "\n", written, "", s[next..]);
    }
  }

  lemma FourParts(a: string, b: string, c: string, d: string, e: string)
    ensures (a + b) + c + (d + e) == a + (b + c + d) + e
  {}

  /** A heading line directly behind the marker: its section is lost, so the text comes out too short. */
  lemma {:induction false} MissesAdjacent(content: string, heading: string)
    requires IsHeading(heading) && Section(content, heading).Some? && !WellPlaced(content, heading)
    requires StartsLine(content, Find(content, heading + "\n", 0))
    ensures |ReplaceManagedSection(content, heading, "")| < |Documented(content, heading, "")|
  {
    var (from, to) := Section(content, heading).value;
    var start := Find(content, heading + "\n", 0);
    TitleBehindMarker(content, heading);
    MarkerIsTitle(content, heading, start);
    NextBehindTitle(content, heading, start);
    MarkerEndsLine(content, heading, start);
    assert HeadingLineAt(content, from);
  }

  /** The marker inside another line: the text behind it is overwritten, though it belongs to that line's section. */
  lemma {:induction false} MissesOffLine(content: string, heading: string, body: string)
    requires IsHeading(heading) && Section(content, heading).Some?
    requires !StartsLine(content, Find(content, heading + "\n", 0))
    requires body != ""
    requires var from := Section(content, heading).value.0; from + 1 < |content| ==> body[0] != content[from + 1]
    ensures ReplaceManagedSection(content, heading, body) != Documented(content, heading, body)
  {
    if FirstTitle(content, heading, 0) == |content| {
      MissesUntitled(content, heading, body);
    } else {
      MissesTitled(content, heading, body);
    }
  }

  lemma {:induction false} MissesUntitled(content: string, heading: string, body: string)
    requires IsHeading(heading) && Section(content, heading).Some? && FirstTitle(content, heading, 0) == |content|
    ensures |ReplaceManagedSection(content, heading, body)| < |Documented(content, heading, body)|
  {
    var (from, to) := Section(content, heading).value;
    assert |ReplaceManagedSection(content, heading, body)| == from + (|body| + 2) + (|content| - to);
  }

  lemma {:induction false} MissesTitled(content: string, heading: string, body: string)
    requires IsHeading(heading) && Section(content, heading).Some? && FirstTitle(content, heading, 0) < |content|
    requires !StartsLine(content, Find(content, heading + "\n", 0)) && body != ""
    requires var from := Section(content, heading).value.0; from + 1 < |content| ==> body[0] != content[from + 1]
    ensures ReplaceManagedSection(content, heading, body) != Documented(content, heading, body)
  {
    var (from, to) := Section(content, heading).value;
    TitleBehindMarker(content, heading);
    BehindMarker(content, from, body, to);
    KeptThroughTitle(content, heading, body, from + 1);
  }

  lemma BehindMarker(s: string, from: nat, body: string, to: nat)
    requires from <= to <= |s| && body != ""
    ensures (s[..from] + ("\n" + body + "\n") + s[to..])[from + 1] == body[0]
  {}

  /** The documented replacement keeps the text through the title. */
  lemma {:induction false} KeptThroughTitle(content: string, heading: string, body: string, i: nat)
    requires IsHeading(heading) && FirstTitle(content, heading, 0) < |content|
    requires i < FirstTitle(content, heading, 0) + |heading|
    ensures i < |Documented(content, heading, body)| && Documented(content, heading, body)[i] == content[i]
  {
    var start := FirstTitle(content, heading, 0);
    var next := NextHeadingLine(content, start + 1);
    var section := NewSection(heading, body, next == |content|);
    assert section[..|heading|] == heading;
    InSplice(content, start, heading, section, content[next..], i);
  }

  lemma InSplice(s: string, start: nat, heading: string, section: string, after: string, i: nat)
    requires At(s, heading, start) && |heading| <= |section| && section[..|heading|] == heading
    requires i < start + |heading|
    ensures (s[..start] + section + after)[i] == s[i]
  {
    var w := s[start..start + |heading|];
    if i >= start {
      assert s[i] == w[i - start] == heading[i - start] == section[i - start];
    }
  }

  lemma MissesExisting(content: string, heading: string) returns (body: string)
    requires IsHeading(heading) && Section(content, heading).Some? && !WellPlaced(content, heading)
    ensures ReplaceManagedSection(content, heading, body) != Documented(content, heading, body)
  {
    var from := Section(content, heading).value.0;
    if StartsLine(content, Find(content, heading + "\n", 0)) {
      body := "";
      MissesAdjacent(content, heading);
    } else {
      body := if from + 1 < |content| && content[from + 1] == 'x' then "y" else "x";
      MissesOffLine(content, heading, body);
    }
  }

  /** The code does what it documents, for every body, exactly on well-placed documents. */
  lemma DocumentedIff(content: string, heading: string)
    requires IsHeading(heading)
    ensures (forall body :: ReplaceManagedSection(content, heading, body) == Documented(content, heading, body))
            <==> WellPlaced(content, heading)
  {
    if Section(content, heading).None? {
      TitleWithoutMarker(content, heading);
      if WellPlaced(content, heading) {
        forall body ensures ReplaceManagedSection(content, heading, body) == Documented(content, heading, body) {
          AppendExpanded(content, heading, body);
        }
      } else {
        AppendExpanded(content, heading, "");
        assert |Documented(content, heading, "")| < |ReplaceManagedSection(content, heading, "")|;
      }
    } else if WellPlaced(content, heading) {
      forall body ensures ReplaceManagedSection(content, heading, body) == Documented(content, heading, body) {
        MeetsExisting(content, heading, body);
      }
    } else {
      var body := MissesExisting(content, heading);
    }
  }

  // ----- the other sections -------------------------------------------------------------

  /** No piece holds a heading line behind its start. */
  lemma {:induction false} PieceIsWhole(s: string, k: nat, i: nat)
    requires k < |Pieces(s)| && 0 < i
    ensures !HeadingLineAt(Pieces(s)[k], i)
  {
    var n := NextHeadingLine(s, 1);
    if k > 0 {
      PieceIsWhole(s[n..], k - 1, i);
    } else if HeadingLineAt(s[..n], i) {
      assert HeadingLineAt(s, i);
    }
  }

  lemma {:induction false} WholeIsOnePiece(s: string)
    requires s != "" && forall i :: 0 < i ==> !HeadingLineAt(s, i)
    ensures Pieces(s) == [s]
  {
    var n := NextHeadingLine(s, 1);
    assert n == |s| && s[..n] == s && s[n..] == "";
  }

  /** Heading lines of the front part stay where they are, also for the cut behind it. */
  lemma FrontLines(a: string, b: string, i: nat)
    requires a != "" && a[|a| - 1] == '\n' && i < |a|
    ensures HeadingLineAt(a + b, i) <==> HeadingLineAt(a, i)
  {
    assert (a + b)[|a| - 1] == '\n';
  }

  lemma {:induction false} PiecesConcat(a: string, b: string)
    requires a == "" || a[|a| - 1] == '\n'
    requires b == "" || OpensHeading(b, 0)
    ensures Pieces(a + b) == Pieces(a) + Pieces(b)
    decreases |a|
  {
    if a == "" || b == "" {
      assert a + b == if a == "" then b else a;
    } else {
      var m := NextHeadingLine(a, 1);
      FrontNext(a, b);
      assert (a + b)[..m] == a[..m] && (a + b)[m..] == a[m..] + b;
      PiecesConcat(a[m..], b);
      Grouped([a[..m]], Pieces(a[m..]), Pieces(b));
    }
  }

  lemma {:induction false} FrontNext(a: string, b: string)
    requires a != "" && a[|a| - 1] == '\n' && HeadingLineAt(a + b, |a|)
    ensures NextHeadingLine(a + b, 1) == NextHeadingLine(a, 1)
  {
    var n, m := NextHeadingLine(a + b, 1), NextHeadingLine(a, 1);
    if m < |a| {
      FrontLines(a, b, m);
    }
    if n < m {
      FrontLines(a, b, n);
    }
  }

  lemma {:induction false} SectionOpens(s: string, start: nat)
    requires HeadingLineAt(s, start)
    ensures OpensHeading(s[start..NextHeadingLine(s, start + 1)], 0)
  {
    var next := NextHeadingLine(s, start + 1);
    assert next == |s| || s[next - 1] == '\n';
  }

  lemma {:induction false} SectionIsWhole(s: string, start: nat)
    requires HeadingLineAt(s, start)
    ensures var next := NextHeadingLine(s, start + 1);
            && OpensHeading(s[start..next], 0) && (forall i :: 0 < i ==> !HeadingLineAt(s[start..next], i))
            && (next < |s| ==> s[next - 1] == '\n' && OpensHeading(s[next..], 0))
  {
    var next := NextHeadingLine(s, start + 1);
    forall i | 0 < i ensures !HeadingLineAt(s[start..next], i) {
      if HeadingLineAt(s[start..next], i) {
        assert HeadingLineAt(s, start + i);
      }
    }
    SectionOpens(s, start);
  }

  /** The written section is one piece exactly when its body starts no heading. */
  lemma NewSectionWhole(heading: string, body: string, last: bool)
    requires IsHeading(heading)
    ensures (forall i :: 0 < i ==> !HeadingLineAt(NewSection(heading, body, last), i)) <==> CleanBody(body)
  {
    var piece := NewSection(heading, body, last);
    var tail := "\n" + (if last then "" else "\n");
    var front := heading + "\n";
    assert piece == front + ("\n" + body) + tail;
    if !CleanBody(body) {
      var i := Find("\n" + body, NEXT_HEADING, 0);
      AtShift(front, "\n" + body, tail, NEXT_HEADING, i);
      HeadingLineBehind(piece, |front| + i);
    }
    if CleanBody(body) {
      forall i | 0 < i ensures !HeadingLineAt(piece, i) {
        if HeadingLineAt(piece, i) {
          WrittenHeading(heading, body, last, i);
        }
      }
    }
  }

  lemma WrittenHeading(heading: string, body: string, last: bool, i: nat)
    requires IsHeading(heading) && 0 < i && HeadingLineAt(NewSection(heading, body, last), i)
    ensures !CleanBody(body)
  {
    var piece := NewSection(heading, body, last);
    var tail := "\n" + (if last then "" else "\n");
    var front := heading + "\n";
    assert piece == front + ("\n" + body) + tail;
    HeadingLineBehind(piece, i - 1);
    HeadingStartsLine(piece, i - 1);
    assert i - 1 >= |front| && i + 3 <= |front| + 1 + |body|;
    AtShift(front, "\n" + body, tail, NEXT_HEADING, i - 1 - |front|);
  }

  /** The document's first section titled `heading`, with the text on both sides. */
  ghost predicate Divided(content: string, heading: string, before: string, section: string, after: string) {
    && heading != "" && section != "" && content == before + section + after
    && FirstTitle(content, heading, 0) == |before| && NextHeadingLine(content, |before| + 1) == |before| + |section|
  }

  lemma DividedAtLines(content: string, heading: string, before: string, section: string, after: string)
    requires IsHeading(heading) && Divided(content, heading, before, section, after)
    ensures before == "" || before[|before| - 1] == '\n'
    ensures after == "" || (OpensHeading(after, 0) && section[|section| - 1] == '\n')
    ensures OpensHeading(section, 0) && forall i :: 0 < i ==> !HeadingLineAt(section, i)
  {
    TitleIsHeadingLine(content, heading, |before|);
    SectionIsWhole(content, |before|);
    CutAgain(before, section, after);
    if before != "" {
      assert content[|before| - 1] == before[|before| - 1];
    }
  }

  lemma CutAgain(a: string, b: string, c: string)
    ensures (a + b + c)[|a|..|a| + |b|] == b && (a + b + c)[|a| + |b|..] == c && (a + b + c)[..|a|] == a
    ensures b != "" ==> (a + b + c)[|a| + |b| - 1] == b[|b| - 1]
  {}

  /** Writing keeps every other section, in place, and adds none, exactly when the body starts no heading. */
  lemma {:induction false} OtherSectionsKeptIff(content: string, heading: string, body: string,
                             before: string, section: string, after: string)
    requires IsHeading(heading) && WellPlaced(content, heading) && Divided(content, heading, before, section, after)
    ensures var out := ReplaceManagedSection(content, heading, body);
            && Pieces(content) == Pieces(before) + [section] + Pieces(after)
            && out == before + NewSection(heading, body, after == "") + after
            && (Pieces(out) == Pieces(before) + [NewSection(heading, body, after == "")] + Pieces(after)
                <==> CleanBody(body))
  {
    DividedAtLines(content, heading, before, section, after);
    SplicedPieces(before, section, after);
    CutAgain(before, section, after);
    DocumentedIff(content, heading);
    assert ReplaceManagedSection(content, heading, body) == Documented(content, heading, body);
    SplicedWhole(before, heading, body, after == "", after);
  }

  /** The pieces of the written document, when its body is clean and when not. */
  lemma {:induction false} SplicedWhole(a: string, heading: string, body: string, last: bool, b: string)
    requires IsHeading(heading) && (a == "" || a[|a| - 1] == '\n')
    requires if last then b == "" else OpensHeading(b, 0)
    ensures var piece := NewSection(heading, body, last);
            Pieces(a + piece + b) == Pieces(a) + [piece] + Pieces(b) <==> CleanBody(body)
  {
    var piece := NewSection(heading, body, last);
    NewSectionWhole(heading, body, last);
    if CleanBody(body) {
      HeadingOpens(heading);
      SplicedPieces(a, piece, b);
    } else if Pieces(a + piece + b) == Pieces(a) + [piece] + Pieces(b) {
      forall i | 0 < i ensures !HeadingLineAt(piece, i) {
        PieceIsWhole(a + piece + b, |Pieces(a)|, i);
      }
    }
  }

  lemma {:induction false} SplicedPieces(a: string, piece: string, b: string)
    requires a == "" || a[|a| - 1] == '\n'
    requires OpensHeading(piece, 0) && forall i :: 0 < i ==> !HeadingLineAt(piece, i)
    requires b == "" || (OpensHeading(b, 0) && piece[|piece| - 1] == '\n')
    ensures Pieces(a + piece + b) == Pieces(a) + [piece] + Pieces(b)
  {
    var rest := piece + b;
    PiecesConcat(a, rest);
    FirstPiece(piece, b);
    Grouped(a, piece, b);
    Grouped(Pieces(a), [piece], Pieces(b));
  }

  lemma Grouped<T>(a: seq<T>, b: seq<T>, c: seq<T>)
    ensures a + b + c == a + (b + c)
  {}

  lemma {:induction false} FirstPiece(piece: string, b: string)
    requires OpensHeading(piece, 0) && forall i :: 0 < i ==> !HeadingLineAt(piece, i)
    requires b == "" || (OpensHeading(b, 0) && piece[|piece| - 1] == '\n')
    ensures Pieces(piece + b) == [piece] + Pieces(b)
  {
    WholeIsOnePiece(piece);
    if b == "" {
      assert piece + b == piece;
    } else {
      PiecesConcat(piece, b);
    }
  }

  // ----- the two ways to fail -------------------------------------------------------------

  /** A section that follows the heading line at once is deleted. */
  lemma AdjacentSectionIsDeleted()
    ensures ReplaceManagedSection("## A\n## B\nz\n", "## A", "y") == "## A\n\ny\n"
    ensures Documented("## A\n## B\nz\n", "## A", "y") == "## A\n\ny\n\n## B\nz\n"
  {
    AdjacentAsWritten("## A\n## B\nz\n");
    AdjacentAsDocumented("## A\n## B\nz\n");
  }

  lemma AdjacentAsWritten(s: string)
    requires s == "## A\n## B\nz\n"
    ensures ReplaceManagedSection(s, "## A", "y") == "## A\n\ny\n"
  {
    assert s[0..5] == "## A\n";
    FindIs(s, "## A\n", 0, 0);
    NoMoreNewlines(s, 5);
  }

  lemma AdjacentAsDocumented(s: string)
    requires s == "## A\n## B\nz\n"
    ensures Documented(s, "## A", "y") == "## A\n\ny\n\n## B\nz\n"
  {
    assert s[0..4] == "## A";
    assert TitledAt(s, "## A", 0) && FirstTitle(s, "## A", 0) == 0;
    assert HeadingLineAt(s, 5) && !HeadingLineAt(s, 1) && !HeadingLineAt(s, 2);
    assert !HeadingLineAt(s, 3) && !HeadingLineAt(s, 4);
    assert NextHeadingLine(s, 1) == 5;
    assert s[5..] == "## B\nz\n";
  }

  /** The marker is also found inside a deeper heading, whose text is then overwritten. */
  lemma DeeperSectionIsOverwritten()
    ensures ReplaceManagedSection("### A\nz\n", "## A", "y") == "### A\n\ny\n"
    ensures Documented("### A\nz\n", "## A", "y") == "### A\nz\n\n## A\n\ny\n"
  {
    var s, heading := "### A\nz\n", "## A";
    assert s[1..6] == "## A\n" && s[0..5] == "### A";
    FindIs(s, "## A\n", 0, 1);
    NoMoreNewlines(s, 6);
    forall i ensures !TitledAt(s, heading, i) {
      if At(s, heading, i) {
        var w := s[i..i + 4];
        assert w[0] == s[i] && w[2] == s[i + 2];
      }
    }
  }

  lemma {:induction false} NoMoreNewlines(s: string, from: nat)
    requires forall i :: from <= i && i + 4 <= |s| ==> s[i] != '\n'
    ensures Find(s, NEXT_HEADING, from) == -1
  {
    var next := Find(s, NEXT_HEADING, from);
    if next != -1 {
      HeadingStartsLine(s, next);
    }
  }
}
