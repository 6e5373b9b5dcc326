/** Replacing a managed `## ` section inside a markdown document. */
module ManagedSection {
  import opened Wrappers
  import opened TextSearch

  const NEXT_HEADING := "\n## "

  /** A section heading is one line that starts a level-two heading. */
  predicate IsHeading(h: string) {
    '\n' !in h && |h| >= 3 && h[..3] == "## "
  }

  predicate StartsLine(s: string, i: int) {
    0 <= i <= |s| && (i == 0 || s[i - 1] == '\n')
  }

  predicate OpensHeading(s: string, i: int) {
    0 <= i && i + 3 <= |s| && s[i] == '#' && s[i + 1] == '#' && s[i + 2] == ' '
  }

  /** A line that starts a level-two heading. */
  predicate HeadingLineAt(s: string, i: int) {
    StartsLine(s, i) && OpensHeading(s, i)
  }

  /** Where the section's text begins and ends, when the document has the section. */
  function Section(content: string, heading: string): (bounds: Option<(nat, nat)>)
    ensures bounds.Some? ==> bounds.value.0 <= bounds.value.1 <= |content|
  {
    var marker := heading + "\n";
    var start := Find(content, marker, 0);
    if start == -1 then None
    else
      var bodyStart := start + |marker|;
      var next := Find(content, NEXT_HEADING, bodyStart);
      Some((bodyStart, if next == -1 then |content| else next))
  }

  function ReplaceManagedSection(content: string, heading: string, body: string): string {
    match Section(content, heading)
    case None =>
      (if |content| > 0 && content[|content| - 1] == '\n' then content else content + "\n")
      + "\n" + heading + "\n\n" + body + "\n"
    case Some((from, to)) => content[..from] + ("\n" + body + "\n") + content[to..]
  }

  /** No line of the body starts a level-two heading. */
  predicate CleanBody(body: string) {
    Find("\n" + body, NEXT_HEADING, 0) == -1
  }

  /** The document's last line ends in the heading but is not terminated, so the section is not found. */
  predicate UnterminatedHeading(content: string, heading: string) {
    Section(content, heading).None? && |heading| <= |content| && content[|content| - |heading|..] == heading
  }

  /** The section's text as a reader of the document would find it. */
  function ReadSection(content: string, heading: string): Option<string> {
    match Section(content, heading)
    case None => None
    case Some((from, to)) => Some(content[from..to])
  }

  lemma MarkerEndsLine(s: string, heading: string, i: nat)
    requires IsHeading(heading) && At(s, heading + "\n", i)
    ensures s[i + |heading|] == '\n' && forall j :: i <= j < i + |heading| ==> s[j] != '\n'
  {
    var marker := heading + "\n";
    var w := s[i..i + |marker|];
    assert w[|heading|] == '\n';
    forall j | i <= j < i + |heading| ensures s[j] != '\n' {
      assert s[j] == w[j - i] == heading[j - i];
    }
  }

  lemma HeadingStartsLine(s: string, i: nat)
    requires At(s, NEXT_HEADING, i)
    ensures s[i] == '\n' && s[i + 1] == '#' && s[i + 2] == '#' && s[i + 3] == ' '
  {
    var w := s[i..i + 4];
    assert w[0] == s[i] && w[1] == s[i + 1] && w[2] == s[i + 2] && w[3] == s[i + 3];
  }

  lemma HeadingAt(s: string, i: nat)
    requires i + 4 <= |s| && s[i] == '\n' && s[i + 1] == '#' && s[i + 2] == '#' && s[i + 3] == ' '
    ensures At(s, NEXT_HEADING, i)
  {}

  lemma CleanGap(before: string, body: string, after: string, j: nat)
    requires after == "" || At(after, NEXT_HEADING, 0)
    requires CleanBody(body) && |before| <= j < |before| + |body| + 2
    ensures !At(before + ("\n" + body + "\n") + after, NEXT_HEADING, j)
  {
    var written := "\n" + body + "\n";
    var s := before + written + after;
    var i, edge := j - |before|, |before| + |written|;
    if i + 4 <= |body| + 1 {
      AtShift(before, written, after, NEXT_HEADING, i);
      assert written == "" + ("\n" + body) + "\n";
      AtShift("", "\n" + body, "\n", NEXT_HEADING, i);
    } else {
      assert s[edge - 1] == '\n';
      assert after != "" ==> s[edge] == after[0] == after[..4][0];
      if At(s, NEXT_HEADING, j) {
        HeadingStartsLine(s, j);
      }
    }
  }

  lemma DirtyGap(before: string, body: string, after: string) returns (k: nat)
    requires !CleanBody(body)
    ensures |before| <= k < |before| + 1 + |body|
    ensures At(before + ("\n" + body + "\n") + after, NEXT_HEADING, k)
  {
    var written := "\n" + body + "\n";
    var i := Find("\n" + body, NEXT_HEADING, 0);
    assert written == "" + ("\n" + body) + "\n";
    AtShift("", "\n" + body, "\n", NEXT_HEADING, i);
    AtShift(before, written, after, NEXT_HEADING, i);
    k := |before| + i;
  }

  lemma HeadingAfterGap(before: string, after: string)
    requires At(after, NEXT_HEADING, 0)
    ensures At(before + after, NEXT_HEADING, |before|)
  {
    assert before + after == before + after + "";
    AtShift(before, after, "", NEXT_HEADING, 0);
  }

  /** In `before` + newline + body + newline + `after` the next heading is in the body,
      unless the body is clean; then it is wherever `after` begins. */
  lemma {:induction false} NextAfterBody(before: string, body: string, after: string, s: string)
    requires after == "" || At(after, NEXT_HEADING, 0)
    requires s == before + ("\n" + body + "\n") + after
    ensures var next := Find(s, NEXT_HEADING, |before|);
            && (CleanBody(body) && after == "" ==> next == -1)
            && (CleanBody(body) && after != "" ==> next == |before| + |body| + 2)
            && (!CleanBody(body) ==> |before| <= next < |before| + 1 + |body|)
  {
    if CleanBody(body) {
      NextAfterCleanBody(before, body, after, s);
    } else {
      var k := DirtyGap(before, body, after);
    }
  }

  lemma {:induction false} NextAfterCleanBody(before: string, body: string, after: string, s: string)
    requires CleanBody(body) && (after == "" || At(after, NEXT_HEADING, 0))
    requires s == before + ("\n" + body + "\n") + after
    ensures Find(s, NEXT_HEADING, |before|) == if after == "" then -1 else |before| + |body| + 2
  {
    var edge := |before| + |body| + 2;
    forall j | |before| <= j < edge ensures !At(s, NEXT_HEADING, j) {
      CleanGap(before, body, after, j);
    }
    if after == "" {
      FindNothing(s, NEXT_HEADING, |before|);
    } else {
      HeadingAfterGap(before + ("\n" + body + "\n"), after);
      FindIs(s, NEXT_HEADING, |before|, edge);
    }
  }

  lemma TailIsHeadingOrEmpty(content: string, heading: string)
    requires Section(content, heading).Some?
    ensures var (from, to) := Section(content, heading).value;
            content[to..] == "" || At(content[to..], NEXT_HEADING, 0)
  {
    var (from, to) := Section(content, heading).value;
    if to < |content| {
      assert content == content[..to] + content[to..] + "";
      AtShift(content[..to], content[to..], "", NEXT_HEADING, 0);
    }
  }

  /** A document whose text up to `from` ends with the first marker keeps that section start. */
  lemma {:induction false} SameSectionStart(prefix: string, rest: string, heading: string, start: nat)
    requires IsHeading(heading)
    requires start + |heading| + 1 == |prefix| && At(prefix, heading + "\n", start)
    requires forall j :: 0 <= j < start ==> !At(prefix, heading + "\n", j)
    ensures Find(prefix + rest, heading + "\n", 0) == start
  {
    var marker := heading + "\n";
    AtPrefix(prefix, rest, marker, start);
    forall j | 0 <= j < start ensures !At(prefix + rest, marker, j) {
      AtPrefix(prefix, rest, marker, j);
    }
    FindIs(prefix + rest, marker, 0, start);
  }

  /** The document falls into text through the heading, the section, and text from the next heading on. */
  ghost predicate Splits(content: string, heading: string, prefix: string, section: string, suffix: string) {
    && content == prefix + section + suffix
    && Section(content, heading) == Some((|prefix|, |prefix| + |section|))
  }

  /** A clean body read back after the marker that ends `prefix` is exactly the body written. */
  lemma BodyBounds(prefix: string, heading: string, body: string, suffix: string)
    requires IsHeading(heading) && (suffix == "" || At(suffix, NEXT_HEADING, 0))
    requires |prefix| >= |heading| + 1
    requires At(prefix, heading + "\n", |prefix| - |heading| - 1)
    requires forall j :: 0 <= j < |prefix| - |heading| - 1 ==> !At(prefix, heading + "\n", j)
    ensures var out := prefix + ("\n" + body + "\n") + suffix;
            && Section(out, heading).Some? && Section(out, heading).value.0 == |prefix|
            && (CleanBody(body) ==> Splits(out, heading, prefix, "\n" + body + "\n", suffix))
            && (!CleanBody(body) ==> Section(out, heading).value.1 < |prefix| + |body| + 1)
  {
    var written := "\n" + body + "\n";
    var out := prefix + written + suffix;
    assert out == prefix + (written + suffix);
    SameSectionStart(prefix, written + suffix, heading, |prefix| - |heading| - 1);
    NextAfterBody(prefix, body, suffix, out);
  }

  /** The text through the heading holds the marker once, at its end. */
  lemma PrefixEndsInMarker(content: string, heading: string)
    requires Section(content, heading).Some?
    ensures var prefix := content[..Section(content, heading).value.0];
            && |prefix| >= |heading| + 1
            && At(prefix, heading + "\n", |prefix| - |heading| - 1)
            && forall j :: 0 <= j < |prefix| - |heading| - 1 ==> !At(prefix, heading + "\n", j)
  {
    var marker := heading + "\n";
    var start := Find(content, marker, 0);
    var end := start + |marker|;
    AtTake(content, end, marker, start);
    forall j | 0 <= j < start ensures !At(content[..end], marker, j) {
      AtTake(content, end, marker, j);
    }
  }

  /** Behind a newline, a heading line is what the search for the next heading looks for. */
  lemma HeadingLineBehind(s: string, i: nat)
    requires i < |s| && s[i] == '\n'
    ensures At(s, NEXT_HEADING, i) <==> HeadingLineAt(s, i + 1)
  {
    if At(s, NEXT_HEADING, i) {
      HeadingStartsLine(s, i);
    }
    if HeadingLineAt(s, i + 1) {
      HeadingAt(s, i);
    }
  }

  /** The section found ends in front of the next heading line, unless that line follows the marker at once. */
  lemma EndsBeforeHeadingLine(content: string, heading: string)
    requires IsHeading(heading) && Section(content, heading).Some?
    ensures var (from, to) := Section(content, heading).value;
            && StartsLine(content, from)
            && (to < |content| ==> content[to] == '\n' && HeadingLineAt(content, to + 1))
            && (forall i :: from < i <= to ==> !HeadingLineAt(content, i))
            && ((forall i :: from <= i && HeadingLineAt(content, i) ==> to < i) <==> !OpensHeading(content, from))
  {
    var (from, to) := Section(content, heading).value;
    var start := Find(content, heading + "\n", 0);
    MarkerEndsLine(content, heading, start);
    if to < |content| {
      HeadingStartsLine(content, to);
      HeadingLineBehind(content, to);
    }
    forall i | from < i <= to ensures !HeadingLineAt(content, i) {
      if HeadingLineAt(content, i) {
        HeadingLineBehind(content, i - 1);
      }
    }
    if OpensHeading(content, from) {
      assert HeadingLineAt(content, from);
    }
  }

  /** Writing into an existing section replaces that section and nothing else: the text behind the first
      marker, up to the next heading line. A heading line directly behind the marker is not seen. */
  lemma ReplaceExisting(content: string, heading: string, body: string)
    requires IsHeading(heading) && Section(content, heading).Some?
    ensures var (from, to) := Section(content, heading).value;
            var out := ReplaceManagedSection(content, heading, body);
            && out == content[..from] + ("\n" + body + "\n") + content[to..]
            && (to < |content| ==> HeadingLineAt(content, to + 1))
            && ((forall i :: from <= i && HeadingLineAt(content, i) ==> to < i) <==> !OpensHeading(content, from))
            && Section(out, heading).Some? && Section(out, heading).value.0 == from
            && (CleanBody(body) ==> Splits(out, heading, content[..from], "\n" + body + "\n", content[to..]))
            && (!CleanBody(body) ==> Section(out, heading).value.1 < from + |body| + 1)
  {
    var (from, to) := Section(content, heading).value;
    EndsBeforeHeadingLine(content, heading);
    PrefixEndsInMarker(content, heading);
    TailIsHeadingOrEmpty(content, heading);
    BodyBounds(content[..from], heading, body, content[to..]);
  }

  /** The text an append puts in front of the new heading. */
  function Opening(content: string): string {
    (if |content| > 0 && content[|content| - 1] == '\n' then content else content + "\n") + "\n"
  }

  lemma AppendExpanded(content: string, heading: string, body: string)
    requires Section(content, heading).None?
    ensures ReplaceManagedSection(content, heading, body) ==
            (Opening(content) + heading + "\n") + ("\n" + body + "\n") + ""
  {}

  /** Only an unterminated heading becomes a marker when the document is extended. */
  lemma MarkerInOpening(content: string, heading: string, j: nat)
    requires IsHeading(heading) && Section(content, heading).None?
    requires j < |Opening(content)|
    ensures At(Opening(content) + heading + "\n", heading + "\n", j) <==>
            UnterminatedHeading(content, heading) && j == |content| - |heading|
  {
    if At(Opening(content) + heading + "\n", heading + "\n", j) {
      MarkerIsUnterminated(content, heading, j);
    }
    if UnterminatedHeading(content, heading) && j == |content| - |heading| {
      UnterminatedIsMarker(content, heading);
    }
  }

  lemma MarkerIsUnterminated(content: string, heading: string, j: nat)
    requires IsHeading(heading) && Section(content, heading).None? && j < |Opening(content)|
    requires At(Opening(content) + heading + "\n", heading + "\n", j)
    ensures UnterminatedHeading(content, heading) && j == |content| - |heading|
  {
    var marker := heading + "\n";
    var o := Opening(content);
    var s := o + heading + "\n";
    assert o[|o| - 1] == '\n' && o[|o| - 2] == '\n' && o[..|content|] == content;
    MarkerEndsLine(s, heading, j);
    assert j + |heading| < |o|;
    if j + |marker| <= |content| {
      assert s[..|content|] == content;
      AtTake(s, |content|, marker, j);
    } else {
      assert s[|o| - 2] == o[|o| - 2] == '\n';
      assert j + |heading| != |o| - 1;
      assert content[j..] == s[j..j + |marker|][..|heading|] == heading;
    }
  }

  lemma UnterminatedIsMarker(content: string, heading: string)
    requires IsHeading(heading) && UnterminatedHeading(content, heading)
    ensures At(Opening(content) + heading + "\n", heading + "\n", |content| - |heading|)
  {
    var s, j := Opening(content) + heading + "\n", |content| - |heading|;
    assert content[|content| - 1] == heading[|heading| - 1];
    assert s[j..j + |heading| + 1] == content[j..] + "\n";
  }

  /** Appending a section to a document that lacks it. */
  lemma ReplaceMissing(content: string, heading: string, body: string)
    requires IsHeading(heading) && Section(content, heading).None? && !UnterminatedHeading(content, heading)
    ensures var out := ReplaceManagedSection(content, heading, body);
            var prefix := Opening(content) + heading + "\n";
            && out == prefix + ("\n" + body + "\n") + ""
            && Section(out, heading).Some? && Section(out, heading).value.0 == |prefix|
            && (CleanBody(body) ==> Splits(out, heading, prefix, "\n" + body + "\n", ""))
            && (!CleanBody(body) ==> Section(out, heading).value.1 < |prefix| + |body| + 1)
  {
    var marker := heading + "\n";
    var start := |Opening(content)|;
    var prefix := Opening(content) + heading + "\n";
    AppendExpanded(content, heading, body);
    forall j | 0 <= j < start ensures !At(prefix, marker, j) {
      MarkerInOpening(content, heading, j);
    }
    assert prefix[start..start + |marker|] == marker;
    BodyBounds(prefix, heading, body, "");
  }

  /** Appending after a bare heading turns that heading into the marker, with an empty section behind it. */
  lemma ReplaceUnterminated(content: string, heading: string, body: string)
    requires IsHeading(heading) && UnterminatedHeading(content, heading)
    ensures var out := ReplaceManagedSection(content, heading, body);
            && out == content + "\n\n" + heading + "\n\n" + body + "\n"
            && Section(out, heading) == Some((|content| + 1, |content| + 1))
  {
    var head, rest := content + "\n", "\n" + heading + ("\n\n" + body + "\n");
    UnterminatedExpanded(content, heading, body);
    BareHeadingIsMarker(content, heading);
    SameSectionStart(head, rest, heading, |content| - |heading|);
    HeadingLineFollows(heading, "\n\n" + body + "\n");
    HeadingAfterGap(head, rest);
    FindIs(head + rest, NEXT_HEADING, |head|, |head|);
  }

  lemma Regroup(x: string, a: string, b: string, c: string, d: string, e: string)
    ensures x + a + b + c + d + e == x + (a + b + (c + d + e))
  {}

  lemma UnterminatedExpanded(content: string, heading: string, body: string)
    requires IsHeading(heading) && UnterminatedHeading(content, heading)
    ensures ReplaceManagedSection(content, heading, body) == content + "\n\n" + heading + "\n\n" + body + "\n"
    ensures ReplaceManagedSection(content, heading, body)
            == (content + "\n") + ("\n" + heading + ("\n\n" + body + "\n"))
  {
    assert content[|content| - 1] == heading[|heading| - 1] != '\n';
    Regroup(content + "\n", "\n", heading, "\n\n", body, "\n");
    assert content + "\n" + "\n" == content + "\n\n";
  }

  lemma BareHeadingIsMarker(content: string, heading: string)
    requires IsHeading(heading) && UnterminatedHeading(content, heading)
    ensures var marker, start := heading + "\n", |content| - |heading|;
            At(content + "\n", marker, start) && forall j :: 0 <= j < start ==> !At(content + "\n", marker, j)
  {
    var marker, start, head := heading + "\n", |content| - |heading|, content + "\n";
    assert head[start..start + |marker|] == content[start..] + "\n";
    forall j | 0 <= j < start ensures !At(head, marker, j) {
      assert head == "" + content + "\n";
      AtShift("", content, "\n", marker, j);
    }
  }

  lemma HeadingLineFollows(heading: string, tail: string)
    requires IsHeading(heading)
    ensures At("\n" + heading + tail, NEXT_HEADING, 0)
  {
    var rest := "\n" + heading + tail;
    assert heading[..3][0] == '#' && heading[..3][1] == '#' && heading[..3][2] == ' ';
    assert rest[1] == heading[0] && rest[2] == heading[1] && rest[3] == heading[2];
    HeadingAt(rest, 0);
  }

  /** What was written is what a reader finds, exactly when the body starts no heading of its own
      and the document did not end in a bare heading. */
  lemma WriteThenRead(content: string, heading: string, body: string)
    requires IsHeading(heading)
    ensures ReadSection(ReplaceManagedSection(content, heading, body), heading) == Some("\n" + body + "\n")
            <==> CleanBody(body) && !UnterminatedHeading(content, heading)
  {
    if Section(content, heading).Some? {
      ReplaceExisting(content, heading, body);
    } else if UnterminatedHeading(content, heading) {
      ReplaceUnterminated(content, heading, body);
      var out := ReplaceManagedSection(content, heading, body);
      assert |out[|content| + 1..|content| + 1]| == 0 < |"\n" + body + "\n"|;
    } else {
      ReplaceMissing(content, heading, body);
    }
  }

  lemma ReplaceTwiceExisting(content: string, heading: string, first: string, second: string)
    requires IsHeading(heading) && Section(content, heading).Some?
    ensures ReplaceManagedSection(ReplaceManagedSection(content, heading, first), heading, second)
            == ReplaceManagedSection(content, heading, second)
            <==> CleanBody(first)
  {
    ReplaceExisting(content, heading, first);
    var (from, to) := Section(content, heading).value;
    ReplaceSpliced(content[..from], "\n" + first + "\n", content[to..], heading, second);
  }

  /** Replacing the section that starts after `before` in a spliced document. */
  lemma ReplaceSpliced(before: string, written: string, after: string, heading: string, body: string)
    requires Section(before + written + after, heading).Some?
    requires Section(before + written + after, heading).value.0 == |before|
    ensures var out := ReplaceManagedSection(before + written + after, heading, body);
            var end := Section(before + written + after, heading).value.1;
            && (end == |before| + |written| ==> out == before + ("\n" + body + "\n") + after)
            && (end < |before| + |written| ==> |out| > |before + ("\n" + body + "\n") + after|)
  {
    var s := before + written + after;
    assert s[..|before|] == before;
    assert s[|before| + |written|..] == after;
  }

  lemma ReplaceTwiceMissing(content: string, heading: string, first: string, second: string)
    requires IsHeading(heading) && Section(content, heading).None? && !UnterminatedHeading(content, heading)
    ensures ReplaceManagedSection(ReplaceManagedSection(content, heading, first), heading, second)
            == ReplaceManagedSection(content, heading, second)
            <==> CleanBody(first)
  {
    var once := ReplaceManagedSection(content, heading, first);
    ReplaceMissing(content, heading, first);
    AppendExpanded(content, heading, second);
    if !CleanBody(first) {
      assert |ReplaceManagedSection(once, heading, second)| > |ReplaceManagedSection(content, heading, second)|;
    }
  }

  lemma ReplaceTwiceUnterminated(content: string, heading: string, first: string, second: string)
    requires IsHeading(heading) && UnterminatedHeading(content, heading)
    ensures |ReplaceManagedSection(ReplaceManagedSection(content, heading, first), heading, second)|
            > |ReplaceManagedSection(content, heading, second)|
  {
    ReplaceUnterminated(content, heading, first);
    ReplaceUnterminated(content, heading, second);
  }

  /** Replacing twice is the same as doing only the second replacement, under exactly the same condition. */
  lemma ReplaceTwice(content: string, heading: string, first: string, second: string)
    requires IsHeading(heading)
    ensures ReplaceManagedSection(ReplaceManagedSection(content, heading, first), heading, second)
            == ReplaceManagedSection(content, heading, second)
            <==> CleanBody(first) && !UnterminatedHeading(content, heading)
  {
    if Section(content, heading).Some? {
      ReplaceTwiceExisting(content, heading, first, second);
    } else if UnterminatedHeading(content, heading) {
      ReplaceTwiceUnterminated(content, heading, first, second);
    } else {
      ReplaceTwiceMissing(content, heading, first, second);
    }
  }
}
