/** The assignment file: which extensions each agent of the roster launches with. */
module ExtensionAssignments {
  import opened Wrappers

  datatype Assignment = Assignment(agent: string, ids: seq<string>)

  /** normalizeProviderAgentIds admits no duplicates. */
  ghost predicate Distinct<T>(s: seq<T>) {
    forall i, j :: 0 <= i < j < |s| ==> s[i] != s[j]
  }

  predicate Leq(a: string, b: string) {
    a == "" || (b != "" && (a[0] < b[0] || (a[0] == b[0] && Leq(a[1..], b[1..]))))
  }

  function Insert(x: string, s: seq<string>): seq<string> {
    if s == [] || Leq(x, s[0]) then [x] + s else [s[0]] + Insert(x, s[1..])
  }

  function Sort(s: seq<string>): seq<string> {
    if s == [] then [] else Insert(s[0], Sort(s[1..]))
  }

  /** The entries of one agent, in file order, each with its ids sorted. */
  function Group(entries: seq<Assignment>, agent: string): seq<Assignment> {
    if entries == [] then [] else
    var head := if entries[0].agent == agent then [Assignment(agent, Sort(entries[0].ids))] else [];
    head + Group(entries[1..], agent)
  }

  function Segment(entries: seq<Assignment>, agent: string): seq<Assignment> {
    var group := Group(entries, agent);
    if group == [] then [Assignment(agent, [])] else group
  }

  /** What parsing keeps and serialising writes: entries of unknown agents dropped, missing agents filled in,
      and a stable sort by roster position. */
  function Normalize(entries: seq<Assignment>, roster: seq<string>): seq<Assignment> {
    if roster == [] then [] else Segment(entries, roster[0]) + Normalize(entries, roster[1..])
  }

  /** loadAssignments; a missing or unreadable file is the empty assignment. */
  function Load(file: Option<seq<Assignment>>, roster: seq<string>): seq<Assignment> {
    Normalize(file.GetOr([]), roster)
  }

  function WithoutId(ids: seq<string>, id: string): seq<string> {
    if ids == [] then [] else (if ids[0] == id then [] else [ids[0]]) + WithoutId(ids[1..], id)
  }

  /** removeExtensionFromAssignments. */
  function RemoveExtension(entries: seq<Assignment>, id: string): seq<Assignment> {
    seq(|entries|, i requires 0 <= i < |entries| => entries[i].(ids := WithoutId(entries[i].ids, id)))
  }

  predicate AssignedIn(entries: seq<Assignment>, id: string) {
    exists i :: 0 <= i < |entries| && id in entries[i].ids
  }

  function IdsOf(entries: seq<Assignment>, agent: string): seq<string> {
    if entries == [] then [] else if entries[0].agent == agent then entries[0].ids else IdsOf(entries[1..], agent)
  }

  // ----- sorting ----------------------------------------------------------------

  ghost predicate Sorted(s: seq<string>) {
    forall i :: 0 <= i < |s| - 1 ==> Leq(s[i], s[i + 1])
  }

  lemma {:induction false} LeqIsTotal(a: string, b: string)
    ensures Leq(a, b) || Leq(b, a)
    decreases |a|
  {
    if a != "" && b != "" {
      LeqIsTotal(a[1..], b[1..]);
    }
  }

  lemma {:induction false} InsertKeepsOrder(x: string, s: seq<string>)
    requires Sorted(s)
    ensures Sorted(Insert(x, s))
    ensures Insert(x, s)[0] == x || (s != [] && Insert(x, s)[0] == s[0])
  {
    if s != [] && !Leq(x, s[0]) {
      LeqIsTotal(x, s[0]);
      InsertKeepsOrder(x, s[1..]);
      var r := Insert(x, s[1..]);
      forall i | 0 <= i < |Insert(x, s)| - 1 ensures Leq(Insert(x, s)[i], Insert(x, s)[i + 1]) {
        if i > 0 {
          assert Insert(x, s)[i] == r[i - 1] && Insert(x, s)[i + 1] == r[i];
        }
      }
    }
  }

  lemma {:induction false} SortSorts(s: seq<string>)
    ensures Sorted(Sort(s))
  {
    if s != [] {
      SortSorts(s[1..]);
      InsertKeepsOrder(s[0], Sort(s[1..]));
    }
  }

  lemma {:induction false} SortIsIdentityOnSorted(s: seq<string>)
    requires Sorted(s)
    ensures Sort(s) == s
  {
    if s != [] {
      assert Sorted(s[1..]);
      SortIsIdentityOnSorted(s[1..]);
      if |s| > 1 {
        assert Leq(s[0], s[1]);
      }
    }
  }

  lemma {:induction false} InsertMultiset(x: string, s: seq<string>)
    ensures multiset(Insert(x, s)) == multiset{x} + multiset(s)
  {
    if s != [] && !Leq(x, s[0]) {
      InsertMultiset(x, s[1..]);
      assert s == [s[0]] + s[1..];
    }
  }

  lemma {:induction false} SortPermutes(s: seq<string>)
    ensures multiset(Sort(s)) == multiset(s)
  {
    if s != [] {
      SortPermutes(s[1..]);
      InsertMultiset(s[0], Sort(s[1..]));
      assert s == [s[0]] + s[1..];
    }
  }

  lemma {:induction false} SortKeepsMembers(s: seq<string>, id: string)
    ensures id in Sort(s) <==> id in s
  {
    SortPermutes(s);
    assert id in Sort(s) <==> id in multiset(Sort(s));
    assert id in s <==> id in multiset(s);
  }

  // ----- the normal form --------------------------------------------------------

  lemma {:induction false} GroupConcat(x: seq<Assignment>, y: seq<Assignment>, agent: string)
    ensures Group(x + y, agent) == Group(x, agent) + Group(y, agent)
  {
    if x == [] {
      assert x + y == y;
    } else {
      GroupConcat(x[1..], y, agent);
      assert x + y == [x[0]] + (x[1..] + y) && x == [x[0]] + x[1..];
      GroupCons(x[0], x[1..] + y, agent);
      GroupCons(x[0], x[1..], agent);
    }
  }

  lemma {:induction false} GroupCons(e: Assignment, rest: seq<Assignment>, agent: string)
    ensures Group([e] + rest, agent)
            == (if e.agent == agent then [Assignment(agent, Sort(e.ids))] else []) + Group(rest, agent)
  {
    assert ([e] + rest)[1..] == rest;
  }

  lemma {:induction false} GroupOfGroup(entries: seq<Assignment>, a: string, b: string)
    ensures Group(Group(entries, a), b) == if a == b then Group(entries, a) else []
  {
    if entries != [] {
      var head := if entries[0].agent == a then [Assignment(a, Sort(entries[0].ids))] else [];
      GroupOfGroup(entries[1..], a, b);
      GroupConcat(head, Group(entries[1..], a), b);
      if head != [] {
        SortSorts(entries[0].ids);
        SortIsIdentityOnSorted(Sort(entries[0].ids));
        assert head[1..] == [];
      }
    }
  }

  lemma {:induction false} GroupOfSegment(entries: seq<Assignment>, a: string, b: string)
    ensures Group(Segment(entries, a), b) == if a == b then Segment(entries, a) else []
  {
    GroupOfGroup(entries, a, b);
    if Group(entries, a) == [] {
      assert Segment(entries, a)[1..] == [];
    }
  }

  lemma {:induction false} GroupOfNormalize(entries: seq<Assignment>, roster: seq<string>, a: string)
    requires Distinct(roster)
    ensures Group(Normalize(entries, roster), a) == if a in roster then Segment(entries, a) else []
  {
    if roster != [] {
      var rest := roster[1..];
      GroupOfNormalize(entries, rest, a);
      GroupConcat(Segment(entries, roster[0]), Normalize(entries, rest), a);
      GroupOfSegment(entries, roster[0], a);
      assert a in roster <==> a == roster[0] || a in rest;
      assert roster[0] !in rest;
    }
  }

  lemma {:induction false} NormalizeFrom(entries: seq<Assignment>, roster: seq<string>, part: seq<string>)
    requires Distinct(roster) && forall a :: a in part ==> a in roster
    ensures Normalize(Normalize(entries, roster), part) == Normalize(entries, part)
    decreases |part|
  {
    if part != [] {
      assert part[0] in roster;
      GroupOfNormalize(entries, roster, part[0]);
      NormalizeFrom(entries, roster, part[1..]);
    }
  }

  /** Writing the file and reading it back gives exactly what was written. */
  lemma {:induction false} SavedIsLoaded(entries: seq<Assignment>, roster: seq<string>)
    requires Distinct(roster)
    ensures Load(Some(Normalize(entries, roster)), roster) == Normalize(entries, roster)
  {
    NormalizeFrom(entries, roster, roster);
  }

  lemma {:induction false} GroupAssigns(entries: seq<Assignment>, agent: string, id: string)
    ensures AssignedIn(Group(entries, agent), id) <==>
            exists i :: 0 <= i < |entries| && entries[i].agent == agent && id in entries[i].ids
  {
    if entries != [] {
      GroupAssigns(entries[1..], agent, id);
      SortKeepsMembers(entries[0].ids, id);
      var head := if entries[0].agent == agent then [Assignment(agent, Sort(entries[0].ids))] else [];
      AssignedConcat(head, Group(entries[1..], agent), id);
      assert AssignedIn(head, id) <==> entries[0].agent == agent && id in entries[0].ids by {
        if head != [] {
          assert head[0].ids == Sort(entries[0].ids);
        }
      }
      if i :| 0 <= i < |entries| && entries[i].agent == agent && id in entries[i].ids {
        assert i > 0 ==> entries[1..][i - 1] == entries[i];
      }
      if i :| 0 <= i < |entries[1..]| && entries[1..][i].agent == agent && id in entries[1..][i].ids {
        assert entries[i + 1] == entries[1..][i];
      }
    }
  }

  lemma AssignedConcat(x: seq<Assignment>, y: seq<Assignment>, id: string)
    ensures AssignedIn(x + y, id) <==> AssignedIn(x, id) || AssignedIn(y, id)
  {
    if i :| 0 <= i < |x| && id in x[i].ids {
      assert (x + y)[i] == x[i];
    }
    if i :| 0 <= i < |y| && id in y[i].ids {
      assert (x + y)[|x| + i] == y[i];
    }
  }

  /** Exactly the ids listed for agents of the roster survive. */
  lemma {:induction false} NormalizeAssigns(entries: seq<Assignment>, roster: seq<string>, id: string)
    ensures AssignedIn(Normalize(entries, roster), id) <==>
            exists i :: 0 <= i < |entries| && entries[i].agent in roster && id in entries[i].ids
  {
    if roster != [] {
      NormalizeAssigns(entries, roster[1..], id);
      AssignedConcat(Segment(entries, roster[0]), Normalize(entries, roster[1..]), id);
      GroupAssigns(entries, roster[0], id);
      assert forall a :: a in roster <==> a == roster[0] || a in roster[1..];
    }
  }

  /** Some entry gives the agent the extension. */
  ghost predicate Holds(file: seq<Assignment>, agent: string, id: string) {
    exists i :: 0 <= i < |file| && file[i].agent == agent && id in file[i].ids
  }

  lemma HoldsConcat(x: seq<Assignment>, y: seq<Assignment>, agent: string, id: string)
    ensures Holds(x + y, agent, id) <==> Holds(x, agent, id) || Holds(y, agent, id)
  {
    if i :| 0 <= i < |x| && x[i].agent == agent && id in x[i].ids {
      assert (x + y)[i] == x[i];
    }
    if i :| 0 <= i < |y| && y[i].agent == agent && id in y[i].ids {
      assert (x + y)[|x| + i] == y[i];
    }
  }

  lemma {:induction false} GroupNames(entries: seq<Assignment>, agent: string)
    ensures forall i :: 0 <= i < |Group(entries, agent)| ==> Group(entries, agent)[i].agent == agent
  {
    if entries != [] {
      GroupNames(entries[1..], agent);
    }
  }

  lemma {:induction false} SegmentHolds(entries: seq<Assignment>, owner: string, agent: string, id: string)
    ensures Holds(Segment(entries, owner), agent, id) <==> agent == owner && Holds(entries, agent, id)
  {
    GroupNames(entries, owner);
    GroupAssigns(entries, owner, id);
    var group := Group(entries, owner);
    if i :| 0 <= i < |group| && id in group[i].ids {
      assert group[i].agent == owner;
    }
  }

  /** Written or read back, each agent of the roster holds what the entries give it, and nobody else anything. */
  lemma {:induction false} NormalizeHolds(entries: seq<Assignment>, roster: seq<string>, agent: string, id: string)
    ensures Holds(Normalize(entries, roster), agent, id) <==> agent in roster && Holds(entries, agent, id)
  {
    if roster != [] {
      NormalizeHolds(entries, roster[1..], agent, id);
      HoldsConcat(Segment(entries, roster[0]), Normalize(entries, roster[1..]), agent, id);
      SegmentHolds(entries, roster[0], agent, id);
      assert agent in roster <==> agent == roster[0] || agent in roster[1..];
    }
  }

  lemma LoadHolds(file: seq<Assignment>, roster: seq<string>, agent: string, id: string)
    ensures Holds(Load(Some(file), roster), agent, id) <==> agent in roster && Holds(file, agent, id)
  {
    NormalizeHolds(file, roster, agent, id);
  }

  /** Removing an extension takes it from every agent and nothing else from anyone. */
  lemma RemovedHolds(entries: seq<Assignment>, id: string, agent: string, other: string)
    ensures Holds(RemoveExtension(entries, id), agent, other) <==> Holds(entries, agent, other) && other != id
  {
    var r := RemoveExtension(entries, id);
    forall i | 0 <= i < |entries| ensures other in r[i].ids <==> other in entries[i].ids && other != id {
      RemovedIff(entries, id, other, i);
    }
    if i :| 0 <= i < |entries| && entries[i].agent == agent && other in entries[i].ids && other != id {
      assert r[i].agent == agent && other in r[i].ids;
    }
    if i :| 0 <= i < |r| && r[i].agent == agent && other in r[i].ids {
      assert entries[i].agent == agent && other in entries[i].ids;
    }
  }

  // ----- what an agent launches with ----------------------------------------------

  /** The first entry of the agent; a launch looks at no other one. */
  ghost predicate FirstOf(file: seq<Assignment>, agent: string, i: int) {
    0 <= i < |file| && file[i].agent == agent && forall j :: 0 <= j < i ==> file[j].agent != agent
  }

  lemma {:induction false} GroupHead(file: seq<Assignment>, agent: string)
    ensures Group(file, agent) == [] <==> forall i :: 0 <= i < |file| ==> file[i].agent != agent
    ensures Group(file, agent) != [] ==> exists i :: FirstOf(file, agent, i) && Group(file, agent)[0].ids == Sort(file[i].ids)
  {
    if file != [] {
      if file[0].agent == agent {
        assert FirstOf(file, agent, 0);
      } else {
        var rest := file[1..];
        GroupHead(rest, agent);
        assert forall i :: 0 < i < |file| ==> file[i] == rest[i - 1];
        if Group(rest, agent) != [] {
          var i :| FirstOf(rest, agent, i) && Group(rest, agent)[0].ids == Sort(rest[i].ids);
          assert FirstOf(file, agent, i + 1);
        }
      }
    }
  }

  lemma {:induction false} IdsOfSegments(x: seq<Assignment>, y: seq<Assignment>, agent: string)
    ensures IdsOf(x + y, agent) == if exists i :: 0 <= i < |x| && x[i].agent == agent then IdsOf(x, agent) else IdsOf(y, agent)
  {
    if x == [] {
      assert x + y == y;
    } else if x[0].agent != agent {
      assert (x + y)[1..] == x[1..] + y;
      IdsOfSegments(x[1..], y, agent);
      assert forall i :: 0 < i < |x| ==> x[i] == x[1..][i - 1];
    }
  }

  lemma {:induction false} IdsOfNormalize(file: seq<Assignment>, roster: seq<string>, agent: string)
    ensures IdsOf(Normalize(file, roster), agent) == if agent in roster then Segment(file, agent)[0].ids else []
  {
    if roster != [] {
      var segment := Segment(file, roster[0]);
      GroupNames(file, roster[0]);
      IdsOfSegments(segment, Normalize(file, roster[1..]), agent);
      IdsOfNormalize(file, roster[1..], agent);
      assert segment[0].agent == roster[0];
    }
  }

  /** An agent of the roster launches with the ids of its first entry; nobody else with anything. */
  lemma {:induction false} LaunchIds(file: seq<Assignment>, roster: seq<string>, agent: string, id: string)
    ensures id in IdsOf(Load(Some(file), roster), agent) <==>
            agent in roster && exists i :: FirstOf(file, agent, i) && id in file[i].ids
  {
    IdsOfNormalize(file, roster, agent);
    GroupHead(file, agent);
    if Group(file, agent) != [] {
      var i :| FirstOf(file, agent, i) && Group(file, agent)[0].ids == Sort(file[i].ids);
      SortKeepsMembers(file[i].ids, id);
    }
  }

  /** An agent launches with everything it was given exactly when its first entry repeats all later ones. */
  lemma {:induction false} LaunchesWithAllIff(file: seq<Assignment>, roster: seq<string>, agent: string)
    requires agent in roster
    ensures (forall id :: id in IdsOf(Load(Some(file), roster), agent) <==> Holds(file, agent, id)) <==>
            forall i, j, id :: FirstOf(file, agent, i) && i < j < |file| && file[j].agent == agent && id in file[j].ids ==>
              id in file[i].ids
  {
    var ids := IdsOf(Load(Some(file), roster), agent);
    if forall id :: id in ids <==> Holds(file, agent, id) {
      forall i, j, id | FirstOf(file, agent, i) && i < j < |file| && file[j].agent == agent && id in file[j].ids
        ensures id in file[i].ids
      {
        assert Holds(file, agent, id);
        LaunchIds(file, roster, agent, id);
      }
    }
    if forall i, j, id :: FirstOf(file, agent, i) && i < j < |file| && file[j].agent == agent && id in file[j].ids ==>
         id in file[i].ids
    {
      forall id ensures id in ids <==> Holds(file, agent, id) {
        LaunchIds(file, roster, agent, id);
        if k :| 0 <= k < |file| && file[k].agent == agent && id in file[k].ids {
          var first := FirstIndex(file, agent, k);
          assert id in file[first].ids;
        }
      }
    }
  }

  lemma {:induction false} FirstIndex(file: seq<Assignment>, agent: string, i: nat) returns (first: nat)
    requires i < |file| && file[i].agent == agent
    ensures FirstOf(file, agent, first) && first <= i
  {
    first := 0;
    while file[first].agent != agent
      invariant first <= i && forall j :: 0 <= j < first ==> file[j].agent != agent
      decreases i - first
    {
      first := first + 1;
    }
  }

  /** A second entry for the same agent is saved and read back, and ignored at launch. */
  lemma SecondEntryIsIgnored()
    ensures var file := [Assignment("a", ["x"]), Assignment("a", ["y"])];
            Holds(Load(Some(file), ["a"]), "a", "y") && "y" !in IdsOf(Load(Some(file), ["a"]), "a")
  {
    var file := [Assignment("a", ["x"]), Assignment("a", ["y"])];
    assert file[1].agent == "a" && "y" in file[1].ids;
    LoadHolds(file, ["a"], "a", "y");
    LaunchIds(file, ["a"], "a", "y");
    assert forall i :: FirstOf(file, "a", i) ==> i == 0;
  }

  lemma {:induction false} WithoutIdIff(ids: seq<string>, id: string, other: string)
    ensures other in WithoutId(ids, id) <==> other in ids && other != id
  {
    if ids != [] {
      WithoutIdIff(ids[1..], id, other);
    }
  }

  /** After a removal the id is assigned to no agent, and every other id to the same ones. */
  lemma RemovedIff(entries: seq<Assignment>, id: string, other: string, i: nat)
    requires i < |entries|
    ensures var r := RemoveExtension(entries, id);
            && |r| == |entries| && r[i].agent == entries[i].agent
            && (other in r[i].ids <==> other in entries[i].ids && other != id)
  {
    WithoutIdIff(entries[i].ids, id, other);
  }
}
