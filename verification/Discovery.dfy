/** Bounded breadth-first discovery of git repositories under an estate root. */
module Discovery {
  import opened Wrappers

  /** A directory tree without symbolic links. Paths are lists of names below the root. */
  datatype Node = File(name: string) | Dir(name: string, readable: bool, children: seq<Node>)

  type Path = seq<string>

  datatype Verdict = Emit | Descend | Drop

  /** What the scan does with a directory it has not seen. */
  type Classifier = (Path, Node) -> Verdict

  /** The rules of one scan: the depth limit, the names never entered, the classifier. */
  datatype Rules = Rules(maxDepth: int, skips: string -> bool, classify: Classifier)

  const SKIP_DIR_NAMES: set<string> := {
    ".git", ".hg", ".svn", ".idea", ".vscode", ".venv",
    "__pycache__", "node_modules", "dist", "build", "coverage",
    ".pytest_cache", ".mypy_cache", ".ruff_cache", ".next",
    "target", "vendor"
  }

  const GROUP_NAMES: set<string> := {
    "services", "service", "apps", "app", "packages", "package", "modules", "module",
    "domains", "domain", "components", "component", "libs", "lib"
  }

  predicate Skipped(name: string) {
    name in SKIP_DIR_NAMES || (name != "" && name[0] == '.')
  }

  function LowerChar(c: char): char {
    if 'A' <= c <= 'Z' then (c as int + 32) as char else c
  }

  function Lower(s: string): string {
    seq(|s|, i requires 0 <= i < |s| => LowerChar(s[i]))
  }

  function ChildNamed(children: seq<Node>, name: string): Option<Node> {
    if children == [] then None
    else if children[0].name == name then Some(children[0])
    else ChildNamed(children[1..], name)
  }

  /** The directory holds a `.git` file or directory. */
  predicate HasGitMarker(node: Node) {
    node.Dir? && ChildNamed(node.children, ".git").Some?
  }

  /** No directory lists the same name twice. */
  predicate DistinctNames(node: Node) {
    match node
    case File(_) => true
    case Dir(_, _, children) =>
      && (forall i, j :: 0 <= i < j < |children| ==> children[i].name != children[j].name)
      && (forall i :: 0 <= i < |children| ==> DistinctNames(children[i]))
  }

  function Resolve(node: Node, p: Path): Option<Node>
    decreases p
  {
    if p == [] then Some(node)
    else if node.File? then None
    else
      var child := ChildNamed(node.children, p[0]);
      if child.None? then None else Resolve(child.value, p[1..])
  }

  /** Which names are never entered: hidden ones - so the dotted names of the list add nothing - and seven more. */
  lemma SkippedIff(name: string)
    ensures Skipped(name) <==>
            || (name != "" && name[0] == '.')
            || name == "__pycache__" || name == "node_modules" || name == "dist" || name == "build"
            || name == "coverage" || name == "target" || name == "vendor"
  {
    assert ".git"[0] == ".hg"[0] == ".svn"[0] == ".idea"[0] == ".vscode"[0] == ".venv"[0] == '.';
    assert ".pytest_cache"[0] == ".mypy_cache"[0] == ".ruff_cache"[0] == ".next"[0] == '.';
  }

  /** Which names say that a folder groups repositories. */
  lemma GroupNamesAre(name: string)
    ensures name in GROUP_NAMES <==>
            || name == "services" || name == "service" || name == "apps" || name == "app"
            || name == "packages" || name == "package" || name == "modules" || name == "module"
            || name == "domains" || name == "domain" || name == "components" || name == "component"
            || name == "libs" || name == "lib"
  {}

  /** A git directory lists an entry called .git, of whatever kind. */
  lemma {:induction false} GitMarkerIff(node: Node)
    ensures HasGitMarker(node) <==> node.Dir? && exists i :: 0 <= i < |node.children| && node.children[i].name == ".git"
  {
    if node.Dir? {
      ChildNamedIff(node.children, ".git");
    }
  }

  lemma {:induction false} ChildNamedIff(children: seq<Node>, name: string)
    ensures ChildNamed(children, name).Some? <==> exists i :: 0 <= i < |children| && children[i].name == name
  {
    if children != [] && children[0].name != name {
      ChildNamedIff(children[1..], name);
      assert forall i :: 0 < i < |children| ==> children[i] == children[1..][i - 1];
    }
  }

  // ----- what a scan finds ------------------------------------------------------

  /** p is emitted: it is a directory within the depth limit, no name on it is skipped, every directory strictly
      between the root and it is one the scan descends into, and every listing on the way could be read. */
  ghost predicate Found(root: Node, r: Rules, p: Path) {
    && 1 <= |p| <= r.maxDepth
    && (forall k :: 0 <= k < |p| ==> !r.skips(p[k]))
    && (forall k :: 0 <= k <= |p| ==> Resolve(root, p[..k]).Some? && Resolve(root, p[..k]).value.Dir?)
    && (forall k :: 0 <= k < |p| ==> Resolve(root, p[..k]).value.readable)
    && (forall k :: 0 < k < |p| ==> r.classify(p[..k], Resolve(root, p[..k]).value) == Descend)
    && p[..|p|] == p && r.classify(p, Resolve(root, p[..|p|]).value) == Emit
  }

  /** The same, peeling one name at a time: `path` leads to `node`, `rest` leads on from it. */
  ghost predicate FoundFrom(node: Node, path: Path, rest: Path, r: Rules)
    decreases |rest|
  {
    && rest != [] && |path| + |rest| <= r.maxDepth && node.Dir? && node.readable && !r.skips(rest[0])
    && var child := ChildNamed(node.children, rest[0]);
       && child.Some? && child.value.Dir?
       && var here := path + [rest[0]];
          if |rest| == 1 then r.classify(here, child.value) == Emit
          else r.classify(here, child.value) == Descend && FoundFrom(child.value, here, rest[1..], r)
  }

  /** All emitted paths below a directory. */
  ghost function Below(node: Node, path: Path, r: Rules): set<Path>
    decreases node, 1
  {
    if node.File? || !node.readable || |path| >= r.maxDepth then {}
    else BelowAll(node.children, path, r)
  }

  ghost function BelowAll(children: seq<Node>, path: Path, r: Rules): set<Path>
    decreases children
  {
    if children == [] then {}
    else BelowChild(children[0], path, r) + BelowAll(children[1..], path, r)
  }

  ghost function BelowChild(child: Node, path: Path, r: Rules): set<Path>
    decreases child, 2
  {
    if child.File? || r.skips(child.name) then {}
    else
      var here := path + [child.name];
      match r.classify(here, child)
      case Emit => {here}
      case Descend => Below(child, here, r)
      case Drop => {}
  }

  // ----- the breadth-first scan ----------------------------------------------------

  datatype Item = Item(path: Path, node: Node)

  ghost function QueueBelow(queue: seq<Item>, r: Rules): set<Path> {
    if queue == [] then {}
    else Below(queue[0].node, queue[0].path, r) + QueueBelow(queue[1..], r)
  }

  ghost function Size(node: Node): nat {
    match node
    case File(_) => 1
    case Dir(_, _, children) => 1 + SizeAll(children)
  }

  ghost function SizeAll(nodes: seq<Node>): nat {
    if nodes == [] then 0 else Size(nodes[0]) + SizeAll(nodes[1..])
  }

  ghost function QueueSize(queue: seq<Item>): nat {
    if queue == [] then 0 else Size(queue[0].node) + QueueSize(queue[1..])
  }

  lemma {:induction false} QueueSnoc(queue: seq<Item>, item: Item, r: Rules)
    ensures QueueBelow(queue + [item], r) ==
            QueueBelow(queue, r) + Below(item.node, item.path, r)
    ensures QueueSize(queue + [item]) == QueueSize(queue) + Size(item.node)
  {
    if queue == [] {
      assert queue + [item] == [item];
    } else {
      assert (queue + [item])[1..] == queue[1..] + [item];
      QueueSnoc(queue[1..], item, r);
    }
  }

  ghost predicate GoodQueue(queue: seq<Item>, seen: set<Path>, done: set<Path>) {
    && (forall i :: 0 <= i < |queue| ==>
          queue[i].node.Dir? && DistinctNames(queue[i].node) && queue[i].path in seen && queue[i].path !in done)
    && (forall i, j :: 0 <= i < j < |queue| ==> queue[i].path != queue[j].path)
  }

  /** Every path seen is the root's, or sits in a directory already listed (`done`), or is one of the
      first `upto` children of the directory being listed. */
  ghost predicate SeenOk(seen: set<Path>, done: set<Path>, current: Path, children: seq<Node>, upto: nat)
    requires upto <= |children|
  {
    && done <= seen
    && forall p :: p in seen && p != [] ==>
         p[..|p| - 1] in done || (p[..|p| - 1] == current && exists i :: 0 <= i < upto && children[i].name == p[|p| - 1])
  }

  lemma UnseenChild(seen: set<Path>, done: set<Path>, current: Path, children: seq<Node>, upto: nat)
    requires upto < |children| && SeenOk(seen, done, current, children, upto) && current !in done
    requires forall i, j :: 0 <= i < j < |children| ==> children[i].name != children[j].name
    ensures current + [children[upto].name] !in seen
  {
    var here := current + [children[upto].name];
    assert here[..|here| - 1] == current;
  }

  lemma SeenStep(seen: set<Path>, done: set<Path>, current: Path, listing: seq<Node>, i: nat)
    requires i < |listing| && SeenOk(seen, done, current, listing, i)
    ensures SeenOk(seen, done, current, listing, i + 1)
    ensures SeenOk(seen + {current + [listing[i].name]}, done, current, listing, i + 1)
  {
    var here := current + [listing[i].name];
    assert here[..|here| - 1] == current;
  }

  lemma GoodQueueSnoc(queue: seq<Item>, seen: set<Path>, done: set<Path>, item: Item)
    requires GoodQueue(queue, seen, done) && done <= seen && item.path !in seen
    requires item.node.Dir? && DistinctNames(item.node)
    ensures GoodQueue(queue + [item], seen + {item.path}, done)
  {}

  lemma {:induction false} ListingStep(listing: seq<Node>, i: nat, current: Path, r: Rules)
    requires i < |listing|
    ensures ListingBelow(listing[i..], current, r) ==
            (if |current| >= r.maxDepth then {} else BelowChild(listing[i], current, r))
            + ListingBelow(listing[i + 1..], current, r)
    ensures SizeAll(listing[i..]) == Size(listing[i]) + SizeAll(listing[i + 1..])
  {
    assert listing[i..][0] == listing[i] && listing[i..][1..] == listing[i + 1..];
  }

  ghost function PathSet(ps: seq<Path>): set<Path> {
    set p | p in ps
  }

  ghost predicate Distinct(ps: seq<Path>) {
    forall i, j :: 0 <= i < j < |ps| ==> ps[i] != ps[j]
  }

  ghost function ListingBelow(listing: seq<Node>, current: Path, r: Rules): set<Path> {
    if |current| >= r.maxDepth then {} else BelowAll(listing, current, r)
  }

  /** The scan's three variables. */
  datatype Progress = Progress(queue: seq<Item>, seen: set<Path>, found: seq<Path>)

  /** Bookkeeping while a directory is being listed. */
  ghost predicate Tidy(pr: Progress, done: set<Path>, current: Path, listing: seq<Node>, i: nat)
    requires i <= |listing|
  {
    && GoodQueue(pr.queue, pr.seen, done) && (forall k :: 0 <= k < |pr.queue| ==> pr.queue[k].path != current)
    && SeenOk(pr.seen, done, current, listing, i) && current in pr.seen && current !in done
    && Distinct(pr.found) && PathSet(pr.found) <= pr.seen
  }

  /** Everything already found plus everything still to be found. */
  ghost function Total(pr: Progress, listing: seq<Node>, current: Path, r: Rules): set<Path> {
    PathSet(pr.found) + QueueBelow(pr.queue, r) + ListingBelow(listing, current, r)
  }

  ghost predicate GoodListing(listing: seq<Node>) {
    && (forall i, j :: 0 <= i < j < |listing| ==> listing[i].name != listing[j].name)
    && (forall i :: 0 <= i < |listing| ==> DistinctNames(listing[i]))
  }

  /** One child: skipped, too deep, emitted, enqueued or dropped. */
  function StepChild(pr: Progress, current: Path, child: Node, r: Rules): Progress {
    var here := current + [child.name];
    if r.skips(child.name) || child.File? || here in pr.seen || |here| > r.maxDepth then pr
    else
      var marked := pr.(seen := pr.seen + {here});
      match r.classify(here, child)
      case Emit => marked.(found := pr.found + [here])
      case Descend => if |current| + 1 < r.maxDepth then marked.(queue := pr.queue + [Item(here, child)]) else marked
      case Drop => marked
  }

  lemma TidyKeep(pr: Progress, done: set<Path>, current: Path, listing: seq<Node>, i: nat)
    requires i < |listing| && Tidy(pr, done, current, listing, i)
    ensures Tidy(pr, done, current, listing, i + 1)
  {
    SeenStep(pr.seen, done, current, listing, i);
  }

  lemma TidyMark(pr: Progress, done: set<Path>, current: Path, listing: seq<Node>, i: nat)
    requires i < |listing| && Tidy(pr, done, current, listing, i)
    ensures Tidy(pr.(seen := pr.seen + {current + [listing[i].name]}), done, current, listing, i + 1)
  {
    SeenStep(pr.seen, done, current, listing, i);
  }

  lemma TidyEmit(pr: Progress, done: set<Path>, current: Path, listing: seq<Node>, i: nat)
    requires i < |listing| && GoodListing(listing) && Tidy(pr, done, current, listing, i)
    ensures var here := current + [listing[i].name];
            Tidy(pr.(seen := pr.seen + {here}, found := pr.found + [here]), done, current, listing, i + 1)
  {
    var here := current + [listing[i].name];
    UnseenChild(pr.seen, done, current, listing, i);
    TidyMark(pr, done, current, listing, i);
    assert forall k :: 0 <= k < |pr.found| ==> pr.found[k] in PathSet(pr.found);
    assert PathSet(pr.found + [here]) == PathSet(pr.found) + {here};
  }

  lemma TidyEnqueue(pr: Progress, done: set<Path>, current: Path, listing: seq<Node>, i: nat)
    requires i < |listing| && GoodListing(listing) && Tidy(pr, done, current, listing, i) && listing[i].Dir?
    ensures var here := current + [listing[i].name];
            Tidy(pr.(seen := pr.seen + {here}, queue := pr.queue + [Item(here, listing[i])]), done, current, listing, i + 1)
  {
    var here := current + [listing[i].name];
    UnseenChild(pr.seen, done, current, listing, i);
    TidyMark(pr, done, current, listing, i);
    GoodQueueSnoc(pr.queue, pr.seen, done, Item(here, listing[i]));
    assert |here| != |current|;
  }

  lemma StepChildTidy(pr: Progress, done: set<Path>, current: Path, listing: seq<Node>, i: nat, r: Rules)
    requires i < |listing| && GoodListing(listing) && Tidy(pr, done, current, listing, i)
    ensures Tidy(StepChild(pr, current, listing[i], r), done, current, listing, i + 1)
  {
    var child := listing[i];
    var here := current + [child.name];
    var next := StepChild(pr, current, child, r);
    if next == pr {
      TidyKeep(pr, done, current, listing, i);
    } else if r.classify(here, child).Emit? {
      TidyEmit(pr, done, current, listing, i);
    } else if next.queue != pr.queue {
      TidyEnqueue(pr, done, current, listing, i);
    } else {
      TidyMark(pr, done, current, listing, i);
      assert next == pr.(seen := pr.seen + {here});
    }
  }

  /** What one child adds to the books matches what the recursive description says lies below it. */
  lemma {:induction false} StepChildBooks(pr: Progress, current: Path, child: Node, r: Rules)
    requires current + [child.name] !in pr.seen
    ensures var next := StepChild(pr, current, child, r);
            && PathSet(next.found) + QueueBelow(next.queue, r) ==
               PathSet(pr.found) + QueueBelow(pr.queue, r)
               + (if |current| >= r.maxDepth then {} else BelowChild(child, current, r))
            && QueueSize(next.queue) <= QueueSize(pr.queue) + Size(child)
  {
    var here := current + [child.name];
    if !child.File? {
      QueueSnoc(pr.queue, Item(here, child), r);
    }
    assert PathSet(pr.found + [here]) == PathSet(pr.found) + {here};
  }

  lemma StepChildTotal(pr: Progress, done: set<Path>, current: Path, listing: seq<Node>, i: nat, r: Rules)
    requires i < |listing| && GoodListing(listing) && Tidy(pr, done, current, listing, i)
    ensures var next := StepChild(pr, current, listing[i], r);
            && Total(next, listing[i + 1..], current, r) == Total(pr, listing[i..], current, r)
            && QueueSize(next.queue) + SizeAll(listing[i + 1..]) <= QueueSize(pr.queue) + SizeAll(listing[i..])
  {
    UnseenChild(pr.seen, done, current, listing, i);
    ListingStep(listing, i, current, r);
    StepChildBooks(pr, current, listing[i], r);
  }

  /** One directory listing: emit, enqueue or drop each child directory not seen before. */
  method ScanListing(current: Path, listing: seq<Node>, r: Rules,
                     queue0: seq<Item>, seen0: set<Path>, found0: seq<Path>, ghost done: set<Path>)
    returns (queue: seq<Item>, seen: set<Path>, found: seq<Path>)
    requires GoodListing(listing) && Tidy(Progress(queue0, seen0, found0), done, current, listing, 0)
    ensures Tidy(Progress(queue, seen, found), done, current, listing, |listing|)
    ensures Total(Progress(queue, seen, found), [], current, r) ==
            Total(Progress(queue0, seen0, found0), listing, current, r)
    ensures QueueSize(queue) <= QueueSize(queue0) + SizeAll(listing)
  {
    queue, seen, found := queue0, seen0, found0;
    assert listing[0..] == listing && listing[|listing|..] == [];
    for i := 0 to |listing|
      invariant Tidy(Progress(queue, seen, found), done, current, listing, i)
      invariant Total(Progress(queue, seen, found), listing[i..], current, r) ==
                Total(Progress(queue0, seen0, found0), listing, current, r)
      invariant QueueSize(queue) + SizeAll(listing[i..]) <= QueueSize(queue0) + SizeAll(listing)
    {
      ghost var pr := Progress(queue, seen, found);
      var child := listing[i];
      StepChildTidy(pr, done, current, listing, i, r);
      StepChildTotal(pr, done, current, listing, i, r);
      var here := current + [child.name];
      if !r.skips(child.name) && !child.File? && here !in seen && |here| <= r.maxDepth {
        seen := seen + {here};
        match r.classify(here, child)
        case Emit => found := found + [here];
        case Descend =>
          if |current| + 1 < r.maxDepth {
            queue := queue + [Item(here, child)];
          }
        case Drop =>
      }
      assert Progress(queue, seen, found) == StepChild(pr, current, child, r);
    }
  }

  /** Between directories: all parents of what was seen have been listed. */
  ghost predicate Settled(pr: Progress, done: set<Path>) {
    && GoodQueue(pr.queue, pr.seen, done) && done <= pr.seen
    && (forall p :: p in pr.seen && p != [] ==> p[..|p| - 1] in done)
    && Distinct(pr.found) && PathSet(pr.found) <= pr.seen
  }

  lemma {:induction false} StartScan(root: Node, r: Rules)
    requires root.Dir? && DistinctNames(root)
    ensures var pr := Progress([Item([], root)], {[]}, []);
            Settled(pr, {}) && Total(pr, [], [], r) == Below(root, [], r)
  {
    var pr := Progress([Item([], root)], {[]}, []);
    assert pr.queue[1..] == [];
    assert QueueBelow(pr.queue, r) == Below(root, [], r) + {};
    assert PathSet(pr.found) == {};
  }

  lemma EndScan(pr: Progress, r: Rules)
    requires pr.queue == []
    ensures Total(pr, [], [], r) == PathSet(pr.found)
  {}

  lemma StartListing(pr: Progress, done: set<Path>, listing: seq<Node>)
    requires Settled(pr, done) && pr.queue != []
    ensures Tidy(pr.(queue := pr.queue[1..]), done, pr.queue[0].path, listing, 0)
  {}

  lemma {:induction false} ListedTotal(pr: Progress, listing: seq<Node>, r: Rules)
    requires pr.queue != [] && pr.queue[0].node.Dir?
    requires listing == if pr.queue[0].node.readable then pr.queue[0].node.children else []
    ensures Total(pr.(queue := pr.queue[1..]), listing, pr.queue[0].path, r) ==
            Total(pr, [], [], r)
    ensures QueueSize(pr.queue[1..]) + SizeAll(listing) < QueueSize(pr.queue)
  {}

  lemma EndListing(pr: Progress, done: set<Path>, current: Path, listing: seq<Node>)
    requires Tidy(pr, done, current, listing, |listing|)
    ensures Settled(pr, done + {current})
  {}

  /** Breadth first from the root; results are in scan order. */
  method Scan(root: Node, r: Rules) returns (found: seq<Path>)
    requires root.Dir? && DistinctNames(root)
    ensures PathSet(found) == Below(root, [], r) && Distinct(found)
  {
    var seen: set<Path> := {[]};
    var queue := [Item([], root)];
    ghost var done: set<Path> := {};
    found := [];
    StartScan(root, r);
    while queue != []
      invariant Settled(Progress(queue, seen, found), done)
      invariant Total(Progress(queue, seen, found), [], [], r) == Below(root, [], r)
      decreases QueueSize(queue)
    {
      var Item(current, node) := queue[0];
      // an unreadable directory lists as empty
      var listing := if node.readable then node.children else [];
      ghost var pr := Progress(queue, seen, found);
      StartListing(pr, done, listing);
      ListedTotal(pr, listing, r);
      queue, seen, found := ScanListing(current, listing, r, queue[1..], seen, found, done);
      EndListing(Progress(queue, seen, found), done, current, listing);
      done := done + {current};
    }
    EndScan(Progress(queue, seen, found), r);
  }

  // ----- the recursive description is the declarative one -----------------------------

  lemma {:induction false} BelowAllIff(children: seq<Node>, path: Path, r: Rules, q: Path)
    ensures q in BelowAll(children, path, r) <==>
            exists i :: 0 <= i < |children| && q in BelowChild(children[i], path, r)
    decreases |children|
  {
    if children != [] {
      BelowAllIff(children[1..], path, r, q);
      forall i | 0 <= i < |children| - 1 ensures children[1..][i] == children[i + 1] {}
      if i :| 0 <= i < |children| && q in BelowChild(children[i], path, r) {
        if i > 0 {
          assert q in BelowChild(children[1..][i - 1], path, r);
        }
      }
    }
  }

  lemma {:induction false} ChildNamedIs(children: seq<Node>, i: nat)
    requires i < |children| && forall a, b :: 0 <= a < b < |children| ==> children[a].name != children[b].name
    ensures ChildNamed(children, children[i].name) == Some(children[i])
  {
    if i > 0 {
      ChildNamedIs(children[1..], i - 1);
    }
  }

  lemma {:induction false} ChildNamedIn(children: seq<Node>, name: string)
    ensures var c := ChildNamed(children, name);
            c.Some? ==> c.value in children && c.value.name == name
  {
    if children != [] {
      ChildNamedIn(children[1..], name);
    }
  }

  /** A path lies below a directory exactly when its tail leads there by the rules. */
  lemma {:induction false} BelowIff(node: Node, path: Path, r: Rules, q: Path)
    requires DistinctNames(node)
    ensures q in Below(node, path, r) <==> path <= q && FoundFrom(node, path, q[|path|..], r)
    decreases node
  {
    if node.Dir? && node.readable && |path| < r.maxDepth {
      BelowAllIff(node.children, path, r, q);
      if i :| 0 <= i < |node.children| && q in BelowChild(node.children[i], path, r) {
        BelowChildForward(node, path, r, q, i);
      }
      if path <= q && FoundFrom(node, path, q[|path|..], r) {
        BelowChildBack(node, path, r, q);
      }
    }
  }

  lemma {:induction false} BelowChildForward(node: Node, path: Path, r: Rules, q: Path, i: nat)
    requires DistinctNames(node) && node.Dir? && node.readable && |path| < r.maxDepth
    requires i < |node.children| && q in BelowChild(node.children[i], path, r)
    ensures path <= q && FoundFrom(node, path, q[|path|..], r)
    decreases node, 0
  {
    var child := node.children[i];
    var here := path + [child.name];
    ChildNamedIs(node.children, i);
    if r.classify(here, child).Descend? {
      BelowIff(child, here, r, q);
      assert path <= here <= q;
      assert q[|path|..][1..] == q[|here|..];
    }
  }

  lemma {:induction false} BelowChildBack(node: Node, path: Path, r: Rules, q: Path)
    requires DistinctNames(node) && node.Dir? && node.readable && |path| < r.maxDepth
    requires path <= q && FoundFrom(node, path, q[|path|..], r)
    ensures exists i :: 0 <= i < |node.children| && q in BelowChild(node.children[i], path, r)
    decreases node, 0
  {
    var rest := q[|path|..];
    var child := ChildNamed(node.children, rest[0]).value;
    ChildNamedIn(node.children, rest[0]);
    var i :| 0 <= i < |node.children| && node.children[i] == child;
    var here := path + [rest[0]];
    assert q == path + rest;
    if |rest| == 1 {
      assert q == here;
    } else {
      assert here <= q && q[|here|..] == rest[1..];
      BelowIff(child, here, r, q);
    }
    assert q in BelowChild(node.children[i], path, r);
  }

  lemma {:induction false} ResolveSnoc(root: Node, p: Path, k: nat)
    requires k < |p| && Resolve(root, p[..k]).Some?
    ensures var node := Resolve(root, p[..k]).value;
            Resolve(root, p[..k + 1]) == if node.Dir? then ChildNamed(node.children, p[k]) else None
    decreases k
  {
    if k == 0 {
      assert p[..1][1..] == [];
    } else {
      var child := ChildNamed(root.children, p[0]).value;
      assert p[..k][1..] == p[1..][..k - 1] && p[..k + 1][1..] == p[1..][..k];
      ResolveSnoc(child, p[1..], k - 1);
    }
  }

  /** What the rules ask of the step from the k-th directory on a path to the next. */
  ghost predicate StepOk(root: Node, p: Path, r: Rules, k: nat)
    requires k < |p|
  {
    && !r.skips(p[k])
    && Resolve(root, p[..k]).Some? && Resolve(root, p[..k]).value.Dir? && Resolve(root, p[..k]).value.readable
    && Resolve(root, p[..k + 1]).Some? && Resolve(root, p[..k + 1]).value.Dir?
    && r.classify(p[..k + 1], Resolve(root, p[..k + 1]).value) == if k + 1 == |p| then Emit else Descend
  }

  lemma FoundIsSteps(root: Node, p: Path, r: Rules)
    ensures Found(root, r, p) <==> 1 <= |p| <= r.maxDepth && forall k :: 0 <= k < |p| ==> StepOk(root, p, r, k)
  {
    assert p[..|p|] == p;
    if Found(root, r, p) {
      forall k | 0 <= k < |p| ensures StepOk(root, p, r, k) {}
    }
    if 1 <= |p| <= r.maxDepth && forall k :: 0 <= k < |p| ==> StepOk(root, p, r, k) {
      assert StepOk(root, p, r, |p| - 1);
      forall k | 0 <= k < |p|
        ensures !r.skips(p[k]) && Resolve(root, p[..k]).Some?
        ensures Resolve(root, p[..k]).value.Dir? && Resolve(root, p[..k]).value.readable
      {
        assert StepOk(root, p, r, k);
      }
      forall k | 0 <= k <= |p| ensures Resolve(root, p[..k]).Some? && Resolve(root, p[..k]).value.Dir? {
        if k < |p| {
          assert StepOk(root, p, r, k);
        }
      }
      forall k | 0 < k < |p| ensures r.classify(p[..k], Resolve(root, p[..k]).value) == Descend {
        assert StepOk(root, p, r, k - 1);
      }
    }
  }

  lemma {:induction false} FoundFromIff(root: Node, p: Path, r: Rules, k: nat)
    requires k <= |p| && Resolve(root, p[..k]).Some?
    ensures FoundFrom(Resolve(root, p[..k]).value, p[..k], p[k..], r) <==>
            k < |p| <= r.maxDepth && forall j :: k <= j < |p| ==> StepOk(root, p, r, j)
    decreases |p| - k
  {
    if k < |p| {
      ResolveSnoc(root, p, k);
      assert p[..k] + [p[k..][0]] == p[..k + 1] && p[k..][1..] == p[k + 1..];
      assert (forall j :: k <= j < |p| ==> StepOk(root, p, r, j)) <==>
             StepOk(root, p, r, k) && forall j :: k + 1 <= j < |p| ==> StepOk(root, p, r, j);
      if Resolve(root, p[..k + 1]).Some? {
        FoundFromIff(root, p, r, k + 1);
      }
    }
  }

  /** The scan finds exactly the paths the rules describe. */
  lemma {:induction false} BelowRootIff(root: Node, r: Rules, p: Path)
    requires DistinctNames(root)
    ensures p in Below(root, [], r) <==> Found(root, r, p)
  {
    BelowIff(root, [], r, p);
    assert p[..0] == [] && p[0..] == p;
    FoundFromIff(root, p, r, 0);
    FoundIsSteps(root, p, r);
  }

  /** No emitted path lies above another. */
  lemma FoundAntichain(root: Node, r: Rules, p: Path, q: Path)
    requires Found(root, r, p) && Found(root, r, q) && p <= q
    ensures p == q
  {
    assert q[..|p|] == p && p[..|p|] == p;
  }

  // ----- candidate repositories ---------------------------------------------------------

  function RepoRules(maxDepth: int): Rules {
    Rules(maxDepth, Skipped, (_: Path, node: Node) => if HasGitMarker(node) then Emit else Descend)
  }

  /** A git directory within the depth limit, with no skipped name on its path, no git directory strictly
      between it and the root, and every listing on the way readable. */
  ghost predicate IsCandidateRepo(root: Node, maxDepth: int, p: Path) {
    && 1 <= |p| <= maxDepth
    && (forall k :: 0 <= k < |p| ==> !Skipped(p[k]))
    && (forall k :: 0 <= k <= |p| ==> Resolve(root, p[..k]).Some? && Resolve(root, p[..k]).value.Dir?)
    && (forall k :: 0 <= k < |p| ==> Resolve(root, p[..k]).value.readable)
    && (forall k :: 0 < k < |p| ==> !HasGitMarker(Resolve(root, p[..k]).value))
    && p[..|p|] == p && HasGitMarker(Resolve(root, p[..|p|]).value)
  }

  method DiscoverCandidateRepos(root: Node, maxDepth: int) returns (repos: seq<Path>)
    requires root.Dir? && DistinctNames(root)
    ensures forall p :: p in repos <==> IsCandidateRepo(root, maxDepth, p)
    ensures Distinct(repos)
  {
    repos := Scan(root, RepoRules(maxDepth));
    forall p ensures p in repos <==> IsCandidateRepo(root, maxDepth, p) {
      BelowRootIff(root, RepoRules(maxDepth), p);
      CandidateIffFound(root, maxDepth, p);
    }
  }

  lemma CandidateIffFound(root: Node, maxDepth: int, p: Path)
    ensures IsCandidateRepo(root, maxDepth, p) <==> Found(root, RepoRules(maxDepth), p)
  {}

  lemma CandidatesAreAnAntichain(root: Node, maxDepth: int, p: Path, q: Path)
    requires IsCandidateRepo(root, maxDepth, p) && IsCandidateRepo(root, maxDepth, q) && p <= q
    ensures p == q
  {
    CandidateIffFound(root, maxDepth, p);
    CandidateIffFound(root, maxDepth, q);
    FoundAntichain(root, RepoRules(maxDepth), p, q);
  }

  // ----- folders reported as lacking git --------------------------------------------------

  ghost predicate IsGroupingDir(discovered: seq<Path>, g: Path) {
    g != [] && exists i :: 0 <= i < |discovered| && g < discovered[i]
  }

  function WarningRules(maxDepth: int, discovered: set<Path>, grouping: set<Path>): Rules {
    Rules(maxDepth, Skipped, (p: Path, node: Node) =>
      if HasGitMarker(node) || p in discovered then Drop
      else if p in grouping || (p != [] && Lower(p[|p| - 1]) in GROUP_NAMES) then Descend
      else Emit)
  }

  /** The proper ancestors of discovered repositories, below the root. */
  method GroupingDirs(discovered: seq<Path>) returns (grouping: set<Path>)
    ensures forall g :: g in grouping <==> IsGroupingDir(discovered, g)
  {
    grouping := {};
    for i := 0 to |discovered|
      invariant forall g :: g in grouping <==> IsGroupingDir(discovered[..i], g)
    {
      var repo := discovered[i];
      ghost var before := grouping;
      var n := |repo|;
      while n > 1
        invariant n <= |repo|
        invariant forall g :: g in grouping <==> g in before || (g != [] && n <= |g| && g < repo)
      {
        n := n - 1;
        grouping := grouping + {repo[..n]};
        forall g | g != [] && g < repo && |g| == n ensures g == repo[..n] {}
      }
      forall g ensures IsGroupingDir(discovered[..i + 1], g) <==> IsGroupingDir(discovered[..i], g) || (g != [] && g < repo) {
        GroupingSnoc(discovered, i, g);
      }
    }
    assert discovered[..|discovered|] == discovered;
  }

  lemma GroupingSnoc(discovered: seq<Path>, i: nat, g: Path)
    requires i < |discovered|
    ensures IsGroupingDir(discovered[..i + 1], g) <==> IsGroupingDir(discovered[..i], g) || (g != [] && g < discovered[i])
  {
    var longer, shorter := discovered[..i + 1], discovered[..i];
    assert longer[i] == discovered[i];
    assert forall k :: 0 <= k < i ==> longer[k] == shorter[k];
  }

  method CollectMissingGitRepoWarnings(root: Node, discovered: seq<Path>, maxDepth: int)
    returns (warned: seq<Path>, ghost grouping: set<Path>)
    requires root.Dir? && DistinctNames(root)
    ensures forall g :: g in grouping <==> IsGroupingDir(discovered, g)
    ensures forall p :: p in warned <==> Found(root, WarningRules(maxDepth, PathSet(discovered), grouping), p)
    ensures forall p :: p in warned <==> IsMissingGit(root, maxDepth, discovered, p)
    ensures Distinct(warned)
  {
    var discoveredPaths: set<Path> := set p | p in discovered;
    var groupingDirs := GroupingDirs(discovered);
    grouping := groupingDirs;
    var rules := WarningRules(maxDepth, discoveredPaths, groupingDirs);
    warned := Scan(root, rules);
    assert discoveredPaths == PathSet(discovered);
    forall p
      ensures p in warned <==> Found(root, rules, p)
      ensures p in warned <==> IsMissingGit(root, maxDepth, discovered, p)
    {
      BelowRootIff(root, rules, p);
      WarningIffFound(root, maxDepth, discovered, grouping, p);
    }
  }

  /** A directory that groups repositories: one lies below it, or it has one of the usual names, in any case. */
  ghost predicate Groups(repos: seq<Path>, p: Path) {
    IsGroupingDir(repos, p) || (p != [] && Lower(p[|p| - 1]) in GROUP_NAMES)
  }

  /** A directory that lacks git: within the depth limit, with no skipped name on its path and every listing on the way
      readable; neither it nor any directory between it and the root is a git directory or a known repository; all those
      between group repositories, and it does not. */
  ghost predicate IsMissingGit(root: Node, maxDepth: int, repos: seq<Path>, p: Path) {
    && 1 <= |p| <= maxDepth
    && (forall k :: 0 <= k < |p| ==> !Skipped(p[k]))
    && (forall k :: 0 <= k <= |p| ==> Resolve(root, p[..k]).Some? && Resolve(root, p[..k]).value.Dir?)
    && (forall k :: 0 <= k < |p| ==> Resolve(root, p[..k]).value.readable)
    && (forall k :: 0 < k <= |p| ==> !HasGitMarker(Resolve(root, p[..k]).value) && p[..k] !in repos)
    && (forall k :: 0 < k < |p| ==> Groups(repos, p[..k])) && p[..|p|] == p && !Groups(repos, p)
  }

  lemma ClassifySays(maxDepth: int, repos: seq<Path>, grouping: set<Path>, p: Path, node: Node)
    requires forall g :: g in grouping <==> IsGroupingDir(repos, g)
    ensures var verdict := WarningRules(maxDepth, PathSet(repos), grouping).classify(p, node);
            var plain := !HasGitMarker(node) && p !in repos;
            && (verdict == Descend <==> plain && Groups(repos, p)) && (verdict == Emit <==> plain && !Groups(repos, p))
  {}

  lemma WarningIffFound(root: Node, maxDepth: int, repos: seq<Path>, grouping: set<Path>, p: Path)
    requires forall g :: g in grouping <==> IsGroupingDir(repos, g)
    ensures Found(root, WarningRules(maxDepth, PathSet(repos), grouping), p) <==> IsMissingGit(root, maxDepth, repos, p)
  {
    if Found(root, WarningRules(maxDepth, PathSet(repos), grouping), p) {
      FoundIsMissing(root, maxDepth, repos, grouping, p);
    }
    if IsMissingGit(root, maxDepth, repos, p) {
      MissingIsFound(root, maxDepth, repos, grouping, p);
    }
  }

  lemma FoundIsMissing(root: Node, maxDepth: int, repos: seq<Path>, grouping: set<Path>, p: Path)
    requires forall g :: g in grouping <==> IsGroupingDir(repos, g)
    requires Found(root, WarningRules(maxDepth, PathSet(repos), grouping), p)
    ensures IsMissingGit(root, maxDepth, repos, p)
  {
    forall k | 0 < k <= |p|
      ensures !HasGitMarker(Resolve(root, p[..k]).value) && p[..k] !in repos
      ensures Groups(repos, p[..k]) <==> k < |p|
    {
      ClassifySays(maxDepth, repos, grouping, p[..k], Resolve(root, p[..k]).value);
    }
    assert p[..|p|] == p;
  }

  lemma MissingIsFound(root: Node, maxDepth: int, repos: seq<Path>, grouping: set<Path>, p: Path)
    requires forall g :: g in grouping <==> IsGroupingDir(repos, g)
    requires IsMissingGit(root, maxDepth, repos, p)
    ensures Found(root, WarningRules(maxDepth, PathSet(repos), grouping), p)
  {
    var rules := WarningRules(maxDepth, PathSet(repos), grouping);
    forall k | 0 < k <= |p|
      ensures rules.classify(p[..k], Resolve(root, p[..k]).value) == if k < |p| then Descend else Emit
    {
      ClassifySays(maxDepth, repos, grouping, p[..k], Resolve(root, p[..k]).value);
    }
    assert p[..|p|] == p;
  }

  /** No warning is a discovered repository, contains one, or lies inside one; with the repositories
      the warnings form an antichain. */
  lemma WarningsAvoidRepos(root: Node, maxDepth: int, repos: seq<Path>, grouping: set<Path>, w: Path, q: Path)
    requires forall p :: p in repos <==> IsCandidateRepo(root, maxDepth, p)
    requires forall g :: g in grouping <==> IsGroupingDir(repos, g)
    requires Found(root, WarningRules(maxDepth, PathSet(repos), grouping), w)
    ensures q in repos ==> !(w <= q) && !(q <= w)
    ensures Found(root, WarningRules(maxDepth, PathSet(repos), grouping), q) && w <= q ==> w == q
  {
    var rules := WarningRules(maxDepth, PathSet(repos), grouping);
    if Found(root, rules, q) && w <= q {
      FoundAntichain(root, rules, w, q);
    }
    assert w[..|w|] == w && q[..|q|] == q;
    assert q <= w ==> w[..|q|] == q;
  }
}
