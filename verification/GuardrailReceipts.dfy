/** Claiming a receipt file name by exclusive link, and the policy result cache. */
module GuardrailReceipts {
  import opened Wrappers

  const MAX_ATTEMPTS: nat := 16

  /** A receipt as published: complete content, linked from the temp file of one writer. */
  datatype Receipt = Receipt(writer: nat, content: string)

  /** Name n is `<agent>.json` for n == 1 and `<agent>-n.json` after that; no receipt is ever removed. */
  type Directory = map<nat, Receipt>

  ghost predicate PrefixClosed(d: Directory) {
    forall n, m :: n in d && 1 <= m <= n ==> m in d
  }

  predicate Candidate(n: nat) {
    1 <= n <= 16
  }

  /** The least free candidate. */
  ghost predicate LeastFree(d: Directory, n: nat) {
    Candidate(n) && n !in d && forall m :: 1 <= m < n ==> m in d
  }

  class ReceiptStore {
    var names: Directory

    constructor (names: Directory)
      ensures this.names == names
    {
      this.names := names;
    }

    /** link(): atomic, and refused when the name is taken. */
    method Link(n: nat, r: Receipt) returns (linked: bool)
      modifies this
      ensures linked == (n !in old(names))
      ensures names == if linked then old(names)[n := r] else old(names)
    {
      linked := n !in names;
      if linked {
        names := names[n := r];
      }
    }

    /** The whole loop with nobody else running: it takes the least free name, or finds all sixteen taken. */
    method WriteUniqueReceipt(writer: nat, content: string) returns (claimed: Option<nat>)
      modifies this
      ensures claimed.Some? ==>
                LeastFree(old(names), claimed.value) && names == old(names)[claimed.value := Receipt(writer, content)]
      ensures claimed.None? <==> forall n :: Candidate(n) ==> n in old(names)
      ensures claimed.None? ==> names == old(names)
    {
      var attempt := 1;
      while attempt <= MAX_ATTEMPTS
        invariant 1 <= attempt <= MAX_ATTEMPTS + 1
        invariant names == old(names)
        invariant forall m :: 1 <= m < attempt ==> m in names
      {
        var linked := Link(attempt, Receipt(writer, content));
        if linked {
          return Some(attempt);
        }
        attempt := attempt + 1;
      }
      return None;
    }
  }

  // ----- any number of writers, interleaved at every link call ------------------

  datatype Progress = Trying(attempt: nat) | Claimed(name: nat) | Exhausted | Aborted

  datatype State = State(names: Directory, writers: map<nat, Progress>, contents: map<nat, string>)

  /** One link call by one writer, or that writer dying or failing for another reason. */
  datatype Event = LinkCall(w: nat) | Abort(w: nat)

  function Next(s: State, e: Event): State {
    match e
    case Abort(w) =>
      if w in s.writers && s.writers[w].Trying? then s.(writers := s.writers[w := Aborted]) else s
    case LinkCall(w) =>
      if !(w in s.writers && w in s.contents && s.writers[w].Trying?) then s
      else
        var n := s.writers[w].attempt;
        if n !in s.names then
          s.(names := s.names[n := Receipt(w, s.contents[w])], writers := s.writers[w := Claimed(n)])
        else if n < MAX_ATTEMPTS then
          s.(writers := s.writers[w := Trying(n + 1)])
        else
          s.(writers := s.writers[w := Exhausted])
  }

  function Run(s: State, events: seq<Event>): State {
    if events == [] then s else Next(Run(s, events[..|events| - 1]), events[|events| - 1])
  }

  /** Writers about to start on a directory none of them has written to. */
  ghost predicate Initial(s: State) {
    && PrefixClosed(s.names)
    && s.writers.Keys == s.contents.Keys
    && (forall w :: w in s.writers ==> s.writers[w] == Trying(1))
    && (forall n :: n in s.names ==> s.names[n].writer !in s.writers)
  }

  /** Nothing already published is lost or changed. */
  ghost predicate Kept(s0: State, s: State) {
    && s.writers.Keys == s0.writers.Keys && s.contents == s0.contents && s.contents.Keys == s.writers.Keys
    && forall n :: n in s0.names ==> n in s.names && s.names[n] == s0.names[n]
  }

  /** Every new receipt belongs to the one writer that claimed it, and holds that writer's content. */
  ghost predicate Owned(s0: State, s: State) {
    forall n :: n in s.names && n !in s0.names ==>
      && Candidate(n) && s.names[n].writer in s.writers && s.names[n].writer in s.contents
      && s.writers[s.names[n].writer] == Claimed(n)
      && s.names[n].content == s.contents[s.names[n].writer]
  }

  ghost predicate Claims(s0: State, s: State) {
    forall w :: w in s.writers && s.writers[w].Claimed? ==>
      var n := s.writers[w].name;
      n in s.names && n !in s0.names && s.names[n].writer == w
  }

  /** A writer has seen every name before its attempt taken, and all sixteen before giving up. */
  ghost predicate HasSeen(names: Directory, p: Progress) {
    match p
    case Trying(attempt) => Candidate(attempt) && forall m :: 1 <= m < attempt ==> m in names
    case Exhausted => forall m :: 1 <= m <= MAX_ATTEMPTS ==> m in names
    case _ => true
  }

  ghost predicate Seen(s: State) {
    forall w :: w in s.writers ==> HasSeen(s.names, s.writers[w])
  }

  ghost predicate Inv(s0: State, s: State) {
    PrefixClosed(s.names) && Kept(s0, s) && Owned(s0, s) && Claims(s0, s) && Seen(s)
  }

  lemma ClaimKeepsInv(s0: State, s: State, w: nat)
    requires Inv(s0, s) && w in s.writers && s.writers[w].Trying? && s.writers[w].attempt !in s.names
    ensures Inv(s0, Next(s, LinkCall(w)))
  {
    var n := s.writers[w].attempt;
    var t := Next(s, LinkCall(w));
    assert t.names == s.names[n := Receipt(w, s.contents[w])] && t.writers == s.writers[w := Claimed(n)];
    assert Kept(s0, t);
    assert Owned(s0, t);
    assert Claims(s0, t);
  }

  lemma StepKeepsInv(s0: State, s: State, e: Event)
    requires Inv(s0, s)
    ensures Inv(s0, Next(s, e))
  {
    var t := Next(s, e);
    if e.LinkCall? && e.w in s.writers && s.writers[e.w].Trying? && s.writers[e.w].attempt !in s.names {
      ClaimKeepsInv(s0, s, e.w);
    } else {
      RetryKeepsInv(s0, s, e);
    }
  }

  lemma RetryKeepsInv(s0: State, s: State, e: Event)
    requires Inv(s0, s) && Next(s, e).names == s.names
    ensures Inv(s0, Next(s, e))
  {
    var t := Next(s, e);
    assert t == s || (e.w in s.writers && s.writers[e.w].Trying? && t == s.(writers := s.writers[e.w := t.writers[e.w]]));
    assert t != s ==> !t.writers[e.w].Claimed? && HasSeen(s.names, t.writers[e.w]);
    assert Owned(s0, t);
    assert Claims(s0, t);
  }

  lemma {:induction false} RunKeepsInv(s0: State, events: seq<Event>)
    requires Initial(s0)
    ensures Inv(s0, Run(s0, events))
    decreases |events|
  {
    if events != [] {
      RunKeepsInv(s0, events[..|events| - 1]);
      StepKeepsInv(s0, Run(s0, events[..|events| - 1]), events[|events| - 1]);
    }
  }

  /** In every interleaving: names stay prefix-closed, nothing already there changes, a claimed name holds
      that writer's full content, claims are pairwise distinct, and giving up means all sixteen are taken. */
  lemma {:induction false} ReceiptsAreSafe(s0: State, events: seq<Event>)
    requires Initial(s0)
    ensures var s := Run(s0, events);
            && PrefixClosed(s.names)
            && (forall n :: n in s0.names ==> n in s.names && s.names[n] == s0.names[n])
            && (forall w :: w in s.writers && s.writers[w].Claimed? ==>
                  && s.writers[w].name in s.names && s.writers[w].name !in s0.names
                  && w in s0.contents && s.names[s.writers[w].name] == Receipt(w, s0.contents[w]))
            && (forall w, v :: w in s.writers && v in s.writers && w != v ==>
                  s.writers[w].Claimed? && s.writers[v].Claimed? ==> s.writers[w].name != s.writers[v].name)
            && (forall w :: w in s.writers && s.writers[w].Exhausted? ==> forall n :: Candidate(n) ==> n in s.names)
  {
    RunKeepsInv(s0, events);
  }

  /** A receipt once published is never altered by anything that happens later. */
  lemma {:induction false} PublishedIsFinal(s0: State, events: seq<Event>, k: nat, n: nat)
    requires Initial(s0) && k <= |events| && n in Run(s0, events[..k]).names
    ensures n in Run(s0, events).names && Run(s0, events).names[n] == Run(s0, events[..k]).names[n]
    decreases |events|
  {
    if k == |events| {
      assert events[..k] == events;
    } else {
      assert events[..|events| - 1][..k] == events[..k];
      PublishedIsFinal(s0, events[..|events| - 1], k, n);
    }
  }

  lemma {:induction false} OwnersFill(names: Directory, k: nat) returns (owners: set<nat>)
    requires forall n :: 1 <= n <= k ==> n in names
    requires forall n, m :: n in names && m in names && n != m ==> names[n].writer != names[m].writer
    ensures |owners| == k && forall w :: w in owners <==> exists n :: 1 <= n <= k && names[n].writer == w
  {
    if k == 0 {
      owners := {};
    } else {
      var rest := OwnersFill(names, k - 1);
      owners := rest + {names[k].writer};
    }
  }

  /** Up to sixteen writers starting on an empty directory: none of them ever runs out of names. */
  lemma {:induction false} SixteenWritersFit(s0: State, events: seq<Event>, w: nat)
    requires Initial(s0) && s0.names == map[] && |s0.writers| <= 16 && w in s0.writers
    ensures w in Run(s0, events).writers && !Run(s0, events).writers[w].Exhausted?
  {
    var s := Run(s0, events);
    RunKeepsInv(s0, events);
    assert |s.writers| == |s.writers.Keys|;
    if s.writers[w].Exhausted? {
      forall n | 1 <= n <= MAX_ATTEMPTS ensures n in s.names {
        assert Candidate(n);
      }
      var owners := OwnersFill(s.names, MAX_ATTEMPTS);
      SubsetSize(owners, s.writers.Keys - {w});
    }
  }

  /** How many link calls writer w was given. */
  function Calls(events: seq<Event>, w: nat): nat {
    if events == [] then 0
    else Calls(events[..|events| - 1], w) + if events[|events| - 1] == LinkCall(w) then 1 else 0
  }

  /** A writer that does not die has used one candidate name for each link call it was given. */
  lemma {:induction false} ProgressIsCalls(s0: State, events: seq<Event>, w: nat)
    requires Initial(s0) && w in s0.writers && Abort(w) !in events
    ensures w in Run(s0, events).writers
    ensures match Run(s0, events).writers[w]
            case Trying(attempt) => attempt == Calls(events, w) + 1 && Calls(events, w) < MAX_ATTEMPTS
            case Claimed(_) => true
            case Exhausted => true
            case Aborted => false
    decreases |events|
  {
    if events != [] {
      var before, last := events[..|events| - 1], events[|events| - 1];
      assert last in events;
      ProgressIsCalls(s0, before, w);
      RunKeepsInv(s0, before);
    }
  }

  /** On any directory a writer given sixteen link calls that does not die ends with a name of its own, or has
      found all sixteen taken. */
  lemma {:induction false} PersistentWriterEnds(s0: State, events: seq<Event>, w: nat)
    requires Initial(s0) && w in s0.writers && Abort(w) !in events && Calls(events, w) >= 16
    ensures var s := Run(s0, events);
            && w in s.writers
            && (s.writers[w].Claimed?
                || (s.writers[w].Exhausted? && forall n :: Candidate(n) ==> n in s.names))
  {
    ProgressIsCalls(s0, events, w);
    ReceiptsAreSafe(s0, events);
  }

  /** Up to sixteen writers starting on an empty directory all succeed: each one that keeps trying publishes its
      own full content under one of the sixteen names, whatever the others do. */
  lemma {:induction false} SixteenWritersSucceed(s0: State, events: seq<Event>, w: nat)
    requires Initial(s0) && s0.names == map[] && |s0.writers| <= 16 && w in s0.writers
    requires Abort(w) !in events && Calls(events, w) >= 16
    ensures var s := Run(s0, events);
            && w in s.writers && s.writers[w].Claimed? && Candidate(s.writers[w].name)
            && w in s0.contents && s.writers[w].name in s.names
            && s.names[s.writers[w].name] == Receipt(w, s0.contents[w])
  {
    PersistentWriterEnds(s0, events, w);
    SixteenWritersFit(s0, events, w);
    ReceiptsAreSafe(s0, events);
    RunKeepsInv(s0, events);
  }

  lemma SubsetSize(a: set<nat>, b: set<nat>)
    requires a <= b
    ensures |a| <= |b|
  {
    var c := b - a;
    assert b == a + c;
  }

  /** A writer that gives up before it has claimed a name never claims one, and nothing is written for it. */
  lemma {:induction false} AbortedClaimsNothing(s: State, w: nat, rest: seq<Event>)
    requires w in s.writers && s.writers[w].Trying? && forall n :: n in s.names ==> s.names[n].writer != w
    ensures var v := Run(Next(s, Abort(w)), rest);
            && w in v.writers && v.writers[w] == Aborted && forall n :: n in v.names ==> v.names[n].writer != w
    decreases |rest|
  {
    if rest != [] {
      AbortedClaimsNothing(s, w, rest[..|rest| - 1]);
    }
  }

  // ----- the policy result cache ------------------------------------------------

  datatype CacheEntry = CacheEntry(cacheKey: string, value: string)

  /** The position of a key in insertion order. */
  function IndexOf(entries: seq<CacheEntry>, key: string): (i: int)
    ensures i == -1 <==> forall j :: 0 <= j < |entries| ==> entries[j].cacheKey != key
    ensures i != -1 ==> 0 <= i < |entries| && entries[i].cacheKey == key
  {
    if entries == [] then -1
    else if entries[|entries| - 1].cacheKey == key then |entries| - 1
    else IndexOf(entries[..|entries| - 1], key)
  }

  function Lookup(entries: seq<CacheEntry>, key: string): Option<string> {
    var i := IndexOf(entries, key);
    if i == -1 then None else Some(entries[i].value)
  }

  /** A map in insertion order, as the host language keeps it. */
  class PolicyResultCache {
    var entries: seq<CacheEntry>
    const maxSize: nat

    ghost predicate Valid()
      reads this
    {
      DistinctKeys(entries) && |entries| <= (if maxSize == 0 then 1 else maxSize)
    }

    constructor (maxSize: nat)
      ensures Valid() && entries == [] && this.maxSize == maxSize
    {
      this.maxSize := maxSize;
      entries := [];
    }

    method Get(key: string) returns (value: Option<string>)
      requires Valid()
      ensures value == Lookup(entries, key)
      ensures value.Some? <==> exists i :: 0 <= i < |entries| && entries[i].cacheKey == key
    {
      var i := IndexOf(entries, key);
      value := if i == -1 then None else Some(entries[i].value);
    }

    /** A full cache drops its oldest entry even when the key being set is already present. */
    method Set(key: string, value: string)
      requires Valid()
      modifies this
      ensures Valid()
      ensures forall k :: Lookup(entries, k) ==
                if k == key then Some(value)
                else if |old(entries)| >= maxSize && old(entries) != [] && k == old(entries)[0].cacheKey then None
                else Lookup(old(entries), k)
    {
      ghost var before := entries;
      if |entries| >= maxSize && entries != [] {
        entries := entries[1..];
      }
      var i := IndexOf(entries, key);
      if i == -1 {
        entries := entries + [CacheEntry(key, value)];
      } else {
        entries := entries[i := CacheEntry(key, value)];
      }
      assert entries == Put(Evict(before, maxSize), CacheEntry(key, value));
      forall k
        ensures Lookup(entries, k) ==
                if k == key then Some(value)
                else if |before| >= maxSize && before != [] && k == before[0].cacheKey then None
                else Lookup(before, k)
      {
        LookupEvictPut(before, maxSize, CacheEntry(key, value), k);
      }
    }

    method Delete(key: string)
      requires Valid()
      modifies this
      ensures Valid()
      ensures forall k :: Lookup(entries, k) == if k == key then None else Lookup(old(entries), k)
    {
      var i := IndexOf(entries, key);
      if i != -1 {
        forall k { LookupRemove(entries, i, k); }
        entries := entries[..i] + entries[i + 1..];
      }
    }
  }

  ghost predicate DistinctKeys(entries: seq<CacheEntry>) {
    forall i, j :: 0 <= i < j < |entries| ==> entries[i].cacheKey != entries[j].cacheKey
  }

  /** With distinct keys a lookup finds the value stored anywhere under the key. */
  lemma LookupByMembership(entries: seq<CacheEntry>, key: string)
    requires DistinctKeys(entries)
    ensures forall i :: 0 <= i < |entries| && entries[i].cacheKey == key ==> Lookup(entries, key) == Some(entries[i].value)
    ensures Lookup(entries, key).None? <==> forall i :: 0 <= i < |entries| ==> entries[i].cacheKey != key
  {}

  lemma LookupRemove(entries: seq<CacheEntry>, i: nat, key: string)
    requires DistinctKeys(entries) && i < |entries|
    ensures var rest := entries[..i] + entries[i + 1..];
            && DistinctKeys(rest)
            && Lookup(rest, key) == if key == entries[i].cacheKey then None else Lookup(entries, key)
  {
    var rest := entries[..i] + entries[i + 1..];
    LookupByMembership(rest, key);
    LookupByMembership(entries, key);
    var j := IndexOf(entries, key);
    if j != -1 && j != i {
      assert rest[if j < i then j else j - 1] == entries[j];
    }
  }

  function Put(entries: seq<CacheEntry>, e: CacheEntry): seq<CacheEntry> {
    var i := IndexOf(entries, e.cacheKey);
    if i == -1 then entries + [e] else entries[i := e]
  }

  function Evict(entries: seq<CacheEntry>, maxSize: nat): seq<CacheEntry> {
    if |entries| >= maxSize && entries != [] then entries[1..] else entries
  }

  lemma LookupEvict(entries: seq<CacheEntry>, maxSize: nat, key: string)
    requires DistinctKeys(entries)
    ensures DistinctKeys(Evict(entries, maxSize))
    ensures Lookup(Evict(entries, maxSize), key) ==
            if |entries| >= maxSize && entries != [] && key == entries[0].cacheKey then None
            else Lookup(entries, key)
  {
    if |entries| >= maxSize && entries != [] {
      assert entries[1..] == entries[..0] + entries[1..];
      LookupRemove(entries, 0, key);
    }
  }

  lemma LookupEvictPut(entries: seq<CacheEntry>, maxSize: nat, e: CacheEntry, key: string)
    requires DistinctKeys(entries)
    ensures DistinctKeys(Put(Evict(entries, maxSize), e))
    ensures Lookup(Put(Evict(entries, maxSize), e), key) ==
            if key == e.cacheKey then Some(e.value)
            else if |entries| >= maxSize && entries != [] && key == entries[0].cacheKey then None
            else Lookup(entries, key)
  {
    LookupEvict(entries, maxSize, key);
    LookupPut(Evict(entries, maxSize), e, key);
  }

  lemma LookupPut(entries: seq<CacheEntry>, e: CacheEntry, key: string)
    requires DistinctKeys(entries)
    ensures DistinctKeys(Put(entries, e))
    ensures Lookup(Put(entries, e), key) == if key == e.cacheKey then Some(e.value) else Lookup(entries, key)
  {
    var out, i, j := Put(entries, e), IndexOf(entries, e.cacheKey), IndexOf(entries, key);
    LookupByMembership(out, key);
    LookupByMembership(entries, key);
    assert out[if i == -1 then |entries| else i] == e;
    if j != -1 && key != e.cacheKey {
      assert out[j] == entries[j];
    }
  }
}
