/** The semantic cache: near-duplicate requests of one tenant share an answer (semantic_cache.rs). */
module SemanticCache {
  import opened Basics
  import opened Sorting
  import opened OldestFirst
  import Exact = ResponseCache

  type Embedding = seq<real>

  datatype Entry = Entry(embedding: Embedding, prompt: string, response: Exact.Response, tenant: string, at: nat)

  datatype Match = Match(similarity: real, entry: Entry)

  function IsLive(now: nat, ttl: nat): Entry -> bool
  {
    (e: Entry) => Age(e.at, now) < ttl
  }

  /** The candidate similarities of a lookup, and the bar they must reach. */
  datatype Query = Query(embedding: Embedding, tenant: string, threshold: real, similarity: (Embedding, Embedding) -> real)

  predicate Qualifies(q: Query, e: Entry)
  {
    e.tenant == q.tenant && q.similarity(q.embedding, e.embedding) >= q.threshold
  }

  /** The most similar qualifying entry, the first of them on a tie. */
  function Best(q: Query, entries: seq<Entry>): Option<Match>
  {
    if entries == [] then None
    else
      var rest, e := Best(q, DropLast(entries)), Last(entries);
      var sim := q.similarity(q.embedding, e.embedding);
      if Qualifies(q, e) && (rest.None? || sim > rest.value.similarity) then Some(Match(sim, e)) else rest
  }

  function InsertedOrder(): (Entry, Entry) -> bool
  {
    (a: Entry, b: Entry) => a.at <= b.at
  }

  function StoreStep(entries: seq<Entry>, capacity: nat, e: Entry): seq<Entry>
  {
    if capacity == 0 then entries
    else if |entries| >= capacity && entries != [] then Sort(entries, InsertedOrder())[1..] + [e]
    else entries + [e]
  }

  class SemanticCache {
    const capacity: nat
    const ttl: nat
    const threshold: real
    const similarity: (Embedding, Embedding) -> real
    var entries: seq<Entry>

    constructor (capacity: nat, ttl: nat, threshold: real, similarity: (Embedding, Embedding) -> real)
      ensures this.capacity == capacity && this.ttl == ttl && this.threshold == threshold
      ensures this.similarity == similarity && entries == []
    {
      this.capacity, this.ttl, this.threshold, this.similarity := capacity, ttl, threshold, similarity;
      entries := [];
    }

    method Lookup(embedding: Embedding, tenant: string, now: nat) returns (hit: Option<Match>)
      modifies this`entries
      ensures entries == Filter(old(entries), IsLive(now, ttl))
      ensures hit == Best(Query(embedding, tenant, threshold, similarity), entries)
    {
      entries := Filter(entries, IsLive(now, ttl));
      ghost var q := Query(embedding, tenant, threshold, similarity);
      hit := None;
      for i := 0 to |entries|
        invariant hit == Best(q, entries[..i])
      {
        assert DropLast(entries[..i + 1]) == entries[..i];
        var e := entries[i];
        if e.tenant != tenant {
          continue;
        }
        var sim := similarity(embedding, e.embedding);
        if sim >= threshold && (hit.None? || sim > hit.value.similarity) {
          hit := Some(Match(sim, e));
        }
      }
      assert entries[..|entries|] == entries;
    }

    method Store(embedding: Embedding, prompt: string, response: Exact.Response, tenant: string, now: nat)
      modifies this`entries
      ensures entries == StoreStep(old(entries), capacity, Entry(embedding, prompt, response, tenant, now))
    {
      if capacity == 0 {
        return;
      }
      if |entries| >= capacity {
        entries := Sort(entries, InsertedOrder());
        SortKeepsMembers(old(entries), InsertedOrder());
        if entries != [] {
          entries := entries[1..];
        }
      }
      entries := entries + [Entry(embedding, prompt, response, tenant, now)];
    }
  }

  // ----- what a lookup finds --------------------------------------------------------------------

  /** Entry `i` is the answer: it qualifies, nothing that qualifies is more similar, and nothing before it
      is as similar. */
  ghost predicate IsBestAt(q: Query, entries: seq<Entry>, i: nat)
  {
    i < |entries| && Qualifies(q, entries[i])
    && var sim := q.similarity(q.embedding, entries[i].embedding);
    (forall e <- entries :: Qualifies(q, e) ==> q.similarity(q.embedding, e.embedding) <= sim)
    && forall e <- entries[..i] :: Qualifies(q, e) ==> q.similarity(q.embedding, e.embedding) < sim
  }

  function MatchAt(q: Query, entries: seq<Entry>, i: nat): Option<Match>
    requires i < |entries|
  {
    Some(Match(q.similarity(q.embedding, entries[i].embedding), entries[i]))
  }

  /** A lookup misses exactly when no entry of the tenant is similar enough, and otherwise returns the
      first entry of maximal similarity, always one of the same tenant. */
  lemma {:induction false} BestMeaning(q: Query, entries: seq<Entry>)
    ensures Best(q, entries).None? <==> forall e <- entries :: !Qualifies(q, e)
    ensures Best(q, entries).Some? ==> exists i: nat :: IsBestAt(q, entries, i) && Best(q, entries) == MatchAt(q, entries, i)
  {
    if entries != [] {
      var rest, e := DropLast(entries), Last(entries);
      BestMeaning(q, rest);
      assert entries == rest + [e];
      if Best(q, rest).Some? && Best(q, entries) == Best(q, rest) {
        var i: nat :| IsBestAt(q, rest, i) && Best(q, rest) == MatchAt(q, rest, i);
        assert entries[..i] == rest[..i];
        assert IsBestAt(q, entries, i);
      } else if Best(q, entries).Some? {
        assert entries[..|rest|] == rest;
        assert IsBestAt(q, entries, |rest|);
      }
    }
  }

  /** What a hit gives back is live, of the asking tenant, and similar enough. */
  lemma HitIsLiveAndOwn(q: Query, entries: seq<Entry>, now: nat, ttl: nat)
    ensures var hit := Best(q, Filter(entries, IsLive(now, ttl)));
      hit.Some? ==>
        hit.value.entry in entries && Age(hit.value.entry.at, now) < ttl
        && hit.value.entry.tenant == q.tenant && hit.value.similarity >= q.threshold
  {
    FilterMembers(entries, IsLive(now, ttl));
    BestMeaning(q, Filter(entries, IsLive(now, ttl)));
  }

  // ----- whole runs --------------------------------------------------------------------------------

  datatype Op = LookupOp(now: nat) | StoreOp(entry: Entry)

  function Step(entries: seq<Entry>, op: Op, capacity: nat, ttl: nat): seq<Entry>
  {
    match op
    case LookupOp(now) => Filter(entries, IsLive(now, ttl))
    case StoreOp(e) => StoreStep(entries, capacity, e)
  }

  function Run(entries: seq<Entry>, ops: seq<Op>, capacity: nat, ttl: nat): seq<Entry>
  {
    if ops == [] then entries else Step(Run(entries, DropLast(ops), capacity, ttl), Last(ops), capacity, ttl)
  }

  /** The cache never exceeds its capacity; with capacity zero it holds nothing. */
  lemma {:induction false} SizeBounded(ops: seq<Op>, capacity: nat, ttl: nat)
    ensures |Run([], ops, capacity, ttl)| <= capacity
  {
    if ops != [] {
      SizeBounded(DropLast(ops), capacity, ttl);
      var before := Run([], DropLast(ops), capacity, ttl);
      match Last(ops)
      case LookupOp(now) => FilterMembers(before, IsLive(now, ttl));
      case StoreOp(e) => SortKeepsMembers(before, InsertedOrder());
    }
  }

  function StoreCount(ops: seq<Op>): nat
  {
    if ops == [] then 0 else StoreCount(DropLast(ops)) + if Last(ops).StoreOp? then 1 else 0
  }

  /** At most `newer` entries stand behind the entry, in a list that is in insertion order. */
  ghost predicate StandsBehind(entries: seq<Entry>, e: Entry, newer: nat)
  {
    IsSorted(entries, InsertedOrder())
    && exists i :: 0 <= i < |entries| && entries[i] == e && |entries| - 1 - i <= newer
  }

  lemma SortedAfterStore(entries: seq<Entry>, stored: Entry, dropped: nat)
    requires IsSorted(entries, InsertedOrder()) && dropped <= |entries|
    requires forall x <- entries :: x.at <= stored.at
    ensures IsSorted(entries[dropped..] + [stored], InsertedOrder())
  {
    var after := entries[dropped..] + [stored];
    forall i, j | 0 <= i < j < |after|
      ensures InsertedOrder()(after[i], after[j])
    {
      if j < |after| - 1 {
        assert InsertedOrder()(entries[dropped + i], entries[dropped + j]);
      } else {
        assert entries[dropped + i] in entries;
      }
    }
  }

  lemma StoreKeepsEntry(entries: seq<Entry>, capacity: nat, e: Entry, newer: nat, stored: Entry)
    requires StandsBehind(entries, e, newer) && newer + 1 < capacity
    requires forall x <- entries :: x.at <= stored.at
    ensures StandsBehind(StoreStep(entries, capacity, stored), e, newer + 1)
  {
    hide Sort;
    var dropped := if |entries| >= capacity then 1 else 0;
    SortOfSorted(entries, InsertedOrder());
    SortedAfterStore(entries, stored, dropped);
    var after := StoreStep(entries, capacity, stored);
    assert after == entries[dropped..] + [stored];
    var i :| 0 <= i < |entries| && entries[i] == e && |entries| - 1 - i <= newer;
    hide IsSorted;
    hide StoreStep;
    assert after[i - dropped] == e;
  }

  /** A kept element stays, with no more elements behind it than before. */
  lemma {:induction false} FilterKeepsBehind(s: seq<Entry>, i: nat, p: Entry -> bool) returns (j: nat)
    requires i < |s| && p(s[i])
    ensures j < |Filter(s, p)| && Filter(s, p)[j] == s[i] && |Filter(s, p)| - j <= |s| - i
  {
    if i == |s| - 1 {
      j := |Filter(DropLast(s), p)|;
    } else {
      j := FilterKeepsBehind(DropLast(s), i, p);
    }
  }

  lemma LookupKeepsEntry(entries: seq<Entry>, e: Entry, newer: nat, now: nat, ttl: nat)
    requires StandsBehind(entries, e, newer) && Age(e.at, now) < ttl
    ensures StandsBehind(Filter(entries, IsLive(now, ttl)), e, newer)
  {
    hide Filter;
    hide IsSorted;
    var live := IsLive(now, ttl);
    var i :| 0 <= i < |entries| && entries[i] == e && |entries| - 1 - i <= newer;
    var j := FilterKeepsBehind(entries, i, live);
    FilterStaysSorted(entries, live);
    assert Filter(entries, live)[j] == e;
  }

  lemma {:induction false} FilterStaysSorted(s: seq<Entry>, p: Entry -> bool)
    requires IsSorted(s, InsertedOrder())
    ensures IsSorted(Filter(s, p), InsertedOrder())
  {
    if s != [] {
      FilterStaysSorted(DropLast(s), p);
      FilterMembers(DropLast(s), p);
      var kept := Filter(DropLast(s), p);
      forall i | 0 <= i < |kept|
        ensures kept[i].at <= Last(s).at
      {
        assert kept[i] in kept;
        var k :| 0 <= k < |s| - 1 && s[k] == kept[i];
        assert InsertedOrder()(s[k], s[|s| - 1]);
      }
    }
  }

  /** Operations in clock order that leave an entry alive. */
  ghost predicate SparesEntry(entries: seq<Entry>, op: Op, e: Entry, ttl: nat)
  {
    match op
    case LookupOp(now) => Age(e.at, now) < ttl
    case StoreOp(stored) => forall x <- entries :: x.at <= stored.at
  }

  /** An entry survives fewer than `capacity` further stores until it expires: the victim is always the
      oldest entry. */
  lemma {:induction false} EntrySurvives(entries: seq<Entry>, ops: seq<Op>, capacity: nat, ttl: nat, e: Entry)
    requires entries != [] && Last(entries) == e && IsSorted(entries, InsertedOrder())
    requires StoreCount(ops) < capacity
    requires forall i :: 0 <= i < |ops| ==> SparesEntry(Run(entries, ops[..i], capacity, ttl), ops[i], e, ttl)
    ensures e in Run(entries, ops, capacity, ttl)
    ensures StandsBehind(Run(entries, ops, capacity, ttl), e, StoreCount(ops))
  {
    if ops == [] {
      assert entries[|entries| - 1] == e;
    } else {
      var before := DropLast(ops);
      forall i | 0 <= i < |before|
        ensures SparesEntry(Run(entries, before[..i], capacity, ttl), before[i], e, ttl)
      {
        assert before[..i] == ops[..i] && before[i] == ops[i];
        assert SparesEntry(Run(entries, ops[..i], capacity, ttl), ops[i], e, ttl);
      }
      EntrySurvives(entries, before, capacity, ttl, e);
      var mid := Run(entries, before, capacity, ttl);
      assert ops[..|before|] == before;
      assert SparesEntry(mid, Last(ops), e, ttl);
      hide IsSorted;
      hide StoreStep;
      match Last(ops)
      case LookupOp(now) => LookupKeepsEntry(mid, e, StoreCount(before), now, ttl);
      case StoreOp(stored) => StoreKeepsEntry(mid, capacity, e, StoreCount(before), stored);
    }
  }
}
