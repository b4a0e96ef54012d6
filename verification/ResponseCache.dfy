/** The exact-match response cache (cache.rs). */
module ResponseCache {
  import opened Basics
  import opened OldestFirst

  /** What a hit gives back: all parts of one stored response. */
  datatype Response = Response(body: string, status: nat, headers: seq<string>, tier: string)

  type Entries = map<nat, Stamped<Response>>

  function Hit(entries: Entries, key: nat, now: nat, ttl: nat): Option<Response>
  {
    if key in entries && IsFresh(entries[key], now, ttl) then Some(entries[key].value) else None
  }

  /** A lookup drops the entry it finds expired. */
  function GetStep(entries: Entries, key: nat, now: nat, ttl: nat): Entries
  {
    if key in entries && !IsFresh(entries[key], now, ttl) then entries - {key} else entries
  }

  ghost predicate StoreStep(before: Entries, after: Entries, capacity: nat, key: nat, response: Response, now: nat)
  {
    exists kept: Entries :: Evicts(before, kept, capacity) && after == kept[key := Stamped(response, now)]
  }

  class ResponseCache {
    const capacity: nat
    const ttl: nat
    var entries: Entries

    constructor (capacity: nat, ttl: nat)
      ensures this.capacity == capacity && this.ttl == ttl && entries == map[]
    {
      this.capacity, this.ttl, entries := capacity, ttl, map[];
    }

    method Get(key: nat, now: nat) returns (found: Option<Response>)
      modifies this`entries
      ensures found == Hit(old(entries), key, now, ttl)
      ensures entries == GetStep(old(entries), key, now, ttl)
    {
      if key in entries {
        if IsFresh(entries[key], now, ttl) {
          return Some(entries[key].value);
        }
        entries := entries - {key};
      }
      return None;
    }

    method Store(key: nat, response: Response, now: nat)
      modifies this`entries
      ensures StoreStep(old(entries), entries, capacity, key, response, now)
    {
      var kept := EvictIfFull(entries, capacity);
      entries := kept[key := Stamped(response, now)];
    }
  }

  // ----- whole runs --------------------------------------------------------------------------------

  datatype Op = Get(key: nat, now: nat) | Store(key: nat, response: Response, now: nat)

  ghost predicate IsStep(before: Entries, after: Entries, op: Op, capacity: nat, ttl: nat)
  {
    match op
    case Get(key, now) => after == GetStep(before, key, now, ttl)
    case Store(key, response, now) => StoreStep(before, after, capacity, key, response, now)
  }

  ghost predicate IsRun(states: seq<Entries>, ops: seq<Op>, capacity: nat, ttl: nat)
  {
    |states| == |ops| + 1
    && forall i :: 0 <= i < |ops| ==> IsStep(states[i], states[i + 1], ops[i], capacity, ttl)
  }

  /** The last response stored for a key, with its time. */
  function LatestStore(ops: seq<Op>, key: nat): Option<Stamped<Response>>
  {
    if ops == [] then None
    else if Last(ops).Store? && Last(ops).key == key then Some(Stamped(Last(ops).response, Last(ops).now))
    else LatestStore(DropLast(ops), key)
  }

  function StoreCount(ops: seq<Op>): nat
  {
    if ops == [] then 0 else StoreCount(DropLast(ops)) + if Last(ops).Store? then 1 else 0
  }

  /** Nothing is ever served but the latest response stored for its key. */
  lemma {:induction false} EntriesAreLatestStores(states: seq<Entries>, ops: seq<Op>, capacity: nat, ttl: nat, key: nat)
    requires IsRun(states, ops, capacity, ttl) && states[0] == map[] && key in Last(states)
    ensures LatestStore(ops, key) == Some(Last(states)[key])
  {
    var n := |ops|;
    if n > 0 {
      assert IsStep(states[n - 1], states[n], ops[n - 1], capacity, ttl);
      var op := ops[n - 1];
      if op.Store? {
        var kept: Entries :| Evicts(states[n - 1], kept, capacity) && states[n] == kept[op.key := Stamped(op.response, op.now)];
        SizeAfterEviction(states[n - 1], kept, capacity);
      }
      if !(op.Store? && op.key == key) {
        EntriesAreLatestStores(DropLast(states), DropLast(ops), capacity, ttl, key);
      }
    }
  }

  /** A hit is exactly the latest response stored for the key, and it is younger than the time to live. */
  lemma HitIsLatestStore(states: seq<Entries>, ops: seq<Op>, capacity: nat, ttl: nat, key: nat, now: nat)
    requires IsRun(states, ops, capacity, ttl) && states[0] == map[]
    ensures Hit(Last(states), key, now, ttl).Some? ==>
      LatestStore(ops, key).Some?
      && Hit(Last(states), key, now, ttl) == Some(LatestStore(ops, key).value.value)
      && Age(LatestStore(ops, key).value.at, now) < ttl
  {
    if key in Last(states) {
      EntriesAreLatestStores(states, ops, capacity, ttl, key);
    }
  }

  lemma StepKeepsSize(before: Entries, after: Entries, op: Op, capacity: nat, ttl: nat)
    requires IsStep(before, after, op, capacity, ttl) && |before| <= if capacity == 0 then 1 else capacity
    ensures |after| <= if capacity == 0 then 1 else capacity
  {
    match op
    case Get(key, now) =>
      assert after.Keys <= before.Keys;
      SubsetSize(after.Keys, before.Keys);
    case Store(key, response, now) =>
      var kept: Entries :| Evicts(before, kept, capacity) && after == kept[key := Stamped(response, now)];
      SizeAfterEviction(before, kept, capacity);
      SizeAfterInsert(kept, key, Stamped(response, now));
  }

  /** The cache never holds more than its capacity, or one entry if the capacity is zero. */
  lemma {:induction false} SizeBounded(states: seq<Entries>, ops: seq<Op>, capacity: nat, ttl: nat)
    requires IsRun(states, ops, capacity, ttl) && states[0] == map[]
    ensures |Last(states)| <= if capacity == 0 then 1 else capacity
  {
    var n := |ops|;
    if n > 0 {
      SizeBounded(DropLast(states), DropLast(ops), capacity, ttl);
      assert IsStep(states[n - 1], states[n], ops[n - 1], capacity, ttl);
      StepKeepsSize(states[n - 1], states[n], ops[n - 1], capacity, ttl);
    }
  }

  /** A capacity of zero does not switch this cache off: the last response stored is kept and served. */
  lemma CapacityZeroServesLastStore(before: Entries, after: Entries, key: nat, response: Response, now: nat, ttl: nat)
    requires StoreStep(before, after, 0, key, response, now) && |before| <= 1
    ensures after == map[key := Stamped(response, now)]
    ensures Hit(after, key, now, ttl) == (if ttl > 0 then Some(response) else None)
  {
    var kept: Entries :| Evicts(before, kept, 0) && after == kept[key := Stamped(response, now)];
    SizeAfterEviction(before, kept, 0);
    assert kept == map[];
  }

  /** An operation between a store at `at` and a later lookup of the same key: it stores other keys, later,
      and looks no further than the entry lives. */
  ghost predicate SparesEntry(op: Op, key: nat, at: nat, ttl: nat)
  {
    match op
    case Get(k, now) => k == key ==> Age(at, now) < ttl
    case Store(k, _, now) => k != key && at < now
  }

  lemma StepKeepsEntry(before: Entries, after: Entries, op: Op, capacity: nat, ttl: nat, key: nat, at: nat, stores: nat)
    requires IsStep(before, after, op, capacity, ttl) && SparesEntry(op, key, at, ttl)
    requires key in before && before[key].at == at && forall j <- before :: j != key ==> before[j].at != at
    requires |Newer(before, at)| <= stores
    requires op.Store? ==> stores + 1 < capacity
    ensures key in after && after[key] == before[key] && forall j <- after :: j != key ==> after[j].at != at
    ensures |Newer(after, at)| <= stores + if op.Store? then 1 else 0
  {
    match op
    case Get(k, now) =>
      NewerShrinks(before, after, at);
    case Store(k, response, now) =>
      var kept: Entries :| Evicts(before, kept, capacity) && after == kept[k := Stamped(response, now)];
      SizeAfterEviction(before, kept, capacity);
      NewerShrinks(before, kept, at);
      NewerGrowsByOne(kept, k, Stamped(response, now), at);
      if key !in kept {
        EvictedWhenOthersNewer(before, kept, capacity, key);
        assert false;
      }
  }

  /** A stored response survives any operations with fewer than `capacity` further stores, until it
      expires: insert times that strictly increase make the victim always an older entry. */
  lemma {:induction false} EntrySurvives(states: seq<Entries>, ops: seq<Op>, capacity: nat, ttl: nat, key: nat, at: nat, n: nat)
    requires IsRun(states, ops, capacity, ttl) && n <= |ops| && StoreCount(ops[..n]) < capacity
    requires key in states[0] && states[0][key].at == at && forall j <- states[0] :: j != key ==> states[0][j].at < at
    requires forall op <- ops[..n] :: SparesEntry(op, key, at, ttl)
    ensures key in states[n] && states[n][key] == states[0][key]
    ensures forall j <- states[n] :: j != key ==> states[n][j].at != at
    ensures |Newer(states[n], at)| <= StoreCount(ops[..n])
  {
    if n == 0 {
      assert Newer(states[0], at) == {};
    } else {
      assert DropLast(ops[..n]) == ops[..n - 1];
      EntrySurvives(states, ops, capacity, ttl, key, at, n - 1);
      assert ops[n - 1] in ops[..n];
      hide SparesEntry;
      assert IsStep(states[n - 1], states[n], ops[n - 1], capacity, ttl);
      hide IsStep;
      StepKeepsEntry(states[n - 1], states[n], ops[n - 1], capacity, ttl, key, at, StoreCount(ops[..n - 1]));
    }
  }

  /** ... and so it is served: a lookup younger than the time to live gives back the very response stored. */
  lemma StoredIsServed(states: seq<Entries>, ops: seq<Op>, capacity: nat, ttl: nat, key: nat, response: Response, at: nat,
      now: nat)
    requires IsRun(states, ops, capacity, ttl) && StoreCount(ops) < capacity
    requires key in states[0] && states[0][key] == Stamped(response, at)
    requires forall j <- states[0] :: j != key ==> states[0][j].at < at
    requires forall op <- ops :: SparesEntry(op, key, at, ttl)
    requires at <= now < at + ttl
    ensures Hit(Last(states), key, now, ttl) == Some(response)
  {
    assert ops[..|ops|] == ops;
    EntrySurvives(states, ops, capacity, ttl, key, at, |ops|);
  }
}
