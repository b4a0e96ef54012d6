/** Session continuity: the tier a conversation has reached is a floor for its later requests (session.rs
    and the request handler of main.rs). */
module Session {
  import opened Basics
  import opened Tiers
  import opened OldestFirst

  type Sessions = map<string, Stamped<Tier>>

  function SessionTier(sessions: Sessions, key: string, now: nat, ttl: nat): Option<Tier>
  {
    if key in sessions && IsFresh(sessions[key], now, ttl) then Some(sessions[key].value) else None
  }

  function GetStep(sessions: Sessions, key: string, now: nat, ttl: nat): Sessions
  {
    if key in sessions && !IsFresh(sessions[key], now, ttl) then sessions - {key} else sessions
  }

  /** The tier written for a session: never below the one still recorded. */
  function RaisedTier(kept: Sessions, key: string, tier: Tier): Tier
  {
    if key in kept then MaxTier(kept[key].value, tier) else tier
  }

  /** An update first makes room, then reads the recorded tier: the two can meet in the same entry. */
  ghost predicate UpdateStep(before: Sessions, after: Sessions, capacity: nat, key: string, tier: Tier, now: nat)
  {
    exists kept: Sessions :: Evicts(before, kept, capacity) && after == kept[key := Stamped(RaisedTier(kept, key, tier), now)]
  }

  class SessionTracker {
    const capacity: nat
    const ttl: nat
    var sessions: Sessions

    constructor (capacity: nat, ttl: nat)
      ensures this.capacity == capacity && this.ttl == ttl && sessions == map[]
    {
      this.capacity, this.ttl, sessions := capacity, ttl, map[];
    }

    method Get(key: string, now: nat) returns (tier: Option<Tier>)
      modifies this`sessions
      ensures tier == SessionTier(old(sessions), key, now, ttl)
      ensures sessions == GetStep(old(sessions), key, now, ttl)
    {
      if key in sessions {
        if IsFresh(sessions[key], now, ttl) {
          return Some(sessions[key].value);
        }
        sessions := sessions - {key};
      }
      return None;
    }

    method Update(key: string, tier: Tier, now: nat)
      modifies this`sessions
      ensures UpdateStep(old(sessions), sessions, capacity, key, tier, now)
    {
      var kept := EvictIfFull(sessions, capacity);
      var newTier := if key in kept then MaxTier(kept[key].value, tier) else tier;
      sessions := kept[key := Stamped(newTier, now)];
    }
  }

  /** An update of a session can lower its recorded tier. */
  ghost predicate CanLower(before: Sessions, capacity: nat, key: string, tier: Tier, now: nat)
    requires key in before
  {
    exists after: Sessions :: UpdateStep(before, after, capacity, key, tier, now) && Lowers(before, after, key)
  }

  predicate Lowers(before: Sessions, after: Sessions, key: string)
    requires key in before
  {
    key in after && Rank(after[key].value) < Rank(before[key].value)
  }

  /** The tracker alone does not keep a session's tier: an update can lower it exactly when the tracker is full, the
      session is one of its oldest, and the new tier is lower. */
  lemma UpdateLowersExactlyOnSelfEviction(before: Sessions, capacity: nat, key: string, tier: Tier, now: nat)
    requires key in before
    ensures CanLower(before, capacity, key, tier, now)
      <==> capacity <= |before| && IsOldest(before, key) && Rank(tier) < Rank(before[key].value)
  {
    if CanLower(before, capacity, key, tier, now) {
      var after: Sessions :| UpdateStep(before, after, capacity, key, tier, now) && Lowers(before, after, key);
      var kept: Sessions :| Evicts(before, kept, capacity) && after == kept[key := Stamped(RaisedTier(kept, key, tier), now)];
      SizeAfterEviction(before, kept, capacity);
      assert key !in kept;
    }
    if capacity <= |before| && IsOldest(before, key) && Rank(tier) < Rank(before[key].value) {
      var kept := before - {key};
      assert Evicts(before, kept, capacity);
      var after := kept[key := Stamped(RaisedTier(kept, key, tier), now)];
      assert UpdateStep(before, after, capacity, key, tier, now) && Lowers(before, after, key);
    }
  }

  /** In a tracker of one session, recording a lower tier for it lowers it. */
  lemma LoneSessionIsLowered(key: string)
    ensures CanLower(map[key := Stamped(Hard, 0)], 1, key, Simple, 5)
  {
    var before: Sessions := map[key := Stamped(Hard, 0)];
    assert before.Keys == {key};
    assert |before| == 1;
    UpdateLowersExactlyOnSelfEviction(before, 1, key, Simple, 5);
  }

  // ----- the handler's use of it --------------------------------------------------------------------

  /** One request of a session, or a lookup or an update of another session. */
  datatype Event =
    // read the session, raise the classification, apply the floors, and record the tier if it is permitted
    | Own(shape: Shape, classified: Classification, now: nat, permitted: bool)
    | OtherGet(key: string, now: nat)
    | OtherUpdate(key: string, tier: Tier, now: nat)

  /** The classification after session continuity. */
  function Continued(c: Classification, session: Option<Tier>): Classification
  {
    if session.Some? && Rank(session.value) > Rank(c.tier) then c.(tier := session.value) else c
  }

  /** The tier a request of the session is routed to, before any quality escalation. */
  function RoutedTier(sessions: Sessions, key: string, e: Event, ttl: nat, threshold: real): Tier
    requires e.Own?
  {
    EffectiveTier(e.shape, Continued(e.classified, SessionTier(sessions, key, e.now, ttl)), threshold)
  }

  ghost predicate IsStep(before: Sessions, after: Sessions, key: string, e: Event, capacity: nat, ttl: nat, threshold: real)
  {
    match e
    case Own(_, _, now, permitted) =>
      var read := GetStep(before, key, now, ttl);
      if permitted then UpdateStep(read, after, capacity, key, RoutedTier(before, key, e, ttl, threshold), now)
      else after == read
    case OtherGet(k, now) => k != key && after == GetStep(before, k, now, ttl)
    case OtherUpdate(k, tier, now) => k != key && UpdateStep(before, after, capacity, k, tier, now)
  }

  ghost predicate IsRun(states: seq<Sessions>, events: seq<Event>, key: string, capacity: nat, ttl: nat, threshold: real)
  {
    |states| == |events| + 1
    && forall i :: 0 <= i < |events| ==> IsStep(states[i], states[i + 1], key, events[i], capacity, ttl, threshold)
  }

  /** The session is never evicted by another one and never found expired. */
  ghost predicate StaysAlive(states: seq<Sessions>, events: seq<Event>, key: string, ttl: nat)
    requires |states| == |events| + 1
  {
    (forall i :: 0 <= i < |states| ==> key in states[i])
    && forall i :: 0 <= i < |events| && events[i].Own? ==> IsFresh(states[i][key], events[i].now, ttl)
  }

  lemma RequestHonoursSession(sessions: Sessions, key: string, e: Event, ttl: nat, threshold: real)
    requires e.Own? && key in sessions && IsFresh(sessions[key], e.now, ttl)
    ensures Rank(sessions[key].value) <= Rank(RoutedTier(sessions, key, e, ttl, threshold))
    ensures Rank(e.classified.tier) <= Rank(RoutedTier(sessions, key, e, ttl, threshold))
  {
  }

  lemma StepKeepsFloor(before: Sessions, after: Sessions, key: string, e: Event, capacity: nat, ttl: nat, threshold: real)
    requires IsStep(before, after, key, e, capacity, ttl, threshold) && key in before && key in after
    requires e.Own? ==> IsFresh(before[key], e.now, ttl)
    ensures Rank(before[key].value) <= Rank(after[key].value)
    ensures e.Own? && e.permitted ==> Rank(RoutedTier(before, key, e, ttl, threshold)) <= Rank(after[key].value)
  {
    match e
    case Own(_, _, now, permitted) =>
      RequestHonoursSession(before, key, e, ttl, threshold);
      if permitted {
        var tier := RoutedTier(before, key, e, ttl, threshold);
        var kept: Sessions :| Evicts(before, kept, capacity)
          && after == kept[key := Stamped(RaisedTier(kept, key, tier), now)];
        SizeAfterEviction(before, kept, capacity);
      }
    case OtherGet(_, _) =>
    case OtherUpdate(k, tier, now) =>
      var kept: Sessions :| Evicts(before, kept, capacity) && after == kept[k := Stamped(RaisedTier(kept, k, tier), now)];
      SizeAfterEviction(before, kept, capacity);
  }

  /** While a session stays alive its recorded tier never falls, even when an update at capacity evicts
      the very session it is about to write. */
  lemma {:induction false} RecordedTierNeverFalls(states: seq<Sessions>, events: seq<Event>, key: string,
      capacity: nat, ttl: nat, threshold: real, i: nat, j: nat)
    requires IsRun(states, events, key, capacity, ttl, threshold) && StaysAlive(states, events, key, ttl)
    requires i <= j < |states|
    ensures Rank(states[i][key].value) <= Rank(states[j][key].value)
    decreases j - i
  {
    if i < j {
      RecordedTierNeverFalls(states, events, key, capacity, ttl, threshold, i, j - 1);
      hide RoutedTier;
      hide IsStep;
      assert IsStep(states[j - 1], states[j], key, events[j - 1], capacity, ttl, threshold);
      StepKeepsFloor(states[j - 1], states[j], key, events[j - 1], capacity, ttl, threshold);
    }
  }

  /** Every request of a live session is routed at least as high as each earlier permitted request of it. */
  lemma LaterRequestsRouteNoLower(states: seq<Sessions>, events: seq<Event>, key: string,
      capacity: nat, ttl: nat, threshold: real, i: nat, j: nat)
    requires IsRun(states, events, key, capacity, ttl, threshold) && StaysAlive(states, events, key, ttl)
    requires i < j < |events| && events[i].Own? && events[i].permitted && events[j].Own?
    ensures Rank(RoutedTier(states[i], key, events[i], ttl, threshold))
         <= Rank(RoutedTier(states[j], key, events[j], ttl, threshold))
  {
    RecordedTierNeverFalls(states, events, key, capacity, ttl, threshold, i + 1, j);
    RequestHonoursSession(states[j], key, events[j], ttl, threshold);
    hide RoutedTier;
    StepKeepsFloor(states[i], states[i + 1], key, events[i], capacity, ttl, threshold);
  }

  /** An update keeps its session alive for the time to live, at the tier recorded or a higher one. */
  lemma UpdateRefreshesSession(before: Sessions, after: Sessions, capacity: nat, key: string, tier: Tier, now: nat, ttl: nat,
      later: nat)
    requires UpdateStep(before, after, capacity, key, tier, now) && now <= later < now + ttl
    ensures var found := SessionTier(after, key, later, ttl); found.Some? && Rank(tier) <= Rank(found.value)
  {
  }

  /** A session found expired starts over: its next request is routed on its own classification, and what is recorded
      is the tier of that request, however high the session once stood. */
  lemma ExpiredSessionStartsOver(before: Sessions, after: Sessions, key: string, e: Event, capacity: nat, ttl: nat, threshold: real)
    requires e.Own? && e.permitted && IsStep(before, after, key, e, capacity, ttl, threshold)
    requires key in before ==> !IsFresh(before[key], e.now, ttl)
    ensures RoutedTier(before, key, e, ttl, threshold) == EffectiveTier(e.shape, e.classified, threshold)
    ensures key in after && after[key] == Stamped(EffectiveTier(e.shape, e.classified, threshold), e.now)
  {
    hide EffectiveTier;
    var read := GetStep(before, key, e.now, ttl);
    var tier := RoutedTier(before, key, e, ttl, threshold);
    var kept: Sessions :| Evicts(read, kept, capacity) && after == kept[key := Stamped(RaisedTier(kept, key, tier), e.now)];
    SizeAfterEviction(read, kept, capacity);
  }
}
