/** The monthly cap under concurrency: the budget is checked when a request arrives and charged later, in
    separate locked steps, with other requests in between (main.rs with auth.rs). */
module BudgetCap {
  import opened Basics
  import opened Quota

  /** A request of the key between its check and its final settlement: the month it was checked in and
      how much more it may still add. */
  datatype Ticket = Ticket(month: nat, left: real)

  /** The key watched, its cap, the most requests it has in flight and the most one request adds. */
  datatype Limits = Limits(key: string, cap: real, inFlight: nat, perRequest: real)

  /** `late` counts the requests let in on a month that was over, while the current one's record was at the cap. */
  datatype Sys = Sys(spend: map<string, Spend>, tickets: seq<Ticket>, clock: nat, late: nat)

  datatype Event =
    | Tick(month: nat)
    // the request is let in when its key is under budget in the month read before the lock was taken
    | Check(month: nat)
    // request `i` adds to the record, in a month between its check and now
    | Add(i: nat, amount: real, window: nat)
    // request `i` gives an overestimate back
    | GiveBack(i: nat, amount: real, window: nat)
    | Finish(i: nat)
    // any adjustment of any other key
    | OtherKey(key: string, delta: real, window: nat)

  predicate IsEnabled(l: Limits, s: Sys, e: Event)
  {
    match e
    case Tick(month) => s.clock <= month
    case Check(month) => |s.tickets| < l.inFlight && month <= s.clock
    case Add(i, amount, window) =>
      i < |s.tickets| && 0.0 <= amount <= s.tickets[i].left && s.tickets[i].month <= window <= s.clock
    case GiveBack(i, amount, window) =>
      i < |s.tickets| && 0.0 <= amount && s.tickets[i].month <= window <= s.clock
    case Finish(i) => i < |s.tickets|
    case OtherKey(key, _, _) => key != l.key
  }

  /** The month read is older than the key's record, and that record is at the cap. */
  predicate IsLate(l: Limits, s: Sys, month: nat)
  {
    l.key in s.spend && month < s.spend[l.key].month && l.cap <= s.spend[l.key].total
  }

  function Apply(l: Limits, s: Sys, e: Event): Sys
    requires IsEnabled(l, s, e)
  {
    match e
    case Tick(month) => s.(clock := month)
    case Check(month) =>
      if UnderBudget(s.spend, l.key, l.cap, month)
      then s.(tickets := s.tickets + [Ticket(month, l.perRequest)], late := s.late + (if IsLate(l, s, month) then 1 else 0))
      else s
    case Add(i, amount, window) =>
      var t := s.tickets[i];
      s.(spend := SpendStep(s.spend, l.key, amount, window), tickets := s.tickets[i := t.(left := t.left - amount)])
    case GiveBack(i, amount, window) => s.(spend := SpendStep(s.spend, l.key, -amount, window))
    case Finish(i) => s.(tickets := s.tickets[..i] + s.tickets[i + 1..])
    case OtherKey(key, delta, window) => s.(spend := SpendStep(s.spend, key, delta, window))
  }

  ghost predicate IsRun(l: Limits, states: seq<Sys>, events: seq<Event>)
  {
    |states| == |events| + 1
    && states[0].spend == map[] && states[0].tickets == [] && states[0].late == 0
    && forall i :: 0 <= i < |events| ==> IsEnabled(l, states[i], events[i]) && states[i + 1] == Apply(l, states[i], events[i])
  }

  // ----- the invariant ---------------------------------------------------------------------------

  /** What requests checked no later than `month` may still add. */
  function StillToCome(tickets: seq<Ticket>, month: nat): real
  {
    if tickets == [] then 0.0
    else StillToCome(DropLast(tickets), month) + if Last(tickets).month <= month then Last(tickets).left else 0.0
  }

  function Times(n: nat, amount: real): real
  {
    n as real * amount
  }

  /** `n * M`: what all requests in flight may add together. */
  function Room(l: Limits): real
  {
    Times(l.inFlight, l.perRequest)
  }

  /** At most `cap + (n + late) * M`, strictly less unless the cap is zero: then nothing recorded counts as under budget. */
  predicate IsBounded(l: Limits, late: nat, amount: real)
  {
    var bound := l.cap + Room(l) + Times(late, l.perRequest);
    amount <= bound && (l.cap > 0.0 ==> amount < bound)
  }

  ghost predicate Inv(l: Limits, s: Sys)
  {
    |s.tickets| <= l.inFlight
    && (forall t <- s.tickets :: t.month <= s.clock && 0.0 <= t.left <= l.perRequest)
    && (l.key in s.spend ==>
          s.spend[l.key].month <= s.clock && 0.0 <= s.spend[l.key].total
          && IsBounded(l, s.late, s.spend[l.key].total + StillToCome(s.tickets, s.spend[l.key].month)))
  }

  lemma {:induction false} StillToComeConcat(a: seq<Ticket>, b: seq<Ticket>, month: nat)
    ensures StillToCome(a + b, month) == StillToCome(a, month) + StillToCome(b, month)
  {
    if b == [] {
      assert a + b == a;
    } else {
      assert DropLast(a + b) == a + DropLast(b);
      StillToComeConcat(a, DropLast(b), month);
    }
  }

  function Share(t: Ticket, month: nat): real
  {
    if t.month <= month then t.left else 0.0
  }

  lemma StillToComeSplit(tickets: seq<Ticket>, i: nat, month: nat)
    requires i < |tickets|
    ensures StillToCome(tickets, month)
         == StillToCome(tickets[..i], month) + Share(tickets[i], month) + StillToCome(tickets[i + 1..], month)
  {
    var t := [tickets[i]];
    assert tickets == tickets[..i] + t + tickets[i + 1..];
    StillToComeConcat(tickets[..i] + t, tickets[i + 1..], month);
    StillToComeConcat(tickets[..i], t, month);
    assert DropLast(t) == [];
  }

  lemma StillToComeUpdate(tickets: seq<Ticket>, i: nat, t: Ticket, month: nat)
    requires i < |tickets|
    ensures StillToCome(tickets[i := t], month)
         == StillToCome(tickets, month) - Share(tickets[i], month) + Share(t, month)
  {
    StillToComeSplit(tickets, i, month);
    StillToComeSplit(tickets[i := t], i, month);
    assert tickets[i := t][..i] == tickets[..i] && tickets[i := t][i + 1..] == tickets[i + 1..];
  }

  lemma OneMoreTime(n: nat, amount: real)
    ensures Times(n + 1, amount) == Times(n, amount) + amount
    ensures Times(0, amount) == 0.0
  {
  }

  lemma TimesMonotone(m: nat, n: nat, amount: real)
    requires m <= n && 0.0 <= amount
    ensures 0.0 <= Times(m, amount) <= Times(n, amount)
  {
  }

  lemma {:induction false} StillToComeBound(tickets: seq<Ticket>, month: nat, perRequest: real)
    requires forall t <- tickets :: 0.0 <= t.left <= perRequest
    requires 0.0 <= perRequest
    ensures 0.0 <= StillToCome(tickets, month) <= Times(|tickets|, perRequest)
  {
    if tickets != [] {
      hide Times;
      StillToComeBound(DropLast(tickets), month, perRequest);
      assert Last(tickets) in tickets;
      OneMoreTime(|DropLast(tickets)|, perRequest);
    }
  }

  lemma FitsRoom(l: Limits, tickets: seq<Ticket>, month: nat)
    requires |tickets| <= l.inFlight && 0.0 <= l.perRequest
    requires forall t <- tickets :: 0.0 <= t.left <= l.perRequest
    ensures 0.0 <= StillToCome(tickets, month) <= Room(l)
  {
    StillToComeBound(tickets, month, l.perRequest);
    TimesMonotone(|tickets|, l.inFlight, l.perRequest);
    hide Times;
  }

  lemma CheckKeepsInv(l: Limits, s: Sys, month: nat)
    requires 0.0 <= l.cap && 0.0 <= l.perRequest && Inv(l, s) && IsEnabled(l, s, Check(month))
    ensures Inv(l, Apply(l, s, Check(month)))
  {
    hide Room;
    hide Times;
    hide StillToCome;
    var after := Apply(l, s, Check(month));
    if after != s && l.key in s.spend {
      var t := Ticket(month, l.perRequest);
      StillToComeConcat(s.tickets, [t], s.spend[l.key].month);
      FitsRoom(l, after.tickets, s.spend[l.key].month);
      LoneTicket(t, s.spend[l.key].month);
      OneMoreTime(s.late, l.perRequest);
      TimesMonotone(0, s.late, l.perRequest);
    }
  }

  lemma LoneTicket(t: Ticket, month: nat)
    ensures StillToCome([t], month) == Share(t, month)
  {
    assert DropLast([t]) == [];
  }

  lemma FinishKeepsInv(l: Limits, s: Sys, i: nat)
    requires 0.0 <= l.cap && 0.0 <= l.perRequest && Inv(l, s) && IsEnabled(l, s, Finish(i))
    ensures Inv(l, Apply(l, s, Finish(i)))
  {
    hide Times;
    TimesMonotone(0, s.late, l.perRequest);
    hide Room;
    hide StillToCome;
    if l.key in s.spend {
      StillToComeConcat(s.tickets[..i], s.tickets[i + 1..], s.spend[l.key].month);
      StillToComeSplit(s.tickets, i, s.spend[l.key].month);
    }
  }

  lemma AddKeepsInv(l: Limits, s: Sys, i: nat, amount: real, window: nat)
    requires 0.0 <= l.cap && 0.0 <= l.perRequest && Inv(l, s) && IsEnabled(l, s, Add(i, amount, window))
    ensures Inv(l, Apply(l, s, Add(i, amount, window)))
  {
    hide Times;
    TimesMonotone(0, s.late, l.perRequest);
    hide Room;
    hide StillToCome;
    var after := Apply(l, s, Add(i, amount, window));
    StillToComeUpdate(s.tickets, i, after.tickets[i], window);
    FitsRoom(l, s.tickets, window);
  }

  lemma GiveBackKeepsInv(l: Limits, s: Sys, i: nat, amount: real, window: nat)
    requires 0.0 <= l.cap && 0.0 <= l.perRequest && Inv(l, s) && IsEnabled(l, s, GiveBack(i, amount, window))
    ensures Inv(l, Apply(l, s, GiveBack(i, amount, window)))
  {
    hide Times;
    TimesMonotone(0, s.late, l.perRequest);
    hide Room;
    hide StillToCome;
    FitsRoom(l, s.tickets, window);
  }

  lemma ApplyKeepsInv(l: Limits, s: Sys, e: Event)
    requires 0.0 <= l.cap && 0.0 <= l.perRequest && Inv(l, s) && IsEnabled(l, s, e)
    ensures Inv(l, Apply(l, s, e))
  {
    match e
    case Tick(_) =>
    case OtherKey(_, _, _) =>
    case Check(month) => CheckKeepsInv(l, s, month);
    case Finish(i) => FinishKeepsInv(l, s, i);
    case Add(i, amount, window) => AddKeepsInv(l, s, i, amount, window);
    case GiveBack(i, amount, window) => GiveBackKeepsInv(l, s, i, amount, window);
  }

  lemma {:induction false} RunKeepsInv(l: Limits, states: seq<Sys>, events: seq<Event>, i: nat)
    requires 0.0 <= l.cap && 0.0 <= l.perRequest && IsRun(l, states, events) && i < |states|
    ensures Inv(l, states[i])
  {
    if i > 0 {
      hide Inv;
      RunKeepsInv(l, states, events, i - 1);
      hide Apply;
      hide IsEnabled;
      ApplyKeepsInv(l, states[i - 1], events[i - 1]);
    } else {
      FitsRoom(l, [], 0);
    }
  }

  /** Under any interleaving of checks, charges, refunds and month changes, the recorded spend of a key with at most `n`
      requests in flight, each adding at most `M`, never exceeds `cap + n * M`, nor reaches it unless the cap is zero,
      as long as no late reading let a request in; each one that did adds at most one more `M`. */
  lemma SpendStaysUnderCapPlusInFlight(l: Limits, states: seq<Sys>, events: seq<Event>, i: nat)
    requires 0.0 <= l.cap && 0.0 <= l.perRequest && IsRun(l, states, events) && i < |states|
    ensures l.key in states[i].spend ==> IsBounded(l, states[i].late, states[i].spend[l.key].total)
  {
    RunKeepsInv(l, states, events, i);
    hide IsRun;
    hide Room;
    hide Times;
    if l.key in states[i].spend {
      FitsRoom(l, states[i].tickets, states[i].spend[l.key].month);
    }
  }

  /** A month that turns lets a key in again, however its last month ended: in every run, after a tick to a later month
      the next check in that month admits the request if there is a cap and room for one more. */
  lemma NewMonthAdmits(l: Limits, states: seq<Sys>, events: seq<Event>, i: nat, month: nat)
    requires 0.0 < l.cap && 0.0 <= l.perRequest && IsRun(l, states, events) && i < |states|
    requires states[i].clock < month && |states[i].tickets| < l.inFlight
    ensures var ticked := states[i].(clock := month);
      IsEnabled(l, states[i], Tick(month)) && Apply(l, states[i], Tick(month)) == ticked
      && IsEnabled(l, ticked, Check(month))
      && Apply(l, ticked, Check(month)).tickets == states[i].tickets + [Ticket(month, l.perRequest)]
  {
    RunKeepsInv(l, states, events, i);
    hide IsRun;
    hide StillToCome;
    hide Room;
    hide Times;
    BudgetIsOfItsMonth(states[i].spend, l.key, l.cap, month);
  }

  /** Within a month a check admits exactly while less than the cap is on record. */
  lemma CheckAdmitsBelowCap(l: Limits, s: Sys, month: nat)
    requires 0.0 < l.cap && IsEnabled(l, s, Check(month))
    ensures |Apply(l, s, Check(month)).tickets| == |s.tickets| + (if Recorded(s.spend, l.key, month) < l.cap then 1 else 0)
  {
    BudgetIsOfItsMonth(s.spend, l.key, l.cap, month);
  }

  // ----- no smaller bound holds ---------------------------------------------------------------------

  ghost predicate Reaches(l: Limits, s: Sys)
  {
    exists states, events :: IsRun(l, states, events) && Last(states) == s
  }

  lemma ReachStep(l: Limits, s: Sys, e: Event)
    requires Reaches(l, s) && IsEnabled(l, s, e)
    ensures Reaches(l, Apply(l, s, e))
  {
    hide Apply;
    hide IsEnabled;
    var states, events :| IsRun(l, states, events) && Last(states) == s;
    assert IsRun(l, states + [Apply(l, s, e)], events + [e]);
  }

  /** A key that has spent `amount` in a month, or nothing at all, with `n` requests checked but not yet charged. */
  function Point(l: Limits, month: nat, amount: real, n: nat, late: nat): Sys
  {
    Sys(if amount == 0.0 then map[] else map[l.key := Spend(month, amount)],
      seq(n, _ => Ticket(month, l.perRequest)), month, late)
  }

  /** A lone request spends `amount` and is done, whether its month was read in time or late. */
  lemma AddThenFinish(l: Limits, month: nat, read: nat, before: real, amount: real, n: nat, late: nat)
    requires 0.0 <= before && 0.0 < amount <= l.perRequest && read <= month
    requires var s := Point(l, month, before, n, late);
      Reaches(l, s.(tickets := [Ticket(read, l.perRequest)] + s.tickets))
    ensures Reaches(l, Point(l, month, before + amount, n, late))
  {
    var s := Point(l, month, before, n, late);
    s := s.(tickets := [Ticket(read, l.perRequest)] + s.tickets);
    ReachStep(l, s, Add(0, amount, month));
    var t := Apply(l, s, Add(0, amount, month));
    assert t.spend == Point(l, month, before + amount, n, late).spend;
    ReachStep(l, t, Finish(0));
    assert t.tickets[..0] + t.tickets[1..] == Point(l, month, before, n, late).tickets;
  }

  lemma OneMoreWaiting(l: Limits, month: nat, spent: real, n: nat)
    requires 0.0 <= spent && (spent == 0.0 || spent < l.cap) && n < l.inFlight
    requires Reaches(l, Point(l, month, spent, n, 0))
    ensures Reaches(l, Point(l, month, spent, n + 1, 0))
  {
    var s := Point(l, month, spent, n, 0);
    ReachStep(l, s, Check(month));
    assert s.tickets + [Ticket(month, l.perRequest)] == Point(l, month, spent, n + 1, 0).tickets;
  }

  lemma OneLessWaiting(l: Limits, month: nat, before: real, amount: real, n: nat)
    requires 0.0 <= before && 0.0 < amount <= l.perRequest && 0 < n
    requires Reaches(l, Point(l, month, before, n, 0))
    ensures Reaches(l, Point(l, month, before + amount, n - 1, 0))
  {
    var rest := Point(l, month, before, n - 1, 0);
    assert [Ticket(month, l.perRequest)] + rest.tickets == Point(l, month, before, n, 0).tickets;
    AddThenFinish(l, month, month, before, amount, n - 1, 0);
  }

  /** One request after the other spends `amount`, `k` times. */
  lemma {:induction false} SpendInTurn(l: Limits, month: nat, amount: real, k: nat)
    requires 0.0 < amount <= l.perRequest && 0 < l.inFlight && Times(k, amount) < l.cap
    ensures Reaches(l, Point(l, month, Times(k, amount), 0, 0))
  {
    hide Reaches;
    hide Times;
    hide Point;
    OneMoreTime(if k == 0 then 0 else k - 1, amount);
    if k == 0 {
      StartReached(l, month);
    } else {
      TimesMonotone(0, k - 1, amount);
      SpendInTurn(l, month, amount, k - 1);
      OneMoreWaiting(l, month, Times(k - 1, amount), 0);
      OneLessWaiting(l, month, Times(k - 1, amount), amount, 1);
    }
  }

  lemma StartReached(l: Limits, month: nat)
    ensures Reaches(l, Point(l, month, 0.0, 0, 0))
  {
    var s := Point(l, month, 0.0, 0, 0);
    assert IsRun(l, [s], []) && Last([s]) == s;
  }

  lemma {:induction false} AllCheckedFirst(l: Limits, month: nat, spent: real, n: nat)
    requires 0.0 <= spent && (spent == 0.0 || spent < l.cap) && n <= l.inFlight
    requires Reaches(l, Point(l, month, spent, 0, 0))
    ensures Reaches(l, Point(l, month, spent, n, 0))
  {
    hide Reaches;
    hide Point;
    if n > 0 {
      AllCheckedFirst(l, month, spent, n - 1);
      OneMoreWaiting(l, month, spent, n - 1);
    }
  }

  lemma {:induction false} AllSpendInFull(l: Limits, month: nat, spent: real, n: nat)
    requires 0.0 <= spent && 0.0 < l.perRequest
    requires Reaches(l, Point(l, month, spent, n, 0))
    ensures Reaches(l, Point(l, month, spent + Times(n, l.perRequest), 0, 0))
    decreases n
  {
    hide Reaches;
    hide Times;
    hide Point;
    OneMoreTime(if n == 0 then 0 else n - 1, l.perRequest);
    if n > 0 {
      OneLessWaiting(l, month, spent, l.perRequest, n);
      AllSpendInFull(l, month, spent + l.perRequest, n - 1);
      assert spent + l.perRequest + Times(n - 1, l.perRequest) == spent + Times(n, l.perRequest);
    }
  }

  /** The overshoot is real: `n` requests checked before any is charged all spend in full, whatever the cap. */
  lemma ConcurrentChecksOvershoot(l: Limits, month: nat)
    requires 0.0 < l.perRequest
    ensures Reaches(l, Point(l, month, Room(l), 0, 0))
  {
    hide Reaches;
    hide Times;
    hide Point;
    StartReached(l, month);
    AllCheckedFirst(l, month, 0.0, l.inFlight);
    AllSpendInFull(l, month, 0.0, l.inFlight);
  }

  /** Past the cap, a request that read the month before it turned is let in and spends in full. */
  lemma OneLateRequest(l: Limits, month: nat, amount: real, late: nat)
    requires 0 < month && 0 < l.inFlight && 0.0 < l.perRequest && 0.0 < amount && l.cap <= amount
    requires Reaches(l, Point(l, month, amount, 0, late))
    ensures Reaches(l, Point(l, month, amount + l.perRequest, 0, late + 1))
  {
    var s := Point(l, month, amount, 0, late);
    ReachStep(l, s, Check(month - 1));
    var t := Point(l, month, amount, 0, late + 1);
    assert s.tickets + [Ticket(month - 1, l.perRequest)] == [Ticket(month - 1, l.perRequest)] + t.tickets;
    AddThenFinish(l, month, month - 1, amount, l.perRequest, 0, late + 1);
  }

  lemma {:induction false} LateRequests(l: Limits, month: nat, amount: real, late: nat)
    requires 0 < month && 0 < l.inFlight && 0.0 < l.perRequest && 0.0 < amount && l.cap <= amount
    requires Reaches(l, Point(l, month, amount, 0, 0))
    ensures Reaches(l, Point(l, month, amount + Times(late, l.perRequest), 0, late))
  {
    hide Reaches;
    hide Times;
    hide Point;
    OneMoreTime(if late == 0 then 0 else late - 1, l.perRequest);
    if late > 0 {
      TimesMonotone(0, late - 1, l.perRequest);
      LateRequests(l, month, amount, late - 1);
      OneLateRequest(l, month, amount + Times(late - 1, l.perRequest), late - 1);
      assert amount + Times(late - 1, l.perRequest) + l.perRequest == amount + Times(late, l.perRequest);
    }
  }

  /** Any positive amount below the cap can be spent in equal parts, each of at most `M`. */
  lemma EqualParts(amount: real, most: real) returns (k: nat, part: real)
    requires 0.0 < amount && 0.0 < most
    ensures 0.0 < part <= most && Times(k, part) == amount
  {
    k := (amount / most).Floor + 1;
    var n := k as real;
    assert n > amount / most;
    part := amount / n;
    assert n * most > amount by {
      assert amount / most * most == amount;
    }
  }

  /** The key has spent at least the cap, and more than `cap + n * M - gap`, with no reading late. */
  lemma CapIsPassed(l: Limits, month: nat, gap: real) returns (amount: real)
    requires 0.0 <= l.cap && 0.0 < l.perRequest && 0 < l.inFlight && 0.0 < gap
    ensures l.cap + Room(l) - gap < amount && l.cap <= amount && 0.0 < amount
    ensures Reaches(l, Point(l, month, amount, 0, 0))
  {
    hide Reaches;
    hide Point;
    hide Times;
    OneMoreTime(0, l.perRequest);
    TimesMonotone(1, l.inFlight, l.perRequest);
    if l.cap == 0.0 {
      ConcurrentChecksOvershoot(l, month);
      amount := Room(l);
    } else {
      var missing := if gap < l.perRequest then gap else l.perRequest;
      var spent := l.cap - (if missing < l.cap then missing else l.cap) / 2.0;
      var k, part := EqualParts(spent, l.perRequest);
      SpendInTurn(l, month, part, k);
      AllCheckedFirst(l, month, spent, l.inFlight);
      AllSpendInFull(l, month, spent, l.inFlight);
      amount := spent + Room(l);
    }
  }

  /** No smaller bound holds, with any number of late readings: some run of the key spends more than
      `cap + (n + late) * M - gap`, however small the gap. */
  lemma BoundIsApproached(l: Limits, month: nat, late: nat, gap: real)
    requires 0.0 <= l.cap && 0.0 < l.perRequest && 0 < l.inFlight && 0.0 < gap && 0 < month
    ensures var bound := l.cap + Room(l) + Times(late, l.perRequest);
      exists amount :: bound - gap < amount && Reaches(l, Point(l, month, amount, 0, late))
  {
    hide Reaches;
    hide Point;
    hide Times;
    var amount := CapIsPassed(l, month, gap);
    LateRequests(l, month, amount, late);
  }
}
