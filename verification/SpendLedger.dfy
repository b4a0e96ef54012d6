/** Spend conservation: how the charges, reservations and settlements of requests add up in the monthly
    record of a key (main.rs around `adjust_spend` and `record_spend` of auth.rs). */
module SpendLedger {
  import opened Basics
  import opened Quota

  /** The accounting operations of the gateway. A stream carries its reservation to its settlement. */
  datatype Op =
    // one successful non-streaming upstream call, charged on its estimate
    | Charge(key: string, window: nat, estimate: nat)
    // a successful stream reserves its estimate when it starts ...
    | Reserve(key: string, window: nat, estimate: nat, id: nat)
    // ... and is settled to its resolved tokens when its body ends
    | Settle(key: string, window: nat, estimate: nat, id: nat, resolved: nat)
    // a relayed error response, which nothing was reserved for, is settled all the same when its body ends
    | Relay(key: string, window: nat, estimate: nat, usage: Option<nat>)

  function Cost(tokens: real, price: real): real
  {
    tokens / 1000.0 * price
  }

  function Delta(op: Op, price: real): real
  {
    match op
    case Charge(_, _, estimate) => Cost(estimate as real, price)
    case Reserve(_, _, estimate, _) => Cost(estimate as real, price)
    case Settle(_, _, estimate, _, resolved) => Cost(resolved as real - estimate as real, price)
    case Relay(_, _, estimate, usage) => Cost(Resolved(usage, estimate) as real - estimate as real, price)
  }

  /** The tokens a body is settled on: its usage, or the estimate when it reports none. */
  function Resolved(usage: Option<nat>, estimate: nat): nat
  {
    if usage.Some? then usage.value else estimate
  }

  /** The record after some operations. */
  function Adjusted(spend: map<string, Spend>, ops: seq<Op>, price: real): map<string, Spend>
  {
    if ops == [] then spend
    else SpendStep(Adjusted(spend, DropLast(ops), price), Last(ops).key, Delta(Last(ops), price), Last(ops).window)
  }

  function SpendAfter(log: seq<Op>, price: real): map<string, Spend>
  {
    Adjusted(map[], log, price)
  }

  // ----- what a log owes -----------------------------------------------------------------------

  predicate Concerns(op: Op, key: string, window: nat)
  {
    op.key == key && op.window == window
  }

  /** One estimate for every charged call. */
  function Charged(log: seq<Op>, price: real, key: string, window: nat): real
  {
    if log == [] then 0.0
    else
      var op := Last(log);
      Charged(DropLast(log), price, key, window)
      + if op.Charge? && Concerns(op, key, window) then Cost(op.estimate as real, price) else 0.0
  }

  /** The real cost of every settled stream. */
  function Settled(log: seq<Op>, price: real, key: string, window: nat): real
  {
    if log == [] then 0.0
    else
      var op := Last(log);
      Settled(DropLast(log), price, key, window)
      + if op.Settle? && Concerns(op, key, window) then Cost(op.resolved as real, price) else 0.0
  }

  function SettledIds(log: seq<Op>): set<nat>
  {
    set op <- log | op.Settle? :: op.id
  }

  /** The reservations of the streams outside `closed`. */
  function Reserved(log: seq<Op>, closed: set<nat>, price: real, key: string, window: nat): real
  {
    if log == [] then 0.0
    else
      var op := Last(log);
      Reserved(DropLast(log), closed, price, key, window)
      + if op.Reserve? && op.id !in closed && Concerns(op, key, window) then Cost(op.estimate as real, price) else 0.0
  }

  /** What a key owes in a window. A rejected call owes nothing. Charged calls, settled streams and open reservations together. */
  function Owed(log: seq<Op>, price: real, key: string, window: nat): real
  {
    Charged(log, price, key, window) + Settled(log, price, key, window)
    + Reserved(log, SettledIds(log), price, key, window)
  }

  // ----- logs the gateway produces -----------------------------------------------------------------

  predicate IsStream(op: Op)
  {
    op.Reserve? || op.Settle?
  }

  /** Streams have their own id, and a settlement belongs to an open reservation. */
  ghost predicate Belongs(log: seq<Op>, op: Op)
  {
    (op.Reserve? ==> forall p <- log :: IsStream(p) ==> p.id != op.id)
    && (op.Settle? ==>
          Reserve(op.key, op.window, op.estimate, op.id) in log && op.id !in SettledIds(log))
  }

  /** Besides, the windows of a key do not go back. */
  ghost predicate Follows(log: seq<Op>, op: Op)
  {
    Belongs(log, op) && forall p <- log :: p.key == op.key ==> p.window <= op.window
  }

  ghost predicate WellFormed(log: seq<Op>)
  {
    log == [] || (WellFormed(DropLast(log)) && Follows(DropLast(log), Last(log)))
  }

  /** An error body that reports no usage, or just the estimate, moves nothing. */
  predicate IsQuiet(op: Op)
  {
    op.Relay? ==> Resolved(op.usage, op.estimate) == op.estimate
  }

  ghost predicate Quiet(log: seq<Op>)
  {
    forall op <- log :: IsQuiet(op)
  }

  // ----- conservation ----------------------------------------------------------------------------------

  lemma CostOfDifference(a: real, b: real, price: real)
    ensures Cost(a - b, price) == Cost(a, price) - Cost(b, price)
  {
  }

  lemma CostMonotone(tokens: real, price: real)
    requires 0.0 <= tokens && 0.0 <= price
    ensures 0.0 <= Cost(tokens, price)
  {
  }

  lemma {:induction false} NothingOwedInUnusedWindow(log: seq<Op>, closed: set<nat>, price: real, key: string, window: nat)
    requires forall op <- log :: !Concerns(op, key, window)
    ensures Charged(log, price, key, window) == 0.0
    ensures Settled(log, price, key, window) == 0.0
    ensures Reserved(log, closed, price, key, window) == 0.0
  {
    if log != [] {
      NothingOwedInUnusedWindow(DropLast(log), closed, price, key, window);
      assert Last(log) in log;
    }
  }

  lemma {:induction false} PartsNotNegative(log: seq<Op>, closed: set<nat>, price: real, key: string, window: nat)
    requires 0.0 <= price
    ensures 0.0 <= Charged(log, price, key, window)
    ensures 0.0 <= Settled(log, price, key, window)
    ensures 0.0 <= Reserved(log, closed, price, key, window)
  {
    if log != [] {
      hide Cost;
      PartsNotNegative(DropLast(log), closed, price, key, window);
      var op := Last(log);
      CostMonotone(op.estimate as real, price);
      if op.Settle? {
        CostMonotone(op.resolved as real, price);
      }
    }
  }

  lemma QuietDelta(op: Op, price: real)
    requires IsQuiet(op) && op.Relay?
    ensures Delta(op, price) == 0.0
  {
  }

  /** Closing a stream that was never reserved in the log changes nothing. */
  lemma {:induction false} ClosingUnknownStream(log: seq<Op>, closed: set<nat>, id: nat, price: real, key: string, window: nat)
    requires forall op <- log :: op.Reserve? ==> op.id != id
    ensures Reserved(log, closed + {id}, price, key, window) == Reserved(log, closed, price, key, window)
  {
    if log != [] {
      ClosingUnknownStream(DropLast(log), closed, id, price, key, window);
      assert Last(log) in log;
    }
  }

  /** Closing an open stream releases exactly its own reservation. */
  lemma {:induction false} ClosingReleasesReservation(log: seq<Op>, closed: set<nat>, r: Op, price: real, key: string, window: nat)
    requires WellFormed(log) && r.Reserve? && r in log && r.id !in closed
    ensures Reserved(log, closed + {r.id}, price, key, window)
         == Reserved(log, closed, price, key, window)
            - (if Concerns(r, key, window) then Cost(r.estimate as real, price) else 0.0)
  {
    hide Cost;
    var before, op := DropLast(log), Last(log);
    assert log == before + [op];
    if op == r {
      ClosingUnknownStream(before, closed, r.id, price, key, window);
    } else {
      ClosingReleasesReservation(before, closed, r, price, key, window);
      assert op.Reserve? ==> op.id != r.id;
    }
  }

  lemma SettledIdsStep(log: seq<Op>, op: Op)
    ensures SettledIds(log + [op]) == SettledIds(log) + (if op.Settle? then {op.id} else {})
  {
    var all := log + [op];
    forall id
      ensures id in SettledIds(all) <==> id in SettledIds(log) + (if op.Settle? then {op.id} else {})
    {
      assert forall p :: p in all <==> p in log || p == op;
    }
  }

  lemma ReservedStep(log: seq<Op>, op: Op, closed: set<nat>, price: real, key: string, window: nat)
    ensures Reserved(log + [op], closed, price, key, window) == Reserved(log, closed, price, key, window)
      + if op.Reserve? && op.id !in closed && Concerns(op, key, window) then Cost(op.estimate as real, price) else 0.0
  {
    assert DropLast(log + [op]) == log;
  }

  /** An operation that is no settlement leaves the open reservations as they were. */
  lemma OpenReservationsStay(log: seq<Op>, op: Op, price: real, key: string, window: nat)
    requires !op.Settle?
    ensures Reserved(log + [op], SettledIds(log + [op]), price, key, window) == Reserved(log, SettledIds(log), price, key, window)
      + if op.Reserve? && op.id !in SettledIds(log) && Concerns(op, key, window) then Cost(op.estimate as real, price) else 0.0
  {
    hide Cost;
    SettledIdsStep(log, op);
    assert SettledIds(log + [op]) == SettledIds(log);
    ReservedStep(log, op, SettledIds(log), price, key, window);
  }

  lemma ChargedStep(log: seq<Op>, op: Op, price: real, key: string, window: nat)
    ensures Charged(log + [op], price, key, window) == Charged(log, price, key, window)
      + if op.Charge? && Concerns(op, key, window) then Cost(op.estimate as real, price) else 0.0
  {
    assert DropLast(log + [op]) == log;
  }

  lemma SettledStep(log: seq<Op>, op: Op, price: real, key: string, window: nat)
    ensures Settled(log + [op], price, key, window) == Settled(log, price, key, window)
      + if op.Settle? && Concerns(op, key, window) then Cost(op.resolved as real, price) else 0.0
  {
    assert DropLast(log + [op]) == log;
  }

  /** A new stream's reservation is open. */
  lemma NewStreamIsOpen(log: seq<Op>, op: Op)
    requires op.Reserve? && Belongs(log, op)
    ensures op.id !in SettledIds(log)
  {
  }

  /** A settlement releases its reservation. */
  lemma SettlementReleases(log: seq<Op>, op: Op, price: real, key: string, window: nat)
    requires WellFormed(log) && Belongs(log, op) && op.Settle?
    ensures Reserved(log + [op], SettledIds(log + [op]), price, key, window) == Reserved(log, SettledIds(log), price, key, window)
      - if Concerns(op, key, window) then Cost(op.estimate as real, price) else 0.0
  {
    hide Cost;
    hide Reserved;
    hide WellFormed;
    SettledIdsStep(log, op);
    ReservedStep(log, op, SettledIds(log + [op]), price, key, window);
    ClosingReleasesReservation(log, SettledIds(log), Reserve(op.key, op.window, op.estimate, op.id), price, key, window);
  }

  /** Each operation changes what its key owes in its window by its delta, and nothing else; a relayed error
      changes nothing. */
  lemma OwedStep(log: seq<Op>, op: Op, price: real, key: string, window: nat)
    requires WellFormed(log) && Belongs(log, op)
    ensures Owed(log + [op], price, key, window)
         == Owed(log, price, key, window) + (if Concerns(op, key, window) && !op.Relay? then Delta(op, price) else 0.0)
  {
    hide Cost;
    hide WellFormed;
    hide Belongs;
    hide SettledIds;
    hide Charged;
    hide Settled;
    hide Reserved;
    ChargedStep(log, op, price, key, window);
    SettledStep(log, op, price, key, window);
    if op.Settle? {
      SettlementReleases(log, op, price, key, window);
      CostOfDifference(op.resolved as real, op.estimate as real, price);
    } else {
      OpenReservationsStay(log, op, price, key, window);
      if op.Reserve? {
        NewStreamIsOpen(log, op);
      }
    }
  }

  lemma OwedNotNegative(log: seq<Op>, price: real, key: string, window: nat)
    requires 0.0 <= price
    ensures 0.0 <= Owed(log, price, key, window)
  {
    PartsNotNegative(log, SettledIds(log), price, key, window);
  }

  /** Conservation: in its current window, and in any later one, a key's record is exactly one estimate
      per charged call, plus the real cost of every settled stream, plus the open reservations. */
  lemma {:induction false} RecordIsOwed(log: seq<Op>, price: real, key: string, window: nat)
    requires WellFormed(log) && Quiet(log) && 0.0 <= price
    requires forall op <- log :: op.key == key ==> op.window <= window
    ensures Recorded(SpendAfter(log, price), key, window) == Owed(log, price, key, window)
  {
    if log == [] {
      NothingOwedInUnusedWindow(log, SettledIds(log), price, key, window);
    } else {
      var before, op := DropLast(log), Last(log);
      assert log == before + [op];
      if op.key == key && op.window < window {
        assert forall p <- log :: p == op || p in before;
        NothingOwedInUnusedWindow(log, SettledIds(log), price, key, window);
      } else {
        RecordIsOwed(before, price, key, window);
        OwedStep(before, op, price, key, window);
        if op.Relay? {
          QuietDelta(op, price);
        }
        OwedNotNegative(log, price, key, window);
        hide Owed;
        hide Delta;
      }
    }
  }

  /** The floor at zero never acts: no operation of a well-formed log would take a record below it. */
  lemma FloorNeverActs(log: seq<Op>, op: Op, price: real)
    requires WellFormed(log) && Follows(log, op) && Quiet(log + [op]) && 0.0 <= price
    ensures 0.0 <= Recorded(SpendAfter(log, price), op.key, op.window) + Delta(op, price)
  {
    assert op in log + [op] && forall p <- log :: p in log + [op];
    RecordIsOwed(log, price, op.key, op.window);
    OwedStep(log, op, price, op.key, op.window);
    if op.Relay? {
      QuietDelta(op, price);
    }
    OwedNotNegative(log + [op], price, op.key, op.window);
  }

  // ----- where conservation stops ------------------------------------------------------------------------

  /** Whatever is adjusted, a record is never negative, so it is never credit. */
  lemma {:induction false} RecordNeverCredit(log: seq<Op>, price: real, key: string, window: nat)
    ensures 0.0 <= Recorded(SpendAfter(log, price), key, window)
  {
    if log != [] {
      RecordNeverCredit(DropLast(log), price, key, window);
    }
  }

  /** What an adjustment should do: change the record of its own window by its amount, down to zero at
      the least, and no other. */
  ghost predicate AdjustsOnly(before: map<string, Spend>, after: map<string, Spend>, key: string, delta: real, window: nat)
  {
    forall w: nat ::
      Recorded(after, key, w) == Max(Recorded(before, key, w) + (if w == window then delta else 0.0), 0.0)
  }

  /** It does so exactly when the key has no positive record of another window: a stream settled after the
      key has spent in a newer month erases that month, give-back or not. */
  lemma AdjustmentErasesOtherMonth(spend: map<string, Spend>, key: string, delta: real, window: nat)
    ensures AdjustsOnly(spend, SpendStep(spend, key, delta, window), key, delta, window)
      <==> (key in spend && spend[key].month != window ==> spend[key].total <= 0.0)
  {
    var after := SpendStep(spend, key, delta, window);
    if key in spend && spend[key].month != window && spend[key].total > 0.0 {
      assert Recorded(after, key, spend[key].month) == 0.0;
    }
  }

  /** When one more operation, in whatever order of windows, leaves a conserving log conserving. In its own
      window only an error body that reports some other usage breaks conservation, unless its give-back
      finds nothing to take; in a newer window every late operation does, unless nothing is owed there. */
  lemma ConservationSurvives(log: seq<Op>, op: Op, price: real, window: nat)
    requires WellFormed(log) && Quiet(log) && Belongs(log, op) && 0.0 <= price
    requires op.window <= window && forall p <- log :: p.key == op.key ==> p.window <= window
    ensures Recorded(SpendAfter(log + [op], price), op.key, window) == Owed(log + [op], price, op.key, window) <==>
      (op.window < window ==> Owed(log, price, op.key, window) == 0.0)
      && (op.window == window ==>
            IsQuiet(op) || price == 0.0 || (op.usage.value < op.estimate && Owed(log, price, op.key, window) == 0.0))
  {
    hide Cost;
    hide Delta;
    hide Owed;
    hide SpendAfter;
    hide WellFormed;
    hide Belongs;
    hide Recorded;
    OneMoreRecorded(log, op, price, window);
    RecordIsOwed(log, price, op.key, window);
    OwedStep(log, op, price, op.key, window);
    OwedNotNegative(log, price, op.key, window);
    OwedNotNegative(log + [op], price, op.key, window);
    if op.Relay? {
      RelayDelta(op, price);
    }
  }

  lemma OneMoreRecorded(log: seq<Op>, op: Op, price: real, window: nat)
    ensures Recorded(SpendAfter(log + [op], price), op.key, window) ==
      if op.window == window then Max(Recorded(SpendAfter(log, price), op.key, window) + Delta(op, price), 0.0) else 0.0
  {
    hide Delta;
    assert DropLast(log + [op]) == log;
  }

  lemma RelayDelta(op: Op, price: real)
    requires op.Relay? && 0.0 <= price
    ensures IsQuiet(op) || price == 0.0 ==> Delta(op, price) == 0.0
    ensures !IsQuiet(op) && price > 0.0 ==> (Delta(op, price) > 0.0 <==> op.usage.value > op.estimate)
    ensures !IsQuiet(op) && price > 0.0 ==> (Delta(op, price) < 0.0 <==> op.usage.value < op.estimate)
  {
    var tokens := Resolved(op.usage, op.estimate) as real - op.estimate as real;
    if price > 0.0 {
      CostSign(tokens, price);
    } else {
      CostFree(tokens);
    }
    hide Cost;
  }

  lemma CostFree(tokens: real)
    ensures Cost(tokens, 0.0) == 0.0
  {
  }

  /** The order of windows is needed: with a January stream settled after a February charge, the
      February record is gone. */
  lemma LateSettlementErasesNewMonth(key: string, price: real)
    requires price > 0.0
    ensures var log := [Reserve(key, 0, 1000, 0), Charge(key, 1, 1000), Settle(key, 0, 1000, 0, 10)];
      Recorded(SpendAfter(log, price), key, 1) == 0.0 && Owed(log, price, key, 1) == price
  {
    var a, b, c := Reserve(key, 0, 1000, 0), Charge(key, 1, 1000), Settle(key, 0, 1000, 0, 10);
    assert [a, b, c] == [] + [a] + [b] + [c];
    FollowsInTurn(a, b, c);
    assert Cost(1000.0, price) == price;
    hide Cost;
    NothingOwedInUnusedWindow([], {}, price, key, 1);
    assert SettledIds([]) == {};
    hide WellFormed;
    hide Belongs;
    hide Owed;
    hide SpendAfter;
    OwedOfNothing(price, key, 1);
    OwedStep([], a, price, key, 1);
    OwedStep([] + [a], b, price, key, 1);
    OwedStep([] + [a] + [b], c, price, key, 1);
    OneMoreRecorded([] + [a] + [b], c, price, 1);
  }

  lemma OwedOfNothing(price: real, key: string, window: nat)
    ensures Owed([], price, key, window) == 0.0
  {
  }

  lemma FollowsInTurn(a: Op, b: Op, c: Op)
    requires a.Reserve? && b.Charge? && c.Settle? && c == Settle(a.key, a.window, a.estimate, a.id, c.resolved)
    requires b.key == a.key && a.window <= b.window
    ensures WellFormed([]) && Belongs([], a)
    ensures WellFormed([] + [a]) && Belongs([] + [a], b)
    ensures WellFormed([] + [a] + [b]) && Belongs([] + [a] + [b], c)
  {
    var one, two := [] + [a], [] + [a] + [b];
    assert one == [a] && two == [a, b];
    assert DropLast(one) == [] && Last(one) == a && DropLast(two) == one && Last(two) == b;
    assert Follows([], a);
    assert WellFormed(one);
    assert Follows(one, b);
    assert two[0] == a;
  }

  /** A relayed error leaves every month's record alone exactly when its body reports no usage, or usage equal
      to the estimate, or less usage when there is nothing to take away, and the key has spent in no
      other month since. */
  lemma ErrorRelayKeepsRecord(spend: map<string, Spend>, key: string, window: nat, estimate: nat, usage: Option<nat>, price: real)
    requires price > 0.0 && (key in spend ==> 0.0 <= spend[key].total)
    ensures var after := SpendStep(spend, key, Delta(Relay(key, window, estimate, usage), price), window);
      (forall w: nat :: Recorded(after, key, w) == Recorded(spend, key, w)) <==>
        (usage.None? || usage.value == estimate || (usage.value < estimate && Recorded(spend, key, window) == 0.0))
        && (key in spend && spend[key].month != window ==> spend[key].total == 0.0)
  {
    CostSign(Resolved(usage, estimate) as real - estimate as real, price);
    hide Cost;
    var after := SpendStep(spend, key, Delta(Relay(key, window, estimate, usage), price), window);
    if key in spend && spend[key].month != window {
      assert Recorded(after, key, spend[key].month) == 0.0;
    }
  }

  /** An error body that reports the 10 tokens it used gives back 990 that were never reserved. */
  lemma ErrorUsageTakesBack(key: string)
    ensures var spend := map[key := Spend(0, 5.0)];
      Recorded(SpendStep(spend, key, Delta(Relay(key, 0, 1000, Some(10)), 1.0), 0), key, 0) == 4.01
  {
  }

  /** Even a silent error body, ending after the month turned and the key spent again, erases the new month. */
  lemma SilentErrorErasesNewMonth(key: string)
    ensures var spend := map[key := Spend(1, 5.0)];
      Recorded(spend, key, 1) == 5.0
      && Recorded(SpendStep(spend, key, Delta(Relay(key, 0, 1000, None), 1.0), 0), key, 1) == 0.0
  {
  }

  lemma CostSign(tokens: real, price: real)
    requires price > 0.0
    ensures tokens > 0.0 ==> Cost(tokens, price) > 0.0
    ensures tokens < 0.0 ==> Cost(tokens, price) < 0.0
    ensures tokens == 0.0 ==> Cost(tokens, price) == 0.0
  {
  }

  // ----- operations on a record that already exists ---------------------------------------------------------

  lemma OneMoreOp(spend: map<string, Spend>, ops: seq<Op>, op: Op, price: real)
    ensures Adjusted(spend, ops + [op], price) == SpendStep(Adjusted(spend, ops, price), op.key, Delta(op, price), op.window)
  {
    assert DropLast(ops + [op]) == ops;
  }

  lemma {:induction false} AdjustedIsSpendAfter(log: seq<Op>, ops: seq<Op>, price: real)
    ensures Adjusted(SpendAfter(log, price), ops, price) == SpendAfter(log + ops, price)
  {
    if ops == [] {
      assert log + ops == log;
    } else {
      AdjustedIsSpendAfter(log, DropLast(ops), price);
      assert DropLast(log + ops) == log + DropLast(ops);
      hide SpendStep;
    }
  }

  /** Operations of a key look at that key's record alone. */
  lemma {:induction false} AdjustedIsLocal(a: map<string, Spend>, b: map<string, Spend>, ops: seq<Op>, price: real, key: string)
    requires (key in a <==> key in b) && (key in a ==> a[key] == b[key])
    ensures var x, y := Adjusted(a, ops, price), Adjusted(b, ops, price);
      (key in x <==> key in y) && (key in x ==> x[key] == y[key])
  {
    if ops != [] {
      hide Delta;
      AdjustedIsLocal(a, b, DropLast(ops), price, key);
    }
  }

  // ----- forgotten keys -------------------------------------------------------------------------------------

  /** Forgetting a key starts its record afresh: whatever was recorded, conservation holds of the operations that begin
      after it, and no other key notices. */
  lemma ForgetStartsAfresh(spend: map<string, Spend>, log: seq<Op>, price: real, key: string, window: nat, other: string)
    requires WellFormed(log) && Quiet(log) && 0.0 <= price && other != key
    requires forall op <- log :: op.key == key ==> op.window <= window
    ensures Recorded(Adjusted(spend - {key}, log, price), key, window) == Owed(log, price, key, window)
    ensures Recorded(Adjusted(spend - {key}, log, price), other, window) == Recorded(Adjusted(spend, log, price), other, window)
  {
    hide Adjusted;
    hide WellFormed;
    hide Quiet;
    hide Owed;
    AdjustedIsLocal(spend - {key}, map[], log, price, key);
    AdjustedIsLocal(spend - {key}, spend, log, price, other);
    RecordIsOwed(log, price, key, window);
  }

  /** A stream that outlives its key brings the forgotten record back, at zero exactly when it used no more than its
      estimate (or nothing costs anything), else at the overrun. */
  lemma SettlementRevivesForgottenKey(spend: map<string, Spend>, op: Op, price: real)
    requires op.Settle? && 0.0 <= price
    ensures var after := SpendStep(spend - {op.key}, op.key, Delta(op, price), op.window);
      op.key in after
      && Recorded(after, op.key, op.window) == Max(Delta(op, price), 0.0)
      && (Recorded(after, op.key, op.window) == 0.0 <==> op.resolved <= op.estimate || price == 0.0)
  {
    var tokens := op.resolved as real - op.estimate as real;
    if price > 0.0 {
      CostSign(tokens, price);
    } else {
      CostFree(tokens);
    }
    hide Cost;
  }
}
