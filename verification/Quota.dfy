/** Per-key quotas: the fixed-window rate limit and the monthly spend (`QuotaEnforcer` in auth.rs). */
module Quota {
  import opened Basics

  /** Requests admitted in a minute. */
  datatype Window = Window(minute: nat, count: nat)

  /** Dollars recorded in a month window. */
  datatype Spend = Spend(month: nat, total: real)

  /** The window a request at `minute` is counted in: the stored one, or a new empty one. */
  function CurrentWindow(windows: map<string, Window>, key: string, minute: nat): Window
  {
    if key in windows && windows[key].minute == minute then windows[key] else Window(minute, 0)
  }

  predicate Admits(windows: map<string, Window>, key: string, rpm: nat, minute: nat)
  {
    CurrentWindow(windows, key, minute).count < rpm
  }

  function RateStep(windows: map<string, Window>, key: string, rpm: nat, minute: nat): map<string, Window>
  {
    var w := CurrentWindow(windows, key, minute);
    windows[key := if Admits(windows, key, rpm, minute) then w.(count := w.count + 1) else w]
  }

  /** What is recorded for the key in a window; another window's record does not count. */
  function Recorded(spend: map<string, Spend>, key: string, window: nat): real
  {
    if key in spend && spend[key].month == window then spend[key].total else 0.0
  }

  predicate UnderBudget(spend: map<string, Spend>, key: string, cap: real, month: nat)
  {
    key in spend && spend[key].month == month ==> spend[key].total < cap
  }

  function SpendStep(spend: map<string, Spend>, key: string, delta: real, window: nat): map<string, Spend>
  {
    spend[key := Spend(window, Max(Recorded(spend, key, window) + delta, 0.0))]
  }

  class QuotaEnforcer {
    var windows: map<string, Window>
    var spend: map<string, Spend>

    constructor ()
      ensures windows == map[] && spend == map[]
    {
      windows, spend := map[], map[];
    }

    method CheckRateLimit(key: string, rpm: nat, minute: nat) returns (admitted: bool)
      modifies this`windows
      ensures admitted == Admits(old(windows), key, rpm, minute)
      ensures windows == RateStep(old(windows), key, rpm, minute)
    {
      var entry := if key in windows then windows[key] else Window(minute, 0);
      if entry.minute != minute {
        entry := Window(minute, 0);
      }
      if entry.count >= rpm {
        windows := windows[key := entry];
        return false;
      }
      windows := windows[key := Window(entry.minute, entry.count + 1)];
      return true;
    }

    method CheckBudget(key: string, cap: real, month: nat) returns (allowed: bool)
      ensures allowed == UnderBudget(spend, key, cap, month)
    {
      if key in spend && spend[key].month == month {
        return spend[key].total < cap;
      }
      return true;
    }

    method AdjustSpend(key: string, delta: real, window: nat)
      modifies this`spend
      ensures spend == SpendStep(old(spend), key, delta, window)
    {
      var entry := if key in spend then spend[key] else Spend(window, 0.0);
      if entry.month != window {
        entry := Spend(window, 0.0);
      }
      spend := spend[key := Spend(entry.month, Max(entry.total + delta, 0.0))];
    }

    method Forget(key: string)
      modifies this
      ensures windows == old(windows) - {key} && spend == old(spend) - {key}
    {
      windows := windows - {key};
      spend := spend - {key};
    }
  }

  /** With a positive cap the budget check is a check of what is recorded for its own month: a record of another month,
      exhausted or not, never refuses a request. */
  lemma BudgetIsOfItsMonth(spend: map<string, Spend>, key: string, cap: real, month: nat)
    requires 0.0 < cap
    ensures UnderBudget(spend, key, cap, month) <==> Recorded(spend, key, month) < cap
    ensures key in spend && spend[key].month != month ==> UnderBudget(spend, key, cap, month)
  {
  }
}
