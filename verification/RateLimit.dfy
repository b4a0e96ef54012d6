/** What the fixed-window rate limit admits over any sequence of arrivals. */
module RateLimit {
  import opened Basics
  import opened Quota

  datatype Arrival = Arrival(key: string, second: nat)

  function Minute(a: Arrival): nat
  {
    a.second / 60
  }

  ghost predicate InClockOrder(arrivals: seq<Arrival>)
  {
    forall i, j :: 0 <= i < j < |arrivals| ==> arrivals[i].second <= arrivals[j].second
  }

  /** The limiter's windows after the arrivals, with a fixed limit per key. */
  function WindowsAfter(arrivals: seq<Arrival>, rpm: string -> nat): map<string, Window>
  {
    if arrivals == [] then map[]
    else
      var a := Last(arrivals);
      RateStep(WindowsAfter(DropLast(arrivals), rpm), a.key, rpm(a.key), Minute(a))
  }

  predicate IsAdmitted(before: seq<Arrival>, a: Arrival, rpm: string -> nat)
  {
    Admits(WindowsAfter(before, rpm), a.key, rpm(a.key), Minute(a))
  }

  /** Arrivals of a key in a minute. */
  function Arrived(arrivals: seq<Arrival>, key: string, minute: nat): nat
  {
    if arrivals == [] then 0
    else
      var a := Last(arrivals);
      Arrived(DropLast(arrivals), key, minute) + if a.key == key && Minute(a) == minute then 1 else 0
  }

  /** Admitted requests of a key in a minute. */
  function AdmittedIn(arrivals: seq<Arrival>, rpm: string -> nat, key: string, minute: nat): nat
  {
    if arrivals == [] then 0
    else
      var a := Last(arrivals);
      var counts := a.key == key && Minute(a) == minute && IsAdmitted(DropLast(arrivals), a, rpm);
      AdmittedIn(DropLast(arrivals), rpm, key, minute) + if counts then 1 else 0
  }

  /** Admitted requests of a key in the 60 seconds from `from`. */
  function AdmittedWithin(arrivals: seq<Arrival>, rpm: string -> nat, key: string, from: nat): nat
  {
    if arrivals == [] then 0
    else
      var a := Last(arrivals);
      var counts := a.key == key && from <= a.second < from + 60 && IsAdmitted(DropLast(arrivals), a, rpm);
      AdmittedWithin(DropLast(arrivals), rpm, key, from) + if counts then 1 else 0
  }

  function Min(a: nat, b: nat): nat
  {
    if a < b then a else b
  }

  lemma {:induction false} NoneInLaterMinute(arrivals: seq<Arrival>, key: string, minute: nat)
    requires forall a <- arrivals :: Minute(a) < minute
    ensures Arrived(arrivals, key, minute) == 0
  {
    if arrivals != [] {
      NoneInLaterMinute(DropLast(arrivals), key, minute);
    }
  }

  /** In clock order the stored count is the number of arrivals of the key in the minute, capped. */
  lemma {:induction false} WindowCountsArrivals(arrivals: seq<Arrival>, rpm: string -> nat, key: string, minute: nat)
    requires InClockOrder(arrivals) && forall a <- arrivals :: Minute(a) <= minute
    ensures CurrentWindow(WindowsAfter(arrivals, rpm), key, minute)
         == Window(minute, Min(rpm(key), Arrived(arrivals, key, minute)))
  {
    if arrivals != [] {
      var before, a := DropLast(arrivals), Last(arrivals);
      MinutesInOrder(arrivals);
      WindowCountsArrivals(before, rpm, a.key, Minute(a));
      if Minute(a) == minute || a.key != key {
        WindowCountsArrivals(before, rpm, key, minute);
      } else {
        NoneInLaterMinute(arrivals, key, minute);
      }
    }
  }

  lemma MinutesInOrder(arrivals: seq<Arrival>)
    requires InClockOrder(arrivals) && arrivals != []
    ensures forall a <- DropLast(arrivals) :: Minute(a) <= Minute(Last(arrivals))
  {
  }

  /** A request is admitted exactly when fewer than `rpm` requests of its key arrived earlier in its
      minute; other keys and other minutes do not matter. */
  lemma AdmitsFirstRpm(before: seq<Arrival>, a: Arrival, rpm: string -> nat)
    requires InClockOrder(before + [a])
    ensures IsAdmitted(before, a, rpm) <==> Arrived(before, a.key, Minute(a)) < rpm(a.key)
  {
    assert DropLast(before + [a]) == before;
    MinutesInOrder(before + [a]);
    WindowCountsArrivals(before, rpm, a.key, Minute(a));
  }

  /** Each minute admits exactly the first `min(rpm, arrivals)` requests of a key. */
  lemma {:induction false} AdmittedPerMinute(arrivals: seq<Arrival>, rpm: string -> nat, key: string, minute: nat)
    requires InClockOrder(arrivals)
    ensures AdmittedIn(arrivals, rpm, key, minute) == Min(rpm(key), Arrived(arrivals, key, minute))
  {
    if arrivals != [] {
      AdmittedPerMinute(DropLast(arrivals), rpm, key, minute);
      assert DropLast(arrivals) + [Last(arrivals)] == arrivals;
      AdmitsFirstRpm(DropLast(arrivals), Last(arrivals), rpm);
    }
  }

  lemma {:induction false} SpanMeetsTwoMinutes(arrivals: seq<Arrival>, rpm: string -> nat, key: string, from: nat)
    ensures AdmittedWithin(arrivals, rpm, key, from)
         <= AdmittedIn(arrivals, rpm, key, from / 60) + AdmittedIn(arrivals, rpm, key, from / 60 + 1)
  {
    if arrivals != [] {
      SpanMeetsTwoMinutes(DropLast(arrivals), rpm, key, from);
    }
  }

  /** Any 60-second span admits at most `2 * rpm` requests of a key. */
  lemma AnyMinuteLongSpan(arrivals: seq<Arrival>, rpm: string -> nat, key: string, from: nat)
    requires InClockOrder(arrivals)
    ensures AdmittedWithin(arrivals, rpm, key, from) <= 2 * rpm(key)
  {
    SpanMeetsTwoMinutes(arrivals, rpm, key, from);
    AdmittedPerMinute(arrivals, rpm, key, from / 60);
    AdmittedPerMinute(arrivals, rpm, key, from / 60 + 1);
  }

  // ----- readings that arrive late -------------------------------------------------------------------------

  /** The minute of the last arrival of a key. The clock is read before the lock is taken, so at the turn of a
      minute arrivals need not be in clock order. */
  function LastMinute(arrivals: seq<Arrival>, key: string): Option<nat>
  {
    if arrivals == [] then None
    else if Last(arrivals).key == key then Some(Minute(Last(arrivals)))
    else LastMinute(DropLast(arrivals), key)
  }

  /** The arrivals of a key since another minute of it was last counted. */
  function InBlock(arrivals: seq<Arrival>, key: string): nat
  {
    if arrivals == [] then 0
    else if Last(arrivals).key != key then InBlock(DropLast(arrivals), key)
    else if LastMinute(DropLast(arrivals), key) == Some(Minute(Last(arrivals))) then InBlock(DropLast(arrivals), key) + 1
    else 1
  }

  /** How often counting for a key starts in a minute: more than once only if a late reading intervened. */
  function Starts(arrivals: seq<Arrival>, key: string, minute: nat): nat
  {
    if arrivals == [] then 0
    else
      var before, a := DropLast(arrivals), Last(arrivals);
      var starts := a.key == key && Minute(a) == minute && LastMinute(before, key) != Some(minute);
      Starts(before, key, minute) + if starts then 1 else 0
  }

  /** Whatever the order, the stored window counts the arrivals since the last change of minute, capped. */
  lemma {:induction false} WindowCountsBlock(arrivals: seq<Arrival>, rpm: string -> nat, key: string)
    ensures LastMinute(arrivals, key).None? <==> key !in WindowsAfter(arrivals, rpm)
    ensures LastMinute(arrivals, key).Some? ==>
      WindowsAfter(arrivals, rpm)[key] == Window(LastMinute(arrivals, key).value, Min(rpm(key), InBlock(arrivals, key)))
  {
    if arrivals != [] {
      WindowCountsBlock(DropLast(arrivals), rpm, key);
      WindowCountsBlock(DropLast(arrivals), rpm, Last(arrivals).key);
    }
  }

  lemma AdmitsInBlock(before: seq<Arrival>, a: Arrival, rpm: string -> nat)
    ensures IsAdmitted(before, a, rpm) <==>
      (if LastMinute(before, a.key) == Some(Minute(a)) then InBlock(before, a.key) else 0) < rpm(a.key)
  {
    WindowCountsBlock(before, rpm, a.key);
  }

  /** The last block is part of its minute's arrivals; another start of the minute has arrivals of its own. */
  lemma {:induction false} BlockInMinute(arrivals: seq<Arrival>, key: string, minute: nat)
    ensures Starts(arrivals, key, minute) <= Arrived(arrivals, key, minute)
    ensures Starts(arrivals, key, minute) == 0 <==> Arrived(arrivals, key, minute) == 0
    ensures LastMinute(arrivals, key) == Some(minute) ==>
      Starts(arrivals, key, minute) >= 1
      && InBlock(arrivals, key) + Starts(arrivals, key, minute) - 1 <= Arrived(arrivals, key, minute)
      && (Starts(arrivals, key, minute) == 1 ==> InBlock(arrivals, key) == Arrived(arrivals, key, minute))
  {
    if arrivals != [] {
      BlockInMinute(DropLast(arrivals), key, minute);
    }
  }

  /** Without any clock order, a minute admits exactly the first `min(rpm, arrivals)` requests of a key if and only if
      the limit is zero, or no more arrived than it allows, or counting started but once in that minute. */
  lemma {:induction false} LateReadingsAdmitMore(arrivals: seq<Arrival>, rpm: string -> nat, key: string, minute: nat)
    ensures var admitted, arrived := AdmittedIn(arrivals, rpm, key, minute), Arrived(arrivals, key, minute);
      Min(rpm(key), arrived) <= admitted <= arrived
      && (admitted == Min(rpm(key), arrived) <==> rpm(key) == 0 || arrived <= rpm(key) || Starts(arrivals, key, minute) <= 1)
  {
    if arrivals != [] {
      var before, a := DropLast(arrivals), Last(arrivals);
      LateReadingsAdmitMore(before, rpm, key, minute);
      BlockInMinute(before, key, minute);
      AdmitsInBlock(before, a, rpm);
      hide IsAdmitted;
      hide InBlock;
    }
  }

  /** In clock order counting starts at most once in every minute. */
  lemma {:induction false} ClockOrderStartsOnce(arrivals: seq<Arrival>, key: string, minute: nat)
    requires InClockOrder(arrivals)
    ensures Starts(arrivals, key, minute) <= 1
    ensures Starts(arrivals, key, minute) == 1 && (forall a <- arrivals :: Minute(a) <= minute) ==>
      LastMinute(arrivals, key) == Some(minute)
  {
    if arrivals != [] {
      MinutesInOrder(arrivals);
      var before, a := DropLast(arrivals), Last(arrivals);
      ClockOrderStartsOnce(before, key, minute);
      BlockInMinute(before, key, minute);
      if Minute(a) < minute {
        NoneInLaterMinute(before, key, minute);
      }
    }
  }

  /** So the 60-second bound needs no clock order, only that counting starts at most once in each minute it meets. */
  lemma SpanWithoutClockOrder(arrivals: seq<Arrival>, rpm: string -> nat, key: string, from: nat)
    requires Starts(arrivals, key, from / 60) <= 1 && Starts(arrivals, key, from / 60 + 1) <= 1
    ensures AdmittedWithin(arrivals, rpm, key, from) <= 2 * rpm(key)
  {
    SpanMeetsTwoMinutes(arrivals, rpm, key, from);
    LateReadingsAdmitMore(arrivals, rpm, key, from / 60);
    LateReadingsAdmitMore(arrivals, rpm, key, from / 60 + 1);
  }

  /** One late reading is enough: with a limit of one, minute 0 admits two requests. */
  lemma LateReadingAdmitsTwice(key: string)
    ensures var arrivals := [Arrival(key, 59), Arrival(key, 60), Arrival(key, 59)];
      AdmittedIn(arrivals, _ => 1, key, 0) == 2
  {
    var a, b, c := Arrival(key, 59), Arrival(key, 60), Arrival(key, 59);
    var arrivals := [a, b, c];
    assert DropLast(arrivals) == [a, b] && DropLast([a, b]) == [a] && DropLast([a]) == [];
    LateReadingsAdmitMore(arrivals, _ => 1, key, 0);
    assert Arrived([a], key, 0) == 1 && Arrived([a, b], key, 0) == 1 && Arrived(arrivals, key, 0) == 2;
    assert LastMinute([a], key) == Some(0) && LastMinute([a, b], key) == Some(1);
    assert Starts([a], key, 0) == 1 && Starts([a, b], key, 0) == 1 && Starts(arrivals, key, 0) == 2;
  }

  // ----- the bound is attained -------------------------------------------------------------------

  function Burst(key: string, second: nat, n: nat): seq<Arrival>
  {
    seq(n, _ => Arrival(key, second))
  }

  lemma {:induction false} AllInsideSpan(arrivals: seq<Arrival>, rpm: string -> nat, key: string, from: nat)
    requires forall a <- arrivals :: a.key == key && from <= a.second < from + 60
    ensures AdmittedWithin(arrivals, rpm, key, from)
         == AdmittedIn(arrivals, rpm, key, from / 60) + AdmittedIn(arrivals, rpm, key, from / 60 + 1)
  {
    if arrivals != [] {
      AllInsideSpan(DropLast(arrivals), rpm, key, from);
      assert Last(arrivals) in arrivals;
    }
  }

  lemma {:induction false} ArrivedInBursts(key: string, n: nat, k: nat)
    ensures Arrived(Burst(key, 59, n) + Burst(key, 60, k), key, 0) == n
    ensures Arrived(Burst(key, 59, n) + Burst(key, 60, k), key, 1) == k
    decreases n + k
  {
    var all := Burst(key, 59, n) + Burst(key, 60, k);
    if k > 0 {
      ArrivedInBursts(key, n, k - 1);
      assert DropLast(all) == Burst(key, 59, n) + Burst(key, 60, k - 1);
    } else if n > 0 {
      ArrivedInBursts(key, n - 1, 0);
      assert DropLast(all) == Burst(key, 59, n - 1) + Burst(key, 60, 0);
    }
  }

  /** A burst on each side of a minute boundary gets `2 * rpm` requests through in two seconds. */
  lemma BoundIsAttained(rpm: string -> nat, key: string)
    ensures var arrivals := Burst(key, 59, rpm(key)) + Burst(key, 60, rpm(key));
      InClockOrder(arrivals) && AdmittedWithin(arrivals, rpm, key, 59) == 2 * rpm(key)
  {
    var arrivals := Burst(key, 59, rpm(key)) + Burst(key, 60, rpm(key));
    AllInsideSpan(arrivals, rpm, key, 59);
    ArrivedInBursts(key, rpm(key), rpm(key));
    AdmittedPerMinute(arrivals, rpm, key, 0);
    AdmittedPerMinute(arrivals, rpm, key, 1);
  }
}
