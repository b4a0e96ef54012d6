/** What the usage rollup promises: its five groupings agree with the totals and with each other. */
module UsageProperties {
  import opened Basics
  import opened UsageReport

  // ----- sums over a grouping ---------------------------------------------------------------------

  ghost function SumOver(g: map<string, Totals>): Totals
  {
    if g == map[] then Zero()
    else
      var k :| k in g;
      Plus(SumOver(g - {k}), g[k])
  }

  lemma {:induction false} SumOverRemove(g: map<string, Totals>, k: string)
    requires k in g
    ensures SumOver(g) == Plus(SumOver(g - {k}), g[k])
    decreases |g|
  {
    var j :| j in g && SumOver(g) == Plus(SumOver(g - {j}), g[j]);
    if j != k {
      SumOverRemove(g - {j}, k);
      SumOverRemove(g - {k}, j);
      assert g - {j} - {k} == g - {k} - {j};
      assert (g - {j})[k] == g[k] && (g - {k})[j] == g[j];
      var rest := SumOver(g - {j} - {k});
      assert SumOver(g) == Plus(Plus(rest, g[k]), g[j]);
      assert SumOver(g - {k}) == Plus(rest, g[j]);
    }
  }

  lemma SumOverPut(g: map<string, Totals>, k: string, t: Totals)
    ensures SumOver(g[k := t]) == Plus(SumOver(g - {k}), t)
  {
    hide SumOver;
    SumOverRemove(g[k := t], k);
    assert g[k := t] - {k} == g - {k};
  }

  lemma SumOverAdd(g: map<string, Totals>, k: string, t: Totals)
    ensures SumOver(g[k := Plus(TotalsAt(g, k), t)]) == Plus(SumOver(g), t)
  {
    hide SumOver;
    SumOverPut(g, k, Plus(TotalsAt(g, k), t));
    if k in g {
      SumOverRemove(g, k);
    } else {
      assert g - {k} == g;
    }
  }

  lemma NothingGrouped(f: Field)
    ensures SumOver(Group([], f)) == Zero() == Sum([])
  {
    assert Group([], f) == map[];
  }

  lemma SumStep(records: seq<Record>, r: Record)
    ensures Sum(records + [r]) == Plus(Sum(records), Of(r))
  {
    assert DropLast(records + [r]) == records;
  }

  /** Whatever the records are grouped by, the buckets add up to the totals. */
  lemma {:induction false} GroupConserves(records: seq<Record>, f: Field)
    ensures SumOver(Group(records, f)) == Sum(records)
  {
    hide SumOver;
    hide Group;
    hide Sum;
    hide Value;
    hide TotalsAt;
    if records == [] {
      NothingGrouped(f);
    } else {
      var before, r := DropLast(records), Last(records);
      GroupConserves(before, f);
      GroupStep(before, r, f);
      assert before + [r] == records;
      SumStep(before, r);
      SumOverAdd(Group(before, f), Value(f, r), Of(r));
    }
  }

  // ----- rounding ---------------------------------------------------------------------------------

  const HALF_MICRO: real := 0.000_000_5

  predicate Within(a: real, b: real, slack: real)
  {
    b - slack <= a <= b + slack
  }

  lemma RoundNearest(x: real)
    ensures Within(Round(x) as real, x, 0.5)
  {
  }

  /** A reported cost is off by at most half a micro-dollar, and only a cost below that is reported as free. */
  lemma RoundMicrosError(value: real)
    ensures Within(RoundMicros(value), value, HALF_MICRO)
    ensures value >= 0.0 ==> (RoundMicros(value) == 0.0 <==> value < HALF_MICRO)
  {
    RoundNearest(value * 1_000_000.0);
    if value >= 0.0 {
      var n := Round(value * 1_000_000.0);
      assert n >= 1 <==> value * 1_000_000.0 >= 0.5;
    }
  }

  lemma {:induction false} RoundAllError(g: map<string, Totals>)
    ensures Within(SumOver(RoundAll(g)).cost, SumOver(g).cost, |g| as real * HALF_MICRO)
    ensures SumOver(RoundAll(g)) == SumOver(g).(cost := SumOver(RoundAll(g)).cost)
    decreases |g|
  {
    hide RoundMicros;
    if g == map[] {
      assert RoundAll(g) == map[];
    } else {
      var k :| k in g;
      var rest := g - {k};
      RoundAllError(rest);
      SumOverRemove(g, k);
      SumOverRemove(RoundAll(g), k);
      assert RoundAll(g) - {k} == RoundAll(rest);
      RoundMicrosError(g[k].cost);
      assert g.Keys == rest.Keys + {k};
      assert |g| == |rest| + 1;
    }
  }

  // ----- the reported buckets agree with the reported totals ----------------------------------------

  function Owned(g: map<string, KeyUsage>): map<string, Totals>
  {
    map k <- g :: g[k].totals
  }

  function Counted(g: map<string, int>): map<string, Totals>
  {
    map k <- g :: Totals(g[k], 0, 0, 0.0)
  }

  function Dated(g: map<string, DayUsage>): map<string, Totals>
  {
    map k <- g :: Totals(g[k].requests, 0, 0, g[k].cost)
  }

  /** The request counts agree exactly and the costs up to half a micro-dollar a bucket plus one half. */
  ghost predicate CountsAndCostAgree(g: map<string, Totals>, t: Totals)
  {
    SumOver(g).requests == t.requests
    && Within(SumOver(g).cost, t.cost, (|g| as real + 1.0) * HALF_MICRO)
  }

  /** As above, and the token counts agree exactly as well. */
  ghost predicate AllAgree(g: map<string, Totals>, t: Totals)
  {
    CountsAndCostAgree(g, t) && SumOver(g).prompt == t.prompt && SumOver(g).completion == t.completion
  }

  lemma RoundedGroupAgrees(records: seq<Record>, f: Field)
    ensures AllAgree(RoundAll(Group(records, f)), RoundCost(Sum(records)))
  {
    hide Group;
    hide RoundMicros;
    hide SumOver;
    var g := Group(records, f);
    GroupConserves(records, f);
    RoundAllError(g);
    RoundMicrosError(Sum(records).cost);
    assert RoundAll(g).Keys == g.Keys;
    assert |RoundAll(g)| == |g|;
  }

  lemma {:induction false} CountedSum(g: map<string, Totals>)
    ensures SumOver(Counted(Counts(g))).requests == SumOver(g).requests
    decreases |g|
  {
    if g == map[] {
      assert Counted(Counts(g)) == map[];
    } else {
      var k :| k in g;
      CountedSum(g - {k});
      SumOverRemove(g, k);
      SumOverRemove(Counted(Counts(g)), k);
      assert Counted(Counts(g)) - {k} == Counted(Counts(g - {k}));
    }
  }

  lemma {:induction false} DatedSum(g: map<string, Totals>, h: map<string, DayUsage>)
    requires h.Keys == g.Keys
    requires forall k <- g :: h[k] == DayUsage(g[k].requests, g[k].cost)
    ensures SumOver(Dated(h)).requests == SumOver(g).requests
    ensures SumOver(Dated(h)).cost == SumOver(g).cost
    decreases |g|
  {
    if g == map[] {
      assert Dated(h) == map[];
    } else {
      var k :| k in g;
      DatedSum(g - {k}, h - {k});
      SumOverRemove(g, k);
      SumOverRemove(Dated(h), k);
      assert Dated(h) - {k} == Dated(h - {k});
    }
  }

  /** Every reported grouping agrees with the reported totals, for every ledger and every query. */
  lemma ReportAddsUp(ledger: Option<seq<Line>>, q: Query)
    ensures var s := Report(ledger, q);
      AllAgree(s.byModel, s.totals) && AllAgree(s.byClient, s.totals) && AllAgree(Owned(s.byKey), s.totals)
      && CountsAndCostAgree(Dated(s.byDay), s.totals) && SumOver(Counted(s.byTier)).requests == s.totals.requests
  {
    hide SumOver;
    hide Group;
    hide RoundMicros;
    var s := Report(ledger, q);
    var records := if ledger.None? then [] else Selected(ledger.value, q);
    RoundedGroupAgrees(records, Model);
    RoundedGroupAgrees(records, Client);
    RoundedGroupAgrees(records, Key);
    hide Within;
    assert Owned(s.byKey) == RoundAll(Group(records, Key));
    GroupConserves(records, Tier);
    CountedSum(Group(records, Tier));
    RoundedGroupAgrees(records, Day);
    var days := RoundAll(Group(records, Day));
    DatedSum(days, s.byDay);
    assert s.byDay.Keys == Dated(s.byDay).Keys == days.Keys;
    assert |days| == |Dated(s.byDay)|;
  }

  // ----- concatenated ledgers -----------------------------------------------------------------------

  lemma {:induction false} SelectedConcat(a: seq<Line>, b: seq<Line>, q: Query)
    ensures Selected(a + b, q) == Selected(a, q) + Selected(b, q)
  {
    if b == [] {
      assert a + b == a;
    } else {
      SelectedConcat(a, DropLast(b), q);
      assert DropLast(a + b) == a + DropLast(b);
    }
  }

  lemma {:induction false} SumConcat(a: seq<Record>, b: seq<Record>)
    ensures Sum(a + b) == Plus(Sum(a), Sum(b))
  {
    if b == [] {
      assert a + b == a;
    } else {
      SumConcat(a, DropLast(b));
      assert DropLast(a + b) == a + DropLast(b);
    }
  }

  lemma {:induction false} SumWhereConcat(a: seq<Record>, b: seq<Record>, f: Field, k: string)
    ensures SumWhere(a + b, f, k) == Plus(SumWhere(a, f, k), SumWhere(b, f, k))
  {
    hide Value;
    if b == [] {
      assert a + b == a;
    } else {
      SumWhereConcat(a, DropLast(b), f, k);
      assert DropLast(a + b) == a + DropLast(b);
    }
  }

  lemma {:induction false} LastClientConcat(a: seq<Record>, b: seq<Record>, k: string)
    ensures LastClient(a + b, k) == if k in Values(b, Key) then LastClient(b, k) else LastClient(a, k)
  {
    if b == [] {
      assert a + b == a;
    } else {
      LastClientConcat(a, DropLast(b), k);
      assert DropLast(a + b) == a + DropLast(b);
      assert DropLast(b) + [Last(b)] == b;
      ValuesStep(DropLast(b), Last(b), Key);
    }
  }

  function MergeGroups(g: map<string, Totals>, h: map<string, Totals>): map<string, Totals>
  {
    map k <- g.Keys + h.Keys :: Plus(TotalsAt(g, k), TotalsAt(h, k))
  }

  /** The later ledger's client name wins. */
  function MergeKeys(g: map<string, KeyUsage>, h: map<string, KeyUsage>): map<string, KeyUsage>
  {
    map k <- g.Keys + h.Keys ::
      if k !in g then h[k]
      else if k !in h then g[k]
      else KeyUsage(h[k].client, Plus(g[k].totals, h[k].totals))
  }

  function MergeCounts(g: map<string, int>, h: map<string, int>): map<string, int>
  {
    map k <- g.Keys + h.Keys :: (if k in g then g[k] else 0) + (if k in h then h[k] else 0)
  }

  function DayAt(g: map<string, DayUsage>, k: string): DayUsage
  {
    if k in g then g[k] else DayUsage(0, 0.0)
  }

  function MergeDays(g: map<string, DayUsage>, h: map<string, DayUsage>): map<string, DayUsage>
  {
    map k <- g.Keys + h.Keys :: DayUsage(DayAt(g, k).requests + DayAt(h, k).requests, DayAt(g, k).cost + DayAt(h, k).cost)
  }

  function Merge(s: Summary, t: Summary): Summary
  {
    Summary(Plus(s.totals, t.totals), MergeGroups(s.byModel, t.byModel), MergeCounts(s.byTier, t.byTier),
      MergeKeys(s.byKey, t.byKey), MergeGroups(s.byClient, t.byClient), MergeDays(s.byDay, t.byDay))
  }

  lemma GroupAt(records: seq<Record>, f: Field, k: string)
    ensures TotalsAt(Group(records, f), k) == SumWhere(records, f, k)
  {
    hide Value;
    if k !in Values(records, f) {
      SumWhereAbsent(records, f, k);
    }
  }

  lemma ValuesConcat(a: seq<Record>, b: seq<Record>, f: Field)
    ensures Group(a + b, f).Keys == Group(a, f).Keys + Group(b, f).Keys
  {
    hide Value;
    assert forall r :: r in a + b <==> r in a || r in b;
  }

  lemma GroupConcat(a: seq<Record>, b: seq<Record>, f: Field)
    ensures Group(a + b, f) == MergeGroups(Group(a, f), Group(b, f))
  {
    hide Group;
    hide SumWhere;
    hide TotalsAt;
    ValuesConcat(a, b, f);
    var both := Group(a + b, f);
    forall k <- both
      ensures both[k] == Plus(TotalsAt(Group(a, f), k), TotalsAt(Group(b, f), k))
    {
      GroupAt(a + b, f, k);
      GroupAt(a, f, k);
      GroupAt(b, f, k);
      SumWhereConcat(a, b, f, k);
      TotalsAtPresent(both, k);
    }
  }

  lemma TotalsAtPresent(g: map<string, Totals>, k: string)
    requires k in g
    ensures TotalsAt(g, k) == g[k]
  {
  }

  lemma AttributedMerge(a: seq<Record>, b: seq<Record>, g: map<string, Totals>, h: map<string, Totals>)
    requires h.Keys == Values(b, Key)
    ensures Attributed(a + b, MergeGroups(g, h)) == MergeKeys(Attributed(a, g), Attributed(b, h))
  {
    hide Values;
    hide LastClient;
    forall k: string
      ensures LastClient(a + b, k) == if k in h.Keys then LastClient(b, k) else LastClient(a, k)
    {
      LastClientConcat(a, b, k);
    }
    assert forall t: Totals :: Plus(t, Zero()) == t && Plus(Zero(), t) == t;
  }

  lemma AttributedConcat(a: seq<Record>, b: seq<Record>)
    ensures Attributed(a + b, Group(a + b, Key))
         == MergeKeys(Attributed(a, Group(a, Key)), Attributed(b, Group(b, Key)))
  {
    GroupConcat(a, b, Key);
    AttributedMerge(a, b, Group(a, Key), Group(b, Key));
  }

  lemma CountsMerge(g: map<string, Totals>, h: map<string, Totals>)
    ensures Counts(MergeGroups(g, h)) == MergeCounts(Counts(g), Counts(h))
  {
  }

  lemma DaysMerge(g: map<string, Totals>, h: map<string, Totals>)
    ensures Days(MergeGroups(g, h)) == MergeDays(Days(g), Days(h))
  {
  }

  /** Before rounding, the rollup of two ledgers end to end is the merge of their rollups, whatever the query. */
  lemma TallyOfConcatenation(a: seq<Line>, b: seq<Line>, q: Query)
    ensures Tally(Selected(a + b, q)) == Merge(Tally(Selected(a, q)), Tally(Selected(b, q)))
  {
    hide Group;
    hide Counts;
    hide Days;
    hide Attributed;
    hide MergeGroups;
    hide MergeCounts;
    hide MergeDays;
    hide MergeKeys;
    SelectedConcat(a, b, q);
    var x, y := Selected(a, q), Selected(b, q);
    SumConcat(x, y);
    GroupConcat(x, y, Model);
    GroupConcat(x, y, Tier);
    CountsMerge(Group(x, Tier), Group(y, Tier));
    AttributedConcat(x, y);
    GroupConcat(x, y, Client);
    GroupConcat(x, y, Day);
    DaysMerge(Group(x, Day), Group(y, Day));
  }

  // ----- filters --------------------------------------------------------------------------------------

  /** The query `q` narrowed to one key or one client. */
  function Narrowed(q: Query, f: Field, k: string): Query
    requires f == Key || f == Client
  {
    if f == Key then q.(keyId := Some(k)) else q.(client := Some(k))
  }

  lemma {:induction false} NarrowedSum(lines: seq<Line>, q: Query, f: Field, k: string)
    requires (f == Key && q.keyId.None?) || (f == Client && q.client.None?)
    ensures Sum(Selected(lines, Narrowed(q, f, k))) == SumWhere(Selected(lines, q), f, k)
  {
    if lines != [] {
      NarrowedSum(DropLast(lines), q, f, k);
      var before, after := Selected(DropLast(lines), q), Selected(lines, q);
      assert after != before ==> DropLast(after) == before;
      var narrow, narrower := Selected(DropLast(lines), Narrowed(q, f, k)), Selected(lines, Narrowed(q, f, k));
      assert narrower != narrow ==> DropLast(narrower) == narrow;
    }
  }

  lemma NarrowedTotals(lines: seq<Line>, q: Query, f: Field, k: string)
    requires (f == Key && q.keyId.None?) || (f == Client && q.client.None?)
    ensures Report(Some(lines), Narrowed(q, f, k)).totals
         == TotalsAt(RoundAll(Group(Selected(lines, q), f)), k)
  {
    hide Value;
    NarrowedSum(lines, q, f, k);
    RoundMicrosError(0.0);
    if k !in Values(Selected(lines, q), f) {
      SumWhereAbsent(Selected(lines, q), f, k);
    }
  }

  /** Asking for one key reports exactly that key's line of the unfiltered report, rounding included. */
  lemma KeyFilterAgrees(lines: seq<Line>, q: Query, k: string)
    requires q.keyId.None?
    ensures Report(Some(lines), q.(keyId := Some(k))).totals == TotalsAt(Owned(Report(Some(lines), q).byKey), k)
  {
    hide Group;
    NarrowedTotals(lines, q, Key, k);
    assert Owned(Report(Some(lines), q).byKey) == RoundAll(Group(Selected(lines, q), Key));
  }

  /** Asking for one client reports exactly that client's line of the unfiltered report. */
  lemma ClientFilterAgrees(lines: seq<Line>, q: Query, client: string)
    requires q.client.None?
    ensures Report(Some(lines), q.(client := Some(client))).totals == TotalsAt(Report(Some(lines), q).byClient, client)
  {
    hide Group;
    NarrowedTotals(lines, q, Client, client);
  }

  // ----- one record, one window -------------------------------------------------------------------------------

  /** A ledger of one record: with the merge law this decides every report, field by field. */
  lemma OneRecordCounts(r: Record)
    ensures var s, t := Tally([r]), Totals(1, r.prompt, r.completion, r.cost);
      s.totals == t
      && s.byModel.Keys == {r.model} && s.byModel[r.model] == t
      && s.byTier.Keys == {r.tier} && s.byTier[r.tier] == 1
      && s.byKey.Keys == {r.keyId} && s.byKey[r.keyId] == KeyUsage(r.client, t)
      && s.byClient.Keys == {r.client} && s.byClient[r.client] == t
      && var day := Calendar.DayText(r.ts);
      s.byDay.Keys == {day} && s.byDay[day] == DayUsage(1, r.cost)
  {
    hide Calendar.DayText;
    hide Group;
    OneGroup(r, Model);
    OneGroup(r, Tier);
    OneGroup(r, Key);
    OneGroup(r, Client);
    OneGroup(r, Day);
    assert DropLast([r]) == [];
    assert Sum([r]) == Plus(Zero(), Of(r));
  }

  lemma OneGroup(r: Record, f: Field)
    ensures var g := Group([r], f);
      g.Keys == {Value(f, r)} && g[Value(f, r)] == Totals(1, r.prompt, r.completion, r.cost)
  {
    hide Value;
    assert DropLast([r]) == [];
    assert Values([r], f) == {Value(f, r)};
    assert SumWhere([], f, Value(f, r)) == Zero();
    assert SumWhere([r], f, Value(f, r)) == Plus(Zero(), Of(r));
  }

  /** A ledger of no records reports nothing. */
  lemma NoRecordsCount()
    ensures var s := Tally([]);
      s.totals == Totals(0, 0, 0, 0.0)
      && s.byModel.Keys == s.byTier.Keys == s.byKey.Keys == s.byClient.Keys == s.byDay.Keys == {}
  {
  }

  /** The sum of the records before a time. */
  function SumBefore(records: seq<Record>, since: nat): Totals
  {
    if records == [] then Zero()
    else
      var before := SumBefore(DropLast(records), since);
      if Last(records).ts < since then Plus(before, Of(Last(records))) else before
  }

  /** A window reports exactly the records from its start on: with those before it they make up the report of all time. */
  lemma {:induction false} WindowSplits(lines: seq<Line>, q: Query, since: nat)
    requires q.since.None?
    ensures Sum(Selected(lines, q)) == Plus(Sum(Selected(lines, q.(since := Some(since)))), SumBefore(Selected(lines, q), since))
    ensures forall r <- Selected(lines, q.(since := Some(since))) :: since <= r.ts
  {
    if lines != [] {
      hide Sum;
      hide SumBefore;
      hide Of;
      WindowSplits(DropLast(lines), q, since);
      WindowStep(lines, q, since);
    } else {
      assert Sum([]) == SumBefore([], since) == Zero();
    }
  }

  lemma SumBeforeStep(records: seq<Record>, r: Record, since: nat)
    ensures SumBefore(records + [r], since)
         == if r.ts < since then Plus(SumBefore(records, since), Of(r)) else SumBefore(records, since)
  {
    assert DropLast(records + [r]) == records;
  }

  lemma WindowStep(lines: seq<Line>, q: Query, since: nat)
    requires lines != [] && q.since.None?
    requires var w := q.(since := Some(since));
      var before := DropLast(lines);
      Sum(Selected(before, q)) == Plus(Sum(Selected(before, w)), SumBefore(Selected(before, q), since))
      && forall r <- Selected(before, w) :: since <= r.ts
    ensures var w := q.(since := Some(since));
      Sum(Selected(lines, q)) == Plus(Sum(Selected(lines, w)), SumBefore(Selected(lines, q), since))
      && forall r <- Selected(lines, w) :: since <= r.ts
  {
    hide Sum;
    hide SumBefore;
    hide Of;
    var w := q.(since := Some(since));
    var all, windowed := Selected(DropLast(lines), q), Selected(DropLast(lines), w);
    if Last(lines).Parsed? {
      var r := Last(lines).record;
      SumStep(all, r);
      SumStep(windowed, r);
      SumBeforeStep(all, r, since);
    }
  }
}
