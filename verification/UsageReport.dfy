/** The usage rollup: one loop over the ledger fills the totals and five groupings (usage.rs). */
module UsageReport {
  import opened Basics
  import Calendar

  datatype Record = Record(
    ts: nat, keyId: string, client: string, model: string, tier: string, prompt: nat, completion: nat, cost: real)

  /** A line of the ledger as the reader sees it. */
  datatype Line = Torn | Blank | Malformed | Parsed(record: Record)

  datatype Totals = Totals(requests: int, prompt: int, completion: int, cost: real)

  datatype KeyUsage = KeyUsage(client: string, totals: Totals)

  datatype DayUsage = DayUsage(requests: int, cost: real)

  datatype Summary = Summary(totals: Totals, byModel: map<string, Totals>, byTier: map<string, int>,
    byKey: map<string, KeyUsage>, byClient: map<string, Totals>, byDay: map<string, DayUsage>)

  function Zero(): Totals
  {
    Totals(0, 0, 0, 0.0)
  }

  function Plus(a: Totals, b: Totals): Totals
  {
    Totals(a.requests + b.requests, a.prompt + b.prompt, a.completion + b.completion, a.cost + b.cost)
  }

  function Of(r: Record): Totals
  {
    Totals(1, r.prompt, r.completion, r.cost)
  }

  // ----- selection -----------------------------------------------------------------------------

  datatype Query = Query(since: Option<nat>, keyId: Option<string>, client: Option<string>)

  predicate Matches(q: Query, r: Record)
  {
    (q.since.Some? ==> q.since.value <= r.ts)
    && (q.keyId.Some? ==> r.keyId == q.keyId.value)
    && (q.client.Some? ==> r.client == q.client.value)
  }

  /** The readable records a query asks for, in ledger order. */
  function Selected(lines: seq<Line>, q: Query): seq<Record>
  {
    if lines == [] then []
    else
      var before := Selected(DropLast(lines), q);
      if Last(lines).Parsed? && Matches(q, Last(lines).record) then before + [Last(lines).record] else before
  }

  // ----- what a summary should say ---------------------------------------------------------------

  datatype Field = Model | Tier | Key | Client | Day

  function Value(f: Field, r: Record): string
  {
    match f
    case Model => r.model
    case Tier => r.tier
    case Key => r.keyId
    case Client => r.client
    case Day => Calendar.DayText(r.ts)
  }

  function Sum(records: seq<Record>): Totals
  {
    if records == [] then Zero() else Plus(Sum(DropLast(records)), Of(Last(records)))
  }

  /** The sum of the records whose field has the value k. */
  function SumWhere(records: seq<Record>, f: Field, k: string): Totals
  {
    if records == [] then Zero()
    else
      var before := SumWhere(DropLast(records), f, k);
      if Value(f, Last(records)) == k then Plus(before, Of(Last(records))) else before
  }

  function Values(records: seq<Record>, f: Field): set<string>
  {
    set r <- records :: Value(f, r)
  }

  function Group(records: seq<Record>, f: Field): map<string, Totals>
  {
    map k <- Values(records, f) :: SumWhere(records, f, k)
  }

  /** The client of the last record of a key. */
  function LastClient(records: seq<Record>, keyId: string): string
  {
    if records == [] then ""
    else if Last(records).keyId == keyId then Last(records).client
    else LastClient(DropLast(records), keyId)
  }

  function Counts(g: map<string, Totals>): map<string, int>
  {
    map k <- g :: g[k].requests
  }

  function Days(g: map<string, Totals>): map<string, DayUsage>
  {
    map k <- g :: DayUsage(g[k].requests, g[k].cost)
  }

  function Attributed(records: seq<Record>, g: map<string, Totals>): map<string, KeyUsage>
  {
    map k <- g :: KeyUsage(LastClient(records, k), g[k])
  }

  function Tally(records: seq<Record>): Summary
  {
    Summary(Sum(records), Group(records, Model), Counts(Group(records, Tier)),
      Attributed(records, Group(records, Key)), Group(records, Client), Days(Group(records, Day)))
  }

  // ----- rounding ---------------------------------------------------------------------------------

  /** Nearest integer, halves away from zero. */
  function Round(x: real): int
  {
    if x >= 0.0 then (x + 0.5).Floor else -((-x + 0.5).Floor)
  }

  function RoundMicros(value: real): real
  {
    Round(value * 1_000_000.0) as real / 1_000_000.0
  }

  function RoundCost(t: Totals): Totals
  {
    t.(cost := RoundMicros(t.cost))
  }

  function RoundAll(g: map<string, Totals>): map<string, Totals>
  {
    map k <- g :: RoundCost(g[k])
  }

  function Rounded(s: Summary): Summary
  {
    Summary(RoundCost(s.totals), RoundAll(s.byModel), s.byTier,
      map k <- s.byKey :: s.byKey[k].(totals := RoundCost(s.byKey[k].totals)),
      RoundAll(s.byClient),
      map k <- s.byDay :: s.byDay[k].(cost := RoundMicros(s.byDay[k].cost)))
  }

  /** What the rollup reports; a ledger that cannot be opened reports nothing. */
  function Report(ledger: Option<seq<Line>>, q: Query): Summary
  {
    Rounded(Tally(if ledger.None? then [] else Selected(ledger.value, q)))
  }

  // ----- the loop -----------------------------------------------------------------------------------

  function TotalsAt(g: map<string, Totals>, k: string): Totals
  {
    if k in g then g[k] else Zero()
  }

  lemma ValuesStep(records: seq<Record>, r: Record, f: Field)
    ensures Values(records + [r], f) == Values(records, f) + {Value(f, r)}
  {
    assert forall x :: x in records + [r] <==> x in records || x == r;
  }

  lemma {:induction false} SumWhereAbsent(records: seq<Record>, f: Field, k: string)
    requires k !in Values(records, f)
    ensures SumWhere(records, f, k) == Zero()
  {
    if records != [] {
      assert forall x <- DropLast(records) :: x in records;
      assert Last(records) in records;
      SumWhereAbsent(DropLast(records), f, k);
    }
  }

  /** One more record adds itself to its own bucket and leaves the others alone. */
  lemma GroupStep(records: seq<Record>, r: Record, f: Field)
    ensures Group(records + [r], f)
         == Group(records, f)[Value(f, r) := Plus(TotalsAt(Group(records, f), Value(f, r)), Of(r))]
  {
    hide Value;
    assert DropLast(records + [r]) == records;
    ValuesStep(records, r, f);
    if Value(f, r) !in Values(records, f) {
      SumWhereAbsent(records, f, Value(f, r));
    }
  }

  lemma CountsStep(g: map<string, Totals>, k: string, t: Totals)
    ensures Counts(g[k := t]) == Counts(g)[k := t.requests]
  {
  }

  lemma DaysStep(g: map<string, Totals>, k: string, t: Totals)
    ensures Days(g[k := t]) == Days(g)[k := DayUsage(t.requests, t.cost)]
  {
  }

  lemma AttributedStep(records: seq<Record>, r: Record, g: map<string, Totals>, t: Totals)
    ensures Attributed(records + [r], g[r.keyId := t]) == Attributed(records, g)[r.keyId := KeyUsage(r.client, t)]
  {
    assert DropLast(records + [r]) == records;
  }

  lemma TierStep(records: seq<Record>, r: Record)
    ensures var g := Counts(Group(records, Tier));
      Counts(Group(records + [r], Tier)) == g[r.tier := (if r.tier in g then g[r.tier] else 0) + 1]
  {
    hide Group;
    GroupStep(records, r, Tier);
    var g := Group(records, Tier);
    CountsStep(g, r.tier, Plus(TotalsAt(g, r.tier), Of(r)));
  }

  lemma KeyStep(records: seq<Record>, r: Record)
    ensures var g := Attributed(records, Group(records, Key));
      Attributed(records + [r], Group(records + [r], Key))
      == g[r.keyId := KeyUsage(r.client, Plus(if r.keyId in g then g[r.keyId].totals else Zero(), Of(r)))]
  {
    hide Group;
    GroupStep(records, r, Key);
    var g := Group(records, Key);
    AttributedStep(records, r, g, Plus(TotalsAt(g, r.keyId), Of(r)));
  }

  lemma DayStep(records: seq<Record>, r: Record)
    ensures var g := Days(Group(records, Day));
      var d := Calendar.DayText(r.ts);
      var u := if d in g then g[d] else DayUsage(0, 0.0);
      Days(Group(records + [r], Day)) == g[d := DayUsage(u.requests + 1, u.cost + r.cost)]
  {
    hide Group;
    hide Calendar.DayText;
    GroupStep(records, r, Day);
    var g := Group(records, Day);
    DaysStep(g, Value(Day, r), Plus(TotalsAt(g, Value(Day, r)), Of(r)));
  }

  /** Counts one more record into a bucket. */
  method Count(t: Totals, r: Record) returns (after: Totals)
    ensures after == Plus(t, Of(r))
  {
    after := Totals(t.requests + 1, t.prompt + r.prompt, t.completion + r.completion, t.cost + r.cost);
  }

  /** One readable, selected record: the totals and the five groupings are updated in turn. */
  method AddRecord(s: Summary, r: Record, ghost before: seq<Record>) returns (after: Summary)
    requires s == Tally(before)
    ensures after == Tally(before + [r])
  {
    hide Group;
    hide Counts;
    hide Days;
    hide Attributed;
    hide Plus;
    hide Of;
    hide Calendar.DayText;
    assert DropLast(before + [r]) == before;
    var totals := Count(s.totals, r);
    GroupStep(before, r, Model);
    var bucket := Count(if r.model in s.byModel then s.byModel[r.model] else Totals(0, 0, 0, 0.0), r);
    var byModel := s.byModel[r.model := bucket];
    TierStep(before, r);
    var byTier := s.byTier[r.tier := (if r.tier in s.byTier then s.byTier[r.tier] else 0) + 1];
    KeyStep(before, r);
    bucket := Count(if r.keyId in s.byKey then s.byKey[r.keyId].totals else Totals(0, 0, 0, 0.0), r);
    var byKey := s.byKey[r.keyId := KeyUsage(r.client, bucket)];
    GroupStep(before, r, Client);
    bucket := Count(if r.client in s.byClient then s.byClient[r.client] else Totals(0, 0, 0, 0.0), r);
    var byClient := s.byClient[r.client := bucket];
    DayStep(before, r);
    var day := Calendar.DayText(r.ts);
    var usage := if day in s.byDay then s.byDay[day] else DayUsage(0, 0.0);
    var byDay := s.byDay[day := DayUsage(usage.requests + 1, usage.cost + r.cost)];
    after := Summary(totals, byModel, byTier, byKey, byClient, byDay);
  }

  /** The scan: unreadable, blank and malformed lines are skipped, the others filtered and added. */
  method Summarize(ledger: Option<seq<Line>>, q: Query) returns (summary: Summary)
    ensures summary == Report(ledger, q)
  {
    summary := Summary(Zero(), map[], map[], map[], map[], map[]);
    assert summary == Tally([]) == Rounded(summary);
    if ledger.None? {
      return;
    }
    hide Tally;
    var lines := ledger.value;
    for i := 0 to |lines|
      invariant summary == Tally(Selected(lines[..i], q))
    {
      assert DropLast(lines[..i + 1]) == lines[..i];
      var line := lines[i];
      if !line.Parsed? {
        continue;
      }
      var record := line.record;
      if q.since.Some? && record.ts < q.since.value {
        continue;
      }
      if q.keyId.Some? && record.keyId != q.keyId.value {
        continue;
      }
      if q.client.Some? && record.client != q.client.value {
        continue;
      }
      summary := AddRecord(summary, record, Selected(lines[..i], q));
    }
    assert lines[..|lines|] == lines;
    summary := Rounded(summary);
  }
}
