/** The refresh protocol of the catalog router as a state machine: every step is one region the code
    runs under a lock or one system call, so outcome reports, other refreshes, failed writes and crashes
    may fall between any two of them. */
module RefreshProtocol {
  import opened Basics
  import opened Catalog
  import opened Router
  import opened Failover

  /** How a snapshot is written to its file and read back. */
  datatype Codec = Codec(encode: Snapshot -> string, decode: string -> Option<Snapshot>)

  datatype Config = Config(codec: Codec, routing: Routing, seed: Snapshot, threshold: nat)

  ghost predicate Lossless(codec: Codec)
  {
    forall s :: codec.decode(codec.encode(s)) == Some(s)
  }

  /** How far the refresh that holds the refresh lock has come. */
  datatype Phase =
    | Idle
    | Locked(models: seq<CatalogModel>)
    | HeldPins(models: seq<CatalogModel>, held: Pins)
    | Built(next: Snapshot)
    | Writing(next: Snapshot, written: nat)
    | Renamed(next: Snapshot)

  /** `disk` is the snapshot file, `tmp` its sibling; `published` lists every snapshot renamed into
      place so far. */
  datatype Sys = Sys(mem: RouterState, disk: Option<string>, tmp: Option<string>, phase: Phase, published: seq<Snapshot>)

  datatype Event =
    | Acquire(models: seq<CatalogModel>)
    | ReadPins
    | FillEmptyTiers(now: nat)
    | CreateTmp
    | WriteChunk(size: nat)
    | Rename
    | Swap
    | Fail(tmpRemoved: bool)
    | Outcome(report: Report)
    | Crash

  /** Start-up: the decodable file, else the seed. */
  function Load(cfg: Config, disk: Option<string>): RouterState
  {
    match disk
    case None => Fresh(cfg.seed)
    case Some(text) =>
      match cfg.codec.decode(text)
      case None => Fresh(cfg.seed)
      case Some(snapshot) => Fresh(snapshot)
  }

  function Boot(cfg: Config, disk: Option<string>, tmp: Option<string>): Sys
  {
    Sys(Load(cfg, disk), disk, tmp, Idle, [])
  }

  /** The refresh's own steps; a step that is not enabled does nothing. */
  function RefreshStep(cfg: Config, s: Sys, e: Event): Sys
  {
    match (s.phase, e)
    // an empty catalog is refused right after the lock is taken
    case (Idle, Acquire(models)) => if models == [] then s else s.(phase := Locked(models))
    case (Locked(models), ReadPins) => s.(phase := HeldPins(models, s.mem.snapshot.pins))
    case (HeldPins(models, held), FillEmptyTiers(now)) =>
      s.(phase := Built(RefreshSnapshot(models, cfg.routing, held, s.mem.snapshot.pins, now)))
    case (Built(next), CreateTmp) => s.(phase := Writing(next, 0), tmp := Some(""))
    case (Writing(next, written), WriteChunk(size)) =>
      var text := cfg.codec.encode(next);
      var upTo := if written + size < |text| then written + size else |text|;
      if written <= upTo && s.tmp.Some?
      then s.(phase := Writing(next, upTo), tmp := Some(s.tmp.value + text[written..upTo])) else s
    case (Writing(next, written), Rename) =>
      if written == |cfg.codec.encode(next)|
      then s.(phase := Renamed(next), disk := s.tmp, tmp := None, published := s.published + [next]) else s
    case (Renamed(next), Swap) => s.(phase := Idle, mem := Fresh(next))
    case (Built(_), Fail(removed)) => s.(phase := Idle, tmp := if removed then None else s.tmp)
    case (Writing(_, _), Fail(removed)) => s.(phase := Idle, tmp := if removed then None else s.tmp)
    case _ => s
  }

  function Apply(cfg: Config, s: Sys, e: Event): Sys
  {
    match e
    case Outcome(report) => s.(mem := Step(s.mem, report, cfg.threshold))
    case Crash => s.(mem := Load(cfg, s.disk), phase := Idle)
    case _ => RefreshStep(cfg, s, e)
  }

  function Execute(cfg: Config, s: Sys, events: seq<Event>): Sys
  {
    if events == [] then s else Apply(cfg, Execute(cfg, s, DropLast(events)), Last(events))
  }

  // ----- the invariant ---------------------------------------------------------------------------

  /** `next` is what refreshing from `previous` on some non-empty catalog gives. */
  ghost predicate IsRefreshOf(cfg: Config, previous: Snapshot, next: Snapshot)
  {
    exists models: seq<CatalogModel>, now: nat ::
      models != [] && next == RefreshSnapshot(models, cfg.routing, previous.pins, previous.pins, now)
  }

  /** The snapshot the process started from, and everything published since. */
  function Chain(base: Snapshot, s: Sys): (chain: seq<Snapshot>)
    ensures |chain| == |s.published| + 1
  {
    [base] + s.published
  }

  ghost predicate PhaseInv(cfg: Config, base: Snapshot, s: Sys)
  {
    match s.phase
    case Idle => s.mem.snapshot == Last(Chain(base, s))
    case Locked(models) => s.mem.snapshot == Last(Chain(base, s)) && models != []
    case HeldPins(models, held) =>
      s.mem.snapshot == Last(Chain(base, s)) && models != [] && held == s.mem.snapshot.pins
    case Built(next) => s.mem.snapshot == Last(Chain(base, s)) && IsRefreshOf(cfg, s.mem.snapshot, next)
    case Writing(next, written) =>
      s.mem.snapshot == Last(Chain(base, s)) && IsRefreshOf(cfg, s.mem.snapshot, next)
      && written <= |cfg.codec.encode(next)| && s.tmp == Some(cfg.codec.encode(next)[..written])
    case Renamed(next) =>
      s.published != [] && next == Last(s.published) && s.mem.snapshot == Chain(base, s)[|s.published| - 1]
  }

  ghost predicate DiskInv(cfg: Config, base: Snapshot, s: Sys)
  {
    if s.published == [] then Load(cfg, s.disk) == Fresh(base)
    else s.disk == Some(cfg.codec.encode(Last(s.published)))
  }

  ghost predicate ChainInv(cfg: Config, base: Snapshot, s: Sys)
  {
    forall i :: 0 <= i < |s.published| ==> IsRefreshOf(cfg, Chain(base, s)[i], s.published[i])
  }

  ghost predicate Inv(cfg: Config, base: Snapshot, s: Sys)
  {
    PhaseInv(cfg, base, s) && DiskInv(cfg, base, s) && ChainInv(cfg, base, s)
  }

  lemma RenameKeepsInv(cfg: Config, base: Snapshot, s: Sys)
    requires Inv(cfg, base, s)
    ensures Inv(cfg, base, RefreshStep(cfg, s, Rename))
  {
    hide RefreshSnapshot;
    hide IsRefreshOf;
    if s.phase.Writing? {
      var text := cfg.codec.encode(s.phase.next);
      assert text[..|text|] == text;
      var after := RefreshStep(cfg, s, Rename);
      if after.phase.Renamed? {
        assert Chain(base, after) == Chain(base, s) + [s.phase.next];
        forall i | 0 <= i < |after.published|
          ensures IsRefreshOf(cfg, Chain(base, after)[i], after.published[i])
        {
        }
      }
    }
  }

  lemma WriteKeepsPrefix(text: string, written: nat, upTo: nat)
    requires written <= upTo <= |text|
    ensures text[..written] + text[written..upTo] == text[..upTo]
  {
  }

  lemma WriteChunkKeepsInv(cfg: Config, base: Snapshot, s: Sys, size: nat)
    requires Inv(cfg, base, s) && s.phase.Writing?
    ensures Inv(cfg, base, RefreshStep(cfg, s, WriteChunk(size)))
  {
    hide RefreshSnapshot;
    hide IsRefreshOf;
    hide Load;
    hide ChainInv;
    var after := RefreshStep(cfg, s, WriteChunk(size));
    var text, written := cfg.codec.encode(s.phase.next), s.phase.written;
    WriteKeepsPrefix(text, written, if written + size < |text| then written + size else |text|);
    SameHistory(cfg, base, s, after);
  }

  lemma SameHistory(cfg: Config, base: Snapshot, s: Sys, after: Sys)
    requires after.published == s.published && after.disk == s.disk && DiskInv(cfg, base, s) && ChainInv(cfg, base, s)
    ensures DiskInv(cfg, base, after) && ChainInv(cfg, base, after) && Chain(base, after) == Chain(base, s)
  {
    hide IsRefreshOf;
    hide Load;
  }

  lemma FillKeepsInv(cfg: Config, base: Snapshot, s: Sys, now: nat)
    requires Inv(cfg, base, s) && s.phase.HeldPins?
    ensures Inv(cfg, base, RefreshStep(cfg, s, FillEmptyTiers(now)))
  {
    hide RefreshSnapshot;
    hide Load;
    hide ChainInv;
    SameHistory(cfg, base, s, RefreshStep(cfg, s, FillEmptyTiers(now)));
    assert IsRefreshOf(cfg, s.mem.snapshot,
      RefreshSnapshot(s.phase.models, cfg.routing, s.phase.held, s.phase.held, now));
  }

  lemma RefreshStepKeepsInv(cfg: Config, base: Snapshot, s: Sys, e: Event)
    requires Inv(cfg, base, s)
    ensures Inv(cfg, base, RefreshStep(cfg, s, e))
  {
    if e == Rename {
      RenameKeepsInv(cfg, base, s);
    } else if e.FillEmptyTiers? && s.phase.HeldPins? {
      FillKeepsInv(cfg, base, s, e.now);
    } else if e.WriteChunk? && s.phase.Writing? {
      WriteChunkKeepsInv(cfg, base, s, e.size);
    } else {
      OtherStepKeepsInv(cfg, base, s, e);
    }
  }

  lemma OtherStepKeepsInv(cfg: Config, base: Snapshot, s: Sys, e: Event)
    requires Inv(cfg, base, s) && e != Rename
    requires !(e.FillEmptyTiers? && s.phase.HeldPins?) && !(e.WriteChunk? && s.phase.Writing?)
    ensures Inv(cfg, base, RefreshStep(cfg, s, e))
  {
    hide RefreshSnapshot;
    hide IsRefreshOf;
    hide Load;
    hide ChainInv;
    hide Fresh;
    SameHistory(cfg, base, s, RefreshStep(cfg, s, e));
    FreshSnapshot(if s.phase.Renamed? then s.phase.next else base);
    assert s.published != [] ==> Last(Chain(base, s)) == Last(s.published);
  }

  lemma FreshSnapshot(snapshot: Snapshot)
    ensures Fresh(snapshot).snapshot == snapshot
  {
  }

  lemma ApplyKeepsInv(cfg: Config, base: Snapshot, s: Sys, e: Event)
    requires Lossless(cfg.codec) && Inv(cfg, base, s)
    ensures Inv(cfg, base, Apply(cfg, s, e))
  {
    hide RefreshSnapshot;
    hide Step;
    match e
    case Outcome(report) => StepKeepsSnapshot(s.mem, report, cfg.threshold);
    case Crash =>
    case _ => RefreshStepKeepsInv(cfg, base, s, e);
  }

  /** The snapshot a start on any file resumes: the file's own, or the seed if there is none or it does not decode. */
  function StartOf(cfg: Config, disk: Option<string>): Snapshot
  {
    Load(cfg, disk).snapshot
  }

  lemma {:induction false} ExecuteKeepsInv(cfg: Config, disk: Option<string>, tmp: Option<string>, events: seq<Event>)
    requires Lossless(cfg.codec)
    ensures Inv(cfg, StartOf(cfg, disk), Execute(cfg, Boot(cfg, disk, tmp), events))
  {
    if events != [] {
      hide Apply;
      hide Inv;
      ExecuteKeepsInv(cfg, disk, tmp, DropLast(events));
      ApplyKeepsInv(cfg, StartOf(cfg, disk), Execute(cfg, Boot(cfg, disk, tmp), DropLast(events)), Last(events));
    }
  }

  // ----- what every execution guarantees --------------------------------------------------------------

  /** Whatever file the process starts on, it stays as it is until a snapshot is published, and from then on is
      at every moment the whole text of the newest published one, never a mixture. */
  lemma DiskHoldsOneWholeSnapshot(cfg: Config, disk: Option<string>, tmp: Option<string>, events: seq<Event>)
    requires Lossless(cfg.codec)
    ensures var s := Execute(cfg, Boot(cfg, disk, tmp), events);
      if s.published == [] then s.disk == disk
      else s.disk == Some(cfg.codec.encode(Last(s.published)))
  {
    ExecuteKeepsInv(cfg, disk, tmp, events);
    DiskChangesByPublishing(cfg, Boot(cfg, disk, tmp), events);
  }

  /** The file changes only when a snapshot is published. */
  lemma {:induction false} DiskChangesByPublishing(cfg: Config, s: Sys, events: seq<Event>)
    requires s.published == []
    ensures Execute(cfg, s, events).published == [] ==> Execute(cfg, s, events).disk == s.disk
  {
    if events != [] {
      hide RefreshSnapshot;
      hide Step;
      DiskChangesByPublishing(cfg, s, DropLast(events));
    }
  }

  /** Outside the short span between rename and swap, memory routes by what a start on the file would resume, and
      once something is published that is the file's own snapshot. */
  lemma MemoryMatchesDisk(cfg: Config, disk: Option<string>, tmp: Option<string>, events: seq<Event>)
    requires Lossless(cfg.codec)
    ensures var s := Execute(cfg, Boot(cfg, disk, tmp), events);
      !s.phase.Renamed? ==>
        s.mem.snapshot == StartOf(cfg, s.disk)
        && (s.published != [] ==> s.disk.Some? && cfg.codec.decode(s.disk.value) == Some(s.mem.snapshot))
  {
    ExecuteKeepsInv(cfg, disk, tmp, events);
    var s := Execute(cfg, Boot(cfg, disk, tmp), events);
    hide Execute;
    hide Boot;
    hide ChainInv;
    hide IsRefreshOf;
    if !s.phase.Renamed? {
      InvMatchesDisk(cfg, StartOf(cfg, disk), s);
    }
  }

  lemma InvMatchesDisk(cfg: Config, base: Snapshot, s: Sys)
    requires Lossless(cfg.codec) && PhaseInv(cfg, base, s) && DiskInv(cfg, base, s) && !s.phase.Renamed?
    ensures s.mem.snapshot == StartOf(cfg, s.disk)
    ensures s.published != [] ==> s.disk.Some? && cfg.codec.decode(s.disk.value) == Some(s.mem.snapshot)
  {
    hide IsRefreshOf;
    hide PinnedModels;
    assert s.mem.snapshot == Last(Chain(base, s));
    if s.published != [] {
      assert Last(Chain(base, s)) == Last(s.published);
    }
  }

  /** Every published snapshot is the refresh of the one published before it, whatever crashed or failed
      in between: stickiness is never bypassed by a restart. */
  lemma PublishedSnapshotsFormAChain(cfg: Config, disk: Option<string>, tmp: Option<string>, events: seq<Event>)
    requires Lossless(cfg.codec)
    ensures ChainInv(cfg, StartOf(cfg, disk), Execute(cfg, Boot(cfg, disk, tmp), events))
  {
    ExecuteKeepsInv(cfg, disk, tmp, events);
  }

  /** A crash at any point resumes exactly the persisted pins, with no failover and no streak left. */
  lemma RestartResumesPersistedPins(cfg: Config, disk: Option<string>, tmp: Option<string>, events: seq<Event>)
    requires Lossless(cfg.codec)
    ensures var s := Execute(cfg, Boot(cfg, disk, tmp), events);
      var resumed, pins := Apply(cfg, s, Crash).mem, Last(Chain(StartOf(cfg, disk), s)).pins;
      resumed.snapshot == Last(Chain(StartOf(cfg, disk), s)) && resumed.failures == map[]
      && resumed.active.Keys == pins.Keys && forall t <- pins :: resumed.active[t] == pins[t].model
  {
    ExecuteKeepsInv(cfg, disk, tmp, events);
    var s := Execute(cfg, Boot(cfg, disk, tmp), events);
    hide Execute;
    hide Boot;
    hide PhaseInv;
    hide ChainInv;
    CrashResumes(cfg, StartOf(cfg, disk), s);
  }

  lemma CrashResumes(cfg: Config, base: Snapshot, s: Sys)
    requires Lossless(cfg.codec) && DiskInv(cfg, base, s)
    ensures var resumed, pins := Apply(cfg, s, Crash).mem, Last(Chain(base, s)).pins;
      resumed.snapshot == Last(Chain(base, s)) && resumed.failures == map[]
      && resumed.active.Keys == pins.Keys && forall t <- pins :: resumed.active[t] == pins[t].model
  {
    hide RefreshStep;
    hide Step;
    if s.published != [] {
      assert Last(Chain(base, s)) == Last(s.published);
    } else {
      assert Chain(base, s) == [base];
    }
    assert Load(cfg, s.disk) == Fresh(Last(Chain(base, s)));
    hide Load;
    hide Chain;
  }

  lemma ExecuteStep(cfg: Config, s: Sys, events: seq<Event>, e: Event)
    ensures Execute(cfg, s, events + [e]) == Apply(cfg, Execute(cfg, s, events), e)
  {
    assert DropLast(events + [e]) == events;
  }

  /** A refresh with nothing in its way takes effect: the split of the catalog is on disk, published, and routed by. */
  lemma UninterruptedRefreshPublishes(cfg: Config, s: Sys, models: seq<CatalogModel>, now: nat)
    requires s.phase == Idle && models != []
    ensures var pins := s.mem.snapshot.pins;
      var next := RefreshSnapshot(models, cfg.routing, pins, pins, now);
      var text := cfg.codec.encode(next);
      var events := [Acquire(models)] + [ReadPins] + [FillEmptyTiers(now)] + [CreateTmp] + [WriteChunk(|text|)] + [Rename] + [Swap];
      Execute(cfg, s, events) == Sys(Fresh(next), Some(text), None, Idle, s.published + [next])
  {
    hide RefreshSnapshot;
    hide Fresh;
    hide Execute;
    var pins := s.mem.snapshot.pins;
    var next := RefreshSnapshot(models, cfg.routing, pins, pins, now);
    var built := [Acquire(models)] + [ReadPins] + [FillEmptyTiers(now)];
    RefreshBuilds(cfg, s, models, now);
    RefreshWrites(cfg, s, built, next);
  }

  lemma RefreshBuilds(cfg: Config, s: Sys, models: seq<CatalogModel>, now: nat)
    requires s.phase == Idle && models != []
    ensures var pins := s.mem.snapshot.pins;
      Execute(cfg, s, [Acquire(models)] + [ReadPins] + [FillEmptyTiers(now)])
      == s.(phase := Built(RefreshSnapshot(models, cfg.routing, pins, pins, now)))
  {
    hide RefreshSnapshot;
    assert [] + [Acquire(models)] == [Acquire(models)] && Execute(cfg, s, []) == s;
    hide Execute;
    ExecuteStep(cfg, s, [], Acquire(models));
    ExecuteStep(cfg, s, [Acquire(models)], ReadPins);
    ExecuteStep(cfg, s, [Acquire(models)] + [ReadPins], FillEmptyTiers(now));
  }

  lemma RefreshWrites(cfg: Config, s: Sys, built: seq<Event>, next: Snapshot)
    requires Execute(cfg, s, built) == s.(phase := Built(next))
    ensures var text := cfg.codec.encode(next);
      Execute(cfg, s, built + [CreateTmp] + [WriteChunk(|text|)] + [Rename] + [Swap])
      == Sys(Fresh(next), Some(text), None, Idle, s.published + [next])
  {
    hide Fresh;
    hide Execute;
    hide Apply;
    var text := cfg.codec.encode(next);
    var created := built + [CreateTmp];
    var written := created + [WriteChunk(|text|)];
    ExecuteStep(cfg, s, built, CreateTmp);
    ExecuteStep(cfg, s, created, WriteChunk(|text|));
    ExecuteStep(cfg, s, written, Rename);
    ExecuteStep(cfg, s, written + [Rename], Swap);
    FourSteps(cfg, s.(phase := Built(next)), next);
  }

  lemma FourSteps(cfg: Config, s: Sys, next: Snapshot)
    requires s.phase == Built(next)
    ensures var text := cfg.codec.encode(next);
      Apply(cfg, Apply(cfg, Apply(cfg, Apply(cfg, s, CreateTmp), WriteChunk(|text|)), Rename), Swap)
      == Sys(Fresh(next), Some(text), None, Idle, s.published + [next])
  {
    hide RefreshSnapshot;
    hide Fresh;
    hide Step;
    hide Load;
    var text := cfg.codec.encode(next);
    assert "" + text[0..|text|] == text;
    var s1 := Apply(cfg, s, CreateTmp);
    assert s1 == s.(phase := Writing(next, 0), tmp := Some(""));
    var s2 := Apply(cfg, s1, WriteChunk(|text|));
    assert s2 == s.(phase := Writing(next, |text|), tmp := Some(text));
    var s3 := Apply(cfg, s2, Rename);
    assert s3 == s.(phase := Renamed(next), disk := Some(text), tmp := None, published := s.published + [next]);
  }

  /** The outcome reports of an execution, in order. */
  function Reports(events: seq<Event>): seq<Report>
  {
    if events == [] then []
    else Reports(DropLast(events)) + match Last(events) case Outcome(r) => [r] case _ => []
  }

  lemma UnpublishedStep(cfg: Config, s: Sys, e: Event)
    requires e != Rename && e != Swap && e != Crash
    ensures var after := Apply(cfg, s, e);
      after.mem == (if e.Outcome? then Step(s.mem, e.report, cfg.threshold) else s.mem)
      && after.disk == s.disk && after.published == s.published
  {
    hide RefreshSnapshot;
    hide Step;
  }

  /** A refresh that is refused or fails is invisible: as long as nothing is renamed, swapped or crashed,
      memory is what the outcome reports alone make of it and the file is untouched. */
  lemma {:induction false} UnpublishedRefreshIsInvisible(cfg: Config, s: Sys, events: seq<Event>)
    requires Rename !in events && Swap !in events && Crash !in events
    ensures var after := Execute(cfg, s, events);
      after.mem == Run(s.mem, Reports(events), cfg.threshold)
      && after.disk == s.disk && after.published == s.published
  {
    if events != [] {
      hide RefreshSnapshot;
      hide Step;
      var before, e := DropLast(events), Last(events);
      hide Apply;
      UnpublishedRefreshIsInvisible(cfg, s, before);
      UnpublishedStep(cfg, Execute(cfg, s, before), e);
      if e.Outcome? {
        assert DropLast(Reports(before) + [e.report]) == Reports(before);
      } else {
        assert Reports(before) + [] == Reports(before);
      }
    }
  }

  // ----- why refreshes are serialised -----------------------------------------------------------------

  /** Writing at a file offset, overwriting what is there. */
  function WriteAt(file: string, offset: nat, data: string): string
    requires offset <= |file|
  {
    file[..offset] + data + if offset + |data| <= |file| then file[offset + |data|..] else ""
  }

  /** One refresh without the lock: what it writes and how far its own file handle has come. */
  datatype Writer = Writer(text: string, offset: nat)

  /** Two refreshes past their locks, on one temporary file. */
  datatype Race = Race(tmp: Option<string>, disk: Option<string>, writers: map<bool, Writer>)

  datatype RaceEvent = Create(who: bool) | Write(who: bool, size: nat) | Publish(who: bool)

  /** The persist steps of either refresh: creating truncates, each writes at its own offset, the finished one renames. */
  function RaceStep(s: Race, e: RaceEvent): Race
  {
    if e.who !in s.writers then s
    else
      var w := s.writers[e.who];
      match e
      case Create(who) => s.(tmp := Some(""), writers := s.writers[who := w.(offset := 0)])
      case Write(who, size) =>
        if s.tmp.None? || w.offset + size > |w.text| || w.offset > |s.tmp.value| then s
        else
          s.(tmp := Some(WriteAt(s.tmp.value, w.offset, w.text[w.offset..w.offset + size])),
            writers := s.writers[who := w.(offset := w.offset + size)])
      case Publish(_) =>
        if s.tmp.None? || w.offset != |w.text| then s else s.(tmp := None, disk := s.tmp)
  }

  function RunRace(s: Race, events: seq<RaceEvent>): Race
  {
    if events == [] then s else RaceStep(RunRace(s, DropLast(events)), Last(events))
  }

  lemma Overwrite(file: string, cut: nat, text: string)
    requires cut <= |file| <= cut + |text|
    ensures WriteAt(file, cut, text) == file[..cut] + text
  {
  }

  lemma WriteStep(s: Race, who: bool, size: nat)
    requires who in s.writers && s.tmp.Some?
    requires s.writers[who].offset + size <= |s.writers[who].text| && s.writers[who].offset <= |s.tmp.value|
    requires |s.tmp.value| <= s.writers[who].offset + size
    ensures var w := s.writers[who];
      RaceStep(s, Write(who, size)) ==
        s.(tmp := Some(s.tmp.value[..w.offset] + w.text[w.offset..w.offset + size]),
          writers := s.writers[who := w.(offset := w.offset + size)])
  {
    hide WriteAt;
    var w := s.writers[who];
    Overwrite(s.tmp.value, w.offset, w.text[w.offset..w.offset + size]);
  }

  lemma RaceOn(s: Race, events: seq<RaceEvent>, e: RaceEvent)
    ensures RunRace(s, events + [e]) == RaceStep(RunRace(s, events), e)
  {
    assert DropLast(events + [e]) == events;
  }

  /** Without the lock a run of the same steps publishes a text that is neither snapshot: one refresh writes all of
      `b` between the two halves of the other's `a`. */
  lemma UnserialisedWritersMix(a: string, b: string, cut: nat, disk: Option<string>)
    requires |a| == |b| && 0 < cut < |a| && a[..cut] != b[..cut] && a[cut..] != b[cut..]
    ensures var start := Race(None, disk, map[true := Writer(a, 0), false := Writer(b, 0)]);
      exists events :: RunRace(start, events).disk == Some(b[..cut] + a[cut..])
    ensures b[..cut] + a[cut..] != a && b[..cut] + a[cut..] != b
  {
    var mixed := b[..cut] + a[cut..];
    assert mixed[..cut] == b[..cut] && mixed[cut..] == a[cut..];
    var s0 := Race(None, disk, map[true := Writer(a, 0), false := Writer(b, 0)]);
    var e1, e2 := [Create(true)], [Create(true)] + [Write(true, cut)];
    var e3 := e2 + [Create(false)];
    var e4 := e3 + [Write(false, |b|)];
    var e5 := e4 + [Write(true, |a| - cut)];
    var e6 := e5 + [Publish(true)];
    FirstHalf(s0, a, b, cut);
    SecondHalf(RunRace(s0, e3), a, b, cut);
    RaceOn(s0, e3, Write(false, |b|));
    RaceOn(s0, e4, Write(true, |a| - cut));
    RaceOn(s0, e5, Publish(true));
  }

  lemma FirstHalf(s: Race, a: string, b: string, cut: nat)
    requires s.writers == map[true := Writer(a, 0), false := Writer(b, 0)] && cut < |a|
    ensures RunRace(s, [Create(true)] + [Write(true, cut)] + [Create(false)])
         == Race(Some(""), s.disk, map[true := Writer(a, cut), false := Writer(b, 0)])
  {
    var s1 := s.(tmp := Some(""));
    assert RunRace(s, []) == s && [] + [Create(true)] == [Create(true)];
    RaceOn(s, [], Create(true));
    assert RunRace(s, [Create(true)]) == s1;
    hide RunRace;
    RaceOn(s, [Create(true)], Write(true, cut));
    WriteStep(s1, true, cut);
    RaceOn(s, [Create(true)] + [Write(true, cut)], Create(false));
  }

  /** The handle of `a` stands at `cut` although the file was truncated under it. */
  lemma SecondHalf(s: Race, a: string, b: string, cut: nat)
    requires s == Race(Some(""), s.disk, map[true := Writer(a, cut), false := Writer(b, 0)])
    requires |a| == |b| && cut < |a|
    ensures RaceStep(RaceStep(RaceStep(s, Write(false, |b|)), Write(true, |a| - cut)), Publish(true)).disk
         == Some(b[..cut] + a[cut..])
  {
    WriteStep(s, false, |b|);
    var s1 := RaceStep(s, Write(false, |b|));
    assert "" + b[0..|b|] == b;
    WriteStep(s1, true, |a| - cut);
    assert a[cut..|a|] == a[cut..];
    hide WriteAt;
  }
}
