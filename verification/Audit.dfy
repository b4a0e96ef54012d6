/** The hash-chained audit trail (`AuditLog` in auth.rs). */
module Audit {
  import opened Basics

  /** What a row's hash covers. */
  datatype Row = Row(ts: nat, actor: string, action: string, target: string, outcome: string, prevHash: string)

  datatype Entry = Entry(row: Row, rowHash: string)

  /** A line of the file as the verifier reads it. */
  datatype Line = Blank | Malformed | Parsed(entry: Entry)

  datatype Fault = MalformedEntry | PrevHashMismatch | RowHashMismatch

  datatype Verdict = Unreadable | Valid(count: nat) | BrokenAt(line: nat, fault: Fault)

  function IsText(): Line -> bool
  {
    (line: Line) => line != Blank
  }

  /** The non-blank lines of a file. */
  function TextLines(file: seq<Line>): seq<Line>
  {
    Filter(file, IsText())
  }

  /** The hash a new row chains to: that of the last non-blank line, or "" if it does not parse. */
  function HashOf(line: Line): string
  {
    if line.Parsed? then line.entry.rowHash else ""
  }

  function TailHash(lines: seq<Line>): string
  {
    if lines == [] then "" else HashOf(Last(lines))
  }

  function LastHash(file: seq<Line>): string
  {
    TailHash(TextLines(file))
  }

  function NewLine(hash: Row -> string, row: Row): Line
  {
    Parsed(Entry(row, hash(row)))
  }

  /** What is wrong with a line behind `prev`, if anything. */
  function FaultIn(hash: Row -> string, line: Line, prev: string): Option<Fault>
  {
    if !line.Parsed? then Some(MalformedEntry)
    else if line.entry.row.prevHash != prev then Some(PrevHashMismatch)
    else if line.entry.rowHash != hash(line.entry.row) then Some(RowHashMismatch)
    else None
  }

  /** The verdict on the non-blank lines of a file. */
  function Verify(hash: Row -> string, lines: seq<Line>): Verdict
  {
    if lines == [] then Valid(0)
    else
      match Verify(hash, DropLast(lines))
      case Valid(n) =>
        (match FaultIn(hash, Last(lines), TailHash(DropLast(lines)))
         case None => Valid(n + 1)
         case Some(fault) => BrokenAt(n + 1, fault))
      case verdict => verdict
  }

  class AuditLog {
    const hash: Row -> string
    /** The log file; absent before the first row. */
    var file: Option<seq<Line>>

    constructor (hash: Row -> string, file: Option<seq<Line>>)
      ensures this.hash == hash && this.file == file
    {
      this.hash, this.file := hash, file;
    }

    /** Reads the tail and appends behind it, under one lock. */
    method AppendOutcome(ts: nat, actor: string, action: string, target: string, outcome: string, writeSucceeds: bool)
      returns (ok: bool)
      modifies this`file
      ensures ok == writeSucceeds
      ensures !writeSucceeds ==> file == old(file)
      ensures writeSucceeds ==>
        var lines := if old(file).Some? then old(file).value else [];
        file == Some(lines + [NewLine(hash, Row(ts, actor, action, target, outcome, LastHash(lines)))])
    {
      var lines := if file.Some? then file.value else [];
      var row := Row(ts, actor, action, target, outcome, LastHash(lines));
      if !writeSucceeds {
        return false;
      }
      file := Some(lines + [NewLine(hash, row)]);
      return true;
    }

    /** Walks the chain and stops at the first broken line. */
    method VerifyChain() returns (verdict: Verdict)
      ensures file.None? ==> verdict == Unreadable
      ensures file.Some? ==> verdict == Verify(hash, TextLines(file.value))
    {
      if file.None? {
        return Unreadable;
      }
      var lines := TextLines(file.value);
      var prev := "";
      var count := 0;
      while count < |lines|
        invariant 0 <= count <= |lines|
        invariant Verify(hash, lines[..count]) == Valid(count)
        invariant prev == TailHash(lines[..count])
      {
        var line := lines[count];
        assert DropLast(lines[..count + 1]) == lines[..count];
        if !line.Parsed? {
          BrokenPrefixDecides(hash, lines, count + 1);
          return BrokenAt(count + 1, MalformedEntry);
        }
        if line.entry.row.prevHash != prev {
          BrokenPrefixDecides(hash, lines, count + 1);
          return BrokenAt(count + 1, PrevHashMismatch);
        }
        if line.entry.rowHash != hash(line.entry.row) {
          BrokenPrefixDecides(hash, lines, count + 1);
          return BrokenAt(count + 1, RowHashMismatch);
        }
        prev := line.entry.rowHash;
        count := count + 1;
      }
      assert lines[..count] == lines;
      return Valid(count);
    }
  }

  // ----- what a verdict says --------------------------------------------------------------------

  lemma {:induction false} BrokenPrefixDecides(hash: Row -> string, lines: seq<Line>, n: nat)
    requires n <= |lines| && !Verify(hash, lines[..n]).Valid?
    ensures Verify(hash, lines) == Verify(hash, lines[..n])
  {
    if n < |lines| {
      assert DropLast(lines)[..n] == lines[..n];
      BrokenPrefixDecides(hash, DropLast(lines), n);
    } else {
      assert lines[..n] == lines;
    }
  }

  /** The fault of line `i` of a log, judged against the line before it. */
  function FaultAt(hash: Row -> string, lines: seq<Line>, i: nat): Option<Fault>
    requires i < |lines|
  {
    FaultIn(hash, lines[i], TailHash(lines[..i]))
  }

  /** Line `n`, counted from 1, is the first with a fault. */
  ghost predicate FirstFaultAt(hash: Row -> string, lines: seq<Line>, n: nat, fault: Fault)
  {
    1 <= n <= |lines| && FaultAt(hash, lines, n - 1) == Some(fault)
    && forall i :: 0 <= i < n - 1 ==> FaultAt(hash, lines, i) == None
  }

  /** A log is accepted, with its full length, exactly when no line has a fault; it is rejected exactly at
      the first line that has one. */
  lemma {:induction false} VerdictMeaning(hash: Row -> string, lines: seq<Line>)
    ensures Verify(hash, lines) == Valid(|lines|)
      <==> forall i :: 0 <= i < |lines| ==> FaultAt(hash, lines, i) == None
    ensures forall n: nat, fault :: Verify(hash, lines) == BrokenAt(n, fault) <==> FirstFaultAt(hash, lines, n, fault)
    ensures Verify(hash, lines).Valid? ==> Verify(hash, lines).count == |lines|
    ensures Verify(hash, lines) != Unreadable
  {
    if lines != [] {
      var before := DropLast(lines);
      VerdictMeaning(hash, before);
      forall i | 0 <= i < |before|
        ensures FaultAt(hash, lines, i) == FaultAt(hash, before, i)
      {
        assert before[..i] == lines[..i];
      }
      assert FaultAt(hash, lines, |lines| - 1) == FaultIn(hash, Last(lines), TailHash(before));
    }
  }

  lemma TextLinesStep(file: seq<Line>, line: Line)
    requires line != Blank
    ensures TextLines(file + [line]) == TextLines(file) + [line]
  {
    assert DropLast(file + [line]) == file;
  }

  lemma VerifyStep(hash: Row -> string, lines: seq<Line>, row: Row)
    requires row.prevHash == TailHash(lines)
    ensures Verify(hash, lines + [NewLine(hash, row)])
         == match Verify(hash, lines) case Valid(n) => Valid(n + 1) case verdict => verdict
  {
    hide TailHash;
    var line := NewLine(hash, row);
    assert DropLast(lines + [line]) == lines && Last(lines + [line]) == line;
    assert FaultIn(hash, line, TailHash(lines)) == None;
  }

  /** Appending one row through the log extends an accepted log and leaves a rejected one rejected at
      the same line. */
  lemma AppendKeepsVerdict(hash: Row -> string, file: seq<Line>, row: Row)
    requires row.prevHash == LastHash(file)
    ensures Verify(hash, TextLines(file + [NewLine(hash, row)]))
         == match Verify(hash, TextLines(file)) case Valid(n) => Valid(n + 1) case verdict => verdict
  {
    hide Verify;
    hide TextLines;
    TextLinesStep(file, NewLine(hash, row));
    VerifyStep(hash, TextLines(file), row);
  }

  // ----- interleaved appends --------------------------------------------------------------------------

  /** One append of one thread: the tail read and the write, as separate steps under the append lock. */
  datatype Event =
    | ReadTail(ts: nat, actor: string, action: string, target: string, outcome: string)
    | Write(succeeds: bool)

  /** `pending` is the row of the thread that holds the lock. */
  datatype Sys = Sys(file: seq<Line>, pending: Option<Row>, written: nat)

  function Apply(hash: Row -> string, s: Sys, e: Event): Sys
  {
    match e
    case ReadTail(ts, actor, action, target, outcome) =>
      // another thread waits while the lock is held
      if s.pending.Some? then s
      else s.(pending := Some(Row(ts, actor, action, target, outcome, LastHash(s.file))))
    case Write(succeeds) =>
      if s.pending.None? then s
      else if !succeeds then s.(pending := None)
      else Sys(s.file + [NewLine(hash, s.pending.value)], None, s.written + 1)
  }

  function Execute(hash: Row -> string, s: Sys, events: seq<Event>): Sys
  {
    if events == [] then s else Apply(hash, Execute(hash, s, DropLast(events)), Last(events))
  }

  /** The log is accepted with `base` lines and one for every write, and a pending row chains to its tail. */
  ghost predicate IsChained(hash: Row -> string, s: Sys, base: nat)
  {
    Verify(hash, TextLines(s.file)) == Valid(base + s.written)
    && (s.pending.Some? ==> s.pending.value.prevHash == LastHash(s.file))
  }

  lemma ApplyKeepsChain(hash: Row -> string, s: Sys, e: Event, base: nat)
    requires IsChained(hash, s, base)
    ensures IsChained(hash, Apply(hash, s, e), base)
  {
    hide Verify;
    hide TextLines;
    hide LastHash;
    if s.pending.Some? {
      AppendKeepsVerdict(hash, s.file, s.pending.value);
    }
  }

  /** From an accepted log, any interleaving of appends gives an accepted log with one more line for
      every successful write. */
  lemma {:induction false} InterleavedAppendsAreAccepted(hash: Row -> string, file: seq<Line>, events: seq<Event>)
    requires Verify(hash, TextLines(file)).Valid?
    ensures IsChained(hash, Execute(hash, Sys(file, None, 0), events), |TextLines(file)|)
  {
    if events == [] {
      VerdictMeaning(hash, TextLines(file));
    } else {
      hide IsChained;
      InterleavedAppendsAreAccepted(hash, file, DropLast(events));
      ApplyKeepsChain(hash, Execute(hash, Sys(file, None, 0), DropLast(events)), Last(events), |TextLines(file)|);
    }
  }

  /** Why the read and the append share one lock: two rows chained to the same tail fork the chain, and
      the log is rejected at the second. */
  lemma UnlockedAppendsFork(hash: Row -> string, file: seq<Line>, a: Row, b: Row)
    requires Verify(hash, TextLines(file)).Valid?
    requires a.prevHash == LastHash(file) && b.prevHash == LastHash(file) && hash(a) != LastHash(file)
    ensures Verify(hash, TextLines(file + [NewLine(hash, a)] + [NewLine(hash, b)]))
         == BrokenAt(|TextLines(file)| + 2, PrevHashMismatch)
  {
    AppendKeepsVerdict(hash, file, a);
    VerdictMeaning(hash, TextLines(file));
    var once := file + [NewLine(hash, a)];
    TextLinesStep(file, NewLine(hash, a));
    TextLinesStep(once, NewLine(hash, b));
    assert DropLast(TextLines(once) + [NewLine(hash, b)]) == TextLines(once);
  }

  // ----- tamper evidence -------------------------------------------------------------------------------

  /** What is asked of the hash: no collisions, and never the empty text of a fresh log. */
  ghost predicate CollisionFree(hash: Row -> string)
  {
    (forall a, b :: hash(a) == hash(b) ==> a == b) && forall a :: hash(a) != ""
  }

  /** The last hash pins the whole log: two accepted logs that end in the same hash are the same, line by
      line and in length. */
  lemma {:induction false} LastHashPinsLog(hash: Row -> string, a: seq<Line>, b: seq<Line>)
    requires CollisionFree(hash) && Verify(hash, a).Valid? && Verify(hash, b).Valid?
    requires TailHash(a) == TailHash(b)
    ensures a == b
  {
    if a != [] && b != [] {
      LastHashPinsLog(hash, DropLast(a), DropLast(b));
      assert a == DropLast(a) + [Last(a)] && b == DropLast(b) + [Last(b)];
    }
  }

  /** What the chain alone cannot show: every prefix of an accepted log is accepted, so a truncated log
      is caught only by a last hash kept elsewhere. */
  lemma TruncationIsAccepted(hash: Row -> string, lines: seq<Line>, n: nat)
    requires Verify(hash, lines).Valid? && n <= |lines|
    ensures Verify(hash, lines[..n]) == Valid(n)
  {
    if !Verify(hash, lines[..n]).Valid? {
      BrokenPrefixDecides(hash, lines, n);
    }
    VerdictMeaning(hash, lines[..n]);
  }
}
