/** The metered relay of a streamed answer, and the usage frame it is settled on (`MeteredStream` and
    `usage_from_sse` in main.rs). */
module Metering {
  import opened Basics

  type Byte = x: int | 0 <= x < 256

  /** Bytes of relayed body kept for usage extraction. */
  const USAGE_TAIL_BYTES := 8 * 1024

  // ----- the relay -----------------------------------------------------------------------------

  datatype Poll = Chunk(bytes: seq<Byte>) | Broken | Ended | Pending

  /** `calls` lists what the finalizer has been called with; `armed` tells whether it still can be. */
  datatype Relay = Relay(tail: seq<Byte>, armed: bool, calls: seq<seq<Byte>>)

  function LastBytes(s: seq<Byte>, n: nat): seq<Byte>
  {
    if |s| <= n then s else s[|s| - n..]
  }

  function PollStep(r: Relay, item: Poll): Relay
  {
    match item
    case Chunk(bytes) => r.(tail := LastBytes(r.tail + bytes, USAGE_TAIL_BYTES))
    case Pending => r
    case _ => if r.armed then r.(armed := false, calls := r.calls + [r.tail]) else r
  }

  class MeteredStream {
    var tail: seq<Byte>
    var armed: bool
    /** Every call of the finalizer so far. */
    var calls: seq<seq<Byte>>

    ghost function State(): Relay
      reads this
    {
      Relay(tail, armed, calls)
    }

    constructor ()
      ensures State() == Relay([], true, [])
    {
      tail, armed, calls := [], true, [];
    }

    /** Polls the inner stream once; the item is passed on unchanged. */
    method PollNext(item: Poll) returns (relayed: Poll)
      modifies this
      ensures State() == PollStep(old(State()), item)
      ensures relayed == item
    {
      relayed := item;
      if item.Chunk? {
        tail := tail + item.bytes;
        if |tail| > USAGE_TAIL_BYTES {
          var excess := |tail| - USAGE_TAIL_BYTES;
          tail := tail[excess..];
        }
      } else if item.Broken? || item.Ended? {
        if armed {
          armed := false;
          calls := calls + [tail];
        }
      }
    }
  }

  function RelayAfter(polls: seq<Poll>): Relay
  {
    if polls == [] then Relay([], true, []) else PollStep(RelayAfter(DropLast(polls)), Last(polls))
  }

  /** All bytes relayed. */
  function Relayed(polls: seq<Poll>): seq<Byte>
  {
    if polls == [] then []
    else Relayed(DropLast(polls)) + if Last(polls).Chunk? then Last(polls).bytes else []
  }

  predicate IsEnd(p: Poll)
  {
    p.Broken? || p.Ended?
  }

  /** The polls before the first end of the body. */
  function BeforeEnd(polls: seq<Poll>): seq<Poll>
  {
    if polls == [] then []
    else if HasEnded(DropLast(polls)) then BeforeEnd(DropLast(polls))
    else if IsEnd(Last(polls)) then DropLast(polls)
    else polls
  }

  predicate HasEnded(polls: seq<Poll>)
  {
    exists p <- polls :: IsEnd(p)
  }

  lemma HasEndedStep(polls: seq<Poll>, p: Poll)
    ensures HasEnded(polls + [p]) <==> HasEnded(polls) || IsEnd(p)
  {
    assert forall q :: q in polls + [p] <==> q in polls || q == p;
  }

  lemma BeforeEndStep(polls: seq<Poll>, p: Poll)
    ensures BeforeEnd(polls + [p]) == if HasEnded(polls) then BeforeEnd(polls) else if IsEnd(p) then polls else polls + [p]
    ensures !HasEnded(polls) ==> BeforeEnd(polls) == polls
    ensures HasEnded(polls + [p]) <==> HasEnded(polls) || IsEnd(p)
  {
    hide HasEnded;
    assert DropLast(polls + [p]) == polls;
    HasEndedStep(polls, p);
    if polls != [] {
      assert DropLast(polls) + [Last(polls)] == polls;
      HasEndedStep(DropLast(polls), Last(polls));
    }
  }

  /** What comes before the end has no end in it, begins the polls, and is followed by their first end, if there is one. */
  lemma {:induction false} BeforeEndMeaning(polls: seq<Poll>)
    ensures BeforeEnd(polls) <= polls && !HasEnded(BeforeEnd(polls))
    ensures HasEnded(polls) ==> |BeforeEnd(polls)| < |polls| && IsEnd(polls[|BeforeEnd(polls)|])
    ensures !HasEnded(polls) ==> BeforeEnd(polls) == polls
  {
    if polls != [] {
      var before := DropLast(polls);
      BeforeEndMeaning(before);
      assert before + [Last(polls)] == polls;
      HasEndedStep(before, Last(polls));
      hide HasEnded;
    }
  }

  lemma LastBytesAbsorbs(x: seq<Byte>, y: seq<Byte>, n: nat)
    ensures LastBytes(LastBytes(x, n) + y, n) == LastBytes(x + y, n)
  {
  }

  /** However the body is cut into chunks, the finalizer is called at most once, when the body ends, and
      with exactly the last `min(8192, length)` bytes relayed until then. */
  lemma {:induction false} FinalizedOnceOnTail(polls: seq<Poll>)
    ensures RelayAfter(polls).calls
         == if HasEnded(polls) then [LastBytes(Relayed(BeforeEnd(polls)), USAGE_TAIL_BYTES)] else []
    ensures RelayAfter(polls).armed <==> !HasEnded(polls)
    ensures RelayAfter(polls).tail == LastBytes(Relayed(polls), USAGE_TAIL_BYTES)
  {
    if polls != [] {
      hide HasEnded;
      hide LastBytes;
      var before, p := DropLast(polls), Last(polls);
      assert polls == before + [p];
      FinalizedOnceOnTail(before);
      BeforeEndStep(before, p);
      TailStep(before, p);
    } else {
      NothingEnded();
    }
  }

  lemma NothingEnded()
    ensures !HasEnded([]) && LastBytes([], USAGE_TAIL_BYTES) == []
  {
  }

  lemma TailStep(before: seq<Poll>, p: Poll)
    requires RelayAfter(before).tail == LastBytes(Relayed(before), USAGE_TAIL_BYTES)
    ensures RelayAfter(before + [p]).tail == LastBytes(Relayed(before + [p]), USAGE_TAIL_BYTES)
  {
    hide LastBytes;
    assert DropLast(before + [p]) == before;
    if p.Chunk? {
      LastBytesAbsorbs(Relayed(before), p.bytes, USAGE_TAIL_BYTES);
    } else {
      assert Relayed(before) + [] == Relayed(before);
    }
  }

  // ----- lines -----------------------------------------------------------------------------------

  const NEWLINE: Byte := 10
  const RETURN: Byte := 13

  /** The pieces between newlines; always at least one. */
  function Split(b: seq<Byte>): (parts: seq<seq<Byte>>)
    ensures parts != []
  {
    if b == [] then [[]] else Prepend(b[0], Split(b[1..]))
  }

  /** One more byte in front of split text. */
  function Prepend(c: Byte, parts: seq<seq<Byte>>): (longer: seq<seq<Byte>>)
    requires parts != []
    ensures longer != []
  {
    if c == NEWLINE then [[]] + parts else [[c] + parts[0]] + parts[1..]
  }

  function StripReturn(line: seq<Byte>): seq<Byte>
  {
    if line != [] && Last(line) == RETURN then DropLast(line) else line
  }

  /** Newline-terminated pieces lose a trailing carriage return. */
  function Terminated(parts: seq<seq<Byte>>): seq<seq<Byte>>
  {
    if parts == [] then [] else [StripReturn(parts[0])] + Terminated(parts[1..])
  }

  /** The lines of split text: an unterminated last piece counts only if it is not empty. */
  function LinesOf(parts: seq<seq<Byte>>): seq<seq<Byte>>
    requires parts != []
  {
    Terminated(DropLast(parts)) + if Last(parts) == [] then [] else [Last(parts)]
  }

  function Lines(b: seq<Byte>): seq<seq<Byte>>
  {
    LinesOf(Split(b))
  }

  predicate HasNoNewline(b: seq<Byte>)
  {
    forall x <- b :: x != 10
  }

  lemma {:induction false} SplitOneLine(line: seq<Byte>)
    requires HasNoNewline(line)
    ensures Split(line) == [line]
  {
    if line != [] {
      assert line[0] in line && forall x <- line[1..] :: x in line;
      SplitOneLine(line[1..]);
      assert [line[0]] + line[1..] == line;
    }
  }

  /** A text is read line by line: up to each byte 10, less a byte 13 right before it; text behind the last newline is a
      line only if there is any. */
  lemma LinesMeaning(line: seq<Byte>, rest: seq<Byte>)
    requires HasNoNewline(line)
    ensures Lines(line + [10] + rest) == [if line != [] && Last(line) == 13 then DropLast(line) else line] + Lines(rest)
    ensures Lines(line) == if line == [] then [] else [line]
  {
    hide Split;
    hide Terminated;
    hide Join;
    SplitOneLine(line);
    NewlineFirst(rest);
    assert line + [10] + rest == line + ([10] + rest);
    SplitConcat(line, [10] + rest);
    JoinLine(line, Split(rest));
    LinesBehind(line, Split(rest));
    assert DropLast([line]) == [];
    TerminatedNone();
  }

  lemma JoinLine(line: seq<Byte>, parts: seq<seq<Byte>>)
    requires parts != []
    ensures Join([line], [[]] + parts) == [line] + parts
  {
    assert line + [] == line && DropLast([line]) == [] && ([[]] + parts)[1..] == parts;
  }

  lemma LinesBehind(line: seq<Byte>, parts: seq<seq<Byte>>)
    requires parts != []
    ensures LinesOf([line] + parts) == [StripReturn(line)] + LinesOf(parts)
  {
    hide Terminated;
    hide StripReturn;
    var all := [line] + parts;
    assert DropLast(all) == [line] + DropLast(parts) && Last(all) == Last(parts);
    TerminatedConcat([line], DropLast(parts));
    TerminatedOne(line);
  }

  lemma TerminatedNone()
    ensures Terminated([]) == []
  {
  }

  lemma NewlineFirst(rest: seq<Byte>)
    ensures Split([10] + rest) == [[]] + Split(rest)
  {
    assert ([10] + rest)[1..] == rest;
  }

  // ----- the usage frame ----------------------------------------------------------------------------

  datatype Usage = Usage(prompt: nat, completion: nat)

  /** The text layer taken as given: lossy decoding of a line, white space, and the usage object of a
      JSON text, with absent counts as zero. */
  datatype Reader = Reader(decode: seq<Byte> -> string, isSpace: char -> bool, usageObject: string -> Option<Usage>)

  function TrimStart(s: string, isSpace: char -> bool): string
  {
    if s != [] && isSpace(s[0]) then TrimStart(s[1..], isSpace) else s
  }

  function TrimEnd(s: string, isSpace: char -> bool): string
  {
    if s != [] && isSpace(Last(s)) then TrimEnd(DropLast(s), isSpace) else s
  }

  function Trim(s: string, isSpace: char -> bool): string
  {
    TrimEnd(TrimStart(s, isSpace), isSpace)
  }

  lemma {:induction false} TrimStartMeaning(s: string, isSpace: char -> bool) returns (front: string)
    ensures s == front + TrimStart(s, isSpace) && forall c <- front :: isSpace(c)
    ensures TrimStart(s, isSpace) != "" ==> !isSpace(TrimStart(s, isSpace)[0])
  {
    front := "";
    if s != "" && isSpace(s[0]) {
      var more := TrimStartMeaning(s[1..], isSpace);
      front := [s[0]] + more;
      assert s == [s[0]] + s[1..];
    } else {
      assert "" + s == s;
    }
  }

  lemma {:induction false} TrimEndMeaning(s: string, isSpace: char -> bool) returns (back: string)
    ensures s == TrimEnd(s, isSpace) + back && forall c <- back :: isSpace(c)
    ensures TrimEnd(s, isSpace) != "" ==> !isSpace(Last(TrimEnd(s, isSpace)))
  {
    back := "";
    if s != "" && isSpace(Last(s)) {
      var more := TrimEndMeaning(DropLast(s), isSpace);
      back := more + [Last(s)];
      assert s == DropLast(s) + [Last(s)];
      assert TrimEnd(s, isSpace) + back == (TrimEnd(DropLast(s), isSpace) + more) + [Last(s)];
    } else {
      assert s + "" == s;
    }
  }

  /** Trimming takes the white space off both ends, all of it and nothing else. */
  lemma TrimMeaning(s: string, isSpace: char -> bool) returns (front: string, back: string)
    ensures s == front + Trim(s, isSpace) + back && (forall c <- front :: isSpace(c)) && forall c <- back :: isSpace(c)
    ensures Trim(s, isSpace) != "" ==> !isSpace(Trim(s, isSpace)[0]) && !isSpace(Last(Trim(s, isSpace)))
  {
    front := TrimStartMeaning(s, isSpace);
    back := TrimEndMeaning(TrimStart(s, isSpace), isSpace);
    hide TrimStart;
    hide TrimEnd;
    assert front + (Trim(s, isSpace) + back) == front + Trim(s, isSpace) + back;
    if Trim(s, isSpace) != "" {
      assert TrimStart(s, isSpace)[0] == Trim(s, isSpace)[0];
    }
  }

  /** What one line contributes: the non-zero usage of a `data:` frame. */
  function LineUsage(r: Reader, line: seq<Byte>): Option<Usage>
  {
    var text := Trim(r.decode(line), r.isSpace);
    if !("data:" <= text) then None
    else
      var payload := Trim(text[5..], r.isSpace);
      if payload == "" || payload == "[DONE]" then None
      else
        match r.usageObject(payload)
        case None => None
        case Some(usage) => if usage == Usage(0, 0) then None else Some(usage)
  }

  /** The usage of the last line that has one. */
  function LastUsage(r: Reader, lines: seq<seq<Byte>>): Option<Usage>
  {
    if lines == [] then None
    else if LineUsage(r, Last(lines)).Some? then LineUsage(r, Last(lines))
    else LastUsage(r, DropLast(lines))
  }

  function UsageFromSse(r: Reader, body: seq<Byte>): Option<Usage>
  {
    LastUsage(r, Lines(body))
  }

  /** The backward scan of the gateway. */
  method ScanUsage(r: Reader, body: seq<Byte>) returns (usage: Option<Usage>)
    ensures usage == UsageFromSse(r, body)
  {
    var lines := Lines(body);
    hide Lines;
    hide Trim;
    var i := |lines|;
    assert lines[..i] == lines;
    while i > 0
      invariant 0 <= i <= |lines|
      invariant LastUsage(r, lines) == LastUsage(r, lines[..i])
    {
      i := i - 1;
      assert DropLast(lines[..i + 1]) == lines[..i];
      var text := Trim(r.decode(lines[i]), r.isSpace);
      if !("data:" <= text) {
        continue;
      }
      var payload := Trim(text[5..], r.isSpace);
      if payload == "" || payload == "[DONE]" {
        continue;
      }
      var found := r.usageObject(payload);
      if found.None? {
        continue;
      }
      if found.value.prompt == 0 && found.value.completion == 0 {
        continue;
      }
      return found;
    }
    return None;
  }

  // ----- a tail is as good as the body -------------------------------------------------------------------

  function OrElse<T>(a: Option<T>, b: Option<T>): Option<T>
  {
    if a.Some? then a else b
  }

  lemma {:induction false} LastUsageConcat(r: Reader, a: seq<seq<Byte>>, b: seq<seq<Byte>>)
    ensures LastUsage(r, a + b) == OrElse(LastUsage(r, b), LastUsage(r, a))
  {
    if b == [] {
      assert a + b == a;
    } else {
      assert DropLast(a + b) == a + DropLast(b);
      LastUsageConcat(r, a, DropLast(b));
    }
  }

  ghost predicate IsLastWithUsage(r: Reader, lines: seq<seq<Byte>>, i: nat)
  {
    i < |lines| && LineUsage(r, lines[i]).Some? && LineUsage(r, lines[i]) == LastUsage(r, lines)
    && forall line <- lines[i + 1..] :: LineUsage(r, line).None?
  }

  /** The usage found is that of a line with one, behind which no line has any. */
  lemma {:induction false} LastUsageMeaning(r: Reader, lines: seq<seq<Byte>>)
    ensures LastUsage(r, lines).None? <==> forall line <- lines :: LineUsage(r, line).None?
    ensures LastUsage(r, lines).Some? ==> exists i: nat :: IsLastWithUsage(r, lines, i)
  {
    hide LineUsage;
    if lines != [] {
      var before := DropLast(lines);
      LastUsageMeaning(r, before);
      assert lines == before + [Last(lines)];
      if LineUsage(r, Last(lines)).Some? {
        assert lines[|before|] == Last(lines) && lines[|before| + 1..] == [];
        assert IsLastWithUsage(r, lines, |before|);
      } else if LastUsage(r, before).Some? {
        var i: nat :| IsLastWithUsage(r, before, i);
        assert lines[i] == before[i] && lines[i + 1..] == before[i + 1..] + [Last(lines)];
        assert IsLastWithUsage(r, lines, i);
      }
    }
  }

  /** A frame that reports no tokens at all, and the end marker, hide no earlier usage. */
  lemma EmptyFrameIsPassedOver(r: Reader, lines: seq<seq<Byte>>, line: seq<Byte>, payload: string)
    requires Trim(r.decode(line), r.isSpace) == "data:" + payload
    requires var p := Trim(payload, r.isSpace); p == "[DONE]" || r.usageObject(p) == Some(Usage(0, 0))
    ensures LastUsage(r, lines + [line]) == LastUsage(r, lines)
  {
    assert ("data:" + payload)[5..] == payload;
    assert DropLast(lines + [line]) == lines;
    hide Trim;
  }

  /** A frame that reports tokens is the usage of every body it ends. */
  lemma LastFrameCounts(r: Reader, lines: seq<seq<Byte>>, line: seq<Byte>, payload: string, usage: Usage)
    requires Trim(r.decode(line), r.isSpace) == "data:" + payload
    requires var p := Trim(payload, r.isSpace); p != "" && p != "[DONE]" && r.usageObject(p) == Some(usage)
    requires 0 < usage.prompt + usage.completion
    ensures LastUsage(r, lines + [line]) == Some(usage)
  {
    assert ("data:" + payload)[5..] == payload;
    hide Trim;
  }

  lemma {:induction false} TerminatedConcat(a: seq<seq<Byte>>, b: seq<seq<Byte>>)
    ensures Terminated(a + b) == Terminated(a) + Terminated(b)
  {
    if a == [] {
      assert a + b == b;
    } else {
      TerminatedConcat(a[1..], b);
      assert (a + b)[1..] == a[1..] + b;
    }
  }

  /** Two split texts put together: the last piece of one and the first of the other become one. */
  function Join(p: seq<seq<Byte>>, q: seq<seq<Byte>>): (all: seq<seq<Byte>>)
    requires p != [] && q != []
    ensures all != []
  {
    DropLast(p) + [Last(p) + q[0]] + q[1..]
  }

  lemma JoinAfterPrepend(c: Byte, p: seq<seq<Byte>>, q: seq<seq<Byte>>)
    requires p != [] && q != []
    ensures Join(Prepend(c, p), q) == Prepend(c, Join(p, q))
  {
    if c == NEWLINE {
      JoinBehindHead([], p, q);
    } else if |p| == 1 {
      assert ([c] + p[0]) + q[0] == [c] + (p[0] + q[0]);
      assert DropLast(p) == [];
    } else {
      assert p == [p[0]] + p[1..];
      JoinBehindHead(p[0], p[1..], q);
      JoinBehindHead([c] + p[0], p[1..], q);
    }
  }

  lemma JoinBehindHead(head: seq<Byte>, p: seq<seq<Byte>>, q: seq<seq<Byte>>)
    requires p != [] && q != []
    ensures Join([head] + p, q) == [head] + Join(p, q)
  {
    assert DropLast([head] + p) == [head] + DropLast(p);
  }

  /** Cutting a text anywhere splits at most the one line across the cut. */
  lemma {:induction false} SplitConcat(a: seq<Byte>, b: seq<Byte>)
    ensures Split(a + b) == Join(Split(a), Split(b))
  {
    if a == [] {
      assert a + b == b;
      assert [] + Split(b)[0] == Split(b)[0];
      assert Split(b) == [Split(b)[0]] + Split(b)[1..];
    } else {
      hide Join;
      hide Prepend;
      SplitConcat(a[1..], b);
      assert (a + b)[1..] == a[1..] + b;
      JoinAfterPrepend(a[0], Split(a[1..]), Split(b));
    }
  }

  predicate AtLineStart(front: seq<Byte>)
  {
    Last(Split(front)) == []
  }

  /** The lines that start after the first newline of a text. */
  function LaterLines(b: seq<Byte>): seq<seq<Byte>>
  {
    if |Split(b)| == 1 then [] else LinesOf(Split(b)[1..])
  }

  /** The line up to the first newline, continuing `start`. */
  function FirstLine(start: seq<Byte>, b: seq<Byte>): seq<seq<Byte>>
  {
    var first := start + Split(b)[0];
    if |Split(b)| > 1 then [StripReturn(first)] else if first == [] then [] else [first]
  }

  lemma TerminatedOne(line: seq<Byte>)
    ensures Terminated([line]) == [StripReturn(line)]
  {
    assert [line][1..] == [];
  }

  lemma LinesOfJoin(p: seq<seq<Byte>>, q: seq<seq<Byte>>)
    requires p != [] && |q| > 1
    ensures LinesOf(Join(p, q)) == Terminated(DropLast(p)) + [StripReturn(Last(p) + q[0])] + LinesOf(q[1..])
  {
    hide Terminated;
    hide StripReturn;
    var cut := Last(p) + q[0];
    assert DropLast(Join(p, q)) == DropLast(p) + ([cut] + DropLast(q[1..]));
    TerminatedConcat(DropLast(p), [cut] + DropLast(q[1..]));
    TerminatedConcat([cut], DropLast(q[1..]));
    TerminatedOne(cut);
    assert Last(Join(p, q)) == Last(q[1..]);
  }

  lemma LinesOfCut(front: seq<Byte>, tail: seq<Byte>)
    ensures Lines(front + tail)
         == Terminated(DropLast(Split(front))) + FirstLine(Last(Split(front)), tail) + LaterLines(tail)
  {
    SplitConcat(front, tail);
    hide Split;
    hide Terminated;
    var p, q := Split(front), Split(tail);
    if |q| == 1 {
      assert Join(p, q) == DropLast(p) + [Last(p) + q[0]];
      assert DropLast(Join(p, q)) == DropLast(p);
    } else {
      LinesOfJoin(p, q);
    }
  }

  lemma LinesOfTail(tail: seq<Byte>)
    ensures Lines(tail) == FirstLine([], tail) + LaterLines(tail)
  {
    LinesOfCut([], tail);
    assert [] + tail == tail;
    assert Split([]) == [[]];
    assert Terminated([]) + FirstLine([], tail) == FirstLine([], tail);
  }

  /** The lines of `front + tail` that start inside `tail`. */
  function LinesInTail(front: seq<Byte>, tail: seq<Byte>): seq<seq<Byte>>
  {
    if AtLineStart(front) then Lines(tail) else LaterLines(tail)
  }

  /** The lines of `front + tail` that start before `tail`, one of which may run into it. */
  function LinesBeforeTail(front: seq<Byte>, tail: seq<Byte>): seq<seq<Byte>>
  {
    Terminated(DropLast(Split(front))) + if AtLineStart(front) then [] else FirstLine(Last(Split(front)), tail)
  }

  /** The piece of a cut line that a scan of the tail alone mistakes for a line. */
  function Fragment(front: seq<Byte>, tail: seq<Byte>): seq<seq<Byte>>
  {
    if AtLineStart(front) then [] else FirstLine([], tail)
  }

  /** Both scans prefer a usage line that starts inside the tail; without one, the body scan goes on to
      earlier lines and the tail scan has only the fragment of a cut line. */
  lemma UsageOfBodyAndTail(r: Reader, front: seq<Byte>, tail: seq<Byte>)
    ensures UsageFromSse(r, front + tail)
         == OrElse(LastUsage(r, LinesInTail(front, tail)), LastUsage(r, LinesBeforeTail(front, tail)))
    ensures UsageFromSse(r, tail)
         == OrElse(LastUsage(r, LinesInTail(front, tail)), LastUsage(r, Fragment(front, tail)))
  {
    hide LinesOf;
    hide Split;
    hide LastUsage;
    hide FirstLine;
    hide Terminated;
    LinesOfCut(front, tail);
    LinesOfTail(tail);
    LastUsageConcat(r, LinesBeforeTail(front, tail), LinesInTail(front, tail));
    LastUsageConcat(r, Fragment(front, tail), LinesInTail(front, tail));
    CutLineAtStart(front, tail);
    assert Lines(tail) == Fragment(front, tail) + LinesInTail(front, tail);
    assert Lines(front + tail) == LinesBeforeTail(front, tail) + LinesInTail(front, tail);
  }

  lemma CutLineAtStart(front: seq<Byte>, tail: seq<Byte>)
    ensures AtLineStart(front) ==> FirstLine(Last(Split(front)), tail) == FirstLine([], tail)
  {
  }

  /** Settling on the kept tail equals settling on the whole body exactly when the usage line a full
      backward scan picks starts inside the tail, or the fragment of the cut line reads like it. */
  lemma TailUsageIsBodyUsage(r: Reader, front: seq<Byte>, tail: seq<Byte>)
    ensures UsageFromSse(r, tail) == UsageFromSse(r, front + tail) <==>
      LastUsage(r, LinesInTail(front, tail)).Some?
      || LastUsage(r, Fragment(front, tail)) == LastUsage(r, LinesBeforeTail(front, tail))
  {
    hide UsageFromSse;
    hide LastUsage;
    hide LinesInTail;
    hide LinesBeforeTail;
    hide Fragment;
    UsageOfBodyAndTail(r, front, tail);
  }

  // ----- when a cut line can be misread -----------------------------------------------------------------------

  predicate LooksLikeFrame(r: Reader, line: seq<Byte>)
  {
    "data:" <= Trim(r.decode(line), r.isSpace)
  }

  /** The end of a line, short of the whole of it. */
  predicate IsEndOf(f: seq<Byte>, line: seq<Byte>)
  {
    |f| <= |line| && f == line[|line| - |f|..] && (|f| < |line| || line == [])
  }

  /** No line goes on, behind its beginning, like the beginning of a frame. */
  ghost predicate HasNoInnerFrame(r: Reader, body: seq<Byte>)
  {
    forall line, f :: line in Lines(body) && IsEndOf(f, line) ==> !LooksLikeFrame(r, f)
  }

  lemma CutLineEnds(start: seq<Byte>, tail: seq<Byte>)
    requires start != [] && FirstLine([], tail) != []
    ensures |FirstLine([], tail)| == |FirstLine(start, tail)| == 1
    ensures IsEndOf(FirstLine([], tail)[0], FirstLine(start, tail)[0])
  {
    hide Split;
    var first := Split(tail)[0];
    assert [] + first == first;
    if first != [] {
      assert Last(start + first) == Last(first);
      assert first[|first|..] == [] && DropLast(start + first) == start + DropLast(first);
    }
  }

  /** The fragment a tail begins with is the end of the one line across the cut. */
  lemma FragmentEndsLine(front: seq<Byte>, tail: seq<Byte>) returns (line: seq<Byte>)
    requires Fragment(front, tail) != []
    ensures |Fragment(front, tail)| == 1
    ensures line in Lines(front + tail) && IsEndOf(Fragment(front, tail)[0], line)
  {
    hide Split;
    hide Lines;
    hide Terminated;
    hide FirstLine;
    hide LaterLines;
    hide IsEndOf;
    var start := Last(Split(front));
    LinesOfCut(front, tail);
    CutLineEnds(start, tail);
    line := FirstLine(start, tail)[0];
    assert line in FirstLine(start, tail);
  }

  /** A fragment is read as a usage line only if it begins like a frame inside its line. */
  lemma FragmentSaysNothing(r: Reader, front: seq<Byte>, tail: seq<Byte>)
    requires HasNoInnerFrame(r, front + tail)
    ensures LastUsage(r, Fragment(front, tail)) == None
  {
    hide Lines;
    hide Split;
    hide Trim;
    hide IsEndOf;
    if Fragment(front, tail) != [] {
      var line := FragmentEndsLine(front, tail);
      var f := Fragment(front, tail);
      hide Fragment;
      assert !LooksLikeFrame(r, f[0]);
      assert LineUsage(r, Last(f)).None? && DropLast(f) == [];
    }
  }

  /** For a body whose lines hold no frame inside them, settling on the kept tail equals settling on the whole body exactly
      when a usage line starts inside the tail, or no line before it has any. */
  lemma TailUsageOfFramedBody(r: Reader, front: seq<Byte>, tail: seq<Byte>)
    requires HasNoInnerFrame(r, front + tail)
    ensures UsageFromSse(r, tail) == UsageFromSse(r, front + tail) <==>
      LastUsage(r, LinesInTail(front, tail)).Some? || LastUsage(r, LinesBeforeTail(front, tail)).None?
  {
    hide UsageFromSse;
    hide LastUsage;
    hide LinesInTail;
    hide LinesBeforeTail;
    hide Fragment;
    hide HasNoInnerFrame;
    FragmentSaysNothing(r, front, tail);
    TailUsageIsBodyUsage(r, front, tail);
  }

  /** End to end: a stream whose last usage line starts within its final 8192 bytes is settled on the
      usage of its whole body, however it was chunked. */
  lemma StreamSettlesOnItsUsage(r: Reader, polls: seq<Poll>)
    requires HasEnded(polls)
    ensures var body := Relayed(BeforeEnd(polls));
      var tail := LastBytes(body, USAGE_TAIL_BYTES);
      var front := body[..|body| - |tail|];
      |RelayAfter(polls).calls| == 1
      && (LastUsage(r, LinesInTail(front, tail)).Some? ==>
            UsageFromSse(r, RelayAfter(polls).calls[0]) == UsageFromSse(r, body))
  {
    FinalizedOnceOnTail(polls);
    var body := Relayed(BeforeEnd(polls));
    var tail := LastBytes(body, USAGE_TAIL_BYTES);
    var front := body[..|body| - |tail|];
    assert front + tail == body;
    TailUsageIsBodyUsage(r, front, tail);
    hide RelayAfter;
    hide UsageFromSse;
    hide LastUsage;
  }
}
