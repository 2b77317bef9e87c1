/** Keeping a quiet stream alive (`src/gateway/sse_helpers.py`). */
module KeepaliveWrapping {

  /** How an upstream iterator ends. */
  datatype UpstreamEnd = StopIteration | RaisesTimeout | RaisesOther

  /** The one future the wrapper may hold. */
  datatype Pending<T> = Free | Waiting | Resolved(item: T) | ResolvedEnd

  /** An upstream iterator with its outstanding `__anext__` call. */
  class Upstream<T(0)> {
    const items: seq<T>
    const end: UpstreamEnd
    var pos: nat
    var pending: Pending<T>

    ghost predicate Valid()
      reads this
    {
      && pos <= |items|
      && (pending.Resolved? ==> pos < |items| && pending.item == items[pos])
      && (pending.ResolvedEnd? ==> pos == |items|)
    }

    constructor (items: seq<T>, end: UpstreamEnd)
      ensures Valid() && pos == 0 && pending.Free? && this.items == items && this.end == end
    {
      this.items := items;
      this.end := end;
      pos := 0;
      pending := Free;
    }

    /** `ensure_future(agen.__anext__())`. Calling it while another call is
        outstanding would be an error, which the precondition excludes. */
    method StartNext()
      requires Valid() && pending.Free?
      modifies this`pending
      ensures Valid() && pending.Waiting?
    {
      pending := Waiting;
    }

    /** The outstanding call comes to its result. */
    method Progress()
      requires Valid() && pending.Waiting?
      modifies this`pending
      ensures Valid() && pending == if pos < |items| then Resolved(items[pos]) else ResolvedEnd
    {
      pending := if pos < |items| then Resolved(items[pos]) else ResolvedEnd;
    }

    /** The result is taken and the future dropped. */
    method Take() returns (item: T)
      requires Valid() && pending.Resolved?
      modifies this`pending, this`pos
      ensures Valid() && pending.Free? && pos == old(pos) + 1 && item == items[old(pos)]
    {
      item := pending.item;
      pending := Free;
      pos := pos + 1;
    }
  }

  datatype Emitted<+T> = Keepalive | Passed(item: T)

  function Trues(waits: seq<bool>): (n: nat)
    ensures n <= |waits|
  {
    if waits == [] then 0 else Trues(waits[..|waits| - 1]) + (if waits[|waits| - 1] then 1 else 0)
  }

  function PassedOf<T>(out: seq<Emitted<T>>): seq<T> {
    if out == [] then []
    else PassedOf(out[..|out| - 1]) + (var e := out[|out| - 1]; if e.Passed? then [e.item] else [])
  }

  /** What the i-th wait puts out: the next upstream item if it arrived. */
  function OutputAt<T>(items: seq<T>, waits: seq<bool>, i: nat): Emitted<T>
    requires i < |waits|
  {
    if waits[i] && Trues(waits[..i]) < |items| then Passed(items[Trues(waits[..i])]) else Keepalive
  }

  predicate OneOutputPerWait<T(==)>(items: seq<T>, waits: seq<bool>, out: seq<Emitted<T>>) {
    |out| <= |waits| && forall i :: 0 <= i < |out| ==> out[i] == OutputAt(items, waits, i)
  }

  /** Taking the keepalives out leaves the upstream items, in order and once
      each, up to those that have arrived. */
  lemma {:induction false} KeepalivesTransparent<T>(items: seq<T>, waits: seq<bool>, out: seq<Emitted<T>>)
    requires OneOutputPerWait(items, waits, out)
    ensures var n := Trues(waits[..|out|]);
            PassedOf(out) == items[..if n < |items| then n else |items|]
  {
    if out != [] {
      var k := |out| - 1;
      KeepalivesTransparent(items, waits, out[..k]);
      assert waits[..|out|][..k] == waits[..k];
    }
  }

  /** `waits[i]` says whether the upstream call makes progress within the interval
      of the i-th wait. Every wait puts out exactly one thing. The wrapper ends
      at the first wait that finds the upstream ended and not before, unless the
      upstream ends by raising TimeoutError itself: then the wrapper takes that
      for silence and puts out keepalives for ever. */
  method KeepaliveWrap<T(0,==)>(up: Upstream<T>, waits: seq<bool>) returns (out: seq<Emitted<T>>, ended: bool)
    requires up.Valid() && up.pos == 0 && up.pending.Free?
    modifies up
    ensures up.Valid() && OneOutputPerWait(up.items, waits, out)
    ensures ended ==> up.end != RaisesTimeout && |out| < |waits| && waits[|out|] && Trues(waits[..|out|]) == |up.items|
    ensures !ended ==> |out| == |waits| && (up.end == RaisesTimeout || Trues(waits) <= |up.items|)
  {
    hide PassedOf;
    out, ended := [], false;
    assert waits[..0] == [];
    for i := 0 to |waits|
      invariant up.Valid() && |out| == i && !ended && OneOutputPerWait(up.items, waits, out)
      invariant up.pending.Free? || up.pending.Waiting? || (up.pending.ResolvedEnd? && up.end == RaisesTimeout)
      invariant up.pending.ResolvedEnd? <==> Trues(waits[..i]) > |up.items|
      invariant !up.pending.ResolvedEnd? ==> up.pos == Trues(waits[..i])
    {
      assert waits[..i + 1][..i] == waits[..i];
      if up.pending.Free? {
        up.StartNext();
      }
      if waits[i] && up.pending.Waiting? {
        up.Progress();
      }
      match up.pending
      case Resolved(_) =>
        var item := up.Take();
        out := out + [Passed(item)];
      case ResolvedEnd =>
        if up.end != RaisesTimeout {
          ended := true;
          return;
        }
        out := out + [Keepalive];
      case _ =>
        out := out + [Keepalive];
    }
    assert waits[..|waits|] == waits;
  }

  /** An upstream that raises TimeoutError is never seen to end, however long one
      waits: once its items are through there is nothing but keepalives. */
  method TimeoutErrorNeverEnds<T(0,==)>(items: seq<T>, waits: seq<bool>) returns (out: seq<Emitted<T>>, ended: bool)
    ensures !ended && |out| == |waits|
    ensures forall i :: 0 <= i < |waits| && Trues(waits[..i]) >= |items| ==> out[i] == Keepalive
  {
    var up := new Upstream<T>(items, RaisesTimeout);
    out, ended := KeepaliveWrap(up, waits);
  }
}

/** Running Codex as a subprocess (`src/codex/runner.py`). */
module CodexRunning {
  import opened PyText
  import opened CodexEvents

  type Byte = b: int | 0 <= b < 256

  const STDERR_CAP := 65536
  const STDERR_TAIL := 4096

  function Concat(chunks: seq<seq<Byte>>): seq<Byte> {
    if chunks == [] then [] else Concat(chunks[..|chunks| - 1]) + chunks[|chunks| - 1]
  }

  /** The last `n` elements, or all of them. */
  function Last<T>(s: seq<T>, n: nat): seq<T> {
    if |s| <= n then s else s[|s| - n..]
  }

  /** The ring buffer for stderr. */
  class StderrBuffer {
    var bytes: seq<Byte>

    constructor ()
      ensures bytes == []
    {
      bytes := [];
    }

    /** `_drain_stderr`: however the output is cut into chunks, the buffer holds
        the last `cap` bytes drained. */
    method Drain(chunks: seq<seq<Byte>>, cap: nat)
      requires bytes == []
      modifies this
      ensures bytes == Last(Concat(chunks), cap)
    {
      hide Concat, Last;
      NothingDrained(cap);
      assert chunks[..0] == [];
      for i := 0 to |chunks|
        invariant bytes == Last(Concat(chunks[..i]), cap)
      {
        ConcatMore(chunks, i);
        LastOfMore(Concat(chunks[..i]), chunks[i], cap);
        bytes := bytes + chunks[i];
        LastCuts(bytes, cap);
        if |bytes| > cap {
          bytes := bytes[|bytes| - cap..];
        }
      }
      assert chunks[..|chunks|] == chunks;
    }
  }

  lemma NothingDrained(cap: nat)
    ensures Last(Concat([]), cap) == []
  {}

  lemma ConcatMore(chunks: seq<seq<Byte>>, i: nat)
    requires i < |chunks|
    ensures Concat(chunks[..i + 1]) == Concat(chunks[..i]) + chunks[i]
  {
    assert chunks[..i + 1][..i] == chunks[..i];
  }

  lemma LastCuts<T>(s: seq<T>, n: nat)
    ensures Last(s, n) == if |s| > n then s[|s| - n..] else s
  {}

  lemma LastOfMore<T>(a: seq<T>, b: seq<T>, n: nat)
    ensures Last(Last(a, n) + b, n) == Last(a + b, n)
  {}

  lemma LastOfLast<T>(a: seq<T>, n: nat, m: nat)
    requires m <= n
    ensures Last(Last(a, n), m) == Last(a, m)
  {}

  /** The events of the stdout lines that parse. */
  function Parsed(lines: seq<Option<Event>>): seq<Event> {
    if lines == [] then []
    else Parsed(lines[..|lines| - 1]) +
         (var l := lines[|lines| - 1]; if l.Some? then [l.value] else [])
  }

  /** The lines are read one by one, and those that do not parse are skipped. */
  lemma {:induction false} ParsedAddUp(a: seq<Option<Event>>, b: seq<Option<Event>>)
    ensures Parsed(a + b) == Parsed(a) + Parsed(b)
    ensures Parsed([None]) == [] && forall e :: Parsed([Some(e)]) == [e]
  {
    forall l: Option<Event> ensures [l][..0] == [] && [l][0] == l {}
    if b == [] {
      assert a + b == a;
    } else {
      assert (a + b)[..|a + b| - 1] == a + b[..|b| - 1];
      ParsedAddUp(a, b[..|b| - 1]);
    }
  }

  /** What `Last` leaves out is at the front, and there is something left out only if
      there is more than asked for. */
  lemma LastIs<T>(all: seq<T>, n: nat)
    ensures exists cut: seq<T> :: all == cut + Last(all, n) && (cut == [] || |Last(all, n)| == n)
    ensures |Last(all, n)| == if |all| < n then |all| else n
  {
    var cut := all[..|all| - |Last(all, n)|];
    assert all == cut + Last(all, n);
  }

  predicate SawTerminal(events: seq<Event>) {
    exists i :: 0 <= i < |events| && events[i].IsTerminal()
  }

  /** How the run of the process ends: out of time, cancelled, because reading its
      output raises (a line longer than the reader's buffer, or a process that could not
      be started), or by itself with a return code, None when waiting for it was
      interrupted. */
  datatype ProcessEnd = TimedOut | RunCancelled | ReadFails | Exited(code: Option<int>)

  /** What a consumer of the events meets after the last one. */
  function EndingOf(end: ProcessEnd): Ending {
    match end
    case RunCancelled => TaskCancelled
    case ReadFails => Raised
    case _ => Exhausted
  }

  /** The event the runner adds on its own, if any. */
  function Synthesised(events: seq<Event>, end: ProcessEnd, stderr: seq<Byte>, limit: string,
                       show: int -> string): seq<Event>
  {
    match end
    case TimedOut => [ErrorEvent("TIMEOUT", "exceeded " + limit + "s", None, None)]
    case RunCancelled => []
    case ReadFails => []
    case Exited(None) => []
    case Exited(Some(code)) =>
      if code != 0 && !SawTerminal(events)
      then [ErrorEvent("EXIT_NONZERO", "codex exited " + show(code), Some(Last(stderr, STDERR_TAIL)), None)]
      else []
  }

  /** The error that is added, and when: for a timeout always; for a bad exit unless an
      event had ended the turn, with the last 4096 bytes of stderr. */
  lemma AddedIs(events: seq<Event>, end: ProcessEnd, stderr: seq<Byte>, limit: string, show: int -> string)
    ensures var added := Synthesised(events, end, stderr, limit, show);
            var badExit := end.Exited? && end.code.Some? && end.code.value != 0;
            && (added != [] <==>
                  end.TimedOut? || (badExit && forall i :: 0 <= i < |events| ==> !events[i].IsTerminal()))
            && |added| <= 1 && (added != [] ==> added[0].ErrorEvent? && added[0].exitCode.None?)
            && (end.TimedOut? ==>
                  && added[0].code == "TIMEOUT" && added[0].message == "exceeded " + limit + "s"
                  && added[0].stderrTail.None?)
            && (badExit && added != [] ==>
                  && added[0].code == "EXIT_NONZERO" && added[0].message == "codex exited " + show(end.code.value)
                  && added[0].stderrTail.Some?
                  && |added[0].stderrTail.value| == (if |stderr| < 4096 then |stderr| else 4096)
                  && stderr[|stderr| - |added[0].stderrTail.value|..] == added[0].stderrTail.value)
  {}

  /** All that a run of Codex yields. */
  function Yielded(lines: seq<Option<Event>>, end: ProcessEnd, stderr: seq<Byte>, limit: string,
                   show: int -> string): seq<Event>
  {
    Parsed(lines) + Synthesised(Parsed(lines), end, stderr, limit, show)
  }

  /** Who asks for the events: one task throughout, or a new task for every next frame,
      as under `keepalive_wrap`, where `shows` tells which events put frames out. */
  datatype Consumer = OneTask | TaskPerFrame(shows: Event -> bool)

  /** The task in which the runner set its timer is still the one that waits for it: no
      frame has gone out since. */
  predicate Waiting(c: Consumer, events: seq<Event>) {
    c.TaskPerFrame? ==> forall i :: 0 <= i < |events| ==> !c.shows(events[i])
  }

  /** The time limit passes after so many lines and finds the task that waits. */
  predicate Heeded(lines: seq<Option<Event>>, passes: Option<nat>, c: Consumer) {
    passes.Some? && passes.value <= |lines| && Waiting(c, Parsed(lines[..passes.value]))
  }

  /** All that a run under a limit yields; `end` is how it ends unless the limit does
      it. */
  function Delivered(lines: seq<Option<Event>>, passes: Option<nat>, end: ProcessEnd, stderr: seq<Byte>,
                     limit: string, show: int -> string, c: Consumer): seq<Event>
  {
    if Heeded(lines, passes, c) then Yielded(lines[..passes.value], TimedOut, stderr, limit, show)
    else Yielded(lines, end, stderr, limit, show)
  }

  lemma OneMoreLine(lines: seq<Option<Event>>, i: nat)
    requires i < |lines|
    ensures Parsed(lines[..i + 1]) == Parsed(lines[..i]) + (if lines[i].Some? then [lines[i].value] else [])
    ensures lines[i].None? ==> Parsed(lines[..i + 1]) == Parsed(lines[..i])
  {
    assert lines[..i + 1][..i] == lines[..i];
  }

  lemma OneMoreWaiting(c: Consumer, events: seq<Event>, e: Event)
    ensures Waiting(c, events + [e]) <==> Waiting(c, events) && !(c.TaskPerFrame? && c.shows(e))
    ensures SawTerminal(events + [e]) <==> SawTerminal(events) || e.IsTerminal()
  {
    var all := events + [e];
    assert all[|events|] == e;
    forall i | 0 <= i < |events| ensures all[i] == events[i] {}
    if SawTerminal(events) {
      var k :| 0 <= k < |events| && events[k].IsTerminal();
      assert all[k].IsTerminal();
    }
    if Waiting(c, all) && c.TaskPerFrame? {
      forall i | 0 <= i < |events| ensures !c.shows(events[i]) {
        assert !c.shows(all[i]);
      }
    }
  }

  /** `run_codex`: the parsed lines in order, then at most one synthesised error, and no
      error for an exception, which goes on to the consumer. `stderr` is what was
      drained, in chunks. The timer cancels the task in which it was set. If the consumer
      has gone on to another one, the limit passes without effect. */
  method RunCodex(lines: seq<Option<Event>>, passes: Option<nat>, end: ProcessEnd, stderr: seq<seq<Byte>>,
                  limit: string, show: int -> string, c: Consumer)
    returns (out: seq<Event>, ending: Ending, heeded: bool)
    requires !end.TimedOut?
    ensures heeded <==> Heeded(lines, passes, c)
    ensures out == Delivered(lines, passes, end, Concat(stderr), limit, show, c)
    ensures ending == if heeded then Exhausted else EndingOf(end)
  {
    hide Parsed, SawTerminal, Waiting, Concat, Last;
    var buffer := new StderrBuffer();
    buffer.Drain(stderr, STDERR_CAP);
    LastOfLast(Concat(stderr), STDERR_CAP, STDERR_TAIL);
    out, ending, heeded := [], EndingOf(end), false;
    var sawTerminal := false;
    var task, timerTask := 0, 0;
    NothingParsed(c);
    assert lines[..0] == [];
    var i := 0;
    while true
      invariant i <= |lines| && out == Parsed(lines[..i]) && task >= timerTask
      invariant buffer.bytes == Last(Concat(stderr), STDERR_CAP)
      invariant sawTerminal <==> SawTerminal(out)
      invariant task == timerTask <==> Waiting(c, out)
      invariant passes.Some? && passes.value < i ==> !Heeded(lines, passes, c)
      decreases |lines| - i
    {
      if passes == Some(i) && task == timerTask {
        out := out + [ErrorEvent("TIMEOUT", "exceeded " + limit + "s", None, None)];
        assert out == Yielded(lines[..i], TimedOut, Concat(stderr), limit, show);
        return out, Exhausted, true;
      }
      if i == |lines| {
        break;
      }
      OneMoreLine(lines, i);
      var evt := lines[i];
      i := i + 1;
      if evt.None? {
        continue;
      }
      OneMoreWaiting(c, out, evt.value);
      if evt.value.TurnCompleted? || evt.value.TurnFailed? || evt.value.ErrorEvent? {
        sawTerminal := true;
      }
      out := out + [evt.value];
      if c.TaskPerFrame? && c.shows(evt.value) {
        task := task + 1;
      }
    }
    assert lines[..|lines|] == lines && !Heeded(lines, passes, c);
    assert out + [] == out;
    if end.Exited? && end.code.Some? && end.code.value != 0 && !sawTerminal {
      var tail := Last(buffer.bytes, STDERR_TAIL);
      out := out + [ErrorEvent("EXIT_NONZERO", "codex exited " + show(end.code.value), Some(tail), None)];
    }
    assert out == Yielded(lines, end, Concat(stderr), limit, show);
  }

  lemma NothingParsed(c: Consumer)
    ensures Parsed([]) == [] && !SawTerminal([]) && Waiting(c, [])
  {}
}

/** What clients see of a run that ends badly, through both APIs. */
module BadEndings {
  import opened PyText
  import opened CodexEvents
  import opened CodexRunning
  import opened ResponsesHandling
  import Chat = ChatStreaming

  lemma NoTerminalCut(events: seq<Event>, last: Event)
    requires !SawTerminal(events)
    ensures ThroughTerminal(events + [last]) == events + [last]
  {
    var all := events + [last];
    ThroughTerminalIs(all, |all|);
  }

  function TimeoutOf(limit: string): Outcome {
    Failure(ResponsesWire.Error("timeout", "exceeded " + limit + "s"))
  }

  /** If the runner reports a timeout, a Responses stream fails with code `timeout`. The
      collecting path does so if Codex had not ended its turn, and has the outcome of
      that turn otherwise. */
  lemma TimeoutReported(lines: seq<Option<Event>>, stderr: seq<Byte>, limit: string, show: int -> string)
    ensures var events, all := Parsed(lines), Yielded(lines, TimedOut, stderr, limit, show);
            && StreamOutcome(all) == TimeoutOf(limit)
            && SyncOutcome(all) == if SawTerminal(events) then SyncOutcome(events) else TimeoutOf(limit)
  {
    hide ThroughTerminal, SawTerminal, AnswerText, ResponseEmitting.LastUsage, Parsed;
    var events := Parsed(lines);
    var last := ErrorEvent("TIMEOUT", "exceeded " + limit + "s", None, None);
    var all := events + [last];
    assert all[..|all| - 1] == events;
    if SawTerminal(events) {
      CutBefore(events, last);
    } else {
      NoTerminalCut(events, last);
    }
  }

  /** The time limit as Responses clients meet it. A stream is served with a task for
      every frame, so it fails for the limit if and only if the limit passes before any
      frame has gone out for an event; afterwards it has no effect at all. The collecting
      path asks for all events in one task: there it is reported unless the turn has
      ended. */
  lemma LimitInResponses(lines: seq<Option<Event>>, at: nat, end: ProcessEnd, stderr: seq<Byte>, limit: string,
                         show: int -> string)
    requires at <= |lines|
    ensures var before, c := Parsed(lines[..at]), TaskPerFrame(ShowsFrame);
            StreamOutcome(Delivered(lines, Some(at), end, stderr, limit, show, c)) ==
            if exists i :: 0 <= i < |before| && ShowsFrame(before[i])
            then StreamOutcome(Yielded(lines, end, stderr, limit, show)) else TimeoutOf(limit)
    ensures var before := Parsed(lines[..at]);
            SyncOutcome(Delivered(lines, Some(at), end, stderr, limit, show, OneTask)) ==
            if SawTerminal(before) then SyncOutcome(before) else TimeoutOf(limit)
  {
    hide StreamOutcome, SyncOutcome, Parsed, Yielded;
    TimeoutReported(lines[..at], stderr, limit, show);
  }

  /** The chat stream has left its loop before an event that follows `events` exactly
      when the turn has ended or the token cap has been reached. */
  lemma ChatStoppedIff(events: seq<Event>, cap: nat, count: string -> nat)
    ensures var n := Chat.Taken(events, 0, cap, count);
            Chat.Stopped(events, n, cap, count) <==>
            SawTerminal(events) || (cap != 0 && Chat.TokenSum(events, count) >= cap)
  {
    hide Chat.TokenSum, Chat.Taken;
    var n := Chat.Taken(events, 0, cap, count);
    TakenSpec(events, cap, count);
    if Chat.Stopped(events, n, cap, count) {
      assert Chat.StopsAt(events, n - 1, cap, count);
      if !events[n - 1].IsTerminal() {
        Chat.TokensGrow(events, n, count);
      }
    } else {
      forall k | 0 <= k < |events| ensures !Chat.StopsAt(events, k, cap, count) && !events[k].IsTerminal() {
        assert n == |events|;
      }
      if cap != 0 {
        Chat.BelowCapBefore(events, |events|, cap, count);
        assert events[..|events|] == events;
      }
    }
  }

  lemma TakenSpec(events: seq<Event>, cap: nat, count: string -> nat)
    ensures var n := Chat.Taken(events, 0, cap, count);
            && (forall k :: 0 <= k < n - 1 ==> !Chat.StopsAt(events, k, cap, count))
            && (n < |events| ==> Chat.Stopped(events, n, cap, count))
  {}

  /** The chat stream finishes for the timeout exactly when it has not stopped before:
      for every cap its finish reason is `error` if neither the turn had ended nor the
      cap been reached, and otherwise what it would have been without the timeout. */
  lemma TimeoutInChat(lines: seq<Option<Event>>, stderr: seq<Byte>, limit: string, show: int -> string,
                      cap: nat, count: string -> nat)
    ensures var events, all := Parsed(lines), Yielded(lines, TimedOut, stderr, limit, show);
            var n, m := Chat.Taken(events, 0, cap, count), Chat.Taken(all, 0, cap, count);
            Chat.FinishAfter(all, m, cap, count, Exhausted) ==
            if SawTerminal(events) || (cap != 0 && Chat.TokenSum(events, count) >= cap)
            then Chat.FinishAfter(events, n, cap, count, Exhausted) else Chat.FinishError
  {
    hide Chat.TokenSum, Chat.Taken;
    var events := Parsed(lines);
    var last := ErrorEvent("TIMEOUT", "exceeded " + limit + "s", None, None);
    var all := events + [last];
    var n := Chat.Taken(events, 0, cap, count);
    ChatStoppedIff(events, cap, count);
    TakenSpec(events, cap, count);
    forall k | 0 <= k < |events| ensures Chat.StopsAt(all, k, cap, count) <==> Chat.StopsAt(events, k, cap, count) {
      assert all[..k + 1] == events[..k + 1];
    }
    if Chat.Stopped(events, n, cap, count) {
      Chat.TakenIs(all, n, cap, count);
    } else {
      forall k | 0 <= k < |events| ensures !Chat.StopsAt(events, k, cap, count) {
        assert n == |events|;
      }
      Chat.TakenIs(all, |all|, cap, count);
    }
  }

  /** The events that put chunks out on a chat stream, or end it. */
  function ShowsChunk(progress: bool): Event -> bool {
    (e: Event) => e.IsAgentMessage() || e.IsTerminal() || (progress && Chat.Thought(e) != [])
  }

  /** Some of the events has put a chunk out, or ended the stream. */
  predicate ChunkOut(events: seq<Event>, progress: bool) {
    exists i :: 0 <= i < |events| && ShowsChunk(progress)(events[i])
  }

  lemma {:induction false} NoTokensYet(events: seq<Event>, progress: bool, count: string -> nat)
    requires !ChunkOut(events, progress)
    ensures Chat.TokenSum(events, count) == 0 && !SawTerminal(events)
  {
    if events != [] {
      var before, last := events[..|events| - 1], events[|events| - 1];
      assert !ShowsChunk(progress)(last);
      forall i | 0 <= i < |before| ensures !ShowsChunk(progress)(before[i]) {
        assert before[i] == events[i];
      }
      NoTokensYet(before, progress, count);
      assert events == before + [last];
      OneMoreWaiting(OneTask, before, last);
    }
  }

  lemma WaitingIffNoChunk(events: seq<Event>, progress: bool)
    ensures Waiting(TaskPerFrame(ShowsChunk(progress)), events) <==> !ChunkOut(events, progress)
  {}

  /** The time limit as chat clients meet it: a stream finishes with `error` for it if and
      only if it passes before the first chunk is out, and otherwise goes on as if there
      were no limit, whatever the token cap. */
  lemma {:induction false} LimitInChat(lines: seq<Option<Event>>, at: nat, end: ProcessEnd, stderr: seq<Byte>,
                                       limit: string, show: int -> string, progress: bool, cap: nat,
                                       count: string -> nat)
    requires at <= |lines|
    ensures var all := Delivered(lines, Some(at), end, stderr, limit, show, TaskPerFrame(ShowsChunk(progress)));
            if ChunkOut(Parsed(lines[..at]), progress) then all == Yielded(lines, end, stderr, limit, show)
            else Chat.FinishAfter(all, Chat.Taken(all, 0, cap, count), cap, count, Exhausted) == Chat.FinishError
  {
    hide Parsed, Yielded, ShowsChunk, ChunkOut, Waiting, SawTerminal, Chat.TokenSum, Chat.Taken, Chat.FinishAfter;
    var before := Parsed(lines[..at]);
    WaitingIffNoChunk(before, progress);
    if !ChunkOut(before, progress) {
      NoTokensYet(before, progress, count);
      TimeoutInChat(lines[..at], stderr, limit, show, cap, count);
      var all := Yielded(lines[..at], TimedOut, stderr, limit, show);
      assert Chat.FinishAfter(all, Chat.Taken(all, 0, cap, count), cap, count, Exhausted) == Chat.FinishError;
    }
  }

  lemma CutBefore(events: seq<Event>, last: Event)
    requires SawTerminal(events)
    ensures ThroughTerminal(events + [last]) == ThroughTerminal(events)
  {
    var t := ThroughTerminal(events);
    var all := events + [last];
    assert |t| < |events| || events[|t| - 1].IsTerminal() by {
      if |t| == |events| {
        var i :| 0 <= i < |events| && events[i].IsTerminal();
        assert i == |events| - 1;
      }
    }
    assert all[..|t|] == events[..|t|];
    ThroughTerminalIs(all, |t|);
  }

  /** A run that exits with an error code is never collected as a success unless
      Codex completed its turn first. */
  lemma BadExitNeverSilent(lines: seq<Option<Event>>, code: int, stderr: seq<Byte>, limit: string,
                           show: int -> string)
    requires code != 0
    ensures var events, all := Parsed(lines), Yielded(lines, Exited(Some(code)), stderr, limit, show);
            && SawTerminal(all)
            && (SyncOutcome(all).Success? ==>
                  var seen := ThroughTerminal(events);
                  seen != [] && seen[|seen| - 1].TurnCompleted?)
  {
    hide Parsed, ThroughTerminal, AnswerText, ResponseEmitting.LastUsage;
    var events := Parsed(lines);
    var extra := Synthesised(events, Exited(Some(code)), stderr, limit, show);
    if SawTerminal(events) {
      assert events + extra == events;
      TurnEnds(events);
    } else {
      NoTerminalCut(events, extra[0]);
      assert (events + extra)[|events|].IsTerminal();
    }
  }

  lemma TurnEnds(events: seq<Event>)
    requires SawTerminal(events)
    ensures var seen := ThroughTerminal(events); seen != [] && seen[|seen| - 1].IsTerminal()
  {
    var t := ThroughTerminal(events);
    if |t| == |events| {
      var i :| 0 <= i < |events| && events[i].IsTerminal();
      assert i == |events| - 1;
    }
  }

  lemma {:induction false} NobodyLeft(events: seq<Event>, ticks: seq<Tick>)
    requires |ticks| == |events|
    requires forall i :: 0 <= i < |ticks| ==> ticks[i].event == events[i] && !ticks[i].disconnected
    ensures Handled(ticks) == events
  {
    var h := Handled(ticks);
    assert |h| == |events|;
  }

  /** The runner under the Responses stream, for a client that stays. Only what Codex
      or the runner report as failed is reported as failed: an exception while the
      output is read ends in `response.completed` unless a failure came before it. */
  method StreamRun(lines: seq<Option<Event>>, passes: Option<nat>, end: ProcessEnd, stderr: seq<seq<Byte>>,
                   limit: string, show: int -> string, chunkSize: int, freshIds: nat -> ResponseEmitting.FreshId)
    returns (out: seq<ResponsesWire.Frame>, heeded: bool)
    requires !end.TimedOut?
    ensures heeded <==> Heeded(lines, passes, TaskPerFrame(ShowsFrame))
    ensures var events := Delivered(lines, passes, end, Concat(stderr), limit, show, TaskPerFrame(ShowsFrame));
            var cancelled := end.RunCancelled? && !heeded;
            && GoodStream(out, events, cancelled) && out != []
            && (out[|out| - 1].body.Completed? <==> !cancelled && !ResponseEmitting.AnyFailure(events))
    ensures end.ReadFails? && passes.None? ==>
              (out[|out| - 1].body.Completed? <==> !ResponseEmitting.AnyFailure(Parsed(lines)))
  {
    hide ResponsesWire.Read, ResponsesWire.Watch, GoodStream, Handled, Delivered, Heeded, ResponseEmitting.AnyFailure,
         StreamOutcome;
    var events, ending;
    events, ending, heeded := RunCodex(lines, passes, end, stderr, limit, show, TaskPerFrame(ShowsFrame));
    var ticks := seq(|events|, i requires 0 <= i < |events| => Tick(events[i], false, freshIds(i)));
    NobodyLeft(events, ticks);
    var emitter := new ResponseEmitting.ResponseEmitter();
    var reraised;
    out, reraised := StreamResponses(ticks, ending, chunkSize, freshIds(|events|), emitter);
    LastFrame(out, events, ending.TaskCancelled?);
    NothingSynthesised(lines, end, Concat(stderr), limit, show, TaskPerFrame(ShowsFrame));
  }

  lemma LastFrame(out: seq<ResponsesWire.Frame>, events: seq<Event>, cancelled: bool)
    requires GoodStream(out, events, cancelled)
    ensures out != []
    ensures out[|out| - 1].body.Completed? <==> !cancelled && !ResponseEmitting.AnyFailure(events)
  {
    if !cancelled {
      CompletedIff(out, events);
    }
  }

  lemma NothingSynthesised(lines: seq<Option<Event>>, end: ProcessEnd, stderr: seq<Byte>, limit: string,
                           show: int -> string, c: Consumer)
    ensures end.ReadFails? ==> Delivered(lines, None, end, stderr, limit, show, c) == Parsed(lines)
  {}

  /** A single line too long for the reader is such an input: nothing was read, and
      the client is told that the response is complete. */
  method OverlongLineReportedCompleted(freshIds: nat -> ResponseEmitting.FreshId)
    returns (out: seq<ResponsesWire.Frame>)
    ensures out != [] && out[|out| - 1].body.Completed?
    ensures Reported(out[|out| - 1].body) == Some(Success("", None))
  {
    var heeded;
    out, heeded := StreamRun([], None, ReadFails, [], "", n => "", 0, freshIds);
    assert Yielded([], ReadFails, Concat([]), "", n => "") == [];
  }

  /** A limit that passes once the thread has been announced is lost: however long after
      it the answer comes, it is served and the response completes. */
  method LimitLost(limit: string, freshIds: nat -> ResponseEmitting.FreshId)
    returns (out: seq<ResponsesWire.Frame>, heeded: bool)
    ensures !heeded && out != [] && Reported(out[|out| - 1].body) == Some(Success("late", None))
  {
    var message := ItemCompleted(AgentMessage("item_0", "late", false));
    var lines := [Some(ThreadStarted), Some(message), Some(TurnCompleted(None))];
    LateLines(lines, limit);
    out, heeded := StreamRun(lines, Some(1), Exited(Some(0)), [], limit, n => "", 0, freshIds);
  }

  lemma LateLines(lines: seq<Option<Event>>, limit: string)
    requires |lines| == 3 && lines[0] == Some(ThreadStarted) && lines[2] == Some(TurnCompleted(None))
    requires lines[1] == Some(ItemCompleted(AgentMessage("item_0", "late", false)))
    ensures !Heeded(lines, Some(1), TaskPerFrame(ShowsFrame))
    ensures StreamOutcome(Yielded(lines, Exited(Some(0)), Concat([]), limit, n => "")) == Success("late", None)
  {
    hide Parsed, Concat, Synthesised, StreamOutcome;
    NothingParsed(OneTask);
    assert lines[..0] == [] && lines[..3] == lines;
    OneMoreLine(lines, 0);
    OneMoreLine(lines, 1);
    OneMoreLine(lines, 2);
    assert Parsed(lines[..1]) == [ThreadStarted] && ShowsFrame(Parsed(lines[..1])[0]);
    CleanExit(Parsed(lines), Concat([]), limit, n => "");
    LateAnswer(lines[1].value);
    assert [ThreadStarted] + [lines[1].value] + [TurnCompleted(None)] == Parsed(lines);
  }

  lemma CleanExit(events: seq<Event>, stderr: seq<Byte>, limit: string, show: int -> string)
    ensures events + Synthesised(events, Exited(Some(0)), stderr, limit, show) == events
  {}

  lemma LateAnswer(message: Event)
    requires message == ItemCompleted(AgentMessage("item_0", "late", false))
    ensures StreamOutcome([ThreadStarted] + [message] + [TurnCompleted(None)]) == Success("late", None)
  {
    hide AnswerText, ResponseEmitting.LastFailure, ResponseEmitting.LastUsage, ResponseEmitting.IdsAfter, SawThread;
    NothingYet();
    NoFailureYet([]);
    assert [] + [ThreadStarted] == [ThreadStarted];
    OneMoreEvent([], ThreadStarted);
    OneMoreEvent([ThreadStarted], message);
    OneMoreEvent([ThreadStarted] + [message], TurnCompleted(None));
  }
}

/** The chat stream through all its layers. */
module ChatPipeline {
  import opened CodexEvents
  import opened KeepaliveWrapping
  import Chat = ChatStreaming

  function FramesOf(kept: seq<Emitted<Chat.Chunk>>): (r: seq<Chat.Chunk>)
    ensures |r| == |kept|
  {
    if kept == [] then [] else
    FramesOf(kept[..|kept| - 1]) +
    [var e := kept[|kept| - 1]; if e.Passed? then e.item else Chat.KeepAlive]
  }

  lemma {:induction false} FramesCarry(kept: seq<Emitted<Chat.Chunk>>)
    requires Chat.KeepAlive !in PassedOf(kept)
    ensures Chat.Data(FramesOf(kept)) == PassedOf(kept)
  {
    if kept != [] {
      var before, last := kept[..|kept| - 1], kept[|kept| - 1];
      if last.Passed? {
        assert PassedOf(kept) == PassedOf(before) + [last.item];
        assert last.item in PassedOf(kept);
      }
      FramesCarry(before);
      assert FramesOf(kept)[..|kept| - 1] == FramesOf(before);
    }
  }

  /** Any part of a well-formed stream, cut at its end, is well formed and carries a
      part of its content. */
  lemma {:induction false} CutStream(chunks: seq<Chat.Chunk>, n: nat)
    requires n <= |chunks| && Chat.Watch(chunks) != Chat.Malformed
    ensures Chat.Watch(chunks[..n]) != Chat.Malformed
    ensures Chat.ContentOf(chunks[..n]) <= Chat.ContentOf(chunks)
  {
    if n < |chunks| {
      var before := chunks[..|chunks| - 1];
      Chat.ReadMalformed(chunks[|chunks| - 1]);
      CutStream(before, n);
      assert before[..n] == chunks[..n];
    } else {
      assert chunks[..n] == chunks;
    }
  }

  /** `stream_chunks` under the keepalives under the route's wrapper. The wrapper's own
      error frame is not needed here: `stream_chunks` turns exceptions of its events into
      a finish reason, and a cancellation is not for the wrapper to catch. Once all is
      through, the client has a complete stream with the answer and the finish reason;
      until then, or if the task is cancelled, a well-formed beginning of it. */
  method ChatWire(cap: nat, includeUsage: bool, progress: bool, promptTokens: nat, count: string -> nat,
                  events: seq<Event>, ending: Ending, waits: seq<bool>, size: Chat.Chunk -> nat)
    returns (wire: seq<Chat.Chunk>, ended: bool)
    ensures var n := Chat.Taken(events, 0, cap, count);
            var cancelled := ending.TaskCancelled? && !Chat.Stopped(events, n, cap, count);
            && Chat.Watch(wire) != Chat.Malformed
            && Chat.ContentOf(wire) <= AnswerText(events[..n])
            && (ended ==> Chat.ContentOf(wire) == AnswerText(events[..n]))
            && (ended && !cancelled ==>
                  && Chat.Watch(wire) == Chat.Closed
                  && Chat.FinishesOf(wire) == [Chat.FinishAfter(events, n, cap, count, ending)]
                  && Chat.FinishFits(Chat.FinishesOf(wire)[0], events, cap, count, ending))
  {
    hide Chat.Watch, Chat.ContentOf, Chat.FinishesOf, Chat.Data, PassedOf, Trues, AnswerText, Chat.Taken, FramesOf,
         Chat.Stopped, Chat.FinishAfter, Chat.FinishFits, OneOutputPerWait, Chat.PayloadBytes;
    var chunks, cancelled := Chat.StreamChunks(cap, includeUsage, progress, promptTokens, count, events, ending);
    var up := new Upstream<Chat.Chunk>(chunks, if cancelled then RaisesOther else StopIteration);
    var kept;
    kept, ended := KeepaliveWrap(up, waits);
    CarriedStream(chunks, waits, kept);
    var completionTokens;
    wire, completionTokens := Chat.StreamWithUsageCapture(FramesOf(kept), false, size);
    assert wire == FramesOf(kept);
  }

  lemma CarriedStream(chunks: seq<Chat.Chunk>, waits: seq<bool>, kept: seq<Emitted<Chat.Chunk>>)
    requires OneOutputPerWait(chunks, waits, kept)
    requires Chat.Watch(chunks) != Chat.Malformed && Chat.KeepAlive !in chunks
    ensures var frames := FramesOf(kept);
            && Chat.Watch(frames) != Chat.Malformed && Chat.ContentOf(frames) <= Chat.ContentOf(chunks)
            && (Trues(waits[..|kept|]) >= |chunks| ==>
                  && Chat.Watch(frames) == Chat.Watch(chunks) && Chat.ContentOf(frames) == Chat.ContentOf(chunks)
                  && Chat.FinishesOf(frames) == Chat.FinishesOf(chunks))
  {
    hide Chat.Watch, Chat.ContentOf, Chat.FinishesOf, Chat.Data, PassedOf, Trues, FramesOf;
    KeepalivesTransparent(chunks, waits, kept);
    var arrived := Trues(waits[..|kept|]);
    var n := if arrived < |chunks| then arrived else |chunks|;
    assert chunks[..|chunks|] == chunks;
    CutStream(chunks, n);
    FramesCarry(kept);
    Chat.KeepAlivesChangeNothing(FramesOf(kept));
  }
}
