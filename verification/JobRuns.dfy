/** One worker run from end to end, with what it records
    (`src/workers/job_handlers.py`). The flags that its checks find are inputs
    here; how they come about is the subject of the job protocol. */
module JobRuns {
  import opened PyText
  import opened CodexEvents
  import opened JobsTable
  import CodexRunning

  const STDERR_TAIL_MAX := 4096

  function JoinLines(parts: seq<string>): string {
    if parts == [] then ""
    else if |parts| == 1 then parts[0]
    else JoinLines(parts[..|parts| - 1]) + "\n" + parts[|parts| - 1]
  }

  function NonEmpty(s: string): Option<string> {
    if s != "" then Some(s) else None
  }

  /** Messages of type `agent_message` count however their event names them: started,
      updated or completed. Those of the other spelling do not. */
  predicate Summarised(e: Event) {
    (e.ItemStarted? || e.ItemUpdated? || e.ItemCompleted?) && e.item.AgentMessage? && !e.item.legacy
  }

  function SummaryPart(e: Event): seq<string> {
    if Summarised(e) then [e.item.text] else []
  }

  function SummaryParts(events: seq<Event>): seq<string> {
    if events == [] then [] else SummaryParts(events[..|events| - 1]) + SummaryPart(events[|events| - 1])
  }

  function ErrorMessages(events: seq<Event>): seq<string> {
    if events == [] then []
    else ErrorMessages(events[..|events| - 1]) +
         (var e := events[|events| - 1]; if e.ErrorEvent? then [e.message] else [])
  }

  function Tokens(events: seq<Event>): (int, int) {
    if events == [] then (0, 0) else
    var (i, o) := Tokens(events[..|events| - 1]);
    var e := events[|events| - 1];
    if (e.TurnCompleted? || e.TurnFailed?) && e.usage.Some?
    then (i + e.usage.value.inputTokens, o + e.usage.value.outputTokens) else (i, o)
  }

  /** The exit code an error event reported last, and 0 if none did. */
  function ExitCode(events: seq<Event>): int {
    if events == [] then 0 else
    var e := events[|events| - 1];
    if e.ErrorEvent? && e.exitCode.Some? then e.exitCode.value else ExitCode(events[..|events| - 1])
  }

  function LastChars(s: string, n: nat): string {
    if |s| <= n then s else s[|s| - n..]
  }

  function ResultOf(events: seq<Event>, files: seq<string>): Result {
    Result(NonEmpty(JoinLines(SummaryParts(events))), files, Some(ExitCode(events)),
           NonEmpty(LastChars(JoinLines(ErrorMessages(events)), STDERR_TAIL_MAX)), Tokens(events).0, Tokens(events).1)
  }

  function ExitCodes(events: seq<Event>): seq<int> {
    if events == [] then [] else
    var e := events[|events| - 1];
    ExitCodes(events[..|events| - 1]) + (if e.ErrorEvent? && e.exitCode.Some? then [e.exitCode.value] else [])
  }

  lemma SummaryStep(events: seq<Event>, e: Event)
    ensures SummaryParts(events + [e]) == SummaryParts(events) + SummaryParts([e])
  {
    assert (events + [e])[..|events|] == events && [e][..0] == [];
  }

  lemma MessagesStep(events: seq<Event>, e: Event)
    ensures ErrorMessages(events + [e]) == ErrorMessages(events) + ErrorMessages([e])
  {
    assert (events + [e])[..|events|] == events && [e][..0] == [];
  }

  lemma TokensStep(events: seq<Event>, e: Event)
    ensures Tokens(events + [e]) == (Tokens(events).0 + Tokens([e]).0, Tokens(events).1 + Tokens([e]).1)
  {
    assert (events + [e])[..|events|] == events && [e][..0] == [];
  }

  lemma CodesStep(events: seq<Event>, e: Event)
    ensures ExitCodes(events + [e]) == ExitCodes(events) + ExitCodes([e])
  {
    assert (events + [e])[..|events|] == events && [e][..0] == [];
  }

  lemma RecordsStep(events: seq<Event>, e: Event)
    ensures SummaryParts(events + [e]) == SummaryParts(events) + SummaryParts([e])
    ensures ErrorMessages(events + [e]) == ErrorMessages(events) + ErrorMessages([e])
    ensures Tokens(events + [e]) == (Tokens(events).0 + Tokens([e]).0, Tokens(events).1 + Tokens([e]).1)
    ensures ExitCodes(events + [e]) == ExitCodes(events) + ExitCodes([e])
  {
    hide SummaryParts, ErrorMessages, Tokens, ExitCodes;
    SummaryStep(events, e);
    MessagesStep(events, e);
    TokensStep(events, e);
    CodesStep(events, e);
  }

  lemma NothingRecorded()
    ensures SummaryParts([]) == [] && ErrorMessages([]) == [] && Tokens([]) == (0, 0) && ExitCodes([]) == []
  {}

  /** What is recorded of a run is recorded event by event, in their order. */
  lemma {:induction false} RecordsAddUp(a: seq<Event>, b: seq<Event>)
    ensures SummaryParts(a + b) == SummaryParts(a) + SummaryParts(b)
    ensures ErrorMessages(a + b) == ErrorMessages(a) + ErrorMessages(b)
    ensures Tokens(a + b) == (Tokens(a).0 + Tokens(b).0, Tokens(a).1 + Tokens(b).1)
    ensures ExitCodes(a + b) == ExitCodes(a) + ExitCodes(b)
  {
    hide SummaryParts, ErrorMessages, Tokens, ExitCodes;
    if b == [] {
      assert a + b == a;
      NothingRecorded();
    } else {
      var n := |b| - 1;
      assert a + b == a + b[..n] + [b[n]] && b == b[..n] + [b[n]];
      RecordsAddUp(a, b[..n]);
      RecordsStep(a + b[..n], b[n]);
      RecordsStep(b[..n], b[n]);
    }
  }

  lemma {:induction false} ExitCodeIsLast(events: seq<Event>)
    ensures ExitCode(events) == if ExitCodes(events) == [] then 0 else ExitCodes(events)[|ExitCodes(events)| - 1]
  {
    if events != [] {
      ExitCodeIsLast(events[..|events| - 1]);
    }
  }

  /** And what each kind of event adds: the text of an agent message, whichever event
      carries it; the tokens of a turn that ends, in and out; the message of an error, and
      its exit code. */
  lemma RecordsOfOne(id: string, text: string, u: TokenUsage, failure: Option<string>, code: string, message: string,
                     tail: Option<seq<int>>, exit: int)
    ensures var m := AgentMessage(id, text, false);
            && SummaryParts([ItemStarted(m)]) == SummaryParts([ItemUpdated(m)]) == [text]
            && SummaryParts([ItemCompleted(m)]) == [text]
            && SummaryParts([ItemCompleted(AgentMessage(id, text, true))]) == []
    ensures Tokens([TurnCompleted(Some(u))]) == (u.inputTokens, u.outputTokens)
    ensures Tokens([TurnFailed(failure, Some(u))]) == (u.inputTokens, u.outputTokens)
    ensures Tokens([TurnCompleted(None)]) == Tokens([ErrorEvent(code, message, tail, Some(exit))]) == (0, 0)
    ensures ErrorMessages([ErrorEvent(code, message, tail, Some(exit))]) == [message]
    ensures ErrorMessages([TurnFailed(failure, Some(u))]) == []
    ensures ExitCodes([ErrorEvent(code, message, tail, Some(exit))]) == [exit]
    ensures ExitCodes([ErrorEvent(code, message, tail, None)]) == [] && ExitCodes([TurnFailed(failure, Some(u))]) == []
  {
    forall e: Event ensures [e][..0] == [] && [e][0] == e {}
  }

  /** Lines are joined with one line break between any two neighbours. */
  lemma {:induction false} LinesJoin(a: seq<string>, b: seq<string>)
    requires a != [] && b != []
    ensures JoinLines([a[0]]) == a[0] && JoinLines([]) == ""
    ensures JoinLines(a + b) == JoinLines(a) + "\n" + JoinLines(b)
  {
    var n := |b| - 1;
    assert (a + b)[..|a + b| - 1] == a + b[..n];
    if n == 0 {
      assert a + b[..n] == a;
    } else {
      LinesJoin(a, b[..n]);
      assert JoinLines(a) + "\n" + JoinLines(b) == JoinLines(a) + "\n" + JoinLines(b[..n]) + "\n" + b[n];
    }
  }

  /** The result of a run: what was recorded, with empty texts left out, and of the error
      messages the last 4096 characters. */
  lemma ResultSays(events: seq<Event>, files: seq<string>)
    ensures var r := ResultOf(events, files);
            var summary, errors := JoinLines(SummaryParts(events)), JoinLines(ErrorMessages(events));
            && r.filesChanged == files && (r.inputTokens, r.outputTokens) == Tokens(events)
            && r.exitCode == Some(if ExitCodes(events) == [] then 0 else ExitCodes(events)[|ExitCodes(events)| - 1])
            && (summary == "" <==> r.summary == None) && (summary != "" ==> r.summary == Some(summary))
            && (errors == "" <==> r.stderrTail == None)
            && (errors != "" ==>
                  && r.stderrTail.Some?
                  && exists cut: string ::
                       && errors == cut + r.stderrTail.value
                       && if cut == "" then |errors| <= 4096 else |r.stderrTail.value| == 4096)
  {
    ExitCodeIsLast(events);
    var errors := JoinLines(ErrorMessages(events));
    var tail := LastChars(errors, STDERR_TAIL_MAX);
    assert errors == errors[..|errors| - |tail|] + tail;
  }

  lemma OneMore(events: seq<Event>, i: nat)
    requires i < |events|
    ensures var now, e := events[..i + 1], events[i];
            && SummaryParts(now) == SummaryParts(events[..i]) + SummaryPart(e)
            && (SummaryPart(e) == [] ==> SummaryParts(now) == SummaryParts(events[..i]))
            && ErrorMessages(now) == (if e.ErrorEvent? then ErrorMessages(events[..i]) + [e.message]
                                      else ErrorMessages(events[..i]))
            && Tokens(now) == (if (e.TurnCompleted? || e.TurnFailed?) && e.usage.Some?
                               then (Tokens(events[..i]).0 + e.usage.value.inputTokens,
                                     Tokens(events[..i]).1 + e.usage.value.outputTokens)
                               else Tokens(events[..i]))
            && Forwarded(now) == Forwarded(events[..i]) + [CodexEvent(e)]
            && ExitCode(now) == (if e.ErrorEvent? && e.exitCode.Some? then e.exitCode.value else ExitCode(events[..i]))
  {
    assert events[..i + 1][..i] == events[..i];
  }

  /** What a run publishes. */
  datatype Published =
    | JobStarted
    | CodexEvent(event: Event)
    | DiffReady(filesChanged: seq<string>)
    | JobCompleted(summary: string)
    | JobFailed(errorCode: string)
    | JobCancelled(beforeStart: bool)

  /** An event, and whether the cancel flag is live when it arrives. */
  datatype JobTick = JobTick(event: Event, flagLive: bool)

  datatype StreamEnd = StreamDone | StreamRaises | StreamCancelled | StreamTimesOut

  /** How the clone and the look at its head go: done, a `GitCloneError`, any other
      exception, or the worker's task cancelled meanwhile. */
  datatype SetUp = Cloned | CloneFails | SetUpRaises | SetUpCancelled

  /** Everything a run meets, while the stores answer. */
  datatype Script = Script(flagEarly: bool, rootOk: bool, setUp: SetUp, ticks: seq<JobTick>,
                           end: StreamEnd, diff: Option<seq<string>>)

  /** The events handled: those before one that finds the flag live. */
  function Handled(ticks: seq<JobTick>): (r: seq<Event>)
    ensures |r| <= |ticks| && forall i :: 0 <= i < |r| ==> r[i] == ticks[i].event && !ticks[i].flagLive
    ensures |r| < |ticks| ==> ticks[|r|].flagLive
  {
    if ticks == [] || ticks[0].flagLive then [] else [ticks[0].event] + Handled(ticks[1..])
  }

  /** How the run ends, and the error code of a failure. */
  datatype Verdict =
    | CancelledEarly
    | NotFound
    | CancelledLate
    | FailedWith(errorCode: string)
    | SucceededWith(result: Result)

  /** The events handled enter into it by their number and into the result only. */
  function VerdictOf(s: Script, found: bool, directoryExists: bool): Verdict {
    if s.flagEarly then CancelledEarly
    else if !found then NotFound
    else if !s.rootOk || directoryExists then FailedWith("internal_error")
    else if s.setUp.CloneFails? then FailedWith("clone_failed")
    else if s.setUp.SetUpRaises? then FailedWith("internal_error")
    else if s.setUp.SetUpCancelled? then CancelledLate
    else if |Handled(s.ticks)| < |s.ticks| || s.end.StreamCancelled? then CancelledLate
    else if s.end.StreamTimesOut? then FailedWith("timeout")
    else if s.end.StreamRaises? || s.diff.None? then FailedWith("internal_error")
    else SucceededWith(ResultOf(Handled(s.ticks), s.diff.value))
  }

  /** The worker gets to the set-up in a directory of its own. */
  predicate Starts(s: Script, found: bool, directoryExists: bool) {
    found && !s.flagEarly && s.rootOk && !directoryExists
  }

  /** Which verdict comes when. */
  lemma VerdictSays(s: Script, found: bool, directoryExists: bool)
    ensures var v, starts := VerdictOf(s, found, directoryExists), Starts(s, found, directoryExists);
            var streams := starts && s.setUp.Cloned? && forall i :: 0 <= i < |s.ticks| ==> !s.ticks[i].flagLive;
            && (v == CancelledEarly <==> s.flagEarly)
            && (v == NotFound <==> !s.flagEarly && !found)
            && (v == CancelledLate <==>
                  starts && (s.setUp.SetUpCancelled? || (s.setUp.Cloned? && (FlagSeen(s) || s.end.StreamCancelled?))))
            && (v == FailedWith("clone_failed") <==> starts && s.setUp.CloneFails?)
            && (v == FailedWith("timeout") <==> streams && s.end.StreamTimesOut?)
            && (v == FailedWith("internal_error") <==>
                  || (found && !s.flagEarly && (!s.rootOk || directoryExists))
                  || (starts && s.setUp.SetUpRaises?)
                  || (streams && (s.end.StreamRaises? || (s.end.StreamDone? && s.diff.None?))))
            && (v.SucceededWith? <==> streams && s.end.StreamDone? && s.diff.Some?)
  {
    hide ResultOf, Handled;
    var events := seq(|s.ticks|, i requires 0 <= i < |s.ticks| => s.ticks[i].event);
    HandledAllIff(events, s.ticks);
  }

  /** The exit code in the row is never that of the process: the error that the
      runner adds for a bad exit does not carry it, so what Codex itself reported, or
      0, stays. Its message and no more is what such an exit adds to the result. */
  lemma ExitCodeNotTheProcess(lines: seq<Option<Event>>, end: CodexRunning.ProcessEnd, stderr: seq<CodexRunning.Byte>,
                              limit: string, show: int -> string)
    ensures var events, all := CodexRunning.Parsed(lines), CodexRunning.Yielded(lines, end, stderr, limit, show);
            var extra := CodexRunning.Synthesised(events, end, stderr, limit, show);
            && ExitCode(all) == ExitCode(events)
            && SummaryParts(all) == SummaryParts(events) && Tokens(all) == Tokens(events)
            && ErrorMessages(all) == ErrorMessages(events) + (if extra == [] then [] else [extra[0].message])
  {
    hide SummaryParts, ErrorMessages, Tokens, ExitCode;
    var events := CodexRunning.Parsed(lines);
    var extra := CodexRunning.Synthesised(events, end, stderr, limit, show);
    if extra == [] {
      assert events + extra == events;
    } else {
      BareErrorAdds(events, extra[0]);
    }
  }

  lemma BareErrorAdds(events: seq<Event>, e: Event)
    requires e.ErrorEvent? && e.exitCode.None?
    ensures var all := events + [e];
            && ExitCode(all) == ExitCode(events)
            && SummaryParts(all) == SummaryParts(events) && Tokens(all) == Tokens(events)
            && ErrorMessages(all) == ErrorMessages(events) + [e.message]
  {
    hide SummaryParts, ErrorMessages, Tokens, ExitCode;
    var all := events + [e];
    assert all[..|events|] == events && all[..|events| + 1] == all;
    OneMore(all, |events|);
  }

  /** How the event stream ends for the worker. Its own timer has the same limit as the
      runner's and is set before it, in the task that runs both, so a run that exceeds
      the limit is ended by the worker's. */
  function StreamEndOf(end: CodexRunning.ProcessEnd): StreamEnd {
    if end.TimedOut? then StreamTimesOut else
    match CodexRunning.EndingOf(end)
    case Exhausted => StreamDone
    case Raised => StreamRaises
    case TaskCancelled => StreamCancelled
  }

  /** The events that reach the worker: the runner's, without a report of a timeout that
      it never makes here. */
  function Reaching(lines: seq<Option<Event>>, end: CodexRunning.ProcessEnd, stderr: seq<CodexRunning.Byte>,
                    limit: string, show: int -> string): seq<Event>
  {
    if end.TimedOut? then CodexRunning.Parsed(lines) else CodexRunning.Yielded(lines, end, stderr, limit, show)
  }

  /** The script of a worker over what reaches it. */
  predicate RunsOn(s: Script, events: seq<Event>, end: CodexRunning.ProcessEnd) {
    && s.end == StreamEndOf(end) && |s.ticks| == |events|
    && forall i :: 0 <= i < |events| ==> s.ticks[i].event == events[i]
  }

  predicate FlagSeen(s: Script) {
    s.flagEarly || exists i :: 0 <= i < |s.ticks| && s.ticks[i].flagLive
  }

  lemma {:induction false} HandledAllIff(events: seq<Event>, ticks: seq<JobTick>)
    requires |ticks| == |events| && forall i :: 0 <= i < |events| ==> ticks[i].event == events[i]
    ensures |Handled(ticks)| == |ticks| <==> forall i :: 0 <= i < |ticks| ==> !ticks[i].flagLive
    ensures |Handled(ticks)| == |ticks| ==> Handled(ticks) == events
  {
    var h := Handled(ticks);
    if |h| == |ticks| {
      forall i | 0 <= i < |ticks| ensures !ticks[i].flagLive {
        assert h[i] == ticks[i].event && !ticks[i].flagLive;
      }
    }
  }

  /** The worker over the runner. Once the process has exited, with whatever code and
      whatever Codex reported, failed turns and errors included, the job succeeds if and
      only if the set-up worked, no cancel flag was found and the diff could be captured.
      If it got that far and no flag was found, a run out of time ends failed with
      `timeout`, one whose output cannot be read with `internal_error`, and one whose
      task is cancelled ends cancelled. */
  lemma JobSucceedsIff(s: Script, found: bool, directoryExists: bool, lines: seq<Option<Event>>,
                       end: CodexRunning.ProcessEnd, stderr: seq<CodexRunning.Byte>, limit: string, show: int -> string)
    requires RunsOn(s, Reaching(lines, end, stderr, limit, show), end)
    ensures var v := VerdictOf(s, found, directoryExists);
            var ready := found && s.rootOk && !directoryExists && s.setUp.Cloned?;
            && (v.SucceededWith? <==> end.Exited? && ready && !FlagSeen(s) && s.diff.Some?)
            && (v.SucceededWith? ==>
                  v.result == ResultOf(CodexRunning.Yielded(lines, end, stderr, limit, show), s.diff.value))
            && (ready && !FlagSeen(s) ==>
                  match end
                  case TimedOut => v == FailedWith("timeout")
                  case ReadFails => v == FailedWith("internal_error")
                  case RunCancelled => v == CancelledLate
                  case Exited(_) => s.diff.None? ==> v == FailedWith("internal_error"))
  {
    hide ResultOf, Handled, Reaching;
    var events := Reaching(lines, end, stderr, limit, show);
    HandledAllIff(events, s.ticks);
    assert end.Exited? ==> events == CodexRunning.Yielded(lines, end, stderr, limit, show) by {
      ReachingExit(lines, end, stderr, limit, show);
    }
  }

  lemma ReachingExit(lines: seq<Option<Event>>, end: CodexRunning.ProcessEnd, stderr: seq<CodexRunning.Byte>,
                     limit: string, show: int -> string)
    ensures !end.TimedOut? ==>
              Reaching(lines, end, stderr, limit, show) == CodexRunning.Yielded(lines, end, stderr, limit, show)
  {}

  /** A run whose only turn failed and whose process exited with 1: the job is recorded
      as succeeded, with exit code 0 and without an error. */
  lemma FailedTurnSucceeds(stderr: seq<CodexRunning.Byte>, show: int -> string)
    ensures var lines := [Some(TurnFailed(Some("model overloaded"), None))];
            var events := CodexRunning.Yielded(lines, CodexRunning.Exited(Some(1)), stderr, "600", show);
            var s := Script(false, true, Cloned, [JobTick(events[0], false)], StreamDone, Some([]));
            && |events| == 1 && RunsOn(s, events, CodexRunning.Exited(Some(1)))
            && VerdictOf(s, true, false) == SucceededWith(Result(None, [], Some(0), None, 0, 0))
  {
    hide ResultOf, CodexRunning.Parsed;
    var event := TurnFailed(Some("model overloaded"), None);
    OneLineYields(event, stderr, show);
    OneTick(event);
    ResultOfOne(event);
  }

  lemma OneLineYields(event: Event, stderr: seq<CodexRunning.Byte>, show: int -> string)
    requires event.IsTerminal()
    ensures CodexRunning.Yielded([Some(event)], CodexRunning.Exited(Some(1)), stderr, "600", show) == [event]
  {
    hide CodexRunning.Parsed;
    CodexRunning.ParsedAddUp([], []);
    assert [event][0].IsTerminal();
    assert [event] + [] == [event];
  }

  lemma OneTick(event: Event)
    ensures Handled([JobTick(event, false)]) == [event]
  {
    assert [JobTick(event, false)][1..] == [];
  }

  lemma ResultOfOne(event: Event)
    requires event.TurnFailed? && event.usage.None?
    ensures ResultOf([event], []) == Result(None, [], Some(0), None, 0, 0)
  {
    assert [event][..0] == [];
    NothingHandled();
  }

  /** The job's row after a run with this verdict. */
  function RowAfter(job: Job, v: Verdict, workspace: Option<string>): Job {
    var started := if workspace.Some? then job.(workspace := workspace) else job;
    match v
    case CancelledEarly => started.(status := Cancelled)
    case NotFound => job
    case CancelledLate => started.(status := Cancelled)
    case FailedWith(code) => started.(status := Failed, errorCode := Some(code))
    case SucceededWith(r) => started.(status := Succeeded, result := Some(r))
  }

  /** What the row then says: the status that goes with the verdict, a failure's code, a
      success's result, and the workspace if one was made. */
  lemma RowSays(job: Job, v: Verdict, workspace: Option<string>)
    requires !v.NotFound?
    ensures var row := RowAfter(job, v, workspace);
            && (row.status == Succeeded <==> v.SucceededWith?) && (v.SucceededWith? ==> row.result == Some(v.result))
            && (row.status == Failed <==> v.FailedWith?) && (v.FailedWith? ==> row.errorCode == Some(v.errorCode))
            && (row.status == Cancelled <==> v.CancelledEarly? || v.CancelledLate?)
            && row.workspace == (if workspace.Some? then workspace else job.workspace)
            && (!v.SucceededWith? ==> row.result == job.result) && (!v.FailedWith? ==> row.errorCode == job.errorCode)
  {}

  /** A terminal event announces what the row says. */
  predicate Announces(p: Published, row: Job) {
    match p
    case JobCompleted(summary) =>
      && row.status == Succeeded && row.result.Some?
      && summary == if row.result.value.summary.Some? then row.result.value.summary.value else ""
    case JobFailed(code) => row.status == Failed && row.errorCode == Some(code)
    case JobCancelled(_) => row.status == Cancelled
    case _ => false
  }

  lemma EndSays(v: Verdict, job: Job, workspace: Option<string>)
    requires !v.NotFound?
    ensures |TerminalOf(v)| == 1 && Announces(TerminalOf(v)[0], RowAfter(job, v, workspace))
    ensures TerminalOf(v)[0] == JobCancelled(true) <==> v.CancelledEarly?
  {}

  lemma StreamSays(s: Script)
    ensures var n, started := if s.setUp.Cloned? then |Handled(s.ticks)| else 0, [JobStarted] + StreamOf(s);
            && |started| == 1 + n && started[0] == JobStarted
            && forall i :: 0 <= i < n ==> started[1 + i] == CodexEvent(Handled(s.ticks)[i])
  {
    hide Handled;
  }

  lemma Parts(a: seq<Published>, b: seq<Published>, c: seq<Published>)
    requires |c| == 1
    ensures var all := a + b + c;
            && |all| == |a| + |b| + 1 && all[|all| - 1] == c[0]
            && (forall i :: 0 <= i < |a| ==> all[i] == a[i]) && (b != [] ==> all[|all| - 2] == b[|b| - 1])
  {}

  lemma ReadySays(v: Verdict)
    ensures Ready(v) ==
            if v.SucceededWith? && v.result.filesChanged != [] then [DiffReady(v.result.filesChanged)] else []
  {}

  /** What a run publishes, from its first event to its last. */
  lemma EventsSay(s: Script, v: Verdict, made: bool, job: Job, workspace: Option<string>)
    requires !v.NotFound?
    ensures var events, n := EventsOf(s, v, made), if s.setUp.Cloned? then |Handled(s.ticks)| else 0;
            var ready := v.SucceededWith? && v.result.filesChanged != [];
            && |events| == (if made then 1 + n else 0) + (if ready then 1 else 0) + 1
            && (made ==> events[0] == JobStarted)
            && (made ==> forall i :: 0 <= i < n ==> events[1 + i] == CodexEvent(Handled(s.ticks)[i]))
            && (ready ==> events[|events| - 2] == DiffReady(v.result.filesChanged))
            && Announces(events[|events| - 1], RowAfter(job, v, workspace))
            && (events[|events| - 1] == JobCancelled(true) <==> v.CancelledEarly?)
  {
    hide Handled, TerminalOf, Announces, RowAfter, Ready, StreamOf;
    EndSays(v, job, workspace);
    ReadySays(v);
    StreamSays(s);
    Parts(if made then [JobStarted] + StreamOf(s) else [], Ready(v), TerminalOf(v));
  }

  function Forwarded(events: seq<Event>): (r: seq<Published>)
    ensures |r| == |events| && forall i :: 0 <= i < |r| ==> r[i] == CodexEvent(events[i])
  {
    if events == [] then [] else Forwarded(events[..|events| - 1]) + [CodexEvent(events[|events| - 1])]
  }

  function Ready(v: Verdict): seq<Published> {
    if v.SucceededWith? && v.result.filesChanged != [] then [DiffReady(v.result.filesChanged)] else []
  }

  /** The terminal event, which a job that is not in the table does not get. */
  function TerminalOf(v: Verdict): seq<Published> {
    match v
    case CancelledEarly => [JobCancelled(true)]
    case NotFound => []
    case CancelledLate => [JobCancelled(false)]
    case FailedWith(code) => [JobFailed(code)]
    case SucceededWith(r) => [JobCompleted(if r.summary.Some? then r.summary.value else "")]
  }

  /** What is published for the script, once a workspace has been made: the codex
      events handled, if the run gets that far. */
  function StreamOf(s: Script): seq<Published> {
    Forwarded(if s.setUp.Cloned? then Handled(s.ticks) else [])
  }

  function EventsOf(s: Script, v: Verdict, made: bool): seq<Published> {
    (if made then [JobStarted] + StreamOf(s) else []) + Ready(v) + TerminalOf(v)
  }

  class World {
    const table: Table<string>
    var log: seq<Published>
    var directories: set<string>

    constructor (table: Table<string>)
      ensures this.table == table && log == [] && directories == {}
    {
      this.table := table;
      log := [];
      directories := {};
    }
  }

  /** The codex loop: events are published and accumulated until the flag is
      found live. */
  method StreamEvents(world: World, ticks: seq<JobTick>)
    returns (summary: seq<string>, messages: seq<string>, tokens: (int, int), exitCode: int, cancelled: bool)
    modifies world`log
    ensures var events := Handled(ticks);
            && summary == SummaryParts(events) && messages == ErrorMessages(events)
            && tokens == Tokens(events) && exitCode == ExitCode(events)
            && world.log == old(world.log) + Forwarded(events)
            && (cancelled <==> |events| < |ticks|)
  {
    hide SummaryParts, ErrorMessages, Tokens, ExitCode, Forwarded;
    ghost var events := Handled(ticks);
    summary, messages, tokens, exitCode, cancelled := [], [], (0, 0), 0, false;
    NothingHandled();
    assert events[..0] == [];
    for i := 0 to |ticks|
      invariant i <= |events|
      invariant summary == SummaryParts(events[..i]) && messages == ErrorMessages(events[..i])
      invariant tokens == Tokens(events[..i]) && exitCode == ExitCode(events[..i])
      invariant world.log == old(world.log) + Forwarded(events[..i]) && !cancelled
    {
      if ticks[i].flagLive {
        cancelled := true;
        assert events == events[..i];
        return;
      }
      assert i < |events|;
      OneMore(events, i);
      var evt := ticks[i].event;
      world.log := world.log + [CodexEvent(evt)];
      if (evt.ItemStarted? || evt.ItemUpdated? || evt.ItemCompleted?) && evt.item.AgentMessage? && !evt.item.legacy {
        summary := summary + [evt.item.text];
      }
      if (evt.TurnCompleted? || evt.TurnFailed?) && evt.usage.Some? {
        tokens := (tokens.0 + evt.usage.value.inputTokens, tokens.1 + evt.usage.value.outputTokens);
      }
      if evt.ErrorEvent? {
        messages := messages + [evt.message];
        if evt.exitCode.Some? {
          exitCode := evt.exitCode.value;
        }
      }
    }
    assert events == events[..|ticks|];
  }

  lemma NothingHandled()
    ensures Forwarded([]) == [] && SummaryParts([]) == [] && ErrorMessages([]) == []
    ensures Tokens([]) == (0, 0) && ExitCode([]) == 0
  {}

  /** The try block from the clone onwards, up to the verdict. */
  method RunCodexInClone(world: World, s: Script) returns (v: Verdict)
    requires !s.flagEarly && s.rootOk
    modifies world`log
    ensures v == VerdictOf(s, true, false)
    ensures world.log == old(world.log) + StreamOf(s) + Ready(v)
  {
    hide ResultOf, Forwarded, SummaryParts, ErrorMessages, Tokens, ExitCode, JoinLines, LastChars, NonEmpty;
    if !s.setUp.Cloned? {
      NoEvents();
      match s.setUp {
        case CloneFails => return FailedWith("clone_failed");
        case SetUpRaises => return FailedWith("internal_error");
        case _ => return CancelledLate;
      }
    }
    var summary, messages, tokens, exitCode, cancelled := StreamEvents(world, s.ticks);
    if cancelled || s.end.StreamCancelled? {
      return CancelledLate;
    } else if s.end.StreamTimesOut? {
      return FailedWith("timeout");
    } else if s.end.StreamRaises? || s.diff.None? {
      return FailedWith("internal_error");
    }
    if s.diff.value != [] {
      world.log := world.log + [DiffReady(s.diff.value)];
    }
    var tail := LastChars(JoinLines(messages), STDERR_TAIL_MAX);
    v := SucceededWith(Result(NonEmpty(JoinLines(summary)), s.diff.value, Some(exitCode), NonEmpty(tail),
                              tokens.0, tokens.1));
    ResultUnfolds(Handled(s.ticks), s.diff.value);
  }

  /** The body of the try block, up to the verdict. */
  method RunBody(world: World, id: string, s: Script) returns (v: Verdict, made: bool)
    requires id in world.table.rows && !s.flagEarly
    modifies world, world.table
    ensures v == VerdictOf(s, true, id in old(world.directories))
    ensures made == (s.rootOk && id !in old(world.directories))
    ensures world.directories == old(world.directories) + (if made then {id} else {})
    ensures var rows := old(world.table.rows);
            world.table.rows ==
            if made then rows[id := rows[id].(status := Running, workspace := Some(id))] else rows
    ensures world.log == old(world.log) +
            (if made then [JobStarted] + StreamOf(s) else []) + Ready(v)
  {
    hide ResultOf, StreamOf, Handled;
    made := false;
    if !s.rootOk || id in world.directories {
      return FailedWith("internal_error"), false;
    }
    world.directories := world.directories + {id};
    made := true;
    world.table.MarkRunning(id, id);
    world.log := world.log + [JobStarted];
    v := RunCodexInClone(world, s);
  }

  lemma NoEvents()
    ensures Forwarded([]) == []
  {}

  lemma ResultUnfolds(events: seq<Event>, files: seq<string>)
    ensures ResultOf(events, files) ==
            Result(NonEmpty(JoinLines(SummaryParts(events))), files, Some(ExitCode(events)),
                   NonEmpty(LastChars(JoinLines(ErrorMessages(events)), STDERR_TAIL_MAX)),
                   Tokens(events).0, Tokens(events).1)
  {}

  /** `run_codex_job`. Whatever happens, the run records one verdict in the job's row,
      publishes the matching terminal event last, and leaves no workspace of its own
      behind. */
  method RunCodexJob(world: World, id: string, s: Script) returns (v: Verdict)
    modifies world, world.table
    ensures v == VerdictOf(s, id in old(world.table.rows), id in old(world.directories))
    ensures var rows := old(world.table.rows);
            var made := !s.flagEarly && s.rootOk && id in rows && id !in old(world.directories);
            && world.table.rows ==
               (if id in rows then rows[id := RowAfter(rows[id], v, if made then Some(id) else None)] else rows)
            && world.log == old(world.log) + EventsOf(s, v, made)
    ensures world.directories == old(world.directories)
    ensures id in old(world.table.rows) ==>
              && id in world.table.rows && |world.log| > |old(world.log)|
              && Announces(world.log[|world.log| - 1], world.table.rows[id])
              && (v.SucceededWith? ==>
                    world.table.rows[id].status == Succeeded && world.table.rows[id].result == Some(v.result))
              && (v.FailedWith? ==>
                    world.table.rows[id].status == Failed && world.table.rows[id].errorCode == Some(v.errorCode))
              && (v.CancelledEarly? || v.CancelledLate? ==> world.table.rows[id].status == Cancelled)
  {
    hide VerdictOf, RowAfter, EventsOf, Announces;
    ghost var rows := world.table.rows;
    ghost var made := !s.flagEarly && s.rootOk && id in rows && id !in world.directories;
    EarlyVerdicts(s, id in world.directories);
    v := RunAndRecord(world, id, s);
    if id in rows {
      var workspace := if made then Some(id) else None;
      RowSays(rows[id], v, workspace);
      EventsSay(s, v, made, rows[id], workspace);
    }
  }

  /** The run itself. */
  method RunAndRecord(world: World, id: string, s: Script) returns (v: Verdict)
    modifies world, world.table
    ensures v == VerdictOf(s, id in old(world.table.rows), id in old(world.directories))
    ensures var rows := old(world.table.rows);
            var made := !s.flagEarly && s.rootOk && id in rows && id !in old(world.directories);
            && world.table.rows ==
               (if id in rows then rows[id := RowAfter(rows[id], v, if made then Some(id) else None)] else rows)
            && world.log == old(world.log) + EventsOf(s, v, made)
    ensures world.directories == old(world.directories)
  {
    hide StreamOf, VerdictOf, Handled, Ready, RowAfter, TerminalOf;
    EarlyVerdicts(s, id in world.directories);
    if s.flagEarly {
      CancelEarly(world, id);
      return CancelledEarly;
    }
    if id !in world.table.rows {
      return NotFound;
    }
    ghost var job := world.table.rows[id];
    var made: bool;
    v, made := RunBody(world, id, s);
    RowAfterRunning(job, v, id);
    Record(world, id, v);
    if made {
      world.directories := world.directories - {id};
    }
  }

  method CancelEarly(world: World, id: string)
    modifies world`log, world.table
    ensures var rows := old(world.table.rows);
            world.table.rows == if id in rows then rows[id := RowAfter(rows[id], CancelledEarly, None)] else rows
    ensures world.log == old(world.log) + [JobCancelled(true)]
  {
    var _ := world.table.MarkCancelled(id, None);
    world.log := world.log + [JobCancelled(true)];
  }

  lemma RowAfterRunning(job: Job, v: Verdict, workspace: string)
    requires !v.NotFound?
    ensures RowAfter(job.(status := Running, workspace := Some(workspace)), v, None)
            == RowAfter(job, v, Some(workspace))
  {}

  /** Records the verdict and publishes it. */
  method Record(world: World, id: string, v: Verdict)
    requires id in world.table.rows && !v.CancelledEarly? && !v.NotFound?
    modifies world`log, world.table
    ensures world.table.rows == old(world.table.rows)[id := RowAfter(old(world.table.rows)[id], v, None)]
    ensures world.log == old(world.log) + TerminalOf(v)
  {
    if v.FailedWith? {
      world.table.MarkFailed(id, v.errorCode);
      world.log := world.log + [JobFailed(v.errorCode)];
    } else if v.SucceededWith? {
      world.table.MarkSucceeded(id, v.result);
      world.log := world.log + [JobCompleted(if v.result.summary.Some? then v.result.summary.value else "")];
    } else {
      var _ := world.table.MarkCancelled(id, None);
      world.log := world.log + [JobCancelled(false)];
    }
  }

  lemma EarlyVerdicts(s: Script, directoryExists: bool)
    ensures VerdictOf(s, true, directoryExists).CancelledEarly? <==> s.flagEarly
    ensures s.flagEarly ==> VerdictOf(s, false, directoryExists) == CancelledEarly
    ensures !s.flagEarly ==> VerdictOf(s, false, directoryExists) == NotFound
    ensures !s.flagEarly ==> VerdictOf(s, true, directoryExists) != NotFound
    ensures EventsOf(s, CancelledEarly, false) == [JobCancelled(true)] && EventsOf(s, NotFound, false) == []
  {}
}

/** The two views of a worker agree: what a run does from end to end is what some run
    of the job protocol does step by step. */
module JobRunsInProtocol {
  import opened PyText
  import opened JobsTable
  import opened JobProtocol
  import opened Codex = CodexEvents
  import Runs = JobRuns

  function KindOf(p: Runs.Published): LogEvent {
    match p
    case JobStarted => JobStarted
    case CodexEvent(_) => CodexEvent
    case DiffReady(_) => DiffReady
    case JobCompleted(_) => JobCompleted
    case JobFailed(_) => JobFailed
    case JobCancelled(_) => JobCancelled
  }

  function KindsOf(events: seq<Runs.Published>): seq<LogEvent> {
    if events == [] then [] else KindsOf(events[..|events| - 1]) + [KindOf(events[|events| - 1])]
  }

  lemma {:induction false} KindsJoin(a: seq<Runs.Published>, b: seq<Runs.Published>)
    ensures KindsOf(a + b) == KindsOf(a) + KindsOf(b)
  {
    if b == [] {
      assert a + b == a;
    } else {
      assert (a + b)[..|a + b| - 1] == a + b[..|b| - 1];
      KindsJoin(a, b[..|b| - 1]);
    }
  }

  lemma KindOfOne(p: Runs.Published)
    ensures KindsOf([p]) == [KindOf(p)] && KindsOf([]) == []
  {
    assert [p][..0] == [];
  }

  function CodexEvents(n: nat): seq<LogEvent> {
    if n == 0 then [] else CodexEvents(n - 1) + [CodexEvent]
  }

  lemma {:induction false} KindsOfForwarded(events: seq<Event>)
    ensures KindsOf(Runs.Forwarded(events)) == CodexEvents(|events|)
  {
    if events == [] {
      KindOfOne(Runs.JobStarted);
    } else {
      var n := |events| - 1;
      KindsOfForwarded(events[..n]);
      KindsJoin(Runs.Forwarded(events[..n]), [Runs.CodexEvent(events[n])]);
      KindOfOne(Runs.CodexEvent(events[n]));
    }
  }

  // ------------------------------------------------------- runs, piece by piece

  /** A job that has been created and announced, at time 0. */
  const CREATED := State(0, Some(Queued), 0, [JobQueued], false, Answered, Undelivered, false, false, [])

  function Streaming(n: nat): State {
    State(0, Some(Running), 0, [JobQueued, JobStarted] + CodexEvents(n), true, Answered, AwaitEvent, true, true, [])
  }

  ghost predicate Reaches(t: Trace, s: State) {
    Good(t) && t.states != [] && End(t) == s
  }

  lemma Step(t: Trace, s: State, a: Action) returns (u: Trace)
    requires Reaches(t, s) && Enabled(s, a)
    ensures Reaches(u, Apply(s, a))
  {
    u := Extend(t, a);
  }

  lemma Create() returns (t: Trace)
    ensures Reaches(t, CREATED)
  {
    hide Reaches;
    t := Trace([START], []);
    StartReaches();
    var s := START;
    t := Step(t, s, CreatorStep(EnqueueOk));
    s := Apply(s, CreatorStep(EnqueueOk));
    t := Step(t, s, CreatorStep(EnqueueOk));
    s := Apply(s, CreatorStep(EnqueueOk));
    t := Step(t, s, CreatorStep(EnqueueOk));
    assert [] + [JobQueued] == [JobQueued];
  }

  lemma StartReaches()
    ensures Reaches(Trace([START], []), START)
  {
    StartIsGood(Trace([START], []));
  }

  /** Two steps of the worker. */
  lemma TwoSteps(t: Trace, s: State, mid: State, end: State) returns (u: Trace)
    requires Reaches(t, s) && Enabled(s, WorkerStep(Proceed)) && mid == Apply(s, WorkerStep(Proceed))
    requires Enabled(mid, WorkerStep(Proceed)) && end == Apply(mid, WorkerStep(Proceed))
    ensures Reaches(u, end)
  {
    hide Reaches;
    u := Step(t, s, WorkerStep(Proceed));
    u := Step(u, mid, WorkerStep(Proceed));
  }

  /** No flag when the worker looks. */
  lemma Load() returns (t: Trace)
    ensures Reaches(t, CREATED.(worker := MakeWorkspace, missed := true))
  {
    hide Reaches;
    t := Create();
    t := TwoSteps(t, CREATED, CREATED.(worker := CheckFlag), CREATED.(worker := LoadJob, missed := true));
    t := Step(t, CREATED.(worker := LoadJob, missed := true), WorkerStep(Proceed));
  }

  lemma StartRun() returns (t: Trace)
    ensures Reaches(t, Streaming(0).(worker := Clone))
  {
    hide Reaches;
    t := Load();
    var s := CREATED.(worker := MakeWorkspace, missed := true);
    var made := s.(directory := true, owns := true, worker := MarkRunning);
    t := TwoSteps(t, s, made, made.(row := Some(Running), worker := PublishStarted));
    t := Step(t, made.(row := Some(Running), worker := PublishStarted), WorkerStep(Proceed));
    assert [JobQueued] + [JobStarted] == [JobQueued, JobStarted] + CodexEvents(0);
  }

  lemma {:induction false} Forward(n: nat) returns (t: Trace)
    ensures Reaches(t, Streaming(n))
  {
    hide Reaches;
    if n == 0 {
      t := StartRun();
      t := Step(t, Streaming(0).(worker := Clone), WorkerStep(Proceed));
    } else {
      t := Forward(n - 1);
      var s := Streaming(n - 1);
      t := TwoSteps(t, s, s.(worker := CheckEventFlag), s.(worker := PublishEvent));
      t := Step(t, s.(worker := PublishEvent), WorkerStep(Proceed));
      assert [JobQueued, JobStarted] + CodexEvents(n - 1) + [CodexEvent] == [JobQueued, JobStarted] + CodexEvents(n);
    }
  }

  function Done(s: State, outcome: Status): State {
    s.(row := Some(outcome), log := s.log + [EventFor(outcome)], directory := s.directory && !s.owns,
       worker := Finished(outcome))
  }

  lemma Conclude(t: Trace, s: State, outcome: Status) returns (u: Trace)
    requires Reaches(t, s) && s.worker == MarkOutcome(outcome)
    ensures Reaches(u, Done(s, outcome))
  {
    hide Reaches;
    var marked := s.(row := Some(outcome), worker := PublishOutcome(outcome));
    u := TwoSteps(t, s, marked, marked.(log := s.log + [EventFor(outcome)], worker := Cleanup(outcome)));
    u := Step(u, marked.(log := s.log + [EventFor(outcome)], worker := Cleanup(outcome)), WorkerStep(Proceed));
  }

  /** A worker whose body ends with this choice in this state. */
  lemma Break(t: Trace, s: State, choice: Choice, outcome: Status) returns (u: Trace)
    requires Reaches(t, s) && Enabled(s, WorkerStep(choice))
    requires Apply(s, WorkerStep(choice)) == s.(worker := MarkOutcome(outcome))
    ensures Reaches(u, Done(s, outcome))
  {
    hide Reaches;
    u := Step(t, s, WorkerStep(choice));
    u := Conclude(u, s.(worker := MarkOutcome(outcome)), outcome);
  }

  /** A DELETE request for a job that is running sets the flag. */
  lemma CancelledByFlag(n: nat) returns (t: Trace)
    ensures Reaches(t, Done(Streaming(n).(flagUntil := CANCEL_TTL, deletes := [DeleteDone]), Cancelled))
  {
    hide Reaches;
    t := Forward(n);
    var s := Streaming(n);
    t := Step(t, s, DeleteStart);
    t := Step(t, s.(deletes := [SawRunning]), DeleteStep(0));
    var flagged := s.(flagUntil := CANCEL_TTL, deletes := [DeleteDone]);
    assert [SawRunning][0 := DeleteDone] == [DeleteDone];
    t := TwoSteps(t, flagged, flagged.(worker := CheckEventFlag), flagged.(worker := MarkOutcome(Cancelled)));
    t := Conclude(t, flagged.(worker := MarkOutcome(Cancelled)), Cancelled);
  }

  lemma CancelledBeforeStart() returns (t: Trace)
    ensures Reaches(t, State(0, Some(Cancelled), CANCEL_TTL, [JobQueued, JobCancelled], false, Answered,
                             Finished(Cancelled), false, false, [FlagSet]))
  {
    hide Reaches;
    t := Create();
    t := Step(t, CREATED, DeleteStart);
    t := Step(t, CREATED.(deletes := [SawQueued]), DeleteStep(0));
    var s := CREATED.(flagUntil := CANCEL_TTL, deletes := [FlagSet]);
    assert [SawQueued][0 := FlagSet] == [FlagSet];
    t := TwoSteps(t, s, s.(worker := CheckFlag), s.(worker := MarkEarlyCancel));
    var marked := s.(row := Some(Cancelled), worker := PublishEarlyCancel);
    t := TwoSteps(t, s.(worker := MarkEarlyCancel), marked,
                  marked.(log := [JobQueued] + [JobCancelled], worker := Finished(Cancelled)));
    assert [JobQueued] + [JobCancelled] == [JobQueued, JobCancelled];
  }

  lemma Succeed(n: nat, files: bool) returns (t: Trace)
    ensures var s := Streaming(n);
            Reaches(t, Done(s.(log := if files then s.log + [DiffReady] else s.log), Succeeded))
  {
    hide Reaches;
    t := Forward(n);
    var s := Streaming(n);
    t := Step(t, s, WorkerStep(Other));
    if files {
      t := TwoSteps(t, s.(worker := CaptureDiff), s.(worker := PublishDiff),
                    s.(worker := MarkOutcome(Succeeded), log := s.log + [DiffReady]));
      t := Conclude(t, s.(worker := MarkOutcome(Succeeded), log := s.log + [DiffReady]), Succeeded);
    } else {
      t := Step(t, s.(worker := CaptureDiff), WorkerStep(Other));
      t := Conclude(t, s.(worker := MarkOutcome(Succeeded)), Succeeded);
    }
  }

  function StatusFor(v: Runs.Verdict): Status
    requires !v.NotFound?
  {
    match v
    case FailedWith(_) => Failed
    case SucceededWith(_) => Succeeded
    case _ => Cancelled
  }

  /** The protocol's state after a run with this verdict and these events. */
  ghost predicate Ends(t: Trace, v: Runs.Verdict, events: seq<LogEvent>)
    requires !v.NotFound?
  {
    && Good(t) && t.states != [] && End(t).worker == Finished(StatusFor(v)) && End(t).row == Some(StatusFor(v))
    && End(t).log == [JobQueued] + events && !End(t).directory
  }

  lemma Finishes(t: Trace, s: State, v: Runs.Verdict, events: seq<LogEvent>)
    requires !v.NotFound? && Reaches(t, Done(s, StatusFor(v))) && (s.directory ==> s.owns)
    requires s.log + [EventFor(StatusFor(v))] == [JobQueued] + events
    ensures Ends(t, v, events)
  {}

  lemma FinishesEarly(t: Trace, events: seq<LogEvent>)
    requires Reaches(t, State(0, Some(Cancelled), CANCEL_TTL, [JobQueued, JobCancelled], false, Answered,
                              Finished(Cancelled), false, false, [FlagSet]))
    requires events == [JobCancelled]
    ensures Ends(t, Runs.CancelledEarly, events)
  {}

  /** The kinds of what a run publishes. */
  function KindsOfRun(s: Runs.Script, v: Runs.Verdict, made: bool): seq<LogEvent>
    requires !v.NotFound?
  {
    (if made then [JobStarted] + CodexEvents(if s.setUp.Cloned? then |Runs.Handled(s.ticks)| else 0) else []) +
    (if v.SucceededWith? && v.result.filesChanged != [] then [DiffReady] else []) +
    [EventFor(StatusFor(v))]
  }

  lemma KindsOfVerdict(v: Runs.Verdict)
    requires !v.NotFound?
    ensures KindsOf(Runs.Ready(v)) == if v.SucceededWith? && v.result.filesChanged != [] then [DiffReady] else []
    ensures KindsOf(Runs.TerminalOf(v)) == [EventFor(StatusFor(v))]
  {
    hide KindsOf;
    KindOfOne(if Runs.Ready(v) != [] then Runs.Ready(v)[0] else Runs.JobStarted);
    KindOfOne(Runs.TerminalOf(v)[0]);
  }

  lemma KindsOfStart(s: Runs.Script)
    ensures KindsOf([Runs.JobStarted] + Runs.StreamOf(s)) ==
            [JobStarted] + CodexEvents(if s.setUp.Cloned? then |Runs.Handled(s.ticks)| else 0)
  {
    hide KindsOf, Runs.Forwarded, Runs.Handled, CodexEvents;
    KindsOfForwarded(if s.setUp.Cloned? then Runs.Handled(s.ticks) else []);
    KindsJoin([Runs.JobStarted], Runs.StreamOf(s));
    KindOfOne(Runs.JobStarted);
  }

  lemma KindsAreThose(s: Runs.Script, v: Runs.Verdict, made: bool)
    requires !v.NotFound?
    ensures KindsOf(Runs.EventsOf(s, v, made)) == KindsOfRun(s, v, made)
  {
    hide KindsOf, Runs.StreamOf, Runs.Handled, Runs.Ready, Runs.TerminalOf, CodexEvents;
    var start := if made then [Runs.JobStarted] + Runs.StreamOf(s) else [];
    KindsOfStart(s);
    KindOfOne(Runs.JobStarted);
    KindsOfVerdict(v);
    KindsJoin(start + Runs.Ready(v), Runs.TerminalOf(v));
    KindsJoin(start, Runs.Ready(v));
  }

  /** For every script there is a run of the protocol in which the worker finishes as
      `RunCodexJob` does: the status that it leaves in the row, events of the same kinds in
      the log, and no workspace. So whatever holds of all runs of the protocol holds of
      it. */
  lemma FollowsProtocol(s: Runs.Script, directoryExists: bool, job: Job, workspace: Option<string>)
    returns (t: Trace)
    ensures var v := Runs.VerdictOf(s, true, directoryExists);
            var made := !s.flagEarly && s.rootOk && !directoryExists;
            && !v.NotFound? && Ends(t, v, KindsOf(Runs.EventsOf(s, v, made)))
            && End(t).row == Some(Runs.RowAfter(job, v, workspace).status)
  {
    hide Reaches, KindsOf, Runs.EventsOf, KindsOfRun, Runs.RowAfter;
    Runs.RowSays(job, Runs.VerdictOf(s, true, directoryExists), workspace);
    KindsAreThose(s, Runs.VerdictOf(s, true, directoryExists), !s.flagEarly && s.rootOk && !directoryExists);
    if s.flagEarly || !s.rootOk || directoryExists {
      t := NoWorkspaceFollows(s, directoryExists);
    } else if !s.setUp.Cloned? {
      t := NoCloneFollows(s);
    } else {
      t := StreamFollows(s);
    }
  }

  lemma NoWorkspaceFollows(s: Runs.Script, directoryExists: bool) returns (t: Trace)
    requires s.flagEarly || !s.rootOk || directoryExists
    ensures var v := Runs.VerdictOf(s, true, directoryExists);
            !v.NotFound? && Ends(t, v, KindsOfRun(s, v, false))
  {
    hide Reaches, Ends, CodexEvents;
    var v := Runs.VerdictOf(s, true, directoryExists);
    assert KindsOfRun(s, v, false) == [EventFor(StatusFor(v))];
    if s.flagEarly {
      t := CancelledBeforeStart();
      FinishesEarly(t, KindsOfRun(s, v, false));
    } else {
      t := Load();
      var at := CREATED.(worker := MakeWorkspace, missed := true);
      t := Break(t, at, Raise, Failed);
      Finishes(t, at, v, KindsOfRun(s, v, false));
    }
  }

  lemma NoCloneFollows(s: Runs.Script) returns (t: Trace)
    requires !s.flagEarly && s.rootOk && !s.setUp.Cloned?
    ensures var v := Runs.VerdictOf(s, true, false);
            !v.NotFound? && Ends(t, v, KindsOfRun(s, v, true))
  {
    hide Reaches, Ends;
    var v := Runs.VerdictOf(s, true, false);
    t := StartRun();
    var at := Streaming(0).(worker := Clone);
    match s.setUp {
      case CloneFails => t := Break(t, at, Other, Failed);
      case SetUpRaises => t := Break(t, at, Raise, Failed);
      case _ => t := Break(t, at, TaskCancel, Cancelled);
    }
    Finishes(t, at, v, KindsOfRun(s, v, true));
  }

  lemma StreamFollows(s: Runs.Script) returns (t: Trace)
    requires !s.flagEarly && s.rootOk && s.setUp.Cloned?
    ensures var v := Runs.VerdictOf(s, true, false);
            !v.NotFound? && Ends(t, v, KindsOfRun(s, v, true))
  {
    hide Reaches, Ends, Runs.ResultOf, Runs.Handled, CodexEvents;
    var v := Runs.VerdictOf(s, true, false);
    var n := |Runs.Handled(s.ticks)|;
    var at := Streaming(n);
    if n < |s.ticks| {
      t := CancelledByFlag(n);
      at := at.(flagUntil := CANCEL_TTL, deletes := [DeleteDone]);
    } else if s.end.StreamCancelled? {
      t := Forward(n);
      t := Break(t, at, TaskCancel, Cancelled);
    } else if s.end.StreamTimesOut? || s.end.StreamRaises? {
      t := Forward(n);
      t := Break(t, at, if s.end.StreamRaises? then Raise else TimeOut, Failed);
    } else if s.diff.None? {
      t := Forward(n);
      t := Step(t, at, WorkerStep(Other));
      at := at.(worker := CaptureDiff);
      t := Break(t, at, Raise, Failed);
    } else {
      t := Succeed(n, s.diff.value != []);
      Runs.ResultUnfolds(Runs.Handled(s.ticks), s.diff.value);
      at := if s.diff.value != [] then at.(log := at.log + [DiffReady]) else at;
    }
    Finishes(t, at, v, KindsOfRun(s, v, true));
  }
}

/** The routes that create and cancel jobs, one request at a time
    (`src/gateway/routes/jobs.py`). A flag's lapse after `CANCEL_TTL` is part of the
    job protocol. */
module JobRoutes {
  import opened PyText
  import opened JobsTable
  import opened JobProtocol

  type Rows = map<string, Job>

  datatype Created = Accepted | QueueUnavailable

  class Gateway {
    const table: Table<string>
    var flags: set<string>
    var queue: seq<string>
    var announced: seq<string>

    constructor (table: Table<string>)
      ensures this.table == table && flags == {} && queue == [] && announced == []
    {
      this.table := table;
      flags := {};
      queue := [];
      announced := [];
    }

    /** `create_job`, from the insertion on. A job whose enqueue errs does not stay
        queued, and `job.queued` is announced only for one whose enqueue did not; but
        the error may come after the job is in the queue. */
    method CreateJob(id: string, enqueue: Enqueue) returns (r: Created)
      requires id !in table.rows
      modifies this, table
      ensures flags == old(flags)
      ensures queue == if enqueue == EnqueueError(false) then old(queue) else old(queue) + [id]
      ensures enqueue.EnqueueOk? ==>
                && r == Accepted && table.rows == old(table.rows)[id := Job(Queued, None, None, None)]
                && announced == old(announced) + [id]
      ensures enqueue.EnqueueError? ==>
                && r == QueueUnavailable && announced == old(announced)
                && table.rows == old(table.rows)[id := Job(Failed, Some("enqueue_failed"), None, None)]
    {
      table.CreateJob(id);
      if enqueue != EnqueueError(false) {
        queue := queue + [id];
      }
      if enqueue.EnqueueError? {
        table.MarkFailed(id, "enqueue_failed");
        return QueueUnavailable;
      }
      announced := announced + [id];
      return Accepted;
    }

    /** `cancel_job`: None stands for 404. */
    method CancelJob(id: string) returns (r: Option<Job>)
      modifies this`flags, table
      ensures (table.rows, flags) == AfterCancel(old(table.rows), old(flags), id)
      ensures r == if id in table.rows then Some(table.rows[id]) else None
      ensures id in old(table.rows) && old(table.rows)[id].status.Queued? ==>
                && flags == old(flags) + {id}
                && table.rows == old(table.rows)[id := old(table.rows)[id].(status := Cancelled)]
      ensures id in old(table.rows) && old(table.rows)[id].status.Running? ==>
                flags == old(flags) + {id} && table.rows == old(table.rows)
      ensures id !in old(table.rows) || IsFinal(old(table.rows)[id].status) ==>
                flags == old(flags) && table.rows == old(table.rows)
    {
      if id !in table.rows {
        return None;
      }
      var status := table.rows[id].status;
      if status.Queued? {
        flags := flags + {id};
        var _ := table.MarkCancelled(id, Some(Queued));
      } else if status.Running? {
        flags := flags + {id};
      }
      return Some(table.rows[id]);
    }
  }

  /** Table and flags after a DELETE request. */
  function AfterCancel(rows: Rows, flags: set<string>, id: string): (Rows, set<string>) {
    if id !in rows || IsFinal(rows[id].status) then (rows, flags)
    else (if rows[id].status.Queued? then rows[id := rows[id].(status := Cancelled)] else rows, flags + {id})
  }

  /** A DELETE request of the protocol with nothing in between: what it has seen, and
      then its steps. */
  function DeleteAlone(s: State): State
    requires s.row.Some?
  {
    var i, seen := |s.deletes|, Apply(s, DeleteStart);
    match s.row
    case Some(Queued) => Apply(Apply(seen, DeleteStep(i)), DeleteStep(i))
    case Some(Running) => Apply(seen, DeleteStep(i))
    case _ => seen
  }

  /** `cancel_job` is that request. Where row and flag agreed with the protocol before,
      they do afterwards, and the flag is live if the job was not over: so what
      `CancelWins` says of a live flag is about this route. */
  lemma CancelFollowsProtocol(rows: Rows, flags: set<string>, id: string, s: State)
    requires id in rows && s.row == Some(rows[id].status) && (FlagLive(s) <==> id in flags)
    ensures var after, t := AfterCancel(rows, flags, id), DeleteAlone(s);
            && id in after.0 && t.row == Some(after.0[id].status) && (FlagLive(t) <==> id in after.1)
            && (rows[id].status.Queued? || rows[id].status.Running? ==> FlagLive(t) && t.flagUntil == s.now + 300)
            && t.worker == s.worker && t.log == s.log && t.creator == s.creator
            && |t.deletes| == |s.deletes| + 1 && t.deletes[|s.deletes|].DeleteDone?
    ensures Enabled(s, DeleteStart)
    ensures var i, seen := |s.deletes|, Apply(s, DeleteStart);
            && (seen.deletes[i] != DeleteDone ==> Enabled(seen, DeleteStep(i)))
            && (seen.deletes[i] == SawQueued ==> Enabled(Apply(seen, DeleteStep(i)), DeleteStep(i)))
  {}

  /** And `create_job` leaves what the creating request of the protocol does, from its
      first step to its last. */
  lemma CreateFollowsProtocol(enqueue: Enqueue)
    ensures var first := Apply(START, CreatorStep(enqueue));
            var second := Apply(first, CreatorStep(enqueue));
            var last := Apply(second, CreatorStep(enqueue));
            && !Enabled(last, CreatorStep(enqueue))
            && last.row == Some(if enqueue.EnqueueOk? then Queued else Failed)
            && last.log == (if enqueue.EnqueueOk? then [JobQueued] else [])
            && (Enabled(last, WorkerStep(Proceed)) <==> enqueue != EnqueueError(false))
  {}

  /** Cancelling twice is cancelling once, and requests for different jobs commute. */
  lemma CancelIdempotent(rows: Rows, flags: set<string>, a: string, b: string)
    ensures var once := AfterCancel(rows, flags, a); AfterCancel(once.0, once.1, a) == once
    ensures var ab, ba := AfterCancel(rows, flags, a), AfterCancel(rows, flags, b);
            AfterCancel(ab.0, ab.1, b) == AfterCancel(ba.0, ba.1, a)
  {
    if a != b && a in rows && b in rows {
      var x, y := rows[a].(status := Cancelled), rows[b].(status := Cancelled);
      assert rows[a := x][b := y] == rows[b := y][a := x];
      assert flags + {a} + {b} == flags + {b} + {a};
    }
  }
}
