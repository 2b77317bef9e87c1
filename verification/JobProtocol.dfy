/** The jobs table (`src/db/crud/jobs.py`). A statement and its commit are one
    atomic change, since the row stays locked in between. */
module JobsTable {
  import opened PyText

  datatype Status = Queued | Running | Succeeded | Failed | Cancelled

  predicate IsFinal(s: Status) {
    s.Succeeded? || s.Failed? || s.Cancelled?
  }

  datatype Job = Job(status: Status, errorCode: Option<string>, workspace: Option<string>, result: Option<Result>)

  /** What a successful run leaves in its row. */
  datatype Result = Result(summary: Option<string>, filesChanged: seq<string>, exitCode: Option<int>,
                           stderrTail: Option<string>, inputTokens: int, outputTokens: int)

  /** The status after `mark_cancelled`, which a guard may hold back. */
  function CancelledBy(status: Status, guard: Option<Status>): Status {
    if guard.Some? && status != guard.value then status else Cancelled
  }

  class Table<Id(==)> {
    var rows: map<Id, Job>

    method CreateJob(id: Id)
      requires id !in rows
      modifies this
      ensures rows == old(rows)[id := Job(Queued, None, None, None)]
    {
      rows := rows[id := Job(Queued, None, None, None)];
    }

    method MarkRunning(id: Id, workspace: string)
      modifies this
      ensures rows == if id in old(rows)
                      then old(rows)[id := old(rows)[id].(status := Running, workspace := Some(workspace))]
                      else old(rows)
    {
      if id in rows {
        rows := rows[id := rows[id].(status := Running, workspace := Some(workspace))];
      }
    }

    /** `mark_succeeded` and `update_token_counts`, committed together. */
    method MarkSucceeded(id: Id, result: Result)
      modifies this
      ensures rows == if id in old(rows)
                      then old(rows)[id := old(rows)[id].(status := Succeeded, result := Some(result))]
                      else old(rows)
    {
      if id in rows {
        rows := rows[id := rows[id].(status := Succeeded, result := Some(result))];
      }
    }

    method MarkFailed(id: Id, errorCode: string)
      modifies this
      ensures rows == if id in old(rows)
                      then old(rows)[id := old(rows)[id].(status := Failed, errorCode := Some(errorCode))]
                      else old(rows)
    {
      if id in rows {
        rows := rows[id := rows[id].(status := Failed, errorCode := Some(errorCode))];
      }
    }

    /** Returns the number of rows updated. */
    method MarkCancelled(id: Id, guard: Option<Status>) returns (count: nat)
      modifies this
      ensures rows == if id in old(rows)
                      then old(rows)[id := old(rows)[id].(status := CancelledBy(old(rows)[id].status, guard))]
                      else old(rows)
      ensures count == if id in old(rows) && (guard.None? || old(rows)[id].status == guard.value) then 1 else 0
    {
      if id !in rows || (guard.Some? && rows[id].status != guard.value) {
        return 0;
      }
      rows := rows[id := rows[id].(status := Cancelled)];
      return 1;
    }

    /** The jobs that have not come to an end. */
    method ListActiveJobIds() returns (ids: set<Id>)
      ensures forall id :: id in ids <==> id in rows && !IsFinal(rows[id].status)
    {
      ids := set id | id in rows && (rows[id].status.Queued? || rows[id].status.Running?);
    }
  }
}

/** One job from creation to its last event: the creating request, the worker,
    any number of DELETE requests and the clock, interleaved step by step
    (`src/workers/job_handlers.py`, `src/gateway/routes/jobs.py`). The job is
    delivered to one worker once. Anything may fail or be cancelled in the body of
    the worker's try block up to the point where it starts to record the outcome;
    from there on the stores answer. Times are seconds. */
module JobProtocol {
  import opened PyText
  import opened JobsTable

  const CANCEL_TTL := 300

  datatype LogEvent = JobQueued | JobStarted | CodexEvent | DiffReady | JobCompleted | JobFailed | JobCancelled {
    predicate IsTerminal() {
      JobCompleted? || JobFailed? || JobCancelled?
    }
  }

  function StatusOf(e: LogEvent): Status
    requires e.IsTerminal()
  {
    match e
    case JobCompleted => Succeeded
    case JobFailed => Failed
    case JobCancelled => Cancelled
  }

  /** How enqueueing goes. An error leaves open whether the job is in the queue. */
  datatype Enqueue = EnqueueOk | EnqueueError(delivered: bool)

  datatype Creator =
    | NotCreated
    | Inserted
    | EnqueueFailed(delivered: bool)
    | Rejected(delivered: bool)
    | Enqueued
    | Answered
  {
    predicate Delivers() {
      Enqueued? || Answered? || DeliversUnawares()
    }

    /** The enqueue has failed for the creating request, and has been done all the same. */
    predicate DeliversUnawares() {
      (EnqueueFailed? || Rejected?) && delivered
    }
  }

  /** Where the worker stands: at the command it is about to issue. */
  datatype Worker =
    | Undelivered
    | CheckFlag
    | MarkEarlyCancel
    | PublishEarlyCancel
    | LoadJob
    | MakeWorkspace
    | MarkRunning
    | PublishStarted
    | Clone
    | AwaitEvent
    | CheckEventFlag
    | PublishEvent
    | CaptureDiff
    | PublishDiff
    | MarkOutcome(outcome: Status)
    | PublishOutcome(outcome: Status)
    | Cleanup(outcome: Status)
    | Finished(outcome: Status)

  datatype Delete = SawQueued | SawRunning | FlagSet | DeleteDone

  /** `owns` says that the worker made a workspace, `missed` that its early check
      found no cancel flag. */
  datatype State = State(
    now: nat, row: Option<Status>, flagUntil: nat, log: seq<LogEvent>, directory: bool,
    creator: Creator, worker: Worker, owns: bool, missed: bool, deletes: seq<Delete>)

  const START := State(0, None, 0, [], false, NotCreated, Undelivered, false, false, [])

  predicate FlagLive(s: State) {
    s.now < s.flagUntil
  }

  /** How the worker's next command turns out, where the code allows several. */
  datatype Choice = Proceed | Other | Raise | TaskCancel | TimeOut

  datatype Action =
    | CreatorStep(enqueue: Enqueue)
    | WorkerStep(choice: Choice)
    | DeleteStart
    | DeleteStep(index: nat)
    | Tick(seconds: nat)

  /** Inside the try block and before an outcome is being recorded. */
  predicate InBody(w: Worker) {
    w.MakeWorkspace? || w.MarkRunning? || w.PublishStarted? || w.Clone? || w.AwaitEvent? || w.CheckEventFlag?
    || w.PublishEvent? || w.CaptureDiff? || w.PublishDiff?
  }

  predicate InStream(w: Worker) {
    w.AwaitEvent? || w.CheckEventFlag? || w.PublishEvent?
  }

  predicate Enabled(s: State, a: Action) {
    match a
    case CreatorStep(_) => !s.creator.Answered? && !s.creator.Rejected?
    case WorkerStep(Proceed) =>
      !s.worker.Finished? && (s.worker.Undelivered? ==> s.creator.Delivers())
    case WorkerStep(Other) => s.worker.Clone? || s.worker.AwaitEvent? || s.worker.CaptureDiff?
    case WorkerStep(TimeOut) => InStream(s.worker)
    case WorkerStep(_) => InBody(s.worker)
    case DeleteStart => s.row.Some?
    case DeleteStep(i) => i < |s.deletes| && !s.deletes[i].DeleteDone?
    case Tick(_) => true
  }

  function EventFor(outcome: Status): LogEvent {
    match outcome
    case Succeeded => JobCompleted
    case Cancelled => JobCancelled
    case _ => JobFailed
  }

  /** What the worker's command does when it succeeds. `Other` is the branch not
      taken by Proceed: a failed clone, the end of the event stream, no changed
      files. */
  function Work(s: State, other: bool): State
    requires !s.worker.Finished?
  {
    match s.worker
    case Undelivered => s.(worker := CheckFlag)
    case CheckFlag => if FlagLive(s) then s.(worker := MarkEarlyCancel) else s.(worker := LoadJob, missed := true)
    case MarkEarlyCancel => s.(row := Some(Cancelled), worker := PublishEarlyCancel)
    case PublishEarlyCancel => s.(log := s.log + [JobCancelled], worker := Finished(Cancelled))
    case LoadJob => s.(worker := MakeWorkspace)
    case MakeWorkspace => s.(directory := true, owns := true, worker := MarkRunning)
    case MarkRunning => s.(row := Some(Running), worker := PublishStarted)
    case PublishStarted => s.(log := s.log + [JobStarted], worker := Clone)
    case Clone => s.(worker := if other then MarkOutcome(Failed) else AwaitEvent)
    case AwaitEvent => s.(worker := if other then CaptureDiff else CheckEventFlag)
    case CheckEventFlag => s.(worker := if FlagLive(s) then MarkOutcome(Cancelled) else PublishEvent)
    case PublishEvent => s.(log := s.log + [CodexEvent], worker := AwaitEvent)
    case CaptureDiff => s.(worker := if other then MarkOutcome(Succeeded) else PublishDiff)
    case PublishDiff => s.(log := s.log + [DiffReady], worker := MarkOutcome(Succeeded))
    case MarkOutcome(outcome) => s.(row := Some(outcome), worker := PublishOutcome(outcome))
    case PublishOutcome(outcome) => s.(log := s.log + [EventFor(outcome)], worker := Cleanup(outcome))
    case Cleanup(outcome) => s.(directory := s.directory && !s.owns, worker := Finished(outcome))
  }

  function Apply(s: State, a: Action): State
    requires Enabled(s, a)
  {
    match a
    case CreatorStep(enqueue) =>
      (match s.creator
       case NotCreated => s.(row := Some(Queued), creator := Inserted)
       case Inserted =>
         s.(creator := if enqueue.EnqueueOk? then Enqueued else EnqueueFailed(enqueue.delivered))
       case EnqueueFailed(delivered) => s.(row := Some(Failed), creator := Rejected(delivered))
       case Enqueued => s.(log := s.log + [JobQueued], creator := Answered)
       case _ => s)
    case WorkerStep(c) =>
      (match c
       case Proceed => Work(s, false)
       case Other => Work(s, true)
       case Raise => s.(worker := MarkOutcome(Failed))
       case TaskCancel => s.(worker := MarkOutcome(Cancelled))
       case TimeOut => s.(worker := MarkOutcome(Failed)))
    case DeleteStart =>
      s.(deletes := s.deletes +
         [if s.row == Some(Queued) then SawQueued else if s.row == Some(Running) then SawRunning else DeleteDone])
    case DeleteStep(i) =>
      (match s.deletes[i]
       case SawQueued => s.(flagUntil := s.now + CANCEL_TTL, deletes := s.deletes[i := FlagSet])
       case SawRunning => s.(flagUntil := s.now + CANCEL_TTL, deletes := s.deletes[i := DeleteDone])
       case FlagSet =>
         s.(row := if s.row.Some? then Some(CancelledBy(s.row.value, Some(Queued))) else None,
            deletes := s.deletes[i := DeleteDone])
       case DeleteDone => s)
    case Tick(seconds) => s.(now := s.now + seconds)
  }

  /** The states of a run in order, for any interleaving. */
  ghost predicate IsRun(states: seq<State>, actions: seq<Action>) {
    && |states| == |actions| + 1 && states[0] == START
    && forall i :: 0 <= i < |actions| ==>
         Enabled(states[i], actions[i]) && states[i + 1] == Apply(states[i], actions[i])
  }

  // ---------------------------------------------------------------- invariant

  function Terminals(log: seq<LogEvent>): seq<LogEvent> {
    if log == [] then []
    else Terminals(log[..|log| - 1]) + (if log[|log| - 1].IsTerminal() then [log[|log| - 1]] else [])
  }

  /** The worker's own events: all but the one the creating request publishes. */
  function WorkerEvents(log: seq<LogEvent>): seq<LogEvent> {
    if log == [] then []
    else WorkerEvents(log[..|log| - 1]) + (if log[|log| - 1].JobQueued? then [] else [log[|log| - 1]])
  }

  predicate Waiting(row: Option<Status>) {
    row == Some(Queued) || row == Some(Cancelled)
  }

  /** What each place of the worker says about the row. */
  predicate RowFits(s: State) {
    match s.worker
    case Undelivered =>
      (match s.creator
       case NotCreated => s.row.None?
       case Rejected(_) => s.row == Some(Failed)
       case _ => Waiting(s.row))
    case PublishEarlyCancel => s.row == Some(Cancelled)
    case PublishOutcome(o) => s.row == Some(o)
    case Cleanup(o) => s.row == Some(o)
    case Finished(o) => s.row == Some(o)
    case MarkOutcome(o) => (Waiting(s.row) || s.row == Some(Running)) && (o.Succeeded? ==> s.row == Some(Running))
    case w =>
      if w.CheckFlag? || w.MarkEarlyCancel? || w.LoadJob? || w.MakeWorkspace? || w.MarkRunning?
      then Waiting(s.row) else s.row == Some(Running)
  }

  /** The creating request, wrong about the enqueue, has written over the row last. */
  predicate Overridden(s: State) {
    s.creator == Rejected(true) && s.row == Some(Failed)
  }

  predicate Outcomes(w: Worker) {
    w.MarkOutcome? || w.PublishOutcome? || w.Cleanup? || w.Finished? ==> IsFinal(w.outcome)
  }

  predicate EarlyWorker(w: Worker) {
    w.Undelivered? || w.CheckFlag? || w.MarkEarlyCancel? || w.PublishEarlyCancel?
  }

  /** At most one terminal event, published last by the worker, and only once the
      row says the same, unless it is overridden. */
  predicate Inv(s: State) {
    && (RowFits(s) || Overridden(s))
    && (!s.worker.Undelivered? ==> s.creator.Delivers())
    && Outcomes(s.worker)
    && Terminals(s.log) == (if s.worker.Cleanup? || s.worker.Finished? then [EventFor(s.worker.outcome)] else [])
    && (s.worker.Cleanup? || s.worker.Finished? ==>
          WorkerEvents(s.log) != [] && WorkerEvents(s.log)[|WorkerEvents(s.log)| - 1] == EventFor(s.worker.outcome))
    && (EarlyWorker(s.worker) ==> !s.missed && !s.owns)
    && (!EarlyWorker(s.worker) && !s.worker.Finished? ==> s.missed)
    && (s.worker.Finished? ==> !(s.owns && s.directory))
    && (s.directory ==> s.owns)
  }

  lemma LogGrows(log: seq<LogEvent>, e: LogEvent)
    ensures Terminals(log + [e]) == Terminals(log) + (if e.IsTerminal() then [e] else [])
    ensures WorkerEvents(log + [e]) == WorkerEvents(log) + (if e.JobQueued? then [] else [e])
    ensures !e.IsTerminal() ==> Terminals(log + [e]) == Terminals(log)
    ensures e.JobQueued? ==> WorkerEvents(log + [e]) == WorkerEvents(log)
  {
    assert (log + [e])[..|log|] == log;
  }

  lemma CreatorKeepsInv(s: State, enqueue: Enqueue)
    requires Inv(s) && Enabled(s, CreatorStep(enqueue))
    ensures Inv(Apply(s, CreatorStep(enqueue)))
  {
    hide Terminals, WorkerEvents;
    LogGrows(s.log, JobQueued);
  }

  /** All that DELETE requests and the clock can do to what the invariant is about. */
  predicate SameButCancelled(s: State, t: State) {
    && t.worker == s.worker && t.creator == s.creator && t.log == s.log
    && t.directory == s.directory && t.owns == s.owns && t.missed == s.missed
    && (t.row == s.row || (s.row == Some(Queued) && t.row == Some(Cancelled)))
  }

  lemma DeleteOnlyCancels(s: State, a: Action)
    requires Enabled(s, a) && (a.DeleteStart? || a.DeleteStep? || a.Tick?)
    ensures SameButCancelled(s, Apply(s, a))
  {}

  lemma CancellingKeepsInv(s: State, t: State)
    requires Inv(s) && SameButCancelled(s, t)
    ensures Inv(t)
  {
    hide Terminals, WorkerEvents;
  }

  lemma BreaksKeepInv(s: State, c: Choice)
    requires Inv(s) && Enabled(s, WorkerStep(c)) && !c.Proceed? && !c.Other?
    ensures Inv(Apply(s, WorkerStep(c)))
  {
    hide Terminals, WorkerEvents;
  }

  predicate Recording(w: Worker) {
    w.MarkEarlyCancel? || w.PublishEarlyCancel? || w.MarkOutcome? || w.PublishOutcome? || w.Cleanup?
  }

  lemma RecordingKeepsInv(s: State)
    requires Inv(s) && Recording(s.worker)
    ensures Inv(Work(s, false))
  {
    hide Terminals, WorkerEvents;
    match s.worker
    case PublishEarlyCancel => LogGrows(s.log, JobCancelled);
    case PublishOutcome(o) => LogGrows(s.log, EventFor(o));
    case _ =>
  }

  /** Before the row says running. */
  predicate Preparing(w: Worker) {
    w.Undelivered? || w.CheckFlag? || w.LoadJob? || w.MakeWorkspace? || w.MarkRunning?
  }

  lemma PreparingKeepsInv(s: State)
    requires Inv(s) && Enabled(s, WorkerStep(Proceed)) && Preparing(s.worker)
    ensures Inv(Work(s, false))
  {
    hide Terminals, WorkerEvents;
  }

  lemma WorkKeepsInv(s: State, other: bool)
    requires Inv(s) && Enabled(s, WorkerStep(if other then Other else Proceed))
    requires !Recording(s.worker) && !Preparing(s.worker)
    ensures Inv(Work(s, other))
  {
    hide Terminals, WorkerEvents;
    match s.worker
    case PublishStarted => LogGrows(s.log, JobStarted);
    case PublishEvent => LogGrows(s.log, CodexEvent);
    case PublishDiff => LogGrows(s.log, DiffReady);
    case _ =>
  }

  lemma StepKeepsInv(s: State, a: Action)
    requires Inv(s) && Enabled(s, a)
    ensures Inv(Apply(s, a))
  {
    hide Inv;
    if a.CreatorStep? {
      CreatorKeepsInv(s, a.enqueue);
    } else if !a.WorkerStep? {
      DeleteOnlyCancels(s, a);
      CancellingKeepsInv(s, Apply(s, a));
    } else if Recording(s.worker) {
      RecordingKeepsInv(s);
    } else if a.choice.Proceed? && Preparing(s.worker) {
      PreparingKeepsInv(s);
    } else if a.choice.Proceed? || a.choice.Other? {
      WorkKeepsInv(s, a.choice.Other?);
    } else {
      BreaksKeepInv(s, a.choice);
    }
  }

  lemma {:induction false} RunKeepsInv(states: seq<State>, actions: seq<Action>)
    requires IsRun(states, actions)
    ensures forall i :: 0 <= i < |states| ==> Inv(states[i])
  {
    hide Apply, Enabled, Inv;
    if actions != [] {
      var n := |actions| - 1;
      var before, did := states[..n + 1], actions[..n];
      forall i | 0 <= i < n
        ensures Enabled(before[i], did[i]) && before[i + 1] == Apply(before[i], did[i])
      {
        assert before[i] == states[i] && before[i + 1] == states[i + 1] && did[i] == actions[i];
      }
      RunKeepsInv(before, did);
      assert before[n] == states[n];
      StepKeepsInv(states[n], actions[n]);
      forall i | 0 <= i < |states|
        ensures Inv(states[i])
      {
        if i < n + 1 {
          assert before[i] == states[i];
        }
      }
    } else {
      StartInv();
    }
  }

  lemma StartInv()
    ensures Inv(START)
  {}

  // ---------------------------------------------------------------- theorems

  /** The status the worker is about to write, if any. */
  function Writes(w: Worker): Option<Status> {
    match w
    case MarkEarlyCancel => Some(Cancelled)
    case MarkRunning => Some(Running)
    case MarkOutcome(outcome) => Some(outcome)
    case _ => None
  }

  /** Which steps leave a final status, in every run: the worker writes another one, or
      the creating request finds that it could not enqueue a job that has not failed. It
      can only be a cancelled one that is left, by a worker that missed the flag or by
      that request, unless the job was enqueued without the request knowing. */
  lemma FinalLeftIff(states: seq<State>, actions: seq<Action>, i: nat)
    requires IsRun(states, actions) && i < |actions| && states[i].row.Some? && IsFinal(states[i].row.value)
    ensures var s, a := states[i], actions[i];
            && (states[i + 1].row != s.row <==>
                  || (a == WorkerStep(Proceed) && Writes(s.worker).Some? && Writes(s.worker) != s.row)
                  || (a.CreatorStep? && s.creator.EnqueueFailed? && s.row != Some(Failed)))
            && (states[i + 1].row != s.row && !s.creator.DeliversUnawares() ==>
                  s.row == Some(Cancelled) && (a.WorkerStep? ==> s.missed))
  {
    hide Inv, Apply, Enabled;
    RunKeepsInv(states, actions);
    assert Enabled(states[i], actions[i]) && states[i + 1] == Apply(states[i], actions[i]);
    StepLeavesFinal(states[i], actions[i]);
  }

  lemma StepLeavesFinal(s: State, a: Action)
    requires Inv(s) && Enabled(s, a) && s.row.Some? && IsFinal(s.row.value)
    ensures Apply(s, a).row != s.row <==>
              || (a == WorkerStep(Proceed) && Writes(s.worker).Some? && Writes(s.worker) != s.row)
              || (a.CreatorStep? && s.creator.EnqueueFailed? && s.row != Some(Failed))
    ensures Apply(s, a).row != s.row && !s.creator.DeliversUnawares() ==>
              s.row == Some(Cancelled) && (a.WorkerStep? ==> s.missed)
    ensures s.creator.DeliversUnawares() ==> Apply(s, a).creator.DeliversUnawares()
  {
    hide Terminals, WorkerEvents;
  }

  /** In particular, a job that has succeeded or failed stays so, unless it was enqueued
      without the creating request knowing. */
  lemma {:induction false} OutcomeStays(states: seq<State>, actions: seq<Action>, i: nat, j: nat)
    requires IsRun(states, actions) && i <= j < |states|
    requires states[i].row == Some(Succeeded) || states[i].row == Some(Failed)
    ensures states[j].row == states[i].row || states[j].creator.DeliversUnawares()
    decreases j - i
  {
    hide Apply, Enabled, Inv;
    if i < j {
      OutcomeStays(states, actions, i, j - 1);
      UnawaresStays(states, actions, j - 1);
      if !states[j - 1].creator.DeliversUnawares() {
        FinalLeftIff(states, actions, j - 1);
      }
    }
  }

  lemma UnawaresStays(states: seq<State>, actions: seq<Action>, i: nat)
    requires IsRun(states, actions) && i < |actions|
    ensures states[i].creator.DeliversUnawares() ==> states[i + 1].creator.DeliversUnawares()
  {
    assert Enabled(states[i], actions[i]) && states[i + 1] == Apply(states[i], actions[i]);
  }

  /** While only DELETE requests and the clock are active, whatever the number of
      requests, the row changes from queued to cancelled or not at all. */
  lemma {:induction false} DeleteOnlyCancelsQueued(states: seq<State>, actions: seq<Action>, i: nat, j: nat)
    requires IsRun(states, actions) && i <= j < |states|
    requires forall k :: i <= k < j ==> actions[k].DeleteStart? || actions[k].DeleteStep? || actions[k].Tick?
    ensures states[j].row == states[i].row || (states[i].row == Some(Queued) && states[j].row == Some(Cancelled))
    decreases j - i
  {
    if i < j {
      DeleteOnlyCancelsQueued(states, actions, i, j - 1);
      assert Enabled(states[j - 1], actions[j - 1]) && states[j - 1 + 1] == Apply(states[j - 1], actions[j - 1]);
    }
  }

  lemma OneStepAfterTerminal(s: State, a: Action)
    requires Inv(s) && Enabled(s, a) && Terminals(s.log) != []
    ensures Terminals(Apply(s, a).log) == Terminals(s.log)
    ensures Apply(s, a).row == s.row || Overridden(Apply(s, a))
    ensures Overridden(s) ==> Overridden(Apply(s, a))
    ensures WorkerEvents(Apply(s, a).log) == WorkerEvents(s.log)
  {
    hide Terminals, WorkerEvents;
    LogGrows(s.log, JobQueued);
  }

  /** Log and row agree, over every run: at most one terminal event is ever
      published, it is the last the worker publishes, and from then on the row
      holds the status it announces, unless the creating request, wrong about the
      enqueue, writes `failed` over it. */
  lemma {:induction false} TerminalEventIsFinal(states: seq<State>, actions: seq<Action>, i: nat, j: nat)
    requires IsRun(states, actions) && i <= j < |states| && Terminals(states[i].log) != []
    ensures var t := Terminals(states[i].log);
            && |t| == 1 && t[0].IsTerminal()
            && (states[j].row == Some(StatusOf(t[0])) || Overridden(states[j])) && Terminals(states[j].log) == t
            && WorkerEvents(states[j].log) == WorkerEvents(states[i].log)
            && var w := WorkerEvents(states[j].log); w != [] && w[|w| - 1] == t[0]
    decreases j - i
  {
    hide Terminals, WorkerEvents, Apply, Enabled;
    RunKeepsInv(states, actions);
    assert Inv(states[i]);
    if i < j {
      TerminalEventIsFinal(states, actions, i, j - 1);
      assert Enabled(states[j - 1], actions[j - 1]) && states[j - 1 + 1] == Apply(states[j - 1], actions[j - 1]);
      OneStepAfterTerminal(states[j - 1], actions[j - 1]);
    }
  }

  /** The places a worker can reach once it has decided to cancel. */
  predicate Cancelling(s: State) {
    || s.worker.MarkEarlyCancel? || s.worker.PublishEarlyCancel?
    || (s.worker.MarkOutcome? && s.worker.outcome.Cancelled?)
    || (s.worker.PublishOutcome? && s.worker.outcome.Cancelled?)
    || (s.worker.Cleanup? && s.worker.outcome.Cancelled?) || (s.worker.Finished? && s.worker.outcome.Cancelled?)
  }

  /** Cancelling started before the job ran: the row has never been running. */
  predicate NeverRan(s: State) {
    s.worker.MarkEarlyCancel? || s.worker.PublishEarlyCancel? || (s.worker.Finished? && !s.missed)
  }

  lemma CancellingStep(s: State, a: Action)
    requires Inv(s) && Enabled(s, a) && Cancelling(s)
    ensures Cancelling(Apply(s, a))
    ensures NeverRan(s) ==> NeverRan(Apply(s, a)) && Apply(s, a).row != Some(Running)
  {
    hide Terminals, WorkerEvents;
  }

  lemma FlagDecides(s: State)
    requires Inv(s) && FlagLive(s) && Enabled(s, WorkerStep(Proceed))
    ensures s.worker.CheckFlag? ==> Cancelling(Apply(s, WorkerStep(Proceed))) && NeverRan(Apply(s, WorkerStep(Proceed)))
    ensures s.worker.CheckEventFlag? ==> Cancelling(Apply(s, WorkerStep(Proceed)))
  {
    hide Terminals, WorkerEvents;
  }

  /** Cancel wins, over every run. If the flag is live when the worker looks,
      early or as a further Codex event arrives, then from there on the worker
      only cancels; once it has finished the row is cancelled (or overridden), exactly
      one terminal event was published, `job.cancelled`, and the workspace is gone.
      If it looked early, the job never becomes running after that. */
  lemma {:induction false} CancelWins(states: seq<State>, actions: seq<Action>, i: nat, j: nat)
    requires IsRun(states, actions) && i < j < |states|
    requires actions[i] == WorkerStep(Proceed) && FlagLive(states[i])
    requires states[i].worker.CheckFlag? || states[i].worker.CheckEventFlag?
    ensures Cancelling(states[j])
    ensures states[i].worker.CheckFlag? ==> NeverRan(states[j]) && states[j].row != Some(Running)
    ensures states[j].worker.Finished? ==>
              && (states[j].row == Some(Cancelled) || Overridden(states[j]))
              && Terminals(states[j].log) == [JobCancelled]
              && !states[j].directory
    decreases j - i
  {
    hide Terminals, WorkerEvents, Apply, Enabled, Cancelling, NeverRan;
    RunKeepsInv(states, actions);
    var s := states[j - 1];
    assert Enabled(s, actions[j - 1]) && states[j - 1 + 1] == Apply(s, actions[j - 1]);
    if i == j - 1 {
      FlagDecides(s);
    } else {
      CancelWins(states, actions, i, j - 1);
      CancellingStep(s, actions[j - 1]);
    }
    WhatCancelled(states[j]);
  }

  lemma WhatCancelled(s: State)
    requires Inv(s) && Cancelling(s)
    ensures s.worker.Finished? ==>
              (s.row == Some(Cancelled) || Overridden(s)) && Terminals(s.log) == [JobCancelled] && !s.directory
    ensures NeverRan(s) ==> s.row != Some(Running)
  {
    hide Terminals, WorkerEvents;
  }

  // ------------------------------------------------- what the flag cannot do

  datatype Trace = Trace(states: seq<State>, actions: seq<Action>)

  ghost predicate Good(t: Trace) {
    IsRun(t.states, t.actions)
  }

  function End(t: Trace): State
    requires t.states != []
  {
    t.states[|t.states| - 1]
  }

  lemma Extend(t: Trace, a: Action) returns (u: Trace)
    requires Good(t) && Enabled(End(t), a)
    ensures Good(u) && u.states == t.states + [Apply(End(t), a)] && u.actions == t.actions + [a]
    ensures End(u) == Apply(End(t), a)
  {
    hide Apply, Enabled;
    u := Trace(t.states + [Apply(End(t), a)], t.actions + [a]);
    forall i | 0 <= i < |u.actions|
      ensures Enabled(u.states[i], u.actions[i]) && u.states[i + 1] == Apply(u.states[i], u.actions[i])
    {
      if i < |t.actions| {
        assert u.states[i] == t.states[i] && u.states[i + 1] == t.states[i + 1] && u.actions[i] == t.actions[i];
      }
    }
  }

  lemma RunToStream(t: Trace) returns (u: Trace)
    requires Good(t) && End(t).worker.LoadJob?
    ensures Good(u) && End(u).worker.AwaitEvent? && End(u).log == End(t).log + [JobStarted]
    ensures End(u).now == End(t).now && End(u).flagUntil == End(t).flagUntil && End(u).creator == End(t).creator
    ensures |t.states| < |u.states| && u.states[..|t.states|] == t.states
  {
    hide Good, IsRun;
    u := Extend(t, WorkerStep(Proceed));
    u := Extend(u, WorkerStep(Proceed));
    u := Extend(u, WorkerStep(Proceed));
    u := Extend(u, WorkerStep(Proceed));
    u := Extend(u, WorkerStep(Proceed));
  }

  /** From a worker that missed the flag to a finished job, no event in between. */
  lemma RunToSuccess(t: Trace) returns (u: Trace)
    requires Good(t) && End(t).worker.LoadJob?
    ensures Good(u) && End(u).worker == Finished(Succeeded) && End(u).row == Some(Succeeded)
    ensures End(u).log == End(t).log + [JobStarted] + [JobCompleted]
    ensures End(u).now == End(t).now && End(u).flagUntil == End(t).flagUntil && End(u).creator == End(t).creator
    ensures |t.states| < |u.states| && u.states[..|t.states|] == t.states
  {
    hide Good, IsRun;
    var v := RunToStream(t);
    u := Extend(v, WorkerStep(Other));
    u := Extend(u, WorkerStep(Other));
    u := Extend(u, WorkerStep(Proceed));
    u := Extend(u, WorkerStep(Proceed));
    u := Extend(u, WorkerStep(Proceed));
    assert u.states[..|t.states|] == v.states[..|t.states|];
  }

  /** A job that is queued, and a DELETE request that has seen it so. */
  lemma QueuedAndSeen() returns (t: Trace)
    ensures Good(t)
    ensures End(t) == State(0, Some(Queued), 0, [JobQueued], false, Answered, Undelivered, false, false, [SawQueued])
  {
    hide IsRun;
    t := Trace([START], []);
    StartIsGood(t);
    t := Extend(t, CreatorStep(EnqueueOk));
    t := Extend(t, CreatorStep(EnqueueOk));
    t := Extend(t, CreatorStep(EnqueueOk));
    t := Extend(t, DeleteStart);
  }

  lemma StartIsGood(t: Trace)
    requires t == Trace([START], [])
    ensures Good(t)
  {}

  /** A cancelled row, then a run to success. */
  ghost predicate CancelledThenSucceeded(t: Trace, i: nat) {
    && Good(t) && i < |t.states| && t.states[i].row == Some(Cancelled)
    && End(t).worker == Finished(Succeeded) && End(t).row == Some(Succeeded)
  }

  /** A job queued for longer than the flag lives is shown as cancelled before
      any worker has it, and then runs to success. */
  lemma CancelForgotten()
    ensures exists t: Trace, i: nat :: CancelledThenSucceeded(t, i) && t.states[i].worker.Undelivered?
  {
    hide Good, IsRun;
    var t := QueuedAndSeen();
    t := Extend(t, DeleteStep(0));
    t := Extend(t, DeleteStep(0));
    var i, seen := |t.states| - 1, End(t);
    t := Extend(t, Tick(CANCEL_TTL));
    t := Extend(t, WorkerStep(Proceed));
    t := Extend(t, WorkerStep(Proceed));
    var u := RunToSuccess(t);
    assert u.states[i] == u.states[..|t.states|][i] == seen;
    assert CancelledThenSucceeded(u, i);
  }

  /** A job cancelled before it could be enqueued ends failed when it cannot be. */
  lemma EnqueueFailureOverwrites()
    ensures exists t: Trace, i: nat ::
              && Good(t) && i < |t.states| && t.states[i].row == Some(Cancelled) && End(t).row == Some(Failed)
              && Terminals(End(t).log) == []
  {
    hide Good, IsRun;
    var t := Trace([START], []);
    StartIsGood(t);
    t := Extend(t, CreatorStep(EnqueueOk));
    t := Extend(t, DeleteStart);
    t := Extend(t, DeleteStep(0));
    t := Extend(t, DeleteStep(0));
    var i := |t.states| - 1;
    t := Extend(t, CreatorStep(EnqueueError(false)));
    t := Extend(t, CreatorStep(EnqueueOk));
    assert t.states[i].row == Some(Cancelled);
  }

  /** An enqueue error after the fact: the job runs to success and announces it, and the
      creating request, which answers that the queue is unavailable, marks it failed. */
  lemma EnqueueErrorOverwritesSuccess()
    ensures exists t: Trace, i: nat ::
              && Good(t) && i < |t.states| && t.states[i].row == Some(Succeeded)
              && End(t).row == Some(Failed) && Terminals(End(t).log) == [JobCompleted]
  {
    hide Good, IsRun;
    var t := Trace([START], []);
    StartIsGood(t);
    t := Extend(t, CreatorStep(EnqueueOk));
    t := Extend(t, CreatorStep(EnqueueError(true)));
    t := Extend(t, WorkerStep(Proceed));
    t := Extend(t, WorkerStep(Proceed));
    t := RunToSuccess(t);
    var i := |t.states| - 1;
    t := Extend(t, CreatorStep(EnqueueOk));
    assert t.states[i].row == Some(Succeeded);
    assert End(t).log == [] + [JobStarted] + [JobCompleted];
    LogGrows([], JobStarted);
    LogGrows([] + [JobStarted], JobCompleted);
  }

  /** A job cancelled just after the worker looked does so too, with the flag
      live to the end. */
  lemma CancelOvertaken()
    ensures exists t: Trace, i: nat :: CancelledThenSucceeded(t, i) && FlagLive(End(t))
  {
    hide Good, IsRun;
    var t := QueuedAndSeen();
    t := Extend(t, WorkerStep(Proceed));
    t := Extend(t, WorkerStep(Proceed));
    t := Extend(t, DeleteStep(0));
    t := Extend(t, DeleteStep(0));
    var i, seen := |t.states| - 1, End(t);
    var u := RunToSuccess(t);
    assert u.states[i] == u.states[..|t.states|][i] == seen;
    assert CancelledThenSucceeded(u, i);
  }
}
