/** The janitor's pass over the workspace root (`src/workers/janitor.py`), alone
    and against jobs that are created, started and finished while it runs. Times are
    seconds of one clock. */
module WorkspaceJanitor {
  import opened PyText
  import JobsTable

  const STALE_AGE_SECONDS := 3600

  /** An entry of the root: whether it is a directory, when it changed last unless
      that cannot be read, and whether it resolves to a path inside the root. */
  datatype Entry = Entry(isDirectory: bool, mtime: Option<int>, inside: bool)

  /** Whether the pass removes an entry. */
  predicate Stale(name: string, e: Entry, active: set<string>, now: int) {
    && e.isDirectory && name !in active
    && e.mtime.Some? && now - e.mtime.value >= STALE_AGE_SECONDS
    && e.inside
  }

  class Root {
    var entries: map<string, Entry>

    method RemoveTree(name: string)
      modifies this
      ensures entries == map n | n in old(entries) && n != name :: old(entries)[n]
    {
      entries := map n | n in entries && n != name :: entries[n];
    }
  }

  /** The names on which the pass calls `rmtree`. */
  function StaleNames(names: seq<string>, entries: map<string, Entry>, active: set<string>, now: int): set<string> {
    if names == [] then {} else
    var last := names[|names| - 1];
    StaleNames(names[..|names| - 1], entries, active, now) +
    (if last in entries && Stale(last, entries[last], active, now) then {last} else {})
  }

  lemma {:induction false} StaleNamesAre(names: seq<string>, entries: map<string, Entry>, active: set<string>, now: int)
    ensures forall name :: name in StaleNames(names, entries, active, now) <==>
                           name in names && name in entries && Stale(name, entries[name], active, now)
  {
    if names != [] {
      var n := |names| - 1;
      StaleNamesAre(names[..n], entries, active, now);
      assert names == names[..n] + [names[n]];
    }
  }

  lemma OneMoreName(names: seq<string>, i: nat, entries: map<string, Entry>, active: set<string>, now: int)
    requires i < |names| && names[i] in entries
    ensures StaleNames(names[..i + 1], entries, active, now) ==
            if Stale(names[i], entries[names[i]], active, now)
            then StaleNames(names[..i], entries, active, now) + {names[i]}
            else StaleNames(names[..i], entries, active, now)
    ensures names[i] !in names[..i] ==> names[i] !in StaleNames(names[..i], entries, active, now)
  {
    assert names[..i + 1][..i] == names[..i];
    StaleNamesAre(names[..i], entries, active, now);
  }

  /** What may go: an old directory inside the root that bears the name of no job, or
      of one that has come to an end. */
  predicate Removable(name: string, e: Entry, rows: map<string, JobsTable.Job>, now: int) {
    && e.isDirectory && e.inside
    && e.mtime.Some? && now - e.mtime.value >= STALE_AGE_SECONDS
    && (name in rows ==> JobsTable.IsFinal(rows[name].status))
  }

  /** `cleanup_stale_workspaces`, when nothing else changes the root: exactly the
      removable entries go, and they are counted; nothing goes when the query or the
      scan fails. */
  method CleanupStaleWorkspaces(table: JobsTable.Table<string>, root: Root, dbOk: bool, scanned: Option<seq<string>>,
                                now: int)
    returns (cleaned: nat)
    requires scanned.Some? ==> forall i, j :: 0 <= i < j < |scanned.value| ==> scanned.value[i] != scanned.value[j]
    requires scanned.Some? ==> forall name :: name in root.entries <==> name in scanned.value
    modifies root
    ensures !dbOk || scanned.None? ==> root.entries == old(root.entries) && cleaned == 0
    ensures dbOk && scanned.Some? ==>
              && (forall n :: n in root.entries <==>
                    n in old(root.entries) && !Removable(n, old(root.entries)[n], table.rows, now))
              && (forall n :: n in root.entries ==> root.entries[n] == old(root.entries)[n])
              && cleaned == |set n | n in old(root.entries) && Removable(n, old(root.entries)[n], table.rows, now)|
    ensures forall n :: n in old(root.entries) && n in table.rows && !JobsTable.IsFinal(table.rows[n].status) ==>
              n in root.entries
    ensures forall n :: n in old(root.entries) && n !in root.entries ==>
              var e := old(root.entries)[n];
              e.isDirectory && e.inside && e.mtime.Some? && now - e.mtime.value >= 3600
    ensures dbOk && scanned.Some? ==>
              forall n :: n in root.entries && n !in table.rows ==>
                var e := root.entries[n];
                !e.isDirectory || !e.inside || e.mtime.None? || now - e.mtime.value < 3600
  {
    if !dbOk {
      return 0;
    }
    var active := table.ListActiveJobIds();
    if scanned.None? {
      return 0;
    }
    ghost var before := root.entries;
    cleaned := RemoveStale(root, scanned.value, active, now);
    forall n | n in before
      ensures Stale(n, before[n], active, now) <==> Removable(n, before[n], table.rows, now)
    {
    }
    assert (set n | n in before && Stale(n, before[n], active, now))
        == (set n | n in before && Removable(n, before[n], table.rows, now));
  }

  /** The loop over the entries. */
  method RemoveStale(root: Root, scanned: seq<string>, active: set<string>, now: int) returns (cleaned: nat)
    requires forall i, j :: 0 <= i < j < |scanned| ==> scanned[i] != scanned[j]
    requires forall name :: name in root.entries <==> name in scanned
    modifies root
    ensures forall n :: n in root.entries <==> n in old(root.entries) && !Stale(n, old(root.entries)[n], active, now)
    ensures forall n :: n in root.entries ==> root.entries[n] == old(root.entries)[n]
    ensures cleaned == |set n | n in old(root.entries) && Stale(n, old(root.entries)[n], active, now)|
  {
    hide StaleNames;
    cleaned := 0;
    ghost var before := root.entries;
    ghost var gone: set<string> := {};
    NoNames(before, active, now);
    for i := 0 to |scanned|
      invariant gone == StaleNames(scanned[..i], before, active, now) && cleaned == |gone|
      invariant forall n :: n in root.entries <==> n in before && n !in gone
      invariant forall n :: n in root.entries ==> root.entries[n] == before[n]
    {
      var name := scanned[i];
      OneMoreName(scanned, i, before, active, now);
      var e := root.entries[name];
      if !e.isDirectory {
        continue;
      }
      if name in active {
        continue;
      }
      if e.mtime.None? || now - e.mtime.value < STALE_AGE_SECONDS {
        continue;
      }
      if !e.inside {
        continue;
      }
      gone := gone + {name};
      root.RemoveTree(name);
      cleaned := cleaned + 1;
    }
    assert scanned[..|scanned|] == scanned;
    StaleNamesAre(scanned, before, active, now);
    AllNames(scanned, before, active, now);
  }

  lemma AllNames(scanned: seq<string>, entries: map<string, Entry>, active: set<string>, now: int)
    requires forall name :: name in entries <==> name in scanned
    ensures StaleNames(scanned, entries, active, now) == set n | n in entries && Stale(n, entries[n], active, now)
  {
    StaleNamesAre(scanned, entries, active, now);
  }

  lemma NoNames(entries: map<string, Entry>, active: set<string>, now: int)
    ensures StaleNames([], entries, active, now) == {}
  {}

  // ------------------------------------------------- against running jobs

  datatype Phase = Queued | Running | Finished

  /** A job's row, with the moments it was created at and its worker made its
      workspace at. */
  datatype Job = Job(phase: Phase, created: nat, made: Option<nat>)

  datatype Pass =
    | Idle
    | Queried(active: set<string>, queriedAt: nat)
    | Scanning(active: set<string>, queriedAt: nat, now: nat)
    | Removing(active: set<string>, queriedAt: nat, now: nat, name: string)

  /** `workspaces` are the directories that workers made, with the time of their last
      change; `lost` collects what a pass removed from under a job that was queued or
      running then. */
  datatype State = State(now: nat, jobs: map<string, Job>, workspaces: map<string, nat>, pass: Pass, lost: set<string>)

  const START := State(0, map[], map[], Idle, {})

  predicate Active(s: State, id: string) {
    id in s.jobs && !s.jobs[id].phase.Finished?
  }

  function ActiveIds(s: State): set<string> {
    set id | id in s.jobs && !s.jobs[id].phase.Finished?
  }

  datatype Action =
    | CreateJob(id: string)
    | MakeWorkspace(id: string)
    | MarkRunning(id: string)
    | Finish(id: string)
    | Touch(id: string)
    | CleanUp(id: string)
    | Query
    | ReadClock
    | Stat(name: string)
    | Remove
    | EndPass
    | Tick(seconds: nat)

  /** `MarkRunning` is the worker's unguarded update, so it may also bring back a
      finished job: one cancelled between the worker's check and this statement. It
      follows the making of the workspace within `lag` seconds. */
  predicate Enabled(s: State, a: Action, lag: nat) {
    match a
    case CreateJob(id) => id !in s.jobs
    case MakeWorkspace(id) => id in s.jobs && s.jobs[id].made.None? && id !in s.workspaces
    case MarkRunning(id) => id in s.jobs && s.jobs[id].made.Some? && s.now <= s.jobs[id].made.value + lag
    case Finish(id) => id in s.jobs
    case Touch(id) => id in s.workspaces
    case CleanUp(id) => id in s.workspaces
    case Query => s.pass.Idle?
    case ReadClock => s.pass.Queried?
    case Stat(name) => s.pass.Scanning? && name in s.workspaces
    case Remove => s.pass.Removing?
    case EndPass => s.pass.Scanning?
    case Tick(_) => true
  }

  function Without(workspaces: map<string, nat>, id: string): map<string, nat> {
    map n | n in workspaces && n != id :: workspaces[n]
  }

  /** The pass decides on an entry by what it knows: the active ids of its query, its
      reading of the clock, and the entry's state when it is looked at. */
  function Apply(s: State, a: Action, lag: nat): State
    requires Enabled(s, a, lag)
  {
    match a
    case CreateJob(id) => s.(jobs := s.jobs[id := Job(Queued, s.now, None)])
    case MakeWorkspace(id) =>
      s.(workspaces := s.workspaces[id := s.now], jobs := s.jobs[id := s.jobs[id].(made := Some(s.now))])
    case MarkRunning(id) => s.(jobs := s.jobs[id := s.jobs[id].(phase := Running)])
    case Finish(id) => s.(jobs := s.jobs[id := s.jobs[id].(phase := Finished)])
    case Touch(id) => s.(workspaces := s.workspaces[id := s.now])
    case CleanUp(id) => s.(workspaces := Without(s.workspaces, id))
    case Query => s.(pass := Queried(ActiveIds(s), s.now))
    case ReadClock => s.(pass := Scanning(s.pass.active, s.pass.queriedAt, s.now))
    case Stat(name) =>
      if Stale(name, Entry(true, Some(s.workspaces[name]), true), s.pass.active, s.pass.now)
      then s.(pass := Removing(s.pass.active, s.pass.queriedAt, s.pass.now, name)) else s
    case Remove =>
      s.(workspaces := Without(s.workspaces, s.pass.name),
         pass := Scanning(s.pass.active, s.pass.queriedAt, s.pass.now),
         lost := if s.pass.name in s.workspaces && Active(s, s.pass.name) then s.lost + {s.pass.name} else s.lost)
    case EndPass => s.(pass := Idle)
    case Tick(seconds) => s.(now := s.now + seconds)
  }

  ghost predicate IsRun(states: seq<State>, actions: seq<Action>, lag: nat) {
    && |states| == |actions| + 1 && states[0] == START
    && forall i :: 0 <= i < |actions| ==>
         Enabled(states[i], actions[i], lag) && states[i + 1] == Apply(states[i], actions[i], lag)
  }

  /** From the query to the reading of the clock, plus the worker's lag, a pass takes
      less than an hour. */
  predicate Brisk(s: State, lag: nat) {
    s.pass.Scanning? || s.pass.Removing? ==> s.pass.now - s.pass.queriedAt + lag < STALE_AGE_SECONDS
  }

  /** A job that the query did not report active became so after it, and its
      workspace is hence no older than the query less the lag. */
  predicate Fresh(s: State, id: string, lag: nat)
    requires id in s.jobs
  {
    !s.pass.Idle? && id !in s.pass.active && Active(s, id) ==>
      if s.jobs[id].made.Some? then s.pass.queriedAt <= s.jobs[id].made.value + lag
      else s.pass.queriedAt <= s.jobs[id].created
  }

  predicate Timed(s: State, id: string)
    requires id in s.jobs
  {
    var j := s.jobs[id];
    && j.created <= s.now
    && (j.made.Some? ==> j.created <= j.made.value <= s.now)
    && (id in s.workspaces ==> j.made.Some? && j.made.value <= s.workspaces[id] <= s.now)
  }

  predicate Condemned(s: State)
    requires s.pass.Removing?
  {
    && s.pass.name in s.jobs && s.jobs[s.pass.name].made.Some? && s.pass.name !in s.pass.active
    && s.pass.now - s.jobs[s.pass.name].made.value >= STALE_AGE_SECONDS
  }

  predicate Inv(s: State, lag: nat) {
    && (forall id :: id in s.workspaces ==> id in s.jobs)
    && (forall id :: id in s.jobs ==> Timed(s, id) && Fresh(s, id, lag))
    && (!s.pass.Idle? ==> s.pass.queriedAt <= s.now)
    && (s.pass.Removing? ==> Condemned(s))
    && s.lost == {}
  }

  lemma RemoveIsSafe(s: State, lag: nat)
    requires Inv(s, lag) && Brisk(s, lag) && s.pass.Removing?
    ensures !Active(s, s.pass.name)
  {
    assert Fresh(s, s.pass.name, lag);
  }

  lemma JobStepKeepsInv(s: State, a: Action, lag: nat)
    requires Inv(s, lag) && Enabled(s, a, lag)
    requires a.CreateJob? || a.MakeWorkspace? || a.MarkRunning? || a.Finish?
    ensures Inv(Apply(s, a, lag), lag)
  {
    var t := Apply(s, a, lag);
    forall id | id in t.jobs ensures Timed(t, id) && Fresh(t, id, lag) {
      if id in s.jobs {
        assert Timed(s, id) && Fresh(s, id, lag);
      }
    }
  }

  lemma OtherStepKeepsInv(s: State, a: Action, lag: nat)
    requires Inv(s, lag) && Brisk(s, lag) && Enabled(s, a, lag)
    requires !a.CreateJob? && !a.MakeWorkspace? && !a.MarkRunning? && !a.Finish?
    ensures Inv(Apply(s, a, lag), lag)
  {
    var t := Apply(s, a, lag);
    forall id | id in t.jobs ensures Timed(t, id) && Fresh(t, id, lag) {
      assert Timed(s, id) && Fresh(s, id, lag);
    }
    if a.Remove? {
      RemoveIsSafe(s, lag);
    }
    if a.Stat? {
      assert Timed(s, a.name);
    }
  }

  /** No pass removes the workspace of a job that is queued or running at that
      moment, not even one created, or brought back, after the query; as long as the
      pass reads its clock soon enough after the query. */
  lemma {:induction false} ActiveWorkspacesSurvive(states: seq<State>, actions: seq<Action>, lag: nat)
    requires IsRun(states, actions, lag)
    requires forall i :: 0 <= i < |states| ==> Brisk(states[i], lag)
    ensures forall i :: 0 <= i < |states| ==> Inv(states[i], lag) && states[i].lost == {}
  {
    hide Apply, Enabled, Brisk;
    if actions != [] {
      var n := |actions| - 1;
      var before, did := states[..n + 1], actions[..n];
      forall i | 0 <= i < n
        ensures Enabled(before[i], did[i], lag) && before[i + 1] == Apply(before[i], did[i], lag)
      {
        assert before[i] == states[i] && did[i] == actions[i] && before[i + 1] == states[i + 1];
      }
      ActiveWorkspacesSurvive(before, did, lag);
      assert before[n] == states[n] && Inv(states[n], lag);
      var a := actions[n];
      if a.CreateJob? || a.MakeWorkspace? || a.MarkRunning? || a.Finish? {
        JobStepKeepsInv(states[n], a, lag);
      } else {
        OtherStepKeepsInv(states[n], a, lag);
      }
      assert states[n + 1] == Apply(states[n], a, lag);
    }
  }

  lemma RunGrows(states: seq<State>, actions: seq<Action>, lag: nat, a: Action)
    returns (states': seq<State>, actions': seq<Action>)
    requires IsRun(states, actions, lag) && Enabled(states[|actions|], a, lag)
    ensures IsRun(states', actions', lag)
    ensures states' == states + [Apply(states[|actions|], a, lag)] && actions' == actions + [a]
  {
    states', actions' := states + [Apply(states[|actions|], a, lag)], actions + [a];
    forall i | 0 <= i < |actions'|
      ensures Enabled(states'[i], actions'[i], lag) && states'[i + 1] == Apply(states'[i], actions'[i], lag)
    {
      assert i < |actions| ==> states'[i] == states[i] && actions'[i] == actions[i] && states'[i + 1] == states[i + 1];
    }
  }

  /** The bound is sharp: once query and lag use up the hour, there is a run in which
      a running job loses its workspace. */
  lemma SlowPassLosesWorkspace(id: string, wait: nat, lag: nat) returns (states: seq<State>, actions: seq<Action>)
    requires wait + lag >= STALE_AGE_SECONDS
    ensures IsRun(states, actions, lag)
    ensures forall i :: 0 <= i < |states| && (states[i].pass.Scanning? || states[i].pass.Removing?)
                        ==> states[i].pass.now - states[i].pass.queriedAt == wait
    ensures states[|states| - 1].lost == {id} && Active(states[|states| - 1], id)
  {
    hide IsRun;
    states, actions := FinishedJobQueried(id, lag);
    var n := |actions|;
    states, actions := RunGrows(states, actions, lag, MarkRunning(id));
    states, actions := RunGrows(states, actions, lag, Tick(wait));
    states, actions := RunGrows(states, actions, lag, ReadClock);
    assert states[n + 3] == State(lag + wait, map[id := Job(Running, 0, Some(0))], map[id := 0],
                                  Scanning({}, lag, lag + wait), {});
    states, actions := RunGrows(states, actions, lag, Stat(id));
    states, actions := RunGrows(states, actions, lag, Remove);
  }

  /** A job is cancelled between its making a workspace and its being marked. */
  lemma FinishedJobQueried(id: string, lag: nat) returns (states: seq<State>, actions: seq<Action>)
    ensures IsRun(states, actions, lag)
    ensures forall i :: 0 <= i < |states| ==> states[i].pass.Idle? || states[i].pass.Queried?
    ensures states[|actions|] == State(lag, map[id := Job(Finished, 0, Some(0))], map[id := 0], Queried({}, lag), {})
  {
    hide IsRun;
    states, actions := [START], [];
    StartsRun(lag);
    states, actions := RunGrows(states, actions, lag, CreateJob(id));
    states, actions := RunGrows(states, actions, lag, MakeWorkspace(id));
    states, actions := RunGrows(states, actions, lag, Finish(id));
    states, actions := RunGrows(states, actions, lag, Tick(lag));
    assert states[4] == State(lag, map[id := Job(Finished, 0, Some(0))], map[id := 0], Idle, {});
    states, actions := RunGrows(states, actions, lag, Query);
  }

  lemma StartsRun(lag: nat)
    ensures IsRun([START], [], lag)
  {}
}
