/** Additive usage tables (`src/db/crud/usage_counter.py`, `usage_daily.py`). */
module UsageTables {

  /** A row, or an amount to add to one. */
  datatype Amount = Amount(requests: int, inputTokens: int, outputTokens: int) {
    function Plus(a: Amount): Amount {
      Amount(requests + a.requests, inputTokens + a.inputTokens, outputTokens + a.outputTokens)
    }
  }

  const NOTHING := Amount(0, 0, 0)

  function RowOf<K>(rows: map<K, Amount>, key: K): Amount {
    if key in rows then rows[key] else NOTHING
  }

  /** A table keyed by user and period, and for daily usage by API key as well. */
  class UsageTable<K(==)> {
    var rows: map<K, Amount>

    constructor ()
      ensures rows == map[]
    {
      rows := map[];
    }

    /** The upsert: a new row, or the amount on top of the one there is. */
    method Increment(key: K, a: Amount)
      modifies this
      ensures rows == old(rows)[key := RowOf(old(rows), key).Plus(a)]
      ensures key in rows && var had := key in old(rows);
              && rows[key].requests == (if had then old(rows)[key].requests else 0) + a.requests
              && rows[key].inputTokens == (if had then old(rows)[key].inputTokens else 0) + a.inputTokens
              && rows[key].outputTokens == (if had then old(rows)[key].outputTokens else 0) + a.outputTokens
      ensures forall k :: k != key ==> (k in rows <==> k in old(rows)) && (k in rows ==> rows[k] == old(rows)[k])
    {
      if key in rows {
        var row := rows[key];
        rows := rows[key := Amount(row.requests + a.requests, row.inputTokens + a.inputTokens,
                                   row.outputTokens + a.outputTokens)];
      } else {
        rows := rows[key := a];
      }
    }
  }

  function After<K(==)>(increments: seq<(K, Amount)>): map<K, Amount> {
    if increments == [] then map[] else
    var rows := After(increments[..|increments| - 1]);
    var (key, a) := increments[|increments| - 1];
    rows[key := RowOf(rows, key).Plus(a)]
  }

  /** All that was ever added under one key. */
  function Total<K(==)>(increments: seq<(K, Amount)>, key: K): Amount {
    if increments == [] then NOTHING else
    var before := Total(increments[..|increments| - 1], key);
    var (k, a) := increments[|increments| - 1];
    if k == key then before.Plus(a) else before
  }

  /** After any increments, in whatever order the background tasks ran them, a row
      is the sum of what was added under its key. */
  lemma {:induction false} RowsAreTotals<K>(increments: seq<(K, Amount)>, key: K)
    ensures RowOf(After(increments), key) == Total(increments, key)
    ensures key in After(increments) <==> exists i :: 0 <= i < |increments| && increments[i].0 == key
  {
    if increments != [] {
      var before, last := increments[..|increments| - 1], increments[|increments| - 1];
      RowsAreTotals(before, key);
      if key in After(before) {
        var i :| 0 <= i < |before| && before[i].0 == key;
        assert increments[i].0 == key;
      }
      if key in After(increments) && last.0 != key {
        var i :| 0 <= i < |before| && before[i].0 == key;
      }
      if exists i :: 0 <= i < |increments| && increments[i].0 == key {
        var i :| 0 <= i < |increments| && increments[i].0 == key;
        assert i < |before| ==> before[i].0 == key;
      }
    }
  }
}

/** Tokens per minute: the charge before a request and the true-up after it
    (`src/gateway/middleware/rate_limit.py`, `usage_tracking.py`,
    `src/infra/redis_lua/tpm_check.lua`), for one API key. Times are seconds;
    estimates and actual counts are whole numbers of tokens. */
module TokenLedger {
  import opened PyText
  import opened UsageTables

  const WINDOW := 60
  const KEY_TTL := 120

  /** The counter of one window; the key is gone at `expiresAt`. */
  datatype Counter = Counter(value: int, expiresAt: int)

  function Current(counters: map<int, Counter>, window: int): int {
    if window in counters then counters[window].value else 0
  }

  function Add(counters: map<int, Counter>, window: int, amount: int, now: int): map<int, Counter> {
    counters[window := Counter(Current(counters, window) + amount, now + KEY_TTL)]
  }

  predicate Fits(counters: map<int, Counter>, window: int, cost: int, limit: int) {
    Current(counters, window) + cost <= limit
  }

  /** The stashed estimate of an admitted request, and what the route reported. */
  datatype Stash = Stash(window: Option<int>, estimate: int, usage: Option<(int, int)>)

  /** A usage table after one request, if its upsert ran. */
  function Incremented(rows: map<int, Amount>, key: int, usage: Option<(int, int)>, ran: bool): map<int, Amount> {
    if ran && usage.Some? then rows[key := RowOf(rows, key).Plus(Amount(1, usage.value.0, usage.value.1))] else rows
  }

  /** One request more, its input tokens and its output tokens; nothing if it did not
      run. */
  lemma IncrementedIs(rows: map<int, Amount>, key: int, input: int, output: int)
    ensures var after := Incremented(rows, key, Some((input, output)), true);
            && key in after && after.Keys == rows.Keys + {key}
            && after[key].requests == 1 + (if key in rows then rows[key].requests else 0)
            && after[key].inputTokens == input + (if key in rows then rows[key].inputTokens else 0)
            && after[key].outputTokens == output + (if key in rows then rows[key].outputTokens else 0)
            && forall k :: k in rows && k != key ==> after[k] == rows[k]
    ensures Incremented(rows, key, Some((input, output)), false) == Incremented(rows, key, None, true) == rows
  {}

  /** Everything `_true_up` writes to. */
  class Ledger {
    var counters: map<int, Counter>
    var monthly: int
    const monthlyRows: UsageTable<int>
    const dailyRows: UsageTable<int>

    constructor ()
      ensures counters == map[] && monthly == 0
      ensures fresh(monthlyRows) && fresh(dailyRows) && monthlyRows != dailyRows
      ensures monthlyRows.rows == map[] && dailyRows.rows == map[]
    {
      counters := map[];
      monthly := 0;
      monthlyRows := new UsageTable<int>();
      dailyRows := new UsageTable<int>();
      new;
    }

    /** `tpm_check.lua`: all or nothing. */
    method TpmCheck(window: int, cost: int, limit: int, now: int) returns (allowed: bool)
      modifies this`counters
      ensures allowed == Fits(old(counters), window, cost, limit)
      ensures counters == if allowed then Add(old(counters), window, cost, now) else old(counters)
      ensures allowed ==> Current(counters, window) <= limit
      ensures var had := if window in old(counters) then old(counters)[window].value else 0;
              && (allowed <==> had + cost <= limit)
              && (allowed ==> counters == old(counters)[window := Counter(had + cost, now + 120)])
    {
      var current := if window in counters then counters[window].value else 0;
      if current + cost > limit {
        return false;
      }
      counters := counters[window := Counter(current + cost, now + KEY_TTL)];
      return true;
    }

    /** `_true_up` with a Redis error or database error possible at each store.
        The counter of the window that was charged moves by the difference
        between tokens used and tokens estimated, whatever window it is now; the
        three ledgers move by the tokens used; nothing moves without a reported
        usage and a stashed window. */
    method TrueUp(s: Stash, month: int, day: int, now: int, redisOk: bool, monthlyOk: bool, monthRowOk: bool,
                  dayRowOk: bool)
      requires monthlyRows != dailyRows
      modifies this, monthlyRows, dailyRows
      ensures var counted := s.usage.Some? && s.window.Some?;
              var total := if counted then s.usage.value.0 + s.usage.value.1 else 0;
              && counters == (if counted && total != s.estimate && redisOk
                              then Add(old(counters), s.window.value, total - s.estimate, now) else old(counters))
              && monthly == old(monthly) + (if total > 0 && monthlyOk then total else 0)
              && monthlyRows.rows == Incremented(old(monthlyRows.rows), month, s.usage, total > 0 && monthRowOk)
              && dailyRows.rows == Incremented(old(dailyRows.rows), day, s.usage, total > 0 && dayRowOk)
    {
      var actualTotal := 0;
      if s.usage.Some? && s.window.Some? {
        actualTotal := s.usage.value.0 + s.usage.value.1;
        var delta := actualTotal - s.estimate;
        if delta != 0 && redisOk {
          counters := Add(counters, s.window.value, delta, now);
        }
      }
      if actualTotal > 0 && monthlyOk {
        monthly := monthly + actualTotal;
      }
      if s.usage.Some? && actualTotal > 0 {
        var a := Amount(1, s.usage.value.0, s.usage.value.1);
        if monthRowOk {
          monthlyRows.Increment(month, a);
        }
        if dayRowOk {
          dailyRows.Increment(day, a);
        }
      }
    }
  }

  // ------------------------------------------------- many requests, one clock

  /** A request by what has happened to it. `charged` says whether its estimate
      reached the counter: it did not if the charge failed on a Redis error that
      kept it from running, though the estimate is stashed all the same. */
  datatype Request =
    | Denied
    | Admitted(window: int, estimate: int, charged: bool)
    | TruedUp(window: int, estimate: int, charged: bool, actual: int, applied: bool)

  /** `wiped` holds, per window, what its requests had contributed when its key
      last expired. */
  datatype State = State(now: nat, counters: map<int, Counter>, requests: seq<Request>, wiped: map<int, int>)

  datatype Action =
    | Charge(window: int, estimate: int, limit: int)
    | ChargeError(window: int, estimate: int, limit: int, executed: bool)
    | TrueUp(id: nat, actual: int)
    | TrueUpError(id: nat, actual: int, executed: bool)
    | Tick(seconds: nat)

  const START := State(0, map[], [], map[])

  /** A window id is computed before the charge, so it may be past but not to
      come. A request is trued up once, after it was admitted. */
  predicate Enabled(s: State, a: Action) {
    match a
    case Charge(w, _, _) => w * WINDOW <= s.now
    case ChargeError(w, _, _, _) => w * WINDOW <= s.now
    case TrueUp(id, _) => id < |s.requests| && s.requests[id].Admitted?
    case TrueUpError(id, _, _) => id < |s.requests| && s.requests[id].Admitted?
    case Tick(_) => true
  }

  function Move(counters: map<int, Counter>, r: Request, actual: int, now: int): map<int, Counter>
    requires r.Admitted?
  {
    if actual == r.estimate then counters else Add(counters, r.window, actual - r.estimate, now)
  }

  function Wiped(s: State, w: int): int {
    if w in s.wiped then s.wiped[w] else 0
  }

  function Expired(s: State, now: int): set<int> {
    set w | w in s.counters && s.counters[w].expiresAt <= now
  }

  function Apply(s: State, a: Action): State
    requires Enabled(s, a)
  {
    match a
    case Charge(w, est, limit) =>
      if Fits(s.counters, w, est, limit)
      then s.(counters := Add(s.counters, w, est, s.now), requests := s.requests + [Admitted(w, est, true)])
      else s.(requests := s.requests + [Denied])
    case ChargeError(w, est, limit, executed) =>
      var charged := executed && Fits(s.counters, w, est, limit);
      s.(counters := if charged then Add(s.counters, w, est, s.now) else s.counters,
         requests := s.requests + [Admitted(w, est, charged)])
    case TrueUp(id, actual) =>
      var r := s.requests[id];
      s.(counters := Move(s.counters, r, actual, s.now),
         requests := s.requests[id := TruedUp(r.window, r.estimate, r.charged, actual, true)])
    case TrueUpError(id, actual, executed) =>
      var r := s.requests[id];
      s.(counters := if executed then Move(s.counters, r, actual, s.now) else s.counters,
         requests := s.requests[id := TruedUp(r.window, r.estimate, r.charged, actual, executed)])
    case Tick(seconds) =>
      var now := s.now + seconds;
      var gone := Expired(s, now);
      s.(now := now, counters := s.counters - gone, wiped := map w | w in s.wiped.Keys + gone ::
           if w in gone then Sum(s.requests, w) else s.wiped[w])
  }

  /** What one request has put into the counter of window `w`. */
  function Contribution(r: Request, w: int): int {
    match r
    case Denied => 0
    case Admitted(w', est, charged) => if w' == w && charged then est else 0
    case TruedUp(w', est, charged, actual, applied) =>
      if w' != w then 0 else (if charged then est else 0) + (if applied then actual - est else 0)
  }

  function Sum(requests: seq<Request>, w: int): int {
    if requests == [] then 0
    else Sum(requests[..|requests| - 1], w) + Contribution(requests[|requests| - 1], w)
  }

  ghost predicate IsRun(states: seq<State>, actions: seq<Action>) {
    && |states| == |actions| + 1 && states[0] == START
    && forall i :: 0 <= i < |actions| ==>
         Enabled(states[i], actions[i]) && states[i + 1] == Apply(states[i], actions[i])
  }

  ghost predicate Conserved(s: State) {
    forall w :: Current(s.counters, w) == Sum(s.requests, w) - Wiped(s, w)
  }

  /** Keys outlive their window: none expires before a minute after its end, and
      nothing is ever wiped before. */
  ghost predicate Outlives(s: State) {
    && (forall w :: w in s.counters ==> s.counters[w].expiresAt >= w * WINDOW + KEY_TTL)
    && (forall w :: w in s.wiped ==> s.now >= w * WINDOW + KEY_TTL)
    && (forall i :: 0 <= i < |s.requests| && !s.requests[i].Denied? ==> s.requests[i].window * WINDOW <= s.now)
  }

  lemma SumAppend(requests: seq<Request>, r: Request, w: int)
    ensures Sum(requests + [r], w) == Sum(requests, w) + Contribution(r, w)
  {
    assert (requests + [r])[..|requests|] == requests;
  }

  lemma {:induction false} SumUpdate(requests: seq<Request>, id: nat, r: Request, w: int)
    requires id < |requests|
    ensures Sum(requests[id := r], w) == Sum(requests, w) - Contribution(requests[id], w) + Contribution(r, w)
    decreases |requests|
  {
    var n := |requests| - 1;
    if id == n {
      assert requests[id := r][..n] == requests[..n];
    } else {
      assert requests[id := r][..n] == requests[..n][id := r];
      SumUpdate(requests[..n], id, r, w);
    }
  }

  lemma StepConservesAt(s: State, a: Action, w: int)
    requires Enabled(s, a) && Current(s.counters, w) == Sum(s.requests, w) - Wiped(s, w)
    ensures var t := Apply(s, a); Current(t.counters, w) == Sum(t.requests, w) - Wiped(t, w)
  {
    hide Sum;
    var t := Apply(s, a);
    match a
    case Charge(_, _, _) => SumAppend(s.requests, t.requests[|s.requests|], w);
    case ChargeError(_, _, _, _) => SumAppend(s.requests, t.requests[|s.requests|], w);
    case TrueUp(id, _) => SumUpdate(s.requests, id, t.requests[id], w);
    case TrueUpError(id, _, _) => SumUpdate(s.requests, id, t.requests[id], w);
    case Tick(_) => assert w in t.counters <==> w in s.counters && w !in Expired(s, t.now);
  }

  lemma StepConserves(s: State, a: Action)
    requires Conserved(s) && Enabled(s, a)
    ensures Conserved(Apply(s, a))
  {
    hide Sum, Apply, Current, Wiped;
    forall w
      ensures Current(Apply(s, a).counters, w) == Sum(Apply(s, a).requests, w) - Wiped(Apply(s, a), w)
    {
      assert Current(s.counters, w) == Sum(s.requests, w) - Wiped(s, w);
      StepConservesAt(s, a, w);
    }
  }

  lemma StepOutlives(s: State, a: Action)
    requires Outlives(s) && Enabled(s, a)
    ensures Outlives(Apply(s, a))
  {}

  /** Conservation, for any interleaving of charges, true-ups, Redis errors and
      expiries: in every state and for every window, the counter is the sum of
      what the requests contributed, less what an expiry wiped, and none has been
      wiped before a minute has passed since the end of the window. */
  lemma {:induction false} CountersConserved(states: seq<State>, actions: seq<Action>)
    requires IsRun(states, actions)
    ensures forall i :: 0 <= i < |states| ==> Conserved(states[i]) && Outlives(states[i])
  {
    if actions != [] {
      var n := |actions| - 1;
      var before, did := states[..n + 1], actions[..n];
      forall i | 0 <= i < n
        ensures Enabled(before[i], did[i]) && before[i + 1] == Apply(before[i], did[i])
      {
        assert before[i] == states[i] && before[i + 1] == states[i + 1] && did[i] == actions[i];
      }
      CountersConserved(before, did);
      assert before[n] == states[n];
      StepConserves(states[n], actions[n]);
      StepOutlives(states[n], actions[n]);
      forall i | 0 <= i < |states|
        ensures Conserved(states[i]) && Outlives(states[i])
      {
        if i < n + 1 {
          assert before[i] == states[i];
        }
      }
    }
  }

  /** What the counter of a window is meant to hold: the tokens actually used by
      requests trued up, and the estimates of those that are not yet. */
  function Meant(requests: seq<Request>, w: int): int {
    if requests == [] then 0 else
    Meant(requests[..|requests| - 1], w) +
    (match requests[|requests| - 1]
     case Denied => 0
     case Admitted(w', est, _) => if w' == w then est else 0
     case TruedUp(w', _, _, actual, _) => if w' == w then actual else 0)
  }

  /** By how much one request makes the counter differ from what is meant: its
      estimate if the charge never ran, its correction if the true-up never
      did. */
  function Drift(r: Request, w: int): int {
    match r
    case Denied => 0
    case Admitted(w', est, charged) => if w' == w && !charged then -est else 0
    case TruedUp(w', est, charged, actual, applied) =>
      if w' != w then 0 else (if charged then 0 else -est) + (if applied then 0 else est - actual)
  }

  function DriftSum(requests: seq<Request>, w: int): int {
    if requests == [] then 0
    else DriftSum(requests[..|requests| - 1], w) + Drift(requests[|requests| - 1], w)
  }

  lemma {:induction false} SumIsMeantPlusDrift(requests: seq<Request>, w: int)
    ensures Sum(requests, w) == Meant(requests, w) + DriftSum(requests, w)
    decreases |requests|
  {
    if requests != [] {
      SumIsMeantPlusDrift(requests[..|requests| - 1], w);
    }
  }

  /** The counter of a window holds exactly what it is meant to hold if and only if
      the drifts of its requests add up to what an expiry wiped, which is nothing up to
      a minute after the window's end. There is no drift when no charge and no true-up
      was lost. So once every charged request has been trued up, even after the window
      rolled over, the counter is the sum of the tokens actually used. */
  lemma CounterMeansTokens(states: seq<State>, actions: seq<Action>, i: nat, w: int)
    requires IsRun(states, actions) && i < |states|
    ensures Current(states[i].counters, w) == Meant(states[i].requests, w) <==>
            DriftSum(states[i].requests, w) == Wiped(states[i], w)
    ensures states[i].now < w * WINDOW + KEY_TTL ==> Wiped(states[i], w) == 0
    ensures (forall k :: 0 <= k < |states[i].requests| ==>
                           match states[i].requests[k]
                           case Denied => true
                           case Admitted(w', _, charged) => w' == w ==> charged
                           case TruedUp(w', _, charged, _, applied) => w' == w ==> charged && applied)
            ==> DriftSum(states[i].requests, w) == 0
  {
    CountersConserved(states, actions);
    var s := states[i];
    SumIsMeantPlusDrift(s.requests, w);
    assert Current(s.counters, w) == Sum(s.requests, w) - Wiped(s, w);
    if forall k :: 0 <= k < |s.requests| ==> Drift(s.requests[k], w) == 0 {
      NoDrift(s.requests, w);
    }
  }

  /** A charge that fails open and never runs, trued up afterwards: the counter lacks
      the estimate, and ends below zero if less was used. */
  lemma FailOpenDrifts(estimate: nat, used: nat)
    ensures exists states: seq<State>, actions: seq<Action> ::
              && IsRun(states, actions)
              && actions == [ChargeError(0, estimate, estimate, false), TrueUp(0, used)]
              && Meant(states[2].requests, 0) == used
              && Current(states[2].counters, 0) == used - estimate
  {
    var a0, a1 := ChargeError(0, estimate, estimate, false), TrueUp(0, used);
    var s1 := Apply(START, a0);
    assert s1.requests == [Admitted(0, estimate, false)];
    var s2 := Apply(s1, a1);
    assert s2.requests == [TruedUp(0, estimate, false, used, true)];
    assert s2.requests[..0] == [];
    var states, actions := [START, s1, s2], [a0, a1];
    assert IsRun(states, actions);
    assert Meant(states[2].requests, 0) == used;
  }

  lemma {:induction false} NoDrift(requests: seq<Request>, w: int)
    requires forall k :: 0 <= k < |requests| ==> Drift(requests[k], w) == 0
    ensures DriftSum(requests, w) == 0
  {
    if requests != [] {
      NoDrift(requests[..|requests| - 1], w);
    }
  }

  /** Who is charged, at any time in any run: a charge is accepted exactly if what the
      requests of its window contributed, less what an expiry wiped, leaves room for it.
      A denied one charges nothing. */
  lemma ChargedIff(states: seq<State>, actions: seq<Action>, i: nat)
    requires IsRun(states, actions) && i < |actions| && actions[i].Charge?
    ensures var s, t, w := states[i], states[i + 1], actions[i].window;
            && |t.requests| == |s.requests| + 1
            && (t.requests[|s.requests|].Admitted? <==>
                  Sum(s.requests, w) - Wiped(s, w) + actions[i].estimate <= actions[i].limit)
            && (t.requests[|s.requests|].Admitted? ==> Sum(t.requests, w) - Wiped(t, w) <= actions[i].limit)
            && (t.requests[|s.requests|].Admitted? <==> !t.requests[|s.requests|].Denied?)
            && (t.requests[|s.requests|].Denied? ==> t.counters == s.counters)
  {
    CountersConserved(states, actions);
    assert Conserved(states[i]);
    assert Enabled(states[i], actions[i]) && states[i + 1] == Apply(states[i], actions[i]);
    SumAppend(states[i].requests, states[i + 1].requests[|states[i].requests|], actions[i].window);
  }
}
