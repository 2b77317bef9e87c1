/** The concurrent-request counter of one API key
    (`src/gateway/middleware/rate_limit.py`,
    `src/infra/redis_lua/concurrent_check.lua`). Times are milliseconds. */
module ConcurrencySlots {
  import opened PyText

  const TTL := 60000

  // ---------------------------------------------------------------- the key

  /** A Redis integer key. */
  datatype Entry = Absent | Present(value: int, expiresAt: Option<int>)

  function Value(e: Entry): int {
    if e.Present? then e.value else 0
  }

  function Incr(e: Entry): Entry {
    if e.Present? then e.(value := e.value + 1) else Present(1, None)
  }

  function Decr(e: Entry): Entry {
    if e.Present? then e.(value := e.value - 1) else Present(-1, None)
  }

  function PExpire(e: Entry, at: int): Entry {
    if e.Present? then e.(expiresAt := Some(at)) else e
  }

  /** What is left of the key at time `now`. */
  function Live(e: Entry, now: int): Entry {
    if e.Present? && e.expiresAt.Some? && e.expiresAt.value <= now then Absent else e
  }

  /** The key after the check script: counted if the limit allows it, else as it
      was, and in both cases alive for another `TTL`. */
  function Checked(e: Entry, limit: int, now: int): Entry {
    Present(if Value(e) + 1 > limit then Value(e) else Value(e) + 1, Some(now + TTL))
  }

  /** The script's reply; the middleware lets the request in when it is not 0. */
  function Reply(e: Entry, limit: int): int {
    if Value(e) + 1 > limit then 0 else Value(e) + 1
  }

  /** The key as Redis holds it. */
  class RedisKey {
    var entry: Entry

    /** `concurrent_check.lua` */
    method ConcurrentCheck(limit: int, now: int) returns (reply: int)
      modifies this
      ensures entry == Checked(old(entry), limit, now) && reply == Reply(old(entry), limit)
      ensures entry.Present? && entry.expiresAt == Some(now + 60000)
      ensures var count := if old(entry).Present? then old(entry).value else 0;
              if count < limit then entry.value == reply == count + 1 else entry.value == count && reply == 0
    {
      entry := Incr(entry);
      var v := entry.value;
      entry := PExpire(entry, now + TTL);
      if v > limit {
        entry := Decr(entry);
        return 0;
      }
      return v;
    }
  }

  /** How a counter operation goes: answered, failing with a Redis error, or
      interrupted because the request's task is cancelled. The last two leave open
      whether Redis ran it. */
  datatype Outcome = Fine | Fails(executed: bool) | Interrupted(executed: bool)

  /** How the part of a request between the two counter operations goes. */
  datatype Middle = BodyTooLarge | RpmDenied | TpmDenied | AppReturns | AppRaises

  datatype Exit = Rejected(status: int) | Served | ExceptionOut

  /** One request of `RateLimitMiddleware.__call__`, alone on a key that does not
      lapse meanwhile. It gives back what it took on every way out, unless an error or
      a cancellation hid an increment that ran or kept a decrement from running. */
  method Call(key: RedisKey, limit: int, now: int, acquire: Outcome, middle: Middle, release: Outcome)
    returns (exit: Exit)
    modifies key
    ensures var counted := Value(old(key.entry)) + 1 <= limit;
            Value(key.entry) - Value(old(key.entry)) ==
            match acquire
            case Fails(executed) => if executed && counted then 1 else 0
            case Interrupted(executed) => if executed && counted then 1 else 0
            case Fine =>
              if !counted then 0
              else if Reply(old(key.entry), limit) == 0 then 1
              else if release != Fine && !release.executed then 1
              else 0
    ensures acquire.Fine? && Reply(old(key.entry), limit) == 0 ==> exit == Rejected(429)
    ensures acquire.Interrupted? ==> exit == ExceptionOut
    ensures acquire.Fails? || (acquire.Fine? && Reply(old(key.entry), limit) != 0) ==>
              exit == if acquire.Fine? && release.Interrupted? then ExceptionOut
                      else match middle
                           case BodyTooLarge => Rejected(413)
                           case RpmDenied => Rejected(429)
                           case TpmDenied => Rejected(429)
                           case AppReturns => Served
                           case AppRaises => ExceptionOut
  {
    var incrSucceeded := false;
    var ok := true;
    match acquire {
      case Fine =>
        var reply := key.ConcurrentCheck(limit, now);
        ok := reply != 0;
        incrSucceeded := true;
        if !ok {
          return Rejected(429);
        }
      case Fails(executed) =>
        if executed {
          var _ := key.ConcurrentCheck(limit, now);
        }
      case Interrupted(executed) =>
        if executed {
          var _ := key.ConcurrentCheck(limit, now);
        }
        return ExceptionOut;
    }
    match middle {
      case BodyTooLarge => exit := Rejected(413);
      case RpmDenied => exit := Rejected(429);
      case TpmDenied => exit := Rejected(429);
      case AppReturns => exit := Served;
      case AppRaises => exit := ExceptionOut;
    }
    if ok && incrSucceeded {
      if release == Fine || release.executed {
        key.entry := Decr(key.entry);
      }
      if release.Interrupted? {
        exit := ExceptionOut;
      }
    }
  }

  // ------------------------------------------------- many requests, one clock

  datatype Phase = Holding(refreshedAt: int) | Uncounted | Left

  /** All requests seen so far and the key they share. Since the key last lapsed,
      `leaks` counts increments without a holder and decrements that were lost;
      `wiped` counts the slots that were held when it lapsed. */
  datatype State = State(now: int, entry: Entry, requests: map<nat, Phase>, leaks: nat, wiped: nat)

  /** One atomic step. An error or a cancellation leaves open whether Redis ran the
      command. A request whose task is cancelled while it acquires leaves without a
      release; one cancelled while it releases is as one whose release fails. */
  datatype Action =
    | Acquire(id: nat, limit: int)
    | AcquireError(id: nat, limit: int, executed: bool)
    | AcquireCancelled(id: nat, limit: int, executed: bool)
    | Refresh(id: nat, executed: bool)
    | Release(id: nat)
    | ReleaseError(id: nat, executed: bool)
    | Tick(ms: nat)

  const START := State(0, Absent, map[], 0, 0)

  function Holders(requests: map<nat, Phase>): set<nat> {
    set id | id in requests && requests[id].Holding?
  }

  predicate Enabled(s: State, a: Action) {
    match a
    case Acquire(id, _) => id !in s.requests
    case AcquireError(id, _, _) => id !in s.requests
    case AcquireCancelled(id, _, _) => id !in s.requests
    case Refresh(id, _) => id in s.requests && !s.requests[id].Left?
    case Release(id) => id in s.requests && !s.requests[id].Left?
    case ReleaseError(id, _) => id in s.requests && s.requests[id].Holding?
    case Tick(_) => true
  }

  function Apply(s: State, a: Action): State
    requires Enabled(s, a)
  {
    match a
    case Acquire(id, limit) =>
      var reply := Reply(s.entry, limit);
      var counted := Value(s.entry) + 1 <= limit;
      s.(entry := Checked(s.entry, limit, s.now),
         requests := s.requests[id := if reply != 0 then Holding(s.now) else Left],
         leaks := s.leaks + (if counted && reply == 0 then 1 else 0))
    case AcquireError(id, limit, executed) =>
      var counted := executed && Value(s.entry) + 1 <= limit;
      s.(entry := if executed then Checked(s.entry, limit, s.now) else s.entry,
         requests := s.requests[id := Uncounted],
         leaks := s.leaks + (if counted then 1 else 0))
    case AcquireCancelled(id, limit, executed) =>
      var counted := executed && Value(s.entry) + 1 <= limit;
      s.(entry := if executed then Checked(s.entry, limit, s.now) else s.entry,
         requests := s.requests[id := Left],
         leaks := s.leaks + (if counted then 1 else 0))
    case Refresh(id, executed) =>
      if !executed then s else
      s.(entry := PExpire(s.entry, s.now + TTL),
         requests := if s.requests[id].Holding? then s.requests[id := Holding(s.now)] else s.requests)
    case Release(id) =>
      s.(entry := if s.requests[id].Holding? then Decr(s.entry) else s.entry,
         requests := s.requests[id := Left])
    case ReleaseError(id, executed) =>
      s.(entry := if executed then Decr(s.entry) else s.entry,
         requests := s.requests[id := Left],
         leaks := s.leaks + (if executed then 0 else 1))
    case Tick(ms) =>
      var now := s.now + ms;
      if s.entry.Present? && Live(s.entry, now).Absent?
      then s.(now := now, entry := Absent, leaks := 0, wiped := |Holders(s.requests)|)
      else s.(now := now)
  }

  /** The states of a run in order, for any interleaving of the requests. */
  ghost predicate IsRun(states: seq<State>, actions: seq<Action>) {
    && |states| == |actions| + 1 && states[0] == START
    && forall i :: 0 <= i < |actions| ==>
         Enabled(states[i], actions[i]) && states[i + 1] == Apply(states[i], actions[i])
  }

  // ------------------------------------------------- conservation, on every run

  predicate Balanced(s: State) {
    Value(s.entry) == |Holders(s.requests)| + s.leaks - s.wiped
  }

  lemma HoldersAfter(requests: map<nat, Phase>, id: nat, p: Phase)
    ensures Holders(requests[id := p])
            == (if p.Holding? then Holders(requests) + {id} else Holders(requests) - {id})
    ensures |Holders(requests) + {id}| == |Holders(requests)| + (if id in Holders(requests) then 0 else 1)
    ensures |Holders(requests) - {id}| == |Holders(requests)| - (if id in Holders(requests) then 1 else 0)
  {
    var h := Holders(requests);
    if id in h {
      assert h + {id} == h;
      assert h == (h - {id}) + {id};
    } else {
      assert h - {id} == h;
    }
  }

  lemma StepBalances(s: State, a: Action)
    requires Balanced(s) && Enabled(s, a)
    ensures Balanced(Apply(s, a))
  {
    if !a.Tick? {
      HoldersAfter(s.requests, a.id, Holding(s.now));
      HoldersAfter(s.requests, a.id, Left);
      HoldersAfter(s.requests, a.id, Uncounted);
    }
  }

  /** Whatever goes wrong and however the requests interleave, the counter is the
      number of slots held, plus the leaks, minus the slots a lapse wiped. */
  lemma {:induction false} CounterConserved(states: seq<State>, actions: seq<Action>)
    requires IsRun(states, actions)
    ensures forall i :: 0 <= i < |states| ==> Balanced(states[i])
  {
    hide Apply, Enabled;
    if actions != [] {
      var n := |actions| - 1;
      ShorterRun(states, actions);
      CounterConserved(states[..n + 1], actions[..n]);
      assert states[..n + 1][n] == states[n];
      StepBalances(states[n], actions[n]);
      forall i | 0 <= i < |states|
        ensures Balanced(states[i])
      {
        if i < n + 1 {
          assert states[..n + 1][i] == states[i];
        }
      }
    } else {
      assert Holders(START.requests) == {};
    }
  }

  lemma ShorterRun(states: seq<State>, actions: seq<Action>)
    requires IsRun(states, actions) && actions != []
    ensures IsRun(states[..|actions|], actions[..|actions| - 1])
  {
    hide Apply, Enabled;
    var before, did := states[..|actions|], actions[..|actions| - 1];
    forall i | 0 <= i < |did|
      ensures Enabled(before[i], did[i]) && before[i + 1] == Apply(before[i], did[i])
    {
      assert before[i] == states[i] && before[i + 1] == states[i + 1] && did[i] == actions[i];
    }
  }

  // ------------------------------------------------- with refreshes in time

  /** Time never runs on to a minute after a holder's last refresh. */
  predicate InTime(s: State, a: Action) {
    a.Tick? ==> forall id :: id in s.requests && s.requests[id].Holding? ==>
                               s.now + a.ms < s.requests[id].refreshedAt + TTL
  }

  /** While a slot is held the key lives longer than every holder's next due
      refresh, and no slot was ever wiped. */
  predicate Kept(s: State) {
    && s.wiped == 0
    && (s.entry.Present? ==> s.entry.expiresAt.Some? && s.now < s.entry.expiresAt.value <= s.now + TTL)
    && (forall id :: id in s.requests && s.requests[id].Holding? ==>
                       && s.requests[id].refreshedAt <= s.now
                       && s.entry.Present? && s.entry.expiresAt.Some?
                       && s.requests[id].refreshedAt + TTL <= s.entry.expiresAt.value)
  }

  lemma StepKeeps(s: State, a: Action)
    requires Balanced(s) && Kept(s) && Enabled(s, a) && InTime(s, a)
    ensures Kept(Apply(s, a))
  {
    if a.Tick? && s.entry.Present? && Live(s.entry, s.now + a.ms).Absent? {
      assert Holders(s.requests) == {};
    }
  }

  ghost predicate TimelyRun(states: seq<State>, actions: seq<Action>) {
    IsRun(states, actions) && forall i :: 0 <= i < |actions| ==> InTime(states[i], actions[i])
  }

  lemma ShorterTimelyRun(states: seq<State>, actions: seq<Action>)
    requires TimelyRun(states, actions) && actions != []
    ensures TimelyRun(states[..|actions|], actions[..|actions| - 1])
  {
    ShorterRun(states, actions);
    var before, did := states[..|actions|], actions[..|actions| - 1];
    forall i | 0 <= i < |did| ensures InTime(before[i], did[i]) {
      assert before[i] == states[i] && did[i] == actions[i];
    }
  }

  lemma {:induction false} TimelyRunKeeps(states: seq<State>, actions: seq<Action>)
    requires TimelyRun(states, actions)
    ensures forall i :: 0 <= i < |states| ==> Balanced(states[i]) && Kept(states[i])
  {
    CounterConserved(states, actions);
    if actions != [] {
      var n := |actions| - 1;
      var before, did := states[..n + 1], actions[..n];
      ShorterTimelyRun(states, actions);
      TimelyRunKeeps(before, did);
      assert before[n] == states[n];
      StepKeeps(states[n], actions[n]);
      forall i | 0 <= i < |states|
        ensures Kept(states[i])
      {
        if i < n + 1 {
          assert before[i] == states[i];
        }
      }
    }
  }

  /** In a timely run the key never lapses while a slot is held, the counter is
      exactly holders plus leaks and so never negative, and a request is let in
      exactly when holders and leaks together are below its limit. */
  lemma TimelyRunIsExact(states: seq<State>, actions: seq<Action>)
    requires TimelyRun(states, actions)
    ensures forall i :: 0 <= i < |states| ==> Value(states[i].entry) == |Holders(states[i].requests)| + states[i].leaks
    ensures forall i :: 0 <= i < |states| && Holders(states[i].requests) != {} ==> states[i].entry.Present?
    ensures forall i :: 0 <= i < |actions| && actions[i].Acquire? ==>
                          (states[i + 1].requests[actions[i].id].Holding? <==>
                           |Holders(states[i].requests)| + states[i].leaks < actions[i].limit)
  {
    TimelyRunKeeps(states, actions);
    forall i | 0 <= i < |states| && Holders(states[i].requests) != {}
      ensures states[i].entry.Present?
    {
      var id :| id in Holders(states[i].requests);
    }
  }

  /** Who is let in, in any run at all: the count must be below the limit, and it
      must not be -1, since the increment then gives the 0 that stands for refusal. */
  lemma AdmittedIff(states: seq<State>, actions: seq<Action>, i: nat)
    requires IsRun(states, actions) && i < |actions| && actions[i].Acquire?
    ensures var count := |Holders(states[i].requests)| + states[i].leaks - states[i].wiped;
            && Value(states[i].entry) == count
            && actions[i].id in states[i + 1].requests
            && (states[i + 1].requests[actions[i].id].Holding? <==> count < actions[i].limit && count != -1)
  {
    CounterConserved(states, actions);
    assert Balanced(states[i]) && Enabled(states[i], actions[i]) && states[i + 1] == Apply(states[i], actions[i]);
  }

  /** So the cap holds in timely runs: if every request is checked against a limit of
      at most `cap`, no more than `cap` slots are ever held at once. In any run they
      are exceeded by no more than the slots wiped when the key last lapsed. */
  lemma {:induction false} CapHolds(states: seq<State>, actions: seq<Action>, cap: nat)
    requires IsRun(states, actions)
    requires forall i :: 0 <= i < |actions| && actions[i].Acquire? ==> actions[i].limit <= cap
    ensures forall i :: 0 <= i < |states| ==> |Holders(states[i].requests)| <= cap + states[i].wiped
    ensures TimelyRun(states, actions) ==> forall i :: 0 <= i < |states| ==> |Holders(states[i].requests)| <= cap
  {
    hide Apply, Enabled;
    CounterConserved(states, actions);
    if actions != [] {
      var n := |actions| - 1;
      var before, did := states[..n + 1], actions[..n];
      ShorterRun(states, actions);
      CapHolds(before, did, cap);
      assert before[n] == states[n];
      OneStepCap(states[n], actions[n], cap);
      forall i | 0 <= i < |states|
        ensures |Holders(states[i].requests)| <= cap + states[i].wiped
      {
        if i < n + 1 {
          assert before[i] == states[i];
        }
      }
    } else {
      assert Holders(START.requests) == {};
    }
    if TimelyRun(states, actions) {
      TimelyRunKeeps(states, actions);
      forall i | 0 <= i < |states|
        ensures |Holders(states[i].requests)| <= cap
      {
        assert Kept(states[i]);
      }
    }
  }

  lemma OneStepCap(s: State, a: Action, cap: nat)
    requires Enabled(s, a) && Balanced(s) && (a.Acquire? ==> a.limit <= cap)
    requires |Holders(s.requests)| <= cap + s.wiped
    ensures |Holders(Apply(s, a).requests)| <= cap + Apply(s, a).wiped
  {
    OneStepHolders(s, a);
  }

  /** Only an admitted request adds a holder. */
  lemma OneStepHolders(s: State, a: Action)
    requires Enabled(s, a)
    ensures var h, h' := |Holders(s.requests)|, |Holders(Apply(s, a).requests)|;
            h' <= h || (a.Acquire? && h' == h + 1 && Apply(s, a).requests[a.id].Holding?)
  {
    if !a.Tick? {
      HoldersAfter(s.requests, a.id, Holding(s.now));
      HoldersAfter(s.requests, a.id, Left);
      HoldersAfter(s.requests, a.id, Uncounted);
    }
  }

  /** A request let in on a Redis error never touches the counter again, in whatever
      run: neither its refreshes nor its leaving. */
  lemma {:induction false} UncountedNeverDecrements(states: seq<State>, actions: seq<Action>, i: nat, j: nat, id: nat)
    requires IsRun(states, actions) && i <= j < |states|
    requires id in states[i].requests && states[i].requests[id].Uncounted?
    ensures id in states[j].requests && !states[j].requests[id].Holding?
    ensures j < |actions| && !actions[j].Tick? && actions[j].id == id ==>
              Value(states[j + 1].entry) == Value(states[j].entry)
    decreases j - i
  {
    if i < j {
      UncountedNeverDecrements(states, actions, i, j - 1, id);
      assert Enabled(states[j - 1], actions[j - 1]) && states[j - 1 + 1] == Apply(states[j - 1], actions[j - 1]);
    }
    if j < |actions| {
      assert Enabled(states[j], actions[j]) && states[j + 1] == Apply(states[j], actions[j]);
    }
  }

  // ------------------------------------------------- how leaks heal

  /** The steps that renew the expiry of the key: every check, denied ones included,
      and every refresh of a key that is there. */
  predicate Touches(s: State, a: Action) {
    match a
    case Acquire(_, _) => true
    case AcquireError(_, _, executed) => executed
    case AcquireCancelled(_, _, executed) => executed
    case Refresh(_, executed) => executed && s.entry.Present?
    case _ => false
  }

  /** No touch among the first `n` steps is less than `TTL` ago at `now`. */
  predicate QuietFor(states: seq<State>, actions: seq<Action>, n: nat, now: int)
    requires n <= |actions| <= |states|
  {
    forall i :: 0 <= i < n && Touches(states[i], actions[i]) ==> states[i].now + TTL <= now
  }

  /** An expiry that is set is that of the last touch. */
  predicate ExpiresAfterTouches(states: seq<State>, actions: seq<Action>, n: nat)
    requires n <= |actions| < |states|
  {
    var e := states[n].entry;
    e.Present? && e.expiresAt.Some? ==>
      && QuietFor(states, actions, n, e.expiresAt.value)
      && exists i :: 0 <= i < n && Touches(states[i], actions[i]) && e.expiresAt.value == states[i].now + TTL
  }

  lemma OneStepExpiry(s: State, a: Action)
    requires Enabled(s, a)
    ensures var e := Apply(s, a).entry;
            && s.now <= Apply(s, a).now
            && (e.Present? && e.expiresAt.Some? ==>
                  if Touches(s, a) then e.expiresAt.value == s.now + TTL
                  else s.entry.Present? && e.expiresAt == s.entry.expiresAt)
  {}

  lemma {:induction false} TouchesSetExpiry(states: seq<State>, actions: seq<Action>, n: nat)
    requires IsRun(states, actions) && n <= |actions|
    ensures ExpiresAfterTouches(states, actions, n)
    ensures forall i :: 0 <= i < n ==> states[i].now <= states[n].now
  {
    hide Apply, Enabled, Touches;
    if n > 0 {
      TouchesSetExpiry(states, actions, n - 1);
      assert Enabled(states[n - 1], actions[n - 1]) && states[n - 1 + 1] == Apply(states[n - 1], actions[n - 1]);
      OneStepExpiry(states[n - 1], actions[n - 1]);
    } else {
      assert states[0] == START;
    }
  }

  /** Leaks go away only when the key lapses, which it does exactly when it has an
      expiry and nothing has touched it for `TTL`; then all are gone, and so is the
      count. In a timely run a key that is there always has an expiry. */
  lemma LeaksHealIff(states: seq<State>, actions: seq<Action>, k: nat)
    requires IsRun(states, actions) && k < |actions| && states[k].leaks > 0
    ensures states[k + 1].leaks < states[k].leaks <==>
              && actions[k].Tick? && states[k].entry.Present? && states[k].entry.expiresAt.Some?
              && QuietFor(states, actions, k, states[k + 1].now)
    ensures states[k + 1].leaks < states[k].leaks ==> states[k + 1].leaks == 0 && states[k + 1].entry.Absent?
    ensures TimelyRun(states, actions) && states[k].entry.Present? ==> states[k].entry.expiresAt.Some?
  {
    hide Touches;
    TouchesSetExpiry(states, actions, k);
    assert Enabled(states[k], actions[k]) && states[k + 1] == Apply(states[k], actions[k]);
    if TimelyRun(states, actions) {
      TimelyRunKeeps(states, actions);
      assert Kept(states[k]);
    }
  }

  predicate AllLeft(requests: map<nat, Phase>) {
    forall id :: id in requests ==> requests[id].Left?
  }

  lemma TimelyGrows(states: seq<State>, actions: seq<Action>, a: Action)
    returns (states': seq<State>, actions': seq<Action>)
    requires TimelyRun(states, actions) && Enabled(states[|actions|], a) && InTime(states[|actions|], a)
    ensures TimelyRun(states', actions')
    ensures states' == states + [Apply(states[|actions|], a)] && actions' == actions + [a]
  {
    hide Apply, Enabled, InTime;
    states', actions' := states + [Apply(states[|actions|], a)], actions + [a];
    forall i | 0 <= i < |actions'|
      ensures && Enabled(states'[i], actions'[i]) && states'[i + 1] == Apply(states'[i], actions'[i])
              && InTime(states'[i], actions'[i])
    {
      assert i < |actions| ==>
        states'[i] == states[i] && actions'[i] == actions[i] && states'[i + 1] == states[i + 1];
    }
  }

  predicate IdsUpTo(requests: map<nat, Phase>, n: nat) {
    forall id <- requests.Keys :: id <= n
  }

  function Elapsed(gaps: seq<nat>): nat {
    if gaps == [] then 0 else Elapsed(gaps[..|gaps| - 1]) + gaps[|gaps| - 1]
  }

  /** So one lost release under a limit of 1 can lock a key out for as long as clients
      go on trying: whenever the next request comes, if every gap is shorter than `TTL`
      all are refused, though nobody ever holds a slot again. */
  lemma {:induction false} LostReleaseLocksOut(gaps: seq<nat>) returns (states: seq<State>, actions: seq<Action>)
    requires forall k :: 0 <= k < |gaps| ==> gaps[k] < TTL
    ensures TimelyRun(states, actions) && |actions| == 2 * |gaps| + 2
    ensures actions[0] == Acquire(0, 1) && actions[1] == ReleaseError(0, false)
    ensures forall k :: 0 <= k < |gaps| ==>
              actions[2 * k + 2] == Tick(gaps[k]) && actions[2 * k + 3] == Acquire(k + 1, 1)
    ensures forall i :: 2 <= i < |states| ==> AllLeft(states[i].requests) && states[i].leaks == 1
    ensures states[2 * |gaps| + 2].now == Elapsed(gaps)
    ensures states[2 * |gaps| + 2].entry == Present(1, Some(Elapsed(gaps) + TTL)) && states[2 * |gaps| + 2].wiped == 0
    ensures IdsUpTo(states[2 * |gaps| + 2].requests, |gaps|)
  {
    hide TimelyRun;
    if gaps == [] {
      states, actions := [START], [];
      StartsTimely();
      states, actions := TimelyGrows(states, actions, Acquire(0, 1));
      states, actions := TimelyGrows(states, actions, ReleaseError(0, false));
    } else {
      var n := |gaps| - 1;
      states, actions := LostReleaseLocksOut(gaps[..n]);
      assert |states| == 2 * n + 3 by { StatesOf(states, actions); }
      states, actions := TimelyGrows(states, actions, Tick(gaps[n]));
      states, actions := TimelyGrows(states, actions, Acquire(n + 1, 1));
    }
  }

  lemma StartsTimely()
    ensures TimelyRun([START], [])
  {}

  lemma StatesOf(states: seq<State>, actions: seq<Action>)
    requires TimelyRun(states, actions)
    ensures |states| == |actions| + 1
  {}

  // ------------------------------------------------- limits of 0

  /** In a timely run a limit of 0 admits nobody, whatever the limits of the other
      requests. In any run it admits exactly when the count has sunk to -2 or below,
      that is when a lapse wiped at least two slots more than are held or leaked. */
  lemma ZeroLimitAdmitsIff(states: seq<State>, actions: seq<Action>, i: nat)
    requires IsRun(states, actions) && i < |actions| && actions[i].Acquire? && actions[i].limit <= 0
    ensures actions[i].id in states[i + 1].requests
    ensures states[i + 1].requests[actions[i].id].Holding? <==>
              var excess := states[i].wiped - |Holders(states[i].requests)| - states[i].leaks;
              excess > -actions[i].limit && excess >= 2
    ensures TimelyRun(states, actions) ==> states[i + 1].requests[actions[i].id] == Left
  {
    AdmittedIff(states, actions, i);
    assert Enabled(states[i], actions[i]) && states[i + 1] == Apply(states[i], actions[i]);
    if TimelyRun(states, actions) {
      TimelyRunKeeps(states, actions);
      assert Kept(states[i]);
    }
  }

  // ------------------------------------------------- and without

  /** The bound is sharp. One refresh a minute late is enough to break both
      promises: under a cap of one, two slots are held at once, and once both are
      released the counter is negative. The next request is then denied although
      nobody holds a slot, because its count of 0 reads as a refusal. */
  lemma LateRefreshBreaksCap()
    ensures exists states: seq<State>, actions: seq<Action> ::
              && IsRun(states, actions) && |states| == 7
              && (forall i :: 0 <= i < |actions| && actions[i].Acquire? ==> actions[i].limit == 1)
              && |Holders(states[3].requests)| == 2
              && states[5].entry == Present(-1, Some(2 * TTL)) && Holders(states[5].requests) == {}
              && actions[5] == Acquire(2, 1) && 2 in states[6].requests && states[6].requests[2] == Left
  {
    var a0, a1, a2, a3, a4 := Acquire(0, 1), Tick(TTL), Acquire(1, 1), Release(0), Release(1);
    var s1 := Apply(START, a0);
    var s2 := Apply(s1, a1);
    var s3 := Apply(s2, a2);
    var s4 := Apply(s3, a3);
    var s5 := Apply(s4, a4);
    assert Holders(s3.requests) == {0, 1};
    assert Holders(s5.requests) == {};
    var a5 := Acquire(2, 1);
    var states, actions := [START, s1, s2, s3, s4, s5, Apply(s5, a5)], [a0, a1, a2, a3, a4, a5];
    assert IsRun(states, actions);
    assert states[3] == s3 && states[5] == s5;
  }

  /** Two slots wiped, then released: a request with a limit of 0 is let in. */
  lemma ZeroLimitAdmits()
    ensures exists states: seq<State>, actions: seq<Action> ::
              && IsRun(states, actions) && |actions| == 6 && actions[5] == Acquire(2, 0)
              && Value(states[5].entry) == -2
              && 2 in states[6].requests && states[6].requests[2].Holding?
  {
    var a0, a1, a2, a3, a4, a5 := Acquire(0, 5), Acquire(1, 5), Tick(TTL), Release(0), Release(1), Acquire(2, 0);
    var s1 := Apply(START, a0);
    var s2 := Apply(s1, a1);
    var s3 := Apply(s2, a2);
    assert s3.entry == Absent && s3.requests == map[0 := Holding(0), 1 := Holding(0)];
    var s4 := Apply(s3, a3);
    var s5 := Apply(s4, a4);
    assert s5.entry == Present(-2, None);
    var states, actions := [START, s1, s2, s3, s4, s5, Apply(s5, a5)], [a0, a1, a2, a3, a4, a5];
    assert IsRun(states, actions);
    assert 2 in states[6].requests && states[6].requests[2].Holding?;
  }
}
