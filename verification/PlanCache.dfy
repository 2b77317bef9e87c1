/** The cache of plan limits in one process (`src/db/crud/plans.py`), and what calls,
    reloads, updates and invalidations that overlap make of it (`update_tier` in
    `src/gateway/routes/admin_tiers.py`). The time to live is a parameter; database
    and process share one clock. Plan rows are never deleted. */
module PlanCache {
  import opened PyText

  datatype Limits = Limits(rpm: nat, tpm: nat, concurrent: nat, monthlyTokens: nat)

  type Tier = string
  type Plans = map<Tier, Limits>

  datatype Cached = Cached(limits: Limits, expiresAt: int)

  const FREE_LIMITS := Limits(20, 20_000, 2, 100_000)
  const FALLBACK_LIMITS: Plans := map[
    "free" := FREE_LIMITS,
    "pro" := Limits(200, 200_000, 10, 2_000_000),
    "enterprise" := Limits(2000, 2_000_000, 50, 20_000_000)]
  const VALID_TIERS := {"free", "pro", "ent", "enterprise"}

  function Fallback(tier: Tier): Limits {
    if tier in FALLBACK_LIMITS then FALLBACK_LIMITS[tier] else FREE_LIMITS
  }

  /** The limits that stand in, tier by tier. */
  lemma FallbackIs(tier: Tier)
    ensures Fallback("free") == Limits(20, 20_000, 2, 100_000)
    ensures Fallback("pro") == Limits(200, 200_000, 10, 2_000_000)
    ensures Fallback("enterprise") == Limits(2000, 2_000_000, 50, 20_000_000)
    ensures tier != "pro" && tier != "enterprise" ==> Fallback(tier) == Fallback("free")
  {}

  function Hit(cache: map<Tier, Cached>, tier: Tier, now: int): Option<Limits> {
    if tier in cache && cache[tier].expiresAt > now then Some(cache[tier].limits) else None
  }

  /** The cache after a reload: what the reload does not bring stays as it was. */
  function Filled(cache: map<Tier, Cached>, plans: Plans, expiresAt: int): map<Tier, Cached> {
    cache + map tier | tier in plans :: Cached(plans[tier], expiresAt)
  }

  function AfterReload(cache: map<Tier, Cached>, tier: Tier): Limits {
    if tier in cache then cache[tier].limits else Fallback(tier)
  }

  /** A result set as a table. */
  function PlansOf(rows: seq<(Tier, Limits)>): Plans {
    if rows == [] then map[] else PlansOf(rows[..|rows| - 1])[rows[|rows| - 1].0 := rows[|rows| - 1].1]
  }

  /** A reload replaces what it brings, with its expiry, and leaves the rest alone. */
  lemma FilledIs(cache: map<Tier, Cached>, plans: Plans, expiresAt: int, tier: Tier)
    ensures var after := Filled(cache, plans, expiresAt);
            && (tier in after <==> tier in cache || tier in plans)
            && (tier in plans ==> after[tier].limits == plans[tier] && after[tier].expiresAt == expiresAt)
            && (tier !in plans && tier in cache ==> after[tier] == cache[tier])
  {}

  /** A result set says of each tier what its last row says, and of no other tier. */
  lemma {:induction false} PlansOfIs(rows: seq<(Tier, Limits)>, i: nat)
    requires i < |rows|
    ensures rows[i].0 in PlansOf(rows)
    ensures (forall k :: i < k < |rows| ==> rows[k].0 != rows[i].0) ==> PlansOf(rows)[rows[i].0] == rows[i].1
    ensures forall tier :: tier in PlansOf(rows) ==> exists k :: 0 <= k < |rows| && rows[k].0 == tier
  {
    PlansOfTiers(rows);
    if i < |rows| - 1 {
      PlansOfIs(rows[..|rows| - 1], i);
    }
  }

  lemma {:induction false} PlansOfTiers(rows: seq<(Tier, Limits)>)
    ensures forall tier :: tier in PlansOf(rows) ==> exists k :: 0 <= k < |rows| && rows[k].0 == tier
  {
    if rows != [] {
      var n := |rows| - 1;
      var before := rows[..n];
      PlansOfTiers(before);
      forall tier | tier in PlansOf(rows) ensures exists k :: 0 <= k < |rows| && rows[k].0 == tier {
        if tier != rows[n].0 {
          assert tier in PlansOf(before);
          var k :| 0 <= k < |before| && before[k].0 == tier;
          assert rows[k].0 == tier;
        } else {
          assert rows[n].0 == tier;
        }
      }
    }
  }

  lemma FilledNone(cache: map<Tier, Cached>, expiresAt: int)
    ensures Filled(cache, PlansOf([]), expiresAt) == cache
  {}

  lemma FilledMore(cache: map<Tier, Cached>, rows: seq<(Tier, Limits)>, i: nat, expiresAt: int)
    requires i < |rows|
    ensures Filled(cache, PlansOf(rows[..i + 1]), expiresAt)
            == Filled(cache, PlansOf(rows[..i]), expiresAt)[rows[i].0 := Cached(rows[i].1, expiresAt)]
  {
    assert rows[..i + 1][..i] == rows[..i];
  }

  class PlansTable {
    var plans: Plans
  }

  class Process {
    var cache: map<Tier, Cached>

    /** The loop over the rows of a reload. */
    method Fill(rows: seq<(Tier, Limits)>, expiresAt: int)
      modifies this
      ensures cache == Filled(old(cache), PlansOf(rows), expiresAt)
    {
      hide Filled;
      FilledNone(cache, expiresAt);
      assert rows[..0] == [];
      for i := 0 to |rows|
        invariant cache == Filled(old(cache), PlansOf(rows[..i]), expiresAt)
      {
        FilledMore(old(cache), rows, i, expiresAt);
        cache := cache[rows[i].0 := Cached(rows[i].1, expiresAt)];
      }
      assert rows[..|rows|] == rows;
    }

    method InvalidateCache()
      modifies this
      ensures cache == map[]
    {
      cache := map[];
    }

    /** `get_limits` with nothing else going on. `rows` is what the query brings,
        unless it fails. */
    method GetLimits(tier: Tier, ttl: int, now: int, rows: Option<seq<(Tier, Limits)>>) returns (limits: Limits)
      modifies this
      ensures var hit := Hit(old(cache), tier, now);
              if hit.Some? then limits == hit.value && cache == old(cache)
              else if rows.None? then limits == Fallback(tier) && cache == old(cache)
              else cache == Filled(old(cache), PlansOf(rows.value), now + ttl) && limits == AfterReload(cache, tier)
    {
      var hit := Hit(cache, tier, now);
      if hit.Some? {
        return hit.value;
      }
      if rows.None? {
        return Fallback(tier);
      }
      Fill(rows.value, now + ttl);
      return AfterReload(cache, tier);
    }

    /** `update_tier`: refused for an unknown tier, else committed first and the whole
        cache dropped after. */
    method UpdateTier(table: PlansTable, tier: Tier, limits: Limits) returns (ok: bool)
      modifies this, table
      ensures ok <==> tier == "free" || tier == "pro" || tier == "ent" || tier == "enterprise"
      ensures ok ==> table.plans == old(table.plans)[tier := limits] && cache == map[]
      ensures !ok ==> table.plans == old(table.plans) && cache == old(cache)
    {
      if tier !in VALID_TIERS {
        return false;
      }
      table.plans := table.plans[tier := limits];
      InvalidateCache();
      ok := true;
    }
  }

  // -------------------------------------------------------- overlapping calls

  /** A committed state of the table and the moment of its commit. */
  datatype Version = Version(since: nat, plans: Plans)

  /** Which version a value was read from, and when. */
  datatype Origin = Origin(version: nat, readAt: nat)

  /** A call in its reload: the query not yet answered, or its rows read. */
  datatype Call =
    | Asking(tier: Tier, started: nat)
    | Holding(tier: Tier, started: nat, origin: Origin)
    | Done

  datatype Source = FromTable(origin: Origin) | QueryFailed | NoRow(origin: Origin)

  /** What a call returned, and the number of the reload if it made one. */
  datatype Answer = Answer(tier: Tier, started: nat, at: nat, limits: Limits, source: Source, reload: Option<nat>)

  /** `origins` records where the cached values come from; the code does not. */
  datatype State = State(now: nat, versions: seq<Version>, cache: map<Tier, Cached>, origins: map<Tier, Origin>,
                         calls: seq<Call>, answers: seq<Answer>)

  datatype Action =
    | Begin(tier: Tier)
    | Read(call: nat)
    | Fail(call: nat)
    | Return(call: nat)
    | Commit(tier: Tier, limits: Limits)
    | Invalidate
    | Tick(seconds: nat)

  predicate Enabled(s: State, a: Action) {
    && s.versions != []
    && s.origins.Keys == s.cache.Keys
    && match a
       case Read(i) => i < |s.calls| && s.calls[i].Asking?
       case Fail(i) => i < |s.calls| && s.calls[i].Asking?
       case Return(i) => i < |s.calls| && s.calls[i].Holding? && s.calls[i].origin.version < |s.versions|
       case _ => true
  }

  function Apply(s: State, a: Action, ttl: nat): State
    requires Enabled(s, a)
  {
    match a
    case Begin(tier) =>
      var hit := Hit(s.cache, tier, s.now);
      if hit.Some?
      then s.(answers := s.answers + [Answer(tier, s.now, s.now, hit.value, FromTable(s.origins[tier]), None)])
      else s.(calls := s.calls + [Asking(tier, s.now)])
    case Read(i) =>
      s.(calls := s.calls[i := Holding(s.calls[i].tier, s.calls[i].started, Origin(|s.versions| - 1, s.now))])
    case Fail(i) =>
      var c := s.calls[i];
      s.(calls := s.calls[i := Done],
         answers := s.answers + [Answer(c.tier, c.started, s.now, Fallback(c.tier), QueryFailed, Some(i))])
    case Return(i) => Returned(s, i, ttl)
    case Commit(tier, limits) =>
      s.(versions := s.versions + [Version(s.now, s.versions[|s.versions| - 1].plans[tier := limits])])
    case Invalidate => s.(cache := map[], origins := map[])
    case Tick(seconds) => s.(now := s.now + seconds)
  }

  /** The end of a reload: filling and answering without a pause. */
  function Returned(s: State, i: nat, ttl: nat): State
    requires Enabled(s, Return(i))
  {
    var c := s.calls[i];
    var plans := s.versions[c.origin.version].plans;
    var cache := Filled(s.cache, plans, c.started + ttl);
    var origins := s.origins + map tier | tier in plans :: c.origin;
    var source := if c.tier in cache then FromTable(origins[c.tier]) else NoRow(c.origin);
    s.(cache := cache, origins := origins, calls := s.calls[i := Done],
       answers := s.answers + [Answer(c.tier, c.started, s.now, AfterReload(cache, c.tier), source, Some(i))])
  }

  ghost predicate IsRun(states: seq<State>, actions: seq<Action>, ttl: nat) {
    && |states| == |actions| + 1
    && forall i :: 0 <= i < |actions| ==>
         Enabled(states[i], actions[i]) && states[i + 1] == Apply(states[i], actions[i], ttl)
  }

  predicate Starts(s: State) {
    && |s.versions| == 1 && s.versions[0].since <= s.now
    && s.cache == map[] && s.origins == map[] && s.calls == [] && s.answers == []
  }

  // ---------------------------------------------------------------- staleness

  /** The version was the table's state at that moment. */
  predicate InForce(s: State, o: Origin) {
    && o.version < |s.versions| && s.versions[o.version].since <= o.readAt <= s.now
    && (o.version + 1 < |s.versions| ==> o.readAt <= s.versions[o.version + 1].since)
  }

  predicate History(s: State) {
    && s.versions != []
    && (forall v :: 0 <= v < |s.versions| ==> s.versions[v].since <= s.now)
    && (forall v, w :: 0 <= v <= w < |s.versions| ==>
          s.versions[v].since <= s.versions[w].since && s.versions[v].plans.Keys <= s.versions[w].plans.Keys)
  }

  predicate EntryFits(s: State, tier: Tier, ttl: nat)
    requires tier in s.cache && tier in s.origins
  {
    var o := s.origins[tier];
    && InForce(s, o) && tier in s.versions[o.version].plans
    && s.cache[tier].limits == s.versions[o.version].plans[tier]
    && s.cache[tier].expiresAt <= o.readAt + ttl
  }

  predicate CallFits(s: State, c: Call) {
    && (c.Holding? ==> InForce(s, c.origin) && c.started <= c.origin.readAt)
    && (c.Asking? ==> c.started <= s.now)
  }

  /** The value was the row's at a moment within the time to live before the call, or
      during the call. The limits built in are returned only after a failed query, or
      when the row did not exist yet at a moment during the call. */
  predicate Bounded(s: State, a: Answer, ttl: nat) {
    match a.source
    case FromTable(o) =>
      && InForce(s, o) && a.tier in s.versions[o.version].plans && a.limits == s.versions[o.version].plans[a.tier]
      && o.readAt <= a.at && (a.started <= o.readAt || a.started < o.readAt + ttl)
    case NoRow(o) =>
      && InForce(s, o) && a.tier !in s.versions[o.version].plans && a.limits == Fallback(a.tier)
      && a.started <= o.readAt <= a.at
    case QueryFailed => a.limits == Fallback(a.tier)
  }

  predicate Inv(s: State, ttl: nat) {
    && History(s)
    && s.origins.Keys == s.cache.Keys
    && (forall tier :: tier in s.cache ==> EntryFits(s, tier, ttl))
    && (forall i :: 0 <= i < |s.calls| ==> CallFits(s, s.calls[i]))
    && (forall k :: 0 <= k < |s.answers| ==> Bounded(s, s.answers[k], ttl))
  }

  /** Facts about a moment stay true as the table moves on. */
  lemma InForceStays(s: State, t: State, o: Origin)
    requires InForce(s, o) && s.now <= t.now && History(s) && History(t)
    requires t.versions == s.versions ||
             (&& |t.versions| == |s.versions| + 1 && t.versions[..|s.versions|] == s.versions
              && t.versions[|s.versions|].since >= s.now)
    ensures InForce(t, o) && t.versions[o.version] == s.versions[o.version]
  {
    assert t.versions[o.version] == s.versions[o.version];
    assert o.version + 1 < |s.versions| ==> t.versions[o.version + 1] == s.versions[o.version + 1];
  }

  /** A row missing from a reload yet cached was read after the reload. */
  lemma LaterRow(s: State, o: Origin, later: Origin, tier: Tier)
    requires History(s) && InForce(s, o) && InForce(s, later)
    requires tier !in s.versions[o.version].plans && tier in s.versions[later.version].plans
    ensures o.version < later.version && o.readAt <= later.readAt
  {
    forall v | 0 <= v <= o.version ensures tier !in s.versions[v].plans {
      assert s.versions[v].plans.Keys <= s.versions[o.version].plans.Keys;
    }
    assert s.versions[o.version + 1].since <= s.versions[later.version].since;
  }

  predicate SameMoment(s: State, t: State) {
    t.versions == s.versions && t.now == s.now
  }

  lemma AnswersKept(s: State, t: State, ttl: nat)
    requires SameMoment(s, t) && |s.answers| <= |t.answers| <= |s.answers| + 1 && s.answers == t.answers[..|s.answers|]
    requires forall k :: 0 <= k < |s.answers| ==> Bounded(s, s.answers[k], ttl)
    requires |t.answers| > |s.answers| ==> Bounded(s, t.answers[|s.answers|], ttl)
    ensures forall k :: 0 <= k < |t.answers| ==> Bounded(t, t.answers[k], ttl)
  {
    forall k | 0 <= k < |t.answers| ensures Bounded(t, t.answers[k], ttl) {
      if k < |s.answers| {
        assert Bounded(s, s.answers[k], ttl) && t.answers[k] == s.answers[k];
      }
    }
  }

  lemma EntriesReturned(s: State, i: nat, ttl: nat)
    requires Inv(s, ttl) && Enabled(s, Return(i))
    ensures var t := Returned(s, i, ttl);
            t.origins.Keys == t.cache.Keys && forall tier :: tier in t.cache ==> EntryFits(t, tier, ttl)
  {
    var t := Returned(s, i, ttl);
    var c := s.calls[i];
    assert CallFits(s, c);
    forall tier | tier in t.cache ensures EntryFits(t, tier, ttl) {
      if tier !in s.versions[c.origin.version].plans {
        assert EntryFits(s, tier, ttl);
      }
    }
  }

  lemma ReturnBounded(s: State, i: nat, ttl: nat)
    requires Inv(s, ttl) && Enabled(s, Return(i))
    ensures Bounded(s, Returned(s, i, ttl).answers[|s.answers|], ttl)
  {
    var t := Returned(s, i, ttl);
    var c := s.calls[i];
    assert CallFits(s, c);
    EntriesReturned(s, i, ttl);
    if c.tier in t.cache {
      assert EntryFits(t, c.tier, ttl);
      if c.tier !in s.versions[c.origin.version].plans {
        LaterRow(s, c.origin, s.origins[c.tier], c.tier);
      }
    }
  }

  lemma ReturnKeepsInv(s: State, i: nat, ttl: nat)
    requires Inv(s, ttl) && Enabled(s, Return(i))
    ensures Inv(Returned(s, i, ttl), ttl)
  {
    hide Bounded, EntryFits, InForce;
    EntriesReturned(s, i, ttl);
    ReturnBounded(s, i, ttl);
    AnswersKept(s, Returned(s, i, ttl), ttl);
    CallsKept(s, Returned(s, i, ttl), i);
  }

  /** A call that has become another one. */
  lemma CallsKept(s: State, t: State, i: nat)
    requires SameMoment(s, t) && i < |s.calls| == |t.calls| && t.calls == s.calls[i := t.calls[i]]
    requires CallFits(s, t.calls[i])
    requires forall j :: 0 <= j < |s.calls| ==> CallFits(s, s.calls[j])
    requires !t.calls[i].Asking?
    ensures forall j :: 0 <= j < |t.calls| ==> CallFits(t, t.calls[j])
  {
    forall j | 0 <= j < |t.calls| ensures CallFits(t, t.calls[j]) {
      assert j != i ==> t.calls[j] == s.calls[j];
      assert CallFits(s, t.calls[j]);
    }
  }

  lemma TimeKeepsInv(s: State, a: Action, ttl: nat)
    requires Inv(s, ttl) && Enabled(s, a) && (a.Commit? || a.Tick?)
    ensures Inv(Apply(s, a, ttl), ttl)
  {
    hide InForce;
    var t := Apply(s, a, ttl);
    HistoryStays(s, a, ttl);
    forall tier | tier in t.cache ensures EntryFits(t, tier, ttl) {
      assert EntryFits(s, tier, ttl);
      InForceStays(s, t, s.origins[tier]);
    }
    forall j | 0 <= j < |t.calls| ensures CallFits(t, t.calls[j]) {
      if s.calls[j].Holding? {
        InForceStays(s, t, s.calls[j].origin);
      }
    }
    forall k | 0 <= k < |t.answers| ensures Bounded(t, t.answers[k], ttl) {
      assert Bounded(s, s.answers[k], ttl);
      if !s.answers[k].source.QueryFailed? {
        InForceStays(s, t, s.answers[k].source.origin);
      }
    }
  }

  lemma HistoryStays(s: State, a: Action, ttl: nat)
    requires History(s) && Enabled(s, a)
    ensures History(Apply(s, a, ttl))
  {}

  lemma BeginKeepsInv(s: State, tier: Tier, ttl: nat)
    requires Inv(s, ttl) && Enabled(s, Begin(tier))
    ensures Inv(Apply(s, Begin(tier), ttl), ttl)
  {
    hide Bounded, EntryFits, InForce;
    var t := Apply(s, Begin(tier), ttl);
    EntriesKept(s, t, ttl);
    if t.answers != s.answers {
      HitBounded(s, tier, ttl);
    }
    AnswersKept(s, t, ttl);
    forall j | 0 <= j < |s.calls| ensures CallFits(t, s.calls[j]) {
      SameCallFits(s, t, s.calls[j]);
    }
  }

  lemma SameCallFits(s: State, t: State, c: Call)
    requires SameMoment(s, t) && CallFits(s, c)
    ensures CallFits(t, c)
  {}

  lemma HitBounded(s: State, tier: Tier, ttl: nat)
    requires Inv(s, ttl) && Enabled(s, Begin(tier)) && Hit(s.cache, tier, s.now).Some?
    ensures Bounded(s, Apply(s, Begin(tier), ttl).answers[|s.answers|], ttl)
  {
    assert EntryFits(s, tier, ttl);
  }

  lemma EntriesKept(s: State, t: State, ttl: nat)
    requires SameMoment(s, t) && t.cache == s.cache && t.origins == s.origins && s.origins.Keys == s.cache.Keys
    requires forall tier :: tier in s.cache ==> EntryFits(s, tier, ttl)
    ensures forall tier :: tier in t.cache ==> EntryFits(t, tier, ttl)
  {
    forall tier | tier in t.cache ensures EntryFits(t, tier, ttl) {
      assert EntryFits(s, tier, ttl);
    }
  }

  lemma ReadKeepsInv(s: State, a: Action, ttl: nat)
    requires Inv(s, ttl) && Enabled(s, a) && (a.Read? || a.Fail?)
    ensures Inv(Apply(s, a, ttl), ttl)
  {
    hide EntryFits;
    var t := Apply(s, a, ttl);
    EntriesKept(s, t, ttl);
    AnswersKept(s, t, ttl);
    CallsKept(s, t, a.call);
  }

  lemma InvalidateKeepsInv(s: State, ttl: nat)
    requires Inv(s, ttl) && Enabled(s, Invalidate)
    ensures Inv(Apply(s, Invalidate, ttl), ttl)
  {
    hide Bounded, EntryFits, CallFits;
    var t := Apply(s, Invalidate, ttl);
    AnswersKept(s, t, ttl);
    forall j | 0 <= j < |s.calls| ensures CallFits(t, s.calls[j]) {
      SameCallFits(s, t, s.calls[j]);
    }
  }

  lemma AnyStepKeepsInv(s: State, a: Action, ttl: nat)
    requires Inv(s, ttl) && Enabled(s, a)
    ensures Inv(Apply(s, a, ttl), ttl)
  {
    hide Inv;
    if a.Return? {
      ReturnKeepsInv(s, a.call, ttl);
    } else if a.Commit? || a.Tick? {
      TimeKeepsInv(s, a, ttl);
    } else if a.Begin? {
      BeginKeepsInv(s, a.tier, ttl);
    } else if a.Invalidate? {
      InvalidateKeepsInv(s, ttl);
    } else {
      ReadKeepsInv(s, a, ttl);
    }
  }

  lemma {:induction false} RunKeepsInv(states: seq<State>, actions: seq<Action>, ttl: nat)
    requires IsRun(states, actions, ttl) && Inv(states[0], ttl)
    ensures forall i :: 0 <= i < |states| ==> Inv(states[i], ttl)
  {
    hide Apply, Enabled, Inv;
    if actions != [] {
      var n := |actions| - 1;
      Prefix(states, actions, ttl);
      RunKeepsInv(states[..n + 1], actions[..n], ttl);
      assert states[..n + 1][n] == states[n];
      AnyStepKeepsInv(states[n], actions[n], ttl);
      forall i | 0 <= i < |states| ensures Inv(states[i], ttl) {
        assert i <= n ==> states[..n + 1][i] == states[i];
      }
    }
  }

  lemma Prefix(states: seq<State>, actions: seq<Action>, ttl: nat)
    requires IsRun(states, actions, ttl) && actions != []
    ensures IsRun(states[..|actions|], actions[..|actions| - 1], ttl) && states[..|actions|][0] == states[0]
  {
    hide Apply, Enabled;
    var before, did := states[..|actions|], actions[..|actions| - 1];
    forall i | 0 <= i < |did| ensures Enabled(before[i], did[i]) && before[i + 1] == Apply(before[i], did[i], ttl) {
      assert before[i] == states[i] && did[i] == actions[i] && before[i + 1] == states[i + 1];
    }
  }

  /** However calls, reloads, commits and invalidations interleave, every answer is
      within bounds. */
  lemma StalenessBounded(states: seq<State>, actions: seq<Action>, ttl: nat)
    requires IsRun(states, actions, ttl) && Starts(states[0])
    ensures forall i, k :: 0 <= i < |states| && 0 <= k < |states[i].answers| ==>
              Bounded(states[i], states[i].answers[k], ttl)
  {
    RunKeepsInv(states, actions, ttl);
    forall i, k | 0 <= i < |states| && 0 <= k < |states[i].answers|
      ensures Bounded(states[i], states[i].answers[k], ttl)
    {
      assert Inv(states[i], ttl);
    }
  }

  // ---------------------------------------------- the effect of an update

  /** A version of the table says of a tier what the current one says, or is current. */
  predicate UpToDateVersion(s: State, v: nat, tier: Tier)
    requires s.versions != []
  {
    v >= |s.versions| - 1 ||
    (var before, now := s.versions[v].plans, s.versions[|s.versions| - 1].plans;
     tier in before && tier in now && before[tier] == now[tier])
  }

  /** A reload under way that has read other limits for the tier than the table holds
      now, and not so long ago that what it puts into the cache is dead on arrival. */
  predicate StaleReload(s: State, i: nat, tier: Tier, ttl: nat)
    requires i < |s.calls|
  {
    var c := s.calls[i];
    && c.Holding? && c.origin.version < |s.versions|
    && tier in s.versions[c.origin.version].plans && !UpToDateVersion(s, c.origin.version, tier)
    && s.now < c.started + ttl
  }

  /** An answer to a call that began after `base`. */
  predicate BegunAfter(base: State, k: nat, a: Answer) {
    k >= |base.answers| && (a.reload.None? || a.reload.value >= |base.calls|)
  }

  /** An answer is up to date with `base` when its limits are those of the version
      then current or of a later one. One whose own query failed is exempt. */
  predicate UpToDate(base: State, a: Answer)
    requires base.versions != []
  {
    !a.source.QueryFailed? ==> UpToDateVersion(base, a.source.origin.version, a.tier)
  }

  ghost predicate TakesEffect(base: State, tier: Tier, ttl: nat)
    requires base.versions != []
  {
    forall states, actions :: IsRun(states, actions, ttl) && states[0] == base ==> Effective(base, states, tier)
  }

  predicate Effective(base: State, states: seq<State>, tier: Tier)
    requires base.versions != []
  {
    forall i :: 0 <= i < |states| ==> AllUpToDate(base, states[i], tier)
  }

  predicate AllUpToDate(base: State, s: State, tier: Tier)
    requires base.versions != []
  {
    forall k :: 0 <= k < |s.answers| && BegunAfter(base, k, s.answers[k]) && s.answers[k].tier == tier ==>
                  UpToDate(base, s.answers[k])
  }

  /** What holds from the invalidation on when no stale reload was under way. */
  predicate Clean(base: State, s: State, tier: Tier, ttl: nat) {
    && |s.versions| >= |base.versions| > 0 && s.now >= base.now && |s.calls| >= |base.calls|
    && |s.answers| >= |base.answers|
    && s.versions[..|base.versions|] == base.versions
    && (tier in s.cache && tier in s.origins ==>
          UpToDateVersion(base, s.origins[tier].version, tier) || s.cache[tier].expiresAt <= base.now)
    && (forall i :: 0 <= i < |s.calls| ==> CleanCall(base, s.calls[i], i, tier, ttl))
    && AllUpToDate(base, s, tier)
  }

  predicate CleanCall(base: State, c: Call, i: nat, tier: Tier, ttl: nat)
    requires base.versions != []
  {
    c.Holding? && c.origin.version < |base.versions| - 1 ==>
      && i < |base.calls|
      && (tier in base.versions[c.origin.version].plans ==>
            UpToDateVersion(base, c.origin.version, tier) || c.started + ttl <= base.now)
  }

  lemma CleanStep(base: State, s: State, a: Action, tier: Tier, ttl: nat)
    requires Inv(s, ttl) && Clean(base, s, tier, ttl) && Enabled(s, a) && !a.Return?
    ensures Clean(base, Apply(s, a, ttl), tier, ttl)
  {
    hide History, EntryFits, Bounded, CallFits;
    var t := Apply(s, a, ttl);
    forall i | 0 <= i < |t.calls| ensures CleanCall(base, t.calls[i], i, tier, ttl) {
      if i < |s.calls| {
        assert CleanCall(base, s.calls[i], i, tier, ttl);
      }
    }
  }

  lemma CleanReturn(base: State, s: State, i: nat, tier: Tier, ttl: nat)
    requires Inv(s, ttl) && Clean(base, s, tier, ttl) && Enabled(s, Return(i))
    ensures Clean(base, Returned(s, i, ttl), tier, ttl)
  {
    hide Bounded, EntryFits, CallFits, History, InForce, CleanCall, UpToDate;
    var t := Returned(s, i, ttl);
    ReturnUpToDate(base, s, i, tier, ttl);
    CallsStayClean(base, s, t, i, tier, ttl);
    forall k | 0 <= k < |t.answers| && BegunAfter(base, k, t.answers[k]) && t.answers[k].tier == tier
      ensures UpToDate(base, t.answers[k])
    {
      assert k < |s.answers| ==> t.answers[k] == s.answers[k];
    }
  }

  lemma CallsStayClean(base: State, s: State, t: State, i: nat, tier: Tier, ttl: nat)
    requires base.versions != [] && i < |s.calls| && t.calls == s.calls[i := Done]
    requires forall j :: 0 <= j < |s.calls| ==> CleanCall(base, s.calls[j], j, tier, ttl)
    ensures forall j :: 0 <= j < |t.calls| ==> CleanCall(base, t.calls[j], j, tier, ttl)
  {
    forall j | 0 <= j < |t.calls| ensures CleanCall(base, t.calls[j], j, tier, ttl) {
      assert CleanCall(base, s.calls[j], j, tier, ttl);
    }
  }

  /** What a returning reload leaves in the cache and answers. */
  lemma ReturnUpToDate(base: State, s: State, i: nat, tier: Tier, ttl: nat)
    requires Inv(s, ttl) && Clean(base, s, tier, ttl) && Enabled(s, Return(i))
    ensures var t := Returned(s, i, ttl);
            && (tier in t.cache && tier in t.origins ==>
                  UpToDateVersion(base, t.origins[tier].version, tier) || t.cache[tier].expiresAt <= base.now)
            && (BegunAfter(base, |s.answers|, t.answers[|s.answers|]) && t.answers[|s.answers|].tier == tier ==>
                  UpToDate(base, t.answers[|s.answers|]))
  {
    hide AllUpToDate, Inv, CleanCall;
    ReturningCall(base, s, i, tier, ttl);
  }

  lemma ReturningCall(base: State, s: State, i: nat, tier: Tier, ttl: nat)
    requires Inv(s, ttl) && Clean(base, s, tier, ttl) && Enabled(s, Return(i))
    ensures var c := s.calls[i]; var plans := s.versions[c.origin.version].plans;
            && (c.origin.version < |base.versions| - 1 ==>
                  && i < |base.calls|
                  && (tier in plans ==> UpToDateVersion(base, c.origin.version, tier) || c.started + ttl <= base.now))
            && (tier in s.cache && tier !in plans ==> s.origins[tier].version > c.origin.version)
  {
    hide Bounded, AllUpToDate;
    var c := s.calls[i];
    assert CleanCall(base, c, i, tier, ttl) && CallFits(s, c);
    assert c.origin.version < |base.versions| ==> s.versions[c.origin.version] == base.versions[c.origin.version];
    if tier in s.cache && tier !in s.versions[c.origin.version].plans {
      assert EntryFits(s, tier, ttl);
      LaterRow(s, c.origin, s.origins[tier], tier);
    }
  }

  /** After an update has been committed and the cache dropped, every later call whose
      query does not fail gets limits at least that new, in every continuation, exactly
      when no stale reload was under way. */
  lemma UpdateTakesEffectIff(base: State, tier: Tier, ttl: nat)
    requires Inv(base, ttl) && base.cache == map[]
    ensures TakesEffect(base, tier, ttl) <==> forall i :: 0 <= i < |base.calls| ==> !StaleReload(base, i, tier, ttl)
  {
    hide Inv;
    if forall i :: 0 <= i < |base.calls| ==> !StaleReload(base, i, tier, ttl) {
      StartsClean(base, tier, ttl);
      forall states, actions | IsRun(states, actions, ttl) && states[0] == base ensures Effective(base, states, tier) {
        StaysClean(base, states, actions, tier, ttl);
      }
    } else {
      var i :| 0 <= i < |base.calls| && StaleReload(base, i, tier, ttl);
      StaleReloadRestores(base, i, tier, ttl);
    }
  }

  lemma StartsClean(base: State, tier: Tier, ttl: nat)
    requires Inv(base, ttl) && base.cache == map[]
    requires forall i :: 0 <= i < |base.calls| ==> !StaleReload(base, i, tier, ttl)
    ensures Clean(base, base, tier, ttl)
  {
    forall i | 0 <= i < |base.calls| ensures CleanCall(base, base.calls[i], i, tier, ttl) {
      assert !StaleReload(base, i, tier, ttl) && CallFits(base, base.calls[i]);
    }
  }

  lemma {:induction false} StaysClean(base: State, states: seq<State>, actions: seq<Action>, tier: Tier, ttl: nat)
    requires IsRun(states, actions, ttl) && states[0] == base && Inv(base, ttl) && Clean(base, base, tier, ttl)
    ensures base.versions != []
    ensures forall i :: 0 <= i < |states| ==> Clean(base, states[i], tier, ttl)
    ensures Effective(base, states, tier)
  {
    hide Apply, Enabled, Inv;
    if actions != [] {
      var n := |actions| - 1;
      Prefix(states, actions, ttl);
      StaysClean(base, states[..n + 1], actions[..n], tier, ttl);
      RunKeepsInv(states, actions, ttl);
      assert states[..n + 1][n] == states[n];
      if actions[n].Return? {
        CleanReturn(base, states[n], actions[n].call, tier, ttl);
        ApplyReturn(states[n], actions[n].call, ttl);
      } else {
        CleanStep(base, states[n], actions[n], tier, ttl);
      }
      forall i | 0 <= i < |states| ensures Clean(base, states[i], tier, ttl) {
        assert i <= n ==> states[..n + 1][i] == states[i];
      }
    }
  }

  lemma ApplyReturn(s: State, i: nat, ttl: nat)
    requires Enabled(s, Return(i))
    ensures Apply(s, Return(i), ttl) == Returned(s, i, ttl)
  {}

  /** The stale reload completes, and the next call is served its old limits. */
  lemma StaleReloadRestores(base: State, i: nat, tier: Tier, ttl: nat)
    requires Inv(base, ttl) && i < |base.calls| && StaleReload(base, i, tier, ttl)
    ensures !TakesEffect(base, tier, ttl)
  {
    hide IsRun, Effective, AllUpToDate, Inv;
    OldLimitsServed(base, i, tier, ttl);
    var filled := Returned(base, i, ttl);
    var served := Apply(filled, Begin(tier), ttl);
    TwoSteps(base, i, tier, ttl);
    NotEffective(base, [base, filled, served], 2, |filled.answers|, tier);
  }

  lemma NotEffective(base: State, states: seq<State>, i: nat, k: nat, tier: Tier)
    requires i < |states| && k < |states[i].answers| && BegunAfter(base, k, states[i].answers[k]) && base.versions != []
    requires states[i].answers[k].tier == tier && !UpToDate(base, states[i].answers[k])
    ensures !Effective(base, states, tier)
  {
    assert !AllUpToDate(base, states[i], tier);
  }

  lemma OldLimitsServed(base: State, i: nat, tier: Tier, ttl: nat)
    requires Inv(base, ttl) && i < |base.calls| && StaleReload(base, i, tier, ttl)
    ensures Enabled(base, Return(i)) && Enabled(Returned(base, i, ttl), Begin(tier))
    ensures var filled := Returned(base, i, ttl);
            var served, k := Apply(filled, Begin(tier), ttl), |filled.answers|;
            && k < |served.answers| && BegunAfter(base, k, served.answers[k]) && served.answers[k].tier == tier
            && !UpToDate(base, served.answers[k]) && !served.answers[k].source.QueryFailed?
            && served.answers[k].limits == base.versions[base.calls[i].origin.version].plans[tier]
  {
    assert CallFits(base, base.calls[i]);
  }

  lemma TwoSteps(base: State, i: nat, tier: Tier, ttl: nat)
    requires Enabled(base, Return(i)) && Enabled(Returned(base, i, ttl), Begin(tier))
    ensures var filled := Returned(base, i, ttl);
            IsRun([base, filled, Apply(filled, Begin(tier), ttl)], [Return(i), Begin(tier)], ttl)
  {
    ApplyReturn(base, i, ttl);
    hide Apply, Returned;
  }

  /** With no stale reload under way and no further update, every later call gets the
      limits now in the table, unless its own query fails. */
  lemma NewLimitsServed(base: State, states: seq<State>, actions: seq<Action>, tier: Tier, ttl: nat)
    requires Inv(base, ttl) && base.cache == map[] && tier in base.versions[|base.versions| - 1].plans
    requires forall i :: 0 <= i < |base.calls| ==> !StaleReload(base, i, tier, ttl)
    requires IsRun(states, actions, ttl) && states[0] == base && forall i :: 0 <= i < |actions| ==> !actions[i].Commit?
    ensures forall i, k :: 0 <= i < |states| && 0 <= k < |states[i].answers| ==>
              var a := states[i].answers[k];
              BegunAfter(base, k, a) && a.tier == tier && !a.source.QueryFailed?
              ==> a.limits == base.versions[|base.versions| - 1].plans[tier]
  {
    hide Inv, Apply, Enabled, Clean, IsRun;
    StartsClean(base, tier, ttl);
    StaysClean(base, states, actions, tier, ttl);
    RunKeepsInv(states, actions, ttl);
    SameVersions(states, actions, ttl);
    forall i, k | 0 <= i < |states| && 0 <= k < |states[i].answers| && BegunAfter(base, k, states[i].answers[k])
                  && states[i].answers[k].tier == tier && !states[i].answers[k].source.QueryFailed?
      ensures states[i].answers[k].limits == base.versions[|base.versions| - 1].plans[tier]
    {
      assert Clean(base, states[i], tier, ttl) && Inv(states[i], ttl);
      LatestLimits(base, states[i], k, tier, ttl);
    }
  }

  lemma LatestLimits(base: State, s: State, k: nat, tier: Tier, ttl: nat)
    requires Inv(s, ttl) && s.versions == base.versions && AllUpToDate(base, s, tier) && k < |s.answers|
    requires BegunAfter(base, k, s.answers[k]) && s.answers[k].tier == tier && !s.answers[k].source.QueryFailed?
    requires tier in base.versions[|base.versions| - 1].plans
    ensures s.answers[k].limits == base.versions[|base.versions| - 1].plans[tier]
  {
    assert Bounded(s, s.answers[k], ttl) && UpToDate(base, s.answers[k]);
  }

  /** The limits now in the table are what every later call gets in every continuation
      without a further update, unless its own query fails. */
  ghost predicate ServesCurrent(base: State, tier: Tier, ttl: nat)
    requires base.versions != [] && tier in base.versions[|base.versions| - 1].plans
  {
    forall states: seq<State>, actions: seq<Action> ::
      && IsRun(states, actions, ttl) && states[0] == base && (forall i :: 0 <= i < |actions| ==> !actions[i].Commit?)
      ==> AllCurrent(base, states, tier)
  }

  predicate AllCurrent(base: State, states: seq<State>, tier: Tier)
    requires base.versions != [] && tier in base.versions[|base.versions| - 1].plans
  {
    forall i, k :: 0 <= i < |states| && 0 <= k < |states[i].answers| ==>
      var a := states[i].answers[k];
      BegunAfter(base, k, a) && a.tier == tier && !a.source.QueryFailed?
      ==> a.limits == base.versions[|base.versions| - 1].plans[tier]
  }

  /** The same on the limits themselves, both ways. */
  lemma CurrentLimitsServedIff(base: State, tier: Tier, ttl: nat)
    requires Inv(base, ttl) && base.cache == map[] && tier in base.versions[|base.versions| - 1].plans
    ensures ServesCurrent(base, tier, ttl) <==> forall i :: 0 <= i < |base.calls| ==> !StaleReload(base, i, tier, ttl)
  {
    hide Apply, Enabled;
    if forall i :: 0 <= i < |base.calls| ==> !StaleReload(base, i, tier, ttl) {
      forall states: seq<State>, actions: seq<Action>
        | && IsRun(states, actions, ttl) && states[0] == base
          && forall i :: 0 <= i < |actions| ==> !actions[i].Commit?
        ensures AllCurrent(base, states, tier)
      {
        NewLimitsServed(base, states, actions, tier, ttl);
      }
    } else {
      var i :| 0 <= i < |base.calls| && StaleReload(base, i, tier, ttl);
      OtherLimitsServed(base, i, tier, ttl);
    }
  }

  lemma OtherLimitsServed(base: State, i: nat, tier: Tier, ttl: nat)
    requires Inv(base, ttl) && i < |base.calls| && StaleReload(base, i, tier, ttl)
    requires tier in base.versions[|base.versions| - 1].plans
    ensures !ServesCurrent(base, tier, ttl)
  {
    hide Inv, IsRun, Apply, Returned, BegunAfter;
    OldLimitsServed(base, i, tier, ttl);
    TwoSteps(base, i, tier, ttl);
    var filled := Returned(base, i, ttl);
    var states, actions := [base, filled, Apply(filled, Begin(tier), ttl)], [Return(i), Begin(tier)];
    assert states[2].answers[|filled.answers|].tier == tier;
    assert !AllCurrent(base, states, tier);
  }

  /** Such a reload comes about: it reads, the update is committed, the cache dropped. */
  lemma StaleReloadHappens(tier: Tier, first: Limits, second: Limits, ttl: nat)
    requires first != second && ttl > 0
    ensures exists states: seq<State>, actions: seq<Action> ::
              && IsRun(states, actions, ttl) && Starts(states[0])
              && actions == [Begin(tier), Read(0), Commit(tier, second), Invalidate]
              && |states[4].calls| == 1 && states[4].cache == map[] && StaleReload(states[4], 0, tier, ttl)
  {
    var s0 := State(0, [Version(0, map[tier := first])], map[], map[], [], []);
    var a0, a1, a2, a3 := Begin(tier), Read(0), Commit(tier, second), Invalidate;
    var s1 := Apply(s0, a0, ttl);
    assert s1.calls == [Asking(tier, 0)];
    var s2 := Apply(s1, a1, ttl);
    assert s2.calls == [Holding(tier, 0, Origin(0, 0))];
    var s3 := Apply(s2, a2, ttl);
    assert |s3.versions| == 2 && s3.versions[0].plans[tier] == first && s3.versions[1].plans[tier] == second;
    var s4 := Apply(s3, a3, ttl);
    var states, actions := [s0, s1, s2, s3, s4], [a0, a1, a2, a3];
    assert IsRun(states, actions, ttl);
    assert StaleReload(states[4], 0, tier, ttl);
  }

  lemma {:induction false} SameVersions(states: seq<State>, actions: seq<Action>, ttl: nat)
    requires IsRun(states, actions, ttl) && forall i :: 0 <= i < |actions| ==> !actions[i].Commit?
    ensures forall i :: 0 <= i < |states| ==> states[i].versions == states[0].versions
  {
    if actions != [] {
      var n := |actions| - 1;
      Prefix(states, actions, ttl);
      SameVersions(states[..n + 1], actions[..n], ttl);
      assert states[..n + 1][n] == states[n];
      forall i | 0 <= i < |states| ensures states[i].versions == states[0].versions {
        assert i <= n ==> states[..n + 1][i] == states[i];
      }
    }
  }
}
