/**
 The demo's daily token quota. Admission only looks at the counter; tokens are added when
 the call is over; and both the gate and the recording read the clock first and the database
 afterwards. These gaps let a visitor overshoot: by exactly how much, over every interleaving
 of clock reads, database reads, recordings and midnights, is the subject here.
 */
module DemoQuota {
  import opened Sets
  import opened Text

  // ---------------------------------------------------------------------------
  // The tables and the operations on them
  // ---------------------------------------------------------------------------

  datatype Tokens = Tokens(input: nat, output: nat)

  /** `demo_usage`, keyed by identity and UTC day. */
  type Usage = map<(string, nat), Tokens>

  const DEFAULT_ANON_LIMIT := 60000
  const DEFAULT_ELEVATED_LIMIT := 600000

  /** The two limits' environment variables, and Python's `int(text)` with its `ValueError` as `None`. */
  datatype Environment = Environment(anon: Option<string>, elevated: Option<string>, parseInt: string -> Option<int>)

  function Configured(env: Environment, setting: Option<string>, fallback: int): int {
    if setting.None? then fallback
    else var parsed := env.parseInt(setting.value);
         if parsed.Some? then parsed.value else fallback
  }

  /** `None` means no cap. A tier the code does not know is treated as anonymous,
    a setting that is no number as unset. */
  function LimitForTier(tier: string, env: Environment): (limit: Option<int>)
    ensures limit.None? <==> tier == "unlimited"
    ensures tier == "elevated" && (env.elevated.None? || env.parseInt(env.elevated.value).None?) ==>
      limit == Some(600000)
    ensures tier == "elevated" && env.elevated.Some? && env.parseInt(env.elevated.value).Some? ==>
      limit == env.parseInt(env.elevated.value)
    ensures tier !in {"unlimited", "elevated"} && (env.anon.None? || env.parseInt(env.anon.value).None?) ==>
      limit == Some(60000)
    ensures tier !in {"unlimited", "elevated"} && env.anon.Some? && env.parseInt(env.anon.value).Some? ==>
      limit == env.parseInt(env.anon.value)
  {
    if tier == "unlimited" then None
    else if tier == "elevated" then Some(Configured(env, env.elevated, DEFAULT_ELEVATED_LIMIT))
    else Some(Configured(env, env.anon, DEFAULT_ANON_LIMIT))
  }

  /** The counter the quota check reads. */
  function Used(usage: Usage, key: string, day: nat): nat {
    if (key, day) in usage then usage[(key, day)].input + usage[(key, day)].output else 0
  }

  /** A day's row; a missing one counts as zeros. */
  function RowOf(usage: Usage, key: string, day: nat): Tokens {
    if (key, day) in usage then usage[(key, day)] else Tokens(0, 0)
  }

  predicate Exhausted(limit: Option<int>, used: int) {
    limit.Some? && used >= limit.value
  }

  function Clamp(n: int): nat {
    if n < 0 then 0 else n
  }

  /** What one call adds to the counter. */
  function Cost(input: int, output: int): nat {
    Clamp(input) + Clamp(output)
  }

  /** The upsert of `record_usage`; it returns early when there is nothing to add. */
  function Recorded(usage: Usage, key: string, day: nat, input: int, output: int): (after: Usage)
    ensures Used(after, key, day) == Used(usage, key, day) + Cost(input, output)
    ensures RowOf(after, key, day).input == RowOf(usage, key, day).input + Clamp(input)
    ensures RowOf(after, key, day).output == RowOf(usage, key, day).output + Clamp(output)
    ensures (key, day) in after <==> (key, day) in usage || input > 0 || output > 0
    ensures forall k: string, d: nat | (k, d) != (key, day) :: Used(after, k, d) == Used(usage, k, d)
  {
    if input <= 0 && output <= 0 then usage
    else if (key, day) in usage then
      var row := usage[(key, day)];
      usage[(key, day) := Tokens(row.input + Clamp(input), row.output + Clamp(output))]
    else usage[(key, day) := Tokens(Clamp(input), Clamp(output))]
  }

  datatype QuotaStatus = QuotaStatus(used: nat, limit: Option<int>, exhausted: bool, resetDay: nat)

  datatype Outcome = Ungated | BudgetExhausted502 | QuotaExhausted429(quota: QuotaStatus) | Admitted

  /** The rows the gate reads. Each method is one database round trip or a sequence of them. */
  class DemoTables {
    var usage: Usage
    var exhaustedDays: set<nat>

    constructor ()
      ensures usage == map[] && exhaustedDays == {}
    {
      usage, exhaustedDays := map[], {};
    }

    method GetQuotaStatus(key: string, tier: string, env: Environment, today: nat) returns (quota: QuotaStatus)
      ensures quota.used == Used(usage, key, today) && quota.limit == LimitForTier(tier, env)
      ensures quota.exhausted <==> tier != "unlimited" && quota.limit.Some? && quota.limit.value <= quota.used
      ensures quota.resetDay == today + 1
    {
      var used := if (key, today) in usage then usage[(key, today)].input + usage[(key, today)].output else 0;
      var limit := LimitForTier(tier, env);
      quota := QuotaStatus(used, limit, limit.Some? && used >= limit.value, today + 1);
    }

    method RecordUsage(key: string, today: nat, input: int, output: int)
      modifies this`usage
      ensures usage == Recorded(old(usage), key, today, input, output)
    {
      if input <= 0 && output <= 0 {
        return;
      }
      if (key, today) in usage {
        var row := usage[(key, today)];
        usage := usage[(key, today) := Tokens(row.input + Clamp(input), row.output + Clamp(output))];
      } else {
        usage := usage[(key, today) := Tokens(Clamp(input), Clamp(output))];
      }
    }

    /**
     `gate_demo_routes`: the budget is looked at first, the quota only if it is available.
     Each check reads the clock for itself.
     */
    method Gate(demoMode: bool, key: string, tier: string, env: Environment, budgetDay: nat, quotaDay: nat)
      returns (outcome: Outcome)
      ensures outcome == Ungated <==> !demoMode
      ensures outcome == BudgetExhausted502 <==> demoMode && budgetDay in exhaustedDays
      ensures outcome == Admitted <==>
        && demoMode && budgetDay !in exhaustedDays
        && (tier == "unlimited" || Used(usage, key, quotaDay) < LimitForTier(tier, env).value)
      ensures outcome.QuotaExhausted429? ==>
        && outcome.quota.used == Used(usage, key, quotaDay) && outcome.quota.limit == LimitForTier(tier, env)
        && outcome.quota.exhausted && outcome.quota.resetDay == quotaDay + 1
    {
      if !demoMode {
        return Ungated;
      }
      if budgetDay in exhaustedDays {
        return BudgetExhausted502;
      }
      var quota := GetQuotaStatus(key, tier, env, quotaDay);
      if quota.exhausted {
        return QuotaExhausted429(quota);
      }
      return Admitted;
    }
  }

  // ---------------------------------------------------------------------------
  // Interleaved requests
  // ---------------------------------------------------------------------------

  type RequestId = nat

  /** Where a request stands. A `day` is the clock as the request read it, not the current day. */
  datatype Phase =
    | AtBudget(key: string, day: nat)   // about to read the budget row of that day
    | Cleared(key: string)              // the budget was available
    | AtQuota(key: string, day: nat)    // about to read the counter of that day
    | Refused(key: string)
    | Calling(key: string)              // admitted, the model call is running
    | Recording(key: string, day: nat, input: int, output: int)  // about to add to that day
    | Done(key: string)

  /** An admission: the day whose counter was read, and the day it was read on. */
  datatype Admission = Admission(request: RequestId, key: string, clock: nat, day: nat)

  /** One write of `record_usage`, with the tokens as passed by the handler. */
  datatype Entry = Entry(key: string, day: nat, input: int, output: int)

  datatype State = State(day: nat, exhaustedDays: set<nat>, usage: Usage, requests: map<RequestId, Phase>,
                         admissions: seq<Admission>, log: seq<Entry>)

  const INITIAL := State(0, {}, map[], map[], [], [])

  datatype Step =
    | Midnight
    | SetBudget(day: nat, exhausted: bool)
    | Arrive(r: RequestId, key: string)                 // the budget check reads the clock
    | BudgetRead(r: RequestId)
    | QuotaClock(r: RequestId)                          // the quota check reads the clock
    | QuotaRead(r: RequestId)
    | RecordClock(r: RequestId, input: int, output: int)
    | RecordWrite(r: RequestId)
    | FinishUnrecorded(r: RequestId)                    // nothing to record, or the write failed

  /** Each identity's cap, and what is assumed of its traffic. */
  datatype Config = Config(limit: string -> Option<int>, maxInFlight: nat, maxCost: nat)

  /** Admitted and not finished. */
  predicate Flying(p: Phase, key: string) {
    (p.Calling? || p.Recording?) && p.key == key
  }

  function InFlight(requests: map<RequestId, Phase>, key: string): set<RequestId> {
    set r | r in requests && Flying(requests[r], key)
  }

  /** The quota check of a request that read the clock on `day`. */
  predicate Admits(cfg: Config, s: State, key: string, day: nat) {
    !Exhausted(cfg.limit(key), Used(s.usage, key, day))
  }

  predicate Enabled(cfg: Config, s: State, step: Step) {
    match step
    case Midnight => true
    case SetBudget(day, _) => day <= s.day
    case Arrive(r, _) => r !in s.requests
    case BudgetRead(r) => r in s.requests && s.requests[r].AtBudget?
    case QuotaClock(r) => r in s.requests && s.requests[r].Cleared?
    case QuotaRead(r) =>
      && r in s.requests && s.requests[r].AtQuota?
      && var p := s.requests[r];
         Admits(cfg, s, p.key, p.day) ==> |InFlight(s.requests, p.key)| < cfg.maxInFlight
    case RecordClock(r, input, output) =>
      r in s.requests && s.requests[r].Calling? && Cost(input, output) <= cfg.maxCost
    case RecordWrite(r) => r in s.requests && s.requests[r].Recording?
    case FinishUnrecorded(r) => r in s.requests && (s.requests[r].Calling? || s.requests[r].Recording?)
  }

  function Moved(s: State, r: RequestId, p: Phase): State {
    s.(requests := s.requests[r := p])
  }

  function Next(cfg: Config, s: State, step: Step): State
    requires Enabled(cfg, s, step)
  {
    match step
    case Midnight => s.(day := s.day + 1)
    case SetBudget(day, exhausted) =>
      s.(exhaustedDays := if exhausted then s.exhaustedDays + {day} else s.exhaustedDays - {day})
    case Arrive(r, key) => Moved(s, r, AtBudget(key, s.day))
    case BudgetRead(r) =>
      var p := s.requests[r];
      Moved(s, r, if p.day in s.exhaustedDays then Refused(p.key) else Cleared(p.key))
    case QuotaClock(r) => Moved(s, r, AtQuota(s.requests[r].key, s.day))
    case QuotaRead(r) =>
      var p := s.requests[r];
      if Admits(cfg, s, p.key, p.day) then
        Moved(s, r, Calling(p.key)).(admissions := s.admissions + [Admission(r, p.key, p.day, s.day)])
      else Moved(s, r, Refused(p.key))
    case RecordClock(r, input, output) => Moved(s, r, Recording(s.requests[r].key, s.day, input, output))
    case RecordWrite(r) =>
      var p := s.requests[r];
      Moved(s, r, Done(p.key)).(usage := Recorded(s.usage, p.key, p.day, p.input, p.output),
                                log := s.log + [Entry(p.key, p.day, p.input, p.output)])
    case FinishUnrecorded(r) => Moved(s, r, Done(s.requests[r].key))
  }

  /** A run of steps, each enabled when it is taken. */
  predicate Feasible(cfg: Config, s: State, steps: seq<Step>)
    decreases |steps|, 0
  {
    steps == [] ||
    (var n := |steps| - 1; Feasible(cfg, s, steps[..n]) && Enabled(cfg, After(cfg, s, steps[..n]), steps[n]))
  }

  function After(cfg: Config, s: State, steps: seq<Step>): State
    requires Feasible(cfg, s, steps)
    decreases |steps|, 1
  {
    if steps == [] then s
    else var n := |steps| - 1; Next(cfg, After(cfg, s, steps[..n]), steps[n])
  }

  // ---------------------------------------------------------------------------
  // The counter is the recorded usage
  // ---------------------------------------------------------------------------

  function TotalRecorded(log: seq<Entry>, key: string, day: nat): nat {
    if log == [] then 0
    else
      var last := log[|log| - 1];
      TotalRecorded(log[..|log| - 1], key, day)
      + if last.key == key && last.day == day then Cost(last.input, last.output) else 0
  }

  lemma TotalAfterEntry(log: seq<Entry>, entry: Entry, key: string, day: nat)
    ensures TotalRecorded(log + [entry], key, day)
         == TotalRecorded(log, key, day)
            + if entry.key == key && entry.day == day then Cost(entry.input, entry.output) else 0
  {
    assert (log + [entry])[..|log|] == log;
  }

  lemma UsedAfterRecord(usage: Usage, entry: Entry, key: string, day: nat)
    ensures Used(Recorded(usage, entry.key, entry.day, entry.input, entry.output), key, day)
         == Used(usage, key, day)
            + if entry.key == key && entry.day == day then Cost(entry.input, entry.output) else 0
  {
  }

  lemma {:induction false} CounterIsRecordedUsage(cfg: Config, steps: seq<Step>, key: string, day: nat)
    requires Feasible(cfg, INITIAL, steps)
    ensures var s := After(cfg, INITIAL, steps); Used(s.usage, key, day) == TotalRecorded(s.log, key, day)
    decreases |steps|
  {
    if steps != [] {
      var n := |steps| - 1;
      CounterIsRecordedUsage(cfg, steps[..n], key, day);
      var s, step := After(cfg, INITIAL, steps[..n]), steps[n];
      if step.RecordWrite? {
        var p := s.requests[step.r];
        var entry := Entry(p.key, p.day, p.input, p.output);
        TotalAfterEntry(s.log, entry, key, day);
        UsedAfterRecord(s.usage, entry, key, day);
      }
    }
  }

  // ---------------------------------------------------------------------------
  // The overshoot bound
  // ---------------------------------------------------------------------------

  /** What `n` calls can cost at most. */
  function MostSpent(n: nat, maxCost: nat): nat {
    if n == 0 then 0 else maxCost + MostSpent(n - 1, maxCost)
  }

  lemma {:induction false} MostSpentIsProduct(n: nat, maxCost: nat)
    ensures MostSpent(n, maxCost) == n * maxCost
  {
    if n > 0 {
      MostSpentIsProduct(n - 1, maxCost);
      assert n * maxCost == maxCost + (n - 1) * maxCost;
    }
  }

  lemma {:induction false} MostSpentAdds(n: nat, m: nat, maxCost: nat)
    ensures MostSpent(n, maxCost) + MostSpent(m, maxCost) == MostSpent(n + m, maxCost)
  {
    if n > 0 {
      MostSpentAdds(n - 1, m, maxCost);
    }
  }

  lemma {:induction false} MostSpentMonotone(n: nat, m: nat, maxCost: nat)
    requires n <= m
    ensures MostSpent(n, maxCost) <= MostSpent(m, maxCost)
  {
    if n < m {
      MostSpentMonotone(n, m - 1, maxCost);
    }
  }

  /** Admissions on `day` that had read the clock, and so another day's counter, before midnight. */
  function StaleOn(admissions: seq<Admission>, key: string, day: nat): nat {
    if admissions == [] then 0
    else
      var last := admissions[|admissions| - 1];
      StaleOn(admissions[..|admissions| - 1], key, day)
      + if last.key == key && last.day == day && last.clock != day then 1 else 0
  }

  /** The highest a capped identity's counter of a day can get. */
  function Ceiling(cfg: Config, limit: int, stale: nat): int {
    (if limit >= 1 then limit - 1 else 0) + MostSpent(cfg.maxInFlight + stale, cfg.maxCost)
  }

  /** The request can still add to the counter of `day`. */
  predicate Owes(p: Phase, key: string, day: nat, today: nat) {
    p.key == key && ((p.Calling? && day == today) || (p.Recording? && p.day == day))
  }

  function Owing(requests: map<RequestId, Phase>, key: string, day: nat, today: nat): set<RequestId> {
    set r | r in requests && Owes(requests[r], key, day, today)
  }

  /** A day's counter leaves room for every call that can still add to it to cost its most. */
  ghost predicate RoomOn(cfg: Config, s: State, key: string, limit: int, day: nat) {
    Used(s.usage, key, day) + MostSpent(|Owing(s.requests, key, day, s.day)|, cfg.maxCost)
    <= Ceiling(cfg, limit, StaleOn(s.admissions, key, day))
  }

  /** No request and no row is ahead of the clock, and no call costs more than it may. */
  ghost predicate InTime(cfg: Config, s: State, key: string) {
    && (forall r | r in s.requests ::
          && (s.requests[r].AtQuota? ==> s.requests[r].day <= s.day)
          && (s.requests[r].Recording? ==>
                s.requests[r].day <= s.day && Cost(s.requests[r].input, s.requests[r].output) <= cfg.maxCost))
    && (forall d: nat | d > s.day :: Used(s.usage, key, d) == 0 && StaleOn(s.admissions, key, d) == 0)
  }

  ghost predicate Bounded(cfg: Config, s: State, key: string, limit: int) {
    && |InFlight(s.requests, key)| <= cfg.maxInFlight && InTime(cfg, s, key)
    && forall d: nat | d <= s.day :: RoomOn(cfg, s, key, limit, d)
  }

  lemma OneFewer(a: set<RequestId>, r: RequestId)
    ensures |a - {r}| == |a| - (if r in a then 1 else 0)
    ensures |a + {r}| == |a| + (if r in a then 0 else 1)
  {
    if r in a {
      assert a == (a - {r}) + {r};
      assert a + {r} == a;
    } else {
      assert a - {r} == a;
    }
  }

  lemma SetsAfterMove(requests: map<RequestId, Phase>, r: RequestId, p: Phase, key: string, day: nat, today: nat)
    ensures Owing(requests[r := p], key, day, today)
         == if Owes(p, key, day, today) then Owing(requests, key, day, today) + {r}
            else Owing(requests, key, day, today) - {r}
    ensures InFlight(requests[r := p], key)
         == if Flying(p, key) then InFlight(requests, key) + {r} else InFlight(requests, key) - {r}
    ensures Owing(requests, key, day, today) <= InFlight(requests, key)
  {
  }

  lemma StaleAfter(admissions: seq<Admission>, a: Admission, key: string, day: nat)
    ensures StaleOn(admissions + [a], key, day)
         == StaleOn(admissions, key, day) + if a.key == key && a.day == day && a.clock != day then 1 else 0
  {
    assert (admissions + [a])[..|admissions|] == admissions;
  }

  /** Steps that neither admit, record nor end the day leave a day no less room. */
  lemma QuietStepKeepsRoom(cfg: Config, s: State, step: Step, key: string, limit: int, d: nat)
    requires Enabled(cfg, s, step) && !step.Midnight? && !step.RecordWrite? && !step.QuotaRead?
    requires d <= s.day && RoomOn(cfg, s, key, limit, d)
    ensures RoomOn(cfg, Next(cfg, s, step), key, limit, d)
  {
    if !step.SetBudget? {
      var t := Next(cfg, s, step);
      SetsAfterMove(s.requests, step.r, t.requests[step.r], key, d, s.day);
      SubsetSize(Owing(t.requests, key, d, t.day), Owing(s.requests, key, d, s.day));
      MostSpentMonotone(|Owing(t.requests, key, d, t.day)|, |Owing(s.requests, key, d, s.day)|, cfg.maxCost);
    }
  }

  /** A refused request owes nothing, before and after. */
  lemma RefusalKeepsRoom(cfg: Config, s: State, r: RequestId, key: string, limit: int, d: nat)
    requires d <= s.day && RoomOn(cfg, s, key, limit, d) && Enabled(cfg, s, QuotaRead(r))
    requires !Admits(cfg, s, s.requests[r].key, s.requests[r].day)
    ensures RoomOn(cfg, Next(cfg, s, QuotaRead(r)), key, limit, d)
  {
    var t := Next(cfg, s, QuotaRead(r));
    SetsAfterMove(s.requests, r, t.requests[r], key, d, s.day);
    assert r !in Owing(s.requests, key, d, s.day);
    assert Owing(t.requests, key, d, t.day) == Owing(s.requests, key, d, s.day);
  }

  /** An admission leaves other visitors and other days alone. */
  lemma AdmissionElsewhereKeepsRoom(cfg: Config, s: State, r: RequestId, key: string, limit: int, d: nat)
    requires d <= s.day && RoomOn(cfg, s, key, limit, d) && Enabled(cfg, s, QuotaRead(r))
    requires Admits(cfg, s, s.requests[r].key, s.requests[r].day)
    requires s.requests[r].key != key || d != s.day
    ensures RoomOn(cfg, Next(cfg, s, QuotaRead(r)), key, limit, d)
  {
    var p, t := s.requests[r], Next(cfg, s, QuotaRead(r));
    SetsAfterMove(s.requests, r, t.requests[r], key, d, s.day);
    assert r !in Owing(s.requests, key, d, s.day);
    assert Owing(t.requests, key, d, t.day) == Owing(s.requests, key, d, s.day);
    StaleAfter(s.admissions, Admission(r, p.key, p.day, s.day), key, d);
  }

  /** One call more fits, if there were fewer than `k` and the counter was below the limit, or if it adds to `stale`. */
  lemma OneMoreCall(used: nat, owing: nat, k: nat, stale: nat, staleAfter: nat, c: nat, limit: int)
    requires used + MostSpent(owing, c) <= (if limit >= 1 then limit - 1 else 0) + MostSpent(k + stale, c)
    requires staleAfter == stale + 1 || (staleAfter == stale && used < limit && owing < k)
    ensures used + MostSpent(owing + 1, c) <= (if limit >= 1 then limit - 1 else 0) + MostSpent(k + staleAfter, c)
  {
    if staleAfter == stale {
      MostSpentMonotone(owing + 1, k + stale, c);
    }
  }

  /** An admitted request owes on the day of its admission, and did not before. */
  lemma AdmittedOwes(requests: map<RequestId, Phase>, r: RequestId, key: string, day: nat)
    requires r in requests && requests[r].AtQuota?
    ensures |Owing(requests[r := Calling(key)], key, day, day)| == |Owing(requests, key, day, day)| + 1
    ensures |Owing(requests, key, day, day)| <= |InFlight(requests, key)|
  {
    SetsAfterMove(requests, r, Calling(key), key, day, day);
    OneFewer(Owing(requests, key, day, day), r);
    SubsetSize(Owing(requests, key, day, day), InFlight(requests, key));
  }

  lemma AdmittedNumbers(cfg: Config, s: State, r: RequestId, key: string)
    requires Enabled(cfg, s, QuotaRead(r)) && s.requests[r].key == key && Admits(cfg, s, key, s.requests[r].day)
    ensures
      var t := Next(cfg, s, QuotaRead(r));
      && t.day == s.day && t.usage == s.usage
      && |Owing(t.requests, key, s.day, s.day)| == |Owing(s.requests, key, s.day, s.day)| + 1
      && |Owing(s.requests, key, s.day, s.day)| < cfg.maxInFlight
      && StaleOn(t.admissions, key, s.day)
         == StaleOn(s.admissions, key, s.day) + (if s.requests[r].day != s.day then 1 else 0)
  {
    AdmittedOwes(s.requests, r, key, s.day);
    StaleAfter(s.admissions, Admission(r, key, s.requests[r].day, s.day), key, s.day);
  }

  /** Admission today: on a fresh clock below the limit, on a stale one at the price of one more call. */
  lemma AdmissionTodayKeepsRoom(cfg: Config, s: State, r: RequestId, key: string, limit: int)
    requires cfg.limit(key) == Some(limit) && RoomOn(cfg, s, key, limit, s.day) && Enabled(cfg, s, QuotaRead(r))
    requires s.requests[r].key == key && Admits(cfg, s, key, s.requests[r].day)
    ensures RoomOn(cfg, Next(cfg, s, QuotaRead(r)), key, limit, s.day)
  {
    var t := Next(cfg, s, QuotaRead(r));
    AdmittedNumbers(cfg, s, r, key);
    OneMoreCall(Used(s.usage, key, s.day), |Owing(s.requests, key, s.day, s.day)|, cfg.maxInFlight,
                StaleOn(s.admissions, key, s.day), StaleOn(t.admissions, key, s.day), cfg.maxCost, limit);
  }

  lemma QuotaReadKeepsRoom(cfg: Config, s: State, r: RequestId, key: string, limit: int, d: nat)
    requires cfg.limit(key) == Some(limit) && d <= s.day && RoomOn(cfg, s, key, limit, d)
    requires Enabled(cfg, s, QuotaRead(r))
    ensures RoomOn(cfg, Next(cfg, s, QuotaRead(r)), key, limit, d)
  {
    var p := s.requests[r];
    if !Admits(cfg, s, p.key, p.day) {
      RefusalKeepsRoom(cfg, s, r, key, limit, d);
    } else if p.key != key || d != s.day {
      AdmissionElsewhereKeepsRoom(cfg, s, r, key, limit, d);
    } else {
      AdmissionTodayKeepsRoom(cfg, s, r, key, limit);
    }
  }

  /** A call recorded is a call no longer owed. */
  lemma RecordWriteKeepsRoom(cfg: Config, s: State, r: RequestId, key: string, limit: int, d: nat)
    requires Bounded(cfg, s, key, limit) && d <= s.day && Enabled(cfg, s, RecordWrite(r))
    ensures RoomOn(cfg, Next(cfg, s, RecordWrite(r)), key, limit, d)
  {
    var p, t := s.requests[r], Next(cfg, s, RecordWrite(r));
    assert RoomOn(cfg, s, key, limit, d);
    SetsAfterMove(s.requests, r, t.requests[r], key, d, s.day);
    OneFewer(Owing(s.requests, key, d, s.day), r);
    UsedAfterRecord(s.usage, Entry(p.key, p.day, p.input, p.output), key, d);
  }

  /** After midnight the old day keeps its pending writes; the new one starts at zero. */
  lemma MidnightKeepsRoom(cfg: Config, s: State, key: string, limit: int, d: nat)
    requires Bounded(cfg, s, key, limit) && d <= s.day + 1
    ensures RoomOn(cfg, Next(cfg, s, Midnight), key, limit, d)
  {
    var after := Owing(s.requests, key, d, s.day + 1);
    if d <= s.day {
      assert RoomOn(cfg, s, key, limit, d);
      SubsetSize(after, Owing(s.requests, key, d, s.day));
      MostSpentMonotone(|after|, |Owing(s.requests, key, d, s.day)|, cfg.maxCost);
    } else {
      SubsetSize(after, InFlight(s.requests, key));
      MostSpentMonotone(|after|, cfg.maxInFlight, cfg.maxCost);
    }
  }

  lemma StepKeepsRoom(cfg: Config, s: State, step: Step, key: string, limit: int, d: nat)
    requires cfg.limit(key) == Some(limit) && Bounded(cfg, s, key, limit) && Enabled(cfg, s, step)
    requires d <= Next(cfg, s, step).day
    ensures RoomOn(cfg, Next(cfg, s, step), key, limit, d)
  {
    match step
    case Midnight => MidnightKeepsRoom(cfg, s, key, limit, d);
    case QuotaRead(r) => QuotaReadKeepsRoom(cfg, s, r, key, limit, d);
    case RecordWrite(r) => RecordWriteKeepsRoom(cfg, s, r, key, limit, d);
    case _ => QuietStepKeepsRoom(cfg, s, step, key, limit, d);
  }

  lemma StepKeepsTime(cfg: Config, s: State, step: Step, key: string)
    requires InTime(cfg, s, key) && Enabled(cfg, s, step)
    ensures InTime(cfg, Next(cfg, s, step), key)
  {
    var t := Next(cfg, s, step);
    forall d: nat | d > t.day ensures Used(t.usage, key, d) == 0 && StaleOn(t.admissions, key, d) == 0 {
      if step.RecordWrite? {
        var p := s.requests[step.r];
        UsedAfterRecord(s.usage, Entry(p.key, p.day, p.input, p.output), key, d);
      } else if step.QuotaRead? {
        var p := s.requests[step.r];
        StaleAfter(s.admissions, Admission(step.r, p.key, p.day, s.day), key, d);
      }
    }
  }

  lemma StepKeepsFlight(cfg: Config, s: State, step: Step, key: string)
    requires |InFlight(s.requests, key)| <= cfg.maxInFlight && Enabled(cfg, s, step)
    ensures |InFlight(Next(cfg, s, step).requests, key)| <= cfg.maxInFlight
  {
    if !step.Midnight? && !step.SetBudget? {
      var t := Next(cfg, s, step);
      SetsAfterMove(s.requests, step.r, t.requests[step.r], key, 0, 0);
      OneFewer(InFlight(s.requests, key), step.r);
    }
  }

  lemma {:induction false} AlwaysBounded(cfg: Config, steps: seq<Step>, key: string, limit: int)
    requires cfg.limit(key) == Some(limit) && Feasible(cfg, INITIAL, steps)
    ensures Bounded(cfg, After(cfg, INITIAL, steps), key, limit)
    decreases |steps|
  {
    if steps == [] {
      assert Owing(INITIAL.requests, key, 0, 0) == {} && InFlight(INITIAL.requests, key) == {};
    } else {
      var n := |steps| - 1;
      AlwaysBounded(cfg, steps[..n], key, limit);
      var s, step := After(cfg, INITIAL, steps[..n]), steps[n];
      StepKeepsTime(cfg, s, step, key);
      StepKeepsFlight(cfg, s, step, key);
      forall d: nat | d <= Next(cfg, s, step).day ensures RoomOn(cfg, Next(cfg, s, step), key, limit, d) {
        StepKeepsRoom(cfg, s, step, key, limit, d);
      }
    }
  }

  lemma UnderCeiling(cfg: Config, steps: seq<Step>, key: string, limit: int, day: nat)
    requires cfg.limit(key) == Some(limit) && Feasible(cfg, INITIAL, steps)
    ensures var s := After(cfg, INITIAL, steps);
            Used(s.usage, key, day) <= Ceiling(cfg, limit, StaleOn(s.admissions, key, day))
  {
    AlwaysBounded(cfg, steps, key, limit);
    var s := After(cfg, INITIAL, steps);
    if day <= s.day {
      assert RoomOn(cfg, s, key, limit, day);
    }
  }

  /**
   No interleaving takes a day's counter past `limit - 1 + K * C`, plus one call for every
   admission of that day that had read the clock on an earlier one.
   */
  lemma OvershootBound(cfg: Config, steps: seq<Step>, key: string, limit: int, day: nat)
    requires cfg.limit(key) == Some(limit) && Feasible(cfg, INITIAL, steps)
    ensures var s := After(cfg, INITIAL, steps);
            Used(s.usage, key, day)
            <= (if limit >= 1 then limit - 1 else 0)
               + (cfg.maxInFlight + StaleOn(s.admissions, key, day)) * cfg.maxCost
  {
    UnderCeiling(cfg, steps, key, limit, day);
    MostSpentIsProduct(cfg.maxInFlight + StaleOn(After(cfg, INITIAL, steps).admissions, key, day), cfg.maxCost);
  }

  // ---------------------------------------------------------------------------
  // The bound is attained
  // ---------------------------------------------------------------------------

  /**
   A state of the second day: requests `from..n` still hold the clock of the first day, `calls`
   are running, `used` tokens are on the second day's counter, `stale` calls were admitted late.
   */
  ghost predicate SecondDay(s: State, key: string, from: nat, n: nat, next: nat, calls: set<RequestId>,
                            used: nat, stale: nat) {
    && from <= n <= next && s.day == 1 && s.exhaustedDays == {}
    && Used(s.usage, key, 0) == 0 && Used(s.usage, key, 1) == used
    && InFlight(s.requests, key) == calls
    && (forall r | r in calls :: r in s.requests && s.requests[r] == Calling(key))
    && (forall i: nat | from <= i < n :: i in s.requests && s.requests[i] == AtQuota(key, 0))
    && (forall r | r in s.requests :: r < next)
    && StaleOn(s.admissions, key, 1) == stale
  }

  ghost predicate Built(cfg: Config, steps: seq<Step>, key: string, from: nat, n: nat, next: nat,
                        calls: set<RequestId>, used: nat, stale: nat) {
    Feasible(cfg, INITIAL, steps) && SecondDay(After(cfg, INITIAL, steps), key, from, n, next, calls, used, stale)
  }

  lemma Extend(cfg: Config, s: State, steps: seq<Step>, step: Step)
    requires Feasible(cfg, s, steps) && Enabled(cfg, After(cfg, s, steps), step)
    ensures Feasible(cfg, s, steps + [step])
    ensures After(cfg, s, steps + [step]) == Next(cfg, After(cfg, s, steps), step)
  {
    assert (steps + [step])[..|steps|] == steps;
  }

  lemma MovedTwice(s: State, r: RequestId, p: Phase, q: Phase)
    ensures Moved(Moved(s, r, p), r, q) == Moved(s, r, q)
  {
    assert s.requests[r := p][r := q] == s.requests[r := q];
  }

  /** A new request gets past the budget and reads the clock for its quota check. */
  lemma ReadsClock(cfg: Config, steps: seq<Step>, r: RequestId, key: string) returns (more: seq<Step>)
    requires Feasible(cfg, INITIAL, steps)
    requires var s := After(cfg, INITIAL, steps); r !in s.requests && s.exhaustedDays == {}
    ensures Feasible(cfg, INITIAL, more)
    ensures var s := After(cfg, INITIAL, steps); After(cfg, INITIAL, more) == Moved(s, r, AtQuota(key, s.day))
  {
    var s := After(cfg, INITIAL, steps);
    Extend(cfg, INITIAL, steps, Arrive(r, key));
    more := steps + [Arrive(r, key)];
    Extend(cfg, INITIAL, more, BudgetRead(r));
    more := more + [BudgetRead(r)];
    MovedTwice(s, r, AtBudget(key, s.day), Cleared(key));
    assert After(cfg, INITIAL, more) == Moved(s, r, Cleared(key));
    Extend(cfg, INITIAL, more, QuotaClock(r));
    more := more + [QuotaClock(r)];
    MovedTwice(s, r, Cleared(key), AtQuota(key, s.day));
  }

  /** A running call records what it cost on the current day. */
  lemma Records(cfg: Config, steps: seq<Step>, r: RequestId, key: string, cost: nat) returns (more: seq<Step>)
    requires Feasible(cfg, INITIAL, steps) && cost <= cfg.maxCost
    requires var s := After(cfg, INITIAL, steps); r in s.requests && s.requests[r] == Calling(key)
    ensures Feasible(cfg, INITIAL, more)
    ensures var s := After(cfg, INITIAL, steps);
            After(cfg, INITIAL, more) == Moved(s, r, Done(key)).(
              usage := Recorded(s.usage, key, s.day, cost, 0), log := s.log + [Entry(key, s.day, cost, 0)])
  {
    var s := After(cfg, INITIAL, steps);
    Extend(cfg, INITIAL, steps, RecordClock(r, cost, 0));
    more := steps + [RecordClock(r, cost, 0)];
    Extend(cfg, INITIAL, more, RecordWrite(r));
    more := more + [RecordWrite(r)];
    MovedTwice(s, r, Recording(key, s.day, cost, 0), Done(key));
  }

  /** `n` requests read the clock on the first day and get no further. */
  ghost predicate Waiting(cfg: Config, steps: seq<Step>, key: string, n: nat) {
    && Feasible(cfg, INITIAL, steps)
    && var s := After(cfg, INITIAL, steps);
       && s.day == 0 && s.exhaustedDays == {} && s.usage == map[] && s.admissions == []
       && (forall r: nat :: r in s.requests <==> r < n)
       && (forall r | r in s.requests :: s.requests[r] == AtQuota(key, 0))
  }

  lemma {:induction false} LetWait(cfg: Config, key: string, n: nat) returns (steps: seq<Step>)
    ensures Waiting(cfg, steps, key, n)
  {
    steps := [];
    if n > 0 {
      steps := LetWait(cfg, key, n - 1);
      steps := ReadsClock(cfg, steps, n - 1, key);
    }
  }

  lemma WaitOverMidnight(cfg: Config, key: string, n: nat) returns (steps: seq<Step>)
    ensures Built(cfg, steps, key, 0, n, n, {}, 0, 0)
  {
    steps := LetWait(cfg, key, n);
    Extend(cfg, INITIAL, steps, Midnight);
    steps := steps + [Midnight];
    assert InFlight(After(cfg, INITIAL, steps).requests, key) == {};
  }

  lemma SecondDayAfterAdmission(s: State, key: string, n: nat, next: nat, calls: set<RequestId>, used: nat)
    requires SecondDay(s, key, 0, n, next, calls, used, 0)
    ensures
      var t := Moved(s, next, Calling(key)).(admissions := s.admissions + [Admission(next, key, 1, 1)]);
      SecondDay(t, key, 0, n, next + 1, calls + {next}, used, 0) && next !in calls
  {
    SetsAfterMove(s.requests, next, Calling(key), key, 0, 0);
    StaleAfter(s.admissions, Admission(next, key, 1, 1), key, 1);
  }

  /** A new request passes the gate on a fresh clock. */
  lemma PassTheGate(cfg: Config, steps: seq<Step>, key: string, n: nat, next: nat, calls: set<RequestId>, used: nat)
    returns (more: seq<Step>)
    requires Built(cfg, steps, key, 0, n, next, calls, used, 0)
    requires |calls| < cfg.maxInFlight && !Exhausted(cfg.limit(key), used)
    ensures Built(cfg, more, key, 0, n, next + 1, calls + {next}, used, 0) && next !in calls
  {
    var s := After(cfg, INITIAL, steps);
    more := ReadsClock(cfg, steps, next, key);
    SetsAfterMove(s.requests, next, AtQuota(key, 1), key, 0, 0);
    assert InFlight(After(cfg, INITIAL, more).requests, key) == calls;
    Extend(cfg, INITIAL, more, QuotaRead(next));
    more := more + [QuotaRead(next)];
    MovedTwice(s, next, AtQuota(key, 1), Calling(key));
    SecondDayAfterAdmission(s, key, n, next, calls, used);
  }

  lemma SecondDayAfterPayment(s: State, key: string, from: nat, n: nat, next: nat, calls: set<RequestId>,
                              used: nat, stale: nat, r: RequestId, cost: nat, usage: Usage, log: seq<Entry>)
    requires SecondDay(s, key, from, n, next, calls, used, stale) && r in calls
    requires Used(usage, key, 0) == 0 && Used(usage, key, 1) == used + cost
    ensures SecondDay(Moved(s, r, Done(key)).(usage := usage, log := log),
                      key, from, n, next, calls - {r}, used + cost, stale)
  {
    SetsAfterMove(s.requests, r, Done(key), key, 0, 0);
  }

  lemma Pay(cfg: Config, steps: seq<Step>, key: string, from: nat, n: nat, next: nat, calls: set<RequestId>,
            used: nat, stale: nat, r: RequestId, cost: nat) returns (more: seq<Step>)
    requires Built(cfg, steps, key, from, n, next, calls, used, stale)
    requires r in calls && cost <= cfg.maxCost
    ensures Built(cfg, more, key, from, n, next, calls - {r}, used + cost, stale)
  {
    more := Records(cfg, steps, r, key, cost);
    var s, entry := After(cfg, INITIAL, steps), Entry(key, 1, cost, 0);
    UsedAfterRecord(s.usage, entry, key, 0);
    UsedAfterRecord(s.usage, entry, key, 1);
    SecondDayAfterPayment(s, key, from, n, next, calls, used, stale, r, cost,
                          Recorded(s.usage, key, 1, cost, 0), s.log + [entry]);
  }

  lemma SecondDayAfterLateAdmission(s: State, key: string, from: nat, n: nat, next: nat, used: nat)
    requires SecondDay(s, key, from, n, next, {}, used, from) && from < n
    ensures
      var t := Moved(s, from, Calling(key)).(admissions := s.admissions + [Admission(from, key, 0, 1)]);
      SecondDay(t, key, from + 1, n, next, {from}, used, from + 1)
  {
    SetsAfterMove(s.requests, from, Calling(key), key, 0, 0);
    assert InFlight(s.requests[from := Calling(key)], key) == {from};
    StaleAfter(s.admissions, Admission(from, key, 0, 1), key, 1);
  }

  /** A request that waited over midnight reads the old day's counter, is admitted, and pays. */
  lemma AdmitLate(cfg: Config, steps: seq<Step>, key: string, limit: int, from: nat, n: nat, next: nat, used: nat)
    returns (more: seq<Step>)
    requires Built(cfg, steps, key, from, n, next, {}, used, from) && from < n
    requires cfg.limit(key) == Some(limit) && limit >= 1 && cfg.maxInFlight >= 1
    ensures Built(cfg, more, key, from + 1, n, next, {}, used + cfg.maxCost, from + 1)
  {
    var s := After(cfg, INITIAL, steps);
    Extend(cfg, INITIAL, steps, QuotaRead(from));
    more := steps + [QuotaRead(from)];
    SecondDayAfterLateAdmission(s, key, from, n, next, used);
    more := Pay(cfg, more, key, from + 1, n, next, {from}, used, from + 1, from, cfg.maxCost);
    assert {from} - {from} == {};
  }

  /** One token at a time, one call at a time, a visitor can use up to the limit. */
  lemma {:induction false} SpendSingly(cfg: Config, key: string, limit: int, n: nat, m: nat)
    returns (steps: seq<Step>, next: nat)
    requires cfg.limit(key) == Some(limit) && m <= limit && cfg.maxInFlight >= 1 && cfg.maxCost >= 1
    ensures Built(cfg, steps, key, 0, n, next, {}, m, 0)
  {
    if m == 0 {
      steps := WaitOverMidnight(cfg, key, n);
      next := n;
    } else {
      steps, next := SpendSingly(cfg, key, limit, n, m - 1);
      steps := PassTheGate(cfg, steps, key, n, next, {}, m - 1);
      assert {} + {next} == {next};
      steps := Pay(cfg, steps, key, 0, n, next + 1, {next}, m - 1, 0, next, 1);
      assert {next} - {next} == {};
      next := next + 1;
    }
  }

  lemma {:induction false} AdmitTogether(cfg: Config, key: string, limit: int, n: nat, k: nat)
    returns (steps: seq<Step>, next: nat, calls: set<RequestId>)
    requires cfg.limit(key) == Some(limit) && limit >= 1
    requires k <= cfg.maxInFlight && cfg.maxInFlight >= 1 && cfg.maxCost >= 1
    ensures Built(cfg, steps, key, 0, n, next, calls, limit - 1, 0) && |calls| == k
  {
    if k == 0 {
      steps, next := SpendSingly(cfg, key, limit, n, limit - 1);
      calls := {};
    } else {
      steps, next, calls := AdmitTogether(cfg, key, limit, n, k - 1);
      steps := PassTheGate(cfg, steps, key, n, next, calls, limit - 1);
      calls, next := calls + {next}, next + 1;
    }
  }

  lemma {:induction false} PayAll(cfg: Config, start: seq<Step>, key: string, n: nat, next: nat, calls: set<RequestId>,
                                  used: nat)
    returns (steps: seq<Step>)
    requires Built(cfg, start, key, 0, n, next, calls, used, 0)
    ensures Built(cfg, steps, key, 0, n, next, {}, used + MostSpent(|calls|, cfg.maxCost), 0)
    decreases |calls|
  {
    steps := start;
    if calls != {} {
      var r := Member(calls);
      OneFewer(calls, r);
      steps := Pay(cfg, steps, key, 0, n, next, calls, used, 0, r, cfg.maxCost);
      steps := PayAll(cfg, steps, key, n, next, calls - {r}, used + cfg.maxCost);
    }
  }

  lemma {:induction false} AdmitAllLate(cfg: Config, key: string, limit: int, n: nat, late: nat)
    returns (steps: seq<Step>, next: nat)
    requires cfg.limit(key) == Some(limit) && limit >= 1 && cfg.maxInFlight >= 1 && cfg.maxCost >= 1 && late <= n
    ensures Built(cfg, steps, key, late, n, next, {},
                  limit - 1 + MostSpent(cfg.maxInFlight, cfg.maxCost) + MostSpent(late, cfg.maxCost), late)
  {
    if late == 0 {
      var calls;
      steps, next, calls := AdmitTogether(cfg, key, limit, n, cfg.maxInFlight);
      steps := PayAll(cfg, steps, key, n, next, calls, limit - 1);
    } else {
      steps, next := AdmitAllLate(cfg, key, limit, n, late - 1);
      steps := AdmitLate(cfg, steps, key, limit, late - 1, n, next,
                         limit - 1 + MostSpent(cfg.maxInFlight, cfg.maxCost) + MostSpent(late - 1, cfg.maxCost));
    }
  }

  /** The bound cannot be lowered: for every number of late admissions some run ends exactly on it. */
  lemma BoundIsAttained(cfg: Config, key: string, limit: int, late: nat) returns (steps: seq<Step>)
    requires cfg.limit(key) == Some(limit) && limit >= 1 && cfg.maxInFlight >= 1 && cfg.maxCost >= 1
    ensures Feasible(cfg, INITIAL, steps)
    ensures var s := After(cfg, INITIAL, steps);
            && StaleOn(s.admissions, key, 1) == late
            && Used(s.usage, key, 1) == limit - 1 + (cfg.maxInFlight + late) * cfg.maxCost
  {
    var next;
    steps, next := AdmitAllLate(cfg, key, limit, late, late);
    MostSpentAdds(cfg.maxInFlight, late, cfg.maxCost);
    MostSpentIsProduct(cfg.maxInFlight + late, cfg.maxCost);
  }

  /** With limit 1, one call at a time and 5 tokens a call, a midnight inside the gate lets a day's counter reach 10. */
  lemma MidnightInsideTheGate(cfg: Config, key: string) returns (steps: seq<Step>)
    requires cfg.limit(key) == Some(1) && cfg.maxInFlight == 1 && cfg.maxCost == 5
    ensures Feasible(cfg, INITIAL, steps) && Used(After(cfg, INITIAL, steps).usage, key, 1) == 10
  {
    steps := BoundIsAttained(cfg, key, 1, 1);
  }

  /** Every run with that many late admissions on a day keeps the day's counter at or below `bound`. */
  ghost predicate Guaranteed(cfg: Config, key: string, late: nat, bound: int) {
    forall steps: seq<Step>, day: nat | Feasible(cfg, INITIAL, steps) ::
      StaleOn(After(cfg, INITIAL, steps).admissions, key, day) == late ==>
        Used(After(cfg, INITIAL, steps).usage, key, day) <= bound
  }

  lemma Exceeds(cfg: Config, key: string, limit: int, late: nat, bound: int)
    requires cfg.limit(key) == Some(limit) && limit >= 1 && cfg.maxInFlight >= 1 && cfg.maxCost >= 1
    requires bound < limit - 1 + (cfg.maxInFlight + late) * cfg.maxCost
    ensures !Guaranteed(cfg, key, late, bound)
  {
    var steps := BoundIsAttained(cfg, key, limit, late);
    assert Feasible(cfg, INITIAL, steps);
  }

  lemma Larger(a: nat, b: nat, c: nat)
    requires a < b && c >= 1
    ensures a * c < b * c
  {
    assert b * c == a * c + (b - a) * c;
  }

  /** `limit - 1 + K * C` is kept exactly by days without an admission on a stale clock. */
  lemma BoundHoldsIffNoStaleAdmission(cfg: Config, key: string, limit: int, late: nat)
    requires cfg.limit(key) == Some(limit) && limit >= 1 && cfg.maxInFlight >= 1 && cfg.maxCost >= 1
    ensures Guaranteed(cfg, key, late, limit - 1 + cfg.maxInFlight * cfg.maxCost) <==> late == 0
  {
    if late == 0 {
      forall steps: seq<Step>, day: nat | Feasible(cfg, INITIAL, steps)
        && StaleOn(After(cfg, INITIAL, steps).admissions, key, day) == late
        ensures Used(After(cfg, INITIAL, steps).usage, key, day) <= limit - 1 + cfg.maxInFlight * cfg.maxCost
      {
        OvershootBound(cfg, steps, key, limit, day);
      }
    } else {
      Larger(cfg.maxInFlight, cfg.maxInFlight + late, cfg.maxCost);
      Exceeds(cfg, key, limit, late, limit - 1 + cfg.maxInFlight * cfg.maxCost);
    }
  }

  /** The documented overshoot of a single call is right exactly for one call at a time and no stale admission. */
  lemma OneCallOvershootIff(cfg: Config, key: string, limit: int, late: nat)
    requires cfg.limit(key) == Some(limit) && limit >= 1 && cfg.maxInFlight >= 1 && cfg.maxCost >= 1
    ensures Guaranteed(cfg, key, late, limit - 1 + cfg.maxCost) <==> cfg.maxInFlight == 1 && late == 0
  {
    if cfg.maxInFlight == 1 && late == 0 {
      BoundHoldsIffNoStaleAdmission(cfg, key, limit, late);
    } else {
      Larger(1, cfg.maxInFlight + late, cfg.maxCost);
      Exceeds(cfg, key, limit, late, limit - 1 + cfg.maxCost);
    }
  }

  // ---------------------------------------------------------------------------
  // Refusals
  // ---------------------------------------------------------------------------

  lemma {:induction false} OnlyGrows(cfg: Config, s: State, steps: seq<Step>, key: string, day: nat)
    requires Feasible(cfg, s, steps)
    ensures Used(s.usage, key, day) <= Used(After(cfg, s, steps).usage, key, day)
    ensures s.day <= After(cfg, s, steps).day
    decreases |steps|
  {
    if steps != [] {
      var n := |steps| - 1;
      OnlyGrows(cfg, s, steps[..n], key, day);
      var before, step := After(cfg, s, steps[..n]), steps[n];
      if step.RecordWrite? {
        var p := before.requests[step.r];
        UsedAfterRecord(before.usage, Entry(p.key, p.day, p.input, p.output), key, day);
      }
    }
  }

  /**
   Once a day's counter is at the limit, a request of that visitor is admitted exactly if it
   read the clock on another day, whose counter is below the limit; whatever else happens in
   between, and however late its read executes.
   */
  lemma RefusedUnlessStale(cfg: Config, s: State, steps: seq<Step>, r: RequestId, key: string, limit: int, day: nat)
    requires cfg.limit(key) == Some(limit) && Used(s.usage, key, day) >= limit
    requires Feasible(cfg, s, steps) && Enabled(cfg, After(cfg, s, steps), QuotaRead(r))
    requires After(cfg, s, steps).requests[r].key == key
    ensures
      var t := After(cfg, s, steps);
      var clock := t.requests[r].day;
      Next(cfg, t, QuotaRead(r)).requests[r].Calling? <==> clock != day && Used(t.usage, key, clock) < limit
  {
    OnlyGrows(cfg, s, steps, key, day);
  }

  /** Such a late admission happens: the day's counter is at the limit, and a waiting request gets through. */
  lemma FullDayCanStillAdmit(cfg: Config, key: string, limit: int) returns (steps: seq<Step>, r: RequestId)
    requires cfg.limit(key) == Some(limit) && limit >= 1 && cfg.maxInFlight >= 1 && cfg.maxCost >= 1
    ensures Feasible(cfg, INITIAL, steps)
    ensures var s := After(cfg, INITIAL, steps);
            && !Admits(cfg, s, key, s.day) && Enabled(cfg, s, QuotaRead(r)) && s.requests[r].key == key
            && Next(cfg, s, QuotaRead(r)).requests[r] == Calling(key)
  {
    var next;
    steps, next := AdmitAllLate(cfg, key, limit, 1, 0);
    r := 0;
    MostSpentMonotone(1, cfg.maxInFlight, cfg.maxCost);
  }

  /** However a call ends, it is no longer in flight. */
  lemma CallsEnd(cfg: Config, s: State, step: Step, key: string)
    requires (step.FinishUnrecorded? || step.RecordWrite?) && Enabled(cfg, s, step)
    ensures step.r !in InFlight(Next(cfg, s, step).requests, key)
    ensures Next(cfg, s, step).requests == s.requests[step.r := Done(s.requests[step.r].key)]
    ensures step.FinishUnrecorded? ==> Next(cfg, s, step).usage == s.usage
  {
  }

  /** Past the budget read, or about to read another day's budget row. */
  predicate PastBudget(p: Phase, day: nat) {
    p.Cleared? || p.AtQuota? || (p.AtBudget? && p.day != day)
  }

  predicate WasAdmitted(p: Phase) {
    p.Calling? || p.Recording? || p.Done?
  }

  ghost predicate BudgetStays(steps: seq<Step>, day: nat) {
    forall step | step in steps :: !step.Midnight? && step != SetBudget(day, false)
  }

  /** Who can still get through: nobody that arrived after the flag was set. */
  lemma {:induction false} BudgetStopsAdmissions(cfg: Config, s: State, steps: seq<Step>)
    requires s.day in s.exhaustedDays && Feasible(cfg, s, steps) && BudgetStays(steps, s.day)
    ensures var t := After(cfg, s, steps);
      && t.day == s.day && t.day in t.exhaustedDays
      && forall r | r in t.requests && (WasAdmitted(t.requests[r]) || PastBudget(t.requests[r], s.day)) ::
           r in s.requests && (WasAdmitted(s.requests[r]) || PastBudget(s.requests[r], s.day))
    decreases |steps|
  {
    if steps != [] {
      var n := |steps| - 1;
      assert forall step | step in steps[..n] :: step in steps;
      BudgetStopsAdmissions(cfg, s, steps[..n]);
      assert steps[n] in steps;
    }
  }

  /** Each of those can: a request that read the clock before midnight passes today's exhausted budget. */
  lemma StaleBudgetReadPasses(cfg: Config, s: State, r: RequestId, key: string, clock: nat)
    requires s.day in s.exhaustedDays && r in s.requests && s.requests[r] == AtBudget(key, clock)
    requires clock !in s.exhaustedDays && |InFlight(s.requests, key)| < cfg.maxInFlight
    ensures
      var steps := [BudgetRead(r), QuotaClock(r), QuotaRead(r)];
      && Feasible(cfg, s, steps) && BudgetStays(steps, s.day)
      && (After(cfg, s, steps).requests[r] == Calling(key) <==> Admits(cfg, s, key, s.day))
  {
    var steps := ClearedReadsClock(cfg, s, r, key, clock);
    var t := After(cfg, s, steps);
    SetsAfterMove(s.requests, r, AtQuota(key, s.day), key, 0, 0);
    SubsetSize(InFlight(t.requests, key), InFlight(s.requests, key));
    Extend(cfg, s, steps, QuotaRead(r));
    assert steps + [QuotaRead(r)] == [BudgetRead(r), QuotaClock(r), QuotaRead(r)];
  }

  lemma ClearedReadsClock(cfg: Config, s: State, r: RequestId, key: string, clock: nat) returns (steps: seq<Step>)
    requires r in s.requests && s.requests[r] == AtBudget(key, clock) && clock !in s.exhaustedDays
    ensures steps == [BudgetRead(r), QuotaClock(r)] && Feasible(cfg, s, steps)
    ensures After(cfg, s, steps) == Moved(s, r, AtQuota(key, s.day))
  {
    steps := [];
    Extend(cfg, s, steps, BudgetRead(r));
    steps := steps + [BudgetRead(r)];
    Extend(cfg, s, steps, QuotaClock(r));
    steps := steps + [QuotaClock(r)];
    MovedTwice(s, r, Cleared(key), AtQuota(key, s.day));
  }

  lemma ExhaustedNextDay(cfg: Config, key: string) returns (steps: seq<Step>)
    ensures Feasible(cfg, INITIAL, steps)
    ensures After(cfg, INITIAL, steps) == State(1, {1}, map[], map[0 := AtBudget(key, 0)], [], [])
  {
    steps := [];
    Extend(cfg, INITIAL, steps, Arrive(0, key));
    steps := steps + [Arrive(0, key)];
    Extend(cfg, INITIAL, steps, Midnight);
    steps := steps + [Midnight];
    Extend(cfg, INITIAL, steps, SetBudget(1, true));
    steps := steps + [SetBudget(1, true)];
  }

  /** And it happens: a request that read the clock just before midnight is admitted on an exhausted day. */
  lemma ExhaustedDayCanStillAdmit(cfg: Config, key: string) returns (steps: seq<Step>, r: RequestId)
    requires cfg.maxInFlight >= 1 && Admits(cfg, INITIAL, key, 0)
    ensures Feasible(cfg, INITIAL, steps)
    ensures
      var s := After(cfg, INITIAL, steps);
      var late := [BudgetRead(r), QuotaClock(r), QuotaRead(r)];
      && s.day in s.exhaustedDays && Feasible(cfg, s, late) && BudgetStays(late, s.day)
      && After(cfg, s, late).requests[r] == Calling(key)
  {
    steps := ExhaustedNextDay(cfg, key);
    r := 0;
    var s := After(cfg, INITIAL, steps);
    assert InFlight(s.requests, key) == {};
    StaleBudgetReadPasses(cfg, s, r, key, 0);
    assert Used(s.usage, key, s.day) == 0;
  }
}
