/**
 * The per-account daily quota allocator (worker_chart_export/usage.py).
 *
 * A usage document is the field map Firestore returns for
 * `chart_img_accounts_usage/<accountId>`.  Time enters through a `Clock`:
 * today's date as a day number, the `YYYY-MM-DDT00:00:00Z` string for its
 * start, and the calendar day a stored `windowStart` string parses to.  Each
 * attempt of a retry loop reads the document through `read(attempt)` and
 * learns the fate of its conditional write from `write(attempt)`.
 */
module Usage {
  import opened Wrappers
  import opened Json
  import opened Strings
  import opened Config
  import opened Firestore

  type UsageDoc = map<string, Json>

  /** The usage collection, by account id. */
  type UsageStore = map<string, UsageDoc>

  type PositiveInt = x: int | x > 0 witness 1

  /**
   * `today` is `now.date()`, `todayStart` is `_utc_day_start(now)`, and
   * `dayOf(s)` is the date of `_parse_rfc3339(s)`, None where it fails.
   */
  datatype Clock = Clock(today: int, todayStart: string, dayOf: string -> Option<int>)

  /** The day start is itself a parseable timestamp on today's date. */
  predicate ConsistentClock(clock: Clock) {
    !IsBlank(clock.todayStart) && clock.dayOf(clock.todayStart) == Some(clock.today)
  }

  datatype AccountUsage = AccountUsage(accountId: string, usageToday: int, dailyLimit: int, windowStart: string)

  /** One write a loop issued: at which attempt, whether it creates the document, and the fields it sets. */
  datatype UsageWrite = UsageWrite(attempt: nat, create: bool, fields: UsageDoc)

  datatype ClaimOutcome =
    | Claimed(usage: AccountUsage)
    | Exhausted
    | Contention
    | Failed(reason: string)

  datatype ClaimRun = ClaimRun(outcome: ClaimOutcome, writes: seq<UsageWrite>)

  const MAX_ATTEMPTS: nat := 3

  function UsageFields(windowStart: string, usageToday: int): UsageDoc {
    map["windowStart" := JStr(windowStart), "usageToday" := JInt(usageToday)]
  }

  // ---------------------------------------------------------------------------
  // Window and limit
  // ---------------------------------------------------------------------------

  /** The calendar day of a stored `windowStart`, when it is a non-blank string that parses. */
  function WindowDay(raw: Json, clock: Clock): Option<int> {
    if raw.JStr? && !IsBlank(raw.s) then clock.dayOf(raw.s) else None
  }

  /** `_reset_window_if_needed`: the usage counted in the current window and that window's start. */
  function ResetWindow(data: UsageDoc, clock: Clock): (r: (nat, string))
    ensures WindowDay(Get(data, "windowStart"), clock) != Some(clock.today) ==> r == (0, clock.todayStart)
    ensures WindowDay(Get(data, "windowStart"), clock) == Some(clock.today) ==>
      r.1 == Get(data, "windowStart").s
      && r.0 == (var u := AsPyInt(Get(data, "usageToday")); if u.Some? && u.value >= 0 then u.value else 0)
  {
    var u := AsPyInt(Get(data, "usageToday"));
    var usage: nat := if u.Some? && u.value >= 0 then u.value else 0;
    var raw := Get(data, "windowStart");
    if WindowDay(raw, clock) != Some(clock.today) then (0, clock.todayStart)
    else (usage, raw.s)
  }

  /** A window from another day, or none at all, counts nothing. */
  lemma StaleWindowCountsNothing(data: UsageDoc, clock: Clock, day: int)
    requires Get(data, "windowStart").JStr? && clock.dayOf(Get(data, "windowStart").s) == Some(day)
    requires day != clock.today
    ensures ResetWindow(data, clock) == (0, clock.todayStart)
  {
  }

  /** Within today's window a usage that is not a non-negative int (a bool counts as one) reads as 0. */
  lemma MalformedUsageReadsAsZero(data: UsageDoc, clock: Clock)
    requires WindowDay(Get(data, "windowStart"), clock) == Some(clock.today)
    requires !(AsPyInt(Get(data, "usageToday")).Some? && AsPyInt(Get(data, "usageToday")).value >= 0)
    ensures ResetWindow(data, clock).0 == 0
  {
  }

  /**
   * `_resolve_daily_limit`: a positive int `dailyLimit` in the document wins;
   * otherwise the account's own limit unless it is 0 or missing; otherwise the
   * default.
   */
  function ResolveDailyLimit(account: ChartImgAccount, data: UsageDoc, defaultLimit: PositiveInt): (limit: int)
    ensures (var d := AsPyInt(Get(data, "dailyLimit")); d.Some? && d.value > 0) ==>
      limit == AsPyInt(Get(data, "dailyLimit")).value
    ensures limit <= 0 ==> account.dailyLimit.Some? && limit == account.dailyLimit.value
    ensures account.dailyLimit.None? || account.dailyLimit == Some(0) ==> limit > 0
  {
    var d := AsPyInt(Get(data, "dailyLimit"));
    if d.Some? && d.value > 0 then d.value
    else if account.dailyLimit.Some? && account.dailyLimit.value != 0 then account.dailyLimit.value
    else defaultLimit
  }

  /** A document without a usable limit falls back to the account's limit, then to the default. */
  lemma LimitFallbackOrder(account: ChartImgAccount, data: UsageDoc, defaultLimit: PositiveInt)
    requires !(AsPyInt(Get(data, "dailyLimit")).Some? && AsPyInt(Get(data, "dailyLimit")).value > 0)
    ensures ResolveDailyLimit(account, data, defaultLimit)
         == if account.dailyLimit.Some? && account.dailyLimit.value != 0 then account.dailyLimit.value else defaultLimit
  {
  }

  /** What one attempt reads: whether the document exists, its fields, the window and the limit. */
  datatype Plan = Plan(present: bool, data: UsageDoc, usage: nat, windowStart: string, limit: int)

  function PlanFor(snapshot: Option<UsageDoc>, account: ChartImgAccount, clock: Clock, defaultLimit: PositiveInt): Plan {
    var data := snapshot.GetOr(map[]);
    var (usage, windowStart) := ResetWindow(data, clock);
    Plan(snapshot.Some?, data, usage, windowStart, ResolveDailyLimit(account, data, defaultLimit))
  }

  /** What each attempt of a loop reads, attempt by attempt. */
  function AttemptPlans(account: ChartImgAccount, clock: Clock, defaultLimit: PositiveInt, read: nat -> Option<UsageDoc>): nat -> Plan {
    (i: nat) => PlanFor(read(i), account, clock, defaultLimit)
  }

  // ---------------------------------------------------------------------------
  // _try_claim_account
  // ---------------------------------------------------------------------------

  /**
   * The quota rule every write obeys: it sets the window the attempt
   * computed, creates the document exactly when it was missing, and either
   * claims one unit below the limit or, at or over the limit, stores the
   * usage unchanged.
   */
  predicate RespectsLimit(w: UsageWrite, plan: Plan) {
    && w.create == !plan.present
    && (|| (w.fields == UsageFields(plan.windowStart, plan.usage + 1) && plan.usage + 1 <= plan.limit)
        || (w.fields == UsageFields(plan.windowStart, plan.usage) && plan.usage >= plan.limit))
  }

  /** The exhausted path writes only when the stored window or usage differ (`True == 1` in Python). */
  predicate NeedsWindowRefresh(plan: Plan) {
    Get(plan.data, "windowStart") != JStr(plan.windowStart) || AsPyInt(Get(plan.data, "usageToday")) != Some(plan.usage)
  }

  /** The attempt loop of `_try_claim_account`, from attempt `attempt` on; attempt `i` reads `plans(i)`. */
  function ClaimLoop(accountId: string, plans: nat -> Plan, write: nat -> WriteOutcome, attempt: nat): (run: ClaimRun)
    requires attempt < MAX_ATTEMPTS
    ensures |run.writes| <= MAX_ATTEMPTS - attempt
    ensures forall k :: 0 <= k < |run.writes| ==> run.writes[k].attempt == attempt + k
    ensures run.outcome.Claimed? ==>
      run.outcome.usage.accountId == accountId && run.outcome.usage.usageToday <= run.outcome.usage.dailyLimit
    decreases MAX_ATTEMPTS - attempt
  {
    var plan := plans(attempt);
    var retry := write(attempt) == Conflict && attempt < MAX_ATTEMPTS - 1;
    if plan.usage >= plan.limit then
      if NeedsWindowRefresh(plan) then
        var w := UsageWrite(attempt, !plan.present, UsageFields(plan.windowStart, plan.usage));
        if retry then
          var rest := ClaimLoop(accountId, plans, write, attempt + 1);
          ClaimRun(rest.outcome, [w] + rest.writes)
        else ClaimRun(Exhausted, [w])
      else ClaimRun(Exhausted, [])
    else
      var w := UsageWrite(attempt, !plan.present, UsageFields(plan.windowStart, plan.usage + 1));
      match write(attempt)
      case Written => ClaimRun(Claimed(AccountUsage(accountId, plan.usage + 1, plan.limit, plan.windowStart)), [w])
      case OtherError(reason) => ClaimRun(Failed(reason), [w])
      case Conflict =>
        if retry then
          var rest := ClaimLoop(accountId, plans, write, attempt + 1);
          ClaimRun(rest.outcome, [w] + rest.writes)
        else ClaimRun(Contention, [w])
  }

  /** Every write of a claim loop obeys the quota rule against what its attempt read. */
  predicate WritesRespectLimit(writes: seq<UsageWrite>, plans: nat -> Plan) {
    forall k :: 0 <= k < |writes| ==> RespectsLimit(writes[k], plans(writes[k].attempt))
  }

  /**
   * No write a claim makes takes the counter past the limit, and a write at
   * or over the limit leaves the counter where it was.
   */
  lemma {:induction false} ClaimLoopRespectsLimit(accountId: string, plans: nat -> Plan, write: nat -> WriteOutcome, attempt: nat)
    requires attempt < MAX_ATTEMPTS
    ensures WritesRespectLimit(ClaimLoop(accountId, plans, write, attempt).writes, plans)
    decreases MAX_ATTEMPTS - attempt
  {
    if write(attempt) == Conflict && attempt < MAX_ATTEMPTS - 1 {
      ClaimLoopRespectsLimit(accountId, plans, write, attempt + 1);
    }
  }

  /**
   * How a claim loop ends: writes before the last one all lost a race; a
   * claim is the last write committing one unit over what that attempt read;
   * a failure is the last write failing; contention is every remaining
   * attempt losing its race.
   */
  predicate ClaimEndsAsReported(run: ClaimRun, accountId: string, plans: nat -> Plan, write: nat -> WriteOutcome, attempt: nat) {
    && (forall i: nat :: attempt <= i < attempt + |run.writes| - 1 ==> write(i) == Conflict)
    && (run.outcome.Claimed? ==>
          |run.writes| > 0 && write(attempt + |run.writes| - 1) == Written
          && (var plan := plans(attempt + |run.writes| - 1);
              run.outcome.usage == AccountUsage(accountId, plan.usage + 1, plan.limit, plan.windowStart)))
    && (run.outcome.Failed? ==>
          |run.writes| > 0 && write(attempt + |run.writes| - 1) == OtherError(run.outcome.reason))
    && (run.outcome == Contention ==>
          attempt + |run.writes| == MAX_ATTEMPTS && forall i: nat :: attempt <= i < MAX_ATTEMPTS ==> write(i) == Conflict)
  }

  lemma {:induction false} ClaimLoopEnds(accountId: string, plans: nat -> Plan, write: nat -> WriteOutcome, attempt: nat)
    requires attempt < MAX_ATTEMPTS
    ensures ClaimEndsAsReported(ClaimLoop(accountId, plans, write, attempt), accountId, plans, write, attempt)
    decreases MAX_ATTEMPTS - attempt
  {
    var plan := plans(attempt);
    if write(attempt) == Conflict && attempt < MAX_ATTEMPTS - 1 && (plan.usage < plan.limit || NeedsWindowRefresh(plan)) {
      var run := ClaimLoop(accountId, plans, write, attempt);
      var rest := ClaimLoop(accountId, plans, write, attempt + 1);
      ClaimLoopEnds(accountId, plans, write, attempt + 1);
      assert run.outcome == rest.outcome && |run.writes| == |rest.writes| + 1;
      ClaimEndsAfterConflict(run, rest, accountId, plans, write, attempt);
    } else {
      ClaimEndsAtOnce(accountId, plans, write, attempt);
    }
  }

  /** A run that lost the race at `attempt` and then went on as `rest` ends as `rest` reports. */
  lemma ClaimEndsAfterConflict(run: ClaimRun, rest: ClaimRun, accountId: string, plans: nat -> Plan, write: nat -> WriteOutcome, attempt: nat)
    requires write(attempt) == Conflict
    requires run.outcome == rest.outcome && |run.writes| == |rest.writes| + 1
    requires ClaimEndsAsReported(rest, accountId, plans, write, attempt + 1)
    ensures ClaimEndsAsReported(run, accountId, plans, write, attempt)
  {
  }

  /** An attempt that does not retry makes the last write of the loop, if any. */
  lemma ClaimEndsAtOnce(accountId: string, plans: nat -> Plan, write: nat -> WriteOutcome, attempt: nat)
    requires attempt < MAX_ATTEMPTS
    requires var plan := plans(attempt);
      !(write(attempt) == Conflict && attempt < MAX_ATTEMPTS - 1 && (plan.usage < plan.limit || NeedsWindowRefresh(plan)))
    ensures ClaimEndsAsReported(ClaimLoop(accountId, plans, write, attempt), accountId, plans, write, attempt)
  {
    var run := ClaimLoop(accountId, plans, write, attempt);
    assert |run.writes| <= 1;
    assert run.outcome == Contention ==> attempt == MAX_ATTEMPTS - 1 && write(attempt) == Conflict && |run.writes| == 1;
  }

  /**
   * `_try_claim_account`: `Claimed` is an `AccountUsage`, `Exhausted` is
   * `None`, `Contention` is `ClaimContentionError`, and `Failed` is any other
   * write error propagating.
   */
  function TryClaim(
    account: ChartImgAccount, clock: Clock, defaultLimit: PositiveInt,
    read: nat -> Option<UsageDoc>, write: nat -> WriteOutcome): (run: ClaimRun)
    ensures |run.writes| <= MAX_ATTEMPTS
    ensures forall k :: 0 <= k < |run.writes| ==> run.writes[k].attempt == k
    ensures WritesRespectLimit(run.writes, AttemptPlans(account, clock, defaultLimit, read))
    ensures ClaimEndsAsReported(run, account.id, AttemptPlans(account, clock, defaultLimit, read), write, 0)
    ensures run.outcome.Claimed? ==>
      run.outcome.usage.accountId == account.id && run.outcome.usage.usageToday <= run.outcome.usage.dailyLimit
  {
    var plans := AttemptPlans(account, clock, defaultLimit, read);
    ClaimLoopRespectsLimit(account.id, plans, write, 0);
    ClaimLoopEnds(account.id, plans, write, 0);
    ClaimLoop(account.id, plans, write, 0)
  }

  /** A first read at or over the limit, whose refresh does not lose a race, reports exhaustion without incrementing. */
  lemma ExhaustedReadNeverIncrements(
    account: ChartImgAccount, clock: Clock, defaultLimit: PositiveInt,
    read: nat -> Option<UsageDoc>, write: nat -> WriteOutcome)
    requires var plan := PlanFor(read(0), account, clock, defaultLimit); plan.usage >= plan.limit
    requires write(0) != Conflict
    ensures var run := TryClaim(account, clock, defaultLimit, read, write);
      && run.outcome == Exhausted && |run.writes| <= 1
      && forall k :: 0 <= k < |run.writes| ==>
           run.writes[k].fields["usageToday"] == JInt(PlanFor(read(0), account, clock, defaultLimit).usage)
  {
  }

  /** Three lost races on a below-limit counter raise contention after exactly three claim writes. */
  lemma ContentionAfterThreeConflicts(
    account: ChartImgAccount, clock: Clock, defaultLimit: PositiveInt,
    read: nat -> Option<UsageDoc>, write: nat -> WriteOutcome)
    requires forall i: nat :: i < MAX_ATTEMPTS ==> write(i) == Conflict
    requires forall i: nat :: i < MAX_ATTEMPTS ==>
      PlanFor(read(i), account, clock, defaultLimit).usage < PlanFor(read(i), account, clock, defaultLimit).limit
    ensures var run := TryClaim(account, clock, defaultLimit, read, write);
      run.outcome == Contention && |run.writes| == MAX_ATTEMPTS
  {
    var plans := AttemptPlans(account, clock, defaultLimit, read);
    var r2 := ClaimLoop(account.id, plans, write, 2);
    assert r2.outcome == Contention;
    var r1 := ClaimLoop(account.id, plans, write, 1);
    assert r1.outcome == Contention;
  }

  // ---------------------------------------------------------------------------
  // The store, one claim after another
  // ---------------------------------------------------------------------------

  function StoredDoc(store: UsageStore, id: string): Option<UsageDoc> {
    if id in store then Some(store[id]) else None
  }

  /** `set(update, merge=False)` replaces the document; `update(update)` overwrites the named fields. */
  function ApplyWrite(store: UsageStore, id: string, w: UsageWrite): (r: UsageStore)
    ensures r.Keys == store.Keys + {id}
    ensures forall other :: other in store && other != id ==> r[other] == store[other]
  {
    if w.create then store[id := w.fields]
    else store[id := StoredDoc(store, id).GetOr(map[]) + w.fields]
  }

  /** The usage the allocator would count for `id` right now. */
  function CurrentUsage(store: UsageStore, id: string, clock: Clock): nat {
    ResetWindow(StoredDoc(store, id).GetOr(map[]), clock).0
  }

  /** One claim with nobody else writing: every read sees the store and every write commits. */
  function ClaimOnStore(store: UsageStore, account: ChartImgAccount, clock: Clock, defaultLimit: PositiveInt): (r: (UsageStore, ClaimOutcome))
    ensures forall other :: other in store && other != account.id ==> other in r.0 && r.0[other] == store[other]
  {
    var run := TryClaim(account, clock, defaultLimit, _ => StoredDoc(store, account.id), _ => Written);
    var after := if |run.writes| == 0 then store else ApplyWrite(store, account.id, run.writes[0]);
    (after, run.outcome)
  }

  /**
   * Without contention a claim below the limit raises the counted usage by
   * one and reports it; at or over the limit it reports exhaustion and leaves
   * the count where it was.  The limit itself does not move.
   */
  lemma ClaimOnStoreCounts(store: UsageStore, account: ChartImgAccount, clock: Clock, defaultLimit: PositiveInt)
    requires ConsistentClock(clock)
    ensures var r := ClaimOnStore(store, account, clock, defaultLimit);
      var u := CurrentUsage(store, account.id, clock);
      var limit := StoredLimit(store, account, defaultLimit);
      && StoredLimit(r.0, account, defaultLimit) == limit
      && (u < limit ==> r.1.Claimed? && r.1.usage.usageToday == u + 1 && CurrentUsage(r.0, account.id, clock) == u + 1)
      && (u >= limit ==> r.1 == Exhausted && CurrentUsage(r.0, account.id, clock) == u)
  {
    var id := account.id;
    var plan := PlanFor(StoredDoc(store, id), account, clock, defaultLimit);
    var run := TryClaim(account, clock, defaultLimit, _ => StoredDoc(store, id), _ => Written);
    var (after, outcome) := ClaimOnStore(store, account, clock, defaultLimit);
    assert WindowDay(JStr(plan.windowStart), clock) == Some(clock.today);
    if |run.writes| > 0 {
      var w := run.writes[0];
      assert RespectsLimit(w, plan);
      var doc := StoredDoc(after, id).GetOr(map[]);
      assert Get(doc, "windowStart") == JStr(plan.windowStart);
      assert Get(doc, "dailyLimit") == Get(plan.data, "dailyLimit");
    }
  }

  /** `step` applied `n` times: with `ClaimStep`, `n` claims one after another. */
  function Iterate<S>(step: S -> S, store: S, n: nat): S
    decreases n
  {
    if n == 0 then store else Iterate(step, step(store), n - 1)
  }

  /** One uncontended claim on the store. */
  function ClaimStep(account: ChartImgAccount, clock: Clock, defaultLimit: PositiveInt): UsageStore -> UsageStore {
    (s: UsageStore) => ClaimOnStore(s, account, clock, defaultLimit).0
  }

  function UsageIn(account: ChartImgAccount, clock: Clock): UsageStore -> nat {
    (s: UsageStore) => CurrentUsage(s, account.id, clock)
  }

  function LimitIn(account: ChartImgAccount, defaultLimit: PositiveInt): UsageStore -> int {
    (s: UsageStore) => StoredLimit(s, account, defaultLimit)
  }

  /** Every uncontended claim keeps the limit and counts one unit while below it. */
  lemma ClaimStepClimbs(account: ChartImgAccount, clock: Clock, defaultLimit: PositiveInt)
    requires ConsistentClock(clock)
    ensures Climbs(ClaimStep(account, clock, defaultLimit), UsageIn(account, clock), LimitIn(account, defaultLimit))
  {
    forall s
      ensures StoredLimit(ClaimOnStore(s, account, clock, defaultLimit).0, account, defaultLimit) == StoredLimit(s, account, defaultLimit)
      ensures var u := CurrentUsage(s, account.id, clock);
        CurrentUsage(ClaimOnStore(s, account, clock, defaultLimit).0, account.id, clock)
          == if u < StoredLimit(s, account, defaultLimit) then u + 1 else u
    {
      ClaimOnStoreCounts(s, account, clock, defaultLimit);
    }
  }

  /** The counted usage after `n` claims starting from `u` against `limit`. */
  function UsageAfterClaims(u: nat, limit: int, n: nat): int {
    if u >= limit then u else if u + n <= limit then u + n else limit
  }

  /** One claim moves the count one step towards the limit and leaves `n - 1` claims to go. */
  lemma UsageAfterOneClaim(u: nat, limit: int, n: nat)
    requires n > 0
    ensures UsageAfterClaims(u, limit, n) == UsageAfterClaims(if u < limit then u + 1 else u, limit, n - 1)
  {
  }

  /** `step` keeps the limit and counts one unit while below it. */
  ghost predicate Climbs<S(!new)>(step: S -> S, usage: S -> nat, limit: S -> int) {
    && (forall s :: limit(step(s)) == limit(s))
    && (forall s :: usage(step(s)) == if usage(s) < limit(s) then usage(s) + 1 else usage(s))
  }

  /** A climbing step repeated `n` times. */
  lemma {:induction false} IterateClimbs<S(!new)>(step: S -> S, usage: S -> nat, limit: S -> int, store: S, n: nat)
    requires Climbs(step, usage, limit)
    ensures usage(Iterate(step, store, n)) == UsageAfterClaims(usage(store), limit(store), n)
    decreases n
  {
    if n > 0 {
      IterateClimbs(step, usage, limit, step(store), n - 1);
      UsageAfterOneClaim(usage(store), limit(store), n);
    }
  }

  /** The limit a store's document resolves to for `account`. */
  function StoredLimit(store: UsageStore, account: ChartImgAccount, defaultLimit: PositiveInt): int {
    ResolveDailyLimit(account, StoredDoc(store, account.id).GetOr(map[]), defaultLimit)
  }

  /**
   * However many claims run in one day, the counted usage climbs one at a
   * time and stops at the limit; a count already at or over the limit never
   * moves.
   */
  lemma RepeatedClaimsStopAtLimit(
    store: UsageStore, account: ChartImgAccount, clock: Clock, defaultLimit: PositiveInt, n: nat)
    requires ConsistentClock(clock)
    ensures CurrentUsage(Iterate(ClaimStep(account, clock, defaultLimit), store, n), account.id, clock)
         == UsageAfterClaims(CurrentUsage(store, account.id, clock), StoredLimit(store, account, defaultLimit), n)
  {
    ClaimStepClimbs(account, clock, defaultLimit);
    IterateClimbs(ClaimStep(account, clock, defaultLimit), UsageIn(account, clock), LimitIn(account, defaultLimit), store, n);
  }

  // ---------------------------------------------------------------------------
  // select_account_for_request
  // ---------------------------------------------------------------------------

  datatype AccountSelection = AccountSelection(
    account: Option<ChartImgAccount>,
    usage: Option<AccountUsage>,
    exhaustedAccounts: seq<string>)

  /** A claim outcome that ends the scan over the pool. */
  predicate Settles(o: ClaimOutcome) {
    o.Claimed? || o.Failed?
  }

  /** The first position from `k` on whose claim settles the scan, or the pool size. */
  function FirstSettled(n: nat, claim: nat -> ClaimOutcome, k: nat): (j: nat)
    requires k <= n
    ensures k <= j <= n
    ensures forall i: nat :: k <= i < j ==> !Settles(claim(i))
    ensures j < n ==> Settles(claim(j))
    decreases n - k
  {
    if k == n then k
    else if Settles(claim(k)) then k
    else FirstSettled(n, claim, k + 1)
  }

  /** The ids of the positions in `[k, j)` whose claim found the account exhausted, in pool order. */
  function ExhaustedIds(accounts: seq<ChartImgAccount>, claim: nat -> ClaimOutcome, k: nat, j: nat): (ids: seq<string>)
    requires k <= j <= |accounts|
    ensures |ids| <= j - k
    decreases j - k
  {
    if k == j then []
    else (if claim(k) == Exhausted then [accounts[k].id] else []) + ExhaustedIds(accounts, claim, k + 1, j)
  }

  /**
   * The scan of `select_account_for_request` from position `k` on, where
   * `claim(k)` is the outcome of `_try_claim_account` on the `k`-th account.
   */
  function SelectFrom(accounts: seq<ChartImgAccount>, claim: nat -> ClaimOutcome, k: nat): (r: Result<AccountSelection, string>)
    requires k <= |accounts|
    decreases |accounts| - k
  {
    if k == |accounts| then Ok(AccountSelection(None, None, []))
    else
      match claim(k)
      case Claimed(usage) => Ok(AccountSelection(Some(accounts[k]), Some(usage), []))
      case Failed(reason) => Err(reason)
      case Contention => SelectFrom(accounts, claim, k + 1)
      case Exhausted =>
        var rest := SelectFrom(accounts, claim, k + 1);
        if rest.Err? then rest
        else Ok(rest.value.(exhaustedAccounts := [accounts[k].id] + rest.value.exhaustedAccounts))
  }

  /**
   * The scan stops at the first account whose claim settles: it returns that
   * account and its usage when the claim succeeded, the error when it failed,
   * and no account when none settles.  The exhausted list names, in pool
   * order, exactly the accounts before that point whose claim found them
   * exhausted; accounts that met contention are skipped without being listed.
   */
  predicate SelectionAsSpecified(accounts: seq<ChartImgAccount>, claim: nat -> ClaimOutcome, k: nat, r: Result<AccountSelection, string>)
    requires k <= |accounts|
  {
    var j := FirstSettled(|accounts|, claim, k);
    var exhausted := ExhaustedIds(accounts, claim, k, j);
    && (j == |accounts| ==> r == Ok(AccountSelection(None, None, exhausted)))
    && (j < |accounts| && claim(j).Claimed? ==> r == Ok(AccountSelection(Some(accounts[j]), Some(claim(j).usage), exhausted)))
    && (j < |accounts| && claim(j).Failed? ==> r == Err(claim(j).reason))
  }

  lemma {:induction false} SelectFromAsSpecified(accounts: seq<ChartImgAccount>, claim: nat -> ClaimOutcome, k: nat)
    requires k <= |accounts|
    ensures SelectionAsSpecified(accounts, claim, k, SelectFrom(accounts, claim, k))
    decreases |accounts| - k
  {
    if k < |accounts| && !Settles(claim(k)) {
      SelectFromAsSpecified(accounts, claim, k + 1);
      var j := FirstSettled(|accounts|, claim, k + 1);
      assert FirstSettled(|accounts|, claim, k) == j;
      assert ExhaustedIds(accounts, claim, k, j)
          == (if claim(k) == Exhausted then [accounts[k].id] else []) + ExhaustedIds(accounts, claim, k + 1, j);
      var rest := SelectFrom(accounts, claim, k + 1);
      if claim(k) == Exhausted && rest.Ok? {
        var sel := rest.value;
        assert SelectFrom(accounts, claim, k)
            == Ok(AccountSelection(sel.account, sel.usage, [accounts[k].id] + sel.exhaustedAccounts));
      } else if claim(k) == Contention {
        assert SelectFrom(accounts, claim, k) == rest;
        assert ExhaustedIds(accounts, claim, k, j) == ExhaustedIds(accounts, claim, k + 1, j);
      }
    }
  }

  /** The claim on the pool's `k`-th account; `read(k, i)` and `write(k, i)` serve its attempt `i`. */
  function ClaimAt(
    accounts: seq<ChartImgAccount>, clock: Clock, defaultLimit: PositiveInt,
    read: (nat, nat) -> Option<UsageDoc>, write: (nat, nat) -> WriteOutcome, k: nat): (o: ClaimOutcome)
    ensures k < |accounts| && o.Claimed? ==> o.usage.accountId == accounts[k].id && o.usage.usageToday <= o.usage.dailyLimit
  {
    if k < |accounts| then
      TryClaim(accounts[k], clock, defaultLimit, (i: nat) => read(k, i), (i: nat) => write(k, i)).outcome
    else Exhausted
  }

  /** `select_account_for_request`; an `Err` is a write error other than a conflict, propagating. */
  function SelectAccount(
    accounts: seq<ChartImgAccount>, clock: Clock, defaultLimit: PositiveInt,
    read: (nat, nat) -> Option<UsageDoc>, write: (nat, nat) -> WriteOutcome): (r: Result<AccountSelection, string>)
    ensures SelectionAsSpecified(accounts, (k: nat) => ClaimAt(accounts, clock, defaultLimit, read, write, k), 0, r)
  {
    var claim := (k: nat) => ClaimAt(accounts, clock, defaultLimit, read, write, k);
    SelectFromAsSpecified(accounts, claim, 0);
    SelectFrom(accounts, claim, 0)
  }

  /** A selected account is one of the pool's, and the usage it claimed stays within its limit. */
  lemma SelectedAccountWithinLimit(
    accounts: seq<ChartImgAccount>, clock: Clock, defaultLimit: PositiveInt,
    read: (nat, nat) -> Option<UsageDoc>, write: (nat, nat) -> WriteOutcome)
    requires var r := SelectAccount(accounts, clock, defaultLimit, read, write); r.Ok? && r.value.account.Some?
    ensures var sel := SelectAccount(accounts, clock, defaultLimit, read, write).value;
      && sel.account.value in accounts && sel.usage.Some?
      && sel.usage.value.accountId == sel.account.value.id
      && sel.usage.value.usageToday <= sel.usage.value.dailyLimit
  {
    var claim := (k: nat) => ClaimAt(accounts, clock, defaultLimit, read, write, k);
    var j := FirstSettled(|accounts|, claim, 0);
    assert j < |accounts|;
  }

  // ---------------------------------------------------------------------------
  // mark_account_exhausted
  // ---------------------------------------------------------------------------

  datatype MarkRun = MarkRun(usage: AccountUsage, writes: seq<UsageWrite>)

  /**
   * The attempt loop of `mark_account_exhausted` from attempt `attempt` on.
   * Every attempt writes the usage up to the limit; when the last conflict
   * retry is spent it still reports the limit.  An `Err` is any other write
   * error, propagating.
   */
  function MarkLoop(accountId: string, plans: nat -> Plan, write: nat -> WriteOutcome, attempt: nat): (r: Result<MarkRun, string>)
    requires attempt < MAX_ATTEMPTS
    ensures r.Ok? ==> r.value.usage.accountId == accountId && r.value.usage.usageToday == r.value.usage.dailyLimit
    ensures r.Ok? ==> 0 < |r.value.writes| <= MAX_ATTEMPTS - attempt
    ensures r.Ok? ==> forall k :: 0 <= k < |r.value.writes| ==>
      var plan := plans(attempt + k);
      r.value.writes[k] == UsageWrite(attempt + k, !plan.present, UsageFields(plan.windowStart, plan.limit))
    ensures r.Ok? ==> var last := attempt + |r.value.writes| - 1;
      var plan := plans(last);
      r.value.usage == AccountUsage(accountId, plan.limit, plan.limit, plan.windowStart)
      && (write(last) == Written || (write(last) == Conflict && last == MAX_ATTEMPTS - 1))
    ensures (forall i: nat :: attempt <= i < MAX_ATTEMPTS ==> !write(i).OtherError?) ==> r.Ok?
    decreases MAX_ATTEMPTS - attempt
  {
    var plan := plans(attempt);
    var w := UsageWrite(attempt, !plan.present, UsageFields(plan.windowStart, plan.limit));
    var usage := AccountUsage(accountId, plan.limit, plan.limit, plan.windowStart);
    match write(attempt)
    case Written => Ok(MarkRun(usage, [w]))
    case OtherError(reason) => Err(reason)
    case Conflict =>
      if attempt < MAX_ATTEMPTS - 1 then
        var rest := MarkLoop(accountId, plans, write, attempt + 1);
        if rest.Err? then rest else Ok(MarkRun(rest.value.usage, [w] + rest.value.writes))
      else Ok(MarkRun(usage, [w]))
  }

  /** `mark_account_exhausted`. */
  function MarkExhausted(
    account: ChartImgAccount, clock: Clock, defaultLimit: PositiveInt,
    read: nat -> Option<UsageDoc>, write: nat -> WriteOutcome): (r: Result<MarkRun, string>)
    ensures r.Ok? ==> r.value.usage.usageToday == r.value.usage.dailyLimit
    ensures (forall i: nat :: i < MAX_ATTEMPTS ==> !write(i).OtherError?) ==> r.Ok?
  {
    MarkLoop(account.id, AttemptPlans(account, clock, defaultLimit, read), write, 0)
  }

  /** Marking with nobody else writing leaves the counted usage at the limit. */
  lemma MarkOnStoreReachesLimit(store: UsageStore, account: ChartImgAccount, clock: Clock, defaultLimit: PositiveInt)
    requires ConsistentClock(clock)
    requires ResolveDailyLimit(account, StoredDoc(store, account.id).GetOr(map[]), defaultLimit) >= 0
    ensures var r := MarkExhausted(account, clock, defaultLimit, _ => StoredDoc(store, account.id), _ => Written);
      r.Ok? && |r.value.writes| == 1
      && CurrentUsage(ApplyWrite(store, account.id, r.value.writes[0]), account.id, clock)
         == ResolveDailyLimit(account, StoredDoc(store, account.id).GetOr(map[]), defaultLimit)
  {
    var plan := PlanFor(StoredDoc(store, account.id), account, clock, defaultLimit);
    assert WindowDay(JStr(plan.windowStart), clock) == Some(clock.today);
  }
}
