/** What holds of every run of the outbox protocol, in every interleaving. */
module OutboxRuns {
  import opened Wrappers
  import opened WebhookRetry
  import opened Outbox

  /** Step k is a phase three that records its verdict on row id. */
  ghost predicate RecordsAt(r: Run, k: nat, id: RowId)
    requires |r.states| == |r.steps| + 1 && k < |r.steps|
  {
    && r.steps[k].Apply?
    && Records(r.states[k], r.steps[k].worker)
    && r.states[k].workers[r.steps[k].worker].row == id
  }

  lemma StepAt(cfg: Config, r: Run, k: nat)
    requires Legal(cfg, r) && k < |r.steps|
    ensures Enabled(r.states[k], r.steps[k]) && r.states[k + 1] == Next(cfg, r.states[k], r.steps[k])
    ensures Inv(cfg, r.states[k])
  {
    assert StepOk(cfg, r, k);
    Reachable(cfg, r, k);
  }

  // ---------- the attempt log ----------

  /** Step k is where the outcome behind attempt d.number of row d.row was obtained. */
  ghost predicate DecidesAt(r: Run, k: nat, d: Decision)
    requires |r.states| == |r.steps| + 1 && k < |r.steps|
  {
    var s := r.states[k];
    match r.steps[k]
    case Send(w, result) =>
      && w in s.workers && s.workers[w].Sending? && s.workers[w].row == d.row
      && s.workers[w].snapshot + 1 == d.number && d.verdict == Sent(result)
    case Begin(w, ruleError) =>
      && w in s.workers && s.workers[w] == Queued(d.row)
      && d.row in s.table && s.table[d.row].row.attemptCount + 1 == d.number
      && ruleError.Some? && d.verdict == RuleRejected(ruleError.value)
    case _ => false
  }

  lemma {:induction false} DecisionsComeFromSteps(cfg: Config, r: Run, m: nat, d: Decision) returns (k: nat)
    requires Legal(cfg, r) && m <= |r.steps| && d in r.states[m].decisions
    ensures k < m && DecidesAt(r, k, d)
  {
    k := m - 1;
    StepAt(cfg, r, k);
    if d in r.states[k].decisions {
      k := DecisionsComeFromSteps(cfg, r, k, d);
    }
  }

  /** A worker that holds a verdict obtained it itself. */
  lemma {:induction false} HeldVerdict(cfg: Config, r: Run, m: nat, w: WorkerId) returns (k: nat)
    requires Legal(cfg, r) && m <= |r.steps| && w in r.states[m].workers && r.states[m].workers[w].Holding?
    ensures var worker := r.states[m].workers[w];
            && k < m && DecidesAt(r, k, Decision(worker.row, worker.snapshot + 1, worker.verdict))
            && Decider(r.steps[k]) == Some(w)
  {
    k := m - 1;
    StepAt(cfg, r, k);
    if w in r.states[k].workers && r.states[k].workers[w] == r.states[m].workers[w] {
      k := HeldVerdict(cfg, r, k, w);
    }
  }

  /** The worker that a step obtains a verdict for. */
  function Decider(step: Step): Option<WorkerId> {
    match step
    case Send(w, _) => Some(w)
    case Begin(w, _) => Some(w)
    case _ => None
  }

  /** Step k records attempt number i + 1 of row id. */
  ghost predicate RecordsNumber(r: Run, k: nat, id: RowId, i: nat, attempt: Attempt)
    requires |r.states| == |r.steps| + 1 && k < |r.steps|
  {
    && RecordsAt(r, k, id)
    && r.states[k].workers[r.steps[k].worker].snapshot == i
    && attempt == AttemptFor(i + 1, r.states[k].workers[r.steps[k].worker].verdict)
  }

  /** Every stored attempt was recorded by one phase three, of a worker with the snapshot just below its number. */
  lemma {:induction false} AttemptWasRecorded(cfg: Config, r: Run, m: nat, id: RowId, i: nat) returns (k: nat)
    requires Legal(cfg, r) && m <= |r.steps| && id in r.states[m].table && i < |r.states[m].table[id].attempts|
    ensures k < m && RecordsNumber(r, k, id, i, r.states[m].table[id].attempts[i])
  {
    k := m - 1;
    StepAt(cfg, r, k);
    var s := r.states[k];
    if id in s.table {
      StepChangesRecord(cfg, s, r.steps[k], id);
      assert RecordOk(cfg, s, id, s.table[id]);
      if i < |s.table[id].attempts| {
        k := AttemptWasRecorded(cfg, r, k, id, i);
      }
    }
  }

  /** The attempt is number i + 1. Step b recorded it, and it holds the outcome of the send, or of the rule check,
      that the very worker of that step had made in step a, under that very number. */
  ghost predicate ExplainedBy(r: Run, a: nat, b: nat, id: RowId, i: nat, attempt: Attempt)
    requires |r.states| == |r.steps| + 1 && a < b < |r.steps|
  {
    && attempt.number == i + 1 && RecordsNumber(r, b, id, i, attempt)
    && var w := r.steps[b].worker;
       Decider(r.steps[a]) == Some(w) && DecidesAt(r, a, Decision(id, i + 1, r.states[b].workers[w].verdict))
  }

  ghost predicate Explained(r: Run, m: nat, id: RowId, i: nat, attempt: Attempt)
    requires |r.states| == |r.steps| + 1 && m <= |r.steps|
  {
    exists a, b {:trigger ExplainedBy(r, a, b, id, i, attempt)} | 0 <= a < b < m :: ExplainedBy(r, a, b, id, i, attempt)
  }

  lemma AttemptExplained(cfg: Config, r: Run, m: nat, id: RowId, i: nat)
    requires Legal(cfg, r) && m <= |r.steps| && id in r.states[m].table && i < |r.states[m].table[id].attempts|
    ensures Explained(r, m, id, i, r.states[m].table[id].attempts[i])
  {
    var b := AttemptWasRecorded(cfg, r, m, id, i);
    var a := HeldVerdict(cfg, r, b, r.steps[b].worker);
    assert ExplainedBy(r, a, b, id, i, r.states[m].table[id].attempts[i]);
  }

  /** At every moment of every run the stored attempts of a row are numbered 1..attempt_count and explained. */
  lemma AttemptLogExact(cfg: Config, r: Run, m: nat, id: RowId)
    requires Legal(cfg, r) && m <= |r.steps| && id in r.states[m].table
    ensures |r.states[m].table[id].attempts| == r.states[m].table[id].row.attemptCount
    ensures forall i {:trigger r.states[m].table[id].attempts[i]} :: 0 <= i < |r.states[m].table[id].attempts|
              ==> Explained(r, m, id, i, r.states[m].table[id].attempts[i])
  {
    Reachable(cfg, r, m);
    assert RecordOk(cfg, r.states[m], id, r.states[m].table[id]);
    forall i | 0 <= i < |r.states[m].table[id].attempts|
      ensures Explained(r, m, id, i, r.states[m].table[id].attempts[i])
    {
      AttemptExplained(cfg, r, m, id, i);
    }
  }

  // ---------- rows live once and their counts only grow ----------

  lemma {:induction false} TimeGoesOn(cfg: Config, r: Run, i: nat, j: nat)
    requires Legal(cfg, r) && i <= j <= |r.steps|
    ensures r.states[i].created <= r.states[j].created && r.states[i].clock <= r.states[j].clock
    ensures r.states[i].workers.Keys <= r.states[j].workers.Keys
    decreases j
  {
    if i < j {
      TimeGoesOn(cfg, r, i, j - 1);
      assert StepOk(cfg, r, j - 1);
    }
  }

  /** A row that existed earlier and exists after step m also existed before it, and changed in a known way. */
  lemma RowBefore(cfg: Config, r: Run, i: nat, m: nat, id: RowId)
    requires Legal(cfg, r) && i <= m < |r.steps|
    requires id in r.states[i].created && id in r.states[m + 1].table
    ensures id in r.states[m].table
    ensures RecordChange(cfg, r.states[m], r.steps[m], id, r.states[m].table[id], r.states[m + 1].table[id])
  {
    StepAt(cfg, r, m);
    TimeGoesOn(cfg, r, i, m);
    StepChangesRecord(cfg, r.states[m], r.steps[m], id);
  }

  /** A row seen at two moments was there all along, and its log at the later one extends the earlier log. */
  lemma {:induction false} LogOnlyGrows(cfg: Config, r: Run, i: nat, j: nat, id: RowId)
    requires Legal(cfg, r) && i <= j <= |r.steps|
    requires id in r.states[i].table && id in r.states[j].table
    ensures r.states[i].table[id].attempts <= r.states[j].table[id].attempts
    ensures r.states[i].table[id].row.attemptCount <= r.states[j].table[id].row.attemptCount
    decreases j
  {
    if i < j {
      Reachable(cfg, r, i);
      RowBefore(cfg, r, i, j - 1, id);
      LogOnlyGrows(cfg, r, i, j - 1, id);
    }
  }

  /** Of all senders that took the same snapshot of a row, at most one is ever recorded. */
  lemma SnapshotRecordedOnce(cfg: Config, r: Run, i: nat, j: nat, id: RowId)
    requires Legal(cfg, r) && i < j < |r.steps|
    requires RecordsAt(r, i, id) && RecordsAt(r, j, id)
    ensures r.states[i].workers[r.steps[i].worker].snapshot < r.states[j].workers[r.steps[j].worker].snapshot
  {
    StepAt(cfg, r, i);
    LogOnlyGrows(cfg, r, i + 1, j, id);
  }

  /** Once delivered or dead, a row and its log change only when an operator requeues or someone deletes it. */
  lemma TerminalRowsAreFinal(cfg: Config, r: Run, k: nat, id: RowId)
    requires Legal(cfg, r) && k < |r.steps|
    requires id in r.states[k].table && r.states[k].table[id].row.Terminal()
    requires r.steps[k] != Requeue(id) && r.steps[k] != Delete(id)
    ensures id in r.states[k + 1].table && r.states[k + 1].table[id] == r.states[k].table[id]
  {
    StepAt(cfg, r, k);
    assert id in r.states[k + 1].table;
    StepChangesRecord(cfg, r.states[k], r.steps[k], id);
    assert RecordOk(cfg, r.states[k], id, r.states[k].table[id]);
  }

  // ---------- leases ----------

  /** The steps that void a lease on purpose. */
  predicate Disturbs(step: Step, id: RowId) {
    step == Requeue(id) || step == Release(id)
  }

  ghost predicate DisturbedBetween(steps: seq<Step>, i: int, j: int, id: RowId) {
    exists k {:trigger steps[k]} :: i < k < j && 0 <= k < |steps| && Disturbs(steps[k], id)
  }

  predicate ClaimsAt(steps: seq<Step>, i: nat, id: RowId) {
    i < |steps| && steps[i].Claim? && steps[i].id == id
  }

  /** Step k recorded an attempt on id and scheduled the next one at time t, half a minute or more later. */
  ghost predicate ScheduledAt(r: Run, k: nat, id: RowId, t: Time)
    requires |r.states| == |r.steps| + 1 && k < |r.steps|
  {
    && RecordsAt(r, k, id)
    && id in r.states[k + 1].table && r.states[k + 1].table[id].row.nextAttemptAt == Some(t)
    && r.states[k].clock + Seconds(30) <= t
  }

  /** What a claim of id at step i still guarantees of the row at the later moment m. */
  ghost predicate Guarded(cfg: Config, r: Run, i: nat, m: nat, id: RowId)
    requires |r.states| == |r.steps| + 1 && i < m <= |r.steps| && r.steps[i].Claim?
  {
    id in r.states[m].table ==>
      var row := r.states[m].table[id].row;
      || row.Terminal()
      || (row.lockedUntil.Some? && r.steps[i].now + Seconds(cfg.leaseSeconds) <= row.lockedUntil.value)
      || (row.nextAttemptAt.Some?
          && exists k {:trigger RecordsAt(r, k, id)} :: i < k < m && ScheduledAt(r, k, id, row.nextAttemptAt.value))
  }

  lemma AppliedSchedules(cfg: Config, rec: Record, verdict: Verdict, now: Time)
    requires !Applied(cfg, rec, verdict, now).row.Terminal()
    ensures Applied(cfg, rec, verdict, now).row.nextAttemptAt.Some?
    ensures now + Seconds(30) <= Applied(cfg, rec, verdict, now).row.nextAttemptAt.value
  {
    DelayBounds(rec.row.attemptCount + 1, verdict.result.answer);
  }

  lemma StepKeepsGuard(cfg: Config, r: Run, i: nat, m: nat, id: RowId)
    requires Legal(cfg, r) && i < m < |r.steps| && cfg.leaseSeconds >= 0
    requires ClaimsAt(r.steps, i, id) && !Disturbs(r.steps[m], id)
    requires Guarded(cfg, r, i, m, id)
    ensures Guarded(cfg, r, i, m + 1, id)
  {
    if id in r.states[m + 1].table {
      StepAt(cfg, r, i);
      RowBefore(cfg, r, i, m, id);
      var rec, rec' := r.states[m].table[id], r.states[m + 1].table[id];
      if RecordsAt(r, m, id) {
        if !rec'.row.Terminal() {
          AppliedSchedules(cfg, rec, r.states[m].workers[r.steps[m].worker].verdict, r.states[m].clock);
          assert ScheduledAt(r, m, id, rec'.row.nextAttemptAt.value);
        }
      } else if !rec'.row.Terminal() {
        var row := rec.row;
        if row.lockedUntil.Some? && r.steps[i].now + Seconds(cfg.leaseSeconds) <= row.lockedUntil.value {
        } else {
          var k :| i < k < m && ScheduledAt(r, k, id, row.nextAttemptAt.value);
          assert RecordsAt(r, k, id) && rec'.row.nextAttemptAt == row.nextAttemptAt;
        }
      }
    }
  }

  lemma {:induction false} ClaimGuards(cfg: Config, r: Run, i: nat, m: nat, id: RowId)
    requires Legal(cfg, r) && i < m <= |r.steps| && cfg.leaseSeconds >= 0
    requires ClaimsAt(r.steps, i, id) && !DisturbedBetween(r.steps, i, m, id)
    ensures Guarded(cfg, r, i, m, id)
    decreases m
  {
    if i + 1 < m {
      assert !Disturbs(r.steps[m - 1], id);
      ClaimGuards(cfg, r, i, m - 1, id);
      StepKeepsGuard(cfg, r, i, m - 1, id);
    } else {
      StepAt(cfg, r, i);
    }
  }

  /** Two claims of a row are a lease apart, or an attempt was recorded in between and its schedule has come. */
  lemma LeaseExclusion(cfg: Config, r: Run, i: nat, j: nat, id: RowId)
    requires Legal(cfg, r) && i < j && cfg.leaseSeconds >= 0
    requires ClaimsAt(r.steps, i, id) && ClaimsAt(r.steps, j, id)
    ensures || DisturbedBetween(r.steps, i, j, id)
            || r.steps[i].now + Seconds(cfg.leaseSeconds) <= r.steps[j].now
            || exists k, t {:trigger ScheduledAt(r, k, id, t)} ::
                 i < k < j && ScheduledAt(r, k, id, t) && t <= r.steps[j].now
  {
    if !DisturbedBetween(r.steps, i, j, id) {
      ClaimGuards(cfg, r, i, j, id);
      StepAt(cfg, r, j);
    }
  }

  /** Claims made with one fixed now, as one retry run makes them, never take the same row twice. */
  lemma ClaimedOncePerRun(cfg: Config, r: Run, i: nat, j: nat, id: RowId)
    requires Legal(cfg, r) && i < j && cfg.leaseSeconds >= 1
    requires ClaimsAt(r.steps, i, id) && ClaimsAt(r.steps, j, id) && r.steps[i].now == r.steps[j].now
    ensures DisturbedBetween(r.steps, i, j, id)
  {
    if !DisturbedBetween(r.steps, i, j, id) {
      LeaseExclusion(cfg, r, i, j, id);
      var k, t :| i < k < j && ScheduledAt(r, k, id, t) && t <= r.steps[j].now;
      StepAt(cfg, r, i);
      TimeGoesOn(cfg, r, i, k);
      assert false;
    }
  }

  /** From when a live row is claimable at the latest: its last claim plus a lease, its last attempt plus an hour. */
  ghost predicate DueBy(cfg: Config, past: History, now: Time) {
    && (past.claimedAt.Some? ==> past.claimedAt.value + Seconds(cfg.leaseSeconds) <= now)
    && (past.appliedAt.Some? ==> past.appliedAt.value + Seconds(3600) <= now)
  }

  lemma NoRowGetsStuck(cfg: Config, r: Run, m: nat, id: RowId, now: Time)
    requires Legal(cfg, r) && m <= |r.steps| && id in r.states[m].table
    ensures !r.states[m].table[id].row.Terminal() && DueBy(cfg, r.states[m].table[id].past, now)
            ==> Claimable(r.states[m].table[id].row, now)
    ensures DueBy(cfg, r.states[m].table[id].past,
                  r.states[m].clock + Seconds(Max(Max(0, cfg.leaseSeconds), 3600)))
  {
    Reachable(cfg, r, m);
    assert RecordOk(cfg, r.states[m], id, r.states[m].table[id]);
  }

  /** Only failed rows carry a schedule, and neither delivered nor dead rows carry a lease. */
  lemma ScheduleFitsStatus(cfg: Config, r: Run, m: nat, id: RowId)
    requires Legal(cfg, r) && m <= |r.steps| && id in r.states[m].table
    ensures r.states[m].table[id].row.nextAttemptAt.Some? <==> r.states[m].table[id].row.status == Failed
    ensures r.states[m].table[id].row.Terminal() ==> r.states[m].table[id].row.lockedUntil.None?
  {
    Reachable(cfg, r, m);
    assert RecordOk(cfg, r.states[m], id, r.states[m].table[id]);
  }

  // ---------- attempts are bounded ----------

  function RequeuesOf(steps: seq<Step>, id: RowId): nat {
    if steps == [] then 0
    else RequeuesOf(steps[..|steps| - 1], id) + (if steps[|steps| - 1] == Requeue(id) then 1 else 0)
  }

  lemma {:induction false} RequeuesCounted(cfg: Config, r: Run, m: nat, id: RowId)
    requires Legal(cfg, r) && m <= |r.steps|
    ensures id !in r.states[m].created ==> RequeuesOf(r.steps[..m], id) == 0
    ensures id in r.states[m].table ==> r.states[m].table[id].past.requeues == RequeuesOf(r.steps[..m], id)
  {
    if m > 0 {
      RequeuesCounted(cfg, r, m - 1, id);
      StepAt(cfg, r, m - 1);
      assert r.steps[..m][..m - 1] == r.steps[..m - 1];
    }
  }

  /** Every requeue buys one attempt beyond the configured maximum, and nothing else does. */
  lemma AttemptsBounded(cfg: Config, r: Run, m: nat, id: RowId)
    requires Legal(cfg, r) && m <= |r.steps| && id in r.states[m].table
    ensures r.states[m].table[id].row.attemptCount <= Max(1, cfg.maxAttempts) + RequeuesOf(r.steps[..m], id)
  {
    Reachable(cfg, r, m);
    assert RecordOk(cfg, r.states[m], id, r.states[m].table[id]);
    RequeuesCounted(cfg, r, m, id);
  }

  /** How many recorded attempts a row can still take before it is delivered or dead. */
  function Remaining(cfg: Config, row: Row): nat {
    if row.Terminal() then 0 else Max(1, cfg.maxAttempts - row.attemptCount)
  }

  /** Each recorded attempt uses up at least one of the remaining ones, so their number bounds what is to come. */
  lemma {:induction false} AttemptsRunOut(cfg: Config, r: Run, i: nat, j: nat, id: RowId)
    requires Legal(cfg, r) && i <= j <= |r.steps|
    requires id in r.states[i].table && id in r.states[j].table
    requires forall k {:trigger r.steps[k]} | i <= k < j :: r.steps[k] != Requeue(id)
    ensures r.states[j].table[id].row.attemptCount - r.states[i].table[id].row.attemptCount
            + Remaining(cfg, r.states[j].table[id].row)
            <= Remaining(cfg, r.states[i].table[id].row)
    decreases j
  {
    if i < j {
      Reachable(cfg, r, i);
      RowBefore(cfg, r, i, j - 1, id);
      AttemptsRunOut(cfg, r, i, j - 1, id);
    }
  }

  // ---------- "at most max_attempts" is not so ----------

  function Last(r: Run): State
    requires |r.states| > 0
  {
    r.states[|r.states| - 1]
  }

  /** The run goes on by one step. */
  lemma GoOn(cfg: Config, r: Run, step: Step) returns (longer: Run)
    requires Legal(cfg, r) && Enabled(Last(r), step)
    ensures Legal(cfg, longer) && Last(longer) == Next(cfg, Last(r), step) && longer.steps == r.steps + [step]
  {
    LegalExtended(cfg, r, step);
    longer := r.Extend(step, Next(cfg, Last(r), step));
  }

  /** Without a positive lease two claims with the same now do take the same row. */
  lemma NoLeaseNoExclusion(cfg: Config, id: RowId) returns (r: Run)
    requires cfg.leaseSeconds <= 0
    ensures Legal(cfg, r) && r.steps == [Create(id, Webhook), Claim(id, 0), Claim(id, 0)]
    ensures !DisturbedBetween(r.steps, 1, 2, id)
  {
    r := GoOn(cfg, Run([], [Init()]), Create(id, Webhook));
    r := GoOn(cfg, r, Claim(id, 0));
    r := GoOn(cfg, r, Claim(id, 0));
  }

  /** A webhook row with n attempts that can still be sent, or is dead; workers are fresh from number n on. */
  predicate Tried(s: State, id: RowId, n: nat, status: Status) {
    && id in s.table && s.table[id].row.kind == Webhook && s.table[id].row.status == status
    && s.table[id].row.attemptCount == n && forall w | w in s.workers :: w < n
  }

  /** What a failed attempt that may be retried leaves of a row. */
  function FailedStatus(cfg: Config, number: nat): Status {
    if number >= cfg.maxAttempts then Dead else Failed
  }

  /** One more attempt: sent, and answered with an error that is not final. */
  lemma OneFailure(cfg: Config, r: Run, id: RowId, n: nat, status: Status, failure: SendResult) returns (longer: Run)
    requires Legal(cfg, r) && Tried(Last(r), id, n, status) && Retryable(status)
    requires !failure.success && !failure.permanent
    ensures Legal(cfg, longer) && Tried(Last(longer), id, n + 1, FailedStatus(cfg, n + 1))
    ensures RequeuesOf(longer.steps, id) == RequeuesOf(r.steps, id)
  {
    var r1 := GoOn(cfg, r, Submit(n, id));
    var r2 := GoOn(cfg, r1, Begin(n, None));
    var r3 := GoOn(cfg, r2, Send(n, failure));
    longer := GoOn(cfg, r3, Apply(n));
    RequeuesOfSnoc(r.steps, Submit(n, id), id);
    RequeuesOfSnoc(r1.steps, Begin(n, None), id);
    RequeuesOfSnoc(r2.steps, Send(n, failure), id);
    RequeuesOfSnoc(r3.steps, Apply(n), id);
  }

  lemma RequeuesOfSnoc(steps: seq<Step>, step: Step, id: RowId)
    ensures RequeuesOf(steps + [step], id) == RequeuesOf(steps, id) + if step == Requeue(id) then 1 else 0
  {
    assert (steps + [step])[..|steps|] == steps;
  }

  /** Failures up to the maximum, without a requeue. */
  lemma {:induction false} FailUpTo(cfg: Config, id: RowId, n: nat, failure: SendResult) returns (r: Run)
    requires !failure.success && !failure.permanent && 1 <= n <= Max(1, cfg.maxAttempts)
    ensures Legal(cfg, r) && Tried(Last(r), id, n, FailedStatus(cfg, n)) && RequeuesOf(r.steps, id) == 0
  {
    if n == 1 {
      var created := GoOn(cfg, Run([], [Init()]), Create(id, Webhook));
      RequeuesOfSnoc([], Create(id, Webhook), id);
      r := OneFailure(cfg, created, id, 0, Pending, failure);
    } else {
      var shorter := FailUpTo(cfg, id, n - 1, failure);
      r := OneFailure(cfg, shorter, id, n - 1, Failed, failure);
    }
  }

  /** The bound is met: for every n there is a run with n requeues and the maximum plus n attempts. */
  lemma {:induction false} AttemptsReachBound(cfg: Config, id: RowId, n: nat, failure: SendResult) returns (r: Run)
    requires !failure.success && !failure.permanent
    ensures Legal(cfg, r) && RequeuesOf(r.steps, id) == n
    ensures Tried(Last(r), id, Max(1, cfg.maxAttempts) + n, Dead)
  {
    if n == 0 {
      r := FailUpTo(cfg, id, Max(1, cfg.maxAttempts), failure);
    } else {
      var shorter := AttemptsReachBound(cfg, id, n - 1, failure);
      var requeued := GoOn(cfg, shorter, Requeue(id));
      RequeuesOfSnoc(shorter.steps, Requeue(id), id);
      r := OneFailure(cfg, requeued, id, Max(1, cfg.maxAttempts) + (n - 1), Pending, failure);
    }
  }
}
