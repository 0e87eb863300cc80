/**
 What becomes of a row and its attempt log, told by the statuses, the send results and the steps alone: the
 outcome that every recorded verdict has, and what the statuses say about the sends that were made.
 */
module OutboxOutcomes {
  import opened Wrappers
  import opened WebhookRetry
  import opened Outbox
  import opened OutboxRuns

  /** The status, the dates and the error that a verdict on attempt number n leaves a row with. */
  predicate Outcome(cfg: Config, before: Row, verdict: Verdict, now: Time, after: Row) {
    var n := before.attemptCount + 1;
    && after.kind == before.kind && after.attemptCount == n && after.lockedUntil == None
    && match verdict
       case RuleRejected(reason) =>
         && after.status == Dead && after.lastError == reason
         && after.nextAttemptAt == None && after.deliveredAt == before.deliveredAt
       case Sent(x) =>
         && (after.status == Delivered <==> x.success)
         && (after.status == Dead <==> !x.success && (x.permanent || n >= cfg.maxAttempts))
         && (after.status == Failed <==> !x.success && !x.permanent && n < cfg.maxAttempts)
         && after.deliveredAt == (if x.success then Some(now) else before.deliveredAt)
         && after.lastError == (if x.success then "" else x.error)
         && after.nextAttemptAt == if after.status == Failed then Some(now + Seconds(RetryDelay(n, x.answer))) else None
  }

  /** The attempt that a verdict leaves in the log. */
  predicate Tells(attempt: Attempt, number: nat, verdict: Verdict) {
    && attempt.number == number
    && match verdict
       case RuleRejected(reason) => !attempt.success && attempt.httpStatus == None && attempt.error == reason
       case Sent(x) =>
         && attempt.success == x.success && attempt.httpStatus == x.answer.httpStatus
         && attempt.error == if x.success then "" else x.error
  }

  lemma ApplyOutcome(cfg: Config, row: Row, verdict: Verdict, now: Time)
    ensures Outcome(cfg, row, verdict, now, ApplyVerdict(cfg, row, verdict, now))
    ensures Tells(AttemptFor(row.attemptCount + 1, verdict), row.attemptCount + 1, verdict)
  {
  }

  /** Phase three of w finds row id with the attempt count that w saw. */
  ghost predicate AppliesAt(r: Run, k: nat, w: WorkerId, id: RowId, verdict: Verdict)
    requires |r.states| == |r.steps| + 1 && k < |r.steps|
  {
    var s := r.states[k];
    && r.steps[k] == Apply(w) && id in s.table && w in s.workers
    && s.workers[w] == Holding(id, s.table[id].row.attemptCount, verdict)
  }

  /** In every interleaving: a verdict that finds the count it saw is recorded, and this is what it leaves. */
  lemma RecordedOutcome(cfg: Config, r: Run, k: nat, w: WorkerId, id: RowId, verdict: Verdict)
    requires Legal(cfg, r) && k < |r.steps| && AppliesAt(r, k, w, id, verdict)
    ensures var s, t := r.states[k], r.states[k + 1];
            && !s.table[id].row.Terminal() && id in t.table && w in t.workers
            && Outcome(cfg, s.table[id].row, verdict, s.clock, t.table[id].row)
            && |t.table[id].attempts| == |s.table[id].attempts| + 1
            && t.table[id].attempts[..|s.table[id].attempts|] == s.table[id].attempts
            && Tells(t.table[id].attempts[|s.table[id].attempts|], s.table[id].row.attemptCount + 1, verdict)
            && t.workers[w] == Returned(id, Some(t.table[id].row))
  {
    StepAt(cfg, r, k);
    var s := r.states[k];
    ApplyOutcome(cfg, s.table[id].row, verdict, s.clock);
    assert WorkerOk(s, s.workers[w]);
  }

  /** A late verdict changes nothing: the delivery returns the row as it found it, or fails when the row is gone. */
  lemma LateVerdict(cfg: Config, r: Run, k: nat, w: WorkerId)
    requires Legal(cfg, r) && k < |r.steps| && r.steps[k] == Apply(w)
    requires w in r.states[k].workers && r.states[k].workers[w].Holding?
    requires var s, worker := r.states[k], r.states[k].workers[w];
             worker.row !in s.table || s.table[worker.row].row.attemptCount != worker.snapshot
    ensures var s, t, id := r.states[k], r.states[k + 1], r.states[k].workers[w].row;
            && t.table == s.table && w in t.workers
            && t.workers[w] == if id in s.table then Returned(id, Some(s.table[id].row)) else Raised(id)
  {
    StepAt(cfg, r, k);
  }

  // ---------- what a status says ----------

  /** The last attempt fits the status; only a requeue puts a row with attempts back to pending. */
  predicate StatusFits(rec: Record) {
    match rec.row.status
    case Delivered => rec.attempts != [] && rec.attempts[|rec.attempts| - 1].success && rec.row.deliveredAt.Some?
    case Pending => rec.attempts == [] || rec.past.requeues > 0
    case _ => rec.attempts != [] && !rec.attempts[|rec.attempts| - 1].success
  }

  lemma ChangeKeepsFit(cfg: Config, s: State, step: Step, id: RowId, rec: Record, rec': Record)
    requires RecordChange(cfg, s, step, id, rec, rec') && StatusFits(rec)
    ensures StatusFits(rec')
  {
    if step.Apply? && rec' != rec {
      ApplyOutcome(cfg, rec.row, s.workers[step.worker].verdict, s.clock);
    }
  }

  /** In every reachable state a delivered row has a successful last attempt, and a failed or dead row a failed one. */
  lemma {:induction false} StatusTellsLastAttempt(cfg: Config, r: Run, m: nat, id: RowId)
    requires Legal(cfg, r) && m <= |r.steps| && id in r.states[m].table
    ensures StatusFits(r.states[m].table[id])
  {
    StepAt(cfg, r, m - 1);
    if id in r.states[m - 1].created {
      StepChangesRecord(cfg, r.states[m - 1], r.steps[m - 1], id);
      StatusTellsLastAttempt(cfg, r, m - 1, id);
      ChangeKeepsFit(cfg, r.states[m - 1], r.steps[m - 1], id, r.states[m - 1].table[id], r.states[m].table[id]);
    }
  }

  /** Step k is a successful send for row id, under this attempt number. */
  ghost predicate SucceedsAt(r: Run, k: nat, id: RowId, number: nat)
    requires |r.states| == |r.steps| + 1 && k < |r.steps|
  {
    && r.steps[k].Send? && r.steps[k].result.success && r.steps[k].worker in r.states[k].workers
    && var worker := r.states[k].workers[r.steps[k].worker];
       worker.Sending? && worker.row == id && worker.snapshot + 1 == number
  }

  /** So a row is delivered only if a send for it succeeded, under the number of its last attempt. */
  lemma DeliveredWasSent(cfg: Config, r: Run, m: nat, id: RowId) returns (k: nat)
    requires Legal(cfg, r) && m <= |r.steps| && id in r.states[m].table
    requires r.states[m].table[id].row.status == Delivered
    ensures k < m && SucceedsAt(r, k, id, r.states[m].table[id].row.attemptCount)
  {
    StatusTellsLastAttempt(cfg, r, m, id);
    AttemptLogExact(cfg, r, m, id);
    var i := |r.states[m].table[id].attempts| - 1;
    assert Explained(r, m, id, i, r.states[m].table[id].attempts[i]);
    var a, b :| 0 <= a < b < m && ExplainedBy(r, a, b, id, i, r.states[m].table[id].attempts[i]);
    k := a;
  }

  // ---------- what may be sent ----------

  /** Phase one of w reads a live row, and no rule forbids sending it. */
  ghost predicate AllowedAt(r: Run, k: nat, w: WorkerId, id: RowId, n: nat)
    requires |r.states| == |r.steps| + 1 && k < |r.steps|
  {
    && r.steps[k].Begin? && r.steps[k].worker == w && id in r.states[k].table
    && var row := r.states[k].table[id].row;
       && row.attemptCount == n && (row.status == Pending || row.status == Failed)
       && (row.kind == Email || r.steps[k].ruleError == None)
  }

  /** Whoever sends has read a live row that no rule forbids to send, and sends under the count read there. */
  lemma {:induction false} SendWasAllowed(cfg: Config, r: Run, m: nat, w: WorkerId) returns (k: nat)
    requires Legal(cfg, r) && m <= |r.steps| && w in r.states[m].workers && r.states[m].workers[w].Sending?
    ensures k < m && AllowedAt(r, k, w, r.states[m].workers[w].row, r.states[m].workers[w].snapshot)
  {
    k := m - 1;
    StepAt(cfg, r, k);
    if w in r.states[k].workers && r.states[k].workers[w] == r.states[m].workers[w] {
      k := SendWasAllowed(cfg, r, k, w);
    }
  }

  /** And whoever reads such a row does send; a forbidden one gets a verdict, and all others are left alone. */
  lemma BeginDecides(cfg: Config, r: Run, k: nat, w: WorkerId, ruleError: Option<string>, id: RowId)
    requires Legal(cfg, r) && k < |r.steps| && r.steps[k] == Begin(w, ruleError)
    requires w in r.states[k].workers && r.states[k].workers[w] == Queued(id)
    ensures var s, t := r.states[k], r.states[k + 1];
            && t.table == s.table && w in t.workers
            && (t.workers[w].Returned? <==> id !in s.table || s.table[id].row.status in {Delivered, Dead})
            && (t.workers[w].Returned? ==>
                  t.workers[w].result == if id in s.table then Some(s.table[id].row) else None)
            && (t.workers[w].Sending? <==>
                id in s.table && AllowedAt(r, k, w, id, s.table[id].row.attemptCount))
            && (!t.workers[w].Returned? && !t.workers[w].Sending? ==>
                  ruleError.Some?
                  && t.workers[w] == Holding(id, s.table[id].row.attemptCount, RuleRejected(ruleError.value)))
  {
    StepAt(cfg, r, k);
  }

  // ---------- what operators and dry runs do ----------

  /** A requeued row can be claimed at any time, with its attempts kept. */
  lemma RequeuedCanBeClaimed(cfg: Config, r: Run, k: nat, id: RowId, now: Time)
    requires Legal(cfg, r) && k < |r.steps| && r.steps[k] == Requeue(id)
    ensures var s, t := r.states[k], r.states[k + 1];
            && id in s.table && id in t.table && Claimable(t.table[id].row, now) && t.table[id].row.lastError == ""
            && t.table[id].attempts == s.table[id].attempts
            && t.table[id].row.attemptCount == s.table[id].row.attemptCount
  {
    StepAt(cfg, r, k);
  }

  /** A row whose lease was given back can be claimed as soon as its schedule has come. */
  lemma ReleasedCanBeClaimed(cfg: Config, r: Run, k: nat, id: RowId, now: Time)
    requires Legal(cfg, r) && k < |r.steps| && r.steps[k] == Release(id)
    ensures var s, t := r.states[k], r.states[k + 1];
            && id in s.table && id in t.table && t.table[id].attempts == s.table[id].attempts
            && (Claimable(t.table[id].row, now) <==>
                var row := s.table[id].row;
                (row.status == Pending || row.status == Failed)
                && (row.nextAttemptAt.Some? ==> row.nextAttemptAt.value <= now))
  {
    StepAt(cfg, r, k);
  }
}
