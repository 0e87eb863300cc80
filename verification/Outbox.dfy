/**
 The delivery protocol of the transactional outbox as a step system.

 Dispatch threads, retry workers, claimers, operators and crashes interleave freely over the
 same rows. A delivery is three atomic steps: Begin (lock, read, snapshot the attempt count),
 Send (outside every lock) and Apply (relock, compare the count with the snapshot, record).
 */
module Outbox {
  import opened Wrappers
  import opened WebhookRetry

  /** Microseconds since an arbitrary origin. */
  type Time = int

  function Seconds(n: int): Time {
    1000000 * n
  }

  type RowId = nat
  type WorkerId = nat

  datatype Config = Config(maxAttempts: int, leaseSeconds: int)

  datatype Status = Pending | Delivered | Failed | Dead

  datatype Kind = Webhook | Email

  datatype Row = Row(kind: Kind, status: Status, attemptCount: nat, nextAttemptAt: Option<Time>,
                     lockedUntil: Option<Time>, deliveredAt: Option<Time>, lastError: string)
  {
    predicate Terminal() {
      status == Delivered || status == Dead
    }
  }

  function NewRow(kind: Kind): Row {
    Row(kind, Pending, 0, None, None, None, "")
  }

  /** One stored delivery attempt. */
  datatype Attempt = Attempt(number: nat, success: bool, httpStatus: Option<int>, error: string)

  /** What the send (an HTTP POST or an email-service call) came back with. */
  datatype SendResult = SendResult(success: bool, permanent: bool, answer: Answer, error: string)

  /** What a delivery wants to record: a rule that forbids the send, or the result of a send. */
  datatype Verdict = RuleRejected(reason: string) | Sent(result: SendResult)

  predicate Retryable(status: Status) {
    status == Pending || status == Failed
  }

  /** Rows a claim at time now may take. */
  predicate Claimable(row: Row, now: Time) {
    && Retryable(row.status)
    && (row.nextAttemptAt.None? || row.nextAttemptAt.value <= now)
    && (row.lockedUntil.None? || row.lockedUntil.value <= now)
  }

  function AttemptFor(number: nat, verdict: Verdict): Attempt {
    match verdict
    case RuleRejected(reason) => Attempt(number, false, None, reason)
    case Sent(r) => Attempt(number, r.success, r.answer.httpStatus, if r.success then "" else r.error)
  }

  /** The row after its next attempt ended with this verdict at time now. */
  function ApplyVerdict(cfg: Config, row: Row, verdict: Verdict, now: Time): Row {
    var number := row.attemptCount + 1;
    var counted := row.(attemptCount := number, lockedUntil := None);
    match verdict
    case RuleRejected(reason) =>
      counted.(status := Dead, lastError := reason, nextAttemptAt := None)
    case Sent(r) =>
      if r.success then
        counted.(status := Delivered, deliveredAt := Some(now), lastError := "", nextAttemptAt := None)
      else if r.permanent || number >= cfg.maxAttempts then
        counted.(status := Dead, lastError := r.error, nextAttemptAt := None)
      else
        counted.(status := Failed, lastError := r.error,
                 nextAttemptAt := Some(now + Seconds(RetryDelay(number, r.answer))))
  }

  function RequeuedRow(row: Row): Row {
    row.(status := Pending, nextAttemptAt := None, lastError := "", lockedUntil := None)
  }

  /** Life of one delivery: waiting for a thread, sending, holding a verdict, then over. */
  datatype Worker =
    | Queued(row: RowId)
    | Sending(row: RowId, snapshot: nat)
    | Holding(row: RowId, snapshot: nat, verdict: Verdict)
    | Returned(row: RowId, result: Option<Row>)
    | Raised(row: RowId)

  /** A verdict reached for a given attempt number of a row, logged when it is reached. */
  datatype Decision = Decision(row: RowId, number: nat, verdict: Verdict)

  /** What has happened to a row so far, kept only to state properties. */
  datatype History = History(requeues: nat, claimedAt: Option<Time>, appliedAt: Option<Time>)

  /** A row together with its attempts, which a delete of the row takes along. */
  datatype Record = Record(row: Row, attempts: seq<Attempt>, past: History)

  datatype State = State(clock: Time, table: map<RowId, Record>, created: set<RowId>,
                         workers: map<WorkerId, Worker>, decisions: set<Decision>)

  function Init(): State {
    State(0, map[], {}, map[], {})
  }

  function NewRecord(kind: Kind): Record {
    Record(NewRow(kind), [], History(0, None, None))
  }

  function Claimed(cfg: Config, rec: Record, now: Time): Record {
    Record(rec.row.(lockedUntil := Some(now + Seconds(cfg.leaseSeconds))), rec.attempts,
           rec.past.(claimedAt := Some(now)))
  }

  function Applied(cfg: Config, rec: Record, verdict: Verdict, now: Time): Record {
    Record(ApplyVerdict(cfg, rec.row, verdict, now),
           rec.attempts + [AttemptFor(rec.row.attemptCount + 1, verdict)],
           rec.past.(appliedAt := Some(now)))
  }

  function Requeued(rec: Record): Record {
    Record(RequeuedRow(rec.row), rec.attempts, rec.past.(requeues := rec.past.requeues + 1))
  }

  function Released(rec: Record): Record {
    rec.(row := rec.row.(lockedUntil := None))
  }

  datatype Step =
    | Create(id: RowId, kind: Kind)
    | Submit(worker: WorkerId, id: RowId)
    | Claim(id: RowId, now: Time)
    | Begin(worker: WorkerId, ruleError: Option<string>)
    | Send(worker: WorkerId, result: SendResult)
    | Apply(worker: WorkerId)
    | Requeue(id: RowId)
    | Release(id: RowId)
    | Delete(id: RowId)
    | Crash(worker: WorkerId)
    | Tick(time: Time)

  predicate Enabled(s: State, step: Step) {
    match step
    case Create(id, _) => id !in s.created && id !in s.table
    case Submit(w, _) => w !in s.workers
    case Claim(id, now) => id in s.table && Claimable(s.table[id].row, now) && now <= s.clock
    case Begin(w, _) => w in s.workers && s.workers[w].Queued?
    case Send(w, _) => w in s.workers && s.workers[w].Sending?
    case Apply(w) => w in s.workers && s.workers[w].Holding?
    case Requeue(id) => id in s.table && s.table[id].row.kind == Webhook
    case Release(id) => id in s.table
    case Delete(id) => id in s.table
    case Crash(w) => w in s.workers && !s.workers[w].Returned?
    case Tick(t) => s.clock <= t
  }

  /** Apply finds the row and an unchanged attempt count, so the verdict is recorded. */
  predicate Records(s: State, w: WorkerId) {
    && w in s.workers && s.workers[w].Holding?
    && s.workers[w].row in s.table
    && s.table[s.workers[w].row].row.attemptCount == s.workers[w].snapshot
  }

  /** Phase one of a delivery: what the worker becomes after reading the row under its lock. */
  function BeginWorker(table: map<RowId, Record>, id: RowId, ruleError: Option<string>): Worker {
    if id !in table then Returned(id, None)
    else
      var row := table[id].row;
      if row.Terminal() then Returned(id, Some(row))
      else if row.kind == Webhook && ruleError.Some? then
        Holding(id, row.attemptCount, RuleRejected(ruleError.value))
      else Sending(id, row.attemptCount)
  }

  function NextBegin(s: State, w: WorkerId, ruleError: Option<string>): State
    requires w in s.workers && s.workers[w].Queued?
  {
    var after := BeginWorker(s.table, s.workers[w].row, ruleError);
    s.(workers := s.workers[w := after],
       decisions := if after.Holding?
                    then s.decisions + {Decision(after.row, after.snapshot + 1, after.verdict)}
                    else s.decisions)
  }

  function NextSend(s: State, w: WorkerId, result: SendResult): State
    requires w in s.workers && s.workers[w].Sending?
  {
    var id, snapshot := s.workers[w].row, s.workers[w].snapshot;
    s.(workers := s.workers[w := Holding(id, snapshot, Sent(result))],
       decisions := s.decisions + {Decision(id, snapshot + 1, Sent(result))})
  }

  function NextApply(cfg: Config, s: State, w: WorkerId): State
    requires w in s.workers && s.workers[w].Holding?
  {
    var id := s.workers[w].row;
    if id !in s.table then
      s.(workers := s.workers[w := Raised(id)])
    else if !Records(s, w) then
      s.(workers := s.workers[w := Returned(id, Some(s.table[id].row))])
    else
      var rec := Applied(cfg, s.table[id], s.workers[w].verdict, s.clock);
      s.(table := s.table[id := rec], workers := s.workers[w := Returned(id, Some(rec.row))])
  }

  function Next(cfg: Config, s: State, step: Step): State
    requires Enabled(s, step)
  {
    match step
    case Create(id, kind) => s.(table := s.table[id := NewRecord(kind)], created := s.created + {id})
    case Submit(w, id) => s.(workers := s.workers[w := Queued(id)])
    case Claim(id, now) => s.(table := s.table[id := Claimed(cfg, s.table[id], now)])
    case Begin(w, ruleError) => NextBegin(s, w, ruleError)
    case Send(w, result) => NextSend(s, w, result)
    case Apply(w) => NextApply(cfg, s, w)
    case Requeue(id) => s.(table := s.table[id := Requeued(s.table[id])])
    case Release(id) => s.(table := s.table[id := Released(s.table[id])])
    case Delete(id) => s.(table := s.table - {id})
    case Crash(w) => s.(workers := s.workers[w := Raised(s.workers[w].row)])
    case Tick(t) => s.(clock := t)
  }

  // ---------- runs ----------

  /** A run: its steps, and the states around them. */
  datatype Run = Run(steps: seq<Step>, states: seq<State>)
  {
    /** The run up to now and one step more. */
    ghost function Extend(step: Step, state: State): Run {
      Run(steps + [step], states + [state])
    }
  }

  ghost predicate StepOk(cfg: Config, r: Run, k: nat)
    requires |r.states| == |r.steps| + 1 && k < |r.steps|
  {
    Enabled(r.states[k], r.steps[k]) && r.states[k + 1] == Next(cfg, r.states[k], r.steps[k])
  }

  /** The run starts with an empty outbox and every step was possible when it was taken. */
  ghost predicate Legal(cfg: Config, r: Run) {
    && |r.states| == |r.steps| + 1
    && r.states[0] == Init()
    && forall k {:trigger StepOk(cfg, r, k)} | 0 <= k < |r.steps| :: StepOk(cfg, r, k)
  }

  lemma LegalExtended(cfg: Config, r: Run, step: Step)
    requires Legal(cfg, r) && Enabled(r.states[|r.steps|], step)
    ensures Legal(cfg, r.Extend(step, Next(cfg, r.states[|r.steps|], step)))
  {
    var longer := r.Extend(step, Next(cfg, r.states[|r.steps|], step));
    forall k | 0 <= k < |longer.steps|
      ensures StepOk(cfg, longer, k)
    {
      if k < |r.steps| {
        assert StepOk(cfg, r, k);
      }
    }
  }

  // ---------- the invariant ----------

  /** Schedule and lease fit the status, and both were set by the last attempt and the last claim. */
  ghost predicate ScheduleOk(cfg: Config, clock: Time, rec: Record) {
    var row, past := rec.row, rec.past;
    && (row.Terminal() ==> row.lockedUntil.None?)
    && (row.status == Failed <==> row.nextAttemptAt.Some?)
    && (row.lockedUntil.Some? ==>
          past.claimedAt.Some? && row.lockedUntil.value == past.claimedAt.value + Seconds(cfg.leaseSeconds))
    && (row.nextAttemptAt.Some? ==>
          past.appliedAt.Some?
          && past.appliedAt.value + Seconds(30) <= row.nextAttemptAt.value <= past.appliedAt.value + Seconds(3600))
    && (past.claimedAt.Some? ==> past.claimedAt.value <= clock)
    && (past.appliedAt.Some? ==> past.appliedAt.value <= clock)
  }

  ghost predicate Decided(decisions: set<Decision>, id: RowId, attempt: Attempt) {
    exists d {:trigger d in decisions} ::
      d in decisions && d.row == id && d.number == attempt.number && attempt == AttemptFor(d.number, d.verdict)
  }

  /** The stored attempts are numbered 1..attemptCount and each was decided under its own number. */
  ghost predicate LogOk(decisions: set<Decision>, id: RowId, rec: Record) {
    && |rec.attempts| == rec.row.attemptCount
    && forall i {:trigger rec.attempts[i]} | 0 <= i < |rec.attempts| ::
         rec.attempts[i].number == i + 1 && Decided(decisions, id, rec.attempts[i])
  }

  ghost predicate BudgetOk(cfg: Config, rec: Record) {
    rec.row.attemptCount
    <= Max(1, cfg.maxAttempts) + rec.past.requeues - (if rec.row.Terminal() then 0 else 1)
  }

  ghost predicate RecordOk(cfg: Config, s: State, id: RowId, rec: Record) {
    ScheduleOk(cfg, s.clock, rec) && LogOk(s.decisions, id, rec) && BudgetOk(cfg, rec)
  }

  /** An unfinished delivery saw no later count than the row has, and the row is live while they agree. */
  ghost predicate WorkerOk(s: State, worker: Worker) {
    && (worker.Sending? || worker.Holding? ==>
          && worker.row in s.created
          && (worker.row in s.table ==>
                var row := s.table[worker.row].row;
                worker.snapshot <= row.attemptCount && (worker.snapshot == row.attemptCount ==> !row.Terminal())))
    && (worker.Holding? ==> Decision(worker.row, worker.snapshot + 1, worker.verdict) in s.decisions)
  }

  ghost predicate Inv(cfg: Config, s: State) {
    && s.table.Keys <= s.created
    && (forall id {:trigger s.table[id]} | id in s.table :: RecordOk(cfg, s, id, s.table[id]))
    && (forall w {:trigger s.workers[w]} | w in s.workers :: WorkerOk(s, s.workers[w]))
  }

  lemma LogGrows(decisions: set<Decision>, more: set<Decision>, id: RowId, rec: Record)
    requires decisions <= more && LogOk(decisions, id, rec)
    ensures LogOk(more, id, rec)
  {
    forall i | 0 <= i < |rec.attempts|
      ensures rec.attempts[i].number == i + 1 && Decided(more, id, rec.attempts[i])
    {
      var attempt := rec.attempts[i];
      assert Decided(decisions, id, attempt);
      var d :| d in decisions && d.row == id && d.number == attempt.number
        && attempt == AttemptFor(d.number, d.verdict);
      assert d in more;
    }
  }

  lemma AppliedKeepsSchedule(cfg: Config, rec: Record, verdict: Verdict, now: Time)
    requires ScheduleOk(cfg, now, rec) && BudgetOk(cfg, rec) && !rec.row.Terminal()
    ensures ScheduleOk(cfg, now, Applied(cfg, rec, verdict, now)) && BudgetOk(cfg, Applied(cfg, rec, verdict, now))
  {
    if verdict.Sent? {
      DelayBounds(rec.row.attemptCount + 1, verdict.result.answer);
    }
  }

  lemma AppliedKeepsLog(cfg: Config, decisions: set<Decision>, id: RowId, rec: Record, verdict: Verdict, now: Time)
    requires LogOk(decisions, id, rec) && Decision(id, rec.row.attemptCount + 1, verdict) in decisions
    ensures LogOk(decisions, id, Applied(cfg, rec, verdict, now))
  {
    var log := Applied(cfg, rec, verdict, now).attempts;
    forall i | 0 <= i < |log|
      ensures log[i].number == i + 1 && Decided(decisions, id, log[i])
    {
      if i < |rec.attempts| {
        assert log[i] == rec.attempts[i];
      }
    }
  }

  /** The only ways a step can change a row that exists on both sides of it. */
  ghost predicate RecordChange(cfg: Config, s: State, step: Step, id: RowId, rec: Record, rec': Record) {
    if step.Claim? && step.id == id then
      Claimable(rec.row, step.now) && step.now <= s.clock && rec' == Claimed(cfg, rec, step.now)
    else if step == Requeue(id) then rec' == Requeued(rec)
    else if step == Release(id) then rec' == Released(rec)
    else if step.Apply? && Records(s, step.worker) && s.workers[step.worker].row == id then
      !rec.row.Terminal() && rec' == Applied(cfg, rec, s.workers[step.worker].verdict, s.clock)
    else rec' == rec
  }

  lemma StepChangesRecord(cfg: Config, s: State, step: Step, id: RowId)
    requires Inv(cfg, s) && Enabled(s, step)
    requires id in s.created && id in Next(cfg, s, step).table
    ensures id in s.table && RecordChange(cfg, s, step, id, s.table[id], Next(cfg, s, step).table[id])
  {
    if step.Apply? {
      assert WorkerOk(s, s.workers[step.worker]);
    }
  }

  lemma StepGrows(cfg: Config, s: State, step: Step)
    requires Enabled(s, step)
    ensures s.decisions <= Next(cfg, s, step).decisions && s.clock <= Next(cfg, s, step).clock
    ensures s.created <= Next(cfg, s, step).created
  {
  }

  lemma ChangeKeepsRecord(cfg: Config, s: State, s': State, step: Step, id: RowId, rec: Record, rec': Record)
    requires RecordChange(cfg, s, step, id, rec, rec') && RecordOk(cfg, s, id, rec)
    requires s.decisions <= s'.decisions && s.clock <= s'.clock
    requires step.Apply? && Records(s, step.worker) ==> WorkerOk(s, s.workers[step.worker])
    requires id in s.table && s.table[id] == rec
    ensures RecordOk(cfg, s', id, rec')
  {
    if rec' == rec {
    } else if step.Apply? {
      var verdict := s.workers[step.worker].verdict;
      AppliedKeepsSchedule(cfg, rec, verdict, s.clock);
      AppliedKeepsLog(cfg, s.decisions, id, rec, verdict, s.clock);
    } else {
      assert rec'.attempts == rec.attempts && rec'.row.attemptCount == rec.row.attemptCount;
    }
    LogGrows(s.decisions, s'.decisions, id, rec');
  }

  lemma StepKeepsRecord(cfg: Config, s: State, step: Step, id: RowId)
    requires Inv(cfg, s) && Enabled(s, step) && id in Next(cfg, s, step).table
    ensures RecordOk(cfg, Next(cfg, s, step), id, Next(cfg, s, step).table[id])
  {
    if id in s.created {
      StepChangesRecord(cfg, s, step, id);
      StepGrows(cfg, s, step);
      ChangeKeepsRecord(cfg, s, Next(cfg, s, step), step, id, s.table[id], Next(cfg, s, step).table[id]);
    }
  }

  /** While a row goes from rec to rec', a delivery of it that is not the one recording stays as it was. */
  lemma ChangeKeepsWorker(cfg: Config, s: State, s': State, step: Step, worker: Worker)
    requires WorkerOk(s, worker) && s.decisions <= s'.decisions && s.created <= s'.created
    requires worker.row in s.created && worker.row in s'.table ==>
               worker.row in s.table
               && RecordChange(cfg, s, step, worker.row, s.table[worker.row], s'.table[worker.row])
    ensures WorkerOk(s', worker)
  {
  }

  lemma StepKeepsWorker(cfg: Config, s: State, step: Step, w: WorkerId)
    requires Inv(cfg, s) && Enabled(s, step) && w in Next(cfg, s, step).workers
    ensures WorkerOk(Next(cfg, s, step), Next(cfg, s, step).workers[w])
  {
    var s' := Next(cfg, s, step);
    if w in s.workers && s'.workers[w] == s.workers[w] {
      var worker := s.workers[w];
      StepGrows(cfg, s, step);
      if worker.row in s.created && worker.row in s'.table {
        StepChangesRecord(cfg, s, step, worker.row);
      }
      ChangeKeepsWorker(cfg, s, s', step, worker);
    } else if step.Begin? || step.Send? {
      assert s'.table == s.table;
      assert WorkerOk(s, s.workers[w]);
    }
  }

  lemma StepKeepsInv(cfg: Config, s: State, step: Step)
    requires Inv(cfg, s) && Enabled(s, step)
    ensures Inv(cfg, Next(cfg, s, step))
  {
    var s' := Next(cfg, s, step);
    forall id | id in s'.table
      ensures RecordOk(cfg, s', id, s'.table[id])
    {
      StepKeepsRecord(cfg, s, step, id);
    }
    forall w | w in s'.workers
      ensures WorkerOk(s', s'.workers[w])
    {
      StepKeepsWorker(cfg, s, step, w);
    }
  }

  lemma {:induction false} Reachable(cfg: Config, r: Run, k: nat)
    requires Legal(cfg, r) && k <= |r.steps|
    ensures Inv(cfg, r.states[k])
  {
    if k > 0 {
      Reachable(cfg, r, k - 1);
      assert StepOk(cfg, r, k - 1);
      StepKeepsInv(cfg, r.states[k - 1], r.steps[k - 1]);
    }
  }
}
