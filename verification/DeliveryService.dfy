/**
 The outbox tables and the code that changes them. Every method is proved to take exactly its
 steps of the protocol, so whatever holds of all runs (module OutboxRuns) holds of this code.
 */
module DeliveryService {
  import opened Wrappers
  import opened WebhookRetry
  import opened Outbox
  import opened OutboxOutcomes

  /** The steps a worker has taken itself, in order. */
  function StepsOf(run: seq<Step>, w: WorkerId): seq<Step> {
    if run == [] then []
    else
      var step := run[|run| - 1];
      var mine := match step
        case Begin(v, _) => v == w
        case Send(v, _) => v == w
        case Apply(v) => v == w
        case _ => false;
      StepsOf(run[..|run| - 1], w) + (if mine then [step] else [])
  }

  lemma StepsOfSnoc(run: seq<Step>, step: Step, w: WorkerId)
    ensures StepsOf(run + [step], w) == StepsOf(run, w) + StepsOf([step], w)
  {
    assert (run + [step])[..|run|] == run;
    assert [step][..0] == [];
  }

  /** What a delivery does itself, given what phase one made of it. */
  function OwnSteps(w: WorkerId, begun: Worker, ruleError: Option<string>, result: SendResult): seq<Step> {
    match begun
    case Sending(_, _) => [Begin(w, ruleError), Send(w, result), Apply(w)]
    case Holding(_, _, _) => [Begin(w, ruleError), Apply(w)]
    case _ => [Begin(w, ruleError)]
  }

  /** An attempt to claim a row: when, and which rows other transactions held. */
  datatype Try = Try(moment: nat, skipped: set<RowId>)

  class Service {
    const cfg: Config
    var clock: Time
    var table: map<RowId, Record>
    var created: set<RowId>
    var workers: map<WorkerId, Worker>
    ghost var decisions: set<Decision>
    /** What was asked for through this object: claims tried, positions of the claims made, workers submitted. */
    ghost var tried: seq<Try>
    ghost var claimed: seq<nat>
    ghost var submitted: seq<WorkerId>
    ghost var trace: seq<Step>
    ghost var states: seq<State>

    ghost function View(): State
      reads this
    {
      State(clock, table, created, workers, decisions)
    }

    /** The tables are what the protocol reaches by the steps taken so far. */
    ghost predicate Valid()
      reads this
    {
      Legal(cfg, Run(trace, states)) && states[|trace|] == View()
    }

    /** History is only ever added to. */
    twostate predicate Onward()
      reads this
    {
      old(trace) <= trace && old(states) <= states
    }

    /** Nothing was claimed and nobody submitted through this object. */
    twostate predicate Quiet()
      reads this
    {
      tried == old(tried) && claimed == old(claimed) && submitted == old(submitted)
    }

    /** This object has just taken exactly this one step. */
    twostate predicate Took(step: Step)
      requires Enabled(old(View()), step)
      reads this
    {
      && trace == old(trace) + [step] && states == old(states) + [View()]
      && View() == Next(cfg, old(View()), step)
    }

    constructor (cfg: Config)
      ensures Valid() && this.cfg == cfg && trace == []
    {
      this.cfg := cfg;
      clock, table, created, workers, decisions := 0, map[], {}, map[], {};
      trace, states := [], [Init()];
      tried, claimed, submitted := [], [], [];
    }

    /**
     Other threads, processes and operators take any steps of their own, and time passes. The body
     is one admissible case of that (nothing happens); callers rely on the contract only.
     */
    method Interfere(own: Option<WorkerId>)
      requires Valid() && (own.Some? ==> own.value in workers)
      modifies this
      ensures Valid() && Onward() && Quiet()
      ensures own.Some? ==>
                && StepsOf(trace, own.value) == StepsOf(old(trace), own.value)
                && own.value in workers && workers[own.value] == old(workers)[own.value]
    {
    }

    /** Time goes on, by how much nobody knows. */
    method Elapse()
      requires Valid()
      modifies this
      ensures Valid() && Onward() && Quiet() && old(clock) < clock && workers == old(workers)
    {
      LegalExtended(cfg, Run(trace, states), Tick(clock + 1));
      clock := clock + 1;
      trace, states := trace + [Tick(clock)], states + [View()];
    }

    /** Hands row id to a thread. */
    method Submit(w: WorkerId, id: RowId)
      requires Valid() && w !in workers
      modifies this
      ensures Valid() && Took(Step.Submit(w, id)) && Onward()
      ensures workers == old(workers)[w := Queued(id)] && workers.Keys == old(workers).Keys + {w}
      ensures tried == old(tried) && claimed == old(claimed) && submitted == old(submitted) + [w]
    {
      LegalExtended(cfg, Run(trace, states), Step.Submit(w, id));
      workers := workers[w := Queued(id)];
      trace, states := trace + [Step.Submit(w, id)], states + [View()];
      submitted := submitted + [w];
    }

    /** Takes one retryable row that no other transaction holds, and leases it; others hold what they hold. */
    method ClaimNext(now: Time) returns (got: Option<RowId>)
      requires Valid() && now <= clock
      modifies this
      ensures Valid() && submitted == old(submitted)
      ensures |tried| == |old(tried)| + 1 && old(tried) <= tried && tried[|old(tried)|].moment == |old(trace)|
      ensures var skipped := tried[|old(tried)|].skipped;
              && (got.None? ==>
                    && claimed == old(claimed)
                    && trace == old(trace) && states == old(states) && View() == old(View())
                    && forall id {:trigger table[id]} | id in table && Claimable(table[id].row, now) :: id in skipped)
              && (got.Some? ==>
                    && claimed == old(claimed) + [|old(trace)|]
                    && got.value in old(table) && got.value !in skipped
                    && Enabled(old(View()), Claim(got.value, now))
                    && Took(Claim(got.value, now)))
    {
      var heldElsewhere: set<RowId> := *;
      tried := tried + [Try(|trace|, heldElsewhere)];
      var free := set id | id in table && id !in heldElsewhere && Claimable(table[id].row, now);
      if free == {} {
        assert forall id | id in table && Claimable(table[id].row, now) && id !in heldElsewhere :: id in free;
        return None;
      }
      var id :| id in free;
      LegalExtended(cfg, Run(trace, states), Claim(id, now));
      var rec := table[id];
      var row := rec.row.(lockedUntil := Some(now + Seconds(cfg.leaseSeconds)));
      table := table[id := Record(row, rec.attempts, rec.past.(claimedAt := Some(now)))];
      claimed := claimed + [|trace|];
      trace, states := trace + [Claim(id, now)], states + [View()];
      return Some(id);
    }

    /** Phase one: lock and read the row; finished or missing rows end the delivery at once. */
    method BeginDelivery(w: WorkerId, ruleError: Option<string>)
      requires Valid() && w in workers && workers[w].Queued?
      modifies this
      ensures Valid() && Took(Begin(w, ruleError)) && Quiet()
    {
      LegalExtended(cfg, Run(trace, states), Begin(w, ruleError));
      var id := workers[w].row;
      if id !in table {
        workers := workers[w := Returned(id, None)];
      } else if table[id].row.status == Delivered || table[id].row.status == Dead {
        workers := workers[w := Returned(id, Some(table[id].row))];
      } else {
        var snapshot := table[id].row.attemptCount;
        if table[id].row.kind != Email && ruleError.Some? {
          workers := workers[w := Holding(id, snapshot, RuleRejected(ruleError.value))];
          decisions := decisions + {Decision(id, snapshot + 1, RuleRejected(ruleError.value))};
        } else {
          workers := workers[w := Sending(id, snapshot)];
        }
      }
      trace, states := trace + [Begin(w, ruleError)], states + [View()];
    }

    /** The send comes back; no lock is held. */
    method FinishSend(w: WorkerId, result: SendResult)
      requires Valid() && w in workers && workers[w].Sending?
      modifies this
      ensures Valid() && Took(Send(w, result)) && Quiet()
    {
      LegalExtended(cfg, Run(trace, states), Send(w, result));
      var id, snapshot := workers[w].row, workers[w].snapshot;
      workers := workers[w := Holding(id, snapshot, Sent(result))];
      decisions := decisions + {Decision(id, snapshot + 1, Sent(result))};
      trace, states := trace + [Send(w, result)], states + [View()];
    }

    /** Phase three: relock, compare the attempt count with the snapshot, store attempt and row. */
    method ApplyDelivery(w: WorkerId)
      requires Valid() && w in workers && workers[w].Holding?
      modifies this
      ensures Valid() && Took(Apply(w)) && Quiet()
    {
      LegalExtended(cfg, Run(trace, states), Apply(w));
      var id, verdict := workers[w].row, workers[w].verdict;
      if id !in table {
        workers := workers[w := Raised(id)];
      } else if table[id].row.attemptCount != workers[w].snapshot {
        workers := workers[w := Returned(id, Some(table[id].row))];
      } else {
        var row, attempt := StoreResult(table[id].row, verdict);
        table := table[id := Record(row, table[id].attempts + [attempt],
                                    table[id].past.(appliedAt := Some(clock)))];
        workers := workers[w := Returned(id, Some(row))];
      }
      trace, states := trace + [Apply(w)], states + [View()];
    }

    /** The field updates of one recorded attempt. */
    method StoreResult(before: Row, verdict: Verdict) returns (row: Row, attempt: Attempt)
      ensures row == ApplyVerdict(cfg, before, verdict, clock)
      ensures attempt == AttemptFor(before.attemptCount + 1, verdict)
      ensures Outcome(cfg, before, verdict, clock, row) && Tells(attempt, before.attemptCount + 1, verdict)
    {
      var number := before.attemptCount + 1;
      var success, permanent, error, httpStatus := false, true, "", None;
      match verdict {
        case RuleRejected(reason) =>
          error := reason;
        case Sent(result) =>
          success, permanent, error := result.success, result.permanent, result.error;
          httpStatus := result.answer.httpStatus;
      }
      attempt := Attempt(number, success, httpStatus, if success then "" else error);
      row := before.(attemptCount := number, lockedUntil := None);
      if success {
        row := row.(status := Delivered, deliveredAt := Some(clock), lastError := "", nextAttemptAt := None);
      } else if permanent || number >= cfg.maxAttempts {
        row := row.(status := Dead, lastError := error, nextAttemptAt := None);
      } else {
        var delay := RetryDelay(number, verdict.result.answer);
        row := row.(status := Failed, lastError := error, nextAttemptAt := Some(clock + Seconds(delay)));
      }
    }

    /** An operator puts a webhook row back to pending; its attempts stay counted. */
    method RequeueRow(id: RowId) returns (found: bool)
      requires Valid()
      modifies this
      ensures Valid() && Quiet() && found == (id in old(table) && old(table)[id].row.kind == Webhook)
      ensures found ==> Took(Requeue(id))
      ensures !found ==> trace == old(trace) && states == old(states) && View() == old(View())
    {
      found := id in table && table[id].row.kind == Webhook;
      if found {
        LegalExtended(cfg, Run(trace, states), Requeue(id));
        var rec := table[id];
        var row := rec.row.(status := Pending, nextAttemptAt := None, lastError := "", lockedUntil := None);
        table := table[id := Record(row, rec.attempts, rec.past.(requeues := rec.past.requeues + 1))];
        trace, states := trace + [Requeue(id)], states + [View()];
      }
    }

    /** A dry run gives its lease back; a row deleted meanwhile is simply not there to update. */
    method ReleaseLease(id: RowId)
      requires Valid()
      modifies this
      ensures Valid() && Onward() && Quiet()
      ensures id in old(table) ==> Took(Release(id))
      ensures id !in old(table) ==> trace == old(trace) && states == old(states) && View() == old(View())
    {
      if id in table {
        LegalExtended(cfg, Run(trace, states), Release(id));
        table := table[id := table[id].(row := table[id].row.(lockedUntil := None))];
        trace, states := trace + [Release(id)], states + [View()];
      }
    }

    /** Phase one of Deliver, then anything else may happen before the next phase. */
    method BeginPhase(w: WorkerId, ruleError: Option<string>)
      requires Valid() && w in workers && workers[w].Queued?
      modifies this
      ensures Valid() && Onward() && Quiet() && w in workers
      ensures workers[w] == BeginWorker(old(table), old(workers)[w].row, ruleError)
      ensures StepsOf(trace, w) == StepsOf(old(trace), w) + [Begin(w, ruleError)]
    {
      BeginDelivery(w, ruleError);
      StepsOfSnoc(old(trace), Begin(w, ruleError), w);
      Interfere(Some(w));
    }

    /** The send of Deliver, then anything else may happen before phase three. */
    method SendPhase(w: WorkerId, result: SendResult)
      requires Valid() && w in workers && workers[w].Sending?
      modifies this
      ensures Valid() && Onward() && Quiet() && w in workers
      ensures workers[w] == Holding(old(workers)[w].row, old(workers)[w].snapshot, Sent(result))
      ensures StepsOf(trace, w) == StepsOf(old(trace), w) + [Send(w, result)]
    {
      FinishSend(w, result);
      StepsOfSnoc(old(trace), Send(w, result), w);
      Interfere(Some(w));
    }

    method ApplyPhase(w: WorkerId) returns (outcome: Result<Option<Row>, ()>)
      requires Valid() && w in workers && workers[w].Holding?
      modifies this
      ensures Valid() && Onward() && Quiet() && w in workers && workers[w].row == old(workers)[w].row
      ensures outcome.Ok? ==> workers[w] == Returned(workers[w].row, outcome.value)
      ensures outcome.Err? ==> workers[w].Raised?
      ensures StepsOf(trace, w) == StepsOf(old(trace), w) + [Apply(w)]
    {
      ApplyDelivery(w);
      StepsOfSnoc(old(trace), Apply(w), w);
      outcome := if workers[w].Returned? then Ok(workers[w].result) else Err(());
    }

    /**
     One delivery from start to end, with anything else happening between its three phases. The
     steps it takes itself show what it may do: a finished row gets no send, a rejected rule gets
     a recorded verdict and no send, and otherwise exactly one send comes before the one apply.
     */
    method Deliver(w: WorkerId, ruleError: Option<string>, result: SendResult)
      returns (outcome: Result<Option<Row>, ()>)
      requires Valid() && w in workers && workers[w].Queued?
      modifies this
      ensures Valid() && Onward() && Quiet()
      ensures w in workers && workers[w].row == old(workers)[w].row
      ensures outcome.Ok? ==> workers[w] == Returned(workers[w].row, outcome.value)
      ensures outcome.Err? ==> workers[w].Raised?
      ensures StepsOf(trace, w)
              == StepsOf(old(trace), w) + OwnSteps(w, BeginWorker(old(table), old(workers)[w].row, ruleError),
                                                   ruleError, result)
    {
      ghost var mine := StepsOf(trace, w);
      BeginPhase(w, ruleError);
      ghost var begun := StepsOf(trace, w);
      if workers[w].Returned? {
        return Ok(workers[w].result);
      }
      if workers[w].Holding? {
        outcome := ApplyPhase(w);
        assert begun + [Apply(w)] == mine + [Begin(w, ruleError), Apply(w)];
        return;
      }
      SendPhase(w, result);
      ghost var sent := StepsOf(trace, w);
      outcome := ApplyPhase(w);
      assert begun + [Send(w, result)] + [Apply(w)] == mine + [Begin(w, ruleError), Send(w, result), Apply(w)];
    }
  }
}
