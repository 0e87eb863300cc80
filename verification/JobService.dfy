/**
 The Redis lock, the run table and the counters as they are stored, and the Celery task that uses them.
 Every method is proved to take exactly its steps of module Jobs, whatever other processes do in between.
 */
module JobService {
  import opened Wrappers
  import opened Jobs

  function Actor(step: Step): Option<ProcId> {
    match step
    case Tick(_) => None
    case Purge(_) => None
    case _ => Some(step.p)
  }

  /** The steps process p has taken itself, in order. */
  function StepsOf(trace: seq<Step>, p: ProcId): seq<Step> {
    if trace == [] then []
    else
      var last := trace[|trace| - 1];
      StepsOf(trace[..|trace| - 1], p) + (if Actor(last) == Some(p) then [last] else [])
  }

  /**
   What goes wrong during one invocation: an error while taking the lock (and whether the lock was stored all the
   same), failing writes, each on its own, and whether the release reaches Redis.
   */
  datatype Faults = Faults(take: Option<bool>, skip: bool, create: bool, sweep: bool, countSweep: bool,
                           finish: bool, countFinish: bool, release: bool)

  /** What the run found: stale rows to close, and its own row purged by the end. */
  datatype Found = Found(stale: bool, purged: bool)

  /** Closing the run: the outcome and its counter. */
  function Closing(p: ProcId, ok: bool, faults: Faults, found: Found): seq<Step> {
    if faults.finish || found.purged then [GiveUp(p)]
    else [Finish(p, ok)] + [if faults.countFinish then GiveUp(p) else CountFinish(p)]
  }

  /** The sweep, and its counter if it closed anything, unless that fails. */
  function SweepSteps(p: ProcId, stale: bool, going: bool): seq<Step> {
    if !going then [Sweep(p), GiveUp(p)] else if stale then [Sweep(p), CountSweep(p)] else [Sweep(p)]
  }

  /** From the sweep on: its counter, if it closed anything, and the end of the run. */
  function Sweeping(p: ProcId, ok: bool, faults: Faults, found: Found): seq<Step> {
    if faults.sweep then [GiveUp(p)]
    else if !found.stale then [Sweep(p)] + Closing(p, ok, faults, found)
    else if faults.countSweep then [Sweep(p)] + [GiveUp(p)]
    else [Sweep(p)] + ([CountSweep(p)] + Closing(p, ok, faults, found))
  }

  /** Recording one run, up to the first write that fails. */
  function Recording(p: ProcId, ok: bool, faults: Faults, found: Found): seq<Step> {
    if faults.create then [GiveUp(p)] else [Create(p)] + Sweeping(p, ok, faults, found)
  }

  /** The command fails with its work, or when a write before its work fails. */
  predicate Succeeds(ok: bool, faults: Faults, found: Found) {
    ok && !faults.create && !faults.sweep && !(found.stale && faults.countSweep)
  }

  /** What one invocation of the Celery task does itself; got says whether it got the lock. */
  function OwnSteps(p: ProcId, token: Token, got: bool, ok: bool, faults: Faults, found: Found): seq<Step> {
    if faults.take.Some? then
      [TakeFails(p, token, faults.take.value)] + Recording(p, false, faults, found) + [Release(p, false)]
    else if got then
      [Take(p, token)] + Recording(p, ok, faults, found) + [Release(p, !faults.release)]
    else if faults.skip then
      [Take(p, token), SkipFails(p)] + Recording(p, false, faults, found) + [Release(p, false)]
    else
      [Take(p, token), Skip(p)]
  }

  datatype Answer = AnswerSkipped | AnswerFailed | AnswerSummary

  function AnswerOf(got: bool, ok: bool, faults: Faults, found: Found): Answer {
    if faults.take.Some? then AnswerFailed
    else if !got then (if faults.skip then AnswerFailed else AnswerSkipped)
    else if Succeeds(ok, faults, found) then AnswerSummary
    else AnswerFailed
  }

  // ---------- what the steps of an invocation mean ----------

  /** What has been added to a list. */
  function Since(all: seq<Step>, before: seq<Step>): seq<Step>
    requires before <= all
  {
    all[|before|..]
  }

  lemma SinceIs(before: seq<Step>, added: seq<Step>)
    ensures Since(before + added, before) == added
  {
  }

  /** Nothing failed before the outcome was to be stored, nor then. */
  predicate Undisturbed(faults: Faults, found: Found) {
    && !faults.create && !faults.sweep && !(found.stale && faults.countSweep) && !faults.finish && !found.purged
  }

  /** The steps of a run whose work came out as b: no other outcome is stored, and this one is exactly when no write
      failed; it is counted exactly when that did not fail either, and otherwise the run has given up. */
  predicate Records(steps: seq<Step>, p: ProcId, b: bool, faults: Faults, found: Found) {
    && (forall step | step in steps && step.Finish? :: step == Finish(p, b))
    && (Finish(p, b) in steps <==> Undisturbed(faults, found))
    && (CountFinish(p) in steps <==> Undisturbed(faults, found) && !faults.countFinish)
    && (GiveUp(p) in steps <==> CountFinish(p) !in steps)
  }

  lemma ClosingTells(p: ProcId, b: bool, faults: Faults, found: Found)
    ensures var steps := Closing(p, b, faults, found);
            && (forall step | step in steps && step.Finish? :: step == Finish(p, b))
            && (Finish(p, b) in steps <==> !faults.finish && !found.purged)
            && (CountFinish(p) in steps <==> !faults.finish && !found.purged && !faults.countFinish)
            && (GiveUp(p) in steps <==> CountFinish(p) !in steps)
  {
  }

  /** Recording a run records its outcome. */
  lemma RecordingTells(p: ProcId, b: bool, faults: Faults, found: Found)
    ensures Records(Recording(p, b, faults, found), p, b, faults, found)
    ensures forall step | step in Recording(p, b, faults, found) :: !step.Skip? && !step.Release?
  {
    ClosingTells(p, b, faults, found);
  }

  lemma AroundTells(before: seq<Step>, after: seq<Step>, p: ProcId, b: bool, faults: Faults, found: Found)
    requires forall step | step in before + after :: !step.Finish? && !step.CountFinish? && !step.GiveUp?
    ensures var all := before + Recording(p, b, faults, found) + after;
            && Records(all, p, b, faults, found)
            && forall step: Step | step.Skip? || step.Release? :: step in all <==> step in before || step in after
  {
    RecordingTells(p, b, faults, found);
    var own, all := Recording(p, b, faults, found), before + Recording(p, b, faults, found) + after;
    assert forall step :: step in all <==> step in before + after || step in own;
    assert forall step :: step in before + after <==> step in before || step in after;
  }

  /** What an invocation with the lock, or without, leaves and answers; ok says how its work comes out. */
  predicate Invoked(steps: seq<Step>, p: ProcId, got: bool, ok: bool, faults: Faults, found: Found, answer: Answer) {
    var worked := faults.take.None? && got;
    && (worked || faults.take.Some? || faults.skip ==> Records(steps, p, ok && worked, faults, found))
    && (Skip(p) in steps <==> !worked && faults.take.None? && !faults.skip)
    && (Skip(p) in steps ==> forall b :: Finish(p, b) !in steps)
    && (answer == AnswerSkipped <==> Skip(p) in steps)
    && (Finish(p, true) in steps ==> answer == AnswerSummary)
    && (Finish(p, false) in steps ==> answer == AnswerFailed)
    && (answer == AnswerSummary ==>
          worked && ok && (Finish(p, true) in steps || (GiveUp(p) in steps && (faults.finish || found.purged))))
    && (Release(p, true) in steps <==> worked && !faults.release)
  }

  /** The steps of a run without the lock. */
  lemma CommandTells(mine: seq<Step>, p: ProcId, ok: bool, faults: Faults, found: Found)
    ensures var own := [Spawn(p), GoUnlocked(p)] + Recording(p, ok, faults, found) + [Release(p, false)];
            && mine + [Spawn(p)] + [GoUnlocked(p)] + (Recording(p, ok, faults, found) + [Release(p, false)])
               == mine + own
            && Records(Since(mine + own, mine), p, ok, faults, found)
  {
    var own := [Spawn(p), GoUnlocked(p)] + Recording(p, ok, faults, found) + [Release(p, false)];
    AroundTells([Spawn(p), GoUnlocked(p)], [Release(p, false)], p, ok, faults, found);
    SinceIs(mine, own);
    Regrouped(mine, Spawn(p), GoUnlocked(p), Recording(p, ok, faults, found), [Release(p, false)]);
  }

  lemma Regrouped(a: seq<Step>, first: Step, second: Step, c: seq<Step>, d: seq<Step>)
    ensures a + [first] + [second] + (c + d) == a + ([first, second] + c + d)
  {
  }

  lemma RecordedIsInvoked(steps: seq<Step>, p: ProcId, got: bool, ok: bool, faults: Faults, found: Found)
    requires faults.take.Some? || got || faults.skip
    requires Records(steps, p, ok && faults.take.None? && got, faults, found) && Skip(p) !in steps
    requires Release(p, true) in steps <==> faults.take.None? && got && !faults.release
    ensures Invoked(steps, p, got, ok, faults, found, AnswerOf(got, ok, faults, found))
  {
  }

  /** The steps of a run around its recording, and what it answers. */
  lemma RunTells(before: seq<Step>, after: Step, p: ProcId, got: bool, ok: bool, faults: Faults, found: Found)
    requires faults.take.Some? || got || faults.skip
    requires forall step | step in before :: step.Take? || step.TakeFails? || step.SkipFails?
    requires after == Release(p, faults.take.None? && got && !faults.release)
    ensures Invoked(before + Recording(p, ok && faults.take.None? && got, faults, found) + [after], p, got, ok, faults,
                    found, AnswerOf(got, ok, faults, found))
  {
    var b := ok && faults.take.None? && got;
    assert Skip(p) !in before && Skip(p) !in [after] && Release(p, true) !in before;
    AroundTells(before, [after], p, b, faults, found);
    RecordedIsInvoked(before + Recording(p, b, faults, found) + [after], p, got, ok, faults, found);
  }

  /** The steps and the answer of an invocation fit its work and its faults. */
  lemma OwnStepsTell(p: ProcId, token: Token, got: bool, ok: bool, faults: Faults, found: Found)
    ensures Invoked(OwnSteps(p, token, got, ok, faults, found), p, got, ok, faults, found,
                    AnswerOf(got, ok, faults, found))
  {
    if faults.take.Some? {
      RunTells([TakeFails(p, token, faults.take.value)], Release(p, false), p, got, ok, faults, found);
    } else if got {
      RunTells([Take(p, token)], Release(p, !faults.release), p, got, ok, faults, found);
    } else if faults.skip {
      RunTells([Take(p, token), SkipFails(p)], Release(p, false), p, got, ok, faults, found);
    }
  }

  class Service {
    const cfg: Config
    var clock: Time
    var lock: Option<Lock>
    var rows: map<ProcId, Row>
    var succeeded: nat
    var failed: nat
    var skipped: nat
    var procs: map<ProcId, Phase>
    ghost var history: History
    ghost var trace: seq<Step>
    ghost var states: seq<State>

    ghost function View(): State
      reads this
    {
      State(clock, lock, procs, rows, Counters(succeeded, failed, skipped), history)
    }

    ghost predicate Valid()
      reads this
    {
      Legal(cfg, Run(trace, states)) && states[|trace|] == View()
    }

    /** Exactly this step has been taken, and then others may have taken theirs. */
    twostate predicate Took(step: Step)
      requires Enabled(old(View()), step)
      reads this
    {
      && trace == old(trace) + [step] && states == old(states) + [View()]
      && View() == Next(cfg, old(View()), step)
    }

    twostate predicate Onward()
      reads this
    {
      old(trace) <= trace && old(states) <= states
    }

    constructor (cfg: Config)
      ensures Valid() && this.cfg == cfg && trace == []
    {
      this.cfg := cfg;
      clock, lock, rows := 0, None, map[];
      succeeded, failed, skipped := 0, 0, 0;
      procs, history := map[], Init().history;
      trace, states := [], [Init()];
    }

    /**
     Other processes take any steps of their own, and time passes. The body is one admissible case of
     that (nothing happens); callers rely on the contract only.
     */
    method Interfere(p: ProcId)
      requires Valid() && p in procs
      modifies this
      ensures Valid() && Onward()
      ensures StepsOf(trace, p) == StepsOf(old(trace), p)
      ensures p in procs && procs[p] == old(procs)[p]
      ensures old(history).tokens <= history.tokens
    {
    }

    /** Notes a step that the fields show already. */
    ghost method Note(step: Step, before: State)
      requires Legal(cfg, Run(trace, states)) && states[|trace|] == before
      requires Enabled(before, step) && View() == Next(cfg, before, step)
      modifies this`trace, this`states
      ensures Valid() && trace == old(trace) + [step] && states == old(states) + [View()]
      ensures Actor(step).Some? ==> StepsOf(trace, Actor(step).value) == StepsOf(old(trace), Actor(step).value) + [step]
    {
      LegalExtended(cfg, Run(trace, states), step);
      trace, states := trace + [step], states + [View()];
      assert trace[..|trace| - 1] == old(trace);
    }

    /** Takes the lock unless somebody holds it. */
    method TakeLock(p: ProcId, token: Token) returns (acquired: bool)
      requires Valid() && Enabled(View(), Take(p, token))
      modifies this
      ensures Valid() && Took(Take(p, token)) && StepsOf(trace, p) == StepsOf(old(trace), p) + [Take(p, token)]
      ensures acquired == Held(old(View())).None?
    {
      ghost var before := View();
      acquired := lock.None? || lock.value.expires <= clock;
      if acquired {
        lock := Some(Lock(token, clock + SECOND * Max(1, cfg.ttl)));
      }
      history := history.(tokens := history.tokens + {token});
      procs := procs[p := if acquired then Ready(Some(Lease(token, clock))) else Refused];
      Note(Take(p, token), before);
    }

    /** The script that deletes the key when it still holds the token. */
    method ReleaseLock(p: ProcId, reached: bool)
      requires Valid() && Enabled(View(), Release(p, reached))
      modifies this
      ensures Valid() && Took(Release(p, reached))
              && StepsOf(trace, p) == StepsOf(old(trace), p) + [Release(p, reached)]
    {
      ghost var before := View();
      var lease := procs[p].lease;
      if reached && lock.Some? && clock < lock.value.expires && lease.Some? && lock.value.token == lease.value.token {
        lock := None;
      }
      procs := procs[p := Gone];
      Note(Release(p, reached), before);
    }

    method RecordSkipped(p: ProcId)
      requires Valid() && Enabled(View(), Skip(p))
      modifies this
      ensures Valid() && Took(Skip(p)) && StepsOf(trace, p) == StepsOf(old(trace), p) + [Skip(p)]
    {
      ghost var before := View();
      skipped := skipped + 1;
      procs := procs[p := Skipped];
      Note(Skip(p), before);
    }

    method CreateRun(p: ProcId)
      requires Valid() && Enabled(View(), Create(p))
      modifies this
      ensures Valid() && Took(Create(p)) && StepsOf(trace, p) == StepsOf(old(trace), p) + [Create(p)]
    {
      ghost var before := View();
      var lease := procs[p].lease;
      rows := rows[p := Row(Running, clock, false, lease)];
      procs := procs[p := Created(lease, clock)];
      Note(Create(p), before);
    }

    /** Closes running rows that outlived the lock TTL: their worker died mid-run. */
    method MarkInterrupted(p: ProcId)
      requires Valid() && Enabled(View(), Sweep(p))
      modifies this
      ensures Valid() && Took(Sweep(p)) && StepsOf(trace, p) == StepsOf(old(trace), p) + [Sweep(p)]
    {
      ghost var before := View();
      var lease, cutoff := procs[p].lease, procs[p].startedAt - SECOND * cfg.maxRuntime;
      var stale := set q | q in rows && q != p && rows[q].status == Running && rows[q].startedAt < cutoff;
      rows := map q | q in rows :: if q in stale then rows[q].(status := Failed, interrupted := true) else rows[q];
      history := history.(swept := history.swept + stale);
      procs := procs[p := if stale == {} then Working(lease) else Swept(lease, stale)];
      assert stale == Stale(cfg, before, p, before.procs[p].startedAt);
      Note(Sweep(p), before);
    }

    /** Counts the rows that the sweep closed as failed. */
    method CountInterrupted(p: ProcId)
      requires Valid() && Enabled(View(), CountSweep(p))
      modifies this
      ensures Valid() && Took(CountSweep(p)) && StepsOf(trace, p) == StepsOf(old(trace), p) + [CountSweep(p)]
    {
      ghost var before := View();
      failed := failed + |procs[p].closed|;
      history := history.(countedSwept := history.countedSwept + procs[p].closed);
      procs := procs[p := Working(procs[p].lease)];
      Note(CountSweep(p), before);
    }

    /** Stores the outcome. */
    method FinishRun(p: ProcId, ok: bool)
      requires Valid() && Enabled(View(), Finish(p, ok))
      modifies this
      ensures Valid() && Took(Finish(p, ok)) && StepsOf(trace, p) == StepsOf(old(trace), p) + [Finish(p, ok)]
    {
      ghost var before := View();
      rows := rows[p := rows[p].(status := if ok then Succeeded else Failed)];
      history := if ok then history.(succeeded := history.succeeded + {p})
                 else history.(failed := history.failed + {p});
      procs := procs[p := Saved(procs[p].lease, ok)];
      Note(Finish(p, ok), before);
    }

    /** Raises the counter of the stored outcome. */
    method CountOutcome(p: ProcId)
      requires Valid() && Enabled(View(), CountFinish(p))
      modifies this
      ensures Valid() && Took(CountFinish(p)) && StepsOf(trace, p) == StepsOf(old(trace), p) + [CountFinish(p)]
    {
      ghost var before := View();
      if procs[p].ok {
        succeeded := succeeded + 1;
      } else {
        failed := failed + 1;
      }
      history := history.(counted := history.counted + {p});
      procs := procs[p := Ended(procs[p].lease)];
      Note(CountFinish(p), before);
    }

    /** Deletes rows that are older than the retention, in batches of any choice. */
    method PurgeOldRuns(some: set<ProcId>)
      requires Valid() && Enabled(View(), Purge(some))
      modifies this
      ensures Valid() && Took(Purge(some))
    {
      ghost var before := View();
      rows := rows - some;
      Note(Purge(some), before);
    }

    /** A write failed; the process goes on to its release. */
    method GiveUpRun(p: ProcId)
      requires Valid() && Enabled(View(), GiveUp(p))
      modifies this
      ensures Valid() && Took(GiveUp(p)) && StepsOf(trace, p) == StepsOf(old(trace), p) + [GiveUp(p)]
    {
      ghost var before := View();
      procs := procs[p := Ended(procs[p].lease)];
      Note(GiveUp(p), before);
    }

    /** The lock could not be taken, or the skip could not be recorded: go on without the lock. */
    method GoOn(p: ProcId, step: Step)
      requires Valid() && Enabled(View(), step) && (step == SkipFails(p) || step == GoUnlocked(p))
      modifies this
      ensures Valid() && Took(step) && StepsOf(trace, p) == StepsOf(old(trace), p) + [step]
    {
      ghost var before := View();
      procs := procs[p := Ready(None)];
      Note(step, before);
    }

    /** Redis answers the SET with an error, having stored the lock or not. */
    method TakeErrs(p: ProcId, token: Token, stored: bool)
      requires Valid() && Enabled(View(), TakeFails(p, token, stored))
      modifies this
      ensures Valid() && Took(TakeFails(p, token, stored))
      ensures StepsOf(trace, p) == StepsOf(old(trace), p) + [TakeFails(p, token, stored)]
    {
      ghost var before := View();
      if stored && (lock.None? || lock.value.expires <= clock) {
        lock := Some(Lock(token, clock + SECOND * Max(1, cfg.ttl)));
      }
      history := history.(tokens := history.tokens + {token});
      procs := procs[p := Ready(None)];
      Note(TakeFails(p, token, stored), before);
    }

    method StartProcess(p: ProcId)
      requires Valid() && Enabled(View(), Spawn(p))
      modifies this
      ensures Valid() && Took(Spawn(p)) && StepsOf(trace, p) == StepsOf(old(trace), p) + [Spawn(p)]
    {
      ghost var before := View();
      procs := procs[p := Started];
      Note(Spawn(p), before);
    }

    method CreatePhase(p: ProcId)
      requires Valid() && Enabled(View(), Create(p))
      modifies this
      ensures Valid() && Onward() && p in procs && procs[p].Created?
      ensures StepsOf(trace, p) == StepsOf(old(trace), p) + [Create(p)]
    {
      CreateRun(p);
      Interfere(p);
    }

    method SweepPhase(p: ProcId) returns (stale: bool)
      requires Valid() && Enabled(View(), Sweep(p))
      modifies this
      ensures Valid() && Onward() && p in procs && (if stale then procs[p].Swept? else procs[p].Working?)
      ensures StepsOf(trace, p) == StepsOf(old(trace), p) + [Sweep(p)]
    {
      MarkInterrupted(p);
      stale := procs[p].Swept?;
      Interfere(p);
    }

    method CountSweepPhase(p: ProcId)
      requires Valid() && Enabled(View(), CountSweep(p))
      modifies this
      ensures Valid() && Onward() && p in procs && procs[p].Working?
      ensures StepsOf(trace, p) == StepsOf(old(trace), p) + [CountSweep(p)]
    {
      CountInterrupted(p);
      Interfere(p);
    }

    method FinishPhase(p: ProcId, ok: bool)
      requires Valid() && Enabled(View(), Finish(p, ok))
      modifies this
      ensures Valid() && Onward() && p in procs && procs[p].Saved?
      ensures StepsOf(trace, p) == StepsOf(old(trace), p) + [Finish(p, ok)]
    {
      FinishRun(p, ok);
      Interfere(p);
    }

    /** _finish: the outcome, which fails when the row has been purged, and then the counter. */
    method Close(p: ProcId, ok: bool, faults: Faults) returns (purged: bool)
      requires Valid() && p in procs && procs[p].Working?
      modifies this
      ensures Valid() && Onward() && p in procs && procs[p].Ended?
      ensures forall stale :: StepsOf(trace, p) == StepsOf(old(trace), p) + Closing(p, ok, faults, Found(stale, purged))
    {
      ghost var mine := StepsOf(trace, p);
      purged := p !in rows;
      if faults.finish || purged {
        AbandonPhase(p);
        return;
      }
      FinishPhase(p, ok);
      if faults.countFinish {
        AbandonPhase(p);
      } else {
        CountPhase(p);
      }
      ghost var last := if faults.countFinish then GiveUp(p) else CountFinish(p);
      assert StepsOf(trace, p) == mine + ([Finish(p, ok)] + [last]);
    }

    method CountPhase(p: ProcId)
      requires Valid() && Enabled(View(), CountFinish(p))
      modifies this
      ensures Valid() && Onward() && p in procs && procs[p].Ended?
      ensures StepsOf(trace, p) == StepsOf(old(trace), p) + [CountFinish(p)]
    {
      CountOutcome(p);
    }

    method AbandonPhase(p: ProcId)
      requires Valid() && Enabled(View(), GiveUp(p))
      modifies this
      ensures Valid() && Onward() && p in procs && procs[p].Ended?
      ensures StepsOf(trace, p) == StepsOf(old(trace), p) + [GiveUp(p)]
    {
      GiveUpRun(p);
    }

    method TakePhase(p: ProcId, token: Token) returns (got: bool)
      requires Valid() && Enabled(View(), Take(p, token))
      modifies this
      ensures Valid() && Onward() && p in procs
      ensures got == Held(old(View())).None? && (got ==> procs[p].Ready?) && (!got ==> procs[p] == Refused)
      ensures StepsOf(trace, p) == StepsOf(old(trace), p) + [Take(p, token)]
    {
      got := TakeLock(p, token);
      Interfere(p);
    }

    method UnlockedPhase(p: ProcId, step: Step)
      requires Valid() && Enabled(View(), step) && Actor(step) == Some(p)
      requires step.TakeFails? || step.SkipFails? || step.GoUnlocked?
      modifies this
      ensures Valid() && Onward() && p in procs && procs[p].Ready?
      ensures StepsOf(trace, p) == StepsOf(old(trace), p) + [step]
    {
      if step.TakeFails? {
        TakeErrs(p, step.token, step.stored);
      } else {
        GoOn(p, step);
      }
      Interfere(p);
    }

    /** The sweep and its counter, up to the first write that fails. */
    method SweepStale(p: ProcId, faults: Faults) returns (stale: bool, going: bool)
      requires Valid() && p in procs && procs[p].Created? && !faults.sweep
      modifies this
      ensures Valid() && Onward() && p in procs && (if going then procs[p].Working? else procs[p].Ended?)
      ensures going == !(stale && faults.countSweep)
      ensures StepsOf(trace, p) == StepsOf(old(trace), p) + SweepSteps(p, stale, going)
    {
      ghost var mine := StepsOf(trace, p);
      stale := SweepPhase(p);
      going := !(stale && faults.countSweep);
      if !going {
        AbandonPhase(p);
      } else if stale {
        CountSweepPhase(p);
      }
      assert mine + [Sweep(p)] + [GiveUp(p)] == mine + [Sweep(p), GiveUp(p)];
      assert mine + [Sweep(p)] + [CountSweep(p)] == mine + [Sweep(p), CountSweep(p)];
    }

    /** From the sweep to the end of the run. */
    method SweepAndClose(p: ProcId, ok: bool, faults: Faults) returns (found: Found)
      requires Valid() && p in procs && procs[p].Created?
      modifies this
      ensures Valid() && Onward() && p in procs && procs[p].Ended?
      ensures StepsOf(trace, p) == StepsOf(old(trace), p) + Sweeping(p, ok, faults, found)
    {
      found := Found(false, false);
      if faults.sweep {
        AbandonPhase(p);
        return;
      }
      ghost var mine := StepsOf(trace, p);
      var stale, going := SweepStale(p, faults);
      var purged := false;
      if going {
        purged := Close(p, ok, faults);
      }
      found := Found(stale, purged);
      SweepingIs(mine, p, ok, faults, found);
    }

    lemma SweepingIs(mine: seq<Step>, p: ProcId, ok: bool, faults: Faults, found: Found)
      requires !faults.sweep
      ensures var going := !(found.stale && faults.countSweep);
              mine + SweepSteps(p, found.stale, going) + (if going then Closing(p, ok, faults, found) else [])
              == mine + Sweeping(p, ok, faults, found)
    {
    }

    /** record_run around the work: row, sweep, outcome. */
    method RecordRun(p: ProcId, ok: bool, faults: Faults) returns (found: Found)
      requires Valid() && p in procs && procs[p].Ready?
      modifies this
      ensures Valid() && Onward() && p in procs && procs[p].Ended?
      ensures StepsOf(trace, p) == StepsOf(old(trace), p) + Recording(p, ok, faults, found)
      ensures Records(Since(StepsOf(trace, p), StepsOf(old(trace), p)), p, ok, faults, found)
    {
      if faults.create {
        found := Found(false, false);
        RecordingTells(p, ok, faults, found);
        AbandonPhase(p);
        return;
      }
      ghost var mine := StepsOf(trace, p);
      CreatePhase(p);
      found := SweepAndClose(p, ok, faults);
      assert StepsOf(trace, p) == mine + ([Create(p)] + Sweeping(p, ok, faults, found));
      RecordingTells(p, ok, faults, found);
    }

    /** The rest of an invocation that holds the lock or goes on without it. */
    method RunAndRelease(p: ProcId, ok: bool, faults: Faults, reached: bool) returns (found: Found)
      requires Valid() && p in procs && procs[p].Ready?
      modifies this
      ensures Valid() && Onward()
      ensures StepsOf(trace, p) == StepsOf(old(trace), p) + (Recording(p, ok, faults, found) + [Release(p, reached)])
    {
      ghost var mine := StepsOf(trace, p);
      found := RecordRun(p, ok, faults);
      Interfere(p);
      ReleaseLock(p, reached);
      Assoc(mine, Recording(p, ok, faults, found), [Release(p, reached)]);
    }

    /** Going on without the lock after an error: a failed run is recorded. */
    method RunUnlocked(p: ProcId, step: Step, faults: Faults) returns (found: Found)
      requires Valid() && Enabled(View(), step) && Actor(step) == Some(p) && (step.TakeFails? || step.SkipFails?)
      modifies this
      ensures Valid() && Onward()
      ensures StepsOf(trace, p)
              == StepsOf(old(trace), p) + ([step] + Recording(p, false, faults, found) + [Release(p, false)])
    {
      ghost var mine := StepsOf(trace, p);
      UnlockedPhase(p, step);
      found := RunAndRelease(p, false, faults, false);
      Glued(mine, [step], Recording(p, false, faults, found), [Release(p, false)]);
    }

    /** One invocation of the Celery task, with anything else happening in between. */
    method RunLocked(p: ProcId, token: Token, ok: bool, faults: Faults)
      returns (answer: Answer, got: bool, found: Found)
      requires Valid() && p in procs && procs[p] == Started && token !in history.tokens
      modifies this
      ensures Valid() && Onward()
      ensures StepsOf(trace, p) == StepsOf(old(trace), p) + OwnSteps(p, token, got, ok, faults, found)
      ensures answer == AnswerOf(got, ok, faults, found)
      ensures Invoked(Since(StepsOf(trace, p), StepsOf(old(trace), p)), p, got, ok, faults, found, answer)
      ensures faults.take.None? ==> got == Held(old(View())).None?
    {
      ghost var mine := StepsOf(trace, p);
      answer, got, found := LockAndRun(p, token, ok, faults);
      OwnStepsTell(p, token, got, ok, faults, found);
      SinceIs(mine, OwnSteps(p, token, got, ok, faults, found));
    }

    /** The steps of an invocation, one after the other. */
    method LockAndRun(p: ProcId, token: Token, ok: bool, faults: Faults)
      returns (answer: Answer, got: bool, found: Found)
      requires Valid() && p in procs && procs[p] == Started && token !in history.tokens
      modifies this
      ensures Valid() && Onward()
      ensures StepsOf(trace, p) == StepsOf(old(trace), p) + OwnSteps(p, token, got, ok, faults, found)
      ensures answer == AnswerOf(got, ok, faults, found)
      ensures faults.take.None? ==> got == Held(old(View())).None?
    {
      ghost var mine := StepsOf(trace, p);
      got, found, answer := false, Found(false, false), AnswerFailed;
      if faults.take.Some? {
        found := RunUnlocked(p, TakeFails(p, token, faults.take.value), faults);
        return;
      }
      got := TakePhase(p, token);
      if got {
        found := RunAndRelease(p, ok, faults, !faults.release);
        Glued(mine, [Take(p, token)], Recording(p, ok, faults, found), [Release(p, !faults.release)]);
        answer := if Succeeds(ok, faults, found) then AnswerSummary else AnswerFailed;
      } else if faults.skip {
        found := RunUnlocked(p, SkipFails(p), faults);
        Prepend(mine, Take(p, token), SkipFails(p), Recording(p, false, faults, found), [Release(p, false)]);
      } else {
        RecordSkipped(p);
        assert mine + [Take(p, token)] + [Skip(p)] == mine + [Take(p, token), Skip(p)];
        answer := AnswerSkipped;
      }
    }

    /** A Celery worker runs the job in a process of its own. */
    method RunTask(p: ProcId, token: Token, ok: bool, faults: Faults)
      returns (answer: Answer, got: bool, found: Found)
      requires Valid() && p !in procs && token !in history.tokens
      modifies this
      ensures Valid() && Onward()
      ensures StepsOf(trace, p)
              == StepsOf(old(trace), p) + ([Spawn(p)] + OwnSteps(p, token, got, ok, faults, found))
      ensures answer == AnswerOf(got, ok, faults, found)
    {
      ghost var mine := StepsOf(trace, p);
      StartProcess(p);
      answer, got, found := RunLocked(p, token, ok, faults);
      Assoc(mine, [Spawn(p)], OwnSteps(p, token, got, ok, faults, found));
    }

    /** An external scheduler runs the command itself, without the lock. */
    method RunCommand(p: ProcId, ok: bool, faults: Faults) returns (found: Found)
      requires Valid() && p !in procs
      modifies this
      ensures Valid() && Onward()
      ensures StepsOf(trace, p)
              == StepsOf(old(trace), p)
                 + ([Spawn(p), GoUnlocked(p)] + Recording(p, ok, faults, found) + [Release(p, false)])
      ensures Records(Since(StepsOf(trace, p), StepsOf(old(trace), p)), p, ok, faults, found)
    {
      ghost var mine := StepsOf(trace, p);
      StartProcess(p);
      UnlockedPhase(p, GoUnlocked(p));
      found := RunAndRelease(p, ok, faults, false);
      CommandTells(mine, p, ok, faults, found);
    }

    lemma Assoc(a: seq<Step>, b: seq<Step>, c: seq<Step>)
      ensures a + b + c == a + (b + c)
    {
    }

    lemma Prepend(a: seq<Step>, first: Step, second: Step, c: seq<Step>, d: seq<Step>)
      ensures a + [first] + ([second] + c + d) == a + ([first, second] + c + d)
    {
    }

    lemma Glued(a: seq<Step>, b: seq<Step>, c: seq<Step>, d: seq<Step>)
      ensures a + b + (c + d) == a + (b + c + d)
    {
    }
  }
}
