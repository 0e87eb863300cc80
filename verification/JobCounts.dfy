/** What the counters of a scheduled job mean, in every history. */
module JobCounts {
  import opened Wrappers
  import opened Jobs

  /** The process has got as far as writing its row, or further. */
  predicate Begun(phase: Phase) {
    phase.Created? || phase.Swept? || phase.Working? || phase.Saved? || phase.Ended? || phase.Gone?
  }

  predicate Finished(h: History, p: ProcId) {
    p in h.succeeded || p in h.failed
  }

  /** What may have happened to an invocation, given where it is. */
  predicate RunOk(s: State, p: ProcId) {
    var h := s.history;
    && !(p in h.succeeded && p in h.failed)
    && (p in h.counted ==> Finished(h, p)) && (p in h.countedSwept ==> p in h.swept)
    && (p in s.rows || Finished(h, p) || p in h.swept ==> p in s.procs && Begun(s.procs[p]))
    && (p in s.procs ==>
          match s.procs[p]
          case Created(_, at) => at <= s.now && !Finished(h, p)
          case Swept(_, closed) => closed != {} && closed <= h.swept && closed !! h.countedSwept && !Finished(h, p)
          case Working(_) => !Finished(h, p)
          case Saved(_, ok) => p !in h.counted && (if ok then p in h.succeeded else p in h.failed)
          case _ => true)
  }

  /** A row says what happened last, and interrupted rows have outlived every expected run. */
  predicate RowOk(cfg: Config, s: State, p: ProcId)
    requires p in s.rows
  {
    var row, h := s.rows[p], s.history;
    && row.status == (if p in h.succeeded then Succeeded else if p in h.failed || p in h.swept then Failed else Running)
    && (row.interrupted <==> p in h.swept)
    && row.startedAt <= s.now
    && (row.lease.Some? ==> row.lease.value.takenAt <= row.startedAt)
    && (row.interrupted ==> row.startedAt + MaxRuntime(cfg) < s.now)
    && (p in s.procs && LeaseOf(s.procs[p]).Some? ==> LeaseOf(s.procs[p]) == row.lease)
  }

  /** Two sweeps that are not counted yet closed different rows. */
  predicate SweepsApart(s: State, p: ProcId, q: ProcId) {
    p != q && p in s.procs && q in s.procs && s.procs[p].Swept? && s.procs[q].Swept?
    ==> s.procs[p].closed !! s.procs[q].closed
  }

  function SkippedSet(s: State): set<ProcId> {
    set p | p in s.procs && s.procs[p] == Skipped
  }

  predicate CountersMatch(s: State) {
    var h := s.history;
    && s.counters.succeeded == |h.counted * h.succeeded|
    && s.counters.failed == |h.counted * h.failed| + |h.countedSwept|
    && s.counters.skipped == |SkippedSet(s)|
  }

  /** What is known of every invocation and of every row. */
  ghost predicate RunsInv(cfg: Config, s: State) {
    && (forall p {:trigger RunOk(s, p)} :: RunOk(s, p))
    && (forall p {:trigger RowOk(cfg, s, p)} | p in s.rows :: RowOk(cfg, s, p))
    && (forall p, q {:trigger SweepsApart(s, p, q)} :: SweepsApart(s, p, q))
  }

  ghost predicate CountInv(cfg: Config, s: State) {
    RunsInv(cfg, s) && CountersMatch(s)
  }

  // ---------- every step ----------

  /** Steps that write neither a row nor a counter. */
  lemma RunsKept(cfg: Config, s: State, t: State)
    requires RunsInv(cfg, s) && t.rows == s.rows && s.now <= t.now
    requires t.history == s.history.(tokens := t.history.tokens)
    requires forall p | p in s.procs :: p in t.procs &&
               (t.procs[p] == s.procs[p] || (!Begun(s.procs[p]) && !Begun(t.procs[p])) || t.procs[p] == Gone
                || (t.procs[p].Ended? && t.procs[p].lease == LeaseOf(s.procs[p])))
    requires forall p | p in t.procs && p !in s.procs :: !Begun(t.procs[p])
    ensures RunsInv(cfg, t)
  {
    forall p: ProcId
      ensures RunOk(t, p)
    {
      assert RunOk(s, p);
    }
    forall p | p in t.rows
      ensures RowOk(cfg, t, p)
    {
      assert RowOk(cfg, s, p) && RunOk(s, p);
    }
    forall p: ProcId, q: ProcId
      ensures SweepsApart(t, p, q)
    {
      assert SweepsApart(s, p, q);
    }
  }

  lemma SkipKeeps(cfg: Config, s: State, p: ProcId)
    requires RunsInv(cfg, s) && Enabled(s, Skip(p))
    ensures RunsInv(cfg, NextSkip(s, p))
  {
    var t := NextSkip(s, p);
    forall q: ProcId
      ensures RunOk(t, q)
    {
      assert RunOk(s, q);
    }
    forall q | q in t.rows
      ensures RowOk(cfg, t, q)
    {
      assert RowOk(cfg, s, q);
    }
    forall o: ProcId, q: ProcId
      ensures SweepsApart(t, o, q)
    {
      assert SweepsApart(s, o, q);
    }
  }

  lemma CreateKeeps(cfg: Config, s: State, p: ProcId)
    requires LockInv(cfg, s) && RunsInv(cfg, s) && Enabled(s, Create(p))
    ensures RunsInv(cfg, NextCreate(s, p))
  {
    var t := NextCreate(s, p);
    assert LeaseOk(cfg, s, p) && RunOk(s, p);
    forall q: ProcId
      ensures RunOk(t, q)
    {
      assert RunOk(s, q);
    }
    forall q | q in t.rows
      ensures RowOk(cfg, t, q)
    {
      assert q != p ==> RowOk(cfg, s, q);
    }
    forall o: ProcId, q: ProcId
      ensures SweepsApart(t, o, q)
    {
      assert SweepsApart(s, o, q);
    }
  }

  lemma SweepKeeps(cfg: Config, s: State, p: ProcId)
    requires RunsInv(cfg, s) && Enabled(s, Sweep(p))
    ensures RunsInv(cfg, NextSweep(cfg, s, p))
  {
    var t, stale := NextSweep(cfg, s, p), Stale(cfg, s, p, s.procs[p].startedAt);
    forall q | q in stale
      ensures q !in s.history.swept && q !in s.history.countedSwept && q !in s.history.failed && q in s.procs
    {
      assert RowOk(cfg, s, q) && RunOk(s, q);
    }
    assert RunOk(s, p);
    forall q: ProcId
      ensures RunOk(t, q)
    {
      assert RunOk(s, q);
    }
    forall q | q in t.rows
      ensures RowOk(cfg, t, q)
    {
      assert RowOk(cfg, s, q);
    }
    forall o: ProcId, q: ProcId
      ensures SweepsApart(t, o, q)
    {
      assert SweepsApart(s, o, q) && RunOk(s, o) && RunOk(s, q);
    }
  }

  lemma CountSweepKeeps(cfg: Config, s: State, p: ProcId)
    requires RunsInv(cfg, s) && Enabled(s, CountSweep(p))
    ensures RunsInv(cfg, NextCountSweep(s, p))
  {
    var t := NextCountSweep(s, p);
    assert RunOk(s, p);
    forall q: ProcId
      ensures RunOk(t, q)
    {
      assert RunOk(s, q) && SweepsApart(s, p, q);
    }
    forall q | q in t.rows
      ensures RowOk(cfg, t, q)
    {
      assert RowOk(cfg, s, q);
    }
    forall o: ProcId, q: ProcId
      ensures SweepsApart(t, o, q)
    {
      assert SweepsApart(s, o, q);
    }
  }

  lemma FinishKeeps(cfg: Config, s: State, p: ProcId, ok: bool)
    requires RunsInv(cfg, s) && Enabled(s, Finish(p, ok))
    ensures RunsInv(cfg, NextFinish(s, p, ok))
  {
    var t := NextFinish(s, p, ok);
    assert RunOk(s, p);
    forall q: ProcId
      ensures RunOk(t, q)
    {
      assert RunOk(s, q);
    }
    forall q | q in t.rows
      ensures RowOk(cfg, t, q)
    {
      assert RowOk(cfg, s, q);
    }
    forall o: ProcId, q: ProcId
      ensures SweepsApart(t, o, q)
    {
      assert SweepsApart(s, o, q);
    }
  }

  lemma CountFinishKeeps(cfg: Config, s: State, p: ProcId)
    requires RunsInv(cfg, s) && Enabled(s, CountFinish(p))
    ensures RunsInv(cfg, NextCountFinish(s, p))
  {
    var t := NextCountFinish(s, p);
    assert RunOk(s, p);
    forall q: ProcId
      ensures RunOk(t, q)
    {
      assert RunOk(s, q);
    }
    forall q | q in t.rows
      ensures RowOk(cfg, t, q)
    {
      assert RowOk(cfg, s, q);
    }
    forall o: ProcId, q: ProcId
      ensures SweepsApart(t, o, q)
    {
      assert SweepsApart(s, o, q);
    }
  }

  lemma PurgeKeeps(cfg: Config, s: State, some: set<ProcId>)
    requires RunsInv(cfg, s) && Enabled(s, Purge(some))
    ensures RunsInv(cfg, s.(rows := s.rows - some))
  {
    var t := s.(rows := s.rows - some);
    forall p: ProcId
      ensures RunOk(t, p)
    {
      assert RunOk(s, p);
    }
    forall p | p in t.rows
      ensures RowOk(cfg, t, p)
    {
      assert RowOk(cfg, s, p);
    }
    forall p: ProcId, q: ProcId
      ensures SweepsApart(t, p, q)
    {
      assert SweepsApart(s, p, q);
    }
  }

  lemma StepKeepsRuns(cfg: Config, s: State, step: Step)
    requires LockInv(cfg, s) && RunsInv(cfg, s) && Enabled(s, step)
    ensures RunsInv(cfg, Next(cfg, s, step))
  {
    match step
    case Skip(p) => SkipKeeps(cfg, s, p);
    case Create(p) => CreateKeeps(cfg, s, p);
    case Sweep(p) => SweepKeeps(cfg, s, p);
    case CountSweep(p) => CountSweepKeeps(cfg, s, p);
    case Finish(p, ok) => FinishKeeps(cfg, s, p, ok);
    case CountFinish(p) => CountFinishKeeps(cfg, s, p);
    case Purge(some) => PurgeKeeps(cfg, s, some);
    case _ => OtherKeeps(cfg, s, step);
  }

  lemma OtherKeeps(cfg: Config, s: State, step: Step)
    requires RunsInv(cfg, s) && Enabled(s, step)
    requires !step.Skip? && !step.Create? && !step.Sweep? && !step.CountSweep? && !step.Finish? && !step.CountFinish?
    requires !step.Purge?
    ensures RunsInv(cfg, Next(cfg, s, step))
  {
    var t := Next(cfg, s, step);
    RunsKept(cfg, s, t);
  }

  lemma CountFinishMatches(s: State, p: ProcId)
    requires CountersMatch(s) && RunOk(s, p) && Enabled(s, CountFinish(p))
    ensures CountersMatch(NextCountFinish(s, p))
  {
    var t := NextCountFinish(s, p);
    assert SkippedSet(t) == SkippedSet(s);
    OneMore(s.history.counted, s.history.succeeded, p);
    OneMore(s.history.counted, s.history.failed, p);
  }

  lemma OneMore(a: set<ProcId>, b: set<ProcId>, p: ProcId)
    requires p !in a
    ensures |(a + {p}) * b| == |a * b| + if p in b then 1 else 0
  {
    assert (a + {p}) * b == a * b + if p in b then {p} else {};
  }

  lemma FinishMatches(s: State, p: ProcId, ok: bool)
    requires CountersMatch(s) && RunOk(s, p) && Enabled(s, Finish(p, ok))
    ensures CountersMatch(NextFinish(s, p, ok))
  {
    var h, h' := s.history, NextFinish(s, p, ok).history;
    assert SkippedSet(NextFinish(s, p, ok)) == SkippedSet(s);
    assert h'.counted * h'.succeeded == h.counted * h.succeeded && h'.counted * h'.failed == h.counted * h.failed;
  }

  lemma CountSweepMatches(s: State, p: ProcId)
    requires CountersMatch(s) && RunOk(s, p) && Enabled(s, CountSweep(p))
    ensures CountersMatch(NextCountSweep(s, p))
  {
    assert SkippedSet(NextCountSweep(s, p)) == SkippedSet(s);
    assert |s.history.countedSwept + s.procs[p].closed| == |s.history.countedSwept| + |s.procs[p].closed|;
  }

  lemma SkipMatches(s: State, p: ProcId)
    requires CountersMatch(s) && Enabled(s, Skip(p))
    ensures CountersMatch(NextSkip(s, p))
  {
    assert SkippedSet(NextSkip(s, p)) == SkippedSet(s) + {p};
  }

  lemma OtherLeavesCounters(cfg: Config, s: State, step: Step)
    requires Enabled(s, step) && !step.Skip? && !step.CountSweep? && !step.Finish? && !step.CountFinish?
    ensures var t := Next(cfg, s, step);
            && t.counters == s.counters
            && t.history == s.history.(tokens := t.history.tokens, swept := t.history.swept)
  {
  }

  lemma OtherLeavesSkips(cfg: Config, s: State, step: Step)
    requires Enabled(s, step) && !step.Skip?
    ensures SkippedSet(Next(cfg, s, step)) == SkippedSet(s)
  {
  }

  lemma SameMatches(s: State, t: State)
    requires CountersMatch(s) && t.counters == s.counters && SkippedSet(t) == SkippedSet(s)
    requires t.history == s.history.(tokens := t.history.tokens, swept := t.history.swept)
    ensures CountersMatch(t)
  {
  }

  lemma StepKeepsCounts(cfg: Config, s: State, step: Step)
    requires LockInv(cfg, s) && CountInv(cfg, s) && Enabled(s, step)
    ensures CountInv(cfg, Next(cfg, s, step))
  {
    StepKeepsRuns(cfg, s, step);
    match step
    case Skip(p) => SkipMatches(s, p);
    case CountSweep(p) => assert RunOk(s, p); CountSweepMatches(s, p);
    case Finish(p, ok) => assert RunOk(s, p); FinishMatches(s, p, ok);
    case CountFinish(p) => assert RunOk(s, p); CountFinishMatches(s, p);
    case _ =>
      OtherLeavesCounters(cfg, s, step);
      OtherLeavesSkips(cfg, s, step);
      SameMatches(s, Next(cfg, s, step));
  }

  lemma {:induction false} Reachable(cfg: Config, r: Run, k: nat)
    requires Legal(cfg, r) && k <= |r.steps|
    ensures LockInv(cfg, r.states[k]) && CountInv(cfg, r.states[k])
  {
    if k > 0 {
      Reachable(cfg, r, k - 1);
      assert StepOk(cfg, r, k - 1);
      StepKeepsLockInv(cfg, r.states[k - 1], r.steps[k - 1]);
      StepKeepsCounts(cfg, r.states[k - 1], r.steps[k - 1]);
    }
  }

  // ---------- the counters ----------

  function FinishedSet(h: History): set<ProcId> {
    h.succeeded + h.failed
  }

  /** Invocations whose row has been closed, by the run itself or by a sweep. */
  function ClosedEver(h: History): set<ProcId> {
    FinishedSet(h) + h.swept
  }

  /** Runs that finished after all when a sweep had already closed their row. */
  function Late(h: History): set<ProcId> {
    FinishedSet(h) * h.swept
  }

  /** Closed, but the counter was not raised: not yet, or never. */
  function UncountedFinishes(h: History): set<ProcId> {
    FinishedSet(h) - h.counted
  }

  function UncountedSweeps(h: History): set<ProcId> {
    h.swept - h.countedSwept
  }

  lemma Sizes(a: set<ProcId>, b: set<ProcId>)
    ensures |a * b| + |a - b| == |a| && |a + b| + |a * b| == |a| + |b|
  {
    assert a == a * b + (a - b);
    assert a + b == (a - b) + b;
  }

  /**
   In every history, whatever dies or fails and whatever is purged: the counters are the invocations that were closed,
   plus one for each run that finished after it had been swept, less those whose counter was not raised.
   */
  lemma CountersExact(cfg: Config, r: Run, k: nat)
    requires Legal(cfg, r) && k <= |r.steps|
    ensures var s, h := r.states[k], r.states[k].history;
            && s.counters.succeeded + |h.succeeded - h.counted| == |h.succeeded|
            && s.counters.failed + |h.failed - h.counted| + |UncountedSweeps(h)| == |h.failed| + |h.swept|
            && s.counters.skipped == |SkippedSet(s)|
            && s.counters.succeeded + s.counters.failed + |UncountedFinishes(h)| + |UncountedSweeps(h)|
               == |ClosedEver(h)| + |Late(h)|
  {
    Reachable(cfg, r, k);
    var s, h := r.states[k], r.states[k].history;
    Sizes(h.succeeded, h.counted);
    Sizes(h.failed, h.counted);
    Sizes(h.swept, h.countedSwept);
    Sizes(FinishedSet(h), h.swept);
    assert h.counted * h.succeeded == h.succeeded * h.counted && h.counted * h.failed == h.failed * h.counted;
    forall p: ProcId
      ensures p in h.countedSwept ==> p in h.swept
      ensures !(p in h.succeeded && p in h.failed)
    {
      assert RunOk(s, p);
    }
    assert h.swept * h.countedSwept == h.countedSwept;
    assert UncountedFinishes(h) == (h.succeeded - h.counted) + (h.failed - h.counted);
    assert |FinishedSet(h)| == |h.succeeded| + |h.failed|;
  }

  // ---------- which increments are missing ----------

  /** In step i process p gives up or dies. */
  predicate Stops(r: Run, i: nat, p: ProcId) {
    i < |r.steps| && (r.steps[i] == GiveUp(p) || r.steps[i] == Die(p))
  }

  predicate IsSaved(s: State, p: ProcId) {
    p in s.procs && s.procs[p].Saved?
  }

  /** p has closed the row of q in its sweep, and not counted it yet. */
  predicate HoldsSwept(s: State, p: ProcId, q: ProcId) {
    p in s.procs && s.procs[p].Swept? && q in s.procs[p].closed
  }

  /** In step i the run of p stops between writing its outcome and raising the counter. */
  predicate StopsSaved(r: Run, i: nat, p: ProcId) {
    i < |r.states| && Stops(r, i, p) && IsSaved(r.states[i], p)
  }

  /** In step i some run stops between closing the row of q and counting that. */
  predicate StopsHolding(r: Run, i: nat, p: ProcId, q: ProcId) {
    i < |r.states| && Stops(r, i, p) && HoldsSwept(r.states[i], p, q)
  }

  /** A run that stopped there is over, and stays uncounted. */
  predicate LostFinish(s: State, p: ProcId) {
    p in s.procs && (s.procs[p].Ended? || s.procs[p].Gone?) && p in UncountedFinishes(s.history)
  }

  lemma StopLosesFinish(cfg: Config, s: State, step: Step, p: ProcId)
    requires CountInv(cfg, s) && Enabled(s, step) && IsSaved(s, p) && (step == GiveUp(p) || step == Die(p))
    ensures LostFinish(Next(cfg, s, step), p)
  {
    assert RunOk(s, p);
  }

  lemma LostFinishStays(cfg: Config, s: State, step: Step, p: ProcId)
    requires Enabled(s, step) && LostFinish(s, p)
    ensures LostFinish(Next(cfg, s, step), p)
  {
  }

  lemma {:induction false} StoppedIsLost(cfg: Config, r: Run, i: nat, k: nat, p: ProcId)
    requires Legal(cfg, r) && i < k <= |r.steps| && StopsSaved(r, i, p)
    ensures LostFinish(r.states[k], p)
    decreases k
  {
    assert StepOk(cfg, r, k - 1);
    if i == k - 1 {
      Reachable(cfg, r, i);
      StopLosesFinish(cfg, r.states[i], r.steps[i], p);
    } else {
      StoppedIsLost(cfg, r, i, k - 1, p);
      LostFinishStays(cfg, r.states[k - 1], r.steps[k - 1], p);
    }
  }

  /** How a finish comes to be uncounted: it has just been written, or was uncounted and is still, or p stops. */
  lemma UncountedFinishStep(cfg: Config, s: State, step: Step, p: ProcId)
    requires CountInv(cfg, s) && Enabled(s, step) && p in UncountedFinishes(Next(cfg, s, step).history)
    ensures || IsSaved(Next(cfg, s, step), p)
            || (p in UncountedFinishes(s.history) && !IsSaved(s, p))
            || (IsSaved(s, p) && (step == GiveUp(p) || step == Die(p)))
  {
    assert RunOk(s, p);
  }

  lemma SavedIsUncounted(cfg: Config, s: State, p: ProcId)
    requires CountInv(cfg, s) && IsSaved(s, p)
    ensures p in UncountedFinishes(s.history)
  {
    assert RunOk(s, p);
  }

  lemma {:induction false} UncountedWasStopped(cfg: Config, r: Run, k: nat, p: ProcId)
    requires Legal(cfg, r) && k <= |r.steps| && p in UncountedFinishes(r.states[k].history)
    ensures IsSaved(r.states[k], p) || exists i | 0 <= i < k :: StopsSaved(r, i, p)
  {
    if k > 0 {
      assert StepOk(cfg, r, k - 1);
      Reachable(cfg, r, k - 1);
      UncountedFinishStep(cfg, r.states[k - 1], r.steps[k - 1], p);
      if IsSaved(r.states[k - 1], p) {
        assert IsSaved(r.states[k], p) || StopsSaved(r, k - 1, p);
      } else if !IsSaved(r.states[k], p) {
        UncountedWasStopped(cfg, r, k - 1, p);
      }
    }
  }

  /** The counter of a finished run has not been raised exactly when the run is about to, or gave up or died there. */
  lemma FinishUncountedIff(cfg: Config, r: Run, k: nat, p: ProcId)
    requires Legal(cfg, r) && k <= |r.steps|
    ensures p in UncountedFinishes(r.states[k].history)
            <==> IsSaved(r.states[k], p) || exists i | 0 <= i < k :: StopsSaved(r, i, p)
  {
    if p in UncountedFinishes(r.states[k].history) {
      UncountedWasStopped(cfg, r, k, p);
    }
    if IsSaved(r.states[k], p) {
      Reachable(cfg, r, k);
      SavedIsUncounted(cfg, r.states[k], p);
    }
    if i :| 0 <= i < k && StopsSaved(r, i, p) {
      StoppedIsLost(cfg, r, i, k, p);
    }
  }

  /** The row of q was swept, and nobody can count that any more. */
  ghost predicate LostSweep(s: State, q: ProcId) {
    q in UncountedSweeps(s.history) && forall p {:trigger HoldsSwept(s, p, q)} :: !HoldsSwept(s, p, q)
  }

  lemma StopLosesSweep(cfg: Config, s: State, step: Step, p: ProcId, q: ProcId)
    requires CountInv(cfg, s) && Enabled(s, step) && HoldsSwept(s, p, q) && (step == GiveUp(p) || step == Die(p))
    ensures LostSweep(Next(cfg, s, step), q)
  {
    assert RunOk(s, p);
    forall o: ProcId
      ensures !HoldsSwept(Next(cfg, s, step), o, q)
    {
      assert SweepsApart(s, o, p);
    }
  }

  lemma LostSweepStays(cfg: Config, s: State, step: Step, q: ProcId)
    requires CountInv(cfg, s) && Enabled(s, step) && LostSweep(s, q)
    ensures LostSweep(Next(cfg, s, step), q)
  {
    if q in s.rows {
      assert RowOk(cfg, s, q);
    }
    if step.CountSweep? {
      assert !HoldsSwept(s, step.p, q);
    }
    forall o: ProcId
      ensures !HoldsSwept(Next(cfg, s, step), o, q)
    {
      assert !HoldsSwept(s, o, q);
    }
  }

  lemma {:induction false} StoppedSweepIsLost(cfg: Config, r: Run, i: nat, k: nat, p: ProcId, q: ProcId)
    requires Legal(cfg, r) && i < k <= |r.steps| && StopsHolding(r, i, p, q)
    ensures LostSweep(r.states[k], q)
    decreases k
  {
    assert StepOk(cfg, r, k - 1);
    Reachable(cfg, r, k - 1);
    if i == k - 1 {
      StopLosesSweep(cfg, r.states[i], r.steps[i], p, q);
    } else {
      StoppedSweepIsLost(cfg, r, i, k - 1, p, q);
      LostSweepStays(cfg, r.states[k - 1], r.steps[k - 1], q);
    }
  }

  /** Whoever holds a swept row goes on holding it, counts it, or stops. */
  lemma HolderStep(cfg: Config, s: State, step: Step, p: ProcId, q: ProcId)
    requires Enabled(s, step) && HoldsSwept(s, p, q) && q !in Next(cfg, s, step).history.countedSwept
    ensures HoldsSwept(Next(cfg, s, step), p, q) || step == GiveUp(p) || step == Die(p)
  {
  }

  lemma NewlySwept(cfg: Config, s: State, step: Step, q: ProcId)
    requires Enabled(s, step) && q !in s.history.swept && q in Next(cfg, s, step).history.swept
    ensures step.Sweep? && HoldsSwept(Next(cfg, s, step), step.p, q)
  {
  }

  lemma CountsStay(cfg: Config, s: State, step: Step)
    requires Enabled(s, step)
    ensures s.history.countedSwept <= Next(cfg, s, step).history.countedSwept
  {
  }

  lemma {:induction false} UncountedSweepWasStopped(cfg: Config, r: Run, k: nat, q: ProcId)
    requires Legal(cfg, r) && k <= |r.steps| && q in UncountedSweeps(r.states[k].history)
    ensures (exists p :: HoldsSwept(r.states[k], p, q)) || exists i, p | 0 <= i < k :: StopsHolding(r, i, p, q)
  {
    if k > 0 {
      assert StepOk(cfg, r, k - 1);
      var s, step := r.states[k - 1], r.steps[k - 1];
      CountsStay(cfg, s, step);
      if q !in s.history.swept {
        NewlySwept(cfg, s, step, q);
      } else {
        UncountedSweepWasStopped(cfg, r, k - 1, q);
        if p :| HoldsSwept(s, p, q) {
          HolderStep(cfg, s, step, p, q);
          assert HoldsSwept(r.states[k], p, q) || StopsHolding(r, k - 1, p, q);
        }
      }
    }
  }

  /** A swept row has not been counted exactly when the sweeping run is about to, or gave up or died there. */
  lemma SweepUncountedIff(cfg: Config, r: Run, k: nat, q: ProcId)
    requires Legal(cfg, r) && k <= |r.steps|
    ensures q in UncountedSweeps(r.states[k].history)
            <==> (exists p :: HoldsSwept(r.states[k], p, q)) || exists i, p | 0 <= i < k :: StopsHolding(r, i, p, q)
  {
    if q in UncountedSweeps(r.states[k].history) {
      UncountedSweepWasStopped(cfg, r, k, q);
    }
    if p :| HoldsSwept(r.states[k], p, q) {
      Reachable(cfg, r, k);
      assert RunOk(r.states[k], p);
    }
    if i, p :| 0 <= i < k && StopsHolding(r, i, p, q) {
      StoppedSweepIsLost(cfg, r, i, k, p, q);
    }
  }

  /** A finish counts a second time exactly when the row had been marked interrupted. */
  lemma LateFinish(cfg: Config, s: State, p: ProcId, ok: bool)
    requires CountInv(cfg, s) && Enabled(s, Finish(p, ok))
    ensures Late(NextFinish(s, p, ok).history)
            == if s.rows[p].interrupted then Late(s.history) + {p} else Late(s.history)
    ensures s.rows[p].interrupted ==> s.rows[p].startedAt + MaxRuntime(cfg) < s.now
  {
    assert RowOk(cfg, s, p);
  }

  /** Step k, if it is a finish, comes within the longest expected run. */
  predicate Timely(cfg: Config, r: Run, k: nat)
    requires |r.states| == |r.steps| + 1 && k < |r.steps|
  {
    r.steps[k].Finish? && r.steps[k].p in r.states[k].rows ==>
      r.states[k].now <= r.states[k].rows[r.steps[k].p].startedAt + MaxRuntime(cfg)
  }

  lemma SweepIsNotLate(cfg: Config, s: State, p: ProcId)
    requires CountInv(cfg, s) && Enabled(s, Sweep(p))
    ensures Late(NextSweep(cfg, s, p).history) == Late(s.history)
  {
    forall q | q in Stale(cfg, s, p, s.procs[p].startedAt)
      ensures q !in FinishedSet(s.history)
    {
      assert RowOk(cfg, s, q);
    }
  }

  lemma OthersAreNotLate(cfg: Config, s: State, step: Step)
    requires Enabled(s, step) && !step.Finish? && !step.Sweep?
    ensures Late(Next(cfg, s, step).history) == Late(s.history)
  {
  }

  lemma {:induction false} NoneLate(cfg: Config, r: Run, k: nat)
    requires Legal(cfg, r) && k <= |r.steps| && forall i | 0 <= i < k :: Timely(cfg, r, i)
    ensures Late(r.states[k].history) == {}
  {
    if k > 0 {
      NoneLate(cfg, r, k - 1);
      Reachable(cfg, r, k - 1);
      assert StepOk(cfg, r, k - 1) && Timely(cfg, r, k - 1);
      var s, step := r.states[k - 1], r.steps[k - 1];
      if step.Finish? {
        LateFinish(cfg, s, step.p, step.ok);
      } else if step.Sweep? {
        SweepIsNotLate(cfg, s, step.p);
      } else {
        OthersAreNotLate(cfg, s, step);
      }
    }
  }

  /** The process is between a row write and its counter. */
  predicate Between(s: State, p: ProcId) {
    p in s.procs && (s.procs[p].Saved? || s.procs[p].Swept?)
  }

  /** In step i a process gives up or dies between a row write and its counter. */
  predicate StopsBetween(r: Run, i: nat, p: ProcId) {
    i < |r.states| && Stops(r, i, p) && Between(r.states[i], p)
  }

  /** No increment is missing exactly when nobody is, and nobody stopped, between a row write and its counter. */
  lemma NothingMissing(cfg: Config, r: Run, k: nat)
    requires Legal(cfg, r) && k <= |r.steps|
    ensures var h := r.states[k].history;
            UncountedFinishes(h) == {} && UncountedSweeps(h) == {}
            <==> (forall p :: !Between(r.states[k], p)) && forall i, p | 0 <= i < k :: !StopsBetween(r, i, p)
  {
    var h := r.states[k].history;
    if p :| Between(r.states[k], p) {
      Reachable(cfg, r, k);
      BetweenIsMissing(cfg, r, k, p);
    } else if i, p :| 0 <= i < k && StopsBetween(r, i, p) {
      Reachable(cfg, r, i);
      StoppedIsMissing(cfg, r, i, k, p);
    } else {
      forall p: ProcId
        ensures p !in UncountedFinishes(h) && p !in UncountedSweeps(h)
      {
        FinishUncountedIff(cfg, r, k, p);
        SweepUncountedIff(cfg, r, k, p);
        NobodyBetween(r, k, p);
      }
    }
  }

  lemma NobodyBetween(r: Run, k: nat, q: ProcId)
    requires |r.states| == |r.steps| + 1 && k <= |r.steps|
    requires (forall p :: !Between(r.states[k], p)) && forall i, p | 0 <= i < k :: !StopsBetween(r, i, p)
    ensures !IsSaved(r.states[k], q) && forall i | 0 <= i < k :: !StopsSaved(r, i, q)
    ensures (forall p :: !HoldsSwept(r.states[k], p, q)) && forall i, p | 0 <= i < k :: !StopsHolding(r, i, p, q)
  {
    assert !Between(r.states[k], q);
    forall p: ProcId
      ensures !HoldsSwept(r.states[k], p, q)
    {
      assert !Between(r.states[k], p);
    }
    forall i, p: ProcId | 0 <= i < k
      ensures !StopsHolding(r, i, p, q) && !StopsSaved(r, i, p)
    {
      assert !StopsBetween(r, i, p);
    }
  }

  lemma BetweenIsMissing(cfg: Config, r: Run, k: nat, p: ProcId)
    requires Legal(cfg, r) && k <= |r.steps| && Between(r.states[k], p) && CountInv(cfg, r.states[k])
    ensures var h := r.states[k].history; UncountedFinishes(h) != {} || UncountedSweeps(h) != {}
  {
    assert RunOk(r.states[k], p);
    if r.states[k].procs[p].Saved? {
      FinishUncountedIff(cfg, r, k, p);
    } else {
      var q :| q in r.states[k].procs[p].closed;
      assert HoldsSwept(r.states[k], p, q);
      SweepUncountedIff(cfg, r, k, q);
    }
  }

  lemma StoppedIsMissing(cfg: Config, r: Run, i: nat, k: nat, p: ProcId)
    requires Legal(cfg, r) && i < k <= |r.steps| && StopsBetween(r, i, p) && CountInv(cfg, r.states[i])
    ensures var h := r.states[k].history; UncountedFinishes(h) != {} || UncountedSweeps(h) != {}
  {
    assert RunOk(r.states[i], p);
    if r.states[i].procs[p].Saved? {
      assert StopsSaved(r, i, p);
      FinishUncountedIff(cfg, r, k, p);
    } else {
      var q :| q in r.states[i].procs[p].closed;
      assert StopsHolding(r, i, p, q);
      SweepUncountedIff(cfg, r, k, q);
    }
  }

  /**
   If every run that finishes does so in time, the counters count each closed invocation, dead runs once they are swept
   included, exactly once if and only if no process is between a row write and its counter now, and none has given up or
   died there.
   */
  lemma CountedOnce(cfg: Config, r: Run, k: nat)
    requires Legal(cfg, r) && k <= |r.steps| && forall i | 0 <= i < k :: Timely(cfg, r, i)
    ensures var s := r.states[k];
            && (s.counters.succeeded + s.counters.failed == |ClosedEver(s.history)| <==>
                (forall p :: !Between(s, p)) && forall i, p | 0 <= i < k :: !StopsBetween(r, i, p))
            && SkippedSet(s) !! ClosedEver(s.history)
  {
    CountersExact(cfg, r, k);
    NoneLate(cfg, r, k);
    NothingMissing(cfg, r, k);
    SkipsAreNotClosed(cfg, r, k);
  }

  lemma SkipsAreNotClosed(cfg: Config, r: Run, k: nat)
    requires Legal(cfg, r) && k <= |r.steps|
    ensures SkippedSet(r.states[k]) !! ClosedEver(r.states[k].history)
  {
    Reachable(cfg, r, k);
    forall p | p in ClosedEver(r.states[k].history)
      ensures p !in SkippedSet(r.states[k])
    {
      assert RunOk(r.states[k], p);
    }
  }

  /**
   For each invocation, in every history: it has been counted once for its finish unless it is, or stopped, between
   that and the counter, and once for being swept unless the sweeping run is, or stopped, between that and the counter.
   */
  lemma CountedFor(cfg: Config, r: Run, k: nat, p: ProcId)
    requires Legal(cfg, r) && k <= |r.steps|
    ensures var s, h := r.states[k], r.states[k].history;
            && (p in h.counted <==>
                && Finished(h, p) && !IsSaved(s, p) && forall i | 0 <= i < k :: !StopsSaved(r, i, p))
            && (p in h.countedSwept <==>
                && p in h.swept && (forall o :: !HoldsSwept(s, o, p))
                && forall i, o | 0 <= i < k :: !StopsHolding(r, i, o, p))
  {
    FinishUncountedIff(cfg, r, k, p);
    SweepUncountedIff(cfg, r, k, p);
    Reachable(cfg, r, k);
    assert RunOk(r.states[k], p);
  }

  /** The rows tell which invocations were closed, as far as they have not been purged. */
  lemma RowsTell(cfg: Config, r: Run, k: nat)
    requires Legal(cfg, r) && k <= |r.steps|
    ensures var s, h := r.states[k], r.states[k].history;
            (set p | p in s.rows && s.rows[p].status != Running) == ClosedEver(h) * s.rows.Keys
  {
    Reachable(cfg, r, k);
    var s, h := r.states[k], r.states[k].history;
    forall p | p in s.rows
      ensures s.rows[p].status != Running <==> p in ClosedEver(h)
    {
      assert RowOk(cfg, s, p);
    }
  }

  /** Only a purge removes rows. */
  lemma {:induction false} RowsStay(cfg: Config, r: Run, k: nat)
    requires Legal(cfg, r) && k <= |r.steps| && forall i {:trigger r.steps[i]} | 0 <= i < k :: !r.steps[i].Purge?
    ensures ClosedEver(r.states[k].history) <= r.states[k].rows.Keys
  {
    if k > 0 {
      RowsStay(cfg, r, k - 1);
      assert StepOk(cfg, r, k - 1);
    }
  }

  // ---------- what is swept ----------

  /** A run that started under the lock is marked interrupted only after its lease has run out, dead or not: the lock
      of either job lasts as long as its longest expected run. */
  lemma InterruptedAfterLease(cfg: Config, s: State, p: ProcId, q: ProcId)
    requires CountInv(cfg, s) && Enabled(s, Sweep(p)) && q in Stale(cfg, s, p, s.procs[p].startedAt)
    requires s.rows[q].lease.Some?
    requires cfg == RETRY_WEBHOOKS || cfg == PURGE_EXPIRED_DATA || Ttl(cfg) <= MaxRuntime(cfg)
    ensures s.rows[q].lease.value.takenAt + Ttl(cfg) < s.now
  {
    assert RunOk(s, p) && RowOk(cfg, s, q);
  }
}
