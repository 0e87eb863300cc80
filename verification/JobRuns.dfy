/** Whether two runs of a scheduled job can overlap, and how counters can be wrong: histories of module Jobs. */
module JobRuns {
  import opened Wrappers
  import opened Jobs
  import opened JobCounts

  // ---------- the lock over time ----------

  /** A release deletes the lock only if it is the releaser's own. */
  lemma ReleaseOnlyOwn(cfg: Config, s: State, p: ProcId, reached: bool)
    requires LockInv(cfg, s) && Enabled(s, Release(p, reached))
    ensures var t, lease := NextRelease(s, p, reached), LeaseOf(s.procs[p]);
            t.lock != s.lock ==> t.lock == None && lease.Some? && Held(s) == Some(lease.value.token)
    ensures forall q | q in s.procs && q != p ::
              LeaseOf(s.procs[q]).Some? && Held(s) == Some(LeaseOf(s.procs[q]).value.token) ==>
                Held(NextRelease(s, p, reached)) == Held(s)
  {
    forall q | q in s.procs
      ensures Apart(cfg, s, q, p)
    {
    }
  }

  /** Without a new SET the lock of an earlier moment is still there or gone. */
  lemma {:induction false} LockOnlyGoes(cfg: Config, r: Run, i: nat, j: nat)
    requires Legal(cfg, r) && i <= j <= |r.steps|
    requires forall k {:trigger r.steps[k]} | i <= k < j :: !r.steps[k].Take? && !r.steps[k].TakeFails?
    ensures r.states[j].lock.None? || r.states[j].lock == r.states[i].lock
    decreases j
  {
    if i < j {
      LockOnlyGoes(cfg, r, i, j - 1);
      assert StepOk(cfg, r, j - 1);
    }
  }

  /** Whoever died holding it: a lock that nobody takes anew is free one TTL later. */
  lemma AbandonedLockExpires(cfg: Config, r: Run, i: nat, j: nat)
    requires Legal(cfg, r) && i <= j <= |r.steps| && r.states[i].now + Ttl(cfg) <= r.states[j].now
    requires forall k {:trigger r.steps[k]} | i <= k < j :: !r.steps[k].Take? && !r.steps[k].TakeFails?
    ensures Held(r.states[j]) == None
  {
    Reachable(cfg, r, i);
    LockOnlyGoes(cfg, r, i, j);
  }

  /** Of two processes that have the lock, as far as they know, one took it a TTL or more before the other, so it has
      outlived its lease. */
  lemma LeasesApart(cfg: Config, r: Run, k: nat, p: ProcId, q: ProcId)
    requires Legal(cfg, r) && k <= |r.steps| && p in r.states[k].procs && q in r.states[k].procs && p != q
    requires LeaseOf(r.states[k].procs[p]).Some? && LeaseOf(r.states[k].procs[q]).Some?
    ensures var a, b := LeaseOf(r.states[k].procs[p]).value, LeaseOf(r.states[k].procs[q]).value;
            && 0 <= a.takenAt && 0 <= b.takenAt
            && (|| a.takenAt + Ttl(cfg) <= b.takenAt <= r.states[k].now
                || b.takenAt + Ttl(cfg) <= a.takenAt <= r.states[k].now)
  {
    Reachable(cfg, r, k);
    assert LeaseOk(cfg, r.states[k], p) && LeaseOk(cfg, r.states[k], q) && Apart(cfg, r.states[k], p, q);
  }

  // ---------- overlap ----------

  function Last(r: Run): State
    requires |r.states| > 0
  {
    r.states[|r.states| - 1]
  }

  lemma GoOn(cfg: Config, r: Run, step: Step) returns (longer: Run)
    requires Legal(cfg, r) && Enabled(Last(r), step)
    ensures Legal(cfg, longer) && Last(longer) == Next(cfg, Last(r), step)
  {
    LegalExtended(cfg, r, step);
    longer := Run(r.steps + [step], r.states + [Next(cfg, Last(r), step)]);
  }

  /** A process that nobody holds up takes the lock and creates its row. */
  lemma StartsLocked(cfg: Config, r: Run, p: ProcId, token: Token) returns (longer: Run)
    requires Legal(cfg, r) && p !in Last(r).procs && p !in Last(r).rows && token !in Last(r).history.tokens
    requires Held(Last(r)) == None
    ensures Legal(cfg, longer)
    ensures var s, t, lease := Last(r), Last(longer), Some(Lease(token, Last(r).now));
            && t.now == s.now && t.procs == s.procs[p := Created(lease, s.now)]
            && t.rows == s.rows[p := Row(Running, s.now, false, lease)]
            && t.history == s.history.(tokens := s.history.tokens + {token}) && t.counters == s.counters
            && t.lock == Some(Lock(token, s.now + Ttl(cfg)))
  {
    var r1 := GoOn(cfg, r, Spawn(p));
    var r2 := GoOn(cfg, r1, Take(p, token));
    longer := GoOn(cfg, r2, Create(p));
  }

  /** The sweep, counted. */
  lemma SweepsAll(cfg: Config, r: Run, p: ProcId) returns (longer: Run)
    requires Legal(cfg, r) && p in Last(r).procs && Last(r).procs[p].Created?
    ensures Legal(cfg, longer)
    ensures var s, t := Last(r), Last(longer);
            var stale := Stale(cfg, s, p, s.procs[p].startedAt);
            && t.procs == s.procs[p := Working(s.procs[p].lease)] && t.now == s.now && t.lock == s.lock
            && t.rows.Keys == s.rows.Keys && (forall q | q in s.rows && q !in stale :: t.rows[q] == s.rows[q])
            && t.history == s.history.(swept := s.history.swept + stale, countedSwept := s.history.countedSwept + stale)
            && t.counters == s.counters.(failed := s.counters.failed + |stale|)
  {
    longer := GoOn(cfg, r, Sweep(p));
    if Last(longer).procs[p].Swept? {
      longer := GoOn(cfg, longer, CountSweep(p));
    }
  }

  /** A run that works on while time passes. */
  lemma WorksOn(cfg: Config, p: ProcId, a: Token, later: Time) returns (r: Run)
    requires later >= 0
    ensures Legal(cfg, r)
    ensures var s, lease := Last(r), Some(Lease(a, 0));
            && s.procs == map[p := Working(lease)] && s.rows == map[p := Row(Running, 0, false, lease)]
            && s.now == later && s.lock == Some(Lock(a, Ttl(cfg)))
            && s.history == Init().history.(tokens := {a}) && s.counters == Zero(0)
  {
    var r0 := StartsLocked(cfg, Run([], [Init()]), p, a);
    var r1 := SweepsAll(cfg, r0, p);
    assert Stale(cfg, Last(r0), p, 0) == {};
    r := GoOn(cfg, r1, Tick(later));
  }

  /** p took the lock at time zero and both work under it at time later. */
  ghost predicate Overlap(cfg: Config, r: Run, p: ProcId, q: ProcId, later: Time) {
    && Legal(cfg, r) && Last(r).now == later && p in Last(r).procs && q in Last(r).procs
    && Last(r).procs[p].Working? && Last(r).procs[q].Working?
    && Last(r).procs[p].lease.Some? && Last(r).procs[q].lease.Some? && Last(r).procs[p].lease.value.takenAt == 0
  }

  lemma RunsOverlap(cfg: Config, p: ProcId, q: ProcId, later: Time) returns (r: Run)
    requires p != q && later >= Ttl(cfg)
    ensures Overlap(cfg, r, p, q, later)
  {
    var r0 := WorksOn(cfg, p, 0, later);
    var r1 := StartsLocked(cfg, r0, q, 1);
    r := SweepsAll(cfg, r1, q);
  }

  /** Two runs under the lock can be at work together exactly when the first is still at work a TTL after it took it. */
  lemma OverlapIffOutlived(cfg: Config, p: ProcId, q: ProcId, later: Time)
    requires p != q
    ensures (exists r :: Overlap(cfg, r, p, q, later)) <==> later >= Ttl(cfg)
  {
    if r :| Overlap(cfg, r, p, q, later) {
      LeasesApart(cfg, r, |r.steps|, p, q);
    }
    if later >= Ttl(cfg) {
      var r := RunsOverlap(cfg, p, q, later);
    }
  }

  /** A run without the lock, from an external scheduler or with Redis failing, overlaps at any time. */
  lemma UnlockedOverlaps(cfg: Config, p: ProcId, q: ProcId) returns (r: Run)
    requires p != q
    ensures Legal(cfg, r) && Last(r).now == 0 && Held(Last(r)) == Some(0)
    ensures Last(r).procs == map[p := Working(Some(Lease(0, 0))), q := Working(None)]
  {
    r := WorksOn(cfg, p, 0, 0);
    r := GoOn(cfg, r, Spawn(q));
    r := GoOn(cfg, r, GoUnlocked(q));
    r := GoOn(cfg, r, Create(q));
    r := SweepsAll(cfg, r, q);
  }

  // ---------- counters that are off ----------

  /** A run that is swept and finishes after all is counted as failed and as succeeded. */
  lemma LateRunsCountTwice(cfg: Config, p: ProcId, q: ProcId, later: Time) returns (r: Run)
    requires p != q && later >= Ttl(cfg) && later > MaxRuntime(cfg) >= 0
    ensures Legal(cfg, r) && ClosedEver(Last(r).history) == {p}
    ensures Last(r).counters.succeeded == 1 && Last(r).counters.failed == 1
  {
    r := WorksOn(cfg, p, 0, later);
    r := StartsLocked(cfg, r, q, 1);
    assert Stale(cfg, Last(r), q, later) == {p};
    r := SweepsAll(cfg, r, q);
    r := GoOn(cfg, r, Finish(p, true));
    r := GoOn(cfg, r, CountFinish(p));
  }

  /** A run that dies between writing its outcome and raising the counter is never counted. */
  lemma LostIncrement(cfg: Config, p: ProcId) returns (r: Run)
    ensures Legal(cfg, r) && ClosedEver(Last(r).history) == {p} && Last(r).procs == map[p := Gone]
    ensures Last(r).counters == Zero(0) && p in Last(r).rows && Last(r).rows[p].status == Succeeded
  {
    r := WorksOn(cfg, p, 0, 0);
    r := GoOn(cfg, r, Finish(p, true));
    r := GoOn(cfg, r, Die(p));
  }
}
