/** What single steps of a job do to its lock, rows and counters, in every history. */
module JobSteps {
  import opened Wrappers
  import opened Jobs
  import opened JobCounts

  lemma At(cfg: Config, r: Run, k: nat)
    requires Legal(cfg, r) && k < |r.steps|
    ensures Enabled(r.states[k], r.steps[k]) && r.states[k + 1] == Next(cfg, r.states[k], r.steps[k])
    ensures LockInv(cfg, r.states[k]) && CountInv(cfg, r.states[k])
  {
    assert StepOk(cfg, r, k);
    Reachable(cfg, r, k);
  }

  // ---------- the lock ----------

  /** The lock is given exactly when no unexpired token is stored, and then for the whole TTL. */
  lemma TakeTells(cfg: Config, r: Run, k: nat, p: ProcId, token: Token)
    requires Legal(cfg, r) && k < |r.steps| && r.steps[k] == Take(p, token)
    ensures var s, t := r.states[k], r.states[k + 1];
            && p in t.procs && t.rows == s.rows && t.counters == s.counters
            && (t.procs[p] == Ready(Some(Lease(token, s.now))) <==>
                s.lock.None? || s.lock.value.expires <= s.now)
            && (t.procs[p] == Refused <==> s.lock.Some? && s.now < s.lock.value.expires)
            && t.lock == if t.procs[p] == Refused then s.lock else Some(Lock(token, s.now + Ttl(cfg)))
  {
    At(cfg, r, k);
  }

  /** A release that reaches Redis while the own lease runs frees the lock; any other one leaves it as it is. */
  lemma ReleaseTells(cfg: Config, r: Run, k: nat, p: ProcId, reached: bool)
    requires Legal(cfg, r) && k < |r.steps| && r.steps[k] == Release(p, reached)
    ensures var s, t := r.states[k], r.states[k + 1];
            && p in s.procs && s.procs[p].Ended?
            && var lease := s.procs[p].lease;
               var running := lease.Some? && s.now < lease.value.takenAt + Ttl(cfg);
               && (reached && running ==> Held(t) == None && t.lock == None)
               && (!reached || !running ==> Held(t) == Held(s))
  {
    At(cfg, r, k);
    var s := r.states[k];
    assert LeaseOk(cfg, s, p);
    if s.procs[p].lease.Some? && s.now >= s.procs[p].lease.value.takenAt + Ttl(cfg) {
      LateTokenIsNotHeld(cfg, r, k, p);
    }
  }

  /** Whoever holds the lock under this token, its time runs from the lease of the process that took it. */
  ghost predicate ExpiryFits(cfg: Config, s: State, p: ProcId) {
    p in s.procs && LeaseOf(s.procs[p]).Some? && s.lock.Some?
    && s.lock.value.token == LeaseOf(s.procs[p]).value.token
    ==> s.lock.value.expires == LeaseOf(s.procs[p]).value.takenAt + Ttl(cfg)
  }

  lemma ExpiryStep(cfg: Config, s: State, step: Step, p: ProcId)
    requires Enabled(s, step) && ExpiryFits(cfg, s, p) && (p in s.procs ==> LeaseOk(cfg, s, p))
    ensures ExpiryFits(cfg, Next(cfg, s, step), p)
  {
    var t := Next(cfg, s, step);
    if !step.Take? && !step.TakeFails? {
      assert t.lock == s.lock || t.lock == None;
      assert p in t.procs && LeaseOf(t.procs[p]).Some? ==> p in s.procs && LeaseOf(t.procs[p]) == LeaseOf(s.procs[p]);
    }
  }

  lemma {:induction false} ExpiryAlwaysFits(cfg: Config, r: Run, k: nat, p: ProcId)
    requires Legal(cfg, r) && k <= |r.steps|
    ensures ExpiryFits(cfg, r.states[k], p)
  {
    if k > 0 {
      ExpiryAlwaysFits(cfg, r, k - 1, p);
      At(cfg, r, k - 1);
      assert p in r.states[k - 1].procs ==> LeaseOk(cfg, r.states[k - 1], p);
      ExpiryStep(cfg, r.states[k - 1], r.steps[k - 1], p);
    }
  }

  lemma LateTokenIsNotHeld(cfg: Config, r: Run, k: nat, p: ProcId)
    requires Legal(cfg, r) && k <= |r.steps| && p in r.states[k].procs && LeaseOf(r.states[k].procs[p]).Some?
    requires r.states[k].now >= LeaseOf(r.states[k].procs[p]).value.takenAt + Ttl(cfg)
    ensures Held(r.states[k]) != Some(LeaseOf(r.states[k].procs[p]).value.token)
  {
    ExpiryAlwaysFits(cfg, r, k, p);
  }

  /** A failing SET gives no lease, and has stored the token or not; a stored one blocks for the TTL. */
  lemma TakeFailsTells(cfg: Config, r: Run, k: nat, p: ProcId, token: Token, stored: bool)
    requires Legal(cfg, r) && k < |r.steps| && r.steps[k] == TakeFails(p, token, stored)
    ensures var s, t := r.states[k], r.states[k + 1];
            && p in t.procs && t.procs[p] == Ready(None) && t.rows == s.rows && t.counters == s.counters
            && t.lock == if stored && (s.lock.None? || s.lock.value.expires <= s.now)
                         then Some(Lock(token, s.now + Ttl(cfg))) else s.lock
  {
    At(cfg, r, k);
  }

  predicate Leaves(step: Step, p: ProcId) {
    step == Die(p) || (step.Release? && step.p == p)
  }

  /** A lease once taken is kept until its process releases or dies. */
  lemma {:induction false} LeaseIsKept(cfg: Config, r: Run, i: nat, j: nat, p: ProcId, token: Token)
    requires Legal(cfg, r) && i < j <= |r.steps| && r.steps[i] == Take(p, token) && Held(r.states[i]) == None
    requires forall k {:trigger r.steps[k]} | i < k < j :: !Leaves(r.steps[k], p)
    ensures p in r.states[j].procs && LeaseOf(r.states[j].procs[p]) == Some(Lease(token, r.states[i].now))
    decreases j
  {
    At(cfg, r, j - 1);
    if i < j - 1 {
      LeaseIsKept(cfg, r, i, j - 1, p, token);
    }
  }

  /** So a run that is over before its lease has run out, and reaches Redis then, leaves the lock free. */
  lemma ReleasedInTime(cfg: Config, r: Run, i: nat, j: nat, p: ProcId, token: Token)
    requires Legal(cfg, r) && i < j < |r.steps| && r.steps[i] == Take(p, token) && Held(r.states[i]) == None
    requires r.steps[j] == Release(p, true) && r.states[j].now < r.states[i].now + Ttl(cfg)
    requires forall k {:trigger r.steps[k]} | i < k < j :: !Leaves(r.steps[k], p)
    ensures Held(r.states[j + 1]) == None
  {
    LeaseIsKept(cfg, r, i, j, p, token);
    ReleaseTells(cfg, r, j, p, true);
  }

  // ---------- the rows ----------

  /** A new run is stored as running from now on. */
  lemma CreateTells(cfg: Config, r: Run, k: nat, p: ProcId)
    requires Legal(cfg, r) && k < |r.steps| && r.steps[k] == Create(p)
    ensures var s, t := r.states[k], r.states[k + 1];
            && p in t.rows && t.rows[p].status == Running && t.rows[p].startedAt == s.now && !t.rows[p].interrupted
            && t.rows.Keys == s.rows.Keys + {p}
            && (forall q {:trigger t.rows[q]} | q in s.rows && q != p :: t.rows[q] == s.rows[q])
            && t.counters == s.counters && t.lock == s.lock
  {
    At(cfg, r, k);
  }

  /** The row says succeeded right after the finish exactly when the outcome stored is a success. */
  lemma FinishTells(cfg: Config, r: Run, k: nat, p: ProcId, ok: bool)
    requires Legal(cfg, r) && k < |r.steps| && r.steps[k] == Finish(p, ok)
    ensures var s, t := r.states[k], r.states[k + 1];
            && p in s.rows && t.rows.Keys == s.rows.Keys
            && (t.rows[p].status == Succeeded <==> ok) && (t.rows[p].status == Failed <==> !ok)
            && t.rows[p].startedAt == s.rows[p].startedAt && t.rows[p].interrupted == s.rows[p].interrupted
            && (forall q {:trigger t.rows[q]} | q in s.rows && q != p :: t.rows[q] == s.rows[q])
            && t.counters == s.counters && t.lock == s.lock
  {
    At(cfg, r, k);
  }

  /** A sweep marks exactly the other running rows that started longer before this run than any run may take. */
  lemma SweepTells(cfg: Config, r: Run, k: nat, p: ProcId, q: ProcId)
    requires Legal(cfg, r) && k < |r.steps| && r.steps[k] == Sweep(p)
    ensures var s, t := r.states[k], r.states[k + 1];
            && p in s.procs && s.procs[p].Created? && t.rows.Keys == s.rows.Keys && t.counters == s.counters
            && (q in s.rows ==>
                  var stale := q != p && s.rows[q].status == Running
                             && s.rows[q].startedAt + MaxRuntime(cfg) < s.procs[p].startedAt;
                  t.rows[q] == if stale then s.rows[q].(status := Failed, interrupted := true) else s.rows[q])
  {
    At(cfg, r, k);
  }

  /** A purge deletes only rows that started more than a week ago, and no counter. */
  lemma PurgeTells(cfg: Config, r: Run, k: nat, some: set<ProcId>, q: ProcId)
    requires Legal(cfg, r) && k < |r.steps| && r.steps[k] == Purge(some)
    ensures var s, t := r.states[k], r.states[k + 1];
            && (q in t.rows <==> q in s.rows && q !in some) && (q in t.rows ==> t.rows[q] == s.rows[q])
            && (q in s.rows && s.now <= s.rows[q].startedAt + 7 * 24 * 60 * 60 * SECOND ==> q in t.rows)
            && t.counters == s.counters
  {
    At(cfg, r, k);
  }

  // ---------- the counters ----------

  /** A process that has stored its outcome did so in an earlier finish of its own. */
  lemma {:induction false} SavedByFinish(cfg: Config, r: Run, k: nat, p: ProcId) returns (i: nat)
    requires Legal(cfg, r) && k <= |r.steps| && p in r.states[k].procs && r.states[k].procs[p].Saved?
    ensures i < k && r.steps[i] == Finish(p, r.states[k].procs[p].ok)
  {
    i := k - 1;
    At(cfg, r, i);
    if p in r.states[i].procs && r.states[i].procs[p] == r.states[k].procs[p] {
      i := SavedByFinish(cfg, r, i, p);
    }
  }

  /** Counting an outcome raises one counter by one: the one of the outcome that was stored. */
  lemma CountTells(cfg: Config, r: Run, k: nat, p: ProcId) returns (i: nat, ok: bool)
    requires Legal(cfg, r) && k < |r.steps| && r.steps[k] == CountFinish(p)
    ensures i < k && r.steps[i] == Finish(p, ok)
    ensures var before, after := r.states[k].counters, r.states[k + 1].counters;
            && after.succeeded == before.succeeded + (if ok then 1 else 0)
            && after.failed == before.failed + (if ok then 0 else 1)
            && after.skipped == before.skipped
  {
    At(cfg, r, k);
    ok := r.states[k].procs[p].ok;
    i := SavedByFinish(cfg, r, k, p);
  }

  /** A process that has marked rows and not counted them did so in an earlier sweep of its own. */
  lemma {:induction false} SweptBySweep(cfg: Config, r: Run, k: nat, p: ProcId) returns (i: nat)
    requires Legal(cfg, r) && k <= |r.steps| && p in r.states[k].procs && r.states[k].procs[p].Swept?
    ensures i < k && r.steps[i] == Sweep(p)
    ensures forall q :: q in r.states[k].procs[p].closed <==>
              q in r.states[i].rows && q in r.states[i + 1].rows
              && r.states[i + 1].rows[q].interrupted && !r.states[i].rows[q].interrupted
  {
    i := k - 1;
    At(cfg, r, i);
    var s := r.states[i];
    if p in s.procs && s.procs[p] == r.states[k].procs[p] {
      i := SweptBySweep(cfg, r, i, p);
    } else {
      forall q | q in s.rows && s.rows[q].status == Running
        ensures !s.rows[q].interrupted
      {
        assert RowOk(cfg, s, q);
      }
    }
  }

  /** Counting a sweep raises the failed counter by the number of rows that the sweep marked. */
  lemma CountSweepTells(cfg: Config, r: Run, k: nat, p: ProcId) returns (i: nat)
    requires Legal(cfg, r) && k < |r.steps| && r.steps[k] == CountSweep(p)
    ensures i < k && r.steps[i] == Sweep(p)
    ensures var marked := set q | q in r.states[i].rows && q in r.states[i + 1].rows
                                  && r.states[i + 1].rows[q].interrupted && !r.states[i].rows[q].interrupted;
            var before, after := r.states[k].counters, r.states[k + 1].counters;
            after == before.(failed := before.failed + |marked|)
  {
    At(cfg, r, k);
    i := SweptBySweep(cfg, r, k, p);
    assert r.states[k].procs[p].closed
           == set q | q in r.states[i].rows && q in r.states[i + 1].rows
                      && r.states[i + 1].rows[q].interrupted && !r.states[i].rows[q].interrupted;
  }

  /** A skip raises its counter by one and stores no row. */
  lemma SkipTells(cfg: Config, r: Run, k: nat, p: ProcId)
    requires Legal(cfg, r) && k < |r.steps| && r.steps[k] == Skip(p)
    ensures var s, t := r.states[k], r.states[k + 1];
            t.rows == s.rows && t.lock == s.lock && t.counters == s.counters.(skipped := s.counters.skipped + 1)
  {
    At(cfg, r, k);
  }
}
