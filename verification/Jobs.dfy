/**
 One scheduled job across all containers: the Redis lock, the run rows, the sweep that closes rows of
 dead runs, the counters, and the purge of old rows. An invocation of the job is a process; processes
 interleave freely, may die or fail between any two writes, and may run without the lock (an external
 scheduler, or Redis being down). Writing a row and raising its counter are two steps.
 */
module Jobs {
  import opened Wrappers

  /** Microseconds since an arbitrary origin. */
  type Time = int
  type ProcId = nat
  type Token = nat

  const SECOND := 1000000

  /** Lock TTL and longest expected run, in seconds. */
  datatype Config = Config(ttl: int, maxRuntime: int)

  const RETRY_WEBHOOKS := Config(120, 120)
  const PURGE_EXPIRED_DATA := Config(900, 900)

  function Ttl(cfg: Config): Time {
    SECOND * Max(1, cfg.ttl)
  }

  function MaxRuntime(cfg: Config): Time {
    SECOND * cfg.maxRuntime
  }

  /** The value of the lock key; it is gone once it has expired. */
  datatype Lock = Lock(token: Token, expires: Time)

  /** What a process remembers of a lock it took. */
  datatype Lease = Lease(token: Token, takenAt: Time)

  /** Swept: stale rows are closed and not counted yet. Saved: the outcome is written and not counted yet. */
  datatype Phase =
    | Started
    | Refused
    | Ready(lease: Option<Lease>)
    | Created(lease: Option<Lease>, startedAt: Time)
    | Swept(lease: Option<Lease>, closed: set<ProcId>)
    | Working(lease: Option<Lease>)
    | Saved(lease: Option<Lease>, ok: bool)
    | Ended(lease: Option<Lease>)
    | Skipped
    | Gone

  datatype RowStatus = Running | Succeeded | Failed

  /** One row of the run table; the run of process p is row p. The lease it started under is kept for the proofs. */
  datatype Row = Row(status: RowStatus, startedAt: Time, interrupted: bool, lease: Option<Lease>)

  /** The stored counters. */
  datatype Counters = Counters(succeeded: nat, failed: nat, skipped: nat)

  /**
   What has happened to invocations, whatever has become of their rows: which ones finished well or badly, which ones
   a sweep closed, and for which of these the counter was raised.
   */
  datatype History = History(tokens: set<Token>, succeeded: set<ProcId>, failed: set<ProcId>, swept: set<ProcId>,
                             counted: set<ProcId>, countedSwept: set<ProcId>)

  datatype State = State(now: Time, lock: Option<Lock>, procs: map<ProcId, Phase>, rows: map<ProcId, Row>,
                         counters: Counters, history: History)

  datatype Step =
    | Spawn(p: ProcId)
    | Take(p: ProcId, token: Token)
    | TakeFails(p: ProcId, token: Token, stored: bool)
    | GoUnlocked(p: ProcId)
    | Skip(p: ProcId)
    | SkipFails(p: ProcId)
    | Create(p: ProcId)
    | Sweep(p: ProcId)
    | CountSweep(p: ProcId)
    | Finish(p: ProcId, ok: bool)
    | CountFinish(p: ProcId)
    | GiveUp(p: ProcId)
    | Release(p: ProcId, reached: bool)
    | Die(p: ProcId)
    | Purge(some: set<ProcId>)
    | Tick(to: Time)

  /** The lock key as Redis sees it now. */
  function Held(s: State): Option<Token> {
    if s.lock.Some? && s.now < s.lock.value.expires then Some(s.lock.value.token) else None
  }

  /** Rows that a sweep closes by the run of p, which started at that time. */
  function Stale(cfg: Config, s: State, p: ProcId, startedAt: Time): set<ProcId> {
    set q | q in s.rows && q != p && s.rows[q].status == Running && s.rows[q].startedAt < startedAt - MaxRuntime(cfg)
  }

  const RETENTION := 604800 * SECOND

  predicate Enabled(s: State, step: Step) {
    match step
    case Spawn(p) => p !in s.procs
    case Take(p, token) => p in s.procs && s.procs[p] == Started && token !in s.history.tokens
    case TakeFails(p, token, _) => p in s.procs && s.procs[p] == Started && token !in s.history.tokens
    case GoUnlocked(p) => p in s.procs && s.procs[p] == Started
    case Skip(p) => p in s.procs && s.procs[p] == Refused
    case SkipFails(p) => p in s.procs && s.procs[p] == Refused
    case Create(p) => p in s.procs && s.procs[p].Ready?
    case Sweep(p) => p in s.procs && s.procs[p].Created?
    case CountSweep(p) => p in s.procs && s.procs[p].Swept?
    case Finish(p, _) => p in s.procs && s.procs[p].Working? && p in s.rows
    case CountFinish(p) => p in s.procs && s.procs[p].Saved?
    case GiveUp(p) =>
      p in s.procs && (var phase := s.procs[p];
        phase.Ready? || phase.Created? || phase.Swept? || phase.Working? || phase.Saved?)
    case Release(p, _) => p in s.procs && s.procs[p].Ended?
    case Die(p) => p in s.procs && s.procs[p] != Skipped && s.procs[p] != Gone
    case Purge(some) => forall q | q in some :: q in s.rows && s.rows[q].startedAt < s.now - RETENTION
    case Tick(to) => s.now <= to
  }

  /** SET key token NX EX ttl */
  function TakeLock(cfg: Config, s: State, token: Token): State {
    if Held(s).Some? then s else s.(lock := Some(Lock(token, s.now + Ttl(cfg))))
  }

  function To(s: State, p: ProcId, phase: Phase): State {
    s.(procs := s.procs[p := phase])
  }

  function NextTake(cfg: Config, s: State, p: ProcId, token: Token): State {
    var t := TakeLock(cfg, s, token).(history := s.history.(tokens := s.history.tokens + {token}));
    To(t, p, if Held(s).Some? then Refused else Ready(Some(Lease(token, s.now))))
  }

  /** An error while taking the lock; the command may have reached Redis all the same. */
  function NextTakeFails(cfg: Config, s: State, p: ProcId, token: Token, stored: bool): State {
    var locked := if stored then TakeLock(cfg, s, token) else s;
    var t := locked.(history := s.history.(tokens := s.history.tokens + {token}));
    To(t, p, Ready(None))
  }

  function NextSkip(s: State, p: ProcId): State {
    To(s.(counters := s.counters.(skipped := s.counters.skipped + 1)), p, Skipped)
  }

  function NextCreate(s: State, p: ProcId): State
    requires p in s.procs && s.procs[p].Ready?
  {
    var lease := s.procs[p].lease;
    To(s.(rows := s.rows[p := Row(Running, s.now, false, lease)]), p, Created(lease, s.now))
  }

  /** Closes the running rows that are older than a run can be. */
  function NextSweep(cfg: Config, s: State, p: ProcId): State
    requires p in s.procs && s.procs[p].Created?
  {
    var stale, lease := Stale(cfg, s, p, s.procs[p].startedAt), s.procs[p].lease;
    To(s.(rows := map q | q in s.rows ::
                    if q in stale then s.rows[q].(status := Failed, interrupted := true) else s.rows[q],
          history := s.history.(swept := s.history.swept + stale)),
       p, if stale == {} then Working(lease) else Swept(lease, stale))
  }

  function NextCountSweep(s: State, p: ProcId): State
    requires p in s.procs && s.procs[p].Swept?
  {
    var closed := s.procs[p].closed;
    To(s.(counters := s.counters.(failed := s.counters.failed + |closed|),
          history := s.history.(countedSwept := s.history.countedSwept + closed)),
       p, Working(s.procs[p].lease))
  }

  /** Writes the outcome whatever the row says by now; a row that has been purged cannot be written. */
  function NextFinish(s: State, p: ProcId, ok: bool): State
    requires p in s.rows && p in s.procs && s.procs[p].Working?
  {
    To(s.(rows := s.rows[p := s.rows[p].(status := if ok then Succeeded else Failed)],
          history := if ok then s.history.(succeeded := s.history.succeeded + {p})
                     else s.history.(failed := s.history.failed + {p})),
       p, Saved(s.procs[p].lease, ok))
  }

  function NextCountFinish(s: State, p: ProcId): State
    requires p in s.procs && s.procs[p].Saved?
  {
    var c := s.counters;
    To(s.(counters := if s.procs[p].ok then c.(succeeded := c.succeeded + 1) else c.(failed := c.failed + 1),
          history := s.history.(counted := s.history.counted + {p})),
       p, Ended(s.procs[p].lease))
  }

  /** Deletes the key if it still holds the own token; reached says whether the command got through to Redis. */
  function NextRelease(s: State, p: ProcId, reached: bool): State
    requires p in s.procs && s.procs[p].Ended?
  {
    var lease := s.procs[p].lease;
    var mine := reached && lease.Some? && Held(s) == Some(lease.value.token);
    To(s.(lock := if mine then None else s.lock), p, Gone)
  }

  function Next(cfg: Config, s: State, step: Step): State
    requires Enabled(s, step)
  {
    match step
    case Spawn(p) => To(s, p, Started)
    case Take(p, token) => NextTake(cfg, s, p, token)
    case TakeFails(p, token, stored) => NextTakeFails(cfg, s, p, token, stored)
    case GoUnlocked(p) => To(s, p, Ready(None))
    case Skip(p) => NextSkip(s, p)
    case SkipFails(p) => To(s, p, Ready(None))
    case Create(p) => NextCreate(s, p)
    case Sweep(p) => NextSweep(cfg, s, p)
    case CountSweep(p) => NextCountSweep(s, p)
    case Finish(p, ok) => NextFinish(s, p, ok)
    case CountFinish(p) => NextCountFinish(s, p)
    case GiveUp(p) => To(s, p, Ended(s.procs[p].lease))
    case Release(p, reached) => NextRelease(s, p, reached)
    case Die(p) => To(s, p, Gone)
    case Purge(some) => s.(rows := s.rows - some)
    case Tick(to) => s.(now := to)
  }

  function Zero(n: nat): Counters {
    Counters(n, n, n)
  }

  function Init(): State {
    State(0, None, map[], map[], Zero(0), History({}, {}, {}, {}, {}, {}))
  }

  datatype Run = Run(steps: seq<Step>, states: seq<State>)

  ghost predicate StepOk(cfg: Config, r: Run, k: nat)
    requires |r.states| == |r.steps| + 1 && k < |r.steps|
  {
    Enabled(r.states[k], r.steps[k]) && r.states[k + 1] == Next(cfg, r.states[k], r.steps[k])
  }

  ghost predicate Legal(cfg: Config, r: Run) {
    && |r.states| == |r.steps| + 1
    && r.states[0] == Init()
    && forall k {:trigger StepOk(cfg, r, k)} | 0 <= k < |r.steps| :: StepOk(cfg, r, k)
  }

  lemma LegalExtended(cfg: Config, r: Run, step: Step)
    requires Legal(cfg, r) && Enabled(r.states[|r.steps|], step)
    ensures var t := Next(cfg, r.states[|r.steps|], step);
            Legal(cfg, Run(r.steps + [step], r.states + [t]))
  {
    var longer := Run(r.steps + [step], r.states + [Next(cfg, r.states[|r.steps|], step)]);
    forall k | 0 <= k < |longer.steps|
      ensures StepOk(cfg, longer, k)
    {
      if k < |r.steps| {
        assert StepOk(cfg, r, k);
      }
    }
  }

  // ---------- the lock ----------

  function LeaseOf(phase: Phase): Option<Lease> {
    match phase
    case Ready(lease) => lease
    case Created(lease, _) => lease
    case Swept(lease, _) => lease
    case Working(lease) => lease
    case Saved(lease, _) => lease
    case Ended(lease) => lease
    case _ => None
  }

  /** A lease that has not run out is the lock itself; leases were taken in the past with tokens of their own. */
  predicate LeaseOk(cfg: Config, s: State, p: ProcId)
    requires p in s.procs
  {
    var lease := LeaseOf(s.procs[p]);
    lease.Some? ==>
      && 0 <= lease.value.takenAt <= s.now && lease.value.token in s.history.tokens
      && (s.now < lease.value.takenAt + Ttl(cfg) ==>
           s.lock == Some(Lock(lease.value.token, lease.value.takenAt + Ttl(cfg))))
  }

  /** Two leases have different tokens, and were taken a TTL or more apart. */
  predicate Apart(cfg: Config, s: State, p: ProcId, q: ProcId)
    requires p in s.procs && q in s.procs
  {
    p != q && LeaseOf(s.procs[p]).Some? && LeaseOf(s.procs[q]).Some? ==>
      var a, b := LeaseOf(s.procs[p]).value, LeaseOf(s.procs[q]).value;
      a.token != b.token && (a.takenAt + Ttl(cfg) <= b.takenAt || b.takenAt + Ttl(cfg) <= a.takenAt)
  }

  ghost predicate LockInv(cfg: Config, s: State) {
    && 0 <= s.now
    && (s.lock.Some? ==> s.lock.value.token in s.history.tokens && s.lock.value.expires <= s.now + Ttl(cfg))
    && (forall p {:trigger LeaseOk(cfg, s, p)} | p in s.procs :: LeaseOk(cfg, s, p))
    && (forall p, q {:trigger Apart(cfg, s, p, q)} | p in s.procs && q in s.procs :: Apart(cfg, s, p, q))
  }

  /** What a step does to the leases: it gives p one, or it takes none but possibly drops the one of p. */
  predicate LeasesKept(s: State, t: State) {
    forall q | q in t.procs :: LeaseOf(t.procs[q]).None? || (q in s.procs && LeaseOf(t.procs[q]) == LeaseOf(s.procs[q]))
  }

  lemma LockInvKept(cfg: Config, s: State, t: State)
    requires LockInv(cfg, s) && LeasesKept(s, t) && s.now <= t.now && s.history.tokens <= t.history.tokens
    requires t.lock == s.lock || (Held(s).None? && t.lock.Some? && t.lock.value.token in t.history.tokens
                                  && t.lock.value.expires <= t.now + Ttl(cfg))
    ensures LockInv(cfg, t)
  {
    forall q | q in t.procs
      ensures LeaseOk(cfg, t, q)
    {
      assert q in s.procs ==> LeaseOk(cfg, s, q);
    }
    forall q, o | q in t.procs && o in t.procs
      ensures Apart(cfg, t, q, o)
    {
      assert q in s.procs && o in s.procs ==> Apart(cfg, s, q, o);
    }
  }

  lemma TakeKeepsLockInv(cfg: Config, s: State, p: ProcId, token: Token)
    requires LockInv(cfg, s) && Enabled(s, Take(p, token))
    ensures LockInv(cfg, NextTake(cfg, s, p, token))
  {
    var t := NextTake(cfg, s, p, token);
    forall q | q in t.procs
      ensures LeaseOk(cfg, t, q)
    {
      assert LeaseOk(cfg, s, q);
    }
    forall q, o | q in t.procs && o in t.procs
      ensures Apart(cfg, t, q, o)
    {
      assert Apart(cfg, s, q, o) && LeaseOk(cfg, s, q) && LeaseOk(cfg, s, o);
    }
  }

  lemma ReleaseKeepsLockInv(cfg: Config, s: State, p: ProcId, reached: bool)
    requires LockInv(cfg, s) && Enabled(s, Release(p, reached))
    ensures LockInv(cfg, NextRelease(s, p, reached))
  {
    var t := NextRelease(s, p, reached);
    forall q | q in t.procs
      ensures LeaseOk(cfg, t, q)
    {
      assert LeaseOk(cfg, s, q) && Apart(cfg, s, q, p);
    }
    forall q, o | q in t.procs && o in t.procs
      ensures Apart(cfg, t, q, o)
    {
      assert Apart(cfg, s, q, o);
    }
  }

  lemma StepKeepsLockInv(cfg: Config, s: State, step: Step)
    requires LockInv(cfg, s) && Enabled(s, step)
    ensures LockInv(cfg, Next(cfg, s, step))
  {
    match step
    case Take(p, token) => TakeKeepsLockInv(cfg, s, p, token);
    case Release(p, reached) => ReleaseKeepsLockInv(cfg, s, p, reached);
    case _ => LockInvKept(cfg, s, Next(cfg, s, step));
  }

  /** At any moment at most one process holds a lease that has not run out. */
  lemma LockExcludes(cfg: Config, s: State, p: ProcId, q: ProcId)
    requires LockInv(cfg, s) && p in s.procs && q in s.procs
    requires LeaseOf(s.procs[p]).Some? && s.now < LeaseOf(s.procs[p]).value.takenAt + Ttl(cfg)
    requires LeaseOf(s.procs[q]).Some? && s.now < LeaseOf(s.procs[q]).value.takenAt + Ttl(cfg)
    ensures p == q
  {
    assert LeaseOk(cfg, s, p) && LeaseOk(cfg, s, q) && Apart(cfg, s, p, q);
  }

  /** While a process holds an unexpired lease, no step of another process takes the lock away from it. */
  lemma LockIsKept(cfg: Config, s: State, step: Step, p: ProcId)
    requires LockInv(cfg, s) && Enabled(s, step) && p in s.procs && LeaseOf(s.procs[p]).Some?
    requires Held(s) == Some(LeaseOf(s.procs[p]).value.token) && !step.Tick?
    ensures Held(Next(cfg, s, step)) == Held(s) || step == Release(p, true)
  {
    if step.Release? {
      assert Apart(cfg, s, p, step.p);
    }
  }
}
