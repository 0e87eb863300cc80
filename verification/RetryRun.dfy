/** One run of retry_pending_webhooks: the claim loop, the deliveries it starts, and their results. */
module RetryRun {
  import opened Wrappers
  import opened Outbox
  import opened OutboxRuns
  import opened DeliveryService
  import opened RetryStats
  import opened RetryBook

  ghost function RunOf(s: Service): Run
    reads s
  {
    Run(s.trace, s.states)
  }

  /** When a run started, and what had been asked for by then. */
  datatype Base = Base(run: Run, now: Time, claimed: seq<nat>, submitted: seq<WorkerId>)

  /** The book lists exactly what has been claimed and submitted since the run started. */
  ghost predicate Logged(s: Service, base: Base, book: Book)
    reads s
  {
    && s.Valid() && base.now <= s.clock && Extends(base.run, RunOf(s))
    && ClaimsLogged(s.trace, book.claims, |base.run.steps|, base.now)
    && s.claimed == base.claimed + book.claims && s.submitted == base.submitted + book.workers
  }

  // ---------- dry runs ----------

  ghost predicate IsEmail(r: Run, k: nat) {
    IsClaim(r, k) && Seen(r, k).kind == Email
  }

  ghost function Emails(r: Run, claims: seq<nat>): nat {
    if claims == [] then 0
    else Emails(r, claims[..|claims| - 1]) + if IsEmail(r, claims[|claims| - 1]) then 1 else 0
  }

  lemma {:induction false} EmailsOnward(before: Run, after: Run, claims: seq<nat>)
    requires Extends(before, after) && forall a {:trigger claims[a]} | 0 <= a < |claims| :: IsClaim(before, claims[a])
    ensures Emails(after, claims) == Emails(before, claims)
  {
    if claims != [] {
      EmailsOnward(before, after, claims[..|claims| - 1]);
      assert IsClaim(before, claims[|claims| - 1]);
    }
  }

  /** The lease of claim k has been given back, or its row was deleted first. */
  ghost predicate GivenBack(r: Run, k: nat) {
    IsClaim(r, k) && exists m {:trigger GivenBackAt(r, m, r.steps[k].id)} :: k < m && GivenBackAt(r, m, r.steps[k].id)
  }

  ghost predicate GivenBackAt(r: Run, m: nat, id: RowId) {
    m < |r.states| && (id !in r.states[m].table || (m < |r.steps| && r.steps[m] == Release(id)))
  }

  /** A dry run counts its claims, and the email rows among them, gives the leases back and starts nothing. */
  ghost predicate Dry(r: Run, acc: Account, book: Book) {
    && acc.inFlight == map[] && book.workers == [] && book.merged == [] && book.done == []
    && (forall a {:trigger book.claims[a]} | 0 <= a < |book.claims| ::
          IsClaim(r, book.claims[a]) && GivenBack(r, book.claims[a]))
    && DryStats(acc.stats, |book.claims|, Emails(r, book.claims))
  }

  ghost predicate DryStats(stats: Stats, claims: nat, emails: nat) {
    && stats.Keys == FIGURES
    && forall f {:trigger stats[f]} | f in stats ::
         stats[f] == if f.ending != AnyEnd then 0 else if f.emailOnly then emails else claims
  }

  lemma DryOnward(before: Run, after: Run, acc: Account, book: Book)
    requires Extends(before, after) && Dry(before, acc, book)
    ensures Dry(after, acc, book)
  {
    EmailsOnward(before, after, book.claims);
    forall a | 0 <= a < |book.claims|
      ensures IsClaim(after, book.claims[a]) && GivenBack(after, book.claims[a])
    {
      var k := book.claims[a];
      assert IsClaim(before, k) && GivenBack(before, k);
      var m :| k < m && GivenBackAt(before, m, before.steps[k].id);
      assert GivenBackAt(after, m, after.steps[k].id);
    }
  }

  /** The account agrees with the book, for either kind of run. */
  ghost predicate Agrees(r: Run, acc: Account, book: Book, dryRun: bool) {
    if dryRun then Dry(r, acc, book) else Kept(r, acc, book)
  }

  lemma AgreesOnward(cfg: Config, before: Run, after: Run, acc: Account, book: Book, dryRun: bool)
    requires Legal(cfg, before) && Legal(cfg, after) && Extends(before, after) && Agrees(before, acc, book, dryRun)
    ensures Agrees(after, acc, book, dryRun)
  {
    if dryRun {
      DryOnward(before, after, acc, book);
    } else {
      KeptOnward(cfg, before, after, acc, book);
    }
  }

  lemma LoggedOnward(before: seq<Step>, after: seq<Step>, claims: seq<nat>, start: nat, now: Time)
    requires before <= after && ClaimsLogged(before, claims, start, now)
    ensures ClaimsLogged(after, claims, start, now)
  {
  }

  lemma ClockOnward(cfg: Config, before: Run, after: Run)
    requires Legal(cfg, before) && Legal(cfg, after) && Extends(before, after)
    ensures Now(before).clock <= Now(after).clock
  {
    TimeGoesOn(cfg, after, |before.steps|, |after.steps|);
  }

  // ---------- waiting ----------

  /** Anything may happen to the tables, and time goes on; the run's own books stay as they are. */
  method Drift(s: Service, ghost acc: Account, ghost book: Book, ghost dryRun: bool)
    requires s.Valid() && Agrees(RunOf(s), acc, book, dryRun)
    modifies s
    ensures s.Valid() && Agrees(RunOf(s), acc, book, dryRun)
    ensures s.Onward() && s.Quiet() && old(s.clock) < s.clock
  {
    ghost var before := RunOf(s);
    s.Interfere(None);
    ClockOnward(s.cfg, before, RunOf(s));
    s.Elapse();
    AgreesOnward(s.cfg, before, RunOf(s), acc, book, dryRun);
  }

  method Pause(s: Service, ghost base: Base, ghost acc: Account, ghost book: Book, ghost dryRun: bool)
    requires Logged(s, base, book) && Agrees(RunOf(s), acc, book, dryRun)
    modifies s
    ensures Logged(s, base, book) && Agrees(RunOf(s), acc, book, dryRun)
    ensures s.Onward() && s.tried == old(s.tried) && old(s.clock) < s.clock
  {
    ghost var before := RunOf(s);
    Drift(s, acc, book, dryRun);
    LoggedOnward(before.steps, s.trace, book.claims, |base.run.steps|, base.now);
  }

  // ---------- results ----------

  /** Takes the result of one finished worker into the account. */
  method MergeResult(s: Service, acc: Account, ghost book: Book, w: WorkerId)
    returns (acc': Account, ghost book': Book)
    requires s.Valid() && Kept(RunOf(s), acc, book)
    requires w in acc.inFlight && w in s.workers && s.workers[w].Returned?
    ensures Kept(RunOf(s), acc', book') && acc'.inFlight == acc.inFlight - {w}
    ensures book'.claims == book.claims && book'.workers == book.workers
    ensures |book'.merged| == |book.merged| + 1 && Gone(book.merged) <= Gone(book'.merged)
    ensures N(acc.stats, AnyEnd, false) <= N(acc'.stats, AnyEnd, false)
  {
    var last := Merged(acc.inFlight[w], s.workers[w].result);
    acc' := Account(Merge(acc.stats, SummarizeDeliveryResult(last)), acc.inFlight - {w});
    ghost var k := ClaimOf(RunOf(s), acc, book, w);
    KeptClosed(RunOf(s), acc, book, k, s.workers[w].result, acc');
    TotalSnoc(acc.stats, book.merged, last);
    book' := Closed(book, k, last);
  }

  /** What collecting results can change. */
  ghost predicate Collected(acc: Account, book: Book, acc': Account, book': Book) {
    && book'.claims == book.claims && book'.workers == book.workers
    && |book.merged| <= |book'.merged| && Gone(book.merged) <= Gone(book'.merged)
    && acc'.inFlight.Keys <= acc.inFlight.Keys
    && (|book'.merged| == |book.merged| ==> acc' == acc && book' == book)
    && N(acc.stats, AnyEnd, false) <= N(acc'.stats, AnyEnd, false)
  }

  /** Merges every delivery that has finished; one that raised ends the run. */
  method Collect(s: Service, acc: Account, ghost book: Book) returns (ok: bool, acc': Account, ghost book': Book)
    requires s.Valid() && Kept(RunOf(s), acc, book)
    ensures Kept(RunOf(s), acc', book') && Collected(acc, book, acc', book')
    ensures ok ==> forall w | w in acc'.inFlight :: w in s.workers && !Over(s.workers[w])
    ensures !ok ==> exists w :: w in acc'.inFlight && w in s.workers && s.workers[w].Raised?
  {
    ok, acc', book' := true, acc, book;
    InFlightExist(RunOf(s), acc, book);
    var done := set w | w in acc.inFlight && Over(s.workers[w]);
    while done != {}
      invariant Kept(RunOf(s), acc', book') && Collected(acc, book, acc', book')
      invariant done <= acc'.inFlight.Keys && forall w | w in done :: w in s.workers && Over(s.workers[w])
      invariant forall w | w in acc'.inFlight && w !in done :: w in s.workers && !Over(s.workers[w])
      decreases |done|
    {
      var w :| w in done;
      InFlightExist(RunOf(s), acc', book');
      if !s.workers[w].Returned? {
        return false, acc', book';
      }
      acc', book' := MergeResult(s, acc', book', w);
      done := done - {w};
    }
  }

  lemma InFlightExist(r: Run, acc: Account, book: Book)
    requires Kept(r, acc, book)
    ensures forall w | w in acc.inFlight :: w in Now(r).workers && w in book.workers
  {
    forall w | w in acc.inFlight
      ensures w in Now(r).workers
    {
      var k := ClaimOf(r, acc, book, w);
    }
  }

  // ---------- claiming ----------

  /** At that moment every row that could be claimed was locked by somebody else. */
  ghost predicate NoneFree(r: Run, t: Try, now: Time) {
    t.moment < |r.states| && forall id {:trigger r.states[t.moment].table[id]} | id in r.states[t.moment].table ::
      Claimable(r.states[t.moment].table[id].row, now) ==> id in t.skipped
  }

  /** Claims a row if one is free, and reports the status and kind it had. */
  method ClaimRow(s: Service, ghost base: Base, ghost acc: Account, ghost book: Book, now: Time, ghost dryRun: bool)
    returns (got: Option<RowId>, before: Status, kind: Kind, ghost t: Try)
    requires Logged(s, base, book) && now == base.now && Agrees(RunOf(s), acc, book, dryRun)
    modifies s
    ensures Agrees(RunOf(s), acc, book, dryRun)
    ensures s.Valid() && Extends(base.run, RunOf(s)) && s.tried == old(s.tried) + [t] && t.moment == |old(s.trace)|
    ensures s.clock == old(s.clock) && s.workers == old(s.workers) && s.submitted == old(s.submitted)
    ensures got.None? ==>
              && RunOf(s) == old(RunOf(s)) && s.claimed == old(s.claimed) && NoneFree(RunOf(s), t, now)
    ensures got.Some? ==>
              && s.claimed == old(s.claimed) + [t.moment] && IsClaim(RunOf(s), t.moment)
              && s.trace == old(s.trace) + [Claim(got.value, now)]
              && before == Seen(RunOf(s), t.moment).status && kind == Seen(RunOf(s), t.moment).kind
              && ClaimsLogged(s.trace, book.claims + [t.moment], |base.run.steps|, base.now)
  {
    before, kind := Pending, Webhook;
    ghost var n, earlier := |s.tried|, RunOf(s);
    got := s.ClaimNext(now);
    t := s.tried[n];
    AgreesOnward(s.cfg, earlier, RunOf(s), acc, book, dryRun);
    if got.Some? {
      before, kind := s.table[got.value].row.status, s.table[got.value].row.kind;
    }
  }

  lemma SomeFreshId(used: set<WorkerId>)
    ensures exists w: WorkerId :: w !in used
  {
    var bound := Bound(used);
    assert bound !in used;
  }

  ghost function Bound(used: set<WorkerId>): (bound: nat)
    ensures forall w | w in used :: w < bound
  {
    if used == {} then 0
    else
      var w :| w in used;
      var rest := used - {w};
      assert forall v | v in used :: v == w || v in rest;
      Max(w + 1, Bound(rest))
  }

  /** Hands a claimed row to a new worker. */
  method SubmitClaimed(s: Service, acc: Account, ghost base: Base, ghost book: Book, ghost claim: nat, id: RowId,
                       before: Status)
    returns (w: WorkerId, acc': Account, ghost book': Book)
    requires s.Valid() && base.now <= s.clock && Extends(base.run, RunOf(s)) && Kept(RunOf(s), acc, book)
    requires ClaimsLogged(s.trace, book.claims + [claim], |base.run.steps|, base.now)
    requires s.claimed == base.claimed + book.claims + [claim] && s.submitted == base.submitted + book.workers
    requires IsClaim(RunOf(s), claim) && s.trace[claim].id == id && before == Seen(RunOf(s), claim).status
    modifies s
    ensures Logged(s, base, book') && Kept(RunOf(s), acc', book') && s.tried == old(s.tried) && s.clock == old(s.clock)
    ensures w !in acc.inFlight && w in s.workers && s.workers[w].Queued?
    ensures acc' == acc.(inFlight := acc.inFlight[w := before]) && book' == Opened(book, claim, w)
  {
    ghost var earlier := RunOf(s);
    SomeFreshId(s.workers.Keys);
    w :| w !in s.workers;
    NewWorker(RunOf(s), acc, book, w);
    s.Submit(w, id);
    acc', book' := acc.(inFlight := acc.inFlight[w := before]), Opened(book, claim, w);
    KeptOnward(s.cfg, earlier, RunOf(s), acc, book);
    KeptOpened(RunOf(s), acc, book, claim, w);
    LoggedOnward(earlier.steps, s.trace, book'.claims, |base.run.steps|, base.now);
    assert base.submitted + book.workers + [w] == base.submitted + book'.workers;
    assert base.claimed + book.claims + [claim] == base.claimed + book'.claims;
  }

  lemma NewWorker(r: Run, acc: Account, book: Book, w: WorkerId)
    requires Kept(r, acc, book) && w !in Now(r).workers
    ensures w !in book.workers && w !in acc.inFlight
  {
    forall k | 0 <= k < |book.workers|
      ensures book.workers[k] != w
    {
      assert EntryOk(r, acc, book, k);
    }
  }

  /** One inline delivery, as a run without a thread pool makes it. */
  method DeliverInline(s: Service, acc: Account, ghost base: Base, ghost book: Book, w: WorkerId)
    returns (ok: bool, acc': Account, ghost book': Book)
    requires Logged(s, base, book) && Kept(RunOf(s), acc, book)
    requires w in acc.inFlight && w in s.workers && s.workers[w].Queued?
    modifies s
    ensures Logged(s, base, book') && Kept(RunOf(s), acc', book') && s.tried == old(s.tried) && old(s.clock) <= s.clock
    ensures book'.claims == book.claims && Gone(book.merged) <= Gone(book'.merged) && |book.merged| <= |book'.merged|
    ensures ok ==> acc'.inFlight == acc.inFlight - {w}
    ensures !ok ==> acc' == acc && w in s.workers && s.workers[w].Raised?
  {
    ghost var earlier := RunOf(s);
    var ruleError: Option<string> := *;
    var sent: SendResult := *;
    var outcome := s.Deliver(w, ruleError, sent);
    KeptOnward(s.cfg, earlier, RunOf(s), acc, book);
    LoggedOnward(earlier.steps, s.trace, book.claims, |base.run.steps|, base.now);
    ClockOnward(s.cfg, earlier, RunOf(s));
    acc', book' := acc, book;
    ok := outcome.Ok?;
    if ok {
      acc', book' := MergeResult(s, acc, book, w);
    }
  }

  // ---------- the loop ----------

  /** How a pass of the claim loop ended. */
  datatype Pass = Claimed | Waited | Idle | NothingLeft | DeliveryRaised

  /** The pool is not overfull, and claims stay within the limit but for rows found deleted. */
  ghost predicate Within(acc: Account, book: Book, limit: int, workers: int, dryRun: bool) {
    && (dryRun ==> |book.claims| <= limit)
    && (!dryRun ==> |acc.inFlight| <= workers && |book.claims| <= limit + Gone(book.merged))
    && (workers == 1 ==> acc.inFlight == map[])
  }

  ghost predicate SomeoneRaised(s: Service, acc: Account)
    reads s
  {
    exists w :: w in acc.inFlight && w in s.workers && s.workers[w].Raised?
  }

  /** Every delivery in the account is still under way. */
  ghost predicate NoneOver(s: Service, acc: Account)
    reads s
  {
    forall w | w in acc.inFlight :: w in s.workers && !Over(s.workers[w])
  }

  /** Waits for deliveries under way, and merges those that have finished. */
  method Wait(s: Service, acc: Account, ghost base: Base, ghost book: Book)
    returns (pass: Pass, acc': Account, ghost book': Book)
    requires Logged(s, base, book) && Kept(RunOf(s), acc, book)
    modifies s
    ensures Logged(s, base, book') && Kept(RunOf(s), acc', book') && Collected(acc, book, acc', book')
    ensures s.Onward() && s.tried == old(s.tried) && old(s.clock) < s.clock
    ensures pass == Waited || pass == Idle || pass == DeliveryRaised
    ensures pass == Waited ==> |book.merged| < |book'.merged|
    ensures pass == Idle ==> acc' == acc && book' == book
    ensures pass != DeliveryRaised ==> NoneOver(s, acc')
    ensures pass == DeliveryRaised <==> SomeoneRaised(s, acc')
  {
    Pause(s, base, acc, book, false);
    var ok, waiting := true, |acc.inFlight|;
    ok, acc', book' := Collect(s, acc, book);
    pass := if !ok then DeliveryRaised else if |acc'.inFlight| < waiting then Waited else Idle;
    assert |book'.claims| == |book'.merged| + |acc'.inFlight|;
  }

  /** Starts the delivery of a claimed row, inline or on the pool. */
  method StartDelivery(s: Service, acc: Account, ghost base: Base, ghost book: Book, ghost claim: nat,
                       id: RowId, before: Status, workers: int)
    returns (pass: Pass, acc': Account, ghost book': Book)
    requires s.Valid() && base.now <= s.clock && Extends(base.run, RunOf(s)) && Kept(RunOf(s), acc, book)
    requires ClaimsLogged(s.trace, book.claims + [claim], |base.run.steps|, base.now)
    requires s.claimed == base.claimed + book.claims + [claim] && s.submitted == base.submitted + book.workers
    requires IsClaim(RunOf(s), claim) && s.trace[claim].id == id && before == Seen(RunOf(s), claim).status
    requires workers >= 1 && |acc.inFlight| < workers && (workers == 1 ==> acc.inFlight == map[])
    modifies s
    ensures Logged(s, base, book') && Kept(RunOf(s), acc', book') && s.tried == old(s.tried)
    ensures old(s.clock) < s.clock
    ensures book'.claims == book.claims + [claim] && Gone(book.merged) <= Gone(book'.merged)
    ensures |book.merged| <= |book'.merged|
    ensures pass == Claimed || (pass == DeliveryRaised && SomeoneRaised(s, acc'))
    ensures pass == Claimed ==> |acc'.inFlight| <= workers && (workers == 1 ==> acc'.inFlight == map[])
  {
    ghost var earlier := RunOf(s);
    Drift(s, acc, book, false);
    LoggedOnward(earlier.steps, s.trace, book.claims + [claim], |base.run.steps|, base.now);
    var w;
    w, acc', book' := SubmitClaimed(s, acc, base, book, claim, id, before);
    assert acc'.inFlight.Keys == acc.inFlight.Keys + {w};
    assert |acc'.inFlight.Keys| == |acc.inFlight.Keys| + 1;
    pass := Claimed;
    if workers == 1 {
      var ok;
      ok, acc', book' := DeliverInline(s, acc', base, book', w);
      pass := if ok then Claimed else DeliveryRaised;
      assert ok ==> acc'.inFlight == map[];
    }
  }

  /** Gives the lease of a claimed row back, if the row is still there. */
  method GiveBack(s: Service, ghost acc: Account, ghost book: Book, ghost claim: nat, id: RowId)
    requires s.Valid() && Dry(RunOf(s), acc, book) && IsClaim(RunOf(s), claim) && s.trace[claim].id == id
    modifies s
    ensures s.Valid() && Extends(old(RunOf(s)), RunOf(s)) && s.Quiet() && old(s.clock) < s.clock
    ensures Dry(RunOf(s), acc, book) && GivenBack(RunOf(s), claim)
  {
    Drift(s, acc, book, true);
    ghost var between := RunOf(s);
    s.ReleaseLease(id);
    ClockOnward(s.cfg, between, RunOf(s));
    DryOnward(between, RunOf(s), acc, book);
    assert GivenBackAt(RunOf(s), |between.steps|, id);
  }

  /** A dry run counts the row as processed and gives its lease back. */
  method CountOnly(s: Service, acc: Account, ghost base: Base, ghost book: Book, ghost claim: nat, id: RowId,
                   kind: Kind)
    returns (acc': Account, ghost book': Book)
    requires s.Valid() && base.now <= s.clock && Extends(base.run, RunOf(s)) && Dry(RunOf(s), acc, book)
    requires ClaimsLogged(s.trace, book.claims + [claim], |base.run.steps|, base.now)
    requires s.claimed == base.claimed + book.claims + [claim] && s.submitted == base.submitted + book.workers
    requires IsClaim(RunOf(s), claim) && s.trace[claim].id == id && kind == Seen(RunOf(s), claim).kind
    modifies s
    ensures Logged(s, base, book') && Dry(RunOf(s), acc', book') && s.tried == old(s.tried)
    ensures old(s.clock) < s.clock && book'.claims == book.claims + [claim]
  {
    ghost var earlier := RunOf(s);
    acc' := acc.(stats := map f | f in acc.stats ::
                   acc.stats[f] + if f.ending == AnyEnd && (f.emailOnly ==> kind == Email) then 1 else 0);
    GiveBack(s, acc, book, claim, id);
    book' := book.(claims := book.claims + [claim]);
    LoggedOnward(earlier.steps, s.trace, book'.claims, |base.run.steps|, base.now);
    DryNext(RunOf(s), acc, book, claim, acc', kind);
  }

  lemma DryNext(r: Run, acc: Account, book: Book, claim: nat, acc': Account, kind: Kind)
    requires Dry(r, acc, book) && IsClaim(r, claim) && GivenBack(r, claim) && kind == Seen(r, claim).kind
    requires acc' == acc.(stats := map f | f in acc.stats ::
                            acc.stats[f] + if f.ending == AnyEnd && (f.emailOnly ==> kind == Email) then 1 else 0)
    ensures Dry(r, acc', book.(claims := book.claims + [claim]))
  {
    var claims := book.claims + [claim];
    assert claims[..|claims| - 1] == book.claims;
  }

  /** What is done with a claimed row. */
  method UseClaim(s: Service, acc: Account, ghost base: Base, ghost book: Book, ghost claim: nat,
                  id: RowId, before: Status, kind: Kind, workers: int, ghost limit: int, dryRun: bool)
    returns (pass: Pass, acc': Account, ghost book': Book)
    requires s.Valid() && base.now <= s.clock && Extends(base.run, RunOf(s)) && Agrees(RunOf(s), acc, book, dryRun)
    requires ClaimsLogged(s.trace, book.claims + [claim], |base.run.steps|, base.now)
    requires s.claimed == base.claimed + book.claims + [claim] && s.submitted == base.submitted + book.workers
    requires IsClaim(RunOf(s), claim) && s.trace[claim].id == id
    requires before == Seen(RunOf(s), claim).status && kind == Seen(RunOf(s), claim).kind
    requires Within(acc, book, limit, workers, dryRun) && workers >= 1 && (dryRun || |acc.inFlight| < workers)
    requires |book.claims| < limit + Gone(book.merged)
    modifies s
    ensures Logged(s, base, book') && Agrees(RunOf(s), acc', book', dryRun) && s.tried == old(s.tried)
    ensures old(s.clock) < s.clock
    ensures book'.claims == book.claims + [claim]
    ensures |book.merged| <= |book'.merged| && Gone(book.merged) <= Gone(book'.merged)
    ensures pass == Claimed || (pass == DeliveryRaised && !dryRun && SomeoneRaised(s, acc'))
    ensures pass == Claimed ==> Within(acc', book', limit, workers, dryRun)
  {
    if dryRun {
      acc', book' := CountOnly(s, acc, base, book, claim, id, kind);
      pass := Claimed;
    } else {
      pass, acc', book' := StartDelivery(s, acc, base, book, claim, id, before, workers);
    }
  }

  /** One pass of the claim loop. */
  method OnePass(s: Service, acc: Account, ghost base: Base, ghost book: Book, now: Time,
                 batchSize: int, workers: int, ghost limit: int, dryRun: bool)
    returns (pass: Pass, acc': Account, ghost book': Book)
    requires Logged(s, base, book) && Agrees(RunOf(s), acc, book, dryRun) && now == base.now
    requires Within(acc, book, limit, workers, dryRun)
    requires workers >= 1 && N(acc.stats, AnyEnd, false) < batchSize && batchSize + workers - 1 <= limit
    modifies s
    ensures Logged(s, base, book') && Agrees(RunOf(s), acc', book', dryRun)
    ensures old(s.clock) < s.clock && |book.claims| <= |book'.claims| && |book.merged| <= |book'.merged|
    ensures pass != DeliveryRaised ==> Within(acc', book', limit, workers, dryRun)
    ensures |book'.claims| <= limit + Gone(book'.merged)
    ensures pass == Claimed ==> |book'.claims| == |book.claims| + 1
    ensures pass == Waited ==> |book.merged| < |book'.merged|
    ensures pass == Idle || pass == Waited ==> workers > 1
    ensures pass == NothingLeft ==>
              && acc'.inFlight == map[] && |old(s.tried)| < |s.tried|
              && |base.run.steps| <= s.tried[|s.tried| - 1].moment && NoneFree(RunOf(s), s.tried[|s.tried| - 1], now)
    ensures pass == DeliveryRaised ==> !dryRun && SomeoneRaised(s, acc')
    ensures old(s.tried) <= s.tried && (workers == 1 ==> |s.tried| == |old(s.tried)| + 1)
    ensures acc.inFlight == map[] ==> |old(s.tried)| < |s.tried|
  {
    Pause(s, base, acc, book, dryRun);
    if !dryRun && |acc.inFlight| >= workers {
      pass, acc', book' := Wait(s, acc, base, book);
      return;
    }
    var got, before, kind;
    ghost var t;
    got, before, kind, t := ClaimRow(s, base, acc, book, now, dryRun);
    if got.None? {
      acc', book', pass := acc, book, NothingLeft;
      if acc.inFlight != map[] {
        pass, acc', book' := Wait(s, acc, base, book);
      }
      return;
    }
    if dryRun {
      assert |book.claims| < limit;
    } else {
      ClaimsBalance(s.cfg, RunOf(s), acc, book);
    }
    pass, acc', book' := UseClaim(s, acc, base, book, t.moment, got.value, before, kind, workers, limit, dryRun);
  }

  /** Why the loop stopped claiming: enough rows, no time left, or no row that could be claimed. */
  datatype Stop = FullBatch | TimeUp | NothingFree

  /** The reason given is the case. */
  ghost predicate Stopped(s: Service, base: Base, tries: nat, acc: Account, batchSize: int, deadline: Time, stop: Stop)
    reads s
  {
    match stop
    case FullBatch => N(acc.stats, AnyEnd, false) >= batchSize
    case TimeUp => s.clock >= deadline
    case NothingFree =>
      && acc.inFlight == map[] && tries < |s.tried|
      && |base.run.steps| <= s.tried[|s.tried| - 1].moment && NoneFree(RunOf(s), s.tried[|s.tried| - 1], base.now)
  }

  /** How many passes the loop made, and in how many of them it waited and no delivery had finished. */
  datatype Passes = Passes(all: nat, idle: nat)

  /** Every pass but the last claims a row, merges a result, or waits in vain; without a pool each pass tries to
      claim. */
  ghost predicate PassesOk(passes: Passes, book: Book, workers: int, tries: nat) {
    && passes.all <= |book.claims| + |book.merged| + passes.idle + 1
    && (workers == 1 ==> passes.idle == 0 && passes.all == tries && passes.all <= |book.claims| + 1)
  }

  /** As long as the loop goes on, that holds of every pass. */
  ghost predicate Going(pass: Pass, passes: Passes, book: Book, workers: int) {
    pass != NothingLeft && pass != DeliveryRaised ==>
      && passes.all <= |book.claims| + |book.merged| + passes.idle
      && (workers == 1 ==> passes.all <= |book.claims|)
  }

  function OneMore(pass: Pass, passes: Passes): Passes {
    Passes(passes.all + 1, if pass == Idle then passes.idle + 1 else passes.idle)
  }

  /** One pass, counted. */
  method CountedPass(s: Service, acc: Account, ghost base: Base, ghost book: Book, now: Time, batchSize: int,
                     workers: int, ghost limit: int, dryRun: bool, ghost last: Pass, ghost passes: Passes,
                     ghost tries: nat)
    returns (pass: Pass, acc': Account, ghost book': Book, ghost passes': Passes)
    requires Logged(s, base, book) && Agrees(RunOf(s), acc, book, dryRun) && now == base.now
    requires Within(acc, book, limit, workers, dryRun)
    requires workers >= 1 && N(acc.stats, AnyEnd, false) < batchSize && batchSize + workers - 1 <= limit
    requires last != NothingLeft && last != DeliveryRaised && Going(last, passes, book, workers)
    requires tries <= |s.tried| && PassesOk(passes, book, workers, |s.tried| - tries)
    modifies s
    ensures Logged(s, base, book') && Agrees(RunOf(s), acc', book', dryRun) && old(s.clock) < s.clock
    ensures pass != DeliveryRaised ==> Within(acc', book', limit, workers, dryRun)
    ensures |book'.claims| <= limit + Gone(book'.merged)
    ensures pass == NothingLeft ==>
              && acc'.inFlight == map[] && tries < |s.tried|
              && |base.run.steps| <= s.tried[|s.tried| - 1].moment && NoneFree(RunOf(s), s.tried[|s.tried| - 1], now)
    ensures pass == DeliveryRaised ==> !dryRun && SomeoneRaised(s, acc')
    ensures old(s.tried) <= s.tried && (acc.inFlight == map[] ==> |old(s.tried)| < |s.tried|)
    ensures Going(pass, passes', book', workers) && PassesOk(passes', book', workers, |s.tried| - tries)
  {
    pass, acc', book' := OnePass(s, acc, base, book, now, batchSize, workers, limit, dryRun);
    passes' := OneMore(pass, passes);
  }

  /** The claim loop: until the batch is full, nothing is left, or time is up. */
  method ClaimLoop(s: Service, ghost base: Base, now: Time, batchSize: int, workers: int, ghost limit: int,
                   dryRun: bool, deadline: Time)
    returns (ok: bool, acc: Account, ghost book: Book, ghost stop: Stop, ghost passes: Passes)
    requires s.Valid() && base == Base(RunOf(s), s.clock, s.claimed, s.submitted) && now == base.now
    requires workers >= 1 && 0 <= limit && batchSize + workers - 1 <= limit
    modifies s
    ensures Logged(s, base, book) && Agrees(RunOf(s), acc, book, dryRun)
    ensures |book.claims| <= limit + Gone(book.merged)
    ensures ok ==> Stopped(s, base, |old(s.tried)|, acc, batchSize, deadline, stop)
    ensures !ok ==> !dryRun && SomeoneRaised(s, acc)
    ensures old(s.tried) <= s.tried && PassesOk(passes, book, workers, |s.tried| - |old(s.tried)|)
    ensures batchSize > 0 && old(s.clock) < deadline ==> |old(s.tried)| < |s.tried|
  {
    acc, book := Account(NoStats(), map[]), Book([], [], [], []);
    passes := Passes(0, 0);
    ghost var tries := |s.tried|;
    var pass := Claimed;
    while pass != NothingLeft && pass != DeliveryRaised && N(acc.stats, AnyEnd, false) < batchSize && s.clock < deadline
      invariant Logged(s, base, book) && Agrees(RunOf(s), acc, book, dryRun)
      invariant |book.claims| <= limit + Gone(book.merged)
      invariant pass != DeliveryRaised ==> Within(acc, book, limit, workers, dryRun)
      invariant pass == NothingLeft ==> Stopped(s, base, tries, acc, batchSize, deadline, NothingFree)
      invariant pass == DeliveryRaised ==> !dryRun && SomeoneRaised(s, acc)
      invariant old(s.tried) <= s.tried && PassesOk(passes, book, workers, |s.tried| - tries)
      invariant |s.tried| == tries ==>
                  acc == Account(NoStats(), map[]) && s.clock == old(s.clock) && pass == Claimed
      invariant Going(pass, passes, book, workers)
      decreases deadline - s.clock
    {
      pass, acc, book, passes := CountedPass(s, acc, base, book, now, batchSize, workers, limit, dryRun, pass, passes,
                                             tries);
    }
    ok := pass != DeliveryRaised;
    stop := if pass == NothingLeft then NothingFree else if s.clock >= deadline then TimeUp else FullBatch;
  }

  /** After the loop: waits for the deliveries under way, but not much past the deadline. */
  method Drain(s: Service, acc: Account, ghost base: Base, ghost book: Book, deadline: Time)
    returns (ok: bool, acc': Account, ghost book': Book)
    requires Logged(s, base, book) && Kept(RunOf(s), acc, book)
    modifies s
    ensures Logged(s, base, book') && Kept(RunOf(s), acc', book') && Collected(acc, book, acc', book')
    ensures s.Onward() && s.tried == old(s.tried) && old(s.clock) <= s.clock
    ensures !ok ==> SomeoneRaised(s, acc')
    ensures ok ==> deadline + Seconds(1) <= s.clock || NoneOver(s, acc')
    ensures acc.inFlight == map[] ==> acc' == acc && book' == book
  {
    acc', book' := acc, book;
    var pass := Waited;
    while pass == Waited && acc'.inFlight != map[] && s.clock < deadline + Seconds(1)
      invariant Logged(s, base, book') && Kept(RunOf(s), acc', book') && Collected(acc, book, acc', book')
      invariant s.Onward() && s.tried == old(s.tried) && old(s.clock) <= s.clock
      invariant pass == DeliveryRaised ==> SomeoneRaised(s, acc')
      invariant pass == Waited || pass == DeliveryRaised || NoneOver(s, acc')
      invariant acc.inFlight == map[] ==> acc' == acc && book' == book
      decreases deadline + Seconds(1) - s.clock
    {
      pass, acc', book' := Wait(s, acc', base, book');
    }
    ok := pass != DeliveryRaised;
  }

  /** A thread of the pool works off its delivery, however far it has got. */
  method WorkOff(s: Service, w: WorkerId)
    requires s.Valid() && w in s.workers
    modifies s
    ensures s.Valid() && s.Onward() && s.Quiet() && w in s.workers && Over(s.workers[w])
  {
    var ruleError: Option<string> := *;
    var sent: SendResult := *;
    if s.workers[w].Queued? {
      var outcome := s.Deliver(w, ruleError, sent);
      return;
    }
    if s.workers[w].Sending? {
      s.SendPhase(w, sent);
    }
    if s.workers[w].Holding? {
      var outcome := s.ApplyPhase(w);
    }
  }

  /** Every delivery that is still under way is worked off. */
  method WorkOffAll(s: Service, acc: Account, ghost book: Book)
    requires s.Valid() && Kept(RunOf(s), acc, book)
    modifies s
    ensures s.Valid() && Kept(RunOf(s), acc, book) && s.Quiet() && Extends(old(RunOf(s)), RunOf(s))
    ensures forall w | w in acc.inFlight :: w in s.workers && Over(s.workers[w])
  {
    var rest := acc.inFlight.Keys;
    while rest != {}
      invariant rest <= acc.inFlight.Keys && s.Valid() && Kept(RunOf(s), acc, book)
      invariant s.Quiet() && Extends(old(RunOf(s)), RunOf(s))
      invariant forall w | w in acc.inFlight && w !in rest :: w in s.workers && Over(s.workers[w])
      decreases rest
    {
      var w :| w in rest;
      ghost var before := RunOf(s);
      InFlightExist(before, acc, book);
      WorkOff(s, w);
      AllGoOn(s.cfg, before, RunOf(s));
      KeptOnward(s.cfg, before, RunOf(s), acc, book);
      rest := rest - {w};
    }
  }

  /** Shutting the pool down waits for every delivery that is still under way; their results are not looked at. */
  method Shutdown(s: Service, acc: Account, ghost base: Base, ghost book: Book)
    requires Logged(s, base, book) && Kept(RunOf(s), acc, book)
    modifies s
    ensures Logged(s, base, book) && Kept(RunOf(s), acc, book)
    ensures s.Onward() && s.tried == old(s.tried) && old(s.clock) <= s.clock
    ensures forall w | w in acc.inFlight :: w in s.workers && Over(s.workers[w])
    ensures old(SomeoneRaised(s, acc)) ==> SomeoneRaised(s, acc)
  {
    ghost var earlier := RunOf(s);
    WorkOffAll(s, acc, book);
    AllGoOn(s.cfg, earlier, RunOf(s));
    ClockOnward(s.cfg, earlier, RunOf(s));
    LoggedOnward(earlier.steps, s.trace, book.claims, |base.run.steps|, base.now);
  }

  lemma AllGoOn(cfg: Config, before: Run, after: Run)
    requires Legal(cfg, before) && Legal(cfg, after) && Extends(before, after)
    ensures forall w | w in Now(before).workers ::
              w in Now(after).workers && SameWork(Now(before).workers[w], Now(after).workers[w])
  {
    forall w | w in Now(before).workers
      ensures w in Now(after).workers && SameWork(Now(before).workers[w], Now(after).workers[w])
    {
      WorkGoesOn(cfg, before, after, w);
    }
  }

  /** Draining and shutting down do not take the reason away. */
  lemma StoppedOnward(before: Run, after: Run, tried: seq<Try>, now: Time)
    requires Extends(before, after) && tried != [] && NoneFree(before, tried[|tried| - 1], now)
    ensures NoneFree(after, tried[|tried| - 1], now)
  {
    assert after.states[tried[|tried| - 1].moment] == before.states[tried[|tried| - 1].moment];
  }

  ghost function StartOf(s: Service): Base
    reads s
  {
    Base(RunOf(s), s.clock, s.claimed, s.submitted)
  }

  /** Since the run started there was a moment at which it had waited long enough, or at which each delivery that is
      left was still under way. */
  ghost predicate WaitedEnough(r: Run, base: Base, acc: Account, deadline: Time) {
    exists m {:trigger r.states[m]} :: |base.run.steps| <= m < |r.states|
      && (deadline + Seconds(1) <= r.states[m].clock
          || forall w | w in acc.inFlight :: w in r.states[m].workers && !Over(r.states[m].workers[w]))
  }

  /** Drain and shutdown, after the loop has ended. */
  method FinishUp(s: Service, acc: Account, ghost base: Base, ghost book: Book, looped: bool, deadline: Time)
    returns (ok: bool, acc': Account, ghost book': Book)
    requires Logged(s, base, book) && Kept(RunOf(s), acc, book) && (!looped ==> SomeoneRaised(s, acc))
    modifies s
    ensures Logged(s, base, book') && Kept(RunOf(s), acc', book') && Collected(acc, book, acc', book')
    ensures s.Onward() && s.tried == old(s.tried) && old(s.clock) <= s.clock
    ensures ok ==> looped && WaitedEnough(RunOf(s), base, acc', deadline)
    ensures !ok ==> SomeoneRaised(s, acc')
    ensures acc.inFlight == map[] ==> acc' == acc && book' == book
    ensures forall w | w in acc'.inFlight :: w in s.workers && Over(s.workers[w])
  {
    ok, acc', book' := looped, acc, book;
    if looped {
      ok, acc', book' := Drain(s, acc, base, book, deadline);
    }
    ghost var moment, drained := |s.trace|, s.View();
    Shutdown(s, acc', base, book');
    assert s.states[moment] == drained;
  }

  /** The loop and what follows it; an error comes back only after the deliveries under way are over. */
  method ClaimAndDeliver(s: Service, ghost base: Base, now: Time, batchSize: int, deadline: Time, workers: int,
                         dryRun: bool)
    returns (ok: bool, acc: Account, ghost book: Book, ghost stop: Stop, ghost passes: Passes)
    requires s.Valid() && base == StartOf(s) && now == base.now && workers >= 1
    modifies s
    ensures Logged(s, base, book) && Agrees(RunOf(s), acc, book, dryRun)
    ensures |book.claims| <= Max(0, batchSize) + workers - 1 + Gone(book.merged)
    ensures forall w | w in acc.inFlight :: w in s.workers && Over(s.workers[w])
    ensures ok ==> Stopped(s, base, |old(s.tried)|, acc, batchSize, deadline, stop)
    ensures ok && !dryRun ==> WaitedEnough(RunOf(s), base, acc, deadline)
    ensures !ok ==> !dryRun && SomeoneRaised(s, acc)
    ensures old(s.tried) <= s.tried && PassesOk(passes, book, workers, |s.tried| - |old(s.tried)|)
    ensures batchSize > 0 && old(s.clock) < deadline ==> |old(s.tried)| < |s.tried|
  {
    var looped;
    looped, acc, book, stop, passes :=
      ClaimLoop(s, base, now, batchSize, workers, Max(0, batchSize) + workers - 1, dryRun, deadline);
    ok := looped;
    if dryRun {
      return;
    }
    ghost var earlier, enough := RunOf(s), N(acc.stats, AnyEnd, false) >= batchSize;
    ok, acc, book := FinishUp(s, acc, base, book, looped, deadline);
    if ok && stop == NothingFree {
      StoppedOnward(earlier, RunOf(s), s.tried, now);
    }
    assert ok && stop == FullBatch ==> enough;
  }

  /**
   The whole run. It claims rows with one fixed now, hands each to a worker of its own, and counts for each worker
   whose result it has taken exactly what that worker returned, as ended from the status the claim saw. When it returns,
   no delivery it started is under way: every claim is merged, found deleted, or has a result nobody looked at. It stops
   for one of three reasons, or because a delivery raised.
   */
  method RetryPendingWebhooks(s: Service, batchSize: int, maxDuration: Time, concurrency: int, dryRun: bool)
    returns (result: Result<Stats, ()>, ghost acc: Account, ghost book: Book, ghost stop: Stop, ghost passes: Passes)
    requires s.Valid()
    modifies s
    ensures Logged(s, old(StartOf(s)), book) && Agrees(RunOf(s), acc, book, dryRun)
    ensures |book.claims| <= Max(0, batchSize) + Max(1, concurrency) - 1 + Gone(book.merged)
    ensures s.cfg.leaseSeconds >= 1 ==> ClaimsDistinct(s.trace, book.claims)
    ensures forall w | w in acc.inFlight :: w in s.workers && Over(s.workers[w])
    ensures result.Ok? ==>
              && result.value == acc.stats
              && Stopped(s, old(StartOf(s)), |old(s.tried)|, acc, batchSize,
                         old(s.clock) + Max(100000, maxDuration), stop)
    ensures result.Ok? && !dryRun ==>
              WaitedEnough(RunOf(s), old(StartOf(s)), acc, old(s.clock) + Max(100000, maxDuration))
    ensures result.Err? ==> !dryRun && SomeoneRaised(s, acc)
    ensures !dryRun ==> |book.claims| == N(acc.stats, AnyEnd, false) + Gone(book.merged) + |acc.inFlight|
    ensures old(s.tried) <= s.tried && (batchSize > 0 ==> |old(s.tried)| < |s.tried|)
    ensures PassesOk(passes, book, Max(1, concurrency), |s.tried| - |old(s.tried)|)
    ensures concurrency <= 1 && s.cfg.leaseSeconds >= 1 && Undisturbed(s.trace, |old(s.trace)|) ==>
              passes.all <= |s.created| + 1
  {
    ghost var base := StartOf(s);
    var now := s.clock;
    var deadline, workers := now + Max(100000, maxDuration), Max(1, concurrency);
    var ok, account;
    ok, account, book, stop, passes := ClaimAndDeliver(s, base, now, batchSize, deadline, workers, dryRun);
    acc := account;
    result := if ok then Ok(account.stats) else Err(());
    Conclude(s.cfg, RunOf(s), base, book);
    if !dryRun {
      ClaimsBalance(s.cfg, RunOf(s), account, book);
    }
  }

  lemma Conclude(cfg: Config, r: Run, base: Base, book: Book)
    requires Legal(cfg, r) && ClaimsLogged(r.steps, book.claims, |base.run.steps|, base.now)
    ensures cfg.leaseSeconds >= 1 ==> ClaimsDistinct(r.steps, book.claims)
    ensures cfg.leaseSeconds >= 1 && Undisturbed(r.steps, |base.run.steps|) ==> |book.claims| <= |Now(r).created|
  {
    if cfg.leaseSeconds >= 1 {
      LoggedClaimsDistinct(cfg, r, book.claims, |base.run.steps|, base.now);
      if Undisturbed(r.steps, |base.run.steps|) {
        ClaimsBounded(cfg, r, book.claims, |base.run.steps|, base.now);
      }
    }
  }
}
