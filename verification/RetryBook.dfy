/** What a retry run has claimed, which worker delivers each claimed row, and whose results it has counted. */
module RetryBook {
  import opened Wrappers
  import opened Outbox
  import opened OutboxRuns
  import opened RetryStats

  ghost function Now(r: Run): State
    requires |r.states| > 0
  {
    r.states[|r.states| - 1]
  }

  ghost predicate Extends(before: Run, after: Run) {
    before.steps <= after.steps && before.states <= after.states
  }

  predicate Over(worker: Worker) {
    worker.Returned? || worker.Raised?
  }

  // ---------- workers over time ----------

  /** A worker keeps its row for good, and what it returned. */
  predicate SameWork(before: Worker, after: Worker) {
    before.row == after.row && (before.Returned? ==> after == before) && (before.Raised? ==> after.Raised?)
  }

  lemma StepKeepsWork(cfg: Config, s: State, step: Step, w: WorkerId)
    requires Enabled(s, step) && w in s.workers
    ensures w in Next(cfg, s, step).workers && SameWork(s.workers[w], Next(cfg, s, step).workers[w])
  {
  }

  lemma {:induction false} WorkStays(cfg: Config, r: Run, i: nat, j: nat, w: WorkerId)
    requires Legal(cfg, r) && i <= j <= |r.steps| && w in r.states[i].workers
    ensures w in r.states[j].workers && SameWork(r.states[i].workers[w], r.states[j].workers[w])
    decreases j
  {
    if i < j {
      WorkStays(cfg, r, i, j - 1, w);
      assert StepOk(cfg, r, j - 1);
      StepKeepsWork(cfg, r.states[j - 1], r.steps[j - 1], w);
    }
  }

  lemma WorkGoesOn(cfg: Config, before: Run, after: Run, w: WorkerId)
    requires Legal(cfg, before) && Legal(cfg, after) && Extends(before, after) && w in Now(before).workers
    ensures w in Now(after).workers && SameWork(Now(before).workers[w], Now(after).workers[w])
  {
    WorkStays(cfg, after, |before.steps|, |after.steps|, w);
  }

  // ---------- claims ----------

  /** Step k claims a row that exists. */
  ghost predicate IsClaim(r: Run, k: nat) {
    k < |r.steps| && k < |r.states| && r.steps[k].Claim? && r.steps[k].id in r.states[k].table
  }

  /** The row as the claim saw it. */
  ghost function Seen(r: Run, k: nat): Row
    requires IsClaim(r, k)
  {
    r.states[k].table[r.steps[k].id].row
  }

  lemma ClaimSeesRetryable(cfg: Config, r: Run, k: nat)
    requires Legal(cfg, r) && k < |r.steps| && r.steps[k].Claim?
    ensures IsClaim(r, k) && Retryable(Seen(r, k).status) && Claimable(Seen(r, k), r.steps[k].now)
  {
    assert StepOk(cfg, r, k);
  }

  /** The claims of a run, all made from a certain moment on and with the run's fixed now. */
  ghost predicate ClaimsLogged(trace: seq<Step>, claims: seq<nat>, start: nat, now: Time) {
    && (forall a {:trigger claims[a]} | 0 <= a < |claims| ::
          start <= claims[a] < |trace| && trace[claims[a]].Claim? && trace[claims[a]].now == now)
    && (forall a, b {:trigger claims[a], claims[b]} | 0 <= a < b < |claims| :: claims[a] < claims[b])
  }

  /** No row was claimed twice unless it was requeued or released in between. */
  ghost predicate ClaimsDistinct(trace: seq<Step>, claims: seq<nat>) {
    forall a, b {:trigger claims[a], claims[b]} | 0 <= a < b < |claims| ::
      && claims[a] < |trace| && claims[b] < |trace|
      && (trace[claims[a]].Claim? && trace[claims[b]].Claim? && trace[claims[a]].id == trace[claims[b]].id
          ==> DisturbedBetween(trace, claims[a], claims[b], trace[claims[a]].id))
  }

  lemma LoggedClaimsDistinct(cfg: Config, r: Run, claims: seq<nat>, start: nat, now: Time)
    requires Legal(cfg, r) && cfg.leaseSeconds >= 1 && ClaimsLogged(r.steps, claims, start, now)
    ensures ClaimsDistinct(r.steps, claims)
  {
    forall a, b | 0 <= a < b < |claims| && r.steps[claims[a]].id == r.steps[claims[b]].id
      ensures DisturbedBetween(r.steps, claims[a], claims[b], r.steps[claims[a]].id)
    {
      ClaimedOncePerRun(cfg, r, claims[a], claims[b], r.steps[claims[a]].id);
    }
  }

  function ClaimedRows(steps: seq<Step>, claims: seq<nat>): set<RowId>
    requires forall a {:trigger claims[a]} | 0 <= a < |claims| :: claims[a] < |steps| && steps[claims[a]].Claim?
  {
    set a | 0 <= a < |claims| :: steps[claims[a]].id
  }

  /** Nobody requeues a row or gives a lease back from step start on. */
  ghost predicate Undisturbed(steps: seq<Step>, start: nat) {
    forall k, id {:trigger Disturbs(steps[k], id)} | start <= k < |steps| :: !Disturbs(steps[k], id)
  }

  /** One more claim of an undisturbed run takes a row not claimed before. */
  lemma NextClaimIsNew(cfg: Config, r: Run, claims: seq<nat>, start: nat, now: Time)
    requires Legal(cfg, r) && cfg.leaseSeconds >= 1 && ClaimsLogged(r.steps, claims, start, now) && claims != []
    requires Undisturbed(r.steps, start)
    ensures r.steps[claims[|claims| - 1]].id !in ClaimedRows(r.steps, claims[..|claims| - 1])
  {
    var last := |claims| - 1;
    var id := r.steps[claims[last]].id;
    if id in ClaimedRows(r.steps, claims[..last]) {
      var a :| 0 <= a < last && r.steps[claims[..last][a]].id == id;
      ClaimedOncePerRun(cfg, r, claims[a], claims[last], id);
    }
  }

  /** Left undisturbed, a run claims as many different rows as it makes claims, all of them rows that exist or
      existed. */
  lemma {:induction false} ClaimsRunOut(cfg: Config, r: Run, claims: seq<nat>, start: nat, now: Time)
    requires Legal(cfg, r) && cfg.leaseSeconds >= 1 && ClaimsLogged(r.steps, claims, start, now)
    requires Undisturbed(r.steps, start)
    ensures |ClaimedRows(r.steps, claims)| == |claims|
    ensures ClaimedRows(r.steps, claims) <= Now(r).created
  {
    if claims != [] {
      var front, last := claims[..|claims| - 1], claims[|claims| - 1];
      ClaimsRunOut(cfg, r, front, start, now);
      NextClaimIsNew(cfg, r, claims, start, now);
      ClaimedExists(cfg, r, last);
      assert claims == front + [last];
      assert ClaimedRows(r.steps, claims) == ClaimedRows(r.steps, front) + {r.steps[last].id};
    }
  }

  lemma ClaimedExists(cfg: Config, r: Run, k: nat)
    requires Legal(cfg, r) && k < |r.steps| && r.steps[k].Claim?
    ensures r.steps[k].id in Now(r).created
  {
    StepAt(cfg, r, k);
    TimeGoesOn(cfg, r, k, |r.steps|);
  }

  lemma ClaimsBounded(cfg: Config, r: Run, claims: seq<nat>, start: nat, now: Time)
    requires Legal(cfg, r) && cfg.leaseSeconds >= 1 && ClaimsLogged(r.steps, claims, start, now)
    requires Undisturbed(r.steps, start)
    ensures |claims| <= |Now(r).created|
  {
    ClaimsRunOut(cfg, r, claims, start, now);
    SubsetSize(ClaimedRows(r.steps, claims), Now(r).created);
  }

  lemma {:induction false} SubsetSize(a: set<RowId>, b: set<RowId>)
    requires a <= b
    ensures |a| <= |b|
  {
    assert b == a + (b - a);
  }

  // ---------- the book ----------

  /** Statistics and deliveries under way, with the status each claim saw: what the run itself knows. */
  datatype Account = Account(stats: Stats, inFlight: map<WorkerId, Status>)

  /**
   The claims in order, the worker that got each claimed row, the results behind the statistics, and
   for each result whose it is, as an index into the claims.
   */
  datatype Book = Book(claims: seq<nat>, workers: seq<WorkerId>, merged: seq<Merged>, done: seq<nat>)

  /** Claim k went to a worker of its own, which delivers the claimed row and is under way or merged. */
  ghost predicate EntryOk(r: Run, acc: Account, book: Book, k: nat)
    requires |r.states| > 0 && k < |book.claims| == |book.workers|
  {
    var w := book.workers[k];
    && IsClaim(r, book.claims[k])
    && w in Now(r).workers && Now(r).workers[w].row == r.steps[book.claims[k]].id
    && (w in acc.inFlight ==> acc.inFlight[w] == Seen(r, book.claims[k]).status)
    && (w in acc.inFlight <==> k !in book.done)
  }

  /** Merged result j is what the worker of its claim returned, with the status that claim saw. */
  ghost predicate ResultOk(r: Run, book: Book, j: nat)
    requires |r.states| > 0 && |book.claims| == |book.workers| && j < |book.merged| == |book.done|
  {
    var k := book.done[j];
    && k < |book.claims| && IsClaim(r, book.claims[k]) && book.workers[k] in Now(r).workers
    && Now(r).workers[book.workers[k]] == Returned(r.steps[book.claims[k]].id, book.merged[j].after)
    && book.merged[j].before == Seen(r, book.claims[k]).status
  }

  ghost predicate Different<T>(s: seq<T>) {
    forall i, j {:trigger s[i], s[j]} | 0 <= i < j < |s| :: s[i] != s[j]
  }

  /** Every claim is merged or under way, exactly one of the two, and the statistics are those of the merged results. */
  ghost predicate Kept(r: Run, acc: Account, book: Book) {
    && |r.states| > 0 && |book.claims| == |book.workers| && |book.merged| == |book.done|
    && |book.claims| == |book.merged| + |acc.inFlight|
    && Different(book.workers) && Different(book.done)
    && (forall w | w in acc.inFlight :: w in book.workers)
    && (forall k {:trigger EntryOk(r, acc, book, k)} | 0 <= k < |book.claims| :: EntryOk(r, acc, book, k))
    && (forall j {:trigger ResultOk(r, book, j)} | 0 <= j < |book.merged| :: ResultOk(r, book, j))
    && IsTotal(acc.stats, book.merged)
  }

  lemma KeptOnward(cfg: Config, before: Run, after: Run, acc: Account, book: Book)
    requires Legal(cfg, before) && Legal(cfg, after) && Extends(before, after) && Kept(before, acc, book)
    ensures Kept(after, acc, book)
  {
    forall k | 0 <= k < |book.claims|
      ensures EntryOk(after, acc, book, k)
    {
      assert EntryOk(before, acc, book, k);
      WorkGoesOn(cfg, before, after, book.workers[k]);
    }
    forall j | 0 <= j < |book.merged|
      ensures ResultOk(after, book, j)
    {
      assert ResultOk(before, book, j);
      WorkGoesOn(cfg, before, after, book.workers[book.done[j]]);
    }
  }

  /** A new claim, handed to a new worker. */
  function Opened(book: Book, claim: nat, w: WorkerId): Book {
    book.(claims := book.claims + [claim], workers := book.workers + [w])
  }

  lemma DoneAreClaims(r: Run, acc: Account, book: Book)
    requires Kept(r, acc, book)
    ensures |book.claims| !in book.done
  {
    forall j | 0 <= j < |book.done|
      ensures book.done[j] < |book.claims|
    {
      assert ResultOk(r, book, j);
    }
  }

  lemma OldEntryOk(r: Run, acc: Account, book: Book, claim: nat, w: WorkerId, k: nat)
    requires Kept(r, acc, book) && w !in book.workers && IsClaim(r, claim) && k < |book.claims|
    ensures EntryOk(r, acc.(inFlight := acc.inFlight[w := Seen(r, claim).status]), Opened(book, claim, w), k)
  {
    assert EntryOk(r, acc, book, k);
    assert Opened(book, claim, w).workers[k] == book.workers[k] && book.workers[k] in book.workers;
  }

  lemma KeptOpened(r: Run, acc: Account, book: Book, claim: nat, w: WorkerId)
    requires Kept(r, acc, book) && w !in book.workers && IsClaim(r, claim)
    requires w in Now(r).workers && Now(r).workers[w].row == r.steps[claim].id
    ensures Kept(r, acc.(inFlight := acc.inFlight[w := Seen(r, claim).status]), Opened(book, claim, w))
  {
    var acc', book' := acc.(inFlight := acc.inFlight[w := Seen(r, claim).status]), Opened(book, claim, w);
    assert w !in acc.inFlight;
    assert acc'.inFlight.Keys == acc.inFlight.Keys + {w};
    forall k | 0 <= k < |book'.claims|
      ensures EntryOk(r, acc', book', k)
    {
      if k < |book.claims| {
        OldEntryOk(r, acc, book, claim, w, k);
      } else {
        NewEntryOk(r, acc, book, claim, w);
      }
    }
    forall j | 0 <= j < |book'.merged|
      ensures ResultOk(r, book', j)
    {
      OldResultOk(r, acc, book, claim, w, j);
    }
    DifferentSnoc(book.workers, w);
  }

  lemma NewEntryOk(r: Run, acc: Account, book: Book, claim: nat, w: WorkerId)
    requires Kept(r, acc, book) && w !in book.workers && IsClaim(r, claim)
    requires w in Now(r).workers && Now(r).workers[w].row == r.steps[claim].id
    ensures EntryOk(r, acc.(inFlight := acc.inFlight[w := Seen(r, claim).status]), Opened(book, claim, w),
                    |book.claims|)
  {
    DoneAreClaims(r, acc, book);
  }

  lemma OldResultOk(r: Run, acc: Account, book: Book, claim: nat, w: WorkerId, j: nat)
    requires Kept(r, acc, book) && j < |book.merged|
    ensures ResultOk(r, Opened(book, claim, w), j)
  {
    assert ResultOk(r, book, j);
  }

  lemma DifferentSnoc<T>(s: seq<T>, x: T)
    requires Different(s) && x !in s
    ensures Different(s + [x])
  {
  }

  /** The claim of a worker under way. */
  lemma ClaimOf(r: Run, acc: Account, book: Book, w: WorkerId) returns (k: nat)
    requires Kept(r, acc, book) && w in acc.inFlight
    ensures k < |book.claims| && book.workers[k] == w && k !in book.done && EntryOk(r, acc, book, k)
  {
    k :| 0 <= k < |book.workers| && book.workers[k] == w;
    assert EntryOk(r, acc, book, k);
  }

  function Closed(book: Book, k: nat, last: Merged): Book {
    book.(merged := book.merged + [last], done := book.done + [k])
  }

  lemma KeptClosed(r: Run, acc: Account, book: Book, k: nat, after: Option<Row>, acc': Account)
    requires Kept(r, acc, book) && k < |book.claims| && EntryOk(r, acc, book, k) && book.workers[k] in acc.inFlight
    requires var w := book.workers[k];
             && Now(r).workers[w] == Returned(r.steps[book.claims[k]].id, after)
             && acc' == Account(Merge(acc.stats, SummarizeDeliveryResult(Merged(acc.inFlight[w], after))),
                                acc.inFlight - {w})
    ensures Kept(r, acc', Closed(book, k, Merged(acc.inFlight[book.workers[k]], after)))
  {
    var w := book.workers[k];
    var last := Merged(acc.inFlight[w], after);
    var book' := Closed(book, k, last);
    TotalSnoc(acc.stats, book.merged, last);
    assert acc'.inFlight.Keys == acc.inFlight.Keys - {w};
    assert |acc'.inFlight.Keys| == |acc.inFlight.Keys| - 1;
    forall i | 0 <= i < |book'.claims|
      ensures EntryOk(r, acc', book', i)
    {
      assert EntryOk(r, acc, book, i);
      assert i in book'.done <==> i in book.done || i == k;
      assert i != k ==> book.workers[i] != w;
    }
    forall j | 0 <= j < |book'.merged|
      ensures ResultOk(r, book', j)
    {
      if j < |book.merged| {
        assert ResultOk(r, book, j);
      }
    }
    assert forall j | 0 <= j < |book.done| :: book.done[j] in book.done;
  }

  lemma KeptFromClaims(cfg: Config, r: Run, acc: Account, book: Book)
    requires Legal(cfg, r) && Kept(r, acc, book)
    ensures FromClaims(book.merged)
  {
    forall m | m in book.merged
      ensures Retryable(m.before)
    {
      var j :| 0 <= j < |book.merged| && book.merged[j] == m;
      assert ResultOk(r, book, j);
      ClaimSeesRetryable(cfg, r, book.claims[book.done[j]]);
    }
  }

  /** Claims are what has been processed, what was found deleted, and what is still under way. */
  lemma ClaimsBalance(cfg: Config, r: Run, acc: Account, book: Book)
    requires Legal(cfg, r) && Kept(r, acc, book)
    ensures |book.claims| == N(acc.stats, AnyEnd, false) + Gone(book.merged) + |acc.inFlight|
  {
    KeptFromClaims(cfg, r, acc, book);
    EndingsBalance(book.merged, false);
  }

  /** The report counts the merged rows of each kind by the status they came back in. */
  lemma ReportFits(cfg: Config, r: Run, acc: Account, book: Book)
    requires Legal(cfg, r) && Kept(r, acc, book)
    ensures RunCounts(acc.stats) == RunReport(Tally(book.merged, Webhook), Tally(book.merged, Email))
  {
    KeptFromClaims(cfg, r, acc, book);
    ReportMeans(acc.stats, book.merged);
  }
}
