/** The statistics of a retry run and the counts it reports. */
module RetryStats {
  import opened Wrappers
  import opened Outbox

  /** How a processed row ended; AnyEnd counts them all. */
  datatype Ending = AnyEnd | DeliveredEnd | RetriedEnd | DeadEnd

  /** A figure of the run: one ending, over all rows or over the email rows among them. */
  datatype Figure = Figure(ending: Ending, emailOnly: bool)

  const FIGURES: set<Figure> := set ending: Ending, emailOnly: bool :: Figure(ending, emailOnly)

  type Stats = map<Figure, nat>

  function NoStats(): Stats {
    map f | f in FIGURES :: 0
  }

  predicate Ends(before: Status, after: Status, ending: Ending) {
    match ending
    case AnyEnd => true
    case DeliveredEnd => after == Delivered
    case DeadEnd => after == Dead
    case RetriedEnd => after == Failed || (after == Pending && Retryable(before))
  }

  /** A finished delivery: the status its claim saw, and what it returned. */
  datatype Merged = Merged(before: Status, after: Option<Row>)
  {
    predicate CountsFor(f: Figure) {
      after.Some? && (f.emailOnly ==> after.value.kind == Email) && Ends(before, after.value.status, f.ending)
    }
  }

  function SummarizeDeliveryResult(m: Merged): Stats {
    map f | f in FIGURES :: if m.CountsFor(f) then 1 else 0
  }

  function Merge(stats: Stats, delta: Stats): Stats {
    map f | f in stats :: stats[f] + (if f in delta then delta[f] else 0)
  }

  /** How many of the merged results count for a figure. */
  function Count(merged: seq<Merged>, f: Figure): nat {
    if merged == [] then 0
    else Count(merged[..|merged| - 1], f) + (if merged[|merged| - 1].CountsFor(f) then 1 else 0)
  }

  /** How many of them found their row deleted. */
  function Gone(merged: seq<Merged>): nat {
    if merged == [] then 0
    else Gone(merged[..|merged| - 1]) + (if merged[|merged| - 1].after.None? then 1 else 0)
  }

  /** The statistics say of every figure how many merged results count for it. */
  ghost predicate IsTotal(stats: Stats, merged: seq<Merged>) {
    stats.Keys == FIGURES && forall f {:trigger stats[f]} | f in stats :: stats[f] == Count(merged, f)
  }

  lemma TotalSnoc(stats: Stats, merged: seq<Merged>, last: Merged)
    requires IsTotal(stats, merged)
    ensures IsTotal(Merge(stats, SummarizeDeliveryResult(last)), merged + [last])
    ensures Gone(merged + [last]) == Gone(merged) + (if last.after.None? then 1 else 0)
  {
    assert (merged + [last])[..|merged|] == merged;
  }

  predicate FromClaims(merged: seq<Merged>) {
    forall m | m in merged :: Retryable(m.before)
  }

  /** Every result of a claimed row has exactly one ending, so nothing is lost and nothing counted twice. */
  lemma {:induction false} EndingsBalance(merged: seq<Merged>, emailOnly: bool)
    requires FromClaims(merged)
    ensures Count(merged, Figure(AnyEnd, emailOnly))
            == Count(merged, Figure(DeliveredEnd, emailOnly)) + Count(merged, Figure(RetriedEnd, emailOnly))
               + Count(merged, Figure(DeadEnd, emailOnly))
    ensures Count(merged, Figure(AnyEnd, false)) + Gone(merged) == |merged|
  {
    if merged != [] {
      assert merged[|merged| - 1] in merged;
      EndingsBalance(merged[..|merged| - 1], emailOnly);
    }
  }

  lemma {:induction false} EmailIsPart(merged: seq<Merged>, ending: Ending)
    ensures Count(merged, Figure(ending, true)) <= Count(merged, Figure(ending, false))
  {
    if merged != [] {
      EmailIsPart(merged[..|merged| - 1], ending);
    }
  }

  datatype Counts = Counts(attempted: int, succeeded: int, failed: int, givenUp: int)

  datatype RunReport = RunReport(webhook: Counts, email: Counts)

  /** One entry of the statistics; a missing key reads as zero. */
  function N(stats: Stats, ending: Ending, emailOnly: bool): int {
    if Figure(ending, emailOnly) in stats then stats[Figure(ending, emailOnly)] else 0
  }

  function RunCounts(stats: Stats): RunReport {
    RunReport(
      Counts(N(stats, AnyEnd, false) - N(stats, AnyEnd, true),
             N(stats, DeliveredEnd, false) - N(stats, DeliveredEnd, true),
             N(stats, RetriedEnd, false) - N(stats, RetriedEnd, true),
             N(stats, DeadEnd, false) - N(stats, DeadEnd, true)),
      Counts(N(stats, AnyEnd, true), N(stats, DeliveredEnd, true), N(stats, RetriedEnd, true), N(stats, DeadEnd, true)))
  }

  predicate Sound(counts: Counts) {
    && counts.attempted >= 0 && counts.succeeded >= 0 && counts.failed >= 0 && counts.givenUp >= 0
    && counts.attempted == counts.succeeded + counts.failed + counts.givenUp
  }

  /** The reported counts are natural numbers that add up, for both kinds, and together cover every merged row. */
  lemma ReportSound(stats: Stats, merged: seq<Merged>)
    requires IsTotal(stats, merged) && FromClaims(merged)
    ensures Sound(RunCounts(stats).webhook) && Sound(RunCounts(stats).email)
    ensures RunCounts(stats).webhook.attempted + RunCounts(stats).email.attempted == |merged| - Gone(merged)
  {
    EndingsBalance(merged, false);
    EndingsBalance(merged, true);
    EmailIsPart(merged, AnyEnd);
    EmailIsPart(merged, DeliveredEnd);
    EmailIsPart(merged, RetriedEnd);
    EmailIsPart(merged, DeadEnd);
  }

  const ANY_STATUS: set<Status> := set status: Status :: status

  /** The merged results of rows of this kind that came back in one of these statuses. */
  function CameBack(merged: seq<Merged>, kind: Kind, statuses: set<Status>): set<nat> {
    set i: nat | i < |merged| && merged[i].after.Some?
                 && merged[i].after.value.kind == kind && merged[i].after.value.status in statuses
  }

  lemma CameBackSnoc(merged: seq<Merged>, m: Merged, kind: Kind, statuses: set<Status>)
    ensures var more := m.after.Some? && m.after.value.kind == kind && m.after.value.status in statuses;
            |CameBack(merged + [m], kind, statuses)| == |CameBack(merged, kind, statuses)| + (if more then 1 else 0)
  {
    var more := m.after.Some? && m.after.value.kind == kind && m.after.value.status in statuses;
    assert CameBack(merged + [m], kind, statuses)
           == CameBack(merged, kind, statuses) + (if more then {|merged|} else {});
  }

  /** The statuses after which a claimed row counts as ended this way. */
  predicate EndsIn(ending: Ending, statuses: set<Status>) {
    forall before: Status, after: Status | Retryable(before) :: Ends(before, after, ending) <==> after in statuses
  }

  /** What a figure counts, by the statuses that rows came back in. */
  lemma {:induction false} CountIsCameBack(merged: seq<Merged>, ending: Ending, statuses: set<Status>)
    requires FromClaims(merged) && EndsIn(ending, statuses)
    ensures Count(merged, Figure(ending, true)) == |CameBack(merged, Email, statuses)|
    ensures Count(merged, Figure(ending, false))
            == |CameBack(merged, Webhook, statuses)| + |CameBack(merged, Email, statuses)|
  {
    if merged != [] {
      var rest, m := merged[..|merged| - 1], merged[|merged| - 1];
      assert merged == rest + [m] && m in merged;
      CountIsCameBack(rest, ending, statuses);
      CameBackSnoc(rest, m, Email, statuses);
      CameBackSnoc(rest, m, Webhook, statuses);
    }
  }

  /** The report of one kind: how many rows of it came back at all, delivered, to be tried again, and dead. */
  function Tally(merged: seq<Merged>, kind: Kind): Counts {
    Counts(|CameBack(merged, kind, ANY_STATUS)|, |CameBack(merged, kind, {Delivered})|,
           |CameBack(merged, kind, {Pending, Failed})|, |CameBack(merged, kind, {Dead})|)
  }

  /** The reported figures are the numbers of webhook and of email rows that came back in each status. */
  lemma ReportMeans(stats: Stats, merged: seq<Merged>)
    requires IsTotal(stats, merged) && FromClaims(merged)
    ensures RunCounts(stats) == RunReport(Tally(merged, Webhook), Tally(merged, Email))
  {
    CountIsCameBack(merged, AnyEnd, ANY_STATUS);
    CountIsCameBack(merged, DeliveredEnd, {Delivered});
    CountIsCameBack(merged, RetriedEnd, {Pending, Failed});
    CountIsCameBack(merged, DeadEnd, {Dead});
  }
}
