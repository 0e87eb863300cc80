/** The sliding-window throttle: a log of accepted requests in a cache that forgets, against a simple count. */
module Throttle {
  import opened Wrappers

  type Time = int

  /** How many of the times lie in (from, to]. */
  function Count(times: seq<Time>, from: Time, to: Time): nat {
    if times == [] then 0
    else
      var last := times[|times| - 1];
      Count(times[..|times| - 1], from, to) + (if from < last <= to then 1 else 0)
  }

  /** The rule: a request is accepted while fewer than limit accepted ones lie in the window that ends with it. */
  function Decide(before: seq<Time>, now: Time, limit: int, window: int): seq<Time> {
    if Count(before, now - window, now) < limit then before + [now] else before
  }

  /** The accepted ones among all requests so far. */
  function Accepted(requests: seq<Time>, limit: int, window: int): seq<Time> {
    if requests == [] then []
    else Decide(Accepted(requests[..|requests| - 1], limit, window), requests[|requests| - 1], limit, window)
  }

  predicate Ordered(times: seq<Time>) {
    forall i, j :: 0 <= i < j < |times| ==> times[i] <= times[j]
  }

  predicate UpTo(times: seq<Time>, t: Time) {
    forall i :: 0 <= i < |times| ==> times[i] <= t
  }

  lemma AcceptedNext(requests: seq<Time>, now: Time, limit: int, window: int)
    ensures Accepted(requests + [now], limit, window) == Decide(Accepted(requests, limit, window), now, limit, window)
  {
    var longer := requests + [now];
    assert longer[|longer| - 1] == now;
    assert longer[..|longer| - 1] == requests;
  }

  lemma {:induction false} AcceptedOrdered(requests: seq<Time>, limit: int, window: int, t: Time)
    requires Ordered(requests) && UpTo(requests, t)
    ensures Ordered(Accepted(requests, limit, window)) && UpTo(Accepted(requests, limit, window), t)
  {
    if requests != [] {
      var front, now := requests[..|requests| - 1], requests[|requests| - 1];
      AcceptedOrdered(front, limit, window, now);
      assert requests == front + [now];
      AcceptedNext(front, now, limit, window);
    }
  }

  /** Moving the window's end back to the last time, and its start with it, loses none of the times. */
  lemma {:induction false} CountEarlier(times: seq<Time>, from: Time, to: Time, last: Time, window: int)
    requires UpTo(times, last) && last <= to && last - window <= from
    ensures Count(times, from, to) <= Count(times, last - window, last)
  {
    if times != [] {
      CountEarlier(times[..|times| - 1], from, to, last, window);
    }
  }

  lemma CountNext(times: seq<Time>, now: Time, from: Time, to: Time)
    ensures Count(times + [now], from, to) == Count(times, from, to) + if from < now <= to then 1 else 0
  {
    assert (times + [now])[..|times|] == times;
  }

  lemma StillNotOverfull(before: seq<Time>, now: Time, limit: int, window: int, end: Time)
    requires UpTo(before, now) && Count(before, end - window, end) <= Max(limit, 0)
    ensures Count(Decide(before, now, limit, window), end - window, end) <= Max(limit, 0)
  {
    if end - window < now <= end {
      CountEarlier(before, end - window, end, now, window);
    }
    CountNext(before, now, end - window, end);
  }

  /** No window, wherever it ends, ever holds more accepted requests than the limit. */
  lemma {:induction false} NoWindowOverfull(requests: seq<Time>, limit: int, window: int, end: Time)
    requires Ordered(requests)
    ensures Count(Accepted(requests, limit, window), end - window, end) <= Max(limit, 0)
  {
    if requests != [] {
      var front, now := requests[..|requests| - 1], requests[|requests| - 1];
      NoWindowOverfull(front, limit, window, end);
      AcceptedOrdered(front, limit, window, now);
      StillNotOverfull(Accepted(front, limit, window), now, limit, window, end);
    }
  }

  /** What the cache holds under a client's key: its log, newest first, until it expires. */
  datatype Entry = Entry(history: seq<Time>, expires: Time)

  /** If exactly the last n times lie after from, and none after to, they are the ones that count. */
  lemma {:induction false} CountNewest(times: seq<Time>, n: nat, from: Time, to: Time)
    requires n <= |times| && forall i :: 0 <= i < |times| ==> times[i] <= to
    requires forall i :: |times| - n <= i < |times| ==> from < times[i]
    requires forall i :: 0 <= i < |times| - n ==> times[i] <= from
    ensures Count(times, from, to) == n
  {
    if times != [] {
      CountNewest(times[..|times| - 1], if n == 0 then 0 else n - 1, from, to);
    }
  }

  /** history is the newest part of the log, newest first, and the rest of the log is from limit or before. */
  predicate Holds(history: seq<Time>, log: seq<Time>, limit: Time) {
    && |history| <= |log|
    && (forall i :: 0 <= i < |history| ==> history[i] == log[|log| - 1 - i])
    && (forall i :: 0 <= i < |log| - |history| ==> log[i] <= limit)
  }

  /** A log that holds nothing old enough to drop counts the accepted requests of the window. */
  lemma HoldsCounts(history: seq<Time>, log: seq<Time>, now: Time, window: int)
    requires Holds(history, log, now - window) && Ordered(log) && UpTo(log, now)
    requires history == [] || history[|history| - 1] > now - window
    ensures Count(log, now - window, now) == |history|
  {
    CountNewest(log, |history|, now - window, now);
  }

  lemma HoldsDropped(history: seq<Time>, log: seq<Time>, limit: Time)
    requires Holds(history, log, limit) && history != [] && history[|history| - 1] <= limit
    ensures Holds(history[..|history| - 1], log, limit)
  {
  }

  lemma HoldsLonger(history: seq<Time>, log: seq<Time>, limit: Time, now: Time)
    requires Holds(history, log, limit)
    ensures Holds([now] + history, log + [now], limit)
  {
  }

  /** Pops old times off the end of the log. */
  method DropOld(stored: seq<Time>, ghost log: seq<Time>, limit: Time) returns (history: seq<Time>)
    requires Holds(stored, log, limit)
    ensures Holds(history, log, limit) && (history == [] || history[|history| - 1] > limit)
  {
    history := stored;
    while history != [] && history[|history| - 1] <= limit
      invariant Holds(history, log, limit)
    {
      HoldsDropped(history, log, limit);
      history := history[..|history| - 1];
    }
  }

  /** What a cache entry may be, given the accepted requests and the last time the cache was used. */
  ghost predicate EntryOk(entry: Option<Entry>, log: seq<Time>, window: int, lastSeen: Time) {
    match entry
    case None => log == []
    case Some(e) => Holds(e.history, log, lastSeen - window) && UpTo(log, e.expires - window)
  }

  lemma ReadHolds(entry: Option<Entry>, log: seq<Time>, window: int, lastSeen: Time, readAt: Time, now: Time,
                  read: seq<Time>)
    requires EntryOk(entry, log, window, lastSeen) && readAt <= now && (log == [] || lastSeen <= readAt)
    requires read == if entry.Some? && readAt < entry.value.expires then entry.value.history else []
    ensures Holds(read, log, now - window)
  {
  }

  /** What a bucket promises about its cache entry and the requests so far. */
  ghost predicate Sound(entry: Option<Entry>, requests: seq<Time>, log: seq<Time>, lastSeen: Time, limit: int,
                        window: int) {
    && Ordered(requests) && UpTo(requests, lastSeen)
    && log == Accepted(requests, limit, window)
    && EntryOk(entry, log, window, lastSeen)
  }

  lemma OrderedNext(requests: seq<Time>, now: Time, lastSeen: Time, storedAt: Time)
    requires Ordered(requests) && UpTo(requests, lastSeen) && (requests == [] || lastSeen <= now) && now <= storedAt
    ensures Ordered(requests + [now]) && UpTo(requests + [now], storedAt)
  {
  }

  lemma EntryNext(history: seq<Time>, log: seq<Time>, now: Time, storedAt: Time, window: int)
    requires Holds(history, log, now - window) && UpTo(log, now) && now <= storedAt
    ensures EntryOk(Some(Entry([now] + history, storedAt + window)), log + [now], window, storedAt)
  {
    HoldsLonger(history, log, now - window, now);
  }

  lemma EntryStays(entry: Option<Entry>, log: seq<Time>, window: int, lastSeen: Time, storedAt: Time)
    requires EntryOk(entry, log, window, lastSeen) && (log == [] || lastSeen <= storedAt)
    ensures EntryOk(entry, log, window, storedAt)
  {
  }

  lemma LogUpTo(requests: seq<Time>, limit: int, window: int, lastSeen: Time, now: Time)
    requires Ordered(requests) && UpTo(requests, lastSeen) && (requests == [] || lastSeen <= now)
    ensures var log := Accepted(requests, limit, window);
            Ordered(log) && UpTo(log, now) && (log == [] || lastSeen <= now)
  {
    AcceptedOrdered(requests, limit, window, now);
  }

  /** What is read from the cache, pruned, counts the window. */
  lemma PrunedCounts(entry: Option<Entry>, requests: seq<Time>, log: seq<Time>, lastSeen: Time, limit: int, window: int,
                     now: Time, history: seq<Time>)
    requires Sound(entry, requests, log, lastSeen, limit, window) && (requests == [] || lastSeen <= now)
    requires Holds(history, log, now - window) && (history == [] || history[|history| - 1] > now - window)
    ensures Count(log, now - window, now) == |history|
  {
    LogUpTo(requests, limit, window, lastSeen, now);
    HoldsCounts(history, log, now, window);
  }

  lemma SoundAccepted(entry: Option<Entry>, requests: seq<Time>, log: seq<Time>, lastSeen: Time, limit: int,
                      window: int, now: Time, storedAt: Time, history: seq<Time>)
    requires Sound(entry, requests, log, lastSeen, limit, window)
    requires (requests == [] || lastSeen <= now) && now <= storedAt
    requires Holds(history, log, now - window) && Count(log, now - window, now) < limit
    ensures var entry' := Some(Entry([now] + history, storedAt + window));
            Sound(entry', requests + [now], log + [now], storedAt, limit, window)
  {
    LogUpTo(requests, limit, window, lastSeen, now);
    AcceptedNext(requests, now, limit, window);
    OrderedNext(requests, now, lastSeen, storedAt);
    EntryNext(history, log, now, storedAt, window);
  }

  lemma SoundRefused(entry: Option<Entry>, requests: seq<Time>, log: seq<Time>, lastSeen: Time, limit: int, window: int,
                     now: Time, storedAt: Time)
    requires Sound(entry, requests, log, lastSeen, limit, window)
    requires (requests == [] || lastSeen <= now) && now <= storedAt && Count(log, now - window, now) >= limit
    ensures Sound(entry, requests + [now], log, storedAt, limit, window)
  {
    LogUpTo(requests, limit, window, lastSeen, now);
    AcceptedNext(requests, now, limit, window);
    OrderedNext(requests, now, lastSeen, storedAt);
    EntryStays(entry, log, window, lastSeen, storedAt);
  }

  lemma ReadSound(entry: Option<Entry>, requests: seq<Time>, log: seq<Time>, lastSeen: Time, limit: int, window: int,
                  readAt: Time, now: Time, read: seq<Time>)
    requires Sound(entry, requests, log, lastSeen, limit, window)
    requires (requests == [] || lastSeen <= readAt) && readAt <= now
    requires read == if entry.Some? && readAt < entry.value.expires then entry.value.history else []
    ensures Holds(read, log, now - window)
  {
    LogUpTo(requests, limit, window, lastSeen, readAt);
    ReadHolds(entry, log, window, lastSeen, readAt, now, read);
  }

  class Bucket {
    const limit: int
    const window: int
    var entry: Option<Entry>
    ghost var requests: seq<Time>
    ghost var log: seq<Time>
    ghost var lastSeen: Time

    /** The cache entry holds the newest accepted times; those it lacks, and all once it has expired, are too old to
        matter. */
    ghost predicate Valid()
      reads this
    {
      Sound(entry, requests, log, lastSeen, limit, window)
    }

    constructor (limit: int, window: int)
      ensures Valid() && this.limit == limit && this.window == window && requests == []
    {
      this.limit, this.window := limit, window;
      entry, requests, log, lastSeen := None, [], [], 0;
    }

    /** The client's log without what has left the window. */
    method ReadLog(readAt: Time, now: Time) returns (history: seq<Time>)
      requires Valid() && (requests == [] || lastSeen <= readAt) && readAt <= now
      ensures Holds(history, log, now - window) && (history == [] || history[|history| - 1] > now - window)
    {
      var stored := if entry.Some? && readAt < entry.value.expires then entry.value.history else [];
      ReadSound(entry, requests, log, lastSeen, limit, window, readAt, now, stored);
      history := DropOld(stored, log, now - window);
    }

    /** throttle_success: the request goes into the log, which is stored for one window. */
    method ThrottleSuccess(history: seq<Time>, now: Time, storedAt: Time)
      requires Valid() && (requests == [] || lastSeen <= now) && now <= storedAt
      requires Holds(history, log, now - window) && Count(log, now - window, now) < limit
      modifies this
      ensures Valid() && lastSeen == storedAt && requests == old(requests) + [now] && log == old(log) + [now]
    {
      SoundAccepted(entry, requests, log, lastSeen, limit, window, now, storedAt, history);
      entry := Some(Entry([now] + history, storedAt + window));
      requests, log, lastSeen := requests + [now], log + [now], storedAt;
    }

    /** throttle_failure: nothing is stored. */
    method ThrottleFailure(now: Time, storedAt: Time)
      requires Valid() && (requests == [] || lastSeen <= now) && now <= storedAt
               && Count(log, now - window, now) >= limit
      modifies this
      ensures Valid() && lastSeen == storedAt && requests == old(requests) + [now] && log == old(log)
              && entry == old(entry)
    {
      SoundRefused(entry, requests, log, lastSeen, limit, window, now, storedAt);
      requests, lastSeen := requests + [now], storedAt;
    }

    /** One request: the cache is read at readAt, the clock says now, and an accepted request is stored at storedAt. */
    method AllowRequest(readAt: Time, now: Time, storedAt: Time) returns (allowed: bool)
      requires Valid() && (requests == [] || lastSeen <= readAt) && readAt <= now <= storedAt
      modifies this
      ensures Valid() && lastSeen == storedAt && requests == old(requests) + [now]
      ensures allowed == (Count(old(log), now - window, now) < limit)
      ensures log == if allowed then old(log) + [now] else old(log)
    {
      var history := ReadLog(readAt, now);
      PrunedCounts(entry, requests, log, lastSeen, limit, window, now, history);
      if |history| >= limit {
        ThrottleFailure(now, storedAt);
        return false;
      }
      ThrottleSuccess(history, now, storedAt);
      return true;
    }
  }
}
