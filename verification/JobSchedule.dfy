/** When a scheduled job is expected to start next. */
module JobSchedule {
  import opened Wrappers

  /** Microseconds since midnight UTC of some day. */
  type Time = int

  const SECOND := 1000000
  const MINUTE := 60 * SECOND
  const HOUR := 60 * MINUTE

  /** Runs at a fixed minute of every hour, or else at a fixed interval. */
  datatype JobSpec = JobSpec(intervalSeconds: int, cronMinute: Option<int>)

  const RETRY_WEBHOOKS := JobSpec(60, None)
  const PURGE_EXPIRED_DATA := JobSpec(3600, Some(17))

  /** moment.replace(minute=m, second=0, microsecond=0) */
  function AtMinute(moment: Time, minute: int): Time {
    moment - moment % HOUR + minute * MINUTE
  }

  function NextAfter(spec: JobSpec, moment: Time): Time {
    match spec.cronMinute
    case None => moment + spec.intervalSeconds * SECOND
    case Some(minute) =>
      var candidate := AtMinute(moment, minute);
      if candidate <= moment then candidate + HOUR else candidate
  }

  /** The moments an hourly job is due. */
  predicate Due(minute: int, t: Time) {
    t % HOUR == minute * MINUTE
  }

  /** The next start of an hourly job is the first due moment after the given one. */
  lemma NextIsFirstDue(spec: JobSpec, moment: Time, t: Time)
    requires spec.cronMinute.Some? && 0 <= spec.cronMinute.value < 60
    ensures var next := NextAfter(spec, moment);
            && Due(spec.cronMinute.value, next) && moment < next <= moment + HOUR
            && (Due(spec.cronMinute.value, t) && moment < t ==> next <= t)
  {
    var minute := spec.cronMinute.value;
    var hour, due := moment / HOUR, t / HOUR;
    assert moment == hour * HOUR + moment % HOUR && t == due * HOUR + t % HOUR;
    var offset := minute * MINUTE;
    assert 0 <= offset < HOUR;
    assert AtMinute(moment, minute) == hour * HOUR + offset;
    Remainder(hour, offset);
    Remainder(hour + 1, offset);
    if Due(minute, t) && moment < t {
      assert t == due * HOUR + offset;
      Ordered(hour, due, offset, moment);
    }
  }

  /** A job without a fixed minute starts next exactly its interval later, so its starts are evenly spaced. */
  lemma {:induction false} NextIsOneIntervalLater(spec: JobSpec, moment: Time, n: nat)
    requires spec.cronMinute.None?
    ensures NthNext(spec, moment, n) == moment + n * (spec.intervalSeconds * SECOND)
  {
    if n > 0 {
      NextIsOneIntervalLater(spec, moment, n - 1);
    }
  }

  /** The n-th start after a moment. */
  function NthNext(spec: JobSpec, moment: Time, n: nat): Time {
    if n == 0 then moment else NextAfter(spec, NthNext(spec, moment, n - 1))
  }

  /** The starts of an hourly job are exactly an hour apart from the first one on. */
  lemma {:induction false} HourlyStarts(spec: JobSpec, moment: Time, n: nat)
    requires spec.cronMinute.Some? && 0 <= spec.cronMinute.value < 60
    ensures NthNext(spec, moment, n + 1) == NextAfter(spec, moment) + n * HOUR
  {
    assert NthNext(spec, moment, 0) == moment;
    if n > 0 {
      HourlyStarts(spec, moment, n - 1);
      var before := NthNext(spec, moment, n - 1);
      var last := NextAfter(spec, before);
      NextIsFirstDue(spec, before, last);
      NextIsFirstDue(spec, last, last);
      HourLater(spec.cronMinute.value, last, NextAfter(spec, last));
    }
  }

  lemma HourLater(minute: int, t: Time, u: Time)
    requires Due(minute, t) && Due(minute, u) && t < u <= t + HOUR
    ensures u == t + HOUR
  {
    assert t == t / HOUR * HOUR + minute * MINUTE && u == u / HOUR * HOUR + minute * MINUTE;
    assert (u / HOUR - t / HOUR) * HOUR == u - t;
  }

  lemma Remainder(h: int, offset: int)
    requires 0 <= offset < HOUR
    ensures (h * HOUR + offset) % HOUR == offset
  {
  }

  lemma Ordered(h: int, due: int, offset: int, moment: Time)
    requires h * HOUR <= moment < due * HOUR + offset && 0 <= offset < HOUR
    ensures h <= due && (h * HOUR + offset <= moment ==> h < due)
  {
  }
}
