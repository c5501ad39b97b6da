/** Upcoming fire times: a loop over a stateful trigger that skips past fires and stops after
    `count` of the others.  Times are UTC instants in microseconds. */
module FireStream {
  import opened Options
  import opened Triggers

  const SECOND := 1000000

  /** A trigger's whole sequence of fires: strictly increasing, and either unbounded or exhausted
      for good after some fire. */
  ghost predicate IsStream(fires: nat -> Option<int>) {
    forall i: nat, j: nat :: i < j && fires(j).Some? ==> fires(i).Some? && fires(i).value < fires(j).value
  }

  function DateFires(at: int): nat -> Option<int> {
    (n: nat) => if n == 0 then Some(at) else None
  }

  function IntervalFires(start: int, period: int): nat -> Option<int> {
    (n: nat) => Some(start + n * period)
  }

  /** The fires of a trigger built at `start`.  Cron search is the library's. */
  function FiresOf(s: Schedule, start: int, cron: nat -> Option<int>): nat -> Option<int> {
    match s
    case Once(at) => DateFires(at)
    case Interval(seconds) => IntervalFires(start, seconds * SECOND)
    case Cron(_, _) => cron
  }

  lemma IntervalIsStream(start: int, period: int)
    requires period > 0
    ensures IsStream(IntervalFires(start, period))
  {
    forall i: nat, j: nat | i < j ensures start + i * period < start + j * period {
      assert (j - i) * period >= period by { MultipleAtLeast(j - i, period); }
      assert j * period == i * period + (j - i) * period;
    }
  }

  lemma MultipleAtLeast(n: nat, p: int)
    requires n > 0 && p > 0
    ensures n * p >= p
  {}

  lemma FiresOfIsStream(s: Schedule, start: int, cron: nat -> Option<int>)
    requires IsStream(cron) && (s.Interval? ==> s.seconds > 0)
    ensures IsStream(FiresOf(s, start, cron))
  {
    if s.Interval? { IntervalIsStream(start, s.seconds * SECOND); }
  }

  /** `r` is the list of the first `count` fires not before `now`, found after `k` earlier ones. */
  ghost predicate FirstFires(fires: nat -> Option<int>, now: int, count: nat, k: nat, r: seq<int>) {
    && (forall i: nat :: i < k ==> fires(i).Some? && fires(i).value < now)
    && (forall n: nat :: k <= n < k + |r| ==> fires(n) == Some(r[n - k]) && now <= r[n - k])
    && |r| <= count
    && (|r| < count ==> fires(k + |r|).None?)
  }

  /** Nothing is missing: a fire not before `now` is in the list or the list is full of earlier ones. */
  lemma FirstFiresComplete(fires: nat -> Option<int>, now: int, count: nat, k: nat, r: seq<int>, n: nat)
    requires IsStream(fires) && FirstFires(fires, now, count, k, r)
    requires fires(n).Some? && now <= fires(n).value
    ensures fires(n).value in r || (|r| == count && forall t :: t in r ==> t < fires(n).value)
  {
    assert n >= k;
    if n < k + |r| {
      assert fires(k + (n - k)) == Some(r[n - k]);
    } else {
      var next := fires(k + |r|);
      assert next.Some?;
      forall j: nat | j < |r| ensures r[j] < fires(n).value { assert fires(k + j) == Some(r[j]); }
    }
  }

  /** The list is determined by the stream, the clock and the count. */
  lemma FirstFiresUnique(fires: nat -> Option<int>, now: int, count: nat, k: nat, r: seq<int>, k': nat, r': seq<int>)
    requires IsStream(fires) && FirstFires(fires, now, count, k, r) && FirstFires(fires, now, count, k', r')
    requires count > 0
    ensures r == r' && k == k'
  {
    SameStart(fires, now, count, k, r, k', r');
    SameStart(fires, now, count, k', r', k, r);
    var next, next' := fires(k + |r|), fires(k + |r'|);
    assert |r| == |r'|;
    forall j: nat | j < |r| ensures r[j] == r'[j] {
      assert fires(k + j) == Some(r[k + j - k]);
    }
  }

  lemma SameStart(fires: nat -> Option<int>, now: int, count: nat, k: nat, r: seq<int>, k': nat, r': seq<int>)
    requires IsStream(fires) && FirstFires(fires, now, count, k, r) && FirstFires(fires, now, count, k', r')
    requires count > 0
    ensures k' <= k
  {
    if r == [] {
      assert fires(k + 0).None?;
    } else {
      assert fires(k + 0) == Some(r[0]);
    }
  }

  /** It depends on the fires themselves only. */
  lemma SameFires(fires: nat -> Option<int>, same: nat -> Option<int>, now: int, count: nat, k: nat, r: seq<int>)
    requires FirstFires(fires, now, count, k, r) && forall n: nat :: same(n) == fires(n)
    ensures FirstFires(same, now, count, k, r)
  {}

  /** A once-trigger gives its single fire if that is not past, else nothing. */
  lemma OnceUpcoming(at: int, now: int, count: nat, k: nat, r: seq<int>)
    requires count > 0 && FirstFires(DateFires(at), now, count, k, r)
    ensures r == if now <= at then [at] else []
  {
    var fires := DateFires(at);
    if r == [] {
      assert fires(k + 0).None?;
      assert k > 0 ==> fires(0).value < now;
    } else {
      assert fires(k + 0) == Some(r[0]);
      var second := fires(k + 1);
    }
  }

  lemma QuotientIs(n: int, p: int, q: int)
    requires p > 0 && q * p <= n < q * p + p
    ensures n / p == q
  {
    var d := n / p - q;
    assert n == (n / p) * p + n % p;
    assert d * p == (n / p) * p - q * p;
    if d != 0 { MultipleAtLeast(if d > 0 then d else -d, p); }
  }

  /** An interval started at or before `now` skips exactly ceil((now - start) / period) fires; the
      first result lies in [now, now + period) and the others follow one period apart. */
  lemma IntervalUpcoming(start: int, period: int, now: int, count: nat, k: nat, r: seq<int>)
    requires period > 0 && count > 0 && start <= now
    requires FirstFires(IntervalFires(start, period), now, count, k, r)
    ensures k == (now - start + period - 1) / period
    ensures |r| == count && now <= r[0] < now + period
    ensures forall j: nat :: j < |r| ==> r[j] == r[0] + j * period
  {
    var fires := IntervalFires(start, period);
    assert |r| == count by { assert fires(k + |r|).Some?; }
    assert fires(k + 0) == Some(r[0]);
    assert (k - 1) * period == k * period - period;
    if k > 0 { assert fires(k - 1).value < now; }
    QuotientIs(now - start + period - 1, period, k);
    forall j: nat | j < |r| ensures r[j] == r[0] + j * period {
      assert fires(k + j) == Some(r[j]);
      assert (k + j) * period == k * period + j * period;
    }
  }

  /** The library's trigger object: `next()` moves along the stream. */
  class FireSource {
    const fires: nat -> Option<int>
    var position: nat

    constructor (fires: nat -> Option<int>)
      ensures this.fires == fires && position == 0
    {
      this.fires := fires;
      position := 0;
    }

    method Next() returns (r: Option<int>)
      modifies this
      ensures r == fires(old(position)) && position == old(position) + 1
    {
      r := fires(position);
      position := position + 1;
    }
  }

  /** The generator loop of `_iter_upcoming_run_times` cut off by `islice`.  `skipped` counts the
      fires passed over. */
  method TakeUpcoming(trigger: FireSource, now: int, isOnce: bool, count: nat)
    returns (times: seq<int>, ghost skipped: nat)
    requires IsStream(trigger.fires) && trigger.position == 0
    requires isOnce ==> trigger.fires(1).None?
    modifies trigger
    ensures FirstFires(trigger.fires, now, count, skipped, times)
  {
    ghost var fires := trigger.fires;
    ghost var last := if fires(0).Some? then fires(0).value - 1 else now;
    times, skipped := [], 0;
    while |times| < count
      invariant trigger.position == skipped + |times| && |times| <= count
      invariant forall i: nat :: i < skipped ==> fires(i).Some? && fires(i).value < now
      invariant forall n: nat :: skipped <= n < skipped + |times| ==>
        fires(n) == Some(times[n - skipped]) && now <= times[n - skipped]
      invariant fires(trigger.position).Some? ==> last < fires(trigger.position).value
      invariant times != [] ==> now <= last
      decreases count - |times|, now - last
    {
      var nxt := trigger.Next();
      if nxt.None? { break; }
      last := nxt.value;
      if nxt.value >= now {
        times := times + [nxt.value];
      } else {
        skipped := skipped + 1;
        if isOnce { break; }
      }
    }
  }

  /** `compute_upcoming_run_times`. */
  method ComputeUpcomingRunTimes(s: Schedule, start: int, cron: nat -> Option<int>, now: int, count: nat)
    returns (times: seq<int>, ghost skipped: nat)
    requires IsStream(cron) && (s.Interval? ==> s.seconds > 0)
    ensures |times| <= count
    ensures s.Cron? ==>
      && FirstFires(cron, now, count, skipped, times)
      && forall n: nat :: cron(n).Some? && now <= cron(n).value ==>
           cron(n).value in times || (|times| == count && forall t :: t in times ==> t < cron(n).value)
    ensures s.Interval? ==> FirstFires((n: nat) => Some(start + n * (s.seconds * 1000000)), now, count, skipped, times)
    ensures s.Once? && count > 0 ==> times == if now <= s.runAt then [s.runAt] else []
    ensures s.Interval? && count > 0 && start <= now ==>
      && skipped == (now - start + s.seconds * 1000000 - 1) / (s.seconds * 1000000)
      && |times| == count && now <= times[0] < now + s.seconds * 1000000
      && forall j: nat :: j < |times| ==> times[j] == times[0] + j * (s.seconds * 1000000)
  {
    FiresOfIsStream(s, start, cron);
    var trigger := new FireSource(FiresOf(s, start, cron));
    times, skipped := TakeUpcoming(trigger, now, s.Once?, count);
    if s.Cron? {
      forall n: nat | cron(n).Some? && now <= cron(n).value
        ensures cron(n).value in times || (|times| == count && forall t :: t in times ==> t < cron(n).value)
      {
        FirstFiresComplete(cron, now, count, skipped, times, n);
      }
    } else if s.Interval? {
      SameFires(IntervalFires(start, s.seconds * SECOND), (n: nat) => Some(start + n * (s.seconds * 1000000)),
                now, count, skipped, times);
    }
    if count > 0 {
      if s.Once? {
        OnceUpcoming(s.runAt, now, count, skipped, times);
      } else if s.Interval? && start <= now {
        IntervalUpcoming(start, s.seconds * SECOND, now, count, skipped, times);
      }
    }
  }
}
