/** `RateLimitService`: a counter whose time to live is refreshed on every call, against a sliding window. */
module RateLimit {
  import opened Common

  const LOOKUP_LIMIT := 30
  const LOOKUP_WINDOW_SECONDS := 3600

  /** A Redis key: its value and the instant it is gone. */
  datatype Counter = Counter(count: nat, expiresAt: int)

  datatype Outcome = Allowed | TooManyRequests | Unavailable

  /** INCR then EXPIRE. */
  function Bump(c: Option<Counter>, window: int, now: int): Counter {
    Counter(if c.Some? && now < c.value.expiresAt then c.value.count + 1 else 1, now + window)
  }

  class RateLimitService {
    var counters: map<string, Counter>

    constructor ()
      ensures counters == map[]
    {
      counters := map[];
    }

    /** Refuses above the limit, and refuses everything while Redis is down. */
    method Consume(key: string, limit: int, window: int, now: int, redisUp: bool) returns (outcome: Outcome)
      requires window > 0
      modifies this
      ensures !redisUp ==> outcome == Unavailable && counters == old(counters)
      ensures redisUp ==>
                var before := if key in old(counters) then Some(old(counters)[key]) else None;
                var bumped := Bump(before, window, now);
                && counters == old(counters)[key := bumped]
                && outcome == if bumped.count > limit then TooManyRequests else Allowed
    {
      if !redisUp {
        return Unavailable;
      }
      var count := 1;
      if key in counters && now < counters[key].expiresAt {
        count := counters[key].count + 1;
      }
      counters := counters[key := Counter(count, now + window)];
      return if count > limit then TooManyRequests else Allowed;
    }
  }

  // ------------------------------------------------------- a history of calls

  ghost predicate NonDecreasing(times: seq<int>) {
    forall i, j :: 0 <= i <= j < |times| ==> times[i] <= times[j]
  }

  /** The counter of one key after calls at `times`. */
  function CounterAfter(times: seq<int>, window: int): Option<Counter> {
    if times == [] then None
    else var n := |times| - 1; Some(Bump(CounterAfter(times[..n], window), window, times[n]))
  }

  /** The count the last call saw. */
  function CountAt(times: seq<int>, window: int): nat
    requires times != []
  {
    CounterAfter(times, window).value.count
  }

  /** Calls later than an instant: the trailing window of length `w` at `t` is what is later than `t - w`. */
  function CallsAfter(times: seq<int>, since: int): nat {
    if times == [] then 0
    else var n := |times| - 1; CallsAfter(times[..n], since) + if times[n] > since then 1 else 0
  }

  function Last(times: seq<int>): int
    requires times != []
  {
    times[|times| - 1]
  }

  lemma {:induction false} CallsAfterLater(times: seq<int>, since: int, later: int)
    requires since <= later
    ensures CallsAfter(times, later) <= CallsAfter(times, since)
  {
    if times == [] {
    } else {
      CallsAfterLater(times[..|times| - 1], since, later);
    }
  }

  lemma {:induction false} NoneAfter(times: seq<int>, since: int)
    requires forall i :: 0 <= i < |times| ==> times[i] <= since
    ensures CallsAfter(times, since) == 0
  {
    if times == [] {
    } else {
      NoneAfter(times[..|times| - 1], since);
    }
  }

  lemma ExpiryOf(times: seq<int>, window: int)
    requires times != []
    ensures CounterAfter(times, window).value.expiresAt == Last(times) + window
  {
  }

  /** The counter never undercounts the trailing window. */
  lemma {:induction false} CoversWindow(times: seq<int>, window: int)
    requires times != [] && window > 0 && NonDecreasing(times)
    ensures CountAt(times, window) >= CallsAfter(times, Last(times) - window)
  {
    var n := |times| - 1;
    var earlier := times[..n];
    var t := times[n];
    if earlier != [] {
      ExpiryOf(earlier, window);
      if t < Last(earlier) + window {
        CoversWindow(earlier, window);
        CallsAfterLater(earlier, Last(earlier) - window, t - window);
      } else {
        NoneAfter(earlier, t - window);
      }
    } else {
      assert CallsAfter(earlier, t - window) == 0;
    }
  }

  /** Whatever the counter lets through, a true sliding-window limiter lets through. */
  lemma NoLaxerThanSlidingWindow(times: seq<int>, window: int, limit: int)
    requires times != [] && window > 0 && NonDecreasing(times)
    ensures CountAt(times, window) <= limit ==> CallsAfter(times, Last(times) - window) <= limit
  {
    CoversWindow(times, window);
  }

  /** Calls let through later than `from` and no later than `to`. */
  function AllowedBetween(times: seq<int>, window: int, limit: int, from: int, to: int): nat {
    if times == [] then 0
    else
      var n := |times| - 1;
      AllowedBetween(times[..n], window, limit, from, to)
      + if from < times[n] <= to && CountAt(times, window) <= limit then 1 else 0
  }

  lemma {:induction false} AllowedAreCalls(times: seq<int>, window: int, limit: int, from: int, to: int)
    ensures AllowedBetween(times, window, limit, from, to) <= CallsAfter(times, from)
  {
    if times == [] {
    } else {
      AllowedAreCalls(times[..|times| - 1], window, limit, from, to);
    }
  }

  /** No window of the configured length, wherever it starts, holds more than `limit` allowed calls. */
  lemma {:induction false} AtMostLimitPerWindow(times: seq<int>, window: int, limit: nat, from: int)
    requires window > 0 && NonDecreasing(times)
    ensures AllowedBetween(times, window, limit, from, from + window) <= limit
  {
    if times == [] {
    } else {
      var n := |times| - 1;
      AtMostLimitPerWindow(times[..n], window, limit, from);
      if from < times[n] <= from + window && CountAt(times, window) <= limit {
        AllowedAreCalls(times, window, limit, from, from + window);
        CallsAfterLater(times, times[n] - window, from);
        CoversWindow(times, window);
      }
    }
  }

  /** At most thirty recipient look-ups an hour per account. */
  lemma LookupsPerHour(times: seq<int>, from: int)
    requires NonDecreasing(times)
    ensures AllowedBetween(times, LOOKUP_WINDOW_SECONDS, LOOKUP_LIMIT, from, from + 3600) <= 30
  {
    AtMostLimitPerWindow(times, LOOKUP_WINDOW_SECONDS, LOOKUP_LIMIT, from);
  }

  // -------------------------------------------- where it is not a sliding window

  /** The length of the unbroken run that ends with the last call: each call less than a window after the one before. */
  function RunLength(times: seq<int>, window: int): (n: nat)
    ensures n <= |times| && (times != [] ==> n >= 1)
  {
    if times == [] then 0
    else
      var m := |times| - 1;
      if m > 0 && times[m] - times[m - 1] < window then RunLength(times[..m], window) + 1 else 1
  }

  /** Calls from `first` on follow each other by less than a window. */
  ghost predicate Unbroken(times: seq<int>, window: int, first: nat) {
    forall i :: first < i < |times| ==> times[i] - times[i - 1] < window
  }

  /** It is the longest such run: unbroken, and broken just before it, if anything came before. */
  lemma {:induction false} RunIsLongest(times: seq<int>, window: int)
    requires times != []
    ensures var first := |times| - RunLength(times, window);
            Unbroken(times, window, first) && (first > 0 ==> !Unbroken(times, window, first - 1))
  {
    var m := |times| - 1;
    if m > 0 && times[m] - times[m - 1] < window {
      RunIsLongest(times[..m], window);
      var first := |times| - RunLength(times, window);
      forall i | first < i < |times| ensures times[i] - times[i - 1] < window {
        if i < m {
          assert times[..m][i] - times[..m][i - 1] < window;
        }
      }
      if first > 0 {
        assert times[..m][first] - times[..m][first - 1] >= window;
      }
    } else {
      assert m > 0 ==> times[m] - times[m - 1] >= window;
    }
  }

  /** The counter counts that run. */
  lemma {:induction false} CountIsRun(times: seq<int>, window: int)
    requires times != []
    ensures CountAt(times, window) == RunLength(times, window)
  {
    var m := |times| - 1;
    if m == 0 {
      assert CounterAfter(times[..0], window) == None;
    } else {
      ExpiryOf(times[..m], window);
      CountIsRun(times[..m], window);
    }
  }

  lemma {:induction false} SuffixCount(times: seq<int>, since: int, n: nat)
    requires NonDecreasing(times) && 1 <= n <= |times|
    ensures CallsAfter(times, since) >= n <==> times[|times| - n] > since
  {
    var m := |times| - 1;
    if times[m] <= since {
      NoneAfter(times, since);
    } else if n == 1 {
    } else {
      SuffixCount(times[..m], since, n - 1);
    }
  }

  /** The first call of the unbroken run. */
  function RunStart(times: seq<int>, window: int): int
    requires times != []
  {
    times[|times| - RunLength(times, window)]
  }

  /** The count is the sliding window's exactly when the whole unbroken run lies inside the trailing window. */
  lemma ExactWhenRunFits(times: seq<int>, window: int)
    requires times != [] && window > 0 && NonDecreasing(times)
    ensures CountAt(times, window) == CallsAfter(times, Last(times) - window) <==>
            RunStart(times, window) > Last(times) - window
  {
    CountIsRun(times, window);
    CoversWindow(times, window);
    SuffixCount(times, Last(times) - window, RunLength(times, window));
  }

  /** A call every `period` seconds. */
  function Steady(period: nat, n: nat): (times: seq<int>)
    ensures |times| == n
  {
    seq(n, i => i * period)
  }

  lemma SteadyOrder(period: nat, n: nat)
    ensures NonDecreasing(Steady(period, n))
  {
    var times := Steady(period, n);
    forall i, j | 0 <= i <= j < n ensures times[i] <= times[j] {
      Apart(period, i, j);
    }
  }

  lemma SteadyGrows(period: nat, n: nat)
    requires n >= 2
    ensures Steady(period, n)[..n - 1] == Steady(period, n - 1)
    ensures Steady(period, n)[n - 1] - Steady(period, n)[n - 2] == period
  {
    Apart(period, n - 2, n - 1);
  }

  lemma {:induction false} SteadyRun(period: nat, n: nat, window: int)
    requires n >= 1 && period < window
    ensures RunLength(Steady(period, n), window) == n
  {
    if n == 1 {
    } else {
      SteadyRun(period, n - 1, window);
      SteadyGrows(period, n);
      hide Steady;
    }
  }

  lemma Apart(period: nat, i: nat, j: nat)
    requires i <= j
    ensures j * period - i * period == (j - i) * period >= 0
  {
  }

  /**
   Steady traffic less than a window apart is shut out from call number `limit + 1` on, whatever its pace;
   a sliding window of the same length would never refuse it exactly when `limit` periods span the window.
   */
  lemma SteadyIsShutOut(period: nat, window: int, limit: nat, n: nat)
    requires 1 <= period < window && limit >= 1 && n > limit
    ensures var times := Steady(period, n);
            && CountAt(times, window) == n > limit
            && (CallsAfter(times, Last(times) - window) <= limit <==> limit * period >= window)
  {
    var times := Steady(period, n);
    SteadyRun(period, n, window);
    SteadyOrder(period, n);
    CountIsRun(times, window);
    SuffixCount(times, Last(times) - window, limit + 1);
    Apart(period, n - 1 - limit, n - 1);
    assert n - 1 - (n - 1 - limit) == limit;
  }

  /** A look-up every 121 seconds: the thirty-first is refused, with thirty in the hour that ends with it. */
  lemma LookupEveryTwoMinutes()
    ensures var times := Steady(121, LOOKUP_LIMIT + 1);
            && CountAt(times, LOOKUP_WINDOW_SECONDS) == 31
            && CallsAfter(times, Last(times) - LOOKUP_WINDOW_SECONDS) == 30
  {
    var times := Steady(121, LOOKUP_LIMIT + 1);
    SteadyIsShutOut(121, LOOKUP_WINDOW_SECONDS, LOOKUP_LIMIT, LOOKUP_LIMIT + 1);
    SteadyOrder(121, LOOKUP_LIMIT + 1);
    SuffixCount(times, Last(times) - LOOKUP_WINDOW_SECONDS, 30);
  }
}
