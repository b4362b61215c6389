/**
 The sliding-window rate limiter for one key, against a count over its whole history.
 Calls are atomic, and no two fall in the same nanosecond (the member they add is that stamp).
 */
module RateLimiter {
  import opened Basics
  import opened Wrappers
  import opened SortedSets

  /** A member is the decimal form of the call's nanosecond stamp. */
  datatype Stamp = Stamp(nanos: int)

  function Micros(t: int): int {
    t / MICRO
  }

  /** Scores at or below this have left a window ending at `now`. */
  function Cutoff(now: int, window: int): int {
    Micros(now - window)
  }

  predicate Increasing(times: seq<int>) {
    forall i, j :: 0 <= i < j < |times| ==> times[i] < times[j]
  }

  /** Positions of the earlier calls, allowed or denied, still inside the window at `now`. */
  function InWindow(history: seq<int>, now: int, window: int): set<nat> {
    set i: nat | i < |history| && Micros(history[i]) > Cutoff(now, window)
  }

  /** A call is counted while less than the window has passed since, give or take the microsecond scores are kept in. */
  lemma WindowInTime(history: seq<int>, now: int, window: int, i: nat)
    requires i < |history|
    ensures i in InWindow(history, now, window) ==> now - history[i] < window
    ensures now - history[i] <= window - 1_000 ==> i in InWindow(history, now, window)
  {
  }

  /** The limiter without its sorted set: fewer than `limit` earlier calls in the window. */
  predicate Allows(history: seq<int>, now: int, limit: int, window: int) {
    |InWindow(history, now, window)| < limit
  }

  /** `Duration.Seconds()` converted to an integer: the fraction is cut off towards zero. */
  function WholeSeconds(d: int): int {
    if d >= 0 then d / SECOND else -(-d / SECOND)
  }

  function Stamps(history: seq<int>, positions: set<nat>): set<Stamp>
    requires forall i :: i in positions ==> 0 <= i < |history|
  {
    set i | i in positions :: Stamp(history[i])
  }

  lemma {:induction false} DistinctStamps(history: seq<int>, positions: set<nat>, bound: nat)
    requires Increasing(history) && bound <= |history| && forall i :: i in positions ==> 0 <= i < bound
    ensures |Stamps(history, positions)| == |positions|
  {
    if bound == 0 {
      assert positions == {};
    } else {
      var last := bound - 1;
      var rest := positions - {last};
      DistinctStamps(history, rest, last);
      assert Stamp(history[last]) !in Stamps(history, rest);
      if last in positions {
        assert Stamps(history, positions) == Stamps(history, rest) + {Stamp(history[last])};
      } else {
        assert rest == positions;
      }
    }
  }

  /** `t` is a call still counted at `now`, which is the latest call itself. */
  predicate Counted(history: seq<int>, now: int, window: int, t: int) {
    t in history && (t == now || Micros(t) > Cutoff(now, window))
  }

  /**
   `t` is the oldest counted call; it is outside the window once `retryAfter` seconds have passed,
   and a second earlier it was not yet, or only just.
   */
  ghost predicate FreesAfter(history: seq<int>, now: int, window: int, t: int, retryAfter: int) {
    && Counted(history, now, window, t)
    && (forall u :: Counted(history, now, window, u) ==> Micros(t) <= Micros(u))
    && Micros(t) <= Cutoff(now + retryAfter * 1_000_000_000, window)
    && Cutoff(now + (retryAfter - 1) * 1_000_000_000, window) <= Micros(t)
  }

  /** Whole seconds until a window ending then no longer holds an entry of this score, and one more. */
  function RetryFrom(score: int, now: int, window: int): int {
    WholeSeconds(score * MICRO + window - now) + 1
  }

  /** The arithmetic of the retry hint: the clamp at one second is never what decides it. */
  lemma RetryHint(now: int, window: int, t: int)
    requires window >= 0 && t <= now && (t == now || Micros(t) > Cutoff(now, window))
    ensures var r := RetryFrom(Micros(t), now, window);
      && 1 <= r <= window / SECOND + 1
      && Micros(t) <= Cutoff(now + r * SECOND, window)
      && Cutoff(now + (r - 1) * SECOND, window) <= Micros(t)
  {
  }

  /** What is missing from the sorted set had left the window at the latest call. */
  ghost predicate Tracks(key: ZSet<Stamp>, history: seq<int>, window: int) {
    && window >= 0
    && Increasing(history)
    && (forall m :: m in key.scores ==> key.scores[m] == Micros(m.nanos) && m.nanos in history)
    && (history != [] ==>
         var last := history[|history| - 1];
         && key.expiry == ExpiryAfter(last, window + SECOND)
         && forall t :: t in history && Micros(t) > Cutoff(last, window) ==> Stamp(t) in key.scores)
  }

  predicate Later(history: seq<int>, now: int) {
    history != [] ==> history[|history| - 1] < now
  }

  /** The set after trimming: exactly the calls in the window, each under its own score. */
  ghost predicate HoldsWindow(scores: map<Stamp, int>, history: seq<int>, now: int, window: int) {
    && (forall m :: m in scores ==>
         m.nanos in history && Micros(m.nanos) > Cutoff(now, window) && scores[m] == Micros(m.nanos))
    && (forall t :: t in history && Micros(t) > Cutoff(now, window) ==> Stamp(t) in scores)
  }

  /** Neither trimming nor expiry loses a call that still counts. */
  lemma TrimmedHoldsWindow(key: ZSet<Stamp>, history: seq<int>, now: int, window: int)
    requires Tracks(key, history, window) && Later(history, now)
    ensures HoldsWindow(RemoveUpTo(Stored(key, now), Cutoff(now, window)), history, now, window)
  {
    forall t | t in history && Micros(t) > Cutoff(now, window)
      ensures Stamp(t) in RemoveUpTo(Stored(key, now), Cutoff(now, window))
    {
      var last := history[|history| - 1];
      if now / MILLI > key.expiry.value {
        ExpiredIsOld(last, now, window + SECOND);
      }
    }
  }

  lemma WindowSize(scores: map<Stamp, int>, history: seq<int>, now: int, window: int)
    requires Increasing(history) && HoldsWindow(scores, history, now, window)
    ensures |scores| == |InWindow(history, now, window)|
  {
    var inside := InWindow(history, now, window);
    DistinctStamps(history, inside, |history|);
    forall m | m in scores ensures m in Stamps(history, inside) {
      var i: nat :| i < |history| && history[i] == m.nanos;
      assert i in inside;
    }
    assert scores.Keys == Stamps(history, inside);
    assert |scores| == |scores.Keys|;
  }

  /** What a denied call reads back: every counted call is in the set, and nothing else. */
  ghost predicate HoldsCounted(key: ZSet<Stamp>, history: seq<int>, now: int, window: int) {
    && Tracks(key, history, window)
    && history != [] && history[|history| - 1] == now
    && forall m :: m in key.scores <==> Counted(history, now, window, m.nanos)
  }

  /** Recording the call keeps the set in step with the history. */
  lemma RecordingTracks(scores: map<Stamp, int>, history: seq<int>, now: int, window: int)
    requires window >= 0 && Increasing(history) && Later(history, now) && HoldsWindow(scores, history, now, window)
    ensures HoldsCounted(
      ZSet(scores[Stamp(now) := Micros(now)], ExpiryAfter(now, window + SECOND)), history + [now], now, window)
  {
    forall i | 0 <= i < |history| ensures history[i] < now {
      assert history[i] <= history[|history| - 1];
    }
    assert forall t :: t in history + [now] <==> t in history || t == now;
  }

  predicate IsOldest(scores: map<Stamp, int>, oldest: Stamp) {
    oldest in scores && forall k :: k in scores ==> scores[oldest] <= scores[k]
  }

  lemma CountedNotLater(history: seq<int>, now: int, window: int, u: int)
    requires Increasing(history) && history != [] && history[|history| - 1] == now && Counted(history, now, window, u)
    ensures u <= now
  {
  }

  lemma OldestIsFirst(key: ZSet<Stamp>, history: seq<int>, now: int, window: int, oldest: Stamp, u: int)
    requires HoldsCounted(key, history, now, window) && IsOldest(key.scores, oldest)
    requires Counted(history, now, window, u)
    ensures Micros(oldest.nanos) <= Micros(u)
  {
    assert Stamp(u) in key.scores;
  }

  /** The wait is right for a denial: within its bounds, and naming when the oldest counted call leaves. */
  ghost predicate IsRetryAfter(history: seq<int>, now: int, window: int, retryAfter: int) {
    1 <= retryAfter <= window / 1_000_000_000 + 1 && exists t :: FreesAfter(history, now, window, t, retryAfter)
  }

  /** The oldest member decides how long to wait. */
  lemma OldestFrees(key: ZSet<Stamp>, history: seq<int>, now: int, window: int, oldest: Stamp)
    requires HoldsCounted(key, history, now, window) && IsOldest(key.scores, oldest)
    ensures IsRetryAfter(history, now, window, RetryFrom(key.scores[oldest], now, window))
  {
    CountedNotLater(history, now, window, oldest.nanos);
    RetryHint(now, window, oldest.nanos);
    forall u | Counted(history, now, window, u) ensures Micros(oldest.nanos) <= Micros(u) {
      OldestIsFirst(key, history, now, window, oldest, u);
    }
    assert FreesAfter(history, now, window, oldest.nanos, RetryFrom(key.scores[oldest], now, window));
  }

  class Limiter {
    const window: int
    var key: ZSet<Stamp>
    /** Every call so far, for comparison only. */
    ghost var history: seq<int>

    ghost predicate Valid()
      reads this
    {
      Tracks(key, history, window)
    }

    constructor (window: int)
      requires window >= 0
      ensures Valid() && history == [] && this.window == window
    {
      this.window := window;
      key := ZSet(map[], None);
      history := [];
    }

    method RateLimitCheck(now: int, limit: int) returns (allowed: bool, retryAfter: int)
      requires Valid() && Later(history, now)
      modifies this
      ensures Valid() && history == old(history) + [now]
      ensures allowed <==> |InWindow(old(history), now, window)| < limit
      ensures allowed ==> retryAfter == 0
      ensures !allowed ==> IsRetryAfter(history, now, window, retryAfter)
    {
      // One pipeline: trim, count, add, expire.
      var scores := RemoveUpTo(Stored(key, now), Cutoff(now, window));
      TrimmedHoldsWindow(key, history, now, window);
      var count := |scores|;
      WindowSize(scores, history, now, window);
      RecordingTracks(scores, history, now, window);
      key := ZSet(scores[Stamp(now) := Micros(now)], ExpiryAfter(now, window + SECOND));
      history := history + [now];
      if count >= limit {
        retryAfter := RetryAfter(now);
        return false, retryAfter;
      }
      return true, 0;
    }

    /** The second round trip of a denied call: the oldest member decides how long to wait. */
    method RetryAfter(now: int) returns (retryAfter: int)
      requires HoldsCounted(key, history, now, window)
      ensures IsRetryAfter(history, now, window, retryAfter)
    {
      // ZRANGE 0 0 WITHSCORES: a member of least score.
      assert Stamp(now) in key.scores;
      OldestExists(key.scores);
      var oldest :| oldest in key.scores && forall k :: k in key.scores ==> key.scores[oldest] <= key.scores[k];
      OldestFrees(key, history, now, window, oldest);
      retryAfter := RetryFrom(key.scores[oldest], now, window);
      if retryAfter < 1 {
        retryAfter := 1;
      }
    }
  }

  ghost predicate AnsweredAs(times: seq<int>, answers: seq<bool>, limit: int, window: int) {
    |answers| <= |times| && forall i :: 0 <= i < |answers| ==> answers[i] == Allows(times[..i], times[i], limit, window)
  }

  lemma AnswerNext(times: seq<int>, answers: seq<bool>, allowed: bool, limit: int, window: int)
    requires |answers| < |times| && AnsweredAs(times, answers, limit, window)
    requires allowed == Allows(times[..|answers|], times[|answers|], limit, window)
    ensures AnsweredAs(times, answers + [allowed], limit, window)
  {
  }

  lemma Earlier(times: seq<int>, n: nat)
    requires Increasing(times) && n < |times|
    ensures Later(times[..n], times[n]) && times[..n] + [times[n]] == times[..n + 1]
  {
  }

  /** A whole sequence of calls on one key is answered as the full, never trimmed history would answer it. */
  method AnswerAll(times: seq<int>, limit: int, window: int) returns (answers: seq<bool>)
    requires Increasing(times) && window >= 0
    ensures |answers| == |times| && AnsweredAs(times, answers, limit, window)
  {
    var limiter := new Limiter(window);
    answers := [];
    for n := 0 to |times|
      invariant limiter.Valid() && limiter.window == window && limiter.history == times[..n]
      invariant |answers| == n && AnsweredAs(times, answers, limit, window)
    {
      Earlier(times, n);
      var allowed, _ := limiter.RateLimitCheck(times[n], limit);
      AnswerNext(times, answers, allowed, limit, window);
      answers := answers + [allowed];
    }
  }

  /** Positions from `from` up to, not including, `to` whose call was allowed. */
  function AllowedWithin(times: seq<int>, from: nat, upto: nat, limit: int, window: int): set<nat>
    requires upto <= |times|
  {
    set i: nat | from <= i < upto && Allows(times[..i], times[i], limit, window)
  }

  lemma WholeMicroCutoff(now: int, window: int)
    requires window >= 0 && window % MICRO == 0
    ensures Cutoff(now, window) == Micros(now) - window / MICRO
  {
  }

  lemma MicrosMonotone(a: int, b: int)
    requires a <= b
    ensures Micros(a) <= Micros(b)
  {
  }

  /** Everything from `from` up to an allowed call was in that call's window. */
  lemma SpanInWindow(times: seq<int>, from: nat, last: nat, limit: int, window: int)
    requires Increasing(times) && window >= 0 && window % MICRO == 0
    requires from <= last < |times| && (Micros(times[last]) - Micros(times[from])) * MICRO < window
    requires Allows(times[..last], times[last], limit, window)
    ensures |AllowedWithin(times, from, last, limit, window)| < limit
  {
    var earlier := AllowedWithin(times, from, last, limit, window);
    var inside := InWindow(times[..last], times[last], window);
    WholeMicroCutoff(times[last], window);
    forall i | i in earlier ensures i in inside {
      if from < i {
        assert times[from] < times[i];
        MicrosMonotone(times[from], times[i]);
      }
      assert times[..last][i] == times[i];
    }
    SubsetSize(earlier, inside);
  }

  lemma AllowedNext(times: seq<int>, from: nat, last: nat, limit: int, window: int)
    requires from <= last < |times|
    ensures AllowedWithin(times, from, last + 1, limit, window) ==
      AllowedWithin(times, from, last, limit, window)
      + if Allows(times[..last], times[last], limit, window) then {last} else {}
  {
  }

  /** The calls from `from` up to `upto` are closer together than the window, in microseconds. */
  predicate IsSpan(times: seq<int>, from: nat, upto: nat, window: int) {
    from < upto <= |times| && (Micros(times[upto - 1]) - Micros(times[from])) * MICRO < window
  }

  lemma ShorterSpan(times: seq<int>, from: nat, upto: nat, window: int)
    requires Increasing(times) && IsSpan(times, from, upto, window) && from < upto - 1
    ensures IsSpan(times, from, upto - 1, window)
  {
    assert times[upto - 2] < times[upto - 1];
    MicrosMonotone(times[upto - 2], times[upto - 1]);
  }

  /** In any span shorter than the window at most `limit` calls are allowed. */
  lemma {:induction false} SpanBound(times: seq<int>, from: nat, upto: nat, limit: int, window: int)
    requires Increasing(times) && window >= 0 && window % MICRO == 0 && IsSpan(times, from, upto, window)
    ensures |AllowedWithin(times, from, upto, limit, window)| <= if limit > 0 then limit else 0
    decreases upto
  {
    var last := upto - 1;
    AllowedNext(times, from, last, limit, window);
    if Allows(times[..last], times[last], limit, window) {
      SpanInWindow(times, from, last, limit, window);
    } else if from < last {
      ShorterSpan(times, from, upto, window);
      SpanBound(times, from, last, limit, window);
    } else {
      assert AllowedWithin(times, from, last, limit, window) == {};
    }
  }
}
