/**
 * The sliding-window rate limiter keyed by action: a call is refused while
 * the key already has `maxAttempts` attempts younger than the window.
 * The clock reading is passed in.
 */
module RateLimiting {
  import opened Wrappers
  import opened Seqs

  /** The defaults of `isRateLimited`. */
  const DefaultMaxAttempts: int := 5
  const DefaultWindowMs: int := 60000

  /** `attempts.filter(timestamp => now - timestamp < windowMs)`: the attempts inside the window, in order. */
  function Recent(attempts: seq<int>, now: int, windowMs: int): (r: seq<int>)
    ensures IsSubsequence(r, attempts)
    ensures forall i :: 0 <= i < |r| ==> r[i] in attempts && now - r[i] < windowMs
    ensures forall i :: 0 <= i < |attempts| && now - attempts[i] < windowMs ==> attempts[i] in r
    ensures |r| <= |attempts|
  {
    Filter(attempts, Before(now, windowMs))
  }

  /** `timestamp => now - timestamp < windowMs`. */
  function Before(now: int, windowMs: int): int -> bool
  {
    (t: int) => now - t < windowMs
  }

  class RateLimiter {
    var attempts: map<string, seq<int>>

    /** Every stored history holds at most `maxAttempts` timestamps. */
    predicate Bounded(maxAttempts: int)
      reads this
    {
      forall k :: k in attempts ==> |attempts[k]| <= maxAttempts
    }

    /** The history of `key` (`this.attempts.get(key) || []`). */
    function History(key: string): seq<int>
      reads this
    {
      Get(attempts, key).GetOr([])
    }

    constructor ()
      ensures attempts == map[]
    {
      attempts := map[];
    }

    /**
     * `isRateLimited`: limited exactly when the recent attempts already reach
     * `maxAttempts`, and then nothing is stored; otherwise the recent attempts
     * plus this one become the key's history. Other keys are untouched.
     */
    method IsRateLimited(key: string, maxAttempts: int, windowMs: int, now: int) returns (limited: bool)
      modifies this
      ensures var recent := Recent(old(History(key)), now, windowMs);
        && (limited <==> |recent| >= maxAttempts)
        && (limited ==> attempts == old(attempts))
        && (!limited ==> attempts == old(attempts)[key := recent + [now]])
      ensures !limited ==> |attempts[key]| <= maxAttempts
      ensures History(key) == Step(Run(old(History(key)), []), now, maxAttempts, windowMs).history
      ensures forall k :: k != key ==> (k in attempts <==> k in old(attempts))
      ensures forall k :: k != key && k in attempts ==> attempts[k] == old(attempts)[k]
      ensures old(Bounded(maxAttempts)) ==> Bounded(maxAttempts)
    {
      var history := History(key);
      var recentAttempts := Recent(history, now, windowMs);
      if |recentAttempts| >= maxAttempts {
        return true;
      }
      recentAttempts := recentAttempts + [now];
      attempts := attempts[key := recentAttempts];
      limited := false;
    }

    /** `clear`: the key's history is dropped, so its next call is allowed (for a limit of at least 1). */
    method Clear(key: string)
      modifies this
      ensures attempts == old(attempts) - {key}
      ensures History(key) == []
      ensures forall now, windowMs :: |Recent(History(key), now, windowMs)| == 0
      ensures old(Bounded(DefaultMaxAttempts)) ==> Bounded(DefaultMaxAttempts)
    {
      attempts := attempts - {key};
    }
  }

  // ------------------------------------------------------------ windows

  /** The outcome of calling the limiter once per timestamp on one key. */
  datatype Run = Run(history: seq<int>, accepted: seq<int>)

  /** One call at `now`: refused, or stored and accepted. */
  function Step(r: Run, now: int, maxAttempts: int, windowMs: int): Run
  {
    var recent := Recent(r.history, now, windowMs);
    if |recent| >= maxAttempts then r
    else Run(recent + [now], r.accepted + [now])
  }

  /** The key's history and the accepted timestamps after a sequence of calls. */
  function RunCalls(times: seq<int>, maxAttempts: int, windowMs: int): Run
    decreases |times|
  {
    if times == [] then Run([], [])
    else Step(RunCalls(times[..|times| - 1], maxAttempts, windowMs), times[|times| - 1], maxAttempts, windowMs)
  }

  predicate NonDecreasing(s: seq<int>)
  {
    forall i, j :: 0 <= i < j < |s| ==> s[i] <= s[j]
  }

  function Last(s: seq<int>): int
    requires s != []
  {
    s[|s| - 1]
  }

  /** Every accepted call saw fewer than `maxAttempts` accepted calls in the window behind it. */
  predicate SlidingOk(accepted: seq<int>, maxAttempts: int, windowMs: int)
  {
    forall k :: 0 <= k < |accepted| ==> |Filter(accepted[..k], Before(accepted[k], windowMs))| < maxAttempts
  }

  /** `from <= t < from + windowMs`. */
  function Window(from: int, windowMs: int): int -> bool
  {
    (t: int) => from <= t < from + windowMs
  }

  /** The stored history is exactly the accepted calls inside the window of the last accepted one. */
  predicate HistoryExact(r: Run, windowMs: int)
  {
    && (r.accepted == [] ==> r.history == [])
    && (r.accepted != [] ==> r.history == Filter(r.accepted, Before(Last(r.accepted), windowMs)))
  }

  /** Under an exact history, the recent attempts at a later `now` are the accepted calls in `now`'s window. */
  lemma RecentOfExact(r: Run, now: int, windowMs: int)
    requires HistoryExact(r, windowMs)
    requires forall i :: 0 <= i < |r.accepted| ==> r.accepted[i] <= now
    ensures Recent(r.history, now, windowMs) == Filter(r.accepted, Before(now, windowMs))
  {
    if r.accepted != [] {
      FilterFilter(r.accepted, Before(Last(r.accepted), windowMs), Before(now, windowMs));
    }
  }

  /** An accepted call keeps the history exact. */
  lemma AcceptKeepsHistoryExact(r: Run, now: int, windowMs: int)
    requires windowMs > 0 && HistoryExact(r, windowMs)
    requires forall i :: 0 <= i < |r.accepted| ==> r.accepted[i] <= now
    ensures HistoryExact(Run(Recent(r.history, now, windowMs) + [now], r.accepted + [now]), windowMs)
  {
    RecentOfExact(r, now, windowMs);
    FilterSnoc(r.accepted, now, Before(now, windowMs));
    assert Last(r.accepted + [now]) == now;
  }

  /** An accepted call that saw fewer than `maxAttempts` calls in its window keeps every call within its limit. */
  lemma AcceptKeepsSlidingOk(a: seq<int>, now: int, maxAttempts: int, windowMs: int)
    requires SlidingOk(a, maxAttempts, windowMs)
    requires |Filter(a, Before(now, windowMs))| < maxAttempts
    ensures SlidingOk(a + [now], maxAttempts, windowMs)
  {
    var a' := a + [now];
    forall k | 0 <= k < |a'|
      ensures |Filter(a'[..k], Before(a'[k], windowMs))| < maxAttempts
    {
      if k < |a| {
        assert a'[..k] == a[..k];
        assert a'[k] == a[k];
      } else {
        assert a'[..k] == a;
      }
    }
  }

  /** What a run keeps: an exact history, an ordered run, every call within its limit, nothing after `bound`. */
  predicate RunInv(r: Run, maxAttempts: int, windowMs: int, bound: int)
  {
    && HistoryExact(r, windowMs)
    && NonDecreasing(r.accepted)
    && SlidingOk(r.accepted, maxAttempts, windowMs)
    && (forall i :: 0 <= i < |r.accepted| ==> r.accepted[i] <= bound)
  }

  /** Appending a call no earlier than every accepted one keeps the run ordered. */
  lemma AcceptKeepsOrder(a: seq<int>, now: int, bound: int)
    requires NonDecreasing(a) && bound <= now
    requires forall i :: 0 <= i < |a| ==> a[i] <= bound
    ensures NonDecreasing(a + [now])
    ensures forall i :: 0 <= i < |a + [now]| ==> (a + [now])[i] <= now
  {
  }

  lemma StepKeepsRunInv(r: Run, now: int, maxAttempts: int, windowMs: int, bound: int)
    requires windowMs > 0 && bound <= now
    requires RunInv(r, maxAttempts, windowMs, bound)
    ensures RunInv(Step(r, now, maxAttempts, windowMs), maxAttempts, windowMs, now)
  {
    var recent := Recent(r.history, now, windowMs);
    if |recent| < maxAttempts {
      var next := Run(recent + [now], r.accepted + [now]);
      assert Step(r, now, maxAttempts, windowMs) == next;
      RecentOfExact(r, now, windowMs);
      AcceptKeepsHistoryExact(r, now, windowMs);
      AcceptKeepsSlidingOk(r.accepted, now, maxAttempts, windowMs);
      AcceptKeepsOrder(r.accepted, now, bound);
    } else {
      assert Step(r, now, maxAttempts, windowMs) == r;
    }
  }

  /**
   * With a non-decreasing clock, the stored history is exactly the accepted
   * calls still inside the window of the last accepted one, and every accepted
   * call had fewer than `maxAttempts` accepted calls in its window.
   */
  lemma {:induction false} RunInvariant(times: seq<int>, maxAttempts: int, windowMs: int)
    requires NonDecreasing(times) && windowMs > 0 && times != []
    ensures RunInv(RunCalls(times, maxAttempts, windowMs), maxAttempts, windowMs, Last(times))
    decreases |times|
  {
    var init := times[..|times| - 1];
    var now := times[|times| - 1];
    if init == [] {
      StepKeepsRunInv(Run([], []), now, maxAttempts, windowMs, now);
    } else {
      assert NonDecreasing(init);
      RunInvariant(init, maxAttempts, windowMs);
      StepKeepsRunInv(RunCalls(init, maxAttempts, windowMs), now, maxAttempts, windowMs, Last(init));
    }
  }

  /** Dropping the last call keeps both properties of a run. */
  lemma DropLast(a: seq<int>, maxAttempts: int, windowMs: int)
    requires a != [] && NonDecreasing(a) && SlidingOk(a, maxAttempts, windowMs)
    ensures NonDecreasing(a[..|a| - 1]) && SlidingOk(a[..|a| - 1], maxAttempts, windowMs)
  {
    var b := a[..|a| - 1];
    forall k | 0 <= k < |b| ensures |Filter(b[..k], Before(b[k], windowMs))| < maxAttempts {
      assert b[..k] == a[..k];
      assert b[k] == a[k];
    }
  }

  /** Calls inside a window that ends after `x`, and none later than `x`, are inside `x`'s window. */
  lemma WindowWithinBefore(b: seq<int>, x: int, from: int, windowMs: int)
    requires forall i :: 0 <= i < |b| ==> b[i] <= x
    requires x < from + windowMs
    ensures |Filter(b, Window(from, windowMs))| <= |Filter(b, Before(x, windowMs))|
  {
    FilterLengthMonotone(b, Window(from, windowMs), Before(x, windowMs));
  }

  /** A non-decreasing sliding-ok run has at most `maxAttempts` calls in any window. */
  lemma {:induction false} SlidingWindowCount(a: seq<int>, maxAttempts: int, windowMs: int, from: int)
    requires NonDecreasing(a) && SlidingOk(a, maxAttempts, windowMs) && maxAttempts >= 0
    ensures |Filter(a, Window(from, windowMs))| <= maxAttempts
    decreases |a|
  {
    if a != [] {
      var k := |a| - 1;
      var b := a[..k];
      var x := a[k];
      assert a == b + [x];
      FilterSnoc(b, x, Window(from, windowMs));
      if from <= x < from + windowMs {
        assert forall i :: 0 <= i < |b| ==> b[i] <= x by {
          forall i | 0 <= i < |b| ensures b[i] <= x {
            assert a[i] <= a[k];
          }
        }
        WindowWithinBefore(b, x, from, windowMs);
        assert |Filter(a[..k], Before(a[k], windowMs))| < maxAttempts;
      } else {
        DropLast(a, maxAttempts, windowMs);
        SlidingWindowCount(b, maxAttempts, windowMs, from);
      }
    }
  }

  /**
   * The limiter's promise: whatever the calls, as long as the clock does not
   * go backwards, no window of `windowMs` milliseconds holds more than
   * `maxAttempts` allowed calls on one key.
   */
  lemma WindowBound(times: seq<int>, maxAttempts: int, windowMs: int, from: int)
    requires NonDecreasing(times) && windowMs > 0 && maxAttempts >= 0
    ensures |Filter(RunCalls(times, maxAttempts, windowMs).accepted, Window(from, windowMs))| <= maxAttempts
  {
    if times != [] {
      RunInvariant(times, maxAttempts, windowMs);
    }
    SlidingWindowCount(RunCalls(times, maxAttempts, windowMs).accepted, maxAttempts, windowMs, from);
  }
}
