/** Sequences of `throttle` calls on one limiter, and the promise made in
    the doc comment of lib/rate_limiter.js: no more than `throttleMax`
    operations start within any `throttlePeriod`-second window. */
module Schedules {
  import opened TokenRing
  import opened RateLimiter
  import ModArith
  import Counting

  /** The token call `k` is charged to: `k` steps round the ring from the
      starting cursor. */
  function SlotOf(s: Limiter, k: nat): (i: nat)
    requires Valid(s)
    ensures i < s.max
    decreases k
  {
    if k == 0 then s.cursor else Next(s.max, SlotOf(s, k - 1))
  }

  /** The limiter after the first `m` of the calls `calls`, made one after
      another. */
  function Run(s: Limiter, calls: seq<Clock>, m: nat): (r: Limiter)
    requires Valid(s) && m <= |calls|
    ensures Valid(r) && r.max == s.max && r.period == s.period
    ensures r.cursor == SlotOf(s, m)
    decreases m
  {
    if m == 0 then s else Commit(Run(s, calls, m - 1), calls[m - 1])
  }

  /** The scheduling decision of call `k` (counting from 0). */
  function GrantAt(s: Limiter, calls: seq<Clock>, k: nat): Grant
    requires Valid(s) && k < |calls|
  {
    Schedule(Run(s, calls, k), calls[k])
  }

  /** The instant the operation of call `k` is due: `before + delay`. */
  function StartAt(s: Limiter, calls: seq<Clock>, k: nat): int
    requires Valid(s) && k < |calls|
  {
    GrantAt(s, calls, k).start
  }

  /** The instant Node's `setTimeout` runs the operation of call `k`. */
  function FiredAt(s: Limiter, calls: seq<Clock>, k: nat): int
    requires Valid(s) && k < |calls|
  {
    GrantAt(s, calls, k).fired
  }

  /** No call's delay exceeds what `setTimeout` can wait. */
  ghost predicate WithinTimerLimit(s: Limiter, calls: seq<Clock>)
    requires Valid(s)
  {
    forall k :: 0 <= k < |calls| ==> GrantAt(s, calls, k).delay <= MaxTimerDelay
  }

  /** Every call took its two clock readings in order. */
  ghost predicate AllForward(calls: seq<Clock>)
  {
    forall k :: 0 <= k < |calls| ==> Forward(calls[k])
  }

  /** Round-robin: call `k` is charged to the token `k` places after the
      starting cursor, so on a new limiter to token `k mod throttleMax`. */
  lemma RoundRobin(s: Limiter, calls: seq<Clock>, k: nat)
    requires Valid(s) && k < |calls|
    ensures GrantAt(s, calls, k).slot == (s.cursor + k) % s.max
    ensures s.cursor == 0 ==> GrantAt(s, calls, k).slot == k % s.max
  {
    SlotShift(s, k);
  }

  /** Stepping `k` times round the ring is adding `k` modulo its size. */
  lemma {:induction false} SlotShift(s: Limiter, k: nat)
    requires Valid(s)
    ensures SlotOf(s, k) == (s.cursor + k) % s.max
    decreases k
  {
    if k == 0 {
      ModArith.Unique(s.cursor, 0, s.cursor, s.max);
    } else {
      SlotShift(s, k - 1);
      NextIsSucc(s.max, SlotOf(s, k - 1));
      ModArith.ReduceLeft(s.cursor + k - 1, 1, s.max);
    }
  }

  /** How many steps round a ring of `n` tokens lead from token `a` to
      token `i`. */
  function Ahead(n: int, a: int, i: int): int
  {
    if a <= i then i - a else i - a + n
  }

  /** Fewer than `throttleMax` calls after call `k`, the cursor is exactly
      that many steps ahead of call `k`'s token. */
  lemma {:induction false} SlotAhead(s: Limiter, k: nat, d: nat)
    requires Valid(s) && d < s.max
    ensures Ahead(s.max, SlotOf(s, k), SlotOf(s, k + d)) == d
    decreases d
  {
    if d > 0 {
      SlotAhead(s, k, d - 1);
      assert SlotOf(s, k + d) == Next(s.max, SlotOf(s, k + d - 1));
    }
  }

  /** A token that the calls `k .. m-1` do not reach keeps its state: they
      use the `m - k` tokens from call `k`'s onwards. */
  lemma {:induction false} Untouched(s: Limiter, calls: seq<Clock>, k: nat, m: nat, i: nat)
    requires Valid(s) && k <= m <= |calls| && i < s.max
    requires m - k <= Ahead(s.max, SlotOf(s, k), i)
    ensures Run(s, calls, m).tokens[i] == Run(s, calls, k).tokens[i]
    decreases m
  {
    if m > k {
      Untouched(s, calls, k, m - 1, i);
      Misses(s, k, m - 1, i);
      Step(s, calls, m, i);
    }
  }

  /** Call `j` does not reach a token more than `j - k` steps ahead of call
      `k`'s. */
  lemma Misses(s: Limiter, k: nat, j: nat, i: nat)
    requires Valid(s) && k <= j && i < s.max && j - k < Ahead(s.max, SlotOf(s, k), i)
    ensures SlotOf(s, j) != i
  {
    SlotAhead(s, k, j - k);
  }

  /** A call leaves every token but its own as it was. */
  lemma Step(s: Limiter, calls: seq<Clock>, m: nat, i: nat)
    requires Valid(s) && 0 < m <= |calls| && i < s.max && SlotOf(s, m - 1) != i
    ensures Run(s, calls, m).tokens[i] == Run(s, calls, m - 1).tokens[i]
  {
  }

  /** `throttleMax` calls after call `j - throttleMax` the cursor is back on
      that call's token. */
  lemma SlotPeriod(s: Limiter, j: nat)
    requires Valid(s) && s.max <= j
    ensures SlotOf(s, j) == SlotOf(s, j - s.max)
  {
    SlotAhead(s, j - s.max, s.max - 1);
    assert SlotOf(s, j) == Next(s.max, SlotOf(s, j - 1));
  }

  /** Call `j` comes back to the token of call `j - throttleMax`, which no
      call in between has touched. */
  lemma Return(s: Limiter, calls: seq<Clock>, j: nat)
    requires Valid(s) && s.max <= j < |calls|
    ensures Run(s, calls, j).cursor == SlotOf(s, j - s.max)
    ensures Run(s, calls, j).tokens[SlotOf(s, j - s.max)] == Run(s, calls, j - s.max + 1).tokens[SlotOf(s, j - s.max)]
  {
    var k := j - s.max;
    SlotPeriod(s, j);
    assert SlotOf(s, k + 1) == Next(s.max, SlotOf(s, k));
    Untouched(s, calls, k + 1, j, SlotOf(s, k));
  }

  /** The operation charged to a token is due at least one window after the
      previous operation charged to the same token was due, and Node runs it
      at least that late unless its delay overflows `setTimeout`. */
  lemma Gap(s: Limiter, calls: seq<Clock>, j: nat)
    requires Valid(s) && s.max <= j < |calls|
    requires Forward(calls[j - s.max])
    ensures StartAt(s, calls, j) >= StartAt(s, calls, j - s.max) + Window(s.period)
    ensures GrantAt(s, calls, j).delay <= MaxTimerDelay ==>
      FiredAt(s, calls, j) >= FiredAt(s, calls, j - s.max) + Window(s.period)
  {
    var k := j - s.max;
    var i := SlotOf(s, k);
    var due := StartAt(s, calls, k) + Window(s.period);
    assert Run(s, calls, k + 1).tokens[i].readyAt >= due;
    Return(s, calls, j);
    var later := Run(s, calls, j);
    assert later.tokens[later.cursor].readyAt >= due;
  }

  /** Calls whose indices agree modulo `throttleMax` use the same token, so
      they are due at least one window apart. */
  lemma {:induction false} SameSlotDue(s: Limiter, calls: seq<Clock>, i: nat, j: nat)
    requires Valid(s) && i < j < |calls| && AllForward(calls)
    requires i % s.max == j % s.max
    ensures StartAt(s, calls, j) >= StartAt(s, calls, i) + Window(s.period)
    decreases j - i
  {
    var n := s.max;
    if j < i + n {
      ModArith.Distinct(i, j, n);
      assert false;
    }
    var k := j - n;
    Gap(s, calls, j);
    if k > i {
      ModArith.Period(k, n);
      SameSlotDue(s, calls, i, k);
    } else {
      assert k == i;
    }
  }

  /** Calls whose indices agree modulo `throttleMax` are due at least one
      window apart, and run at least one window apart unless the later
      one's delay overflows `setTimeout`. */
  lemma SameSlotGap(s: Limiter, calls: seq<Clock>, i: nat, j: nat)
    requires Valid(s) && i < j < |calls| && AllForward(calls)
    requires i % s.max == j % s.max
    ensures StartAt(s, calls, j) >= StartAt(s, calls, i) + Window(s.period)
    ensures GrantAt(s, calls, j).delay <= MaxTimerDelay ==>
      FiredAt(s, calls, j) >= FiredAt(s, calls, i) + Window(s.period)
  {
    SameSlotDue(s, calls, i, j);
    assert FiredAt(s, calls, i) <= StartAt(s, calls, i);
  }

  /** The calls whose operations are due within `[a, a + span)`. */
  ghost function StartsWithin(s: Limiter, calls: seq<Clock>, a: int, span: int): set<int>
    requires Valid(s)
  {
    set k | 0 <= k < |calls| && a <= StartAt(s, calls, k) < a + span
  }

  /** The calls whose operations Node runs within `[a, a + span)`. */
  ghost function FiredWithin(s: Limiter, calls: seq<Clock>, a: int, span: int): set<int>
    requires Valid(s)
  {
    set k | 0 <= k < |calls| && a <= FiredAt(s, calls, k) < a + span
  }

  /** The rate guarantee: for any instant `a`, at most `throttleMax`
      operations are due within `[a, a + span)` for any span up to
      `throttlePeriod * 1000 + 50` ms; and as long as no delay overflows
      `setTimeout`, at most `throttleMax` operations run within it. */
  lemma WindowBound(s: Limiter, calls: seq<Clock>, a: int, span: int)
    requires Valid(s) && AllForward(calls)
    requires span <= Window(s.period)
    ensures |StartsWithin(s, calls, a, span)| <= s.max
    ensures WithinTimerLimit(s, calls) ==> |FiredWithin(s, calls, a, span)| <= s.max
  {
    var S := StartsWithin(s, calls, a, span);
    forall i, j | i in S && j in S && i != j
      ensures i % s.max != j % s.max
    {
      if i % s.max == j % s.max {
        if i < j {
          SameSlotGap(s, calls, i, j);
        } else {
          SameSlotGap(s, calls, j, i);
        }
      }
    }
    Counting.Pigeonhole(S, |calls|, s.max);
    if WithinTimerLimit(s, calls) {
      var F := FiredWithin(s, calls, a, span);
      forall i, j | i in F && j in F && i != j
        ensures i % s.max != j % s.max
      {
        if i % s.max == j % s.max {
          if i < j {
            SameSlotGap(s, calls, i, j);
          } else {
            SameSlotGap(s, calls, j, i);
          }
        }
      }
      Counting.Pigeonhole(F, |calls|, s.max);
    }
  }

  /** The rate guarantee for the window the doc comment names. */
  lemma PeriodBound(s: Limiter, calls: seq<Clock>, a: int)
    requires Valid(s) && AllForward(calls)
    ensures |StartsWithin(s, calls, a, s.period * MsPerSecond)| <= s.max
    ensures WithinTimerLimit(s, calls) ==> |FiredWithin(s, calls, a, s.period * MsPerSecond)| <= s.max
  {
    WindowBound(s, calls, a, s.period * MsPerSecond);
  }

  /** No initial wait: on a limiter created at `t0`, each of the first
      `throttleMax` calls made at or after `t0` runs its operation at once. */
  lemma NoInitialWait(s: Limiter, t0: int, calls: seq<Clock>, k: nat)
    requires Valid(s) && Fresh(s, t0)
    requires k < s.max && k < |calls|
    requires calls[k].before >= t0
    ensures GrantAt(s, calls, k).delay == 0
    ensures StartAt(s, calls, k) == calls[k].before == FiredAt(s, calls, k)
  {
    Untouched(s, calls, 0, k, k);
    SlotAhead(s, 0, k);
  }

  /** Bursting is not allowed: when `throttleMax + 1` calls arrive at the
      creation instant `t0`, the last of them is due a whole window later,
      and Node runs it then unless that wait overflows `setTimeout`. */
  lemma BurstWaits(s: Limiter, t0: int, calls: seq<Clock>)
    requires Valid(s) && Fresh(s, t0)
    requires |calls| > s.max
    requires forall k :: 0 <= k <= s.max ==> calls[k] == Clock(t0, t0)
    ensures GrantAt(s, calls, s.max).delay == Window(s.period)
    ensures StartAt(s, calls, s.max) == t0 + Window(s.period)
    ensures FiredAt(s, calls, s.max) == t0 + TimerDelay(Window(s.period))
  {
    var n := s.max;
    NoInitialWait(s, t0, calls, 0);
    Untouched(s, calls, 1, n, 0);
    SlotPeriod(s, n);
  }

  /** With a period of 2147484 seconds or more the window exceeds what
      `setTimeout` can wait, so the source's second call on a one-token
      limiter runs 1 ms after the first: two operations in one period. */
  lemma LongPeriodFiresEarly(s: Limiter, t0: int, calls: seq<Clock>)
    requires Valid(s) && Fresh(s, t0) && s.max == 1
    requires Window(s.period) > MaxTimerDelay
    requires calls == [Clock(t0, t0), Clock(t0, t0)]
    ensures FiredAt(s, calls, 0) == t0 && FiredAt(s, calls, 1) == t0 + 1
    ensures FiredWithin(s, calls, t0, s.period * MsPerSecond) == {0, 1}
    ensures |FiredWithin(s, calls, t0, s.period * MsPerSecond)| > s.max
  {
    NoInitialWait(s, t0, calls, 0);
    BurstWaits(s, t0, calls);
    var F := FiredWithin(s, calls, t0, s.period * MsPerSecond);
    assert 0 in F && 1 in F;
    assert F == {0, 1};
  }
}
