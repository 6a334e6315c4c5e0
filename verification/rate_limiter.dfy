/** The `RateLimiter` class of lib/rate_limiter.js, with the clock made
    explicit. A call of `throttle` reads `Date.now()` twice: once to compute
    the delay and once to recompute the charged token's readiness; the two
    readings are the `before` and `after` fields of a `Clock`. */
module RateLimiter {
  import opened Results
  import opened TokenRing

  /** Slack added to every readiness time to absorb timer jitter. */
  const GraceMs := 50

  const MsPerSecond := 1000

  /** How far one use of a token pushes that token's readiness past the
      instant the use was scheduled for. */
  function Window(period: int): (w: int)
    ensures period >= 1 ==> w > MsPerSecond
  {
    period * MsPerSecond + GraceMs
  }

  /** A constructor argument. A JavaScript value of type number is given by
      the integer `parseInt(·, 10)` makes of it (the source truncates with
      `parseInt`). `NaN` and `Infinity` also have type number, and `parseInt`
      turns them into `NaN`, which no `< 1` test rejects; those values are not
      represented here. */
  datatype Arg = Number(truncated: int) | NotNumber

  datatype Error = TypeError | RangeError

  /** The throttle: `max` tokens in a ring, `period` seconds per window, and
      `cursor` designating the token the next call is charged to. */
  datatype Limiter = Limiter(max: int, period: int, tokens: seq<Token>, cursor: nat)

  /** What construction establishes and every call keeps. */
  ghost predicate Valid(s: Limiter)
  {
    && s.max >= 1
    && s.period >= 1
    && |s.tokens| == s.max
    && s.cursor < s.max
    && IsRing(s.tokens)
  }

  /** The state right after construction at time `t0`. */
  ghost predicate Fresh(s: Limiter, t0: int)
  {
    && s.cursor == 0
    && forall i :: 0 <= i < |s.tokens| ==> s.tokens[i].readyAt == t0
  }

  /** `new RateLimiter(throttleMax, throttlePeriod)` at time `now`. */
  method New(throttleMax: Arg, throttlePeriod: Arg, now: int) returns (r: Result<Limiter, Error>)
    ensures r == Failure(TypeError) <==> !throttleMax.Number? || !throttlePeriod.Number?
    ensures r == Failure(RangeError) <==>
      && throttleMax.Number? && throttlePeriod.Number?
      && (throttleMax.truncated < 1 || throttlePeriod.truncated < 1)
    ensures r.Success? ==>
      && Valid(r.value) && Fresh(r.value, now)
      && r.value.max == throttleMax.truncated
      && r.value.period == throttlePeriod.truncated
  {
    if !throttleMax.Number? || !throttlePeriod.Number? {
      return Failure(TypeError);
    }
    var max, period := throttleMax.truncated, throttlePeriod.truncated;
    if max < 1 || period < 1 {
      return Failure(RangeError);
    }
    var tokens, first := Ring(max, now);
    r := Success(Limiter(max, period, tokens, first));
  }

  /** `Math.max(0, readyAt - now)`: the shortest wait after `now` that
      reaches `readyAt`. */
  function Delay(readyAt: int, now: int): (d: int)
    ensures d >= 0 && now + d >= readyAt
    ensures d == 0 || now + d == readyAt
  {
    if readyAt - now > 0 then readyAt - now else 0
  }

  /** Lines 57-58: push the current token's readiness to
      `now + delay + 50 + period * 1000` and follow its `next` link. */
  function Charge(s: Limiter, now: int, delay: int): (s': Limiter)
    requires Valid(s)
    ensures Valid(s') && s'.max == s.max && s'.period == s.period
    ensures s'.cursor == Next(s.max, s.cursor)
    ensures |s'.tokens| == |s.tokens|
    ensures s'.tokens[s.cursor].readyAt == now + delay + Window(s.period)
    ensures forall i :: 0 <= i < |s.tokens| && i != s.cursor ==> s'.tokens[i] == s.tokens[i]
  {
    var token := s.tokens[s.cursor];
    var charged := token.(readyAt := now + delay + GraceMs + s.period * MsPerSecond);
    s.(tokens := s.tokens[s.cursor := charged], cursor := token.next.value)
  }

  /** Node's `setTimeout` cannot wait longer than this many milliseconds. */
  const MaxTimerDelay := 2147483647

  /** The wait after which Node's `setTimeout(wrap, d)` runs `wrap`: a delay
      above `MaxTimerDelay` (or below 1) is replaced by 1 ms, with a
      TimeoutOverflowWarning. */
  function TimerDelay(d: int): (t: int)
    ensures 1 <= t <= MaxTimerDelay
    ensures t == d <==> 1 <= d <= MaxTimerDelay
    ensures !(1 <= d <= MaxTimerDelay) ==> t == 1
  {
    if d < 1 || d > MaxTimerDelay then 1 else d
  }

  /** The sum of a sequence of waits. */
  function Total(waits: seq<int>): int
  {
    if |waits| == 0 then 0 else waits[0] + Total(waits[1..])
  }

  /** The corrected wait for a delay of `d` ms: one timer after another,
      each within `setTimeout`'s limit, so that together they wait exactly
      the delay the token's bookkeeping charges for. */
  function ChainedWait(d: int): (waits: seq<int>)
    ensures forall i :: 0 <= i < |waits| ==> TimerDelay(waits[i]) == waits[i]
    ensures Total(waits) == if d > 0 then d else 0
    decreases d
  {
    if d <= 0 then []
    else if d <= MaxTimerDelay then [d]
    else
      var rest := ChainedWait(d - MaxTimerDelay);
      assert ([MaxTimerDelay] + rest)[1..] == rest;
      [MaxTimerDelay] + rest
  }

  /** The limiter state one `throttle` call under the clock readings `c`
      leaves behind: line 50 computes the delay, lines 57-58 charge it. */
  function Commit(s: Limiter, c: Clock): (s': Limiter)
    requires Valid(s)
    ensures Valid(s') && s'.max == s.max && s'.period == s.period
    ensures s'.cursor == Next(s.max, s.cursor)
  {
    Charge(s, c.after, Delay(s.tokens[s.cursor].readyAt, c.before))
  }

  /** The scheduling decision of one `throttle` call: how long `f` waits,
      which token pays for it, the instant `f` is due to start (`start`,
      what the token bookkeeping charges for, reached by the chained wait),
      the instant Node's single `setTimeout` of line 53 actually runs it
      (`fired`), and the limiter state the call leaves behind. */
  datatype Grant = Grant(delay: int, slot: nat, start: int, fired: int, next: Limiter)

  /** Lines 50-58 of `throttle` under the clock readings `c`. */
  function Schedule(s: Limiter, c: Clock): (g: Grant)
    requires Valid(s)
    ensures g.slot == s.cursor
    ensures g.delay >= 0 && g.start == c.before + g.delay
    ensures g.start >= c.before && g.start >= s.tokens[s.cursor].readyAt
    ensures g.delay == 0 <==> s.tokens[s.cursor].readyAt <= c.before
    ensures g.delay > 0 ==> g.start == s.tokens[s.cursor].readyAt
    ensures c.before <= g.fired <= g.start
    ensures g.fired == g.start <==> g.delay <= MaxTimerDelay
    ensures g.delay > MaxTimerDelay ==> g.fired == c.before + 1
    ensures Valid(g.next) && g.next.max == s.max && g.next.period == s.period
    ensures g.next.cursor == Next(s.max, s.cursor)
    ensures forall i :: 0 <= i < |s.tokens| && i != s.cursor ==> g.next.tokens[i] == s.tokens[i]
    ensures g.next.tokens[s.cursor].readyAt == c.after + g.delay + Window(s.period)
    ensures c.before <= c.after ==>
      g.next.tokens[s.cursor].readyAt >= g.start + Window(s.period) >= s.tokens[s.cursor].readyAt + Window(s.period)
  {
    var delay := Delay(s.tokens[s.cursor].readyAt, c.before);
    var fired := if delay > 0 then c.before + TimerDelay(delay) else c.before;
    Grant(delay, s.cursor, c.before + Total(ChainedWait(delay)), fired, Commit(s, c))
  }

  /** The two `Date.now()` readings of one call, at line 50 and line 57. */
  datatype Clock = Clock(before: int, after: int)

  /** The clock did not run backwards between the two readings. */
  predicate Forward(c: Clock)
  {
    c.before <= c.after
  }

  /** What `f` does when `wrap` invokes it: returns a value or throws. A
      returned promise is one more value here; `resolve` adopts it, and how
      that promise itself settles is not modelled. This is an input of
      `Throttle`, kept apart from `Settlement` (its output) and from
      `Results.Result` (what a constructor builds) so that each contract
      names the side it speaks of. */
  datatype Outcome<+T, +E> = Returns(value: T) | Throws(error: E)

  /** How the promise returned by `throttle` settles: resolved with the
      value `f` returned (for a returned promise, resolved with that promise,
      whose own outcome is not modelled), or rejected with what `f` threw. */
  datatype Settlement<+T, +E> = Resolved(value: T) | Rejected(reason: E)

  /** One `throttle(f)` call: the scheduling decision, whether `wrap` ran
      inside the call (delay zero) or was handed to `setTimeout`, and the
      settlement of the returned promise. */
  datatype Reply<+T, +E> = Reply(grant: Grant, immediate: bool, settlement: Settlement<T, E>)

  function Throttle<T, E>(s: Limiter, c: Clock, f: Outcome<T, E>): (r: Reply<T, E>)
    requires Valid(s)
    ensures r.grant == Schedule(s, c)
    ensures r.immediate <==> s.tokens[s.cursor].readyAt <= c.before
    ensures r.settlement.Resolved? <==> f.Returns?
    ensures f.Returns? ==> r.settlement.value == f.value
    ensures f.Throws? ==> r.settlement.reason == f.error
    ensures r.grant.slot == s.cursor && r.grant.next.cursor == Next(s.max, s.cursor)
  {
    var g := Schedule(s, c);
    var settlement := match f
      case Returns(v) => Resolved(v)
      case Throws(e) => Rejected(e);
    Reply(g, g.delay == 0, settlement)
  }

  /** The bookkeeping of a call does not depend on whether `f` throws: the
      exception is caught inside `wrap`, and lines 57-58 run either way. */
  lemma FailureIsolation<T, E>(s: Limiter, c: Clock, f1: Outcome<T, E>, f2: Outcome<T, E>)
    requires Valid(s)
    ensures Throttle(s, c, f1).grant == Throttle(s, c, f2).grant
    ensures Throttle(s, c, f1).immediate == Throttle(s, c, f2).immediate
  {
  }
}
