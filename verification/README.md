# RateLimiter: a Dafny model of a client-side throttle

The repository's rate limiter (`lib/rate_limiter.js`) promises that no more
than `throttleMax` operations start within any `throttlePeriod`-second
window, that the first `throttleMax` operations start at once, and that
bursting beyond the limit is not possible. It keeps a ring of `throttleMax`
tokens. Each token records `readyAt`, the earliest instant (ms since the
epoch) at which it may pay for another operation, and a cursor designates the
token the next call will use. `throttle(f)` computes
`delay = max(0, readyAt - now)` and runs `f` at once or after `delay` ms. It
then pushes the token's `readyAt` to `now + delay + 50 + period * 1000` and
moves the cursor along the ring.

The model is functional:

- `results.dfy` holds `Option` (a `null` link) and `Result` (the object a
  constructor builds or the error it throws).
- `token_ring.dfy` holds the `Token` class. The linked ring is a sequence of
  tokens whose `next` links are indices. `Token.ring` is a method with the
  source's loop, and lemmas show that the links form one cycle of
  `throttleMax` tokens.
- `rate_limiter.dfy` holds the `RateLimiter` class. `New` is the constructor
  with its argument checks. `Schedule` is lines 50-58 of `throttle` as a
  pure step. `Throttle` adds the settlement of the returned promise.
- `schedules.dfy` holds runs of calls. It proves round-robin charging, no
  initial wait, no burst, the one-window gap between uses of a token, and the
  window bound.
- `reentrancy.dfy` holds the finding below.
- `mod_arith.dfy` and `counting.dfy` are helper lemmas about remainders and a
  pigeonhole count.

The clock is explicit. One `throttle` call reads `Date.now()` twice: at
line 50 for the delay and at line 57 for the new readiness. The model passes
both readings as a `Clock(before, after)`. The rate guarantee needs only
`before <= after` within each call (`Forward`). It does not need the calls
themselves to come at non-decreasing times.

Each operation has two instants. It is due at `before + delay`, which is the
instant the token bookkeeping charges for. It runs (`fired`) when Node's
`setTimeout(wrap, delay)` at line 53 calls `wrap`. The two agree unless the
delay exceeds 2147483647 ms, the most `setTimeout` can wait; Node then runs
the callback after 1 ms. The model proves the bounds for due instants with no
further condition. For the instants Node runs operations, it proves them
whenever no delay exceeds that limit, and it exhibits the failure when one
does (second finding below).

Because the readings may differ, due instants need not come in call order. The
window bound is therefore proved by counting tokens, not by sorting starts.
Two calls whose indices agree modulo `throttleMax` use the same token, so
they are due at least `period * 1000 + 50` ms apart. A window shorter than that
holds at most one start per token.

## Model

| member | source | states |
|---|---|---|
| `TokenRing.Ring` | lib/rate_limiter.js:64-81 | builds exactly `n` tokens, all ready at the given timestamp, each linked to the next and the last back to the first, and returns the first |
| `TokenRing.FollowShifts` | lib/rate_limiter.js:64-76 | following `next` `k` times from token `i` reaches token `(i + k) mod n` |
| `TokenRing.RingCycle` | lib/rate_limiter.js:64-76 | following `next` `throttleMax` times from any token returns to it, and no shorter walk does: the ring is one cycle through all tokens |
| `RateLimiter.New` | lib/rate_limiter.js:21-38 | a non-number argument gives TypeError; otherwise a truncated value below 1 gives RangeError; otherwise the limiter is built with `throttleMax` tokens all ready at construction time and the cursor on the first token, and no limiter exists on failure |
| `RateLimiter.Delay` | lib/rate_limiter.js:50 | the delay is the shortest non-negative wait after `now` that reaches `readyAt` |
| `RateLimiter.Charge` | lib/rate_limiter.js:57-58 | only the current token changes, its `readyAt` becomes `now + delay + period * 1000 + 50`, and the cursor moves one place round the ring |
| `RateLimiter.TimerDelay` | lib/rate_limiter.js:52-53 | the wait `setTimeout` applies lies in 1 .. 2147483647, equals the requested delay exactly when the delay lies in that range, and is exactly 1 ms otherwise |
| `RateLimiter.ChainedWait` | lib/rate_limiter.js:52-53 | the corrected wait: a chain of timers, each within `setTimeout`'s limit, that together wait exactly the delay |
| `RateLimiter.Schedule` | lib/rate_limiter.js:50-58 | delay is non-negative; the due instant is never before the token's `readyAt` nor before the call; delay is zero exactly when the token is ready; a positive delay is due exactly at `readyAt`; Node runs the operation no later than it is due, exactly then when the delay is at most 2147483647, and 1 ms after the call otherwise; only the current token changes, to `after + delay + period * 1000 + 50`, which with ordered clock readings is at least one window past the due instant |
| `RateLimiter.Throttle` | lib/rate_limiter.js:40-59 | the call's bookkeeping is the `Schedule` step; `f` runs inside the call exactly when the token is ready; the promise is resolved with `f`'s value when `f` returns (a returned promise is adopted, see Left out) and rejects with its exception when it throws |
| `RateLimiter.FailureIsolation` | lib/rate_limiter.js:42-58 | the token update, cursor advance and delay are the same whatever `f` does |
| `Schedules.Run` | lib/rate_limiter.js:57-58 | every call keeps the ring valid and its size fixed, and after the first `m` calls the cursor has moved `m` steps round the ring from where it started |
| `Schedules.SlotShift` | lib/rate_limiter.js:57-58 | following the ring `k` steps from the starting cursor, as `k` calls do, lands on token `(cursor + k) mod throttleMax` |
| `Schedules.RoundRobin` | lib/rate_limiter.js:35-58 | call `k` is charged to the token `k` places after the starting cursor, on a new limiter to token `k mod throttleMax` |
| `Schedules.Untouched` | lib/rate_limiter.js:57 | a token that no call in a stretch of calls is charged to keeps its state through that stretch |
| `Schedules.Gap` | lib/rate_limiter.js:50-58 | call `j` is due at least `period * 1000 + 50` ms after call `j - throttleMax`, whose token it reuses, and runs at least that much later when its delay is within `setTimeout`'s limit |
| `Schedules.SameSlotGap` | lib/rate_limiter.js:50-58 | for calls with ordered clock readings, any two calls charged to the same token are due at least one window apart, and run at least one window apart when the later delay is within `setTimeout`'s limit |
| `Schedules.WindowBound` | lib/rate_limiter.js:4-9 | for calls with ordered clock readings, at most `throttleMax` operations are due within any interval up to `period * 1000 + 50` ms long, and at most `throttleMax` run within it when no delay exceeds `setTimeout`'s limit |
| `Schedules.PeriodBound` | lib/rate_limiter.js:4-9 | the same two bounds for any `throttlePeriod`-second window |
| `Schedules.NoInitialWait` | lib/rate_limiter.js:35-55 | on a new limiter each of the first `throttleMax` calls made at or after construction time has delay zero and runs at its call time |
| `Schedules.BurstWaits` | lib/rate_limiter.js:4-9 | when `throttleMax + 1` calls arrive at construction time, the last is due `period * 1000 + 50` ms later, and Node runs it after the wait `setTimeout` applies to that delay |
| `Schedules.LongPeriodFiresEarly` | lib/rate_limiter.js:50-57 | with one token and a window longer than 2147483647 ms, two calls at construction time run at `t0` and `t0 + 1`: two operations in one period |
| `Reentrancy.NestedAsWritten` | lib/rate_limiter.js:50-58 | a call whose `f` calls `throttle` again, in the source's order: the nested call runs before the outer token is charged |
| `Reentrancy.NestedAsWrittenReusesSlot` | lib/rate_limiter.js:50-58 | as written, the outer and nested operations are charged to the same token and start less than one window apart |
| `Reentrancy.NestedAsWrittenBurst` | lib/rate_limiter.js:4-9 | as written, with one token and a one-second period, two operations start at time 0 |
| `Reentrancy.NestedCommitted` | lib/rate_limiter.js:50-58 | the same nested call with the token charged before `f` runs |
| `Reentrancy.NestedCommittedSpacing` | lib/rate_limiter.js:4-9 | charged first, the nested operation shares the outer's token exactly when `throttleMax` is 1, and then starts at least one window later |
| `Reentrancy.NestedCommittedIsSequential` | lib/rate_limiter.js:50-58 | charged first, an outer call with a nested call is the same as two calls in sequence, so the window bound covers it |

## Left out

- `lib/http.js` is not part of this model. It is a promise wrapper over
  Node's `https` module: network I/O and no state.
- Promises and `setTimeout`: `f` is represented by its outcome (a value, or
  an exception), and a call yields the delay, the due instant, the instant
  Node runs `wrap` and whether the promise is resolved with `f`'s value or
  rejected with its exception. Node's replacement of a delay
  above 2147483647 ms by 1 ms is modelled. A timer that fires later than asked
  because the event loop is busy is not.
- Which of several due timers fires first is event-loop behaviour and is not
  modelled. So invocation order is not stated.
- `Date.now()`: each call's two readings are parameters. The rate guarantee
  assumes the second reading is not earlier than the first; a wall clock
  stepped backwards is not modelled.
- JavaScript number semantics: arguments are modelled as the integers
  `parseInt` yields. `NaN` and `Infinity` have type number, `parseInt` turns
  them into `NaN`, and `NaN < 1` is false. So they pass the range check: a
  `NaN` size makes `Token.ring` fail on an undefined token. With a `NaN`
  period each token's `readyAt` becomes `NaN` at its first use, so every
  later delay is `NaN` and nothing is ever delayed. `parseInt` of numbers
  written in exponent form (`1e21`, `5e-7`) also yields surprising integers.
  None of this is modelled.
- Timestamps and `period * 1000` are unbounded integers. JavaScript numbers
  are exact only up to 2^53, which current timestamps are far below, but
  `period * 1000` at line 57 exceeds it for periods above about 9 * 10^12
  seconds. Rounding at that size is not modelled.
- Gap: the run-time half holds only when the later call has a delay of at
  most 2147483647 ms, because `setTimeout` runs a longer delay after
  1 ms.
- SameSlotGap: the run-time half holds only when the later call's delay is at
  most 2147483647 ms, for the same reason.
- WindowBound: the bound on operations run holds only when no call's delay
  exceeds 2147483647 ms. Long periods or deep queues break it in the source,
  as `Schedules.LongPeriodFiresEarly` shows.
- PeriodBound: the bound on operations run has the same condition as
  `WindowBound`.
- BurstWaits: the last call runs a full window after construction only when
  the window is at most 2147483647 ms; otherwise it runs 1 ms after.
- `TokenRing.Ring` requires `n >= 1`. With a smaller `n` the source fails on
  an undefined token, and the constructor never passes one.
- RateLimiter.Throttle: when `f` returns a promise, `resolve` adopts it, so
  the promise `throttle` returns takes that promise's outcome and rejects if
  it rejects. The model treats the returned promise as a plain value and
  states only that `throttle`'s promise is resolved with it; the later
  outcome of an asynchronous `f` is event-loop behaviour and is not modelled.
- `RateLimiter.Throttle` and `Schedules.Run` model calls made one after
  another. A nested `throttle` call from inside `f` is modelled only in
  `reentrancy.dfy`, and only one level deep.

## Findings

| source | as written | input that shows it | evidently intended | confidence | as-written member | corrected member |
|---|---|---|---|---|---|---|
| lib/rate_limiter.js:50-58 | with zero delay `wrap()` runs `f` at line 55, before line 57 charges the token and line 58 advances the cursor; a `throttle` call made inside `f` reads the same ready token, and the outer call then charges the token the nested call moved to | `new RateLimiter(1, 1)` at time 0, then `rl.throttle(() => rl.throttle(g))` at time 0: `f` and `g` both start at time 0, two starts in one window with `throttleMax` 1; with any `throttleMax` the nested call reuses the outer call's ready token, so one extra operation starts per nesting | charge the token and advance the cursor before running `f`, so a nested call waits its turn and at most `throttleMax` operations start per window | high (the JavaScript evaluation order is unambiguous); not executed | `Reentrancy.NestedAsWrittenReusesSlot` | `Reentrancy.NestedCommittedSpacing` |
| lib/rate_limiter.js:52-53 | a positive delay is handed to one `setTimeout`, which runs a delay above 2147483647 ms after 1 ms, while line 57 charges the token for the full delay | `new RateLimiter(1, 2147484)` at time 0, then two `throttle` calls at time 0: the second delay is 2147484050 ms and the operation runs at time 1, two operations in one period with `throttleMax` 1; with `new RateLimiter(1, 1)` about two million queued calls reach the same limit | wait the full delay, re-arming the timer in steps within the limit, so operations run when the bookkeeping says they are due | high (Node documents the replacement by 1 ms); not executed | `Schedules.LongPeriodFiresEarly` | `RateLimiter.ChainedWait` |

The rest of the model uses the corrected order. Its due instants are those
of the chained wait, and the bounds on them in `Schedules` hold without a
condition on the delay. `RateLimiter.Schedule` is one
atomic step, and it agrees with the source whenever `f` does not call
`throttle` while running inside the call.
