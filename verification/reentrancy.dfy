/** A `throttle` call whose operation, when it runs inside the call, itself
    calls `throttle` on the same limiter.

    In lib/rate_limiter.js a zero delay makes `wrap()` run `f` at line 55,
    before lines 57-58 charge the token and advance the cursor. A nested call
    made by `f` therefore reads the same, still ready, token; and line 57 of
    the outer call then charges whichever token the nested call left the
    cursor on. `NestedAsWritten` models that order; `NestedCommitted` models
    the order the rest of this project assumes, where lines 57-58 take effect
    before `f` runs. */
module Reentrancy {
  import opened Results
  import opened TokenRing
  import opened RateLimiter
  import Schedules

  /** Which token an operation was charged to and the instant it is due. */
  datatype Start = Start(slot: nat, at: int)

  /** The state after the outer call, the outer operation's start, and the
      nested operation's start when `f` ran inside the outer call. */
  datatype Nested = Nested(next: Limiter, outer: Start, inner: Option<Start>)

  /** The source's order: the nested call (clock `inner`) completes inside
      `wrap()` before the outer call reaches line 57. */
  function NestedAsWritten(s: Limiter, outer: Clock, inner: Clock): (r: Nested)
    requires Valid(s)
    ensures Valid(r.next) && r.next.max == s.max && r.next.period == s.period
    ensures r.outer.slot == s.cursor && r.outer.at >= s.tokens[s.cursor].readyAt
    ensures r.inner.Some? <==> s.tokens[s.cursor].readyAt <= outer.before
  {
    var delay := Delay(s.tokens[s.cursor].readyAt, outer.before);
    if delay == 0 then
      var g := Schedule(s, inner);
      Nested(Charge(g.next, outer.after, delay), Start(s.cursor, outer.before), Some(Start(g.slot, g.start)))
    else
      Nested(Charge(s, outer.after, delay), Start(s.cursor, outer.before + delay), None)
  }

  /** As written, the outer and the nested operation are both charged to the
      token the outer call found ready, and they start less than one window
      apart. With `throttleMax` 1 that is two starts in one window. */
  lemma NestedAsWrittenReusesSlot(s: Limiter, outer: Clock, inner: Clock)
    requires Valid(s)
    requires s.tokens[s.cursor].readyAt <= outer.before <= inner.before < outer.before + Window(s.period)
    ensures NestedAsWritten(s, outer, inner).inner.Some?
    ensures NestedAsWritten(s, outer, inner).inner.value.slot == NestedAsWritten(s, outer, inner).outer.slot
    ensures NestedAsWritten(s, outer, inner).outer.at <= NestedAsWritten(s, outer, inner).inner.value.at
      < NestedAsWritten(s, outer, inner).outer.at + Window(s.period)
  {
  }

  /** The concrete case: one token, one-second period, created at time 0, one
      call at time 0 whose operation calls `throttle` again at time 0. Both
      operations start at time 0 on the same token. */
  lemma NestedAsWrittenBurst()
    ensures var s := Limiter(1, 1, [Token(0, Some(0))], 0);
      && Valid(s)
      && NestedAsWritten(s, Clock(0, 0), Clock(0, 0)).outer == Start(0, 0)
      && NestedAsWritten(s, Clock(0, 0), Clock(0, 0)).inner == Some(Start(0, 0))
  {
    var s := Limiter(1, 1, [Token(0, Some(0))], 0);
    assert IsRing(s.tokens);
  }

  /** Lines 57-58 take effect before `f` runs: the nested call finds the
      outer call's token already charged and the cursor already advanced. */
  function NestedCommitted(s: Limiter, outer: Clock, inner: Clock): (r: Nested)
    requires Valid(s)
    ensures Valid(r.next) && r.next.max == s.max && r.next.period == s.period
    ensures r.outer.slot == s.cursor && r.outer.at >= s.tokens[s.cursor].readyAt
    ensures r.inner.Some? <==> s.tokens[s.cursor].readyAt <= outer.before
  {
    var g := Schedule(s, outer);
    if g.delay == 0 then
      var h := Schedule(g.next, inner);
      Nested(h.next, Start(g.slot, g.start), Some(Start(h.slot, h.start)))
    else
      Nested(g.next, Start(g.slot, g.start), None)
  }

  /** Committed first, two operations charged to the same token start at
      least one window apart. */
  lemma NestedCommittedSpacing(s: Limiter, outer: Clock, inner: Clock)
    requires Valid(s) && Forward(outer)
    ensures var r := NestedCommitted(s, outer, inner);
      r.inner.Some? && r.inner.value.slot == r.outer.slot ==> r.inner.value.at >= r.outer.at + Window(s.period)
    ensures var r := NestedCommitted(s, outer, inner);
      r.inner.Some? ==> (r.inner.value.slot == r.outer.slot <==> s.max == 1)
  {
    var g := Schedule(s, outer);
    if s.max == 1 {
      assert g.next.cursor == 0 == s.cursor;
    }
  }

  /** Committed first, an outer call with a nested one is exactly two calls
      in sequence, so the window bound of `Schedules.WindowBound` covers it. */
  lemma NestedCommittedIsSequential(s: Limiter, outer: Clock, inner: Clock)
    requires Valid(s)
    ensures var r := NestedCommitted(s, outer, inner);
      r.inner.Some? ==>
        && r.next == Schedules.Run(s, [outer, inner], 2)
        && r.outer.at == Schedules.StartAt(s, [outer, inner], 0)
        && r.inner.value.at == Schedules.StartAt(s, [outer, inner], 1)
    ensures var r := NestedCommitted(s, outer, inner);
      r.inner.None? ==> r.next == Schedules.Run(s, [outer], 1) && r.outer.at == Schedules.StartAt(s, [outer], 0)
  {
  }
}
