/** The tick counter and the interval timers built on it (src/etc/timers). Ticks and periods
    are 32-bit words and every difference wraps; the unbounded clock exists for the proofs only. */
module Timers {
  import opened IsoTpTypes

  /** The root tick counter. `clock` counts the same ticks without wrapping. */
  class TickerCounter {
    var rootTick: Word
    ghost var clock: nat

    ghost predicate Valid()
      reads this
    {
      rootTick == clock % WORD_RANGE
    }

    constructor ()
      ensures Valid() && clock == 1
    {
      rootTick, clock := 1, 1;
    }

    method ProcessTick()
      requires Valid()
      modifies this
      ensures Valid() && clock == old(clock) + 1
    {
      rootTick := Wrap(rootTick + 1);
      clock := clock + 1;
    }
  }

  /** The value of a Timer: what its four fields hold. */
  datatype TimerState = TimerState(period: Word, start: Word, active: bool, endless: bool) {

    function Started(interval: Word, now: Word): TimerState {
      this.(period := interval, start := now, active := true)
    }

    function StartedRepeat(interval: Word, repeat: bool, now: Word): TimerState {
      Started(interval, now).(endless := repeat)
    }

    function Restarted(now: Word): TimerState {
      Started(period, now)
    }

    function Stopped(): TimerState {
      this.(active := false)
    }

    function Forced(now: Word): TimerState {
      this.(start := Wrap(now - period))
    }

    function TicksToNextElapse(now: Word): Word {
      var passed := Wrap(now - start);
      if period > passed then period - passed else 0
    }

    /** Whether a poll at `now` reports the timer as elapsed. */
    predicate Due(now: Word) {
      active && (period == 0 || TicksToNextElapse(now) == 0)
    }

    /** The timer after a poll at `now`. */
    function Polled(now: Word): TimerState {
      if !Due(now) then this
      else if period == 0 then this.(active := endless)
      else this.(active := endless, start := now)
    }
  }

  /** A timer constructed stopped. */
  function NewTimer(interval: Word): TimerState {
    TimerState(interval, 0, false, false)
  }

  class Timer {
    const ticker: TickerCounter
    var tickPeriod: Word
    var tickStart: Word
    var isActive: bool
    var isEndless: bool

    function View(): TimerState
      reads this
    {
      TimerState(tickPeriod, tickStart, isActive, isEndless)
    }

    constructor (ticker: TickerCounter, interval: Word, start: bool, repeat: bool)
      ensures this.ticker == ticker
      ensures View() ==
              if start then TimerState(interval, 0, true, repeat).Restarted(ticker.rootTick)
              else TimerState(interval, 0, false, repeat)
    {
      this.ticker := ticker;
      tickPeriod, tickStart, isActive, isEndless := interval, 0, start, repeat;
      new;
      if isActive {
        Restart();
      }
    }

    method Start(interval: Word)
      modifies this
      ensures View() == old(View()).Started(interval, ticker.rootTick)
    {
      tickPeriod := interval;
      tickStart := ticker.rootTick;
      isActive := true;
    }

    method StartRepeat(interval: Word, repeat: bool)
      modifies this
      ensures View() == old(View()).StartedRepeat(interval, repeat, ticker.rootTick)
    {
      Start(interval);
      isEndless := repeat;
    }

    method Restart()
      modifies this
      ensures View() == old(View()).Restarted(ticker.rootTick)
    {
      Start(tickPeriod);
    }

    method Stop()
      modifies this
      ensures View() == old(View()).Stopped()
    {
      isActive := false;
    }

    method ForceElapse()
      modifies this
      ensures View() == old(View()).Forced(ticker.rootTick)
    {
      tickStart := Wrap(ticker.rootTick - tickPeriod);
    }

    method Elapsed() returns (fired: bool)
      modifies this
      ensures fired == old(View()).Due(ticker.rootTick)
      ensures View() == old(View()).Polled(ticker.rootTick)
    {
      if isActive {
        if tickPeriod == 0 {
          isActive := isEndless;
          return true;
        } else {
          var liveTicks := ticker.rootTick;
          if View().TicksToNextElapse(liveTicks) == 0 {
            isActive := isEndless;
            tickStart := liveTicks;
            return true;
          }
        }
      }
      return false;
    }

    method Ticks() returns (left: Word)
      ensures left == if isActive then View().TicksToNextElapse(ticker.rootTick) else 0
    {
      if isActive {
        left := View().TicksToNextElapse(ticker.rootTick);
      } else {
        left := 0;
      }
    }
  }

  // ---- The timer against an unbounded clock ----

  /** The reading of the root counter when `clock` ticks have been counted. */
  function Now(clock: nat): Word {
    clock % WORD_RANGE
  }

  /** `t` was last started, or last fired, at the unbounded time `since`. */
  ghost predicate StartedAt(t: TimerState, since: nat) {
    t.start == Now(since)
  }

  lemma WrappedDifference(since: nat, clock: nat)
    requires since <= clock
    ensures Wrap(Now(clock) - Now(since)) == (clock - since) % WORD_RANGE
  {
    var a, b := since / WORD_RANGE, clock / WORD_RANGE;
    assert since == a * WORD_RANGE + Now(since) && clock == b * WORD_RANGE + Now(clock);
    assert clock - since == (b - a) * WORD_RANGE + (Now(clock) - Now(since));
  }

  /** When a poll reports the timer: exactly when the real elapsed time, modulo the counter's
      range, has reached the period. */
  lemma DueExactly(t: TimerState, since: nat, clock: nat)
    requires StartedAt(t, since) && since <= clock
    ensures t.Due(Now(clock)) <==> t.active && (clock - since) % WORD_RANGE >= t.period
  {
    WrappedDifference(since, clock);
  }

  /** Never early; and on time if polled within one turn of the counter. */
  lemma DueNeverEarly(t: TimerState, since: nat, clock: nat)
    requires StartedAt(t, since) && since <= clock
    ensures t.Due(Now(clock)) ==> clock - since >= t.period
    ensures clock - since < WORD_RANGE ==> (t.Due(Now(clock)) <==> t.active && clock - since >= t.period)
  {
    DueExactly(t, since, clock);
    var d := clock - since;
    assert d % WORD_RANGE <= d;
  }

  /** A late poll can miss an expiry: one full turn of the counter looks like no time at all. */
  lemma LatePollMissesExpiry(t: TimerState, since: nat)
    requires StartedAt(t, since) && t.active && t.period > 0
    ensures !t.Due(Now(since + WORD_RANGE))
  {
    DueExactly(t, since, since + WORD_RANGE);
  }

  lemma ForcedIsDue(t: TimerState, now: Word)
    requires t.active
    ensures t.Forced(now).Due(now)
  {
    var s := Wrap(now - t.period);
    assert Wrap(now - s) == t.period by {
      if now >= t.period {
      } else {
        assert s == now - t.period + WORD_RANGE;
      }
    }
  }

  /** The timer after one poll at each of the given times. */
  function PollAll(t: TimerState, clocks: seq<nat>): TimerState
    decreases clocks
  {
    if clocks == [] then t else PollAll(t.Polled(Now(clocks[0])), clocks[1..])
  }

  /** How many of these polls report the timer as elapsed. */
  function Fires(t: TimerState, clocks: seq<nat>): nat
    decreases clocks
  {
    if clocks == [] then 0
    else (if t.Due(Now(clocks[0])) then 1 else 0) + Fires(t.Polled(Now(clocks[0])), clocks[1..])
  }

  predicate NonDecreasing(from: nat, clocks: seq<nat>)
    decreases clocks
  {
    clocks != [] ==> from <= clocks[0] && NonDecreasing(clocks[0], clocks[1..])
  }

  function Latest(from: nat, clocks: seq<nat>): nat
    decreases clocks
  {
    if clocks == [] then from else Latest(clocks[0], clocks[1..])
  }

  lemma {:induction false} InactiveNeverFires(t: TimerState, clocks: seq<nat>)
    requires !t.active
    ensures Fires(t, clocks) == 0 && PollAll(t, clocks) == t
    decreases clocks
  {
    if clocks != [] {
      InactiveNeverFires(t, clocks[1..]);
    }
  }

  /** A one-shot timer fires at most once however it is polled, and is stopped once it has. */
  lemma {:induction false} OneShotFiresOnce(t: TimerState, clocks: seq<nat>)
    requires !t.endless
    ensures Fires(t, clocks) <= 1
    ensures Fires(t, clocks) == 1 <==> t.active && !PollAll(t, clocks).active
    decreases clocks
  {
    if clocks != [] {
      var t' := t.Polled(Now(clocks[0]));
      if t.Due(Now(clocks[0])) {
        InactiveNeverFires(t', clocks[1..]);
      } else {
        OneShotFiresOnce(t', clocks[1..]);
      }
    }
  }

  /** Firings of a repeating timer are at least a period apart. */
  lemma {:induction false} RepeatingFires(t: TimerState, since: nat, last: nat, clocks: seq<nat>)
    requires StartedAt(t, since) && since <= last && NonDecreasing(last, clocks)
    ensures since + Fires(t, clocks) * t.period <= Latest(last, clocks)
    ensures last <= Latest(last, clocks)
    decreases clocks
  {
    if clocks != [] {
      var c := clocks[0];
      var t' := t.Polled(Now(c));
      if t.Due(Now(c)) {
        DueNeverEarly(t, since, c);
        var n := Fires(t', clocks[1..]);
        RepeatingFires(t', if t.period == 0 then since else c, c, clocks[1..]);
        OneMore(n, t.period);
      } else {
        RepeatingFires(t', since, c, clocks[1..]);
      }
    }
  }

  /** A timer with period p > 0 fires at most floor(T / p) times in T ticks. */
  lemma RepeatingRate(t: TimerState, since: nat, last: nat, clocks: seq<nat>)
    requires t.period > 0 && StartedAt(t, since) && since <= last && NonDecreasing(last, clocks)
    ensures Fires(t, clocks) <= (Latest(last, clocks) - since) / t.period
  {
    RepeatingFires(t, since, last, clocks);
    QuotientAtLeast(Fires(t, clocks), Latest(last, clocks) - since, t.period);
  }

  /** A repeating timer goes on until it is stopped; one of period 0 reports at every poll. */
  lemma {:induction false} RepeatingGoesOn(t: TimerState, clocks: seq<nat>)
    requires t.active && t.endless
    ensures PollAll(t, clocks).active
    ensures t.period == 0 ==> Fires(t, clocks) == |clocks|
    decreases clocks
  {
    if clocks != [] {
      RepeatingGoesOn(t.Polled(Now(clocks[0])), clocks[1..]);
    }
  }

  // ---- Timers in unbounded time ----

  /** A timer in unbounded time: whether it runs, and since when. */
  datatype Watch = Watch(running: bool, since: nat)

  /** The one-shot timer `t` runs exactly if the watch does, from the same time and for `period`. */
  ghost predicate Ticking(t: TimerState, watch: Watch, period: Word, now: nat) {
    && !t.endless && watch.since <= now && t.active == watch.running
    && (watch.running ==> t.period == period && t.start == Now(watch.since))
  }

  /** The same of a timer that keeps its period when it is stopped. */
  ghost predicate Follows(t: TimerState, watch: Watch, period: Word, now: nat) {
    Ticking(t, watch, period, now) && t.period == period
  }

  /** A poll at `now` finds the watch's time over. */
  predicate Over(watch: Watch, period: Word, now: nat)
    requires watch.since <= now
  {
    watch.running && (now - watch.since) % WORD_RANGE >= period
  }

  lemma FollowedDue(t: TimerState, watch: Watch, period: Word, now: nat)
    requires Ticking(t, watch, period, now)
    ensures t.Due(Now(now)) <==> Over(watch, period, now)
  {
    if watch.running {
      DueExactly(t, watch.since, now);
    }
  }

  /** Some of the times lies a period after `since`, as a 32-bit counter sees it. */
  predicate AnyOver(since: nat, period: Word, times: seq<nat>) {
    exists i :: 0 <= i < |times| && (times[i] - since) % WORD_RANGE >= period
  }

  lemma AnyOverSplit(since: nat, period: Word, xs: seq<nat>, ys: seq<nat>)
    ensures AnyOver(since, period, xs + ys) <==> AnyOver(since, period, xs) || AnyOver(since, period, ys)
  {
    if AnyOver(since, period, xs) {
      var i :| 0 <= i < |xs| && (xs[i] - since) % WORD_RANGE >= period;
      assert (xs + ys)[i] == xs[i];
    } else if AnyOver(since, period, ys) {
      var i :| 0 <= i < |ys| && (ys[i] - since) % WORD_RANGE >= period;
      assert (xs + ys)[|xs| + i] == ys[i];
    }
  }

  lemma OneMore(n: nat, p: nat)
    ensures (n + 1) * p == n * p + p
  {
  }

  lemma QuotientAtLeast(n: nat, total: nat, p: nat)
    requires p > 0 && n * p <= total
    ensures n <= total / p
  {
    var q := total / p;
    assert total == q * p + total % p;
    assert (q + 1 - n) * p == q * p + p - n * p > 0;
  }
}
