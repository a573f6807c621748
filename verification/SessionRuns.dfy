/** The session layer over time: how many "response pending" messages an enhanced timing mode
    sends, when a non-default session ends, and what a broken reception does to it
    (src/uds/session/session-control.cpp:5-154). */
module SessionRuns {
  import opened IsoTpTypes
  import opened Timers
  import opened Pci
  import opened TpPort
  import opened Receiver
  import opened Session

  /** A poll of Process, or an event from the transport layer, at an unbounded time. */
  datatype Move = PollAt(clock: nat) | EventAt(clock: nat, event: IsoEvent)

  function MoveStep(s: Sess, m: Move): (r: Sess)
    requires SessOk(s)
    ensures SessOk(r)
  {
    match m
    case PollAt(clock) => SessProcess(s, Now(clock))
    case EventAt(clock, event) => IsoEventStep(s, event, Now(clock))
  }

  function MoveRun(s: Sess, moves: seq<Move>): (r: Sess)
    requires SessOk(s)
    ensures SessOk(r)
    decreases |moves|
  {
    if moves == [] then s else MoveRun(MoveStep(s, moves[0]), moves[1..])
  }

  /** The payloads handed to the transport. */
  function Requests(log: seq<SessEvent>): seq<seq<Byte>> {
    if log == [] then []
    else
      var k := |log| - 1;
      Requests(log[..k]) + (if log[k].Sent? then [log[k].data] else [])
  }

  lemma RequestsAppend(log: seq<SessEvent>, event: SessEvent)
    ensures Requests(log + [event]) == Requests(log) + (if event.Sent? then [event.data] else [])
  {
    assert (log + [event])[..|log|] == log;
  }

  function Copies<T>(x: T, n: nat): (r: seq<T>)
    ensures |r| == n
  {
    if n == 0 then [] else [x] + Copies(x, n - 1)
  }

  /** `after` is `before`, then `n` wait messages for the service `si`, then one 7F si 36. */
  predicate GaveUpAfter(before: seq<seq<Byte>>, after: seq<seq<Byte>>, si: Byte, n: nat)
    decreases n
  {
    if n == 0 then after == before + [[NR_SI, si, ENOA]]
    else GaveUpAfter(before + [PendingMessage(si)], after, si, n - 1)
  }

  lemma {:induction false} GaveUpAfterSpelledOut(before: seq<seq<Byte>>, after: seq<seq<Byte>>, si: Byte, n: nat)
    requires GaveUpAfter(before, after, si, n)
    ensures after == before + Copies(PendingMessage(si), n) + [[NR_SI, si, ENOA]]
    decreases n
  {
    var wait := PendingMessage(si);
    if n == 0 {
      assert before + Copies(wait, 0) == before;
    } else {
      GaveUpAfterSpelledOut(before + [wait], after, si, n - 1);
      assert Copies(wait, n) == [wait] + Copies(wait, n - 1);
      assert before + [wait] + Copies(wait, n - 1) == before + Copies(wait, n);
    }
  }

  // ---- Enhanced timing mode ----

  /** How often `left` can be used up in portions of `interval`, the last one cut short. */
  function Resends(left: nat, interval: nat): nat
    requires interval > 0
    decreases left
  {
    if left == 0 then 0 else 1 + Resends(if left > interval then left - interval else 0, interval)
  }

  lemma {:induction false} ResendsIsCeiling(left: nat, interval: nat)
    requires interval > 0
    ensures Resends(left, interval) == (left + interval - 1) / interval
    decreases left
  {
    if left > interval {
      ResendsIsCeiling(left - interval, interval);
      OnePortionMore(left - 1, interval);
    } else {
      SmallQuotient(left, interval);
    }
  }

  lemma OnePortionMore(x: nat, k: nat)
    requires k > 0
    ensures (x + k) / k == x / k + 1
  {
    var q, r := x / k, (x + k) / k;
    assert q * k <= x by { assert x == q * k + x % k; }
    OneMore(q, k);
    QuotientAtLeast(q + 1, x + k, k);
    assert r * k <= x + k by { assert x + k == r * k + (x + k) % k; }
    OneMore(r - 1, k);
    QuotientAtLeast(r - 1, x, k);
  }

  lemma SmallQuotient(left: nat, interval: nat)
    requires 0 < interval && left <= interval
    ensures (left + interval - 1) / interval == if left == 0 then 0 else 1
  {
    if left > 0 {
      OnePortionMore(left - 1, interval);
    }
  }

  lemma OneMoreWait(before: seq<seq<Byte>>, next: seq<seq<Byte>>, after: seq<seq<Byte>>, wait: seq<Byte>, si: Byte,
                    left: nat, rest: nat, interval: nat)
    requires wait == PendingMessage(si) && next == before + [wait]
    requires interval > 0 && left > 0 && rest == (if left > interval then left - interval else 0)
    requires GaveUpAfter(next, after, si, Resends(rest, interval))
    ensures GaveUpAfter(before, after, si, Resends(left, interval))
  {
    assert Resends(left, interval) == Resends(rest, interval) + 1;
  }

  /** Polls as the mode needs them. `last` is the time of the latest wait message: while time is
      left, no poll comes as late as the P2* period `window` after it, so the next message goes
      out at the first poll that comes an interval or more after it; when no time is left, some poll
      finds P2* elapsed, within one turn of the tick counter. Events may come at any time. */
  predicate Prompt(last: nat, now: nat, left: nat, interval: Word, window: Word, moves: seq<Move>)
    decreases |moves|
  {
    && moves != []
    && var m := moves[0];
    var rest := moves[1..];
    && now <= m.clock
    && if m.EventAt? then Prompt(last, m.clock, left, interval, window, rest)
    else if left > 0 then
      && m.clock < last + window
      && if m.clock < last + interval then Prompt(last, m.clock, left, interval, window, rest)
      else Prompt(m.clock, m.clock, if left > interval then left - interval else 0, interval, window, rest)
    else if m.clock < last + window then Prompt(last, m.clock, 0, interval, window, rest)
    else m.clock < last + WORD_RANGE
  }

  /** In ETM, with the latest wait message sent at time `last`. */
  ghost predicate InEtm(s: Sess, last: nat, interval: Word, window: Word) {
    && SessOk(s) && s.etmActive && s.etmInterval == interval && s.tims.p2Enhanced == window
    && s.p2 == TimerState(window, Now(last), true, false)
    && (s.etmDuration > 0 ==> s.etmTim == TimerState(interval, Now(last), true, true))
  }

  /** Outside ETM the session layer sends nothing of its own accord. */
  lemma {:induction false} NothingUnasked(s: Sess, moves: seq<Move>)
    requires SessOk(s) && !s.etmActive
    ensures !MoveRun(s, moves).etmActive && MoveRun(s, moves).etmBuf == s.etmBuf
    ensures Requests(MoveRun(s, moves).log) == Requests(s.log)
    decreases |moves|
  {
    if moves != [] {
      var t := MoveStep(s, moves[0]);
      NothingUnaskedStep(s, moves[0]);
      NothingUnasked(t, moves[1..]);
    }
  }

  lemma NothingUnaskedStep(s: Sess, m: Move)
    requires SessOk(s) && !s.etmActive
    ensures var t := MoveStep(s, m);
            !t.etmActive && t.etmBuf == s.etmBuf && Requests(t.log) == Requests(s.log)
  {
    match m
    case PollAt(clock) =>
      QuietPoll(s, Now(clock));
    case EventAt(clock, e) =>
      QuietEvent(s, e, Now(clock));
  }

  lemma QuietEvent(s: Sess, e: IsoEvent, now: Word)
    ensures var t := IsoEventStep(s, e, now);
            t.etmActive == s.etmActive && t.etmBuf == s.etmBuf && Requests(t.log) == Requests(s.log)
  {
    if e.event.Data? {
      RequestsAppend(s.log, ConfirmedNok);
      RequestsAppend(s.log, Indicated(e.payload, e.length, if e.address.Physical? then Phys else Func));
    }
  }

  lemma QuietPoll(s: Sess, now: Word)
    requires SessOk(s) && !s.etmActive
    ensures var t := SessProcess(s, now);
            !t.etmActive && t.etmBuf == s.etmBuf && Requests(t.log) == Requests(s.log)
  {
    RequestsAppend(s.log, S3Timeout);
    var a := S3Step(s, now);
    assert !a.etmActive && a.etmBuf == s.etmBuf && Requests(a.log) == Requests(s.log);
    var b := P2Step(a, now);
    assert !b.etmActive && b.log == a.log;
  }

  /** An event during ETM leaves the mode as it is. */
  lemma EventInEtm(s: Sess, m: Move, last: nat, interval: Word, window: Word)
    requires InEtm(s, last, interval, window) && m.EventAt?
    ensures var t := MoveStep(s, m);
            && InEtm(t, last, interval, window) && t.etmDuration == s.etmDuration
            && t.etmBuf == s.etmBuf && Requests(t.log) == Requests(s.log)
  {
    RequestsAppend(s.log, ConfirmedNok);
  }

  lemma S3InEtm(s: Sess, last: nat, interval: Word, window: Word, now: Word)
    requires InEtm(s, last, interval, window)
    ensures var t := S3Step(s, now);
            && InEtm(t, last, interval, window) && t.etmDuration == s.etmDuration
            && t.etmBuf == s.etmBuf && Requests(t.log) == Requests(s.log)
  {
    RequestsAppend(s.log, S3Timeout);
  }

  /** A poll before P2* elapses: nothing, or one more wait message. */
  lemma PollInEtm(s: Sess, clock: nat, last: nat, interval: Word, window: Word)
    requires InEtm(s, last, interval, window) && interval > 0 && last <= clock < last + window
    ensures var t := MoveStep(s, PollAt(clock));
            t.etmBuf == s.etmBuf &&
            if s.etmDuration == 0 || clock < last + interval then
              InEtm(t, last, interval, window) && t.etmDuration == s.etmDuration && Requests(t.log) == Requests(s.log)
            else
              && InEtm(t, clock, interval, window)
              && t.etmDuration == (if s.etmDuration > interval then s.etmDuration - interval else 0)
              && Requests(t.log) == Requests(s.log) + [s.etmBuf]
  {
    S3InEtm(s, last, interval, window, Now(clock));
    var t := S3Step(s, Now(clock));
    DueNeverEarly(t.p2, last, clock);
    assert P2Step(t, Now(clock)) == t;
    RepeatInEtm(t, clock, last, interval, window);
  }

  lemma RepeatInEtm(s: Sess, clock: nat, last: nat, interval: Word, window: Word)
    requires InEtm(s, last, interval, window) && interval > 0 && last <= clock < last + WORD_RANGE
    ensures var t := EtmStep(s, Now(clock));
            if s.etmDuration == 0 || clock < last + interval then t == s
            else
              && InEtm(t, clock, interval, window) && t.etmBuf == s.etmBuf
              && t.etmDuration == (if s.etmDuration > interval then s.etmDuration - interval else 0)
              && Requests(t.log) == Requests(s.log) + [s.etmBuf]
  {
    if s.etmDuration > 0 {
      DueNeverEarly(s.etmTim, last, clock);
    }
    RequestsAppend(s.log, Sent(s.etmBuf));
  }

  /** The poll that finds P2* elapsed ends the mode with 7F si 36, whatever time is left. */
  lemma MissedWindowEndsPending(s: Sess, clock: nat, last: nat, interval: Word, window: Word)
    requires InEtm(s, last, interval, window) && last + window <= clock < last + WORD_RANGE
    ensures var t := MoveStep(s, PollAt(clock));
            && !t.etmActive && t.etmBuf == s.etmBuf && !t.p2.active
            && Requests(t.log) == Requests(s.log) + [[NR_SI, s.etmBuf[1], ENOA]]
  {
    S3InEtm(s, last, interval, window, Now(clock));
    var t := S3Step(s, Now(clock));
    DueNeverEarly(t.p2, last, clock);
    RequestsAppend(t.log, Sent([NR_SI, s.etmBuf[1], ENOA]));
  }

  lemma {:induction false} PendingMoves(s: Sess, last: nat, now: nat, interval: Word, window: Word, moves: seq<Move>)
    requires InEtm(s, last, interval, window) && interval > 0 && last <= now
    requires Prompt(last, now, s.etmDuration, interval, window, moves)
    ensures var t := MoveRun(s, moves);
            && !t.etmActive && t.etmBuf == s.etmBuf
            && GaveUpAfter(Requests(s.log), Requests(t.log), s.etmBuf[1], Resends(s.etmDuration, interval))
    decreases |moves|
  {
    var m, rest := moves[0], moves[1..];
    var t := MoveStep(s, m);
    if m.EventAt? {
      EventInEtm(s, m, last, interval, window);
      PendingMoves(t, last, m.clock, interval, window, rest);
    } else if m.clock < last + window {
      PollInEtm(s, m.clock, last, interval, window);
      if s.etmDuration == 0 || m.clock < last + interval {
        PendingMoves(t, last, m.clock, interval, window, rest);
      } else {
        PendingMoves(t, m.clock, m.clock, interval, window, rest);
        OneMoreWait(Requests(s.log), Requests(t.log), Requests(MoveRun(t, rest).log), s.etmBuf, s.etmBuf[1],
                    s.etmDuration, t.etmDuration, interval);
      }
    } else {
      MissedWindowEndsPending(s, m.clock, last, interval, window);
      NothingUnasked(t, rest);
    }
  }

  /** SetPending(duration, interval) with duration >= interval >= 1000, no answer, and polls in
      every window [interval, P2*) after a wait message: exactly ceil(duration / interval)
      messages 7F si 78 go out, then exactly one 7F si 36; afterwards the mode is off and the
      wait message is back in its buffer. */
  lemma PendingCount(s: Sess, start: nat, duration: Word, interval: Word, si: Byte, moves: seq<Move>)
    requires SessOk(s) && duration >= interval >= 1000
    requires Prompt(start, start, duration - interval, interval, s.tims.p2Enhanced, moves)
    ensures var t := MoveRun(PendingStep(s, duration, interval, si, Now(start)), moves);
            && !t.etmActive && t.etmBuf == PendingMessage(si)
            && Requests(t.log) ==
               Requests(s.log)
               + Copies(PendingMessage(si), (duration + interval - 1) / interval)
               + [[NR_SI, si, ENOA]]
  {
    var p := PendingStep(s, duration, interval, si, Now(start));
    RequestsAppend(s.log, Sent(PendingMessage(si)));
    PendingMoves(p, start, start, interval, s.tims.p2Enhanced, moves);
    ResendsIsCeiling(duration, interval);
    OneMoreWait(Requests(s.log), Requests(p.log), Requests(MoveRun(p, moves).log),
                p.etmBuf, si, duration, p.etmDuration, interval);
    GaveUpAfterSpelledOut(Requests(s.log), Requests(MoveRun(p, moves).log), si, Resends(duration, interval));
  }

  /** With an interval not shorter than P2* the mode sends one wait message only, however long
      a duration was asked for: the first poll that could repeat it finds P2* elapsed. */
  lemma {:induction false} LongIntervalNeverRepeats(s: Sess, start: nat, now: nat, interval: Word, moves: seq<Move>)
    requires InEtm(s, start, interval, s.tims.p2Enhanced) && interval >= s.tims.p2Enhanced
    requires start <= now && Timely(start, now, moves)
    ensures var t := MoveRun(s, moves);
            Requests(t.log) == Requests(s.log) + if t.etmActive then [] else [[NR_SI, s.etmBuf[1], ENOA]]
    decreases |moves|
  {
    if moves != [] {
      var m, rest := moves[0], moves[1..];
      var t := MoveStep(s, m);
      if m.EventAt? {
        EventInEtm(s, m, start, interval, s.tims.p2Enhanced);
        LongIntervalNeverRepeats(t, start, m.clock, interval, rest);
      } else if m.clock < start + s.tims.p2Enhanced {
        PollInEtm(s, m.clock, start, interval, s.tims.p2Enhanced);
        LongIntervalNeverRepeats(t, start, m.clock, interval, rest);
      } else {
        MissedWindowEndsPending(s, m.clock, start, interval, s.tims.p2Enhanced);
        NothingUnasked(t, rest);
      }
    }
  }

  /** Times do not go back, and all lie within one turn of the tick counter. */
  predicate Timely(start: nat, now: nat, moves: seq<Move>)
    decreases |moves|
  {
    moves != [] ==> now <= moves[0].clock < start + WORD_RANGE && Timely(start, moves[0].clock, moves[1..])
  }

  // ---- The end of a non-default session ----

  function Timeouts(log: seq<SessEvent>): nat {
    if log == [] then 0
    else
      var k := |log| - 1;
      Timeouts(log[..k]) + (if log[k].S3Timeout? then 1 else 0)
  }

  lemma TimeoutsAppend(log: seq<SessEvent>, event: SessEvent)
    ensures Timeouts(log + [event]) == Timeouts(log) + (if event.S3Timeout? then 1 else 0)
  {
    assert (log + [event])[..|log|] == log;
  }

  /** One poll ends a non-default session exactly when S3 has elapsed, and then, and only then,
      the upper layer is told, once. */
  lemma ExpiryNotifiesOnce(s: Sess, now: Word)
    requires SessOk(s)
    ensures var r := SessProcess(s, now);
            && (s.sessType.NonDefault? && r.sessType.Default? <==> s.sessType.NonDefault? && s.s3.Due(now))
            && (s.sessType.Default? ==> r.sessType.Default?)
            && Timeouts(r.log) == Timeouts(s.log) + if s.sessType != r.sessType then 1 else 0
  {
    TimeoutsAppend(s.log, S3Timeout);
    AfterS3(S3Step(s, now), now);
  }

  lemma AfterS3(s: Sess, now: Word)
    requires SessOk(s)
    ensures var r := EtmStep(P2Step(s, now), now);
            r.sessType == s.sessType && Timeouts(r.log) == Timeouts(s.log)
  {
    TimeoutsAppend(s.log, Sent([NR_SI, s.etmBuf[1], ENOA]));
    var p := P2Step(s, now);
    assert p.sessType == s.sessType && Timeouts(p.log) == Timeouts(s.log);
    TimeoutsAppend(p.log, Sent(p.etmBuf));
  }

  function PollRun(s: Sess, clocks: seq<nat>): (r: Sess)
    requires SessOk(s)
    ensures SessOk(r)
    decreases |clocks|
  {
    if clocks == [] then s else PollRun(SessProcess(s, Now(clocks[0])), clocks[1..])
  }

  /** The next time at or after `from` at which the tick counter shows `w`. */
  function NextTime(from: nat, w: Word): (clock: nat)
    ensures from <= clock && Now(clock) == w
  {
    ShowsWord(from / WORD_RANGE + 1, w);
    (from / WORD_RANGE + 1) * WORD_RANGE + w
  }

  lemma ShowsWord(turns: nat, w: Word)
    ensures (turns * WORD_RANGE + w) % WORD_RANGE == w
  {
  }

  lemma RunningTimerElapses(t: TimerState, from: nat)
    requires t.active
    ensures t.Due(Now(NextTime(from, Wrap(t.start + t.period))))
  {
    assert Wrap(Wrap(t.start + t.period) - t.start) == t.period;
  }

  /** With both timers stopped and no ETM, polling changes nothing at all. */
  lemma {:induction false} StoppedTimersStay(s: Sess, clocks: seq<nat>)
    requires SessOk(s) && !s.etmActive && !s.s3.active && !s.p2.active
    ensures PollRun(s, clocks) == s
    decreases |clocks|
  {
    if clocks != [] {
      StoppedTimersStay(s, clocks[1..]);
    }
  }

  ghost predicate CanEnd(s: Sess, now: nat)
    requires SessOk(s)
  {
    exists clocks: seq<nat> :: NonDecreasing(now, clocks) && PollRun(s, clocks).sessType.Default?
  }

  lemma EndsByPolls(s: Sess, now: nat) returns (clocks: seq<nat>)
    requires SessOk(s) && s.sessType.NonDefault? && (s.s3.active || s.p2.active)
    ensures NonDecreasing(now, clocks) && PollRun(s, clocks).sessType.Default?
    decreases if s.s3.active then 0 else 1
  {
    var t := if s.s3.active then s.s3 else s.p2;
    var clock := NextTime(now, Wrap(t.start + t.period));
    RunningTimerElapses(t, now);
    var r := SessProcess(s, Now(clock));
    if s.s3.active {
      clocks := [clock];
      assert PollRun(r, []) == r;
    } else {
      var rest := EndsByPolls(r, clock);
      clocks := [clock] + rest;
      assert clocks[1..] == rest;
    }
  }

  /** A non-default session that hears nothing more can end exactly if S3 or P2 is running. */
  lemma SessionEndsIff(s: Sess, now: nat)
    requires SessOk(s) && s.sessType.NonDefault? && (s.etmActive ==> s.p2.active)
    ensures CanEnd(s, now) <==> s.s3.active || s.p2.active
  {
    if s.s3.active || s.p2.active {
      var clocks := EndsByPolls(s, now);
    } else if CanEnd(s, now) {
      var clocks: seq<nat> :| NonDecreasing(now, clocks) && PollRun(s, clocks).sessType.Default?;
      StoppedTimersStay(s, clocks);
    }
  }

  // ---- Broken receptions ----

  function Hear(s: Sess, events: seq<IsoEvent>, now: Word): (r: Sess)
    requires SessOk(s)
    ensures SessOk(r)
    decreases |events|
  {
    if events == [] then s else Hear(IsoEventStep(s, events[0], now), events[1..], now)
  }

  /** What a step of the receiver told its client. */
  function News(before: Io, after: Io): seq<IsoEvent>
    requires |before.log| <= |after.log|
  {
    after.log[|before.log|..]
  }

  /** A frame that ends a reception without delivering it, other than by starting a new one: a
      consecutive frame with the wrong number, or a flow control. */
  predicate Breaks(rx: RxState, data: seq<Byte>) {
    var m := Unpack(data);
    rx.IsBusy() && 0 < m.pcilen <= |data| && ((m.kind.CF? && m.kind.sn != rx.expectsn % 16) || m.kind.FC?)
  }

  /** A reception broken by the Cr timeout gives the session its S3 timer back; one broken by a
      frame does not, and with no request being worked on the session can then never end. */
  lemma BrokenReceptionStallsSession(rx: RxState, io: Io, cfg: Config, first: seq<Byte>, second: seq<Byte>, s: Sess,
                                     now: nat)
    requires SessOk(s) && s.sessType.NonDefault? && !s.etmActive && !s.p2.active
    requires !rx.IsBusy()
    requires var m := Unpack(first); 0 < m.pcilen <= |first| && m.kind.FF? && 8 <= m.kind.dlen <= |rx.rxbuff|
    requires Breaks(ReceiveStep(rx, io, cfg, first, Now(now)).rx, second)
    ensures var o1 := ReceiveStep(rx, io, cfg, first, Now(now));
            var o2 := ReceiveStep(o1.rx, o1.io, cfg, second, Now(now));
            var t1 := Hear(s, News(io, o1.io), Now(now));
            var t2 := Hear(t1, News(o1.io, o2.io), Now(now));
            && !o2.rx.IsBusy() && t2.sessType.NonDefault? && !CanEnd(t2, now)
            && (o1.rx.cr.Due(Now(now)) ==>
                  CanEnd(Hear(t1, News(o1.io, ProcessRxStep(o1.rx, o1.io, Now(now)).io), Now(now)), now))
  {
    var o1 := ReceiveStep(rx, io, cfg, first, Now(now));
    var o2 := ReceiveStep(o1.rx, o1.io, cfg, second, Now(now));
    var dlen := Unpack(first).kind.dlen;
    var t1 := HeardOne(s, News(io, o1.io), RxEvent(DataFF, OkR, [], dlen), Now(now));
    var event := if Unpack(second).kind.CF? then Data else Conf;
    var t2 := HeardOne(t1, News(o1.io, o2.io), RxEvent(event, UnexpPdu, [], 0), Now(now));
    SessionEndsIff(t2, now);
    if o1.rx.cr.Due(Now(now)) {
      var o3 := ProcessRxStep(o1.rx, o1.io, Now(now));
      var t3 := HeardOne(t1, News(o1.io, o3.io), RxEvent(Conf, TimeoutCr, [], 0), Now(now));
      SessionEndsIff(t3, now);
    }
  }

  lemma HeardOne(s: Sess, events: seq<IsoEvent>, event: IsoEvent, now: Word) returns (t: Sess)
    requires SessOk(s) && events == [event]
    ensures t == Hear(s, events, now) == IsoEventStep(s, event, now)
  {
    t := IsoEventStep(s, event, now);
    assert Hear(t, [], now) == t;
  }
}
