/** How long a session lasts (src/uds/session/session-control.cpp:51-179): in every run of polls and
    transport events a non-default session ends at exactly the polls that find S3 over, and S3 runs
    from the moments the protocol says. */
module SessionTiming {
  import opened IsoTpTypes
  import opened Timers
  import opened Session
  import opened SessionRuns
  import opened Manager
  import opened ResponseRules
  import Runs = ManagerRuns

  // ---- S3 and P2 in unbounded time ----

  /** S3 and P2, and the periods they run for. */
  datatype Watches = Watches(s3: Watch, p2: Watch, s3Max: Word, p2Max: Word)

  /** A received message starts P2 and stops S3; the beginning of one stops S3. S3 starts again when a
      message has been sent, when a reception has failed to begin or has timed out, and when P2 is
      over. */
  function WatchesNext(b: Watches, nonDefault: bool, m: Move): Watches
    requires m.PollAt? ==> b.s3.since <= m.clock && b.p2.since <= m.clock
  {
    match m
    case PollAt(clock) =>
      var p2 := if Over(b.p2, b.p2Max, clock) then b.p2.(running := false) else b.p2;
      if nonDefault && Over(b.s3, b.s3Max, clock) then b.(s3 := b.s3.(running := false), p2 := p2)
      else if nonDefault && Over(b.p2, b.p2Max, clock) then b.(s3 := Watch(true, clock), p2 := p2)
      else b.(p2 := p2)
    case EventAt(clock, e) =>
      if e.event.Data? && e.result.OkR? then b.(p2 := Watch(true, clock), s3 := b.s3.(running := false))
      else if e.event.DataFF? && e.result.OkR? then b.(s3 := b.s3.(running := false))
      else if nonDefault && (e.event.DataFF? || (e.event.Conf? && (e.result.OkS? || e.result.TimeoutCr?))) then
        b.(s3 := Watch(true, clock))
      else b
  }

  /** Times do not go back. */
  predicate Ordered(now: nat, moves: seq<Move>)
    decreases |moves|
  {
    moves != [] ==> now <= moves[0].clock && Ordered(moves[0].clock, moves[1..])
  }

  function LastTime(now: nat, moves: seq<Move>): nat
    decreases |moves|
  {
    if moves == [] then now else LastTime(moves[0].clock, moves[1..])
  }

  predicate Past(b: Watches, now: nat) {
    b.s3.since <= now && b.p2.since <= now
  }

  lemma PastStep(b: Watches, now: nat, nonDefault: bool, m: Move)
    requires Past(b, now) && now <= m.clock
    ensures Past(WatchesNext(b, nonDefault, m), m.clock)
  {
  }

  function WatchesRun(b: Watches, now: nat, s: Sess, moves: seq<Move>): (r: Watches)
    requires SessOk(s) && Past(b, now) && Ordered(now, moves)
    ensures Past(r, LastTime(now, moves))
    decreases |moves|
  {
    if moves == [] then b
    else
      var m := moves[0];
      PastStep(b, now, s.sessType.NonDefault?, m);
      WatchesRun(WatchesNext(b, s.sessType.NonDefault?, m), m.clock, MoveStep(s, m), moves[1..])
  }

  /** Outside the pending mode, the timers are what the watches say. */
  ghost predicate Timed(s: Sess, b: Watches, now: nat) {
    && SessOk(s) && !s.etmActive && s.tims.p2Max == b.p2Max
    && Ticking(s.p2, b.p2, b.p2Max, now)
    && (s.sessType.NonDefault? ==> Follows(s.s3, b.s3, b.s3Max, now))
    && (s.sessType.Default? ==> !s.s3.active && !b.s3.running && b.s3.since <= now)
  }

  lemma TimedLater(s: Sess, b: Watches, now: nat, later: nat)
    requires Timed(s, b, now) && now <= later
    ensures Timed(s, b, later)
  {
  }

  lemma TimedPoll(s: Sess, b: Watches, now: nat)
    requires Timed(s, b, now)
    ensures var t := SessProcess(s, Now(now));
            && Timed(t, WatchesNext(b, s.sessType.NonDefault?, PollAt(now)), now)
            && (t.sessType.Default? <==> s.sessType.Default? || Over(b.s3, b.s3Max, now))
            && (!Over(b.p2, b.p2Max, now) && (s.sessType.NonDefault? ==> !Over(b.s3, b.s3Max, now)) ==> t == s)
  {
    FollowedDue(s.p2, b.p2, b.p2Max, now);
    if s.sessType.NonDefault? {
      FollowedDue(s.s3, b.s3, b.s3Max, now);
    }
    var a := S3Step(s, Now(now));
    assert a.p2 == s.p2 && !a.etmActive;
    assert EtmStep(P2Step(a, Now(now)), Now(now)) == P2Step(a, Now(now));
  }

  lemma TimedEvent(s: Sess, b: Watches, now: nat, e: IsoEvent)
    requires Timed(s, b, now)
    ensures Timed(IsoEventStep(s, e, Now(now)), WatchesNext(b, s.sessType.NonDefault?, EventAt(now, e)), now)
    ensures IsoEventStep(s, e, Now(now)).sessType == s.sessType
  {
  }

  lemma {:induction false} TimedRun(s: Sess, b: Watches, now: nat, moves: seq<Move>)
    requires Timed(s, b, now) && Ordered(now, moves)
    ensures Past(b, now) && Timed(MoveRun(s, moves), WatchesRun(b, now, s, moves), LastTime(now, moves))
    decreases |moves|
  {
    if moves != [] {
      var m := moves[0];
      TimedLater(s, b, now, m.clock);
      match m {
        case PollAt(clock) => TimedPoll(s, b, clock);
        case EventAt(clock, e) => TimedEvent(s, b, clock, e);
      }
      PastStep(b, now, s.sessType.NonDefault?, m);
      TimedRun(MoveStep(s, m), WatchesNext(b, s.sessType.NonDefault?, m), m.clock, moves[1..]);
    }
  }

  /** After every run of polls and transport events a poll ends the session if and only if it is a
      non-default one and finds S3 over: running, and started a whole S3 period ago. */
  lemma SessionEndsExactly(s: Sess, b: Watches, now: nat, moves: seq<Move>, clock: nat)
    requires Timed(s, b, now) && Ordered(now, moves) && LastTime(now, moves) <= clock
    ensures Past(b, now)
    ensures var s1 := MoveRun(s, moves);
            var b1 := WatchesRun(b, now, s, moves);
            s1.sessType.NonDefault? ==>
              (SessProcess(s1, Now(clock)).sessType.Default? <==> Over(b1.s3, b.s3Max, clock))
  {
    TimedRun(s, b, now, moves);
    var s1, b1 := MoveRun(s, moves), WatchesRun(b, now, s, moves);
    TimedLater(s1, b1, LastTime(now, moves), clock);
    TimedPoll(s1, b1, clock);
    PeriodsKept(s, b, now, moves);
  }

  lemma {:induction false} PeriodsKept(s: Sess, b: Watches, now: nat, moves: seq<Move>)
    requires SessOk(s) && Past(b, now) && Ordered(now, moves)
    ensures var b1 := WatchesRun(b, now, s, moves); b1.s3Max == b.s3Max && b1.p2Max == b.p2Max
    decreases |moves|
  {
    if moves != [] {
      var m := moves[0];
      PastStep(b, now, s.sessType.NonDefault?, m);
      PeriodsKept(MoveStep(s, m), WatchesNext(b, s.sessType.NonDefault?, m), m.clock, moves[1..]);
    }
  }

  // ---- What starts S3 ----

  /** The session runs on S3 alone: P2 is off and no answer is pending. */
  ghost predicate OnS3(s: Sess, since: nat, period: Word, now: nat) {
    && SessOk(s) && s.sessType.NonDefault? && !s.etmActive && !s.p2.active
    && Follows(s.s3, Watch(true, since), period, now)
  }

  /** Such a session, polled at any times, ends at the first poll that finds S3 over, and not
      before; the upper layer is told so once. */
  lemma {:induction false} S3Lasts(s: Sess, since: nat, period: Word, now: nat, clocks: seq<nat>)
    requires OnS3(s, since, period, now) && NonDecreasing(now, clocks)
    ensures EndedIf(s, PollRun(s, clocks), AnyOver(since, period, clocks))
    decreases |clocks|
  {
    if clocks != [] {
      var c, rest := clocks[0], clocks[1..];
      var t := OnS3Poll(s, since, period, clocks);
      FirstOver(since, period, clocks);
      if Over(Watch(true, since), period, c) {
        StoppedTimersStay(t, rest);
      } else {
        S3Lasts(s, since, period, c, rest);
      }
    }
  }

  /** A session has ended and told so once, or nothing has happened to it. */
  predicate EndedIf(s: Sess, r: Sess, over: bool) {
    if over then r.sessType.Default? && Timeouts(r.log) == Timeouts(s.log) + 1 else r == s
  }

  lemma FirstOver(since: nat, period: Word, clocks: seq<nat>)
    requires clocks != [] && since <= clocks[0]
    ensures AnyOver(since, period, clocks) <==>
            Over(Watch(true, since), period, clocks[0]) || AnyOver(since, period, clocks[1..])
  {
    AnyOverSplit(since, period, [clocks[0]], clocks[1..]);
    assert [clocks[0]] + clocks[1..] == clocks && [clocks[0]][0] == clocks[0];
  }

  lemma OnS3Poll(s: Sess, since: nat, period: Word, clocks: seq<nat>) returns (t: Sess)
    requires clocks != [] && OnS3(s, since, period, clocks[0])
    ensures SessOk(t) && PollRun(s, clocks) == PollRun(t, clocks[1..])
    ensures if Over(Watch(true, since), period, clocks[0])
            then !t.etmActive && !t.s3.active && !t.p2.active && EndedIf(s, t, true)
            else t == s
  {
    t := SessProcess(s, Now(clocks[0]));
    FollowedDue(s.s3, Watch(true, since), period, clocks[0]);
    TimeoutsAppend(s.log, S3Timeout);
  }

  /** A default session with nothing going on. */
  predicate AtRest(s: Sess) {
    SessOk(s) && s.sessType.Default? && !s.etmActive && !s.p2.active
  }

  /** A service that switches to a non-default session makes it last S3_max from then on; one that
      stays in or goes back to the default session makes none. */
  lemma EnteredSessionLasts(m: Mgr, value: Byte, t0: nat, clocks: seq<nat>)
    requires MgrOk(m) && AtRest(m.sess) && NonDecreasing(t0, clocks)
    ensures var s := ServiceSessionStep(m, value, Now(t0)).sess;
            && s.log == m.sess.log + [SessionChange(value == 1)]
            && (PollRun(s, clocks).sessType.NonDefault? <==> value != 1 && !AnyOver(t0, m.sess.tims.s3Max, clocks))
  {
    var s := ServiceSessionStep(m, value, Now(t0)).sess;
    if value != 1 {
      S3Lasts(s, t0, m.sess.tims.s3Max, t0, clocks);
    } else {
      DefaultStays(s, clocks);
    }
  }

  lemma {:induction false} DefaultStays(s: Sess, clocks: seq<nat>)
    requires SessOk(s) && s.sessType.Default?
    ensures PollRun(s, clocks).sessType.Default?
    decreases |clocks|
  {
    if clocks != [] {
      ExpiryNotifiesOnce(s, Now(clocks[0]));
      DefaultStays(SessProcess(s, Now(clocks[0])), clocks[1..]);
    }
  }

  /** As constructed that is 5000 ticks, and otherwise what SetSessionParam was told last. */
  lemma EnteredSessionLastsAsSet(buf: seq<Byte>, level: Byte, start: Word, v: Word, value: Byte, t0: nat,
                                 clocks: seq<nat>)
    requires |buf| >= 3 && NonDecreasing(t0, clocks) && value != 1
    ensures var m := Runs.NewMgr(buf, level, start);
            var r := PollRun(ServiceSessionStep(m, value, Now(t0)).sess, clocks);
            r.sessType.NonDefault? <==> !AnyOver(t0, 5000, clocks)
    ensures var m := Runs.NewMgr(buf, level, start);
            var r := PollRun(ServiceSessionStep(m.(sess := ParamStep(m.sess, S3Tim, v)), value, Now(t0)).sess, clocks);
            r.sessType.NonDefault? <==> !AnyOver(t0, v, clocks)
  {
    var m := Runs.NewMgr(buf, level, start);
    EnteredSessionLasts(m, value, t0, clocks);
    EnteredSessionLasts(m.(sess := ParamStep(m.sess, S3Tim, v)), value, t0, clocks);
  }

  /** A message sent, a reception that fails to begin and one that times out start S3 again. */
  lemma RestartedSessionLasts(s: Sess, e: IsoEvent, t0: nat, clocks: seq<nat>)
    requires SessOk(s) && s.sessType.NonDefault? && !s.etmActive && !s.p2.active && NonDecreasing(t0, clocks)
    requires if e.event.DataFF? then !e.result.OkR? else e.event.Conf? && (e.result.OkS? || e.result.TimeoutCr?)
    ensures PollRun(IsoEventStep(s, e, Now(t0)), clocks).sessType.NonDefault? <==> !AnyOver(t0, s.s3.period, clocks)
  {
    S3Lasts(IsoEventStep(s, e, Now(t0)), t0, s.s3.period, t0, clocks);
  }

  /** The S3 period that counts for a session that goes on or begins now. */
  function S3Period(s: Sess): Word {
    if s.sessType.Default? then s.tims.s3Max else s.s3.period
  }

  /** A response that goes out - or that is withheld when nothing else is going on - leaves the
      session in the mode the client's level says, and a non-default one lasts S3 from then on. */
  lemma ResponseSettlesSession(m: Mgr, data: seq<Byte>, t0: nat, clocks: seq<nat>)
    requires MgrOk(m) && data != [] && NonDecreasing(t0, clocks)
    requires Requests(ResponseStep(m, data, Now(t0)).sess.log) != Requests(m.sess.log) ||
             (!m.sess.etmActive && !m.sess.p2.active)
    ensures PollRun(ResponseStep(m, data, Now(t0)).sess, clocks).sessType.NonDefault? <==>
            m.currSession != 1 && !AnyOver(t0, S3Period(m.sess), clocks)
  {
    var r := ResponseStep(m, data, Now(t0)).sess;
    ResponseSettles(m, data, t0);
    if m.currSession == 1 {
      DefaultStays(r, clocks);
    } else {
      S3Lasts(r, t0, S3Period(m.sess), t0, clocks);
    }
  }

  lemma ResponseSettles(m: Mgr, data: seq<Byte>, t0: nat)
    requires MgrOk(m) && data != []
    requires Requests(ResponseStep(m, data, Now(t0)).sess.log) != Requests(m.sess.log) ||
             (!m.sess.etmActive && !m.sess.p2.active)
    ensures var r := ResponseStep(m, data, Now(t0)).sess;
            if m.currSession == 1 then SessOk(r) && r.sessType.Default? else OnS3(r, t0, S3Period(m.sess), t0)
  {
  }

  /** The client's level counts from when it sets it. */
  lemma LevelSettlesSession(m: Mgr, level: Byte, data: seq<Byte>, t0: nat, clocks: seq<nat>)
    requires MgrOk(m) && data != [] && NonDecreasing(t0, clocks) && !m.sess.etmActive && !m.sess.p2.active
    ensures var r := CallsStep(m, [SetLevel(level), Answer(data)], Now(t0)).sess;
            PollRun(r, clocks).sessType.NonDefault? <==> level != 1 && !AnyOver(t0, S3Period(m.sess), clocks)
  {
    var calls := [SetLevel(level), Answer(data)];
    var m1 := CallStep(m, SetLevel(level), Now(t0));
    assert calls[1..] == [Answer(data)] && [Answer(data)][1..] == [];
    assert CallsStep(m1, [Answer(data)], Now(t0)) == ResponseStep(m1, data, Now(t0));
    ResponseSettlesSession(m1, data, t0, clocks);
  }

  /** A request the client handles without a response starts S3 as well. */
  lemma SilentHandlingSettlesSession(m: Mgr, client: Client, t0: nat)
    requires MgrOk(m) && ClientOk(client, |m.pubBuff|)
    requires client.handle(m.req).result.HandledRespNo? && client.handle(m.req).calls == []
    ensures var r := ClientStep(m, client, Now(t0)).sess;
            && (r.sessType.NonDefault? <==> m.currSession != 1)
            && r.s3.active == r.sessType.NonDefault?
            && (r.sessType.NonDefault? && !m.sess.s3.endless ==> Follows(r.s3, Watch(true, t0), S3Period(m.sess), t0))
  {
  }

  /** A non-default session does not end while a request is worked on: its S3 starts at the first poll
      that finds P2_max over since the request came, and the session lasts S3 from there. */
  lemma RequestDefersEnd(s: Sess, e: IsoEvent, t0: nat, before: seq<nat>, expiry: nat, after: seq<nat>)
    requires SessOk(s) && s.sessType.NonDefault? && !s.etmActive && e.event.Data? && e.result.OkR?
    requires NonDecreasing(t0, before + [expiry] + after)
    requires !AnyOver(t0, s.tims.p2Max, before) && AnyOver(t0, s.tims.p2Max, [expiry])
    ensures var s1 := IsoEventStep(s, e, Now(t0));
            && PollRun(s1, before) == s1 && s1.sessType.NonDefault?
            && (PollRun(s1, before + [expiry] + after).sessType.NonDefault? <==>
                !AnyOver(expiry, s.s3.period, after))
  {
    var s1 := IsoEventStep(s, e, Now(t0));
    assert before + [expiry] + after == before + ([expiry] + after);
    P2Holds(s1, t0, s.tims.p2Max, t0, before, [expiry] + after);
    OrderedSuffix(t0, before, [expiry] + after);
    P2Ends(s1, t0, s.tims.p2Max, expiry, after);
  }

  /** The poll that finds P2 over starts S3. */
  lemma P2Ends(s: Sess, since: nat, period: Word, expiry: nat, after: seq<nat>)
    requires SessOk(s) && s.sessType.NonDefault? && !s.etmActive && !s.s3.active
    requires Follows(s.p2, Watch(true, since), period, expiry) && NonDecreasing(expiry, after)
    requires AnyOver(since, period, [expiry])
    ensures PollRun(s, [expiry] + after).sessType.NonDefault? <==> !AnyOver(expiry, s.s3.period, after)
  {
    assert ([expiry] + after)[1..] == after;
    FollowedDue(s.p2, Watch(true, since), period, expiry);
    var t := SessProcess(s, Now(expiry));
    assert t == s.(p2 := s.p2.Polled(Now(expiry)), s3 := s.s3.Restarted(Now(expiry)));
    S3Lasts(t, expiry, s.s3.period, expiry, after);
  }

  lemma {:induction false} OrderedSuffix(from: nat, xs: seq<nat>, ys: seq<nat>)
    requires NonDecreasing(from, xs + ys)
    ensures ys != [] ==> from <= ys[0] && NonDecreasing(ys[0], ys[1..])
    decreases |xs|
  {
    if xs == [] {
      assert xs + ys == ys;
    } else {
      assert (xs + ys)[1..] == xs[1..] + ys;
      OrderedSuffix(xs[0], xs[1..], ys);
    }
  }

  /** Polls that find P2 running on change nothing. */
  lemma {:induction false} P2Holds(s: Sess, since: nat, period: Word, now: nat, xs: seq<nat>, ys: seq<nat>)
    requires SessOk(s) && !s.etmActive && !s.s3.active && Follows(s.p2, Watch(true, since), period, now)
    requires NonDecreasing(now, xs + ys) && !AnyOver(since, period, xs)
    ensures PollRun(s, xs) == s && PollRun(s, xs + ys) == PollRun(s, ys)
    decreases |xs|
  {
    if xs == [] {
      assert xs + ys == ys;
    } else {
      assert (xs + ys)[1..] == xs[1..] + ys && xs == [xs[0]] + xs[1..] && [xs[0]][0] == xs[0];
      AnyOverSplit(since, period, [xs[0]], xs[1..]);
      FollowedDue(s.p2, Watch(true, since), period, xs[0]);
      assert SessProcess(s, Now(xs[0])) == s by {
        assert (xs[0] - since) % WORD_RANGE < period;
      }
      P2Holds(s, since, period, xs[0], xs[1..], ys);
    }
  }

  /** Nor does it end while a message comes in, however long that takes. */
  lemma ReceptionHoldsSession(s: Sess, e: IsoEvent, t0: nat, clocks: seq<nat>)
    requires SessOk(s) && s.sessType.NonDefault? && !s.etmActive && !s.p2.active && e.event.DataFF? && e.result.OkR?
    ensures var s1 := IsoEventStep(s, e, Now(t0)); PollRun(s1, clocks) == s1 && s1.sessType.NonDefault?
  {
    StoppedTimersStay(IsoEventStep(s, e, Now(t0)), clocks);
  }

  /** As constructed a request is given 250 ticks, and otherwise what SetSessionParam was told last. */
  lemma RequestDefersEndAsSet(buf: seq<Byte>, level: Byte, start: Word, entered: Word, v: Word, e: IsoEvent, t0: nat,
                              before: seq<nat>, expiry: nat, after: seq<nat>)
    requires |buf| >= 3 && e.event.Data? && e.result.OkR? && NonDecreasing(t0, before + [expiry] + after)
    requires !AnyOver(t0, v, before) && AnyOver(t0, v, [expiry])
    ensures var s := ServiceSessionStep(Runs.NewMgr(buf, level, start), 3, entered).sess;
            (v == 250 ==> PollRun(IsoEventStep(s, e, Now(t0)), before).sessType.NonDefault?
                          && (PollRun(IsoEventStep(s, e, Now(t0)), before + [expiry] + after).sessType.NonDefault? <==>
                              !AnyOver(expiry, 5000, after)))
    ensures var s := ParamStep(ServiceSessionStep(Runs.NewMgr(buf, level, start), 3, entered).sess, P2Tim, v);
            && PollRun(IsoEventStep(s, e, Now(t0)), before).sessType.NonDefault?
            && (PollRun(IsoEventStep(s, e, Now(t0)), before + [expiry] + after).sessType.NonDefault? <==>
                !AnyOver(expiry, 5000, after))
  {
    var s := ServiceSessionStep(Runs.NewMgr(buf, level, start), 3, entered).sess;
    if v == 250 {
      RequestDefersEnd(s, e, t0, before, expiry, after);
    }
    RequestDefersEnd(ParamStep(s, P2Tim, v), e, t0, before, expiry, after);
  }

  // ---- The pending mode ----

  /** The window between two wait messages is 5000 ticks as constructed, and otherwise what
      SetSessionParam was told last. */
  lemma PendingCountAsSet(start: nat, duration: Word, interval: Word, si: Byte, v: Word, moves: seq<Move>)
    requires duration >= interval >= 1000 && Prompt(start, start, duration - interval, interval, v, moves)
    ensures var waits := Copies(PendingMessage(si), (duration + interval - 1) / interval) + [[0x7f, si, 0x36]];
            var s := NewSess(0, Now(start));
            var widened := ParamStep(s, P2Enhc, v);
            && (v == 5000 ==> Requests(MoveRun(PendingStep(s, duration, interval, si, Now(start)), moves).log) == waits)
            && Requests(MoveRun(PendingStep(widened, duration, interval, si, Now(start)), moves).log) == waits
  {
    var s := NewSess(0, Now(start));
    var waits := Copies(PendingMessage(si), (duration + interval - 1) / interval) + [[0x7f, si, 0x36]];
    assert [] + Copies(PendingMessage(si), (duration + interval - 1) / interval) + [[0x7f, si, 0x36]] == waits;
    if v == 5000 {
      PendingCount(s, start, duration, interval, si, moves);
    }
    PendingCount(ParamStep(s, P2Enhc, v), start, duration, interval, si, moves);
  }

  /** A client that asks for the pending mode has the service it was asked for named in every wait
      message and in the final refusal. */
  lemma PendingNamesService(m: Mgr, start: nat, duration: Word, interval: Word, moves: seq<Move>)
    requires MgrOk(m) && duration >= interval >= 1000
    requires Prompt(start, start, duration - interval, interval, m.sess.tims.p2Enhanced, moves)
    ensures var r := MoveRun(CallStep(m, Pend(duration, interval), Now(start)).sess, moves);
            Requests(r.log) ==
            Requests(m.sess.log)
            + Copies([0x7f, m.req.si, 0x78], (duration + interval - 1) / interval)
            + [[0x7f, m.req.si, 0x36]]
  {
    PendingCount(m.sess, start, duration, interval, m.req.si, moves);
  }

  /** The confirmations of wait messages do not prolong the session, and messages that come in the
      meantime neither stop it nor reach the client. */
  lemma PendingLeavesS3(s: Sess, e: IsoEvent, now: Word)
    requires s.etmActive && (e.event.Conf? ==> !e.result.TimeoutCr?) && !e.event.DataFF?
    ensures var t := IsoEventStep(s, e, now);
            && t.s3 == s.s3 && t.p2 == s.p2 && t.sessType == s.sessType && t.etmActive
            && t.log == s.log + (if e.event.Data? && !e.result.OkR? then [ConfirmedNok] else [])
  {
  }

  // ---- What the upper layer is told ----

  /** The indications and failures among the session's doings. */
  function Told(log: seq<SessEvent>): seq<SessEvent> {
    if log == [] then []
    else
      var k := |log| - 1;
      Told(log[..k]) + (if log[k].Indicated? || log[k].ConfirmedNok? then [log[k]] else [])
  }

  lemma ToldAppend(log: seq<SessEvent>, event: SessEvent)
    ensures Told(log + [event]) == Told(log) + (if event.Indicated? || event.ConfirmedNok? then [event] else [])
  {
    assert (log + [event])[..|log|] == log;
  }

  /** What a move has to tell: each message that arrives outside the pending mode, as it is and with
      its kind of address, and each reception that failed. */
  function ToTell(s: Sess, m: Move): seq<SessEvent> {
    if m.PollAt? || !m.event.event.Data? then []
    else if !m.event.result.OkR? then [ConfirmedNok]
    else if s.etmActive then []
    else [Indicated(m.event.payload, m.event.length, if m.event.address.Physical? then Phys else Func)]
  }

  function AllToTell(s: Sess, moves: seq<Move>): seq<SessEvent>
    requires SessOk(s)
    decreases |moves|
  {
    if moves == [] then [] else ToTell(s, moves[0]) + AllToTell(MoveStep(s, moves[0]), moves[1..])
  }

  lemma PollTellsNothing(s: Sess, now: Word)
    requires SessOk(s)
    ensures Told(SessProcess(s, now).log) == Told(s.log)
  {
    ToldAppend(s.log, S3Timeout);
    var a := S3Step(s, now);
    assert Told(a.log) == Told(s.log) && a.etmBuf == s.etmBuf;
    RestTellsNothing(a, now);
  }

  lemma RestTellsNothing(a: Sess, now: Word)
    requires SessOk(a)
    ensures Told(EtmStep(P2Step(a, now), now).log) == Told(a.log)
  {
    ToldAppend(a.log, Sent([NR_SI, a.etmBuf[1], ENOA]));
    var b := P2Step(a, now);
    assert Told(b.log) == Told(a.log);
    ToldAppend(b.log, Sent(b.etmBuf));
  }

  /** In every run the upper layer is told exactly that, in order. */
  lemma {:induction false} UpperLayerTold(s: Sess, moves: seq<Move>)
    requires SessOk(s)
    ensures Told(MoveRun(s, moves).log) == Told(s.log) + AllToTell(s, moves)
    decreases |moves|
  {
    if moves != [] {
      var t := MoveTells(s, moves);
      UpperLayerTold(t, moves[1..]);
    }
  }

  lemma MoveTells(s: Sess, moves: seq<Move>) returns (t: Sess)
    requires SessOk(s) && moves != []
    ensures SessOk(t) && MoveRun(s, moves) == MoveRun(t, moves[1..])
    ensures AllToTell(s, moves) == ToTell(s, moves[0]) + AllToTell(t, moves[1..])
    ensures Told(t.log) == Told(s.log) + ToTell(s, moves[0])
  {
    t := MoveStep(s, moves[0]);
    match moves[0]
    case PollAt(clock) => PollTellsNothing(s, Now(clock));
    case EventAt(clock, e) => EventTells(s, e, clock);
  }

  lemma EventTells(s: Sess, e: IsoEvent, clock: nat)
    ensures Told(IsoEventStep(s, e, Now(clock)).log) == Told(s.log) + ToTell(s, EventAt(clock, e))
  {
    EventLog(s, e, Now(clock));
    var told := ToTell(s, EventAt(clock, e));
    if told == [] {
      assert s.log + told == s.log;
    } else {
      ToldAppend(s.log, told[0]);
      assert told == [told[0]];
    }
  }

  lemma EventLog(s: Sess, e: IsoEvent, now: Word)
    ensures forall clock :: IsoEventStep(s, e, now).log == s.log + ToTell(s, EventAt(clock, e))
  {
  }
}
