/** How fast a sender may send (src/uds/isotp/docan-sender.cpp:117-127, 143-148, 166-187): the
    flow control in force bounds the number of consecutive frames by its block size and their
    rate by its STmin, under any polling, any flow control and across the wrap of the tick counter. */
module SenderRate {
  import opened IsoTpTypes
  import opened Timers
  import opened Pci
  import opened TpPort
  import opened Sender
  import opened SenderRuns

  /** Bookkeeping about the clear-to-send in force: when it was accepted, when the STmin timer
      last fired (or was started), how many frames have gone out since, and the block size and
      the pause it asked for. */
  datatype Grant = Grant(since: nat, fired: nat, frames: nat, block: Byte, pause: Byte)

  /** Before the first clear-to-send: no frame may go out, and none has. */
  function NoGrant(w: TxWorld): Grant {
    Grant(w.clock, w.clock, 0, 0, 0)
  }

  predicate IsGrant(w: TxWorld, a: TxAction) {
    a.Flow? && w.tx.state == Wait && a.status == 0
  }

  /** The ticks an STmin byte stands for: up to 0x7f the byte itself, 1 for the fractions of a
      millisecond 0xf1 to 0xf9, the longest pause for the reserved bytes. */
  function AskedPause(st: Byte): Byte {
    if st <= 0x7f then st else if 0xf1 <= st <= 0xf9 then 1 else 127
  }

  function NewFrames(w: TxWorld, w': TxWorld): nat {
    if |w'.io.sent| >= |w.io.sent| then |w'.io.sent| - |w.io.sent| else 0
  }

  function GrantNext(g: Grant, w: TxWorld, cfg: Config, a: TxAction): Grant
    requires WorldOk(w, cfg)
  {
    if IsGrant(w, a) then Grant(w.clock, w.clock, 0, a.bs, AskedPause(a.st))
    else if a.Poll? && w.tx.state == Pause && w.tx.stMin.Due(Now(w.clock)) then g.(fired := w.clock)
    else if a.Poll? then g.(frames := g.frames + NewFrames(w, PollWorld(w, cfg)))
    else g
  }

  function GrantRun(g: Grant, w: TxWorld, cfg: Config, actions: seq<TxAction>): Grant
    requires WorldOk(w, cfg)
    decreases |actions|
  {
    if actions == [] then g
    else GrantRun(GrantNext(g, w, cfg, actions[0]), TxNext(w, cfg, actions[0]), cfg, actions[1..])
  }

  /** `frames` pauses of `s` ticks fit between `from` and `to`. */
  predicate Paced(frames: nat, s: nat, from: nat, to: nat) {
    from + frames * s <= to
  }

  /** The grant covers what has been sent: within the block, and each frame so far has had its
      pause; a sender about to send has waited for one more. */
  ghost predicate RateOk(g: Grant, w: TxWorld) {
    var s := g.pause;
    && g.since <= g.fired <= w.clock
    && g.frames <= BlockLimit(g.block)
    && Paced(g.frames, s, g.since, w.clock)
    && (w.tx.state == Pause || w.tx.state == MfDt ==>
          && w.tx.stmin == s && w.tx.segblkcount == g.block
          && w.tx.currblknum == g.frames < BlockLimit(g.block)
          && (s > 0 ==> w.tx.stMin == TimerState(s, Now(g.fired), true, true)))
    && (w.tx.state == Pause ==> s > 0 && Paced(g.frames, s, g.since, g.fired))
    && (w.tx.state == MfDt ==> Paced(g.frames + 1, s, g.since, g.fired))
  }

  /** What the loop does to the block count: it never passes the block, and with a pause
      prescribed it sends at most one frame. */
  lemma {:induction false} BurstWithinBlock(tx: TxState, io: Io, cfg: Config, now: Word)
    requires tx.state == MfDt && TxOk(tx, cfg) && tx.currblknum < BlockLimit(tx.segblkcount)
    ensures var b := Burst(tx, io, cfg, now);
            var e := |b.io.sent| - |io.sent|;
            && e >= 0 && tx.currblknum + e <= BlockLimit(tx.segblkcount)
            && b.tx.segblkcount == tx.segblkcount && b.tx.stmin == tx.stmin && b.tx.stMin == tx.stMin
            && (b.tx.state == Pause || b.tx.state == MfDt ==>
                  b.tx.currblknum == tx.currblknum + e < BlockLimit(tx.segblkcount))
            && (tx.stmin > 0 ==> e <= 1 && (b.tx.state == MfDt ==> e == 0))
            && (b.tx.state == Pause ==> tx.stmin > 0)
            && (b.tx.state == Wait ==> tx.currblknum + e == BlockLimit(tx.segblkcount))
    decreases tx.size - tx.passed
  {
    var t := Prepared(tx, cfg, now);
    var a := Advanced(t, ChunkLength(tx, cfg), io.Attempted(FrameOf(t.message, cfg)));
    if io.Accepts() && a.tx.state == MfDt {
      BurstWithinBlock(a.tx, a.io, cfg, now);
    }
  }

  lemma PacedOneMore(frames: nat, s: nat, since: nat, last: nat, clock: nat)
    requires Paced(frames, s, since, last) && last + s <= clock
    ensures Paced(frames + 1, s, since, clock)
  {
    OneMore(frames, s);
  }

  lemma PacedFewer(frames: nat, more: nat, s: nat, since: nat, to: nat, later: nat)
    requires Paced(more, s, since, to) && frames <= more && to <= later
    ensures Paced(frames, s, since, later)
  {
    assert frames * s <= more * s;
  }

  lemma NoPause(frames: nat, since: nat, to: nat)
    requires since <= to
    ensures Paced(frames, 0, since, to)
  {
  }

  /** One more frame at most, if there are pauses, does not exceed what was waited for. */
  lemma FramesPaced(g: Grant, w: TxWorld, frames: nat)
    requires RateOk(g, w) && w.tx.state == MfDt
    requires w.tx.stmin > 0 ==> frames <= g.frames + 1
    ensures Paced(frames, w.tx.stmin, g.since, w.clock) && Paced(frames, w.tx.stmin, g.since, g.fired)
    ensures w.tx.stmin == 0 ==> Paced(frames + 1, w.tx.stmin, g.since, g.fired)
  {
    var s := w.tx.stmin;
    if s > 0 {
      PacedFewer(frames, g.frames + 1, s, g.since, g.fired, g.fired);
      PacedFewer(frames, g.frames + 1, s, g.since, g.fired, w.clock);
    } else {
      NoPause(frames, g.since, w.clock);
      NoPause(frames, g.since, g.fired);
      NoPause(frames + 1, g.since, g.fired);
    }
  }

  /** What a poll in the state MfDt leaves behind, in the terms of the books. */
  lemma PollSummary(w: TxWorld, cfg: Config)
    requires WorldOk(w, cfg) && w.tx.state == MfDt && w.tx.currblknum < BlockLimit(w.tx.segblkcount)
    ensures var w' := PollWorld(w, cfg);
            var e := |w'.io.sent| - |w.io.sent|;
            && e >= 0 && w'.clock == w.clock && w.tx.currblknum + e <= BlockLimit(w.tx.segblkcount)
            && w'.tx.segblkcount == w.tx.segblkcount && w'.tx.stmin == w.tx.stmin && w'.tx.stMin == w.tx.stMin
            && (w'.tx.state == Pause || w'.tx.state == MfDt ==>
                  w'.tx.currblknum == w.tx.currblknum + e < BlockLimit(w.tx.segblkcount))
            && (w.tx.stmin > 0 ==> e <= 1 && (w'.tx.state == MfDt ==> e == 0))
            && (w'.tx.state == Pause ==> w.tx.stmin > 0)
  {
    BurstWithinBlock(w.tx, w.io, cfg, Now(w.clock));
  }

  lemma BurstRate(g: Grant, w: TxWorld, w': TxWorld)
    requires RateOk(g, w) && w.tx.state == MfDt && w'.clock == w.clock && |w'.io.sent| >= |w.io.sent|
    requires w'.tx.segblkcount == w.tx.segblkcount && w'.tx.stmin == w.tx.stmin && w'.tx.stMin == w.tx.stMin
    requires var e := |w'.io.sent| - |w.io.sent|;
             && w.tx.currblknum + e <= BlockLimit(w.tx.segblkcount)
             && (w'.tx.state == Pause || w'.tx.state == MfDt ==>
                   w'.tx.currblknum == w.tx.currblknum + e < BlockLimit(w.tx.segblkcount))
             && (w.tx.stmin > 0 ==> e <= 1 && (w'.tx.state == MfDt ==> e == 0))
             && (w'.tx.state == Pause ==> w.tx.stmin > 0)
    ensures RateOk(g.(frames := g.frames + |w'.io.sent| - |w.io.sent|), w')
  {
    FramesPaced(g, w, g.frames + |w'.io.sent| - |w.io.sent|);
  }

  lemma PollRate(g: Grant, w: TxWorld, cfg: Config)
    requires WorldOk(w, cfg) && RateOk(g, w)
    ensures RateOk(GrantNext(g, w, cfg, Poll), PollWorld(w, cfg))
  {
    match w.tx.state
    case MfDt =>
      PollSummary(w, cfg);
      BurstRate(g, w, PollWorld(w, cfg));
    case Pause =>
      if w.tx.stMin.Due(Now(w.clock)) {
        DueNeverEarly(w.tx.stMin, g.fired, w.clock);
        PacedOneMore(g.frames, w.tx.stmin, g.since, g.fired, w.clock);
      }
    case _ =>
  }

  lemma NextRate(g: Grant, w: TxWorld, cfg: Config, a: TxAction)
    requires WorldOk(w, cfg) && RateOk(g, w)
    ensures RateOk(GrantNext(g, w, cfg, a), TxNext(w, cfg, a))
  {
    if a.Poll? {
      PollRate(g, w, cfg);
    } else if a.Flow? && IsGrant(w, a) {
      if a.st == 0 {
        NoPause(1, w.clock, w.clock);
      }
    }
  }

  lemma {:induction false} RateRun(g: Grant, w: TxWorld, cfg: Config, actions: seq<TxAction>)
    requires WorldOk(w, cfg) && RateOk(g, w)
    ensures RateOk(GrantRun(g, w, cfg, actions), TxRun(w, cfg, actions))
    decreases |actions|
  {
    if actions != [] {
      NextRate(g, w, cfg, actions[0]);
      RateRun(GrantNext(g, w, cfg, actions[0]), TxNext(w, cfg, actions[0]), cfg, actions[1..]);
    }
  }

  /** At most floor((now - t0) / s) frames under a grant of time t0 that asked for a pause of s > 0
      ticks, and never more than the block size it gave (one, if that is 0). */
  predicate WithinGrant(g: Grant, now: nat) {
    && g.frames <= (if g.block == 0 then 1 else g.block)
    && g.since <= now
    && (g.pause > 0 ==> g.frames <= (now - g.since) / (g.pause as int))
  }

  /** An initially idle sender keeps within the clear-to-send in force, whatever happens to it. */
  lemma TransmissionRate(w: TxWorld, cfg: Config, actions: seq<TxAction>)
    requires WorldOk(w, cfg) && !w.tx.IsBusy()
    ensures WithinGrant(GrantRun(NoGrant(w), w, cfg, actions), TxRun(w, cfg, actions).clock)
  {
    var g0 := NoGrant(w);
    NoPause(0, w.clock, w.clock);
    RateRun(g0, w, cfg, actions);
    RateBound(GrantRun(g0, w, cfg, actions), TxRun(w, cfg, actions));
  }

  lemma RateBound(g: Grant, w: TxWorld)
    requires RateOk(g, w)
    ensures WithinGrant(g, w.clock)
  {
    if g.pause > 0 {
      QuotientAtLeast(g.frames, w.clock - g.since, g.pause);
    }
  }

  /** An idle or waiting sender, or one that pauses, emits no consecutive frame when polled;
      only flow control and the end of a pause bring it into the state that does. */
  lemma OnlyMfDtSends(w: TxWorld, cfg: Config, a: TxAction)
    requires WorldOk(w, cfg) && !a.Ask? && (a.Poll? ==> w.tx.state != MfDt)
    ensures TxNext(w, cfg, a).io == w.io.(log := TxNext(w, cfg, a).io.log)
    ensures TxNext(w, cfg, a).tx.state == MfDt && w.tx.state != MfDt ==>
              (a.Poll? && w.tx.state == Pause && w.tx.stMin.Due(Now(w.clock))) ||
              (IsGrant(w, a) && a.st == 0)
  {
  }

  // ---- STmin is not a minimum gap ----

  /** The pause timer runs from the poll that ended the last pause, not from the frame. If the
      poll that sends a frame comes a whole STmin after that one, the next frame can follow on
      the very same tick. */
  lemma LatePollClosesGap(w: TxWorld, cfg: Config, fired: nat)
    requires WorldOk(w, cfg) && w.tx.state == MfDt && w.tx.stmin > 0 && AlwaysAccepts(w.io)
    requires w.tx.stMin == TimerState(w.tx.stmin, Now(fired), true, true)
    requires fired + w.tx.stmin <= w.clock < fired + WORD_RANGE
    requires w.tx.passed + 2 * (cfg.candl - 1) <= w.tx.size && w.tx.currblknum + 1 < w.tx.segblkcount
    ensures var w' := TxRun(w, cfg, [Poll, Poll, Poll]);
            |w'.io.sent| == |w.io.sent| + 2 && w'.clock == w.clock
  {
    var w1 := TxNext(w, cfg, Poll);
    OneFrame(w, cfg);
    DueNeverEarly(w1.tx.stMin, fired, w1.clock);
    var w2 := TxNext(w1, cfg, Poll);
    OneFrame(w2, cfg);
    var w3 := TxNext(w2, cfg, Poll);
    assert [Poll, Poll, Poll][1..] == [Poll, Poll] && [Poll, Poll][1..] == [Poll] && [Poll][1..] == [];
    assert TxRun(w3, cfg, []) == w3;
    assert TxRun(w2, cfg, [Poll]) == w3;
    assert TxRun(w1, cfg, [Poll, Poll]) == w3;
  }

  lemma OneFrame(w: TxWorld, cfg: Config)
    requires WorldOk(w, cfg) && w.tx.state == MfDt && w.tx.stmin > 0 && AlwaysAccepts(w.io)
    requires w.tx.currblknum < 255 || w.tx.segblkcount > 0
    ensures var w' := TxNext(w, cfg, Poll);
            && |w'.io.sent| == |w.io.sent| + 1 && w'.clock == w.clock && w'.io.accept == w.io.accept
            && w'.tx.stMin == w.tx.stMin && w'.tx.stmin == w.tx.stmin && w'.tx.size == w.tx.size
            && w'.tx.passed == w.tx.passed + ChunkLength(w.tx, cfg)
            && (w'.tx.passed < w.tx.size && w.tx.currblknum + 1 < w.tx.segblkcount ==>
                  && w'.tx.state == Pause && w'.tx.currblknum == w.tx.currblknum + 1
                  && w'.tx.segblkcount == w.tx.segblkcount)
  {
    assert w.io.accept(w.io.attempts);
  }

  /** In general the next frame comes no earlier than one STmin after the poll that ended the
      last pause: the gap after a frame sent at `w.clock` is at least STmin less the ticks by
      which that frame was late. */
  lemma {:induction false} NextFrameNotBefore(w: TxWorld, cfg: Config, fired: nat, actions: seq<TxAction>)
    requires WorldOk(w, cfg) && w.tx.state == Pause && OnlyPolls(actions)
    requires w.tx.stMin == TimerState(w.tx.stmin, Now(fired), true, true) && fired <= w.clock
    ensures var w' := TxRun(w, cfg, actions);
            |w'.io.sent| > |w.io.sent| ==> w'.clock >= fired + w.tx.stmin
    ensures |TxRun(w, cfg, actions).io.sent| >= |w.io.sent| && TxRun(w, cfg, actions).clock >= w.clock
    decreases |actions|
  {
    if actions != [] {
      var w1 := TxNext(w, cfg, actions[0]);
      if actions[0].Poll? && w.tx.stMin.Due(Now(w.clock)) {
        DueNeverEarly(w.tx.stMin, fired, w.clock);
        ClockAndFramesGrow(w1, cfg, actions[1..]);
      } else {
        NextFrameNotBefore(w1, cfg, fired, actions[1..]);
      }
    }
  }

  /** A pausing sender whose timer is due sends the next frame on the same tick. */
  lemma DuePauseSends(w: TxWorld, cfg: Config)
    requires WorldOk(w, cfg) && w.tx.state == Pause && w.io.Accepts() && w.tx.stMin.Due(Now(w.clock))
    ensures var w' := TxRun(w, cfg, [Poll, Poll]); |w'.io.sent| > |w.io.sent| && w'.clock == w.clock
  {
    var w1 := PollWorld(w, cfg);
    assert w1.tx.state == MfDt && w1.io == w.io && w1.clock == w.clock;
    AcceptedPollSends(w1, cfg);
    TwoPolls(w, cfg);
  }

  lemma TwoPolls(w: TxWorld, cfg: Config)
    requires WorldOk(w, cfg)
    ensures TxRun(w, cfg, [Poll, Poll]) == PollWorld(PollWorld(w, cfg), cfg)
  {
    assert [Poll, Poll][1..] == [Poll] && [Poll][1..] == [];
    assert TxRun(PollWorld(w, cfg), cfg, [Poll]) == PollWorld(PollWorld(w, cfg), cfg);
  }

  lemma AcceptedPollSends(w: TxWorld, cfg: Config)
    requires WorldOk(w, cfg) && w.tx.state == MfDt && w.io.Accepts()
    ensures |PollWorld(w, cfg).io.sent| > |w.io.sent| && PollWorld(w, cfg).clock == w.clock
  {
    var t := Prepared(w.tx, cfg, Now(w.clock));
    var a := Advanced(t, ChunkLength(w.tx, cfg), w.io.Attempted(FrameOf(t.message, cfg)));
    assert |a.io.sent| == |w.io.sent| + 1;
    if a.tx.state == MfDt {
      BurstGrows(a.tx, a.io, cfg, Now(w.clock));
    }
  }

  // ---- The first frame after a clear-to-send ----

  /** A sender that has been granted a pause of `s` ticks at time `since`, with no frame out yet. */
  predicate Unsent(w: TxWorld, s: Byte, since: nat) {
    w.tx.state == MfDt || (w.tx.state == Pause && s > 0 && w.tx.stMin == TimerState(s, Now(since), true, true))
  }

  /** A clear-to-send lets no frame out before the ticks it asked for are over, however often the
      sender is polled. */
  lemma GrantHoldsFrames(w: TxWorld, cfg: Config, bs: Byte, st: Byte, actions: seq<TxAction>)
    requires WorldOk(w, cfg) && w.tx.state == Wait && OnlyPolls(actions)
    ensures var w' := TxRun(FlowWorld(w, cfg, 0, bs, st), cfg, actions);
            |w'.io.sent| > |w.io.sent| ==> w'.clock >= w.clock + AskedPause(st)
  {
    var w1 := FlowWorld(w, cfg, 0, bs, st);
    if AskedPause(st) == 0 {
      ClockAndFramesGrow(w1, cfg, actions);
    } else {
      NextFrameNotBefore(w1, cfg, w.clock, actions);
    }
  }

  /** And once they are over, two polls let one out if none has gone out before. */
  lemma GrantReleasesFrame(w: TxWorld, cfg: Config, bs: Byte, st: Byte, actions: seq<TxAction>)
    requires WorldOk(w, cfg) && w.tx.state == Wait && OnlyPolls(actions) && AlwaysAccepts(w.io)
    requires var w1 := TxRun(FlowWorld(w, cfg, 0, bs, st), cfg, actions);
             w1.io.sent == w.io.sent && w.clock + AskedPause(st) <= w1.clock < w.clock + WORD_RANGE
    ensures var w1 := TxRun(FlowWorld(w, cfg, 0, bs, st), cfg, actions);
            |TxRun(w1, cfg, [Poll, Poll]).io.sent| > |w.io.sent|
  {
    UnsentRun(FlowWorld(w, cfg, 0, bs, st), cfg, AskedPause(st), w.clock, actions);
    UnsentSends(TxRun(FlowWorld(w, cfg, 0, bs, st), cfg, actions), cfg, AskedPause(st), w.clock);
  }

  lemma {:induction false} UnsentRun(w: TxWorld, cfg: Config, s: Byte, since: nat, actions: seq<TxAction>)
    requires WorldOk(w, cfg) && Unsent(w, s, since) && OnlyPolls(actions) && AlwaysAccepts(w.io)
    ensures var w' := TxRun(w, cfg, actions);
            |w'.io.sent| >= |w.io.sent|
            && (|w'.io.sent| == |w.io.sent| ==> Unsent(w', s, since) && AlwaysAccepts(w'.io))
    decreases |actions|
  {
    if actions != [] {
      var w1 := TxNext(w, cfg, actions[0]);
      NextGrows(w, cfg, actions[0]);
      ClockAndFramesGrow(w1, cfg, actions[1..]);
      if actions[0].Poll? && w.tx.state == MfDt {
        AcceptedPollSends(w, cfg);
      } else {
        UnsentRun(w1, cfg, s, since, actions[1..]);
      }
    }
  }

  lemma UnsentSends(w: TxWorld, cfg: Config, s: Byte, since: nat)
    requires WorldOk(w, cfg) && Unsent(w, s, since) && AlwaysAccepts(w.io)
    requires since + s <= w.clock < since + WORD_RANGE
    ensures |TxRun(w, cfg, [Poll, Poll]).io.sent| > |w.io.sent|
  {
    if w.tx.state == MfDt {
      AcceptedPollSends(w, cfg);
      TwoPolls(w, cfg);
      NextGrows(PollWorld(w, cfg), cfg, Poll);
    } else {
      DueNeverEarly(w.tx.stMin, since, w.clock);
      DuePauseSends(w, cfg);
    }
  }

  function Ticks(n: nat): (r: seq<TxAction>)
    ensures |r| == n
  {
    if n == 0 then [] else [Tick] + Ticks(n - 1)
  }

  lemma {:induction false} TicksThen(w: TxWorld, cfg: Config, n: nat, actions: seq<TxAction>)
    requires WorldOk(w, cfg)
    ensures TxRun(w, cfg, Ticks(n) + actions) == TxRun(w.(clock := w.clock + n), cfg, actions)
    decreases n
  {
    if n == 0 {
      assert Ticks(0) + actions == actions && w.(clock := w.clock + 0) == w;
    } else {
      var w1 := w.(clock := w.clock + 1);
      assert (Ticks(n) + actions)[0] == Tick && (Ticks(n) + actions)[1..] == Ticks(n - 1) + actions;
      TicksThen(w1, cfg, n - 1, actions);
      assert w1.(clock := w1.clock + (n - 1)) == w.(clock := w.clock + n);
    }
  }

  lemma {:induction false} TicksArePolls(n: nat)
    ensures OnlyPolls(Ticks(n) + [Poll, Poll])
    decreases n
  {
    if n > 0 {
      TicksArePolls(n - 1);
      var r := Ticks(n - 1) + [Poll, Poll];
      assert Ticks(n) + [Poll, Poll] == [Tick] + r;
    }
  }

  /** How many ticks after `now` a running timer is due: none once its period has passed. */
  lemma DueWithin(t: TimerState, clock: nat) returns (wait: nat)
    requires t.active && t.period > 0
    ensures t.Due(Now(clock + wait)) && wait <= t.period
    ensures wait < t.period <==> t.start != Now(clock)
  {
    var passed := Wrap(Now(clock) - t.start);
    wait := if passed >= t.period then 0 else t.period - passed;
    LaterBy(clock, t.start, passed, wait);
  }

  lemma LaterBy(clock: nat, start: Word, passed: Word, wait: nat)
    requires passed == Wrap(Now(clock) - start) && passed + wait < WORD_RANGE
    ensures Wrap(Now(clock + wait) - start) == passed + wait
    ensures passed == 0 <==> start == Now(clock)
  {
    var now := Now(clock);
    var later := now + wait;
    var q := clock / WORD_RANGE;
    assert clock == q * WORD_RANGE + now;
    assert Now(clock + wait) == if later < WORD_RANGE then later else later - WORD_RANGE by {
      if later < WORD_RANGE {
        assert clock + wait == q * WORD_RANGE + later;
      } else {
        assert clock + wait == (q + 1) * WORD_RANGE + (later - WORD_RANGE);
      }
    }
    assert passed == if now >= start then now - start else now - start + WORD_RANGE;
  }

  /** No polling of the pausing sender `w` sends the next frame within STmin of the last one. */
  ghost predicate GapKept(w: TxWorld, cfg: Config)
    requires WorldOk(w, cfg)
  {
    forall actions :: OnlyPolls(actions) ==>
      var w' := TxRun(w, cfg, actions);
      |w'.io.sent| > |w.io.sent| ==> w'.clock >= w.clock + w.tx.stmin
  }

  /** When STmin is a minimum gap: a sender has just sent a frame and pauses. Every later polling
      keeps the gap if and only if the frame went out on the very tick of the poll that ended
      the last pause; a frame that was late by any number of ticks lets the next one follow that
      much too soon. */
  lemma GapKeptIff(w: TxWorld, cfg: Config)
    requires WorldOk(w, cfg) && w.tx.state == Pause && w.tx.stmin > 0 && w.io.Accepts()
    requires w.tx.stMin == TimerState(w.tx.stmin, w.tx.stMin.start, true, true)
    ensures GapKept(w, cfg) <==> w.tx.stMin.start == Now(w.clock)
  {
    if w.tx.stMin.start == Now(w.clock) {
      forall actions | OnlyPolls(actions)
        ensures |TxRun(w, cfg, actions).io.sent| > |w.io.sent| ==> TxRun(w, cfg, actions).clock >= w.clock + w.tx.stmin
      {
        NextFrameNotBefore(w, cfg, w.clock, actions);
      }
    } else {
      var wait := DueWithin(w.tx.stMin, w.clock);
      var actions := Ticks(wait) + [Poll, Poll];
      TicksThen(w, cfg, wait, [Poll, Poll]);
      DuePauseSends(w.(clock := w.clock + wait), cfg);
      TicksArePolls(wait);
      assert OnlyPolls(actions) && |TxRun(w, cfg, actions).io.sent| > |w.io.sent|;
      assert TxRun(w, cfg, actions).clock == w.clock + wait;
    }
  }

  /** The same for the frame itself: a poll at `w.clock` sends it, `fired` being the time of the
      poll that ended the pause before it, less than one turn of the counter ago. */
  lemma FrameGapIff(w: TxWorld, cfg: Config, fired: nat)
    requires WorldOk(w, cfg) && w.tx.state == MfDt && w.tx.stmin > 0
    requires w.tx.stMin == TimerState(w.tx.stmin, Now(fired), true, true) && fired <= w.clock < fired + WORD_RANGE
    requires PollWorld(w, cfg).tx.state == Pause && PollWorld(w, cfg).io.Accepts()
    ensures |PollWorld(w, cfg).io.sent| == |w.io.sent| + 1
    ensures GapKept(PollWorld(w, cfg), cfg) <==> w.clock == fired
  {
    FrameBeforePause(w, cfg);
    GapKeptIff(PollWorld(w, cfg), cfg);
    WrappedDifference(fired, w.clock);
  }

  lemma FrameBeforePause(w: TxWorld, cfg: Config)
    requires WorldOk(w, cfg) && w.tx.state == MfDt && w.tx.stmin > 0 && PollWorld(w, cfg).tx.state == Pause
    ensures var w' := PollWorld(w, cfg);
            && |w'.io.sent| == |w.io.sent| + 1 && w'.clock == w.clock
            && w'.tx.stMin == w.tx.stMin && w'.tx.stmin == w.tx.stmin
  {
  }

  lemma {:induction false} BurstGrows(tx: TxState, io: Io, cfg: Config, now: Word)
    requires tx.state == MfDt && TxOk(tx, cfg)
    ensures |Burst(tx, io, cfg, now).io.sent| >= |io.sent|
    decreases tx.size - tx.passed
  {
    var t := Prepared(tx, cfg, now);
    var a := Advanced(t, ChunkLength(tx, cfg), io.Attempted(FrameOf(t.message, cfg)));
    if io.Accepts() && a.tx.state == MfDt {
      BurstGrows(a.tx, a.io, cfg, now);
    }
  }

  lemma {:induction false} ClockAndFramesGrow(w: TxWorld, cfg: Config, actions: seq<TxAction>)
    requires WorldOk(w, cfg)
    ensures TxRun(w, cfg, actions).clock >= w.clock && |TxRun(w, cfg, actions).io.sent| >= |w.io.sent|
    decreases |actions|
  {
    if actions != [] {
      NextGrows(w, cfg, actions[0]);
      ClockAndFramesGrow(TxNext(w, cfg, actions[0]), cfg, actions[1..]);
    }
  }

  lemma NextGrows(w: TxWorld, cfg: Config, a: TxAction)
    requires WorldOk(w, cfg)
    ensures var w' := TxNext(w, cfg, a);
            WorldOk(w', cfg) && w'.clock >= w.clock && |w'.io.sent| >= |w.io.sent|
  {
    if a.Poll? && w.tx.state == MfDt {
      BurstGrows(w.tx, w.io, cfg, Now(w.clock));
    }
  }
}
