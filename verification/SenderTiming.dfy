/** When a sender gives up (src/uds/isotp/docan-sender.cpp:33-38, 70-77, 92-101, 129-138, 160-192):
    in every run N_Bs runs out exactly a period after the first frame or the last request to wait,
    and N_As exactly a period after the first of a row of refused attempts. */
module SenderTiming {
  import opened IsoTpTypes
  import opened Timers
  import opened Pci
  import opened TpPort
  import opened Sender
  import opened SenderRuns
  import opened SenderLedger
  import opened StaleFlag

  /** The events of one kind that a step adds. */
  predicate Reports(before: Io, after: Io, result: NResult) {
    exists i :: |before.log| <= i < |after.log| && after.log[i] == TxEvent(result)
  }

  // ---- N_Bs: waiting for flow control ----

  /** A payload that takes more than one frame. */
  predicate TakesSeveral(data: seq<Byte>, cfg: Config) {
    |data| + (if cfg.candl <= 8 then 1 else 2) > cfg.candl
  }

  /** N_Bs is started by the first frame of a message and by each request to wait, and stopped by
      a clear-to-send. */
  function BsNext(b: Watch, w: TxWorld, cfg: Config, a: TxAction): Watch {
    match a
    case Ask(data) => if Admitted(w, a) && w.io.Accepts() && TakesSeveral(data, cfg) then Watch(true, w.clock) else b
    case Flow(status, _, _) =>
      if w.tx.state != Wait then b
      else if status == 0 then b.(running := false)
      else if status == 1 then Watch(true, w.clock)
      else b
    case _ => b
  }

  function BsRun(b: Watch, w: TxWorld, cfg: Config, actions: seq<TxAction>): Watch
    requires WorldOk(w, cfg)
    decreases |actions|
  {
    if actions == [] then b else BsRun(BsNext(b, w, cfg, actions[0]), TxNext(w, cfg, actions[0]), cfg, actions[1..])
  }

  ghost predicate BsOk(b: Watch, w: TxWorld, period: Word) {
    && w.tx.nBs.period == period && !w.tx.nBs.endless && b.since <= w.clock
    && (w.tx.state == Wait ==> Follows(w.tx.nBs, b, period, w.clock))
    && (w.tx.state == MfDt || w.tx.state == Pause ==> !w.tx.nBs.active && !b.running)
  }

  lemma BsStep(b: Watch, w: TxWorld, cfg: Config, a: TxAction, period: Word)
    requires WorldOk(w, cfg) && BsOk(b, w, period)
    ensures BsOk(BsNext(b, w, cfg, a), TxNext(w, cfg, a), period)
  {
    if a.Poll? && w.tx.state == MfDt {
      BurstKeepsBs(w.tx, w.io, cfg, Now(w.clock));
    }
  }

  lemma {:induction false} BsRuns(b: Watch, w: TxWorld, cfg: Config, actions: seq<TxAction>, period: Word)
    requires WorldOk(w, cfg) && BsOk(b, w, period)
    ensures BsOk(BsRun(b, w, cfg, actions), TxRun(w, cfg, actions), period)
    decreases |actions|
  {
    if actions != [] {
      BsStep(b, w, cfg, actions[0], period);
      BsRuns(BsNext(b, w, cfg, actions[0]), TxNext(w, cfg, actions[0]), cfg, actions[1..], period);
    }
  }

  lemma BsReported(b: Watch, w: TxWorld, cfg: Config, a: TxAction, period: Word)
    requires WorldOk(w, cfg) && BsOk(b, w, period)
    ensures var w' := TxNext(w, cfg, a);
            && (Reports(w.io, w'.io, TimeoutBs) <==> a.Poll? && w.tx.state == Wait && Over(b, period, w.clock))
            && (Reports(w.io, w'.io, TimeoutBs) ==> !w'.tx.IsBusy() && w'.io == w.io.Logged(TxEvent(TimeoutBs)))
            && (a.Poll? && w.tx.state == Wait && !Over(b, period, w.clock) ==> w' == w)
  {
    var w' := TxNext(w, cfg, a);
    if a.Poll? && w.tx.state == Wait {
      FollowedDue(w.tx.nBs, b, period, w.clock);
      if Over(b, period, w.clock) {
        assert w'.io.log[|w.io.log|] == TxEvent(TimeoutBs);
      }
    } else if a.Poll? && w.tx.state == MfDt {
      BurstConfirms(w.tx, w.io, cfg, Now(w.clock));
    }
  }

  /** In every run of an initially idle sender TIMEOUT_Bs is reported by exactly those polls that
      find it waiting a period after N_Bs was last started, and that ends the transfer. Any other
      poll of a waiting sender changes nothing. */
  lemma BsTimeoutIff(w: TxWorld, cfg: Config, actions: seq<TxAction>, a: TxAction)
    requires WorldOk(w, cfg) && !w.tx.IsBusy() && !w.tx.nBs.endless
    ensures var w1 := TxRun(w, cfg, actions);
            var w2 := TxNext(w1, cfg, a);
            var b := BsRun(Watch(false, w.clock), w, cfg, actions);
            && b.since <= w1.clock
            && (Reports(w1.io, w2.io, TimeoutBs) <==>
                a.Poll? && w1.tx.state == Wait && Over(b, w.tx.nBs.period, w1.clock))
            && (Reports(w1.io, w2.io, TimeoutBs) ==> !w2.tx.IsBusy() && w2.io == w1.io.Logged(TxEvent(TimeoutBs)))
            && (a.Poll? && w1.tx.state == Wait && !Over(b, w.tx.nBs.period, w1.clock) ==> w2 == w1)
  {
    BsRuns(Watch(false, w.clock), w, cfg, actions, w.tx.nBs.period);
    BsReported(BsRun(Watch(false, w.clock), w, cfg, actions), TxRun(w, cfg, actions), cfg, a, w.tx.nBs.period);
  }

  // ---- A request, and then silence ----

  /** The times at which a run of polls and ticks that begins at `clock` polls. */
  function PollTimes(clock: nat, actions: seq<TxAction>): seq<nat>
    decreases |actions|
  {
    if actions == [] then []
    else
      (if actions[0].Poll? then [clock] else []) +
      PollTimes(if actions[0].Tick? then clock + 1 else clock, actions[1..])
  }

  /** A sender that waits for flow control since `since` and hears nothing gives up at the first
      poll a period later, and only then. */
  lemma {:induction false} SilenceEnds(w: TxWorld, cfg: Config, since: nat, actions: seq<TxAction>)
    requires WorldOk(w, cfg) && w.tx.state == Wait && OnlyPolls(actions)
    requires Follows(w.tx.nBs, Watch(true, since), w.tx.nBs.period, w.clock)
    ensures var w' := TxRun(w, cfg, actions);
            if AnyOver(since, w.tx.nBs.period, PollTimes(w.clock, actions))
            then !w'.tx.IsBusy() && w'.io == w.io.Logged(TxEvent(TimeoutBs))
            else w'.tx == w.tx && w'.io == w.io
    decreases |actions|
  {
    if actions != [] {
      var a, rest := actions[0], actions[1..];
      var w1 := TxNext(w, cfg, a);
      var times := PollTimes(w1.clock, rest);
      AnyOverSplit(since, w.tx.nBs.period, if a.Poll? then [w.clock] else [], times);
      FollowedDue(w.tx.nBs, Watch(true, since), w.tx.nBs.period, w.clock);
      if a.Poll? && Over(Watch(true, since), w.tx.nBs.period, w.clock) {
        assert [w.clock][0] == w.clock;
        IdleStaysIdle(w1, cfg, rest);
      } else {
        SilenceEnds(w1, cfg, since, rest);
      }
    }
  }

  lemma {:induction false} IdleStaysIdle(w: TxWorld, cfg: Config, actions: seq<TxAction>)
    requires WorldOk(w, cfg) && !w.tx.IsBusy() && OnlyPolls(actions)
    ensures var w' := TxRun(w, cfg, actions); w'.tx == w.tx && w'.io == w.io
    decreases |actions|
  {
    if actions != [] {
      IdleStaysIdle(TxNext(w, cfg, actions[0]), cfg, actions[1..]);
    }
  }

  /** After the first frame of a message and no flow control, TIMEOUT_Bs is reported at the first
      poll a Bs period later and never before, and once. */
  lemma UnansweredRequestGivesUp(w: TxWorld, cfg: Config, p: seq<Byte>, actions: seq<TxAction>)
    requires WorldOk(w, cfg) && 0 < |p| <= |w.tx.txbuff| && TakesSeveral(p, cfg) && w.io.Accepts()
    requires !w.tx.nBs.endless && OnlyPolls(actions)
    ensures var w1 := AskWorld(w, cfg, p);
            var w' := TxRun(w1, cfg, actions);
            if AnyOver(w.clock, w.tx.nBs.period, PollTimes(w.clock, actions))
            then !w'.tx.IsBusy() && w'.io == w1.io.Logged(TxEvent(TimeoutBs))
            else w'.tx.state == Wait && w'.io == w1.io
  {
    SilenceEnds(AskWorld(w, cfg, p), cfg, w.clock, actions);
  }

  /** Each request to wait begins the wait anew. */
  lemma WaitRestartsSilence(w: TxWorld, cfg: Config, bs: Byte, st: Byte, actions: seq<TxAction>)
    requires WorldOk(w, cfg) && w.tx.state == Wait && !w.tx.nBs.endless && OnlyPolls(actions)
    ensures var w' := TxRun(FlowWorld(w, cfg, 1, bs, st), cfg, actions);
            if AnyOver(w.clock, w.tx.nBs.period, PollTimes(w.clock, actions))
            then !w'.tx.IsBusy() && w'.io == w.io.Logged(TxEvent(TimeoutBs))
            else w'.tx.state == Wait && w'.io == w.io
  {
    SilenceEnds(FlowWorld(w, cfg, 1, bs, st), cfg, w.clock, actions);
  }

  /** After a clear-to-send no Bs timeout is reported until the peer asks to wait. */
  lemma GrantStopsBs(w: TxWorld, cfg: Config, bs: Byte, st: Byte, actions: seq<TxAction>)
    requires WorldOk(w, cfg) && w.tx.state == Wait && NoWaitAsked(actions)
    ensures var w1 := FlowWorld(w, cfg, 0, bs, st);
            var w' := TxRun(w1, cfg, actions);
            w1.tx.IsBusy() && w1.io == w.io && !Reports(w1.io, w'.io, TimeoutBs)
  {
    NoTimeoutAfterBlock(FlowWorld(w, cfg, 0, bs, st), cfg, actions);
  }

  /** As constructed, a sender gives up after 1000 ticks. */
  lemma FreshRequestGivesUp(txbuff: Buffer, io: Io, clock: nat, cfg: Config, p: seq<Byte>, actions: seq<TxAction>)
    requires cfg.candl >= 8 && 0 < |p| <= |txbuff| && TakesSeveral(p, cfg) && io.Accepts() && OnlyPolls(actions)
    ensures var w1 := AskWorld(TxWorld(NewTx(txbuff), io, clock), cfg, p);
            var w' := TxRun(w1, cfg, actions);
            if AnyOver(clock, 1000, PollTimes(clock, actions))
            then !w'.tx.IsBusy() && w'.io == w1.io.Logged(TxEvent(TimeoutBs))
            else w'.tx.state == Wait && w'.io == w1.io
  {
    UnansweredRequestGivesUp(TxWorld(NewTx(txbuff), io, clock), cfg, p, actions);
  }

  // ---- N_As: frames the bus refuses ----

  /** The watch as a refused attempt at `w.clock` finds it. */
  function AsStarted(b: Watch, w: TxWorld, w': TxWorld): Watch {
    if b.running && |w'.io.sent| == |w.io.sent| then b else Watch(true, w.clock)
  }

  /** N_As runs from the first consecutive frame the bus refuses, on through further refusals, until
      a consecutive frame is taken or the time is over. A new request does not stop it. */
  function AsNext(b: Watch, w: TxWorld, cfg: Config, a: TxAction, period: Word): Watch
    requires WorldOk(w, cfg) && b.since <= w.clock
  {
    if !(a.Poll? && w.tx.state == MfDt) then b
    else
      var w' := PollWorld(w, cfg);
      var started := AsStarted(b, w, w');
      if Refused(w, w') == 0 || Over(started, period, w.clock) then started.(running := false) else started
  }

  function AsRun(b: Watch, w: TxWorld, cfg: Config, actions: seq<TxAction>, period: Word): Watch
    requires WorldOk(w, cfg) && b.since <= w.clock
    decreases |actions|
  {
    if actions == [] then b
    else AsRun(AsNext(b, w, cfg, actions[0], period), TxNext(w, cfg, actions[0]), cfg, actions[1..], period)
  }

  /** What the loop leaves of N_As. */
  lemma {:induction false} BurstAs(tx: TxState, io: Io, cfg: Config, now: Word)
    requires tx.state == MfDt && TxOk(tx, cfg)
    ensures var b := Burst(tx, io, cfg, now);
            var e := |b.io.sent| - |io.sent|;
            && e >= 0
            && (b.io.attempts - io.attempts == e ==> b.tx.nAs.period == tx.nAs.period
                                                     && b.tx.nAs.endless == tx.nAs.endless && !b.tx.nAs.active)
            && (b.io.attempts - io.attempts != e ==>
                  b.tx.nAs == if tx.nAs.active && e == 0 then tx.nAs else tx.nAs.Restarted(now))
    decreases tx.size - tx.passed
  {
    var t := Prepared(tx, cfg, now);
    var a := Advanced(t, ChunkLength(tx, cfg), io.Attempted(FrameOf(t.message, cfg)));
    if io.Accepts() && a.tx.state == MfDt {
      BurstAs(a.tx, a.io, cfg, now);
    }
  }

  lemma AsPoll(b: Watch, w: TxWorld, cfg: Config, period: Word)
    requires WorldOk(w, cfg) && Follows(w.tx.nAs, b, period, w.clock) && w.tx.state == MfDt
    ensures var w' := PollWorld(w, cfg);
            && Follows(w'.tx.nAs, AsNext(b, w, cfg, Poll, period), period, w.clock)
            && (Reports(w.io, w'.io, TimeoutAs) <==> Refused(w, w') != 0 && Over(AsStarted(b, w, w'), period, w.clock))
            && (Reports(w.io, w'.io, TimeoutAs) ==> !w'.tx.IsBusy())
  {
    var now := Now(w.clock);
    var o := Burst(w.tx, w.io, cfg, now);
    BurstAs(w.tx, w.io, cfg, now);
    BurstConfirms(w.tx, w.io, cfg, now);
    var w' := PollWorld(w, cfg);
    if Refused(w, w') != 0 {
      FollowedDue(o.tx.nAs, AsStarted(b, w, w'), period, w.clock);
      if o.tx.nAs.Due(now) {
        assert w'.io.log[|w.io.log|] == TxEvent(TimeoutAs);
      }
    }
  }

  lemma AsStep(b: Watch, w: TxWorld, cfg: Config, a: TxAction, period: Word)
    requires WorldOk(w, cfg) && Follows(w.tx.nAs, b, period, w.clock)
    ensures Follows(TxNext(w, cfg, a).tx.nAs, AsNext(b, w, cfg, a, period), period, TxNext(w, cfg, a).clock)
  {
    if a.Poll? && w.tx.state == MfDt {
      AsPoll(b, w, cfg, period);
    }
  }

  lemma {:induction false} AsRuns(b: Watch, w: TxWorld, cfg: Config, actions: seq<TxAction>, period: Word)
    requires WorldOk(w, cfg) && Follows(w.tx.nAs, b, period, w.clock)
    ensures var w' := TxRun(w, cfg, actions);
            Follows(w'.tx.nAs, AsRun(b, w, cfg, actions, period), period, w'.clock)
    decreases |actions|
  {
    if actions != [] {
      AsStep(b, w, cfg, actions[0], period);
      AsRuns(AsNext(b, w, cfg, actions[0], period), TxNext(w, cfg, actions[0]), cfg, actions[1..], period);
    }
  }

  lemma AsReported(b: Watch, w: TxWorld, cfg: Config, a: TxAction, period: Word)
    requires WorldOk(w, cfg) && Follows(w.tx.nAs, b, period, w.clock)
    ensures var w' := TxNext(w, cfg, a);
            && (Reports(w.io, w'.io, TimeoutAs) <==>
                a.Poll? && w.tx.state == MfDt && Refused(w, w') != 0 && Over(AsStarted(b, w, w'), period, w.clock))
            && (Reports(w.io, w'.io, TimeoutAs) ==> !w'.tx.IsBusy())
  {
    if a.Poll? && w.tx.state == MfDt {
      AsPoll(b, w, cfg, period);
    }
  }

  /** In every run TIMEOUT_As is reported by exactly those polls whose last attempt is refused a
      period after the first refusal since a consecutive frame was taken, and ends the transfer. */
  lemma AsTimeoutIff(w: TxWorld, cfg: Config, actions: seq<TxAction>, a: TxAction)
    requires WorldOk(w, cfg) && !w.tx.nAs.active && !w.tx.nAs.endless
    ensures var w1 := TxRun(w, cfg, actions);
            var w2 := TxNext(w1, cfg, a);
            var b := AsRun(Watch(false, w.clock), w, cfg, actions, w.tx.nAs.period);
            && b.since <= w1.clock
            && (Reports(w1.io, w2.io, TimeoutAs) <==>
                && a.Poll? && w1.tx.state == MfDt && Refused(w1, w2) != 0
                && Over(AsStarted(b, w1, w2), w.tx.nAs.period, w1.clock))
            && (Reports(w1.io, w2.io, TimeoutAs) ==> !w2.tx.IsBusy())
  {
    var period := w.tx.nAs.period;
    AsRuns(Watch(false, w.clock), w, cfg, actions, period);
    AsReported(AsRun(Watch(false, w.clock), w, cfg, actions, period), TxRun(w, cfg, actions), cfg, a, period);
  }

  /** As constructed, refused frames are tried again for 1000 ticks. */
  lemma FreshRetries(txbuff: Buffer, io: Io, clock: nat, cfg: Config, actions: seq<TxAction>)
    requires cfg.candl >= 8
    ensures var w := TxWorld(NewTx(txbuff), io, clock);
            var w1 := TxRun(w, cfg, actions);
            var w2 := PollWorld(w1, cfg);
            var b := AsRun(Watch(false, clock), w, cfg, actions, 1000);
            && b.since <= w1.clock
            && (Reports(w1.io, w2.io, TimeoutAs) <==>
                w1.tx.state == MfDt && Refused(w1, w2) != 0 && Over(AsStarted(b, w1, w2), 1000, w1.clock))
  {
    AsTimeoutIff(TxWorld(NewTx(txbuff), io, clock), cfg, actions, Poll);
  }

  /** As a new request does not stop N_As, the first refusal of the next transfer can end it at
      once: the time since a refusal of the transfer before counts. */
  lemma OldRefusalCounts(w: TxWorld, cfg: Config, since: nat, p: seq<Byte>, bs: Byte)
    requires WorldOk(w, cfg) && 0 < |p| <= |w.tx.txbuff| && TakesSeveral(p, cfg) && w.io.Accepts()
    requires Follows(w.tx.nAs, Watch(true, since), w.tx.nAs.period, w.clock)
    requires Over(Watch(true, since), w.tx.nAs.period, w.clock) && !w.io.accept(w.io.attempts + 1)
    ensures var w1 := AskWorld(w, cfg, p);
            var w2 := PollWorld(FlowWorld(w1, cfg, 0, bs, 0), cfg);
            !w2.tx.IsBusy() && w2.io.sent == w1.io.sent && w2.io.log == w1.io.log + [TxEvent(TimeoutAs)]
  {
    FollowedDue(w.tx.nAs, Watch(true, since), w.tx.nAs.period, w.clock);
  }
}
