/** Accounts over all runs of a sender, whatever the bus refuses and whatever flow control it
    is sent: every transfer is confirmed exactly once, unless another request takes its place. */
module SenderLedger {
  import opened IsoTpTypes
  import opened Timers
  import opened Pci
  import opened TpPort
  import opened Sender
  import opened SenderRuns

  function Busy(w: TxWorld): nat {
    if w.tx.IsBusy() then 1 else 0
  }

  /** A request whose length the sender accepts. */
  predicate Admitted(w: TxWorld, a: TxAction) {
    a.Ask? && 0 < |a.data| <= |w.tx.txbuff|
  }

  /** What an action opens in the books: a segmented transfer whose first frame the bus took, a
      single frame the bus took, a flow control nobody was waiting for. */
  function Opened(w: TxWorld, cfg: Config, a: TxAction): nat
    requires WorldOk(w, cfg)
  {
    match a
    case Ask(data) => if Admitted(w, a) && w.io.Accepts() then 1 else 0
    case Flow(_, _, _) => if w.tx.IsBusy() then 0 else 1
    case _ => 0
  }

  /** Transfers that end in silence: those a new request takes the place of. */
  function Superseded(w: TxWorld, a: TxAction): nat {
    if Admitted(w, a) && w.tx.IsBusy() then 1 else 0
  }

  function TotalOpened(w: TxWorld, cfg: Config, actions: seq<TxAction>): nat
    requires WorldOk(w, cfg)
    decreases |actions|
  {
    if actions == [] then 0
    else Opened(w, cfg, actions[0]) + TotalOpened(TxNext(w, cfg, actions[0]), cfg, actions[1..])
  }

  function TotalSuperseded(w: TxWorld, cfg: Config, actions: seq<TxAction>): nat
    requires WorldOk(w, cfg)
    decreases |actions|
  {
    if actions == [] then 0
    else Superseded(w, actions[0]) + TotalSuperseded(TxNext(w, cfg, actions[0]), cfg, actions[1..])
  }

  /** The loop confirms exactly when it ends the transfer, and then the As timer is off. */
  lemma {:induction false} BurstConfirms(tx: TxState, io: Io, cfg: Config, now: Word)
    requires tx.state == MfDt && TxOk(tx, cfg)
    ensures var b := Burst(tx, io, cfg, now);
            && b.io.log == (if b.tx.IsBusy() then io.log else io.log + [TxEvent(OkS)])
            && (b.tx.nAs.active ==> b.tx.state == MfDt)
    decreases tx.size - tx.passed
  {
    var t := Prepared(tx, cfg, now);
    var a := Advanced(t, ChunkLength(tx, cfg), io.Attempted(FrameOf(t.message, cfg)));
    if io.Accepts() && a.tx.state == MfDt {
      BurstConfirms(a.tx, a.io, cfg, now);
    }
  }

  /** ProcessTx and OnFlowControl: from busy to idle with exactly one confirmation, otherwise
      none - but for the one that a stray flow control gets. */
  lemma StepConfirms(w: TxWorld, cfg: Config, a: TxAction)
    requires WorldOk(w, cfg) && (a.Poll? || a.Flow?)
    ensures var w' := TxNext(w, cfg, a);
            && (w.tx.IsBusy() ==> |w'.io.log| - |w.io.log| == Busy(w) - Busy(w'))
            && (!w.tx.IsBusy() ==> !w'.tx.IsBusy() && |w'.io.log| - |w.io.log| == if a.Flow? then 1 else 0)
            && w.io.log <= w'.io.log
            && forall i :: |w.io.log| <= i < |w'.io.log| ==> w'.io.log[i].event == Conf
  {
    if a.Poll? && w.tx.state == MfDt {
      BurstConfirms(w.tx, w.io, cfg, Now(w.clock));
    }
  }

  lemma StepBalance(w: TxWorld, cfg: Config, a: TxAction)
    requires WorldOk(w, cfg)
    ensures var w' := TxNext(w, cfg, a);
            |w'.io.log| + Busy(w') + Superseded(w, a) == |w.io.log| + Busy(w) + Opened(w, cfg, a)
  {
    if a.Poll? || a.Flow? {
      StepConfirms(w, cfg, a);
    }
  }

  /** Conservation of transfers: what was opened is confirmed, superseded or still on. */
  lemma {:induction false} ConfirmationLedger(w: TxWorld, cfg: Config, actions: seq<TxAction>)
    requires WorldOk(w, cfg)
    ensures var w' := TxRun(w, cfg, actions);
            |w'.io.log| - |w.io.log| + Busy(w') + TotalSuperseded(w, cfg, actions) ==
            Busy(w) + TotalOpened(w, cfg, actions)
    decreases |actions|
  {
    if actions != [] {
      StepBalance(w, cfg, actions[0]);
      ConfirmationLedger(TxNext(w, cfg, actions[0]), cfg, actions[1..]);
    }
  }

  // ---- Waiting for flow control ----

  lemma {:induction false} BurstKeepsBs(tx: TxState, io: Io, cfg: Config, now: Word)
    requires tx.state == MfDt && TxOk(tx, cfg)
    ensures Burst(tx, io, cfg, now).tx.nBs == tx.nBs
    decreases tx.size - tx.passed
  {
    var t := Prepared(tx, cfg, now);
    var a := Advanced(t, ChunkLength(tx, cfg), io.Attempted(FrameOf(t.message, cfg)));
    if io.Accepts() && a.tx.state == MfDt {
      BurstKeepsBs(a.tx, a.io, cfg, now);
    }
  }

  /** A sender whose Bs timer is off never gives up waiting: polls alone cannot end the wait. */
  lemma {:induction false} StoppedBsWaitsForever(w: TxWorld, cfg: Config, actions: seq<TxAction>)
    requires WorldOk(w, cfg) && w.tx.state == Wait && !w.tx.nBs.active && OnlyPolls(actions)
    ensures var w' := TxRun(w, cfg, actions); w'.tx == w.tx && w'.io == w.io
    decreases |actions|
  {
    if actions != [] {
      StoppedBsWaitsForever(TxNext(w, cfg, actions[0]), cfg, actions[1..]);
    }
  }

  /** A running Bs timer does end it, at the first poll after its period. */
  lemma RunningBsGivesUp(w: TxWorld, cfg: Config, since: nat)
    requires WorldOk(w, cfg) && w.tx.state == Wait && w.tx.nBs.active && StartedAt(w.tx.nBs, since)
    requires since + w.tx.nBs.period <= w.clock < since + WORD_RANGE
    ensures var w' := TxNext(w, cfg, Poll);
            !w'.tx.IsBusy() && w'.io.log == w.io.log + [TxEvent(TimeoutBs)]
  {
    DueNeverEarly(w.tx.nBs, since, w.clock);
  }

  /** Polls, ticks and flow controls other than a request to wait. */
  predicate NoWaitAsked(actions: seq<TxAction>) {
    forall i :: 0 <= i < |actions| ==>
      !actions[i].Ask? && (actions[i].Flow? ==> actions[i].status != FlowByte(FlowWait))
  }

  /** Once a flow control has let consecutive frames through, the Bs timer stays off until the
      peer asks to wait, whatever else it sends: at the end of each block the sender waits
      without limit. */
  lemma {:induction false} NoTimeoutAfterBlock(w: TxWorld, cfg: Config, actions: seq<TxAction>)
    requires WorldOk(w, cfg) && (w.tx.IsBusy() ==> !w.tx.nBs.active) && NoWaitAsked(actions)
    ensures var w' := TxRun(w, cfg, actions);
            && (w'.tx.IsBusy() ==> !w'.tx.nBs.active)
            && w.io.log <= w'.io.log
            && forall i :: |w.io.log| <= i < |w'.io.log| ==> w'.io.log[i] != TxEvent(TimeoutBs)
    decreases |actions|
  {
    if actions != [] {
      NoTimeoutStep(w, cfg, actions[0]);
      NoTimeoutAfterBlock(TxNext(w, cfg, actions[0]), cfg, actions[1..]);
    }
  }

  lemma NoTimeoutStep(w: TxWorld, cfg: Config, a: TxAction)
    requires WorldOk(w, cfg) && (w.tx.IsBusy() ==> !w.tx.nBs.active) && NoWaitAsked([a])
    ensures var w' := TxNext(w, cfg, a);
            && (w'.tx.IsBusy() ==> !w'.tx.nBs.active)
            && w.io.log <= w'.io.log
            && forall i :: |w.io.log| <= i < |w'.io.log| ==> w'.io.log[i] != TxEvent(TimeoutBs)
  {
    assert !a.Ask? && (a.Flow? ==> a.status != FlowByte(FlowWait)) by {
      assert [a][0] == a;
    }
    if a.Poll? && w.tx.state == MfDt {
      BurstConfirms(w.tx, w.io, cfg, Now(w.clock));
      BurstKeepsBs(w.tx, w.io, cfg, Now(w.clock));
    }
  }
}
