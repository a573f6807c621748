/** When a receiver gives up, and what becomes of every reception
    (src/uds/isotp/docan-receiver.cpp:7-125): in every run N_Cr runs out exactly a period after the
    last frame taken, and each reception is delivered, reported as failed, replaced or still on. */
module ReceiverTiming {
  import opened IsoTpTypes
  import opened Timers
  import opened Pci
  import opened TpPort
  import opened Receiver
  import opened ReceiverRuns
  import opened Segmentation
  import opened Reassembly

  // ---- N_Cr ----

  /** The time of the latest frame that began or continued a reception. */
  function LastTaken(last: nat, w: RxWorld, cfg: Config, actions: seq<RxAction>): nat
    decreases |actions|
  {
    if actions == [] then last
    else
      var a := actions[0];
      LastTaken(if IsAcceptedFirst(w, a) || IsTaken(w, a) then w.clock else last, RxNext(w, cfg, a), cfg, actions[1..])
  }

  ghost predicate CrOk(w: RxWorld, last: nat, period: Word) {
    && w.rx.cr.period == period && !w.rx.cr.endless && last <= w.clock
    && (w.rx.IsBusy() ==> Follows(w.rx.cr, Watch(true, last), period, w.clock))
  }

  lemma CrStep(w: RxWorld, cfg: Config, last: nat, a: RxAction, period: Word)
    requires CrOk(w, last, period)
    ensures CrOk(RxNext(w, cfg, a), if IsAcceptedFirst(w, a) || IsTaken(w, a) then w.clock else last, period)
  {
    if a.Arrive? {
      HeaderInsideFrame(a.data);
    }
  }

  lemma {:induction false} CrRun(w: RxWorld, cfg: Config, last: nat, actions: seq<RxAction>, period: Word)
    requires CrOk(w, last, period)
    ensures CrOk(RxRun(w, cfg, actions), LastTaken(last, w, cfg, actions), period)
    decreases |actions|
  {
    if actions != [] {
      var a := actions[0];
      CrStep(w, cfg, last, a, period);
      CrRun(RxNext(w, cfg, a), cfg, if IsAcceptedFirst(w, a) || IsTaken(w, a) then w.clock else last,
            actions[1..], period);
    }
  }

  /** A step reports that N_Cr has run out. */
  predicate TimesOut(before: Io, after: Io) {
    exists i :: |before.log| <= i < |after.log| && after.log[i].result == TimeoutCr
  }

  lemma CrReported(w: RxWorld, cfg: Config, last: nat, a: RxAction, period: Word)
    requires CrOk(w, last, period)
    ensures var w' := RxNext(w, cfg, a);
            && (TimesOut(w.io, w'.io) <==>
                a.RxPoll? && w.rx.IsBusy() && (w.clock - last) % WORD_RANGE >= period)
            && (TimesOut(w.io, w'.io) ==>
                  !w'.rx.IsBusy() && w'.rx.passed == w'.rx.rxsize == 0 && w'.rx.rxbuff == w.rx.rxbuff
                  && w'.io == w.io.Logged(RxEvent(Conf, TimeoutCr, [], 0)))
            && (a.RxPoll? && !TimesOut(w.io, w'.io) ==> w' == w)
  {
    if a.RxPoll? && w.rx.IsBusy() {
      FollowedDue(w.rx.cr, Watch(true, last), period, w.clock);
      if (w.clock - last) % WORD_RANGE >= period {
        assert RxNext(w, cfg, a).io.log[|w.io.log|].result == TimeoutCr;
      }
    }
  }

  /** In every run of an initially idle receiver, against any frames, the Cr timeout is reported by
      exactly those polls that find a reception on and a period gone by since the last frame that
      began or continued it; it ends the reception and clears the offset. Every other poll
      changes nothing. */
  lemma CrTimeoutIff(w: RxWorld, cfg: Config, actions: seq<RxAction>, a: RxAction)
    requires !w.rx.IsBusy() && !w.rx.cr.endless
    ensures var w1 := RxRun(w, cfg, actions);
            var w2 := RxNext(w1, cfg, a);
            var last := LastTaken(w.clock, w, cfg, actions);
            && last <= w1.clock
            && (TimesOut(w1.io, w2.io) <==>
                a.RxPoll? && w1.rx.IsBusy() && (w1.clock - last) % WORD_RANGE >= w.rx.cr.period)
            && (TimesOut(w1.io, w2.io) ==>
                  && !w2.rx.IsBusy() && w2.rx.passed == w2.rx.rxsize == 0
                  && w2.io == w1.io.Logged(RxEvent(Conf, TimeoutCr, [], 0)))
            && (a.RxPoll? && !TimesOut(w1.io, w2.io) ==> w2 == w1)
  {
    CrRun(w, cfg, w.clock, actions, w.rx.cr.period);
    CrReported(RxRun(w, cfg, actions), cfg, LastTaken(w.clock, w, cfg, actions), a, w.rx.cr.period);
  }

  /** A message sent after a Cr timeout is delivered as it was sent, whatever came before. */
  lemma TimeoutClearsOffset(w: RxWorld, cfg: Config, actions: seq<RxAction>, p: seq<Byte>, sender: Config,
                            at: nat -> Word)
    requires !w.rx.IsBusy() && !w.rx.cr.endless && Receivable(p, sender)
    requires var w1 := RxRun(w, cfg, actions);
             && TimesOut(w1.io, RxNext(w1, cfg, RxPoll).io)
             && (Segmented(p, sender) ==> |p| <= |w1.rx.rxbuff|)
    ensures var w1 := RxRun(w, cfg, actions);
            var w2 := RxNext(w1, cfg, RxPoll);
            var r := Feed(w2.rx, w2.io, cfg, Segments(p, sender), at);
            Delivered(r.io.log) == Delivered(w2.io.log) + [p] && !r.rx.IsBusy()
  {
    CrRun(w, cfg, w.clock, actions, w.rx.cr.period);
    var w1 := RxRun(w, cfg, actions);
    CrReported(w1, cfg, LastTaken(w.clock, w, cfg, actions), RxPoll, w.rx.cr.period);
    MessageDelivered(RxNext(w1, cfg, RxPoll).rx, RxNext(w1, cfg, RxPoll).io, cfg, p, sender, at);
  }

  /** A constructed receiver gives up 1000 ticks after the last frame. */
  lemma FreshReceptionGivesUp(rxbuff: Buffer, msg: Message, io: Io, clock: nat, cfg: Config, actions: seq<RxAction>)
    ensures var w := RxWorld(NewRx(rxbuff, msg), io, clock);
            var w1 := RxRun(w, cfg, actions);
            var last := LastTaken(clock, w, cfg, actions);
            TimesOut(w1.io, RxNext(w1, cfg, RxPoll).io) <==> w1.rx.IsBusy() && (w1.clock - last) % WORD_RANGE >= 1000
  {
    CrTimeoutIff(RxWorld(NewRx(rxbuff, msg), io, clock), cfg, actions, RxPoll);
  }

  // ---- The accounts ----

  function Open(w: RxWorld): nat {
    if w.rx.IsBusy() then 1 else 0
  }

  /** A consecutive frame that no reception waits for. */
  predicate IsStray(w: RxWorld, a: RxAction) {
    a.Arrive? && Unpack(a.data).kind.CF? && !w.rx.IsBusy()
  }

  /** What an action opens in the books: an accepted first frame, a single frame, a stray
      consecutive frame. */
  function OpenedRx(w: RxWorld, a: RxAction): nat {
    if IsAcceptedFirst(w, a) || IsStray(w, a) || (a.Arrive? && Unpack(a.data).kind.SF?) then 1 else 0
  }

  function TotalOpenedRx(w: RxWorld, cfg: Config, actions: seq<RxAction>): nat
    decreases |actions|
  {
    if actions == [] then 0 else OpenedRx(w, actions[0]) + TotalOpenedRx(RxNext(w, cfg, actions[0]), cfg, actions[1..])
  }

  /** An event that closes an entry: a delivery or a failure, but not the notice of a first frame. */
  predicate Closes(e: IsoEvent) {
    !e.event.DataFF?
  }

  function Closed(log: seq<IsoEvent>): nat {
    if log == [] then 0 else Closed(log[..|log| - 1]) + if Closes(log[|log| - 1]) then 1 else 0
  }

  lemma ClosedLogged(log: seq<IsoEvent>, e: IsoEvent)
    ensures Closed(log + [e]) == Closed(log) + if Closes(e) then 1 else 0
  {
    assert (log + [e])[..|log|] == log;
  }

  /** From busy to idle with exactly one closing event, whatever the frame: a single frame brings
      its own besides, and so does a stray consecutive frame. */
  lemma StepCloses(w: RxWorld, cfg: Config, a: RxAction)
    ensures var w' := RxNext(w, cfg, a);
            Closed(w'.io.log) + Open(w') == Closed(w.io.log) + Open(w) + OpenedRx(w, a)
  {
    if a.Arrive? {
      HeaderInsideFrame(a.data);
      FrameCloses(w, cfg, a.data);
    } else {
      ClosedLogged(w.io.log, RxEvent(Conf, TimeoutCr, [], 0));
    }
  }

  /** Closing events and open receptions of a receiver. */
  function Entries(o: RxOut): nat {
    Closed(o.io.log) + if o.rx.IsBusy() then 1 else 0
  }

  lemma FirstCloses(rx: RxState, io: Io, cfg: Config, dlen: nat, chunk: seq<Byte>, now: Word)
    requires dlen >= MIN_FF_CANDL
    ensures Entries(FirstStep(rx, io, cfg, dlen, chunk, now)) ==
            Entries(RxOut(rx, io)) + if dlen <= |rx.rxbuff| then 1 else 0
  {
    var io0 := if rx.IsBusy() then Unexpected(io) else io;
    ClosedLogged(io.log, RxEvent(Data, UnexpPdu, [], 0));
    ClosedLogged(io0.log, RxEvent(DataFF, OkR, [], dlen));
  }

  lemma ConsecutiveCloses(rx: RxState, io: Io, cfg: Config, sn: Byte, offered: seq<Byte>, now: Word)
    ensures Entries(ConsecutiveStep(rx, io, cfg, sn, offered, now)) ==
            Entries(RxOut(rx, io)) + if rx.IsBusy() then 0 else 1
  {
    var t := Taken(rx, offered[..WantedLength(rx, |offered|)], now);
    ClosedLogged(io.log, RxEvent(Data, UnexpPdu, [], 0));
    ClosedLogged(io.log, RxEvent(Data, OkR, Assembled(t), t.rxsize));
  }

  lemma SingleCloses(rx: RxState, io: Io, payload: seq<Byte>)
    ensures Entries(SingleStep(rx, io, payload)) == Entries(RxOut(rx, io)) + 1
  {
    ClosedLogged(io.log, RxEvent(Data, UnexpPdu, [], 0));
    ClosedLogged((if rx.IsBusy() then Unexpected(io) else io).log, RxEvent(Data, OkR, payload, |payload|));
  }

  lemma FrameCloses(w: RxWorld, cfg: Config, data: seq<Byte>)
    requires Unpack(data).pcilen <= |data| && (Unpack(data).pcilen == 0 <==> Unpack(data).kind.Error?)
    requires Unpack(data).kind.FF? ==> Unpack(data).kind.dlen >= MIN_FF_PAYLOAD_SIZE
    ensures Entries(ReceiveStep(w.rx, w.io, cfg, data, Now(w.clock))) ==
            Entries(RxOut(w.rx, w.io)) + OpenedRx(w, Arrive(data))
  {
    var m, now := Unpack(data), Now(w.clock);
    match m.kind
    case FF(dlen) => FirstCloses(w.rx, w.io, cfg, dlen, data[m.pcilen..], now);
    case CF(sn) => ConsecutiveCloses(w.rx, w.io, cfg, sn, data[m.pcilen..], now);
    case SF(dlen) => SingleCloses(w.rx, w.io, data[m.pcilen..][..Min(dlen, |data| - m.pcilen)]);
    case FC(_, _, _) => ClosedLogged(w.io.log, RxEvent(Conf, UnexpPdu, [], 0));
    case Error =>
  }

  /** Conservation of receptions: over every run, against any frames, what was begun - and every
      single or stray frame - has been closed by exactly one event, or is still on. */
  lemma {:induction false} ReceptionLedger(w: RxWorld, cfg: Config, actions: seq<RxAction>)
    ensures var w' := RxRun(w, cfg, actions);
            Closed(w'.io.log) + Open(w') == Closed(w.io.log) + Open(w) + TotalOpenedRx(w, cfg, actions)
    decreases |actions|
  {
    if actions != [] {
      StepCloses(w, cfg, actions[0]);
      ReceptionLedger(RxNext(w, cfg, actions[0]), cfg, actions[1..]);
    }
  }

  /** What the events say: failures caused by data frames are reported as such, those caused by a
      flow control or the timer as confirmations, and a frame of no known type says nothing. */
  lemma EventsTell(w: RxWorld, cfg: Config, a: RxAction)
    ensures var w' := RxNext(w, cfg, a);
            && w.io.log <= w'.io.log
            && forall i :: |w.io.log| <= i < |w'.io.log| ==> Tells(w'.io.log[i], a)
  {
    if a.Arrive? {
      var m, now := Unpack(a.data), Now(w.clock);
      match m.kind
      case FF(dlen) => FirstTells(w.rx, w.io, cfg, dlen, a.data[m.pcilen..], now, a);
      case CF(sn) => ConsecutiveTells(w.rx, w.io, cfg, sn, a.data[m.pcilen..], now, a);
      case _ =>
    }
  }

  predicate Tells(e: IsoEvent, a: RxAction) {
    match e.result
    case OkR => e.event != Conf && a.Arrive?
    case UnexpPdu =>
      a.Arrive? && |a.data| > 0 && a.data[0] < 64 && e.event == (if a.data[0] / 16 == 3 then Conf else Data)
    case TimeoutCr => e.event == Conf && a.RxPoll?
    case _ => false
  }

  lemma FirstTells(rx: RxState, io: Io, cfg: Config, dlen: nat, chunk: seq<Byte>, now: Word, a: RxAction)
    requires a.Arrive? && |a.data| > 0 && a.data[0] / 16 == 1
    ensures var r := FirstStep(rx, io, cfg, dlen, chunk, now);
            && io.log <= r.io.log && forall i :: |io.log| <= i < |r.io.log| ==> Tells(r.io.log[i], a)
  {
  }

  lemma ConsecutiveTells(rx: RxState, io: Io, cfg: Config, sn: Byte, offered: seq<Byte>, now: Word, a: RxAction)
    requires a.Arrive? && |a.data| > 0 && a.data[0] / 16 == 2
    ensures var r := ConsecutiveStep(rx, io, cfg, sn, offered, now);
            && io.log <= r.io.log && forall i :: |io.log| <= i < |r.io.log| ==> Tells(r.io.log[i], a)
  {
  }
}
