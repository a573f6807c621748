/** Both ends of a line in step: as long as no timer has run out, the sender's block count, the
    receiver's block count and what is on the way agree, no frame comes unexpected, and the
    transfer gets done. */
module Lockstep {
  import opened IsoTpTypes
  import opened Timers
  import opened Pci
  import opened TpPort
  import opened Sender
  import opened Receiver
  import opened Segmentation
  import opened SenderRuns
  import opened SenderRate
  import opened Reassembly
  import opened Line
  import SenderLedger

  predicate IsTimeout(e: IsoEvent) {
    e.result == TimeoutAs || e.result == TimeoutBs || e.result == TimeoutCr
  }

  predicate NoTimeout(log: seq<IsoEvent>) {
    forall i :: 0 <= i < |log| ==> !IsTimeout(log[i])
  }

  /** No timer of the line has run out so far. */
  predicate OnTime(l: Line) {
    NoTimeout(l.txIo.log) && NoTimeout(l.rxIo.log)
  }

  lemma LoggedTimeout(log: seq<IsoEvent>, e: IsoEvent)
    requires IsTimeout(e)
    ensures !NoTimeout(log + [e])
  {
    assert (log + [e])[|log|] == e;
  }

  /** A flow control as the receiver packs and pads it. */
  function FlowFrame(state: FlowState, bs: Byte, st: Byte, cfg: Config): CanFrame
    requires cfg.candl >= 8
  {
    CanFrame(cfg.respId, FlowHeader(state, bs, st) + Fill(cfg.padding, cfg.candl - 3))
  }

  /** What a receiver and its flow control go by. */
  datatype Terms = Terms(bs: Byte, st: Byte)

  /** The arithmetic of flow control: `sent` consecutive frames of the current block have gone
      out, `taken` of the receiver's current block have been taken, `flight` are on the way, and
      `owed` flow controls are on the way back. */
  predicate InStep(state: DtState, sent: nat, taken: nat, flight: int, owed: int, limit: nat) {
    && taken < limit && flight >= 0
    && match state
       case MfDt | Pause => owed == 0 && flight == sent - taken && sent < limit
       case Wait => (owed == 0 && taken + flight == limit) || (owed == 1 && flight == 0 && taken == 0)
       case Idle => owed == 0 && taken + flight <= limit
       case SfDt => false
  }

  /** A single frame: confirmed at once, delivered when read, never answered. */
  ghost predicate SingleLock(l: Line, p: seq<Byte>) {
    && !l.tx.IsBusy() && l.txIo.log == [TxEvent(OkS)] && |l.txIo.sent| == 1
    && l.rxIo.sent == [] && l.flowRead == 0 && l.dataRead <= 1 && !l.rx.IsBusy()
    && l.rxIo.log == if l.dataRead == 0 then [] else [RxEvent(Data, OkR, p, |p|)]
  }

  /** A message too long for the receiver: refused by its flow control. */
  ghost predicate RefusedLock(l: Line, k: Link)
    requires LinkOk(k)
  {
    && |l.txIo.sent| == 1 && l.dataRead <= 1 && l.flowRead <= |l.rxIo.sent|
    && !l.rx.IsBusy() && l.rxIo.log == []
    && l.rxIo.sent == (if l.dataRead == 0 then [] else [FlowFrame(FlowOverflow, 0, 0, k.far)])
    && (l.flowRead == 0 ==> l.tx.state == Wait && l.txIo.log == [])
    && (l.flowRead == 1 ==> l.tx.state == Idle && l.txIo.log == [TxEvent(BufferOvflw)])
  }

  /** A segmented message whose first frame is still on the way. */
  ghost predicate FirstLock(l: Line) {
    && l.dataRead == 0 && |l.txIo.sent| == 1 && l.tx.state == Wait && l.txIo.log == []
    && l.rxIo.sent == [] && l.flowRead == 0 && l.rxIo.log == [] && !l.rx.IsBusy() && l.rx.passed == 0
  }

  /** A segmented message under way or done. */
  ghost predicate BlockLock(l: Line, k: Link, p: seq<Byte>, t: Terms)
    requires LinkOk(k) && Sendable(p, k.near)
  {
    var total, m, n := |Segments(p, k.near)|, |l.txIo.sent|, l.dataRead;
    && 1 <= n <= m <= total && l.flowRead <= |l.rxIo.sent|
    && (forall i :: 0 <= i < |l.rxIo.sent| ==> l.rxIo.sent[i] == FlowFrame(FlowCts, t.bs, t.st, k.far))
    && (m < total <==> l.tx.IsBusy())
    && l.txIo.log == (if m < total then [] else [TxEvent(OkS)])
    && (n < total ==>
          && Receiving(l.rx, p, p, k.near, n)
          && l.rxIo.log == [RxEvent(DataFF, OkR, [], |p|)]
          && InStep(l.tx.state, l.tx.currblknum, l.rx.currblkn, m - n, |l.rxIo.sent| - l.flowRead, BlockLimit(t.bs)))
    && (n == total ==>
          && !l.rx.IsBusy() && l.flowRead == |l.rxIo.sent|
          && l.rxIo.log == [RxEvent(DataFF, OkR, [], |p|), RxEvent(Data, OkR, p, |p|)])
    && (l.tx.state == MfDt || l.tx.state == Pause ==> l.tx.segblkcount == t.bs)
  }

  ghost predicate Lock(l: Line, k: Link, p: seq<Byte>, t: Terms) {
    && Safe(l, k, p) && l.rx.blksize == t.bs && l.rx.stmin == t.st
    && (l.tx.state == Pause ==> l.tx.stmin > 0)
    && (l.tx.state == MfDt || l.tx.state == Pause ==> l.tx.stmin > 0 ==> l.tx.stMin.active && l.tx.stMin.endless)
    && if !Segmented(p, k.near) then SingleLock(l, p)
       else if |p| > |l.rx.rxbuff| then RefusedLock(l, k)
       else FirstLock(l) || BlockLock(l, k, p, t)
  }

  lemma StartedLock(l: Line, k: Link, p: seq<Byte>)
    requires Started(l, k, p)
    ensures Lock(l, k, p, Terms(l.rx.blksize, l.rx.stmin))
  {
    StartedSafe(l, k, p);
    var tx: TxState, asked: seq<Byte>, now: Word :| StartedFrom(l, k, p, tx, asked, now);
    assert l.txIo.accept(0);
    if Segmented(p, k.near) {
      assert l.tx == Awaiting(FirstTried(tx, k.near, asked), asked, now);
    } else {
      assert l.txIo.log == [] + [TxEvent(OkS)];
    }
  }

  // ---- Polls of the sender ----

  lemma LockPollTx(l: Line, k: Link, p: seq<Byte>, t: Terms, now: Word)
    requires Lock(l, k, p, t) && OnTime(LineNext(l, k, PollTx(now)))
    ensures Lock(LineNext(l, k, PollTx(now)), k, p, t)
  {
    SafePollTx(l, k, p, now);
    if l.tx.state == MfDt {
      var b := Burst(l.tx, l.txIo, k.near, now);
      BurstWithinBlock(l.tx, l.txIo, k.near, now);
      BurstLossless(l.tx, l.txIo, k.near, now);
      SafeSending(l, k, p);
      BurstEmits(l.tx, l.txIo, k.near, now, p, |l.txIo.sent|);
      PollBurst(l, k, now);
      BurstLock(l, k, p, t, b);
    } else {
      QuietPollTx(l, k, p, t, now);
    }
  }

  lemma SafeSending(l: Line, k: Link, p: seq<Byte>)
    requires Safe(l, k, p) && l.tx.IsBusy()
    ensures Sending(l.tx, k.near, p, |l.txIo.sent|)
  {
    var m := |l.txIo.sent| - |QuietIo(l.txIo.accept).sent|;
    assert m == |l.txIo.sent|;
  }

  /** After a loop that was not refused the As timer is off, so the poll does nothing else. */
  lemma PollBurst(l: Line, k: Link, now: Word)
    requires TxOk(l.tx, k.near) && l.tx.state == MfDt
    requires !Burst(l.tx, l.txIo, k.near, now).tx.nAs.active
    ensures var b := Burst(l.tx, l.txIo, k.near, now);
            LineNext(l, k, PollTx(now)) == l.(tx := b.tx, txIo := b.io)
  {
  }

  lemma QuietPollTx(l: Line, k: Link, p: seq<Byte>, t: Terms, now: Word)
    requires Lock(l, k, p, t) && l.tx.state != MfDt && OnTime(LineNext(l, k, PollTx(now)))
    requires Safe(LineNext(l, k, PollTx(now)), k, p)
    ensures Lock(LineNext(l, k, PollTx(now)), k, p, t)
  {
    QuietPolled(l, k, now);
    QuietLock(l, k, p, t, LineNext(l, k, PollTx(now)).tx);
  }

  /** A poll outside the loop that finds no timer over changes nothing, but for the end of a pause. */
  lemma QuietPolled(l: Line, k: Link, now: Word)
    requires TxOk(l.tx, k.near) && l.tx.state != MfDt && OnTime(LineNext(l, k, PollTx(now)))
    ensures var tx := LineNext(l, k, PollTx(now)).tx;
            && LineNext(l, k, PollTx(now)) == l.(tx := tx)
            && (tx == l.tx || (l.tx.state == Pause && tx == l.tx.(state := MfDt, stMin := l.tx.stMin.Polled(now))))
  {
    LoggedTimeout(l.txIo.log, TxEvent(TimeoutBs));
  }

  lemma QuietLock(l: Line, k: Link, p: seq<Byte>, t: Terms, tx: TxState)
    requires Lock(l, k, p, t) && Safe(l.(tx := tx), k, p)
    requires tx == l.tx ||
             (l.tx.state == Pause && tx == l.tx.(state := MfDt, stMin := tx.stMin)
              && (l.tx.stMin.active && l.tx.stMin.endless ==> tx.stMin.active && tx.stMin.endless))
    ensures Lock(l.(tx := tx), k, p, t)
  {
  }

  lemma BurstLock(l: Line, k: Link, p: seq<Byte>, t: Terms, b: TxOut)
    requires Lock(l, k, p, t) && l.tx.state == MfDt && b.tx.state != MfDt && TxOk(b.tx, k.near)
    requires l.tx.passed <= |p| && Emits(l.tx, l.txIo, b, k.near, p, |l.txIo.sent|)
    requires var e := |b.io.sent| - |l.txIo.sent|;
             && b.tx.segblkcount == l.tx.segblkcount && b.tx.stmin == l.tx.stmin && b.tx.stMin == l.tx.stMin
             && (b.tx.state == Pause ==> l.tx.stmin > 0)
             && l.tx.currblknum + e <= BlockLimit(t.bs)
             && (b.tx.state == Pause ==> b.tx.currblknum == l.tx.currblknum + e < BlockLimit(t.bs))
             && (b.tx.state == Wait ==> l.tx.currblknum + e == BlockLimit(t.bs))
    requires Safe(l.(tx := b.tx, txIo := b.io), k, p)
    ensures Lock(l.(tx := b.tx, txIo := b.io), k, p, t)
  {
    BurstCount(l, k, p, b);
    BurstBlockLock(l, k, p, t, b);
  }

  /** The sender is done exactly when all frames are out. */
  lemma BurstCount(l: Line, k: Link, p: seq<Byte>, b: TxOut)
    requires LinkOk(k) && Sendable(p, k.near) && TxPart(l, k, p) && l.tx.IsBusy()
    requires l.tx.passed <= |p| && Emits(l.tx, l.txIo, b, k.near, p, |l.txIo.sent|)
    requires TxPart(l.(tx := b.tx, txIo := b.io), k, p)
    ensures |b.io.sent| <= |Segments(p, k.near)|
    ensures |b.io.sent| < |Segments(p, k.near)| <==> b.tx.IsBusy()
  {
    SentPrefix(l.(tx := b.tx, txIo := b.io), k, p);
    if !b.tx.IsBusy() {
      assert b.io.sent + [] == b.io.sent;
      MovePrefix(l.txIo.sent, Tail(p[l.tx.passed..], |l.txIo.sent|, k.near), Segments(p, k.near), p, l, k);
    }
  }

  /** The block arithmetic of a burst. */
  lemma BurstBlockLock(l: Line, k: Link, p: seq<Byte>, t: Terms, b: TxOut)
    requires LinkOk(k) && Sendable(p, k.near) && BlockLock(l, k, p, t) && l.tx.state == MfDt && b.tx.state != MfDt
    requires l.txIo.sent <= b.io.sent && |b.io.sent| <= |Segments(p, k.near)|
    requires |b.io.sent| < |Segments(p, k.near)| <==> b.tx.IsBusy()
    requires b.io.log == if b.tx.IsBusy() then l.txIo.log else l.txIo.log + [TxEvent(OkS)]
    requires var e := |b.io.sent| - |l.txIo.sent|;
             && b.tx.state != SfDt && b.tx.segblkcount == l.tx.segblkcount
             && l.tx.currblknum + e <= BlockLimit(t.bs)
             && (b.tx.state == Pause ==> b.tx.currblknum == l.tx.currblknum + e < BlockLimit(t.bs))
             && (b.tx.state == Wait ==> l.tx.currblknum + e == BlockLimit(t.bs))
    ensures BlockLock(l.(tx := b.tx, txIo := b.io), k, p, t)
  {
  }

  lemma MovePrefix(sent: seq<CanFrame>, rest: seq<CanFrame>, all: seq<CanFrame>, p: seq<Byte>, l: Line, k: Link)
    requires Sendable(p, k.near) && TxPart(l, k, p) && l.tx.IsBusy() && sent == l.txIo.sent
    requires rest == Tail(p[l.tx.passed..], |sent|, k.near) && all == Segments(p, k.near)
    ensures sent + rest == all
  {
    assert [] + all == all;
  }

  // ---- Polls of the receiver ----

  lemma LockPollRx(l: Line, k: Link, p: seq<Byte>, t: Terms, now: Word)
    requires Lock(l, k, p, t) && OnTime(LineNext(l, k, PollRx(now)))
    ensures Lock(LineNext(l, k, PollRx(now)), k, p, t)
  {
    SafePollRx(l, k, p, now);
    LoggedTimeout(l.rxIo.log, RxEvent(Conf, TimeoutCr, [], 0));
  }

  // ---- Flow control reaches the sender ----

  lemma FlowFrameBytes(state: FlowState, bs: Byte, st: Byte, cfg: Config)
    requires cfg.candl >= 8
    ensures var f := FlowFrame(state, bs, st, cfg).data;
            |f| >= 3 && f[0] / 16 == 3 && f[0] % 16 == FlowByte(state) && f[1] == bs && f[2] == st
  {
  }

  lemma LockReadFlow(l: Line, k: Link, p: seq<Byte>, t: Terms, now: Word)
    requires Lock(l, k, p, t)
    ensures Lock(LineNext(l, k, ReadFlow(now)), k, p, t)
  {
    SafeReadFlow(l, k, p, now);
    if l.flowRead < |l.rxIo.sent| {
      if |p| > |l.rx.rxbuff| {
        FlowFrameBytes(FlowOverflow, 0, 0, k.far);
      } else {
        LockReadGrant(l, k, p, t, now);
      }
    }
  }

  /** A clear-to-send that is on its way finds the sender waiting. */
  lemma LockReadGrant(l: Line, k: Link, p: seq<Byte>, t: Terms, now: Word)
    requires Lock(l, k, p, t) && Segmented(p, k.near) && |p| <= |l.rx.rxbuff| && l.flowRead < |l.rxIo.sent|
    requires Safe(LineNext(l, k, ReadFlow(now)), k, p)
    ensures l.tx.state == Wait
    ensures Lock(LineNext(l, k, ReadFlow(now)), k, p, t)
  {
    assert l.rxIo.sent[l.flowRead] == FlowFrame(FlowCts, t.bs, t.st, k.far);
    FlowFrameBytes(FlowCts, t.bs, t.st, k.far);
    var o := FlowStep(l.tx, l.txIo, k.near, FlowByte(FlowCts), t.bs, t.st, now);
    assert LineNext(l, k, ReadFlow(now)) == l.(tx := o.tx, txIo := o.io, flowRead := l.flowRead + 1);
    assert o.io == l.txIo && o.tx.IsBusy() && o.tx.currblknum == 0;
  }

  // ---- A data frame reaches the receiver ----

  /** The flow control a receiver sends is its packed frame. */
  lemma FlowOutFrame(rx: RxState, io: Io, cfg: Config, state: FlowState, bs: Byte, st: Byte)
    requires cfg.candl >= 8 && io.Accepts()
    ensures var r := FlowOut(rx, io, cfg, state, bs, st);
            r.io.sent == io.sent + [FlowFrame(state, bs, st, cfg)] && r.io.log == io.log && r.io.accept == io.accept
  {
    var used := FlowHeader(state, bs, st);
    var msg := Overlay(rx.message, 0, used);
    assert msg[..3] == used;
    PaddedFrame(msg, used, cfg);
  }

  lemma LockReadFirst(l: Line, k: Link, p: seq<Byte>, t: Terms, now: Word)
    requires Lock(l, k, p, t) && l.dataRead == 0 && AlwaysAccepts(l.rxIo)
    requires Safe(LineNext(l, k, ReadData(now)), k, p)
    ensures Lock(LineNext(l, k, ReadData(now)), k, p, t)
  {
    SentPrefix(l, k, p);
    assert l.txIo.sent[0] == Segments(p, k.near)[0];
    assert l.rxIo.accept(l.rxIo.attempts);
    if !Segmented(p, k.near) {
      TakeSingle(l.rx, l.rxIo, k.far, p, k.near, now);
    } else if |p| > |l.rx.rxbuff| {
      LockReadTooLong(l, k, p, t, now);
    } else {
      LockReadStart(l, k, p, t, now);
    }
  }

  lemma LockReadTooLong(l: Line, k: Link, p: seq<Byte>, t: Terms, now: Word)
    requires Lock(l, k, p, t) && l.dataRead == 0 && AlwaysAccepts(l.rxIo) && Segmented(p, k.near) && |p| > |l.rx.rxbuff|
    requires l.txIo.sent != [] && l.txIo.sent[0] == Segments(p, k.near)[0]
    requires Safe(LineNext(l, k, ReadData(now)), k, p)
    ensures Lock(LineNext(l, k, ReadData(now)), k, p, t)
  {
    assert l.rxIo.accept(l.rxIo.attempts);
    RefuseFirst(l.rx, l.rxIo, k.far, p, k.near, now);
    FlowOutFrame(l.rx, l.rxIo, k.far, FlowOverflow, 0, 0);
    assert RefusedLock(LineNext(l, k, ReadData(now)), k);
  }

  lemma LockReadStart(l: Line, k: Link, p: seq<Byte>, t: Terms, now: Word)
    requires Lock(l, k, p, t) && l.dataRead == 0 && AlwaysAccepts(l.rxIo)
    requires Segmented(p, k.near) && |p| <= |l.rx.rxbuff|
    requires l.txIo.sent != [] && l.txIo.sent[0] == Segments(p, k.near)[0] && l.txIo.sent <= Segments(p, k.near)
    requires Safe(LineNext(l, k, ReadData(now)), k, p)
    ensures Lock(LineNext(l, k, ReadData(now)), k, p, t)
  {
    assert l.rxIo.accept(l.rxIo.attempts);
    TakeFirst(l.rx, l.rxIo, k.far, p, k.near, now);
    OwnContent(l.rx, p, k.near);
    HeadFrameHeader(p, k.near);
    FlowOutFrame(l.rx, l.rxIo, k.far, FlowCts, t.bs, t.st);
    var r := ReceiveStep(l.rx, l.rxIo, k.far, l.txIo.sent[0].data, now);
    assert LineNext(l, k, ReadData(now)) == l.(rx := r.rx, rxIo := r.io, dataRead := 1);
    FirstBlockLock(l, k, p, t, r);
  }

  /** The block arithmetic of the first frame. */
  lemma FirstBlockLock(l: Line, k: Link, p: seq<Byte>, t: Terms, r: RxOut)
    requires Lock(l, k, p, t) && FirstLock(l) && Segmented(p, k.near) && |p| <= |l.rx.rxbuff|
    requires Receiving(r.rx, p, p, k.near, 1) && r.rx.currblkn == 0 && |r.rx.rxbuff| == |l.rx.rxbuff|
    requires r.rx.blksize == t.bs && r.rx.stmin == t.st
    requires r.io.log == [RxEvent(DataFF, OkR, [], |p|)] && r.io.sent == [FlowFrame(FlowCts, t.bs, t.st, k.far)]
    requires Safe(l.(rx := r.rx, rxIo := r.io, dataRead := 1), k, p)
    ensures Lock(l.(rx := r.rx, rxIo := r.io, dataRead := 1), k, p, t)
  {
    assert BlockLock(l.(rx := r.rx, rxIo := r.io, dataRead := 1), k, p, t);
  }

  /** The receiver's reaction to the consecutive frame that is due, with its block accounting. */
  lemma TakeNextBlock(rx: RxState, io: Io, own: Config, p: seq<Byte>, cfg: Config, n: nat, now: Word)
    requires Receivable(p, cfg) && Receiving(rx, p, p, cfg, n) && own.candl >= 8 && io.Accepts()
    requires rx.currblkn < BlockLimit(rx.blksize)
    ensures var r := ReceiveStep(rx, io, own, Segments(p, cfg)[n].data, now);
            && r.io.accept == io.accept && r.rx.blksize == rx.blksize && r.rx.stmin == rx.stmin
            && (n + 1 == |Segments(p, cfg)| ==> r.io.sent == io.sent)
            && (n + 1 < |Segments(p, cfg)| && rx.currblkn + 1 < BlockLimit(rx.blksize) ==>
                  r.io.sent == io.sent && r.rx.currblkn == rx.currblkn + 1)
            && (n + 1 < |Segments(p, cfg)| && rx.currblkn + 1 >= BlockLimit(rx.blksize) ==>
                  r.io.sent == io.sent + [FlowFrame(FlowCts, rx.blksize, rx.stmin, own)] && r.rx.currblkn == 0)
  {
    var f := Segments(p, cfg)[n].data;
    var len := Min(cfg.candl - 1, |p| - rx.passed);
    NextSegment(p, cfg, rx.passed, n);
    CfFrameHeader(p[rx.passed..rx.passed + len], n, cfg);
    LowBits(n);
    assert WantedLength(rx, |f[1..]|) == len;
    var t := Taken(rx, f[1..][..len], now);
    assert t.passed == rx.rxsize <==> n + 1 == |Segments(p, cfg)|;
    FlowOutFrame(t, io, own, FlowCts, t.blksize, t.stmin);
  }

  lemma LockReadNext(l: Line, k: Link, p: seq<Byte>, t: Terms, now: Word)
    requires LinkOk(k) && Sendable(p, k.near) && Segmented(p, k.near)
    requires Lock(l, k, p, t) && BlockLock(l, k, p, t) && |p| <= |l.rx.rxbuff| && l.dataRead < |l.txIo.sent|
    requires AlwaysAccepts(l.rxIo) && Safe(LineNext(l, k, ReadData(now)), k, p)
    ensures Lock(LineNext(l, k, ReadData(now)), k, p, t)
  {
    var n := l.dataRead;
    SentPrefix(l, k, p);
    assert l.txIo.sent[n] == Segments(p, k.near)[n];
    assert l.rxIo.accept(l.rxIo.attempts);
    TakeNext(l.rx, l.rxIo, k.far, p, p, k.near, n, now);
    TakeNextBlock(l.rx, l.rxIo, k.far, p, k.near, n, now);
    var r := ReceiveStep(l.rx, l.rxIo, k.far, l.txIo.sent[n].data, now);
    NextBlockLock(l, k, p, t, r);
  }

  /** The block arithmetic of one more frame taken. */
  lemma NextBlockLock(l: Line, k: Link, p: seq<Byte>, t: Terms, r: RxOut)
    requires LinkOk(k) && Sendable(p, k.near) && BlockLock(l, k, p, t) && l.dataRead < |l.txIo.sent|
    requires l.rx.blksize == t.bs && l.rx.stmin == t.st
    requires var n, total := l.dataRead, |Segments(p, k.near)|;
             && (n + 1 < total ==> Receiving(r.rx, p, p, k.near, n + 1) && r.io.log == l.rxIo.log)
             && (n + 1 == total ==>
                   !r.rx.IsBusy() && r.io.log == l.rxIo.log + [RxEvent(Data, OkR, p, |p|)] && r.io.sent == l.rxIo.sent)
             && (n + 1 < total && l.rx.currblkn + 1 < BlockLimit(t.bs) ==>
                   r.io.sent == l.rxIo.sent && r.rx.currblkn == l.rx.currblkn + 1)
             && (n + 1 < total && l.rx.currblkn + 1 >= BlockLimit(t.bs) ==>
                   r.io.sent == l.rxIo.sent + [FlowFrame(FlowCts, t.bs, t.st, k.far)] && r.rx.currblkn == 0)
    ensures BlockLock(l.(rx := r.rx, rxIo := r.io, dataRead := l.dataRead + 1), k, p, t)
  {
  }

  lemma LockReadData(l: Line, k: Link, p: seq<Byte>, t: Terms, now: Word)
    requires Lock(l, k, p, t) && AlwaysAccepts(l.rxIo)
    ensures Lock(LineNext(l, k, ReadData(now)), k, p, t)
  {
    SafeReadData(l, k, p, now);
    if l.dataRead < |l.txIo.sent| {
      if l.dataRead == 0 {
        LockReadFirst(l, k, p, t, now);
      } else {
        LockReadNext(l, k, p, t, now);
      }
    }
  }

  // ---- Whole runs ----

  /** Logs only grow. */
  lemma LogsGrow(l: Line, k: Link, a: LineAction)
    requires TxOk(l.tx, k.near)
    ensures var r := LineNext(l, k, a);
            l.txIo.log <= r.txIo.log && l.rxIo.log <= r.rxIo.log && r.rxIo.accept == l.rxIo.accept
  {
    if a.PollTx? && l.tx.state == MfDt {
      SenderLedger.BurstConfirms(l.tx, l.txIo, k.near, a.now);
    }
  }

  lemma LockNext(l: Line, k: Link, p: seq<Byte>, t: Terms, a: LineAction)
    requires Lock(l, k, p, t) && AlwaysAccepts(l.rxIo) && OnTime(LineNext(l, k, a))
    ensures Lock(LineNext(l, k, a), k, p, t) && AlwaysAccepts(LineNext(l, k, a).rxIo)
  {
    LogsGrow(l, k, a);
    match a
    case PollTx(now) => LockPollTx(l, k, p, t, now);
    case PollRx(now) => LockPollRx(l, k, p, t, now);
    case ReadFlow(now) => LockReadFlow(l, k, p, t, now);
    case ReadData(now) => LockReadData(l, k, p, t, now);
  }

  lemma {:induction false} RunLogsGrow(l: Line, k: Link, actions: seq<LineAction>)
    requires TxOk(l.tx, k.near)
    ensures var r := LineRun(l, k, actions); l.txIo.log <= r.txIo.log && l.rxIo.log <= r.rxIo.log
    decreases |actions|
  {
    if actions != [] {
      LogsGrow(l, k, actions[0]);
      RunLogsGrow(LineNext(l, k, actions[0]), k, actions[1..]);
    }
  }

  lemma EarlierOnTime(l: Line, r: Line)
    requires l.txIo.log <= r.txIo.log && l.rxIo.log <= r.rxIo.log && OnTime(r)
    ensures OnTime(l)
  {
    forall i | 0 <= i < |l.txIo.log|
      ensures !IsTimeout(l.txIo.log[i])
    {
      assert l.txIo.log[i] == r.txIo.log[i];
    }
    forall i | 0 <= i < |l.rxIo.log|
      ensures !IsTimeout(l.rxIo.log[i])
    {
      assert l.rxIo.log[i] == r.rxIo.log[i];
    }
  }

  /** If no timer has run out at the end of a run, none had at its beginning. */
  lemma StartOnTime(l: Line, k: Link, actions: seq<LineAction>)
    requires TxOk(l.tx, k.near) && OnTime(LineRun(l, k, actions))
    ensures OnTime(l)
  {
    RunLogsGrow(l, k, actions);
    EarlierOnTime(l, LineRun(l, k, actions));
  }

  /** Every run in which no timer has run out keeps both ends in step. */
  lemma {:induction false} LockRun(l: Line, k: Link, p: seq<Byte>, t: Terms, actions: seq<LineAction>)
    requires Lock(l, k, p, t) && AlwaysAccepts(l.rxIo) && OnTime(LineRun(l, k, actions))
    ensures Lock(LineRun(l, k, actions), k, p, t)
    decreases |actions|
  {
    if actions != [] {
      var l1 := LineNext(l, k, actions[0]);
      StartOnTime(l1, k, actions[1..]);
      LockNext(l, k, p, t, actions[0]);
      LockRun(l1, k, p, t, actions[1..]);
    }
  }
}
