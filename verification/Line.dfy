/** One direction of a connection: the sender of one node, the receiver of the other, the data
    frames on the way to the receiver and the flow controls on the way back. Queues lose nothing
    and the bus takes every frame; everything else - who moves when, when timers run out - is open. */
module Line {
  import opened IsoTpTypes
  import opened Timers
  import opened Pci
  import opened TpPort
  import opened Sender
  import opened Receiver
  import opened Segmentation
  import opened SenderRuns
  import opened SenderRate
  import opened Reassembly

  /** `txIo.sent` are the data frames sent so far, of which `dataRead` have been received;
      `rxIo.sent` the flow controls, of which `flowRead` have been received. */
  datatype Line = Line(tx: TxState, txIo: Io, rx: RxState, rxIo: Io, dataRead: nat, flowRead: nat)

  /** The configurations of the sending and the receiving node. */
  datatype Link = Link(near: Config, far: Config)

  datatype LineAction = PollTx(now: Word) | PollRx(now: Word) | ReadFlow(now: Word) | ReadData(now: Word)

  predicate LinkOk(k: Link) {
    8 <= k.near.candl < CANFD_DL_MAX && 8 <= k.far.candl < CANFD_DL_MAX
  }

  function LineNext(l: Line, k: Link, a: LineAction): (r: Line)
    requires TxOk(l.tx, k.near)
    ensures TxOk(r.tx, k.near)
  {
    match a
    case PollTx(now) =>
      var o := ProcessStep(l.tx, l.txIo, k.near, now);
      l.(tx := o.tx, txIo := o.io)
    case PollRx(now) =>
      var o := ProcessRxStep(l.rx, l.rxIo, now);
      l.(rx := o.rx, rxIo := o.io)
    case ReadFlow(now) =>
      if l.flowRead >= |l.rxIo.sent| || |l.rxIo.sent[l.flowRead].data| < 3 then l
      else
        var f := l.rxIo.sent[l.flowRead].data;
        var o := FlowStep(l.tx, l.txIo, k.near, f[0] % 16, f[1], f[2], now);
        l.(tx := o.tx, txIo := o.io, flowRead := l.flowRead + 1)
    case ReadData(now) =>
      if l.dataRead >= |l.txIo.sent| then l
      else
        var o := ReceiveStep(l.rx, l.rxIo, k.far, l.txIo.sent[l.dataRead].data, now);
        l.(rx := o.rx, rxIo := o.io, dataRead := l.dataRead + 1)
  }

  function LineRun(l: Line, k: Link, actions: seq<LineAction>): (r: Line)
    requires TxOk(l.tx, k.near)
    ensures TxOk(r.tx, k.near)
    decreases |actions|
  {
    if actions == [] then l else LineRun(LineNext(l, k, actions[0]), k, actions[1..])
  }

  /** Nothing has left the node; the bus takes every frame. */
  function QuietIo(accept: nat -> bool): Io {
    Io(accept, [], 0, [])
  }

  /** A sender that has just been asked to send a message, which it carries as `p`, and a receiver
      at rest whose buffer offset is 0: no message since construction or since the last N_Cr timeout. */
  ghost predicate Started(l: Line, k: Link, p: seq<Byte>) {
    && LinkOk(k) && Sendable(p, k.near)
    && AlwaysAccepts(l.txIo) && AlwaysAccepts(l.rxIo)
    && l.dataRead == l.flowRead == 0
    && l.rxIo == QuietIo(l.rxIo.accept) && !l.rx.IsBusy() && l.rx.passed == 0
    && exists tx: TxState, asked: seq<Byte>, now: Word :: StartedFrom(l, k, p, tx, asked, now)
  }

  ghost predicate StartedFrom(l: Line, k: Link, p: seq<Byte>, tx: TxState, asked: seq<Byte>, now: Word) {
    && Fresh(tx, k.near, asked) && p == Carried(tx.prevDataSent, asked, k.near)
    && TxOut(l.tx, l.txIo) == SendStep(tx, QuietIo(l.txIo.accept), k.near, asked, now)
  }

  /** An idle sender that can take `p`. */
  predicate Fresh(tx: TxState, cfg: Config, p: seq<Byte>) {
    TxOk(tx, cfg) && cfg.candl >= 8 && !tx.IsBusy() && 0 < |p| <= |tx.txbuff|
  }

  // ---- Safety: only the payload is delivered, at most once, whatever times out ----

  /** The sender's half: it is transferring `p`, with nothing sent before. */
  ghost predicate TxPart(l: Line, k: Link, p: seq<Byte>)
    requires Sendable(p, k.near)
  {
    TxOk(l.tx, k.near) && k.near.candl >= 8 &&
    Transferring(QuietIo(l.txIo.accept), TxWorld(l.tx, l.txIo, 0), k.near, p)
  }

  /** The receiver's half: the frames read so far are the first ones of `p`. */
  ghost predicate RxPart(l: Line, k: Link, p: seq<Byte>)
    requires Sendable(p, k.near)
  {
    && l.dataRead <= |l.txIo.sent|
    && (l.dataRead == 0 ==> !l.rx.IsBusy() && l.rx.passed == 0 && Delivered(l.rxIo.log) == [])
    && (l.rx.IsBusy() ==> Receiving(l.rx, p, p, k.near, l.dataRead) && Delivered(l.rxIo.log) == [])
    && (Delivered(l.rxIo.log) == [] || (Delivered(l.rxIo.log) == [p] && l.dataRead == |Segments(p, k.near)|))
  }

  ghost predicate Safe(l: Line, k: Link, p: seq<Byte>) {
    LinkOk(k) && Sendable(p, k.near) && TxPart(l, k, p) && RxPart(l, k, p)
  }

  lemma SentPrefix(l: Line, k: Link, p: seq<Byte>)
    requires Sendable(p, k.near) && TxPart(l, k, p)
    ensures l.txIo.sent <= Segments(p, k.near)
    ensures l.tx.IsBusy() ==> |l.txIo.sent| < |Segments(p, k.near)|
  {
    assert [] + Segments(p, k.near) == Segments(p, k.near);
    if l.tx.IsBusy() {
      assert p[l.tx.passed..] != [];
    }
  }

  lemma StartedSafe(l: Line, k: Link, p: seq<Byte>)
    requires Started(l, k, p)
    ensures Safe(l, k, p)
  {
    var tx: TxState, asked: seq<Byte>, now: Word :| StartedFrom(l, k, p, tx, asked, now);
    StartedTransfer(tx, QuietIo(l.txIo.accept), k.near, asked, now);
    assert TxPart(l, k, p) && RxPart(l, k, p);
  }

  lemma StartedTransfer(tx: TxState, io: Io, cfg: Config, p: seq<Byte>, now: Word)
    requires Fresh(tx, cfg, p) && Sendable(p, cfg) && AlwaysAccepts(io)
    ensures var o := SendStep(tx, io, cfg, p, now);
            Transferring(io, TxWorld(o.tx, o.io, 0), cfg, Carried(tx.prevDataSent, p, cfg))
  {
    var o := SendStep(tx, io, cfg, p, now);
    StartTransfer(TxWorld(tx, io, now), cfg, p);
    AskedWorld(tx, io, cfg, p, now);
    TransferAnytime(io, TxWorld(o.tx, o.io, now), 0, cfg, Carried(tx.prevDataSent, p, cfg));
  }

  lemma AskedWorld(tx: TxState, io: Io, cfg: Config, p: seq<Byte>, now: Word)
    requires WorldOk(TxWorld(tx, io, now), cfg) && Sendable(p, cfg)
    ensures var o := SendStep(tx, io, cfg, p, now); AskWorld(TxWorld(tx, io, now), cfg, p) == TxWorld(o.tx, o.io, now)
  {
    assert Now(now) == now;
  }

  lemma SafePollTx(l: Line, k: Link, p: seq<Byte>, now: Word)
    requires Safe(l, k, p)
    ensures Safe(LineNext(l, k, PollTx(now)), k, p)
  {
    PollKeepsTransfer(l.tx, l.txIo, k.near, p, now);
    ProcessKeeps(l.tx, l.txIo, k.near, now);
  }

  lemma PollKeepsTransfer(tx: TxState, io: Io, cfg: Config, p: seq<Byte>, now: Word)
    requires TxOk(tx, cfg) && cfg.candl >= 8 && Sendable(p, cfg)
    requires Transferring(QuietIo(io.accept), TxWorld(tx, io, 0), cfg, p)
    ensures var o := ProcessStep(tx, io, cfg, now); Transferring(QuietIo(io.accept), TxWorld(o.tx, o.io, 0), cfg, p)
  {
    var io0, o := QuietIo(io.accept), ProcessStep(tx, io, cfg, now);
    TransferAnytime(io0, TxWorld(tx, io, 0), now, cfg, p);
    PollTransfer(io0, TxWorld(tx, io, now), cfg, p);
    PolledWorld(tx, io, cfg, now);
    TransferAnytime(io0, TxWorld(o.tx, o.io, now), 0, cfg, p);
  }

  lemma PolledWorld(tx: TxState, io: Io, cfg: Config, now: Word)
    requires WorldOk(TxWorld(tx, io, now), cfg)
    ensures var o := ProcessStep(tx, io, cfg, now); PollWorld(TxWorld(tx, io, now), cfg) == TxWorld(o.tx, o.io, now)
  {
    assert Now(now) == now;
  }

  lemma {:induction false} BurstKeeps(tx: TxState, io: Io, cfg: Config, now: Word)
    requires tx.state == MfDt && TxOk(tx, cfg)
    ensures io.sent <= Burst(tx, io, cfg, now).io.sent && Burst(tx, io, cfg, now).io.accept == io.accept
    decreases tx.size - tx.passed
  {
    var t := Prepared(tx, cfg, now);
    var a := Advanced(t, ChunkLength(tx, cfg), io.Attempted(FrameOf(t.message, cfg)));
    if io.Accepts() && a.tx.state == MfDt {
      BurstKeeps(a.tx, a.io, cfg, now);
    }
  }

  lemma ProcessKeeps(tx: TxState, io: Io, cfg: Config, now: Word)
    requires TxOk(tx, cfg)
    ensures var r := ProcessStep(tx, io, cfg, now); io.sent <= r.io.sent && r.io.accept == io.accept
  {
    if tx.state == MfDt {
      BurstKeeps(tx, io, cfg, now);
    }
  }

  lemma SafePollRx(l: Line, k: Link, p: seq<Byte>, now: Word)
    requires Safe(l, k, p)
    ensures Safe(LineNext(l, k, PollRx(now)), k, p)
  {
    DeliveredLogged(l.rxIo.log, RxEvent(Conf, TimeoutCr, [], 0));
  }

  lemma SafeReadFlow(l: Line, k: Link, p: seq<Byte>, now: Word)
    requires Safe(l, k, p)
    ensures Safe(LineNext(l, k, ReadFlow(now)), k, p)
  {
    if l.flowRead < |l.rxIo.sent| && |l.rxIo.sent[l.flowRead].data| >= 3 {
      var f := l.rxIo.sent[l.flowRead].data;
      FlowKeepsTransfer(l.tx, l.txIo, k.near, p, f[0] % 16, f[1], f[2], now);
    }
  }

  lemma FlowKeepsTransfer(tx: TxState, io: Io, cfg: Config, p: seq<Byte>, status: Byte, bs: Byte, st: Byte, now: Word)
    requires TxOk(tx, cfg) && cfg.candl >= 8 && Sendable(p, cfg)
    requires Transferring(QuietIo(io.accept), TxWorld(tx, io, 0), cfg, p)
    ensures var o := FlowStep(tx, io, cfg, status, bs, st, now);
            && Transferring(QuietIo(io.accept), TxWorld(o.tx, o.io, 0), cfg, p)
            && o.io.sent == io.sent && o.io.accept == io.accept
  {
    var io0, o := QuietIo(io.accept), FlowStep(tx, io, cfg, status, bs, st, now);
    TransferAnytime(io0, TxWorld(tx, io, 0), now, cfg, p);
    FlowTransfer(io0, TxWorld(tx, io, now), cfg, p, status, bs, st);
    assert Now(now) == now;
    TransferAnytime(io0, TxWorld(o.tx, o.io, now), 0, cfg, p);
  }

  lemma SafeReadData(l: Line, k: Link, p: seq<Byte>, now: Word)
    requires Safe(l, k, p)
    ensures Safe(LineNext(l, k, ReadData(now)), k, p)
  {
    if l.dataRead < |l.txIo.sent| {
      SentPrefix(l, k, p);
      var n := l.dataRead;
      assert l.txIo.sent[n] == Segments(p, k.near)[n];
      if n == 0 {
        SafeFirst(l, k, p, now);
      } else if l.rx.IsBusy() {
        TakeNext(l.rx, l.rxIo, k.far, p, p, k.near, n, now);
        DeliveredLogged(l.rxIo.log, RxEvent(Data, OkR, p, |p|));
      } else {
        SegmentNumber(p, k.near, n);
        DeliveredLogged(l.rxIo.log, RxEvent(Data, UnexpPdu, [], 0));
      }
    }
  }

  lemma OwnContent(rx: RxState, p: seq<Byte>, cfg: Config)
    requires Sendable(p, cfg) && |p| <= |rx.rxbuff| && rx.passed == 0
    ensures Content(rx, p, cfg) == p
  {
    assert p == p[..First(p, cfg)] + p[First(p, cfg)..];
    assert Overlay(rx.rxbuff, 0, p[..First(p, cfg)])[..First(p, cfg)] == p[..First(p, cfg)];
  }

  lemma SafeFirst(l: Line, k: Link, p: seq<Byte>, now: Word)
    requires Safe(l, k, p) && l.dataRead == 0 && l.txIo.sent != [] && l.txIo.sent[0] == Segments(p, k.near)[0]
    ensures RxPart(LineNext(l, k, ReadData(now)), k, p)
  {
    if !Segmented(p, k.near) {
      TakeSingle(l.rx, l.rxIo, k.far, p, k.near, now);
      DeliveredLogged(l.rxIo.log, RxEvent(Data, OkR, p, |p|));
    } else if |p| <= |l.rx.rxbuff| {
      TakeFirst(l.rx, l.rxIo, k.far, p, k.near, now);
      OwnContent(l.rx, p, k.near);
      DeliveredLogged(l.rxIo.log, RxEvent(DataFF, OkR, [], |p|));
    } else {
      RefuseFirst(l.rx, l.rxIo, k.far, p, k.near, now);
    }
  }

  /** A message longer than the receive buffer is answered with an overflow and not begun. */
  lemma RefuseFirst(rx: RxState, io: Io, own: Config, p: seq<Byte>, cfg: Config, now: Word)
    requires Receivable(p, cfg) && Segmented(p, cfg) && |p| > |rx.rxbuff| && !rx.IsBusy()
    ensures var r := ReceiveStep(rx, io, own, HeadFrame(p, cfg).data, now);
            && r == FlowOut(rx, io, own, FlowOverflow, 0, 0)
            && !r.rx.IsBusy() && r.io.log == io.log
  {
    HeadFrameHeader(p, cfg);
    assert |p| >= 7;
  }

  lemma SafeNext(l: Line, k: Link, p: seq<Byte>, a: LineAction)
    requires Safe(l, k, p)
    ensures Safe(LineNext(l, k, a), k, p)
  {
    match a
    case PollTx(now) => SafePollTx(l, k, p, now);
    case PollRx(now) => SafePollRx(l, k, p, now);
    case ReadFlow(now) => SafeReadFlow(l, k, p, now);
    case ReadData(now) => SafeReadData(l, k, p, now);
  }

  lemma {:induction false} SafeRun(l: Line, k: Link, p: seq<Byte>, actions: seq<LineAction>)
    requires Safe(l, k, p)
    ensures Safe(LineRun(l, k, actions), k, p)
    decreases |actions|
  {
    if actions != [] {
      SafeNext(l, k, p, actions[0]);
      SafeRun(LineNext(l, k, actions[0]), k, p, actions[1..]);
    }
  }
}
