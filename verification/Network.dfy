/** Two whole nodes and the bus between them. Each node's outgoing frames form one queue that
    carries its data frames and its flow controls alike; both nodes may send messages at the
    same time. Each direction of such a network behaves like one `Line`, so what holds of every
    run of a line holds of every run of the network. */
module Network {
  import opened IsoTpTypes
  import opened Timers
  import opened Pci
  import opened TpPort
  import opened Sender
  import opened Receiver
  import opened Transport
  import opened Segmentation
  import opened SenderRuns
  import opened Reassembly
  import opened Line
  import opened Lockstep
  import opened Completion
  import SenderLedger

  /** Of the frames `b` has sent, `a` has read the first `aRead`, and the other way round. */
  datatype Net = Net(a: Node, b: Node, aRead: nat, bRead: nat, clock: nat)

  datatype NetAction = PollA | PollB | DeliverA | DeliverB | AskA(data: seq<Byte>) | AskB(data: seq<Byte>) | Time

  function Swap(n: Net): Net {
    Net(n.b, n.a, n.bRead, n.aRead, n.clock)
  }

  function Mirror(x: NetAction): NetAction {
    match x
    case PollA => PollB
    case PollB => PollA
    case DeliverA => DeliverB
    case DeliverB => DeliverA
    case AskA(data) => AskB(data)
    case AskB(data) => AskA(data)
    case Time => Time
  }

  predicate NetOk(n: Net) {
    TxOk(n.a.tx, n.a.cfg) && TxOk(n.b.tx, n.b.cfg) && Wired(n.a.cfg, n.b.cfg)
  }

  /** Each node listens to what the other one sends, under its physical address only. */
  predicate Wired(a: Config, b: Config) {
    && a.respId == b.physId && b.respId == a.physId && a.respId != b.funcId && b.respId != a.funcId
    && 8 <= a.candl < CANFD_DL_MAX && 8 <= b.candl < CANFD_DL_MAX
  }

  /** The network once `a` has been asked to send. */
  function AskedA(n: Net, data: seq<Byte>): (r: Net)
    requires NetOk(n)
    ensures NetOk(r)
  {
    n.(a := NodeRequest(n.a, data, Now(n.clock)))
  }

  function AskedB(n: Net, data: seq<Byte>): (r: Net)
    requires NetOk(n)
    ensures NetOk(r)
  {
    n.(b := NodeRequest(n.b, data, Now(n.clock)))
  }

  function NetNext(n: Net, x: NetAction): (r: Net)
    requires NetOk(n)
    ensures NetOk(r) && r.a.cfg == n.a.cfg && r.b.cfg == n.b.cfg
  {
    var now := Now(n.clock);
    match x
    case PollA => n.(a := NodeProcess(n.a, now))
    case PollB => n.(b := NodeProcess(n.b, now))
    case DeliverA =>
      if n.aRead >= |n.b.io.sent| then n
      else n.(a := NodeRead(n.a, n.b.io.sent[n.aRead], now), aRead := n.aRead + 1)
    case DeliverB =>
      if n.bRead >= |n.a.io.sent| then n
      else n.(b := NodeRead(n.b, n.a.io.sent[n.bRead], now), bRead := n.bRead + 1)
    case AskA(data) => AskedA(n, data)
    case AskB(data) => AskedB(n, data)
    case Time => n.(clock := n.clock + 1)
  }

  function NetRun(n: Net, actions: seq<NetAction>): (r: Net)
    requires NetOk(n)
    ensures NetOk(r)
    decreases |actions|
  {
    if actions == [] then n else NetRun(NetNext(n, actions[0]), actions[1..])
  }

  // ---- Telling the two directions apart ----

  /** The flow controls (or the other frames) among some frames. */
  function Flows(frames: seq<CanFrame>, flow: bool): seq<CanFrame> {
    if frames == [] then []
    else
      var f := frames[|frames| - 1];
      Flows(frames[..|frames| - 1], flow) + if IsFlowFrame(f.data) == flow then [f] else []
  }

  /** Whether an event stems from the sender of a node. */
  predicate IsTxEvent(e: IsoEvent) {
    e.event == Conf && e.result != TimeoutCr
  }

  function Events(log: seq<IsoEvent>, tx: bool): seq<IsoEvent> {
    if log == [] then []
    else
      var e := log[|log| - 1];
      Events(log[..|log| - 1], tx) + if IsTxEvent(e) == tx then [e] else []
  }

  /** The part of a node's output that comes from its sender, or from its receiver. */
  function Part(io: Io, tx: bool): Io {
    Io(io.accept, Flows(io.sent, !tx), |Flows(io.sent, !tx)|, Events(io.log, tx))
  }

  /** The direction from `a` to `b`. */
  function Direction(n: Net): Line
    requires n.bRead <= |n.a.io.sent| && n.aRead <= |n.b.io.sent|
  {
    Line(n.a.tx, Part(n.a.io, true), n.b.rx, Part(n.b.io, false),
         |Flows(n.a.io.sent[..n.bRead], false)|, |Flows(n.b.io.sent[..n.aRead], true)|)
  }

  lemma FlowsAppend(frames: seq<CanFrame>, f: CanFrame, flow: bool)
    ensures Flows(frames + [f], flow) == Flows(frames, flow) + if IsFlowFrame(f.data) == flow then [f] else []
  {
    assert (frames + [f])[..|frames|] == frames;
  }

  lemma EventsAppend(log: seq<IsoEvent>, e: IsoEvent, tx: bool)
    ensures Events(log + [e], tx) == Events(log, tx) + if IsTxEvent(e) == tx then [e] else []
  {
    assert (log + [e])[..|log|] == log;
  }

  lemma FlowsStep(frames: seq<CanFrame>, i: nat, flow: bool)
    requires i < |frames|
    ensures Flows(frames[..i + 1], flow) ==
            Flows(frames[..i], flow) + if IsFlowFrame(frames[i].data) == flow then [frames[i]] else []
  {
    assert frames[..i + 1] == frames[..i] + [frames[i]];
    FlowsAppend(frames[..i], frames[i], flow);
  }

  /** The frame read next is, among its kind, the one after those read before. */
  lemma {:induction false} FlowsAt(frames: seq<CanFrame>, i: nat, j: nat, flow: bool)
    requires i < j <= |frames| && IsFlowFrame(frames[i].data) == flow
    ensures |Flows(frames[..i], flow)| < |Flows(frames[..j], flow)|
    ensures Flows(frames[..j], flow)[|Flows(frames[..i], flow)|] == frames[i]
    decreases j
  {
    FlowsStep(frames, j - 1, flow);
    if i < j - 1 {
      FlowsAt(frames, i, j - 1, flow);
    }
  }

  predicate Shaped(f: CanFrame, cfg: Config) {
    f.id == cfg.respId && |f.data| == cfg.candl
  }

  /** What one half of a node - its sender (`tx`) or its receiver - does to the node's output:
      it appends frames and events of its own kind. `part'` is its part of the result. */
  ghost predicate Effect(tx: bool, io: Io, io': Io, part': Io, cfg: Config) {
    && Part(io', tx) == part' && Part(io', !tx) == Part(io, !tx)
    && io'.accept == io.accept && io.sent <= io'.sent
    && forall i :: |io.sent| <= i < |io'.sent| ==> Shaped(io'.sent[i], cfg)
  }

  lemma LoggedPart(io: Io, e: IsoEvent, cfg: Config)
    ensures Effect(IsTxEvent(e), io, io.Logged(e), Part(io, IsTxEvent(e)).Logged(e), cfg)
  {
    EventsAppend(io.log, e, true);
    EventsAppend(io.log, e, false);
  }

  lemma AttemptedPart(io: Io, f: CanFrame, cfg: Config)
    requires AlwaysAccepts(io) && Shaped(f, cfg)
    ensures var tx := !IsFlowFrame(f.data); Effect(tx, io, io.Attempted(f), Part(io, tx).Attempted(f), cfg)
  {
    assert io.accept(io.attempts) && io.accept(Part(io, true).attempts) && io.accept(Part(io, false).attempts);
    FlowsAppend(io.sent, f, true);
    FlowsAppend(io.sent, f, false);
  }

  lemma Effects(tx: bool, io: Io, io1: Io, part1: Io, io2: Io, part2: Io, cfg: Config)
    requires Effect(tx, io, io1, part1, cfg) && Effect(tx, io1, io2, part2, cfg)
    ensures Effect(tx, io, io2, part2, cfg)
  {
    forall i | |io.sent| <= i < |io2.sent|
      ensures Shaped(io2.sent[i], cfg)
    {
      if i < |io1.sent| {
        assert io2.sent[i] == io1.sent[i];
      }
    }
  }

  lemma PreparedNoFlow(tx: TxState, cfg: Config, now: Word)
    requires tx.passed < tx.size <= |tx.txbuff| && cfg.candl >= 2
    ensures !IsFlowFrame(FrameOf(Prepared(tx, cfg, now).message, cfg).data)
  {
    var m := Prepared(tx, cfg, now).message;
    assert m[0] == ConsecutiveHeader(Inc8(tx.sn));
    assert m[..cfg.candl][0] == m[0];
  }

  lemma FirstNoFlow(tx: TxState, cfg: Config, data: seq<Byte>)
    requires Sendable(data, cfg)
    ensures !IsFlowFrame(FrameOf(FirstTried(tx, cfg, data).message, cfg).data)
  {
    FirstTriedFrame(tx, cfg, data);
    assert HeadFrame(data, cfg).data[0] == DataHeader(|data|, cfg.candl).bytes[0];
    assert |data| <= 0xfff ==> |data| / 256 < 16;
  }

  lemma FlowOutIsFlow(rx: RxState, io: Io, cfg: Config, state: FlowState, bs: Byte, st: Byte)
    requires cfg.candl >= 8
    ensures IsFlowFrame(FrameOf(FlowOut(rx, io, cfg, state, bs, st).rx.message, cfg).data)
  {
    var m := FlowOut(rx, io, cfg, state, bs, st).rx.message;
    assert m[0] == FC_CODE + FlowByte(state);
    assert m[..cfg.candl][0] == m[0];
  }

  // ---- Each half of a node works on its own part of the output ----

  lemma AdvancedPart(t: TxState, n: nat, io: Io, cfg: Config)
    ensures var a, a' := Advanced(t, n, io), Advanced(t, n, Part(io, true));
            a.tx == a'.tx && Effect(true, io, a.io, a'.io, cfg)
  {
    LoggedPart(io, TxEvent(OkS), cfg);
    AdvancedOutput(t, n, io);
    AdvancedOutput(t, n, Part(io, true));
    assert Effect(true, io, io, Part(io, true), cfg);
  }

  /** What an advance leaves of the sender does not depend on the output. */
  lemma AdvancedOutput(t: TxState, n: nat, io: Io)
    ensures var a := Advanced(t, n, io);
            && a.io == (if t.passed + n >= t.size then io.Logged(TxEvent(OkS)) else io)
            && a.tx == Advanced(t, n, QuietIo(io.accept)).tx
  {
  }

  lemma {:induction false} BurstPart(tx: TxState, io: Io, cfg: Config, now: Word)
    requires tx.state == MfDt && TxOk(tx, cfg) && AlwaysAccepts(io)
    ensures var r, r' := Burst(tx, io, cfg, now), Burst(tx, Part(io, true), cfg, now);
            r.tx == r'.tx && Effect(true, io, r.io, r'.io, cfg)
    decreases tx.size - tx.passed
  {
    var t := Prepared(tx, cfg, now);
    var f := FrameOf(t.message, cfg);
    var n := ChunkLength(tx, cfg);
    PreparedNoFlow(tx, cfg, now);
    AttemptedPart(io, f, cfg);
    assert io.Accepts() && Part(io, true).Accepts() by {
      assert io.accept(io.attempts) && io.accept(Part(io, true).attempts);
    }
    var io1 := io.Attempted(f);
    AdvancedPart(t, n, io1, cfg);
    var a, a' := Advanced(t, n, io1), Advanced(t, n, Part(io1, true));
    Effects(true, io, io1, Part(io1, true), a.io, a'.io, cfg);
    if a.tx.state == MfDt {
      BurstPart(a.tx, a.io, cfg, now);
      var r, r' := Burst(a.tx, a.io, cfg, now), Burst(a.tx, a'.io, cfg, now);
      Effects(true, io, a.io, a'.io, r.io, r'.io, cfg);
    }
  }

  lemma EndedPart(tx: TxState, io: Io, due: bool, result: NResult, cfg: Config)
    requires result != TimeoutCr
    ensures var r, r' := Ended(tx, io, due, result), Ended(tx, Part(io, true), due, result);
            r.tx == r'.tx && Effect(true, io, r.io, r'.io, cfg)
  {
    LoggedPart(io, TxEvent(result), cfg);
  }

  lemma ProcessPart(tx: TxState, io: Io, cfg: Config, now: Word)
    requires TxOk(tx, cfg) && AlwaysAccepts(io)
    ensures var r, r' := ProcessStep(tx, io, cfg, now), ProcessStep(tx, Part(io, true), cfg, now);
            r.tx == r'.tx && Effect(true, io, r.io, r'.io, cfg)
  {
    match tx.state
    case Wait => EndedPart(tx.(nBs := tx.nBs.Polled(now)), io, tx.nBs.Due(now), TimeoutBs, cfg);
    case MfDt =>
      var b, b' := Burst(tx, io, cfg, now), Burst(tx, Part(io, true), cfg, now);
      BurstPart(tx, io, cfg, now);
      var t := b.tx.(nAs := b.tx.nAs.Polled(now));
      EndedPart(t, b.io, b.tx.nAs.Due(now), TimeoutAs, cfg);
      var e, e' := Ended(t, b.io, b.tx.nAs.Due(now), TimeoutAs),
                  Ended(t, Part(b.io, true), b.tx.nAs.Due(now), TimeoutAs);
      Effects(true, io, b.io, b'.io, e.io, e'.io, cfg);
    case _ =>
  }

  lemma FlowPart(tx: TxState, io: Io, cfg: Config, status: Byte, bs: Byte, st: Byte, now: Word)
    requires TxOk(tx, cfg)
    ensures var r, r' := FlowStep(tx, io, cfg, status, bs, st, now),
                         FlowStep(tx, Part(io, true), cfg, status, bs, st, now);
            r.tx == r'.tx && Effect(true, io, r.io, r'.io, cfg)
  {
    if tx.state != Wait {
      LoggedPart(io, TxEvent(UnexpPdu), cfg);
    } else if status == FlowByte(FlowOverflow) {
      LoggedPart(io, TxEvent(BufferOvflw), cfg);
    } else if status != FlowByte(FlowCts) && status != FlowByte(FlowWait) {
      LoggedPart(io, TxEvent(InvalidFs), cfg);
    }
  }

  lemma SendPart(tx: TxState, io: Io, cfg: Config, data: seq<Byte>, now: Word)
    requires TxOk(tx, cfg) && cfg.candl >= 8 && AlwaysAccepts(io)
    ensures var r, r' := SendStep(tx, io, cfg, data, now), SendStep(tx, Part(io, true), cfg, data, now);
            r.tx == r'.tx && Effect(true, io, r.io, r'.io, cfg)
  {
    if 0 < |data| <= |tx.txbuff| {
      var f := FrameOf(FirstTried(tx, cfg, data).message, cfg);
      FirstNoFlow(tx, cfg, data);
      HeadPart(io, f, cfg);
    }
  }

  /** A head frame goes out, and a single frame is confirmed. */
  lemma HeadPart(io: Io, f: CanFrame, cfg: Config)
    requires AlwaysAccepts(io) && Shaped(f, cfg) && !IsFlowFrame(f.data)
    ensures io.Accepts() && Part(io, true).Accepts()
    ensures Effect(true, io, io.Attempted(f), Part(io, true).Attempted(f), cfg)
    ensures Effect(true, io, io.Attempted(f).Logged(TxEvent(OkS)),
                   Part(io, true).Attempted(f).Logged(TxEvent(OkS)), cfg)
  {
    assert io.accept(io.attempts) && io.accept(Part(io, true).attempts);
    AttemptedPart(io, f, cfg);
    var io1 := io.Attempted(f);
    LoggedPart(io1, TxEvent(OkS), cfg);
    Effects(true, io, io1, Part(io1, true), io1.Logged(TxEvent(OkS)), Part(io1, true).Logged(TxEvent(OkS)), cfg);
  }

  lemma ProcessRxPart(rx: RxState, io: Io, cfg: Config, now: Word)
    ensures var r, r' := ProcessRxStep(rx, io, now), ProcessRxStep(rx, Part(io, false), now);
            r.rx == r'.rx && Effect(false, io, r.io, r'.io, cfg)
  {
    LoggedPart(io, RxEvent(Conf, TimeoutCr, [], 0), cfg);
  }

  lemma FlowOutPart(rx: RxState, io: Io, cfg: Config, state: FlowState, bs: Byte, st: Byte)
    requires cfg.candl >= 8 && AlwaysAccepts(io)
    ensures var r, r' := FlowOut(rx, io, cfg, state, bs, st), FlowOut(rx, Part(io, false), cfg, state, bs, st);
            r.rx == r'.rx && Effect(false, io, r.io, r'.io, cfg) && AlwaysAccepts(r.io)
  {
    FlowOutIsFlow(rx, io, cfg, state, bs, st);
    AttemptedPart(io, FrameOf(FlowOut(rx, io, cfg, state, bs, st).rx.message, cfg), cfg);
  }

  lemma UnexpectedPart(busy: bool, io: Io, cfg: Config)
    ensures Effect(false, io, if busy then Unexpected(io) else io,
                   if busy then Unexpected(Part(io, false)) else Part(io, false), cfg)
  {
    LoggedPart(io, RxEvent(Data, UnexpPdu, [], 0), cfg);
  }

  lemma FirstPart(rx: RxState, io: Io, cfg: Config, dlen: nat, chunk: seq<Byte>, now: Word)
    requires cfg.candl >= 8 && AlwaysAccepts(io)
    ensures var r, r' := FirstStep(rx, io, cfg, dlen, chunk, now),
                         FirstStep(rx, Part(io, false), cfg, dlen, chunk, now);
            r.rx == r'.rx && Effect(false, io, r.io, r'.io, cfg)
  {
    var io0 := if rx.IsBusy() then Unexpected(io) else io;
    UnexpectedPart(rx.IsBusy(), io, cfg);
    if dlen > |rx.rxbuff| {
      FlowOutPart(rx.(state := RxIdle), io0, cfg, FlowOverflow, 0, 0);
      var f, f' := FlowOut(rx.(state := RxIdle), io0, cfg, FlowOverflow, 0, 0),
                  FlowOut(rx.(state := RxIdle), Part(io0, false), cfg, FlowOverflow, 0, 0);
      Effects(false, io, io0, Part(io0, false), f.io, f'.io, cfg);
    } else {
      FlowOutPart(rx, io0, cfg, FlowCts, rx.blksize, rx.stmin);
      var f, f' := FlowOut(rx, io0, cfg, FlowCts, rx.blksize, rx.stmin),
                  FlowOut(rx, Part(io0, false), cfg, FlowCts, rx.blksize, rx.stmin);
      Effects(false, io, io0, Part(io0, false), f.io, f'.io, cfg);
      var e := RxEvent(DataFF, OkR, [], dlen);
      LoggedPart(f.io, e, cfg);
      Effects(false, io, f.io, f'.io, f.io.Logged(e), f'.io.Logged(e), cfg);
    }
  }

  lemma ConsecutivePart(rx: RxState, io: Io, cfg: Config, sn: Byte, offered: seq<Byte>, now: Word)
    requires cfg.candl >= 8 && AlwaysAccepts(io)
    ensures var r, r' := ConsecutiveStep(rx, io, cfg, sn, offered, now),
                         ConsecutiveStep(rx, Part(io, false), cfg, sn, offered, now);
            r.rx == r'.rx && Effect(false, io, r.io, r'.io, cfg)
  {
    UnexpectedPart(true, io, cfg);
    var t := Taken(rx, offered[..WantedLength(rx, |offered|)], now);
    LoggedPart(io, RxEvent(Data, OkR, Assembled(t), t.rxsize), cfg);
    FlowOutPart(t, io, cfg, FlowCts, t.blksize, t.stmin);
  }

  lemma SinglePart(rx: RxState, io: Io, cfg: Config, payload: seq<Byte>)
    ensures var r, r' := SingleStep(rx, io, payload), SingleStep(rx, Part(io, false), payload);
            r.rx == r'.rx && Effect(false, io, r.io, r'.io, cfg)
  {
    var io0 := if rx.IsBusy() then Unexpected(io) else io;
    UnexpectedPart(rx.IsBusy(), io, cfg);
    var e := RxEvent(Data, OkR, payload, |payload|);
    LoggedPart(io0, e, cfg);
    Effects(false, io, io0, Part(io0, false), io0.Logged(e), Part(io0, false).Logged(e), cfg);
  }

  lemma ReceivePart(rx: RxState, io: Io, cfg: Config, data: seq<Byte>, now: Word)
    requires cfg.candl >= 8 && AlwaysAccepts(io) && !IsFlowFrame(data)
    ensures var r, r' := ReceiveStep(rx, io, cfg, data, now), ReceiveStep(rx, Part(io, false), cfg, data, now);
            r.rx == r'.rx && Effect(false, io, r.io, r'.io, cfg)
  {
    var m := Unpack(data);
    if 0 < m.pcilen <= |data| {
      match m.kind
      case FF(dlen) => FirstPart(rx, io, cfg, dlen, data[m.pcilen..], now);
      case CF(sn) => ConsecutivePart(rx, io, cfg, sn, data[m.pcilen..], now);
      case SF(dlen) => SinglePart(rx, io, cfg, data[m.pcilen..][..Min(dlen, |data| - m.pcilen)]);
      case _ => HeaderInsideFrame(data);
    }
  }
}
