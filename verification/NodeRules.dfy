/** What a node does with single frames, flow controls and its parameters, in the bytes on the bus
    (src/uds/isotp/docan-tp.cpp:12-100, src/uds/isotp/docan-sender.cpp:155-226,
    src/uds/isotp/docan-receiver.cpp:103-151). */
module NodeRules {
  import opened IsoTpTypes
  import opened Timers
  import opened Pci
  import opened TpPort
  import opened Sender
  import opened Receiver
  import opened Transport
  import opened Segmentation
  import opened SenderRuns
  import opened StaleFlag
  import opened SenderTiming
  import opened ReceiverRuns
  import opened ReceiverTiming
  import opened Lockstep

  /** A frame for this node alone. */
  function Physical(n: Node, data: seq<Byte>): CanFrame {
    CanFrame(n.cfg.physId, data)
  }

  /** A single frame of one to seven bytes reaches the client as it is, padded or not. */
  lemma ShortMessageDelivered(n: Node, payload: seq<Byte>, padding: seq<Byte>, now: Word)
    requires NodeOk(n) && !n.rx.IsBusy() && n.cfg.physId != n.cfg.funcId
    requires 1 <= |payload| && |payload| + |padding| <= 7
    ensures NodeRead(n, Physical(n, [|payload|] + payload + padding), now) ==
            n.(io := n.io.Logged(IsoEvent(Data, OkR, payload, |payload|, TarAddress.Physical)))
  {
    var body := payload + padding;
    var data := [|payload|] + payload + padding;
    assert data == DataHeader(|payload|, 8).bytes + body;
    SingleHeaderRoundTrip(|payload|, 8, body);
    assert data[1..] == body && body[..|payload|] == payload;
  }

  /** What the sender makes of each flow status, and how it is told: nothing of 0 and 1 while it
      waits; 2 and the unknown ones end the transfer; and so does any flow control it did not
      wait for. None of them sends anything or touches the receiver. */
  lemma FlowVerdicts(n: Node, status: Byte, bs: Byte, st: Byte, padding: seq<Byte>, now: Word)
    requires NodeOk(n) && n.cfg.physId != n.cfg.funcId && status < 16
    ensures var r := NodeRead(n, Physical(n, [0x30 + status, bs, st] + padding), now);
            && r.rx == n.rx && r.io.sent == n.io.sent
            && (n.tx.state == Wait && status <= 1 ==> r.tx.IsBusy() && r.io == n.io)
            && (n.tx.state == Wait && status == 1 ==> r.tx.state == Wait)
            && (n.tx.state == Wait && status == 0 ==> r.tx.state != Wait)
            && (n.tx.state == Wait && status > 1 ==>
                  !r.tx.IsBusy() && r.io == n.io.Logged(TxEvent(if status == 2 then BufferOvflw else InvalidFs)))
            && (n.tx.state != Wait ==> !r.tx.IsBusy() && r.io == n.io.Logged(TxEvent(UnexpPdu)))
  {
    var data := [0x30 + status, bs, st] + padding;
    assert data[0] / 16 == 3 && data[0] % 16 == status;
  }

  /** A request is taken if it has bytes and fits the buffer, and then, if a frame length is set,
      exactly one frame is tried; otherwise it is refused for the one reason or the other, and
      nothing happens. */
  lemma RequestVerdicts(n: Node, data: seq<Byte>, now: Word)
    requires NodeOk(n) && Workable(|data|, |n.tx.txbuff|, n.cfg.candl)
    ensures var ret := CheckTxValid(|data|, |n.tx.txbuff|);
            var r := NodeRequest(n, data, now);
            && (ret == Ok <==> 0 < |data| <= |n.tx.txbuff|)
            && (ret == WrongState <==> data == []) && (ret == Overflow <==> |data| > |n.tx.txbuff|)
            && (ret == Ok && n.cfg.candl > 0 ==> r.io.attempts == n.io.attempts + 1)
            && (ret != Ok || n.cfg.candl == 0 ==> r == n)
  {
  }

  // ---- Parameters ----

  /** A parameter is refused while a transfer is on, as is the one that does not exist in the code,
      and then nothing changes. */
  lemma ParameterVerdicts(n: Node, name: ParName, v: Word, now: Word)
    ensures var ret := ParameterResult(n, name);
            && (ret == RxOn <==> n.tx.state != Idle || n.rx.state == RxActive)
            && (ret == WrongParameter <==> !n.IsBusy() && name == BrTimMs)
            && (ret != ParamOk ==> NodeParameter(n, name, v, now) == n)
            && (ret == ParamOk || ret == RxOn || ret == WrongParameter)
  {
  }

  /** The block size and the STmin a node was given are those its next clear-to-send carries, each
      in its place and cut to eight bits. */
  lemma GrantsAsConfigured(n: Node, bs: Word, st: Word, data: seq<Byte>, now: Word)
    requires NodeOk(n) && !n.IsBusy() && n.cfg.physId != n.cfg.funcId && n.cfg.candl >= 8 && n.io.Accepts()
    requires FrameOk(data) && CopyFits(n.rx, data)
    requires Unpack(data).kind.FF? && Unpack(data).kind.dlen <= |n.rx.rxbuff|
    ensures var m := NodeParameter(NodeParameter(n, BlkSz, bs, now), StMin, st, now);
            var r := NodeRead(m, Physical(n, data), now);
            && r.rx.IsBusy()
            && r.io.sent == n.io.sent +
                 [CanFrame(n.cfg.respId, [0x30, bs % 256, st % 256] + Fill(n.cfg.padding, n.cfg.candl - 3))]
  {
    HeaderInsideFrame(data);
    var m := NodeParameter(NodeParameter(n, BlkSz, bs, now), StMin, st, now);
    assert m.rx == n.rx.(blksize := bs % 256, stmin := st % 256) && m.cfg == n.cfg && m.io == n.io;
    FlowOutFrame(m.rx, m.io, m.cfg, FlowCts, bs % 256, st % 256);
    assert FlowFrame(FlowCts, bs % 256, st % 256, n.cfg) ==
           CanFrame(n.cfg.respId, [0x30, bs % 256, st % 256] + Fill(n.cfg.padding, n.cfg.candl - 3));
  }

  /** As constructed these are 16 and 0. */
  lemma FreshGrants(n: Node, rxbuff: Buffer, msg: Message, data: seq<Byte>, now: Word)
    requires n.rx == NewRx(rxbuff, msg) && TxOk(n.tx, n.cfg)
    requires n.cfg.physId != n.cfg.funcId && n.cfg.candl >= 8 && n.io.Accepts()
    requires FrameOk(data) && CopyFits(n.rx, data)
    requires Unpack(data).kind.FF? && Unpack(data).kind.dlen <= |rxbuff|
    ensures NodeRead(n, Physical(n, data), now).io.sent == n.io.sent +
              [CanFrame(n.cfg.respId, [0x30, 16, 0] + Fill(n.cfg.padding, n.cfg.candl - 3))]
  {
    HeaderInsideFrame(data);
    FlowOutFrame(n.rx, n.io, n.cfg, FlowCts, 16, 0);
    assert FlowFrame(FlowCts, 16, 0, n.cfg) ==
           CanFrame(n.cfg.respId, [0x30, 16, 0] + Fill(n.cfg.padding, n.cfg.candl - 3));
  }

  /** Frames go out with the identifier, the length and the padding a node was given. */
  lemma FramesAsConfigured(n: Node, id: Word, candl: Word, padding: Word, p: seq<Byte>, now: Word)
    requires NodeOk(n) && !n.IsBusy() && 8 <= candl <= 64 && n.io.Accepts() && 0 < |p| <= |n.tx.txbuff|
    ensures var m := NodeParameter(NodeParameter(NodeParameter(n, RespAddr, id, now), CanDl, candl, now),
                                   PaddByte, padding, now);
            var cfg := Config(n.cfg.physId, n.cfg.funcId, id, candl, padding % 256);
            && NodeOk(m)
            && NodeRequest(m, p, now).io.sent == n.io.sent + [HeadFrame(p, cfg)]
  {
    var cfg := Config(n.cfg.physId, n.cfg.funcId, id, candl, padding % 256);
    FirstTriedFrame(n.tx, cfg, p);
  }

  /** A node listens to the two identifiers it was given and to no other. */
  lemma ListensAsConfigured(n: Node, phys: Word, func: Word, frame: CanFrame, now: Word)
    requires NodeOk(n) && !n.IsBusy() && Readable(frame, n.cfg.(physId := phys, funcId := func))
    ensures var m := NodeParameter(NodeParameter(n, PhysAddr, phys, now), FuncAddr, func, now);
            var r := NodeRead(m, frame, now);
            && NodeOk(m)
            && (frame.id != phys && frame.id != func ==> r == m)
            && (frame.id == func && frame.data[0] < 16 ==> r == m.(io := m.io.Logged(FunctionalEvent(frame.data))))
            && (frame.id == func != phys && frame.data[0] >= 16 ==> r == m)
  {
  }

  /** The Bs period a node was given is the one an unanswered request waits. */
  lemma GivesUpAsConfigured(n: Node, v: Word, clock: nat, p: seq<Byte>, actions: seq<TxAction>)
    requires NodeOk(n) && !n.IsBusy() && n.cfg.candl >= 8 && n.io.Accepts() && OnlyPolls(actions)
    requires 0 < |p| <= |n.tx.txbuff| && TakesSeveral(p, n.cfg) && !n.tx.nBs.endless
    ensures var m := NodeParameter(n, BsTimMs, v, Now(clock));
            var w1 := AskWorld(TxWorld(m.tx, m.io, clock), m.cfg, p);
            var w' := TxRun(w1, m.cfg, actions);
            if AnyOver(clock, v, PollTimes(clock, actions))
            then !w'.tx.IsBusy() && w'.io == w1.io.Logged(TxEvent(TimeoutBs))
            else w'.tx.state == Wait && w'.io == w1.io
  {
    var m := NodeParameter(n, BsTimMs, v, Now(clock));
    UnansweredRequestGivesUp(TxWorld(m.tx, m.io, clock), m.cfg, p, actions);
  }

  /** The Cr period a node was given is the one its receptions wait. */
  lemma TimesOutAsConfigured(n: Node, v: Word, clock: nat, actions: seq<RxAction>)
    requires NodeOk(n) && !n.IsBusy() && !n.rx.cr.endless
    ensures var m := NodeParameter(n, CrTimMs, v, Now(clock));
            var w1 := RxRun(RxWorld(m.rx, m.io, clock), m.cfg, actions);
            var last := LastTaken(clock, RxWorld(m.rx, m.io, clock), m.cfg, actions);
            TimesOut(w1.io, RxNext(w1, m.cfg, RxPoll).io) <==>
              w1.rx.IsBusy() && last <= w1.clock && (w1.clock - last) % WORD_RANGE >= v
  {
    var m := NodeParameter(n, CrTimMs, v, Now(clock));
    CrTimeoutIff(RxWorld(m.rx, m.io, clock), m.cfg, actions, RxPoll);
  }

  /** The As period a node was given is the one refused frames are tried again for. */
  lemma RetriesAsConfigured(n: Node, v: Word, clock: nat, actions: seq<TxAction>)
    requires NodeOk(n) && !n.IsBusy() && n.cfg.candl >= 8 && !n.tx.nAs.endless
    ensures var m := NodeParameter(n, AsTimMs, v, Now(clock));
            var w := TxWorld(m.tx, m.io, clock);
            var w1 := TxRun(w, m.cfg, actions);
            var w2 := PollWorld(w1, m.cfg);
            var b := AsRun(Watch(false, clock), w, m.cfg, actions, v);
            && b.since <= w1.clock
            && (Reports(w1.io, w2.io, TimeoutAs) <==>
                w1.tx.state == MfDt && Refused(w1, w2) != 0 && Over(AsStarted(b, w1, w2), v, w1.clock))
  {
    var m := NodeParameter(n, AsTimMs, v, Now(clock));
    AsTimeoutIff(TxWorld(m.tx, m.io, clock), m.cfg, actions, Poll);
  }
}
