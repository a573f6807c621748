/** The receiving half of a DoCAN node (src/uds/isotp/docan-receiver.{h,cpp}): single frames are
    handed on, first and consecutive frames are put together in the receive buffer and answered
    with flow control. `RxState` is the receiver as a value, the ...Step functions say what each
    entry point does to it, and the class DoCANReceiver does the same in place. */
module Receiver {
  import opened IsoTpTypes
  import opened Timers
  import opened Pci
  import opened TpPort

  datatype RxStatus = RxIdle | RxActive

  datatype RxState = RxState(
    state: RxStatus,
    rxsize: nat,
    passed: nat,
    expectsn: Byte,
    currblkn: Byte,
    blksize: Byte,
    stmin: Byte,
    rxbuff: Buffer,
    message: Message,
    cr: TimerState)
  {
    predicate IsBusy() {
      state != RxIdle
    }
  }

  /** A receiver and what has left its node. */
  datatype RxOut = RxOut(rx: RxState, io: Io)

  function NewRx(rxbuff: Buffer, message: Message): RxState {
    RxState(RxIdle, 0, 0, 0, 0, 16, 0, rxbuff, message, NewTimer(1000))
  }

  /** During a reception some announced bytes are missing and the message fits the buffer. */
  predicate RxOk(rx: RxState) {
    rx.IsBusy() ==> rx.passed < rx.rxsize <= |rx.rxbuff|
  }

  /** A frame short enough for the source's own assertion whose first-frame length, if it has
      one, exceeds the bytes the frame itself carries. Every classic CAN frame is one. */
  predicate FrameOk(data: seq<Byte>) {
    var m := Unpack(data);
    |data| < CANFD_DL_MAX && (m.kind.FF? ==> |data| - m.pcilen < m.kind.dlen)
  }

  /** A first frame that will be accepted copies its payload part to `passed`, which is only
      reset after the copy; this says that the copy stays inside the buffer. */
  predicate CopyFits(rx: RxState, data: seq<Byte>) {
    var m := Unpack(data);
    m.kind.FF? && m.kind.dlen <= |rx.rxbuff| ==> rx.passed + (|data| - m.pcilen) <= |rx.rxbuff|
  }

  // ---- Copies into the receive buffer ----

  /** The copy a frame makes, if it makes one, stays inside the receive buffer. */
  predicate CopyInside(rx: RxState, data: seq<Byte>) {
    var m := Unpack(data);
    match m.kind
    case FF(dlen) => dlen <= |rx.rxbuff| ==> rx.passed + (|data| - m.pcilen) <= |rx.rxbuff|
    case CF(sn) =>
      rx.IsBusy() && sn == rx.expectsn % 16 ==>
        rx.passed + WantedLength(rx, |data| - m.pcilen) <= |rx.rxbuff|
    case _ => true
  }

  /** Consecutive frames never leave the buffer; so all depends on the first frame's copy. */
  lemma CopyInsideIff(rx: RxState, data: seq<Byte>)
    requires RxOk(rx)
    ensures CopyInside(rx, data) <==> CopyFits(rx, data)
  {
    HeaderInsideFrame(data);
  }

  /** The smallest case in which the source copies past its buffer: an offset left at the end of
      the buffer and an eight-byte first frame that announces eight bytes. */
  lemma StaleOffsetOverruns(rx: RxState)
    requires |rx.rxbuff| >= 8 && rx.passed == |rx.rxbuff|
    ensures var f: seq<Byte> := [0x10, 8, 1, 2, 3, 4, 5, 6]; FrameOk(f) && !CopyInside(rx, f)
  {
    BigEndianTwo(0, 8);
  }

  // ---- ProcessRx ----

  function ProcessRxStep(rx: RxState, io: Io, now: Word): RxOut {
    if !rx.IsBusy() then RxOut(rx, io)
    else
      var t := rx.(cr := rx.cr.Polled(now));
      if rx.cr.Due(now) then
        RxOut(t.(state := RxIdle, passed := 0, rxsize := 0), io.Logged(RxEvent(Conf, TimeoutCr, [], 0)))
      else RxOut(t, io)
  }

  // ---- Receive ----

  function Unexpected(io: Io): Io {
    io.Logged(RxEvent(Data, UnexpPdu, [], 0))
  }

  /** A flow control frame goes out; nobody looks whether the bus took it. */
  function FlowOut(rx: RxState, io: Io, cfg: Config, state: FlowState, bs: Byte, st: Byte): RxOut {
    var msg := Padded(Overlay(rx.message, 0, FlowHeader(state, bs, st)), 3, cfg);
    RxOut(rx.(message := msg), io.Attempted(FrameOf(msg, cfg)))
  }

  /** The receiver after accepting a first frame with payload part `chunk`. */
  function Accepted(rx: RxState, dlen: nat, chunk: seq<Byte>, now: Word): RxState {
    rx.(currblkn := 0,
        rxsize := dlen,
        rxbuff := Overlay(rx.rxbuff, rx.passed, chunk),
        passed := |chunk|,
        expectsn := 1,
        state := RxActive,
        cr := rx.cr.Restarted(now))
  }

  function FirstStep(rx: RxState, io: Io, cfg: Config, dlen: nat, chunk: seq<Byte>, now: Word): RxOut {
    var io0 := if rx.IsBusy() then Unexpected(io) else io;
    if dlen < MIN_FF_CANDL then RxOut(rx, io0)
    else if dlen > |rx.rxbuff| then FlowOut(rx.(state := RxIdle), io0, cfg, FlowOverflow, 0, 0)
    else
      var f := FlowOut(rx, io0, cfg, FlowCts, rx.blksize, rx.stmin);
      RxOut(Accepted(f.rx, dlen, chunk, now), f.io.Logged(RxEvent(DataFF, OkR, [], dlen)))
  }

  /** How many of the `offered` bytes of a consecutive frame belong to the message. The source
      asserts that there are never more than the announced ones. */
  function WantedLength(rx: RxState, offered: nat): nat {
    if rx.passed + offered <= rx.rxsize then offered
    else if rx.passed <= rx.rxsize then rx.rxsize - rx.passed
    else 0
  }

  /** The receiver after taking an in-order consecutive frame. */
  function Taken(rx: RxState, chunk: seq<Byte>, now: Word): RxState {
    rx.(cr := rx.cr.Restarted(now),
        rxbuff := Overlay(rx.rxbuff, rx.passed, chunk),
        passed := rx.passed + |chunk|,
        expectsn := Inc8(rx.expectsn),
        currblkn := Inc8(rx.currblkn))
  }

  function Assembled(rx: RxState): seq<Byte> {
    rx.rxbuff[..Min(rx.rxsize, |rx.rxbuff|)]
  }

  function ConsecutiveStep(rx: RxState, io: Io, cfg: Config, sn: Byte, offered: seq<Byte>, now: Word): RxOut {
    if !rx.IsBusy() || sn != rx.expectsn % 16 then RxOut(rx.(state := RxIdle), Unexpected(io))
    else
      var t := Taken(rx, offered[..WantedLength(rx, |offered|)], now);
      if t.passed == t.rxsize then
        RxOut(t.(state := RxIdle), io.Logged(RxEvent(Data, OkR, Assembled(t), t.rxsize)))
      else if t.currblkn >= t.blksize then
        var f := FlowOut(t, io, cfg, FlowCts, t.blksize, t.stmin);
        RxOut(f.rx.(currblkn := 0), f.io)
      else RxOut(t, io)
  }

  function SingleStep(rx: RxState, io: Io, payload: seq<Byte>): RxOut {
    RxOut(rx.(state := RxIdle),
          (if rx.IsBusy() then Unexpected(io) else io).Logged(RxEvent(Data, OkR, payload, |payload|)))
  }

  /** Receive: what one frame does. A header of size 0 makes the receiver ignore the frame. */
  function ReceiveStep(rx: RxState, io: Io, cfg: Config, data: seq<Byte>, now: Word): RxOut {
    var m := Unpack(data);
    if m.pcilen == 0 || m.pcilen > |data| then RxOut(rx, io)
    else match m.kind
      case FF(dlen) => FirstStep(rx, io, cfg, dlen, data[m.pcilen..], now)
      case CF(sn) => ConsecutiveStep(rx, io, cfg, sn, data[m.pcilen..], now)
      case SF(dlen) => SingleStep(rx, io, data[m.pcilen..][..Min(dlen, |data| - m.pcilen)])
      case _ =>
        if rx.IsBusy() then RxOut(rx.(state := RxIdle), io.Logged(RxEvent(Conf, UnexpPdu, [], 0)))
        else RxOut(rx, io)
  }

  /** SetParameter's effect on the receiver; bytes are cut to eight bits. */
  function RxParameter(rx: RxState, name: ParName, v: Word, now: Word): RxState {
    match name
    case BlkSz => rx.(blksize := v % 256)
    case StMin => rx.(stmin := v % 256)
    case CrTimMs => rx.(cr := rx.cr.Started(v, now).Stopped())
    case _ => rx
  }

  /** What the client is told of a message without bytes. */
  predicate EmptyMessage(e: IsoEvent) {
    e.event == Data && e.result == OkR && e.length == 0
  }

  /** The receiver delivers a message without bytes exactly for a single frame that announces none. */
  lemma EmptyDeliveryIff(rx: RxState, io: Io, cfg: Config, data: seq<Byte>, now: Word)
    requires RxOk(rx) && FrameOk(data)
    ensures var r := ReceiveStep(rx, io, cfg, data, now);
            && io.log <= r.io.log
            && ((exists i :: |io.log| <= i < |r.io.log| && EmptyMessage(r.io.log[i])) <==> Unpack(data).kind == SF(0))
  {
    HeaderInsideFrame(data);
    var r := ReceiveStep(rx, io, cfg, data, now);
    if Unpack(data).kind == SF(0) {
      assert r.io.log[|r.io.log| - 1] == RxEvent(Data, OkR, [], 0);
    }
  }

  lemma ReceiveKeepsRxOk(rx: RxState, io: Io, cfg: Config, data: seq<Byte>, now: Word)
    requires RxOk(rx) && FrameOk(data)
    ensures RxOk(ReceiveStep(rx, io, cfg, data, now).rx)
  {
  }

  /** Every classic CAN frame, whatever its bytes, satisfies what Receive needs of a frame. */
  lemma ClassicFramesOk(data: seq<Byte>)
    requires |data| <= CLASSICCAN_DL_MAX
    ensures FrameOk(data)
  {
    HeaderInsideFrame(data);
  }

  // ---- The receiver in place ----

  class DoCANReceiver {
    const rxbuff: array<Byte>
    const canMessage: array<Byte>
    const itp: Port
    const ticker: TickerCounter
    const crTim: Timer
    var state: RxStatus
    var rxsize: nat
    var passed: nat
    var expectsn: Byte
    var currblkn: Byte
    var blksize: Byte
    var stmin: Byte

    ghost function Repr(): set<object> {
      {this, rxbuff, canMessage, crTim}
    }

    ghost predicate Shape() {
      && rxbuff.Length <= MAX_BUFFER && canMessage.Length == MAX_CANDL && rxbuff != canMessage
      && crTim.ticker == ticker
    }

    ghost function View(): RxState
      requires Shape()
      reads Repr()
    {
      RxState(state, rxsize, passed, expectsn, currblkn, blksize, stmin, rxbuff[..], canMessage[..], crTim.View())
    }

    ghost predicate Valid()
      reads Repr()
    {
      Shape() && RxOk(View())
    }

    constructor (mem: array<Byte>, itp: Port, ticker: TickerCounter)
      requires mem.Length <= MAX_BUFFER
      ensures this.itp == itp && this.ticker == ticker && rxbuff == mem
      ensures fresh(Repr() - {mem})
      ensures Valid() && View() == NewRx(mem[..], canMessage[..])
    {
      rxbuff := mem;
      canMessage := new Byte[MAX_CANDL];
      this.itp, this.ticker := itp, ticker;
      crTim := new Timer(ticker, 1000, false, false);
      state, rxsize, passed, expectsn, currblkn, blksize, stmin := RxIdle, 0, 0, 0, 0, 16, 0;
    }

    method ProcessRx()
      requires Valid() && itp !in Repr()
      modifies Repr(), itp
      ensures Valid() && itp.config == old(itp.config)
      ensures RxOut(View(), itp.View()) == ProcessRxStep(old(View()), old(itp.View()), ticker.rootTick)
    {
      if state == RxActive {
        var due := crTim.Elapsed();
        if due {
          state := RxIdle;
          passed := 0;
          rxsize := 0;
          itp.OnIsoRxEvent(Conf, TimeoutCr, [], 0);
        }
      }
    }

    method Receive(data: seq<Byte>)
      requires Valid() && itp !in Repr()
      requires FrameOk(data) && CopyFits(View(), data)
      modifies Repr(), itp
      ensures Valid() && itp.config == old(itp.config)
      ensures RxOut(View(), itp.View()) ==
              ReceiveStep(old(View()), old(itp.View()), itp.config, data, ticker.rootTick)
    {
      var pcioffset, inf := UnpackPciInfo(data);
      HeaderInsideFrame(data);
      ReceiveKeepsRxOk(View(), itp.View(), itp.config, data, ticker.rootTick);
      if pcioffset > 0 {
        match inf
        case FF(dlen) =>
          ReceiveFirst(dlen, data[pcioffset..]);
        case CF(sn) =>
          ReceiveConsecutive(sn, data[pcioffset..]);
        case SF(dlen) =>
          ReceiveSingle(data[pcioffset..][..dlen]);
        case FC(_, _, _) =>
          if state == RxActive {
            state := RxIdle;
            itp.OnIsoRxEvent(Conf, UnexpPdu, [], 0);
          }
        case Error => assert false;
      }
    }

    method ReceiveFirst(dlen: nat, chunk: seq<Byte>)
      requires Shape() && itp !in Repr()
      requires dlen <= rxbuff.Length ==> passed + |chunk| <= rxbuff.Length
      modifies Repr(), itp
      ensures Shape() && itp.config == old(itp.config)
      ensures RxOut(View(), itp.View()) ==
              FirstStep(old(View()), old(itp.View()), itp.config, dlen, chunk, ticker.rootTick)
    {
      if state == RxActive {
        itp.OnIsoRxEvent(Data, UnexpPdu, [], 0);
      }
      if dlen < MIN_FF_CANDL {
      } else if dlen > rxbuff.Length {
        state := RxIdle;
        SendFlowControl(FlowOverflow, 0, 0);
      } else {
        SendFlowControl(FlowCts, blksize, stmin);
        BeginReception(dlen, chunk);
        itp.OnIsoRxEvent(DataFF, OkR, [], rxsize);
      }
    }

    /** The fields of a new reception; the payload part goes where the last one stopped. */
    method BeginReception(dlen: nat, chunk: seq<Byte>)
      requires Shape() && passed + |chunk| <= rxbuff.Length
      modifies this, rxbuff, crTim
      ensures Shape() && View() == Accepted(old(View()), dlen, chunk, ticker.rootTick)
    {
      currblkn := 0;
      rxsize := dlen;
      Copy(rxbuff, passed, chunk);
      passed := |chunk|;
      expectsn := 1;
      state := RxActive;
      crTim.Restart();
    }

    method ReceiveConsecutive(sn: Byte, offered: seq<Byte>)
      requires Valid() && itp !in Repr()
      modifies Repr(), itp
      ensures Shape() && itp.config == old(itp.config)
      ensures RxOut(View(), itp.View()) ==
              ConsecutiveStep(old(View()), old(itp.View()), itp.config, sn, offered, ticker.rootTick)
    {
      if state != RxActive {
        state := RxIdle;
        itp.OnIsoRxEvent(Data, UnexpPdu, [], 0);
      } else if sn != expectsn % 16 {
        state := RxIdle;
        itp.OnIsoRxEvent(Data, UnexpPdu, [], 0);
      } else {
        var cpylen := |offered|;
        if passed + cpylen > rxsize {
          cpylen := rxsize - passed;
        }
        TakePart(offered[..cpylen]);
        if passed == rxsize {
          state := RxIdle;
          itp.OnIsoRxEvent(Data, OkR, rxbuff[..rxsize], rxsize);
        } else if currblkn >= blksize {
          SendFlowControl(FlowCts, blksize, stmin);
          currblkn := 0;
        }
      }
    }

    method TakePart(chunk: seq<Byte>)
      requires Shape() && passed + |chunk| <= rxbuff.Length
      modifies this, rxbuff, crTim
      ensures Shape() && View() == Taken(old(View()), chunk, ticker.rootTick)
    {
      crTim.Restart();
      Copy(rxbuff, passed, chunk);
      passed := passed + |chunk|;
      expectsn := Inc8(expectsn);
      currblkn := Inc8(currblkn);
    }

    method ReceiveSingle(payload: seq<Byte>)
      requires Shape() && itp !in Repr()
      modifies this`state, itp
      ensures Shape() && itp.config == old(itp.config)
      ensures RxOut(View(), itp.View()) == SingleStep(old(View()), old(itp.View()), payload)
    {
      if state == RxActive {
        state := RxIdle;
        itp.OnIsoRxEvent(Data, UnexpPdu, [], 0);
      }
      itp.OnIsoRxEvent(Data, OkR, payload, |payload|);
    }

    method SendFlowControl(flow: FlowState, bs: Byte, st: Byte)
      requires Shape() && itp !in Repr()
      modifies canMessage, itp
      ensures Shape() && itp.config == old(itp.config)
      ensures RxOut(View(), itp.View()) == FlowOut(old(View()), old(itp.View()), itp.config, flow, bs, st)
    {
      var len := PackFlowControl(canMessage, flow, bs, st);
      var taken := itp.PduToCan(canMessage, len);
    }

    method SetParameter(name: ParName, v: Word) returns (ret: SetParamResult)
      requires Valid()
      modifies this, crTim
      ensures Valid()
      ensures ret == if name.BlkSz? || name.StMin? || name.CrTimMs? then ParamOk else WrongParameter
      ensures View() == RxParameter(old(View()), name, v, ticker.rootTick)
    {
      ret := ParamOk;
      match name
      case BlkSz =>
        blksize := v % 256;
      case StMin =>
        stmin := v % 256;
      case CrTimMs =>
        crTim.Start(v);
        crTim.Stop();
      case _ =>
        ret := WrongParameter;
    }
  }
}
