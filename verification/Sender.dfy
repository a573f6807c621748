/** The sending half of a DoCAN node (src/uds/isotp/docan-sender.{h,cpp}): a payload becomes
    one single frame, or a first frame and the consecutive frames the peer's flow control lets
    through. `TxState` is the sender as a value, the ...Step functions say what each entry
    point does to it, and the class DoCANSender does the same in place. */
module Sender {
  import opened IsoTpTypes
  import opened Timers
  import opened Pci
  import opened TpPort

  datatype DtState = Idle | SfDt | MfDt | Pause | Wait

  datatype TxState = TxState(
    state: DtState,
    passed: nat,
    size: nat,
    sn: Byte,
    currblknum: Byte,
    segblkcount: Byte,
    stmin: Byte,
    txbuff: Buffer,
    message: Message,
    prevDataSent: bool,
    nAs: TimerState,
    nBs: TimerState,
    stMin: TimerState)
  {
    predicate IsBusy() {
      state != Idle
    }
  }

  /** A sender and what has left its node. */
  datatype TxOut = TxOut(tx: TxState, io: Io)

  function NewTx(txbuff: Buffer): TxState {
    TxState(Idle, 0, 0, 0, 0, 25, 0, txbuff, Fill(0, MAX_CANDL), true,
            NewTimer(1000), NewTimer(1000), NewTimer(0))
  }

  /** A frame takes the header for `length` bytes and more. */
  predicate Framable(length: Word, candl: nat) {
    |DataHeader(length, candl).bytes| < candl
  }

  /** What Send asserts of a payload it is going to frame. Frames of eight bytes or more meet it
      for every length. */
  predicate Workable(length: nat, capacity: nat, candl: nat) {
    0 < length <= capacity <= MAX_BUFFER && candl > 0 ==> Framable(length, candl)
  }

  /** The frame lengths with which a payload can be framed at all: seven bytes do for every
      length, three for those a two-byte header can announce, two for a single byte. */
  lemma FramableIff(length: Word, candl: nat)
    requires 0 < length <= MAX_BUFFER
    ensures Framable(length, candl) <==> candl >= 7 || (candl >= 3 && length <= 0xfff) || (candl == 2 && length == 1)
  {
  }

  /** While a transfer is on, part of the payload is still to be sent, the payload lies inside
      the transmit buffer and frames carry data. */
  predicate TxOk(tx: TxState, cfg: Config) {
    && tx.state != SfDt
    && (tx.IsBusy() ==> tx.passed < tx.size <= |tx.txbuff| && cfg.candl >= 2)
  }

  // ---- Send ----

  function CheckTxValid(length: nat, capacity: nat): IsoTpResult {
    if length == 0 then WrongState else if length > capacity then Overflow else Ok
  }

  /** How many payload bytes the first frame of a message carries. */
  function FirstLength(length: Word, candl: nat): (n: nat)
    requires 0 < length <= MAX_BUFFER && Framable(length, candl)
    ensures n <= length && |DataHeader(length, candl).bytes| + n <= candl
    ensures n < length <==> DataHeader(length, candl).kind == FirstFrame
  {
    var h := |DataHeader(length, candl).bytes|;
    if h + length > candl then candl - h else length
  }

  /** The frame buffer with a message's first header and payload part. */
  function FirstFilled(msg: Message, data: seq<Byte>, candl: nat): Message
    requires 0 < |data| <= MAX_BUFFER && Framable(|data|, candl)
  {
    var h := DataHeader(|data|, candl).bytes;
    Overlay(Overlay(msg, 0, h), |h|, data[..FirstLength(|data|, candl)])
  }

  /** The sender once a message's first frame has been handed to the bus. */
  function FirstTried(tx: TxState, cfg: Config, data: seq<Byte>): TxState
    requires 0 < |data| <= MAX_BUFFER && Framable(|data|, cfg.candl)
  {
    var first := FirstLength(|data|, cfg.candl);
    var used := |DataHeader(|data|, cfg.candl).bytes| + first;
    tx.(size := |data|,
        passed := first,
        message := Padded(FirstFilled(tx.message, data, cfg.candl), used, cfg),
        state := Idle)
  }

  /** The sender once a first frame is out. */
  function Awaiting(t: TxState, data: seq<Byte>, now: Word): TxState {
    t.(nBs := t.nBs.Restarted(now), state := Wait, sn := 0, txbuff := Overlay(t.txbuff, 0, data))
  }

  /** Send: the payload is framed and its first frame tried at once; a transfer in progress is
      dropped without notice. */
  function SendStep(tx: TxState, io: Io, cfg: Config, data: seq<Byte>, now: Word): (r: TxOut)
    requires TxOk(tx, cfg) && Workable(|data|, |tx.txbuff|, cfg.candl)
    ensures TxOk(r.tx, cfg)
  {
    if CheckTxValid(|data|, |tx.txbuff|) != Ok || cfg.candl == 0 then TxOut(tx, io)
    else
      var t := FirstTried(tx, cfg, data);
      var io1 := io.Attempted(FrameOf(t.message, cfg));
      if !io.Accepts() then TxOut(t, io1)
      else if DataHeader(|data|, cfg.candl).kind == FirstFrame then TxOut(Awaiting(t, data, now), io1)
      else TxOut(t, io1.Logged(TxEvent(OkS)))
  }

  // ---- ProcessTx ----

  /** How many payload bytes the next consecutive frame carries. */
  function ChunkLength(tx: TxState, cfg: Config): nat
    requires tx.passed < tx.size && cfg.candl >= 2
  {
    if tx.passed + (cfg.candl - 1) < tx.size then cfg.candl - 1 else tx.size - tx.passed
  }

  /** The frame buffer with the next consecutive frame's header and, unless the previous
      attempt was refused, its payload part. */
  function Filled(tx: TxState, cfg: Config): Message
    requires tx.passed < tx.size <= |tx.txbuff| && cfg.candl >= 2
  {
    var headed := Overlay(tx.message, 0, [ConsecutiveHeader(Inc8(tx.sn))]);
    if tx.passed == 0 || tx.prevDataSent
    then Overlay(headed, 1, tx.txbuff[tx.passed..tx.passed + ChunkLength(tx, cfg)])
    else headed
  }

  /** The sender just before a consecutive frame is handed to the bus. */
  function Prepared(tx: TxState, cfg: Config, now: Word): (t: TxState)
    requires tx.passed < tx.size <= |tx.txbuff| && cfg.candl >= 2
    ensures t == tx.(sn := t.sn, message := t.message, nAs := t.nAs)
  {
    tx.(sn := Inc8(tx.sn),
        message := Padded(Filled(tx, cfg), ChunkLength(tx, cfg) + 1, cfg),
        nAs := if tx.nAs.active then tx.nAs else tx.nAs.Restarted(now))
  }

  /** The sender once the bus has taken a frame with `n` payload bytes; it stays in MfDt when
      the next frame may follow at once. */
  function Advanced(t: TxState, n: nat, io: Io): TxOut {
    var t1 := t.(nAs := t.nAs.Stopped(), prevDataSent := true, passed := t.passed + n);
    if t1.passed >= t1.size then TxOut(t1.(state := Idle), io.Logged(TxEvent(OkS)))
    else
      var t2 := t1.(currblknum := Inc8(t1.currblknum));
      if t2.currblknum >= t2.segblkcount then TxOut(t2.(state := Wait), io)
      else if t2.stmin != 0 then TxOut(t2.(state := Pause), io)
      else TxOut(t2, io)
  }

  /** The loop of the state MfDt: consecutive frames until the payload or the block ends, a
      pause is due or the bus refuses. */
  function Burst(tx: TxState, io: Io, cfg: Config, now: Word): (r: TxOut)
    requires tx.state == MfDt && TxOk(tx, cfg)
    ensures TxOk(r.tx, cfg)
    decreases tx.size - tx.passed
  {
    var t := Prepared(tx, cfg, now);
    var io1 := io.Attempted(FrameOf(t.message, cfg));
    if !io.Accepts() then TxOut(t.(prevDataSent := false), io1)
    else
      var a := Advanced(t, ChunkLength(tx, cfg), io1);
      if a.tx.state == MfDt then Burst(a.tx, a.io, cfg, now) else a
  }

  /** A poll of a running timer that ends the transfer when it has elapsed. */
  function Ended(tx: TxState, io: Io, due: bool, result: NResult): TxOut {
    if due then TxOut(tx.(state := Idle), io.Logged(TxEvent(result))) else TxOut(tx, io)
  }

  function ProcessStep(tx: TxState, io: Io, cfg: Config, now: Word): (r: TxOut)
    requires TxOk(tx, cfg)
    ensures TxOk(r.tx, cfg)
  {
    match tx.state
    case Wait => Ended(tx.(nBs := tx.nBs.Polled(now)), io, tx.nBs.Due(now), TimeoutBs)
    case MfDt =>
      var b := Burst(tx, io, cfg, now);
      Ended(b.tx.(nAs := b.tx.nAs.Polled(now)), b.io, b.tx.nAs.Due(now), TimeoutAs)
    case Pause =>
      TxOut(tx.(stMin := tx.stMin.Polled(now), state := if tx.stMin.Due(now) then MfDt else Pause), io)
    case _ => TxOut(tx, io)
  }

  // ---- OnFlowControl ----

  /** The pause between consecutive frames that an STmin byte asks for, in ticks. */
  function DecodeStMin(stm: Byte): Byte {
    if stm < 0x80 then stm
    else if 0xf0 < stm < 0xfa then 1
    else 0x7f
  }

  function FlowStep(tx: TxState, io: Io, cfg: Config, status: Byte, blks: Byte, stm: Byte, now: Word): (r: TxOut)
    requires TxOk(tx, cfg)
    ensures TxOk(r.tx, cfg)
  {
    if tx.state != Wait then TxOut(tx.(state := Idle), io.Logged(TxEvent(UnexpPdu)))
    else if status == FlowByte(FlowCts) then
      var st := DecodeStMin(stm);
      TxOut(tx.(nBs := tx.nBs.Stopped(),
                currblknum := 0,
                segblkcount := blks,
                stmin := st,
                state := if st != 0 then Pause else MfDt,
                stMin := tx.stMin.StartedRepeat(st, true, now)),
            io)
    else if status == FlowByte(FlowWait) then TxOut(tx.(nBs := tx.nBs.Restarted(now)), io)
    else if status == FlowByte(FlowOverflow) then TxOut(tx.(state := Idle), io.Logged(TxEvent(BufferOvflw)))
    else TxOut(tx.(state := Idle), io.Logged(TxEvent(InvalidFs)))
  }

  /** SetParameter's effect on the sender: only the As and Bs periods are its own. */
  function TxParameter(tx: TxState, name: ParName, v: Word, now: Word): TxState {
    match name
    case AsTimMs => tx.(nAs := tx.nAs.Started(v, now).Stopped())
    case BsTimMs => tx.(nBs := tx.nBs.Started(v, now).Stopped())
    case _ => tx
  }

  // ---- The sender in place ----

  class DoCANSender {
    const txbuff: array<Byte>
    const canMessage: array<Byte>
    const itp: Port
    const ticker: TickerCounter
    const nAsTim: Timer
    const nBsTim: Timer
    const stMinTim: Timer
    var state: DtState
    var passed: nat
    var size: nat
    var sn: Byte
    var currblknum: Byte
    var segblkcount: Byte
    var stmin: Byte
    var prevDataSent: bool

    ghost function Repr(): set<object> {
      {this, txbuff, canMessage, nAsTim, nBsTim, stMinTim}
    }

    ghost predicate Shape() {
      && txbuff.Length <= MAX_BUFFER && canMessage.Length == MAX_CANDL && txbuff != canMessage
      && nAsTim != nBsTim && nAsTim != stMinTim && nBsTim != stMinTim
      && nAsTim.ticker == nBsTim.ticker == stMinTim.ticker == ticker
    }

    ghost function View(): TxState
      requires Shape()
      reads Repr()
    {
      TxState(state, passed, size, sn, currblknum, segblkcount, stmin, txbuff[..], canMessage[..], prevDataSent,
              nAsTim.View(), nBsTim.View(), stMinTim.View())
    }

    ghost predicate Valid()
      reads Repr(), itp
    {
      Shape() && TxOk(View(), itp.config)
    }

    constructor (mem: array<Byte>, itp: Port, ticker: TickerCounter)
      requires mem.Length <= MAX_BUFFER
      ensures this.itp == itp && this.ticker == ticker && txbuff == mem
      ensures fresh(Repr() - {mem})
      ensures Valid() && View() == NewTx(mem[..])
    {
      txbuff := mem;
      canMessage := new Byte[MAX_CANDL](_ => 0);
      this.itp, this.ticker := itp, ticker;
      nAsTim := new Timer(ticker, 1000, false, false);
      nBsTim := new Timer(ticker, 1000, false, false);
      stMinTim := new Timer(ticker, 0, false, false);
      state, passed, size, sn := Idle, 0, 0, 0;
      currblknum, segblkcount, stmin, prevDataSent := 0, 25, 0, true;
      new;
      assert canMessage[..] == Fill(0, MAX_CANDL);
    }

    method Send(data: seq<Byte>) returns (ret: IsoTpResult)
      requires Valid() && itp !in Repr() && Workable(|data|, txbuff.Length, itp.config.candl)
      modifies Repr(), itp
      ensures Valid() && itp.config == old(itp.config)
      ensures ret == CheckTxValid(|data|, txbuff.Length)
      ensures TxOut(View(), itp.View()) == SendStep(old(View()), old(itp.View()), itp.config, data, ticker.rootTick)
    {
      ret := CheckTxValid(|data|, txbuff.Length);
      var candl := itp.config.candl;
      if ret == Ok && candl > 0 {
        var pci, taken := TryFirstFrame(data);
        if taken != 0 {
          if pci == FirstFrame {
            AwaitFlowControl(data);
          } else if pci == SingleFrame {
            itp.OnIsoTxEvent(Conf, OkS);
          }
        }
      }
    }

    /** Send up to the transmission attempt. */
    method TryFirstFrame(data: seq<Byte>) returns (pci: FrameKind, taken: nat)
      requires Valid() && itp !in Repr() && 0 < |data| <= txbuff.Length && Framable(|data|, itp.config.candl)
      modifies Repr(), itp
      ensures Shape() && itp.config == old(itp.config)
      ensures pci == DataHeader(|data|, itp.config.candl).kind
      ensures View() == FirstTried(old(View()), itp.config, data)
      ensures taken == if old(itp.View()).Accepts() then itp.config.candl else 0
      ensures itp.View() == old(itp.View()).Attempted(FrameOf(View().message, itp.config))
    {
      var pciLen;
      pciLen, pci := FillFirstFrame(data, itp.config.candl);
      if state != Idle {
        state := Idle;
      }
      taken := itp.PduToCan(canMessage, pciLen + passed);
    }

    /** The first frame is out: the flow control is waited for and the payload kept. */
    method AwaitFlowControl(data: seq<Byte>)
      requires Shape() && |data| <= txbuff.Length
      modifies this`state, this`sn, nBsTim, txbuff
      ensures View() == Awaiting(old(View()), data, ticker.rootTick)
    {
      nBsTim.Restart();
      state := Wait;
      sn := 0;
      Copy(txbuff, 0, data);
    }

    /** Writes header and payload part of a message's first frame. */
    method FillFirstFrame(data: seq<Byte>, candl: nat) returns (pciLen: nat, pci: FrameKind)
      requires Shape() && 0 < |data| <= txbuff.Length && Framable(|data|, candl) && candl <= MAX_CANDL
      modifies this`size, this`passed, canMessage
      ensures size == |data| && passed == FirstLength(|data|, candl) <= |data|
      ensures pciLen == |DataHeader(|data|, candl).bytes| && pci == DataHeader(|data|, candl).kind
      ensures canMessage[..] == FirstFilled(old(canMessage[..]), data, candl)
    {
      pciLen, pci := PackPciForData(canMessage, |data|, candl);
      size := |data|;
      passed := if pciLen + |data| > candl then candl - pciLen else |data|;
      Copy(canMessage, pciLen, data[..passed]);
    }

    method ProcessTx()
      requires Valid() && itp !in Repr()
      modifies Repr(), itp
      ensures Valid() && itp.config == old(itp.config)
      ensures TxOut(View(), itp.View()) == ProcessStep(old(View()), old(itp.View()), itp.config, ticker.rootTick)
    {
      match state
      case Wait =>
        var due := nBsTim.Elapsed();
        if due {
          state := Idle;
          itp.OnIsoTxEvent(Conf, TimeoutBs);
        }
      case MfDt =>
        SendConsecutiveFrames();
        var due := nAsTim.Elapsed();
        if due {
          state := Idle;
          itp.OnIsoTxEvent(Conf, TimeoutAs);
        }
      case Pause =>
        var due := stMinTim.Elapsed();
        if due {
          state := MfDt;
        }
      case _ =>
    }

    /** The loop of ProcessTx in the state MfDt. */
    method SendConsecutiveFrames()
      requires Valid() && itp !in Repr() && state == MfDt
      modifies Repr(), itp
      ensures Valid() && itp.config == old(itp.config)
      ensures TxOut(View(), itp.View()) == Burst(old(View()), old(itp.View()), itp.config, ticker.rootTick)
    {
      ghost var cfg, goal := itp.config, Burst(View(), itp.View(), itp.config, ticker.rootTick);
      while true
        invariant Valid() && state == MfDt && itp.config == cfg
        invariant Burst(View(), itp.View(), cfg, ticker.rootTick) == goal
        decreases size - passed
      {
        var cpylen, taken := TryConsecutiveFrame();
        if taken != 0 {
          FrameTaken(cpylen);
          if state != MfDt {
            break;
          }
        } else {
          prevDataSent := false;
          break;
        }
      }
    }

    /** What the loop does once the bus has taken a frame; it goes on if the state is still MfDt. */
    method FrameTaken(cpylen: nat)
      requires Shape() && itp !in Repr()
      modifies this, nAsTim, itp
      ensures itp.config == old(itp.config)
      ensures TxOut(View(), itp.View()) == Advanced(old(View()), cpylen, old(itp.View()))
    {
      nAsTim.Stop();
      prevDataSent := true;
      passed := passed + cpylen;
      if passed >= size {
        state := Idle;
        itp.OnIsoTxEvent(Conf, OkS);
        return;
      } else {
        currblknum := Inc8(currblknum);
        if currblknum >= segblkcount {
          state := Wait;
          return;
        }
      }
      if stmin != 0 {
        state := Pause;
        nAsTim.Stop();
      }
    }

    /** One turn of that loop up to the transmission attempt. */
    method TryConsecutiveFrame() returns (cpylen: nat, taken: nat)
      requires Valid() && itp !in Repr() && state == MfDt
      modifies Repr(), itp
      ensures Shape() && itp.config == old(itp.config)
      ensures cpylen == ChunkLength(old(View()), itp.config)
      ensures View() == Prepared(old(View()), itp.config, ticker.rootTick)
      ensures taken == if old(itp.View()).Accepts() then itp.config.candl else 0
      ensures itp.View() == old(itp.View()).Attempted(FrameOf(View().message, itp.config))
    {
      var pciLen;
      pciLen, cpylen := FillConsecutiveFrame();
      if !nAsTim.isActive {
        nAsTim.Restart();
      }
      taken := itp.PduToCan(canMessage, cpylen + pciLen);
    }

    /** Writes header and payload part of the next consecutive frame. */
    method FillConsecutiveFrame() returns (pciLen: nat, cpylen: nat)
      requires Valid() && itp !in Repr() && state == MfDt
      modifies this`sn, canMessage
      ensures Shape() && pciLen == 1
      ensures cpylen == ChunkLength(old(View()), itp.config)
      ensures sn == Inc8(old(sn))
      ensures canMessage[..] == Filled(old(View()), itp.config)
    {
      sn := Inc8(sn);
      pciLen := PackConseqFrame(canMessage, sn);
      var candlen := itp.config.candl - pciLen;
      cpylen := if passed + candlen < size then candlen else size - passed;
      if passed == 0 || prevDataSent {
        Copy(canMessage, pciLen, txbuff[passed..passed + cpylen]);
      }
    }

    method OnFlowControl(flowStatus: Byte, blks: Byte, stm: Byte)
      requires Valid() && itp !in Repr()
      modifies Repr(), itp
      ensures Valid() && itp.config == old(itp.config)
      ensures TxOut(View(), itp.View()) ==
              FlowStep(old(View()), old(itp.View()), itp.config, flowStatus, blks, stm, ticker.rootTick)
    {
      if state != Wait {
        state := Idle;
        itp.OnIsoTxEvent(Conf, UnexpPdu);
        return;
      }
      match flowStatus
      case 0 =>
        nBsTim.Stop();
        currblknum := 0;
        segblkcount := blks;
        if stm < 0x80 {
          stmin := stm;
        } else if 0xf0 < stm < 0xfa {
          stmin := 1;
        } else {
          stmin := 0x7f;
        }
        if stmin != 0 {
          state := Pause;
        } else {
          state := MfDt;
        }
        stMinTim.StartRepeat(stmin, true);
      case 1 =>
        nBsTim.Restart();
      case 2 =>
        state := Idle;
        itp.OnIsoTxEvent(Conf, BufferOvflw);
      case _ =>
        state := Idle;
        itp.OnIsoTxEvent(Conf, InvalidFs);
    }

    method SetParameter(name: ParName, v: Word) returns (ret: SetParamResult)
      requires Valid()
      modifies Repr()
      ensures Valid()
      ensures ret == if name.AsTimMs? || name.BsTimMs? then ParamOk else WrongParameter
      ensures View() == TxParameter(old(View()), name, v, ticker.rootTick)
    {
      ret := ParamOk;
      match name
      case AsTimMs =>
        nAsTim.Start(v);
        nAsTim.Stop();
      case BsTimMs =>
        nBsTim.Start(v);
        nBsTim.Stop();
      case _ =>
        ret := WrongParameter;
    }
  }
}
