/** One DoCAN node (src/uds/isotp/docan-tp.{h,cpp}): it routes received frames to its sender
    and its receiver, polls both and guards the configuration while a transfer is on. */
module Transport {
  import opened IsoTpTypes
  import opened Timers
  import opened Pci
  import opened TpPort
  import opened Sender
  import opened Receiver

  datatype Node = Node(tx: TxState, rx: RxState, io: Io, cfg: Config) {
    predicate IsBusy() {
      tx.IsBusy() || rx.IsBusy()
    }
  }

  predicate NodeOk(n: Node) {
    TxOk(n.tx, n.cfg) && RxOk(n.rx)
  }

  function NodeProcess(n: Node, now: Word): (r: Node)
    requires TxOk(n.tx, n.cfg)
    ensures TxOk(r.tx, r.cfg) && r.cfg == n.cfg
  {
    var t := ProcessStep(n.tx, n.io, n.cfg, now);
    var r := ProcessRxStep(n.rx, t.io, now);
    Node(t.tx, r.rx, r.io, n.cfg)
  }

  function NodeRequest(n: Node, data: seq<Byte>, now: Word): (r: Node)
    requires TxOk(n.tx, n.cfg) && Workable(|data|, |n.tx.txbuff|, n.cfg.candl)
    ensures TxOk(r.tx, r.cfg) && r.cfg == n.cfg
  {
    var t := SendStep(n.tx, n.io, n.cfg, data, now);
    n.(tx := t.tx, io := t.io)
  }

  /** Frame types by the upper half of the first byte. */
  predicate IsFlowFrame(data: seq<Byte>) {
    |data| > 0 && data[0] / 16 == 3
  }

  predicate IsSingleFrame(data: seq<Byte>) {
    |data| > 0 && data[0] / 16 == 0
  }

  /** What a functionally addressed single frame shows the client. Bytes the length byte
      promises beyond the end of the frame are not part of the model. */
  function FunctionalEvent(data: seq<Byte>): IsoEvent
    requires |data| >= 2
  {
    var off := if data[0] % 16 == 0 then 2 else 1;
    var length := if data[0] % 16 == 0 then data[1] else data[0] % 16;
    IsoEvent(Data, OkR, data[off..off + Min(length, |data| - off)], length, Functional)
  }

  /** A frame long enough for what ReadFrame looks at without checking the length. */
  predicate Readable(frame: CanFrame, cfg: Config) {
    && |frame.data| >= 1
    && (IsFlowFrame(frame.data) ==> |frame.data| >= 3)
    && (frame.id == cfg.funcId && IsSingleFrame(frame.data) ==> |frame.data| >= 2)
  }

  function NodeRead(n: Node, frame: CanFrame, now: Word): (r: Node)
    requires TxOk(n.tx, n.cfg)
    ensures TxOk(r.tx, r.cfg) && r.cfg == n.cfg
  {
    var data := frame.data;
    if !Readable(frame, n.cfg) then n
    else if frame.id == n.cfg.funcId && IsSingleFrame(data) then n.(io := n.io.Logged(FunctionalEvent(data)))
    else if frame.id != n.cfg.physId then n
    else if IsFlowFrame(data) then
      var t := FlowStep(n.tx, n.io, n.cfg, data[0] % 16, data[1], data[2], now);
      n.(tx := t.tx, io := t.io)
    else
      var r := ReceiveStep(n.rx, n.io, n.cfg, data, now);
      n.(rx := r.rx, io := r.io)
  }

  function NodeParameter(n: Node, name: ParName, v: Word, now: Word): Node {
    if n.IsBusy() then n
    else match name
      case BlkSz | StMin | BrTimMs | CrTimMs => n.(rx := RxParameter(n.rx, name, v, now))
      case AsTimMs | BsTimMs => n.(tx := TxParameter(n.tx, name, v, now))
      case CanDl => n.(cfg := n.cfg.(candl := Min(v, MAX_CANDL)))
      case PaddByte => n.(cfg := n.cfg.(padding := v % 256))
      case PhysAddr => n.(cfg := n.cfg.(physId := v))
      case FuncAddr => n.(cfg := n.cfg.(funcId := v))
      case RespAddr => n.(cfg := n.cfg.(respId := v))
  }

  function ParameterResult(n: Node, name: ParName): SetParamResult {
    if n.IsBusy() then RxOn else if name.BrTimMs? then WrongParameter else ParamOk
  }

  // ---- The configuration during a transfer ----

  datatype NodeAction =
    DoProcess | DoRead(frame: CanFrame) | DoRequest(data: seq<Byte>) | DoParameter(name: ParName, v: Word)

  /** A frame that ReadFrame hands to the receiver. */
  predicate ForReceiver(frame: CanFrame, cfg: Config) {
    && frame.id == cfg.physId && !IsFlowFrame(frame.data)
    && !(frame.id == cfg.funcId && IsSingleFrame(frame.data))
  }

  /** What callers owe a node: a configured frame length for requests, frames its receiver can take. */
  predicate Allowed(n: Node, x: NodeAction) {
    && (x.DoRequest? ==> Workable(|x.data|, |n.tx.txbuff|, n.cfg.candl))
    && (x.DoRead? && ForReceiver(x.frame, n.cfg) ==> FrameOk(x.frame.data))
  }

  function NodeNext(n: Node, x: NodeAction, now: Word): Node
    requires NodeOk(n) && Allowed(n, x)
  {
    match x
    case DoProcess => NodeProcess(n, now)
    case DoRead(frame) => NodeRead(n, frame, now)
    case DoRequest(data) => NodeRequest(n, data, now)
    case DoParameter(name, v) => NodeParameter(n, name, v, now)
  }

  /** Whatever is done to a node, parameter changes included: a transfer keeps the frame length
      it began with, so part of its payload is always left to be sent, and every frame carries
      data; a reception fits the receive buffer, and so does what any consecutive frame adds. */
  lemma NodeInvariant(n: Node, x: NodeAction, now: Word)
    requires NodeOk(n) && Allowed(n, x)
    ensures NodeOk(NodeNext(n, x, now))
    ensures var rx := NodeNext(n, x, now).rx;
            rx.IsBusy() ==> forall offered: nat :: rx.passed + WantedLength(rx, offered) <= |rx.rxbuff|
    ensures n.IsBusy() ==> NodeNext(n, x, now).cfg == n.cfg
    ensures NodeNext(n, x, now).cfg != n.cfg ==> x.DoParameter? && !NodeNext(n, x, now).IsBusy()
  {
    if x.DoRead? && ForReceiver(x.frame, n.cfg) {
      ReceiveKeepsRxOk(n.rx, n.io, n.cfg, x.frame.data, now);
    }
  }

  /** A functionally addressed single frame goes past both halves: the client alone is told, and
      for a classic frame that announces a length it is shown the bytes the codec finds in it. */
  lemma FunctionalFrameBypasses(n: Node, frame: CanFrame, now: Word)
    requires TxOk(n.tx, n.cfg) && Readable(frame, n.cfg) && frame.id == n.cfg.funcId && IsSingleFrame(frame.data)
    ensures var r := NodeRead(n, frame, now);
            var m := Unpack(frame.data);
            && r == n.(io := n.io.(log := r.io.log)) && |r.io.log| == |n.io.log| + 1 && n.io.log <= r.io.log
            && var e := r.io.log[|n.io.log|];
               && e.event.Data? && e.result.OkR? && e.address.Functional?
               && (m.kind.SF? && m.kind.dlen > 0 && |frame.data| <= CLASSICCAN_DL_MAX ==>
                     e.length == m.kind.dlen && e.payload == frame.data[m.pcilen..m.pcilen + m.kind.dlen])
  {
    HeaderInsideFrame(frame.data);
  }

  /** A node tells its client of a message without bytes exactly for a single frame that announces
      none: to the physical address as the codec reads it, to the functional one when both its
      length fields are 0. The response layer asserts that it never sees such a message. */
  lemma NodeEmptyDeliveryIff(n: Node, frame: CanFrame, now: Word)
    requires NodeOk(n) && Readable(frame, n.cfg) && (ForReceiver(frame, n.cfg) ==> FrameOk(frame.data))
    ensures var r := NodeRead(n, frame, now);
            var data := frame.data;
            && n.io.log <= r.io.log
            && ((exists i :: |n.io.log| <= i < |r.io.log| && EmptyMessage(r.io.log[i])) <==>
                if frame.id == n.cfg.funcId && IsSingleFrame(data) then data[0] % 16 == 0 && data[1] == 0
                else frame.id == n.cfg.physId && Unpack(data).kind == SF(0))
  {
    var data := frame.data;
    if frame.id == n.cfg.funcId && IsSingleFrame(data) {
      assert NodeRead(n, frame, now).io.log[|n.io.log|] == FunctionalEvent(data);
    } else if frame.id == n.cfg.physId && !IsFlowFrame(data) {
      EmptyDeliveryIff(n.rx, n.io, n.cfg, data, now);
    }
  }

  class DoCANTP {
    const port: Port
    const isoSender: DoCANSender
    const isoReceiver: DoCANReceiver
    const ticker: TickerCounter

    ghost function Repr(): set<object> {
      isoSender.Repr() + isoReceiver.Repr()
    }

    ghost predicate Shape() {
      && isoSender.itp == port && isoReceiver.itp == port
      && isoSender.ticker == ticker && isoReceiver.ticker == ticker
      && isoSender.Repr() !! isoReceiver.Repr() && port !in Repr()
      && isoSender.Shape() && isoReceiver.Shape()
    }

    ghost function View(): Node
      requires Shape()
      reads Repr(), port
    {
      Node(isoSender.View(), isoReceiver.View(), port.View(), port.config)
    }

    ghost predicate Valid()
      reads Repr(), port
    {
      Shape() && NodeOk(View())
    }

    constructor (memrx: array<Byte>, memtx: array<Byte>, accept: nat -> bool, ticker: TickerCounter)
      requires memrx != memtx && memrx.Length <= MAX_BUFFER && memtx.Length <= MAX_BUFFER
      ensures this.ticker == ticker && isoSender.txbuff == memtx && isoReceiver.rxbuff == memrx
      ensures fresh(Repr() - {memrx, memtx}) && fresh(port)
      ensures Valid()
      ensures View() == Node(NewTx(memtx[..]), NewRx(memrx[..], isoReceiver.canMessage[..]),
                             Io(accept, [], 0, []), Config(0, 0, 0, 0, 0))
    {
      this.ticker := ticker;
      var p := new Port(accept);
      port := p;
      isoSender := new DoCANSender(memtx, p, ticker);
      isoReceiver := new DoCANReceiver(memrx, p, ticker);
    }

    method Process()
      requires Valid()
      modifies Repr(), port
      ensures Valid() && View() == NodeProcess(old(View()), ticker.rootTick)
    {
      isoSender.ProcessTx();
      isoReceiver.ProcessRx();
    }

    method ReadFrame(data: seq<Byte>, msgid: Word)
      requires Valid() && Readable(CanFrame(msgid, data), port.config)
      requires ForReceiver(CanFrame(msgid, data), port.config) ==> FrameOk(data) && CopyFits(View().rx, data)
      modifies Repr(), port
      ensures Valid() && View() == NodeRead(old(View()), CanFrame(msgid, data), ticker.rootTick)
    {
      var isPhys := msgid == port.config.physId;
      var isFunc := msgid == port.config.funcId;
      if isFunc && data[0] / 16 == 0 {
        port.log := port.log + [FunctionalEvent(data)];
      } else if isPhys {
        if data[0] / 16 == 3 {
          isoSender.OnFlowControl(data[0] % 16, data[1], data[2]);
        } else {
          isoReceiver.Receive(data);
        }
      }
    }

    method Request(data: seq<Byte>) returns (ret: IsoTpResult)
      requires Valid() && Workable(|data|, isoSender.txbuff.Length, port.config.candl)
      modifies Repr(), port
      ensures ret == CheckTxValid(|data|, isoSender.txbuff.Length)
      ensures Valid() && View() == NodeRequest(old(View()), data, ticker.rootTick)
    {
      ret := isoSender.Send(data);
    }

    method SetParameter(name: ParName, v: Word) returns (ret: SetParamResult)
      requires Valid()
      modifies Repr(), port
      ensures ret == ParameterResult(old(View()), name)
      ensures Valid() && View() == NodeParameter(old(View()), name, v, ticker.rootTick)
    {
      ret := ParamOk;
      if isoSender.state != Idle || isoReceiver.state != RxIdle {
        return RxOn;
      }
      match name
      case BlkSz | StMin | BrTimMs | CrTimMs =>
        ret := isoReceiver.SetParameter(name, v);
      case AsTimMs | BsTimMs =>
        ret := isoSender.SetParameter(name, v);
      case CanDl =>
        port.config := port.config.(candl := if v <= MAX_CANDL then v else MAX_CANDL);
      case PaddByte =>
        port.config := port.config.(padding := v % 256);
      case PhysAddr =>
        port.config := port.config.(physId := v);
      case FuncAddr =>
        port.config := port.config.(funcId := v);
      case RespAddr =>
        port.config := port.config.(respId := v);
    }
  }
}
