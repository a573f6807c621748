/** The response layer (src/uds/session/uds-app-manager.{h,cpp}): which requests are answered,
    by whom, and which answers are withheld. */
module Manager {
  import opened IsoTpTypes
  import opened Timers
  import opened Session

  /** Negative response codes are bytes; 0 stands for a positive response. */
  const PR: Byte := 0x00
  const SNS: Byte := 0x11
  const SFNS: Byte := 0x12
  const IMLOIF: Byte := 0x13
  const ROOR: Byte := 0x31
  const SFNSIAS: Byte := 0x7e
  const SNSIAS: Byte := 0x7f

  const TP: Byte := 0x3e
  const DSC_LEV_DEFT: Byte := 1

  // ---- Service identifiers (src/uds/inc/diag/sidnames.h) ----

  predicate IsResponse(sid: Byte) {
    sid / 64 % 2 == 1
  }

  function ToResponse(sid: Byte): Byte {
    if IsResponse(sid) then sid else sid + 64
  }

  function RemoveResponse(sid: Byte): Byte {
    if IsResponse(sid) then sid - 64 else sid
  }

  function SubFunction(b: Byte): Byte {
    b % 128
  }

  predicate SuppressBit(b: Byte) {
    b >= 128
  }

  predicate IsSidProcessable(sid: Byte) {
    var r := RemoveResponse(sid);
    0x01 <= r <= 0x3e || 0xba <= r <= 0xbe || 0x83 <= r <= 0x88 || sid == NR_SI
  }

  // ---- The client ----

  /** A request as the client sees it. `data` is the memory the data pointer shows, of which
      `size` bytes belong to the request. */
  datatype Indication = Indication(data: seq<Byte>, size: nat, address: TargetAddress,
                                   si: Byte, sf: Byte, suppress: bool)

  datatype Support = Unsupported | Supported(minLength: nat, subFunc: bool)

  datatype ProcessResult = NotHandled | HandledRespOk | HandledRespNo | HandledPending

  /** What a client can do to the manager: fill the response buffer, answer, refuse, ask for the
      pending mode, change the session value it owns, and announce it. */
  datatype ClientCall =
    | Load(at: nat, bytes: seq<Byte>, length: nat)
    | Answer(data: seq<Byte>)
    | Refuse(nrc: Byte)
    | RefuseFor(sid: Byte, code: Byte)
    | Pend(duration: Word, interval: Word)
    | SetLevel(level: Byte)
    | ServiceSession(value: Byte)

  datatype Reaction = Reaction(calls: seq<ClientCall>, result: ProcessResult)

  /** IsServiceSupported and OnAppIndication. */
  datatype Client = Client(supports: Byte -> Support, handle: Indication -> Reaction)

  // ---- The manager as a value ----

  datatype Mgr = Mgr(
    sess: Sess,
    req: Indication,
    nrcOut: Byte,
    nrcPending: bool,
    pubBuff: seq<Byte>,
    pubLen: nat,
    active: bool,
    currSession: Byte)

  predicate MgrOk(m: Mgr) {
    SessOk(m.sess) && |m.pubBuff| >= 3 && m.pubLen <= |m.pubBuff|
  }

  predicate Suppressible(nrc: Byte) {
    nrc == SNSIAS || nrc == SNS || nrc == SFNS || nrc == SFNSIAS || nrc == ROOR
  }

  predicate ResponseAllowed(m: Mgr) {
    !(m.req.address == Func && !m.nrcPending && Suppressible(m.nrcOut)) && !(m.nrcOut == PR && m.req.suppress)
  }

  /** The current session mode, as SetSessionMode is told after every response. */
  function Settled(m: Mgr, now: Word): Mgr {
    m.(sess := ModeStep(m.sess, m.currSession == DSC_LEV_DEFT, now))
  }

  function ResponseStep(m: Mgr, data: seq<Byte>, now: Word): (r: Mgr)
    ensures MgrOk(m) ==> MgrOk(r)
    ensures r.pubBuff == m.pubBuff && r.req.si == m.req.si
  {
    if data == [] then m
    else
      var a := if m.nrcOut == RCRRP then m.(req := m.req.(suppress := false)) else m;
      var b := if ResponseAllowed(m) then a.(sess := RequestStep(a.sess, data, false, now)) else a;
      Settled(b.(nrcPending := false), now)
  }

  function Negative(sid: Byte, nrc: Byte): seq<Byte> {
    [NR_SI, sid, nrc]
  }

  function NegResponseStep(m: Mgr, sid: Byte, nrc: Byte, now: Word): (r: Mgr)
    requires MgrOk(m)
    ensures MgrOk(r) && |r.pubBuff| == |m.pubBuff|
  {
    ResponseStep(m.(pubBuff := Overlay(m.pubBuff, 0, Negative(sid, nrc)), nrcOut := nrc), Negative(sid, nrc), now)
  }

  function StartPendingStep(m: Mgr, duration: Word, interval: Word, now: Word): (r: Mgr)
    requires MgrOk(m)
    ensures MgrOk(r) && |r.pubBuff| == |m.pubBuff|
  {
    m.(nrcPending := true, sess := PendingStep(m.sess, duration, interval, m.req.si, now))
  }

  function ServiceSessionStep(m: Mgr, value: Byte, now: Word): (r: Mgr)
    requires MgrOk(m)
    ensures MgrOk(r) && |r.pubBuff| == |m.pubBuff|
  {
    m.(sess := ModeStep(m.sess, value == DSC_LEV_DEFT, now).Logged(SessionChange(value == DSC_LEV_DEFT)))
  }

  /** What a client owes the manager: it stays inside the response buffer. */
  predicate CallOk(c: ClientCall, capacity: nat) {
    c.Load? ==> c.at + |c.bytes| <= capacity && c.length <= capacity
  }

  predicate CallsOk(calls: seq<ClientCall>, capacity: nat) {
    forall i :: 0 <= i < |calls| ==> CallOk(calls[i], capacity)
  }

  function CallStep(m: Mgr, c: ClientCall, now: Word): (r: Mgr)
    requires MgrOk(m) && CallOk(c, |m.pubBuff|)
    ensures MgrOk(r) && |r.pubBuff| == |m.pubBuff|
  {
    match c
    case Load(at, bytes, length) => m.(pubBuff := Overlay(m.pubBuff, at, bytes), pubLen := length)
    case Answer(data) => ResponseStep(m, data, now)
    case Refuse(nrc) => NegResponseStep(m, m.req.si, nrc, now)
    case RefuseFor(sid, nrc) => NegResponseStep(m, sid, nrc, now)
    case Pend(duration, interval) => StartPendingStep(m, duration, interval, now)
    case SetLevel(level) => m.(currSession := level)
    case ServiceSession(value) => ServiceSessionStep(m, value, now)
  }

  function CallsStep(m: Mgr, calls: seq<ClientCall>, now: Word): (r: Mgr)
    requires MgrOk(m) && CallsOk(calls, |m.pubBuff|)
    ensures MgrOk(r) && |r.pubBuff| == |m.pubBuff|
    decreases |calls|
  {
    if calls == [] then m else CallsStep(CallStep(m, calls[0], now), calls[1..], now)
  }

  /** The response buffer goes out. */
  function Published(m: Mgr, now: Word): (r: Mgr)
    requires MgrOk(m)
    ensures MgrOk(r) && |r.pubBuff| == |m.pubBuff|
  {
    ResponseStep(m, m.pubBuff[..m.pubLen], now)
  }

  // ---- OnSessIndication ----

  /** The manager with a new request in hand and the usual response prepared. */
  function Begun(m: Mgr, data: seq<Byte>, length: nat, address: TargetAddress): (r: Mgr)
    requires MgrOk(m) && |data| >= 2
    ensures MgrOk(r) && |r.pubBuff| == |m.pubBuff|
  {
    m.(req := Indication(data, length, address, data[0], SubFunction(data[1]), SuppressBit(data[1])),
       nrcOut := PR,
       pubBuff := Overlay(m.pubBuff, 0, [ToResponse(data[0]), data[1]]),
       pubLen := 0)
  }

  function TesterPresentStep(m: Mgr, now: Word): (r: Mgr)
    requires MgrOk(m)
    ensures MgrOk(r) && |r.pubBuff| == |m.pubBuff|
  {
    if m.req.sf != 0 then NegResponseStep(m, m.req.si, SFNS, now)
    else if m.req.size != 2 then NegResponseStep(m, m.req.si, IMLOIF, now)
    else m.(pubLen := 2)
  }

  predicate SidAccepted(m: Mgr, client: Client) {
    var s := client.supports(m.req.si);
    s.Supported? && m.req.size >= s.minLength
  }

  function SidCheckStep(m: Mgr, client: Client, now: Word): (r: Mgr)
    requires MgrOk(m)
    ensures MgrOk(r) && |r.pubBuff| == |m.pubBuff|
  {
    var s := client.supports(m.req.si);
    if s.Unsupported? then NegResponseStep(m, m.req.si, SNS, now)
    else if m.req.size < s.minLength then NegResponseStep(m, m.req.si, IMLOIF, now)
    else if s.subFunc then m
    else m.(req := m.req.(suppress := false))
  }

  predicate HandledInternally(m: Mgr, client: Client) {
    m.req.si == TP || !SidAccepted(m, client)
  }

  function InternalStep(m: Mgr, client: Client, now: Word): (r: Mgr)
    requires MgrOk(m)
    ensures MgrOk(r) && |r.pubBuff| == |m.pubBuff|
  {
    if m.req.si == TP then TesterPresentStep(m, now) else SidCheckStep(m, client, now)
  }

  function ClientStep(m: Mgr, client: Client, now: Word): (r: Mgr)
    requires MgrOk(m) && CallsOk(client.handle(m.req).calls, |m.pubBuff|)
    ensures MgrOk(r) && |r.pubBuff| == |m.pubBuff|
  {
    var reaction := client.handle(m.req);
    ResultStep(CallsStep(m, reaction.calls, now), !IsResponse(m.req.si), reaction.result, now)
  }

  /** What the client's result makes the manager do. */
  function ResultStep(c: Mgr, isRequest: bool, result: ProcessResult, now: Word): (r: Mgr)
    requires MgrOk(c)
    ensures MgrOk(r) && |r.pubBuff| == |c.pubBuff|
  {
    match result
    case NotHandled => if isRequest && c.req.address == Phys then NegResponseStep(c, c.req.si, SNS, now) else c
    case HandledRespOk => Published(c, now)
    case HandledRespNo => Settled(c, now)
    case HandledPending => c
  }

  ghost predicate ClientOk(client: Client, capacity: nat) {
    forall info: Indication :: CallsOk(client.handle(info).calls, capacity)
  }

  /** A request that is no response: the manager's own services and checks come first. */
  function ServeStep(m: Mgr, client: Client, now: Word): (r: Mgr)
    requires MgrOk(m) && ClientOk(client, |m.pubBuff|)
    ensures MgrOk(r) && |r.pubBuff| == |m.pubBuff|
  {
    var i := InternalStep(m, client, now);
    if HandledInternally(m, client) then Published(i, now) else ClientStep(i, client, now)
  }

  /** What becomes of the request in hand: answered by the manager itself or given to the client. */
  function DispatchStep(m: Mgr, client: Client, now: Word): (r: Mgr)
    requires MgrOk(m) && ClientOk(client, |m.pubBuff|)
    ensures MgrOk(r) && |r.pubBuff| == |m.pubBuff|
  {
    if IsResponse(m.req.si) then ClientStep(m, client, now) else ServeStep(m, client, now)
  }

  function IndicationStep(m: Mgr, client: Client, data: seq<Byte>, length: nat, address: TargetAddress,
                          now: Word): (r: Mgr)
    requires MgrOk(m) && |data| >= 2 && ClientOk(client, |m.pubBuff|)
    ensures MgrOk(r) && |r.pubBuff| == |m.pubBuff|
  {
    if !m.active || !IsSidProcessable(data[0]) then m.(nrcOut := PR)
    else DispatchStep(Begun(m, data, length, address), client, now)
  }

  /** OnIsoEvent of the session layer together with the indication it may lead to. */
  function TpEventStep(m: Mgr, client: Client, e: IsoEvent, now: Word): (r: Mgr)
    requires MgrOk(m) && ClientOk(client, |m.pubBuff|)
    requires e.event.Data? && e.result.OkR? ==> |e.payload| >= 2
    ensures MgrOk(r) && |r.pubBuff| == |m.pubBuff|
  {
    var a := m.(sess := IsoEventStep(m.sess, e, now));
    if IsIndication(m.sess, e.event, e.result)
    then IndicationStep(a, client, e.payload, e.length, a.sess.target, now)
    else a
  }

  function MgrProcess(m: Mgr, now: Word): (r: Mgr)
    requires MgrOk(m)
    ensures MgrOk(r) && |r.pubBuff| == |m.pubBuff|
  {
    m.(sess := SessProcess(m.sess, now))
  }

  class UdsAppManager {
    const session: SessionControl
    const pubBuff: array<Byte>
    const client: Client
    var pubRespLength: nat
    var reqContext: Indication
    var nrcOutCode: Byte
    var nrcPending: bool
    var isManagerActive: bool
    var currSession: Byte

    ghost function Repr(): set<object> {
      {this, pubBuff} + session.Repr()
    }

    ghost predicate Shape() {
      this !in session.Repr() && pubBuff !in session.Repr() && session.Shape() && pubBuff.Length >= 3
    }

    ghost function View(): Mgr
      requires Shape()
      reads Repr()
    {
      Mgr(session.View(), reqContext, nrcOutCode, nrcPending, pubBuff[..], pubRespLength, isManagerActive, currSession)
    }

    ghost predicate Valid()
      reads Repr()
    {
      Shape() && MgrOk(View())
    }

    /** The fields without an initial value are those of an object in zeroed storage. */
    constructor (membuff: array<Byte>, client: Client, currSession: Byte, ticker: TickerCounter)
      requires membuff.Length >= 3
      ensures pubBuff == membuff && this.client == client && session.ticker == ticker
      ensures fresh(Repr() - {membuff})
      ensures Valid()
      ensures View() == Mgr(NewSess(0, ticker.rootTick), Indication([], 0, Phys, 0, 0, false), PR, false,
                            membuff[..], 0, true, currSession)
    {
      session := new SessionControl(ticker, 0);
      pubBuff, this.client := membuff, client;
      pubRespLength, reqContext := 0, Indication([], 0, Phys, 0, 0, false);
      nrcOutCode, nrcPending, isManagerActive, this.currSession := PR, false, true, currSession;
    }

    method SendResponse(data: seq<Byte>)
      requires Valid()
      modifies Repr()
      ensures Valid() && View() == ResponseStep(old(View()), data, session.ticker.rootTick)
    {
      if data == [] {
        return;
      }
      var allowed := CheckResponseAllowed();
      if allowed {
        session.SendRequest(data, false);
      }
      nrcPending := false;
      session.SetSessionMode(currSession == DSC_LEV_DEFT);
    }

    /** SendResponse for the response buffer. */
    method Publish()
      requires Valid()
      modifies Repr()
      ensures Valid() && View() == Published(old(View()), session.ticker.rootTick)
    {
      SendResponse(pubBuff[..pubRespLength]);
    }

    /** ResponseAllowed, which also lifts the suppression once NRC 78 goes out. */
    method CheckResponseAllowed() returns (allowed: bool)
      requires Valid()
      modifies this`reqContext
      ensures allowed == ResponseAllowed(old(View()))
      ensures reqContext ==
              if nrcOutCode == RCRRP then old(reqContext).(suppress := false) else old(reqContext)
    {
      if && reqContext.address == Func
         && !nrcPending
         && (nrcOutCode == SNSIAS || nrcOutCode == SNS || nrcOutCode == SFNS || nrcOutCode == SFNSIAS
             || nrcOutCode == ROOR)
      {
        return false;
      } else if nrcOutCode == PR && reqContext.suppress {
        return false;
      } else if nrcOutCode == RCRRP {
        reqContext := reqContext.(suppress := false);
      }
      return true;
    }

    method SendNegResponseFor(sid: Byte, nrc: Byte)
      requires Valid()
      modifies Repr()
      ensures Valid() && View() == NegResponseStep(old(View()), sid, nrc, session.ticker.rootTick)
    {
      pubBuff[0], pubBuff[1], pubBuff[2] := NR_SI, sid, nrc;
      nrcOutCode := nrc;
      assert pubBuff[..] == Overlay(old(pubBuff[..]), 0, Negative(sid, nrc));
      assert pubBuff[..3] == Negative(sid, nrc);
      SendResponse(pubBuff[..3]);
    }

    method SendNegResponse(nrc: Byte)
      requires Valid()
      modifies Repr()
      ensures Valid() && View() == NegResponseStep(old(View()), old(reqContext.si), nrc, session.ticker.rootTick)
    {
      SendNegResponseFor(reqContext.si, nrc);
    }

    method StartPending(maxDuration: Word, resendPeriod: Word)
      requires Valid()
      modifies Repr()
      ensures Valid() && View() == StartPendingStep(old(View()), maxDuration, resendPeriod, session.ticker.rootTick)
    {
      nrcPending := true;
      session.SetPending(maxDuration, resendPeriod, reqContext.si);
    }

    method SetServiceSession(value: Byte)
      requires Valid()
      modifies Repr()
      ensures Valid() && View() == ServiceSessionStep(old(View()), value, session.ticker.rootTick)
    {
      session.SetSessionMode(value == DSC_LEV_DEFT);
      session.log := session.log + [SessionChange(value == DSC_LEV_DEFT)];
    }

    method SetActiveMode(isActive: bool)
      requires Valid()
      modifies this`isManagerActive
      ensures Valid() && View() == old(View()).(active := isActive)
    {
      isManagerActive := isActive;
    }

    /** One call a client makes. */
    method Perform(c: ClientCall)
      requires Valid() && CallOk(c, pubBuff.Length)
      modifies Repr()
      ensures Valid() && View() == CallStep(old(View()), c, session.ticker.rootTick)
    {
      match c
      case Load(at, bytes, length) =>
        Copy(pubBuff, at, bytes);
        pubRespLength := length;
      case Answer(data) =>
        SendResponse(data);
      case Refuse(nrc) =>
        SendNegResponse(nrc);
      case RefuseFor(sid, nrc) =>
        SendNegResponseFor(sid, nrc);
      case Pend(duration, interval) =>
        StartPending(duration, interval);
      case SetLevel(level) =>
        currSession := level;
      case ServiceSession(value) =>
        SetServiceSession(value);
    }

    /** The client's own OnAppIndication: its calls one after the other. */
    method OnAppIndication(calls: seq<ClientCall>)
      requires Valid() && CallsOk(calls, pubBuff.Length)
      modifies Repr()
      ensures Valid() && View() == CallsStep(old(View()), calls, session.ticker.rootTick)
    {
      ghost var goal := CallsStep(View(), calls, session.ticker.rootTick);
      for k := 0 to |calls|
        invariant Valid() && CallsStep(View(), calls[k..], session.ticker.rootTick) == goal
      {
        assert calls[k..][1..] == calls[k + 1..];
        Perform(calls[k]);
      }
    }

    /** The upcall from the session layer. */
    method OnSessIndication(payload: seq<Byte>, length: nat, addr: TargetAddress)
      requires Valid() && |payload| >= 2 && length != 0 && ClientOk(client, pubBuff.Length)
      modifies Repr()
      ensures Valid()
      ensures View() == IndicationStep(old(View()), client, payload, length, addr, session.ticker.rootTick)
    {
      nrcOutCode := PR;
      if !isManagerActive || !IsSidProcessable(payload[0]) {
        return;
      }
      Prepare(payload, length, addr);
      Dispatch();
    }

    method Dispatch()
      requires Valid() && ClientOk(client, pubBuff.Length)
      modifies Repr()
      ensures Valid() && View() == DispatchStep(old(View()), client, session.ticker.rootTick)
    {
      if !IsResponse(reqContext.si) {
        Serve();
      } else {
        AskClient();
      }
    }

    method Serve()
      requires Valid() && ClientOk(client, pubBuff.Length)
      modifies Repr()
      ensures Valid() && View() == ServeStep(old(View()), client, session.ticker.rootTick)
    {
      ghost var m, now := View(), session.ticker.rootTick;
      var handled := HandleReqInternally();
      ghost var i := View();
      if !handled {
        AskClient();
        assert View() == ClientStep(i, client, now);
      } else {
        Publish();
        assert View() == Published(i, now);
      }
      assert i == InternalStep(m, client, now);
    }

    method Prepare(payload: seq<Byte>, length: nat, addr: TargetAddress)
      requires Valid() && |payload| >= 2 && nrcOutCode == PR
      modifies this`reqContext, this`pubRespLength, pubBuff
      ensures Valid() && View() == Begun(old(View()), payload, length, addr)
    {
      reqContext := Indication(payload, length, addr, payload[0], SubFunction(payload[1]), SuppressBit(payload[1]));
      pubBuff[0] := ToResponse(reqContext.si);
      pubBuff[1] := reqContext.data[1];
      pubRespLength := 0;
      assert pubBuff[..] == Overlay(old(pubBuff[..]), 0, [ToResponse(payload[0]), payload[1]]);
    }

    method AskClient()
      requires Valid() && ClientOk(client, pubBuff.Length)
      modifies Repr()
      ensures Valid() && View() == ClientStep(old(View()), client, session.ticker.rootTick)
    {
      var isRequest := !IsResponse(reqContext.si);
      var reaction := client.handle(reqContext);
      OnAppIndication(reaction.calls);
      FinishRequest(isRequest, reaction.result);
    }

    method FinishRequest(isRequest: bool, result: ProcessResult)
      requires Valid()
      modifies Repr()
      ensures Valid() && View() == ResultStep(old(View()), isRequest, result, session.ticker.rootTick)
    {
      if result == NotHandled && isRequest {
        if reqContext.address == Phys {
          SendNegResponse(SNS);
        }
      } else if result == HandledRespOk {
        Publish();
      } else if result == HandledRespNo {
        session.SetSessionMode(currSession == DSC_LEV_DEFT);
      }
    }

    method HandleReqInternally() returns (handled: bool)
      requires Valid()
      modifies Repr()
      ensures Valid() && handled == HandledInternally(old(View()), client)
      ensures View() == InternalStep(old(View()), client, session.ticker.rootTick)
    {
      if reqContext.si == TP {
        SIDTesterPresent();
      } else {
        var supported := CheckIfSidSupported();
        if supported {
          return false;
        }
      }
      return true;
    }

    method SIDTesterPresent()
      requires Valid()
      modifies Repr()
      ensures Valid() && View() == TesterPresentStep(old(View()), session.ticker.rootTick)
    {
      if reqContext.sf != 0 {
        SendNegResponse(SFNS);
      } else if reqContext.size != 2 {
        SendNegResponse(IMLOIF);
      } else {
        pubRespLength := 2;
      }
    }

    method CheckIfSidSupported() returns (ret: bool)
      requires Valid()
      modifies Repr()
      ensures Valid() && ret == SidAccepted(old(View()), client)
      ensures View() == SidCheckStep(old(View()), client, session.ticker.rootTick)
    {
      var support := client.supports(reqContext.si);
      match support
      case Supported(minLength, subFunc) =>
        ret := true;
        if reqContext.size < minLength {
          SendNegResponse(IMLOIF);
          ret := false;
        } else if !subFunc {
          reqContext := reqContext.(suppress := false);
        }
      case Unsupported =>
        ret := false;
        SendNegResponse(SNS);
    }

    /** OnIsoEvent of the session layer with the upcall resolved. */
    method OnIsoEvent(e: IsoEvent)
      requires Valid() && ClientOk(client, pubBuff.Length)
      requires e.event.DataFF? ==> e.result.OkR?
      requires e.event.Data? && e.result.OkR? ==> |e.payload| >= 2 && e.length != 0
      modifies Repr()
      ensures Valid() && View() == TpEventStep(old(View()), client, e, session.ticker.rootTick)
    {
      var indication := session.OnIsoEvent(e);
      if indication {
        OnSessIndication(e.payload, e.length, session.targetAddress);
      }
    }

    method Process()
      requires Valid()
      modifies Repr()
      ensures Valid() && View() == MgrProcess(old(View()), session.ticker.rootTick)
    {
      session.Process();
    }
  }
}
