/** The session layer (src/uds/session/session-control.{h,cpp}): the S3 timer that ends a
    non-default session, the P2 timer of a request being worked on, and the enhanced timing
    mode (ETM) in which "response pending" is repeated until the answer is there. */
module Session {
  import opened IsoTpTypes
  import opened Timers

  datatype SessionType = Default | NonDefault

  datatype TargetAddress = Phys | Func | Unknown

  datatype SessParam = S3Tim | P2Tim | P2Enhc | OtherParam

  datatype SessParamResult = SessParamOk | SessParamErr

  datatype Timings = Timings(s3Max: Word, p2Max: Word, p2Enhanced: Word)

  /** What the session layer does to its neighbours, in order: payloads requested from the
      transport, and calls of the upper layer's callbacks. */
  datatype SessEvent =
    | Sent(data: seq<Byte>)
    | Indicated(payload: seq<Byte>, length: nat, address: TargetAddress)
    | ConfirmedNok
    | S3Timeout
    | SessionChange(isDefault: bool)

  const NR_SI: Byte := 0x7f
  const ENOA: Byte := 0x36
  const RCRRP: Byte := 0x78

  datatype Sess = Sess(
    tims: Timings,
    p2: TimerState,
    s3: TimerState,
    sessType: SessionType,
    target: TargetAddress,
    etmActive: bool,
    etmBuf: seq<Byte>,
    etmDuration: Word,
    etmInterval: Word,
    etmTim: TimerState,
    log: seq<SessEvent>)
  {
    function Logged(event: SessEvent): Sess {
      this.(log := log + [event])
    }
  }

  /** A session layer as constructed; the interval field has no initial value in the source. */
  function NewSess(interval: Word, now: Word): Sess {
    Sess(Timings(5000, 250, 5000), NewTimer(0), NewTimer(0), Default, Unknown, false,
         [NR_SI, 0, RCRRP], 0, interval, TimerState(0, now, true, true), [])
  }

  /** What every operation keeps: a repeating ETM timer, one-shot P2 and S3 timers, and a wait
      message that says "response pending" between calls. */
  predicate SessOk(s: Sess) {
    && s.etmTim.endless && !s.p2.endless && !s.s3.endless
    && |s.etmBuf| == 3 && s.etmBuf[0] == NR_SI && s.etmBuf[2] == RCRRP
  }

  /** 7F, the service, 78. */
  function PendingMessage(si: Byte): seq<Byte> {
    [NR_SI, si, RCRRP]
  }

  function RequestStep(s: Sess, data: seq<Byte>, enhanced: bool, now: Word): Sess {
    s.(etmActive := enhanced,
       p2 := if enhanced then s.p2.Started(s.tims.p2Enhanced, now) else s.p2.Stopped(),
       log := s.log + [Sent(data)])
  }

  function PendingStep(s: Sess, duration: Word, interval: Word, si: Byte, now: Word): Sess
    requires SessOk(s)
  {
    if duration < interval || interval <= 999 then s
    else
      RequestStep(s.(etmBuf := PendingMessage(si)), PendingMessage(si), true, now).(
        etmTim := s.etmTim.Started(interval, now),
        etmInterval := interval,
        etmDuration := duration - interval)
  }

  function ModeStep(s: Sess, isDefault: bool, now: Word): Sess {
    if isDefault then s.(s3 := s.s3.Stopped(), sessType := Default)
    else if s.sessType == Default then s.(s3 := s.s3.Started(s.tims.s3Max, now), sessType := NonDefault)
    else s.(s3 := s.s3.Restarted(now))
  }

  // ---- Process ----

  /** The poll of S3. */
  function S3Step(s: Sess, now: Word): Sess {
    if s.sessType == Default then s
    else
      var t := s.(s3 := s.s3.Polled(now));
      if s.s3.Due(now) then ModeStep(t, true, now).Logged(S3Timeout) else t
  }

  /** ETM has found no answer in time: one final negative response. */
  function GiveUp(s: Sess, now: Word): Sess
    requires SessOk(s)
  {
    RequestStep(s.(etmActive := false), [NR_SI, s.etmBuf[1], ENOA], false, now)
  }

  /** The poll of P2. */
  function P2Step(s: Sess, now: Word): Sess
    requires SessOk(s)
  {
    var t := s.(p2 := s.p2.Polled(now));
    if !s.p2.Due(now) then t
    else
      var u := if s.sessType == Default then t else t.(s3 := t.s3.Restarted(now));
      if s.etmActive then GiveUp(u, now) else u
  }

  /** The poll of the ETM timer: another "response pending" while there is time left. */
  function EtmStep(s: Sess, now: Word): Sess
    requires SessOk(s)
  {
    if !s.etmActive || s.etmDuration == 0 then s
    else if !s.etmTim.Due(now) then s
    else
      var left := if s.etmDuration > s.etmInterval then s.etmDuration - s.etmInterval else 0;
      var r := RequestStep(s.(etmTim := s.etmTim.Polled(now), etmDuration := left), s.etmBuf, true, now);
      if left == 0 then r.(etmTim := r.etmTim.Stopped()) else r
  }

  function SessProcess(s: Sess, now: Word): (r: Sess)
    requires SessOk(s)
    ensures SessOk(r)
  {
    EtmStep(P2Step(S3Step(s, now), now), now)
  }

  // ---- OnIsoEvent ----

  predicate IsIndication(s: Sess, event: NEvent, result: NResult) {
    event.Data? && result.OkR? && !s.etmActive
  }

  /** OnIsoEvent up to the call of OnSessIndication, which comes last. */
  function IsoEventStep(s: Sess, e: IsoEvent, now: Word): (r: Sess) {
    var a := s.(target := if e.address.Physical? then Phys else Func);
    match e.event
    case Data =>
      if !e.result.OkR? then a.Logged(ConfirmedNok)
      else if a.etmActive then a
      else
        var b := a.(p2 := a.p2.Started(a.tims.p2Max, now));
        (if a.sessType.NonDefault? then b.(s3 := b.s3.Stopped()) else b)
        .Logged(Indicated(e.payload, e.length, a.target))
    case DataFF =>
      if !e.result.OkR? then ModeStep(a, a.sessType == Default, now)
      else if a.sessType.NonDefault? then a.(s3 := a.s3.Stopped())
      else a
    case Conf =>
      if (e.result.OkS? && !a.etmActive) || e.result.TimeoutCr? then ModeStep(a, a.sessType == Default, now)
      else a
  }

  function ParamStep(s: Sess, par: SessParam, v: Word): Sess {
    match par
    case S3Tim => s.(tims := s.tims.(s3Max := v))
    case P2Tim => s.(tims := s.tims.(p2Max := v))
    case P2Enhc => s.(tims := s.tims.(p2Enhanced := v))
    case OtherParam => s
  }

  class SessionControl {
    const ticker: TickerCounter
    const p2: Timer
    const s3: Timer
    const etmTim: Timer
    const etmWaitRespBuff: array<Byte>
    var tims: Timings
    var sessType: SessionType
    var targetAddress: TargetAddress
    var isEtmActive: bool
    var etmDuration: Word
    var etmKeepAliveInterval: Word
    var log: seq<SessEvent>

    ghost function Repr(): set<object> {
      {this, p2, s3, etmTim, etmWaitRespBuff}
    }

    ghost predicate Shape() {
      && p2 != s3 && p2 != etmTim && s3 != etmTim
      && p2.ticker == s3.ticker == etmTim.ticker == ticker
      && etmWaitRespBuff.Length == 3
    }

    ghost function View(): Sess
      requires Shape()
      reads Repr()
    {
      Sess(tims, p2.View(), s3.View(), sessType, targetAddress, isEtmActive, etmWaitRespBuff[..],
           etmDuration, etmKeepAliveInterval, etmTim.View(), log)
    }

    ghost predicate Valid()
      reads Repr()
    {
      Shape() && SessOk(View())
    }

    constructor (ticker: TickerCounter, interval: Word)
      ensures this.ticker == ticker && fresh(Repr())
      ensures Valid() && View() == NewSess(interval, ticker.rootTick)
    {
      this.ticker := ticker;
      p2 := new Timer(ticker, 0, false, false);
      s3 := new Timer(ticker, 0, false, false);
      etmTim := new Timer(ticker, 0, true, true);
      etmWaitRespBuff := new Byte[] [NR_SI, 0, RCRRP];
      tims, sessType, targetAddress := Timings(5000, 250, 5000), Default, Unknown;
      isEtmActive, etmDuration, etmKeepAliveInterval, log := false, 0, interval, [];
    }

    method SendRequest(data: seq<Byte>, enhanced: bool)
      requires Shape()
      modifies this`isEtmActive, this`log, p2
      ensures View() == RequestStep(old(View()), data, enhanced, ticker.rootTick)
    {
      isEtmActive := enhanced;
      if isEtmActive {
        p2.Start(tims.p2Enhanced);
      } else {
        p2.Stop();
      }
      log := log + [Sent(data)];
    }

    method SetPending(duration: Word, interval: Word, si: Byte)
      requires Valid()
      modifies Repr()
      ensures Valid() && View() == PendingStep(old(View()), duration, interval, si, ticker.rootTick)
    {
      if duration >= interval && interval > 999 {
        etmWaitRespBuff[1] := si;
        assert etmWaitRespBuff[..] == PendingMessage(si);
        SendRequest(etmWaitRespBuff[..], true);
        etmTim.Start(interval);
        etmKeepAliveInterval := interval;
        etmDuration := duration - interval;
      }
    }

    method Process()
      requires Valid()
      modifies Repr()
      ensures Valid() && View() == SessProcess(old(View()), ticker.rootTick)
    {
      ProcessSessionMode();
      ProcessEtm();
    }

    method ProcessEtm()
      requires Valid()
      modifies Repr()
      ensures Valid() && View() == EtmStep(old(View()), ticker.rootTick)
    {
      if isEtmActive {
        var due := false;
        if etmDuration != 0 {
          due := etmTim.Elapsed();
        }
        if due {
          etmDuration := if etmDuration > etmKeepAliveInterval then etmDuration - etmKeepAliveInterval else 0;
          SendRequest(etmWaitRespBuff[..], true);
          if etmDuration == 0 {
            etmTim.Stop();
          }
        }
      }
    }

    /** The result says whether OnSessIndication is now to be called with the event's payload. */
    method OnIsoEvent(e: IsoEvent) returns (indication: bool)
      requires Valid() && (e.event.DataFF? ==> e.result.OkR?)
      modifies Repr()
      ensures Valid() && View() == IsoEventStep(old(View()), e, ticker.rootTick)
      ensures indication == IsIndication(old(View()), e.event, e.result)
    {
      indication := false;
      targetAddress := if e.address == Physical then Phys else Func;
      match e.event
      case Data =>
        if e.result == OkR {
          if !isEtmActive {
            p2.Start(tims.p2Max);
            if sessType == NonDefault {
              s3.Stop();
            }
            log := log + [Indicated(e.payload, e.length, targetAddress)];
            indication := true;
          }
        } else {
          log := log + [ConfirmedNok];
        }
      case DataFF =>
        if sessType == NonDefault {
          s3.Stop();
        }
      case Conf =>
        if e.result == OkS {
          if !isEtmActive {
            SetSessionMode(sessType == Default);
          }
        } else if e.result == TimeoutCr {
          SetSessionMode(sessType == Default);
        }
    }

    method SetSessionMode(isDefault: bool)
      requires Shape()
      modifies this`sessType, s3
      ensures View() == ModeStep(old(View()), isDefault, ticker.rootTick)
    {
      if isDefault {
        s3.Stop();
        sessType := Default;
      } else {
        if sessType == Default {
          s3.Start(tims.s3Max);
          sessType := NonDefault;
        } else {
          s3.Restart();
        }
      }
    }

    method ProcessSessionMode()
      requires Valid()
      modifies Repr()
      ensures Valid() && View() == P2Step(S3Step(old(View()), ticker.rootTick), ticker.rootTick)
    {
      PollS3();
      var due := p2.Elapsed();
      if due {
        if sessType != Default {
          s3.Restart();
        }
        if isEtmActive {
          isEtmActive := false;
          SendNoAnswer();
        }
      }
    }

    method PollS3()
      requires Valid()
      modifies Repr()
      ensures Valid() && View() == S3Step(old(View()), ticker.rootTick)
    {
      if sessType != Default {
        var due := s3.Elapsed();
        if due {
          SetSessionMode(true);
          log := log + [S3Timeout];
        }
      }
    }

    /** The wait message goes out once with the code ENOA in it. */
    method SendNoAnswer()
      requires Valid()
      modifies Repr()
      ensures Valid() && View() == GiveUp(old(View()), ticker.rootTick)
    {
      etmWaitRespBuff[2] := ENOA;
      assert etmWaitRespBuff[..] == [NR_SI, etmWaitRespBuff[1], ENOA];
      SendRequest(etmWaitRespBuff[..], false);
      etmWaitRespBuff[2] := RCRRP;
      assert etmWaitRespBuff[..] == old(etmWaitRespBuff[..]);
    }

    method SetSessionParam(par: SessParam, v: Word) returns (ret: SessParamResult)
      requires Valid()
      modifies this`tims
      ensures Valid() && View() == ParamStep(old(View()), par, v)
      ensures ret == if par.OtherParam? then SessParamErr else SessParamOk
    {
      ret := SessParamOk;
      match par
      case S3Tim => tims := tims.(s3Max := v);
      case P2Tim => tims := tims.(p2Max := v);
      case P2Enhc => tims := tims.(p2Enhanced := v);
      case OtherParam => ret := SessParamErr;
    }
  }
}
