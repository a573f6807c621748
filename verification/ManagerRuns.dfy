/** The session and response layers over whole runs: ticks, polls, transport events with any
    clients, and calls clients make on their own (src/uds/session). */
module ManagerRuns {
  import opened IsoTpTypes
  import opened Timers
  import opened Session
  import opened SessionRuns
  import opened Manager
  import opened ResponseRules

  datatype MgrAction =
    | Tick
    | Poll
    | FromTransport(e: IsoEvent, client: Client)
    | FromClient(c: ClientCall)
    | Activate(on: bool)

  datatype MgrWorld = MgrWorld(m: Mgr, clock: nat)

  /** What the neighbours owe the manager: the transport shows two bytes of every message, and
      clients stay inside the response buffer. */
  ghost predicate ActionOk(a: MgrAction, capacity: nat) {
    && (a.FromTransport? ==>
          ClientOk(a.client, capacity) && (a.e.event.Data? && a.e.result.OkR? ==> |a.e.payload| >= 2))
    && (a.FromClient? ==> CallOk(a.c, capacity))
  }

  ghost predicate ActionsOk(actions: seq<MgrAction>, capacity: nat) {
    forall i :: 0 <= i < |actions| ==> ActionOk(actions[i], capacity)
  }

  function MgrNext(w: MgrWorld, a: MgrAction): (r: MgrWorld)
    requires MgrOk(w.m) && ActionOk(a, |w.m.pubBuff|)
    ensures MgrOk(r.m) && |r.m.pubBuff| == |w.m.pubBuff|
  {
    match a
    case Tick => w.(clock := w.clock + 1)
    case Poll => w.(m := MgrProcess(w.m, Now(w.clock)))
    case FromTransport(e, client) => w.(m := TpEventStep(w.m, client, e, Now(w.clock)))
    case FromClient(c) => w.(m := CallStep(w.m, c, Now(w.clock)))
    case Activate(on) => w.(m := w.m.(active := on))
  }

  function MgrRun(w: MgrWorld, actions: seq<MgrAction>): (r: MgrWorld)
    requires MgrOk(w.m) && ActionsOk(actions, |w.m.pubBuff|)
    ensures MgrOk(r.m) && |r.m.pubBuff| == |w.m.pubBuff|
    decreases |actions|
  {
    if actions == [] then w
    else
      assert ActionOk(actions[0], |w.m.pubBuff|);
      MgrRun(MgrNext(w, actions[0]), actions[1..])
  }

  /** A manager as constructed. */
  function NewMgr(buf: seq<Byte>, currSession: Byte, now: Word): Mgr {
    Mgr(NewSess(0, now), Indication([], 0, Phys, 0, 0, false), PR, false, buf, 0, true, currSession)
  }

  // ---- The session is kept alive ----

  /** Whether a segmented reception has been announced that neither its delivery nor the Cr
      timeout has closed yet. */
  function OpenNext(open: bool, a: MgrAction): bool {
    if !a.FromTransport? then open
    else if a.e.event.DataFF? && a.e.result.OkR? then true
    else if (a.e.event.Data? && a.e.result.OkR?) || (a.e.event.Conf? && a.e.result.TimeoutCr?) then false
    else open
  }

  function OpenRun(open: bool, actions: seq<MgrAction>): bool
    decreases |actions|
  {
    if actions == [] then open else OpenRun(OpenNext(open, actions[0]), actions[1..])
  }

  predicate KeptAlive(s: Sess, open: bool) {
    && (s.sessType.Default? ==> !s.s3.active)
    && (s.etmActive ==> s.p2.active)
    && (s.sessType.NonDefault? ==> s.s3.active || s.p2.active || open)
  }

  lemma ResponseKeepsAlive(m: Mgr, data: seq<Byte>, now: Word, open: bool)
    requires KeptAlive(m.sess, open)
    ensures KeptAlive(ResponseStep(m, data, now).sess, open)
  {
  }

  lemma RefusalKeepsAlive(m: Mgr, sid: Byte, nrc: Byte, now: Word, open: bool)
    requires MgrOk(m) && KeptAlive(m.sess, open)
    ensures KeptAlive(NegResponseStep(m, sid, nrc, now).sess, open)
  {
    ResponseKeepsAlive(m.(pubBuff := Overlay(m.pubBuff, 0, Negative(sid, nrc)), nrcOut := nrc),
                       Negative(sid, nrc), now, open);
  }

  lemma CallKeepsAlive(m: Mgr, c: ClientCall, now: Word, open: bool)
    requires MgrOk(m) && CallOk(c, |m.pubBuff|) && KeptAlive(m.sess, open)
    ensures KeptAlive(CallStep(m, c, now).sess, open)
  {
    match c
    case Answer(data) => ResponseKeepsAlive(m, data, now, open);
    case Refuse(nrc) => RefusalKeepsAlive(m, m.req.si, nrc, now, open);
    case RefuseFor(sid, nrc) => RefusalKeepsAlive(m, sid, nrc, now, open);
    case _ =>
  }

  lemma {:induction false} CallsKeepAlive(m: Mgr, calls: seq<ClientCall>, now: Word, open: bool)
    requires MgrOk(m) && CallsOk(calls, |m.pubBuff|) && KeptAlive(m.sess, open)
    ensures KeptAlive(CallsStep(m, calls, now).sess, open)
    decreases |calls|
  {
    if calls != [] {
      assert CallOk(calls[0], |m.pubBuff|);
      CallKeepsAlive(m, calls[0], now, open);
      CallsKeepAlive(CallStep(m, calls[0], now), calls[1..], now, open);
    }
  }

  lemma ClientKeepsAlive(m: Mgr, client: Client, now: Word, open: bool)
    requires MgrOk(m) && ClientOk(client, |m.pubBuff|) && KeptAlive(m.sess, open)
    ensures KeptAlive(ClientStep(m, client, now).sess, open)
  {
    var calls := client.handle(m.req).calls;
    CallsKeepAlive(m, calls, now, open);
    ResultKeepsAlive(CallsStep(m, calls, now), !IsResponse(m.req.si), client.handle(m.req).result, now, open);
  }

  lemma ResultKeepsAlive(c: Mgr, isRequest: bool, result: ProcessResult, now: Word, open: bool)
    requires MgrOk(c) && KeptAlive(c.sess, open)
    ensures KeptAlive(ResultStep(c, isRequest, result, now).sess, open)
  {
    match result
    case NotHandled => RefusalKeepsAlive(c, c.req.si, SNS, now, open);
    case HandledRespOk => ResponseKeepsAlive(c, c.pubBuff[..c.pubLen], now, open);
    case _ =>
  }

  lemma InternalKeepsAlive(m: Mgr, client: Client, now: Word, open: bool)
    requires MgrOk(m) && KeptAlive(m.sess, open)
    ensures KeptAlive(InternalStep(m, client, now).sess, open)
  {
    if m.req.si == TP {
      if m.req.sf != 0 {
        RefusalKeepsAlive(m, m.req.si, SFNS, now, open);
      } else if m.req.size != 2 {
        RefusalKeepsAlive(m, m.req.si, IMLOIF, now, open);
      }
    } else if client.supports(m.req.si).Unsupported? {
      RefusalKeepsAlive(m, m.req.si, SNS, now, open);
    } else if m.req.size < client.supports(m.req.si).minLength {
      RefusalKeepsAlive(m, m.req.si, IMLOIF, now, open);
    }
  }

  lemma IndicationKeepsAlive(m: Mgr, client: Client, data: seq<Byte>, length: nat, address: TargetAddress, now: Word,
                             open: bool)
    requires MgrOk(m) && |data| >= 2 && ClientOk(client, |m.pubBuff|) && KeptAlive(m.sess, open)
    ensures KeptAlive(IndicationStep(m, client, data, length, address, now).sess, open)
  {
    if m.active && IsSidProcessable(data[0]) {
      var b := Begun(m, data, length, address);
      if IsResponse(b.req.si) {
        ClientKeepsAlive(b, client, now, open);
      } else {
        var i := InternalStep(b, client, now);
        InternalKeepsAlive(b, client, now, open);
        if HandledInternally(b, client) {
          ResponseKeepsAlive(i, i.pubBuff[..i.pubLen], now, open);
        } else {
          ClientKeepsAlive(i, client, now, open);
        }
      }
    }
  }

  lemma ProcessKeepsAlive(s: Sess, now: Word, open: bool)
    requires SessOk(s) && KeptAlive(s, open)
    ensures KeptAlive(SessProcess(s, now), open)
  {
    assert KeptAlive(S3Step(s, now), open);
    assert KeptAlive(P2Step(S3Step(s, now), now), open);
  }

  lemma StepKeepsAlive(w: MgrWorld, a: MgrAction, open: bool)
    requires MgrOk(w.m) && ActionOk(a, |w.m.pubBuff|) && KeptAlive(w.m.sess, open)
    ensures KeptAlive(MgrNext(w, a).m.sess, OpenNext(open, a))
  {
    var now := Now(w.clock);
    match a
    case Poll => ProcessKeepsAlive(w.m.sess, now, open);
    case FromTransport(e, client) =>
      var s := IsoEventStep(w.m.sess, e, now);
      assert KeptAlive(s, OpenNext(open, a));
      if IsIndication(w.m.sess, e.event, e.result) {
        IndicationKeepsAlive(w.m.(sess := s), client, e.payload, e.length, s.target, now, OpenNext(open, a));
      }
    case FromClient(c) => CallKeepsAlive(w.m, c, now, open);
    case _ =>
  }

  /** In every run, whatever arrives and whatever the clients do: a default session has S3
      stopped; the enhanced timing mode has P2 running, and so ends; and a non-default session
      has S3 or P2 running, or a reception is announced and not yet delivered or timed out. */
  lemma {:induction false} SessionKeptAlive(w: MgrWorld, actions: seq<MgrAction>, open: bool)
    requires MgrOk(w.m) && ActionsOk(actions, |w.m.pubBuff|) && KeptAlive(w.m.sess, open)
    ensures KeptAlive(MgrRun(w, actions).m.sess, OpenRun(open, actions))
    decreases |actions|
  {
    if actions != [] {
      assert ActionOk(actions[0], |w.m.pubBuff|);
      StepKeepsAlive(w, actions[0], open);
      SessionKeptAlive(MgrNext(w, actions[0]), actions[1..], OpenNext(open, actions[0]));
    }
  }

  /** Started from a fresh manager; and a non-default session with no open reception can always end. */
  lemma FreshSessionKeptAlive(buf: seq<Byte>, currSession: Byte, clock: nat, actions: seq<MgrAction>)
    requires |buf| >= 3 && ActionsOk(actions, |buf|)
    ensures var w' := MgrRun(MgrWorld(NewMgr(buf, currSession, Now(clock)), clock), actions);
            var open := OpenRun(false, actions);
            && KeptAlive(w'.m.sess, open)
            && (w'.m.sess.sessType.NonDefault? && !open ==> CanEnd(w'.m.sess, w'.clock))
  {
    var w := MgrWorld(NewMgr(buf, currSession, Now(clock)), clock);
    SessionKeptAlive(w, actions, false);
    var w' := MgrRun(w, actions);
    if w'.m.sess.sessType.NonDefault? {
      SessionEndsIff(w'.m.sess, w'.clock);
    }
  }

  // ---- Every expiry is notified ----

  /** The polls of a run that end a non-default session. */
  function Expiries(w: MgrWorld, actions: seq<MgrAction>): nat
    requires MgrOk(w.m) && ActionsOk(actions, |w.m.pubBuff|)
    decreases |actions|
  {
    if actions == [] then 0
    else
      assert ActionOk(actions[0], |w.m.pubBuff|);
      var w1 := MgrNext(w, actions[0]);
      (if actions[0].Poll? && w.m.sess.sessType.NonDefault? && w1.m.sess.sessType.Default? then 1 else 0)
      + Expiries(w1, actions[1..])
  }

  lemma ResponseKeepsTimeouts(m: Mgr, data: seq<Byte>, now: Word)
    ensures Timeouts(ResponseStep(m, data, now).sess.log) == Timeouts(m.sess.log)
  {
    TimeoutsAppend(m.sess.log, Sent(data));
  }

  lemma RefusalKeepsTimeouts(m: Mgr, sid: Byte, nrc: Byte, now: Word)
    requires MgrOk(m)
    ensures Timeouts(NegResponseStep(m, sid, nrc, now).sess.log) == Timeouts(m.sess.log)
  {
    ResponseKeepsTimeouts(m.(pubBuff := Overlay(m.pubBuff, 0, Negative(sid, nrc)), nrcOut := nrc),
                          Negative(sid, nrc), now);
  }

  lemma PendKeepsTimeouts(s: Sess, duration: Word, interval: Word, si: Byte, now: Word)
    requires SessOk(s)
    ensures Timeouts(PendingStep(s, duration, interval, si, now).log) == Timeouts(s.log)
  {
    TimeoutsAppend(s.log, Sent(PendingMessage(si)));
  }

  lemma CallKeepsTimeouts(m: Mgr, c: ClientCall, now: Word)
    requires MgrOk(m) && CallOk(c, |m.pubBuff|)
    ensures Timeouts(CallStep(m, c, now).sess.log) == Timeouts(m.sess.log)
  {
    match c
    case Answer(data) => ResponseKeepsTimeouts(m, data, now);
    case Refuse(nrc) => RefusalKeepsTimeouts(m, m.req.si, nrc, now);
    case RefuseFor(sid, nrc) => RefusalKeepsTimeouts(m, sid, nrc, now);
    case Pend(duration, interval) => PendKeepsTimeouts(m.sess, duration, interval, m.req.si, now);
    case ServiceSession(value) => TimeoutsAppend(m.sess.log, SessionChange(value == DSC_LEV_DEFT));
    case _ =>
  }

  lemma {:induction false} CallsKeepTimeouts(m: Mgr, calls: seq<ClientCall>, now: Word)
    requires MgrOk(m) && CallsOk(calls, |m.pubBuff|)
    ensures Timeouts(CallsStep(m, calls, now).sess.log) == Timeouts(m.sess.log)
    decreases |calls|
  {
    if calls != [] {
      assert CallOk(calls[0], |m.pubBuff|);
      CallKeepsTimeouts(m, calls[0], now);
      CallsKeepTimeouts(CallStep(m, calls[0], now), calls[1..], now);
    }
  }

  lemma ClientKeepsTimeouts(m: Mgr, client: Client, now: Word)
    requires MgrOk(m) && ClientOk(client, |m.pubBuff|)
    ensures Timeouts(ClientStep(m, client, now).sess.log) == Timeouts(m.sess.log)
  {
    var calls := client.handle(m.req).calls;
    CallsKeepTimeouts(m, calls, now);
    ResultKeepsTimeouts(CallsStep(m, calls, now), !IsResponse(m.req.si), client.handle(m.req).result, now);
  }

  lemma ResultKeepsTimeouts(c: Mgr, isRequest: bool, result: ProcessResult, now: Word)
    requires MgrOk(c)
    ensures Timeouts(ResultStep(c, isRequest, result, now).sess.log) == Timeouts(c.sess.log)
  {
    ResponseKeepsTimeouts(c, c.pubBuff[..c.pubLen], now);
    RefusalKeepsTimeouts(c, c.req.si, SNS, now);
  }

  lemma InternalKeepsTimeouts(m: Mgr, client: Client, now: Word)
    requires MgrOk(m)
    ensures Timeouts(InternalStep(m, client, now).sess.log) == Timeouts(m.sess.log)
  {
    if m.req.si == TP {
      if m.req.sf != 0 {
        RefusalKeepsTimeouts(m, m.req.si, SFNS, now);
      } else if m.req.size != 2 {
        RefusalKeepsTimeouts(m, m.req.si, IMLOIF, now);
      }
    } else if client.supports(m.req.si).Unsupported? {
      RefusalKeepsTimeouts(m, m.req.si, SNS, now);
    } else if m.req.size < client.supports(m.req.si).minLength {
      RefusalKeepsTimeouts(m, m.req.si, IMLOIF, now);
    }
  }

  lemma IndicationKeepsTimeouts(m: Mgr, client: Client, data: seq<Byte>, length: nat, address: TargetAddress, now: Word)
    requires MgrOk(m) && |data| >= 2 && ClientOk(client, |m.pubBuff|)
    ensures Timeouts(IndicationStep(m, client, data, length, address, now).sess.log) == Timeouts(m.sess.log)
  {
    if m.active && IsSidProcessable(data[0]) {
      var b := Begun(m, data, length, address);
      if IsResponse(b.req.si) {
        ClientKeepsTimeouts(b, client, now);
      } else {
        var i := InternalStep(b, client, now);
        InternalKeepsTimeouts(b, client, now);
        if HandledInternally(b, client) {
          ResponseKeepsTimeouts(i, i.pubBuff[..i.pubLen], now);
        } else {
          ClientKeepsTimeouts(i, client, now);
        }
      }
    }
  }

  lemma EventKeepsTimeouts(s: Sess, e: IsoEvent, now: Word)
    ensures Timeouts(IsoEventStep(s, e, now).log) == Timeouts(s.log)
  {
    if e.event.Data? {
      TimeoutsAppend(s.log, ConfirmedNok);
      TimeoutsAppend(s.log, Indicated(e.payload, e.length, if e.address.Physical? then Phys else Func));
    }
  }

  /** Over every run the S3 callback is called exactly once for each poll that ends a session,
      and never otherwise. */
  lemma {:induction false} EveryExpiryNotified(w: MgrWorld, actions: seq<MgrAction>)
    requires MgrOk(w.m) && ActionsOk(actions, |w.m.pubBuff|)
    ensures Timeouts(MgrRun(w, actions).m.sess.log) == Timeouts(w.m.sess.log) + Expiries(w, actions)
    decreases |actions|
  {
    if actions != [] {
      assert ActionOk(actions[0], |w.m.pubBuff|);
      StepNotifies(w, actions[0]);
      EveryExpiryNotified(MgrNext(w, actions[0]), actions[1..]);
    }
  }

  lemma StepNotifies(w: MgrWorld, a: MgrAction)
    requires MgrOk(w.m) && ActionOk(a, |w.m.pubBuff|)
    ensures var m' := MgrNext(w, a).m;
            Timeouts(m'.sess.log) == Timeouts(w.m.sess.log) +
              if a.Poll? && w.m.sess.sessType.NonDefault? && m'.sess.sessType.Default? then 1 else 0
  {
    var now := Now(w.clock);
    match a
    case Poll => ExpiryNotifiesOnce(w.m.sess, now);
    case FromTransport(e, client) =>
      EventKeepsTimeouts(w.m.sess, e, now);
      if IsIndication(w.m.sess, e.event, e.result) {
        var s := IsoEventStep(w.m.sess, e, now);
        IndicationKeepsTimeouts(w.m.(sess := s), client, e.payload, e.length, s.target, now);
      }
    case FromClient(c) => CallKeepsTimeouts(w.m, c, now);
    case _ =>
  }

  // ---- Pending answers ----

  /** A request for the pending mode that SetPending grants. */
  predicate Granted(c: ClientCall) {
    c.Pend? ==> c.duration >= c.interval > 999
  }

  predicate AllGranted(calls: seq<ClientCall>) {
    forall i :: 0 <= i < |calls| ==> Granted(calls[i])
  }

  /** Nobody asks for the pending mode in vain, and no poll has to end it for want of an answer. */
  ghost predicate Orderly(w: MgrWorld, a: MgrAction) {
    match a
    case Poll => !(w.m.sess.etmActive && w.m.sess.p2.Due(Now(w.clock)))
    case FromTransport(_, client) => forall info: Indication :: AllGranted(client.handle(info).calls)
    case FromClient(c) => Granted(c)
    case _ => true
  }

  ghost predicate OrderlyRun(w: MgrWorld, actions: seq<MgrAction>)
    requires MgrOk(w.m) && ActionsOk(actions, |w.m.pubBuff|)
    decreases |actions|
  {
    actions != [] ==>
      assert ActionOk(actions[0], |w.m.pubBuff|);
      Orderly(w, actions[0]) && OrderlyRun(MgrNext(w, actions[0]), actions[1..])
  }

  /** The flag that lifts the suppression is set only while the pending mode is on. */
  predicate Paired(m: Mgr) {
    m.nrcPending ==> m.sess.etmActive
  }

  lemma CallPaired(m: Mgr, c: ClientCall, now: Word)
    requires MgrOk(m) && CallOk(c, |m.pubBuff|) && Paired(m) && Granted(c)
    ensures Paired(CallStep(m, c, now))
  {
  }

  lemma {:induction false} CallsPaired(m: Mgr, calls: seq<ClientCall>, now: Word)
    requires MgrOk(m) && CallsOk(calls, |m.pubBuff|) && Paired(m) && AllGranted(calls)
    ensures Paired(CallsStep(m, calls, now))
    decreases |calls|
  {
    if calls != [] {
      assert CallOk(calls[0], |m.pubBuff|) && Granted(calls[0]);
      CallPaired(m, calls[0], now);
      CallsPaired(CallStep(m, calls[0], now), calls[1..], now);
    }
  }

  lemma ClientPaired(m: Mgr, client: Client, now: Word)
    requires MgrOk(m) && ClientOk(client, |m.pubBuff|) && Paired(m)
    requires AllGranted(client.handle(m.req).calls)
    ensures Paired(ClientStep(m, client, now))
  {
    CallsPaired(m, client.handle(m.req).calls, now);
  }

  lemma IndicationPaired(m: Mgr, client: Client, data: seq<Byte>, length: nat, address: TargetAddress, now: Word)
    requires MgrOk(m) && |data| >= 2 && ClientOk(client, |m.pubBuff|) && Paired(m)
    requires forall info: Indication :: AllGranted(client.handle(info).calls)
    ensures Paired(IndicationStep(m, client, data, length, address, now))
  {
    if m.active && IsSidProcessable(data[0]) {
      var b := Begun(m, data, length, address);
      if IsResponse(b.req.si) {
        ClientPaired(b, client, now);
      } else {
        var i := InternalStep(b, client, now);
        assert Paired(i);
        if !HandledInternally(b, client) {
          ClientPaired(i, client, now);
        }
      }
    }
  }

  lemma ProcessPaired(s: Sess, now: Word)
    requires SessOk(s) && s.etmActive && !s.p2.Due(now)
    ensures SessProcess(s, now).etmActive
  {
    assert S3Step(s, now).p2 == s.p2;
  }

  lemma StepPaired(w: MgrWorld, a: MgrAction)
    requires MgrOk(w.m) && ActionOk(a, |w.m.pubBuff|) && Paired(w.m) && Orderly(w, a)
    ensures Paired(MgrNext(w, a).m)
  {
    var now := Now(w.clock);
    match a
    case Poll =>
      if w.m.sess.etmActive {
        ProcessPaired(w.m.sess, now);
      }
    case FromTransport(e, client) =>
      var s := IsoEventStep(w.m.sess, e, now);
      if IsIndication(w.m.sess, e.event, e.result) {
        IndicationPaired(w.m.(sess := s), client, e.payload, e.length, s.target, now);
      }
    case FromClient(c) => CallPaired(w.m, c, now);
    case _ =>
  }

  lemma {:induction false} RunPaired(w: MgrWorld, actions: seq<MgrAction>)
    requires MgrOk(w.m) && ActionsOk(actions, |w.m.pubBuff|) && Paired(w.m) && OrderlyRun(w, actions)
    ensures Paired(MgrRun(w, actions).m)
    decreases |actions|
  {
    if actions != [] {
      assert ActionOk(actions[0], |w.m.pubBuff|);
      StepPaired(w, actions[0]);
      RunPaired(MgrNext(w, actions[0]), actions[1..]);
    }
  }

  /** After every orderly run from a fresh manager, a message that arrives is answered as the
      tables say if no answer is pending, and not at all if one is. */
  lemma OrderlyRunsObeyTables(buf: seq<Byte>, currSession: Byte, clock: nat, actions: seq<MgrAction>, e: IsoEvent,
                              client: Client)
    requires |buf| >= 3 && ActionsOk(actions, |buf|) && ClientOk(client, |buf|)
    requires OrderlyRun(MgrWorld(NewMgr(buf, currSession, Now(clock)), clock), actions)
    requires e.event.Data? && e.result.OkR? && |e.payload| >= 2
    requires var m := MgrRun(MgrWorld(NewMgr(buf, currSession, Now(clock)), clock), actions).m;
             OneAnswer(m, client, e.payload, e.length, if e.address.Physical? then Phys else Func)
    ensures var w := MgrRun(MgrWorld(NewMgr(buf, currSession, Now(clock)), clock), actions);
            var r := TpEventStep(w.m, client, e, Now(w.clock));
            var address := if e.address.Physical? then Phys else Func;
            var o := Intended(w.m, client, e.payload, e.length, address);
            SentUnless(Requests(w.m.sess.log), Requests(r.sess.log), o,
                       w.m.sess.etmActive
                       || (o.Message? && Withheld(o.code, address,
                                                  e.payload[1] >= 128 && HasSubFunction(e.payload[0], client))))
  {
    var w0 := MgrWorld(NewMgr(buf, currSession, Now(clock)), clock);
    RunPaired(w0, actions);
    PairedObeysTables(MgrRun(w0, actions).m, e, client, Now(MgrRun(w0, actions).clock));
  }

  lemma PairedObeysTables(m: Mgr, e: IsoEvent, client: Client, now: Word)
    requires MgrOk(m) && Paired(m) && ClientOk(client, |m.pubBuff|)
    requires e.event.Data? && e.result.OkR? && |e.payload| >= 2
    requires OneAnswer(m, client, e.payload, e.length, if e.address.Physical? then Phys else Func)
    ensures var r := TpEventStep(m, client, e, now);
            var address := if e.address.Physical? then Phys else Func;
            var o := Intended(m, client, e.payload, e.length, address);
            SentUnless(Requests(m.sess.log), Requests(r.sess.log), o,
                       m.sess.etmActive
                       || (o.Message? && Withheld(o.code, address,
                                                  e.payload[1] >= 128 && HasSubFunction(e.payload[0], client))))
  {
    if !m.sess.etmActive {
      QuietEvent(m.sess, e, now);
      StandardResponseRule(m.(sess := IsoEventStep(m.sess, e, now)), client, e.payload, e.length,
                           if e.address.Physical? then Phys else Func, now);
    }
  }

  /** While the pending mode is on, polls and transport events neither change the request being
      worked on nor drop the flag. */
  lemma PendingKeepsRequest(m: Mgr, a: MgrAction, clock: nat)
    requires MgrOk(m) && ActionOk(a, |m.pubBuff|) && m.sess.etmActive && (a.Poll? || a.Tick? || a.FromTransport?)
    ensures var m' := MgrNext(MgrWorld(m, clock), a).m;
            m' == m.(sess := m'.sess)
  {
  }

  lemma {:induction false} PendingRun(w: MgrWorld, actions: seq<MgrAction>)
    requires MgrOk(w.m) && ActionsOk(actions, |w.m.pubBuff|) && w.m.sess.etmActive && PollsAndEvents(actions)
    requires OrderlyRun(w, actions)
    ensures var m' := MgrRun(w, actions).m;
            m' == w.m.(sess := m'.sess) && m'.sess.etmActive
    decreases |actions|
  {
    if actions != [] {
      var a := actions[0];
      assert ActionOk(a, |w.m.pubBuff|);
      PendingKeepsRequest(w.m, a, w.clock);
      if a.Poll? {
        ProcessPaired(w.m.sess, Now(w.clock));
      }
      PendingRun(MgrNext(w, a), actions[1..]);
    }
  }

  predicate PollsAndEvents(actions: seq<MgrAction>) {
    forall i :: 0 <= i < |actions| ==> actions[i].Poll? || actions[i].Tick? || actions[i].FromTransport?
  }

  /** After a granted StartPending and any time spent in the pending mode, a final refusal
      always goes out, for the right service and to functional requests too, and ends the mode. */
  lemma PendingRefusalGetsThrough(w: MgrWorld, duration: Word, interval: Word, actions: seq<MgrAction>, nrc: Byte)
    requires MgrOk(w.m) && ActionsOk(actions, |w.m.pubBuff|) && PollsAndEvents(actions)
    requires duration >= interval > 999 && nrc != PR
    requires OrderlyRun(MgrNext(w, FromClient(Pend(duration, interval))), actions)
    ensures var w1 := MgrRun(MgrNext(w, FromClient(Pend(duration, interval))), actions);
            var m' := CallStep(w1.m, Refuse(nrc), Now(w1.clock));
            && w1.m.sess.etmActive && !m'.sess.etmActive && !m'.nrcPending && !m'.sess.p2.active
            && Requests(m'.sess.log) == Requests(w1.m.sess.log) + [Negative(w.m.req.si, nrc)]
  {
    var w0 := MgrNext(w, FromClient(Pend(duration, interval)));
    PendingRun(w0, actions);
    var w1 := MgrRun(w0, actions);
    RefusalSends(w1.m, w1.m.req.si, nrc, Now(w1.clock));
  }

  /** A final positive answer goes out exactly if the request did not ask to suppress it; if it
      is withheld the pending mode stays on, and the request ends with 7F si 36 after all. */
  lemma PendingAnswerNeedsNoSuppression(m: Mgr, data: seq<Byte>, now: Word)
    requires MgrOk(m) && m.sess.etmActive && m.nrcOut == PR && data != []
    ensures var m' := CallStep(m, Answer(data), now);
            && (Requests(m'.sess.log) == Requests(m.sess.log) + [data] <==> !m.req.suppress)
            && (!m'.sess.etmActive <==> !m.req.suppress)
            && (m.req.suppress ==>
                  m'.sess == ModeStep(m.sess, m.currSession == DSC_LEV_DEFT, now))
  {
    ResponseSends(m, data, now);
  }

  /** A request that is ignored sends nothing, but whatever refusal came before it is forgotten: an
      answer the client gives afterwards counts as a positive one. */
  lemma IgnoredRequestForgetsRefusal(m: Mgr, client: Client, data: seq<Byte>, length: nat, address: TargetAddress,
                                     answer: seq<Byte>, now: Word)
    requires MgrOk(m) && |data| >= 2 && ClientOk(client, |m.pubBuff|) && answer != []
    requires !m.active || !Served(data[0])
    ensures var m1 := IndicationStep(m, client, data, length, address, now);
            && Requests(m1.sess.log) == Requests(m.sess.log)
            && (Requests(CallStep(m1, Answer(answer), now).sess.log) ==
                Requests(m.sess.log) + if m.req.suppress then [] else [answer])
  {
    SidBits(data[0]);
    ResponseSends(IndicationStep(m, client, data, length, address, now), answer, now);
  }

  /** A wait message the client sends itself lifts the suppression of its positive answer. */
  lemma WaitMessageLiftsSuppression(m: Mgr, client: Client, data: seq<Byte>, length: nat, address: TargetAddress,
                                    answer: seq<Byte>, now: Word)
    requires MgrOk(m) && |data| >= 2 && ClientOk(client, |m.pubBuff|) && answer != []
    requires !m.active || !Served(data[0])
    ensures var m1 := CallStep(m, Refuse(0x78), now);
            var m2 := IndicationStep(m1, client, data, length, address, now);
            && Requests(m1.sess.log) == Requests(m.sess.log) + [[0x7f, m.req.si, 0x78]]
            && Requests(CallStep(m2, Answer(answer), now).sess.log) == Requests(m1.sess.log) + [answer]
  {
    RefusalSends(m, m.req.si, 0x78, now);
    IgnoredRequestForgetsRefusal(CallStep(m, Refuse(0x78), now), client, data, length, address, answer, now);
  }

  /** A request for the pending mode that is not granted sends nothing but still sets the flag, so
      that the next refusal of a functional request goes out against the tables. */
  lemma UngrantedPendingSetsFlag(m: Mgr, duration: Word, interval: Word, now: Word)
    requires MgrOk(m) && !Granted(Pend(duration, interval))
    ensures CallStep(m, Pend(duration, interval), now) == m.(nrcPending := true)
  {
  }

  /** So does a pending mode that has run out of time: 7F si 36 goes out, but the flag stays. A
      functional request for an unknown service is then refused, once, where it should be met
      with silence. */
  lemma FlagSurvivesGivingUp(w: MgrWorld, si: Byte, client: Client, e: IsoEvent)
    requires MgrOk(w.m) && w.m.sess.etmActive && w.m.nrcPending && w.m.active && ClientOk(client, |w.m.pubBuff|)
    requires w.m.sess.p2.Due(Now(w.clock))
    requires e.event.Data? && e.result.OkR? && e.address.Functional? && |e.payload| >= 2 && e.payload[0] == si
    requires IsSidProcessable(si) && !IsResponse(si) && si != TP && client.supports(si).Unsupported?
    ensures var m1 := MgrProcess(w.m, Now(w.clock));
            var m2 := TpEventStep(m1, client, e, Now(w.clock));
            var m3 := TpEventStep(m2, client, e, Now(w.clock));
            && !m1.sess.etmActive && m1.nrcPending
            && Requests(m2.sess.log) == Requests(m1.sess.log) + [Negative(si, SNS)]
            && Requests(m3.sess.log) == Requests(m2.sess.log)
  {
    var now := Now(w.clock);
    var m1 := MgrProcess(w.m, now);
    assert !m1.sess.etmActive && m1.nrcPending;
    UnknownService(m1, si, client, e, now);
    var m2 := TpEventStep(m1, client, e, now);
    UnknownService(m2, si, client, e, now);
  }

  /** A functional request for an unknown service is refused exactly if the flag is set. */
  lemma UnknownService(m: Mgr, si: Byte, client: Client, e: IsoEvent, now: Word)
    requires MgrOk(m) && !m.sess.etmActive && m.active && ClientOk(client, |m.pubBuff|)
    requires e.event.Data? && e.result.OkR? && e.address.Functional? && |e.payload| >= 2 && e.payload[0] == si
    requires IsSidProcessable(si) && !IsResponse(si) && si != TP && client.supports(si).Unsupported?
    ensures var r := TpEventStep(m, client, e, now);
            && Requests(r.sess.log) == Requests(m.sess.log) + (if m.nrcPending then [Negative(si, SNS)] else [])
            && !r.nrcPending && !r.sess.etmActive && r.active
  {
    var a := m.(sess := IsoEventStep(m.sess, e, now));
    QuietEvent(m.sess, e, now);
    var b := Begun(a, e.payload, e.length, Func);
    RefusalSends(b, si, SNS, now);
    var i := InternalStep(b, client, now);
    assert i.pubBuff[..i.pubLen] == [];
  }
}
