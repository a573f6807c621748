/** Which requests are answered, and how (src/uds/session/uds-app-manager.cpp): the response
    rules of ISO 14229-1, tables 4 to 7, for every request and every client. */
module ResponseRules {
  import opened IsoTpTypes
  import opened Timers
  import opened Session
  import opened SessionRuns
  import opened Manager

  /** What a request is to be answered with; `code` is the negative response code, 0 for a
      positive response. */
  datatype Outcome = Nothing | Message(bytes: seq<Byte>, code: Byte)

  // ---- What the rules intend, in bytes ----

  /** Bit 6 tells a response from a request. */
  predicate Bit6(sid: Byte) {
    sid % 128 >= 64
  }

  /** The identifiers the manager serves: those of requests, the same with bit 6 set, and the
      negative response. */
  predicate Served(sid: Byte) {
    0x01 <= sid <= 0x3e || 0x83 <= sid <= 0x88 || 0xba <= sid <= 0xbe ||
    0x41 <= sid <= 0x7e || 0xc3 <= sid <= 0xc8 || 0xfa <= sid <= 0xfe || sid == 0x7f
  }

  /** The answer a client gives by calling the manager. */
  function OwnAnswer(calls: seq<ClientCall>, si: Byte): Outcome
    decreases |calls|
  {
    if calls == [] then Nothing
    else match calls[0]
      case Answer(data) => if data != [] then Message(data, 0) else OwnAnswer(calls[1..], si)
      case Refuse(nrc) => Message([0x7f, si, nrc], nrc)
      case RefuseFor(sid, nrc) => Message([0x7f, sid, nrc], nrc)
      case _ => OwnAnswer(calls[1..], si)
  }

  /** The response buffer and its used length once the client has filled it. */
  function Loaded(buf: seq<Byte>, length: nat, calls: seq<ClientCall>): (r: (seq<Byte>, nat))
    requires length <= |buf| && CallsOk(calls, |buf|)
    ensures r.1 <= |r.0| == |buf|
    decreases |calls|
  {
    if calls == [] then (buf, length)
    else
      assert CallOk(calls[0], |buf|);
      match calls[0]
      case Load(at, bytes, n) => Loaded(Overlay(buf, at, bytes), n, calls[1..])
      case _ => Loaded(buf, length, calls[1..])
  }

  predicate IsAnswer(c: ClientCall) {
    (c.Answer? && c.data != []) || c.Refuse? || c.RefuseFor?
  }

  predicate NoAnswers(calls: seq<ClientCall>) {
    forall i :: 0 <= i < |calls| ==> !IsAnswer(calls[i]) && !calls[i].Pend?
  }

  /** At most one of the calls answers, and none asks for the pending mode. */
  predicate AtMostOneAnswer(calls: seq<ClientCall>)
    decreases |calls|
  {
    calls != [] ==>
      !calls[0].Pend? && if IsAnswer(calls[0]) then NoAnswers(calls[1..]) else AtMostOneAnswer(calls[1..])
  }

  /** The client answers at most once: by a call, or by leaving the manager something to send. */
  predicate AnswersOnce(info: Indication, reaction: Reaction, length: nat) {
    && AtMostOneAnswer(reaction.calls)
    && (OwnAnswer(reaction.calls, info.si).Message? ==>
          match reaction.result
          case HandledRespOk => length == 0
          case NotHandled => Bit6(info.si) || info.address != Phys
          case _ => true)
  }

  /** What a client that does so is to have sent; an unhandled request is refused if it was
      addressed to this node alone. */
  function ClientOutcome(info: Indication, reaction: Reaction, buf: seq<Byte>, length: nat): Outcome
    requires length <= |buf|
  {
    var own := OwnAnswer(reaction.calls, info.si);
    if own.Message? then own
    else match reaction.result
      case HandledRespOk => if length == 0 then Nothing else Message(buf[..length], 0)
      case NotHandled =>
        if Bit6(info.si) || info.address != Phys then Nothing else Message([0x7f, info.si, 0x11], 0x11)
      case _ => Nothing
  }

  /** Whether the service of a request has a sub-function, and with it a suppress bit. */
  predicate HasSubFunction(si: Byte, client: Client) {
    si == 0x3e || Bit6(si) || (client.supports(si).Supported? && client.supports(si).subFunc)
  }

  /** The request as a client is shown it. */
  function Shown(data: seq<Byte>, length: nat, address: TargetAddress, client: Client): Indication
    requires |data| >= 2
  {
    Indication(data, length, address, data[0], data[1] % 128, data[1] >= 128 && HasSubFunction(data[0], client))
  }

  /** The response buffer as a client finds it: the positive response identifier - the request's
      with bit 6 set - and the request's second byte are already there. */
  function Offered(buf: seq<Byte>, data: seq<Byte>): seq<Byte>
    requires |data| >= 2
  {
    Overlay(buf, 0, [if Bit6(data[0]) then data[0] else data[0] + 0x40, data[1]])
  }

  /** The requests the manager answers by itself: TesterPresent, unknown services and requests
      that are too short. */
  predicate ByManager(client: Client, data: seq<Byte>, length: nat)
    requires |data| >= 2
  {
    var support := client.supports(data[0]);
    data[0] == 0x3e || (!Bit6(data[0]) && (support.Unsupported? || length < support.minLength))
  }

  function ManagerOutcome(client: Client, data: seq<Byte>, length: nat): Outcome
    requires |data| >= 2
  {
    var si := data[0];
    if si == 0x3e then
      if data[1] % 128 != 0 then Message([0x7f, 0x3e, 0x12], 0x12)
      else if length != 2 then Message([0x7f, 0x3e, 0x13], 0x13)
      else Message([0x7e, data[1]], 0)
    else if client.supports(si).Unsupported? then Message([0x7f, si, 0x11], 0x11)
    else Message([0x7f, si, 0x13], 0x13)
  }

  /** What is to be sent for a request, before any suppression. */
  function Intended(m: Mgr, client: Client, data: seq<Byte>, length: nat, address: TargetAddress): Outcome
    requires MgrOk(m) && |data| >= 2 && ClientOk(client, |m.pubBuff|)
  {
    if !m.active || !Served(data[0]) then Nothing
    else if ByManager(client, data, length) then ManagerOutcome(client, data, length)
    else
      var info := Shown(data, length, address, client);
      var reaction := client.handle(info);
      var (buf, n) := Loaded(Offered(m.pubBuff, data), 0, reaction.calls);
      ClientOutcome(info, reaction, buf, n)
  }

  /** The answers that are withheld: to functional requests, the refusals that would come from
      every node that does not know the service; and positive ones if the request says so. */
  predicate Withheld(code: Byte, address: TargetAddress, suppressed: bool) {
    (address == Func && code in [0x11, 0x12, 0x31, 0x7e, 0x7f]) || (code == 0 && suppressed)
  }

  /** `after` is `before` and the outcome's message, unless that is withheld. */
  predicate SentUnless(before: seq<seq<Byte>>, after: seq<seq<Byte>>, o: Outcome, withheld: bool) {
    after == before + if o.Nothing? || withheld then [] else [o.bytes]
  }

  // ---- What the manager does ----

  /** The manager's own suppression rule, which a pending response lifts for functional requests. */
  predicate Held(m: Mgr, code: Byte) {
    (m.req.address == Func && !m.nrcPending && Suppressible(code)) || (code == PR && m.req.suppress)
  }

  lemma ResponseEffect(m: Mgr, data: seq<Byte>, now: Word)
    requires data != []
    ensures var r := ResponseStep(m, data, now);
            && r.sess.log == (if Held(m, m.nrcOut) then m.sess.log else m.sess.log + [Sent(data)])
            && !r.nrcPending && r.pubLen == m.pubLen && r.req.address == m.req.address && r.req.si == m.req.si
  {
  }

  lemma ResponseSends(m: Mgr, data: seq<Byte>, now: Word)
    requires MgrOk(m) && data != []
    ensures var r := ResponseStep(m, data, now);
            && SentUnless(Requests(m.sess.log), Requests(r.sess.log), Message(data, m.nrcOut), Held(m, m.nrcOut))
            && !r.nrcPending && r.pubLen == m.pubLen && r.req.address == m.req.address && r.req.si == m.req.si
  {
    ResponseEffect(m, data, now);
    LoggedSends(m.sess.log, ResponseStep(m, data, now).sess.log, data, m.nrcOut, Held(m, m.nrcOut));
  }

  lemma LoggedSends(before: seq<SessEvent>, after: seq<SessEvent>, data: seq<Byte>, code: Byte, held: bool)
    requires after == if held then before else before + [Sent(data)]
    ensures SentUnless(Requests(before), Requests(after), Message(data, code), held)
  {
    RequestsAppend(before, Sent(data));
  }

  lemma RefusalSends(m: Mgr, sid: Byte, nrc: Byte, now: Word)
    requires MgrOk(m)
    ensures var r := NegResponseStep(m, sid, nrc, now);
            && SentUnless(Requests(m.sess.log), Requests(r.sess.log), Message(Negative(sid, nrc), nrc), Held(m, nrc))
            && !r.nrcPending && r.pubLen == m.pubLen && r.req.address == m.req.address && r.req.si == m.req.si
  {
    ResponseSends(m.(pubBuff := Overlay(m.pubBuff, 0, Negative(sid, nrc)), nrcOut := nrc), Negative(sid, nrc), now);
  }

  /** One call that is no answer. */
  lemma PlainCall(m: Mgr, c: ClientCall, now: Word)
    requires MgrOk(m) && CallOk(c, |m.pubBuff|) && !IsAnswer(c) && !c.Pend?
    ensures var r := CallStep(m, c, now);
            && Requests(r.sess.log) == Requests(m.sess.log)
            && r.req == m.req && r.nrcOut == m.nrcOut && r.nrcPending == m.nrcPending
            && (r.pubBuff, r.pubLen) ==
                 if c.Load? then (Overlay(m.pubBuff, c.at, c.bytes), c.length) else (m.pubBuff, m.pubLen)
  {
    if c.ServiceSession? {
      RequestsAppend(m.sess.log, SessionChange(c.value == DSC_LEV_DEFT));
    }
  }

  lemma {:induction false} PlainCalls(m: Mgr, calls: seq<ClientCall>, now: Word)
    requires MgrOk(m) && CallsOk(calls, |m.pubBuff|) && NoAnswers(calls)
    ensures var r := CallsStep(m, calls, now);
            && Requests(r.sess.log) == Requests(m.sess.log)
            && r.req == m.req && r.nrcOut == m.nrcOut && r.nrcPending == m.nrcPending
            && (r.pubBuff, r.pubLen) == Loaded(m.pubBuff, m.pubLen, calls)
    ensures OwnAnswer(calls, m.req.si).Nothing?
    decreases |calls|
  {
    if calls != [] {
      assert CallOk(calls[0], |m.pubBuff|);
      PlainCall(m, calls[0], now);
      PlainCalls(CallStep(m, calls[0], now), calls[1..], now);
    }
  }

  /** The call that answers. */
  lemma AnsweringCall(m: Mgr, c: ClientCall, now: Word)
    requires MgrOk(m) && CallOk(c, |m.pubBuff|) && IsAnswer(c) && m.nrcOut == PR
    ensures var r := CallStep(m, c, now);
            var o := OwnAnswer([c], m.req.si);
            && o.Message?
            && SentUnless(Requests(m.sess.log), Requests(r.sess.log), o, Held(m, o.code))
            && r.pubLen == m.pubLen && r.req.address == m.req.address && r.req.si == m.req.si
  {
    match c
    case Answer(data) => ResponseSends(m, data, now);
    case Refuse(nrc) => RefusalSends(m, m.req.si, nrc, now);
    case RefuseFor(sid, nrc) => RefusalSends(m, sid, nrc, now);
  }

  /** The buffer length does not depend on what the buffer holds. */
  lemma {:induction false} LoadedLength(buf: seq<Byte>, other: seq<Byte>, length: nat, calls: seq<ClientCall>)
    requires length <= |buf| == |other| && CallsOk(calls, |buf|)
    ensures Loaded(buf, length, calls).1 == Loaded(other, length, calls).1
    decreases |calls|
  {
    if calls != [] {
      assert CallOk(calls[0], |buf|);
      match calls[0]
      case Load(at, bytes, n) => LoadedLength(Overlay(buf, at, bytes), Overlay(other, at, bytes), n, calls[1..]);
      case _ => LoadedLength(buf, other, length, calls[1..]);
    }
  }

  /** A client's calls, of which at most one answers. */
  lemma {:induction false} OneAnswerSent(m: Mgr, calls: seq<ClientCall>, now: Word)
    requires MgrOk(m) && CallsOk(calls, |m.pubBuff|) && AtMostOneAnswer(calls) && m.nrcOut == PR
    ensures var r := CallsStep(m, calls, now);
            var o := OwnAnswer(calls, m.req.si);
            && SentUnless(Requests(m.sess.log), Requests(r.sess.log), o, o.Message? && Held(m, o.code))
            && r.req.address == m.req.address && r.req.si == m.req.si
            && r.pubLen == Loaded(m.pubBuff, m.pubLen, calls).1
            && (o.Nothing? ==> r.pubBuff == Loaded(m.pubBuff, m.pubLen, calls).0 && r.req == m.req
                               && r.nrcOut == PR && r.nrcPending == m.nrcPending)
    decreases |calls|
  {
    if calls != [] {
      var c, rest := calls[0], calls[1..];
      assert CallOk(c, |m.pubBuff|);
      var m1 := CallStep(m, c, now);
      if IsAnswer(c) {
        AnsweringCall(m, c, now);
        PlainCalls(m1, rest, now);
        LoadedLength(m1.pubBuff, m.pubBuff, m.pubLen, rest);
      } else {
        PlainCall(m, c, now);
        OneAnswerSent(m1, rest, now);
      }
    }
  }

  /** The request as given to a client, and what comes of it. */
  lemma ClientSends(m: Mgr, client: Client, now: Word)
    requires MgrOk(m) && ClientOk(client, |m.pubBuff|) && m.nrcOut == PR && m.pubLen == 0
    requires AnswersOnce(m.req, client.handle(m.req), Loaded(m.pubBuff, 0, client.handle(m.req).calls).1)
    ensures var r := ClientStep(m, client, now);
            var calls := client.handle(m.req).calls;
            var (buf, n) := Loaded(m.pubBuff, 0, calls);
            var o := ClientOutcome(m.req, client.handle(m.req), buf, n);
            SentUnless(Requests(m.sess.log), Requests(r.sess.log), o, o.Message? && Held(m, o.code))
  {
    var reaction := client.handle(m.req);
    OneAnswerSent(m, reaction.calls, now);
    SidBits(m.req.si);
    var c := CallsStep(m, reaction.calls, now);
    if OwnAnswer(reaction.calls, m.req.si).Nothing? {
      ResultSends(m.req, c, client, now);
    }
  }

  /** The manager's part when the client's calls have not answered: `c` is what they left. */
  lemma ResultSends(req: Indication, c: Mgr, client: Client, now: Word)
    requires MgrOk(c) && c.req == req && c.nrcOut == PR
    ensures var result := client.handle(req).result;
            var r := ResultStep(c, !IsResponse(req.si), result, now);
            var o := if result.HandledRespOk? && c.pubLen > 0 then Message(c.pubBuff[..c.pubLen], 0)
                     else if result.NotHandled? && !Bit6(req.si) && req.address == Phys
                     then Message([0x7f, req.si, 0x11], 0x11)
                     else Nothing;
            SentUnless(Requests(c.sess.log), Requests(r.sess.log), o, o.Message? && Held(c, o.code))
  {
    SidBits(req.si);
    if client.handle(req).result.NotHandled? {
      RefusalSends(c, req.si, SNS, now);
    } else if client.handle(req).result.HandledRespOk? && c.pubLen > 0 {
      ResponseSends(c, c.pubBuff[..c.pubLen], now);
    }
  }

  /** The byte ranges are the identifiers as the manager tells them apart. */
  lemma SidBits(sid: Byte)
    ensures IsResponse(sid) <==> Bit6(sid)
    ensures IsSidProcessable(sid) <==> Served(sid)
    ensures ToResponse(sid) == if Bit6(sid) then sid else sid + 0x40
  {
  }

  /** The condition under which the manager's rule departs from the standard's: the flag of an
      earlier StartPending is still set. */
  predicate Lifted(m: Mgr, code: Byte, address: TargetAddress) {
    m.nrcPending && address == Func && code in [0x11, 0x12, 0x31, 0x7e, 0x7f]
  }

  /** The client's reaction to this request, if it is asked at all, answers at most once. */
  ghost predicate OneAnswer(m: Mgr, client: Client, data: seq<Byte>, length: nat, address: TargetAddress)
    requires MgrOk(m) && |data| >= 2 && ClientOk(client, |m.pubBuff|)
  {
    var info := Shown(data, length, address, client);
    AnswersOnce(info, client.handle(info), Loaded(Offered(m.pubBuff, data), 0, client.handle(info).calls).1)
  }

  lemma InternalSends(m: Mgr, client: Client, now: Word)
    requires MgrOk(m) && |m.req.data| >= 2 && m.pubLen == 0 && m.nrcOut == PR
    requires !IsResponse(m.req.si) && HandledInternally(m, client)
    requires m.req.si == m.req.data[0] && m.req.sf == m.req.data[1] % 128
    requires m.pubBuff[..2] == [ToResponse(m.req.si), m.req.data[1]]
    ensures var i := InternalStep(m, client, now);
            var r := Published(i, now);
            var o := ManagerOutcome(client, m.req.data, m.req.size);
            SentUnless(Requests(m.sess.log), Requests(r.sess.log), o, Held(m, o.code))
  {
    var i := InternalStep(m, client, now);
    if m.req.si == TP && m.req.sf == 0 && m.req.size == 2 {
      assert i.pubBuff[..i.pubLen] == [0x7e, m.req.data[1]];
      ResponseSends(i, i.pubBuff[..i.pubLen], now);
    } else {
      RefusalSends(m, m.req.si,
                   if m.req.si == TP then if m.req.sf != 0 then SFNS else IMLOIF
                   else if client.supports(m.req.si).Unsupported? then SNS else IMLOIF, now);
      assert i.pubBuff[..i.pubLen] == [];
    }
  }

  /** For every request and every client that answers at most once: at most one message reaches
      the transport layer, and it is the intended one. It is withheld exactly when the tables
      say so, except that the flag of an earlier StartPending lifts the functional rule. */
  lemma ResponseRule(m: Mgr, client: Client, data: seq<Byte>, length: nat, address: TargetAddress, now: Word)
    requires MgrOk(m) && |data| >= 2 && ClientOk(client, |m.pubBuff|)
    requires OneAnswer(m, client, data, length, address)
    ensures var r := IndicationStep(m, client, data, length, address, now);
            var o := Intended(m, client, data, length, address);
            var suppressed := data[1] >= 128 && HasSubFunction(data[0], client);
            SentUnless(Requests(m.sess.log), Requests(r.sess.log), o,
                       o.Message? && Withheld(o.code, address, suppressed) && !Lifted(m, o.code, address))
  {
    if m.active && IsSidProcessable(data[0]) {
      if !IsResponse(data[0]) && HandledInternally(Begun(m, data, length, address), client) {
        ManagerAnswers(m, client, data, length, address, now);
      } else {
        ClientAnswers(m, client, data, length, address, now);
      }
    }
  }

  lemma ManagerAnswers(m: Mgr, client: Client, data: seq<Byte>, length: nat, address: TargetAddress, now: Word)
    requires MgrOk(m) && |data| >= 2 && ClientOk(client, |m.pubBuff|)
    requires !IsResponse(data[0]) && HandledInternally(Begun(m, data, length, address), client)
    requires m.active && IsSidProcessable(data[0])
    ensures var b := Begun(m, data, length, address);
            var r := IndicationStep(m, client, data, length, address, now);
            var o := Intended(m, client, data, length, address);
            && SentUnless(Requests(m.sess.log), Requests(r.sess.log), o, o.Message? && Held(b, o.code))
            && (o.Message? && o.code == PR ==> data[0] == TP)
  {
    var b := Begun(m, data, length, address);
    SidBits(data[0]);
    assert b.pubBuff[..2] == [ToResponse(data[0]), data[1]];
    assert ByManager(client, data, length) && Intended(m, client, data, length, address).Message?;
    InternalSends(b, client, now);
  }

  lemma ClientAnswers(m: Mgr, client: Client, data: seq<Byte>, length: nat, address: TargetAddress, now: Word)
    requires MgrOk(m) && |data| >= 2 && ClientOk(client, |m.pubBuff|)
    requires OneAnswer(m, client, data, length, address)
    requires IsResponse(data[0]) || !HandledInternally(Begun(m, data, length, address), client)
    requires m.active && IsSidProcessable(data[0])
    ensures var i := Begun(m, data, length, address).(req := Shown(data, length, address, client));
            var r := IndicationStep(m, client, data, length, address, now);
            var o := Intended(m, client, data, length, address);
            SentUnless(Requests(m.sess.log), Requests(r.sess.log), o, o.Message? && Held(i, o.code))
  {
    var b := Begun(m, data, length, address);
    var i := if IsResponse(data[0]) then b else InternalStep(b, client, now);
    assert i == b.(req := Shown(data, length, address, client));
    ClientSends(i, client, now);
  }

  /** Without that flag the tables hold as they stand. */
  lemma StandardResponseRule(m: Mgr, client: Client, data: seq<Byte>, length: nat, address: TargetAddress, now: Word)
    requires MgrOk(m) && |data| >= 2 && ClientOk(client, |m.pubBuff|) && !m.nrcPending
    requires OneAnswer(m, client, data, length, address)
    ensures var r := IndicationStep(m, client, data, length, address, now);
            var o := Intended(m, client, data, length, address);
            SentUnless(Requests(m.sess.log), Requests(r.sess.log), o,
                       o.Message? && Withheld(o.code, address, data[1] >= 128 && HasSubFunction(data[0], client)))
  {
    ResponseRule(m, client, data, length, address, now);
  }

  /** A client that leaves the first byte of the response buffer alone and the sending to the
      manager. */
  predicate FillsIn(calls: seq<ClientCall>) {
    NoAnswers(calls) && forall i :: 0 <= i < |calls| && calls[i].Load? ==> calls[i].at >= 1
  }

  lemma {:induction false} FirstByteStays(buf: seq<Byte>, length: nat, calls: seq<ClientCall>)
    requires length <= |buf| && |buf| >= 1 && CallsOk(calls, |buf|) && FillsIn(calls)
    ensures Loaded(buf, length, calls).0[0] == buf[0]
    decreases |calls|
  {
    if calls != [] {
      assert CallOk(calls[0], |buf|);
      if calls[0].Load? {
        FirstByteStays(Overlay(buf, calls[0].at, calls[0].bytes), calls[0].length, calls[1..]);
      } else {
        FirstByteStays(buf, length, calls[1..]);
      }
    }
  }

  lemma {:induction false} FillersAnswerOnce(calls: seq<ClientCall>, si: Byte)
    requires FillsIn(calls)
    ensures AtMostOneAnswer(calls) && OwnAnswer(calls, si).Nothing?
    decreases |calls|
  {
    if calls != [] {
      FillersAnswerOnce(calls[1..], si);
    }
  }

  /** Whatever request arrives and however such a client fills in the rest, what is sent for it, if
      anything, is one message that begins with the request's identifier plus 0x40, or with 0x7f
      and the identifier. */
  lemma AnswersIdentifyRequest(m: Mgr, client: Client, data: seq<Byte>, length: nat, address: TargetAddress, now: Word)
    requires MgrOk(m) && |data| >= 2 && data[0] % 128 < 64 && ClientOk(client, |m.pubBuff|)
    requires FillsIn(client.handle(Shown(data, length, address, client)).calls)
    ensures var r := IndicationStep(m, client, data, length, address, now);
            var o := Intended(m, client, data, length, address);
            && (Requests(r.sess.log) == Requests(m.sess.log) ||
                (o.Message? && Requests(r.sess.log) == Requests(m.sess.log) + [o.bytes]))
            && (o.Message? ==>
                  && |o.bytes| >= 1
                  && (if o.code == 0 then o.bytes[0] == data[0] + 0x40 else o.bytes == [0x7f, data[0], o.code]))
  {
    FillersAnswerOnce(client.handle(Shown(data, length, address, client)).calls, data[0]);
    IntendedIdentifies(m, client, data, length, address);
    ResponseRule(m, client, data, length, address, now);
  }

  lemma IntendedIdentifies(m: Mgr, client: Client, data: seq<Byte>, length: nat, address: TargetAddress)
    requires MgrOk(m) && |data| >= 2 && data[0] % 128 < 64 && ClientOk(client, |m.pubBuff|)
    requires FillsIn(client.handle(Shown(data, length, address, client)).calls)
    ensures var o := Intended(m, client, data, length, address);
            o.Message? ==>
              && |o.bytes| >= 1
              && (if o.code == 0 then o.bytes[0] == data[0] + 0x40 else o.bytes == [0x7f, data[0], o.code])
  {
    var calls := client.handle(Shown(data, length, address, client)).calls;
    FillersAnswerOnce(calls, data[0]);
    FirstByteStays(Offered(m.pubBuff, data), 0, calls);
  }
}
