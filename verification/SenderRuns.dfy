/** Whole runs of one sender: any sequence of polls, flow control frames, requests and clock
    ticks, against a bus that accepts or refuses as it likes. */
module SenderRuns {
  import opened IsoTpTypes
  import opened Timers
  import opened Pci
  import opened TpPort
  import opened Sender
  import opened Segmentation

  datatype TxAction = Poll | Flow(status: Byte, bs: Byte, st: Byte) | Tick | Ask(data: seq<Byte>)

  datatype TxWorld = TxWorld(tx: TxState, io: Io, clock: nat)

  predicate WorldOk(w: TxWorld, cfg: Config) {
    TxOk(w.tx, cfg) && cfg.candl >= 8
  }

  function PollWorld(w: TxWorld, cfg: Config): (r: TxWorld)
    requires WorldOk(w, cfg)
    ensures WorldOk(r, cfg)
  {
    var o := ProcessStep(w.tx, w.io, cfg, Now(w.clock));
    TxWorld(o.tx, o.io, w.clock)
  }

  function FlowWorld(w: TxWorld, cfg: Config, status: Byte, bs: Byte, st: Byte): (r: TxWorld)
    requires WorldOk(w, cfg)
    ensures WorldOk(r, cfg)
  {
    var o := FlowStep(w.tx, w.io, cfg, status, bs, st, Now(w.clock));
    TxWorld(o.tx, o.io, w.clock)
  }

  function AskWorld(w: TxWorld, cfg: Config, data: seq<Byte>): (r: TxWorld)
    requires WorldOk(w, cfg)
    ensures WorldOk(r, cfg)
  {
    var o := SendStep(w.tx, w.io, cfg, data, Now(w.clock));
    TxWorld(o.tx, o.io, w.clock)
  }

  function TxNext(w: TxWorld, cfg: Config, a: TxAction): (r: TxWorld)
    requires WorldOk(w, cfg)
    ensures WorldOk(r, cfg)
  {
    match a
    case Poll => PollWorld(w, cfg)
    case Flow(status, bs, st) => FlowWorld(w, cfg, status, bs, st)
    case Tick => w.(clock := w.clock + 1)
    case Ask(data) => AskWorld(w, cfg, data)
  }

  function TxRun(w: TxWorld, cfg: Config, actions: seq<TxAction>): (r: TxWorld)
    requires WorldOk(w, cfg)
    ensures WorldOk(r, cfg)
    decreases |actions|
  {
    if actions == [] then w else TxRun(TxNext(w, cfg, actions[0]), cfg, actions[1..])
  }

  predicate OnlyPolls(actions: seq<TxAction>) {
    forall i :: 0 <= i < |actions| ==> actions[i].Poll? || actions[i].Tick?
  }

  // ---- One transfer on a bus that takes every frame ----

  ghost predicate AlwaysAccepts(io: Io) {
    forall k :: io.accept(k)
  }

  lemma {:induction false} BurstLossless(tx: TxState, io: Io, cfg: Config, now: Word)
    requires tx.state == MfDt && TxOk(tx, cfg) && AlwaysAccepts(io)
    ensures Burst(tx, io, cfg, now).tx.state != MfDt
    decreases tx.size - tx.passed
  {
    assert io.accept(io.attempts);
    var t := Prepared(tx, cfg, now);
    var a := Advanced(t, ChunkLength(tx, cfg), io.Attempted(FrameOf(t.message, cfg)));
    if a.tx.state == MfDt {
      BurstLossless(a.tx, a.io, cfg, now);
    }
  }

  predicate NoRequests(actions: seq<TxAction>) {
    forall i :: 0 <= i < |actions| ==> !actions[i].Ask?
  }

  /** The number of OK_s confirmations in a log. */
  function Successes(log: seq<IsoEvent>): nat {
    if log == [] then 0
    else Successes(log[..|log| - 1]) + if log[|log| - 1] == TxEvent(OkS) then 1 else 0
  }

  lemma SuccessesLogged(io: Io, e: IsoEvent)
    ensures Successes(io.Logged(e).log) == Successes(io.log) + if e == TxEvent(OkS) then 1 else 0
  {
    assert (io.log + [e])[..|io.log|] == io.log;
  }

  /** Since the point `io0` the sender has been working on `p`: what it has sent and what it will
      send are together the message's frames; once it is idle, what it has sent is all of them
      exactly if it has confirmed success. */
  ghost predicate Transferring(io0: Io, w: TxWorld, cfg: Config, p: seq<Byte>)
    requires Sendable(p, cfg)
  {
    var m := |w.io.sent| - |io0.sent|;
    && AlwaysAccepts(w.io) && io0.sent <= w.io.sent && m >= 1
    && (w.tx.IsBusy() ==>
          && w.tx.state != SfDt
          && Sending(w.tx, cfg, p, m)
          && w.io.sent + Tail(p[w.tx.passed..], m, cfg) == io0.sent + Segments(p, cfg)
          && Successes(w.io.log) == Successes(io0.log))
    && (!w.tx.IsBusy() ==>
          && w.io.sent <= io0.sent + Segments(p, cfg)
          && Successes(w.io.log) == Successes(io0.log) + if w.io.sent == io0.sent + Segments(p, cfg) then 1 else 0)
  }

  /** The clock plays no part in that. */
  lemma TransferAnytime(io0: Io, w: TxWorld, clock: nat, cfg: Config, p: seq<Byte>)
    requires Sendable(p, cfg)
    ensures Transferring(io0, w, cfg, p) == Transferring(io0, w.(clock := clock), cfg, p)
  {
  }

  lemma SegmentsLength(p: seq<Byte>, cfg: Config)
    requires Sendable(p, cfg)
    ensures |Segments(p, cfg)| == 1 <==> DataHeader(|p|, cfg.candl).kind == SingleFrame
  {
    var rest := p[FirstLength(|p|, cfg.candl)..];
    assert rest == [] <==> DataHeader(|p|, cfg.candl).kind == SingleFrame;
  }

  /** Once a first frame is out the sender is inside the transfer of what it makes of `p`. */
  lemma AwaitingSends(tx: TxState, cfg: Config, p: seq<Byte>, now: Word)
    requires Sendable(p, cfg) && |p| <= |tx.txbuff| && DataHeader(|p|, cfg.candl).kind == FirstFrame
    ensures var t := Awaiting(FirstTried(tx, cfg, p), p, now);
            && Sending(t, cfg, Carried(tx.prevDataSent, p, cfg), 1)
            && t.passed == FirstLength(|p|, cfg.candl) > 0 && t.state == Wait && t.prevDataSent == tx.prevDataSent
  {
    FirstTriedFrame(tx, cfg, p);
    var t := Awaiting(FirstTried(tx, cfg, p), p, now);
    var q := Carried(tx.prevDataSent, p, cfg);
    var n, m := FirstLength(|p|, cfg.candl), SecondLength(p, cfg);
    assert ChunkLength(t, cfg) == m;
    if !tx.prevDataSent {
      assert t.message[..cfg.candl] == HeadFrame(p, cfg).data;
      assert t.message[1..1 + m] == HeadFrame(p, cfg).data[1..1 + m] == q[n..n + m];
    }
  }

  /** Its first frame is that of `p`. */
  lemma CarriedHead(flag: bool, p: seq<Byte>, cfg: Config)
    requires Sendable(p, cfg)
    ensures HeadFrame(Carried(flag, p, cfg), cfg) == HeadFrame(p, cfg)
  {
    var n := FirstLength(|p|, cfg.candl);
    assert Carried(flag, p, cfg)[..n] == p[..n];
  }

  lemma StartTransfer(w: TxWorld, cfg: Config, p: seq<Byte>)
    requires WorldOk(w, cfg) && Sendable(p, cfg) && |p| <= |w.tx.txbuff| && AlwaysAccepts(w.io)
    ensures Transferring(w.io, AskWorld(w, cfg, p), cfg, Carried(w.tx.prevDataSent, p, cfg))
  {
    assert w.io.accept(w.io.attempts);
    FirstTriedFrame(w.tx, cfg, p);
    if DataHeader(|p|, cfg.candl).kind == FirstFrame {
      AwaitingSends(w.tx, cfg, p, Now(w.clock));
      StartSegmented(w, cfg, p, AskWorld(w, cfg, p));
    } else {
      StartSingle(w, cfg, p, AskWorld(w, cfg, p));
    }
  }

  lemma StartSegmented(w: TxWorld, cfg: Config, p: seq<Byte>, w': TxWorld)
    requires Sendable(p, cfg) && DataHeader(|p|, cfg.candl).kind == FirstFrame && AlwaysAccepts(w.io)
    requires w'.io == w.io.Attempted(HeadFrame(p, cfg)) && w'.tx.state == Wait
    requires Sending(w'.tx, cfg, Carried(w.tx.prevDataSent, p, cfg), 1) && w'.tx.passed == FirstLength(|p|, cfg.candl)
    ensures Transferring(w.io, w', cfg, Carried(w.tx.prevDataSent, p, cfg))
  {
    assert w.io.accept(w.io.attempts);
    CarriedHead(w.tx.prevDataSent, p, cfg);
    var q := Carried(w.tx.prevDataSent, p, cfg);
    MoveHead(w.io.sent, HeadFrame(p, cfg), Tail(q[FirstLength(|p|, cfg.candl)..], 1, cfg));
  }

  lemma StartSingle(w: TxWorld, cfg: Config, p: seq<Byte>, w': TxWorld)
    requires Sendable(p, cfg) && DataHeader(|p|, cfg.candl).kind == SingleFrame && AlwaysAccepts(w.io)
    requires w'.io == w.io.Attempted(HeadFrame(p, cfg)).Logged(TxEvent(OkS)) && !w'.tx.IsBusy()
    ensures Transferring(w.io, w', cfg, Carried(w.tx.prevDataSent, p, cfg))
  {
    assert w.io.accept(w.io.attempts);
    SegmentsLength(p, cfg);
    assert Segments(p, cfg) == [HeadFrame(p, cfg)];
    SuccessesLogged(w.io.Attempted(HeadFrame(p, cfg)), TxEvent(OkS));
  }

  lemma BurstTransfer(io0: Io, w: TxWorld, cfg: Config, p: seq<Byte>, b: TxOut)
    requires Sendable(p, cfg) && Transferring(io0, w, cfg, p) && w.tx.IsBusy() && b.tx.state != MfDt
    requires w.tx.passed <= |p| && Emits(w.tx, w.io, b, cfg, p, |w.io.sent| - |io0.sent|)
    ensures Transferring(io0, TxWorld(b.tx, b.io, w.clock), cfg, p)
  {
    assert b.io.accept == w.io.accept;
    if !b.tx.IsBusy() {
      SuccessesLogged(w.io, TxEvent(OkS));
      assert b.io.sent + [] == b.io.sent;
    }
  }

  /** After a loop with the As timer off the poll does nothing else. */
  lemma PolledBurst(w: TxWorld, cfg: Config)
    requires WorldOk(w, cfg) && w.tx.state == MfDt && !Burst(w.tx, w.io, cfg, Now(w.clock)).tx.nAs.active
    ensures var b := Burst(w.tx, w.io, cfg, Now(w.clock)); PollWorld(w, cfg) == TxWorld(b.tx, b.io, w.clock)
  {
  }

  lemma PollTransfer(io0: Io, w: TxWorld, cfg: Config, p: seq<Byte>)
    requires WorldOk(w, cfg) && Sendable(p, cfg) && Transferring(io0, w, cfg, p)
    ensures Transferring(io0, PollWorld(w, cfg), cfg, p)
  {
    if w.tx.state == MfDt {
      PollBurstTransfer(io0, w, cfg, p);
    } else if w.tx.state == Wait && w.tx.nBs.Due(Now(w.clock)) {
      StopTransfer(io0, w, cfg, p, PollWorld(w, cfg), TimeoutBs);
    }
  }

  lemma PollBurstTransfer(io0: Io, w: TxWorld, cfg: Config, p: seq<Byte>)
    requires WorldOk(w, cfg) && Sendable(p, cfg) && Transferring(io0, w, cfg, p) && w.tx.state == MfDt
    ensures Transferring(io0, PollWorld(w, cfg), cfg, p)
  {
    var now := Now(w.clock);
    BurstEmits(w.tx, w.io, cfg, now, p, |w.io.sent| - |io0.sent|);
    BurstLossless(w.tx, w.io, cfg, now);
    PolledBurst(w, cfg);
    BurstTransfer(io0, w, cfg, p, Burst(w.tx, w.io, cfg, now));
  }

  /** A transfer that ends without success has not sent everything. */
  lemma StopTransfer(io0: Io, w: TxWorld, cfg: Config, p: seq<Byte>, w': TxWorld, result: NResult)
    requires WorldOk(w, cfg) && Sendable(p, cfg) && Transferring(io0, w, cfg, p) && result != OkS
    requires !w'.tx.IsBusy() && w'.io == w.io.Logged(TxEvent(result))
    ensures Transferring(io0, w', cfg, p)
  {
    SuccessesLogged(w.io, TxEvent(result));
    if w.tx.IsBusy() {
      assert p[w.tx.passed..] != [];
    }
  }

  lemma {:induction false} TransferRun(io0: Io, w: TxWorld, cfg: Config, p: seq<Byte>, actions: seq<TxAction>)
    requires WorldOk(w, cfg) && Sendable(p, cfg) && Transferring(io0, w, cfg, p) && NoRequests(actions)
    ensures Transferring(io0, TxRun(w, cfg, actions), cfg, p)
    decreases |actions|
  {
    if actions != [] {
      var w' := TxNext(w, cfg, actions[0]);
      match actions[0] {
        case Poll => PollTransfer(io0, w, cfg, p);
        case Flow(status, bs, st) => FlowTransfer(io0, w, cfg, p, status, bs, st);
        case Tick =>
      }
      TransferRun(io0, w', cfg, p, actions[1..]);
    }
  }

  lemma FlowTransfer(io0: Io, w: TxWorld, cfg: Config, p: seq<Byte>, status: Byte, bs: Byte, st: Byte)
    requires WorldOk(w, cfg) && Sendable(p, cfg) && Transferring(io0, w, cfg, p)
    ensures Transferring(io0, FlowWorld(w, cfg, status, bs, st), cfg, p)
  {
    var w' := FlowWorld(w, cfg, status, bs, st);
    FlowSummary(w, cfg, status, bs, st);
    if w'.tx.IsBusy() {
      SameTransfer(io0, w, cfg, p, w');
    } else {
      StopTransfer(io0, w, cfg, p, w', w'.io.log[|w.io.log|].result);
    }
  }

  /** A flow control either lets the transfer go on as it is or ends it with one report. */
  lemma FlowSummary(w: TxWorld, cfg: Config, status: Byte, bs: Byte, st: Byte)
    requires WorldOk(w, cfg)
    ensures var w' := FlowWorld(w, cfg, status, bs, st);
            if w'.tx.IsBusy() then w.tx.IsBusy() && SamePlace(w.tx, w'.tx) && w'.io == w.io
            else |w'.io.log| == |w.io.log| + 1 &&
                 w'.io == w.io.Logged(TxEvent(w'.io.log[|w.io.log|].result)) && w'.io.log[|w.io.log|].result != OkS
  {
  }

  /** Two states of a sender at the same place of the same payload. */
  predicate SamePlace(tx: TxState, tx': TxState) {
    && tx'.passed == tx.passed && tx'.size == tx.size && tx'.sn == tx.sn && tx'.txbuff == tx.txbuff
    && tx'.message == tx.message && tx'.prevDataSent == tx.prevDataSent
  }

  lemma SameTransfer(io0: Io, w: TxWorld, cfg: Config, p: seq<Byte>, w': TxWorld)
    requires WorldOk(w, cfg) && WorldOk(w', cfg) && Sendable(p, cfg) && Transferring(io0, w, cfg, p)
    requires w.tx.IsBusy() && w'.tx.IsBusy() && SamePlace(w.tx, w'.tx) && w'.io == w.io
    ensures Transferring(io0, w', cfg, p)
  {
  }

  /** After a request, under every sequence of polls, ticks and flow control frames - valid or
      not - the frames on the bus are a prefix of the message's frames, and they are all of
      them exactly when success has been confirmed, which happens once. The message is `p` unless
      the last consecutive frame before the request was refused; then it is what `Carried` says. */
  lemma SenderRefinesSegments(w: TxWorld, cfg: Config, p: seq<Byte>, actions: seq<TxAction>)
    requires WorldOk(w, cfg) && Sendable(p, cfg) && |p| <= |w.tx.txbuff|
    requires AlwaysAccepts(w.io) && NoRequests(actions)
    ensures var w' := TxRun(TxNext(w, cfg, Ask(p)), cfg, actions);
            var q := Carried(w.tx.prevDataSent, p, cfg);
            && w.io.sent <= w'.io.sent <= w.io.sent + Segments(q, cfg)
            && Successes(w'.io.log) - Successes(w.io.log) ==
               if w'.io.sent == w.io.sent + Segments(q, cfg) then 1 else 0
  {
    StartTransfer(w, cfg, p);
    var w1 := TxNext(w, cfg, Ask(p));
    var q := Carried(w.tx.prevDataSent, p, cfg);
    TransferRun(w.io, w1, cfg, q, actions);
    var w' := TxRun(w1, cfg, actions);
    if w'.tx.IsBusy() {
      assert q[w'.tx.passed..] != [];
      assert |Tail(q[w'.tx.passed..], |w'.io.sent| - |w.io.sent|, cfg)| > 0;
    }
  }
}
