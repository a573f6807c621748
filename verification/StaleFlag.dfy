/** What a refused consecutive frame does to the next message: the flag that keeps its bytes in the
    frame buffer is not reset when the transfer is given up (src/uds/isotp/docan-sender.cpp:85-141). */
module StaleFlag {
  import opened IsoTpTypes
  import opened Timers
  import opened Pci
  import opened TpPort
  import opened Sender
  import opened Segmentation
  import opened SenderRuns
  import opened SenderRate

  // ---- When the flag is not set ----

  /** At most the last attempt of a loop is refused, and the flag says whether it was. */
  lemma {:induction false} BurstFlag(tx: TxState, io: Io, cfg: Config, now: Word)
    requires tx.state == MfDt && TxOk(tx, cfg)
    ensures var b := Burst(tx, io, cfg, now);
            && b.io.attempts > io.attempts
            && (b.io.attempts - io.attempts) - (|b.io.sent| - |io.sent|) == if b.tx.prevDataSent then 0 else 1
    decreases tx.size - tx.passed
  {
    var t := Prepared(tx, cfg, now);
    var a := Advanced(t, ChunkLength(tx, cfg), io.Attempted(FrameOf(t.message, cfg)));
    if io.Accepts() && a.tx.state == MfDt {
      BurstFlag(a.tx, a.io, cfg, now);
    }
  }

  /** The transmission attempts of a step that the bus refused. */
  function Refused(w: TxWorld, w': TxWorld): int {
    (w'.io.attempts - w.io.attempts) - (|w'.io.sent| - |w.io.sent|)
  }

  /** The flag is written by polls in the state MfDt only, and then says whether the last attempt
      was taken; the end of a transfer, new requests and first frames leave it alone. */
  lemma FlagWritten(w: TxWorld, cfg: Config, a: TxAction)
    requires WorldOk(w, cfg)
    ensures var w' := TxNext(w, cfg, a);
            w'.tx.prevDataSent <==> if a.Poll? && w.tx.state == MfDt then Refused(w, w') == 0 else w.tx.prevDataSent
  {
    if a.Poll? && w.tx.state == MfDt {
      BurstFlag(w.tx, w.io, cfg, Now(w.clock));
    }
  }

  /** A bus that refuses a consecutive frame until the As timer has run out: the transfer is
      given up and reported, and leaves the flag not set. */
  lemma RefusalThenTimeout(w: TxWorld, cfg: Config)
    requires WorldOk(w, cfg) && w.tx.state == MfDt && !w.tx.nAs.active && !w.tx.nAs.endless && w.tx.nAs.period > 0
    requires !w.io.accept(w.io.attempts) && !w.io.accept(w.io.attempts + 1)
    ensures var w' := TxRun(w, cfg, [Poll] + Ticks(w.tx.nAs.period) + [Poll]);
            && !w'.tx.IsBusy() && !w'.tx.prevDataSent
            && w'.io.log == w.io.log + [TxEvent(TimeoutAs)] && w'.io.sent == w.io.sent
  {
    var period := w.tx.nAs.period;
    var w1 := PollWorld(w, cfg);
    DueNeverEarly(TimerState(period, Now(w.clock), true, false), w.clock, w.clock);
    assert w1.tx.nAs == TimerState(period, Now(w.clock), true, false);
    var w2 := w1.(clock := w1.clock + period);
    DueNeverEarly(w2.tx.nAs, w.clock, w2.clock);
    var rest := Ticks(period) + [Poll];
    assert [Poll] + Ticks(period) + [Poll] == [Poll] + rest && ([Poll] + rest)[1..] == rest;
    TicksThen(w1, cfg, period, [Poll]);
    OnePoll(w2, cfg);
  }

  lemma OnePoll(w: TxWorld, cfg: Config)
    requires WorldOk(w, cfg)
    ensures TxRun(w, cfg, [Poll]) == PollWorld(w, cfg)
  {
    assert [Poll][1..] == [];
  }

  // ---- What it does to the next message ----

  /** The first consecutive frame of the next segmented message carries bytes of that message's
      own first frame, with the number that is due. */
  lemma FirstPartStale(w: TxWorld, cfg: Config, p: seq<Byte>, now: Word)
    requires WorldOk(w, cfg) && Sendable(p, cfg) && |p| <= |w.tx.txbuff| && w.io.Accepts()
    requires DataHeader(|p|, cfg.candl).kind == FirstFrame && !w.tx.prevDataSent
    ensures var t := Prepared(AskWorld(w, cfg, p).tx, cfg, now);
            FrameOf(t.message, cfg) == CfFrame(HeadFrame(p, cfg).data[1..1 + SecondLength(p, cfg)], 1, cfg)
  {
    AwaitingSends(w.tx, cfg, p, Now(w.clock));
    var t := AskWorld(w, cfg, p).tx;
    assert t == Awaiting(FirstTried(w.tx, cfg, p), p, Now(w.clock));
    PreparedFrame(t, cfg, Carried(false, p, cfg), 1, now);
  }

  /** Whether the part that takes the place of the second one happens to be that part. */
  predicate Coincides(p: seq<Byte>, cfg: Config)
    requires Sendable(p, cfg)
  {
    var n, m := FirstLength(|p|, cfg.candl), SecondLength(p, cfg);
    DataHeader(|p|, cfg.candl).kind == FirstFrame ==> HeadFrame(p, cfg).data[1..1 + m] == p[n..n + m]
  }

  lemma FirstPartOf(q: seq<Byte>, cfg: Config)
    requires Sendable(q, cfg) && DataHeader(|q|, cfg.candl).kind == FirstFrame
    ensures var n, m := FirstLength(|q|, cfg.candl), SecondLength(q, cfg);
            |Segments(q, cfg)| >= 2 && Segments(q, cfg)[1].data[1..1 + m] == q[n..n + m]
  {
    var n, m := FirstLength(|q|, cfg.candl), SecondLength(q, cfg);
    var rest := q[n..];
    assert rest != [] && rest[..m] == q[n..n + m];
    assert Segments(q, cfg)[1] == CfFrame(rest[..m], 1, cfg);
  }

  /** The frames of a message are right if and only if the flag is set, the message needs no
      consecutive frame, or the bytes coincide. */
  lemma FramesRightIff(flag: bool, p: seq<Byte>, cfg: Config)
    requires Sendable(p, cfg)
    ensures Segments(Carried(flag, p, cfg), cfg) == Segments(p, cfg) <==> flag || Coincides(p, cfg)
    ensures Carried(flag, p, cfg) == p <==> flag || Coincides(p, cfg)
  {
    if !flag && DataHeader(|p|, cfg.candl).kind == FirstFrame {
      var n, m := FirstLength(|p|, cfg.candl), SecondLength(p, cfg);
      PartReplaced(p, n, m, HeadFrame(p, cfg).data[1..1 + m]);
      SegmentsTell(Carried(flag, p, cfg), p, cfg);
    }
  }

  lemma PartReplaced(p: seq<Byte>, n: nat, m: nat, part: seq<Byte>)
    requires n + m <= |p| && |part| == m
    ensures p[..n] + part + p[n + m..] == p <==> part == p[n..n + m]
  {
    assert (p[..n] + part + p[n + m..])[n..n + m] == part;
    assert p == p[..n] + p[n..n + m] + p[n + m..];
  }

  /** Two messages that differ in the second part have different frames. */
  lemma SegmentsTell(q: seq<Byte>, p: seq<Byte>, cfg: Config)
    requires Sendable(p, cfg) && |q| == |p| && DataHeader(|p|, cfg.candl).kind == FirstFrame
    requires var n, m := FirstLength(|p|, cfg.candl), SecondLength(p, cfg); q == p[..n] + q[n..n + m] + p[n + m..]
    ensures Sendable(q, cfg) && (Segments(q, cfg) == Segments(p, cfg) <==> q == p)
  {
    var n, m := FirstLength(|p|, cfg.candl), SecondLength(p, cfg);
    FirstPartOf(p, cfg);
    FirstPartOf(q, cfg);
    PartReplaced(p, n, m, q[n..n + m]);
  }

  /** A message that arrives wrong: twenty zeros, in eight-byte frames. */
  lemma ZerosArriveWrong(cfg: Config)
    requires cfg.candl == 8
    ensures Sendable(Fill(0, 20), cfg) && Carried(false, Fill(0, 20), cfg) != Fill(0, 20)
  {
    var p := Fill(0, 20);
    assert HeadFrame(p, cfg).data[1] == 20;
    assert HeadFrame(p, cfg).data[1..1 + SecondLength(p, cfg)][0] == 20;
    FramesRightIff(false, p, cfg);
  }
}
