/** The receiver against whatever arrives: any sequence of eight-byte frames with any contents,
    polls and clock ticks (src/uds/isotp/docan-receiver.cpp:7-125). */
module ReceiverRuns {
  import opened IsoTpTypes
  import opened Timers
  import opened Pci
  import opened TpPort
  import opened Receiver

  datatype RxAction = Arrive(data: seq<Byte>) | RxPoll | RxTick

  datatype RxWorld = RxWorld(rx: RxState, io: Io, clock: nat)

  function RxNext(w: RxWorld, cfg: Config, a: RxAction): RxWorld {
    match a
    case Arrive(data) =>
      var o := ReceiveStep(w.rx, w.io, cfg, data, Now(w.clock));
      RxWorld(o.rx, o.io, w.clock)
    case RxPoll =>
      var o := ProcessRxStep(w.rx, w.io, Now(w.clock));
      RxWorld(o.rx, o.io, w.clock)
    case RxTick => w.(clock := w.clock + 1)
  }

  function RxRun(w: RxWorld, cfg: Config, actions: seq<RxAction>): RxWorld
    decreases |actions|
  {
    if actions == [] then w else RxRun(RxNext(w, cfg, actions[0]), cfg, actions[1..])
  }

  /** All frames have the classic length. */
  predicate EightBytes(a: RxAction) {
    a.Arrive? ==> |a.data| == 8
  }

  /** Bookkeeping about the latest accepted first frame: the payload bytes it carried, the
      length it announced, the consecutive frames taken since, the flow controls tried since
      (including its own). */
  datatype Reception = Reception(first: nat, announced: nat, taken: nat, flows: nat)

  predicate IsAcceptedFirst(w: RxWorld, a: RxAction) {
    a.Arrive? && var m := Unpack(a.data); m.pcilen > 0 && m.kind.FF? && MIN_FF_CANDL <= m.kind.dlen <= |w.rx.rxbuff|
  }

  predicate IsTaken(w: RxWorld, a: RxAction) {
    a.Arrive? && var m := Unpack(a.data); m.kind.CF? && w.rx.IsBusy() && m.kind.sn == w.rx.expectsn % 16
  }

  function ReceptionNext(c: Reception, w: RxWorld, cfg: Config, a: RxAction): Reception {
    if IsAcceptedFirst(w, a) then
      var m := Unpack(a.data);
      Reception(|a.data| - m.pcilen, m.kind.dlen, 0, Tries(w, RxNext(w, cfg, a)))
    else if IsTaken(w, a) then c.(taken := c.taken + 1, flows := c.flows + Tries(w, RxNext(w, cfg, a)))
    else c
  }

  /** Transmission attempts of one step. */
  function Tries(w: RxWorld, w': RxWorld): nat {
    if w'.io.attempts >= w.io.attempts then w'.io.attempts - w.io.attempts else 0
  }

  function ReceptionRun(c: Reception, w: RxWorld, cfg: Config, actions: seq<RxAction>): Reception
    decreases |actions|
  {
    if actions == [] then c
    else ReceptionRun(ReceptionNext(c, w, cfg, actions[0]), RxNext(w, cfg, actions[0]), cfg, actions[1..])
  }

  /** `flows` flow controls, one at the start and one after each full block of `limit` frames,
      leave `part` frames in the current block. */
  predicate Blocks(taken: nat, flows: nat, part: nat, limit: nat) {
    flows >= 1 && taken == (flows - 1) * limit + part && part < limit
  }

  /** While a reception is on, all its counters follow from the number of consecutive frames taken. */
  ghost predicate Counted(c: Reception, w: RxWorld) {
    w.rx.IsBusy() ==>
      && (c.first == 2 || c.first == 6)
      && w.rx.passed == c.first + 7 * c.taken < w.rx.rxsize
      && w.rx.rxsize == c.announced <= |w.rx.rxbuff|
      && w.rx.expectsn == (c.taken + 1) % 256
      && Blocks(c.taken, c.flows, w.rx.currblkn, BlockLimit(w.rx.blksize))
  }

  lemma BlocksNext(taken: nat, flows: nat, part: nat, limit: nat)
    requires Blocks(taken, flows, part, limit)
    ensures part + 1 < limit ==> Blocks(taken + 1, flows, part + 1, limit)
    ensures part + 1 >= limit ==> Blocks(taken + 1, flows + 1, 0, limit)
  {
    OneMore(flows - 1, limit);
  }

  lemma BlocksQuotient(taken: nat, flows: nat, part: nat, limit: nat)
    requires Blocks(taken, flows, part, limit)
    ensures flows == 1 + taken / limit && part == taken % limit
  {
    QuotientAtLeast(flows - 1, taken, limit);
    var q := taken / limit;
    assert taken == q * limit + taken % limit;
    if q > flows - 1 {
      assert q * limit >= flows * limit by { Monotone(flows, q, limit); }
      OneMore(flows - 1, limit);
    }
  }

  lemma Monotone(a: nat, b: nat, k: nat)
    requires a <= b
    ensures a * k <= b * k
  {
  }

  lemma FirstCounted(c: Reception, w: RxWorld, cfg: Config, a: RxAction)
    requires EightBytes(a) && IsAcceptedFirst(w, a)
    ensures Counted(ReceptionNext(c, w, cfg, a), RxNext(w, cfg, a))
    ensures RxNext(w, cfg, a).rx.blksize == w.rx.blksize
  {
    HeaderInsideFrame(a.data);
    var w' := RxNext(w, cfg, a);
    assert w'.io.attempts == w.io.attempts + 1;
  }

  lemma TakenCounted(c: Reception, w: RxWorld, cfg: Config, a: RxAction)
    requires EightBytes(a) && IsTaken(w, a) && Counted(c, w)
    ensures var c' := ReceptionNext(c, w, cfg, a);
            var w' := RxNext(w, cfg, a);
            && Counted(c', w')
            && (!w'.rx.IsBusy() ==>
                  && c'.announced <= c.first + 7 * c'.taken < c'.announced + 7
                  && c'.flows == c.flows
                  && w'.io.log == w.io.log + [RxEvent(Data, OkR, Assembled(w'.rx), c.announced)])
            && (w'.rx.IsBusy() ==> w'.io.log == w.io.log)
  {
    BlocksNext(c.taken, c.flows, w.rx.currblkn, BlockLimit(w.rx.blksize));
    NextExpected(c.taken, w.rx.expectsn);
  }

  lemma NextExpected(taken: nat, sn: Byte)
    requires sn == (taken + 1) % 256
    ensures Inc8(sn) == (taken + 2) % 256
  {
  }

  lemma OtherCounted(c: Reception, w: RxWorld, cfg: Config, a: RxAction)
    requires !IsAcceptedFirst(w, a) && !IsTaken(w, a) && Counted(c, w)
    ensures Counted(ReceptionNext(c, w, cfg, a), RxNext(w, cfg, a))
  {
    if a.Arrive? {
      HeaderInsideFrame(a.data);
    }
  }

  lemma {:induction false} CountedRun(c: Reception, w: RxWorld, cfg: Config, actions: seq<RxAction>)
    requires Counted(c, w) && forall i :: 0 <= i < |actions| ==> EightBytes(actions[i])
    ensures Counted(ReceptionRun(c, w, cfg, actions), RxRun(w, cfg, actions))
    decreases |actions|
  {
    if actions != [] {
      var a := actions[0];
      assert EightBytes(a);
      if IsAcceptedFirst(w, a) {
        FirstCounted(c, w, cfg, a);
      } else if IsTaken(w, a) {
        TakenCounted(c, w, cfg, a);
      } else {
        OtherCounted(c, w, cfg, a);
      }
      CountedRun(ReceptionNext(c, w, cfg, a), RxNext(w, cfg, a), cfg, actions[1..]);
    }
  }

  /** Every copy of the run stays inside the receive buffer. Past one that does not, the source
      has overwritten memory of which the model knows nothing. */
  predicate CopiesInside(w: RxWorld, cfg: Config, actions: seq<RxAction>)
    decreases |actions|
  {
    actions != [] ==>
      && (actions[0].Arrive? ==> CopyInside(w.rx, actions[0].data))
      && CopiesInside(RxNext(w, cfg, actions[0]), cfg, actions[1..])
  }

  /** However frames arrive at an initially idle receiver: while a reception is on after n
      consecutive frames, passed = f + 7n < rxsize with f 2 or 6, expectsn = (n + 1) mod 256,
      currblkn = n mod BS and 1 + n / BS flow controls have been tried (BS 0 counting as 1). */
  lemma ReceiverInvariant(w: RxWorld, cfg: Config, c0: Reception, actions: seq<RxAction>)
    requires !w.rx.IsBusy() && forall i :: 0 <= i < |actions| ==> EightBytes(actions[i])
    requires CopiesInside(w, cfg, actions)
    ensures var c := ReceptionRun(c0, w, cfg, actions);
            var rx := RxRun(w, cfg, actions).rx;
            rx.IsBusy() ==>
              && (c.first == 2 || c.first == 6)
              && rx.passed == c.first + 7 * c.taken < rx.rxsize == c.announced <= |rx.rxbuff|
              && rx.expectsn == (c.taken + 1) % 256
              && rx.currblkn == c.taken % BlockLimit(rx.blksize)
              && c.flows == 1 + c.taken / BlockLimit(rx.blksize)
  {
    CountedRun(c0, w, cfg, actions);
    var c := ReceptionRun(c0, w, cfg, actions);
    var rx := RxRun(w, cfg, actions).rx;
    if rx.IsBusy() {
      BlocksQuotient(c.taken, c.flows, rx.currblkn, BlockLimit(rx.blksize));
    }
  }

  /** A segmented message is delivered only with the length its first frame announced and the
      bytes assembled, after exactly ceil((length - f) / 7) consecutive frames, and 1 + (n - 1) / BS
      flow controls have been tried for these n frames. */
  lemma CompletionExact(w: RxWorld, cfg: Config, c0: Reception, actions: seq<RxAction>, a: RxAction)
    requires !w.rx.IsBusy() && EightBytes(a) && forall i :: 0 <= i < |actions| ==> EightBytes(actions[i])
    requires CopiesInside(w, cfg, actions)
    requires var w1 := RxRun(w, cfg, actions); IsTaken(w1, a) && !RxNext(w1, cfg, a).rx.IsBusy()
    ensures var w1 := RxRun(w, cfg, actions);
            var c := ReceptionNext(ReceptionRun(c0, w, cfg, actions), w1, cfg, a);
            && c.taken == (c.announced - c.first + 6) / 7
            && c.flows == 1 + (c.taken - 1) / BlockLimit(w1.rx.blksize)
            && var w2 := RxNext(w1, cfg, a);
               && w2.io.log == w1.io.log + [RxEvent(Data, OkR, Assembled(w2.rx), c.announced)]
               && c.announced <= |w2.rx.rxbuff| && Assembled(w2.rx) == w2.rx.rxbuff[..c.announced]
  {
    CountedRun(c0, w, cfg, actions);
    var w1 := RxRun(w, cfg, actions);
    var c1 := ReceptionRun(c0, w, cfg, actions);
    TakenCounted(c1, w1, cfg, a);
    BlocksQuotient(c1.taken, c1.flows, w1.rx.currblkn, BlockLimit(w1.rx.blksize));
    var c := ReceptionNext(c1, w1, cfg, a);
    var x := c.announced - c.first;
    assert 7 * c.taken - 7 < x <= 7 * c.taken;
  }

  /** Nothing but an in-order consecutive frame that completes the announced length, or a
      single frame, is ever delivered. */
  lemma DeliveryNeedsCompletion(w: RxWorld, cfg: Config, a: RxAction)
    requires RxOk(w.rx) && (a.Arrive? ==> FrameOk(a.data))
    ensures var w' := RxNext(w, cfg, a);
            forall i :: |w.io.log| <= i < |w'.io.log| && w'.io.log[i].event == Data && w'.io.log[i].result == OkR ==>
                          a.Arrive? && var m := Unpack(a.data);
                            (m.kind.SF? && w'.io.log[i].length == m.kind.dlen) ||
                            (IsTaken(w, a) && w'.rx.passed == w'.rx.rxsize == w'.io.log[i].length)
  {
    if a.Arrive? {
      HeaderInsideFrame(a.data);
    }
  }
}
