/** A transfer on a line gets done: every useful step brings it nearer to its end, there is
    always a useful step until then, and at the end both clients have been told exactly once. */
module Completion {
  import opened IsoTpTypes
  import opened Timers
  import opened Pci
  import opened TpPort
  import opened Sender
  import opened Receiver
  import opened Segmentation
  import opened SenderRuns
  import opened SenderRate
  import opened Reassembly
  import opened Line
  import opened Lockstep

  /** Nothing is on the way and the sender neither sends nor pauses. */
  predicate Quiet(l: Line) {
    && l.dataRead == |l.txIo.sent| && l.flowRead == |l.rxIo.sent|
    && l.tx.state != MfDt && l.tx.state != Pause
  }

  /** What the sending client is told about `p` in the end. */
  function SenderVerdict(p: seq<Byte>, k: Link, room: nat): seq<IsoEvent>
    requires Sendable(p, k.near)
  {
    if Segmented(p, k.near) && |p| > room then [TxEvent(BufferOvflw)] else [TxEvent(OkS)]
  }

  /** What the receiving client is told about `p` in the end. */
  function ReceiverVerdict(p: seq<Byte>, k: Link, room: nat): seq<IsoEvent>
    requires Sendable(p, k.near)
  {
    if !Segmented(p, k.near) then [RxEvent(Data, OkR, p, |p|)]
    else if |p| > room then []
    else [RxEvent(DataFF, OkR, [], |p|), RxEvent(Data, OkR, p, |p|)]
  }

  /** In step and with nothing left to do, the transfer is over. */
  lemma QuietIsDone(l: Line, k: Link, p: seq<Byte>, t: Terms)
    requires Lock(l, k, p, t) && Quiet(l)
    ensures !l.tx.IsBusy() && !l.rx.IsBusy()
    ensures l.txIo.log == SenderVerdict(p, k, |l.rx.rxbuff|) && l.rxIo.log == ReceiverVerdict(p, k, |l.rx.rxbuff|)
  {
    if Segmented(p, k.near) && |p| <= |l.rx.rxbuff| {
      SentPrefix(l, k, p);
      assert BlockLock(l, k, p, t);
    }
  }

  /** In step, neither side has been told anything but the good news of the transfer so far. */
  lemma NothingUnexpected(l: Line, k: Link, p: seq<Byte>, t: Terms)
    requires Lock(l, k, p, t)
    ensures l.txIo.log <= SenderVerdict(p, k, |l.rx.rxbuff|) && l.rxIo.log <= ReceiverVerdict(p, k, |l.rx.rxbuff|)
  {
  }

  // ---- Progress ----

  function Rank(state: DtState): nat {
    match state
    case Pause => 2
    case MfDt => 1
    case _ => 0
  }

  /** Work left: frames unsent, frames and flow controls on the way, the state of the sender. */
  function Work(l: Line, k: Link, p: seq<Byte>): int
    requires Sendable(p, k.near)
  {
    6 * (|Segments(p, k.near)| - |l.txIo.sent|) + 4 * (|l.txIo.sent| - l.dataRead) +
    3 * (|l.rxIo.sent| - l.flowRead) + Rank(l.tx.state)
  }

  /** An action that moves the transfer on, as opposed to a poll too early or a look at an empty queue. */
  predicate Useful(l: Line, a: LineAction) {
    match a
    case ReadData(_) => l.dataRead < |l.txIo.sent|
    case ReadFlow(_) => l.flowRead < |l.rxIo.sent|
    case PollTx(now) => l.tx.state == MfDt || (l.tx.state == Pause && l.tx.stMin.Due(now))
    case PollRx(_) => false
  }

  lemma WorkBounded(l: Line, k: Link, p: seq<Byte>, t: Terms)
    requires Lock(l, k, p, t)
    ensures Work(l, k, p) >= 0
  {
    SentPrefix(l, k, p);
  }

  lemma PollWorks(l: Line, k: Link, p: seq<Byte>, t: Terms, now: Word)
    requires Lock(l, k, p, t) && OnTime(LineNext(l, k, PollTx(now)))
    ensures var w := Work(LineNext(l, k, PollTx(now)), k, p);
            if Useful(l, PollTx(now)) then w < Work(l, k, p) else w == Work(l, k, p)
  {
    if l.tx.state == MfDt {
      BurstLossless(l.tx, l.txIo, k.near, now);
      SafeSending(l, k, p);
      BurstEmits(l.tx, l.txIo, k.near, now, p, |l.txIo.sent|);
      PollBurst(l, k, now);
    } else {
      LoggedTimeout(l.txIo.log, TxEvent(TimeoutBs));
    }
  }

  lemma ReadWorks(l: Line, k: Link, p: seq<Byte>, t: Terms, now: Word)
    requires Lock(l, k, p, t)
    ensures var w := Work(LineNext(l, k, ReadData(now)), k, p);
            if Useful(l, ReadData(now)) then w < Work(l, k, p) else w == Work(l, k, p)
  {
    ReceiveSendsOne(l.rx, l.rxIo, k.far, if l.dataRead < |l.txIo.sent| then l.txIo.sent[l.dataRead].data else [], now);
  }

  lemma ReceiveSendsOne(rx: RxState, io: Io, cfg: Config, data: seq<Byte>, now: Word)
    ensures var r := ReceiveStep(rx, io, cfg, data, now); |io.sent| <= |r.io.sent| <= |io.sent| + 1
  {
  }

  lemma FlowWorks(l: Line, k: Link, p: seq<Byte>, t: Terms, now: Word)
    requires Lock(l, k, p, t)
    ensures var w := Work(LineNext(l, k, ReadFlow(now)), k, p);
            if Useful(l, ReadFlow(now)) then w < Work(l, k, p) else w == Work(l, k, p)
  {
    if l.flowRead < |l.rxIo.sent| {
      if |p| > |l.rx.rxbuff| {
        FlowFrameBytes(FlowOverflow, 0, 0, k.far);
      } else {
        assert l.rxIo.sent[l.flowRead] == FlowFrame(FlowCts, t.bs, t.st, k.far);
        FlowFrameBytes(FlowCts, t.bs, t.st, k.far);
      }
      assert l.tx.state == Wait;
    }
  }

  /** A useful step takes work away, any other leaves it as it is. */
  lemma UsefulStepsProgress(l: Line, k: Link, p: seq<Byte>, t: Terms, a: LineAction)
    requires Lock(l, k, p, t) && OnTime(LineNext(l, k, a))
    ensures var w := Work(LineNext(l, k, a), k, p);
            if Useful(l, a) then w < Work(l, k, p) else w == Work(l, k, p)
  {
    match a
    case PollTx(now) => PollWorks(l, k, p, t, now);
    case PollRx(now) =>
    case ReadFlow(now) => FlowWorks(l, k, p, t, now);
    case ReadData(now) => ReadWorks(l, k, p, t, now);
  }

  function UsefulSteps(l: Line, k: Link, actions: seq<LineAction>): nat
    requires TxOk(l.tx, k.near)
    decreases |actions|
  {
    if actions == [] then 0
    else (if Useful(l, actions[0]) then 1 else 0) + UsefulSteps(LineNext(l, k, actions[0]), k, actions[1..])
  }

  lemma {:induction false} WorkRun(l: Line, k: Link, p: seq<Byte>, t: Terms, actions: seq<LineAction>)
    requires Lock(l, k, p, t) && AlwaysAccepts(l.rxIo) && OnTime(LineRun(l, k, actions))
    ensures UsefulSteps(l, k, actions) + Work(LineRun(l, k, actions), k, p) <= Work(l, k, p)
    decreases |actions|
  {
    if actions != [] {
      var l1 := LineNext(l, k, actions[0]);
      StartOnTime(l1, k, actions[1..]);
      UsefulStepsProgress(l, k, p, t, actions[0]);
      LockNext(l, k, p, t, actions[0]);
      WorkRun(l1, k, p, t, actions[1..]);
    }
  }

  /** The end of a pause: the tick at which a running timer is due. */
  lemma PauseEnds(t: TimerState)
    requires t.active
    ensures t.Due(Wrap(t.start + t.period))
  {
    var now := Wrap(t.start + t.period);
    if t.start + t.period < WORD_RANGE {
      assert Wrap(now - t.start) == t.period;
    } else {
      assert now == t.start + t.period - WORD_RANGE;
      assert Wrap(now - t.start) == t.period;
    }
  }

  /** As long as anything is left to do, some action is useful. */
  function NextUseful(l: Line): LineAction {
    if l.dataRead < |l.txIo.sent| then ReadData(0)
    else if l.flowRead < |l.rxIo.sent| then ReadFlow(0)
    else PollTx(Wrap(l.tx.stMin.start + l.tx.stMin.period))
  }

  lemma AlwaysUseful(l: Line, k: Link, p: seq<Byte>, t: Terms)
    requires Lock(l, k, p, t) && !Quiet(l)
    ensures Useful(l, NextUseful(l))
  {
    if l.tx.state == Pause {
      PauseEnds(l.tx.stMin);
    }
  }

  /** A transfer in step can always be brought to its end without any timer running out. */
  lemma {:induction false} CanComplete(l: Line, k: Link, p: seq<Byte>, t: Terms) returns (actions: seq<LineAction>)
    requires Lock(l, k, p, t) && AlwaysAccepts(l.rxIo)
    ensures Quiet(LineRun(l, k, actions)) && OnTime(LineRun(l, k, actions))
    decreases Work(l, k, p)
  {
    if Quiet(l) {
      actions := [];
      LockIsOnTime(l, k, p, t);
    } else {
      var a := NextUseful(l);
      AlwaysUseful(l, k, p, t);
      UsefulOnTime(l, k, p, t, a);
      UsefulStepsProgress(l, k, p, t, a);
      LockNext(l, k, p, t, a);
      var l1 := LineNext(l, k, a);
      WorkBounded(l1, k, p, t);
      var rest := CanComplete(l1, k, p, t);
      actions := [a] + rest;
      assert actions[1..] == rest;
    }
  }

  lemma LockIsOnTime(l: Line, k: Link, p: seq<Byte>, t: Terms)
    requires Lock(l, k, p, t)
    ensures OnTime(l)
  {
    NothingUnexpected(l, k, p, t);
  }

  /** A useful action runs no timer out. */
  lemma UsefulOnTime(l: Line, k: Link, p: seq<Byte>, t: Terms, a: LineAction)
    requires Lock(l, k, p, t) && Useful(l, a) && AlwaysAccepts(l.rxIo)
    ensures OnTime(LineNext(l, k, a))
  {
    LockIsOnTime(l, k, p, t);
    match a
    case PollTx(now) =>
      if l.tx.state == MfDt {
        BurstOnTime(l, k, p, t, now);
      }
    case ReadFlow(now) =>
      LockReadFlow(l, k, p, t, now);
      LockIsOnTime(LineNext(l, k, a), k, p, t);
    case ReadData(now) =>
      LockReadData(l, k, p, t, now);
      LockIsOnTime(LineNext(l, k, a), k, p, t);
  }

  lemma BurstOnTime(l: Line, k: Link, p: seq<Byte>, t: Terms, now: Word)
    requires Lock(l, k, p, t) && l.tx.state == MfDt && OnTime(l)
    ensures OnTime(LineNext(l, k, PollTx(now)))
  {
    BurstLossless(l.tx, l.txIo, k.near, now);
    SafeSending(l, k, p);
    BurstEmits(l.tx, l.txIo, k.near, now, p, |l.txIo.sent|);
    PollBurst(l, k, now);
  }

  lemma {:induction false} RoomKept(l: Line, k: Link, actions: seq<LineAction>)
    requires TxOk(l.tx, k.near)
    ensures |LineRun(l, k, actions).rx.rxbuff| == |l.rx.rxbuff|
    decreases |actions|
  {
    if actions != [] {
      RoomKept(LineNext(l, k, actions[0]), k, actions[1..]);
    }
  }

  // ---- The main results about a line ----

  /** In every run: nothing but the payload is ever delivered, and at most once. */
  lemma LineDelivery(l: Line, k: Link, p: seq<Byte>, actions: seq<LineAction>)
    requires Started(l, k, p)
    ensures var r := LineRun(l, k, actions); Delivered(r.rxIo.log) == [] || Delivered(r.rxIo.log) == [p]
  {
    StartedSafe(l, k, p);
    SafeRun(l, k, p, actions);
  }

  /** In every run without a timeout: both sides have been told nothing but what belongs to the
      transfer; the number of useful steps is bounded beforehand; and once nothing is left to
      do, the transfer has been confirmed exactly once and the payload delivered exactly once
      (or, if it exceeds the receive buffer, refused exactly once). */
  lemma LineCompletion(l: Line, k: Link, p: seq<Byte>, actions: seq<LineAction>)
    requires Started(l, k, p) && OnTime(LineRun(l, k, actions))
    ensures var r := LineRun(l, k, actions);
            var room := |l.rx.rxbuff|;
            && r.txIo.log <= SenderVerdict(p, k, room) && r.rxIo.log <= ReceiverVerdict(p, k, room)
            && UsefulSteps(l, k, actions) <= 6 * |Segments(p, k.near)|
            && (Quiet(r) ==> r.txIo.log == SenderVerdict(p, k, room) && r.rxIo.log == ReceiverVerdict(p, k, room))
  {
    var t := Terms(l.rx.blksize, l.rx.stmin);
    var r := LineRun(l, k, actions);
    StartedLock(l, k, p);
    LockRun(l, k, p, t, actions);
    WorkRun(l, k, p, t, actions);
    WorkBounded(r, k, p, t);
    NothingUnexpected(r, k, p, t);
    RoomKept(l, k, actions);
    if Quiet(r) {
      QuietIsDone(r, k, p, t);
    }
  }
}
