/** How many flow controls a segmented transfer takes: the receiver's count of blocks and the
    sender's count of waits agree at every step (src/uds/isotp/docan-receiver.cpp:45-97,
    src/uds/isotp/docan-sender.cpp:33-119). */
module FlowCount {
  import opened IsoTpTypes
  import opened Timers
  import opened Pci
  import opened TpPort
  import opened Sender
  import opened Receiver
  import opened Segmentation
  import opened SenderRuns
  import opened Reassembly
  import opened ReceiverRuns
  import opened Line
  import opened Lockstep

  predicate EntersWait(l: Line, r: Line) {
    l.tx.state != Wait && r.tx.state == Wait
  }

  /** How often the sender comes to wait during a run. */
  function Waits(l: Line, k: Link, actions: seq<LineAction>): nat
    requires TxOk(l.tx, k.near)
    decreases |actions|
  {
    if actions == [] then 0
    else
      var l1 := LineNext(l, k, actions[0]);
      (if EntersWait(l, l1) then 1 else 0) + Waits(l1, k, actions[1..])
  }

  /** A segmented message that fits, in step. */
  ghost predicate Under(l: Line, k: Link, p: seq<Byte>, t: Terms) {
    Lock(l, k, p, t) && Segmented(p, k.near) && |p| <= |l.rx.rxbuff|
  }

  /** `waits` waits so far: one for each flow control read, and the one that goes on. The flow
      controls sent are those of the first frame and of each full block. */
  ghost predicate Tally(l: Line, k: Link, p: seq<Byte>, t: Terms, waits: nat)
    requires Sendable(p, k.near)
  {
    var n, total, flows := l.dataRead, |Segments(p, k.near)|, |l.rxIo.sent|;
    && waits == l.flowRead + (if l.tx.state == Wait then 1 else 0)
    && (n == 0 ==> flows == 0)
    && (1 <= n < total ==> Blocks(n - 1, flows, l.rx.currblkn, BlockLimit(t.bs)))
    && (2 <= n == total ==> flows == 1 + (total - 2) / BlockLimit(t.bs))
  }

  lemma TallyPollTx(l: Line, k: Link, p: seq<Byte>, t: Terms, waits: nat, now: Word)
    requires Under(l, k, p, t) && Tally(l, k, p, t, waits) && OnTime(LineNext(l, k, PollTx(now)))
    ensures var r := LineNext(l, k, PollTx(now)); Tally(r, k, p, t, waits + if EntersWait(l, r) then 1 else 0)
  {
    LoggedTimeout(l.txIo.log, TxEvent(TimeoutBs));
  }

  lemma TallyPollRx(l: Line, k: Link, p: seq<Byte>, t: Terms, waits: nat, now: Word)
    requires Under(l, k, p, t) && Tally(l, k, p, t, waits) && OnTime(LineNext(l, k, PollRx(now)))
    ensures Tally(LineNext(l, k, PollRx(now)), k, p, t, waits)
  {
    LoggedTimeout(l.rxIo.log, RxEvent(Conf, TimeoutCr, [], 0));
  }

  /** A flow control is read only by a sender that waits, and ends that wait. */
  lemma TallyReadFlow(l: Line, k: Link, p: seq<Byte>, t: Terms, waits: nat, now: Word)
    requires Under(l, k, p, t) && Tally(l, k, p, t, waits)
    ensures var r := LineNext(l, k, ReadFlow(now)); !EntersWait(l, r) && Tally(r, k, p, t, waits)
  {
    if l.flowRead < |l.rxIo.sent| {
      SafeReadFlow(l, k, p, now);
      LockReadGrant(l, k, p, t, now);
      assert l.rxIo.sent[l.flowRead] == FlowFrame(FlowCts, t.bs, t.st, k.far);
      FlowFrameBytes(FlowCts, t.bs, t.st, k.far);
    }
  }

  lemma TallyReadData(l: Line, k: Link, p: seq<Byte>, t: Terms, waits: nat, now: Word)
    requires Under(l, k, p, t) && Tally(l, k, p, t, waits) && AlwaysAccepts(l.rxIo)
    ensures Tally(LineNext(l, k, ReadData(now)), k, p, t, waits)
  {
    if l.dataRead < |l.txIo.sent| {
      SentPrefix(l, k, p);
      assert l.txIo.sent[l.dataRead] == Segments(p, k.near)[l.dataRead];
      assert l.rxIo.accept(l.rxIo.attempts);
      if l.dataRead == 0 {
        TallyReadFirst(l, k, p, t, waits, now);
      } else {
        TallyReadNext(l, k, p, t, waits, now);
      }
    }
  }

  lemma TallyReadFirst(l: Line, k: Link, p: seq<Byte>, t: Terms, waits: nat, now: Word)
    requires Under(l, k, p, t) && Tally(l, k, p, t, waits) && l.rxIo.Accepts()
    requires l.dataRead == 0 && l.txIo.sent != [] && l.txIo.sent[0] == Segments(p, k.near)[0]
    ensures Tally(LineNext(l, k, ReadData(now)), k, p, t, waits)
  {
    var r := ReceiveStep(l.rx, l.rxIo, k.far, l.txIo.sent[0].data, now);
    HeadFrameHeader(p, k.near);
    FlowOutFrame(l.rx, l.rxIo, k.far, FlowCts, t.bs, t.st);
    assert |r.io.sent| == 1 && r.rx.currblkn == 0;
    SeveralSegments(p, k.near);
  }

  lemma TallyReadNext(l: Line, k: Link, p: seq<Byte>, t: Terms, waits: nat, now: Word)
    requires Under(l, k, p, t) && Tally(l, k, p, t, waits) && l.rxIo.Accepts()
    requires 1 <= l.dataRead < |l.txIo.sent| <= |Segments(p, k.near)|
    requires l.txIo.sent[l.dataRead] == Segments(p, k.near)[l.dataRead]
    ensures Tally(LineNext(l, k, ReadData(now)), k, p, t, waits)
  {
    TakeNextBlock(l.rx, l.rxIo, k.far, p, k.near, l.dataRead, now);
    TallyTaken(l, k, p, t, waits, ReceiveStep(l.rx, l.rxIo, k.far, l.txIo.sent[l.dataRead].data, now));
  }

  lemma TallyTaken(l: Line, k: Link, p: seq<Byte>, t: Terms, waits: nat, r: RxOut)
    requires Sendable(p, k.near) && Tally(l, k, p, t, waits) && 1 <= l.dataRead < |Segments(p, k.near)|
    requires l.dataRead + 1 == |Segments(p, k.near)| ==> |r.io.sent| == |l.rxIo.sent|
    requires l.dataRead + 1 < |Segments(p, k.near)| ==>
               if l.rx.currblkn + 1 < BlockLimit(t.bs)
               then |r.io.sent| == |l.rxIo.sent| && r.rx.currblkn == l.rx.currblkn + 1
               else |r.io.sent| == |l.rxIo.sent| + 1 && r.rx.currblkn == 0
    ensures Tally(l.(rx := r.rx, rxIo := r.io, dataRead := l.dataRead + 1), k, p, t, waits)
  {
    TallyNext(l.dataRead, |Segments(p, k.near)|, |l.rxIo.sent|, l.rx.currblkn, BlockLimit(t.bs));
  }

  lemma SeveralSegments(p: seq<Byte>, cfg: Config)
    requires Sendable(p, cfg) && Segmented(p, cfg)
    ensures |Segments(p, cfg)| >= 2
  {
    SegmentsLength(p, cfg);
  }

  lemma TallyNext(n: nat, total: nat, flows: nat, part: nat, limit: nat)
    requires 1 <= n < total && Blocks(n - 1, flows, part, limit)
    ensures part + 1 < limit ==> Blocks(n, flows, part + 1, limit)
    ensures part + 1 >= limit ==> Blocks(n, flows + 1, 0, limit)
    ensures n + 1 == total ==> flows == 1 + (total - 2) / limit
  {
    BlocksNext(n - 1, flows, part, limit);
    BlocksQuotient(n - 1, flows, part, limit);
  }

  lemma TallyNextStep(l: Line, k: Link, p: seq<Byte>, t: Terms, waits: nat, a: LineAction)
    requires Under(l, k, p, t) && Tally(l, k, p, t, waits) && AlwaysAccepts(l.rxIo) && OnTime(LineNext(l, k, a))
    ensures var r := LineNext(l, k, a); Tally(r, k, p, t, waits + if EntersWait(l, r) then 1 else 0)
  {
    match a
    case PollTx(now) => TallyPollTx(l, k, p, t, waits, now);
    case PollRx(now) => TallyPollRx(l, k, p, t, waits, now);
    case ReadFlow(now) => TallyReadFlow(l, k, p, t, waits, now);
    case ReadData(now) => TallyReadData(l, k, p, t, waits, now);
  }

  lemma BufferLengthKept(l: Line, k: Link, a: LineAction)
    requires TxOk(l.tx, k.near)
    ensures |LineNext(l, k, a).rx.rxbuff| == |l.rx.rxbuff|
  {
  }

  lemma {:induction false} TallyRun(l: Line, k: Link, p: seq<Byte>, t: Terms, waits: nat, actions: seq<LineAction>)
    requires Under(l, k, p, t) && Tally(l, k, p, t, waits) && AlwaysAccepts(l.rxIo) && OnTime(LineRun(l, k, actions))
    ensures var r := LineRun(l, k, actions);
            Under(r, k, p, t) && Tally(r, k, p, t, waits + Waits(l, k, actions))
    decreases |actions|, 0
  {
    if actions != [] {
      var l1 := LineNext(l, k, actions[0]);
      StartOnTime(l1, k, actions[1..]);
      TallyNextStep(l, k, p, t, waits, actions[0]);
      LockNext(l, k, p, t, actions[0]);
      BufferLengthKept(l, k, actions[0]);
      TallyRunOn(l1, k, p, t, waits, if EntersWait(l, l1) then 1 else 0, actions[1..]);
    }
  }

  /** The run from its second step on, after `more` waits in the first. */
  lemma TallyRunOn(l: Line, k: Link, p: seq<Byte>, t: Terms, waits: nat, more: nat, rest: seq<LineAction>)
    requires Under(l, k, p, t) && Tally(l, k, p, t, waits + more)
    requires AlwaysAccepts(l.rxIo) && OnTime(LineRun(l, k, rest))
    ensures var r := LineRun(l, k, rest);
            Under(r, k, p, t) && Tally(r, k, p, t, waits + (more + Waits(l, k, rest)))
    decreases |rest|, 1
  {
    TallyRun(l, k, p, t, waits + more, rest);
    assert waits + more + Waits(l, k, rest) == waits + (more + Waits(l, k, rest));
  }

  /** In every run in which no timer runs out, the sender has waited once for each flow control it
      has read and once more if it is waiting; neither block counter reaches beyond the block
      size; and once all n consecutive frames are taken, exactly 1 + (n - 1) / BS flow controls
      have been sent and the sender has waited exactly that often (BS 0 counting as 1). */
  lemma FlowControlsCounted(l: Line, k: Link, p: seq<Byte>, actions: seq<LineAction>)
    requires Started(l, k, p) && Segmented(p, k.near) && |p| <= |l.rx.rxbuff| && OnTime(LineRun(l, k, actions))
    ensures var r := LineRun(l, k, actions);
            var limit := BlockLimit(l.rx.blksize);
            var waits := 1 + Waits(l, k, actions);
            && waits == r.flowRead + (if r.tx.state == Wait then 1 else 0)
            && (r.tx.state == MfDt || r.tx.state == Pause ==> r.tx.currblknum < limit)
            && (r.rx.IsBusy() ==> r.rx.currblkn < limit)
            && (r.dataRead == |Segments(p, k.near)| ==>
                  var n := |Segments(p, k.near)| - 1;
                  |r.rxIo.sent| == 1 + (n - 1) / limit == waits)
  {
    StartedLock(l, k, p);
    var t := Terms(l.rx.blksize, l.rx.stmin);
    StartedWaits(l, k, p);
    TallyRun(l, k, p, t, 1, actions);
    var r := LineRun(l, k, actions);
    SeveralSegments(p, k.near);
    SentPrefix(r, k, p);
  }

  lemma StartedWaits(l: Line, k: Link, p: seq<Byte>)
    requires Started(l, k, p) && Segmented(p, k.near)
    ensures l.tx.state == Wait
  {
    var tx: TxState, asked: seq<Byte>, now: Word :| StartedFrom(l, k, p, tx, asked, now);
    assert l.txIo.accept(0);
    assert l.tx == Awaiting(FirstTried(tx, k.near, asked), asked, now);
  }
}
