/** A network of two nodes gets its message across: from a fresh start, and from every state in
    step, some schedule of polls, deliveries and ticks brings the transfer to its end. */
module Progress {
  import opened IsoTpTypes
  import opened Timers
  import opened TpPort
  import opened Sender
  import opened Receiver
  import opened Transport
  import opened Segmentation
  import opened SenderRuns
  import opened Reassembly
  import opened Line
  import opened Lockstep
  import opened Completion
  import opened Network
  import opened Duplex

  // ---- A fresh start ----

  /** A node as constructed, with its parameters set. */
  function FreshNode(rxbuff: Buffer, txbuff: Buffer, msg: Message, cfg: Config, accept: nat -> bool): Node {
    Node(NewTx(txbuff), NewRx(rxbuff, msg), Io(accept, [], 0, []), cfg)
  }

  /** Two such nodes on a bus that takes every frame are ready for a message of either one. */
  lemma FreshNodesReady(a: Node, b: Node, clock: nat, p: seq<Byte>, q: seq<Byte>,
                        rxA: Buffer, txA: Buffer, msgA: Message, rxB: Buffer, txB: Buffer, msgB: Message)
    requires a == FreshNode(rxA, txA, msgA, a.cfg, a.io.accept) && b == FreshNode(rxB, txB, msgB, b.cfg, b.io.accept)
    requires Wired(a.cfg, b.cfg) && AlwaysAccepts(a.io) && AlwaysAccepts(b.io)
    requires 0 < |p| <= |txA| && 0 < |q| <= |txB|
    ensures var n := Net(a, b, 0, 0, clock);
            && Ready(n, p) && Ready(Swap(n), q)
            && Carries(n, p) == p && Carries(Swap(n), q) == q
  {
  }

  // ---- One step nearer to the end ----

  /** What to do next for the direction from `a` to `b`: deliver what is on the way, let time
      pass until a pause ends, or poll the sender. */
  function NextAction(n: Net): NetAction
    requires n.bRead <= |n.a.io.sent| && n.aRead <= |n.b.io.sent|
  {
    var l := Direction(n);
    if l.dataRead < |l.txIo.sent| then DeliverB
    else if l.flowRead < |l.rxIo.sent| then DeliverA
    else if l.tx.state == Pause && !l.tx.stMin.Due(Now(n.clock)) then Time
    else PollA
  }

  /** The ticks until a pausing sender may go on. */
  function PauseLeft(n: Net): nat {
    if n.a.tx.state == Pause then n.a.tx.stMin.TicksToNextElapse(Now(n.clock)) else 0
  }

  /** Well formed and in step. */
  ghost predicate NetLock(n: Net, p: seq<Byte>, t: Terms) {
    NetWf(n) && Lock(Direction(n), LinkOf(n), p, t)
  }

  lemma TickNearer(t: TimerState, clock: nat)
    requires t.active && !t.Due(Now(clock))
    ensures t.TicksToNextElapse(Now(clock + 1)) < t.TicksToNextElapse(Now(clock))
  {
    var passed := Wrap(Now(clock) - t.start);
    assert Wrap(Now(clock + 1) - t.start) == passed + 1 by {
      NextPassed(clock, t.start, passed);
    }
  }

  lemma NextPassed(clock: nat, start: Word, passed: Word)
    requires passed == Wrap(Now(clock) - start) && passed < WORD_RANGE - 1
    ensures Wrap(Now(clock + 1) - start) == passed + 1
  {
    var now := Now(clock);
    assert Now(clock + 1) == if now + 1 < WORD_RANGE then now + 1 else 0;
    assert passed == if now >= start then now - start else now - start + WORD_RANGE;
  }

  /** A useful step of the direction. */
  lemma UsefulStep(n: Net, p: seq<Byte>, t: Terms, x: NetAction, a: LineAction)
    requires NetLock(n, p, t) && !x.AskA? && LineActions(n, x) == [a] && Useful(Direction(n), a)
    ensures var n1 := NetNext(n, x);
            && NetLock(n1, p, t) && LinkOf(n1) == LinkOf(n)
            && 0 <= Work(Direction(n1), LinkOf(n), p) < Work(Direction(n), LinkOf(n), p)
  {
    var l, k := Direction(n), LinkOf(n);
    DirectionStep(n, x);
    OneAction(l, k, a);
    UsefulOnTime(l, k, p, t, a);
    LockNext(l, k, p, t, a);
    UsefulStepsProgress(l, k, p, t, a);
    WorkBounded(LineNext(l, k, a), k, p, t);
  }

  /** A step that does not concern the direction. */
  lemma OtherStep(n: Net, p: seq<Byte>, t: Terms, x: NetAction)
    requires NetLock(n, p, t) && !x.AskA? && LineActions(n, x) == []
    ensures var n1 := NetNext(n, x);
            NetLock(n1, p, t) && LinkOf(n1) == LinkOf(n) && Direction(n1) == Direction(n)
  {
    DirectionStep(n, x);
    assert LineRun(Direction(n), LinkOf(n), []) == Direction(n);
  }

  lemma UnreadFrame(frames: seq<CanFrame>, i: nat, flow: bool)
    requires i <= |frames| && |Flows(frames[..i], flow)| < |Flows(frames, flow)|
    ensures i < |frames|
  {
    assert frames[..|frames|] == frames;
  }

  lemma FlowStepSendsNothing(tx: TxState, io: Io, cfg: Config, status: Byte, bs: Byte, st: Byte, now: Word)
    requires TxOk(tx, cfg)
    ensures FlowStep(tx, io, cfg, status, bs, st, now).io.sent == io.sent
  {
  }

  /** Reading a flow control of the other direction puts nothing on the bus. */
  lemma OtherFlowRead(n: Net)
    requires NetWf(n) && n.bRead < |n.a.io.sent| && IsFlowFrame(n.a.io.sent[n.bRead].data)
    ensures var n1 := NetNext(n, DeliverB);
            n1.b.io.sent == n.b.io.sent && n1.aRead == n.aRead && n1.a == n.a && n1.bRead == n.bRead + 1
  {
    var f := n.a.io.sent[n.bRead].data;
    assert Shaped(n.a.io.sent[n.bRead], n.a.cfg);
    FlowStepSendsNothing(n.b.tx, n.b.io, n.b.cfg, f[0] % 16, f[1], f[2], Now(n.clock));
  }

  /** Nearer to the end, in the order of: work left, frames `a` has not read, frames `b` has not
      read, ticks left of a pause. */
  predicate Nearer(n: Net, n1: Net, p: seq<Byte>)
    requires Sendable(p, n.a.cfg) && Sendable(p, n1.a.cfg) && NetOk(n) && NetOk(n1)
    requires n.bRead <= |n.a.io.sent| && n.aRead <= |n.b.io.sent|
    requires n1.bRead <= |n1.a.io.sent| && n1.aRead <= |n1.b.io.sent|
  {
    var w, w1 := Work(Direction(n), LinkOf(n), p), Work(Direction(n1), LinkOf(n1), p);
    var a, a1 := |n.b.io.sent| - n.aRead, |n1.b.io.sent| - n1.aRead;
    var b, b1 := |n.a.io.sent| - n.bRead, |n1.a.io.sent| - n1.bRead;
    0 <= w1 < w || (w1 == w && (a1 < a || (a1 == a && (b1 < b || (b1 == b && PauseLeft(n1) < PauseLeft(n))))))
  }

  lemma DeliverBNears(n: Net, p: seq<Byte>, t: Terms)
    requires NetLock(n, p, t) && NextAction(n) == DeliverB
    ensures NetLock(NetNext(n, DeliverB), p, t) && Nearer(n, NetNext(n, DeliverB), p)
  {
    UnreadFrame(n.a.io.sent, n.bRead, false);
    if IsFlowFrame(n.a.io.sent[n.bRead].data) {
      OtherStep(n, p, t, DeliverB);
      OtherFlowRead(n);
    } else {
      UsefulStep(n, p, t, DeliverB, ReadData(Now(n.clock)));
    }
  }

  lemma DeliverANears(n: Net, p: seq<Byte>, t: Terms)
    requires NetLock(n, p, t) && NextAction(n) == DeliverA
    ensures NetLock(NetNext(n, DeliverA), p, t) && Nearer(n, NetNext(n, DeliverA), p)
  {
    UnreadFrame(n.b.io.sent, n.aRead, true);
    if IsFlowFrame(n.b.io.sent[n.aRead].data) {
      UsefulStep(n, p, t, DeliverA, ReadFlow(Now(n.clock)));
    } else {
      OtherStep(n, p, t, DeliverA);
    }
  }

  lemma WaitNears(n: Net, p: seq<Byte>, t: Terms)
    requires NetLock(n, p, t) && NextAction(n) == Time
    ensures NetLock(NetNext(n, Time), p, t) && Nearer(n, NetNext(n, Time), p)
  {
    OtherStep(n, p, t, Time);
    TickNearer(n.a.tx.stMin, n.clock);
  }

  lemma NextNears(n: Net, p: seq<Byte>, t: Terms)
    requires NetLock(n, p, t) && !DirectionQuiet(n)
    ensures var x := NextAction(n);
            && !x.AskA? && !x.AskB?
            && NetLock(NetNext(n, x), p, t) && Nearer(n, NetNext(n, x), p)
  {
    match NextAction(n)
    case DeliverB => DeliverBNears(n, p, t);
    case DeliverA => DeliverANears(n, p, t);
    case Time => WaitNears(n, p, t);
    case PollA => UsefulStep(n, p, t, PollA, PollTx(Now(n.clock)));
  }

  /** From every state in step there is a schedule to the end of the transfer, without requests
      and without a timeout of the direction. */
  lemma {:induction false} CanFinish(n: Net, p: seq<Byte>, t: Terms) returns (actions: seq<NetAction>)
    requires NetLock(n, p, t)
    ensures NoAsks(actions)
    ensures var r := NetRun(n, actions); NetLock(r, p, t) && DirectionQuiet(r)
    decreases Work(Direction(n), LinkOf(n), p), |n.b.io.sent| - n.aRead, |n.a.io.sent| - n.bRead, PauseLeft(n)
  {
    if DirectionQuiet(n) {
      actions := [];
    } else {
      var x := NextAction(n);
      NextNears(n, p, t);
      var rest := CanFinish(NetNext(n, x), p, t);
      actions := [x] + rest;
      RunFrom(n, x, rest);
      NoAsksBefore(x, rest);
    }
  }

  lemma NoAsksBefore(x: NetAction, rest: seq<NetAction>)
    requires !x.AskA? && !x.AskB? && NoAsks(rest)
    ensures NoAsks([x] + rest)
  {
  }

  lemma RunFrom(n: Net, x: NetAction, rest: seq<NetAction>)
    requires NetOk(n)
    ensures NetRun(n, [x] + rest) == NetRun(NetNext(n, x), rest)
  {
    assert ([x] + rest)[1..] == rest;
  }

  /** End to end: once `a` has been asked, some schedule of polls, deliveries and ticks lets both
      clients be told what they are to be told, and nothing else. */
  lemma EndToEndPossible(n: Net, p: seq<Byte>) returns (actions: seq<NetAction>)
    requires Ready(n, p)
    ensures NoAsks(actions)
    ensures var r := NetRun(AskedA(n, p), actions);
            && Events(r.a.io.log, true) == SenderVerdict(Carries(n, p), LinkOf(n), |n.b.rx.rxbuff|)
            && Events(r.b.io.log, false) == ReceiverVerdict(Carries(n, p), LinkOf(n), |n.b.rx.rxbuff|)
  {
    var n1, q := AskedA(n, p), Carries(n, p);
    ReadyStarts(n, p);
    StartedLock(Direction(n1), LinkOf(n1), q);
    actions := CanFinish(n1, q, Terms(n.b.rx.blksize, n.b.rx.stmin));
    var r := NetRun(n1, actions);
    LockIsOnTime(Direction(r), LinkOf(r), q, Terms(n.b.rx.blksize, n.b.rx.stmin));
    EndToEndCompletion(n, p, actions);
  }
}
