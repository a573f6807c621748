/** Each direction of a network of two nodes is a line: every step of the network is one step of
    that line or none. The results about lines carry over to the network. */
module Duplex {
  import opened IsoTpTypes
  import opened Timers
  import opened TpPort
  import opened Sender
  import opened Receiver
  import opened Transport
  import opened Segmentation
  import opened SenderRuns
  import opened Reassembly
  import opened Line
  import opened Lockstep
  import opened Completion
  import opened Network

  ghost predicate AllShaped(io: Io, cfg: Config) {
    forall i :: 0 <= i < |io.sent| ==> Shaped(io.sent[i], cfg)
  }

  /** A network whose bus takes every frame and in which each node has read only what was sent. */
  ghost predicate NetWf(n: Net) {
    && NetOk(n)
    && AlwaysAccepts(n.a.io) && AlwaysAccepts(n.b.io)
    && n.bRead <= |n.a.io.sent| && n.aRead <= |n.b.io.sent|
    && AllShaped(n.a.io, n.a.cfg) && AllShaped(n.b.io, n.b.cfg)
  }

  function LinkOf(n: Net): Link {
    Link(n.a.cfg, n.b.cfg)
  }

  /** What a step of the network means to the direction from `a` to `b`. */
  function LineActions(n: Net, x: NetAction): seq<LineAction> {
    var now := Now(n.clock);
    match x
    case PollA => [PollTx(now)]
    case PollB => [PollRx(now)]
    case DeliverA =>
      if n.aRead < |n.b.io.sent| && IsFlowFrame(n.b.io.sent[n.aRead].data) then [ReadFlow(now)] else []
    case DeliverB =>
      if n.bRead < |n.a.io.sent| && !IsFlowFrame(n.a.io.sent[n.bRead].data) then [ReadData(now)] else []
    case _ => []
  }

  lemma EffectShaped(tx: bool, io: Io, io': Io, part': Io, cfg: Config)
    requires Effect(tx, io, io', part', cfg) && AllShaped(io, cfg)
    ensures AllShaped(io', cfg)
  {
    forall i | 0 <= i < |io'.sent|
      ensures Shaped(io'.sent[i], cfg)
    {
      if i < |io.sent| {
        assert io'.sent[i] == io.sent[i];
      }
    }
  }

  lemma SamePrefix(before: seq<CanFrame>, after: seq<CanFrame>, i: nat)
    requires before <= after && i <= |before|
    ensures after[..i] == before[..i]
  {
  }

  /** Polling a node: its sender and its receiver each work on their own part. */
  lemma ProcessNode(d: Node, now: Word)
    requires TxOk(d.tx, d.cfg) && AlwaysAccepts(d.io)
    ensures var r := NodeProcess(d, now);
            var t := ProcessStep(d.tx, Part(d.io, true), d.cfg, now);
            var c := ProcessRxStep(d.rx, Part(d.io, false), now);
            && r.tx == t.tx && Part(r.io, true) == t.io && r.rx == c.rx && Part(r.io, false) == c.io
            && r.io.accept == d.io.accept && d.io.sent <= r.io.sent
            && (AllShaped(d.io, d.cfg) ==> AllShaped(r.io, d.cfg))
  {
    var t := ProcessStep(d.tx, d.io, d.cfg, now);
    ProcessPart(d.tx, d.io, d.cfg, now);
    ProcessRxPart(d.rx, t.io, d.cfg, now);
    if AllShaped(d.io, d.cfg) {
      EffectShaped(true, d.io, t.io, ProcessStep(d.tx, Part(d.io, true), d.cfg, now).io, d.cfg);
      EffectShaped(false, t.io, NodeProcess(d, now).io, ProcessRxStep(d.rx, Part(t.io, false), now).io, d.cfg);
    }
  }

  /** A frame for the receiver leaves the sender and its part of the output alone. */
  lemma ReadDataNode(d: Node, f: CanFrame, now: Word)
    requires TxOk(d.tx, d.cfg) && d.cfg.candl >= 8 && AlwaysAccepts(d.io)
    requires f.id == d.cfg.physId != d.cfg.funcId && |f.data| >= 1 && !IsFlowFrame(f.data)
    ensures var r := NodeRead(d, f, now);
            var c := ReceiveStep(d.rx, Part(d.io, false), d.cfg, f.data, now);
            && r.tx == d.tx && Part(r.io, true) == Part(d.io, true) && r.rx == c.rx && Part(r.io, false) == c.io
            && r.io.accept == d.io.accept && d.io.sent <= r.io.sent
            && (AllShaped(d.io, d.cfg) ==> AllShaped(r.io, d.cfg))
  {
    ReceivePart(d.rx, d.io, d.cfg, f.data, now);
    if AllShaped(d.io, d.cfg) {
      EffectShaped(false, d.io, NodeRead(d, f, now).io,
                   ReceiveStep(d.rx, Part(d.io, false), d.cfg, f.data, now).io, d.cfg);
    }
  }

  /** A flow control leaves the receiver and its part of the output alone. */
  lemma ReadFlowNode(d: Node, f: CanFrame, now: Word)
    requires TxOk(d.tx, d.cfg)
    requires f.id == d.cfg.physId != d.cfg.funcId && |f.data| >= 3 && IsFlowFrame(f.data)
    ensures var r := NodeRead(d, f, now);
            var t := FlowStep(d.tx, Part(d.io, true), d.cfg, f.data[0] % 16, f.data[1], f.data[2], now);
            && r.rx == d.rx && Part(r.io, false) == Part(d.io, false) && r.tx == t.tx && Part(r.io, true) == t.io
            && r.io.accept == d.io.accept && d.io.sent <= r.io.sent
            && (AllShaped(d.io, d.cfg) ==> AllShaped(r.io, d.cfg))
  {
    FlowPart(d.tx, d.io, d.cfg, f.data[0] % 16, f.data[1], f.data[2], now);
    if AllShaped(d.io, d.cfg) {
      EffectShaped(true, d.io, NodeRead(d, f, now).io,
                   FlowStep(d.tx, Part(d.io, true), d.cfg, f.data[0] % 16, f.data[1], f.data[2], now).io, d.cfg);
    }
  }

  /** A request leaves the receiver and its part of the output alone. */
  lemma RequestNode(d: Node, data: seq<Byte>, now: Word)
    requires TxOk(d.tx, d.cfg) && d.cfg.candl >= 8 && AlwaysAccepts(d.io)
    ensures var r := NodeRequest(d, data, now);
            var t := SendStep(d.tx, Part(d.io, true), d.cfg, data, now);
            && r.rx == d.rx && Part(r.io, false) == Part(d.io, false) && r.tx == t.tx && Part(r.io, true) == t.io
            && r.io.accept == d.io.accept && d.io.sent <= r.io.sent
            && (AllShaped(d.io, d.cfg) ==> AllShaped(r.io, d.cfg))
  {
    SendPart(d.tx, d.io, d.cfg, data, now);
    if AllShaped(d.io, d.cfg) {
      EffectShaped(true, d.io, NodeRequest(d, data, now).io,
                   SendStep(d.tx, Part(d.io, true), d.cfg, data, now).io, d.cfg);
    }
  }

  /** What one node does with the frame it reads next. */
  lemma DeliverToA(n: Net)
    requires NetWf(n) && n.aRead < |n.b.io.sent|
    ensures NetWf(NetNext(n, DeliverA))
    ensures Direction(NetNext(n, DeliverA)) == LineRun(Direction(n), LinkOf(n), LineActions(n, DeliverA))
  {
    if IsFlowFrame(n.b.io.sent[n.aRead].data) {
      DeliverFlowToA(n);
    } else {
      DeliverDataToA(n);
    }
  }

  lemma OneAction(l: Line, k: Link, a: LineAction)
    requires TxOk(l.tx, k.near)
    ensures LineRun(l, k, [a]) == LineNext(l, k, a)
  {
    assert [a][1..] == [];
    assert LineRun(LineNext(l, k, a), k, []) == LineNext(l, k, a);
  }

  /** A step of node `a`, told by what it leaves behind. */
  lemma MovedA(n: Net, a: Node, aRead: nat)
    requires NetWf(n) && TxOk(a.tx, a.cfg) && a.cfg == n.a.cfg && aRead <= |n.b.io.sent|
    requires a.io.accept == n.a.io.accept && n.a.io.sent <= a.io.sent && AllShaped(a.io, a.cfg)
    ensures var n' := n.(a := a, aRead := aRead);
            NetWf(n') && Direction(n') ==
              Direction(n).(tx := a.tx, txIo := Part(a.io, true), flowRead := |Flows(n.b.io.sent[..aRead], true)|)
  {
    SamePrefix(n.a.io.sent, a.io.sent, n.bRead);
  }

  /** A step of node `b`. */
  lemma MovedB(n: Net, b: Node, bRead: nat)
    requires NetWf(n) && TxOk(b.tx, b.cfg) && b.cfg == n.b.cfg && bRead <= |n.a.io.sent|
    requires b.io.accept == n.b.io.accept && n.b.io.sent <= b.io.sent && AllShaped(b.io, b.cfg)
    ensures var n' := n.(b := b, bRead := bRead);
            NetWf(n') && Direction(n') ==
              Direction(n).(rx := b.rx, rxIo := Part(b.io, false), dataRead := |Flows(n.a.io.sent[..bRead], false)|)
  {
    SamePrefix(n.b.io.sent, b.io.sent, n.aRead);
  }

  lemma LineReadsFlow(l: Line, k: Link, f: CanFrame, now: Word)
    requires TxOk(l.tx, k.near) && l.flowRead < |l.rxIo.sent| && l.rxIo.sent[l.flowRead] == f && |f.data| >= 3
    ensures var t := FlowStep(l.tx, l.txIo, k.near, f.data[0] % 16, f.data[1], f.data[2], now);
            LineRun(l, k, [ReadFlow(now)]) == l.(tx := t.tx, txIo := t.io, flowRead := l.flowRead + 1)
  {
    OneAction(l, k, ReadFlow(now));
  }

  lemma LineReadsData(l: Line, k: Link, f: CanFrame, now: Word)
    requires TxOk(l.tx, k.near) && l.dataRead < |l.txIo.sent| && l.txIo.sent[l.dataRead] == f
    ensures var r := ReceiveStep(l.rx, l.rxIo, k.far, f.data, now);
            LineRun(l, k, [ReadData(now)]) == l.(rx := r.rx, rxIo := r.io, dataRead := l.dataRead + 1)
  {
    OneAction(l, k, ReadData(now));
  }

  /** What reading frame `i` means for the frames of one kind. */
  lemma NextOfKind(frames: seq<CanFrame>, i: nat, flow: bool)
    requires i < |frames|
    ensures var k := |Flows(frames[..i], flow)|;
            if IsFlowFrame(frames[i].data) == flow then
              |Flows(frames[..i + 1], flow)| == k + 1 && k < |Flows(frames, flow)|
              && Flows(frames, flow)[k] == frames[i]
            else |Flows(frames[..i + 1], flow)| == k
  {
    FlowsStep(frames, i, flow);
    if IsFlowFrame(frames[i].data) == flow {
      FlowsAt(frames, i, |frames|, flow);
      assert frames[..|frames|] == frames;
    }
  }

  lemma FlowReachesA(n: Net, a: Node, next: Line)
    requires NetWf(n) && n.aRead < |n.b.io.sent| && IsFlowFrame(n.b.io.sent[n.aRead].data)
    requires TxOk(a.tx, a.cfg) && a.cfg == n.a.cfg
    requires a.io.accept == n.a.io.accept && n.a.io.sent <= a.io.sent && AllShaped(a.io, a.cfg)
    requires next == Direction(n).(tx := a.tx, txIo := Part(a.io, true), flowRead := Direction(n).flowRead + 1)
    ensures var n' := n.(a := a, aRead := n.aRead + 1); NetWf(n') && Direction(n') == next
  {
    MovedA(n, a, n.aRead + 1);
    NextOfKind(n.b.io.sent, n.aRead, true);
  }

  lemma DeliverFlowToA(n: Net)
    requires NetWf(n) && n.aRead < |n.b.io.sent| && IsFlowFrame(n.b.io.sent[n.aRead].data)
    ensures NetWf(NetNext(n, DeliverA))
    ensures Direction(NetNext(n, DeliverA)) == LineRun(Direction(n), LinkOf(n), [ReadFlow(Now(n.clock))])
  {
    var f := n.b.io.sent[n.aRead];
    var now := Now(n.clock);
    assert Shaped(f, n.b.cfg);
    NextOfKind(n.b.io.sent, n.aRead, true);
    ReadFlowNode(n.a, f, now);
    LineReadsFlow(Direction(n), LinkOf(n), f, now);
    var a := NodeRead(n.a, f, now);
    FlowReachesA(n, a, LineRun(Direction(n), LinkOf(n), [ReadFlow(now)]));
    assert NetNext(n, DeliverA) == n.(a := a, aRead := n.aRead + 1);
  }

  lemma DeliverDataToA(n: Net)
    requires NetWf(n) && n.aRead < |n.b.io.sent| && !IsFlowFrame(n.b.io.sent[n.aRead].data)
    ensures NetWf(NetNext(n, DeliverA)) && Direction(NetNext(n, DeliverA)) == Direction(n)
  {
    var f := n.b.io.sent[n.aRead];
    assert Shaped(f, n.b.cfg);
    NextOfKind(n.b.io.sent, n.aRead, true);
    ReadDataNode(n.a, f, Now(n.clock));
    var a := NodeRead(n.a, f, Now(n.clock));
    MovedA(n, a, n.aRead + 1);
    assert NetNext(n, DeliverA) == n.(a := a, aRead := n.aRead + 1);
  }

  lemma DeliverToB(n: Net)
    requires NetWf(n) && n.bRead < |n.a.io.sent|
    ensures NetWf(NetNext(n, DeliverB))
    ensures Direction(NetNext(n, DeliverB)) == LineRun(Direction(n), LinkOf(n), LineActions(n, DeliverB))
  {
    if IsFlowFrame(n.a.io.sent[n.bRead].data) {
      DeliverFlowToB(n);
    } else {
      DeliverDataToB(n);
    }
  }

  lemma DeliverFlowToB(n: Net)
    requires NetWf(n) && n.bRead < |n.a.io.sent| && IsFlowFrame(n.a.io.sent[n.bRead].data)
    ensures NetWf(NetNext(n, DeliverB)) && Direction(NetNext(n, DeliverB)) == Direction(n)
  {
    var f := n.a.io.sent[n.bRead];
    assert Shaped(f, n.a.cfg);
    NextOfKind(n.a.io.sent, n.bRead, false);
    ReadFlowNode(n.b, f, Now(n.clock));
    var b := NodeRead(n.b, f, Now(n.clock));
    MovedB(n, b, n.bRead + 1);
    assert NetNext(n, DeliverB) == n.(b := b, bRead := n.bRead + 1);
  }

  lemma DeliverDataToB(n: Net)
    requires NetWf(n) && n.bRead < |n.a.io.sent| && !IsFlowFrame(n.a.io.sent[n.bRead].data)
    ensures NetWf(NetNext(n, DeliverB))
    ensures Direction(NetNext(n, DeliverB)) == LineRun(Direction(n), LinkOf(n), LineActions(n, DeliverB))
  {
    var f := n.a.io.sent[n.bRead];
    var now := Now(n.clock);
    assert Shaped(f, n.a.cfg);
    NextOfKind(n.a.io.sent, n.bRead, false);
    ReadDataNode(n.b, f, now);
    var b := NodeRead(n.b, f, now);
    MovedB(n, b, n.bRead + 1);
    assert NetNext(n, DeliverB) == n.(b := b, bRead := n.bRead + 1);
    LineReadsData(Direction(n), LinkOf(n), f, now);
  }

  /** Every step of the network but a new request of `a` is a step of the line from `a` to `b`,
      or none. */
  lemma DirectionStep(n: Net, x: NetAction)
    requires NetWf(n) && !x.AskA?
    ensures NetWf(NetNext(n, x))
    ensures Direction(NetNext(n, x)) == LineRun(Direction(n), LinkOf(n), LineActions(n, x))
  {
    var now := Now(n.clock);
    var n' := NetNext(n, x);
    match x
    case PollA =>
      ProcessNode(n.a, now);
      SamePrefix(n.a.io.sent, n'.a.io.sent, n.bRead);
      OneAction(Direction(n), LinkOf(n), PollTx(now));
    case PollB =>
      ProcessNode(n.b, now);
      SamePrefix(n.b.io.sent, n'.b.io.sent, n.aRead);
      OneAction(Direction(n), LinkOf(n), PollRx(now));
    case DeliverA =>
      if n.aRead < |n.b.io.sent| {
        DeliverToA(n);
      }
    case DeliverB =>
      if n.bRead < |n.a.io.sent| {
        DeliverToB(n);
      }
    case AskB(data) =>
      RequestNode(n.b, data, now);
      SamePrefix(n.b.io.sent, n'.b.io.sent, n.aRead);
    case Time =>
  }

  predicate NoAskA(actions: seq<NetAction>) {
    forall i :: 0 <= i < |actions| ==> !actions[i].AskA?
  }

  /** The line's side of a run of the network. */
  function LineTrace(n: Net, actions: seq<NetAction>): seq<LineAction>
    requires NetOk(n)
    decreases |actions|
  {
    if actions == [] then [] else LineActions(n, actions[0]) + LineTrace(NetNext(n, actions[0]), actions[1..])
  }

  lemma {:induction false} RunConcat(l: Line, k: Link, xs: seq<LineAction>, ys: seq<LineAction>)
    requires TxOk(l.tx, k.near)
    ensures LineRun(l, k, xs + ys) == LineRun(LineRun(l, k, xs), k, ys)
    decreases |xs|
  {
    if xs == [] {
      assert xs + ys == ys;
    } else {
      assert (xs + ys)[1..] == xs[1..] + ys;
      RunConcat(LineNext(l, k, xs[0]), k, xs[1..], ys);
    }
  }

  /** Refinement: a run of the network, seen in one direction, is a run of the line. */
  lemma {:induction false} NetworkRefinesLine(n: Net, actions: seq<NetAction>)
    requires NetWf(n) && NoAskA(actions)
    ensures NetWf(NetRun(n, actions))
    ensures Direction(NetRun(n, actions)) == LineRun(Direction(n), LinkOf(n), LineTrace(n, actions))
    decreases |actions|
  {
    if actions != [] {
      DirectionStep(n, actions[0]);
      NetworkRefinesLine(NetNext(n, actions[0]), actions[1..]);
      RunConcat(Direction(n), LinkOf(n), LineActions(n, actions[0]), LineTrace(NetNext(n, actions[0]), actions[1..]));
    }
  }

  // ---- From a request of `a` on ----

  /** Before the request: `a` has sent no data frame, `b` no flow control; `b`'s receiver is at
      rest with its offset at 0; whatever `b` is sending itself does not matter. */
  ghost predicate Ready(n: Net, p: seq<Byte>) {
    && NetWf(n) && Fresh(n.a.tx, n.a.cfg, p)
    && Part(n.a.io, true) == QuietIo(n.a.io.accept) && Part(n.b.io, false) == QuietIo(n.b.io.accept)
    && !n.b.rx.IsBusy() && n.b.rx.passed == 0
  }

  /** What `a` carries when asked for `p`: that message itself, unless its last consecutive frame
      was refused and it gave up then. */
  function Carries(n: Net, p: seq<Byte>): (q: seq<Byte>)
    requires Sendable(p, n.a.cfg)
    ensures |q| == |p| && (n.a.tx.prevDataSent ==> q == p)
  {
    Carried(n.a.tx.prevDataSent, p, n.a.cfg)
  }

  lemma NothingRead(sent: seq<CanFrame>, i: nat, flow: bool)
    requires i <= |sent| && Flows(sent, flow) == []
    ensures Flows(sent[..i], flow) == []
    decreases |sent|
  {
    if i < |sent| {
      var f := sent[|sent| - 1];
      assert Flows(sent[..|sent| - 1], flow) == [];
      NothingRead(sent[..|sent| - 1], i, flow);
      assert sent[..|sent| - 1][..i] == sent[..i];
    } else {
      assert sent[..i] == sent;
    }
  }

  lemma ReadyStarts(n: Net, p: seq<Byte>)
    requires Ready(n, p)
    ensures NetWf(AskedA(n, p))
    ensures Started(Direction(AskedA(n, p)), LinkOf(n), Carries(n, p))
  {
    var now := Now(n.clock);
    var n' := AskedA(n, p);
    RequestNode(n.a, p, now);
    SamePrefix(n.a.io.sent, n'.a.io.sent, n.bRead);
    NothingRead(n.a.io.sent, n.bRead, false);
    NothingRead(n.b.io.sent, n.aRead, true);
    var l := Direction(n');
    assert StartedFrom(l, LinkOf(n), Carries(n, p), n.a.tx, p, now);
  }

  /** The deliveries in a node's log are those in its receiver's part of it. */
  lemma {:induction false} DeliveredPart(log: seq<IsoEvent>)
    ensures Delivered(Events(log, false)) == Delivered(log)
    decreases |log|
  {
    if log != [] {
      var e := log[|log| - 1];
      DeliveredPart(log[..|log| - 1]);
      DeliveredLogged(Events(log[..|log| - 1], false), e);
      assert Events(log[..|log| - 1], false) + [] == Events(log[..|log| - 1], false);
    }
  }

  /** End-to-end delivery. Node `a` is asked once to send `p`. In every interleaving of polls,
      frame deliveries, clock ticks and requests of the other node - with messages crossing in
      both directions and timers running out - node `b`'s client is handed what `a` carries, which
      is `p` if its sender's flag is set, or nothing, and at most once. */
  lemma EndToEndDelivery(n: Net, p: seq<Byte>, actions: seq<NetAction>)
    requires Ready(n, p) && NoAskA(actions)
    ensures var log := NetRun(AskedA(n, p), actions).b.io.log;
            Delivered(log) == [] || Delivered(log) == [Carries(n, p)]
  {
    ReadyStarts(n, p);
    var n1 := AskedA(n, p);
    NetworkRefinesLine(n1, actions);
    LineDelivery(Direction(n1), LinkOf(n1), Carries(n, p), LineTrace(n1, actions));
    DeliveredPart(NetRun(n1, actions).b.io.log);
  }

  /** Nothing of the message is on the way and its sender neither sends nor pauses. */
  predicate DirectionQuiet(n: Net)
    requires n.bRead <= |n.a.io.sent| && n.aRead <= |n.b.io.sent|
  {
    Quiet(Direction(n))
  }

  /** A run after the request, as a run of the line. */
  lemma RequestRun(n: Net, p: seq<Byte>, actions: seq<NetAction>) returns (l1: Line, trace: seq<LineAction>)
    requires Ready(n, p) && NoAskA(actions)
    ensures Started(l1, LinkOf(n), Carries(n, p)) && |l1.rx.rxbuff| == |n.b.rx.rxbuff|
    ensures var r := NetRun(AskedA(n, p), actions);
            NetWf(r) && LinkOf(r) == LinkOf(n) && Direction(r) == LineRun(l1, LinkOf(n), trace)
  {
    ReadyStarts(n, p);
    var n1 := AskedA(n, p);
    NetworkRefinesLine(n1, actions);
    ConfigsKept(n1, actions);
    l1, trace := Direction(n1), LineTrace(n1, actions);
  }

  lemma {:induction false} ConfigsKept(n: Net, actions: seq<NetAction>)
    requires NetOk(n)
    ensures NetRun(n, actions).a.cfg == n.a.cfg && NetRun(n, actions).b.cfg == n.b.cfg
    decreases |actions|
  {
    if actions != [] {
      ConfigsKept(NetNext(n, actions[0]), actions[1..]);
    }
  }

  /** Completion. If no timer of the direction runs out, neither client is ever told anything
      unexpected about the message, and once nothing is left to do, `a` has been confirmed
      exactly once and `b` has been handed what `a` carries exactly once (or `a` has been told that
      it does not fit). */
  lemma EndToEndCompletion(n: Net, p: seq<Byte>, actions: seq<NetAction>)
    requires Ready(n, p) && NoAskA(actions)
    requires var r := NetRun(AskedA(n, p), actions);
             NoTimeout(Events(r.a.io.log, true)) && NoTimeout(Events(r.b.io.log, false))
    ensures var r := NetRun(AskedA(n, p), actions);
            var q, room := Carries(n, p), |n.b.rx.rxbuff|;
            && NetWf(r)
            && Events(r.a.io.log, true) <= SenderVerdict(q, LinkOf(n), room)
            && Events(r.b.io.log, false) <= ReceiverVerdict(q, LinkOf(n), room)
            && (DirectionQuiet(r) ==>
                  && Events(r.a.io.log, true) == SenderVerdict(q, LinkOf(n), room)
                  && Events(r.b.io.log, false) == ReceiverVerdict(q, LinkOf(n), room))
  {
    var l1, trace := RequestRun(n, p, actions);
    LineCompletion(l1, LinkOf(n), Carries(n, p), trace);
  }

  /** In every reachable state the data frame `b` reads next is one its receiver can handle: the
      source's assertion holds and the copy of a first frame stays inside the buffer. */
  lemma NextFrameAcceptable(n: Net, p: seq<Byte>, actions: seq<NetAction>)
    requires Ready(n, p) && NoAskA(actions)
    ensures var r := NetRun(AskedA(n, p), actions);
            r.bRead < |r.a.io.sent| && !IsFlowFrame(r.a.io.sent[r.bRead].data) ==>
              var f := r.a.io.sent[r.bRead];
              Readable(f, r.b.cfg) && FrameOk(f.data) && CopyFits(r.b.rx, f.data)
  {
    var l1, trace := RequestRun(n, p, actions);
    var r := NetRun(AskedA(n, p), actions);
    StartedSafe(l1, LinkOf(n), Carries(n, p));
    SafeRun(l1, LinkOf(n), Carries(n, p), trace);
    if r.bRead < |r.a.io.sent| && !IsFlowFrame(r.a.io.sent[r.bRead].data) {
      NextDataFrame(r, Carries(n, p));
    }
  }

  lemma NextDataFrame(r: Net, p: seq<Byte>)
    requires NetWf(r) && Safe(Direction(r), LinkOf(r), p)
    requires r.bRead < |r.a.io.sent| && !IsFlowFrame(r.a.io.sent[r.bRead].data)
    ensures var f := r.a.io.sent[r.bRead];
            Readable(f, r.b.cfg) && FrameOk(f.data) && CopyFits(r.b.rx, f.data)
  {
    var l := Direction(r);
    FlowsAt(r.a.io.sent, r.bRead, |r.a.io.sent|, false);
    assert r.a.io.sent[..|r.a.io.sent|] == r.a.io.sent;
    SentPrefix(l, LinkOf(r), p);
    var k := l.dataRead;
    assert l.txIo.sent[k] == Segments(p, r.a.cfg)[k];
    assert Shaped(r.a.io.sent[r.bRead], r.a.cfg);
    if k == 0 {
      HeadFrameHeader(p, r.a.cfg);
    } else {
      SegmentNumber(p, r.a.cfg, k);
    }
  }

  // ---- Both directions at once ----

  function MirrorAll(actions: seq<NetAction>): (r: seq<NetAction>)
    ensures |r| == |actions| && forall i :: 0 <= i < |r| ==> r[i] == Mirror(actions[i])
  {
    seq(|actions|, i requires 0 <= i < |actions| => Mirror(actions[i]))
  }

  lemma SwapStep(n: Net, x: NetAction)
    requires NetOk(n)
    ensures NetNext(Swap(n), Mirror(x)) == Swap(NetNext(n, x))
  {
  }

  lemma {:induction false} SwapRun(n: Net, actions: seq<NetAction>)
    requires NetOk(n)
    ensures NetRun(Swap(n), MirrorAll(actions)) == Swap(NetRun(n, actions))
    decreases |actions|
  {
    if actions != [] {
      SwapStep(n, actions[0]);
      SwapRun(NetNext(n, actions[0]), actions[1..]);
      assert MirrorAll(actions)[1..] == MirrorAll(actions[1..]);
    }
  }

  predicate NoAsks(actions: seq<NetAction>) {
    forall i :: 0 <= i < |actions| ==> !actions[i].AskA? && !actions[i].AskB?
  }

  /** After `a`'s request the other direction is as ready as before. */
  lemma StillReady(n: Net, p: seq<Byte>, q: seq<Byte>)
    requires Ready(n, p) && Ready(Swap(n), q)
    ensures Ready(Swap(AskedA(n, p)), q)
  {
    var a := NodeRequest(n.a, p, Now(n.clock));
    RequestNode(n.a, p, Now(n.clock));
    MovedA(n, a, n.aRead);
    ReadyAgain(n, a, q);
  }

  lemma ReadyAgain(n: Net, a: Node, q: seq<Byte>)
    requires Ready(Swap(n), q) && NetWf(n.(a := a)) && a.cfg == n.a.cfg && a.io.accept == n.a.io.accept
    requires a.rx == n.a.rx && Part(a.io, false) == Part(n.a.io, false)
    ensures Ready(Swap(n.(a := a)), q)
  {
    SwapWf(n.(a := a));
  }

  lemma SwapWf(n: Net)
    requires NetWf(n)
    ensures NetWf(Swap(n))
  {
  }

  /** The message of `b`. */
  lemma OtherDelivery(n: Net, q: seq<Byte>, actions: seq<NetAction>)
    requires NetOk(n) && Ready(Swap(n), q) && NoAsks(actions)
    ensures var log := NetRun(AskedB(n, q), actions).a.io.log;
            Delivered(log) == [] || Delivered(log) == [Carries(Swap(n), q)]
  {
    EndToEndDelivery(Swap(n), q, MirrorAll(actions));
    OtherSide(AskedB(n, q), actions);
  }

  lemma RunAskB(n: Net, q: seq<Byte>, actions: seq<NetAction>)
    requires NetOk(n)
    ensures NetRun(n, [AskB(q)] + actions) == NetRun(AskedB(n, q), actions)
  {
    assert ([AskB(q)] + actions)[1..] == actions;
  }

  lemma OtherSide(n: Net, actions: seq<NetAction>)
    requires NetOk(n)
    ensures NetRun(Swap(n), MirrorAll(actions)).b == NetRun(n, actions).a
  {
    SwapRun(n, actions);
  }

  /** Both nodes are asked to send, and their frames and flow controls share the two queues: each
      message arrives at the other side as it was carried or not at all, and at most once. */
  lemma FullDuplexDelivery(n: Net, p: seq<Byte>, q: seq<Byte>, actions: seq<NetAction>)
    requires Ready(n, p) && Ready(Swap(n), q) && NoAsks(actions)
    ensures var r := NetRun(AskedB(AskedA(n, p), q), actions);
            && (Delivered(r.b.io.log) == [] || Delivered(r.b.io.log) == [Carries(n, p)])
            && (Delivered(r.a.io.log) == [] || Delivered(r.a.io.log) == [Carries(Swap(n), q)])
  {
    EndToEndDelivery(n, p, [AskB(q)] + actions);
    RunAskB(AskedA(n, p), q, actions);
    StillReady(n, p, q);
    OtherDelivery(AskedA(n, p), q, actions);
  }
}
