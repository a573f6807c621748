/** Blocks and flow controls between two nodes: what `Lockstep` and `FlowCount` prove of a line,
    seen in the frames on the two queues (src/uds/isotp/docan-sender.cpp:33-187,
    src/uds/isotp/docan-receiver.cpp:45-97). */
module NodeBlocks {
  import opened IsoTpTypes
  import opened Timers
  import opened TpPort
  import opened Sender
  import opened Receiver
  import opened Transport
  import opened Segmentation
  import opened SenderRuns
  import opened Reassembly
  import opened Line
  import opened Lockstep
  import opened FlowCount
  import opened Network
  import opened Duplex

  /** How often `a` comes to wait for a flow control during a run. */
  function NodeWaits(n: Net, actions: seq<NetAction>): nat
    requires NetOk(n)
    decreases |actions|
  {
    if actions == [] then 0
    else
      var n1 := NetNext(n, actions[0]);
      (if n.a.tx.state != Wait && n1.a.tx.state == Wait then 1 else 0) + NodeWaits(n1, actions[1..])
  }

  /** The waits of one step and of those after it. */
  lemma WaitsOfStep(l: Line, l1: Line, k: Link, step: seq<LineAction>, rest: seq<LineAction>)
    requires TxOk(l.tx, k.near) && |step| <= 1 && l1 == LineRun(l, k, step)
    ensures Waits(l, k, step + rest) == (if EntersWait(l, l1) then 1 else 0) + Waits(l1, k, rest)
  {
    if step == [] {
      assert step + rest == rest;
    } else {
      assert step == [step[0]] && (step + rest)[1..] == rest;
      OneAction(l, k, step[0]);
    }
  }

  lemma {:induction false} NodeWaitsAreWaits(n: Net, actions: seq<NetAction>)
    requires NetWf(n) && NoAskA(actions)
    ensures NodeWaits(n, actions) == Waits(Direction(n), LinkOf(n), LineTrace(n, actions))
    decreases |actions|
  {
    if actions != [] {
      var n1 := NetNext(n, actions[0]);
      DirectionStep(n, actions[0]);
      NodeWaitsAreWaits(n1, actions[1..]);
      WaitsOfStep(Direction(n), Direction(n1), LinkOf(n), LineActions(n, actions[0]), LineTrace(n1, actions[1..]));
    }
  }

  /** The data frames `a` has sent and those `b` has read; the flow controls `b` has sent and those
      `a` has read. */
  datatype Traffic = Traffic(sent: nat, taken: nat, granted: nat, read: nat)

  function TrafficOf(n: Net): Traffic
    requires n.bRead <= |n.a.io.sent| && n.aRead <= |n.b.io.sent|
  {
    Traffic(|Flows(n.a.io.sent, false)|, |Flows(n.a.io.sent[..n.bRead], false)|,
            |Flows(n.b.io.sent, true)|, |Flows(n.b.io.sent[..n.aRead], true)|)
  }

  /** Both ends of a message of `total` frames agree, after `waits` waits and under the block size
      that `n` began with. */
  ghost predicate BlocksAgree(n: Net, r: Net, total: nat, waits: nat)
    requires NetWf(r)
  {
    var limit, t := BlockLimit(n.b.rx.blksize), TrafficOf(r);
    && t.taken <= t.sent <= total && t.read <= t.granted
    && waits == t.read + (if r.a.tx.state == Wait then 1 else 0)
    && (1 <= t.taken < total ==>
          InStep(r.a.tx.state, r.a.tx.currblknum, r.b.rx.currblkn, t.sent - t.taken, t.granted - t.read, limit))
    && (t.taken == total ==> total >= 2 && t.granted == 1 + (total - 2) / limit == waits)
  }

  /** While `a` sends a segmented message that fits and no timer of this direction runs out: the
      blocks at both ends agree with the frames and the flow control on the way; `a` has waited
      once for each flow control it has read and once more if it is waiting; and a whole message
      of n consecutive frames has taken exactly 1 + (n - 1) / BS flow controls and as many waits
      (BS 0 counting as 1), whatever `b` sends at the same time. */
  lemma BlocksEndToEnd(n: Net, p: seq<Byte>, actions: seq<NetAction>)
    requires Ready(n, p) && NoAskA(actions) && Segmented(p, n.a.cfg) && |p| <= |n.b.rx.rxbuff|
    requires var r := NetRun(AskedA(n, p), actions);
             NoTimeout(Events(r.a.io.log, true)) && NoTimeout(Events(r.b.io.log, false))
    ensures var r := NetRun(AskedA(n, p), actions);
            NetWf(r) && BlocksAgree(n, r, |Segments(p, n.a.cfg)|, 1 + NodeWaits(AskedA(n, p), actions))
  {
    var q, n1 := Carries(n, p), AskedA(n, p);
    ReadyStarts(n, p);
    SameCount(p, q, n.a.cfg);
    assert n1.b == n.b;
    BlocksOfNodes(n1, q, actions);
  }

  lemma {:induction false} SameTailCount(p: seq<Byte>, q: seq<Byte>, i: nat, cfg: Config)
    requires cfg.candl >= 8 && |p| == |q|
    ensures |Tail(p, i, cfg)| == |Tail(q, i, cfg)|
    decreases |p|
  {
    if p != [] {
      var n := Min(cfg.candl - 1, |p|);
      SameTailCount(p[n..], q[n..], i + 1, cfg);
    }
  }

  /** Messages of one length take the same number of frames. */
  lemma SameCount(p: seq<Byte>, q: seq<Byte>, cfg: Config)
    requires Sendable(p, cfg) && |p| == |q|
    ensures Sendable(q, cfg) && |Segments(p, cfg)| == |Segments(q, cfg)|
  {
    var f := FirstLength(|p|, cfg.candl);
    SameTailCount(p[f..], q[f..], 1, cfg);
  }

  /** The same from just after the request. */
  lemma BlocksOfNodes(n: Net, p: seq<Byte>, actions: seq<NetAction>)
    requires NetWf(n) && NoAskA(actions) && Started(Direction(n), LinkOf(n), p)
    requires Segmented(p, n.a.cfg) && |p| <= |n.b.rx.rxbuff|
    requires var r := NetRun(n, actions); NoTimeout(Events(r.a.io.log, true)) && NoTimeout(Events(r.b.io.log, false))
    ensures var r := NetRun(n, actions);
            NetWf(r) && BlocksAgree(n, r, |Segments(p, n.a.cfg)|, 1 + NodeWaits(n, actions))
  {
    NetworkRefinesLine(n, actions);
    NodeWaitsAreWaits(n, actions);
    BlocksOfLine(Direction(n), LinkOf(n), p, LineTrace(n, actions));
  }

  lemma BlocksOfLine(l: Line, k: Link, p: seq<Byte>, actions: seq<LineAction>)
    requires Started(l, k, p) && Segmented(p, k.near) && |p| <= |l.rx.rxbuff| && OnTime(LineRun(l, k, actions))
    ensures var r := LineRun(l, k, actions);
            var total, limit := |Segments(p, k.near)|, BlockLimit(l.rx.blksize);
            var waits := 1 + Waits(l, k, actions);
            && r.dataRead <= |r.txIo.sent| <= total && r.flowRead <= |r.rxIo.sent|
            && waits == r.flowRead + (if r.tx.state == Wait then 1 else 0)
            && (1 <= r.dataRead < total ==>
                  InStep(r.tx.state, r.tx.currblknum, r.rx.currblkn,
                         |r.txIo.sent| - r.dataRead, |r.rxIo.sent| - r.flowRead, limit))
            && (r.dataRead == total ==> total >= 2 && |r.rxIo.sent| == 1 + (total - 2) / limit == waits)
  {
    var t := Terms(l.rx.blksize, l.rx.stmin);
    StartedLock(l, k, p);
    StartedWaits(l, k, p);
    TallyRun(l, k, p, t, 1, actions);
    FlowControlsCounted(l, k, p, actions);
    SeveralSegments(p, k.near);
    InBlock(LineRun(l, k, actions), k, p, t);
  }

  lemma InBlock(r: Line, k: Link, p: seq<Byte>, t: Terms)
    requires Under(r, k, p, t)
    ensures r.dataRead <= |r.txIo.sent| <= |Segments(p, k.near)| && r.flowRead <= |r.rxIo.sent|
    ensures 1 <= r.dataRead < |Segments(p, k.near)| ==>
              InStep(r.tx.state, r.tx.currblknum, r.rx.currblkn,
                     |r.txIo.sent| - r.dataRead, |r.rxIo.sent| - r.flowRead, BlockLimit(t.bs))
  {
    SeveralSegments(p, k.near);
  }
}
