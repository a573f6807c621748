/** The receiver fed with the frames of a message (src/uds/isotp/docan-receiver.cpp:21-125):
    what it delivers, what a stale buffer offset does to it, and what it notices of lost frames. */
module Reassembly {
  import opened IsoTpTypes
  import opened Timers
  import opened Pci
  import opened TpPort
  import opened Receiver
  import Sender
  import opened Segmentation

  predicate IsDelivery(e: IsoEvent) {
    e.event == Data && e.result == OkR && e.address == Physical
  }

  /** The messages a log hands to the client, oldest first. */
  function Delivered(log: seq<IsoEvent>): seq<seq<Byte>> {
    if log == [] then []
    else
      var e := log[|log| - 1];
      Delivered(log[..|log| - 1]) + if IsDelivery(e) then [e.payload] else []
  }

  lemma DeliveredLogged(log: seq<IsoEvent>, e: IsoEvent)
    ensures Delivered(log + [e]) == Delivered(log) + if IsDelivery(e) then [e.payload] else []
  {
    assert (log + [e])[..|log|] == log;
  }

  /** A frame length at which the receiver works, too: its assertion excludes 64. */
  predicate Receivable(p: seq<Byte>, cfg: Config) {
    Sendable(p, cfg) && cfg.candl < CANFD_DL_MAX
  }

  predicate Segmented(p: seq<Byte>, cfg: Config)
    requires Sendable(p, cfg)
  {
    DataHeader(|p|, cfg.candl).kind == FirstFrame
  }

  function First(p: seq<Byte>, cfg: Config): (n: nat)
    requires Sendable(p, cfg)
    ensures n <= |p|
  {
    Sender.FirstLength(|p|, cfg.candl)
  }

  // ---- Reading back the frames of a message ----

  lemma HeadFrameHeader(p: seq<Byte>, cfg: Config)
    requires Receivable(p, cfg)
    ensures var f := HeadFrame(p, cfg).data;
            var m := Unpack(f);
            && |f| == cfg.candl
            && m == PciMeta(if Segmented(p, cfg) then FF(|p|) else SF(|p|), |DataHeader(|p|, cfg.candl).bytes|)
            && 0 < m.pcilen <= |f|
            && f[m.pcilen..][..First(p, cfg)] == p[..First(p, cfg)]
            && (Segmented(p, cfg) ==> |f| - m.pcilen == First(p, cfg) < |p|)
            && (!Segmented(p, cfg) ==> First(p, cfg) == |p|)
  {
    var h := DataHeader(|p|, cfg.candl).bytes;
    var n := First(p, cfg);
    var body := p[..n] + Fill(cfg.padding, cfg.candl - |h| - n);
    var f := HeadFrame(p, cfg).data;
    assert f == h + body;
    DataHeaderRoundTrip(|p|, cfg.candl, body);
    assert f[|h|..] == body;
  }

  lemma CfFrameHeader(chunk: seq<Byte>, k: nat, cfg: Config)
    requires |chunk| < cfg.candl
    ensures var f := CfFrame(chunk, k, cfg).data;
            |f| == cfg.candl && Unpack(f) == PciMeta(CF(k % 16), 1) && f[1..][..|chunk|] == chunk
  {
    var body := chunk + Fill(cfg.padding, cfg.candl - 1 - |chunk|);
    assert CfFrame(chunk, k, cfg).data == [ConsecutiveHeader(k % 16)] + body;
    ConsecutiveRoundTrip(k % 16, body);
    assert CfFrame(chunk, k, cfg).data[1..] == body;
  }

  /** The next consecutive frame of a message whose first `passed` bytes are through. */
  lemma NextSegment(p: seq<Byte>, cfg: Config, passed: nat, n: nat)
    requires Sendable(p, cfg) && passed < |p| && n < |Segments(p, cfg)|
    requires Segments(p, cfg)[n..] == Tail(p[passed..], n, cfg)
    ensures var len := Min(cfg.candl - 1, |p| - passed);
            && Segments(p, cfg)[n] == CfFrame(p[passed..passed + len], n, cfg)
            && Segments(p, cfg)[n + 1..] == Tail(p[passed + len..], n + 1, cfg)
            && (passed + len == |p| <==> n + 1 == |Segments(p, cfg)|)
  {
    var len := Min(cfg.candl - 1, |p| - passed);
    var rest := p[passed..];
    assert rest[..len] == p[passed..passed + len] && rest[len..] == p[passed + len..];
    assert Segments(p, cfg)[n] == Segments(p, cfg)[n..][0];
    assert Segments(p, cfg)[n + 1..] == Segments(p, cfg)[n..][1..];
  }

  // ---- A reception in progress ----

  /** The receiver has taken the first `n` frames of `p` and its buffer holds the beginning of
      `q`, which agrees with `p` from the first consecutive frame on. */
  ghost predicate Receiving(rx: RxState, p: seq<Byte>, q: seq<Byte>, cfg: Config, n: nat)
    requires Sendable(p, cfg)
  {
    && |q| == |p| && q[First(p, cfg)..] == p[First(p, cfg)..]
    && rx.IsBusy() && rx.rxsize == |p| <= |rx.rxbuff|
    && First(p, cfg) <= rx.passed < |p| && rx.rxbuff[..rx.passed] == q[..rx.passed]
    && 1 <= n < |Segments(p, cfg)| && rx.expectsn == n % 256
    && Segments(p, cfg)[n..] == Tail(p[rx.passed..], n, cfg)
  }

  lemma OverlayPrefix(buf: Buffer, at: nat, chunk: seq<Byte>, q: seq<Byte>)
    requires at + |chunk| <= |q| <= |buf| && buf[..at] == q[..at] && chunk == q[at..at + |chunk|]
    ensures Overlay(buf, at, chunk)[..at + |chunk|] == q[..at + |chunk|]
  {
    var r := Overlay(buf, at, chunk);
    forall i | 0 <= i < at + |chunk|
      ensures r[i] == q[i]
    {
      if i < at {
        assert buf[i] == buf[..at][i] == q[..at][i];
      } else {
        assert chunk[i - at] == q[at..at + |chunk|][i - at];
      }
    }
  }

  /** Taking the bytes that come next in `q`. */
  lemma TakeChunk(rx: RxState, q: seq<Byte>, offered: seq<Byte>, len: nat, now: Word)
    requires rx.passed < rx.rxsize == |q| <= |rx.rxbuff| && rx.rxbuff[..rx.passed] == q[..rx.passed]
    requires len <= |offered| && len == Min(|offered|, |q| - rx.passed)
    requires offered[..len] == q[rx.passed..rx.passed + len]
    ensures WantedLength(rx, |offered|) == len
    ensures var t := Taken(rx, offered[..len], now);
            && t.passed == rx.passed + len && t.rxbuff[..t.passed] == q[..t.passed]
            && |t.rxbuff| == |rx.rxbuff|
            && (t.passed == |q| ==> Assembled(t) == q)
  {
    OverlayPrefix(rx.rxbuff, rx.passed, offered[..len], q);
    assert q[..|q|] == q;
  }

  /** The frame that is due: the reception goes on, or `q` is delivered. */
  lemma TakeNext(rx: RxState, io: Io, own: Config, p: seq<Byte>, q: seq<Byte>, cfg: Config, n: nat, now: Word)
    requires Receivable(p, cfg) && Receiving(rx, p, q, cfg, n)
    ensures var r := ReceiveStep(rx, io, own, Segments(p, cfg)[n].data, now);
            && (n + 1 < |Segments(p, cfg)| ==> Receiving(r.rx, p, q, cfg, n + 1) && r.io.log == io.log)
            && (n + 1 == |Segments(p, cfg)| ==>
                  !r.rx.IsBusy() && r.rx.passed == |p| && r.rx.rxbuff[..|p|] == q &&
                  r.io.log == io.log + [RxEvent(Data, OkR, q, |q|)])
            && |r.rx.rxbuff| == |rx.rxbuff|
  {
    var f := Segments(p, cfg)[n].data;
    var len := Min(cfg.candl - 1, |p| - rx.passed);
    NextSegment(p, cfg, rx.passed, n);
    CfFrameHeader(p[rx.passed..rx.passed + len], n, cfg);
    ConsecutiveReceived(rx, io, own, f, n % 16, now);
    TakeDue(rx, io, own, p, q, cfg, n, f[1..], len, now);
  }

  lemma ConsecutiveReceived(rx: RxState, io: Io, own: Config, data: seq<Byte>, sn: Byte, now: Word)
    requires |data| >= 1 && Unpack(data) == PciMeta(CF(sn), 1)
    ensures ReceiveStep(rx, io, own, data, now) == ConsecutiveStep(rx, io, own, sn, data[1..], now)
  {
  }

  /** The same for the frame's number and its bytes. */
  lemma TakeDue(rx: RxState, io: Io, own: Config, p: seq<Byte>, q: seq<Byte>, cfg: Config, n: nat,
                offered: seq<Byte>, len: nat, now: Word)
    requires Receivable(p, cfg) && Receiving(rx, p, q, cfg, n)
    requires |offered| == cfg.candl - 1 && len == Min(cfg.candl - 1, |p| - rx.passed)
    requires offered[..len] == p[rx.passed..rx.passed + len]
    ensures var r := ConsecutiveStep(rx, io, own, n % 16, offered, now);
            && (n + 1 < |Segments(p, cfg)| ==> Receiving(r.rx, p, q, cfg, n + 1) && r.io.log == io.log)
            && (n + 1 == |Segments(p, cfg)| ==>
                  !r.rx.IsBusy() && r.rx.passed == |p| && r.rx.rxbuff[..|p|] == q &&
                  r.io.log == io.log + [RxEvent(Data, OkR, q, |q|)])
            && |r.rx.rxbuff| == |rx.rxbuff|
  {
    NextSegment(p, cfg, rx.passed, n);
    LowBits(n);
    SameAfterFirst(p, q, First(p, cfg), rx.passed, len);
    TakeChunk(rx, q, offered, len, now);
    NextNumber(n + 1, rx.expectsn);
    TakeInOrder(rx, io, own, n % 16, offered, len, now);
  }

  /** An in-order consecutive frame, whatever it carries. */
  lemma TakeInOrder(rx: RxState, io: Io, own: Config, sn: Byte, offered: seq<Byte>, len: nat, now: Word)
    requires rx.IsBusy() && sn == rx.expectsn % 16 && WantedLength(rx, |offered|) == len <= |offered|
    ensures var r := ConsecutiveStep(rx, io, own, sn, offered, now);
            var t := Taken(rx, offered[..len], now);
            && r.rx.passed == t.passed && r.rx.rxsize == rx.rxsize
            && r.rx.rxbuff == t.rxbuff && r.rx.expectsn == t.expectsn
            && (t.passed == rx.rxsize ==>
                  !r.rx.IsBusy() && r.io.log == io.log + [RxEvent(Data, OkR, Assembled(t), rx.rxsize)])
            && (t.passed != rx.rxsize ==> r.rx.IsBusy() && r.io.log == io.log)
  {
  }

  lemma SameAfterFirst(p: seq<Byte>, q: seq<Byte>, first: nat, at: nat, len: nat)
    requires |p| == |q| && first <= at && at + len <= |p| && q[first..] == p[first..]
    ensures p[at..at + len] == q[at..at + len]
  {
    forall i | at <= i < at + len
      ensures p[i] == q[i]
    {
      assert p[i] == p[first..][i - first] && q[i] == q[first..][i - first];
    }
  }

  /** The receiver's reaction to consecutive frame `j` when `n` is due: it takes the frame
      exactly when a multiple of sixteen frames is missing in between. */
  lemma FrameAfterGap(rx: RxState, io: Io, own: Config, p: seq<Byte>, q: seq<Byte>, cfg: Config, n: nat, j: nat,
                      now: Word)
    requires Receivable(p, cfg) && Receiving(rx, p, q, cfg, n) && n <= j < |Segments(p, cfg)|
    ensures var r := ReceiveStep(rx, io, own, Segments(p, cfg)[j].data, now);
            && ((j - n) % 16 != 0 <==> r == RxOut(rx.(state := RxIdle), Unexpected(io)))
            && ((j - n) % 16 == 0 ==> r.rx.expectsn == (n + 1) % 256 && r.rx.passed > rx.passed)
  {
    SegmentNumber(p, cfg, j);
    LowBits(n);
    NextNumber(n + 1, rx.expectsn);
    GapNumber(n, j);
  }

  lemma GapNumber(n: nat, j: nat)
    requires n <= j
    ensures j % 16 == n % 16 <==> (j - n) % 16 == 0
  {
    var a, b := n / 16, j / 16;
    assert n == 16 * a + n % 16 && j == 16 * b + j % 16;
    assert j - n == 16 * (b - a) + (j % 16 - n % 16);
  }

  lemma {:induction false} TailFrame(rest: seq<Byte>, k: nat, cfg: Config, j: nat)
    requires cfg.candl >= 8 && j < |Tail(rest, k, cfg)|
    ensures |Tail(rest, k, cfg)[j].data| == cfg.candl
    ensures Unpack(Tail(rest, k, cfg)[j].data) == PciMeta(CF((k + j) % 16), 1)
    decreases j
  {
    var n := Min(cfg.candl - 1, |rest|);
    if j == 0 {
      CfFrameHeader(rest[..n], k, cfg);
    } else {
      TailFrame(rest[n..], k + 1, cfg, j - 1);
    }
  }

  /** Frame `j` of a message is a consecutive frame with number j mod 16. */
  lemma SegmentNumber(p: seq<Byte>, cfg: Config, j: nat)
    requires Sendable(p, cfg) && 1 <= j < |Segments(p, cfg)|
    ensures |Segments(p, cfg)[j].data| == cfg.candl && Unpack(Segments(p, cfg)[j].data) == PciMeta(CF(j % 16), 1)
  {
    TailFrame(p[First(p, cfg)..], 1, cfg, j - 1);
  }

  // ---- Whole messages ----

  /** What the receiver makes of a segmented message: the first frame's bytes go to the offset
      where the last reception stopped, all others where they belong. */
  function Content(rx: RxState, p: seq<Byte>, cfg: Config): (q: seq<Byte>)
    requires Sendable(p, cfg) && |p| <= |rx.rxbuff|
    ensures |q| == |p|
  {
    Overlay(rx.rxbuff, rx.passed, p[..First(p, cfg)])[..First(p, cfg)] + p[First(p, cfg)..]
  }

  /** The first frame's bytes end up at the front of the buffer. */
  predicate OwnFront(rx: RxState, p: seq<Byte>, cfg: Config)
    requires Sendable(p, cfg) && |p| <= |rx.rxbuff|
  {
    Overlay(rx.rxbuff, rx.passed, p[..First(p, cfg)])[..First(p, cfg)] == p[..First(p, cfg)]
  }

  /** The first frame of a message that fits the buffer. */
  lemma TakeFirst(rx: RxState, io: Io, own: Config, p: seq<Byte>, cfg: Config, now: Word)
    requires Receivable(p, cfg) && Segmented(p, cfg) && |p| <= |rx.rxbuff|
    ensures var r := ReceiveStep(rx, io, own, HeadFrame(p, cfg).data, now);
            && Receiving(r.rx, p, Content(rx, p, cfg), cfg, 1) && |r.rx.rxbuff| == |rx.rxbuff|
            && r.io.log == (if rx.IsBusy() then Unexpected(io) else io).log + [RxEvent(DataFF, OkR, [], |p|)]
  {
    HeadFrameHeader(p, cfg);
    var n, q := First(p, cfg), Content(rx, p, cfg);
    var m := Unpack(HeadFrame(p, cfg).data);
    assert HeadFrame(p, cfg).data[m.pcilen..] == p[..n];
    assert q[n..] == p[n..];
    assert Segments(p, cfg)[1..] == Tail(p[n..], 1, cfg);
    assert p[n..] != [];
    assert Overlay(rx.rxbuff, rx.passed, p[..n])[..n] == q[..n];
  }

  /** A single frame is handed on as it is. */
  lemma TakeSingle(rx: RxState, io: Io, own: Config, p: seq<Byte>, cfg: Config, now: Word)
    requires Receivable(p, cfg) && !Segmented(p, cfg)
    ensures var r := ReceiveStep(rx, io, own, HeadFrame(p, cfg).data, now);
            && r.rx == rx.(state := RxIdle)
            && r.io == (if rx.IsBusy() then Unexpected(io) else io).Logged(RxEvent(Data, OkR, p, |p|))
    ensures Segments(p, cfg) == [HeadFrame(p, cfg)]
  {
    HeadFrameHeader(p, cfg);
    assert p[..|p|] == p && p[|p|..] == [];
  }

  /** The receiver after these frames; `at(k)` is the tick count when `k` of them are left. */
  function Feed(rx: RxState, io: Io, own: Config, frames: seq<CanFrame>, at: nat -> Word): RxOut
    decreases |frames|
  {
    if frames == [] then RxOut(rx, io)
    else
      var r := ReceiveStep(rx, io, own, frames[0].data, at(|frames|));
      Feed(r.rx, r.io, own, frames[1..], at)
  }

  lemma {:induction false} FeedRest(rx: RxState, io: Io, own: Config, p: seq<Byte>, q: seq<Byte>, cfg: Config, n: nat,
                                    at: nat -> Word)
    requires Receivable(p, cfg) && Receiving(rx, p, q, cfg, n)
    ensures var r := Feed(rx, io, own, Segments(p, cfg)[n..], at);
            && !r.rx.IsBusy() && r.rx.passed == |p| && |r.rx.rxbuff| == |rx.rxbuff| && r.rx.rxbuff[..|p|] == q
            && Delivered(r.io.log) == Delivered(io.log) + [q]
    decreases |Segments(p, cfg)| - n
  {
    var S := Segments(p, cfg);
    var now := at(|S[n..]|);
    TakeNext(rx, io, own, p, q, cfg, n, now);
    var r := ReceiveStep(rx, io, own, S[n].data, now);
    assert S[n..][0] == S[n] && S[n..][1..] == S[n + 1..];
    if n + 1 < |S| {
      FeedRest(r.rx, r.io, own, p, q, cfg, n + 1, at);
    } else {
      DeliveredLogged(io.log, RxEvent(Data, OkR, q, |q|));
      assert S[n + 1..] == [];
    }
  }

  /** What arrives at the client when all frames of a message get through. */
  function Arriving(rx: RxState, p: seq<Byte>, cfg: Config): seq<Byte>
    requires Receivable(p, cfg) && (Segmented(p, cfg) ==> |p| <= |rx.rxbuff|)
  {
    if Segmented(p, cfg) then Content(rx, p, cfg) else p
  }

  /** A message the receiver can take: it fits the buffer, and so does its first frame's part
      behind the offset the last reception left. */
  predicate Placeable(rx: RxState, p: seq<Byte>, cfg: Config)
    requires Receivable(p, cfg)
  {
    Segmented(p, cfg) ==> |p| <= |rx.rxbuff| && rx.passed + First(p, cfg) <= |rx.rxbuff|
  }

  /** That the first frame's part fits is exactly what keeps its copy inside the buffer. */
  lemma PlaceableIff(rx: RxState, p: seq<Byte>, cfg: Config)
    requires Receivable(p, cfg) && (Segmented(p, cfg) ==> |p| <= |rx.rxbuff|)
    ensures Placeable(rx, p, cfg) <==> CopyFits(rx, HeadFrame(p, cfg).data)
  {
    HeadFrameHeader(p, cfg);
  }

  /** A message arrives as sent exactly when the bytes that end up at the front of the buffer
      are its own; with the offset 0 they are. */
  lemma ArrivesUnharmedIff(rx: RxState, p: seq<Byte>, cfg: Config)
    requires Receivable(p, cfg) && (Segmented(p, cfg) ==> |p| <= |rx.rxbuff|)
    ensures Arriving(rx, p, cfg) == p <==> (Segmented(p, cfg) ==> OwnFront(rx, p, cfg))
    ensures rx.passed == 0 ==> Arriving(rx, p, cfg) == p
  {
    if Segmented(p, cfg) {
      var n, q := First(p, cfg), Content(rx, p, cfg);
      assert q[..n] == Overlay(rx.rxbuff, rx.passed, p[..n])[..n];
      assert p == p[..n] + p[n..] && p[..n] + p[n..] == p;
      assert q == q[..n] + p[n..];
    }
  }

  /** All frames of a segmented message, in order. */
  lemma SegmentedDelivered(rx: RxState, io: Io, own: Config, p: seq<Byte>, cfg: Config, at: nat -> Word)
    requires Receivable(p, cfg) && Segmented(p, cfg) && |p| <= |rx.rxbuff| && !rx.IsBusy()
    ensures var r := Feed(rx, io, own, Segments(p, cfg), at);
            && !r.rx.IsBusy() && r.rx.passed == |p| && |r.rx.rxbuff| == |rx.rxbuff|
            && r.rx.rxbuff[..|p|] == Content(rx, p, cfg)
            && Delivered(r.io.log) == Delivered(io.log) + [Content(rx, p, cfg)]
  {
    var S := Segments(p, cfg);
    var now := at(|S|);
    var r := ReceiveStep(rx, io, own, S[0].data, now);
    TakeFirst(rx, io, own, p, cfg, now);
    FeedRest(r.rx, r.io, own, p, Content(rx, p, cfg), cfg, 1, at);
    DeliveredLogged(io.log, RxEvent(DataFF, OkR, [], |p|));
  }

  lemma SingleDelivered(rx: RxState, io: Io, own: Config, p: seq<Byte>, cfg: Config, at: nat -> Word)
    requires Receivable(p, cfg) && !Segmented(p, cfg) && !rx.IsBusy()
    ensures var r := Feed(rx, io, own, Segments(p, cfg), at);
            !r.rx.IsBusy() && r.rx.passed == rx.passed && Delivered(r.io.log) == Delivered(io.log) + [p]
  {
    TakeSingle(rx, io, own, p, cfg, at(1));
    DeliveredLogged(io.log, RxEvent(Data, OkR, p, |p|));
    assert Segments(p, cfg)[1..] == [];
  }

  /** All frames of a message, in order, to an idle receiver that can take it: exactly one
      message is delivered. A single frame arrives as sent. A segmented one arrives as `Content`
      says, which is the payload sent exactly when the bytes that end up at the front of the
      buffer are its own: always after construction or an N_Cr timeout, when the offset is 0. */
  lemma MessageDelivered(rx: RxState, io: Io, own: Config, p: seq<Byte>, cfg: Config, at: nat -> Word)
    requires Receivable(p, cfg) && !rx.IsBusy() && Placeable(rx, p, cfg)
    ensures var r := Feed(rx, io, own, Segments(p, cfg), at);
            var q := Arriving(rx, p, cfg);
            && !r.rx.IsBusy()
            && Delivered(r.io.log) == Delivered(io.log) + [q]
            && (q == p <==> (Segmented(p, cfg) ==> OwnFront(rx, p, cfg)))
            && (rx.passed == 0 ==> q == p)
            && (Segmented(p, cfg) ==> r.rx.passed == |p| && |r.rx.rxbuff| == |rx.rxbuff| && r.rx.rxbuff[..|p|] == q)
  {
    ArrivesUnharmedIff(rx, p, cfg);
    if Segmented(p, cfg) {
      SegmentedDelivered(rx, io, own, p, cfg, at);
    } else {
      SingleDelivered(rx, io, own, p, cfg, at);
    }
  }

  // ---- The offset that is not reset ----

  /** What is written behind `head` leaves `head` at the front. */
  lemma OldFront(buf: seq<Byte>, head: seq<Byte>, chunk: seq<Byte>, n: nat)
    requires n <= |head| <= |buf| && buf[..|head|] == head
    ensures Overlay(buf, |head|, chunk)[..n] == head[..n]
  {
    forall i | 0 <= i < n
      ensures Overlay(buf, |head|, chunk)[i] == head[i]
    {
      assert buf[..|head|][i] == head[i];
    }
  }

  /** A first frame carries at least as little as any segmented message is long. */
  lemma FirstFitsAnyMessage(p1: seq<Byte>, p2: seq<Byte>, cfg: Config)
    requires Sendable(p1, cfg) && Sendable(p2, cfg) && Segmented(p1, cfg) && Segmented(p2, cfg)
    ensures First(p2, cfg) < |p1|
  {
    assert |DataHeader(|p2|, cfg.candl).bytes| >= 2;
  }

  /** The source copies the first frame of the next message behind the last message: inside the
      buffer exactly if both together leave room, and past its end otherwise. */
  lemma SecondCopyFitsIff(rx: RxState, io: Io, own: Config, p1: seq<Byte>, p2: seq<Byte>, cfg: Config, at: nat -> Word)
    requires Receivable(p1, cfg) && Receivable(p2, cfg) && Segmented(p1, cfg) && Segmented(p2, cfg)
    requires !rx.IsBusy() && rx.passed == 0 && |p1| <= |rx.rxbuff| && |p2| <= |rx.rxbuff|
    ensures var r1 := Feed(rx, io, own, Segments(p1, cfg), at);
            CopyFits(r1.rx, HeadFrame(p2, cfg).data) <==> |p1| + First(p2, cfg) <= |rx.rxbuff|
  {
    SegmentedDelivered(rx, io, own, p1, cfg, at);
    PlaceableIff(Feed(rx, io, own, Segments(p1, cfg), at).rx, p2, cfg);
  }

  /** A receiver does not reset its offset when a message is complete. If the next segmented
      message can be placed at all, it arrives with the beginning of the previous one, and is
      right exactly when the two begin alike. */
  lemma SecondMessageKeepsOldHead(rx: RxState, io: Io, own: Config, p1: seq<Byte>, p2: seq<Byte>, cfg: Config,
                                  at: nat -> Word)
    requires Receivable(p1, cfg) && Receivable(p2, cfg) && Segmented(p1, cfg) && Segmented(p2, cfg)
    requires !rx.IsBusy() && rx.passed == 0 && |p2| <= |rx.rxbuff|
    requires |p1| + First(p2, cfg) <= |rx.rxbuff|
    ensures First(p2, cfg) < |p1|
    ensures var r1 := Feed(rx, io, own, Segments(p1, cfg), at);
            var r2 := Feed(r1.rx, r1.io, own, Segments(p2, cfg), at);
            var q := p1[..First(p2, cfg)] + p2[First(p2, cfg)..];
            && Delivered(r2.io.log) == Delivered(io.log) + [p1, q]
            && (q == p2 <==> p1[..First(p2, cfg)] == p2[..First(p2, cfg)])
  {
    FirstFitsAnyMessage(p1, p2, cfg);
    SegmentedDelivered(rx, io, own, p1, cfg, at);
    ArrivesUnharmedIff(rx, p1, cfg);
    var r1 := Feed(rx, io, own, Segments(p1, cfg), at);
    SegmentedDelivered(r1.rx, r1.io, own, p2, cfg, at);
    OldFront(r1.rx.rxbuff, p1, p2[..First(p2, cfg)], First(p2, cfg));
    assert Delivered(io.log) + [p1] + [Content(r1.rx, p2, cfg)] == Delivered(io.log) + [p1, Content(r1.rx, p2, cfg)];
    SameStart(p1[..First(p2, cfg)], p2, First(p2, cfg));
  }

  lemma SameStart(a: seq<Byte>, p: seq<Byte>, n: nat)
    requires |a| == n <= |p|
    ensures a + p[n..] == p <==> a == p[..n]
  {
    assert p == p[..n] + p[n..];
    assert (a + p[n..])[..n] == a;
  }

  // ---- Lost frames ----

  /** The frames that get through: those whose mark is set. */
  function Kept(frames: seq<CanFrame>, keep: seq<bool>): seq<CanFrame>
    requires |keep| == |frames|
  {
    if frames == [] then [] else (if keep[0] then [frames[0]] else []) + Kept(frames[1..], keep[1..])
  }

  predicate AllKept(keep: seq<bool>) {
    forall i :: 0 <= i < |keep| ==> keep[i]
  }

  /** The bytes that `left` consecutive frames carry. */
  function Load(left: nat, cfg: Config): nat
    requires cfg.candl >= 8
  {
    if left == 0 then 0 else cfg.candl - 1 + Load(left - 1, cfg)
  }

  /** Too few bytes are still to come: `left` frames cannot complete the reception. */
  predicate TooShort(rx: RxState, p: seq<Byte>, cfg: Config, left: nat)
    requires cfg.candl >= 8
  {
    rx.IsBusy() ==> rx.rxsize == |p| && rx.passed + Load(left, cfg) < |p|
  }

  /** All but the last of the consecutive frames carry `candl - 1` bytes. */
  lemma {:induction false} TailCovers(rest: seq<Byte>, k: nat, cfg: Config)
    requires cfg.candl >= 8 && rest != []
    ensures |Tail(rest, k, cfg)| >= 1 && Load(|Tail(rest, k, cfg)| - 1, cfg) < |rest|
    decreases |rest|
  {
    var n := Min(cfg.candl - 1, |rest|);
    if rest[n..] != [] {
      TailCovers(rest[n..], k + 1, cfg);
    } else {
      assert Tail(rest[n..], k + 1, cfg) == [];
    }
  }

  /** One consecutive frame, whatever its number: it may be taken or end the reception, but
      does not complete it. */
  lemma ShortStep(rx: RxState, io: Io, own: Config, p: seq<Byte>, cfg: Config, data: seq<Byte>,
                  sn: Byte, left: nat, now: Word)
    requires cfg.candl >= 8 && |data| == cfg.candl && Unpack(data) == PciMeta(CF(sn), 1)
    requires TooShort(rx, p, cfg, left + 1)
    ensures var r := ReceiveStep(rx, io, own, data, now);
            TooShort(r.rx, p, cfg, left) && Delivered(r.io.log) == Delivered(io.log)
  {
    ConsecutiveReceived(rx, io, own, data, sn, now);
    DeliveredLogged(io.log, RxEvent(Data, UnexpPdu, [], 0));
    if rx.IsBusy() && sn == rx.expectsn % 16 {
      assert WantedLength(rx, cfg.candl - 1) == cfg.candl - 1;
      TakeInOrder(rx, io, own, sn, data[1..], cfg.candl - 1, now);
    }
  }

  /** Frame `n` gets through or not; with too few bytes to come it delivers nothing. */
  lemma ShortRunStep(rx: RxState, io: Io, own: Config, p: seq<Byte>, cfg: Config, n: nat,
                     keep: seq<bool>, at: nat -> Word)
    returns (o: RxOut)
    requires Receivable(p, cfg) && 1 <= n <= |Segments(p, cfg)| && |keep| == |Segments(p, cfg)| - n
    requires keep != [] && TooShort(rx, p, cfg, |keep|)
    ensures Feed(rx, io, own, Kept(Segments(p, cfg)[n..], keep), at) ==
            Feed(o.rx, o.io, own, Kept(Segments(p, cfg)[n + 1..], keep[1..]), at)
    ensures TooShort(o.rx, p, cfg, |keep[1..]|) && Delivered(o.io.log) == Delivered(io.log)
  {
    var S := Segments(p, cfg);
    KeptStep(S, n, keep);
    if keep[0] {
      var now := at(|Kept(S[n..], keep)|);
      SegmentNumber(p, cfg, n);
      ShortStep(rx, io, own, p, cfg, S[n].data, n % 16, |keep[1..]|, now);
      o := ReceiveStep(rx, io, own, S[n].data, now);
    } else {
      o := RxOut(rx, io);
    }
  }

  /** With too few bytes to come nothing is delivered any more, whatever else gets lost. */
  lemma {:induction false} NothingDelivered(rx: RxState, io: Io, own: Config, p: seq<Byte>, cfg: Config, n: nat,
                                            keep: seq<bool>, at: nat -> Word)
    requires Receivable(p, cfg) && 1 <= n <= |Segments(p, cfg)| && |keep| == |Segments(p, cfg)| - n
    requires TooShort(rx, p, cfg, |keep|)
    ensures Delivered(Feed(rx, io, own, Kept(Segments(p, cfg)[n..], keep), at).io.log) == Delivered(io.log)
    decreases |keep|
  {
    if keep != [] {
      var o := ShortRunStep(rx, io, own, p, cfg, n, keep, at);
      NothingDelivered(o.rx, o.io, own, p, cfg, n + 1, keep[1..], at);
    }
  }

  /** From the middle of a reception that waits for frame `n` on. */
  lemma {:induction false} LossRun(rx: RxState, io: Io, own: Config, p: seq<Byte>, q: seq<Byte>, cfg: Config, n: nat,
                                   keep: seq<bool>, at: nat -> Word)
    requires Receivable(p, cfg) && Receiving(rx, p, q, cfg, n) && |keep| == |Segments(p, cfg)| - n
    ensures var r := Feed(rx, io, own, Kept(Segments(p, cfg)[n..], keep), at);
            Delivered(r.io.log) == Delivered(io.log) + if AllKept(keep) then [q] else []
    decreases |keep|
  {
    var S := Segments(p, cfg);
    KeptStep(S, n, keep);
    if keep[0] {
      var now := at(|Kept(S[n..], keep)|);
      var r := ReceiveStep(rx, io, own, S[n].data, now);
      TakeNext(rx, io, own, p, q, cfg, n, now);
      LossRunTaken(r.rx, io, r.io, own, p, q, cfg, n, keep, at);
    } else {
      FrameLost(rx, p, q, cfg, n);
      NothingDelivered(rx, io, own, p, cfg, n + 1, keep[1..], at);
    }
  }

  /** Once the frame that is due is lost, the rest is too short. */
  lemma FrameLost(rx: RxState, p: seq<Byte>, q: seq<Byte>, cfg: Config, n: nat)
    requires Receivable(p, cfg) && Receiving(rx, p, q, cfg, n)
    ensures TooShort(rx, p, cfg, |Segments(p, cfg)| - n - 1)
  {
    TailCovers(p[rx.passed..], n, cfg);
    assert |Segments(p, cfg)[n..]| == |Segments(p, cfg)| - n;
  }

  lemma KeptStep(S: seq<CanFrame>, j: nat, keep: seq<bool>)
    requires j < |S| && |keep| == |S| - j
    ensures var frames := Kept(S[j..], keep);
            var later := Kept(S[j + 1..], keep[1..]);
            frames == if keep[0] then [S[j]] + later else later
    ensures keep[0] ==> Kept(S[j..], keep)[0] == S[j] && Kept(S[j..], keep)[1..] == Kept(S[j + 1..], keep[1..])
  {
    assert S[j..][1..] == S[j + 1..] && S[j..][0] == S[j];
  }

  lemma LossRunTaken(rx: RxState, io: Io, io1: Io, own: Config, p: seq<Byte>, q: seq<Byte>, cfg: Config,
                     n: nat, keep: seq<bool>, at: nat -> Word)
    requires Receivable(p, cfg) && n < |Segments(p, cfg)| && |keep| == |Segments(p, cfg)| - n && keep[0]
    requires n + 1 < |Segments(p, cfg)| ==> Receiving(rx, p, q, cfg, n + 1) && io1.log == io.log
    requires n + 1 == |Segments(p, cfg)| ==> !rx.IsBusy() && io1.log == io.log + [RxEvent(Data, OkR, q, |q|)]
    ensures var r := Feed(rx, io1, own, Kept(Segments(p, cfg)[n + 1..], keep[1..]), at);
            Delivered(r.io.log) == Delivered(io.log) + if AllKept(keep) then [q] else []
    decreases |keep|, 0
  {
    AllButFirst(keep);
    if n + 1 < |Segments(p, cfg)| {
      LossRun(rx, io1, own, p, q, cfg, n + 1, keep[1..], at);
    } else {
      DeliveredLogged(io.log, RxEvent(Data, OkR, q, |q|));
      assert keep[1..] == [];
    }
  }

  /** Frames of a message get lost on the way, in any pattern: the message is delivered if and
      only if nothing was lost, even where the four-bit numbers hide the loss. */
  lemma LossDetected(rx: RxState, io: Io, own: Config, p: seq<Byte>, cfg: Config, keep: seq<bool>, at: nat -> Word)
    requires Receivable(p, cfg) && !rx.IsBusy() && Placeable(rx, p, cfg) && |keep| == |Segments(p, cfg)|
    ensures var r := Feed(rx, io, own, Kept(Segments(p, cfg), keep), at);
            Delivered(r.io.log) == Delivered(io.log) + if AllKept(keep) then [Arriving(rx, p, cfg)] else []
    ensures rx.passed == 0 ==> Arriving(rx, p, cfg) == p
  {
    ArrivesUnharmedIff(rx, p, cfg);
    var S := Segments(p, cfg);
    KeptStep(S, 0, keep);
    assert S[0..] == S;
    if !keep[0] {
      NothingDelivered(rx, io, own, p, cfg, 1, keep[1..], at);
    } else if Segmented(p, cfg) {
      SegmentedLoss(rx, io, own, p, cfg, keep, at);
    } else {
      TakeSingle(rx, io, own, p, cfg, at(1));
      SingleDelivered(rx, io, own, p, cfg, at);
      assert keep == [true] && Kept(S, keep) == S;
    }
  }

  lemma SegmentedLoss(rx: RxState, io: Io, own: Config, p: seq<Byte>, cfg: Config, keep: seq<bool>, at: nat -> Word)
    requires Receivable(p, cfg) && Segmented(p, cfg) && !rx.IsBusy() && |p| <= |rx.rxbuff|
    requires |keep| == |Segments(p, cfg)| && keep[0]
    ensures var r := Feed(rx, io, own, Kept(Segments(p, cfg), keep), at);
            Delivered(r.io.log) == Delivered(io.log) + if AllKept(keep) then [Content(rx, p, cfg)] else []
  {
    var S := Segments(p, cfg);
    var frames := Kept(S, keep);
    var now := at(|frames|);
    var r := ReceiveStep(rx, io, own, S[0].data, now);
    TakeFirst(rx, io, own, p, cfg, now);
    DeliveredLogged(io.log, RxEvent(DataFF, OkR, [], |p|));
    assert frames[0] == S[0] && frames[1..] == Kept(S[1..], keep[1..]);
    LossRun(r.rx, r.io, own, p, Content(rx, p, cfg), cfg, 1, keep[1..], at);
    AllButFirst(keep);
  }

  lemma AllButFirst(keep: seq<bool>)
    requires keep != [] && keep[0]
    ensures AllKept(keep) <==> AllKept(keep[1..])
  {
    if AllKept(keep[1..]) {
      forall i | 0 <= i < |keep|
        ensures keep[i]
      {
        assert i > 0 ==> keep[1..][i - 1];
      }
    }
  }
}
