/** The frames of a message, as a function of the payload alone, and the proof that the sender
    emits exactly these (src/uds/isotp/docan-sender.cpp:8-203). */
module Segmentation {
  import opened IsoTpTypes
  import opened Timers
  import opened Pci
  import opened TpPort
  import opened Sender

  predicate Sendable(p: seq<Byte>, cfg: Config) {
    0 < |p| <= MAX_BUFFER && cfg.candl >= 8
  }

  /** A consecutive frame with number `k` and payload part `chunk`. */
  function CfFrame(chunk: seq<Byte>, k: nat, cfg: Config): CanFrame
    requires |chunk| < cfg.candl
  {
    CanFrame(cfg.respId, [CF_CODE + k % 16] + chunk + Fill(cfg.padding, cfg.candl - 1 - |chunk|))
  }

  /** The consecutive frames for `rest`, numbered from `k`. */
  function Tail(rest: seq<Byte>, k: nat, cfg: Config): seq<CanFrame>
    requires cfg.candl >= 8
    decreases |rest|
  {
    if rest == [] then []
    else
      var n := Min(cfg.candl - 1, |rest|);
      [CfFrame(rest[..n], k, cfg)] + Tail(rest[n..], k + 1, cfg)
  }

  /** The single or first frame of a message. */
  function HeadFrame(p: seq<Byte>, cfg: Config): CanFrame
    requires Sendable(p, cfg)
  {
    var h := DataHeader(|p|, cfg.candl).bytes;
    var n := FirstLength(|p|, cfg.candl);
    CanFrame(cfg.respId, h + p[..n] + Fill(cfg.padding, cfg.candl - |h| - n))
  }

  /** All frames of a message: consecutive frame k carries the number k mod 16. */
  function Segments(p: seq<Byte>, cfg: Config): seq<CanFrame>
    requires Sendable(p, cfg)
  {
    [HeadFrame(p, cfg)] + Tail(p[FirstLength(|p|, cfg.candl)..], 1, cfg)
  }

  /** How many bytes a message's first consecutive frame carries. */
  function SecondLength(p: seq<Byte>, cfg: Config): (n: nat)
    requires Sendable(p, cfg)
    ensures FirstLength(|p|, cfg.candl) + n <= |p| && n < cfg.candl
  {
    Min(cfg.candl - 1, |p| - FirstLength(|p|, cfg.candl))
  }

  /** What a sender makes of `p`. The flag says whether its last consecutive frame was taken; if
      not, it does not fill the next one, which after a first frame still holds that frame. */
  function Carried(flag: bool, p: seq<Byte>, cfg: Config): (q: seq<Byte>)
    requires Sendable(p, cfg)
    ensures |q| == |p| && (flag ==> q == p)
  {
    if flag || DataHeader(|p|, cfg.candl).kind != FirstFrame then p
    else
      var n, m := FirstLength(|p|, cfg.candl), SecondLength(p, cfg);
      p[..n] + HeadFrame(p, cfg).data[1..1 + m] + p[n + m..]
  }

  /** From offset `from` on the buffer holds the bytes of `p`. */
  predicate HoldsFrom(buf: seq<Byte>, p: seq<Byte>, from: nat) {
    |p| <= |buf| && forall i :: from <= i < |p| ==> buf[i] == p[i]
  }

  /** From which offset on the transmit buffer is still to be read: with the flag not set, the next
      part is already in the frame buffer. */
  function Ahead(tx: TxState, cfg: Config): (n: nat)
    requires tx.passed < tx.size && cfg.candl >= 2
    ensures n <= tx.size
  {
    if tx.passed == 0 || tx.prevDataSent then tx.passed else tx.passed + ChunkLength(tx, cfg)
  }

  /** The sender is inside the transfer of `p`; its next consecutive frame gets the number `k`.
      After a refused attempt the frame buffer holds the part that comes next, otherwise the
      transmit buffer does. */
  ghost predicate Sending(tx: TxState, cfg: Config, p: seq<Byte>, k: nat) {
    && TxOk(tx, cfg) && tx.IsBusy() && cfg.candl >= 8
    && tx.size == |p| && HoldsFrom(tx.txbuff, p, Ahead(tx, cfg))
    && k >= 1 && tx.sn == (k - 1) % 256
    && (!tx.prevDataSent ==> tx.message[1..1 + ChunkLength(tx, cfg)] == p[tx.passed..tx.passed + ChunkLength(tx, cfg)])
  }

  function NextChunk(tx: TxState, cfg: Config, p: seq<Byte>): seq<Byte>
    requires tx.passed < tx.size == |p| && cfg.candl >= 8
  {
    p[tx.passed..tx.passed + ChunkLength(tx, cfg)]
  }

  lemma NextNumber(k: nat, sn: Byte)
    requires k >= 1 && sn == (k - 1) % 256
    ensures Inc8(sn) == k % 256
  {
  }

  lemma LowBits(k: nat)
    ensures k % 256 % 16 == k % 16
  {
    var q := k / 256;
    assert k == 16 * (16 * q) + k % 256;
  }

  lemma FilledHolds(tx: TxState, cfg: Config, p: seq<Byte>, k: nat)
    requires Sending(tx, cfg, p, k)
    ensures Filled(tx, cfg)[0] == ConsecutiveHeader(Inc8(tx.sn))
    ensures Filled(tx, cfg)[1..1 + ChunkLength(tx, cfg)] == NextChunk(tx, cfg, p)
  {
    var n := ChunkLength(tx, cfg);
    if tx.passed == 0 || tx.prevDataSent {
      assert tx.txbuff[tx.passed..tx.passed + n] == NextChunk(tx, cfg, p);
    } else {
      forall i | 1 <= i < 1 + n
        ensures tx.message[i] == NextChunk(tx, cfg, p)[i - 1]
      {
        assert tx.message[1..1 + n][i - 1] == tx.message[i];
      }
    }
  }

  /** A frame buffer that starts with `used` gives the frame `used` plus padding. */
  lemma PaddedFrame(msg: Message, used: seq<Byte>, cfg: Config)
    requires |used| <= cfg.candl && used <= msg
    ensures FrameOf(Padded(msg, |used|, cfg), cfg) == CanFrame(cfg.respId, used + Fill(cfg.padding, cfg.candl - |used|))
    ensures used <= Padded(msg, |used|, cfg)
  {
    var m := Padded(msg, |used|, cfg);
    assert m[..|used|] == msg[..|used|] == used;
    assert m[..cfg.candl] == used + Fill(cfg.padding, cfg.candl - |used|);
  }

  /** The 8-bit counter wraps at 256; as 16 divides 256 the four bits on the bus do not notice. */
  lemma PreparedFrame(tx: TxState, cfg: Config, p: seq<Byte>, k: nat, now: Word)
    requires Sending(tx, cfg, p, k)
    ensures var t := Prepared(tx, cfg, now);
            && FrameOf(t.message, cfg) == CfFrame(NextChunk(tx, cfg, p), k, cfg)
            && t.message[1..1 + ChunkLength(tx, cfg)] == NextChunk(tx, cfg, p)
            && t.sn == k % 256
  {
    var n, msg := ChunkLength(tx, cfg), Filled(tx, cfg);
    var used := [CF_CODE + k % 16] + NextChunk(tx, cfg, p);
    NextNumber(k, tx.sn);
    LowBits(k);
    FilledHolds(tx, cfg, p, k);
    assert msg[..|used|] == [msg[0]] + msg[1..1 + n] == used;
    PaddedFrame(msg, used, cfg);
    assert Prepared(tx, cfg, now).message[1..1 + n] == used[1..];
  }

  /** The first frame of a message, as Send builds it. */
  lemma FirstTriedFrame(tx: TxState, cfg: Config, p: seq<Byte>)
    requires Sendable(p, cfg)
    ensures FrameOf(FirstTried(tx, cfg, p).message, cfg) == HeadFrame(p, cfg)
  {
    var h := DataHeader(|p|, cfg.candl).bytes;
    var n := FirstLength(|p|, cfg.candl);
    var msg := FirstFilled(tx.message, p, cfg.candl);
    assert msg[..|h| + n] == h + p[..n];
    PaddedFrame(msg, h + p[..n], cfg);
  }

  // ---- What one run of the burst loop emits ----

  /** What is left to send when the next frame gets number `k`. */
  function Remaining(tx: TxState, cfg: Config, p: seq<Byte>, k: nat): seq<CanFrame>
    requires cfg.candl >= 8
  {
    if !tx.IsBusy() || tx.passed > |p| then [] else Tail(p[tx.passed..], k, cfg)
  }

  lemma TailSplit(tx: TxState, cfg: Config, p: seq<Byte>, k: nat)
    requires cfg.candl >= 8 && tx.passed < tx.size == |p|
    ensures Tail(p[tx.passed..], k, cfg) ==
            [CfFrame(NextChunk(tx, cfg, p), k, cfg)] + Tail(p[tx.passed + ChunkLength(tx, cfg)..], k + 1, cfg)
  {
    var n := ChunkLength(tx, cfg);
    var rest := p[tx.passed..];
    assert n == Min(cfg.candl - 1, |rest|);
    assert rest[..n] == NextChunk(tx, cfg, p);
    assert rest[n..] == p[tx.passed + n..];
  }

  /** The bus attempts made between two points, less the frames it took. */
  function Refusals(io: Io, io': Io): int {
    (io'.attempts - io.attempts) - (|io'.sent| - |io.sent|)
  }

  /** From `tx` and `io`, with `k` the next number, the sender got to `r` within one poll:
      it appended a prefix of the remaining frames, numbered on from `k`, and exactly the others
      are left. Each attempt used up a number: at most one was refused, and then the numbers skip
      one. The transfer ended with one confirmation, and only when nothing is left. */
  ghost predicate Emits(tx: TxState, io: Io, r: TxOut, cfg: Config, p: seq<Byte>, k: nat)
    requires cfg.candl >= 8 && tx.passed <= |p|
  {
    && io.sent <= r.io.sent && r.io.accept == io.accept && r.io.attempts > io.attempts
    && Refusals(io, r.io) == (if r.tx.state == MfDt then 1 else 0)
    && r.io.sent + Remaining(r.tx, cfg, p, k + |r.io.sent| - |io.sent|) == io.sent + Tail(p[tx.passed..], k, cfg)
    && (r.tx.IsBusy() ==> Sending(r.tx, cfg, p, k + r.io.attempts - io.attempts) && r.io.log == io.log)
    && (!r.tx.IsBusy() ==> r.io.log == io.log + [TxEvent(OkS)])
    && (r.tx.prevDataSent <==> r.tx.state != MfDt)
    && (r.tx.state != MfDt ==> !r.tx.nAs.active)
  }

  /** One accepted frame: `t` is the sender just before, `f` the frame. */
  lemma AdvancedSends(tx: TxState, t: TxState, io: Io, f: CanFrame, cfg: Config, p: seq<Byte>, k: nat)
    requires Sending(tx, cfg, p, k) && tx.state == MfDt
    requires t == tx.(sn := t.sn, message := t.message, nAs := t.nAs) && t.sn == k % 256
    ensures var a := Advanced(t, ChunkLength(tx, cfg), io);
            && a.tx.passed == tx.passed + ChunkLength(tx, cfg) <= |p|
            && a.io.sent == io.sent && a.io.attempts == io.attempts && a.io.accept == io.accept
            && (a.tx.IsBusy() ==> Sending(a.tx, cfg, p, k + 1) && a.io.log == io.log)
            && (!a.tx.IsBusy() ==> a.io.log == io.log + [TxEvent(OkS)] && a.tx.passed == |p|)
            && a.tx.prevDataSent && !a.tx.nAs.active
  {
  }

  /** A refused frame: `t` is the sender just before, `f` the frame. */
  lemma RefusedEmits(tx: TxState, t: TxState, io: Io, f: CanFrame, cfg: Config, p: seq<Byte>, k: nat)
    requires Sending(tx, cfg, p, k) && tx.state == MfDt && !io.Accepts()
    requires t == tx.(sn := t.sn, message := t.message, nAs := t.nAs) && t.sn == k % 256
    requires t.message[1..1 + ChunkLength(tx, cfg)] == NextChunk(tx, cfg, p)
    ensures Emits(tx, io, TxOut(t.(prevDataSent := false), io.Attempted(f)), cfg, p, k)
  {
    assert Sending(t.(prevDataSent := false), cfg, p, k + 1);
  }

  /** The first frame of a list moves from what is left to what was sent. */
  lemma MoveHead(sent: seq<CanFrame>, f: CanFrame, rest: seq<CanFrame>)
    ensures (sent + [f]) + rest == sent + ([f] + rest)
  {
  }

  /** What the loop's continuation emits, seen from one frame earlier. */
  lemma EmitsMore(tx: TxState, io: Io, a: TxOut, r: TxOut, f: CanFrame, cfg: Config, p: seq<Byte>, k: nat)
    requires cfg.candl >= 8 && tx.passed <= |p| && a.tx.passed <= |p|
    requires a.io.sent == io.sent + [f] && a.io.attempts == io.attempts + 1
    requires a.io.accept == io.accept && a.io.log == io.log
    requires Tail(p[tx.passed..], k, cfg) == [f] + Tail(p[a.tx.passed..], k + 1, cfg)
    requires Emits(a.tx, a.io, r, cfg, p, k + 1)
    ensures Emits(tx, io, r, cfg, p, k)
  {
    MoveHead(io.sent, f, Tail(p[a.tx.passed..], k + 1, cfg));
  }

  lemma {:induction false} BurstEmits(tx: TxState, io: Io, cfg: Config, now: Word, p: seq<Byte>, k: nat)
    requires tx.state == MfDt && Sending(tx, cfg, p, k)
    ensures Emits(tx, io, Burst(tx, io, cfg, now), cfg, p, k)
    decreases tx.size - tx.passed
  {
    var t := Prepared(tx, cfg, now);
    var f := FrameOf(t.message, cfg);
    PreparedFrame(tx, cfg, p, k, now);
    if io.Accepts() {
      var a := Advanced(t, ChunkLength(tx, cfg), io.Attempted(f));
      AcceptedSends(tx, t, io, a, f, cfg, p, k);
      if a.tx.state == MfDt {
        BurstEmits(a.tx, a.io, cfg, now, p, k + 1);
        EmitsMore(tx, io, a, Burst(a.tx, a.io, cfg, now), f, cfg, p, k);
      } else {
        LastEmits(tx, io, a, f, cfg, p, k);
      }
    } else {
      RefusedEmits(tx, t, io, f, cfg, p, k);
    }
  }

  /** What an accepted frame leaves to be sent. */
  lemma AcceptedSends(tx: TxState, t: TxState, io: Io, a: TxOut, f: CanFrame, cfg: Config, p: seq<Byte>, k: nat)
    requires Sending(tx, cfg, p, k) && tx.state == MfDt && io.Accepts()
    requires t == tx.(sn := t.sn, message := t.message, nAs := t.nAs) && t.sn == k % 256
    requires f == CfFrame(NextChunk(tx, cfg, p), k, cfg)
    requires a == Advanced(t, ChunkLength(tx, cfg), io.Attempted(f))
    ensures a.tx.passed <= |p| && a.tx.prevDataSent && !a.tx.nAs.active
    ensures a.io.sent == io.sent + [f] && a.io.attempts == io.attempts + 1 && a.io.accept == io.accept
    ensures Tail(p[tx.passed..], k, cfg) == [f] + Tail(p[a.tx.passed..], k + 1, cfg)
    ensures a.tx.IsBusy() ==> Sending(a.tx, cfg, p, k + 1) && a.io.log == io.log
    ensures !a.tx.IsBusy() ==> a.io.log == io.log + [TxEvent(OkS)] && a.tx.passed == |p|
  {
    AdvancedSends(tx, t, io.Attempted(f), f, cfg, p, k);
    TailAfter(tx, a.tx.passed, f, cfg, p, k);
  }

  lemma TailAfter(tx: TxState, passed: nat, f: CanFrame, cfg: Config, p: seq<Byte>, k: nat)
    requires Sending(tx, cfg, p, k) && passed == tx.passed + ChunkLength(tx, cfg) <= |p|
    requires f == CfFrame(NextChunk(tx, cfg, p), k, cfg)
    ensures Tail(p[tx.passed..], k, cfg) == [f] + Tail(p[passed..], k + 1, cfg)
  {
    TailSplit(tx, cfg, p, k);
  }

  /** The frame after which the loop stops. */
  lemma LastEmits(tx: TxState, io: Io, a: TxOut, f: CanFrame, cfg: Config, p: seq<Byte>, k: nat)
    requires cfg.candl >= 8 && tx.passed <= |p| && a.tx.passed <= |p| && a.tx.state != MfDt
    requires a.io.sent == io.sent + [f] && a.io.attempts == io.attempts + 1 && a.io.accept == io.accept
    requires Tail(p[tx.passed..], k, cfg) == [f] + Tail(p[a.tx.passed..], k + 1, cfg)
    requires a.tx.IsBusy() ==> Sending(a.tx, cfg, p, k + 1) && a.io.log == io.log
    requires !a.tx.IsBusy() ==> a.io.log == io.log + [TxEvent(OkS)] && a.tx.passed == |p|
    requires a.tx.prevDataSent && !a.tx.nAs.active
    ensures Emits(tx, io, a, cfg, p, k)
  {
    MoveHead(io.sent, f, Tail(p[a.tx.passed..], k + 1, cfg));
    if !a.tx.IsBusy() {
      assert p[a.tx.passed..] == [];
    }
  }
}
