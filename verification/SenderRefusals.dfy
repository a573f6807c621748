/** What a refusing bus does to a segmented message: the sender counts a sequence number for
    every attempt (src/uds/isotp/docan-sender.cpp:81) and does not take it back when the
    attempt fails (129-132). */
module SenderRefusals {
  import opened IsoTpTypes
  import opened Timers
  import opened Pci
  import opened TpPort
  import opened Sender
  import opened Segmentation
  import opened SenderRuns

  /** A consecutive frame with another number. */
  function Renumbered(f: CanFrame, k: nat): CanFrame
    requires |f.data| >= 1
  {
    CanFrame(f.id, [CF_CODE + k % 16] + f.data[1..])
  }

  /** Numbering from `k` instead of `m` changes the numbers and nothing else. */
  lemma {:induction false} TailRenumbered(rest: seq<Byte>, k: nat, m: nat, cfg: Config)
    requires cfg.candl >= 8
    ensures |Tail(rest, k, cfg)| == |Tail(rest, m, cfg)|
    ensures forall j :: 0 <= j < |Tail(rest, k, cfg)| ==>
                          |Tail(rest, m, cfg)[j].data| >= 1 &&
                          Tail(rest, k, cfg)[j] == Renumbered(Tail(rest, m, cfg)[j], k + j)
    decreases |rest|
  {
    if rest != [] {
      var n := Min(cfg.candl - 1, |rest|);
      TailRenumbered(rest[n..], k + 1, m + 1, cfg);
      var f, g := CfFrame(rest[..n], k, cfg), CfFrame(rest[..n], m, cfg);
      assert f.data == [CF_CODE + k % 16] + g.data[1..];
    }
  }

  /** If, numbered from `k`, the frames of `rest` are `sent` and then those of `rest'`, the same
      split holds numbered from `m`. */
  lemma TailSuffix(rest: seq<Byte>, rest': seq<Byte>, sent: seq<CanFrame>, k: nat, m: nat, cfg: Config)
    requires cfg.candl >= 8
    requires sent + Tail(rest', k + |sent|, cfg) == Tail(rest, k, cfg)
    ensures |sent| <= |Tail(rest, m, cfg)|
    ensures Tail(rest, m, cfg)[|sent|..] == Tail(rest', m + |sent|, cfg)
  {
    var e := |sent|;
    TailRenumbered(rest, m, k, cfg);
    TailRenumbered(rest', m + e, k + e, cfg);
    var a, b := Tail(rest, m, cfg)[e..], Tail(rest', m + e, cfg);
    SuffixRenumbered(Tail(rest, k, cfg), Tail(rest, m, cfg), Tail(rest', k + e, cfg), b, sent, m);
  }

  /** Two lists of frames that are each other's renumberings have renumbered ends. */
  lemma SuffixRenumbered(X: seq<CanFrame>, Y: seq<CanFrame>, x: seq<CanFrame>, y: seq<CanFrame>,
                         sent: seq<CanFrame>, m: nat)
    requires X == sent + x && |Y| == |X| && |y| == |x|
    requires forall j :: 0 <= j < |X| ==> |X[j].data| >= 1 && Y[j] == Renumbered(X[j], m + j)
    requires forall j :: 0 <= j < |x| ==> |x[j].data| >= 1 && y[j] == Renumbered(x[j], m + |sent| + j)
    ensures Y[|sent|..] == y
  {
    forall j | 0 <= j < |y|
      ensures Y[|sent|..][j] == y[j]
    {
      assert X[|sent| + j] == x[j];
    }
  }

  function Repeat(x: int, n: nat): (r: seq<int>)
    ensures |r| == n && forall i :: 0 <= i < n ==> r[i] == x
  {
    seq(n, _ => x)
  }

  /** For every frame between `a` and `b`, how many attempts had been refused before it since `io0`. */
  function SkipsOf(io0: Io, a: Io, b: Io): seq<int> {
    Repeat(Refusals(io0, a), if |a.sent| <= |b.sent| then |b.sent| - |a.sent| else 0)
  }

  /** For every frame the run puts on the bus, how many attempts had been refused before it. */
  function SkipTrace(io0: Io, w: TxWorld, cfg: Config, actions: seq<TxAction>): seq<int>
    requires WorldOk(w, cfg)
    decreases |actions|
  {
    if actions == [] then []
    else
      var w' := TxNext(w, cfg, actions[0]);
      SkipsOf(io0, w.io, w'.io) + SkipTrace(io0, w', cfg, actions[1..])
  }

  /** The sender is inside the transfer of `p` begun at `io0`; some attempts may have failed. */
  ghost predicate Stumbling(io0: Io, w: TxWorld, cfg: Config, p: seq<Byte>, m: nat)
    requires Sendable(p, cfg)
  {
    && WorldOk(w, cfg) && io0.sent <= w.io.sent && m == |w.io.sent| - |io0.sent| >= 1
    && Refusals(io0, w.io) >= 0
    && (w.tx.IsBusy() ==>
          && Sending(w.tx, cfg, p, m + Refusals(io0, w.io))
          && m <= |Segments(p, cfg)|
          && Segments(p, cfg)[m..] == Tail(p[w.tx.passed..], m, cfg))
  }

  /** The frames `frames`, sent after the first `m` of the message's frames `S`, are the next of
      these but for the numbers. */
  ghost predicate Skipped(S: seq<CanFrame>, m: nat, frames: seq<CanFrame>, skips: seq<int>) {
    && |skips| == |frames| && (frames != [] ==> m + |frames| <= |S|)
    && forall j :: 0 <= j < |frames| ==> SkippedAt(S, m + j, frames[j], skips[j])
  }

  ghost predicate SkippedAt(S: seq<CanFrame>, i: nat, f: CanFrame, skip: int) {
    skip >= 0 && i < |S| && |S[i].data| >= 1 && f == Renumbered(S[i], i + skip)
  }

  /** What the burst loop leaves of the message: the same frames, numbered from `m`. */
  lemma BurstLeaves(io0: Io, w: TxWorld, cfg: Config, p: seq<Byte>, m: nat, b: TxOut)
    requires Sendable(p, cfg) && Stumbling(io0, w, cfg, p, m) && w.tx.state == MfDt
    requires w.tx.passed <= |p| && Emits(w.tx, w.io, b, cfg, p, m + Refusals(io0, w.io))
    requires b.tx.IsBusy() ==> b.tx.passed <= |p|
    ensures w.io.sent <= b.io.sent
    ensures var E := b.io.sent[|w.io.sent|..];
            var rest' := if b.tx.IsBusy() then p[b.tx.passed..] else [];
            && E + Tail(rest', m + Refusals(io0, w.io) + |E|, cfg) ==
                 Tail(p[w.tx.passed..], m + Refusals(io0, w.io), cfg)
            && m + |E| <= |Segments(p, cfg)| && Segments(p, cfg)[m + |E|..] == Tail(rest', m + |E|, cfg)
  {
    var r := Refusals(io0, w.io);
    var E := b.io.sent[|w.io.sent|..];
    var rest := p[w.tx.passed..];
    var rest' := if b.tx.IsBusy() then p[b.tx.passed..] else [];
    assert b.io.sent == w.io.sent + E;
    SplitEmitted(w.io.sent, E, Tail(rest', m + r + |E|, cfg), Tail(rest, m + r, cfg));
    SuffixLeft(Segments(p, cfg), m, rest, rest', E, r, cfg);
  }

  lemma SuffixLeft(S: seq<CanFrame>, m: nat, rest: seq<Byte>, rest': seq<Byte>, E: seq<CanFrame>, r: nat, cfg: Config)
    requires cfg.candl >= 8 && m <= |S| && S[m..] == Tail(rest, m, cfg)
    requires E + Tail(rest', m + r + |E|, cfg) == Tail(rest, m + r, cfg)
    ensures m + |E| <= |S| && S[m + |E|..] == Tail(rest', m + |E|, cfg)
  {
    TailSuffix(rest, rest', E, m + r, m, cfg);
    assert S[m + |E|..] == S[m..][|E|..];
  }

  lemma BurstStumbles(io0: Io, w: TxWorld, cfg: Config, p: seq<Byte>, m: nat, b: TxOut)
    requires Sendable(p, cfg) && Stumbling(io0, w, cfg, p, m) && w.tx.state == MfDt
    requires w.tx.passed <= |p| && TxOk(b.tx, cfg)
    requires Emits(w.tx, w.io, b, cfg, p, m + Refusals(io0, w.io))
    ensures w.io.sent <= b.io.sent
    ensures Stumbling(io0, TxWorld(b.tx, b.io, w.clock), cfg, p, |b.io.sent| - |io0.sent|)
  {
    BurstLeaves(io0, w, cfg, p, m, b);
  }

  lemma BurstSkips(io0: Io, w: TxWorld, cfg: Config, p: seq<Byte>, m: nat, b: TxOut)
    requires Sendable(p, cfg) && Stumbling(io0, w, cfg, p, m) && w.tx.state == MfDt
    requires w.tx.passed <= |p| && TxOk(b.tx, cfg)
    requires Emits(w.tx, w.io, b, cfg, p, m + Refusals(io0, w.io))
    ensures w.io.sent <= b.io.sent
    ensures Skipped(Segments(p, cfg), m, b.io.sent[|w.io.sent|..],
                    Repeat(Refusals(io0, w.io), |b.io.sent| - |w.io.sent|))
  {
    BurstLeaves(io0, w, cfg, p, m, b);
    EmittedSkipped(io0, w, cfg, p, m, b.io.sent[|w.io.sent|..], if b.tx.IsBusy() then p[b.tx.passed..] else []);
  }

  lemma SplitEmitted(a: seq<CanFrame>, e: seq<CanFrame>, x: seq<CanFrame>, y: seq<CanFrame>)
    requires (a + e) + x == a + y
    ensures e + x == y
  {
    assert (a + e) + x == a + (e + x);
    assert (a + (e + x))[|a|..] == e + x;
    assert (a + y)[|a|..] == y;
  }

  lemma EmittedSkipped(io0: Io, w: TxWorld, cfg: Config, p: seq<Byte>, m: nat, E: seq<CanFrame>, rest': seq<Byte>)
    requires Sendable(p, cfg) && Stumbling(io0, w, cfg, p, m) && w.tx.state == MfDt
    requires var r := Refusals(io0, w.io); E + Tail(rest', m + r + |E|, cfg) == Tail(p[w.tx.passed..], m + r, cfg)
    ensures Skipped(Segments(p, cfg), m, E, Repeat(Refusals(io0, w.io), |E|))
  {
    TailSkipped(Segments(p, cfg), m, p[w.tx.passed..], E, Tail(rest', m + Refusals(io0, w.io) + |E|, cfg),
                Refusals(io0, w.io), cfg);
  }

  /** Frames numbered on from `m + r` instead of `m` are the frames of `S` from `m` on, renumbered. */
  lemma TailSkipped(S: seq<CanFrame>, m: nat, rest: seq<Byte>, E: seq<CanFrame>, F: seq<CanFrame>, r: nat, cfg: Config)
    requires cfg.candl >= 8 && m <= |S| && S[m..] == Tail(rest, m, cfg) && E + F == Tail(rest, m + r, cfg)
    ensures Skipped(S, m, E, Repeat(r, |E|))
  {
    TailRenumbered(rest, m + r, m, cfg);
    forall j | 0 <= j < |E|
      ensures SkippedAt(S, m + j, E[j], r)
    {
      assert E[j] == (E + F)[j] == Tail(rest, m + r, cfg)[j];
      assert S[m + j] == S[m..][j];
    }
  }

  /** A step at which the sender stays where it is in the message. */
  predicate StaysPut(w: TxWorld, w': TxWorld) {
    && w'.io.sent == w.io.sent && w'.io.attempts == w.io.attempts
    && (w'.tx.IsBusy() ==> w.tx.IsBusy() && SamePlace(w.tx, w'.tx))
  }

  lemma StumblesOn(io0: Io, w: TxWorld, w': TxWorld, cfg: Config, p: seq<Byte>, m: nat)
    requires Sendable(p, cfg) && Stumbling(io0, w, cfg, p, m) && WorldOk(w', cfg) && StaysPut(w, w')
    ensures Stumbling(io0, w', cfg, p, m)
  {
  }

  lemma QuietStays(w: TxWorld, cfg: Config, a: TxAction)
    requires WorldOk(w, cfg) && !a.Ask? && (a.Poll? ==> w.tx.state != MfDt)
    ensures StaysPut(w, TxNext(w, cfg, a))
  {
  }

  /** After the loop a poll may still end the transfer. */
  lemma PolledStays(w: TxWorld, cfg: Config)
    requires WorldOk(w, cfg) && w.tx.state == MfDt
    ensures var b := Burst(w.tx, w.io, cfg, Now(w.clock)); StaysPut(TxWorld(b.tx, b.io, w.clock), PollWorld(w, cfg))
  {
  }

  /** Still inside the transfer at `w`, with what `io` had sent and maybe more. */
  ghost predicate StumblesTo(io0: Io, io: Io, w: TxWorld, cfg: Config, p: seq<Byte>)
    requires Sendable(p, cfg)
  {
    && io.sent <= w.io.sent && |w.io.sent| >= |io0.sent|
    && Stumbling(io0, w, cfg, p, |w.io.sent| - |io0.sent|)
  }

  lemma PollStumbles(io0: Io, w: TxWorld, cfg: Config, p: seq<Byte>, m: nat)
    requires Sendable(p, cfg) && Stumbling(io0, w, cfg, p, m) && w.tx.state == MfDt
    ensures StumblesTo(io0, w.io, PollWorld(w, cfg), cfg, p)
  {
    var w1 := AfterLoop(io0, w, cfg, p, m);
    StumblesFrom(io0, w.io, w1, PollWorld(w, cfg), cfg, p);
  }

  lemma StumblesFrom(io0: Io, io: Io, w: TxWorld, w': TxWorld, cfg: Config, p: seq<Byte>)
    requires Sendable(p, cfg) && StumblesTo(io0, io, w, cfg, p) && WorldOk(w', cfg) && StaysPut(w, w')
    ensures StumblesTo(io0, io, w', cfg, p)
  {
    StumblesOn(io0, w, w', cfg, p, |w.io.sent| - |io0.sent|);
  }

  /** Between the loop and the rest of the poll. */
  lemma AfterLoop(io0: Io, w: TxWorld, cfg: Config, p: seq<Byte>, m: nat) returns (w1: TxWorld)
    requires Sendable(p, cfg) && Stumbling(io0, w, cfg, p, m) && w.tx.state == MfDt
    ensures StumblesTo(io0, w.io, w1, cfg, p) && StaysPut(w1, PollWorld(w, cfg))
  {
    var b := LoopStumbles(io0, w, cfg, p, m);
    PolledStays(w, cfg);
    w1 := TxWorld(b.tx, b.io, w.clock);
  }

  lemma LoopStumbles(io0: Io, w: TxWorld, cfg: Config, p: seq<Byte>, m: nat) returns (b: TxOut)
    requires Sendable(p, cfg) && Stumbling(io0, w, cfg, p, m) && w.tx.state == MfDt
    ensures b == Burst(w.tx, w.io, cfg, Now(w.clock)) && w.io.sent <= b.io.sent && |b.io.sent| >= |io0.sent|
    ensures Stumbling(io0, TxWorld(b.tx, b.io, w.clock), cfg, p, |b.io.sent| - |io0.sent|)
  {
    b := Burst(w.tx, w.io, cfg, Now(w.clock));
    BurstEmits(w.tx, w.io, cfg, Now(w.clock), p, m + Refusals(io0, w.io));
    BurstStumbles(io0, w, cfg, p, m, b);
  }

  lemma PollSkips(io0: Io, w: TxWorld, cfg: Config, p: seq<Byte>, m: nat)
    requires Sendable(p, cfg) && Stumbling(io0, w, cfg, p, m) && w.tx.state == MfDt
    ensures var w' := PollWorld(w, cfg);
            && w.io.sent <= w'.io.sent
            && Skipped(Segments(p, cfg), m, w'.io.sent[|w.io.sent|..],
                       SkipsOf(io0, w.io, w'.io))
  {
    BurstEmits(w.tx, w.io, cfg, Now(w.clock), p, m + Refusals(io0, w.io));
    BurstSkips(io0, w, cfg, p, m, Burst(w.tx, w.io, cfg, Now(w.clock)));
    PolledStays(w, cfg);
  }

  lemma NextStumbles(io0: Io, w: TxWorld, cfg: Config, p: seq<Byte>, m: nat, a: TxAction)
    requires Sendable(p, cfg) && Stumbling(io0, w, cfg, p, m) && !a.Ask?
    ensures var w' := TxNext(w, cfg, a);
            Stumbled(io0, w, w', cfg, p, m, SkipsOf(io0, w.io, w'.io))
  {
    if a.Poll? && w.tx.state == MfDt {
      PollStumbles(io0, w, cfg, p, m);
      PollSkips(io0, w, cfg, p, m);
    } else {
      QuietStays(w, cfg, a);
      QuietStumbles(io0, w, TxNext(w, cfg, a), cfg, p, m);
    }
  }

  lemma QuietStumbles(io0: Io, w: TxWorld, w': TxWorld, cfg: Config, p: seq<Byte>, m: nat)
    requires Sendable(p, cfg) && Stumbling(io0, w, cfg, p, m) && WorldOk(w', cfg) && StaysPut(w, w')
    ensures Stumbled(io0, w, w', cfg, p, m, SkipsOf(io0, w.io, w'.io))
  {
    StumblesOn(io0, w, w', cfg, p, m);
    assert w.io.sent[|w.io.sent|..] == [];
  }

  lemma SkippedAppend(S: seq<CanFrame>, m: nat, E: seq<CanFrame>, s: seq<int>, m1: nat, F: seq<CanFrame>, t: seq<int>)
    requires Skipped(S, m, E, s) && m1 == m + |E| && Skipped(S, m1, F, t)
    ensures Skipped(S, m, E + F, s + t)
  {
    forall j | 0 <= j < |E + F|
      ensures SkippedAt(S, m + j, (E + F)[j], (s + t)[j])
    {
      if j >= |E| {
        assert SkippedAt(S, m1 + (j - |E|), F[j - |E|], t[j - |E|]);
      }
    }
  }

  /** `b` is `a` and more, and what is more is skipped from the `m`-th frame on. */
  ghost predicate SkippedTo(S: seq<CanFrame>, m: nat, a: seq<CanFrame>, b: seq<CanFrame>, s: seq<int>) {
    a <= b && Skipped(S, m, b[|a|..], s)
  }

  lemma {:induction false} SkipRun(io0: Io, w: TxWorld, cfg: Config, p: seq<Byte>, m: nat, actions: seq<TxAction>)
    requires Sendable(p, cfg) && Stumbling(io0, w, cfg, p, m) && NoRequests(actions)
    ensures SkippedTo(Segments(p, cfg), m, w.io.sent, TxRun(w, cfg, actions).io.sent, SkipTrace(io0, w, cfg, actions))
    decreases |actions|, 0
  {
    if actions == [] {
      assert w.io.sent[|w.io.sent|..] == [];
    } else {
      var w1, s := SkipStep(io0, w, cfg, p, m, actions);
      SkipRunOn(io0, w, w1, cfg, p, m, s, actions[1..]);
    }
  }

  /** A step from `w` to `w1` inside the transfer, with the refusals `s` before its frames. */
  ghost predicate Stumbled(io0: Io, w: TxWorld, w1: TxWorld, cfg: Config, p: seq<Byte>, m: nat, s: seq<int>)
    requires Sendable(p, cfg)
  {
    && SkippedTo(Segments(p, cfg), m, w.io.sent, w1.io.sent, s)
    && m == |w.io.sent| - |io0.sent| && |w1.io.sent| >= |io0.sent|
    && Stumbling(io0, w1, cfg, p, |w1.io.sent| - |io0.sent|)
  }

  /** The first step of a run and what it adds to the trace. */
  lemma SkipStep(io0: Io, w: TxWorld, cfg: Config, p: seq<Byte>, m: nat, actions: seq<TxAction>)
    returns (w1: TxWorld, s: seq<int>)
    requires Sendable(p, cfg) && Stumbling(io0, w, cfg, p, m) && NoRequests(actions) && actions != []
    ensures Stumbled(io0, w, w1, cfg, p, m, s)
    ensures TxRun(w, cfg, actions) == TxRun(w1, cfg, actions[1..])
    ensures SkipTrace(io0, w, cfg, actions) == s + SkipTrace(io0, w1, cfg, actions[1..])
  {
    NextStumbles(io0, w, cfg, p, m, actions[0]);
    w1 := TxNext(w, cfg, actions[0]);
    s := SkipsOf(io0, w.io, w1.io);
    TraceUnfolds(io0, w, w1, cfg, actions);
  }

  lemma TraceUnfolds(io0: Io, w: TxWorld, w1: TxWorld, cfg: Config, actions: seq<TxAction>)
    requires WorldOk(w, cfg) && actions != [] && w1 == TxNext(w, cfg, actions[0])
    ensures TxRun(w, cfg, actions) == TxRun(w1, cfg, actions[1..])
    ensures SkipTrace(io0, w, cfg, actions) == SkipsOf(io0, w.io, w1.io) + SkipTrace(io0, w1, cfg, actions[1..])
  {
  }

  /** The run from the second step on, joined to the first step. */
  lemma SkipRunOn(io0: Io, w: TxWorld, w1: TxWorld, cfg: Config, p: seq<Byte>, m: nat, s: seq<int>, rest: seq<TxAction>)
    requires Sendable(p, cfg) && NoRequests(rest) && Stumbled(io0, w, w1, cfg, p, m, s)
    ensures SkippedTo(Segments(p, cfg), m, w.io.sent, TxRun(w1, cfg, rest).io.sent, s + SkipTrace(io0, w1, cfg, rest))
    decreases |rest|, 1
  {
    var m1 := m + |w1.io.sent| - |w.io.sent|;
    SkipRun(io0, w1, cfg, p, m1, rest);
    JoinSkips(Segments(p, cfg), m, m1, w.io.sent, w1.io.sent, TxRun(w1, cfg, rest).io.sent,
              s, SkipTrace(io0, w1, cfg, rest));
  }

  lemma JoinSkips(S: seq<CanFrame>, m: nat, m1: nat, a: seq<CanFrame>, b: seq<CanFrame>, c: seq<CanFrame>,
                  s: seq<int>, t: seq<int>)
    requires SkippedTo(S, m, a, b, s) && m1 == m + |b| - |a| && SkippedTo(S, m1, b, c, t)
    ensures SkippedTo(S, m, a, c, s + t)
  {
    SkippedAppend(S, m, b[|a|..], s, m1, c[|b|..], t);
    SlicesJoin(a, b, c);
  }

  lemma SlicesJoin(a: seq<CanFrame>, b: seq<CanFrame>, c: seq<CanFrame>)
    requires a <= b <= c
    ensures b[|a|..] + c[|b|..] == c[|a|..]
  {
    var r := b[|a|..] + c[|b|..];
    forall i | 0 <= i < |r|
      ensures r[i] == c[|a|..][i]
    {
      assert i < |b| - |a| ==> r[i] == b[|a| + i] == c[|a| + i];
    }
  }

  lemma SameNumber(i: nat, s: nat)
    ensures (i + s) % 16 == i % 16 <==> s % 16 == 0
  {
    var a, b := i / 16, s / 16;
    assert i == 16 * a + i % 16 && s == 16 * b + s % 16;
    assert i + s == 16 * (a + b) + (i % 16 + s % 16);
  }

  lemma {:induction false} TailNumbers(rest: seq<Byte>, k: nat, cfg: Config, j: nat)
    requires cfg.candl >= 8 && j < |Tail(rest, k, cfg)|
    ensures |Tail(rest, k, cfg)[j].data| >= 1 && Tail(rest, k, cfg)[j].data[0] == CF_CODE + (k + j) % 16
    decreases |rest|
  {
    if j > 0 {
      TailNumbers(rest[Min(cfg.candl - 1, |rest|)..], k + 1, cfg, j - 1);
    }
  }

  lemma RenumberedSame(p: seq<Byte>, cfg: Config, i: nat, s: nat)
    requires Sendable(p, cfg) && 1 <= i < |Segments(p, cfg)|
    ensures |Segments(p, cfg)[i].data| >= 1
    ensures Renumbered(Segments(p, cfg)[i], i + s) == Segments(p, cfg)[i] <==> s % 16 == 0
  {
    TailNumbers(p[FirstLength(|p|, cfg.candl)..], 1, cfg, i - 1);
    SameNumber(i, s);
    var f := Segments(p, cfg)[i];
    assert f.data == [f.data[0]] + f.data[1..];
  }

  /** After a first frame the bus took, whatever it refuses later: every consecutive frame
      carries the right part of the message (of what the sender makes of it, if the consecutive
      frame before the request was refused), but a number advanced by the attempts refused before
      it. What is on the bus is therefore a prefix of the message's frames exactly when each of
      those counts is a multiple of sixteen. */
  lemma RefusedSendsSkipNumbers(w: TxWorld, cfg: Config, p: seq<Byte>, actions: seq<TxAction>)
    requires WorldOk(w, cfg) && Sendable(p, cfg) && |p| <= |w.tx.txbuff|
    requires DataHeader(|p|, cfg.candl).kind == FirstFrame
    requires w.io.Accepts() && NoRequests(actions)
    ensures var w1 := TxNext(w, cfg, Ask(p));
            var w' := TxRun(w1, cfg, actions);
            var skips := SkipTrace(w.io, w1, cfg, actions);
            var q := Carried(w.tx.prevDataSent, p, cfg);
            && w1.io.sent == w.io.sent + [HeadFrame(p, cfg)] <= w'.io.sent
            && Skipped(Segments(q, cfg), 1, w'.io.sent[|w1.io.sent|..], skips)
            && (w'.io.sent <= w.io.sent + Segments(q, cfg) <==> forall j :: 0 <= j < |skips| ==> skips[j] % 16 == 0)
  {
    var w1 := TxNext(w, cfg, Ask(p));
    var q := Carried(w.tx.prevDataSent, p, cfg);
    StartStumbling(w, cfg, p);
    CarriedHead(w.tx.prevDataSent, p, cfg);
    SkipRun(w.io, w1, cfg, q, 1, actions);
    PrefixIff(q, cfg, w.io.sent, TxRun(w1, cfg, actions).io.sent, SkipTrace(w.io, w1, cfg, actions));
  }

  lemma StartStumbling(w: TxWorld, cfg: Config, p: seq<Byte>)
    requires WorldOk(w, cfg) && Sendable(p, cfg) && |p| <= |w.tx.txbuff|
    requires DataHeader(|p|, cfg.candl).kind == FirstFrame && w.io.Accepts()
    ensures var w1 := AskWorld(w, cfg, p);
            && w1.io.sent == w.io.sent + [HeadFrame(p, cfg)]
            && Stumbling(w.io, w1, cfg, Carried(w.tx.prevDataSent, p, cfg), 1)
  {
    FirstTriedFrame(w.tx, cfg, p);
    AwaitingSends(w.tx, cfg, p, Now(w.clock));
    var q := Carried(w.tx.prevDataSent, p, cfg);
    assert Segments(q, cfg)[1..] == Tail(q[FirstLength(|q|, cfg.candl)..], 1, cfg);
  }

  lemma PrefixIff(p: seq<Byte>, cfg: Config, before: seq<CanFrame>, sent: seq<CanFrame>, skips: seq<int>)
    requires Sendable(p, cfg) && before + [HeadFrame(p, cfg)] <= sent
    requires Skipped(Segments(p, cfg), 1, sent[|before| + 1..], skips)
    ensures sent <= before + Segments(p, cfg) <==> forall j :: 0 <= j < |skips| ==> skips[j] % 16 == 0
  {
    var S, all, b := Segments(p, cfg), before + Segments(p, cfg), |before|;
    assert |sent| <= |all|;
    forall i | 0 <= i < |sent|
      ensures sent[i] == all[i] <==> (i <= b || skips[i - b - 1] % 16 == 0)
    {
      if i <= b {
        assert sent[i] == (before + [HeadFrame(p, cfg)])[i];
      } else {
        assert sent[i] == sent[b + 1..][i - b - 1];
        RenumberedSame(p, cfg, i - b, skips[i - b - 1]);
      }
    }
    if forall j :: 0 <= j < |skips| ==> skips[j] % 16 == 0 {
      assert sent == all[..|sent|];
    } else {
      var j :| 0 <= j < |skips| && skips[j] % 16 != 0;
      assert sent[j + b + 1] != all[j + b + 1];
    }
  }
}
