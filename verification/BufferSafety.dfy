/** When the receiver's copies stay inside its buffer (src/uds/isotp/docan-receiver.cpp:37-86): a
    bound on the lengths of the messages that arrive, and that no larger one will do. */
module BufferSafety {
  import opened IsoTpTypes
  import opened Timers
  import opened Pci
  import opened TpPort
  import opened Receiver
  import opened ReceiverRuns
  import opened Segmentation
  import opened Reassembly

  /** Eight-byte frames whose first frames announce at most `longest` bytes, or more than the
      buffer holds, so that they are refused. */
  predicate Bounded(a: RxAction, longest: nat, room: nat) {
    EightBytes(a) &&
    (a.Arrive? && Unpack(a.data).kind.FF? ==> Unpack(a.data).kind.dlen <= longest || Unpack(a.data).kind.dlen > room)
  }

  predicate AllBounded(actions: seq<RxAction>, longest: nat, room: nat) {
    forall i :: 0 <= i < |actions| ==> Bounded(actions[i], longest, room)
  }

  /** The offset and the reception lie within the first `longest` bytes of the buffer. */
  predicate Within(rx: RxState, longest: nat) {
    rx.passed <= longest && (rx.IsBusy() ==> rx.passed < rx.rxsize <= longest)
  }

  lemma BoundedStep(w: RxWorld, cfg: Config, a: RxAction, longest: nat)
    requires Within(w.rx, longest) && longest <= |w.rx.rxbuff| && Bounded(a, longest, |w.rx.rxbuff|)
    ensures var w' := RxNext(w, cfg, a); Within(w'.rx, longest) && |w'.rx.rxbuff| == |w.rx.rxbuff|
    ensures a.Arrive? && longest + 6 <= |w.rx.rxbuff| ==> CopyInside(w.rx, a.data)
  {
    if a.Arrive? {
      HeaderInsideFrame(a.data);
    }
  }

  lemma {:induction false} BoundedRunInside(w: RxWorld, cfg: Config, actions: seq<RxAction>, longest: nat)
    requires Within(w.rx, longest) && longest + 6 <= |w.rx.rxbuff| && AllBounded(actions, longest, |w.rx.rxbuff|)
    ensures CopiesInside(w, cfg, actions)
    decreases |actions|
  {
    if actions != [] {
      assert Bounded(actions[0], longest, |w.rx.rxbuff|);
      BoundedStep(w, cfg, actions[0], longest);
      BoundedRunInside(RxNext(w, cfg, actions[0]), cfg, actions[1..], longest);
    }
  }

  // ---- No larger bound will do ----

  function Arrivals(frames: seq<CanFrame>): (r: seq<RxAction>)
    ensures |r| == |frames| && forall i :: 0 <= i < |r| ==> r[i] == Arrive(frames[i].data)
  {
    seq(|frames|, i requires 0 <= i < |frames| => Arrive(frames[i].data))
  }

  lemma {:induction false} ArrivalsAreFed(w: RxWorld, own: Config, frames: seq<CanFrame>, at: nat -> Word)
    requires forall k :: at(k) == Now(w.clock)
    ensures var o := Feed(w.rx, w.io, own, frames, at);
            RxRun(w, own, Arrivals(frames)) == RxWorld(o.rx, o.io, w.clock)
    decreases |frames|
  {
    if frames != [] {
      assert Arrivals(frames)[1..] == Arrivals(frames[1..]);
      ArrivalsAreFed(RxNext(w, own, Arrive(frames[0].data)), own, frames[1..], at);
    }
  }

  lemma {:induction false} InsideToTheEnd(w: RxWorld, cfg: Config, actions: seq<RxAction>, a: RxAction)
    requires CopiesInside(w, cfg, actions + [a]) && a.Arrive?
    ensures CopyInside(RxRun(w, cfg, actions).rx, a.data)
    decreases |actions|
  {
    if actions == [] {
      assert actions + [a] == [a];
    } else {
      assert (actions + [a])[1..] == actions[1..] + [a];
      InsideToTheEnd(RxNext(w, cfg, actions[0]), cfg, actions[1..], a);
    }
  }

  /** Eight-byte frames of any node. */
  const CLASSIC: Config := Config(0, 0, 0, 8, 0)

  /** The frames of a message of `longest` bytes, and then the first frame of one of eight. */
  function TwoMessages(longest: nat): seq<RxAction>
    requires 8 <= longest <= MAX_BUFFER
  {
    Arrivals(Segments(Fill(0, longest), CLASSIC)) + [Arrive(HeadFrame(Fill(0, 8), CLASSIC).data)]
  }

  lemma TwoMessagesBounded(longest: nat, room: nat)
    requires 8 <= longest <= MAX_BUFFER
    ensures AllBounded(TwoMessages(longest), longest, room)
  {
    var p := Fill(0, longest);
    var S := Segments(p, CLASSIC);
    HeadFrameHeader(p, CLASSIC);
    HeadFrameHeader(Fill(0, 8), CLASSIC);
    forall i | 0 <= i < |TwoMessages(longest)|
      ensures Bounded(TwoMessages(longest)[i], longest, room)
    {
      if 1 <= i < |S| {
        SegmentNumber(p, CLASSIC, i);
      }
    }
  }

  lemma TwoMessagesOverrun(w: RxWorld, cfg: Config, longest: nat)
    requires !w.rx.IsBusy() && w.rx.passed == 0 && 8 <= longest <= |w.rx.rxbuff| < longest + 6
    ensures !CopiesInside(w, cfg, TwoMessages(longest))
  {
    var p, q := Fill(0, longest), Fill(0, 8);
    var at := (k: nat) => Now(w.clock);
    SecondCopyFitsIff(w.rx, w.io, cfg, p, q, CLASSIC, at);
    ArrivalsAreFed(w, cfg, Segments(p, CLASSIC), at);
    assert First(q, CLASSIC) == 6;
    if CopiesInside(w, cfg, TwoMessages(longest)) {
      InsideToTheEnd(w, cfg, Arrivals(Segments(p, CLASSIC)), Arrive(HeadFrame(q, CLASSIC).data));
    }
  }

  /** All copies of all runs stay inside the buffer if and only if the messages that are accepted
      leave room for one more first frame: six bytes. */
  lemma BufferSafeIff(w: RxWorld, cfg: Config, longest: nat)
    requires !w.rx.IsBusy() && w.rx.passed == 0 && 8 <= longest <= |w.rx.rxbuff|
    ensures (forall actions :: AllBounded(actions, longest, |w.rx.rxbuff|) ==> CopiesInside(w, cfg, actions))
            <==> longest + 6 <= |w.rx.rxbuff|
  {
    if longest + 6 <= |w.rx.rxbuff| {
      forall actions | AllBounded(actions, longest, |w.rx.rxbuff|)
        ensures CopiesInside(w, cfg, actions)
      {
        BoundedRunInside(w, cfg, actions, longest);
      }
    } else {
      TwoMessagesBounded(longest, |w.rx.rxbuff|);
      TwoMessagesOverrun(w, cfg, longest);
    }
  }
}
