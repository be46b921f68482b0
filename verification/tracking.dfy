/**
 * The per-frame call protocol shared by the main tracking loop and the mask
 * experiment: frame 0 registers with its mask; every later frame calls `track_one`,
 * with a mask when masks are in use and the mask loads, and without one otherwise.
 * The estimator is opaque: it holds the last pose and answers each call with a
 * pose computed from that pose and the frame.
 */
module Tracking {
  import opened Wrappers
  import opened Geometry

  /** What `reader.get_mask(i).astype(bool)` does. */
  datatype MaskLoad =
    | MaskLoaded
      /** `FileNotFoundError`, or `AttributeError` when the reader returns no mask. */
    | MaskMissing
      /** Any other exception: it is not caught. */
    | MaskFault

  /** One frame of the sequence as the reader presents it. `gt` is `None` also when looking it up raises. */
  datatype Frame = Frame(idStr: string, mask: MaskLoad, gt: Option<Matrix4>)

  /** A call on the estimator, naming the frame it processes. */
  datatype Call = Register(frame: nat) | TrackWithMask(frame: nat) | TrackWithoutMask(frame: nat)

  /** The call frame `i` makes, or `None` when the frame raises before any call. */
  function FrameCall(i: nat, useMask: bool, mask: MaskLoad): (r: Option<Call>)
    ensures r.Some? ==> r.value.frame == i
    ensures r.Some? && r.value.Register? <==> i == 0 && mask.MaskLoaded?
    ensures r.Some? && r.value.TrackWithMask? <==> i > 0 && useMask && mask.MaskLoaded?
    ensures r.Some? && r.value.TrackWithoutMask? <==> i > 0 && (!useMask || mask.MaskMissing?)
  {
    if i == 0 then
      if mask.MaskLoaded? then Some(Register(0)) else None
    else if useMask then
      match mask
      case MaskLoaded => Some(TrackWithMask(i))
      case MaskMissing => Some(TrackWithoutMask(i))
      case MaskFault => None
    else Some(TrackWithoutMask(i))
  }

  /**
   * The calls a run makes over the first `n` frames: one per frame, in frame
   * order, up to the first frame that raises.
   */
  function Calls(frames: seq<Frame>, useMask: bool, n: nat): (r: seq<Call>)
    requires n <= |frames|
    ensures |r| <= n
  {
    if n == 0 then []
    else
      var p := Calls(frames, useMask, n - 1);
      var c := FrameCall(n - 1, useMask, frames[n - 1].mask);
      if |p| == n - 1 && c.Some? then p + [c.value] else p
  }

  /** The calls a run over all the frames makes. */
  function Protocol(frames: seq<Frame>, useMask: bool): seq<Call>
  {
    Calls(frames, useMask, |frames|)
  }

  /**
   * Call `k` of a run is the call frame `k` makes, and the run ends early
   * only at a frame that raises.
   */
  lemma {:induction false} ProtocolCalls(frames: seq<Frame>, useMask: bool, n: nat)
    requires n <= |frames|
    ensures var r := Calls(frames, useMask, n);
            forall k :: 0 <= k < |r| ==> FrameCall(k, useMask, frames[k].mask) == Some(r[k])
    ensures var r := Calls(frames, useMask, n);
            |r| < n ==> FrameCall(|r|, useMask, frames[|r|].mask).None?
  {
    if n > 0 {
      ProtocolCalls(frames, useMask, n - 1);
    }
  }

  /** A run finishes every frame exactly when no frame raises. */
  lemma ProtocolCompletes(frames: seq<Frame>, useMask: bool)
    ensures |Protocol(frames, useMask)| == |frames| <==>
            forall i :: 0 <= i < |frames| ==> FrameCall(i, useMask, frames[i].mask).Some?
  {
    ProtocolCalls(frames, useMask, |frames|);
  }

  /** Only the first call registers, and every call processes its own frame, so the frames are consecutive. */
  lemma ProtocolShape(frames: seq<Frame>, useMask: bool)
    ensures forall k :: 0 <= k < |Protocol(frames, useMask)| ==>
              Protocol(frames, useMask)[k].frame == k &&
              (Protocol(frames, useMask)[k].Register? <==> k == 0)
  {
    ProtocolCalls(frames, useMask, |frames|);
  }

  /** A run whose first mask does not load makes no call at all. */
  lemma ProtocolNeedsFirstMask(frames: seq<Frame>, useMask: bool)
    requires |frames| > 0 && !frames[0].mask.MaskLoaded?
    ensures Protocol(frames, useMask) == []
  {
    ProtocolCalls(frames, useMask, |frames|);
  }

  /** Once a frame raises, no later frame makes a call. */
  lemma {:induction false} ProtocolStops(frames: seq<Frame>, useMask: bool, i: nat, n: nat)
    requires i < n <= |frames| && |Calls(frames, useMask, i)| == i
    requires FrameCall(i, useMask, frames[i].mask).None?
    ensures Calls(frames, useMask, n) == Calls(frames, useMask, i)
  {
    if n - 1 > i {
      ProtocolStops(frames, useMask, i, n - 1);
    }
  }

  /**
   * The pose estimator, opaque: `answer` gives the pose it returns for a call
   * from the pose it holds; `calls` and `returned` record the calls made on it
   * and the poses it returned, in order.
   */
  class Estimator {
    const answer: (Option<Matrix4>, Call) -> Matrix4
    var calls: seq<Call>
    var returned: seq<Matrix4>
    var poseLast: Option<Matrix4>

    constructor (answer: (Option<Matrix4>, Call) -> Matrix4)
      ensures this.answer == answer
      ensures calls == [] && returned == [] && poseLast == None
    {
      this.answer := answer;
      calls := [];
      returned := [];
      poseLast := None;
    }

    /** `est.register(...)` on frame `i` with its mask: the result becomes the held pose. */
    method Register(i: nat) returns (pose: Matrix4)
      modifies this
      ensures pose == answer(old(poseLast), Call.Register(i))
      ensures calls == old(calls) + [Call.Register(i)] && returned == old(returned) + [pose]
      ensures poseLast == Some(pose)
    {
      pose := answer(poseLast, Call.Register(i));
      calls := calls + [Call.Register(i)];
      returned := returned + [pose];
      poseLast := Some(pose);
    }

    /** `est.track_one(...)` on frame `i`, with or without a mask: the result replaces the held pose. */
    method TrackOne(i: nat, withMask: bool) returns (pose: Matrix4)
      modifies this
      ensures var c := if withMask then TrackWithMask(i) else TrackWithoutMask(i);
              pose == answer(old(poseLast), c) && calls == old(calls) + [c]
      ensures returned == old(returned) + [pose] && poseLast == Some(pose)
    {
      var c := if withMask then TrackWithMask(i) else TrackWithoutMask(i);
      pose := answer(poseLast, c);
      calls := calls + [c];
      returned := returned + [pose];
      poseLast := Some(pose);
    }

    /** `est.pose_last = None` */
    method ResetPoseLast()
      modifies this
      ensures poseLast == None && calls == old(calls) && returned == old(returned)
    {
      poseLast := None;
    }
  }

  /**
   * Frame `i` of a run that has not raised so far: either it raises, the
   * estimator is left as it was and the run's calls are those made so far; or
   * the frame's call extends the run and the pose returned for it, computed
   * from the pose the estimator held, is recorded.
   */
  method ProcessNext(est: Estimator, frames: seq<Frame>, useMask: bool, i: nat, ghost calls0: seq<Call>)
    returns (pose: Option<Matrix4>)
    requires i < |frames| && |Calls(frames, useMask, i)| == i
    requires est.calls == calls0 + Calls(frames, useMask, i)
    modifies est
    ensures pose.None? ==>
              Protocol(frames, useMask) == Calls(frames, useMask, i) &&
              est.calls == old(est.calls) && est.returned == old(est.returned) &&
              est.poseLast == old(est.poseLast)
    ensures pose.Some? ==>
              |Calls(frames, useMask, i + 1)| == i + 1 &&
              est.calls == calls0 + Calls(frames, useMask, i + 1) &&
              pose.value == est.answer(old(est.poseLast), Calls(frames, useMask, i + 1)[i]) &&
              est.returned == old(est.returned) + [pose.value] && est.poseLast == pose
  {
    var mask := frames[i].mask;
    if i == 0 {
      if !mask.MaskLoaded? {
        ProtocolStops(frames, useMask, i, |frames|);
        return None;
      }
      var p := est.Register(0);
      pose := Some(p);
    } else if useMask && mask.MaskFault? {
      ProtocolStops(frames, useMask, i, |frames|);
      return None;
    } else {
      var p := est.TrackOne(i, useMask && mask.MaskLoaded?);
      pose := Some(p);
    }
  }
}
