/**
 * The mask-tracking experiment (experiments/compare_mask_tracking.py): one
 * tracking run with masks and one without over the same frames, the pose
 * errors against ground truth, the stability of each pose sequence, and the
 * comparison report built from them.
 */
module MaskTracking {
  import opened Wrappers
  import opened Numeric
  import opened Geometry
  import opened Tracking

  /** `(trans_error, rot_error, add_error)`; ADD is NaN when the model has no points. */
  datatype PoseErrors = PoseErrors(trans: real, rot: real, add: Float)

  /** Distance between each model point placed by the predicted pose and by the ground truth. */
  function PointDistances(pred: Matrix4, gt: Matrix4, modelPts: seq<Vec3>, num: Numerics): seq<real>
  {
    seq(|modelPts|, k requires 0 <= k < |modelPts| =>
      Norm(Minus(TransformPoint(pred, modelPts[k]), TransformPoint(gt, modelPts[k])), num))
  }

  /**
   * `compute_pose_errors`: nothing without a ground-truth pose; otherwise the
   * translation distance, the rotation angle from the clamped trace (its arccos
   * argument always in [-1, 1]) and the mean point distance (ADD).
   */
  function ComputePoseErrors(pred: Matrix4, gt: Option<Matrix4>, modelPts: seq<Vec3>, num: Numerics): (r: Option<PoseErrors>)
    ensures r.None? <==> gt.None?
    ensures r.Some? ==> r.value.trans == Norm(Minus(Translation(pred), Translation(gt.value)), num)
    ensures r.Some? ==> -1.0 <= ArccosArgument(RotationTrace(pred, gt.value)) <= 1.0 &&
                        r.value.rot == num.arccosDeg(ArccosArgument(RotationTrace(pred, gt.value)))
    ensures r.Some? ==> (r.value.add.NaN? <==> |modelPts| == 0)
  {
    match gt
    case None => None
    case Some(g) =>
      var add := if |modelPts| == 0 then NaN else Finite(Mean(PointDistances(pred, g, modelPts, num)));
      Some(PoseErrors(Norm(Minus(Translation(pred), Translation(g)), num), RotationAngle(pred, g, num), add))
  }

  /** The errors do not depend on which of the two poses is the prediction. */
  lemma PoseErrorsSymmetric(a: Matrix4, b: Matrix4, modelPts: seq<Vec3>, num: Numerics)
    ensures ComputePoseErrors(a, Some(b), modelPts, num) == ComputePoseErrors(b, Some(a), modelPts, num)
  {
    NormOfDifferenceSymmetric(Translation(a), Translation(b), num);
    RotationAngleSymmetric(a, b, num);
    forall k | 0 <= k < |modelPts|
      ensures PointDistances(a, b, modelPts, num)[k] == PointDistances(b, a, modelPts, num)[k]
    {
      NormOfDifferenceSymmetric(TransformPoint(a, modelPts[k]), TransformPoint(b, modelPts[k]), num);
    }
    assert PointDistances(a, b, modelPts, num) == PointDistances(b, a, modelPts, num);
  }

  /** A prediction equal to the ground truth has zero translation distance and zero ADD (as measured by `sqrt(0)`). */
  lemma ExactPredictionErrors(pred: Matrix4, gt: Matrix4, modelPts: seq<Vec3>, num: Numerics)
    requires pred == gt
    ensures ComputePoseErrors(pred, Some(gt), modelPts, num).value.trans == num.sqrt(0.0)
    ensures |modelPts| > 0 ==> ComputePoseErrors(pred, Some(gt), modelPts, num).value.add == Finite(num.sqrt(0.0))
  {
    NormOfNoDifference(Translation(pred), Translation(gt), num);
    if |modelPts| > 0 {
      var d := PointDistances(pred, gt, modelPts, num);
      forall k | 0 <= k < |d|
        ensures d[k] == num.sqrt(0.0)
      {
        NormOfNoDifference(TransformPoint(pred, modelPts[k]), TransformPoint(gt, modelPts[k]), num);
      }
      MeanOfConstant(d, num.sqrt(0.0));
    }
  }

  /** The four stability figures of a pose sequence. */
  datatype Stability = Stability(transVariance: real, rotVariance: real, stepTrans: real, stepRot: real)

  function Translations(poses: seq<Matrix4>): seq<Vec3>
  {
    seq(|poses|, k requires 0 <= k < |poses| => Translation(poses[k]))
  }

  function EulerAngles(poses: seq<Matrix4>, num: Numerics): seq<Vec3>
  {
    seq(|poses|, k requires 0 <= k < |poses| => num.eulerXyzDeg(poses[k]))
  }

  /** Translation distance from each pose to the next. */
  function StepDistances(poses: seq<Matrix4>, num: Numerics): seq<real>
    requires |poses| > 0
  {
    seq(|poses| - 1, k requires 0 <= k < |poses| - 1 =>
      Norm(Minus(Translation(poses[k + 1]), Translation(poses[k])), num))
  }

  /** Rotation angle from each pose to the next. */
  function StepAngles(poses: seq<Matrix4>, num: Numerics): seq<real>
    requires |poses| > 0
  {
    seq(|poses| - 1, k requires 0 <= k < |poses| - 1 => RotationAngle(poses[k + 1], poses[k], num))
  }

  /**
   * What `compute_tracking_stability` reports: nothing for fewer than two poses;
   * otherwise the variances (never negative) and the mean step over the n - 1
   * consecutive pairs.
   */
  function StabilityOf(poses: seq<Matrix4>, num: Numerics): (r: Option<Stability>)
    ensures r.None? <==> |poses| < 2
    ensures r.Some? ==> r.value.transVariance >= 0.0 && r.value.rotVariance >= 0.0
    ensures r.Some? ==> |StepDistances(poses, num)| == |StepAngles(poses, num)| == |poses| - 1 > 0
  {
    if |poses| < 2 then None
    else
      Some(Stability(MeanAxisVariance(Translations(poses)), MeanAxisVariance(EulerAngles(poses, num)),
                     Mean(StepDistances(poses, num)), Mean(StepAngles(poses, num))))
  }

  /** A sequence that never moves has zero variance and every step measured as `sqrt(0)`. */
  lemma StillSequenceStability(poses: seq<Matrix4>, p: Matrix4, num: Numerics)
    requires |poses| >= 2 && forall k :: 0 <= k < |poses| ==> poses[k] == p
    ensures StabilityOf(poses, num).value.transVariance == 0.0
    ensures StabilityOf(poses, num).value.rotVariance == 0.0
    ensures StabilityOf(poses, num).value.stepTrans == num.sqrt(0.0)
    ensures StabilityOf(poses, num).value.stepRot == RotationAngle(p, p, num)
  {
    MeanAxisVarianceOfConstant(Translations(poses), Translation(p));
    MeanAxisVarianceOfConstant(EulerAngles(poses, num), num.eulerXyzDeg(p));
    forall k | 0 <= k < |poses| - 1
      ensures StepDistances(poses, num)[k] == num.sqrt(0.0) && StepAngles(poses, num)[k] == RotationAngle(p, p, num)
    {
      NormOfNoDifference(Translation(poses[k + 1]), Translation(poses[k]), num);
    }
    MeanOfConstant(StepDistances(poses, num), num.sqrt(0.0));
    MeanOfConstant(StepAngles(poses, num), RotationAngle(p, p, num));
  }

  /** The frame-to-frame loop: one entry per consecutive pair, in order. */
  method FrameToFrameChanges(poses: seq<Matrix4>, num: Numerics) returns (stepTrans: seq<real>, stepRot: seq<real>)
    requires |poses| > 0
    ensures |stepTrans| == |stepRot| == |poses| - 1
    ensures forall k :: 0 <= k < |poses| - 1 ==>
              stepTrans[k] == Norm(Minus(Translation(poses[k + 1]), Translation(poses[k])), num) &&
              stepRot[k] == RotationAngle(poses[k + 1], poses[k], num)
  {
    stepTrans, stepRot := [], [];
    for i := 1 to |poses|
      invariant |stepTrans| == |stepRot| == i - 1
      invariant forall k :: 0 <= k < i - 1 ==>
                  stepTrans[k] == Norm(Minus(Translation(poses[k + 1]), Translation(poses[k])), num) &&
                  stepRot[k] == RotationAngle(poses[k + 1], poses[k], num)
    {
      stepTrans := stepTrans + [Norm(Minus(Translation(poses[i]), Translation(poses[i - 1])), num)];
      stepRot := stepRot + [RotationAngle(poses[i], poses[i - 1], num)];
    }
  }

  /** `compute_tracking_stability` */
  method ComputeTrackingStability(poses: seq<Matrix4>, num: Numerics) returns (r: Option<Stability>)
    ensures r == StabilityOf(poses, num)
  {
    if |poses| < 2 {
      return None;
    }
    var transVariance := MeanAxisVariance(Translations(poses));
    var rotVariance := MeanAxisVariance(EulerAngles(poses, num));
    var stepTrans, stepRot := FrameToFrameChanges(poses, num);
    assert stepTrans == StepDistances(poses, num);
    assert stepRot == StepAngles(poses, num);
    r := Some(Stability(transVariance, rotVariance, Mean(stepTrans), Mean(stepRot)));
  }

  /** One entry of `errors`: the frame index and its errors. */
  datatype ErrorRecord = ErrorRecord(frame: nat, errors: PoseErrors)

  /** The error records of the first `|poses|` frames: one for each frame that has a ground-truth pose. */
  function ErrorRecords(frames: seq<Frame>, poses: seq<Matrix4>, modelPts: seq<Vec3>, num: Numerics): seq<ErrorRecord>
    requires |poses| <= |frames|
  {
    if |poses| == 0 then []
    else
      var i := |poses| - 1;
      ErrorRecords(frames, poses[..i], modelPts, num) +
      (if frames[i].gt.Some? then [ErrorRecord(i, ComputePoseErrors(poses[i], frames[i].gt, modelPts, num).value)] else [])
  }

  /** One more pose adds at most the record of its own frame. */
  lemma ErrorRecordsAppend(frames: seq<Frame>, poses: seq<Matrix4>, p: Matrix4, modelPts: seq<Vec3>, num: Numerics)
    requires |poses| < |frames|
    ensures ErrorRecords(frames, poses + [p], modelPts, num) ==
            ErrorRecords(frames, poses, modelPts, num) +
            (if frames[|poses|].gt.Some?
             then [ErrorRecord(|poses|, ComputePoseErrors(p, frames[|poses|].gt, modelPts, num).value)]
             else [])
  {
    assert (poses + [p])[..|poses|] == poses;
  }

  /** Record `rec` holds the errors of the pose of a frame, among the first `|poses|`, that has ground truth. */
  predicate RecordOfFrame(frames: seq<Frame>, poses: seq<Matrix4>, modelPts: seq<Vec3>, num: Numerics, rec: ErrorRecord)
    requires |poses| <= |frames|
  {
    rec.frame < |poses| && frames[rec.frame].gt.Some? &&
    Some(rec.errors) == ComputePoseErrors(poses[rec.frame], frames[rec.frame].gt, modelPts, num)
  }

  /** Every record belongs to a frame with ground truth and holds that frame's errors. */
  lemma {:induction false} ErrorRecordsSound(frames: seq<Frame>, poses: seq<Matrix4>, modelPts: seq<Vec3>, num: Numerics)
    requires |poses| <= |frames|
    ensures forall k :: 0 <= k < |ErrorRecords(frames, poses, modelPts, num)| ==>
              RecordOfFrame(frames, poses, modelPts, num, ErrorRecords(frames, poses, modelPts, num)[k])
  {
    if |poses| > 0 {
      var n := |poses| - 1;
      var init := poses[..n];
      ErrorRecordsSound(frames, init, modelPts, num);
      var p := ErrorRecords(frames, init, modelPts, num);
      forall k | 0 <= k < |p|
        ensures RecordOfFrame(frames, poses, modelPts, num, p[k])
      {
        assert RecordOfFrame(frames, init, modelPts, num, p[k]);
        assert poses[p[k].frame] == init[p[k].frame];
      }
    }
  }

  /** Records come in strictly increasing frame order. */
  lemma {:induction false} ErrorRecordsIncreasing(frames: seq<Frame>, poses: seq<Matrix4>, modelPts: seq<Vec3>, num: Numerics)
    requires |poses| <= |frames|
    ensures forall k :: 0 <= k < |ErrorRecords(frames, poses, modelPts, num)| ==>
              ErrorRecords(frames, poses, modelPts, num)[k].frame < |poses|
    ensures forall j, k :: 0 <= j < k < |ErrorRecords(frames, poses, modelPts, num)| ==>
              ErrorRecords(frames, poses, modelPts, num)[j].frame < ErrorRecords(frames, poses, modelPts, num)[k].frame
  {
    if |poses| > 0 {
      ErrorRecordsIncreasing(frames, poses[..|poses| - 1], modelPts, num);
    }
  }

  /** Some record in `rs` is about frame `i`. */
  predicate HasRecord(rs: seq<ErrorRecord>, i: nat)
  {
    exists k :: 0 <= k < |rs| && rs[k].frame == i
  }

  /** No frame with ground truth is missed. */
  lemma {:induction false} ErrorRecordsComplete(frames: seq<Frame>, poses: seq<Matrix4>, modelPts: seq<Vec3>, num: Numerics)
    requires |poses| <= |frames|
    ensures forall i :: 0 <= i < |poses| && frames[i].gt.Some? ==> HasRecord(ErrorRecords(frames, poses, modelPts, num), i)
  {
    if |poses| > 0 {
      var n := |poses| - 1;
      ErrorRecordsComplete(frames, poses[..n], modelPts, num);
      var p := ErrorRecords(frames, poses[..n], modelPts, num);
      var r := ErrorRecords(frames, poses, modelPts, num);
      assert r[..|p|] == p;
      forall i | 0 <= i < |poses| && frames[i].gt.Some?
        ensures HasRecord(r, i)
      {
        if i < n {
          assert HasRecord(p, i);
          var k :| 0 <= k < |p| && p[k].frame == i;
          assert r[k] == r[..|p|][k];
        } else {
          assert r[|p|].frame == n;
        }
      }
    }
  }

  /** What a completed run returns: the pose of every frame and the error records. */
  datatype TrackRun = TrackRun(poses: seq<Matrix4>, errors: seq<ErrorRecord>)

  /**
   * Each pose is the estimator's answer to its call: the first from no previous
   * pose, every later one from the pose before it.
   */
  predicate Chained(answer: (Option<Matrix4>, Call) -> Matrix4, poses: seq<Matrix4>, calls: seq<Call>)
    requires |poses| <= |calls|
  {
    forall k :: 0 <= k < |poses| ==> poses[k] == AnswerAt(answer, poses, calls, k)
  }

  /** The estimator's answer to call `k`, from the pose before it. */
  function AnswerAt(answer: (Option<Matrix4>, Call) -> Matrix4, poses: seq<Matrix4>, calls: seq<Call>, k: nat): Matrix4
    requires k <= |poses| && k < |calls|
  {
    answer(if k == 0 then None else Some(poses[k - 1]), calls[k])
  }

  /** Answering one more call from the last pose extends the chain. */
  lemma ChainedExtend(answer: (Option<Matrix4>, Call) -> Matrix4, poses: seq<Matrix4>, calls: seq<Call>, p: Matrix4, c: Call)
    requires |poses| == |calls| && Chained(answer, poses, calls)
    requires p == AnswerAt(answer, poses, calls + [c], |poses|)
    ensures Chained(answer, poses + [p], calls + [c])
  {
    var ps, cs := poses + [p], calls + [c];
    forall k | 0 <= k < |ps|
      ensures ps[k] == AnswerAt(answer, ps, cs, k)
    {
      if k < |poses| {
        assert poses[k] == AnswerAt(answer, poses, calls, k);
        assert ps[k] == poses[k] && cs[k] == calls[k];
        if k > 0 {
          assert ps[k - 1] == poses[k - 1];
        }
      } else if k > 0 {
        assert ps[k - 1] == poses[|poses| - 1];
      }
    }
  }

  /**
   * `run_tracking_sequence`: the estimator's held pose is cleared first, then
   * every frame makes its call in turn (the run raises, here `None`, at a frame
   * that raises). A completed run has one pose per frame, chained from no
   * previous pose through the calls of the run, and the error records of the
   * frames with ground truth.
   */
  method RunTrackingSequence(est: Estimator, frames: seq<Frame>, useMask: bool, modelPts: seq<Vec3>, num: Numerics)
    returns (run: Option<TrackRun>)
    modifies est
    ensures est.calls == old(est.calls) + Protocol(frames, useMask)
    ensures run.Some? <==> |Protocol(frames, useMask)| == |frames|
    ensures run.Some? ==>
              |run.value.poses| == |frames| &&
              est.returned == old(est.returned) + run.value.poses &&
              Chained(est.answer, run.value.poses, Protocol(frames, useMask)) &&
              run.value.errors == ErrorRecords(frames, run.value.poses, modelPts, num)
  {
    ghost var calls0 := est.calls;
    ghost var returned0 := est.returned;
    est.ResetPoseLast();
    var poses: seq<Matrix4> := [];
    var errors: seq<ErrorRecord> := [];
    var i := 0;
    while i < |frames|
      invariant 0 <= i <= |frames| && |poses| == i
      invariant |Calls(frames, useMask, i)| == i
      invariant est.calls == calls0 + Calls(frames, useMask, i)
      invariant est.returned == returned0 + poses
      invariant est.poseLast == if i == 0 then None else Some(poses[i - 1])
      invariant Chained(est.answer, poses, Calls(frames, useMask, i))
      invariant errors == ErrorRecords(frames, poses, modelPts, num)
    {
      var pose := ProcessNext(est, frames, useMask, i, calls0);
      if pose.None? {
        return None;
      }
      var p := pose.value;
      ghost var c := Calls(frames, useMask, i + 1)[i];
      assert Calls(frames, useMask, i + 1) == Calls(frames, useMask, i) + [c] by {
        assert |Calls(frames, useMask, i + 1)| == i + 1;
      }
      assert p == AnswerAt(est.answer, poses, Calls(frames, useMask, i) + [c], i);
      ChainedExtend(est.answer, poses, Calls(frames, useMask, i), p, c);
      ErrorRecordsAppend(frames, poses, p, modelPts, num);
      if frames[i].gt.Some? {
        errors := errors + [ErrorRecord(i, ComputePoseErrors(p, frames[i].gt, modelPts, num).value)];
      }
      poses := poses + [p];
      i := i + 1;
    }
    run := Some(TrackRun(poses, errors));
  }

  /** `a - b` when both figures are truthy (present and non-zero), else `None`. */
  function Improvement(a: real, b: real): (r: Option<real>)
    ensures r.Some? <==> a != 0.0 && b != 0.0
    ensures r.Some? ==> b + r.value == a
  {
    if a != 0.0 && b != 0.0 then Some(a - b) else None
  }

  /** `results['comparison']['stability']` */
  datatype StabilityComparison = StabilityComparison(
    transVariance: Option<real>, rotVariance: Option<real>, stepTrans: Option<real>, stepRot: Option<real>)

  /** `results['comparison']['pose_errors']`; ADD figures stay NaN-aware. */
  datatype ErrorComparison = ErrorComparison(
    transNo: real, transWith: real, transImprovement: real,
    rotNo: real, rotWith: real, rotImprovement: real,
    addNo: Float, addWith: Float, addImprovement: Float)

  /** The `results` dictionary; an empty stability block is `None`. */
  datatype Report = Report(
    numFrames: nat,
    stabilityNoMask: Option<Stability>,
    stabilityWithMask: Option<Stability>,
    stability: Option<StabilityComparison>,
    poseErrors: Option<ErrorComparison>)

  function TransErrors(es: seq<ErrorRecord>): seq<real>
  {
    seq(|es|, k requires 0 <= k < |es| => es[k].errors.trans)
  }

  function RotErrors(es: seq<ErrorRecord>): seq<real>
  {
    seq(|es|, k requires 0 <= k < |es| => es[k].errors.rot)
  }

  function AddErrors(es: seq<ErrorRecord>): seq<Float>
  {
    seq(|es|, k requires 0 <= k < |es| => es[k].errors.add)
  }

  /** Stability comparison of two filled blocks, figure by figure. */
  function CompareStability(no: Stability, with: Stability): StabilityComparison
  {
    StabilityComparison(Improvement(no.transVariance, with.transVariance),
                        Improvement(no.rotVariance, with.rotVariance),
                        Improvement(no.stepTrans, with.stepTrans),
                        Improvement(no.stepRot, with.stepRot))
  }

  /**
   * `compare_tracking_results`: the frame count is that of the run without masks;
   * a stability block is filled only for more than one pose; figures are compared
   * only when both blocks are filled, and errors only when both runs have records.
   */
  method CompareTrackingResults(posesNo: seq<Matrix4>, posesWith: seq<Matrix4>,
                                errorsNo: seq<ErrorRecord>, errorsWith: seq<ErrorRecord>, num: Numerics)
    returns (res: Report)
    ensures res.numFrames == |posesNo|
    ensures res.stabilityNoMask.Some? <==> |posesNo| > 1
    ensures res.stabilityWithMask.Some? <==> |posesWith| > 1
    ensures res.stabilityNoMask == StabilityOf(posesNo, num) && res.stabilityWithMask == StabilityOf(posesWith, num)
    ensures res.stability.Some? <==> |posesNo| > 1 && |posesWith| > 1
    ensures res.stability.Some? ==>
              res.stability.value == CompareStability(res.stabilityNoMask.value, res.stabilityWithMask.value)
    ensures res.poseErrors.Some? <==> |errorsNo| > 0 && |errorsWith| > 0
    ensures res.poseErrors.Some? ==>
              var c := res.poseErrors.value;
              c.transNo == Mean(TransErrors(errorsNo)) && c.transWith == Mean(TransErrors(errorsWith)) &&
              c.transWith + c.transImprovement == c.transNo &&
              c.rotNo == Mean(RotErrors(errorsNo)) && c.rotWith == Mean(RotErrors(errorsWith)) &&
              c.rotWith + c.rotImprovement == c.rotNo &&
              c.addNo == MeanFloat(AddErrors(errorsNo)) && c.addWith == MeanFloat(AddErrors(errorsWith)) &&
              c.addImprovement == Sub(c.addNo, c.addWith)
  {
    res := Report(|posesNo|, None, None, None, None);
    if |posesNo| > 1 {
      var s := ComputeTrackingStability(posesNo, num);
      res := res.(stabilityNoMask := s);
    }
    if |posesWith| > 1 {
      var s := ComputeTrackingStability(posesWith, num);
      res := res.(stabilityWithMask := s);
    }
    if res.stabilityNoMask.Some? && res.stabilityWithMask.Some? {
      res := res.(stability := Some(CompareStability(res.stabilityNoMask.value, res.stabilityWithMask.value)));
    }
    if |errorsNo| > 0 && |errorsWith| > 0 {
      var transNo, transWith := Mean(TransErrors(errorsNo)), Mean(TransErrors(errorsWith));
      var rotNo, rotWith := Mean(RotErrors(errorsNo)), Mean(RotErrors(errorsWith));
      var addNo, addWith := MeanFloat(AddErrors(errorsNo)), MeanFloat(AddErrors(errorsWith));
      res := res.(poseErrors := Some(ErrorComparison(transNo, transWith, transNo - transWith,
                                                     rotNo, rotWith, rotNo - rotWith,
                                                     addNo, addWith, Sub(addNo, addWith))));
    }
  }
}
