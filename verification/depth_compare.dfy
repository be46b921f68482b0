/**
 * The depth-image comparison tool (utils/compare_depth_images.py): loading and
 * normalising a reference and a generated depth image, the pixel metrics over
 * the pixels valid in both, and the directory walk that compares every common
 * `.png` and sorts each file into compared or failed.
 * Image decoding, colour conversion, resizing, SSIM, PSNR and the correlation
 * coefficient are supplied as function values; only the logic around them is modelled.
 */
module DepthCompare {
  import opened Wrappers
  import opened Strings
  import opened Paths
  import opened Numeric
  import Geometry

  /** What `cv2.imread(..., IMREAD_UNCHANGED)` decodes: the array's shape and its values in row order. */
  datatype Decoded = Decoded(shape: seq<nat>, data: seq<real>)

  /** A depth array as `float32` values with its shape. */
  datatype DepthMap = DepthMap(shape: seq<nat>, values: seq<Float>)

  /** `(depth_normalized, depth)` */
  datatype Loaded = Loaded(normalized: DepthMap, raw: DepthMap)

  /** `(None, None)` for an unreadable file, or an exception (`max` of no values). */
  datatype LoadFailure = Unreadable | LoadRaised

  function AsFloats(s: seq<real>): seq<Float>
  {
    seq(|s|, k requires 0 <= k < |s| => Finite(s[k]))
  }

  /** Every value divided by `d`. */
  function Scaled(s: seq<real>, d: real): seq<Float>
    requires d != 0.0
  {
    seq(|s|, k requires 0 <= k < |s| => Finite(s[k] / d))
  }

  /** The grey values of a generated image: converted from colour when the array has three dimensions. */
  function GrayOf(img: Decoded, toGray: Decoded -> seq<real>): seq<real>
  {
    if |img.shape| == 3 then toGray(img) else img.data
  }

  /** The values `load_depth_image` reads: the reference as stored, a generated image in grey. */
  function DepthValues(img: Decoded, isReference: bool, toGray: Decoded -> seq<real>): seq<real>
  {
    if isReference then img.data else GrayOf(img, toGray)
  }

  /**
   * `load_depth_image`: a reference image is divided by its maximum when that is
   * positive and otherwise kept; a generated image, turned grey first, is divided
   * by 255 when its maximum is positive and otherwise kept. The raw values are
   * returned alongside. Taking the maximum of no values raises.
   */
  function LoadDepthImage(img: Option<Decoded>, isReference: bool, toGray: Decoded -> seq<real>): (r: Result<Loaded, LoadFailure>)
    ensures img.None? ==> r == Err(Unreadable)
    ensures r == Err(LoadRaised) <==> img.Some? && |DepthValues(img.value, isReference, toGray)| == 0
    ensures r.Ok? ==>
              var d := DepthValues(img.value, isReference, toGray);
              |d| > 0 && r.value.raw.values == AsFloats(d) &&
              (MaxOf(d) > 0.0 ==> r.value.normalized.values == Scaled(d, if isReference then MaxOf(d) else 255.0)) &&
              (MaxOf(d) <= 0.0 ==> r.value.normalized.values == r.value.raw.values) &&
              r.value.normalized.shape == r.value.raw.shape
  {
    match img
    case None => Err(Unreadable)
    case Some(im) =>
      var shape := if !isReference && |im.shape| == 3 then im.shape[..2] else im.shape;
      var d := DepthValues(im, isReference, toGray);
      if |d| == 0 then Err(LoadRaised)
      else
        var depth := DepthMap(shape, AsFloats(d));
        var m := MaxOf(d);
        Ok(Loaded(if m > 0.0 then DepthMap(shape, Scaled(d, if isReference then m else 255.0)) else depth, depth))
  }

  /** A 16-bit reference image (values never negative) normalises into [0, 1]. */
  lemma ReferenceNormalizedInUnitRange(img: Decoded, toGray: Decoded -> seq<real>)
    requires forall k :: 0 <= k < |img.data| ==> img.data[k] >= 0.0
    requires LoadDepthImage(Some(img), true, toGray).Ok?
    ensures forall k :: 0 <= k < |LoadDepthImage(Some(img), true, toGray).value.normalized.values| ==>
              LoadDepthImage(Some(img), true, toGray).value.normalized.values[k].Finite? &&
              0.0 <= LoadDepthImage(Some(img), true, toGray).value.normalized.values[k].v <= 1.0
  {
    var d := img.data;
    var m := MaxOf(d);
    if m > 0.0 {
      forall k | 0 <= k < |d|
        ensures 0.0 <= d[k] / m <= 1.0
      {
        DivideAtMost(d[k], m);
      }
    }
  }

  /** `0 <= a <= m` with `m > 0` gives `0 <= a / m <= 1`. */
  lemma DivideAtMost(a: real, m: real)
    requires 0.0 <= a <= m && m > 0.0
    ensures 0.0 <= a / m <= 1.0
  {
    assert a / m * m == a;
  }

  /** An 8-bit generated image (grey values in [0, 255]) normalises into [0, 1]. */
  lemma GeneratedNormalizedInUnitRange(img: Decoded, toGray: Decoded -> seq<real>)
    requires forall k :: 0 <= k < |GrayOf(img, toGray)| ==> 0.0 <= GrayOf(img, toGray)[k] <= 255.0
    requires LoadDepthImage(Some(img), false, toGray).Ok?
    ensures forall k :: 0 <= k < |LoadDepthImage(Some(img), false, toGray).value.normalized.values| ==>
              LoadDepthImage(Some(img), false, toGray).value.normalized.values[k].Finite? &&
              0.0 <= LoadDepthImage(Some(img), false, toGray).value.normalized.values[k].v <= 1.0
  {
    var g := GrayOf(img, toGray);
    if MaxOf(g) > 0.0 {
      forall k | 0 <= k < |g|
        ensures 0.0 <= g[k] / 255.0 <= 1.0
      {
        DivideAtMost(g[k], 255.0);
      }
    } else {
      assert forall k :: 0 <= k < |g| ==> g[k] <= MaxOf(g);
    }
  }

  /** `(flat1 > 0) & (flat2 > 0) & ~isnan(flat1) & ~isnan(flat2)` at one pixel. */
  predicate ValidPixel(a: Float, b: Float)
  {
    a.Finite? && b.Finite? && a.v > 0.0 && b.v > 0.0
  }

  /** The value pairs at the pixels valid in both images, in pixel order. */
  function ValidPairs(f1: seq<Float>, f2: seq<Float>): (r: seq<(real, real)>)
    requires |f1| == |f2|
    ensures |r| <= |f1|
    ensures forall k :: 0 <= k < |r| ==> r[k].0 > 0.0 && r[k].1 > 0.0
  {
    if |f1| == 0 then []
    else
      var n := |f1| - 1;
      ValidPairs(f1[..n], f2[..n]) + (if ValidPixel(f1[n], f2[n]) then [(f1[n].v, f2[n].v)] else [])
  }

  /** No pair survives exactly when no pixel is valid in both images. */
  lemma {:induction false} ValidPairsEmpty(f1: seq<Float>, f2: seq<Float>)
    requires |f1| == |f2|
    ensures |ValidPairs(f1, f2)| == 0 <==> forall i :: 0 <= i < |f1| ==> !ValidPixel(f1[i], f2[i])
  {
    if |f1| > 0 {
      var n := |f1| - 1;
      ValidPairsEmpty(f1[..n], f2[..n]);
      assert forall i :: 0 <= i < n ==> f1[..n][i] == f1[i] && f2[..n][i] == f2[i];
    }
  }

  function SquaredDiffs(ps: seq<(real, real)>): seq<real>
  {
    seq(|ps|, k requires 0 <= k < |ps| => (ps[k].0 - ps[k].1) * (ps[k].0 - ps[k].1))
  }

  function AbsDiffs(ps: seq<(real, real)>): seq<real>
  {
    seq(|ps|, k requires 0 <= k < |ps| => Abs(ps[k].0 - ps[k].1))
  }

  /** The squared and absolute errors are never negative, so neither are their means. */
  lemma ErrorsNonNegative(ps: seq<(real, real)>)
    requires |ps| > 0
    ensures Mean(SquaredDiffs(ps)) >= 0.0 && Mean(AbsDiffs(ps)) >= 0.0
  {
    var sq := SquaredDiffs(ps);
    forall k | 0 <= k < |sq|
      ensures sq[k] >= 0.0
    {
      SquareNonNegative(ps[k].0 - ps[k].1);
    }
    MeanNonNegative(sq);
    MeanNonNegative(AbsDiffs(ps));
  }

  /** A sum of non-negative terms is zero exactly when every term is. */
  lemma {:induction false} SumZeroIffAllZero(s: seq<real>)
    requires forall i :: 0 <= i < |s| ==> s[i] >= 0.0
    ensures Sum(s) == 0.0 <==> forall i :: 0 <= i < |s| ==> s[i] == 0.0
  {
    if |s| > 0 {
      var n := |s| - 1;
      assert forall i :: 0 <= i < n ==> s[..n][i] == s[i];
      SumZeroIffAllZero(s[..n]);
      SumNonNegative(s[..n]);
    }
  }

  /** The mean absolute error vanishes exactly when the two images agree on every valid pixel. */
  lemma MaeZeroIffAgree(ps: seq<(real, real)>)
    requires |ps| > 0
    ensures Mean(AbsDiffs(ps)) == 0.0 <==> forall k :: 0 <= k < |ps| ==> ps[k].0 == ps[k].1
  {
    SumZeroIffAllZero(AbsDiffs(ps));
    assert forall k :: 0 <= k < |ps| ==> (AbsDiffs(ps)[k] == 0.0 <==> ps[k].0 == ps[k].1);
  }

  /**
   * The library functions the metrics use; `None` from `ssim` or `psnr` means it
   * raised. `np.sqrt` is the shared square-root oracle of `Geometry.Numerics`.
   */
  datatype ImageStats = ImageStats(
    resize: (DepthMap, DepthMap) -> DepthMap,
    ssim: (DepthMap, DepthMap) -> Option<Float>,
    psnr: (seq<real>, seq<real>) -> Option<Float>,
    corrcoef: (seq<real>, seq<real>) -> Float,
    num: Geometry.Numerics)

  /** The metrics dictionary of one image pair. */
  datatype Metrics = Metrics(
    mse: Float, mae: Float, rmse: Float,
    ssim: Option<Float>, psnr: Option<Float>, correlation: Option<Float>,
    validPixels: nat, totalPixels: nat)

  /** `float(x) if not np.isnan(x) else None` */
  function UnlessNaN(x: Float): (r: Option<Float>)
    ensures r.None? <==> x.NaN?
    ensures r.Some? ==> r.value == x
  {
    if x.NaN? then None else Some(x)
  }

  /** An image with the invalid pixels set to 0, as handed to SSIM. */
  function Masked(d: DepthMap, other: DepthMap): DepthMap
    requires |d.values| == |other.values|
  {
    DepthMap(d.shape, seq(|d.values|, k requires 0 <= k < |d.values| =>
      if ValidPixel(d.values[k], other.values[k]) then d.values[k] else Finite(0.0)))
  }

  function Firsts(ps: seq<(real, real)>): seq<real>
  {
    seq(|ps|, k requires 0 <= k < |ps| => ps[k].0)
  }

  function Seconds(ps: seq<(real, real)>): seq<real>
  {
    seq(|ps|, k requires 0 <= k < |ps| => ps[k].1)
  }

  /** The second image at the first one's size: resized only when the shapes differ. */
  function Aligned(d1: DepthMap, d2: DepthMap, st: ImageStats): DepthMap
  {
    if d1.shape != d2.shape then st.resize(d2, d1) else d2
  }

  /**
   * `calculate_metrics`, with an SSIM that raised or came out NaN reported as
   * `None` (`CalculateMetricsAsWritten` is the code as written). The result is
   * `None`, standing for the exception numpy raises, only when the two
   * flattened images differ in length and cannot be compared pixel by pixel.
   * Without valid pixels every metric is NaN and no pixel is counted; otherwise
   * MSE and MAE are the means of the squared and absolute differences over the
   * valid pixels, never negative, and RMSE is the root of MSE.
   */
  function CalculateMetrics(d1: DepthMap, d2: DepthMap, st: ImageStats): (r: Option<Metrics>)
    ensures r.None? <==> |d1.values| != |Aligned(d1, d2, st).values|
    ensures r.Some? ==>
              r.value.totalPixels == |d1.values| &&
              r.value.validPixels == |ValidPairs(d1.values, Aligned(d1, d2, st).values)| <= r.value.totalPixels
    ensures r.Some? && r.value.validPixels == 0 ==>
              r.value.mse.NaN? && r.value.mae.NaN? && r.value.rmse.NaN? &&
              r.value.ssim == Some(NaN) && r.value.psnr == Some(NaN) && r.value.correlation == Some(NaN)
    ensures r.Some? && r.value.validPixels > 0 ==>
              var ps := ValidPairs(d1.values, Aligned(d1, d2, st).values);
              r.value.mse == Finite(Mean(SquaredDiffs(ps))) && r.value.mse.v >= 0.0 &&
              r.value.mae == Finite(Mean(AbsDiffs(ps))) && r.value.mae.v >= 0.0 &&
              r.value.rmse == Finite(st.num.sqrt(r.value.mse.v)) &&
              (r.value.ssim.Some? ==> r.value.ssim.value.Finite?)
    ensures r.Some? && r.value.validPixels > 0 ==>
              var a := Aligned(d1, d2, st);
              var s := st.ssim(Masked(d1, a), Masked(a, d1));
              r.value.ssim == (if s.Some? && s.value.Finite? then s else None)
    ensures r.Some? && r.value.validPixels > 0 ==>
              var ps := ValidPairs(d1.values, Aligned(d1, d2, st).values);
              var p := st.psnr(Firsts(ps), Seconds(ps));
              r.value.psnr == (if p.Some? && p.value.Finite? then p else None)
    ensures r.Some? && r.value.validPixels > 0 ==>
              (r.value.correlation.Some? ==> r.value.correlation.value.Finite?) &&
              (r.value.validPixels == 1 ==> r.value.correlation == None)
    ensures r.Some? && r.value.validPixels > 1 ==>
              var ps := ValidPairs(d1.values, Aligned(d1, d2, st).values);
              r.value.correlation == UnlessNaN(st.corrcoef(Firsts(ps), Seconds(ps)))
  {
    var a := Aligned(d1, d2, st);
    if |d1.values| != |a.values| then None
    else
      var ps := ValidPairs(d1.values, a.values);
      if |ps| == 0 then
        Some(Metrics(NaN, NaN, NaN, Some(NaN), Some(NaN), Some(NaN), 0, |d1.values|))
      else
        ErrorsNonNegative(ps);
        var mse := Mean(SquaredDiffs(ps));
        var ssimValue := st.ssim(Masked(d1, a), Masked(a, d1));
        var psnrValue := match st.psnr(Firsts(ps), Seconds(ps)) case None => NaN case Some(x) => x;
        var correlation := if |ps| > 1 then st.corrcoef(Firsts(ps), Seconds(ps)) else NaN;
        Some(Metrics(Finite(mse), Finite(Mean(AbsDiffs(ps))), Finite(st.num.sqrt(mse)),
                     if ssimValue.Some? then UnlessNaN(ssimValue.value) else None,
                     UnlessNaN(psnrValue), UnlessNaN(correlation), |ps|, |d1.values|))
  }

  /**
   * `calculate_metrics` as written: an SSIM that raised or came out NaN leaves
   * `ssim_value` as `None`, and the `np.isnan(ssim_value)` of the returned
   * record then raises a `TypeError` (`None` here). Its results are exactly
   * the corrected ones that carry an SSIM value.
   */
  function CalculateMetricsAsWritten(d1: DepthMap, d2: DepthMap, st: ImageStats): (r: Option<Metrics>)
    ensures r.Some? <==> CalculateMetrics(d1, d2, st).Some? && CalculateMetrics(d1, d2, st).value.ssim.Some?
    ensures r.Some? ==> r == CalculateMetrics(d1, d2, st)
  {
    var a := Aligned(d1, d2, st);
    if |d1.values| != |a.values| then None
    else
      var ps := ValidPairs(d1.values, a.values);
      if |ps| == 0 then
        Some(Metrics(NaN, NaN, NaN, Some(NaN), Some(NaN), Some(NaN), 0, |d1.values|))
      else
        var ssimRaw := st.ssim(Masked(d1, a), Masked(a, d1));
        var ssimValue := if ssimRaw.Some? && ssimRaw.value.Finite? then ssimRaw else None;
        if ssimValue.None? then None
        else
          var mse := Mean(SquaredDiffs(ps));
          var psnrValue := match st.psnr(Firsts(ps), Seconds(ps)) case None => NaN case Some(x) => x;
          var correlation := if |ps| > 1 then st.corrcoef(Firsts(ps), Seconds(ps)) else NaN;
          Some(Metrics(Finite(mse), Finite(Mean(AbsDiffs(ps))), Finite(st.num.sqrt(mse)),
                       Some(ssimValue.value), UnlessNaN(psnrValue), UnlessNaN(correlation), |ps|, |d1.values|))
  }

  /** An SSIM that raises (a 1x1 image is smaller than its 7x7 window) makes the code as written reject a pair with a valid pixel. */
  lemma SsimFailureRaises(st: ImageStats)
    requires forall a: DepthMap, b: DepthMap :: st.ssim(a, b) == None
    ensures var d := DepthMap([1, 1], [Finite(0.5)]);
            CalculateMetricsAsWritten(d, d, st).None? &&
            CalculateMetrics(d, d, st).Some? && CalculateMetrics(d, d, st).value.validPixels == 1 &&
            CalculateMetrics(d, d, st).value.ssim == None
  {
    var d := DepthMap([1, 1], [Finite(0.5)]);
    assert [Finite(0.5)][..0] == [];
    assert ValidPairs(d.values, d.values) == [(0.5, 0.5)];
    assert st.ssim(Masked(d, d), Masked(d, d)) == None;
  }

  /** `pathlib.Path(d).glob('*.png')` names (hidden names included). */
  function PngNames(fs: FileSystem, d: string): set<string>
  {
    set n | n in Entries(fs, d) && PathlibGlobMatch(n, ".png")
  }

  /** `files[:n]` with Python's slice rules for a negative `n`, applied only when `n` is truthy. */
  function SampleOf(files: seq<string>, sampleSize: Option<int>): (r: seq<string>)
    ensures |r| <= |files| && r == files[..|r|]
    ensures sampleSize.None? || sampleSize.value == 0 ==> r == files
    ensures sampleSize.Some? && sampleSize.value > 0 ==>
              |r| == if sampleSize.value < |files| then sampleSize.value else |files|
    ensures sampleSize.Some? && sampleSize.value < 0 ==>
              |r| == if |files| + sampleSize.value > 0 then |files| + sampleSize.value else 0
  {
    match sampleSize
    case None => files
    case Some(n) =>
      if n == 0 then files
      else if n > 0 then files[..if n < |files| then n else |files|]
      else files[..if |files| + n > 0 then |files| + n else 0]
  }

  /**
   * The files to compare: the common `.png` names of the two directories in
   * sorted order, cut to the sample size when one is given and non-zero.
   */
  method CommonFiles(fs: FileSystem, refDir: string, genDir: string, sampleSize: Option<int>) returns (files: seq<string>)
    ensures files == SampleOf(SortedSeq(PngNames(fs, refDir) * PngNames(fs, genDir)), sampleSize)
    ensures StrictlySorted(files)
    ensures forall f :: f in files ==> f in PngNames(fs, refDir) && f in PngNames(fs, genDir)
    ensures sampleSize.None? || sampleSize.value == 0 ==>
              forall f :: f in PngNames(fs, refDir) && f in PngNames(fs, genDir) ==> f in files
  {
    var common := SortedNames(PngNames(fs, refDir) * PngNames(fs, genDir));
    files := SampleOf(common, sampleSize);
    assert forall f :: f in files ==> f in common;
  }

  /** The metrics of one compared file, with its name. */
  datatype FileMetrics = FileMetrics(filename: string, metrics: Metrics)

  /** Which `calculate_metrics` the comparison loop calls: the code as written or the corrected one. */
  datatype Variant = AsWritten | Corrected

  /** The decoder, the library functions, the files whose comparison figure fails to render, and the metrics variant. */
  datatype DepthEnv = DepthEnv(
    decode: string -> Option<Decoded>,
    toGray: Decoded -> seq<real>,
    stats: ImageStats,
    figureFails: set<string>,
    variant: Variant)

  /** The metrics of one image pair under the chosen variant. */
  function MetricsFor(v: Variant, d1: DepthMap, d2: DepthMap, st: ImageStats): Option<Metrics>
  {
    if v == AsWritten then CalculateMetricsAsWritten(d1, d2, st) else CalculateMetrics(d1, d2, st)
  }

  /** What happens to one file: it fails before its metrics exist, or its metrics are kept (and its figure may still fail). */
  datatype FileOutcome = Failed | Compared(m: FileMetrics, figureOk: bool)

  /** One iteration of the comparison loop. */
  function OutcomeOf(refDir: string, genDir: string, f: string, env: DepthEnv): FileOutcome
  {
    var ref := LoadDepthImage(env.decode(PathJoin(refDir, f)), true, env.toGray);
    var gen := LoadDepthImage(env.decode(PathJoin(genDir, f)), false, env.toGray);
    if ref.Err? || gen.Err? then Failed
    else
      match MetricsFor(env.variant, ref.value.normalized, gen.value.normalized, env.stats)
      case None => Failed
      case Some(m) => Compared(FileMetrics(f, m), f !in env.figureFails)
  }

  /** `all_metrics` after the given files. */
  function MetricList(refDir: string, genDir: string, files: seq<string>, env: DepthEnv): seq<FileMetrics>
  {
    if |files| == 0 then []
    else
      var n := |files| - 1;
      var o := OutcomeOf(refDir, genDir, files[n], env);
      MetricList(refDir, genDir, files[..n], env) + (if o.Compared? then [o.m] else [])
  }

  /** `failed_files` after the given files. */
  function FailedList(refDir: string, genDir: string, files: seq<string>, env: DepthEnv): seq<string>
  {
    if |files| == 0 then []
    else
      var n := |files| - 1;
      var o := OutcomeOf(refDir, genDir, files[n], env);
      FailedList(refDir, genDir, files[..n], env) + (if o.Failed? || !o.figureOk then [files[n]] else [])
  }

  /** The files whose metrics were kept but whose figure then failed: they are listed twice. */
  function Twice(refDir: string, genDir: string, files: seq<string>, env: DepthEnv): seq<string>
  {
    if |files| == 0 then []
    else
      var n := |files| - 1;
      var o := OutcomeOf(refDir, genDir, files[n], env);
      Twice(refDir, genDir, files[..n], env) + (if o.Compared? && !o.figureOk then [files[n]] else [])
  }

  /**
   * Only the files whose figure failed after their metrics were kept are in
   * both lists; every other file is in exactly one, so the two counts add up
   * to the number of files plus those.
   */
  lemma {:induction false} PartitionCounts(refDir: string, genDir: string, files: seq<string>, env: DepthEnv)
    ensures |MetricList(refDir, genDir, files, env)| + |FailedList(refDir, genDir, files, env)| ==
            |files| + |Twice(refDir, genDir, files, env)|
  {
    if |files| > 0 {
      PartitionCounts(refDir, genDir, files[..|files| - 1], env);
    }
  }

  /** Both lists name only files that were compared. */
  lemma {:induction false} PartitionSound(refDir: string, genDir: string, files: seq<string>, env: DepthEnv)
    ensures forall k :: 0 <= k < |MetricList(refDir, genDir, files, env)| ==>
              MetricList(refDir, genDir, files, env)[k].filename in files
    ensures forall f :: f in FailedList(refDir, genDir, files, env) ==> f in files
  {
    if |files| > 0 {
      var n := |files| - 1;
      PartitionSound(refDir, genDir, files[..n], env);
      assert files == files[..n] + [files[n]];
    }
  }

  /** Some entry of the metrics is for file `f`. */
  predicate HasMetric(ms: seq<FileMetrics>, f: string)
  {
    exists k :: 0 <= k < |ms| && ms[k].filename == f
  }

  /** No file is lost: each one is in the failures or has its metrics. */
  lemma {:induction false} PartitionComplete(refDir: string, genDir: string, files: seq<string>, env: DepthEnv)
    ensures forall f :: f in files ==>
              f in FailedList(refDir, genDir, files, env) || HasMetric(MetricList(refDir, genDir, files, env), f)
  {
    if |files| > 0 {
      var n := |files| - 1;
      var init := files[..n];
      PartitionComplete(refDir, genDir, init, env);
      assert files == init + [files[n]];
      var ms := MetricList(refDir, genDir, files, env);
      var pm := MetricList(refDir, genDir, init, env);
      assert ms[..|pm|] == pm;
      forall f | f in files
        ensures f in FailedList(refDir, genDir, files, env) || HasMetric(ms, f)
      {
        if f in init {
          if f !in FailedList(refDir, genDir, init, env) {
            var k :| 0 <= k < |pm| && pm[k].filename == f;
            assert ms[k] == pm[k];
          }
        } else {
          var o := OutcomeOf(refDir, genDir, files[n], env);
          if o.Compared? {
            assert ms[|pm|] == o.m;
          }
        }
      }
    }
  }

  /**
   * A file whose images load and have metrics, but whose SSIM raised or was
   * NaN: as written it is reported only as failed; corrected, its metrics are
   * kept, and it is failed only when its figure fails.
   */
  lemma AsWrittenDropsSsimFailure(refDir: string, genDir: string, f: string, env: DepthEnv)
    requires var ref := LoadDepthImage(env.decode(PathJoin(refDir, f)), true, env.toGray);
             var gen := LoadDepthImage(env.decode(PathJoin(genDir, f)), false, env.toGray);
             ref.Ok? && gen.Ok? &&
             var m := CalculateMetrics(ref.value.normalized, gen.value.normalized, env.stats);
             m.Some? && m.value.ssim.None?
    ensures MetricList(refDir, genDir, [f], env.(variant := AsWritten)) == []
    ensures FailedList(refDir, genDir, [f], env.(variant := AsWritten)) == [f]
    ensures |MetricList(refDir, genDir, [f], env.(variant := Corrected))| == 1
    ensures f in FailedList(refDir, genDir, [f], env.(variant := Corrected)) <==> f in env.figureFails
  {
    assert [f][..0] == [];
  }

  /** `aggregate`, present only when some file was compared. */
  datatype Aggregate = Aggregate(
    totalImages: nat, failedImages: nat,
    meanMse: Float, meanMae: Float, meanRmse: Float,
    meanSsim: Float, meanPsnr: Float, meanCorrelation: Float)

  /** The present entries of a column, in order: `[m[key] for m in all_metrics if m[key] is not None]`. */
  function Present(s: seq<Option<Float>>): (r: seq<Float>)
    ensures |r| <= |s|
  {
    if |s| == 0 then []
    else Present(s[..|s| - 1]) + (if s[|s| - 1].Some? then [s[|s| - 1].value] else [])
  }

  function MseColumn(ms: seq<FileMetrics>): seq<Float>
  {
    seq(|ms|, k requires 0 <= k < |ms| => ms[k].metrics.mse)
  }

  function MaeColumn(ms: seq<FileMetrics>): seq<Float>
  {
    seq(|ms|, k requires 0 <= k < |ms| => ms[k].metrics.mae)
  }

  function RmseColumn(ms: seq<FileMetrics>): seq<Float>
  {
    seq(|ms|, k requires 0 <= k < |ms| => ms[k].metrics.rmse)
  }

  function SsimColumn(ms: seq<FileMetrics>): seq<Option<Float>>
  {
    seq(|ms|, k requires 0 <= k < |ms| => ms[k].metrics.ssim)
  }

  function PsnrColumn(ms: seq<FileMetrics>): seq<Option<Float>>
  {
    seq(|ms|, k requires 0 <= k < |ms| => ms[k].metrics.psnr)
  }

  function CorrelationColumn(ms: seq<FileMetrics>): seq<Option<Float>>
  {
    seq(|ms|, k requires 0 <= k < |ms| => ms[k].metrics.correlation)
  }

  /** The outcome of `compare_directories`. */
  datatype DirReport = DirReport(files: seq<string>, allMetrics: seq<FileMetrics>, failedFiles: seq<string>, aggregate: Option<Aggregate>)

  /** The comparison loop over the selected files, calling the metrics of `env.variant`. */
  method CompareFiles(refDir: string, genDir: string, files: seq<string>, env: DepthEnv)
    returns (allMetrics: seq<FileMetrics>, failedFiles: seq<string>)
    ensures allMetrics == MetricList(refDir, genDir, files, env)
    ensures failedFiles == FailedList(refDir, genDir, files, env)
  {
    allMetrics, failedFiles := [], [];
    for i := 0 to |files|
      invariant allMetrics == MetricList(refDir, genDir, files[..i], env)
      invariant failedFiles == FailedList(refDir, genDir, files[..i], env)
    {
      var filename := files[i];
      assert files[..i + 1][..i] == files[..i];
      var ref := LoadDepthImage(env.decode(PathJoin(refDir, filename)), true, env.toGray);
      var gen := LoadDepthImage(env.decode(PathJoin(genDir, filename)), false, env.toGray);
      if ref.Err? || gen.Err? {
        failedFiles := failedFiles + [filename];
      } else {
        var metrics := MetricsFor(env.variant, ref.value.normalized, gen.value.normalized, env.stats);
        if metrics.None? {
          failedFiles := failedFiles + [filename];
        } else {
          allMetrics := allMetrics + [FileMetrics(filename, metrics.value)];
          if filename in env.figureFails {
            failedFiles := failedFiles + [filename];
          }
        }
      }
    }
    assert files[..|files|] == files;
  }

  /**
   * `compare_directories` (as written or corrected, by `env.variant`): the
   * common files are compared in order; the aggregate
   * exists exactly when some file was compared, counts the compared and the
   * failed entries, and averages each metric over the files where it is present,
   * ignoring NaN.
   */
  method CompareDirectories(fs: FileSystem, refDir: string, genDir: string, sampleSize: Option<int>, env: DepthEnv)
    returns (report: DirReport)
    ensures report.files == SampleOf(SortedSeq(PngNames(fs, refDir) * PngNames(fs, genDir)), sampleSize)
    ensures report.allMetrics == MetricList(refDir, genDir, report.files, env)
    ensures report.failedFiles == FailedList(refDir, genDir, report.files, env)
    ensures report.aggregate.Some? <==> |report.allMetrics| > 0
    ensures report.aggregate.Some? ==>
              var a := report.aggregate.value;
              var ms := report.allMetrics;
              a.totalImages == |ms| && a.failedImages == |report.failedFiles| &&
              a.meanMse == NanMean(MseColumn(ms)) && a.meanMae == NanMean(MaeColumn(ms)) &&
              a.meanRmse == NanMean(RmseColumn(ms)) && a.meanSsim == NanMean(Present(SsimColumn(ms))) &&
              a.meanPsnr == NanMean(Present(PsnrColumn(ms))) &&
              a.meanCorrelation == NanMean(Present(CorrelationColumn(ms)))
  {
    var files := CommonFiles(fs, refDir, genDir, sampleSize);
    var allMetrics, failedFiles := CompareFiles(refDir, genDir, files, env);
    var aggregate := None;
    if |allMetrics| > 0 {
      aggregate := Some(Aggregate(
        |allMetrics|, |failedFiles|,
        NanMean(MseColumn(allMetrics)), NanMean(MaeColumn(allMetrics)), NanMean(RmseColumn(allMetrics)),
        NanMean(Present(SsimColumn(allMetrics))), NanMean(Present(PsnrColumn(allMetrics))),
        NanMean(Present(CorrelationColumn(allMetrics)))));
    }
    report := DirReport(files, allMetrics, failedFiles, aggregate);
  }
}
