# FoundationPose tracking tools: a Dafny model

This project models the pose-tracking driver of a FoundationPose-based tracker
and the three helper tools built around it:

- `run.py`. It chooses the input scene, the output directory and the object
  mesh. It then drives the estimator frame by frame: frame 0 registers the
  object with its mask, and every later frame calls `track_one`, with a mask
  when masks are enabled and the mask loads, and without one otherwise. Each
  frame's 4x4 pose is written to `ob_in_cam/<id>.txt`.
- `utils/blender_script_generator.py`. It reads the saved `ob_in_cam` poses,
  parses frame numbers out of their file names and sorts them by frame. It
  filters out unreliable poses by camera distance, guesses the object name,
  sizes the scene and formats the pose data block of a Blender script.
- `experiments/compare_mask_tracking.py`. It runs the same tracking sequence
  with and without masks and scores each run. The scores are pose errors
  against ground truth (translation, rotation angle, ADD) and stability
  (variance and mean frame-to-frame change). It then compares the two runs.
- `utils/compare_depth_images.py`. It loads reference and generated depth
  images, normalises them and computes per-pixel error metrics over the
  pixels that are valid in both. It walks the PNG files the two directories
  have in common and aggregates the metrics with NaN-skipping means.

Modules:

- `Wrappers` holds `Option` and `Result`.
- `Numeric` holds NaN-able floats, sums, means and variances.
- `Strings` holds integer parsing and printing, split and join, and
  lexicographic order with sorted listings.
- `Paths` holds a file-system value and the `os.path`/`pathlib` operations
  the tools use.
- `Geometry` holds 4x4 poses, translation, the rotation-angle argument, and
  an oracle for `sqrt`, `arccos` and Euler angles.
- `Tracking` holds the shared per-frame call protocol and the estimator, a
  class whose fields each call updates.
- `RunScript`, `BlenderScript`, `MaskTracking` and `DepthCompare` hold one
  tool each.

Loops in the source are methods with loop invariants, proved against a
specification function. For example, `FormatPoseData` is proved against
`PoseDataLines`, and `CompareFiles` against `MetricList` and `FailedList`.
The lemmas state the properties of those functions.

## Model

| member | source | states |
|---|---|---|
| Tracking.FrameCall | run.py:214-238 | Frame 0 makes a register call exactly when its mask loads. A later frame tracks with a mask exactly when masks are on and the mask loads. It tracks without a mask exactly when masks are off or the mask is missing. Any other mask failure makes no call. Every call names its own frame. |
| Tracking.ProtocolCalls | run.py:210-238 | The k-th call of the protocol is the call frame k makes. The protocol stops at the first frame that makes no call. |
| Tracking.ProtocolCompletes | run.py:210-238 | The loop runs every frame exactly when every frame makes its call. |
| Tracking.ProtocolShape | run.py:210-238 | Call k processes frame k, and only call 0 is a registration. |
| Tracking.ProtocolNeedsFirstMask | run.py:214-216 | If the first frame's mask does not load, the estimator is never called. |
| Tracking.ProtocolStops | run.py:210-238 | Once a frame raises, no later frame adds a call. |
| Tracking.Estimator.constructor | run.py:205 | A new estimator has no calls, no returned poses and no last pose. |
| Tracking.Estimator.Register | run.py:216 | Registration answers from the previous last pose and records the call and the pose. The new pose becomes the last pose. |
| Tracking.Estimator.TrackOne | run.py:226-238 | Tracking with or without a mask answers from the last pose and records the call and the pose. The new pose becomes the last pose. |
| Tracking.Estimator.ResetPoseLast | experiments/compare_mask_tracking.py:131 | Forgets the last pose and leaves the call history untouched. |
| Tracking.ProcessNext | run.py:214-238 | One loop iteration either adds exactly the protocol's next call and its answer, or ends the protocol and changes nothing. |
| RunScript.SingleObj | run.py:62-67 | A mesh directory yields a file exactly when it is a directory holding exactly one `.obj` file, and that file is the one yielded. |
| RunScript.OnlyObjFile | run.py:62-67 | Listing the mesh directory computes `SingleObj`. |
| RunScript.FindMeshFile | run.py:17-132 | Returns the mesh the search order selects. The locations it probes are a prefix of the four candidate locations. |
| RunScript.SearchScene | run.py:38-132 | Searches the scene's candidates in order and falls back to the bundled default mesh. |
| RunScript.ExplicitMeshWins | run.py:34-36 | An explicitly given mesh file that exists is chosen before any search. It is chosen in no other case. |
| RunScript.MeshSearchOrder | run.py:44-132 | Priority order: scene `mesh/textured_simple.obj`, then the parent's one, then the scene mesh directory's only `.obj`, then the parent's only `.obj`, then the default. |
| RunScript.AmbiguousMeshDirFallsThrough | run.py:68-80 | A scene mesh directory with several `.obj` files is skipped in favour of the parent or the default. |
| RunScript.MeshSearchExistsOrDefault | run.py:17-132 | The chosen mesh is a file that exists or is the default path. |
| RunScript.InputDir | run.py:155-163 | `--inputs` wins over `--test_scene_dir`, which wins over the demo scene. |
| RunScript.OutputDir | run.py:167-182 | `--outputs` wins. Without inputs, `--debug_dir` and then `<code_dir>/debug` are used. |
| RunScript.OutputBesideInputs | run.py:171-177 | With inputs and no outputs, the output directory is `outputs/<timestamp>` next to the absolute inputs directory. |
| RunScript.TrackAndSave | run.py:210-241 | The estimator receives exactly the protocol's calls. One pose file is written per call, named by frame id, holding the pose the estimator returned. The run completes exactly when every frame made its call. |
| BlenderScript.FrameText | utils/blender_script_generator.py:40-48 | The frame text is the part of the basename after the last `_` once `.txt` is removed, or the whole name when there is no `_`. |
| BlenderScript.FrameNumberOfDigits | utils/blender_script_generator.py:40-51 | A pose file named `<digits>.txt` has the frame number those digits denote. |
| BlenderScript.FrameNumberOfPrefixed | utils/blender_script_generator.py:40-51 | A pose file named `<prefix>_<digits>.txt` has the frame number of its digit suffix. |
| BlenderScript.PresentMembers | utils/blender_script_generator.py:38-62 | The poses kept are exactly the readings that parsed and loaded. |
| BlenderScript.SortByFrameSorts | utils/blender_script_generator.py:68 | Sorting by frame yields frames in non-decreasing order and is a permutation. |
| BlenderScript.SortByFrameStable | utils/blender_script_generator.py:68 | Sorting is stable: poses with equal frame numbers keep their file order. |
| BlenderScript.ExtractPoseData | utils/blender_script_generator.py:23-73 | Fails as "not found" exactly when the directory is missing. Fails as "no pose files" exactly when no `*.txt` exists. Fails as "no valid poses" exactly when nothing parsed. Otherwise returns the parsed poses of the sorted files, sorted by frame. |
| BlenderScript.ReadPoses | utils/blender_script_generator.py:38-62 | Keeps, in file order, every file whose frame number parses and whose matrix loads. |
| BlenderScript.BoundsHoldMean | utils/blender_script_generator.py:146-152 | When the mean distance is at least 0.1 (the band's floor), the acceptance band contains it. |
| BlenderScript.KeptIncreasing | utils/blender_script_generator.py:157-172 | Kept indices are strictly increasing and below the count seen. |
| BlenderScript.KeptInRange | utils/blender_script_generator.py:157-172 | Every kept pose's distance lies in the band. |
| BlenderScript.KeptSmallJumps | utils/blender_script_generator.py:157-172 | Consecutive kept poses differ in distance by at most 10. |
| BlenderScript.KeptEmpty | utils/blender_script_generator.py:157-172 | Nothing is kept exactly when no distance lies in the band. |
| BlenderScript.ReliableKeepsOrder | utils/blender_script_generator.py:131-177 | Filtering a frame-sorted list leaves it frame-sorted. |
| BlenderScript.FilterReliablePoses | utils/blender_script_generator.py:131-177 | Fewer than 10 poses pass unfiltered. Otherwise the result is the poses at the reliable indices, and the call raises exactly when none is reliable. |
| BlenderScript.KeepReliable | utils/blender_script_generator.py:157-172 | The filtering loop keeps exactly the poses at the indices `Kept` selects. |
| BlenderScript.NameFromFile | utils/blender_script_generator.py:122-127 | A name taken from a pose file is longer than two characters, contains no `_`, and is the basename's prefix before its first `_`. |
| BlenderScript.AutoDetectObjectName | utils/blender_script_generator.py:111-129 | The last known object name among the path parts wins. Failing that, the name comes from some pose file. Otherwise it is `tracked_object`. |
| BlenderScript.AppendRowLines | utils/blender_script_generator.py:101-103 | Appends the four matrix row lines in order. |
| BlenderScript.FormatPoseData | utils/blender_script_generator.py:93-109 | The text is the newline join of the pose-data lines. |
| BlenderScript.PoseDataLayout | utils/blender_script_generator.py:96-107 | The pose data has a two-line header, then six lines per pose in order (frame line, four rows, closer), then the closing `]` and a final empty line. |
| BlenderScript.PoseDataEnds | utils/blender_script_generator.py:96-107 | The header opens the lines, and `]` plus an empty line close them. |
| BlenderScript.PoseDataLineAt | utils/blender_script_generator.py:98-104 | Line `2 + 6k + j` is line j of pose k's block. |
| BlenderScript.PoseDataTextLines | utils/blender_script_generator.py:93-109 | Splitting the generated text at newlines gives back exactly its lines. |
| BlenderScript.VisualSizes | utils/blender_script_generator.py:205-213 | The object size is at least 0.02, and the coordinate-frame size is at least twice it. |
| BlenderScript.VisualSizesMonotone | utils/blender_script_generator.py:205-213 | A larger maximum distance never gives a smaller object. |
| BlenderScript.SceneSizes | utils/blender_script_generator.py:179-220 | With no poses there are no sizes. Otherwise the sizes come from the largest camera distance. |
| Strings.ParseIntToString | utils/blender_script_generator.py:51 | `int()` reads back every integer's decimal text. |
| Strings.ParseDigits | utils/blender_script_generator.py:51 | `int()` of a digit string is its decimal value. |
| Strings.SortedSeq | utils/blender_script_generator.py:31 | A sorted listing is strictly increasing and has exactly the names of the set. |
| Strings.SortedNames | utils/compare_depth_images.py:238 | Sorting a listing computes `SortedSeq`. |
| Strings.SortedUnique | utils/compare_depth_images.py:238 | Two strictly sorted listings with the same names are equal. |
| Strings.LessTransitive | utils/compare_depth_images.py:238 | String order is transitive. |
| Strings.LessTotal | utils/compare_depth_images.py:238 | String order is total. |
| Strings.SplitJoin | utils/blender_script_generator.py:109 | Splitting a join of separator-free parts gives back the parts. |
| Paths.DirnameOfJoin | run.py:174-176 | `dirname` and `basename` of `join(a, b)` give back `a` and `b`. |
| Paths.PathParts | utils/blender_script_generator.py:115 | Path parts are non-empty and never `.`; an absolute path's first part is its root. |
| Paths.NormPath | run.py:39 | Normalisation keeps a path absolute or relative and never returns an empty path. |
| Paths.AbsPath | run.py:39 | Under an absolute working directory, `abspath` is absolute. |
| Numeric.NanMean | utils/compare_depth_images.py:292-297 | The NaN-skipping mean is NaN exactly when no value is finite. |
| Numeric.MeanFloat | experiments/compare_mask_tracking.py:232-238 | A plain mean is NaN exactly when the list is empty or holds a NaN. |
| Numeric.VarianceNonNegative | experiments/compare_mask_tracking.py:86 | Variance is never negative. |
| Numeric.VarianceOfConstant | experiments/compare_mask_tracking.py:86 | A constant list has variance 0. |
| Numeric.MaxOf | utils/compare_depth_images.py:45 | The maximum is an element and bounds every element. |
| Geometry.ClampTrace | experiments/compare_mask_tracking.py:58-60 | The trace is clamped to [-1, 3] and unchanged inside it. |
| Geometry.ArccosArgument | experiments/compare_mask_tracking.py:58-60 | The `arccos` argument is always in [-1, 1]. |
| Geometry.RotationAngleSymmetric | experiments/compare_mask_tracking.py:52-60 | The rotation angle between two poses does not depend on their order. |
| Geometry.NormOfDifferenceSymmetric | experiments/compare_mask_tracking.py:48-49 | The translation distance does not depend on the order. |
| Geometry.MeanAxisVariance | experiments/compare_mask_tracking.py:86 | The mean per-axis variance is never negative. |
| Geometry.MeanAxisVarianceOfConstant | experiments/compare_mask_tracking.py:86 | A constant sequence of translations has mean per-axis variance 0. |
| MaskTracking.ComputePoseErrors | experiments/compare_mask_tracking.py:35-67 | Errors exist exactly when ground truth exists. The translation error is the distance between translations. The rotation error is the `arccos` of an argument in [-1, 1]. ADD is NaN exactly when there are no model points. |
| MaskTracking.PoseErrorsSymmetric | experiments/compare_mask_tracking.py:35-67 | Swapping prediction and ground truth leaves all three errors unchanged. |
| MaskTracking.ExactPredictionErrors | experiments/compare_mask_tracking.py:52-65 | A prediction equal to the ground truth has translation error and ADD `sqrt(0)`. |
| MaskTracking.StabilityOf | experiments/compare_mask_tracking.py:70-107 | Stability exists exactly for two or more poses. Its variances are non-negative. There is one step per consecutive pair. |
| MaskTracking.StillSequenceStability | experiments/compare_mask_tracking.py:85-105 | A motionless sequence has zero variances and zero frame-to-frame translation. |
| MaskTracking.FrameToFrameChanges | experiments/compare_mask_tracking.py:92-102 | Step k is the translation distance and rotation angle between poses k and k+1. |
| MaskTracking.ComputeTrackingStability | experiments/compare_mask_tracking.py:70-107 | The loop computes `StabilityOf`. |
| MaskTracking.ErrorRecordsAppend | experiments/compare_mask_tracking.py:156-168 | Each new pose adds an error record exactly when its frame has ground truth. |
| MaskTracking.ErrorRecordsSound | experiments/compare_mask_tracking.py:156-168 | Every error record belongs to a tracked frame with ground truth and holds that frame's errors. |
| MaskTracking.ErrorRecordsIncreasing | experiments/compare_mask_tracking.py:156-168 | Error records are in strictly increasing frame order. |
| MaskTracking.ErrorRecordsComplete | experiments/compare_mask_tracking.py:156-168 | Every tracked frame with ground truth has a record. |
| MaskTracking.ChainedExtend | experiments/compare_mask_tracking.py:138-154 | Appending the estimator's answer to the next call keeps each pose chained to its predecessor. |
| MaskTracking.RunTrackingSequence | experiments/compare_mask_tracking.py:110-170 | The estimator gets exactly the protocol's calls. The run succeeds exactly when every frame made its call. It then returns one pose per frame, each the estimator's answer from the previous pose, with exactly the error records of the frames that have ground truth. |
| MaskTracking.Improvement | experiments/compare_mask_tracking.py:210-228 | An improvement exists exactly when both figures are non-zero, and it is their difference. |
| MaskTracking.CompareTrackingResults | experiments/compare_mask_tracking.py:173-250 | The report's frame count, per-run stability, stability comparison (present exactly when both runs have two or more poses) and error comparison are computed. The error comparison is present exactly when both runs have records, and holds the mean errors and their differences. |
| DepthCompare.LoadDepthImage | utils/compare_depth_images.py:25-59 | An unreadable file gives `None`. An empty image raises. Otherwise the raw values are kept, and the normalised ones are divided by the maximum (reference) or by 255 (generated) when that is positive. |
| DepthCompare.ReferenceNormalizedInUnitRange | utils/compare_depth_images.py:41-46 | A normalised reference image with non-negative depths lies in [0, 1]. |
| DepthCompare.GeneratedNormalizedInUnitRange | utils/compare_depth_images.py:47-59 | A normalised generated image with 8-bit gray values lies in [0, 1]. |
| DepthCompare.ValidPairs | utils/compare_depth_images.py:82-85 | Valid pairs are positive in both images and no more than the pixels. |
| DepthCompare.ValidPairsEmpty | utils/compare_depth_images.py:83-87 | No pair is valid exactly when no pixel is valid in both images. |
| DepthCompare.ErrorsNonNegative | utils/compare_depth_images.py:99-103 | MSE and MAE are never negative. |
| DepthCompare.SumZeroIffAllZero | utils/compare_depth_images.py:102-103 | A sum of non-negative errors is 0 exactly when every error is 0. |
| DepthCompare.MaeZeroIffAgree | utils/compare_depth_images.py:102-103 | MAE is 0 exactly when the two images agree on every valid pixel. |
| DepthCompare.UnlessNaN | utils/compare_depth_images.py:135-137 | A NaN metric becomes `None`; any other is kept. |
| DepthCompare.CalculateMetrics | utils/compare_depth_images.py:62-140 | Corrected version (see Findings): an SSIM that raised or was NaN is reported as `None`. The metrics fail only when the resized image cannot be paired pixel by pixel. With no valid pixel, every metric is NaN. Otherwise MSE and MAE are the non-negative means over valid pixels, RMSE is the square root of MSE. SSIM and PSNR are kept exactly when the library returned a finite value, and are `None` when it raised or gave NaN. Correlation is `None` for a single valid pixel, finite when present, and over two or more pixels it is the library's correlation coefficient when finite and `None` when that is NaN. |
| DepthCompare.CalculateMetricsAsWritten | utils/compare_depth_images.py:117-135 | The code as written, defined on its own: when SSIM raised or was NaN and valid pixels exist, the call raises. Its result exists exactly when the corrected metrics exist with an SSIM value, and then agrees with them. |
| DepthCompare.SsimFailureRaises | utils/compare_depth_images.py:109-135 | A one-pixel image whose SSIM fails has metrics after the correction, but none as written. |
| DepthCompare.AsWrittenDropsSsimFailure | utils/compare_depth_images.py:253-285 | A file that loads and has metrics, but whose SSIM failed, is reported only in `failed_files` by the loop as written. The corrected loop keeps its metrics and lists it as failed exactly when its figure fails. |
| DepthCompare.SampleOf | utils/compare_depth_images.py:240-241 | `files[:n]` with Python slice semantics: all files for no or zero sample size, the first n for a positive size, and all but the last n for a negative size. |
| DepthCompare.CommonFiles | utils/compare_depth_images.py:236-241 | The compared files are the sorted sample of the PNG names both directories contain. Without sampling, every common name is included. |
| DepthCompare.PartitionCounts | utils/compare_depth_images.py:253-285 | For the loop as written and the corrected one alike: metrics plus failures number the files plus those whose figure failed after their metrics were stored. |
| DepthCompare.PartitionSound | utils/compare_depth_images.py:253-285 | For the loop as written and the corrected one alike: every metric and every failure names a compared file. |
| DepthCompare.PartitionComplete | utils/compare_depth_images.py:253-285 | For the loop as written and the corrected one alike: every compared file has metrics or is listed as failed. |
| DepthCompare.CompareFiles | utils/compare_depth_images.py:253-285 | The loop produces exactly the metric list and the failure list of the files. It calls the metrics as written or the corrected ones, as `env.variant` says. |
| DepthCompare.CompareDirectories | utils/compare_depth_images.py:219-298 | For either metrics variant, as written or corrected, the report covers the sampled common files. An aggregate exists exactly when some file has metrics. It counts images and failures and holds the NaN-skipping mean of each metric over the files that report it. |

## Left out

- Logging, printing and progress messages in all four tools. The JSON files they write, the summary printout of `compare_directories`, and all matplotlib figures are not modelled. `create_comparison_visualization` is modelled only by whether it raises, as the set `figureFails`. `create_summary_visualization` is not modelled.
- Command-line parsing and the `main` functions of the two helper tools. In `run.py`, the argument values are the model's parameters.
- Directory removal and creation (`rmtree`, `makedirs`). They do not affect which files are written.
- The debug visualisation branches of `run.py` (`debug >= 1`, `>= 3`), the mesh export and the point cloud export.
- The estimator's internals (scorer, refiner, rendering, refine iterations). The estimator is an opaque function from the previous pose and the call to the new pose.
- The Blender script template text and `load_camera_intrinsics` in `utils/blender_script_generator.py`. The template is a fixed string with values substituted into it.
- Image decoding, resizing and colour conversion (`cv2`), and the SSIM, PSNR and correlation routines. They are function values in `ImageStats`, and their results are taken as given.
- `sqrt`, `arccos`, Euler-angle conversion and `np.linalg.norm` beyond sums of squares. They are the oracle `Numerics`, and reals are exact: no float32/float64 rounding and no infinities.
- Number formatting (`:.6f`). It is the parameter `fmt`.
- Directory listing order. Listings are sets. `glob.glob(...)[0]` in `auto_detect_object_name` picks any entry, because the operating system's order is unspecified.
- The clock, the working directory and the code directory. They are parameters.
- numpy broadcasting of length-1 arrays against longer ones in `calculate_metrics`. Two flattened images of different lengths are treated as an error.
- The exception raised when frame 0's mask fails to load. The model only says that the estimator is never called.
- Tracking.FrameCall: exceptions raised by the estimator or the reader are not modelled. The estimator always answers, and `get_color` and `get_depth` never raise. Two things follow. First, a `FileNotFoundError` or `AttributeError` raised by the masked `track_one` itself is caught by the same `except` as a missing mask (run.py:229-235, experiments/compare_mask_tracking.py:145-150). The source then calls `track_one` a second time on that frame, without a mask, and the model never makes that second call. Second, any other estimator or reader exception ends the run in the source. The model's claims that call k processes frame k and that the run completes exactly when every frame makes its call hold for this total estimator only.
- Tracking.ProcessNext: the same restriction as Tracking.FrameCall above.
- RunScript.TrackAndSave: the same restriction as Tracking.FrameCall above.
- MaskTracking.RunTrackingSequence: the same restriction as Tracking.FrameCall above.
- BlenderScript.FilterReliablePoses: pose entries are exact reals. A pose file holding `nan` (which `np.loadtxt` accepts) is not modelled. With such a file the source's mean and std are NaN and the floor is 0.1. A NaN distance then passes both the band test and the jump test, and so does every later pose. The in-band and small-jump properties are therefore promised for NaN-free poses only.
- BlenderScript.KeepReliable: the same restriction as BlenderScript.FilterReliablePoses above.
- BlenderScript.KeptInRange: the same restriction as BlenderScript.FilterReliablePoses above.
- BlenderScript.KeptSmallJumps: the same restriction as BlenderScript.FilterReliablePoses above.
- BlenderScript.KeptEmpty: the same restriction as BlenderScript.FilterReliablePoses above.
- BlenderScript.BoundsHoldMean: the same restriction as BlenderScript.FilterReliablePoses above.
- MaskTracking.Improvement: stability figures are reals, never NaN. In the source a NaN figure is truthy, so its improvement would be NaN rather than `None`.
- MaskTracking.CompareTrackingResults: the same restriction as MaskTracking.Improvement above.
- BlenderScript.ExtractPoseData: `pose_dir` is assumed free of glob metacharacters (`*`, `?`, `[`). The source passes `os.path.join(pose_dir, "*.txt")` to `glob.glob`, so such characters in `pose_dir` are read as a pattern and can make the listing miss files that exist (lines 31 and 121). The model lists the directory literally. The output directories `run.py` creates never contain these characters.
- BlenderScript.AutoDetectObjectName: the same restriction as BlenderScript.ExtractPoseData above, for the `glob.glob` at line 121.
- DepthCompare.CalculateMetrics: a PSNR of infinity is not represented. For identical valid pixels the PSNR library returns `inf`, which the source reports and averages (lines 123-126, 137 and the aggregate at 288-298). `Float` has only finite values and NaN, so the `psnr` oracle is taken to return a finite value or NaN.
- Strings.ParseInt: ASCII only, and no underscores between digits. Python's `int()` also strips Unicode whitespace, reads Unicode decimal digits and accepts `1_000`. The frame-number parse therefore rejects some file names the source accepts.
- MaskTracking.ExactPredictionErrors: states that the errors are `sqrt(0)` rather than 0, because `sqrt` is an oracle here.
- MaskTracking.CompareTrackingResults: the stability improvements are computed from real figures only. The source also tests for `None` figures, which cannot occur once both runs have two or more poses.
- The square-mean inequality (MAE squared at most MSE) is not stated. Only non-negativity and the zero cases are.

## Findings

| source | as written | input that shows it | evidently intended | confidence | as-written member | corrected member |
|---|---|---|---|---|---|---|
| utils/compare_depth_images.py:117-120, 135 | When `ssim` raises or returns NaN, `ssim_value` is `None`, and `np.isnan(None)` at line 135 raises `TypeError`. The file then lands in `failed_files` instead of being reported with `ssim: None`. | A 1x1 reference and generated image with one valid pixel of value 0.5. The 7x7 SSIM window does not fit, so `ssim` raises. | Report the file's metrics with `ssim` set to `None`, which is what setting `ssim_value = None` on failure at lines 117-120 prepares for. | not executed | DepthCompare.CalculateMetricsAsWritten, DepthCompare.SsimFailureRaises, DepthCompare.AsWrittenDropsSsimFailure | DepthCompare.CalculateMetrics |
