/**
 * The data side of the Blender-script generator: reading the pose files of an
 * `ob_in_cam` directory, dropping unreliable poses, guessing the tracked
 * object's name, writing the poses out as Python source, and choosing the
 * visualisation sizes from the distances of the poses.
 */
module BlenderScript {
  import opened Wrappers
  import opened Strings
  import opened Paths
  import opened Numeric
  import opened Geometry

  /** One pose read from a file: its frame number and its 4x4 matrix. */
  datatype PoseEntry = PoseEntry(frame: int, pose: Matrix4)

  /** Why `extract_pose_data` raises. */
  datatype ExtractError =
    | DirNotFound   // `FileNotFoundError`: the directory does not exist
    | NoPoseFiles   // `FileNotFoundError`: no `*.txt` file in it
    | NoValidPoses  // `ValueError`: no file yielded a pose

  /*
   * Frame numbers from file names
   */

  /**
   * The frame text of a file's base name: every `.txt` removed, then the text
   * after the last `_`, or the whole name when it has no `_`.
   */
  function FrameText(base: string): (r: string)
    ensures '_' !in r
    ensures var name := RemoveAll(base, ".txt");
            if '_' in name then exists k :: 0 <= k < |name| && name[k] == '_' && r == name[k + 1..]
            else r == name
  {
    var name := RemoveAll(base, ".txt");
    if '_' in name then AfterLast(name, '_') else name
  }

  /** The frame number of a pose file, or `None` when `int` rejects its frame text. */
  function FrameNumber(path: string): Option<int>
  {
    ParseInt(FrameText(Basename(path)))
  }

  lemma BasenameAfterSlash(x: string, y: string)
    requires '/' !in y
    ensures Basename(x + "/" + y) == y
  {
    LastSlashAppend(x + "/", y);
    assert LastSlash(x + "/") == |x|;
    assert (x + "/" + y)[|x| + 1..] == y;
  }

  lemma NoTxtBefore(x: string)
    requires '.' !in x
    ensures forall k :: 0 <= k < |x| ==> !OccursAt(x + ".txt", ".txt", k)
  {
    forall k | 0 <= k < |x|
      ensures !OccursAt(x + ".txt", ".txt", k)
    {
      assert x[k] in x;
      assert (x + ".txt")[k] != '.';
    }
  }

  /** Removing `.txt` from `x.txt` gives `x` back when `x` holds no dot. */
  lemma RemoveTxtSuffix(x: string)
    requires '.' !in x
    ensures RemoveAll(x + ".txt", ".txt") == x
  {
    NoTxtBefore(x);
    RemoveAllKeepsPrefix(x, ".txt", ".txt");
    assert ".txt"[4..] == "";
  }

  lemma {:induction false} AfterLastOfJoin(p: string, d: string)
    requires '_' !in d
    ensures AfterLast(p + "_" + d, '_') == d
    decreases |d|
  {
    var s := p + "_" + d;
    if |d| > 0 {
      var d' := d[..|d| - 1];
      assert s[..|s| - 1] == p + "_" + d';
      AfterLastOfJoin(p, d');
      assert d' + [d[|d| - 1]] == d;
    }
  }

  lemma DigitsArePlain(d: string)
    requires AllDigits(d)
    ensures '/' !in d && '.' !in d && '_' !in d
  {
    assert forall k :: 0 <= k < |d| ==> IsDigit(d[k]);
  }

  /** A pose file written as `<digits>.txt`, as the tracking driver names them, is read back as the frame those digits denote. */
  lemma FrameNumberOfDigits(dir: string, d: string)
    requires |d| > 0 && AllDigits(d)
    ensures FrameNumber(dir + "/" + d + ".txt") == Some(DigitsValue(d))
  {
    DigitsArePlain(d);
    assert dir + "/" + d + ".txt" == dir + "/" + (d + ".txt");
    assert Basename(dir + "/" + (d + ".txt")) == d + ".txt" by {
      BasenameAfterSlash(dir, d + ".txt");
    }
    assert FrameText(d + ".txt") == d by {
      RemoveTxtSuffix(d);
    }
    ParseDigits(d);
  }

  lemma Regroup<T>(a: seq<T>, b: seq<T>, c: seq<T>, d: seq<T>, e: seq<T>, f: seq<T>)
    ensures a + b + c + d + e + f == a + b + (c + d + e + f)
  {
  }

  lemma NotInAppend<T>(x: T, a: seq<T>, b: seq<T>)
    requires x !in a && x !in b
    ensures x !in a + b
  {
  }

  /** A name `<object>_<digits>.txt` is read as the frame its digits denote, whatever the object's name. */
  lemma FrameNumberOfPrefixed(dir: string, p: string, d: string)
    requires '/' !in p && '.' !in p
    requires |d| > 0 && AllDigits(d)
    ensures FrameNumber(dir + "/" + p + "_" + d + ".txt") == Some(DigitsValue(d))
  {
    DigitsArePlain(d);
    var x := p + "_" + d;
    Regroup(dir, "/", p, "_", d, ".txt");
    assert Basename(dir + "/" + (x + ".txt")) == x + ".txt" by {
      NotInAppend('/', p, "_");
      NotInAppend('/', p + "_", d);
      NotInAppend('/', x, ".txt");
      BasenameAfterSlash(dir, x + ".txt");
    }
    assert RemoveAll(x + ".txt", ".txt") == x by {
      NotInAppend('.', p, "_");
      NotInAppend('.', p + "_", d);
      RemoveTxtSuffix(x);
    }
    assert FrameText(x + ".txt") == d by {
      assert x[|p|] == '_';
      AfterLastOfJoin(p, d);
    }
    ParseDigits(d);
  }

  /*
   * Reading the pose files
   */

  /** The paths `glob(join(pose_dir, "*.txt"))` finds: every non-hidden `.txt` name the directory lists, joined onto it. */
  function PoseFileSet(fs: FileSystem, poseDir: string): set<string>
  {
    set n | n in Entries(fs, poseDir) && GlobMatch(n, ".txt") :: PathJoin(poseDir, n)
  }

  /** The pose a file yields: its frame number, when its frame text is an integer, with its matrix, when it loads. */
  function ReadPose(path: string, loads: map<string, Matrix4>): Option<PoseEntry>
  {
    match FrameNumber(path)
    case None => None
    case Some(f) => if path in loads then Some(PoseEntry(f, loads[path])) else None
  }

  /** What each file yields, in file order. */
  function Readings(paths: seq<string>, loads: map<string, Matrix4>): (r: seq<Option<PoseEntry>>)
    ensures |r| == |paths|
  {
    seq(|paths|, k requires 0 <= k < |paths| => ReadPose(paths[k], loads))
  }

  /** The poses among the first `n` readings, in order. */
  function Present(rs: seq<Option<PoseEntry>>, n: nat): (r: seq<PoseEntry>)
    requires n <= |rs|
    ensures |r| <= n
  {
    if n == 0 then []
    else Present(rs, n - 1) + (if rs[n - 1].Some? then [rs[n - 1].value] else [])
  }

  /**
   * A pose is kept exactly when some file yields it: a file that yields
   * nothing is skipped, and the files after it are still read.
   */
  lemma {:induction false} PresentMembers(rs: seq<Option<PoseEntry>>, n: nat)
    requires n <= |rs|
    ensures forall e :: e in Present(rs, n) <==> exists k :: 0 <= k < n && rs[k] == Some(e)
  {
    if n > 0 {
      PresentMembers(rs, n - 1);
      forall e ensures e in Present(rs, n) <==> exists k :: 0 <= k < n && rs[k] == Some(e) {
        if rs[n - 1] == Some(e) {
          assert e in Present(rs, n);
        }
      }
    }
  }

  predicate SortedByFrame(s: seq<PoseEntry>)
  {
    forall i, j :: 0 <= i < j < |s| ==> s[i].frame <= s[j].frame
  }

  /** Places `e` after every entry whose frame is not larger, scanning from the back, as a stable sort places the next element. */
  function InsertByFrame(s: seq<PoseEntry>, e: PoseEntry): seq<PoseEntry>
  {
    if |s| == 0 || s[|s| - 1].frame <= e.frame then s + [e]
    else InsertByFrame(s[..|s| - 1], e) + [s[|s| - 1]]
  }

  lemma {:induction false} InsertByFrameMultiset(s: seq<PoseEntry>, e: PoseEntry)
    ensures multiset(InsertByFrame(s, e)) == multiset(s) + multiset{e}
  {
    if |s| > 0 && s[|s| - 1].frame > e.frame {
      InsertByFrameMultiset(s[..|s| - 1], e);
      assert s == s[..|s| - 1] + [s[|s| - 1]];
    }
  }

  lemma {:induction false} InsertByFrameSorted(s: seq<PoseEntry>, e: PoseEntry)
    requires SortedByFrame(s)
    ensures SortedByFrame(InsertByFrame(s, e))
  {
    if |s| > 0 && s[|s| - 1].frame > e.frame {
      var last := s[|s| - 1];
      var init := s[..|s| - 1];
      var r := InsertByFrame(init, e);
      InsertByFrameSorted(init, e);
      InsertByFrameMultiset(init, e);
      forall i | 0 <= i < |r|
        ensures r[i].frame <= last.frame
      {
        assert r[i] in multiset(r);
        if r[i] != e {
          var j :| 0 <= j < |init| && init[j] == r[i];
          assert s[j] == init[j];
        }
      }
    }
  }

  /** `pose_data.sort(key=lambda x: x[0])`: a stable sort by frame number (insertion sort, by the stability of Python's sort). */
  function SortByFrame(s: seq<PoseEntry>): seq<PoseEntry>
  {
    if |s| == 0 then []
    else InsertByFrame(SortByFrame(s[..|s| - 1]), s[|s| - 1])
  }

  /** The result of the sort is ordered by frame and holds exactly the entries it was given. */
  lemma {:induction false} SortByFrameSorts(s: seq<PoseEntry>)
    ensures SortedByFrame(SortByFrame(s))
    ensures multiset(SortByFrame(s)) == multiset(s)
  {
    if |s| > 0 {
      var init := s[..|s| - 1];
      SortByFrameSorts(init);
      InsertByFrameSorted(SortByFrame(init), s[|s| - 1]);
      InsertByFrameMultiset(SortByFrame(init), s[|s| - 1]);
      assert s == init + [s[|s| - 1]];
    }
  }

  /** The entries of `s` with frame `f`, in order. */
  function WithFrame(s: seq<PoseEntry>, f: int): (r: seq<PoseEntry>)
  {
    if |s| == 0 then []
    else WithFrame(s[..|s| - 1], f) + (if s[|s| - 1].frame == f then [s[|s| - 1]] else [])
  }

  lemma {:induction false} WithFrameAppend(a: seq<PoseEntry>, b: seq<PoseEntry>, f: int)
    ensures WithFrame(a + b, f) == WithFrame(a, f) + WithFrame(b, f)
    decreases |b|
  {
    if |b| > 0 {
      var b' := b[..|b| - 1];
      assert (a + b)[..|a + b| - 1] == a + b';
      WithFrameAppend(a, b', f);
    } else {
      assert a + b == a;
    }
  }

  lemma WithFrameSingle(x: PoseEntry, f: int)
    ensures WithFrame([x], f) == if x.frame == f then [x] else []
  {
    assert [x][..0] == [];
  }

  lemma {:induction false} InsertByFrameStable(s: seq<PoseEntry>, e: PoseEntry, f: int)
    ensures WithFrame(InsertByFrame(s, e), f) == WithFrame(s, f) + WithFrame([e], f)
    decreases |s|
  {
    if |s| == 0 || s[|s| - 1].frame <= e.frame {
      WithFrameAppend(s, [e], f);
    } else {
      var last := s[|s| - 1];
      var init := s[..|s| - 1];
      var r := InsertByFrame(init, e);
      var a, we, wl := WithFrame(init, f), WithFrame([e], f), WithFrame([last], f);
      assert WithFrame(InsertByFrame(s, e), f) == WithFrame(r, f) + wl by {
        assert InsertByFrame(s, e) == r + [last];
        WithFrameAppend(r, [last], f);
      }
      assert WithFrame(s, f) == a + wl by {
        assert s == init + [last];
        WithFrameAppend(init, [last], f);
      }
      assert we == [] || wl == [] by {
        WithFrameSingle(last, f);
        WithFrameSingle(e, f);
      }
      InsertByFrameStable(init, e, f);
      assert (a + we) + wl == (a + wl) + we;
    }
  }

  /** The sort is stable: entries with equal frame numbers keep the order of the files they came from. */
  lemma {:induction false} SortByFrameStable(s: seq<PoseEntry>, f: int)
    ensures WithFrame(SortByFrame(s), f) == WithFrame(s, f)
  {
    if |s| > 0 {
      var init := s[..|s| - 1];
      SortByFrameStable(init, f);
      InsertByFrameStable(SortByFrame(init), s[|s| - 1], f);
    }
  }

  /**
   * `extract_pose_data`: list the `.txt` files of the directory in sorted
   * order, read a pose from each file whose frame text is an integer and whose
   * matrix loads (`loads` holds the matrix of every file that loads), and sort
   * the poses by frame.
   */
  method ExtractPoseData(fs: FileSystem, loads: map<string, Matrix4>, poseDir: string)
    returns (r: Result<seq<PoseEntry>, ExtractError>)
    ensures r == Err(DirNotFound) <==> !Exists(fs, poseDir)
    ensures r == Err(NoPoseFiles) <==> Exists(fs, poseDir) && PoseFileSet(fs, poseDir) == {}
    ensures var paths := SortedSeq(PoseFileSet(fs, poseDir));
            var poses := Present(Readings(paths, loads), |paths|);
            Exists(fs, poseDir) && |paths| > 0 ==>
              (r == Err(NoValidPoses) <==> |poses| == 0) &&
              (r.Ok? ==> r.value == SortByFrame(poses))
  {
    if !Exists(fs, poseDir) {
      return Err(DirNotFound);
    }
    var paths := SortedNames(PoseFileSet(fs, poseDir));
    if |paths| == 0 {
      return Err(NoPoseFiles);
    }
    var poseData := ReadPoses(paths, loads);
    if |poseData| == 0 {
      return Err(NoValidPoses);
    }
    r := Ok(SortByFrame(poseData));
  }

  /** The loop of `extract_pose_data` over the sorted files: a file whose frame text is not an integer, or whose matrix does not load, is skipped. */
  method ReadPoses(paths: seq<string>, loads: map<string, Matrix4>) returns (poseData: seq<PoseEntry>)
    ensures poseData == Present(Readings(paths, loads), |paths|)
  {
    ghost var readings := Readings(paths, loads);
    poseData := [];
    for i := 0 to |paths|
      invariant poseData == Present(readings, i)
    {
      var pose := ReadPose(paths[i], loads);
      if pose.Some? {
        poseData := poseData + [pose.value];
      }
    }
  }

  /*
   * Dropping unreliable poses
   */

  /** `np.linalg.norm(pose[:3, 3])` of every pose: its distance from the camera. */
  function Distances(poses: seq<PoseEntry>, num: Numerics): (r: seq<real>)
    ensures |r| == |poses|
  {
    seq(|poses|, i requires 0 <= i < |poses| => Norm(Translation(poses[i].pose), num))
  }

  /** The accepted distances, `lo` to `hi` inclusive. */
  datatype Range = Range(lo: real, hi: real)

  predicate InRange(d: real, b: Range)
  {
    b.lo <= d <= b.hi
  }

  /** `max(0.1, mean - 3 std)` to `mean + 3 std`, where `np.std` is the square root of the population variance. */
  function Bounds(ds: seq<real>, num: Numerics): Range
    requires |ds| > 0
  {
    var mean := Mean(ds);
    var std := num.sqrt(Variance(ds));
    Range(if mean - 3.0 * std > 0.1 then mean - 3.0 * std else 0.1, mean + 3.0 * std)
  }

  /** With a non-negative standard deviation, the accepted range holds the mean whenever the mean is at least 0.1. */
  lemma BoundsHoldMean(ds: seq<real>, num: Numerics)
    requires |ds| > 0 && num.sqrt(Variance(ds)) >= 0.0 && Mean(ds) >= 0.1
    ensures InRange(Mean(ds), Bounds(ds, num))
  {
  }

  /**
   * The indices the filter keeps among the first `n`: a distance outside the
   * range is dropped, and so is one more than 10.0 away from the last kept
   * distance (`prev_distance`, which only kept frames update).
   */
  function Kept(ds: seq<real>, b: Range, n: nat): (r: seq<nat>)
    requires n <= |ds|
    ensures forall k :: 0 <= k < |r| ==> r[k] < n
  {
    if n == 0 then []
    else
      var p := Kept(ds, b, n - 1);
      var d := ds[n - 1];
      if !InRange(d, b) then p
      else if |p| > 0 && Abs(d - ds[p[|p| - 1]]) > 10.0 then p
      else p + [n - 1]
  }

  /** The kept indices are strictly increasing, so the filter keeps an order-preserving subsequence. */
  lemma {:induction false} KeptIncreasing(ds: seq<real>, b: Range, n: nat)
    requires n <= |ds|
    ensures forall i, j :: 0 <= i < j < |Kept(ds, b, n)| ==> Kept(ds, b, n)[i] < Kept(ds, b, n)[j]
  {
    if n > 0 {
      KeptIncreasing(ds, b, n - 1);
      var p, r := Kept(ds, b, n - 1), Kept(ds, b, n);
      assert r == p || r == p + [n - 1];
    }
  }

  /** Every kept distance lies in the accepted range. */
  lemma {:induction false} KeptInRange(ds: seq<real>, b: Range, n: nat)
    requires n <= |ds|
    ensures forall k :: 0 <= k < |Kept(ds, b, n)| ==> InRange(ds[Kept(ds, b, n)[k]], b)
  {
    if n > 0 {
      KeptInRange(ds, b, n - 1);
      var p, r := Kept(ds, b, n - 1), Kept(ds, b, n);
      assert r == p || (r == p + [n - 1] && InRange(ds[n - 1], b));
    }
  }

  /** Consecutive kept distances differ by at most 10.0. */
  lemma {:induction false} KeptSmallJumps(ds: seq<real>, b: Range, n: nat)
    requires n <= |ds|
    ensures forall k :: 0 < k < |Kept(ds, b, n)| ==> Abs(ds[Kept(ds, b, n)[k]] - ds[Kept(ds, b, n)[k - 1]]) <= 10.0
  {
    if n > 0 {
      KeptSmallJumps(ds, b, n - 1);
      var p, r := Kept(ds, b, n - 1), Kept(ds, b, n);
      assert r == p || (r == p + [n - 1] && (|p| == 0 || Abs(ds[n - 1] - ds[p[|p| - 1]]) <= 10.0));
    }
  }

  /** Nothing is kept exactly when no distance is in range: the first one in range is always kept. */
  lemma {:induction false} KeptEmpty(ds: seq<real>, b: Range, n: nat)
    requires n <= |ds|
    ensures |Kept(ds, b, n)| == 0 <==> forall i :: 0 <= i < n ==> !InRange(ds[i], b)
  {
    if n > 0 {
      KeptEmpty(ds, b, n - 1);
    }
  }

  /** The entries at the given indices, in the order given. */
  function Select(poses: seq<PoseEntry>, idx: seq<nat>): seq<PoseEntry>
    requires forall k :: 0 <= k < |idx| ==> idx[k] < |poses|
  {
    seq(|idx|, k requires 0 <= k < |idx| => poses[idx[k]])
  }

  lemma SelectAppend(poses: seq<PoseEntry>, idx: seq<nat>, i: nat)
    requires forall k :: 0 <= k < |idx| ==> idx[k] < |poses|
    requires i < |poses|
    ensures Select(poses, idx + [i]) == Select(poses, idx) + [poses[i]]
  {
  }

  /** Picking entries at increasing indices keeps them ordered by frame. */
  lemma SelectKeepsOrder(poses: seq<PoseEntry>, idx: seq<nat>)
    requires forall k :: 0 <= k < |idx| ==> idx[k] < |poses|
    requires forall i, j :: 0 <= i < j < |idx| ==> idx[i] < idx[j]
    requires SortedByFrame(poses)
    ensures SortedByFrame(Select(poses, idx))
  {
  }

  /** The indices of the poses the filter keeps, with the range taken from all the distances. */
  function ReliableIndices(poses: seq<PoseEntry>, num: Numerics): (r: seq<nat>)
    requires |poses| > 0
    ensures forall k :: 0 <= k < |r| ==> r[k] < |poses|
  {
    var ds := Distances(poses, num);
    Kept(ds, Bounds(ds, num), |poses|)
  }

  /** Filtering poses that are sorted by frame leaves them sorted by frame. */
  lemma ReliableKeepsOrder(poses: seq<PoseEntry>, num: Numerics)
    requires |poses| > 0 && SortedByFrame(poses)
    ensures SortedByFrame(Select(poses, ReliableIndices(poses, num)))
  {
    var ds := Distances(poses, num);
    KeptIncreasing(ds, Bounds(ds, num), |poses|);
    SelectKeepsOrder(poses, ReliableIndices(poses, num));
  }

  /**
   * `filter_reliable_poses`: fewer than 10 poses are returned as they are;
   * otherwise the poses whose distances `Kept` keeps. `None` when nothing is
   * kept: the summary line then takes `min` of an empty list and raises.
   */
  method FilterReliablePoses(poses: seq<PoseEntry>, num: Numerics) returns (r: Option<seq<PoseEntry>>)
    ensures |poses| < 10 ==> r == Some(poses)
    ensures |poses| >= 10 ==> (r.None? <==> |ReliableIndices(poses, num)| == 0)
    ensures |poses| >= 10 && r.Some? ==> r.value == Select(poses, ReliableIndices(poses, num))
    ensures r.Some? ==> (|r.value| == 0 <==> |poses| == 0)
  {
    if |poses| < 10 {
      return Some(poses);
    }
    var distances: seq<real> := [];
    for i := 0 to |poses|
      invariant distances == Distances(poses, num)[..i]
    {
      distances := distances + [Norm(Translation(poses[i].pose), num)];
    }
    assert distances == Distances(poses, num);
    assert |distances| > 0;
    var mean := Mean(distances);
    var std := num.sqrt(Variance(distances));
    var maxReasonable := mean + 3.0 * std;
    var minReasonable := if mean - 3.0 * std > 0.1 then mean - 3.0 * std else 0.1;
    var filtered := KeepReliable(poses, distances, Range(minReasonable, maxReasonable));
    if |filtered| == 0 {
      return None;
    }
    return Some(filtered);
  }

  /**
   * The filtering loop of `filter_reliable_poses`: `prev` is the distance of
   * the last kept pose, `None` until one is kept.
   */
  method KeepReliable(poses: seq<PoseEntry>, distances: seq<real>, b: Range) returns (filtered: seq<PoseEntry>)
    requires |distances| == |poses|
    ensures filtered == Select(poses, Kept(distances, b, |poses|))
  {
    filtered := [];
    var prev: Option<real> := None;
    for i := 0 to |poses|
      invariant filtered == Select(poses, Kept(distances, b, i))
      invariant prev.None? <==> |Kept(distances, b, i)| == 0
      invariant prev.Some? ==> prev.value == distances[Kept(distances, b, i)[|Kept(distances, b, i)| - 1]]
    {
      ghost var kept := Kept(distances, b, i);
      var d := distances[i];
      if d > b.hi || d < b.lo {
        assert Kept(distances, b, i + 1) == kept;
      } else if prev.Some? && Abs(d - prev.value) > 10.0 {
        assert Kept(distances, b, i + 1) == kept;
      } else {
        assert Kept(distances, b, i + 1) == kept + [i];
        SelectAppend(poses, kept, i);
        filtered := filtered + [poses[i]];
        prev := Some(d);
      }
    }
  }

  /*
   * The object's name
   */

  const KnownNames: set<string> := {"garnier", "bottle", "mustard", "hand", "object", "maybellene"}

  /** The name a pose file suggests: the text before the first `_` of its base name, when there is a `_` and that text is longer than two characters. */
  function NameFromFile(path: string): (r: Option<string>)
    ensures r.Some? ==> |r.value| > 2 && '_' !in r.value && StartsWith(Basename(path), r.value + "_")
  {
    var base := Basename(path);
    if '_' in base then
      var prefix := BeforeFirst(base, '_');
      if |prefix| > 2 then
        assert base[..|prefix| + 1] == prefix + "_";
        Some(prefix)
      else None
    else None
  }

  /**
   * `auto_detect_object_name`: the deepest component of the directory's path
   * that is a known object name; otherwise the name the first file `glob`
   * lists suggests (the listing order is the file system's, so any one of
   * them); otherwise `tracked_object`.
   */
  method AutoDetectObjectName(fs: FileSystem, poseDir: string) returns (name: string)
    ensures |name| > 2
    ensures (exists i :: 0 <= i < |PathParts(poseDir)| && PathParts(poseDir)[i] in KnownNames) ==>
              exists i :: 0 <= i < |PathParts(poseDir)| && name == PathParts(poseDir)[i] && name in KnownNames &&
                forall j :: i < j < |PathParts(poseDir)| ==> PathParts(poseDir)[j] !in KnownNames
    ensures (forall i :: 0 <= i < |PathParts(poseDir)| ==> PathParts(poseDir)[i] !in KnownNames) ==>
              if PoseFileSet(fs, poseDir) == {} then name == "tracked_object"
              else exists f :: f in PoseFileSet(fs, poseDir) &&
                     name == (if NameFromFile(f).Some? then NameFromFile(f).value else "tracked_object")
  {
    var parts := PathParts(poseDir);
    var i := |parts|;
    while i > 0
      invariant 0 <= i <= |parts|
      invariant forall j :: i <= j < |parts| ==> parts[j] !in KnownNames
    {
      i := i - 1;
      if parts[i] in KnownNames {
        return parts[i];
      }
    }
    var poseFiles := PoseFileSet(fs, poseDir);
    if poseFiles != {} {
      var first :| first in poseFiles;
      var filename := Basename(first);
      if '_' in filename {
        var prefix := BeforeFirst(filename, '_');
        if |prefix| > 2 {
          return prefix;
        }
      }
      assert NameFromFile(first).None?;
    }
    return "tracked_object";
  }

  /*
   * The poses as Python source
   */

  const Header: seq<string> := ["# Pose data extracted from " + "FoundationPose ob_in_cam", "POSE_DATA = ["]
  const Closer: string := "    ]),"

  /** `f"    ({frame_num}, ["` */
  function FrameLine(frame: int): string
  {
    "    (" + IntToString(frame) + ", ["
  }

  /** One matrix row, each entry through `fmt` (the `:.6f` format, not modelled). */
  function RowLine(row: Row4, fmt: real -> string): string
  {
    "        [" + Join(", ", [fmt(row.c0), fmt(row.c1), fmt(row.c2), fmt(row.c3)]) + "],"
  }

  /** The lines of the first `n` rows of a matrix. */
  function RowLines(m: Matrix4, fmt: real -> string, n: nat): (r: seq<string>)
    requires n <= 4
    ensures |r| == n
  {
    if n == 0 then [] else RowLines(m, fmt, n - 1) + [RowLine(m.Rows()[n - 1], fmt)]
  }

  /** The six lines of one pose: frame line, four rows, closer. */
  function PoseLines(e: PoseEntry, fmt: real -> string): (r: seq<string>)
    ensures |r| == 6
  {
    [FrameLine(e.frame)] + RowLines(e.pose, fmt, 4) + [Closer]
  }

  /** The lines of the first `n` blocks, one after the other. */
  function Flatten(blocks: seq<seq<string>>, n: nat): seq<string>
    requires n <= |blocks|
  {
    if n == 0 then [] else Flatten(blocks, n - 1) + blocks[n - 1]
  }

  /** Six-line blocks laid end to end: line `j` of block `k` is line `6k + j`. */
  lemma {:induction false} FlattenLayout(blocks: seq<seq<string>>, n: nat)
    requires n <= |blocks|
    requires forall k :: 0 <= k < |blocks| ==> |blocks[k]| == 6
    ensures |Flatten(blocks, n)| == 6 * n
    ensures forall k, j :: 0 <= k < n && 0 <= j < 6 ==> Flatten(blocks, n)[6 * k + j] == blocks[k][j]
  {
    if n > 0 {
      FlattenLayout(blocks, n - 1);
      var p := Flatten(blocks, n - 1);
      assert Flatten(blocks, n) == p + blocks[n - 1];
      forall k, j | 0 <= k < n && 0 <= j < 6
        ensures Flatten(blocks, n)[6 * k + j] == blocks[k][j]
      {
        if k < n - 1 {
          assert Flatten(blocks, n)[6 * k + j] == p[6 * k + j];
        } else {
          assert Flatten(blocks, n)[6 * k + j] == blocks[n - 1][j];
        }
      }
    }
  }

  /** The six lines of each pose, in input order. */
  function PoseBlocks(poses: seq<PoseEntry>, fmt: real -> string): (r: seq<seq<string>>)
    ensures |r| == |poses|
  {
    seq(|poses|, k requires 0 <= k < |poses| => PoseLines(poses[k], fmt))
  }

  lemma AppendAssociative<T>(a: seq<T>, b: seq<T>, c: seq<T>)
    ensures (a + b) + c == a + (b + c)
  {
  }

  /** All lines of `format_pose_data_for_python`, before they are joined. */
  function PoseDataLines(poses: seq<PoseEntry>, fmt: real -> string): seq<string>
  {
    var blocks := PoseBlocks(poses, fmt);
    Header + Flatten(blocks, |blocks|) + ["]", ""]
  }

  /** The inner loop of `format_pose_data_for_python`: one line per matrix row, appended in order. */
  method AppendRowLines(lines: seq<string>, m: Matrix4, fmt: real -> string) returns (out: seq<string>)
    ensures out == lines + RowLines(m, fmt, 4)
  {
    out := lines;
    var rows := m.Rows();
    for j := 0 to 4
      invariant out == lines + RowLines(m, fmt, j)
    {
      out := out + [RowLine(rows[j], fmt)];
    }
  }

  lemma AppendBlock<T>(before: seq<T>, first: T, middle: seq<T>, last: T)
    ensures before + [first] + middle + [last] == before + ([first] + middle + [last])
  {
  }

  /** `format_pose_data_for_python`: the lines, joined with newlines. */
  method FormatPoseData(poses: seq<PoseEntry>, fmt: real -> string) returns (text: string)
    ensures text == Join("\n", PoseDataLines(poses, fmt))
  {
    ghost var blocks := PoseBlocks(poses, fmt);
    var lines := Header;
    for i := 0 to |poses|
      invariant lines == Header + Flatten(blocks, i)
    {
      var e := poses[i];
      ghost var before := lines;
      var withRows := AppendRowLines(lines + [FrameLine(e.frame)], e.pose, fmt);
      lines := withRows + [Closer];
      AppendBlock(before, FrameLine(e.frame), RowLines(e.pose, fmt, 4), Closer);
      assert blocks[i] == PoseLines(e, fmt);
      AppendAssociative(Header, Flatten(blocks, i), blocks[i]);
    }
    lines := lines + ["]", ""];
    text := Join("\n", lines);
  }

  /**
   * There are `6n + 4` lines: the two header lines, six per pose in input
   * order, `]` and the empty line.
   */
  lemma PoseDataLayout(poses: seq<PoseEntry>, fmt: real -> string)
    ensures |PoseDataLines(poses, fmt)| == 6 * |poses| + 4
    ensures PoseDataLines(poses, fmt)[..2] == Header
    ensures forall k, j :: 0 <= k < |poses| && 0 <= j < 6 ==>
              PoseDataLines(poses, fmt)[2 + 6 * k + j] == PoseLines(poses[k], fmt)[j]
    ensures PoseDataLines(poses, fmt)[6 * |poses| + 2..] == ["]", ""]
  {
    FlattenLayout(PoseBlocks(poses, fmt), |poses|);
    PoseDataEnds(poses, fmt);
    forall k, j | 0 <= k < |poses| && 0 <= j < 6
      ensures PoseDataLines(poses, fmt)[2 + 6 * k + j] == PoseLines(poses[k], fmt)[j]
    {
      PoseDataLineAt(poses, fmt, k, j);
    }
  }

  /** The header and the closing lines frame the pose blocks. */
  lemma PoseDataEnds(poses: seq<PoseEntry>, fmt: real -> string)
    requires |Flatten(PoseBlocks(poses, fmt), |poses|)| == 6 * |poses|
    ensures |PoseDataLines(poses, fmt)| == 6 * |poses| + 4
    ensures PoseDataLines(poses, fmt)[..2] == Header
    ensures PoseDataLines(poses, fmt)[6 * |poses| + 2..] == ["]", ""]
  {
    var body := Flatten(PoseBlocks(poses, fmt), |poses|);
    assert |Header| == 2;
    ConcatEnds(Header, body, ["]", ""]);
  }

  /** Line `j` of pose `k` sits at `2 + 6k + j`. */
  lemma PoseDataLineAt(poses: seq<PoseEntry>, fmt: real -> string, k: nat, j: nat)
    requires k < |poses| && j < 6
    ensures |PoseDataLines(poses, fmt)| == 6 * |poses| + 4
    ensures PoseDataLines(poses, fmt)[2 + 6 * k + j] == PoseLines(poses[k], fmt)[j]
  {
    var blocks := PoseBlocks(poses, fmt);
    FlattenLayout(blocks, |poses|);
    var body := Flatten(blocks, |poses|);
    assert PoseDataLines(poses, fmt) == Header + body + ["]", ""];
    assert |Header| == 2;
    ConcatMiddle(Header, body, ["]", ""], 6 * k + j);
    assert blocks[k] == PoseLines(poses[k], fmt);
  }

  lemma ConcatEnds<T>(a: seq<T>, b: seq<T>, c: seq<T>)
    ensures (a + b + c)[..|a|] == a
    ensures (a + b + c)[|a| + |b|..] == c
  {
  }

  lemma ConcatMiddle<T>(a: seq<T>, b: seq<T>, c: seq<T>, x: nat)
    requires x < |b|
    ensures (a + b + c)[|a| + x] == b[x]
  {
  }

  predicate NoNewline(lines: seq<string>)
  {
    forall i :: 0 <= i < |lines| ==> '\n' !in lines[i]
  }

  lemma NoNewlineAppend(a: seq<string>, b: seq<string>)
    requires NoNewline(a) && NoNewline(b)
    ensures NoNewline(a + b)
  {
    forall i | 0 <= i < |a + b|
      ensures '\n' !in (a + b)[i]
    {
      if i >= |a| {
        assert (a + b)[i] == b[i - |a|];
      }
    }
  }

  lemma StringAppendFree(x: string, y: string, c: char)
    requires c !in x && c !in y
    ensures c !in x + y
  {
    forall i | 0 <= i < |x + y|
      ensures (x + y)[i] != c
    {
      if i >= |x| {
        assert (x + y)[i] == y[i - |x|];
      }
    }
  }

  lemma HeaderNoNewline()
    ensures NoNewline(Header)
  {
    assert '\n' !in "# Pose data extracted from ";
    assert '\n' !in "FoundationPose ob_in_cam";
    StringAppendFree("# Pose data extracted from ", "FoundationPose ob_in_cam", '\n');
    assert '\n' !in Header[1];
  }

  lemma FrameLineNoNewline(frame: int)
    ensures '\n' !in FrameLine(frame)
  {
    IntToStringFree(frame, '\n');
    StringAppendFree("    (", IntToString(frame), '\n');
    StringAppendFree("    (" + IntToString(frame), ", [", '\n');
  }

  lemma RowLineNoNewline(row: Row4, fmt: real -> string)
    requires forall x :: '\n' !in fmt(x)
    ensures '\n' !in RowLine(row, fmt)
  {
    var j := Join(", ", [fmt(row.c0), fmt(row.c1), fmt(row.c2), fmt(row.c3)]);
    JoinFree(", ", [fmt(row.c0), fmt(row.c1), fmt(row.c2), fmt(row.c3)], '\n');
    StringAppendFree("        [", j, '\n');
    StringAppendFree("        [" + j, "],", '\n');
  }

  lemma {:induction false} RowLinesNoNewline(m: Matrix4, fmt: real -> string, n: nat)
    requires n <= 4
    requires forall x :: '\n' !in fmt(x)
    ensures NoNewline(RowLines(m, fmt, n))
  {
    if n > 0 {
      RowLinesNoNewline(m, fmt, n - 1);
      RowLineNoNewline(m.Rows()[n - 1], fmt);
      NoNewlineAppend(RowLines(m, fmt, n - 1), [RowLine(m.Rows()[n - 1], fmt)]);
    }
  }

  lemma PoseLinesNoNewline(e: PoseEntry, fmt: real -> string)
    requires forall x :: '\n' !in fmt(x)
    ensures NoNewline(PoseLines(e, fmt))
  {
    FrameLineNoNewline(e.frame);
    RowLinesNoNewline(e.pose, fmt, 4);
    NoNewlineAppend([FrameLine(e.frame)], RowLines(e.pose, fmt, 4));
    NoNewlineAppend([FrameLine(e.frame)] + RowLines(e.pose, fmt, 4), [Closer]);
  }

  lemma {:induction false} FlattenNoNewline(blocks: seq<seq<string>>, n: nat)
    requires n <= |blocks|
    requires forall k :: 0 <= k < |blocks| ==> NoNewline(blocks[k])
    ensures NoNewline(Flatten(blocks, n))
  {
    if n > 0 {
      FlattenNoNewline(blocks, n - 1);
      NoNewlineAppend(Flatten(blocks, n - 1), blocks[n - 1]);
    }
  }

  /**
   * When the number format never yields a newline, the text splits back into
   * exactly its lines: the generated source has one line per element.
   */
  lemma PoseDataTextLines(poses: seq<PoseEntry>, fmt: real -> string)
    requires forall x :: '\n' !in fmt(x)
    ensures Split(Join("\n", PoseDataLines(poses, fmt)), '\n') == PoseDataLines(poses, fmt)
  {
    var blocks := PoseBlocks(poses, fmt);
    forall k | 0 <= k < |blocks|
      ensures NoNewline(blocks[k])
    {
      PoseLinesNoNewline(poses[k], fmt);
    }
    FlattenNoNewline(blocks, |blocks|);
    var lines := Header + Flatten(blocks, |blocks|) + ["]", ""];
    HeaderNoNewline();
    NoNewlineAppend(Header, Flatten(blocks, |blocks|));
    NoNewlineAppend(Header + Flatten(blocks, |blocks|), ["]", ""]);
    assert lines == PoseDataLines(poses, fmt);
    SplitJoin(lines, '\n');
  }

  /*
   * Visualisation sizes
   */

  datatype Sizes = Sizes(objectSize: real, coordSize: real)

  /**
   * The size rule of `calculate_scene_bounds`, by the largest distance `m`:
   * the object marker is always positive, at least 0.02, and at most half the
   * length of the coordinate axes.
   */
  function VisualSizes(m: real): (r: Sizes)
    ensures 0.02 <= r.objectSize && 2.0 * r.objectSize <= r.coordSize
  {
    if m > 10.0 then Sizes(m * 0.05, m * 0.1)
    else if m < 1.0 then Sizes(0.02, 0.1)
    else Sizes(m * 0.03, m * 0.08)
  }

  /** A scene further away never gets a smaller object marker. */
  lemma VisualSizesMonotone(m1: real, m2: real)
    requires m1 <= m2
    ensures VisualSizes(m1).objectSize <= VisualSizes(m2).objectSize
  {
  }

  /**
   * The sizes `calculate_scene_bounds` chooses, from the largest distance;
   * `None` for no poses, where `distances.max()` raises.
   */
  function SceneSizes(poses: seq<PoseEntry>, num: Numerics): (r: Option<Sizes>)
    ensures r.None? <==> |poses| == 0
    ensures r.Some? ==> exists i :: 0 <= i < |poses| && r.value == VisualSizes(Distances(poses, num)[i]) &&
                          forall j :: 0 <= j < |poses| ==> Distances(poses, num)[j] <= Distances(poses, num)[i]
  {
    if |poses| == 0 then None
    else
      var ds := Distances(poses, num);
      Some(VisualSizes(MaxOf(ds)))
  }
}
