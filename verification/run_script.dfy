/**
 * The tracking driver: where the mesh comes from, which input and output
 * directories are used, and the frame loop that writes one pose file per frame.
 */
module RunScript {
  import opened Wrappers
  import opened Strings
  import opened Paths
  import opened Geometry
  import opened Tracking

  /** Python truthiness of an optional command-line string: given and non-empty. */
  predicate Given(s: Option<string>)
  {
    s.Some? && s.value != ""
  }

  const MeshFileName := "textured_simple.obj"

  /** The fallback mesh shipped with the demo data. */
  function DefaultMesh(codeDir: string): string
  {
    codeDir + "/demo_data/mustard0/mesh/textured_simple.obj"
  }

  /** The `.obj` names a directory lists. */
  function ObjFiles(fs: FileSystem, d: string): (r: set<string>)
    ensures forall f :: f in r <==> f in Entries(fs, d) && EndsWith(f, ".obj")
  {
    set f | f in Entries(fs, d) && EndsWith(f, ".obj")
  }

  /** The mesh a directory offers: its only `.obj` file, or nothing when it is not a directory or holds zero or several. */
  ghost function SingleObj(fs: FileSystem, d: string): (r: Option<string>)
    ensures r.Some? <==> IsDir(fs, d) && |ObjFiles(fs, d)| == 1
    ensures r.Some? ==> exists f :: f in ObjFiles(fs, d) && r.value == PathJoin(d, f)
  {
    if IsDir(fs, d) && |ObjFiles(fs, d)| == 1 then
      var f :| f in ObjFiles(fs, d);
      Some(PathJoin(d, f))
    else None
  }

  function IfExists(fs: FileSystem, p: string): (r: Option<string>)
    ensures r.Some? <==> Exists(fs, p)
    ensures r.Some? ==> r.value == p
  {
    if Exists(fs, p) then Some(p) else None
  }

  /** The places searched, in the order the code checks them. */
  function SearchLocations(sceneDir: string): (r: seq<string>)
    ensures |r| == 4
  {
    var meshDir := PathJoin(sceneDir, "mesh");
    var parentMeshDir := PathJoin(Dirname(sceneDir), "mesh");
    [PathJoin(meshDir, MeshFileName), PathJoin(parentMeshDir, MeshFileName), meshDir + "/*.obj", parentMeshDir + "/*.obj"]
  }

  /**
   * What each stage of the search offers, for the absolute scene directory `d`:
   * the explicit file, the scene's `mesh/textured_simple.obj`, the parent's
   * `mesh/textured_simple.obj`, the only `.obj` of the scene's `mesh` directory,
   * the only `.obj` of the parent's.
   */
  ghost function MeshStages(fs: FileSystem, d: string, meshFile: Option<string>): (r: seq<Option<string>>)
    ensures |r| == 5
  {
    [if Given(meshFile) then IfExists(fs, meshFile.value) else None,
     IfExists(fs, PathJoin(PathJoin(d, "mesh"), MeshFileName)),
     IfExists(fs, PathJoin(PathJoin(Dirname(d), "mesh"), MeshFileName)),
     SingleObj(fs, PathJoin(d, "mesh")),
     SingleObj(fs, PathJoin(Dirname(d), "mesh"))]
  }

  /** The index of the first stage that offers something, or the number of stages. */
  function FirstFound(stages: seq<Option<string>>): (k: nat)
    ensures k <= |stages|
    ensures forall j :: 0 <= j < k ==> stages[j].None?
    ensures k < |stages| ==> stages[k].Some?
  {
    if |stages| == 0 || stages[0].Some? then 0 else 1 + FirstFound(stages[1..])
  }

  /** The first stage's offer, or `default` when no stage offers anything. */
  function Pick(stages: seq<Option<string>>, default: string): string
  {
    var k := FirstFound(stages);
    if k < |stages| then stages[k].value else default
  }

  /** The mesh the search settles on. */
  ghost function MeshSearch(fs: FileSystem, cwd: string, testSceneDir: string, meshFile: Option<string>, codeDir: string): string
  {
    Pick(MeshStages(fs, AbsPath(cwd, testSceneDir), meshFile), DefaultMesh(codeDir))
  }

  /**
   * `find_mesh_file`. `cwd` stands for the working directory `abspath` resolves
   * against; `searched` is the list of locations reported when detection fails.
   */
  method FindMeshFile(fs: FileSystem, cwd: string, testSceneDir: string, meshFile: Option<string>, codeDir: string)
    returns (r: string, searched: seq<string>)
    ensures r == MeshSearch(fs, cwd, testSceneDir, meshFile, codeDir)
    ensures |searched| <= 4 && searched == SearchLocations(AbsPath(cwd, testSceneDir))[..|searched|]
  {
    if Given(meshFile) && Exists(fs, meshFile.value) {
      ExplicitMeshWins(fs, cwd, testSceneDir, meshFile, codeDir);
      return meshFile.value, [];
    }
    var d := AbsPath(cwd, testSceneDir);
    r, searched := SearchScene(fs, d, codeDir);
    ghost var stages := MeshStages(fs, d, meshFile);
    assert stages[1..] == MeshStages(fs, d, None)[1..];
    FirstFoundAfterNone(stages, MeshStages(fs, d, None));
  }

  /** The part of the search that needs no explicit file: the four locations, then the default. */
  method SearchScene(fs: FileSystem, d: string, codeDir: string) returns (r: string, searched: seq<string>)
    ensures r == Pick(MeshStages(fs, d, None), DefaultMesh(codeDir))
    ensures |searched| <= 4 && searched == SearchLocations(d)[..|searched|]
  {
    ghost var stages := MeshStages(fs, d, None);
    ghost var locations := SearchLocations(d);
    searched := [];
    var candidates := [PathJoin(PathJoin(d, "mesh"), MeshFileName), PathJoin(PathJoin(Dirname(d), "mesh"), MeshFileName)];
    assert candidates == locations[..2];
    var k := 0;
    while k < |candidates|
      invariant 0 <= k <= |candidates|
      invariant searched == locations[..k]
      invariant forall j :: 0 <= j <= k ==> stages[j].None?
    {
      searched := searched + [candidates[k]];
      assert searched == locations[..k + 1];
      if Exists(fs, candidates[k]) {
        FirstFoundAt(stages, k + 1);
        return candidates[k], searched;
      }
      k := k + 1;
    }
    var meshDir := PathJoin(d, "mesh");
    searched := searched + [meshDir + "/*.obj"];
    assert searched == locations[..3];
    var sceneObj := OnlyObjFile(fs, meshDir);
    if sceneObj.Some? {
      FirstFoundAt(stages, 3);
      return sceneObj.value, searched;
    }
    var parentMeshDir := PathJoin(Dirname(d), "mesh");
    searched := searched + [parentMeshDir + "/*.obj"];
    assert searched == locations[..4];
    var parentObj := OnlyObjFile(fs, parentMeshDir);
    if parentObj.Some? {
      FirstFoundAt(stages, 4);
      return parentObj.value, searched;
    }
    FirstFoundAt(stages, 5);
    r := DefaultMesh(codeDir);
  }

  /** The `.obj` listing of a mesh directory, accepted only when it holds exactly one file. */
  method OnlyObjFile(fs: FileSystem, dir: string) returns (r: Option<string>)
    ensures r == SingleObj(fs, dir)
  {
    r := None;
    if IsDir(fs, dir) {
      var objFiles := ObjFiles(fs, dir);
      if |objFiles| == 1 {
        var f :| f in objFiles;
        SingletonElement(objFiles, f);
        r := Some(PathJoin(dir, f));
      }
    }
  }

  /** Two stage lists that differ only in a first stage offering nothing pick alike. */
  lemma FirstFoundAfterNone(a: seq<Option<string>>, b: seq<Option<string>>)
    requires |a| == |b| > 0 && a[0].None? && b[0].None? && a[1..] == b[1..]
    ensures FirstFound(a) == FirstFound(b)
  {
  }

  lemma FirstFoundAt(stages: seq<Option<string>>, k: nat)
    requires k <= |stages|
    requires forall j :: 0 <= j < k ==> stages[j].None?
    requires k < |stages| ==> stages[k].Some?
    ensures FirstFound(stages) == k
  {
  }

  lemma SingletonElement(s: set<string>, f: string)
    requires |s| == 1 && f in s
    ensures s == {f}
  {
    assert |s - {f}| == 0;
  }

  /** An explicit mesh file is used exactly when it is given (non-empty) and exists. */
  lemma ExplicitMeshWins(fs: FileSystem, cwd: string, testSceneDir: string, meshFile: Option<string>, codeDir: string)
    ensures FirstFound(MeshStages(fs, AbsPath(cwd, testSceneDir), meshFile)) == 0 <==>
            Given(meshFile) && Exists(fs, meshFile.value)
    ensures Given(meshFile) && Exists(fs, meshFile.value) ==>
            MeshSearch(fs, cwd, testSceneDir, meshFile, codeDir) == meshFile.value
  {
  }

  /**
   * The search order as coded: scene `mesh/textured_simple.obj`, parent
   * `mesh/textured_simple.obj`, the single `.obj` of the scene's `mesh` directory,
   * the single `.obj` of the parent's, the default.
   */
  lemma MeshSearchOrder(fs: FileSystem, d: string, codeDir: string)
    ensures var r := Pick(MeshStages(fs, d, None), DefaultMesh(codeDir));
            var sceneMesh := PathJoin(PathJoin(d, "mesh"), MeshFileName);
            var parentMesh := PathJoin(PathJoin(Dirname(d), "mesh"), MeshFileName);
            var sceneObj := SingleObj(fs, PathJoin(d, "mesh"));
            var parentObj := SingleObj(fs, PathJoin(Dirname(d), "mesh"));
            (Exists(fs, sceneMesh) ==> r == sceneMesh) &&
            (!Exists(fs, sceneMesh) && Exists(fs, parentMesh) ==> r == parentMesh) &&
            (!Exists(fs, sceneMesh) && !Exists(fs, parentMesh) && sceneObj.Some? ==> r == sceneObj.value) &&
            (!Exists(fs, sceneMesh) && !Exists(fs, parentMesh) && sceneObj.None? && parentObj.Some? ==> r == parentObj.value) &&
            (!Exists(fs, sceneMesh) && !Exists(fs, parentMesh) && sceneObj.None? && parentObj.None? ==> r == DefaultMesh(codeDir))
  {
    var stages := MeshStages(fs, d, None);
    var k := FirstFound(stages);
    assert stages[0].None?;
    if k == 1 {
      assert stages[1].Some?;
    } else if k == 2 {
      assert stages[1].None? && stages[2].Some?;
    } else if k == 3 {
      assert stages[1].None? && stages[2].None? && stages[3].Some?;
    } else if k == 4 {
      assert stages[1].None? && stages[2].None? && stages[3].None? && stages[4].Some?;
    } else {
      assert stages[1].None? && stages[2].None? && stages[3].None? && stages[4].None?;
    }
  }

  /** A scene `mesh` directory with several `.obj` files selects nothing: the search goes on to the parent's. */
  lemma AmbiguousMeshDirFallsThrough(fs: FileSystem, d: string, codeDir: string)
    requires |ObjFiles(fs, PathJoin(d, "mesh"))| > 1
    requires !Exists(fs, PathJoin(PathJoin(d, "mesh"), MeshFileName))
    requires !Exists(fs, PathJoin(PathJoin(Dirname(d), "mesh"), MeshFileName))
    ensures var parentObj := SingleObj(fs, PathJoin(Dirname(d), "mesh"));
            Pick(MeshStages(fs, d, None), DefaultMesh(codeDir)) ==
              if parentObj.Some? then parentObj.value else DefaultMesh(codeDir)
  {
    MeshSearchOrder(fs, d, codeDir);
  }

  /** The search never fails: it returns an existing path or the default mesh. */
  lemma MeshSearchExistsOrDefault(fs: FileSystem, cwd: string, testSceneDir: string, meshFile: Option<string>, codeDir: string)
    requires WellFormed(fs)
    ensures var r := MeshSearch(fs, cwd, testSceneDir, meshFile, codeDir);
            Exists(fs, r) || r == DefaultMesh(codeDir)
  {
    var d := AbsPath(cwd, testSceneDir);
    var stages := MeshStages(fs, d, meshFile);
    var k := FirstFound(stages);
    if k == 3 || k == 4 {
      var dir := if k == 3 then PathJoin(d, "mesh") else PathJoin(Dirname(d), "mesh");
      assert stages[k] == SingleObj(fs, dir);
      var f :| f in ObjFiles(fs, dir) && stages[k].value == PathJoin(dir, f);
      assert f in fs.dirs[dir];
    }
  }

  /** The input directory: `--inputs`, else `--test_scene_dir`, else the demo scene. */
  function InputDir(inputs: Option<string>, testSceneDir: Option<string>, codeDir: string): (r: string)
    ensures Given(inputs) ==> r == inputs.value
    ensures !Given(inputs) && Given(testSceneDir) ==> r == testSceneDir.value
    ensures !Given(inputs) && !Given(testSceneDir) ==> r == codeDir + "/demo_data/mustard0"
  {
    if Given(inputs) then inputs.value
    else if Given(testSceneDir) then testSceneDir.value
    else codeDir + "/demo_data/mustard0"
  }

  /**
   * The output directory: `--outputs`, else `outputs/<timestamp>` beside the input
   * directory when `--inputs` is given, else `--debug_dir`, else `<code_dir>/debug`.
   */
  function OutputDir(outputs: Option<string>, inputs: Option<string>, debugDir: Option<string>,
                     codeDir: string, cwd: string, timestamp: string): (r: string)
    ensures Given(outputs) ==> r == outputs.value
    ensures !Given(outputs) && !Given(inputs) && Given(debugDir) ==> r == debugDir.value
    ensures !Given(outputs) && !Given(inputs) && !Given(debugDir) ==> r == codeDir + "/debug"
  {
    if Given(outputs) then outputs.value
    else if Given(inputs) then PathJoin(PathJoin(Dirname(AbsPath(cwd, inputs.value)), "outputs"), timestamp)
    else if Given(debugDir) then debugDir.value
    else codeDir + "/debug"
  }

  /** The generated output directory is `<parent of the inputs>/outputs/<timestamp>`: a sibling of the inputs. */
  lemma OutputBesideInputs(outputs: Option<string>, inputs: Option<string>, debugDir: Option<string>,
                           codeDir: string, cwd: string, timestamp: string)
    requires !Given(outputs) && Given(inputs)
    requires |timestamp| > 0 && '/' !in timestamp
    ensures var r := OutputDir(outputs, inputs, debugDir, codeDir, cwd, timestamp);
            Basename(r) == timestamp &&
            Basename(Dirname(r)) == "outputs" &&
            Dirname(Dirname(r)) == Dirname(AbsPath(cwd, inputs.value))
  {
    var parent := Dirname(AbsPath(cwd, inputs.value));
    DirnameShaped(AbsPath(cwd, inputs.value));
    DirnameOfJoin(parent, "outputs");
    var q := PathJoin(parent, "outputs");
    assert q[|q| - 1] == 's';
    DirnameOfJoin(q, timestamp);
  }

  /** Where the frame loop writes the pose of the frame with this id. */
  function PoseFile(debugDir: string, idStr: string): string
  {
    debugDir + "/ob_in_cam/" + idStr + ".txt"
  }

  /** One `np.savetxt` call: the file written and the pose written to it. */
  datatype PoseWrite = PoseWrite(path: string, pose: Matrix4)

  /** The files a sequence of writes touches, in order. */
  function WrittenPaths(ws: seq<PoseWrite>): (r: seq<string>)
    ensures |r| == |ws|
  {
    if |ws| == 0 then [] else WrittenPaths(ws[..|ws| - 1]) + [ws[|ws| - 1].path]
  }

  /** The poses a sequence of writes stores, in order. */
  function WrittenPoses(ws: seq<PoseWrite>): (r: seq<Matrix4>)
    ensures |r| == |ws|
  {
    if |ws| == 0 then [] else WrittenPoses(ws[..|ws| - 1]) + [ws[|ws| - 1].pose]
  }

  /** The pose file of every frame, in frame order. */
  function PoseFiles(debugDir: string, frames: seq<Frame>, n: nat): (r: seq<string>)
    requires n <= |frames|
    ensures |r| == n
  {
    if n == 0 then [] else PoseFiles(debugDir, frames, n - 1) + [PoseFile(debugDir, frames[n - 1].idStr)]
  }

  /** Entry `k` of each view is taken from write `k`. */
  lemma {:induction false} WritesAt(ws: seq<PoseWrite>, k: nat)
    requires k < |ws|
    ensures WrittenPaths(ws)[k] == ws[k].path && WrittenPoses(ws)[k] == ws[k].pose
    decreases |ws|
  {
    if k < |ws| - 1 {
      WritesAt(ws[..|ws| - 1], k);
    }
  }

  /** Entry `k` is the pose file of frame `k`. */
  lemma {:induction false} PoseFilesAt(debugDir: string, frames: seq<Frame>, n: nat, k: nat)
    requires k < n <= |frames|
    ensures PoseFiles(debugDir, frames, n)[k] == PoseFile(debugDir, frames[k].idStr)
  {
    if k < n - 1 {
      PoseFilesAt(debugDir, frames, n - 1, k);
    }
  }

  /** One more write extends both views of the writes, and one more frame its pose file. */
  lemma SaveStep(saved: seq<PoseWrite>, w: PoseWrite, debugDir: string, frames: seq<Frame>, i: nat)
    requires i < |frames|
    ensures WrittenPaths(saved + [w]) == WrittenPaths(saved) + [w.path]
    ensures WrittenPoses(saved + [w]) == WrittenPoses(saved) + [w.pose]
    ensures PoseFiles(debugDir, frames, i + 1) == PoseFiles(debugDir, frames, i) + [PoseFile(debugDir, frames[i].idStr)]
  {
    assert (saved + [w])[..|saved|] == saved;
  }

  /**
   * The frame loop of the driver: each frame's call on the estimator, then the
   * pose saved to `ob_in_cam/<id>.txt`. A frame that raises ends the run.
   * `saved` lists the files written, in order, with the pose written to each.
   */
  method TrackAndSave(est: Estimator, frames: seq<Frame>, useMasks: bool, debugDir: string)
    returns (saved: seq<PoseWrite>, completed: bool)
    modifies est
    ensures est.calls == old(est.calls) + Protocol(frames, useMasks)
    ensures completed <==> |Protocol(frames, useMasks)| == |frames|
    ensures |saved| == |Protocol(frames, useMasks)|
    ensures WrittenPaths(saved) == PoseFiles(debugDir, frames, |saved|)
    ensures est.returned == old(est.returned) + WrittenPoses(saved)
  {
    ghost var calls0 := est.calls;
    ghost var returned0 := est.returned;
    saved := [];
    var i := 0;
    while i < |frames|
      invariant 0 <= i <= |frames|
      invariant |Calls(frames, useMasks, i)| == i
      invariant est.calls == calls0 + Calls(frames, useMasks, i)
      invariant |saved| == i
      invariant WrittenPaths(saved) == PoseFiles(debugDir, frames, i)
      invariant est.returned == returned0 + WrittenPoses(saved)
    {
      var pose := ProcessNext(est, frames, useMasks, i, calls0);
      if pose.None? {
        return saved, false;
      }
      var w := PoseWrite(PoseFile(debugDir, frames[i].idStr), pose.value);
      SaveStep(saved, w, debugDir, frames, i);
      saved := saved + [w];
      i := i + 1;
    }
    completed := true;
  }
}
