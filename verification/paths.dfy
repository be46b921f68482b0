/**
 * POSIX path strings (`os.path.join`, `dirname`, `basename`, `normpath`, `abspath`,
 * `pathlib.PurePosixPath.parts`), glob patterns of the form `*<suffix>`, and a
 * file system given as the set of existing files plus the listing of every directory.
 */
module Paths {
  import opened Strings

  /**
   * A snapshot of the file system. `files` are the existing non-directory paths;
   * `dirs` maps every existing directory to the names it lists. Paths are looked up
   * exactly as the program spells them.
   */
  datatype FileSystem = FileSystem(files: set<string>, dirs: map<string, set<string>>)

  /** `os.path.exists` */
  predicate Exists(fs: FileSystem, p: string)
  {
    p in fs.files || p in fs.dirs
  }

  /** `os.path.isdir` */
  predicate IsDir(fs: FileSystem, p: string)
  {
    p in fs.dirs
  }

  /** Every name a directory lists exists under the joined path and is a plain name. */
  predicate WellFormed(fs: FileSystem)
  {
    forall d, n :: d in fs.dirs && n in fs.dirs[d] ==>
      |n| > 0 && '/' !in n && Exists(fs, PathJoin(d, n))
  }

  /** The names in directory `d`, or none when `d` is not a directory. */
  function Entries(fs: FileSystem, d: string): set<string>
  {
    if d in fs.dirs then fs.dirs[d] else {}
  }

  predicate IsAbs(p: string)
  {
    |p| > 0 && p[0] == '/'
  }

  predicate AllSlashes(s: string)
  {
    forall k :: 0 <= k < |s| ==> s[k] == '/'
  }

  /** `os.path.join(a, b)`: an absolute `b` replaces `a`; otherwise one separator is inserted when needed. */
  function PathJoin(a: string, b: string): (r: string)
    ensures IsAbs(b) ==> r == b
  {
    if IsAbs(b) then b
    else if |a| == 0 || a[|a| - 1] == '/' then a + b
    else a + "/" + b
  }

  /** Index of the last `/` in `p`, or -1 when there is none. */
  function LastSlash(p: string): (i: int)
    ensures -1 <= i < |p|
    ensures i >= 0 ==> p[i] == '/'
    ensures forall k :: i < k < |p| ==> p[k] != '/'
  {
    if |p| == 0 then -1
    else if p[|p| - 1] == '/' then |p| - 1
    else LastSlash(p[..|p| - 1])
  }

  /** `s.rstrip('/')` */
  function StripTrailingSlashes(s: string): (r: string)
    ensures |r| <= |s| && r == s[..|r|]
    ensures |r| > 0 ==> r[|r| - 1] != '/'
    ensures AllSlashes(s[|r|..])
  {
    if |s| > 0 && s[|s| - 1] == '/' then
      var r := StripTrailingSlashes(s[..|s| - 1]);
      assert s[|r|..] == s[..|s| - 1][|r|..] + ['/'];
      r
    else
      assert s[|s|..] == [];
      s
  }

  /**
   * `os.path.dirname(p)`: everything up to the last separator, with trailing
   * separators removed unless the head consists of separators only.
   */
  function Dirname(p: string): (r: string)
    ensures |r| <= |p| && r == p[..|r|]
  {
    var head := p[..LastSlash(p) + 1];
    if |head| > 0 && !AllSlashes(head) then
      var r := StripTrailingSlashes(head);
      assert head[..|r|] == p[..|r|];
      r
    else head
  }

  /** `os.path.basename(p)`: everything after the last separator. */
  function Basename(p: string): (r: string)
    ensures '/' !in r
    ensures |r| <= |p| && p == p[..|p| - |r|] + r
  {
    p[LastSlash(p) + 1..]
  }

  /** The shape of every `dirname` result: empty, all separators, or not ending in a separator. */
  predicate DirShaped(a: string)
  {
    |a| == 0 || a[|a| - 1] != '/' || AllSlashes(a)
  }

  lemma DirnameShaped(p: string)
    ensures DirShaped(Dirname(p))
  {
    var head := p[..LastSlash(p) + 1];
    if |head| > 0 && !AllSlashes(head) {
      var r := StripTrailingSlashes(head);
      assert head[|r|..] == head || |r| > 0;
    }
  }

  lemma {:induction false} LastSlashAppend(x: string, y: string)
    requires '/' !in y
    ensures LastSlash(x + y) == LastSlash(x)
  {
    if |y| > 0 {
      assert (x + y)[..|x + y| - 1] == x + y[..|y| - 1];
      LastSlashAppend(x, y[..|y| - 1]);
    } else {
      assert x + y == x;
    }
  }

  /** Joining a plain name onto a directory and taking `dirname` gives the directory back. */
  lemma DirnameOfJoin(a: string, b: string)
    requires DirShaped(a)
    requires |b| > 0 && '/' !in b
    ensures Dirname(PathJoin(a, b)) == a
    ensures Basename(PathJoin(a, b)) == b
  {
    if |a| == 0 {
      assert PathJoin(a, b) == "" + b;
      LastSlashAppend("", b);
    } else if a[|a| - 1] == '/' {
      LastSlashAppend(a, b);
      assert PathJoin(a, b)[..|a|] == a;
    } else {
      var j := PathJoin(a, b);
      assert j == (a + "/") + b;
      LastSlashAppend(a + "/", b);
      assert j[..|a| + 1] == a + "/";
      assert !AllSlashes(a + "/") by {
        assert (a + "/")[|a| - 1] != '/';
      }
      var r := StripTrailingSlashes(a + "/");
      assert r == StripTrailingSlashes(a);
    }
  }

  /** The prefix of separators `normpath` keeps: exactly two are kept, any other positive number becomes one. */
  function RootSlashes(p: string): (n: nat)
    ensures n <= 2 && n <= |p|
    ensures n > 0 <==> IsAbs(p)
  {
    if StartsWith(p, "//") && !StartsWith(p, "///") then 2
    else if IsAbs(p) then 1
    else 0
  }

  /** The component loop of `normpath`: drops empty and `.` components and resolves `..`. */
  function NormComponents(comps: seq<string>, rooted: bool): (r: seq<string>)
    ensures forall i :: 0 <= i < |r| ==> r[i] != "" && r[i] != "."
    ensures rooted ==> forall i :: 0 <= i < |r| ==> r[i] != ".."
    ensures forall i :: 0 <= i < |r| ==> r[i] in comps
    ensures |r| <= |comps|
  {
    if |comps| == 0 then []
    else
      var acc := NormComponents(comps[..|comps| - 1], rooted);
      var c := comps[|comps| - 1];
      if c == "" || c == "." then acc
      else if c != ".." || (!rooted && |acc| == 0) || (|acc| > 0 && acc[|acc| - 1] == "..") then acc + [c]
      else if |acc| > 0 then acc[..|acc| - 1]
      else acc
  }

  function Slashes(n: nat): (s: string)
    ensures |s| == n && AllSlashes(s)
  {
    if n == 0 then "" else Slashes(n - 1) + "/"
  }

  /** `os.path.normpath(p)` */
  function NormPath(p: string): (r: string)
    ensures |r| > 0
    ensures IsAbs(r) <==> IsAbs(p)
  {
    if |p| == 0 then "."
    else
      var n := RootSlashes(p);
      var comps := NormComponents(Split(p, '/'), n > 0);
      var r := Slashes(n) + Join("/", comps);
      if |r| == 0 then "."
      else if n == 0 then
        assert '/' !in comps[0] && r[..|comps[0]|] == comps[0];
        assert r[0] == comps[0][0];
        r
      else r
  }

  /** `os.path.abspath(p)` with `cwd` standing for `os.getcwd()`. */
  function AbsPath(cwd: string, p: string): (r: string)
    ensures IsAbs(cwd) ==> IsAbs(r)
  {
    NormPath(if IsAbs(p) then p else PathJoin(cwd, p))
  }

  /** `pathlib.PurePosixPath(p).parts`: the root (`/`, or `//` for exactly two) and the non-empty, non-`.` names. */
  function PathParts(p: string): (r: seq<string>)
    ensures forall i :: 0 <= i < |r| ==> |r[i]| > 0 && r[i] != "."
    ensures IsAbs(p) ==> |r| > 0 && AllSlashes(r[0])
  {
    var n := RootSlashes(p);
    var names := Names(Split(p, '/'));
    if n > 0 then
      assert Slashes(n)[0] == '/';
      [Slashes(n)] + names
    else names
  }

  /** The pieces of a path that name something: non-empty and not `.`. */
  function Names(pieces: seq<string>): (r: seq<string>)
    ensures forall i :: 0 <= i < |r| ==> |r[i]| > 0 && r[i] != "."
    ensures forall x :: x in r <==> x in pieces && x != "" && x != "."
  {
    if |pieces| == 0 then []
    else
      var rest := Names(pieces[1..]);
      assert forall x :: x in pieces <==> x == pieces[0] || x in pieces[1..];
      if pieces[0] == "" || pieces[0] == "." then rest else [pieces[0]] + rest
  }

  /** The `glob` module's `*<suffix>`: the name ends with the suffix and is not hidden. */
  predicate GlobMatch(name: string, suffix: string)
  {
    EndsWith(name, suffix) && !StartsWith(name, ".")
  }

  /** `pathlib`'s `*<suffix>`, which also matches hidden names. */
  predicate PathlibGlobMatch(name: string, suffix: string)
  {
    EndsWith(name, suffix)
  }
}
